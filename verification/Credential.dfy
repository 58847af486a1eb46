/**
 The credential controller as it runs: it reads the request, changes its own
 copy of the status and writes to the API store, one call at a time. Each
 method is proved to leave the store as CredentialSpec says, with nothing
 irrevocable undone.
 */
module Credential {
  import opened Options
  import opened CredentialPolicy
  import opened CredentialSpec
  import opened CredentialRuns

  class Reconciler {
    // The API store.
    var status: Status
    var finalizer: bool
    var owner: Option<Owner>
    var deleting: bool
    var gone: bool
    var job: Option<Job>
    var creates: seq<CreateIssued>
    // The status copy of the reconcile under way.
    var copy: Status

    constructor ()
      ensures View() == FreshStore
    {
      status, finalizer, owner, deleting, gone, job, creates := NoStatus, false, None, false, false, None, [];
      copy := NoStatus;
    }

    ghost function View(): Store
      reads this
    {
      Store(status, finalizer, owner, deleting, gone, job, creates)
    }

    /** setStatus once the copy is changed: patch it into the store. */
    method PatchStatus(w: Write) returns (ok: bool)
      modifies `status
      ensures View() == WriteStatus(old(View()), copy, w) && ok == (w == Done)
    {
      if w == Done || w == LostReply {
        status := copy;
      }
      ok := w == Done;
    }

    method SetDenied(code: ErrorCode, w: Write) returns (ok: bool)
      modifies `status, `copy
      ensures View() == WriteDenied(old(View()), old(copy), code, w) && ok == (w == Done)
      ensures copy == old(copy).(phase := Denied, errorCode := code)
    {
      copy := copy.(phase := Denied, errorCode := code);
      ok := PatchStatus(w);
    }

    method UnknownOutcomeFor(code: ErrorCode, w: Writes) returns (ok: bool)
      modifies `status, `copy, `job
      ensures View() == ToUnknown(old(View()), old(copy), code, w)
      ensures ok == (w.status == Done && (old(copy).runnerName != "" ==> w.delete == Done))
    {
      if copy.runnerName != "" {
        if w.delete == Done || w.delete == LostReply {
          job := None;
        }
        if w.delete != Done {
          return false;
        }
      }
      copy := copy.(phase := UnknownOutcome, errorCode := code);
      ok := PatchStatus(w.status);
    }

    method CleanUpAndRemoveFinalizer(w: Writes)
      modifies `finalizer, `gone
      ensures View() == RemoveFinalizer(old(View()), w)
    {
      if w.networkPolicy != Done || !finalizer {
        return;
      }
      if w.finalizer == Done || w.finalizer == LostReply {
        finalizer := false;
        gone := deleting;
      }
    }

    method RevokeAndRemoveFinalizer(w: Writes)
      requires copy == status
      modifies this
      ensures View() == Revoke(old(View()), w)
    {
      if copy.runnerName != "" && !IsTerminal(copy.phase) {
        var ok := UnknownOutcomeFor(RunnerFailed, w);
        if !ok {
          return;
        }
      }
      CleanUpAndRemoveFinalizer(w);
    }

    /** A request under way: its store is in order and its outcome still open. */
    ghost predicate Open(intent: Intent)
      reads this
    {
      StoreOk(intent, View()) && !IsTerminal(status.phase) && copy == status
    }

    method ObserveRunner(ghost intent: Intent, seen: Reads, w: Writes)
      requires Open(intent) && status.runnerName != ""
      modifies this
      ensures View() == Observe(old(View()), seen, w) && Good(intent, old(View()), View())
    {
      ObserveGood(intent, View(), seen, w);
      if seen.jobUnreadable {
        return;
      }
      if job.None? {
        var _ := UnknownOutcomeFor(RunnerFailed, w);
        return;
      }
      if job.value.succeeded {
        if !seen.result.Terminated? || !BoundedOutcome(seen.result.message) {
          var _ := UnknownOutcomeFor(RunnerFailed, w);
          return;
        }
        copy := copy.(podUID := seen.result.podUID);
        if seen.result.message.errorCode != NoError {
          copy := copy.(phase := Failed, errorCode := seen.result.message.errorCode);
        } else {
          copy := copy.(phase := Succeeded, result := seen.result.message.issue, errorCode := NoError);
        }
        var _ := PatchStatus(w.status);
        return;
      }
      if job.value.failed {
        var _ := UnknownOutcomeFor(RunnerFailed, w);
        return;
      }
      if copy.phase != Running {
        if seen.pod.PodsUnreadable? {
          return;
        }
        copy := copy.(phase := Running);
        if seen.pod.uid != "" {
          copy := copy.(podUID := seen.pod.uid);
        }
        var _ := PatchStatus(w.status);
      }
    }

    /** Read the Job, consume the ticket, and only then create the Job. */
    method ConsumeAndCreate(intent: Intent, seen: Reads, w: Writes)
      requires Open(intent) && status.runnerName == "" && seen.metadata.Metadata?
      modifies this
      ensures View() == Launch(old(View()), intent, seen, w) && Good(intent, old(View()), View())
    {
      LaunchGood(intent, View(), seen, w);
      if seen.jobUnreadable {
        return;
      }
      var found := job.Some?;
      copy := copy.(phase := TicketConsumed, specDigest := intent.digest, runnerName := JobName(intent.name));
      copy := copy.(secretUID := seen.metadata.uid, secretResourceVersion := seen.metadata.resourceVersion,
                    errorCode := NoError);
      var ok := PatchStatus(w.consume);
      if !ok || found {
        return;
      }
      if !seen.jobRenders {
        var _ := UnknownOutcomeFor(RunnerFailed, w);
        return;
      }
      if w.create == Crash {
        return;
      }
      creates := creates + [CreateIssued(seen, status.runnerName)];
      if w.create == Done || w.create == LostReply {
        job := Some(Job(false, false));
      }
      if w.create != Done {
        var _ := UnknownOutcomeFor(RunnerFailed, w);
      }
    }

    method CheckSecretAndRun(intent: Intent, seen: Reads, w: Writes)
      requires Open(intent)
      modifies this
      ensures View() == WithMetadata(old(View()), intent, seen, w) && Good(intent, old(View()), View())
    {
      MetadataGood(intent, View(), seen, w);
      if seen.metadata.MetadataUnreadable? {
        if copy.runnerName != "" {
          var _ := UnknownOutcomeFor(RunnerFailed, w);
          return;
        }
        copy := copy.(phase := Pending, specDigest := intent.digest, errorCode := SecretBindingInvalid);
        var _ := PatchStatus(w.status);
        return;
      }
      if seen.metadata.uid != intent.binding.uid || seen.metadata.resourceVersion != intent.binding.resourceVersion {
        copy := copy.(specDigest := intent.digest);
        var _ := SetDenied(SecretBindingInvalid, w.status);
        return;
      }
      if copy.runnerName != "" &&
         (seen.metadata.uid != copy.secretUID || seen.metadata.resourceVersion != copy.secretResourceVersion) {
        var _ := UnknownOutcomeFor(RunnerFailed, w);
        return;
      }
      if w.networkPolicy != Done {
        return;
      }
      if copy.runnerName != "" {
        ObserveRunner(intent, seen, w);
        return;
      }
      ConsumeAndCreate(intent, seen, w);
    }

    method ApplyVerdict(intent: Intent, verdict: Verdict, seen: Reads, w: Writes)
      requires Open(intent)
      modifies this
      ensures View() == WithVerdict(old(View()), intent, verdict, seen, w) && Good(intent, old(View()), View())
    {
      VerdictGood(intent, View(), verdict, seen, w);
      match verdict
      case NotAuthorized =>
        if copy.runnerName != "" {
          var _ := UnknownOutcomeFor(RunnerFailed, w);
        } else {
          copy := copy.(specDigest := intent.digest);
          var _ := SetDenied(PolicyDenied, w.status);
        }
      case BindingDiffers =>
        if copy.runnerName != "" {
          var _ := UnknownOutcomeFor(SecretBindingInvalid, w);
        } else {
          copy := copy.(specDigest := intent.digest);
          var _ := SetDenied(SecretBindingInvalid, w.status);
        }
      case NoApprovalYet =>
        copy := copy.(phase := PendingApproval, specDigest := intent.digest);
        var _ := PatchStatus(w.status);
      case Hold =>
      case DeniedByApproval =>
        copy := copy.(specDigest := intent.digest);
        var _ := SetDenied(ApprovalDenied, w.status);
      case Proceed =>
        CheckSecretAndRun(intent, seen, w);
    }

    /** bindRequest: one owner for good; another owner's request is denied. */
    method BindRequest(wanted: Owner, w: Writes) returns (bound: bool)
      modifies `status, `copy, `owner
      ensures bound <==> old(owner) == Some(wanted) || (old(owner).None? && w.owner == Done)
      ensures bound ==> View() == old(View()).(owner := Some(wanted)) && copy == old(copy)
      ensures !bound ==>
                View() == if old(owner).Some? then WriteDenied(old(View()), old(copy), PolicyDenied, w.status)
                          else if w.owner == LostReply then old(View()).(owner := Some(wanted))
                          else old(View())
    {
      bound := false;
      if owner.Some? && owner.value != wanted {
        var _ := SetDenied(PolicyDenied, w.status);
        return;
      }
      if owner.None? {
        if w.owner == Done || w.owner == LostReply {
          owner := Some(wanted);
        }
        if w.owner != Done {
          return;
        }
      }
      bound := true;
    }

    method BindAndApply(intent: Intent, verdict: Verdict, seen: Reads, w: Writes)
      requires Open(intent) && seen.instance.InstanceFound?
      modifies this
      ensures View() == WithInstance(old(View()), intent, verdict, seen, w) && Good(intent, old(View()), View())
    {
      InstanceGood(intent, View(), verdict, seen, w);
      if intent.name != RequestName(intent.ticketDigest) {
        var _ := SetDenied(PolicyDenied, w.status);
        return;
      }
      var bound := BindRequest(Owner(seen.instance.uid, seen.instance.name), w);
      if bound {
        CheckTicket(intent, verdict, seen, w);
      }
    }

    /** The spec digest and the expiry, then the verdict. */
    method CheckTicket(intent: Intent, verdict: Verdict, seen: Reads, w: Writes)
      requires Open(intent)
      modifies this
      ensures View() == WithOwner(old(View()), intent, verdict, seen, w) && Good(intent, old(View()), View())
    {
      OwnerGood(intent, View(), verdict, seen, w);
      if copy.specDigest != "" && copy.specDigest != intent.digest {
        var _ := SetDenied(PolicyDenied, w.status);
        return;
      }
      if intent.expiresAt.None? || seen.now >= intent.expiresAt.value {
        copy := copy.(specDigest := intent.digest);
        var _ := SetDenied(TicketExpired, w.status);
        return;
      }
      ApplyVerdict(intent, verdict, seen, w);
    }

    /** One reconcile: nothing irrevocable is undone, and a Create is issued only with every gate open. */
    method Reconcile(intent: Intent, seen: Reads, w: Writes)
      requires StoreOk(intent, View())
      modifies this
      ensures View() == Reconciled(old(View()), intent, seen, w)
      ensures Good(intent, old(View()), View()) && OnlyJustified(intent, old(View()), View(), seen)
    {
      ReconcileGood(intent, View(), seen, w);
      ReconcileJustified(intent, View(), seen, w);
      if gone {
        return;
      }
      copy := status;
      if deleting {
        RevokeAndRemoveFinalizer(w);
        return;
      }
      if IsTerminal(copy.phase) {
        CleanUpAndRemoveFinalizer(w);
        return;
      }
      if !finalizer {
        if w.finalizer == Done || w.finalizer == LostReply {
          finalizer := true;
        }
        if w.finalizer != Done {
          return;
        }
      }
      match seen.instance
      case InstanceUnreadable =>
      case InstanceMissing =>
        var _ := SetDenied(PolicyDenied, w.status);
      case InstanceFound(_, _, _) =>
        BindAndApply(intent, Judge(intent, seen.instance.policy, seen.approval), seen, w);
    }
  }
}
