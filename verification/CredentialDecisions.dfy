/**
 What a reconcile does with a request, exactly: when it creates the Runner Job,
 and what it records in every other case.
 */
module CredentialDecisions {
  import opened Options
  import opened CredentialPolicy
  import opened CredentialSpec
  import opened CredentialRuns

  /** The request is there, is not being deleted, and its outcome is open. */
  predicate Live(s: Store) {
    !s.gone && !s.deleting && s.status.phase !in {Succeeded, Failed, Denied, UnknownOutcome}
  }

  /** The finalizer is set, or is set now. */
  predicate Guarded(s: Store, w: Writes) {
    s.finalizer || w.finalizer == Done
  }

  /** The request carries its ticket's name and belongs, or now comes to belong, to the instance found. */
  predicate Identified(s: Store, intent: Intent, seen: Reads, w: Writes) {
    && Guarded(s, w) && seen.instance.InstanceFound? && intent.name == RequestName(intent.ticketDigest)
    && (if s.owner.Some? then s.owner.value == Owner(seen.instance.uid, seen.instance.name) else w.owner == Done)
  }

  predicate SameSpec(s: Store, intent: Intent) {
    s.status.specDigest == "" || s.status.specDigest == intent.digest
  }

  predicate Unexpired(intent: Intent, seen: Reads) {
    intent.expiresAt.Some? && seen.now < intent.expiresAt.value
  }

  /** The store once finalizer and owner are written. */
  function Bound(s: Store, seen: Reads): Store
    requires seen.instance.InstanceFound?
  {
    s.(finalizer := true, owner := Some(Owner(seen.instance.uid, seen.instance.name)))
  }

  lemma IdentifiedGoesOn(s: Store, intent: Intent, seen: Reads, w: Writes)
    requires Live(s) && Identified(s, intent, seen, w)
    ensures Reconciled(s, intent, seen, w) ==
            WithOwner(Bound(s, seen), intent, Judge(intent, seen.instance.policy, seen.approval), seen, w)
  {
    assert !s.finalizer ==> w.finalizer == Done;
  }

  // ---------------------------------------------------------------- the Create

  /** Everything a reconcile needs to issue the Create. */
  ghost predicate Creates(s: Store, intent: Intent, seen: Reads, w: Writes) {
    && Live(s) && s.status.runnerName == "" && Identified(s, intent, seen, w) && SameSpec(s, intent)
    && Justified(intent, seen)
    && !seen.jobUnreadable && seen.jobRenders
    && w.networkPolicy == Done && w.consume == Done && w.create != Crash
  }

  lemma LaunchExactly(s: Store, intent: Intent, seen: Reads, w: Writes)
    requires seen.metadata.Metadata? && s.job.None?
    ensures Launch(s, intent, seen, w).creates ==
            if !seen.jobUnreadable && w.consume == Done && seen.jobRenders && w.create != Crash
            then s.creates + [CreateIssued(seen, JobName(intent.name))] else s.creates
  {
  }

  lemma MetadataExactly(s: Store, intent: Intent, seen: Reads, w: Writes)
    requires s.status.runnerName != "" || s.job.None?
    ensures WithMetadata(s, intent, seen, w).creates ==
            if && s.status.runnerName == "" && BindingMatches(seen.metadata, intent.binding) && w.networkPolicy == Done
               && !seen.jobUnreadable && w.consume == Done && seen.jobRenders && w.create != Crash
            then s.creates + [CreateIssued(seen, JobName(intent.name))] else s.creates
  {
    if s.status.runnerName == "" && seen.metadata.Metadata? {
      LaunchExactly(s, intent, seen, w);
    }
  }

  lemma OwnerExactly(s: Store, intent: Intent, verdict: Verdict, seen: Reads, w: Writes)
    requires s.status.runnerName != "" || s.job.None?
    ensures WithOwner(s, intent, verdict, seen, w).creates ==
            if && SameSpec(s, intent) && Unexpired(intent, seen) && verdict == Proceed
               && s.status.runnerName == "" && BindingMatches(seen.metadata, intent.binding) && w.networkPolicy == Done
               && !seen.jobUnreadable && w.consume == Done && seen.jobRenders && w.create != Crash
            then s.creates + [CreateIssued(seen, JobName(intent.name))] else s.creates
  {
    MetadataExactly(s, intent, seen, w);
  }

  /** A reconcile issues the Create if and only if everything it needs is there, and then exactly one. */
  lemma CreateExactly(s: Store, intent: Intent, seen: Reads, w: Writes)
    requires StoreOk(intent, s)
    ensures Reconciled(s, intent, seen, w).creates ==
            if Creates(s, intent, seen, w) then s.creates + [CreateIssued(seen, JobName(intent.name))] else s.creates
  {
    GatesAreJustified(intent, seen);
    if Live(s) && Identified(s, intent, seen, w) {
      IdentifiedGoesOn(s, intent, seen, w);
      OwnerExactly(Bound(s, seen), intent, Judge(intent, seen.instance.policy, seen.approval), seen, w);
    } else {
      UnidentifiedCreatesNothing(s, intent, seen, w);
    }
  }

  lemma UnidentifiedCreatesNothing(s: Store, intent: Intent, seen: Reads, w: Writes)
    requires !(Live(s) && Identified(s, intent, seen, w))
    ensures Reconciled(s, intent, seen, w).creates == s.creates
  {
  }

  /** With every write done the Job stands, behind the record that the ticket is consumed. */
  lemma CreateStands(s: Store, intent: Intent, seen: Reads, w: Writes)
    requires StoreOk(intent, s) && Creates(s, intent, seen, w) && w.create == Done
    ensures var s' := Reconciled(s, intent, seen, w);
            && s'.job == Some(Job(false, false))
            && s'.status == s.status.(phase := TicketConsumed, runnerName := JobName(intent.name),
                                      specDigest := intent.digest,
                                      secretUID := intent.binding.uid, errorCode := NoError,
                                      secretResourceVersion := intent.binding.resourceVersion)
  {
    GatesAreJustified(intent, seen);
    IdentifiedGoesOn(s, intent, seen, w);
  }

  /** Over every run: a step issues the Create exactly as a reconcile that has all it needs. */
  lemma CreateStepExactly(stores: seq<Store>, intent: Intent, steps: seq<Step>, i: nat)
    requires IsRun(stores, intent, steps) && i < |steps|
    ensures stores[i + 1].creates != stores[i].creates <==>
            steps[i].Reconcile? && Creates(stores[i], intent, steps[i].seen, steps[i].writes)
  {
    StoreAlwaysOk(stores, intent, steps, i);
    assert NextAt(stores, intent, steps, i);
    if steps[i].Reconcile? {
      CreateExactly(stores[i], intent, steps[i].seen, steps[i].writes);
    }
  }

  // ---------------------------------------------------------------- what else is recorded

  /** The policy gives the consumer this mode for the operation and repository. */
  ghost predicate Allows(policy: Option<Policy>, intent: Intent, mode: Mode) {
    && policy.Some? && ValidSecretRef(policy.value.secret) && intent.operation == CreateIssue
       && ValidRepository(intent.repository)
    && exists i: nat :: Grants(policy.value, i, intent.consumer, intent.operation, intent.repository, mode)
  }

  /** A status that is written, or not. */
  predicate Records(s: Store, s': Store, status: Status, w: Write) {
    s'.status == if w == Done || w == LostReply then status else s.status
  }

  /** A request that cannot be identified is denied, or waits for its own writes and reads. */
  lemma UnidentifiedDenied(s: Store, intent: Intent, seen: Reads, w: Writes)
    requires Live(s)
    ensures var s' := Reconciled(s, intent, seen, w);
            var denied := s.status.(phase := Denied, errorCode := PolicyDenied);
            && (!Guarded(s, w) ==> s'.status == s.status)
            && (Guarded(s, w) && seen.instance.InstanceUnreadable? ==> s'.status == s.status)
            && (Guarded(s, w) && seen.instance.InstanceMissing? ==> Records(s, s', denied, w.status))
            && (Guarded(s, w) && seen.instance.InstanceFound? && intent.name != RequestName(intent.ticketDigest) ==>
                  Records(s, s', denied, w.status))
            && (Guarded(s, w) && seen.instance.InstanceFound? && intent.name == RequestName(intent.ticketDigest) ==>
                  && (s.owner.Some? && s.owner.value != Owner(seen.instance.uid, seen.instance.name) ==>
                        Records(s, s', denied, w.status))
                  && (s.owner.None? && w.owner != Done ==> s'.status == s.status))
            && (Identified(s, intent, seen, w) && !SameSpec(s, intent) ==> Records(s, s', denied, w.status))
            && (Identified(s, intent, seen, w) && SameSpec(s, intent) && !Unexpired(intent, seen) ==>
                  Records(s, s', s.status.(phase := Denied, errorCode := TicketExpired, specDigest := intent.digest),
                          w.status))
  {
  }

  /**
   An identified, unexpired request without a runner, by what policy, binding,
   approval and Secret say: denied with its reason, waiting for approval, or
   held.
   */
  lemma FreshVerdicts(s: Store, intent: Intent, seen: Reads, w: Writes, mode: Mode)
    requires Live(s) && s.status.runnerName == "" && Identified(s, intent, seen, w) && SameSpec(s, intent)
             && Unexpired(intent, seen)
    ensures var s' := Reconciled(s, intent, seen, w); var status := s.status.(specDigest := intent.digest);
            var policy := seen.instance.policy;
            && ((forall m :: !Allows(policy, intent, m)) ==>
                  Records(s, s', status.(phase := Denied, errorCode := PolicyDenied), w.status))
            && (Allows(policy, intent, mode) && policy.value.secret != intent.binding ==>
                  Records(s, s', status.(phase := Denied, errorCode := SecretBindingInvalid), w.status))
            && (Allows(policy, intent, mode) && policy.value.secret == intent.binding && mode == Confirm ==>
                  match seen.approval
                  case ApprovalMissing => Records(s, s', status.(phase := PendingApproval), w.status)
                  case ApprovalUnreadable => s'.status == s.status
                  case Approval(name, decision) =>
                    if name != intent.name || decision == Undecided then s'.status == s.status
                    else decision == Deny ==>
                      Records(s, s', status.(phase := Denied, errorCode := ApprovalDenied), w.status))
  {
    AuthorizeExactly(seen.instance.policy, intent.consumer, intent.operation, intent.repository, mode);
    NoModeMeansNone(seen.instance.policy, intent);
    IdentifiedGoesOn(s, intent, seen, w);
  }

  lemma NoModeMeansNone(policy: Option<Policy>, intent: Intent)
    ensures (forall m :: !Allows(policy, intent, m)) <==>
            Authorize(policy, intent.consumer, intent.operation, intent.repository).None?
  {
    var answer := Authorize(policy, intent.consumer, intent.operation, intent.repository);
    forall m ensures Allows(policy, intent, m) <==> answer == Some(m) {
      AuthorizeExactly(policy, intent.consumer, intent.operation, intent.repository, m);
    }
    assert answer.Some? ==> answer == Some(answer.value);
  }

  /**
   An allowed request without a runner, by the live Secret: held as pending while it
   cannot be read, denied if it differs.
   */
  lemma FreshSecret(s: Store, intent: Intent, seen: Reads, w: Writes)
    requires Live(s) && s.status.runnerName == "" && Identified(s, intent, seen, w) && SameSpec(s, intent)
             && Unexpired(intent, seen)
    requires Judge(intent, seen.instance.policy, seen.approval) == Proceed
    ensures var s' := Reconciled(s, intent, seen, w);
            var status := s.status.(specDigest := intent.digest, errorCode := SecretBindingInvalid);
            match seen.metadata
            case MetadataUnreadable => Records(s, s', status.(phase := Pending), w.status)
            case Metadata(uid, version) =>
              uid != intent.binding.uid || version != intent.binding.resourceVersion ==>
                Records(s, s', status.(phase := Denied), w.status)
  {
    IdentifiedGoesOn(s, intent, seen, w);
  }

  // ---------------------------------------------------------------- with a runner

  /** A reconcile in which the runner is looked at: all that was required for it still is. */
  ghost predicate Watches(s: Store, intent: Intent, seen: Reads, w: Writes) {
    && Live(s) && s.status.runnerName != "" && Identified(s, intent, seen, w) && SameSpec(s, intent)
       && Justified(intent, seen)
    && s.status.secretUID == intent.binding.uid && s.status.secretResourceVersion == intent.binding.resourceVersion
    && w.networkPolicy == Done && !seen.jobUnreadable
  }

  /** The Job is deleted, and once that is confirmed the outcome is recorded as unknown. */
  predicate EndsUnknown(s: Store, s': Store, code: ErrorCode, w: Writes) {
    && (w.delete == Done || w.delete == LostReply ==> s'.job.None?)
    && (w.delete == Refused || w.delete == Crash ==> s'.job == s.job)
    && s'.status == if w.delete == Done && (w.status == Done || w.status == LostReply)
                    then s.status.(phase := UnknownOutcome, errorCode := code) else s.status
  }

  lemma WatchedIsObserved(s: Store, intent: Intent, seen: Reads, w: Writes)
    requires Watches(s, intent, seen, w)
    ensures Reconciled(s, intent, seen, w) == Observe(Bound(s, seen), seen, w)
  {
    GatesAreJustified(intent, seen);
    IdentifiedGoesOn(s, intent, seen, w);
  }

  /**
   The runner's end becomes the request's end: a complete issue is recorded with
   Succeeded, a bounded error code with Failed, and anything else, a failed or
   a vanished Job is an unknown outcome; a Job still at work is Running.
   */
  lemma RunnerOutcomeExactly(s: Store, intent: Intent, seen: Reads, w: Writes)
    requires Watches(s, intent, seen, w)
    ensures var s' := Reconciled(s, intent, seen, w);
            if s.job.None? then EndsUnknown(s, s', RunnerFailed, w)
            else if s.job.value.succeeded then
              match seen.result
              case Terminated(podUID, Message(Some(Issue(number, url, title)), code)) =>
                if number > 0 && url != "" && title != "" && code == NoError
                then Records(s, s', s.status.(phase := Succeeded, podUID := podUID, errorCode := NoError,
                                              result := Some(Issue(number, url, title))), w.status)
                else EndsUnknown(s, s', RunnerFailed, w)
              case Terminated(podUID, Message(None, code)) =>
                if code != NoError && !code.Unbounded?
                then Records(s, s', s.status.(phase := Failed, podUID := podUID, errorCode := code), w.status)
                else EndsUnknown(s, s', RunnerFailed, w)
              case _ => EndsUnknown(s, s', RunnerFailed, w)
            else if s.job.value.failed then EndsUnknown(s, s', RunnerFailed, w)
            else if s.status.phase == Running || seen.pod.PodsUnreadable? then s'.status == s.status
            else Records(s, s', s.status.(phase := Running,
                                          podUID := if seen.pod.uid != "" then seen.pod.uid
                                            else s.status.podUID), w.status)
  {
    WatchedIsObserved(s, intent, seen, w);
  }

  /** A runner whose authorization is gone, or whose Secret cannot be read or was bound differently, ends unknown. */
  lemma RunnerRevoked(s: Store, intent: Intent, seen: Reads, w: Writes, mode: Mode)
    requires Live(s) && s.status.runnerName != "" && Identified(s, intent, seen, w) && SameSpec(s, intent)
             && Unexpired(intent, seen)
    ensures var s' := Reconciled(s, intent, seen, w); var policy := seen.instance.policy;
            && ((forall m :: !Allows(policy, intent, m)) ==> EndsUnknown(s, s', RunnerFailed, w))
            && (Allows(policy, intent, mode) && policy.value.secret != intent.binding ==>
                  EndsUnknown(s, s', SecretBindingInvalid, w))
            && (Judge(intent, policy, seen.approval) == Proceed ==>
                  match seen.metadata
                  case MetadataUnreadable => EndsUnknown(s, s', RunnerFailed, w)
                  case Metadata(uid, version) =>
                    && uid == intent.binding.uid && version == intent.binding.resourceVersion
                    && (uid != s.status.secretUID || version != s.status.secretResourceVersion)
                    ==> EndsUnknown(s, s', RunnerFailed, w))
  {
    AuthorizeExactly(seen.instance.policy, intent.consumer, intent.operation, intent.repository, mode);
    NoModeMeansNone(seen.instance.policy, intent);
    IdentifiedGoesOn(s, intent, seen, w);
  }

  // ---------------------------------------------------------------- deletion

  /**
   A deleted request is gone exactly once its finalizer is removed, which waits
   for the network policy and, if its runner's outcome was still open, for the
   confirmed delete of the Job and the record that the outcome is unknown.
   */
  lemma DeletionExactly(s: Store, intent: Intent, seen: Reads, w: Writes)
    requires s.deleting && !s.gone
    ensures var s' := Reconciled(s, intent, seen, w);
            var unsettled := s.status.runnerName != ""
              && s.status.phase !in {Succeeded, Failed, Denied, UnknownOutcome};
            && s'.creates == s.creates && s'.owner == s.owner
            && (s'.gone <==> && s.finalizer && w.networkPolicy == Done
                             && (w.finalizer == Done || w.finalizer == LostReply)
                             && (unsettled ==> w.delete == Done && w.status == Done))
            && (s'.finalizer <==> s.finalizer && !s'.gone)
            && (if unsettled then EndsUnknown(s, s', RunnerFailed, w) else s'.job == s.job && s'.status == s.status)
  {
  }

  /** A request that has ended only loses its finalizer, once its network policy is gone. */
  lemma EndedIsReleased(s: Store, intent: Intent, seen: Reads, w: Writes)
    requires !s.gone && !s.deleting && s.status.phase in {Succeeded, Failed, Denied, UnknownOutcome}
    ensures Reconciled(s, intent, seen, w) ==
            if s.finalizer && w.networkPolicy == Done && (w.finalizer == Done || w.finalizer == LostReply)
            then s.(finalizer := false) else s
  {
  }

  // ---------------------------------------------------------------- names

  /** One request for each ticket digest, up to its first 24 characters, and one Job for each request. */
  lemma NamesExactly(a: string, b: string, x: string, y: string)
    requires |a| >= 24 && |b| >= 24
    ensures RequestName(a) == RequestName(b) <==> a[..24] == b[..24]
    ensures JobName(x) == JobName(y) <==> x == y
  {
    assert RequestName(a)[|"credential-"|..] == a[..24] && RequestName(b)[|"credential-"|..] == b[..24];
    assert JobName(x)[..|x|] == x && JobName(y)[..|y|] == y;
  }
}
