/**
 Every run of the credential controller, with crashes, refused writes and lost
 replies: one ticket, at most one Runner Job.
 */
module CredentialRuns {
  import opened Options
  import opened CredentialPolicy
  import opened CredentialSpec

  /** Nobody but the controller writes the request's status or creates its Job; the Job may progress or vanish. */
  datatype Step =
    | Reconcile(seen: Reads, writes: Writes)
    | JobMoves(job: Option<Job>)
    | DeletionRequested

  function Next(s: Store, intent: Intent, step: Step): Store {
    match step
    case Reconcile(seen, writes) => Reconciled(s, intent, seen, writes)
    case JobMoves(job) => if s.job.Some? then s.(job := job) else s
    case DeletionRequested => s.(deleting := true)
  }

  predicate NextAt(stores: seq<Store>, intent: Intent, steps: seq<Step>, i: nat)
    requires |stores| == |steps| + 1 && i < |steps|
  {
    stores[i + 1] == Next(stores[i], intent, steps[i])
  }

  ghost predicate IsRun(stores: seq<Store>, intent: Intent, steps: seq<Step>) {
    && |stores| == |steps| + 1 && stores[0] == FreshStore
    && forall i: nat :: i < |steps| ==> NextAt(stores, intent, steps, i)
  }

  /** Everything that must hold of what a reconcile read for it to issue the Create. */
  predicate Gates(intent: Intent, seen: Reads) {
    && intent.name == RequestName(intent.ticketDigest)
    && intent.expiresAt.Some? && seen.now < intent.expiresAt.value
    && seen.instance.InstanceFound?
    && Judge(intent, seen.instance.policy, seen.approval) == Proceed
    && BindingMatches(seen.metadata, intent.binding)
  }

  /** The verdict Proceed, spelt out. */
  lemma ProceedMeans(intent: Intent, policy: Option<Policy>, approval: ApprovalRead)
    ensures Judge(intent, policy, approval) == Proceed <==>
            exists mode ::
              && Authorize(policy, intent.consumer, intent.operation, intent.repository) == Some(mode)
              && policy.value.secret == intent.binding
              && (mode == Confirm ==> approval == Approval(intent.name, Approve))
  {
  }

  predicate StatusOk(intent: Intent, status: Status) {
    && (status.runnerName == "" || status.runnerName == JobName(intent.name))
    && (status.phase == Succeeded ==>
        status.result.Some? && CompleteIssue(status.result.value) && status.errorCode == NoError)
    && (status.phase == Failed ==> ValidErrorCode(status.errorCode))
    && (IsTerminal(status.phase) && status.phase != Succeeded ==> ValidErrorCode(status.errorCode))
  }

  predicate StoreOk(intent: Intent, s: Store) {
    && StatusOk(intent, s.status)
    && |s.creates| <= 1
    && (s.creates != [] ==> s.status.runnerName != "")
    && (s.job.Some? ==> s.creates != [])
    && (s.status.phase == UnknownOutcome ==> s.job.None?)
  }

  /** What no step ever undoes. */
  predicate Irrevocable(s: Store, s': Store) {
    && (IsTerminal(s.status.phase) ==> s'.status == s.status && s'.creates == s.creates)
    && (s.status.runnerName != "" ==> s'.status.runnerName == s.status.runnerName)
    && s.creates <= s'.creates
    && (s.status.runnerName != "" ==> s'.creates == s.creates && (s.job.None? ==> s'.job.None?))
  }

  predicate Good(intent: Intent, s: Store, s': Store) {
    StoreOk(intent, s') && Irrevocable(s, s')
  }

  lemma JobNameNonEmpty(name: string)
    ensures JobName(name) != ""
  {
  }

  /** Recording a status in which nothing irrevocable changed. */
  lemma WriteGood(intent: Intent, s: Store, status: Status, w: Write)
    requires StoreOk(intent, s) && StatusOk(intent, status) && !IsTerminal(s.status.phase)
    requires status.runnerName == s.status.runnerName
    requires status.phase == UnknownOutcome ==> s.job.None?
    ensures Good(intent, s, WriteStatus(s, status, w))
  {
  }

  lemma DeniedGood(intent: Intent, s: Store, status: Status, code: ErrorCode, w: Write)
    requires StoreOk(intent, s) && !IsTerminal(s.status.phase) && StatusOk(intent, status) && ValidErrorCode(code)
    requires status.runnerName == s.status.runnerName
    ensures Good(intent, s, WriteDenied(s, status, code, w))
  {
    WriteGood(intent, s, status.(phase := Denied, errorCode := code), w);
  }

  lemma UnknownGood(intent: Intent, s: Store, status: Status, code: ErrorCode, w: Writes)
    requires StoreOk(intent, s) && StatusOk(intent, status) && !IsTerminal(s.status.phase) && ValidErrorCode(code)
    requires status.runnerName == s.status.runnerName != ""
    ensures Good(intent, s, ToUnknown(s, status, code, w))
  {
  }

  lemma ObserveGood(intent: Intent, s: Store, seen: Reads, w: Writes)
    requires StoreOk(intent, s) && !IsTerminal(s.status.phase) && s.status.runnerName != ""
    ensures Good(intent, s, Observe(s, seen, w))
  {
    UnknownGood(intent, s, s.status, RunnerFailed, w);
    if !seen.jobUnreadable && s.job.Some? && s.job.value.succeeded && seen.result.Terminated?
      && BoundedOutcome(seen.result.message) {
      ResultGood(intent, s, seen, w);
    }
  }

  /** A bounded result makes a complete success or a failure with a bounded code. */
  lemma ResultGood(intent: Intent, s: Store, seen: Reads, w: Writes)
    requires StoreOk(intent, s) && !IsTerminal(s.status.phase) && s.status.runnerName != ""
    requires !seen.jobUnreadable && s.job.Some? && s.job.value.succeeded
    requires seen.result.Terminated? && BoundedOutcome(seen.result.message)
    ensures Good(intent, s, Observe(s, seen, w))
  {
    var message, podUID := seen.result.message, seen.result.podUID;
    if message.errorCode != NoError {
      WriteGood(intent, s, s.status.(phase := Failed, podUID := podUID, errorCode := message.errorCode), w.status);
    } else {
      WriteGood(intent, s,
                s.status.(phase := Succeeded, podUID := podUID, result := message.issue, errorCode := NoError),
                w.status);
    }
  }

  lemma LaunchGood(intent: Intent, s: Store, seen: Reads, w: Writes)
    requires StoreOk(intent, s) && !IsTerminal(s.status.phase) && s.status.runnerName == ""
    requires seen.metadata.Metadata?
    ensures Good(intent, s, Launch(s, intent, seen, w))
  {
    JobNameNonEmpty(intent.name);
    var consumed := Consumed(s.status, intent, seen.metadata);
    var recorded := WriteStatus(s, consumed, w.consume);
    assert StoreOk(intent, recorded);
    if w.consume == Done && !seen.jobUnreadable {
      var issued := recorded.(creates := recorded.creates + [CreateIssued(seen, recorded.status.runnerName)]);
      var created := issued.(job := Some(Job(false, false)));
      assert StoreOk(intent, issued) && StoreOk(intent, created);
      UnknownGood(intent, recorded, consumed, RunnerFailed, w);
      UnknownGood(intent, issued, consumed, RunnerFailed, w);
      UnknownGood(intent, created, consumed, RunnerFailed, w);
    }
  }

  lemma MetadataGood(intent: Intent, s: Store, seen: Reads, w: Writes)
    requires StoreOk(intent, s) && !IsTerminal(s.status.phase)
    ensures Good(intent, s, WithMetadata(s, intent, seen, w))
  {
    if s.status.runnerName != "" {
      UnknownGood(intent, s, s.status, RunnerFailed, w);
      ObserveGood(intent, s, seen, w);
    } else if BindingMatches(seen.metadata, intent.binding) {
      LaunchGood(intent, s, seen, w);
    }
  }

  lemma VerdictGood(intent: Intent, s: Store, verdict: Verdict, seen: Reads, w: Writes)
    requires StoreOk(intent, s) && !IsTerminal(s.status.phase)
    ensures Good(intent, s, WithVerdict(s, intent, verdict, seen, w))
  {
    if s.status.runnerName != "" {
      UnknownGood(intent, s, s.status, RunnerFailed, w);
      UnknownGood(intent, s, s.status, SecretBindingInvalid, w);
    }
    MetadataGood(intent, s, seen, w);
  }

  lemma OwnerGood(intent: Intent, s: Store, verdict: Verdict, seen: Reads, w: Writes)
    requires StoreOk(intent, s) && !IsTerminal(s.status.phase)
    ensures Good(intent, s, WithOwner(s, intent, verdict, seen, w))
  {
    if s.status.specDigest != "" && s.status.specDigest != intent.digest {
      DeniedGood(intent, s, s.status, PolicyDenied, w.status);
    } else if intent.expiresAt.None? || seen.now >= intent.expiresAt.value {
      DeniedGood(intent, s, s.status.(specDigest := intent.digest), TicketExpired, w.status);
    } else {
      VerdictGood(intent, s, verdict, seen, w);
    }
  }

  lemma InstanceGood(intent: Intent, s: Store, verdict: Verdict, seen: Reads, w: Writes)
    requires StoreOk(intent, s) && !IsTerminal(s.status.phase) && seen.instance.InstanceFound?
    ensures Good(intent, s, WithInstance(s, intent, verdict, seen, w))
  {
    var owner := Owner(seen.instance.uid, seen.instance.name);
    var bound := s.(owner := Some(owner));
    assert StoreOk(intent, bound);
    var s' := WithInstance(s, intent, verdict, seen, w);
    if intent.name != RequestName(intent.ticketDigest) || (s.owner.Some? && s.owner.value != owner) {
      DeniedGood(intent, s, s.status, PolicyDenied, w.status);
    } else if s.owner.None? && w.owner != Done {
      assert s'.status == s.status;
    } else {
      OwnerGood(intent, bound, verdict, seen, w);
    }
  }

  lemma ReconcileGood(intent: Intent, s: Store, seen: Reads, w: Writes)
    requires StoreOk(intent, s)
    ensures Good(intent, s, Reconciled(s, intent, seen, w))
  {
    if s.deleting && s.status.runnerName != "" && !IsTerminal(s.status.phase) {
      UnknownGood(intent, s, s.status, RunnerFailed, w);
    } else if !s.deleting && !IsTerminal(s.status.phase) && seen.instance.InstanceFound? {
      InstanceGood(intent, s.(finalizer := true), Judge(intent, seen.instance.policy, seen.approval), seen, w);
    }
  }

  // ---------------------------------------------------------------- why a Create is issued

  /** The store after a reconcile that issued no Create, or one justified Create. */
  predicate OnlyJustified(intent: Intent, s: Store, s': Store, seen: Reads) {
    s'.creates == s.creates
      || (s'.creates == s.creates + [CreateIssued(seen, JobName(intent.name))] && Gates(intent, seen))
  }

  lemma VerdictJustified(intent: Intent, s: Store, verdict: Verdict, seen: Reads, w: Writes)
    ensures var s' := WithVerdict(s, intent, verdict, seen, w);
            s'.creates == s.creates ||
            (s'.creates == s.creates + [CreateIssued(seen, JobName(intent.name))] && verdict == Proceed
             && BindingMatches(seen.metadata, intent.binding))
  {
    if verdict == Proceed {
      MetadataCreates(intent, s, seen, w);
    }
  }

  lemma MetadataCreates(intent: Intent, s: Store, seen: Reads, w: Writes)
    ensures var s' := WithMetadata(s, intent, seen, w);
            s'.creates == s.creates ||
            (s'.creates == s.creates + [CreateIssued(seen, JobName(intent.name))]
             && BindingMatches(seen.metadata, intent.binding))
  {
    if seen.metadata.Metadata? {
      LaunchCreates(intent, s, seen, w);
    }
  }

  lemma LaunchCreates(intent: Intent, s: Store, seen: Reads, w: Writes)
    requires seen.metadata.Metadata?
    ensures var s' := Launch(s, intent, seen, w);
            s'.creates == s.creates || s'.creates == s.creates + [CreateIssued(seen, JobName(intent.name))]
  {
  }

  lemma ReconcileJustified(intent: Intent, s: Store, seen: Reads, w: Writes)
    ensures OnlyJustified(intent, s, Reconciled(s, intent, seen, w), seen)
  {
    if seen.instance.InstanceFound? {
      var verdict := Judge(intent, seen.instance.policy, seen.approval);
      var bound := s.(finalizer := true, owner := Some(Owner(seen.instance.uid, seen.instance.name)));
      VerdictJustified(intent, bound, verdict, seen, w);
    }
  }

  lemma StepGood(intent: Intent, s: Store, step: Step)
    requires StoreOk(intent, s)
    ensures Good(intent, s, Next(s, intent, step))
  {
    if step.Reconcile? {
      ReconcileGood(intent, s, step.seen, step.writes);
    }
  }

  lemma {:induction false} StoreAlwaysOk(stores: seq<Store>, intent: Intent, steps: seq<Step>, i: nat)
    requires IsRun(stores, intent, steps) && i < |stores|
    ensures StoreOk(intent, stores[i])
  {
    if i > 0 {
      StoreAlwaysOk(stores, intent, steps, i - 1);
      GoodAt(stores, intent, steps, i - 1);
    }
  }

  lemma GoodAt(stores: seq<Store>, intent: Intent, steps: seq<Step>, i: nat)
    requires IsRun(stores, intent, steps) && i < |steps| && StoreOk(intent, stores[i])
    ensures Good(intent, stores[i], stores[i + 1])
  {
    assert NextAt(stores, intent, steps, i);
    StepGood(intent, stores[i], steps[i]);
  }

  lemma {:induction false} NothingUndone(stores: seq<Store>, intent: Intent, steps: seq<Step>, i: nat, j: nat)
    requires IsRun(stores, intent, steps) && i <= j < |stores|
    ensures Irrevocable(stores[i], stores[j])
    decreases j
  {
    if i < j {
      NothingUndone(stores, intent, steps, i, j - 1);
      IrrevocableAt(stores, intent, steps, j - 1);
      IrrevocableTransitive(stores[i], stores[j - 1], stores[j]);
    }
  }

  lemma IrrevocableAt(stores: seq<Store>, intent: Intent, steps: seq<Step>, i: nat)
    requires IsRun(stores, intent, steps) && i < |steps|
    ensures Irrevocable(stores[i], stores[i + 1])
  {
    StoreAlwaysOk(stores, intent, steps, i);
    GoodAt(stores, intent, steps, i);
  }

  lemma IrrevocableTransitive(a: Store, b: Store, c: Store)
    requires Irrevocable(a, b) && Irrevocable(b, c)
    ensures Irrevocable(a, c)
  {
  }

  lemma {:induction false} CreatesJustified(stores: seq<Store>, intent: Intent, steps: seq<Step>, i: nat)
    requires IsRun(stores, intent, steps) && i < |stores|
    ensures forall c :: c in stores[i].creates ==> c.persistedRunner == JobName(intent.name) && Gates(intent, c.seen)
  {
    if i > 0 {
      CreatesJustified(stores, intent, steps, i - 1);
      assert NextAt(stores, intent, steps, i - 1);
      if steps[i - 1].Reconcile? {
        ReconcileJustified(intent, stores[i - 1], steps[i - 1].seen, steps[i - 1].writes);
      }
    }
  }

  /**
   What a Create rests on, spelt out: the ticket is unexpired; the first
   consumer of that name allows the operation on the repository; request,
   policy and live Secret carry the same binding; and Confirm mode has its
   Approve decision for this request.
   */
  ghost predicate Justified(intent: Intent, seen: Reads) {
    && intent.name == RequestName(intent.ticketDigest)
    && intent.expiresAt.Some? && seen.now < intent.expiresAt.value
    && seen.instance.InstanceFound? && seen.instance.policy.Some?
    && var policy := seen.instance.policy.value;
    && ValidSecretRef(policy.secret) && intent.operation == CreateIssue && ValidRepository(intent.repository)
    && policy.secret == intent.binding
    && seen.metadata.Metadata?
    && seen.metadata.uid == intent.binding.uid && seen.metadata.resourceVersion == intent.binding.resourceVersion
    && exists i: nat, mode ::
         && Grants(policy, i, intent.consumer, intent.operation, intent.repository, mode)
         && (mode == Confirm ==> seen.approval == Approval(intent.name, Approve))
  }

  lemma GatesAreJustified(intent: Intent, seen: Reads)
    ensures Gates(intent, seen) <==> Justified(intent, seen)
  {
    if Gates(intent, seen) {
      var policy := seen.instance.policy;
      ProceedMeans(intent, policy, seen.approval);
      var mode :| && Authorize(policy, intent.consumer, intent.operation, intent.repository) == Some(mode)
                  && (mode == Confirm ==> seen.approval == Approval(intent.name, Approve));
      AuthorizeExactly(policy, intent.consumer, intent.operation, intent.repository, mode);
      var i: nat :| Grants(policy.value, i, intent.consumer, intent.operation, intent.repository, mode);
    }
    if Justified(intent, seen) {
      var policy := seen.instance.policy;
      var i: nat, mode :| && Grants(policy.value, i, intent.consumer, intent.operation, intent.repository, mode)
                          && (mode == Confirm ==> seen.approval == Approval(intent.name, Approve));
      AuthorizeExactly(policy, intent.consumer, intent.operation, intent.repository, mode);
      ProceedMeans(intent, policy, seen.approval);
    }
  }

  /**
   One ticket, at most one Create: issued only once the consumption record is
   persisted, and only when the policy authorizes, the ticket is unexpired,
   request, policy and live Secret agree, and Confirm mode has its approval.
   */
  lemma OneJustifiedCreate(stores: seq<Store>, intent: Intent, steps: seq<Step>, i: nat)
    requires IsRun(stores, intent, steps) && i < |stores|
    ensures |stores[i].creates| <= 1
    ensures forall c :: c in stores[i].creates ==>
            c.persistedRunner == JobName(intent.name) && Justified(intent, c.seen)
    ensures stores[i].job.Some? || stores[i].creates != [] ==> stores[i].status.runnerName == JobName(intent.name)
  {
    StoreAlwaysOk(stores, intent, steps, i);
    CreatesJustified(stores, intent, steps, i);
    forall c | c in stores[i].creates ensures Justified(intent, c.seen) {
      GatesAreJustified(intent, c.seen);
    }
  }

  /** Terminal phases are final with everything they carry, and a runner name is never cleared. */
  lemma TerminalIsFinal(stores: seq<Store>, intent: Intent, steps: seq<Step>, i: nat, j: nat)
    requires IsRun(stores, intent, steps) && i <= j < |stores|
    ensures IsTerminal(stores[i].status.phase) ==> stores[j].status == stores[i].status
    ensures stores[i].status.runnerName != "" ==> stores[j].status.runnerName == stores[i].status.runnerName
    ensures stores[i].creates <= stores[j].creates
  {
    NothingUndone(stores, intent, steps, i, j);
  }

  /** Succeeded carries a complete issue; every other terminal phase carries a bounded error code. */
  lemma TerminalIsBounded(stores: seq<Store>, intent: Intent, steps: seq<Step>, i: nat)
    requires IsRun(stores, intent, steps) && i < |stores|
    ensures var st := stores[i].status;
            && (st.phase == Succeeded ==>
                st.result.Some? && st.result.value.number > 0 && CompleteIssue(st.result.value)
                  && st.errorCode == NoError)
            && (IsTerminal(st.phase) && st.phase != Succeeded ==> ValidErrorCode(st.errorCode))
  {
    StoreAlwaysOk(stores, intent, steps, i);
  }

  /** After UnknownOutcome the Runner Job is gone, and nothing brings it back. */
  lemma UnknownOutcomeHasNoJob(stores: seq<Store>, intent: Intent, steps: seq<Step>, i: nat, j: nat)
    requires IsRun(stores, intent, steps) && i <= j < |stores| && stores[i].status.phase == UnknownOutcome
    ensures stores[j].job.None? && stores[j].creates == stores[i].creates
  {
    NothingUndone(stores, intent, steps, i, j);
    StoreAlwaysOk(stores, intent, steps, i);
    StoreAlwaysOk(stores, intent, steps, j);
  }
}
