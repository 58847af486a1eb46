/**
 One reconcile of a credential request, as a function of the API store, of
 everything it reads and of how each of its writes ends.
 */
module CredentialSpec {
  import opened Options
  import opened CredentialPolicy

  datatype Status = Status(
    phase: Phase,
    runnerName: string,
    podUID: string,
    specDigest: string,
    secretUID: string,
    secretResourceVersion: string,
    result: Option<Issue>,
    errorCode: ErrorCode)

  const NoStatus: Status := Status(NoPhase, "", "", "", "", "", None, NoError)

  /** The immutable intent of a request, with its object name. */
  datatype Intent = Intent(
    name: string,
    ticketDigest: string,
    consumer: string,
    operation: Operation,
    repository: string,
    expiresAt: Option<int>,
    binding: SecretRef,
    digest: string)

  datatype Owner = Owner(uid: string, name: string)

  datatype Job = Job(succeeded: bool, failed: bool)

  datatype InstanceRead =
    | InstanceMissing
    | InstanceUnreadable
    | InstanceFound(uid: string, name: string, policy: Option<Policy>)

  datatype ApprovalRead = ApprovalMissing | ApprovalUnreadable | Approval(requestName: string, decision: Decision)

  datatype Decision = Approve | Deny | Undecided

  datatype MetadataRead = MetadataUnreadable | Metadata(uid: string, resourceVersion: string)

  /** The runner's Pod as the controller lists it. */
  datatype ResultRead =
    | ResultUnreadable
    | NoTerminatedPod
    | EmptyMessage(podUID: string)
    | Terminated(podUID: string, message: Message)

  datatype PodRead = PodsUnreadable | PodUID(uid: string)

  datatype Reads = Reads(
    instance: InstanceRead,
    now: int,
    approval: ApprovalRead,
    metadata: MetadataRead,
    jobUnreadable: bool,
    result: ResultRead,
    pod: PodRead,
    jobRenders: bool)

  /** A write takes effect and says so, is refused, takes effect while its reply is lost, or is preceded by a crash. */
  datatype Write = Done | Refused | LostReply | Crash

  datatype Writes = Writes(
    finalizer: Write,
    owner: Write,
    networkPolicy: Write,
    consume: Write,
    create: Write,
    delete: Write,
    status: Write)

  /** What was true when a Create of the Runner Job was issued. */
  datatype CreateIssued = CreateIssued(seen: Reads, persistedRunner: string)

  datatype Store = Store(
    status: Status,
    finalizer: bool,
    owner: Option<Owner>,
    deleting: bool,
    gone: bool,
    job: Option<Job>,
    creates: seq<CreateIssued>)

  const FreshStore: Store := Store(NoStatus, false, None, false, false, None, [])

  predicate Applied(w: Write) {
    w == Done || w == LostReply
  }

  function RequestName(ticketDigest: string): string {
    "credential-" + if |ticketDigest| > 24 then ticketDigest[..24] else ticketDigest
  }

  function JobName(request: string): string {
    request + "-runner"
  }

  function WriteStatus(s: Store, status: Status, w: Write): Store {
    if Applied(w) then s.(status := status) else s
  }

  function WriteDenied(s: Store, status: Status, code: ErrorCode, w: Write): Store {
    WriteStatus(s, status.(phase := Denied, errorCode := code), w)
  }

  /**
   unknownOutcome: delete the Job, and only if that is confirmed record the outcome.
   `status` is the controller's copy.
   */
  function ToUnknown(s: Store, status: Status, code: ErrorCode, w: Writes): Store {
    if status.runnerName != "" && w.delete != Done then (if w.delete == LostReply then s.(job := None) else s)
    else
      var cleared := if status.runnerName != "" then s.(job := None) else s;
      WriteStatus(cleared, status.(phase := UnknownOutcome, errorCode := code), w.status)
  }

  function RemoveFinalizer(s: Store, w: Writes): Store {
    if w.networkPolicy != Done || !s.finalizer || !Applied(w.finalizer) then s
    else s.(finalizer := false, gone := s.deleting)
  }

  /** revokeAndRemoveFinalizer. */
  function Revoke(s: Store, w: Writes): Store {
    if s.status.runnerName != "" && !IsTerminal(s.status.phase) then
      var revoked := ToUnknown(s, s.status, RunnerFailed, w);
      if w.delete == Done && w.status == Done then RemoveFinalizer(revoked, w) else revoked
    else RemoveFinalizer(s, w)
  }

  /** observeRunner. */
  function Observe(s: Store, seen: Reads, w: Writes): Store {
    var status := s.status;
    if seen.jobUnreadable then s
    else if s.job.None? then ToUnknown(s, status, RunnerFailed, w)
    else if s.job.value.succeeded then
      if !seen.result.Terminated? || !BoundedOutcome(seen.result.message) then ToUnknown(s, status, RunnerFailed, w)
      else
        var message := seen.result.message;
        if message.errorCode != NoError then
          WriteStatus(s, status.(phase := Failed, podUID := seen.result.podUID, errorCode := message.errorCode),
                      w.status)
        else
          WriteStatus(s, status.(phase := Succeeded, podUID := seen.result.podUID, result := message.issue,
                                 errorCode := NoError), w.status)
    else if s.job.value.failed then ToUnknown(s, status, RunnerFailed, w)
    else if status.phase == Running || seen.pod.PodsUnreadable? then s
    else
      var podUID := if seen.pod.uid != "" then seen.pod.uid else status.podUID;
      WriteStatus(s, status.(phase := Running, podUID := podUID), w.status)
  }

  /** The write-ahead record of a consumed ticket. */
  function Consumed(status: Status, intent: Intent, metadata: MetadataRead): Status
    requires metadata.Metadata?
  {
    status.(phase := TicketConsumed, specDigest := intent.digest, runnerName := JobName(intent.name),
            secretUID := metadata.uid, secretResourceVersion := metadata.resourceVersion, errorCode := NoError)
  }

  /** Consume the ticket, then create the Runner Job. */
  function Launch(s: Store, intent: Intent, seen: Reads, w: Writes): Store
    requires seen.metadata.Metadata?
  {
    if seen.jobUnreadable then s
    else
      var consumed := Consumed(s.status, intent, seen.metadata);
      var recorded := WriteStatus(s, consumed, w.consume);
      if w.consume != Done || s.job.Some? then recorded
      else if !seen.jobRenders then ToUnknown(recorded, consumed, RunnerFailed, w)
      else if w.create == Crash then recorded
      else
        var issued := recorded.(creates := recorded.creates + [CreateIssued(seen, recorded.status.runnerName)]);
        if w.create == Done then issued.(job := Some(Job(false, false)))
        else
          var left := if w.create == LostReply then issued.(job := Some(Job(false, false))) else issued;
          ToUnknown(left, consumed, RunnerFailed, w)
  }

  predicate BindingMatches(metadata: MetadataRead, ref: SecretRef) {
    metadata.Metadata? && metadata.uid == ref.uid && metadata.resourceVersion == ref.resourceVersion
  }

  /** From the secret's live metadata on. */
  function WithMetadata(s: Store, intent: Intent, seen: Reads, w: Writes): Store {
    var status := s.status.(specDigest := intent.digest);
    if seen.metadata.MetadataUnreadable? then
      if s.status.runnerName != "" then ToUnknown(s, s.status, RunnerFailed, w)
      else WriteStatus(s, status.(phase := Pending, errorCode := SecretBindingInvalid), w.status)
    else if !BindingMatches(seen.metadata, intent.binding) then WriteDenied(s, status, SecretBindingInvalid, w.status)
    else if s.status.runnerName != "" &&
            (seen.metadata.uid != s.status.secretUID || seen.metadata.resourceVersion != s.status.secretResourceVersion)
      then ToUnknown(s, s.status, RunnerFailed, w)
    else if w.networkPolicy != Done then s
    else if s.status.runnerName != "" then Observe(s, seen, w)
    else Launch(s, intent, seen, w)
  }

  /** What policy, binding and approval say about a request. */
  datatype Verdict = NotAuthorized | BindingDiffers | NoApprovalYet | Hold | DeniedByApproval | Proceed

  function Judge(intent: Intent, policy: Option<Policy>, approval: ApprovalRead): Verdict {
    var mode := Authorize(policy, intent.consumer, intent.operation, intent.repository);
    if mode.None? then NotAuthorized
    else if policy.value.secret != intent.binding then BindingDiffers
    else if mode.value != Confirm then Proceed
    else if approval.ApprovalMissing? then NoApprovalYet
    else if approval.ApprovalUnreadable? || approval.requestName != intent.name then Hold
    else if approval.decision == Deny then DeniedByApproval
    else if approval.decision != Approve then Hold
    else Proceed
  }

  /** From the verdict on. */
  function WithVerdict(s: Store, intent: Intent, verdict: Verdict, seen: Reads, w: Writes): Store {
    var status := s.status.(specDigest := intent.digest);
    match verdict
    case NotAuthorized =>
      if s.status.runnerName != "" then ToUnknown(s, s.status, RunnerFailed, w)
        else WriteDenied(s, status, PolicyDenied, w.status)
    case BindingDiffers =>
      if s.status.runnerName != "" then ToUnknown(s, s.status, SecretBindingInvalid, w)
        else WriteDenied(s, status, SecretBindingInvalid, w.status)
    case NoApprovalYet => WriteStatus(s, status.(phase := PendingApproval), w.status)
    case Hold => s
    case DeniedByApproval => WriteDenied(s, status, ApprovalDenied, w.status)
    case Proceed => WithMetadata(s, intent, seen, w)
  }

  /** From the spec digest on, with the owner bound. */
  function WithOwner(s: Store, intent: Intent, verdict: Verdict, seen: Reads, w: Writes): Store {
    if s.status.specDigest != "" && s.status.specDigest != intent.digest
      then WriteDenied(s, s.status, PolicyDenied, w.status)
    else if intent.expiresAt.None? || seen.now >= intent.expiresAt.value then
      WriteDenied(s, s.status.(specDigest := intent.digest), TicketExpired, w.status)
    else WithVerdict(s, intent, verdict, seen, w)
  }

  /** From the ownership check on. */
  function WithInstance(s: Store, intent: Intent, verdict: Verdict, seen: Reads, w: Writes): Store
    requires seen.instance.InstanceFound?
  {
    var owner := Owner(seen.instance.uid, seen.instance.name);
    if intent.name != RequestName(intent.ticketDigest) then WriteDenied(s, s.status, PolicyDenied, w.status)
    else if s.owner.Some? && s.owner.value != owner then WriteDenied(s, s.status, PolicyDenied, w.status)
    else if s.owner.None? && w.owner != Done then (if Applied(w.owner) then s.(owner := Some(owner)) else s)
    else WithOwner(s.(owner := Some(owner)), intent, verdict, seen, w)
  }

  /** Reconcile. */
  function Reconciled(s: Store, intent: Intent, seen: Reads, w: Writes): Store {
    if s.gone then s
    else if s.deleting then Revoke(s, w)
    else if IsTerminal(s.status.phase) then RemoveFinalizer(s, w)
    else if !s.finalizer && w.finalizer != Done then (if Applied(w.finalizer) then s.(finalizer := true) else s)
    else
      var held := s.(finalizer := true);
      if seen.instance.InstanceUnreadable? then held
      else if seen.instance.InstanceMissing? then WriteDenied(held, held.status, PolicyDenied, w.status)
      else WithInstance(held, intent, Judge(intent, seen.instance.policy, seen.approval), seen, w)
  }
}
