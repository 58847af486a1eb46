/**
 How the Gateway classifies one power dispatch, and what that does to the
 quarantine and to the client that reads the answer.
 */
module Power {
  import opened ControlSpec

  /** The status reasons the Kubernetes API server attaches to an error. */
  datatype Reason =
    | NotFound | Unauthorized | Forbidden | BadRequest | Invalid | MethodNotAllowed | NotAcceptable
    | RequestEntityTooLarge | UnsupportedMediaType
    | Conflict | Timeout | ServerTimeout | ServiceUnavailable | TooManyRequests | NoReason

  datatype Call = Accepted | Failed(reason: Reason)

  datatype Reading<T> = Read(value: T) | ReadFailed(reason: Reason)

  datatype Machine = Machine(deleting: bool, printableStatus: string, manual: bool, queuedChanges: nat)

  datatype Instance = Instance(phase: string, deleting: bool)

  predicate FinalPhase(phase: string) {
    phase == "Succeeded" || phase == "Failed"
  }

  predicate StablyRunning(vm: Machine, vmi: Instance) {
    && !vm.deleting && vm.printableStatus == "Running" && vm.queuedChanges == 0
    && vmi.phase == "Running" && !vmi.deleting
  }

  /** A missing instance, or one in a final phase, counts as no instance. */
  predicate StablyStopped(vm: Machine, vmi: Reading<Instance>) {
    && !vm.deleting && vm.manual && vm.printableStatus == "Stopped" && vm.queuedChanges == 0
    && (vmi.Read? ==> FinalPhase(vmi.value.phase))
  }

  predicate Definitive(reason: Reason) {
    reason in {NotFound, Unauthorized, Forbidden, BadRequest, Invalid, MethodNotAllowed, NotAcceptable,
               RequestEntityTooLarge, UnsupportedMediaType}
  }

  datatype Settled = Yes | No | Unreadable

  /** confirmSettledAfterConflict. */
  function ConfirmSettled(action: PowerAction, vm: Reading<Machine>, vmi: Reading<Instance>): Settled {
    if vm.ReadFailed? then Unreadable
    else if vmi.ReadFailed? && !(action == Stop && vmi.reason == NotFound) then Unreadable
    else if action == Start then (if vmi.Read? && StablyRunning(vm.value, vmi.value) then Yes else No)
    else (if StablyStopped(vm.value, vmi) then Yes else No)
  }

  /** dispatchPower. */
  function Dispatch(action: PowerAction, call: Call, vm: Reading<Machine>, vmi: Reading<Instance>): PowerOutcome {
    if call.Accepted? then Succeeded
    else if call.reason == Conflict && ConfirmSettled(action, vm, vmi) == Unreadable then Unknown
    else if call.reason == Conflict && ConfirmSettled(action, vm, vmi) == Yes then Succeeded
    else if Definitive(call.reason) then Rejected
    else Unknown
  }

  /** The machine was seen in the state the action asks for, settled and with no change queued. */
  predicate SeenAsAsked(action: PowerAction, vm: Reading<Machine>, vmi: Reading<Instance>) {
    && vm.Read? && !vm.value.deleting && vm.value.queuedChanges == 0
    && match action
       case Start =>
         && vm.value.printableStatus == "Running"
         && vmi.Read? && vmi.value.phase == "Running" && !vmi.value.deleting
       case Stop =>
         && vm.value.printableStatus == "Stopped" && vm.value.manual
         && match vmi
            case ReadFailed(reason) => reason == NotFound
            case Read(instance) => instance.phase == "Succeeded" || instance.phase == "Failed"
  }

  /**
   A dispatch succeeded exactly if it was accepted, or conflicts with a machine
   that is seen as asked; it is rejected exactly on a reason that proves it
   never ran; and everything else, an unreadable machine among it, is unknown.
   */
  lemma DispatchExactly(action: PowerAction, call: Call, vm: Reading<Machine>, vmi: Reading<Instance>)
    ensures var outcome := Dispatch(action, call, vm, vmi);
            && (outcome == Succeeded <==>
                call == Accepted || (call == Failed(Conflict) && SeenAsAsked(action, vm, vmi)))
            && (outcome == Rejected <==>
                  call.Failed? && call.reason !in {Conflict, Timeout, ServerTimeout, ServiceUnavailable,
                                                   TooManyRequests, NoReason})
  {
  }

  /** The machine was seen running, with nothing pending, after the API said it conflicts. */
  predicate SeenRunning(call: Call, vm: Reading<Machine>, vmi: Reading<Instance>) {
    call == Failed(Conflict) && vm.Read? && vmi.Read? && StablyRunning(vm.value, vmi.value)
  }

  /**
   Control is handed back after a power operation exactly when there is
   evidence for it: a start that was accepted or is visibly in force, or a
   refusal that proves the operation never ran on a desktop that was free before.
   */
  lemma UnblockedOnlyOnEvidence(r: Registry, d: Desktop, op: PowerOp, call: Call, vm: Reading<Machine>,
                                vmi: Reading<Instance>)
    requires d in r.powerOps && r.powerOps[d] == op && d in r.blocked
    ensures d !in FinishPower(r, d, op, Dispatch(op.action, call, vm, vmi)).blocked <==>
            && !r.draining
            && ( || (op.action == Start && (call.Accepted? || SeenRunning(call, vm, vmi)))
                 || (call.Failed? && Definitive(call.reason) && !op.priorBlocked))
  {
    assert FinishPower(r, d, op, Unknown).blocked == r.blocked;
  }

  /** kubeVirtOperationStatus. */
  function RejectionStatus(reason: Reason): nat {
    if reason == NotFound then 404
    else if reason == BadRequest || reason == Invalid then 400
    else if reason == Timeout || reason == ServerTimeout || reason == ServiceUnavailable then 503
    else if reason == Conflict || Definitive(reason) then 409
    else 502
  }

  /**
   A rejection's status tells what was wrong: nothing there, a bad request, or a
   conflict with the machine's state.
   */
  lemma RejectionStatusExactly(reason: Reason)
    requires Definitive(reason)
    ensures (RejectionStatus(reason) == 404 <==> reason == NotFound)
    ensures (RejectionStatus(reason) == 400 <==> reason == BadRequest || reason == Invalid)
    ensures (RejectionStatus(reason) == 409 <==> reason !in {NotFound, BadRequest, Invalid})
  {
  }

  /** isAmbiguousPowerHTTPStatus, in the computer-use plugin. */
  predicate AmbiguousToPlugin(status: nat) {
    status >= 500 || status == 408 || status == 425 || status == 429
  }

  /** What the plugin learns of its power request. */
  datatype Reply = Accomplished | GatewayError(status: nat, unknownOutcome: bool) | TransportError

  /** handlePower's answer: refused before it began, or by the outcome of the dispatch. */
  function Answer(begun: Begun, action: PowerAction, call: Call, vm: Reading<Machine>, vmi: Reading<Instance>): Reply {
    if begun.PowerRefused? then GatewayError(409, false)
    else match Dispatch(action, call, vm, vmi)
      case Succeeded => Accomplished
      case Rejected => GatewayError(if call.Failed? then RejectionStatus(call.reason) else 502, false)
      case Unknown => GatewayError(503, true)
  }

  /** A rejection is always answered with a status the plugin reads as "did not happen". */
  lemma RejectionIsUnambiguous(action: PowerAction, call: Call, vm: Reading<Machine>, vmi: Reading<Instance>)
    requires Dispatch(action, call, vm, vmi) == Rejected
    ensures call.Failed? && 400 <= RejectionStatus(call.reason) < 500
            && !AmbiguousToPlugin(RejectionStatus(call.reason))
  {
    assert call.reason != Conflict;
  }
}
