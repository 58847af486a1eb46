/**
 The plugin's own state as its closures change it. Between two awaits
 JavaScript runs to completion, so each method is one uninterrupted stretch of
 an operation, and is proved to change the state as Plugin says.
 */
module ComputerUse {
  import opened Options
  import opened ControlSpec
  import opened Plugin
  import Power

  /** How powerOperation reads what became of its request. */
  function Classified(reply: Power.Reply): PowerReply {
    match reply
    case Accomplished => PowerDone
    case GatewayError(status, unknownOutcome) =>
      if unknownOutcome || Power.AmbiguousToPlugin(status) then PowerUnknown else PowerRejected
    case TransportError => PowerUnknown
  }

  /**
   When the Gateway's answer arrives, plugin and Gateway agree on what became
   of the operation: done, not done, or unknown to both.
   */
  lemma PluginReadsOutcome(begun: Begun, action: PowerAction, call: Power.Call,
                           vm: Power.Reading<Power.Machine>, vmi: Power.Reading<Power.Instance>)
    ensures var outcome := Power.Dispatch(action, call, vm, vmi);
            var reply := Classified(Power.Answer(begun, action, call, vm, vmi));
            && (begun.PowerRefused? ==> reply == PowerRejected)
            && (begun.PowerReserved? ==>
                  && (reply == PowerDone <==> outcome == Succeeded)
                  && (reply == PowerRejected <==> outcome == Rejected)
                  && (reply == PowerUnknown <==> outcome == Unknown))
  {
    if begun.PowerReserved? && Power.Dispatch(action, call, vm, vmi) == Rejected {
      Power.RejectionIsUnambiguous(action, call, vm, vmi);
    }
  }

  /** Stands for the Gateway's answers where none is looked at. */
  const NoAnswers: Answers := Answers(0, Free(0), None)

  class ComputerUsePlugin {
    var chain: seq<Entry>
    var observations: map<Session, Observation>
    var powerUncertain: bool
    var disposing: bool
    var locals: seq<Local>
    var current: Option<nat>

    constructor ()
      ensures Valid() && View() == FreshPlugin
    {
      chain, observations, powerUncertain, disposing, locals, current := [], map[], false, false, [], None;
    }

    ghost function View(): PluginState
      reads this
    {
      PluginState(chain, observations, powerUncertain, disposing, locals, current)
    }

    /**
     What every uninterrupted stretch keeps: the chain in order, observations of
     ended operations, leases of their session.
     */
    ghost predicate Valid()
      reads this
    {
      PluginInv(View()) && (current.Some? ==> current.value < |locals|)
    }

    /** Joining the chain, `queue = queue.then(operation, operation)`, unless the call is aborted already. */
    method Enqueue(op: Operation, aborted: bool) returns (k: Option<nat>)
      requires Valid() && MayInvoke(View(), op)
      modifies `chain
      ensures Valid() && (k.None? <==> aborted)
      ensures k.None? ==> View() == old(View())
      ensures k.Some? ==> k.value == |old(chain)| && chain == old(chain) + [Entry(op, Queued)]
    {
      if aborted {
        return None;
      }
      PluginStep(View(), NoAnswers, Invoke(op));
      k := Some(|chain|);
      chain := chain + [Entry(op, Queued)];
    }

    method SetPhaseOf(k: nat, phase: Phase)
      requires k < |chain|
      modifies `chain
      ensures View() == SetPhase(old(View()), k, phase)
    {
      chain := chain[k := chain[k].(phase := phase)];
    }

    /** invalidateAllObservations, session by session. */
    method InvalidateAllObservations()
      modifies `observations
      ensures observations == map[]
    {
      var sessions := observations.Keys;
      while sessions != {}
        invariant sessions == observations.Keys
        decreases sessions
      {
        var s :| s in sessions;
        observations := observations - {s};
        sessions := sessions - {s};
      }
      assert observations == map[];
    }

    /** The start of an operation whose turn has come. */
    method BeginTurn(k: nat, aborted: bool)
      requires Valid() && Turn(View(), k)
      modifies this
      ensures Valid()
      ensures View() == SetPhase(old(View()), k,
                          if aborted || !MayStart(old(View()), old(chain)[k].op) then Settled
                          else FirstPhase(old(chain)[k].op))
    {
      PluginStep(View(), NoAnswers, StartOp(k, aborted));
      var op := chain[k].op;
      var permitted := true;
      if op.Acquire? || op.Act? || op.Launch? {
        permitted := current == Some(op.lease) && op.lease < |locals| && !locals[op.lease].closing && !powerUncertain;
      } else if op.SwitchPower? {
        if op.under.Some? {
          permitted := current == op.under && op.under.value < |locals|
            && locals[op.under.value].closing == (op.action == Stop);
        } else {
          permitted := current.None?;
        }
        permitted := permitted && !disposing && (!powerUncertain || op.action == Start);
      }
      if aborted || !permitted {
        SetPhaseOf(k, Settled);
      } else {
        SetPhaseOf(k, FirstPhase(op));
      }
    }

    /** desktop_act after its status request: the freshness test, the bounds test, then the dispatch. */
    method ActAfterStatus(k: nat, now: Snapshot)
      requires Valid() && k < |chain| && chain[k].op.Act? && chain[k].phase == HasStatus(now)
      modifies this
      ensures Valid() && View() == Continued(old(View()), k, false, PowerDone)
    {
      PluginStep(View(), NoAnswers, Continue(k, false, PowerDone));
      var op := chain[k].op;
      if now.blocked || now.control.Free? || now.control.actor == Human {
        SetPhaseOf(k, Settled);
        return;
      }
      var isFresh := false;
      if op.session in observations {
        var o := observations[op.session];
        isFresh := op.id == o.id && now.boot == o.frame.boot && now.vmi != "" && now.vmi == o.frame.vmi
                 && now.control.generation == o.frame.generation;
      }
      if !isFresh {
        InvalidateAllObservations();
        SetPhaseOf(k, Settled);
        return;
      }
      var frame := observations[op.session].frame;
      for i := 0 to |op.actions|
        invariant forall j :: 0 <= j < i ==> Inside(op.actions[j], frame.width, frame.height)
        invariant View() == old(View())
      {
        if !Inside(op.actions[i], frame.width, frame.height) {
          assert op.actions[i] in op.actions;
          SetPhaseOf(k, Settled);
          return;
        }
      }
      SetPhaseOf(k, PostingBatch(frame));
    }

    /** desktop_observe after its frame arrived. */
    method ObserveAfterFrame(k: nat, frame: Frame, delivered: bool)
      requires Valid() && k < |chain| && chain[k].op.Observe? && chain[k].phase == HasFrame(frame)
      modifies this
      ensures Valid() && View() == Continued(old(View()), k, delivered, PowerDone)
    {
      PluginStep(View(), NoAnswers, Continue(k, delivered, PowerDone));
      var session := chain[k].op.session;
      observations := observations - {session};
      if delivered {
        observations := observations[session := Observation(k, frame)];
      }
      SetPhaseOf(k, Settled);
      assert View() == PluginNext(old(View()), NoAnswers, Continue(k, delivered, PowerDone));
    }

    /** An input request is answered, or has failed on its way or at the Gateway: whatever was observed is stale now. */
    method AfterInput(k: nat, failed: bool)
      requires Valid() && k < |chain|
      requires chain[k].phase.PostedBatch? || chain[k].phase == PostedLaunch
               || (failed && (chain[k].phase.PostingBatch? || chain[k].phase == PostingLaunch))
      modifies this
      ensures Valid()
      ensures View() == if failed then Failed(old(View()), k, false) else Continued(old(View()), k, false, PowerDone)
    {
      PluginStep(View(), NoAnswers, if failed then Fail(k, false) else Continue(k, false, PowerDone));
      InvalidateAllObservations();
      SetPhaseOf(k, Settled);
    }

    /** ensureControl after its first status request. */
    method AcquireAfterStatus(k: nat, now: Snapshot)
      requires Valid() && k < |chain| && chain[k].op.Acquire? && chain[k].phase == HasStatus(now)
      modifies this
      ensures Valid() && View() == Continued(old(View()), k, false, PowerDone)
    {
      assert OwnLease(View(), k);
      PluginStep(View(), NoAnswers, Continue(k, false, PowerDone));
      var lease := chain[k].op.lease;
      if now.blocked {
        SetPhaseOf(k, Settled);
      } else if now.control.Held? && now.control.actor == Human {
        SetPhaseOf(k, Settled);
      } else if now.control.Held? && locals[lease].established.None? {
        QuarantineLocalControl(lease);
        SetPhaseOf(k, Settled);
      } else if now.control.Held? {
        SetPhaseOf(k, AskingAgain);
      } else {
        InvalidateAllObservations();
        SetPhaseOf(k, PostingAcquire);
      }
    }

    /** ensureControl after asking again: the controller must be the one this local lease was granted. */
    method AcquireAfterSecond(k: nat, now: Snapshot)
      requires Valid() && k < |chain| && chain[k].op.Acquire? && chain[k].phase == HasSecond(now)
      modifies this
      ensures Valid() && View() == Continued(old(View()), k, false, PowerDone)
    {
      assert OwnLease(View(), k);
      PluginStep(View(), NoAnswers, Continue(k, false, PowerDone));
      var lease := chain[k].op.lease;
      if now.blocked || now.control.Free? || now.control.actor == Human {
        SetPhaseOf(k, Settled);
        return;
      }
      var stamp := locals[lease].established;
      if stamp.None? || stamp.value.boot != now.boot || stamp.value.generation != now.control.generation {
        QuarantineLocalControl(lease);
      } else {
        InvalidateAllObservations();
      }
      SetPhaseOf(k, Settled);
    }

    /** ensureControl after its acquire was answered. */
    method AcquireAnswered(k: nat, answer: Option<Stamp>)
      requires Valid() && k < |chain| && chain[k].op.Acquire? && chain[k].phase == PostedAcquire(answer)
      modifies this
      ensures Valid() && View() == Continued(old(View()), k, false, PowerDone)
    {
      assert OwnLease(View(), k);
      PluginStep(View(), NoAnswers, Continue(k, false, PowerDone));
      var lease := chain[k].op.lease;
      if answer.Some? {
        locals := locals[lease := locals[lease].(established := answer)];
      }
      InvalidateAllObservations();
      SetPhaseOf(k, Settled);
    }

    /** ensureControl after its acquire failed; only an ambiguous failure needs cleaning up. */
    method AcquireFailed(k: nat, ambiguous: bool)
      requires Valid() && k < |chain| && (chain[k].phase == PostingAcquire || chain[k].phase.PostedAcquire?)
      modifies this
      ensures Valid() && View() == Failed(old(View()), k, ambiguous)
    {
      PluginStep(View(), NoAnswers, Fail(k, ambiguous));
      InvalidateAllObservations();
      SetPhaseOf(k, if ambiguous then Recovering else Settled);
    }

    /** The end of that cleanup: what is not confirmed released is quarantined. */
    method AcquireRecovered(k: nat, released: bool)
      requires Valid() && k < |chain| && chain[k].op.Acquire? && chain[k].phase == Recovering
      modifies this
      ensures Valid() && View() == Continued(old(View()), k, released, PowerDone)
    {
      assert OwnLease(View(), k);
      PluginStep(View(), NoAnswers, Continue(k, released, PowerDone));
      if !released {
        QuarantineLocalControl(chain[k].op.lease);
      }
      SetPhaseOf(k, Settled);
    }

    // The local lease.

    /** A session that may acquire gets the current local lease, a new one if there is none. */
    method ReserveLocalControl(session: Session) returns (lease: Option<nat>)
      requires Valid()
      modifies this
      ensures Valid() && View() == Changed(old(View()), Reserve(session))
      ensures lease.Some? ==> MayInvoke(View(), Acquire(session, lease.value))
      ensures lease.None? ==> View() == old(View()) && forall l :: !MayInvoke(View(), Acquire(session, l))
    {
      PluginStep(View(), NoAnswers, ChangeLocal(Reserve(session)));
      if disposing || powerUncertain {
        return None;
      }
      if current.Some? {
        var local := locals[current.value];
        if local.orphaned || local.session != session || local.closing {
          return None;
        }
        return current;
      }
      locals := locals + [Local(session, false, false, None)];
      current := Some(|locals| - 1);
      return current;
    }

    method ReleaseLocalControl(lease: nat)
      requires Valid()
      modifies `current
      ensures Valid() && View() == Changed(old(View()), Drop(lease))
    {
      PluginStep(View(), NoAnswers, ChangeLocal(Drop(lease)));
      if current == Some(lease) {
        current := None;
      }
    }

    method QuarantineLocalControl(lease: nat)
      requires lease < |locals|
      modifies this
      ensures View() == WithQuarantine(old(View()), lease)
    {
      if current != Some(lease) {
        return;
      }
      locals := locals[lease := locals[lease].(closing := true, orphaned := true)];
      InvalidateAllObservations();
    }

    /** Only the session that holds the local lease, and is not closing it already, may close it. */
    method BeginLocalControlClose(session: Session, allowPowerUncertain: bool) returns (lease: Option<nat>)
      requires Valid()
      modifies `locals
      ensures Valid()
      ensures lease.Some? <==> && !disposing && (allowPowerUncertain || !powerUncertain) && current.Some?
                               && old(locals)[current.value].session == session && !old(locals)[current.value].closing
      ensures lease.Some? ==> lease == current && View() == Changed(old(View()), BeginClose(lease.value))
      ensures lease.None? ==> View() == old(View())
    {
      if current.Some? {
        PluginStep(View(), NoAnswers, ChangeLocal(BeginClose(current.value)));
      }
      if disposing || (!allowPowerUncertain && powerUncertain) {
        return None;
      }
      if current.None? || locals[current.value].session != session || locals[current.value].closing {
        return None;
      }
      locals := locals[current.value := locals[current.value].(closing := true)];
      return current;
    }

    /** After a failed close the session gets a fresh lease object that keeps what was established. */
    method RenewLocalControl(lease: nat, lifecycleAborted: bool)
      requires Valid()
      modifies this
      ensures Valid() && View() == if lifecycleAborted then old(View()) else Changed(old(View()), Renew(lease))
    {
      PluginStep(View(), NoAnswers, ChangeLocal(Renew(lease)));
      if current != Some(lease) || lifecycleAborted || disposing {
        return;
      }
      locals := locals + [Local(locals[lease].session, false, false, locals[lease].established)];
      current := Some(|locals| - 1);
    }

    /** The outcome of a power request, or None if it was not sent. */
    method AfterPower(k: nat, reply: Option<Power.Reply>)
      requires Valid() && k < |chain| && chain[k].op.SwitchPower? && chain[k].phase == PostingPower
      modifies this
      ensures Valid()
      ensures View() == Continued(old(View()), k, false,
                                  if reply.None? then PowerNotPosted else Classified(reply.value))
    {
      var read := PowerNotPosted;
      if reply.Some? {
        read := ReadReply(reply.value);
      }
      PluginStep(View(), NoAnswers, Continue(k, false, read));
      if read != PowerNotPosted {
        InvalidateAllObservations();
      }
      if read == PowerUnknown {
        powerUncertain := true;
      } else if read == PowerDone && chain[k].op.action == Start {
        powerUncertain := false;
      }
      SetPhaseOf(k, Settled);
    }

    /** The error handling around the power request. */
    method ReadReply(reply: Power.Reply) returns (read: PowerReply)
      ensures read == Classified(reply) && read != PowerNotPosted
    {
      match reply
      case Accomplished => return PowerDone;
      case GatewayError(status, unknownOutcome) =>
        if unknownOutcome {
          return PowerUnknown;
        }
        if status >= 500 || status == 408 || status == 425 || status == 429 {
          return PowerUnknown;
        }
        return PowerRejected;
      case TransportError => return PowerUnknown;
    }
  }
}
