/**
 The registry as the Gateway holds it: maps updated in place. Each method is
 one locked region and is proved to change the fields exactly as its function
 in ControlSpec says, so every theorem about runs speaks of these methods, and
 to keep what the interleaving callers rely on.
 */
module ControlRegistry {
  import opened ControlSpec
  import opened ControlRuns

  lemma CancelOneMore(leases: seq<Lease>, ids: set<LeaseId>, l: LeaseId)
    requires l < |leases|
    ensures CancelAll(leases, ids + {l}) ==
            CancelAll(leases, ids)[l := CancelAll(leases, ids)[l].(cancelled := true)]
  {
  }

  /** First loop of revokeAll: cancel the lease of every desktop that is held, in any order. */
  method CancelHeld(active: map<Desktop, LeaseId>, leases: seq<Lease>) returns (cancelled: seq<Lease>)
    requires forall d :: d in active ==> active[d] < |leases|
    ensures cancelled == CancelAll(leases, active.Values)
  {
    var held, ids := active.Keys, {};
    cancelled := leases;
    while held != {}
      invariant held <= active.Keys && ids <= active.Values
      invariant forall d :: d in active && d !in held ==> active[d] in ids
      invariant cancelled == CancelAll(leases, ids)
      decreases held
    {
      var d :| d in held;
      var l := active[d];
      CancelOneMore(leases, ids, l);
      cancelled := cancelled[l := cancelled[l].(cancelled := true)];
      held, ids := held - {d}, ids + {l};
    }
    forall l | l in active.Values ensures l in ids {
      var d :| d in active && active[d] == l;
    }
    assert ids == active.Values;
  }

  class Registry {
    var active: map<Desktop, LeaseId>
    var generations: map<Desktop, nat>
    var blocked: set<Desktop>
    var powerOps: map<Desktop, PowerOp>
    var takeovers: map<Desktop, ReservationId>
    var draining: bool
    var leases: seq<Lease>
    var reservations: nat
    var powerOpsBegun: nat

    /** Active leases are granted, newest and not done; power, quarantine and shutdown exclude control. */
    ghost predicate Valid()
      reads this
    {
      RegOk(View())
    }

    ghost function View(): ControlSpec.Registry
      reads this
    {
      ControlSpec.Registry(active, generations, blocked, powerOps, takeovers, draining, leases, reservations,
                           powerOpsBegun)
    }

    constructor ()
      ensures Valid() && View() == Empty
    {
      active, generations, blocked, powerOps, takeovers := map[], map[], {}, map[], map[];
      draining, leases, reservations, powerOpsBegun := false, [], 0, 0;
    }

    /** Called with the lock held, on a desktop found free. */
    method GrantLocked(d: Desktop, actor: Actor, ttl: nat, now: nat) returns (l: LeaseId)
      modifies this
      ensures View() == Grant(old(View()), d, actor, ttl, now) && l == |old(leases)|
    {
      var last := if d in generations then generations[d] else 0;
      generations := generations[d := last + 1];
      l := |leases|;
      leases := leases + [Lease(d, actor, generations[d], ttl, now, false, false)];
      active := active[d := l];
    }

    /** acquire up to its wait. */
    method AcquireUntilWait(ctxLive: bool, d: Desktop, actor: Actor, takeover: bool, now: nat) returns (a: Acquired)
      requires Valid()
      modifies this
      ensures Valid() && (View(), a) == AcquireBegin(old(View()), ctxLive, d, actor, takeover, now)
      ensures Keeps(old(View()), View())
    {
      AcquireBeginKeeps(View(), ctxLive, d, actor, takeover, now);
      assert DesktopOk(View(), d);
      if !ctxLive { return Refused(ContextEnded); }
      if draining { return Refused(ControlBlocked); }
      if d in blocked { return Refused(ControlBlocked); }
      if d in takeovers { return Refused(ControlBusy); }
      if d !in active {
        var l := GrantLocked(d, actor, 0, now);
        return Granted(l);
      }
      var current := active[d];
      var canTakeOver := takeover && actor == Human && leases[current].actor == Agent;
      if !canTakeOver { return Refused(ControlBusy); }
      var reservation := reservations;
      reservations := reservations + 1;
      takeovers := takeovers[d := reservation];
      leases := leases[current := leases[current].(cancelled := true)];
      return MustWait(current, reservation);
    }

    /** acquire after its wait. */
    method AcquireAfterWait(d: Desktop, actor: Actor, mine: ReservationId, distinct: bool, wake: Wake, ctxLive: bool,
                            now: nat)
      returns (a: Acquired)
      requires Valid()
      modifies this
      ensures Valid() && (View(), a) == AcquireResume(old(View()), d, actor, mine, distinct, wake, ctxLive, now)
      ensures Evolves(old(View()), View()) && forall e :: e != d ==> WindowKept(old(View()), View(), e)
    {
      AcquireResumeKeeps(View(), d, actor, mine, distinct, wake, ctxLive, now);
      if d !in takeovers || (distinct && takeovers[d] != mine) { return Refused(ControlBusy); }
      takeovers := takeovers - {d};
      if wake == TimerFired { return Refused(RevocationTimed); }
      if wake == ContextDone || !ctxLive { return Refused(ContextEnded); }
      if d in blocked { return Refused(ControlBlocked); }
      if d in active { return Refused(ControlBusy); }
      var l := GrantLocked(d, actor, 0, now);
      return Granted(l);
    }

    method AcquireForAgent(d: Desktop, ttl: nat, now: nat) returns (a: Acquired)
      requires Valid()
      modifies this
      ensures Valid() && (View(), a) == AcquireAgent(old(View()), d, ttl, now)
      ensures Keeps(old(View()), View())
    {
      AcquireAgentKeeps(View(), d, ttl, now);
      if draining || d in blocked { return Refused(ControlBlocked); }
      if d in takeovers || d in active { return Refused(ControlBusy); }
      var l := GrantLocked(d, Agent, ttl, now);
      return Granted(l);
    }

    method TouchAgentLease(d: Desktop, now: nat)
      requires Valid()
      modifies this
      ensures Valid() && View() == TouchAgent(old(View()), d, now)
      ensures Keeps(old(View()), View())
    {
      assert DesktopOk(View(), d);
      if d in active {
        var current := leases[active[d]];
        if current.actor == Agent && current.ttl > 0 {
          leases := leases[active[d] := current.(lastTouch := now)];
          FlagsKeep(old(View()), View(), active[d], current.(lastTouch := now));
        }
      }
    }

    /** releaseAgentOwner up to its unlock: the agent lease to release, if one owns the desktop. */
    method AgentLeaseToRelease(d: Desktop) returns (found: bool, l: LeaseId)
      requires Valid()
      ensures found <==> AgentOwns(View(), d)
      ensures found ==> l == active[d]
    {
      assert DesktopOk(View(), d);
      found, l := false, 0;
      if d in active && leases[active[d]].actor == Agent {
        found, l := true, active[d];
      }
    }

    method ReleaseLease(d: Desktop, l: LeaseId)
      requires Valid()
      modifies this
      ensures Valid() && View() == Release(old(View()), d, l)
      ensures Keeps(old(View()), View())
    {
      ReleaseKeeps(View(), d, l);
      if d in active && active[d] == l {
        active := active - {d};
      }
    }

    /** The end of release, after ReleaseLease has seen to it that the lease is not the active one. */
    method CloseLease(l: LeaseId)
      requires Valid()
      requires forall d :: d in active ==> active[d] != l
      modifies this
      ensures Valid() && View() == CloseDone(old(View()), l)
      ensures Keeps(old(View()), View())
    {
      if l < |leases| {
        var closed := leases[l].(done := true);
        leases := leases[l := closed];
        FlagsKeep(old(View()), View(), l, closed);
      }
    }

    method BeginPowerOperation(d: Desktop, action: PowerAction) returns (b: Begun)
      requires Valid()
      modifies this
      ensures Valid() && (View(), b) == BeginPower(old(View()), d, action)
      ensures Keeps(old(View()), View())
    {
      BeginPowerKeeps(View(), d, action);
      if draining { return PowerRefused(ControlBlocked); }
      if d in active { return PowerRefused(ControlBusy); }
      if d in takeovers { return PowerRefused(ControlBusy); }
      if d in powerOps { return PowerRefused(PowerBusy); }
      if d in blocked && action != Start { return PowerRefused(PowerRecoveryRequired); }
      var op := PowerOp(powerOpsBegun, action, d in blocked);
      powerOpsBegun := powerOpsBegun + 1;
      powerOps := powerOps[d := op];
      blocked := blocked + {d};
      return PowerReserved(op);
    }

    method FinishPowerOperation(d: Desktop, op: PowerOp, outcome: PowerOutcome)
      requires Valid()
      modifies this
      ensures Valid() && View() == FinishPower(old(View()), d, op, outcome)
      ensures Keeps(old(View()), View())
    {
      FinishPowerKeeps(View(), d, op, outcome);
      if d !in powerOps || powerOps[d] != op { return; }
      powerOps := powerOps - {d};
      if draining {
        blocked := blocked + {d};
        return;
      }
      if outcome == Succeeded {
        if op.action == Start { blocked := blocked - {d}; }
        return;
      }
      if outcome == Unknown { return; }
      if op.priorBlocked {
        blocked := blocked + {d};
      } else {
        blocked := blocked - {d};
      }
    }

    /** Second loop of revokeAll: block every reserved desktop and delete its reservation. */
    method DropReservations()
      modifies `blocked, `takeovers
      ensures blocked == old(blocked) + old(takeovers).Keys && takeovers == map[]
    {
      var reserved := takeovers.Keys;
      while reserved != {}
        invariant reserved == takeovers.Keys <= old(takeovers).Keys
        invariant blocked == old(blocked) + (old(takeovers).Keys - reserved)
        decreases reserved
      {
        var d :| d in reserved;
        blocked := blocked + {d};
        takeovers := takeovers - {d};
        reserved := reserved - {d};
      }
      assert takeovers == map[];
    }

    /** Third loop of revokeAll: block every desktop with a power operation in flight. */
    method BlockPowered()
      modifies `blocked
      ensures blocked == old(blocked) + powerOps.Keys
    {
      var powered := powerOps.Keys;
      while powered != {}
        invariant powered <= powerOps.Keys && blocked == old(blocked) + (powerOps.Keys - powered)
        decreases powered
      {
        var d :| d in powered;
        blocked := blocked + {d};
        powered := powered - {d};
      }
    }

    /** revokeAll up to its unlock. */
    method RevokeEverything()
      requires Valid()
      modifies this
      ensures Valid() && View() == RevokeAll(old(View()))
      ensures Keeps(old(View()), View())
    {
      forall d | d in active ensures active[d] < |leases| {
        assert DesktopOk(View(), d);
      }
      RevokeFields();
      RevokeKeeps(old(View()));
    }

    /** Its three loops. */
    method RevokeFields()
      requires forall d :: d in active ==> active[d] < |leases|
      modifies this
      ensures View() == RevokeAll(old(View()))
    {
      draining := true;
      leases := CancelHeld(active, leases);
      blocked := blocked + active.Keys;
      DropReservations();
      BlockPowered();
    }

    method ReadStatus(d: Desktop) returns (status: ControlStatus)
      requires Valid()
      ensures status == Status(View(), d)
    {
      assert DesktopOk(View(), d);
      if d !in active {
        return Free(if d in generations then generations[d] else 0);
      }
      return Held(leases[active[d]].actor, leases[active[d]].generation);
    }
  }
}
