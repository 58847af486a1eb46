/**
 What holds in every run of the Desktop Gateway's control registry.
 */
module ControlTheorems {
  import opened ControlSpec
  import opened ControlRuns

  lemma {:induction false} InvAlways(states: seq<System>, steps: seq<Step>, i: nat)
    requires IsInitialRun(states, steps) && i < |states|
    ensures Inv(states[i])
  {
    if i > 0 {
      InvAlways(states, steps, i - 1);
      assert StepAt(states, steps, i - 1);
      InvStep(states[i - 1], steps[i - 1]);
    }
  }

  /** Step k of a run, with the invariant it starts from. */
  lemma At(states: seq<System>, steps: seq<Step>, k: nat)
    requires IsInitialRun(states, steps) && k < |steps|
    ensures Inv(states[k]) && Enabled(states[k], steps[k]) && states[k + 1] == Apply(states[k], steps[k])
  {
    InvAlways(states, steps, k);
    assert StepAt(states, steps, k);
  }

  lemma EvolvesTransitive(a: Registry, b: Registry, c: Registry)
    requires Evolves(a, b) && Evolves(b, c)
    ensures Evolves(a, c)
  {
    forall l: nat ensures LeaseEvolves(a, c, l) {
      assert LeaseEvolves(a, b, l) && LeaseEvolves(b, c, l);
      if |b.leases| <= l < |c.leases| {
        assert DesktopEvolves(a, b, c.leases[l].desktop);
      }
    }
    forall d ensures DesktopEvolves(a, c, d) {
      assert DesktopEvolves(a, b, d) && DesktopEvolves(b, c, d);
    }
  }

  lemma StepEvolves(states: seq<System>, steps: seq<Step>, k: nat)
    requires IsInitialRun(states, steps) && k < |steps|
    ensures Evolves(states[k].reg, states[k + 1].reg)
  {
    At(states, steps, k);
    RegStep(states[k], steps[k]);
  }

  lemma {:induction false} EvolvesAlways(states: seq<System>, steps: seq<Step>, i: nat, j: nat)
    requires IsInitialRun(states, steps) && i <= j < |states|
    ensures Evolves(states[i].reg, states[j].reg)
    decreases j
  {
    if i < j {
      EvolvesAlways(states, steps, i, j - 1);
      StepEvolves(states, steps, j - 1);
      EvolvesTransitive(states[i].reg, states[j - 1].reg, states[j].reg);
    }
  }

  /** A lease on desktop d is granted between the two states. */
  predicate GrantsOn(s: System, s': System, d: Desktop) {
    |s.reg.leases| < |s'.reg.leases| && s'.reg.leases[|s.reg.leases|].desktop == d
  }

  predicate BeginsStop(s: System, st: Step, d: Desktop) {
    st.CallBeginPower? && st.d == d && st.action == Stop && BeginPower(s.reg, d, Stop).1.PowerReserved?
  }

  /** Nothing is granted on a held, blocked or draining desktop, nor past another caller's reservation. */
  lemma GrantNeedsFree(s: System, st: Step, d: Desktop)
    requires Inv(s) && Enabled(s, st) && GrantsOn(s, Apply(s, st), d)
    ensures !s.reg.draining && d !in s.reg.active && d !in s.reg.blocked
    ensures d in s.reg.takeovers ==> st.ResumeAcquire? && s.threads[st.t].d == d
    ensures Apply(s, st).reg.active == s.reg.active[d := |s.reg.leases|]
  {
    assert DesktopOk(s.reg, d);
    if st.ResumeAcquire? {
      assert DesktopOk(s.reg, s.threads[st.t].d);
    }
  }

  /** In every reachable state power, quarantine and shutdown exclude input control. */
  lemma ControlExclusion(states: seq<System>, steps: seq<Step>, i: nat, d: Desktop)
    requires IsInitialRun(states, steps) && i < |states|
    ensures var r := states[i].reg;
            && (d in r.powerOps ==> d in r.blocked && d !in r.active && d !in r.takeovers)
            && (d in r.blocked && !r.draining ==> d !in r.active && d !in r.takeovers)
  {
    InvAlways(states, steps, i);
    assert DesktopOk(states[i].reg, d);
  }

  /**
   Mutual exclusion over time: before a desktop is granted again, the lease
   granted earlier has left the registry.
   */
  lemma LeasesNeverOverlap(states: seq<System>, steps: seq<Step>, i: nat, j: nat, d: Desktop) returns (k: nat)
    requires IsInitialRun(states, steps) && i < j < |steps|
    requires GrantsOn(states[i], states[i + 1], d) && GrantsOn(states[j], states[j + 1], d)
    ensures i < k < j
    ensures d in states[k].reg.active && states[k].reg.active[d] == |states[i].reg.leases|
    ensures d !in states[k + 1].reg.active
  {
    GrantTakesFree(states, steps, i, d);
    GrantTakesFree(states, steps, j, d);
    k := LeavesBetween(states, steps, i + 1, j, d);
  }

  /** A grant finds the desktop free and leaves it held by the new lease. */
  lemma GrantTakesFree(states: seq<System>, steps: seq<Step>, i: nat, d: Desktop)
    requires IsInitialRun(states, steps) && i < |steps| && GrantsOn(states[i], states[i + 1], d)
    ensures d !in states[i].reg.active && d in states[i + 1].reg.active
            && states[i + 1].reg.active[d] == |states[i].reg.leases|
  {
    At(states, steps, i);
    GrantNeedsFree(states[i], steps[i], d);
  }

  /** A desktop held at i and free at j lost exactly that lease at some step in between. */
  lemma {:induction false} LeavesBetween(states: seq<System>, steps: seq<Step>, i: nat, j: nat, d: Desktop)
    returns (k: nat)
    requires IsInitialRun(states, steps) && i <= j < |states|
    requires d in states[i].reg.active && d !in states[j].reg.active
    ensures i <= k < j
    ensures d in states[k].reg.active && states[k].reg.active[d] == states[i].reg.active[d]
    ensures d !in states[k + 1].reg.active
    decreases j - i
  {
    k := i;
    if d in states[i + 1].reg.active {
      At(states, steps, i);
      ActiveStaysOrLeaves(states[i], steps[i], d);
      k := LeavesBetween(states, steps, i + 1, j, d);
    }
  }

  lemma ActiveStaysOrLeaves(s: System, st: Step, d: Desktop)
    requires Inv(s) && Enabled(s, st) && d in s.reg.active
    ensures d in Apply(s, st).reg.active ==> Apply(s, st).reg.active[d] == s.reg.active[d]
  {
    assert DesktopOk(s.reg, d);
    if st.ResumeAcquire? {
      assert DesktopOk(s.reg, s.threads[st.t].d);
    }
  }

  predicate HumanHolds(r: Registry, d: Desktop) {
    d in r.active && r.active[d] < |r.leases| && r.leases[r.active[d]].actor == Human
  }

  /**
   A human's lease leaves the registry only when its own holder releases it:
   never through an agent's acquire, release or expiry, nor a takeover.
   */
  lemma HumanLeaseLeavesByItsHolder(states: seq<System>, steps: seq<Step>, k: nat, d: Desktop)
    requires IsInitialRun(states, steps) && k < |steps|
    requires HumanHolds(states[k].reg, d)
    requires !(d in states[k + 1].reg.active && states[k + 1].reg.active[d] == states[k].reg.active[d])
    ensures steps[k].OwnerRelease? && steps[k].t in states[k].threads
            && states[k].threads[steps[k].t] == Owning(d, states[k].reg.active[d])
  {
    var s, st := states[k], steps[k];
    At(states, steps, k);
    if st.OwnerRelease? || st.Expire? || st.FinishReleaseAgent? {
      assert PcOk(s.reg, s.threads[st.t]);
    }
    ActiveStaysOrLeaves(s, st, d);
  }

  /** A human's lease is cancelled only by the end of its holder's own context, or by shutdown. */
  lemma HumanLeaseCancelled(states: seq<System>, steps: seq<Step>, k: nat, l: LeaseId)
    requires IsInitialRun(states, steps) && k < |steps| && l < |states[k].reg.leases| <= |states[k + 1].reg.leases|
    requires states[k].reg.leases[l].actor == Human && !states[k].reg.leases[l].cancelled
             && states[k + 1].reg.leases[l].cancelled
    ensures steps[k].CallRevokeAll?
            || (steps[k].CancelContext? && steps[k].t in states[k].threads
                && states[k].threads[steps[k].t] == Owning(states[k].reg.leases[l].desktop, l))
  {
    At(states, steps, k);
    CancelledBy(states[k], steps[k], l);
  }

  /** Only a takeover of an agent's lease, a lease's own context and shutdown cancel leases. */
  lemma CancelledBy(s: System, st: Step, l: LeaseId)
    requires Inv(s) && Enabled(s, st) && l < |s.reg.leases| <= |Apply(s, st).reg.leases|
    requires !s.reg.leases[l].cancelled && Apply(s, st).reg.leases[l].cancelled
    ensures
      || st.CallRevokeAll?
      || (st.CancelContext? && st.t in s.threads && s.threads[st.t] == Owning(s.reg.leases[l].desktop, l))
      || (&& st.CallAcquire? && st.actor == Human && st.takeover && st.ctxLive && s.reg.leases[l].actor == Agent
          && st.d in s.reg.active && s.reg.active[st.d] == l)
  {
    if st.CancelContext? {
      assert PcOk(s.reg, s.threads[st.t]);
    } else if !st.CallRevokeAll? && !st.CallAcquire? {
      OthersCancelNothing(s, st, l);
    }
  }

  lemma OthersCancelNothing(s: System, st: Step, l: LeaseId)
    requires Enabled(s, st) && !st.CallAcquire? && !st.CancelContext? && !st.CallRevokeAll? && l < |s.reg.leases|
    ensures l < |Apply(s, st).reg.leases| && Apply(s, st).reg.leases[l].cancelled == s.reg.leases[l].cancelled
  {
    match st
    case ResumeAcquire(_, _, _, _) =>
    case OwnerRelease(_) =>
    case CallAcquireAgent(_, _, _) =>
    case Expire(_) =>
    case Touch(_) =>
    case CallReleaseAgent(_, _) =>
    case FinishReleaseAgent(_) =>
    case SignalDone(_) =>
    case CallBeginPower(_, _, _) =>
    case CallFinishPower(_, _) =>
    case Tick =>
  }

  predicate WaitsFor(s: System, t: Tid, d: Desktop) {
    t in s.threads && s.threads[t].Waiting? && s.threads[t].d == d
  }

  /**
   While a caller sits in the drain window of a desktop, nobody is granted a
   lease there and nobody else is in that window.
   */
  lemma TakeoverWindow(states: seq<System>, steps: seq<Step>, i: nat, j: nat, t: Tid, d: Desktop)
    requires IsInitialRun(states, steps) && i <= j < |states|
    requires forall k :: i <= k <= j ==> WaitsFor(states[k], t, d)
    ensures forall k :: i <= k < j ==> !GrantsOn(states[k], states[k + 1], d)
    ensures forall k, u :: i <= k <= j && WaitsFor(states[k], u, d) ==> u == t
  {
    forall k | i <= k <= j
      ensures forall u :: WaitsFor(states[k], u, d) ==> u == t
    {
      InvAlways(states, steps, k);
      forall u | WaitsFor(states[k], u, d) ensures u == t {
        assert BothWaitingFor(states[k].threads[u], states[k].threads[t]);
      }
    }
    forall k | i <= k < j ensures !GrantsOn(states[k], states[k + 1], d) {
      At(states, steps, k);
      assert WaitsFor(states[k + 1], t, d);
      WaiterBlocksGrants(states[k], steps[k], t, d);
    }
  }

  lemma WaiterBlocksGrants(s: System, st: Step, t: Tid, d: Desktop)
    requires Inv(s) && Enabled(s, st) && WaitsFor(s, t, d) && WaitsFor(Apply(s, st), t, d)
    ensures !GrantsOn(s, Apply(s, st), d)
  {
    if GrantsOn(s, Apply(s, st), d) {
      GrantNeedsFree(s, st, d);
      assert PcOk(s.reg, s.threads[t]);
      assert WaitsFor(s, st.t, d) && BothWaitingFor(s.threads[st.t], s.threads[t]);
    }
  }

  /** Comparing reservations by identity or only by presence is the same test for every waiting caller. */
  lemma PresenceDecidesReservation(states: seq<System>, steps: seq<Step>, i: nat, t: Tid, wake: Wake, ctxLive: bool)
    requires IsInitialRun(states, steps) && i < |states|
    requires t in states[i].threads && states[i].threads[t].Waiting?
    ensures var pc := states[i].threads[t]; var r := states[i].reg;
            AcquireResume(r, pc.d, pc.actor, pc.mine, true, wake, ctxLive, states[i].now) ==
            AcquireResume(r, pc.d, pc.actor, pc.mine, false, wake, ctxLive, states[i].now)
  {
    InvAlways(states, steps, i);
    assert PcOk(states[i].reg, states[i].threads[t]);
    assert DesktopOk(states[i].reg, states[i].threads[t].d);
  }

  /**
   A takeover whose incumbent signalled done, whose reservation is still there
   and whose context is live gets the lease; the blocked and busy tests after
   the wait cannot fire.
   */
  lemma TakeoverSucceeds(states: seq<System>, steps: seq<Step>, i: nat, t: Tid, distinct: bool)
    requires IsInitialRun(states, steps) && i < |states|
    requires t in states[i].threads && states[i].threads[t].Waiting?
    requires states[i].threads[t].d in states[i].reg.takeovers
    requires Enabled(states[i], ResumeAcquire(t, PreviousDone, true, distinct))
    ensures var pc := states[i].threads[t]; var s' := Apply(states[i], ResumeAcquire(t, PreviousDone, true, distinct));
            && pc.d !in states[i].reg.blocked && pc.d !in states[i].reg.active
            && GrantsOn(states[i], s', pc.d)
            && s'.threads[t] == Owning(pc.d, |states[i].reg.leases|)
            && s'.reg.leases[|states[i].reg.leases|].actor == Human
            && pc.d !in s'.reg.takeovers
  {
    InvAlways(states, steps, i);
    assert PcOk(states[i].reg, states[i].threads[t]);
    assert DesktopOk(states[i].reg, states[i].threads[t].d);
  }

  /** After shutdown began nothing is granted or begun, and nothing blocked is unblocked, for ever. */
  lemma ShutdownIsFinal(states: seq<System>, steps: seq<Step>, i: nat, j: nat)
    requires IsInitialRun(states, steps) && i <= j < |states| && states[i].reg.draining
    ensures states[j].reg.draining
    ensures |states[j].reg.leases| == |states[i].reg.leases|
            && states[j].reg.powerOpsBegun == states[i].reg.powerOpsBegun
    ensures states[i].reg.blocked <= states[j].reg.blocked
  {
    EvolvesAlways(states, steps, i, j);
    forall d | d in states[i].reg.blocked ensures d in states[j].reg.blocked {
      assert DesktopEvolves(states[i].reg, states[j].reg, d);
    }
  }

  /** Before shutdown and outside an operation, the quarantine flag is the fold of the finished operations. */
  lemma QuarantineIsHistory(states: seq<System>, steps: seq<Step>, i: nat, d: Desktop)
    requires IsInitialRun(states, steps) && i < |states| && !states[i].reg.draining && d !in states[i].reg.powerOps
    ensures d in states[i].reg.blocked <==> Quarantined(states[i].finished, d)
  {
    InvAlways(states, steps, i);
    assert QuarantineOk(states[i], d);
  }

  predicate StartSucceeds(s: System, st: Step, d: Desktop) {
    && st.CallFinishPower? && st.t in s.threads && s.threads[st.t].Powering? && s.threads[st.t].d == d
    && s.threads[st.t].op.action == Start && st.outcome == Succeeded
  }

  lemma QuarantinePersists(s: System, st: Step, d: Desktop)
    requires Inv(s) && Enabled(s, st) && Quarantined(s.finished, d) && !StartSucceeds(s, st, d)
    ensures Quarantined(Apply(s, st).finished, d)
    ensures !GrantsOn(s, Apply(s, st), d) && !BeginsStop(s, st, d)
  {
    assert QuarantineOk(s, d) && DesktopOk(s.reg, d);
    var s' := Apply(s, st);
    if s'.finished != s.finished {
      assert s'.finished[..|s'.finished| - 1] == s.finished;
    }
    if GrantsOn(s, s', d) {
      GrantNeedsFree(s, st, d);
    }
  }

  /** Once quarantined, a desktop is neither granted nor stopped until a start succeeds. */
  lemma {:induction false} QuarantineHoldsUntilStart(states: seq<System>, steps: seq<Step>, i: nat, j: nat, d: Desktop)
    requires IsInitialRun(states, steps) && i <= j < |states| && Quarantined(states[i].finished, d)
    requires forall k :: i <= k < j ==> !StartSucceeds(states[k], steps[k], d)
    ensures Quarantined(states[j].finished, d)
    ensures forall k :: i <= k < j ==> !GrantsOn(states[k], states[k + 1], d) && !BeginsStop(states[k], steps[k], d)
    decreases j
  {
    if i < j {
      QuarantineHoldsUntilStart(states, steps, i, j - 1, d);
      At(states, steps, j - 1);
      QuarantinePersists(states[j - 1], steps[j - 1], d);
    }
  }

  /**
   Every power request that finishes is the one in flight, so it always enters
   the history: the early return for a stale operation cannot be taken.
   */
  lemma FinishAlwaysCounts(states: seq<System>, steps: seq<Step>, i: nat)
    requires IsInitialRun(states, steps) && i < |steps| && steps[i].CallFinishPower?
    ensures steps[i].t in states[i].threads && states[i].threads[steps[i].t].Powering?
    ensures var pc := states[i].threads[steps[i].t];
            && pc.d in states[i].reg.powerOps && states[i].reg.powerOps[pc.d] == pc.op
            && pc.d !in states[i + 1].reg.powerOps
            && states[i + 1].finished == states[i].finished + [Finished(pc.d, pc.op.action, steps[i].outcome)]
  {
    At(states, steps, i);
    assert PowerHeld(states[i].reg, states[i].threads[steps[i].t]);
  }

  /** On each desktop at most one power request is suspended, and it is the operation in flight. */
  lemma OnePowerRequest(states: seq<System>, steps: seq<Step>, i: nat, t: Tid, u: Tid)
    requires IsInitialRun(states, steps) && i < |states| && t in states[i].threads && u in states[i].threads
    requires states[i].threads[t].Powering? && states[i].threads[u].Powering?
    requires states[i].threads[t].d == states[i].threads[u].d
    ensures t == u
    ensures var pc := states[i].threads[t]; pc.d in states[i].reg.powerOps && states[i].reg.powerOps[pc.d] == pc.op
  {
    InvAlways(states, steps, i);
    assert BothPowering(states[i].threads[t], states[i].threads[u]);
    assert PowerHeld(states[i].reg, states[i].threads[t]);
  }

  /** An operation that ends Unknown quarantines its desktop from the next state on. */
  lemma UnknownQuarantines(states: seq<System>, steps: seq<Step>, i: nat)
    requires IsInitialRun(states, steps) && i < |steps| && steps[i].CallFinishPower? && steps[i].outcome == Unknown
    ensures steps[i].t in states[i].threads && states[i].threads[steps[i].t].Powering?
    ensures Quarantined(states[i + 1].finished, states[i].threads[steps[i].t].d)
  {
    FinishAlwaysCounts(states, steps, i);
    var finished := states[i + 1].finished;
    assert finished[..|finished| - 1] == states[i].finished;
  }

  /** After an unknown outcome nothing is granted and no stop begins until a start succeeds. */
  lemma UnknownHoldsUntilStart(states: seq<System>, steps: seq<Step>, i: nat, j: nat)
    requires IsInitialRun(states, steps) && i < j < |states| && steps[i].CallFinishPower? && steps[i].outcome == Unknown
    requires steps[i].t in states[i].threads && states[i].threads[steps[i].t].Powering?
    requires forall k :: i < k < j ==> !StartSucceeds(states[k], steps[k], states[i].threads[steps[i].t].d)
    ensures var d := states[i].threads[steps[i].t].d;
            forall k :: i < k < j ==> !GrantsOn(states[k], states[k + 1], d) && !BeginsStop(states[k], steps[k], d)
  {
    UnknownQuarantines(states, steps, i);
    QuarantineHoldsUntilStart(states, steps, i + 1, j, states[i].threads[steps[i].t].d);
  }
}
