/**
 Every interleaving of callers over the control registry.

 Each locked region is one step. Between its regions a caller is suspended at
 a program point (`Pc`), and any number of callers may be suspended at once.
 */
module ControlRuns {
  import opened ControlSpec

  type Tid = nat

  datatype Pc =
    | Waiting(d: Desktop, actor: Actor, previous: LeaseId, mine: ReservationId) // acquire, in the drain window
    | Owning(d: Desktop, l: LeaseId)         // the RFB handler between acquire and its deferred release
    | Expiring(d: Desktop, l: LeaseId)       // the expireLoop of an HTTP agent lease
    | AgentReleasing(d: Desktop, l: LeaseId) // releaseAgentOwner between its check and its release
    | Closing(d: Desktop, l: LeaseId)        // release between unlocking and closing `done`
    | Powering(d: Desktop, op: PowerOp)      // a power request between beginPower and finishPower

  datatype Finished = Finished(d: Desktop, action: PowerAction, outcome: PowerOutcome)

  datatype System = System(reg: Registry, threads: map<Tid, Pc>, now: nat, finished: seq<Finished>)

  datatype Step =
    | CallAcquire(t: Tid, d: Desktop, actor: Actor, takeover: bool, ctxLive: bool)
    | ResumeAcquire(t: Tid, wake: Wake, ctxLive: bool, distinct: bool)
    | OwnerRelease(t: Tid)
    | CancelContext(t: Tid)
    | CallAcquireAgent(t: Tid, d: Desktop, ttl: nat)
    | Expire(t: Tid)
    | Touch(d: Desktop)
    | CallReleaseAgent(t: Tid, d: Desktop)
    | FinishReleaseAgent(t: Tid)
    | SignalDone(t: Tid)
    | CallBeginPower(t: Tid, d: Desktop, action: PowerAction)
    | CallFinishPower(t: Tid, outcome: PowerOutcome)
    | CallRevokeAll
    | Tick

  const Init: System := System(Empty, map[], 0, [])

  predicate Enabled(s: System, st: Step) {
    match st
    case CallAcquire(t, _, _, _, _) => t !in s.threads
    case CallAcquireAgent(t, _, _) => t !in s.threads
    case CallReleaseAgent(t, _) => t !in s.threads
    case CallBeginPower(t, _, _) => t !in s.threads
    case ResumeAcquire(t, wake, _, _) =>
      && t in s.threads && s.threads[t].Waiting?
      && (wake == PreviousDone ==> s.threads[t].previous < |s.reg.leases| && s.reg.leases[s.threads[t].previous].done)
    case OwnerRelease(t) => t in s.threads && s.threads[t].Owning?
    case CancelContext(t) => t in s.threads && s.threads[t].Owning?
    case Expire(t) => t in s.threads && s.threads[t].Expiring? && s.threads[t].l < |s.reg.leases|
                      && ExpiryDue(s.reg.leases[s.threads[t].l], s.now)
    case FinishReleaseAgent(t) => t in s.threads && s.threads[t].AgentReleasing?
    case SignalDone(t) => t in s.threads && s.threads[t].Closing?
    case CallFinishPower(t, _) => t in s.threads && s.threads[t].Powering?
    case Touch(_) => true
    case CallRevokeAll => true
    case Tick => true
  }

  /** release(d, l) up to its unlock; the caller still has to close `done`. */
  function ReleaseBy(s: System, t: Tid, d: Desktop, l: LeaseId): System {
    s.(reg := Release(s.reg, d, l), threads := s.threads[t := Closing(d, l)])
  }

  function Apply(s: System, st: Step): System
    requires Enabled(s, st)
  {
    match st
    case CallAcquire(t, d, actor, takeover, ctxLive) =>
      var (r, a) := AcquireBegin(s.reg, ctxLive, d, actor, takeover, s.now);
      (match a
       case Granted(l) => s.(reg := r, threads := s.threads[t := Owning(d, l)])
       case MustWait(previous, mine) => s.(reg := r, threads := s.threads[t := Waiting(d, actor, previous, mine)])
       case Refused(_) => s.(reg := r))
    case ResumeAcquire(t, wake, ctxLive, distinct) =>
      var pc := s.threads[t];
      var (r, a) := AcquireResume(s.reg, pc.d, pc.actor, pc.mine, distinct, wake, ctxLive, s.now);
      if a.Granted? then s.(reg := r, threads := s.threads[t := Owning(pc.d, a.lease)])
      else s.(reg := r, threads := s.threads - {t})
    case OwnerRelease(t) => ReleaseBy(s, t, s.threads[t].d, s.threads[t].l)
    case CancelContext(t) => s.(reg := Cancel(s.reg, s.threads[t].l))
    case CallAcquireAgent(t, d, ttl) =>
      var (r, a) := AcquireAgent(s.reg, d, ttl, s.now);
      if a.Granted? then s.(reg := r, threads := s.threads[t := Expiring(d, a.lease)]) else s.(reg := r)
    case Expire(t) => ReleaseBy(s, t, s.threads[t].d, s.threads[t].l)
    case Touch(d) => s.(reg := TouchAgent(s.reg, d, s.now))
    case CallReleaseAgent(t, d) =>
      if AgentOwns(s.reg, d) then s.(threads := s.threads[t := AgentReleasing(d, s.reg.active[d])]) else s
    case FinishReleaseAgent(t) => ReleaseBy(s, t, s.threads[t].d, s.threads[t].l)
    case SignalDone(t) => s.(reg := CloseDone(s.reg, s.threads[t].l), threads := s.threads - {t})
    case CallBeginPower(t, d, action) =>
      var (r, b) := BeginPower(s.reg, d, action);
      if b.PowerReserved? then s.(reg := r, threads := s.threads[t := Powering(d, b.op)]) else s.(reg := r)
    case CallFinishPower(t, outcome) =>
      var pc := s.threads[t];
      var counted := pc.d in s.reg.powerOps && s.reg.powerOps[pc.d] == pc.op;
      System(FinishPower(s.reg, pc.d, pc.op, outcome), s.threads - {t}, s.now,
             if counted then s.finished + [Finished(pc.d, pc.op.action, outcome)] else s.finished)
    case CallRevokeAll => s.(reg := RevokeAll(s.reg))
    case Tick => s.(now := s.now + 1)
  }

  predicate StepAt(states: seq<System>, steps: seq<Step>, i: nat)
    requires |states| == |steps| + 1 && i < |steps|
  {
    Enabled(states[i], steps[i]) && states[i + 1] == Apply(states[i], steps[i])
  }

  /** A run: consecutive states, each got from the one before by an enabled step. */
  ghost predicate IsRun(states: seq<System>, steps: seq<Step>) {
    && |states| == |steps| + 1
    && forall i: nat :: i < |steps| ==> StepAt(states, steps, i)
  }

  ghost predicate IsInitialRun(states: seq<System>, steps: seq<Step>) {
    IsRun(states, steps) && states[0] == Init
  }

  // ---------------------------------------------------------------- invariants

  /** Quarantine left by the finished power operations of one desktop. */
  function Quarantined(finished: seq<Finished>, d: Desktop): bool {
    if finished == [] then false
    else
      var last := finished[|finished| - 1];
      var before := Quarantined(finished[..|finished| - 1], d);
      if last.d != d then before
      else match last.outcome
        case Succeeded => if last.action == Start then false else true
        case Unknown => true
        case Rejected => before
  }

  /**
   Per desktop: the active lease is its newest one and has not signalled done;
   and power in flight, quarantine and shutdown each exclude control.
   */
  predicate DesktopOk(r: Registry, d: Desktop) {
    && (d in r.active ==>
          && r.active[d] < |r.leases|
          && r.leases[r.active[d]].desktop == d
          && r.leases[r.active[d]].generation == Generation(r, d)
          && !r.leases[r.active[d]].done)
    && (d in r.powerOps ==> d in r.blocked && d !in r.active && d !in r.takeovers)
    && (d in r.blocked && !r.draining ==> d !in r.active && d !in r.takeovers)
    && (r.draining ==> d !in r.takeovers && (d in r.active ==> d in r.blocked))
  }

  ghost predicate RegOk(r: Registry) {
    forall d :: DesktopOk(r, d)
  }

  ghost predicate PcOk(r: Registry, pc: Pc) {
    match pc
    case Waiting(d, actor, previous, mine) =>
      && actor == Human
      && previous < |r.leases| && r.leases[previous].desktop == d && r.leases[previous].actor == Agent
      && (!r.draining ==> d in r.takeovers && r.takeovers[d] == mine && (d in r.active ==> r.active[d] == previous))
    case Owning(d, l) => l < |r.leases| && r.leases[l].desktop == d && r.leases[l].ttl == 0
    case Expiring(d, l) => l < |r.leases| && r.leases[l].desktop == d && r.leases[l].actor == Agent
    case AgentReleasing(d, l) => l < |r.leases| && r.leases[l].desktop == d && r.leases[l].actor == Agent
    case Closing(d, l) => l < |r.leases| && r.leases[l].desktop == d && !(d in r.active && r.active[d] == l)
    case Powering(d, op) => true
  }

  predicate BothWaitingFor(a: Pc, b: Pc) {
    a.Waiting? && b.Waiting? && a.d == b.d
  }

  ghost predicate ThreadsOk(s: System) {
    && (forall t :: t in s.threads ==> PcOk(s.reg, s.threads[t]))
    && (forall t, u :: t in s.threads && u in s.threads && BothWaitingFor(s.threads[t], s.threads[u]) ==> t == u)
  }

  /** A suspended power request is the operation in flight on its desktop. */
  predicate PowerHeld(r: Registry, pc: Pc) {
    pc.Powering? ==> pc.d in r.powerOps && r.powerOps[pc.d] == pc.op
  }

  predicate BothPowering(a: Pc, b: Pc) {
    a.Powering? && b.Powering? && a.d == b.d
  }

  ghost predicate PowersOk(s: System) {
    && (forall t :: t in s.threads ==> PowerHeld(s.reg, s.threads[t]))
    && (forall t, u :: t in s.threads && u in s.threads && BothPowering(s.threads[t], s.threads[u]) ==> t == u)
  }

  /** Before shutdown, the quarantine flag is the fold over the finished operations. */
  predicate QuarantineOk(s: System, d: Desktop) {
    !s.reg.draining ==>
      if d in s.reg.powerOps then s.reg.powerOps[d].priorBlocked <==> Quarantined(s.finished, d)
      else d in s.reg.blocked <==> Quarantined(s.finished, d)
  }

  ghost predicate Inv(s: System) {
    RegOk(s.reg) && ThreadsOk(s) && PowersOk(s) && forall d :: QuarantineOk(s, d)
  }

  // ---------------------------------------------------------------- what every region keeps

  predicate SameLease(a: Lease, b: Lease) {
    && a.desktop == b.desktop && a.actor == b.actor && a.generation == b.generation && a.ttl == b.ttl
    && (a.done ==> b.done) && (a.cancelled ==> b.cancelled)
  }

  /** Old leases keep their identity; new ones carry higher generations. */
  predicate LeaseEvolves(r: Registry, r': Registry, l: LeaseId) {
    if l < |r.leases| then l < |r'.leases| && SameLease(r.leases[l], r'.leases[l])
    else l < |r'.leases| ==> Generation(r, r'.leases[l].desktop) < r'.leases[l].generation
  }

  /** A lease that is not active never becomes active again; shutdown never unblocks. */
  predicate DesktopEvolves(r: Registry, r': Registry, d: Desktop) {
    && Generation(r, d) <= Generation(r', d)
    && (d in r'.active && r'.active[d] < |r.leases| ==> d in r.active && r.active[d] == r'.active[d])
    && (r.draining && d in r.blocked ==> d in r'.blocked)
  }

  /** What may happen to a registry over any stretch of time; once draining, nothing is granted or begun. */
  ghost predicate Evolves(r: Registry, r': Registry) {
    && (forall l :: LeaseEvolves(r, r', l))
    && (forall d :: DesktopEvolves(r, r', d))
    && |r.leases| <= |r'.leases| && r.powerOpsBegun <= r'.powerOpsBegun
    && (r.draining ==> r'.draining && |r.leases| == |r'.leases| && r.powerOpsBegun == r'.powerOpsBegun)
  }

  /** The drain window of desktop d is undisturbed: same reservation, nobody new active. */
  predicate WindowKept(r: Registry, r': Registry, d: Desktop) {
    !r'.draining && d in r.takeovers ==>
      d in r'.takeovers && r'.takeovers[d] == r.takeovers[d]
        && (d in r'.active ==> d in r.active && r'.active[d] == r.active[d])
  }

  ghost predicate Keeps(r: Registry, r': Registry) {
    RegOk(r') && Evolves(r, r') && forall d :: WindowKept(r, r', d)
  }

  lemma GrantKeeps(r: Registry, d: Desktop, actor: Actor, ttl: nat, now: nat)
    requires RegOk(r) && !r.draining && d !in r.blocked && d !in r.takeovers && d !in r.active
    ensures Keeps(r, Grant(r, d, actor, ttl, now))
  {
    var r' := Grant(r, d, actor, ttl, now);
    forall e ensures DesktopOk(r', e) && DesktopEvolves(r, r', e) && WindowKept(r, r', e) {
      assert DesktopOk(r, e);
      assert DesktopOk(r, d);
    }
  }

  lemma AcquireBeginKeeps(r: Registry, ctxLive: bool, d: Desktop, actor: Actor, takeover: bool, now: nat)
    requires RegOk(r)
    ensures Keeps(r, AcquireBegin(r, ctxLive, d, actor, takeover, now).0)
  {
    var (r', a) := AcquireBegin(r, ctxLive, d, actor, takeover, now);
    if a.Granted? {
      GrantKeeps(r, d, actor, 0, now);
    } else {
      forall e ensures DesktopOk(r', e) && DesktopEvolves(r, r', e) && WindowKept(r, r', e) {
        assert DesktopOk(r, e);
      }
    }
  }

  /** Ending a drain window disturbs no other desktop's window. */
  lemma AcquireResumeKeeps(r: Registry, d: Desktop, actor: Actor, mine: ReservationId, distinct: bool, wake: Wake,
                           ctxLive: bool, now: nat)
    requires RegOk(r)
    ensures var r' := AcquireResume(r, d, actor, mine, distinct, wake, ctxLive, now).0;
            RegOk(r') && Evolves(r, r') && forall e :: e != d ==> WindowKept(r, r', e)
  {
    var (r', a) := AcquireResume(r, d, actor, mine, distinct, wake, ctxLive, now);
    assert DesktopOk(r, d);
    var freed := r.(takeovers := r.takeovers - {d});
    forall e ensures DesktopOk(freed, e) && DesktopEvolves(r, freed, e) {
      assert DesktopOk(r, e);
    }
    if a.Granted? {
      GrantKeeps(freed, d, actor, 0, now);
      forall e | e != d ensures WindowKept(r, r', e) {
        assert WindowKept(freed, r', e);
      }
      forall l ensures LeaseEvolves(r, r', l) {
        assert LeaseEvolves(freed, r', l);
      }
      forall e ensures DesktopEvolves(r, r', e) {
        assert DesktopEvolves(freed, r', e);
      }
    }
  }

  lemma AcquireAgentKeeps(r: Registry, d: Desktop, ttl: nat, now: nat)
    requires RegOk(r)
    ensures Keeps(r, AcquireAgent(r, d, ttl, now).0)
  {
    if AcquireAgent(r, d, ttl, now).1.Granted? {
      GrantKeeps(r, d, Agent, ttl, now);
    }
  }

  lemma ReleaseKeeps(r: Registry, d: Desktop, l: LeaseId)
    requires RegOk(r)
    ensures Keeps(r, Release(r, d, l))
  {
    var r' := Release(r, d, l);
    forall e ensures DesktopOk(r', e) && DesktopEvolves(r, r', e) && WindowKept(r, r', e) {
      assert DesktopOk(r, e);
    }
  }

  /** Changing the flags of lease l is harmless; `done` may be set only once l is inactive. */
  lemma FlagsKeep(r: Registry, r': Registry, l: LeaseId, lease: Lease)
    requires RegOk(r) && l < |r.leases|
    requires r' == r.(leases := r.leases[l := lease]) && SameLease(r.leases[l], lease)
    requires lease.done && !r.leases[l].done ==> !(lease.desktop in r.active && r.active[lease.desktop] == l)
    ensures Keeps(r, r')
  {
    forall e ensures DesktopOk(r', e) && DesktopEvolves(r, r', e) && WindowKept(r, r', e) {
      assert DesktopOk(r, e);
    }
  }

  lemma BeginPowerKeeps(r: Registry, d: Desktop, action: PowerAction)
    requires RegOk(r)
    ensures Keeps(r, BeginPower(r, d, action).0)
  {
    var r' := BeginPower(r, d, action).0;
    forall e ensures DesktopOk(r', e) && DesktopEvolves(r, r', e) && WindowKept(r, r', e) {
      assert DesktopOk(r, e);
    }
  }

  lemma FinishPowerKeeps(r: Registry, d: Desktop, op: PowerOp, outcome: PowerOutcome)
    requires RegOk(r)
    ensures Keeps(r, FinishPower(r, d, op, outcome))
  {
    var r' := FinishPower(r, d, op, outcome);
    forall e ensures DesktopOk(r', e) && DesktopEvolves(r, r', e) && WindowKept(r, r', e) {
      assert DesktopOk(r, e);
    }
  }

  lemma RevokeKeeps(r: Registry)
    requires RegOk(r)
    ensures Keeps(r, RevokeAll(r))
  {
    var r' := RevokeAll(r);
    forall e ensures DesktopOk(r', e) && DesktopEvolves(r, r', e) && WindowKept(r, r', e) {
      assert DesktopOk(r, e);
    }
  }

  /** The registry part of any step, and the one drain window it may close. */
  lemma RegStep(s: System, st: Step)
    requires Inv(s) && Enabled(s, st)
    ensures var s' := Apply(s, st);
            && RegOk(s'.reg) && Evolves(s.reg, s'.reg)
            && forall d :: (st.ResumeAcquire? && d == s.threads[st.t].d) || WindowKept(s.reg, s'.reg, d)
  {
    match st
    case CallAcquire(t, d, actor, takeover, ctxLive) => AcquireBeginKeeps(s.reg, ctxLive, d, actor, takeover, s.now);
    case ResumeAcquire(t, wake, ctxLive, distinct) =>
      var pc := s.threads[t];
      AcquireResumeKeeps(s.reg, pc.d, pc.actor, pc.mine, distinct, wake, ctxLive, s.now);
    case OwnerRelease(t) => ReleaseKeeps(s.reg, s.threads[t].d, s.threads[t].l);
    case Expire(t) => ReleaseKeeps(s.reg, s.threads[t].d, s.threads[t].l);
    case FinishReleaseAgent(t) => ReleaseKeeps(s.reg, s.threads[t].d, s.threads[t].l);
    case CancelContext(t) =>
      assert PcOk(s.reg, s.threads[t]);
      FlagsKeep(s.reg, Apply(s, st).reg, s.threads[t].l, s.reg.leases[s.threads[t].l].(cancelled := true));
    case CallAcquireAgent(t, d, ttl) => AcquireAgentKeeps(s.reg, d, ttl, s.now);
    case Touch(d) =>
      if Apply(s, st).reg != s.reg {
        FlagsKeep(s.reg, Apply(s, st).reg, s.reg.active[d], s.reg.leases[s.reg.active[d]].(lastTouch := s.now));
      }
    case SignalDone(t) =>
      assert PcOk(s.reg, s.threads[t]);
      FlagsKeep(s.reg, Apply(s, st).reg, s.threads[t].l, s.reg.leases[s.threads[t].l].(done := true));
    case CallBeginPower(t, d, action) => BeginPowerKeeps(s.reg, d, action);
    case CallFinishPower(t, outcome) => FinishPowerKeeps(s.reg, s.threads[t].d, s.threads[t].op, outcome);
    case CallRevokeAll => RevokeKeeps(s.reg);
    case CallReleaseAgent(t, d) =>
    case Tick =>
  }

  /** A suspended caller's facts survive whatever other callers do to the registry. */
  lemma PcStable(r: Registry, r': Registry, pc: Pc)
    requires PcOk(r, pc) && Evolves(r, r') && (pc.Waiting? ==> WindowKept(r, r', pc.d))
    ensures PcOk(r', pc)
  {
    match pc
    case Waiting(d, _, previous, _) => assert LeaseEvolves(r, r', previous);
    case Owning(d, l) => assert LeaseEvolves(r, r', l);
    case Expiring(d, l) => assert LeaseEvolves(r, r', l);
    case AgentReleasing(d, l) => assert LeaseEvolves(r, r', l);
    case Closing(d, l) => assert LeaseEvolves(r, r', l); assert DesktopEvolves(r, r', d);
    case Powering(_, _) =>
  }

  /** The caller a step belongs to, if any. */
  function Caller(st: Step): set<Tid> {
    if st.Touch? || st.CallRevokeAll? || st.Tick? then {} else {st.t}
  }

  lemma CallerOk(s: System, st: Step, t: Tid)
    requires Inv(s) && Enabled(s, st) && Caller(st) == {t} && t in Apply(s, st).threads
    ensures PcOk(Apply(s, st).reg, Apply(s, st).threads[t])
  {
    RegStep(s, st);
    var s' := Apply(s, st);
    assert t in s.threads ==> PcOk(s.reg, s.threads[t]);
    if t in s.threads && s'.threads[t] == s.threads[t] && !st.ResumeAcquire? {
      PcStable(s.reg, s'.reg, s.threads[t]);
    } else if t in s.threads && !st.ResumeAcquire? {
      assert LeaseEvolves(s.reg, s'.reg, s.threads[t].l);
    } else if !st.ResumeAcquire? {
      assert DesktopOk(s.reg, st.d);
      assert DesktopOk(s'.reg, st.d);
    } else {
      assert DesktopOk(s'.reg, s.threads[t].d);
    }
  }

  lemma ThreadsStep(s: System, st: Step)
    requires Inv(s) && Enabled(s, st)
    ensures ThreadsOk(Apply(s, st))
  {
    RegStep(s, st);
    var s' := Apply(s, st);
    forall u | u in s'.threads ensures PcOk(s'.reg, s'.threads[u]) {
      if {u} == Caller(st) {
        CallerOk(s, st, u);
      } else {
        assert s'.threads[u] == s.threads[u];
        PcStable(s.reg, s'.reg, s.threads[u]);
      }
    }
    OneWaiterStep(s, st);
  }

  /** A caller starts to wait only where nobody waits. */
  lemma OneWaiterStep(s: System, st: Step)
    requires Inv(s) && Enabled(s, st)
    ensures var s' := Apply(s, st);
            forall t, u :: t in s'.threads && u in s'.threads && BothWaitingFor(s'.threads[t], s'.threads[u]) ==> t == u
  {
    var s' := Apply(s, st);
    forall t, u | t in s'.threads && u in s'.threads && BothWaitingFor(s'.threads[t], s'.threads[u]) ensures t == u {
      if {t} != Caller(st) && {u} != Caller(st) {
        assert BothWaitingFor(s.threads[t], s.threads[u]);
      } else {
        assert st.CallAcquire? ==> forall v :: v in s.threads ==> PcOk(s.reg, s.threads[v]);
      }
    }
  }

  /** Every other step leaves the power state alone. */
  lemma PowerUntouched(s: System, st: Step)
    requires Enabled(s, st) && !st.CallBeginPower? && !st.CallFinishPower? && !st.CallRevokeAll?
    ensures var s' := Apply(s, st);
            && s'.reg.blocked == s.reg.blocked && s'.reg.powerOps == s.reg.powerOps
            && s'.reg.draining == s.reg.draining && s'.finished == s.finished
  {
    match st
    case CallAcquire(_, _, _, _, _) =>
    case ResumeAcquire(_, _, _, _) =>
    case OwnerRelease(_) =>
    case CancelContext(_) =>
    case CallAcquireAgent(_, _, _) =>
    case Expire(_) =>
    case Touch(_) =>
    case CallReleaseAgent(_, _) =>
    case FinishReleaseAgent(_) =>
    case SignalDone(_) =>
    case Tick =>
  }

  /** Only beginPower suspends a power request, and only its own finish ends it. */
  lemma PowerRequestFrom(s: System, st: Step, t: Tid)
    requires Enabled(s, st) && t in Apply(s, st).threads && Apply(s, st).threads[t].Powering?
    ensures (t in s.threads && s.threads[t] == Apply(s, st).threads[t]) ||
            (st.CallBeginPower? && st.t == t && Apply(s, st).threads[t].d == st.d && st.d !in s.reg.powerOps)
    ensures !(st.CallFinishPower? && st.t == t)
  {
    match st
    case CallAcquire(_, _, _, _, _) =>
    case ResumeAcquire(_, _, _, _) =>
    case OwnerRelease(_) =>
    case CancelContext(_) =>
    case CallAcquireAgent(_, _, _) =>
    case Expire(_) =>
    case Touch(_) =>
    case CallReleaseAgent(_, _) =>
    case FinishReleaseAgent(_) =>
    case SignalDone(_) =>
    case CallBeginPower(_, _, _) =>
    case CallFinishPower(_, _) =>
    case CallRevokeAll =>
    case Tick =>
  }

  /** A suspended power request goes on being the operation in flight. */
  lemma PowerRequestStep(s: System, st: Step, t: Tid)
    requires Inv(s) && Enabled(s, st) && t in Apply(s, st).threads && Apply(s, st).threads[t].Powering?
    ensures PowerHeld(Apply(s, st).reg, Apply(s, st).threads[t])
  {
    PowerRequestFrom(s, st, t);
    assert t in s.threads ==> PowerHeld(s.reg, s.threads[t]);
    if st.CallFinishPower? {
      assert !BothPowering(s.threads[t], s.threads[st.t]);
    } else if !st.CallBeginPower? && !st.CallRevokeAll? {
      PowerUntouched(s, st);
    }
  }

  lemma PowersStep(s: System, st: Step)
    requires Inv(s) && Enabled(s, st)
    ensures PowersOk(Apply(s, st))
  {
    var s' := Apply(s, st);
    forall t | t in s'.threads ensures PowerHeld(s'.reg, s'.threads[t]) {
      if s'.threads[t].Powering? {
        PowerRequestStep(s, st, t);
      }
    }
    forall t, u | t in s'.threads && u in s'.threads && BothPowering(s'.threads[t], s'.threads[u]) ensures t == u {
      PowerRequestFrom(s, st, t);
      PowerRequestFrom(s, st, u);
      assert t in s.threads ==> PowerHeld(s.reg, s.threads[t]);
      assert u in s.threads ==> PowerHeld(s.reg, s.threads[u]);
      assert t in s.threads && u in s.threads && BothPowering(s.threads[t], s.threads[u]) ==> t == u;
    }
  }

  /** A finished operation extends the history by its outcome, and the flag follows. */
  lemma QuarantineAfterPower(s: System, st: Step, d: Desktop)
    requires Inv(s) && Enabled(s, st) && st.CallFinishPower?
    ensures QuarantineOk(Apply(s, st), d)
  {
    var s' := Apply(s, st);
    assert QuarantineOk(s, d) && DesktopOk(s.reg, d);
    if s'.finished != s.finished {
      assert s'.finished[..|s'.finished| - 1] == s.finished;
    }
  }

  lemma QuarantineStep(s: System, st: Step, d: Desktop)
    requires Inv(s) && Enabled(s, st)
    ensures QuarantineOk(Apply(s, st), d)
  {
    assert QuarantineOk(s, d);
    if st.CallFinishPower? {
      QuarantineAfterPower(s, st, d);
    } else if !st.CallBeginPower? && !st.CallRevokeAll? {
      PowerUntouched(s, st);
    }
  }

  lemma InvStep(s: System, st: Step)
    requires Inv(s) && Enabled(s, st)
    ensures Inv(Apply(s, st))
  {
    RegStep(s, st);
    ThreadsStep(s, st);
    PowersStep(s, st);
    forall d ensures QuarantineOk(Apply(s, st), d) {
      QuarantineStep(s, st, d);
    }
  }
}
