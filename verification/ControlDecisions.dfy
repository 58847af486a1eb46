/**
 What each caller of the control registry gets, exactly, in every reachable
 state: the other half of the safety theorems.
 */
module ControlDecisions {
  import opened ControlSpec
  import opened ControlRuns
  import opened ControlTheorems

  /** Nothing stands in the way of control on this desktop but whoever holds it. */
  predicate Open(r: Registry, d: Desktop) {
    !r.draining && d !in r.blocked && d !in r.takeovers
  }

  predicate HeldByAgent(r: Registry, d: Desktop) {
    d in r.active && r.active[d] < |r.leases| && r.leases[r.active[d]].actor == Agent
  }

  // ---------------------------------------------------------------- acquiring and taking over

  /**
   An acquire is granted exactly on an open, free desktop, and enters the drain
   window exactly when a human asks to take over from an agent on an open one.
   Every other acquire, and every one whose context has ended, is refused and
   changes nothing.
   */
  lemma AcquireExactly(states: seq<System>, steps: seq<Step>, k: nat)
    requires IsInitialRun(states, steps) && k < |steps| && steps[k].CallAcquire?
    ensures var s, s' := states[k], states[k + 1];
            var CallAcquire(t, d, actor, takeover, ctxLive) := steps[k];
            var r, n := s.reg, |s.reg.leases|;
            if ctxLive && Open(r, d) && d !in r.active then
              var g := Generation(r, d) + 1;
              s' == s.(threads := s.threads[t := Owning(d, n)],
                       reg := r.(active := r.active[d := n], generations := r.generations[d := g],
                                 leases := r.leases + [Lease(d, actor, g, 0, s.now, false, false)]))
            else if ctxLive && Open(r, d) && HeldByAgent(r, d) && actor == Human && takeover then
              var l := r.active[d];
              s' == s.(threads := s.threads[t := Waiting(d, Human, l, r.reservations)],
                       reg := r.(takeovers := r.takeovers[d := r.reservations], reservations := r.reservations + 1,
                                 leases := r.leases[l := r.leases[l].(cancelled := true)]))
            else s' == s
  {
    At(states, steps, k);
  }

  /** A lease other than a human's is cancelled only by shutdown, its own context, or a takeover someone asked for. */
  lemma TakeoverOnlyWhenAsked(states: seq<System>, steps: seq<Step>, k: nat, l: LeaseId)
    requires IsInitialRun(states, steps) && k < |steps| && l < |states[k].reg.leases| <= |states[k + 1].reg.leases|
    requires !states[k].reg.leases[l].cancelled && states[k + 1].reg.leases[l].cancelled
    ensures var s, st := states[k], steps[k];
            || st.CallRevokeAll?
            || (st.CancelContext? && st.t in s.threads && s.threads[st.t] == Owning(s.reg.leases[l].desktop, l))
            || (&& st.CallAcquire? && st.takeover && st.actor == Human && st.ctxLive
                && st.d in s.reg.active && s.reg.active[st.d] == l && s.reg.leases[l].actor == Agent
                && WaitsFor(states[k + 1], st.t, st.d))
  {
    At(states, steps, k);
    CancelledBy(states[k], steps[k], l);
    if steps[k].CallAcquire? {
      AcquireExactly(states, steps, k);
    }
  }

  /** A desktop is reserved only by a takeover someone asked for. */
  lemma ReservedOnlyWhenAsked(states: seq<System>, steps: seq<Step>, k: nat, d: Desktop)
    requires IsInitialRun(states, steps) && k < |steps|
    requires d !in states[k].reg.takeovers && d in states[k + 1].reg.takeovers
    ensures var st := steps[k];
            && st.CallAcquire? && st.takeover && st.actor == Human && st.ctxLive && st.d == d
            && HeldByAgent(states[k].reg, d) && WaitsFor(states[k + 1], st.t, d)
  {
    At(states, steps, k);
    if steps[k].CallAcquire? {
      AcquireExactly(states, steps, k);
    } else {
      ReservationsFrom(states[k], steps[k]);
    }
  }

  lemma ReservationsFrom(s: System, st: Step)
    requires Enabled(s, st) && !st.CallAcquire?
    ensures Apply(s, st).reg.takeovers.Keys <= s.reg.takeovers.Keys
  {
    match st
    case ResumeAcquire(_, _, _, _) =>
    case OwnerRelease(_) =>
    case CancelContext(_) =>
    case CallAcquireAgent(_, _, _) =>
    case Expire(_) =>
    case Touch(_) =>
    case CallReleaseAgent(_, _) =>
    case FinishReleaseAgent(_) =>
    case SignalDone(_) =>
    case CallBeginPower(_, _, _) =>
    case CallFinishPower(_, _) =>
    case CallRevokeAll =>
    case Tick =>
  }

  /**
   The end of a drain window: with the reservation gone nothing changes; else it
   is given up, and the caller gets the lease exactly when the incumbent
   signalled done and the context is live.
   */
  lemma WindowEndsExactly(states: seq<System>, steps: seq<Step>, k: nat)
    requires IsInitialRun(states, steps) && k < |steps| && steps[k].ResumeAcquire?
    ensures steps[k].t in states[k].threads && states[k].threads[steps[k].t].Waiting?
    ensures var s, s' := states[k], states[k + 1];
            var ResumeAcquire(t, wake, ctxLive, _) := steps[k];
            var d, n := s.threads[t].d, |s.reg.leases|;
            if d !in s.reg.takeovers then s' == s.(threads := s.threads - {t})
            else if wake == PreviousDone && ctxLive then
              && s'.threads == s.threads[t := Owning(d, n)] && GrantsOn(s, s', d)
              && s'.reg.active == s.reg.active[d := n] && s'.reg.leases[n].actor == Human
              && s'.reg.takeovers == s.reg.takeovers - {d}
            else s' == s.(threads := s.threads - {t}, reg := s.reg.(takeovers := s.reg.takeovers - {d}))
  {
    At(states, steps, k);
    var s, t := states[k], steps[k].t;
    assert PcOk(s.reg, s.threads[t]);
    assert DesktopOk(s.reg, s.threads[t].d);
  }

  /** An agent gets a lease exactly on an open, free desktop; else nothing changes. */
  lemma AgentAcquireExactly(states: seq<System>, steps: seq<Step>, k: nat)
    requires IsInitialRun(states, steps) && k < |steps| && steps[k].CallAcquireAgent?
    ensures var s, s' := states[k], states[k + 1];
            var CallAcquireAgent(t, d, ttl) := steps[k];
            var r, n, g := s.reg, |s.reg.leases|, Generation(s.reg, d) + 1;
            s' == if Open(r, d) && d !in r.active then
                    s.(threads := s.threads[t := Expiring(d, n)],
                       reg := r.(active := r.active[d := n], generations := r.generations[d := g],
                                 leases := r.leases + [Lease(d, Agent, g, ttl, s.now, false, false)]))
                  else s
  {
    At(states, steps, k);
  }

  // ---------------------------------------------------------------- releasing

  predicate Releases(st: Step) {
    st.OwnerRelease? || st.Expire? || st.FinishReleaseAgent?
  }

  /**
   A release of lease l frees its desktop exactly if l still holds it, touches
   no other desktop, and goes on to signal done; the signal wakes whoever waits
   for l.
   */
  lemma ReleaseExactly(states: seq<System>, steps: seq<Step>, k: nat)
    requires IsInitialRun(states, steps) && k < |steps| && Releases(steps[k])
    ensures steps[k].t in states[k].threads
    ensures var s, s', pc := states[k], states[k + 1], states[k].threads[steps[k].t];
            && (pc.Owning? || pc.Expiring? || pc.AgentReleasing?)
            && s'.threads == s.threads[steps[k].t := Closing(pc.d, pc.l)]
            && s'.reg == if pc.d in s.reg.active && s.reg.active[pc.d] == pc.l
                         then s.reg.(active := s.reg.active - {pc.d}) else s.reg
  {
    At(states, steps, k);
  }

  lemma DoneWakesTheWaiter(states: seq<System>, steps: seq<Step>, k: nat, u: Tid)
    requires IsInitialRun(states, steps) && k < |steps| && steps[k].SignalDone? && steps[k].t in states[k].threads
    requires u in states[k].threads && states[k].threads[u].Waiting?
    requires states[k].threads[steps[k].t].Closing? && states[k].threads[u].previous == states[k].threads[steps[k].t].l
    ensures forall ctxLive, distinct :: Enabled(states[k + 1], ResumeAcquire(u, PreviousDone, ctxLive, distinct))
  {
    At(states, steps, k);
    assert PcOk(states[k].reg, states[k].threads[u]);
  }

  /** releaseAgentOwner goes on exactly when an agent holds the desktop, with the lease that holds it. */
  lemma AgentReleaseExactly(states: seq<System>, steps: seq<Step>, k: nat)
    requires IsInitialRun(states, steps) && k < |steps| && steps[k].CallReleaseAgent?
    ensures var s, CallReleaseAgent(t, d) := states[k], steps[k];
            states[k + 1] == if HeldByAgent(s.reg, d)
                             then s.(threads := s.threads[t := AgentReleasing(d, s.reg.active[d])]) else s
  {
    At(states, steps, k);
  }

  // ---------------------------------------------------------------- idle agents

  /** Touches only ever bring a lease's last touch forward, up to the present. */
  lemma TouchStep(s: System, st: Step, l: LeaseId)
    requires Enabled(s, st) && l < |s.reg.leases| && s.reg.leases[l].lastTouch <= s.now
    ensures l < |Apply(s, st).reg.leases| && s.now <= Apply(s, st).now
    ensures s.reg.leases[l].lastTouch <= Apply(s, st).reg.leases[l].lastTouch <= Apply(s, st).now
    ensures !st.Touch? ==> Apply(s, st).reg.leases[l].lastTouch == s.reg.leases[l].lastTouch
    ensures Apply(s, st).reg.leases[l].ttl == s.reg.leases[l].ttl
  {
    if !st.Touch? {
      OthersTouchNothing(s, st, l);
    }
  }

  predicate SameTouch(s: System, s': System, l: LeaseId)
    requires l < |s.reg.leases|
  {
    && l < |s'.reg.leases| && s.now <= s'.now
    && s'.reg.leases[l].lastTouch == s.reg.leases[l].lastTouch && s'.reg.leases[l].ttl == s.reg.leases[l].ttl
  }

  lemma OthersTouchNothing(s: System, st: Step, l: LeaseId)
    requires Enabled(s, st) && !st.Touch? && l < |s.reg.leases|
    ensures SameTouch(s, Apply(s, st), l)
  {
    if MayGrant(st) {
      GrantsTouchNothing(s, st, l);
    } else {
      match st
      case OwnerRelease(_) =>
      case CancelContext(_) =>
      case Expire(_) =>
      case CallReleaseAgent(_, _) =>
      case FinishReleaseAgent(_) =>
      case SignalDone(_) =>
      case CallBeginPower(_, _, _) =>
      case CallFinishPower(_, _) =>
      case CallRevokeAll =>
      case Tick =>
    }
  }

  lemma GrantsTouchNothing(s: System, st: Step, l: LeaseId)
    requires Enabled(s, st) && MayGrant(st) && l < |s.reg.leases|
    ensures SameTouch(s, Apply(s, st), l)
  {
    match st
    case CallAcquire(_, _, _, _, _) =>
    case ResumeAcquire(_, _, _, _) =>
    case CallAcquireAgent(_, _, _) =>
  }

  lemma NewLeaseIsTouched(s: System, st: Step, l: LeaseId)
    requires Enabled(s, st) && |s.reg.leases| <= l < |Apply(s, st).reg.leases|
    ensures Apply(s, st).reg.leases[l].lastTouch == s.now == Apply(s, st).now
  {
    match st
    case CallAcquire(_, _, _, _, _) =>
    case ResumeAcquire(_, _, _, _) =>
    case CallAcquireAgent(_, _, _) =>
    case _ =>
  }

  lemma {:induction false} TouchedInThePast(states: seq<System>, steps: seq<Step>, i: nat, l: LeaseId)
    requires IsInitialRun(states, steps) && i < |states| && l < |states[i].reg.leases|
    ensures states[i].reg.leases[l].lastTouch <= states[i].now
    decreases i
  {
    if i > 0 {
      At(states, steps, i - 1);
      if l < |states[i - 1].reg.leases| {
        TouchedInThePast(states, steps, i - 1, l);
        TouchStep(states[i - 1], steps[i - 1], l);
      } else {
        NewLeaseIsTouched(states[i - 1], steps[i - 1], l);
      }
    }
  }

  /** Over a run the last touch only moves forward, and stands still without a touch; the ttl is fixed. */
  lemma {:induction false} TouchesGrow(states: seq<System>, steps: seq<Step>, i: nat, j: nat, l: LeaseId)
    requires IsInitialRun(states, steps) && i <= j < |states| && l < |states[i].reg.leases|
    ensures l < |states[j].reg.leases| && states[j].reg.leases[l].ttl == states[i].reg.leases[l].ttl
    ensures states[i].reg.leases[l].lastTouch <= states[j].reg.leases[l].lastTouch
    ensures (forall k :: i <= k < j ==> !steps[k].Touch?) ==>
              states[j].reg.leases[l].lastTouch == states[i].reg.leases[l].lastTouch
    decreases j
  {
    if i < j {
      TouchesGrow(states, steps, i, j - 1, l);
      TouchedInThePast(states, steps, j - 1, l);
      At(states, steps, j - 1);
      TouchStep(states[j - 1], steps[j - 1], l);
    }
  }

  /** A touch of a desktop an agent holds over HTTP stamps its lease with the present. */
  lemma TouchStamps(states: seq<System>, steps: seq<Step>, i: nat, d: Desktop)
    requires IsInitialRun(states, steps) && i < |steps| && steps[i] == Touch(d)
    requires HeldByAgent(states[i].reg, d) && states[i].reg.leases[states[i].reg.active[d]].ttl > 0
    ensures var l := states[i].reg.active[d];
            l < |states[i + 1].reg.leases|
              && states[i + 1].reg.leases[l].lastTouch == states[i].now == states[i + 1].now
  {
    At(states, steps, i);
  }

  /**
   A lease that was granted or touched at step i and not cancelled expires only
   after more than its ttl has passed since.
   */
  lemma OutlivesItsTtl(states: seq<System>, steps: seq<Step>, i: nat, j: nat, l: LeaseId)
    requires IsInitialRun(states, steps) && i < j < |steps| && l < |states[i + 1].reg.leases|
    requires states[i + 1].reg.leases[l].lastTouch == states[i + 1].now
    requires steps[j].Expire? && steps[j].t in states[j].threads && states[j].threads[steps[j].t].Expiring?
    requires states[j].threads[steps[j].t].l == l && l < |states[j].reg.leases| && !states[j].reg.leases[l].cancelled
    ensures states[j].now - states[i + 1].now > states[i + 1].reg.leases[l].ttl
  {
    TouchesGrow(states, steps, i + 1, j, l);
    At(states, steps, j);
  }

  /** Idle for longer than its ttl, a lease may expire, and then its desktop is free. */
  lemma IdleLeaseExpires(states: seq<System>, steps: seq<Step>, i: nat, j: nat, t: Tid)
    requires IsInitialRun(states, steps) && i <= j < |states| && t in states[j].threads
             && states[j].threads[t].Expiring?
    requires var l := states[j].threads[t].l;
             && l < |states[i].reg.leases| && states[i].reg.leases[l].lastTouch == states[i].now
             && states[j].now - states[i].now > states[i].reg.leases[l].ttl
    requires forall k :: i <= k < j ==> !steps[k].Touch?
    ensures Enabled(states[j], Expire(t))
    ensures var pc := states[j].threads[t]; var r' := Apply(states[j], Expire(t)).reg;
            !(pc.d in r'.active && r'.active[pc.d] == pc.l)
  {
    TouchesGrow(states, steps, i, j, states[j].threads[t].l);
  }

  // ---------------------------------------------------------------- power and shutdown

  /**
   A power operation begins exactly on a desktop nobody controls or reserves, with
   none in flight, and a stop only outside quarantine.
   */
  lemma PowerBeginsExactly(states: seq<System>, steps: seq<Step>, k: nat)
    requires IsInitialRun(states, steps) && k < |steps| && steps[k].CallBeginPower?
    ensures var s, s', CallBeginPower(t, d, action) := states[k], states[k + 1], steps[k];
            var r := s.reg;
            if !r.draining && d !in r.active && d !in r.takeovers && d !in r.powerOps
              && (d in r.blocked ==> action == Start) then
              var op := PowerOp(r.powerOpsBegun, action, d in r.blocked);
              s' == s.(threads := s.threads[t := Powering(d, op)],
                       reg := r.(powerOps := r.powerOps[d := op], blocked := r.blocked + {d},
                                 powerOpsBegun := r.powerOpsBegun + 1))
            else s' == s
  {
    At(states, steps, k);
  }

  /**
   Shutdown cancels exactly the leases in force, reserves nothing, and blocks all
   that was held, reserved or powered.
   */
  lemma ShutdownRevokes(states: seq<System>, steps: seq<Step>, k: nat)
    requires IsInitialRun(states, steps) && k < |steps| && steps[k].CallRevokeAll?
    ensures var r, r' := states[k].reg, states[k + 1].reg;
            && r'.draining && r'.takeovers == map[] && r'.active == r.active && r'.powerOps == r.powerOps
            && |r'.leases| == |r.leases|
            && (forall d :: d in r'.blocked <==> d in r.blocked || d in r.active || d in r.takeovers || d in r.powerOps)
            && (forall l: nat :: l < |r.leases| ==>
                  r'.leases[l] == if exists d :: d in r.active && r.active[d] == l
                                  then r.leases[l].(cancelled := true) else r.leases[l])
  {
    At(states, steps, k);
  }

  // ---------------------------------------------------------------- generations

  /** How many leases were ever granted on a desktop. */
  function GrantsSoFar(leases: seq<Lease>, d: Desktop): nat {
    if leases == [] then 0
    else GrantsSoFar(leases[..|leases| - 1], d) + if leases[|leases| - 1].desktop == d then 1 else 0
  }

  lemma {:induction false} SameDesktops(a: seq<Lease>, b: seq<Lease>, d: Desktop)
    requires |a| == |b| && forall l :: 0 <= l < |a| ==> a[l].desktop == b[l].desktop
    ensures GrantsSoFar(a, d) == GrantsSoFar(b, d)
    decreases |a|
  {
    if a != [] {
      SameDesktops(a[..|a| - 1], b[..|b| - 1], d);
    }
  }

  predicate NextGeneration(r: Registry, r': Registry) {
    if |r'.leases| == |r.leases| then r'.generations == r.generations
    else
      && |r'.leases| == |r.leases| + 1
      && var d := r'.leases[|r.leases|].desktop; r'.generations == r.generations[d := Generation(r, d) + 1]
  }

  lemma CountStep(r: Registry, r': Registry, d: Desktop)
    requires Evolves(r, r') && NextGeneration(r, r') && Generation(r, d) == GrantsSoFar(r.leases, d)
    ensures Generation(r', d) == GrantsSoFar(r'.leases, d)
  {
    var n := |r.leases|;
    forall l: nat | l < n ensures r.leases[l].desktop == r'.leases[..n][l].desktop {
      assert LeaseEvolves(r, r', l);
    }
    SameDesktops(r.leases, r'.leases[..n], d);
    assert |r'.leases| == n ==> r'.leases[..n] == r'.leases;
  }

  /** A step that grants nothing keeps the generations; a new lease takes the next generation of its own desktop. */
  lemma GenerationStep(s: System, st: Step)
    requires Enabled(s, st)
    ensures NextGeneration(s.reg, Apply(s, st).reg)
  {
    if !MayGrant(st) {
      QuietStep(s, st);
    }
  }

  predicate MayGrant(st: Step) {
    st.CallAcquire? || st.ResumeAcquire? || st.CallAcquireAgent?
  }

  lemma QuietStep(s: System, st: Step)
    requires Enabled(s, st) && !MayGrant(st)
    ensures |Apply(s, st).reg.leases| == |s.reg.leases| && Apply(s, st).reg.generations == s.reg.generations
  {
    match st
    case OwnerRelease(_) =>
    case CancelContext(_) =>
    case Expire(_) =>
    case Touch(_) =>
    case CallReleaseAgent(_, _) =>
    case FinishReleaseAgent(_) =>
    case SignalDone(_) =>
    case CallBeginPower(_, _, _) =>
    case CallFinishPower(_, _) =>
    case CallRevokeAll =>
    case Tick =>
  }

  /** A desktop's generation is the number of leases ever granted on it. */
  lemma {:induction false} GenerationCounts(states: seq<System>, steps: seq<Step>, i: nat, d: Desktop)
    requires IsInitialRun(states, steps) && i < |states|
    ensures Generation(states[i].reg, d) == GrantsSoFar(states[i].reg.leases, d)
  {
    if i > 0 {
      GenerationCounts(states, steps, i - 1, d);
      At(states, steps, i - 1);
      GenerationStep(states[i - 1], steps[i - 1]);
      StepEvolves(states, steps, i - 1);
      CountStep(states[i - 1].reg, states[i].reg, d);
    }
  }

  /** The status reports the holder, and as generation the number of leases granted so far, whoever asks. */
  lemma StatusExactly(states: seq<System>, steps: seq<Step>, i: nat, d: Desktop)
    requires IsInitialRun(states, steps) && i < |states|
    ensures var r, status := states[i].reg, Status(states[i].reg, d);
            && status.generation == GrantsSoFar(r.leases, d)
            && (status.Held? <==> d in r.active)
            && (status.Held? ==> r.active[d] < |r.leases| && status.actor == r.leases[r.active[d]].actor)
  {
    InvAlways(states, steps, i);
    assert DesktopOk(states[i].reg, d);
    GenerationCounts(states, steps, i, d);
  }

  // ---------------------------------------------------------------- reasons

  /** What an acquire that is not granted is told, in the order the reasons are looked at. */
  lemma AcquireReasons(r: Registry, ctxLive: bool, d: Desktop, actor: Actor, takeover: bool, now: nat, ttl: nat)
    ensures var a := AcquireBegin(r, ctxLive, d, actor, takeover, now).1;
            a.Refused? ==>
              && (a.error == ContextEnded <==> !ctxLive)
              && (a.error == ControlBlocked <==> ctxLive && (r.draining || d in r.blocked))
              && (a.error == ControlBusy <==> ctxLive && !r.draining && d !in r.blocked)
    ensures var a := AcquireAgent(r, d, ttl, now).1;
            && (a == Refused(ControlBlocked) <==> r.draining || d in r.blocked)
            && (a == Refused(ControlBusy) <==> !r.draining && d !in r.blocked && (d in r.takeovers || d in r.active))
            && (a == Granted(|r.leases|) <==> Open(r, d) && d !in r.active)
  {
  }

  /** What a waiting caller is told: its reservation is gone, it waited too long, or its context has ended. */
  lemma WaitReasons(states: seq<System>, steps: seq<Step>, i: nat, t: Tid, wake: Wake, ctxLive: bool, distinct: bool)
    requires IsInitialRun(states, steps) && i < |states| && t in states[i].threads
    requires Enabled(states[i], ResumeAcquire(t, wake, ctxLive, distinct))
    ensures var pc := states[i].threads[t]; var r := states[i].reg;
            AcquireResume(r, pc.d, pc.actor, pc.mine, distinct, wake, ctxLive, states[i].now).1 ==
            if pc.d !in r.takeovers then Refused(ControlBusy)
            else if wake == TimerFired then Refused(RevocationTimed)
            else if wake == ContextDone || !ctxLive then Refused(ContextEnded)
            else Granted(|r.leases|)
  {
    InvAlways(states, steps, i);
    assert PcOk(states[i].reg, states[i].threads[t]);
    assert DesktopOk(states[i].reg, states[i].threads[t].d);
  }

  /** What a power request that cannot begin is told. */
  lemma PowerReasons(r: Registry, d: Desktop, action: PowerAction)
    ensures var b := BeginPower(r, d, action).1;
            b.PowerRefused? ==>
              && (b.error == ControlBlocked <==> r.draining)
              && (b.error == ControlBusy <==> !r.draining && (d in r.active || d in r.takeovers))
              && (b.error == PowerBusy <==> !r.draining && d !in r.active && d !in r.takeovers && d in r.powerOps)
              && (b.error == PowerRecoveryRequired <==>
                    && !r.draining && d !in r.active && d !in r.takeovers && d !in r.powerOps
                    && d in r.blocked && action == Stop)
  {
  }
}
