/**
 What the plugin's operations decide, exactly, and what that means for every
 history: the machine an accepted batch was built for is the machine it was
 dispatched to.
 */
module PluginDecisions {
  import opened Options
  import opened ControlSpec
  import opened ControlRuns
  import opened Plugin
  import opened PluginTheorems

  // ---------------------------------------------------------------- what a status answer allows

  /** The answer says that an agent is in control and control is not blocked. */
  predicate SaysAgent(now: Snapshot) {
    now.control.Held? && now.control.actor == Agent && !now.blocked
  }

  /** The stored observation of the session is the one presented, of this very boot, machine and lease. */
  predicate Current(p: PluginState, s: Session, id: ObservationId, now: Snapshot) {
    && s in p.observations && p.observations[s].id == id
    && p.observations[s].frame.boot == now.boot
    && p.observations[s].frame.vmi == now.vmi && now.vmi != ""
    && p.observations[s].frame.generation == now.control.generation
  }

  predicate OnFrame(actions: seq<Action>, width: nat, height: nat) {
    forall i :: 0 <= i < |actions| ==>
      match actions[i]
      case Click(x, y) => x < width && y < height
      case Scroll(x, y) => x < width && y < height
      case Type(_) => true
      case Key(_) => true
  }

  /**
   desktop_act after its status: it posts exactly when an agent is in unblocked
   control, the presented observation is the current one, and every click and
   scroll lies on its frame. A stale observation drops them all; otherwise they
   stay.
   */
  lemma ActExactly(p: PluginState, k: nat, now: Snapshot, confirmed: bool, reply: PowerReply)
    requires k < |p.chain| && p.chain[k].op.Act? && p.chain[k].phase == HasStatus(now)
    ensures var op, after := p.chain[k].op, Continued(p, k, confirmed, reply);
            var current := Current(p, op.session, op.id, now);
            && (if SaysAgent(now) && current
                && OnFrame(op.actions, p.observations[op.session].frame.width, p.observations[op.session].frame.height)
                then after.chain[k].phase == PostingBatch(p.observations[op.session].frame)
                else after.chain[k].phase == Settled)
            && after.observations == (if SaysAgent(now) && !current then map[] else p.observations)
            && after.locals == p.locals && after.powerUncertain == p.powerUncertain
  {
    var op := p.chain[k].op;
    assert forall a :: a in op.actions ==> exists i :: 0 <= i < |op.actions| && op.actions[i] == a;
    assert forall i :: 0 <= i < |op.actions| ==> op.actions[i] in op.actions;
  }

  /** desktop_launch after its status: it posts exactly when an agent is in unblocked control. */
  lemma LaunchExactly(p: PluginState, k: nat, now: Snapshot, confirmed: bool, reply: PowerReply)
    requires k < |p.chain| && p.chain[k].op.Launch? && p.chain[k].phase == HasStatus(now)
    ensures Continued(p, k, confirmed, reply) == SetPhase(p, k, if SaysAgent(now) then PostingLaunch else Settled)
  {
  }

  /** The local lease after its operation found a controller that is not its own. */
  function Orphaned(p: PluginState, l: nat): PluginState {
    if p.current == Some(l) && l < |p.locals| then
      p.(observations := map[],
         locals := p.locals[l := Local(p.locals[l].session, true, true, p.locals[l].established)])
    else p
  }

  /**
   desktop_acquire after its status: a free, unblocked desktop is asked for; an
   agent in control is looked at again if this lease established one, else the
   lease is quarantined; a human, or a block, ends it.
   */
  lemma AcquireExactly(p: PluginState, k: nat, now: Snapshot, confirmed: bool, reply: PowerReply)
    requires PluginInv(p) && k < |p.chain| && p.chain[k].op.Acquire? && p.chain[k].phase == HasStatus(now)
    ensures var l := p.chain[k].op.lease;
            && l < |p.locals|
            && Continued(p, k, confirmed, reply) ==
               if !now.blocked && now.control.Free? then SetPhase(p, k, PostingAcquire).(observations := map[])
               else if !SaysAgent(now) then SetPhase(p, k, Settled)
               else if p.locals[l].established.Some? then SetPhase(p, k, AskingAgain)
               else SetPhase(Orphaned(p, l), k, Settled)
  {
    assert OwnLease(p, k);
  }

  /** The second look: only the very lease this local lease was granted is kept. */
  lemma SecondLookExactly(p: PluginState, k: nat, now: Snapshot, confirmed: bool, reply: PowerReply)
    requires PluginInv(p) && k < |p.chain| && p.chain[k].op.Acquire? && p.chain[k].phase == HasSecond(now)
    ensures var l := p.chain[k].op.lease;
            && l < |p.locals|
            && Continued(p, k, confirmed, reply) ==
               if !SaysAgent(now) then SetPhase(p, k, Settled)
               else if p.locals[l].established == Some(Stamp(now.boot, now.control.generation))
               then SetPhase(p, k, Settled).(observations := map[])
               else SetPhase(Orphaned(p, l), k, Settled)
  {
    assert OwnLease(p, k);
  }

  /** The answer to an acquire: a granted lease is recorded, and every observation is gone either way. */
  lemma AnswerExactly(p: PluginState, k: nat, answer: Option<Stamp>, confirmed: bool, reply: PowerReply)
    requires PluginInv(p) && k < |p.chain| && p.chain[k].op.Acquire? && p.chain[k].phase == PostedAcquire(answer)
    ensures var l := p.chain[k].op.lease;
            && l < |p.locals|
            && Continued(p, k, confirmed, reply) ==
               SetPhase(p, k, Settled).(observations := map[],
                 locals := if answer.Some? then p.locals[l := p.locals[l].(established := answer)] else p.locals)
  {
    assert OwnLease(p, k);
  }

  /** The recovery of an ambiguous acquire: quarantined exactly if its cleanup is not confirmed. */
  lemma RecoveryExactly(p: PluginState, k: nat, confirmed: bool, reply: PowerReply)
    requires k < |p.chain| && p.chain[k].op.Acquire? && p.chain[k].phase == Recovering
    ensures Continued(p, k, confirmed, reply) ==
            SetPhase(if confirmed then p else Orphaned(p, p.chain[k].op.lease), k, Settled)
  {
  }

  /** desktop_observe stores its frame under its own id exactly if it could be delivered. */
  lemma ObserveExactly(p: PluginState, k: nat, frame: Frame, confirmed: bool, reply: PowerReply)
    requires k < |p.chain| && p.chain[k].op.Observe? && p.chain[k].phase == HasFrame(frame)
    ensures var s := p.chain[k].op.session;
            Continued(p, k, confirmed, reply) ==
            SetPhase(p, k, Settled).(observations := if confirmed then p.observations[s := Observation(k, frame)]
                                     else p.observations - {s})
  {
  }

  /**
   A power request: an unknown outcome makes power uncertain, a start that is done
   clears it, and once posted every observation is gone.
   */
  lemma PowerExactly(p: PluginState, k: nat, confirmed: bool, reply: PowerReply)
    requires k < |p.chain| && p.chain[k].op.SwitchPower? && p.chain[k].phase == PostingPower
    ensures Continued(p, k, confirmed, reply) ==
            match reply
            case PowerNotPosted => SetPhase(p, k, Settled)
            case PowerRejected => SetPhase(p, k, Settled).(observations := map[])
            case PowerUnknown => SetPhase(p, k, Settled).(observations := map[], powerUncertain := true)
            case PowerDone => SetPhase(p, k, Settled).(observations := map[],
                                powerUncertain := p.powerUncertain && p.chain[k].op.action == Stop)
  {
  }

  /**
   An operation whose turn has come starts exactly if it is not aborted and, for
   one that needs the local lease, that lease is current and open and power is
   certain; a power operation needs the lease it was invoked with, closed for a
   stop and open for a start, or none at all.
   */
  lemma StartExactly(p: PluginState, g: Answers, k: nat, aborted: bool)
    requires Turn(p, k)
    ensures var op := p.chain[k].op;
            var permitted := match op
              case Observe(_) => true
              case Cleanup => true
              case Acquire(_, l) => p.current == Some(l) && l < |p.locals| && !p.locals[l].closing && !p.powerUncertain
              case Act(_, l, _, _) =>
                p.current == Some(l) && l < |p.locals| && !p.locals[l].closing && !p.powerUncertain
              case Launch(_, l) => p.current == Some(l) && l < |p.locals| && !p.locals[l].closing && !p.powerUncertain
              case SwitchPower(_, action, under) =>
                && !p.disposing && (p.powerUncertain ==> action == Start)
                && p.current == under
                && (under.Some? ==> && under.value < |p.locals|
                                    && (p.locals[under.value].closing <==> action == Stop));
            var phase := PluginNext(p, g, StartOp(k, aborted)).chain[k].phase;
            && (phase == Settled <==> aborted || !permitted)
            && (phase != Settled ==>
                  phase == if op.Observe? then AskingFrame else if op.SwitchPower? then PostingPower
                           else if op.Cleanup? then Cleaning else AskingStatus)
  {
  }

  /**
   What a call needs to enter the chain: a plugin that is not being disposed of;
   for input and acquire certain power and the current, open local lease of the
   calling session, for an acquire not an orphaned one; an observation needs no
   lease, and a power call the lease its session holds, if any is held.
   */
  lemma InvokeExactly(p: PluginState, op: Operation)
    ensures MayInvoke(p, op) <==>
            match op
            case Cleanup => true
            case Observe(_) => !p.disposing
            case Acquire(s, l) =>
              && !p.disposing && !p.powerUncertain && p.current == Some(l) && l < |p.locals|
              && p.locals[l].session == s && !p.locals[l].closing && !p.locals[l].orphaned
            case Act(s, l, _, _) =>
              && !p.disposing && !p.powerUncertain && p.current == Some(l) && l < |p.locals|
              && p.locals[l].session == s && !p.locals[l].closing
            case Launch(s, l) =>
              && !p.disposing && !p.powerUncertain && p.current == Some(l) && l < |p.locals|
              && p.locals[l].session == s && !p.locals[l].closing
            case SwitchPower(asker, action, under) =>
              && !p.disposing && (p.powerUncertain ==> action == Start) && under == p.current
              && (under.Some? ==> && under.value < |p.locals| && asker == Some(p.locals[under.value].session)
                                  && (p.locals[under.value].closing <==> action == Stop))
  {
  }

  /**
   A failed request: input and acquire drop every observation, an ambiguous acquire
   goes on to recover, all else settles.
   */
  lemma FailExactly(p: PluginState, k: nat, ambiguous: bool)
    requires k < |p.chain|
    ensures var phase := p.chain[k].phase;
            var acquiring := phase.PostingAcquire? || phase.PostedAcquire?;
            var input := phase.PostingBatch? || phase.PostedBatch? || phase.PostingLaunch? || phase.PostedLaunch?;
            Failed(p, k, ambiguous) ==
            SetPhase(p, k, if acquiring && ambiguous then Recovering else Settled)
              .(observations := if acquiring || input then map[] else p.observations)
  {
  }

  /**
   How the local lease changes hands: reserved only if there is none; closed,
   quarantined, dropped and renewed only if it is the current one; and a renewed
   lease is a fresh object that keeps its session and what it established.
   */
  lemma LocalChangesExactly(p: PluginState, s: Session, l: nat)
    ensures var n := |p.locals|; var mine := p.current == Some(l) && l < n;
            && Changed(p, Reserve(s)) ==
               (if p.current.None? && !p.disposing && !p.powerUncertain
                then p.(locals := p.locals + [Local(s, false, false, None)], current := Some(n)) else p)
            && Changed(p, BeginClose(l)) ==
               (if mine then p.(locals := p.locals[l := p.locals[l].(closing := true)]) else p)
            && Changed(p, Quarantine(l)) == Orphaned(p, l)
            && Changed(p, Drop(l)) == (if p.current == Some(l) then p.(current := None) else p)
            && Changed(p, Renew(l)) ==
               (if mine && !p.disposing
                then p.(locals := p.locals + [Local(p.locals[l].session, false, false, p.locals[l].established)],
                        current := Some(n))
                else p)
  {
  }

  /** Once quarantined, a local lease lets nothing start or be invoked under it. */
  lemma QuarantineStops(p: PluginState, l: nat, op: Operation)
    requires p.current == Some(l) && l < |p.locals|
    requires (op.Acquire? || op.Act? || op.Launch?) && op.lease == l
    ensures var q := Changed(p, Quarantine(l)); !MayInvoke(q, op) && !MayStart(q, op) && q.observations == map[]
  {
  }

  // ---------------------------------------------------------------- the same machine

  lemma {:induction false} SettledForGood(worlds: seq<World>, events: seq<Event>, i: nat, j: nat, k: nat)
    requires IsHistory(worlds, events) && i <= j < |worlds|
    requires k < |worlds[i].plugin.chain| && worlds[i].plugin.chain[k].phase == Settled
    ensures k < |worlds[j].plugin.chain| && worlds[j].plugin.chain[k] == worlds[i].plugin.chain[k]
    decreases j
  {
    if i < j {
      SettledForGood(worlds, events, i, j - 1, k);
      PluginAt(worlds, events, j - 1);
      if !OwnStep(events[j - 1], k) {
        OthersUntouched(worlds[j - 1].plugin, AnswersOf(worlds[j - 1], events[j - 1]), events[j - 1], k);
      }
    }
  }

  /** Event m answers the status request of operation k with `now`. */
  predicate StatusAt(worlds: seq<World>, events: seq<Event>, m: nat, k: nat, now: Snapshot) {
    && m < |events| < |worlds| && events[m].GatewayStatus? && events[m].k == k
    && k < |worlds[m].plugin.chain| && worlds[m].plugin.chain[k].phase == AskingStatus
    && now == Snapshot(worlds[m].boot, Status(worlds[m].gw.reg, worlds[m].name), events[m].vmi, events[m].blocked)
  }

  predicate HoldsStatus(p: PluginState, k: nat, now: Snapshot) {
    k < |p.chain| && p.chain[k].phase == HasStatus(now)
  }

  lemma StatusOrigin(p: PluginState, g: Answers, event: Event, k: nat, now: Snapshot)
    requires Ready(p, event) && HoldsStatus(PluginNext(p, g, event), k, now)
    ensures HoldsStatus(p, k, now) ||
            (&& event.GatewayStatus? && event.k == k && p.chain[k].phase == AskingStatus
             && now == Snapshot(g.boot, g.control, event.vmi, event.blocked))
  {
    if k < |p.chain| && !OwnStep(event, k) {
      OthersUntouched(p, g, event, k);
    } else if event.Continue? {
      ContinueAsksNothing(p, k, event.confirmed, event.reply);
    }
  }

  lemma ContinueAsksNothing(p: PluginState, k: nat, confirmed: bool, reply: PowerReply)
    requires k < |p.chain|
    ensures !Continued(p, k, confirmed, reply).chain[k].phase.HasStatus?
  {
  }

  lemma {:induction false} StatusWasAnswered(worlds: seq<World>, events: seq<Event>, j: nat, k: nat, now: Snapshot)
    returns (m: nat)
    requires IsHistory(worlds, events) && j < |worlds| && HoldsStatus(worlds[j].plugin, k, now)
    ensures m < j && StatusAt(worlds, events, m, k, now)
    decreases j
  {
    assert j > 0;
    m := j - 1;
    PluginAt(worlds, events, m);
    StatusOrigin(worlds[m].plugin, AnswersOf(worlds[m], events[m]), events[m], k, now);
    if HoldsStatus(worlds[m].plugin, k, now) {
      m := StatusWasAnswered(worlds, events, m, k, now);
    }
  }

  /** The dispatch behind a batch that is being posted. */
  lemma {:induction false} BatchWasDispatched(worlds: seq<World>, events: seq<Event>, j: nat, k: nat, frame: Frame)
    returns (n: nat)
    requires IsHistory(worlds, events) && j < |worlds| && PostsBatch(worlds[j].plugin, k, frame)
    ensures n < j && k < |worlds[n].plugin.chain| && worlds[n].plugin.chain[k].op == worlds[j].plugin.chain[k].op
    ensures Dispatches(worlds[n].plugin, events[n], k, worlds[j].plugin.chain[k].op.id, frame)
    decreases j
  {
    assert j > 0;
    n := j - 1;
    PluginAt(worlds, events, n);
    BatchOrigin(worlds[n].plugin, AnswersOf(worlds[n], events[n]), events[n], k, frame);
    if PostsBatch(worlds[n].plugin, k, frame) {
      n := BatchWasDispatched(worlds, events, n, k, frame);
    }
  }

  /**
   Every accepted batch was built on a frame stamped at some event i, and after
   that, at event m, the Gateway answered the batch's own status request with
   the same non-empty machine, boot and generation, an agent in control and no
   block.
   */
  lemma AcceptedBatchSameMachine(worlds: seq<World>, events: seq<Event>, j: nat, k: nat) returns (i: nat, m: nat)
    requires IsHistory(worlds, events) && j < |events| && AcceptsBatch(worlds[j], events[j], k)
    ensures worlds[j].plugin.chain[k].op.Act? && i < m < j
    ensures var op, frame := worlds[j].plugin.chain[k].op, worlds[j].plugin.chain[k].phase.frame;
            && StampedAt(worlds, events, i, op.session, op.id, frame)
            && events[m].GatewayStatus? && events[m].k == k && !events[m].blocked
            && events[m].vmi == events[i].vmi == frame.vmi && frame.vmi != ""
            && worlds[m].boot == worlds[i].boot == frame.boot
            && Status(worlds[m].gw.reg, worlds[m].name) == Held(Agent, frame.generation)
            && frame.generation == Status(worlds[i].gw.reg, worlds[i].name).generation
  {
    var l;
    i, l := AcceptedBatchIsFresh(worlds, events, j, k);
    var op, frame := worlds[j].plugin.chain[k].op, worlds[j].plugin.chain[k].phase.frame;
    var n := BatchWasDispatched(worlds, events, j, k, frame);
    var now := worlds[n].plugin.chain[k].phase.snapshot;
    ActExactly(worlds[n].plugin, k, now, events[n].confirmed, events[n].reply);
    m := StatusWasAnswered(worlds, events, n, k, now);
    StampBeforeStatus(worlds, events, i, m, n, k, op.id);
  }

  /** The observation an operation acts on was stamped before the operation asked for its status. */
  lemma StampBeforeStatus(worlds: seq<World>, events: seq<Event>, i: nat, m: nat, n: nat, k: nat, id: ObservationId)
    requires IsHistory(worlds, events) && i < |events| && m < n < |events|
    requires events[i].GatewayFrame? && events[i].k == id && events[m].GatewayStatus? && events[m].k == k
    requires k < |worlds[n].plugin.chain| && Running(worlds[n].plugin, k) && worlds[n].plugin.chain[k].op.Act?
    requires worlds[n].plugin.chain[k].op.session in worlds[n].plugin.observations
    requires worlds[n].plugin.observations[worlds[n].plugin.chain[k].op.session].id == id
    ensures i < m
  {
    PluginAt(worlds, events, n);
    var p := worlds[n].plugin;
    assert ObservationOk(p, p.chain[k].op.session);
    assert InOrder(p, k, id);
    PluginAt(worlds, events, m);
    assert InOrder(worlds[m].plugin, id, k);
    PluginAt(worlds, events, i);
    if m <= i {
      SettledForGood(worlds, events, m, i, id);
    }
  }
}
