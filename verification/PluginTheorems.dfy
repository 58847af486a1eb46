/**
 End to end: what every history of plugin and Gateway together guarantees
 about the input batches the Gateway accepts.
 */
module PluginTheorems {
  import opened Options
  import opened ControlSpec
  import opened ControlRuns
  import opened Plugin
  import ControlTheorems

  lemma {:induction false} HistoryInv(worlds: seq<World>, events: seq<Event>, i: nat)
    requires IsHistory(worlds, events) && i < |worlds|
    ensures WorldInv(worlds[i])
  {
    if i > 0 {
      HistoryInv(worlds, events, i - 1);
      assert EventAt(worlds, events, i - 1);
      WorldStep(worlds[i - 1], events[i - 1]);
    }
  }

  lemma At(worlds: seq<World>, events: seq<Event>, i: nat)
    requires IsHistory(worlds, events) && i < |events|
    ensures WorldInv(worlds[i]) && Can(worlds[i], events[i]) && worlds[i + 1] == Do(worlds[i], events[i])
  {
    HistoryInv(worlds, events, i);
    assert EventAt(worlds, events, i);
  }

  /** The plugin's part of event i. */
  lemma PluginAt(worlds: seq<World>, events: seq<Event>, i: nat)
    requires IsHistory(worlds, events) && i < |events|
    ensures PluginInv(worlds[i].plugin) && Ready(worlds[i].plugin, events[i])
    ensures worlds[i + 1].plugin == PluginNext(worlds[i].plugin, AnswersOf(worlds[i], events[i]), events[i])
  {
    At(worlds, events, i);
  }

  // ---------------------------------------------------------------- the serialized executor

  /** Operations run one at a time and in the order they were invoked. */
  lemma OneAtATimeInOrder(worlds: seq<World>, events: seq<Event>, i: nat, a: nat, b: nat)
    requires IsHistory(worlds, events) && i < |worlds| && a < b < |worlds[i].plugin.chain|
    ensures !(Running(worlds[i].plugin, a) && Running(worlds[i].plugin, b))
    ensures worlds[i].plugin.chain[b].phase != Queued ==> worlds[i].plugin.chain[a].phase == Settled
  {
    HistoryInv(worlds, events, i);
    assert InOrder(worlds[i].plugin, a, b);
  }

  /** However an operation ended, the next one gets its turn; nothing else does. */
  lemma FailureDoesNotBlock(worlds: seq<World>, events: seq<Event>, i: nat, k: nat)
    requires IsHistory(worlds, events) && i < |worlds| && k < |worlds[i].plugin.chain|
    requires worlds[i].plugin.chain[k].phase == Queued
    ensures Turn(worlds[i].plugin, k) <==> forall j: nat :: j < k ==> worlds[i].plugin.chain[j].phase == Settled
  {
    HistoryInv(worlds, events, i);
    var p := worlds[i].plugin;
    if Turn(p, k) {
      forall j: nat | j < k ensures p.chain[j].phase == Settled {
        assert j < k - 1 ==> InOrder(p, j, k - 1);
      }
    }
  }

  /** An operation that settles, by a reply or by a failure, hands its turn to the next one. */
  lemma SettlingHandsOn(worlds: seq<World>, events: seq<Event>, i: nat, k: nat)
    requires IsHistory(worlds, events) && i < |events| && Running(worlds[i].plugin, k)
    requires k + 1 < |worlds[i].plugin.chain| && k < |worlds[i + 1].plugin.chain|
    requires worlds[i + 1].plugin.chain[k].phase == Settled
    ensures Turn(worlds[i + 1].plugin, k + 1)
  {
    PluginAt(worlds, events, i);
    assert InOrder(worlds[i].plugin, k, k + 1);
    if !OwnStep(events[i], k + 1) {
      OthersUntouched(worlds[i].plugin, AnswersOf(worlds[i], events[i]), events[i], k + 1);
    }
  }

  /** A failure settles its operation at once, or leaves only an acquire's own recovery to do. */
  lemma FailureSettles(worlds: seq<World>, events: seq<Event>, i: nat)
    requires IsHistory(worlds, events) && i < |events| && events[i].Fail?
    ensures var k := events[i].k;
            && Running(worlds[i].plugin, k) && k < |worlds[i + 1].plugin.chain|
            && (worlds[i + 1].plugin.chain[k].phase == Settled ||
                (worlds[i + 1].plugin.chain[k].phase == Recovering && worlds[i].plugin.chain[k].op.Acquire?))
  {
    At(worlds, events, i);
    assert PhaseFits(worlds[i], worlds[i].plugin.chain[events[i].k]);
  }

  // ---------------------------------------------------------------- where frames come from

  /** Event i stamped this frame for the observation that session s takes by operation `id`. */
  predicate StampedAt(worlds: seq<World>, events: seq<Event>, i: nat, s: Session, id: ObservationId, frame: Frame) {
    && i < |events| < |worlds|
    && events[i].GatewayFrame? && events[i].k == id
    && id < |worlds[i].plugin.chain| && worlds[i].plugin.chain[id].op == Observe(s)
    && frame == Frame(worlds[i].boot, Status(worlds[i].gw.reg, worlds[i].name).generation, events[i].vmi,
                      events[i].width, events[i].height)
  }

  ghost predicate Traced(worlds: seq<World>, events: seq<Event>, m: nat, s: Session, id: ObservationId, frame: Frame) {
    exists i: nat :: i < m && StampedAt(worlds, events, i, s, id, frame)
  }

  predicate HoldsFrame(p: PluginState, s: Session, k: nat, frame: Frame) {
    k < |p.chain| && p.chain[k] == Entry(Observe(s), HasFrame(frame))
  }

  predicate PostsBatch(p: PluginState, k: nat, frame: Frame) {
    k < |p.chain| && p.chain[k].op.Act? && p.chain[k].phase == PostingBatch(frame)
  }

  lemma FrameOrigin(p: PluginState, g: Answers, event: Event, s: Session, k: nat, frame: Frame)
    requires Ready(p, event) && HoldsFrame(PluginNext(p, g, event), s, k, frame)
    ensures HoldsFrame(p, s, k, frame) ||
            (event.GatewayFrame? && event.k == k && p.chain[k].op == Observe(s)
             && frame == Frame(g.boot, g.control.generation, event.vmi, event.width, event.height))
  {
    if k < |p.chain| && !OwnStep(event, k) {
      OthersUntouched(p, g, event, k);
    }
  }

  lemma ObservationOrigin(p: PluginState, g: Answers, event: Event, s: Session)
    requires Ready(p, event) && s in PluginNext(p, g, event).observations
    ensures var o := PluginNext(p, g, event).observations[s];
            (s in p.observations && p.observations[s] == o) || HoldsFrame(p, s, o.id, o.frame)
  {
  }

  lemma BatchOrigin(p: PluginState, g: Answers, event: Event, k: nat, frame: Frame)
    requires Ready(p, event) && PostsBatch(PluginNext(p, g, event), k, frame)
    ensures k < |p.chain| && PluginNext(p, g, event).chain[k].op == p.chain[k].op
    ensures PostsBatch(p, k, frame) || Dispatches(p, event, k, p.chain[k].op.id, frame)
  {
    if k < |p.chain| && !OwnStep(event, k) {
      OthersUntouched(p, g, event, k);
    }
  }

  /** Operation k sends its batch, under the observation `id` that is still current. */
  predicate Dispatches(p: PluginState, event: Event, k: nat, id: ObservationId, frame: Frame) {
    && event.Continue? && event.k == k && k < |p.chain|
    && p.chain[k].op.Act? && p.chain[k].op.id == id
    && p.chain[k].phase.HasStatus?
    && p.chain[k].op.session in p.observations
    && p.observations[p.chain[k].op.session] == Observation(id, frame)
    && PostsBatch(Continued(p, k, event.confirmed, event.reply), k, frame)
  }

  ghost predicate AllTraced(worlds: seq<World>, events: seq<Event>, m: nat)
    requires m < |worlds|
  {
    var p := worlds[m].plugin;
    && (forall s, k: nat, f :: HoldsFrame(p, s, k, f) ==> Traced(worlds, events, m, s, k, f))
    && (forall s :: s in p.observations ==> Traced(worlds, events, m, s, p.observations[s].id, p.observations[s].frame))
    && (forall k: nat, f :: PostsBatch(p, k, f) ==>
        Traced(worlds, events, m, p.chain[k].op.session, p.chain[k].op.id, f))
  }

  lemma TracedLater(worlds: seq<World>, events: seq<Event>, m: nat, s: Session, id: ObservationId, frame: Frame)
    requires Traced(worlds, events, m, s, id, frame)
    ensures Traced(worlds, events, m + 1, s, id, frame)
  {
    var i: nat :| i < m && StampedAt(worlds, events, i, s, id, frame);
    assert i < m + 1;
  }

  lemma TraceStep(worlds: seq<World>, events: seq<Event>, m: nat)
    requires IsHistory(worlds, events) && m < |events| && AllTraced(worlds, events, m)
    ensures AllTraced(worlds, events, m + 1)
  {
    PluginAt(worlds, events, m);
    var p, event := worlds[m].plugin, events[m];
    var g := AnswersOf(worlds[m], event);
    var p' := worlds[m + 1].plugin;
    forall s, k: nat, f | HoldsFrame(p', s, k, f) ensures Traced(worlds, events, m + 1, s, k, f) {
      FrameOrigin(p, g, event, s, k, f);
      if HoldsFrame(p, s, k, f) {
        TracedLater(worlds, events, m, s, k, f);
      } else {
        assert StampedAt(worlds, events, m, s, k, f);
      }
    }
    forall s | s in p'.observations
      ensures Traced(worlds, events, m + 1, s, p'.observations[s].id, p'.observations[s].frame)
    {
      ObservationOrigin(p, g, event, s);
      TracedLater(worlds, events, m, s, p'.observations[s].id, p'.observations[s].frame);
    }
    forall k: nat, f | PostsBatch(p', k, f)
      ensures Traced(worlds, events, m + 1, p'.chain[k].op.session, p'.chain[k].op.id, f)
    {
      BatchOrigin(p, g, event, k, f);
      TracedLater(worlds, events, m, p'.chain[k].op.session, p'.chain[k].op.id, f);
    }
  }

  lemma {:induction false} TracedAlways(worlds: seq<World>, events: seq<Event>, m: nat)
    requires IsHistory(worlds, events) && m < |worlds|
    ensures AllTraced(worlds, events, m)
  {
    if m > 0 {
      TracedAlways(worlds, events, m - 1);
      TraceStep(worlds, events, m - 1);
    }
  }

  // ---------------------------------------------------------------- continuity within one Gateway boot

  lemma GatewayMoves(w: World, event: Event)
    requires WorldInv(w) && Can(w, event)
    ensures Do(w, event).name == w.name && w.boot <= Do(w, event).boot
    ensures Do(w, event).boot == w.boot ==> Evolves(w.gw.reg, Do(w, event).gw.reg)
  {
    if event.Gateway? {
      RegStep(w.gw, event.step);
    } else if event.GatewayAcquire? {
      RegStep(w.gw, CallAcquireAgent(event.t, w.name, event.ttl));
    }
  }

  lemma {:induction false} SameBootEvolves(worlds: seq<World>, events: seq<Event>, i: nat, j: nat)
    requires IsHistory(worlds, events) && i <= j < |worlds|
    ensures worlds[i].boot <= worlds[j].boot && worlds[i].name == worlds[j].name
    ensures worlds[i].boot == worlds[j].boot ==> Evolves(worlds[i].gw.reg, worlds[j].gw.reg)
    decreases j
  {
    if i < j {
      SameBootEvolves(worlds, events, i, j - 1);
      At(worlds, events, j - 1);
      GatewayMoves(worlds[j - 1], events[j - 1]);
      if worlds[i].boot == worlds[j].boot {
        ControlTheorems.EvolvesTransitive(worlds[i].gw.reg, worlds[j - 1].gw.reg, worlds[j].gw.reg);
      }
    }
  }

  /** The desktop is held by lease l, an agent's. */
  predicate AgentHolds(w: World, l: LeaseId) {
    var r := w.gw.reg;
    w.name in r.active && r.active[w.name] == l && l < |r.leases| && r.leases[l].actor == Agent
  }

  /**
   If an agent holds the desktop at j under the generation stamped at i, on the
   same boot, then the same lease held it all the way.
   */
  lemma HeldThroughout(worlds: seq<World>, events: seq<Event>, i: nat, j: nat, l: LeaseId)
    requires IsHistory(worlds, events) && i <= j < |worlds| && worlds[i].boot == worlds[j].boot
             && AgentHolds(worlds[j], l)
    requires worlds[j].gw.reg.leases[l].generation == Status(worlds[i].gw.reg, worlds[i].name).generation
    ensures forall m :: i <= m <= j ==> worlds[m].boot == worlds[i].boot && AgentHolds(worlds[m], l)
  {
    SameBootEvolves(worlds, events, i, j);
    HistoryInv(worlds, events, i);
    var name := worlds[i].name;
    assert DesktopOk(worlds[i].gw.reg, name);
    HistoryInv(worlds, events, j);
    assert DesktopOk(worlds[j].gw.reg, name);
    assert LeaseEvolves(worlds[i].gw.reg, worlds[j].gw.reg, l);
    forall m | i <= m <= j ensures worlds[m].boot == worlds[i].boot && AgentHolds(worlds[m], l) {
      SameBootEvolves(worlds, events, i, m);
      SameBootEvolves(worlds, events, m, j);
      assert DesktopEvolves(worlds[m].gw.reg, worlds[j].gw.reg, name);
      assert LeaseEvolves(worlds[m].gw.reg, worlds[j].gw.reg, l);
    }
  }

  // ---------------------------------------------------------------- main results

  /** Event j: the Gateway's lease check lets operation k's batch through. */
  predicate AcceptsBatch(w: World, event: Event, k: nat) {
    event == GatewayInput(k) && k < |w.plugin.chain| && w.plugin.chain[k].phase.PostingBatch? && GatewayAccepts(w)
  }

  /**
   Freshness. Every batch the Gateway accepts was built on a frame stamped at
   some earlier event i, for an observation of the same session, and from i until acceptance one and the same agent
   lease held the desktop, on one Gateway boot. No lease, so no human's, was
   granted in between; every click and scroll lies inside that frame; and no
   power outcome was uncertain.
   */
  lemma AcceptedBatchIsFresh(worlds: seq<World>, events: seq<Event>, j: nat, k: nat) returns (i: nat, l: LeaseId)
    requires IsHistory(worlds, events) && j < |events| && AcceptsBatch(worlds[j], events[j], k)
    ensures worlds[j].plugin.chain[k].op.Act? && i < j
    ensures var op := worlds[j].plugin.chain[k].op;
            StampedAt(worlds, events, i, op.session, op.id, worlds[j].plugin.chain[k].phase.frame)
    ensures forall m :: i <= m <= j ==> worlds[m].boot == worlds[i].boot && AgentHolds(worlds[m], l)
    ensures forall m :: i <= m < j ==> !ControlTheorems.GrantsOn(worlds[m].gw, worlds[m + 1].gw, worlds[m].name)
    ensures AllInside(worlds[j].plugin.chain[k].op.actions, worlds[j].plugin.chain[k].phase.frame)
    ensures !worlds[j].plugin.powerUncertain
  {
    At(worlds, events, j);
    var w := worlds[j];
    assert PhaseFits(w, w.plugin.chain[k]);
    var id, frame := w.plugin.chain[k].op.id, w.plugin.chain[k].phase.frame;
    TracedAlways(worlds, events, j);
    assert PostsBatch(w.plugin, k, frame);
    i :| i < j && StampedAt(worlds, events, i, w.plugin.chain[k].op.session, id, frame);
    l := w.gw.reg.active[w.name];
    HeldThroughout(worlds, events, i, j, l);
    forall m | i <= m < j ensures !ControlTheorems.GrantsOn(worlds[m].gw, worlds[m + 1].gw, worlds[m].name) {
      At(worlds, events, m);
      assert AgentHolds(worlds[m], l);
      NoGrantWhileHeld(worlds[m], events[m]);
    }
  }

  lemma NoGrantWhileHeld(w: World, event: Event)
    requires WorldInv(w) && Can(w, event) && w.name in w.gw.reg.active
    ensures !ControlTheorems.GrantsOn(w.gw, Do(w, event).gw, w.name)
  {
    if event.Gateway? {
      if ControlTheorems.GrantsOn(w.gw, Do(w, event).gw, w.name) {
        ControlTheorems.GrantNeedsFree(w.gw, event.step, w.name);
      }
    }
  }

  /** Observation `id` can never be presented again. */
  predicate Spent(p: PluginState, id: ObservationId) {
    && id < |p.chain| && p.chain[id].phase == Settled
    && forall s :: s in p.observations ==> p.observations[s].id != id
  }

  /** Operation k has posted its batch and has not settled yet. */
  predicate InFlight(p: PluginState, k: nat) {
    k < |p.chain| && (p.chain[k].phase.PostingBatch? || p.chain[k].phase.PostedBatch?)
  }

  lemma SpentStays(p: PluginState, g: Answers, event: Event, id: ObservationId)
    requires Ready(p, event) && Spent(p, id)
    ensures Spent(PluginNext(p, g, event), id)
  {
    if !OwnStep(event, id) {
      OthersUntouched(p, g, event, id);
    }
  }

  /** Observation `id` was given to operation k: it is on its way, or can never be presented again. */
  predicate Used(p: PluginState, k: nat, id: ObservationId) {
    id < |p.chain| && p.chain[id].phase == Settled && (InFlight(p, k) || Spent(p, id))
  }

  lemma UsedStays(p: PluginState, g: Answers, event: Event, k: nat, id: ObservationId)
    requires Ready(p, event) && Used(p, k, id)
    ensures Used(PluginNext(p, g, event), k, id)
  {
    if InFlight(p, k) {
      if !OwnStep(event, id) {
        OthersUntouched(p, g, event, id);
      }
      if !OwnStep(event, k) {
        OthersUntouched(p, g, event, k);
      }
    } else {
      SpentStays(p, g, event, id);
    }
  }

  lemma DispatchUses(p: PluginState, g: Answers, event: Event, k: nat, id: ObservationId, frame: Frame)
    requires PluginInv(p) && Ready(p, event) && Dispatches(p, event, k, id, frame)
    ensures Used(PluginNext(p, g, event), k, id)
  {
    assert ObservationOk(p, p.chain[k].op.session);
    OthersUntouched(p, g, event, id);
  }

  lemma {:induction false} AfterDispatch(worlds: seq<World>, events: seq<Event>, i: nat, j: nat, k: nat,
                                         id: ObservationId, frame: Frame)
    requires IsHistory(worlds, events) && i < j < |worlds| && Dispatches(worlds[i].plugin, events[i], k, id, frame)
    ensures Used(worlds[j].plugin, k, id)
    decreases j
  {
    PluginAt(worlds, events, j - 1);
    var p, event := worlds[j - 1].plugin, events[j - 1];
    if i == j - 1 {
      DispatchUses(p, AnswersOf(worlds[j - 1], event), event, k, id, frame);
    } else {
      AfterDispatch(worlds, events, i, j - 1, k, id, frame);
      UsedStays(p, AnswersOf(worlds[j - 1], event), event, k, id);
    }
  }

  /** One-shot: an observation is dispatched in at most one batch over any history. */
  lemma ObservationDispatchedOnce(worlds: seq<World>, events: seq<Event>, i: nat, j: nat, k: nat, k': nat,
                                  id: ObservationId, frame: Frame, frame': Frame)
    requires IsHistory(worlds, events) && i < j < |events| && Dispatches(worlds[i].plugin, events[i], k, id, frame)
    ensures !Dispatches(worlds[j].plugin, events[j], k', id, frame')
  {
    AfterDispatch(worlds, events, i, j, k, id, frame);
    if Dispatches(worlds[j].plugin, events[j], k', id, frame') {
      HistoryInv(worlds, events, j);
      if InFlight(worlds[j].plugin, k) {
        RunningAlone(worlds[j].plugin, k, k');
      }
    }
  }

  /** Input is only ever under way while the plugin is certain about the machine's power state. */
  lemma NothingDispatchedWhileUncertain(worlds: seq<World>, events: seq<Event>, i: nat, k: nat)
    requires IsHistory(worlds, events) && i < |worlds| && k < |worlds[i].plugin.chain|
    requires InFlight(worlds[i].plugin, k) || worlds[i].plugin.chain[k].phase in {PostingLaunch, PostedLaunch}
    ensures !worlds[i].plugin.powerUncertain
  {
    HistoryInv(worlds, events, i);
    assert PhaseFits(worlds[i], worlds[i].plugin.chain[k]);
  }
}
