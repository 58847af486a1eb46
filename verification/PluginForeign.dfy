/**
 An input batch may be accepted under an agent lease that was never granted to
 the acting session: desktop_act looks at its observation, not at what its
 local lease established. One history shows it, after an acquire that failed
 before it learned anything.
 */
module PluginForeign {
  import opened Options
  import opened ControlSpec
  import opened ControlRuns
  import opened Plugin
  import PluginTheorems
  import PluginAdoption

  /** One more event at the end of a history. */
  lemma Extend(worlds: seq<World>, events: seq<Event>, event: Event) returns (worlds': seq<World>, events': seq<Event>)
    requires IsHistory(worlds, events) && Can(worlds[|events|], event)
    ensures worlds' == worlds + [Do(worlds[|events|], event)] && events' == events + [event]
    ensures IsHistory(worlds', events') && worlds'[|events'|] == Do(worlds[|events|], event)
  {
    worlds', events' := worlds + [Do(worlds[|events|], event)], events + [event];
    forall i: nat | i < |events'| ensures EventAt(worlds', events', i) {
      if i < |events| {
        assert EventAt(worlds, events, i);
        assert worlds'[i + 1] == worlds[i + 1];
      }
    }
  }

  const SESSION: Session := 1
  const MACHINE: string := "vmi"

  /** A Gateway in which an agent holds the desktop, left by an earlier plugin. */
  function Leftover(d: Desktop): System {
    Apply(Init, CallAcquireAgent(0, d, 1))
  }

  function Seen(): Frame {
    Frame(0, 1, MACHINE, 1, 1)
  }

  function Looked(): PluginState {
    PluginState([Entry(Observe(SESSION), Settled)], map[SESSION := Observation(0, Seen())], false, false,
                [Local(SESSION, false, false, None)], Some(0))
  }

  /** The answers of that Gateway. */
  function Answering(): Answers {
    Answers(0, Held(Agent, 1), None)
  }

  ghost predicate NoGrants(events: seq<Event>) {
    forall i :: 0 <= i < |events| ==> !events[i].GatewayAcquire?
  }

  /** A history in which the Gateway has stood still and granted nothing, and the plugin has come to p. */
  ghost predicate Reaches(worlds: seq<World>, events: seq<Event>, d: Desktop, p: PluginState) {
    IsHistory(worlds, events) && NoGrants(events) && worlds[|events|] == World(d, 0, Leftover(d), p)
  }

  lemma LeftoverIsReachable(d: Desktop)
    ensures Inv(Leftover(d)) && Status(Leftover(d).reg, d) == Held(Agent, 1)
  {
    assert Inv(Init) by {
      assert forall e :: DesktopOk(Init.reg, e) && QuarantineOk(Init, e);
    }
    InvStep(Init, CallAcquireAgent(0, d, 1));
  }

  /** One event of the plugin's own. */
  lemma Then(worlds: seq<World>, events: seq<Event>, d: Desktop, p: PluginState, event: Event)
    returns (worlds': seq<World>, events': seq<Event>)
    requires Reaches(worlds, events, d, p) && Ready(p, event)
    requires !event.GatewayAcquire? && !event.Gateway? && !event.Restart?
    ensures events' == events + [event] && worlds <= worlds'
    ensures Reaches(worlds', events', d, PluginNext(p, Answering(), event))
  {
    LeftoverIsReachable(d);
    worlds', events' := Extend(worlds, events, event);
  }

  /** A fresh session reserves its local lease and looks at the screen. */
  lemma LooksFirst(d: Desktop) returns (worlds: seq<World>, events: seq<Event>)
    ensures Reaches(worlds, events, d, Looked())
  {
    LeftoverIsReachable(d);
    worlds, events := [World(d, 0, Leftover(d), FreshPlugin)], [];
    var p := FreshPlugin;
    worlds, events := Then(worlds, events, d, p, ChangeLocal(Reserve(SESSION)));
    p := PluginNext(p, Answering(), ChangeLocal(Reserve(SESSION)));
    worlds, events := Then(worlds, events, d, p, Invoke(Observe(SESSION)));
    p := p.(chain := [Entry(Observe(SESSION), Phase.Queued)]);
    worlds, events := Then(worlds, events, d, p, StartOp(0, false));
    p := p.(chain := [Entry(Observe(SESSION), AskingFrame)]);
    worlds, events := Then(worlds, events, d, p, GatewayFrame(0, MACHINE, 1, 1));
    p := p.(chain := [Entry(Observe(SESSION), HasFrame(Seen()))]);
    worlds, events := Then(worlds, events, d, p, Continue(0, true, PowerDone));
    assert PluginNext(p, Answering(), Continue(0, true, PowerDone)) == Looked();
  }

  function WithChain(acquire: Phase, act: Phase): PluginState {
    Looked().(chain := [Entry(Observe(SESSION), Settled), Entry(Acquire(SESSION, 0), acquire),
                        Entry(Act(SESSION, 0, 0, []), act)])
  }

  /** Its acquire fails on the status request, and the batch behind it gets its turn. */
  lemma AcquireFails(d: Desktop) returns (worlds: seq<World>, events: seq<Event>)
    ensures Reaches(worlds, events, d, WithChain(Settled, Phase.Queued))
  {
    worlds, events := LooksFirst(d);
    worlds, events := Then(worlds, events, d, Looked(), Invoke(Acquire(SESSION, 0)));
    var p := Looked().(chain := [Entry(Observe(SESSION), Settled), Entry(Acquire(SESSION, 0), Phase.Queued)]);
    worlds, events := Then(worlds, events, d, p, Invoke(Act(SESSION, 0, 0, [])));
    p := WithChain(Phase.Queued, Phase.Queued);
    worlds, events := Then(worlds, events, d, p, StartOp(1, false));
    p := WithChain(AskingStatus, Phase.Queued);
    worlds, events := Then(worlds, events, d, p, Fail(1, false));
    assert PluginNext(p, Answering(), Fail(1, false)) == WithChain(Settled, Phase.Queued);
  }

  lemma BatchIsPosted(d: Desktop) returns (worlds: seq<World>, events: seq<Event>)
    ensures Reaches(worlds, events, d, WithChain(Settled, PostingBatch(Seen())))
  {
    worlds, events := AcquireFails(d);
    worlds, events := Then(worlds, events, d, WithChain(Settled, Phase.Queued), StartOp(2, false));
    var p := WithChain(Settled, AskingStatus);
    worlds, events := Then(worlds, events, d, p, GatewayStatus(2, MACHINE, false));
    p := WithChain(Settled, HasStatus(Snapshot(0, Held(Agent, 1), MACHINE, false)));
    worlds, events := Then(worlds, events, d, p, Continue(2, true, PowerDone));
    assert PluginNext(p, Answering(), Continue(2, true, PowerDone)) == WithChain(Settled, PostingBatch(Seen()));
  }

  /**
   The Gateway accepts the batch, although no session was ever granted the
   lease it runs under and the acting local lease established none.
   */
  lemma AcceptedUnderForeignLease(d: Desktop) returns (worlds: seq<World>, events: seq<Event>, j: nat)
    ensures IsHistory(worlds, events) && j < |events| && PluginTheorems.AcceptsBatch(worlds[j], events[j], 2)
    ensures !PluginAdoption.ActsUnderOwnGrant(worlds[j].plugin, 2)
    ensures forall i: nat, s, st :: !PluginAdoption.GrantedAt(worlds, events, i, s, st)
  {
    worlds, events := BatchIsPosted(d);
    j := |events|;
    LeftoverIsReachable(d);
    worlds, events := Then(worlds, events, d, WithChain(Settled, PostingBatch(Seen())), GatewayInput(2));
  }
}
