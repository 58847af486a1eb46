/**
 desktop_acquire never adopts an agent lease that was granted to somebody else:
 what it finds in force and reports as its own was granted to an acquire of the
 same session, and has been held without a break since.
 */
module PluginAdoption {
  import opened Options
  import opened ControlSpec
  import opened ControlRuns
  import opened Plugin
  import PluginTheorems

  // ---------------------------------------------------------------- where an established lease comes from

  predicate Established(p: PluginState, l: nat, s: Session, st: Stamp) {
    l < |p.locals| && p.locals[l].session == s && p.locals[l].established == Some(st)
  }

  predicate Answered(p: PluginState, k: nat, s: Session, st: Stamp) {
    k < |p.chain| && p.chain[k].op.Acquire? && p.chain[k].op.session == s && p.chain[k].phase == PostedAcquire(Some(st))
  }

  /** Session s believes to have been granted the lease `st`. */
  ghost predicate Knows(p: PluginState, s: Session, st: Stamp) {
    (exists l: nat :: Established(p, l, s, st)) || (exists k: nat :: Answered(p, k, s, st))
  }

  /** The Gateway grants the lease `st` to an acquire of session s. */
  predicate Grants(p: PluginState, g: Answers, event: Event, s: Session, st: Stamp) {
    && event.GatewayAcquire? && g.grant == Some(st)
    && event.k < |p.chain| && p.chain[event.k].op.Acquire? && p.chain[event.k].op.session == s
  }

  lemma AnsweredOrigin(p: PluginState, g: Answers, event: Event, k: nat, s: Session, st: Stamp)
    requires Ready(p, event) && Answered(PluginNext(p, g, event), k, s, st)
    ensures Answered(p, k, s, st) || Grants(p, g, event, s, st)
  {
    if k < |p.chain| && !OwnStep(event, k) {
      OthersUntouched(p, g, event, k);
    } else if event.Continue? {
      OnlyRepliesBringAnswers(p, k, event.confirmed, event.reply);
    }
  }

  /** An operation never makes up an answer of its own. */
  lemma OnlyRepliesBringAnswers(p: PluginState, k: nat, confirmed: bool, reply: PowerReply)
    requires k < |p.chain|
    ensures var phase := Continued(p, k, confirmed, reply).chain[k].phase; !phase.PostedAcquire? && !phase.HasSecond?
  {
  }

  lemma EstablishedOrigin(p: PluginState, g: Answers, event: Event, l: nat, s: Session, st: Stamp)
    requires PluginInv(p) && Ready(p, event) && Established(PluginNext(p, g, event), l, s, st)
    ensures Knows(p, s, st)
  {
    if event.Continue? {
      EstablishedByContinue(p, event.k, event.confirmed, event.reply, l, s, st);
    } else if event.ChangeLocal? && event.change.Renew? && l == |p.locals| {
      assert Established(p, event.change.lease, s, st);
    } else {
      assert Established(p, l, s, st);
    }
  }

  lemma EstablishedByContinue(p: PluginState, k: nat, confirmed: bool, reply: PowerReply, l: nat, s: Session, st: Stamp)
    requires PluginInv(p) && k < |p.chain| && Established(Continued(p, k, confirmed, reply), l, s, st)
    ensures Knows(p, s, st)
  {
    assert OwnLease(p, k);
    if p.chain[k].phase.PostedAcquire? {
      assert Established(p, l, s, st) || Answered(p, k, s, st);
    } else {
      assert Established(p, l, s, st);
    }
  }

  lemma KnowsOrigin(p: PluginState, g: Answers, event: Event, s: Session, st: Stamp)
    requires PluginInv(p) && Ready(p, event) && Knows(PluginNext(p, g, event), s, st)
    ensures Knows(p, s, st) || Grants(p, g, event, s, st)
  {
    var p' := PluginNext(p, g, event);
    if l: nat :| Established(p', l, s, st) {
      EstablishedOrigin(p, g, event, l, s, st);
    } else {
      var k: nat :| Answered(p', k, s, st);
      AnsweredOrigin(p, g, event, k, s, st);
    }
  }

  predicate GrantedAt(worlds: seq<World>, events: seq<Event>, i: nat, s: Session, st: Stamp) {
    i < |events| < |worlds| && Grants(worlds[i].plugin, AnswersOf(worlds[i], events[i]), events[i], s, st)
  }

  lemma {:induction false} KnownWasGranted(worlds: seq<World>, events: seq<Event>, m: nat, s: Session, st: Stamp)
    returns (i: nat)
    requires IsHistory(worlds, events) && m < |worlds| && Knows(worlds[m].plugin, s, st)
    ensures i < m && GrantedAt(worlds, events, i, s, st)
    decreases m
  {
    assert m > 0;
    i := m - 1;
    PluginTheorems.PluginAt(worlds, events, i);
    KnowsOrigin(worlds[i].plugin, AnswersOf(worlds[i], events[i]), events[i], s, st);
    if Knows(worlds[i].plugin, s, st) {
      i := KnownWasGranted(worlds, events, i, s, st);
    }
  }

  // ---------------------------------------------------------------- where the second answer comes from

  predicate HoldsSecond(p: PluginState, k: nat, now: Snapshot) {
    k < |p.chain| && p.chain[k].phase == HasSecond(now)
  }

  predicate ReportedAt(worlds: seq<World>, events: seq<Event>, i: nat, k: nat, now: Snapshot) {
    && i < |events| < |worlds| && events[i].GatewayStatus? && events[i].k == k
    && now == Snapshot(worlds[i].boot, Status(worlds[i].gw.reg, worlds[i].name), events[i].vmi, events[i].blocked)
  }

  lemma SecondOrigin(p: PluginState, g: Answers, event: Event, k: nat, now: Snapshot)
    requires Ready(p, event) && HoldsSecond(PluginNext(p, g, event), k, now)
    ensures HoldsSecond(p, k, now) ||
            (event.GatewayStatus? && event.k == k && now == Snapshot(g.boot, g.control, event.vmi, event.blocked))
  {
    if k < |p.chain| && !OwnStep(event, k) {
      OthersUntouched(p, g, event, k);
    } else if event.Continue? {
      OnlyRepliesBringAnswers(p, k, event.confirmed, event.reply);
    }
  }

  lemma {:induction false} SecondWasReported(worlds: seq<World>, events: seq<Event>, m: nat, k: nat, now: Snapshot)
    returns (i: nat)
    requires IsHistory(worlds, events) && m < |worlds| && HoldsSecond(worlds[m].plugin, k, now)
    ensures i < m && ReportedAt(worlds, events, i, k, now)
    decreases m
  {
    assert m > 0;
    i := m - 1;
    PluginTheorems.PluginAt(worlds, events, i);
    SecondOrigin(worlds[i].plugin, AnswersOf(worlds[i], events[i]), events[i], k, now);
    if HoldsSecond(worlds[i].plugin, k, now) {
      i := SecondWasReported(worlds, events, i, k, now);
    }
  }

  // ---------------------------------------------------------------- main result

  /** A granted acquire leaves the desktop held by a new agent lease with the generation it reports. */
  lemma GrantHolds(w: World, event: Event, s: Session, st: Stamp)
    requires WorldInv(w) && Can(w, event) && Grants(w.plugin, AnswersOf(w, event), event, s, st)
    ensures st.boot == w.boot == Do(w, event).boot && st.generation == Generation(w.gw.reg, w.name) + 1
    ensures PluginTheorems.AgentHolds(Do(w, event), |w.gw.reg.leases|)
    ensures Status(Do(w, event).gw.reg, w.name) == Held(Agent, st.generation)
    ensures Generation(Do(w, event).gw.reg, w.name) == st.generation
  {
  }

  lemma GrantedThenHeld(worlds: seq<World>, events: seq<Event>, i: nat, s: Session, st: Stamp)
    requires IsHistory(worlds, events) && GrantedAt(worlds, events, i, s, st)
    ensures st.boot == worlds[i].boot == worlds[i + 1].boot && worlds[i + 1].name == worlds[i].name
    ensures st.generation == Generation(worlds[i].gw.reg, worlds[i].name) + 1
    ensures PluginTheorems.AgentHolds(worlds[i + 1], |worlds[i].gw.reg.leases|)
    ensures Status(worlds[i + 1].gw.reg, worlds[i + 1].name) == Held(Agent, st.generation)
    ensures Generation(worlds[i + 1].gw.reg, worlds[i + 1].name) == st.generation
  {
    PluginTheorems.At(worlds, events, i);
    GrantHolds(worlds[i], events[i], s, st);
  }

  /**
   Operation k of session s reports at event j, as its own, a controller it did
   not just acquire. The Gateway had reported that controller at event m; it
   was granted at event i to an acquire of the same session, and that same
   lease was held in every state from right after the grant up to the report.
   */
  lemma AdoptedLeaseIsOwn(worlds: seq<World>, events: seq<Event>, j: nat, k: nat, now: Snapshot)
    returns (i: nat, m: nat)
    requires IsHistory(worlds, events) && j < |worlds| && HoldsSecond(worlds[j].plugin, k, now)
    requires now.control.Held? && now.control.actor == Agent
             && Adopts(worlds[j].plugin, worlds[j].plugin.chain[k].op, now)
    ensures i < m < j && ReportedAt(worlds, events, m, k, now)
    ensures GrantedAt(worlds, events, i, worlds[j].plugin.chain[k].op.session, Stamp(now.boot, now.control.generation))
    ensures forall t :: i < t <= m ==>
            worlds[t].boot == now.boot && PluginTheorems.AgentHolds(worlds[t], |worlds[i].gw.reg.leases|)
  {
    var p := worlds[j].plugin;
    var op := p.chain[k].op;
    var st := Stamp(now.boot, now.control.generation);
    PluginTheorems.HistoryInv(worlds, events, j);
    assert OwnLease(p, k);
    assert Established(p, op.lease, op.session, st);
    i := KnownWasGranted(worlds, events, j, op.session, st);
    m := SecondWasReported(worlds, events, j, k, now);
    GrantedThenHeld(worlds, events, i, op.session, st);
    GrantBeforeReport(worlds, events, i, m, now.control.generation);
    HeldSinceGrant(worlds, events, i, m);
  }

  /** A generation is reported only after it was granted. */
  lemma GrantBeforeReport(worlds: seq<World>, events: seq<Event>, i: nat, m: nat, generation: nat)
    requires IsHistory(worlds, events) && i < |worlds| && m < |worlds| && worlds[i].boot == worlds[m].boot
    requires generation == Generation(worlds[i].gw.reg, worlds[i].name) + 1
    requires Status(worlds[m].gw.reg, worlds[m].name) == Held(Agent, generation)
    ensures i < m
  {
    PluginTheorems.HistoryInv(worlds, events, m);
    assert DesktopOk(worlds[m].gw.reg, worlds[m].name);
    if m <= i {
      GenerationNeverFalls(worlds, events, m, i);
    }
  }

  lemma GenerationNeverFalls(worlds: seq<World>, events: seq<Event>, i: nat, j: nat)
    requires IsHistory(worlds, events) && i <= j < |worlds| && worlds[i].boot == worlds[j].boot
    ensures worlds[i].name == worlds[j].name
            && Generation(worlds[i].gw.reg, worlds[i].name) <= Generation(worlds[j].gw.reg, worlds[j].name)
  {
    PluginTheorems.SameBootEvolves(worlds, events, i, j);
    assert DesktopEvolves(worlds[i].gw.reg, worlds[j].gw.reg, worlds[i].name);
  }

  lemma HeldSinceGrant(worlds: seq<World>, events: seq<Event>, i: nat, m: nat)
    requires IsHistory(worlds, events) && i < m < |worlds| && worlds[i + 1].boot == worlds[m].boot
    requires PluginTheorems.AgentHolds(worlds[i + 1], |worlds[i].gw.reg.leases|)
    requires Status(worlds[m].gw.reg, worlds[m].name).Held? && Status(worlds[m].gw.reg, worlds[m].name).actor == Agent
    requires Status(worlds[m].gw.reg, worlds[m].name).generation ==
             Status(worlds[i + 1].gw.reg, worlds[i + 1].name).generation
    ensures forall t :: i < t <= m ==>
            worlds[t].boot == worlds[m].boot && PluginTheorems.AgentHolds(worlds[t], |worlds[i].gw.reg.leases|)
  {
    var l := worlds[m].gw.reg.active[worlds[m].name];
    PluginTheorems.HeldThroughout(worlds, events, i + 1, m, l);
    assert PluginTheorems.AgentHolds(worlds[i + 1], l);
  }

  // ---------------------------------------------------------------- whose lease an accepted batch runs under

  /** The Gateway lease a batch was built on. */
  function LeaseOf(frame: Frame): Stamp {
    Stamp(frame.boot, frame.generation)
  }

  /** The local lease of operation k is the one that was granted the Gateway lease its batch was built on. */
  predicate ActsUnderOwnGrant(p: PluginState, k: nat) {
    && k < |p.chain| && p.chain[k].op.Act? && p.chain[k].phase.PostingBatch? && p.chain[k].op.lease < |p.locals|
    && p.locals[p.chain[k].op.lease].established == Some(LeaseOf(p.chain[k].phase.frame))
  }

  /**
   Under that condition an accepted batch runs under a lease that was granted
   to an acquire of the acting session, and held ever since.
   */
  lemma OwnGrantMeansOwnLease(worlds: seq<World>, events: seq<Event>, j: nat, k: nat) returns (i: nat)
    requires IsHistory(worlds, events) && j < |events| && PluginTheorems.AcceptsBatch(worlds[j], events[j], k)
    requires ActsUnderOwnGrant(worlds[j].plugin, k)
    ensures i < j
    ensures GrantedAt(worlds, events, i, worlds[j].plugin.chain[k].op.session,
                      LeaseOf(worlds[j].plugin.chain[k].phase.frame))
    ensures forall t :: i < t <= j ==>
              worlds[t].boot == worlds[j].boot && PluginTheorems.AgentHolds(worlds[t], |worlds[i].gw.reg.leases|)
  {
    var p := worlds[j].plugin;
    var op := p.chain[k].op;
    var st := LeaseOf(p.chain[k].phase.frame);
    PluginTheorems.HistoryInv(worlds, events, j);
    assert OwnLease(p, k) && PhaseFits(worlds[j], p.chain[k]);
    assert Established(p, op.lease, op.session, st);
    i := KnownWasGranted(worlds, events, j, op.session, st);
    GrantedThenHeld(worlds, events, i, op.session, st);
    HeldSinceGrant(worlds, events, i, j);
  }

  /** The Gateway grants a lease once, so it has one grantee. */
  lemma GrantedOnce(worlds: seq<World>, events: seq<Event>, i: nat, j: nat, s: Session, s': Session, st: Stamp)
    requires IsHistory(worlds, events) && GrantedAt(worlds, events, i, s, st) && GrantedAt(worlds, events, j, s', st)
    ensures i == j && s == s'
  {
    GrantedOnceInOrder(worlds, events, i, j, s, s', st);
    GrantedOnceInOrder(worlds, events, j, i, s', s, st);
  }

  lemma GrantedOnceInOrder(worlds: seq<World>, events: seq<Event>, i: nat, j: nat, s: Session, s': Session, st: Stamp)
    requires IsHistory(worlds, events) && GrantedAt(worlds, events, i, s, st) && GrantedAt(worlds, events, j, s', st)
    ensures j <= i
  {
    GrantedThenHeld(worlds, events, i, s, st);
    GrantedThenHeld(worlds, events, j, s', st);
    if i < j {
      GenerationNeverFalls(worlds, events, i + 1, j);
    }
  }

  ghost predicate WasGranted(worlds: seq<World>, events: seq<Event>, j: nat, s: Session, st: Stamp) {
    exists i: nat :: i < j && GrantedAt(worlds, events, i, s, st)
  }

  /**
   When some session recorded the grant of the lease a batch is accepted under,
   the acting session was granted that lease if and only if it is that session.
   */
  lemma GranteeDecides(worlds: seq<World>, events: seq<Event>, j: nat, k: nat, l: nat)
    requires IsHistory(worlds, events) && j < |events| && PluginTheorems.AcceptsBatch(worlds[j], events[j], k)
    requires var p := worlds[j].plugin;
             p.chain[k].op.Act? && l < |p.locals| && p.locals[l].established == Some(LeaseOf(p.chain[k].phase.frame))
    ensures var p := worlds[j].plugin;
            WasGranted(worlds, events, j, p.chain[k].op.session, LeaseOf(p.chain[k].phase.frame)) <==>
            p.locals[l].session == p.chain[k].op.session
  {
    var p := worlds[j].plugin;
    var st := LeaseOf(p.chain[k].phase.frame);
    assert Established(p, l, p.locals[l].session, st);
    var known := KnownWasGranted(worlds, events, j, p.locals[l].session, st);
    if i: nat :| i < j && GrantedAt(worlds, events, i, p.chain[k].op.session, st) {
      GrantedOnce(worlds, events, i, known, p.chain[k].op.session, p.locals[l].session, st);
    }
  }
}
