/**
 The computer-use plugin composed with the Desktop Gateway.

 The plugin runs its desktop operations through a chain of promises, one
 operation after another. A request takes effect at the Gateway, if at all,
 before the plugin sees its outcome; in between, the Gateway's other callers
 (humans, expiry, releases, power, shutdown) and Gateway restarts interleave
 freely. Agent leases are granted only to this plugin's acquire operations,
 because the RFB path is reserved to humans.
 */
module Plugin {
  import opened Options
  import opened ControlSpec
  import opened ControlRuns

  type Session = nat
  type ObservationId = nat  // the place of its desktop_observe in the chain: unique, like the UUID it stands for

  datatype Action = Click(x: nat, y: nat) | Scroll(x: nat, y: nat) | Type(text: string) | Key(key: string)

  /** What the Gateway stamps on a screenshot. */
  datatype Frame = Frame(boot: nat, generation: nat, vmi: string, width: nat, height: nat)

  /** The answer of the status endpoint. */
  datatype Snapshot = Snapshot(boot: nat, control: ControlStatus, vmi: string, blocked: bool)

  datatype Observation = Observation(id: ObservationId, frame: Frame)

  datatype Operation =
    | Acquire(session: Session, lease: nat)
    | Observe(session: Session)
    | Act(session: Session, lease: nat, id: ObservationId, actions: seq<Action>)
    | Launch(session: Session, lease: nat)
    | SwitchPower(asker: Option<Session>, action: PowerAction, under: Option<nat>) // a channel command has no session
    | Cleanup

  datatype Phase =
    | Queued
    | AskingStatus
    | HasStatus(snapshot: Snapshot)
    | AskingAgain                    // desktop_acquire found an agent in control and asks once more
    | HasSecond(snapshot: Snapshot)
    | AskingFrame
    | HasFrame(frame: Frame)
    | PostingAcquire
    | PostedAcquire(answer: Option<Stamp>)
    | Recovering                     // an acquire of unknown outcome releases whatever it may have been granted
    | PostingBatch(frame: Frame)
    | PostedBatch(frame: Frame)
    | PostingLaunch
    | PostedLaunch
    | PostingPower
    | Cleaning
    | Settled

  datatype Entry = Entry(op: Operation, phase: Phase)

  /** Which Gateway lease an acquire was granted. */
  datatype Stamp = Stamp(boot: nat, generation: nat)

  /** A local lease object; `current` in the plugin state says which one is localControl. */
  datatype Local = Local(session: Session, closing: bool, orphaned: bool, established: Option<Stamp>)

  datatype PluginState = PluginState(
    chain: seq<Entry>,
    observations: map<Session, Observation>,
    powerUncertain: bool,
    disposing: bool,
    locals: seq<Local>,
    current: Option<nat>)

  datatype World = World(name: Desktop, boot: nat, gw: System, plugin: PluginState)

  datatype PowerReply = PowerDone | PowerUnknown | PowerRejected | PowerNotPosted

  datatype LocalChange =
    | Reserve(session: Session)   // desktop_acquire finds no local lease
    | BeginClose(lease: nat)      // desktop_release or desktop_power stop
    | Quarantine(lease: nat)
    | Drop(lease: nat)
    | Renew(lease: nat)           // after a failed close

  datatype Event =
    | Invoke(op: Operation)
    | StartOp(k: nat, aborted: bool)
    | GatewayStatus(k: nat, vmi: string, blocked: bool)
    | GatewayFrame(k: nat, vmi: string, width: nat, height: nat)
    | GatewayAcquire(k: nat, t: Tid, ttl: nat)
    | GatewayInput(k: nat)
    | Continue(k: nat, confirmed: bool, reply: PowerReply)
    | Fail(k: nat, ambiguous: bool)
    | EndSession(session: Session)
    | Dispose
    | ClearObservations
    | ChangeLocal(change: LocalChange)
    | Gateway(step: Step)
    | Restart

  const FreshPlugin: PluginState := PluginState([], map[], false, false, [], None)

  /**
   The plugin starts fresh, against any Gateway that can have been reached; an
   earlier plugin may have left a lease there.
   */
  ghost predicate InitialWorld(w: World) {
    Inv(w.gw) && w.plugin == FreshPlugin
  }

  /** observationMatchesCurrent. */
  predicate ObservationMatches(p: PluginState, s: Session, presented: ObservationId, current: Snapshot) {
    && s in p.observations
    && presented == p.observations[s].id
    && current.boot == p.observations[s].frame.boot
    && current.vmi != "" && current.vmi == p.observations[s].frame.vmi
    && current.control.generation == p.observations[s].frame.generation
  }

  predicate Inside(a: Action, width: nat, height: nat) {
    (a.Click? ==> a.x < width && a.y < height) && (a.Scroll? ==> a.x < width && a.y < height)
  }

  predicate AllInside(actions: seq<Action>, frame: Frame) {
    forall a :: a in actions ==> Inside(a, frame.width, frame.height)
  }

  /** assertCurrentLease(lease, false). */
  predicate LeaseOpen(p: PluginState, lease: nat) {
    p.current == Some(lease) && lease < |p.locals| && !p.locals[lease].closing
  }

  /** The checks a tool call makes before it enters the chain. */
  predicate MayInvoke(p: PluginState, op: Operation) {
    match op
    case Acquire(s, lease) => !p.disposing && !p.powerUncertain && LeaseOpen(p, lease) && p.locals[lease].session == s
                              && !p.locals[lease].orphaned
    case Observe(_) => !p.disposing
    case Act(s, lease, _, _) => !p.disposing && !p.powerUncertain && LeaseOpen(p, lease) && p.locals[lease].session == s
    case Launch(s, lease) => !p.disposing && !p.powerUncertain && LeaseOpen(p, lease) && p.locals[lease].session == s
    case SwitchPower(s, action, lease) =>
      && !p.disposing && (p.powerUncertain ==> action == Start) && LeaseForPower(p, action, lease)
      && (lease.Some? ==> s == Some(p.locals[lease.value].session))
    case Cleanup => true
  }

  /** A stop closes the local lease first, a start keeps it open, and without a lease there must be none. */
  predicate LeaseForPower(p: PluginState, action: PowerAction, lease: Option<nat>) {
    && p.current == lease
    && (lease.Some? ==> lease.value < |p.locals| && (p.locals[lease.value].closing <==> action == Stop))
  }

  /** The checks an operation repeats when its turn comes. */
  predicate MayStart(p: PluginState, op: Operation) {
    match op
    case Acquire(_, lease) => LeaseOpen(p, lease) && !p.powerUncertain
    case Act(_, lease, _, _) => LeaseOpen(p, lease) && !p.powerUncertain
    case Launch(_, lease) => LeaseOpen(p, lease) && !p.powerUncertain
    case SwitchPower(_, action, lease) =>
      !p.disposing && LeaseForPower(p, action, lease) && (p.powerUncertain ==> action == Start)
    case Observe(_) => true
    case Cleanup => true
  }

  function FirstPhase(op: Operation): Phase {
    match op
    case Observe(_) => AskingFrame
    case SwitchPower(_, _, _) => PostingPower
    case Cleanup => Cleaning
    case _ => AskingStatus
  }

  function SetPhase(p: PluginState, k: nat, phase: Phase): PluginState
    requires k < |p.chain|
  {
    p.(chain := p.chain[k := p.chain[k].(phase := phase)])
  }

  /** Only operation k moves, and it stays the operation it is. */
  predicate OnlyTouches(p: PluginState, after: PluginState, k: nat) {
    && k < |p.chain| == |after.chain| && after.chain[k].op == p.chain[k].op
    && forall i :: 0 <= i < |p.chain| && i != k ==> after.chain[i] == p.chain[i]
  }

  /** settle operation k after dropping every observation. */
  function SettleAndInvalidate(p: PluginState, k: nat): PluginState
    requires k < |p.chain|
  {
    SetPhase(p, k, Settled).(observations := map[])
  }

  /** The controller the Gateway reports is the one this local lease was granted. */
  predicate Adopts(p: PluginState, op: Operation, now: Snapshot) {
    && op.Acquire? && op.lease < |p.locals|
    && now.control.Held? && p.locals[op.lease].established == Some(Stamp(now.boot, now.control.generation))
  }

  /** quarantineLocalControl. */
  function WithQuarantine(p: PluginState, l: nat): PluginState {
    if p.current == Some(l) && l < |p.locals|
    then p.(locals := p.locals[l := p.locals[l].(closing := true, orphaned := true)], observations := map[]) else p
  }

  /** A status answer that lets the agent go on: control is not blocked and an agent holds it. */
  predicate AgentReported(now: Snapshot) {
    !now.blocked && now.control.Held? && now.control.actor == Agent
  }

  /** An acquire found an agent in control that is not its own doing, or cannot confirm that it left none behind. */
  predicate Disowns(p: PluginState, entry: Entry, confirmed: bool) {
    && entry.op.Acquire?
    && match entry.phase
       case HasStatus(now) =>
         AgentReported(now) && (entry.op.lease < |p.locals| ==> p.locals[entry.op.lease].established.None?)
       case HasSecond(now) => AgentReported(now) && !Adopts(p, entry.op, now)
       case Recovering => !confirmed
       case _ => false
  }

  /** Where an operation stands after its own code has run up to the next request. */
  function NextPhase(p: PluginState, entry: Entry): Phase {
    var op := entry.op;
    match entry.phase
    case HasStatus(now) =>
      if op.Acquire? && !now.blocked && now.control.Free? then PostingAcquire
      else if !AgentReported(now) then Settled
      else if op.Acquire? then (if Disowns(p, entry, true) then Settled else AskingAgain)
      else if op.Launch? then PostingLaunch
      else if op.Act? && ObservationMatches(p, op.session, op.id, now)
        && AllInside(op.actions, p.observations[op.session].frame)
      then PostingBatch(p.observations[op.session].frame)
      else Settled
    case HasFrame(_) => Settled
    case HasSecond(_) => Settled
    case PostedAcquire(_) => Settled
    case PostedBatch(_) => Settled
    case PostedLaunch => Settled
    case Cleaning => Settled
    case PostingPower => Settled
    case Recovering => Settled
    case _ => entry.phase
  }

  /** Whether the code that runs now drops every observation. */
  predicate Invalidates(p: PluginState, entry: Entry, confirmed: bool, reply: PowerReply) {
    var op := entry.op;
    if Disowns(p, entry, confirmed) then p.current == Some(op.lease) && op.lease < |p.locals|
    else match entry.phase
    case HasStatus(now) =>
      || (op.Acquire? && !now.blocked && now.control.Free?)
      || (op.Act? && AgentReported(now) && !ObservationMatches(p, op.session, op.id, now))
    case HasSecond(now) => AgentReported(now) && Adopts(p, op, now)
    case PostedAcquire(_) => true
    case PostedBatch(_) => true
    case PostedLaunch => true
    case Cleaning => true
    case PostingPower => op.SwitchPower? && reply != PowerNotPosted
    case _ => false
  }

  function NextObservations(p: PluginState, k: nat, confirmed: bool, reply: PowerReply): map<Session, Observation>
    requires k < |p.chain|
  {
    var Entry(op, phase) := p.chain[k];
    if Invalidates(p, p.chain[k], confirmed, reply) then map[]
    else if phase.HasFrame? && op.Observe? then
      if confirmed then p.observations[op.session := Observation(k, phase.frame)] else p.observations - {op.session}
    else p.observations
  }

  function NextLocals(p: PluginState, entry: Entry, confirmed: bool): seq<Local> {
    if Disowns(p, entry, confirmed) then WithQuarantine(p, entry.op.lease).locals
    else if entry.op.Acquire? && entry.phase.PostedAcquire? && entry.phase.answer.Some? && entry.op.lease < |p.locals|
    then p.locals[entry.op.lease := p.locals[entry.op.lease].(established := entry.phase.answer)]
    else p.locals
  }

  function NextUncertain(p: PluginState, entry: Entry, reply: PowerReply): bool {
    if entry.phase != PostingPower || !entry.op.SwitchPower? then p.powerUncertain
    else if reply == PowerUnknown then true
    else if reply == PowerDone && entry.op.action == Start then false
    else p.powerUncertain
  }

  /** An operation's own code between two replies. */
  function Continued(p: PluginState, k: nat, confirmed: bool, reply: PowerReply): (after: PluginState)
    requires k < |p.chain|
    ensures OnlyTouches(p, after, k)
  {
    PluginState(p.chain[k := p.chain[k].(phase := NextPhase(p, p.chain[k]))],
                NextObservations(p, k, confirmed, reply), NextUncertain(p, p.chain[k], reply), p.disposing,
                NextLocals(p, p.chain[k], confirmed), p.current)
  }

  /** An operation whose awaited request was rejected, timed out or aborted. */
  function Failed(p: PluginState, k: nat, ambiguous: bool): (after: PluginState)
    requires k < |p.chain|
    ensures OnlyTouches(p, after, k)
  {
    match p.chain[k].phase
    case PostingAcquire => SetPhase(p, k, if ambiguous then Recovering else Settled).(observations := map[])
    case PostedAcquire(_) => SetPhase(p, k, if ambiguous then Recovering else Settled).(observations := map[])
    case PostingBatch(_) => SettleAndInvalidate(p, k)
    case PostedBatch(_) => SettleAndInvalidate(p, k)
    case PostingLaunch => SettleAndInvalidate(p, k)
    case PostedLaunch => SettleAndInvalidate(p, k)
    case _ => SetPhase(p, k, Settled)
  }

  function Changed(p: PluginState, change: LocalChange): PluginState {
    match change
    case Reserve(s) =>
      if p.current.None? && !p.disposing && !p.powerUncertain
      then p.(locals := p.locals + [Local(s, false, false, None)], current := Some(|p.locals|)) else p
    case BeginClose(l) =>
      if p.current == Some(l) && l < |p.locals| then p.(locals := p.locals[l := p.locals[l].(closing := true)]) else p
    case Quarantine(l) => WithQuarantine(p, l)
    case Drop(l) => if p.current == Some(l) then p.(current := None) else p
    case Renew(l) =>
      if p.current == Some(l) && l < |p.locals| && !p.disposing
      then p.(locals := p.locals + [Local(p.locals[l].session, false, false, p.locals[l].established)],
              current := Some(|p.locals|)) else p
  }

  /** Operation k may begin: the promise before it has settled, either way. */
  predicate Turn(p: PluginState, k: nat) {
    k < |p.chain| && p.chain[k].phase == Queued && (k > 0 ==> p.chain[k - 1].phase == Settled)
  }

  predicate Running(p: PluginState, k: nat) {
    k < |p.chain| && p.chain[k].phase != Queued && p.chain[k].phase != Settled
  }

  /** The plugin's side of an event's guard. */
  predicate Ready(p: PluginState, event: Event) {
    match event
    case Invoke(op) => MayInvoke(p, op)
    case StartOp(k, _) => Turn(p, k)
    case GatewayStatus(k, _, _) =>
      k < |p.chain| && (p.chain[k].phase == AskingStatus || p.chain[k].phase == AskingAgain)
    case GatewayFrame(k, _, width, height) =>
      k < |p.chain| && p.chain[k].phase == AskingFrame && width > 0 && height > 0
    case GatewayAcquire(k, _, _) => k < |p.chain| && p.chain[k].phase == PostingAcquire
    case GatewayInput(k) => k < |p.chain| && (p.chain[k].phase.PostingBatch? || p.chain[k].phase == PostingLaunch)
    case Continue(k, _, _) => Running(p, k)
    case Fail(k, _) => Running(p, k) && p.chain[k].phase != PostingPower && p.chain[k].phase != Recovering
    case _ => true
  }

  predicate Can(w: World, event: Event) {
    && Ready(w.plugin, event)
    && (event.GatewayAcquire? ==> event.t !in w.gw.threads)
    && (event.Gateway? ==>
        Enabled(w.gw, event.step) && !event.step.CallAcquireAgent?
          && (event.step.CallAcquire? ==> event.step.actor == Human))
  }

  /** The lease check of an agent input request. */
  predicate GatewayAccepts(w: World) {
    var now := Status(w.gw.reg, w.name);
    now.Held? && now.actor == Agent
  }

  /** What the Gateway answers at this moment: its boot, its control status, and the lease an acquire is granted. */
  datatype Answers = Answers(boot: nat, control: ControlStatus, grant: Option<Stamp>)

  function AnswersOf(w: World, event: Event): Answers {
    Answers(w.boot, Status(w.gw.reg, w.name), if event.GatewayAcquire? then GrantTo(w, event.ttl) else None)
  }

  /** The answer to an acquire request, once acquireAgent has run. */
  function GrantTo(w: World, ttl: nat): Option<Stamp> {
    var (r, a) := AcquireAgent(w.gw.reg, w.name, ttl, w.gw.now);
    if a.Granted? then Some(Stamp(w.boot, Generation(r, w.name))) else None
  }

  /** The plugin after an event. */
  function PluginNext(p: PluginState, g: Answers, event: Event): PluginState
    requires Ready(p, event)
  {
    match event
    case Invoke(op) => p.(chain := p.chain + [Entry(op, Queued)])
    case StartOp(k, aborted) =>
      SetPhase(p, k, if aborted || !MayStart(p, p.chain[k].op) then Settled else FirstPhase(p.chain[k].op))
    case GatewayStatus(k, vmi, blocked) => 
      var snapshot := Snapshot(g.boot, g.control, vmi, blocked);
      SetPhase(p, k, if p.chain[k].phase == AskingStatus then HasStatus(snapshot) else HasSecond(snapshot))
    case GatewayFrame(k, vmi, width, height) =>
      SetPhase(p, k, HasFrame(Frame(g.boot, g.control.generation, vmi, width, height)))
    case GatewayAcquire(k, _, _) => SetPhase(p, k, PostedAcquire(g.grant))
    case GatewayInput(k) =>
      SetPhase(p, k, if p.chain[k].phase.PostingBatch? then PostedBatch(p.chain[k].phase.frame) else PostedLaunch)
    case Continue(k, confirmed, reply) => Continued(p, k, confirmed, reply)
    case Fail(k, ambiguous) => Failed(p, k, ambiguous)
    case EndSession(s) => p.(observations := p.observations - {s})
    case Dispose => p.(disposing := true)
    case ClearObservations => p.(observations := map[])
    case ChangeLocal(change) => Changed(p, change)
    case Gateway(_) => p
    case Restart => p
  }

  function GatewayNext(w: World, event: Event): System
    requires Can(w, event)
  {
    match event
    case GatewayAcquire(_, t, ttl) => Apply(w.gw, CallAcquireAgent(t, w.name, ttl))
    case Gateway(step) => Apply(w.gw, step)
    case Restart => Init
    case _ => w.gw
  }

  function Do(w: World, event: Event): World
    requires Can(w, event)
  {
    World(w.name, if event.Restart? then w.boot + 1 else w.boot, GatewayNext(w, event),
          PluginNext(w.plugin, AnswersOf(w, event), event))
  }

  predicate EventAt(worlds: seq<World>, events: seq<Event>, i: nat)
    requires |worlds| == |events| + 1 && i < |events|
  {
    Can(worlds[i], events[i]) && worlds[i + 1] == Do(worlds[i], events[i])
  }

  ghost predicate IsHistory(worlds: seq<World>, events: seq<Event>) {
    && |worlds| == |events| + 1
    && InitialWorld(worlds[0])
    && forall i: nat :: i < |events| ==> EventAt(worlds, events, i)
  }

  // ---------------------------------------------------------------- invariants

  /** The chain runs in order: once an operation has begun, everything before it has settled. */
  predicate InOrder(p: PluginState, i: nat, k: nat) {
    i < k < |p.chain| && p.chain[k].phase != Queued ==> p.chain[i].phase == Settled
  }

  /** The agent lease seen by the last status answer is still the only one there can be. */
  predicate NoNewAgent(w: World, boot: nat, generation: nat) {
    GatewayAccepts(w) ==> w.boot == boot && Status(w.gw.reg, w.name).generation == generation
  }

  predicate PhaseFits(w: World, entry: Entry) {
    match entry.phase
    case AskingStatus => (entry.op.Acquire? || entry.op.Act? || entry.op.Launch?) && !w.plugin.powerUncertain
    case HasStatus(now) =>
      && (entry.op.Acquire? || entry.op.Act? || entry.op.Launch?)
      && !w.plugin.powerUncertain
      && (GatewayAccepts(w) ==> w.boot == now.boot && Status(w.gw.reg, w.name) == now.control)
    case AskingFrame => entry.op.Observe?
    case HasFrame(_) => entry.op.Observe?
    case PostingAcquire => entry.op.Acquire?
    case PostedAcquire(_) => entry.op.Acquire?
    case Recovering => entry.op.Acquire?
    case AskingAgain => entry.op.Acquire? && !w.plugin.powerUncertain
    case HasSecond(_) => entry.op.Acquire? && !w.plugin.powerUncertain
    case PostingBatch(f) =>
      entry.op.Act? && !w.plugin.powerUncertain && AllInside(entry.op.actions, f) && NoNewAgent(w, f.boot, f.generation)
    case PostedBatch(f) => entry.op.Act? && !w.plugin.powerUncertain && AllInside(entry.op.actions, f)
    case PostingLaunch => entry.op.Launch? && !w.plugin.powerUncertain
    case PostedLaunch => entry.op.Launch? && !w.plugin.powerUncertain
    case PostingPower => entry.op.SwitchPower?
    case Cleaning => entry.op.Cleanup?
    case _ => true
  }

  /** A stored observation was taken by an operation that is over. */
  predicate ObservationOk(p: PluginState, s: Session) {
    s in p.observations ==> p.observations[s].id < |p.chain| && p.chain[p.observations[s].id].phase == Settled
  }

  /** An operation under a local lease works for a lease of its own session. */
  predicate OwnLease(p: PluginState, k: nat) {
    k < |p.chain| && (p.chain[k].op.Acquire? || p.chain[k].op.Act? || p.chain[k].op.Launch?) ==>
      p.chain[k].op.lease < |p.locals| && p.locals[p.chain[k].op.lease].session == p.chain[k].op.session
  }

  ghost predicate PluginInv(p: PluginState) {
    && (forall i: nat, k: nat :: InOrder(p, i, k))
    && (forall s :: ObservationOk(p, s))
    && (forall k: nat :: OwnLease(p, k))
  }

  ghost predicate WorldInv(w: World) {
    && Inv(w.gw)
    && PluginInv(w.plugin)
    && (forall k: nat :: k < |w.plugin.chain| ==> PhaseFits(w, w.plugin.chain[k]))
  }

  lemma RunningAlone(p: PluginState, k: nat, i: nat)
    requires Running(p, k) && Running(p, i) && PluginInv(p)
    ensures i == k
  {
    assert InOrder(p, i, k) && InOrder(p, k, i);
  }

  /** A Gateway step outside the agent's acquire cannot bring in another agent lease. */
  lemma AgentOnlySame(s: System, step: Step, d: Desktop)
    requires Inv(s) && Enabled(s, step) && !step.CallAcquireAgent? && (step.CallAcquire? ==> step.actor == Human)
    requires Status(Apply(s, step).reg, d).Held? && Status(Apply(s, step).reg, d).actor == Agent
    ensures Status(s.reg, d) == Status(Apply(s, step).reg, d)
  {
    RegStep(s, step);
    NewLeasesAreHuman(s, step);
    OldLeaseSameStatus(s.reg, Apply(s, step).reg, d);
  }

  ghost predicate OnlyHumansAdded(r: Registry, r': Registry) {
    forall l :: |r.leases| <= l < |r'.leases| ==> r'.leases[l].actor == Human
  }

  /** With only humans added, an agent in control is the agent that was in control before. */
  lemma OldLeaseSameStatus(r: Registry, r': Registry, d: Desktop)
    requires RegOk(r) && RegOk(r') && Evolves(r, r') && OnlyHumansAdded(r, r')
    requires Status(r', d).Held? && Status(r', d).actor == Agent
    ensures Status(r, d) == Status(r', d)
  {
    assert DesktopOk(r, d) && DesktopOk(r', d) && DesktopEvolves(r, r', d);
    assert LeaseEvolves(r, r', r'.active[d]);
  }

  lemma NewLeasesAreHuman(s: System, step: Step)
    requires Inv(s) && Enabled(s, step) && !step.CallAcquireAgent? && (step.CallAcquire? ==> step.actor == Human)
    ensures OnlyHumansAdded(s.reg, Apply(s, step).reg)
  {
    if step.ResumeAcquire? {
      assert PcOk(s.reg, s.threads[step.t]);
    }
  }

  lemma GatewayInv(w: World, event: Event)
    requires WorldInv(w) && Can(w, event)
    ensures Inv(Do(w, event).gw)
  {
    if event.Gateway? {
      InvStep(w.gw, event.step);
    } else if event.GatewayAcquire? {
      InvStep(w.gw, CallAcquireAgent(event.t, w.name, event.ttl));
    }
  }

  /** Whatever operation an event moves, the chain stays in order. */
  lemma OrderStep(p: PluginState, g: Answers, event: Event, i: nat, k: nat)
    requires PluginInv(p) && Ready(p, event)
    ensures InOrder(PluginNext(p, g, event), i, k)
  {
    assert InOrder(p, i, k);
    if i < k < |p.chain| {
      if !OwnStep(event, i) {
        OthersUntouched(p, g, event, i);
      }
      if !OwnStep(event, k) {
        OthersUntouched(p, g, event, k);
      } else if event.StartOp? {
        assert InOrder(p, i, k - 1);
      }
    }
  }

  /** The plugin's power flag is not raised and no agent lease appears. */
  predicate Calm(w: World, w': World) {
    && (w'.plugin.powerUncertain ==> w.plugin.powerUncertain)
    && w'.name == w.name
    && (GatewayAccepts(w') ==>
        GatewayAccepts(w) && w'.boot == w.boot && Status(w'.gw.reg, w.name) == Status(w.gw.reg, w.name))
  }

  lemma FitsWhenCalm(w: World, w': World, entry: Entry)
    requires PhaseFits(w, entry) && Calm(w, w')
    ensures PhaseFits(w', entry)
  {
  }

  /** Only a power operation raises the flag and only an acquire brings in an agent lease. */
  lemma CalmExcept(w: World, event: Event)
    requires WorldInv(w) && Can(w, event)
    ensures Calm(w, Do(w, event)) || event.GatewayAcquire?
            || (event.Continue? && w.plugin.chain[event.k].phase == PostingPower)
  {
    if event.Gateway? && GatewayAccepts(Do(w, event)) {
      AgentOnlySame(w.gw, event.step, w.name);
    } else if event.Restart? {
      assert Status(Init.reg, w.name).Free?;
    }
  }

  lemma PhaseAfterContinue(w: World, k: nat, confirmed: bool, reply: PowerReply)
    requires WorldInv(w) && Running(w.plugin, k)
    ensures PhaseFits(w.(plugin := Continued(w.plugin, k, confirmed, reply)),
                      Continued(w.plugin, k, confirmed, reply).chain[k])
  {
    var entry := w.plugin.chain[k];
    assert PhaseFits(w, entry);
    var p' := Continued(w.plugin, k, confirmed, reply);
    if entry.phase.HasStatus? && p'.chain[k].phase.PostingBatch? {
      assert ObservationMatches(w.plugin, entry.op.session, entry.op.id, entry.phase.snapshot);
    }
  }

  lemma PhaseOfOwnStep(w: World, event: Event, k: nat)
    requires WorldInv(w) && Can(w, event) && OwnStep(event, k)
    ensures PhaseFits(Do(w, event), Do(w, event).plugin.chain[k])
  {
    assert PhaseFits(w, w.plugin.chain[k]);
    if event.Continue? {
      PhaseAfterContinue(w, k, event.confirmed, event.reply);
    } else if event.StartOp? {
      PhaseAfterStart(w, k, event.aborted);
    } else if event.GatewayAcquire? {
      PhaseAfterPost(w, event, k);
    } else {
      PhaseAfterReply(w, event, k);
    }
  }

  lemma PhaseAfterPost(w: World, event: Event, k: nat)
    requires Can(w, event) && event.GatewayAcquire? && event.k == k && PhaseFits(w, w.plugin.chain[k])
    ensures PhaseFits(Do(w, event), Do(w, event).plugin.chain[k])
  {
    assert Do(w, event).plugin.chain[k].phase.PostedAcquire?;
  }

  lemma PhaseAfterReply(w: World, event: Event, k: nat)
    requires Can(w, event) && (event.GatewayStatus? || event.GatewayFrame? || event.GatewayInput? || event.Fail?)
             && event.k == k
    requires PhaseFits(w, w.plugin.chain[k])
    ensures PhaseFits(Do(w, event), Do(w, event).plugin.chain[k])
  {
    assert Do(w, event).gw == w.gw && Do(w, event).boot == w.boot;
  }

  lemma PhaseAfterStart(w: World, k: nat, aborted: bool)
    requires Can(w, StartOp(k, aborted))
    ensures PhaseFits(Do(w, StartOp(k, aborted)), Do(w, StartOp(k, aborted)).plugin.chain[k])
  {
  }

  predicate OwnStep(event: Event, i: nat) {
    && (event.StartOp? || event.GatewayStatus? || event.GatewayFrame? || event.GatewayAcquire? || event.GatewayInput?
        || event.Continue? || event.Fail?)
    && event.k == i
  }

  lemma PhaseStep(w: World, event: Event, i: nat)
    requires WorldInv(w) && Can(w, event) && i < |Do(w, event).plugin.chain|
    ensures PhaseFits(Do(w, event), Do(w, event).plugin.chain[i])
  {
    if OwnStep(event, i) {
      PhaseOfOwnStep(w, event, i);
    } else if i < |w.plugin.chain| {
      OthersUntouched(w.plugin, AnswersOf(w, event), event, i);
      if Running(w.plugin, i) {
        CalmForOthers(w, event, i);
        FitsWhenCalm(w, Do(w, event), w.plugin.chain[i]);
      }
    }
  }

  lemma OthersUntouched(p: PluginState, g: Answers, event: Event, i: nat)
    requires Ready(p, event) && i < |p.chain| && !OwnStep(event, i)
    ensures var p' := PluginNext(p, g, event); i < |p'.chain| && p'.chain[i] == p.chain[i]
  {
  }

  lemma CalmForOthers(w: World, event: Event, i: nat)
    requires WorldInv(w) && Can(w, event) && Running(w.plugin, i) && !OwnStep(event, i)
    ensures Calm(w, Do(w, event)) && PhaseFits(w, w.plugin.chain[i])
  {
    CalmExcept(w, event);
    if event.GatewayAcquire? || event.Continue? {
      RunningAlone(w.plugin, i, event.k);
    }
  }

  lemma ObservationStep(p: PluginState, g: Answers, event: Event, s: Session)
    requires PluginInv(p) && Ready(p, event)
    ensures ObservationOk(PluginNext(p, g, event), s)
  {
    assert ObservationOk(p, s);
  }

  /** Local leases are never taken away and never change hands. */
  predicate LocalsGrow(p: PluginState, p': PluginState) {
    |p.locals| <= |p'.locals| && forall l: nat :: l < |p.locals| ==> p'.locals[l].session == p.locals[l].session
  }

  lemma LocalsStep(p: PluginState, g: Answers, event: Event)
    requires Ready(p, event)
    ensures LocalsGrow(p, PluginNext(p, g, event))
  {
    if event.Continue? {
      LocalsAfterContinue(p, event.k, event.confirmed, event.reply);
    } else if event.ChangeLocal? {
      assert LocalsGrow(p, Changed(p, event.change));
    }
  }

  lemma LocalsAfterContinue(p: PluginState, k: nat, confirmed: bool, reply: PowerReply)
    requires k < |p.chain|
    ensures LocalsGrow(p, Continued(p, k, confirmed, reply))
  {
  }

  /** Operations stay what they are. */
  lemma OperationsStay(p: PluginState, g: Answers, event: Event, k: nat)
    requires Ready(p, event) && k < |p.chain|
    ensures var p' := PluginNext(p, g, event); k < |p'.chain| && p'.chain[k].op == p.chain[k].op
  {
    if !OwnStep(event, k) {
      OthersUntouched(p, g, event, k);
    }
  }

  lemma OwnLeaseStep(p: PluginState, g: Answers, event: Event, k: nat)
    requires PluginInv(p) && Ready(p, event)
    ensures OwnLease(PluginNext(p, g, event), k)
  {
    assert OwnLease(p, k);
    LocalsStep(p, g, event);
    if k < |p.chain| {
      OperationsStay(p, g, event, k);
    }
  }

  /** What every event keeps of the plugin alone. */
  lemma PluginStep(p: PluginState, g: Answers, event: Event)
    requires PluginInv(p) && Ready(p, event)
    ensures PluginInv(PluginNext(p, g, event))
  {
    forall i: nat, k: nat ensures InOrder(PluginNext(p, g, event), i, k) {
      OrderStep(p, g, event, i, k);
    }
    forall k: nat ensures OwnLease(PluginNext(p, g, event), k) {
      OwnLeaseStep(p, g, event, k);
    }
    forall s ensures ObservationOk(PluginNext(p, g, event), s) {
      ObservationStep(p, g, event, s);
    }
  }

  lemma WorldStep(w: World, event: Event)
    requires WorldInv(w) && Can(w, event)
    ensures WorldInv(Do(w, event))
  {
    var w' := Do(w, event);
    GatewayInv(w, event);
    PluginStep(w.plugin, AnswersOf(w, event), event);
    forall k: nat | k < |w'.plugin.chain| ensures PhaseFits(w', w'.plugin.chain[k]) {
      PhaseStep(w, event, k);
    }
  }

  /**
   All that an operation's code between two replies can do: store its own
   frame, drop observations, quarantine or establish its own local lease,
   change its mind about power after a power request, and post input only
   under an agent's lease and a matching observation.
   */
  lemma ContinuedEffects(p: PluginState, k: nat, confirmed: bool, reply: PowerReply)
    requires k < |p.chain|
    ensures var after := Continued(p, k, confirmed, reply); var op := p.chain[k].op; var phase := p.chain[k].phase;
            && OnlyTouches(p, after, k) && after.current == p.current && after.disposing == p.disposing
            && (forall s :: s in after.observations ==>
                  || (s in p.observations && after.observations[s] == p.observations[s])
                  || (op == Observe(s) && confirmed && phase == HasFrame(after.observations[s].frame)
                      && after.observations[s].id == k))
            && (after.powerUncertain != p.powerUncertain ==>
                  op.SwitchPower? && (if p.powerUncertain then reply == PowerDone && op.action == Start
                                      else reply == PowerUnknown))
            && |after.locals| == |p.locals|
            && (forall l :: 0 <= l < |p.locals| && after.locals[l] != p.locals[l] ==> op.Acquire? && op.lease == l)
            && (after.chain[k].phase.PostingBatch? ==>
                  || after.chain[k] == p.chain[k]
                  || (&& phase.HasStatus? && AgentReported(phase.snapshot)
                      && ObservationMatches(p, op.session, op.id, phase.snapshot)
                      && after.chain[k].phase.frame == p.observations[op.session].frame
                      && AllInside(op.actions, after.chain[k].phase.frame)))
            && (after.chain[k].phase == PostingLaunch ==>
                after.chain[k] == p.chain[k] || (phase.HasStatus? && AgentReported(phase.snapshot)))
            && (after.chain[k].phase == PostingAcquire ==>
                after.chain[k] == p.chain[k] || (phase.HasStatus? && phase.snapshot.control.Free?))
  {
  }
}
