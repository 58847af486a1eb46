/**
 The Desktop Gateway's control registry, one function per locked region.

 A region is the code that runs between taking and dropping the registry
 mutex. Leases are never reused: a lease's identity is its position in
 `leases`, which only grows.
 */
module ControlSpec {

  type Desktop = string
  type LeaseId = nat
  type ReservationId = nat

  datatype Actor = Human | Agent

  /** One granted lease. `ttl > 0` marks a lease the agent took over HTTP. */
  datatype Lease = Lease(
    desktop: Desktop,
    actor: Actor,
    generation: nat,
    ttl: nat,
    lastTouch: nat,
    cancelled: bool,
    done: bool)

  datatype PowerAction = Start | Stop

  datatype PowerOutcome = Succeeded | Rejected | Unknown

  datatype PowerOp = PowerOp(id: nat, action: PowerAction, priorBlocked: bool)

  datatype Registry = Registry(
    active: map<Desktop, LeaseId>,
    generations: map<Desktop, nat>,
    blocked: set<Desktop>,
    powerOps: map<Desktop, PowerOp>,
    takeovers: map<Desktop, ReservationId>,
    draining: bool,
    leases: seq<Lease>,
    reservations: nat,
    powerOpsBegun: nat)

  datatype Error = ContextEnded | ControlBlocked | ControlBusy | PowerBusy | PowerRecoveryRequired | RevocationTimed

  datatype Acquired =
    | Granted(lease: LeaseId)
    | Refused(error: Error)
    | MustWait(previous: LeaseId, reservation: ReservationId)

  /** Which arm of the drain window's select fired. */
  datatype Wake = PreviousDone | TimerFired | ContextDone

  datatype ControlStatus = Held(actor: Actor, generation: nat) | Free(generation: nat)

  datatype Begun = PowerReserved(op: PowerOp) | PowerRefused(error: Error)

  const Empty: Registry := Registry(map[], map[], {}, map[], map[], false, [], 0, 0)

  function Generation(r: Registry, d: Desktop): nat {
    if d in r.generations then r.generations[d] else 0
  }

  /** grantLocked: the next generation, installed as the desktop's only active lease. */
  function Grant(r: Registry, d: Desktop, actor: Actor, ttl: nat, now: nat): Registry {
    var g := Generation(r, d) + 1;
    r.(generations := r.generations[d := g],
       leases := r.leases + [Lease(d, actor, g, ttl, now, false, false)],
       active := r.active[d := |r.leases|])
  }

  function Cancel(r: Registry, l: LeaseId): Registry {
    if l < |r.leases| then r.(leases := r.leases[l := r.leases[l].(cancelled := true)]) else r
  }

  /** acquire, up to the point where it grants, refuses or starts to wait. */
  function AcquireBegin(r: Registry, ctxLive: bool, d: Desktop, actor: Actor, takeover: bool, now: nat)
    : (Registry, Acquired)
  {
    if !ctxLive then (r, Refused(ContextEnded))
    else if r.draining then (r, Refused(ControlBlocked))
    else if d in r.blocked then (r, Refused(ControlBlocked))
    else if d in r.takeovers then (r, Refused(ControlBusy))
    else if d !in r.active then (Grant(r, d, actor, 0, now), Granted(|r.leases|))
    else
      var current := r.active[d];
      if takeover && actor == Human && current < |r.leases| && r.leases[current].actor == Agent then
        (Cancel(r, current).(takeovers := r.takeovers[d := r.reservations], reservations := r.reservations + 1),
         MustWait(current, r.reservations))
      else (r, Refused(ControlBusy))
  }

  /**
   The reservation test after the wait. `takeoverReservation` is a zero-size
   struct, so two reservations may or may not compare equal:
   with `distinct` the test is by identity, without it only by presence.
   */
  predicate ReservationHeld(r: Registry, d: Desktop, mine: ReservationId, distinct: bool) {
    d in r.takeovers && (distinct ==> r.takeovers[d] == mine)
  }

  /** acquire, after its wait. */
  function AcquireResume(r: Registry, d: Desktop, actor: Actor, mine: ReservationId, distinct: bool,
                         wake: Wake, ctxLive: bool, now: nat): (Registry, Acquired)
  {
    if !ReservationHeld(r, d, mine, distinct) then (r, Refused(ControlBusy))
    else
      var freed := r.(takeovers := r.takeovers - {d});
      if wake == TimerFired then (freed, Refused(RevocationTimed))
      else if wake == ContextDone || !ctxLive then (freed, Refused(ContextEnded))
      else if d in r.blocked then (freed, Refused(ControlBlocked))
      else if d in r.active then (freed, Refused(ControlBusy))
      else (Grant(freed, d, actor, 0, now), Granted(|r.leases|))
  }

  /** acquireAgent. */
  function AcquireAgent(r: Registry, d: Desktop, ttl: nat, now: nat): (Registry, Acquired) {
    if r.draining || d in r.blocked then (r, Refused(ControlBlocked))
    else if d in r.takeovers || d in r.active then (r, Refused(ControlBusy))
    else (Grant(r, d, Agent, ttl, now), Granted(|r.leases|))
  }

  /** The idle check of expireLoop, read together with the lease's cancellation. */
  predicate ExpiryDue(lease: Lease, now: nat) {
    lease.cancelled || now - lease.lastTouch > lease.ttl
  }

  function TouchAgent(r: Registry, d: Desktop, now: nat): Registry {
    if d in r.active && r.active[d] < |r.leases| && r.leases[r.active[d]].actor == Agent
      && r.leases[r.active[d]].ttl > 0 then
      r.(leases := r.leases[r.active[d] := r.leases[r.active[d]].(lastTouch := now)])
    else r
  }

  /** releaseAgentOwner, first region: does an agent own the desktop right now? */
  predicate AgentOwns(r: Registry, d: Desktop) {
    d in r.active && r.active[d] < |r.leases| && r.leases[r.active[d]].actor == Agent
  }

  /** release, locked part: forget the lease if it is still the active one. */
  function Release(r: Registry, d: Desktop, l: LeaseId): Registry {
    if d in r.active && r.active[d] == l then r.(active := r.active - {d}) else r
  }

  /** release, unlocked part: tell whoever waits that the lease is over. */
  function CloseDone(r: Registry, l: LeaseId): Registry {
    if l < |r.leases| then r.(leases := r.leases[l := r.leases[l].(done := true)]) else r
  }

  function BeginPower(r: Registry, d: Desktop, action: PowerAction): (Registry, Begun) {
    if r.draining then (r, PowerRefused(ControlBlocked))
    else if d in r.active then (r, PowerRefused(ControlBusy))
    else if d in r.takeovers then (r, PowerRefused(ControlBusy))
    else if d in r.powerOps then (r, PowerRefused(PowerBusy))
    else if d in r.blocked && action != Start then (r, PowerRefused(PowerRecoveryRequired))
    else
      var op := PowerOp(r.powerOpsBegun, action, d in r.blocked);
      (r.(powerOps := r.powerOps[d := op], blocked := r.blocked + {d}, powerOpsBegun := r.powerOpsBegun + 1),
       PowerReserved(op))
  }

  function FinishPower(r: Registry, d: Desktop, op: PowerOp, outcome: PowerOutcome): Registry {
    if d !in r.powerOps || r.powerOps[d] != op then r
    else
      var ended := r.(powerOps := r.powerOps - {d});
      if r.draining then ended.(blocked := ended.blocked + {d})
      else match outcome
        case Succeeded => if op.action == Start then ended.(blocked := ended.blocked - {d}) else ended
        case Unknown => ended
        case Rejected => if op.priorBlocked then ended.(blocked := ended.blocked + {d})
                         else ended.(blocked := ended.blocked - {d})
  }

  /** revokeAll, locked part. The wait that follows reads `done` flags and changes nothing. */
  function RevokeAll(r: Registry): Registry {
    r.(draining := true,
       blocked := r.blocked + r.active.Keys + r.takeovers.Keys + r.powerOps.Keys,
       takeovers := map[],
       leases := CancelAll(r.leases, r.active.Values))
  }

  /** Every lease of `ids` cancelled, the others untouched. */
  function CancelAll(leases: seq<Lease>, ids: set<LeaseId>): (cancelled: seq<Lease>)
    ensures |cancelled| == |leases|
    ensures forall l :: 0 <= l < |leases| ==>
              cancelled[l] == if l in ids then leases[l].(cancelled := true) else leases[l]
  {
    seq(|leases|, l requires 0 <= l < |leases| => if l in ids then leases[l].(cancelled := true) else leases[l])
  }

  /** status: the active lease's actor and generation, else the last generation granted. */
  function Status(r: Registry, d: Desktop): ControlStatus {
    if d in r.active && r.active[d] < |r.leases| then
      Held(r.leases[r.active[d]].actor, r.leases[r.active[d]].generation)
    else Free(Generation(r, d))
  }
}
