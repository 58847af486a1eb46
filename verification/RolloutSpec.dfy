/**
 The managed rollout of a runtime release: what one reconcile decides from the
 persisted update status and from what it observes. Times and durations are in
 nanoseconds.
 */
module RolloutSpec {
  import opened Options
  import opened Versions

  datatype Phase = Unset | Idle | AwaitingBackup | Updating | Confirming | Ready | RolledBack

  datatype UpdateStatus = UpdateStatus(
    phase: Phase,
    currentVersion: string,
    targetVersion: string,
    promotedImage: string,
    deadline: Option<int>)

  const FreshStatus: UpdateStatus := UpdateStatus(Unset, "", "", "", None)

  datatype Readiness = Replicas(ready: int) | NoWorkload | ReadError

  /** Everything one reconcile reads, and which of its two writes succeed. */
  datatype Inputs = Inputs(
    enabled: bool,
    track: string,
    requireFreshBackup: bool,
    maxBackupAgeHours: int,
    confirmationTimeoutMinutes: int,
    readiness: Readiness,
    tags: Option<seq<string>>,
    specImage: string,
    lastSnapshot: Option<int>,
    now: int,
    imagePatched: bool,
    statusPatched: bool)

  const REPOSITORY: string := "ghcr.io/fml09/typeclaw-runtime"
  const SECOND: int := 1_000_000_000
  const MINUTE: int := 60 * SECOND
  const HOUR: int := 60 * MINUTE
  const DEFAULT_TIMEOUT_MINUTES: int := 15
  const DEFAULT_BACKUP_AGE_HOURS: int := 24
  const TWO_63: int := 0x8000_0000_0000_0000
  const TWO_64: int := 0x1_0000_0000_0000_0000

  /** Two's-complement wrap-around of a 64-bit duration. */
  function Wrap64(x: int): int {
    (x + TWO_63) % TWO_64 - TWO_63
  }

  /** The confirmation window as the controller computes it. */
  function Window(minutes: int): int {
    Wrap64((if minutes <= 0 then DEFAULT_TIMEOUT_MINUTES else minutes) * MINUTE)
  }

  function MaxBackupAge(hours: int): int {
    Wrap64((if hours <= 0 then DEFAULT_BACKUP_AGE_HOURS else hours) * HOUR)
  }

  /** Time.Sub saturates. */
  function Since(now: int, then_: int): int {
    if now - then_ > TWO_63 - 1 then TWO_63 - 1 else if now - then_ < -TWO_63 then -TWO_63 else now - then_
  }

  /** backupGateBlocked. */
  predicate BackupGateBlocked(input: Inputs) {
    input.requireFreshBackup &&
    (input.lastSnapshot.None? || Since(input.now, input.lastSnapshot.value) > MaxBackupAge(input.maxBackupAgeHours))
  }

  /** A stored timestamp keeps whole seconds only. */
  function Stored(t: int): int {
    t - t % SECOND
  }

  function TrackOrDefault(track: string): string {
    if track == "" then "latest" else track
  }

  /** versionTag: what follows the last colon, or the whole reference. */
  function VersionTag(image: string): string {
    if image == [] then ""
    else if ':' in image[1..] then VersionTag(image[1..])
    else if image[0] == ':' then image[1..]
    else image
  }

  /** The version a candidate must beat. */
  function Baseline(u: UpdateStatus, input: Inputs): string {
    if u.currentVersion == "" then VersionTag(input.specImage) else u.currentVersion
  }

  predicate InRollout(u: UpdateStatus) {
    u.phase == Updating || u.phase == Confirming
  }

  predicate ReportsReady(input: Inputs) {
    input.readiness.Replicas? && input.readiness.ready > 0
  }

  /** The deadline that governs this reconcile of an active rollout, once readiness was ever seen. */
  function Deadline(u: UpdateStatus, input: Inputs): Option<int> {
    if u.deadline.Some? then u.deadline
    else if u.phase == Updating && ReportsReady(input) then Some(input.now + Window(input.confirmationTimeoutMinutes))
    else None
  }

  datatype Move = Keep | GoIdle | AwaitBackup | Promote(version: string) | OpenWindow(deadline: int)
                | Confirm | RollBack

  /** What a reconcile does with an active rollout. */
  function AdvanceMove(u: UpdateStatus, input: Inputs): Move {
    var deadline := Deadline(u, input);
    if deadline.None? then Keep
    else if ReportsReady(input) && input.now >= deadline.value then Confirm
    else if ReportsReady(input) then (if u.phase == Updating then OpenWindow(deadline.value) else Keep)
    else if input.now > deadline.value && input.imagePatched then RollBack
    else Keep
  }

  /** What a reconcile decides outside a rollout. */
  function PollMove(u: UpdateStatus, input: Inputs): Move {
    if input.tags.None? then Keep
    else
      var candidate := Pick(input.tags.value, TrackOrDefault(input.track));
      if candidate.NoChoice? then Keep
      else if candidate.tag == u.targetVersion then Keep
      else if !Newer(candidate.tag, Baseline(u, input)) then Keep
      else if BackupGateBlocked(input) then AwaitBackup
      else if input.imagePatched then Promote(candidate.tag)
      else Keep
  }

  /** What a reconcile decides. */
  function Decide(u: UpdateStatus, input: Inputs): Move {
    if !input.enabled then GoIdle
    else if input.readiness.ReadError? then Keep
    else if InRollout(u) then AdvanceMove(u, input)
    else PollMove(u, input)
  }

  function Perform(u: UpdateStatus, move: Move): UpdateStatus {
    match move
    case Keep => u
    case GoIdle => UpdateStatus(Idle, u.currentVersion, "", "", None)
    case AwaitBackup => u.(phase := AwaitingBackup)
    case Promote(version) => UpdateStatus(Updating, u.currentVersion, version, REPOSITORY + ":" + version, None)
    case OpenWindow(deadline) => u.(phase := Confirming, deadline := Some(Stored(deadline)))
    case Confirm => UpdateStatus(Ready, u.targetVersion, "", "", None)
    case RollBack => UpdateStatus(RolledBack, u.currentVersion, u.targetVersion, "", None)
  }

  /** The move that reached the store. */
  function Effect(u: UpdateStatus, input: Inputs): Move {
    if input.statusPatched then Decide(u, input) else Keep
  }

  /** The status persisted after one reconcile. */
  function After(u: UpdateStatus, input: Inputs): UpdateStatus {
    Perform(u, Effect(u, input))
  }

  /** EffectiveRuntimeImage: the image the workload renderer uses. */
  function EffectiveImage(u: UpdateStatus, specImage: string): string {
    if u.promotedImage != "" && (u.phase == Updating || u.phase == Confirming || u.phase == Ready) then u.promotedImage
      else specImage
  }
}
