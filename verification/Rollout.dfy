/**
 The auto-update controller as it runs, and what every run of reconciles
 guarantees about the persisted status.
 */
module Rollout {
  import opened Options
  import opened Versions
  import opened RolloutSpec

  class AutoUpdater {
    /** The update status in the API store. */
    var persisted: UpdateStatus
    // The copy one reconcile works on.
    var phase: Phase
    var currentVersion: string
    var targetVersion: string
    var promotedImage: string
    var deadline: Option<int>

    constructor ()
      ensures persisted == FreshStatus
    {
      persisted := FreshStatus;
      phase, currentVersion, targetVersion, promotedImage, deadline := Unset, "", "", "", None;
    }

    ghost function Working(): UpdateStatus
      reads this
    {
      UpdateStatus(phase, currentVersion, targetVersion, promotedImage, deadline)
    }

    /** finish: the status patch may be refused, and then nothing of this reconcile is kept. */
    method Finish(input: Inputs)
      modifies `persisted
      ensures persisted == if input.statusPatched
                           then Working().(deadline := if deadline.Some? then Some(Stored(deadline.value)) else None)
                           else old(persisted)
    {
      if input.statusPatched {
        var kept := if deadline.Some? then Some(Stored(deadline.value)) else None;
        persisted := UpdateStatus(phase, currentVersion, targetVersion, promotedImage, kept);
      }
    }

    method SetIdle()
      modifies `phase, `targetVersion, `promotedImage, `deadline
      ensures Working() == Perform(old(Working()), GoIdle)
    {
      phase := Idle;
      targetVersion := "";
      promotedImage := "";
      deadline := None;
    }

    /** advanceRollout. `failed` is its error return: the rollback image could not be patched. */
    method AdvanceRollout(input: Inputs) returns (failed: bool)
      requires InRollout(Working()) && !input.readiness.ReadError?
      modifies `phase, `currentVersion, `targetVersion, `promotedImage, `deadline
      ensures failed ==> AdvanceMove(old(Working()), input) == Keep
      ensures !failed ==> Working() == InMemory(old(Working()), AdvanceMove(old(Working()), input))
    {
      failed := false;
      var minutes := if input.confirmationTimeoutMinutes <= 0 then DEFAULT_TIMEOUT_MINUTES
        else input.confirmationTimeoutMinutes;
      var timeout := Wrap64(minutes * MINUTE);
      if input.readiness.Replicas? && input.readiness.ready > 0 {
        if phase == Updating {
          phase := Confirming;
          if deadline.None? {
            deadline := Some(input.now + timeout);
          }
        }
        if phase == Confirming && deadline.Some? && input.now >= deadline.value {
          phase := Ready;
          currentVersion := targetVersion;
          targetVersion := "";
          promotedImage := "";
          deadline := None;
        }
        return;
      }
      if deadline.None? || input.now <= deadline.value {
        return;
      }
      if !input.imagePatched {
        return true;
      }
      phase := RolledBack;
      promotedImage := "";
      deadline := None;
    }

    method Reconcile(input: Inputs)
      requires RolloutInv(persisted)
      modifies this
      ensures persisted == After(old(persisted), input) && RolloutInv(persisted)
    {
      phase, currentVersion := persisted.phase, persisted.currentVersion;
      targetVersion, promotedImage, deadline := persisted.targetVersion, persisted.promotedImage, persisted.deadline;
      InvStep(persisted, input);
      if !input.enabled {
        SetIdle();
        Finish(input);
        return;
      }
      if input.readiness.ReadError? {
        return;
      }
      if phase == Updating || phase == Confirming {
        var failed := AdvanceRollout(input);
        if !failed {
          Finish(input);
        }
        return;
      }
      Poll(input);
    }

    /** Reconcile outside a rollout: look for a release to promote. */
    method Poll(input: Inputs)
      requires Working() == persisted && RolloutInv(persisted) && !InRollout(persisted)
      modifies this
      ensures persisted == if input.statusPatched then Perform(old(persisted), PollMove(old(persisted), input))
              else old(persisted)
    {
      if input.tags.None? {
        Finish(input);
        return;
      }
      var track := if input.track == "" then "latest" else input.track;
      var candidate, ok := PickVersion(input.tags.value, track);
      if !ok {
        Finish(input);
        return;
      }
      var current := currentVersion;
      if current == "" {
        current := VersionTag(input.specImage);
      }
      if candidate == targetVersion {
        Finish(input);
        return;
      }
      var order := CompareVersions(candidate, current);
      if order <= 0 {
        Finish(input);
        return;
      }
      Promote(candidate, input);
    }

    /** A newer release was found: promote it, unless the backup gate or the image patch stands in the way. */
    method Promote(candidate: string, input: Inputs)
      requires Working() == persisted && RolloutInv(persisted) && !InRollout(persisted)
      modifies this
      ensures persisted == if !input.statusPatched then old(persisted)
                           else if BackupGateBlocked(input) then Perform(old(persisted), AwaitBackup)
                           else if input.imagePatched then Perform(old(persisted), RolloutSpec.Promote(candidate))
                           else old(persisted)
    {
      if BackupGateBlocked(input) {
        phase := AwaitingBackup;
        Finish(input);
        return;
      }
      if !input.imagePatched {
        return;
      }
      phase := Updating;
      targetVersion := candidate;
      promotedImage := REPOSITORY + ":" + candidate;
      deadline := None;
      Finish(input);
    }
  }

  /** A move applied to the working copy, before a stored deadline loses its fraction of a second. */
  function InMemory(u: UpdateStatus, move: Move): UpdateStatus {
    if move.OpenWindow? then u.(phase := Confirming, deadline := Some(move.deadline)) else Perform(u, move)
  }

  /** What the store holds between reconciles. */
  predicate RolloutInv(u: UpdateStatus) {
    && (InRollout(u) ==>
          && IsPlain(u.targetVersion)
          && u.promotedImage == REPOSITORY + ":" + u.targetVersion
          && (u.currentVersion != "" ==> Newer(u.targetVersion, u.currentVersion)))
    && (!InRollout(u) ==> u.promotedImage == "")
    && (u.deadline.Some? <==> u.phase == Confirming)
    && (u.deadline.Some? ==> Stored(u.deadline.value) == u.deadline.value)
  }

  lemma InvStep(u: UpdateStatus, input: Inputs)
    requires RolloutInv(u)
    ensures RolloutInv(After(u, input))
  {
    match Effect(u, input)
    case Keep =>
    case GoIdle =>
    case AwaitBackup =>
    case Promote(version) => PromotesNewer(u, input, version);
    case OpenWindow(deadline) =>
    case Confirm =>
    case RollBack =>
  }

  /** Only a release newer than the confirmed one is promoted, and never during a rollout. */
  lemma PromotesNewer(u: UpdateStatus, input: Inputs, version: string)
    requires Decide(u, input) == Promote(version)
    ensures !InRollout(u) && IsPlain(version) && (u.currentVersion != "" ==> Newer(version, u.currentVersion))
  {
    PickIsGreatest(input.tags.value, TrackOrDefault(input.track));
  }

  // ---------------------------------------------------------------- runs

  predicate ReconcileAt(us: seq<UpdateStatus>, inputs: seq<Inputs>, i: nat)
    requires |us| == |inputs| + 1 && i < |inputs|
  {
    us[i + 1] == After(us[i], inputs[i])
  }

  /** The persisted statuses of a run of reconciles that starts from nothing. */
  ghost predicate IsRun(us: seq<UpdateStatus>, inputs: seq<Inputs>) {
    && |us| == |inputs| + 1 && us[0] == FreshStatus
    && forall i: nat :: i < |inputs| ==> ReconcileAt(us, inputs, i)
  }

  lemma {:induction false} InvAlways(us: seq<UpdateStatus>, inputs: seq<Inputs>, i: nat)
    requires IsRun(us, inputs) && i < |us|
    ensures RolloutInv(us[i])
  {
    if i > 0 {
      InvAlways(us, inputs, i - 1);
      assert ReconcileAt(us, inputs, i - 1);
      InvStep(us[i - 1], inputs[i - 1]);
    }
  }

  /** The confirmed version, once set, only ever moves to strictly newer releases. */
  lemma {:induction false} CurrentVersionOnlyGrows(us: seq<UpdateStatus>, inputs: seq<Inputs>, i: nat, j: nat)
    requires IsRun(us, inputs) && i <= j < |us| && us[i].currentVersion != ""
    ensures us[j].currentVersion == us[i].currentVersion || Newer(us[j].currentVersion, us[i].currentVersion)
    ensures us[j].currentVersion != ""
    decreases j
  {
    if i < j {
      CurrentVersionOnlyGrows(us, inputs, i, j - 1);
      InvAlways(us, inputs, j - 1);
      assert ReconcileAt(us, inputs, j - 1);
      CurrentVersionStep(us[j - 1], inputs[j - 1]);
      TotalPreorder(us[i].currentVersion, us[j - 1].currentVersion, us[j].currentVersion);
    }
  }

  lemma CurrentVersionStep(u: UpdateStatus, input: Inputs)
    requires RolloutInv(u) && u.currentVersion != ""
    ensures var v := After(u, input).currentVersion; v != "" && (v == u.currentVersion || Newer(v, u.currentVersion))
  {
    if Effect(u, input) == Confirm {
      assert InRollout(u);
    }
  }

  /** While a rollout stays active its target is fixed, and so is its deadline once there is one. */
  lemma {:induction false} DeadlineNeverMoves(us: seq<UpdateStatus>, inputs: seq<Inputs>, i: nat, j: nat)
    requires IsRun(us, inputs) && i <= j < |us|
    requires forall k :: i <= k <= j ==> InRollout(us[k])
    ensures us[j].targetVersion == us[i].targetVersion && us[j].promotedImage == us[i].promotedImage
    ensures us[i].deadline.Some? ==> us[j].deadline == us[i].deadline
    decreases j
  {
    if i < j {
      DeadlineNeverMoves(us, inputs, i, j - 1);
      InvAlways(us, inputs, j - 1);
      assert ReconcileAt(us, inputs, j - 1);
    }
  }

  /** The window opens at the first observed readiness, for the configured time, to the second. */
  lemma WindowOpensAtReadiness(us: seq<UpdateStatus>, inputs: seq<Inputs>, i: nat)
    requires IsRun(us, inputs) && i < |inputs| && us[i].deadline.None? && us[i + 1].deadline.Some?
    ensures us[i].phase == Updating && us[i + 1].phase == Confirming && ReportsReady(inputs[i])
    ensures us[i + 1].deadline == Some(Stored(inputs[i].now + Window(inputs[i].confirmationTimeoutMinutes)))
  {
    assert ReconcileAt(us, inputs, i);
  }

  /**
   A rollout ends in one of three ways: confirmed, ready at or after the
   deadline; rolled back, not ready strictly after it; or switched off.
   */
  lemma RolloutEnds(us: seq<UpdateStatus>, inputs: seq<Inputs>, i: nat)
    requires IsRun(us, inputs) && i < |inputs| && InRollout(us[i]) && !InRollout(us[i + 1])
    ensures inputs[i].enabled ==> Deadline(us[i], inputs[i]).Some?
    ensures var d := Deadline(us[i], inputs[i]); var u := us[i + 1];
            || (!inputs[i].enabled && u.phase == Idle && u.currentVersion == us[i].currentVersion)
            || (u.phase == Ready && u.currentVersion == us[i].targetVersion && ReportsReady(inputs[i]) && d.Some?
                && d.value <= inputs[i].now)
            || (u.phase == RolledBack && u.targetVersion == us[i].targetVersion
                && u.currentVersion == us[i].currentVersion
                && !ReportsReady(inputs[i]) && d.Some? && us[i].deadline == d && d.value < inputs[i].now)
  {
    assert ReconcileAt(us, inputs, i);
  }

  /** A reconcile that takes a promoted release out of Updating: switched off, or seen ready. */
  predicate LeavesUpdating(input: Inputs) {
    input.statusPatched && (!input.enabled || ReportsReady(input))
  }

  /**
   A promoted release stays in Updating exactly as long as it is never seen
   ready and auto-update stays on: before readiness no timeout rolls it back.
   */
  lemma {:induction false} WaitsForReadiness(us: seq<UpdateStatus>, inputs: seq<Inputs>, i: nat, j: nat)
    requires IsRun(us, inputs) && i <= j < |us| && us[i].phase == Updating
    ensures (forall k :: i <= k <= j ==> us[k].phase == Updating) <==>
            (forall k :: i <= k < j ==> !LeavesUpdating(inputs[k]))
    decreases j
  {
    if i < j {
      WaitsForReadiness(us, inputs, i, j - 1);
      InvAlways(us, inputs, j - 1);
      assert ReconcileAt(us, inputs, j - 1);
      if us[j - 1].phase == Updating {
        assert us[j].phase == Updating <==> !LeavesUpdating(inputs[j - 1]);
      }
    }
  }

  /**
   A rolled-back release is not promoted again unless, in between, another one
   was promoted or auto-update was switched off.
   */
  lemma RolledBackStaysOut(us: seq<UpdateStatus>, inputs: seq<Inputs>, i: nat, j: nat)
    requires IsRun(us, inputs) && i < j < |inputs| && Effect(us[i], inputs[i]) == RollBack
    requires forall k :: i < k < j ==> !Effect(us[k], inputs[k]).Promote? && !Effect(us[k], inputs[k]).GoIdle?
    ensures Effect(us[j], inputs[j]) != Promote(us[i].targetVersion)
  {
    TargetRemembered(us, inputs, i, j);
  }

  lemma {:induction false} TargetRemembered(us: seq<UpdateStatus>, inputs: seq<Inputs>, i: nat, j: nat)
    requires IsRun(us, inputs) && i < j < |us| && Effect(us[i], inputs[i]) == RollBack
    requires forall k :: i < k < j ==> !Effect(us[k], inputs[k]).Promote? && !Effect(us[k], inputs[k]).GoIdle?
    ensures us[j].targetVersion == us[i].targetVersion && !InRollout(us[j])
    decreases j
  {
    assert ReconcileAt(us, inputs, j - 1);
    if i < j - 1 {
      TargetRemembered(us, inputs, i, j - 1);
    }
  }

  /** While a rollout is active the workload renderer uses exactly the image of the target release. */
  lemma ActiveRolloutRunsItsTarget(us: seq<UpdateStatus>, inputs: seq<Inputs>, i: nat, specImage: string)
    requires IsRun(us, inputs) && i < |us| && InRollout(us[i])
    ensures EffectiveImage(us[i], specImage) == REPOSITORY + ":" + us[i].targetVersion
    ensures VersionTag(EffectiveImage(us[i], specImage)) == us[i].targetVersion
  {
    InvAlways(us, inputs, i);
    PlainHasNoColon(us[i].targetVersion);
    TagAfterColon(REPOSITORY, us[i].targetVersion);
  }

  lemma {:induction false} TagAfterColon(prefix: string, tag: string)
    requires ':' !in tag
    ensures VersionTag(prefix + ":" + tag) == tag
  {
    var image := prefix + ":" + tag;
    if prefix == [] {
      assert image[1..] == tag;
    } else {
      assert image[1..] == prefix[1..] + ":" + tag;
      assert image[1..][|prefix| - 1] == ':';
      TagAfterColon(prefix[1..], tag);
    }
  }

  lemma PlainHasNoColon(tag: string)
    requires IsPlain(tag)
    ensures ':' !in tag
  {
    PlainIsTheRegex(tag);
    var a, b, c :| IsDecimalPart(a) && IsDecimalPart(b) && IsDecimalPart(c) && tag == a + "." + (b + "." + c);
  }

  // ---------------------------------------------------------------- durations that overflow

  const LONGEST_WINDOW: int := 153_722_867  // minutes that fit a 64-bit duration

  /**
   The window is as long as configured exactly up to 153722867 minutes; beyond
   that the 64-bit product wraps and the window is always shorter than asked.
   */
  lemma WindowIsAsConfigured(minutes: int)
    requires 0 < minutes < 0x8000_0000
    ensures Window(minutes) == minutes * MINUTE <==> minutes <= LONGEST_WINDOW
    ensures minutes > LONGEST_WINDOW ==> Window(minutes) < minutes * MINUTE
  {
  }

  /**
   Between opening the window and confirming, the configured time passes,
   less at most the second lost in storage, when the configured time fits.
   */
  lemma ConfirmedNotBeforeWindow(us: seq<UpdateStatus>, inputs: seq<Inputs>, i: nat, j: nat)
    requires IsRun(us, inputs) && i < j < |inputs|
    requires us[i].deadline.None? && us[i + 1].deadline.Some?
    requires forall k :: i < k <= j ==> InRollout(us[k])
    requires Effect(us[j], inputs[j]) == Confirm && 0 < inputs[i].confirmationTimeoutMinutes <= LONGEST_WINDOW
    ensures inputs[j].now > inputs[i].now + inputs[i].confirmationTimeoutMinutes * MINUTE - SECOND
  {
    WindowOpensAtReadiness(us, inputs, i);
    DeadlineNeverMoves(us, inputs, i + 1, j);
    WindowIsAsConfigured(inputs[i].confirmationTimeoutMinutes);
  }

  /** One minute more than fits, and the first ready observation confirms at once. */
  lemma OverflowConfirmsAtOnce(u: UpdateStatus, input: Inputs)
    requires RolloutInv(u) && u.phase == Updating && input.enabled && input.readiness == Replicas(1)
    requires input.confirmationTimeoutMinutes == LONGEST_WINDOW + 1
    ensures Decide(u, input) == Confirm
  {
  }

  /** The settings, of all 32-bit numbers of minutes, whose window wraps to a time that is over when it starts. */
  predicate WrapsNegative(minutes: int) {
    || 153_722_868 <= minutes <= 307_445_734
    || 461_168_602 <= minutes <= 614_891_469
    || 768_614_337 <= minutes <= 922_337_203
    || 1_076_060_071 <= minutes <= 1_229_782_938
    || 1_383_505_806 <= minutes <= 1_537_228_672
    || 1_690_951_541 <= minutes <= 1_844_674_407
    || 1_998_397_275 <= minutes
  }

  lemma WindowSign(minutes: int)
    requires minutes < 0x8000_0000
    ensures Window(minutes) <= 0 <==> WrapsNegative(minutes)
  {
    if minutes > 0 {
      var turns := (minutes * MINUTE + TWO_63) / TWO_64;
      assert Window(minutes) == minutes * MINUTE - turns * TWO_64;
      assert 0 <= turns <= 7;
    }
  }

  /** A first ready observation confirms at once exactly for those settings. */
  lemma ConfirmsAtOnceIff(u: UpdateStatus, input: Inputs)
    requires RolloutInv(u) && u.phase == Updating && input.enabled && ReportsReady(input)
    requires input.confirmationTimeoutMinutes < 0x8000_0000
    ensures Decide(u, input) == Confirm <==> WrapsNegative(input.confirmationTimeoutMinutes)
  {
    WindowSign(input.confirmationTimeoutMinutes);
  }

  const LONGEST_BACKUP_AGE: int := 2_562_047  // hours that fit a 64-bit duration

  /** The gate decides about a snapshot taken at t as the configured age says. */
  predicate GateAsConfigured(input: Inputs, t: int) {
    BackupGateBlocked(input.(lastSnapshot := Some(t))) <==> input.now - t > input.maxBackupAgeHours * HOUR
  }

  /** A wrapped duration fits 64 bits, stays what it was if it fitted, and is even if it was. */
  lemma WrapKeeps(x: int, half: int)
    requires x == 2 * half
    ensures -TWO_63 <= Wrap64(x) <= TWO_63 - 2
    ensures -TWO_63 <= x < TWO_63 ==> Wrap64(x) == x
  {
    var turns := (x + TWO_63) / TWO_64;
    assert Wrap64(x) == 2 * (half - turns * TWO_63);
  }

  /** The backup gate follows the configured age for every snapshot exactly up to 2562047 hours. */
  lemma BackupGateIsAsConfigured(input: Inputs)
    requires input.requireFreshBackup && 0 < input.maxBackupAgeHours < 0x8000_0000
    ensures (forall t :: GateAsConfigured(input, t)) <==> input.maxBackupAgeHours <= LONGEST_BACKUP_AGE
  {
    WrapKeeps(input.maxBackupAgeHours * HOUR, input.maxBackupAgeHours * (HOUR / 2));
    if input.maxBackupAgeHours > LONGEST_BACKUP_AGE {
      // an age between the wrapped limit and the configured one
      var limit := MaxBackupAge(input.maxBackupAgeHours);
      assert !GateAsConfigured(input, input.now - if limit < 0 then 0 else limit + 1);
    }
  }

  /** With one hour more, even a snapshot taken this instant is too old. */
  lemma BackupGateOverflow(input: Inputs)
    requires input.requireFreshBackup && input.lastSnapshot == Some(input.now)
             && input.maxBackupAgeHours == LONGEST_BACKUP_AGE + 1
    ensures BackupGateBlocked(input)
  {
  }
}
