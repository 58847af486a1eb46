/**
 What a reconcile decides, said without the controller's own functions: when a
 release is promoted, and how a rollout goes on.
 */
module RolloutDecisions {
  import opened Options
  import opened Versions
  import opened RolloutSpec
  import opened Rollout

  // ---------------------------------------------------------------- what a candidate must beat

  predicate Named(image: string, prefix: string, tag: string) {
    image == prefix + ":" + tag && ':' !in tag
  }

  /** What follows the last colon of an image reference, or all of it if it has none. */
  ghost predicate IsTagOf(image: string, tag: string) {
    (':' !in image && tag == image) || exists prefix :: Named(image, prefix, tag)
  }

  lemma {:induction false} TagWithoutColon(image: string)
    requires ':' !in image
    ensures VersionTag(image) == image
  {
    assert image != [] ==> ':' !in image[1..];
  }

  lemma NamedLonger(image: string, prefix: string, tag: string)
    requires image != [] && Named(image[1..], prefix, tag)
    ensures Named(image, [image[0]] + prefix, tag)
  {
    assert image == [image[0]] + (prefix + ":" + tag);
  }

  lemma {:induction false} VersionTagIsTag(image: string)
    ensures IsTagOf(image, VersionTag(image))
  {
    if ':' in image {
      if ':' in image[1..] {
        VersionTagIsTag(image[1..]);
        var prefix :| Named(image[1..], prefix, VersionTag(image[1..]));
        NamedLonger(image, prefix, VersionTag(image[1..]));
      } else {
        assert image == [] + ":" + image[1..];
        assert Named(image, [], image[1..]);
      }
    } else {
      TagWithoutColon(image);
    }
  }

  lemma VersionTagExactly(image: string, tag: string)
    ensures VersionTag(image) == tag <==> IsTagOf(image, tag)
  {
    VersionTagIsTag(image);
    if prefix :| Named(image, prefix, tag) {
      TagAfterColon(prefix, tag);
    } else if IsTagOf(image, tag) {
      TagWithoutColon(image);
    }
  }

  /** The confirmed version, or with none confirmed the one the spec's image names. */
  ghost predicate IsBase(u: UpdateStatus, specImage: string, base: string) {
    if u.currentVersion != "" then base == u.currentVersion else IsTagOf(specImage, base)
  }

  lemma BaselineExactly(u: UpdateStatus, input: Inputs, base: string)
    ensures Baseline(u, input) == base <==> IsBase(u, input.specImage, base)
  {
    VersionTagExactly(input.specImage, base);
  }

  ghost predicate BeatsBase(u: UpdateStatus, specImage: string, version: string) {
    exists base :: IsBase(u, specImage, base) && Newer(version, base)
  }

  lemma BeatsBaseExactly(u: UpdateStatus, input: Inputs, version: string)
    ensures BeatsBase(u, input.specImage, version) <==> Newer(version, Baseline(u, input))
  {
    BaselineExactly(u, input, Baseline(u, input));
    if base :| IsBase(u, input.specImage, base) && Newer(version, base) {
      BaselineExactly(u, input, base);
    }
  }

  // ---------------------------------------------------------------- promotion

  /** The first of the greatest releases on the track, newer than the base and not the one remembered as target. */
  ghost predicate Candidate(u: UpdateStatus, input: Inputs, best: string) {
    var track := if input.track == "" then "latest" else input.track;
    && input.tags.Some? && Best(input.tags.value, track, best)
    && best != u.targetVersion
    && BeatsBase(u, input.specImage, best)
  }

  lemma CandidateExactly(u: UpdateStatus, input: Inputs, best: string)
    ensures Candidate(u, input, best) <==>
            && input.tags.Some? && Pick(input.tags.value, TrackOrDefault(input.track)) == Choice(best)
            && best != u.targetVersion && Newer(best, Baseline(u, input))
  {
    if input.tags.Some? {
      PickExactly(input.tags.value, TrackOrDefault(input.track), best);
    }
    BeatsBaseExactly(u, input, best);
  }

  /** The gate is closed without a snapshot, or with one older than the configured age, 24 hours if none is. */
  lemma BackupGateExactly(input: Inputs)
    requires input.maxBackupAgeHours <= LONGEST_BACKUP_AGE
    ensures var hours := if input.maxBackupAgeHours <= 0 then 24 else input.maxBackupAgeHours;
            BackupGateBlocked(input) <==>
            input.requireFreshBackup &&
            (input.lastSnapshot.None? || input.now - input.lastSnapshot.value > hours * 3600 * 1_000_000_000)
  {
  }

  /**
   Outside a rollout: without a candidate nothing changes; with one the backup
   gate defers it, a refused image patch leaves everything, and else it is
   promoted with no deadline yet.
   */
  lemma PollExactly(u: UpdateStatus, input: Inputs)
    requires !InRollout(u) && input.enabled && input.statusPatched && !input.readiness.ReadError?
    ensures (forall best :: !Candidate(u, input, best)) ==> After(u, input) == u
    ensures forall best :: Candidate(u, input, best) ==>
              After(u, input) ==
              if BackupGateBlocked(input) then u.(phase := AwaitingBackup)
              else if !input.imagePatched then u
              else UpdateStatus(Updating, u.currentVersion, best, REPOSITORY + ":" + best, None)
  {
    forall best ensures Candidate(u, input, best) <==>
                        && input.tags.Some? && Pick(input.tags.value, TrackOrDefault(input.track)) == Choice(best)
                        && best != u.targetVersion && Newer(best, Baseline(u, input))
    {
      CandidateExactly(u, input, best);
    }
    if input.tags.Some? {
      var picked := Pick(input.tags.value, TrackOrDefault(input.track));
      assert picked.Choice? ==> picked == Choice(picked.tag);
    }
  }

  /**
   Over every run a rollout begins at a reconcile if and only if there is a
   candidate, auto-update is on, readiness could be read, the gate is open and
   both patches succeed; and it begins with that candidate.
   */
  lemma RolloutBeginsExactly(us: seq<UpdateStatus>, inputs: seq<Inputs>, i: nat)
    requires IsRun(us, inputs) && i < |inputs| && !InRollout(us[i])
    ensures InRollout(us[i + 1]) <==>
            && inputs[i].enabled && !inputs[i].readiness.ReadError? && !BackupGateBlocked(inputs[i])
            && inputs[i].imagePatched && inputs[i].statusPatched && exists best :: Candidate(us[i], inputs[i], best)
    ensures InRollout(us[i + 1]) ==> us[i + 1].phase == Updating && Candidate(us[i], inputs[i], us[i + 1].targetVersion)
  {
    assert ReconcileAt(us, inputs, i);
    if inputs[i].enabled && inputs[i].statusPatched && !inputs[i].readiness.ReadError? {
      PollExactly(us[i], inputs[i]);
    }
  }

  // ---------------------------------------------------------------- an active rollout

  /** Without a setting the window is a quarter of an hour. */
  lemma DefaultWindow(minutes: int)
    requires minutes <= 0
    ensures Window(minutes) == 15 * 60 * 1_000_000_000
  {
  }

  /** The time from which a ready workload confirms the rollout. */
  function Due(u: UpdateStatus, input: Inputs): int {
    if u.deadline.Some? then u.deadline.value
    else input.now + Window(input.confirmationTimeoutMinutes)
  }

  /**
   One reconcile of an active rollout, exactly: disabled it is forgotten; ready
   it is confirmed once due, or its window opens; not ready it is rolled back
   strictly after its deadline; else it stays as it is.
   */
  lemma AdvanceExactly(us: seq<UpdateStatus>, inputs: seq<Inputs>, i: nat)
    requires IsRun(us, inputs) && i < |inputs| && InRollout(us[i])
    ensures var u := us[i]; var input := inputs[i]; var due := Due(u, input);
            us[i + 1] ==
            if !input.statusPatched then u
            else if !input.enabled then UpdateStatus(Idle, u.currentVersion, "", "", None)
            else match input.readiness
              case ReadError => u
              case NoWorkload => NotReady(u, input)
              case Replicas(n) =>
                if n <= 0 then NotReady(u, input)
                else if input.now >= due then UpdateStatus(Ready, u.targetVersion, "", "", None)
                else if u.phase == Updating then u.(phase := Confirming, deadline := Some(due - due % 1_000_000_000))
                else u
  {
    InvAlways(us, inputs, i);
    assert ReconcileAt(us, inputs, i);
  }

  function NotReady(u: UpdateStatus, input: Inputs): UpdateStatus {
    if u.deadline.Some? && input.now > u.deadline.value && input.imagePatched
    then UpdateStatus(RolledBack, u.currentVersion, u.targetVersion, "", None)
    else u
  }

  /** Outside a rollout the workload runs the image of its spec. */
  lemma OutsideRolloutSpecImage(us: seq<UpdateStatus>, inputs: seq<Inputs>, i: nat, specImage: string)
    requires IsRun(us, inputs) && i < |us| && !InRollout(us[i])
    ensures EffectiveImage(us[i], specImage) == specImage
  {
    InvAlways(us, inputs, i);
  }

  /** Disabled, everything but the confirmed version is forgotten. */
  lemma DisabledForgets(us: seq<UpdateStatus>, inputs: seq<Inputs>, i: nat)
    requires IsRun(us, inputs) && i < |inputs| && !inputs[i].enabled && inputs[i].statusPatched
    ensures us[i + 1] == UpdateStatus(Idle, us[i].currentVersion, "", "", None)
  {
    assert ReconcileAt(us, inputs, i);
  }
}
