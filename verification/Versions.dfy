/**
 Release tags: parsing, ordering and the choice of a rollout candidate.
 */
module Versions {
  import opened Numerals
  import opened Text

  datatype Version = Unparsable | Version(major: int, minor: int, patch: int)

  predicate IsDecimalPart(s: string) {
    s != [] && AllDigits(s)
  }

  /** plainSemver, decided on the dot-separated parts. */
  predicate IsPlain(tag: string) {
    var parts := Split(tag, '.');
    |parts| == 3 && IsDecimalPart(parts[0]) && IsDecimalPart(parts[1]) && IsDecimalPart(parts[2])
  }

  /** The regular expression ^\d+\.\d+\.\d+$ read literally. */
  ghost predicate MatchesPlainSemver(tag: string) {
    exists a, b, c :: IsDecimalPart(a) && IsDecimalPart(b) && IsDecimalPart(c) && tag == a + "." + (b + "." + c)
  }

  lemma PlainIsTheRegex(tag: string)
    ensures IsPlain(tag) <==> MatchesPlainSemver(tag)
  {
    if IsPlain(tag) {
      var parts := Split(tag, '.');
      JoinSplit(tag, '.');
      assert parts[1..][1..] == [parts[2]];
      assert Join(parts[1..], '.') == parts[1] + "." + Join(parts[1..][1..], '.');
      assert tag == parts[0] + "." + (parts[1] + "." + parts[2]);
    }
    if MatchesPlainSemver(tag) {
      var a, b, c :| IsDecimalPart(a) && IsDecimalPart(b) && IsDecimalPart(c) && tag == a + "." + (b + "." + c);
      SplitConcat(a, b + "." + c, '.');
      SplitConcat(b, c, '.');
      SplitWithout(a, '.');
      SplitWithout(b, '.');
      SplitWithout(c, '.');
    }
  }

  /** The version a tag denotes: three integers, or nothing. */
  function Parse(tag: string): Version {
    var parts := Split(tag, '.');
    if |parts| != 3 then Unparsable
    else
      var a, b, c := Atoi(parts[0]), Atoi(parts[1]), Atoi(parts[2]);
      if a.Number? && b.Number? && c.Number? then Version(a.value, b.value, c.value) else Unparsable
  }

  /** parseVersion, part by part. */
  method ParseVersion(tag: string) returns (v: Version)
    ensures v == Parse(tag)
  {
    var out: seq<int> := [];
    var parts := Split(tag, '.');
    if |parts| != 3 {
      return Unparsable;
    }
    for i := 0 to 3
      invariant |out| == i
      invariant forall j :: 0 <= j < i ==> Atoi(parts[j]) == Number(out[j])
    {
      var n := Atoi(parts[i]);
      if n.NotANumber? {
        return Unparsable;
      }
      out := out + [n.value];
    }
    return Version(out[0], out[1], out[2]);
  }

  /** A release tag fails to parse exactly when one of its numbers overflows. */
  lemma PlainTagParses(tag: string)
    requires IsPlain(tag)
    ensures var parts := Split(tag, '.');
            Parse(tag).Version? <==>
              Decimal(parts[0]) <= MAX_INT && Decimal(parts[1]) <= MAX_INT && Decimal(parts[2]) <= MAX_INT
  {
    var parts := Split(tag, '.');
    assert !(parts[0][0] == '+' || parts[0][0] == '-') by { assert IsDigit(parts[0][0]); }
    assert !(parts[1][0] == '+' || parts[1][0] == '-') by { assert IsDigit(parts[1][0]); }
    assert !(parts[2][0] == '+' || parts[2][0] == '-') by { assert IsDigit(parts[2][0]); }
  }

  /** Strict version order: lexicographic on the numbers, with what does not parse below everything that does. */
  predicate Below(a: Version, b: Version) {
    && b.Version?
    && (a.Version? ==>
          || a.major < b.major
          || (a.major == b.major && a.minor < b.minor)
          || (a.major == b.major && a.minor == b.minor && a.patch < b.patch))
  }

  /** compareVersion. */
  method CompareVersions(a: string, b: string) returns (c: int)
    ensures c == Compare(a, b)
  {
    var av := ParseVersion(a);
    var bv := ParseVersion(b);
    if av.Unparsable? && bv.Unparsable? { return 0; }
    if av.Unparsable? { return -1; }
    if bv.Unparsable? { return 1; }
    var ours, theirs := [av.major, av.minor, av.patch], [bv.major, bv.minor, bv.patch];
    for i := 0 to 3
      invariant forall j :: 0 <= j < i ==> ours[j] == theirs[j]
    {
      if ours[i] != theirs[i] {
        assert i > 0 ==> ours[0] == theirs[0];
        assert i > 1 ==> ours[1] == theirs[1];
        if ours[i] > theirs[i] {
          return 1;
        }
        return -1;
      }
    }
    assert ours[0] == theirs[0] && ours[1] == theirs[1] && ours[2] == theirs[2];
    return 0;
  }

  /** What compareVersion answers: the sign of the order. */
  function Compare(a: string, b: string): int {
    if Below(Parse(b), Parse(a)) then 1 else if Below(Parse(a), Parse(b)) then -1 else 0
  }

  predicate Newer(a: string, b: string) {
    Compare(a, b) > 0
  }

  /** compareVersion is a total preorder, and ties are exactly the tags that denote the same version. */
  lemma TotalPreorder(a: string, b: string, c: string)
    ensures Compare(a, b) == -Compare(b, a)
    ensures Compare(a, b) <= 0 && Compare(b, c) <= 0 ==> Compare(a, c) <= 0
    ensures Newer(b, a) && Compare(b, c) <= 0 ==> Newer(c, a)
    ensures Compare(a, b) <= 0 && Newer(c, b) ==> Newer(c, a)
    ensures Compare(a, b) == 0 <==> Parse(a) == Parse(b)
    ensures Parse(a).Unparsable? ==> Compare(a, b) <= 0
  {
  }

  // ---------------------------------------------------------------- what a release tag denotes

  /** The tag of release a.b.c, as releases are named. */
  function Release(a: nat, b: nat, c: nat): string {
    Spelled(a) + "." + (Spelled(b) + "." + Spelled(c))
  }

  lemma ReleaseParts(a: nat, b: nat, c: nat)
    ensures Split(Release(a, b, c), '.') == [Spelled(a), Spelled(b), Spelled(c)] && IsPlain(Release(a, b, c))
  {
    ReadsSpelled(a);
    ReadsSpelled(b);
    ReadsSpelled(c);
    SplitConcat(Spelled(a), Spelled(b) + "." + Spelled(c), '.');
    SplitConcat(Spelled(b), Spelled(c), '.');
    SplitWithout(Spelled(a), '.');
    SplitWithout(Spelled(b), '.');
    SplitWithout(Spelled(c), '.');
  }

  lemma DigitsAtoi(s: string, n: nat)
    requires IsDecimalPart(s)
    ensures Atoi(s) == Number(n) <==> Says(s, n) && n <= MAX_INT
  {
    assert IsDigit(s[0]);
    AtoiExactly(s, n);
  }

  /** A plain tag parses to x.y.z exactly when its parts, read as decimal numerals, say so within 64 bits. */
  lemma ParsesExactly(tag: string, x: nat, y: nat, z: nat)
    requires IsPlain(tag)
    ensures var parts := Split(tag, '.');
            Parse(tag) == Version(x, y, z) <==>
            && Says(parts[0], x) && Says(parts[1], y) && Says(parts[2], z)
            && x <= MAX_INT && y <= MAX_INT && z <= MAX_INT
  {
    var parts := Split(tag, '.');
    DigitsAtoi(parts[0], x);
    DigitsAtoi(parts[1], y);
    DigitsAtoi(parts[2], z);
  }

  lemma ReleaseParses(a: nat, b: nat, c: nat)
    requires a <= MAX_INT && b <= MAX_INT && c <= MAX_INT
    ensures Parse(Release(a, b, c)) == Version(a, b, c)
  {
    ReleaseParts(a, b, c);
    assert Spelled(a) == Zeros(0) + Spelled(a) && Spelled(b) == Zeros(0) + Spelled(b)
           && Spelled(c) == Zeros(0) + Spelled(c);
    ParsesExactly(Release(a, b, c), a, b, c);
  }

  /** Releases are ordered by their numbers: major, then minor, then patch. */
  lemma NewerExactly(a: nat, b: nat, c: nat, x: nat, y: nat, z: nat)
    requires a <= MAX_INT && b <= MAX_INT && c <= MAX_INT && x <= MAX_INT && y <= MAX_INT && z <= MAX_INT
    ensures Newer(Release(a, b, c), Release(x, y, z)) <==> a > x || (a == x && (b > y || (b == y && c > z)))
    ensures Compare(Release(a, b, c), Release(x, y, z)) == 0 <==> a == x && b == y && c == z
  {
    ReleaseParses(a, b, c);
    ReleaseParses(x, y, z);
  }

  predicate Qualifies(tag: string, track: string) {
    IsPlain(tag) && (track == "latest" || track + "." <= tag)
  }

  datatype Choice = NoChoice | Choice(tag: string)

  /** The rollout candidate among the tags. */
  function Pick(tags: seq<string>, track: string): Choice {
    if tags == [] then NoChoice
    else
      var tag := tags[|tags| - 1];
      var best := Pick(tags[..|tags| - 1], track);
      if Qualifies(tag, track) && (best.NoChoice? || Newer(tag, best.tag)) then Choice(tag) else best
  }

  /** A qualifying tag that no other one beats. */
  ghost predicate Greatest(tags: seq<string>, track: string, best: string) {
    best in tags && Qualifies(best, track) && forall tag :: tag in tags && Qualifies(tag, track) ==>
      Compare(tag, best) <= 0
  }

  /** At place i stands `best`, strictly newer than every qualifying tag before it. */
  ghost predicate FirstAt(tags: seq<string>, track: string, best: string, i: nat) {
    && i < |tags| && tags[i] == best
    && forall j :: 0 <= j < i && Qualifies(tags[j], track) ==> Newer(best, tags[j])
  }

  /** The candidate is the first of the greatest qualifying tags; there is one exactly when some tag qualifies. */
  lemma {:induction false} PickIsGreatest(tags: seq<string>, track: string)
    ensures Pick(tags, track).Choice? <==> exists tag :: tag in tags && Qualifies(tag, track)
    ensures var best := Pick(tags, track);
            best.Choice? ==> Greatest(tags, track, best.tag) && exists i :: FirstAt(tags, track, best.tag, i)
  {
    if tags != [] {
      var init, last := tags[..|tags| - 1], tags[|tags| - 1];
      assert tags == init + [last];
      PickIsGreatest(init, track);
      var before, best := Pick(init, track), Pick(tags, track);
      if before.NoChoice? && best.Choice? {
        TotalPreorder(last, last, last);
        assert FirstAt(tags, track, last, |init|);
      } else if best.Choice? && best != before {
        LaterBeats(init, track, before.tag, last);
      } else if best.Choice? {
        EarlierStays(init, track, before.tag, last);
      }
    }
  }

  /** A newer last tag beats all that the best one so far was not beaten by. */
  lemma LaterBeats(init: seq<string>, track: string, before: string, last: string)
    requires Greatest(init, track, before) && Qualifies(last, track) && Newer(last, before)
    ensures Greatest(init + [last], track, last) && FirstAt(init + [last], track, last, |init|)
  {
    var tags := init + [last];
    forall tag | tag in init && Qualifies(tag, track) ensures Newer(last, tag) && Compare(tag, last) <= 0 {
      TotalPreorder(tag, before, last);
    }
    TotalPreorder(last, last, last);
    assert forall j :: 0 <= j < |init| ==> tags[j] in init;
  }

  lemma EarlierStays(init: seq<string>, track: string, before: string, last: string)
    requires Greatest(init, track, before) && (exists i :: FirstAt(init, track, before, i))
    requires Qualifies(last, track) ==> !Newer(last, before)
    ensures Greatest(init + [last], track, before) && exists i :: FirstAt(init + [last], track, before, i)
  {
    var i :| FirstAt(init, track, before, i);
    assert forall j :: 0 <= j <= i ==> (init + [last])[j] == init[j];
    assert FirstAt(init + [last], track, before, i);
  }

  lemma OneFirst(tags: seq<string>, track: string, a: string, i: nat, b: string, j: nat)
    requires Greatest(tags, track, a) && FirstAt(tags, track, a, i) && Greatest(tags, track, b)
             && FirstAt(tags, track, b, j)
    ensures a == b
  {
    assert Compare(a, b) <= 0 && Compare(b, a) <= 0;
    TotalPreorder(a, b, a);
    assert i < |tags| && tags[i] == a && j < |tags| && tags[j] == b;
  }

  /** The first of the greatest qualifying tags. */
  ghost predicate Best(tags: seq<string>, track: string, best: string) {
    Greatest(tags, track, best) && exists i: nat :: FirstAt(tags, track, best, i)
  }

  /** Exactly one tag is the first of the greatest, and that one is picked. */
  lemma PickExactly(tags: seq<string>, track: string, best: string)
    ensures Pick(tags, track) == Choice(best) <==> Best(tags, track, best)
  {
    PickIsGreatest(tags, track);
    if Best(tags, track, best) {
      var picked := Pick(tags, track).tag;
      var i: nat :| FirstAt(tags, track, best, i);
      var j: nat :| FirstAt(tags, track, picked, j);
      OneFirst(tags, track, best, i, picked, j);
    }
  }

  /** PickVersion. */
  method PickVersion(tags: seq<string>, track: string) returns (best: string, ok: bool)
    ensures ok <==> Pick(tags, track).Choice?
    ensures ok ==> best == Pick(tags, track).tag
  {
    best := "";
    for n := 0 to |tags|
      invariant Pick(tags[..n], track) == if best == "" then NoChoice else Choice(best)
    {
      assert tags[..n + 1][..n] == tags[..n];
      var tag := tags[n];
      if IsPlain(tag) && (track == "latest" || track + "." <= tag) {
        assert tag != "";
        var c := 1;
        if best != "" {
          c := CompareVersions(tag, best);
        }
        if best == "" || c > 0 {
          best := tag;
        }
      }
    }
    assert tags[..|tags|] == tags;
    ok := best != "";
  }

  /** A track such as 0.48 selects exactly the releases of that minor stream, and latest selects them all. */
  lemma TrackExactly(tag: string, track: string)
    requires IsPlain(tag) && (track == "latest" || |Split(track, '.')| == 2)
    ensures Qualifies(tag, track) <==> track == "latest" || Split(tag, '.')[..2] == Split(track, '.')
  {
    if track != "latest" {
      if track + "." <= tag {
        var rest := tag[|track| + 1..];
        assert tag == track + "." + rest;
        SplitConcat(track, rest, '.');
      }
      if Split(tag, '.')[..2] == Split(track, '.') {
        StreamPrefix(tag, track);
      }
    }
  }

  lemma StreamPrefix(tag: string, track: string)
    requires |Split(tag, '.')| == 3 && |Split(track, '.')| == 2 && Split(tag, '.')[..2] == Split(track, '.')
    ensures track + "." <= tag
  {
    var parts, stream := Split(tag, '.'), Split(track, '.');
    assert parts[0] == parts[..2][0] == stream[0] && parts[1] == parts[..2][1] == stream[1];
    JoinSplit(tag, '.');
    JoinSplit(track, '.');
    assert parts[1..][1..] == [parts[2]] && stream[1..] == [stream[1]];
    assert Join(parts[1..], '.') == parts[1] + "." + parts[2];
    assert track == stream[0] + "." + stream[1];
    assert tag == track + "." + parts[2];
  }
}
