/**
 Fitting a framebuffer capture into a byte budget, and the nearest-neighbour
 resampler it uses.
 */
module Screenshot {
  import opened Options
  import Numerals

  const MAX_DIMENSION: int := 4096
  const MAX_PIXELS: int := 4096 * 2160

  function Max(a: int, b: int): int {
    if a >= b then a else b
  }

  // ---------------------------------------------------------------- size guard

  /** The guard as written: a division, so that it cannot overflow. */
  predicate GuardAccepts(width: int, height: int) {
    0 < width <= MAX_DIMENSION && 0 < height <= MAX_DIMENSION && width <= MAX_PIXELS / height
  }

  lemma MulMonotone(a: int, b: int, c: int)
    requires a <= b && c >= 0
    ensures a * c <= b * c
  {
  }

  /** What integer division means: q fits into x/d exactly when q*d fits into x. */
  lemma FitsQuotient(q: int, x: int, d: int)
    requires d > 0
    ensures q <= x / d <==> q * d <= x
  {
    var k := x / d;
    assert x == k * d + x % d;
    if q <= k {
      MulMonotone(q, k, d);
    } else {
      MulMonotone(k + 1, q, d);
      assert (k + 1) * d == k * d + d;
    }
  }

  /** It admits exactly the framebuffers within the pixel budget. */
  lemma GuardIsTheProductBound(width: int, height: int)
    ensures GuardAccepts(width, height) <==>
            0 < width <= MAX_DIMENSION && 0 < height <= MAX_DIMENSION && width * height <= MAX_PIXELS
  {
    if height > 0 {
      FitsQuotient(width, MAX_PIXELS, height);
    }
  }

  // ---------------------------------------------------------------- the fit loop

  /** One encoding attempt. */
  datatype Attempt = Attempt(width: int, height: int, quality: int)

  /** The height that goes with a width, keeping the framebuffer's proportions. */
  function ScaledHeight(frameHeight: int, width: int, frameWidth: int): int
    requires frameWidth > 0
  {
    Max(1, frameHeight * width / frameWidth)
  }

  /** That height as a function of the width. */
  function Heights(frameWidth: int, frameHeight: int): int -> int
    requires frameWidth > 0
  {
    width => ScaledHeight(frameHeight, width, frameWidth)
  }

  function NextWidth(width: int): int {
    Max(320, width * 4 / 5)
  }

  /** The qualities tried at one size, best first. */
  function Qualities(width: int, height: int, quality: int): seq<Attempt>
    decreases quality
  {
    if quality <= 35 then [Attempt(width, height, quality)]
    else [Attempt(width, height, quality)] + Qualities(width, height, quality - 10)
  }

  /** Every attempt the loop may make, in order. */
  function Schedule(height: int -> int, width: int, quality: int): seq<Attempt>
    decreases width
  {
    var round := Qualities(width, height(width), quality);
    if width <= 320 then round else round + Schedule(height, NextWidth(width), 55)
  }

  function Start(frameWidth: int, maxWidth: int): int {
    if frameWidth > maxWidth then maxWidth else frameWidth
  }

  /** The attempts of one request. */
  function Attempts(frameWidth: int, frameHeight: int, maxWidth: int, quality: int): seq<Attempt>
    requires frameWidth > 0
  {
    Schedule(Heights(frameWidth, frameHeight), Start(frameWidth, maxWidth), quality)
  }

  lemma QuotientOfProduct(height: int, width: int)
    requires width > 0
    ensures height * width / width == height
  {
    FitsQuotient(height, height * width, width);
    FitsQuotient(height + 1, height * width, width);
    assert (height + 1) * width == height * width + width;
  }

  /**
   What an attempt gives: a number of bytes, or the end of it all because the
   deadline passed or the encoder failed.
   */
  datatype Encoded = Bytes(size: nat) | Aborted

  datatype Ending = NoneFits | Fits(attempt: Attempt) | Stops

  predicate TooBig(encoded: Encoded, maxBytes: int) {
    encoded.Bytes? && encoded.size > maxBytes
  }

  /** The loop ends after n attempts: at the first one that is not too big, or with all of them too big. */
  ghost predicate FirstFit(attempts: seq<Attempt>, encode: Attempt -> Encoded, maxBytes: int, ending: Ending, n: nat) {
    && n <= |attempts|
    && match ending
       case NoneFits => n == |attempts| && forall i :: 0 <= i < n ==> TooBig(encode(attempts[i]), maxBytes)
       case Fits(a) =>
         && 0 < n && a == attempts[n - 1] && encode(a).Bytes? && encode(a).size <= maxBytes
         && forall i :: 0 <= i < n - 1 ==> TooBig(encode(attempts[i]), maxBytes)
       case Stops =>
         && 0 < n && encode(attempts[n - 1]).Aborted?
         && forall i :: 0 <= i < n - 1 ==> TooBig(encode(attempts[i]), maxBytes)
  }

  lemma FirstFitAppend(xs: seq<Attempt>, ys: seq<Attempt>, encode: Attempt -> Encoded, maxBytes: int, ending: Ending,
                       n: nat, m: nat)
    requires FirstFit(xs, encode, maxBytes, NoneFits, n) && FirstFit(ys, encode, maxBytes, ending, m)
    ensures FirstFit(xs + ys, encode, maxBytes, ending, n + m)
  {
  }

  lemma FirstFitPrefix(xs: seq<Attempt>, ys: seq<Attempt>, encode: Attempt -> Encoded, maxBytes: int, ending: Ending,
                       n: nat)
    requires FirstFit(xs, encode, maxBytes, ending, n) && !ending.NoneFits?
    ensures FirstFit(xs + ys, encode, maxBytes, ending, n)
  {
  }

  /** What is left to try after one round. */
  function AfterRound(height: int -> int, width: int): seq<Attempt> {
    if width <= 320 then [] else Schedule(height, NextWidth(width), 55)
  }

  lemma RoundByRound(tried: seq<Attempt>, height: int -> int, width: int, quality: int)
    ensures tried + Schedule(height, width, quality) ==
            tried + Qualities(width, height(width), quality) + AfterRound(height, width)
  {
    OneRound(height, width, quality);
    Associative(tried, Qualities(width, height(width), quality), AfterRound(height, width));
  }

  lemma OneRound(height: int -> int, width: int, quality: int)
    ensures Schedule(height, width, quality) == Qualities(width, height(width), quality) + AfterRound(height, width)
  {
    var round := Qualities(width, height(width), quality);
    assert round + [] == round;
  }

  lemma Associative(a: seq<Attempt>, b: seq<Attempt>, c: seq<Attempt>)
    ensures a + (b + c) == a + b + c
  {
  }

  /** The inner loop: lower the quality until the size fits or 35 is passed. */
  method TryQualities(width: int, height: int, firstQuality: int, maxBytes: int, encode: Attempt -> Encoded)
    returns (ending: Ending, encodes: nat)
    ensures FirstFit(Qualities(width, height, firstQuality), encode, maxBytes, ending, encodes)
  {
    var quality := firstQuality;
    encodes := 0;
    ghost var tried: seq<Attempt> := [];
    while true
      invariant Qualities(width, height, firstQuality) == tried + Qualities(width, height, quality)
      invariant FirstFit(tried, encode, maxBytes, NoneFits, encodes)
      decreases quality
    {
      var attempt := Attempt(width, height, quality);
      var output := encode(attempt);
      encodes := encodes + 1;
      if output.Aborted? {
        return Stops, encodes;
      }
      if output.size <= maxBytes {
        return Fits(attempt), encodes;
      }
      tried := tried + [attempt];
      if quality <= 35 {
        return NoneFits, encodes;
      }
      quality := quality - 10;
    }
  }

  /** The outer loop: all qualities at one size, then a size four fifths as wide. */
  method TrySizes(heightOf: int -> int, firstWidth: int, firstQuality: int, maxBytes: int, encode: Attempt -> Encoded)
    returns (ending: Ending, encodes: nat)
    ensures FirstFit(Schedule(heightOf, firstWidth, firstQuality), encode, maxBytes, ending, encodes)
  {
    var width, height, quality := firstWidth, heightOf(firstWidth), firstQuality;
    encodes := 0;
    ghost var all := Schedule(heightOf, firstWidth, firstQuality);
    ghost var tried: seq<Attempt> := [];
    assert all == tried + Schedule(heightOf, width, quality);
    while true
      invariant height == heightOf(width)
      invariant all == tried + Schedule(heightOf, width, quality)
      invariant FirstFit(tried, encode, maxBytes, NoneFits, encodes)
      decreases width
    {
      var result, n := TryQualities(width, height, quality, maxBytes, encode);
      RoundByRound(tried, heightOf, width, quality);
      FirstFitAppend(tried, Qualities(width, height, quality), encode, maxBytes, result, encodes, n);
      encodes := encodes + n;
      tried := tried + Qualities(width, height, quality);
      if !result.NoneFits? {
        FirstFitPrefix(tried, AfterRound(heightOf, width), encode, maxBytes, result, encodes);
        return result, encodes;
      }
      if width <= 320 {
        assert all == tried;
        return NoneFits, encodes;
      }
      assert all == tried + Schedule(heightOf, NextWidth(width), 55);
      width := Max(320, width * 4 / 5);
      height := heightOf(width);
      quality := 55;
    }
  }

  // ---------------------------------------------------------------- the whole request

  datatype Query = Query(format: string, maxWidth: string, quality: string, maxBytes: string)

  datatype Size = Size(width: int, height: int)

  /** The uploaded PNG: its length, its header and whether the rest of it decodes. */
  datatype Source = Source(length: nat, header: Option<Size>, decodes: bool)

  datatype Outcome =
    | Stopped | TooLarge | Undecodable | InvalidQuery | CannotFit
    | PassedOn(size: Size)
    | Fitted(attempt: Attempt)

  const MAX_RAW_BYTES: int := 0x100_0000

  /** boundedInt: the fallback for an absent value, nothing for one that is no number or out of range. */
  function BoundedInt(raw: string, fallback: int, minimum: int, maximum: int): (value: Option<int>)
    ensures value.Some? && minimum <= fallback <= maximum ==> minimum <= value.value <= maximum
  {
    if raw == "" then Some(fallback)
    else
      var n := Numerals.Atoi(raw);
      if n.NotANumber? || n.value < minimum || n.value > maximum then None else Some(n.value)
  }

  /** The three numbers of a JPEG request: width limit, quality and byte budget. */
  datatype Limits = Limits(maxWidth: int, quality: int, maxBytes: int)

  predicate LimitsOk(l: Limits) {
    320 <= l.maxWidth <= 1600 && 30 <= l.quality <= 85 && 50_000 <= l.maxBytes <= 500_000
  }

  function ReadLimits(query: Query): (limits: Option<Limits>)
    ensures limits.Some? ==> LimitsOk(limits.value)
  {
    var width := BoundedInt(query.maxWidth, 1024, 320, 1600);
    var quality := BoundedInt(query.quality, 65, 30, 85);
    var bytes := BoundedInt(query.maxBytes, 180_000, 50_000, 500_000);
    if width.None? || quality.None? || bytes.None? then None else Some(Limits(width.value, quality.value, bytes.value))
  }

  /** One number of a query: the fallback if absent, and else the number the text writes, within its range. */
  ghost predicate Means(raw: string, fallback: int, minimum: int, maximum: int, v: int) {
    if raw == "" then v == fallback else Numerals.Writes(raw, v) && minimum <= v <= maximum
  }

  lemma BoundedIntExactly(raw: string, fallback: int, minimum: int, maximum: int, v: int)
    requires Numerals.MIN_INT <= minimum && maximum <= Numerals.MAX_INT
    ensures BoundedInt(raw, fallback, minimum, maximum) == Some(v) <==> Means(raw, fallback, minimum, maximum, v)
  {
    Numerals.AtoiExactly(raw, v);
  }

  /** The three numbers a query stands for, with their defaults and ranges. */
  lemma LimitsExactly(query: Query, l: Limits)
    ensures ReadLimits(query) == Some(l) <==>
            && Means(query.maxWidth, 1024, 320, 1600, l.maxWidth)
            && Means(query.quality, 65, 30, 85, l.quality)
            && Means(query.maxBytes, 180_000, 50_000, 500_000, l.maxBytes)
  {
    BoundedIntExactly(query.maxWidth, 1024, 320, 1600, l.maxWidth);
    BoundedIntExactly(query.quality, 65, 30, 85, l.quality);
    BoundedIntExactly(query.maxBytes, 180_000, 50_000, 500_000, l.maxBytes);
  }

  /** A frame of that size may be worked on. */
  predicate Admitted(source: Source) {
    source.length <= MAX_RAW_BYTES && source.header.Some?
      && GuardAccepts(source.header.value.width, source.header.value.height)
  }

  /**
   transformScreenshot, for any encoder and any deadline: `expired(i)` is the
   i-th look at the deadline before the loops, and an attempt is aborted when
   the deadline passes on its way or the encoder fails. A JPEG request gets the
   first attempt that fits, within thirty encodes, inside the framebuffer and
   the asked width; nothing is encoded for any other answer than the loop's.
   */
  method Fit(source: Source, query: Query, encode: Attempt -> Encoded, expired: nat -> bool)
    returns (outcome: Outcome, encodes: nat)
    ensures outcome.PassedOn? ==> Admitted(source) && outcome.size == source.header.value && query.format in {"", "png"}
    ensures !expired(0) ==> (outcome.TooLarge? <==>
              source.length > MAX_RAW_BYTES
              || (source.header.Some? && !GuardAccepts(source.header.value.width, source.header.value.height)))
    ensures outcome.Stopped? && encodes == 0 ==> expired(0) || expired(1) || expired(2)
    ensures outcome.InvalidQuery? ==>
            query.format !in {"", "png"} && (query.format != "jpeg" || ReadLimits(query).None?)
    ensures outcome.Undecodable? ==> source.header.None? || !source.decodes
    ensures !expired(0) && !expired(1) && !expired(2) && Admitted(source) && source.decodes ==>
              && (outcome.PassedOn? <==> query.format in {"", "png"})
              && (outcome.InvalidQuery? <==>
                  query.format !in {"", "png"} && (query.format != "jpeg" || ReadLimits(query).None?))
    ensures outcome.CannotFit? || outcome.Fitted? || encodes > 0 ==>
              && Admitted(source) && query.format == "jpeg" && ReadLimits(query).Some?
              && var Size(width, height) := source.header.value; var l := ReadLimits(query).value;
              && FirstFit(Attempts(width, height, l.maxWidth, l.quality), encode, l.maxBytes,
                          if outcome.Fitted? then Fits(outcome.attempt) else if outcome.CannotFit? then NoneFits
                            else Stops, encodes)
              && (outcome.Fitted? || outcome.CannotFit? || outcome.Stopped?)
    ensures encodes <= 30
    ensures outcome.Fitted? ==>
              && Admitted(source) && ReadLimits(query).Some?
              && var a := outcome.attempt; var Size(width, height) := source.header.value;
                 var l := ReadLimits(query).value;
              && encode(a).Bytes? && encode(a).size <= l.maxBytes
              && 1 <= a.width <= width && a.width <= l.maxWidth && 1 <= a.height <= height
  {
    encodes := 0;
    if expired(0) {
      return Stopped, 0;
    }
    if source.length > MAX_RAW_BYTES {
      return TooLarge, 0;
    }
    if source.header.None? {
      return Undecodable, 0;
    }
    var Size(frameWidth, frameHeight) := source.header.value;
    if !GuardAccepts(frameWidth, frameHeight) {
      return TooLarge, 0;
    }
    if expired(1) {
      return Stopped, 0;
    }
    if query.format == "" || query.format == "png" {
      return PassedOn(source.header.value), 0;
    }
    if query.format != "jpeg" || ReadLimits(query).None? {
      return InvalidQuery, 0;
    }
    var Limits(maxWidth, quality, maxBytes) := ReadLimits(query).value;
    if !source.decodes {
      return Undecodable, 0;
    }
    if expired(2) {
      return Stopped, 0;
    }
    FitIsBounded(frameWidth, frameHeight, maxWidth, quality);
    var width := if frameWidth > maxWidth then maxWidth else frameWidth;
    var ending, n := TrySizes(Heights(frameWidth, frameHeight), width, quality, maxBytes, encode);
    encodes := n;
    match ending
    case NoneFits => outcome := CannotFit;
    case Fits(attempt) => outcome := Fitted(attempt);
    case Stops => outcome := Stopped;
  }

  /** A framebuffer that needs no narrowing starts at its own height. */
  lemma UnscaledHeight(frameWidth: int, frameHeight: int)
    requires frameWidth > 0 && frameHeight > 0
    ensures Heights(frameWidth, frameHeight)(frameWidth) == frameHeight
  {
    QuotientOfProduct(frameHeight, frameWidth);
  }

  /** Sizes only shrink from the start, so every attempt stays inside the framebuffer and the width limit. */
  predicate InBounds(a: Attempt, frameWidth: int, frameHeight: int, width: int) {
    1 <= a.width <= frameWidth && a.width <= width && 1 <= a.height <= frameHeight
  }

  lemma ScaledHeightFits(frameHeight: int, width: int, frameWidth: int)
    requires 0 < width <= frameWidth && frameHeight > 0
    ensures 1 <= ScaledHeight(frameHeight, width, frameWidth) <= frameHeight
  {
    MulMonotone(width, frameWidth, frameHeight);
    FitsQuotient(frameHeight + 1, frameHeight * width, frameWidth);
    assert (frameHeight + 1) * frameWidth == frameHeight * frameWidth + frameWidth;
  }

  lemma {:induction false} QualitiesBound(width: int, height: int, quality: int)
    ensures forall a :: a in Qualities(width, height, quality) ==> a.width == width && a.height == height
    ensures |Qualities(width, height, quality)| >= 1
    ensures quality <= 85 ==> |Qualities(width, height, quality)| <= 6
    ensures quality <= 55 ==> |Qualities(width, height, quality)| <= 3
    decreases quality
  {
    if quality > 35 {
      QualitiesBound(width, height, quality - 10);
      if 55 < quality <= 85 {
        QualitiesCount(width, height, quality);
      }
    }
  }

  lemma {:induction false} QualitiesCount(width: int, height: int, quality: int)
    requires quality <= 85
    ensures |Qualities(width, height, quality)| <= if quality <= 35 then 1 else (quality - 35 + 9) / 10 + 1
    decreases quality
  {
    if quality > 35 {
      QualitiesCount(width, height, quality - 10);
    }
  }

  /** How many sizes are tried from a width down. */
  function Rounds(width: int): nat
    decreases width
  {
    if width <= 320 then 1 else 1 + Rounds(NextWidth(width))
  }

  lemma {:induction false} RoundsMonotone(a: int, b: int)
    requires a <= b
    ensures Rounds(a) <= Rounds(b)
    decreases b
  {
    if a > 320 {
      RoundsMonotone(NextWidth(a), NextWidth(b));
    }
  }

  lemma RoundsAtMostNine(width: int)
    requires width <= 1600
    ensures Rounds(width) <= 9
  {
    RoundsMonotone(width, 1600);
    assert NextWidth(1600) == 1280 && NextWidth(1280) == 1024 && NextWidth(1024) == 819 && NextWidth(819) == 655;
    assert NextWidth(655) == 524 && NextWidth(524) == 419 && NextWidth(419) == 335 && NextWidth(335) == 320;
    assert Rounds(419) == 3;
    assert Rounds(819) == 6;
    assert Rounds(1280) == 8;
  }

  lemma {:induction false} ScheduleBound(frameWidth: int, frameHeight: int, width: int, quality: int)
    requires 0 < width <= frameWidth && frameHeight > 0 && quality <= 85
    ensures forall a :: a in Schedule(Heights(frameWidth, frameHeight), width, quality) ==>
            InBounds(a, frameWidth, frameHeight, width)
    ensures |Schedule(Heights(frameWidth, frameHeight), width, quality)| <= 6 + 3 * (Rounds(width) - 1)
    ensures quality <= 55 ==> |Schedule(Heights(frameWidth, frameHeight), width, quality)| <= 3 * Rounds(width)
    decreases width
  {
    ScaledHeightFits(frameHeight, width, frameWidth);
    QualitiesBound(width, ScaledHeight(frameHeight, width, frameWidth), quality);
    if width > 320 {
      ScheduleBound(frameWidth, frameHeight, NextWidth(width), 55);
    }
  }

  /**
   Whatever the encoder does: at most thirty encodes, and a returned frame
   lies within the framebuffer and the requested width in both dimensions.
   */
  lemma FitIsBounded(frameWidth: int, frameHeight: int, maxWidth: int, quality: int)
    requires GuardAccepts(frameWidth, frameHeight) && 320 <= maxWidth <= 1600 && 30 <= quality <= 85
    ensures |Attempts(frameWidth, frameHeight, maxWidth, quality)| <= 30
    ensures forall a :: a in Attempts(frameWidth, frameHeight, maxWidth, quality) ==>
              1 <= a.width <= frameWidth && a.width <= maxWidth && 1 <= a.height <= frameHeight
  {
    var width := Start(frameWidth, maxWidth);
    ScheduleBound(frameWidth, frameHeight, width, quality);
    RoundsAtMostNine(width);
  }

  // ---------------------------------------------------------------- what is tried, in which order

  /** After an attempt comes the same size ten points lower, or past 35 the next size at quality 55. */
  predicate Follows(a: Attempt, b: Attempt) {
    if a.quality > 35 then b == Attempt(a.width, a.height, a.quality - 10)
    else a.width > 320 && b.quality == 55 && b.width == (if a.width * 4 / 5 > 320 then a.width * 4 / 5 else 320)
  }

  ghost predicate Chain(attempts: seq<Attempt>) {
    forall i :: 0 <= i < |attempts| - 1 ==> Follows(attempts[i], attempts[i + 1])
  }

  lemma {:induction false} QualitiesChain(width: int, height: int, quality: int)
    ensures var round := Qualities(width, height, quality);
            && |round| >= 1 && Chain(round) && round[0] == Attempt(width, height, quality)
            && round[|round| - 1].quality <= 35
            && forall i :: 0 <= i < |round| ==> round[i].width == width && round[i].height == height
    decreases quality
  {
    if quality > 35 {
      QualitiesChain(width, height, quality - 10);
    }
  }

  /**
   The whole schedule: from the asked size and quality down, each attempt after the
   one before, to width 320 and quality 35.
   */
  lemma {:induction false} ScheduleChain(height: int -> int, width: int, quality: int)
    ensures var all := Schedule(height, width, quality);
            && |all| >= 1 && Chain(all) && all[0] == Attempt(width, height(width), quality)
            && all[|all| - 1].width <= 320 && all[|all| - 1].quality <= 35
            && forall i :: 0 <= i < |all| ==> all[i].height == height(all[i].width)
    decreases width
  {
    var round := Qualities(width, height(width), quality);
    QualitiesChain(width, height(width), quality);
    if width > 320 {
      var rest := Schedule(height, NextWidth(width), 55);
      ScheduleChain(height, NextWidth(width), 55);
      ChainsJoin(round, rest);
    }
  }

  lemma ChainsJoin(a: seq<Attempt>, b: seq<Attempt>)
    requires |a| >= 1 && |b| >= 1 && Chain(a) && Chain(b) && Follows(a[|a| - 1], b[0])
    ensures Chain(a + b)
  {
    forall i | 0 <= i < |a + b| - 1 ensures Follows((a + b)[i], (a + b)[i + 1]) {
      if i >= |a| {
        assert Follows(b[i - |a|], b[i - |a| + 1]);
      }
    }
  }

  /** The height is the framebuffer's in proportion, rounded down, but at least one line. */
  predicate InProportion(a: Attempt, frameWidth: int, frameHeight: int) {
    || 0 <= frameHeight * a.width - a.height * frameWidth < frameWidth
    || (a.height == 1 && frameHeight * a.width < frameWidth)
  }

  lemma ScaledInProportion(frameHeight: int, width: int, frameWidth: int)
    requires 0 < frameWidth
    ensures var h := ScaledHeight(frameHeight, width, frameWidth);
            || 0 <= frameHeight * width - h * frameWidth < frameWidth
            || (h == 1 && frameHeight * width < frameWidth)
  {
    var x := frameHeight * width;
    var q := x / frameWidth;
    FitsQuotient(q, x, frameWidth);
    FitsQuotient(q + 1, x, frameWidth);
    FitsQuotient(1, x, frameWidth);
    assert (q + 1) * frameWidth == q * frameWidth + frameWidth;
  }

  /**
   What a request tries, exactly: it starts at the asked quality and the narrower
   width, goes on in order, and keeps the proportions.
   */
  lemma AttemptsExactly(frameWidth: int, frameHeight: int, maxWidth: int, quality: int)
    requires 0 < frameWidth
    ensures var all := Attempts(frameWidth, frameHeight, maxWidth, quality);
            && |all| >= 1 && Chain(all)
            && all[0].quality == quality && all[0].width == (if frameWidth <= maxWidth then frameWidth else maxWidth)
            && all[|all| - 1].width <= 320 && all[|all| - 1].quality <= 35
            && forall i :: 0 <= i < |all| ==> InProportion(all[i], frameWidth, frameHeight)
  {
    var all := Attempts(frameWidth, frameHeight, maxWidth, quality);
    ScheduleChain(Heights(frameWidth, frameHeight), Start(frameWidth, maxWidth), quality);
    forall i | 0 <= i < |all| ensures InProportion(all[i], frameWidth, frameHeight) {
      ScaledInProportion(frameHeight, all[i].width, frameWidth);
    }
  }

  /** The bound is tight: the widest request at the best quality can take all thirty. */
  lemma ThirtyIsReached()
    ensures |Attempts(1600, 900, 1600, 85)| == 30
  {
    assert NextWidth(1600) == 1280 && NextWidth(1280) == 1024 && NextWidth(1024) == 819 && NextWidth(819) == 655;
    assert NextWidth(655) == 524 && NextWidth(524) == 419 && NextWidth(419) == 335 && NextWidth(335) == 320;
    LowRound(1600, 900, 320);
    LowRound(1600, 900, 335);
    LowRound(1600, 900, 419);
    LowRound(1600, 900, 524);
    LowRound(1600, 900, 655);
    LowRound(1600, 900, 819);
    LowRound(1600, 900, 1024);
    LowRound(1600, 900, 1280);
    var h := ScaledHeight(900, 1600, 1600);
    assert |Qualities(1600, h, 55)| == 3;
    assert |Qualities(1600, h, 75)| == 5;
    assert |Qualities(1600, h, 85)| == 6;
  }

  lemma LowRound(frameWidth: int, frameHeight: int, width: int)
    requires frameWidth > 0
    ensures |Schedule(Heights(frameWidth, frameHeight), width, 55)| ==
            3 + if width <= 320 then 0 else |Schedule(Heights(frameWidth, frameHeight), NextWidth(width), 55)|
  {
    var h := ScaledHeight(frameHeight, width, frameWidth);
    assert |Qualities(width, h, 35)| == 1 && |Qualities(width, h, 45)| == 2;
  }

  // ---------------------------------------------------------------- nearest neighbour

  /** The source column (or row) of a destination column (or row). */
  function Nearest(i: int, source: int, target: int): int
    requires target > 0
  {
    i * source / target
  }

  lemma NearestInRange(i: int, source: int, target: int)
    requires 0 <= i < target && source > 0
    ensures 0 <= Nearest(i, source, target) < source
  {
    FitsQuotient(0, i * source, target);
    FitsQuotient(source, i * source, target);
    MulMonotone(i, target - 1, source);
    assert (target - 1) * source == source * target - source;
  }

  /** The map is the exact proportion, rounded down. */
  lemma NearestIsFloor(i: int, source: int, target: int)
    requires target > 0
    ensures Nearest(i, source, target) * target <= i * source < (Nearest(i, source, target) + 1) * target
  {
    var k := i * source / target;
    FitsQuotient(k, i * source, target);
    FitsQuotient(k + 1, i * source, target);
  }

  lemma NearestMonotone(i: int, j: int, source: int, target: int)
    requires 0 <= i <= j < target && source > 0
    ensures Nearest(i, source, target) <= Nearest(j, source, target)
  {
    MulMonotone(i, j, source);
    FitsQuotient(i * source / target, i * source, target);
    FitsQuotient(i * source / target, j * source, target);
  }

  /** Shrinking drops columns but never repeats one. */
  lemma NearestStrictWhenShrinking(i: int, j: int, source: int, target: int)
    requires 0 <= i < j < target <= source
    ensures Nearest(i, source, target) < Nearest(j, source, target)
  {
    var k := i * source / target;
    FitsQuotient(k, i * source, target);
    FitsQuotient(k + 1, j * source, target);
    MulMonotone(i + 1, j, source);
    assert (i + 1) * source == i * source + source && (k + 1) * target == k * target + target;
  }

  /** Enlarging repeats columns but skips none. */
  lemma NearestOntoWhenEnlarging(c: int, source: int, target: int) returns (i: int)
    requires 0 <= c < source <= target
    ensures 0 <= i < target && Nearest(i, source, target) == c
  {
    i := FirstAtOrPast(c * target, source);
    MulMonotone(c, source - 1, target);
    assert (source - 1) * target == source * target - target;
    FitsQuotient(c, i * source, target);
    FitsQuotient(c + 1, i * source, target);
    assert (c + 1) * target == c * target + target;
    if target <= i {
      MulMonotone(target, i, source);
    }
  }

  /** The first multiple of `step` at or past x. */
  lemma FirstAtOrPast(x: int, step: int) returns (i: int)
    requires 0 <= x && 0 < step
    ensures 0 <= i && x <= i * step < x + step
  {
    i := (x + step - 1) / step;
    FitsQuotient(i, x + step - 1, step);
    FitsQuotient(i + 1, x + step - 1, step);
    FitsQuotient(0, x + step - 1, step);
    assert (i + 1) * step == i * step + step;
  }

  lemma NearestIdentity(i: int, size: int)
    requires 0 <= i < size
    ensures Nearest(i, size, size) == i
  {
    FitsQuotient(i, i * size, size);
    FitsQuotient(i + 1, i * size, size);
    assert (i + 1) * size == i * size + size;
  }

  /** Destination row y carries the source row the map names, column by column up to `until`. */
  ghost predicate RowCopied<P(!new)>(source: (int, int) -> P, destination: array2<P>, column: nat -> int,
                                     row: nat -> int, y: nat, until: nat)
    requires y < destination.Length0 && until <= destination.Length1
    reads destination
  {
    forall x: nat :: x < until ==> destination[y, x] == source(column(x), row(y))
  }

  /** The resampling loops, for any row and column map; every sixteenth row asks whether the deadline has passed. */
  method Resample<P(0,!new)>(source: (int, int) -> P, column: nat -> int, row: nat -> int, width: nat, height: nat,
                             expired: nat -> bool)
    returns (destination: array2<P>, ok: bool)
    ensures destination.Length0 == height && destination.Length1 == width
    ensures ok <==> forall y: nat :: y < height && y % 16 == 0 ==> !expired(y)
    ensures ok ==> forall y: nat :: y < height ==> RowCopied(source, destination, column, row, y, width)
  {
    destination := new P[height, width];
    for y := 0 to height
      invariant forall z: nat :: z < y && z % 16 == 0 ==> !expired(z)
      invariant forall z: nat :: z < y ==> RowCopied(source, destination, column, row, z, width)
    {
      if y % 16 == 0 && expired(y) {
        return destination, false;
      }
      var sourceY := row(y);
      for x := 0 to width
        invariant forall z: nat :: z < y ==> RowCopied(source, destination, column, row, z, width)
        invariant RowCopied(source, destination, column, row, y, x)
      {
        label Before:
        destination[y, x] := source(column(x), sourceY);
        forall z: nat | z < y ensures RowCopied(source, destination, column, row, z, width) {
          assert old@Before(RowCopied(source, destination, column, row, z, width));
        }
      }
    }
    ok := true;
  }

  /** nearestNeighbor on a source image covering [minX, minX+dx) by [minY, minY+dy). */
  method NearestNeighbor<P(0,!new)>(source: (int, int) -> P, minX: int, minY: int, dx: nat, dy: nat, width: nat,
                                    height: nat, expired: nat -> bool)
    returns (destination: array2<P>, ok: bool)
    requires 0 < dx && 0 < dy
    ensures destination.Length0 == height && destination.Length1 == width
    ensures ok <==> forall y: nat :: y < height && y % 16 == 0 ==> !expired(y)
    ensures ok ==> forall x: nat, y: nat :: x < width && y < height ==>
            Sampled(source, destination, minX, minY, dx, dy, x, y)
  {
    var column := if width > 0 then Placed(minX, dx, width) else (i: nat) => minX;
    var row := if height > 0 then Placed(minY, dy, height) else (i: nat) => minY;
    destination, ok := Resample(source, column, row, width, height, expired);
    if ok {
      forall x: nat, y: nat | x < width && y < height
        ensures Sampled(source, destination, minX, minY, dx, dy, x, y)
      {
        PlacedInSpan(minX, dx, width, x);
        PlacedInSpan(minY, dy, height, y);
        assert RowCopied(source, destination, column, row, y, width);
      }
    }
  }

  /** Pixel (x, y) shows the source pixel the two axis maps name, and that pixel lies inside the source. */
  ghost predicate Sampled<P(!new)>(source: (int, int) -> P, destination: array2<P>, minX: int, minY: int, dx: nat,
                                   dy: nat, x: nat, y: nat)
    requires x < destination.Length1 && y < destination.Length0
    reads destination
  {
    var sx, sy := Place(minX, dx, destination.Length1, x), Place(minY, dy, destination.Length0, y);
    InSpan(sx, minX, dx) && InSpan(sy, minY, dy) && destination[y, x] == source(sx, sy)
  }

  /** Where a destination column or row reads from, on an axis that starts at `min`. */
  function Place(min: int, source: nat, target: nat, i: nat): int
    requires target > 0
  {
    min + Nearest(i, source, target)
  }

  function Placed(min: int, source: nat, target: nat): nat -> int
    requires target > 0
  {
    (i: nat) => Place(min, source, target, i)
  }

  predicate InSpan(v: int, min: int, extent: nat) {
    min <= v < min + extent
  }

  lemma PlacedInSpan(min: int, source: nat, target: nat, i: nat)
    requires i < target && source > 0
    ensures InSpan(Place(min, source, target, i), min, source)
            && Placed(min, source, target)(i) == Place(min, source, target, i)
  {
    NearestInRange(i, source, target);
  }
}
