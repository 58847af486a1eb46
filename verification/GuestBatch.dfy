/**
 The Guest Desktop Agent's action batch: validate everything first, then apply
 in order until something fails.
 */
module GuestBatch {
  import opened Options
  import opened Text
  import opened Rounding

  const MAX_TEXT_CHARS := 4000
  const MAX_ACTIONS := 16
  const MAX_DELTA := 4000
  const MAX_KEY_CHARS := 80
  const SCROLL_STEP_PX := 120
  const MAX_SCROLL_STEPS := 40

  /** One decoded JSON value, as far as the agent tells them apart. */
  datatype Field = Missing | Int(value: int) | Text(text: string) | OtherValue

  datatype Raw =
    | NotAnObject
    | Object(kind: Field, x: Field, y: Field, button: Field, clicks: Field, text: Field, key: Field, deltaX: Field,
             deltaY: Field)

  datatype Actions = NotAList | List(items: seq<Raw>)

  datatype Geometry = Geometry(width: int, height: int)

  datatype Direction = Up | Down | Left | Right

  datatype Wheel = Wheel(direction: Direction, steps: nat)

  datatype Prepared =
    | Click(x: int, y: int, button: string, clicks: int)
    | TypeText(text: string)
    | PressKey(modifiers: seq<string>, key: string)
    | Scroll(x: int, y: int, wheels: seq<Wheel>)

  datatype Result<T> = Ok(value: T) | Err(status: int)

  predicate OnScreen(x: int, y: int, g: Geometry) {
    0 <= x < g.width && 0 <= y < g.height
  }

  /** _require_on_screen against the geometry of the batch, which is there whenever an action asks for it. */
  predicate InsideSampled(x: int, y: int, g: Option<Geometry>) {
    g.Some? && OnScreen(x, y, g.value)
  }

  predicate IntIn(f: Field, low: int, high: int) {
    f.Int? && low <= f.value <= high
  }

  function PrepareClick(raw: Raw, g: Option<Geometry>): Result<Prepared>
    requires raw.Object?
  {
    if !raw.x.Int? || raw.x.value < 0 || !raw.y.Int? || raw.y.value < 0 then Err(400)
    else if raw.button !in {Text("left"), Text("middle"), Text("right")} then Err(400)
    else
      var clicks := if raw.clicks.Missing? then Int(1) else raw.clicks;
      if !IntIn(clicks, 1, 2) then Err(400)
      else if !InsideSampled(raw.x.value, raw.y.value, g) then Err(400)
      else Ok(Click(raw.x.value, raw.y.value, raw.button.text, clicks.value))
  }

  function PrepareType(raw: Raw): Result<Prepared>
    requires raw.Object?
  {
    if !raw.text.Text? || raw.text.text == "" || |raw.text.text| > MAX_TEXT_CHARS then Err(400)
    else Ok(TypeText(raw.text.text))
  }

  predicate KeyChar(c: char) {
    'A' <= c <= 'Z' || 'a' <= c <= 'z' || '0' <= c <= '9' || c == '+' || c == '_' || c == '-'
  }

  /** KEY_SPEC_RE.match: in Python, `$` also matches before one final newline. */
  predicate MatchesKeySpec(s: string) {
    KeyBody(s) != [] && AllKeyChars(KeyBody(s))
  }

  function KeyBody(s: string): string {
    if s != [] && s[|s| - 1] == '\n' then s[..|s| - 1] else s
  }

  predicate AllKeyChars(s: string) {
    forall i :: 0 <= i < |s| ==> KeyChar(s[i])
  }

  /** The canonical name of a token, for any alias table. */
  function Canonical(aliases: map<string, string>, token: string, fallback: string): string {
    if Lower(token) in aliases then aliases[Lower(token)] else fallback
  }

  /** Both alias tables together. */
  datatype Aliases = Aliases(modifiers: map<string, string>, keys: map<string, string>)

  function PrepareKey(raw: Raw, aliases: Aliases): Result<Prepared>
    requires raw.Object?
  {
    if !raw.key.Text? || |raw.key.text| > MAX_KEY_CHARS || !MatchesKeySpec(raw.key.text) then Err(400)
    else
      var tokens := Split(raw.key.text, '+');
      if "" in tokens then Err(400)
      else
        var last := tokens[|tokens| - 1];
        Ok(PressKey(seq(|tokens| - 1, i requires 0 <= i < |tokens| - 1 =>
                        Canonical(aliases.modifiers, tokens[i], Lower(tokens[i]))),
                    Canonical(aliases.keys, last, last)))
  }

  function Abs(x: int): nat {
    if x < 0 then -x else x
  }

  /** _wheel_steps. */
  function WheelSteps(delta: int): nat {
    var steps := RoundHalfEven(Abs(delta), SCROLL_STEP_PX);
    var capped := if steps < MAX_SCROLL_STEPS then steps else MAX_SCROLL_STEPS;
    if capped < 1 then 1 else capped
  }

  /** One wheel for a distance along an axis, none for no distance. */
  function Turns(delta: int, positive: Direction, negative: Direction): seq<Wheel> {
    if delta == 0 then [] else [Wheel(if delta > 0 then positive else negative, WheelSteps(delta))]
  }

  function PrepareScroll(raw: Raw, g: Option<Geometry>): Result<Prepared>
    requires raw.Object?
  {
    if !raw.x.Int? || raw.x.value < 0 || !raw.y.Int? || raw.y.value < 0 then Err(400)
    else if !IntIn(raw.deltaX, -MAX_DELTA, MAX_DELTA) || !IntIn(raw.deltaY, -MAX_DELTA, MAX_DELTA) then Err(400)
    else if !InsideSampled(raw.x.value, raw.y.value, g) then Err(400)
    else
      Ok(Scroll(raw.x.value, raw.y.value, Turns(raw.deltaY.value, Down, Up) + Turns(raw.deltaX.value, Right, Left)))
  }

  predicate IsKind(raw: Raw, kind: string) {
    raw.Object? && raw.kind == Text(kind)
  }

  /** _prepare_batch_action. */
  function PrepareOne(raw: Raw, g: Option<Geometry>, aliases: Aliases): Result<Prepared> {
    if IsKind(raw, "click") then PrepareClick(raw, g)
    else if IsKind(raw, "type") then PrepareType(raw)
    else if IsKind(raw, "key") then PrepareKey(raw, aliases)
    else if IsKind(raw, "scroll") then PrepareScroll(raw, g)
    else Err(400)
  }

  function TextChars(raw: Raw): nat {
    if IsKind(raw, "type") && raw.text.Text? then |raw.text.text| else 0
  }

  function TotalText(items: seq<Raw>): nat {
    if items == [] then 0 else TextChars(items[0]) + TotalText(items[1..])
  }

  predicate NeedsGeometry(items: seq<Raw>) {
    exists i :: 0 <= i < |items| && (IsKind(items[i], "click") || IsKind(items[i], "scroll"))
  }

  /**
   Everything that happens before the first action; `sampled` is the backend's
   geometry, unless asking for it raises.
   */
  function PrepareBatch(actions: Actions, sampled: Option<Geometry>, aliases: Aliases): Result<seq<Prepared>> {
    if actions.NotAList? || |actions.items| < 1 || |actions.items| > MAX_ACTIONS then Err(400)
    else if TotalText(actions.items) > MAX_TEXT_CHARS then Err(400)
    else if NeedsGeometry(actions.items) && sampled.None? then Err(500)
    else PrepareAll(actions.items, if NeedsGeometry(actions.items) then sampled else None, aliases)
  }

  function PrepareAll(items: seq<Raw>, g: Option<Geometry>, aliases: Aliases): Result<seq<Prepared>> {
    if items == [] then Ok([])
    else
      var first := PrepareOne(items[0], g, aliases);
      if first.Err? then Err(first.status)
      else
        var rest := PrepareAll(items[1..], g, aliases);
        if rest.Err? then rest else Ok([first.value] + rest.value)
  }

  // ---------------------------------------------------------------- what a prepared batch looks like

  lemma {:induction false} PreparedOneByOne(items: seq<Raw>, g: Option<Geometry>, aliases: Aliases)
    ensures var r := PrepareAll(items, g, aliases);
            if r.Ok? then |r.value| == |items| && forall i :: 0 <= i < |items| ==>
              PrepareOne(items[i], g, aliases) == Ok(r.value[i])
            else exists i :: 0 <= i < |items| && PrepareOne(items[i], g, aliases) == Err(r.status)
  {
    if items != [] {
      PreparedOneByOne(items[1..], g, aliases);
      var rest := PrepareAll(items[1..], g, aliases);
      if PrepareOne(items[0], g, aliases).Ok? && rest.Err? {
        var i :| 0 <= i < |items[1..]| && PrepareOne(items[1..][i], g, aliases) == Err(rest.status);
        assert items[i + 1] == items[1..][i];
      }
    }
  }

  function PreparedChars(p: Prepared): nat {
    if p.TypeText? then |p.text| else 0
  }

  function TotalPrepared(ps: seq<Prepared>): nat {
    if ps == [] then 0 else PreparedChars(ps[0]) + TotalPrepared(ps[1..])
  }

  lemma OneKeepsText(raw: Raw, g: Option<Geometry>, aliases: Aliases)
    requires PrepareOne(raw, g, aliases).Ok?
    ensures PreparedChars(PrepareOne(raw, g, aliases).value) == TextChars(raw)
  {
    assert "click" != "type" && "key" != "type" && "scroll" != "type";
  }

  lemma {:induction false} TextIsKept(items: seq<Raw>, g: Option<Geometry>, aliases: Aliases)
    requires PrepareAll(items, g, aliases).Ok?
    ensures TotalPrepared(PrepareAll(items, g, aliases).value) == TotalText(items)
  {
    if items != [] {
      OneKeepsText(items[0], g, aliases);
      TextIsKept(items[1..], g, aliases);
      var first, rest := PrepareOne(items[0], g, aliases).value, PrepareAll(items[1..], g, aliases).value;
      assert ([first] + rest)[1..] == rest;
    }
  }

  predicate WellPrepared(p: Prepared, g: Option<Geometry>) {
    match p
    case Click(x, y, button, clicks) =>
      InsideSampled(x, y, g) && button in {"left", "middle", "right"} && 1 <= clicks <= 2
    case TypeText(text) => 1 <= |text| <= MAX_TEXT_CHARS
    case PressKey(_, _) => true
    case Scroll(x, y, wheels) =>
      InsideSampled(x, y, g) && |wheels| <= 2 && forall w :: w in wheels ==> 1 <= w.steps <= 33
  }

  /** A wheel turns between 1 and 33 steps: the cap of 40 is never reached within the allowed distance. */
  lemma WheelStepsBound(delta: int)
    requires -MAX_DELTA <= delta <= MAX_DELTA
    ensures 1 <= WheelSteps(delta) <= 33
  {
    RoundMonotone(Abs(delta), MAX_DELTA, SCROLL_STEP_PX);
    assert RoundHalfEven(4000, 120) == 33;
  }

  lemma OneIsWell(raw: Raw, g: Option<Geometry>, aliases: Aliases)
    requires PrepareOne(raw, g, aliases).Ok?
    ensures WellPrepared(PrepareOne(raw, g, aliases).value, g)
  {
    if PrepareOne(raw, g, aliases).value.Scroll? {
      if raw.deltaX.Int? && -MAX_DELTA <= raw.deltaX.value <= MAX_DELTA { WheelStepsBound(raw.deltaX.value); }
      if raw.deltaY.Int? && -MAX_DELTA <= raw.deltaY.value <= MAX_DELTA { WheelStepsBound(raw.deltaY.value); }
    }
  }

  // ---------------------------------------------------------------- what is accepted, and what it means

  /** A whole number of pixels on the axis. */
  predicate Coordinate(f: Field, extent: int) {
    f.Int? && 0 <= f.value < extent
  }

  /** The text is these key characters, and possibly a newline behind them. */
  ghost predicate IsKeySpec(s: string, body: string) {
    body != "" && (s == body || s == body + "\n") && OnlyKeyChars(body)
  }

  /** One or more letters, digits, plus signs, underscores or dashes, and possibly a newline behind them. */
  lemma KeySpecExactly(s: string)
    ensures MatchesKeySpec(s) <==> exists body :: IsKeySpec(s, body)
  {
    var body := KeyBody(s);
    assert s == body || s == body + "\n";
    KeyCharsExactly(body);
    if MatchesKeySpec(s) {
      assert IsKeySpec(s, body);
    }
    if b :| IsKeySpec(s, b) {
      assert b[|b| - 1] != '\n';
      assert b == body;
    }
  }

  lemma KeyCharsExactly(s: string)
    ensures OnlyKeyChars(s) <==> AllKeyChars(s)
  {
    if AllKeyChars(s) {
      forall i | 0 <= i < |s|
        ensures 'A' <= s[i] <= 'Z' || 'a' <= s[i] <= 'z' || '0' <= s[i] <= '9' || s[i] in {'+', '_', '-'}
      {
        assert KeyChar(s[i]);
      }
    }
  }

  predicate OnlyKeyChars(s: string) {
    forall i :: 0 <= i < |s| ==>
      'A' <= s[i] <= 'Z' || 'a' <= s[i] <= 'z' || '0' <= s[i] <= '9' || s[i] in {'+', '_', '-'}
  }

  /** Non-empty names joined by plus signs. */
  ghost predicate Spells(text: string, tokens: seq<string>) {
    && |tokens| >= 1 && Join(tokens, '+') == text
    && forall i :: 0 <= i < |tokens| ==> tokens[i] != "" && '+' !in tokens[i]
  }

  /** The schema of an acceptable action. */
  ghost predicate Acceptable(raw: Raw, g: Option<Geometry>) {
    && raw.Object?
    && ( || (raw.kind == Text("click") && g.Some? && Coordinate(raw.x, g.value.width)
             && Coordinate(raw.y, g.value.height)
             && (raw.button == Text("left") || raw.button == Text("middle") || raw.button == Text("right"))
             && (raw.clicks == Missing || raw.clicks == Int(1) || raw.clicks == Int(2)))
         || (raw.kind == Text("scroll") && g.Some? && Coordinate(raw.x, g.value.width)
             && Coordinate(raw.y, g.value.height)
             && raw.deltaX.Int? && raw.deltaY.Int? && Abs(raw.deltaX.value) <= MAX_DELTA
                && Abs(raw.deltaY.value) <= MAX_DELTA)
         || (raw.kind == Text("type") && raw.text.Text? && 1 <= |raw.text.text| <= MAX_TEXT_CHARS)
         || (raw.kind == Text("key") && raw.key.Text? && |raw.key.text| <= MAX_KEY_CHARS && MatchesKeySpec(raw.key.text)
             && exists tokens :: Spells(raw.key.text, tokens)))
  }

  /** How far a list of wheels scrolls right and down, in steps. */
  function Net(wheels: seq<Wheel>): (int, int) {
    if wheels == [] then (0, 0)
    else
      var (x, y) := Net(wheels[1..]);
      var Wheel(direction, steps) := wheels[0];
      match direction
      case Right => (x + steps, y)
      case Left => (x - steps, y)
      case Down => (x, y + steps)
      case Up => (x, y - steps)
  }

  /** The number of steps nearest to a distance, in its direction and never zero for a distance that is not. */
  predicate NearestSteps(steps: int, delta: int) {
    && (steps == 0 <==> delta == 0) && (steps > 0 <==> delta > 0)
    && (-SCROLL_STEP_PX <= 2 * (SCROLL_STEP_PX * steps - delta) <= SCROLL_STEP_PX
        || (Abs(steps) == 1 && 2 * Abs(delta) < SCROLL_STEP_PX))
  }

  /** The last token is the key, the ones before it its modifiers, each under its canonical name. */
  predicate Resolves(tokens: seq<string>, modifiers: seq<string>, key: string, aliases: Aliases) {
    && |tokens| == |modifiers| + 1
    && (forall i :: 0 <= i < |modifiers| ==> modifiers[i] == Canonical(aliases.modifiers, tokens[i], Lower(tokens[i])))
    && key == Canonical(aliases.keys, tokens[|modifiers|], tokens[|modifiers|])
  }

  /** The prepared action asks for what the decoded one asked for. */
  ghost predicate Means(p: Prepared, raw: Raw, aliases: Aliases)
    requires raw.Object?
  {
    match p
    case Click(x, y, button, clicks) =>
      && raw.kind == Text("click") && raw.x == Int(x) && raw.y == Int(y) && raw.button == Text(button)
      && (raw.clicks == Int(clicks) || (raw.clicks == Missing && clicks == 1))
    case TypeText(text) => raw.kind == Text("type") && raw.text == Text(text)
    case PressKey(modifiers, key) =>
      && raw.kind == Text("key") && raw.key.Text?
      && exists tokens :: Spells(raw.key.text, tokens) && Resolves(tokens, modifiers, key, aliases)
    case Scroll(x, y, wheels) =>
      && raw.kind == Text("scroll") && raw.x == Int(x) && raw.y == Int(y) && raw.deltaX.Int? && raw.deltaY.Int?
      && NearestSteps(Net(wheels).0, raw.deltaX.value) && NearestSteps(Net(wheels).1, raw.deltaY.value)
  }

  /** The only way to spell a key is its split at the plus signs. */
  lemma SpelledBySplit(text: string, tokens: seq<string>)
    ensures Spells(text, tokens) <==> tokens == Split(text, '+') && "" !in tokens
  {
    if Spells(text, tokens) {
      SplitJoin(tokens, '+');
    }
    if tokens == Split(text, '+') && "" !in tokens {
      JoinSplit(text, '+');
      PartsWithoutSeparator(text, '+');
    }
  }

  lemma KeyMeans(raw: Raw, aliases: Aliases)
    requires IsKind(raw, "key")
    ensures PrepareKey(raw, aliases).Ok? <==>
            raw.key.Text? && |raw.key.text| <= MAX_KEY_CHARS && MatchesKeySpec(raw.key.text)
              && exists tokens :: Spells(raw.key.text, tokens)
    ensures PrepareKey(raw, aliases).Ok? ==> Means(PrepareKey(raw, aliases).value, raw, aliases)
  {
    if raw.key.Text? {
      SpellableIff(raw.key.text);
    }
    if PrepareKey(raw, aliases).Ok? {
      KeyResolves(raw, aliases);
    }
  }

  lemma KeyResolves(raw: Raw, aliases: Aliases)
    requires raw.Object? && PrepareKey(raw, aliases).Ok?
    ensures var p := PrepareKey(raw, aliases).value;
            p.PressKey? && Resolves(Split(raw.key.text, '+'), p.modifiers, p.key, aliases)
  {
  }

  lemma SpellableIff(text: string)
    ensures (exists tokens :: Spells(text, tokens)) <==> "" !in Split(text, '+')
    ensures "" !in Split(text, '+') ==> Spells(text, Split(text, '+'))
  {
    SpelledBySplit(text, Split(text, '+'));
    if tokens :| Spells(text, tokens) {
      SpelledBySplit(text, tokens);
    }
  }

  function SignedSteps(delta: int): int {
    if delta == 0 then 0 else if delta > 0 then WheelSteps(delta) else 0 - WheelSteps(delta)
  }

  lemma StepsAreNearest(delta: int)
    requires Abs(delta) <= MAX_DELTA
    ensures NearestSteps(SignedSteps(delta), delta)
  {
    WheelStepsBound(delta);
    RoundIsNearest(Abs(delta), SCROLL_STEP_PX);
    RoundMonotone(Abs(delta), MAX_DELTA, SCROLL_STEP_PX);
    assert RoundHalfEven(4000, 120) == 33;
  }

  lemma NetOfTurns(dx: int, dy: int)
    ensures Net(Turns(dy, Down, Up) + Turns(dx, Right, Left)) == (SignedSteps(dx), SignedSteps(dy))
  {
    var vertical, horizontal := Turns(dy, Down, Up), Turns(dx, Right, Left);
    assert Net(horizontal) == (SignedSteps(dx), 0) by {
      assert dx != 0 ==> horizontal[1..] == [];
    }
    if dy == 0 {
      assert vertical + horizontal == horizontal;
    } else {
      assert (vertical + horizontal)[1..] == horizontal && (vertical + horizontal)[0] == vertical[0];
    }
  }

  lemma ScrollMeans(raw: Raw, g: Option<Geometry>, aliases: Aliases)
    requires IsKind(raw, "scroll") && PrepareScroll(raw, g).Ok?
    ensures Means(PrepareScroll(raw, g).value, raw, aliases)
  {
    NetOfTurns(raw.deltaX.value, raw.deltaY.value);
    StepsAreNearest(raw.deltaX.value);
    StepsAreNearest(raw.deltaY.value);
  }

  /** An action is accepted exactly when it fits the schema, and is then prepared to mean the same. */
  lemma PreparedExactly(raw: Raw, g: Option<Geometry>, aliases: Aliases)
    ensures PrepareOne(raw, g, aliases).Ok? <==> Acceptable(raw, g)
    ensures PrepareOne(raw, g, aliases).Ok? ==> Means(PrepareOne(raw, g, aliases).value, raw, aliases)
  {
    assert "click" != "type" && "click" != "key" && "click" != "scroll" && "type" != "key" && "type" != "scroll"
           && "key" != "scroll";
    if IsKind(raw, "key") {
      KeyMeans(raw, aliases);
    } else if IsKind(raw, "scroll") && PrepareScroll(raw, g).Ok? {
      ScrollMeans(raw, g, aliases);
    }
  }

  /**
   A batch that passes validation keeps every action in order, places every
   click and scroll inside the one sampled geometry and types at most 4000
   characters in all.
   */
  lemma PreparedBatchIsSafe(actions: Actions, sampled: Option<Geometry>, aliases: Aliases)
    requires PrepareBatch(actions, sampled, aliases).Ok?
    ensures var ps := PrepareBatch(actions, sampled, aliases).value;
            && actions.List? && 1 <= |ps| == |actions.items| <= MAX_ACTIONS
            && (forall i :: 0 <= i < |ps| ==> WellPrepared(ps[i], sampled))
            && TotalPrepared(ps) <= MAX_TEXT_CHARS
  {
    var items := actions.items;
    var g := if NeedsGeometry(items) then sampled else None;
    PreparedOneByOne(items, g, aliases);
    TextIsKept(items, g, aliases);
    var ps := PrepareAll(items, g, aliases).value;
    forall i | 0 <= i < |ps| ensures WellPrepared(ps[i], sampled) {
      OneIsWell(items[i], g, aliases);
    }
  }

  /** All text the batch would type, one piece behind the other. */
  function AllText(items: seq<Raw>): string {
    if items == [] then ""
    else
      var last := items[|items| - 1];
      AllText(items[..|items| - 1]) +
      match last
      case Object(Text("type"), _, _, _, _, Text(text), _, _, _) => text
      case _ => ""
  }

  lemma {:induction false} TotalTextExactly(items: seq<Raw>)
    ensures TotalText(items) == |AllText(items)|
    decreases |items|
  {
    if items != [] {
      var n := |items| - 1;
      TotalTextExactly(items[..n]);
      TotalTextLast(items);
    }
  }

  lemma {:induction false} TotalTextLast(items: seq<Raw>)
    requires items != []
    ensures TotalText(items) == TotalText(items[..|items| - 1]) + TextChars(items[|items| - 1])
  {
    if |items| == 1 {
      assert items[1..] == [] && items[..0] == [];
    } else {
      var n := |items| - 1;
      TotalTextLast(items[1..]);
      assert items[1..][..n - 1] == items[..n][1..];
    }
  }

  /** The whole batch is acceptable: 1 to 16 acceptable actions, 4000 characters, and a geometry where one is needed. */
  ghost predicate BatchAcceptable(actions: Actions, sampled: Option<Geometry>) {
    && actions.List? && 1 <= |actions.items| <= 16 && |AllText(actions.items)| <= 4000
    && forall i :: 0 <= i < |actions.items| ==> Acceptable(actions.items[i], sampled)
  }

  lemma AcceptableWithoutGeometry(raw: Raw, sampled: Option<Geometry>)
    requires !IsKind(raw, "click") && !IsKind(raw, "scroll")
    ensures Acceptable(raw, None) <==> Acceptable(raw, sampled)
  {
    assert "click" != "type" && "click" != "key" && "scroll" != "type" && "scroll" != "key";
  }

  /** A batch passes validation if and only if it is acceptable, and then each action means what was asked. */
  lemma BatchExactly(actions: Actions, sampled: Option<Geometry>, aliases: Aliases)
    ensures PrepareBatch(actions, sampled, aliases).Ok? <==> BatchAcceptable(actions, sampled)
    ensures PrepareBatch(actions, sampled, aliases).Ok? ==>
              var ps := PrepareBatch(actions, sampled, aliases).value;
              |ps| == |actions.items| && forall i :: 0 <= i < |ps| ==>
                actions.items[i].Object? && Means(ps[i], actions.items[i], aliases)
  {
    if actions.List? {
      var items := actions.items;
      var g := if NeedsGeometry(items) then sampled else None;
      TotalTextExactly(items);
      PreparedOneByOne(items, g, aliases);
      forall i | 0 <= i < |items|
        ensures PrepareOne(items[i], g, aliases).Ok? <==> Acceptable(items[i], sampled)
        ensures PrepareOne(items[i], g, aliases).Ok? ==>
                  items[i].Object? && Means(PrepareOne(items[i], g, aliases).value, items[i], aliases)
      {
        PreparedExactly(items[i], g, aliases);
        if !IsKind(items[i], "click") && !IsKind(items[i], "scroll") {
          AcceptableWithoutGeometry(items[i], g);
          AcceptableWithoutGeometry(items[i], sampled);
        }
      }
    }
  }

  /** A rejection blames the request, except when the geometry cannot be had. */
  lemma RejectionStatusExactly(actions: Actions, sampled: Option<Geometry>, aliases: Aliases)
    requires PrepareBatch(actions, sampled, aliases).Err?
    ensures PrepareBatch(actions, sampled, aliases).status ==
            if && actions.List? && 1 <= |actions.items| <= 16 && |AllText(actions.items)| <= 4000
               && sampled.None? && NeedsGeometry(actions.items) then 500 else 400
  {
    if actions.List? {
      TotalTextExactly(actions.items);
      PreparedOneByOne(actions.items, if NeedsGeometry(actions.items) then sampled else None, aliases);
    }
  }

  // ---------------------------------------------------------------- execution

  datatype Outcome =
    | Rejected(status: int)
    | Applied(count: nat)
    | Partial(count: nat, completed: nat)

  class Agent {
    /** Every input call made on the backend, in order, whether or not it raised. */
    var tried: seq<Prepared>

    constructor ()
      ensures tried == []
    {
      tried := [];
    }

    /** action_batch; `raises(i)` says whether the backend raises on the i-th action of the batch. */
    method ActionBatch(actions: Actions, sampled: Option<Geometry>, aliases: Aliases, raises: nat -> bool)
      returns (outcome: Outcome)
      modifies this
      ensures var prepared := PrepareBatch(actions, sampled, aliases);
              match outcome
              case Rejected(status) => prepared == Err(status) && tried == old(tried)
              case Applied(count) =>
                && prepared.Ok? && count == |prepared.value|
                && tried == old(tried) + prepared.value
                && forall i: nat :: i < count ==> !raises(i)
              case Partial(count, completed) =>
                && prepared.Ok? && completed < count == |prepared.value|
                && tried == old(tried) + prepared.value[..completed + 1]
                && raises(completed) && forall i: nat :: i < completed ==> !raises(i)
    {
      var prepared := PrepareBatch(actions, sampled, aliases);
      if prepared.Err? {
        return Rejected(prepared.status);
      }
      var batch := prepared.value;
      for index := 0 to |batch|
        invariant tried == old(tried) + batch[..index]
        invariant forall i: nat :: i < index ==> !raises(i)
      {
        assert batch[..index + 1] == batch[..index] + [batch[index]];
        tried := tried + [batch[index]];
        if raises(index) {
          return Partial(|batch|, index);
        }
      }
      assert batch[..|batch|] == batch;
      return Applied(|batch|);
    }
  }
}
