/**
 Keyboard and mouse events of the Windows backend.
 */
module WindowsInput {
  import opened Numerals
  import opened Options
  import opened Rounding
  import opened Text

  type VirtualKey = int

  // ---------------------------------------------------------------- key presses

  datatype KeyEvent = Down(vk: VirtualKey) | Up(vk: VirtualKey)

  function Downs(keys: seq<VirtualKey>): seq<KeyEvent> {
    seq(|keys|, i requires 0 <= i < |keys| => Down(keys[i]))
  }

  /** Key-up events, last key first. */
  function Ups(keys: seq<VirtualKey>): seq<KeyEvent> {
    seq(|keys|, i requires 0 <= i < |keys| => Up(keys[|keys| - 1 - i]))
  }

  /** The modifiers to hold: those asked for, then the implied ones not already held. */
  function Held(modifiers: seq<VirtualKey>, implied: seq<VirtualKey>): seq<VirtualKey>
    decreases |implied|
  {
    modifiers + Missing(modifiers, implied)
  }

  function Missing(held: seq<VirtualKey>, implied: seq<VirtualKey>): seq<VirtualKey> {
    if implied == [] then []
    else (if implied[0] in held then [] else [implied[0]]) + Missing(held, implied[1..])
  }

  // ---------------------------------------------------------------- names of keys

  const MODIFIERS: map<string, VirtualKey> := map["ctrl" := 0x11, "alt" := 0x12, "shift" := 0x10, "super" := 0x5B]

  const F1: VirtualKey := 0x70

  predicate DigitIn(c: char, low: char, high: char) {
    low <= c <= high
  }

  /** FUNCTION_KEY_RE: f1 to f24, with the one final newline that `$` lets pass. */
  function FunctionKey(lowered: string): (number: Option<int>)
    ensures number.Some? ==> 1 <= number.value <= 24
  {
    NameNumber(if lowered != [] && lowered[|lowered| - 1] == '\n' then lowered[..|lowered| - 1] else lowered)
  }

  function NameNumber(name: string): (number: Option<int>)
    ensures number.Some? ==> 1 <= number.value <= 24
  {
    if |name| == 2 && name[0] == 'f' && DigitIn(name[1], '1', '9') then Some(name[1] as int - '0' as int)
    else if |name| == 3 && name[..2] == "f1" && DigitIn(name[2], '0', '9') then Some(10 + (name[2] as int - '0' as int))
    else if |name| == 3 && name[..2] == "f2" && DigitIn(name[2], '0', '4') then Some(20 + (name[2] as int - '0' as int))
    else None
  }

  /** The names f1 to f24, with at most one newline behind, and no others. */
  lemma FunctionKeyExactly(s: string, n: int)
    ensures FunctionKey(s) == Some(n) <==>
            1 <= n <= 24 && (s == "f" + Spelled(n) || s == "f" + Spelled(n) + "\n")
  {
    if 1 <= n <= 24 {
      SpelledTwoDigits(n);
    }
    var name := if s != [] && s[|s| - 1] == '\n' then s[..|s| - 1] else s;
    assert s == name || s == name + "\n";
    NameExactly(name, n);
  }

  lemma NameExactly(name: string, n: int)
    ensures NameNumber(name) == Some(n) <==> 1 <= n <= 24 && name == "f" + Spelled(n)
  {
    if 1 <= n <= 24 {
      SpelledTwoDigits(n);
    }
    if |name| == 2 {
      OneDigit(name, n);
    } else if |name| == 3 {
      TwoDigits(name, n);
    }
  }

  lemma OneDigit(name: string, n: int)
    requires |name| == 2
    ensures NameNumber(name) == Some(n) <==> 1 <= n <= 9 && name == ['f', DIGITS[n]]
  {
    if IsDigit(name[1]) {
      DigitOfChar(name[1]);
    }
  }

  lemma TwoDigits(name: string, n: int)
    requires |name| == 3
    ensures NameNumber(name) == Some(n) <==> 10 <= n <= 24 && name == ['f', DIGITS[n / 10], DIGITS[n % 10]]
  {
    assert name[..2] == [name[0], name[1]];
    if IsDigit(name[2]) {
      DigitOfChar(name[2]);
    }
  }

  lemma SpelledTwoDigits(n: nat)
    requires n < 100
    ensures Spelled(n) == if n < 10 then [DIGITS[n]] else [DIGITS[n / 10], DIGITS[n % 10]]
  {
  }

  datatype Resolved = Resolved(vk: VirtualKey, implied: seq<VirtualKey>)

  /** The modifiers in the high byte of a VkKeyScan answer. */
  function ImpliedBy(scan: int): seq<VirtualKey> {
    ImpliedIn(scan / 256 % 256)
  }

  function ImpliedIn(state: int): seq<VirtualKey> {
    (if state % 2 == 1 then [MODIFIERS["shift"]] else [])
    + (if state / 2 % 2 == 1 then [MODIFIERS["ctrl"]] else [])
    + (if state / 4 % 2 == 1 then [MODIFIERS["alt"]] else [])
  }

  /** An answer is a key code and, in the byte above it, one bit each for shift, control and alt. */
  lemma ImpliedExactly(code: nat, shift: nat, control: nat, alt: nat, other: nat, vk: VirtualKey)
    requires code < 256 && shift < 2 && control < 2 && alt < 2 && other < 32
    ensures var scan := code + 256 * (shift + 2 * control + 4 * alt + 8 * other);
            && scan % 256 == code
            && (vk in ImpliedBy(scan) <==>
                  (vk == 0x10 && shift == 1) || (vk == 0x11 && control == 1) || (vk == 0x12 && alt == 1))
  {
    var state := shift + 2 * control + 4 * alt + 8 * other;
    assert (code + 256 * state) / 256 == state;
    BitsOfState(shift, control, alt, other);
  }

  lemma BitsOfState(shift: nat, control: nat, alt: nat, other: nat)
    requires shift < 2 && control < 2 && alt < 2
    ensures var state := shift + 2 * control + 4 * alt + 8 * other;
            state % 2 == shift && state / 2 % 2 == control && state / 4 % 2 == alt
  {
    var state := shift + 2 * control + 4 * alt + 8 * other;
    assert state / 2 == control + 2 * alt + 4 * other && state / 4 == alt + 2 * other;
  }

  /** _resolve_key, for any table of named keys and any keyboard layout. */
  function Resolve(key: string, named: map<string, VirtualKey>, scan: char -> int): Option<Resolved> {
    var lowered := Lower(key);
    if lowered in named then Some(Resolved(named[lowered], []))
    else if FunctionKey(lowered).Some? then Some(Resolved(F1 + FunctionKey(lowered).value - 1, []))
    else if |key| == 1 && scan(key[0]) >= 0 then Some(Resolved(scan(key[0]) % 256, ImpliedBy(scan(key[0]))))
    else None
  }

  predicate Supported(modifiers: seq<string>) {
    forall i :: 0 <= i < |modifiers| ==> modifiers[i] in MODIFIERS
  }

  function Codes(modifiers: seq<string>): seq<VirtualKey>
    requires Supported(modifiers)
  {
    seq(|modifiers|, i requires 0 <= i < |modifiers| => MODIFIERS[modifiers[i]])
  }

  /** press_key: nothing is sent for an unknown modifier or key, else one chord. */
  method PressKey(modifiers: seq<string>, key: string, named: map<string, VirtualKey>, scan: char -> int)
    returns (events: Option<seq<KeyEvent>>)
    ensures events.Some? <==> Supported(modifiers) && Resolve(key, named, scan).Some?
    ensures events.Some? ==>
              var r := Resolve(key, named, scan).value; events.value == Chord(Held(Codes(modifiers), r.implied), r.vk)
  {
    var asked: seq<VirtualKey> := [];
    for i := 0 to |modifiers|
      invariant Supported(modifiers[..i]) && asked == Codes(modifiers[..i])
    {
      if modifiers[i] !in MODIFIERS {
        return None;
      }
      asked := asked + [MODIFIERS[modifiers[i]]];
    }
    assert modifiers[..|modifiers|] == modifiers;
    var resolved := Resolve(key, named, scan);
    if resolved.None? {
      return None;
    }
    var chord := ChordEvents(asked, resolved.value.implied, resolved.value.vk);
    return Some(chord);
  }

  /** The event list press_key sends. */
  method ChordEvents(modifiers: seq<VirtualKey>, implied: seq<VirtualKey>, vk: VirtualKey)
    returns (events: seq<KeyEvent>)
    ensures events == Chord(Held(modifiers, implied), vk)
  {
    var held := modifiers;
    for i := 0 to |implied|
      invariant held + Missing(modifiers, implied[i..]) == Held(modifiers, implied)
    {
      if implied[i] !in modifiers {
        held := held + [implied[i]];
      }
      assert implied[i..][1..] == implied[i + 1..];
    }
    events := [];
    for i := 0 to |held|
      invariant events == Downs(held[..i])
    {
      events := events + [Down(held[i])];
    }
    assert held[..|held|] == held;
    events := events + [Down(vk), Up(vk)];
    ghost var pressed := events;
    for i := 0 to |held|
      invariant events == pressed + Ups(held)[..i]
    {
      events := events + [Up(held[|held| - 1 - i])];
    }
    assert Ups(held)[..|held|] == Ups(held);
  }

  function Chord(held: seq<VirtualKey>, vk: VirtualKey): seq<KeyEvent> {
    Downs(held) + [Down(vk), Up(vk)] + Ups(held)
  }

  datatype Replay = Stuck | Pressed(keys: seq<VirtualKey>)

  /** Play events against the stack of keys that are down: a key may only be released by undoing the last press. */
  function Play(stack: seq<VirtualKey>, events: seq<KeyEvent>): Replay
    decreases |events|
  {
    if events == [] then Pressed(stack)
    else match events[0]
      case Down(vk) => Play(stack + [vk], events[1..])
      case Up(vk) => if stack != [] && stack[|stack| - 1] == vk then Play(stack[..|stack| - 1], events[1..]) else Stuck
  }

  lemma {:induction false} PlayConcat(stack: seq<VirtualKey>, xs: seq<KeyEvent>, ys: seq<KeyEvent>)
    ensures Play(stack, xs + ys) == match Play(stack, xs) case Stuck => Stuck case Pressed(s) => Play(s, ys)
    decreases |xs|
  {
    if xs == [] {
      assert xs + ys == ys;
    } else {
      assert (xs + ys)[1..] == xs[1..] + ys;
      match xs[0]
      case Down(vk) => PlayConcat(stack + [vk], xs[1..], ys);
      case Up(vk) => if stack != [] { PlayConcat(stack[..|stack| - 1], xs[1..], ys); }
    }
  }

  lemma {:induction false} PlayDowns(stack: seq<VirtualKey>, keys: seq<VirtualKey>)
    ensures Play(stack, Downs(keys)) == Pressed(stack + keys)
    decreases |keys|
  {
    if keys == [] {
      assert stack + keys == stack;
    } else {
      PlayDowns(stack + [keys[0]], keys[1..]);
      assert Downs(keys)[1..] == Downs(keys[1..]);
      assert stack + [keys[0]] + keys[1..] == stack + keys;
    }
  }

  lemma {:induction false} PlayUps(stack: seq<VirtualKey>, keys: seq<VirtualKey>)
    ensures Play(stack + keys, Ups(keys)) == Pressed(stack)
    decreases |keys|
  {
    if keys == [] {
      assert stack + keys == stack;
    } else {
      var init := keys[..|keys| - 1];
      PlayUps(stack, init);
      assert Ups(keys)[1..] == Ups(init);
      assert (stack + keys)[..|stack + keys| - 1] == stack + init;
    }
  }

  /**
   A key press is balanced and nested: played from any state it releases
   exactly what it pressed, in reverse, and at the moment the key itself goes
   down precisely the held modifiers are added.
   */
  lemma ChordIsNested(stack: seq<VirtualKey>, held: seq<VirtualKey>, vk: VirtualKey)
    ensures Play(stack, Chord(held, vk)) == Pressed(stack)
    ensures Play(stack, Chord(held, vk)[..|held| + 1]) == Pressed(stack + held + [vk])
  {
    var tap := [Down(vk), Up(vk)];
    PlayDowns(stack, held);
    PlayConcat(stack, Downs(held), tap);
    var s := stack + held;
    assert Play(s, tap) == Pressed(s) by {
      assert tap[1..] == [Up(vk)] && [Up(vk)][1..] == [];
      assert (s + [vk])[..|s + [vk]| - 1] == s;
      assert Play(s + [vk], [Up(vk)]) == Play(s, []);
    }
    PlayUps(stack, held);
    PlayConcat(stack, Downs(held) + tap, Ups(held));
    assert Chord(held, vk)[..|held| + 1] == Downs(held) + [Down(vk)];
    PlayConcat(stack, Downs(held), [Down(vk)]);
  }

  /** The held modifiers are exactly those asked for and those the layout implies. */
  lemma {:induction false} HeldCovers(modifiers: seq<VirtualKey>, implied: seq<VirtualKey>, vk: VirtualKey)
    ensures vk in Held(modifiers, implied) <==> vk in modifiers || vk in implied
    decreases |implied|
  {
    if implied != [] {
      HeldCovers(modifiers, implied[1..], vk);
    }
  }

  // ---------------------------------------------------------------- mouse positions

  const ABSOLUTE_RANGE := 65535

  /** _absolute on one axis. */
  function Absolute(x: nat, size: nat): int {
    var dx := if size <= 1 then 0 else RoundHalfEven(x * ABSOLUTE_RANGE, size - 1);
    if dx > ABSOLUTE_RANGE then ABSOLUTE_RANGE else dx
  }

  lemma UnclampedOnScreen(x: nat, size: nat)
    requires x < size && 1 < size
    ensures Absolute(x, size) == RoundHalfEven(x * ABSOLUTE_RANGE, size - 1)
  {
    assert x * ABSOLUTE_RANGE <= (size - 1) * ABSOLUTE_RANGE;
    RoundMonotone(x * ABSOLUTE_RANGE, (size - 1) * ABSOLUTE_RANGE, size - 1);
    RoundExact(ABSOLUTE_RANGE, size - 1);
  }

  /** The pixel map is monotone and reaches both ends of the range. */
  lemma AbsoluteMonotone(x: nat, y: nat, size: nat)
    requires x <= y < size
    ensures 0 <= Absolute(x, size) <= Absolute(y, size) <= ABSOLUTE_RANGE
    ensures Absolute(0, size) == 0
    ensures size > 1 ==> Absolute(size - 1, size) == ABSOLUTE_RANGE
  {
    if size > 1 {
      RoundMonotone(x * ABSOLUTE_RANGE, y * ABSOLUTE_RANGE, size - 1);
      RoundExact(0, size - 1);
      RoundExact(ABSOLUTE_RANGE, size - 1);
    }
  }

  /** A pixel goes to the nearest position of its exact proportion. */
  lemma AbsoluteIsNearest(x: nat, size: nat)
    requires x < size && 1 < size
    ensures -(size - 1) <= 2 * (x * ABSOLUTE_RANGE - (size - 1) * Absolute(x, size)) <= size - 1
  {
    UnclampedOnScreen(x, size);
    RoundIsNearest(x * ABSOLUTE_RANGE, size - 1);
  }

  ghost predicate SeparatesPixels(size: nat) {
    forall x: nat, y: nat :: x < y < size ==> Absolute(x, size) < Absolute(y, size)
  }

  lemma SmallScreensSeparate(x: nat, y: nat, size: nat)
    requires x < y < size <= ABSOLUTE_RANGE + 1
    ensures Absolute(x, size) < Absolute(y, size)
  {
    UnclampedOnScreen(x, size);
    UnclampedOnScreen(y, size);
    if size - 1 == ABSOLUTE_RANGE {
      RoundExact(x, size - 1);
      RoundExact(y, size - 1);
    } else {
      RoundStrict(x * ABSOLUTE_RANGE, y * ABSOLUTE_RANGE, size - 1);
    }
  }

  lemma {:induction false} StrictGrows(x: nat, size: nat)
    requires SeparatesPixels(size) && x < size
    ensures x <= Absolute(x, size)
  {
    if x > 0 {
      StrictGrows(x - 1, size);
      assert Absolute(x - 1, size) < Absolute(x, size);
    }
  }

  /** Distinct pixels get distinct positions exactly on screens of at most 65536 pixels a side. */
  lemma SeparatesPixelsIff(size: nat)
    ensures SeparatesPixels(size) <==> size <= ABSOLUTE_RANGE + 1
  {
    if size <= ABSOLUTE_RANGE + 1 {
      forall x: nat, y: nat | x < y < size ensures Absolute(x, size) < Absolute(y, size) {
        SmallScreensSeparate(x, y, size);
      }
    } else if SeparatesPixels(size) {
      StrictGrows(size - 1, size);
    }
  }
}
