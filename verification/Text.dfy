/**
 Splitting text at a separator, as strings.Split and str.split do.
 */
module Text {

  /** str.lower on ASCII text. */
  function Lower(s: string): string {
    if s == [] then []
    else [if 'A' <= s[0] <= 'Z' then (s[0] as int + 32) as char else s[0]] + Lower(s[1..])
  }

  /** Letter by letter: capitals become small, everything else stays. */
  lemma {:induction false} LowerExactly(s: string, t: string)
    ensures Lower(s) == t <==>
            |t| == |s| && forall i :: 0 <= i < |s| ==>
              t[i] as int == s[i] as int + (if 'A' <= s[i] <= 'Z' then 'a' as int - 'A' as int else 0)
  {
    if s != [] {
      if t != [] {
        LowerExactly(s[1..], t[1..]);
        assert t == [t[0]] + t[1..];
      }
      LowerLength(s);
    }
  }

  lemma {:induction false} LowerLength(s: string)
    ensures |Lower(s)| == |s|
  {
    if s != [] {
      LowerLength(s[1..]);
    }
  }

  function Split(s: string, sep: char): (parts: seq<string>)
    ensures |parts| >= 1
  {
    if s == [] then [""]
    else
      var rest := Split(s[1..], sep);
      if s[0] == sep then [""] + rest else Prepend(s[0], rest)
  }

  /** One more character at the front of the first part. */
  function Prepend(c: char, parts: seq<string>): seq<string>
    requires |parts| >= 1
  {
    [[c] + parts[0]] + parts[1..]
  }

  lemma PrependConcat(c: char, head: seq<string>, tail: seq<string>)
    requires |head| >= 1
    ensures Prepend(c, head + tail) == Prepend(c, head) + tail
  {
    assert (head + tail)[1..] == head[1..] + tail;
  }

  lemma TailOfJoined(x: string, y: string, sep: char)
    requires x != []
    ensures x + [sep] + y != [] && (x + [sep] + y)[0] == x[0] && (x + [sep] + y)[1..] == x[1..] + [sep] + y
  {
  }

  lemma {:induction false} SplitConcat(x: string, y: string, sep: char)
    ensures Split(x + [sep] + y, sep) == Split(x, sep) + Split(y, sep)
  {
    if x == [] {
      assert (x + [sep] + y)[1..] == y;
    } else {
      SplitConcat(x[1..], y, sep);
      TailOfJoined(x, y, sep);
      if x[0] == sep {
        assert [""] + (Split(x[1..], sep) + Split(y, sep)) == [""] + Split(x[1..], sep) + Split(y, sep);
      } else {
        PrependConcat(x[0], Split(x[1..], sep), Split(y, sep));
      }
    }
  }

  lemma {:induction false} SplitWithout(x: string, sep: char)
    requires sep !in x
    ensures Split(x, sep) == [x]
  {
    if x != [] {
      SplitWithout(x[1..], sep);
      assert [x[0]] + x[1..] == x;
    }
  }

  function Join(parts: seq<string>, sep: char): string
    requires |parts| >= 1
  {
    if |parts| == 1 then parts[0] else parts[0] + [sep] + Join(parts[1..], sep)
  }

  lemma {:induction false} JoinSplit(s: string, sep: char)
    ensures Join(Split(s, sep), sep) == s
  {
    if s != [] {
      JoinSplit(s[1..], sep);
      var rest := Split(s[1..], sep);
      if s[0] == sep {
        assert ([""] + rest)[1..] == rest;
        assert s == "" + [sep] + s[1..];
      } else {
        JoinPrepend(s[0], rest, sep);
        assert s == [s[0]] + s[1..];
      }
    }
  }

  lemma JoinPrepend(c: char, parts: seq<string>, sep: char)
    requires |parts| >= 1
    ensures Join(Prepend(c, parts), sep) == [c] + Join(parts, sep)
  {
    var longer := Prepend(c, parts);
    if |parts| > 1 {
      assert longer[1..] == parts[1..];
      var rest := Join(parts[1..], sep);
      assert [c] + parts[0] + [sep] + rest == [c] + (parts[0] + [sep] + rest);
    }
  }

  /** No part contains the separator. */
  lemma {:induction false} PartsWithoutSeparator(s: string, sep: char)
    ensures forall i :: 0 <= i < |Split(s, sep)| ==> sep !in Split(s, sep)[i]
  {
    if s != [] {
      PartsWithoutSeparator(s[1..], sep);
    }
  }

  /** Splitting undoes joining parts that do not contain the separator. */
  lemma {:induction false} SplitJoin(parts: seq<string>, sep: char)
    requires |parts| >= 1 && forall i :: 0 <= i < |parts| ==> sep !in parts[i]
    ensures Split(Join(parts, sep), sep) == parts
    decreases |parts|
  {
    SplitWithout(parts[0], sep);
    if |parts| > 1 {
      SplitJoin(parts[1..], sep);
      SplitConcat(parts[0], Join(parts[1..], sep), sep);
      assert [parts[0]] + parts[1..] == parts;
    }
  }
}
