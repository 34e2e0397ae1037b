/** The functions of Go's strings package that the modelled code calls, on character sequences. */
module Strings {

  /** The characters Unicode gives the property White_Space. */
  predicate IsSpace(c: char) {
    || '\t' <= c <= '\r' || c == ' ' || c == '\U{85}' || c == '\U{A0}' || c == '\U{1680}'
    || '\U{2000}' <= c <= '\U{200A}' || c == '\U{2028}' || c == '\U{2029}' || c == '\U{202F}'
    || c == '\U{205F}' || c == '\U{3000}'
  }

  function TrimLeft(s: string): string {
    if s != [] && IsSpace(s[0]) then TrimLeft(s[1..]) else s
  }

  function TrimRight(s: string): string {
    if s != [] && IsSpace(s[|s| - 1]) then TrimRight(s[..|s| - 1]) else s
  }

  function TrimSpace(s: string): string {
    TrimRight(TrimLeft(s))
  }

  /** strings.Split with a one-character separator. */
  function Split(s: string, sep: char): (parts: seq<string>)
    ensures |parts| >= 1
  {
    if s == [] then [""] else SplitFront(s[0], Split(s[1..], sep), sep)
  }

  /** The parts of a text with one more character in front. */
  function SplitFront(c: char, parts: seq<string>, sep: char): (r: seq<string>)
    requires |parts| >= 1
    ensures |r| >= 1
  {
    if c == sep then [""] + parts else [[c] + parts[0]] + parts[1..]
  }

  function Join(parts: seq<string>, sep: string): string {
    if parts == [] then ""
    else if |parts| == 1 then parts[0]
    else parts[0] + sep + Join(parts[1..], sep)
  }

  /** Splitting distributes over a separator. */
  lemma {:induction false} SplitConcat(a: string, b: string, sep: char)
    ensures Split(a + [sep] + b, sep) == Split(a, sep) + Split(b, sep)
  {
    var s := a + [sep] + b;
    if a == [] {
      assert s[0] == sep && s[1..] == b;
    } else {
      SplitConcat(a[1..], b, sep);
      assert s[0] == a[0] && s[1..] == a[1..] + [sep] + b;
      FrontConcat(a[0], Split(a[1..], sep), Split(b, sep), sep);
    }
  }

  lemma FrontConcat(c: char, p: seq<string>, q: seq<string>, sep: char)
    requires |p| >= 1
    ensures SplitFront(c, p + q, sep) == SplitFront(c, p, sep) + q
  {
    assert (p + q)[0] == p[0] && (p + q)[1..] == p[1..] + q;
  }

  lemma {:induction false} SplitWhole(s: string, sep: char)
    requires sep !in s
    ensures Split(s, sep) == [s]
  {
    if s == [] {
      assert s == "";
    } else {
      SplitWhole(s[1..], sep);
      assert s[0] in s && [s[0]] + s[1..] == s;
    }
  }

  lemma {:induction false} PartsHaveNoSeparator(s: string, sep: char)
    ensures forall p | p in Split(s, sep) :: sep !in p
  {
    if s == [] {
      assert forall p | p in Split(s, sep) :: p == "";
    } else {
      PartsHaveNoSeparator(s[1..], sep);
      var parts := Split(s[1..], sep);
      forall p | p in Split(s, sep) ensures sep !in p {
        if s[0] == sep {
          assert p == "" || p in parts;
        } else {
          assert parts[0] in parts;
          assert p == [s[0]] + parts[0] || p in parts;
        }
      }
    }
  }

  lemma {:induction false} TrimRightStops(s: string)
    ensures |TrimRight(s)| <= |s| && TrimRight(s) == s[..|TrimRight(s)|]
    ensures TrimRight(s) != [] ==> !IsSpace(TrimRight(s)[|TrimRight(s)| - 1])
  {
    if s != [] && IsSpace(s[|s| - 1]) {
      TrimRightStops(s[..|s| - 1]);
    }
  }

  lemma {:induction false} TrimLeftStops(s: string)
    ensures |TrimLeft(s)| <= |s|
    ensures TrimLeft(s) != [] ==> !IsSpace(TrimLeft(s)[0])
  {
    if s != [] && IsSpace(s[0]) { TrimLeftStops(s[1..]); }
  }

  lemma TrimTwice(s: string)
    ensures TrimSpace(TrimSpace(s)) == TrimSpace(s)
  {
    TrimLeftStops(s);
    TrimRightStops(TrimLeft(s));
    assert TrimLeft(TrimSpace(s)) == TrimSpace(s);
  }

  predicate AllSpace(s: string) {
    forall i | 0 <= i < |s| :: IsSpace(s[i])
  }

  /** Trimming cuts off white space only. */
  lemma {:induction false} TrimLeftCuts(s: string) returns (a: string)
    ensures s == a + TrimLeft(s) && AllSpace(a)
  {
    a := "";
    if s != [] && IsSpace(s[0]) {
      a := TrimLeftCuts(s[1..]);
      a := [s[0]] + a;
    }
  }

  lemma {:induction false} TrimRightCuts(s: string) returns (b: string)
    ensures s == TrimRight(s) + b && AllSpace(b)
  {
    b := "";
    if s != [] && IsSpace(s[|s| - 1]) {
      b := TrimRightCuts(s[..|s| - 1]);
      b := b + [s[|s| - 1]];
    }
  }

  lemma TrimSpaceCuts(s: string) returns (a: string, b: string)
    ensures s == a + TrimSpace(s) + b && AllSpace(a) && AllSpace(b)
  {
    a := TrimLeftCuts(s);
    b := TrimRightCuts(TrimLeft(s));
  }

  /** And all of it. */
  lemma {:induction false} TrimLeftAll(a: string, s: string)
    requires AllSpace(a) && s != [] && !IsSpace(s[0])
    ensures TrimLeft(a + s) == s
  {
    if a == [] {
      assert a + s == s;
    } else {
      TrimLeftAll(a[1..], s);
      assert (a + s)[1..] == a[1..] + s;
    }
  }

  lemma {:induction false} TrimRightAll(s: string, b: string)
    requires AllSpace(b) && s != [] && !IsSpace(s[|s| - 1])
    ensures TrimRight(s + b) == s
  {
    if b == [] {
      assert s + b == s;
    } else {
      TrimRightAll(s, b[..|b| - 1]);
      assert (s + b)[..|s + b| - 1] == s + b[..|b| - 1];
    }
  }

  /** White space around a text that has none at its ends is all that trimming takes. */
  lemma TrimPadded(a: string, s: string, b: string)
    requires AllSpace(a) && AllSpace(b) && s != [] && !IsSpace(s[0]) && !IsSpace(s[|s| - 1])
    ensures TrimSpace(a + s + b) == s
  {
    assert a + s + b == a + (s + b);
    TrimLeftAll(a, s + b);
    TrimRightAll(s, b);
  }
}
