/**
  Comparing version tags.  A tag is cleaned, cut at the dots, and each part is read as a
  64-bit number up to its first '-'.
*/
module Versions {

  import opened Strings

  const MAX_INT64: int := 0x7FFF_FFFF_FFFF_FFFF
  const MAX_UINT64: int := 0xFFFF_FFFF_FFFF_FFFF

  // ---------------------------------------------------------------- strconv.Atoi

  predicate IsDigit(c: char) {
    '0' <= c <= '9'
  }

  function Digit(c: char): (d: nat)
    requires IsDigit(c)
    ensures d <= 9
  {
    c as int - '0' as int
  }

  datatype Parsed = Number(n: nat) | SyntaxError | RangeError

  /** The digits of `s` after a prefix worth `n`; the first character that goes wrong decides. */
  function ParseUint(s: string, n: nat): Parsed {
    if s == [] then Number(n)
    else if !IsDigit(s[0]) then SyntaxError
    else
      var m := n * 10 + Digit(s[0]);
      if m > MAX_UINT64 then RangeError else ParseUint(s[1..], m)
  }

  /** The value Atoi returns, its error ignored: 0 for a syntax error, clamped when out of range. */
  function Atoi(s: string): (n: int)
    ensures -MAX_INT64 - 1 <= n <= MAX_INT64
  {
    var negative := s != [] && s[0] == '-';
    var digits := if s != [] && (s[0] == '-' || s[0] == '+') then s[1..] else s;
    if digits == [] then 0
    else
      match ParseUint(digits, 0)
      case SyntaxError => 0
      case RangeError => if negative then -MAX_INT64 - 1 else MAX_INT64
      case Number(u) =>
        var m: int := u;
        if negative then (if m > MAX_INT64 then -MAX_INT64 - 1 else -m)
        else if m > MAX_INT64 then MAX_INT64 else m
  }

  // ---------------------------------------------------------------- what a number is read as

  predicate AllDigits(s: string) {
    forall i | 0 <= i < |s| :: IsDigit(s[i])
  }

  /** `n` with the digits of `s` appended. */
  function Worth(s: string, n: nat): nat
    requires AllDigits(s)
  {
    if s == [] then n else Worth(s[..|s| - 1], n) * 10 + Digit(s[|s| - 1])
  }

  lemma {:induction false} WorthFront(s: string, n: nat)
    requires s != [] && AllDigits(s)
    ensures Worth(s, n) == Worth(s[1..], n * 10 + Digit(s[0])) >= n
  {
    if |s| > 1 {
      WorthFront(s[..|s| - 1], n);
      assert s[1..][..|s| - 2] == s[..|s| - 1][1..];
    }
  }

  lemma {:induction false} ParseDigits(s: string, rest: string, n: nat)
    requires AllDigits(s) && n <= MAX_UINT64
    ensures ParseUint(s + rest, n) == if Worth(s, n) > MAX_UINT64 then RangeError else ParseUint(rest, Worth(s, n))
  {
    if s == [] {
      assert s + rest == rest;
    } else {
      var m := n * 10 + Digit(s[0]);
      WorthFront(s, n);
      assert (s + rest)[0] == s[0] && (s + rest)[1..] == s[1..] + rest;
      if m <= MAX_UINT64 {
        ParseDigits(s[1..], rest, m);
      } else if |s| > 1 {
        WorthFront(s[1..], m);
      }
    }
  }

  /**
    A text that begins with digits is worth these digits if nothing follows, and nothing otherwise;
    what does not fit into 64 bits is worth the largest number, if the digits alone tell.
  */
  lemma AtoiReadsDigits(s: string, rest: string)
    requires s != [] && AllDigits(s) && (rest != [] ==> !IsDigit(rest[0]))
    ensures Atoi(s + rest) ==
      if Worth(s, 0) > MAX_UINT64 then MAX_INT64
      else if rest != [] then 0
      else if Worth(s, 0) > MAX_INT64 then MAX_INT64 else Worth(s, 0)
  {
    ParseDigits(s, rest, 0);
    assert (s + rest)[0] == s[0];
  }

  /** One sign in front of digits is read; behind it the number is what it is without, or its negative. */
  lemma Signed(s: string)
    requires s != [] && AllDigits(s) && Worth(s, 0) <= MAX_INT64
    ensures Atoi("+" + s) == Worth(s, 0) && Atoi("-" + s) == 0 - Worth(s, 0) as int
  {
    ParseDigits(s, "", 0);
    assert s + "" == s;
    assert ("+" + s)[1..] == s && ("-" + s)[1..] == s;
  }

  /** A number in decimal. */
  function Printed(n: nat): string {
    var last := ['0' + (n % 10) as char];
    if n < 10 then last else Printed(n / 10) + last
  }

  lemma {:induction false} PrintedDigits(n: nat)
    ensures Printed(n) != [] && AllDigits(Printed(n)) && Worth(Printed(n), 0) == n
  {
    if n >= 10 {
      PrintedDigits(n / 10);
      var front := Printed(n / 10);
      assert Printed(n)[..|front|] == front;
    } else {
      assert Printed(n)[..0] == [];
    }
  }

  /** A part that is a printed number counts as that number, up to the largest one of 64 bits. */
  lemma PrintedValue(n: nat)
    ensures Value(Printed(n)) == if n > 0x7FFF_FFFF_FFFF_FFFF then 0x7FFF_FFFF_FFFF_FFFF else n
  {
    PrintedDigits(n);
    var s := Printed(n);
    assert '-' !in s by {
      assert forall i | 0 <= i < |s| :: IsDigit(s[i]) && s[i] != '-';
    }
    SplitWhole(s, '-');
    AtoiReadsDigits(s, "");
    assert s + "" == s;
  }

  /** A part that begins with neither a digit nor a sign, or is empty, counts as 0. */
  lemma NoNumber(s: string)
    requires s == [] || (!IsDigit(s[0]) && s[0] != '+' && s[0] != '-')
    ensures Atoi(s) == 0
  {}

  // ---------------------------------------------------------------- the comparison

  function TrimPrefix(s: string, p: char): string {
    if s != [] && s[0] == p then s[1..] else s
  }

  function Clean(tag: string): string {
    TrimPrefix(TrimSpace(tag), 'v')
  }

  predicate IsDev(clean: string) {
    clean == "dev" || clean == ""
  }

  function Value(part: string): int {
    Atoi(Split(part, '-')[0])
  }

  /** The i-th number of a cleaned tag, 0 beyond the last. */
  function At(clean: string, i: nat): int {
    if i < |Split(clean, '.')| then Value(Split(clean, '.')[i]) else 0
  }

  method CompareVersions(v1: string, v2: string) returns (r: int)
    ensures r == -1 || r == 0 || r == 1
    ensures r == -1 <==> Older(v1, v2)
    ensures r == 1 <==> Older(v2, v1)
    ensures r == 0 <==> Equivalent(v1, v2)
  {
    var c1, c2 := Clean(v1), Clean(v2);
    if c2 == "dev" || c2 == "" {
      if c1 != "" && c1 != "dev" { return 1; }
      return 0;
    }
    if c1 == "dev" || c1 == "" { return -1; }
    var p1, p2 := Split(c1, '.'), Split(c2, '.');
    var i := 0;
    while i < |p1| || i < |p2|
      invariant 0 <= i
      invariant AgreeTo(c1, c2, i)
      decreases |p1| + |p2| - i
    {
      var n1, n2 := 0, 0;
      if i < |p1| { n1 := Atoi(Split(p1[i], '-')[0]); }
      if i < |p2| { n2 := Atoi(Split(p2[i], '-')[0]); }
      if n1 != n2 {
        if n1 > n2 {
          LessAt(c2, c1, i);
          return 1;
        }
        LessAt(c1, c2, i);
        return -1;
      }
      i := i + 1;
    }
    assert SameNumbers(c1, c2);
    return 0;
  }

  // ---------------------------------------------------------------- the order it computes

  predicate AgreeTo(a: string, b: string, n: nat) {
    forall j: nat | j < n :: At(a, j) == At(b, j)
  }

  /** `a` and `b` first differ at `i`, where `a` is smaller. */
  predicate SmallerAt(a: string, b: string, i: nat) {
    AgreeTo(a, b, i) && At(a, i) < At(b, i)
  }

  /** Lexicographic order of the numbers, continued by zeros without end. */
  ghost predicate Smaller(a: string, b: string) {
    exists i: nat :: SmallerAt(a, b, i)
  }

  ghost predicate SameNumbers(a: string, b: string) {
    forall i: nat :: At(a, i) == At(b, i)
  }

  /** "dev" and the empty tag are older than every release. */
  ghost predicate Older(v1: string, v2: string) {
    var a, b := Clean(v1), Clean(v2);
    !IsDev(b) && (IsDev(a) || Smaller(a, b))
  }

  ghost predicate Equivalent(v1: string, v2: string) {
    var a, b := Clean(v1), Clean(v2);
    IsDev(a) == IsDev(b) && (IsDev(a) || SameNumbers(a, b))
  }

  /** A first difference rules out equality and the opposite order. */
  lemma LessAt(a: string, b: string, i: nat)
    requires SmallerAt(a, b, i)
    ensures Smaller(a, b) && !Smaller(b, a) && !SameNumbers(a, b)
  {
    forall j: nat ensures !SmallerAt(b, a, j) {
      if j < i { assert At(a, j) == At(b, j); }
    }
  }

  lemma SmallerTransitive(a: string, b: string, c: string)
    requires Smaller(a, b) && Smaller(b, c)
    ensures Smaller(a, c)
  {
    var i: nat :| SmallerAt(a, b, i);
    var j: nat :| SmallerAt(b, c, j);
    assert SmallerAt(a, c, if i < j then i else j);
  }

  lemma SmallerRespectsSame(a: string, b: string, c: string)
    requires SameNumbers(b, c)
    ensures Smaller(a, b) <==> Smaller(a, c)
    ensures Smaller(b, a) <==> Smaller(c, a)
  {
    forall i: nat ensures SmallerAt(a, b, i) <==> SmallerAt(a, c, i) {}
    forall i: nat ensures SmallerAt(b, a, i) <==> SmallerAt(c, a, i) {}
  }

  /** Of any two tags exactly one is older, or they are equivalent. */
  lemma Trichotomy(v1: string, v2: string)
    ensures Older(v1, v2) || Older(v2, v1) || Equivalent(v1, v2)
    ensures !(Older(v1, v2) && Older(v2, v1))
    ensures Equivalent(v1, v2) ==> !Older(v1, v2) && !Older(v2, v1)
  {
    var a, b := Clean(v1), Clean(v2);
    FirstDifference(a, b);
    if Smaller(a, b) {
      var i: nat :| SmallerAt(a, b, i);
      LessAt(a, b, i);
    } else if Smaller(b, a) {
      var i: nat :| SmallerAt(b, a, i);
      LessAt(b, a, i);
    }
  }

  lemma FirstDifference(a: string, b: string)
    ensures Smaller(a, b) || Smaller(b, a) || SameNumbers(a, b)
  {
    var n := |Split(a, '.')| + |Split(b, '.')|;
    var i := 0;
    while i < n && At(a, i) == At(b, i)
      invariant 0 <= i <= n && AgreeTo(a, b, i)
    {
      i := i + 1;
    }
    if i < n {
      assert SmallerAt(a, b, i) || SmallerAt(b, a, i);
    }
  }

  /** Development tags are "dev" and the empty tag, with or without a "v"; each is older than any other tag. */
  lemma DevelopmentTags(v: string)
    ensures var dev := TrimSpace(v) in ["dev", "vdev", "", "v"];
      && (dev ==> Equivalent(v, "dev") && Equivalent(v, ""))
      && (!dev ==> Older("dev", v) && Older("", v))
  {
    assert TrimLeft("dev") == "dev" && TrimRight("dev") == "dev" && Clean("dev") == "dev" && Clean("") == "";
    var t := TrimSpace(v);
    if t != [] && t[0] == 'v' { assert t == ['v'] + t[1..]; }
    var all := ["dev", "vdev", "", "v"];
    assert all[0] == "dev" && all[1] == ['v'] + "dev" && all[2] == "" && all[3] == ['v'] + "";
  }

  ghost predicate NotNewer(v1: string, v2: string) {
    Older(v1, v2) || Equivalent(v1, v2)
  }

  /** "Not newer than" is a total preorder on all strings. */
  lemma TotalPreorder(v1: string, v2: string, v3: string)
    ensures NotNewer(v1, v1)
    ensures NotNewer(v1, v2) || NotNewer(v2, v1)
    ensures NotNewer(v1, v2) && NotNewer(v2, v3) ==> NotNewer(v1, v3)
    ensures NotNewer(v1, v2) && NotNewer(v2, v1) <==> Equivalent(v1, v2)
  {
    Trichotomy(v1, v1);
    Trichotomy(v1, v2);
    var a, b, c := Clean(v1), Clean(v2), Clean(v3);
    if NotNewer(v1, v2) && NotNewer(v2, v3) && !IsDev(a) {
      if Smaller(a, b) && Smaller(b, c) {
        SmallerTransitive(a, b, c);
      } else if Smaller(b, c) {
        SmallerRespectsSame(c, a, b);
      } else {
        SmallerRespectsSame(a, b, c);
      }
    }
  }

  // ---------------------------------------------------------------- releases as lists of numbers

  /** The numbers printed and joined by dots. */
  function Tag(ns: seq<nat>): string
    requires ns != []
  {
    if |ns| == 1 then Printed(ns[0]) else Printed(ns[0]) + ['.'] + Tag(ns[1..])
  }

  function NumberAt(ns: seq<nat>, i: nat): nat {
    if i < |ns| then ns[i] else 0
  }

  lemma {:induction false} TagParts(ns: seq<nat>)
    requires ns != []
    ensures Split(Tag(ns), '.') == seq(|ns|, i requires 0 <= i < |ns| => Printed(ns[i]))
  {
    PrintedDigits(ns[0]);
    var s := Printed(ns[0]);
    assert '.' !in s by { assert forall i | 0 <= i < |s| :: IsDigit(s[i]) && s[i] != '.'; }
    SplitWhole(s, '.');
    if |ns| > 1 {
      TagParts(ns[1..]);
      SplitConcat(s, Tag(ns[1..]), '.');
    }
  }

  lemma TagNumbers(ns: seq<nat>, i: nat)
    requires ns != [] && forall n | n in ns :: n <= MAX_INT64
    ensures At(Tag(ns), i) == NumberAt(ns, i)
  {
    TagParts(ns);
    if i < |ns| {
      assert ns[i] in ns;
      PrintedValue(ns[i]);
    }
  }

  lemma {:induction false} TagEnds(ns: seq<nat>)
    requires ns != []
    ensures var t := Tag(ns); t != [] && IsDigit(t[0]) && IsDigit(t[|t| - 1])
  {
    PrintedDigits(ns[0]);
    if |ns| > 1 { TagEnds(ns[1..]); }
  }

  lemma TagIsClean(ns: seq<nat>)
    requires ns != []
    ensures Clean(Tag(ns)) == Tag(ns) && !IsDev(Tag(ns))
  {
    TagEnds(ns);
    var t := Tag(ns);
    assert !IsSpace(t[0]) && !IsSpace(t[|t| - 1]);
    assert TrimLeft(t) == t && TrimRight(t) == t;
    assert t[0] != 'v' && t[0] != 'd';
  }

  /** Releases are compared number by number, the shorter one continued by zeros: 1.9 is older than 1.10. */
  lemma ReleaseOrder(a: seq<nat>, b: seq<nat>)
    requires a != [] && b != [] && forall n | n in a + b :: n <= MAX_INT64
    ensures Older(Tag(a), Tag(b)) <==>
      exists i: nat :: NumberAt(a, i) < NumberAt(b, i) && forall j: nat | j < i :: NumberAt(a, j) == NumberAt(b, j)
  {
    TagIsClean(a);
    TagIsClean(b);
    assert forall n | n in a || n in b :: n in a + b;
    forall i: nat ensures At(Tag(a), i) == NumberAt(a, i) && At(Tag(b), i) == NumberAt(b, i) {
      TagNumbers(a, i);
      TagNumbers(b, i);
    }
    forall i: nat ensures SmallerAt(Tag(a), Tag(b), i) <==>
      NumberAt(a, i) < NumberAt(b, i) && forall j: nat | j < i :: NumberAt(a, j) == NumberAt(b, j)
    {}
  }

  // ---------------------------------------------------------------- spelling that does not matter

  lemma {:induction false} TrimRightKeeps(s: string, t: string)
    requires t != [] && TrimRight(t) == t
    ensures TrimRight(s + t) == s + t
  {
    assert (s + t)[|s + t| - 1] == t[|t| - 1];
    TrimRightStops(t);
  }

  lemma TrimLeftFirst(s: string)
    requires s != []
    ensures IsSpace(s[0]) ==> |TrimLeft(s)| < |s|
  {
    TrimLeftStops(s[1..]);
  }

  /** A trimmed tag neither starts nor ends with a blank. */
  lemma Trimmed(s: string)
    requires TrimSpace(s) == s
    ensures TrimLeft(s) == s && TrimRight(s) == s
  {
    TrimLeftStops(s);
    TrimRightStops(TrimLeft(s));
    assert |TrimLeft(s)| == |s|;
    if s != [] { TrimLeftFirst(s); }
  }

  /** One leading "v" makes no difference. */
  lemma LeadingV(v: string)
    requires TrimSpace(v) == v && !(v != [] && v[0] == 'v')
    ensures Equivalent("v" + v, v)
  {
    Trimmed(v);
    var t := "v" + v;
    assert t[0] == 'v' && t[1..] == v;
    assert TrimLeft(t) == t;
    if v != [] { TrimRightKeeps("v", v); }
    assert Clean(t) == v == Clean(v);
  }

  lemma ZeroPart()
    ensures Value("0") == 0
  {
    assert '-' !in "0";
    SplitWhole("0", '-');
    assert ParseUint("0", 0) == ParseUint("", 0);
  }

  lemma AppendZero(clean: string)
    ensures SameNumbers(clean, clean + ".0")
  {
    assert clean + ".0" == clean + ['.'] + "0";
    SplitConcat(clean, "0", '.');
    SplitWhole("0", '.');
    ZeroPart();
    var p := Split(clean, '.');
    assert Split(clean + ".0", '.') == p + ["0"];
    forall i: nat ensures At(clean, i) == At(clean + ".0", i) {
      if i < |p| { assert (p + ["0"])[i] == p[i]; }
      else if i == |p| { assert (p + ["0"])[i] == "0"; }
    }
  }

  /** A trailing ".0" makes no difference, except that it turns a development tag into a release. */
  lemma TrailingZero(v: string)
    requires TrimSpace(v) == v
    ensures Equivalent(v, v + ".0") <==> !IsDev(Clean(v))
  {
    Trimmed(v);
    var t := v + ".0";
    assert TrimRight(".0") == ".0";
    TrimRightKeeps(v, ".0");
    if v != [] {
      TrimLeftStops(v);
      assert t[0] == v[0];
    }
    assert TrimLeft(t) == t;
    assert Clean(t) == Clean(v) + ".0";
    AppendZero(Clean(v));
    NotDev(Clean(v));
  }

  lemma NotDev(clean: string)
    ensures !IsDev(clean + ".0")
  {
    var t := clean + ".0";
    assert t[|t| - 1] == '0';
  }

  /** No part is ever negative: it is cut at its first '-'. */
  lemma PartsAreNatural(part: string)
    ensures 0 <= Value(part) <= MAX_INT64
  {
    PartsHaveNoSeparator(part, '-');
    var s := Split(part, '-')[0];
    assert s in Split(part, '-');
  }

  // ---------------------------------------------------------------- suffixes after a dash

  /** The last part of `p` and the first of `q` grow together. */
  function Glue(p: seq<string>, q: seq<string>): (r: seq<string>)
    requires |p| >= 1 && |q| >= 1
    ensures |r| == |p| + |q| - 1
  {
    p[..|p| - 1] + [p[|p| - 1] + q[0]] + q[1..]
  }

  lemma FrontGlue(c: char, p: seq<string>, q: seq<string>, sep: char)
    requires |p| >= 1 && |q| >= 1
    ensures SplitFront(c, Glue(p, q), sep) == Glue(SplitFront(c, p, sep), q)
  {
    if c != sep && |p| == 1 {
      assert [c] + (p[0] + q[0]) == [c] + p[0] + q[0];
    }
  }

  /** Concatenating texts glues their parts. */
  lemma {:induction false} SplitGlue(a: string, t: string, sep: char)
    ensures Split(a + t, sep) == Glue(Split(a, sep), Split(t, sep))
  {
    if a == [] {
      assert a + t == t;
      assert "" + Split(t, sep)[0] == Split(t, sep)[0];
    } else {
      SplitGlue(a[1..], t, sep);
      assert (a + t)[1..] == a[1..] + t;
      FrontGlue(a[0], Split(a[1..], sep), Split(t, sep), sep);
    }
  }

  /** A part is read up to its first '-', so what follows one does not count. */
  lemma SuffixIgnored(part: string, suffix: string)
    ensures Value(part + "-" + suffix) == Value(part)
  {
    assert part + "-" + suffix == part + ['-'] + suffix;
    SplitConcat(part, suffix, '-');
  }

  /** Some part of the suffix after its first dot has a positive number. */
  predicate AddsNumbers(suffix: string) {
    exists k :: 0 < k < |Split(suffix, '.')| && Value(Split(suffix, '.')[k]) > 0
  }

  lemma SuffixParts(c: string, suffix: string)
    ensures Split(c + "-" + suffix, '.')
         == Glue(AppendToLast(Split(c, '.'), "-"), Split(suffix, '.'))
  {
    SplitGlue(c + "-", suffix, '.');
    SplitGlue(c, "-", '.');
    SplitWhole("-", '.');
    GlueOne(Split(c, '.'), "-");
  }

  lemma GlueOne(p: seq<string>, t: string)
    requires |p| >= 1
    ensures Glue(p, [t]) == AppendToLast(p, t)
  {
    assert [t][1..] == [];
  }

  function AppendToLast(p: seq<string>, t: string): (q: seq<string>)
    requires |p| >= 1
    ensures |q| == |p|
  {
    p[..|p| - 1] + [p[|p| - 1] + t]
  }

  /** Reading glued parts by any reader that stops at the dash. */
  lemma GlueAt(p: seq<string>, q: seq<string>, read: string -> int, i: nat)
    requires |p| >= 1 && |q| >= 1
    requires read(p[|p| - 1] + "-" + q[0]) == read(p[|p| - 1])
    ensures var r := Glue(AppendToLast(p, "-"), q);
      (if i < |r| then read(r[i]) else 0)
      == if i < |p| then read(p[i]) else if i - |p| + 1 < |q| then read(q[i - |p| + 1]) else 0
  {
  }

  /** The numbers of a suffixed tag: those of the tag, then those of the suffix behind its first dot. */
  lemma SuffixNumbers(c: string, suffix: string, i: nat)
    ensures var n, q := |Split(c, '.')|, Split(suffix, '.');
      At(c + "-" + suffix, i) ==
        if i < n then At(c, i) else if i - n + 1 < |q| then Value(q[i - n + 1]) else 0
  {
    var p, q := Split(c, '.'), Split(suffix, '.');
    SuffixParts(c, suffix);
    SuffixIgnored(p[|p| - 1], q[0]);
    GlueAt(p, q, Value, i);
  }

  lemma SuffixAdds(c: string, suffix: string, i: nat)
    ensures At(c + "-" + suffix, i) >= At(c, i)
    ensures !AddsNumbers(suffix) ==> At(c + "-" + suffix, i) == At(c, i)
  {
    SuffixNumbers(c, suffix, i);
    var k := i - |Split(c, '.')| + 1;
    if 0 < k < |Split(suffix, '.')| { PartsAreNatural(Split(suffix, '.')[k]); }
  }

  lemma SuffixShows(c: string, suffix: string)
    requires AddsNumbers(suffix)
    ensures !SameNumbers(c, c + "-" + suffix)
  {
    var q := Split(suffix, '.');
    var k :| 0 < k < |q| && Value(q[k]) > 0;
    var i := |Split(c, '.')| + k - 1;
    SuffixNumbers(c, suffix, i);
    assert At(c + "-" + suffix, i) > At(c, i);
  }

  /**
    A suffix never makes the numbers smaller; it makes them larger exactly when it adds a
    positive number behind a dot, and otherwise leaves them the same.
  */
  lemma SuffixLaw(c: string, suffix: string)
    ensures !Smaller(c + "-" + suffix, c)
    ensures Smaller(c, c + "-" + suffix) <==> AddsNumbers(suffix)
    ensures SameNumbers(c, c + "-" + suffix) <==> !AddsNumbers(suffix)
  {
    var t := c + "-" + suffix;
    forall i: nat ensures At(t, i) >= At(c, i) && (!AddsNumbers(suffix) ==> At(t, i) == At(c, i)) {
      SuffixAdds(c, suffix, i);
    }
    if AddsNumbers(suffix) { SuffixShows(c, suffix); }
    NeverSmaller(c, t);
  }

  lemma NeverSmaller(a: string, b: string)
    requires forall i: nat :: At(b, i) >= At(a, i)
    ensures !Smaller(b, a) && (Smaller(a, b) <==> !SameNumbers(a, b))
  {
    FirstDifference(a, b);
    if Smaller(a, b) {
      var i: nat :| SmallerAt(a, b, i);
      LessAt(a, b, i);
    }
  }

  /**
    Among whole tags a suffixed one is never the older.  It is newer when the suffix adds a
    number or the tag was a development one, and otherwise equivalent - under section 11 of
    Semantic Versioning 2.0.0 a pre-release would always be older than its release.
  */
  lemma SuffixedTag(v: string, suffix: string)
    requires TrimSpace(v) == v && TrimRight(suffix) == suffix
    ensures !Older(v + "-" + suffix, v)
    ensures Older(v, v + "-" + suffix) <==> IsDev(Clean(v)) || AddsNumbers(suffix)
    ensures Equivalent(v, v + "-" + suffix) <==> !IsDev(Clean(v)) && !AddsNumbers(suffix)
  {
    var c, t := Clean(v), v + "-" + suffix;
    CleanSuffixed(v, suffix);
    assert t == v + ("-" + suffix);
    assert '-' in c + "-" + suffix by { assert (c + "-" + suffix)[|c|] == '-'; }
    assert !IsDev(Clean(t));
    SuffixLaw(c, suffix);
  }

  lemma TrimFront(v: string, t: string)
    requires TrimLeft(v) == v && (v != [] ==> t != [] && t[0] == v[0]) && (v == [] ==> t != [] && !IsSpace(t[0]))
    ensures TrimLeft(t) == t
  {
    TrimLeftStops(v);
  }

  lemma CleanSuffixed(v: string, suffix: string)
    requires TrimSpace(v) == v && TrimRight(suffix) == suffix
    ensures Clean(v + "-" + suffix) == Clean(v) + "-" + suffix
  {
    Trimmed(v);
    var t := v + "-" + suffix;
    assert t == v + ("-" + suffix);
    DashTrims(suffix);
    TrimRightKeeps(v, "-" + suffix);
    assert v == [] ==> t[0] == '-';
    assert v != [] ==> t[0] == v[0];
    TrimFront(v, t);
  }

  lemma DashTrims(suffix: string)
    requires TrimRight(suffix) == suffix
    ensures TrimRight("-" + suffix) == "-" + suffix
  {
    if suffix != [] { TrimRightKeeps("-", suffix); }
  }

  /** So "-rc.1" makes every release newer, and "-beta" makes no difference to any. */
  lemma PreReleaseIsNewer(v: string)
    requires TrimSpace(v) == v && !IsDev(Clean(v))
    ensures Older(v, v + "-" + "rc.1") && Equivalent(v, v + "-" + "beta")
  {
    assert TrimRight("rc.1") == "rc.1" && TrimRight("beta") == "beta";
    SuffixedTag(v, "rc.1");
    SuffixedTag(v, "beta");
    assert "rc" + ['.'] + "1" == "rc.1";
    SplitConcat("rc", "1", '.');
    SplitWhole("rc", '.');
    SplitWhole("1", '.');
    SplitWhole("beta", '.');
    OnePart();
    assert Split("rc.1", '.')[1] == "1";
  }

  lemma OnePart()
    ensures Value("1") == 1
  {
    SplitWhole("1", '-');
    assert ParseUint("1", 0) == ParseUint("", 1);
  }
}
