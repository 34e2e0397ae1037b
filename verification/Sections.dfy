/**
  The splitter of the batched metrics output: the sections of one remote command, separated by
  lines that read "---".
*/
module Sections {

  import opened Strings
  import opened Wrappers

  const MARKER: string := "---"
  const SEPARATOR: string := "\n---\n"

  function Lines(s: string): (lines: seq<string>)
    ensures |lines| >= 1
  {
    Split(s, '\n')
  }

  predicate IsMarker(line: string) {
    TrimSpace(line) == MARKER
  }

  /** The section in progress after one more of its lines. */
  function Grow(cur: string, line: string): string {
    if cur != "" then cur + "\n" + line else line
  }

  /** The sections of the lines, the first of them continuing `cur`. */
  function Scan(lines: seq<string>, cur: string): (sections: seq<string>)
    ensures |sections| >= 1
  {
    if lines == [] then [cur]
    else if IsMarker(lines[0]) then [cur] + Scan(lines[1..], "")
    else Scan(lines[1..], Grow(cur, lines[0]))
  }

  function Sectioned(stdout: string): seq<string> {
    Scan(Lines(stdout), "")
  }

  /** What the loop has done so far, one line further. */
  lemma ScanFront(done: seq<string>, lines: seq<string>, i: nat, cur: string)
    requires i < |lines|
    ensures done + Scan(lines[i..], cur) ==
      if IsMarker(lines[i]) then (done + [cur]) + Scan(lines[i + 1..], "")
      else done + Scan(lines[i + 1..], Grow(cur, lines[i]))
  {
    assert lines[i..][0] == lines[i] && lines[i..][1..] == lines[i + 1..];
    if IsMarker(lines[i]) {
      var rest := Scan(lines[i + 1..], "");
      assert done + ([cur] + rest) == (done + [cur]) + rest;
    }
  }

  method SplitMetricsSections(stdout: string) returns (sections: seq<string>)
    ensures sections == Sectioned(stdout)
  {
    var lines := Lines(stdout);
    sections := [];
    var cur := "";
    var i := 0;
    while i < |lines|
      invariant 0 <= i <= |lines|
      invariant sections + Scan(lines[i..], cur) == Sectioned(stdout)
    {
      var line := lines[i];
      ScanFront(sections, lines, i, cur);
      if TrimSpace(line) == MARKER {
        sections := sections + [cur];
        cur := "";
      } else {
        ghost var before := cur;
        if |cur| > 0 {
          cur := cur + "\n";
        }
        cur := cur + line;
        assert cur == Grow(before, line);
      }
      i := i + 1;
    }
    sections := sections + [cur];
  }

  // ---------------------------------------------------------------- counting markers

  function Markers(lines: seq<string>): nat {
    if lines == [] then 0 else (if IsMarker(lines[0]) then 1 else 0) + Markers(lines[1..])
  }

  lemma {:induction false} MarkersConcat(a: seq<string>, b: seq<string>)
    ensures Markers(a + b) == Markers(a) + Markers(b)
  {
    if a == [] {
      assert a + b == b;
    } else {
      MarkersConcat(a[1..], b);
      assert (a + b)[1..] == a[1..] + b;
    }
  }

  /** Every marker line ends one section, whatever else is in the output. */
  lemma {:induction false} ScanCounts(lines: seq<string>, cur: string)
    ensures |Scan(lines, cur)| == 1 + Markers(lines)
    decreases |lines|
  {
    if lines != [] {
      ScanCounts(lines[1..], if IsMarker(lines[0]) then "" else Grow(cur, lines[0]));
    }
  }

  lemma MarkerIsMarker()
    ensures IsMarker(MARKER)
  {
    assert TrimLeft(MARKER) == MARKER;
    assert TrimRight(MARKER) == MARKER;
  }

  /** A line is `text` with white space around it. */
  ghost predicate Padded(line: string, text: string) {
    exists a, b :: line == a + text + b && AllSpace(a) && AllSpace(b)
  }

  /** The marker lines are the three dashes with any white space around them. */
  lemma MarkerIff(line: string)
    ensures IsMarker(line) <==> Padded(line, "---")
  {
    var before, after := TrimSpaceCuts(line);
    if Padded(line, "---") {
      var a, b :| line == a + "---" + b && AllSpace(a) && AllSpace(b);
      TrimPadded(a, "---", b);
    }
  }

  /** The lines of a section, a separator and more text. */
  lemma SeparatorLines(a: string, b: string)
    ensures Lines(a + SEPARATOR + b) == Lines(a) + ([MARKER] + Lines(b))
  {
    var rest := MARKER + ['\n'] + b;
    assert a + SEPARATOR + b == a + ['\n'] + rest;
    SplitConcat(a, rest, '\n');
    SplitConcat(MARKER, b, '\n');
    SplitWhole(MARKER, '\n');
  }

  function TotalMarkers(sections: seq<string>): nat {
    if sections == [] then 0 else Markers(Lines(sections[0])) + TotalMarkers(sections[1..])
  }

  lemma {:induction false} JoinedMarkers(sections: seq<string>)
    requires sections != []
    ensures Markers(Lines(Join(sections, SEPARATOR))) == |sections| - 1 + TotalMarkers(sections)
  {
    if |sections| > 1 {
      JoinedMarkers(sections[1..]);
      var tail := Lines(Join(sections[1..], SEPARATOR));
      SeparatorLines(sections[0], Join(sections[1..], SEPARATOR));
      MarkersConcat(Lines(sections[0]), [MARKER] + tail);
      MarkersConcat([MARKER], tail);
      MarkerIsMarker();
      assert Markers([MARKER]) == 1;
    }
  }

  // ---------------------------------------------------------------- sections without a marker

  /** What the splitter makes of one section: it loses its leading newlines. */
  function Strip(s: string): string {
    if s != [] && s[0] == '\n' then Strip(s[1..]) else s
  }

  predicate MarkerFree(s: string) {
    Markers(Lines(s)) == 0
  }

  /** Adding the lines of `s` to a section in progress. */
  function Extend(cur: string, s: string): string {
    if cur != "" then cur + "\n" + s else Strip(s)
  }

  lemma {:induction false} ScanExtends(s: string, cur: string, rest: seq<string>)
    requires MarkerFree(s)
    ensures Scan(Lines(s) + rest, cur) == Scan(rest, Extend(cur, s))
    decreases |s|
  {
    var first, more := FirstLine(s);
    var after := (if more.Some? then Lines(more.value) else []) + rest;
    assert Lines(s) + rest == [first] + after;
    assert ([first] + after)[1..] == after;
    assert !IsMarker(first);
    assert Scan(Lines(s) + rest, cur) == Scan(after, Grow(cur, first));
    if more.Some? {
      ScanExtends(more.value, Grow(cur, first), rest);
      ExtendJoins(cur, first, more.value);
    } else {
      assert after == rest;
      StripLine(s);
    }
  }

  /** Cuts the first line off. */
  lemma FirstLine(s: string) returns (first: string, more: Option<string>)
    ensures '\n' !in first
    ensures more.None? ==> s == first && Lines(s) == [first]
    ensures more.Some? ==> s == first + "\n" + more.value && |more.value| < |s|
    ensures more.Some? ==> Lines(s) == [first] + Lines(more.value)
    ensures MarkerFree(s) ==> !IsMarker(first) && (more.Some? ==> MarkerFree(more.value))
  {
    if '\n' !in s {
      first, more := s, None;
      SplitWhole(s, '\n');
    } else {
      var k := IndexOf(s, '\n');
      first, more := s[..k], Some(s[k + 1..]);
      assert s == first + ['\n'] + s[k + 1..];
      SplitConcat(first, s[k + 1..], '\n');
      SplitWhole(first, '\n');
      assert Lines(s)[1..] == Lines(more.value);
    }
  }

  lemma {:induction false} IndexOf(s: string, c: char) returns (k: nat)
    requires c in s
    ensures k < |s| && s[k] == c && c !in s[..k]
  {
    if s[0] == c {
      k := 0;
    } else {
      k := IndexOf(s[1..], c);
      k := k + 1;
      assert s[..k] == [s[0]] + s[1..][..k - 1];
    }
  }

  lemma StripLine(s: string)
    requires '\n' !in s
    ensures Strip(s) == s
  {
  }

  lemma ExtendJoins(cur: string, first: string, more: string)
    requires '\n' !in first
    ensures Extend(Grow(cur, first), more) == Extend(cur, first + "\n" + more)
  {
    var s := first + "\n" + more;
    if cur != "" {
      assert cur + "\n" + first + "\n" + more == cur + "\n" + s;
    } else if first != "" {
      assert s[0] == first[0] && first[0] in first;
    } else {
      assert s[0] == '\n' && s[1..] == more;
    }
  }

  function StripAll(sections: seq<string>): seq<string> {
    seq(|sections|, i requires 0 <= i < |sections| => Strip(sections[i]))
  }

  /** Joined sections without marker lines come back one by one, without their leading newlines. */
  lemma {:induction false} SplitJoined(sections: seq<string>)
    requires sections != [] && forall s | s in sections :: MarkerFree(s)
    ensures Sectioned(Join(sections, SEPARATOR)) == StripAll(sections)
  {
    var s := sections[0];
    if |sections| == 1 {
      ScanExtends(s, "", []);
      assert Lines(s) + [] == Lines(s);
      assert Scan([], Strip(s)) == [Strip(s)] == StripAll(sections);
    } else {
      var tail := Join(sections[1..], SEPARATOR);
      SplitJoined(sections[1..]);
      SeparatorLines(s, tail);
      ScanExtends(s, "", [MARKER] + Lines(tail));
      MarkerIsMarker();
      assert ([MARKER] + Lines(tail))[1..] == Lines(tail);
      assert StripAll(sections) == [Strip(s)] + StripAll(sections[1..]);
    }
  }

  // ---------------------------------------------------------------- the inverse law

  /** A section that survives: no line trims to "---", and it does not start with a newline. */
  predicate Survives(s: string) {
    (forall line | line in Lines(s) :: !IsMarker(line)) && !(s != "" && s[0] == '\n')
  }

  lemma {:induction false} NoMarkerLines(lines: seq<string>)
    ensures Markers(lines) == 0 <==> forall line | line in lines :: !IsMarker(line)
  {
    if lines != [] {
      NoMarkerLines(lines[1..]);
      assert lines == [lines[0]] + lines[1..];
      assert forall line :: line in lines <==> line == lines[0] || line in lines[1..];
    }
  }

  lemma {:induction false} TotalZero(sections: seq<string>)
    ensures TotalMarkers(sections) == 0 <==> forall s | s in sections :: MarkerFree(s)
  {
    if sections != [] {
      TotalZero(sections[1..]);
      assert forall s | s in sections :: s == sections[0] || s in sections[1..];
      assert sections[0] in sections && forall s | s in sections[1..] :: s in sections;
    }
  }

  lemma {:induction false} StripShortens(s: string)
    ensures |Strip(s)| <= |s|
  {
    if s != [] { StripShortens(s[1..]); }
  }

  lemma StripKeeps(s: string)
    ensures Strip(s) == s <==> !(s != "" && s[0] == '\n')
  {
    if s != "" && s[0] == '\n' { StripShortens(s[1..]); }
  }

  /** Splitting undoes joining exactly for the lists of sections that all survive. */
  lemma SplitUndoesJoin(sections: seq<string>)
    requires sections != []
    ensures Sectioned(Join(sections, SEPARATOR)) == sections <==> forall s | s in sections :: Survives(s)
  {
    JoinedMarkers(sections);
    ScanCounts(Lines(Join(sections, SEPARATOR)), "");
    TotalZero(sections);
    forall s | s in sections ensures Survives(s) <==> MarkerFree(s) && Strip(s) == s {
      NoMarkerLines(Lines(s));
      StripKeeps(s);
    }
    if TotalMarkers(sections) == 0 {
      SplitJoined(sections);
      StripAllKeeps(sections);
    }
  }

  lemma StripAllKeeps(sections: seq<string>)
    ensures StripAll(sections) == sections <==> forall s | s in sections :: Strip(s) == s
  {
    var back := StripAll(sections);
    if back == sections {
      forall s | s in sections ensures Strip(s) == s {
        var i :| 0 <= i < |sections| && sections[i] == s;
        assert back[i] == Strip(s);
      }
    } else {
      var i :| 0 <= i < |sections| && back[i] != sections[i];
      assert sections[i] in sections;
    }
  }

  // ---------------------------------------------------------------- everything it returns survives

  lemma GrowSurvives(cur: string, line: string)
    requires Survives(cur) && '\n' !in line && !IsMarker(line)
    ensures Survives(Grow(cur, line))
  {
    SplitWhole(line, '\n');
    if cur != "" {
      assert cur + "\n" + line == cur + ['\n'] + line;
      SplitConcat(cur, line, '\n');
    }
  }

  lemma {:induction false} ScanSurvives(lines: seq<string>, cur: string)
    requires Survives(cur) && forall line | line in lines :: '\n' !in line
    ensures forall s | s in Scan(lines, cur) :: Survives(s)
    decreases |lines|
  {
    if lines != [] {
      if IsMarker(lines[0]) {
        EmptySurvives();
        ScanSurvives(lines[1..], "");
      } else {
        assert lines[0] in lines;
        GrowSurvives(cur, lines[0]);
        ScanSurvives(lines[1..], Grow(cur, lines[0]));
      }
    }
  }

  lemma EmptySurvives()
    ensures Survives("")
  {
    assert Lines("") == [""];
    assert TrimLeft("") == "" && TrimRight("") == "";
  }

  /** So joining what the splitter returned and splitting again changes nothing, for any output. */
  lemma SplittingIsStable(stdout: string)
    ensures Sectioned(Join(Sectioned(stdout), SEPARATOR)) == Sectioned(stdout)
  {
    PartsHaveNoSeparator(stdout, '\n');
    EmptySurvives();
    ScanSurvives(Lines(stdout), "");
    SplitUndoesJoin(Sectioned(stdout));
  }
}
