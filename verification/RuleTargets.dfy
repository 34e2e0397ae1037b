/**
  Status-page targets that stand for a desired rule.  An inspection stores the item of a rule as
  "ok" or "drift"; the page compares that text with the text the rule expects of the item itself,
  such as "running" or "<85%".  This module says what the comparison makes of healthy and drifting
  rules, check by check and over a day.
*/
module RuleTargets {

  import opened Wrappers
  import Rollups

  /** What evaluateRule finds, and the text the inspection stores for it. */
  datatype Health = Healthy | Drifting

  function Text(h: Health): string {
    if h == Healthy then "ok" else "drift"
  }

  /** The lower-case letter a character folds to, or the character: Kelvin sign and long s fold to letters too. */
  function Fold(c: char): char {
    if 'A' <= c <= 'Z' then (c as int + 32) as char
    else if c == '\U{212A}' then 'k'
    else if c == '\U{17F}' then 's'
    else c
  }

  /** strings.EqualFold, given that one of the texts is ASCII, as the stored one is. */
  predicate EqualFold(a: string, b: string) {
    |a| == |b| && forall i | 0 <= i < |a| :: Fold(a[i]) == Fold(b[i])
  }

  datatype Rule = Rule(kind: string, expected: string)

  /** Kinds whose mismatch counts as an outage and not merely as degraded. */
  predicate IsLoud(kind: string) {
    kind == "service" || kind == "port" || kind == "container" || kind == "process"
  }

  /** The status recorded for the target; `rule` and `stored` are what the two queries find. */
  function Recorded(hostStatus: string, rule: Option<Rule>, stored: Option<string>): Rollups.Check {
    if hostStatus == "down" then Rollups.Outage
    else if rule.Some? && stored.Some? && stored.value != "" && !EqualFold(stored.value, rule.value.expected)
         && stored.value != "running" && stored.value != "active"
    then Mismatch(rule.value.kind)
    else Rollups.Operational
  }

  function Mismatch(kind: string): Rollups.Check {
    if IsLoud(kind) then Rollups.Outage else Rollups.Degraded
  }

  /** The status recorded for a rule whose item was stored by an inspection. */
  function Shown(hostStatus: string, rule: Rule, h: Health): Rollups.Check {
    Recorded(hostStatus, Some(rule), Some(Text(h)))
  }

  /** A host that is down is an outage, and what cannot be found is not held against a target. */
  lemma WithoutComparison(hostStatus: string, rule: Option<Rule>, stored: Option<string>)
    ensures hostStatus == "down" ==> Recorded(hostStatus, rule, stored) == Rollups.Outage
    ensures hostStatus != "down" && (rule.None? || stored.None? || stored.value in ["", "running", "active"]) ==>
      Recorded(hostStatus, rule, stored) == Rollups.Operational
  {
    var named := ["", "running", "active"];
    assert named[0] == "" && named[1] == "running" && named[2] == "active";
  }

  /** The texts that compare equal to "ok". */
  lemma ReadsOk(expected: string)
    ensures EqualFold("ok", expected) <==>
      |expected| == 2 && expected[0] in "oO" && expected[1] in "kK\U{212A}"
  {
    var ok := "ok";
    assert ok[0] == 'o' && ok[1] == 'k' && Fold('o') == 'o' && Fold('k') == 'k';
    if |expected| == 2 {
      FoldsToLetter(expected[0], 'o');
      FoldsToLetter(expected[1], 'k');
      var o, k := "oO", "kK\U{212A}";
      assert o[0] == 'o' && o[1] == 'O' && k[0] == 'k' && k[1] == 'K' && k[2] == '\U{212A}';
    }
  }

  /** What folds to a lower-case letter: the letter, its capital and, for two of them, one character more. */
  lemma FoldsToLetter(c: char, letter: char)
    requires 'a' <= letter <= 'z'
    ensures Fold(c) == letter <==>
      || c == letter || c as int + 32 == letter as int
      || (c == '\U{212A}' && letter == 'k') || (c == '\U{17F}' && letter == 's')
  {}

  /**
    The page tells the health of a rule exactly if its host is not down and its expected text reads
    "ok": then it is operational when healthy and otherwise not.
  */
  lemma TellsHealthIff(hostStatus: string, rule: Rule)
    ensures (forall h :: Shown(hostStatus, rule, h) == Rollups.Operational <==> h == Healthy)
      <==> hostStatus != "down" && EqualFold("ok", rule.expected)
  {
    NotBoth(rule.expected);
    assert Shown(hostStatus, rule, Healthy) == Rollups.Operational
      <==> hostStatus != "down" && EqualFold("ok", rule.expected);
    assert Shown(hostStatus, rule, Drifting) == Rollups.Operational
      <==> hostStatus != "down" && EqualFold("drift", rule.expected);
  }

  lemma NotBoth(expected: string)
    ensures !(EqualFold("ok", expected) && EqualFold("drift", expected))
  {
    assert |"ok"| != |"drift"|;
  }

  /**
    Healthy and drifting rules look alike exactly if the host is down or the expected text reads
    neither "ok" nor "drift"; unless the host is down both then look broken.
  */
  lemma LooksAlikeIff(hostStatus: string, rule: Rule)
    ensures Shown(hostStatus, rule, Healthy) == Shown(hostStatus, rule, Drifting)
      <==> hostStatus == "down" || !(EqualFold("ok", rule.expected) || EqualFold("drift", rule.expected))
    ensures hostStatus != "down" && Shown(hostStatus, rule, Healthy) == Shown(hostStatus, rule, Drifting)
      ==> Shown(hostStatus, rule, Healthy) == Mismatch(rule.kind)
  {
    NotBoth(rule.expected);
  }

  /** The rules that GenerateBaseline makes, by kind and expected text. */
  predicate FromBaseline(rule: Rule) {
    || rule == Rule("disk", "<85%") || rule == Rule("container", "running")
    || rule == Rule("service", "active") || rule == Rule("cron", "configured")
  }

  /** No rule of a generated baseline reads "ok" or "drift". */
  lemma BaselineReadsNeither(rule: Rule)
    requires FromBaseline(rule)
    ensures !EqualFold("ok", rule.expected) && !EqualFold("drift", rule.expected)
  {
    ReadsOk(rule.expected);
    var e, drift := rule.expected, "drift";
    assert |"<85%"| == 4 && |"running"| == 7 && |"active"| == 6 && |"configured"| == 10 && |drift| == 5;
  }

  // ---------------------------------------------------------------- over a day

  /** One inspection: the status it gives the host, and what it finds about the rule. */
  datatype Sight = Sight(hostStatus: string, health: Health)

  function Checks(rule: Rule, sights: seq<Sight>): seq<Rollups.Check> {
    seq(|sights|, i requires 0 <= i < |sights| => Shown(sights[i].hostStatus, rule, sights[i].health))
  }

  lemma {:induction false} AllOfOneKind(checks: seq<Rollups.Check>, one: Rollups.Check)
    requires forall c | c in checks :: c == one
    ensures multiset(checks)[one] == |checks|
    ensures forall c | c != one :: multiset(checks)[c] == 0
  {
    if checks != [] {
      var n := |checks| - 1;
      assert checks == checks[..n] + [checks[n]];
      assert checks[n] in checks && forall c | c in checks[..n] :: c in checks;
      AllOfOneKind(checks[..n], one);
    }
  }

  lemma HalfOrNothing(n: nat)
    requires n > 0
    ensures Rollups.Round2(Rollups.Percentage(0, 0, n)) == 0.0
    ensures Rollups.Round2(Rollups.Percentage(0, n, n)) == 50.0
  {
    var r := n as real;
    assert (0.5 * r) * 100.0 == 50.0 * r;
    assert (50.0 * r) / r == 50.0;
    assert Rollups.Round2(50.0) == 50.0 && Rollups.Round2(0.0) == 0.0;
  }

  lemma UniformDay(checks: seq<Rollups.Check>, one: Rollups.Check)
    requires checks != [] && forall c | c in checks :: c == one
    requires one == Rollups.Outage || one == Rollups.Degraded
    ensures var n := |checks|;
      Rollups.RecordAll(checks) ==
        if one == Rollups.Outage then Rollups.Row(n, 0, 0, n, 0.0) else Rollups.Row(n, 0, n, 0, 50.0)
  {
    AllOfOneKind(checks, one);
    Rollups.RowIsTheFold(checks);
    HalfOrNothing(|checks|);
  }

  lemma ChecksAlike(rule: Rule, sights: seq<Sight>)
    requires forall s | s in sights :: s.hostStatus != "down"
    requires !EqualFold("ok", rule.expected) && !EqualFold("drift", rule.expected)
    ensures forall c | c in Checks(rule, sights) :: c == Mismatch(rule.kind)
  {
    forall i | 0 <= i < |sights| ensures Checks(rule, sights)[i] == Mismatch(rule.kind) {
      assert sights[i] in sights;
      LooksAlikeIff(sights[i].hostStatus, rule);
    }
  }

  /**
    A whole day, whatever was found.  Unless its expected text reads "ok" or "drift", the row of a
    rule whose host was never down is the same for every course of healthy and drifting checks: an
    uptime of 0 for a service, port, container or process and of 50 for anything else, and the day
    is shown as an outage either way.
  */
  lemma DayHidesHealth(rule: Rule, sights: seq<Sight>)
    requires sights != [] && forall s | s in sights :: s.hostStatus != "down"
    requires !EqualFold("ok", rule.expected) && !EqualFold("drift", rule.expected)
    ensures var row := Rollups.RecordAll(Checks(rule, sights));
      && row == (if rule.kind in ["service", "port", "container", "process"]
                 then Rollups.Row(|sights|, 0, 0, |sights|, 0.0)
                 else Rollups.Row(|sights|, 0, |sights|, 0, 50.0))
      && Rollups.DayLevel(row) == 2
  {
    var loud := ["service", "port", "container", "process"];
    assert loud[0] == "service" && loud[1] == "port" && loud[2] == "container" && loud[3] == "process";
    ChecksAlike(rule, sights);
    UniformDay(Checks(rule, sights), Mismatch(rule.kind));
  }

  /** So the rules of a generated baseline are shown as an outage on every such day, healthy or not. */
  lemma BaselineNeverOperational(rule: Rule, sights: seq<Sight>)
    requires FromBaseline(rule) && sights != [] && forall s | s in sights :: s.hostStatus != "down"
    ensures Rollups.DayLevel(Rollups.RecordAll(Checks(rule, sights))) == 2
  {
    BaselineReadsNeither(rule);
    DayHidesHealth(rule, sights);
  }
}
