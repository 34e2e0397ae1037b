/**
  Uptime rollups of the public status page: one row per target and day, updated by an UPSERT
  whose right-hand sides read the old row; the ninety-day view built from them; and the
  deletion of old rows.  A day is a day number, so the dates of the source are consecutive
  integers and their order is the order of the date strings.
*/
module Rollups {

  datatype Check = Operational | Degraded | Outage | Unknown

  datatype Row = Row(total: nat, succ: nat, deg: nat, out: nat, uptime: real)

  datatype Key = Key(target: int, day: int)

  type Table = map<Key, Row>

  /** ROUND(x, 2) for x >= 0. */
  function Round2(x: real): real {
    (x * 100.0 + 0.5).Floor as real / 100.0
  }

  /** `y` is `x` to the nearest hundredth, halves upward. */
  ghost predicate Rounds(y: real, x: real) {
    (exists n: int :: y == Hundredth(n)) && -0.005 < y - x <= 0.005
  }

  function Hundredth(n: int): real {
    n as real / 100.0
  }

  lemma Round2Rounds(x: real)
    ensures Rounds(Round2(x), x)
  {
    var n := (x * 100.0 + 0.5).Floor;
    assert n as real <= x * 100.0 + 0.5 < n as real + 1.0;
    assert Round2(x) == Hundredth(n);
  }

  /** The unrounded percentage of `succ` full and `deg` half successes out of `total`. */
  function Percentage(succ: nat, deg: nat, total: nat): real
    requires total > 0
  {
    (succ as real + 0.5 * deg as real) * 100.0 / total as real
  }

  function FirstRow(status: Check): Row {
    match status
    case Operational => Row(1, 1, 0, 0, 100.0)
    case Degraded => Row(1, 0, 1, 0, 50.0)
    case Outage => Row(1, 0, 0, 1, 0.0)
    case Unknown => Row(1, 1, 0, 0, 100.0)
  }

  /** ON CONFLICT DO UPDATE SET: every right-hand side reads `old` and the excluded row. */
  function Merge(row: Row, excluded: Row): Row {
    Row(row.total + 1, row.succ + excluded.succ, row.deg + excluded.deg, row.out + excluded.out,
        Round2(Percentage(row.succ + excluded.succ, row.deg + excluded.deg, row.total + 1)))
  }

  function Upsert(table: Table, key: Key, status: Check): Table {
    if key in table then table[key := Merge(table[key], FirstRow(status))]
    else table[key := FirstRow(status)]
  }

  // ---------------------------------------------------------------- the fold over the checks of a day

  /** The row a set of checks calls for, in whatever order they came. */
  function Tally(checks: multiset<Check>): Row
    requires |checks| > 0
  {
    var succ, deg := checks[Operational] + checks[Unknown], checks[Degraded];
    Row(|checks|, succ, deg, checks[Outage], Round2(Percentage(succ, deg, |checks|)))
  }

  function RecordAll(checks: seq<Check>): Row
    requires checks != []
  {
    if |checks| == 1 then FirstRow(checks[0])
    else Merge(RecordAll(checks[..|checks| - 1]), FirstRow(checks[|checks| - 1]))
  }

  lemma CountsAddUp(checks: multiset<Check>)
    ensures |checks| == checks[Operational] + checks[Unknown] + checks[Degraded] + checks[Outage]
  {
    var fine := multiset{}[Operational := checks[Operational]][Unknown := checks[Unknown]];
    var m := fine[Degraded := checks[Degraded]][Outage := checks[Outage]];
    forall c: Check ensures m[c] == checks[c] {
      match c case Operational => case Degraded => case Outage => case Unknown =>
    }
    assert m == checks;
  }

  lemma MergeTallies(checks: multiset<Check>, one: Check)
    requires |checks| > 0
    ensures Merge(Tally(checks), FirstRow(one)) == Tally(checks + multiset{one})
  {
    assert |checks + multiset{one}| == |checks| + 1;
  }

  lemma {:induction false} RecordAllIsTally(checks: seq<Check>)
    requires checks != []
    ensures RecordAll(checks) == Tally(multiset(checks))
  {
    var n := |checks| - 1;
    assert checks == checks[..n] + [checks[n]];
    if n == 0 {
      assert checks == [checks[0]];
      assert multiset(checks) == multiset{checks[0]};
    } else {
      RecordAllIsTally(checks[..n]);
      assert multiset(checks) == multiset(checks[..n]) + multiset{checks[n]};
      MergeTallies(multiset(checks[..n]), checks[n]);
    }
  }

  lemma RoundMonotone(x: real, y: real)
    requires 0.0 <= x <= y
    ensures Round2(x) <= Round2(y)
  {
    FloorMonotone(x * 100.0 + 0.5, y * 100.0 + 0.5);
    Hundredths((x * 100.0 + 0.5).Floor, (y * 100.0 + 0.5).Floor);
  }

  lemma FloorMonotone(a: real, b: real)
    requires a <= b
    ensures a.Floor <= b.Floor
  {}

  lemma Hundredths(m: int, n: int)
    requires m <= n
    ensures m as real / 100.0 <= n as real / 100.0
  {}

  lemma PercentageGrows(a: Row, b: Row)
    requires a.total == b.total > 0 && a.succ as real + 0.5 * a.deg as real <= b.succ as real + 0.5 * b.deg as real
    ensures 0.0 <= Percentage(a.succ, a.deg, a.total) <= Percentage(b.succ, b.deg, b.total)
  {
    Divides((a.succ as real + 0.5 * a.deg as real) * 100.0,
            (b.succ as real + 0.5 * b.deg as real) * 100.0, a.total as real);
  }

  lemma Divides(x: real, y: real, n: real)
    requires n > 0.0 && 0.0 <= x <= y
    ensures 0.0 <= x / n <= y / n
  {
    var a, b := x / n, y / n;
    assert a * n == x && b * n == y;
  }

  lemma PercentageInRange(succ: nat, deg: nat, total: nat)
    requires 0 < total && succ + deg <= total
    ensures 0.0 <= Percentage(succ, deg, total) <= 100.0
  {
    Divides((succ as real + 0.5 * deg as real) * 100.0, 100.0 * total as real, total as real);
    assert (100.0 * total as real) / total as real == 100.0;
  }

  lemma SpellPercentage(succ: nat, deg: nat, total: nat)
    requires total > 0
    ensures Percentage(succ, deg, total) == (100.0 * succ as real + 50.0 * deg as real) / total as real
    ensures Rounds(Round2(Percentage(succ, deg, total)), (100.0 * succ as real + 50.0 * deg as real) / total as real)
  {
    Round2Rounds(Percentage(succ, deg, total));
    assert (succ as real + 0.5 * deg as real) * 100.0 == 100.0 * succ as real + 50.0 * deg as real;
  }

  /**
    The incremental row is the tally of the day's checks: it counts each kind (an unknown
    status as a success), the kinds add up to the total, and the stored uptime - computed
    from the old row each time - is the share of the whole day to the nearest hundredth,
    within 0 and 100.
    So it depends on which checks were made, not on their order.
  */
  lemma RowIsTheFold(checks: seq<Check>)
    requires checks != []
    ensures var r := RecordAll(checks);
      && r == Tally(multiset(checks))
      && r.total == |checks| == r.succ + r.deg + r.out
      && r.succ == multiset(checks)[Operational] + multiset(checks)[Unknown]
      && r.deg == multiset(checks)[Degraded] && r.out == multiset(checks)[Outage]
      && Rounds(r.uptime, (100.0 * r.succ as real + 50.0 * r.deg as real) / r.total as real)
      && 0.0 <= r.uptime <= 100.0
  {
    SpellPercentage(RecordAll(checks).succ, RecordAll(checks).deg, |checks|);
    RecordAllIsTally(checks);
    CountsAddUp(multiset(checks));
    var r := RecordAll(checks);
    PercentageInRange(r.succ, r.deg, r.total);
    RoundMonotone(Percentage(r.succ, r.deg, r.total), 100.0);
    RoundMonotone(0.0, Percentage(r.succ, r.deg, r.total));
    assert Round2(100.0) == 100.0 && Round2(0.0) == 0.0;
  }

  // ---------------------------------------------------------------- the status shown for a day

  /** 0 operational, 1 degraded, 2 outage. */
  function DayLevel(r: Row): nat {
    if r.uptime < 95.0 || (r.out > 0 && r.total <= 2) then 2
    else if r.uptime < 100.0 || r.deg > 0 || r.out > 0 then 1
    else 0
  }

  function Severity(c: Check): nat {
    match c
    case Operational => 0
    case Unknown => 0
    case Degraded => 1
    case Outage => 2
  }

  /** A day shows operational exactly when no degraded or outage check was recorded. */
  lemma OperationalDay(checks: multiset<Check>)
    requires |checks| > 0
    ensures DayLevel(Tally(checks)) == 0 <==> checks[Degraded] == 0 && checks[Outage] == 0
  {
    CountsAddUp(checks);
    if checks[Degraded] == 0 && checks[Outage] == 0 {
      var n := |checks|;
      assert (n as real + 0.5 * 0.0) * 100.0 / n as real == 100.0;
    }
  }

  /** A day shows an outage exactly when its share, to the nearest hundredth, is below 95. */
  lemma OutageDay(checks: multiset<Check>)
    requires |checks| > 0
    ensures DayLevel(Tally(checks)) == 2 <==>
      20000 * (checks[Operational] + checks[Unknown]) + 10000 * checks[Degraded] < 18999 * |checks|
  {
    CountsAddUp(checks);
    var r := Tally(checks);
    var share := Percentage(r.succ, r.deg, r.total);
    BelowNinetyFive(share);
    ShareBelow(r.succ, r.deg, r.total);
  }

  lemma BelowNinetyFive(x: real)
    ensures Round2(x) < 95.0 <==> x < 94.995
  {
    var n := (x * 100.0 + 0.5).Floor;
    assert n < 9500 <==> x * 100.0 + 0.5 < 9500.0;
  }

  lemma ShareBelow(succ: nat, deg: nat, total: nat)
    requires total > 0
    ensures Percentage(succ, deg, total) < 94.995 <==> 20000 * succ + 10000 * deg < 18999 * total
  {
    TimesPercentage(succ, deg, total);
    Below(Percentage(succ, deg, total), total as real, Points(succ, deg));
    Scaled(succ, deg, total);
  }

  lemma TimesPercentage(succ: nat, deg: nat, total: nat)
    requires total > 0
    ensures total as real * Percentage(succ, deg, total) == (succ as real + 0.5 * deg as real) * 100.0
  {}

  /** A hundred times full and half successes. */
  function Points(succ: nat, deg: nat): real {
    (succ as real + 0.5 * deg as real) * 100.0
  }

  lemma Below(p: real, n: real, points: real)
    requires n > 0.0 && n * p == points
    ensures p < 94.995 <==> points < 94.995 * n
  {
    LessTimes(p, 94.995, n);
  }

  lemma LessTimes(x: real, y: real, n: real)
    requires n > 0.0
    ensures x < y <==> x * n < y * n
  {}

  lemma Scaled(succ: nat, deg: nat, total: nat)
    ensures Points(succ, deg) < 94.995 * total as real <==> 20000 * succ + 10000 * deg < 18999 * total
  {
    assert (20000 * succ + 10000 * deg) as real == 20000.0 * succ as real + 10000.0 * deg as real;
    assert (18999 * total) as real == 18999.0 * total as real;
  }

  /** Replacing a check by a better one never worsens the status shown for the day. */
  lemma BetterCheckNeverHurts(rest: multiset<Check>, worse: Check, better: Check)
    requires Severity(better) <= Severity(worse)
    ensures DayLevel(Tally(rest + multiset{better})) <= DayLevel(Tally(rest + multiset{worse}))
  {
    var a, b := Tally(rest + multiset{worse}), Tally(rest + multiset{better});
    PercentageGrows(a, b);
    RoundMonotone(Percentage(a.succ, a.deg, a.total), Percentage(b.succ, b.deg, b.total));
    CountsAddUp(rest + multiset{worse});
    PercentageInRange(a.succ, a.deg, a.total);
    RoundMonotone(Percentage(a.succ, a.deg, a.total), 100.0);
    OperationalDay(rest + multiset{worse});
    OperationalDay(rest + multiset{better});
  }

  // ---------------------------------------------------------------- pruning over whole runs

  const DAYS := 90

  datatype Event =
    | Record(key: Key, status: Check, today: int)
    | Prune(today: int)

  function PruneTable(table: Table, today: int): Table {
    map key | key in table && key.day >= today - DAYS :: table[key]
  }

  /** A deletion takes exactly the rows more than ninety days old, and changes no other. */
  lemma PruneTakesTheOld(table: Table, today: int, key: Key)
    ensures key in PruneTable(table, today) <==> key in table && today - key.day <= 90
    ensures key in PruneTable(table, today) ==> PruneTable(table, today)[key] == table[key]
  {}

  function Next(table: Table, e: Event): Table {
    match e
    case Record(key, status, _) => Upsert(table, key, status)
    case Prune(today) => PruneTable(table, today)
  }

  function Run(table: Table, events: seq<Event>): Table
    decreases |events|
  {
    if events == [] then table else Run(Next(table, events[0]), events[1..])
  }

  /** The same run with the deletes left out. */
  function RunUnpruned(table: Table, events: seq<Event>): Table
    decreases |events|
  {
    if events == [] then table
    else RunUnpruned(if events[0].Prune? then table else Next(table, events[0]), events[1..])
  }

  /** The clock never runs back, and checks are recorded for the current day (or lately past ones). */
  predicate Timely(events: seq<Event>, clock: int)
    decreases |events|
  {
    events == [] ||
    (clock <= events[0].today
      && (events[0].Record? ==> events[0].today - DAYS <= events[0].key.day <= events[0].today)
      && Timely(events[1..], events[0].today))
  }

  function LastDay(events: seq<Event>, clock: int): int {
    if events == [] then clock else events[|events| - 1].today
  }

  ghost predicate SameWindow(a: Table, b: Table, clock: int) {
    forall key: Key | key.day >= clock - DAYS :: (key in a <==> key in b) && (key in a ==> a[key] == b[key])
  }

  lemma {:induction false} PruningKeepsTheWindow(a: Table, b: Table, events: seq<Event>, clock: int)
    requires SameWindow(a, b, clock) && Timely(events, clock)
    ensures SameWindow(Run(a, events), RunUnpruned(b, events), LastDay(events, clock))
    decreases |events|
  {
    if events != [] {
      var e := events[0];
      PruningKeepsTheWindow(Next(a, e), if e.Prune? then b else Next(b, e), events[1..], e.today);
    }
  }

  /** GetDailyRollups: the rows of a target from ninety days before `sqlDay` on, by date. */
  function Listing(table: Table, target: int, first: int, last: int): seq<(int, Row)>
    decreases last - first
  {
    if first > last then []
    else (if Key(target, first) in table then [(first, table[Key(target, first)])] else [])
         + Listing(table, target, first + 1, last)
  }

  lemma {:induction false} ListingSame(a: Table, b: Table, target: int, first: int, last: int, clock: int)
    requires SameWindow(a, b, clock) && clock - DAYS <= first
    ensures Listing(a, target, first, last) == Listing(b, target, first, last)
    decreases last - first
  {
    if first <= last { ListingSame(a, b, target, first + 1, last, clock); }
  }

  /**
    Nobody can see the pruning: after any run of checks and deletes, what GetDailyRollups
    returns on that day or any later one is what it would return had nothing been deleted.
  */
  lemma PruningIsInvisible(events: seq<Event>, start: int, target: int, day: int)
    requires Timely(events, start) && LastDay(events, start) <= day
    ensures Listing(Run(map[], events), target, day - DAYS, day)
         == Listing(RunUnpruned(map[], events), target, day - DAYS, day)
  {
    PruningKeepsTheWindow(map[], map[], events, start);
    ListingSame(Run(map[], events), RunUnpruned(map[], events), target, day - DAYS, day, LastDay(events, start));
  }

  /** A day's checks among the events, oldest first. */
  function ChecksOf(events: seq<Event>, key: Key): seq<Check> {
    if events == [] then []
    else
      var e := events[|events| - 1];
      ChecksOf(events[..|events| - 1], key) + (if e.Record? && e.key == key then [e.status] else [])
  }

  lemma {:induction false} RunUnprunedAppend(table: Table, events: seq<Event>, e: Event)
    ensures RunUnpruned(table, events + [e])
         == (var t := RunUnpruned(table, events); if e.Prune? then t else Next(t, e))
    decreases |events|
  {
    if events == [] {
      assert (events + [e])[1..] == [];
    } else {
      assert (events + [e])[1..] == events[1..] + [e];
      RunUnprunedAppend(if events[0].Prune? then table else Next(table, events[0]), events[1..], e);
    }
  }

  lemma {:induction false} UnprunedIsTheFold(events: seq<Event>, key: Key)
    ensures key in RunUnpruned(map[], events) <==> ChecksOf(events, key) != []
    ensures ChecksOf(events, key) != [] ==> RunUnpruned(map[], events)[key] == RecordAll(ChecksOf(events, key))
  {
    if events != [] {
      var n := |events| - 1;
      assert events == events[..n] + [events[n]];
      UnprunedIsTheFold(events[..n], key);
      RunUnprunedAppend(map[], events[..n], events[n]);
      var before := ChecksOf(events[..n], key);
      if events[n].Record? && events[n].key == key {
        var now := before + [events[n].status];
        assert ChecksOf(events, key) == now && now[..|now| - 1] == before;
      } else {
        assert ChecksOf(events, key) == before;
      }
    }
  }

  /** Every row still in the window holds the tally of all checks ever recorded for its day. */
  lemma WindowHoldsTallies(events: seq<Event>, start: int, key: Key)
    requires Timely(events, start) && key.day >= LastDay(events, start) - DAYS
    ensures key in Run(map[], events) <==> ChecksOf(events, key) != []
    ensures ChecksOf(events, key) != [] ==> Run(map[], events)[key] == Tally(multiset(ChecksOf(events, key)))
  {
    PruningKeepsTheWindow(map[], map[], events, start);
    UnprunedIsTheFold(events, key);
    if ChecksOf(events, key) != [] { RowIsTheFold(ChecksOf(events, key)); }
  }

  // ---------------------------------------------------------------- the ninety-day view

  datatype Point = Point(day: int, level: nat, uptime: real)

  /** The point shown for `day`; without a row, today takes the current status and any other day is fine. */
  function PointOn(rows: map<int, Row>, day: int, today: int, current: nat): Point {
    if day in rows then Point(day, DayLevel(rows[day]), rows[day].uptime)
    else if day == today then Point(day, current, if current == 2 then 0.0 else if current == 1 then 50.0 else 100.0)
    else Point(day, 0, 100.0)
  }

  function MapOf(rollups: seq<(int, Row)>): map<int, Row> {
    if rollups == [] then map[]
    else
      var last := rollups[|rollups| - 1];
      MapOf(rollups[..|rollups| - 1])[last.0 := last.1]
  }

  function Totals(rollups: seq<(int, Row)>): (nat, nat, nat) {
    if rollups == [] then (0, 0, 0)
    else
      var (t, s, d) := Totals(rollups[..|rollups| - 1]);
      var r := rollups[|rollups| - 1].1;
      (t + r.total, s + r.succ, d + r.deg)
  }

  function Uptime90d(rollups: seq<(int, Row)>): real {
    var (total, succ, deg) := Totals(rollups);
    if total > 0 then Round2(Percentage(succ, deg, total)) else 100.0
  }

  /** The body of the target loop that fills one target's ninety points. */
  method TargetView(rollups: seq<(int, Row)>, today: int, current: nat) returns (uptime: real, history: array<Point>)
    ensures history.Length == DAYS && fresh(history)
    ensures forall i | 0 <= i < DAYS :: history[i] == PointOn(MapOf(rollups), today - (DAYS - 1 - i), today, current)
    ensures uptime == Uptime90d(rollups)
  {
    var rollupMap: map<int, Row> := map[];
    var total, succ, deg := 0, 0, 0;
    for k := 0 to |rollups|
      invariant rollupMap == MapOf(rollups[..k]) && (total, succ, deg) == Totals(rollups[..k])
    {
      assert rollups[..k + 1][..k] == rollups[..k];
      rollupMap := rollupMap[rollups[k].0 := rollups[k].1];
      total, succ, deg := total + rollups[k].1.total, succ + rollups[k].1.succ, deg + rollups[k].1.deg;
    }
    assert rollups[..|rollups|] == rollups;
    uptime := 100.0;
    if total > 0 {
      uptime := Round2((succ as real + 0.5 * deg as real) * 100.0 / total as real);
    }
    history := new Point[DAYS];
    var i := DAYS - 1;
    while i >= 0
      invariant -1 <= i < DAYS
      invariant forall j | i < j < DAYS :: history[j] == PointOn(rollupMap, today - (DAYS - 1 - j), today, current)
    {
      var day := today - (DAYS - 1 - i);
      var level, pointUptime := 0, 100.0;
      if day in rollupMap {
        var r := rollupMap[day];
        pointUptime := r.uptime;
        if r.uptime < 95.0 || (r.out > 0 && r.total <= 2) {
          level := 2;
        } else if r.uptime < 100.0 || r.deg > 0 || r.out > 0 {
          level := 1;
        }
      } else if DAYS - 1 - i == 0 {
        level := current;
        if current == 2 {
          pointUptime := 0.0;
        } else if current == 1 {
          pointUptime := 50.0;
        }
      }
      history[i] := Point(day, level, pointUptime);
      i := i - 1;
    }
  }

  lemma {:induction false} ListingMap(table: Table, target: int, first: int, last: int)
    ensures forall day ::
      day in MapOf(Listing(table, target, first, last)) <==> first <= day <= last && Key(target, day) in table
    ensures forall day | day in MapOf(Listing(table, target, first, last)) ::
      MapOf(Listing(table, target, first, last))[day] == table[Key(target, day)]
    decreases last - first
  {
    if first <= last {
      ListingMap(table, target, first, last - 1);
      ListingAppend(table, target, first, last);
      var all, before := Listing(table, target, first, last), Listing(table, target, first, last - 1);
      if Key(target, last) in table {
        assert all[..|all| - 1] == before;
      } else {
        assert all == before;
      }
    }
  }

  lemma {:induction false} ListingAppend(table: Table, target: int, first: int, last: int)
    requires first <= last
    ensures Listing(table, target, first, last) == Listing(table, target, first, last - 1)
      + (if Key(target, last) in table then [(last, table[Key(target, last)])] else [])
    decreases last - first
  {
    if first < last {
      ListingAppend(table, target, first + 1, last);
    } else {
      assert Listing(table, target, first + 1, last) == [];
    }
  }

  /** The points spelled out: a day with a row, a past day without one, and today without one. */
  lemma PointsSpelled(rows: map<int, Row>, day: int, today: int, current: nat)
    requires current <= 2
    ensures var p := PointOn(rows, day, today, current);
      && p.day == day
      && (day in rows ==> p == Point(day, DayLevel(rows[day]), rows[day].uptime))
      && (day !in rows && day != today ==> p == Point(day, 0, 100.0))
      && (day !in rows && day == today ==> p.level == current && p.uptime == 100.0 - 50.0 * current as real)
  {}

  /** All rows of a target, by day. */
  function RowsOf(table: Table, target: int): map<int, Row> {
    map key | key in table && key.target == target :: key.day := table[key]
  }

  /**
    The history is complete.  `today` is read in Go before the query reads `sqlDay`; even if
    midnight passes in between, every one of the ninety days shown - consecutive and ending
    today - is shown as the whole table has it.
  */
  lemma HistoryIsComplete(table: Table, target: int, today: int, sqlDay: int, current: nat, i: nat)
    requires today <= sqlDay <= today + 1 && i < DAYS
    ensures PointOn(MapOf(Listing(table, target, sqlDay - DAYS, sqlDay)), today - (DAYS - 1 - i), today, current)
         == PointOn(RowsOf(table, target), today - (DAYS - 1 - i), today, current)
  {
    ListingMap(table, target, sqlDay - DAYS, sqlDay);
    var day := today - (DAYS - 1 - i);
    assert Key(target, day) in table <==> day in RowsOf(table, target);
  }

  ghost predicate Sound(rollups: seq<(int, Row)>) {
    forall i | 0 <= i < |rollups| :: var r := rollups[i].1; r.total == r.succ + r.deg + r.out && r.total > 0
  }

  /** The days' own percentages, each weighted by its number of checks. */
  function WeightedSum(rollups: seq<(int, Row)>): real
    requires Sound(rollups)
  {
    if rollups == [] then 0.0
    else
      var r := rollups[|rollups| - 1].1;
      WeightedSum(rollups[..|rollups| - 1]) + r.total as real * Percentage(r.succ, r.deg, r.total)
  }

  /** The number of checks behind the rows. */
  function Weight(rollups: seq<(int, Row)>): nat {
    if rollups == [] then 0 else Weight(rollups[..|rollups| - 1]) + rollups[|rollups| - 1].1.total
  }

  lemma {:induction false} TotalsAreWeighted(rollups: seq<(int, Row)>)
    requires Sound(rollups)
    ensures var (total, succ, deg) := Totals(rollups);
      && WeightedSum(rollups) == (succ as real + 0.5 * deg as real) * 100.0 && total == Weight(rollups)
      && succ + deg <= total && (rollups != [] ==> total > 0)
  {
    if rollups != [] {
      var n := |rollups| - 1;
      TotalsAreWeighted(rollups[..n]);
      var r := rollups[n].1;
      TimesPercentage(r.succ, r.deg, r.total);
    }
  }

  /**
    The ninety-day uptime is the check-weighted mean of the listed days to the nearest hundredth,
    within 0 and 100.
  */
  lemma UptimeIsWeightedMean(rollups: seq<(int, Row)>)
    requires Sound(rollups)
    ensures rollups == [] ==> Uptime90d(rollups) == 100.0
    ensures rollups != [] ==>
      Weight(rollups) > 0 && Rounds(Uptime90d(rollups), WeightedSum(rollups) / Weight(rollups) as real)
    ensures 0.0 <= Uptime90d(rollups) <= 100.0
  {
    TotalsAreWeighted(rollups);
    if rollups != [] {
      var (total, succ, deg) := Totals(rollups);
      Round2Rounds(Percentage(succ, deg, total));
      PercentageInRange(succ, deg, total);
      RoundMonotone(0.0, Percentage(succ, deg, total));
      RoundMonotone(Percentage(succ, deg, total), 100.0);
      assert Round2(100.0) == 100.0 && Round2(0.0) == 0.0;
    }
  }

  ghost predicate TableSound(table: Table) {
    forall key | key in table ::
      table[key].total == table[key].succ + table[key].deg + table[key].out && table[key].total > 0
  }

  lemma {:induction false} RunIsSound(table: Table, events: seq<Event>)
    requires TableSound(table)
    ensures TableSound(Run(table, events))
    decreases |events|
  {
    if events != [] { RunIsSound(Next(table, events[0]), events[1..]); }
  }

  lemma {:induction false} ListingIsSound(table: Table, target: int, first: int, last: int)
    requires TableSound(table)
    ensures Sound(Listing(table, target, first, last))
    decreases last - first
  {
    if first <= last { ListingIsSound(table, target, first + 1, last); }
  }

  /** After any run of checks and deletes the shown uptime is such a mean. */
  lemma UptimeAfterAnyRun(events: seq<Event>, target: int, sqlDay: int)
    ensures var rollups := Listing(Run(map[], events), target, sqlDay - DAYS, sqlDay);
      && Sound(rollups) && 0.0 <= Uptime90d(rollups) <= 100.0
      && (rollups != [] ==>
            Weight(rollups) > 0 && Rounds(Uptime90d(rollups), WeightedSum(rollups) / Weight(rollups) as real))
  {
    RunIsSound(map[], events);
    ListingIsSound(Run(map[], events), target, sqlDay - DAYS, sqlDay);
    UptimeIsWeightedMean(Listing(Run(map[], events), target, sqlDay - DAYS, sqlDay));
  }

  // ---------------------------------------------------------------- the hidden day

  /** The uptime before it is rounded: the mean of the listed checks, 100 when there are none. */
  function Mean(rollups: seq<(int, Row)>): real {
    var (total, succ, deg) := Totals(rollups);
    if total > 0 then Percentage(succ, deg, total) else 100.0
  }

  lemma UptimeIsRoundedMean(rollups: seq<(int, Row)>)
    ensures Rounds(Uptime90d(rollups), Mean(rollups))
  {
    Round2Rounds(Mean(rollups));
    assert Round2(100.0) == 100.0;
  }

  lemma {:induction false} TotalsFront(first: (int, Row), rest: seq<(int, Row)>)
    ensures var (t, s, d) := Totals(rest);
      Totals([first] + rest) == (first.1.total + t, first.1.succ + s, first.1.deg + d)
  {
    var all := [first] + rest;
    if rest == [] {
      assert all[..0] == [];
    } else {
      assert all[..|all| - 1] == [first] + rest[..|rest| - 1];
      TotalsFront(first, rest[..|rest| - 1]);
    }
  }

  predicate SameSide(x: real, p: real, m: real) {
    (x < m <==> p < m) && (x > m <==> p > m)
  }

  /** Mixing `n` checks of mean `p` into `big` of mean `m` moves the mean toward `p`. */
  lemma MixedMean(m: real, p: real, x: real, big: real, n: real)
    requires big > 0.0 && n > 0.0 && x * (big + n) == big * m + n * p
    ensures SameSide(x, p, m)
  {
    assert (x - m) * (big + n) == n * (p - m);
    if x < m { assert (x - m) * (big + n) < 0.0; }
    else if x > m { assert (x - m) * (big + n) > 0.0; }
    else { assert (x - m) * (big + n) == 0.0; }
    if p < m { assert n * (p - m) < 0.0; }
    else if p > m { assert n * (p - m) > 0.0; }
    else { assert n * (p - m) == 0.0; }
  }

  /** Three means, each given by its sum, of which the third is the first two put together. */
  lemma MixedSums(m: real, p: real, x: real, big: real, n: real, a: real, b: real)
    requires big > 0.0 && n > 0.0 && big * m == a && n * p == b && (n + big) * x == b + a
    ensures SameSide(x, p, m)
  {
    assert x * (big + n) == (n + big) * x;
    MixedMean(m, p, x, big, n);
  }

  lemma MixedPercentages(s: nat, d: nat, t: nat, rs: nat, rd: nat, rt: nat)
    requires t > 0 && rt > 0
    ensures SameSide(Percentage(rs + s, rd + d, rt + t), Percentage(rs, rd, rt), Percentage(s, d, t))
  {
    TimesPercentage(s, d, t);
    TimesPercentage(rs, rd, rt);
    TimesPercentage(rs + s, rd + d, rt + t);
    assert Points(rs + s, rd + d) == Points(rs, rd) + Points(s, d);
    MixedSums(Percentage(s, d, t), Percentage(rs, rd, rt), Percentage(rs + s, rd + d, rt + t), t as real, rt as real,
      Points(s, d), Points(rs, rd));
  }

  lemma TotalsWithOne(one: (int, Row), rest: seq<(int, Row)>, all: seq<(int, Row)>)
    requires all == [one] + rest || all == rest + [one]
    ensures var (t, s, d) := Totals(rest); Totals(all) == (one.1.total + t, one.1.succ + s, one.1.deg + d)
  {
    if all == [one] + rest { TotalsFront(one, rest); } else { assert all[..|rest|] == rest; }
  }

  /** One more row, first or last. */
  lemma MeanWithOne(one: (int, Row), rest: seq<(int, Row)>, all: seq<(int, Row)>)
    requires one.1.total > 0 && (rest != [] ==> Totals(rest).0 > 0)
    requires all == [one] + rest || all == rest + [one]
    ensures SameSide(Mean(all), Percentage(one.1.succ, one.1.deg, one.1.total), Mean(rest))
  {
    TotalsWithOne(one, rest, all);
    if rest != [] {
      var (t, s, d) := Totals(rest);
      MixedPercentages(s, d, t, one.1.succ, one.1.deg, one.1.total);
    }
  }

  /** The one date that a query answered on `sqlDay` lists besides the ninety days that end on `today`. */
  function HiddenDay(today: int, sqlDay: int): int {
    if sqlDay == today then today - DAYS else sqlDay
  }

  lemma ListingSplits(table: Table, target: int, today: int, sqlDay: int)
    requires today <= sqlDay <= today + 1
    ensures var all := Listing(table, target, sqlDay - DAYS, sqlDay);
      var shown := Listing(table, target, today - DAYS + 1, today);
      var hidden := Key(target, HiddenDay(today, sqlDay));
      && (hidden !in table ==> all == shown)
      && (hidden in table && sqlDay == today ==> all == [(hidden.day, table[hidden])] + shown)
      && (hidden in table && sqlDay != today ==> all == shown + [(hidden.day, table[hidden])])
  {
    var shown := Listing(table, target, today - DAYS + 1, today);
    assert [] + shown == shown && shown + [] == shown;
    if sqlDay != today { ListingAppend(table, target, today - DAYS + 1, sqlDay); }
  }

  /**
    The query reaches one date further than the ninety days shown: one day further back, or, if
    midnight passes between clock and query, to the day that has just begun.  The unrounded uptime
    is that of the days shown exactly when the hidden day has no row or its own percentage is that
    mean; otherwise the hidden day pulls the figure to its side.  Without any row among the days
    shown their mean counts as 100.
  */
  lemma HiddenDayLaw(table: Table, target: int, today: int, sqlDay: int)
    requires TableSound(table) && today <= sqlDay <= today + 1
    ensures var all := Listing(table, target, sqlDay - DAYS, sqlDay);
      var shown := Listing(table, target, today - DAYS + 1, today);
      var hidden := Key(target, HiddenDay(today, sqlDay));
      && Rounds(Uptime90d(all), Mean(all)) && Rounds(Uptime90d(shown), Mean(shown))
      && (hidden !in table ==> Mean(all) == Mean(shown))
      && (hidden in table ==>
            SameSide(Mean(all), Percentage(table[hidden].succ, table[hidden].deg, table[hidden].total), Mean(shown)))
  {
    var all, shown := Listing(table, target, sqlDay - DAYS, sqlDay), Listing(table, target, today - DAYS + 1, today);
    var hidden := Key(target, HiddenDay(today, sqlDay));
    UptimeIsRoundedMean(all);
    UptimeIsRoundedMean(shown);
    ListingIsSound(table, target, today - DAYS + 1, today);
    TotalsAreWeighted(shown);
    ListingSplits(table, target, today, sqlDay);
    if hidden in table { MeanWithOne((hidden.day, table[hidden]), shown, all); }
  }

  /** The exact condition for the ninety-day figure to be that of the ninety days shown. */
  lemma HiddenDayIsNeutralIff(table: Table, target: int, today: int, sqlDay: int)
    requires TableSound(table) && today <= sqlDay <= today + 1
    ensures var all := Listing(table, target, sqlDay - DAYS, sqlDay);
      var shown := Listing(table, target, today - DAYS + 1, today);
      var hidden := Key(target, HiddenDay(today, sqlDay));
      Mean(all) == Mean(shown) <==>
        hidden !in table
        || Percentage(table[hidden].succ, table[hidden].deg, table[hidden].total) == Mean(shown)
  {
    HiddenDayLaw(table, target, today, sqlDay);
  }

  /** An outage on the hidden day leaves every point as it was and takes the uptime from 100 to 0. */
  lemma HiddenDayCounts(target: int, today: int, current: nat, i: nat)
    requires i < DAYS
    ensures var table := Upsert(map[], Key(target, today - DAYS), Outage);
      var (with, without) := (Listing(table, target, today - DAYS, today), Listing(map[], target, today - DAYS, today));
      && PointOn(MapOf(with), today - (DAYS - 1 - i), today, current)
         == PointOn(MapOf(without), today - (DAYS - 1 - i), today, current)
      && Uptime90d(with) == 0.0 && Uptime90d(without) == 100.0
  {
    var table := Upsert(map[], Key(target, today - DAYS), Outage);
    ListingMap(table, target, today - DAYS, today);
    ListingMap(map[], target, today - DAYS, today);
    NothingListed(table, target, today - DAYS + 1, today);
    NothingListed(map[], target, today - DAYS, today);
    var with := Listing(table, target, today - DAYS, today);
    assert with == [(today - DAYS, FirstRow(Outage))];
    assert with[..0] == [] && |with| == 1 && with[0].1 == Row(1, 0, 0, 1, 0.0);
    assert Totals(with) == (1, 0, 0);
    assert Percentage(0, 0, 1) == 0.0 && Round2(0.0) == 0.0;
  }

  lemma {:induction false} NothingListed(table: Table, target: int, first: int, last: int)
    requires forall day | first <= day <= last :: Key(target, day) !in table
    ensures Listing(table, target, first, last) == []
    decreases last - first
  {
    if first <= last { NothingListed(table, target, first + 1, last); }
  }

  // ---------------------------------------------------------------- the table

  class RollupTable {
    var rows: Table

    constructor ()
      ensures rows == map[]
    {
      rows := map[];
    }

    method RecordDailyRollup(target: int, day: int, status: Check)
      modifies this
      ensures rows == Upsert(old(rows), Key(target, day), status)
    {
      var succInc, degInc, outInc, initialUptime := 0, 0, 0, 100.0;
      match status {
        case Operational => succInc := 1;
        case Degraded => degInc, initialUptime := 1, 50.0;
        case Outage => outInc, initialUptime := 1, 0.0;
        case Unknown => succInc := 1;
      }
      var key := Key(target, day);
      if key in rows {
        var r := rows[key];
        rows := rows[key := Row(r.total + 1, r.succ + succInc, r.deg + degInc, r.out + outInc,
          Round2(((r.succ + succInc) as real + 0.5 * (r.deg + degInc) as real) * 100.0 / (r.total + 1) as real))];
      } else {
        rows := rows[key := Row(1, succInc, degInc, outInc, initialUptime)];
      }
    }

    method PruneDailyRollups(today: int) returns (affected: nat)
      modifies this
      ensures rows == PruneTable(old(rows), today)
      ensures affected == |old(rows)| - |rows|
    {
      affected := 0;
      var todo := rows.Keys;
      while todo != {}
        invariant todo <= rows.Keys <= old(rows).Keys
        invariant forall key | key in rows :: rows[key] == old(rows)[key]
        invariant forall key | key in old(rows) :: key in rows <==> key in todo || key.day >= today - DAYS
        invariant affected == |old(rows)| - |rows|
        decreases todo
      {
        var key :| key in todo;
        todo := todo - {key};
        if key.day < today - DAYS {
          assert (rows - {key}).Keys == rows.Keys - {key};
          rows := rows - {key};
          affected := affected + 1;
        }
      }
      assert rows == PruneTable(old(rows), today);
    }
  }
}
