/**
  The metric query: samples of one host in a time range, grouped by SQLite into buckets of
  `step` seconds and averaged, then pivoted in Go into one row of timestamps and one series
  per metric.  The rows SQLite returns are any sequence its ORDER BY allows.
*/
module Metrics {

  datatype Sample = Sample(host: int, metric: string, value: real, at: int)
  datatype Query = Query(host: int, including: seq<string>, excluding: seq<string>, from: int, to: int)
  datatype Row = Row(ts: int, metric: string, val: real)

  /** The defaults for missing bounds. */
  function Normalize(q: Query, now: int): Query {
    var to := if q.to <= 0 then now else q.to;
    q.(to := to, from := if q.from <= 0 then to - 86400 else q.from)
  }

  predicate Selected(q: Query, s: Sample) {
    && s.host == q.host && q.from <= s.at <= q.to
    && (q.including != [] ==> s.metric in q.including)
    && (q.excluding != [] ==> s.metric !in q.excluding)
  }

  function Select(q: Query, table: seq<Sample>): (r: seq<Sample>)
    ensures forall s | s in r :: Selected(q, s)
  {
    if table == [] then []
    else (if Selected(q, table[0]) then [table[0]] else []) + Select(q, table[1..])
  }

  /** The sample is one the caller asks for: the bounds default to now and to a day before the upper one. */
  predicate Wanted(q: Query, now: int, s: Sample) {
    var to := if q.to <= 0 then now else q.to;
    var from := if q.from <= 0 then to - 24 * 60 * 60 else q.from;
    && s.host == q.host && from <= s.at <= to
    && (q.including == [] || s.metric in q.including) && s.metric !in q.excluding
  }

  /** The values of the wanted samples of a metric, added up over the whole table. */
  function WantedTotal(q: Query, now: int, table: seq<Sample>, metric: string): real {
    if table == [] then 0.0
    else
      (if Wanted(q, now, table[0]) && table[0].metric == metric then table[0].value else 0.0)
      + WantedTotal(q, now, table[1..], metric)
  }

  /** The normalized query selects every wanted sample as often as it is stored, and no other. */
  lemma {:induction false} SelectsTheWanted(q: Query, now: int, table: seq<Sample>, s: Sample)
    ensures multiset(Select(Normalize(q, now), table))[s] == (if Wanted(q, now, s) then multiset(table)[s] else 0)
  {
    if table != [] {
      SelectsTheWanted(q, now, table[1..], s);
      assert table == [table[0]] + table[1..];
    }
  }

  lemma {:induction false} TotalIsWanted(q: Query, now: int, table: seq<Sample>, metric: string)
    ensures Total(Select(Normalize(q, now), table), metric) == WantedTotal(q, now, table, metric)
  {
    if table != [] {
      TotalIsWanted(q, now, table[1..], metric);
      var rest := Select(Normalize(q, now), table[1..]);
      if Selected(Normalize(q, now), table[0]) {
        assert ([table[0]] + rest)[1..] == rest;
      } else {
        assert [] + rest == rest;
      }
    }
  }

  /** SQLite's integer division truncates toward zero. */
  function TruncDiv(a: int, b: int): int
    requires b > 0
  {
    if a >= 0 then a / b else -((-a) / b)
  }

  function BucketOf(at: int, step: int): int
    requires step > 0
  {
    TruncDiv(at, step) * step
  }

  /** A sample's bucket begins at most a step before it: at the last multiple of the step, for times after 1970. */
  lemma BucketHoldsTime(at: int, step: int)
    requires step > 0
    ensures BucketOf(at, step) % step == 0
    ensures at >= 0 ==> BucketOf(at, step) <= at < BucketOf(at, step) + step
    ensures at < 0 ==> BucketOf(at, step) - step < at <= BucketOf(at, step)
  {
    MultipleOf(TruncDiv(at, step), step);
  }

  /** The grouping expression of the query; everything about groups holds for any such function. */
  function Bucketing(step: int): int -> int
    requires step > 0
  {
    at => BucketOf(at, step)
  }

  predicate InBucket(s: Sample, ts: int, metric: string, bucket: int -> int)
  {
    bucket(s.at) == ts && s.metric == metric
  }

  function Count(samples: seq<Sample>, ts: int, metric: string, bucket: int -> int): nat
  {
    if samples == [] then 0
    else (if InBucket(samples[0], ts, metric, bucket) then 1 else 0) + Count(samples[1..], ts, metric, bucket)
  }

  function Sum(samples: seq<Sample>, ts: int, metric: string, bucket: int -> int): real
  {
    if samples == [] then 0.0
    else
      (if InBucket(samples[0], ts, metric, bucket) then samples[0].value else 0.0)
      + Sum(samples[1..], ts, metric, bucket)
  }

  /** AVG: the value that, times the number of samples, gives their sum. */
  predicate IsMean(v: real, sum: real, n: nat) {
    v * n as real == sum
  }

  ghost predicate Ascending(rows: seq<Row>) {
    forall i, j | 0 <= i < j < |rows| :: rows[i].ts <= rows[j].ts
  }

  /** SELECT bucket, metric, AVG(value) ... GROUP BY bucket, metric ORDER BY bucket. */
  ghost predicate IsBucketAnswer(rows: seq<Row>, samples: seq<Sample>, bucket: int -> int)
  {
    && Ascending(rows)
    && (forall i, j | 0 <= i < j < |rows| :: rows[i].ts != rows[j].ts || rows[i].metric != rows[j].metric)
    && (forall i | 0 <= i < |rows| ::
          var n := Count(samples, rows[i].ts, rows[i].metric, bucket);
          n > 0 && IsMean(rows[i].val, Sum(samples, rows[i].ts, rows[i].metric, bucket), n))
    && (forall s | s in samples :: exists i :: 0 <= i < |rows| && InBucket(s, rows[i].ts, rows[i].metric, bucket))
  }

  function ToRow(s: Sample): Row {
    Row(s.at, s.metric, s.value)
  }

  /** SELECT recorded_at, metric, value ... ORDER BY recorded_at, used when step is not positive. */
  ghost predicate IsRawAnswer(rows: seq<Row>, samples: seq<Sample>) {
    && Ascending(rows)
    && (forall i | 0 <= i < |rows| :: exists s | s in samples :: rows[i] == ToRow(s))
    && (forall s | s in samples :: ToRow(s) in rows)
  }

  // ---------------------------------------------------------------- the pivot

  /** The value of the last row for `ts` and `metric`; 0 when there is none. */
  function LastValue(rows: seq<Row>, ts: int, metric: string): real {
    if rows == [] then 0.0
    else
      var last := rows[|rows| - 1];
      if last.ts == ts && last.metric == metric then last.val else LastValue(rows[..|rows| - 1], ts, metric)
  }

  function TsSet(rows: seq<Row>): set<int> {
    set r | r in rows :: r.ts
  }

  function MetricSet(rows: seq<Row>): set<string> {
    set r | r in rows :: r.metric
  }

  lemma SetsGrow(rows: seq<Row>, k: nat)
    requires k < |rows|
    ensures TsSet(rows[..k + 1]) == TsSet(rows[..k]) + {rows[k].ts}
    ensures MetricSet(rows[..k + 1]) == MetricSet(rows[..k]) + {rows[k].metric}
  {
    assert rows[..k + 1] == rows[..k] + [rows[k]];
  }

  ghost predicate StrictlyIncreasing(ts: seq<int>) {
    forall i, j | 0 <= i < j < |ts| :: ts[i] < ts[j]
  }

  ghost predicate IsPivot(rows: seq<Row>, timestamps: seq<int>, series: map<string, seq<real>>) {
    && StrictlyIncreasing(timestamps)
    && (set t | t in timestamps) == TsSet(rows)
    && series.Keys == MetricSet(rows)
    && (forall m | m in series :: |series[m]| == |timestamps|)
    && (forall m, i | m in series && 0 <= i < |timestamps| :: series[m][i] == LastValue(rows, timestamps[i], m))
  }

  /** `tsMap` numbers the timestamps. */
  ghost predicate Numbers(tsMap: map<int, nat>, timestamps: seq<int>) {
    && (forall t | t in tsMap :: tsMap[t] < |timestamps| && timestamps[tsMap[t]] == t)
    && (forall i | 0 <= i < |timestamps| :: timestamps[i] in tsMap)
  }

  ghost predicate Scanned(rows: seq<Row>, k: nat, tsMap: map<int, nat>, timestamps: seq<int>)
    requires k <= |rows|
  {
    && StrictlyIncreasing(timestamps) && Numbers(tsMap, timestamps)
    && (forall t | t in tsMap :: k > 0 && t <= rows[k - 1].ts)
    && tsMap.Keys == TsSet(rows[..k])
  }

  lemma NumbersGrow(tsMap: map<int, nat>, timestamps: seq<int>, t: int)
    requires StrictlyIncreasing(timestamps) && Numbers(tsMap, timestamps)
    requires forall x | x in tsMap :: x < t
    ensures StrictlyIncreasing(timestamps + [t])
    ensures Numbers(tsMap[t := |timestamps|], timestamps + [t])
  {
    forall i | 0 <= i < |timestamps| ensures timestamps[i] < t {
      assert timestamps[i] in tsMap;
    }
  }

  lemma ScanOld(rows: seq<Row>, k: nat, tsMap: map<int, nat>, timestamps: seq<int>)
    requires k < |rows| && Ascending(rows) && Scanned(rows, k, tsMap, timestamps) && rows[k].ts in tsMap
    ensures Scanned(rows, k + 1, tsMap, timestamps)
  {
    SetsGrow(rows, k);
    assert TsSet(rows[..k + 1]) == TsSet(rows[..k]);
  }

  lemma ScanNew(rows: seq<Row>, k: nat, tsMap: map<int, nat>, timestamps: seq<int>)
    requires k < |rows| && Ascending(rows) && Scanned(rows, k, tsMap, timestamps) && rows[k].ts !in tsMap
    ensures Scanned(rows, k + 1, tsMap[rows[k].ts := |timestamps|], timestamps + [rows[k].ts])
  {
    var t := rows[k].ts;
    SetsGrow(rows, k);
    assert k > 0 ==> rows[k - 1].ts <= t;
    NumbersGrow(tsMap, timestamps, t);
    assert tsMap[t := |timestamps|].Keys == tsMap.Keys + {t};
  }

  lemma ScanStep(rows: seq<Row>, k: nat, tsMap: map<int, nat>, timestamps: seq<int>)
    requires k < |rows| && Ascending(rows) && Scanned(rows, k, tsMap, timestamps)
    ensures var t := rows[k].ts;
      if t in tsMap then Scanned(rows, k + 1, tsMap, timestamps)
      else Scanned(rows, k + 1, tsMap[t := |timestamps|], timestamps + [t])
  {
    if rows[k].ts in tsMap { ScanOld(rows, k, tsMap, timestamps); } else { ScanNew(rows, k, tsMap, timestamps); }
  }

  /** First loop: number the distinct timestamps in order of appearance and collect the metrics. */
  method Scan(rows: seq<Row>) returns (tsMap: map<int, nat>, timestamps: seq<int>, metricSet: set<string>)
    requires Ascending(rows)
    ensures StrictlyIncreasing(timestamps) && Numbers(tsMap, timestamps)
    ensures tsMap.Keys == TsSet(rows) && metricSet == MetricSet(rows)
  {
    tsMap, timestamps, metricSet := map[], [], {};
    for k := 0 to |rows|
      invariant Scanned(rows, k, tsMap, timestamps) && metricSet == MetricSet(rows[..k])
    {
      var row := rows[k];
      ScanStep(rows, k, tsMap, timestamps);
      SetsGrow(rows, k);
      if row.ts !in tsMap {
        tsMap := tsMap[row.ts := |timestamps|];
        timestamps := timestamps + [row.ts];
      }
      metricSet := metricSet + {row.metric};
    }
    assert rows[..|rows|] == rows;
  }

  lemma LastValueStep(rows: seq<Row>, k: nat, ts: int, metric: string)
    requires k < |rows|
    ensures LastValue(rows[..k + 1], ts, metric) ==
      if rows[k].ts == ts && rows[k].metric == metric then rows[k].val else LastValue(rows[..k], ts, metric)
  {
    assert rows[..k + 1][..k] == rows[..k];
  }

  /** What the first `k` rows put into the slots. */
  ghost predicate Filled(rows: seq<Row>, k: nat, timestamps: seq<int>, series: map<string, seq<real>>)
    requires k <= |rows|
  {
    && (forall m | m in series :: |series[m]| == |timestamps|)
    && (forall m, i | m in series && 0 <= i < |timestamps| :: series[m][i] == LastValue(rows[..k], timestamps[i], m))
  }

  lemma FillStep(rows: seq<Row>, k: nat, timestamps: seq<int>, series: map<string, seq<real>>, idx: nat)
    requires k < |rows| && Filled(rows, k, timestamps, series) && StrictlyIncreasing(timestamps)
    requires rows[k].metric in series && idx < |timestamps| && timestamps[idx] == rows[k].ts
    ensures Filled(rows, k + 1, timestamps, series[rows[k].metric := series[rows[k].metric][idx := rows[k].val]])
  {
    var next := series[rows[k].metric := series[rows[k].metric][idx := rows[k].val]];
    forall m, i | m in next && 0 <= i < |timestamps|
      ensures next[m][i] == LastValue(rows[..k + 1], timestamps[i], m)
    {
      LastValueStep(rows, k, timestamps[i], m);
    }
  }

  /** If several rows have one slot, the last of them stays in it. */
  lemma {:induction false} LastRowWins(rows: seq<Row>, i: nat)
    requires i < |rows|
    requires forall j | i < j < |rows| :: rows[j].ts != rows[i].ts || rows[j].metric != rows[i].metric
    ensures LastValue(rows, rows[i].ts, rows[i].metric) == rows[i].val
  {
    if i < |rows| - 1 { LastRowWins(rows[..|rows| - 1], i); }
  }

  /** The whole pivot: zeroed series, then every row written to its slot. */
  method Pivot(rows: seq<Row>) returns (timestamps: seq<int>, series: map<string, seq<real>>)
    requires Ascending(rows)
    ensures IsPivot(rows, timestamps, series)
  {
    var tsMap, ts, metricSet := Scan(rows);
    timestamps := ts;
    series := map m | m in metricSet :: seq(|timestamps|, _ => 0.0);
    for k := 0 to |rows|
      invariant series.Keys == metricSet && Filled(rows, k, timestamps, series)
    {
      var row := rows[k];
      assert row in rows && row.ts in TsSet(rows) && row.metric in MetricSet(rows);
      FillStep(rows, k, timestamps, series, tsMap[row.ts]);
      series := series[row.metric := series[row.metric][tsMap[row.ts] := row.val]];
    }
    PivotDone(rows, tsMap, timestamps, series);
  }

  lemma PivotDone(rows: seq<Row>, tsMap: map<int, nat>, timestamps: seq<int>, series: map<string, seq<real>>)
    requires StrictlyIncreasing(timestamps) && Numbers(tsMap, timestamps) && tsMap.Keys == TsSet(rows)
    requires series.Keys == MetricSet(rows) && Filled(rows, |rows|, timestamps, series)
    ensures IsPivot(rows, timestamps, series)
  {
    assert rows[..|rows|] == rows;
    assert (set t | t in timestamps) == tsMap.Keys;
  }

  // ---------------------------------------------------------------- every slot is its bucket's mean

  lemma {:induction false} LastValueFound(rows: seq<Row>, ts: int, metric: string)
    ensures if exists i :: 0 <= i < |rows| && rows[i].ts == ts && rows[i].metric == metric
            then exists i :: 0 <= i < |rows| && rows[i].ts == ts && rows[i].metric == metric
                          && rows[i].val == LastValue(rows, ts, metric)
            else LastValue(rows, ts, metric) == 0.0
  {
    if rows != [] {
      var n := |rows| - 1;
      LastValueFound(rows[..n], ts, metric);
      if rows[n].ts != ts || rows[n].metric != metric {
        if i :| 0 <= i < |rows| && rows[i].ts == ts && rows[i].metric == metric {
          assert rows[..n][i].ts == ts && rows[..n][i].metric == metric;
          var j :| 0 <= j < n && rows[..n][j].ts == ts && rows[..n][j].metric == metric
                   && rows[..n][j].val == LastValue(rows[..n], ts, metric);
          assert rows[j].ts == ts && rows[j].metric == metric && rows[j].val == LastValue(rows, ts, metric);
        }
      }
    }
  }

  lemma {:induction false} EmptyBucket(samples: seq<Sample>, ts: int, metric: string, bucket: int -> int)
    ensures Count(samples, ts, metric, bucket) == 0 ==> Sum(samples, ts, metric, bucket) == 0.0
    ensures Count(samples, ts, metric, bucket) > 0 <==> exists s :: s in samples && InBucket(s, ts, metric, bucket)
  {
    if samples != [] {
      EmptyBucket(samples[1..], ts, metric, bucket);
      if s :| s in samples && InBucket(s, ts, metric, bucket) {
        assert s == samples[0] || s in samples[1..];
      }
      if InBucket(samples[0], ts, metric, bucket) { assert samples[0] in samples; }
      if s :| s in samples[1..] && InBucket(s, ts, metric, bucket) { assert s in samples; }
    }
  }

  predicate Between(sum: real, n: nat, lo: real, hi: real) {
    lo * n as real <= sum <= hi * n as real
  }

  lemma OneMore(sum: real, n: nat, lo: real, hi: real, v: real)
    requires Between(sum, n, lo, hi) && lo <= v <= hi
    ensures Between(v + sum, 1 + n, lo, hi)
  {
    assert lo * (1 + n) as real == lo + lo * n as real && hi * (1 + n) as real == hi + hi * n as real;
  }

  lemma MeanBetween(v: real, sum: real, n: nat, lo: real, hi: real)
    requires n > 0 && IsMean(v, sum, n) && Between(sum, n, lo, hi)
    ensures lo <= v <= hi
  {
    var k := n as real;
    assert v < lo ==> v * k < lo * k;
    assert hi < v ==> hi * k < v * k;
  }

  lemma {:induction false} SumWithin(samples: seq<Sample>, ts: int, metric: string, bucket: int -> int, lo: real,
                                     hi: real)
    requires forall s | s in samples && InBucket(s, ts, metric, bucket) :: lo <= s.value <= hi
    ensures Between(Sum(samples, ts, metric, bucket), Count(samples, ts, metric, bucket), lo, hi)
  {
    if samples != [] {
      SumWithin(samples[1..], ts, metric, bucket, lo, hi);
      if InBucket(samples[0], ts, metric, bucket) {
        OneMore(Sum(samples[1..], ts, metric, bucket), Count(samples[1..], ts, metric, bucket), lo, hi,
            samples[0].value);
      }
    }
  }

  lemma RowOfBucket(samples: seq<Sample>, bucket: int -> int, rows: seq<Row>, ts: int, m: string)
    requires IsBucketAnswer(rows, samples, bucket)
    ensures Count(samples, ts, m, bucket) > 0 <==> exists k ::
        0 <= k < |rows| && rows[k].ts == ts && rows[k].metric == m
  {
    EmptyBucket(samples, ts, m, bucket);
    if s :| s in samples && InBucket(s, ts, m, bucket) {
      var k :| 0 <= k < |rows| && InBucket(s, rows[k].ts, rows[k].metric, bucket);
      assert rows[k].ts == ts && rows[k].metric == m;
    }
  }

  /** A value times its sample count is the sum of its samples; without samples it is 0. */
  lemma AnswerIsMean(samples: seq<Sample>, bucket: int -> int, rows: seq<Row>, ts: int, m: string)
    requires IsBucketAnswer(rows, samples, bucket)
    ensures var n := Count(samples, ts, m, bucket);
      && IsMean(LastValue(rows, ts, m), Sum(samples, ts, m, bucket), n)
      && (n == 0 ==> LastValue(rows, ts, m) == 0.0)
  {
    RowOfBucket(samples, bucket, rows, ts, m);
    LastValueFound(rows, ts, m);
    var n := Count(samples, ts, m, bucket);
    if n > 0 {
      var j :| 0 <= j < |rows| && rows[j].ts == ts && rows[j].metric == m && rows[j].val == LastValue(rows, ts, m);
    } else {
      EmptyBucket(samples, ts, m, bucket);
    }
  }

  /** Every slot of a series is the mean of the samples in its bucket, and 0 when there are none. */
  lemma SlotIsMean(samples: seq<Sample>, bucket: int -> int, rows: seq<Row>, timestamps: seq<int>,
                   series: map<string, seq<real>>,
                   m: string, i: nat)
    requires IsBucketAnswer(rows, samples, bucket) && IsPivot(rows, timestamps, series)
    requires m in series && i < |timestamps|
    ensures var n := Count(samples, timestamps[i], m, bucket);
      && IsMean(series[m][i], Sum(samples, timestamps[i], m, bucket), n)
      && (n == 0 ==> series[m][i] == 0.0)
  {
    assert series[m][i] == LastValue(rows, timestamps[i], m);
    AnswerIsMean(samples, bucket, rows, timestamps[i], m);
  }

  /** A filled slot lies between any bounds its samples respect. */
  lemma MeanWithin(samples: seq<Sample>, bucket: int -> int, rows: seq<Row>, timestamps: seq<int>,
                   series: map<string, seq<real>>,
                   m: string, i: nat, lo: real, hi: real)
    requires IsBucketAnswer(rows, samples, bucket) && IsPivot(rows, timestamps, series)
    requires m in series && i < |timestamps| && Count(samples, timestamps[i], m, bucket) > 0
    requires forall s | s in samples && InBucket(s, timestamps[i], m, bucket) :: lo <= s.value <= hi
    ensures lo <= series[m][i] <= hi
  {
    SlotIsMean(samples, bucket, rows, timestamps, series, m, i);
    SumWithin(samples, timestamps[i], m, bucket, lo, hi);
    MeanBetween(series[m][i], Sum(samples, timestamps[i], m, bucket), Count(samples, timestamps[i], m, bucket), lo, hi);
  }

  // ---------------------------------------------------------------- nothing is lost or counted twice

  function Total(samples: seq<Sample>, metric: string): real {
    if samples == [] then 0.0
    else (if samples[0].metric == metric then samples[0].value else 0.0) + Total(samples[1..], metric)
  }

  /** The sum over a series of slot times sample count. */
  function Weighted(timestamps: seq<int>, values: seq<real>, samples: seq<Sample>, metric: string,
                    bucket: int -> int): real
    requires |values| == |timestamps|
  {
    if timestamps == [] then 0.0
    else values[0] * Count(samples, timestamps[0], metric, bucket) as real
         + Weighted(timestamps[1..], values[1..], samples, metric, bucket)
  }

  function Across(timestamps: seq<int>, samples: seq<Sample>, metric: string, bucket: int -> int): real
  {
    if timestamps == [] then 0.0
    else Sum(samples, timestamps[0], metric, bucket) + Across(timestamps[1..], samples, metric, bucket)
  }

  lemma FirstSlot(timestamps: seq<int>, values: seq<real>, samples: seq<Sample>, metric: string, bucket: int -> int)
    requires |values| == |timestamps| > 0
    requires IsMean(values[0], Sum(samples, timestamps[0], metric, bucket), Count(samples, timestamps[0], metric,
        bucket))
    ensures Weighted(timestamps, values, samples, metric, bucket)
         == Sum(samples, timestamps[0], metric, bucket)
             + Weighted(timestamps[1..], values[1..], samples, metric, bucket)
  {
  }

  lemma {:induction false} WeightedIsAcross(timestamps: seq<int>, values: seq<real>, samples: seq<Sample>,
                                            metric: string, bucket: int -> int)
    requires |values| == |timestamps|
    requires forall i | 0 <= i < |timestamps| ::
      IsMean(values[i], Sum(samples, timestamps[i], metric, bucket), Count(samples, timestamps[i], metric, bucket))
    ensures Weighted(timestamps, values, samples, metric, bucket) == Across(timestamps, samples, metric, bucket)
  {
    if timestamps != [] {
      var ts, vs := timestamps[1..], values[1..];
      forall i | 0 <= i < |ts|
        ensures IsMean(vs[i], Sum(samples, ts[i], metric, bucket), Count(samples, ts[i], metric, bucket))
      {
        assert vs[i] == values[i + 1] && ts[i] == timestamps[i + 1];
      }
      WeightedIsAcross(ts, vs, samples, metric, bucket);
      FirstSlot(timestamps, values, samples, metric, bucket);
    }
  }

  /** One more sample adds its value to the bucket it falls in, and to no other. */
  lemma {:induction false} AcrossCons(timestamps: seq<int>, s: Sample, rest: seq<Sample>, metric: string,
                                      bucket: int -> int)
    requires StrictlyIncreasing(timestamps)
    ensures Across(timestamps, [s] + rest, metric, bucket) == Across(timestamps, rest, metric, bucket)
      + (if s.metric == metric && bucket(s.at) in timestamps then s.value else 0.0)
  {
    if timestamps != [] {
      AcrossCons(timestamps[1..], s, rest, metric, bucket);
      assert ([s] + rest)[1..] == rest;
      if bucket(s.at) == timestamps[0] {
        assert bucket(s.at) !in timestamps[1..];
      }
    }
  }

  lemma {:induction false} AcrossIsTotal(timestamps: seq<int>, samples: seq<Sample>, metric: string, bucket: int -> int)
    requires StrictlyIncreasing(timestamps)
    requires forall s | s in samples && s.metric == metric :: bucket(s.at) in timestamps
    ensures Across(timestamps, samples, metric, bucket) == Total(samples, metric)
  {
    if samples == [] {
      AcrossNothing(timestamps, metric, bucket);
    } else {
      assert samples == [samples[0]] + samples[1..];
      assert samples[0] in samples;
      AcrossCons(timestamps, samples[0], samples[1..], metric, bucket);
      AcrossIsTotal(timestamps, samples[1..], metric, bucket);
    }
  }

  lemma {:induction false} AcrossNothing(timestamps: seq<int>, metric: string, bucket: int -> int)
    ensures Across(timestamps, [], metric, bucket) == 0.0
  {
    if timestamps != [] { AcrossNothing(timestamps[1..], metric, bucket); }
  }

  lemma SlotsAreMeans(samples: seq<Sample>, bucket: int -> int, rows: seq<Row>, timestamps: seq<int>,
                      series: map<string, seq<real>>, m: string)
    requires IsBucketAnswer(rows, samples, bucket) && IsPivot(rows, timestamps, series) && m in series
    ensures forall i | 0 <= i < |timestamps| ::
      IsMean(series[m][i], Sum(samples, timestamps[i], m, bucket), Count(samples, timestamps[i], m, bucket))
  {
    forall i | 0 <= i < |timestamps|
      ensures IsMean(series[m][i], Sum(samples, timestamps[i], m, bucket), Count(samples, timestamps[i], m, bucket))
    {
      SlotIsMean(samples, bucket, rows, timestamps, series, m, i);
    }
  }

  lemma AllHaveSlots(samples: seq<Sample>, bucket: int -> int, rows: seq<Row>, timestamps: seq<int>,
                     series: map<string, seq<real>>)
    requires IsBucketAnswer(rows, samples, bucket) && IsPivot(rows, timestamps, series)
    ensures forall s | s in samples :: bucket(s.at) in timestamps
  {
    forall s | s in samples ensures bucket(s.at) in timestamps {
      EverySampleHasASlot(samples, bucket, rows, timestamps, series, s);
    }
  }

  /** Each series, weighted by its sample counts, sums to exactly the samples of its metric. */
  lemma Conservation(samples: seq<Sample>, bucket: int -> int, rows: seq<Row>, timestamps: seq<int>,
                     series: map<string, seq<real>>,
                     m: string)
    requires IsBucketAnswer(rows, samples, bucket) && IsPivot(rows, timestamps, series) && m in series
    ensures Weighted(timestamps, series[m], samples, m, bucket) == Total(samples, m)
  {
    SlotsAreMeans(samples, bucket, rows, timestamps, series, m);
    WeightedIsAcross(timestamps, series[m], samples, m, bucket);
    AllHaveSlots(samples, bucket, rows, timestamps, series);
    AcrossIsTotal(timestamps, samples, m, bucket);
  }

  lemma EverySampleHasASlot(samples: seq<Sample>, bucket: int -> int, rows: seq<Row>, timestamps: seq<int>,
                            series: map<string, seq<real>>, s: Sample)
    requires IsBucketAnswer(rows, samples, bucket) && IsPivot(rows, timestamps, series) && s in samples
    ensures bucket(s.at) in timestamps && s.metric in series
  {
    var k :| 0 <= k < |rows| && InBucket(s, rows[k].ts, rows[k].metric, bucket);
    assert rows[k] in rows && rows[k].ts in TsSet(rows) && rows[k].metric in MetricSet(rows);
    assert rows[k].ts in (set t | t in timestamps);
  }

  // ---------------------------------------------------------------- how many timestamps

  lemma TruncDivSpan(a: int, b: int, step: int)
    requires step > 0 && a <= b
    ensures TruncDiv(a, step) <= TruncDiv(b, step) <= TruncDiv(a, step) + (b - a) / step + 1
  {
    if b < 0 {
      DivSpan(-b, -a, step);
    } else if a < 0 {
      DivSpan(0, -a, step);
      DivSpan(0, b, step);
      assert (-a) / step + b / step <= (b - a) / step by { DivSum(-a, b, step); }
    } else {
      DivSpan(a, b, step);
    }
  }

  lemma FactorLess(x: int, y: int, step: int)
    requires step > 0 && step * x < step * y
    ensures x < y
  {
    assert y <= x ==> step * y <= step * x;
  }

  lemma DivSpan(a: int, b: int, step: int)
    requires step > 0 && 0 <= a <= b
    ensures a / step <= b / step <= a / step + (b - a) / step + 1
  {
    var qa, qb, qd := a / step, b / step, (b - a) / step;
    FactorLess(qa, qb + 1, step);
    FactorLess(qb, qa + qd + 2, step);
  }

  lemma DivSum(a: int, b: int, step: int)
    requires step > 0 && 0 <= a && 0 <= b
    ensures a / step + b / step <= (a + b) / step
  {
    FactorLess(a / step + b / step, (a + b) / step + 1, step);
  }

  /** Strictly increasing multiples of `step` advance by at least one multiple each. */
  lemma {:induction false} MultiplesAdvance(timestamps: seq<int>, quotients: seq<int>, step: int)
    requires step > 0 && |quotients| == |timestamps| > 0 && StrictlyIncreasing(timestamps)
    requires forall i | 0 <= i < |timestamps| :: timestamps[i] == quotients[i] * step
    ensures quotients[|quotients| - 1] >= quotients[0] + |quotients| - 1
  {
    var n := |timestamps| - 1;
    if n > 0 {
      MultiplesAdvance(timestamps[..n], quotients[..n], step);
      FactorLess(quotients[n - 1], quotients[n], step);
    }
  }

  /** Each timestamp is the bucket of some selected sample. */
  lemma TimestampHasSample(samples: seq<Sample>, bucket: int -> int, rows: seq<Row>, timestamps: seq<int>,
                           series: map<string, seq<real>>, i: nat) returns (s: Sample)
    requires IsBucketAnswer(rows, samples, bucket) && IsPivot(rows, timestamps, series) && i < |timestamps|
    ensures s in samples && timestamps[i] == bucket(s.at)
  {
    assert timestamps[i] in (set t | t in timestamps) && timestamps[i] in TsSet(rows);
    var r :| r in rows && r.ts == timestamps[i];
    RowOfBucket(samples, bucket, rows, r.ts, r.metric);
    EmptyBucket(samples, r.ts, r.metric, bucket);
    s :| s in samples && InBucket(s, r.ts, r.metric, bucket);
  }

  /** Where the i-th timestamp lies. */
  predicate OnGrid(q: Query, step: int, ts: int)
    requires step > 0
  {
    && q.from <= q.to && ts % step == 0 && ts == (ts / step) * step
    && TruncDiv(q.from, step) <= ts / step <= TruncDiv(q.to, step)
  }

  lemma BucketOnGrid(q: Query, step: int, at: int)
    requires step > 0 && q.from <= at <= q.to
    ensures OnGrid(q, step, BucketOf(at, step))
  {
    MultipleOf(TruncDiv(at, step), step);
    TruncDivSpan(q.from, at, step);
    TruncDivSpan(at, q.to, step);
  }

  lemma CountOnGrid(q: Query, step: int, timestamps: seq<int>)
    requires step > 0 && StrictlyIncreasing(timestamps) && timestamps != []
    requires forall i | 0 <= i < |timestamps| :: OnGrid(q, step, timestamps[i])
    ensures q.from <= q.to && |timestamps| <= (q.to - q.from) / step + 2
  {
    assert OnGrid(q, step, timestamps[0]) && OnGrid(q, step, timestamps[|timestamps| - 1]);
    var quotients := seq(|timestamps|, i requires 0 <= i < |timestamps| => timestamps[i] / step);
    assert forall i | 0 <= i < |timestamps| :: OnGrid(q, step, timestamps[i]) && timestamps[i] == quotients[i] * step;
    MultiplesAdvance(timestamps, quotients, step);
    TruncDivSpan(q.from, q.to, step);
  }

  /** The timestamps are multiples of `step`, and no more than the range has room for. */
  lemma FewTimestamps(q: Query, table: seq<Sample>, step: int, rows: seq<Row>, timestamps: seq<int>,
                      series: map<string, seq<real>>)
    requires step > 0 && IsBucketAnswer(rows, Select(q, table), Bucketing(step)) && IsPivot(rows, timestamps, series)
    ensures forall t | t in timestamps :: t % step == 0
    ensures if q.from <= q.to then |timestamps| <= (q.to - q.from) / step + 2 else timestamps == []
  {
    forall i | 0 <= i < |timestamps| ensures OnGrid(q, step, timestamps[i]) {
      var s := TimestampHasSample(Select(q, table), Bucketing(step), rows, timestamps, series, i);
      BucketOnGrid(q, step, s.at);
    }
    if timestamps != [] { CountOnGrid(q, step, timestamps); }
  }

  lemma MultipleOf(k: int, step: int)
    requires step > 0
    ensures (k * step) / step == k && (k * step) % step == 0
  {
    var q := (k * step) / step;
    FactorLess(q, k + 1, step);
    FactorLess(k, q + 1, step);
  }

  // ---------------------------------------------------------------- without a step

  /** Unbucketed, a slot holds a sample taken at that very second, and every second has its column. */
  lemma RawSlots(samples: seq<Sample>, rows: seq<Row>, timestamps: seq<int>, series: map<string, seq<real>>, s: Sample)
    requires IsRawAnswer(rows, samples) && IsPivot(rows, timestamps, series) && s in samples
    ensures s.metric in series
    ensures exists i, r :: 0 <= i < |timestamps| && r in samples && timestamps[i] == s.at
                           && r.at == s.at && r.metric == s.metric && series[s.metric][i] == r.value
  {
    var row := ToRow(s);
    assert row in rows && row.ts in TsSet(rows) && row.metric in MetricSet(rows);
    assert row.ts in (set t | t in timestamps);
    var i :| 0 <= i < |timestamps| && timestamps[i] == s.at;
    LastValueFound(rows, s.at, s.metric);
    var k :| 0 <= k < |rows| && rows[k] == row;
    var j :| 0 <= j < |rows| && rows[j].ts == s.at && rows[j].metric == s.metric
             && rows[j].val == LastValue(rows, s.at, s.metric);
    var r :| r in samples && rows[j] == ToRow(r);
    assert r.at == s.at && r.metric == s.metric && series[s.metric][i] == r.value;
  }

  // ---------------------------------------------------------------- the code

  lemma SelectedIffWanted(q: Query, now: int, table: seq<Sample>, s: Sample)
    ensures s in Select(Normalize(q, now), table) <==> s in table && Wanted(q, now, s)
  {
    SelectsTheWanted(q, now, table, s);
    assert s in Select(Normalize(q, now), table) <==> multiset(Select(Normalize(q, now), table))[s] > 0;
    assert s in table <==> multiset(table)[s] > 0;
  }

  /** Some wanted sample has this metric. */
  ghost predicate WantsMetric(q: Query, now: int, table: seq<Sample>, m: string) {
    exists s :: s in table && Wanted(q, now, s) && s.metric == m
  }

  /** Some wanted sample falls into the bucket. */
  ghost predicate WantsBucket(q: Query, now: int, table: seq<Sample>, bucket: int -> int, t: int) {
    exists s :: s in table && Wanted(q, now, s) && bucket(s.at) == t
  }

  /** Exactly the metrics of wanted samples have a series. */
  lemma SeriesAreWanted(q: Query, now: int, table: seq<Sample>, bucket: int -> int, rows: seq<Row>,
                        timestamps: seq<int>, series: map<string, seq<real>>, m: string)
    requires IsBucketAnswer(rows, Select(Normalize(q, now), table), bucket) && IsPivot(rows, timestamps, series)
    ensures m in series <==> WantsMetric(q, now, table, m)
  {
    var samples := Select(Normalize(q, now), table);
    if m in series {
      var r :| r in rows && r.metric == m;
      RowOfBucket(samples, bucket, rows, r.ts, m);
      EmptyBucket(samples, r.ts, m, bucket);
      var s :| s in samples && InBucket(s, r.ts, m, bucket);
      SelectedIffWanted(q, now, table, s);
    }
    if WantsMetric(q, now, table, m) {
      var s :| s in table && Wanted(q, now, s) && s.metric == m;
      SelectedIffWanted(q, now, table, s);
      EverySampleHasASlot(samples, bucket, rows, timestamps, series, s);
    }
  }

  /** Exactly the buckets of wanted samples have a timestamp. */
  lemma TimestampsAreWanted(q: Query, now: int, table: seq<Sample>, bucket: int -> int, rows: seq<Row>,
                            timestamps: seq<int>, series: map<string, seq<real>>, t: int)
    requires IsBucketAnswer(rows, Select(Normalize(q, now), table), bucket) && IsPivot(rows, timestamps, series)
    ensures t in timestamps <==> WantsBucket(q, now, table, bucket, t)
  {
    var samples := Select(Normalize(q, now), table);
    if t in timestamps {
      var i :| 0 <= i < |timestamps| && timestamps[i] == t;
      var s := TimestampHasSample(samples, bucket, rows, timestamps, series, i);
      SelectedIffWanted(q, now, table, s);
    }
    if WantsBucket(q, now, table, bucket, t) {
      var s :| s in table && Wanted(q, now, s) && bucket(s.at) == t;
      SelectedIffWanted(q, now, table, s);
      EverySampleHasASlot(samples, bucket, rows, timestamps, series, s);
    }
  }

  /** `rows` is what SQLite answers; the query is the normalized one. */
  method GetMetricSamplesFiltered(q: Query, step: int, now: int, rows: seq<Row>, ghost table: seq<Sample>)
    returns (timestamps: seq<int>, series: map<string, seq<real>>)
    requires if step > 0 then IsBucketAnswer(rows, Select(Normalize(q, now), table), Bucketing(step))
             else IsRawAnswer(rows, Select(Normalize(q, now), table))
    ensures IsPivot(rows, timestamps, series)
    ensures forall m | m in series :: |series[m]| == |timestamps|
    ensures step <= 0 ==> forall s | s in table && Wanted(q, now, s) :: s.metric in series && s.at in timestamps
    ensures step > 0 ==> forall m :: m in series <==> WantsMetric(q, now, table, m)
    ensures step > 0 ==> forall t :: t in timestamps <==> WantsBucket(q, now, table, Bucketing(step), t)
    ensures step > 0 ==> forall m | m in series ::
      Weighted(timestamps, series[m], Select(Normalize(q, now), table), m, Bucketing(step))
          == WantedTotal(q, now, table, m)
  {
    timestamps, series := Pivot(rows);
    if step > 0 {
      forall m ensures m in series <==> WantsMetric(q, now, table, m) {
        SeriesAreWanted(q, now, table, Bucketing(step), rows, timestamps, series, m);
      }
      forall t ensures t in timestamps <==> WantsBucket(q, now, table, Bucketing(step), t) {
        TimestampsAreWanted(q, now, table, Bucketing(step), rows, timestamps, series, t);
      }
      forall m | m in series
        ensures Weighted(timestamps, series[m], Select(Normalize(q, now), table), m, Bucketing(step))
             == WantedTotal(q, now, table, m)
      {
        Conservation(Select(Normalize(q, now), table), Bucketing(step), rows, timestamps, series, m);
        TotalIsWanted(q, now, table, m);
      }
    } else {
      forall s | s in table && Wanted(q, now, s) ensures s.metric in series && s.at in timestamps {
        SelectedIffWanted(q, now, table, s);
        RawSlots(Select(Normalize(q, now), table), rows, timestamps, series, s);
      }
    }
  }
}
