/**
  The inspection_runs table: every insert is followed by two deletes that keep, per host, the
  newest hundred ok runs and the newest hundred others.  Rows are in insertion order, so ids
  increase along the sequence.
*/
module RunLog {

  import opened Wrappers

  datatype Run = Run(id: nat, host: int, status: string)
  datatype Filter = All | Issues

  const KEEP: nat := 100

  predicate IsOk(r: Run) {
    r.status == "ok"
  }

  /** Same host, and both ok or both not: the rows that compete for one bucket. */
  predicate SameBucket(r: Run, host: int, ok: bool) {
    r.host == host && IsOk(r) == ok
  }

  function Count(rows: seq<Run>, host: int, ok: bool): nat {
    if rows == [] then 0
    else (if SameBucket(rows[0], host, ok) then 1 else 0) + Count(rows[1..], host, ok)
  }

  // ---------------------------------------------------------------- the queries

  /** SELECT id ... WHERE host_id = ? AND status (=|!=) 'ok' ORDER BY id DESC. */
  function IdsDesc(rows: seq<Run>, host: int, ok: bool): seq<nat> {
    if rows == [] then []
    else IdsDesc(rows[1..], host, ok) + (if SameBucket(rows[0], host, ok) then [rows[0].id] else [])
  }

  function Take<T>(s: seq<T>, n: nat): seq<T> {
    if n < |s| then s[..n] else s
  }

  /** DELETE ... WHERE host_id = ? AND status (=|!=) 'ok' AND id NOT IN `kept`. */
  function DeleteOthers(rows: seq<Run>, host: int, ok: bool, kept: seq<nat>): seq<Run> {
    if rows == [] then []
    else
      (if SameBucket(rows[0], host, ok) && rows[0].id !in kept then [] else [rows[0]])
      + DeleteOthers(rows[1..], host, ok, kept)
  }

  function Prune(rows: seq<Run>, host: int, ok: bool): seq<Run> {
    DeleteOthers(rows, host, ok, Take(IdsDesc(rows, host, ok), KEEP))
  }

  predicate Matches(r: Run, host: int, filter: Filter) {
    r.host == host && (filter == Issues ==> !IsOk(r))
  }

  /** SELECT ... ORDER BY id DESC: newest first. */
  function SelectDesc(rows: seq<Run>, host: int, filter: Filter): seq<Run> {
    if rows == [] then []
    else SelectDesc(rows[1..], host, filter) + (if Matches(rows[0], host, filter) then [rows[0]] else [])
  }

  /** ListInspectionRuns; a limit that is not positive means 50. */
  function List(rows: seq<Run>, host: int, limit: int, filter: Filter): seq<Run> {
    Take(SelectDesc(rows, host, filter), if limit <= 0 then 50 else limit)
  }

  // ---------------------------------------------------------------- the specification

  /** What the full history leaves in the table: rows with fewer than KEEP newer ones in their bucket. */
  function Pruned(history: seq<Run>): seq<Run> {
    if history == [] then []
    else
      var r := history[0];
      (if Count(history[1..], r.host, IsOk(r)) < KEEP then [r] else []) + Pruned(history[1..])
  }

  ghost predicate Increasing(rows: seq<Run>) {
    forall i, j | 0 <= i < j < |rows| :: rows[i].id < rows[j].id
  }

  // ---------------------------------------------------------------- what a listing holds

  /** A row a caller asks for: of the host and, if only issues are wanted, of a run that was not ok. */
  predicate AskedFor(r: Run, host: int, issues: bool) {
    r.host == host && !(issues && r.status == "ok")
  }

  /** The newest `full` of the rows asked for, newest first. */
  ghost predicate IsListing(listed: seq<Run>, rows: seq<Run>, host: int, full: int, issues: bool) {
    && (forall i, j | 0 <= i < j < |listed| :: listed[i].id > listed[j].id)
    && (forall r | r in listed :: r in rows && AskedFor(r, host, issues))
    && |listed| <= full
    && (forall r | r in rows && AskedFor(r, host, issues) && r !in listed ::
          |listed| == full && forall x | x in listed :: r.id < x.id)
  }

  lemma {:induction false} SelectDescHolds(rows: seq<Run>, host: int, filter: Filter)
    requires Increasing(rows)
    ensures var all := SelectDesc(rows, host, filter);
      && (forall i, j | 0 <= i < j < |all| :: all[i].id > all[j].id)
      && (forall r :: r in all <==> r in rows && AskedFor(r, host, filter == Issues))
  {
    if rows != [] {
      SelectDescHolds(rows[1..], host, filter);
      var rest := SelectDesc(rows[1..], host, filter);
      var own := if Matches(rows[0], host, filter) then [rows[0]] else [];
      assert forall r | r in rest :: r in rows[1..] && r.id > rows[0].id;
      forall r ensures r in rest + own <==> r in rows && AskedFor(r, host, filter == Issues) {
        assert r in rows <==> r == rows[0] || r in rows[1..];
        assert r in rest + own <==> r in rest || r in own;
      }
    }
  }

  lemma LeftOutIsOlder(all: seq<Run>, n: nat, r: Run)
    requires forall i, j | 0 <= i < j < |all| :: all[i].id > all[j].id
    requires r in all && r !in Take(all, n)
    ensures |Take(all, n)| == n && forall x | x in Take(all, n) :: r.id < x.id
  {
    var k :| 0 <= k < |all| && all[k] == r;
    TakeAt(all, n, k);
  }

  lemma TakeAt<T>(all: seq<T>, n: nat, k: nat)
    requires k < |all|
    ensures k < n ==> all[k] in Take(all, n)
  {
    if k < n { assert Take(all, n)[k] == all[k]; }
  }

  lemma TakeIsPrefix(all: seq<Run>, n: nat)
    ensures |Take(all, n)| <= n && Take(all, n) <= all && forall r | r in Take(all, n) :: r in all
  {}

  /** A listing holds the newest rows asked for, up to the limit, which is 50 unless it is positive. */
  lemma ListHoldsTheNewest(rows: seq<Run>, host: int, limit: int, filter: Filter)
    requires Increasing(rows)
    ensures IsListing(List(rows, host, limit, filter), rows, host, if limit <= 0 then 50 else limit, filter == Issues)
  {
    var all, listed, full := SelectDesc(rows, host, filter), List(rows, host, limit, filter),
      if limit <= 0 then 50 else limit;
    SelectDescHolds(rows, host, filter);
    TakeIsPrefix(all, full);
    forall r | r in rows && AskedFor(r, host, filter == Issues) && r !in listed
      ensures |listed| == full && forall x | x in listed :: r.id < x.id
    {
      LeftOutIsOlder(all, full, r);
    }
  }

  // ---------------------------------------------------------------- DELETE ... NOT IN (... LIMIT), by rank

  function ByRank(rows: seq<Run>, host: int, ok: bool): seq<Run> {
    if rows == [] then []
    else
      (if SameBucket(rows[0], host, ok) && Count(rows[1..], host, ok) >= KEEP then [] else [rows[0]])
      + ByRank(rows[1..], host, ok)
  }

  lemma {:induction false} IdsCount(rows: seq<Run>, host: int, ok: bool)
    ensures |IdsDesc(rows, host, ok)| == Count(rows, host, ok)
  {
    if rows != [] { IdsCount(rows[1..], host, ok); }
  }

  lemma {:induction false} IdsAbove(rows: seq<Run>, host: int, ok: bool, bound: nat)
    requires forall i | 0 <= i < |rows| :: rows[i].id > bound
    ensures forall id | id in IdsDesc(rows, host, ok) :: id > bound
  {
    if rows != [] { IdsAbove(rows[1..], host, ok, bound); }
  }

  /** An id is among the first KEEP exactly when fewer than KEEP come before it. */
  lemma KeptByRank(newer: seq<nat>, id: nat, older: seq<nat>, kept: seq<nat>)
    requires kept == Take(newer + ([id] + older), KEEP) && id !in newer
    ensures id in kept <==> |newer| < KEEP
  {
    var all := newer + ([id] + older);
    if |newer| < KEEP {
      assert all[|newer|] == id && kept[|newer|] == id;
    } else {
      assert kept == newer[..KEEP];
    }
  }

  /** `older` are the ids of the bucket before `rows`; the subselect ranks a row by the newer ids. */
  lemma {:induction false} DeleteIsByRank(rows: seq<Run>, host: int, ok: bool, older: seq<nat>, kept: seq<nat>)
    requires Increasing(rows) && kept == Take(IdsDesc(rows, host, ok) + older, KEEP)
    requires forall i, id | 0 <= i < |rows| && id in older :: id < rows[i].id
    ensures DeleteOthers(rows, host, ok, kept) == ByRank(rows, host, ok)
  {
    if rows != [] {
      var r, rest := rows[0], rows[1..];
      var newer := IdsDesc(rest, host, ok);
      IdsCount(rest, host, ok);
      IdsAbove(rest, host, ok, r.id);
      var older' := (if SameBucket(r, host, ok) then [r.id] else []) + older;
      assert IdsDesc(rows, host, ok) + older == newer + older';
      DeleteIsByRank(rest, host, ok, older', kept);
      if SameBucket(r, host, ok) { KeptByRank(newer, r.id, older, kept); }
    }
  }

  lemma PruneIsByRank(rows: seq<Run>, host: int, ok: bool)
    requires Increasing(rows)
    ensures Prune(rows, host, ok) == ByRank(rows, host, ok)
  {
    assert IdsDesc(rows, host, ok) + [] == IdsDesc(rows, host, ok);
    DeleteIsByRank(rows, host, ok, [], Take(IdsDesc(rows, host, ok), KEEP));
  }

  // ---------------------------------------------------------------- one insert

  lemma {:induction false} CountAppend(a: seq<Run>, b: seq<Run>, host: int, ok: bool)
    ensures Count(a + b, host, ok) == Count(a, host, ok) + Count(b, host, ok)
  {
    if a == [] {
      assert a + b == b;
    } else {
      assert (a + b)[1..] == a[1..] + b;
      CountAppend(a[1..], b, host, ok);
    }
  }

  lemma {:induction false} CountPruned(history: seq<Run>, host: int, ok: bool)
    ensures Count(Pruned(history), host, ok) ==
      (if Count(history, host, ok) < 100 then Count(history, host, ok) else 100)
  {
    if history != [] {
      var r, rest := history[0], history[1..];
      CountPruned(rest, host, ok);
      if Count(rest, r.host, IsOk(r)) < KEEP { assert ([r] + Pruned(rest))[1..] == Pruned(rest); }
      else { assert [] + Pruned(rest) == Pruned(rest); }
    }
  }

  lemma ByRankKeeps(r: Run, rest: seq<Run>, host: int, ok: bool)
    ensures ByRank([r] + rest, host, ok) ==
      (if SameBucket(r, host, ok) && Count(rest, host, ok) >= KEEP then [] else [r]) + ByRank(rest, host, ok)
  {
    assert ([r] + rest)[1..] == rest;
  }

  /** A delete for a bucket that is not over its bound changes nothing. */
  lemma {:induction false} NothingToDelete(history: seq<Run>, tail: seq<Run>, host: int, ok: bool)
    requires Count(tail, host, ok) == 0 && |tail| <= 1
    ensures ByRank(Pruned(history) + tail, host, ok) == Pruned(history) + tail
  {
    if history == [] {
      assert Pruned(history) + tail == tail;
      if tail != [] { assert tail[1..] == [] && tail == [tail[0]]; }
    } else {
      var r, rest := history[0], history[1..];
      NothingToDelete(rest, tail, host, ok);
      if Count(rest, r.host, IsOk(r)) < KEEP {
        assert Pruned(history) + tail == [r] + (Pruned(rest) + tail);
        ByRankKeeps(r, Pruned(rest) + tail, host, ok);
        CountAppend(Pruned(rest), tail, host, ok);
        CountPruned(rest, host, ok);
      } else {
        assert Pruned(history) + tail == Pruned(rest) + tail;
      }
    }
  }

  /** The delete for the bucket of the inserted row brings the table to the new history. */
  lemma {:induction false} DeleteAfterInsert(history: seq<Run>, run: Run)
    ensures ByRank(Pruned(history) + [run], run.host, IsOk(run)) == Pruned(history + [run])
  {
    var host, ok := run.host, IsOk(run);
    if history == [] {
      assert Pruned(history) + [run] == [run] && history + [run] == [run] && [run][1..] == [];
    } else {
      var r, rest := history[0], history[1..];
      assert (history + [run])[0] == r && (history + [run])[1..] == rest + [run];
      DeleteAfterInsert(rest, run);
      CountAppend(rest, [run], r.host, IsOk(r));
      CountAppend(Pruned(rest), [run], host, ok);
      CountPruned(rest, host, ok);
      if Count(rest, r.host, IsOk(r)) < KEEP {
        assert Pruned(history) + [run] == [r] + (Pruned(rest) + [run]);
        assert [run][1..] == [];
        ByRankKeeps(r, Pruned(rest) + [run], host, ok);
      } else {
        assert Pruned(history) + [run] == Pruned(rest) + [run];
      }
    }
  }

  lemma HeadIsOldest(rows: seq<Run>)
    requires Increasing(rows) && rows != []
    ensures Increasing(rows[1..]) && forall r | r in rows[1..] :: rows[0].id < r.id
  {}

  lemma {:induction false} PrunedSubset(history: seq<Run>)
    requires Increasing(history)
    ensures forall r | r in Pruned(history) :: r in history
    ensures Increasing(Pruned(history))
  {
    if history != [] {
      HeadIsOldest(history);
      PrunedSubset(history[1..]);
      assert forall i | 0 <= i < |Pruned(history[1..])| :: Pruned(history[1..])[i] in history[1..];
    }
  }

  lemma {:induction false} ByRankSubset(rows: seq<Run>, host: int, ok: bool)
    requires Increasing(rows)
    ensures forall r | r in ByRank(rows, host, ok) :: r in rows
    ensures Increasing(ByRank(rows, host, ok))
  {
    if rows != [] {
      HeadIsOldest(rows);
      ByRankSubset(rows[1..], host, ok);
      assert forall i | 0 <= i < |ByRank(rows[1..], host, ok)| :: ByRank(rows[1..], host, ok)[i] in rows[1..];
    }
  }

  /** Inserting a run and running both deletes leaves what the longer history prescribes. */
  lemma InsertAndPrune(history: seq<Run>, run: Run)
    requires Increasing(history + [run])
    ensures Prune(Prune(Pruned(history) + [run], run.host, true), run.host, false) == Pruned(history + [run])
  {
    var rows := Pruned(history) + [run];
    assert Increasing(history) by { assert forall i | 0 <= i < |history| :: history[i] == (history + [run])[i]; }
    PrunedSubset(history);
    assert Increasing(rows) by {
      forall i | 0 <= i < |Pruned(history)| ensures Pruned(history)[i].id < run.id {
        assert Pruned(history)[i] in history;
        var j :| 0 <= j < |history| && history[j] == Pruned(history)[i];
        assert (history + [run])[j].id < (history + [run])[|history|].id;
      }
    }
    PruneIsByRank(rows, run.host, true);
    ByRankSubset(rows, run.host, true);
    PruneIsByRank(ByRank(rows, run.host, true), run.host, false);
    DeleteAfterInsert(history, run);
    if IsOk(run) {
      NothingToDelete(history + [run], [], run.host, false);
      assert Pruned(history + [run]) + [] == Pruned(history + [run]);
    } else {
      assert [run][1..] == [];
      NothingToDelete(history, [run], run.host, true);
    }
  }

  // ---------------------------------------------------------------- what a reader sees

  lemma {:induction false} BucketFits(rows: seq<Run>, r: Run, host: int, filter: Filter)
    requires Matches(r, host, filter)
    ensures |SelectDesc(rows, host, filter)| >= Count(rows, host, IsOk(r))
  {
    if rows != [] { BucketFits(rows[1..], r, host, filter); }
  }

  /** Two listings that agree up to `n`, the first of which is complete unless it has `n` rows. */
  ghost predicate AgreeTo(a: seq<Run>, b: seq<Run>, n: nat) {
    a == b || (|a| >= n && |b| >= n && a[..n] == b[..n])
  }

  lemma SelectCons(r: Run, rest: seq<Run>, host: int, filter: Filter)
    ensures SelectDesc([r] + rest, host, filter)
         == SelectDesc(rest, host, filter) + (if Matches(r, host, filter) then [r] else [])
  {
    assert ([r] + rest)[1..] == rest;
  }

  lemma AgreeAppend(a: seq<Run>, b: seq<Run>, tail: seq<Run>, n: nat)
    requires AgreeTo(a, b, n)
    ensures AgreeTo(a + tail, b + tail, n)
    ensures |b| >= n ==> AgreeTo(a, b + tail, n)
  {
    if a != b {
      assert (a + tail)[..n] == a[..n] && (b + tail)[..n] == b[..n];
    } else if |b| >= n {
      assert (b + tail)[..n] == b[..n];
    }
  }

  lemma {:induction false} SelectPruned(history: seq<Run>, host: int, filter: Filter, n: nat)
    requires n <= KEEP
    ensures AgreeTo(SelectDesc(Pruned(history), host, filter), SelectDesc(history, host, filter), n)
  {
    if history != [] {
      var r, rest := history[0], history[1..];
      var tail := if Matches(r, host, filter) then [r] else [];
      SelectPruned(rest, host, filter, n);
      AgreeAppend(SelectDesc(Pruned(rest), host, filter), SelectDesc(rest, host, filter), tail, n);
      if Count(rest, r.host, IsOk(r)) < KEEP {
        SelectCons(r, Pruned(rest), host, filter);
      } else {
        assert Pruned(history) == Pruned(rest);
        if Matches(r, host, filter) { BucketFits(rest, r, host, filter); }
        else { assert SelectDesc(rest, host, filter) + tail == SelectDesc(rest, host, filter); }
      }
    }
  }

  /**
    Pruning cannot be seen by a reader who asks for at most a hundred runs: after any history
    the listing, unfiltered or of issues only, is the one of the never-pruned log.
  */
  lemma PruningIsInvisible(history: seq<Run>, host: int, limit: int, filter: Filter)
    requires limit <= 100
    ensures List(Pruned(history), host, limit, filter) == List(history, host, limit, filter)
  {
    SelectPruned(history, host, filter, if limit <= 0 then 50 else limit);
  }

  function SameRuns(host: int, status: string, n: nat): seq<Run> {
    if n == 0 then [] else SameRuns(host, status, n - 1) + [Run(n, host, status)]
  }

  lemma {:induction false} SameRunsCount(host: int, status: string, n: nat)
    ensures Increasing(SameRuns(host, status, n)) && |SameRuns(host, status, n)| == n
    ensures Count(SameRuns(host, status, n), host, status == "ok") == n
    ensures forall r | r in SameRuns(host, status, n) :: r.host == host && r.status == status && r.id <= n
  {
    if n > 0 {
      SameRunsCount(host, status, n - 1);
      CountAppend(SameRuns(host, status, n - 1), [Run(n, host, status)], host, status == "ok");
      assert [Run(n, host, status)][1..] == [];
    }
  }

  /** A listing of matching rows of one bucket has as many rows as the bucket. */
  lemma {:induction false} SelectAll(rows: seq<Run>, host: int, ok: bool, filter: Filter)
    requires forall r | r in rows :: SameBucket(r, host, ok) && Matches(r, host, filter)
    ensures |SelectDesc(rows, host, filter)| == Count(rows, host, ok)
  {
    if rows != [] { SelectAll(rows[1..], host, ok, filter); }
  }

  /** Every larger limit - the HTTP handler passes on any - shows the loss on some history, with either filter. */
  lemma LongerListingsLose(host: int, limit: int, filter: Filter) returns (history: seq<Run>)
    requires limit > 100
    ensures Increasing(history)
    ensures List(Pruned(history), host, limit, filter) != List(history, host, limit, filter)
  {
    var status := if filter == All then "ok" else "down";
    history := SameRuns(host, status, KEEP + 1);
    SameRunsCount(host, status, KEEP + 1);
    SelectAll(history, host, status == "ok", filter);
    PrunedSubset(history);
    SelectAll(Pruned(history), host, status == "ok", filter);
    CountPruned(history, host, status == "ok");
  }

  // ---------------------------------------------------------------- inspections of several hosts

  lemma {:induction false} IdsAppend(a: seq<Run>, b: seq<Run>, host: int, ok: bool)
    ensures IdsDesc(a + b, host, ok) == IdsDesc(b, host, ok) + IdsDesc(a, host, ok)
  {
    if a == [] {
      assert a + b == b;
    } else {
      assert (a + b)[1..] == a[1..] + b;
      IdsAppend(a[1..], b, host, ok);
    }
  }

  lemma Associate<T>(a: seq<T>, b: seq<T>, c: seq<T>)
    ensures (a + b) + c == a + (b + c)
  {}

  lemma {:induction false} DeleteAppend(a: seq<Run>, b: seq<Run>, host: int, ok: bool, kept: seq<nat>)
    ensures DeleteOthers(a + b, host, ok, kept) == DeleteOthers(a, host, ok, kept) + DeleteOthers(b, host, ok, kept)
  {
    if a == [] {
      assert a + b == b;
    } else {
      assert (a + b)[1..] == a[1..] + b;
      DeleteAppend(a[1..], b, host, ok, kept);
      Associate(if SameBucket(a[0], host, ok) && a[0].id !in kept then [] else [a[0]],
                DeleteOthers(a[1..], host, ok, kept), DeleteOthers(b, host, ok, kept));
    }
  }

  /**
    The insert and the deletes of one inspection need not be one step: a row of another host
    inserted in between neither takes part in a delete nor changes what it removes.
  */
  lemma DeletesIgnoreOtherHosts(rows: seq<Run>, other: Run, host: int, ok: bool)
    requires other.host != host
    ensures Prune(rows + [other], host, ok) == Prune(rows, host, ok) + [other]
  {
    assert [other][1..] == [];
    IdsAppend(rows, [other], host, ok);
    assert [] + IdsDesc(rows, host, ok) == IdsDesc(rows, host, ok);
    DeleteAppend(rows, [other], host, ok, Take(IdsDesc(rows, host, ok), KEEP));
  }

  lemma {:induction false} IdsAfterDelete(rows: seq<Run>, host: int, ok: bool,
                                          other: int, okOther: bool, kept: seq<nat>)
    requires other != host || okOther != ok
    ensures IdsDesc(DeleteOthers(rows, other, okOther, kept), host, ok) == IdsDesc(rows, host, ok)
  {
    if rows != [] {
      IdsAfterDelete(rows[1..], host, ok, other, okOther, kept);
      var rest := DeleteOthers(rows[1..], other, okOther, kept);
      if SameBucket(rows[0], other, okOther) && rows[0].id !in kept {
        assert [] + rest == rest;
      } else {
        assert ([rows[0]] + rest)[1..] == rest;
      }
    }
  }

  lemma {:induction false} DeletesCommuteOn(rows: seq<Run>, a: int, okA: bool, keptA: seq<nat>,
                                            b: int, okB: bool, keptB: seq<nat>)
    ensures DeleteOthers(DeleteOthers(rows, a, okA, keptA), b, okB, keptB)
         == DeleteOthers(DeleteOthers(rows, b, okB, keptB), a, okA, keptA)
  {
    if rows != [] {
      var r, rest := rows[0], rows[1..];
      DeletesCommuteOn(rest, a, okA, keptA, b, okB, keptB);
      DeleteHead(r, DeleteOthers(rest, a, okA, keptA), b, okB, keptB);
      DeleteHead(r, DeleteOthers(rest, b, okB, keptB), a, okA, keptA);
      assert [] + DeleteOthers(rest, a, okA, keptA) == DeleteOthers(rest, a, okA, keptA);
      assert [] + DeleteOthers(rest, b, okB, keptB) == DeleteOthers(rest, b, okB, keptB);
    }
  }

  lemma DeleteHead(r: Run, rest: seq<Run>, host: int, ok: bool, kept: seq<nat>)
    ensures DeleteOthers([r] + rest, host, ok, kept)
         == (if SameBucket(r, host, ok) && r.id !in kept then [] else [r]) + DeleteOthers(rest, host, ok, kept)
  {
    assert ([r] + rest)[1..] == rest;
  }

  /** Deletes for different buckets can be run in either order. */
  lemma DeletesCommute(rows: seq<Run>, a: int, okA: bool, b: int, okB: bool)
    requires a != b || okA != okB
    ensures Prune(Prune(rows, a, okA), b, okB) == Prune(Prune(rows, b, okB), a, okA)
  {
    var keptA, keptB := Take(IdsDesc(rows, a, okA), KEEP), Take(IdsDesc(rows, b, okB), KEEP);
    IdsAfterDelete(rows, b, okB, a, okA, keptA);
    IdsAfterDelete(rows, a, okA, b, okB, keptB);
    DeletesCommuteOn(rows, a, okA, keptA, b, okB, keptB);
  }

  // ---------------------------------------------------------------- anti-flapping

  /** The public status of a host target, from the host's status and its two newest runs if they can be read. */
  function HostTargetStatus(hostStatus: string, runs: Option<seq<Run>>): string {
    if hostStatus == "down" then
      if runs.Some? && |runs.value| >= 2 && runs.value[0].status == "down" && runs.value[1].status != "down"
      then "degraded"
      else "outage"
    else if hostStatus == "degraded" || hostStatus == "unknown" then "degraded"
    else "operational"
  }

  /** The host's own runs, oldest first. */
  function OfHost(history: seq<Run>, host: int): seq<Run> {
    if history == [] then []
    else (if history[0].host == host then [history[0]] else []) + OfHost(history[1..], host)
  }

  lemma ReverseGrows(own: seq<Run>, listed: seq<Run>, r: Run)
    requires |listed| == |own| && forall i | 0 <= i < |own| :: listed[i] == own[|own| - 1 - i]
    ensures var (a, b) := ([r] + own, listed + [r]);
      |b| == |a| && forall i | 0 <= i < |a| :: b[i] == a[|a| - 1 - i]
  {}

  lemma {:induction false} SelectIsReverse(history: seq<Run>, host: int)
    ensures var own, listed := OfHost(history, host), SelectDesc(history, host, All);
      |listed| == |own| && forall i | 0 <= i < |own| :: listed[i] == own[|own| - 1 - i]
  {
    if history != [] {
      SelectIsReverse(history[1..], host);
      var r, own, listed := history[0], OfHost(history[1..], host), SelectDesc(history[1..], host, All);
      if r.host == host {
        ReverseGrows(own, listed, r);
      } else {
        assert [] + own == own && listed + [] == listed;
      }
    }
  }

  /**
    The outage choice made on the pruned table is the one the full history gives.  Once the
    run just recorded is down, the target is in outage exactly when the run before it was
    down too, or the listing failed - or when there was none: a first run that fails is an
    outage at once.
  */
  lemma AntiFlapping(history: seq<Run>, host: int, lost: bool)
    ensures var status := HostTargetStatus("down", if lost then None else Some(List(Pruned(history), host, 2, All)));
      var own := OfHost(history, host);
      && (!lost ==> status == HostTargetStatus("down", Some(List(history, host, 2, All))))
      && (own != [] && own[|own| - 1].status == "down" ==>
            (status == "outage" <==> lost || |own| == 1 || own[|own| - 2].status == "down"))
  {
    PruningIsInvisible(history, host, 2, All);
    SelectIsReverse(history, host);
  }

  /** A host that is not down is never in outage; it is degraded if it is degraded or unknown. */
  lemma HostUpStatus(hostStatus: string, runs: Option<seq<Run>>)
    requires hostStatus != "down"
    ensures HostTargetStatus(hostStatus, runs)
         == (if hostStatus in ["degraded", "unknown"] then "degraded" else "operational")
  {
    assert ["degraded", "unknown"][0] == "degraded" && ["degraded", "unknown"][1] == "unknown";
  }

  // ---------------------------------------------------------------- the table

  class RunTable {
    var rows: seq<Run>
    var nextId: nat
    ghost var history: seq<Run>    // every run ever recorded

    ghost predicate Valid()
      reads this
    {
      Increasing(history) && rows == Pruned(history) && forall r | r in history :: r.id < nextId
    }

    constructor ()
      ensures Valid() && history == []
    {
      rows, nextId, history := [], 1, [];
    }

    method RecordInspectionRun(host: int, status: string) returns (id: nat)
      requires Valid()
      modifies this
      ensures Valid() && history == old(history) + [Run(id, host, status)]
    {
      id := nextId;
      nextId := nextId + 1;
      var run := Run(id, host, status);
      rows := rows + [run];
      rows := Prune(rows, host, true);
      rows := Prune(rows, host, false);
      assert Increasing(history + [run]) by {
        assert forall i | 0 <= i < |history| :: history[i] in history;
      }
      InsertAndPrune(history, run);
      history := history + [run];
    }

    /** The rows come back newest first until the limit is reached. */
    method ListInspectionRuns(host: int, limit: int, filter: Filter) returns (runs: seq<Run>)
      requires Valid()
      ensures IsListing(runs, rows, host, if limit <= 0 then 50 else limit, filter == Issues)
      ensures runs == List(rows, host, limit, filter)
      ensures limit <= 100 ==> runs == List(history, host, limit, filter)
    {
      var n := if limit <= 0 then 50 else limit;
      runs := [];
      var i := |rows|;
      while i > 0 && |runs| < n
        invariant 0 <= i <= |rows| && |runs| <= n
        invariant runs == SelectDesc(rows[i..], host, filter)
        decreases i
      {
        i := i - 1;
        SelectFront(rows, i, host, filter);
        if Matches(rows[i], host, filter) {
          runs := runs + [rows[i]];
        }
      }
      Scanned(rows, i, host, limit, filter);
      PrunedSubset(history);
      ListHoldsTheNewest(rows, host, limit, filter);
      if limit <= 100 { PruningIsInvisible(history, host, limit, filter); }
    }
  }

  /** A row in front of the scanned part comes last in the listing. */
  lemma SelectFront(rows: seq<Run>, i: nat, host: int, filter: Filter)
    requires i < |rows|
    ensures SelectDesc(rows[i..], host, filter) ==
      if Matches(rows[i], host, filter) then SelectDesc(rows[i + 1..], host, filter) + [rows[i]]
      else SelectDesc(rows[i + 1..], host, filter)
  {
    assert rows[i..][0] == rows[i] && rows[i..][1..] == rows[i + 1..];
  }

  /** When the scan stops, what it has collected is the listing. */
  lemma Scanned(rows: seq<Run>, i: nat, host: int, limit: int, filter: Filter)
    requires i <= |rows|
    requires var n := if limit <= 0 then 50 else limit;
      |SelectDesc(rows[i..], host, filter)| <= n && (i == 0 || |SelectDesc(rows[i..], host, filter)| >= n)
    ensures SelectDesc(rows[i..], host, filter) == List(rows, host, limit, filter)
  {
    SelectAppend(rows[..i], rows[i..], host, filter);
    assert rows[..i] + rows[i..] == rows;
  }

  lemma {:induction false} SelectAppend(a: seq<Run>, b: seq<Run>, host: int, filter: Filter)
    ensures SelectDesc(a + b, host, filter) == SelectDesc(b, host, filter) + SelectDesc(a, host, filter)
  {
    if a == [] {
      assert a + b == b;
    } else {
      assert (a + b)[1..] == a[1..] + b;
      SelectAppend(a[1..], b, host, filter);
    }
  }
}
