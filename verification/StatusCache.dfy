/**
  The status-page cache: writers change the database and then poke a one-slot channel; a
  single worker debounces, drains the channel, re-reads the database query by query and
  replaces the stored snapshot.  Every database access, channel operation and store is one
  atomic step, so a run is an arbitrary interleaving of writers and worker.

  `history` holds every state the database ever had; a version is an index into it.  A
  snapshot carries the version at which its rebuild began and the one at which each of its rows
  was read.  No rule of the protocol looks at `history`, at those versions, at `misread` or at
  `failed`: they only record the past.  What a visitor is served is `Served`, without the record.
*/
module StatusCache {

  type Db = map<string, string>

  const ENABLED_KEY := "status_page_enabled"

  function Read(db: Db, key: string): string {
    if key in db then db[key] else ""
  }

  datatype Snapshot =
    | NoSnapshot
    | Disabled(begun: nat, misread: bool)      // misread: a read went wrong unnoticed
    | Page(begun: nat, body: map<string, string>, at: map<string, nat>, misread: bool)

  /** What the handler has to show: the snapshot without its record. */
  datatype Content = Nothing | Hidden | Shown(body: map<string, string>)

  function Served(s: Snapshot): Content {
    match s
    case NoSnapshot => Nothing
    case Disabled(_, _) => Hidden
    case Page(_, body, _, _) => Shown(body)
  }

  function Begun(s: Snapshot): int {
    if s.NoSnapshot? then -1 else s.begun
  }

  /** The version whose writes the snapshot is sure to show. */
  function Reflects(s: Snapshot): int {
    if s.NoSnapshot? || s.misread then -1 else s.begun
  }

  /** What a rebuild running alone on `db` stores. */
  function Render(db: Db, plan: seq<string>, version: nat): Snapshot {
    if Read(db, ENABLED_KEY) != "true" then Disabled(version, false)
    else Page(version, Rows(db, plan), Stamps(plan, version), false)
  }

  function Rows(db: Db, plan: seq<string>): map<string, string> {
    map key | key in plan :: Read(db, key)
  }

  function Stamps(plan: seq<string>, version: nat): map<string, nat> {
    map key | key in plan :: version
  }

  lemma RowsGrow(db: Db, plan: seq<string>, version: nat, k: nat)
    requires k < |plan|
    ensures Rows(db, plan[..k + 1]) == Rows(db, plan[..k])[plan[k] := Read(db, plan[k])]
    ensures Stamps(plan[..k + 1], version) == Stamps(plan[..k], version)[plan[k] := version]
  {
    assert plan[..k + 1] == plan[..k] + [plan[k]];
  }

  /** Program counter of the worker goroutine, with the locals of the rebuild. */
  datatype Worker =
    | Idle                                                   // in the outer select
    | Debouncing                                             // token taken, 300 ms timer running
    | Draining                                               // emptying the channel
    | Ready                                                  // about to rebuild
    | Reading(begun: nat, enabled: bool, body: map<string, string>, at: map<string, nat>, next: nat, misread: bool)
    | Stopped                                                // context cancelled

  datatype State = State(
    plan: seq<string>,      // the queries of one summary
    history: seq<Db>,
    pending: set<nat>,      // versions whose writer has not yet called Invalidate
    token: bool,            // the one-slot channel
    worker: Worker,
    stored: Snapshot,
    failed: int)            // begin of the last rebuild since the last good one that failed or misread, or -1

  function Version(s: State): int { |s.history| - 1 }

  function Current(s: State): Db
    requires s.history != []
  {
    s.history[|s.history| - 1]
  }

  datatype Event =
    | Write(db: Db)                 // any write to the tables behind the status page
    | Invalidate(covers: set<nat>)  // one call, made by a writer after its own writes
    | Tick                          // the 60 s ticker
    | Take | Wake | Drain           // receive, timer, one turn of the drain loop
    | Begin | Query | Fail | Store  // the rebuild
    | BeginBlind                    // the settings read fails, and its error is discarded
    | QueryBlind(got: string)       // so does a query of the summary, after some of its rows
    | Stop

  ghost predicate Init(s: State) {
    && |s.history| == 1 && s.pending == {} && !s.token
    && s.worker == Ready && -1 <= s.failed <= 0
    && (s.stored == NoSnapshot || s.stored == Render(s.history[0], s.plan, 0)
        || (s.stored.begun == 0 && s.stored.misread))
  }

  predicate Enabled(s: State, e: Event) {
    match e
    case Write(_) => true
    case Invalidate(covers) => covers <= s.pending
    case Tick => s.worker.Idle?
    case Take => s.worker.Idle? && s.token
    case Wake => s.worker.Debouncing?
    case Drain => s.worker.Draining?
    case Begin => s.worker.Ready? && s.history != []
    case BeginBlind => s.worker.Ready? && s.history != []
    case Query => s.worker.Reading? && s.worker.enabled && s.worker.next < |s.plan| && s.history != []
    case QueryBlind(_) => s.worker.Reading? && s.worker.enabled && s.worker.next < |s.plan| && s.history != []
    case Fail => s.worker.Reading? && s.worker.enabled
    case Store => s.worker.Reading? && (s.worker.enabled ==> s.worker.next == |s.plan|)
    case Stop => s.worker.Idle? || s.worker.Debouncing?
  }

  /** The worker after one more answer. */
  function Got(w: Worker, key: string, value: string, version: nat, wrong: bool): Worker
    requires w.Reading?
  {
    w.(body := w.body[key := value], at := w.at[key := version], next := w.next + 1, misread := w.misread || wrong)
  }

  function Step(s: State, e: Event): State
    requires Enabled(s, e)
  {
    match e
    case Write(db) => s.(history := s.history + [db], pending := s.pending + {|s.history|})
    case Invalidate(covers) => s.(token := true, pending := s.pending - covers)
    case Tick => s.(worker := Ready)
    case Take => s.(token := false, worker := Debouncing)
    case Wake => s.(worker := Draining)
    case Drain => if s.token then s.(token := false) else s.(worker := Ready)
    case Begin =>
      var enabled := Read(Current(s), ENABLED_KEY) == "true";
      s.(worker := Reading(|s.history| - 1, enabled, map[], map[], 0, false))
    case BeginBlind =>
      s.(worker := Reading(|s.history| - 1, false, map[], map[], 0, Read(Current(s), ENABLED_KEY) == "true"))
    case Query =>
      var key := s.plan[s.worker.next];
      s.(worker := Got(s.worker, key, Read(Current(s), key), |s.history| - 1, false))
    case QueryBlind(got) =>
      var key := s.plan[s.worker.next];
      s.(worker := Got(s.worker, key, got, |s.history| - 1, got != Read(Current(s), key)))
    case Fail => s.(worker := Idle, failed := s.worker.begun)
    case Store =>
      var w := s.worker;
      var snap := if w.enabled then Page(w.begun, w.body, w.at, w.misread) else Disabled(w.begun, w.misread);
      s.(worker := Idle, stored := snap, failed := if w.misread then w.begun else -1)
    case Stop => s.(worker := Stopped)
  }

  /** Every event of `events` is enabled when its turn comes, starting from `s`. */
  predicate CanRun(s: State, events: seq<Event>)
    decreases |events|
  {
    events == [] || (Enabled(s, events[0]) && CanRun(Step(s, events[0]), events[1..]))
  }

  function Exec(s: State, events: seq<Event>): State
    requires CanRun(s, events)
    decreases |events|
  {
    if events == [] then s else Exec(Step(s, events[0]), events[1..])
  }

  // ---------------------------------------------------------------- the invariant

  /** Every row is what its key held at the version recorded for it, and none is older than `from`. */
  ghost predicate ReadAt(history: seq<Db>, from: nat, body: map<string, string>, at: map<string, nat>) {
    && at.Keys == body.Keys
    && forall key | key in body :: from <= at[key] < |history| && body[key] == Read(history[at[key]], key)
  }

  /** Unless it was misread, no row of the snapshot is older than the version its rebuild began at. */
  ghost predicate SnapshotSound(s: State, snap: Snapshot) {
    snap.NoSnapshot? ||
    (snap.begun < |s.history| && (!snap.misread ==>
      match snap
      case Disabled(begun, _) => Read(s.history[begun], ENABLED_KEY) != "true"
      case Page(begun, body, at, _) =>
        && Read(s.history[begun], ENABLED_KEY) == "true"
        && body.Keys == (set key | key in s.plan) && ReadAt(s.history, begun, body, at)))
  }

  ghost predicate WorkerSound(s: State) {
    s.worker.Reading? ==>
      && Begun(s.stored) <= s.worker.begun < |s.history| && s.failed <= s.worker.begun
      && s.worker.next <= |s.plan|
      && (!s.worker.misread ==>
        && (s.worker.enabled <==> Read(s.history[s.worker.begun], ENABLED_KEY) == "true")
        && s.worker.body.Keys == (set key | key in s.plan[..s.worker.next])
        && ReadAt(s.history, s.worker.begun, s.worker.body, s.worker.at))
  }

  /** The write that produced version `v` has reached, or is bound to reach, the stored snapshot. */
  ghost predicate Covered(s: State, v: nat) {
    || Reflects(s.stored) >= v
    || s.token
    || s.worker.Debouncing? || s.worker.Draining? || s.worker.Ready?
    || (s.worker.Reading? && s.worker.begun >= v)
    || s.failed >= v
    || s.worker.Stopped?
  }

  ghost predicate Inv(s: State) {
    && s.history != []
    && (forall v | v in s.pending :: 0 < v < |s.history|)
    && -1 <= Begun(s.stored) < |s.history|
    && -1 <= s.failed < |s.history|
    && SnapshotSound(s, s.stored)
    && WorkerSound(s)
    && (forall v: nat | v < |s.history| && v !in s.pending :: Covered(s, v))
  }

  lemma InitInv(s: State)
    requires Init(s)
    ensures Inv(s)
  {
  }

  lemma QueryKeepsBody(s: State, e: Event)
    requires s.history != [] && WorkerSound(s) && Enabled(s, e) && (e.Query? || e.QueryBlind?)
    ensures WorkerSound(Step(s, e))
  {
    assert s.plan[..s.worker.next + 1] == s.plan[..s.worker.next] + [s.plan[s.worker.next]];
  }

  lemma StoreKeepsSound(s: State)
    requires s.history != [] && WorkerSound(s) && Enabled(s, Store)
    ensures SnapshotSound(Step(s, Store), Step(s, Store).stored)
  {
    assert s.plan[..|s.plan|] == s.plan;
  }

  lemma StepKeepsSound(s: State, e: Event)
    requires Inv(s) && Enabled(s, e)
    ensures SnapshotSound(Step(s, e), Step(s, e).stored) && WorkerSound(Step(s, e))
  {
    if e.Query? || e.QueryBlind? { QueryKeepsBody(s, e); }
    if e.Store? { StoreKeepsSound(s); }
  }

  lemma StepKeepsCover(s: State, e: Event, v: nat)
    requires Inv(s) && Enabled(s, e)
    requires v < |Step(s, e).history| && v !in Step(s, e).pending
    ensures Covered(Step(s, e), v)
  {
    assert v in s.pending || v == |s.history| || Covered(s, v);
  }

  /** Every step keeps the invariant, and none replaces a snapshot by one begun earlier. */
  lemma StepInv(s: State, e: Event)
    requires Inv(s) && Enabled(s, e)
    ensures Inv(Step(s, e))
    ensures Begun(Step(s, e).stored) >= Begun(s.stored)
  {
    var t := Step(s, e);
    StepKeepsSound(s, e);
    forall v: nat | v < |t.history| && v !in t.pending ensures Covered(t, v) {
      StepKeepsCover(s, e, v);
    }
  }

  lemma {:induction false} RunInv(s: State, events: seq<Event>)
    requires Inv(s) && CanRun(s, events)
    ensures Inv(Exec(s, events))
    ensures Begun(Exec(s, events).stored) >= Begun(s.stored)
    decreases |events|
  {
    if events != [] {
      StepInv(s, events[0]);
      RunInv(Step(s, events[0]), events[1..]);
    }
  }

  // ---------------------------------------------------------------- safety over whole runs

  /**
    No lost invalidation.  In every state of every run, a write whose Invalidate has returned
    is in the stored snapshot, or a token or a rebuild that will see it is under way, or a
    rebuild that began after it has failed or misread and no good one has been stored since, or
    the worker was cancelled.  What is stored, unless misread, never mixes in a row older than
    the rebuild it came from.
  */
  lemma NoLostInvalidation(s0: State, events: seq<Event>, v: nat)
    requires Init(s0) && CanRun(s0, events)
    requires v < |Exec(s0, events).history| && v !in Exec(s0, events).pending
    ensures Covered(Exec(s0, events), v)
    ensures SnapshotSound(Exec(s0, events), Exec(s0, events).stored)
  {
    InitInv(s0);
    RunInv(s0, events);
  }

  /** The version at which the stored snapshot's rebuild began never decreases. */
  lemma NeverGoesBackwards(s0: State, before: seq<Event>, after: seq<Event>)
    requires Init(s0) && CanRun(s0, before) && CanRun(Exec(s0, before), after)
    ensures Begun(Exec(s0, before).stored) <= Begun(Exec(Exec(s0, before), after).stored)
  {
    InitInv(s0);
    RunInv(s0, before);
    RunInv(Exec(s0, before), after);
  }

  /** The worker takes the token, drains, begins to rebuild and fails. */
  lemma FailingTurn(s: State) returns (events: seq<Event>)
    requires s.worker == Idle && s.token && s.history != [] && Read(Current(s), ENABLED_KEY) == "true"
    ensures CanRun(s, events) && Exec(s, events) == s.(token := false, failed := Version(s))
  {
    var s2 := Step(Step(s, Take), Wake);
    var s4 := Step(Step(s2, Drain), Begin);
    events := Prepend(s4, Fail, []);
    events := Prepend(Step(s2, Drain), Begin, events);
    events := Prepend(s2, Drain, events);
    events := Prepend(Step(s, Take), Wake, events);
    events := Prepend(s, Take, events);
  }

  /** A writer's write and its call of Invalidate, while no other writer is about. */
  lemma WriteRun(s: State, db: Db, rest: seq<Event>) returns (events: seq<Event>)
    requires s.pending == {}
    requires CanRun(s.(history := s.history + [db], token := true), rest)
    ensures CanRun(s, events)
    ensures Exec(s, events) == Exec(s.(history := s.history + [db], token := true), rest)
  {
    var s1 := Step(s, Write(db));
    assert Step(s1, Invalidate({|s.history|})) == s.(history := s.history + [db], token := true);
    events := Prepend(s1, Invalidate({|s.history|}), rest);
    events := Prepend(s, Write(db), events);
  }

  /**
    A rebuild that fails has already consumed the token.  Whatever the first row of the plan held
    and whatever another value it is given by an invalidated write, in this run the worker ends up
    idle, the channel empty, and the page still shows the value the row no longer has.
  */
  lemma FailedRebuildLosesTheToken(key: string, was: string, now: string)
    returns (s0: State, events: seq<Event>)
    requires key != ENABLED_KEY && was != now
    ensures Init(s0) && CanRun(s0, events)
    ensures var t := Exec(s0, events);
      && Quiescent(t) && t.history == [PageDb(key, was), PageDb(key, now)]
      && t.stored.Page? && !t.stored.misread && key in t.stored.body
      && t.stored.body[key] == was && Read(Current(t), key) == now
      && !Right(t)
  {
    var db := PageDb(key, was);
    s0 := State([key], [db], {}, false, Ready, Render(db, [key], 0), -1);
    var s2 := s0.(worker := Idle);
    var s4 := s2.(history := [db] + [PageDb(key, now)], token := true);
    var turn := FailingTurn(s4);
    events := WriteRun(s2, PageDb(key, now), turn);
    var rebuild := RebuildRun(s0, NoFault);
    Join(s0, rebuild, events);
    events := rebuild + events;
    assert key in Exec(s0, events).stored.body;
  }

  /** An enabled page with one row. */
  function PageDb(key: string, value: string): Db {
    map[ENABLED_KEY := "true", key := value]
  }

  /**
    The record of a failure says more than the page shows.  A rebuild that begins before a write
    and reads the row after it stores the page of the later database; the rebuild that this write
    asked for may then fail, and the page is right all the same.
  */
  lemma FailureMayNotShow(key: string, was: string, now: string) returns (s0: State, events: seq<Event>)
    requires key != ENABLED_KEY
    ensures Init(s0) && CanRun(s0, events)
    ensures var t := Exec(s0, events);
      Quiescent(t) && t.failed > Reflects(t.stored) && !Fresh(t) && Right(t)
  {
    var db := PageDb(key, was);
    s0 := State([key], [db], {}, false, Ready, NoSnapshot, -1);
    var s1 := Step(s0, Begin);
    var s3 := s1.(history := [db] + [PageDb(key, now)], token := true);
    var s4 := Step(s3, Query);
    assert s4.worker.body == Rows(Current(s4), [key]);
    var s5 := Step(s4, Store);
    var turn := FailingTurn(s5);
    events := Prepend(s4, Store, turn);
    events := Prepend(s3, Query, events);
    events := WriteRun(s1, PageDb(key, now), events);
    events := Prepend(s0, Begin, events);
  }

  lemma Prepend(s: State, e: Event, rest: seq<Event>) returns (events: seq<Event>)
    requires Enabled(s, e) && CanRun(Step(s, e), rest)
    ensures events == [e] + rest && CanRun(s, events) && Exec(s, events) == Exec(Step(s, e), rest)
  {
    events := [e] + rest;
    assert events[1..] == rest;
  }

  // ---------------------------------------------------------------- settling

  /** The steps left once writers stop writing and neither the ticker nor an error interferes. */
  predicate Closing(e: Event) {
    match e
    case Invalidate(covers) => covers != {}
    case Write(_) => false
    case Tick => false
    case Fail => false
    case Stop => false
    case BeginBlind => false
    case QueryBlind(_) => false
    case _ => true
  }

  function WorkerDistance(s: State): nat {
    match s.worker
    case Idle => 0
    case Debouncing => |s.plan| + 5
    case Draining => |s.plan| + 4
    case Ready => |s.plan| + 3
    case Reading(_, _, _, _, next, _) => if next <= |s.plan| then 1 + |s.plan| - next else 1
    case Stopped => 0
  }

  /** Bounds the number of closing steps that can still happen. */
  function Measure(s: State): nat {
    |s.pending| * (|s.plan| + 8) + (if s.token then |s.plan| + 7 else 0) + WorkerDistance(s)
  }

  lemma FewerPending(small: set<nat>, big: set<nat>, k: nat)
    requires small < big
    ensures |small| * k + k <= |big| * k
  {
    var rest := big - small;
    assert big == small + rest;
    assert |rest| >= 1 by { var x :| x in rest; assert {x} <= rest; assert |rest - {x}| + 1 == |rest|; }
    assert |big| * k == |small| * k + |rest| * k;
    assert |rest| * k >= k;
  }

  lemma ClosingDecreases(s: State, e: Event)
    requires Enabled(s, e) && Closing(e)
    ensures Measure(Step(s, e)) < Measure(s)
  {
    if e.Invalidate? {
      FewerPending(s.pending - e.covers, s.pending, |s.plan| + 8);
    }
  }

  predicate Quiescent(s: State) {
    s.worker.Idle? && !s.token && s.pending == {}
  }

  /** While anything is left to do and the worker lives, some closing step is enabled. */
  lemma Progress(s: State) returns (e: Event)
    requires Inv(s) && !s.worker.Stopped? && !Quiescent(s)
    ensures Enabled(s, e) && Closing(e)
  {
    if s.pending != {} {
      e := Invalidate(s.pending);
    } else {
      match s.worker
      case Idle => e := Take;
      case Debouncing => e := Wake;
      case Draining => e := Drain;
      case Ready => e := Begin;
      case Reading(_, enabled, _, _, next, _) => e := if enabled && next < |s.plan| then Query else Store;
    }
  }

  lemma FreshIsRender(s: State)
    requires Inv(s) && Reflects(s.stored) == Version(s)
    ensures s.stored == Render(Current(s), s.plan, Version(s))
  {
    if s.stored.Page? {
      assert s.stored.body == Rows(Current(s), s.plan);
      assert s.stored.at == Stamps(s.plan, Version(s));
    }
  }

  /** The stored snapshot, its record included, is what a lone rebuild of the current database gives. */
  ghost predicate Fresh(s: State) {
    s.history != [] && s.stored == Render(Current(s), s.plan, Version(s))
  }

  /** What is served is what a lone rebuild of the current database would have served. */
  ghost predicate Right(s: State) {
    s.history != [] && Served(s.stored) == Served(Render(Current(s), s.plan, Version(s)))
  }

  /** Nothing that decides the content of the snapshot has another value now than when it was read. */
  ghost predicate Unchanged(s: State)
    requires Inv(s) && Reflects(s.stored) >= 0
  {
    var was := s.history[s.stored.begun];
    && (Read(was, ENABLED_KEY) == "true" <==> Read(Current(s), ENABLED_KEY) == "true")
    && (s.stored.Page? ==>
      forall key | key in s.plan :: Read(s.history[s.stored.at[key]], key) == Read(Current(s), key))
  }

  /**
    When all is quiet the snapshot is that of the current version exactly if no rebuild that
    failed or misread began after the version it reflects; then what is served is right.
  */
  lemma QuiescentFreshIff(s0: State, events: seq<Event>)
    requires Init(s0) && CanRun(s0, events) && Quiescent(Exec(s0, events))
    ensures var s := Exec(s0, events); Fresh(s) <==> s.failed <= Reflects(s.stored)
    ensures var s := Exec(s0, events); s.failed <= Reflects(s.stored) ==> Right(s)
  {
    InitInv(s0);
    RunInv(s0, events);
    QuietFreshIff(Exec(s0, events));
  }

  /**
    What is served is right exactly if nothing it was made from has changed since it was read,
    at any moment of any run and for every snapshot that was not misread.
  */
  lemma RightIffUnchanged(s0: State, events: seq<Event>)
    requires Init(s0) && CanRun(s0, events) && Reflects(Exec(s0, events).stored) >= 0
    ensures Inv(Exec(s0, events))
    ensures Right(Exec(s0, events)) <==> Unchanged(Exec(s0, events))
  {
    InitInv(s0);
    RunInv(s0, events);
    var s := Exec(s0, events);
    if s.stored.Page? {
      var now := Rows(Current(s), s.plan);
      assert s.stored.body.Keys == now.Keys;
      if Unchanged(s) {
        assert s.stored.body == now;
      } else if s.stored.body == now {
        assert forall key | key in s.plan :: s.stored.body[key] == now[key];
      }
    }
  }

  lemma QuietFreshIff(s: State)
    requires Inv(s) && Quiescent(s)
    ensures Fresh(s) <==> s.failed <= Reflects(s.stored)
  {
    assert Covered(s, Version(s));
    if s.failed <= Reflects(s.stored) { FreshIsRender(s); }
  }

  predicate Misreading(w: Worker) {
    w.Reading? && w.misread
  }

  /** No failure is on record or about to be, or a good rebuild is under way. */
  predicate Recovering(s: State) {
    (s.failed == -1 && !Misreading(s.worker)) || (s.worker.Reading? && !s.worker.misread)
  }

  lemma ClosingRecovers(s: State, e: Event)
    requires Enabled(s, e) && Closing(e)
    ensures Recovering(s) || e == Begin || (e == Store && !Misreading(s.worker)) ==> Recovering(Step(s, e))
    ensures !Misreading(s.worker) ==> !Misreading(Step(s, e).worker)
  {
  }

  lemma {:induction false} ClosingRun(s: State, events: seq<Event>)
    requires Inv(s) && CanRun(s, events) && forall e | e in events :: Closing(e)
    ensures var t := Exec(s, events);
      && Inv(t) && Measure(t) + |events| <= Measure(s) && t.history == s.history
      && (Recovering(s) || Begin in events || (Store in events && !Misreading(s.worker)) ==> Recovering(t))
      && (!s.worker.Stopped? ==> !t.worker.Stopped?)
    decreases |events|
  {
    if events != [] {
      StepInv(s, events[0]);
      ClosingDecreases(s, events[0]);
      ClosingRecovers(s, events[0]);
      ClosingRun(Step(s, events[0]), events[1..]);
    }
  }

  /**
    The cache settles.  From any reachable state with a live worker, closing steps cannot go
    on for longer than `Measure`; when none is enabled any more the worker is idle, the channel
    empty, and the stored snapshot is that of the final version if and only if no failed or
    misread rebuild began after it.  Then what is served is right - which is so when no such
    rebuild was on record at the start, and whenever one was begun or properly completed on the way.
  */
  lemma Settles(s0: State, before: seq<Event>, events: seq<Event>)
    requires Init(s0) && CanRun(s0, before) && !Exec(s0, before).worker.Stopped?
    requires CanRun(Exec(s0, before), events) && forall e | e in events :: Closing(e)
    ensures |events| <= Measure(Exec(s0, before))
    ensures var s, t := Exec(s0, before), Exec(Exec(s0, before), events);
      (forall e | Closing(e) :: !Enabled(t, e)) ==>
        && Quiescent(t)
        && (Fresh(t) <==> t.failed <= Reflects(t.stored))
        && (t.failed <= Reflects(t.stored) ==> Right(t))
        && (Recovering(s) || Begin in events || (Store in events && !Misreading(s.worker)) ==> Fresh(t) && Right(t))
  {
    InitInv(s0);
    RunInv(s0, before);
    var s := Exec(s0, before);
    ClosingRun(s, events);
    var t := Exec(s, events);
    if !Quiescent(t) {
      var e := Progress(t);
      assert Closing(e) && Enabled(t, e);
    } else {
      QuietFreshIff(t);
    }
  }

  /** A worker whose context is cancelled never stores anything again. */
  lemma {:induction false} StoppedForGood(s: State, events: seq<Event>)
    requires Enabled(s, Stop) && CanRun(Step(s, Stop), events)
    ensures Exec(Step(s, Stop), events).stored == s.stored && Exec(Step(s, Stop), events).worker == Stopped
  {
    StaysStopped(Step(s, Stop), events);
  }

  lemma {:induction false} StaysStopped(s: State, events: seq<Event>)
    requires s.worker == Stopped && CanRun(s, events)
    ensures Exec(s, events).stored == s.stored && Exec(s, events).worker == Stopped
    decreases |events|
  {
    if events != [] { StaysStopped(Step(s, events[0]), events[1..]); }
  }

  // ---------------------------------------------------------------- the ticker

  /** A good rebuild has been stored, is under way or is bound to begin. */
  predicate Hopeful(s: State) {
    Recovering(s) || s.worker.Debouncing? || s.worker.Draining? || s.worker.Ready?
  }

  lemma {:induction false} ClosingStaysHopeful(s: State, events: seq<Event>)
    requires Inv(s) && Hopeful(s) && CanRun(s, events) && forall e | e in events :: Closing(e)
    ensures Inv(Exec(s, events)) && Hopeful(Exec(s, events))
    decreases |events|
  {
    if events != [] {
      StepInv(s, events[0]);
      ClosingRecovers(s, events[0]);
      ClosingStaysHopeful(Step(s, events[0]), events[1..]);
    }
  }

  /** Closing steps lead to quiet. */
  lemma {:induction false} Quiesce(s: State) returns (events: seq<Event>)
    requires Inv(s) && !s.worker.Stopped?
    ensures CanRun(s, events) && (forall e | e in events :: Closing(e)) && Quiescent(Exec(s, events))
    decreases Measure(s)
  {
    events := [];
    if !Quiescent(s) {
      var e := Progress(s);
      StepInv(s, e);
      ClosingDecreases(s, e);
      var rest := Quiesce(Step(s, e));
      events := Prepend(s, e, rest);
    }
  }

  lemma TickStarts(s: State)
    requires Inv(s) && s.worker.Idle?
    ensures Enabled(s, Tick) && Inv(Step(s, Tick)) && Hopeful(Step(s, Tick)) && !Step(s, Tick).worker.Stopped?
  {
    StepInv(s, Tick);
  }

  /**
    A lost token is lost for one tick only.  From any reachable state with an idle worker, whatever
    has failed before, a tick can be followed by closing steps until none is enabled, and whenever it
    is, the snapshot is that of the current version and what is served is right.
  */
  lemma TickRepairs(s0: State, before: seq<Event>) returns (events: seq<Event>)
    requires Init(s0) && CanRun(s0, before) && Exec(s0, before).worker.Idle?
    ensures CanRun(Exec(s0, before), [Tick] + events) && forall e | e in events :: Closing(e)
    ensures forall e | Closing(e) :: !Enabled(Exec(Exec(s0, before), [Tick] + events), e)
    ensures Exec(Exec(s0, before), [Tick] + events).history == Exec(s0, before).history
    ensures Fresh(Exec(Exec(s0, before), [Tick] + events)) && Right(Exec(Exec(s0, before), [Tick] + events))
  {
    InitInv(s0);
    RunInv(s0, before);
    var s := Exec(s0, before);
    TickStarts(s);
    events := Quiesce(Step(s, Tick));
    var all := Prepend(s, Tick, events);
    ClosingRun(Step(s, Tick), events);
    AfterTick(s0, before, events);
  }

  lemma AfterTick(s0: State, before: seq<Event>, events: seq<Event>)
    requires Init(s0) && CanRun(s0, before) && Exec(s0, before).worker.Idle?
    requires CanRun(Exec(s0, before), [Tick] + events) && forall e | e in events :: Closing(e)
    ensures var t := Exec(Exec(s0, before), [Tick] + events);
      (forall e | Closing(e) :: !Enabled(t, e)) ==> Fresh(t) && Right(t)
  {
    InitInv(s0);
    RunInv(s0, before);
    var s := Exec(s0, before);
    TickStarts(s);
    assert ([Tick] + events)[1..] == events;
    var t := Exec(Step(s, Tick), events);
    ClosingStaysHopeful(Step(s, Tick), events);
    ClosingRun(Step(s, Tick), events);
    if !Quiescent(t) {
      var e := Progress(t);
      assert Closing(e) && Enabled(t, e);
    } else {
      QuietFreshIff(t);
    }
  }

  /**
    An error that is discarded does more harm than one that is returned: in this run, with one
    database that enables the page and not a single write, the snapshot ends up saying disabled.
  */
  lemma BlindReadHidesThePage() returns (s0: State, events: seq<Event>)
    ensures Init(s0) && Fresh(s0) && s0.stored.Page? && CanRun(s0, events)
    ensures forall e | e in events :: !e.Write? && !e.Fail?
    ensures var t := Exec(s0, events); Quiescent(t) && t.stored.Disabled? && !Right(t)
  {
    var on: Db := map[ENABLED_KEY := "true"];
    s0 := State([], [on], {}, false, Ready, Render(on, [], 0), -1);
    events := Prepend(Step(s0, BeginBlind), Store, []);
    events := Prepend(s0, BeginBlind, events);
    assert events == [BeginBlind, Store];
  }

  /** And whatever a lost query leaves in a row is shown: in this run, again without a write, any text at all. */
  lemma BlindRowIsShown(key: string, was: string, got: string) returns (s0: State, events: seq<Event>)
    requires key != ENABLED_KEY
    ensures Init(s0) && Fresh(s0) && CanRun(s0, events) && forall e | e in events :: !e.Write? && !e.Fail?
    ensures var t := Exec(s0, events);
      Quiescent(t) && t.stored.Page? && key in t.stored.body && t.stored.body[key] == got
  {
    var db := PageDb(key, was);
    s0 := State([key], [db], {}, false, Ready, Render(db, [key], 0), -1);
    var s1 := Step(s0, Begin);
    events := Prepend(Step(s1, QueryBlind(got)), Store, []);
    events := Prepend(s1, QueryBlind(got), events);
    events := Prepend(s0, Begin, events);
    assert events == [Begin] + ([QueryBlind(got)] + ([Store] + []));
  }

  /** What is right, spelled out: the rows as they are, a missing one empty, if the setting is "true"; else nothing. */
  lemma RightSpelled(s: State)
    requires Right(s)
    ensures var db := Current(s);
      if "status_page_enabled" in db && db["status_page_enabled"] == "true" then
        && Served(s.stored).Shown? && Served(s.stored).body.Keys == (set key | key in s.plan)
        && forall key | key in s.plan :: Served(s.stored).body[key] == (if key in db then db[key] else "")
      else Served(s.stored) == Hidden
  {}

  predicate ReadsWell(e: Event) {
    !e.BeginBlind? && !e.QueryBlind?
  }

  lemma FreshStep(s: State, e: Event)
    requires Inv(s) && Reflects(s.stored) == Version(s) && !Misreading(s.worker)
    requires Enabled(s, e) && !e.Write? && ReadsWell(e)
    ensures Inv(Step(s, e)) && Reflects(Step(s, e).stored) == Version(Step(s, e)) && !Misreading(Step(s, e).worker)
  {
    StepInv(s, e);
  }

  lemma {:induction false} FreshVersionStays(s: State, events: seq<Event>)
    requires Inv(s) && Reflects(s.stored) == Version(s) && !Misreading(s.worker)
    requires CanRun(s, events) && forall e | e in events :: !e.Write? && ReadsWell(e)
    ensures Inv(Exec(s, events)) && Reflects(Exec(s, events).stored) == Version(Exec(s, events))
    ensures Exec(s, events).history == s.history && Exec(s, events).plan == s.plan
    decreases |events|
  {
    if events != [] {
      FreshStep(s, events[0]);
      FreshVersionStays(Step(s, events[0]), events[1..]);
    }
  }

  lemma SameRender(s: State, t: State)
    requires Inv(s) && Inv(t) && t.history == s.history && t.plan == s.plan
    requires Reflects(s.stored) == Version(s) && Reflects(t.stored) == Version(t)
    ensures t.stored == s.stored == Render(Current(s), s.plan, Version(s))
  {
    FreshIsRender(s);
    FreshIsRender(t);
  }

  /** Once fresh, the snapshot stays exactly as it is through any steps but writes and unnoticed misreads. */
  lemma FreshStaysFresh(s: State, events: seq<Event>)
    requires Inv(s) && Reflects(s.stored) == Version(s) && !Misreading(s.worker)
    requires CanRun(s, events) && forall e | e in events :: !e.Write? && ReadsWell(e)
    ensures Exec(s, events).stored == s.stored == Render(Current(s), s.plan, Version(s))
  {
    FreshVersionStays(s, events);
    SameRender(s, Exec(s, events));
  }

  // ---------------------------------------------------------------- the code, run without interference

  lemma {:induction false} Append(s: State, events: seq<Event>, e: Event)
    requires CanRun(s, events) && Enabled(Exec(s, events), e)
    ensures CanRun(s, events + [e]) && Exec(s, events + [e]) == Step(Exec(s, events), e)
    decreases |events|
  {
    if events == [] {
      assert [e][1..] == [];
    } else {
      Append(Step(s, events[0]), events[1..], e);
      assert (events + [e])[1..] == events[1..] + [e];
    }
  }

  lemma {:induction false} Join(s: State, first: seq<Event>, second: seq<Event>)
    requires CanRun(s, first) && CanRun(Exec(s, first), second)
    ensures CanRun(s, first + second) && Exec(s, first + second) == Exec(Exec(s, first), second)
    decreases |first|
  {
    if first == [] {
      assert first + second == second;
    } else {
      Join(Step(s, first[0]), first[1..], second);
      assert (first + second)[1..] == first[1..] + second;
    }
  }

  /** The worker of a lone rebuild after `count` queries. */
  function After(s: State, count: nat): State
    requires s.history != [] && count <= |s.plan|
  {
    s.(worker := Reading(Version(s), true, Rows(Current(s), s.plan[..count]),
                       Stamps(s.plan[..count], Version(s)), count, false))
  }

  lemma OneQuery(s: State, count: nat)
    requires s.history != [] && count < |s.plan|
    ensures Enabled(After(s, count), Query) && Step(After(s, count), Query) == After(s, count + 1)
  {
    RowsGrow(Current(s), s.plan, Version(s), count);
  }

  lemma {:induction false} QueriesRun(s: State, count: nat) returns (events: seq<Event>)
    requires s.history != [] && count <= |s.plan|
    ensures CanRun(After(s, 0), events) && Exec(After(s, 0), events) == After(s, count)
  {
    if count == 0 {
      events := [];
    } else {
      events := QueriesRun(s, count - 1);
      OneQuery(s, count - 1);
      Append(After(s, 0), events, Query);
      events := events + [Query];
    }
  }

  /** What goes wrong in a rebuild: nothing, the settings read, or a query whose error is returned. */
  datatype Fault = NoFault | SettingLost | SummaryFails

  /** What a rebuild that runs alone stores. */
  function Rebuilt(db: Db, plan: seq<string>, version: nat, fault: Fault, stored: Snapshot): Snapshot {
    var on := Read(db, ENABLED_KEY) == "true";
    if fault.SettingLost? then Disabled(version, on)
    else if fault.SummaryFails? && on then stored
    else Render(db, plan, version)
  }

  /** A rebuild without interference, as steps of the machine. */
  lemma RebuildRun(s: State, fault: Fault) returns (events: seq<Event>)
    requires s.worker.Ready? && s.history != []
    ensures CanRun(s, events)
    ensures Exec(s, events) == s.(worker := Idle,
      stored := Rebuilt(Current(s), s.plan, Version(s), fault, s.stored),
      failed := if !fault.NoFault? && Read(Current(s), ENABLED_KEY) == "true" then Version(s) else -1)
  {
    var first := if fault.SettingLost? then BeginBlind else Begin;
    var begun := Step(s, first);
    if !begun.worker.enabled {
      events := Prepend(begun, Store, []);
    } else {
      assert begun == After(s, 0);
      events := QueriesRun(s, |s.plan|);
      assert s.plan[..|s.plan|] == s.plan;
      var last := if fault.SummaryFails? then Fail else Store;
      Append(begun, events, last);
      events := events + [last];
    }
    events := Prepend(s, first, events);
  }

  /**
    The fields of the server that the protocol uses.  Each method is a run of the machine
    above (returned as `events`), so the theorems hold of it and of its interleavings.
  */
  class Server {
    const plan: seq<string>
    var history: seq<Db>               // the database, last; earlier states are kept only to speak of them
    var statusInvalidateCh: bool       // does the channel hold its one token?
    var statusSnapshot: Snapshot
    ghost var pending: set<nat>
    ghost var worker: Worker
    ghost var failed: int

    ghost function St(): State
      reads this
    {
      State(plan, history, pending, statusInvalidateCh, worker, statusSnapshot, failed)
    }

    method InvalidateStatusPageCache(ghost covers: set<nat>)
      requires covers <= pending
      modifies this`statusInvalidateCh, this`pending
      ensures St() == Step(old(St()), Invalidate(covers))
    {
      if !statusInvalidateCh {
        statusInvalidateCh := true;
      }
      pending := pending - covers;
    }

    /** One query after the other. */
    method Summary(db: Db) returns (body: map<string, string>)
      ensures body == Rows(db, plan)
    {
      body := map[];
      var i := 0;
      while i < |plan|
        invariant 0 <= i <= |plan|
        invariant body == Rows(db, plan[..i])
      {
        RowsGrow(db, plan, 0, i);
        body := body[plan[i] := Read(db, plan[i])];
        i := i + 1;
      }
      assert plan[..i] == plan;
    }

    method RebuildStatusPageSnapshot(fault: Fault) returns (ghost events: seq<Event>)
      requires worker == Ready && history != []
      modifies this`statusSnapshot, this`worker, this`failed
      ensures CanRun(old(St()), events) && St() == Exec(old(St()), events)
      ensures worker == Idle
      ensures statusSnapshot == Rebuilt(history[|history| - 1], plan, |history| - 1, fault, old(statusSnapshot))
    {
      events := RebuildRun(St(), fault);
      worker := Idle;
      var db := history[|history| - 1];
      var enabled := if fault.SettingLost? then "" else Read(db, ENABLED_KEY);
      failed := if !fault.NoFault? && Read(db, ENABLED_KEY) == "true" then |history| - 1 else -1;
      if enabled != "true" {
        statusSnapshot := Disabled(|history| - 1, Read(db, ENABLED_KEY) == "true");
        return;
      }
      var body := Summary(db);
      if fault.SummaryFails? { return; }
      statusSnapshot := Page(|history| - 1, body, Stamps(plan, |history| - 1), false);
    }

    /** What the worker does once its debounce timer has fired. */
    method DrainAndRebuild(fault: Fault) returns (ghost events: seq<Event>)
      requires worker == Draining && history != []
      modifies this`statusInvalidateCh, this`statusSnapshot, this`worker, this`failed
      ensures CanRun(old(St()), events) && St() == Exec(old(St()), events)
      ensures worker == Idle && !statusInvalidateCh
      ensures statusSnapshot == Rebuilt(history[|history| - 1], plan, |history| - 1, fault, old(statusSnapshot))
    {
      events := DrainRun(St());
      while statusInvalidateCh
        invariant St() == old(St()).(token := statusInvalidateCh)
        decreases statusInvalidateCh
      {
        statusInvalidateCh := false;
      }
      worker := Ready;
      ghost var rebuild := RebuildStatusPageSnapshot(fault);
      Join(old(St()), events, rebuild);
      events := events + rebuild;
    }
  }

  /** Draining the channel, as steps of the machine. */
  lemma DrainRun(s: State) returns (events: seq<Event>)
    requires s.worker == Draining
    ensures CanRun(s, events) && Exec(s, events) == s.(token := false, worker := Ready)
  {
    events := Prepend(s.(token := false), Drain, []);
    if s.token { events := Prepend(s, Drain, events); }
  }
}
