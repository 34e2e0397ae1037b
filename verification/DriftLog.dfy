/**
  Drift detection.  Any number of inspection calls run at once; each enters through the
  in-flight guard, lists the enabled rules of its host and, rule by rule, evaluates, reads the
  previous status, upserts the new one and appends an incident and an alert.  The read of the
  previous status may fail, its error is discarded and the item counts as unknown.  Every access
  to the guard or to a table is one atomic step.
*/
module DriftLog {

  datatype Key = Key(host: int, kind: string, target: string)
  datatype Status = Ok | Drift
  datatype IncidentKind = Detected | Resolved
  datatype Incident = Incident(key: Key, kind: IncidentKind)
  datatype Alert = Alert(key: Key, acknowledged: bool)

  datatype Pc =
    | Calling      // before LoadOrStore
    | Scraping     // guard held, system metrics being read
    | Looping      // top of the rule loop
    | Evaluated    // the status of the first rule is known
    | HavePrev     // its previous status has been read
    | Upserted     // its row has been written
    | Alerting     // its incident has been written, the alert not yet
    | Leaving      // deferred calls left to run
    | Returned

  /** The status of the rule has been written, perhaps not yet all that follows from it. */
  predicate Writing(pc: Pc) {
    pc.Upserted? || pc.Alerting?
  }

  /** At work on a rule. */
  predicate Working(pc: Pc) {
    pc.Evaluated? || pc.HavePrev? || Writing(pc)
  }

  predicate InLoop(pc: Pc) {
    pc.Looping? || Working(pc)
  }

  /**
    One call of InspectHost with its locals; `rules` are the rules still to do.  The last three only
    record the past: whether its last read of a status failed although the item was in drift, the
    rules it read, and what was in drift on its host at that moment.
  */
  datatype Call = Call(pc: Pc, host: int, rules: seq<Key>, drift: bool, status: Status, wasDrift: bool,
                       lost: bool, listed: seq<Key>, drifting: set<Key>)

  datatype State = State(
    guard: bool,                // false only to show what would happen without LoadOrStore
    items: map<Key, Status>,    // actual_items
    incidents: seq<Incident>,
    alerts: seq<Alert>,
    inFlight: set<int>,
    calls: seq<Call>,
    broken: set<Key>)           // record only: items reported on after such a lost read

  datatype Event =
    | Start(host: int)
    | LoadOrStore(i: nat)
    | ScrapeFails(i: nat)
    | ListRules(i: nat, rules: seq<Key>)
    | Evaluate(i: nat, outcome: Status)
    | ReadPrev(i: nat)
    | ReadBlind(i: nat)         // the same, but the query fails and its error is discarded
    | Upsert(i: nat)
    | Record(i: nat)
    | CreateAlert(i: nat)
    | EndLoop(i: nat)
    | Expire(i: nat)            // the deadline passed during the loop
    | Delete(i: nat)
    | UserAck(alert: nat)

  predicate IsDrift(items: map<Key, Status>, k: Key) {
    k in items && items[k] == Drift
  }

  function DriftingOn(items: map<Key, Status>, host: int): set<Key> {
    set k | k in items && items[k] == Drift && k.host == host
  }

  function AckHost(alerts: seq<Alert>, host: int): seq<Alert> {
    seq(|alerts|, j requires 0 <= j < |alerts| =>
      if alerts[j].key.host == host then alerts[j].(acknowledged := true) else alerts[j])
  }

  predicate At(s: State, i: nat, pc: Pc) {
    i < |s.calls| && s.calls[i].pc == pc
  }

  predicate Enabled(s: State, e: Event) {
    match e
    case Start(_) => true
    case LoadOrStore(i) => At(s, i, Calling)
    case ScrapeFails(i) => At(s, i, Scraping)
    case ListRules(i, rules) => At(s, i, Scraping) && forall k | k in rules :: k.host == s.calls[i].host
    case Evaluate(i, _) => At(s, i, Looping) && s.calls[i].rules != []
    case ReadPrev(i) => At(s, i, Evaluated) && s.calls[i].rules != []
    case ReadBlind(i) => At(s, i, Evaluated) && s.calls[i].rules != []
    case Upsert(i) => At(s, i, HavePrev) && s.calls[i].rules != []
    case Record(i) => At(s, i, Upserted) && s.calls[i].rules != []
    case CreateAlert(i) => At(s, i, Alerting) && s.calls[i].rules != []
    case EndLoop(i) => At(s, i, Looping) && s.calls[i].rules == []
    case Expire(i) => At(s, i, Looping) && s.calls[i].rules == []
    case Delete(i) => At(s, i, Leaving)
    case UserAck(a) => a < |s.alerts|
  }

  function Set(s: State, i: nat, c: Call): State
    requires i < |s.calls|
  {
    s.(calls := s.calls[i := c])
  }

  function DoLoadOrStore(s: State, i: nat): State
    requires At(s, i, Calling)
  {
    var c := s.calls[i];
    if s.guard && c.host in s.inFlight then Set(s, i, c.(pc := Returned))
    else Set(s, i, c.(pc := Scraping)).(inFlight := s.inFlight + {c.host})
  }

  function DoUpsert(s: State, i: nat): State
    requires At(s, i, HavePrev) && s.calls[i].rules != []
  {
    var c := s.calls[i];
    Set(s, i, c.(pc := Upserted)).(items := s.items[c.rules[0] := c.status])
  }

  /** The incident a change of status calls for, if any. */
  function Transition(c: Call): seq<Incident>
    requires c.rules != []
  {
    if c.status == Drift && !c.wasDrift then [Incident(c.rules[0], Detected)]
    else if c.status == Ok && c.wasDrift then [Incident(c.rules[0], Resolved)]
    else []
  }

  function DoRecord(s: State, i: nat): State
    requires At(s, i, Upserted) && s.calls[i].rules != []
  {
    var c := s.calls[i];
    var next :=
      if c.status == Drift && !c.wasDrift then c.(pc := Alerting)
      else c.(pc := Looping, rules := c.rules[1..]);
    Set(s, i, next).(
      incidents := s.incidents + Transition(c),
      broken := if c.lost then s.broken + {c.rules[0]} else s.broken)
  }

  function DoCreateAlert(s: State, i: nat): State
    requires At(s, i, Alerting) && s.calls[i].rules != []
  {
    var c := s.calls[i];
    Set(s, i, c.(pc := Looping, rules := c.rules[1..])).(alerts := s.alerts + [Alert(c.rules[0], false)])
  }

  function Step(s: State, e: Event): State
    requires Enabled(s, e)
  {
    match e
    case Start(host) => s.(calls := s.calls + [Call(Calling, host, [], false, Ok, false, false, [], {})])
    case LoadOrStore(i) => DoLoadOrStore(s, i)
    case ScrapeFails(i) => Set(s, i, s.calls[i].(pc := Leaving))
    case ListRules(i, rules) =>
      var c := s.calls[i];
      var drifting := DriftingOn(s.items, c.host);
      Set(s, i, c.(pc := Looping, rules := rules, drift := false, listed := rules, drifting := drifting))
    case Evaluate(i, outcome) =>
      Set(s, i, s.calls[i].(pc := Evaluated, status := outcome, drift := s.calls[i].drift || outcome == Drift))
    case ReadPrev(i) =>
      Set(s, i, s.calls[i].(pc := HavePrev, wasDrift := IsDrift(s.items, s.calls[i].rules[0]), lost := false))
    case ReadBlind(i) =>
      Set(s, i, s.calls[i].(pc := HavePrev, wasDrift := false, lost := IsDrift(s.items, s.calls[i].rules[0])))
    case Upsert(i) => DoUpsert(s, i)
    case Record(i) => DoRecord(s, i)
    case CreateAlert(i) => DoCreateAlert(s, i)
    case EndLoop(i) =>
      var c := s.calls[i];
      Set(s, i, c.(pc := Leaving)).(alerts := if c.drift then s.alerts else AckHost(s.alerts, c.host))
    case Expire(i) => Set(s, i, s.calls[i].(pc := Leaving))
    case Delete(i) => Set(s, i, s.calls[i].(pc := Returned)).(inFlight := s.inFlight - {s.calls[i].host})
    case UserAck(a) => s.(alerts := s.alerts[a := s.alerts[a].(acknowledged := true)])
  }

  predicate CanRun(s: State, events: seq<Event>)
    decreases |events|
  {
    events == [] || (Enabled(s, events[0]) && CanRun(Step(s, events[0]), events[1..]))
  }

  function Exec(s: State, events: seq<Event>): State
    requires CanRun(s, events)
    decreases |events|
  {
    if events == [] then s else Exec(Step(s, events[0]), events[1..])
  }

  /** An empty database and no call in progress. */
  ghost predicate Init(s: State) {
    s.items == map[] && s.incidents == [] && s.alerts == [] && s.inFlight == {} && s.calls == []
    && s.broken == {}
  }

  // ---------------------------------------------------------------- mutual exclusion

  /** Between LoadOrStore and Delete. */
  predicate Active(c: Call) {
    c.pc != Calling && c.pc != Returned
  }

  ghost predicate Exclusive(s: State) {
    && (forall i, j | 0 <= i < |s.calls| && 0 <= j < |s.calls| && Active(s.calls[i]) && Active(s.calls[j])
          && s.calls[i].host == s.calls[j].host :: i == j)
    && (forall i | 0 <= i < |s.calls| && Active(s.calls[i]) :: s.calls[i].host in s.inFlight)
    && (forall h | h in s.inFlight :: exists i :: 0 <= i < |s.calls| && Active(s.calls[i]) && s.calls[i].host == h)
  }

  // ---------------------------------------------------------------- the incident log

  /** The incidents of one item, oldest first. */
  function Kinds(log: seq<Incident>, k: Key): seq<IncidentKind> {
    if log == [] then []
    else
      var last := log[|log| - 1];
      Kinds(log[..|log| - 1], k) + (if last.key == k then [last.kind] else [])
  }

  ghost predicate Alternates(kinds: seq<IncidentKind>) {
    forall n | 0 <= n < |kinds| :: Flips(kinds, n)
  }

  /** The first is a detection, and every other differs from the one before it. */
  predicate Flips(kinds: seq<IncidentKind>, n: nat)
    requires n < |kinds|
  {
    if n == 0 then kinds[n] == Detected else kinds[n] != kinds[n - 1]
  }

  predicate Open(kinds: seq<IncidentKind>) {
    kinds != [] && kinds[|kinds| - 1] == Detected
  }

  function Detections(kinds: seq<IncidentKind>): nat {
    if kinds == [] then 0
    else Detections(kinds[..|kinds| - 1]) + (if kinds[|kinds| - 1] == Detected then 1 else 0)
  }

  function AlertCount(alerts: seq<Alert>, k: Key): nat {
    if alerts == [] then 0
    else AlertCount(alerts[..|alerts| - 1], k) + (if alerts[|alerts| - 1].key == k then 1 else 0)
  }

  /** Call `i` is at `pc` and works on the rule of `k`. */
  predicate On(s: State, i: nat, pc: Pc, k: Key) {
    At(s, i, pc) && s.calls[i].rules != [] && s.calls[i].rules[0] == k
  }

  /** Some call has written the new status of `k` but not yet the incident. */
  ghost predicate Between(s: State, pc: Pc, k: Key) {
    exists i: nat :: On(s, i, pc, k)
  }

  /** Was the item in drift when the call read its status, or tried to? */
  predicate WasReally(c: Call) {
    c.wasDrift || c.lost
  }

  ghost predicate CallSound(s: State, c: Call) {
    && (forall k | k in c.rules :: k.host == c.host)
    && (Working(c.pc) ==> c.rules != [])
    && (c.lost ==> !c.wasDrift)
    && (c.pc == HavePrev ==> WasReally(c) == IsDrift(s.items, c.rules[0]))
    && (c.pc == Upserted || c.pc == Alerting ==> c.rules[0] in s.items && s.items[c.rules[0]] == c.status)
    && (c.pc == Alerting ==> c.status == Drift)
  }

  /**
    The log of an item against its status: it alternates and ends as the status says - or, if a
    lost read has spoilt it, two neighbours are equal or it ends with a detection for an item in order.
  */
  ghost predicate Faithful(kinds: seq<IncidentKind>, drift: bool, broken: bool) {
    if broken then !Alternates(kinds) || (Open(kinds) && !drift)
    else Alternates(kinds) && Open(kinds) == drift
  }

  ghost predicate LogSound(s: State, k: Key) {
    var kinds := Kinds(s.incidents, k);
    && (!Between(s, Upserted, k) ==> Faithful(kinds, IsDrift(s.items, k), k in s.broken))
    && (forall i: nat | On(s, i, Upserted, k) :: Faithful(kinds, WasReally(s.calls[i]), k in s.broken))
    && Detections(kinds) == AlertCount(s.alerts, k) + (if Between(s, Alerting, k) then 1 else 0)
  }

  ghost predicate Inv(s: State) {
    && s.guard
    && Exclusive(s)
    && (forall i | 0 <= i < |s.calls| :: CallSound(s, s.calls[i]))
    && (forall k :: LogSound(s, k))
  }

  /** Steps that change neither the guard nor who is past it. */
  lemma ExclusiveSame(s: State, t: State)
    requires Exclusive(s) && t.inFlight == s.inFlight && |s.calls| <= |t.calls|
    requires forall i | 0 <= i < |s.calls| ::
        t.calls[i].host == s.calls[i].host && (Active(t.calls[i]) == Active(s.calls[i]))
    requires forall i | |s.calls| <= i < |t.calls| :: !Active(t.calls[i])
    ensures Exclusive(t)
  {
    forall h | h in t.inFlight
      ensures exists i :: 0 <= i < |t.calls| && Active(t.calls[i]) && t.calls[i].host == h
    {
      var i :| 0 <= i < |s.calls| && Active(s.calls[i]) && s.calls[i].host == h;
      assert Active(t.calls[i]);
    }
  }

  lemma EnterExclusive(s: State, i: nat)
    requires s.guard && Exclusive(s) && At(s, i, Calling)
    ensures Exclusive(DoLoadOrStore(s, i))
  {
    var t := DoLoadOrStore(s, i);
    var host := s.calls[i].host;
    if host in s.inFlight {
      ExclusiveSame(s, t);
    } else {
      forall h | h in t.inFlight
        ensures exists j :: 0 <= j < |t.calls| && Active(t.calls[j]) && t.calls[j].host == h
      {
        if h == host {
          assert Active(t.calls[i]);
        } else {
          var j :| 0 <= j < |s.calls| && Active(s.calls[j]) && s.calls[j].host == h;
          assert Active(t.calls[j]);
        }
      }
    }
  }

  lemma LeaveExclusive(s: State, i: nat)
    requires s.guard && Exclusive(s) && Enabled(s, Delete(i))
    ensures Exclusive(Step(s, Delete(i)))
  {
    var t := Step(s, Delete(i));
    forall h | h in t.inFlight
      ensures exists j :: 0 <= j < |t.calls| && Active(t.calls[j]) && t.calls[j].host == h
    {
      var j :| 0 <= j < |s.calls| && Active(s.calls[j]) && s.calls[j].host == h;
      assert j != i;
      assert Active(t.calls[j]);
    }
  }

  /** A step of a call changes no other call. */
  lemma OnlyOwn(s: State, e: Event)
    requires Enabled(s, e) && !e.Start? && !e.UserAck?
    ensures e.i < |s.calls| == |Step(s, e).calls| && Step(s, e).calls == s.calls[e.i := Step(s, e).calls[e.i]]
  {}

  /** Only LoadOrStore and Delete change who is past the guard. */
  lemma SamePassage(s: State, e: Event)
    requires Enabled(s, e) && !e.LoadOrStore? && !e.Delete?
    ensures var t := Step(s, e);
      && t.inFlight == s.inFlight && |s.calls| <= |t.calls|
      && (forall i | 0 <= i < |s.calls| ::
          t.calls[i].host == s.calls[i].host && (Active(t.calls[i]) == Active(s.calls[i])))
      && (forall i | |s.calls| <= i < |t.calls| :: !Active(t.calls[i]))
  {
    SameInFlight(s, e);
    if !e.Start? && !e.UserAck? {
      OnlyOwn(s, e);
      SamePassageOwn(s, e);
    }
  }

  lemma SamePassageOwn(s: State, e: Event)
    requires Enabled(s, e) && !e.Start? && !e.UserAck? && !e.LoadOrStore? && !e.Delete?
    ensures Step(s, e).calls[e.i].host == s.calls[e.i].host
    ensures Active(Step(s, e).calls[e.i]) && Active(s.calls[e.i])
  {
    if e.Upsert? || e.Record? || e.CreateAlert? { WriterPassage(s, e); }
  }

  lemma WriterPassage(s: State, e: Event)
    requires Enabled(s, e) && (e.Upsert? || e.Record? || e.CreateAlert?)
    ensures Step(s, e).calls[e.i].host == s.calls[e.i].host
    ensures Active(Step(s, e).calls[e.i]) && Active(s.calls[e.i])
  {}

  lemma SameInFlight(s: State, e: Event)
    requires Enabled(s, e) && !e.LoadOrStore? && !e.Delete?
    ensures Step(s, e).inFlight == s.inFlight
  {}

  lemma StepExclusive(s: State, e: Event)
    requires s.guard && Exclusive(s) && Enabled(s, e)
    ensures Exclusive(Step(s, e))
  {
    if e.LoadOrStore? {
      EnterExclusive(s, e.i);
    } else if e.Delete? {
      LeaveExclusive(s, e.i);
    } else {
      SamePassage(s, e);
      ExclusiveSame(s, Step(s, e));
    }
  }

  /** The row written by one call belongs to no other running call. */
  lemma UpsertCalls(s: State, i: nat, j: nat)
    requires Inv(s) && Enabled(s, Upsert(i)) && j < |s.calls|
    ensures CallSound(DoUpsert(s, i), DoUpsert(s, i).calls[j])
  {
    assert CallSound(s, s.calls[j]) && CallSound(s, s.calls[i]);
    if j != i && Active(s.calls[j]) && s.calls[j].rules != [] {
      assert s.calls[j].host != s.calls[i].host;
      assert s.calls[j].rules[0] in s.calls[j].rules && s.calls[i].rules[0] in s.calls[i].rules;
    }
  }

  lemma OtherCall(s: State, e: Event, j: nat)
    requires Enabled(s, e) && !e.Upsert? && j < |Step(s, e).calls| && (e.Start? || e.UserAck? || e.i != j)
    requires j < |s.calls| ==> CallSound(s, s.calls[j])
    ensures CallSound(Step(s, e), Step(s, e).calls[j])
  {
    assert j < |s.calls| ==> Step(s, e).calls[j] == s.calls[j];
  }

  lemma OwnCall(s: State, e: Event)
    requires Enabled(s, e) && !e.Start? && !e.UserAck? && !e.Upsert? && CallSound(s, s.calls[e.i])
    ensures CallSound(Step(s, e), Step(s, e).calls[e.i])
  {
    if e.Record? || e.CreateAlert? { ReportingCall(s, e); }
    else if e.ReadPrev? || e.ReadBlind? || e.Evaluate? { ReadingCall(s, e); }
    else { QuietCall(s, e); }
  }

  lemma ReportingCall(s: State, e: Event)
    requires Enabled(s, e) && (e.Record? || e.CreateAlert?) && CallSound(s, s.calls[e.i])
    ensures CallSound(Step(s, e), Step(s, e).calls[e.i])
  {
    assert Step(s, e).items == s.items;
  }

  lemma ReadingCall(s: State, e: Event)
    requires Enabled(s, e) && (e.ReadPrev? || e.ReadBlind? || e.Evaluate?) && CallSound(s, s.calls[e.i])
    ensures CallSound(Step(s, e), Step(s, e).calls[e.i])
  {
    assert Step(s, e).items == s.items;
  }

  /** Steps after which the call is at no rule. */
  lemma QuietCall(s: State, e: Event)
    requires e.LoadOrStore? || e.ScrapeFails? || e.ListRules? || e.EndLoop? || e.Expire? || e.Delete?
    requires Enabled(s, e) && CallSound(s, s.calls[e.i])
    ensures CallSound(Step(s, e), Step(s, e).calls[e.i])
  {
    assert Step(s, e).items == s.items && !Working(Step(s, e).calls[e.i].pc);
  }

  lemma StepCalls(s: State, e: Event)
    requires Inv(s) && Enabled(s, e)
    ensures forall j | 0 <= j < |Step(s, e).calls| :: CallSound(Step(s, e), Step(s, e).calls[j])
  {
    forall j | 0 <= j < |Step(s, e).calls| ensures CallSound(Step(s, e), Step(s, e).calls[j]) {
      if e.Upsert? { UpsertCalls(s, e.i, j); }
      else if e.Start? || e.UserAck? || e.i != j { OtherCall(s, e, j); }
      else { OwnCall(s, e); }
    }
  }

  lemma KindsAppend(log: seq<Incident>, e: Incident, k: Key)
    ensures Kinds(log + [e], k) == Kinds(log, k) + (if e.key == k then [e.kind] else [])
  {
    assert (log + [e])[..|log|] == log;
  }

  lemma DetectionsAppend(kinds: seq<IncidentKind>, kind: IncidentKind)
    ensures Detections(kinds + [kind]) == Detections(kinds) + (if kind == Detected then 1 else 0)
  {
    assert (kinds + [kind])[..|kinds|] == kinds;
  }

  lemma {:induction false} SameKeysSameCount(a: seq<Alert>, b: seq<Alert>, k: Key)
    requires |a| == |b| && forall j | 0 <= j < |a| :: a[j].key == b[j].key
    ensures AlertCount(a, k) == AlertCount(b, k)
  {
    if a != [] { SameKeysSameCount(a[..|a| - 1], b[..|b| - 1], k); }
  }

  /** A step by call `i` that touches no table of `k` and does not move at or from `pc` on `k`. */
  lemma BetweenSame(s: State, t: State, pc: Pc, k: Key)
    requires |s.calls| <= |t.calls|
    requires forall j: nat | j < |t.calls| :: On(t, j, pc, k) == On(s, j, pc, k)
    ensures Between(t, pc, k) == Between(s, pc, k)
  {
    if Between(s, pc, k) {
      var j: nat :| On(s, j, pc, k);
      assert On(t, j, pc, k);
    }
  }

  /** No call but `i` has started to write about `k`. */
  ghost predicate Sole(s: State, i: nat, k: Key) {
    forall j: nat | On(s, j, Upserted, k) || On(s, j, Alerting, k) :: j == i
  }

  /** A host has one active call, and `k` names its host. */
  lemma ActiveIsSole(s: State, i: nat, k: Key)
    requires Exclusive(s) && i < |s.calls| && Active(s.calls[i]) && s.calls[i].host == k.host
    requires forall i | 0 <= i < |s.calls| :: CallSound(s, s.calls[i])
    ensures Sole(s, i, k)
  {
    forall j: nat | On(s, j, Upserted, k) || On(s, j, Alerting, k) ensures j == i {
      assert CallSound(s, s.calls[j]) && k in s.calls[j].rules;
    }
  }

  lemma UpsertLog(s: State, i: nat, k: Key)
    requires At(s, i, HavePrev) && s.calls[i].rules != []
    requires LogSound(s, k) && CallSound(s, s.calls[i]) && (s.calls[i].rules[0] == k ==> Sole(s, i, k))
    ensures LogSound(DoUpsert(s, i), k)
  {
    var t := DoUpsert(s, i);
    BetweenSame(s, t, Alerting, k);
    if s.calls[i].rules[0] == k {
      assert On(t, i, Upserted, k);
      assert forall j: nat | j != i :: On(t, j, Upserted, k) == On(s, j, Upserted, k);
      assert !Between(s, Upserted, k);
    } else {
      BetweenSame(s, t, Upserted, k);
      assert forall j: nat | On(t, j, Upserted, k) :: On(s, j, Upserted, k);
    }
  }

  lemma TransitionKinds(log: seq<Incident>, c: Call, k: Key)
    requires c.rules != []
    ensures Kinds(log + Transition(c), k) ==
      if c.rules[0] != k then Kinds(log, k)
      else if c.status == Drift && !c.wasDrift then Kinds(log, k) + [Detected]
      else if c.status == Ok && c.wasDrift then Kinds(log, k) + [Resolved]
      else Kinds(log, k)
  {
    if Transition(c) == [] {
      assert log + Transition(c) == log;
    } else {
      var e := Transition(c)[0];
      assert Transition(c) == [e];
      KindsAppend(log, e, k);
    }
  }

  lemma AppendAlternates(kinds: seq<IncidentKind>, kind: IncidentKind)
    ensures Alternates(kinds + [kind]) <==> Alternates(kinds) && Open(kinds) == (kind == Resolved)
  {
    var next := kinds + [kind];
    forall n | 0 <= n < |kinds| ensures Flips(next, n) == Flips(kinds, n) {}
    assert Flips(next, |kinds|) <==> Open(kinds) == (kind == Resolved);
    if Alternates(next) {
      forall n | 0 <= n < |kinds| ensures Flips(kinds, n) { assert Flips(next, n); }
    }
  }

  /** What is recorded keeps a faithful log faithful to the new status, and spoils it after a lost read. */
  lemma TransitionFaithful(kinds: seq<IncidentKind>, c: Call, broken: bool) returns (next: seq<IncidentKind>)
    requires Faithful(kinds, WasReally(c), broken) && (c.lost ==> !c.wasDrift)
    ensures next ==
      if c.status == Drift && !c.wasDrift then kinds + [Detected]
      else if c.status == Ok && c.wasDrift then kinds + [Resolved]
      else kinds
    ensures Faithful(next, c.status == Drift, broken || c.lost)
    ensures Detections(next) == Detections(kinds) + (if c.status == Drift && !c.wasDrift then 1 else 0)
  {
    next := kinds;
    if c.status == Drift && !c.wasDrift {
      DetectionsAppend(kinds, Detected);
      AppendAlternates(kinds, Detected);
      next := kinds + [Detected];
    } else if c.status == Ok && c.wasDrift {
      DetectionsAppend(kinds, Resolved);
      AppendAlternates(kinds, Resolved);
      next := kinds + [Resolved];
    }
  }

  lemma RecordFrame(s: State, i: nat, k: Key)
    requires On(s, i, Upserted, k) && Sole(s, i, k)
    ensures var t := DoRecord(s, i);
      && !Between(t, Upserted, k) && !Between(s, Alerting, k)
      && (Between(t, Alerting, k) <==> s.calls[i].status == Drift && !s.calls[i].wasDrift)
  {
    var t := DoRecord(s, i);
    assert forall j: nat | j != i :: On(t, j, Upserted, k) == On(s, j, Upserted, k);
    assert forall j: nat | j != i :: On(t, j, Alerting, k) == On(s, j, Alerting, k);
    if s.calls[i].status == Drift && !s.calls[i].wasDrift {
      assert On(t, i, Alerting, k);
    }
  }

  /** The step that may append an incident, for the item it is about. */
  lemma RecordOwnLog(s: State, i: nat, k: Key)
    requires On(s, i, Upserted, k)
    requires LogSound(s, k) && CallSound(s, s.calls[i]) && Sole(s, i, k)
    ensures LogSound(DoRecord(s, i), k)
  {
    var c := s.calls[i];
    RecordFrame(s, i, k);
    TransitionKinds(s.incidents, c, k);
    var next := TransitionFaithful(Kinds(s.incidents, k), c, k in s.broken);
    assert Kinds(DoRecord(s, i).incidents, k) == next;
    assert forall j: nat :: !On(DoRecord(s, i), j, Upserted, k);
  }

  lemma RecordOtherLog(s: State, i: nat, k: Key)
    requires At(s, i, Upserted) && s.calls[i].rules != [] && k != s.calls[i].rules[0]
    requires LogSound(s, k)
    ensures LogSound(DoRecord(s, i), k)
  {
    var t := DoRecord(s, i);
    TransitionKinds(s.incidents, s.calls[i], k);
    OtherFrame(s, i, k);
    BetweenSame(s, t, Upserted, k);
    BetweenSame(s, t, Alerting, k);
  }

  lemma OtherFrame(s: State, i: nat, k: Key)
    requires At(s, i, Upserted) && s.calls[i].rules != [] && k != s.calls[i].rules[0]
    ensures forall j: nat :: On(DoRecord(s, i), j, Upserted, k) == On(s, j, Upserted, k)
    ensures forall j: nat :: On(DoRecord(s, i), j, Alerting, k) == On(s, j, Alerting, k)
    ensures forall j: nat | On(s, j, Upserted, k) :: DoRecord(s, i).calls[j] == s.calls[j]
  {}

  lemma CreateAlertLog(s: State, i: nat, k: Key)
    requires At(s, i, Alerting) && s.calls[i].rules != []
    requires LogSound(s, k) && (s.calls[i].rules[0] == k ==> Sole(s, i, k))
    ensures LogSound(DoCreateAlert(s, i), k)
  {
    var t := DoCreateAlert(s, i);
    var key := s.calls[i].rules[0];
    assert (s.alerts + [Alert(key, false)])[..|s.alerts|] == s.alerts;
    BetweenSame(s, t, Upserted, k);
    assert forall j: nat | On(t, j, Upserted, k) :: On(s, j, Upserted, k);
    if key == k {
      assert On(s, i, Alerting, k);
      assert forall j: nat | On(t, j, Alerting, k) :: j != i && On(s, j, Alerting, k);
    } else {
      BetweenSame(s, t, Alerting, k);
    }
  }

  lemma QuietTables(s: State, e: Event)
    requires Enabled(s, e) && !e.Upsert? && !e.Record? && !e.CreateAlert?
    ensures var t := Step(s, e);
      && t.items == s.items && t.incidents == s.incidents && t.broken == s.broken
      && |t.alerts| == |s.alerts| && (forall j | 0 <= j < |s.alerts| :: t.alerts[j].key == s.alerts[j].key)
  {}

  lemma QuietOwn(s: State, e: Event)
    requires Enabled(s, e) && !e.Upsert? && !e.Record? && !e.CreateAlert? && !e.Start? && !e.UserAck?
    ensures !Writing(Step(s, e).calls[e.i].pc) && !Writing(s.calls[e.i].pc)
  {}

  /** Steps that touch neither the items nor the incidents nor the number of alerts. */
  lemma QuietFrame(s: State, e: Event)
    requires Enabled(s, e) && !e.Upsert? && !e.Record? && !e.CreateAlert?
    ensures var t := Step(s, e);
      && t.items == s.items && t.incidents == s.incidents && t.broken == s.broken && |s.calls| <= |t.calls|
      && |t.alerts| == |s.alerts| && (forall j | 0 <= j < |s.alerts| :: t.alerts[j].key == s.alerts[j].key)
      && (forall j | 0 <= j < |s.calls| :: t.calls[j] == s.calls[j]
            || (!Writing(t.calls[j].pc) && !Writing(s.calls[j].pc)))
      && (forall j | |s.calls| <= j < |t.calls| :: t.calls[j].pc == Calling)
  {
    QuietTables(s, e);
    if !e.Start? && !e.UserAck? {
      OnlyOwn(s, e);
      QuietOwn(s, e);
    }
  }

  lemma QuietLog(s: State, t: State, k: Key)
    requires LogSound(s, k)
    requires t.items == s.items && t.incidents == s.incidents && t.broken == s.broken && |s.calls| <= |t.calls|
    requires |t.alerts| == |s.alerts| && (forall j | 0 <= j < |s.alerts| :: t.alerts[j].key == s.alerts[j].key)
    requires forall j | 0 <= j < |s.calls| :: t.calls[j] == s.calls[j]
               || (!Writing(t.calls[j].pc) && !Writing(s.calls[j].pc))
    requires forall j | |s.calls| <= j < |t.calls| :: t.calls[j].pc == Calling
    ensures LogSound(t, k)
  {
    SameKeysSameCount(s.alerts, t.alerts, k);
    BetweenSame(s, t, Upserted, k);
    BetweenSame(s, t, Alerting, k);
    assert forall j: nat | On(t, j, Upserted, k) :: On(s, j, Upserted, k);
  }

  lemma StepLog(s: State, e: Event, k: Key)
    requires Inv(s) && Enabled(s, e)
    ensures LogSound(Step(s, e), k)
  {
    assert LogSound(s, k);
    if e.Upsert? || e.Record? || e.CreateAlert? {
      assert CallSound(s, s.calls[e.i]) && s.calls[e.i].rules[0] in s.calls[e.i].rules;
      if s.calls[e.i].rules[0] == k { ActiveIsSole(s, e.i, k); }
    }
    if e.Upsert? {
      UpsertLog(s, e.i, k);
    } else if e.Record? {
      if k == s.calls[e.i].rules[0] { RecordOwnLog(s, e.i, k); } else { RecordOtherLog(s, e.i, k); }
    } else if e.CreateAlert? {
      CreateAlertLog(s, e.i, k);
    } else {
      QuietFrame(s, e);
      QuietLog(s, Step(s, e), k);
    }
  }

  lemma StepInv(s: State, e: Event)
    requires Inv(s) && Enabled(s, e)
    ensures Inv(Step(s, e))
  {
    StepExclusive(s, e);
    StepCalls(s, e);
    forall k ensures LogSound(Step(s, e), k) { StepLog(s, e, k); }
  }

  lemma {:induction false} RunInv(s: State, events: seq<Event>)
    requires Inv(s) && CanRun(s, events)
    ensures Inv(Exec(s, events))
    decreases |events|
  {
    if events != [] {
      StepInv(s, events[0]);
      RunInv(Step(s, events[0]), events[1..]);
    }
  }

  // ---------------------------------------------------------------- main results

  lemma InitInv(s: State)
    requires Init(s) && s.guard
    ensures Inv(s)
  {}

  /** At most one inspection of a host is between LoadOrStore and Delete. */
  lemma OneInspectionPerHost(s0: State, events: seq<Event>, i: nat, j: nat)
    requires Init(s0) && s0.guard && CanRun(s0, events)
    requires i < |Exec(s0, events).calls| && j < |Exec(s0, events).calls|
    requires Active(Exec(s0, events).calls[i]) && Active(Exec(s0, events).calls[j])
    requires Exec(s0, events).calls[i].host == Exec(s0, events).calls[j].host
    ensures i == j
  {
    InitInv(s0);
    RunInv(s0, events);
  }

  predicate Sighted(s: State) {
    s.broken == {} && forall i | 0 <= i < |s.calls| :: !s.calls[i].lost
  }

  lemma SightedStep(s: State, e: Event)
    requires Sighted(s) && Enabled(s, e) && !e.ReadBlind?
    ensures Sighted(Step(s, e))
  {
    if !e.Start? && !e.UserAck? { OnlyOwn(s, e); }
  }

  /** As long as no read of a status fails, no item is spoilt. */
  lemma {:induction false} NothingLostNothingBroken(s: State, events: seq<Event>)
    requires Sighted(s) && CanRun(s, events) && forall e | e in events :: !e.ReadBlind?
    ensures Exec(s, events).broken == {}
    decreases |events|
  {
    if events != [] {
      SightedStep(s, events[0]);
      NothingLostNothingBroken(Step(s, events[0]), events[1..]);
    }
  }

  /**
    The incidents of an item alternate, starting with a detection, and end as its stored status
    says exactly if no lost read of its status has been followed by a report - in every state of
    every run but the moment between writing an item and its incident.  Except between an incident
    and its alert there are as many alerts as detections, lost reads or not.  Runs in which no read
    of a status fails spoil nothing.
  */
  lemma IncidentsAlternate(s0: State, events: seq<Event>, k: Key)
    requires Init(s0) && s0.guard && CanRun(s0, events)
    ensures var t := Exec(s0, events);
      var kinds := Kinds(t.incidents, k);
      && (!Between(t, Upserted, k) ==>
            (Alternates(kinds) && (Open(kinds) <==> IsDrift(t.items, k)) <==> k !in t.broken))
      && (k !in t.broken ==> Alternates(kinds))
      && ((forall e | e in events :: !e.ReadBlind?) ==> t.broken == {})
      && (!Between(t, Alerting, k) ==> Detections(kinds) == AlertCount(t.alerts, k))
  {
    InitInv(s0);
    RunInv(s0, events);
    if forall e | e in events :: !e.ReadBlind? { NothingLostNothingBroken(s0, events); }
    var t := Exec(s0, events);
    assert LogSound(t, k);
    if Between(t, Upserted, k) {
      var i: nat :| On(t, i, Upserted, k);
      assert Faithful(Kinds(t.incidents, k), WasReally(t.calls[i]), k in t.broken);
    }
  }

  lemma Prepend(s: State, e: Event, rest: seq<Event>) returns (events: seq<Event>)
    requires Enabled(s, e) && CanRun(Step(s, e), rest)
    ensures events == [e] + rest && CanRun(s, events) && Exec(s, events) == Exec(Step(s, e), rest)
  {
    events := [e] + rest;
    assert events[1..] == rest;
  }

  lemma Two(s: State, e1: Event, e2: Event) returns (events: seq<Event>)
    requires Enabled(s, e1) && Enabled(Step(s, e1), e2)
    ensures CanRun(s, events) && Exec(s, events) == Step(Step(s, e1), e2)
  {
    var t := Step(s, e1);
    events := Prepend(t, e2, []);
    events := Prepend(s, e1, events);
  }

  lemma {:induction false} Join(s: State, first: seq<Event>, second: seq<Event>)
    requires CanRun(s, first) && CanRun(Exec(s, first), second)
    ensures CanRun(s, first + second) && Exec(s, first + second) == Exec(Exec(s, first), second)
    decreases |first|
  {
    if first == [] {
      assert first + second == second;
    } else {
      Join(Step(s, first[0]), first[1..], second);
      assert (first + second)[1..] == first[1..] + second;
    }
  }

  /** Two calls side by side, both at `pc`, nothing written yet. */
  function TwoCalls(k: Key, pc: Pc, rules: seq<Key>, status: Status): State {
    var c := Call(pc, k.host, rules, status == Drift, status, false, false, if pc == Scraping then [] else [k], {});
    State(false, map[], [], [], {k.host}, [c, c], {})
  }

  lemma UnguardedEnter(k: Key) returns (events: seq<Event>)
    ensures var s0 := State(false, map[], [], [], {}, [], {});
      CanRun(s0, events) && Exec(s0, events) == TwoCalls(k, Scraping, [], Ok)
  {
    var s0 := State(false, map[], [], [], {}, [], {});
    var s2 := Step(Step(s0, Start(k.host)), Start(k.host));
    events := Prepend(Step(s2, LoadOrStore(0)), LoadOrStore(1), []);
    events := Prepend(s2, LoadOrStore(0), events);
    events := Prepend(Step(s0, Start(k.host)), Start(k.host), events);
    events := Prepend(s0, Start(k.host), events);
  }

  lemma UnguardedEvaluate(k: Key) returns (events: seq<Event>)
    ensures CanRun(TwoCalls(k, Scraping, [], Ok), events)
    ensures Exec(TwoCalls(k, Scraping, [], Ok), events) == TwoCalls(k, Evaluated, [k], Drift)
  {
    var s0 := TwoCalls(k, Scraping, [], Ok);
    var s2 := Step(Step(s0, ListRules(0, [k])), ListRules(1, [k]));
    assert DriftingOn(map[], k.host) == {};
    assert s2 == TwoCalls(k, Looping, [k], Ok);
    events := Prepend(Step(s2, Evaluate(0, Drift)), Evaluate(1, Drift), []);
    events := Prepend(s2, Evaluate(0, Drift), events);
    events := Prepend(Step(s0, ListRules(0, [k])), ListRules(1, [k]), events);
    events := Prepend(s0, ListRules(0, [k]), events);
  }

  lemma UnguardedUpsert(k: Key) returns (events: seq<Event>)
    ensures CanRun(TwoCalls(k, Evaluated, [k], Drift), events)
    ensures Exec(TwoCalls(k, Evaluated, [k], Drift), events)
        == TwoCalls(k, Upserted, [k], Drift).(items := map[k := Drift])
  {
    var s0 := TwoCalls(k, Evaluated, [k], Drift);
    var read := Two(s0, ReadPrev(0), ReadPrev(1));
    assert Exec(s0, read) == TwoCalls(k, HavePrev, [k], Drift);
    var write := Two(Exec(s0, read), Upsert(0), Upsert(1));
    Join(s0, read, write);
    events := read + write;
  }

  lemma UnguardedWrite(k: Key) returns (events: seq<Event>)
    ensures CanRun(TwoCalls(k, Evaluated, [k], Drift), events)
    ensures Exec(TwoCalls(k, Evaluated, [k], Drift), events).incidents == [Incident(k, Detected), Incident(k, Detected)]
  {
    var s0 := TwoCalls(k, Evaluated, [k], Drift);
    var first := UnguardedUpsert(k);
    var second := Two(Exec(s0, first), Record(0), Record(1));
    Join(s0, first, second);
    events := first + second;
  }

  /** Without the guard two overlapping inspections both see the old status and both report it. */
  lemma UnguardedCallsRepeat(k: Key) returns (s0: State, events: seq<Event>)
    ensures Init(s0) && !s0.guard && CanRun(s0, events)
    ensures Kinds(Exec(s0, events).incidents, k) == [Detected, Detected]
    ensures !Alternates(Kinds(Exec(s0, events).incidents, k))
  {
    s0 := State(false, map[], [], [], {}, [], {});
    var enter := UnguardedEnter(k);
    var evaluate := UnguardedEvaluate(k);
    var write := UnguardedWrite(k);
    Join(TwoCalls(k, Scraping, [], Ok), evaluate, write);
    Join(s0, enter, evaluate + write);
    events := enter + (evaluate + write);
    var kinds := Kinds(Exec(s0, events).incidents, k);
    assert Exec(s0, events).incidents == [Incident(k, Detected)] + [Incident(k, Detected)];
    assert [] + [Incident(k, Detected)] == [Incident(k, Detected)];
    KindsAppend([Incident(k, Detected)], Incident(k, Detected), k);
    KindsAppend([], Incident(k, Detected), k);
    assert kinds == [Detected, Detected] && !Flips(kinds, 1);
  }

  // ---------------------------------------------------------------- active alerts

  predicate HasActiveAlert(s: State, k: Key) {
    exists j :: 0 <= j < |s.alerts| && s.alerts[j].key == k && !s.alerts[j].acknowledged
  }

  /** Call `i` has found that `k` newly drifts and has not created the alert yet. */
  predicate Owes(s: State, i: nat, k: Key) {
    On(s, i, Alerting, k) || (On(s, i, Upserted, k) && !s.calls[i].wasDrift)
  }

  /**
    No alert of the item is acknowledged by hand, and no inspection of its host leaves out its
    rule while it is in drift - it would, were the rule disabled or deleted meanwhile.
  */
  predicate AttentiveStep(s: State, e: Event, k: Key)
    requires Enabled(s, e)
  {
    match e
    case UserAck(a) => s.alerts[a].key != k
    case ListRules(i, rules) => k.host == s.calls[i].host && IsDrift(s.items, k) ==> k in rules
    case _ => true
  }

  predicate Attentive(s: State, events: seq<Event>, k: Key)
    requires CanRun(s, events)
    decreases |events|
  {
    events == [] || (AttentiveStep(s, events[0], k) && Attentive(Step(s, events[0]), events[1..], k))
  }

  /** A call that works on a drifting rule knows it. */
  predicate Noticed(c: Call) {
    Working(c.pc) && c.status == Drift ==> c.drift
  }

  /** A call that has found no drift so far still has the item to do, if it is in drift. */
  predicate DriftAhead(s: State, c: Call, k: Key) {
    Noticed(c) && (InLoop(c.pc) && !c.drift && k.host == c.host && IsDrift(s.items, k) ==> k in c.rules)
  }

  ghost predicate Alarmed(s: State, k: Key) {
    IsDrift(s.items, k) ==> HasActiveAlert(s, k) || exists i: nat :: Owes(s, i, k)
  }

  ghost predicate AlertInv(s: State, k: Key) {
    (forall i | 0 <= i < |s.calls| :: DriftAhead(s, s.calls[i], k)) && Alarmed(s, k)
  }

  /** The part of the invariant that keeps calls from touching each other's rows. */
  ghost predicate Apart(s: State) {
    Exclusive(s) && forall i | 0 <= i < |s.calls| :: CallSound(s, s.calls[i])
  }

  /** A call of another host, or one that does not move, is not concerned by a step. */
  lemma StepsApart(s: State, e: Event, j: nat)
    requires Apart(s) && Enabled(s, e) && j < |s.calls| && (e.Start? || e.UserAck? || e.i != j)
    ensures Step(s, e).calls[j] == s.calls[j]
    ensures forall k: Key | Active(s.calls[j]) && k.host == s.calls[j].host ::
      IsDrift(Step(s, e).items, k) == IsDrift(s.items, k)
  {
    if e.Upsert? && Active(s.calls[j]) {
      assert CallSound(s, s.calls[e.i]) && s.calls[e.i].rules[0] in s.calls[e.i].rules;
      assert s.calls[j].host != s.calls[e.i].host;
    }
  }

  lemma UpsertAhead(s: State, i: nat, k: Key)
    requires Enabled(s, Upsert(i)) && DriftAhead(s, s.calls[i], k)
    ensures DriftAhead(DoUpsert(s, i), DoUpsert(s, i).calls[i], k)
  {
    assert k != s.calls[i].rules[0] ==> IsDrift(DoUpsert(s, i).items, k) == IsDrift(s.items, k);
  }

  lemma OwnAhead(s: State, e: Event, k: Key)
    requires Enabled(s, e) && !e.Start? && !e.UserAck? && !e.Upsert? && AttentiveStep(s, e, k)
    requires CallSound(s, s.calls[e.i]) && DriftAhead(s, s.calls[e.i], k)
    ensures DriftAhead(Step(s, e), Step(s, e).calls[e.i], k)
  {
    assert Step(s, e).items == s.items;
    if e.Record? || e.CreateAlert? { PopKeepsAhead(s, s.calls[e.i], k); }
  }

  lemma StepAhead(s: State, e: Event, j: nat, k: Key)
    requires Apart(s) && Enabled(s, e) && AttentiveStep(s, e, k) && j < |Step(s, e).calls|
    requires j < |s.calls| ==> DriftAhead(s, s.calls[j], k)
    ensures DriftAhead(Step(s, e), Step(s, e).calls[j], k)
  {
    if j < |s.calls| {
      assert CallSound(s, s.calls[j]);
      if e.Start? || e.UserAck? || e.i != j { StepsApart(s, e, j); }
      else if e.Upsert? { UpsertAhead(s, e.i, k); }
      else { OwnAhead(s, e, k); }
    }
  }

  /** A rule whose status was just stored as ok may be dropped from the rules still to do. */
  lemma PopKeepsAhead(s: State, c: Call, k: Key)
    requires DriftAhead(s, c, k) && CallSound(s, c) && Writing(c.pc)
    ensures !c.drift && k.host == c.host && IsDrift(s.items, k) ==> k in c.rules[1..]
  {}

  lemma KeepAlarm(s: State, t: State, k: Key)
    requires Alarmed(s, k) && (IsDrift(t.items, k) ==> IsDrift(s.items, k))
    requires s.alerts <= t.alerts
    requires forall i: nat | Owes(s, i, k) :: Owes(t, i, k) || HasActiveAlert(t, k)
    ensures Alarmed(t, k)
  {
    if IsDrift(t.items, k) {
      if HasActiveAlert(s, k) {
        var j :| 0 <= j < |s.alerts| && s.alerts[j].key == k && !s.alerts[j].acknowledged;
        assert t.alerts[j].key == k && !t.alerts[j].acknowledged;
      } else {
        var i: nat :| Owes(s, i, k);
        assert Owes(t, i, k) || HasActiveAlert(t, k);
      }
    }
  }

  lemma UpsertAlarm(s: State, i: nat, k: Key)
    requires At(s, i, HavePrev) && s.calls[i].rules != [] && CallSound(s, s.calls[i])
    requires Alarmed(s, k) && (s.calls[i].rules[0] == k ==> Sole(s, i, k))
    ensures Alarmed(DoUpsert(s, i), k)
  {
    var t := DoUpsert(s, i);
    assert forall j: nat | Owes(s, j, k) :: j != i && Owes(t, j, k);
    if s.calls[i].rules[0] == k && s.calls[i].status == Drift && !s.calls[i].wasDrift {
      assert Owes(t, i, k);
    } else {
      KeepAlarm(s, t, k);
    }
  }

  lemma RecordAlarm(s: State, i: nat, k: Key)
    requires At(s, i, Upserted) && s.calls[i].rules != [] && CallSound(s, s.calls[i]) && Alarmed(s, k)
    ensures Alarmed(DoRecord(s, i), k)
  {
    var t := DoRecord(s, i);
    if IsDrift(s.items, k) {
      forall j: nat | Owes(s, j, k) ensures Owes(t, j, k) {
        if j == i {
          assert s.calls[i].rules[0] == k && s.calls[i].status == Drift && t.calls[i].pc == Alerting;
        }
      }
    }
    if !IsDrift(t.items, k) {} else { KeepAlarm(s, t, k); }
  }

  lemma CreateAlertAlarm(s: State, i: nat, k: Key)
    requires At(s, i, Alerting) && s.calls[i].rules != [] && Alarmed(s, k)
    ensures Alarmed(DoCreateAlert(s, i), k)
  {
    var t := DoCreateAlert(s, i);
    assert t.alerts[|s.alerts|] == Alert(s.calls[i].rules[0], false);
    if s.calls[i].rules[0] == k {
      assert HasActiveAlert(t, k);
    } else {
      assert forall j: nat | Owes(s, j, k) :: j != i && Owes(t, j, k);
      KeepAlarm(s, t, k);
    }
  }

  lemma EndLoopAlarm(s: State, i: nat, k: Key)
    requires Enabled(s, EndLoop(i)) && DriftAhead(s, s.calls[i], k) && Alarmed(s, k)
    ensures Alarmed(Step(s, EndLoop(i)), k)
  {
    var t := Step(s, EndLoop(i));
    if IsDrift(s.items, k) {
      if HasActiveAlert(s, k) {
        var j :| 0 <= j < |s.alerts| && s.alerts[j].key == k && !s.alerts[j].acknowledged;
        assert t.alerts[j] == s.alerts[j];
      } else {
        var j: nat :| Owes(s, j, k);
        assert j != i && Owes(t, j, k);
      }
    }
  }

  lemma UserAckAlarm(s: State, a: nat, k: Key)
    requires a < |s.alerts| && s.alerts[a].key != k && Alarmed(s, k)
    ensures Alarmed(Step(s, UserAck(a)), k)
  {
    var t := Step(s, UserAck(a));
    if HasActiveAlert(s, k) {
      var j :| 0 <= j < |s.alerts| && s.alerts[j].key == k && !s.alerts[j].acknowledged;
      assert t.alerts[j] == s.alerts[j];
    } else if IsDrift(s.items, k) {
      var j: nat :| Owes(s, j, k);
      assert Owes(t, j, k);
    }
  }

  /** Steps that leave the tables alone. */
  lemma QuietAlarm(s: State, e: Event, k: Key)
    requires Enabled(s, e) && Alarmed(s, k)
    requires !e.Upsert? && !e.Record? && !e.CreateAlert? && !e.EndLoop? && !e.UserAck?
    ensures Alarmed(Step(s, e), k)
  {
    QuietFrame(s, e);
    assert Step(s, e).alerts == s.alerts;
    KeepAlarm(s, Step(s, e), k);
  }

  lemma StepAlarm(s: State, e: Event, k: Key)
    requires Inv(s) && AlertInv(s, k) && Enabled(s, e) && AttentiveStep(s, e, k)
    ensures Alarmed(Step(s, e), k)
  {
    if e.Upsert? {
      assert CallSound(s, s.calls[e.i]) && s.calls[e.i].rules[0] in s.calls[e.i].rules;
      if s.calls[e.i].rules[0] == k { ActiveIsSole(s, e.i, k); }
      UpsertAlarm(s, e.i, k);
    } else if e.Record? {
      assert CallSound(s, s.calls[e.i]);
      RecordAlarm(s, e.i, k);
    } else if e.CreateAlert? {
      CreateAlertAlarm(s, e.i, k);
    } else if e.EndLoop? {
      EndLoopAlarm(s, e.i, k);
    } else if e.UserAck? {
      UserAckAlarm(s, e.alert, k);
    } else {
      QuietAlarm(s, e, k);
    }
  }

  lemma StepAlertInv(s: State, e: Event, k: Key)
    requires Inv(s) && AlertInv(s, k) && Enabled(s, e) && AttentiveStep(s, e, k)
    ensures AlertInv(Step(s, e), k)
  {
    forall j | 0 <= j < |Step(s, e).calls| ensures DriftAhead(Step(s, e), Step(s, e).calls[j], k) {
      StepAhead(s, e, j, k);
    }
    StepAlarm(s, e, k);
  }

  lemma {:induction false} RunAlerts(s: State, events: seq<Event>, k: Key)
    requires Inv(s) && AlertInv(s, k) && CanRun(s, events) && Attentive(s, events, k)
    ensures Inv(Exec(s, events)) && AlertInv(Exec(s, events), k)
    decreases |events|
  {
    if events != [] {
      StepInv(s, events[0]);
      StepAlertInv(s, events[0], k);
      RunAlerts(Step(s, events[0]), events[1..], k);
    }
  }

  /**
    As long as its rule is not taken away while it is in drift and nobody acknowledges its alert
    by hand, an item in drift has an unacknowledged alert whenever its host is not being
    inspected - whatever happens to other items and hosts.
  */
  lemma DriftKeepsItsAlert(s0: State, events: seq<Event>, k: Key)
    requires Init(s0) && s0.guard && CanRun(s0, events) && Attentive(s0, events, k)
    requires IsDrift(Exec(s0, events).items, k) && k.host !in Exec(s0, events).inFlight
    ensures HasActiveAlert(Exec(s0, events), k)
  {
    InitInv(s0);
    RunAlerts(s0, events, k);
    var t := Exec(s0, events);
    forall i: nat ensures !Owes(t, i, k) { IdleHostOwesNothing(t, i, k); }
  }

  lemma IdleHostOwesNothing(s: State, i: nat, k: Key)
    requires Inv(s) && k.host !in s.inFlight
    ensures !Owes(s, i, k)
  {
    if i < |s.calls| && Active(s.calls[i]) { assert CallSound(s, s.calls[i]); }
  }

  // ---------------------------------------------------------------- who is silenced

  /**
    What a call in its loop knows about the items of its host: those in drift when it read the
    rules and without a rule are still in drift; those done without finding drift are not.
  */
  ghost predicate Tracks(s: State, c: Call) {
    InLoop(c.pc) ==>
      && (forall k | k in c.drifting :: k.host == c.host && (k !in c.listed ==> IsDrift(s.items, k)))
      && (forall k | k in c.rules :: k in c.listed)
      && (!c.drift ==> forall k | k in c.listed && k !in c.rules :: !IsDrift(s.items, k))
      && (forall k | k in c.listed :: k.host == c.host)
  }

  lemma ApartTracks(s: State, e: Event, j: nat)
    requires Apart(s) && Enabled(s, e) && j < |s.calls| && (e.Start? || e.UserAck? || e.i != j)
    requires Tracks(s, s.calls[j])
    ensures Tracks(Step(s, e), Step(s, e).calls[j])
  {
    StepsApart(s, e, j);
  }

  lemma UpsertTracks(s: State, i: nat)
    requires Inv(s) && Enabled(s, Upsert(i)) && Tracks(s, s.calls[i])
    ensures Tracks(DoUpsert(s, i), DoUpsert(s, i).calls[i])
  {
    var k := s.calls[i].rules[0];
    assert k in s.calls[i].rules && k in s.calls[i].listed;
    assert forall x | x != k :: IsDrift(DoUpsert(s, i).items, x) == IsDrift(s.items, x);
  }

  lemma PopTracks(s: State, c: Call)
    requires CallSound(s, c) && Tracks(s, c) && Noticed(c) && Writing(c.pc)
    ensures Tracks(s, c.(pc := Looping, rules := c.rules[1..]))
  {
    forall k | !c.drift && k in c.listed && k !in c.rules[1..] ensures !IsDrift(s.items, k) {
      assert k in c.rules ==> k == c.rules[0];
    }
  }

  lemma ListTracks(s: State, i: nat, rules: seq<Key>)
    requires Enabled(s, ListRules(i, rules))
    ensures Tracks(Step(s, ListRules(i, rules)), Step(s, ListRules(i, rules)).calls[i])
  {}

  lemma OwnTracks(s: State, e: Event)
    requires Apart(s) && Enabled(s, e) && !e.Start? && !e.UserAck? && !e.Upsert?
    requires Tracks(s, s.calls[e.i]) && Noticed(s.calls[e.i])
    ensures Tracks(Step(s, e), Step(s, e).calls[e.i])
  {
    assert CallSound(s, s.calls[e.i]);
    if e.ListRules? { ListTracks(s, e.i, e.rules); }
    else if e.Record? || e.CreateAlert? { PopTracks(s, s.calls[e.i]); }
    else { MoveTracks(s, e); }
  }

  lemma MoveTracks(s: State, e: Event)
    requires Enabled(s, e) && !e.Start? && !e.UserAck? && !e.Upsert?
    requires !e.ListRules? && !e.Record? && !e.CreateAlert?
    requires Tracks(s, s.calls[e.i])
    ensures Tracks(Step(s, e), Step(s, e).calls[e.i])
  {
    var c, d := s.calls[e.i], Step(s, e).calls[e.i];
    assert Step(s, e).items == s.items;
    assert d.listed == c.listed && d.rules == c.rules && d.drifting == c.drifting;
    assert (InLoop(d.pc) ==> InLoop(c.pc)) && (c.drift ==> d.drift);
  }

  ghost predicate TrackInv(s: State) {
    forall j | 0 <= j < |s.calls| :: Tracks(s, s.calls[j]) && Noticed(s.calls[j])
  }

  lemma StepNotices(s: State, e: Event, j: nat)
    requires Enabled(s, e) && j < |Step(s, e).calls| && (j < |s.calls| ==> Noticed(s.calls[j]))
    ensures Noticed(Step(s, e).calls[j])
  {
    if !e.Start? && !e.UserAck? { OnlyOwn(s, e); }
  }

  lemma StepTracks(s: State, e: Event)
    requires Inv(s) && TrackInv(s) && Enabled(s, e)
    ensures TrackInv(Step(s, e))
  {
    var t := Step(s, e);
    forall j | 0 <= j < |t.calls| ensures Tracks(t, t.calls[j]) && Noticed(t.calls[j]) {
      StepNotices(s, e, j);
      if j < |s.calls| {
        if e.Start? || e.UserAck? || e.i != j { ApartTracks(s, e, j); }
        else if e.Upsert? { UpsertTracks(s, e.i); }
        else { OwnTracks(s, e); }
      }
    }
  }

  lemma {:induction false} RunTracks(s: State, events: seq<Event>)
    requires Inv(s) && TrackInv(s) && CanRun(s, events)
    ensures Inv(Exec(s, events)) && TrackInv(Exec(s, events))
    decreases |events|
  {
    if events != [] {
      StepInv(s, events[0]);
      StepTracks(s, events[0]);
      RunTracks(Step(s, events[0]), events[1..]);
    }
  }

  /** In drift without an unacknowledged alert. */
  predicate Silenced(s: State, k: Key) {
    IsDrift(s.items, k) && !HasActiveAlert(s, k)
  }

  /**
    The exact condition.  When an inspection that found no drift ends, an item that was in drift
    as it read the rules is left in drift without an alert if and only if those rules did not
    include its own.
  */
  lemma SilencedIffUnlisted(s0: State, events: seq<Event>, i: nat, k: Key)
    requires Init(s0) && s0.guard && CanRun(s0, events) && Enabled(Exec(s0, events), EndLoop(i))
    requires var c := Exec(s0, events).calls[i]; !c.drift && k in c.drifting
    ensures Silenced(Step(Exec(s0, events), EndLoop(i)), k) <==> k !in Exec(s0, events).calls[i].listed
  {
    InitInv(s0);
    RunTracks(s0, events);
    var s := Exec(s0, events);
    assert Tracks(s, s.calls[i]);
    EndLoopAcks(s, i, k);
  }

  lemma EndLoopAcks(s: State, i: nat, k: Key)
    requires Enabled(s, EndLoop(i)) && !s.calls[i].drift && k.host == s.calls[i].host
    ensures !HasActiveAlert(Step(s, EndLoop(i)), k)
  {
    var t := Step(s, EndLoop(i));
    assert forall j | 0 <= j < |t.alerts| && t.alerts[j].key == k :: t.alerts[j].acknowledged;
  }

  /** Silenced, no alert on its way, and every call that has written the item knows or has lost its drift. */
  ghost predicate Silent(s: State, k: Key) {
    Silenced(s, k) && Steady(s, k) && forall i: nat :: !On(s, i, Alerting, k)
  }

  ghost predicate Steady(s: State, k: Key) {
    IsDrift(s.items, k) && forall i: nat | On(s, i, Upserted, k) :: WasReally(s.calls[i])
  }

  /** The item is in drift in every state of the run. */
  predicate StaysDrifting(s: State, events: seq<Event>, k: Key)
    requires CanRun(s, events)
    decreases |events|
  {
    IsDrift(s.items, k) && (events == [] || StaysDrifting(Step(s, events[0]), events[1..], k))
  }

  /** A report on `k` by a call whose read of its status was lost while it was in drift. */
  predicate IsLostReport(s: State, e: Event, k: Key)
    requires Enabled(s, e)
  {
    e.Record? && s.calls[e.i].rules[0] == k && s.calls[e.i].lost
  }

  function LostReports(s: State, events: seq<Event>, k: Key): nat
    requires CanRun(s, events)
    decreases |events|
  {
    if events == [] then 0
    else
      (if IsLostReport(s, events[0], k) then 1 else 0) + LostReports(Step(s, events[0]), events[1..], k)
  }

  lemma StepSteady(s: State, e: Event, k: Key)
    requires Inv(s) && Steady(s, k) && Enabled(s, e) && IsDrift(Step(s, e).items, k)
    ensures Steady(Step(s, e), k)
  {
    var t := Step(s, e);
    forall i: nat | On(t, i, Upserted, k) ensures WasReally(t.calls[i]) {
      if e.Upsert? && e.i == i {
        assert CallSound(s, s.calls[i]);
      } else {
        assert On(s, i, Upserted, k) && t.calls[i] == s.calls[i];
      }
    }
  }

  lemma StepDetects(s: State, e: Event, k: Key)
    requires Inv(s) && Steady(s, k) && Enabled(s, e)
    ensures Detections(Kinds(Step(s, e).incidents, k))
        == Detections(Kinds(s.incidents, k)) + (if IsLostReport(s, e, k) then 1 else 0)
  {
    if e.Record? {
      var c := s.calls[e.i];
      assert CallSound(s, c) && (c.rules[0] == k ==> On(s, e.i, Upserted, k) && WasReally(c));
      TransitionKinds(s.incidents, c, k);
      DetectionsAppend(Kinds(s.incidents, k), Detected);
    }
  }

  /** For an item that stays in drift, detections are added by lost reads alone. */
  lemma {:induction false} OnlyLostReadsDetect(s: State, events: seq<Event>, k: Key)
    requires Inv(s) && Steady(s, k) && CanRun(s, events) && StaysDrifting(s, events, k)
    ensures Inv(Exec(s, events))
    ensures Detections(Kinds(Exec(s, events).incidents, k))
        == Detections(Kinds(s.incidents, k)) + LostReports(s, events, k)
    decreases |events|
  {
    if events != [] {
      StepInv(s, events[0]);
      assert IsDrift(Step(s, events[0]).items, k);
      StepSteady(s, events[0], k);
      StepDetects(s, events[0], k);
      OnlyLostReadsDetect(Step(s, events[0]), events[1..], k);
    }
  }

  lemma StepSilent(s: State, e: Event, k: Key)
    requires Inv(s) && Silent(s, k) && Enabled(s, e) && !IsLostReport(s, e, k) && IsDrift(Step(s, e).items, k)
    ensures Silent(Step(s, e), k)
  {
    var t := Step(s, e);
    StepSteady(s, e, k);
    StepUnalerted(s, e, k);
    forall i: nat ensures !On(t, i, Alerting, k) {
      assert !On(s, i, Alerting, k);
      if e.Record? && e.i == i && s.calls[i].rules[0] == k {
        assert On(s, i, Upserted, k) && WasReally(s.calls[i]);
      }
    }
  }

  /** No step but the creation of its own alert gives an item an unacknowledged one. */
  lemma StepUnalerted(s: State, e: Event, k: Key)
    requires Enabled(s, e) && !HasActiveAlert(s, k) && (e.CreateAlert? ==> !On(s, e.i, Alerting, k))
    ensures !HasActiveAlert(Step(s, e), k)
  {
    var t := Step(s, e);
    forall j | 0 <= j < |t.alerts| && t.alerts[j].key == k ensures t.alerts[j].acknowledged {
      if j < |s.alerts| { assert s.alerts[j].key == k && s.alerts[j].acknowledged; }
    }
  }

  lemma {:induction false} SilentStays(s: State, events: seq<Event>, k: Key)
    requires Inv(s) && Silent(s, k) && CanRun(s, events) && StaysDrifting(s, events, k)
    requires LostReports(s, events, k) == 0
    ensures Silent(Exec(s, events), k)
    decreases |events|
  {
    if events != [] {
      StepInv(s, events[0]);
      assert IsDrift(Step(s, events[0]).items, k);
      StepSilent(s, events[0], k);
      SilentStays(Step(s, events[0]), events[1..], k);
    }
  }

  /** No call at work on `k` has lost its status. */
  ghost predicate Seen(s: State, k: Key) {
    forall i: nat | On(s, i, HavePrev, k) || On(s, i, Upserted, k) :: !s.calls[i].lost
  }

  lemma StepSeen(s: State, e: Event, k: Key)
    requires Seen(s, k) && Enabled(s, e) && !e.ReadBlind?
    ensures Seen(Step(s, e), k) && !IsLostReport(s, e, k)
  {
    if !e.Start? && !e.UserAck? {
      OnlyOwn(s, e);
      SeenOwn(s, e, k);
    }
  }

  lemma SeenOwn(s: State, e: Event, k: Key)
    requires Enabled(s, e) && !e.Start? && !e.UserAck? && !e.ReadBlind?
    requires On(s, e.i, HavePrev, k) || On(s, e.i, Upserted, k) ==> !s.calls[e.i].lost
    ensures On(Step(s, e), e.i, HavePrev, k) || On(Step(s, e), e.i, Upserted, k) ==> !Step(s, e).calls[e.i].lost
  {}

  lemma {:induction false} SeenRun(s: State, events: seq<Event>, k: Key)
    requires Seen(s, k) && CanRun(s, events) && forall e | e in events :: !e.ReadBlind?
    ensures LostReports(s, events, k) == 0
    decreases |events|
  {
    if events != [] {
      StepSeen(s, events[0], k);
      SeenRun(Step(s, events[0]), events[1..], k);
    }
  }

  /**
    What is silenced stays silent, but for lost reads.  However the run goes on - with the rule
    enabled again and any number of inspections - the alerts raised for the item until it has been
    stored as ok are as many as reports that follow a lost read of its status, because its stored
    status is drift already.  Without such a report it stays without an active alert, and a run in
    which no read fails has none.
  */
  lemma SilencedUntilResolved(s0: State, events: seq<Event>, i: nat, k: Key, later: seq<Event>)
    requires Init(s0) && s0.guard && CanRun(s0, events) && Enabled(Exec(s0, events), EndLoop(i))
    requires var c := Exec(s0, events).calls[i]; !c.drift && k in c.drifting && k !in c.listed
    requires var t := Step(Exec(s0, events), EndLoop(i)); CanRun(t, later) && StaysDrifting(t, later, k)
    ensures var t := Step(Exec(s0, events), EndLoop(i));
      var u := Exec(t, later);
      && AlertCount(u.alerts, k) + (if Between(u, Alerting, k) then 1 else 0)
          == AlertCount(t.alerts, k) + LostReports(t, later, k)
      && (LostReports(t, later, k) == 0 ==> !HasActiveAlert(u, k))
      && ((forall e | e in later :: !e.ReadBlind?) ==> LostReports(t, later, k) == 0)
  {
    SilencedIffUnlisted(s0, events, i, k);
    InitInv(s0);
    RunTracks(s0, events);
    var s := Exec(s0, events);
    assert Tracks(s, s.calls[i]);
    var t := Step(s, EndLoop(i));
    StepInv(s, EndLoop(i));
    IdleAfterEndLoop(s, i, k);
    OnlyLostReadsDetect(t, later, k);
    assert LogSound(t, k) && LogSound(Exec(t, later), k);
    if LostReports(t, later, k) == 0 { SilentStays(t, later, k); }
    if forall e | e in later :: !e.ReadBlind? { SeenRun(t, later, k); }
  }

  /** The call that has left its loop was the only one at work on its host. */
  lemma IdleAfterEndLoop(s: State, i: nat, k: Key)
    requires Inv(s) && Enabled(s, EndLoop(i)) && k.host == s.calls[i].host
    ensures var t := Step(s, EndLoop(i));
      && Seen(t, k) && !Between(t, Alerting, k) && !Between(t, Upserted, k)
  {
    var t := Step(s, EndLoop(i));
    forall j: nat | j < |t.calls| && Working(t.calls[j].pc) && t.calls[j].rules != []
      ensures t.calls[j].rules[0] != k
    {
      assert CallSound(s, s.calls[j]) && s.calls[j].rules[0] in s.calls[j].rules;
      assert j != i && s.calls[j].host != s.calls[i].host;
    }
  }

  // ---------------------------------------------------------------- steps that leave the tables alone

  /** A call whose scrape fails, or whose deadline passes in the loop, frees its host and changes no table. */
  lemma FailedCallsChangeNothing(s: State, i: nat, e: Event)
    requires Enabled(s, e) && (e == ScrapeFails(i) || e == Expire(i))
    ensures CanRun(s, [e, Delete(i)])
    ensures var t := Exec(s, [e, Delete(i)]);
      && t.items == s.items && t.incidents == s.incidents && t.alerts == s.alerts
      && t.inFlight == s.inFlight - {s.calls[i].host} && At(t, i, Returned)
  {
    var last := Prepend(Step(s, e), Delete(i), []);
    var events := Prepend(s, e, last);
    assert events == [e, Delete(i)];
  }

  /** Acknowledging an alert by hand acknowledges that one and does nothing else. */
  lemma UserAckIsLocal(s: State, a: nat, j: nat)
    requires Enabled(s, UserAck(a)) && j < |s.alerts|
    ensures var t := Step(s, UserAck(a));
      && |t.alerts| == |s.alerts| && t.alerts[j].key == s.alerts[j].key
      && t.alerts[j].acknowledged == (s.alerts[j].acknowledged || j == a)
      && t.items == s.items && t.incidents == s.incidents && t.calls == s.calls && t.inFlight == s.inFlight
  {}

  // ---------------------------------------------------------------- a run that silences

  function Solo(pc: Pc, k: Key, rules: seq<Key>, status: Status): Call {
    Call(pc, k.host, rules, status == Drift, status, false, false, [k], {})
  }

  lemma EnterLoop(k: Key) returns (events: seq<Event>)
    ensures var s0 := State(true, map[], [], [], {}, [], {});
      && CanRun(s0, events)
      && Exec(s0, events) == State(true, map[], [], [], {k.host}, [Solo(Looping, k, [k], Ok)], {})
  {
    var s0 := State(true, map[], [], [], {}, [], {});
    var s1 := Step(s0, Start(k.host));
    assert DriftingOn(map[], k.host) == {};
    events := Two(s1, LoadOrStore(0), ListRules(0, [k]));
    events := Prepend(s0, Start(k.host), events);
  }

  lemma NoteDrift(k: Key) returns (events: seq<Event>)
    ensures var s0 := State(true, map[], [], [], {k.host}, [Solo(Looping, k, [k], Ok)], {});
      && CanRun(s0, events)
      && Exec(s0, events) == State(true, map[k := Drift], [], [], {k.host}, [Solo(Upserted, k, [k], Drift)], {})
  {
    var s0 := State(true, map[], [], [], {k.host}, [Solo(Looping, k, [k], Ok)], {});
    var s1 := Step(s0, Evaluate(0, Drift));
    events := Two(s1, ReadPrev(0), Upsert(0));
    events := Prepend(s0, Evaluate(0, Drift), events);
  }

  lemma FindDrift(k: Key) returns (events: seq<Event>)
    ensures var s0 := State(true, map[], [], [], {}, [], {});
      && CanRun(s0, events)
      && Exec(s0, events) == State(true, map[k := Drift], [], [], {k.host}, [Solo(Upserted, k, [k], Drift)], {})
  {
    var enter := EnterLoop(k);
    var note := NoteDrift(k);
    Join(State(true, map[], [], [], {}, [], {}), enter, note);
    events := enter + note;
  }

  lemma RaiseAlert(k: Key) returns (events: seq<Event>)
    ensures var s0 := State(true, map[k := Drift], [], [], {k.host}, [Solo(Upserted, k, [k], Drift)], {});
      && CanRun(s0, events)
      && Exec(s0, events) == State(true, map[k := Drift], [Incident(k, Detected)], [Alert(k, false)], {k.host},
                                   [Solo(Looping, k, [], Drift)], {})
  {
    var s0 := State(true, map[k := Drift], [], [], {k.host}, [Solo(Upserted, k, [k], Drift)], {});
    assert [k][1..] == [];
    events := Two(s0, Record(0), CreateAlert(0));
  }

  lemma ReportDrift(k: Key) returns (events: seq<Event>)
    ensures var s0 := State(true, map[k := Drift], [], [], {k.host}, [Solo(Upserted, k, [k], Drift)], {});
      && CanRun(s0, events)
      && Exec(s0, events) == State(true, map[k := Drift], [Incident(k, Detected)], [Alert(k, false)], {},
                                   [Solo(Returned, k, [], Drift)], {})
  {
    var s0 := State(true, map[k := Drift], [], [], {k.host}, [Solo(Upserted, k, [k], Drift)], {});
    var raise := RaiseAlert(k);
    var leave := Two(Exec(s0, raise), EndLoop(0), Delete(0));
    Join(s0, raise, leave);
    events := raise + leave;
  }

  /** An item reported as drifting, its host idle again. */
  function Reported(k: Key): State {
    State(true, map[k := Drift], [Incident(k, Detected)], [Alert(k, false)], {}, [Solo(Returned, k, [], Drift)], {})
  }

  lemma ReachReported(k: Key) returns (s0: State, events: seq<Event>)
    ensures Init(s0) && s0.guard && CanRun(s0, events) && Exec(s0, events) == Reported(k)
  {
    s0 := State(true, map[], [], [], {}, [], {});
    var found := FindDrift(k);
    var report := ReportDrift(k);
    Join(s0, found, report);
    events := found + report;
  }

  /** A healthy inspection of an idle host without rules acknowledges its alerts and does nothing else. */
  lemma IdleInspection(s: State, host: int) returns (events: seq<Event>)
    requires host !in s.inFlight
    ensures CanRun(s, events)
    ensures var t := Exec(s, events);
      t.items == s.items && t.inFlight == s.inFlight && t.alerts == AckHost(s.alerts, host)
  {
    var n := |s.calls|;
    var s1 := Step(s, Start(host));
    var s2 := Step(s1, LoadOrStore(n));
    var enter := Two(s1, LoadOrStore(n), ListRules(n, []));
    var s3 := Step(s2, ListRules(n, []));
    assert s3.calls[n] == Call(Looping, host, [], false, Ok, false, false, [], DriftingOn(s.items, host));
    var leave := Two(s3, EndLoop(n), Delete(n));
    Join(s1, enter, leave);
    events := Prepend(s, Start(host), enter + leave);
    assert s.inFlight + {host} - {host} == s.inFlight;
  }

  /** One inspection with the rule disabled acknowledges the alert of an item still in drift. */
  lemma DisabledRuleSilencesDrift(k: Key) returns (s0: State, events: seq<Event>)
    ensures Init(s0) && s0.guard && CanRun(s0, events) && !Attentive(s0, events, k)
    ensures var t := Exec(s0, events);
      IsDrift(t.items, k) && t.inFlight == {} && !HasActiveAlert(t, k)
  {
    var first;
    s0, first := ReachReported(k);
    var s1 := Exec(s0, first);
    var second := IdleInspection(s1, k.host);
    Join(s0, first, second);
    events := first + second;
    if Attentive(s0, events, k) { DriftKeepsItsAlert(s0, events, k); }
  }

  // ---------------------------------------------------------------- the code, one call at a time

  /** The whole turn of the loop for the first rule, run without interference. */
  function Turn(s: State, i: nat, outcome: Status, blind: bool): State
    requires At(s, i, Looping) && s.calls[i].rules != []
  {
    var c := s.calls[i];
    var k := c.rules[0];
    var was := IsDrift(s.items, k);
    var d := c.(status := outcome, drift := c.drift || outcome == Drift,
      wasDrift := was && !blind, lost := was && blind);
    Set(s, i, d.(rules := c.rules[1..])).(
      items := s.items[k := outcome],
      incidents := s.incidents + Transition(d),
      alerts := s.alerts + (if outcome == Drift && !d.wasDrift then [Alert(k, false)] else []),
      broken := if d.lost then s.broken + {k} else s.broken)
  }

  function ReadEvent(i: nat, blind: bool): Event {
    if blind then ReadBlind(i) else ReadPrev(i)
  }

  /** The call once the status of its first rule is known and its previous status read. */
  function Informed(s: State, i: nat, outcome: Status, blind: bool): Call
    requires At(s, i, Looping) && s.calls[i].rules != []
  {
    var c, was := s.calls[i], IsDrift(s.items, s.calls[i].rules[0]);
    c.(pc := HavePrev, status := outcome, drift := c.drift || outcome == Drift, wasDrift := was && !blind,
       lost := was && blind)
  }

  lemma InformedResult(s: State, i: nat, outcome: Status, blind: bool)
    requires At(s, i, Looping) && s.calls[i].rules != []
    ensures Enabled(s, Evaluate(i, outcome)) && Enabled(Step(s, Evaluate(i, outcome)), ReadEvent(i, blind))
    ensures Step(Step(s, Evaluate(i, outcome)), ReadEvent(i, blind)) == Set(s, i, Informed(s, i, outcome, blind))
  {
  }

  lemma TurnResult(s: State, i: nat, outcome: Status, blind: bool)
    requires At(s, i, Looping) && s.calls[i].rules != []
    ensures var s4 := DoRecord(DoUpsert(Set(s, i, Informed(s, i, outcome, blind)), i), i);
      Turn(s, i, outcome, blind) == if At(s4, i, Alerting) then DoCreateAlert(s4, i) else s4
  {
  }

  /** One turn of the loop without interference, as steps of the machine. */
  lemma TurnRun(s: State, i: nat, outcome: Status, blind: bool) returns (events: seq<Event>)
    requires At(s, i, Looping) && s.calls[i].rules != []
    ensures CanRun(s, events) && Exec(s, events) == Turn(s, i, outcome, blind)
  {
    var s1 := Step(s, Evaluate(i, outcome));
    var s2 := Step(s1, ReadEvent(i, blind));
    InformedResult(s, i, outcome, blind);
    var s3 := DoUpsert(s2, i);
    var s4 := DoRecord(s3, i);
    events := [];
    TurnResult(s, i, outcome, blind);
    if At(s4, i, Alerting) { events := Prepend(s4, CreateAlert(i), events); }
    events := Prepend(s3, Record(i), events);
    events := Prepend(s2, Upsert(i), events);
    events := Prepend(s1, ReadEvent(i, blind), events);
    events := Prepend(s, Evaluate(i, outcome), events);
  }

  lemma BlindInspection(k: Key, outcome: Status) returns (events: seq<Event>)
    ensures CanRun(Reported(k), events)
    ensures var t := Exec(Reported(k), events);
      && t.items == map[k := outcome] && t.broken == {k}
      && t.incidents == [Incident(k, Detected)] + (if outcome == Drift then [Incident(k, Detected)] else [])
      && forall j | 0 <= j < |t.calls| :: !Writing(t.calls[j].pc)
  {
    var s := Reported(k);
    var s1 := Step(s, Start(k.host));
    var s2 := Step(s1, LoadOrStore(1));
    var s3 := Step(s2, ListRules(1, [k]));
    events := TurnRun(s3, 1, outcome, true);
    events := Prepend(s2, ListRules(1, [k]), events);
    events := Prepend(s1, LoadOrStore(1), events);
    events := Prepend(s, Start(k.host), events);
  }

  lemma SpoiltKinds(k: Key, outcome: Status) returns (kinds: seq<IncidentKind>)
    ensures kinds == Kinds([Incident(k, Detected)] + (if outcome == Drift then [Incident(k, Detected)] else []), k)
    ensures kinds == if outcome == Drift then [Detected, Detected] else [Detected]
    ensures Alternates(kinds) ==> outcome == Ok
  {
    var one := [Incident(k, Detected)];
    assert [] + one == one;
    KindsAppend([], one[0], k);
    if outcome == Drift {
      KindsAppend(one, one[0], k);
      kinds := [Detected, Detected];
      assert !Flips(kinds, 1);
    } else {
      assert one + [] == one;
      kinds := [Detected];
    }
  }

  /**
    One lost read is enough.  In this run the second inspection cannot read that the item is in
    drift: if it still is, the drift is reported a second time, and if it is not, its end is never
    reported.
  */
  lemma LostReadSpoilsTheLog(k: Key, outcome: Status) returns (s0: State, events: seq<Event>)
    ensures Init(s0) && s0.guard && CanRun(s0, events)
    ensures var t := Exec(s0, events);
      && IsDrift(t.items, k) == (outcome == Drift) && !Between(t, Upserted, k)
      && Kinds(t.incidents, k) == (if outcome == Drift then [Detected, Detected] else [Detected])
      && !(Alternates(Kinds(t.incidents, k)) && (Open(Kinds(t.incidents, k)) <==> IsDrift(t.items, k)))
  {
    var first, second;
    s0, first := ReachReported(k);
    second := BlindInspection(k, outcome);
    Join(s0, first, second);
    events := first + second;
    var kinds := SpoiltKinds(k, outcome);
  }

  lemma TurnMoves(s: State, i: nat, outcome: Status, blind: bool)
    requires At(s, i, Looping) && s.calls[i].rules != []
    ensures var t := Turn(s, i, outcome, blind);
      && At(t, i, Looping) && t.calls[i].rules == s.calls[i].rules[1..]
      && t.calls[i].drift == (s.calls[i].drift || outcome == Drift)
  {}

  class Inspector {
    var items: map<Key, Status>
    var incidents: seq<Incident>
    var alerts: seq<Alert>
    var inFlight: set<int>
    ghost var calls: seq<Call>
    ghost var broken: set<Key>

    ghost function St(): State
      reads this
    {
      State(true, items, incidents, alerts, inFlight, calls, broken)
    }

    /** One turn of the loop: what evaluateRule found for `k` is stored and reported. */
    method RecordOutcome(ghost i: nat, k: Key, outcome: Status, blind: bool) returns (ghost events: seq<Event>)
      requires At(St(), i, Looping) && calls[i].rules != [] && calls[i].rules[0] == k
      modifies this`items, this`incidents, this`alerts, this`calls, this`broken
      ensures CanRun(old(St()), events) && St() == Exec(old(St()), events) == Turn(old(St()), i, outcome, blind)
    {
      events := TurnRun(St(), i, outcome, blind);
      ghost var after := Turn(St(), i, outcome, blind);
      var existing := if blind then map[] else items;
      var wasDrift := k in existing && existing[k] == Drift;
      items := items[k := outcome];
      if outcome == Drift && !wasDrift {
        incidents := incidents + [Incident(k, Detected)];
        alerts := alerts + [Alert(k, false)];
      } else if outcome == Ok && wasDrift {
        incidents := incidents + [Incident(k, Resolved)];
      }
      calls, broken := after.calls, after.broken;
    }

    /**
      The rule loop of call `i`; `outcomes` are what evaluateRule finds on the host, `blinds` say
      which reads of a status fail.  It is a run of the machine above, so what holds of every run
      holds of the tables it leaves.
    */
    method EvaluateDesiredRules(ghost i: nat, rules: seq<Key>, outcomes: seq<Status>, blinds: seq<bool>)
      returns (driftFound: bool, checkedCount: nat, ghost events: seq<Event>)
      requires At(St(), i, Looping) && calls[i].rules == rules && !calls[i].drift
      requires |outcomes| == |blinds| == |rules|
      modifies this`items, this`incidents, this`alerts, this`calls, this`broken
      ensures CanRun(old(St()), events) && St() == Exec(old(St()), events)
      ensures At(St(), i, Looping) && calls[i].rules == [] && calls[i].drift == driftFound
      ensures driftFound <==> Drift in outcomes
      ensures checkedCount == |rules|
    {
      ghost var s := St();
      driftFound, checkedCount, events := false, 0, [];
      while checkedCount < |rules|
        invariant checkedCount <= |rules|
        invariant CanRun(s, events) && St() == Exec(s, events)
        invariant At(St(), i, Looping) && calls[i].rules == rules[checkedCount..] && calls[i].drift == driftFound
        invariant driftFound <==> Drift in outcomes[..checkedCount]
      {
        var outcome := outcomes[checkedCount];
        TurnMoves(St(), i, outcome, blinds[checkedCount]);
        ghost var turn := RecordOutcome(i, rules[checkedCount], outcome, blinds[checkedCount]);
        Join(s, events, turn);
        events := events + turn;
        assert outcomes[..checkedCount + 1] == outcomes[..checkedCount] + [outcome];
        checkedCount := checkedCount + 1;
        if outcome == Drift {
          driftFound := true;
        }
      }
      assert outcomes[..checkedCount] == outcomes;
    }
  }
}
