/**
  The inspect-all endpoint: a POST that is refused while anything is being inspected or during
  a cooldown, and otherwise starts a sweep - a launcher goroutine that starts one worker per
  host and takes a slot of a five-slot semaphore for each, and closes the sweep when the last
  worker is done.  Other inspections (scheduler, single-host requests) come and go meanwhile.
  Semaphore, wait-group and guard operations are one step each.  A POST keeps its lock over
  three steps: it sees that no sweep is open, counts the inspections in flight - which do not
  take that lock - and reads the host list and raises the flag.

  `sweeps` holds every sweep ever started; nothing in the model stops several from being open
  at once except the POST itself.  Times are nanoseconds.
*/
module InspectAll {

  import opened Wrappers

  const SECOND: int := 1_000_000_000
  const COOLDOWN: int := 15 * SECOND
  const SLOTS: nat := 5

  datatype Worker =
    | Spawned     // slot taken, inspection not yet asked for
    | Inspecting
    | Returned    // InspectHost has returned, slot still held
    | Released    // slot given back, wait group not yet told
    | Done

  datatype Sweep = Sweep(
    hosts: seq<int>,
    workers: seq<Worker>,   // one per host launched so far
    slots: nat,             // slots taken
    open: nat,              // wait-group counter
    inspected: seq<int>,
    refused: seq<int>,      // already in flight when the worker asked
    begun: int,
    over: bool,
    ended: int)

  /**
    What the POST that holds the lock has done.  Ranging over the in-flight table is no snapshot:
    a host may be seen if it was there at some moment of the count, and missed if it was absent
    at some moment.
  */
  datatype Lock =
    | Free
    | Counting(always: set<int>, met: set<int>)  // in flight ever since the count began; at some moment of it
    | Cleared                                    // none counted, no cooldown

  datatype State = State(
    now: int,
    lock: Lock,
    active: bool,
    last: Option<int>,      // end of the last sweep
    inFlight: set<int>,
    others: set<int>,       // the part of inFlight that no sweep started
    sweeps: seq<Sweep>)

  datatype Event =
    | Tick(d: nat)
    | PostEnter
    | PostCount(busy: bool)
    | PostStart(hosts: Option<seq<int>>)      // None: the host list could not be read
    | Launch(i: nat)
    | Ask(i: nat, w: nat)
    | Return(i: nat, w: nat)
    | Release(i: nat, w: nat)
    | Leave(i: nat, w: nat)
    | Finish(i: nat)
    | OtherStart(h: int)
    | OtherEnd(h: int)

  datatype Response = Conflict | TooSoon(remaining: int) | ListFailed | NoHosts | Started(count: nat)

  /** Whole seconds, rounded up. */
  function CeilSeconds(d: int): int {
    (d + SECOND - 1) / SECOND
  }

  /** The answer of a POST that nothing interferes with. */
  function Respond(now: int, active: bool, last: Option<int>, inFlight: set<int>, hosts: Option<seq<int>>): Response {
    if active || inFlight != {} then Conflict
    else if InCooldown(now, last) then TooSoon(CeilSeconds(COOLDOWN - (now - last.value)))
    else if hosts.None? then ListFailed
    else if hosts.value == [] then NoHosts
    else Started(|hosts.value|)
  }

  predicate Distinct(hosts: seq<int>) {
    forall i, j | 0 <= i < j < |hosts| :: hosts[i] != hosts[j]
  }

  predicate IsWorker(s: State, i: nat, w: nat, pc: Worker) {
    i < |s.sweeps| && w < |s.sweeps[i].workers| <= |s.sweeps[i].hosts| && s.sweeps[i].workers[w] == pc
  }

  predicate Enabled(s: State, e: Event) {
    match e
    case Tick(_) => true
    case PostEnter => s.lock.Free?
    case PostCount(busy) => s.lock.Counting? && (if busy then s.lock.met != {} else s.lock.always == {})
    case PostStart(hosts) => s.lock.Cleared? && (hosts.Some? ==> Distinct(hosts.value))  // ids are the primary key
    case Launch(i) =>
      i < |s.sweeps| && |s.sweeps[i].workers| < |s.sweeps[i].hosts| && s.sweeps[i].slots < SLOTS
    case Ask(i, w) => IsWorker(s, i, w, Spawned)
    case Return(i, w) => IsWorker(s, i, w, Inspecting)
    case Release(i, w) => IsWorker(s, i, w, Returned) && s.sweeps[i].slots > 0
    case Leave(i, w) => IsWorker(s, i, w, Released) && s.sweeps[i].open > 0
    case Finish(i) =>
      && i < |s.sweeps| && !s.sweeps[i].over && |s.sweeps[i].workers| == |s.sweeps[i].hosts|
      && s.sweeps[i].open == 0 && s.lock.Free?
    case OtherStart(h) => h !in s.inFlight
    case OtherEnd(h) => h in s.others
  }

  function SetWorker(p: Sweep, w: nat, pc: Worker): Sweep
    requires w < |p.workers|
  {
    p.(workers := p.workers[w := pc])
  }

  /** The sweep after one of its own steps. */
  function SweepStep(s: State, e: Event): Sweep
    requires Enabled(s, e) && (e.Launch? || e.Ask? || e.Return? || e.Release? || e.Leave? || e.Finish?)
  {
    var p := s.sweeps[e.i];
    match e
    case Launch(_) => p.(workers := p.workers + [Spawned], slots := p.slots + 1, open := p.open + 1)
    case Ask(_, w) =>
      if p.hosts[w] in s.inFlight then SetWorker(p.(refused := p.refused + [p.hosts[w]]), w, Returned)
      else SetWorker(p.(inspected := p.inspected + [p.hosts[w]]), w, Inspecting)
    case Return(_, w) => SetWorker(p, w, Returned)
    case Release(_, w) => SetWorker(p.(slots := p.slots - 1), w, Released)
    case Leave(_, w) => SetWorker(p.(open := p.open - 1), w, Done)
    case Finish(_) => p.(over := true, ended := s.now)
  }

  predicate InCooldown(now: int, last: Option<int>) {
    last.Some? && now - last.value < COOLDOWN
  }

  /** `h` is put into the in-flight table. */
  function Enter(s: State, h: int): State {
    s.(inFlight := s.inFlight + {h},
       lock := if s.lock.Counting? then s.lock.(met := s.lock.met + {h}) else s.lock)
  }

  function Exit(s: State, h: int): State {
    s.(inFlight := s.inFlight - {h},
       lock := if s.lock.Counting? then s.lock.(always := s.lock.always - {h}) else s.lock)
  }

  function NewSweep(hosts: seq<int>, now: int): Sweep {
    Sweep(hosts, [], 0, 0, [], [], now, false, now)
  }

  function Step(s: State, e: Event): State
    requires Enabled(s, e)
  {
    match e
    case Tick(d) => s.(now := s.now + d)
    case PostEnter => if s.active then s else s.(lock := Counting(s.inFlight, s.inFlight))
    case PostCount(busy) => s.(lock := if busy || InCooldown(s.now, s.last) then Free else Cleared)
    case PostStart(hosts) =>
      if hosts.None? || hosts.value == [] then s.(lock := Free)
      else s.(lock := Free, active := true, sweeps := s.sweeps + [NewSweep(hosts.value, s.now)])
    case OtherStart(h) => Enter(s, h).(others := s.others + {h})
    case OtherEnd(h) => Exit(s, h).(others := s.others - {h})
    case Ask(i, w) => Enter(s, s.sweeps[i].hosts[w]).(sweeps := s.sweeps[i := SweepStep(s, e)])
    case Return(i, w) => Exit(s, s.sweeps[i].hosts[w]).(sweeps := s.sweeps[i := SweepStep(s, e)])
    case Finish(i) => s.(sweeps := s.sweeps[i := SweepStep(s, e)], active := false, last := Some(s.now))
    case _ => s.(sweeps := s.sweeps[e.i := SweepStep(s, e)])
  }

  predicate CanRun(s: State, events: seq<Event>)
    decreases |events|
  {
    events == [] || (Enabled(s, events[0]) && CanRun(Step(s, events[0]), events[1..]))
  }

  function Exec(s: State, events: seq<Event>): State
    requires CanRun(s, events)
    decreases |events|
  {
    if events == [] then s else Exec(Step(s, events[0]), events[1..])
  }

  ghost predicate Init(s: State) {
    s.lock == Free && !s.active && s.last == None && s.inFlight == {} && s.others == {} && s.sweeps == []
  }

  // ---------------------------------------------------------------- one sweep

  function Count(workers: seq<Worker>, f: Worker -> bool): nat {
    if workers == [] then 0 else (if f(workers[0]) then 1 else 0) + Count(workers[1..], f)
  }

  function HoldsSlot(): Worker -> bool {
    (w: Worker) => w.Spawned? || w.Inspecting? || w.Returned?
  }

  function IsOpen(): Worker -> bool {
    (w: Worker) => !w.Done?
  }

  function IsInspecting(): Worker -> bool {
    (w: Worker) => w.Inspecting?
  }

  /** The hosts whose worker has asked for its inspection. */
  function Asked(hosts: seq<int>, workers: seq<Worker>): multiset<int>
    requires |workers| <= |hosts|
  {
    if workers == [] then multiset{}
    else (if workers[0].Spawned? then multiset{} else multiset{hosts[0]}) + Asked(hosts[1..], workers[1..])
  }

  ghost predicate SweepInv(p: Sweep) {
    && |p.workers| <= |p.hosts|
    && p.slots == Count(p.workers, HoldsSlot()) && p.slots <= SLOTS
    && p.open == Count(p.workers, IsOpen())
    && (p.over ==> |p.workers| == |p.hosts| && p.open == 0)
    && multiset(p.inspected) + multiset(p.refused) == Asked(p.hosts, p.workers)
    && Distinct(p.hosts)
  }

  lemma {:induction false} CountAdds(workers: seq<Worker>, w: Worker, f: Worker -> bool)
    ensures Count(workers + [w], f) == Count(workers, f) + (if f(w) then 1 else 0)
  {
    if workers == [] {
      assert [] + [w] == [w];
    } else {
      CountAdds(workers[1..], w, f);
      assert (workers + [w])[1..] == workers[1..] + [w];
    }
  }

  lemma {:induction false} CountUpdate(workers: seq<Worker>, k: nat, w: Worker, f: Worker -> bool)
    requires k < |workers|
    ensures Count(workers[k := w], f) + (if f(workers[k]) then 1 else 0)
         == Count(workers, f) + (if f(w) then 1 else 0)
  {
    if k == 0 {
      assert workers[k := w][1..] == workers[1..];
    } else {
      CountUpdate(workers[1..], k - 1, w, f);
      assert workers[k := w][1..] == workers[1..][k - 1 := w];
    }
  }

  lemma {:induction false} CountZero(workers: seq<Worker>, f: Worker -> bool)
    requires Count(workers, f) == 0
    ensures forall w | w in workers :: !f(w)
  {
    if workers != [] { CountZero(workers[1..], f); }
  }

  lemma {:induction false} CountWeakens(workers: seq<Worker>, f: Worker -> bool, g: Worker -> bool)
    requires forall w | f(w) :: g(w)
    ensures Count(workers, f) <= Count(workers, g)
  {
    if workers != [] { CountWeakens(workers[1..], f, g); }
  }

  lemma {:induction false} AskedAdds(hosts: seq<int>, workers: seq<Worker>)
    requires |workers| < |hosts|
    ensures Asked(hosts, workers + [Spawned]) == Asked(hosts, workers)
  {
    if workers == [] {
      assert [] + [Spawned] == [Spawned];
    } else {
      AskedAdds(hosts[1..], workers[1..]);
      assert (workers + [Spawned])[1..] == workers[1..] + [Spawned];
    }
  }

  lemma {:induction false} AskedUpdate(hosts: seq<int>, workers: seq<Worker>, k: nat, w: Worker)
    requires k < |workers| <= |hosts| && !w.Spawned?
    ensures Asked(hosts, workers[k := w])
         == Asked(hosts, workers) + (if workers[k].Spawned? then multiset{hosts[k]} else multiset{})
  {
    if k == 0 {
      assert workers[k := w][1..] == workers[1..];
    } else {
      AskedUpdate(hosts[1..], workers[1..], k - 1, w);
      assert workers[k := w][1..] == workers[1..][k - 1 := w];
    }
  }

  lemma {:induction false} AllAsked(hosts: seq<int>, workers: seq<Worker>)
    requires |workers| == |hosts| && forall w | w in workers :: !w.Spawned?
    ensures Asked(hosts, workers) == multiset(hosts)
  {
    if hosts != [] {
      AllAsked(hosts[1..], workers[1..]);
      assert hosts == [hosts[0]] + hosts[1..];
    }
  }

  predicate IsSweepEvent(e: Event) {
    e.Launch? || e.Ask? || e.Return? || e.Release? || e.Leave? || e.Finish?
  }

  lemma SetWorkerCounts(p: Sweep, w: nat, pc: Worker)
    requires w < |p.workers|
    ensures Count(p.workers[w := pc], HoldsSlot()) + (if HoldsSlot()(p.workers[w]) then 1 else 0)
         == Count(p.workers, HoldsSlot()) + (if HoldsSlot()(pc) then 1 else 0)
    ensures Count(p.workers[w := pc], IsOpen()) + (if IsOpen()(p.workers[w]) then 1 else 0)
         == Count(p.workers, IsOpen()) + (if IsOpen()(pc) then 1 else 0)
  {
    CountUpdate(p.workers, w, pc, HoldsSlot());
    CountUpdate(p.workers, w, pc, IsOpen());
  }

  lemma LaunchInv(s: State, e: Event)
    requires Enabled(s, e) && e.Launch? && SweepInv(s.sweeps[e.i])
    ensures SweepInv(SweepStep(s, e))
  {
    var p := s.sweeps[e.i];
    CountAdds(p.workers, Spawned, HoldsSlot());
    CountAdds(p.workers, Spawned, IsOpen());
    AskedAdds(p.hosts, p.workers);
  }

  lemma AskInv(s: State, e: Event)
    requires Enabled(s, e) && e.Ask? && SweepInv(s.sweeps[e.i])
    ensures SweepInv(SweepStep(s, e))
  {
    var p, pc := s.sweeps[e.i], if s.sweeps[e.i].hosts[e.w] in s.inFlight then Returned else Inspecting;
    SetWorkerCounts(p, e.w, pc);
    AskedUpdate(p.hosts, p.workers, e.w, pc);
    if p.over { CountPositive(p.workers, e.w, IsOpen()); }
  }

  lemma ReturnInv(s: State, e: Event)
    requires Enabled(s, e) && (e.Return? || e.Release? || e.Leave?) && SweepInv(s.sweeps[e.i])
    ensures SweepInv(SweepStep(s, e))
  {
    var p, pc := s.sweeps[e.i], if e.Return? then Returned else if e.Release? then Released else Done;
    SetWorkerCounts(p, e.w, pc);
    AskedUpdate(p.hosts, p.workers, e.w, pc);
    CountPositive(p.workers, e.w, IsOpen());
  }

  lemma {:induction false} CountPositive(workers: seq<Worker>, k: nat, f: Worker -> bool)
    requires k < |workers| && f(workers[k])
    ensures Count(workers, f) > 0
  {
    if k > 0 { CountPositive(workers[1..], k - 1, f); }
  }

  lemma SweepStepInv(s: State, e: Event)
    requires Enabled(s, e) && IsSweepEvent(e) && SweepInv(s.sweeps[e.i])
    ensures SweepInv(SweepStep(s, e))
    ensures SweepStep(s, e).begun == s.sweeps[e.i].begun && SweepStep(s, e).hosts == s.sweeps[e.i].hosts
    ensures !e.Finish? ==> SweepStep(s, e).over == s.sweeps[e.i].over && SweepStep(s, e).ended == s.sweeps[e.i].ended
  {
    if e.Launch? { LaunchInv(s, e); }
    else if e.Ask? { AskInv(s, e); }
    else if !e.Finish? { ReturnInv(s, e); }
  }

  // ---------------------------------------------------------------- the invariant

  /** A sweep starts only after the one before it is over, and then not before the cooldown has passed. */
  ghost predicate Spaced(s: State) {
    forall i | 0 < i < |s.sweeps| :: Follows(s, i)
  }

  predicate Follows(s: State, i: nat)
    requires 0 < i < |s.sweeps|
  {
    s.sweeps[i - 1].over && s.sweeps[i].begun >= s.sweeps[i - 1].ended + COOLDOWN
  }

  /** End of the last sweep that is over. */
  function LastEnd(sweeps: seq<Sweep>): Option<int> {
    var n := |sweeps|;
    if n > 0 && sweeps[n - 1].over then Some(sweeps[n - 1].ended)
    else if n > 1 then Some(sweeps[n - 2].ended)
    else None
  }

  ghost predicate AllSound(s: State) {
    forall i | 0 <= i < |s.sweeps| :: SweepInv(s.sweeps[i])
  }

  predicate FlagRight(s: State) {
    && (s.active <==> s.sweeps != [] && !s.sweeps[|s.sweeps| - 1].over)
    && s.last == LastEnd(s.sweeps)
  }

  /** While a POST holds the lock no sweep is open, and past the cooldown check none ended lately. */
  predicate LockRight(s: State) {
    && (!s.lock.Free? ==> !s.active)
    && (s.lock.Cleared? ==> !InCooldown(s.now, s.last))
    && (s.lock.Counting? ==> s.lock.always <= s.lock.met)
  }

  ghost predicate Inv(s: State) {
    AllSound(s) && Spaced(s) && FlagRight(s) && LockRight(s)
  }

  lemma InitInv(s: State)
    requires Init(s)
    ensures Inv(s)
  {
  }

  /** Only the last sweep can still be open. */
  lemma OpenIsLast(s: State, i: nat)
    requires Inv(s) && i < |s.sweeps| && !s.sweeps[i].over
    ensures i == |s.sweeps| - 1 && s.active
  {
    OverBefore(s, i);
  }

  lemma OverBefore(s: State, i: nat)
    requires Spaced(s) && i < |s.sweeps|
    ensures i + 1 < |s.sweeps| ==> s.sweeps[i].over
  {
    if i + 1 < |s.sweeps| { assert Follows(s, i + 1); }
  }

  lemma SweepEventSpaced(s: State, e: Event)
    requires Spaced(s) && Enabled(s, e) && IsSweepEvent(e)
    requires var p := SweepStep(s, e);
      p.begun == s.sweeps[e.i].begun && (s.sweeps[e.i].over ==> p.over && p.ended == s.sweeps[e.i].ended)
    ensures Spaced(Step(s, e))
  {
    var t, p := Step(s, e), SweepStep(s, e);
    assert t.sweeps == s.sweeps[e.i := p];
    forall i | 0 < i < |t.sweeps| ensures Follows(t, i) {
      assert Follows(s, i);
    }
  }

  lemma SweepEventSound(s: State, e: Event)
    requires AllSound(s) && Enabled(s, e) && IsSweepEvent(e) && SweepInv(SweepStep(s, e))
    ensures AllSound(Step(s, e))
  {
    var t, p := Step(s, e), SweepStep(s, e);
    assert t.sweeps == s.sweeps[e.i := p];
  }

  lemma SweepEventFlag(s: State, e: Event)
    requires FlagRight(s) && Enabled(s, e) && IsSweepEvent(e)
    requires !s.sweeps[e.i].over ==> e.i == |s.sweeps| - 1
    requires !e.Finish? ==>
      SweepStep(s, e).over == s.sweeps[e.i].over && SweepStep(s, e).ended == s.sweeps[e.i].ended
    ensures FlagRight(Step(s, e))
  {
    var t, p := Step(s, e), SweepStep(s, e);
    assert t.sweeps == s.sweeps[e.i := p];
    if !e.Finish? { assert LastEnd(t.sweeps) == LastEnd(s.sweeps); }
  }

  lemma SweepEventInv(s: State, e: Event)
    requires Inv(s) && Enabled(s, e) && IsSweepEvent(e)
    ensures Inv(Step(s, e))
  {
    assert SweepInv(s.sweeps[e.i]);
    SweepStepInv(s, e);
    if !s.sweeps[e.i].over { OpenIsLast(s, e.i); }
    SweepEventSpaced(s, e);
    SweepEventSound(s, e);
    SweepEventFlag(s, e);
    SweepEventLock(s, e);
  }

  lemma SweepEventLock(s: State, e: Event)
    requires LockRight(s) && Enabled(s, e) && IsSweepEvent(e)
    ensures LockRight(Step(s, e))
  {
  }

  lemma NewSweepInv(s: State, hosts: seq<int>, t: State)
    requires AllSound(s) && Spaced(s) && FlagRight(s) && LockRight(s) && s.lock.Cleared? && Distinct(hosts)
    requires t.sweeps == s.sweeps + [NewSweep(hosts, s.now)]
    ensures AllSound(t) && Spaced(t)
  {
    assert SweepInv(NewSweep(hosts, s.now));
    forall i | 0 < i < |t.sweeps| ensures Follows(t, i) {
      assert i < |s.sweeps| ==> Follows(s, i);
    }
  }

  lemma PostInv(s: State, e: Event)
    requires Inv(s) && Enabled(s, e) && e.PostStart?
    ensures Inv(Step(s, e))
  {
    if Step(s, e).active { NewSweepInv(s, e.hosts.value, Step(s, e)); } else { SameSweeps(s, Step(s, e)); }
  }

  lemma SameSweeps(s: State, t: State)
    requires AllSound(s) && Spaced(s) && t.sweeps == s.sweeps
    ensures AllSound(t) && Spaced(t)
  {
    forall i | 0 < i < |t.sweeps| ensures Follows(t, i) { assert Follows(s, i); }
  }

  lemma StepInv(s: State, e: Event)
    requires Inv(s) && Enabled(s, e)
    ensures Inv(Step(s, e))
  {
    if IsSweepEvent(e) { SweepEventInv(s, e); }
    else if e.PostStart? { PostInv(s, e); }
    else { SameSweeps(s, Step(s, e)); }
  }

  lemma {:induction false} RunInv(s: State, events: seq<Event>)
    requires Inv(s) && CanRun(s, events)
    ensures Inv(Exec(s, events))
    decreases |events|
  {
    if events != [] {
      StepInv(s, events[0]);
      RunInv(Step(s, events[0]), events[1..]);
    }
  }

  // ---------------------------------------------------------------- main results

  /** In every interleaving at most one sweep is open, and the flag says whether one is. */
  lemma OneSweepAtATime(s0: State, events: seq<Event>, i: nat, j: nat)
    requires Init(s0) && CanRun(s0, events)
    requires i < |Exec(s0, events).sweeps| && j < |Exec(s0, events).sweeps|
    requires !Exec(s0, events).sweeps[i].over && !Exec(s0, events).sweeps[j].over
    ensures i == j && Exec(s0, events).active
  {
    InitInv(s0);
    RunInv(s0, events);
    OpenIsLast(Exec(s0, events), i);
    OpenIsLast(Exec(s0, events), j);
  }

  /** No sweep ever has more than five inspections running. */
  lemma FiveAtMost(s0: State, events: seq<Event>, i: nat)
    requires Init(s0) && CanRun(s0, events) && i < |Exec(s0, events).sweeps|
    ensures Count(Exec(s0, events).sweeps[i].workers, IsInspecting()) <= 5
  {
    InitInv(s0);
    RunInv(s0, events);
    CountWeakens(Exec(s0, events).sweeps[i].workers, IsInspecting(), HoldsSlot());
  }

  /** And it waits for nothing else: the next host is launched as soon as fewer than five workers hold a slot. */
  lemma LaunchIff(s0: State, events: seq<Event>, i: nat)
    requires Init(s0) && CanRun(s0, events) && i < |Exec(s0, events).sweeps|
    ensures var s := Exec(s0, events);
      Enabled(s, Launch(i)) <==>
        |s.sweeps[i].workers| < |s.sweeps[i].hosts| && Count(s.sweeps[i].workers, HoldsSlot()) < 5
  {
    InitInv(s0);
    RunInv(s0, events);
    assert SweepInv(Exec(s0, events).sweeps[i]);
  }

  /**
    When the flag is clear, every sweep has asked for the inspection of each host of its list
    exactly once, and each of these was either carried out or refused by the in-flight guard.
  */
  lemma EachHostOnce(s0: State, events: seq<Event>, i: nat)
    requires Init(s0) && CanRun(s0, events) && i < |Exec(s0, events).sweeps|
    requires !Exec(s0, events).active || Exec(s0, events).sweeps[i].over
    ensures var p := Exec(s0, events).sweeps[i];
      multiset(p.inspected) + multiset(p.refused) == multiset(p.hosts)
    ensures var p := Exec(s0, events).sweeps[i];
      forall h | h in p.hosts :: (multiset(p.inspected) + multiset(p.refused))[h] == 1
  {
    InitInv(s0);
    RunInv(s0, events);
    var s := Exec(s0, events);
    if !s.sweeps[i].over { OpenIsLast(s, i); }
    var p := s.sweeps[i];
    CountZero(p.workers, IsOpen());
    AllAsked(p.hosts, p.workers);
    forall h | h in p.hosts ensures multiset(p.hosts)[h] == 1 {
      DistinctCount(p.hosts, h);
    }
  }

  lemma {:induction false} DistinctCount(hosts: seq<int>, h: int)
    requires Distinct(hosts)
    ensures multiset(hosts)[h] == (if h in hosts then 1 else 0)
  {
    if hosts != [] {
      assert hosts == [hosts[0]] + hosts[1..];
      assert Distinct(hosts[1..]);
      DistinctCount(hosts[1..], h);
      assert hosts[0] !in hosts[1..];
    }
  }

  /** A sweep never starts before 15 seconds have passed since the end of the one before it. */
  lemma CooldownKept(s0: State, events: seq<Event>, i: nat, j: nat)
    requires Init(s0) && CanRun(s0, events) && i < j < |Exec(s0, events).sweeps|
    ensures var sweeps := Exec(s0, events).sweeps;
      sweeps[i].over && sweeps[j].begun >= sweeps[i].ended + 15_000_000_000
  {
    InitInv(s0);
    RunInv(s0, events);
    var s := Exec(s0, events);
    assert Follows(s, i + 1);
    BegunOrder(s0, events, i + 1, j);
  }

  /** Sweeps are listed in the order they began, and end after they begin. */
  ghost predicate Ordered(s: State) {
    && (forall i | 0 <= i < |s.sweeps| :: s.sweeps[i].begun <= s.sweeps[i].ended <= s.now)
    && (forall i, j | 0 <= i <= j < |s.sweeps| :: s.sweeps[i].begun <= s.sweeps[j].begun)
  }

  lemma {:induction false} RunOrdered(s: State, events: seq<Event>)
    requires Inv(s) && Ordered(s) && CanRun(s, events)
    ensures Ordered(Exec(s, events))
    decreases |events|
  {
    if events != [] {
      StepInv(s, events[0]);
      StepOrdered(s, events[0]);
      RunOrdered(Step(s, events[0]), events[1..]);
    }
  }

  lemma UpdateOrdered(s: State, t: State, i: nat, p: Sweep)
    requires Ordered(s) && s.now <= t.now && i < |s.sweeps| && t.sweeps == s.sweeps[i := p]
    requires p.begun == s.sweeps[i].begun && p.begun <= p.ended <= t.now
    ensures Ordered(t)
  {
    assert forall k | 0 <= k < |t.sweeps| :: t.sweeps[k].begun == s.sweeps[k].begun;
  }

  lemma AppendOrdered(s: State, t: State, p: Sweep)
    requires Ordered(s) && s.now == t.now && t.sweeps == s.sweeps + [p] && p.begun == p.ended == t.now
    ensures Ordered(t)
  {
    forall k | 0 <= k < |s.sweeps| ensures t.sweeps[k].begun <= t.now { assert t.sweeps[k] == s.sweeps[k]; }
  }

  lemma StepOrdered(s: State, e: Event)
    requires Inv(s) && Ordered(s) && Enabled(s, e)
    ensures Ordered(Step(s, e))
  {
    if IsSweepEvent(e) {
      assert SweepInv(s.sweeps[e.i]);
      SweepStepInv(s, e);
      UpdateOrdered(s, Step(s, e), e.i, SweepStep(s, e));
    } else if e.PostStart? && Step(s, e).active && !s.active {
      AppendOrdered(s, Step(s, e), Step(s, e).sweeps[|s.sweeps|]);
    }
  }

  lemma BegunOrder(s0: State, events: seq<Event>, i: nat, j: nat)
    requires Init(s0) && CanRun(s0, events) && i <= j < |Exec(s0, events).sweeps|
    ensures Exec(s0, events).sweeps[i].begun <= Exec(s0, events).sweeps[j].begun
  {
    InitInv(s0);
    RunOrdered(s0, events);
  }

  // ---------------------------------------------------------------- refused hosts

  /** Worker `w` of the last sweep is inspecting `h`. */
  predicate HeldAt(s: State, w: nat, h: int) {
    && s.sweeps != [] && IsWorker(s, |s.sweeps| - 1, w, Inspecting)
    && s.sweeps[|s.sweeps| - 1].hosts[w] == h
  }

  ghost predicate Held(s: State, h: int) {
    exists w: nat :: HeldAt(s, w, h)
  }

  /** Everything in flight was started by the open sweep or by someone else, and never by both. */
  ghost predicate Owned(s: State) {
    && s.others <= s.inFlight
    && (forall h | h in s.inFlight :: h in s.others || Held(s, h))
    && forall w: nat, h | HeldAt(s, w, h) :: h in s.inFlight && h !in s.others
  }

  lemma WorkersAreOfTheLast(s: State, i: nat, w: nat)
    requires Inv(s) && i < |s.sweeps| && w < |s.sweeps[i].workers| && !s.sweeps[i].workers[w].Done?
    ensures i == |s.sweeps| - 1 && s.active
  {
    assert SweepInv(s.sweeps[i]);
    CountPositive(s.sweeps[i].workers, w, IsOpen());
    OpenIsLast(s, i);
  }

  /** The guard turns a worker away exactly when someone outside the sweep is inspecting its host. */
  lemma RefusedIff(s: State, i: nat, w: nat)
    requires Inv(s) && Owned(s) && IsWorker(s, i, w, Spawned)
    ensures s.sweeps[i].hosts[w] in s.inFlight <==> s.sweeps[i].hosts[w] in s.others
  {
    WorkersAreOfTheLast(s, i, w);
    var h := s.sweeps[i].hosts[w];
    assert SweepInv(s.sweeps[i]);
    forall v: nat ensures !HeldAt(s, v, h) {
      assert v < |s.sweeps[i].hosts| && v != w ==> s.sweeps[i].hosts[v] != h;
    }
  }

  lemma HeldStays(s: State, e: Event, h: int)
    requires Enabled(s, e) && (e.Ask? || e.Return? || e.Release? || e.Leave? || e.Launch?) && Held(s, h)
    requires e.Return? ==> h != s.sweeps[e.i].hosts[e.w]
    ensures Held(Step(s, e), h)
  {
    var w: nat :| HeldAt(s, w, h);
    var p := SweepStep(s, e);
    assert Step(s, e).sweeps == s.sweeps[e.i := p];
    if e.i == |s.sweeps| - 1 {
      assert p.hosts == s.sweeps[e.i].hosts && |p.workers| <= |p.hosts| && w < |p.workers|;
      assert !e.Launch? ==> w != e.w;
      assert p.workers[w] == Inspecting;
    }
    assert HeldAt(Step(s, e), w, h);
  }

  lemma LaunchHeld(s: State, e: Event, v: nat, h: int)
    requires Enabled(s, e) && e.Launch? && HeldAt(Step(s, e), v, h)
    ensures HeldAt(s, v, h)
  {
    assert Step(s, e).sweeps == s.sweeps[e.i := SweepStep(s, e)];
  }

  lemma OtherSweepHeld(s: State, e: Event, v: nat, h: int)
    requires Enabled(s, e) && (e.Ask? || e.Return? || e.Release? || e.Leave?) && HeldAt(Step(s, e), v, h)
    requires e.i != |s.sweeps| - 1 || e.w != v
    ensures HeldAt(s, v, h)
  {
    var p := SweepStep(s, e);
    assert Step(s, e).sweeps == s.sweeps[e.i := p];
    assert p.hosts == s.sweeps[e.i].hosts && |p.workers| == |s.sweeps[e.i].workers|;
    assert forall k | 0 <= k < |p.workers| && k != e.w :: p.workers[k] == s.sweeps[e.i].workers[k];
  }

  lemma OwnHeld(s: State, e: Event, h: int)
    requires Enabled(s, e) && (e.Ask? || e.Return? || e.Release? || e.Leave?)
    requires e.i == |s.sweeps| - 1 && HeldAt(Step(s, e), e.w, h)
    ensures e.Ask? && h == s.sweeps[e.i].hosts[e.w] && h !in s.inFlight
  {
    var p := SweepStep(s, e);
    assert Step(s, e).sweeps == s.sweeps[e.i := p];
    assert p.hosts == s.sweeps[e.i].hosts;
  }

  /** Who is inspecting after a worker's step was inspecting before it, or has just been let in. */
  lemma HeldBefore(s: State, e: Event, v: nat, h: int)
    requires Inv(s) && Enabled(s, e) && (e.Ask? || e.Return? || e.Release? || e.Leave? || e.Launch?)
    requires HeldAt(Step(s, e), v, h)
    ensures HeldAt(s, v, h) || (e.Ask? && h == s.sweeps[e.i].hosts[e.w] && h !in s.inFlight)
    ensures e.Return? ==> h != s.sweeps[e.i].hosts[e.w]
  {
    if e.Launch? { LaunchHeld(s, e, v, h); }
    else if e.i != |s.sweeps| - 1 || e.w != v { OtherSweepHeld(s, e, v, h); }
    else { OwnHeld(s, e, h); }
    if e.Return? {
      WorkersAreOfTheLast(s, e.i, e.w);
      assert SweepInv(s.sweeps[e.i]);
    }
  }

  lemma WorkerOwned(s: State, e: Event)
    requires Inv(s) && Owned(s) && Enabled(s, e) && (e.Ask? || e.Return? || e.Release? || e.Leave? || e.Launch?)
    ensures Owned(Step(s, e))
  {
    var t := Step(s, e);
    if e.Return? {
      WorkersAreOfTheLast(s, e.i, e.w);
      assert HeldAt(s, e.w, s.sweeps[e.i].hosts[e.w]);
    }
    if e.Ask? {
      WorkersAreOfTheLast(s, e.i, e.w);
      RefusedIff(s, e.i, e.w);
      AskedHolds(s, e.i, e.w);
    }
    forall h | h in t.inFlight && h !in t.others ensures Held(t, h) {
      if h in s.inFlight { HeldStays(s, e, h); }
    }
    forall v: nat, h | HeldAt(t, v, h) ensures h in t.inFlight && h !in t.others {
      HeldBefore(s, e, v, h);
    }
  }

  lemma AskedHolds(s: State, i: nat, w: nat)
    requires s.sweeps != [] && i == |s.sweeps| - 1 && Enabled(s, Ask(i, w))
    ensures s.sweeps[i].hosts[w] !in s.inFlight ==> Held(Step(s, Ask(i, w)), s.sweeps[i].hosts[w])
  {
    if s.sweeps[i].hosts[w] !in s.inFlight {
      assert HeldAt(Step(s, Ask(i, w)), w, s.sweeps[i].hosts[w]);
    }
  }

  lemma FinishOwned(s: State, e: Event)
    requires Inv(s) && Owned(s) && Enabled(s, e) && (e.Finish? || e.PostStart?)
    ensures Owned(Step(s, e))
  {
    if s.sweeps != [] {
      var p := s.sweeps[|s.sweeps| - 1];
      assert SweepInv(p);
      if e.Finish? { OpenIsLast(s, e.i); }
      CountZero(p.workers, IsOpen());
      forall w: nat, h ensures !HeldAt(s, w, h) {
        assert w < |p.workers| ==> p.workers[w] in p.workers;
      }
    }
    forall w: nat, h ensures !HeldAt(Step(s, e), w, h) {
      assert !HeldAt(s, w, h);
    }
  }

  lemma OtherOwned(s: State, e: Event)
    requires Inv(s) && Owned(s) && Enabled(s, e) && !IsSweepEvent(e) && !e.PostStart?
    ensures Owned(Step(s, e))
  {
    var t := Step(s, e);
    assert forall w: nat, h :: HeldAt(t, w, h) == HeldAt(s, w, h);
    forall h | h in t.inFlight && h !in t.others ensures Held(t, h) {
      var w: nat :| HeldAt(s, w, h);
      assert HeldAt(t, w, h);
    }
  }

  lemma StepOwned(s: State, e: Event)
    requires Inv(s) && Owned(s) && Enabled(s, e)
    ensures Owned(Step(s, e))
  {
    if e.Finish? || e.PostStart? { FinishOwned(s, e); }
    else if IsSweepEvent(e) { WorkerOwned(s, e); }
    else { OtherOwned(s, e); }
  }

  function RefusedOf(s: State, i: nat): seq<int> {
    if i < |s.sweeps| then s.sweeps[i].refused else []
  }

  /** The host that a worker of sweep `i` asks for while someone outside the sweep is inspecting it. */
  function TakenBy(s: State, e: Event, i: nat): seq<int>
    requires Enabled(s, e)
  {
    if e.Ask? && e.i == i && s.sweeps[i].hosts[e.w] in s.others then [s.sweeps[i].hosts[e.w]] else []
  }

  /** All of them over a run. */
  function Taken(s: State, events: seq<Event>, i: nat): seq<int>
    requires CanRun(s, events)
    decreases |events|
  {
    if events == [] then [] else TakenBy(s, events[0], i) + Taken(Step(s, events[0]), events[1..], i)
  }

  lemma StepRefuses(s: State, e: Event, i: nat)
    requires Inv(s) && Owned(s) && Enabled(s, e)
    ensures RefusedOf(Step(s, e), i) == RefusedOf(s, i) + TakenBy(s, e, i)
  {
    if e.Ask? { RefusedIff(s, e.i, e.w); }
  }

  lemma Regroup(a: seq<int>, b: seq<int>, c: seq<int>)
    ensures (a + b) + c == a + (b + c)
  {
  }

  lemma StepKeeps(s: State, e: Event)
    requires Inv(s) && Owned(s) && Enabled(s, e)
    ensures Inv(Step(s, e)) && Owned(Step(s, e))
  {
    StepInv(s, e);
    StepOwned(s, e);
  }

  lemma {:induction false} RunRefuses(s: State, events: seq<Event>, i: nat)
    requires Inv(s) && Owned(s) && CanRun(s, events)
    ensures RefusedOf(Exec(s, events), i) == RefusedOf(s, i) + Taken(s, events, i)
    decreases |events|
  {
    if events == [] {
      assert RefusedOf(s, i) + [] == RefusedOf(s, i);
    } else {
      StepKeeps(s, events[0]);
      StepRefuses(s, events[0], i);
      RunRefuses(Step(s, events[0]), events[1..], i);
      Regroup(RefusedOf(s, i), TakenBy(s, events[0], i), Taken(Step(s, events[0]), events[1..], i));
    }
  }

  /**
    The exact condition: a finished sweep has inspected a host of its list exactly once unless
    someone else was inspecting it when its worker asked, and then not at all.
  */
  lemma InspectedIff(s0: State, events: seq<Event>, i: nat, h: int)
    requires Init(s0) && CanRun(s0, events) && i < |Exec(s0, events).sweeps|
    requires Exec(s0, events).sweeps[i].over && h in Exec(s0, events).sweeps[i].hosts
    ensures var p, taken := Exec(s0, events).sweeps[i], Taken(s0, events, i);
      && p.refused == taken
      && multiset(p.inspected)[h] == (if h in taken then 0 else 1)
  {
    InitInv(s0);
    RunRefuses(s0, events, i);
    EachHostOnce(s0, events, i);
    var p := Exec(s0, events).sweeps[i];
    assert h in p.refused <==> multiset(p.refused)[h] > 0;
  }

  /** So a finished sweep has inspected its whole list exactly when no worker found its host taken. */
  lemma InspectedAllIff(s0: State, events: seq<Event>, i: nat)
    requires Init(s0) && CanRun(s0, events) && i < |Exec(s0, events).sweeps|
    requires Exec(s0, events).sweeps[i].over
    ensures multiset(Exec(s0, events).sweeps[i].inspected) == multiset(Exec(s0, events).sweeps[i].hosts)
      <==> Taken(s0, events, i) == []
  {
    InitInv(s0);
    RunRefuses(s0, events, i);
    EachHostOnce(s0, events, i);
    var p := Exec(s0, events).sweeps[i];
    if p.refused == [] {
      assert multiset(p.inspected) + multiset([]) == multiset(p.inspected);
    } else {
      assert |multiset(p.inspected)| + |multiset(p.refused)| == |multiset(p.hosts)|;
      assert |multiset(p.refused)| == |p.refused| > 0;
    }
  }

  // ---------------------------------------------------------------- undisturbed sweeps

  /** From the moment a POST begins to count until its sweep is over, no other inspection starts. */
  predicate Undisturbed(s: State, events: seq<Event>)
    requires CanRun(s, events)
    decreases |events|
  {
    events == []
    || (!((s.active || !s.lock.Free?) && events[0].OtherStart?) && Undisturbed(Step(s, events[0]), events[1..]))
  }

  /** What the count leaves of other inspections. */
  predicate Calm(s: State) {
    && (s.active || s.lock.Cleared? ==> s.others == {})
    && (s.lock.Counting? ==> s.others <= s.lock.always)
  }

  lemma StepCalm(s: State, e: Event)
    requires Inv(s) && Owned(s) && Calm(s) && Enabled(s, e)
    requires !((s.active || !s.lock.Free?) && e.OtherStart?)
    ensures Calm(Step(s, e))
  {
    if e.Return? {
      WorkersAreOfTheLast(s, e.i, e.w);
      assert HeldAt(s, e.w, s.sweeps[e.i].hosts[e.w]);
    }
  }

  lemma {:induction false} NothingTaken(s: State, events: seq<Event>, i: nat)
    requires Inv(s) && Owned(s) && Calm(s) && CanRun(s, events) && Undisturbed(s, events)
    ensures Taken(s, events, i) == []
    decreases |events|
  {
    if events != [] {
      StepInv(s, events[0]);
      StepOwned(s, events[0]);
      StepCalm(s, events[0]);
      if events[0].Ask? { WorkersAreOfTheLast(s, events[0].i, events[0].w); }
      NothingTaken(Step(s, events[0]), events[1..], i);
    }
  }

  /** Undisturbed from the count on, a finished sweep has inspected each listed host once. */
  lemma UndisturbedSweepInspectsAll(s0: State, events: seq<Event>, i: nat)
    requires Init(s0) && CanRun(s0, events) && Undisturbed(s0, events)
    requires i < |Exec(s0, events).sweeps| && Exec(s0, events).sweeps[i].over
    ensures multiset(Exec(s0, events).sweeps[i].inspected) == multiset(Exec(s0, events).sweeps[i].hosts)
  {
    InitInv(s0);
    NothingTaken(s0, events, i);
    InspectedAllIff(s0, events, i);
  }

  /** No other inspection starts while the flag is up. */
  predicate QuietWhileActive(s: State, events: seq<Event>)
    requires CanRun(s, events)
    decreases |events|
  {
    events == [] || (!(s.active && events[0].OtherStart?) && QuietWhileActive(Step(s, events[0]), events[1..]))
  }

  lemma Prepend(s: State, e: Event, rest: seq<Event>) returns (events: seq<Event>)
    requires Enabled(s, e) && CanRun(Step(s, e), rest)
    requires !(s.active && e.OtherStart?) && QuietWhileActive(Step(s, e), rest)
    ensures CanRun(s, events) && Exec(s, events) == Exec(Step(s, e), rest) && QuietWhileActive(s, events)
  {
    events := [e] + rest;
    assert events[1..] == rest;
  }

  lemma RefusedSweep(h: int) returns (events: seq<Event>)
    ensures var s := State(0, Free, true, None, {h}, {h}, [NewSweep([h], 0)]);
      && CanRun(s, events) && QuietWhileActive(s, events)
      && Exec(s, events).sweeps == [Sweep([h], [Done], 0, 0, [], [h], 0, true, 0)]
  {
    var s := State(0, Free, true, None, {h}, {h}, [NewSweep([h], 0)]);
    var s1 := Step(s, Launch(0));
    assert s1.sweeps[0].workers == [Spawned];
    var s2 := Step(s1, Ask(0, 0));
    assert s2.sweeps[0] == Sweep([h], [Returned], 1, 1, [], [h], 0, false, 0);
    var s3 := Step(s2, Release(0, 0));
    assert s3.sweeps[0] == Sweep([h], [Released], 0, 1, [], [h], 0, false, 0);
    var s4 := Step(s3, Leave(0, 0));
    assert s4.sweeps[0] == Sweep([h], [Done], 0, 0, [], [h], 0, false, 0);
    events := Prepend(s4, Finish(0), []);
    events := Prepend(s3, Leave(0, 0), events);
    events := Prepend(s2, Release(0, 0), events);
    events := Prepend(s1, Ask(0, 0), events);
    events := Prepend(s, Launch(0), events);
  }

  /**
    It is not enough that nothing else starts while the flag is up.  The count does not keep
    inspections out: one that starts between the count and the flag leaves its host uninspected.
  */
  lemma CountLeavesAGap(h: int) returns (s0: State, events: seq<Event>)
    ensures Init(s0) && CanRun(s0, events) && QuietWhileActive(s0, events)
    ensures Exec(s0, events).sweeps == [Sweep([h], [Done], 0, 0, [], [h], 0, true, 0)]
  {
    s0 := State(0, Free, false, None, {}, {}, []);
    var s1 := Step(s0, PostEnter);
    var s2 := Step(s1, PostCount(false));
    var s3 := Step(s2, OtherStart(h));
    var start := PostStart(Some([h]));
    assert Step(s3, start) == State(0, Free, true, None, {h}, {h}, [NewSweep([h], 0)]);
    events := RefusedSweep(h);
    events := Prepend(s3, start, events);
    events := Prepend(s2, OtherStart(h), events);
    events := Prepend(s1, PostCount(false), events);
    events := Prepend(s0, PostEnter, events);
  }

  // ---------------------------------------------------------------- a sweep ends

  /** Some worker that is not done, or none. */
  lemma {:induction false} FindOpen(workers: seq<Worker>) returns (w: nat)
    ensures w <= |workers|
    ensures w < |workers| ==> !workers[w].Done?
    ensures w == |workers| ==> Count(workers, IsOpen()) == 0 && Count(workers, HoldsSlot()) == 0
  {
    if workers == [] {
      w := 0;
    } else if !workers[0].Done? {
      w := 0;
    } else {
      w := FindOpen(workers[1..]);
      w := w + 1;
    }
  }

  /** An open sweep is never stuck: one of its own steps is always possible. */
  lemma NeverStuck(s: State) returns (e: Event)
    requires Inv(s) && s.active
    ensures IsSweepEvent(e) && e.i == |s.sweeps| - 1 && Enabled(s, e)
  {
    var i := |s.sweeps| - 1;
    var p := s.sweeps[i];
    assert SweepInv(p);
    var w := FindOpen(p.workers);
    if w == |p.workers| {
      e := if |p.workers| < |p.hosts| then Launch(i) else Finish(i);
    } else {
      CountPositive(p.workers, w, IsOpen());
      if HoldsSlot()(p.workers[w]) { CountPositive(p.workers, w, HoldsSlot()); }
      e := match p.workers[w]
        case Spawned => Ask(i, w)
        case Inspecting => Return(i, w)
        case Returned => Release(i, w)
        case Released => Leave(i, w)
        case Done => Finish(i);
    }
  }

  /** Steps a worker still has to take. */
  function Rank(w: Worker): nat {
    match w
    case Spawned => 4
    case Inspecting => 3
    case Returned => 2
    case Released => 1
    case Done => 0
  }

  function Ranks(workers: seq<Worker>): nat {
    if workers == [] then 0 else Rank(workers[0]) + Ranks(workers[1..])
  }

  /** A bound on the steps an open sweep still takes. */
  function Remaining(p: Sweep): nat
    requires |p.workers| <= |p.hosts|
  {
    5 * (|p.hosts| - |p.workers|) + Ranks(p.workers) + (if p.over then 0 else 1)
  }

  lemma {:induction false} RanksAdds(workers: seq<Worker>, w: Worker)
    ensures Ranks(workers + [w]) == Ranks(workers) + Rank(w)
  {
    if workers == [] {
      assert [] + [w] == [w];
    } else {
      RanksAdds(workers[1..], w);
      assert (workers + [w])[1..] == workers[1..] + [w];
    }
  }

  lemma {:induction false} RanksUpdate(workers: seq<Worker>, k: nat, w: Worker)
    requires k < |workers|
    ensures Ranks(workers[k := w]) + Rank(workers[k]) == Ranks(workers) + Rank(w)
  {
    if k == 0 {
      assert workers[k := w][1..] == workers[1..];
    } else {
      RanksUpdate(workers[1..], k - 1, w);
      assert workers[k := w][1..] == workers[1..][k - 1 := w];
    }
  }

  lemma WorkerRank(p: Sweep, w: nat, pc: Worker)
    requires w < |p.workers| && Rank(pc) < Rank(p.workers[w])
    ensures Ranks(p.workers[w := pc]) < Ranks(p.workers)
  {
    RanksUpdate(p.workers, w, pc);
  }

  lemma LaunchRank(p: Sweep)
    requires |p.workers| < |p.hosts|
    ensures Ranks(p.workers + [Spawned]) == Ranks(p.workers) + 4
  {
    RanksAdds(p.workers, Spawned);
  }

  /** Every own step brings a sweep closer to its end: it takes at most 5 * hosts + 1 of them. */
  lemma StepsRunOut(s: State, e: Event)
    requires Inv(s) && Enabled(s, e) && IsSweepEvent(e)
    ensures |SweepStep(s, e).workers| <= |SweepStep(s, e).hosts|
    ensures Remaining(SweepStep(s, e)) < Remaining(s.sweeps[e.i]) <= 5 * |s.sweeps[e.i].hosts| + 1
  {
    var p := s.sweeps[e.i];
    assert SweepInv(p);
    RanksBound(p.workers);
    if e.Launch? {
      LaunchRank(p);
    } else if !e.Finish? {
      var pc := SweepStep(s, e).workers[e.w];
      WorkerRank(p, e.w, pc);
    }
  }

  lemma {:induction false} RanksBound(workers: seq<Worker>)
    ensures Ranks(workers) <= 4 * |workers|
  {
    if workers != [] { RanksBound(workers[1..]); }
  }

  // ---------------------------------------------------------------- the two requests

  /** The answer to a GET. */
  function Status(now: int, active: bool, last: Option<int>, inFlight: set<int>): (r: (bool, int)) {
    (active || inFlight != {},
     if InCooldown(now, last) then CeilSeconds(COOLDOWN - (now - last.value)) else 0)
  }

  /**
    The answer of a POST, case by case: an inspection in flight comes before the cooldown, the
    cooldown before the host list, and only a list with hosts starts a sweep.
  */
  lemma AnswersIff(now: int, active: bool, last: Option<int>, inFlight: set<int>, hosts: Option<seq<int>>)
    ensures var r := Respond(now, active, last, inFlight, hosts);
      var (busy, cooling) := (active || |inFlight| > 0, last.Some? && now - last.value < 15_000_000_000);
      && (r.Conflict? <==> busy)
      && (r.TooSoon? <==> !busy && cooling)
      && (r.ListFailed? <==> !busy && !cooling && hosts.None?)
      && (r.NoHosts? <==> !busy && !cooling && hosts == Some([]))
      && (r.Started? <==> !busy && !cooling && hosts.Some? && |hosts.value| > 0)
      && (r.Started? ==> r.count == |hosts.value|)
  {
    assert |inFlight| == 0 <==> inFlight == {};
  }

  /** What a GET says is what a POST at that moment would meet. */
  lemma StatusPredictsPost(now: int, active: bool, last: Option<int>, inFlight: set<int>, hosts: seq<int>)
    requires hosts != []
    ensures var (busy, remaining) := Status(now, active, last, inFlight);
      && (Respond(now, active, last, inFlight, Some(hosts)) == Started(|hosts|) <==> !busy && remaining <= 0)
      && (!busy && remaining > 0 ==> Respond(now, active, last, inFlight, Some(hosts)) == TooSoon(remaining))
  {
    if last.Some? && now - last.value < COOLDOWN {
      assert COOLDOWN - (now - last.value) >= 1;
    }
  }

  /** The seconds a refused POST is told are enough, and one second fewer is not. */
  lemma RemainingIsExact(now: int, last: int, hosts: seq<int>, later: nat)
    requires now - last < COOLDOWN && hosts != []
    ensures var r := Respond(now, false, Some(last), {}, Some(hosts));
      && r.TooSoon? && r.remaining >= 1
      && (later >= r.remaining ==> Respond(now + later * SECOND, false, Some(last), {}, Some(hosts)).Started?)
      && (later < r.remaining ==> Respond(now + later * SECOND, false, Some(last), {}, Some(hosts)).TooSoon?)
  {
    var d := COOLDOWN - (now - last);
    var r := CeilSeconds(d);
    assert (r - 1) * SECOND < d <= r * SECOND;
  }

  /** The server behind the endpoint; ghost fields complete the state of the machine. */
  class Server {
    var now: int                       // the clock
    var inspectAllActive: bool
    var lastInspectAll: Option<int>
    var inFlight: set<int>             // the inspector's table
    ghost var others: set<int>
    ghost var sweeps: seq<Sweep>

    ghost function Abs(): State
      reads this
    {
      State(now, Free, inspectAllActive, lastInspectAll, inFlight, others, sweeps)
    }

    constructor (now: int)
      ensures Init(Abs()) && this.now == now
    {
      this.now, inspectAllActive, lastInspectAll := now, false, None;
      inFlight, others, sweeps := {}, {}, [];
    }

    /** A POST with no other goroutine in between is a run of the machine and gets its answer. */
    method Post(listed: Option<seq<int>>) returns (r: Response, ghost events: seq<Event>)
      requires listed.Some? ==> Distinct(listed.value)
      modifies this`inspectAllActive, this`sweeps
      ensures CanRun(old(Abs()), events) && Abs() == Exec(old(Abs()), events)
      ensures r == Respond(now, old(inspectAllActive), lastInspectAll, inFlight, listed)
      ensures inspectAllActive == (old(inspectAllActive) || r.Started?)
    {
      events := PostRun(Abs(), listed);
      if inspectAllActive || inFlight != {} { return Conflict, events; }
      if lastInspectAll.Some? {
        var elapsed := now - lastInspectAll.value;
        if elapsed < COOLDOWN { return TooSoon(CeilSeconds(COOLDOWN - elapsed)), events; }
      }
      if listed.None? { return ListFailed, events; }
      if listed.value == [] { return NoHosts, events; }
      inspectAllActive := true;
      sweeps := sweeps + [NewSweep(listed.value, now)];
      return Started(|listed.value|), events;
    }

    /** The deferred function of the sweep goroutine is the step that closes the sweep. */
    method Finish(ghost i: nat)
      requires Enabled(Abs(), Event.Finish(i))
      modifies this`inspectAllActive, this`lastInspectAll, this`sweeps
      ensures Abs() == Step(old(Abs()), Event.Finish(i))
    {
      sweeps := sweeps[i := SweepStep(Abs(), Event.Finish(i))];
      inspectAllActive := false;
      lastInspectAll := Some(now);
    }
  }

  /** The steps of an undisturbed POST. */
  lemma PostRun(s: State, listed: Option<seq<int>>) returns (events: seq<Event>)
    requires s.lock.Free? && (listed.Some? ==> Distinct(listed.value))
    ensures CanRun(s, events)
    ensures Exec(s, events) ==
      if Respond(s.now, s.active, s.last, s.inFlight, listed).Started?
      then s.(active := true, sweeps := s.sweeps + [NewSweep(listed.value, s.now)]) else s
  {
    if s.active {
      events := Prefix(s, PostEnter, []);
    } else {
      var t := Step(s, PostEnter);
      var busy := s.inFlight != {};
      var u := Step(t, PostCount(busy));
      if u.lock.Free? {
        events := Prefix(t, PostCount(busy), []);
      } else {
        events := Prefix(u, PostStart(listed), []);
        events := Prefix(t, PostCount(busy), events);
      }
      events := Prefix(s, PostEnter, events);
    }
  }

  /** With nothing in flight, a POST starts a sweep exactly once fifteen seconds have passed since the last one. */
  lemma PostAfterWait(s: State, d: nat, hosts: seq<int>) returns (events: seq<Event>)
    requires s.lock.Free? && !s.active && s.inFlight == {} && hosts != [] && Distinct(hosts)
    ensures CanRun(s, [Tick(d)] + events)
    ensures var t := Exec(s, [Tick(d)] + events);
      && t.active == (s.last.None? || s.now + d - s.last.value >= 15_000_000_000)
      && t.sweeps == s.sweeps + (if t.active then [NewSweep(hosts, s.now + d)] else [])
  {
    events := PostRun(Step(s, Tick(d)), Some(hosts));
    assert ([Tick(d)] + events)[1..] == events;
    assert s.sweeps + [] == s.sweeps;
  }

  lemma Prefix(s: State, e: Event, rest: seq<Event>) returns (events: seq<Event>)
    requires Enabled(s, e) && CanRun(Step(s, e), rest)
    ensures CanRun(s, events) && Exec(s, events) == Exec(Step(s, e), rest)
  {
    events := [e] + rest;
    assert events[1..] == rest;
  }
}
