/**
  The log broadcaster: a ring buffer of the last events and a fan-out to subscriber channels.
  Committing an event (number, ring buffer, list of subscribers) happens under the lock; the
  sends that follow do not, so sends of several broadcasts, receives, subscriptions and
  unsubscriptions interleave freely.  Each of them is one atomic step here.

  `log` holds every event ever committed, and a channel remembers what was received from it
  and what was dropped; none of these influences a step.
*/
module Broadcaster {

  const CHANNEL_SIZE: nat := 64

  datatype Event = Event(id: nat, message: string)

  datatype Channel = Channel(
    queue: seq<Event>,      // the buffered Go channel
    received: seq<Event>,
    dropped: seq<Event>,
    joined: nat,            // number of commits when it was subscribed
    left: nat)              // number of commits when it was unsubscribed

  datatype State = State(
    cap: nat,
    nextID: nat,
    ring: seq<Event>,
    subscribers: set<nat>,
    channels: map<nat, Channel>,
    sends: map<Event, set<nat>>,  // broadcasts past the lock, with the channels still to be offered the event
    log: seq<Event>)

  datatype Op =
    | Commit(message: string)
    | Send(e: Event, target: nat)
    | Receive(ch: nat)
    | Subscribe(ch: nat)
    | Unsubscribe(ch: nat)

  function Init(cap: nat): State {
    State(cap, 0, [], {}, map[], map[], [])
  }

  predicate Enabled(s: State, op: Op) {
    match op
    case Commit(_) => true
    case Send(e, ch) => e in s.sends && ch in s.sends[e] && ch in s.channels
    case Receive(ch) => ch in s.channels && s.channels[ch].queue != []
    case Subscribe(ch) => ch !in s.channels
    case Unsubscribe(ch) => ch in s.subscribers && ch in s.channels
  }

  /** The ring buffer after one more event. */
  function Push(ring: seq<Event>, cap: nat, e: Event): seq<Event> {
    if |ring| >= cap && ring != [] then ring[1..] + [e] else ring + [e]
  }

  /** A send that never waits: a full channel loses the event. */
  function Offer(c: Channel, e: Event): Channel {
    if |c.queue| < CHANNEL_SIZE then c.(queue := c.queue + [e]) else c.(dropped := c.dropped + [e])
  }

  function Step(s: State, op: Op): State
    requires Enabled(s, op)
  {
    match op
    case Commit(message) =>
      var e := Event(s.nextID + 1, message);
      s.(nextID := s.nextID + 1, ring := Push(s.ring, s.cap, e), log := s.log + [e],
         sends := s.sends[e := s.subscribers])
    case Send(e, ch) =>
      s.(sends := s.sends[e := s.sends[e] - {ch}], channels := s.channels[ch := Offer(s.channels[ch], e)])
    case Receive(ch) =>
      var c := s.channels[ch];
      s.(channels := s.channels[ch := c.(queue := c.queue[1..], received := c.received + [c.queue[0]])])
    case Subscribe(ch) =>
      s.(channels := s.channels[ch := Channel([], [], [], |s.log|, |s.log|)], subscribers := s.subscribers + {ch})
    case Unsubscribe(ch) =>
      s.(channels := s.channels[ch := s.channels[ch].(left := |s.log|)], subscribers := s.subscribers - {ch})
  }

  predicate CanRun(s: State, ops: seq<Op>)
    decreases |ops|
  {
    ops == [] || (Enabled(s, ops[0]) && CanRun(Step(s, ops[0]), ops[1..]))
  }

  function Exec(s: State, ops: seq<Op>): State
    requires CanRun(s, ops)
    decreases |ops|
  {
    if ops == [] then s else Exec(Step(s, ops[0]), ops[1..])
  }

  // ---------------------------------------------------------------- the invariant

  /** The last `n` elements, or all of them. */
  function Last(log: seq<Event>, n: nat): seq<Event> {
    if |log| <= n then log else log[|log| - n..]
  }

  predicate Numbered(log: seq<Event>) {
    forall i | 0 <= i < |log| :: log[i].id == i + 1
  }

  /** The channel was subscribed when the events joined+1 .. Until were committed. */
  function Until(s: State, ch: nat): nat
    requires ch in s.channels
  {
    if ch in s.subscribers then |s.log| else s.channels[ch].left
  }

  predicate Owed(s: State, ch: nat, e: Event)
    requires ch in s.channels
  {
    s.channels[ch].joined < e.id <= Until(s, ch) && e.id <= |s.log| && s.log[e.id - 1] == e
  }

  predicate InFlight(s: State, ch: nat, e: Event) {
    e in s.sends && ch in s.sends[e]
  }

  function Copies(c: Channel, e: Event): nat {
    multiset(c.received)[e] + multiset(c.queue)[e] + multiset(c.dropped)[e]
  }

  /** `e` is received, queued, dropped or in flight, once in all, exactly when it is owed. */
  predicate Balanced(s: State, ch: nat, e: Event)
    requires ch in s.channels
  {
    Copies(s.channels[ch], e) + (if InFlight(s, ch, e) then 1 else 0) == (if Owed(s, ch, e) then 1 else 0)
  }

  ghost predicate ChannelInv(s: State, ch: nat)
    requires ch in s.channels
  {
    var c := s.channels[ch];
    && c.joined <= Until(s, ch) <= |s.log|
    && |c.queue| <= CHANNEL_SIZE
    && (c.dropped != [] ==> Until(s, ch) - c.joined > CHANNEL_SIZE)
    && forall e :: Balanced(s, ch, e)
  }

  ghost predicate BaseInv(s: State) {
    && s.cap > 0 && s.nextID == |s.log| && Numbered(s.log)
    && s.ring == Last(s.log, s.cap)
    && s.subscribers <= s.channels.Keys
    && forall e | e in s.sends :: e.id <= |s.log| && s.sends[e] <= s.channels.Keys
  }

  ghost predicate Inv(s: State) {
    BaseInv(s) && forall ch | ch in s.channels :: ChannelInv(s, ch)
  }

  lemma InitInv(cap: nat)
    requires cap > 0
    ensures Inv(Init(cap))
  {
  }

  lemma PushKeepsLast(log: seq<Event>, cap: nat, e: Event)
    requires cap > 0
    ensures Push(Last(log, cap), cap, e) == Last(log + [e], cap)
  {
  }

  lemma CommitInv(s: State, message: string, ch: nat)
    requires Inv(s) && ch in s.channels
    ensures ChannelInv(Step(s, Commit(message)), ch)
  {
    var t := Step(s, Commit(message));
    var e := Event(s.nextID + 1, message);
    forall x ensures Balanced(t, ch, x) {
      assert Balanced(s, ch, x);
      if x == e {
        assert e !in s.sends;
        assert t.log[|s.log|] == e;
      } else {
        assert InFlight(t, ch, x) == InFlight(s, ch, x);
        assert Owed(t, ch, x) == Owed(s, ch, x);
      }
    }
  }

  lemma OfferCopies(c: Channel, e: Event, x: Event)
    ensures Copies(Offer(c, e), x) == Copies(c, x) + (if x == e then 1 else 0)
  {
  }

  /** What is received, queued or dropped on a channel was owed to it, so it fits in the window. */
  lemma CopiesFit(s: State, ch: nat, e: Event)
    requires Inv(s) && ch in s.channels && InFlight(s, ch, e)
    ensures |s.channels[ch].queue| + 1 <= Until(s, ch) - s.channels[ch].joined
  {
    var c := s.channels[ch];
    var window := s.log[c.joined..Until(s, ch)];
    forall x ensures multiset(c.queue + [e])[x] <= multiset(window)[x] {
      assert Balanced(s, ch, x);
      WindowCount(s, ch, x);
      assert multiset(c.queue + [e])[x] == multiset(c.queue)[x] + (if x == e then 1 else 0);
    }
    assert multiset(c.queue + [e]) <= multiset(window);
    SubsetSize(multiset(c.queue + [e]), multiset(window));
    assert |multiset(c.queue + [e])| == |c.queue + [e]| && |multiset(window)| == |window|;
  }

  lemma SubsetSize(a: multiset<Event>, b: multiset<Event>)
    requires a <= b
    ensures |a| <= |b|
  {
    assert b == a + (b - a);
  }

  /** Numbers are unique, so the window holds each owed event once and nothing else. */
  lemma WindowCount(s: State, ch: nat, e: Event)
    requires Numbered(s.log) && ch in s.channels && s.channels[ch].joined <= Until(s, ch) <= |s.log|
    ensures multiset(s.log[s.channels[ch].joined..Until(s, ch)])[e] == (if Owed(s, ch, e) then 1 else 0)
  {
    NumberedCount(s.log, s.channels[ch].joined, Until(s, ch), e);
  }

  lemma {:induction false} NumberedCount(log: seq<Event>, lo: nat, hi: nat, e: Event)
    requires Numbered(log) && lo <= hi <= |log|
    ensures multiset(log[lo..hi])[e] == (if lo < e.id <= hi && log[e.id - 1] == e then 1 else 0)
    decreases hi - lo
  {
    if lo < hi {
      NumberedCount(log, lo, hi - 1, e);
      assert log[lo..hi] == log[lo..hi - 1] + [log[hi - 1]];
    }
  }

  lemma SendInv(s: State, e: Event, target: nat, ch: nat)
    requires Inv(s) && Enabled(s, Send(e, target)) && ch in s.channels
    ensures ChannelInv(Step(s, Send(e, target)), ch)
  {
    var t := Step(s, Send(e, target));
    if ch == target { CopiesFit(s, ch, e); }
    forall x ensures Balanced(t, ch, x) {
      assert Balanced(s, ch, x);
      if ch == target { OfferCopies(s.channels[ch], e, x); }
      assert Owed(t, ch, x) == Owed(s, ch, x);
      assert InFlight(t, ch, x) == (InFlight(s, ch, x) && !(ch == target && x == e));
    }
  }

  lemma ReceiveInv(s: State, from: nat, ch: nat)
    requires Inv(s) && Enabled(s, Receive(from)) && ch in s.channels
    ensures ChannelInv(Step(s, Receive(from)), ch)
  {
    var t := Step(s, Receive(from));
    var c := s.channels[ch];
    forall x ensures Balanced(t, ch, x) {
      assert Balanced(s, ch, x);
      if ch == from {
        assert c.queue == [c.queue[0]] + c.queue[1..];
        assert multiset(c.queue)[x] == multiset(c.queue[1..])[x] + (if x == c.queue[0] then 1 else 0);
      }
      assert Owed(t, ch, x) == Owed(s, ch, x);
    }
  }

  lemma SubscriptionInv(s: State, op: Op, ch: nat)
    requires Inv(s) && Enabled(s, op) && (op.Subscribe? || op.Unsubscribe?) && ch in Step(s, op).channels
    ensures ChannelInv(Step(s, op), ch)
  {
    var t := Step(s, op);
    forall x ensures Balanced(t, ch, x) {
      if ch in s.channels {
        assert Balanced(s, ch, x);
        assert Owed(t, ch, x) == Owed(s, ch, x);
      } else {
        assert !InFlight(s, ch, x);
      }
    }
  }

  lemma StepBase(s: State, op: Op)
    requires BaseInv(s) && Enabled(s, op)
    ensures BaseInv(Step(s, op))
  {
    if op.Commit? {
      PushKeepsLast(s.log, s.cap, Event(s.nextID + 1, op.message));
    } else if op.Send? {
      assert s.sends[op.e] - {op.target} <= s.sends[op.e];
    }
  }

  lemma StepChannel(s: State, op: Op, ch: nat)
    requires Inv(s) && Enabled(s, op) && ch in Step(s, op).channels
    ensures ChannelInv(Step(s, op), ch)
  {
    if op.Commit? { CommitInv(s, op.message, ch); }
    else if op.Send? { SendInv(s, op.e, op.target, ch); }
    else if op.Receive? { ReceiveInv(s, op.ch, ch); }
    else { SubscriptionInv(s, op, ch); }
  }

  lemma StepInv(s: State, op: Op)
    requires Inv(s) && Enabled(s, op)
    ensures Inv(Step(s, op))
  {
    StepBase(s, op);
    forall ch | ch in Step(s, op).channels ensures ChannelInv(Step(s, op), ch) {
      StepChannel(s, op, ch);
    }
  }

  lemma {:induction false} RunInv(s: State, ops: seq<Op>)
    requires Inv(s) && CanRun(s, ops)
    ensures Inv(Exec(s, ops))
    ensures s.log <= Exec(s, ops).log
    decreases |ops|
  {
    if ops != [] {
      StepInv(s, ops[0]);
      RunInv(Step(s, ops[0]), ops[1..]);
    }
  }

  // ---------------------------------------------------------------- history

  function Commits(ops: seq<Op>): seq<string> {
    if ops == [] then []
    else (if ops[0].Commit? then [ops[0].message] else []) + Commits(ops[1..])
  }

  /** The messages as events, numbered from `from` + 1. */
  function NumberFrom(messages: seq<string>, from: nat): seq<Event> {
    seq(|messages|, i requires 0 <= i < |messages| => Event(from + i + 1, messages[i]))
  }

  lemma {:induction false} LogIsCommits(s: State, ops: seq<Op>)
    requires CanRun(s, ops) && s.nextID == |s.log|
    ensures Exec(s, ops).log == s.log + NumberFrom(Commits(ops), |s.log|)
    decreases |ops|
  {
    if ops == [] {
      assert NumberFrom([], |s.log|) == [];
    } else {
      var t := Step(s, ops[0]);
      LogIsCommits(t, ops[1..]);
      if ops[0].Commit? {
        assert NumberFrom(Commits(ops), |s.log|)
            == [Event(|s.log| + 1, ops[0].message)] + NumberFrom(Commits(ops[1..]), |s.log| + 1);
        assert t.log + NumberFrom(Commits(ops[1..]), |t.log|) == s.log + NumberFrom(Commits(ops), |s.log|);
      }
    }
  }

  predicate IsHistory(messages: seq<string>, cap: nat, ring: seq<Event>) {
    var n := |messages|;
    && |ring| == (if n <= cap then n else cap)
    && forall i | 0 <= i < |ring| :: ring[i] == Event(n - |ring| + i + 1, messages[n - |ring| + i])
  }

  /**
    After n broadcasts, however their sends interleave, the history is the last min(n, cap)
    messages in the order they were committed, numbered up to n.
  */
  lemma HistoryIsTheLast(cap: nat, ops: seq<Op>)
    requires cap > 0 && CanRun(Init(cap), ops)
    ensures IsHistory(Commits(ops), cap, Exec(Init(cap), ops).ring)
  {
    InitInv(cap);
    RunInv(Init(cap), ops);
    LogIsCommits(Init(cap), ops);
    var log := Exec(Init(cap), ops).log;
    assert log == Init(cap).log + NumberFrom(Commits(ops), 0);
    assert log == NumberFrom(Commits(ops), 0);
    LastAt(Commits(ops), cap);
    assert Exec(Init(cap), ops).ring == Last(log, Exec(Init(cap), ops).cap);
    CapStays(Init(cap), ops);
  }

  lemma {:induction false} CapStays(s: State, ops: seq<Op>)
    requires CanRun(s, ops)
    ensures Exec(s, ops).cap == s.cap
    decreases |ops|
  {
    if ops != [] { CapStays(Step(s, ops[0]), ops[1..]); }
  }

  lemma LastAt(messages: seq<string>, cap: nat)
    ensures IsHistory(messages, cap, Last(NumberFrom(messages, 0), cap))
  {
  }

  // ---------------------------------------------------------------- fan-out

  /** An event reaches a channel at most once, and only if it was committed while subscribed. */
  lemma AtMostOnce(cap: nat, ops: seq<Op>, ch: nat, e: Event)
    requires cap > 0 && CanRun(Init(cap), ops) && ch in Exec(Init(cap), ops).channels
    ensures var s := Exec(Init(cap), ops);
      Copies(s.channels[ch], e) <= (if Owed(s, ch, e) then 1 else 0)
  {
    InitInv(cap);
    RunInv(Init(cap), ops);
    assert Balanced(Exec(Init(cap), ops), ch, e);
  }

  ghost predicate Quiet(s: State, ch: nat) {
    forall e :: !InFlight(s, ch, e)
  }

  /** Once no send is outstanding, received + queued + dropped is what was committed while subscribed. */
  lemma NothingUnaccounted(cap: nat, ops: seq<Op>, ch: nat)
    requires cap > 0 && CanRun(Init(cap), ops)
    requires ch in Exec(Init(cap), ops).channels && Quiet(Exec(Init(cap), ops), ch)
    ensures var s := Exec(Init(cap), ops);
      var c := s.channels[ch];
      && c.joined <= Until(s, ch) <= |s.log|
      && multiset(c.received) + multiset(c.queue) + multiset(c.dropped) == multiset(s.log[c.joined..Until(s, ch)])
      && |c.received| + |c.queue| + |c.dropped| == Until(s, ch) - c.joined
  {
    InitInv(cap);
    RunInv(Init(cap), ops);
    var s := Exec(Init(cap), ops);
    var c := s.channels[ch];
    var all, window := multiset(c.received) + multiset(c.queue) + multiset(c.dropped), s.log[c.joined..Until(s, ch)];
    forall e ensures all[e] == multiset(window)[e] {
      assert Balanced(s, ch, e);
      WindowCount(s, ch, e);
    }
    assert all == multiset(window);
    assert |multiset(window)| == |window|;
  }

  /** A subscription that spans at most 64 broadcasts loses none of them, however slow its reader. */
  lemma ShortSubscriptionsLoseNothing(cap: nat, ops: seq<Op>, ch: nat)
    requires cap > 0 && CanRun(Init(cap), ops) && ch in Exec(Init(cap), ops).channels
    requires var s := Exec(Init(cap), ops); Until(s, ch) - s.channels[ch].joined <= 64
    ensures Exec(Init(cap), ops).channels[ch].dropped == []
  {
    InitInv(cap);
    RunInv(Init(cap), ops);
  }

  lemma {:induction false} StaysSubscribed(s: State, ops: seq<Op>, ch: nat)
    requires CanRun(s, ops) && ch in s.subscribers && Unsubscribe(ch) !in ops
    ensures ch in Exec(s, ops).subscribers
    decreases |ops|
  {
    if ops != [] {
      assert ops[0] != Unsubscribe(ch);
      StaysSubscribed(Step(s, ops[0]), ops[1..], ch);
    }
  }

  /** Until it unsubscribes, a subscriber is on the list of every event committed. */
  lemma SubscribersAreOffered(s: State, ch: nat, ops: seq<Op>, message: string)
    requires Enabled(s, Subscribe(ch)) && CanRun(Step(s, Subscribe(ch)), ops) && Unsubscribe(ch) !in ops
    ensures var t := Exec(Step(s, Subscribe(ch)), ops);
      InFlight(Step(t, Commit(message)), ch, Event(t.nextID + 1, message))
  {
    StaysSubscribed(Step(s, Subscribe(ch)), ops, ch);
  }

  lemma {:induction false} StaysAway(s: State, ops: seq<Op>, ch: nat)
    requires CanRun(s, ops) && ch in s.channels && ch !in s.subscribers
    ensures var t := Exec(s, ops);
      ch in t.channels && ch !in t.subscribers && t.channels[ch].left == s.channels[ch].left
    decreases |ops|
  {
    if ops != [] { StaysAway(Step(s, ops[0]), ops[1..], ch); }
  }

  /** Once it has unsubscribed, a channel neither gets nor is on the way to get any later event. */
  lemma NothingAfterUnsubscribe(s: State, ch: nat, ops: seq<Op>, e: Event)
    requires Inv(s) && Enabled(s, Unsubscribe(ch)) && CanRun(Step(s, Unsubscribe(ch)), ops) && e.id > |s.log|
    ensures var t := Exec(Step(s, Unsubscribe(ch)), ops);
      ch in t.channels && Copies(t.channels[ch], e) == 0 && !InFlight(t, ch, e)
  {
    var s1 := Step(s, Unsubscribe(ch));
    StepInv(s, Unsubscribe(ch));
    RunInv(s1, ops);
    StaysAway(s1, ops, ch);
    var t := Exec(s1, ops);
    assert ChannelInv(t, ch);
    assert Balanced(t, ch, e);
  }

  // ---------------------------------------------------------------- order of delivery

  /** No broadcast is committed while an earlier one is still sending. */
  ghost predicate Serial(s: State, ops: seq<Op>)
    requires CanRun(s, ops)
    decreases |ops|
  {
    ops == []
    || ((ops[0].Commit? ==> forall ch: nat :: Quiet(s, ch)) && Serial(Step(s, ops[0]), ops[1..]))
  }

  predicate Increasing(events: seq<Event>) {
    forall i, j | 0 <= i < j < |events| :: events[i].id < events[j].id
  }

  function Delivered(c: Channel): seq<Event> {
    c.received + c.queue
  }

  ghost predicate InOrder(s: State) {
    && (forall ch: nat, e | InFlight(s, ch, e) :: e.id == |s.log|)
    && forall ch | ch in s.channels :: Increasing(Delivered(s.channels[ch]))
  }

  lemma DeliveredIsOwed(s: State, ch: nat, e: Event)
    requires Inv(s) && ch in s.channels && e in Delivered(s.channels[ch])
    ensures Owed(s, ch, e) && !InFlight(s, ch, e)
  {
    assert ChannelInv(s, ch);
    assert Balanced(s, ch, e);
    assert e in multiset(s.channels[ch].received) || e in multiset(s.channels[ch].queue);
  }

  lemma SendInOrder(s: State, e: Event, ch: nat)
    requires Inv(s) && InOrder(s) && Enabled(s, Send(e, ch))
    ensures Increasing(Delivered(Offer(s.channels[ch], e)))
  {
    var c := s.channels[ch];
    assert InFlight(s, ch, e);
    forall x | x in Delivered(c) ensures x.id < e.id {
      DeliveredIsOwed(s, ch, x);
      InFlightIsOwed(s, ch, e);
    }
    var d := Delivered(Offer(c, e));
    if |c.queue| < CHANNEL_SIZE { assert d == Delivered(c) + [e]; }
  }

  lemma InFlightIsOwed(s: State, ch: nat, e: Event)
    requires Inv(s) && ch in s.channels && InFlight(s, ch, e)
    ensures Owed(s, ch, e)
  {
    assert ChannelInv(s, ch);
    assert Balanced(s, ch, e);
  }

  lemma StepInOrder(s: State, op: Op)
    requires Inv(s) && InOrder(s) && Enabled(s, op)
    requires op.Commit? ==> forall ch: nat :: Quiet(s, ch)
    ensures InOrder(Step(s, op))
  {
    var t := Step(s, op);
    forall ch: nat, e | InFlight(t, ch, e) ensures e.id == |t.log| {
      assert op.Commit? ==> Quiet(s, ch);
      assert InFlight(s, ch, e) || op.Commit?;
    }
    forall ch | ch in t.channels ensures Increasing(Delivered(t.channels[ch])) {
      if op == Receive(ch) {
        var c := s.channels[ch];
        assert Delivered(t.channels[ch]) == Delivered(c);
      } else if op.Send? && op.target == ch {
        SendInOrder(s, op.e, ch);
      }
    }
  }

  /** When broadcasts do not overlap, every subscriber gets its events in ascending order. */
  lemma {:induction false} SerialRunsDeliverInOrder(s: State, ops: seq<Op>)
    requires Inv(s) && InOrder(s) && CanRun(s, ops) && Serial(s, ops)
    ensures InOrder(Exec(s, ops))
    decreases |ops|
  {
    if ops != [] {
      StepInv(s, ops[0]);
      StepInOrder(s, ops[0]);
      SerialRunsDeliverInOrder(Step(s, ops[0]), ops[1..]);
    }
  }

  lemma Prepend(s: State, op: Op, ops: seq<Op>)
    requires Enabled(s, op) && CanRun(Step(s, op), ops)
    ensures CanRun(s, [op] + ops) && Exec(s, [op] + ops) == Exec(Step(s, op), ops)
  {
    assert ([op] + ops)[1..] == ops;
  }

  /**
    Whenever two events are on their way to a channel with room for both, the order can be lost:
    sending the later one first leaves what is delivered no longer ascending.
  */
  lemma OverlapReorders(s: State, ch: nat, e1: Event, e2: Event)
    requires Inv(s) && ch in s.channels && InFlight(s, ch, e1) && InFlight(s, ch, e2) && e1.id < e2.id
    requires |s.channels[ch].queue| + 2 <= CHANNEL_SIZE
    ensures CanRun(s, [Send(e2, ch), Send(e1, ch)])
    ensures ch in Exec(s, [Send(e2, ch), Send(e1, ch)]).channels
    ensures !Increasing(Delivered(Exec(s, [Send(e2, ch), Send(e1, ch)]).channels[ch]))
  {
    var t := Step(s, Send(e2, ch));
    Prepend(t, Send(e1, ch), []);
    Prepend(s, Send(e2, ch), [Send(e1, ch)]);
    assert [Send(e2, ch)] + [Send(e1, ch)] == [Send(e2, ch), Send(e1, ch)];
    var c := s.channels[ch];
    var after := Delivered(c.(queue := c.queue + [e2] + [e1]));
    var n := |after|;
    assert after[n - 2] == e2 && after[n - 1] == e1;
  }

  /** Such states are reachable: two broadcasts to one subscriber are enough. */
  lemma LaterArrivesFirst(cap: nat) returns (ops: seq<Op>)
    requires cap > 0
    ensures CanRun(Init(cap), ops)
    ensures 0 in Exec(Init(cap), ops).channels
    ensures Exec(Init(cap), ops).channels[0].queue == [Event(2, "b"), Event(1, "a")]
  {
    var e1, e2 := Event(1, "a"), Event(2, "b");
    var s0 := Init(cap);
    var s1 := Step(s0, Subscribe(0));
    var s2 := Step(s1, Commit("a"));
    var s3 := Step(s2, Commit("b"));
    var s4 := Step(s3, Send(e2, 0));
    var s5 := Step(s4, Send(e1, 0));
    Prepend(s4, Send(e1, 0), []);
    Prepend(s3, Send(e2, 0), [Send(e1, 0)]);
    Prepend(s2, Commit("b"), [Send(e2, 0)] + [Send(e1, 0)]);
    Prepend(s1, Commit("a"), [Commit("b")] + ([Send(e2, 0)] + [Send(e1, 0)]));
    Prepend(s0, Subscribe(0), [Commit("a")] + ([Commit("b")] + ([Send(e2, 0)] + [Send(e1, 0)])));
    ops := [Subscribe(0)] + ([Commit("a")] + ([Commit("b")] + ([Send(e2, 0)] + [Send(e1, 0)])));
  }

  // ---------------------------------------------------------------- the log stream

  lemma {:induction false} JoinedStays(s: State, ops: seq<Op>, ch: nat)
    requires CanRun(s, ops) && ch in s.channels
    ensures ch in Exec(s, ops).channels && Exec(s, ops).channels[ch].joined == s.channels[ch].joined
    decreases |ops|
  {
    if ops != [] { JoinedStays(Step(s, ops[0]), ops[1..], ch); }
  }

  lemma InRing(s: State, e: Event, log: seq<Event>)
    requires Inv(s) && s.log <= log && Numbered(log) && e in log && e.id > |s.log| - |s.ring|
    ensures e in s.ring <==> e.id <= |s.log|
  {
    assert log[e.id - 1] == e;
    if e.id <= |s.log| {
      assert s.log[e.id - 1] == e;
      assert s.ring[e.id - 1 - (|s.log| - |s.ring|)] == e;
    }
  }

  /** The state of a log stream: the history was read in `s`, the channel subscribed after `between`. */
  function Stream(s: State, between: seq<Op>, ch: nat, after: seq<Op>): State
    requires CanRun(s, between) && Enabled(Exec(s, between), Subscribe(ch))
    requires CanRun(Step(Exec(s, between), Subscribe(ch)), after)
  {
    Exec(Step(Exec(s, between), Subscribe(ch)), after)
  }

  /** What the handler has sent its client or is about to: the history, then the channel. */
  function ShownBy(s: State, f: State, ch: nat): seq<Event>
    requires ch in f.channels
  {
    s.ring + Delivered(f.channels[ch])
  }

  lemma StreamInv(s: State, between: seq<Op>, ch: nat, after: seq<Op>)
    requires Inv(s) && CanRun(s, between)
    requires Enabled(Exec(s, between), Subscribe(ch)) && CanRun(Step(Exec(s, between), Subscribe(ch)), after)
    ensures var f := Stream(s, between, ch, after);
      && Inv(f) && s.log <= Exec(s, between).log <= f.log
      && ch in f.channels && f.channels[ch].joined == |Exec(s, between).log|
  {
    RunInv(s, between);
    StepInv(Exec(s, between), Subscribe(ch));
    var t := Step(Exec(s, between), Subscribe(ch));
    RunInv(t, after);
    JoinedStays(t, after, ch);
  }

  /**
    The log stream handler sends History and only then subscribes.  With nothing more on its way,
    an event from the history on is missing from the stream exactly when it was committed between
    the two calls or the channel was full when it was offered.
  */
  lemma StreamMisses(s: State, between: seq<Op>, ch: nat, after: seq<Op>, e: Event)
    requires Inv(s) && CanRun(s, between)
    requires Enabled(Exec(s, between), Subscribe(ch)) && CanRun(Step(Exec(s, between), Subscribe(ch)), after)
    requires var f := Stream(s, between, ch, after); ch in f.subscribers && Quiet(f, ch) && e in f.log
    requires e.id > |s.log| - |s.ring|
    ensures var f := Stream(s, between, ch, after);
      && ch in f.channels
      && (e !in ShownBy(s, f, ch) <==>
          |s.log| < e.id <= |Exec(s, between).log| || e in f.channels[ch].dropped)
  {
    StreamInv(s, between, ch, after);
    var f := Stream(s, between, ch, after);
    var c := f.channels[ch];
    assert ChannelInv(f, ch);
    assert Balanced(f, ch, e) && !InFlight(f, ch, e);
    assert f.log[e.id - 1] == e;
    CopiesWhere(c, e);
    InRing(s, e, f.log);
  }

  lemma CopiesWhere(c: Channel, e: Event)
    ensures Copies(c, e) == multiset(Delivered(c))[e] + multiset(c.dropped)[e]
    ensures multiset(Delivered(c))[e] > 0 <==> e in Delivered(c)
    ensures multiset(c.dropped)[e] > 0 <==> e in c.dropped
  {
    assert multiset(Delivered(c)) == multiset(c.received) + multiset(c.queue);
  }

  lemma RingOnce(s: State, e: Event)
    requires BaseInv(s)
    ensures multiset(s.ring)[e] <= (if e.id <= |s.log| then 1 else 0)
  {
    var lo := |s.log| - |s.ring|;
    assert s.ring == s.log[lo..|s.log|];
    NumberedCount(s.log, lo, |s.log|, e);
  }

  /** Nothing is shown twice, at any moment of the stream. */
  lemma NothingShownTwice(s: State, between: seq<Op>, ch: nat, after: seq<Op>, e: Event)
    requires Inv(s) && CanRun(s, between)
    requires Enabled(Exec(s, between), Subscribe(ch)) && CanRun(Step(Exec(s, between), Subscribe(ch)), after)
    ensures var f := Stream(s, between, ch, after);
      ch in f.channels && multiset(ShownBy(s, f, ch))[e] <= 1
  {
    StreamInv(s, between, ch, after);
    var f := Stream(s, between, ch, after);
    assert ChannelInv(f, ch) && Balanced(f, ch, e);
    CopiesWhere(f.channels[ch], e);
    RingOnce(s, e);
    assert multiset(ShownBy(s, f, ch)) == multiset(s.ring) + multiset(Delivered(f.channels[ch]));
  }

  /** So the client sees every event from the history on exactly if none fell in between and none was dropped. */
  lemma StreamIsCompleteIff(s: State, between: seq<Op>, ch: nat, after: seq<Op>)
    requires Inv(s) && CanRun(s, between)
    requires Enabled(Exec(s, between), Subscribe(ch)) && CanRun(Step(Exec(s, between), Subscribe(ch)), after)
    requires var f := Stream(s, between, ch, after); ch in f.subscribers && Quiet(f, ch)
    ensures var f := Stream(s, between, ch, after);
      && ch in f.channels
      && ((forall e | e in f.log && e.id > |s.log| - |s.ring| :: e in ShownBy(s, f, ch))
          <==> Commits(between) == [] && f.channels[ch].dropped == [])
  {
    var s2, f := Exec(s, between), Stream(s, between, ch, after);
    LogIsCommits(s, between);
    StreamInv(s, between, ch, after);
    forall e | e in f.log && e.id > |s.log| - |s.ring|
      ensures e !in ShownBy(s, f, ch) <==> |s.log| < e.id <= |s2.log| || e in f.channels[ch].dropped
    {
      StreamMisses(s, between, ch, after, e);
    }
    if Commits(between) != [] {
      var e := f.log[|s.log|];
      assert e.id == |s.log| + 1 && e in f.log;
    }
    if f.channels[ch].dropped != [] { DroppedIsLater(f, ch); }
  }

  /** What was dropped from a channel was committed after it was subscribed. */
  lemma DroppedIsLater(f: State, ch: nat)
    requires Inv(f) && ch in f.channels && f.channels[ch].dropped != []
    ensures var e := f.channels[ch].dropped[0]; e in f.log && e.id > f.channels[ch].joined
  {
    var e := f.channels[ch].dropped[0];
    assert ChannelInv(f, ch);
    assert Balanced(f, ch, e);
    CopiesWhere(f.channels[ch], e);
    assert f.log[e.id - 1] == e;
  }

  // ---------------------------------------------------------------- the object

  /** The broadcaster as the calling goroutine uses it; `sends` and `log` only record. */
  class LogBroadcaster {
    const ringCap: nat
    const buffer: array<Event>
    var len: nat
    var nextID: nat
    var subscribers: set<nat>
    var channels: map<nat, Channel>
    ghost var sends: map<Event, set<nat>>
    ghost var log: seq<Event>

    ghost predicate Valid()
      reads this, buffer
    {
      len <= buffer.Length == ringCap && Inv(Abs())
    }

    ghost function Abs(): State
      reads this, buffer
      requires len <= buffer.Length
    {
      State(ringCap, nextID, buffer[..len], subscribers, channels, sends, log)
    }

    constructor (capacity: int)
      ensures Valid() && Abs() == Init(if capacity <= 0 then 100 else capacity)
    {
      var cap: nat := if capacity <= 0 then 100 else capacity;
      ringCap := cap;
      buffer := new Event[cap];
      len, nextID, subscribers, channels := 0, 0, {}, map[];
      sends, log := map[], [];
      new;
      InitInv(cap);
      assert buffer[..len] == [];
    }

    method AddToRing(e: Event)
      requires len <= buffer.Length == ringCap && ringCap > 0
      modifies this`len, buffer
      ensures len <= buffer.Length && buffer[..len] == Push(old(buffer[..len]), ringCap, e)
    {
      if len >= ringCap {
        Shift(buffer, len, e);
        assert old(buffer[..len])[1..] == old(buffer[1..len]);
      } else {
        buffer[len] := e;
        len := len + 1;
      }
    }

    /** The part of Broadcast under the lock. */
    method CommitEvent(message: string) returns (e: Event, subs: set<nat>)
      requires Valid()
      modifies this`len, this`nextID, this`sends, this`log, buffer
      ensures Valid() && Abs() == Step(old(Abs()), Commit(message))
      ensures e == Event(old(nextID) + 1, message) && subs == subscribers
    {
      ghost var s := Abs();
      nextID := nextID + 1;
      e := Event(nextID, message);
      AddToRing(e);
      subs := subscribers;
      sends := sends[e := subscribers];
      log := log + [e];
      StepInv(s, Commit(message));
    }

    /** One send of a Broadcast past the lock, after the run `ops` from `s`. */
    method SendTo(e: Event, ch: nat, ghost s: State, ghost ops: seq<Op>)
      requires len <= buffer.Length && e in sends && ch in sends[e] && ch in channels
      requires CanRun(s, ops) && Abs() == Exec(s, ops)
      modifies this`channels, this`sends
      ensures CanRun(s, ops + [Send(e, ch)]) && Abs() == Exec(s, ops + [Send(e, ch)])
      ensures Commits(ops + [Send(e, ch)]) == Commits(ops)
      ensures channels == old(channels)[ch := Offer(old(channels)[ch], e)]
      ensures sends == old(sends)[e := old(sends)[e] - {ch}]
    {
      channels := channels[ch := Offer(channels[ch], e)];
      sends := sends[e := sends[e] - {ch}];
      Append(s, ops, Send(e, ch));
      assert Commits(ops) + [] == Commits(ops);
    }

    /** The sends of a Broadcast, in any order of the subscribers. */
    method SendAll(e: Event, subs: set<nat>) returns (ghost ops: seq<Op>)
      requires Valid() && subs <= channels.Keys && e in sends && sends[e] == subs
      modifies this`channels, this`sends
      ensures Valid() && CanRun(old(Abs()), ops) && Abs() == Exec(old(Abs()), ops) && Commits(ops) == []
      ensures e in sends && sends[e] == {} && channels.Keys == old(channels.Keys)
      ensures forall ch | ch in channels ::
        channels[ch] == (if ch in subs then Offer(old(channels)[ch], e) else old(channels)[ch])
    {
      ghost var s := Abs();
      ops := [];
      var todo := subs;
      while |todo| > 0
        modifies this`channels, this`sends
        invariant len <= buffer.Length && todo <= subs <= channels.Keys && e in sends && sends[e] == todo
        invariant CanRun(s, ops) && Abs() == Exec(s, ops) && Commits(ops) == []
        invariant channels.Keys == old(channels.Keys)
        invariant forall ch | ch in channels ::
          channels[ch] == (if ch in subs && ch !in todo then Offer(old(channels)[ch], e) else old(channels)[ch])
        decreases |todo|
      {
        var ch := Pick(todo);
        todo := todo - {ch};
        SendTo(e, ch, s, ops);
        ops := ops + [Send(e, ch)];
      }
      RunInv(s, ops);
    }

    /**
      One Broadcast call with no other goroutine in between is one run of the machine: a commit
      and then one send for each subscriber, which leaves none of them waiting.
    */
    method Broadcast(message: string) returns (ghost ops: seq<Op>)
      requires Valid()
      modifies this, buffer
      ensures Valid() && subscribers == old(subscribers)
      ensures CanRun(old(Abs()), ops) && Abs() == Exec(old(Abs()), ops)
      ensures Commits(ops) == [message]
      ensures log == old(log) + [Event(old(nextID) + 1, message)]
      ensures forall ch | ch in channels :: !InFlight(Abs(), ch, log[|log| - 1])
      ensures channels.Keys == old(channels.Keys)
      ensures forall ch | ch in channels ::
        channels[ch] == (if ch in subscribers then Offer(old(channels)[ch], log[|log| - 1]) else old(channels)[ch])
    {
      ghost var s := Abs();
      var e, subs := CommitEvent(message);
      ghost var t := Abs();
      ghost var rest := SendAll(e, subs);
      ops := [Commit(message)] + rest;
      assert ops[1..] == rest;
      assert [message] + [] == [message];
    }

    method Subscribe() returns (ch: nat)
      requires Valid()
      modifies this`channels, this`subscribers
      ensures Valid() && Enabled(old(Abs()), Op.Subscribe(ch)) && Abs() == Step(old(Abs()), Op.Subscribe(ch))
    {
      ghost var s := Abs();
      ch := FreshKey(channels.Keys);
      channels := channels[ch := Channel([], [], [], nextID, nextID)];
      subscribers := subscribers + {ch};
      StepInv(s, Op.Subscribe(ch));
    }

    method Unsubscribe(ch: nat)
      requires Valid() && ch in subscribers
      modifies this`channels, this`subscribers
      ensures Valid() && Abs() == Step(old(Abs()), Op.Unsubscribe(ch))
    {
      ghost var s := Abs();
      channels := channels[ch := channels[ch].(left := nextID)];
      subscribers := subscribers - {ch};
      StepInv(s, Op.Unsubscribe(ch));
    }

    /** A copy: the last min(n, cap) of the n events committed so far. */
    method History() returns (events: seq<Event>)
      requires Valid()
      ensures events == Last(log, ringCap)
    {
      events := buffer[..len];
    }
  }

  /** Drops the first of `len` elements and puts `e` behind the others. */
  method Shift(buffer: array<Event>, len: nat, e: Event)
    requires 0 < len <= buffer.Length
    modifies buffer
    ensures buffer[..len] == old(buffer[1..len]) + [e]
  {
    ghost var was := buffer[..len];
    var i := 0;
    while i < len - 1
      invariant 0 <= i <= len - 1
      invariant forall k | 0 <= k < i :: buffer[k] == was[k + 1]
      invariant forall k | i <= k < len :: buffer[k] == was[k]
    {
      buffer[i] := buffer[i + 1];
      i := i + 1;
    }
    buffer[len - 1] := e;
    assert buffer[..len] == was[1..] + [e];
  }

  lemma {:induction false} Append(s: State, ops: seq<Op>, op: Op)
    requires CanRun(s, ops) && Enabled(Exec(s, ops), op)
    ensures CanRun(s, ops + [op]) && Exec(s, ops + [op]) == Step(Exec(s, ops), op)
    ensures Commits(ops + [op]) == Commits(ops) + (if op.Commit? then [op.message] else [])
    decreases |ops|
  {
    if ops == [] {
      assert [] + [op] == [op] && [op][1..] == [];
    } else {
      Append(Step(s, ops[0]), ops[1..], op);
      assert (ops + [op])[1..] == ops[1..] + [op];
    }
  }

  /** Ranging over a Go map visits its keys in any order. */
  method Pick(keys: set<nat>) returns (k: nat)
    requires |keys| > 0
    ensures k in keys
  {
    k :| k in keys;
  }

  /** Some channel identity that is not in use. */
  method FreshKey(keys: set<nat>) returns (k: nat)
    ensures k !in keys
  {
    k := 0;
    var rest := keys;
    while |rest| > 0
      invariant rest <= keys && forall x | x in keys && x !in rest :: x < k
      decreases |rest|
    {
      var x := Pick(rest);
      if x >= k { k := x + 1; }
      rest := rest - {x};
    }
  }
}
