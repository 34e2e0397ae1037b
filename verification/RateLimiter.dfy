/**
  The per-address token bucket of the public status page: sixteen shards picked by an FNV-1a
  hash, a size bound per shard, and a reaper that deletes buckets idle for more than ten
  minutes.  Times are seconds, an address is the byte string Go hashes.
*/
module RateLimiter {

  type Ip = seq<bv8>
  datatype Bucket = Bucket(tokens: real, lastSeen: real)
  type Shard = map<Ip, Bucket>
  datatype Config = Config(rate: real, burst: real, maxPerMap: nat)

  const SHARDS: nat := 16
  const IDLE: real := 600.0

  // ---------------------------------------------------------------- the hash

  /** One turn of the FNV-1a loop: xor the byte in, multiply by the prime. */
  function Mix(h: bv32, b: bv8): bv32 {
    (h ^ (b as bv32)) * 16777619
  }

  /** `f` folded over `s` from the left; kept apart from the bit arithmetic. */
  function Fold(f: (bv32, bv8) -> bv32, h: bv32, s: Ip): bv32
    decreases |s|
  {
    if s == [] then h else Fold(f, f(h, s[0]), s[1..])
  }

  function Hash(ip: Ip): bv32 {
    Fold(Mix, 2166136261, ip)
  }

  function Index(h: bv32): (i: nat)
    ensures i < SHARDS
  {
    (h % 16) as int
  }

  function ShardOf(ip: Ip): nat {
    Index(Hash(ip))
  }

  lemma {:induction false} FoldAppend(f: (bv32, bv8) -> bv32, h: bv32, s: Ip, last: bv8)
    ensures Fold(f, h, s + [last]) == f(Fold(f, h, s), last)
    decreases |s|
  {
    if s == [] {
      assert (s + [last])[1..] == [];
    } else {
      assert (s + [last])[1..] == s[1..] + [last];
      FoldAppend(f, f(h, s[0]), s[1..], last);
    }
  }

  lemma FoldTake(f: (bv32, bv8) -> bv32, h: bv32, s: Ip, i: nat)
    requires i < |s|
    ensures Fold(f, h, s[..i + 1]) == f(Fold(f, h, s[..i]), s[i])
  {
    assert s[..i + 1] == s[..i] + [s[i]];
    FoldAppend(f, h, s[..i], s[i]);
  }

  method HashIP(ip: Ip) returns (h: bv32)
    ensures h == Hash(ip)
  {
    h := 2166136261;
    ghost var seed := h;
    var i := 0;
    while i < |ip|
      invariant 0 <= i <= |ip|
      invariant h == Fold(Mix, seed, ip[..i])
    {
      FoldTake(Mix, seed, ip, i);
      h := Mix(h, ip[i]);
      i := i + 1;
    }
    assert ip[..i] == ip;
  }

  /** Published 32-bit FNV-1a values: of the empty text, of "a" and of "foobar". */
  lemma PublishedHashes()
    ensures Hash([]) == 0x811c_9dc5
    ensures Hash([0x61]) == 0xe40c_292c
    ensures Hash([0x66, 0x6f, 0x6f, 0x62, 0x61, 0x72]) == 0xbf9c_f968
  {
    MixValues();
    FoldAppend(Mix, 0x811c_9dc5, [], 0x61);
    FoldSix(Mix, 0x66, 0x6f, 0x6f, 0x62, 0x61, 0x72);
    assert [] + [0x61 as bv8] == [0x61];
  }

  lemma MixValues()
    ensures Mix(0x811c_9dc5, 0x61) == 0xe40c_292c
    ensures Mix(0x811c_9dc5, 0x66) == 0xe30c_2799 && Mix(0xe30c_2799, 0x6f) == 0x6222_e842
    ensures Mix(0x6222_e842, 0x6f) == 0xa9f3_7ed7 && Mix(0xa9f3_7ed7, 0x62) == 0x3f50_76ef
    ensures Mix(0x3f50_76ef, 0x61) == 0x39aa_a18a && Mix(0x39aa_a18a, 0x72) == 0xbf9c_f968
  {}

  lemma FoldSix(f: (bv32, bv8) -> bv32, a: bv8, b: bv8, c: bv8, d: bv8, e: bv8, g: bv8)
    ensures forall h :: Fold(f, h, [a, b, c, d, e, g]) == f(f(f(f(f(f(h, a), b), c), d), e), g)
  {
    forall h ensures Fold(f, h, [a, b, c, d, e, g]) == f(f(f(f(f(f(h, a), b), c), d), e), g) {
      assert [a, b, c, d, e, g] == [a, b, c] + [d] + [e] + [g];
      FoldAppend(f, h, [a, b, c] + [d] + [e], g);
      FoldAppend(f, h, [a, b, c] + [d], e);
      FoldAppend(f, h, [a, b, c], d);
      assert [a, b, c] == [] + [a] + [b] + [c];
      FoldAppend(f, h, [] + [a] + [b], c);
      FoldAppend(f, h, [] + [a], b);
      FoldAppend(f, h, [], a);
    }
  }

  /** A byte moves the shard exactly as its low four bits say. */
  ghost predicate LowBitsDecide(f: (bv32, bv8) -> bv32) {
    forall h, a, b :: f(h, a) % 16 == f(h, b) % 16 <==> a % 16 == b % 16
  }

  lemma MixLowBits(h: bv32, a: bv8, b: bv8)
    ensures Mix(h, a) % 16 == Mix(h, b) % 16 <==> a % 16 == b % 16
  {}

  lemma SameInt(a: bv32, b: bv32)
    ensures a as int == b as int <==> a == b
  {
    assert (a as int) as bv32 == a && (b as int) as bv32 == b;
  }

  lemma SameIndex(x: bv32, y: bv32)
    ensures Index(x) == Index(y) <==> x % 16 == y % 16
  {
    SameInt(x % 16, y % 16);
  }

  lemma LastByteDecides(f: (bv32, bv8) -> bv32, h: bv32, ip: Ip, a: bv8, b: bv8)
    requires LowBitsDecide(f)
    ensures Index(Fold(f, h, ip + [a])) == Index(Fold(f, h, ip + [b])) <==> a % 16 == b % 16
  {
    FoldAppend(f, h, ip, a);
    FoldAppend(f, h, ip, b);
    SameIndex(Fold(f, h, ip + [a]), Fold(f, h, ip + [b]));
  }

  /**
    Two addresses that differ in their last byte only share a shard exactly when those bytes
    agree in their low four bits - so the ten addresses that end in different digits never do.
  */
  lemma NeighboursSpread(ip: Ip, a: bv8, b: bv8)
    ensures ShardOf(ip + [a]) == ShardOf(ip + [b]) <==> a % 16 == b % 16
  {
    assert LowBitsDecide(Mix) by {
      forall h, x, y ensures Mix(h, x) % 16 == Mix(h, y) % 16 <==> x % 16 == y % 16 { MixLowBits(h, x, y); }
    }
    LastByteDecides(Mix, 2166136261, ip, a, b);
  }

  // ---------------------------------------------------------------- one bucket

  function Min(a: real, b: real): real {
    if a < b then a else b
  }

  /** Tokens earned in a span of time. */
  function Gain(c: Config, span: real): real {
    span * c.rate
  }

  lemma GainAdds(c: Config, a: real, b: real)
    ensures Gain(c, a + b) == Gain(c, a) + Gain(c, b)
  {}

  lemma GainGrows(c: Config, a: real, b: real)
    requires c.rate > 0.0 && a <= b
    ensures Gain(c, a) <= Gain(c, b)
  {}

  lemma GainInverse(c: Config, amount: real)
    requires c.rate > 0.0
    ensures Gain(c, amount / c.rate) == amount
    ensures amount > 0.0 ==> amount / c.rate > 0.0
  {}

  function Refill(c: Config, b: Bucket, now: real): real {
    Min(b.tokens + Gain(c, now - b.lastSeen), c.burst)
  }

  /** A request that finds its bucket: the new bucket and the decision. */
  function Serve(c: Config, b: Bucket, now: real): (Bucket, bool) {
    var tokens := Refill(c, b, now);
    if tokens >= 1.0 then (Bucket(tokens - 1.0, now), true) else (Bucket(tokens, now), false)
  }

  function Fresh(c: Config, now: real): Bucket {
    Bucket(c.burst - 1.0, now)
  }

  // ---------------------------------------------------------------- the sharded limiter

  predicate Expired(b: Bucket, asOf: real) {
    asOf - b.lastSeen > IDLE
  }

  function AllowOn(c: Config, shards: seq<Shard>, ip: Ip, now: real): (seq<Shard>, bool)
    requires |shards| == SHARDS
  {
    var i := ShardOf(ip);
    if ip !in shards[i] then
      if |shards[i]| >= c.maxPerMap then (shards, false)
      else (shards[i := shards[i][ip := Fresh(c, now)]], true)
    else
      var (b, ok) := Serve(c, shards[i][ip], now);
      (shards[i := shards[i][ip := b]], ok)
  }

  function ReapShard(shard: Shard, asOf: real): Shard {
    map ip | ip in shard && !Expired(shard[ip], asOf) :: shard[ip]
  }

  /** A sweep deletes exactly the buckets unused for more than ten minutes, and changes no other. */
  lemma SweepDeletesTheIdle(shard: Shard, asOf: real, ip: Ip)
    ensures ip in ReapShard(shard, asOf) <==> ip in shard && asOf - shard[ip].lastSeen <= 10.0 * 60.0
    ensures ip in ReapShard(shard, asOf) ==> ReapShard(shard, asOf)[ip] == shard[ip]
  {}

  /**
    `Reap` is the part of one sweep done under one shard's lock; `asOf` is the clock reading
    at the start of the sweep, `now` the moment the lock is held.
  */
  datatype Event =
    | Request(ip: Ip, now: real)
    | Reap(shard: nat, asOf: real, now: real)

  /** The clock never runs backwards and a sweep uses a reading of the past. */
  predicate Ordered(trace: seq<Event>, clock: real)
    decreases |trace|
  {
    trace == [] ||
    (clock <= trace[0].now && (trace[0].Reap? ==> trace[0].shard < SHARDS && trace[0].asOf <= trace[0].now)
      && Ordered(trace[1..], trace[0].now))
  }

  function Next(c: Config, shards: seq<Shard>, e: Event): (r: seq<Shard>)
    requires |shards| == SHARDS && (e.Reap? ==> e.shard < SHARDS)
    ensures |r| == SHARDS
  {
    match e
    case Request(ip, now) => AllowOn(c, shards, ip, now).0
    case Reap(i, asOf, _) => shards[i := ReapShard(shards[i], asOf)]
  }

  /** The decisions on the requests of a trace, in order. */
  function Decisions(c: Config, shards: seq<Shard>, trace: seq<Event>, clock: real): seq<bool>
    requires |shards| == SHARDS && Ordered(trace, clock)
    decreases |trace|
  {
    if trace == [] then []
    else
      (if trace[0].Request? then [AllowOn(c, shards, trace[0].ip, trace[0].now).1] else [])
      + Decisions(c, Next(c, shards, trace[0]), trace[1..], trace[0].now)
  }

  /** The request meets its bucket or finds room for one. */
  predicate Room(c: Config, shards: seq<Shard>, e: Event)
    requires |shards| == SHARDS
  {
    e.Request? ==> e.ip in shards[ShardOf(e.ip)] || |shards[ShardOf(e.ip)]| < c.maxPerMap
  }

  /** No request of a new address meets a full shard. */
  predicate NeverFull(c: Config, shards: seq<Shard>, trace: seq<Event>, clock: real)
    requires |shards| == SHARDS && Ordered(trace, clock)
    decreases |trace|
  {
    trace == []
    || (Room(c, shards, trace[0]) && NeverFull(c, Next(c, shards, trace[0]), trace[1..], trace[0].now))
  }

  function Empty(): (shards: seq<Shard>)
    ensures |shards| == SHARDS
  {
    seq(SHARDS, i => map[])
  }

  // ---------------------------------------------------------------- the simple limiter

  /** One unbounded, never reaped bucket per address. */
  function SimpleAllow(c: Config, buckets: Shard, ip: Ip, now: real): (Shard, bool) {
    if ip !in buckets then (buckets[ip := Fresh(c, now)], true)
    else
      var (b, ok) := Serve(c, buckets[ip], now);
      (buckets[ip := b], ok)
  }

  function SimpleDecisions(c: Config, buckets: Shard, trace: seq<Event>): seq<bool>
    decreases |trace|
  {
    if trace == [] then []
    else if trace[0].Reap? then SimpleDecisions(c, buckets, trace[1..])
    else
      var (next, ok) := SimpleAllow(c, buckets, trace[0].ip, trace[0].now);
      [ok] + SimpleDecisions(c, next, trace[1..])
  }

  // ---------------------------------------------------------------- refinement

  ghost predicate Sane(c: Config) {
    c.rate > 0.0 && c.burst >= 1.0
  }

  /** A bucket deleted after ten idle minutes would have been full again anyway. */
  ghost predicate ReapingIsSafe(c: Config) {
    Gain(c, IDLE) >= c.burst
  }

  ghost predicate Placed(shards: seq<Shard>) {
    |shards| == SHARDS && forall i, ip | 0 <= i < SHARDS && ip in shards[i] :: ShardOf(ip) == i
  }

  ghost predicate InRange(c: Config, b: Bucket, clock: real) {
    0.0 <= b.tokens <= c.burst && b.lastSeen <= clock
  }

  ghost predicate Sound(c: Config, shards: seq<Shard>, clock: real) {
    && Placed(shards)
    && (forall i, ip | 0 <= i < SHARDS && ip in shards[i] :: InRange(c, shards[i][ip], clock))
    && (forall i | 0 <= i < SHARDS :: |shards[i]| <= c.maxPerMap)
  }

  lemma ServeInRange(c: Config, b: Bucket, now: real, clock: real)
    requires Sane(c) && InRange(c, b, clock) && clock <= now
    ensures InRange(c, Serve(c, b, now).0, now)
  {
    GainGrows(c, 0.0, now - b.lastSeen);
  }

  lemma ReapSize(shard: Shard, asOf: real)
    ensures |ReapShard(shard, asOf)| <= |shard|
  {
    SubmapSize(ReapShard(shard, asOf), shard);
  }

  lemma SubmapSize(small: Shard, big: Shard)
    requires small.Keys <= big.Keys
    ensures |small| <= |big|
  {
    assert |big.Keys| == |small.Keys| + |big.Keys - small.Keys| by {
      assert big.Keys == small.Keys + (big.Keys - small.Keys);
    }
  }

  /** Tokens stay in [0, burst], every address in its own shard, and no shard outgrows its bound. */
  lemma NextSound(c: Config, shards: seq<Shard>, e: Event, clock: real)
    requires Sane(c) && Sound(c, shards, clock) && Ordered([e], clock)
    ensures Sound(c, Next(c, shards, e), e.now)
  {
    match e
    case Request(ip, now) =>
      var i := ShardOf(ip);
      if ip in shards[i] {
        ServeInRange(c, shards[i][ip], now, clock);
        assert shards[i][ip := Serve(c, shards[i][ip], now).0].Keys == shards[i].Keys;
      } else if |shards[i]| < c.maxPerMap {
        assert shards[i][ip := Fresh(c, now)].Keys == shards[i].Keys + {ip};
      }
    case Reap(i, asOf, _) => ReapSize(shards[i], asOf);
  }

  function Final(c: Config, shards: seq<Shard>, trace: seq<Event>, clock: real): (r: seq<Shard>)
    requires |shards| == SHARDS && Ordered(trace, clock)
    ensures |r| == SHARDS
    decreases |trace|
  {
    if trace == [] then shards else Final(c, Next(c, shards, trace[0]), trace[1..], trace[0].now)
  }

  function EndTime(trace: seq<Event>, clock: real): real {
    if trace == [] then clock else trace[|trace| - 1].now
  }

  lemma {:induction false} RunSound(c: Config, shards: seq<Shard>, trace: seq<Event>, clock: real)
    requires Sane(c) && Sound(c, shards, clock) && Ordered(trace, clock)
    ensures Sound(c, Final(c, shards, trace, clock), EndTime(trace, clock))
    decreases |trace|
  {
    if trace != [] {
      assert Ordered([trace[0]], clock);
      NextSound(c, shards, trace[0], clock);
      RunSound(c, Next(c, shards, trace[0]), trace[1..], trace[0].now);
    }
  }

  /** The shards hold the simple limiter's buckets, less some that are full again. */
  ghost predicate Refines(c: Config, shards: seq<Shard>, simple: Shard, clock: real) {
    && Placed(shards)
    && (forall i, ip | 0 <= i < SHARDS && ip in shards[i] :: ip in simple && simple[ip] == shards[i][ip])
    && (forall ip | ip in simple ::
          InRange(c, simple[ip], clock) && (ip in shards[ShardOf(ip)] || Expired(simple[ip], clock)))
  }

  lemma ExpiredIsFull(c: Config, b: Bucket, clock: real, now: real)
    requires Sane(c) && ReapingIsSafe(c) && InRange(c, b, clock) && Expired(b, clock) && clock <= now
    ensures Serve(c, b, now) == (Fresh(c, now), true)
  {
    GainGrows(c, IDLE, now - b.lastSeen);
  }

  lemma PutRefines(c: Config, shards: seq<Shard>, simple: Shard, ip: Ip, b: Bucket, clock: real, now: real)
    requires Refines(c, shards, simple, clock) && clock <= now && InRange(c, b, now)
    ensures Refines(c, shards[ShardOf(ip) := shards[ShardOf(ip)][ip := b]], simple[ip := b], now)
  {
    var next, after := shards[ShardOf(ip) := shards[ShardOf(ip)][ip := b]], simple[ip := b];
    forall i, x | 0 <= i < SHARDS && x in next[i] ensures ShardOf(x) == i && x in after && after[x] == next[i][x] {
      assert x == ip || x in shards[i];
    }
    forall x | x in after ensures InRange(c, after[x], now) && (x in next[ShardOf(x)] || Expired(after[x], now)) {
      assert x == ip || x in simple;
    }
  }

  lemma RequestRefines(c: Config, shards: seq<Shard>, simple: Shard, ip: Ip, now: real, clock: real)
    requires Sane(c) && ReapingIsSafe(c) && Refines(c, shards, simple, clock) && clock <= now
    requires ip in shards[ShardOf(ip)] || |shards[ShardOf(ip)]| < c.maxPerMap
    ensures AllowOn(c, shards, ip, now).1 == SimpleAllow(c, simple, ip, now).1
    ensures Refines(c, AllowOn(c, shards, ip, now).0, SimpleAllow(c, simple, ip, now).0, now)
  {
    if ip in simple {
      ServeInRange(c, simple[ip], now, clock);
      if ip !in shards[ShardOf(ip)] { ExpiredIsFull(c, simple[ip], clock, now); }
    }
    PutRefines(c, shards, simple, ip, SimpleAllow(c, simple, ip, now).0[ip], clock, now);
  }

  /** A new address that meets a full shard is refused, which the simple limiter never does to it. */
  lemma FullRefuses(c: Config, shards: seq<Shard>, simple: Shard, ip: Ip, now: real, clock: real)
    requires Sane(c) && ReapingIsSafe(c) && Refines(c, shards, simple, clock) && clock <= now
    requires !Room(c, shards, Request(ip, now))
    ensures !AllowOn(c, shards, ip, now).1 && SimpleAllow(c, simple, ip, now).1
  {
    if ip in simple { ExpiredIsFull(c, simple[ip], clock, now); }
  }

  lemma ReapRefines(c: Config, shards: seq<Shard>, simple: Shard, e: Event, clock: real)
    requires Refines(c, shards, simple, clock) && e.Reap? && e.shard < SHARDS && e.asOf <= e.now && clock <= e.now
    ensures Refines(c, Next(c, shards, e), simple, e.now)
  {
    var next := Next(c, shards, e);
    forall ip | ip in simple ensures InRange(c, simple[ip], e.now) {}
    forall ip | ip in simple && ip !in next[ShardOf(ip)] ensures Expired(simple[ip], e.now) {
      assert ip in shards[ShardOf(ip)] ==> simple[ip] == shards[ShardOf(ip)][ip];
    }
  }

  lemma SameFronts(a: bool, b: bool, x: seq<bool>, y: seq<bool>)
    ensures [a] + x == [b] + y <==> a == b && x == y
  {
    assert ([a] + x)[0] == a && ([a] + x)[1..] == x;
    assert ([b] + y)[0] == b && ([b] + y)[1..] == y;
  }

  lemma RequestFront(c: Config, shards: seq<Shard>, simple: Shard, trace: seq<Event>, clock: real)
    requires |shards| == SHARDS && trace != [] && trace[0].Request? && Ordered(trace, clock)
    ensures var e := trace[0];
      Decisions(c, shards, trace, clock) == SimpleDecisions(c, simple, trace)
      <==> (AllowOn(c, shards, e.ip, e.now).1 == SimpleAllow(c, simple, e.ip, e.now).1
            && Decisions(c, Next(c, shards, e), trace[1..], e.now)
                == SimpleDecisions(c, SimpleAllow(c, simple, e.ip, e.now).0, trace[1..]))
  {
    var e := trace[0];
    SameFronts(AllowOn(c, shards, e.ip, e.now).1, SimpleAllow(c, simple, e.ip, e.now).1,
               Decisions(c, Next(c, shards, e), trace[1..], e.now),
               SimpleDecisions(c, SimpleAllow(c, simple, e.ip, e.now).0, trace[1..]));
  }

  lemma ReapFront(c: Config, shards: seq<Shard>, simple: Shard, trace: seq<Event>, clock: real)
    requires |shards| == SHARDS && trace != [] && trace[0].Reap? && Ordered(trace, clock)
    ensures Decisions(c, shards, trace, clock) == Decisions(c, Next(c, shards, trace[0]), trace[1..], trace[0].now)
    ensures SimpleDecisions(c, simple, trace) == SimpleDecisions(c, simple, trace[1..])
  {
    var rest := Decisions(c, Next(c, shards, trace[0]), trace[1..], trace[0].now);
    assert [] + rest == rest;
  }

  /**
    Sharding and reaping cannot be observed: on a time-ordered mix of requests and sweeps the
    limiter decides as the simple one does exactly if no new address meets a full shard.
  */
  lemma {:induction false} ShardingIsInvisible(c: Config, shards: seq<Shard>, simple: Shard, trace: seq<Event>,
                                               clock: real)
    requires Sane(c) && ReapingIsSafe(c) && Refines(c, shards, simple, clock) && Ordered(trace, clock)
    ensures Decisions(c, shards, trace, clock) == SimpleDecisions(c, simple, trace)
      <==> NeverFull(c, shards, trace, clock)
    decreases |trace|
  {
    if trace != [] {
      var e := trace[0];
      if e.Reap? {
        ReapRefines(c, shards, simple, e, clock);
        ReapFront(c, shards, simple, trace, clock);
        ShardingIsInvisible(c, Next(c, shards, e), simple, trace[1..], e.now);
      } else {
        RequestFront(c, shards, simple, trace, clock);
        if Room(c, shards, e) {
          RequestRefines(c, shards, simple, e.ip, e.now, clock);
          ShardingIsInvisible(c, Next(c, shards, e), SimpleAllow(c, simple, e.ip, e.now).0, trace[1..], e.now);
        } else {
          FullRefuses(c, shards, simple, e.ip, e.now, clock);
        }
      }
    }
  }

  /** The limiter the server makes: one token a second, bursts of thirty. */
  lemma ServerLimiter(trace: seq<Event>)
    requires Ordered(trace, 0.0)
    ensures Decisions(Config(1.0, 30.0, 5000), Empty(), trace, 0.0)
         == SimpleDecisions(Config(1.0, 30.0, 5000), map[], trace)
      <==> NeverFull(Config(1.0, 30.0, 5000), Empty(), trace, 0.0)
  {
    ShardingIsInvisible(Config(1.0, 30.0, 5000), Empty(), map[], trace, 0.0);
  }

  // ---------------------------------------------------------------- the safety bound is needed

  lemma DifferLater(c: Config, shards: seq<Shard>, simple: Shard, e: Event, rest: seq<Event>, clock: real)
    returns (trace: seq<Event>)
    requires |shards| == SHARDS && Ordered([e], clock) && Ordered(rest, e.now)
    requires Room(c, shards, e) && NeverFull(c, Next(c, shards, e), rest, e.now)
    requires Decisions(c, Next(c, shards, e), rest, e.now)
          != SimpleDecisions(c, if e.Request? then SimpleAllow(c, simple, e.ip, e.now).0 else simple, rest)
          || (e.Request? && AllowOn(c, shards, e.ip, e.now).1 != SimpleAllow(c, simple, e.ip, e.now).1)
    ensures trace == [e] + rest && Ordered(trace, clock) && NeverFull(c, shards, trace, clock)
    ensures Decisions(c, shards, trace, clock) != SimpleDecisions(c, simple, trace)
  {
    trace := [e] + rest;
    assert trace[1..] == rest;
    var d, s := Decisions(c, shards, trace, clock), SimpleDecisions(c, simple, trace);
    if e.Request? {
      assert d[0] == AllowOn(c, shards, e.ip, e.now).1 && d[1..] == Decisions(c, Next(c, shards, e), rest, e.now);
      assert s[0] == SimpleAllow(c, simple, e.ip, e.now).1;
      assert s[1..] == SimpleDecisions(c, SimpleAllow(c, simple, e.ip, e.now).0, rest);
    }
  }

  /** `ip` has a bucket of `x` tokens seen at `now`. */
  ghost predicate Holds(shards: seq<Shard>, ip: Ip, x: real, now: real) {
    |shards| == SHARDS && ip in shards[ShardOf(ip)] && shards[ShardOf(ip)][ip] == Bucket(x, now)
  }

  ghost predicate HoldsSimple(simple: Shard, ip: Ip, y: real, now: real) {
    ip in simple && simple[ip] == Bucket(y, now)
  }

  /** Two different token levels can always be told apart by further requests. */
  lemma LevelsDiffer(c: Config, shards: seq<Shard>, simple: Shard, ip: Ip, x: real, y: real, now: real)
    returns (trace: seq<Event>)
    requires Sane(c) && Holds(shards, ip, x, now) && HoldsSimple(simple, ip, y, now) && 0.0 <= y < x <= c.burst
    ensures Ordered(trace, now) && NeverFull(c, shards, trace, now)
    ensures Decisions(c, shards, trace, now) != SimpleDecisions(c, simple, trace)
    decreases x.Floor
  {
    if x >= 1.0 {
      var e := Request(ip, now);
      if y < 1.0 {
        trace := DifferLater(c, shards, simple, e, [], now);
      } else {
        var rest := LevelsDiffer(c, Next(c, shards, e), SimpleAllow(c, simple, ip, now).0, ip, x - 1.0, y - 1.0, now);
        trace := DifferLater(c, shards, simple, e, rest, now);
      }
    } else {
      var wait := (1.0 - x) / c.rate;
      GainInverse(c, 1.0 - x);
      var e := Request(ip, now + wait);
      trace := DifferLater(c, shards, simple, e, [], now);
    }
  }

  /** A bucket with no tokens is swept away just late enough, yet before it would have been full. */
  lemma ReapEmpty(c: Config, shards: seq<Shard>, simple: Shard, ip: Ip, now: real) returns (trace: seq<Event>)
    requires Sane(c) && !ReapingIsSafe(c) && c.maxPerMap >= 1
    requires Holds(shards, ip, 0.0, now) && HoldsSimple(simple, ip, 0.0, now)
    requires shards[ShardOf(ip)].Keys == {ip}
    ensures Ordered(trace, now) && NeverFull(c, shards, trace, now)
    ensures Decisions(c, shards, trace, now) != SimpleDecisions(c, simple, trace)
  {
    var i := ShardOf(ip);
    var late := ((c.burst - Gain(c, IDLE)) / 2.0) / c.rate;
    var at := now + IDLE + late;
    GainInverse(c, (c.burst - Gain(c, IDLE)) / 2.0);
    GainAdds(c, IDLE, late);
    GainGrows(c, 0.0, IDLE + late);
    assert at - now == IDLE + late;
    var y := Gain(c, IDLE + late);
    assert 0.0 <= y < c.burst && Refill(c, simple[ip], at) == y;
    var sweep, again := Reap(i, at, at), Request(ip, at);
    var swept := Next(c, shards, sweep);
    assert swept[i] == map[];
    var rest := [];
    if y >= 1.0 {
      rest := LevelsDiffer(c, Next(c, swept, again), SimpleAllow(c, simple, ip, at).0, ip, c.burst - 1.0, y - 1.0, at);
    }
    rest := DifferLater(c, swept, simple, again, rest, at);
    trace := DifferLater(c, shards, simple, sweep, rest, now);
  }

  /** Bring a bucket down to no tokens at all, then sweep it away. */
  lemma EmptyThenReap(c: Config, shards: seq<Shard>, simple: Shard, ip: Ip, x: real, now: real)
    returns (trace: seq<Event>)
    requires Sane(c) && !ReapingIsSafe(c) && c.maxPerMap >= 1
    requires Holds(shards, ip, x, now) && HoldsSimple(simple, ip, x, now) && 0.0 <= x <= c.burst
    requires shards[ShardOf(ip)].Keys == {ip}
    ensures Ordered(trace, now) && NeverFull(c, shards, trace, now)
    ensures Decisions(c, shards, trace, now) != SimpleDecisions(c, simple, trace)
    decreases x.Floor
  {
    if x >= 1.0 {
      var e := Request(ip, now);
      var next := Next(c, shards, e);
      assert next[ShardOf(ip)].Keys == {ip};
      var rest := EmptyThenReap(c, next, SimpleAllow(c, simple, ip, now).0, ip, x - 1.0, now);
      trace := DifferLater(c, shards, simple, e, rest, now);
    } else {
      var e := Request(ip, now + (1.0 - x) / c.rate);
      GainInverse(c, 1.0 - x);
      var next := Next(c, shards, e);
      assert next[ShardOf(ip)].Keys == {ip};
      var rest := ReapEmpty(c, next, SimpleAllow(c, simple, ip, e.now).0, ip, e.now);
      trace := DifferLater(c, shards, simple, e, rest, now);
    }
  }

  /**
    The bound on rate and burst is exact: for every limiter that refills more slowly there is
    a run, meeting no full shard, on which reaping grants what the simple limiter refuses or
    the other way round.
  */
  lemma SlowLimiterShowsReaping(c: Config, ip: Ip) returns (trace: seq<Event>)
    requires Sane(c) && !ReapingIsSafe(c) && c.maxPerMap >= 1
    ensures Ordered(trace, 0.0) && NeverFull(c, Empty(), trace, 0.0)
    ensures Decisions(c, Empty(), trace, 0.0) != SimpleDecisions(c, map[], trace)
  {
    var e := Request(ip, 0.0);
    var next := Next(c, Empty(), e);
    var rest := EmptyThenReap(c, next, SimpleAllow(c, map[], ip, 0.0).0, ip, c.burst - 1.0, 0.0);
    trace := DifferLater(c, Empty(), map[], e, rest, 0.0);
  }

  // ---------------------------------------------------------------- rate bound and fairness

  /** The tokens `ip` could use at `now`: an address without a bucket would get a full one. */
  function Level(c: Config, shards: seq<Shard>, ip: Ip, now: real): real
    requires |shards| == SHARDS
  {
    if ip in shards[ShardOf(ip)] then Refill(c, shards[ShardOf(ip)][ip], now) else c.burst
  }

  function Grants(c: Config, shards: seq<Shard>, e: Event, ip: Ip): nat
    requires |shards| == SHARDS
  {
    if e.Request? && e.ip == ip && AllowOn(c, shards, ip, e.now).1 then 1 else 0
  }

  /** How many requests of `ip` a trace lets through. */
  function Granted(c: Config, shards: seq<Shard>, trace: seq<Event>, clock: real, ip: Ip): nat
    requires |shards| == SHARDS && Ordered(trace, clock)
    decreases |trace|
  {
    if trace == [] then 0
    else Grants(c, shards, trace[0], ip) + Granted(c, Next(c, shards, trace[0]), trace[1..], trace[0].now, ip)
  }

  /** The passing of time adds at most the tokens earned. */
  lemma TimeAdds(c: Config, b: Bucket, clock: real, now: real)
    requires Sane(c) && clock <= now
    ensures Refill(c, b, now) <= Refill(c, b, clock) + Gain(c, now - clock)
  {
    GainAdds(c, clock - b.lastSeen, now - clock);
    GainGrows(c, 0.0, now - clock);
  }

  /** A request pays for what it is granted. */
  lemma ServePays(c: Config, b: Bucket, now: real)
    requires Sane(c)
    ensures var (next, ok) := Serve(c, b, now);
      Refill(c, next, now) == Refill(c, b, now) - (if ok then 1.0 else 0.0)
  {
    assert Gain(c, now - now) == 0.0;
  }

  /** Deleting an expired bucket does not change what its address may use. */
  lemma ReapIsFree(c: Config, b: Bucket, asOf: real, now: real)
    requires Sane(c) && ReapingIsSafe(c) && InRange(c, b, now) && Expired(b, asOf) && asOf <= now
    ensures Refill(c, b, now) == c.burst
  {
    GainGrows(c, IDLE, now - b.lastSeen);
  }

  /** At the moment of the request, its own grant is all that leaves the level of an address. */
  lemma RequestPays(c: Config, shards: seq<Shard>, from: Ip, now: real, ip: Ip)
    requires Sane(c) && Placed(shards)
    ensures Grants(c, shards, Request(from, now), ip) as real + Level(c, AllowOn(c, shards, from, now).0, ip, now)
            == Level(c, shards, ip, now)
  {
    var next := AllowOn(c, shards, from, now).0;
    if from != ip {
      assert ip in next[ShardOf(ip)] <==> ip in shards[ShardOf(ip)];
    } else if ip in shards[ShardOf(ip)] {
      ServePays(c, shards[ShardOf(ip)][ip], now);
    } else {
      assert Gain(c, now - now) == 0.0;
    }
  }

  lemma RequestLevel(c: Config, shards: seq<Shard>, from: Ip, clock: real, now: real, ip: Ip)
    requires Sane(c) && Sound(c, shards, clock) && clock <= now
    ensures Grants(c, shards, Request(from, now), ip) as real + Level(c, AllowOn(c, shards, from, now).0, ip, now)
            <= Level(c, shards, ip, clock) + Gain(c, now - clock)
  {
    RequestPays(c, shards, from, now, ip);
    LevelOverTime(c, shards, ip, clock, now);
  }

  lemma LevelOverTime(c: Config, shards: seq<Shard>, ip: Ip, clock: real, now: real)
    requires Sane(c) && |shards| == SHARDS && clock <= now
    ensures Level(c, shards, ip, now) <= Level(c, shards, ip, clock) + Gain(c, now - clock)
  {
    GainGrows(c, 0.0, now - clock);
    if ip in shards[ShardOf(ip)] { TimeAdds(c, shards[ShardOf(ip)][ip], clock, now); }
  }

  /** The event does not delete the bucket of `ip`. */
  predicate Spares(shards: seq<Shard>, e: Event, ip: Ip)
    requires |shards| == SHARDS
  {
    e.Reap? && e.shard == ShardOf(ip) && ip in shards[e.shard] ==> !Expired(shards[e.shard][ip], e.asOf)
  }

  /** No sweep of the trace deletes the bucket of `ip`. */
  predicate NeverReaped(c: Config, shards: seq<Shard>, trace: seq<Event>, clock: real, ip: Ip)
    requires |shards| == SHARDS && Ordered(trace, clock)
    decreases |trace|
  {
    trace == []
    || (Spares(shards, trace[0], ip) && NeverReaped(c, Next(c, shards, trace[0]), trace[1..], trace[0].now, ip))
  }

  lemma ReapLevel(c: Config, shards: seq<Shard>, e: Event, clock: real, ip: Ip)
    requires Sane(c) && Sound(c, shards, clock) && Ordered([e], clock) && e.Reap?
    requires ReapingIsSafe(c) || Spares(shards, e, ip)
    ensures Level(c, Next(c, shards, e), ip, e.now) <= Level(c, shards, ip, clock) + Gain(c, e.now - clock)
  {
    LevelOverTime(c, shards, ip, clock, e.now);
    if e.shard == ShardOf(ip) && ip in shards[e.shard] && Expired(shards[e.shard][ip], e.asOf) {
      ReapIsFree(c, shards[e.shard][ip], e.asOf, e.now);
    }
  }

  /** What the event grants `ip` comes out of its level before and what is earned until then. */
  ghost predicate PaysOnce(c: Config, shards: seq<Shard>, e: Event, clock: real, ip: Ip)
    requires |shards| == SHARDS && (e.Reap? ==> e.shard < SHARDS)
  {
    Grants(c, shards, e, ip) as real + Level(c, Next(c, shards, e), ip, e.now)
      <= Level(c, shards, ip, clock) + Gain(c, e.now - clock)
  }

  lemma NextLevel(c: Config, shards: seq<Shard>, e: Event, clock: real, ip: Ip)
    requires Sane(c) && Sound(c, shards, clock) && Ordered([e], clock)
    requires ReapingIsSafe(c) || Spares(shards, e, ip)
    ensures PaysOnce(c, shards, e, clock, ip)
  {
    match e
    case Request(from, now) => RequestLevel(c, shards, from, clock, now, ip);
    case Reap(_, _, _) => ReapLevel(c, shards, e, clock, ip);
  }

  lemma AddUp(g: nat, rest: nat, before: real, between: real, after: real, gain: real, more: real)
    requires g as real + between <= before + gain && rest as real + after <= between + more
    ensures (g + rest) as real + after <= before + (gain + more)
  {
  }

  /** What `ip` is granted over the trace comes out of its level at the start and what is earned meanwhile. */
  ghost predicate Pays(c: Config, shards: seq<Shard>, trace: seq<Event>, clock: real, ip: Ip)
    requires |shards| == SHARDS && Ordered(trace, clock)
  {
    Granted(c, shards, trace, clock, ip) as real
        + Level(c, Final(c, shards, trace, clock), ip, EndTime(trace, clock))
            <= Level(c, shards, ip, clock) + Gain(c, EndTime(trace, clock) - clock)
  }

  /** One event that grants `g`, and a rest that grants `rest`. */
  lemma PaysTogether(c: Config, shards: seq<Shard>, next: seq<Shard>, last: seq<Shard>, ip: Ip, clock: real, now: real,
                     end: real, g: nat, rest: nat)
    requires |shards| == |next| == |last| == SHARDS
    requires g as real + Level(c, next, ip, now) <= Level(c, shards, ip, clock) + Gain(c, now - clock)
    requires rest as real + Level(c, last, ip, end) <= Level(c, next, ip, now) + Gain(c, end - now)
    ensures (g + rest) as real + Level(c, last, ip, end) <= Level(c, shards, ip, clock) + Gain(c, end - clock)
  {
    AddUp(g, rest, Level(c, shards, ip, clock), Level(c, next, ip, now), Level(c, last, ip, end),
          Gain(c, now - clock), Gain(c, end - now));
    EarnedInAll(c, clock, now, end);
  }

  lemma EarnedInAll(c: Config, clock: real, now: real, end: real)
    ensures Gain(c, end - clock) == Gain(c, now - clock) + Gain(c, end - now)
  {
    GainAdds(c, end - now, now - clock);
  }

  lemma FrontOf(c: Config, shards: seq<Shard>, trace: seq<Event>, clock: real, ip: Ip)
    requires |shards| == SHARDS && trace != [] && Ordered(trace, clock)
    ensures var e, next := trace[0], Next(c, shards, trace[0]);
      && Granted(c, shards, trace, clock, ip) == Grants(c, shards, e, ip) + Granted(c, next, trace[1..], e.now, ip)
      && Final(c, shards, trace, clock) == Final(c, next, trace[1..], e.now)
      && EndTime(trace, clock) == EndTime(trace[1..], e.now)
  {}

  lemma PaysFront(c: Config, shards: seq<Shard>, trace: seq<Event>, clock: real, ip: Ip)
    requires |shards| == SHARDS && trace != [] && Ordered(trace, clock)
    requires PaysOnce(c, shards, trace[0], clock, ip)
    requires Pays(c, Next(c, shards, trace[0]), trace[1..], trace[0].now, ip)
    ensures Pays(c, shards, trace, clock, ip)
  {
    var e, next := trace[0], Next(c, shards, trace[0]);
    FrontOf(c, shards, trace, clock, ip);
    PaysTogether(c, shards, next, Final(c, next, trace[1..], e.now), ip, clock, e.now, EndTime(trace, clock),
                 Grants(c, shards, e, ip), Granted(c, next, trace[1..], e.now, ip));
  }

  lemma {:induction false} LevelPays(c: Config, shards: seq<Shard>, trace: seq<Event>, clock: real, ip: Ip)
    requires Sane(c) && Sound(c, shards, clock) && Ordered(trace, clock)
    requires ReapingIsSafe(c) || NeverReaped(c, shards, trace, clock, ip)
    ensures Pays(c, shards, trace, clock, ip)
    decreases |trace|
  {
    if trace == [] {
      assert Gain(c, clock - clock) == 0.0;
    } else {
      assert Ordered([trace[0]], clock);
      NextLevel(c, shards, trace[0], clock, ip);
      NextSound(c, shards, trace[0], clock);
      LevelPays(c, Next(c, shards, trace[0]), trace[1..], trace[0].now, ip);
      PaysFront(c, shards, trace, clock, ip);
    }
  }

  lemma LaterEnd(c: Config, trace: seq<Event>, clock: real)
    requires trace != []
    ensures EndTime(trace[1..], trace[0].now) == EndTime(trace, clock)
    ensures Gain(c, EndTime(trace, clock) - clock)
         == Gain(c, EndTime(trace, clock) - trace[0].now) + Gain(c, trace[0].now - clock)
  {
    GainAdds(c, EndTime(trace, clock) - trace[0].now, trace[0].now - clock);
  }

  lemma LevelInRange(c: Config, shards: seq<Shard>, ip: Ip, clock: real)
    requires Sane(c) && Sound(c, shards, clock)
    ensures 0.0 <= Level(c, shards, ip, clock) <= c.burst
  {
    if ip in shards[ShardOf(ip)] {
      GainGrows(c, 0.0, clock - shards[ShardOf(ip)][ip].lastSeen);
    }
  }

  lemma WindowFrom(c: Config, shards: seq<Shard>, window: seq<Event>, ip: Ip)
    requires Sane(c) && window != [] && Ordered(window, window[0].now)
    requires Sound(c, shards, window[0].now)
    requires ReapingIsSafe(c) || NeverReaped(c, shards, window, window[0].now, ip)
    ensures Granted(c, shards, window, window[0].now, ip) as real
            <= c.burst + Gain(c, window[|window| - 1].now - window[0].now)
  {
    var start := window[0].now;
    LevelPays(c, shards, window, start, ip);
    RunSound(c, shards, window, start);
    LevelInRange(c, shards, ip, start);
    LevelInRange(c, Final(c, shards, window, start), ip, EndTime(window, start));
  }

  /**
    In every window of every run an address is let through at most burst + rate * length times,
    for every limiter if no sweep deletes its bucket within the window, and in any case if a
    deleted bucket would have been full.
  */
  lemma WindowBound(c: Config, before: seq<Event>, window: seq<Event>, ip: Ip)
    requires Sane(c) && Ordered(before, 0.0)
    requires window != [] && EndTime(before, 0.0) <= window[0].now && Ordered(window, window[0].now)
    requires ReapingIsSafe(c) || NeverReaped(c, Final(c, Empty(), before, 0.0), window, window[0].now, ip)
    ensures Granted(c, Final(c, Empty(), before, 0.0), window, window[0].now, ip) as real
            <= c.burst + Gain(c, window[|window| - 1].now - window[0].now)
  {
    RunSound(c, Empty(), before, 0.0);
    var shards, clock := Final(c, Empty(), before, 0.0), EndTime(before, 0.0);
    assert forall i, x | 0 <= i < SHARDS && x in shards[i] :: InRange(c, shards[i][x], clock);
    WindowFrom(c, shards, window, ip);
  }

  // ---------------------------------------------------------------- the window bound needs safe reaping

  lemma {:induction false} Concat(c: Config, shards: seq<Shard>, a: seq<Event>, b: seq<Event>, clock: real, ip: Ip)
    requires |shards| == SHARDS && Ordered(a, clock) && Ordered(b, EndTime(a, clock))
    ensures Ordered(a + b, clock)
    ensures Granted(c, shards, a + b, clock, ip)
         == Granted(c, shards, a, clock, ip) + Granted(c, Final(c, shards, a, clock), b, EndTime(a, clock), ip)
    decreases |a|
  {
    if a == [] {
      assert a + b == b;
    } else {
      assert (a + b)[1..] == a[1..] + b;
      LaterEnd(c, a, clock);
      Concat(c, Next(c, shards, a[0]), a[1..], b, a[0].now, ip);
    }
  }

  /** `trace` starts at `start` and ends at `end` with `ip` alone in its shard, out of tokens. */
  ghost predicate Drains(c: Config, shards: seq<Shard>, ip: Ip, trace: seq<Event>, start: real, end: real, x: real) {
    && |shards| == SHARDS && Ordered(trace, start) && EndTime(trace, start) == end
    && Holds(Final(c, shards, trace, start), ip, 0.0, end)
    && Final(c, shards, trace, start)[ShardOf(ip)].Keys == {ip}
    && Granted(c, shards, trace, start, ip) as real == x + Gain(c, end - start)
  }

  lemma DrainFront(c: Config, shards: seq<Shard>, ip: Ip, rest: seq<Event>, start: real, at: real, end: real, x: real)
    requires |shards| == SHARDS && start <= at && AllowOn(c, shards, ip, at).1
    requires Drains(c, AllowOn(c, shards, ip, at).0, ip, rest, at, end, x)
    ensures Drains(c, shards, ip, [Request(ip, at)] + rest, start, end, x + 1.0 - Gain(c, at - start))
  {
    var trace := [Request(ip, at)] + rest;
    assert trace[1..] == rest;
    GainAdds(c, end - at, at - start);
    LaterEnd(c, trace, start);
  }

  /** A bucket can be emptied to the last fraction of a token, which takes all it held and earned meanwhile. */
  lemma DrainBucket(c: Config, shards: seq<Shard>, ip: Ip, x: real, now: real) returns (trace: seq<Event>, end: real)
    requires Sane(c) && Holds(shards, ip, x, now) && 0.0 <= x <= c.burst && shards[ShardOf(ip)].Keys == {ip}
    ensures Drains(c, shards, ip, trace, now, end, x)
    decreases x.Floor
  {
    if x >= 1.0 {
      var next := AllowOn(c, shards, ip, now).0;
      assert Gain(c, now - now) == 0.0;
      assert next[ShardOf(ip)].Keys == {ip};
      var rest, last := DrainBucket(c, next, ip, x - 1.0, now);
      DrainFront(c, shards, ip, rest, now, now, last, x - 1.0);
      trace, end := [Request(ip, now)] + rest, last;
    } else {
      end := now + (1.0 - x) / c.rate;
      trace := DrainLast(c, shards, ip, x, now, end);
    }
  }

  lemma DrainLast(c: Config, shards: seq<Shard>, ip: Ip, x: real, now: real, end: real) returns (trace: seq<Event>)
    requires Sane(c) && Holds(shards, ip, x, now) && 0.0 <= x < 1.0 && shards[ShardOf(ip)].Keys == {ip}
    requires end == now + (1.0 - x) / c.rate
    ensures Drains(c, shards, ip, trace, now, end, x)
  {
    GainInverse(c, 1.0 - x);
    assert end - now == (1.0 - x) / c.rate;
    var next := AllowOn(c, shards, ip, end).0;
    assert next[ShardOf(ip)].Keys == {ip} && Holds(next, ip, 0.0, end);
    assert Gain(c, end - end) == 0.0;
    assert Drains(c, next, ip, [], end, end, 0.0);
    DrainFront(c, shards, ip, [], now, end, end, 0.0);
    trace := [Request(ip, end)] + [];
  }

  /** The same for an address without a bucket, whose first request makes a full one. */
  lemma DrainFresh(c: Config, shards: seq<Shard>, ip: Ip, now: real) returns (trace: seq<Event>, end: real)
    requires Sane(c) && c.maxPerMap >= 1 && |shards| == SHARDS && shards[ShardOf(ip)] == map[]
    ensures Drains(c, shards, ip, trace, now, end, c.burst)
    ensures trace != [] && trace[0].now == now <= end
  {
    var next := AllowOn(c, shards, ip, now).0;
    assert next[ShardOf(ip)] == map[ip := Fresh(c, now)];
    var rest;
    rest, end := DrainBucket(c, next, ip, c.burst - 1.0, now);
    assert Gain(c, now - now) == 0.0;
    DrainFront(c, shards, ip, rest, now, now, end, c.burst - 1.0);
    trace := [Request(ip, now)] + rest;
    OrderedEnd(trace, now);
  }

  lemma {:induction false} OrderedEnd(trace: seq<Event>, clock: real)
    requires Ordered(trace, clock)
    ensures clock <= EndTime(trace, clock)
    decreases |trace|
  {
    if trace != [] {
      OrderedEnd(trace[1..], trace[0].now);
      assert EndTime(trace[1..], trace[0].now) == EndTime(trace, clock);
    }
  }

  /** Half of what a limiter that refills too slowly still lacks after ten idle minutes, as a time. */
  function Late(c: Config): real
    requires c.rate > 0.0
  {
    ((c.burst - Gain(c, IDLE)) / 2.0) / c.rate
  }

  lemma LateIsEarly(c: Config)
    requires Sane(c) && !ReapingIsSafe(c)
    ensures Late(c) > 0.0 && Gain(c, IDLE + Late(c)) < c.burst
  {
    GainInverse(c, (c.burst - Gain(c, IDLE)) / 2.0);
    GainAdds(c, IDLE, Late(c));
  }

  /** An empty bucket is swept away, and its address drains a new one. */
  lemma ReapThenDrain(c: Config, shards: seq<Shard>, ip: Ip, now: real) returns (trace: seq<Event>, end: real)
    requires Sane(c) && !ReapingIsSafe(c) && c.maxPerMap >= 1
    requires Holds(shards, ip, 0.0, now) && shards[ShardOf(ip)].Keys == {ip}
    ensures trace != [] && Ordered(trace, now) && EndTime(trace, now) == end
    ensures Granted(c, shards, trace, now, ip) as real > Gain(c, end - now)
  {
    var at := now + IDLE + Late(c);
    LateIsEarly(c);
    var sweep := Reap(ShardOf(ip), at, at);
    var swept := Next(c, shards, sweep);
    assert swept[ShardOf(ip)] == map[];
    var rest;
    rest, end := DrainFresh(c, swept, ip, at);
    trace := [sweep] + rest;
    assert trace[1..] == rest;
    LaterEnd(c, trace, now);
    GainAdds(c, end - at, at - now);
    assert at - now == IDLE + Late(c);
  }

  lemma Together(first: seq<Event>, second: seq<Event>, clock: real)
    requires Ordered(first, clock) && second != [] && Ordered(second, EndTime(first, clock))
    ensures Ordered(first + second, clock)
    ensures (first + second)[|first + second| - 1].now == EndTime(second, EndTime(first, clock))
  {
    Concat(Config(1.0, 1.0, 0), Empty(), first, second, clock, []);
    assert (first + second)[|first + second| - 1] == second[|second| - 1];
  }

  /** Two traces that together let `ip` through more often than `x` and the time they take allow. */
  lemma TwoDrains(c: Config, shards: seq<Shard>, ip: Ip, first: seq<Event>, second: seq<Event>, x: real, end: real)
    requires |shards| == SHARDS && Ordered(first, 0.0)
    requires var middle := EndTime(first, 0.0);
      && second != [] && Ordered(second, middle) && EndTime(second, middle) == end
      && Granted(c, shards, first, 0.0, ip) as real == x + Gain(c, middle - 0.0)
      && Granted(c, Final(c, shards, first, 0.0), second, middle, ip) as real > Gain(c, end - middle)
    ensures Ordered(first + second, 0.0) && (first + second)[|first + second| - 1].now == end
    ensures Granted(c, shards, first + second, 0.0, ip) as real > x + Gain(c, end - 0.0)
  {
    var middle := EndTime(first, 0.0);
    Together(first, second, 0.0);
    Concat(c, shards, first, second, 0.0, ip);
    EarnedInAll(c, 0.0, middle, end);
    MoreInAll(Granted(c, shards, first, 0.0, ip), Granted(c, Final(c, shards, first, 0.0), second, middle, ip),
              x, Gain(c, middle - 0.0), Gain(c, end - middle));
  }

  lemma MoreInAll(first: nat, second: nat, x: real, before: real, after: real)
    requires first as real == x + before && second as real > after
    ensures (first + second) as real > x + (before + after)
  {}

  lemma DrainTwice(c: Config, shards: seq<Shard>, ip: Ip) returns (window: seq<Event>, end: real)
    requires Sane(c) && !ReapingIsSafe(c) && c.maxPerMap >= 1
    requires |shards| == SHARDS && shards[ShardOf(ip)] == map[]
    ensures window != [] && window[0].now == 0.0 && Ordered(window, 0.0) && window[|window| - 1].now == end
    ensures Granted(c, shards, window, 0.0, ip) as real > c.burst + Gain(c, end - 0.0)
  {
    var first, middle := DrainFresh(c, shards, ip, 0.0);
    var second;
    second, end := ReapThenDrain(c, Final(c, shards, first, 0.0), ip, middle);
    TwoDrains(c, shards, ip, first, second, c.burst, end);
    window := first + second;
    assert window[0] == first[0];
  }

  /**
    So safe reaping is the exact condition: every limiter that refills more slowly has a run,
    from its start, that lets an address through more often than the bound allows.
  */
  lemma EverySlowLimiterBreaksTheBound(c: Config, ip: Ip) returns (window: seq<Event>)
    requires Sane(c) && !ReapingIsSafe(c) && c.maxPerMap >= 1
    ensures window != [] && Ordered(window, window[0].now)
    ensures Granted(c, Empty(), window, window[0].now, ip) as real
            > c.burst + Gain(c, window[|window| - 1].now - window[0].now)
  {
    var end;
    window, end := DrainTwice(c, Empty(), ip);
  }

  /** Requests of `ip` come no earlier than `next`, and at least 1 / rate apart. */
  predicate Spaced(c: Config, trace: seq<Event>, ip: Ip, next: real)
    requires c.rate > 0.0
    decreases |trace|
  {
    trace == [] ||
    (if trace[0].Request? && trace[0].ip == ip
      then next <= trace[0].now && Spaced(c, trace[1..], ip, trace[0].now + 1.0 / c.rate)
      else Spaced(c, trace[1..], ip, next))
  }

  function Requests(trace: seq<Event>, ip: Ip): nat {
    if trace == [] then 0
    else (if trace[0].Request? && trace[0].ip == ip then 1 else 0) + Requests(trace[1..], ip)
  }

  /** Whenever `ip` asks it has a bucket, or its shard has room for one; other addresses may be refused. */
  predicate RoomFor(c: Config, shards: seq<Shard>, trace: seq<Event>, clock: real, ip: Ip)
    requires |shards| == SHARDS && Ordered(trace, clock)
    decreases |trace|
  {
    trace == []
    || ((trace[0].Request? && trace[0].ip == ip ==>
          ip in shards[ShardOf(ip)] || |shards[ShardOf(ip)]| < c.maxPerMap)
        && RoomFor(c, Next(c, shards, trace[0]), trace[1..], trace[0].now, ip))
  }

  lemma SpacedStep(c: Config, shards: seq<Shard>, e: Event, clock: real, ip: Ip, next: real)
    requires Sane(c) && Sound(c, shards, clock) && Ordered([e], clock) && e.Request? && e.ip == ip && next <= e.now
    requires ip in shards[ShardOf(ip)] || |shards[ShardOf(ip)]| < c.maxPerMap
    requires ip in shards[ShardOf(ip)] ==> shards[ShardOf(ip)][ip].lastSeen + 1.0 / c.rate <= next
    ensures Grants(c, shards, e, ip) == 1
    ensures var after := Next(c, shards, e)[ShardOf(ip)]; ip in after && after[ip].lastSeen == e.now
  {
    if ip in shards[ShardOf(ip)] {
      GainInverse(c, 1.0);
      GainGrows(c, 1.0 / c.rate, e.now - shards[ShardOf(ip)][ip].lastSeen);
    }
  }

  lemma PutOther(shards: seq<Shard>, i: nat, from: Ip, b: Bucket, j: nat, ip: Ip)
    requires i < |shards| && j < |shards| && from != ip
    ensures var after := shards[i := shards[i][from := b]][j];
      (ip in after <==> ip in shards[j]) && (ip in after ==> after[ip] == shards[j][ip])
  {
  }

  lemma ReapOther(shards: seq<Shard>, i: nat, asOf: real, j: nat, ip: Ip)
    requires i < |shards| && j < |shards|
    ensures var after := shards[i := ReapShard(shards[i], asOf)][j];
      && (ip in after ==> ip in shards[j] && after[ip] == shards[j][ip])
      && (ip in shards[j] && !(i == j && Expired(shards[j][ip], asOf)) ==> ip in after)
  {
  }

  /** What anything but a request of `ip` does to its bucket. */
  lemma OthersLeaveBucket(c: Config, shards: seq<Shard>, e: Event, ip: Ip)
    requires |shards| == SHARDS && (e.Reap? ==> e.shard < SHARDS) && !(e.Request? && e.ip == ip)
    ensures var shard, after := shards[ShardOf(ip)], Next(c, shards, e)[ShardOf(ip)];
      && (ip in after ==> ip in shard && after[ip] == shard[ip])
      && (ip in shard && Spares(shards, e, ip) ==> ip in after)
  {
    var j := ShardOf(ip);
    match e
    case Reap(i, asOf, _) => ReapOther(shards, i, asOf, j, ip);
    case Request(from, now) =>
      var i := ShardOf(from);
      if from in shards[i] {
        PutOther(shards, i, from, Serve(c, shards[i][from], now).0, j, ip);
      } else {
        PutOther(shards, i, from, Fresh(c, now), j, ip);
      }
  }

  /** An address that keeps 1 / rate between its requests is never refused while there is room for it. */
  lemma {:induction false} SpacedRequestsPass(c: Config, shards: seq<Shard>, trace: seq<Event>, clock: real,
                                              ip: Ip, next: real)
    requires Sane(c) && Sound(c, shards, clock) && Ordered(trace, clock) && RoomFor(c, shards, trace, clock, ip)
    requires ip in shards[ShardOf(ip)] ==> shards[ShardOf(ip)][ip].lastSeen + 1.0 / c.rate <= next
    requires Spaced(c, trace, ip, next)
    ensures Granted(c, shards, trace, clock, ip) == Requests(trace, ip)
    decreases |trace|
  {
    if trace != [] {
      var e := trace[0];
      assert Ordered([e], clock);
      NextSound(c, shards, e, clock);
      if e.Request? && e.ip == ip {
        SpacedStep(c, shards, e, clock, ip, next);
        SpacedRequestsPass(c, Next(c, shards, e), trace[1..], e.now, ip, e.now + 1.0 / c.rate);
      } else {
        OthersLeaveBucket(c, shards, e, ip);
        SpacedRequestsPass(c, Next(c, shards, e), trace[1..], e.now, ip, next);
      }
    }
  }

  lemma SparedStays(c: Config, shards: seq<Shard>, e: Event, ip: Ip)
    requires |shards| == SHARDS && (e.Reap? ==> e.shard < SHARDS) && Spares(shards, e, ip)
    requires ip in shards[ShardOf(ip)]
    ensures ip in Next(c, shards, e)[ShardOf(ip)]
  {
    if !(e.Request? && e.ip == ip) { OthersLeaveBucket(c, shards, e, ip); }
  }

  lemma {:induction false} PresentHasRoom(c: Config, shards: seq<Shard>, trace: seq<Event>, clock: real, ip: Ip)
    requires |shards| == SHARDS && Ordered(trace, clock) && ip in shards[ShardOf(ip)]
    requires NeverReaped(c, shards, trace, clock, ip)
    ensures RoomFor(c, shards, trace, clock, ip)
    decreases |trace|
  {
    if trace != [] {
      SparedStays(c, shards, trace[0], ip);
      PresentHasRoom(c, Next(c, shards, trace[0]), trace[1..], trace[0].now, ip);
    }
  }

  /**
    An address that has its bucket and keeps that distance is never refused, however many other
    addresses crowd the shards, until a sweep deletes the bucket.
  */
  lemma PresentAddressPasses(c: Config, shards: seq<Shard>, trace: seq<Event>, clock: real, ip: Ip, next: real)
    requires Sane(c) && Sound(c, shards, clock) && Ordered(trace, clock)
    requires ip in shards[ShardOf(ip)] && shards[ShardOf(ip)][ip].lastSeen + 1.0 / c.rate <= next
    requires NeverReaped(c, shards, trace, clock, ip) && Spaced(c, trace, ip, next)
    ensures Granted(c, shards, trace, clock, ip) == Requests(trace, ip)
  {
    PresentHasRoom(c, shards, trace, clock, ip);
    SpacedRequestsPass(c, shards, trace, clock, ip, next);
  }

  // ---------------------------------------------------------------- the code

  class ShardedRateLimiter {
    const c: Config
    const shards: array<Shard>

    constructor (rate: real, burst: real)
      ensures c == Config(rate, burst, 5000) && fresh(shards)
      ensures shards[..] == Empty()
    {
      c := Config(rate, burst, 5000);
      var made := new Shard[SHARDS];
      shards := made;
      new;
      for i := 0 to SHARDS
        invariant shards.Length == SHARDS && shards == made
        invariant forall j | 0 <= j < i :: shards[j] == map[]
      {
        shards[i] := map[];
      }
    }

    method Allow(ip: Ip, now: real) returns (ok: bool)
      requires shards.Length == SHARDS
      modifies shards
      ensures (shards[..], ok) == AllowOn(c, old(shards[..]), ip, now)
    {
      var h := HashIP(ip);
      var i := Index(h);
      if ip !in shards[i] {
        if |shards[i]| >= c.maxPerMap {
          return false;
        }
        shards[i] := shards[i][ip := Bucket(c.burst - 1.0, now)];
        return true;
      }
      ghost var b := shards[i][ip];
      var elapsed := now - shards[i][ip].lastSeen;
      var tokens := shards[i][ip].tokens + elapsed * c.rate;
      if tokens > c.burst {
        tokens := c.burst;
      }
      assert tokens == Refill(c, b, now);
      if tokens >= 1.0 {
        shards[i] := shards[i][ip := Bucket(tokens - 1.0, now)];
        return true;
      }
      shards[i] := shards[i][ip := Bucket(tokens, now)];
      return false;
    }

    /** One sweep; `now` is read once, before the first lock is taken. */
    method Sweep(now: real)
      requires shards.Length == SHARDS
      modifies shards
      ensures forall i | 0 <= i < SHARDS :: shards[i] == ReapShard(old(shards[i]), now)
    {
      for i := 0 to SHARDS
        invariant forall j | 0 <= j < i :: shards[j] == ReapShard(old(shards[j]), now)
        invariant forall j | i <= j < SHARDS :: shards[j] == old(shards[j])
      {
        var todo := shards[i].Keys;
        while todo != {}
          invariant todo <= shards[i].Keys
          invariant shards[i].Keys <= old(shards[i].Keys)
          invariant forall ip | ip in shards[i] :: shards[i][ip] == old(shards[i])[ip]
          invariant forall ip | ip in old(shards[i]) ::
            ip in shards[i] <==> ip in todo || !Expired(old(shards[i])[ip], now)
          invariant forall j | 0 <= j < SHARDS && j != i ::
              shards[j] == if j < i then ReapShard(old(shards[j]), now) else old(shards[j])
          decreases todo
        {
          var ip :| ip in todo;
          todo := todo - {ip};
          if now - shards[i][ip].lastSeen > IDLE {
            shards[i] := shards[i] - {ip};
          }
        }
        assert shards[i] == ReapShard(old(shards[i]), now);
      }
    }
  }
}
