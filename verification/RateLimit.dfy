/** Login throttling: src/suliko/core/ratelimit.py. Instants and windows are integers; the clock
    never goes back (`time.monotonic`). */
module RateLimit {
  import opened Options

  /** The hits after a cutoff. */
  function Recent(hits: seq<int>, cutoff: int): seq<int> {
    if hits == [] then []
    else
      var rest, last := Recent(hits[..|hits| - 1], cutoff), hits[|hits| - 1];
      if last > cutoff then rest + [last] else rest
  }

  /** The hits in order, none after `now`. */
  predicate UpTo(hits: seq<int>, now: int) {
    hits == [] || (hits[|hits| - 1] <= now && UpTo(hits[..|hits| - 1], hits[|hits| - 1]))
  }

  lemma RecentSnoc(hits: seq<int>, t: int, cutoff: int)
    ensures Recent(hits + [t], cutoff) == if t > cutoff then Recent(hits, cutoff) + [t] else Recent(hits, cutoff)
  {
    assert (hits + [t])[..|hits|] == hits;
  }

  /** What an earlier pruning dropped would be dropped now. */
  lemma {:induction false} PruningForgetsNothing(hits: seq<int>, before: int, cutoff: int)
    requires before <= cutoff
    ensures Recent(Recent(hits, before), cutoff) == Recent(hits, cutoff)
  {
    if hits != [] {
      var rest, last := hits[..|hits| - 1], hits[|hits| - 1];
      PruningForgetsNothing(rest, before, cutoff);
      RecentSnoc(Recent(rest, before), last, cutoff);
    }
  }

  // ---- The counter in Redis ----

  /** `INCR` and `EXPIRE`: how many, and until when. */
  datatype Counter = Counter(count: nat, expires: int)

  function CounterAt(c: Option<Counter>, now: int): nat {
    if c.Some? && now < c.value.expires then c.value.count else 0
  }

  function Incremented(c: Option<Counter>, now: int, window: int): Counter {
    Counter(CounterAt(c, now) + 1, now + window)
  }

  /** The counter after some hits. */
  function CounterAfter(hits: seq<int>, window: int): Option<Counter> {
    if hits == [] then None
    else Some(Incremented(CounterAfter(hits[..|hits| - 1], window), hits[|hits| - 1], window))
  }

  lemma {:induction false} CounterCovers(hits: seq<int>, now: int, window: int)
    requires UpTo(hits, now) && window > 0
    ensures CounterAt(CounterAfter(hits, window), now) >= |Recent(hits, now - window)|
    ensures hits != [] ==> CounterAfter(hits, window).value.expires == hits[|hits| - 1] + window
  {
    if hits != [] {
      var rest, last := hits[..|hits| - 1], hits[|hits| - 1];
      CounterCovers(rest, last, window);
      if last > now - window {
        RecentShrinks(rest, last - window, now - window);
      } else {
        NoneRecent(hits, now - window);
      }
    }
  }

  lemma {:induction false} RecentShrinks(hits: seq<int>, before: int, cutoff: int)
    requires before <= cutoff
    ensures |Recent(hits, before)| >= |Recent(hits, cutoff)|
  {
    if hits != [] { RecentShrinks(hits[..|hits| - 1], before, cutoff); }
  }

  lemma {:induction false} NoneRecent(hits: seq<int>, cutoff: int)
    requires UpTo(hits, cutoff)
    ensures Recent(hits, cutoff) == []
  {
    if hits != [] { NoneRecent(hits[..|hits| - 1], cutoff); }
  }

  lemma {:induction false} AllRecent(hits: seq<int>, cutoff: int, now: int)
    requires UpTo(hits, now) && hits != [] && hits[0] > cutoff
    ensures Recent(hits, cutoff) == hits && hits[|hits| - 1] > cutoff
  {
    if |hits| > 1 {
      AllRecent(hits[..|hits| - 1], cutoff, hits[|hits| - 1]);
    } else {
      assert Recent(hits[..0], cutoff) == [];
    }
  }

  /** The hits since the last quiet time of a whole window. */
  function Chain(hits: seq<int>, window: int): seq<int> {
    if hits == [] then []
    else
      var rest, last := Chain(hits[..|hits| - 1], window), hits[|hits| - 1];
      if rest != [] && last < rest[|rest| - 1] + window then rest + [last] else [last]
  }

  lemma {:induction false} CounterIsChain(hits: seq<int>, window: int)
    requires hits != [] && window > 0
    ensures CounterAfter(hits, window) == Some(Counter(|Chain(hits, window)|, hits[|hits| - 1] + window))
    ensures Chain(hits, window) != [] && Chain(hits, window)[|Chain(hits, window)| - 1] == hits[|hits| - 1]
  {
    if |hits| > 1 {
      CounterIsChain(hits[..|hits| - 1], window);
    } else {
      assert hits[..0] == [];
    }
  }

  lemma {:induction false} ChainUpTo(hits: seq<int>, window: int, now: int)
    requires UpTo(hits, now) && window > 0
    ensures UpTo(Chain(hits, window), now)
  {
    if hits != [] {
      var rest, last := hits[..|hits| - 1], hits[|hits| - 1];
      ChainUpTo(rest, window, last);
      assert (Chain(rest, window) + [last])[..|Chain(rest, window)|] == Chain(rest, window);
      assert [last][..0] == [];
    }
  }

  lemma LessUpTo(hits: seq<int>, before: int, now: int)
    requires UpTo(hits, before) && (hits == [] || hits[|hits| - 1] <= now)
    ensures UpTo(hits, now)
  {
  }

  /** An earlier last hit is of this window, or none before is. */
  lemma RecentRest(rest: seq<int>, last: int, now: int, window: int)
    requires UpTo(rest, last) && last <= now && window > 0 && rest != []
    ensures UpTo(rest, now)
    ensures rest[|rest| - 1] <= now - window ==> Recent(rest, now - window) == [] == Recent(Chain(rest, window), now - window)
  {
    if rest[|rest| - 1] <= now - window {
      LessUpTo(rest, last, now - window);
      NoneRecent(rest, now - window);
      ChainUpTo(rest, window, now - window);
      NoneRecent(Chain(rest, window), now - window);
    }
  }

  lemma ChainSnoc(hits: seq<int>, t: int, window: int)
    ensures var chain := Chain(hits, window);
            Chain(hits + [t], window) == if chain != [] && t < chain[|chain| - 1] + window then chain + [t] else [t]
  {
    assert (hits + [t])[..|hits|] == hits;
  }

  lemma LastUpTo(hits: seq<int>, now: int)
    requires UpTo(hits, now) && hits != []
    ensures hits[|hits| - 1] <= now && UpTo(hits[..|hits| - 1], hits[|hits| - 1])
  {
  }

  lemma NoHits(cutoff: int, window: int)
    ensures Recent([], cutoff) == [] && Chain([], window) == []
  {
  }

  /** The hits of this window are in the chain, if the last hit is of this window. */
  lemma {:induction false} RecentIsInChain(hits: seq<int>, now: int, window: int)
    requires UpTo(hits, now) && window > 0 && hits != [] && hits[|hits| - 1] > now - window
    ensures Recent(hits, now - window) == Recent(Chain(hits, window), now - window)
    ensures Recent(hits, now - window) != []
  {
    hide *;
    var rest, last := hits[..|hits| - 1], hits[|hits| - 1];
    var chain := Chain(rest, window);
    LastUpTo(hits, now);
    NoHits(now - window, window);
    assert hits == rest + [last] && [] + [last] == [last];
    ChainSnoc(rest, last, window);
    RecentSnoc(rest, last, now - window);
    RecentSnoc(chain, last, now - window);
    RecentSnoc([], last, now - window);
    if rest != [] {
      CounterIsChain(rest, window);
      RecentRest(rest, last, now, window);
      if rest[|rest| - 1] > now - window { RecentIsInChain(rest, now, window); }
    }
  }

  lemma CounterLives(hits: seq<int>, now: int, window: int)
    requires window > 0 && hits != [] && hits[|hits| - 1] > now - window
    ensures CounterAt(CounterAfter(hits, window), now) == |Chain(hits, window)| > 0
  {
    CounterIsChain(hits, window);
    hide CounterAfter, Chain;
  }

  /** While the counter lives, it agrees with the sliding count exactly when the first hit of
      its chain is of this window. */
  lemma LivingCounter(hits: seq<int>, now: int, window: int)
    requires UpTo(hits, now) && window > 0 && hits != [] && hits[|hits| - 1] > now - window
    ensures CounterAt(CounterAfter(hits, window), now) == |Chain(hits, window)| > 0
    ensures Recent(hits, now - window) != []
    ensures |Chain(hits, window)| == |Recent(hits, now - window)| <==> Chain(hits, window)[0] > now - window
  {
    hide *;
    CounterLives(hits, now, window);
    RecentIsInChain(hits, now, window);
    ChainUpTo(hits, window, now);
    if Chain(hits, window)[0] > now - window {
      AllRecent(Chain(hits, window), now - window, now);
    } else {
      OneOld(Chain(hits, window), now - window);
    }
  }

  /** The counter is never below the sliding count; the two agree exactly when all the hits since
      the last quiet window are still in this one. */
  lemma CounterDominates(hits: seq<int>, now: int, window: int)
    requires UpTo(hits, now) && window > 0
    ensures CounterAt(CounterAfter(hits, window), now) >= |Recent(hits, now - window)|
    ensures CounterAt(CounterAfter(hits, window), now) == 0 <==> Recent(hits, now - window) == []
    ensures CounterAt(CounterAfter(hits, window), now) == |Recent(hits, now - window)|
            <==> hits == [] || hits[|hits| - 1] <= now - window || Chain(hits, window)[0] > now - window
  {
    CounterCovers(hits, now, window);
    if hits != [] {
      if hits[|hits| - 1] > now - window {
        LivingCounter(hits, now, window);
      } else {
        LessUpTo(hits, now, now - window);
        NoneRecent(hits, now - window);
      }
    }
  }

  lemma {:induction false} OneOld(hits: seq<int>, cutoff: int)
    requires hits != [] && hits[0] <= cutoff
    ensures |Recent(hits, cutoff)| < |hits|
  {
    if |hits| > 1 {
      OneOld(hits[..|hits| - 1], cutoff);
    } else {
      assert Recent(hits[..0], cutoff) == [];
    }
  }

  // ---- The limiter ----

  function At(m: map<string, seq<int>>, key: string): seq<int> {
    if key in m then m[key] else []
  }

  function CounterOf(m: map<string, Counter>, key: string): Option<Counter> {
    if key in m then Some(m[key]) else None
  }

  /** What is kept of a key in process answers as all its hits would. */
  ghost predicate LocalOk(hits: seq<int>, bucket: seq<int>, clock: int, window: int) {
    UpTo(hits, clock) && Recent(bucket, clock - window) == Recent(hits, clock - window)
  }

  ghost predicate RedisOk(hits: seq<int>, counter: Option<Counter>, clock: int, window: int) {
    UpTo(hits, clock) && counter == CounterAfter(hits, window)
  }

  lemma LocalLater(hits: seq<int>, bucket: seq<int>, clock: int, window: int, now: int)
    requires LocalOk(hits, bucket, clock, window) && now >= clock
    ensures LocalOk(hits, bucket, now, window)
  {
    PruningForgetsNothing(bucket, clock - window, now - window);
    PruningForgetsNothing(hits, clock - window, now - window);
  }

  /** Pruned, a bucket counts the hits of the window. */
  lemma LocalPruned(hits: seq<int>, bucket: seq<int>, now: int, window: int)
    requires LocalOk(hits, bucket, now, window)
    ensures LocalOk(hits, Recent(bucket, now - window), now, window)
  {
    PruningForgetsNothing(bucket, now - window, now - window);
  }

  lemma LocalHit(hits: seq<int>, bucket: seq<int>, now: int, window: int)
    requires LocalOk(hits, bucket, now, window) && window > 0
    ensures LocalOk(hits + [now], bucket + [now], now, window)
    ensures |Recent(hits + [now], now - window)| == |Recent(bucket, now - window)| + 1
  {
    RecentSnoc(hits, now, now - window);
    RecentSnoc(bucket, now, now - window);
    assert (hits + [now])[..|hits|] == hits;
  }

  lemma PrunedHit(hits: seq<int>, bucket: seq<int>, now: int, window: int)
    requires LocalOk(hits, bucket, now, window) && window > 0
    ensures var pruned := Recent(bucket, now - window);
            LocalOk(hits + [now], pruned + [now], now, window) && |Recent(hits + [now], now - window)| == |pruned| + 1
  {
    LocalPruned(hits, bucket, now, window);
    PruningForgetsNothing(bucket, now - window, now - window);
    LocalHit(hits, Recent(bucket, now - window), now, window);
  }

  lemma RedisHit(hits: seq<int>, counter: Option<Counter>, now: int, window: int)
    requires RedisOk(hits, counter, now, window) && window > 0
    ensures RedisOk(hits + [now], Some(Incremented(counter, now, window)), now, window)
    ensures Incremented(counter, now, window).count >= |Recent(hits + [now], now - window)|
  {
    assert (hits + [now])[..|hits|] == hits;
    CounterCovers(hits + [now], now, window);
  }

  /** `full` keeps every hit of a key since it was last cleared. */
  class RateLimiter {
    const windows: string -> int
    const useRedis: bool
    var local: map<string, seq<int>>
    var counters: map<string, Counter>
    ghost var full: map<string, seq<int>>
    ghost var clock: int

    ghost predicate ValidAt(now: int)
      reads this
    {
      if useRedis then forall key :: RedisOk(At(full, key), CounterOf(counters, key), now, windows(key))
      else forall key :: LocalOk(At(full, key), At(local, key), now, windows(key))
    }

    ghost predicate Valid()
      reads this
    {
      ValidAt(clock)
    }

    constructor (windows: string -> int, useRedis: bool, now: int)
      ensures Valid() && full == map[] && clock == now && this.windows == windows && this.useRedis == useRedis
    {
      this.windows, this.useRedis := windows, useRedis;
      local, counters, full, clock := map[], map[], map[], now;
    }

    ghost method LaterIsValid(now: int)
      requires Valid() && now >= clock
      ensures ValidAt(now)
    {
      if useRedis {
        forall key ensures RedisOk(At(full, key), CounterOf(counters, key), now, windows(key)) {
          assert RedisOk(At(full, key), CounterOf(counters, key), clock, windows(key));
        }
      } else {
        forall key ensures LocalOk(At(full, key), At(local, key), now, windows(key)) {
          LocalLater(At(full, key), At(local, key), clock, windows(key), now);
        }
      }
    }

    method Prune(key: string, now: int) returns (bucket: seq<int>)
      ensures bucket == Recent(At(local, key), now - windows(key))
    {
      var before := At(local, key);
      bucket := [];
      for i := 0 to |before|
        invariant bucket == Recent(before[..i], now - windows(key))
      {
        assert before[..i + 1][..i] == before[..i];
        if before[i] > now - windows(key) { bucket := bucket + [before[i]]; }
      }
      assert before[..|before|] == before;
    }

    method HitRedis(key: string, now: int) returns (count: nat)
      requires useRedis && ValidAt(now) && windows(key) > 0
      modifies this
      ensures Valid() && clock == now && full == old(full)[key := At(old(full), key) + [now]]
      ensures count >= |Recent(At(full, key), now - windows(key))|
    {
      RedisHit(At(full, key), CounterOf(counters, key), now, windows(key));
      hide RedisOk, LocalOk, Recent, Incremented;
      var counter := Incremented(CounterOf(counters, key), now, windows(key));
      counters := counters[key := counter];
      count := counter.count;
      full := full[key := At(full, key) + [now]];
      clock := now;
    }

    method HitLocal(key: string, now: int) returns (count: nat)
      requires !useRedis && ValidAt(now) && windows(key) > 0
      modifies this
      ensures Valid() && clock == now && full == old(full)[key := At(old(full), key) + [now]]
      ensures count == |Recent(At(full, key), now - windows(key))|
    {
      PrunedHit(At(full, key), At(local, key), now, windows(key));
      hide RedisOk, LocalOk, Recent;
      var bucket := Prune(key, now);
      local := local[key := bucket + [now]];
      count := |bucket| + 1;
      full := full[key := At(full, key) + [now]];
      clock := now;
    }

    /** In process the count is that of all the hits; in Redis it is no less. */
    method HitCount(key: string, now: int) returns (count: nat)
      requires Valid() && now >= clock && windows(key) > 0
      modifies this
      ensures Valid() && clock == now && full == old(full)[key := At(old(full), key) + [now]]
      ensures !useRedis ==> count == |Recent(At(full, key), now - windows(key))|
      ensures useRedis ==> count >= |Recent(At(full, key), now - windows(key))|
    {
      LaterIsValid(now);
      hide Valid, ValidAt, Recent;
      if useRedis { count := HitRedis(key, now); } else { count := HitLocal(key, now); }
    }

    method Current(key: string, now: int) returns (count: nat)
      requires Valid() && now >= clock && windows(key) > 0
      modifies this
      ensures Valid() && clock == now && full == old(full)
      ensures !useRedis ==> count == |Recent(At(full, key), now - windows(key))|
      ensures useRedis ==> count >= |Recent(At(full, key), now - windows(key))|
    {
      LaterIsValid(now);
      CurrentCounts(At(full, key), At(local, key), CounterOf(counters, key), now, windows(key));
      hide LocalOk, RedisOk, Recent;
      if useRedis {
        count := CounterAt(CounterOf(counters, key), now);
      } else {
        var bucket := Prune(key, now);
        local := local[key := bucket];
        count := |bucket|;
      }
      clock := now;
    }

    method Clear(key: string)
      requires Valid()
      modifies this
      ensures Valid() && clock == old(clock) && full == old(full) - {key}
    {
      assert LocalOk([], [], clock, windows(key)) && RedisOk([], None, clock, windows(key));
      hide LocalOk, RedisOk;
      if useRedis { counters := counters - {key}; } else { local := local - {key}; }
      full := full - {key};
    }

    /** May the attempt proceed: never where the hits of either key reach their limit, and in
        process always otherwise. */
    method CheckLogin(account: string, ip: string, perAccount: nat, perIp: nat, now: int) returns (wait: Option<int>)
      requires Valid() && now >= clock && windows(account) > 0 && windows(ip) > 0
      modifies this
      ensures Valid() && clock == now && full == old(full)
      ensures wait.None? ==> |Recent(At(full, account), now - windows(account))| < perAccount
                             && |Recent(At(full, ip), now - windows(ip))| < perIp
      ensures !useRedis && wait.Some? ==> |Recent(At(full, account), now - windows(account))| >= perAccount
                                          || |Recent(At(full, ip), now - windows(ip))| >= perIp
    {
      hide Valid, Recent;
      var count := Current(account, now);
      if count >= perAccount { return Some(windows(account)); }
      count := Current(ip, now);
      if count >= perIp { return Some(windows(account)); }
      return None;
    }

    method RecordLoginFailure(account: string, ip: string, now: int)
      requires Valid() && now >= clock && windows(account) > 0 && windows(ip) > 0 && account != ip
      modifies this
      ensures Valid() && clock == now
      ensures full == old(full)[account := At(old(full), account) + [now]][ip := At(old(full), ip) + [now]]
    {
      hide Valid, Recent;
      var _ := HitCount(account, now);
      var _ := HitCount(ip, now);
    }
  }

  lemma CurrentCounts(hits: seq<int>, bucket: seq<int>, counter: Option<Counter>, now: int, window: int)
    requires window > 0
    ensures LocalOk(hits, bucket, now, window) ==>
              LocalOk(hits, Recent(bucket, now - window), now, window)
              && |Recent(bucket, now - window)| == |Recent(hits, now - window)|
    ensures RedisOk(hits, counter, now, window) ==> CounterAt(counter, now) >= |Recent(hits, now - window)|
  {
    if LocalOk(hits, bucket, now, window) { LocalPruned(hits, bucket, now, window); }
    if RedisOk(hits, counter, now, window) { CounterCovers(hits, now, window); }
  }

  // ---- How many failures a window holds ----

  /** An attempt passes the check, and ends in a recorded failure or not. */
  datatype Act = Pass(t: int) | Fail(t: int) | End(t: int)

  /** What is known of a key that is never cleared: its failures, and the attempts between check
      and record. */
  datatype State = State(clock: int, hits: seq<int>, flight: nat)

  ghost predicate Allowed(s: State, act: Act, window: int, limit: nat, k: nat) {
    act.t >= s.clock &&
    match act
    case Pass(t) => |Recent(s.hits, t - window)| < limit && s.flight < k
    case Fail(_) => s.flight > 0
    case End(_) => s.flight > 0
  }

  function Then(s: State, act: Act): State {
    match act
    case Pass(t) => State(t, s.hits, s.flight + 1)
    case Fail(t) => State(t, s.hits + [t], if s.flight > 0 then s.flight - 1 else 0)
    case End(t) => State(t, s.hits, if s.flight > 0 then s.flight - 1 else 0)
  }

  function Played(s: State, acts: seq<Act>): State {
    if acts == [] then s else Then(Played(s, acts[..|acts| - 1]), acts[|acts| - 1])
  }

  ghost predicate Legal(s: State, acts: seq<Act>, window: int, limit: nat, k: nat) {
    acts == [] ||
    (var rest := acts[..|acts| - 1];
     Legal(s, rest, window, limit, k) && Allowed(Played(s, rest), acts[|acts| - 1], window, limit, k))
  }

  function CountIn(hits: seq<int>, from: int, to: int): nat {
    if hits == [] then 0
    else
      var last := hits[|hits| - 1];
      CountIn(hits[..|hits| - 1], from, to) + if from < last <= to then 1 else 0
  }

  lemma {:induction false} CountIsRecent(hits: seq<int>, from: int, to: int)
    requires UpTo(hits, to)
    ensures CountIn(hits, from, to) == |Recent(hits, from)|
  {
    if hits != [] { CountIsRecent(hits[..|hits| - 1], from, to); }
  }

  ghost predicate Within(s: State, from: int, window: int, limit: nat, k: nat) {
    && UpTo(s.hits, s.clock) && s.flight <= k
    && (s.clock <= from + window ==> CountIn(s.hits, from, from + window) + s.flight < limit + k)
    && CountIn(s.hits, from, from + window) < limit + k
  }

  lemma StepWithin(s: State, act: Act, from: int, window: int, limit: nat, k: nat)
    requires window > 0 && Within(s, from, window, limit, k) && Allowed(s, act, window, limit, k)
    ensures Within(Then(s, act), from, window, limit, k)
  {
    match act {
      case Pass(t) =>
        if t <= from + window {
          CountIsRecent(s.hits, from, from + window);
          RecentShrinks(s.hits, t - window, from);
        }
      case Fail(t) =>
        assert (s.hits + [t])[..|s.hits|] == s.hits;
      case End(t) =>
    }
  }

  /** With at most `k` attempts between check and record at once, any window holds at most
      `limit + k - 1` recorded failures, wherever it begins. */
  lemma {:induction false} AnyWindowHolds(acts: seq<Act>, start: int, from: int, window: int, limit: nat, k: nat)
    requires window > 0 && limit > 0 && k > 0 && Legal(State(start, [], 0), acts, window, limit, k)
    ensures Within(Played(State(start, [], 0), acts), from, window, limit, k)
    ensures CountIn(Played(State(start, [], 0), acts).hits, from, from + window) <= limit + k - 1
  {
    if acts != [] {
      var rest := acts[..|acts| - 1];
      AnyWindowHolds(rest, start, from, window, limit, k);
      StepWithin(Played(State(start, [], 0), rest), acts[|acts| - 1], from, window, limit, k);
    }
  }

  // ---- The bound is reached ----

  function Repeat(act: Act, n: nat): seq<Act> {
    if n == 0 then [] else Repeat(act, n - 1) + [act]
  }

  /** Failures one after another up to one below the limit, then `k` attempts at once. */
  function Burst(limit: nat, k: nat): seq<Act>
    requires limit > 0
  {
    OneByOne(limit - 1) + Repeat(Pass(0), k) + Repeat(Fail(0), k)
  }

  function OneByOne(n: nat): seq<Act> {
    if n == 0 then [] else OneByOne(n - 1) + [Pass(0), Fail(0)]
  }

  function Zeros(n: nat): seq<int> {
    if n == 0 then [] else Zeros(n - 1) + [0]
  }

  lemma {:induction false} RecentZeros(n: nat, window: int)
    requires window > 0
    ensures |Recent(Zeros(n), -window)| == n && CountIn(Zeros(n), -1, window - 1) == n
  {
    if n > 0 {
      RecentZeros(n - 1, window);
      RecentSnoc(Zeros(n - 1), 0, -window);
      assert (Zeros(n - 1) + [0])[..|Zeros(n - 1)|] == Zeros(n - 1);
    }
  }

  ghost predicate Leads(acts: seq<Act>, hits: nat, flight: nat, window: int, limit: nat, k: nat) {
    Legal(State(0, [], 0), acts, window, limit, k) && Played(State(0, [], 0), acts) == State(0, Zeros(hits), flight)
  }

  lemma LeadsPass(acts: seq<Act>, hits: nat, flight: nat, window: int, limit: nat, k: nat)
    requires window > 0 && hits < limit && flight < k && Leads(acts, hits, flight, window, limit, k)
    ensures Leads(acts + [Pass(0)], hits, flight + 1, window, limit, k)
  {
    hide Legal, Played, Recent, Zeros;
    PlayedSnoc(State(0, [], 0), acts, Pass(0), window, limit, k);
    RecentZeros(hits, window);
  }

  lemma LeadsFail(acts: seq<Act>, hits: nat, flight: nat, window: int, limit: nat, k: nat)
    requires window > 0 && flight > 0 && Leads(acts, hits, flight, window, limit, k)
    ensures Leads(acts + [Fail(0)], hits + 1, flight - 1, window, limit, k)
  {
    assert Zeros(hits + 1) == Zeros(hits) + [0];
    hide Legal, Played, Recent, Zeros;
    PlayedSnoc(State(0, [], 0), acts, Fail(0), window, limit, k);
  }

  lemma PlayedSnoc(s: State, acts: seq<Act>, act: Act, window: int, limit: nat, k: nat)
    ensures Played(s, acts + [act]) == Then(Played(s, acts), act)
    ensures Legal(s, acts + [act], window, limit, k) <==> Legal(s, acts, window, limit, k) && Allowed(Played(s, acts), act, window, limit, k)
  {
    assert (acts + [act])[..|acts|] == acts;
    hide Allowed, Then;
  }

  lemma NothingLeads(window: int, limit: nat, k: nat)
    ensures Leads([], 0, 0, window, limit, k)
  {
  }

  lemma {:induction false} OneByOneLeads(n: nat, window: int, limit: nat, k: nat)
    requires window > 0 && n <= limit && k > 0
    ensures Leads(OneByOne(n), n, 0, window, limit, k)
  {
    hide Leads;
    if n > 0 {
      OneByOneLeads(n - 1, window, limit, k);
      LeadsPass(OneByOne(n - 1), n - 1, 0, window, limit, k);
      LeadsFail(OneByOne(n - 1) + [Pass(0)], n - 1, 1, window, limit, k);
      assert OneByOne(n - 1) + [Pass(0)] + [Fail(0)] == OneByOne(n);
    } else {
      NothingLeads(window, limit, k);
    }
  }

  lemma {:induction false} PassesLead(acts: seq<Act>, n: nat, hits: nat, window: int, limit: nat, k: nat)
    requires window > 0 && hits < limit && n <= k && Leads(acts, hits, 0, window, limit, k)
    ensures Leads(acts + Repeat(Pass(0), n), hits, n, window, limit, k)
  {
    hide Leads;
    if n == 0 {
      assert acts + Repeat(Pass(0), 0) == acts;
    } else {
      PassesLead(acts, n - 1, hits, window, limit, k);
      LeadsPass(acts + Repeat(Pass(0), n - 1), hits, n - 1, window, limit, k);
      assert acts + Repeat(Pass(0), n - 1) + [Pass(0)] == acts + Repeat(Pass(0), n);
    }
  }

  lemma {:induction false} FailsLead(acts: seq<Act>, n: nat, hits: nat, flight: nat, window: int, limit: nat, k: nat)
    requires window > 0 && n <= flight && Leads(acts, hits, flight, window, limit, k)
    ensures Leads(acts + Repeat(Fail(0), n), hits + n, flight - n, window, limit, k)
  {
    hide Leads;
    if n == 0 {
      assert acts + Repeat(Fail(0), 0) == acts;
    } else {
      FailsLead(acts, n - 1, hits, flight, window, limit, k);
      LeadsFail(acts + Repeat(Fail(0), n - 1), hits + n - 1, flight - n + 1, window, limit, k);
      assert acts + Repeat(Fail(0), n - 1) + [Fail(0)] == acts + Repeat(Fail(0), n);
    }
  }

  /** The bound cannot be lowered. */
  lemma BoundIsReached(window: int, limit: nat, k: nat)
    requires window > 0 && limit > 0 && k > 0
    ensures Legal(State(0, [], 0), Burst(limit, k), window, limit, k)
    ensures CountIn(Played(State(0, [], 0), Burst(limit, k)).hits, -1, window - 1) == limit + k - 1
  {
    OneByOneLeads(limit - 1, window, limit, k);
    PassesLead(OneByOne(limit - 1), k, limit - 1, window, limit, k);
    FailsLead(OneByOne(limit - 1) + Repeat(Pass(0), k), k, limit - 1, k, window, limit, k);
    RecentZeros(limit + k - 1, window);
    assert Leads(Burst(limit, k), limit + k - 1, 0, window, limit, k);
    hide Recent, CountIn, Burst, Zeros, Played, Legal;
  }
}
