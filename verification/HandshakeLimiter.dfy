/** The token bucket in front of unauthenticated handshakes (`hsLimiter`). Tokens are exact
    rationals here; times are nanoseconds. */
module HandshakeLimiter {

  const BURST := 30.0
  const RATE := 5.0            // tokens per second
  const SECOND := 1000000000.0

  datatype Bucket = Bucket(tokens: real, last: int)

  type Buckets = map<string, Bucket>

  function Earned(ns: int): real { ns as real * RATE / SECOND }

  /** Tokens a bucket holds at `now`. */
  function Refill(b: Bucket, now: int): Bucket {
    if now - b.last > 0 then
      var t := b.tokens + Earned(now - b.last);
      Bucket(if t > BURST then BURST else t, now)
    else b
  }

  /** One handshake attempt against a bucket. */
  function Take(b: Bucket, now: int): (Bucket, bool) {
    var r := Refill(b, now);
    if r.tokens < 1.0 then (r, false) else (Bucket(r.tokens - 1.0, r.last), true)
  }

  /** The bucket an attempt of `ip` is charged to; a new source starts full. */
  function BucketOf(m: Buckets, ip: string, now: int): Bucket {
    if ip in m then m[ip] else Bucket(BURST, now)
  }

  /** What `allow` may leave: only an unknown source finding more than 4096 buckets evicts, and
      then an arbitrary choice of fewer than 2048 survives. */
  ghost predicate Kept(m: Buckets, ip: string, rest: Buckets) {
    if ip !in m && |m| > 4096 then rest.Keys <= m.Keys && |rest| < 2048 && forall k <- rest :: rest[k] == m[k]
    else rest == m
  }

  class Limiter {
    var buckets: Buckets
    var dropped: nat

    ghost predicate Valid()
      reads this
    {
      |buckets| <= 4097 && forall k <- buckets :: 0.0 <= buckets[k].tokens <= BURST
    }

    constructor ()
      ensures Valid() && buckets == map[] && dropped == 0
    {
      buckets, dropped := map[], 0;
    }

    /** `allow`; `rest` is what eviction left. */
    method Allow(ip: string, now: int) returns (ok: bool, ghost rest: Buckets)
      requires Valid()
      modifies this
      ensures Valid() && Kept(old(buckets), ip, rest)
      ensures var (b, taken) := Take(BucketOf(rest, ip, now), now);
        ok == taken && buckets == rest[ip := b]
      ensures dropped == old(dropped) + if ok then 0 else 1
    {
      if ip !in buckets {
        if |buckets| > 4096 { EvictHalf(); }
        rest := buckets;
        buckets := buckets[ip := Bucket(BURST, now)];
      } else {
        rest := buckets;
      }
      CardAfterInsert(rest, ip, buckets[ip]);
      var b := buckets[ip];
      var elapsed := now - b.last;
      if elapsed > 0 {
        var tokens := b.tokens + Earned(elapsed);
        if tokens > BURST { tokens := BURST; }
        b := Bucket(tokens, now);
      }
      if b.tokens < 1.0 {
        buckets := buckets[ip := b];
        dropped := dropped + 1;
        return false, rest;
      }
      buckets := buckets[ip := Bucket(b.tokens - 1.0, b.last)];
      return true, rest;
    }

    /** Deletes buckets in map order until fewer than 2048 are left. */
    method EvictHalf()
      requires Valid() && |buckets| > 4096
      modifies this`buckets
      ensures buckets.Keys <= old(buckets.Keys) && |buckets| == 2047
      ensures forall k <- buckets :: buckets[k] == old(buckets)[k]
    {
      while |buckets| >= 2048
        invariant 2047 <= |buckets| && buckets.Keys <= old(buckets.Keys)
        invariant forall k <- buckets :: buckets[k] == old(buckets)[k]
        decreases |buckets|
      {
        assert buckets.Keys != {};
        var k :| k in buckets;
        CardAfterDelete(buckets, k);
        buckets := buckets - {k};
      }
    }
  }

  lemma CardAfterInsert(m: Buckets, k: string, b: Bucket)
    ensures |m[k := b]| == if k in m then |m| else |m| + 1
  {
    assert m[k := b].Keys == m.Keys + {k};
  }

  lemma CardAfterDelete(m: Buckets, k: string)
    requires k in m
    ensures |m - {k}| == |m| - 1
  {
    assert (m - {k}).Keys == m.Keys - {k};
  }

  // ------------------------------------------------------------ whole runs

  datatype Call = Call(ip: string, now: int, rest: Buckets)   // `rest`: what eviction left this time

  function After(c: Call): Buckets {
    c.rest[c.ip := Take(BucketOf(c.rest, c.ip, c.now), c.now).0]
  }

  function Allowed(c: Call): bool { Take(BucketOf(c.rest, c.ip, c.now), c.now).1 }

  /** A run of the limiter from `m`, in clock order, in which `ip` is never evicted. */
  ghost predicate IsRun(m: Buckets, calls: seq<Call>, ip: string, from: int)
    decreases |calls|
  {
    calls == [] ||
    (var c := calls[0];
     && Kept(m, c.ip, c.rest) && from <= c.now && (ip in m ==> ip in c.rest)
     && IsRun(After(c), calls[1..], ip, c.now))
  }

  function AllowedCount(calls: seq<Call>, ip: string): nat {
    if calls == [] then 0
    else (if calls[0].ip == ip && Allowed(calls[0]) then 1 else 0) + AllowedCount(calls[1..], ip)
  }

  /** What `ip` could spend at time `now`. */
  function Available(m: Buckets, ip: string, now: int): real {
    if ip !in m then BURST else Refill(m[ip], now).tokens
  }

  ghost predicate Sane(m: Buckets, ip: string, now: int) {
    ip in m ==> 0.0 <= m[ip].tokens <= BURST && m[ip].last <= now
  }

  lemma WaitEarns(m: Buckets, ip: string, t: int, u: int)
    requires t <= u && Sane(m, ip, t)
    ensures Available(m, ip, u) <= Available(m, ip, t) + Earned(u - t)
  {
    if ip in m {
      var l := m[ip].last;
      assert Earned(u - l) == Earned(u - t) + Earned(t - l) by { EarnedAdd(u - t, t - l); }
      EarnedPositive(u - t);
      EarnedPositive(t - l);
    } else {
      EarnedPositive(u - t);
    }
  }

  lemma EarnedAdd(a: int, b: int)
    ensures Earned(a + b) == Earned(a) + Earned(b)
  {
  }

  lemma EarnedPositive(a: int)
    requires a >= 0
    ensures Earned(a) >= 0.0
  {
  }

  /** Every allowed handshake costs one available token. */
  lemma {:induction false} RunBound(m: Buckets, calls: seq<Call>, ip: string, from: int, until: int)
    requires IsRun(m, calls, ip, from) && Sane(m, ip, from)
    requires from <= until && (calls != [] ==> calls[|calls| - 1].now <= until)
    requires calls != [] ==> calls[0].now <= until
    ensures AllowedCount(calls, ip) as real <= Available(m, ip, from) + Earned(until - from)
    decreases |calls|
  {
    EarnedPositive(until - from);
    if calls != [] {
      var c := calls[0];
      WaitEarns(m, ip, from, c.now);
      EarnedAdd(until - c.now, c.now - from);
      if calls[1..] != [] { LastIsLast(After(c), calls[1..], ip, c.now); }
      StepCost(m, c, ip);
      RunBound(After(c), calls[1..], ip, c.now, until);
    }
  }

  lemma {:induction false} LastIsLast(m: Buckets, calls: seq<Call>, ip: string, from: int)
    requires IsRun(m, calls, ip, from) && calls != []
    ensures from <= calls[0].now <= calls[|calls| - 1].now
    decreases |calls|
  {
    if |calls| > 1 { LastIsLast(After(calls[0]), calls[1..], ip, calls[0].now); }
  }

  lemma StepCost(m: Buckets, c: Call, ip: string)
    requires Kept(m, c.ip, c.rest) && (ip in m ==> ip in c.rest) && Sane(m, ip, c.now)
    ensures Sane(After(c), ip, c.now)
    ensures Available(After(c), ip, c.now) + (if c.ip == ip && Allowed(c) then 1.0 else 0.0) <= Available(m, ip, c.now)
  {
    if ip in m {
      assert c.rest[ip] == m[ip];
      EarnedPositive(c.now - m[ip].last);
    }
  }

  /** In any stretch of time T the limiter lets at most 30 + 5T handshakes of one source
      through, as long as the source's bucket is not evicted meanwhile. */
  lemma RateBound(m: Buckets, calls: seq<Call>, ip: string)
    requires calls != [] && IsRun(m, calls, ip, calls[0].now) && Sane(m, ip, calls[0].now)
    ensures AllowedCount(calls, ip) as real <= 30.0 + 5.0 * ((calls[|calls| - 1].now - calls[0].now) as real / SECOND)
  {
    var t, u := calls[0].now, calls[|calls| - 1].now;
    LastIsLast(m, calls, ip, t);
    RunBound(m, calls, ip, t, u);
    assert Available(m, ip, t) <= BURST;
    EarnedIs(u - t);
  }

  lemma EarnedIs(ns: int)
    ensures Earned(ns) == 5.0 * (ns as real / SECOND)
  {
  }

  /** A source that waits at least 0.2 seconds between attempts is never refused. */
  lemma PatientSourcePasses(m: Buckets, c: Call, ip: string)
    requires Kept(m, c.ip, c.rest) && c.ip == ip && Sane(m, ip, c.now)
    requires ip in m ==> c.now - m[ip].last >= 200000000
    ensures Allowed(c)
    ensures Sane(After(c), ip, c.now) && After(c)[ip].last == c.now
  {
    if ip in m { Waited(c.now - m[ip].last); }
  }

  lemma Waited(ns: int)
    requires ns >= 200000000
    ensures Earned(ns) >= 1.0
  {
  }

  /** A bucket of `t` tokens pays for exactly `t` handshakes at one instant. */
  lemma {:induction false} Drain(m: Buckets, calls: seq<Call>, ip: string, now: int, t: nat)
    requires IsRun(m, calls, ip, now) && ip in m && m[ip] == Bucket(t as real, now)
    requires forall c <- calls :: c.ip == ip && c.now == now
    ensures AllowedCount(calls, ip) == if |calls| <= t then |calls| else t
    decreases |calls|
  {
    if calls != [] {
      var c := calls[0];
      assert c in calls && c.rest[ip] == m[ip];
      Drain(After(c), calls[1..], ip, now, if t >= 1 then t - 1 else 0);
    }
  }

  /** So a source without a bucket may start thirty handshakes at once, and no thirty-first. */
  lemma NewSourceBurst(m: Buckets, calls: seq<Call>, ip: string, now: int)
    requires IsRun(m, calls, ip, now) && ip !in m && forall c <- calls :: c.ip == ip && c.now == now
    ensures AllowedCount(calls, ip) == if |calls| <= 30 then |calls| else 30
  {
    if calls != [] {
      var c := calls[0];
      assert c in calls && ip !in c.rest;
      Drain(After(c), calls[1..], ip, now, 29);
    }
  }

  /** And so may a known one after six idle seconds, whatever it spent before. */
  lemma IdleSourceBurst(m: Buckets, calls: seq<Call>, ip: string, now: int)
    requires IsRun(m, calls, ip, now) && Sane(m, ip, now) && ip in m && now - m[ip].last >= 6_000_000_000
    requires forall c <- calls :: c.ip == ip && c.now == now
    ensures AllowedCount(calls, ip) == if |calls| <= 30 then |calls| else 30
  {
    if calls != [] {
      var c := calls[0];
      assert c in calls && c.rest[ip] == m[ip];
      SixSeconds(now - m[ip].last);
      Drain(After(c), calls[1..], ip, now, 29);
    }
  }

  lemma SixSeconds(ns: int)
    requires ns >= 6_000_000_000
    ensures Earned(ns) >= 30.0
  {
  }
}
