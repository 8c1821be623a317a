/** Token buckets that reserve requests at future times (`src/rate_limiter.cpp`). Times are real seconds. */
module RateLimiting {
  import opened Foundations

  function MaxReal(a: real, b: real): real { if a < b then b else a }
  function MinReal(a: real, b: real): real { if a < b then a else b }

  datatype Bucket = Bucket(tokens: real, capacity: real, rate: real, updated: real, blockedUntil: real)

  /** A bucket that can hold a whole request and refills. */
  predicate Sound(b: Bucket) { 1.0 <= b.capacity && 0.0 < b.rate && 0.0 <= b.tokens <= b.capacity }

  function Eligibility(b: Bucket, now: real): real { MaxReal(MaxReal(now, b.updated), b.blockedUntil) }

  /** What flows into a bucket between two times. */
  function Inflow(rate: real, from: real, to: real): real { rate * (to - from) }

  /** The state half of `wait_for`. */
  function Refill(b: Bucket, now: real): Bucket {
    var e := Eligibility(b, now);
    if e > b.updated then b.(tokens := MinReal(b.capacity, b.tokens + Inflow(b.rate, b.updated, e)), updated := e) else b
  }

  /** The result half of `wait_for`. */
  function Wait(b: Bucket, now: real): real
    requires b.rate > 0.0
  {
    var r := Refill(b, now);
    Eligibility(b, now) - now + if r.tokens >= 1.0 then 0.0 else (1.0 - r.tokens) / b.rate
  }

  function Consume(b: Bucket, when: real): Bucket {
    var r := Refill(b, when);
    r.(tokens := MaxReal(0.0, r.tokens - 1.0))
  }

  // ---- The limiter ----

  datatype Limiter = Limiter(global: Bucket, endpoints: map<Text, Bucket>, blocked: map<Text, real>)

  predicate SoundLimiter(l: Limiter) { Sound(l.global) && forall e | e in l.endpoints :: Sound(l.endpoints[e]) }

  /** One reservation: when the key-wide bucket and the endpoint grant it, and the delay the caller is told, in
      milliseconds. */
  datatype Grant = Grant(endpoint: Text, now: real, shared: real, own: real, delay: int)

  datatype Call = Reserve(endpoint: Text, now: real) | Penalize(endpoint: Text, now: real, retryAfter: int, key: bool)

  function Ceiling(x: real): int { -((-x).Floor) }

  function CoolDown(l: Limiter, endpoint: Text, now: real): real {
    if endpoint in l.blocked && l.blocked[endpoint] > now then l.blocked[endpoint] - now else 0.0
  }

  function OwnDelay(l: Limiter, endpoint: Text, now: real): real
    requires SoundLimiter(l)
  {
    if endpoint in l.endpoints then MaxReal(CoolDown(l, endpoint, now), Wait(l.endpoints[endpoint], now))
    else CoolDown(l, endpoint, now)
  }

  function GrantOf(l: Limiter, endpoint: Text, now: real): Grant
    requires SoundLimiter(l)
  {
    var shared, own := Wait(l.global, now), OwnDelay(l, endpoint, now);
    Grant(endpoint, now, now + shared, now + own, Ceiling(MaxReal(shared, own) * 1000.0))
  }

  function Reserved(l: Limiter, endpoint: Text, now: real): Limiter
    requires SoundLimiter(l)
  {
    var g := GrantOf(l, endpoint, now);
    l.(global := Consume(Refill(l.global, now), g.shared),
       endpoints := if endpoint in l.endpoints
                    then l.endpoints[endpoint := Consume(Refill(l.endpoints[endpoint], now), g.own)] else l.endpoints)
  }

  function Until(now: real, retryAfter: int): real { now + Max(retryAfter, 0) as real / 1000.0 }

  function Blocked(b: Bucket, until: real): Bucket { b.(blockedUntil := MaxReal(b.blockedUntil, until)) }

  function Penalized(l: Limiter, endpoint: Text, until: real, key: bool): Limiter {
    var before := if endpoint in l.blocked then l.blocked[endpoint] else 0.0;
    Limiter(if key then Blocked(l.global, until) else l.global,
            if endpoint in l.endpoints then l.endpoints[endpoint := Blocked(l.endpoints[endpoint], until)] else l.endpoints,
            l.blocked[endpoint := MaxReal(before, until)])
  }

  // ---- One bucket ----

  lemma Distribute(rate: real, a: real, b: real)
    ensures rate * (a + b) == rate * a + rate * b && a * rate == rate * a
  {}

  lemma InflowIsNotNegative(rate: real, from: real, to: real)
    requires 0.0 < rate && from <= to
    ensures Inflow(rate, from, to) >= 0.0
  {
    NonNegative(rate, to - from);
  }

  lemma RefillFacts(b: Bucket, now: real)
    requires Sound(b)
    ensures var r := Refill(b, now);
            && Sound(r) && r.updated == MaxReal(b.updated, Eligibility(b, now))
            && r.capacity == b.capacity && r.rate == b.rate && r.blockedUntil == b.blockedUntil
            && b.tokens <= r.tokens <= b.tokens + Inflow(b.rate, b.updated, r.updated)
  {
    hide Inflow;
    InflowIsNotNegative(b.rate, b.updated, Eligibility(b, now));
    InflowIsNotNegative(b.rate, b.updated, b.updated);
  }

  lemma NonNegative(a: real, b: real)
    requires 0.0 <= a && 0.0 <= b
    ensures 0.0 <= a * b
  {}

  /** At the promised time, or later, a whole token is there. */
  lemma TokenIsThere(b: Bucket, now: real, when: real)
    requires Sound(b) && when >= now + Wait(b, now)
    ensures var r := Refill(b, now);
            && when >= r.updated && when >= r.blockedUntil
            && Sound(Refill(r, when)) && Refill(r, when).tokens >= 1.0 && Refill(r, when).updated == when
  {
    hide Inflow;
    var r := Refill(b, now);
    RefillFacts(b, now);
    RefillFacts(r, when);
    if r.tokens < 1.0 {
      Filled(r.tokens, r.rate, r.updated, when);
    }
  }

  lemma Filled(tokens: real, rate: real, from: real, to: real)
    requires 0.0 < rate && tokens < 1.0 && to - from >= (1.0 - tokens) / rate
    ensures tokens + Inflow(rate, from, to) >= 1.0 && to > from
  {
    Quotient(1.0 - tokens, rate);
    Scale((1.0 - tokens) / rate, to - from, rate);
    Distribute(rate, to - from, 0.0);
  }

  lemma Quotient(x: real, rate: real)
    requires 0.0 < rate && 0.0 < x
    ensures x / rate > 0.0 && (x / rate) * rate == x
  {}

  lemma Scale(a: real, b: real, rate: real)
    requires a <= b && 0.0 < rate
    ensures a * rate <= b * rate
  {
    NonNegative(rate, b - a);
    Distribute(rate, a, b - a);
  }

  lemma InflowAdds(rate: real, a: real, b: real, c: real)
    ensures Inflow(rate, a, a) == 0.0 && Inflow(rate, a, b) + Inflow(rate, b, c) == Inflow(rate, a, c)
  {
    Distribute(rate, b - a, c - b);
  }

  lemma InflowGrows(rate: real, s: real, a: real, b: real, t: real)
    requires 0.0 < rate && s <= a <= b <= t
    ensures 0.0 <= Inflow(rate, a, b) <= Inflow(rate, s, t)
  {
    NonNegative(rate, b - a);
    Scale(b - a, t - s, rate);
    Distribute(rate, b - a, 0.0);
    Distribute(rate, t - s, 0.0);
  }

  /** Grant times in order, and no window of grants larger than the bucket plus what flows in during it. */
  ghost predicate Fair(times: seq<real>, capacity: real, rate: real) {
    && (forall i, j | 0 <= i < j < |times| :: times[i] <= times[j])
    && (forall i, j | 0 <= i <= j < |times| :: Window(i, j) <= capacity + Inflow(rate, times[i], times[j]))
  }

  function Window(i: int, j: int): real { (j - i + 1) as real }

  /** What a bucket remembers about its grants: the tokens left, plus the grants since any one of them, never exceed
      the bucket and the inflow since. */
  ghost predicate Accounts(b: Bucket, times: seq<real>) {
    && Sound(b) && Fair(times, b.capacity, b.rate)
    && (forall i | 0 <= i < |times| ::
         times[i] <= b.updated && b.tokens + Window(i, |times| - 1) <= b.capacity + Inflow(b.rate, times[i], b.updated))
  }

  lemma RefillKeepsAccounts(b: Bucket, times: seq<real>, now: real)
    requires Accounts(b, times)
    ensures Accounts(Refill(b, now), times)
  {
    hide Refill, Fair, Window, Inflow;
    var r := Refill(b, now);
    RefillFacts(b, now);
    forall i | 0 <= i < |times|
      ensures times[i] <= r.updated && r.tokens + Window(i, |times| - 1) <= r.capacity + Inflow(r.rate, times[i], r.updated)
    {
      InflowAdds(b.rate, times[i], b.updated, r.updated);
    }
  }

  lemma BlockKeepsAccounts(b: Bucket, times: seq<real>, until: real)
    requires Accounts(b, times)
    ensures Accounts(Blocked(b, until), times)
  {
    hide Fair, Window, Inflow;
  }

  lemma ConsumeKeepsAccounts(b: Bucket, times: seq<real>, when: real)
    requires Accounts(b, times) && Refill(b, when).tokens >= 1.0 && Refill(b, when).updated == when
    ensures Accounts(Consume(b, when), times + [when])
  {
    hide Refill, Fair, Inflow;
    var r, c, more := Refill(b, when), Consume(b, when), times + [when];
    RefillFacts(b, when);
    RefillKeepsAccounts(b, times, when);
    InflowAdds(b.rate, when, when, when);
    assert Accounts(r, times);
    forall i | 0 <= i < |more|
      ensures more[i] <= c.updated && c.tokens + Window(i, |more| - 1) <= c.capacity + Inflow(c.rate, more[i], c.updated)
    {
      if i < |times| {
        assert Window(i, |more| - 1) == Window(i, |times| - 1) + 1.0;
      }
    }
    assert Fair(more, b.capacity, b.rate) by { ExtendFair(r, times, when); }
  }

  lemma ExtendFair(r: Bucket, times: seq<real>, when: real)
    requires Accounts(r, times) && r.tokens >= 1.0 && r.updated == when
    ensures Fair(times + [when], r.capacity, r.rate)
  {
    hide Inflow;
    var more := times + [when];
    InflowAdds(r.rate, when, when, when);
    forall i, j | 0 <= i <= j < |more| ensures Window(i, j) <= r.capacity + Inflow(r.rate, more[i], more[j]) {
      if j == |times| && i < j {
        assert Window(i, j) == Window(i, |times| - 1) + 1.0;
      } else if i == j {
        InflowAdds(r.rate, more[i], more[i], more[i]);
      }
    }
  }

  // ---- Runs ----

  datatype Outcome = Outcome(limiter: Limiter, log: seq<Grant>)

  /** Any calls, at any times, from any threads in the order the lock admits them. */
  function Run(l: Limiter, calls: seq<Call>): (r: Outcome)
    requires SoundLimiter(l)
    ensures SoundLimiter(r.limiter)
  {
    if calls == [] then Outcome(l, [])
    else
      var before, last := Run(l, calls[..|calls| - 1]), calls[|calls| - 1];
      match last
      case Reserve(e, now) =>
        ReservedIsSound(before.limiter, e, now);
        Outcome(Reserved(before.limiter, e, now), before.log + [GrantOf(before.limiter, e, now)])
      case Penalize(e, now, retryAfter, key) =>
        Outcome(Penalized(before.limiter, e, Until(now, retryAfter), key), before.log)
  }

  lemma ConsumeIsSound(b: Bucket, now: real, when: real)
    requires Sound(b) && when >= now + Wait(b, now)
    ensures Sound(Consume(Refill(b, now), when))
  {
    hide Refill, Wait;
    TokenIsThere(b, now, when);
    RefillFacts(b, now);
    RefillFacts(Refill(b, now), when);
  }

  lemma ReservedIsSound(l: Limiter, endpoint: Text, now: real)
    requires SoundLimiter(l)
    ensures SoundLimiter(Reserved(l, endpoint, now))
  {
    hide Consume, Refill, Wait, Sound, Ceiling;
    ConsumeIsSound(l.global, now, GrantOf(l, endpoint, now).shared);
    if endpoint in l.endpoints {
      ConsumeIsSound(l.endpoints[endpoint], now, GrantOf(l, endpoint, now).own);
    }
  }

  function SharedTimes(log: seq<Grant>): (ts: seq<real>)
    ensures |ts| == |log| && forall i | 0 <= i < |log| :: ts[i] == log[i].shared
  {
    seq(|log|, i requires 0 <= i < |log| => log[i].shared)
  }

  function OwnTimes(log: seq<Grant>, endpoint: Text): seq<real> {
    if log == [] then []
    else
      var before, last := OwnTimes(log[..|log| - 1], endpoint), log[|log| - 1];
      if last.endpoint == endpoint then before + [last.own] else before
  }

  ghost predicate Audited(r: Outcome) {
    && Accounts(r.limiter.global, SharedTimes(r.log))
    && forall e | e in r.limiter.endpoints :: Accounts(r.limiter.endpoints[e], OwnTimes(r.log, e))
  }

  lemma ReserveBucket(b: Bucket, times: seq<real>, now: real, when: real)
    requires Accounts(b, times) && when >= now + Wait(b, now)
    ensures Accounts(Consume(Refill(b, now), when), times + [when])
  {
    hide Refill, Wait, Consume, Fair;
    TokenIsThere(b, now, when);
    RefillKeepsAccounts(b, times, now);
    ConsumeKeepsAccounts(Refill(b, now), times, when);
  }

  lemma ReserveKeepsAudited(r: Outcome, e: Text, now: real)
    requires SoundLimiter(r.limiter) && Audited(r)
    ensures Audited(Outcome(Reserved(r.limiter, e, now), r.log + [GrantOf(r.limiter, e, now)]))
  {
    hide Refill, Wait, Consume, Accounts, Sound, Ceiling;
    var g := GrantOf(r.limiter, e, now);
    var log := r.log + [g];
    ReserveBucket(r.limiter.global, SharedTimes(r.log), now, g.shared);
    assert SharedTimes(log) == SharedTimes(r.log) + [g.shared];
    assert log[..|log| - 1] == r.log;
    if e in r.limiter.endpoints {
      ReserveBucket(r.limiter.endpoints[e], OwnTimes(r.log, e), now, g.own);
    }
  }

  lemma PenalizeKeepsAudited(r: Outcome, e: Text, until: real, key: bool)
    requires Audited(r)
    ensures Audited(Outcome(Penalized(r.limiter, e, until, key), r.log))
  {
    hide Accounts, Blocked;
    BlockKeepsAccounts(r.limiter.global, SharedTimes(r.log), until);
    if e in r.limiter.endpoints {
      BlockKeepsAccounts(r.limiter.endpoints[e], OwnTimes(r.log, e), until);
    }
  }

  lemma {:induction false} RunIsAudited(l: Limiter, calls: seq<Call>)
    requires SoundLimiter(l)
    ensures Audited(Run(l, calls))
    decreases |calls|
  {
    hide Accounts, Reserved, Penalized, GrantOf, SoundLimiter;
    if calls == [] {
      NoGrants(l);
    } else {
      var before, last := calls[..|calls| - 1], calls[|calls| - 1];
      RunIsAudited(l, before);
      match last {
        case Reserve(e, now) => ReserveKeepsAudited(Run(l, before), e, now);
        case Penalize(e, now, retryAfter, key) =>
          PenalizeKeepsAudited(Run(l, before), e, Until(now, retryAfter), key);
      }
    }
  }

  lemma NoGrants(l: Limiter)
    requires SoundLimiter(l)
    ensures Audited(Outcome(l, []))
  {}

  lemma {:induction false} RunKeepsLimits(l: Limiter, calls: seq<Call>)
    requires SoundLimiter(l)
    ensures var r := Run(l, calls).limiter;
            && r.global.capacity == l.global.capacity && r.global.rate == l.global.rate
            && r.endpoints.Keys == l.endpoints.Keys
            && forall e | e in l.endpoints ::
                 r.endpoints[e].capacity == l.endpoints[e].capacity && r.endpoints[e].rate == l.endpoints[e].rate
    decreases |calls|
  {
    hide GrantOf, SoundLimiter;
    if calls != [] {
      RunKeepsLimits(l, calls[..|calls| - 1]);
    }
  }

  function Inside(times: seq<real>, s: real, t: real): nat {
    if times == [] then 0
    else Inside(times[..|times| - 1], s, t) + if s <= times[|times| - 1] <= t then 1 else 0
  }

  lemma Adjacent(times: seq<real>, j: nat, last: nat, s: real, t: real)
    requires j < last < |times| && s <= times[j] && times[last] <= t
    requires forall a, b | 0 <= a < b < |times| :: times[a] <= times[b]
    requires forall k | j < k < last :: !(s <= times[k] <= t)
    ensures j + 1 == last
  {
    var k := Min(j + 1, last);
    assert times[j] <= times[k] <= times[last];
  }

  /** In order, the grants inside an interval are consecutive. */
  lemma {:induction false} InsideIsAWindow(times: seq<real>, s: real, t: real) returns (i: nat, j: nat)
    requires Inside(times, s, t) > 0 && forall a, b | 0 <= a < b < |times| :: times[a] <= times[b]
    ensures i <= j < |times| && s <= times[i] && times[j] <= t && Inside(times, s, t) == j - i + 1
    ensures forall k | j < k < |times| :: !(s <= times[k] <= t)
    ensures forall k | i <= k <= j :: s <= times[k] <= t
    decreases |times|
  {
    var front, last := times[..|times| - 1], |times| - 1;
    if Inside(front, s, t) == 0 {
      i, j := last, last;
    } else {
      i, j := InsideIsAWindow(front, s, t);
      if s <= times[last] <= t {
        Adjacent(times, j, last, s, t);
        j := last;
      }
    }
  }

  /** The classic token-bucket bound: at most `capacity + rate * (t - s)` grants in any interval. */
  lemma WindowBound(times: seq<real>, capacity: real, rate: real, s: real, t: real)
    requires Fair(times, capacity, rate) && 0.0 <= capacity && 0.0 < rate && s <= t
    ensures Inside(times, s, t) as real <= capacity + Inflow(rate, s, t)
  {
    hide Inflow, Inside;
    InflowGrows(rate, s, s, t, t);
    if Inside(times, s, t) > 0 {
      var i, j := InsideIsAWindow(times, s, t);
      assert times[i] <= times[j];
      InflowGrows(rate, s, times[i], times[j], t);
      assert Window(i, j) == Inside(times, s, t) as real;
    }
  }

  /** For any calls, each bucket's grant times are in order, its tokens stay within the bucket, and no interval holds
      more grants than the bucket and the inflow allow. */
  lemma BucketsAreFair(l: Limiter, calls: seq<Call>, s: real, t: real)
    requires SoundLimiter(l) && s <= t
    ensures var r := Run(l, calls);
            && 0.0 <= r.limiter.global.tokens <= l.global.capacity
            && Fair(SharedTimes(r.log), l.global.capacity, l.global.rate)
            && Inside(SharedTimes(r.log), s, t) as real <= l.global.capacity + Inflow(l.global.rate, s, t)
    ensures forall e | e in l.endpoints ::
              var r := Run(l, calls);
              && e in r.limiter.endpoints && 0.0 <= r.limiter.endpoints[e].tokens <= l.endpoints[e].capacity
              && Fair(OwnTimes(r.log, e), l.endpoints[e].capacity, l.endpoints[e].rate)
              && Inside(OwnTimes(r.log, e), s, t) as real <= l.endpoints[e].capacity + Inflow(l.endpoints[e].rate, s, t)
  {
    hide Fair, Inside, Run, OwnTimes, Inflow;
    var r := Run(l, calls);
    RunIsAudited(l, calls);
    RunKeepsLimits(l, calls);
    WindowBound(SharedTimes(r.log), l.global.capacity, l.global.rate, s, t);
    forall e | e in l.endpoints
      ensures Inside(OwnTimes(r.log, e), s, t) as real <= l.endpoints[e].capacity + Inflow(l.endpoints[e].rate, s, t)
    {
      assert Accounts(r.limiter.endpoints[e], OwnTimes(r.log, e));
      WindowBound(OwnTimes(r.log, e), l.endpoints[e].capacity, l.endpoints[e].rate, s, t);
    }
  }

  // ---- Cooldowns ----

  /** The caller waits long enough for both buckets, and less than a millisecond more. */
  lemma DelayCovers(l: Limiter, endpoint: Text, now: real)
    requires SoundLimiter(l)
    ensures var g := GrantOf(l, endpoint, now);
            var sent := now + g.delay as real / 1000.0;
            && g.shared >= now && g.own >= now
            && MaxReal(g.shared, g.own) <= sent < MaxReal(g.shared, g.own) + 0.001
  {
    hide Refill;
    assert (1.0 - Refill(l.global, now).tokens) / l.global.rate > 0.0 || Refill(l.global, now).tokens >= 1.0 by {
      if Refill(l.global, now).tokens < 1.0 {
        Quotient(1.0 - Refill(l.global, now).tokens, l.global.rate);
      }
    }
  }

  /** `until` is still in force for the endpoint, or for the whole key. */
  predicate InForce(l: Limiter, endpoint: Text, until: real, key: bool) {
    && endpoint in l.blocked && until <= l.blocked[endpoint]
    && (endpoint in l.endpoints ==> until <= l.endpoints[endpoint].blockedUntil)
    && (key ==> until <= l.global.blockedUntil)
  }

  lemma GrantRespectsBlock(l: Limiter, e: Text, endpoint: Text, until: real, key: bool, now: real)
    requires SoundLimiter(l) && InForce(l, endpoint, until, key)
    ensures e == endpoint ==> GrantOf(l, e, now).own >= until
    ensures key ==> GrantOf(l, e, now).shared >= until
  {
    hide Refill, Ceiling;
    if Refill(l.global, now).tokens < 1.0 {
      Quotient(1.0 - Refill(l.global, now).tokens, l.global.rate);
    }
  }

  lemma {:induction false} BlockStays(l: Limiter, endpoint: Text, until: real, key: bool, calls: seq<Call>)
    requires SoundLimiter(l) && InForce(l, endpoint, until, key)
    ensures InForce(Run(l, calls).limiter, endpoint, until, key)
    decreases |calls|
  {
    hide GrantOf, SoundLimiter;
    if calls != [] {
      BlockStays(l, endpoint, until, key, calls[..|calls| - 1]);
    }
  }

  /** After a penalty, however the limiter got there, no later grant of that endpoint precedes its cooldown, and after a
      key-wide penalty no grant of any endpoint does. */
  lemma NoGrantBeforeCooldown(l: Limiter, before: seq<Call>, penalty: Call, after: seq<Call>, e: Text, now: real)
    requires SoundLimiter(l) && penalty.Penalize?
    ensures SoundLimiter(Penalized(Run(l, before).limiter, penalty.endpoint, Until(penalty.now, penalty.retryAfter), penalty.key))
    ensures var until := Until(penalty.now, penalty.retryAfter);
            var punished := Penalized(Run(l, before).limiter, penalty.endpoint, until, penalty.key);
            var g := GrantOf(Run(punished, after).limiter, e, now);
            e == penalty.endpoint || penalty.key ==>
              now + g.delay as real / 1000.0 >= penalty.now + Max(penalty.retryAfter, 0) as real / 1000.0
  {
    hide Run, GrantOf, Sound;
    var until := Until(penalty.now, penalty.retryAfter);
    var punished := Penalized(Run(l, before).limiter, penalty.endpoint, until, penalty.key);
    PenalizedIsSound(Run(l, before).limiter, penalty.endpoint, until, penalty.key);
    BlockStays(punished, penalty.endpoint, until, penalty.key, after);
    var last := Run(punished, after).limiter;
    GrantRespectsBlock(last, e, penalty.endpoint, until, penalty.key, now);
    DelayCovers(last, e, now);
  }

  lemma PenalizedIsSound(l: Limiter, endpoint: Text, until: real, key: bool)
    requires SoundLimiter(l)
    ensures SoundLimiter(Penalized(l, endpoint, until, key))
  {}

  // ---- The object ----

  function Fresh(limit: nat, now: real): Bucket { Bucket(limit as real, limit as real, limit as real / 60.0, now, 0.0) }

  /** A limiter as it is built, for `shared` requests a minute in all and `limits[e]` of endpoint `e`. */
  function Built(shared: nat, limits: map<Text, nat>, now: real): Limiter {
    Limiter(Fresh(shared, now), map e | e in limits :: Fresh(limits[e], now), map[])
  }

  class RateLimiter {
    var global: Bucket
    var endpoints: map<Text, Bucket>
    var blocked: map<Text, real>

    ghost function View(): Limiter
      reads this
    {
      Limiter(global, endpoints, blocked)
    }

    ghost predicate Valid()
      reads this
    {
      SoundLimiter(View())
    }

    /** A zero limit throws, so no limiter has one. */
    constructor (shared: nat, limits: map<Text, nat>, now: real)
      requires shared > 0 && forall e | e in limits :: limits[e] > 0
      ensures Valid() && View() == Built(shared, limits, now)
    {
      global := Fresh(shared, now);
      endpoints := map e | e in limits :: Fresh(limits[e], now);
      blocked := map[];
    }

    /** `reserve`: the delay in milliseconds after which the caller may send. */
    method ReserveAt(endpoint: Text, now: real) returns (delay: int)
      requires Valid()
      modifies this
      ensures Valid() && View() == Reserved(old(View()), endpoint, now)
      ensures delay == GrantOf(old(View()), endpoint, now).delay
    {
      hide Refill, Wait, Consume, Ceiling;
      ReservedIsSound(View(), endpoint, now);
      var sharedDelay := Wait(global, now);
      global := Refill(global, now);
      global := Consume(global, now + sharedDelay);
      var ownDelay := 0.0;
      if endpoint in blocked && blocked[endpoint] > now {
        ownDelay := blocked[endpoint] - now;
      }
      if endpoint in endpoints {
        var bucket := endpoints[endpoint];
        ownDelay := MaxReal(ownDelay, Wait(bucket, now));
        bucket := Refill(bucket, now);
        bucket := Consume(bucket, now + ownDelay);
        endpoints := endpoints[endpoint := bucket];
      }
      delay := Ceiling(MaxReal(sharedDelay, ownDelay) * 1000.0);
    }

    /** `penalize`: a server-directed cooldown in milliseconds; a negative one counts as zero. */
    method PenalizeAt(endpoint: Text, now: real, retryAfter: int, key: bool)
      requires Valid()
      modifies this
      ensures Valid() && View() == Penalized(old(View()), endpoint, Until(now, retryAfter), key)
    {
      var wait := if retryAfter < 0 then 0 else retryAfter;
      var until := now + wait as real / 1000.0;
      PenalizedIsSound(View(), endpoint, until, key);
      if key {
        global := Blocked(global, until);
      }
      var before := if endpoint in blocked then blocked[endpoint] else 0.0;
      blocked := blocked[endpoint := MaxReal(before, until)];
      if endpoint in endpoints {
        endpoints := endpoints[endpoint := Blocked(endpoints[endpoint], until)];
      }
    }
  }
}
