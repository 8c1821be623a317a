/** What a limiter built for so many requests a minute grants: exactly when, in a burst and after a penalty, and at most
    how often. */
module LimiterLaws {
  import opened Foundations
  import opened RateLimiting

  ghost predicate Positive(shared: nat, limits: map<Text, nat>) { shared > 0 && forall e | e in limits :: limits[e] > 0 }

  lemma BuiltIsSound(shared: nat, limits: map<Text, nat>, now: real)
    requires Positive(shared, limits)
    ensures SoundLimiter(Built(shared, limits, now))
  {
  }

  // ---- At most twice the limit a minute ----

  lemma InflowOfAMinute(limit: nat, s: real)
    ensures Inflow(limit as real / 60.0, s, s + 60.0) == limit as real
  {
  }

  /** Whatever is called and when, no minute holds more than twice the limit of grants, of the key or of an endpoint. */
  lemma GrantsPerMinute(shared: nat, limits: map<Text, nat>, now: real, calls: seq<Call>, s: real)
    requires Positive(shared, limits)
    ensures SoundLimiter(Built(shared, limits, now))
    ensures var log := Run(Built(shared, limits, now), calls).log;
            && Inside(SharedTimes(log), s, s + 60.0) <= 2 * shared
            && (forall e | e in limits :: Inside(OwnTimes(log, e), s, s + 60.0) <= 2 * limits[e])
  {
    hide Run, Inside, OwnTimes, Inflow, Fair;
    var l := Built(shared, limits, now);
    BuiltIsSound(shared, limits, now);
    BucketsAreFair(l, calls, s, s + 60.0);
    InflowOfAMinute(shared, s);
    forall e | e in limits
      ensures Inside(OwnTimes(Run(l, calls).log, e), s, s + 60.0) <= 2 * limits[e]
    {
      assert e in l.endpoints && l.endpoints[e] == Fresh(limits[e], now);
      InflowOfAMinute(limits[e], s);
    }
  }

  // ---- A burst ----

  /** How long the reservation after `k` others at the same time waits: the first `n` not at all, every further one
      another n-th of a minute. */
  function BurstWait(n: nat, k: nat): real
    requires n > 0
  {
    if k < n then 0.0 else (k - n + 1) as real * (60.0 / n as real)
  }

  /** A bucket of `n` a minute, filled at `start`, after `k` reservations at `now`. */
  ghost predicate After(b: Bucket, n: nat, start: real, now: real, k: nat)
    requires n > 0
  {
    && b.capacity == n as real && b.rate == n as real / 60.0 && b.blockedUntil == 0.0
    && b.tokens == (if k < n then (n - k) as real else 0.0)
    && b.updated == (if k == 0 then start else if k <= n then now else now + (k - n) as real * (60.0 / n as real))
  }

  lemma Rates(n: nat)
    requires n > 0
    ensures n as real / 60.0 > 0.0 && 60.0 / n as real > 0.0
    ensures 1.0 / (n as real / 60.0) == 60.0 / n as real
    ensures (n as real / 60.0) * (60.0 / n as real) == 1.0
  {
    var x := n as real;
    assert x * (60.0 / x) == 60.0;
  }

  lemma Steps(k: nat, step: real)
    ensures (k + 1) as real * step == k as real * step + step
    ensures step >= 0.0 ==> k as real * step >= 0.0
  {
  }

  /** One more reservation at the same time. */
  lemma BurstStep(b: Bucket, n: nat, start: real, now: real, k: nat)
    requires n > 0 && 0.0 <= start <= now && After(b, n, start, now, k)
    ensures Sound(b) && Wait(b, now) == BurstWait(n, k)
    ensures After(Consume(Refill(b, now), now + Wait(b, now)), n, start, now, k + 1)
  {
    Rates(n);
    if k < n {
      Ample(b, n, start, now, k);
    } else {
      Exhausted(b, n, start, now, k);
    }
  }

  lemma Ample(b: Bucket, n: nat, start: real, now: real, k: nat)
    requires n > 0 && 0.0 <= start <= now && After(b, n, start, now, k) && k < n
    ensures Sound(b) && Wait(b, now) == 0.0
    ensures After(Consume(Refill(b, now), now), n, start, now, k + 1)
  {
    hide Inflow;
    Rates(n);
    InflowIsNotNegative(b.rate, b.updated, now);
  }

  lemma Exhausted(b: Bucket, n: nat, start: real, now: real, k: nat)
    requires n > 0 && 0.0 <= start <= now && After(b, n, start, now, k) && k >= n
    ensures Sound(b) && Wait(b, now) == BurstWait(n, k)
    ensures After(Consume(Refill(b, now), now + BurstWait(n, k)), n, start, now, k + 1)
  {
    hide Inflow;
    Rates(n);
    var step := 60.0 / n as real;
    Steps(k - n, step);
    assert Refill(b, now) == b;
    NextToken(n, b.updated);
  }

  /** An n-th of a minute brings one token. */
  lemma NextToken(n: nat, from: real)
    requires n > 0
    ensures Inflow(n as real / 60.0, from, from + 60.0 / n as real) == 1.0
  {
    Rates(n);
  }

  function Count(calls: seq<Call>, e: Text): nat {
    if calls == [] then 0 else Count(calls[..|calls| - 1], e) + if calls[|calls| - 1].endpoint == e then 1 else 0
  }

  ghost predicate AllAt(calls: seq<Call>, now: real) { forall c | c in calls :: c.Reserve? && c.now == now }

  ghost predicate BurstState(l: Limiter, shared: nat, limits: map<Text, nat>, start: real, now: real, calls: seq<Call>)
    requires Positive(shared, limits)
  {
    && SoundLimiter(l) && l.blocked == map[] && l.endpoints.Keys == limits.Keys
    && After(l.global, shared, start, now, |calls|)
    && (forall e | e in limits :: After(l.endpoints[e], limits[e], start, now, Count(calls, e)))
  }

  /** When the reservation of endpoint `e` that follows `before`, all at the same time, is granted. */
  ghost predicate GrantedInBurst(g: Grant, shared: nat, limits: map<Text, nat>, now: real, before: seq<Call>)
    requires Positive(shared, limits)
  {
    && g.shared == now + BurstWait(shared, |before|)
    && g.own == now + (if g.endpoint in limits then BurstWait(limits[g.endpoint], Count(before, g.endpoint)) else 0.0)
    && (g.shared == now && g.own == now ==> g.delay == 0)
  }

  lemma BurstReserve(l: Limiter, shared: nat, limits: map<Text, nat>, start: real, now: real, before: seq<Call>, e: Text)
    requires Positive(shared, limits) && 0.0 <= start <= now && BurstState(l, shared, limits, start, now, before)
    ensures BurstState(Reserved(l, e, now), shared, limits, start, now, before + [Reserve(e, now)])
    ensures GrantedInBurst(GrantOf(l, e, now), shared, limits, now, before) && GrantOf(l, e, now).endpoint == e
  {
    hide After, Wait, Refill, Consume, Sound, BurstWait;
    var calls := before + [Reserve(e, now)];
    assert calls[..|calls| - 1] == before;
    ReservedIsSound(l, e, now);
    BurstStep(l.global, shared, start, now, |before|);
    if e in limits {
      BurstStep(l.endpoints[e], limits[e], start, now, Count(before, e));
      WaitIsNotNegative(limits[e], Count(before, e));
    }
    CeilingOfZero();
  }

  lemma WaitIsNotNegative(n: nat, k: nat)
    requires n > 0
    ensures BurstWait(n, k) >= 0.0
  {
    if k >= n {
      Rates(n);
      Steps(k - n + 1, 60.0 / n as real);
    }
  }

  lemma CeilingOfZero()
    ensures Ceiling(0.0 * 1000.0) == 0
  {
  }

  lemma {:induction false} BurstRun(shared: nat, limits: map<Text, nat>, start: real, now: real, calls: seq<Call>)
    requires Positive(shared, limits) && 0.0 <= start <= now && AllAt(calls, now) && SoundLimiter(Built(shared, limits, start))
    ensures var r := Run(Built(shared, limits, start), calls);
            && BurstState(r.limiter, shared, limits, start, now, calls) && |r.log| == |calls|
            && (forall i | 0 <= i < |calls| ::
                  r.log[i].endpoint == calls[i].endpoint && GrantedInBurst(r.log[i], shared, limits, now, calls[..i]))
    decreases |calls|
  {
    hide BurstState, GrantedInBurst, SoundLimiter, Reserved, GrantOf, Run, Built;
    var l := Built(shared, limits, start);
    if calls == [] {
      NothingCalled(l);
      BurstStart(shared, limits, start, now);
    } else {
      var before, c := calls[..|calls| - 1], calls[|calls| - 1];
      assert forall x | x in before :: x in calls;
      assert c in calls && c == Reserve(c.endpoint, now);
      BurstRun(shared, limits, start, now, before);
      BurstReserve(Run(l, before).limiter, shared, limits, start, now, before, c.endpoint);
      LastReserve(l, before, c.endpoint, now);
      assert before + [Reserve(c.endpoint, now)] == calls;
      assert forall i | 0 <= i < |before| :: before[..i] == calls[..i];
      assert calls[..|before|] == before;
    }
  }

  lemma NothingCalled(l: Limiter)
    requires SoundLimiter(l)
    ensures Run(l, []) == Outcome(l, [])
  {
  }

  lemma LastReserve(l: Limiter, before: seq<Call>, e: Text, now: real)
    requires SoundLimiter(l)
    ensures var r, after := Run(l, before), Run(l, before + [Reserve(e, now)]);
            after.limiter == Reserved(r.limiter, e, now) && after.log == r.log + [GrantOf(r.limiter, e, now)]
  {
    hide Reserved, GrantOf, SoundLimiter;
    assert (before + [Reserve(e, now)])[..|before|] == before;
  }

  lemma BurstStart(shared: nat, limits: map<Text, nat>, start: real, now: real)
    requires Positive(shared, limits) && SoundLimiter(Built(shared, limits, start))
    ensures BurstState(Built(shared, limits, start), shared, limits, start, now, [])
  {
  }

  /** Of any reservations made at one time, the i-th waits for the key exactly `BurstWait(shared, i)`, and for its endpoint
      as long as the number of that endpoint's earlier ones says; so the first ones, up to both limits, are sent at once. */
  lemma BurstIsExact(shared: nat, limits: map<Text, nat>, start: real, now: real, calls: seq<Call>, i: nat)
    requires Positive(shared, limits) && 0.0 <= start <= now && AllAt(calls, now) && i < |calls|
    ensures SoundLimiter(Built(shared, limits, start))
    ensures var log, e := Run(Built(shared, limits, start), calls).log, calls[i].endpoint;
            && |log| == |calls| && log[i].endpoint == e
            && log[i].shared == now + BurstWait(shared, i)
            && log[i].own == now + (if e in limits then BurstWait(limits[e], Count(calls[..i], e)) else 0.0)
            && (i < shared && (e in limits ==> Count(calls[..i], e) < limits[e]) ==> log[i].delay == 0)
  {
    hide Run, BurstState;
    BuiltIsSound(shared, limits, start);
    BurstRun(shared, limits, start, now, calls);
    assert GrantedInBurst(Run(Built(shared, limits, start), calls).log[i], shared, limits, now, calls[..i]);
  }

  // ---- One penalty ----

  /** With its buckets full, a penalised limiter grants the next request at the end of the cooldown exactly: the endpoint
      that was penalised, and after a key-wide penalty every one; the others at once. */
  lemma PenaltyIsExact(shared: nat, limits: map<Text, nat>, start: real, p: Call, e: Text, now: real)
    requires Positive(shared, limits) && p.Penalize? && 0.0 <= start <= p.now <= now
    ensures var l := Penalized(Built(shared, limits, start), p.endpoint, Until(p.now, p.retryAfter), p.key);
            && SoundLimiter(l)
            && var g, until := GrantOf(l, e, now), p.now + Max(p.retryAfter, 0) as real / 1000.0;
               && g.shared == (if p.key then MaxReal(now, until) else now)
               && g.own == (if e == p.endpoint then MaxReal(now, until) else now)
  {
    hide Wait, Ceiling;
    BuiltIsSound(shared, limits, start);
    var until := Until(p.now, p.retryAfter);
    var l := Penalized(Built(shared, limits, start), p.endpoint, until, p.key);
    PenalizedIsSound(Built(shared, limits, start), p.endpoint, until, p.key);
    FullWait(l.global, now);
    if e in limits {
      FullWait(l.endpoints[e], now);
    }
  }

  lemma FullWait(b: Bucket, now: real)
    requires Sound(b) && b.tokens == b.capacity
    ensures Wait(b, now) == Eligibility(b, now) - now
  {
    hide Inflow;
    InflowIsNotNegative(b.rate, b.updated, Eligibility(b, now));
  }
}
