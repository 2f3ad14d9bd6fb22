/** The chat token bucket kept in Redis and its process-local fallback
    (src/modules/chat/chat-rate-limiter.ts). Times are milliseconds; Redis counts thousandths of a
    token, the fallback counts tokens as real numbers. */
module RateLimiter {
  import opened ChatTypes
  import opened Ordering

  datatype Decision = Decision(allowed: bool, retryAfterMs: int)

  /** Allowance per second and burst capacity, both positive integers by configuration. */
  datatype Quota = Quota(rate: nat, burst: nat)

  predicate Valid(quota: Quota) {
    quota.rate >= 1 && quota.burst >= 1
  }

  function CeilDiv(a: nat, b: nat): nat
    requires b >= 1
  {
    (a + b - 1) / b
  }

  /** A rounded-up quotient is the least factor that reaches the dividend. */
  lemma CeilDivIsLeast(a: nat, b: nat, x: int)
    requires b >= 1
    ensures x * b >= a <==> x >= CeilDiv(a, b)
  {
    var q: int := CeilDiv(a, b);
    CeilDivBounds(a, b);
    if x >= q { MulMonotone(q, x, b); } else { MulMonotone(x, q - 1, b); }
  }

  lemma CeilDivBounds(a: nat, b: nat)
    requires b >= 1
    ensures (CeilDiv(a, b) - 1) * b < a <= CeilDiv(a, b) * b
  {
    var q, n := CeilDiv(a, b), a + b - 1;
    assert n == b * q + n % b;
    assert b * q == q * b && (q - 1) * b == q * b - b;
  }

  lemma MulMonotone(x: int, y: int, b: nat)
    requires x <= y
    ensures x * b <= y * b
  {
    assert (y - x) * b >= 0;
  }

  // ---------------------------------------------------------------------------------------------
  // The Redis script
  // ---------------------------------------------------------------------------------------------

  datatype Bucket = Bucket(tokens: nat, updated: nat)

  function Capacity(quota: Quota): nat {
    quota.burst * 1_000
  }

  function Refill(quota: Quota, bucket: Option<Bucket>, now: nat): (tokens: nat)
    ensures bucket.None? || bucket.value.tokens <= Capacity(quota) ==> tokens <= Capacity(quota)
  {
    if bucket.None? then Capacity(quota)
    else
      var elapsed := if now > bucket.value.updated then now - bucket.value.updated else 0;
      var refilled := bucket.value.tokens + elapsed * quota.rate;
      if Capacity(quota) < refilled then Capacity(quota) else refilled
  }

  function Decide(quota: Quota, tokens: nat): Decision
    requires Valid(quota)
  {
    if tokens >= 1_000 then Decision(true, 0) else Decision(false, CeilDiv(1_000 - tokens, quota.rate))
  }

  function Spend(quota: Quota, bucket: Option<Bucket>, now: nat): Bucket {
    var tokens := Refill(quota, bucket, now);
    Bucket(if tokens >= 1_000 then tokens - 1_000 else tokens, now)
  }

  /** How long an idle key is kept. */
  function Retention(quota: Quota): nat
    requires Valid(quota)
  {
    CeilDiv(quota.burst * 2_000, quota.rate)
  }

  /** The key of one subject, rewritten in place by every evaluation of the script. */
  class RedisBucket {
    var bucket: Option<Bucket>
    var expiresAt: nat
    const quota: Quota

    constructor (quota: Quota)
      requires Valid(quota)
      ensures bucket == None && this.quota == quota
    {
      this.quota, bucket, expiresAt := quota, None, 0;
    }

    method Evaluate(now: nat) returns (decision: Decision)
      requires Valid(quota)
      modifies this
      ensures decision == Decide(quota, Refill(quota, old(bucket), now))
      ensures bucket == Some(Spend(quota, old(bucket), now)) && expiresAt == now + Retention(quota)
    {
      var capacity := quota.burst * 1_000;
      var tokens := if bucket.None? then capacity else bucket.value.tokens;
      var updated := if bucket.None? then now else bucket.value.updated;
      var elapsed := if now > updated then now - updated else 0;
      tokens := if capacity < tokens + elapsed * quota.rate then capacity else tokens + elapsed * quota.rate;
      var allowed, retry := false, 0;
      if tokens >= 1_000 {
        tokens := tokens - 1_000;
        allowed := true;
      } else {
        retry := CeilDiv(1_000 - tokens, quota.rate);
      }
      bucket := Some(Bucket(tokens, now));
      expiresAt := now + CeilDiv(quota.burst * 2_000, quota.rate);
      decision := Decision(allowed, retry);
    }
  }

  // Runs of one subject

  datatype Trace = Trace(bucket: Option<Bucket>, decisions: seq<Decision>)

  function Run(quota: Quota, times: seq<nat>): (trace: Trace)
    requires Valid(quota)
    ensures |trace.decisions| == |times|
  {
    if times == [] then Trace(None, [])
    else
      var before := Run(quota, times[..|times| - 1]);
      var now := times[|times| - 1];
      Trace(Some(Spend(quota, before.bucket, now)), before.decisions + [Decide(quota, Refill(quota, before.bucket, now))])
  }

  ghost predicate Nondecreasing(times: seq<nat>) {
    forall i, j | 0 <= i < j < |times| :: times[i] <= times[j]
  }

  /** The commands allowed at times inside `[from, to]`. */
  function AllowedIn(times: seq<nat>, decisions: seq<Decision>, from: nat, to: nat): nat
    requires |times| == |decisions|
  {
    if times == [] then 0
    else
      var last := |times| - 1;
      AllowedIn(times[..last], decisions[..last], from, to)
      + if from <= times[last] <= to && decisions[last].allowed then 1 else 0
  }

  /** One call takes at most what the bucket held plus the refill since its last use. */
  lemma SpendBound(quota: Quota, bucket: Option<Bucket>, now: nat)
    requires Valid(quota)
    requires bucket.Some? ==> bucket.value.tokens <= Capacity(quota) && bucket.value.updated <= now
    ensures var spent := Spend(quota, bucket, now);
            var granted := if Decide(quota, Refill(quota, bucket, now)).allowed then 1_000 else 0;
            && spent.tokens + granted <= Capacity(quota)
            && (bucket.Some? ==> spent.tokens + granted <= bucket.value.tokens + quota.rate * (now - bucket.value.updated))
  {
    if bucket.Some? {
      assert (now - bucket.value.updated) * quota.rate == quota.rate * (now - bucket.value.updated);
    }
  }

  lemma Distribute(rate: nat, a: nat, b: nat, c: nat)
    requires a <= b <= c
    ensures rate * (c - a) == rate * (c - b) + rate * (b - a)
    ensures rate * (c - b) >= 0 && rate * (b - a) >= 0
  {
  }

  /** What is left in the bucket and what was granted since `from` never exceed a full bucket plus the
      refill since `from`. */
  ghost predicate Balanced(quota: Quota, count: nat, bucket: Bucket, from: nat, to: nat) {
    && bucket.tokens <= Capacity(quota)
    && (bucket.updated < from ==> count == 0)
    && (from <= bucket.updated <= to ==>
          1_000 * count + bucket.tokens <= Capacity(quota) + quota.rate * (bucket.updated - from))
    && 1_000 * count <= Capacity(quota) + quota.rate * (to - from)
  }

  lemma BalancedStep(quota: Quota, count: nat, bucket: Option<Bucket>, now: nat, from: nat, to: nat)
    requires Valid(quota) && from <= to
    requires bucket.None? ==> count == 0
    requires bucket.Some? ==> bucket.value.updated <= now && Balanced(quota, count, bucket.value, from, to)
    ensures var granted := Decide(quota, Refill(quota, bucket, now)).allowed;
            Balanced(quota, count + if from <= now <= to && granted then 1 else 0, Spend(quota, bucket, now), from, to)
  {
    SpendBound(quota, bucket, now);
    Distribute(quota.rate, from, to, to);
    if from <= now <= to {
      Distribute(quota.rate, from, now, to);
      if bucket.Some? && from <= bucket.value.updated { Distribute(quota.rate, from, bucket.value.updated, now); }
    }
  }

  lemma {:induction false} Potential(quota: Quota, times: seq<nat>, from: nat, to: nat)
    requires Valid(quota) && Nondecreasing(times) && from <= to
    ensures var trace := Run(quota, times);
            && (times == [] <==> trace.bucket.None?)
            && (times != [] ==>
                  && trace.bucket.value.updated == times[|times| - 1]
                  && Balanced(quota, AllowedIn(times, trace.decisions, from, to), trace.bucket.value, from, to))
  {
    if times != [] {
      var last := |times| - 1;
      var init, now := times[..last], times[last];
      Potential(quota, init, from, to);
      var before, trace := Run(quota, init), Run(quota, times);
      assert trace.decisions[..last] == before.decisions;
      BalancedStep(quota, AllowedIn(init, before.decisions, from, to), before.bucket, now, from, to);
    }
  }

  /** With a nondecreasing clock, any interval of `d` milliseconds grants at most the burst plus the
      sustained rate over `d`. */
  lemma WindowBound(quota: Quota, times: seq<nat>, from: nat, d: nat)
    requires Valid(quota) && Nondecreasing(times)
    ensures 1_000 * AllowedIn(times, Run(quota, times).decisions, from, from + d)
            <= 1_000 * quota.burst + quota.rate * d
  {
    Potential(quota, times, from, from + d);
    Distribute(quota.rate, 0, 0, d);
  }

  /** The bound needs that clock: `updated` is written back when time goes backwards, so the same
      second refills the bucket twice and one instant grants two commands of a burst of one. */
  lemma RegressingClockBreaksTheBound()
    ensures var quota, times := Quota(1, 1), [1_000, 0, 1_000];
            1_000 * AllowedIn(times, Run(quota, times).decisions, 1_000, 1_000) > 1_000 * quota.burst + quota.rate * 0
  {
    var quota := Quota(1, 1);
    var t1: seq<nat> := [1_000];
    var t2: seq<nat> := [1_000, 0];
    var t3: seq<nat> := [1_000, 0, 1_000];
    assert t1[..0] == [] && t2[..1] == t1 && t3[..2] == t2;
    assert Run(quota, t1) == Trace(Some(Bucket(0, 1_000)), [Decision(true, 0)]);
    assert Run(quota, t2) == Trace(Some(Bucket(0, 0)), [Decision(true, 0), Decision(false, 1_000)]);
    assert Run(quota, t3).decisions == [Decision(true, 0), Decision(false, 1_000), Decision(true, 0)];
    var d1, d2, d3 := Run(quota, t1).decisions, Run(quota, t2).decisions, Run(quota, t3).decisions;
    assert d1[..0] == [] && d2[..1] == d1 && d3[..2] == d2;
    assert AllowedIn(t1, d1, 1_000, 1_000) == 1;
    assert AllowedIn(t2, d2, 1_000, 1_000) == 1;
    assert AllowedIn(t3, d3, 1_000, 1_000) == 2;
  }

  /** How far the clock moved forward from call to call, its steps back not subtracted. */
  function ForwardMoves(times: seq<nat>): nat {
    if |times| < 2 then 0
    else
      var last := |times| - 1;
      ForwardMoves(times[..last]) + Move(times[last - 1], times[last])
  }

  function AllowedCount(decisions: seq<Decision>): nat {
    if decisions == [] then 0
    else
      AllowedCount(decisions[..|decisions| - 1]) + if decisions[|decisions| - 1].allowed then 1 else 0
  }

  function Move(from: nat, to: nat): nat {
    if to > from then to - from else 0
  }

  /** One more call on any clock. */
  lemma ExtendBound(quota: Quota, bucket: Bucket, now: nat, count: nat, moves: nat)
    requires Valid(quota) && bucket.tokens <= Capacity(quota)
    requires 1_000 * count + bucket.tokens <= 1_000 * quota.burst + quota.rate * moves
    ensures var granted := if Decide(quota, Refill(quota, Some(bucket), now)).allowed then 1 else 0;
            1_000 * (count + granted) + Spend(quota, Some(bucket), now).tokens
            <= 1_000 * quota.burst + quota.rate * (moves + Move(bucket.updated, now))
  {
    var move := Move(bucket.updated, now);
    assert quota.rate * (moves + move) == quota.rate * moves + move * quota.rate;
  }

  lemma {:induction false} NeverAboveCapacity(quota: Quota, times: seq<nat>)
    requires Valid(quota) && times != []
    ensures var bucket := Run(quota, times).bucket;
            bucket.Some? && bucket.value.updated == times[|times| - 1] && bucket.value.tokens <= Capacity(quota)
  {
    if |times| > 1 { NeverAboveCapacity(quota, times[..|times| - 1]); }
  }

  /** Exactly when one call stays within the refill since the last one: when the clock has not stepped
      back. Then, and only then, what the call grants and leaves is paid for by the elapsed time. */
  lemma PaidForExactly(quota: Quota, bucket: Bucket, now: nat)
    requires Valid(quota) && bucket.tokens <= Capacity(quota)
    ensures var granted := if Decide(quota, Refill(quota, Some(bucket), now)).allowed then 1_000 else 0;
            Spend(quota, Some(bucket), now).tokens + granted <= bucket.tokens + quota.rate * (now - bucket.updated)
            <==> now >= bucket.updated
  {
    if now >= bucket.updated {
      SpendBound(quota, Some(bucket), now);
    } else {
      MulMonotone(now - bucket.updated, -1, quota.rate);
    }
  }

  /** On any clock, every stretch of calls, from call `k` to the last, grants at most the burst plus the
      sustained rate over the clock's forward moves in between. */
  lemma {:induction false} AnyClockBound(quota: Quota, times: seq<nat>, k: nat)
    requires Valid(quota) && k < |times|
    ensures var trace := Run(quota, times);
            && trace.bucket.Some?
            && 1_000 * AllowedCount(trace.decisions[k..]) + trace.bucket.value.tokens
               <= 1_000 * quota.burst + quota.rate * ForwardMoves(times[k..])
  {
    var last := |times| - 1;
    var init, now := times[..last], times[last];
    var before, trace := Run(quota, init), Run(quota, times);
    var part, decided := times[k..], trace.decisions[k..];
    assert decided[|decided| - 1] == trace.decisions[last];
    if k < last {
      AnyClockBound(quota, init, k);
      NeverAboveCapacity(quota, init);
      assert part[..|part| - 1] == init[k..] && decided[..|decided| - 1] == before.decisions[k..];
      ExtendBound(quota, before.bucket.value, now, AllowedCount(before.decisions[k..]), ForwardMoves(init[k..]));
    } else {
      if last > 0 { NeverAboveCapacity(quota, init); }
      assert decided[..|decided| - 1] == [] && |part| == 1;
    }
  }

  // What a client is entitled to

  /** The calls of a trace at one instant. */
  function Repeat(now: nat, count: nat): seq<nat> {
    if count == 0 then [] else Repeat(now, count - 1) + [now]
  }

  /** The bucket after `count` calls of a new subject at one instant. */
  function Drained(quota: Quota, now: nat, count: nat): Option<Bucket> {
    if count == 0 then None
    else Some(Bucket(if count <= quota.burst then (quota.burst - count) * 1_000 else 0, now))
  }

  lemma DrainOneMore(quota: Quota, now: nat, count: nat)
    requires Valid(quota)
    ensures Some(Spend(quota, Drained(quota, now, count), now)) == Drained(quota, now, count + 1)
    ensures Decide(quota, Refill(quota, Drained(quota, now, count), now)).allowed <==> count < quota.burst
  {
    assert count < quota.burst ==> (quota.burst - count) * 1_000 >= 1_000;
  }

  /** A new subject may use its whole burst at once: exactly the first `burst` calls of an instant are
      allowed. */
  lemma {:induction false} BurstIsGranted(quota: Quota, now: nat, count: nat)
    requires Valid(quota)
    ensures |Repeat(now, count)| == count
    ensures Run(quota, Repeat(now, count)).bucket == Drained(quota, now, count)
    ensures forall k | 0 <= k < count :: Run(quota, Repeat(now, count)).decisions[k].allowed <==> k < quota.burst
  {
    if count > 0 {
      BurstIsGranted(quota, now, count - 1);
      DrainOneMore(quota, now, count - 1);
      assert Repeat(now, count)[..count - 1] == Repeat(now, count - 1);
    }
  }

  /** Consecutive calls are far enough apart to earn a token each. */
  ghost predicate Paced(quota: Quota, times: seq<nat>) {
    forall i, j | 0 <= i && j == i + 1 && j < |times| :: times[i] <= times[j] && (times[j] - times[i]) * quota.rate >= 1_000
  }

  /** A client that keeps to the sustained rate is never refused. */
  lemma {:induction false} SustainedRateIsGranted(quota: Quota, times: seq<nat>)
    requires Valid(quota) && Paced(quota, times)
    ensures forall k | 0 <= k < |times| :: Run(quota, times).decisions[k] == Decision(true, 0)
  {
    if times != [] {
      var init, now := times[..|times| - 1], times[|times| - 1];
      SustainedRateIsGranted(quota, init);
      if init != [] {
        NeverAboveCapacity(quota, init);
        assert init[|init| - 1] == times[|times| - 2];
        PacedCall(quota, Run(quota, init).bucket.value, now);
      }
    }
  }

  lemma PacedCall(quota: Quota, bucket: Bucket, now: nat)
    requires Valid(quota) && bucket.updated <= now && (now - bucket.updated) * quota.rate >= 1_000
    ensures Decide(quota, Refill(quota, Some(bucket), now)) == Decision(true, 0)
  {
    assert Capacity(quota) >= 1_000;
  }

  /** A denial hints at the least number of milliseconds that earns what is missing. */
  lemma HintIsLeast(quota: Quota, tokens: nat, wait: nat)
    requires Valid(quota) && tokens < 1_000
    ensures var decision := Decide(quota, tokens);
            !decision.allowed && (tokens + wait * quota.rate >= 1_000 <==> wait >= decision.retryAfterMs)
  {
    CeilDivIsLeast(1_000 - tokens, quota.rate, wait);
  }

  /** An idle key is kept for the least number of milliseconds that would refill it twice. */
  lemma RetentionIsLeast(quota: Quota, wait: nat)
    requires Valid(quota)
    ensures wait * quota.rate >= 2 * (quota.burst * 1_000) <==> wait >= Retention(quota)
  {
    CeilDivIsLeast(quota.burst * 2_000, quota.rate, wait);
  }

  // Expiry

  /** The same run, except that the key may be gone at call `i` if `gone[i]` says so; Redis may do this
      only once the key's time has run out. */
  function RunExpiring(quota: Quota, times: seq<nat>, gone: seq<bool>): (trace: Trace)
    requires Valid(quota) && |times| == |gone|
    ensures |trace.decisions| == |times|
  {
    if times == [] then Trace(None, [])
    else
      var last := |times| - 1;
      var before := RunExpiring(quota, times[..last], gone[..last]);
      var found := if gone[last] then None else before.bucket;
      Trace(Some(Spend(quota, found, times[last])), before.decisions + [Decide(quota, Refill(quota, found, times[last]))])
  }

  ghost predicate OnlyWhenDue(quota: Quota, times: seq<nat>, gone: seq<bool>)
    requires Valid(quota) && |times| == |gone|
  {
    forall i, j | 0 <= i && j == i + 1 && j < |times| && gone[j] :: times[j] >= times[i] + Retention(quota)
  }

  /** Expiry is unobservable: by the time a key may vanish, its bucket is full again. */
  lemma {:induction false} ExpiryIsUnobservable(quota: Quota, times: seq<nat>, gone: seq<bool>)
    requires Valid(quota) && |times| == |gone| && OnlyWhenDue(quota, times, gone)
    ensures RunExpiring(quota, times, gone) == Run(quota, times)
  {
    if times != [] {
      var last := |times| - 1;
      ExpiryIsUnobservable(quota, times[..last], gone[..last]);
      var before := Run(quota, times[..last]);
      if gone[last] && last > 0 {
        assert times[..last][last - 1] == times[last - 1];
        assert before.bucket.value.updated == times[last - 1];
        assert gone[last - 1 + 1] && times[last] >= times[last - 1] + Retention(quota);
        CeilDivIsLeast(quota.burst * 2_000, quota.rate, times[last] - times[last - 1]);
        assert Refill(quota, before.bucket, times[last]) == Capacity(quota);
      }
    }
  }

  // The retry hint

  /** Starting from a denial at `at` that left `tokens`, the bucket only fills linearly while calls are denied. */
  function After(quota: Quota, bucket: Bucket, times: seq<nat>): Bucket {
    if times == [] then bucket
    else Spend(quota, Some(After(quota, bucket, times[..|times| - 1])), times[|times| - 1])
  }

  ghost predicate AllDenied(quota: Quota, bucket: Bucket, times: seq<nat>) {
    times != [] ==>
      && AllDenied(quota, bucket, times[..|times| - 1])
      && Refill(quota, Some(After(quota, bucket, times[..|times| - 1])), times[|times| - 1]) < 1_000
  }

  lemma WaitStep(quota: Quota, first: Bucket, before: Bucket, now: nat)
    requires Valid(quota) && first.updated <= before.updated <= now
    requires before.tokens == first.tokens + (before.updated - first.updated) * quota.rate
    requires Refill(quota, Some(before), now) < 1_000
    ensures Spend(quota, Some(before), now) == Bucket(first.tokens + (now - first.updated) * quota.rate, now)
  {
    Accrue(quota.rate, first.updated, before.updated, now);
  }

  lemma {:induction false} DeniedCallsOnlyWait(quota: Quota, bucket: Bucket, times: seq<nat>)
    requires Valid(quota) && Nondecreasing(times) && (times != [] ==> bucket.updated <= times[0])
    requires bucket.tokens < 1_000 && AllDenied(quota, bucket, times)
    ensures var later := After(quota, bucket, times);
            && later.updated == (if times == [] then bucket.updated else times[|times| - 1])
            && bucket.updated <= later.updated
            && later.tokens == bucket.tokens + (later.updated - bucket.updated) * quota.rate
            && later.tokens < 1_000
  {
    if times != [] {
      var last := |times| - 1;
      var init, now := times[..last], times[last];
      DeniedCallsOnlyWait(quota, bucket, init);
      WaitStep(quota, bucket, After(quota, bucket, init), now);
    }
  }

  lemma Accrue(rate: nat, a: nat, b: nat, c: nat)
    requires a <= b <= c
    ensures (c - a) * rate == (b - a) * rate + (c - b) * rate
  {
  }

  /** The hint is exact: after a denial at `at`, and whatever denied calls follow, a call succeeds
      exactly when it comes at or after `at + retryAfterMs`. */
  lemma RetryHintIsExact(quota: Quota, bucket: Option<Bucket>, at: nat, denied: seq<nat>, now: nat)
    requires Valid(quota) && !Decide(quota, Refill(quota, bucket, at)).allowed
    requires Nondecreasing(denied) && at <= now
    requires denied != [] ==> at <= denied[0] && denied[|denied| - 1] <= now
    requires AllDenied(quota, Spend(quota, bucket, at), denied)
    ensures var hint := Decide(quota, Refill(quota, bucket, at)).retryAfterMs;
            var later := After(quota, Spend(quota, bucket, at), denied);
            && hint >= 1
            && (Decide(quota, Refill(quota, Some(later), now)).allowed <==> now >= at + hint)
  {
    var left := Spend(quota, bucket, at);
    DeniedCallsOnlyWait(quota, left, denied);
    var later := After(quota, left, denied);
    Accrue(quota.rate, at, later.updated, now);
    CeilDivIsLeast(1_000 - left.tokens, quota.rate, now - at);
    CeilDivIsLeast(1_000 - left.tokens, quota.rate, 0);
  }

  // ---------------------------------------------------------------------------------------------
  // The local fallback
  // ---------------------------------------------------------------------------------------------

  datatype LocalBucket = LocalBucket(tokens: real, updatedAt: real)

  const MAX_SUBJECTS := 10_000

  /** An insertion-ordered map: `order` lists its keys, oldest insertion first. */
  datatype Fallback = Fallback(order: seq<nat>, buckets: map<nat, LocalBucket>)

  function Ceil(x: real): int {
    -((-x).Floor)
  }

  function LocalRefill(quota: Quota, bucket: Option<LocalBucket>, now: real): real {
    if bucket.None? then quota.burst as real
    else
      var elapsed := if now > bucket.value.updatedAt then now - bucket.value.updatedAt else 0.0;
      var refilled := bucket.value.tokens + (elapsed / 1_000.0) * quota.rate as real;
      if quota.burst as real < refilled then quota.burst as real else refilled
  }

  function LocalDecide(quota: Quota, tokens: real): Decision
    requires Valid(quota)
  {
    if tokens < 1.0 then Decision(false, Ceil(((1.0 - tokens) / quota.rate as real) * 1_000.0)) else Decision(true, 0)
  }

  function LocalSpend(quota: Quota, bucket: Option<LocalBucket>, now: real): LocalBucket {
    var tokens := LocalRefill(quota, bucket, now);
    LocalBucket(if tokens < 1.0 then tokens else tokens - 1.0, now)
  }

  function Lookup<V>(buckets: map<nat, V>, subject: nat): Option<V> {
    if subject in buckets then Some(buckets[subject]) else None
  }

  function Without(order: seq<nat>, subject: nat): (rest: seq<nat>)
    ensures subject !in rest && forall x | x != subject :: x in rest <==> x in order
    ensures |rest| <= |order|
  {
    if order == [] then []
    else if order[0] == subject then Without(order[1..], subject)
    else
      assert forall x :: x in order <==> x == order[0] || x in order[1..];
      [order[0]] + Without(order[1..], subject)
  }

  /** `rememberFallback`: a new subject evicts the oldest entry when the map is full, and every use
      moves its subject to the end. */
  function Remember(f: Fallback, subject: nat, bucket: LocalBucket): Fallback {
    var evict := subject !in f.buckets && |f.order| >= MAX_SUBJECTS;
    var order := if evict then f.order[1..] else f.order;
    var buckets := if evict then f.buckets - {f.order[0]} else f.buckets;
    Fallback(Without(order, subject) + [subject], buckets[subject := bucket])
  }

  function ConsumeLocal(quota: Quota, f: Fallback, subject: nat, now: real): Fallback {
    Remember(f, subject, LocalSpend(quota, Lookup(f.buckets, subject), now))
  }

  ghost predicate WellFormed(f: Fallback) {
    && Distinct(f.order)
    && (forall x :: x in f.order <==> x in f.buckets)
    && |f.order| <= MAX_SUBJECTS
  }

  class ChatRateLimiter {
    var order: seq<nat>
    var buckets: map<nat, LocalBucket>
    const quota: Quota

    ghost function State(): Fallback
      reads this
    {
      Fallback(order, buckets)
    }

    constructor (quota: Quota)
      requires Valid(quota)
      ensures State() == Fallback([], map[]) && this.quota == quota
    {
      this.quota, order, buckets := quota, [], map[];
    }

    method ConsumeFallback(subject: nat, now: real) returns (decision: Decision)
      requires Valid(quota) && WellFormed(State())
      modifies this
      ensures State() == ConsumeLocal(quota, old(State()), subject, now) && WellFormed(State())
      ensures decision == LocalDecide(quota, LocalRefill(quota, Lookup(old(buckets), subject), now))
    {
      var bucket := RefillBucket(subject, now);
      if bucket.tokens < 1.0 {
        RememberFallback(subject, bucket);
        return Decision(false, Ceil(((1.0 - bucket.tokens) / quota.rate as real) * 1_000.0));
      }
      bucket := bucket.(tokens := bucket.tokens - 1.0);
      RememberFallback(subject, bucket);
      return Decision(true, 0);
    }

    method RefillBucket(subject: nat, now: real) returns (bucket: LocalBucket)
      ensures bucket == LocalBucket(LocalRefill(quota, Lookup(buckets, subject), now), now)
    {
      var capacity := quota.burst as real;
      bucket := if subject in buckets then buckets[subject] else LocalBucket(capacity, now);
      var elapsed := if now > bucket.updatedAt then now - bucket.updatedAt else 0.0;
      var refilled := bucket.tokens + (elapsed / 1_000.0) * quota.rate as real;
      bucket := LocalBucket(if capacity < refilled then capacity else refilled, now);
    }

    method RememberFallback(subject: nat, bucket: LocalBucket)
      requires WellFormed(State())
      modifies this
      ensures State() == Remember(old(State()), subject, bucket) && WellFormed(State())
    {
      RememberKeeps(State(), subject, bucket);
      if subject !in buckets && |order| >= MAX_SUBJECTS {
        var oldest := order[0];
        order, buckets := order[1..], buckets - {oldest};
      }
      order := Without(order, subject);
      order, buckets := order + [subject], buckets[subject := bucket];
    }
  }

  lemma {:induction false} WithoutKeepsDistinct(order: seq<nat>, subject: nat)
    requires Distinct(order)
    ensures Distinct(Without(order, subject))
    ensures subject !in order ==> Without(order, subject) == order
    ensures subject in order ==> |Without(order, subject)| == |order| - 1
    decreases |order|
  {
    if order != [] {
      WithoutKeepsDistinct(order[1..], subject);
      assert order[0] !in order[1..];
      assert order == [order[0]] + order[1..];
    }
  }

  /** The map never exceeds its bound and keeps one entry per subject. */
  lemma RememberKeeps(f: Fallback, subject: nat, bucket: LocalBucket)
    requires WellFormed(f)
    ensures WellFormed(Remember(f, subject, bucket))
  {
    var evict := subject !in f.buckets && |f.order| >= MAX_SUBJECTS;
    var order := if evict then f.order[1..] else f.order;
    assert Distinct(order);
    if evict { assert f.order == [f.order[0]] + f.order[1..]; }
    assert forall x :: x in order <==> x in (if evict then f.buckets - {f.order[0]} else f.buckets);
    WithoutKeepsDistinct(order, subject);
  }

  // Runs of the fallback

  /** One command of a subject at a local time in milliseconds, not necessarily whole. */
  datatype Use = Use(subject: nat, now: real)

  datatype LocalTrace = LocalTrace(fallback: Fallback, decisions: seq<Decision>)

  function RunLocal(quota: Quota, uses: seq<Use>): LocalTrace
    requires Valid(quota)
  {
    if uses == [] then LocalTrace(Fallback([], map[]), [])
    else
      var before := RunLocal(quota, uses[..|uses| - 1]);
      var Use(subject, now) := uses[|uses| - 1];
      LocalTrace(ConsumeLocal(quota, before.fallback, subject, now),
                 before.decisions + [LocalDecide(quota, LocalRefill(quota, Lookup(before.fallback.buckets, subject), now))])
  }

  /** The subjects seen so far, each once, ordered by their last use. */
  function Recency(uses: seq<Use>): seq<nat> {
    if uses == [] then []
    else Without(Recency(uses[..|uses| - 1]), uses[|uses| - 1].subject) + [uses[|uses| - 1].subject]
  }

  function LastOf(order: seq<nat>, count: nat): seq<nat> {
    if |order| <= count then order else order[|order| - count..]
  }

  lemma {:induction false} WithoutConcat(a: seq<nat>, b: seq<nat>, subject: nat)
    ensures Without(a + b, subject) == Without(a, subject) + Without(b, subject)
    decreases |a|
  {
    if a == [] {
      assert a + b == b;
    } else {
      assert (a + b)[1..] == a[1..] + b;
      WithoutConcat(a[1..], b, subject);
    }
  }

  /** Using a subject that is among the kept ones only moves it to the end. */
  lemma TouchKept(gone: seq<nat>, kept: seq<nat>, subject: nat)
    requires Distinct(kept) && |kept| <= MAX_SUBJECTS && (gone != [] ==> |kept| == MAX_SUBJECTS)
    requires subject in kept && subject !in gone && Distinct(gone)
    ensures LastOf(Without(gone + kept, subject) + [subject], MAX_SUBJECTS) == Without(kept, subject) + [subject]
  {
    WithoutConcat(gone, kept, subject);
    WithoutKeepsDistinct(kept, subject);
    WithoutKeepsDistinct(gone, subject);
    var moved := Without(kept, subject) + [subject];
    assert gone + Without(kept, subject) + [subject] == gone + moved;
  }

  /** Using another subject appends it and pushes out the oldest kept one when there is no room. */
  lemma TouchNew(gone: seq<nat>, kept: seq<nat>, subject: nat)
    requires Distinct(kept) && |kept| <= MAX_SUBJECTS && (gone != [] ==> |kept| == MAX_SUBJECTS)
    requires subject !in kept && Distinct(gone)
    ensures LastOf(Without(gone + kept, subject) + [subject], MAX_SUBJECTS)
            == (if |kept| == MAX_SUBJECTS then kept[1..] else kept) + [subject]
  {
    WithoutConcat(gone, kept, subject);
    WithoutKeepsDistinct(kept, subject);
    WithoutKeepsDistinct(gone, subject);
    var rest := Without(gone, subject);
    var order := rest + kept + [subject];
    if |kept| == MAX_SUBJECTS {
      assert order[|order| - MAX_SUBJECTS..] == kept[1..] + [subject];
    } else {
      assert gone == [] && order == kept + [subject];
    }
  }

  /** Moving one subject to the end and keeping the last `MAX_SUBJECTS` is what `Remember` does. */
  lemma TouchKeepsRecent(all: seq<nat>, f: Fallback, subject: nat, bucket: LocalBucket)
    requires Distinct(all) && WellFormed(f) && f.order == LastOf(all, MAX_SUBJECTS)
    ensures Remember(f, subject, bucket).order == LastOf(Without(all, subject) + [subject], MAX_SUBJECTS)
  {
    RememberOrder(f, subject, bucket);
    TouchOrder(all, f.order, subject);
  }

  /** The same for the order alone. */
  lemma TouchOrder(all: seq<nat>, order: seq<nat>, subject: nat)
    requires Distinct(all) && Distinct(order) && order == LastOf(all, MAX_SUBJECTS)
    ensures LastOf(Without(all, subject) + [subject], MAX_SUBJECTS) ==
              (if subject in order then Without(order, subject)
               else if |order| == MAX_SUBJECTS then order[1..] else order) + [subject]
  {
    var gone := all[..|all| - |order|];
    assert all == gone + order;
    assert Distinct(gone);
    if subject in order {
      DistinctParts(gone, order, subject);
      TouchKept(gone, order, subject);
    } else {
      TouchNew(gone, order, subject);
    }
  }

  lemma DistinctParts(a: seq<nat>, b: seq<nat>, subject: nat)
    requires Distinct(a + b) && subject in b
    ensures subject !in a
  {
    var j :| 0 <= j < |b| && b[j] == subject;
    assert (a + b)[|a| + j] == subject;
    forall i | 0 <= i < |a| ensures a[i] != subject { assert (a + b)[i] == a[i]; }
  }

  /** What `Remember` does to the order, without naming the map. */
  lemma RememberOrder(f: Fallback, subject: nat, bucket: LocalBucket)
    requires WellFormed(f)
    ensures Remember(f, subject, bucket).order ==
              (if subject in f.order then Without(f.order, subject)
               else if |f.order| == MAX_SUBJECTS then f.order[1..] else f.order) + [subject]
  {
    if subject !in f.order {
      var room := if |f.order| == MAX_SUBJECTS then f.order[1..] else f.order;
      assert forall x <- room :: x in f.order;
      WithoutKeepsDistinct(room, subject);
    }
  }

  /** In every run the map holds exactly the most recently used subjects, at most 10,000 of them: what
      is evicted is always the least recently consumed one. */
  lemma {:induction false} KeepsMostRecent(quota: Quota, uses: seq<Use>)
    requires Valid(quota)
    ensures WellFormed(RunLocal(quota, uses).fallback) && Distinct(Recency(uses))
    ensures RunLocal(quota, uses).fallback.order == LastOf(Recency(uses), 10_000)
  {
    if uses != [] {
      var init, last := uses[..|uses| - 1], uses[|uses| - 1];
      KeepsMostRecent(quota, init);
      var before := RunLocal(quota, init).fallback;
      var bucket := LocalSpend(quota, Lookup(before.buckets, last.subject), last.now);
      RememberKeeps(before, last.subject, bucket);
      TouchKeepsRecent(Recency(init), before, last.subject, bucket);
      WithoutKeepsDistinct(Recency(init), last.subject);
    }
  }

  // Refinement of the script

  datatype SharedTrace = SharedTrace(buckets: map<nat, Bucket>, decisions: seq<Decision>)

  ghost predicate Whole(uses: seq<Use>) {
    forall i | 0 <= i < |uses| :: uses[i].now >= 0.0 && uses[i].now == uses[i].now.Floor as real
  }

  /** The script for every subject, one key each. */
  function RunShared(quota: Quota, uses: seq<Use>): SharedTrace
    requires Valid(quota) && Whole(uses)
  {
    if uses == [] then SharedTrace(map[], [])
    else
      var before := RunShared(quota, uses[..|uses| - 1]);
      var Use(subject, now) := uses[|uses| - 1];
      var bucket := Lookup(before.buckets, subject);
      SharedTrace(before.buckets[subject := Spend(quota, bucket, now.Floor)],
                  before.decisions + [Decide(quota, Refill(quota, bucket, now.Floor))])
  }

  /** The same bucket counted in tokens and in thousandths of a token. */
  ghost predicate Same(local: LocalBucket, shared: Bucket) {
    local.tokens == shared.tokens as real / 1_000.0 && local.updatedAt == shared.updated as real
  }

  lemma RefillAgrees(quota: Quota, local: Option<LocalBucket>, shared: Option<Bucket>, now: nat)
    requires Valid(quota) && local.Some? == shared.Some? && (local.Some? ==> Same(local.value, shared.value))
    ensures LocalRefill(quota, local, now as real) == Refill(quota, shared, now) as real / 1_000.0
  {
    if local.Some? {
      var elapsed := if now > shared.value.updated then now - shared.value.updated else 0;
      var product := elapsed * quota.rate;
      assert product as real == elapsed as real * quota.rate as real;
      assert (elapsed as real / 1_000.0) * quota.rate as real == product as real / 1_000.0;
    }
  }

  lemma CeilAgrees(m: nat, rate: nat)
    requires rate >= 1
    ensures Ceil(m as real / rate as real) == CeilDiv(m, rate)
  {
    var q: int := CeilDiv(m, rate);
    CeilDivBounds(m, rate);
    CastProduct(q, rate);
    CastProduct(q - 1, rate);
    QuotientAtMost(m as real, rate as real, q as real);
    QuotientAbove(m as real, rate as real, (q - 1) as real);
    CeilBetween(m as real / rate as real, q);
  }

  lemma CeilBetween(x: real, q: int)
    requires q as real - 1.0 < x <= q as real
    ensures Ceil(x) == q
  {
  }

  lemma CastProduct(a: int, b: int)
    ensures (a * b) as real == a as real * b as real
  {
  }

  lemma QuotientAtMost(a: real, c: real, b: real)
    requires c > 0.0 && a <= b * c
    ensures a / c <= b
  {
    assert (a / c) * c == a;
    if a / c > b { ScaleReal(b, a / c, c); }
  }

  lemma QuotientAbove(a: real, c: real, b: real)
    requires c > 0.0 && a > b * c
    ensures a / c > b
  {
    assert (a / c) * c == a;
    if a / c <= b { ScaleReal(a / c, b, c); }
  }

  lemma ScaleReal(a: real, b: real, c: real)
    requires a <= b && c > 0.0
    ensures a * c <= b * c && (a < b ==> a * c < b * c)
  {
    assert (b - a) * c == b * c - a * c;
  }

  lemma DecideAgrees(quota: Quota, tokens: nat)
    requires Valid(quota)
    ensures LocalDecide(quota, tokens as real / 1_000.0) == Decide(quota, tokens)
  {
    if tokens < 1_000 {
      var m := 1_000 - tokens;
      assert ((1.0 - tokens as real / 1_000.0) / quota.rate as real) * 1_000.0 == m as real / quota.rate as real;
      CeilAgrees(m, quota.rate);
    }
  }

  ghost predicate SameBuckets(local: map<nat, LocalBucket>, shared: map<nat, Bucket>) {
    local.Keys == shared.Keys && forall subject <- shared :: Same(local[subject], shared[subject])
  }

  /** One command, while the map has room: same decision, same bucket. */
  lemma ConsumeAgrees(quota: Quota, f: Fallback, shared: map<nat, Bucket>, subject: nat, now: nat)
    requires Valid(quota) && SameBuckets(f.buckets, shared)
    requires subject in f.buckets || |f.order| < MAX_SUBJECTS
    ensures var mine, theirs := Lookup(f.buckets, subject), Lookup(shared, subject);
            && LocalDecide(quota, LocalRefill(quota, mine, now as real)) == Decide(quota, Refill(quota, theirs, now))
            && SameBuckets(ConsumeLocal(quota, f, subject, now as real).buckets,
                           shared[subject := Spend(quota, theirs, now)])
  {
    var mine, theirs := Lookup(f.buckets, subject), Lookup(shared, subject);
    RefillAgrees(quota, mine, theirs, now);
    DecideAgrees(quota, Refill(quota, theirs, now));
    SpendAgrees(quota, mine, theirs, now);
  }

  lemma SpendAgrees(quota: Quota, local: Option<LocalBucket>, shared: Option<Bucket>, now: nat)
    requires LocalRefill(quota, local, now as real) == Refill(quota, shared, now) as real / 1_000.0
    ensures Same(LocalSpend(quota, local, now as real), Spend(quota, shared, now))
  {
  }

  /** While at most 10,000 subjects appear, the fallback in exact arithmetic answers every command like
      the script: same decisions, same retry delays. */
  lemma {:induction false} FallbackRefinesScript(quota: Quota, uses: seq<Use>)
    requires Valid(quota) && Whole(uses) && |Recency(uses)| <= 10_000
    ensures var local, shared := RunLocal(quota, uses), RunShared(quota, uses);
            local.decisions == shared.decisions && SameBuckets(local.fallback.buckets, shared.buckets)
  {
    if uses != [] {
      var init, last := uses[..|uses| - 1], uses[|uses| - 1];
      KeepsMostRecent(quota, init);
      WithoutKeepsDistinct(Recency(init), last.subject);
      FallbackRefinesScript(quota, init);
      var local, shared := RunLocal(quota, init), RunShared(quota, init);
      assert local.fallback.order == Recency(init);
      assert last.subject !in local.fallback.buckets ==> |local.fallback.order| < MAX_SUBJECTS;
      ConsumeAgrees(quota, local.fallback, shared.buckets, last.subject, last.now.Floor);
    }
  }
}
