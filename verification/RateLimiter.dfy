/** The per-key token bucket of rate_limit.rs, over exact arithmetic. */
module TokenBucket {

  /** A clock reading, in seconds. */
  type Instant = real

  datatype Bucket = Bucket(tokens: real, lastRefill: Instant)

  /** The burst size and the tokens regained per second. */
  datatype Rate = Rate(capacity: nat, refill: real)

  function Elapsed(now: Instant, since: Instant): real {
    if now >= since then now - since else 0.0
  }

  function Min(a: real, b: real): real {
    if a <= b then a else b
  }

  lemma ProductNonnegative(x: real, y: real)
    requires x >= 0.0 && y >= 0.0
    ensures x * y >= 0.0
  {
  }

  lemma ProductSplits(a: real, b: real, c: real, y: real)
    ensures (c - a) * y == (b - a) * y + (c - b) * y
  {
    assert c - a == (b - a) + (c - b);
  }

  function Refilled(rate: Rate, b: Bucket, now: Instant): real {
    Min(b.tokens + Elapsed(now, b.lastRefill) * rate.refill, rate.capacity as real)
  }

  /** One request: the bucket afterwards, and whether it was admitted. */
  function Request(rate: Rate, b: Bucket, now: Instant): (Bucket, bool) {
    var tokens := Refilled(rate, b, now);
    if tokens >= 1.0 then (Bucket(tokens - 1.0, now), true) else (Bucket(tokens, now), false)
  }

  function Full(rate: Rate, now: Instant): Bucket {
    Bucket(rate.capacity as real, now)
  }

  /** At a reading of the clock before the last request nothing is refilled, and nothing is taken back. */
  lemma EarlierReadingsRefillNothing(rate: Rate, b: Bucket, now: Instant)
    requires now <= b.lastRefill && b.tokens <= rate.capacity as real
    ensures var (after, admitted) := Request(rate, b, now);
            && (admitted <==> b.tokens >= 1.0) && after.lastRefill == now
            && after.tokens == b.tokens - if admitted then 1.0 else 0.0
  {
    assert Elapsed(now, b.lastRefill) == 0.0;
  }

  lemma RequestSpends(rate: Rate, b: Bucket, now: Instant)
    requires 0.0 <= b.tokens <= rate.capacity as real && b.lastRefill <= now && rate.refill >= 0.0
    ensures var (after, admitted) := Request(rate, b, now);
            && 0.0 <= after.tokens <= rate.capacity as real && after.lastRefill == now
            && after.tokens + (if admitted then 1.0 else 0.0) == Refilled(rate, b, now)
            && Refilled(rate, b, now) <= b.tokens + (now - b.lastRefill) * rate.refill
  {
    ProductNonnegative(now - b.lastRefill, rate.refill);
  }

  // ---------------------------------------------------------------- the requests of one key

  /** The bucket that the request at position `i` meets; the first meets a full one. */
  function Before(rate: Rate, times: seq<Instant>, i: nat): Bucket
    requires i < |times|
    decreases i, 0
  {
    if i == 0 then Full(rate, times[0]) else After(rate, times, i - 1)
  }

  function After(rate: Rate, times: seq<Instant>, i: nat): Bucket
    requires i < |times|
    decreases i, 1
  {
    Request(rate, Before(rate, times, i), times[i]).0
  }

  predicate Admitted(rate: Rate, times: seq<Instant>, i: nat)
    requires i < |times|
  {
    Request(rate, Before(rate, times, i), times[i]).1
  }

  ghost predicate Nondecreasing(times: seq<Instant>) {
    forall i, j | 0 <= i < j < |times| :: times[i] <= times[j]
  }

  function Gained(rate: Rate, from: Instant, to: Instant): real {
    (to - from) * rate.refill
  }

  /** How many requests a window of this length may hold. */
  function Allowance(rate: Rate, from: Instant, to: Instant): real {
    rate.capacity as real + Gained(rate, from, to)
  }

  predicate WindowFits(rate: Rate, times: seq<Instant>, i: nat, j: nat)
    requires i <= j < |times|
  {
    (j - i + 1) as real <= Allowance(rate, times[i], times[j])
  }

  /** What is left of the allowance of the window from `i` to `j` if every request in it is admitted. */
  function Slack(rate: Rate, times: seq<Instant>, i: nat, j: nat): real
    requires i <= j < |times|
  {
    Allowance(rate, times[i], times[j]) - (j - i + 1) as real
  }

  lemma AllowanceAdds(rate: Rate, a: Instant, b: Instant, c: Instant)
    ensures Allowance(rate, a, c) == Allowance(rate, a, b) + Gained(rate, b, c)
  {
    ProductSplits(a, b, c, rate.refill);
  }

  lemma SlackMoves(rate: Rate, times: seq<Instant>, i: nat, j: nat)
    requires i < j < |times|
    ensures Slack(rate, times, i, j) == Slack(rate, times, i, j - 1) + (times[j] - times[j - 1]) * rate.refill - 1.0
  {
    AllowanceAdds(rate, times[i], times[j - 1], times[j]);
  }

  ghost predicate AllAdmitted(rate: Rate, times: seq<Instant>, n: nat)
    requires n <= |times|
  {
    forall i | 0 <= i < n :: Admitted(rate, times, i)
  }

  ghost predicate AllWindowsFit(rate: Rate, times: seq<Instant>, n: nat)
    requires n <= |times|
  {
    forall i, j | 0 <= i <= j < n :: WindowFits(rate, times, i, j)
  }

  /** While everything is admitted the bucket holds the least slack of all windows ending at `j`. */
  ghost predicate IsLeastSlack(rate: Rate, times: seq<Instant>, j: nat, tokens: real)
    requires j < |times|
  {
    && (forall i | 0 <= i <= j :: tokens <= Slack(rate, times, i, j))
    && (exists i :: 0 <= i <= j && tokens == Slack(rate, times, i, j))
  }

  lemma LeastSlackMoves(rate: Rate, times: seq<Instant>, j: nat, held: real, gained: real)
    requires 0 < j < |times| && IsLeastSlack(rate, times, j - 1, held)
    requires forall i | 0 <= i < j :: Slack(rate, times, i, j) == Slack(rate, times, i, j - 1) + gained - 1.0
    ensures IsLeastSlack(rate, times, j, Min(held + gained, rate.capacity as real) - 1.0)
  {
    var left := Min(held + gained, rate.capacity as real) - 1.0;
    assert Slack(rate, times, j, j) == rate.capacity as real - 1.0;
    var least :| 0 <= least < j && held == Slack(rate, times, least, j - 1);
    assert left == Min(Slack(rate, times, least, j), Slack(rate, times, j, j));
    forall i | 0 <= i <= j
      ensures left <= Slack(rate, times, i, j)
    {
      assert i < j ==> held <= Slack(rate, times, i, j - 1);
    }
  }

  lemma RefilledSince(rate: Rate, b: Bucket, now: Instant, gained: real)
    requires b.lastRefill <= now && gained == (now - b.lastRefill) * rate.refill
    ensures Refilled(rate, b, now) == Min(b.tokens + gained, rate.capacity as real)
  {
    assert Elapsed(now, b.lastRefill) == now - b.lastRefill;
  }

  lemma LeastSlackKept(rate: Rate, times: seq<Instant>, j: nat, held: real, gained: real)
    requires 0 < j < |times| && gained == (times[j] - times[j - 1]) * rate.refill
    requires IsLeastSlack(rate, times, j - 1, held)
    ensures IsLeastSlack(rate, times, j, Min(held + gained, rate.capacity as real) - 1.0)
  {
    forall i | 0 <= i < j
      ensures Slack(rate, times, i, j) == Slack(rate, times, i, j - 1) + gained - 1.0
    {
      SlackMoves(rate, times, i, j);
    }
    LeastSlackMoves(rate, times, j, held, gained);
  }

  /** One request finds, after refilling, one token more than the least slack. */
  lemma RefillsToLeastSlack(rate: Rate, times: seq<Instant>, j: nat, b: Bucket)
    requires 0 < j < |times| && times[j - 1] <= times[j]
    requires b.lastRefill == times[j - 1] && IsLeastSlack(rate, times, j - 1, b.tokens)
    ensures IsLeastSlack(rate, times, j, Refilled(rate, b, times[j]) - 1.0)
  {
    var gained := (times[j] - times[j - 1]) * rate.refill;
    LeastSlackKept(rate, times, j, b.tokens, gained);
    RefilledSince(rate, b, times[j], gained);
  }

  lemma FirstLeastSlack(rate: Rate, times: seq<Instant>)
    requires times != []
    ensures IsLeastSlack(rate, times, 0, Refilled(rate, Before(rate, times, 0), times[0]) - 1.0)
  {
    assert Elapsed(times[0], times[0]) == 0.0;
    assert Slack(rate, times, 0, 0) == rate.capacity as real - 1.0;
  }

  lemma LeastSlackDecides(rate: Rate, times: seq<Instant>, j: nat, tokens: real)
    requires j < |times| && IsLeastSlack(rate, times, j, tokens - 1.0)
    ensures tokens >= 1.0 <==> forall i | 0 <= i <= j :: WindowFits(rate, times, i, j)
  {
    assert forall i | 0 <= i <= j :: WindowFits(rate, times, i, j) <==> Slack(rate, times, i, j) >= 0.0;
  }

  lemma OneMoreWindowEnd(rate: Rate, times: seq<Instant>, j: nat)
    requires j < |times|
    ensures AllWindowsFit(rate, times, j + 1)
            <==> AllWindowsFit(rate, times, j) && forall i | 0 <= i <= j :: WindowFits(rate, times, i, j)
    ensures AllAdmitted(rate, times, j + 1) <==> AllAdmitted(rate, times, j) && Admitted(rate, times, j)
  {
  }

  lemma {:induction false} AdmissionStep(rate: Rate, times: seq<Instant>, j: nat)
    requires j < |times| && Nondecreasing(times)
    ensures AllAdmitted(rate, times, j + 1) <==> AllWindowsFit(rate, times, j + 1)
    ensures AllAdmitted(rate, times, j + 1) ==> IsLeastSlack(rate, times, j, After(rate, times, j).tokens)
  {
    if j > 0 {
      AdmissionStep(rate, times, j - 1);
    }
    OneMoreWindowEnd(rate, times, j);
    if AllAdmitted(rate, times, j) {
      if j == 0 {
        FirstLeastSlack(rate, times);
      } else {
        RefillsToLeastSlack(rate, times, j, After(rate, times, j - 1));
      }
      LeastSlackDecides(rate, times, j, Refilled(rate, Before(rate, times, j), times[j]));
    }
  }

  /** The admission law: every request of a trace is admitted exactly when no window of requests is
      larger than the burst size plus what the bucket regains over it. */
  lemma AllAdmittedIffWindowsFit(rate: Rate, times: seq<Instant>)
    requires Nondecreasing(times)
    ensures AllAdmitted(rate, times, |times|) <==> AllWindowsFit(rate, times, |times|)
  {
    if times != [] {
      AdmissionStep(rate, times, |times| - 1);
    }
  }

  function AdmittedCount(rate: Rate, times: seq<Instant>, i: nat, j: nat): nat
    requires i <= j < |times|
    decreases j - i
  {
    (if i < j then AdmittedCount(rate, times, i, j - 1) else 0) + if Admitted(rate, times, j) then 1 else 0
  }

  lemma {:induction false} TokensInRange(rate: Rate, times: seq<Instant>, i: nat)
    requires i < |times| && Nondecreasing(times) && rate.refill >= 0.0
    ensures var b := After(rate, times, i); 0.0 <= b.tokens <= rate.capacity as real && b.lastRefill == times[i]
  {
    if i > 0 {
      TokensInRange(rate, times, i - 1);
    }
    RequestSpends(rate, Before(rate, times, i), times[i]);
  }

  lemma OneMoreRequest(rate: Rate, times: seq<Instant>, j: nat)
    requires 0 < j < |times| && Nondecreasing(times) && rate.refill >= 0.0
    ensures After(rate, times, j).tokens + (if Admitted(rate, times, j) then 1.0 else 0.0)
            <= After(rate, times, j - 1).tokens + Gained(rate, times[j - 1], times[j])
  {
    TokensInRange(rate, times, j - 1);
    RequestSpends(rate, Before(rate, times, j), times[j]);
  }

  lemma FirstOfWindow(rate: Rate, times: seq<Instant>, i: nat)
    requires i < |times| && Nondecreasing(times) && rate.refill >= 0.0
    ensures After(rate, times, i).tokens + (if Admitted(rate, times, i) then 1.0 else 0.0)
            <= Allowance(rate, times[i], times[i])
  {
    if i > 0 {
      TokensInRange(rate, times, i - 1);
    }
    RequestSpends(rate, Before(rate, times, i), times[i]);
    assert (times[i] - times[i]) * rate.refill == 0.0;
  }

  lemma CountGrows(rate: Rate, times: seq<Instant>, i: nat, j: nat)
    requires i < j < |times|
    ensures AdmittedCount(rate, times, i, j) as real
            == AdmittedCount(rate, times, i, j - 1) as real + if Admitted(rate, times, j) then 1.0 else 0.0
  {
  }

  lemma CountOfOne(rate: Rate, times: seq<Instant>, i: nat)
    requires i < |times|
    ensures AdmittedCount(rate, times, i, i) as real == if Admitted(rate, times, i) then 1.0 else 0.0
  {
  }

  lemma AdmittedStep(rate: Rate, times: seq<Instant>, i: nat, j: nat)
    requires i < j < |times| && Nondecreasing(times) && rate.refill >= 0.0
    requires AdmittedCount(rate, times, i, j - 1) as real + After(rate, times, j - 1).tokens
             <= Allowance(rate, times[i], times[j - 1])
    ensures AdmittedCount(rate, times, i, j) as real + After(rate, times, j).tokens
            <= Allowance(rate, times[i], times[j])
  {
    hide After, Allowance, AdmittedCount, Admitted, Gained;
    AllowanceAdds(rate, times[i], times[j - 1], times[j]);
    OneMoreRequest(rate, times, j);
    CountGrows(rate, times, i, j);
  }

  /** However many requests come, the admitted ones among any window, and the tokens left at its end,
      obey the same bound. */
  lemma {:induction false} AdmittedWindowsFit(rate: Rate, times: seq<Instant>, i: nat, j: nat)
    requires i <= j < |times| && Nondecreasing(times) && rate.refill >= 0.0
    ensures 0.0 <= After(rate, times, j).tokens
    ensures AdmittedCount(rate, times, i, j) as real + After(rate, times, j).tokens
            <= Allowance(rate, times[i], times[j])
    decreases j - i
  {
    TokensInRange(rate, times, j);
    hide After, Allowance, AdmittedCount, Admitted;
    if i == j {
      CountOfOne(rate, times, i);
      FirstOfWindow(rate, times, i);
    } else {
      AdmittedWindowsFit(rate, times, i, j - 1);
      AdmittedStep(rate, times, i, j);
    }
  }
}

module RateLimiting {
  import opened Outcomes
  import opened TokenBucket

  type Key = string

  type Buckets = map<Key, Bucket>

  /** One request of a key, whose bucket starts full when there is none. */
  function Touch(rate: Rate, buckets: Buckets, key: Key, now: Instant): (Buckets, bool) {
    var b := if key in buckets then buckets[key] else Full(rate, now);
    var (after, admitted) := Request(rate, b, now);
    (buckets[key := after], admitted)
  }

  lemma TouchSize(rate: Rate, buckets: Buckets, key: Key, now: Instant)
    ensures |Touch(rate, buckets, key, now).0| == |buckets| + if key in buckets then 0 else 1
  {
    var after := Touch(rate, buckets, key, now).0;
    assert after.Keys == buckets.Keys + {key};
    assert |after| == |after.Keys| && |buckets| == |buckets.Keys|;
  }

  predicate Crowded(buckets: Buckets, limit: nat, key: Key) {
    key !in buckets && |buckets| >= limit
  }

  function Pruned(buckets: Buckets, age: real, now: Instant): Buckets {
    map k | k in buckets && Elapsed(now, buckets[k].lastRefill) < age :: buckets[k]
  }

  predicate SeenWithin(buckets: Buckets, key: Key, age: real, now: Instant) {
    key in buckets && Elapsed(now, buckets[key].lastRefill) < age
  }

  /** A key that pruning drops starts afresh; any other goes on as before. */
  lemma PrunedDecides(rate: Rate, buckets: Buckets, age: real, now: Instant, key: Key, at: Instant)
    ensures Touch(rate, Pruned(buckets, age, now), key, at).1 ==
            if SeenWithin(buckets, key, age, now) then Touch(rate, buckets, key, at).1 else rate.capacity >= 1
  {
    assert Elapsed(at, at) == 0.0;
    assert key !in Pruned(buckets, age, now) ==> Refilled(rate, Full(rate, at), at) == rate.capacity as real;
  }

  // ---------------------------------------------------------------- the limiter

  class RateLimiter {
    const rate: Rate
    const maxTrackedKeys: nat
    var buckets: Buckets

    constructor (capacity: nat, refillPerSec: real, maxTrackedKeys: nat)
      ensures rate == Rate(capacity, refillPerSec) && this.maxTrackedKeys == maxTrackedKeys && buckets == map[]
    {
      rate := Rate(capacity, refillPerSec);
      this.maxTrackedKeys := maxTrackedKeys;
      buckets := map[];
    }

    /** How many keys the limiter may track: its limit, or the one key in use. */
    function Bound(): (bound: nat)
      ensures bound >= maxTrackedKeys && bound >= 1
    {
      if maxTrackedKeys == 0 then 1 else maxTrackedKeys
    }

    /** The number of tracked keys never grows past the bound. */
    method AllowAt(key: Key, now: Instant) returns (allowed: bool, ghost kept: Buckets)
      modifies this
      ensures if key !in old(buckets) && |old(buckets)| >= maxTrackedKeys && old(buckets) != map[]
              then exists k :: k in old(buckets) && kept == old(buckets) - {k}
                               && forall j | j in old(buckets) :: old(buckets)[k].lastRefill <= old(buckets)[j].lastRefill
              else kept == old(buckets)
      ensures (buckets, allowed) == Touch(rate, kept, key, now)
      ensures |old(buckets)| <= Bound() ==> |buckets| <= Bound()
    {
      if key !in buckets && |buckets| >= maxTrackedKeys {
        EvictLeastRecentlySeen();
      }
      kept := buckets;
      TouchSize(rate, kept, key, now);
      allowed := TakeToken(key, now);
    }

    /** The second half of `AllowAt`: find or create the bucket, refill it and spend a token. */
    method TakeToken(key: Key, now: Instant) returns (allowed: bool)
      modifies this
      ensures (buckets, allowed) == Touch(rate, old(buckets), key, now)
    {
      if key !in buckets {
        buckets := buckets[key := Bucket(rate.capacity as real, now)];
      }
      var bucket := buckets[key];
      var elapsed := Elapsed(now, bucket.lastRefill);
      bucket := Bucket(Min(bucket.tokens + elapsed * rate.refill, rate.capacity as real), now);
      if bucket.tokens >= 1.0 {
        bucket := bucket.(tokens := bucket.tokens - 1.0);
        allowed := true;
      } else {
        allowed := false;
      }
      buckets := buckets[key := bucket];
      assert buckets == Touch(rate, old(buckets), key, now).0;
    }

    method PruneOlderThan(maxAge: real, now: Instant)
      modifies this
      ensures buckets == Pruned(old(buckets), maxAge, now)
      ensures forall key, at :: Touch(rate, buckets, key, at).1 ==
                if SeenWithin(old(buckets), key, maxAge, now) then Touch(rate, old(buckets), key, at).1 else rate.capacity >= 1
    {
      buckets := map k | k in buckets && Elapsed(now, buckets[k].lastRefill) < maxAge :: buckets[k];
      forall key, at
        ensures Touch(rate, buckets, key, at).1 ==
                if SeenWithin(old(buckets), key, maxAge, now) then Touch(rate, old(buckets), key, at).1 else rate.capacity >= 1
      {
        PrunedDecides(rate, old(buckets), maxAge, now, key, at);
      }
    }

    method EvictLeastRecentlySeen()
      modifies this
      ensures if old(buckets) == map[] then buckets == old(buckets)
              else |buckets| == |old(buckets)| - 1
                   && exists k :: k in old(buckets) && buckets == old(buckets) - {k}
                                  && forall j | j in old(buckets) :: old(buckets)[k].lastRefill <= old(buckets)[j].lastRefill
    {
      if buckets != map[] {
        var oldest :| oldest in buckets;
        var rest := buckets.Keys - {oldest};
        while rest != {}
          invariant oldest in buckets && rest <= buckets.Keys && buckets == old(buckets)
          invariant forall k | k in buckets && k !in rest :: buckets[oldest].lastRefill <= buckets[k].lastRefill
        {
          var k :| k in rest;
          rest := rest - {k};
          if buckets[k].lastRefill < buckets[oldest].lastRefill {
            oldest := k;
          }
        }
        buckets := buckets - {oldest};
        assert buckets.Keys == old(buckets).Keys - {oldest};
        assert |buckets| == |buckets.Keys| && |old(buckets)| == |old(buckets).Keys|;
      }
    }
  }

  // ---------------------------------------------------------------- traces

  datatype Op = Ask(key: Key, at: Instant) | Clean(age: real, at: Instant)

  /** The limiter's buckets after a trace in which it never has to evict. */
  function Play(rate: Rate, ops: seq<Op>): Buckets {
    if ops == [] then map[]
    else
      var before, last := Play(rate, ops[..|ops| - 1]), ops[|ops| - 1];
      match last
      case Ask(key, at) => Touch(rate, before, key, at).0
      case Clean(age, at) => Pruned(before, age, at)
  }

  /** The same, had it never been pruned. */
  function Remember(rate: Rate, ops: seq<Op>): Buckets {
    if ops == [] then map[]
    else
      var before, last := Remember(rate, ops[..|ops| - 1]), ops[|ops| - 1];
      match last
      case Ask(key, at) => Touch(rate, before, key, at).0
      case Clean(_, _) => before
  }

  ghost predicate Clocked(ops: seq<Op>) {
    forall i, j | 0 <= i < j < |ops| :: ops[i].at <= ops[j].at
  }

  /** The limiter never meets a new key while full, so it never evicts. */
  ghost predicate Roomy(rate: Rate, ops: seq<Op>, limit: nat) {
    forall i | 0 <= i < |ops| && ops[i].Ask? :: !Crowded(Play(rate, ops[..i]), limit, ops[i].key)
  }

  /** Whether the trace's last request is admitted, by the pruned limiter and by one that never forgets. */
  predicate Decision(rate: Rate, ops: seq<Op>, key: Key, at: Instant) {
    Touch(rate, Play(rate, ops), key, at).1
  }

  predicate UnforgetfulDecision(rate: Rate, ops: seq<Op>, key: Key, at: Instant) {
    Touch(rate, Remember(rate, ops), key, at).1
  }

  /** A new limiter driven through its own methods, without having to evict, is in the state and makes
      the decisions that the trace says. */
  method Replay(limiter: RateLimiter, ops: seq<Op>) returns (decisions: seq<bool>)
    requires limiter.buckets == map[] && Roomy(limiter.rate, ops, limiter.maxTrackedKeys)
    modifies limiter
    ensures limiter.buckets == Play(limiter.rate, ops)
    ensures |decisions| == |ops|
    ensures forall i | 0 <= i < |ops| && ops[i].Ask? ::
              decisions[i] == Decision(limiter.rate, ops[..i], ops[i].key, ops[i].at)
  {
    decisions := [];
    for i := 0 to |ops|
      invariant limiter.buckets == Play(limiter.rate, ops[..i]) && |decisions| == i
      invariant forall j | 0 <= j < i && ops[j].Ask? ::
                  decisions[j] == Decision(limiter.rate, ops[..j], ops[j].key, ops[j].at)
    {
      assert ops[..i + 1][..i] == ops[..i] && ops[..i + 1][i] == ops[i];
      match ops[i] {
        case Ask(key, at) =>
          var allowed, _ := limiter.AllowAt(key, at);
          decisions := decisions + [allowed];
        case Clean(age, at) =>
          limiter.PruneOlderThan(age, at);
          decisions := decisions + [false];
      }
    }
    assert ops[..|ops|] == ops;
  }

  /** A bucket that will have refilled by the given time. */
  predicate WillBeFull(rate: Rate, b: Bucket, now: Instant) {
    b.lastRefill <= now && 0.0 <= b.tokens && b.tokens + (now - b.lastRefill) * rate.refill >= rate.capacity as real
  }

  ghost predicate Agree(rate: Rate, pruned: Buckets, whole: Buckets, clock: Instant) {
    && (forall k | k in pruned :: k in whole && pruned[k] == whole[k])
    && (forall k | k in whole :: 0.0 <= whole[k].tokens && whole[k].lastRefill <= clock)
    && (forall k | k in whole && k !in pruned :: WillBeFull(rate, whole[k], clock))
  }

  lemma StaysFull(rate: Rate, b: Bucket, clock: Instant, now: Instant)
    requires WillBeFull(rate, b, clock) && clock <= now && rate.refill >= 0.0
    ensures WillBeFull(rate, b, now) && Refilled(rate, b, now) == rate.capacity as real
  {
    ProductSplits(b.lastRefill, clock, now, rate.refill);
    ProductNonnegative(now - clock, rate.refill);
  }

  lemma SameRequest(rate: Rate, pruned: Buckets, whole: Buckets, clock: Instant, key: Key, at: Instant)
    requires Agree(rate, pruned, whole, clock) && clock <= at && rate.refill >= 0.0
    ensures Touch(rate, pruned, key, at).1 == Touch(rate, whole, key, at).1
    ensures Touch(rate, pruned, key, at).0[key] == Touch(rate, whole, key, at).0[key]
    ensures Touch(rate, whole, key, at).0[key].lastRefill == at && 0.0 <= Touch(rate, whole, key, at).0[key].tokens
  {
    assert Elapsed(at, at) == 0.0;
    if key in whole {
      ProductNonnegative(Elapsed(at, whole[key].lastRefill), rate.refill);
      if key !in pruned {
        StaysFull(rate, whole[key], clock, at);
      }
    }
  }

  lemma TouchAgrees(rate: Rate, pruned: Buckets, whole: Buckets, clock: Instant, key: Key, at: Instant)
    requires Agree(rate, pruned, whole, clock) && clock <= at && rate.refill >= 0.0
    ensures Touch(rate, pruned, key, at).1 == Touch(rate, whole, key, at).1
    ensures Agree(rate, Touch(rate, pruned, key, at).0, Touch(rate, whole, key, at).0, at)
  {
    SameRequest(rate, pruned, whole, clock, key, at);
    forall k | k in whole && k !in pruned
      ensures WillBeFull(rate, whole[k], at)
    {
      StaysFull(rate, whole[k], clock, at);
    }
  }

  lemma IdleLongEnough(rate: Rate, b: Bucket, age: real, at: Instant)
    requires b.lastRefill <= at && 0.0 <= b.tokens && Elapsed(at, b.lastRefill) >= age
    requires rate.refill >= 0.0 && age * rate.refill >= rate.capacity as real
    ensures WillBeFull(rate, b, at)
  {
    ProductSplits(b.lastRefill, b.lastRefill + age, at, rate.refill);
    assert b.lastRefill + age - b.lastRefill == age;
    ProductNonnegative(at - (b.lastRefill + age), rate.refill);
  }

  lemma CleanAgrees(rate: Rate, pruned: Buckets, whole: Buckets, clock: Instant, age: real, at: Instant)
    requires Agree(rate, pruned, whole, clock) && clock <= at && rate.refill >= 0.0
    requires age * rate.refill >= rate.capacity as real
    ensures Agree(rate, Pruned(pruned, age, at), whole, at)
  {
    forall k | k in whole && k !in Pruned(pruned, age, at)
      ensures WillBeFull(rate, whole[k], at)
    {
      if k in pruned {
        IdleLongEnough(rate, whole[k], age, at);
      } else {
        StaysFull(rate, whole[k], clock, at);
      }
    }
  }

  function ClockOf(ops: seq<Op>): Instant {
    if ops == [] then 0.0 else ops[|ops| - 1].at
  }

  lemma {:induction false} PlayAgrees(rate: Rate, ops: seq<Op>)
    requires Clocked(ops) && rate.refill >= 0.0
    requires forall op | op in ops && op.Clean? :: op.age * rate.refill >= rate.capacity as real
    ensures Agree(rate, Play(rate, ops), Remember(rate, ops), ClockOf(ops))
  {
    if ops != [] {
      var init, last := ops[..|ops| - 1], ops[|ops| - 1];
      PlayAgrees(rate, init);
      if init == [] {
        assert Agree(rate, Play(rate, init), Remember(rate, init), last.at);
        StepAgrees(rate, init, last, last.at);
      } else {
        StepAgrees(rate, init, last, ClockOf(init));
      }
    }
  }

  lemma StepAgrees(rate: Rate, init: seq<Op>, last: Op, clock: Instant)
    requires Agree(rate, Play(rate, init), Remember(rate, init), clock) && clock <= last.at && rate.refill >= 0.0
    requires last.Clean? ==> last.age * rate.refill >= rate.capacity as real
    ensures Agree(rate, Play(rate, init + [last]), Remember(rate, init + [last]), last.at)
  {
    assert (init + [last])[..|init|] == init;
    match last
    case Ask(key, at) => TouchAgrees(rate, Play(rate, init), Remember(rate, init), clock, key, at);
    case Clean(age, at) => CleanAgrees(rate, Play(rate, init), Remember(rate, init), clock, age, at);
  }

  /** When an idle key has had time to refill before it is dropped, pruning at any times changes no
      decision. */
  lemma PruningIsUnobservable(rate: Rate, ops: seq<Op>, key: Key, at: Instant)
    requires Clocked(ops + [Ask(key, at)]) && rate.refill >= 0.0
    requires forall op | op in ops && op.Clean? :: op.age * rate.refill >= rate.capacity as real
    ensures Decision(rate, ops, key, at) == UnforgetfulDecision(rate, ops, key, at)
  {
    var all := ops + [Ask(key, at)];
    assert forall i | 0 <= i < |ops| :: all[i] == ops[i];
    PlayAgrees(rate, ops);
    if ops == [] {
    } else {
      assert all[|ops| - 1].at <= all[|ops|].at;
      TouchAgrees(rate, Play(rate, ops), Remember(rate, ops), ClockOf(ops), key, at);
    }
  }

  /** The times at which a trace asks for a key. */
  function TimesOf(ops: seq<Op>, key: Key): seq<Instant> {
    if ops == [] then []
    else
      var last := ops[|ops| - 1];
      TimesOf(ops[..|ops| - 1], key) + if last.Ask? && last.key == key then [last.at] else []
  }

  lemma {:induction false} AfterOfPrefix(rate: Rate, times: seq<Instant>, at: Instant, i: nat)
    requires i < |times|
    ensures After(rate, times + [at], i) == After(rate, times, i)
  {
    if i > 0 {
      AfterOfPrefix(rate, times, at, i - 1);
    }
  }

  /** What a limiter that never forgets knows of a key is what that key's own requests left. */
  lemma {:induction false} RememberedAlone(rate: Rate, ops: seq<Op>, key: Key)
    ensures var times := TimesOf(ops, key);
            Get(Remember(rate, ops), key) == if times == [] then None else Some(After(rate, times, |times| - 1))
  {
    if ops != [] {
      var init, last := ops[..|ops| - 1], ops[|ops| - 1];
      RememberedAlone(rate, init, key);
      if last.Ask? && last.key == key {
        OneMoreOfKey(rate, init, key, last.at);
        assert ops == init + [last];
      } else {
        assert TimesOf(ops, key) == TimesOf(init, key);
      }
    }
  }

  lemma OneMoreOfKey(rate: Rate, init: seq<Op>, key: Key, at: Instant)
    requires var times := TimesOf(init, key);
             Get(Remember(rate, init), key) == if times == [] then None else Some(After(rate, times, |times| - 1))
    ensures TimesOf(init + [Ask(key, at)], key) == TimesOf(init, key) + [at]
    ensures var times := TimesOf(init, key);
            Get(Remember(rate, init + [Ask(key, at)]), key) == Some(After(rate, times + [at], |times|))
  {
    var earlier := TimesOf(init, key);
    NextAlone(rate, earlier, at);
    assert (init + [Ask(key, at)])[..|init|] == init;
    assert Before(rate, earlier + [at], |earlier|)
        == if key in Remember(rate, init) then Remember(rate, init)[key] else Full(rate, at);
  }

  lemma NextAlone(rate: Rate, earlier: seq<Instant>, at: Instant)
    ensures Before(rate, earlier + [at], |earlier|)
            == if earlier == [] then Full(rate, at) else After(rate, earlier, |earlier| - 1)
  {
    if earlier != [] {
      AfterOfPrefix(rate, earlier, at, |earlier| - 1);
    }
  }

  /** So the limiter decides each key's requests by that key's own times alone, as a single bucket
      would. */
  lemma KeysAreIndependent(rate: Rate, ops: seq<Op>, key: Key, at: Instant)
    requires Clocked(ops + [Ask(key, at)]) && rate.refill >= 0.0
    requires forall op | op in ops && op.Clean? :: op.age * rate.refill >= rate.capacity as real
    ensures Decision(rate, ops, key, at) == Admitted(rate, TimesOf(ops, key) + [at], |TimesOf(ops, key)|)
  {
    PruningIsUnobservable(rate, ops, key, at);
    RememberedAlone(rate, ops, key);
    NextAlone(rate, TimesOf(ops, key), at);
  }

  // ---------------------------------------------------------------- the key limit

  function KeysOf(ops: seq<Op>): set<Key> {
    set op | op in ops && op.Ask? :: op.key
  }

  lemma {:induction false} PlayTracksAsked(rate: Rate, ops: seq<Op>)
    ensures Play(rate, ops).Keys <= KeysOf(ops)
  {
    if ops != [] {
      var init, last := ops[..|ops| - 1], ops[|ops| - 1];
      PlayTracksAsked(rate, init);
      assert ops == init + [last];
      assert KeysOf(init) <= KeysOf(ops);
    }
  }

  lemma {:induction false} ProperSubsetSize<T>(a: set<T>, b: set<T>, x: T)
    requires a <= b && x in b && x !in a
    ensures |a| < |b|
  {
    if a != {} {
      var y :| y in a;
      ProperSubsetSize(a - {y}, b - {y}, x);
    }
  }

  /** A trace with no more keys than the limit never evicts, so the limiter plays it as above. */
  lemma FewKeysAreRoomy(rate: Rate, ops: seq<Op>, limit: nat)
    requires |KeysOf(ops)| <= limit
    ensures Roomy(rate, ops, limit)
  {
    forall i | 0 <= i < |ops| && ops[i].Ask?
      ensures !Crowded(Play(rate, ops[..i]), limit, ops[i].key)
    {
      var tracked := Play(rate, ops[..i]);
      PlayTracksAsked(rate, ops[..i]);
      assert ops[i] in ops;
      assert tracked.Keys <= KeysOf(ops);
      if ops[i].key !in tracked {
        ProperSubsetSize(tracked.Keys, KeysOf(ops), ops[i].key);
        assert |tracked| == |tracked.Keys|;
      }
    }
  }

  // ---------------------------------------------------------------- pruning too eagerly

  function Burst(key: Key, at: Instant, n: nat): seq<Op> {
    seq(n, _ => Ask(key, at))
  }

  lemma BurstGrows(base: seq<Op>, key: Key, at: Instant, n: nat)
    requires n > 0
    ensures var ops := base + Burst(key, at, n);
            ops[..|ops| - 1] == base + Burst(key, at, n - 1) && ops[|ops| - 1] == Ask(key, at)
  {
  }

  /** A burst on a key that is not tracked is admitted up to the capacity. */
  lemma {:induction false} FreshBurst(rate: Rate, base: seq<Op>, key: Key, at: Instant, n: nat)
    requires key !in Play(rate, base) && 0 < n <= rate.capacity
    ensures key in Play(rate, base + Burst(key, at, n))
    ensures Play(rate, base + Burst(key, at, n))[key] == Bucket((rate.capacity - n) as real, at)
  {
    BurstGrows(base, key, at, n);
    assert Elapsed(at, at) == 0.0;
    if n == 1 {
      assert base + Burst(key, at, 0) == base;
    } else {
      FreshBurst(rate, base, key, at, n - 1);
    }
  }

  lemma {:induction false} RememberedBurst(rate: Rate, base: seq<Op>, key: Key, at: Instant, n: nat)
    requires key !in Remember(rate, base) && 0 < n <= rate.capacity
    ensures key in Remember(rate, base + Burst(key, at, n))
    ensures Remember(rate, base + Burst(key, at, n))[key] == Bucket((rate.capacity - n) as real, at)
  {
    BurstGrows(base, key, at, n);
    assert Elapsed(at, at) == 0.0;
    if n == 1 {
      assert base + Burst(key, at, 0) == base;
    } else {
      RememberedBurst(rate, base, key, at, n - 1);
    }
  }

  /** A burst that finds fewer than `capacity` tokens runs dry before its last request. */
  lemma {:induction false} PartialBurst(rate: Rate, base: seq<Op>, key: Key, at: Instant, n: nat)
    requires key in Remember(rate, base) && n < rate.capacity
    requires Refilled(rate, Remember(rate, base)[key], at) < rate.capacity as real
    ensures key in Remember(rate, base + Burst(key, at, n))
    ensures Refilled(rate, Remember(rate, base + Burst(key, at, n))[key], at) < (rate.capacity - n) as real
  {
    if n == 0 {
      assert base + Burst(key, at, 0) == base;
    } else {
      BurstGrows(base, key, at, n);
      PartialBurst(rate, base, key, at, n - 1);
      assert Elapsed(at, at) == 0.0;
    }
  }

  /** A burst, an idle spell of exactly the pruning age, and another burst but for its last request. */
  function TwoBursts(capacity: nat, age: real): seq<Op>
    requires capacity > 0
  {
    Burst("", 0.0, capacity) + [Clean(age, age)] + Burst("", age, capacity - 1)
  }

  /** After the first burst and the pruning: forgotten by one limiter, empty in the other. */
  lemma BetweenBursts(rate: Rate, age: real)
    requires rate.capacity > 0 && age >= 0.0
    ensures var mid := Burst("", 0.0, rate.capacity) + [Clean(age, age)];
            "" !in Play(rate, mid) && "" in Remember(rate, mid) && Remember(rate, mid)[""] == Bucket(0.0, 0.0)
  {
    var first := Burst("", 0.0, rate.capacity);
    var mid := first + [Clean(age, age)];
    assert [] + first == first && mid[..|mid| - 1] == first && mid[|mid| - 1] == Clean(age, age);
    FreshBurst(rate, [], "", 0.0, rate.capacity);
    RememberedBurst(rate, [], "", 0.0, rate.capacity);
    assert Play(rate, mid) == Pruned(Play(rate, first), age, age);
    assert Elapsed(age, 0.0) == age;
  }

  lemma EagerPruningAdmits(rate: Rate, age: real)
    requires rate.capacity > 0 && age >= 0.0
    ensures Decision(rate, TwoBursts(rate.capacity, age), "", age)
  {
    var mid := Burst("", 0.0, rate.capacity) + [Clean(age, age)];
    BetweenBursts(rate, age);
    assert Elapsed(age, age) == 0.0;
    if rate.capacity > 1 {
      FreshBurst(rate, mid, "", age, rate.capacity - 1);
    } else {
      assert mid + Burst("", age, 0) == mid;
    }
  }

  lemma UnforgetfulRefuses(rate: Rate, age: real)
    requires rate.capacity > 0 && age >= 0.0 && age * rate.refill < rate.capacity as real
    ensures !UnforgetfulDecision(rate, TwoBursts(rate.capacity, age), "", age)
  {
    var mid := Burst("", 0.0, rate.capacity) + [Clean(age, age)];
    BetweenBursts(rate, age);
    assert Elapsed(age, 0.0) == age;
    PartialBurst(rate, mid, "", age, rate.capacity - 1);
  }

  lemma TwoBurstsClocked(capacity: nat, age: real)
    requires capacity > 0 && age >= 0.0
    ensures Clocked(TwoBursts(capacity, age) + [Ask("", age)])
  {
    var ops := TwoBursts(capacity, age) + [Ask("", age)];
    assert forall i | 0 <= i < |ops| :: ops[i].at == if i < capacity then 0.0 else age;
  }

  /** The condition on the pruning age is exact. */
  ghost predicate NeverObservable(rate: Rate, age: real) {
    forall ops, key, at | Clocked(ops + [Ask(key, at)]) && (forall op | op in ops && op.Clean? :: op.age == age)
      :: Decision(rate, ops, key, at) == UnforgetfulDecision(rate, ops, key, at)
  }

  lemma PruningIsUnobservableIff(rate: Rate, age: real)
    requires rate.refill >= 0.0 && age >= 0.0
    ensures NeverObservable(rate, age) <==> age * rate.refill >= rate.capacity as real
  {
    if age * rate.refill >= rate.capacity as real {
      forall ops, key, at | Clocked(ops + [Ask(key, at)]) && (forall op | op in ops && op.Clean? :: op.age == age)
        ensures Decision(rate, ops, key, at) == UnforgetfulDecision(rate, ops, key, at)
      {
        PruningIsUnobservable(rate, ops, key, at);
      }
    } else {
      ProductNonnegative(age, rate.refill);
      assert rate.capacity as real > 0.0;
      EagerPruningAdmits(rate, age);
      UnforgetfulRefuses(rate, age);
      TwoBurstsClocked(rate.capacity, age);
      var ops := TwoBursts(rate.capacity, age);
      assert forall op | op in ops && op.Clean? :: op.age == age;
    }
  }

  /** The node's limiters: bursts of 20, 10 tokens a second, pruned after five idle minutes. */
  lemma NodePruningIsUnobservable()
    ensures NeverObservable(Rate(20, 10.0), 300.0)
  {
    PruningIsUnobservableIff(Rate(20, 10.0), 300.0);
  }
}
