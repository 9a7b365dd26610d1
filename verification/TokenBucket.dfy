/**
  The per-principal token bucket limiter.  Token counts and times (in seconds) are
  reals: the source's float64 rounding is not modelled.

  The buckets are described for any way of earning tokens over time; AtRate is the
  limiter's own, rate tokens per second.
 */
module TokenBucket {
  import opened Wrappers

  /** `earn(x, y)` is what a bucket last refilled at x earns by y. */
  datatype Config = Config(earn: (real, real) -> real, burst: int)

  datatype Bucket = Bucket(tokens: real, lastCheck: real)

  function Earned(rate: real, x: real, y: real): real { (y - x) * rate }

  function AtRate(rate: real, burst: int): Config {
    Config((x: real, y: real) => Earned(rate, x, y), burst)
  }

  ghost predicate Additive(c: Config) {
    forall x: real, y: real, z: real {:trigger c.earn(x, y), c.earn(y, z)} :: c.earn(x, z) == c.earn(x, y) + c.earn(y, z)
  }

  ghost predicate NeverLoses(c: Config) {
    forall x: real, y: real {:trigger c.earn(x, y)} :: x <= y ==> c.earn(x, y) >= 0.0
  }

  lemma RateIsAdditive(rate: real, burst: int)
    ensures Additive(AtRate(rate, burst))
    ensures rate >= 0.0 ==> NeverLoses(AtRate(rate, burst))
  {
    var c := AtRate(rate, burst);
    forall x: real, y: real, z: real {:trigger c.earn(x, y), c.earn(y, z)}
      ensures c.earn(x, z) == c.earn(x, y) + c.earn(y, z)
    {
    }
  }

  function Full(c: Config): real { c.burst as real }

  function Fresh(c: Config, now: real): Bucket { Bucket(Full(c), now) }

  /** The tokens after the refill at `now`. */
  function Refill(c: Config, b: Bucket, now: real): real {
    var t := b.tokens + c.earn(b.lastCheck, now);
    if t > Full(c) then Full(c) else t
  }

  predicate Grants(c: Config, b: Bucket, now: real) { !(Refill(c, b, now) < 1.0) }

  /** The bucket after one call at `now`. */
  function Spend(c: Config, b: Bucket, now: real): Bucket {
    var t := Refill(c, b, now);
    Bucket(if t < 1.0 then t else t - 1.0, now)
  }

  // ---------------------------------------------------------------- one bucket

  /** The bucket `b` after calls at the times `ts`, in lock order. */
  function After(c: Config, b: Bucket, ts: seq<real>): Bucket
    decreases |ts|
  {
    if ts == [] then b else Spend(c, After(c, b, ts[..|ts| - 1]), ts[|ts| - 1])
  }

  /** How many of the calls from the i-th on were allowed. */
  function Allowed(c: Config, b: Bucket, ts: seq<real>, i: nat): nat
    requires i <= |ts|
    decreases |ts|
  {
    if |ts| == i then 0
    else
      Allowed(c, b, ts[..|ts| - 1], i) +
      if Grants(c, After(c, b, ts[..|ts| - 1]), ts[|ts| - 1]) then 1 else 0
  }

  /** What a further call at `now` would find left in the window from the i-th call on:
      burst plus what was earned since, less what was allowed since. */
  function Envelope(c: Config, b: Bucket, ts: seq<real>, now: real, i: nat): real
    requires i < |ts|
  {
    Full(c) + c.earn(ts[i], now) - Allowed(c, b, ts, i) as real
  }

  /** The same for the window from the moment the bucket was created, full. */
  function CreationEnvelope(c: Config, b: Bucket, ts: seq<real>, now: real): real {
    Full(c) + c.earn(b.lastCheck, now) - Allowed(c, b, ts, 0) as real
  }

  /** How the envelopes move over the last call of `ts`. */
  lemma EnvelopesMove(c: Config, b: Bucket, ts: seq<real>, now: real)
    requires Additive(c) && ts != []
    ensures var p, t := ts[..|ts| - 1], ts[|ts| - 1];
      var spent := c.earn(t, now) - (if Grants(c, After(c, b, p), t) then 1.0 else 0.0);
      && CreationEnvelope(c, b, ts, now) == CreationEnvelope(c, b, p, t) + spent
      && Envelope(c, b, ts, now, |p|) == Full(c) + spent
      && forall i: nat :: i < |p| ==> Envelope(c, b, ts, now, i) == Envelope(c, b, p, t, i) + spent
  {
    var p, t := ts[..|ts| - 1], ts[|ts| - 1];
    assert Allowed(c, b, p, |p|) == 0;
    assert c.earn(b.lastCheck, now) == c.earn(b.lastCheck, t) + c.earn(t, now);
    forall i: nat | i < |p|
      ensures c.earn(ts[i], now) == c.earn(p[i], t) + c.earn(t, now)
    {
      assert p[i] == ts[i];
    }
  }

  /** Whatever the clock values and their order, what a call at `now` finds is the least of
      burst and all envelopes: a lower bound of them, and one of them. */
  lemma {:induction false} TokensAreLeastEnvelope(c: Config, tc: real, ts: seq<real>, now: real)
    requires Additive(c)
    ensures var b, tokens := Fresh(c, tc), Refill(c, After(c, Fresh(c, tc), ts), now);
      && tokens <= Full(c) && tokens <= CreationEnvelope(c, b, ts, now)
      && (forall i: nat :: i < |ts| ==> tokens <= Envelope(c, b, ts, now, i))
      && (tokens == Full(c) || tokens == CreationEnvelope(c, b, ts, now) ||
          exists i: nat :: i < |ts| && tokens == Envelope(c, b, ts, now, i))
    decreases |ts|
  {
    if ts != [] {
      var b := Fresh(c, tc);
      var p, t := ts[..|ts| - 1], ts[|ts| - 1];
      var was := Refill(c, After(c, b, p), t);
      TokensAreLeastEnvelope(c, tc, p, t);
      EnvelopesMove(c, b, ts, now);
      if was == Full(c) {
        assert Refill(c, After(c, b, ts), now) == Full(c) ||
               Refill(c, After(c, b, ts), now) == Envelope(c, b, ts, now, |p|);
      } else if was != CreationEnvelope(c, b, p, t) {
        var i: nat :| i < |p| && was == Envelope(c, b, p, t, i);
        assert Refill(c, After(c, b, ts), now) == Full(c) ||
               Refill(c, After(c, b, ts), now) == Envelope(c, b, ts, now, i);
      }
    }
  }

  /** A call is denied exactly when allowing it would take some window that ends with it over
      burst plus what was earned in it. */
  lemma DeniedExactlyOverEnvelope(c: Config, tc: real, ts: seq<real>, now: real)
    requires Additive(c)
    ensures Grants(c, After(c, Fresh(c, tc), ts), now) <==>
      && Full(c) >= 1.0
      && CreationEnvelope(c, Fresh(c, tc), ts, now) >= 1.0
      && forall i: nat :: i < |ts| ==> Envelope(c, Fresh(c, tc), ts, now, i) >= 1.0
  {
    TokensAreLeastEnvelope(c, tc, ts, now);
  }

  /** The allowed calls in any window that ends with an allowed call are at most burst plus
      what was earned in it. */
  lemma WindowWithinEnvelope(c: Config, tc: real, ts: seq<real>, now: real, i: nat)
    requires Additive(c) && i < |ts| && Grants(c, After(c, Fresh(c, tc), ts), now)
    ensures Allowed(c, Fresh(c, tc), ts + [now], i) as real <= Full(c) + c.earn(ts[i], now)
  {
    DeniedExactlyOverEnvelope(c, tc, ts, now);
    assert Envelope(c, Fresh(c, tc), ts, now, i) >= 1.0;
    assert (ts + [now])[..|ts|] == ts;
  }

  // ---------------------------------------------------------------- eviction

  /** staleThreshold, five minutes. */
  const STALE_THRESHOLD := 300.0

  type Buckets = map<string, Bucket>

  datatype Event = Call(principal: string, now: real) | Cleanup(now: real)

  predicate IsStale(b: Bucket, now: real) { now - b.lastCheck > STALE_THRESHOLD }

  function BucketFor(c: Config, m: Buckets, p: string, now: real): Bucket {
    if p in m then m[p] else Fresh(c, now)
  }

  function Kept(m: Buckets, now: real): Buckets {
    map p | p in m && !IsStale(m[p], now) :: m[p]
  }

  function Step(c: Config, m: Buckets, ev: Event): Buckets {
    match ev
    case Call(p, now) => m[p := Spend(c, BucketFor(c, m, p, now), now)]
    case Cleanup(now) => Kept(m, now)
  }

  /** The answers principal `p` gets from a limiter that starts with the buckets `m`. */
  function AnswersTo(c: Config, m: Buckets, evs: seq<Event>, p: string): seq<bool>
    decreases |evs|
  {
    if evs == [] then []
    else
      (if evs[0].Call? && evs[0].principal == p
       then [Grants(c, BucketFor(c, m, p, evs[0].now), evs[0].now)] else [])
      + AnswersTo(c, Step(c, m, evs[0]), evs[1..], p)
  }

  /** The times of p's own calls. */
  function CallsOf(evs: seq<Event>, p: string): seq<real> {
    if evs == [] then []
    else (if evs[0].Call? && evs[0].principal == p then [evs[0].now] else []) + CallsOf(evs[1..], p)
  }

  /** The answers of one bucket that is never evicted, created by its first call if missing. */
  function Answers(c: Config, b: Option<Bucket>, ts: seq<real>): seq<bool>
    decreases |ts|
  {
    if ts == [] then []
    else
      var b0 := if b.Some? then b.value else Fresh(c, ts[0]);
      [Grants(c, b0, ts[0])] + Answers(c, Some(Spend(c, b0, ts[0])), ts[1..])
  }

  ghost predicate NotBefore(evs: seq<Event>, start: real)
    decreases evs
  {
    evs == [] || (start <= evs[0].now && NotBefore(evs[1..], evs[0].now))
  }

  ghost predicate TimesFrom(ts: seq<real>, start: real) {
    ts == [] || (start <= ts[0] && TimesFrom(ts[1..], ts[0]))
  }

  /** Whatever idles past the stale threshold is full again. */
  ghost predicate RecoversWhenStale(c: Config) {
    forall x: real, y: real {:trigger c.earn(x, y)} :: y - x > STALE_THRESHOLD ==> c.earn(x, y) >= Full(c)
  }

  lemma RateRecovers(rate: real, burst: int)
    requires rate >= 0.0 && rate * STALE_THRESHOLD >= burst as real
    ensures RecoversWhenStale(AtRate(rate, burst))
  {
    var c := AtRate(rate, burst);
    forall x: real, y: real {:trigger c.earn(x, y)} | y - x > STALE_THRESHOLD
      ensures c.earn(x, y) >= Full(c)
    {
      assert (y - x) * rate >= STALE_THRESHOLD * rate;
    }
  }

  /** `r` is p's bucket had nothing been evicted up to time `now`. */
  ghost predicate Tracks(c: Config, m: Buckets, p: string, r: Option<Bucket>, now: real) {
    && (p in m ==> r == Some(m[p]))
    && (p !in m ==> r.None? || Refill(c, r.value, now) == Full(c))
    && (r.Some? ==> r.value.lastCheck <= now && (r.value.tokens >= 0.0 || r.value.tokens >= Full(c)))
  }

  lemma StaysFull(c: Config, b: Bucket, now: real, later: real)
    requires Additive(c) && NeverLoses(c) && now <= later && Refill(c, b, now) == Full(c)
    ensures Refill(c, b, later) == Full(c)
  {
    assert c.earn(b.lastCheck, later) == c.earn(b.lastCheck, now) + c.earn(now, later);
  }

  lemma FreshIsFull(c: Config, now: real)
    requires Additive(c)
    ensures c.earn(now, now) == 0.0 && Refill(c, Fresh(c, now), now) == Full(c)
  {
    assert c.earn(now, now) == c.earn(now, now) + c.earn(now, now);
  }

  /** An own call gets the same answer and leaves the same bucket, evicted or not. */
  lemma OwnCall(c: Config, m: Buckets, p: string, r: Option<Bucket>, was: real, now: real)
    requires Additive(c) && NeverLoses(c) && was <= now && Tracks(c, m, p, r, was)
    ensures var b := if r.Some? then r.value else Fresh(c, now);
      && Grants(c, BucketFor(c, m, p, now), now) == Grants(c, b, now)
      && Tracks(c, Step(c, m, Call(p, now)), p, Some(Spend(c, b, now)), now)
  {
    FreshIsFull(c, now);
    if p !in m && r.Some? {
      StaysFull(c, r.value, was, now);
    }
  }

  lemma Eviction(c: Config, m: Buckets, p: string, r: Option<Bucket>, was: real, now: real)
    requires Additive(c) && NeverLoses(c) && RecoversWhenStale(c) && was <= now && Tracks(c, m, p, r, was)
    ensures Tracks(c, Step(c, m, Cleanup(now)), p, r, now)
  {
    if p !in m && r.Some? {
      StaysFull(c, r.value, was, now);
    }
  }

  lemma OthersCall(c: Config, m: Buckets, p: string, q: string, r: Option<Bucket>, was: real, now: real)
    requires Additive(c) && NeverLoses(c) && was <= now && Tracks(c, m, p, r, was) && p != q
    ensures Tracks(c, Step(c, m, Call(q, now)), p, r, now)
  {
    if p !in m && r.Some? {
      StaysFull(c, r.value, was, now);
    }
  }

  lemma {:induction false} TrackedAnswers(c: Config, m: Buckets, evs: seq<Event>, p: string, r: Option<Bucket>, now: real)
    requires Additive(c) && NeverLoses(c) && RecoversWhenStale(c)
    requires NotBefore(evs, now) && Tracks(c, m, p, r, now)
    ensures AnswersTo(c, m, evs, p) == Answers(c, r, CallsOf(evs, p))
    decreases |evs|
  {
    if evs != [] {
      match evs[0]
      case Cleanup(t) =>
        Eviction(c, m, p, r, now, t);
        TrackedAnswers(c, Step(c, m, evs[0]), evs[1..], p, r, t);
        assert CallsOf(evs, p) == CallsOf(evs[1..], p);
      case Call(q, t) =>
        if q != p {
          OthersCall(c, m, p, q, r, now, t);
          TrackedAnswers(c, Step(c, m, evs[0]), evs[1..], p, r, t);
          assert CallsOf(evs, p) == CallsOf(evs[1..], p);
        } else {
          OwnCall(c, m, p, r, now, t);
          var b := if r.Some? then r.value else Fresh(c, t);
          TrackedAnswers(c, Step(c, m, evs[0]), evs[1..], p, Some(Spend(c, b, t)), t);
          assert CallsOf(evs, p)[1..] == CallsOf(evs[1..], p);
        }
    }
  }

  /** With monotone time and atomic cleanups, if an idle bucket is full again by the stale
      threshold, then a limiter that evicts gives every principal the answers of a bucket
      that is never evicted, and they depend on that principal's own calls alone. */
  lemma EvictionIsInvisible(c: Config, evs: seq<Event>, p: string, start: real)
    requires Additive(c) && NeverLoses(c) && RecoversWhenStale(c) && NotBefore(evs, start)
    ensures AnswersTo(c, map[], evs, p) == Answers(c, None, CallsOf(evs, p))
  {
    TrackedAnswers(c, map[], evs, p, None, start);
  }

  /** In the limiter's own terms: eviction cannot be noticed if five minutes refill a bucket. */
  lemma EvictionAtRate(rate: real, burst: int, evs: seq<Event>, p: string, start: real)
    requires rate >= 0.0 && rate * STALE_THRESHOLD >= burst as real && NotBefore(evs, start)
    ensures AnswersTo(AtRate(rate, burst), map[], evs, p) == Answers(AtRate(rate, burst), None, CallsOf(evs, p))
  {
    RateIsAdditive(rate, burst);
    RateRecovers(rate, burst);
    EvictionIsInvisible(AtRate(rate, burst), evs, p, start);
  }

  // Exactly when deleting a bucket cannot be noticed.

  ghost predicate Unnoticed(c: Config, b: Bucket, now: real) {
    forall ts :: TimesFrom(ts, now) ==> Answers(c, Some(b), ts) == Answers(c, None, ts)
  }

  function Repeat(t: real, n: nat): seq<real> { if n == 0 then [] else [t] + Repeat(t, n - 1) }

  lemma {:induction false} RepeatTimes(t: real, n: nat)
    ensures |Repeat(t, n)| == n && TimesFrom(Repeat(t, n), t)
  {
    if n > 0 {
      RepeatTimes(t, n - 1);
    }
  }

  ghost predicate AllTrue(s: seq<bool>) { forall i :: 0 <= i < |s| ==> s[i] }

  /** n calls at one instant all pass exactly when n tokens are there. */
  lemma {:induction false} BurstAt(c: Config, b: Bucket, t: real, n: nat)
    requires Additive(c)
    ensures AllTrue(Answers(c, Some(b), Repeat(t, n))) <==> n == 0 || Refill(c, b, t) >= n as real
    decreases n
  {
    if n > 0 {
      FreshIsFull(c, t);
      var b' := Spend(c, b, t);
      BurstAt(c, b', t, n - 1);
      var rest := Answers(c, Some(b'), Repeat(t, n - 1));
      assert Repeat(t, n)[1..] == Repeat(t, n - 1);
      assert Answers(c, Some(b), Repeat(t, n)) == [Grants(c, b, t)] + rest;
      assert AllTrue([Grants(c, b, t)] + rest) <==> Grants(c, b, t) && AllTrue(rest) by {
        assert ([Grants(c, b, t)] + rest)[0] == Grants(c, b, t);
        assert forall i :: 0 <= i < |rest| ==> ([Grants(c, b, t)] + rest)[i + 1] == rest[i];
      }
    }
  }

  lemma {:induction false} NeverGrants(c: Config, b: Option<Bucket>, ts: seq<real>)
    requires Full(c) < 1.0
    ensures |Answers(c, b, ts)| == |ts| && forall i :: 0 <= i < |ts| ==> !Answers(c, b, ts)[i]
    decreases |ts|
  {
    if ts != [] {
      var b0 := if b.Some? then b.value else Fresh(c, ts[0]);
      NeverGrants(c, Some(Spend(c, b0, ts[0])), ts[1..]);
    }
  }

  /** Deleting a bucket at `now` goes unnoticed by every later call sequence exactly when the
      bucket is full at `now`, or too small to ever grant. */
  lemma DeletionUnnoticedIff(c: Config, b: Bucket, now: real)
    requires Additive(c) && NeverLoses(c)
    ensures Unnoticed(c, b, now) <==> Refill(c, b, now) == Full(c) || Full(c) < 1.0
  {
    if Full(c) < 1.0 {
      forall ts | TimesFrom(ts, now)
        ensures Answers(c, Some(b), ts) == Answers(c, None, ts)
      {
        NeverGrants(c, Some(b), ts);
        NeverGrants(c, None, ts);
      }
    } else if Refill(c, b, now) == Full(c) {
      forall ts | TimesFrom(ts, now)
        ensures Answers(c, Some(b), ts) == Answers(c, None, ts)
      {
        if ts != [] {
          StaysFull(c, b, now, ts[0]);
          FreshIsFull(c, ts[0]);
        }
      }
    } else {
      var ts := Repeat(now, c.burst);
      RepeatTimes(now, c.burst);
      FreshIsFull(c, now);
      BurstAt(c, b, now, c.burst);
      BurstAt(c, Fresh(c, now), now, c.burst);
      assert Answers(c, None, ts) == Answers(c, Some(Fresh(c, now)), ts);
    }
  }

  /** Call times from `tc` on that never go back. */
  ghost predicate Ordered(tc: real, ts: seq<real>) {
    (forall i :: 0 <= i < |ts| ==> tc <= ts[i]) && forall i, j :: 0 <= i < j < |ts| ==> ts[i] <= ts[j]
  }

  lemma {:induction false} StaysNonNegative(c: Config, tc: real, ts: seq<real>)
    requires Additive(c) && NeverLoses(c) && Full(c) >= 0.0 && Ordered(tc, ts)
    ensures After(c, Fresh(c, tc), ts).tokens >= 0.0
    ensures After(c, Fresh(c, tc), ts).lastCheck == if ts == [] then tc else ts[|ts| - 1]
    decreases |ts|
  {
    if ts != [] {
      StaysNonNegative(c, tc, ts[..|ts| - 1]);
    }
  }

  /** n calls at the bucket's first instant spend n of its tokens. */
  lemma {:induction false} SpentAtOnce(c: Config, t: real, ts: seq<real>)
    requires Additive(c) && |ts| <= c.burst && forall i :: 0 <= i < |ts| ==> ts[i] == t
    ensures After(c, Fresh(c, t), ts) == Bucket(Full(c) - |ts| as real, t)
    decreases |ts|
  {
    FreshIsFull(c, t);
    if ts != [] {
      SpentAtOnce(c, t, ts[..|ts| - 1]);
    }
  }

  lemma ScaleKeepsOrder(x: real, y: real, rate: real)
    requires rate > 0.0
    ensures x < y <==> x * rate < y * rate
    ensures x == y <==> x * rate == y * rate
  {
    if x < y {
      assert (y - x) * rate > 0.0;
    } else {
      assert (x - y) * rate >= 0.0;
      assert x > y ==> (x - y) * rate > 0.0;
    }
  }

  /** A moment past the threshold at which a slow bucket, emptied at 0, is still not full. */
  lemma TooEarly(rate: real, burst: int) returns (t: real)
    requires rate >= 0.0 && rate * STALE_THRESHOLD < burst as real
    ensures t > STALE_THRESHOLD && t * rate < burst as real
  {
    if rate == 0.0 {
      t := STALE_THRESHOLD + 1.0;
    } else {
      var full := burst as real / rate;
      assert full * rate == burst as real;
      t := (STALE_THRESHOLD + full) / 2.0;
      ScaleKeepsOrder(full, STALE_THRESHOLD, rate);
      ScaleKeepsOrder(t, full, rate);
    }
  }

  /** Everything a monotone clock can bring a bucket to is evicted unnoticed. */
  ghost predicate NeverNoticed(c: Config) {
    forall tc, ts, now: real :: Ordered(tc, ts) && IsStale(After(c, Fresh(c, tc), ts), now) ==>
      Unnoticed(c, After(c, Fresh(c, tc), ts), now)
  }

  lemma RecoveringIsUnnoticed(c: Config)
    requires Additive(c) && NeverLoses(c) && (RecoversWhenStale(c) || c.burst < 1)
    ensures NeverNoticed(c)
  {
    forall tc, ts, now: real | Ordered(tc, ts) && IsStale(After(c, Fresh(c, tc), ts), now)
      ensures Unnoticed(c, After(c, Fresh(c, tc), ts), now)
    {
      DeletionUnnoticedIff(c, After(c, Fresh(c, tc), ts), now);
      if c.burst >= 1 {
        StaysNonNegative(c, tc, ts);
      }
    }
  }

  lemma SlowIsNoticed(c: Config, now: real)
    requires Additive(c) && NeverLoses(c) && c.burst >= 1 && now > STALE_THRESHOLD && c.earn(0.0, now) < Full(c)
    ensures !NeverNoticed(c)
  {
    var ts := seq(c.burst, _ => 0.0);
    SpentAtOnce(c, 0.0, ts);
    var b := After(c, Fresh(c, 0.0), ts);
    DeletionUnnoticedIff(c, b, now);
    assert Ordered(0.0, ts) && IsStale(b, now) && !Unnoticed(c, b, now);
  }

  /** Eviction of idle buckets can never be noticed exactly when five minutes refill an empty
      bucket, or the burst is too small to ever grant. */
  lemma EvictionUnnoticedIff(rate: real, burst: int)
    requires rate >= 0.0
    ensures NeverNoticed(AtRate(rate, burst)) <==> rate * 300.0 >= burst as real || burst < 1
  {
    RateIsAdditive(rate, burst);
    if burst < 1 {
      RecoveringIsUnnoticed(AtRate(rate, burst));
    } else if rate * STALE_THRESHOLD >= burst as real {
      RateRecovers(rate, burst);
      RecoveringIsUnnoticed(AtRate(rate, burst));
    } else {
      var now := TooEarly(rate, burst);
      SlowIsNoticed(AtRate(rate, burst), now);
    }
  }

  // ---------------------------------------------------------------- what a cleanup leaves

  /** The buckets of a limiter after these events. */
  function BucketsAfter(c: Config, evs: seq<Event>): Buckets
    decreases |evs|
  {
    if evs == [] then map[] else Step(c, BucketsAfter(c, evs[..|evs| - 1]), evs[|evs| - 1])
  }

  /** When p last called. */
  function LastCall(evs: seq<Event>, p: string): Option<real>
    decreases |evs|
  {
    if evs == [] then None
    else if evs[|evs| - 1].Call? && evs[|evs| - 1].principal == p then Some(evs[|evs| - 1].now)
    else LastCall(evs[..|evs| - 1], p)
  }

  ghost predicate InOrder(evs: seq<Event>) { forall i, j :: 0 <= i < j < |evs| ==> evs[i].now <= evs[j].now }

  /** A bucket was last checked at its principal's last call; one that is gone was idle too long. */
  lemma {:induction false} BucketsAreRecent(c: Config, evs: seq<Event>, p: string)
    requires InOrder(evs)
    ensures p in BucketsAfter(c, evs) ==> LastCall(evs, p) == Some(BucketsAfter(c, evs)[p].lastCheck)
    ensures p !in BucketsAfter(c, evs) && LastCall(evs, p).Some? ==> evs[|evs| - 1].now - LastCall(evs, p).value > 300.0
    decreases |evs|
  {
    if evs != [] {
      BucketsAreRecent(c, evs[..|evs| - 1], p);
    }
  }

  /** With monotone time, right after a cleanup the limiter holds a bucket for exactly the principals
      that called within the last 300 seconds. */
  lemma CleanupKeepsExactlyRecent(c: Config, evs: seq<Event>, now: real, p: string)
    requires InOrder(evs + [Cleanup(now)])
    ensures p in BucketsAfter(c, evs + [Cleanup(now)]) <==>
      LastCall(evs, p).Some? && now - LastCall(evs, p).value <= 300.0
  {
    var all := evs + [Cleanup(now)];
    assert all[..|all| - 1] == evs && all[|evs|].now == now && forall i :: 0 <= i < |evs| ==> all[i] == evs[i];
    BucketsAreRecent(c, evs, p);
  }

  // ---------------------------------------------------------------- the limiter

  class Limiter {
    const rate: real
    const burst: int
    var buckets: Buckets

    ghost function Cfg(): Config { AtRate(rate, burst) }

    constructor (rate: real, burst: int)
      ensures this.rate == rate && this.burst == burst && buckets == map[]
    {
      this.rate, this.burst, buckets := rate, burst, map[];
    }

    method Allow(principal: string, now: real) returns (ok: bool)
      modifies this
      ensures ok == Grants(Cfg(), BucketFor(Cfg(), old(buckets), principal, now), now)
      ensures buckets == Step(Cfg(), old(buckets), Call(principal, now))
    {
      if principal !in buckets {
        buckets := buckets[principal := Bucket(burst as real, now)];
      }
      var b;
      b, ok := RefillAndSpend(buckets[principal], now);
      buckets := buckets[principal := b];
    }

    /** The locked section of Allow. */
    method RefillAndSpend(b: Bucket, now: real) returns (b': Bucket, ok: bool)
      ensures ok == Grants(Cfg(), b, now) && b' == Spend(Cfg(), b, now)
    {
      var tokens := b.tokens + Earned(rate, b.lastCheck, now);
      if tokens > burst as real {
        tokens := burst as real;
      }
      ok := !(tokens < 1.0);
      if ok {
        tokens := tokens - 1.0;
      }
      b' := Bucket(tokens, now);
    }

    method Cleanup(now: real)
      modifies this
      ensures buckets == Step(Cfg(), old(buckets), Event.Cleanup(now))
    {
      var todo := buckets.Keys;
      while todo != {}
        invariant todo <= old(buckets).Keys
        invariant buckets.Keys <= old(buckets).Keys
        invariant forall p :: p in buckets ==> buckets[p] == old(buckets)[p]
        invariant forall p :: p in todo ==> p in buckets
        invariant forall p :: p in old(buckets) && p !in todo ==> (p in buckets <==> !IsStale(old(buckets)[p], now))
        decreases todo
      {
        var p :| p in todo;
        if now - buckets[p].lastCheck > STALE_THRESHOLD {
          buckets := buckets - {p};
        }
        todo := todo - {p};
      }
    }
  }
}
