/**
  Cleanup racing with Allow.  Buckets have an identity: the map holds references to them.  Allow
  looks its bucket up in one step and spends in another; cleanup reads in one step that a bucket
  is stale and compares and deletes in another.  Other steps may come in between.
 */
module LimiterRace {
  import opened Wrappers
  import opened TokenBucket

  type Ref = nat
  type Tid = nat

  /** An Allow between its lookup and its locked section; `now` was read before the lookup. */
  datatype Pending = Pending(ref: Ref, now: real)

  datatype State = State(
    table: map<string, Ref>,
    heap: map<Ref, Bucket>,
    calls: map<Tid, Pending>,
    condemned: Option<(string, Ref)>)   // what cleanup found stale and is about to delete

  const Init := State(map[], map[], map[], None)

  datatype Move =
    | Load(t: Tid, p: string, now: real, spare: Ref)   // Load, then LoadOrStore with a spare bucket
    | Take(t: Tid)
    | ReadStale(p: string, now: real)
    | CompareAndDelete

  predicate Enabled(s: State, l: Move) {
    match l
    case Load(t, _, _, spare) => t !in s.calls && spare !in s.heap
    case Take(t) => t in s.calls && s.calls[t].ref in s.heap
    case ReadStale(p, now) => s.condemned.None? && p in s.table && s.table[p] in s.heap && IsStale(s.heap[s.table[p]], now)
    case CompareAndDelete => s.condemned.Some?
  }

  function Next(c: Config, s: State, l: Move): State
    requires Enabled(s, l)
  {
    match l
    case Load(t, p, now, spare) =>
      if p in s.table then s.(calls := s.calls[t := Pending(s.table[p], now)])
      else
        s.(table := s.table[p := spare], heap := s.heap[spare := Fresh(c, now)],
           calls := s.calls[t := Pending(spare, now)])
    case Take(t) =>
      var ref, now := s.calls[t].ref, s.calls[t].now;
      s.(heap := s.heap[ref := Spend(c, s.heap[ref], now)], calls := s.calls - {t})
    case ReadStale(p, _) => s.(condemned := Some((p, s.table[p])))
    case CompareAndDelete =>
      var (p, ref) := s.condemned.value;
      s.(table := if p in s.table && s.table[p] == ref then s.table - {p} else s.table, condemned := None)
  }

  function Exec(c: Config, s: State, ls: seq<Move>): Option<State>
    decreases |ls|
  {
    if ls == [] then Some(s)
    else
      match Exec(c, s, ls[..|ls| - 1])
      case None => None
      case Some(m) => if Enabled(m, ls[|ls| - 1]) then Some(Next(c, m, ls[|ls| - 1])) else None
  }

  lemma RunSnoc(c: Config, s: State, ls: seq<Move>, l: Move)
    requires Exec(c, s, ls).Some? && Enabled(Exec(c, s, ls).value, l)
    ensures Exec(c, s, ls + [l]) == Some(Next(c, Exec(c, s, ls).value, l))
  {
    assert (ls + [l])[..|ls + [l]| - 1] == ls;
  }

  lemma {:induction false} ExecAppend(c: Config, s: State, a: seq<Move>, b: seq<Move>)
    requires Exec(c, s, a).Some?
    ensures Exec(c, s, a + b) == Exec(c, Exec(c, s, a).value, b)
    decreases |b|
  {
    if b == [] {
      assert a + b == a;
    } else {
      assert (a + b)[..|a + b| - 1] == a + b[..|b| - 1];
      ExecAppend(c, s, a, b[..|b| - 1]);
    }
  }

  /** The answers of the calls of a run, in lock order. */
  function Replies(c: Config, s: State, ls: seq<Move>): seq<bool>
    decreases |ls|
  {
    if ls == [] then []
    else
      var p, l := ls[..|ls| - 1], ls[|ls| - 1];
      Replies(c, s, p) +
      (match Exec(c, s, p)
       case Some(m) =>
         if l.Take? && Enabled(m, l) then [Grants(c, m.heap[m.calls[l.t].ref], m.calls[l.t].now)] else []
       case None => [])
  }

  // ---------------------------------------------------------------- the comparison protects nothing

  /** What is condemned is still what the map holds. */
  ghost predicate StillThere(s: State) {
    s.condemned.Some? ==> s.condemned.value.0 in s.table && s.table[s.condemned.value.0] == s.condemned.value.1
  }

  lemma {:induction false} CondemnedIsStillThere(c: Config, ls: seq<Move>)
    requires Exec(c, Init, ls).Some?
    ensures StillThere(Exec(c, Init, ls).value)
    decreases |ls|
  {
    if ls != [] {
      CondemnedIsStillThere(c, ls[..|ls| - 1]);
    }
  }

  /** In every run the comparison succeeds and the condemned principal loses its bucket, however
      many calls have refreshed it since it was read: a refresh does not change the reference. */
  lemma {:induction false} DeleteNeverSpares(c: Config, ls: seq<Move>)
    requires Exec(c, Init, ls).Some? && Exec(c, Init, ls).value.condemned.Some?
    ensures var s := Exec(c, Init, ls).value;
      Next(c, s, CompareAndDelete).table == s.table - {s.condemned.value.0} && s.condemned.value.0 in s.table
  {
    CondemnedIsStillThere(c, ls);
  }

  /** Every principal has its own bucket, and nobody holds a reference to nothing. */
  ghost predicate OwnBuckets(s: State) {
    && (forall p :: p in s.table ==> s.table[p] in s.heap)
    && (forall p, q :: p in s.table && q in s.table && s.table[p] == s.table[q] ==> p == q)
    && (forall t :: t in s.calls ==> s.calls[t].ref in s.heap)
  }

  lemma BucketsStayOwn(c: Config, s: State, l: Move)
    requires OwnBuckets(s) && Enabled(s, l)
    ensures OwnBuckets(Next(c, s, l))
  {
  }

  lemma {:induction false} BucketsAreOwn(c: Config, ls: seq<Move>)
    requires Exec(c, Init, ls).Some?
    ensures OwnBuckets(Exec(c, Init, ls).value)
    decreases |ls|
  {
    if ls != [] {
      BucketsAreOwn(c, ls[..|ls| - 1]);
      BucketsStayOwn(c, Exec(c, Init, ls[..|ls| - 1]).value, ls[|ls| - 1]);
    }
  }

  // ---------------------------------------------------------------- what the delete forgets

  /** Calls only: what can come between cleanup's read and its delete. */
  ghost predicate OnlyCalls(ls: seq<Move>) { forall i :: 0 <= i < |ls| ==> ls[i].Load? || ls[i].Take? }

  /** The times of the calls that spent from bucket `ref`, in lock order. */
  function TakesFrom(c: Config, s: State, ls: seq<Move>, ref: Ref): seq<real>
    decreases |ls|
  {
    if ls == [] then []
    else
      var p, l := ls[..|ls| - 1], ls[|ls| - 1];
      TakesFrom(c, s, p, ref) +
      (match Exec(c, s, p)
       case Some(m) => if l.Take? && l.t in m.calls && m.calls[l.t].ref == ref then [m.calls[l.t].now] else []
       case None => [])
  }

  lemma AfterSnoc(c: Config, b: Bucket, ts: seq<real>, t: real)
    ensures After(c, b, ts + [t]) == Spend(c, After(c, b, ts), t)
  {
    assert (ts + [t])[..|ts|] == ts;
  }

  lemma {:induction false} BucketIsSpentFrom(c: Config, s: State, ls: seq<Move>, ref: Ref)
    requires Exec(c, s, ls).Some? && OnlyCalls(ls) && ref in s.heap
    ensures var t := Exec(c, s, ls).value;
      t.condemned == s.condemned && ref in t.heap && t.heap[ref] == After(c, s.heap[ref], TakesFrom(c, s, ls, ref))
    decreases |ls|
  {
    if ls != [] {
      var p, l := ls[..|ls| - 1], ls[|ls| - 1];
      BucketIsSpentFrom(c, s, p, ref);
      var m := Exec(c, s, p).value;
      if l.Take? && m.calls[l.t].ref == ref {
        AfterSnoc(c, s.heap[ref], TakesFrom(c, s, p, ref), m.calls[l.t].now);
      } else {
        assert TakesFrom(c, s, p, ref) + [] == TakesFrom(c, s, p, ref);
      }
    }
  }

  /** From its first call on, a bucket that was full then is like one created full then. */
  lemma {:induction false} LikeFresh(c: Config, b: Bucket, ts: seq<real>)
    requires Additive(c) && ts != [] && Refill(c, b, ts[0]) == Full(c)
    ensures After(c, b, ts) == After(c, Fresh(c, ts[0]), ts)
    ensures forall i: nat :: i <= |ts| ==> Allowed(c, b, ts, i) == Allowed(c, Fresh(c, ts[0]), ts, i)
    decreases |ts|
  {
    FreshIsFull(c, ts[0]);
    var p := ts[..|ts| - 1];
    if p != [] {
      LikeFresh(c, b, p);
    } else {
      assert ts == [ts[0]];
    }
  }

  /** Every call since the i-th has been earned back by `d`, for every i. */
  ghost predicate EarnedBack(c: Config, b: Bucket, ts: seq<real>, d: real) {
    forall i: nat :: i < |ts| ==> Allowed(c, b, ts, i) as real <= c.earn(ts[i], d)
  }

  /** A bucket read as stale and spent from at the times `ts` since is full at `d` exactly when
      those calls have been earned back by then. */
  lemma FullIffEarnedBack(c: Config, b: Bucket, read: real, ts: seq<real>, d: real)
    requires Additive(c) && NeverLoses(c) && RecoversWhenStale(c) && b.tokens >= 0.0 && IsStale(b, read)
    requires Ordered(read, ts + [d])
    ensures Refill(c, After(c, b, ts), d) == Full(c) <==> EarnedBack(c, b, ts, d)
  {
    if ts == [] {
      assert (ts + [d])[0] == d;
    } else {
      assert (ts + [d])[0] == ts[0];
      var f := Fresh(c, ts[0]);
      LikeFresh(c, b, ts);
      TokensAreLeastEnvelope(c, ts[0], ts, d);
      assert CreationEnvelope(c, f, ts, d) == Envelope(c, f, ts, d, 0);
      assert forall i: nat :: i < |ts| ==>
        Envelope(c, f, ts, d, i) == Full(c) + c.earn(ts[i], d) - Allowed(c, b, ts, i) as real;
      if Refill(c, After(c, b, ts), d) == Full(c) {
        forall i: nat | i < |ts| ensures Allowed(c, b, ts, i) as real <= c.earn(ts[i], d) {
          assert Full(c) <= Envelope(c, f, ts, d, i);
        }
      }
    }
  }

  /** It can happen: one second past the threshold after a principal's first call. */
  lemma ClobberingIsReachable(c: Config, p: string) returns (ls: seq<Move>)
    requires Additive(c) && NeverLoses(c) && Full(c) >= 1.0
    ensures Exec(c, Init, ls).Some?
    ensures var s := Exec(c, Init, ls).value;
      && Enabled(s, ReadStale(p, STALE_THRESHOLD + 1.0)) && s.heap[s.table[p]].tokens >= 0.0
      && OwnBuckets(s) && s.calls == map[] && 1 !in s.heap
  {
    ls := [] + [Load(0, p, 0.0, 0)] + [Take(0)];
    RunSnoc(c, Init, [], Load(0, p, 0.0, 0));
    RunSnoc(c, Init, [] + [Load(0, p, 0.0, 0)], Take(0));
    FreshIsFull(c, 0.0);
  }
}
