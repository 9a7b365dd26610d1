/**
  Exactly when cleanup's delete can be noticed.  The run that deletes is compared, call by call,
  with the same run without the delete.
 */
module LimiterRaceTheorems {
  import opened Wrappers
  import opened TokenBucket
  import opened LimiterRace

  // ---------------------------------------------------------------- what noticing means

  /** The times at which calls are looked up, in order. */
  function LoadTimes(ls: seq<Move>): seq<real>
    decreases |ls|
  {
    if ls == [] then []
    else LoadTimes(ls[..|ls| - 1]) + if ls[|ls| - 1].Load? then [ls[|ls| - 1].now] else []
  }

  /** Calls that follow a delete at `d` under a clock that never goes back: lookups from `d` on, and
      calls on the bucket in question not before `from`, each in order. */
  ghost predicate Follows(c: Config, s: State, ls: seq<Move>, ref: Ref, from: real, d: real) {
    OnlyCalls(ls) && Ordered(d, LoadTimes(ls)) && Ordered(from, TakesFrom(c, s, ls, ref))
  }

  /** No calls that can follow get other answers after the delete than without it. */
  ghost predicate SameAnswers(c: Config, s: State, ref: Ref, from: real, d: real)
    requires s.condemned.Some?
  {
    var s' := Next(c, s, CompareAndDelete);
    forall ls :: Follows(c, s, ls, ref, from, d) && Exec(c, s, ls).Some? && Exec(c, s', ls).Some? ==>
      Replies(c, s, ls) == Replies(c, s', ls)
  }

  // ---------------------------------------------------------------- the calls that hold the old bucket

  type Held = map<Tid, real>

  /** The calls between their lookup and their locked section on bucket `ref`, with their times. */
  function HeldOn(s: State, ref: Ref): Held { map t | t in s.calls && s.calls[t].ref == ref :: s.calls[t].now }

  /** These calls, one after another. */
  ghost predicate Turns(held: Held, us: seq<Tid>) {
    (forall i :: 0 <= i < |us| ==> us[i] in held) && forall i, j :: 0 <= i < j < |us| ==> us[i] != us[j]
  }

  function Times(held: Held, us: seq<Tid>): seq<real>
    requires forall i :: 0 <= i < |us| ==> us[i] in held
  {
    seq(|us|, i requires 0 <= i < |us| => held[us[i]])
  }

  /** Whichever of the calls that hold the bucket still spend from it, and in whatever order the
      clock allows, it is full at `d`. */
  ghost predicate Settled(c: Config, b: Bucket, held: Held, from: real, d: real) {
    forall us :: Turns(held, us) && Ordered(from, Times(held, us) + [d]) ==>
      Refill(c, After(c, b, Times(held, us)), d) == Full(c)
  }

  lemma SettledIsFull(c: Config, b: Bucket, held: Held, from: real, d: real)
    requires Settled(c, b, held, from, d) && from <= d
    ensures Refill(c, b, d) == Full(c)
  {
    assert Turns(held, []) && Times(held, []) == [] && [] + [d] == [d];
  }

  lemma {:induction false} AfterCons(c: Config, b: Bucket, t: real, ts: seq<real>)
    ensures After(c, b, [t] + ts) == After(c, Spend(c, b, t), ts)
    decreases |ts|
  {
    if ts == [] {
      AfterSnoc(c, b, [], t);
      assert [t] + ts == [] + [t];
    } else {
      AfterCons(c, b, t, ts[..|ts| - 1]);
      AfterSnoc(c, b, [t] + ts[..|ts| - 1], ts[|ts| - 1]);
      assert [t] + ts == ([t] + ts[..|ts| - 1]) + [ts[|ts| - 1]];
    }
  }

  lemma OrderedCons(from: real, x: real, ts: seq<real>)
    requires from <= x && Ordered(x, ts)
    ensures Ordered(from, [x] + ts)
  {
    var all := [x] + ts;
    forall i, j | 0 <= i < j < |all| ensures all[i] <= all[j] {
      if i > 0 {
        assert all[i] == ts[i - 1] && all[j] == ts[j - 1];
      } else {
        assert all[j] == ts[j - 1];
      }
    }
  }

  /** One of them takes its turn; the rest stay settled. */
  lemma SettledTakes(c: Config, b: Bucket, held: Held, t: Tid, from: real, d: real)
    requires Settled(c, b, held, from, d) && t in held && from <= held[t] <= d
    ensures Settled(c, Spend(c, b, held[t]), held - {t}, held[t], d)
  {
    var x, rest := held[t], held - {t};
    forall us | Turns(rest, us) && Ordered(x, Times(rest, us) + [d])
      ensures Refill(c, After(c, Spend(c, b, x), Times(rest, us)), d) == Full(c)
    {
      var all := [t] + us;
      assert Times(held, all) == [x] + Times(rest, us);
      assert Turns(held, all) by {
        assert forall i :: 0 < i < |all| ==> all[i] == us[i - 1];
      }
      OrderedCons(from, x, Times(rest, us) + [d]);
      assert [x] + (Times(rest, us) + [d]) == Times(held, all) + [d];
      AfterCons(c, b, x, Times(rest, us));
    }
  }

  lemma SettledSubset(c: Config, b: Bucket, held: Held, fewer: Held, from: real, d: real)
    requires Settled(c, b, held, from, d) && forall t :: t in fewer ==> t in held && held[t] == fewer[t]
    ensures Settled(c, b, fewer, from, d)
  {
    forall us | Turns(fewer, us) && Ordered(from, Times(fewer, us) + [d])
      ensures Refill(c, After(c, b, Times(fewer, us)), d) == Full(c)
    {
      assert Times(held, us) == Times(fewer, us);
      assert Turns(held, us);
    }
  }

  /** A call at the very time of the delete cannot be earned back. */
  lemma NoneAtTheDelete(c: Config, b: Bucket, held: Held, t: Tid, from: real, d: real)
    requires Additive(c) && NeverLoses(c) && Full(c) >= 1.0 && Settled(c, b, held, from, d) && from <= d && t in held
    ensures held[t] != d
  {
    if held[t] == d {
      SettledIsFull(c, b, held, from, d);
      SettledTakes(c, b, held, t, from, d);
      SettledIsFull(c, Spend(c, b, d), held - {t}, d, d);
      FreshIsFull(c, d);
    }
  }

  // ---------------------------------------------------------------- the two runs side by side

  /** How the two runs are related.  Without the delete the bucket of p is `ref`; with it there is
      none, or `anew.value`, created at `first`.  The calls in `early` hold the old bucket in both.
      `clock` is the time of the last lookup, `from` of the last call on the bucket of p. */
  datatype Link = Link(p: string, ref: Ref, anew: Option<Ref>, early: set<Tid>, first: real, clock: real, from: real, d: real)

  /** `u` is without the delete, `v` with it; they differ in the bucket of p only. */
  ghost predicate Beside(u: State, v: State, k: Link) {
    && OwnBuckets(u) && BesideTables(u, v, k) && BesideCalls(u, v, k)
  }

  ghost predicate BesideTables(u: State, v: State, k: Link) {
    && k.p in u.table && u.table[k.p] == k.ref && k.ref in u.heap && k.ref in v.heap
    && v.table == (if k.anew.None? then u.table - {k.p} else u.table[k.p := k.anew.value])
    && (forall r :: r in u.heap && r != k.ref ==> r in v.heap && v.heap[r] == u.heap[r])
    && (k.anew.Some? ==> k.anew.value !in u.heap && k.anew.value in v.heap && k.d <= k.first <= k.clock)
  }

  ghost predicate BesideCalls(u: State, v: State, k: Link) {
    && u.calls.Keys == v.calls.Keys && k.early <= u.calls.Keys && k.d <= k.clock
    && (forall t :: t in k.early ==> u.calls[t].ref == k.ref)
    && (forall t :: t in u.calls && (t in k.early || u.calls[t].ref != k.ref) ==> v.calls[t] == u.calls[t])
    && (forall t :: t in u.calls && t !in k.early && u.calls[t].ref == k.ref ==>
         k.anew.Some? && v.calls[t] == Pending(k.anew.value, u.calls[t].now) && k.first <= u.calls[t].now)
  }

  function Earlies(u: State, early: set<Tid>): Held
    requires early <= u.calls.Keys
  {
    map t | t in early :: u.calls[t].now
  }

  /** Before a new call has spent: both buckets of p are full from `d` on. */
  ghost predicate Untouched(c: Config, u: State, v: State, k: Link)
    requires Beside(u, v, k)
  {
    && k.from <= k.d && u.heap[k.ref] == v.heap[k.ref]
    && (k.anew.Some? ==> v.heap[k.anew.value] == Fresh(c, k.first))
    && (forall t :: t in k.early ==> u.calls[t].now <= k.d)
    && Settled(c, u.heap[k.ref], Earlies(u, k.early), k.from, k.d)
  }

  /** After that: the two buckets of p are the same, and no early call can come any more. */
  ghost predicate Caught(u: State, v: State, k: Link)
    requires Beside(u, v, k)
  {
    && k.anew.Some? && u.heap[k.ref] == v.heap[k.anew.value] && k.d <= k.from
    && forall t :: t in k.early ==> u.calls[t].now < k.from
  }

  ghost predicate Alike(c: Config, u: State, v: State, k: Link) {
    Beside(u, v, k) && (Untouched(c, u, v, k) || Caught(u, v, k))
  }

  // Lookups.

  /** A call joins on both sides, on the same bucket or on the two buckets of p. */
  lemma CallJoins(u: State, v: State, u': State, v': State, k: Link, k': Link, t: Tid, r: Ref, now: real)
    requires BesideCalls(u, v, k) && t !in u.calls && k.clock <= k'.clock && k'.d == k.d
    requires k' == k.(anew := k'.anew, first := k'.first, clock := k'.clock)
    requires (k'.anew == k.anew && k'.first == k.first) || k.anew.None?
    requires r == k.ref ==> k'.anew.Some? && k'.first <= now
    requires u'.calls == u.calls[t := Pending(r, now)]
    requires v'.calls == v.calls[t := Pending(if r == k.ref then k'.anew.value else r, now)]
    ensures BesideCalls(u', v', k')
  {
  }

  /** A step that leaves the buckets of p and the early calls alone keeps the phase. */
  lemma PhaseStays(c: Config, u: State, v: State, u': State, v': State, k: Link, k': Link)
    requires Alike(c, u, v, k) && Beside(u', v', k')
    requires k'.early == k.early && k'.from == k.from && k'.d == k.d && k'.ref == k.ref
    requires u'.heap[k.ref] == u.heap[k.ref] && v'.heap[k.ref] == v.heap[k.ref]
    requires if k.anew.Some? then k'.anew == k.anew && k'.first == k.first && v'.heap[k.anew.value] == v.heap[k.anew.value]
             else k'.anew.Some? ==> v'.heap[k'.anew.value] == Fresh(c, k'.first)
    requires forall t :: t in k.early ==> u'.calls[t] == u.calls[t]
    ensures Alike(c, u', v', k')
  {
    assert Earlies(u', k.early) == Earlies(u, k.early);
  }

  lemma LoadKnown(c: Config, u: State, v: State, k: Link, l: Move)
    requires Alike(c, u, v, k) && Enabled(u, l) && Enabled(v, l)
    requires l.Load? && l.p != k.p && l.p in u.table && k.clock <= l.now
    ensures Alike(c, Next(c, u, l), Next(c, v, l), k.(clock := l.now))
  {
    var u', v', k' := Next(c, u, l), Next(c, v, l), k.(clock := l.now);
    BucketsStayOwn(c, u, l);
    CallJoins(u, v, u', v', k, k', l.t, u.table[l.p], l.now);
    assert BesideTables(u', v', k');
    PhaseStays(c, u, v, u', v', k, k');
  }

  lemma TablesJoin(u: State, v: State, u': State, v': State, k: Link, q: string, r: Ref, b: Bucket)
    requires BesideTables(u, v, k) && q !in u.table && q != k.p && r !in u.heap && r !in v.heap
    requires u'.table == u.table[q := r] && v'.table == v.table[q := r]
    requires u'.heap == u.heap[r := b] && v'.heap == v.heap[r := b]
    ensures BesideTables(u', v', k)
  {
    assert v'.table == (if k.anew.None? then u'.table - {k.p} else u'.table[k.p := k.anew.value]);
  }

  lemma LoadUnknown(c: Config, u: State, v: State, k: Link, l: Move)
    requires Alike(c, u, v, k) && Enabled(u, l) && Enabled(v, l)
    requires l.Load? && l.p != k.p && l.p !in u.table && k.clock <= l.now
    ensures Alike(c, Next(c, u, l), Next(c, v, l), k.(clock := l.now))
  {
    var u', v', k' := Next(c, u, l), Next(c, v, l), k.(clock := l.now);
    BucketsStayOwn(c, u, l);
    CallJoins(u, v, u', v', k, k', l.t, l.spare, l.now);
    TablesJoin(u, v, u', v', k, l.p, l.spare, Fresh(c, l.now));
    assert BesideTables(u', v', k');
    PhaseStays(c, u, v, u', v', k, k');
  }

  lemma LoadAgain(c: Config, u: State, v: State, k: Link, l: Move)
    requires Alike(c, u, v, k) && k.anew.Some?
    requires l.Load? && l.p == k.p && Enabled(u, l) && Enabled(v, l) && k.clock <= l.now
    ensures Alike(c, Next(c, u, l), Next(c, v, l), k.(clock := l.now))
  {
    var u', v', k' := Next(c, u, l), Next(c, v, l), k.(clock := l.now);
    BucketsStayOwn(c, u, l);
    CallJoins(u, v, u', v', k, k', l.t, k.ref, l.now);
    assert BesideTables(u', v', k');
    PhaseStays(c, u, v, u', v', k, k');
  }

  lemma LoadFirst(c: Config, u: State, v: State, k: Link, l: Move)
    requires Alike(c, u, v, k) && k.anew.None?
    requires l.Load? && l.p == k.p && Enabled(u, l) && Enabled(v, l) && k.clock <= l.now
    ensures Alike(c, Next(c, u, l), Next(c, v, l), k.(anew := Some(l.spare), first := l.now, clock := l.now))
  {
    var u', v', k' := Next(c, u, l), Next(c, v, l), k.(anew := Some(l.spare), first := l.now, clock := l.now);
    BucketsStayOwn(c, u, l);
    CallJoins(u, v, u', v', k, k', l.t, k.ref, l.now);
    assert v'.table == u'.table[k.p := l.spare];
    assert BesideTables(u', v', k');
    PhaseStays(c, u, v, u', v', k, k');
  }

  // Locked sections.

  predicate SameReply(c: Config, u: State, v: State, t: Tid)
    requires Enabled(u, Take(t)) && Enabled(v, Take(t))
  {
    Grants(c, u.heap[u.calls[t].ref], u.calls[t].now) == Grants(c, v.heap[v.calls[t].ref], v.calls[t].now)
  }

  lemma TakeOther(c: Config, u: State, v: State, k: Link, t: Tid)
    requires Alike(c, u, v, k) && Enabled(u, Take(t)) && Enabled(v, Take(t)) && u.calls[t].ref != k.ref
    ensures SameReply(c, u, v, t) && Alike(c, Next(c, u, Take(t)), Next(c, v, Take(t)), k)
  {
    var u', v' := Next(c, u, Take(t)), Next(c, v, Take(t));
    BucketsStayOwn(c, u, Take(t));
    assert Beside(u', v', k);
    assert Earlies(u', k.early) == Earlies(u, k.early);
  }

  lemma TakeEarly(c: Config, u: State, v: State, k: Link, t: Tid)
    requires Alike(c, u, v, k) && Enabled(u, Take(t)) && Enabled(v, Take(t)) && t in k.early && k.from <= u.calls[t].now
    ensures SameReply(c, u, v, t)
    ensures Alike(c, Next(c, u, Take(t)), Next(c, v, Take(t)), k.(early := k.early - {t}, from := u.calls[t].now))
  {
    var u', v', k' := Next(c, u, Take(t)), Next(c, v, Take(t)), k.(early := k.early - {t}, from := u.calls[t].now);
    BucketsStayOwn(c, u, Take(t));
    assert Beside(u', v', k');
    SettledTakes(c, u.heap[k.ref], Earlies(u, k.early), t, k.from, k.d);
    assert Earlies(u', k'.early) == Earlies(u, k.early) - {t};
  }

  lemma TakeFirst(c: Config, u: State, v: State, k: Link, t: Tid)
    requires Additive(c) && NeverLoses(c) && Full(c) >= 1.0
    requires Beside(u, v, k) && Untouched(c, u, v, k)
    requires Enabled(u, Take(t)) && Enabled(v, Take(t)) && t !in k.early && u.calls[t].ref == k.ref
    ensures SameReply(c, u, v, t)
    ensures Alike(c, Next(c, u, Take(t)), Next(c, v, Take(t)), k.(from := u.calls[t].now))
  {
    var x := u.calls[t].now;
    var u', v', k' := Next(c, u, Take(t)), Next(c, v, Take(t)), k.(from := x);
    SettledIsFull(c, u.heap[k.ref], Earlies(u, k.early), k.from, k.d);
    StaysFull(c, u.heap[k.ref], k.d, x);
    FreshIsFull(c, k.first);
    StaysFull(c, Fresh(c, k.first), k.first, x);
    forall e | e in k.early ensures u.calls[e].now < x {
      NoneAtTheDelete(c, u.heap[k.ref], Earlies(u, k.early), e, k.from, k.d);
    }
    BucketsStayOwn(c, u, Take(t));
    assert Beside(u', v', k');
    assert Caught(u', v', k');
  }

  lemma TakeLater(c: Config, u: State, v: State, k: Link, t: Tid)
    requires Beside(u, v, k) && Caught(u, v, k) && Enabled(u, Take(t)) && Enabled(v, Take(t))
    requires t !in k.early && u.calls[t].ref == k.ref && k.from <= u.calls[t].now
    ensures SameReply(c, u, v, t)
    ensures Alike(c, Next(c, u, Take(t)), Next(c, v, Take(t)), k.(from := u.calls[t].now))
  {
    var u', v', k' := Next(c, u, Take(t)), Next(c, v, Take(t)), k.(from := u.calls[t].now);
    BucketsStayOwn(c, u, Take(t));
    assert Beside(u', v', k');
    assert Caught(u', v', k');
  }

  /** One move of calls keeps the two runs alike and their answers the same. */
  lemma AlikeStep(c: Config, u: State, v: State, k: Link, l: Move) returns (k': Link)
    requires Additive(c) && NeverLoses(c) && Full(c) >= 1.0
    requires Alike(c, u, v, k) && (l.Load? || l.Take?) && Enabled(u, l) && Enabled(v, l)
    requires l.Load? ==> k.clock <= l.now
    requires l.Take? && u.calls[l.t].ref == k.ref ==> k.from <= u.calls[l.t].now
    ensures Alike(c, Next(c, u, l), Next(c, v, l), k')
    ensures k'.p == k.p && k'.ref == k.ref && k'.d == k.d
    ensures k'.clock == (if l.Load? then l.now else k.clock)
    ensures k'.from == (if l.Take? && u.calls[l.t].ref == k.ref then u.calls[l.t].now else k.from)
    ensures l.Take? ==> SameReply(c, u, v, l.t)
  {
    match l
    case Load(_, q, now, spare) =>
      k' := k.(clock := now);
      if q == k.p && k.anew.None? {
        LoadFirst(c, u, v, k, l);
        k' := k.(anew := Some(spare), first := now, clock := now);
      } else if q == k.p {
        LoadAgain(c, u, v, k, l);
      } else if q in u.table {
        LoadKnown(c, u, v, k, l);
      } else {
        LoadUnknown(c, u, v, k, l);
      }
    case Take(t) =>
      if u.calls[t].ref != k.ref {
        TakeOther(c, u, v, k, t);
        k' := k;
      } else if t in k.early {
        TakeEarly(c, u, v, k, t);
        k' := k.(early := k.early - {t}, from := u.calls[t].now);
      } else {
        if Untouched(c, u, v, k) {
          TakeFirst(c, u, v, k, t);
        } else {
          TakeLater(c, u, v, k, t);
        }
        k' := k.(from := u.calls[t].now);
      }
  }

  function LastOr(x: real, ts: seq<real>): real { if ts == [] then x else ts[|ts| - 1] }

  lemma OrderedSnoc(x: real, ts: seq<real>, t: real)
    requires Ordered(x, ts + [t])
    ensures Ordered(x, ts) && LastOr(x, ts) <= t
  {
    var all := ts + [t];
    assert forall i :: 0 <= i < |ts| ==> all[i] == ts[i];
    assert all[|ts|] == t;
  }

  lemma {:induction false} AlikeRun(c: Config, u: State, v: State, k: Link, ls: seq<Move>) returns (k': Link)
    requires Additive(c) && NeverLoses(c) && Full(c) >= 1.0 && Alike(c, u, v, k)
    requires Exec(c, u, ls).Some? && Exec(c, v, ls).Some? && OnlyCalls(ls)
    requires Ordered(k.clock, LoadTimes(ls)) && Ordered(k.from, TakesFrom(c, u, ls, k.ref))
    ensures Replies(c, u, ls) == Replies(c, v, ls)
    ensures Alike(c, Exec(c, u, ls).value, Exec(c, v, ls).value, k') && k'.p == k.p && k'.ref == k.ref && k'.d == k.d
    ensures k'.clock == LastOr(k.clock, LoadTimes(ls)) && k'.from == LastOr(k.from, TakesFrom(c, u, ls, k.ref))
    decreases |ls|
  {
    k' := k;
    if ls != [] {
      var p, l := ls[..|ls| - 1], ls[|ls| - 1];
      var loads, takes := LoadTimes(p), TakesFrom(c, u, p, k.ref);
      var m, n := Exec(c, u, p).value, Exec(c, v, p).value;
      if l.Load? {
        OrderedSnoc(k.clock, loads, l.now);
        assert takes + [] == takes;
      } else {
        assert loads + [] == loads;
        if m.calls[l.t].ref == k.ref {
          OrderedSnoc(k.from, takes, m.calls[l.t].now);
        } else {
          assert takes + [] == takes;
        }
      }
      var k1 := AlikeRun(c, u, v, k, p);
      k' := AlikeStep(c, m, n, k1, l);
    }
  }

  /** A delete at `d` of the bucket of p, with no call later than that under way on it. */
  ghost predicate Deletes(s: State, p: string, ref: Ref, from: real, d: real) {
    && OwnBuckets(s) && s.condemned == Some((p, ref)) && p in s.table && s.table[p] == ref
    && from <= d && forall t :: t in s.calls && s.calls[t].ref == ref ==> s.calls[t].now <= d
  }

  lemma SettledIsUnnoticed(c: Config, s: State, p: string, ref: Ref, from: real, d: real)
    requires Additive(c) && NeverLoses(c) && Full(c) >= 1.0 && Deletes(s, p, ref, from, d)
    requires Settled(c, s.heap[ref], HeldOn(s, ref), from, d)
    ensures SameAnswers(c, s, ref, from, d)
  {
    var s' := Next(c, s, CompareAndDelete);
    var k := Link(p, ref, None, HeldOn(s, ref).Keys, d, d, from, d);
    assert Earlies(s, k.early) == HeldOn(s, ref);
    assert Beside(s, s', k);
    forall ls | Follows(c, s, ls, ref, from, d) && Exec(c, s, ls).Some? && Exec(c, s', ls).Some?
      ensures Replies(c, s, ls) == Replies(c, s', ls)
    {
      var _ := AlikeRun(c, s, s', k, ls);
    }
  }

  // ---------------------------------------------------------------- calls that tell the two apart

  lemma {:induction false} RepliesAppend(c: Config, s: State, a: seq<Move>, b: seq<Move>)
    requires Exec(c, s, a).Some?
    ensures Replies(c, s, a + b) == Replies(c, s, a) + Replies(c, Exec(c, s, a).value, b)
    decreases |b|
  {
    if b == [] {
      assert a + b == a;
    } else {
      var b' := b[..|b| - 1];
      assert (a + b)[..|a + b| - 1] == a + b';
      RepliesAppend(c, s, a, b');
      ExecAppend(c, s, a, b');
    }
  }

  lemma {:induction false} TakesAppend(c: Config, s: State, a: seq<Move>, b: seq<Move>, ref: Ref)
    requires Exec(c, s, a).Some?
    ensures TakesFrom(c, s, a + b, ref) == TakesFrom(c, s, a, ref) + TakesFrom(c, Exec(c, s, a).value, b, ref)
    decreases |b|
  {
    if b == [] {
      assert a + b == a;
    } else {
      var b' := b[..|b| - 1];
      assert (a + b)[..|a + b| - 1] == a + b';
      TakesAppend(c, s, a, b', ref);
      ExecAppend(c, s, a, b');
    }
  }

  lemma {:induction false} LoadsAppend(a: seq<Move>, b: seq<Move>)
    ensures LoadTimes(a + b) == LoadTimes(a) + LoadTimes(b)
    decreases |b|
  {
    if b == [] {
      assert a + b == a;
    } else {
      assert (a + b)[..|a + b| - 1] == a + b[..|b| - 1];
      LoadsAppend(a, b[..|b| - 1]);
    }
  }

  /** What a run comes to: where it ends, its answers, its calls on `ref` and its lookups. */
  datatype Trip = Trip(end: State, replies: seq<bool>, takes: seq<real>, loads: seq<real>)

  ghost predicate Goes(c: Config, s: State, ls: seq<Move>, ref: Ref, r: Trip) {
    && Exec(c, s, ls) == Some(r.end) && Replies(c, s, ls) == r.replies
    && TakesFrom(c, s, ls, ref) == r.takes && LoadTimes(ls) == r.loads
  }

  lemma GoesNowhere(c: Config, s: State, ref: Ref)
    ensures Goes(c, s, [], ref, Trip(s, [], [], []))
  {
  }

  function Joined(x: Trip, y: Trip): Trip { Trip(y.end, x.replies + y.replies, x.takes + y.takes, x.loads + y.loads) }

  lemma GoesOn(c: Config, s: State, a: seq<Move>, b: seq<Move>, all: seq<Move>, ref: Ref, x: Trip, y: Trip)
    requires Goes(c, s, a, ref, x) && Goes(c, x.end, b, ref, y) && all == a + b
    ensures Goes(c, s, all, ref, Joined(x, y))
  {
    ExecAppend(c, s, a, b);
    RepliesAppend(c, s, a, b);
    TakesAppend(c, s, a, b, ref);
    LoadsAppend(a, b);
  }

  /** One move. */
  function Moved(c: Config, s: State, l: Move, ref: Ref): Trip
    requires Enabled(s, l)
  {
    Trip(Next(c, s, l),
         if l.Take? then [Grants(c, s.heap[s.calls[l.t].ref], s.calls[l.t].now)] else [],
         if l.Take? && s.calls[l.t].ref == ref then [s.calls[l.t].now] else [],
         if l.Load? then [l.now] else [])
  }

  lemma GoesOne(c: Config, s: State, l: Move, ref: Ref)
    requires Enabled(s, l)
    ensures Goes(c, s, [l], ref, Moved(c, s, l, ref))
  {
    assert [l][..|[l]| - 1] == [];
  }

  /** The locked sections of these calls, one after another. */
  function Taking(us: seq<Tid>): seq<Move> { seq(|us|, i requires 0 <= i < |us| => Take(us[i])) }

  /** `t` is `s` after the calls `us` have had their turn on `ref`. */
  ghost predicate TookTurns(c: Config, s: State, t: State, ref: Ref, us: seq<Tid>)
    requires ref in s.heap && Turns(HeldOn(s, ref), us)
  {
    && t.table == s.table && t.condemned == s.condemned
    && t.heap == s.heap[ref := After(c, s.heap[ref], Times(HeldOn(s, ref), us))]
    && (forall x :: x in t.calls <==> x in s.calls && x !in us) && (forall x :: x in t.calls ==> t.calls[x] == s.calls[x])
  }

  lemma TurnTaken(c: Config, s: State, t: State, ref: Ref, us: seq<Tid>, all: seq<Tid>, u: Tid)
    requires ref in s.heap && Turns(HeldOn(s, ref), all) && Turns(HeldOn(s, ref), us) && all == us + [u]
    requires TookTurns(c, s, t, ref, us) && u in HeldOn(s, ref)
    ensures Enabled(t, Take(u)) && t.calls[u] == Pending(ref, HeldOn(s, ref)[u])
    ensures TookTurns(c, s, Next(c, t, Take(u)), ref, all)
    ensures Times(HeldOn(s, ref), all) == Times(HeldOn(s, ref), us) + [HeldOn(s, ref)[u]]
  {
    var held := HeldOn(s, ref);
    assert all[|us|] == u && forall i :: 0 <= i < |us| ==> all[i] == us[i];
    assert Times(held, all) == Times(held, us) + [held[u]];
    AfterSnoc(c, s.heap[ref], Times(held, us), held[u]);
  }

  /** What the turns of these calls come to. */
  ghost predicate TakesTurns(c: Config, s: State, ref: Ref, us: seq<Tid>, r: Trip)
    requires ref in s.heap && Turns(HeldOn(s, ref), us)
  {
    TookTurns(c, s, r.end, ref, us) && |r.replies| == |us| && r.takes == Times(HeldOn(s, ref), us) && r.loads == []
  }

  lemma {:induction false} TakingRuns(c: Config, s: State, ref: Ref, us: seq<Tid>) returns (r: Trip)
    requires ref in s.heap && Turns(HeldOn(s, ref), us)
    ensures Goes(c, s, Taking(us), ref, r) && TakesTurns(c, s, ref, us, r)
    decreases |us|
  {
    if us == [] {
      r := TakingNone(c, s, Taking(us), ref, us);
    } else {
      OneTurnLess(HeldOn(s, ref), us);
      var x := TakingRuns(c, s, ref, us[..|us| - 1]);
      r := TakingOne(c, s, Taking(us[..|us| - 1]), Taking(us), ref, us, x);
    }
  }

  lemma OneTurnLess(held: Held, us: seq<Tid>)
    requires us != [] && Turns(held, us)
    ensures Turns(held, us[..|us| - 1]) && us[|us| - 1] in held
    ensures Taking(us) == Taking(us[..|us| - 1]) + [Take(us[|us| - 1])]
  {
  }

  lemma TakingNone(c: Config, s: State, ls: seq<Move>, ref: Ref, us: seq<Tid>) returns (r: Trip)
    requires ref in s.heap && us == [] && ls == []
    ensures Goes(c, s, ls, ref, r) && TakesTurns(c, s, ref, us, r)
  {
    r := Trip(s, [], [], []);
    GoesNowhere(c, s, ref);
    assert s.heap == s.heap[ref := s.heap[ref]];
  }

  lemma TakingOne(c: Config, s: State, ls: seq<Move>, more: seq<Move>, ref: Ref, us: seq<Tid>, x: Trip) returns (r: Trip)
    requires us != [] && ref in s.heap && Turns(HeldOn(s, ref), us) && Turns(HeldOn(s, ref), us[..|us| - 1])
    requires us[|us| - 1] in HeldOn(s, ref)
    requires Goes(c, s, ls, ref, x) && TakesTurns(c, s, ref, us[..|us| - 1], x) && more == ls + [Take(us[|us| - 1])]
    ensures Goes(c, s, more, ref, r) && TakesTurns(c, s, ref, us, r)
  {
    var p, u := us[..|us| - 1], us[|us| - 1];
    TurnTaken(c, s, x.end, ref, p, us, u);
    r := TakeOnTop(c, s, ls, more, ref, x, u);
  }

  lemma TakeOnTop(c: Config, s: State, ls: seq<Move>, more: seq<Move>, ref: Ref, x: Trip, u: Tid) returns (r: Trip)
    requires Goes(c, s, ls, ref, x) && Enabled(x.end, Take(u)) && x.end.calls[u].ref == ref && more == ls + [Take(u)]
    ensures Goes(c, s, more, ref, r) && r.end == Next(c, x.end, Take(u))
    ensures |r.replies| == |x.replies| + 1 && r.takes == x.takes + [x.end.calls[u].now] && r.loads == x.loads
  {
    var y := Moved(c, x.end, Take(u), ref);
    GoesOne(c, x.end, Take(u), ref);
    GoesOn(c, s, ls, [Take(u)], more, ref, x, y);
    r := Joined(x, y);
  }

  function Same(d: real, n: nat): (r: seq<real>)
    ensures |r| == n && forall i :: 0 <= i < n ==> r[i] == d
  {
    seq(n, _ => d)
  }

  /** The bucket a call of p at `d` finds. */
  function Found(c: Config, s: State, p: string, d: real): Bucket {
    if p in s.table && s.table[p] in s.heap then s.heap[s.table[p]] else Fresh(c, d)
  }

  /** A whole call of p at `d`. */
  function Whole(p: string, d: real, t: Tid, spare: Ref): seq<Move> { [Load(t, p, d, spare), Take(t)] }

  lemma WholeRuns(c: Config, s: State, p: string, d: real, t: nat, ref: Ref) returns (r: Trip)
    requires t !in s.calls && t !in s.heap && (p in s.table ==> s.table[p] in s.heap)
    ensures Goes(c, s, Whole(p, d, t, t), ref, r) && r.replies == [Grants(c, Found(c, s, p, d), d)] && r.loads == [d]
    ensures r.end.calls == s.calls && r.end.table == (if p in s.table then s.table else s.table[p := t])
    ensures r.end.heap == s.heap[r.end.table[p] := Spend(c, Found(c, s, p, d), d)]
    ensures p in s.table && s.table[p] == ref ==> r.takes == [d]
  {
    var l, k := Load(t, p, d, t), Take(t);
    var x := Moved(c, s, l, ref);
    var y := Moved(c, x.end, k, ref);
    GoesOne(c, s, l, ref);
    GoesOne(c, x.end, k, ref);
    GoesOn(c, s, [l], [k], Whole(p, d, t, t), ref, x, y);
    assert x.end.calls - {t} == s.calls;
    r := Joined(x, y);
  }

  /** n calls of p at `d`, with new threads and spare buckets from `base` on. */
  function Burst(p: string, d: real, base: nat, n: nat): seq<Move> {
    if n == 0 then [] else Burst(p, d, base, n - 1) + Whole(p, d, base + n - 1, base + n - 1)
  }

  function Grantings(c: Config, b: Bucket, d: real, n: nat): seq<bool> {
    seq(n, k requires 0 <= k < n => Grants(c, After(c, b, Same(d, k)), d))
  }

  ghost predicate Below(s: State, base: nat) {
    (forall t :: t in s.calls ==> t < base) && forall r :: r in s.heap ==> r < base
  }

  /** `m` is `s` after n calls of p at `d`. */
  ghost predicate TookBurst(c: Config, s: State, m: State, p: string, d: real, base: nat, n: nat) {
    && Below(m, base + n) && (p in s.table ==> m.table == s.table) && (p in m.table ==> m.table[p] in m.heap)
    && Found(c, m, p, d) == After(c, Found(c, s, p, d), Same(d, n))
  }

  lemma OneMoreCall(c: Config, s: State, m: State, one: seq<Move>, p: string, d: real, base: nat, n: nat, ref: Ref)
    returns (r: Trip)
    requires n > 0 && TookBurst(c, s, m, p, d, base, n - 1) && one == Whole(p, d, base + n - 1, base + n - 1)
    ensures Goes(c, m, one, ref, r) && TookBurst(c, s, r.end, p, d, base, n)
    ensures r.replies == [Grants(c, After(c, Found(c, s, p, d), Same(d, n - 1)), d)] && r.loads == [d]
    ensures p in s.table && s.table[p] == ref ==> r.takes == [d]
  {
    r := WholeRuns(c, m, p, d, base + n - 1, ref);
    BurstGrows(c, s, m, r.end, p, d, base, n);
  }

  lemma BurstGrows(c: Config, s: State, m: State, e: State, p: string, d: real, base: nat, n: nat)
    requires n > 0 && TookBurst(c, s, m, p, d, base, n - 1) && e.calls == m.calls
    requires e.table == (if p in m.table then m.table else m.table[p := base + n - 1])
    requires e.heap == m.heap[e.table[p] := Spend(c, Found(c, m, p, d), d)]
    ensures TookBurst(c, s, e, p, d, base, n)
  {
    assert Same(d, n) == Same(d, n - 1) + [d];
    AfterSnoc(c, Found(c, s, p, d), Same(d, n - 1), d);
  }

  /** What n calls of p at `d` come to. */
  ghost predicate Bursts(c: Config, s: State, p: string, d: real, base: nat, n: nat, ref: Ref, r: Trip) {
    && TookBurst(c, s, r.end, p, d, base, n)
    && r.replies == Grantings(c, Found(c, s, p, d), d, n) && r.loads == Same(d, n)
    && (p in s.table && s.table[p] == ref ==> r.takes == Same(d, n))
  }

  lemma {:induction false} BurstRuns(c: Config, s: State, p: string, d: real, base: nat, n: nat, ref: Ref) returns (r: Trip)
    requires Below(s, base) && (p in s.table ==> s.table[p] in s.heap)
    ensures Goes(c, s, Burst(p, d, base, n), ref, r) && Bursts(c, s, p, d, base, n, ref, r)
    decreases n
  {
    if n == 0 {
      r := BurstNone(c, s, Burst(p, d, base, n), p, d, base, n, ref);
    } else {
      var x := BurstRuns(c, s, p, d, base, n - 1, ref);
      var one := Whole(p, d, base + n - 1, base + n - 1);
      r := BurstOne(c, s, Burst(p, d, base, n - 1), one, Burst(p, d, base, n), p, d, base, n, ref, x);
    }
  }

  lemma BurstNone(c: Config, s: State, ls: seq<Move>, p: string, d: real, base: nat, n: nat, ref: Ref) returns (r: Trip)
    requires Below(s, base) && (p in s.table ==> s.table[p] in s.heap) && ls == [] && n == 0
    ensures Goes(c, s, ls, ref, r) && Bursts(c, s, p, d, base, n, ref, r)
  {
    r := Trip(s, [], [], []);
    GoesNowhere(c, s, ref);
    assert Same(d, 0) == [];
  }

  lemma BurstOne(c: Config, s: State, ls: seq<Move>, one: seq<Move>, more: seq<Move>, p: string, d: real, base: nat, n: nat,
                 ref: Ref, x: Trip)
    returns (r: Trip)
    requires n > 0 && Goes(c, s, ls, ref, x) && Bursts(c, s, p, d, base, n - 1, ref, x)
    requires one == Whole(p, d, base + n - 1, base + n - 1) && more == ls + one
    ensures Goes(c, s, more, ref, r) && Bursts(c, s, p, d, base, n, ref, r)
  {
    var y := OneMoreCall(c, s, x.end, one, p, d, base, n, ref);
    BurstSnoc(c, s, p, d, base, n, ref, x, y);
    r := Joined(x, y);
    GoesOn(c, s, ls, one, more, ref, x, y);
  }

  lemma BurstSnoc(c: Config, s: State, p: string, d: real, base: nat, n: nat, ref: Ref, x: Trip, y: Trip)
    requires n > 0 && Bursts(c, s, p, d, base, n - 1, ref, x) && TookBurst(c, s, y.end, p, d, base, n) && y.loads == [d]
    requires y.replies == [Grants(c, After(c, Found(c, s, p, d), Same(d, n - 1)), d)]
    requires p in s.table && s.table[p] == ref ==> y.takes == [d]
    ensures Bursts(c, s, p, d, base, n, ref, Joined(x, y))
  {
    var b := Found(c, s, p, d);
    assert Same(d, n) == Same(d, n - 1) + [d];
    assert Grantings(c, b, d, n) == Grantings(c, b, d, n - 1) + y.replies;
  }

  lemma {:induction false} SpentSame(c: Config, b: Bucket, d: real, k: nat)
    requires Additive(c) && forall j: nat :: j < k ==> Grants(c, After(c, b, Same(d, j)), d)
    ensures Refill(c, After(c, b, Same(d, k)), d) == Refill(c, b, d) - k as real
    decreases k
  {
    if k > 0 {
      SpentSame(c, b, d, k - 1);
      assert Same(d, k) == Same(d, k - 1) + [d];
      AfterSnoc(c, b, Same(d, k - 1), d);
      SpentOnce(c, After(c, b, Same(d, k - 1)), d);
    }
  }

  lemma SpentOnce(c: Config, b: Bucket, d: real)
    requires Additive(c) && Grants(c, b, d)
    ensures Refill(c, Spend(c, b, d), d) == Refill(c, b, d) - 1.0
  {
    FreshIsFull(c, d);
  }

  lemma {:induction false} FullGrants(c: Config, b: Bucket, d: real, k: nat)
    requires Additive(c) && Refill(c, b, d) == Full(c) && k < c.burst
    ensures forall j: nat :: j <= k ==> Grants(c, After(c, b, Same(d, j)), d)
    decreases k
  {
    if k > 0 {
      FullGrants(c, b, d, k - 1);
    }
    SpentSame(c, b, d, k);
  }

  /** As many calls at once as a full bucket grants tell a full one from one that is not. */
  lemma BurstTells(c: Config, a: Bucket, b: Bucket, d: real)
    requires Additive(c) && c.burst >= 1 && Refill(c, a, d) < Full(c) && Refill(c, b, d) == Full(c)
    ensures Grantings(c, a, d, c.burst) != Grantings(c, b, d, c.burst)
  {
    var n := c.burst - 1;
    FullGrants(c, b, d, n);
    if Grantings(c, a, d, c.burst) == Grantings(c, b, d, c.burst) {
      forall j: nat | j <= n ensures Grants(c, After(c, a, Same(d, j)), d) {
        assert Grantings(c, a, d, c.burst)[j] == Grantings(c, b, d, c.burst)[j];
      }
      SpentSame(c, a, d, n);
    }
  }

  lemma UpperBound(ns: set<nat>) returns (n: nat)
    ensures forall m :: m in ns ==> m < n
    decreases |ns|
  {
    if ns == {} {
      n := 0;
    } else {
      var m :| m in ns;
      n := UpperBound(ns - {m});
      n := if n > m then n else m + 1;
      assert forall k :: k in ns ==> k == m || k in ns - {m};
    }
  }

  lemma {:induction false} BurstIsCalls(p: string, d: real, base: nat, n: nat)
    ensures OnlyCalls(Burst(p, d, base, n))
    decreases n
  {
    if n > 0 {
      BurstIsCalls(p, d, base, n - 1);
    }
  }

  lemma OrderedThenSame(from: real, ts: seq<real>, d: real, n: nat)
    requires Ordered(from, ts + [d])
    ensures Ordered(from, ts + Same(d, n)) && Ordered(d, Same(d, n))
  {
    var all, end := ts + Same(d, n), ts + [d];
    assert end[|ts|] == d && forall i :: 0 <= i < |ts| ==> end[i] == ts[i];
    assert forall i :: 0 <= i < |ts| ==> all[i] == ts[i] <= d;
  }

  /** The calls `us` first, then as many calls at `d` as a full bucket grants. */
  lemma TellingRun(c: Config, s: State, p: string, ref: Ref, us: seq<Tid>, d: real, base: nat) returns (x: Trip, y: Trip)
    requires ref in s.heap && Turns(HeldOn(s, ref), us) && Below(s, base) && c.burst >= 1
    requires p in s.table ==> s.table[p] == ref
    ensures Goes(c, s, Taking(us) + Burst(p, d, base, c.burst), ref, Joined(x, y)) && |x.replies| == |us|
    ensures x.takes == Times(HeldOn(s, ref), us) && x.loads == [] && y.loads == Same(d, c.burst)
    ensures p in s.table ==> y.takes == Same(d, c.burst)
    ensures y.replies == Grantings(c, if p in s.table then After(c, s.heap[ref], Times(HeldOn(s, ref), us)) else Fresh(c, d),
                                   d, c.burst)
  {
    x := TakingRuns(c, s, ref, us);
    y := BurstRuns(c, x.end, p, d, base, c.burst, ref);
    GoesOn(c, s, Taking(us), Burst(p, d, base, c.burst), Taking(us) + Burst(p, d, base, c.burst), ref, x, y);
  }

  lemma SuffixTells(a: seq<bool>, b: seq<bool>, x: seq<bool>, y: seq<bool>)
    requires |a| == |b| && x != y
    ensures a + x != b + y
  {
    assert x == (a + x)[|a|..] && y == (b + y)[|b|..];
  }

  lemma UnsettledIsNoticed(c: Config, s: State, p: string, ref: Ref, from: real, d: real, us: seq<Tid>)
    requires Additive(c) && c.burst >= 1 && Deletes(s, p, ref, from, d)
    requires Turns(HeldOn(s, ref), us) && Ordered(from, Times(HeldOn(s, ref), us) + [d])
    requires Refill(c, After(c, s.heap[ref], Times(HeldOn(s, ref), us)), d) != Full(c)
    ensures !SameAnswers(c, s, ref, from, d)
  {
    var s' := Next(c, s, CompareAndDelete);
    var base := UpperBound(s.calls.Keys + s.heap.Keys);
    var ls := Taking(us) + Burst(p, d, base, c.burst);
    TellingFollows(c, s, p, ref, us, d, base, from);
    TellingTells(c, s, s', p, ref, us, d, base);
    assert Follows(c, s, ls, ref, from, d);
  }

  lemma TellingFollows(c: Config, s: State, p: string, ref: Ref, us: seq<Tid>, d: real, base: nat, from: real)
    requires ref in s.heap && Turns(HeldOn(s, ref), us) && Below(s, base) && c.burst >= 1
    requires p in s.table && s.table[p] == ref
    requires Ordered(from, Times(HeldOn(s, ref), us) + [d])
    ensures Follows(c, s, Taking(us) + Burst(p, d, base, c.burst), ref, from, d)
  {
    var _, _ := TellingRun(c, s, p, ref, us, d, base);
    BurstIsCalls(p, d, base, c.burst);
    OrderedThenSame(from, Times(HeldOn(s, ref), us), d, c.burst);
    assert [] + Same(d, c.burst) == Same(d, c.burst);
  }

  lemma TellingTells(c: Config, s: State, s': State, p: string, ref: Ref, us: seq<Tid>, d: real, base: nat)
    requires Additive(c) && c.burst >= 1 && ref in s.heap && Turns(HeldOn(s, ref), us) && Below(s, base)
    requires p in s.table && s.table[p] == ref && s'.heap == s.heap && s'.calls == s.calls && p !in s'.table
    requires Refill(c, After(c, s.heap[ref], Times(HeldOn(s, ref), us)), d) != Full(c)
    ensures var ls := Taking(us) + Burst(p, d, base, c.burst);
      Exec(c, s, ls).Some? && Exec(c, s', ls).Some? && Replies(c, s, ls) != Replies(c, s', ls)
  {
    assert HeldOn(s', ref) == HeldOn(s, ref);
    var x, y := TellingRun(c, s, p, ref, us, d, base);
    var x', y' := TellingRun(c, s', p, ref, us, d, base);
    FreshIsFull(c, d);
    BurstTells(c, After(c, s.heap[ref], Times(HeldOn(s, ref), us)), Fresh(c, d), d);
    SuffixTells(x.replies, x'.replies, y.replies, y'.replies);
  }

  /** The exact condition: a delete goes unnoticed by every run of calls that can follow exactly when
      the bucket is full at that time, whichever of the calls that hold it still spend from it. */
  lemma DeleteUnnoticedIff(c: Config, s: State, p: string, ref: Ref, from: real, d: real)
    requires Additive(c) && NeverLoses(c) && c.burst >= 1 && Deletes(s, p, ref, from, d)
    ensures SameAnswers(c, s, ref, from, d) <==> Settled(c, s.heap[ref], HeldOn(s, ref), from, d)
  {
    if Settled(c, s.heap[ref], HeldOn(s, ref), from, d) {
      SettledIsUnnoticed(c, s, p, ref, from, d);
    } else {
      var us :| Turns(HeldOn(s, ref), us) && Ordered(from, Times(HeldOn(s, ref), us) + [d]) &&
        Refill(c, After(c, s.heap[ref], Times(HeldOn(s, ref), us)), d) != Full(c);
      UnsettledIsNoticed(c, s, p, ref, from, d, us);
    }
  }

  // ---------------------------------------------------------------- the race

  lemma {:induction false} CallsKeepCondemned(c: Config, s: State, ls: seq<Move>, p: string)
    requires OwnBuckets(s) && Exec(c, s, ls).Some? && OnlyCalls(ls) && p in s.table
    ensures var t := Exec(c, s, ls).value;
      OwnBuckets(t) && p in t.table && t.table[p] == s.table[p] && t.condemned == s.condemned
    decreases |ls|
  {
    if ls != [] {
      CallsKeepCondemned(c, s, ls[..|ls| - 1], p);
      BucketsStayOwn(c, Exec(c, s, ls[..|ls| - 1]).value, ls[|ls| - 1]);
    }
  }

  lemma {:induction false} AfterAppend(c: Config, b: Bucket, ts: seq<real>, us: seq<real>)
    ensures After(c, b, ts + us) == After(c, After(c, b, ts), us)
    decreases |us|
  {
    if us == [] {
      assert ts + us == ts;
    } else {
      AfterAppend(c, b, ts, us[..|us| - 1]);
      assert (ts + us)[..|ts + us| - 1] == ts + us[..|us| - 1];
    }
  }

  lemma OrderedSplit(read: real, ts: seq<real>, us: seq<real>)
    requires Ordered(read, ts)
    ensures Ordered(read, ts + us) <==> Ordered(LastOr(read, ts), us)
  {
    if Ordered(read, ts + us) {
      OrderedTail(read, ts, us);
    }
    if Ordered(LastOr(read, ts), us) {
      OrderedJoin(read, ts, us);
    }
  }

  lemma OrderedTail(read: real, ts: seq<real>, us: seq<real>)
    requires Ordered(read, ts + us)
    ensures Ordered(LastOr(read, ts), us)
  {
    var all := ts + us;
    assert forall i :: 0 <= i < |us| ==> all[|ts| + i] == us[i];
    if ts != [] {
      forall i | 0 <= i < |us| ensures ts[|ts| - 1] <= us[i] {
        assert all[|ts| - 1] <= all[|ts| + i];
      }
    }
  }

  lemma OrderedJoin(read: real, ts: seq<real>, us: seq<real>)
    requires Ordered(read, ts) && Ordered(LastOr(read, ts), us)
    ensures Ordered(read, ts + us)
  {
    var all := ts + us;
    forall i, j | 0 <= i < j < |all| ensures all[i] <= all[j] {
      if i < |ts| <= j {
        assert all[i] <= ts[|ts| - 1] <= us[j - |ts|];
      }
    }
  }

  /** Every call let through since the read has been earned back by `d`, and so has every call that
      still holds the bucket, whichever of them come and in whatever order the clock allows. */
  ghost predicate AllEarnedBack(c: Config, b: Bucket, ts: seq<real>, held: Held, read: real, d: real) {
    forall us :: Turns(held, us) && Ordered(read, ts + (Times(held, us) + [d])) ==>
      EarnedBack(c, b, ts + Times(held, us), d)
  }

  lemma SettledIffEarnedBack(c: Config, b: Bucket, ts: seq<real>, held: Held, read: real, d: real)
    requires Additive(c) && NeverLoses(c) && RecoversWhenStale(c) && b.tokens >= 0.0 && IsStale(b, read)
    requires Ordered(read, ts + [d])
    ensures Settled(c, After(c, b, ts), held, LastOr(read, ts), d) <==> AllEarnedBack(c, b, ts, held, read, d)
  {
    OrderedSnoc(read, ts, d);
    forall us | Turns(held, us)
      ensures Ordered(LastOr(read, ts), Times(held, us) + [d]) <==> Ordered(read, ts + (Times(held, us) + [d]))
      ensures Ordered(read, ts + (Times(held, us) + [d])) ==>
        (Refill(c, After(c, After(c, b, ts), Times(held, us)), d) == Full(c) <==> EarnedBack(c, b, ts + Times(held, us), d))
    {
      OrderedSplit(read, ts, Times(held, us) + [d]);
      AfterAppend(c, b, ts, Times(held, us));
      assert ts + (Times(held, us) + [d]) == ts + Times(held, us) + [d];
      if Ordered(read, ts + (Times(held, us) + [d])) {
        FullIffEarnedBack(c, b, read, ts + Times(held, us), d);
      }
    }
  }

  /** The premises of the race: cleanup reads the bucket of p as stale, only calls come before its
      delete at `d`, and the clock never goes back from the read on. */
  ghost predicate Races(c: Config, s: State, p: string, read: real, ls: seq<Move>, d: real) {
    && OwnBuckets(s) && Enabled(s, ReadStale(p, read)) && s.heap[s.table[p]].tokens >= 0.0
    && OnlyCalls(ls) && Exec(c, Next(c, s, ReadStale(p, read)), ls).Some?
    && var t := Exec(c, Next(c, s, ReadStale(p, read)), ls).value;
    && Ordered(read, TakesFrom(c, Next(c, s, ReadStale(p, read)), ls, s.table[p]) + [d])
    && forall x :: x in t.calls && t.calls[x].ref == s.table[p] ==> t.calls[x].now <= d
  }

  /** For a limiter whose buckets are full again by the stale threshold: the delete goes unnoticed by
      every run of calls that can follow exactly when every call let through since the read, and
      every call that holds the old bucket at the delete, has been earned back by then. */
  lemma RaceUnnoticedIff(c: Config, s: State, p: string, read: real, ls: seq<Move>, d: real)
    requires Additive(c) && NeverLoses(c) && RecoversWhenStale(c) && c.burst >= 1 && Races(c, s, p, read, ls, d)
    ensures var ref, s0 := s.table[p], Next(c, s, ReadStale(p, read));
      var t, ts := Exec(c, s0, ls).value, TakesFrom(c, s0, ls, ref);
      && t.condemned == Some((p, ref)) && p !in Next(c, t, CompareAndDelete).table
      && (SameAnswers(c, t, ref, LastOr(read, ts), d) <==> AllEarnedBack(c, s.heap[ref], ts, HeldOn(t, ref), read, d))
  {
    var ref, s0 := s.table[p], Next(c, s, ReadStale(p, read));
    var t, ts := Exec(c, s0, ls).value, TakesFrom(c, s0, ls, ref);
    RacesToDelete(c, s, p, read, ls, d);
    UnnoticedAtDelete(c, t, p, ref, s.heap[ref], ts, read, d);
  }

  lemma UnnoticedAtDelete(c: Config, t: State, p: string, ref: Ref, b: Bucket, ts: seq<real>, read: real, d: real)
    requires Additive(c) && NeverLoses(c) && RecoversWhenStale(c) && c.burst >= 1 && b.tokens >= 0.0 && IsStale(b, read)
    requires Deletes(t, p, ref, LastOr(read, ts), d) && t.heap[ref] == After(c, b, ts) && Ordered(read, ts + [d])
    ensures t.condemned == Some((p, ref)) && p !in Next(c, t, CompareAndDelete).table
    ensures SameAnswers(c, t, ref, LastOr(read, ts), d) <==> AllEarnedBack(c, b, ts, HeldOn(t, ref), read, d)
  {
    DeleteUnnoticedIff(c, t, p, ref, LastOr(read, ts), d);
    SettledIffEarnedBack(c, b, ts, HeldOn(t, ref), read, d);
  }

  lemma RacesToDelete(c: Config, s: State, p: string, read: real, ls: seq<Move>, d: real)
    requires Races(c, s, p, read, ls, d)
    ensures var ref, s0 := s.table[p], Next(c, s, ReadStale(p, read));
      var t, ts := Exec(c, s0, ls).value, TakesFrom(c, s0, ls, ref);
      Deletes(t, p, ref, LastOr(read, ts), d) && t.heap[ref] == After(c, s.heap[ref], ts)
  {
    var ref, s0 := s.table[p], Next(c, s, ReadStale(p, read));
    CallsKeepCondemned(c, s0, ls, p);
    BucketIsSpentFrom(c, s0, ls, ref);
    OrderedSnoc(read, TakesFrom(c, s0, ls, ref), d);
  }

  /** In particular, when no call holds the bucket at the delete. */
  lemma RaceUnnoticedIfNoneHeld(c: Config, s: State, p: string, read: real, ls: seq<Move>, d: real)
    requires Additive(c) && NeverLoses(c) && RecoversWhenStale(c) && c.burst >= 1 && Races(c, s, p, read, ls, d)
    requires HeldOn(Exec(c, Next(c, s, ReadStale(p, read)), ls).value, s.table[p]) == map[]
    ensures var ref, s0 := s.table[p], Next(c, s, ReadStale(p, read));
      var t, ts := Exec(c, s0, ls).value, TakesFrom(c, s0, ls, ref);
      t.condemned.Some? && (SameAnswers(c, t, ref, LastOr(read, ts), d) <==> EarnedBack(c, s.heap[ref], ts, d))
  {
    RaceUnnoticedIff(c, s, p, read, ls, d);
    var ref, s0 := s.table[p], Next(c, s, ReadStale(p, read));
    var ts := TakesFrom(c, s0, ls, ref);
    OnlyNoTurns(c, s.heap[ref], ts, read, d);
  }

  lemma OnlyNoTurns(c: Config, b: Bucket, ts: seq<real>, read: real, d: real)
    requires Ordered(read, ts + [d])
    ensures AllEarnedBack(c, b, ts, map[], read, d) <==> EarnedBack(c, b, ts, d)
  {
    var none: Held := map[];
    assert Turns(none, []) && Times(none, []) == [] && ts + [] == ts && [] + [d] == [d];
    forall us | Turns(none, us) ensures us == [] {
      if us != [] {
        SomeoneHolds(none, us);
      }
    }
  }

  lemma SomeoneHolds(held: Held, us: seq<Tid>)
    requires us != [] && Turns(held, us)
    ensures held != map[]
  {
    assert us[0] in held;
  }

  lemma JustSpentIsNotFull(c: Config, b: Bucket, now: real)
    requires Additive(c) && NeverLoses(c) && RecoversWhenStale(c) && c.burst >= 1 && b.tokens >= 0.0 && IsStale(b, now)
    ensures Grants(c, b, now) && !IsStale(Spend(c, b, now), now) && Refill(c, Spend(c, b, now), now) != Full(c)
  {
    assert Refill(c, b, now) == Full(c);
    FreshIsFull(c, now);
  }

  /** The run the comment on cleanup rules out: between the read and the delete a call refreshes the
      bucket, which is then no longer stale; it is deleted all the same, and later calls can tell. */
  lemma RacingRefreshIsClobbered(c: Config, s: State, p: string, read: real, t: Tid, spare: Ref)
    requires Additive(c) && NeverLoses(c) && RecoversWhenStale(c) && c.burst >= 1
    requires OwnBuckets(s) && Enabled(s, ReadStale(p, read)) && s.heap[s.table[p]].tokens >= 0.0
    requires t !in s.calls && spare !in s.heap
    requires forall x :: x in s.calls && s.calls[x].ref == s.table[p] ==> s.calls[x].now <= read
    ensures var m := Exec(c, Next(c, s, ReadStale(p, read)), Whole(p, read, t, spare));
      && m.Some? && Grants(c, s.heap[s.table[p]], read)
      && s.table[p] in m.value.heap && !IsStale(m.value.heap[s.table[p]], read)
      && Enabled(m.value, CompareAndDelete) && p !in Next(c, m.value, CompareAndDelete).table
      && !SameAnswers(c, m.value, s.table[p], read, read)
  {
    var ref, s0 := s.table[p], Next(c, s, ReadStale(p, read));
    var l, k := Load(t, p, read, spare), Take(t);
    RunSnoc(c, s0, [], l);
    RunSnoc(c, s0, [] + [l], k);
    assert Whole(p, read, t, spare) == [] + [l] + [k];
    var m := Exec(c, s0, Whole(p, read, t, spare)).value;
    assert m == Next(c, Next(c, s0, l), k);
    BucketsStayOwn(c, s0, l);
    BucketsStayOwn(c, Next(c, s0, l), k);
    JustSpentIsNotFull(c, s.heap[ref], read);
    NoTurn(c, m, ref, read);
    UnsettledIsNoticed(c, m, p, ref, read, read, []);
  }

  lemma NoTurn(c: Config, m: State, ref: Ref, d: real)
    requires ref in m.heap
    ensures Turns(HeldOn(m, ref), []) && Times(HeldOn(m, ref), []) == [] && Ordered(d, [] + [d])
    ensures After(c, m.heap[ref], Times(HeldOn(m, ref), [])) == m.heap[ref]
  {
  }

  /** A call that has looked its bucket up and not yet spent when it is deleted: nothing was let
      through since the read, so everything is earned back, and yet later calls can tell. */
  lemma HeldCallIsForgotten(c: Config, s: State, p: string, read: real, t: Tid, spare: Ref)
    requires Additive(c) && NeverLoses(c) && RecoversWhenStale(c) && c.burst >= 1
    requires OwnBuckets(s) && Enabled(s, ReadStale(p, read)) && s.heap[s.table[p]].tokens >= 0.0
    requires t !in s.calls && spare !in s.heap
    requires forall x :: x in s.calls && s.calls[x].ref == s.table[p] ==> s.calls[x].now <= read
    ensures var s0 := Next(c, s, ReadStale(p, read));
      var m := Exec(c, s0, [Load(t, p, read, spare)]);
      && m.Some? && m.value.condemned.Some? && TakesFrom(c, s0, [Load(t, p, read, spare)], s.table[p]) == []
      && EarnedBack(c, s.heap[s.table[p]], [], read)
      && !SameAnswers(c, m.value, s.table[p], read, read)
  {
    var ref, s0, l := s.table[p], Next(c, s, ReadStale(p, read)), Load(t, p, read, spare);
    GoesOne(c, s0, l, ref);
    BucketsStayOwn(c, s0, l);
    HeldIsNoticed(c, Next(c, s0, l), p, ref, read, t);
  }

  lemma HeldIsNoticed(c: Config, m: State, p: string, ref: Ref, d: real, t: Tid)
    requires Additive(c) && NeverLoses(c) && RecoversWhenStale(c) && c.burst >= 1 && Deletes(m, p, ref, d, d)
    requires t in m.calls && m.calls[t] == Pending(ref, d) && m.heap[ref].tokens >= 0.0 && IsStale(m.heap[ref], d)
    ensures !SameAnswers(c, m, ref, d, d)
  {
    TurnOfOne(c, m, ref, d, t);
    UnsettledIsNoticed(c, m, p, ref, d, d, [t]);
  }

  lemma TurnOfOne(c: Config, m: State, ref: Ref, d: real, t: Tid)
    requires Additive(c) && NeverLoses(c) && RecoversWhenStale(c) && c.burst >= 1 && ref in m.heap
    requires t in m.calls && m.calls[t] == Pending(ref, d) && m.heap[ref].tokens >= 0.0 && IsStale(m.heap[ref], d)
    ensures Turns(HeldOn(m, ref), [t]) && Ordered(d, Times(HeldOn(m, ref), [t]) + [d])
    ensures Refill(c, After(c, m.heap[ref], Times(HeldOn(m, ref), [t])), d) != Full(c)
  {
    OneTime(HeldOn(m, ref), t);
    SpentNowIsNotFull(c, m.heap[ref], d);
  }

  lemma OneTime(held: Held, t: Tid)
    requires t in held
    ensures Turns(held, [t]) && Times(held, [t]) == [held[t]]
  {
  }

  lemma SpentNowIsNotFull(c: Config, b: Bucket, d: real)
    requires Additive(c) && NeverLoses(c) && RecoversWhenStale(c) && c.burst >= 1 && b.tokens >= 0.0 && IsStale(b, d)
    ensures Refill(c, After(c, b, [d]), d) != Full(c)
  {
    JustSpentIsNotFull(c, b, d);
    AfterSnoc(c, b, [], d);
    assert [] + [d] == [d];
  }
}
