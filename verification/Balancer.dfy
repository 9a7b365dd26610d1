/**
  Round-robin over the backends with bounded failover.  The health flags change under
  the scan, so what the health loop writes is an input, and so is how each attempt ends.
 */
module Balancer {
  import opened RoundRobin
  import opened Wrappers

  const MAX_ATTEMPTS := 2

  /** How one ReverseProxy attempt ends. */
  datatype Attempt = Responded | ClientGone | TransportError

  /** What the client gets. */
  datatype Final = BackendResponse | Nothing | BadGateway | NoHealthyBackends

  predicate IsIdempotentMethod(m: string) { m in {"GET", "HEAD", "PUT", "DELETE"} }

  // ---------------------------------------------------------------- one request

  /** One request's scan over n backends: the backends its iterations look at, the flags it starts
      with, what the health loop writes before each iteration's read, and how an attempt made in
      each would end. */
  datatype Scan = Scan(n: nat, order: seq<int>, flags: seq<bool>, writes: seq<map<int, bool>>, ends: seq<Attempt>) {
    predicate Valid() {
      && |order| == |flags| == |writes| == |ends| == n > 0
      && forall i :: 0 <= i < n ==> 0 <= order[i] < n
    }

    /** The flags the i-th iteration reads. */
    function FlagsRead(i: nat): (r: seq<bool>)
      requires Valid() && i < n
      ensures |r| == n
      decreases i, 1
    {
      Probed(FlagsAfter(i), writes[i])
    }

    predicate Sees(i: nat)
      requires Valid() && i < n
      decreases i, 2
    {
      FlagsRead(i)[order[i]]
    }

    /** The flags after k iterations: a failed attempt marks its backend at once. */
    function FlagsAfter(k: nat): (r: seq<bool>)
      requires Valid() && k <= n
      ensures |r| == n
      decreases k, 0
    {
      if k == 0 then flags
      else if Sees(k - 1) && ends[k - 1] == TransportError then FlagsRead(k - 1)[order[k - 1] := false]
      else FlagsRead(k - 1)
    }
  }

  function Probed(flags: seq<bool>, writes: map<int, bool>): (r: seq<bool>)
    ensures |r| == |flags|
  {
    seq(|flags|, b requires 0 <= b < |flags| => if b in writes then writes[b] else flags[b])
  }

  /** How the scan ends after `steps` iterations: exactly the iterations that saw a healthy
      backend made an attempt, only a transport error was followed by another, the last attempt
      decides what the client gets, and the scan gave up for one of three reasons. */
  ghost predicate Decides(s: Scan, verb: string, steps: nat, tried: seq<nat>, final: Final)
    requires s.Valid()
  {
    && |tried| <= MAX_ATTEMPTS && (!IsIdempotentMethod(verb) ==> |tried| <= 1)
    && steps <= s.n
    && (forall k :: 0 <= k < |tried| ==> tried[k] < steps && s.Sees(tried[k]))
    && (forall i: nat :: i < steps && s.Sees(i) ==> i in tried)
    && (forall j, k :: 0 <= j < k < |tried| ==> tried[j] < tried[k])
    && (forall k :: 0 <= k < |tried| - 1 ==> s.ends[tried[k]] == TransportError)
    && (tried == [] ==> steps == s.n && final == NoHealthyBackends)
    && (tried != [] ==> final == Outcome(s.ends[tried[|tried| - 1]]))
    && (final == BadGateway ==> steps == s.n || |tried| == MAX_ATTEMPTS || !IsIdempotentMethod(verb))
  }

  function Outcome(a: Attempt): Final {
    match a case Responded => BackendResponse case ClientGone => Nothing case TransportError => BadGateway
  }

  /** What a scan that ends so means for the client: GET, HEAD, PUT and DELETE are sent to at most two
      backends and to a second one whenever the first fails and another healthy one is seen; POST,
      PATCH and everything else is sent once; only what a backend answered is passed on. */
  lemma SentAtMostTwice(s: Scan, verb: string, steps: nat, tried: seq<nat>, final: Final)
    requires s.Valid() && Decides(s, verb, steps, tried, final)
    ensures |tried| <= if verb in {"GET", "HEAD", "PUT", "DELETE"} then 2 else 1
    ensures verb in {"GET", "HEAD", "PUT", "DELETE"} && final == BadGateway && |tried| == 1 ==>
      forall i: nat :: i < s.n && i != tried[0] ==> !s.Sees(i)
    ensures final == NoHealthyBackends <==> tried == []
    ensures final == BackendResponse <==> tried != [] && s.ends[tried[|tried| - 1]] == Responded
    ensures final == Nothing <==> tried != [] && s.ends[tried[|tried| - 1]] == ClientGone
    ensures final == BadGateway <==> tried != [] && s.ends[tried[|tried| - 1]] == TransportError
  {
  }

  /** So far only failed attempts, one for each healthy backend seen. */
  ghost predicate Trying(s: Scan, verb: string, i: nat, tried: seq<nat>)
    requires s.Valid()
  {
    && i <= s.n && |tried| <= MAX_ATTEMPTS && (tried != [] ==> IsIdempotentMethod(verb))
    && (forall k :: 0 <= k < |tried| ==> tried[k] < i && s.Sees(tried[k]) && s.ends[tried[k]] == TransportError)
    && (forall k: nat :: k < i && s.Sees(k) ==> k in tried)
    && (forall j, k :: 0 <= j < k < |tried| ==> tried[j] < tried[k])
  }

  lemma NoTry(s: Scan, verb: string, i: nat, tried: seq<nat>)
    requires s.Valid() && Trying(s, verb, i, tried) && i < s.n && !s.Sees(i)
    ensures Trying(s, verb, i + 1, tried)
  {
  }

  lemma OutOfTries(s: Scan, verb: string, i: nat, tried: seq<nat>)
    requires s.Valid() && Trying(s, verb, i, tried) && (i == s.n || |tried| == MAX_ATTEMPTS)
    ensures Decides(s, verb, i, tried, if tried == [] then NoHealthyBackends else BadGateway)
  {
  }

  /** One iteration's flags. */
  lemma OneMoreFlag(s: Scan, i: nat)
    requires s.Valid() && i < s.n
    ensures s.Sees(i) == Probed(s.FlagsAfter(i), s.writes[i])[s.order[i]]
    ensures var f := Probed(s.FlagsAfter(i), s.writes[i]);
      s.FlagsAfter(i + 1) == if s.Sees(i) && s.ends[i] == TransportError then f[s.order[i] := false] else f
  {
  }

  /** One more attempt: it ends the request, or the scan goes on. */
  lemma OneMoreTry(s: Scan, verb: string, i: nat, tried: seq<nat>)
    requires s.Valid() && Trying(s, verb, i, tried) && i < s.n && s.Sees(i) && |tried| < MAX_ATTEMPTS
    ensures var final := Outcome(s.ends[i]);
      if final != BadGateway || !IsIdempotentMethod(verb) then Decides(s, verb, i + 1, tried + [i], final)
      else Trying(s, verb, i + 1, tried + [i])
  {
    var t := tried + [i];
    forall k: nat | k < i + 1 && s.Sees(k) ensures k in t {
      if k == i {
        assert t[|tried|] == i;
      } else {
        assert k in tried;
      }
    }
  }

  // ---------------------------------------------------------------- trying a backend twice

  ghost predicate DistinctBackends(s: Scan, tried: seq<nat>)
    requires s.Valid() && forall k :: 0 <= k < |tried| ==> tried[k] < s.n
  {
    forall j, k :: 0 <= j < k < |tried| ==> s.order[tried[j]] != s.order[tried[k]]
  }

  /** No scan in this order tries a backend twice, whatever the health loop writes. */
  ghost predicate NeverTriesTwice(order: seq<int>) {
    forall s: Scan, verb, steps, tried, final ::
      s.Valid() && s.order == order && Decides(s, verb, steps, tried, final) ==> DistinctBackends(s, tried)
  }

  /** The scan in which all backends are down, except that the health loop finds the one of
      iterations i and j up just before each of them; every attempt fails. */
  function Relapse(order: seq<int>, i: nat, j: nat): (s: Scan)
    requires i < |order| && forall k :: 0 <= k < |order| ==> 0 <= order[k] < |order|
    ensures s.Valid() && s.order == order && s.n == |order|
  {
    var n := |order|;
    Scan(n, order, seq(n, _ => false),
         seq(n, k => if k == i || k == j then map[order[i] := true] else map[]),
         seq(n, _ => TransportError))
  }

  lemma {:induction false} RelapseFlags(order: seq<int>, i: nat, j: nat, k: nat)
    requires i < j < |order| && (forall m :: 0 <= m < |order| ==> 0 <= order[m] < |order|)
    requires order[i] == order[j] && k <= |order|
    ensures Relapse(order, i, j).FlagsAfter(k) == seq(|order|, _ => false)
  {
    if k > 0 {
      RelapseFlags(order, i, j, k - 1);
      OneMoreFlag(Relapse(order, i, j), k - 1);
    }
  }

  lemma RelapseSees(order: seq<int>, i: nat, j: nat, k: nat)
    requires i < j < |order| && (forall m :: 0 <= m < |order| ==> 0 <= order[m] < |order|)
    requires order[i] == order[j] && k < |order|
    ensures Relapse(order, i, j).Sees(k) <==> k == i || k == j
  {
    RelapseFlags(order, i, j, k);
    OneMoreFlag(Relapse(order, i, j), k);
  }

  /** It tries the backend of i and j twice. */
  lemma RelapseTriesTwice(order: seq<int>, i: nat, j: nat)
    requires i < j < |order| && (forall m :: 0 <= m < |order| ==> 0 <= order[m] < |order|) && order[i] == order[j]
    ensures Decides(Relapse(order, i, j), "GET", j + 1, [i, j], BadGateway)
    ensures !DistinctBackends(Relapse(order, i, j), [i, j])
  {
    var s := Relapse(order, i, j);
    forall k: nat | k < |order| ensures s.Sees(k) <==> k == i || k == j {
      RelapseSees(order, i, j, k);
    }
    assert [i, j][0] == i && [i, j][1] == j;
  }

  /** Requests that draw the counter value `start` never try a backend twice exactly when the
      counter does not wrap inside their scan or the number of backends divides 2^64. */
  lemma NeverTriesTwiceIff(n: int, start: int)
    requires 0 < n <= WORD && 0 <= start < WORD
    ensures NeverTriesTwice(Order(n, start)) <==> start + n <= WORD || WORD % n == 0
  {
    VisitsEachOnceIff(n, start);
    if !(start + n <= WORD || WORD % n == 0) {
      var i, j := WrapRepeats(n, start);
      RelapseTriesTwice(Order(n, start), i, j);
    }
  }

  /** Three backends and the last counter value: the failed backend comes up again before the
      second iteration, which is its own, and is tried again instead of another one. */
  lemma WrapTriesTwice()
    ensures Order(3, WORD - 1) == [0, 0, 1]
    ensures Decides(Relapse(Order(3, WORD - 1), 0, 1), "GET", 2, [0, 1], BadGateway)
  {
    RelapseTriesTwice(Order(3, WORD - 1), 0, 1);
  }

  lemma {:induction false} StaysMarked(s: Scan, i: nat, k: nat)
    requires s.Valid() && i < k <= s.n && s.Sees(i) && s.ends[i] == TransportError
    requires forall w :: i < w < k && s.order[i] in s.writes[w] ==> !s.writes[w][s.order[i]]
    ensures !s.FlagsAfter(k)[s.order[i]]
    decreases k
  {
    OneMoreFlag(s, k - 1);
    if k - 1 > i {
      StaysMarked(s, i, k - 1);
    }
  }

  /** Whatever the counter does, a backend that failed is tried again in the same request only
      if the health loop found it up in between; so never while the health loop is silent. */
  lemma RetryNeedsRecovery(s: Scan, verb: string, steps: nat, tried: seq<nat>, final: Final, j: nat, k: nat)
    requires s.Valid() && Decides(s, verb, steps, tried, final)
    requires j < k < |tried| && s.order[tried[j]] == s.order[tried[k]]
    ensures exists w :: tried[j] < w <= tried[k] && s.order[tried[j]] in s.writes[w] && s.writes[w][s.order[tried[j]]]
  {
    var i, i' := tried[j], tried[k];
    if forall w :: i < w <= i' && s.order[i] in s.writes[w] ==> !s.writes[w][s.order[i]] {
      StaysMarked(s, i, i');
      OneMoreFlag(s, i');
    }
  }

  /** With the health loop silent, what a scan changes is that the backends whose attempt failed
      are marked. */
  lemma {:induction false} QuietScan(s: Scan, k: nat, b: int)
    requires s.Valid() && k <= s.n && 0 <= b < s.n
    requires forall i :: 0 <= i < s.n ==> s.writes[i] == map[]
    ensures s.FlagsAfter(k)[b] <==>
      s.flags[b] && !exists i: nat :: i < k && s.order[i] == b && s.ends[i] == TransportError
  {
    if k > 0 {
      QuietScan(s, k - 1, b);
      OneMoreFlag(s, k - 1);
    }
  }

  // ---------------------------------------------------------------- spread over requests

  /** A healthy first backend that responds is the only one tried. */
  lemma FirstBackendServes(s: Scan, verb: string, steps: nat, tried: seq<nat>, final: Final)
    requires s.Valid() && Decides(s, verb, steps, tried, final) && s.Sees(0) && s.ends[0] == Responded
    ensures tried == [0] && final == BackendResponse
  {
    assert tried != [];
    assert tried[0] == 0;
  }

  /** A request that was handled. */
  datatype Handled = Handled(scan: Scan, verb: string, steps: nat, tried: seq<nat>, final: Final)

  /** It found the first backend it looked at healthy and got its response. */
  ghost predicate Easy(r: Handled) {
    && r.scan.Valid() && Decides(r.scan, r.verb, r.steps, r.tried, r.final)
    && r.scan.Sees(0) && r.scan.ends[0] == Responded
  }

  /** Requests that scan in these orders, all of them easy. */
  ghost predicate Smooth(rs: seq<Handled>, orders: seq<seq<int>>) {
    |rs| == |orders| && forall k :: 0 <= k < |rs| ==> Easy(rs[k]) && rs[k].scan.order == orders[k]
  }

  /** Backend b answered the request. */
  predicate AnsweredBy(r: Handled, b: int) {
    && r.final == BackendResponse && r.tried != [] && r.tried[|r.tried| - 1] < |r.scan.order|
    && r.scan.order[r.tried[|r.tried| - 1]] == b
  }

  function CountAnswered(rs: seq<Handled>, b: int): nat
    decreases |rs|
  {
    if rs == [] then 0 else CountAnswered(rs[..|rs| - 1], b) + if AnsweredBy(rs[|rs| - 1], b) then 1 else 0
  }

  lemma {:induction false} CountAnsweredIs(rs: seq<Handled>, bs: seq<int>, b: int)
    requires |rs| == |bs| && forall k :: 0 <= k < |rs| ==> Easy(rs[k]) && rs[k].scan.order[0] == bs[k]
    ensures CountAnswered(rs, b) == Count(bs, b)
    decreases |rs|
  {
    if rs != [] {
      var r := rs[|rs| - 1];
      CountAnsweredIs(rs[..|rs| - 1], bs[..|bs| - 1], b);
      FirstBackendServes(r.scan, r.verb, r.steps, r.tried, r.final);
    }
  }

  lemma SmoothCounts(rs: seq<Handled>, n: int, start: int, b: int)
    requires n > 0 && Smooth(rs, Orders(n, start, |rs|))
    ensures CountAnswered(rs, b) == Count(Firsts(n, start, |rs|), b)
  {
    CountAnsweredIs(rs, Firsts(n, start, |rs|), b);
  }

  /** Of m consecutive requests with all backends healthy and no failures, every backend answers
      m/n, rounded down or up, unless the counter wraps among them and n does not divide 2^64. */
  lemma RoundRobinIsFair(rs: seq<Handled>, n: int, start: int, b: int)
    requires 0 < n <= WORD && 0 <= b < n && 0 <= start && (start + |rs| <= WORD || WORD % n == 0)
    requires Smooth(rs, Orders(n, start, |rs|))
    ensures Even(CountAnswered(rs, b), |rs|, n)
  {
    SmoothCounts(rs, n, start, b);
    FirstsAreFair(n, start, |rs|, b);
  }

  /** Every stretch of smooth requests is spread evenly. */
  ghost predicate AlwaysFair(n: int)
    requires n > 0
  {
    forall rs, start, b :: 0 <= start < WORD && 0 <= b < n && Smooth(rs, Orders(n, start, |rs|)) ==>
      Even(CountAnswered(rs, b), |rs|, n)
  }

  /** One request that finds everything healthy and gets its response. */
  function Ideal(order: seq<int>): Handled {
    var n := |order|;
    Handled(Scan(n, order, seq(n, _ => true), seq(n, _ => map[]), seq(n, _ => Responded)), "GET", 1, [0], BackendResponse)
  }

  lemma IdealIsEasy(order: seq<int>)
    requires order != [] && forall k :: 0 <= k < |order| ==> 0 <= order[k] < |order|
    ensures Easy(Ideal(order))
  {
    OneMoreFlag(Ideal(order).scan, 0);
  }

  lemma IdealsAreSmooth(orders: seq<seq<int>>) returns (rs: seq<Handled>)
    requires forall k :: 0 <= k < |orders| ==>
      orders[k] != [] && forall i :: 0 <= i < |orders[k]| ==> 0 <= orders[k][i] < |orders[k]|
    ensures Smooth(rs, orders)
  {
    rs := seq(|orders|, k requires 0 <= k < |orders| => Ideal(orders[k]));
    forall k | 0 <= k < |rs| ensures Easy(rs[k]) {
      IdealIsEasy(orders[k]);
    }
  }

  lemma WrapIsNoticed(n: int)
    requires 0 < n <= WORD && WORD % n != 0
    ensures !AlwaysFair(n)
  {
    var start, m := WrapIsUnfair(n);
    var rs := IdealsAreSmooth(Orders(n, start, m));
    SmoothCounts(rs, n, start, 0);
    assert Smooth(rs, Orders(n, start, |rs|)) && !Even(CountAnswered(rs, 0), |rs|, n);
  }

  /** Every stretch of requests, across wraps included, is spread evenly exactly when the number
      of backends divides 2^64. */
  lemma AlwaysFairIff(n: int)
    requires 0 < n <= WORD
    ensures AlwaysFair(n) <==> WORD % n == 0
  {
    if WORD % n == 0 {
      forall rs, start, b | 0 <= start < WORD && 0 <= b < n && Smooth(rs, Orders(n, start, |rs|))
        ensures Even(CountAnswered(rs, b), |rs|, n)
      {
        RoundRobinIsFair(rs, n, start, b);
      }
    } else {
      WrapIsNoticed(n);
    }
  }

  // ---------------------------------------------------------------- the balancer

  /** New refuses an empty backend list and a URL that does not parse. */
  method New(parses: seq<bool>) returns (lb: Option<Balancer>)
    requires |parses| <= WORD
    ensures lb.Some? <==> parses != [] && forall i :: 0 <= i < |parses| ==> parses[i]
    ensures lb.Some? ==> fresh(lb.value) && lb.value.Valid() && lb.value.n == |parses| && lb.value.counter == 0
    ensures lb.Some? ==> forall b :: 0 <= b < |parses| ==> lb.value.healthy[b]
  {
    if |parses| == 0 {
      return None;
    }
    for i := 0 to |parses|
      invariant forall j :: 0 <= j < i ==> parses[j]
    {
      if !parses[i] {
        return None;
      }
    }
    var b := new Balancer(|parses|);
    return Some(b);
  }

  class Balancer {
    const n: int
    var counter: int
    var healthy: seq<bool>

    ghost predicate Valid()
      reads this
    {
      0 < n <= WORD && |healthy| == n && 0 <= counter < WORD
    }

    constructor (n: int)
      requires 0 < n <= WORD
      ensures Valid() && this.n == n && counter == 0 && forall b :: 0 <= b < n ==> healthy[b]
    {
      this.n := n;
      counter, healthy := 0, seq(n, _ => true);
    }

    /** One request: it draws the next counter value and scans. */
    method ServeHTTP(verb: string, writes: seq<map<int, bool>>, ends: seq<Attempt>)
      returns (tried: seq<nat>, final: Final, ghost steps: nat)
      requires Valid() && |writes| == n && |ends| == n
      modifies this
      ensures Valid() && counter == (old(counter) + 1) % WORD
      ensures var s := Scan(n, Order(n, old(counter)), old(healthy), writes, ends);
        Decides(s, verb, steps, tried, final) && healthy == s.FlagsAfter(steps)
    {
      var start := counter;
      counter := (counter + 1) % WORD;
      tried, final, steps := TryBackends(Scan(n, Order(n, start), healthy, writes, ends), start, verb, writes, ends);
    }

    /** One iteration: reads the flag, makes an attempt if it is set, and the error handler
        marks the backend if that fails. */
    method Visit(ghost s: Scan, start: int, i: nat, writes: map<int, bool>, end: Attempt) returns (attempted: bool)
      requires s.Valid() && i < n && s.n == n && s.order == Order(n, start) && s.writes[i] == writes && s.ends[i] == end
      requires healthy == s.FlagsAfter(i)
      modifies `healthy
      ensures attempted == s.Sees(i) && healthy == s.FlagsAfter(i + 1)
    {
      OneMoreFlag(s, i);
      healthy := Probed(healthy, writes);
      var idx := Index(n, start, i);
      attempted := healthy[idx];
      if attempted && end == TransportError {
        healthy := healthy[idx := false];
      }
    }

    /** One iteration and what it means for the request. */
    method Iterate(ghost s: Scan, start: int, verb: string, i: nat, writes: map<int, bool>, end: Attempt, before: seq<nat>)
      returns (tried: seq<nat>, final: Final, done: bool)
      requires s.Valid() && i < n && s.n == n && s.order == Order(n, start) && s.writes[i] == writes && s.ends[i] == end
      requires healthy == s.FlagsAfter(i) && Trying(s, verb, i, before) && |before| < MAX_ATTEMPTS
      modifies `healthy
      ensures healthy == s.FlagsAfter(i + 1)
      ensures if done then Decides(s, verb, i + 1, tried, final) else Trying(s, verb, i + 1, tried)
    {
      var attempted := Visit(s, start, i, writes, end);
      final := Outcome(end);
      if attempted {
        OneMoreTry(s, verb, i, before);
        tried, done := before + [i], final != BadGateway || !IsIdempotentMethod(verb);
      } else {
        NoTry(s, verb, i, before);
        tried, done := before, false;
      }
    }

    /** The loop of ServeHTTP; `tried` are the iterations that made an attempt. */
    method TryBackends(ghost s: Scan, start: int, verb: string, writes: seq<map<int, bool>>, ends: seq<Attempt>)
      returns (tried: seq<nat>, final: Final, ghost steps: nat)
      requires s.Valid() && s.n == n && s.order == Order(n, start) && s.flags == healthy
      requires s.writes == writes && s.ends == ends
      modifies `healthy
      ensures Decides(s, verb, steps, tried, final) && healthy == s.FlagsAfter(steps)
    {
      tried := [];
      var i := 0;
      while i < n && |tried| < MAX_ATTEMPTS
        invariant 0 <= i <= n && Trying(s, verb, i, tried)
        invariant healthy == s.FlagsAfter(i)
      {
        var done;
        tried, final, done := Iterate(s, start, verb, i, writes[i], ends[i], tried);
        i := i + 1;
        if done {
          return tried, final, i;
        }
      }
      OutOfTries(s, verb, i, tried);
      steps := i;
      final := if tried == [] then NoHealthyBackends else BadGateway;
    }

    method Healthy() returns (b: bool)
      requires Valid()
      ensures b <==> exists i :: 0 <= i < n && healthy[i]
    {
      for i := 0 to n
        invariant forall j :: 0 <= j < i ==> !healthy[j]
      {
        if healthy[i] {
          return true;
        }
      }
      return false;
    }
  }
}
