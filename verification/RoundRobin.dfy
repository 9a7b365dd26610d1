/** Division facts behind the round-robin. */
module Division {

  /** A multiple of n other than zero is at least n away from zero. */
  lemma MultipleIsFar(n: int, d: int)
    requires n > 0
    ensures d != 0 ==> n * d >= n || n * d <= -n
  {
    if d >= 1 {
      assert n * d == n + n * (d - 1) && n * (d - 1) >= 0;
    } else if d <= -1 {
      assert n * d == -n - n * (-d - 1) && n * (-d - 1) >= 0;
    }
  }

  /** Quotient and remainder are unique. */
  lemma DivModIs(a: int, n: int, q: int, r: int)
    requires n > 0 && a == q * n + r && 0 <= r < n
    ensures a / n == q && a % n == r
  {
    var q', r' := a / n, a % n;
    assert n * q' + r' == n * q + r;
    assert n * (q' - q) == n * q' - n * q;
    MultipleIsFar(n, q' - q);
  }

  lemma DivNext(a: int, n: int)
    requires n > 0 && a >= 0
    ensures (a + 1) / n == a / n + if (a + 1) % n == 0 then 1 else 0
    ensures (a + 1) % n == if a % n == n - 1 then 0 else a % n + 1
  {
    var q, r := a / n, a % n;
    assert a == q * n + r;
    if r == n - 1 {
      assert a + 1 == (q + 1) * n + 0;
      DivModIs(a + 1, n, q + 1, 0);
    } else {
      DivModIs(a + 1, n, q, r + 1);
    }
  }

  lemma DivSum(a: int, m: int, n: int)
    requires n > 0
    ensures (a + m) / n == a / n + m / n + if a % n + m % n < n then 0 else 1
  {
    var q, r, p, t := a / n, a % n, m / n, m % n;
    assert a == q * n + r && m == p * n + t;
    if r + t < n {
      assert a + m == (q + p) * n + (r + t);
      DivModIs(a + m, n, q + p, r + t);
    } else {
      assert a + m == (q + p + 1) * n + (r + t - n);
      DivModIs(a + m, n, q + p + 1, r + t - n);
    }
  }

  /** A difference of quotients is the quotient of the difference, rounded down or up. */
  lemma DivDifference(a: int, m: int, n: int)
    requires n > 0
    ensures m / n <= (a + m) / n - a / n <= (m + n - 1) / n
  {
    DivSum(a, m, n);
    DivSum(m, n - 1, n);
    DivModIs(n - 1, n, 0, n - 1);
  }

  lemma ModShift(a: int, n: int, k: int)
    requires n > 0 && k % n == 0
    ensures (a + k) % n == a % n
  {
    var q, r, p := a / n, a % n, k / n;
    assert a == q * n + r && k == p * n;
    assert a + k == (q + p) * n + r;
    DivModIs(a + k, n, q + p, r);
  }

  /** Fewer than n apart, two numbers differ modulo n. */
  lemma ModApart(a: int, b: int, n: int)
    requires n > 0 && a < b < a + n
    ensures a % n != b % n
  {
    var q, r := a / n, a % n;
    assert a == q * n + r;
    var d := b - a;
    if r + d < n {
      DivModIs(b, n, q, r + d);
    } else {
      assert b == (q + 1) * n + (r + d - n);
      DivModIs(b, n, q + 1, r + d - n);
    }
  }
}

/** The order in which a request looks at the backends, in uint64 arithmetic. */
module RoundRobin {
  import opened Division

  const WORD: int := 0x1_0000_0000_0000_0000

  /** The backend the i-th iteration looks at: uint64 arithmetic. */
  function Index(n: int, start: int, i: int): (b: int)
    requires n > 0
    ensures 0 <= b < n
  {
    ((start + i) % WORD) % n
  }

  /** The backends a request that drew the counter value `start` looks at. */
  function Order(n: int, start: int): (r: seq<int>)
    requires n > 0
    ensures |r| == n && forall i :: 0 <= i < n ==> 0 <= r[i] < n && r[i] == Index(n, start, i)
  {
    seq(n, i requires 0 <= i < n => Index(n, start, i))
  }

  /** Each iteration looks at the next backend, and each request starts one further, unless the
      counter wraps in between. */
  lemma NextIsNeighbour(n: int, start: int, i: int)
    requires n > 0 && 0 <= start && 0 <= i && start + i + 1 < WORD
    ensures Index(n, start, 0) == start % n
    ensures Index(n, start, i + 1) == (if Index(n, start, i) == n - 1 then 0 else Index(n, start, i) + 1)
    ensures Index(n, start + 1, i) == Index(n, start, i + 1)
  {
    UnwrappedIndex(n, start, 0);
    UnwrappedIndex(n, start, i);
    UnwrappedIndex(n, start, i + 1);
    UnwrappedIndex(n, start + 1, i);
    NextRemainder(n, start + i, start + i + 1);
  }

  lemma UnwrappedIndex(n: int, start: int, i: int)
    requires n > 0 && 0 <= start + i < WORD
    ensures Index(n, start, i) == (start + i) % n
  {
    DivModIs(start + i, WORD, 0, start + i);
  }

  lemma NextRemainder(n: int, a: int, b: int)
    requires n > 0 && a >= 0 && b == a + 1
    ensures b % n == if a % n == n - 1 then 0 else a % n + 1
  {
    DivNext(a, n);
  }

  // ---------------------------------------------------------------- which backends a scan visits

  ghost predicate VisitsEachOnce(n: int, start: int)
    requires n > 0
  {
    forall i, j :: 0 <= i < j < n ==> Index(n, start, i) != Index(n, start, j)
  }

  lemma NoWrapIsDistinct(n: int, start: int)
    requires 0 < n <= WORD && 0 <= start < WORD && (start + n <= WORD || WORD % n == 0)
    ensures VisitsEachOnce(n, start)
  {
    forall i, j | 0 <= i < j < n
      ensures Index(n, start, i) != Index(n, start, j)
    {
      IndexUnwrapped(n, start, i);
      IndexUnwrapped(n, start, j);
      ModApart(start + i, start + j, n);
    }
  }

  lemma IndexUnwrapped(n: int, start: int, i: int)
    requires 0 < n <= WORD && 0 <= start < WORD && 0 <= i < n && (start + n <= WORD || WORD % n == 0)
    ensures Index(n, start, i) == (start + i) % n
  {
    if start + i < WORD {
      DivModIs(start + i, WORD, 0, start + i);
    } else {
      DivModIs(start + i, WORD, 1, start + i - WORD);
      ModShift(start + i - WORD, n, WORD);
    }
  }

  /** When the counter wraps inside a scan and n does not divide 2^64, some backend is
      visited twice. */
  lemma WrapRepeats(n: int, start: int) returns (i: int, j: int)
    requires 0 < n <= WORD && 0 <= start < WORD && start + n > WORD && WORD % n != 0
    ensures 0 <= i < j < n && Index(n, start, i) == Index(n, start, j)
  {
    var w := WORD - start;
    var q, rem := WORD / n, WORD % n;
    assert WORD == q * n + rem;
    if rem - 1 <= n - w - 1 {
      i, j := w - 1, w + rem - 1;
      DivModIs(start + i, WORD, 0, WORD - 1);
      DivModIs(WORD - 1, n, q, rem - 1);
      DivModIs(start + j, WORD, 1, rem - 1);
      DivModIs(rem - 1, n, 0, rem - 1);
    } else {
      i, j := n - 1 - rem, n - 1;
      DivModIs(start + i, WORD, 0, start + i);
      assert start + i == q * n + (n - w - 1);
      DivModIs(start + i, n, q, n - w - 1);
      DivModIs(start + j, WORD, 1, n - w - 1);
      DivModIs(n - w - 1, n, 0, n - w - 1);
    }
  }

  /** A scan visits every backend once exactly when the counter does not wrap inside it, or
      the number of backends divides 2^64. */
  lemma VisitsEachOnceIff(n: int, start: int)
    requires 0 < n <= WORD && 0 <= start < WORD
    ensures VisitsEachOnce(n, start) <==> start + n <= WORD || WORD % n == 0
  {
    if start + n <= WORD || WORD % n == 0 {
      NoWrapIsDistinct(n, start);
    } else {
      var i, j := WrapRepeats(n, start);
    }
  }

  // ---------------------------------------------------------------- spread over requests

  function Count(bs: seq<int>, b: int): nat
    decreases |bs|
  {
    if bs == [] then 0 else Count(bs[..|bs| - 1], b) + if bs[|bs| - 1] == b then 1 else 0
  }

  /** The orders of m consecutive requests. */
  function Orders(n: int, start: int, m: nat): (r: seq<seq<int>>)
    requires n > 0
    ensures |r| == m && forall k :: 0 <= k < m ==> r[k] == Order(n, (start + k) % WORD)
  {
    seq(m, k requires 0 <= k < m => Order(n, (start + k) % WORD))
  }

  /** m things are spread over n places as evenly as can be, as far as this place is concerned. */
  predicate Even(count: int, m: int, n: int)
    requires n > 0
  {
    m / n <= count <= (m + n - 1) / n
  }

  /** The first backend of each of m consecutive requests. */
  function Firsts(n: int, start: int, m: nat): (r: seq<int>)
    requires n > 0
    ensures |r| == m && forall k :: 0 <= k < m ==> r[k] == Index(n, (start + k) % WORD, 0)
  {
    seq(m, k requires 0 <= k < m => Index(n, (start + k) % WORD, 0))
  }

  /** Modulo n, the wrapped counter is the unwrapped one if it did not wrap or n divides 2^64. */
  lemma CounterModulo(x: int, n: int)
    requires 0 < n <= WORD && 0 <= x && (x < WORD || WORD % n == 0)
    ensures Index(n, x % WORD, 0) == x % n
  {
    var q, r := x / WORD, x % WORD;
    assert (r + 0) % WORD == r;
    if x >= WORD {
      MultipleOf(q, WORD, n);
      ModShift(r, n, q * WORD);
      assert r + q * WORD == x;
    }
  }

  lemma MultipleOf(q: int, a: int, n: int)
    requires n > 0 && a % n == 0
    ensures (q * a) % n == 0
  {
    var p := a / n;
    assert a == p * n;
    assert q * a == (q * p) * n;
    DivModIs(q * a, n, q * p, 0);
  }

  lemma OneMoreHit(x: int, n: int, b: int)
    requires n > 0 && 0 <= b < n && x >= 0
    ensures (x + 1 + n - 1 - b) / n == (x + n - 1 - b) / n + if x % n == b then 1 else 0
  {
    DivNext(x + n - 1 - b, n);
    HitIff(x, n, b);
  }

  lemma HitIff(x: int, n: int, b: int)
    requires n > 0 && 0 <= b < n && x >= 0
    ensures (x + n - b) % n == 0 <==> x % n == b
  {
    var q, r := x / n, x % n;
    assert x == q * n + r;
    if r >= b {
      assert x + n - b == (q + 1) * n + (r - b);
      DivModIs(x + n - b, n, q + 1, r - b);
    } else {
      DivModIs(x + n - b, n, q, r + n - b);
    }
  }

  /** How often b comes up among m consecutive numbers modulo n. */
  lemma {:induction false} CountIs(bs: seq<int>, n: int, start: int, b: int)
    requires n > 0 && 0 <= b < n && 0 <= start && forall k :: 0 <= k < |bs| ==> bs[k] == (start + k) % n
    ensures Count(bs, b) == (start + |bs| + n - 1 - b) / n - (start + n - 1 - b) / n
    decreases |bs|
  {
    if bs != [] {
      CountIs(bs[..|bs| - 1], n, start, b);
      OneMoreHit(start + |bs| - 1, n, b);
    }
  }

  /** m consecutive counter values give every backend m/n first looks, rounded down or up, unless
      the counter wraps among them and n does not divide 2^64. */
  lemma FirstsAreFair(n: int, start: int, m: nat, b: int)
    requires 0 < n <= WORD && 0 <= b < n && 0 <= start && (start + m <= WORD || WORD % n == 0)
    ensures Even(Count(Firsts(n, start, m), b), m, n)
  {
    var bs := Firsts(n, start, m);
    forall k | 0 <= k < m ensures bs[k] == (start + k) % n {
      CounterModulo(start + k, n);
    }
    CountIs(bs, n, start, b);
    DivDifference(start + n - 1 - b, m, n);
  }

  lemma {:induction false} CountOnce(bs: seq<int>, b: int, j: nat)
    requires j < |bs| && bs[j] == b
    ensures Count(bs, b) >= 1
    decreases |bs|
  {
    if j < |bs| - 1 {
      CountOnce(bs[..|bs| - 1], b, j);
    }
  }

  lemma {:induction false} CountTwice(bs: seq<int>, b: int, j: nat, k: nat)
    requires j < k < |bs| && bs[j] == bs[k] == b
    ensures Count(bs, b) >= 2
    decreases |bs|
  {
    var p := bs[..|bs| - 1];
    if k < |p| {
      CountTwice(p, b, j, k);
    } else {
      CountOnce(p, b, j);
    }
  }

  /** Backend 0 is looked at first at the last multiple of n below 2^64 and again at the wrap. */
  lemma ZeroTwice(n: int)
    requires 0 < n <= WORD && WORD % n != 0
    ensures Index(n, (WORD - WORD % n) % WORD, 0) == 0 && Index(n, WORD % WORD, 0) == 0
  {
    var q, r := WORD / n, WORD % n;
    assert WORD - r == q * n + 0;
    DivModIs(WORD - r, n, q, 0);
    CounterModulo(WORD - r, n);
    CounterModulo(0, n);
  }

  lemma CeilingOfOne(m: int, n: int)
    requires 1 <= m <= n
    ensures (m + n - 1) / n == 1
  {
    DivModIs(m + n - 1, n, 1, m - 1);
  }

  /** Across the wrap, a stretch of at most n requests that gives backend 0 two of them. */
  lemma WrapIsUnfair(n: int) returns (start: int, m: nat)
    requires 0 < n <= WORD && WORD % n != 0
    ensures 0 <= start < WORD && !Even(Count(Firsts(n, start, m), 0), m, n)
  {
    var r := WORD % n;
    start, m := WORD - r, r + 1;
    ZeroTwice(n);
    var bs := Firsts(n, start, m);
    assert bs[0] == Index(n, (start + 0) % WORD, 0) && bs[r] == Index(n, (start + r) % WORD, 0);
    CountTwice(bs, 0, 0, r);
    CeilingOfOne(m, n);
  }
}
