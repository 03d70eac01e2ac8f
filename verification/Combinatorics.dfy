/** Factorials, binomials and the reference enumeration of increasing index sequences. */
module Combinatorics {

  function Fact(n: nat): (f: nat)
    ensures f >= 1
  {
    if n == 0 then 1 else n * Fact(n - 1)
  }

  /** The binomial coefficient, by Pascal's rule. */
  function Choose(n: nat, k: nat): nat {
    if k == 0 then 1
    else if n == 0 then 0
    else Choose(n - 1, k - 1) + Choose(n - 1, k)
  }

  function Pow(b: nat, e: nat): nat {
    if e == 0 then 1 else b * Pow(b, e - 1)
  }

  lemma {:induction false} ChooseOutside(n: nat, k: nat)
    requires k > n
    ensures Choose(n, k) == 0
  {
    if n > 0 {
      ChooseOutside(n - 1, k - 1);
      ChooseOutside(n - 1, k);
    }
  }

  lemma {:induction false} ChooseAll(n: nat)
    ensures Choose(n, n) == 1
  {
    if n > 0 {
      ChooseAll(n - 1);
      ChooseOutside(n - 1, n);
    }
  }

  /** Choose(n, k) * ((n-k)! * k!) = n!. */
  lemma {:induction false} ChooseFact(n: nat, k: nat)
    requires k <= n
    ensures Choose(n, k) * (Fact(n - k) * Fact(k)) == Fact(n)
  {
    if k == 0 {
    } else if k == n {
      ChooseAll(n);
    } else {
      var a, b := Choose(n - 1, k - 1), Choose(n - 1, k);
      ChooseFact(n - 1, k - 1);
      ChooseFact(n - 1, k);
      assert Fact(k) == k * Fact(k - 1);
      assert Fact(n - k) == (n - k) * Fact(n - k - 1);
      ChooseFactStep(a, b, Fact(n - k - 1), Fact(k - 1), Fact(n - 1), n, k);
    }
  }

  lemma {:induction false} ChooseFactStep(a: nat, b: nat, x: nat, y: nat, f: nat, n: nat, k: nat)
    requires 0 < k < n
    requires a * ((n - k) * x * y) == f
    requires b * (x * (k * y)) == f
    ensures (a + b) * ((n - k) * x * (k * y)) == n * f
  {
    calc {
      a * ((n - k) * x * (k * y));
      k * (a * ((n - k) * x * y));
      k * f;
    }
    calc {
      b * ((n - k) * x * (k * y));
      (n - k) * (b * (x * (k * y)));
      (n - k) * f;
    }
  }

  /** The quotient of factorials that the code computes is exact and is the binomial coefficient. */
  lemma {:induction false} ChooseIsQuotient(n: nat, k: nat)
    requires k <= n
    ensures Fact(n - k) * Fact(k) > 0
    ensures Fact(n) / (Fact(n - k) * Fact(k)) == Choose(n, k)
  {
    ChooseFact(n, k);
    ExactQuotient(Choose(n, k), Fact(n - k) * Fact(k), Fact(n));
  }

  lemma {:induction false} ExactQuotient(q: nat, d: nat, p: nat)
    requires d > 0 && q * d == p
    ensures p / d == q
  {
    SameQuotient(q, p / d, d, 0, p % d);
  }

  lemma {:induction false} SameQuotient(q: nat, m: int, d: nat, r: nat, s: nat)
    requires q * d + r == m * d + s && r < d && s < d
    ensures q == m && r == s
  {
    assert (q - m) * d == s - r;
    MultipleOf(q - m, d);
  }

  lemma {:induction false} MultipleOf(x: int, d: nat)
    ensures x >= 1 ==> x * d >= d
    ensures x <= -1 ==> x * d + d <= 0
  {
    if x >= 1 {
      assert (x - 1) * d >= 0;
    } else if x <= -1 {
      assert (-1 - x) * d >= 0;
    }
  }

  // ---------- sequences of positions ----------

  ghost predicate Increasing(c: seq<nat>) {
    forall i, j :: 0 <= i < j < |c| ==> c[i] < c[j]
  }

  ghost predicate Distinct(c: seq<nat>) {
    forall i, j :: 0 <= i < j < |c| ==> c[i] != c[j]
  }

  /** lo, lo + 1, ..., lo + k - 1 */
  function Interval(lo: nat, k: nat): (s: seq<nat>)
    ensures |s| == k && forall j :: 0 <= j < k ==> s[j] == lo + j
  {
    seq(k, j requires 0 <= j => lo + j)
  }

  lemma {:induction false} IntervalCons(lo: nat, k: nat)
    requires k > 0
    ensures Interval(lo, k) == [lo] + Interval(lo + 1, k - 1)
  {
  }

  function Identity(n: nat): (s: seq<nat>)
    ensures |s| == n && forall j :: 0 <= j < n ==> s[j] == j
  {
    Interval(0, n)
  }

  ghost predicate LexLess(c: seq<nat>, d: seq<nat>) {
    exists p :: 0 <= p < |c| && p < |d| && c[..p] == d[..p] && c[p] < d[p]
  }

  lemma {:induction false} LexPrefixed(x: nat, c: seq<nat>, d: seq<nat>)
    requires LexLess(c, d)
    ensures LexLess([x] + c, [x] + d)
  {
    var p :| 0 <= p < |c| && p < |d| && c[..p] == d[..p] && c[p] < d[p];
    assert ([x] + c)[..p + 1] == [x] + c[..p] == [x] + d[..p] == ([x] + d)[..p + 1];
    assert ([x] + c)[p + 1] < ([x] + d)[p + 1];
  }

  lemma {:induction false} LexIrreflexive(c: seq<nat>)
    ensures !LexLess(c, c)
  {
  }
}
