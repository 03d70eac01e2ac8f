/**
 * The reductions of a Repeat token (token/lists/repeat.go:376-492): which items of the original
 * value each reduction index keeps.
 */
module Repeats {
  import opened Combinatorics
  import opened Combinations

  // ---------- the reference list of reductions ----------

  /** All choices of at least `size` of n positions: by size, and within a size lexicographically. */
  function Reductions(n: nat, size: nat): seq<seq<nat>>
    decreases n + 1 - size
  {
    if size > n then [] else Combos(0, n, size) + Reductions(n, size + 1)
  }

  /** The items of `items` at the positions of `sel`, in that order. */
  function Select<T>(items: seq<T>, sel: seq<nat>): (r: seq<T>)
    requires forall i :: 0 <= i < |sel| ==> sel[i] < |items|
    ensures |r| == |sel| && forall i :: 0 <= i < |sel| ==> r[i] == items[sel[i]]
  {
    seq(|sel|, i requires 0 <= i < |sel| => items[sel[i]])
  }

  lemma {:induction false} ReductionsSound(n: nat, size: nat, i: nat)
    requires i < |Reductions(n, size)|
    ensures Picks(Reductions(n, size)[i], 0, n) && size <= |Reductions(n, size)[i]| <= n
    decreases n + 1 - size
  {
    var a := Combos(0, n, size);
    if i < |a| {
      CombosSound(0, n, size, i);
    } else {
      ReductionsSound(n, size + 1, i - |a|);
    }
  }

  lemma {:induction false} PicksLength(c: seq<nat>, n: nat)
    requires Picks(c, 0, n)
    ensures |c| <= n
  {
    PicksBelow(c, n);
    if c != [] {
      assert c[0] <= n - |c|;
    }
  }

  lemma {:induction false} ReductionsComplete(n: nat, size: nat, c: seq<nat>)
    requires Picks(c, 0, n) && size <= |c|
    ensures c in Reductions(n, size)
    decreases n + 1 - size
  {
    PicksLength(c, n);
    if size == |c| {
      CombosComplete(0, n, c);
    } else {
      ReductionsComplete(n, size + 1, c);
    }
  }

  /** Smaller choices come first, and those of one size in lexicographic order; no choice is listed twice. */
  lemma {:induction false} ReductionsOrdered(n: nat, size: nat, i: nat, j: nat)
    requires i < j < |Reductions(n, size)|
    ensures |Reductions(n, size)[i]| <= |Reductions(n, size)[j]|
    ensures |Reductions(n, size)[i]| == |Reductions(n, size)[j]| ==>
        LexLess(Reductions(n, size)[i], Reductions(n, size)[j])
    ensures Reductions(n, size)[i] != Reductions(n, size)[j]
    decreases n + 1 - size
  {
    hide Combos, Picks;
    var a := Combos(0, n, size);
    if i < |a| {
      CombosSound(0, n, size, i);
    }
    if j < |a| {
      CombosSound(0, n, size, j);
      CombosSorted(0, n, size, i, j);
      LexIrreflexive(a[i]);
    } else {
      ReductionsSound(n, size + 1, j - |a|);
      if i >= |a| {
        ReductionsOrdered(n, size + 1, i - |a|, j - |a|);
      }
    }
  }

  lemma {:induction false} ReductionsLast(n: nat, size: nat)
    requires size <= n
    ensures |Reductions(n, size)| > 0
    ensures Reductions(n, size)[|Reductions(n, size)| - 1] == Identity(n)
    decreases n - size
  {
    hide Combos;
    CombosLast(0, n, size);
    if size < n {
      ReductionsLast(n, size + 1);
    } else {
      assert Reductions(n, n + 1) == [];
    }
  }

  /** The binomial coefficients of n from `size` on, added up. */
  function ChooseSum(n: nat, size: nat): nat
    decreases n + 1 - size
  {
    if size > n then 0 else Choose(n, size) + ChooseSum(n, size + 1)
  }

  lemma {:induction false} ReductionsCount(n: nat, size: nat)
    ensures |Reductions(n, size)| == ChooseSum(n, size)
    decreases n + 1 - size
  {
    if size <= n {
      CombosCount(0, n, size);
      ReductionsCount(n, size + 1);
    }
  }

  lemma {:induction false} ChooseSumPascal(n: nat, size: nat)
    requires size <= n + 1
    ensures ChooseSum(n + 1, size + 1) == ChooseSum(n, size) + ChooseSum(n, size + 1)
    decreases n + 1 - size
  {
    if size <= n {
      ChooseSumPascal(n, size + 1);
    }
    if size == n {
      ChooseOutside(n, n + 1);
    }
  }

  lemma {:induction false} ChooseSumAll(n: nat)
    ensures ChooseSum(n, 0) == Pow(2, n)
  {
    if n > 0 {
      ChooseSumAll(n - 1);
      ChooseSumPascal(n - 1, 0);
      assert ChooseSum(n, 0) == 1 + ChooseSum(n, 1);
      assert ChooseSum(n - 1, 0) == 1 + ChooseSum(n - 1, 1);
    }
  }

  /**
   * The reduction indices of an original value of n items are in bijection with the choices of at
   * least `from` of its positions; a larger index never keeps fewer items, choices of one size are in
   * lexicographic order, the last index keeps everything, and for from = 0 there are 2^n of them.
   */
  lemma {:induction false} ReduceIsABijection(n: nat, from: nat)
    requires from <= n
    ensures var rs := Reductions(n, from);
            && (forall i :: 0 <= i < |rs| ==> Picks(rs[i], 0, n) && from <= |rs[i]|)
            && (forall c :: Picks(c, 0, n) && from <= |c| ==> c in rs)
            && (forall i, j :: 0 <= i < j < |rs| ==> rs[i] != rs[j] && |rs[i]| <= |rs[j]|)
            && (forall i, j :: 0 <= i < j < |rs| && |rs[i]| == |rs[j]| ==> LexLess(rs[i], rs[j]))
            && |rs| > 0 && rs[|rs| - 1] == Identity(n)
            && (from == 0 ==> |rs| == Pow(2, n))
  {
    var rs := Reductions(n, from);
    forall i | 0 <= i < |rs| ensures Picks(rs[i], 0, n) && from <= |rs[i]| {
      ReductionsSound(n, from, i);
    }
    forall c | Picks(c, 0, n) && from <= |c| ensures c in rs {
      ReductionsComplete(n, from, c);
    }
    forall i, j | 0 <= i < j < |rs|
      ensures rs[i] != rs[j] && |rs[i]| <= |rs[j]| && (|rs[i]| == |rs[j]| ==> LexLess(rs[i], rs[j]))
    {
      ReductionsOrdered(n, from, i, j);
    }
    ReductionsLast(n, from);
    ReductionsCount(n, from);
    ChooseSumAll(n);
  }

  /** The first reduction keeps nothing if nothing has to be kept. */
  lemma {:induction false} NoneFirst<T>(n: nat, items: seq<T>)
    ensures |Combos(0, n, 0)| == 1 && |Reductions(n, 0)| > 0 && Reductions(n, 0)[0] == []
    ensures Select(items, []) == []
  {
  }

  // ---------- the counting code ----------

  /** repeat.go:438-448. The code has no answer for 0 (the decrement wraps), and is never asked. */
  method Factorial(n: nat) returns (c: nat)
    requires n >= 1
    ensures c == Fact(n)
  {
    c := n;
    var m := n - 1;
    while m > 0
      invariant 0 <= m < n
      invariant c * Fact(m) == Fact(n)
    {
      FactStep(c, m);
      c := c * m;
      m := m - 1;
    }
  }

  lemma {:induction false} FactStep(c: nat, m: nat)
    requires m > 0
    ensures c * Fact(m) == (c * m) * Fact(m - 1)
  {
  }

  /** repeat.go:450-477: how many reductions keep `from`, `from` + 1, ... of n items. */
  method ReduceCounts(n: nat, from: nat) returns (reduces: array<nat>)
    requires from <= n
    ensures fresh(reduces) && reduces.Length == n - from + 1
    ensures forall j :: 0 <= j < reduces.Length ==> reduces[j] == |Combos(0, n, from + j)|
  {
    var le := n - from + 1;
    reduces := new nat[le];
    var j, k := 0, from;
    if k == 0 {
      reduces[0] := 1;
      j, k := j + 1, k + 1;
    }
    while k < n
      invariant k == from + j && 0 < k && (k <= n || n == 0)
      invariant j <= le
      invariant forall x :: 0 <= x < j && from + x < n ==> reduces[x] == |Combos(0, n, from + x)|
    {
      var fn := Factorial(n);
      var fnk := Factorial(n - k);
      var fk := Factorial(k);
      ChooseIsQuotient(n, k);
      CombosCount(0, n, k);
      reduces[j] := fn / (fnk * fk);
      j, k := j + 1, k + 1;
    }
    reduces[le - 1] := 1;
    CombosCount(0, n, n);
    ChooseAll(n);
  }

  // ---------- the token ----------

  class Repeat<T> {
    const from: nat
    const to: nat
    var value: seq<T>
    var reducing: bool
    var reducingOriginalValue: seq<T>

    /** The value the reductions choose from. */
    ghost function Original(): seq<T>
      reads this
    {
      if reducing then reducingOriginalValue else value
    }

    /** A value was built by Permutation or Parse, so it holds at least `from` items. */
    ghost predicate Valid()
      reads this
    {
      from <= |Original()|
    }

    constructor (from: nat, to: nat, value: seq<T>)
      requires from <= |value|
      ensures Valid() && !reducing && this.value == value && this.from == from && this.to == to
    {
      this.from, this.to, this.value := from, to, value;
      reducing, reducingOriginalValue := false, [];
    }

    /** repeat.go:480-492 */
    method Reduces() returns (count: nat)
      requires Valid()
      ensures count == if reducing || from < |value| then |Reductions(|Original()|, from)| else 0
    {
      count := 0;
      if reducing || from < |value| {
        var n := if reducing then |reducingOriginalValue| else |value|;
        count := CountReductions(n);
      }
    }

    method CountReductions(n: nat) returns (count: nat)
      requires from <= n
      ensures count == |Reductions(n, from)|
    {
      var reduces := ReduceCounts(n, from);
      count := 0;
      var x := 0;
      while x < reduces.Length
        invariant 0 <= x <= reduces.Length
        invariant count + |Reductions(n, from + x)| == |Reductions(n, from)|
      {
        count := count + reduces[x];
        x := x + 1;
      }
    }

    /**
     * repeat.go:376-436. Out of bounds, nothing changes; otherwise the value becomes the items of
     * the original value that reduction i keeps.
     */
    method Reduce(i: nat) returns (ok: bool)
      requires Valid()
      modifies this
      ensures Valid()
      ensures ok == (1 < |Reductions(|old(Original())|, from)| && i < |Reductions(|old(Original())|, from)|)
      ensures Original() == old(Original())
      ensures !ok ==> value == old(value) && reducing == old(reducing)
      ensures ok ==> reducing
      ensures ok ==> var sel := Reductions(|Original()|, from)[i];
                     (forall x :: 0 <= x < |sel| ==> sel[x] < |Original()|) && value == Select(Original(), sel)
    {
      hide Combos, Picks, Select;
      var n := if reducing then |reducingOriginalValue| else |value|;
      var count := CountReductions(n);
      if count <= 1 || i >= count {
        return false;
      }
      if !reducing {
        reducing, reducingOriginalValue := true, value;
      }
      ok := true;
      ReductionsSound(n, from, i);

      var j, r := 0, i;
      if from == 0 {
        if r == 0 {
          value := [];
          NoneFirst(n, value);
          return;
        }
        NoneFirst(n, value);
        r, j := r - 1, j + 1;
      }
      var reduces := ReduceCounts(n, from);
      ghost var wanted := Reductions(n, from)[i];
      while j < reduces.Length && r >= reduces[j]
        invariant 0 <= j <= reduces.Length
        invariant 0 <= r < |Reductions(n, from + j)| && Reductions(n, from + j)[r] == wanted
      {
        r, j := r - reduces[j], j + 1;
      }
      assert j < reduces.Length;
      value := Pick(r, j + from);
    }

    /** The receiving end of `combinations`: take combinations until the wanted one, then cancel. */
    method Pick(i: nat, k: nat) returns (tokens: seq<T>)
      requires reducing && k <= |reducingOriginalValue|
      requires i < |Combos(0, |reducingOriginalValue|, k)|
      ensures var sel := Combos(0, |reducingOriginalValue|, k)[i];
              (forall x :: 0 <= x < |sel| ==> sel[x] < |reducingOriginalValue|)
              && tokens == Select(reducingOriginalValue, sel)
    {
      var n := |reducingOriginalValue|;
      var ch := Generate(n, k, i + 1);
      var sel := [];
      var r, x := i, 0;
      while x < |ch|
        invariant 0 <= x <= |ch| && r + x == i && 0 <= r
      {
        if r == 0 {
          sel := ch[x];
          break;
        }
        r, x := r - 1, x + 1;
      }
      CombosSound(0, n, k, i);
      assert sel == Combos(0, n, k)[i];
      tokens := [];
      var y := 0;
      while y < |sel|
        invariant 0 <= y <= |sel| == |Combos(0, n, k)[i]|
        invariant tokens == Select(reducingOriginalValue, sel[..y])
      {
        tokens := tokens + [reducingOriginalValue[sel[y]]];
        y := y + 1;
      }
      assert sel[..y] == sel;
    }
  }
}
