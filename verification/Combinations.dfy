/**
 * The k-element combinations of 0..n-1 (token/lists/repeat.go:272-374): the reference list in
 * lexicographic order, what it contains, and the in-place generator proved to emit it.
 */
module Combinations {
  import opened Combinatorics

  // ---------- the reference enumeration ----------

  /** c picks |c| positions of lo..n-1, written in increasing order. */
  ghost predicate Picks(c: seq<nat>, lo: nat, n: nat) {
    && Increasing(c)
    && forall i :: 0 <= i < |c| ==> lo <= c[i] < n
  }

  ghost predicate LexSorted(cs: seq<seq<nat>>) {
    forall i, j :: 0 <= i < j < |cs| ==> LexLess(cs[i], cs[j])
  }

  function Prefixed(x: nat, cs: seq<seq<nat>>): (r: seq<seq<nat>>)
    ensures |r| == |cs| && forall i :: 0 <= i < |cs| ==> r[i] == [x] + cs[i]
  {
    seq(|cs|, i requires 0 <= i < |cs| => [x] + cs[i])
  }

  /** All increasing k-sequences over lo..n-1: first those that start with lo, then the others. */
  function Combos(lo: nat, n: nat, k: nat): seq<seq<nat>>
    decreases n - lo
  {
    if k == 0 then [[]]
    else if lo >= n then []
    else Prefixed(lo, Combos(lo + 1, n, k - 1)) + Combos(lo + 1, n, k)
  }

  lemma {:induction false} CombosCount(lo: nat, n: nat, k: nat)
    requires lo <= n
    ensures |Combos(lo, n, k)| == Choose(n - lo, k)
    decreases n - lo
  {
    if k != 0 && lo < n {
      CombosCount(lo + 1, n, k - 1);
      CombosCount(lo + 1, n, k);
    }
  }

  lemma {:induction false} CombosSound(lo: nat, n: nat, k: nat, i: nat)
    requires i < |Combos(lo, n, k)|
    ensures Picks(Combos(lo, n, k)[i], lo, n) && |Combos(lo, n, k)[i]| == k
    decreases n - lo
  {
    if k != 0 {
      var a := Combos(lo + 1, n, k - 1);
      if i < |a| {
        CombosSound(lo + 1, n, k - 1, i);
      } else {
        CombosSound(lo + 1, n, k, i - |a|);
      }
    }
  }

  lemma {:induction false} PicksTail(c: seq<nat>, lo: nat, n: nat)
    requires Picks(c, lo, n) && c != []
    ensures lo <= c[0] < n && Picks(c[1..], c[0] + 1, n) && Picks(c, c[0], n)
  {
    var t := c[1..];
    forall j | 0 <= j < |t| ensures c[0] + 1 <= t[j] < n {
      assert t[j] == c[j + 1];
    }
  }

  lemma {:induction false} CombosComplete(lo: nat, n: nat, c: seq<nat>)
    requires Picks(c, lo, n)
    ensures c in Combos(lo, n, |c|)
    decreases n - lo
  {
    if c != [] {
      PicksTail(c, lo, n);
      var a, b := Combos(lo + 1, n, |c| - 1), Combos(lo + 1, n, |c|);
      if c[0] == lo {
        CombosComplete(lo + 1, n, c[1..]);
        var i :| 0 <= i < |a| && a[i] == c[1..];
        assert (Prefixed(lo, a) + b)[i] == c;
      } else {
        CombosComplete(lo + 1, n, c);
        var i :| 0 <= i < |b| && b[i] == c;
        assert (Prefixed(lo, a) + b)[|a| + i] == c;
      }
    }
  }

  lemma {:induction false} CombosSorted(lo: nat, n: nat, k: nat, i: nat, j: nat)
    requires i < j < |Combos(lo, n, k)|
    ensures LexLess(Combos(lo, n, k)[i], Combos(lo, n, k)[j])
    decreases n - lo
  {
    if k != 0 {
      var a := Combos(lo + 1, n, k - 1);
      if j < |a| {
        CombosSorted(lo + 1, n, k - 1, i, j);
        LexPrefixed(lo, a[i], a[j]);
      } else if i >= |a| {
        CombosSorted(lo + 1, n, k, i - |a|, j - |a|);
      } else {
        var c, d := Combos(lo, n, k)[i], Combos(lo, n, k)[j];
        CombosSound(lo + 1, n, k, j - |a|);
        assert c[..0] == d[..0] && c[0] < d[0];
      }
    }
  }

  /** Every choice of k positions occurs, exactly once, and the list is in lexicographic order. */
  lemma {:induction false} CombosExactlyOnce(n: nat, k: nat, c: seq<nat>)
    ensures LexSorted(Combos(0, n, k))
    ensures (Picks(c, 0, n) && |c| == k) <==> c in Combos(0, n, k)
    ensures forall i, j :: 0 <= i < j < |Combos(0, n, k)| ==> Combos(0, n, k)[i] != Combos(0, n, k)[j]
  {
    var cs := Combos(0, n, k);
    forall i, j | 0 <= i < j < |cs| ensures LexLess(cs[i], cs[j]) {
      CombosSorted(0, n, k, i, j);
    }
    forall i, j | 0 <= i < j < |cs| ensures cs[i] != cs[j] {
      LexIrreflexive(cs[i]);
    }
    if Picks(c, 0, n) && |c| == k {
      CombosComplete(0, n, c);
    }
    if c in cs {
      var i :| 0 <= i < |cs| && cs[i] == c;
      CombosSound(0, n, k, i);
    }
  }

  // ---------- the successor of a combination ----------

  /** Position j holds the largest value it can hold in a combination of n. */
  ghost predicate Maxed(c: seq<nat>, n: nat, j: nat)
    requires j < |c|
  {
    c[j] == n - |c| + j
  }

  /** Position p is the last one that can still be raised. */
  ghost predicate Pivot(c: seq<nat>, n: nat, p: nat) {
    && p < |c|
    && !Maxed(c, n, p)
    && forall j :: p < j < |c| ==> Maxed(c, n, j)
  }

  /** c raised at position p, with the positions behind it reset to the values right after. */
  function Bump(c: seq<nat>, p: nat): (r: seq<nat>)
    requires p < |c|
    ensures |r| == |c|
  {
    c[..p] + Interval(c[p] + 1, |c| - p)
  }

  lemma {:induction false} CombosFirst(lo: nat, n: nat, k: nat)
    requires lo + k <= n
    ensures |Combos(lo, n, k)| > 0
    ensures Combos(lo, n, k)[0] == Interval(lo, k)
    decreases n - lo
  {
    if k != 0 {
      CombosFirst(lo + 1, n, k - 1);
      IntervalCons(lo, k);
    }
  }

  lemma {:induction false} CombosNone(lo: nat, n: nat, k: nat)
    requires lo + k > n && k > 0
    ensures Combos(lo, n, k) == []
    decreases n - lo
  {
    if lo < n {
      CombosNone(lo + 1, n, k);
      if k > 1 {
        CombosNone(lo + 1, n, k - 1);
      }
    }
  }

  lemma {:induction false} CombosLast(lo: nat, n: nat, k: nat)
    requires lo + k <= n
    ensures |Combos(lo, n, k)| > 0
    ensures Combos(lo, n, k)[|Combos(lo, n, k)| - 1] == Interval(n - k, k)
    decreases n - lo
  {
    if k != 0 {
      var a, b := Combos(lo + 1, n, k - 1), Combos(lo + 1, n, k);
      CombosLast(lo + 1, n, k - 1);
      if lo + 1 + k <= n {
        CombosLast(lo + 1, n, k);
      } else {
        CombosNone(lo + 1, n, k);
        IntervalCons(lo, k);
      }
    }
  }

  /** d is the successor of c: the pivot p raised, and everything behind it reset. */
  ghost predicate Step(c: seq<nat>, d: seq<nat>, n: nat, p: nat) {
    Pivot(c, n, p) && d == Bump(c, p)
  }

  lemma {:induction false} StepPrefixed(x: nat, t: seq<nat>, u: seq<nat>, n: nat, p: nat)
    requires Step(t, u, n, p)
    ensures Step([x] + t, [x] + u, n, p + 1)
  {
    forall j | p + 1 < j < |t| + 1 ensures Maxed([x] + t, n, j) {
      assert Maxed(t, n, j - 1);
    }
    assert Bump([x] + t, p + 1) == [x] + Bump(t, p);
  }

  /** From the last combination that starts with lo to the first one that does not. */
  lemma {:induction false} StepTurn(lo: nat, n: nat, k: nat)
    requires k > 0 && lo + 1 + k <= n
    ensures |Combos(lo + 1, n, k - 1)| > 0 && |Combos(lo + 1, n, k)| > 0
    ensures var t := Combos(lo + 1, n, k - 1)[|Combos(lo + 1, n, k - 1)| - 1];
            Step([lo] + t, Combos(lo + 1, n, k)[0], n, 0)
  {
    hide Combos, Interval;
    CombosLast(lo + 1, n, k - 1);
    CombosFirst(lo + 1, n, k);
    var c := [lo] + Interval(n - k + 1, k - 1);
    assert Pivot(c, n, 0);
    assert Bump(c, 0) == Interval(lo + 1, k);
  }

  lemma {:induction false} CombosAt(lo: nat, n: nat, k: nat, i: nat)
    requires k > 0 && i < |Combos(lo, n, k)|
    ensures lo < n && |Combos(lo, n, k)| == |Combos(lo + 1, n, k - 1)| + |Combos(lo + 1, n, k)|
    ensures var a := Combos(lo + 1, n, k - 1);
            Combos(lo, n, k)[i] == if i < |a| then [lo] + a[i] else Combos(lo + 1, n, k)[i - |a|]
  {
  }

  lemma {:induction false} CombosZero(lo: nat, n: nat)
    ensures Combos(lo, n, 0) == [[]]
  {
  }

  /** Consecutive entries of the list are successors of each other. */
  lemma {:induction false} CombosNext(lo: nat, n: nat, k: nat, m: nat) returns (p: nat)
    requires m + 1 < |Combos(lo, n, k)|
    ensures Step(Combos(lo, n, k)[m], Combos(lo, n, k)[m + 1], n, p)
    decreases n - lo
  {
    hide Combos, Bump, Pivot;
    CombosZero(lo, n);
    var a := Combos(lo + 1, n, k - 1);
    CombosAt(lo, n, k, m);
    CombosAt(lo, n, k, m + 1);
    if m + 1 < |a| {
      p := CombosNext(lo + 1, n, k - 1, m);
      StepPrefixed(lo, a[m], a[m + 1], n, p);
      p := p + 1;
    } else if m + 1 == |a| {
      if lo + 1 + k > n {
        CombosNone(lo + 1, n, k);
      }
      StepTurn(lo, n, k);
      p := 0;
    } else {
      p := CombosNext(lo + 1, n, k, m - |a|);
    }
  }

  // ---------- the generator ----------

  /**
   * The goroutine behind `combinations`. The receiver takes values from the channel and closes
   * `cancel` after `limit` of them; `ret` is everything it received.
   */
  method Generate(n: nat, k: nat, limit: nat) returns (ret: seq<seq<nat>>)
    requires k <= n
    ensures var all := Combos(0, n, k);
            ret == if limit < |all| then all[..limit] else all
  {
    hide Combos;
    ghost var all := Combos(0, n, k);
    CombosFirst(0, n, k);
    CombosZero(0, n);
    ret := [];
    var pos := new nat[k](i => i);
    assert pos[..] == all[0];

    label CYCLE:
    while true
      invariant |ret| < |all| && |ret| <= limit && |all[|ret|]| == k
      invariant ret == all[..|ret|]
      invariant pos[..] == all[|ret|]
      decreases |all| - |ret|
    {
      if |ret| == limit {
        return;
      }
      ghost var c := all[|ret|];
      CombosSound(0, n, k, |ret|);
      ret := ret + [pos[..]];

      // special case, of no elements to choose
      if k == 0 {
        break CYCLE;
      }
      var done := Advance(n, pos, c);
      AdvanceMeaning(n, k, |ret| - 1, pos[..], done);
      if done {
        break CYCLE;
      }
    }
  }

  lemma {:induction false} AdvanceMeaning(n: nat, k: nat, m: nat, after: seq<nat>, done: bool)
    requires 0 < k <= n && m < |Combos(0, n, k)|
    requires var c := Combos(0, n, k)[m];
             if done then forall j :: 0 <= j < |c| ==> Maxed(c, n, j)
             else exists p :: Step(c, after, n, p)
    ensures done <==> m + 1 == |Combos(0, n, k)|
    ensures !done ==> after == Combos(0, n, k)[m + 1] && |after| == k
  {
    var c := Combos(0, n, k)[m];
    CombosSound(0, n, k, m);
    if m + 1 == |Combos(0, n, k)| {
      CombosLast(0, n, k);
      assert forall j :: 0 <= j < k ==> Maxed(c, n, j);
    } else {
      var p := CombosNext(0, n, k, m);
    }
  }

  /**
   * One round of the CYCLE loop: move `pos` to the next combination in place, or report the end.
   */
  method Advance(n: nat, pos: array<nat>, ghost c: seq<nat>) returns (done: bool)
    requires 0 < pos.Length <= n && pos[..] == c && Picks(c, 0, n)
    modifies pos
    ensures done ==> forall j :: 0 <= j < |c| ==> Maxed(c, n, j)
    ensures !done ==> exists p :: Step(c, pos[..], n, p)
  {
    var k := pos.Length;
    PicksBelow(c, n);
    // increase the last element
    var j := k - 1;
    pos[j] := pos[j] + 1;

    if pos[j] != n {
      assert !Maxed(c, n, k - 1);
      assert Step(c, pos[..], n, k - 1);
      return false;
    }
    // increase from the back to the front
    while j != 0 && pos[j] == n
      invariant 0 <= j < k
      invariant pos[..j] == c[..j] && pos[j] == c[j] + 1
      invariant forall i :: j <= i < k ==> pos[i] == c[i] + 1
      invariant forall i :: j < i < k ==> Maxed(c, n, i)
      decreases j
    {
      assert Maxed(c, n, j);
      j := j - 1;
      pos[j] := pos[j] + 1;
    }

    // do we have an increasing order up to the highest value at the end?
    var top := n;
    var found := false;
    var i := k - 1;
    while i >= j
      invariant j - 1 <= i < k
      invariant top == n - (k - 1 - i)
      invariant forall x :: i < x < k ==> Maxed(c, n, x)
    {
      if pos[i] != top {
        found := true;
        break;
      }
      top := top - 1;
      i := i - 1;
    }
    if !found {
      if j == 0 {
        return true;
      } else {
        j := j - 1;
        pos[j] := pos[j] + 1;
      }
    }
    done := Settle(n, pos, j, c);
  }

  lemma {:induction false} PicksBelow(c: seq<nat>, n: nat)
    requires Picks(c, 0, n)
    ensures forall j :: 0 <= j < |c| ==> c[j] <= n - |c| + j
  {
    forall j | 0 <= j < |c| ensures c[j] <= n - |c| + j {
      PicksBelowAt(c, n, j);
    }
  }

  lemma {:induction false} PicksBelowAt(c: seq<nat>, n: nat, j: nat)
    requires Picks(c, 0, n) && j < |c|
    ensures c[j] <= n - |c| + j
    decreases |c| - j
  {
    if j + 1 < |c| {
      PicksBelowAt(c, n, j + 1);
      assert c[j] < c[j + 1];
    }
  }

  /**
   * The reset loop: position jj was just raised and everything behind it was at its maximum.
   * After each reset the last entry never exceeds n; when it equals n, an anterior position
   * has to be raised instead.
   */
  method Settle(n: nat, pos: array<nat>, start: nat, ghost c: seq<nat>) returns (done: bool)
    requires pos.Length == |c| <= n && start < |c|
    requires forall j :: 0 <= j < |c| ==> c[j] <= n - |c| + j
    requires pos[..start] == c[..start] && pos[start] == c[start] + 1
    requires forall i :: start < i < |c| ==> Maxed(c, n, i)
    modifies pos
    ensures done ==> forall j :: 0 <= j < |c| ==> Maxed(c, n, j)
    ensures !done ==> exists p :: Step(c, pos[..], n, p)
  {
    var k := pos.Length;
    var jj := start;
    while true
      invariant 0 <= jj < k
      invariant pos[..jj] == c[..jj] && pos[jj] == c[jj] + 1
      invariant forall i :: jj < i < k ==> Maxed(c, n, i)
      decreases jj
    {
      var j := jj;
      // reset values
      while j < k - 1
        invariant jj <= j < k
        invariant pos[..jj] == c[..jj]
        invariant forall i :: jj <= i <= j ==> pos[i] == c[jj] + 1 + (i - jj)
      {
        pos[j + 1] := pos[j] + 1;
        j := j + 1;
      }
      assert pos[k - 1] <= n;
      // if after a reset the last value is still too high
      if pos[k - 1] == n {
        assert Maxed(c, n, jj);
        if jj > 0 {
          // start from an anterior index
          jj := jj - 1;
          pos[jj] := pos[jj] + 1;
          continue;
        } else {
          return true;
        }
      }
      assert pos[..] == Bump(c, jj);
      assert Step(c, pos[..], n, jj);
      return false;
    }
  }
}
