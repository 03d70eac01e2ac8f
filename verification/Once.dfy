/**
 * The Once token (token/lists/once.go): unranking of permutations through the factorial number
 * system, and the in-place removal that keeps the order of the remaining tokens.
 */
module Onces {
  import opened Combinatorics

  // ---------- the reference unranking ----------

  function Without(rest: seq<nat>, t: nat): (r: seq<nat>)
    requires t < |rest|
    ensures |r| == |rest| - 1
  {
    rest[..t] + rest[t + 1..]
  }

  lemma {:induction false} QuotientBelow(i: nat, n: nat, split: nat)
    requires split > 0 && i < n * split
    ensures i / split < n && i % split < split
  {
    var q := i / split;
    assert (q - n) * split < 0;
    MultipleOf(q - n, split);
  }

  /** The i-th arrangement of `rest`: i / (|rest|-1)! picks the head, the remainder the tail. */
  function Unrank(rest: seq<nat>, i: nat): (v: seq<nat>)
    requires i < Fact(|rest|)
    ensures |v| == |rest|
    decreases |rest|
  {
    if rest == [] then []
    else
      var split := Fact(|rest| - 1);
      QuotientBelow(i, |rest|, split);
      [rest[i / split]] + Unrank(Without(rest, i / split), i % split)
  }

  /** The position of the first x in rest. */
  function IndexOf(rest: seq<nat>, x: nat): (t: nat)
    requires x in rest
    ensures t < |rest| && rest[t] == x
  {
    if rest[0] == x then 0 else 1 + IndexOf(rest[1..], x)
  }

  /** v arranges exactly the elements of rest. */
  ghost predicate Arranges(v: seq<nat>, rest: seq<nat>) {
    multiset(v) == multiset(rest)
  }

  lemma {:induction false} HeadIn(rest: seq<nat>, v: seq<nat>)
    requires Arranges(v, rest) && rest != []
    ensures |v| == |rest| && v[0] in rest
  {
    assert |multiset(v)| == |multiset(rest)|;
    assert v[0] in multiset(v);
  }

  lemma {:induction false} ArrangesTail(rest: seq<nat>, v: seq<nat>, t: nat)
    requires Arranges(v, rest) && t < |rest| && |v| > 0 && rest[t] == v[0]
    ensures Arranges(v[1..], Without(rest, t))
  {
    assert v == [v[0]] + v[1..];
    assert rest == rest[..t] + [rest[t]] + rest[t + 1..];
    assert multiset(v[1..]) == multiset(v) - multiset{v[0]};
    assert multiset(Without(rest, t)) == multiset(rest) - multiset{rest[t]};
  }

  lemma {:induction false} UnrankArranges(rest: seq<nat>, i: nat)
    requires i < Fact(|rest|)
    ensures Arranges(Unrank(rest, i), rest)
    decreases |rest|
  {
    if rest != [] {
      var split := Fact(|rest| - 1);
      QuotientBelow(i, |rest|, split);
      var t := i / split;
      UnrankArranges(Without(rest, t), i % split);
      assert rest == rest[..t] + [rest[t]] + rest[t + 1..];
    }
  }

  lemma {:induction false} IncreasingWithout(rest: seq<nat>, t: nat)
    requires Increasing(rest) && t < |rest|
    ensures Increasing(Without(rest, t))
  {
  }

  lemma {:induction false} DivMod(x: nat, split: nat)
    requires split > 0
    ensures (x / split) * split + x % split == x
  {
  }

  lemma {:induction false} BelowProduct(t: nat, r: nat, split: nat, n: nat)
    requires r < split && t < n
    ensures t * split + r < n * split
  {
    MultipleOf(n - t, split);
    assert (n - t) * split == n * split - t * split;
  }

  lemma {:induction false} Recompose(t: nat, r: nat, split: nat, n: nat)
    requires r < split && t < n
    ensures t * split + r < n * split
    ensures (t * split + r) / split == t && (t * split + r) % split == r
  {
    var x := t * split + r;
    DivMod(x, split);
    SameQuotient(t, x / split, split, r, x % split);
    BelowProduct(t, r, split, n);
  }

  lemma {:induction false} UnrankCons(rest: seq<nat>, t: nat, r: nat)
    requires t < |rest| && r < Fact(|rest| - 1)
    ensures t * Fact(|rest| - 1) + r < Fact(|rest|)
    ensures Unrank(rest, t * Fact(|rest| - 1) + r) == [rest[t]] + Unrank(Without(rest, t), r)
  {
    Recompose(t, r, Fact(|rest| - 1), |rest|);
  }

  /** Every arrangement has an index. */
  lemma {:induction false} UnrankHits(rest: seq<nat>, v: seq<nat>) returns (i: nat)
    requires Arranges(v, rest)
    ensures i < Fact(|rest|) && Unrank(rest, i) == v
    decreases |rest|
  {
    if rest == [] {
      assert |multiset(v)| == |multiset(rest)|;
      i := 0;
    } else {
      HeadIn(rest, v);
      var t := IndexOf(rest, v[0]);
      ArrangesTail(rest, v, t);
      var r := UnrankHits(Without(rest, t), v[1..]);
      UnrankCons(rest, t, r);
      i := t * Fact(|rest| - 1) + r;
    }
  }

  lemma {:induction false} QuotientMonotone(i: nat, j: nat, split: nat)
    requires i < j && split > 0
    ensures i / split < j / split || (i / split == j / split && i % split < j % split)
  {
    var a, b := i / split, j / split;
    assert i == a * split + i % split && j == b * split + j % split;
    assert (a - b) * split < split;
    MultipleOf(a - b, split);
  }

  lemma {:induction false} UnrankLex(rest: seq<nat>, i: nat, j: nat)
    requires i < j < Fact(|rest|) && Increasing(rest)
    ensures LexLess(Unrank(rest, i), Unrank(rest, j))
    decreases |rest|
  {
    var split := Fact(|rest| - 1);
    QuotientBelow(i, |rest|, split);
    QuotientBelow(j, |rest|, split);
    QuotientMonotone(i, j, split);
    var t := i / split;
    var u, v := Unrank(rest, i), Unrank(rest, j);
    if t == j / split {
      IncreasingWithout(rest, t);
      UnrankLex(Without(rest, t), i % split, j % split);
      LexPrefixed(rest[t], Unrank(Without(rest, t), i % split), Unrank(Without(rest, t), j % split));
    } else {
      assert u[..0] == v[..0] && u[0] < v[0];
    }
  }

  lemma {:induction false} UnrankZero(rest: seq<nat>)
    ensures Unrank(rest, 0) == rest
    decreases |rest|
  {
    if rest != [] {
      UnrankZero(Without(rest, 0));
    }
  }

  /** values is a permutation of 0..n-1. */
  ghost predicate IsPermutation(values: seq<nat>, n: nat) {
    && |values| == n
    && Distinct(values)
    && forall j :: 0 <= j < n ==> values[j] < n
  }

  ghost function Elements(s: seq<nat>): set<nat> {
    set x | x in s
  }

  lemma {:induction false} DistinctElements(s: seq<nat>)
    requires Distinct(s)
    ensures |Elements(s)| == |s|
  {
    if s != [] {
      var t := s[1..];
      DistinctElements(t);
      assert {s[0]} * Elements(t) == {};
      assert Elements(s) == {s[0]} + Elements(t) by {
        assert s == [s[0]] + t;
      }
    }
  }

  lemma {:induction false} DistinctOccurrences(s: seq<nat>, x: nat)
    requires Distinct(s)
    ensures multiset(s)[x] == if x in s then 1 else 0
  {
    if s != [] {
      var t := s[1..];
      DistinctOccurrences(t, x);
      assert s == [s[0]] + t;
      assert x in s <==> x == s[0] || x in t;
    }
  }

  /** n different numbers below n are all the numbers below n. */
  lemma {:induction false} PermutationHits(values: seq<nat>, n: nat)
    requires IsPermutation(values, n)
    ensures forall j :: 0 <= j < n ==> j in values
  {
    var id := Identity(n);
    DistinctElements(values);
    DistinctElements(id);
    var a, b := Elements(values), Elements(id);
    forall x | x in a ensures x in b { assert id[x] == x; }
    SubsetOfSameSize(a, b);
    forall j | 0 <= j < n ensures j in values {
      assert id[j] in b;
      assert j in a;
    }
  }

  lemma {:induction false} SubsetOfSameSize(a: set<nat>, b: set<nat>)
    requires a <= b && |a| == |b|
    ensures a == b
  {
    assert |b - a| == |b| - |a|;
  }

  lemma {:induction false} InIdentity(n: nat, x: nat)
    ensures x in Identity(n) <==> x < n
  {
    if x < n {
      assert Identity(n)[x] == x;
    }
  }

  lemma {:induction false} PermutationArranges(v: seq<nat>, n: nat)
    requires IsPermutation(v, n)
    ensures Arranges(v, Identity(n))
  {
    PermutationHits(v, n);
    forall x: nat ensures multiset(v)[x] == multiset(Identity(n))[x] {
      DistinctOccurrences(v, x);
      DistinctOccurrences(Identity(n), x);
      InIdentity(n, x);
    }
  }

  lemma {:induction false} ArrangesPermutation(v: seq<nat>, n: nat)
    requires Arranges(v, Identity(n))
    ensures IsPermutation(v, n)
  {
    assert |multiset(v)| == |multiset(Identity(n))|;
    forall x: nat ensures multiset(v)[x] <= 1 && (x in v ==> x < n) {
      DistinctOccurrences(Identity(n), x);
      InIdentity(n, x);
      assert x in v ==> x in multiset(v);
    }
    forall j | 0 <= j < n ensures v[j] < n {
      assert v[j] in v;
    }
    DistinctFromMultiset(v);
  }

  lemma {:induction false} DistinctFromMultiset(v: seq<nat>)
    requires forall x: nat :: multiset(v)[x] <= 1
    ensures Distinct(v)
  {
    forall i, j | 0 <= i < j < |v| ensures v[i] != v[j] {
      assert v == v[..i] + [v[i]] + v[i + 1..j] + [v[j]] + v[j + 1..];
      assert v[i] == v[j] ==> multiset(v)[v[i]] >= 2;
    }
  }

  /** Some permutation index yields v. */
  ghost predicate Reached(n: nat, v: seq<nat>) {
    exists i :: 0 <= i < Fact(n) && Unrank(Identity(n), i) == v
  }

  /**
   * Permutation indices 0..n!-1 and permutations of 0..n-1 correspond one to one, in strictly
   * increasing lexicographic order, starting with the identity.
   */
  lemma {:induction false} PermutationIsABijection(n: nat)
    ensures forall i :: 0 <= i < Fact(n) ==> IsPermutation(Unrank(Identity(n), i), n)
    ensures forall v :: IsPermutation(v, n) ==> Reached(n, v)
    ensures forall i, j :: 0 <= i < j < Fact(n) ==>
              LexLess(Unrank(Identity(n), i), Unrank(Identity(n), j))
              && Unrank(Identity(n), i) != Unrank(Identity(n), j)
    ensures Unrank(Identity(n), 0) == Identity(n)
  {
    var id := Identity(n);
    forall i | 0 <= i < Fact(n) ensures IsPermutation(Unrank(id, i), n) {
      UnrankArranges(id, i);
      ArrangesPermutation(Unrank(id, i), n);
    }
    forall v | IsPermutation(v, n) ensures Reached(n, v) {
      PermutationArranges(v, n);
      var i := UnrankHits(id, v);
    }
    forall i, j | 0 <= i < j < Fact(n)
      ensures LexLess(Unrank(id, i), Unrank(id, j)) && Unrank(id, i) != Unrank(id, j)
    {
      UnrankLex(id, i, j);
      LexIrreflexive(Unrank(id, i));
    }
    UnrankZero(id);
  }

  // ---------- removal ----------

  /** s without the entries equal to x. */
  function Removed<T(==)>(s: seq<T>, x: T): seq<T> {
    if s == [] then []
    else if s[0] == x then Removed(s[1..], x)
    else [s[0]] + Removed(s[1..], x)
  }

  lemma {:induction false} RemovedNothing<T>(s: seq<T>, x: T)
    requires x !in s
    ensures Removed(s, x) == s
  {
    if s != [] {
      assert s[0] in s && forall y :: y in s[1..] ==> y in s;
      RemovedNothing(s[1..], x);
    }
  }

  lemma {:induction false} RemovedSkip<T>(s: seq<T>, i: nat, x: T)
    requires i < |s| && s[i] == x
    ensures Removed(s[..i] + s[i + 1..], x) == Removed(s, x)
  {
    var t := s[..i] + s[i + 1..];
    if i == 0 {
      assert t == s[1..];
    } else {
      RemovedSkip(s[1..], i - 1, x);
      assert t[1..] == s[1..][..i - 1] + s[1..][i..];
    }
  }

  function Drop<T>(s: seq<T>, i: nat): (r: seq<T>)
    requires i < |s|
    ensures |r| == |s| - 1
    ensures forall j :: 0 <= j < i ==> r[j] == s[j]
    ensures forall j :: i <= j < |r| ==> r[j] == s[j + 1]
  {
    s[..i] + s[i + 1..]
  }

  /** The values that still follow the position `it` when it disappears move down by one. */
  function Renumber(x: nat, it: nat): nat {
    if x > it then x - 1 else x
  }

  lemma {:induction false} RenumberedIsPermutation(values: seq<nat>, i: nat, after: seq<nat>)
    requires IsPermutation(values, |values|) && i < |values|
    requires |after| == |values| - 1
    requires forall j :: 0 <= j < |after| ==> after[j] == Renumber(Drop(values, i)[j], values[i])
    ensures IsPermutation(after, |values| - 1)
  {
    var n, it, d := |values|, values[i], Drop(values, i);
    forall j | 0 <= j < |after| ensures d[j] != it && d[j] < n {
      assert d[j] == values[if j < i then j else j + 1];
    }
    forall x, y | 0 <= x < y < |after| ensures after[x] != after[y] {
      assert d[x] == values[if x < i then x else x + 1];
      assert d[y] == values[if y < i then y else y + 1];
    }
  }

  // ---------- the token ----------

  class Once<T(==)> {
    var tokens: seq<T>
    var values: seq<nat>

    ghost predicate Valid()
      reads this
    {
      IsPermutation(values, |tokens|)
    }

    /** The tokens in the order in which Get and String visit them. */
    ghost function Order(): (o: seq<T>)
      requires Valid()
      reads this
      ensures |o| == |tokens| && forall j :: 0 <= j < |o| ==> o[j] == tokens[values[j]]
    {
      var ts, vs := tokens, values;
      seq(|vs|, j requires 0 <= j < |vs| && vs[j] < |ts| => ts[vs[j]])
    }

    constructor (toks: seq<T>)
      requires |toks| > 0
      ensures Valid() && tokens == toks && Order() == toks
    {
      tokens := toks;
      values := Identity(|toks|);
    }

    /** once.go:103-111 */
    method Permutations() returns (sum: nat)
      ensures sum == Fact(|tokens|)
    {
      sum := Product(|tokens|);
    }

    static method Product(n: nat) returns (sum: nat)
      ensures sum == Fact(n)
    {
      sum := 1;
      var i := 2;
      while i <= n
        invariant 2 <= i
        invariant sum == Fact(if i <= n + 1 then i - 1 else n)
      {
        sum := sum * i;
        i := i + 1;
      }
    }

    /** once.go:56-101. An index out of bounds is refused and changes nothing. */
    method Permutation(index: nat) returns (ok: bool)
      requires Valid()
      modifies this`values
      ensures Valid()
      ensures ok == (index < Fact(|tokens|))
      ensures values == if ok then Unrank(Identity(|tokens|), index) else old(values)
    {
      var permutations := Permutations();
      if index >= permutations {
        return false;
      }
      UnrankArranges(Identity(|tokens|), index);
      values := Arrange(|tokens|, index);
      ArrangesPermutation(values, |tokens|);
      return true;
    }

    static method Arrange(le: nat, index: nat) returns (v: seq<nat>)
      requires index < Fact(le)
      ensures v == Unrank(Identity(le), index)
    {
      var rest := Identity(le);
      v := [];
      var i := index;
      var n := le;
      while n > 0
        invariant n == |rest| && 0 <= i < Fact(n)
        invariant v + Unrank(rest, i) == Unrank(Identity(le), index)
        decreases n
      {
        var pers := Product(n);
        ExactQuotient(Fact(n - 1), n, pers);
        var split := pers / n;
        QuotientBelow(i, n, split);
        var ti := i / split;
        i := i % split;

        v := v + [rest[ti]];
        rest := rest[..ti] + rest[ti + 1..];
        n := |rest|;
      }
    }

    /**
     * once.go:164-187: every occurrence of tok goes; the others keep their order, both in `tokens`
     * and in the order of the permutation.
     */
    method InternalLogicalRemove(tok: T) returns (keep: bool)
      requires Valid()
      modifies this
      ensures Valid()
      ensures Order() == Removed(old(Order()), tok)
      ensures tokens == Removed(old(tokens), tok)
      ensures keep == (tokens != [])
    {
      var i := 0;
      while i < |values|
        invariant 0 <= i <= |values| && Valid()
        invariant tok !in Order()[..i]
        invariant Removed(Order(), tok) == Removed(old(Order()), tok)
        invariant Removed(tokens, tok) == Removed(old(tokens), tok)
        decreases |values| - i
      {
        var it := values[i];
        if tokens[it] == tok {
          RemovedSkip(Order(), i, tok);
          RemovedSkip(tokens, it, tok);
          ghost var front := Order()[..i];
          RemoveAt(i);
          assert Order()[..i] == front;
        } else {
          assert Order()[..i + 1] == Order()[..i] + [tokens[it]];
          i := i + 1;
        }
      }
      assert Order()[..i] == Order();
      RemovedNothing(Order(), tok);
      OrderHasAll();
      RemovedNothing(tokens, tok);
      keep := |values| != 0;
    }

    lemma {:induction false} OrderHasAll()
      requires Valid()
      ensures forall t :: t in tokens ==> t in Order()
    {
      PermutationHits(values, |tokens|);
      forall t | t in tokens ensures t in Order() {
        var j :| 0 <= j < |tokens| && tokens[j] == t;
        assert j in values;
        var x :| 0 <= x < |values| && values[x] == j;
        assert Order()[x] == t;
      }
    }

    /** Remove the token at position i of the permutation, and renumber the values behind it. */
    method RemoveAt(i: nat)
      requires Valid() && i < |values|
      modifies this
      ensures Valid()
      ensures tokens == old(Drop(tokens, values[i]))
      ensures Order() == old(Drop(Order(), i))
    {
      ghost var was, toks := values, tokens;
      var it := values[i];
      tokens := tokens[..it] + tokens[it + 1..];
      values := values[..i] + values[i + 1..];
      ghost var dropped := values;

      var j := 0;
      while j < |values|
        invariant 0 <= j <= |values| == |dropped|
        invariant tokens == Drop(toks, it)
        invariant forall x :: 0 <= x < j ==> values[x] == Renumber(dropped[x], it)
        invariant forall x :: j <= x < |values| ==> values[x] == dropped[x]
      {
        if values[j] > it {
          values := values[j := values[j] - 1];
        }
        j := j + 1;
      }
      RenumberedIsPermutation(was, i, values);
      forall x | 0 <= x < |values| ensures Order()[x] == old(Drop(Order(), i))[x] {
        assert dropped[x] == was[if x < i then x else x + 1] != it;
      }
    }
  }
}
