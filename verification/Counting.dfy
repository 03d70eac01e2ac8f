/**
 * PermutationsAll (token/lists/repeat.go:162-179, once.go:113-122, one.go:87-96,
 * concatenation.go:76-85, constraints/optional.go:74-77, primitives/scope.go:54-57): the closed
 * form every token computes equals the number of its configurations.
 */
module Counting {
  import opened Combinatorics
  import opened Onces
  import opened Grammars
  import opened Configurations

  // ---------- sums and products over the tokens of a list ----------

  function ProductOf(ts: seq<Grammar>): nat {
    if ts == [] then 1 else Count(ts[0]) * ProductOf(ts[1..])
  }

  function SumOf(ts: seq<Grammar>): nat {
    if ts == [] then 0 else Count(ts[0]) + SumOf(ts[1..])
  }

  /** The product of the weights at the positions of v. */
  function ProductAt(w: seq<nat>, v: seq<nat>): nat {
    if v == [] then 1
    else (if v[0] < |w| then w[v[0]] else 1) * ProductAt(w, v[1..])
  }

  lemma {:induction false} ProductAtExtract(w: seq<nat>, rest: seq<nat>, t: nat)
    requires t < |rest|
    ensures ProductAt(w, rest) == (if rest[t] < |w| then w[rest[t]] else 1) * ProductAt(w, Without(rest, t))
  {
    if t == 0 {
      assert Without(rest, 0) == rest[1..];
    } else {
      ProductAtExtract(w, rest[1..], t - 1);
      assert Without(rest, t)[1..] == Without(rest[1..], t - 1);
      SwapFactors(if rest[0] < |w| then w[rest[0]] else 1, if rest[t] < |w| then w[rest[t]] else 1,
                  ProductAt(w, Without(rest[1..], t - 1)));
    }
  }

  lemma {:induction false} SwapFactors(a: nat, b: nat, c: nat)
    ensures a * (b * c) == b * (a * c)
  {
  }

  /** No arrangement of the positions changes the product. */
  lemma {:induction false} ProductAtUnrank(w: seq<nat>, rest: seq<nat>, i: nat)
    requires i < Fact(|rest|)
    ensures ProductAt(w, Unrank(rest, i)) == ProductAt(w, rest)
    decreases |rest|
  {
    if rest != [] {
      var split := Fact(|rest| - 1);
      QuotientBelow(i, |rest|, split);
      ProductAtUnrank(w, Without(rest, i / split), i % split);
      ProductAtExtract(w, rest, i / split);
      assert Unrank(rest, i)[1..] == Unrank(Without(rest, i / split), i % split);
    }
  }

  function Weights(ts: seq<Grammar>): (w: seq<nat>)
    ensures |w| == |ts| && forall i :: 0 <= i < |ts| ==> w[i] == Count(ts[i])
  {
    seq(|ts|, i requires 0 <= i < |ts| => Count(ts[i]))
  }

  function Tokens(ks: seq<Kid>): (ts: seq<Grammar>)
    ensures |ts| == |ks| && forall i :: 0 <= i < |ks| ==> ts[i] == ks[i].token
  {
    seq(|ks|, i requires 0 <= i < |ks| => ks[i].token)
  }

  lemma {:induction false} CountKidsProduct(ks: seq<Kid>)
    ensures CountKids(ks) == ProductOf(Tokens(ks))
  {
    if ks != [] {
      CountKidsProduct(ks[1..]);
      assert Tokens(ks[1..]) == Tokens(ks)[1..];
    }
  }

  /** The tokens picked by v, multiplied. */
  lemma {:induction false} CountKidsAt(ks: seq<Kid>, ts: seq<Grammar>, v: seq<nat>)
    requires |ks| == |v| && forall i :: 0 <= i < |v| ==> v[i] < |ts| && ks[i].token == ts[v[i]]
    ensures CountKids(ks) == ProductAt(Weights(ts), v)
  {
    if ks != [] {
      CountKidsAt(ks[1..], ts, v[1..]);
    }
  }

  lemma {:induction false} ProductAtShift(ts: seq<Grammar>, lo: nat, v: seq<nat>)
    requires lo + |v| == |ts| && forall i :: 0 <= i < |v| ==> v[i] == lo + i
    ensures ProductAt(Weights(ts), v) == ProductOf(ts[lo..])
    decreases |v|
  {
    if v != [] {
      ProductAtShift(ts, lo + 1, v[1..]);
    }
  }

  // ---------- the number of configurations of each kind of token ----------

  lemma {:induction false} CountConcat(ts: seq<Grammar>)
    ensures Count(Concat(ts)) == ProductOf(ts)
  {
    var g := Concat(ts);
    assert Permutations(g) == 1;
    assert Count(g) == CountBelow(g, 1) == CountBelow(g, 0) + CountAt(g, 0);
    CountKidsProduct(Kids(g, 0));
    assert Tokens(Kids(g, 0)) == ts;
  }

  lemma {:induction false} CountBelowOne(ts: seq<Grammar>, p: nat)
    requires p <= |ts|
    ensures CountBelow(One(ts), p) + SumOf(ts[p..]) == SumOf(ts)
  {
    if p > 0 {
      CountBelowOne(ts, p - 1);
      var ks := Kids(One(ts), p - 1);
      CountKidsProduct(ks);
      assert Tokens(ks) == [ts[p - 1]];
      assert ProductOf([ts[p - 1]]) == Count(ts[p - 1]) by { assert ProductOf([]) == 1; }
    } else {
      assert ts[0..] == ts;
    }
  }

  lemma {:induction false} CountOnceAt(ts: seq<Grammar>, p: nat)
    requires p < Fact(|ts|)
    ensures CountAt(Once(ts), p) == ProductOf(ts)
  {
    var id := Identity(|ts|);
    CountKidsAt(Kids(Once(ts), p), ts, PermutationOf(|ts|, p));
    ProductAtUnrank(Weights(ts), id, p);
    ProductAtShift(ts, 0, id);
    assert ts[0..] == ts;
  }

  lemma {:induction false} OneMore(p: nat, x: nat)
    requires p > 0
    ensures (p - 1) * x + x == p * x
  {
  }

  lemma {:induction false} CountBelowOnce(ts: seq<Grammar>, p: nat)
    requires p <= Fact(|ts|)
    ensures CountBelow(Once(ts), p) == p * ProductOf(ts)
  {
    hide Fact, ProductOf, CountAt;
    if p > 0 {
      CountBelowOnce(ts, p - 1);
      CountOnceAt(ts, p - 1);
      OneMore(p, ProductOf(ts));
    }
  }

  lemma {:induction false} CountOptional(t: Grammar)
    ensures Count(Optional(t)) == 1 + Count(t)
  {
    var g := Optional(t);
    assert Count(g) == CountBelow(g, 2) == CountBelow(g, 1) + CountAt(g, 1);
    assert CountBelow(g, 1) == CountBelow(g, 0) + CountAt(g, 0);
    CountKidsProduct(Kids(g, 1));
    CountKidsProduct(Kids(g, 0));
    assert Tokens(Kids(g, 1)) == [t];
    assert ProductOf([t]) == Count(t) by { assert ProductOf([]) == 1; }
  }

  lemma {:induction false} CountScope(t: Grammar)
    ensures Count(Scope(t)) == Count(t)
  {
    var g := Scope(t);
    assert Count(g) == CountBelow(g, 1) == CountBelow(g, 0) + CountAt(g, 0);
    CountKidsProduct(Kids(g, 0));
    assert Tokens(Kids(g, 0)) == [t];
    assert ProductOf([t]) == Count(t) by { assert ProductOf([]) == 1; }
  }

  lemma {:induction false} CountBelowLeaf(g: Grammar, p: nat)
    requires g.Const? || g.CharClass?
    ensures CountBelow(g, p) == p
  {
    if p > 0 {
      CountBelowLeaf(g, p - 1);
      assert CountAt(g, p - 1) == CountKids([]);
    }
  }

  lemma {:induction false} ProductOfSame(ts: seq<Grammar>, t: Grammar)
    requires forall i :: 0 <= i < |ts| ==> ts[i] == t
    ensures ProductOf(ts) == Pow(Count(t), |ts|)
  {
    if ts != [] {
      ProductOfSame(ts[1..], t);
    }
  }

  lemma {:induction false} CountRepeatAt(t: Grammar, from: nat, to: nat, p: nat)
    ensures CountAt(Repeat(t, from, to), p) == Pow(Count(t), from + p)
  {
    var ks := Kids(Repeat(t, from, to), p);
    CountKidsProduct(ks);
    ProductOfSame(Tokens(ks), t);
  }

  // ---------- the numbers of configurations in closed form ----------

  /** A class has its characters and those of its ranges; a Repeat has the sum of the powers from `from` to `to`. */
  function States(g: Grammar): nat {
    match g
    case Const(_) => 1
    case CharClass(chars, ranges) => |chars| + SpanOf(ranges)
    case Concat(ts) => ProductOfStates(ts)
    case One(ts) => SumOfStates(ts)
    case Once(ts) => Fact(|ts|) * ProductOfStates(ts)
    case Optional(t) => 1 + States(t)
    case Repeat(t, from, to) => PowerSum(States(t), from, to)
    case Scope(t) => States(t)
  }

  function ProductOfStates(ts: seq<Grammar>): nat {
    if ts == [] then 1 else States(ts[0]) * ProductOfStates(ts[1..])
  }

  function SumOfStates(ts: seq<Grammar>): nat {
    if ts == [] then 0 else States(ts[0]) + SumOfStates(ts[1..])
  }

  function SpanOf(rs: seq<Range>): nat {
    if rs == [] then 0
    else (if rs[0].from <= rs[0].to then rs[0].to as nat - rs[0].from as nat + 1 else 0) + SpanOf(rs[1..])
  }

  /** Pow(n, from) + ... + Pow(n, to) */
  function PowerSum(n: nat, from: nat, to: nat): nat
    decreases to
  {
    if to < from then 0 else Pow(n, to) + if to == 0 then 0 else PowerSum(n, from, to - 1)
  }

  lemma {:induction false} SpanIsRangeSize(rs: seq<Range>)
    requires forall i :: 0 <= i < |rs| ==> rs[i].from <= rs[i].to
    ensures RangeSize(rs) == SpanOf(rs)
  {
    if rs != [] {
      SpanIsRangeSize(rs[1..]);
    }
  }

  lemma {:induction false} CountRepeat(t: Grammar, from: nat, to: nat, top: nat)
    requires from <= top
    ensures CountBelow(Repeat(t, from, to), top - from + 1) == PowerSum(Count(t), from, top)
    decreases top
  {
    var g := Repeat(t, from, to);
    CountRepeatAt(t, from, to, top - from);
    assert CountBelow(g, top - from + 1) == CountBelow(g, top - from) + CountAt(g, top - from);
    if from < top {
      CountRepeat(t, from, to, top - 1);
    } else {
      assert top > 0 ==> PowerSum(Count(t), from, top - 1) == 0;
    }
  }

  lemma {:induction false} CountIsStates(g: Grammar)
    requires WellFormed(g)
    ensures Count(g) == States(g)
    decreases g, 0
  {
    hide Fact, Kids, CountKids, CountBelow, Count, Pow;
    match g
    case Const(_) => LeafStates(g);
    case CharClass(_, ranges) =>
      SpanIsRangeSize(ranges);
      LeafStates(g);
    case Concat(ts) =>
      CountConcat(ts);
      ListStates(ts);
    case One(ts) =>
      OneStates(ts);
      ListStates(ts);
    case Once(ts) =>
      OnceStates(ts);
      ListStates(ts);
    case Optional(t) =>
      CountOptional(t);
      CountIsStates(t);
    case Repeat(t, from, to) =>
      RepeatStates(t, from, to);
      CountIsStates(t);
    case Scope(t) =>
      CountScope(t);
      CountIsStates(t);
  }

  lemma {:induction false} LeafStates(g: Grammar)
    requires g.Const? || g.CharClass?
    ensures Permutations(g) >= 0 ==> Count(g) == Permutations(g)
  {
    if Permutations(g) >= 0 { CountBelowLeaf(g, Permutations(g)); }
  }

  lemma {:induction false} OneStates(ts: seq<Grammar>)
    ensures Count(One(ts)) == SumOf(ts)
  {
    CountBelowOne(ts, |ts|);
    assert SumOf(ts[|ts|..]) == 0;
  }

  lemma {:induction false} OnceStates(ts: seq<Grammar>)
    ensures Count(Once(ts)) == Fact(|ts|) * ProductOf(ts)
  {
    hide ProductOf, CountBelow;
    CountBelowOnce(ts, Fact(|ts|));
  }

  lemma {:induction false} RepeatStates(t: Grammar, from: nat, to: nat)
    requires from <= to
    ensures Count(Repeat(t, from, to)) == PowerSum(Count(t), from, to)
  {
    CountRepeat(t, from, to, to);
    hide CountBelow, PowerSum;
  }

  lemma {:induction false} ListStates(ts: seq<Grammar>)
    requires forall t :: t in ts ==> WellFormed(t)
    ensures ProductOf(ts) == ProductOfStates(ts) && SumOf(ts) == SumOfStates(ts)
    decreases ts, 1
  {
    hide Count;
    if ts != [] {
      assert ts[0] in ts && forall t :: t in ts[1..] ==> t in ts;
      CountIsStates(ts[0]);
      ListStates(ts[1..]);
    }
  }

  // ---------- the code ----------

  /** PermutationsAll of every kind of token. */
  method PermutationsAll(g: Grammar) returns (sum: nat)
    requires WellFormed(g)
    ensures sum == Count(g) == States(g)
    decreases g, 0
  {
    hide Fact, Kids, CountKids, CountBelow, States;
    PermutationsPositive(g);
    CountIsStates(g);
    match g
    case Const(_) =>
      sum := 1;
      CountBelowLeaf(g, 1);
    case CharClass(_, _) =>
      sum := Permutations(g);
      CountBelowLeaf(g, sum);
    case Concat(ts) =>
      sum := 1;
      var i := 0;
      while i < |ts|
        invariant 0 <= i <= |ts|
        invariant sum * ProductOf(ts[i..]) == ProductOf(ts)
      {
        var n := PermutationsAll(ts[i]);
        Regroup(sum, n, ProductOf(ts[i + 1..]));
        sum := sum * n;
        i := i + 1;
      }
      CountConcat(ts);
    case One(ts) =>
      sum := 0;
      var i := 0;
      while i < |ts|
        invariant 0 <= i <= |ts|
        invariant sum + SumOf(ts[i..]) == SumOf(ts)
      {
        var n := PermutationsAll(ts[i]);
        sum := sum + n;
        i := i + 1;
      }
      CountBelowOne(ts, |ts|);
    case Once(ts) =>
      sum := OncePermutationsAll(ts);
    case Optional(t) =>
      sum := PermutationsAll(t);
      sum := 1 + sum;
      CountOptional(t);
    case Repeat(t, from, to) =>
      sum := RepeatPermutationsAll(t, from, to);
    case Scope(t) =>
      sum := PermutationsAll(t);
      CountScope(t);
  }

  lemma {:induction false} Regroup(a: nat, b: nat, c: nat)
    ensures a * (b * c) == (a * b) * c
  {
  }

  lemma {:induction false} ProductOfSplit(ts: seq<Grammar>, i: nat)
    requires i < |ts|
    ensures ProductOf(ts[i..]) == Count(ts[i]) * ProductOf(ts[i + 1..])
  {
    assert ts[i..][1..] == ts[i + 1..];
  }

  lemma {:induction false} ProductOfNothing(ts: seq<Grammar>)
    ensures ts == [] ==> ProductOf(ts) == 1
  {
  }

  method OncePermutationsAll(ts: seq<Grammar>) returns (sum: nat)
    requires WellFormed(Once(ts))
    ensures sum == Count(Once(ts)) == Fact(|ts|) * ProductOfStates(ts)
    decreases ts, 1
  {
    OnceStates(ts);
    ListStates(ts);
    sum := Fact(|ts|);
    ghost var total := sum * ProductOf(ts);
    assert total == Count(Once(ts)) by { CountBelowOnce(ts, sum); }
    assert ts[0..] == ts;
    var i := 0;
    while i < |ts|
      invariant 0 <= i <= |ts|
      invariant sum * ProductOf(ts[i..]) == total
    {
      hide Fact, Count;
      assert ts[i] in ts;
      var n := PermutationsAll(ts[i]);
      ProductOfSplit(ts, i);
      Regroup(sum, n, ProductOf(ts[i + 1..]));
      sum := sum * n;
      i := i + 1;
    }
    ProductOfNothing(ts[i..]);
  }

  /** repeat.go:162-179; math.Pow is taken to be exact. */
  method RepeatPermutationsAll(t: Grammar, from: nat, to: nat) returns (sum: nat)
    requires from <= to && WellFormed(t)
    ensures sum == Count(Repeat(t, from, to)) == PowerSum(States(t), from, to)
    decreases t, 1
  {
    RepeatStates(t, from, to);
    CountIsStates(t);
    ghost var g := Repeat(t, from, to);
    sum := 0;
    var i := from;
    if from == 0 {
      sum := sum + 1;
      i := i + 1;
      CountRepeatAt(t, from, to, 0);
      assert CountBelow(g, 1) == CountBelow(g, 0) + CountAt(g, 0);
    }
    var tokenPermutations := PermutationsAll(t);
    while i <= to
      invariant from <= i <= to + 1
      invariant sum == CountBelow(g, i - from)
    {
      CountRepeatAt(t, from, to, i - from);
      sum := sum + Pow(tokenPermutations, i);
      i := i + 1;
      assert CountBelow(g, i - from) == CountBelow(g, i - from - 1) + CountAt(g, i - from - 1);
    }
  }
}
