/**
 * The token tree of a format, and which child tokens are active under a permutation of a token.
 * Shared by the exhaustive strategy, the parser and the words of a format.
 */
module Grammars {
  import opened Combinatorics
  import opened Onces

  datatype Range = Range(from: char, to: char)

  datatype Grammar =
    | Const(text: string)
    | CharClass(chars: seq<char>, ranges: seq<Range>)
    | Concat(tokens: seq<Grammar>)
    | One(tokens: seq<Grammar>)
    | Once(tokens: seq<Grammar>)
    | Optional(token: Grammar)
    | Repeat(token: Grammar, from: nat, to: nat)
    | Scope(token: Grammar)

  function RangeSize(rs: seq<Range>): int {
    if rs == [] then 0 else rs[0].to as int - rs[0].from as int + 1 + RangeSize(rs[1..])
  }

  /** What the constructors of the tokens demand. */
  ghost predicate WellFormed(g: Grammar) {
    match g
    case Const(_) => true
    case CharClass(chars, ranges) =>
      && (|chars| > 0 || |ranges| > 0)
      && (forall i :: 0 <= i < |ranges| ==> ranges[i].from <= ranges[i].to)
    case Concat(ts) => |ts| > 0 && forall t :: t in ts ==> WellFormed(t)
    case One(ts) => |ts| > 0 && forall t :: t in ts ==> WellFormed(t)
    case Once(ts) => |ts| > 0 && forall t :: t in ts ==> WellFormed(t)
    case Optional(t) => WellFormed(t)
    case Repeat(t, from, to) => from <= to && WellFormed(t)
    case Scope(t) => WellFormed(t)
  }

  /** Token.Permutations: the number of states of the token itself. */
  function Permutations(g: Grammar): (n: int)
  {
    match g
    case CharClass(chars, ranges) => |chars| + RangeSize(ranges)
    case One(ts) => |ts|
    case Once(ts) => Fact(|ts|)
    case Optional(_) => 2
    case Repeat(_, from, to) => to - from + 1
    case _ => 1
  }

  lemma {:induction false} RangeSizePositive(rs: seq<Range>)
    requires forall i :: 0 <= i < |rs| ==> rs[i].from <= rs[i].to
    ensures RangeSize(rs) >= |rs|
  {
    if rs != [] {
      RangeSizePositive(rs[1..]);
    }
  }

  lemma {:induction false} PermutationsPositive(g: Grammar)
    requires WellFormed(g)
    ensures Permutations(g) >= 1
  {
    if g.CharClass? {
      RangeSizePositive(g.ranges);
    }
  }

  // ---------- heights, for recursion over active children ----------

  function Max(a: nat, b: nat): nat {
    if a > b then a else b
  }

  function Height(g: Grammar): (h: nat)
    ensures h >= 1
  {
    match g
    case Concat(ts) => 1 + HeightAll(ts)
    case One(ts) => 1 + HeightAll(ts)
    case Once(ts) => 1 + HeightAll(ts)
    case Optional(t) => 1 + Height(t)
    case Repeat(t, _, _) => 1 + Height(t)
    case Scope(t) => 1 + Height(t)
    case _ => 1
  }

  function HeightAll(ts: seq<Grammar>): nat {
    if ts == [] then 0 else Max(Height(ts[0]), HeightAll(ts[1..]))
  }

  lemma {:induction false} HeightAt(ts: seq<Grammar>, i: nat)
    requires i < |ts|
    ensures Height(ts[i]) <= HeightAll(ts)
  {
    if i > 0 {
      HeightAt(ts[1..], i - 1);
    }
  }

  // ---------- active children ----------

  /** An active child: the internal position it comes from, and the token there. */
  datatype Kid = Kid(slot: nat, token: Grammar)

  function PermutationOf(n: nat, p: nat): (v: seq<nat>)
    requires p < Fact(n)
    ensures IsPermutation(v, n)
  {
    UnrankArranges(Identity(n), p);
    ArrangesPermutation(Unrank(Identity(n), p), n);
    Unrank(Identity(n), p)
  }

  /** The permutations come in lexicographic order, so p is the number of those before. */
  lemma {:induction false} PermutationsInOrder(n: nat, p: nat, q: nat)
    requires p < q < Fact(n)
    ensures LexLess(PermutationOf(n, p), PermutationOf(n, q))
  {
    UnrankLex(Identity(n), p, q);
  }

  /** What Get (of a forward token) or Get(0..Len-1) (of a list token) returns at permutation p. */
  function Kids(g: Grammar, p: nat): seq<Kid> {
    match g
    case Concat(ts) => seq(|ts|, i requires 0 <= i < |ts| => Kid(i, ts[i]))
    case One(ts) => if p < |ts| then [Kid(p, ts[p])] else []
    case Once(ts) =>
      if p < Fact(|ts|) then
        var v := PermutationOf(|ts|, p);
        seq(|ts|, i requires 0 <= i < |ts| => Kid(v[i], ts[v[i]]))
      else []
    case Optional(t) => if p == 0 then [] else [Kid(0, t)]
    case Repeat(t, from, _) => seq(from + p, i requires 0 <= i => Kid(i, t))
    case Scope(t) => [Kid(0, t)]
    case _ => []
  }

  function KidsHeight(ks: seq<Kid>): nat {
    if ks == [] then 0 else Max(Height(ks[0].token), KidsHeight(ks[1..]))
  }

  lemma {:induction false} KidsHeightAt(ks: seq<Kid>, i: nat)
    requires i < |ks|
    ensures Height(ks[i].token) <= KidsHeight(ks)
  {
    if i > 0 {
      KidsHeightAt(ks[1..], i - 1);
    }
  }

  lemma {:induction false} KidsHeightBound(ks: seq<Kid>, h: nat)
    requires forall i :: 0 <= i < |ks| ==> Height(ks[i].token) <= h
    ensures KidsHeight(ks) <= h
  {
    if ks != [] {
      forall i | 0 <= i < |ks[1..]| ensures Height(ks[1..][i].token) <= h {
        assert ks[1..][i] == ks[i + 1];
      }
      KidsHeightBound(ks[1..], h);
    }
  }

  lemma {:induction false} KidTokenLower(g: Grammar, p: nat, i: nat)
    requires i < |Kids(g, p)|
    ensures Height(Kids(g, p)[i].token) < Height(g)
  {
    match g
    case Concat(ts) => HeightAt(ts, i);
    case One(ts) => HeightAt(ts, p);
    case Once(ts) =>
      var v := PermutationOf(|ts|, p);
      HeightAt(ts, v[i]);
    case _ =>
  }

  lemma {:induction false} KidsLower(g: Grammar, p: nat)
    ensures KidsHeight(Kids(g, p)) < Height(g)
  {
    forall i | 0 <= i < |Kids(g, p)| ensures Height(Kids(g, p)[i].token) <= Height(g) - 1 {
      KidTokenLower(g, p, i);
    }
    KidsHeightBound(Kids(g, p), Height(g) - 1);
  }

  // ---------- sibling lists ----------

  ghost predicate DistinctSlots(ks: seq<Kid>) {
    forall i, j :: 0 <= i < j < |ks| ==> ks[i].slot != ks[j].slot
  }

  ghost predicate WellFormedKids(ks: seq<Kid>) {
    forall i :: 0 <= i < |ks| ==> WellFormed(ks[i].token)
  }

  /** Siblings: well-formed tokens from pairwise different positions of one parent. */
  ghost predicate Siblings(ks: seq<Kid>) {
    DistinctSlots(ks) && WellFormedKids(ks)
  }

  lemma {:induction false} KidsAreSiblings(g: Grammar, p: nat)
    requires WellFormed(g)
    ensures Siblings(Kids(g, p))
  {
    var ks := Kids(g, p);
    match g
    case Once(ts) =>
      if p < Fact(|ts|) {
        var v := PermutationOf(|ts|, p);
        forall i | 0 <= i < |ks| ensures WellFormed(ks[i].token) { assert ts[v[i]] in ts; }
        forall i, j | 0 <= i < j < |ks| ensures ks[i].slot != ks[j].slot { assert v[i] != v[j]; }
      }
    case _ =>
  }
}
