/**
 * Configurations: a permutation index at each active token. Their number, and their rank in the
 * mixed-radix order in which the leftmost token of a sibling list is the fastest digit and a
 * token's own permutation is slower than everything below it.
 */
module Configurations {
  import opened Combinatorics
  import opened Grammars

  datatype Config = Config(digit: nat, kids: seq<Config>)

  // ---------- numbers of configurations ----------

  function Count(g: Grammar): nat
    decreases Height(g), 1, 0
  {
    CountBelow(g, if Permutations(g) < 0 then 0 else Permutations(g))
  }

  /** The configurations of g whose own permutation is below p. */
  function CountBelow(g: Grammar, p: nat): nat
    decreases Height(g), 0, p
  {
    if p == 0 then 0 else CountBelow(g, p - 1) + CountAt(g, p - 1)
  }

  /** The configurations of g whose own permutation is p. */
  function CountAt(g: Grammar, p: nat): nat
    decreases Height(g), 0, 0
  {
    KidsLower(g, p);
    CountKids(Kids(g, p))
  }

  function CountKids(ks: seq<Kid>): nat
    decreases KidsHeight(ks), 2, |ks|
  {
    if ks == [] then 1 else Count(ks[0].token) * CountKids(ks[1..])
  }

  // ---------- valid configurations and their ranks ----------

  ghost predicate ValidConfig(g: Grammar, c: Config)
    decreases c
  {
    c.digit < Permutations(g) && ValidKids(Kids(g, c.digit), c.kids)
  }

  ghost predicate ValidKids(ks: seq<Kid>, cs: seq<Config>)
    decreases cs
  {
    |ks| == |cs| && forall i :: 0 <= i < |cs| ==> ValidConfig(ks[i].token, cs[i])
  }

  ghost function Rank(g: Grammar, c: Config): nat
    decreases c
  {
    CountBelow(g, c.digit) + RankKids(Kids(g, c.digit), c.kids)
  }

  ghost function RankKids(ks: seq<Kid>, cs: seq<Config>): nat
    decreases cs
  {
    if cs == [] || ks == [] then 0
    else Rank(ks[0].token, cs[0]) + Count(ks[0].token) * RankKids(ks[1..], cs[1..])
  }

  lemma {:induction false} CountBelowMonotone(g: Grammar, p: nat, q: nat)
    requires p <= q
    ensures CountBelow(g, p) <= CountBelow(g, q)
    decreases q
  {
    if p < q {
      CountBelowMonotone(g, p, q - 1);
    }
  }

  /** A well-formed token has at least one configuration with each of its permutations. */
  lemma {:induction false} CountPositive(g: Grammar)
    requires WellFormed(g)
    ensures Count(g) >= 1
    ensures forall p: nat :: CountAt(g, p) >= 1
    decreases Height(g), 0
  {
    forall p: nat ensures CountAt(g, p) >= 1 {
      KidsLower(g, p);
      KidsAreSiblings(g, p);
      CountKidsPositive(Kids(g, p));
    }
    PermutationsPositive(g);
    CountBelowMonotone(g, 1, Permutations(g));
    assert CountBelow(g, 1) == CountBelow(g, 0) + CountAt(g, 0);
  }

  lemma {:induction false} CountKidsPositive(ks: seq<Kid>)
    requires WellFormedKids(ks)
    ensures CountKids(ks) >= 1
    decreases KidsHeight(ks), 1, |ks|
  {
    if ks != [] {
      CountPositive(ks[0].token);
      forall i | 0 <= i < |ks[1..]| ensures WellFormed(ks[1..][i].token) {
        assert ks[1..][i] == ks[i + 1];
      }
      CountKidsPositive(ks[1..]);
      PositiveProduct(Count(ks[0].token), CountKids(ks[1..]));
    }
  }

  lemma {:induction false} PositiveProduct(a: nat, b: nat)
    requires a >= 1 && b >= 1
    ensures a * b >= 1
  {
  }

  /** Rank 0 is the configuration in which every permutation is 0. */
  lemma {:induction false} RankZero(g: Grammar, c: Config)
    requires WellFormed(g) && Rank(g, c) == 0
    ensures c.digit == 0 && RankKids(Kids(g, 0), c.kids) == 0
  {
    CountPositive(g);
    assert CountBelow(g, 1) == CountBelow(g, 0) + CountAt(g, 0);
    CountBelowMonotone(g, if c.digit > 0 then 1 else 0, c.digit);
  }

  lemma {:induction false} RankKidsZero(ks: seq<Kid>, cs: seq<Config>)
    requires |ks| == |cs| > 0 && WellFormedKids(ks) && RankKids(ks, cs) == 0
    ensures Rank(ks[0].token, cs[0]) == 0 && RankKids(ks[1..], cs[1..]) == 0
  {
    CountPositive(ks[0].token);
    ZeroProduct(Count(ks[0].token), RankKids(ks[1..], cs[1..]));
  }

  lemma {:induction false} ZeroProduct(a: nat, b: nat)
    requires a >= 1 && a * b == 0
    ensures b == 0
  {
  }

  lemma {:induction false} DigitBound(a: nat, n: nat, r: nat, m: nat)
    requires a < n && r < m
    ensures a + n * r < n * m
  {
    assert n * (m - r - 1) >= 0;
    assert n * m == n * r + n + n * (m - r - 1);
  }

  lemma {:induction false} RankBound(g: Grammar, c: Config)
    requires ValidConfig(g, c)
    ensures Rank(g, c) < CountBelow(g, c.digit + 1) <= Count(g)
    decreases c
  {
    RankKidsBound(Kids(g, c.digit), c.kids);
    CountBelowMonotone(g, c.digit + 1, Permutations(g));
  }

  lemma {:induction false} RankKidsBound(ks: seq<Kid>, cs: seq<Config>)
    requires ValidKids(ks, cs)
    ensures RankKids(ks, cs) < CountKids(ks)
    decreases cs
  {
    if cs != [] {
      RankBound(ks[0].token, cs[0]);
      RankKidsBound(ks[1..], cs[1..]);
      DigitBound(Rank(ks[0].token, cs[0]), Count(ks[0].token),
                 RankKids(ks[1..], cs[1..]), CountKids(ks[1..]));
    }
  }

  /** Two valid configurations with the same rank are the same. */
  lemma {:induction false} RankInjective(g: Grammar, c: Config, d: Config)
    requires ValidConfig(g, c) && ValidConfig(g, d) && Rank(g, c) == Rank(g, d)
    ensures c == d
    decreases c
  {
    hide Kids, RankKids, CountBelow, Permutations;
    RankBound(g, c);
    RankBound(g, d);
    assert CountBelow(g, c.digit) <= Rank(g, c) < CountBelow(g, c.digit + 1);
    assert CountBelow(g, d.digit) <= Rank(g, d) < CountBelow(g, d.digit + 1);
    if c.digit < d.digit {
      CountBelowMonotone(g, c.digit + 1, d.digit);
    } else if d.digit < c.digit {
      CountBelowMonotone(g, d.digit + 1, c.digit);
    }
    assert c.digit == d.digit;
    RankKidsInjective(Kids(g, c.digit), c.kids, d.kids);
  }

  lemma {:induction false} RankKidsInjective(ks: seq<Kid>, cs: seq<Config>, ds: seq<Config>)
    requires ValidKids(ks, cs) && ValidKids(ks, ds) && RankKids(ks, cs) == RankKids(ks, ds)
    ensures cs == ds
    decreases cs
  {
    if cs != [] {
      var n := Count(ks[0].token);
      RankBound(ks[0].token, cs[0]);
      RankBound(ks[0].token, ds[0]);
      SameDigits(Rank(ks[0].token, cs[0]), RankKids(ks[1..], cs[1..]),
                 Rank(ks[0].token, ds[0]), RankKids(ks[1..], ds[1..]), n);
      RankInjective(ks[0].token, cs[0], ds[0]);
      RankKidsInjective(ks[1..], cs[1..], ds[1..]);
      assert cs == [cs[0]] + cs[1..] && ds == [ds[0]] + ds[1..];
    }
  }

  lemma {:induction false} SameDigits(a: nat, r: nat, b: nat, s: nat, n: nat)
    requires a + n * r == b + n * s && a < n && b < n
    ensures a == b && r == s
  {
    SameQuotient(r, s, n, a, b);
  }

  /** With head permutation p and the rest at rank r, the configurations up to there fit in the total. */
  lemma {:induction false} RankWithin(ks: seq<Kid>, p: nat, r: nat)
    requires 0 < |ks| && p < Permutations(ks[0].token) && r < CountKids(ks[1..])
    ensures CountBelow(ks[0].token, p) + CountAt(ks[0].token, p) + Count(ks[0].token) * r <= CountKids(ks)
  {
    CountBelowMonotone(ks[0].token, p + 1, Permutations(ks[0].token));
    var n, m := Count(ks[0].token), CountKids(ks[1..]);
    ProductWithin(CountBelow(ks[0].token, p + 1), n, r, m);
  }

  lemma {:induction false} ProductWithin(a: nat, n: nat, r: nat, m: nat)
    requires a <= n && r < m
    ensures a + n * r <= n * m
  {
    assert n * (m - r - 1) >= 0;
    assert n * m == n * r + n + n * (m - r - 1);
  }

  // ---------- steps of the mixed-radix counter ----------

  /** The head ran through all its configurations and the rest moved by one. */
  lemma {:induction false} RankCarry(ks: seq<Kid>, cs: seq<Config>, ds: seq<Config>)
    requires |ks| == |cs| == |ds| > 0
    requires Rank(ks[0].token, cs[0]) + 1 == Count(ks[0].token) && Rank(ks[0].token, ds[0]) == 0
    requires RankKids(ks[1..], ds[1..]) == RankKids(ks[1..], cs[1..]) + 1
    ensures RankKids(ks, ds) == RankKids(ks, cs) + 1
  {
    TimesSuccessor(Count(ks[0].token), RankKids(ks[1..], cs[1..]));
  }

  lemma {:induction false} TimesSuccessor(n: nat, r: nat)
    ensures n * (r + 1) == n * r + n
  {
  }

  /** Position i moved by one, everything to its left went from its last state to its first. */
  lemma {:induction false} RankCarryAt(ks: seq<Kid>, cs: seq<Config>, ds: seq<Config>, i: nat)
    requires |ks| == |cs| == |ds| && i < |ks|
    requires forall j :: 0 <= j < i ==>
               Rank(ks[j].token, cs[j]) + 1 == Count(ks[j].token) && Rank(ks[j].token, ds[j]) == 0
    requires Rank(ks[i].token, ds[i]) == Rank(ks[i].token, cs[i]) + 1
    requires forall j :: i < j < |ks| ==> ds[j] == cs[j]
    ensures RankKids(ks, ds) == RankKids(ks, cs) + 1
  {
    if i == 0 {
      assert ds[1..] == cs[1..];
    } else {
      RankCarryAt(ks[1..], cs[1..], ds[1..], i - 1);
      RankCarry(ks, cs, ds);
    }
  }

  /** The head is at its last state, and so is the rest. */
  lemma {:induction false} RankLast(ks: seq<Kid>, cs: seq<Config>)
    requires |ks| == |cs| > 0
    requires Rank(ks[0].token, cs[0]) + 1 == Count(ks[0].token)
    requires RankKids(ks[1..], cs[1..]) + 1 == CountKids(ks[1..])
    ensures RankKids(ks, cs) + 1 == CountKids(ks)
  {
    TimesSuccessor(Count(ks[0].token), RankKids(ks[1..], cs[1..]));
  }

  /** Every position is at its last state. */
  lemma {:induction false} RankAllLast(ks: seq<Kid>, cs: seq<Config>)
    requires |ks| == |cs|
    requires forall j :: 0 <= j < |ks| ==> Rank(ks[j].token, cs[j]) + 1 == Count(ks[j].token)
    ensures RankKids(ks, cs) + 1 == CountKids(ks)
  {
    if ks != [] {
      RankAllLast(ks[1..], cs[1..]);
      RankLast(ks, cs);
    }
  }

  lemma {:induction false} RankAllFirst(ks: seq<Kid>, cs: seq<Config>)
    requires |ks| == |cs|
    requires forall j :: 0 <= j < |ks| ==> Rank(ks[j].token, cs[j]) == 0
    ensures RankKids(ks, cs) == 0
  {
    if ks != [] {
      RankAllFirst(ks[1..], cs[1..]);
    }
  }

  // ---------- the configurations, token by token ----------

  /** What a token and what it shows can be set to. */
  ghost predicate IsState(g: Grammar, c: Config)
    decreases c
  {
    match g
    case Const(_) => c == Config(0, [])
    case CharClass(chars, ranges) => c.kids == [] && c.digit < |chars| + RangeSize(ranges)
    case Concat(ts) => c.digit == 0 && |c.kids| == |ts| && forall i :: 0 <= i < |ts| ==> IsState(ts[i], c.kids[i])
    case One(ts) => c.digit < |ts| && |c.kids| == 1 && IsState(ts[c.digit], c.kids[0])
    case Once(ts) =>
      && c.digit < Fact(|ts|) && |c.kids| == |ts|
      && forall i :: 0 <= i < |ts| ==> IsState(ts[PermutationOf(|ts|, c.digit)[i]], c.kids[i])
    case Optional(t) => c == Config(0, []) || (c.digit == 1 && |c.kids| == 1 && IsState(t, c.kids[0]))
    case Repeat(t, from, to) =>
      && from <= |c.kids| <= to && c.digit == |c.kids| - from
      && forall i :: 0 <= i < |c.kids| ==> IsState(t, c.kids[i])
    case Scope(t) => c.digit == 0 && |c.kids| == 1 && IsState(t, c.kids[0])
  }

  lemma {:induction false} ValidIsState(g: Grammar, c: Config)
    ensures ValidConfig(g, c) <==> IsState(g, c)
    decreases c
  {
    var ks := Kids(g, c.digit);
    if |ks| == |c.kids| {
      forall i | 0 <= i < |ks| ensures ValidConfig(ks[i].token, c.kids[i]) <==> IsState(ks[i].token, c.kids[i]) {
        ValidIsState(ks[i].token, c.kids[i]);
      }
    }
    hide Fact;
    match g
    case Const(_) =>
    case CharClass(_, _) =>
    case Concat(ts) =>
    case One(ts) =>
    case Once(ts) =>
    case Optional(t) =>
    case Repeat(t, from, to) =>
    case Scope(t) =>
  }

  // ---------- the order of the configurations ----------

  /** A token's own permutation counts most, then what it shows last. */
  ghost predicate ConfigBefore(c: Config, d: Config)
    decreases c
  {
    c.digit < d.digit || (c.digit == d.digit && KidsBefore(c.kids, d.kids))
  }

  ghost predicate KidsBefore(cs: seq<Config>, ds: seq<Config>)
    decreases cs
  {
    cs != [] && ds != []
    && (KidsBefore(cs[1..], ds[1..]) || (cs[1..] == ds[1..] && ConfigBefore(cs[0], ds[0])))
  }

  lemma {:induction false} BeforeRanks(g: Grammar, c: Config, d: Config)
    requires ValidConfig(g, c) && ValidConfig(g, d) && ConfigBefore(c, d)
    ensures Rank(g, c) < Rank(g, d)
    decreases c
  {
    hide CountBelow, Kids, Permutations;
    RankBound(g, c);
    if c.digit < d.digit {
      CountBelowMonotone(g, c.digit + 1, d.digit);
    } else {
      BeforeRanksAll(Kids(g, c.digit), c.kids, d.kids);
    }
  }

  lemma {:induction false} BeforeRanksAll(ks: seq<Kid>, cs: seq<Config>, ds: seq<Config>)
    requires ValidKids(ks, cs) && ValidKids(ks, ds) && KidsBefore(cs, ds)
    ensures RankKids(ks, cs) < RankKids(ks, ds)
    decreases cs
  {
    if KidsBefore(cs[1..], ds[1..]) {
      BeforeRanksAll(ks[1..], cs[1..], ds[1..]);
      RankBound(ks[0].token, cs[0]);
      DigitBound(Rank(ks[0].token, cs[0]), Count(ks[0].token), RankKids(ks[1..], cs[1..]), RankKids(ks[1..], ds[1..]));
    } else {
      BeforeRanks(ks[0].token, cs[0], ds[0]);
    }
  }

  lemma {:induction false} OneIsBefore(g: Grammar, c: Config, d: Config)
    requires ValidConfig(g, c) && ValidConfig(g, d) && c != d
    ensures ConfigBefore(c, d) || ConfigBefore(d, c)
    decreases c
  {
    if c.digit == d.digit {
      OneIsBeforeAll(Kids(g, c.digit), c.kids, d.kids);
    }
  }

  lemma {:induction false} OneIsBeforeAll(ks: seq<Kid>, cs: seq<Config>, ds: seq<Config>)
    requires ValidKids(ks, cs) && ValidKids(ks, ds) && cs != ds
    ensures KidsBefore(cs, ds) || KidsBefore(ds, cs)
    decreases cs
  {
    if cs[1..] != ds[1..] {
      OneIsBeforeAll(ks[1..], cs[1..], ds[1..]);
    } else {
      assert cs == [cs[0]] + cs[1..] && ds == [ds[0]] + ds[1..];
      OneIsBefore(ks[0].token, cs[0], ds[0]);
    }
  }

  /** The ranks follow that order. */
  lemma {:induction false} RankOrders(g: Grammar, c: Config, d: Config)
    requires ValidConfig(g, c) && ValidConfig(g, d)
    ensures Rank(g, c) < Rank(g, d) <==> ConfigBefore(c, d)
  {
    hide Rank, ConfigBefore;
    if ConfigBefore(c, d) { BeforeRanks(g, c, d); }
    if ConfigBefore(d, c) { BeforeRanks(g, d, c); }
    if c != d { OneIsBefore(g, c, d); }
  }
}
