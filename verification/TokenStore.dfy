/**
 * The mutable state of a token tree: the permutation last set at each position. A position is the
 * path of internal indices from the root, so it names one token object of the tree for the whole
 * run; a Repeat's clones live at positions 0, 1, ... below it.
 */
module TokenStores {
  import opened Grammars
  import opened Configurations

  type Path = seq<nat>
  type Store = map<Path, nat>

  function Digit(d: Store, a: Path): nat {
    if a in d then d[a] else 0
  }

  // ---------- frames ----------

  /** Nothing changed except strictly below q. */
  ghost predicate OnlyBelow(q: Path, d: Store, e: Store) {
    forall x: Path :: !(q < x) ==> Digit(d, x) == Digit(e, x)
  }

  /** Nothing changed except at a and below. */
  ghost predicate OnlyFrom(a: Path, d: Store, e: Store) {
    forall x: Path :: !(a <= x) ==> Digit(d, x) == Digit(e, x)
  }

  /** Nothing changed at a and below. */
  ghost predicate SameFrom(a: Path, d: Store, e: Store) {
    forall x: Path :: a <= x ==> Digit(d, x) == Digit(e, x)
  }

  lemma {:induction false} BelowChild(q: Path, s: nat, x: Path)
    requires q + [s] <= x
    ensures q < x && x[|q|] == s
  {
    assert q == (q + [s])[..|q|] == x[..|q|];
  }

  lemma {:induction false} ChildFrames(q: Path, s: nat, d: Store, e: Store)
    ensures OnlyFrom(q + [s], d, e) ==> OnlyBelow(q, d, e)
    ensures OnlyBelow(q + [s], d, e) ==> OnlyFrom(q + [s], d, e)
    ensures SameFrom(q, d, e) ==> SameFrom(q + [s], d, e)
  {
    if OnlyFrom(q + [s], d, e) {
      forall x: Path | !(q < x) ensures Digit(d, x) == Digit(e, x) {
        if q + [s] <= x { BelowChild(q, s, x); }
      }
    }
    if SameFrom(q, d, e) {
      forall x: Path | q + [s] <= x ensures Digit(d, x) == Digit(e, x) {
        BelowChild(q, s, x);
      }
    }
  }

  lemma {:induction false} SiblingFrames(q: Path, s: nat, t: nat, d: Store, e: Store)
    requires s != t && OnlyFrom(q + [s], d, e)
    ensures SameFrom(q + [t], d, e)
  {
    forall x: Path | q + [t] <= x ensures Digit(d, x) == Digit(e, x) {
      BelowChild(q, t, x);
      if q + [s] <= x { BelowChild(q, s, x); }
    }
  }

  // ---------- reading the configuration from the store ----------

  function ReadToken(g: Grammar, a: Path, d: Store): (c: Config)
    decreases Height(g), 0
  {
    KidsLower(g, Digit(d, a));
    Config(Digit(d, a), ReadKids(Kids(g, Digit(d, a)), a, d))
  }

  function ReadKids(ks: seq<Kid>, q: Path, d: Store): (cs: seq<Config>)
    ensures |cs| == |ks|
    decreases KidsHeight(ks), 1
  {
    seq(|ks|, i requires 0 <= i < |ks| =>
      (KidsHeightAt(ks, i); ReadToken(ks[i].token, q + [ks[i].slot], d)))
  }

  ghost predicate SameBelow(ks: seq<Kid>, q: Path, d: Store, e: Store) {
    forall i :: 0 <= i < |ks| ==> SameFrom(q + [ks[i].slot], d, e)
  }

  lemma {:induction false} ReadTokenSame(g: Grammar, a: Path, d: Store, e: Store)
    requires SameFrom(a, d, e)
    ensures ReadToken(g, a, d) == ReadToken(g, a, e)
    decreases Height(g), 0
  {
    KidsLower(g, Digit(d, a));
    assert Digit(d, a) == Digit(e, a);
    var ks := Kids(g, Digit(d, a));
    forall i | 0 <= i < |ks| ensures SameFrom(a + [ks[i].slot], d, e) {
      ChildFrames(a, ks[i].slot, d, e);
    }
    ReadKidsSame(ks, a, d, e);
  }

  lemma {:induction false} ReadKidsSame(ks: seq<Kid>, q: Path, d: Store, e: Store)
    requires SameBelow(ks, q, d, e)
    ensures ReadKids(ks, q, d) == ReadKids(ks, q, e)
    decreases KidsHeight(ks), 1
  {
    forall i | 0 <= i < |ks|
      ensures ReadToken(ks[i].token, q + [ks[i].slot], d) == ReadToken(ks[i].token, q + [ks[i].slot], e)
    {
      KidsHeightAt(ks, i);
      ReadTokenSame(ks[i].token, q + [ks[i].slot], d, e);
    }
  }
}
