/**
 * The exhaustive fuzzing strategy (fuzz/strategy/allpermutations.go:46-238). The Go method `fuzz`
 * has two modes; here fuzz(.., true) is Step and fuzz(.., false) is Emit, and the loop over the
 * levels behind the first one, which both modes share, is Carry.
 */
module AllPermutations {
  import opened Grammars
  import opened Configurations
  import opened Counting
  import opened TokenStores

  /** One level entry: a token (by its position), the permutation the strategy is at, its children. */
  datatype Level = Level(at: Path, token: Grammar, permutation: nat, children: seq<Level>)

  /** The level entry of a token whose tokens are in the states of c. */
  function LevelOf(g: Grammar, a: Path, c: Config): Level
    decreases c
  {
    Level(a, g, c.digit, LevelsOf(Kids(g, c.digit), a, c.kids))
  }

  function LevelsOf(ks: seq<Kid>, q: Path, cs: seq<Config>): (ls: seq<Level>)
    ensures |ks| == |cs| ==> |ls| == |ks|
    decreases cs
  {
    if |ks| != |cs| then []
    else seq(|cs|, i requires 0 <= i < |cs| => LevelOf(ks[i].token, q + [ks[i].slot], cs[i]))
  }

  // ---------- what a level list may look like while the store changes ----------

  /** The entries name the sibling tokens ks below q. */
  ghost predicate Names(tree: seq<Level>, ks: seq<Kid>, q: Path) {
    && |tree| == |ks|
    && forall i :: 0 <= i < |ks| ==> tree[i].at == q + [ks[i].slot] && tree[i].token == ks[i].token
  }

  /** Entry i agrees with the store, all the way down. */
  ghost predicate Mirrors(l: Level, d: Store) {
    && l == LevelOf(l.token, l.at, ReadToken(l.token, l.at, d))
    && ValidConfig(l.token, ReadToken(l.token, l.at, d))
  }

  ghost predicate MirrorsFrom(tree: seq<Level>, i: nat, d: Store) {
    forall j :: i <= j < |tree| ==> Mirrors(tree[j], d)
  }

  ghost function RankOf(l: Level, d: Store): nat {
    Rank(l.token, ReadToken(l.token, l.at, d))
  }

  lemma {:induction false} MirrorsStable(l: Level, d: Store, e: Store)
    requires SameFrom(l.at, d, e)
    ensures Mirrors(l, d) == Mirrors(l, e) && RankOf(l, d) == RankOf(l, e)
  {
    ReadTokenSame(l.token, l.at, d, e);
  }

  lemma {:induction false} Mirrored(tree: seq<Level>, ks: seq<Kid>, q: Path, d: Store)
    requires Names(tree, ks, q) && MirrorsFrom(tree, 0, d)
    ensures tree == LevelsOf(ks, q, ReadKids(ks, q, d)) && ValidKids(ks, ReadKids(ks, q, d))
  {
    var cs := ReadKids(ks, q, d);
    forall i | 0 <= i < |ks|
      ensures tree[i] == LevelOf(ks[i].token, q + [ks[i].slot], cs[i]) && ValidConfig(ks[i].token, cs[i])
    {
      assert Mirrors(tree[i], d);
    }
  }

  /** The children of an entry that mirrors the store mirror it too. */
  lemma {:induction false} ChildrenMirror(l: Level, d: Store)
    requires Mirrors(l, d)
    ensures l.permutation == Digit(d, l.at) && l.permutation < Permutations(l.token)
    ensures Names(l.children, Kids(l.token, l.permutation), l.at) && MirrorsFrom(l.children, 0, d)
  {
    var ks := Kids(l.token, l.permutation);
    var cs := ReadKids(ks, l.at, d);
    assert ReadToken(l.token, l.at, d) == Config(l.permutation, cs);
    assert l.children == LevelsOf(ks, l.at, cs) && ValidKids(ks, cs);
    forall i | 0 <= i < |l.children|
      ensures l.children[i] == LevelOf(ks[i].token, l.at + [ks[i].slot], cs[i])
      ensures Mirrors(l.children[i], d)
    {
      assert ValidConfig(ks[i].token, cs[i]);
      assert cs[i] == ReadToken(ks[i].token, l.at + [ks[i].slot], d);
    }
  }

  /** An entry whose children mirror the store, and whose permutation is the one set, mirrors it. */
  lemma {:induction false} EntryMirrors(l: Level, d: Store)
    requires l.permutation == Digit(d, l.at) && l.permutation < Permutations(l.token)
    requires Names(l.children, Kids(l.token, l.permutation), l.at) && MirrorsFrom(l.children, 0, d)
    ensures Mirrors(l, d)
    ensures RankOf(l, d) == CountBelow(l.token, l.permutation)
                          + RankKids(Kids(l.token, l.permutation), ReadKids(Kids(l.token, l.permutation), l.at, d))
  {
    Mirrored(l.children, Kids(l.token, l.permutation), l.at, d);
  }

  // ---------- emissions ----------

  /** In the store e, the tokens ks below q are in the configuration of that rank. */
  ghost predicate Shows(ks: seq<Kid>, q: Path, e: Store, rank: nat) {
    && ValidKids(ks, ReadKids(ks, q, e))
    && RankKids(ks, ReadKids(ks, q, e)) == rank
  }

  /** es[k] differs from d only below q, and shows the configuration of rank first + k. */
  ghost predicate Enumerates(ks: seq<Kid>, q: Path, d: Store, es: seq<Store>, first: nat) {
    forall k :: 0 <= k < |es| ==> OnlyBelow(q, d, es[k]) && Shows(ks, q, es[k], first + k)
  }

  class Strategy {
    const root: Grammar
    /** The consumer closes the channel after receiving this many generations; 0 means never. */
    const closeAfter: nat
    /** The state of the tokens. */
    var digits: Store
    /** What the consumer found the tokens in, each time it was handed the channel. */
    var emitted: seq<Store>

    constructor (root: Grammar, closeAfter: nat, digits: Store)
      ensures this.root == root && this.closeAfter == closeAfter
      ensures this.digits == digits && emitted == []
    {
      this.root, this.closeAfter, this.digits, emitted := root, closeAfter, digits, [];
    }

    ghost predicate Open()
      reads this
    {
      closeAfter == 0 || |emitted| < closeAfter
    }

    /** setPermutation; an index out of bounds would be a panic. */
    method SetPermutation(a: Path, g: Grammar, p: nat)
      requires p < Permutations(g)
      modifies this`digits
      ensures digits == old(digits)[a := p]
    {
      digits := digits[a := p];
    }

    /** nextStep: hand over, wait, and report whether the channel is still open. */
    method NextStep() returns (ok: bool)
      requires Open()
      modifies this`emitted
      ensures emitted == old(emitted) + [digits]
      ensures ok ==> Open()
      ensures !ok ==> |emitted| == closeAfter > 0
    {
      emitted := emitted + [digits];
      ok := |emitted| != closeAfter;
    }

    /** Set a token to a permutation, and make fresh entries for everything active below it. */
    method Enter(a: Path, g: Grammar, p: nat) returns (l: Level)
      requires WellFormed(g) && p < Permutations(g)
      modifies this`digits
      ensures OnlyFrom(a, old(digits), digits)
      ensures l.at == a && l.token == g && l.permutation == p && Mirrors(l, digits)
      ensures RankOf(l, digits) == CountBelow(g, p)
      decreases Height(g), 1
    {
      SetPermutation(a, g, p);
      ghost var d := digits;
      var children := GetTree(a, g);
      l := Level(a, g, p, children);
      assert Digit(digits, a) == Digit(d, a) == p;
      EntryMirrors(l, digits);
    }

    /** getTree(token, true): fresh entries for the active children of a token. */
    method GetTree(a: Path, g: Grammar) returns (tree: seq<Level>)
      requires WellFormed(g)
      modifies this`digits
      ensures OnlyBelow(a, old(digits), digits)
      ensures Names(tree, Kids(g, Digit(old(digits), a)), a) && MirrorsFrom(tree, 0, digits)
      ensures Shows(Kids(g, Digit(old(digits), a)), a, digits, 0)
      ensures Kids(g, Digit(old(digits), a)) == [] ==> digits == old(digits)
      decreases Height(g), 0
    {
      var ks := Kids(g, Digit(digits, a));
      KidsAreSiblings(g, Digit(digits, a));
      tree := [];
      while |tree| < |ks|
        invariant |tree| <= |ks| && Names(tree, ks[..|tree|], a)
        invariant OnlyBelow(a, old(digits), digits)
        invariant MirrorsFrom(tree, 0, digits)
        invariant forall j :: 0 <= j < |tree| ==> RankOf(tree[j], digits) == 0
        invariant ks == [] ==> digits == old(digits)
        decreases |ks| - |tree|
      {
        KidTokenLower(g, Digit(old(digits), a), |tree|);
        tree := AddNext(a, ks, tree);
      }
      assert ks[..|tree|] == ks;
      Mirrored(tree, ks, a, digits);
      RankAllFirst(ks, ReadKids(ks, a, digits));
    }

    method AddNext(a: Path, ks: seq<Kid>, tree: seq<Level>) returns (more: seq<Level>)
      requires Siblings(ks) && |tree| < |ks| && Names(tree, ks[..|tree|], a)
      requires MirrorsFrom(tree, 0, digits)
      requires forall j :: 0 <= j < |tree| ==> RankOf(tree[j], digits) == 0
      modifies this`digits
      ensures |more| == |tree| + 1 && Names(more, ks[..|more|], a)
      ensures OnlyBelow(a, old(digits), digits)
      ensures MirrorsFrom(more, 0, digits)
      ensures forall j :: 0 <= j < |more| ==> RankOf(more[j], digits) == 0
      decreases Height(ks[|tree|].token), 2
    {
      var k := ks[|tree|];
      PermutationsPositive(k.token);
      var l := Enter(a + [k.slot], k.token, 0);
      ChildFrames(a, k.slot, old(digits), digits);
      more := tree + [l];
      forall j | 0 <= j < |tree| ensures Mirrors(tree[j], digits) && RankOf(tree[j], digits) == 0 {
        SiblingFrames(a, k.slot, ks[j].slot, old(digits), digits);
        MirrorsStable(tree[j], old(digits), digits);
      }
    }

    /** for j := 0; j < i; j++: back to permutation 0. */
    method ResetLeft(ghost ks: seq<Kid>, ghost q: Path, tree: seq<Level>, i: nat) returns (r: seq<Level>)
      requires Siblings(ks) && Names(tree, ks, q) && i < |tree|
      modifies this`digits
      ensures Names(r, ks, q) && r[i..] == tree[i..]
      ensures forall j :: 0 <= j < i ==> Mirrors(r[j], digits) && RankOf(r[j], digits) == 0
      ensures forall j :: i <= j < |r| ==> SameFrom(r[j].at, old(digits), digits)
      ensures OnlyBelow(q, old(digits), digits)
      decreases KidsHeight(ks), 0
    {
      hide Kids, LevelOf, ReadToken, Mirrors, CountKids, CountAt;
      r := tree;
      var j := 0;
      while j < i
        invariant 0 <= j <= i && Names(r, ks, q) && r[i..] == tree[i..]
        invariant forall x :: 0 <= x < j ==> Mirrors(r[x], digits) && RankOf(r[x], digits) == 0
        invariant forall x :: i <= x < |r| ==> SameFrom(r[x].at, old(digits), digits)
        invariant OnlyBelow(q, old(digits), digits)
      {
        ghost var d := digits;
        PermutationsPositive(r[j].token);
        var l := Enter(r[j].at, r[j].token, 0);
        ChildFrames(q, ks[j].slot, d, digits);
        forall x | 0 <= x < |r| && x != j ensures SameFrom(r[x].at, d, digits) {
          SiblingFrames(q, ks[j].slot, ks[x].slot, d, digits);
        }
        forall x | 0 <= x < j ensures Mirrors(r[x], digits) && RankOf(r[x], digits) == 0 {
          MirrorsStable(r[x], d, digits);
        }
        r := r[j := l];
        j := j + 1;
      }
    }

    /**
     * The outcome of moving the entries behind the first one: position i moved by one, the ones
     * before it are back at their first state, the ones behind it did not change.
     */
    ghost predicate Moved(tree: seq<Level>, i: nat, d: Store)
      reads this
    {
      && 0 < i < |tree|
      && MirrorsFrom(tree, 0, digits)
      && (forall j :: 0 <= j < i ==> RankOf(tree[j], digits) == 0)
      && RankOf(tree[i], digits) == RankOf(tree[i], d) + 1
      && (forall j :: i < j < |tree| ==> SameFrom(tree[j].at, d, digits))
    }

    lemma {:induction false} MovedRank(ks: seq<Kid>, q: Path, tree: seq<Level>, i: nat, d: Store)
      requires Names(tree, ks, q) && Moved(tree, i, d)
      requires forall j :: 1 <= j < i ==> RankOf(tree[j], d) + 1 == Count(tree[j].token)
      ensures RankKids(ks[1..], ReadKids(ks[1..], q, digits)) == RankKids(ks[1..], ReadKids(ks[1..], q, d)) + 1
    {
      hide Kids, RankKids, Rank, Count, ReadToken, Mirrors;
      var ks1 := ks[1..];
      var cs, ds := ReadKids(ks1, q, d), ReadKids(ks1, q, digits);
      forall j | 0 <= j < i - 1
        ensures Rank(ks1[j].token, cs[j]) + 1 == Count(ks1[j].token) && Rank(ks1[j].token, ds[j]) == 0
      {
        assert tree[j + 1].token == ks1[j].token;
      }
      forall j | i - 1 < j < |ks1| ensures ds[j] == cs[j] {
        ReadTokenSame(ks1[j].token, tree[j + 1].at, d, digits);
      }
      RankCarryAt(ks1, cs, ds, i - 1);
    }

    ghost predicate LastBetween(tree: seq<Level>, i: nat, d: Store)
      requires i <= |tree|
    {
      forall j :: 1 <= j < i ==> RankOf(tree[j], d) + 1 == Count(tree[j].token)
    }

    /** The entry at i was already moved by a step among its children, from the store d. */
    method CarryInto(ghost ks: seq<Kid>, ghost q: Path, tree: seq<Level>, i: nat, ghost d: Store)
      returns (r: seq<Level>)
      requires Siblings(ks) && Names(tree, ks, q) && 0 < i < |tree|
      requires OnlyFrom(tree[i].at, d, digits) && MirrorsFrom(tree, i + 1, d) && LastBetween(tree, i, d)
      requires Mirrors(tree[i], digits) && RankOf(tree[i], digits) == RankOf(tree[i], d) + 1
      modifies this`digits
      ensures OnlyBelow(q, d, digits)
      ensures Names(r, ks, q) && MirrorsFrom(r, 0, digits) && RankOf(r[0], digits) == 0
      ensures RankKids(ks[1..], ReadKids(ks[1..], q, digits)) == RankKids(ks[1..], ReadKids(ks[1..], q, d)) + 1
      decreases KidsHeight(ks), 1
    {
      hide Kids, LevelOf, ReadToken, ReadKids, RankKids, Mirrors;
      ChildFrames(q, ks[i].slot, d, digits);
      forall j | i < j < |tree| ensures SameFrom(tree[j].at, d, digits) && Mirrors(tree[j], digits) {
        SiblingFrames(q, ks[i].slot, ks[j].slot, d, digits);
        MirrorsStable(tree[j], d, digits);
      }
      r := ResetLeft(ks, q, tree, i);
      forall j | i <= j < |r|
        ensures r[j] == tree[j] && Mirrors(r[j], digits) && RankOf(r[j], digits) == RankOf(r[j], old(digits))
      {
        assert r[i..][j - i] == tree[i..][j - i];
        MirrorsStable(r[j], old(digits), digits);
      }
      MovedRank(ks, q, r, i, d);
    }

    /** The entry at i moves to its next permutation p. */
    method CarryAt(ghost ks: seq<Kid>, ghost q: Path, tree: seq<Level>, i: nat, p: nat) returns (r: seq<Level>)
      requires Siblings(ks) && Names(tree, ks, q) && 0 < i < |tree|
      requires MirrorsFrom(tree, i + 1, digits) && p < Permutations(tree[i].token) && LastBetween(tree, i, digits)
      requires RankOf(tree[i], digits) + 1 == CountBelow(tree[i].token, p)
      modifies this`digits
      ensures OnlyBelow(q, old(digits), digits)
      ensures Names(r, ks, q) && MirrorsFrom(r, 0, digits) && RankOf(r[0], digits) == 0
      ensures RankKids(ks[1..], ReadKids(ks[1..], q, digits))
                == RankKids(ks[1..], ReadKids(ks[1..], q, old(digits))) + 1
      decreases KidsHeight(ks), 1
    {
      hide Kids, LevelOf, ReadToken, ReadKids, RankKids, Mirrors, CountBelow;
      r := ResetLeft(ks, q, tree, i);
      forall j | i <= j < |r| ensures r[j] == tree[j] {
        assert r[i..][j - i] == tree[i..][j - i];
      }
      forall j | i < j < |r| ensures Mirrors(r[j], digits) {
        MirrorsStable(r[j], old(digits), digits);
      }
      ghost var d := digits;
      KidsHeightAt(ks, i);
      var l := Enter(r[i].at, r[i].token, p);
      ChildFrames(q, ks[i].slot, d, digits);
      forall j | 0 <= j < |r| && j != i
        ensures Mirrors(r[j], digits) && RankOf(r[j], digits) == RankOf(r[j], d)
        ensures SameFrom(r[j].at, d, digits)
      {
        SiblingFrames(q, ks[i].slot, ks[j].slot, d, digits);
        MirrorsStable(r[j], d, digits);
      }
      r := r[i := l];
      MovedRank(ks, q, r, i, old(digits));
    }

    /**
     * The loop over the levels behind the first one (allpermutations.go:109-156): move the first
     * of them that still can, and put everything to its left back to the start.
     */
    method Carry(ghost ks: seq<Kid>, ghost q: Path, levels: seq<Level>) returns (advanced: bool, tree: seq<Level>)
      requires Siblings(ks) && 0 < |ks| && Names(levels, ks, q) && MirrorsFrom(levels, 1, digits)
      modifies this`digits
      ensures OnlyBelow(q, old(digits), digits)
      ensures advanced ==>
                && Names(tree, ks, q) && MirrorsFrom(tree, 0, digits) && RankOf(tree[0], digits) == 0
                && RankKids(ks[1..], ReadKids(ks[1..], q, digits))
                   == RankKids(ks[1..], ReadKids(ks[1..], q, old(digits))) + 1
      ensures !advanced ==>
                && digits == old(digits)
                && RankKids(ks[1..], ReadKids(ks[1..], q, digits)) + 1 == CountKids(ks[1..])
      decreases KidsHeight(ks), 1
    {
      hide Kids, LevelOf, ReadToken, ReadKids, RankKids, Mirrors;
      tree := levels;
      var i := 0;
      while true
        invariant 0 <= i < |ks| && Names(tree, ks, q) && digits == old(digits)
        invariant MirrorsFrom(tree, i + 1, digits)
        invariant LastBetween(tree, i + 1, digits)
        decreases |ks| - i
      {
        if i == |tree| - 1 {
          AllLast(ks, q, tree);
          return false, tree;
        }
        i := i + 1;
        KidsHeightAt(ks, i);
        var step, l := StepBelow(tree[i]);
        tree := tree[i := l];
        if step {
          tree := CarryInto(ks, q, tree, i, old(digits));
          return true, tree;
        }
        tree := tree[i := tree[i].(permutation := tree[i].permutation + 1)];
        if tree[i].permutation < Permutations(tree[i].token) {
          tree := CarryAt(ks, q, tree, i, tree[i].permutation);
          return true, tree;
        }
      }
    }

    lemma {:induction false} AllLast(ks: seq<Kid>, q: Path, tree: seq<Level>)
      requires Names(tree, ks, q) && |ks| > 0
      requires forall j :: 1 <= j < |ks| ==> RankOf(tree[j], digits) + 1 == Count(tree[j].token)
      ensures RankKids(ks[1..], ReadKids(ks[1..], q, digits)) + 1 == CountKids(ks[1..])
    {
      var ks1 := ks[1..];
      var cs := ReadKids(ks1, q, digits);
      forall j | 0 <= j < |ks1| ensures Rank(ks1[j].token, cs[j]) + 1 == Count(ks1[j].token) {
        assert tree[j + 1].token == ks1[j].token;
      }
      RankAllLast(ks1, cs);
    }

    /** An entry without active children is at the last state with its permutation. */
    lemma {:induction false} LeafLast(l: Level, d: Store)
      requires Mirrors(l, d) && l.children == []
      ensures Kids(l.token, l.permutation) == []
      ensures RankOf(l, d) + 1 == CountBelow(l.token, l.permutation + 1)
    {
      ChildrenMirror(l, d);
      EntryMirrors(l, d);
      assert CountAt(l.token, l.permutation) == CountKids([]);
    }

    /**
     * If the entry has active children, fuzz(.., children, true): one step among them. Without a
     * step, the token is at its last state with its permutation.
     */
    method StepBelow(l: Level) returns (step: bool, r: Level)
      requires WellFormed(l.token) && Mirrors(l, digits)
      modifies this`digits
      ensures OnlyFrom(l.at, old(digits), digits)
      ensures r.at == l.at && r.token == l.token && r.permutation == l.permutation < Permutations(l.token)
      ensures step ==> Mirrors(r, digits) && RankOf(r, digits) == RankOf(l, old(digits)) + 1
      ensures !step ==>
                && digits == old(digits)
                && RankOf(l, digits) + 1 == CountBelow(l.token, l.permutation + 1)
      ensures l.children == [] ==> !step && r == l && Kids(l.token, l.permutation) == []
      decreases Height(l.token), 0
    {
      var p := l.permutation;
      ChildrenMirror(l, digits);
      if |l.children| == 0 {
        LeafLast(l, digits);
        return false, l;
      }
      EntryMirrors(l, digits);
      KidsAreSiblings(l.token, p);
      KidsLower(l.token, p);
      var children;
      step, children := Step(Kids(l.token, p), l.at, l.children);
      r := l.(children := children);
      if step {
        EntryMirrors(r, digits);
      }
    }

    /** The first entry moved by one. */
    lemma {:induction false} HeadMoved(ks: seq<Kid>, q: Path, tree: seq<Level>, d: Store)
      requires Siblings(ks) && 0 < |ks| && Names(tree, ks, q)
      requires MirrorsFrom(tree, 1, d) && OnlyFrom(tree[0].at, d, digits)
      requires Mirrors(tree[0], digits) && RankOf(tree[0], digits) == RankOf(tree[0], d) + 1
      ensures OnlyBelow(q, d, digits) && MirrorsFrom(tree, 0, digits)
      ensures RankKids(ks, ReadKids(ks, q, digits)) == RankKids(ks, ReadKids(ks, q, d)) + 1
    {
      ChildFrames(q, ks[0].slot, d, digits);
      var cs, ds := ReadKids(ks, q, d), ReadKids(ks, q, digits);
      forall j | 0 < j < |ks| ensures Mirrors(tree[j], digits) && cs[j] == ds[j] {
        SiblingFrames(q, ks[0].slot, ks[j].slot, d, digits);
        MirrorsStable(tree[j], d, digits);
        ReadTokenSame(ks[j].token, tree[j].at, d, digits);
      }
      RankCarryAt(ks, cs, ds, 0);
    }

    /** The first entry was at its last state, and the entries behind it were carried into. */
    lemma {:induction false} HeadCarried(ks: seq<Kid>, q: Path, d: Store, advanced: bool)
      requires 0 < |ks|
      requires Rank(ks[0].token, ReadToken(ks[0].token, q + [ks[0].slot], d)) + 1 == Count(ks[0].token)
      requires advanced ==>
                 && Rank(ks[0].token, ReadToken(ks[0].token, q + [ks[0].slot], digits)) == 0
                 && RankKids(ks[1..], ReadKids(ks[1..], q, digits)) == RankKids(ks[1..], ReadKids(ks[1..], q, d)) + 1
      requires !advanced ==> digits == d && RankKids(ks[1..], ReadKids(ks[1..], q, d)) + 1 == CountKids(ks[1..])
      ensures advanced ==> RankKids(ks, ReadKids(ks, q, digits)) == RankKids(ks, ReadKids(ks, q, d)) + 1
      ensures !advanced ==> RankKids(ks, ReadKids(ks, q, d)) + 1 == CountKids(ks)
    {
      var cs, ds := ReadKids(ks, q, d), ReadKids(ks, q, digits);
      assert cs[1..] == ReadKids(ks[1..], q, d);
      assert ds[1..] == ReadKids(ks[1..], q, digits);
      if advanced {
        RankCarry(ks, cs, ds);
      } else {
        RankLast(ks, cs);
      }
    }

    /**
     * fuzz(.., tree, true): move the sibling tokens to the next configuration, or report that they
     * are at the last one.
     */
    method Step(ghost ks: seq<Kid>, ghost q: Path, levels: seq<Level>) returns (step: bool, tree: seq<Level>)
      requires Siblings(ks) && 0 < |ks| && Names(levels, ks, q) && MirrorsFrom(levels, 0, digits)
      modifies this`digits
      ensures OnlyBelow(q, old(digits), digits)
      ensures step ==>
                && Names(tree, ks, q) && MirrorsFrom(tree, 0, digits)
                && RankKids(ks, ReadKids(ks, q, digits)) == RankKids(ks, ReadKids(ks, q, old(digits))) + 1
      ensures !step ==>
                && digits == old(digits)
                && RankKids(ks, ReadKids(ks, q, digits)) + 1 == CountKids(ks)
      decreases KidsHeight(ks), 2
    {
      hide Kids, LevelOf, ReadToken, RankKids, Mirrors;
      tree := levels;
      ghost var d := digits;
      KidsHeightAt(ks, 0);
      var stepped, l := StepBelow(tree[0]);
      if stepped {
        tree := tree[0 := l];
        HeadMoved(ks, q, tree, d);
        return true, tree;
      }
      if |tree[0].children| == 0 && tree[0].permutation > 0 {
        // nothing changes: the token is in this permutation, and has no active children in it
        ChildrenMirror(tree[0], digits);
        SetPermutation(tree[0].at, tree[0].token, tree[0].permutation);
        var none := GetTree(tree[0].at, tree[0].token);
        assert digits == d;
      }
      tree := tree[0 := l.(permutation := l.permutation + 1)];

      if tree[0].permutation >= Permutations(tree[0].token) {
        step, tree := Carry(ks, q, tree);
        HeadCarried(ks, q, d, step);
      } else {
        l := Enter(tree[0].at, tree[0].token, tree[0].permutation);
        tree := tree[0 := l];
        HeadMoved(ks, q, tree, d);
        step := true;
      }
    }

    // ---------- emitting everything ----------

    /** The generations handed over since `before`. */
    ghost function Since(before: seq<Store>): seq<Store>
      requires |before| <= |emitted|
      reads this
    {
      emitted[|before|..]
    }

    /** Every generation of es differs from d at a and below only, and has g at rank first + k there. */
    ghost predicate HeadEnumerates(g: Grammar, a: Path, d: Store, es: seq<Store>, first: nat) {
      forall k :: 0 <= k < |es| ==>
        && OnlyFrom(a, d, es[k])
        && ValidConfig(g, ReadToken(g, a, es[k]))
        && Rank(g, ReadToken(g, a, es[k])) == first + k
    }

    /**
     * The first entry of a level at its current permutation: set it, and emit every configuration
     * of what is active below it.
     */
    method EmitHead(entry: Level) returns (contin: bool)
      requires WellFormed(entry.token) && entry.permutation < Permutations(entry.token) && Open()
      requires entry.permutation == 0 ==> Mirrors(entry, digits) && RankOf(entry, digits) == 0
      modifies this`digits, this`emitted
      ensures OnlyFrom(entry.at, old(digits), digits)
      ensures old(emitted) <= emitted
      ensures HeadEnumerates(entry.token, entry.at, old(digits), Since(old(emitted)),
                             CountBelow(entry.token, entry.permutation))
      ensures |Since(old(emitted))| <= CountAt(entry.token, entry.permutation)
      ensures contin ==> Open() && |Since(old(emitted))| == CountAt(entry.token, entry.permutation)
      ensures !contin ==> |emitted| == closeAfter > 0
      decreases Height(entry.token), 0
    {
      hide LevelOf, ReadToken, ReadKids, RankKids, CountBelow, Mirrors;
      var l := entry;
      if l.permutation > 0 {
        l := Enter(l.at, l.token, l.permutation);
      }
      ghost var d, g, a, p := digits, l.token, l.at, l.permutation;
      ChildrenMirror(l, digits);
      EntryMirrors(l, digits);
      if |l.children| > 0 {
        KidsAreSiblings(l.token, l.permutation);
        KidsLower(l.token, l.permutation);
        contin := Emit(Kids(l.token, l.permutation), l.at, l.children);
        HeadFromKids(g, a, p, d, Since(old(emitted)));
      } else {
        LeafLast(l, digits);
        contin := NextStep();
        assert Since(old(emitted)) == [digits];
      }
      forall k | 0 <= k < |Since(old(emitted))| ensures OnlyFrom(a, old(digits), Since(old(emitted))[k]) {
        assert OnlyFrom(a, d, Since(old(emitted))[k]);
      }
    }

    /** Configurations of the active children of g, seen from g. */
    lemma {:induction false} HeadFromKids(g: Grammar, a: Path, p: nat, d: Store, es: seq<Store>)
      requires Digit(d, a) == p < Permutations(g)
      requires Enumerates(Kids(g, p), a, d, es, 0)
      ensures HeadEnumerates(g, a, d, es, CountBelow(g, p))
    {
      forall k | 0 <= k < |es|
        ensures OnlyFrom(a, d, es[k])
        ensures ValidConfig(g, ReadToken(g, a, es[k]))
        ensures Rank(g, ReadToken(g, a, es[k])) == CountBelow(g, p) + k
      {
        assert OnlyBelow(a, d, es[k]) && Shows(Kids(g, p), a, es[k], k);
        assert Digit(es[k], a) == p;
      }
    }

    /** The rank of the siblings behind the first one. */
    ghost function RestRank(ks: seq<Kid>, q: Path, d: Store): nat
      requires 0 < |ks|
    {
      RankKids(ks[1..], ReadKids(ks[1..], q, d))
    }

    /** Configurations of the first sibling, seen as configurations of all of them. */
    lemma {:induction false} KidsFromHead(ks: seq<Kid>, q: Path, tree: seq<Level>, d0: Store, d: Store,
            es: seq<Store>, p: nat)
      requires Siblings(ks) && 0 < |ks| && Names(tree, ks, q) && MirrorsFrom(tree, 1, d)
      requires OnlyBelow(q, d0, d)
      requires HeadEnumerates(ks[0].token, tree[0].at, d, es, CountBelow(ks[0].token, p))
      ensures Enumerates(ks, q, d0, es, CountBelow(ks[0].token, p) + Count(ks[0].token) * RestRank(ks, q, d))
    {
      hide Kids, LevelOf, ReadToken, Shows, OnlyBelow, OnlyFrom, Rank;
      forall k | 0 <= k < |es|
        ensures OnlyBelow(q, d0, es[k])
        ensures Shows(ks, q, es[k], CountBelow(ks[0].token, p) + Count(ks[0].token) * RestRank(ks, q, d) + k)
      {
        OnlyBelowVia(q, ks[0].slot, d0, d, es[k]);
        RestUnchanged(ks, q, tree, d, es[k]);
        KidsFromOne(ks, q, tree, es[k], CountBelow(ks[0].token, p) + k);
      }
    }

    lemma {:induction false} KidsFromOne(ks: seq<Kid>, q: Path, tree: seq<Level>, e: Store, rank: nat)
      requires 0 < |ks| && Names(tree, ks, q) && MirrorsFrom(tree, 1, e)
      requires ValidConfig(ks[0].token, ReadToken(ks[0].token, tree[0].at, e))
      requires Rank(ks[0].token, ReadToken(ks[0].token, tree[0].at, e)) == rank
      ensures Shows(ks, q, e, rank + Count(ks[0].token) * RestRank(ks, q, e))
    {
      hide Kids, LevelOf, ReadToken, Rank, ValidConfig;
      var cs := ReadKids(ks, q, e);
      assert cs[1..] == ReadKids(ks[1..], q, e);
      forall i | 0 <= i < |ks| ensures ValidConfig(ks[i].token, cs[i]) {
        assert i > 0 ==> Mirrors(tree[i], e);
      }
    }

    /** The siblings behind the first one do not notice changes at the first one. */
    lemma {:induction false} RestUnchanged(ks: seq<Kid>, q: Path, tree: seq<Level>, d: Store, e: Store)
      requires Siblings(ks) && 0 < |ks| && Names(tree, ks, q) && MirrorsFrom(tree, 1, d)
      requires OnlyFrom(tree[0].at, d, e)
      ensures MirrorsFrom(tree, 1, e) && RestRank(ks, q, e) == RestRank(ks, q, d)
    {
      var ks1 := ks[1..];
      forall j | 0 < j < |ks| ensures Mirrors(tree[j], e) && SameFrom(q + [ks1[j - 1].slot], d, e) {
        SiblingFrames(q, ks[0].slot, ks[j].slot, d, e);
        MirrorsStable(tree[j], d, e);
      }
      ReadKidsSame(ks1, q, d, e);
    }

    lemma {:induction false} RestBound(ks: seq<Kid>, q: Path, tree: seq<Level>, d: Store)
      requires 0 < |ks| && Names(tree, ks, q) && MirrorsFrom(tree, 1, d)
      ensures RestRank(ks, q, d) < CountKids(ks[1..])
    {
      Mirrored(tree[1..], ks[1..], q, d);
      RankKidsBound(ks[1..], ReadKids(ks[1..], q, d));
    }

    /** A fresh list of entries starts with a fresh entry, and its rest is at rank 0. */
    lemma {:induction false} FreshHead(ks: seq<Kid>, q: Path, tree: seq<Level>, d: Store)
      requires Siblings(ks) && 0 < |ks| && Names(tree, ks, q) && MirrorsFrom(tree, 0, d)
      requires RankKids(ks, ReadKids(ks, q, d)) == 0
      ensures RankOf(tree[0], d) == 0 && RestRank(ks, q, d) == 0
    {
      var cs := ReadKids(ks, q, d);
      RankKidsZero(ks, cs);
      assert cs[1..] == ReadKids(ks[1..], q, d);
    }

    lemma {:induction false} FreshEntry(l: Level, d: Store)
      requires WellFormed(l.token) && Mirrors(l, d) && RankOf(l, d) == 0
      ensures l.permutation == 0 < Permutations(l.token)
    {
      RankZero(l.token, ReadToken(l.token, l.at, d));
      ChildrenMirror(l, d);
    }

    lemma {:induction false} EnumeratesMore(ks: seq<Kid>, q: Path, d: Store, es: seq<Store>, fs: seq<Store>)
      requires Enumerates(ks, q, d, es, 0) && Enumerates(ks, q, d, fs, |es|)
      ensures Enumerates(ks, q, d, es + fs, 0)
    {
      var gs := es + fs;
      forall k | 0 <= k < |gs| ensures OnlyBelow(q, d, gs[k]) && Shows(ks, q, gs[k], 0 + k) {
        if k < |es| {
          assert gs[k] == es[k] && Shows(ks, q, es[k], 0 + k);
        } else {
          assert gs[k] == fs[k - |es|] && Shows(ks, q, fs[k - |es|], |es| + (k - |es|));
        }
      }
    }

    /**
     * fuzz(.., tree, false): emit every configuration of the sibling tokens, in the order of their
     * ranks, or the first of them until the consumer closes the channel.
     */
    method Emit(ghost ks: seq<Kid>, ghost q: Path, levels: seq<Level>) returns (contin: bool)
      requires Siblings(ks) && 0 < |ks| && Names(levels, ks, q) && MirrorsFrom(levels, 0, digits)
      requires RankKids(ks, ReadKids(ks, q, digits)) == 0 && Open()
      modifies this`digits, this`emitted
      ensures OnlyBelow(q, old(digits), digits)
      ensures old(emitted) <= emitted
      ensures Enumerates(ks, q, old(digits), Since(old(emitted)), 0)
      ensures |Since(old(emitted))| <= CountKids(ks)
      ensures contin ==> Open() && |Since(old(emitted))| == CountKids(ks)
      ensures !contin ==> |emitted| == closeAfter > 0
      decreases KidsHeight(ks), 2
    {
      hide Kids, LevelOf, ReadToken, ReadKids, RankKids, Mirrors, Shows, OnlyBelow, OnlyFrom, Enumerates,
           RankOf;
      var tree := levels;
      ghost var d0, before := digits, emitted;
      ghost var g := ks[0].token;
      FreshHead(ks, q, tree, digits);
      FreshEntry(tree[0], digits);
      EnumeratesNothing(ks, q, d0);
      assert Since(before) == [];
      while true
        invariant Names(tree, ks, q) && MirrorsFrom(tree, 1, digits) && OnlyBelow(q, d0, digits)
        invariant tree[0].permutation < Permutations(g)
        invariant tree[0].permutation == 0 ==> Mirrors(tree[0], digits) && RankOf(tree[0], digits) == 0
        invariant before <= emitted && Open()
        invariant Enumerates(ks, q, d0, Since(before), 0)
        invariant |Since(before)| == CountBelow(g, tree[0].permutation) + Count(g) * RestRank(ks, q, digits)
        decreases CountKids(ks[1..]) - RestRank(ks, q, digits), Permutations(g) - tree[0].permutation
      {
        RestBound(ks, q, tree, digits);
        contin := EmitDigit(ks, q, tree, d0, before);
        if !contin {
          return false;
        }
        tree := tree[0 := tree[0].(permutation := tree[0].permutation + 1)];
        if tree[0].permutation >= Permutations(tree[0].token) {
          var advanced;
          ghost var e := digits;
          advanced, tree := Carry(ks, q, tree);
          OnlyBelowTwice(q, d0, e, digits);
          TimesSuccessor(Count(g), RestRank(ks, q, e));
          if !advanced {
            return true;
          }
          FreshEntry(tree[0], digits);
        }
      }
    }

    /** One round of the loop of Emit up to the increment: everything with the head's permutation. */
    method EmitDigit(ghost ks: seq<Kid>, ghost q: Path, tree: seq<Level>, ghost d0: Store, ghost before: seq<Store>)
      returns (contin: bool)
      requires Siblings(ks) && 0 < |ks| && Names(tree, ks, q) && MirrorsFrom(tree, 1, digits)
      requires OnlyBelow(q, d0, digits) && tree[0].permutation < Permutations(ks[0].token)
      requires tree[0].permutation == 0 ==> Mirrors(tree[0], digits) && RankOf(tree[0], digits) == 0
      requires before <= emitted && Open() && Enumerates(ks, q, d0, Since(before), 0)
      requires |Since(before)|
                 == CountBelow(ks[0].token, tree[0].permutation) + Count(ks[0].token) * RestRank(ks, q, digits)
      modifies this`digits, this`emitted
      ensures MirrorsFrom(tree, 1, digits) && OnlyBelow(q, d0, digits)
      ensures RestRank(ks, q, digits) == RestRank(ks, q, old(digits))
      ensures old(emitted) <= emitted && before <= emitted && Enumerates(ks, q, d0, Since(before), 0)
      ensures |Since(before)| <= CountKids(ks)
      ensures contin ==> Open()
      ensures contin ==>
                |Since(before)|
                  == CountBelow(ks[0].token, tree[0].permutation + 1) + Count(ks[0].token) * RestRank(ks, q, digits)
      ensures !contin ==> |emitted| == closeAfter > 0
      decreases KidsHeight(ks), 1
    {
      hide Kids, LevelOf, ReadToken, ReadKids, RankKids, Mirrors, Shows, OnlyBelow, OnlyFrom, Enumerates,
           HeadEnumerates, RankOf, MirrorsFrom, WellFormed, Permutations;
      ghost var d, sofar, p := digits, emitted, tree[0].permutation;
      KidsHeightAt(ks, 0);
      RestBound(ks, q, tree, digits);
      RankWithin(ks, p, RestRank(ks, q, d));
      contin := EmitHead(tree[0]);
      KidsFromHead(ks, q, tree, d0, d, Since(sofar), p);
      EnumeratesMore(ks, q, d0, sofar[|before|..], Since(sofar));
      assert Since(before) == sofar[|before|..] + Since(sofar);
      RestUnchanged(ks, q, tree, d, digits);
      OnlyBelowVia(q, ks[0].slot, d0, d, digits);
    }

    lemma {:induction false} OnlyBelowTwice(q: Path, d: Store, e: Store, f: Store)
      requires OnlyBelow(q, d, e) && OnlyBelow(q, e, f)
      ensures OnlyBelow(q, d, f)
    {
    }

    lemma {:induction false} EnumeratesNothing(ks: seq<Kid>, q: Path, d: Store)
      ensures Enumerates(ks, q, d, [], 0) && OnlyBelow(q, d, d)
    {
    }

    lemma {:induction false} OnlyBelowVia(q: Path, s: nat, d: Store, e: Store, f: Store)
      requires OnlyBelow(q, d, e) && OnlyFrom(q + [s], e, f)
      ensures OnlyBelow(q, d, f)
    {
      ChildFrames(q, s, e, f);
    }

    /**
     * The goroutine of NewAllPermutations: the generations handed over are the configurations of
     * rank 0, 1, 2, ... of the root, all of them unless the consumer closes the channel before.
     */
    method Run() returns (finished: bool)
      requires WellFormed(root) && emitted == []
      modifies this`digits, this`emitted
      ensures EmitsInOrder(root, emitted)
      ensures forall k :: 0 <= k < |emitted| ==> IsState(root, ReadToken(root, [0], emitted[k]))
      ensures forall j, k :: 0 <= j < k < |emitted| ==>
          ConfigBefore(ReadToken(root, [0], emitted[j]), ReadToken(root, [0], emitted[k]))
      ensures Count(root) == States(root)
      ensures |emitted| == if 0 < closeAfter <= Count(root) then closeAfter else Count(root)
      ensures finished == (closeAfter == 0 || Count(root) < closeAfter)
    {
      ghost var ks := [Kid(0, root)];
      PermutationsPositive(root);
      CountPositive(root);
      var l := Enter([0], root, 0);
      assert Names([l], ks, []) by { assert [] + [0] == [0]; }
      Mirrored([l], ks, [], digits);
      RankAllFirst(ks, ReadKids(ks, [], digits));
      ghost var d := digits;
      finished := Emit(ks, [], [l]);
      CountKidsSingle(ks);
      assert Since([]) == emitted;
      forall k | 0 <= k < |emitted|
        ensures ValidConfig(root, ReadToken(root, [0], emitted[k])) && Rank(root, ReadToken(root, [0], emitted[k])) == k
      {
        assert Shows(ks, [], emitted[k], 0 + k);
        assert [] + [0] == [0];
        RankKidsSingle(ks, ReadKids(ks, [], emitted[k]));
        assert ReadKids(ks, [], emitted[k])[0] == ReadToken(root, [0], emitted[k]);
      }
      CountIsStates(root);
      InOrderMeans(root, emitted);
    }
  }

  lemma {:induction false} CountKidsSingle(ks: seq<Kid>)
    requires |ks| == 1
    ensures CountKids(ks) == Count(ks[0].token)
  {
    assert CountKids(ks[1..]) == 1;
  }

  lemma {:induction false} RankKidsSingle(ks: seq<Kid>, cs: seq<Config>)
    requires |ks| == |cs| == 1
    ensures RankKids(ks, cs) == Rank(ks[0].token, cs[0])
  {
    assert RankKids(ks[1..], cs[1..]) == 0;
  }

  /** Generation k shows the root in its configuration of rank k. */
  ghost predicate EmitsInOrder(root: Grammar, es: seq<Store>) {
    forall k :: 0 <= k < |es| ==>
      ValidConfig(root, ReadToken(root, [0], es[k])) && Rank(root, ReadToken(root, [0], es[k])) == k
  }

  /** The generations are states of the root, each after those before it. */
  lemma {:induction false} InOrderMeans(root: Grammar, es: seq<Store>)
    requires EmitsInOrder(root, es)
    ensures forall k :: 0 <= k < |es| ==> IsState(root, ReadToken(root, [0], es[k]))
    ensures forall j, k :: 0 <= j < k < |es| ==>
        ConfigBefore(ReadToken(root, [0], es[j]), ReadToken(root, [0], es[k]))
  {
    hide IsState, ValidConfig, Rank, ConfigBefore, ReadToken;
    forall k | 0 <= k < |es| ensures IsState(root, ReadToken(root, [0], es[k])) {
      ValidIsState(root, ReadToken(root, [0], es[k]));
    }
    forall j, k | 0 <= j < k < |es| ensures ConfigBefore(ReadToken(root, [0], es[j]), ReadToken(root, [0], es[k])) {
      RankOrders(root, ReadToken(root, [0], es[j]), ReadToken(root, [0], es[k]));
    }
  }

  /** A complete run shows every configuration of the root, each at exactly one generation. */
  lemma {:induction false} EveryConfigurationOnce(root: Grammar, es: seq<Store>, c: Config)
    requires EmitsInOrder(root, es) && |es| == Count(root)
    requires IsState(root, c)
    ensures Rank(root, c) < |es|
    ensures forall k :: 0 <= k < |es| ==> (ReadToken(root, [0], es[k]) == c <==> k == Rank(root, c))
  {
    ValidIsState(root, c);
    RankBound(root, c);
    forall k | 0 <= k < |es| ensures ReadToken(root, [0], es[k]) == c <==> k == Rank(root, c) {
      if k == Rank(root, c) {
        RankInjective(root, c, ReadToken(root, [0], es[k]));
      }
    }
  }

  /** A run that the consumer ends shows what a complete run shows first. */
  lemma {:induction false} ShortRunIsPrefix(root: Grammar, es: seq<Store>, fs: seq<Store>)
    requires EmitsInOrder(root, es) && EmitsInOrder(root, fs) && |es| <= |fs|
    ensures forall k :: 0 <= k < |es| ==> ReadToken(root, [0], es[k]) == ReadToken(root, [0], fs[k])
  {
    forall k | 0 <= k < |es| ensures ReadToken(root, [0], es[k]) == ReadToken(root, [0], fs[k]) {
      RankInjective(root, ReadToken(root, [0], es[k]), ReadToken(root, [0], fs[k]));
    }
  }
}
