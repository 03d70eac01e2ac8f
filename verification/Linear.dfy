/**
 * The linear reducing strategy (reduce/strategy/linear.go): a dialogue in which every state that is
 * offered is answered with Good or Bad, modelled as steps over an arbitrary sequence of answers.
 */
module Linear {
  import opened Combinatorics
  import opened Repeats
  import opened ReductionTrees
  import G = Grammars
  import L = Languages

  // ---------- the tokens of a worklist ----------

  datatype Node = Node(path: Path, token: Tree)

  /** linearStrategyLevel */
  datatype Level = Level(node: Node, maxReductions: nat)

  function KidNodes(n: Node, sel: seq<nat>): (ks: seq<Node>)
    requires forall i :: 0 <= i < |sel| ==> sel[i] < |Slots(n.token)|
    ensures |ks| == |sel|
    ensures forall i :: 0 <= i < |sel| ==> ks[i] == Node(n.path + [sel[i]], Slots(n.token)[sel[i]])
  {
    seq(|sel|, i requires 0 <= i < |sel| => Node(n.path + [sel[i]], Slots(n.token)[sel[i]]))
  }

  /** Reduces of a token; `reducing` tells whether Reduce was called on it before. */
  function Reduces(t: Tree, reducing: bool): nat {
    match t
    case Optional(_, active) => if reducing || active then 2 else 0
    case Repeat(from, items) => if reducing || from < |items| then Values(t) else 0
    case _ => 0
  }

  /** The nearest tokens with a choice, from left to right; nothing is sought below a token without one. */
  function Found(t: Tree, p: Path): seq<Node>
    decreases t, 1
  {
    if Reducible(t) then if Reduces(t, false) >= 2 then [Node(p, t)] else []
    else FoundSlots(t, p, Shown(t, 0))
  }

  function FoundSlots(t: Tree, p: Path, sel: seq<nat>): seq<Node>
    decreases t, 0, |sel|
  {
    if sel == [] then []
    else (if sel[0] < |Slots(t)| then Found(Slots(t)[sel[0]], p + [sel[0]]) else []) + FoundSlots(t, p, sel[1..])
  }

  function FoundIn(q: seq<Node>): seq<Node> {
    if q == [] then [] else Found(q[0].token, q[0].path) + FoundIn(q[1..])
  }

  lemma {:induction false} FoundInSplit(a: seq<Node>, b: seq<Node>)
    ensures FoundIn(a + b) == FoundIn(a) + FoundIn(b)
  {
    if a == [] {
      assert a + b == b;
    } else {
      assert (a + b)[1..] == a[1..] + b;
      FoundInSplit(a[1..], b);
    }
  }

  lemma {:induction false} FoundInKids(n: Node, sel: seq<nat>)
    requires forall i :: 0 <= i < |sel| ==> sel[i] < |Slots(n.token)|
    ensures FoundIn(KidNodes(n, sel)) == FoundSlots(n.token, n.path, sel)
  {
    if sel != [] {
      assert KidNodes(n, sel)[1..] == KidNodes(n, sel[1..]);
      FoundInKids(n, sel[1..]);
    }
  }

  // ---------- weights ----------

  function Weight(t: Tree): nat
    decreases t, 1
  {
    1 + WeightFrom(t, 0)
  }

  /** The weight of the slots of t from i on. */
  function WeightFrom(t: Tree, i: nat): nat
    decreases t, 0, |Slots(t)| - i
  {
    if i >= |Slots(t)| then 0 else Weight(Slots(t)[i]) + WeightFrom(t, i + 1)
  }

  function WeightAll(q: seq<Node>): nat {
    if q == [] then 0 else Weight(q[0].token) + WeightAll(q[1..])
  }

  lemma {:induction false} WeightAllSplit(a: seq<Node>, b: seq<Node>)
    ensures WeightAll(a + b) == WeightAll(a) + WeightAll(b)
  {
    if a == [] {
      assert a + b == b;
    } else {
      assert (a + b)[1..] == a[1..] + b;
      WeightAllSplit(a[1..], b);
    }
  }

  lemma {:induction false} SlotLighter(t: Tree, i: nat, j: nat)
    requires i <= j < |Slots(t)|
    ensures Weight(Slots(t)[j]) <= WeightFrom(t, i)
    decreases j - i
  {
    if i < j {
      SlotLighter(t, i + 1, j);
    }
  }

  /** The weight of those slots of t from i on that are in sel. */
  function WeightOf(t: Tree, sel: seq<nat>, i: nat): (w: nat)
    ensures w <= WeightFrom(t, i)
    decreases |Slots(t)| - i
  {
    if i >= |Slots(t)| then 0 else (if i in sel then Weight(Slots(t)[i]) else 0) + WeightOf(t, sel, i + 1)
  }

  lemma {:induction false} WeightOfNone(t: Tree, i: nat)
    ensures WeightOf(t, [], i) == 0
    decreases |Slots(t)| - i
  {
    if i < |Slots(t)| { WeightOfNone(t, i + 1); }
  }

  lemma {:induction false} WeightOfFirst(t: Tree, sel: seq<nat>, i: nat)
    requires sel != [] && sel[0] < |Slots(t)| && sel[0] !in sel[1..]
    ensures WeightOf(t, sel, i) == WeightOf(t, sel[1..], i) + if i <= sel[0] then Weight(Slots(t)[sel[0]]) else 0
    decreases |Slots(t)| - i
  {
    hide Weight;
    if i < |Slots(t)| {
      WeightOfFirst(t, sel, i + 1);
      assert i in sel <==> i == sel[0] || i in sel[1..];
    }
  }

  /** The children in distinct slots, in any order. */
  lemma {:induction false} KidsWeight(n: Node, sel: seq<nat>)
    requires (forall i :: 0 <= i < |sel| ==> sel[i] < |Slots(n.token)|) && Distinct(sel)
    ensures WeightAll(KidNodes(n, sel)) == WeightOf(n.token, sel, 0)
  {
    hide Weight;
    if sel == [] {
      WeightOfNone(n.token, 0);
    } else {
      assert KidNodes(n, sel)[1..] == KidNodes(n, sel[1..]);
      KidsWeight(n, sel[1..]);
      WeightOfFirst(n.token, sel, 0);
    }
  }

  /** The children that are shown. */
  lemma {:induction false} ShownSlots(t: Tree, v: nat)
    requires Proper(t)
    ensures forall i :: 0 <= i < |Shown(t, v)| ==> Shown(t, v)[i] < |Slots(t)|
    ensures forall i, j :: 0 <= i < j < |Shown(t, v)| ==> Shown(t, v)[i] != Shown(t, v)[j]
  {
    if t.Repeat? && v < Values(t) {
      ReductionsSound(|t.items|, t.from, v);
    }
  }

  lemma {:induction false} KidsLighter(n: Node)
    requires Proper(n.token)
    requires forall i :: 0 <= i < |Shown(n.token, 0)| ==> Shown(n.token, 0)[i] < |Slots(n.token)|
    ensures WeightAll(KidNodes(n, Shown(n.token, 0))) < Weight(n.token)
  {
    hide Proper, Shown;
    ShownSlots(n.token, 0);
    KidsWeight(n, Shown(n.token, 0));
  }

  // ---------- places apart ----------

  ghost predicate AllApart(q: seq<Node>) {
    forall i, j :: 0 <= i < j < |q| ==> Apart(q[i].path, q[j].path)
  }

  lemma {:induction false} ApartBelow(p: Path, q: Path, i: nat)
    requires Apart(p, q)
    ensures Apart(p + [i], q) && Apart(q, p + [i])
  {
  }

  lemma {:induction false} ApartSiblings(p: Path, i: nat, j: nat)
    requires i != j
    ensures Apart(p + [i], p + [j])
  {
    assert (p + [i])[|p|] == i && (p + [j])[|p|] == j;
  }

  /** No place is below two places that are apart. */
  lemma {:induction false} ApartNoneBelow(p: Path, q: Path, r: Path)
    requires Apart(p, q) && q <= r
    ensures !(p <= r)
  {
  }

  /** The children of a token are as much apart from everything as it is. */
  lemma {:induction false} ApartKids(a: seq<Node>, n: Node, sel: seq<nat>, b: seq<Node>)
    requires AllApart(a + [n] + b)
    requires forall i :: 0 <= i < |sel| ==> sel[i] < |Slots(n.token)|
    requires forall i, j :: 0 <= i < j < |sel| ==> sel[i] != sel[j]
    ensures AllApart(a + KidNodes(n, sel) + b)
  {
    var q, ks := a + [n] + b, KidNodes(n, sel);
    var r := a + ks + b;
    forall i, j | 0 <= i < j < |r| ensures Apart(r[i].path, r[j].path) {
      var i', j' := OldIndex(i, |a|, |ks|), OldIndex(j, |a|, |ks|);
      if i' == j' {
        ApartSiblings(n.path, sel[i - |a|], sel[j - |a|]);
      } else {
        assert Apart(q[i'].path, q[j'].path);
        if i' == |a| { ApartBelow(n.path, q[j'].path, sel[i - |a|]); }
        if j' == |a| { ApartBelow(n.path, q[i'].path, sel[j - |a|]); }
      }
    }
  }

  function OldIndex(i: nat, a: nat, k: nat): (j: nat)
  {
    if i < a then i else if i < a + k then a else i - k + 1
  }

  lemma {:induction false} ApartDrop(a: seq<Node>, n: Node, b: seq<Node>)
    requires AllApart(a + [n] + b)
    ensures AllApart(a + b)
  {
    var q, r := a + [n] + b, a + b;
    forall i, j | 0 <= i < j < |r| ensures Apart(r[i].path, r[j].path) {
      var i', j' := if i < |a| then i else i + 1, if j < |a| then j else j + 1;
      assert Apart(q[i'].path, q[j'].path) && r[i] == q[i'] && r[j] == q[j'];
    }
  }

  // ---------- what was offered, and answered ----------

  /** The state of the last offer that was answered with Good; the initial one if there was none. */
  ghost function LastGood(offers: seq<State>, good: nat -> bool, initial: State): State {
    if offers == [] then initial
    else if good(|offers| - 1) then offers[|offers| - 1]
    else LastGood(offers[..|offers| - 1], good, initial)
  }

  /** The search for the reduction of one token: from the context `base`, the offers from `at` on. */
  datatype Trial = Trial(path: Path, token: Tree, base: State, at: nat, kept: nat)

  /** The number of states the search offered. */
  ghost function Tries(s: Trial): nat {
    if s.kept + 1 < Values(s.token) then s.kept + 1 else s.kept
  }

  /**
   * The first reduction that was answered with Good is kept; if none was, the token keeps its full value.
   * Nothing below the token is reduced yet.
   */
  ghost predicate TrialOk(root: Tree, offers: seq<State>, good: nat -> bool, s: Trial) {
    && At(root, s.path) == Here(s.token) && Reducible(s.token) && s.kept < Values(s.token)
    && UnreducedBelow(s.base, s.path)
    && s.at + Tries(s) <= |offers|
    && (forall k :: s.at <= k < s.at + Tries(s) ==> offers[k] == s.base[s.path := k - s.at])
    && (forall k: nat :: s.at <= k < s.at + s.kept ==> !good(k))
    && (s.kept + 1 < Values(s.token) ==> good(s.at + s.kept))
  }

  /** The searches account for every offer, and no token is searched twice. */
  ghost predicate LogOk(root: Tree, offers: seq<State>, good: nat -> bool, log: seq<Trial>) {
    && (forall s :: s in log ==> TrialOk(root, offers, good, s))
    && (forall i :: 0 < i < |log| ==> log[i].at == log[i - 1].at + Tries(log[i - 1]))
    && (log != [] ==> log[0].at == 0)
    && |offers| == (if log == [] then 0 else log[|log| - 1].at + Tries(log[|log| - 1]))
    && (forall i, j :: 0 <= i < j < |log| ==> log[i].path != log[j].path)
  }

  /** Every searched token is at the reduction that was kept. */
  ghost predicate Settled(st: State, log: seq<Trial>) {
    forall s :: s in log ==> s.path in st && st[s.path] == s.kept
  }

  // ---------- the state of the strategy ----------

  /** A token waiting in a worklist: not reduced, nor anything below it. */
  ghost predicate NodeOk(root: Tree, st: State, bound: nat, n: Node) {
    && At(root, n.path) == Here(n.token) && Proper(n.token) && Weight(n.token) <= bound
    && forall r :: n.path <= r ==> r !in st
  }

  /** A token that was found: set to its full value, nothing below it reduced. */
  ghost predicate LevelOk(root: Tree, st: State, bound: nat, l: Level) {
    && At(root, l.node.path) == Here(l.node.token) && Proper(l.node.token) && Weight(l.node.token) <= bound
    && Reducible(l.node.token) && Values(l.node.token) == l.maxReductions + 1 && l.maxReductions >= 1
    && l.node.path in st && st[l.node.path] == l.maxReductions && InitialValue(l.node.token) == l.maxReductions
    && forall r :: l.node.path < r ==> r !in st
  }

  function Nodes(tree: seq<Level>): (q: seq<Node>)
    ensures |q| == |tree| && forall i :: 0 <= i < |tree| ==> q[i] == tree[i].node
  {
    seq(|tree|, i requires 0 <= i < |tree| => tree[i].node)
  }

  ghost predicate NodesOk(root: Tree, st: State, bound: nat, q: seq<Node>) {
    forall i :: 0 <= i < |q| ==> NodeOk(root, st, bound, q[i])
  }

  ghost predicate LevelsOk(root: Tree, st: State, bound: nat, tree: seq<Level>) {
    forall i :: 0 <= i < |tree| ==> LevelOk(root, st, bound, tree[i])
  }

  /** The tokens are at or below base, and not nearer to the root than depth. */
  ghost predicate Under(q: seq<Node>, base: Path, depth: nat) {
    forall i :: 0 <= i < |q| ==> base <= q[i].path && depth <= |q[i].path|
  }

  /** The states agree on p. */
  ghost predicate Agree(a: State, b: State, p: Path) {
    (p in a <==> p in b) && (p in a && p in b ==> a[p] == b[p])
  }

  ghost predicate NotIn(q: seq<Node>, r: Path) {
    forall i :: 0 <= i < |q| ==> !(q[i].path <= r)
  }

  /** The states differ at most at or below p. */
  ghost predicate OnlyAt(a: State, b: State, p: Path) {
    forall r :: !(p <= r) ==> Agree(a, b, r)
  }

  /** The states differ at most at or below the tokens of q. */
  ghost predicate OnlyIn(a: State, b: State, q: seq<Node>) {
    forall r :: NotIn(q, r) ==> Agree(a, b, r)
  }

  lemma {:induction false} NodeKept(root: Tree, st: State, bound: nat, n: Node, p: Path, v: nat)
    requires NodeOk(root, st, bound, n) && Apart(n.path, p)
    ensures NodeOk(root, st[p := v], bound, n)
  {
  }

  lemma {:induction false} LevelKept(root: Tree, st: State, bound: nat, l: Level, p: Path, v: nat)
    requires LevelOk(root, st, bound, l) && Apart(l.node.path, p)
    ensures LevelOk(root, st[p := v], bound, l)
  {
  }

  /** Changes elsewhere do not matter to a token that was found. */
  lemma {:induction false} LevelElsewhere(root: Tree, a: State, b: State, bound: nat, l: Level, p: Path)
    requires LevelOk(root, a, bound, l) && Apart(l.node.path, p) && OnlyAt(a, b, p)
    ensures LevelOk(root, b, bound, l)
  {
    ApartNoneBelow(p, l.node.path, l.node.path);
    assert Agree(a, b, l.node.path);
    forall r | l.node.path < r ensures r !in b {
      ApartNoneBelow(p, l.node.path, r);
      assert Agree(a, b, r);
    }
  }

  /** Setting a fresh token to its full value changes nothing. */
  lemma {:induction false} FullValue(root: Tree, st: State, bound: nat, n: Node)
    requires NodeOk(root, st, bound, n) && Reducible(n.token) && Reduces(n.token, false) >= 2 && InBounds(root, st)
    ensures var max := Reduces(n.token, false) - 1;
            && LevelOk(root, st[n.path := max], bound, Level(n, max))
            && InBounds(root, st[n.path := max]) && Same(root, st[n.path := max], st)
  {
    assert n.path <= n.path;
  }

  lemma {:induction false} KidOk(root: Tree, st: State, bound: nat, n: Node, i: nat)
    requires At(root, n.path) == Here(n.token) && Proper(n.token) && i < |Slots(n.token)|
    requires forall r :: n.path < r ==> r !in st
    requires Weight(n.token) <= bound + 1
    ensures NodeOk(root, st, bound, Node(n.path + [i], Slots(n.token)[i]))
  {
    AtChild(root, n.path, n.token, i);
    SlotLighter(n.token, 0, i);
    forall r | n.path + [i] <= r ensures r !in st {
      assert n.path < r by { assert (n.path + [i])[..|n.path|] == n.path; assert r[..|n.path|] == n.path; }
    }
  }

  lemma {:induction false} SameTrans(root: Tree, a: State, b: State, c: State)
    requires Same(root, a, b) && Same(root, b, c)
    ensures Same(root, a, c)
  {
  }

  // ---------- the steps of the sweep ----------

  ghost predicate Sweeping(root: Tree, a: State, st: State, bound: nat, base: Path, depth: nat, tree: seq<Level>,
          q: seq<Node>)
  {
    && LevelsOk(root, st, bound, tree) && NodesOk(root, st, bound, q)
    && AllApart(Nodes(tree) + q) && Under(Nodes(tree) + q, base, depth)
    && InBounds(root, st) && Same(root, st, a) && OnlyIn(a, st, Nodes(tree))
  }

  lemma {:induction false} SweepStarts(root: Tree, st: State, bound: nat, q: seq<Node>, base: Path, depth: nat)
    requires NodesOk(root, st, bound, q) && AllApart(q) && Under(q, base, depth) && InBounds(root, st)
    ensures Sweeping(root, st, st, bound, base, depth, [], q)
  {
    assert Nodes([]) + q == q;
    hide NodesOk, AllApart, Under, InBounds;
  }

  lemma {:induction false} SweepFresh(root: Tree, a: State, st: State, bound: nat, base: Path, depth: nat,
          tree: seq<Level>, n: Node, q: seq<Node>)
    requires Sweeping(root, a, st, bound, base, depth, tree, [n] + q)
    ensures NodeOk(root, st, bound, n) && n.path !in st && At(root, n.path) == Here(n.token)
    ensures Reducible(n.token) ==> Reduces(n.token, false) <= Values(n.token)
  {
    assert ([n] + q)[0] == n && n.path <= n.path;
  }

  lemma {:induction false} SweepSkips(root: Tree, a: State, st: State, bound: nat, base: Path, depth: nat,
          tree: seq<Level>, n: Node, q: seq<Node>)
    requires Sweeping(root, a, st, bound, base, depth, tree, [n] + q)
    ensures Sweeping(root, a, st, bound, base, depth, tree, q)
  {
    hide InBounds, Same, LevelsOk, NodeOk, OnlyIn;
    var ns := Nodes(tree);
    assert ns + ([n] + q) == ns + [n] + q;
    ApartDrop(ns, n, q);
    forall i | 0 <= i < |ns + q| ensures base <= (ns + q)[i].path && depth <= |(ns + q)[i].path| {
      var j := if i < |ns| then i else i + 1;
      assert (ns + q)[i] == (ns + ([n] + q))[j];
    }
    forall i | 0 <= i < |q| ensures NodeOk(root, st, bound, q[i]) {
      assert ([n] + q)[i + 1] == q[i];
    }
  }

  lemma {:induction false} NodesMore(tree: seq<Level>, l: Level)
    ensures Nodes(tree + [l]) == Nodes(tree) + [l.node]
  {
  }

  lemma {:induction false} SweepFinds(root: Tree, a: State, st: State, bound: nat, base: Path, depth: nat,
          tree: seq<Level>, n: Node, q: seq<Node>)
    requires Sweeping(root, a, st, bound, base, depth, tree, [n] + q)
    requires Reducible(n.token) && Reduces(n.token, false) >= 2
    ensures var max := Reduces(n.token, false) - 1;
            && Sweeping(root, a, st[n.path := max], bound, base, depth, tree + [Level(n, max)], q)
            && Nodes(tree + [Level(n, max)]) == Nodes(tree) + [n]
  {
    hide InBounds, Same, LevelOk, NodeOk, OnlyIn, Under, AllApart, Reduces;
    var max := Reduces(n.token, false) - 1;
    var ns, more, st' := Nodes(tree), tree + [Level(n, max)], st[n.path := max];
    assert ns + ([n] + q) == ns + [n] + q;
    NodesMore(tree, Level(n, max));
    SweepFresh(root, a, st, bound, base, depth, tree, n, q);
    FullValue(root, st, bound, n);
    SameTrans(root, st', st, a);
    forall i | 0 <= i < |q| ensures NodeOk(root, st', bound, q[i]) {
      assert ([n] + q)[i + 1] == q[i];
      AllApartAt(ns, n, q, |ns| + 1 + i);
      NodeKept(root, st, bound, q[i], n.path, max);
    }
    forall i | 0 <= i < |more| ensures LevelOk(root, st', bound, more[i]) {
      if i < |tree| {
        AllApartAt(ns, n, q, i);
        LevelKept(root, st, bound, tree[i], n.path, max);
      }
    }
    FoundIsOnly(a, st, ns, n, max);
  }

  lemma {:induction false} AllApartAt(a: seq<Node>, n: Node, b: seq<Node>, i: nat)
    requires AllApart(a + [n] + b) && i < |a| + 1 + |b| && i != |a|
    ensures Apart((a + [n] + b)[i].path, n.path)
  {
    var q := a + [n] + b;
    assert q[|a|] == n;
  }

  lemma {:induction false} FoundIsOnly(a: State, st: State, ns: seq<Node>, n: Node, v: nat)
    requires OnlyIn(a, st, ns)
    ensures OnlyIn(a, st[n.path := v], ns + [n])
  {
    forall r | NotIn(ns + [n], r) ensures Agree(a, st[n.path := v], r) {
      assert (ns + [n])[|ns|] == n && n.path <= n.path;
      forall i | 0 <= i < |ns| ensures !(ns[i].path <= r) { assert (ns + [n])[i] == ns[i]; }
      assert Agree(a, st, r);
    }
  }

  lemma {:induction false} SweepEnters(root: Tree, a: State, st: State, bound: nat, base: Path, depth: nat,
          tree: seq<Level>, n: Node, q: seq<Node>)
    requires Sweeping(root, a, st, bound, base, depth, tree, [n] + q) && !Reducible(n.token)
    ensures forall i :: 0 <= i < |Shown(n.token, 0)| ==> Shown(n.token, 0)[i] < |Slots(n.token)|
    ensures Sweeping(root, a, st, bound, base, depth, tree, KidNodes(n, Shown(n.token, 0)) + q)
    ensures WeightAll(KidNodes(n, Shown(n.token, 0))) < Weight(n.token)
  {
    hide InBounds, Same, LevelsOk, OnlyIn, Under, AllApart, Weight, Proper;
    var ns, sel := Nodes(tree), Shown(n.token, 0);
    SweepFresh(root, a, st, bound, base, depth, tree, n, q);
    ShownSlots(n.token, 0);
    KidsLighter(n);
    var ks := KidNodes(n, sel);
    assert ns + ([n] + q) == ns + [n] + q && ns + (ks + q) == ns + ks + q;
    ApartKids(ns, n, sel, q);
    KidsUnder(ns, n, sel, q, base, depth);
    forall i | 0 <= i < |ks + q| ensures NodeOk(root, st, bound, (ks + q)[i]) {
      if i < |ks| {
        NodeBelowOk(root, st, bound, n, sel[i]);
      } else {
        assert (ks + q)[i] == ([n] + q)[i - |ks| + 1];
      }
    }
  }

  lemma {:induction false} NodeBelowOk(root: Tree, st: State, bound: nat, n: Node, i: nat)
    requires NodeOk(root, st, bound, n) && i < |Slots(n.token)|
    ensures NodeOk(root, st, bound, Node(n.path + [i], Slots(n.token)[i]))
  {
    KidOk(root, st, bound, n, i);
  }

  lemma {:induction false} KidsUnder(a: seq<Node>, n: Node, sel: seq<nat>, b: seq<Node>, base: Path, depth: nat)
    requires Under(a + [n] + b, base, depth)
    requires forall i :: 0 <= i < |sel| ==> sel[i] < |Slots(n.token)|
    ensures Under(a + KidNodes(n, sel) + b, base, depth)
  {
    var q, ks := a + [n] + b, KidNodes(n, sel);
    var r := a + ks + b;
    forall i | 0 <= i < |r| ensures base <= r[i].path && depth <= |r[i].path| {
      var j := OldIndex(i, |a|, |ks|);
      assert base <= q[j].path && depth <= |q[j].path|;
      if j == |a| {
        assert r[i].path == n.path + [sel[i - |a|]] && n.path == q[j].path;
      } else {
        assert r[i] == q[j];
      }
    }
  }

  lemma {:induction false} SweepEnds(root: Tree, a: State, st: State, bound: nat, base: Path, depth: nat,
          tree: seq<Level>)
    requires Sweeping(root, a, st, bound, base, depth, tree, [])
    ensures LevelsOk(root, st, bound, tree) && AllApart(Nodes(tree)) && Under(Nodes(tree), base, depth)
    ensures InBounds(root, st) && Same(root, st, a) && OnlyIn(a, st, Nodes(tree))
  {
    assert Nodes(tree) + [] == Nodes(tree);
    hide LevelsOk, AllApart, Under, InBounds, Same, OnlyIn;
  }

  /** A token whose own value is settled, with nothing below it reduced, that weighs more than bound only by itself. */
  ghost predicate BranchOk(root: Tree, st: State, bound: nat, n: Node) {
    && At(root, n.path) == Here(n.token) && Proper(n.token) && Weight(n.token) <= bound + 1
    && forall r :: n.path < r ==> r !in st
  }

  lemma {:induction false} KidsReady(root: Tree, st: State, bound: nat, n: Node, sel: seq<nat>)
    requires BranchOk(root, st, bound, n) && sel == Shown(n.token, ValueAt(root, st, n.path))
    ensures forall i :: 0 <= i < |sel| ==> sel[i] < |Slots(n.token)|
    ensures NodesOk(root, st, bound, KidNodes(n, sel)) && AllApart(KidNodes(n, sel))
    ensures Under(KidNodes(n, sel), n.path, |n.path| + 1)
  {
    hide Weight, Proper, NodeOk, Shown;
    ShownSlots(n.token, ValueAt(root, st, n.path));
    var ks := KidNodes(n, sel);
    forall i | 0 <= i < |ks| ensures NodeOk(root, st, bound, ks[i]) {
      KidOk(root, st, bound, n, sel[i]);
    }
    forall i, j | 0 <= i < j < |ks| ensures Apart(ks[i].path, ks[j].path) {
      ApartSiblings(n.path, sel[i], sel[j]);
    }
  }

  lemma {:induction false} SetAgain(a: State, p: Path, v: nat, w: nat)
    ensures a[p := w][p := v] == a[p := v]
  {
  }

  /** All offers since `before` were answered with Bad. */
  ghost predicate Rejected(base: State, p: Path, before: seq<State>, good: nat -> bool, offers: seq<State>) {
    && |before| <= |offers| && offers[..|before|] == before
    && (forall k :: |before| <= k < |offers| ==> offers[k] == base[p := k - |before|] && !good(k))
    && LastGood(offers, good, map[]) == LastGood(before, good, map[])
  }

  lemma {:induction false} RejectedNone(base: State, p: Path, before: seq<State>, good: nat -> bool)
    ensures Rejected(base, p, before, good, before)
  {
  }

  /** The offers a search has made. */
  ghost predicate Tried(base: State, before: seq<State>, good: nat -> bool, l: Level, offers: seq<State>,
          reduction: nat)
  {
    && reduction <= l.maxReductions
    && |offers| == |before| + (if reduction < l.maxReductions then reduction + 1 else reduction)
    && before == offers[..|before|]
    && (forall k :: |before| <= k < |offers| ==> offers[k] == base[l.node.path := k - |before|])
    && (forall k: nat :: |before| <= k < |before| + reduction ==> !good(k))
    && (reduction < l.maxReductions ==> good(|before| + reduction))
  }

  /** One more offer. */
  lemma {:induction false} TriedOnce(base: State, before: seq<State>, good: nat -> bool, l: Level, tried: seq<State>,
          reduction: nat)
    requires Rejected(base, l.node.path, before, good, tried) && |tried| == |before| + reduction
        && reduction < l.maxReductions
    ensures var offers := tried + [base[l.node.path := reduction]];
            && (good(|tried|) ==> Tried(base, before, good, l, offers, reduction))
            && (good(|tried|) ==> LastGood(offers, good, map[]) == base[l.node.path := reduction])
            && (!good(|tried|) ==> Rejected(base, l.node.path, before, good, offers))
            && (!good(|tried|) ==> LastGood(offers, good, map[]) == LastGood(before, good, map[]))
            && (!good(|tried|) && reduction == l.maxReductions - 1 ==>
                Tried(base, before, good, l, offers, l.maxReductions))
  {
    var offers := tried + [base[l.node.path := reduction]];
    assert offers[..|offers| - 1] == tried;
    assert offers[..|before|] == tried[..|before|];
  }

  lemma {:induction false} SearchValid(root: Tree, good: nat -> bool, base: State, before: seq<State>,
          log: seq<Trial>, bound: nat, l: Level, offers: seq<State>, st: State, reduction: nat)
    requires LevelOk(root, base, bound, l) && InBounds(root, base) && Same(root, base, LastGood(before, good, map[]))
    requires LogOk(root, before, good, log) && Settled(base, log) && forall s :: s in log ==> s.path != l.node.path
    requires forall i :: 0 <= i < |before| ==> InBounds(root, before[i])
    requires Tried(base, before, good, l, offers, reduction) && st == base[l.node.path := reduction]
    requires LastGood(offers, good, map[]) == if reduction < l.maxReductions then st else LastGood(before, good, map[])
    ensures InBounds(root, st) && Settled(st, log + [Trial(l.node.path, l.node.token, base, |before|, reduction)])
    ensures LogOk(root, offers, good, log + [Trial(l.node.path, l.node.token, base, |before|, reduction)])
    ensures Same(root, st, LastGood(offers, good, map[]))
    ensures forall i :: 0 <= i < |offers| ==> InBounds(root, offers[i])
  {
    hide LogOk, Settled, Same, InBounds, LastGood, TrialOk;
    var s := Trial(l.node.path, l.node.token, base, |before|, reduction);
    TrialIsOk(root, good, base, before, bound, l, offers, reduction);
    LogGrows(root, before, offers, good, log, s);
    TrialSettles(base, log, s);
    TrialInBounds(root, good, base, before, bound, l, offers, reduction);
    TrialIsLastGood(root, base, bound, l, st, LastGood(before, good, map[]), LastGood(offers, good, map[]), reduction);
  }

  lemma {:induction false} TrialIsOk(root: Tree, good: nat -> bool, base: State, before: seq<State>, bound: nat,
          l: Level, offers: seq<State>, reduction: nat)
    requires LevelOk(root, base, bound, l) && Tried(base, before, good, l, offers, reduction)
    ensures var s := Trial(l.node.path, l.node.token, base, |before|, reduction);
            TrialOk(root, offers, good, s) && |offers| == s.at + Tries(s)
  {
    hide Weight, Proper, Values, At;
  }

  lemma {:induction false} TrialSettles(base: State, log: seq<Trial>, s: Trial)
    requires Settled(base, log) && forall t :: t in log ==> t.path != s.path
    ensures Settled(base[s.path := s.kept], log + [s])
  {
  }

  lemma {:induction false} OneInBounds(root: Tree, base: State, bound: nat, l: Level, v: nat)
    requires LevelOk(root, base, bound, l) && InBounds(root, base) && v <= l.maxReductions
    ensures InBounds(root, base[l.node.path := v])
  {
    hide Weight, Proper;
  }

  lemma {:induction false} LevelIsSound(root: Tree, st: State, bound: nat, l: Level)
    requires LevelOk(root, st, bound, l)
    ensures At(root, l.node.path) == Here(l.node.token) && Values(l.node.token) == l.maxReductions + 1
        && l.maxReductions >= 1
  {
  }

  lemma {:induction false} TrialInBounds(root: Tree, good: nat -> bool, base: State, before: seq<State>, bound: nat,
          l: Level, offers: seq<State>, reduction: nat)
    requires LevelOk(root, base, bound, l) && InBounds(root, base) && Tried(base, before, good, l, offers, reduction)
    requires forall i :: 0 <= i < |before| ==> InBounds(root, before[i])
    ensures InBounds(root, base[l.node.path := reduction])
    ensures forall i :: 0 <= i < |offers| ==> InBounds(root, offers[i])
  {
    hide InBounds, LevelOk;
    OneInBounds(root, base, bound, l, reduction);
    forall i | 0 <= i < |offers| ensures InBounds(root, offers[i]) {
      if i < |before| {
        assert offers[i] == before[i];
      } else {
        OneInBounds(root, base, bound, l, i - |before|);
      }
    }
  }

  lemma {:induction false} TrialIsLastGood(root: Tree, base: State, bound: nat, l: Level, st: State, was: State,
          now: State, reduction: nat)
    requires LevelOk(root, base, bound, l) && reduction <= l.maxReductions && st == base[l.node.path := reduction]
    requires Same(root, base, was) && now == if reduction < l.maxReductions then st else was
    ensures Same(root, st, now)
  {
    assert base[l.node.path := l.maxReductions] == base;
  }

  lemma {:induction false} LogGrows(root: Tree, before: seq<State>, offers: seq<State>, good: nat -> bool,
          log: seq<Trial>, s: Trial)
    requires LogOk(root, before, good, log) && |before| <= |offers| && before == offers[..|before|]
    requires TrialOk(root, offers, good, s) && s.at == |before| && |offers| == s.at + Tries(s)
    requires forall t :: t in log ==> t.path != s.path
    ensures LogOk(root, offers, good, log + [s])
  {
    var more := log + [s];
    forall t | t in more ensures TrialOk(root, offers, good, t) {
      if t in log {
        SearchStays(root, before, offers, good, t);
      }
    }
    hide TrialOk, Tries;
    forall i, j | 0 <= i < j < |more| ensures more[i].path != more[j].path {
      assert more[i] in log;
      if j < |log| { assert log[i].path != log[j].path; }
    }
  }

  lemma {:induction false} SearchStays(root: Tree, before: seq<State>, offers: seq<State>, good: nat -> bool, s: Trial)
    requires TrialOk(root, before, good, s) && |before| <= |offers| && before == offers[..|before|]
    ensures TrialOk(root, offers, good, s)
  {
    hide At, Values;
    forall k | s.at <= k < s.at + Tries(s) ensures offers[k] == s.base[s.path := k - s.at] {
      assert offers[k] == before[k];
    }
  }

  // ---------- which tokens are searched ----------

  ghost predicate Searched(log: seq<Trial>, p: Path) {
    exists s :: s in log && s.path == p
  }

  ghost predicate Covered(log: seq<Trial>, q: seq<Node>) {
    forall i :: 0 <= i < |q| ==> Searched(log, q[i].path)
  }

  /** After its own search, the choices below a token were searched too, as far as its kept value shows them. */
  ghost predicate Descended(log: seq<Trial>, s: Trial) {
    Covered(log, FoundSlots(s.token, s.path, Shown(s.token, s.kept)))
  }

  /** n is a choice that the root shows, or that a token of the log shows with the value that was kept. */
  ghost predicate SeenFrom(root: Tree, log: seq<Trial>, n: Node) {
    n in Found(root, []) || exists s :: s in log && n in FoundSlots(s.token, s.path, Shown(s.token, s.kept))
  }

  /** Every token of the log was visible when its search began. */
  ghost predicate OnlyVisible(root: Tree, log: seq<Trial>) {
    forall k :: 0 <= k < |log| ==> SeenFrom(root, log[..k], Node(log[k].path, log[k].token))
  }

  ghost predicate AllSeen(root: Tree, log: seq<Trial>, q: seq<Node>) {
    forall i :: 0 <= i < |q| ==> SeenFrom(root, log, q[i])
  }

  lemma {:induction false} SeenMore(root: Tree, log0: seq<Trial>, log: seq<Trial>, q: seq<Node>)
    requires AllSeen(root, log0, q) && |log0| <= |log| && log[..|log0|] == log0
    ensures AllSeen(root, log, q)
  {
    hide Found, FoundSlots, Shown;
    forall i | 0 <= i < |q| ensures SeenFrom(root, log, q[i]) {
      assert SeenFrom(root, log0, q[i]);
      if q[i] !in Found(root, []) {
        var s :| s in log0 && q[i] in FoundSlots(s.token, s.path, Shown(s.token, s.kept));
        assert s in log[..|log0|];
      }
    }
  }

  lemma {:induction false} VisibleMore(root: Tree, log: seq<Trial>, s: Trial)
    requires OnlyVisible(root, log) && SeenFrom(root, log, Node(s.path, s.token))
    ensures OnlyVisible(root, log + [s])
  {
    hide SeenFrom;
    var more := log + [s];
    forall k | 0 <= k < |more| ensures SeenFrom(root, more[..k], Node(more[k].path, more[k].token)) {
      if k < |log| { assert more[..k] == log[..k]; } else { assert more[..k] == log; }
    }
  }

  /** What a searched token shows has been seen. */
  lemma {:induction false} SeenBelow(root: Tree, log: seq<Trial>, s: Trial)
    requires s in log
    ensures AllSeen(root, log, FoundSlots(s.token, s.path, Shown(s.token, s.kept)))
  {
    hide FoundSlots, Found, Shown;
  }

  lemma {:induction false} SeenAtRoot(root: Tree, log: seq<Trial>)
    ensures AllSeen(root, log, Found(root, [])) && OnlyVisible(root, [])
  {
    hide Found;
  }

  /** The log grew by complete searches at or below base. */
  ghost predicate Grown(log0: seq<Trial>, log: seq<Trial>, base: Path) {
    && |log0| <= |log| && log[..|log0|] == log0
    && forall k :: |log0| <= k < |log| ==> base <= log[k].path && Descended(log, log[k])
  }

  /** The states agree, but for tokens at or below base that are at least as deep as depth. */
  ghost predicate OnlyBeneath(a: State, b: State, base: Path, depth: nat) {
    forall r :: !(base <= r && depth <= |r|) ==> Agree(a, b, r)
  }

  ghost predicate UnsearchedIn(log: seq<Trial>, q: seq<Node>) {
    forall s :: s in log ==> NotIn(q, s.path)
  }

  lemma {:induction false} CoveredMore(log0: seq<Trial>, log: seq<Trial>, q: seq<Node>)
    requires Covered(log0, q) && |log0| <= |log| && log[..|log0|] == log0
    ensures Covered(log, q)
  {
    forall i | 0 <= i < |q| ensures Searched(log, q[i].path) {
      assert Searched(log0, q[i].path);
      var s :| s in log0 && s.path == q[i].path;
      assert s in log[..|log0|];
    }
  }

  lemma {:induction false} GrownOn(log0: seq<Trial>, log1: seq<Trial>, log2: seq<Trial>, base: Path, p: Path)
    requires Grown(log0, log1, base) && Grown(log1, log2, p) && base <= p
    ensures Grown(log0, log2, base)
  {
    hide Covered, FoundSlots;
    forall k | |log0| <= k < |log2| ensures base <= log2[k].path && Descended(log2, log2[k]) {
      if k < |log1| {
        assert log2[k] == log1[k];
        CoveredMore(log1, log2, FoundSlots(log1[k].token, log1[k].path, Shown(log1[k].token, log1[k].kept)));
      } else {
        assert p <= log2[k].path;
      }
    }
    assert log2[..|log0|] == log1[..|log0|];
  }

  lemma {:induction false} NothingToDo(st: State, log: seq<Trial>, base: Path, depth: nat)
    ensures OnlyBeneath(st, st, base, depth) && Grown(log, log, base) && Covered(log, [])
  {
  }

  lemma {:induction false} UnsearchedItself(log: seq<Trial>, n: Node)
    requires UnsearchedIn(log, [n])
    ensures forall s :: s in log ==> s.path != n.path && !(n.path <= s.path)
  {
    forall s | s in log ensures !(n.path <= s.path) {
      assert NotIn([n], s.path) && [n][0] == n;
    }
  }

  /** After the search the children of the token can be looked at. */
  lemma {:induction false} BranchReady(root: Tree, st: State, bound: nat, l: Level, reduction: nat)
    requires LevelOk(root, st, bound, l)
    ensures bound >= 1 && BranchOk(root, st[l.node.path := reduction], bound - 1, l.node)
    ensures ValueAt(root, st[l.node.path := reduction], l.node.path) == reduction
  {
  }

  lemma {:induction false} SettledElsewhere(a: State, b: State, log: seq<Trial>, n: Node, q: seq<Node>)
    requires Settled(a, log) && OnlyIn(a, b, q) && Under(q, n.path, |n.path| + 1)
    requires forall s :: s in log ==> s.path == n.path || !(n.path <= s.path)
    ensures Settled(b, log) && UnsearchedIn(log, q)
  {
    forall s | s in log ensures NotIn(q, s.path) {
    }
    forall s | s in log ensures s.path in b && b[s.path] == s.kept {
      assert NotIn(q, s.path);
      assert Agree(a, b, s.path);
    }
  }

  lemma {:induction false} EachUnsearched(log: seq<Trial>, q: seq<Node>)
    requires UnsearchedIn(log, q)
    ensures forall j :: 0 <= j < |q| ==> UnsearchedIn(log, [q[j]])
  {
  }

  lemma {:induction false} GrownPrefix(log0: seq<Trial>, log: seq<Trial>, p: Path)
    requires Grown(log0, log, p)
    ensures |log0| <= |log| && log[..|log0|] == log0
  {
  }

  lemma {:induction false} SettledNone(st: State)
    ensures Settled(st, [])
  {
  }

  lemma {:induction false} AllUnder(q: seq<Node>)
    ensures Under(q, [], 0) && UnsearchedIn([], q)
  {
  }

  /** What one round did. */
  lemma {:induction false} ReducedOne(st0: State, st1: State, st2: State, st3: State, log0: seq<Trial>,
          log: seq<Trial>, n: Node, s: Trial, q: seq<Node>)
    requires st1 == st0[n.path := s.kept] && OnlyIn(st1, st2, q) && Under(q, n.path, |n.path| + 1)
    requires OnlyBeneath(st2, st3, n.path, |n.path| + 1)
    requires s.path == n.path && Grown(log0 + [s], log, n.path) && Covered(log, q)
    requires q == FoundSlots(s.token, s.path, Shown(s.token, s.kept))
    ensures OnlyAt(st0, st3, n.path) && Grown(log0, log, n.path) && Covered(log, [n])
  {
    hide FoundSlots, Covered, Shown;
    forall r | !(n.path <= r) ensures Agree(st0, st3, r) {
      assert NotIn(q, r);
      assert Agree(st1, st2, r) && Agree(st2, st3, r);
    }
    assert log[|log0|] == (log0 + [s])[|log0|] == s;
    assert log[..|log0|] == (log0 + [s])[..|log0|] == log0;
    CoveredItself(log, s, n);
  }

  lemma {:induction false} CoveredItself(log: seq<Trial>, s: Trial, n: Node)
    requires s in log && s.path == n.path
    ensures Covered(log, [n])
  {
  }

  /** The levels still to come are not affected by a round. */
  lemma {:induction false} NextReady(root: Tree, a: State, b: State, bound: nat, l: Level, n: Node, log0: seq<Trial>,
          log: seq<Trial>)
    requires LevelOk(root, a, bound, l) && UnsearchedIn(log0, [l.node])
    requires Apart(n.path, l.node.path) && OnlyAt(a, b, n.path) && Grown(log0, log, n.path)
    ensures LevelOk(root, b, bound, l) && UnsearchedIn(log, [l.node])
  {
    hide Descended, LevelOk;
    LevelElsewhere(root, a, b, bound, l, n.path);
    forall s | s in log ensures NotIn([l.node], s.path) {
      var k :| 0 <= k < |log| && log[k] == s;
      if k < |log0| {
        assert log[..|log0|][k] == log0[k];
        assert log0[k] in log0;
      } else if l.node.path <= s.path {
        ApartNoneBelow(n.path, l.node.path, s.path);
      }
    }
  }

  lemma {:induction false} RoundBeneath(a: State, b: State, c: State, n: Node, base: Path, depth: nat)
    requires OnlyBeneath(a, b, base, depth) && OnlyAt(b, c, n.path) && base <= n.path && depth <= |n.path|
    ensures OnlyBeneath(a, c, base, depth)
  {
    forall r | !(base <= r && depth <= |r|) ensures Agree(a, c, r) {
      assert !(n.path <= r);
      assert Agree(a, b, r) && Agree(b, c, r);
    }
  }

  lemma {:induction false} CoveredNext(log0: seq<Trial>, log: seq<Trial>, q: seq<Node>, i: nat)
    requires i < |q| && Covered(log0, q[..i]) && |log0| <= |log| && log[..|log0|] == log0 && Covered(log, [q[i]])
    ensures Covered(log, q[..i + 1])
  {
    CoveredMore(log0, log, q[..i]);
    var front := q[..i + 1];
    forall j | 0 <= j < |front| ensures Searched(log, front[j].path) {
      if j < i { assert q[..i][j] == q[j]; } else { assert [q[i]][0] == q[i]; }
    }
  }

  class Reducer {
    const root: Tree
    /** Whether the k-th offer is answered with Good. */
    const good: nat -> bool
    var st: State
    ghost var offers: seq<State>
    var steps: nat
    ghost var log: seq<Trial>

    ghost predicate Valid()
      reads this
    {
      InBounds(root, st) && LogOk(root, offers, good, log) && Settled(st, log) && |offers| == steps
      && Same(root, st, LastGood(offers, good, map[]))
      && OnlyVisible(root, log)
      && forall i :: 0 <= i < |offers| ==> InBounds(root, offers[i])
    }

    constructor (root: Tree, good: nat -> bool)
      ensures Valid() && this.root == root && this.good == good && st == map[] && offers == [] && log == []
    {
      this.root, this.good, st, offers, steps, log := root, good, map[], [], 0, [];
    }

    /** Offer the current state, and wait for the answer. */
    method NextStep() returns (answer: bool)
      requires |offers| == steps
      modifies this`offers, this`steps
      ensures offers == old(offers) + [st] && |offers| == steps && answer == good(old(steps))
    {
      offers := offers + [st];
      answer := good(steps);
      steps := steps + 1;
    }

    /** Reduce of the token at p. */
    method SetReduction(n: Node, reduction: nat)
      requires At(root, n.path) == Here(n.token) && reduction < Values(n.token)
      modifies this`st
      ensures st == old(st)[n.path := reduction]
    {
      st := st[n.path := reduction];
    }

    /** The children that the token shows, in front of the queue, the first one first. */
    method Unshift(n: Node, sel: seq<nat>, queue: seq<Node>) returns (q: seq<Node>)
      requires forall i :: 0 <= i < |sel| ==> sel[i] < |Slots(n.token)|
      ensures q == KidNodes(n, sel) + queue
    {
      ghost var ks := KidNodes(n, sel);
      q := queue;
      var i := |sel|;
      assert ks[i..] + queue == queue;
      while i > 0
        invariant 0 <= i <= |sel| && q == ks[i..] + queue
      {
        i := i - 1;
        assert ks[i..] == [ks[i]] + ks[i + 1..];
        q := [Node(n.path + [sel[i]], Slots(n.token)[sel[i]])] + q;
      }
    }

    /** The worklist of getTree: what is found, from left to right, is set to its full value. */
    method Sweep(q0: seq<Node>, ghost bound: nat, ghost base: Path, ghost depth: nat) returns (tree: seq<Level>)
      requires NodesOk(root, st, bound, q0) && AllApart(q0) && Under(q0, base, depth) && InBounds(root, st)
      modifies this`st
      ensures LevelsOk(root, st, bound, tree) && AllApart(Nodes(tree)) && Under(Nodes(tree), base, depth)
      ensures Nodes(tree) == FoundIn(q0)
      ensures InBounds(root, st) && Same(root, st, old(st)) && OnlyIn(old(st), st, Nodes(tree))
    {
      hide Same, InBounds, LevelOk, NodeOk, Proper, AllApart, Reduces, OnlyIn, Under;
      var q := q0;
      tree := [];
      SweepStarts(root, st, bound, q0, base, depth);
      while q != []
        invariant Sweeping(root, old(st), st, bound, base, depth, tree, q)
        invariant Nodes(tree) + FoundIn(q) == FoundIn(q0)
        decreases WeightAll(q)
      {
        var n := q[0];
        assert q == [n] + q[1..];
        q := q[1..];
        FoundInSplit([n], q);
        if Reducible(n.token) {
          var reduces := Reduces(n.token, n.path in st);
          SweepFresh(root, old(st), st, bound, base, depth, tree, n, q);
          if reduces < 2 {
            SweepSkips(root, old(st), st, bound, base, depth, tree, n, q);
            continue;
          }
          SweepFinds(root, old(st), st, bound, base, depth, tree, n, q);
          SetReduction(n, reduces - 1);
          tree := tree + [Level(n, reduces - 1)];
        } else {
          var sel := Shown(n.token, 0);
          SweepEnters(root, old(st), st, bound, base, depth, tree, n, q);
          WeightAllSplit(KidNodes(n, sel), q);
          FoundInSplit(KidNodes(n, sel), q);
          FoundInKids(n, sel);
          q := Unshift(n, sel, q);
        }
      }
      SweepEnds(root, old(st), st, bound, base, depth, tree);
    }

    /** getTree of the root. */
    method GetTree() returns (tree: seq<Level>)
      requires Proper(root) && st == map[]
      modifies this`st
      ensures LevelsOk(root, st, Weight(root), tree) && AllApart(Nodes(tree))
      ensures Nodes(tree) == Found(root, [])
      ensures InBounds(root, st) && Same(root, st, old(st))
    {
      var n := Node([], root);
      assert FoundIn([n]) == Found(root, []) + FoundIn([]);
      tree := Sweep([n], Weight(root), [], 0);
    }

    /** getTree of the children of a token. */
    method GetChildren(l: Level, ghost bound: nat) returns (tree: seq<Level>)
      requires BranchOk(root, st, bound, l.node) && InBounds(root, st)
      modifies this`st
      ensures LevelsOk(root, st, bound, tree) && AllApart(Nodes(tree))
      ensures Under(Nodes(tree), l.node.path, |l.node.path| + 1)
      ensures Nodes(tree)
          == FoundSlots(l.node.token, l.node.path, Shown(l.node.token, ValueAt(root, old(st), l.node.path)))
      ensures InBounds(root, st) && Same(root, st, old(st)) && OnlyIn(old(st), st, Nodes(tree))
    {
      hide Same, InBounds, Proper, AllApart, OnlyIn, LevelsOk, NodesOk, BranchOk, Under;
      var n := l.node;
      var sel := Shown(n.token, ValueAt(root, st, n.path));
      KidsReady(root, st, bound, n, sel);
      FoundInKids(n, sel);
      var q := Unshift(n, sel, []);
      assert q == KidNodes(n, sel);
      tree := Sweep(q, bound, n.path, |n.path| + 1);
    }

    /** Offer the reductions of one token, the smallest first, until one is answered with Good. */
    method Try(l: Level) returns (reduction: nat)
      requires |offers| == steps && l.maxReductions >= 1
      requires At(root, l.node.path) == Here(l.node.token) && Values(l.node.token) == l.maxReductions + 1
      modifies this`st, this`offers, this`steps
      ensures |offers| == steps && reduction <= l.maxReductions && st == old(st)[l.node.path := reduction]
      ensures Tried(old(st), old(offers), good, l, offers, reduction)
      ensures LastGood(offers, good, map[]) == if reduction < l.maxReductions then st
          else LastGood(old(offers), good, map[])
    {
      hide At, Values, Tried, Rejected, LastGood;
      var p := l.node.path;
      RejectedNone(st, p, offers, good);
      ghost var base, before := st, offers;
      reduction := 0;
      while true
        invariant 0 <= reduction < l.maxReductions && |offers| == steps == |before| + reduction
        invariant st == base || (reduction > 0 && st == base[p := reduction - 1])
        invariant Rejected(base, p, before, good, offers)
        decreases l.maxReductions - reduction
      {
        SetAgain(base, p, reduction, if reduction > 0 then reduction - 1 else 0);
        SetReduction(l.node, reduction);
        ghost var tried := offers;
        var answer := NextStep();
        TriedOnce(base, before, good, l, tried, reduction);
        if answer {
          break;
        }
        if reduction == l.maxReductions - 1 {
          SetAgain(base, p, l.maxReductions, reduction);
          reduction := l.maxReductions;
          SetReduction(l.node, reduction);
          break;
        }
        reduction := reduction + 1;
      }
    }

    /** The search for the reduction of one token. */
    method Search(l: Level, ghost bound: nat) returns (reduction: nat)
      requires Valid() && LevelOk(root, st, bound, l) && forall s :: s in log ==> s.path != l.node.path
      requires SeenFrom(root, log, l.node)
      modifies this
      ensures Valid() && reduction <= l.maxReductions && st == old(st)[l.node.path := reduction]
      ensures log == old(log) + [Trial(l.node.path, l.node.token, old(st), |old(offers)|, reduction)]
    {
      hide At, Values, LevelOk, InBounds, LogOk, Settled, Same, LastGood, Tried, SeenFrom, OnlyVisible;
      ghost var base, before := st, offers;
      LevelIsSound(root, st, bound, l);
      reduction := Try(l);
      SearchValid(root, good, base, before, log, bound, l, offers, st, reduction);
      VisibleMore(root, log, Trial(l.node.path, l.node.token, base, |before|, reduction));
      log := log + [Trial(l.node.path, l.node.token, base, |before|, reduction)];
    }

    /** One round of the loop over a level: search, and then reduce the children that are left. */
    method ReduceOne(l: Level, ghost bound: nat)
      requires Valid() && LevelOk(root, st, bound, l) && UnsearchedIn(log, [l.node]) && SeenFrom(root, log, l.node)
      modifies this
      ensures Valid() && OnlyAt(old(st), st, l.node.path)
      ensures Grown(old(log), log, l.node.path) && Covered(log, [l.node])
      decreases bound, 0
    {
      hide LevelOk, InBounds, LogOk, Settled, Same, LastGood, OnlyAt, OnlyIn, OnlyBeneath, AllApart, Nodes, LevelsOk,
          BranchOk;
      hide Under, Grown, Covered, UnsearchedIn, FoundSlots, Shown, ValueAt, SeenFrom, AllSeen, OnlyVisible;
      ghost var st0, log0 := st, log;
      UnsearchedItself(log, l.node);
      var reduction := Search(l, bound);
      ghost var s := Trial(l.node.path, l.node.token, st0, |old(offers)|, reduction);
      ghost var st1 := st;
      SeenBelow(root, log, s);
      BranchReady(root, st0, bound, l, reduction);
      var children := GetChildren(l, bound - 1);
      ghost var st2 := st;
      SettledElsewhere(st1, st2, log, l.node, Nodes(children));
      SameTrans(root, st2, st1, LastGood(offers, good, map[]));
      NothingToDo(st, log, l.node.path, |l.node.path| + 1);
      if |children| > 0 {
        Reduce(children, l.node.path, |l.node.path| + 1, bound - 1);
      } else {
        assert Nodes(children) == [];
      }
      ReducedOne(st0, st1, st2, st, log0, log, l.node, s, Nodes(children));
    }

    /** reduce: the tokens of a level, one after the other. */
    method Reduce(tree: seq<Level>, ghost base: Path, ghost depth: nat, ghost bound: nat)
      requires Valid() && LevelsOk(root, st, bound, tree) && AllApart(Nodes(tree)) && Under(Nodes(tree), base, depth)
      requires UnsearchedIn(log, Nodes(tree)) && AllSeen(root, log, Nodes(tree))
      modifies this
      ensures Valid() && OnlyBeneath(old(st), st, base, depth)
      ensures Grown(old(log), log, base) && Covered(log, Nodes(tree))
      decreases bound, 1
    {
      hide LevelOk, InBounds, LogOk, Settled, Same, LastGood, OnlyAt, OnlyBeneath, Grown, Covered, Apart, UnsearchedIn;
      hide SeenFrom, OnlyVisible;
      ghost var q := Nodes(tree);
      NothingToDo(st, log, base, depth);
      EachUnsearched(log, q);
      var i := 0;
      assert q[..0] == [];
      while i < |tree|
        invariant 0 <= i <= |tree| && Valid() && OnlyBeneath(old(st), st, base, depth)
        invariant forall j :: i <= j < |tree| ==> LevelOk(root, st, bound, tree[j]) && UnsearchedIn(log, [tree[j].node])
        invariant Grown(old(log), log, base) && Covered(log, q[..i]) && AllSeen(root, log, q)
      {
        ghost var st0, log0 := st, log;
        ReduceOne(tree[i], bound);
        forall j | i < j < |tree| ensures LevelOk(root, st, bound, tree[j]) && UnsearchedIn(log, [tree[j].node]) {
          NextReady(root, st0, st, bound, tree[j], tree[i].node, log0, log);
        }
        RoundBeneath(old(st), st0, st, q[i], base, depth);
        GrownPrefix(log0, log, q[i].path);
        SeenMore(root, log0, log, q);
        GrownOn(old(log), log0, log, base, q[i].path);
        CoveredNext(log0, log, q, i);
        i := i + 1;
      }
      assert q[..i] == q;
    }

    /** A whole run. */
    method Run()
      requires Valid() && Proper(root) && st == map[] && log == []
      modifies this
      ensures Valid() && Covered(log, Found(root, []))
      ensures forall s :: s in log ==> Descended(log, s)
    {
      hide LevelOk, InBounds, Settled, Same, LastGood, Covered, Proper, Descended, Found, Weight, AllApart;
      hide SeenFrom, OnlyVisible, AllSeen;
      ghost var st0 := st;
      var tree := GetTree();
      SameTrans(root, st, st0, LastGood(offers, good, map[]));
      SettledNone(st);
      AllUnder(Nodes(tree));
      SeenAtRoot(root, log);
      NothingToDo(st, log, [], 0);
      if |tree| > 0 {
        Reduce(tree, [], 0, Weight(root));
      } else {
        assert Nodes(tree) == [];
      }
    }
  }

  // ---------- exactly the visible choices are searched ----------

  /** An Optional that is there, or a Repeat with more items than it needs. */
  predicate HasChoice(t: Tree) {
    (t.Optional? && t.active) || (t.Repeat? && t.from < |t.items|)
  }

  /** With these values, the tokens on the way to p show the next one. */
  ghost predicate Visible(root: Tree, st: State, p: Path)
    decreases |p|
  {
    p == [] ||
    var q := p[..|p| - 1];
    Visible(root, st, q) && At(root, q).Here? && p[|p| - 1] in Shown(At(root, q).tree, ValueAt(root, st, q))
  }

  /** Whatever can be reduced above p has a choice. */
  ghost predicate ChoicesAbove(root: Tree, p: Path) {
    forall q :: q < p && At(root, q).Here? && Reducible(At(root, q).tree) ==> HasChoice(At(root, q).tree)
  }

  /** p has a choice and is visible, and no token without a choice that could have one is above it. */
  ghost predicate Searchable(root: Tree, st: State, p: Path) {
    && At(root, p).Here? && HasChoice(At(root, p).tree) && Visible(root, st, p)
    && ChoicesAbove(root, p)
  }

  lemma {:induction false} ChoiceReduces(t: Tree)
    requires Proper(t) && Reducible(t)
    ensures HasChoice(t) <==> Reduces(t, false) >= 2
  {
    hide Reductions;
    if t.Repeat? { RepeatValues(t); }
  }

  lemma {:induction false} ProperAt(root: Tree, p: Path)
    requires Proper(root) && At(root, p).Here?
    ensures Proper(At(root, p).tree)
    decreases |p|
  {
    if p != [] { ProperAt(Slots(root)[p[0]], p[1..]); }
  }

  lemma {:induction false} AtSplit(t: Tree, a: Path, b: Path)
    requires At(t, a).Here?
    ensures At(t, a + b) == At(At(t, a).tree, b)
    decreases |a|
  {
    if a == [] {
      assert a + b == b;
    } else {
      assert (a + b)[1..] == a[1..] + b;
      AtSplit(Slots(t)[a[0]], a[1..], b);
    }
  }

  lemma {:induction false} AtPrefix(t: Tree, p: Path, q: Path)
    requires At(t, p).Here? && q <= p
    ensures At(t, q).Here?
    decreases |q|
  {
    if q != [] { AtPrefix(Slots(t)[p[0]], p[1..], q[1..]); }
  }

  /** d leads from t to a choice, through tokens that could not have one, by slots that they show. */
  ghost predicate LeadsTo(t: Tree, d: Path)
    decreases |d|
  {
    if d == [] then HasChoice(t)
    else !Reducible(t) && d[0] in Shown(t, 0) && d[0] < |Slots(t)| && LeadsTo(Slots(t)[d[0]], d[1..])
  }

  lemma {:induction false} LedIsFound(t: Tree, p: Path, d: Path, c: Tree)
    requires Proper(t) && LeadsTo(t, d) && At(t, d) == Here(c)
    ensures Node(p + d, c) in Found(t, p)
    decreases t, 1
  {
    if d == [] {
      assert p + d == p;
      ChoiceReduces(t);
    } else {
      hide Shown;
      LedIsFoundIn(t, p, Shown(t, 0), d, c);
    }
  }

  lemma {:induction false} LedIsFoundIn(t: Tree, p: Path, sel: seq<nat>, d: Path, c: Tree)
    requires Proper(t) && d != [] && d[0] in sel && d[0] < |Slots(t)|
    requires LeadsTo(Slots(t)[d[0]], d[1..]) && At(t, d) == Here(c)
    ensures Node(p + d, c) in FoundSlots(t, p, sel)
    decreases t, 0, |sel|
  {
    hide LeadsTo, Found, Reductions;
    if sel[0] == d[0] {
      LedIsFound(Slots(t)[d[0]], p + [d[0]], d[1..], c);
      assert p + [d[0]] + d[1..] == p + d;
    } else {
      LedIsFoundIn(t, p, sel[1..], d, c);
    }
  }

  lemma {:induction false} FoundIsLed(t: Tree, p: Path, n: Node) returns (d: Path)
    requires Proper(t) && n in Found(t, p)
    ensures n.path == p + d && LeadsTo(t, d) && At(t, d) == Here(n.token)
    decreases t, 1
  {
    if Reducible(t) {
      ChoiceReduces(t);
      d := [];
      assert p + d == p;
    } else {
      hide Shown;
      d := FoundInIsLed(t, p, Shown(t, 0), n);
    }
  }

  lemma {:induction false} FoundInIsLed(t: Tree, p: Path, sel: seq<nat>, n: Node) returns (d: Path)
    requires Proper(t) && n in FoundSlots(t, p, sel)
    ensures d != [] && n.path == p + d && d[0] in sel && d[0] < |Slots(t)| && LeadsTo(Slots(t)[d[0]], d[1..])
    ensures At(t, d) == Here(n.token)
    decreases t, 0, |sel|
  {
    hide LeadsTo, Found, Reductions;
    if sel[0] < |Slots(t)| && n in Found(Slots(t)[sel[0]], p + [sel[0]]) {
      d := FoundIsLed(Slots(t)[sel[0]], p + [sel[0]], n);
      assert p + [sel[0]] + d == p + ([sel[0]] + d) && ([sel[0]] + d)[1..] == d;
      d := [sel[0]] + d;
    } else {
      d := FoundInIsLed(t, p, sel[1..], n);
    }
  }

  /** From a searchable or free place, what it leads to is searchable, too. */
  lemma {:induction false} LedIsSearchable(root: Tree, st: State, p: Path, t: Tree, d: Path)
    requires At(root, p) == Here(t) && Visible(root, st, p) && LeadsTo(t, d) && ChoicesAbove(root, p)
    ensures At(root, p + d) == At(t, d) && Searchable(root, st, p + d)
    decreases |d|
  {
    AtSplit(root, p, d);
    if d == [] {
      assert p + d == p;
    } else {
      PathJoin(p, d);
      assert Shown(t, 0) == Shown(t, ValueAt(root, st, p));
      hide Shown, At, Visible, ValueAt, HasChoice, ChoicesAbove;
      ShownIsVisible(root, st, p, t, d[0]);
      ChoicesStep(root, p, d[0]);
      LedIsSearchable(root, st, p + [d[0]], Slots(t)[d[0]], d[1..]);
    }
  }

  lemma {:induction false} PathJoin(p: Path, d: Path)
    requires d != []
    ensures p + [d[0]] + d[1..] == p + d
  {
  }

  lemma {:induction false} ShownIsVisible(root: Tree, st: State, p: Path, t: Tree, i: nat)
    requires At(root, p) == Here(t) && Visible(root, st, p) && i in Shown(t, ValueAt(root, st, p)) && i < |Slots(t)|
    ensures At(root, p + [i]) == Here(Slots(t)[i]) && Visible(root, st, p + [i])
  {
    assert (p + [i])[..|p + [i]| - 1] == p;
    hide Shown, ValueAt;
    AtChild(root, p, t, i);
  }

  lemma {:induction false} ChoicesStep(root: Tree, p: Path, i: nat)
    requires ChoicesAbove(root, p) && At(root, p).Here?
    requires Reducible(At(root, p).tree) ==> HasChoice(At(root, p).tree)
    ensures ChoicesAbove(root, p + [i])
  {
    hide At;
    forall r | r < p + [i] && At(root, r).Here? && Reducible(At(root, r).tree) ensures HasChoice(At(root, r).tree) {
      if r != p { assert r < p; }
    }
  }

  /** The same from a searched token, by a slot that it shows. */
  lemma {:induction false} BelowIsSearchable(root: Tree, st: State, p: Path, t: Tree, d: Path)
    requires At(root, p) == Here(t) && Searchable(root, st, p) && d != []
    requires d[0] in Shown(t, ValueAt(root, st, p)) && d[0] < |Slots(t)| && LeadsTo(Slots(t)[d[0]], d[1..])
    ensures Searchable(root, st, p + d)
  {
    hide LeadsTo, Shown, At, Visible, ValueAt, HasChoice, ChoicesAbove;
    PathJoin(p, d);
    ShownIsVisible(root, st, p, t, d[0]);
    ChoicesStep(root, p, d[0]);
    LedIsSearchable(root, st, p + [d[0]], Slots(t)[d[0]], d[1..]);
  }

  lemma {:induction false} SearchedIsSearchable(root: Tree, st: State, log: seq<Trial>, k: nat)
    requires Proper(root) && OnlyVisible(root, log) && Settled(st, log) && k < |log|
    requires forall s :: s in log ==> At(root, s.path) == Here(s.token)
    ensures Searchable(root, st, log[k].path)
    decreases k
  {
    var n := Node(log[k].path, log[k].token);
    assert SeenFrom(root, log[..k], n);
    hide OnlyVisible, Proper, At, Found, FoundSlots, Shown, Searchable, LeadsTo;
    if n in Found(root, []) {
      RootIsSearchable(root, st, n);
    } else {
      var s :| s in log[..k] && n in FoundSlots(s.token, s.path, Shown(s.token, s.kept));
      var i := EarlierAt(log, k, s);
      SearchedIsSearchable(root, st, log, i);
      assert s.path in st && st[s.path] == s.kept;
      hide Settled;
      FoundBelowIsSearchable(root, st, s, n);
    }
  }

  lemma {:induction false} EarlierAt(log: seq<Trial>, k: nat, s: Trial) returns (i: nat)
    requires k <= |log| && s in log[..k]
    ensures i < k && log[i] == s && s in log
  {
    i :| 0 <= i < k && log[..k][i] == s;
  }

  lemma {:induction false} RootIsSearchable(root: Tree, st: State, n: Node)
    requires Proper(root) && n in Found(root, [])
    ensures Searchable(root, st, n.path)
  {
    hide Found, Proper, LeadsTo, Searchable;
    var d := FoundIsLed(root, [], n);
    assert [] + d == d;
    LedIsSearchable(root, st, [], root, d);
  }

  lemma {:induction false} FoundBelowIsSearchable(root: Tree, st: State, s: Trial, n: Node)
    requires Proper(root) && At(root, s.path) == Here(s.token) && Searchable(root, st, s.path)
    requires s.path in st && st[s.path] == s.kept && n in FoundSlots(s.token, s.path, Shown(s.token, s.kept))
    ensures Searchable(root, st, n.path)
  {
    assert s.kept == ValueAt(root, st, s.path);
    hide *;
    ProperAt(root, s.path);
    var d := FoundInIsLed(s.token, s.path, Shown(s.token, s.kept), n);
    BelowIsSearchable(root, st, s.path, s.token, d);
  }

  lemma {:induction false} PathStep(q: Path, p: Path)
    requires q < p
    ensures var d := p[|q|..];
            d != [] && q + d == p && d[0] == p[|q|] && d[1..] == p[|q + [d[0]]|..] && q + [d[0]] <= p && p[..|q|] == q
  {
  }

  /** Nothing from q on, before p, can be reduced. */
  ghost predicate PlainWay(root: Tree, q: Path, p: Path) {
    forall r :: q <= r < p && At(root, r).Here? ==> !Reducible(At(root, r).tree)
  }

  lemma {:induction false} PlainNext(root: Tree, q: Path, i: nat, p: Path)
    requires forall r :: q < r < p && At(root, r).Here? ==> !Reducible(At(root, r).tree)
    ensures PlainWay(root, q + [i], p)
  {
    hide At, Reducible;
    forall r | q + [i] <= r < p && At(root, r).Here? ensures !Reducible(At(root, r).tree) {
      assert q < r by { assert (q + [i])[..|q|] == q && r[..|q|] == q; }
    }
  }

  /** On a way like this, the next token is shown by the token at q. */
  lemma {:induction false} WayStep(root: Tree, st: State, q: Path, p: Path, t: Tree)
    requires Visible(root, st, p) && At(root, p).Here? && q < p && At(root, q) == Here(t)
    ensures var i := p[|q|];
            i in Shown(t, ValueAt(root, st, q)) && i < |Slots(t)| && At(root, q + [i]) == Here(Slots(t)[i])
  {
    hide Shown, Visible, ValueAt;
    PathStep(q, p);
    VisibleStep(root, st, p, |q|);
    AtPrefix(root, p, q + [p[|q|]]);
    AtSplit(root, q, [p[|q|]]);
    StepDown(root, t, p[|q|]);
  }

  /** The way from a token without a choice on to p. */
  lemma {:induction false} WayLeads(root: Tree, st: State, q: Path, p: Path, t: Tree)
    requires At(root, p).Here? && HasChoice(At(root, p).tree) && Visible(root, st, p)
    requires q <= p && At(root, q) == Here(t) && PlainWay(root, q, p)
    ensures LeadsTo(t, p[|q|..])
    decreases |p| - |q|
  {
    if q == p {
      assert p[|q|..] == [];
    } else {
      var i := p[|q|];
      assert q < p && !Reducible(t);
      assert Shown(t, 0) == Shown(t, ValueAt(root, st, q));
      hide Shown, Visible, ValueAt, HasChoice, At, Reducible;
      PathStep(q, p);
      WayStep(root, st, q, p, t);
      PlainNext(root, q, i, p);
      hide PlainWay;
      WayLeads(root, st, q + [i], p, Slots(t)[i]);
    }
  }

  lemma {:induction false} VisibleStep(root: Tree, st: State, p: Path, k: nat)
    requires Visible(root, st, p) && k < |p|
    ensures Visible(root, st, p[..k]) && At(root, p[..k]).Here?
        && p[k] in Shown(At(root, p[..k]).tree, ValueAt(root, st, p[..k]))
    decreases |p|
  {
    var q := p[..|p| - 1];
    hide Shown;
    if k < |p| - 1 {
      VisibleStep(root, st, q, k);
      assert q[..k] == p[..k];
    }
  }

  /** The last place on the way to p, before p, where something can be reduced. */
  lemma {:induction false} LastAbove(root: Tree, p: Path, k: nat) returns (found: bool, q: Path)
    requires At(root, p).Here? && k <= |p|
    ensures found ==> q < p && At(root, q).Here? && Reducible(At(root, q).tree)
    ensures found ==> |q| < k && forall r :: q < r < p && |r| < k && At(root, r).Here? ==> !Reducible(At(root, r).tree)
    ensures !found ==> forall r :: r < p && |r| < k && At(root, r).Here? ==> !Reducible(At(root, r).tree)
    decreases k
  {
    if k == 0 {
      found, q := false, [];
    } else {
      var c := p[..k - 1];
      AtPrefix(root, p, c);
      if Reducible(At(root, c).tree) {
        found, q := true, c;
      } else {
        found, q := LastAbove(root, p, k - 1);
        assert forall r :: r < p && |r| == k - 1 ==> r == c;
      }
    }
  }

  lemma {:induction false} SearchableIsSearched(root: Tree, st: State, log: seq<Trial>, p: Path)
    requires Proper(root) && Settled(st, log) && Searchable(root, st, p)
    requires Covered(log, Found(root, [])) && forall s :: s in log ==> Descended(log, s)
    requires forall s :: s in log ==> At(root, s.path) == Here(s.token)
    ensures Searched(log, p)
    decreases |p|
  {
    hide Found, FoundSlots, Shown, LeadsTo;
    var found, q := LastAbove(root, p, |p|);
    var c := At(root, p).tree;
    if !found {
      WayLeads(root, st, [], p, root);
      assert p[0..] == p && [] + p == p;
      LedIsFound(root, [], p, c);
      CoveredAt(log, Found(root, []), Node(p, c));
    } else {
      AboveIsSearchable(root, st, p, q);
      SearchableIsSearched(root, st, log, q);
      var s :| s in log && s.path == q;
      WayFromSearched(root, st, p, q, s);
      CoveredAt(log, FoundSlots(s.token, s.path, Shown(s.token, s.kept)), Node(p, c));
    }
  }

  lemma {:induction false} WayFromSearched(root: Tree, st: State, p: Path, q: Path, s: Trial)
    requires Proper(root) && At(root, p).Here? && HasChoice(At(root, p).tree) && Visible(root, st, p)
    requires q < p && s.path == q && At(root, q) == Here(s.token) && q in st && st[q] == s.kept
    requires forall r :: q < r < p && At(root, r).Here? ==> !Reducible(At(root, r).tree)
    ensures Node(p, At(root, p).tree) in FoundSlots(s.token, q, Shown(s.token, s.kept))
  {
    var i, d := p[|q|], p[|q|..];
    assert s.kept == ValueAt(root, st, q);
    hide *;
    PathStep(q, p);
    WayStep(root, st, q, p, s.token);
    AtSplit(root, q, d);
    PlainNext(root, q, i, p);
    WayLeads(root, st, q + [i], p, Slots(s.token)[i]);
    ProperAt(root, q);
    LedIsFoundIn(s.token, q, Shown(s.token, s.kept), d, At(root, p).tree);
  }

  lemma {:induction false} StepDown(root: Tree, t: Tree, i: nat)
    ensures At(t, [i]) == if i < |Slots(t)| then Here(Slots(t)[i]) else Nowhere
  {
    assert [i][1..] == [];
  }

  lemma {:induction false} AboveIsSearchable(root: Tree, st: State, p: Path, q: Path)
    requires Searchable(root, st, p) && q < p && At(root, q).Here? && Reducible(At(root, q).tree)
    ensures Searchable(root, st, q)
  {
    hide Shown;
    VisibleStep(root, st, p, |q|);
    assert p[..|q|] == q;
  }

  lemma {:induction false} CoveredAt(log: seq<Trial>, q: seq<Node>, n: Node)
    requires Covered(log, q) && n in q
    ensures Searched(log, n.path)
  {
  }

  /** A token is searched exactly if, at the end, it is visible and has a choice, below tokens that have one. */
  lemma {:induction false} SearchedExactly(root: Tree, st: State, log: seq<Trial>, p: Path)
    requires Proper(root) && Settled(st, log) && OnlyVisible(root, log)
    requires Covered(log, Found(root, [])) && forall s :: s in log ==> Descended(log, s)
    requires forall s :: s in log ==> At(root, s.path) == Here(s.token)
    ensures Searched(log, p) <==> Searchable(root, st, p)
  {
    hide Settled, OnlyVisible, Covered, Descended, Found, Searchable;
    if Searched(log, p) {
      var s :| s in log && s.path == p;
      var k :| 0 <= k < |log| && log[k] == s;
      SearchedIsSearchable(root, st, log, k);
    }
    if Searchable(root, st, p) { SearchableIsSearched(root, st, log, p); }
  }

  // ---------- whole runs ----------

  /** Without a Good nothing has changed. */
  lemma {:induction false} NoGood(offers: seq<State>, good: nat -> bool)
    requires forall i :: 0 <= i < |offers| ==> !good(i)
    ensures LastGood(offers, good, map[]) == map[]
  {
    if offers != [] { NoGood(offers[..|offers| - 1], good); }
  }

  lemma {:induction false} SamePrints(root: Tree, a: State, b: State, t: Tree, p: Path)
    requires Same(root, a, b)
    ensures Print(root, a, t, p) == Print(root, b, t, p)
    decreases t, 1
  {
    assert ValueAt(root, a, p) == ValueAt(root, b, p);
    hide Same, ValueAt;
    if !t.Text? { SamePrintsIn(root, a, b, t, p, Shown(t, ValueAt(root, a, p))); }
  }

  lemma {:induction false} SamePrintsIn(root: Tree, a: State, b: State, t: Tree, p: Path, sel: seq<nat>)
    requires Same(root, a, b)
    ensures PrintSlots(root, a, t, p, sel) == PrintSlots(root, b, t, p, sel)
    decreases t, 0, |sel|
  {
    hide Same;
    if sel != [] {
      if sel[0] < |Slots(t)| { SamePrints(root, a, b, Slots(t)[sel[0]], p + [sel[0]]); }
      SamePrintsIn(root, a, b, t, p, sel[1..]);
    }
  }

  /** In the offers of its search a token shows its reductions, one after the other, with all that is below them. */
  ghost predicate OffersShow(root: Tree, offers: seq<State>, s: Trial) {
    forall k: nat :: k < Tries(s) ==>
        s.at + k < |offers| && Print(root, offers[s.at + k], s.token, s.path) == HoldsAt(s.token, k)
  }

  lemma {:induction false} OfferShows(root: Tree, offers: seq<State>, good: nat -> bool, s: Trial)
    requires Proper(root) && TrialOk(root, offers, good, s)
    ensures OffersShow(root, offers, s)
  {
    hide Print, HoldsAt, Values, Tries;
    ProperAt(root, s.path);
    forall k: nat | k < Tries(s)
      ensures s.at + k < |offers| && Print(root, offers[s.at + k], s.token, s.path) == HoldsAt(s.token, k)
    {
      assert offers[s.at + k] == s.base[s.path := k];
      PrintsReduced(root, offers[s.at + k], s.token, s.path);
    }
  }

  /**
   * The reduction of a token tree of the format g, whatever the answers are: the tree is left as it
   * was when the last Good was given, every offer was a word of the format, each offer belongs to the
   * search of one token, which it shows at its reduction, no token is searched twice, and the tokens that
   * are searched are exactly the choices that are visible at the end, below none that had no choice.
   * Without a Good, what the tree held is printed.
   */
  method ReduceLinear(g: G.Grammar, root: Tree, good: nat -> bool)
    returns (st: State, ghost offers: seq<State>, ghost log: seq<Trial>)
    requires Conforms(g, root)
    ensures Same(root, st, LastGood(offers, good, map[]))
    ensures L.Words(g, Print(root, st, root, []))
    ensures forall i :: 0 <= i < |offers| ==> L.Words(g, Print(root, offers[i], root, []))
    ensures LogOk(root, offers, good, log) && Settled(st, log)
    ensures Covered(log, Found(root, [])) && forall s :: s in log ==> Descended(log, s)
    ensures OnlyVisible(root, log) && forall p :: Searched(log, p) <==> Searchable(root, st, p)
    ensures forall s :: s in log ==> OffersShow(root, offers, s)
    ensures (forall i :: 0 <= i < |offers| ==> !good(i)) ==> Print(root, st, root, []) == Holds(root)
  {
    hide Searched, Searchable, OffersShow, Holds, Proper;
    hide LogOk, Settled, Same, LastGood, Covered, Descended, Found, InBounds, Conforms, Print, OnlyVisible;
    ConformsProper(g, root);
    var r := new Reducer(root, good);
    r.Run();
    st, offers, log := r.st, r.offers, r.log;
    StatePrintsWord(g, root, st, root, []);
    forall i | 0 <= i < |offers| ensures L.Words(g, Print(root, offers[i], root, [])) {
      StatePrintsWord(g, root, offers[i], root, []);
    }
    EndIs(root, st, offers, good, log);
  }

  lemma {:induction false} EndIs(root: Tree, st: State, offers: seq<State>, good: nat -> bool, log: seq<Trial>)
    requires Proper(root) && LogOk(root, offers, good, log) && Settled(st, log) && OnlyVisible(root, log)
    requires Covered(log, Found(root, [])) && forall s :: s in log ==> Descended(log, s)
    requires Same(root, st, LastGood(offers, good, map[]))
    ensures forall p :: Searched(log, p) <==> Searchable(root, st, p)
    ensures forall s :: s in log ==> OffersShow(root, offers, s)
    ensures (forall i :: 0 <= i < |offers| ==> !good(i)) ==> Print(root, st, root, []) == Holds(root)
  {
    forall s | s in log
      ensures TrialOk(root, offers, good, s) && At(root, s.path) == Here(s.token) && s.at + Tries(s) <= |offers|
    {
      LogEntry(root, offers, good, log, s);
    }
    hide *;
    forall p ensures Searched(log, p) <==> Searchable(root, st, p) { SearchedExactly(root, st, log, p); }
    forall s | s in log ensures OffersShow(root, offers, s) { OfferShows(root, offers, good, s); }
    if forall i :: 0 <= i < |offers| ==> !good(i) {
      NoGood(offers, good);
      SamePrints(root, st, map[], root, []);
      RootHolds(root);
    }
  }

  lemma {:induction false} RootHolds(root: Tree)
    requires Proper(root)
    ensures Print(root, map[], root, []) == Holds(root)
  {
    hide Print, Holds, Proper;
    PrintsWhatItHolds(root, map[], root, []);
  }

  ghost function TotalTries(log: seq<Trial>): nat {
    if log == [] then 0 else TotalTries(log[..|log| - 1]) + Tries(log[|log| - 1])
  }

  /** The searches account for all offers, and none makes more than its token has reductions besides the full one. */
  lemma {:induction false} OffersAreBounded(root: Tree, offers: seq<State>, good: nat -> bool, log: seq<Trial>)
    requires LogOk(root, offers, good, log)
    ensures |offers| == TotalTries(log)
    ensures forall s :: s in log ==> Tries(s) <= Values(s.token) - 1
  {
    hide Values, Tries, InBounds, At;
    forall s | s in log ensures Tries(s) <= Values(s.token) - 1 {
      LogEntry(root, offers, good, log, s);
      TriesBounded(root, offers, good, s);
    }
    hide TrialOk;
    if log != [] {
      LogTotal(log, |log|);
      assert log[..|log|] == log;
    }
  }

  lemma {:induction false} TriesBounded(root: Tree, offers: seq<State>, good: nat -> bool, s: Trial)
    requires TrialOk(root, offers, good, s)
    ensures Tries(s) <= Values(s.token) - 1
  {
    hide InBounds, At, Values;
  }

  lemma {:induction false} LogTotal(log: seq<Trial>, n: nat)
    requires 0 < n <= |log| && log[0].at == 0
    requires forall i :: 0 < i < |log| ==> log[i].at == log[i - 1].at + Tries(log[i - 1])
    ensures TotalTries(log[..n]) == log[n - 1].at + Tries(log[n - 1])
  {
    assert log[..n][..n - 1] == log[..n - 1];
    if n > 1 {
      LogTotal(log, n - 1);
    } else {
      assert log[..0] == [];
    }
  }

  /**
   * If the answers depend on the offered states only, what a search of a Repeat keeps is a smallest
   * choice of its items among those that are accepted in the context of the search.
   */
  lemma {:induction false} KeptIsSmallest(root: Tree, offers: seq<State>, good: nat -> bool, log: seq<Trial>,
          oracle: State -> bool, s: Trial, i: nat)
    requires LogOk(root, offers, good, log) && s in log && s.token.Repeat?
    requires forall k :: 0 <= k < |offers| ==> good(k) == oracle(offers[k])
    requires i < Values(s.token) && oracle(s.base[s.path := i])
    ensures var rs := Reductions(|s.token.items|, s.token.from);
            s.kept < |rs| && |rs[s.kept]| <= |rs[i]|
    ensures s.kept + 1 < Values(s.token) ==> oracle(s.base[s.path := s.kept])
  {
    hide LogOk;
    assert TrialOk(root, offers, good, s) by { LogEntry(root, offers, good, log, s); }
    if i < s.kept {
      SmallerRejected(root, offers, good, oracle, s, i);
    } else if s.kept < i {
      ReductionsOrdered(|s.token.items|, s.token.from, s.kept, i);
    }
  }

  lemma {:induction false} SmallerRejected(root: Tree, offers: seq<State>, good: nat -> bool, oracle: State -> bool,
          s: Trial, i: nat)
    requires TrialOk(root, offers, good, s) && i < s.kept
    requires forall k :: 0 <= k < |offers| ==> good(k) == oracle(offers[k])
    ensures !oracle(s.base[s.path := i])
  {
    assert offers[s.at + i] == s.base[s.path := i] && !good(s.at + i);
  }

  lemma {:induction false} LogEntry(root: Tree, offers: seq<State>, good: nat -> bool, log: seq<Trial>, s: Trial)
    requires LogOk(root, offers, good, log) && s in log
    ensures TrialOk(root, offers, good, s)
  {
    hide TrialOk;
  }
}
