/**
 * Token trees as the reducing strategy sees them: the tokens a format was parsed into, with the
 * reduction each of its Optional and Repeat tokens is set to.
 */
module ReductionTrees {
  import opened Combinatorics
  import opened Combinations
  import opened Onces
  import opened Repeats
  import G = Grammars
  import L = Languages

  /** The tokens, with the values they have before anything is reduced. */
  datatype Tree =
    | Text(text: string)
    | List(tokens: seq<Tree>)
    | One(tokens: seq<Tree>, value: nat)
    | Once(tokens: seq<Tree>, values: seq<nat>)
    | Optional(token: Tree, active: bool)
    | Repeat(from: nat, items: seq<Tree>)
    | Scope(token: Tree)

  function Slots(t: Tree): seq<Tree> {
    match t
    case Text(_) => []
    case List(ts) => ts
    case One(ts, _) => ts
    case Once(ts, _) => ts
    case Optional(k, _) => [k]
    case Repeat(_, items) => items
    case Scope(k) => [k]
  }

  // ---------- places in a tree ----------

  type Path = seq<nat>

  datatype Place = Nowhere | Here(tree: Tree)

  function At(t: Tree, p: Path): Place
    decreases |p|
  {
    if p == [] then Here(t)
    else if p[0] < |Slots(t)| then At(Slots(t)[p[0]], p[1..])
    else Nowhere
  }

  lemma {:induction false} AtChild(t: Tree, p: Path, k: Tree, i: nat)
    requires At(t, p) == Here(k) && i < |Slots(k)|
    ensures At(t, p + [i]) == Here(Slots(k)[i])
    decreases |p|
  {
    if p == [] {
      assert ([i])[1..] == [];
    } else {
      assert (p + [i])[1..] == p[1..] + [i];
      AtChild(Slots(t)[p[0]], p[1..], k, i);
    }
  }

  /** Neither is at or below the other. */
  ghost predicate Apart(p: Path, q: Path) {
    !(p <= q) && !(q <= p)
  }

  // ---------- reductions ----------

  predicate Reducible(t: Tree) {
    t.Optional? || t.Repeat?
  }

  /** The number of values a token can be reduced to. */
  function Values(t: Tree): nat {
    match t
    case Optional(_, _) => 2
    case Repeat(from, items) => |Reductions(|items|, from)|
    case _ => 0
  }

  /** The value of a token that was not reduced yet. */
  function InitialValue(t: Tree): nat {
    match t
    case Optional(_, active) => if active then 1 else 0
    case Repeat(from, items) => if Values(t) > 0 then Values(t) - 1 else 0
    case _ => 0
  }

  /** The tokens that were reduced, and to what; every other token has its initial value. */
  type State = map<Path, nat>

  function ValueAt(root: Tree, st: State, p: Path): nat {
    if p in st then st[p] else match At(root, p) case Here(t) => InitialValue(t) case Nowhere => 0
  }

  /** No token tells the states apart. */
  ghost predicate Same(root: Tree, a: State, b: State) {
    forall p :: ValueAt(root, a, p) == ValueAt(root, b, p)
  }

  ghost predicate InBounds(root: Tree, st: State) {
    forall p :: p in st ==> At(root, p).Here? && st[p] < Values(At(root, p).tree)
  }

  /** A Repeat holds at least `from` items, and what a One or a Once shows is there. */
  ghost predicate Proper(t: Tree) {
    && (t.Repeat? ==> t.from <= |t.items|)
    && (t.One? ==> t.value < |t.tokens|)
    && (t.Once? ==> IsPermutation(t.values, |t.tokens|))
    && forall i :: 0 <= i < |Slots(t)| ==> Proper(Slots(t)[i])
  }

  lemma {:induction false} RepeatValues(t: Tree)
    requires t.Repeat? && t.from <= |t.items|
    ensures Values(t) > 0
    ensures Reductions(|t.items|, t.from)[Values(t) - 1] == Identity(|t.items|)
    ensures t.from < |t.items| ==> Values(t) >= 2
  {
    hide Reductions, Combos;
    ReductionsLast(|t.items|, t.from);
    if t.from < |t.items| {
      var c := Identity(|t.items|)[..t.from];
      IdentityPicks(|t.items|, t.from);
      ReductionsComplete(|t.items|, t.from, c);
      assert c != Identity(|t.items|) by { assert |c| < |t.items|; }
    }
  }

  lemma {:induction false} IdentityPicks(n: nat, k: nat)
    requires k <= n
    ensures Picks(Identity(n)[..k], 0, n)
  {
  }

  // ---------- what is active ----------

  /** The slots that Get and Len show when the token has value v. */
  function Shown(t: Tree, v: nat): seq<nat> {
    match t
    case Text(_) => []
    case List(ts) => Identity(|ts|)
    case One(_, value) => [value]
    case Once(_, values) => values
    case Optional(_, _) => if v == 0 then [] else [0]
    case Repeat(from, items) => if v < Values(t) then Reductions(|items|, from)[v] else []
    case Scope(_) => [0]
  }

  function Print(root: Tree, st: State, t: Tree, p: Path): string
    decreases t, 0
  {
    match t
    case Text(text) => text
    case _ => PrintSlots(root, st, t, p, Shown(t, ValueAt(root, st, p)))
  }

  function PrintSlots(root: Tree, st: State, t: Tree, p: Path, sel: seq<nat>): string
    decreases t, 0, |sel|
  {
    if sel == [] then ""
    else
      (if sel[0] < |Slots(t)| then Print(root, st, Slots(t)[sel[0]], p + [sel[0]]) else "")
      + PrintSlots(root, st, t, p, sel[1..])
  }

  // ---------- what a tree holds ----------

  /** String of a tree before anything is reduced. */
  function Holds(t: Tree): string {
    match t
    case Text(text) => text
    case List(ts) => HoldsAll(ts)
    case One(ts, value) => if value < |ts| then Holds(ts[value]) else ""
    case Once(ts, values) => HoldsPicked(ts, values)
    case Optional(k, active) => if active then Holds(k) else ""
    case Repeat(_, items) => HoldsAll(items)
    case Scope(k) => Holds(k)
  }

  function HoldsAll(ts: seq<Tree>): string {
    if ts == [] then "" else Holds(ts[0]) + HoldsAll(ts[1..])
  }

  function HoldsPicked(ts: seq<Tree>, sel: seq<nat>): string
    decreases ts, |sel|
  {
    if sel == [] then "" else (if sel[0] < |ts| then Holds(ts[sel[0]]) else "") + HoldsPicked(ts, sel[1..])
  }

  /** With nothing reduced below it: an Optional holds nothing or all, a Repeat the chosen items. */
  function HoldsAt(t: Tree, reduction: nat): string {
    match t
    case Optional(k, _) => if reduction == 0 then "" else Holds(k)
    case Repeat(from, items) =>
      if reduction < |Reductions(|items|, from)| then HoldsPicked(items, Reductions(|items|, from)[reduction]) else ""
    case _ => Holds(t)
  }

  /** Nothing at or below p is reduced. */
  ghost predicate Unreduced(st: State, p: Path) {
    forall r :: p <= r ==> r !in st
  }

  ghost predicate UnreducedBelow(st: State, p: Path) {
    forall r :: p < r ==> r !in st
  }

  lemma {:induction false} UnreducedChild(st: State, p: Path, i: nat)
    requires UnreducedBelow(st, p)
    ensures Unreduced(st, p + [i])
  {
    forall r | p + [i] <= r ensures r !in st {
      assert p < r by { assert (p + [i])[..|p|] == p && r[..|p|] == p; }
    }
  }

  lemma {:induction false} PickedAll(ts: seq<Tree>, i: nat)
    requires i <= |ts|
    ensures HoldsPicked(ts, Identity(|ts|)[i..]) == HoldsAll(ts[i..])
    decreases |ts| - i
  {
    var sel := Identity(|ts|)[i..];
    if i < |ts| {
      assert sel[0] == i && sel[1..] == Identity(|ts|)[i + 1..] && ts[i..][1..] == ts[i + 1..];
      PickedAll(ts, i + 1);
    }
  }

  /** The slots that a token shows hold what it holds at that reduction. */
  lemma {:induction false} ShownHolds(t: Tree, v: nat)
    requires Proper(t) && !t.Text?
    ensures HoldsPicked(Slots(t), Shown(t, v)) == HoldsAt(t, v)
  {
    hide Reductions, IsPermutation;
    match t
    case List(ts) =>
      PickedAll(ts, 0);
      assert Identity(|ts|)[0..] == Identity(|ts|) && ts[0..] == ts;
    case One(ts, value) => PickedOne(ts, value);
    case Optional(k, _) => if v != 0 { PickedOne([k], 0); }
    case Scope(k) => PickedOne([k], 0);
    case _ =>
  }

  lemma {:induction false} PickedOne(ts: seq<Tree>, i: nat)
    requires i < |ts|
    ensures HoldsPicked(ts, [i]) == Holds(ts[i])
  {
    assert [i][1..] == [] && HoldsPicked(ts, []) == "";
  }

  /** A token prints what it holds at its reduction, if nothing below it is reduced. */
  lemma {:induction false} PrintsReduced(root: Tree, st: State, t: Tree, p: Path)
    requires At(root, p) == Here(t) && Proper(t) && UnreducedBelow(st, p)
    ensures Print(root, st, t, p) == HoldsAt(t, ValueAt(root, st, p))
    decreases t, 1
  {
    if !t.Text? {
      hide Holds, HoldsAt, Shown, ValueAt, HoldsPicked, PrintSlots;
      PrintsPicked(root, st, t, p, Shown(t, ValueAt(root, st, p)));
      ShownHolds(t, ValueAt(root, st, p));
    }
  }

  /** An unreduced token prints what it holds. */
  lemma {:induction false} PrintsWhatItHolds(root: Tree, st: State, t: Tree, p: Path)
    requires At(root, p) == Here(t) && Proper(t) && Unreduced(st, p)
    ensures Print(root, st, t, p) == Holds(t)
    decreases t, 2
  {
    assert p <= p;
    hide Print, Reductions;
    PrintsReduced(root, st, t, p);
    if t.Repeat? {
      RepeatValues(t);
      PickedAll(t.items, 0);
      assert Identity(|t.items|)[0..] == Identity(|t.items|) && t.items[0..] == t.items;
    }
  }

  /** The slots that are shown print what they hold. */
  lemma {:induction false} PrintsPicked(root: Tree, st: State, t: Tree, p: Path, sel: seq<nat>)
    requires At(root, p) == Here(t) && Proper(t) && UnreducedBelow(st, p)
    ensures PrintSlots(root, st, t, p, sel) == HoldsPicked(Slots(t), sel)
    decreases t, 0, |sel|
  {
    if sel != [] {
      if sel[0] < |Slots(t)| {
        AtChild(root, p, t, sel[0]);
        UnreducedChild(st, p, sel[0]);
        PrintsWhatItHolds(root, st, Slots(t)[sel[0]], p + [sel[0]]);
      }
      PrintsPicked(root, st, t, p, sel[1..]);
    }
  }

  // ---------- every state prints a word of the format ----------

  /** t was parsed or generated from g. */
  ghost predicate Conforms(g: G.Grammar, t: Tree)
    decreases t
  {
    match g
    case Const(text) => t == Text(text)
    case CharClass(_, _) => t.Text? && L.Words(g, t.text)
    case Concat(gs) =>
      t.List? && |t.tokens| == |gs| && forall i :: 0 <= i < |gs| ==> Conforms(gs[i], t.tokens[i])
    case One(gs) =>
      t.One? && |t.tokens| == |gs| && t.value < |gs| && forall i :: 0 <= i < |gs| ==> Conforms(gs[i], t.tokens[i])
    case Once(gs) =>
      t.Once? && |t.tokens| == |gs| && IsPermutation(t.values, |gs|)
      && forall i :: 0 <= i < |gs| ==> Conforms(gs[i], t.tokens[i])
    case Optional(x) => t.Optional? && Conforms(x, t.token)
    case Repeat(x, from, to) =>
      && t.Repeat? && t.from == from && from <= |t.items| <= to
      && forall i :: 0 <= i < |t.items| ==> Conforms(x, t.items[i])
    case Scope(x) => t.Scope? && Conforms(x, t.token)
  }

  lemma {:induction false} ValueInBounds(root: Tree, st: State, t: Tree, p: Path)
    requires At(root, p) == Here(t) && InBounds(root, st) && Reducible(t) && (t.Repeat? ==> t.from <= |t.items|)
    ensures ValueAt(root, st, p) < Values(t)
  {
    hide Reductions;
    if t.Repeat? {
      RepeatValues(t);
    }
  }

  /** The index of an arrangement, as every arrangement has one. */
  ghost function IndexOfArrangement(values: seq<nat>, n: nat): nat {
    if i: nat :| i < Fact(n) && G.PermutationOf(n, i) == values then i else 0
  }

  lemma {:induction false} ArrangementHasIndex(values: seq<nat>, n: nat)
    requires IsPermutation(values, n)
    ensures IndexOfArrangement(values, n) < Fact(n) && G.PermutationOf(n, IndexOfArrangement(values, n)) == values
  {
    hide IsPermutation, Unrank;
    PermutationArranges(values, n);
    var i := UnrankHits(Identity(n), values);
    assert G.PermutationOf(n, i) == values;
  }

  /** The permutation that g has when its token has value v. */
  ghost function PermutationAt(g: G.Grammar, t: Tree, v: nat): nat {
    match g
    case One(_) => if t.One? then t.value else 0
    case Once(gs) => if t.Once? then IndexOfArrangement(t.values, |gs|) else 0
    case Optional(_) => v
    case Repeat(_, from, _) => if |Shown(t, v)| >= from then |Shown(t, v)| - from else 0
    case _ => 0
  }

  lemma {:induction false} ShownRepeat(t: Tree, v: nat)
    requires t.Repeat? && v < Values(t)
    ensures t.from <= |Shown(t, v)| <= |t.items| && forall i :: 0 <= i < |Shown(t, v)| ==> Shown(t, v)[i] < |t.items|
  {
    ReductionsSound(|t.items|, t.from, v);
  }

  /** What is shown conforms, slot by slot, to the children of g under that permutation. */
  lemma {:induction false} ShownConforms(g: G.Grammar, t: Tree, v: nat)
    requires Conforms(g, t) && !g.Const? && !g.CharClass? && (Reducible(t) ==> v < Values(t))
    ensures PermutationAt(g, t, v) < G.Permutations(g)
    ensures var ks := G.Kids(g, PermutationAt(g, t, v));
            && |ks| == |Shown(t, v)|
            && forall i :: 0 <= i < |ks| ==>
                Shown(t, v)[i] < |Slots(t)| && Conforms(ks[i].token, Slots(t)[Shown(t, v)[i]])
  {
    if t.Repeat? {
      ShownRepeat(t, v);
    }
    if t.Once? {
      ArrangementHasIndex(t.values, |t.tokens|);
    }
  }

  lemma {:induction false} StatePrintsWord(g: G.Grammar, root: Tree, st: State, t: Tree, p: Path)
    requires Conforms(g, t) && At(root, p) == Here(t) && InBounds(root, st)
    ensures L.Words(g, Print(root, st, t, p))
    decreases t, 1
  {
    if !g.Const? && !g.CharClass? {
      var v := ValueAt(root, st, p);
      if Reducible(t) { ValueInBounds(root, st, t, p); }
      ShownConforms(g, t, v);
      SlotsPrintWords(G.Kids(g, PermutationAt(g, t, v)), root, st, t, p, Shown(t, v));
      L.WordsBy(g, PermutationAt(g, t, v), Print(root, st, t, p));
    }
  }

  lemma {:induction false} SlotsPrintWords(ks: seq<G.Kid>, root: Tree, st: State, t: Tree, p: Path, sel: seq<nat>)
    requires At(root, p) == Here(t) && InBounds(root, st) && |ks| == |sel|
    requires forall i :: 0 <= i < |ks| ==> sel[i] < |Slots(t)| && Conforms(ks[i].token, Slots(t)[sel[i]])
    ensures L.WordsAll(ks, PrintSlots(root, st, t, p, sel))
    decreases t, 0, |sel|
  {
    if sel != [] {
      AtChild(root, p, t, sel[0]);
      StatePrintsWord(ks[0].token, root, st, Slots(t)[sel[0]], p + [sel[0]]);
      SlotsPrintWords(ks[1..], root, st, t, p, sel[1..]);
      L.WordsCons(ks, Print(root, st, Slots(t)[sel[0]], p + [sel[0]]), PrintSlots(root, st, t, p, sel[1..]));
    }
  }

  lemma {:induction false} ConformsProper(g: G.Grammar, t: Tree)
    requires Conforms(g, t)
    ensures Proper(t)
  {
    match g
    case Concat(gs) =>
      forall i | 0 <= i < |t.tokens| ensures Proper(t.tokens[i]) { ConformsProper(gs[i], t.tokens[i]); }
    case One(gs) =>
      forall i | 0 <= i < |t.tokens| ensures Proper(t.tokens[i]) { ConformsProper(gs[i], t.tokens[i]); }
    case Once(gs) =>
      forall i | 0 <= i < |t.tokens| ensures Proper(t.tokens[i]) { ConformsProper(gs[i], t.tokens[i]); }
    case Optional(x) => ConformsProper(x, t.token);
    case Repeat(x, _, _) =>
      forall i | 0 <= i < |t.items| ensures Proper(t.items[i]) { ConformsProper(x, t.items[i]); }
    case Scope(x) => ConformsProper(x, t.token);
    case _ =>
  }
}
