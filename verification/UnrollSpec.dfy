/**
 * What the unrolling of pointers should give: the tree that a token unfolds into when at most `limit`
 * expansions of an original may be on a path. It is defined on the original graph, by recursion.
 */
module UnrollSpec {
  import opened TokenGraphs
  import opened UnrollWords
  import opened UnrollState
  import opened UnrollCopy
  import opened UnrollMachine

  /** A copy of the token `of`, with the trees below it. */
  datatype Tree = Tree(of: Ref, parts: seq<Tree>)

  ghost predicate Formed(h: Graph, rank: map<Ref, nat>) {
    Closed(h) && Acyclic(h, rank) && TargetsIn(h, h.Keys) && Alternatives(h)
  }

  /** The expansions that a path with these counts may still have. */
  ghost function Left(h: Graph, limit: nat, counts: map<Ref, nat>): set<(Ref, int)> {
    set o, i | o in h && CountOf(counts, o) <= i < limit :: (o, i)
  }

  ghost function Bump(counts: map<Ref, nat>, o: Ref): map<Ref, nat> {
    counts[o := CountOf(counts, o) + 1]
  }

  lemma {:induction false} LeftLess(h: Graph, limit: nat, counts: map<Ref, nat>, o: Ref)
    requires o in h && CountOf(counts, o) < limit
    ensures Left(h, limit, Bump(counts, o)) < Left(h, limit, counts)
  {
    assert (o, CountOf(counts, o)) in Left(h, limit, counts);
    assert (o, CountOf(counts, o)) !in Left(h, limit, Bump(counts, o));
  }

  lemma {:induction false} AimKnown(h: Graph, t: Ref, checked: set<Ref>)
    requires Closed(h) && TargetsIn(h, h.Keys)
    ensures Aim(h, t, checked).At? ==> Aim(h, t, checked).child in h && !h[Aim(h, t, checked).child].Pointer?
    decreases h.Keys - checked
  {
    if t in h && h[t].Pointer? && h[t].target.Some? {
      var c := h[t].target.value;
      if c in h && h[c].Pointer? && c !in checked {
        AimKnown(h, c, checked + {c});
      }
    }
  }

  /** The pointer k is expanded below a token with these counts. */
  ghost predicate Grows(h: Graph, limit: nat, k: Ref, counts: map<Ref, nat>) {
    k in h && h[k].Pointer? && Aim(h, k, {}).At? && CountOf(counts, Aim(h, k, {}).child) < limit
  }

  /** The token that is shown in the place of k. */
  ghost function Shown(h: Graph, limit: nat, k: Ref, counts: map<Ref, nat>): Ref {
    if Grows(h, limit, k, counts) then Aim(h, k, {}).child else k
  }

  /** A concatenation does without k. */
  ghost predicate Spared(h: Graph, limit: nat, k: Ref, counts: map<Ref, nat>) {
    Shown(h, limit, k, counts) in h && OptionalType(h[Shown(h, limit, k, counts)])
  }

  /** What is left of x below these counts; nothing, if what it needs is cut off. */
  ghost function Unfold(h: Graph, rank: map<Ref, nat>, limit: nat, x: Ref, counts: map<Ref, nat>): Option<Tree>
    requires Formed(h, rank) && x in h
    decreases Left(h, limit, counts), rank[x], 1, 0
  {
    match h[x]
    case Text(_) => Some(Tree(x, []))
    case Concat(ts) =>
      (match UnfoldParts(h, rank, limit, ts, counts, rank[x])
       case Some(us) => Some(Tree(x, us))
       case None => None)
    case One(ts) =>
      var us := UnfoldAlternatives(h, rank, limit, ts, counts, rank[x]);
      if us == [] then None else Some(Tree(x, us))
    case Optional(t) => Wrap(x, Unfold(h, rank, limit, t, counts))
    case Scope(t) => Wrap(x, Unfold(h, rank, limit, t, counts))
    case Repeat(t, _, _) => Wrap(x, Unfold(h, rank, limit, t, counts))
    case Pointer(_) =>
      if Grows(h, limit, x, counts) then
        var o := Aim(h, x, {}).child;
        AimKnown(h, x, {});
        LeftLess(h, limit, counts, o);
        Unfold(h, rank, limit, o, Bump(counts, o))
      else None
  }

  function Wrap(x: Ref, u: Option<Tree>): Option<Tree> {
    if u.Some? then Some(Tree(x, [u.value])) else None
  }

  /** All parts of a concatenation, without those that are spared if nothing is left of them. */
  ghost function UnfoldParts(h: Graph, rank: map<Ref, nat>, limit: nat, ts: seq<Ref>, counts: map<Ref, nat>,
          bound: nat):
    Option<seq<Tree>>
    requires Formed(h, rank) && forall k :: k in ts ==> k in h && rank[k] < bound
    decreases Left(h, limit, counts), bound, 0, |ts|
  {
    if ts == [] then Some([])
    else
      var u := Unfold(h, rank, limit, ts[0], counts);
      var us := UnfoldParts(h, rank, limit, ts[1..], counts, bound);
      if us.None? then None
      else if u.Some? then Some([u.value] + us.value)
      else if Spared(h, limit, ts[0], counts) then us
      else None
  }

  /** The alternatives of which something is left. */
  ghost function UnfoldAlternatives(h: Graph, rank: map<Ref, nat>, limit: nat, ts: seq<Ref>, counts: map<Ref, nat>,
          bound: nat):
    seq<Tree>
    requires Formed(h, rank) && forall k :: k in ts ==> k in h && rank[k] < bound
    decreases Left(h, limit, counts), bound, 0, |ts|
  {
    if ts == [] then []
    else
      var u := Unfold(h, rank, limit, ts[0], counts);
      var us := UnfoldAlternatives(h, rank, limit, ts[1..], counts, bound);
      if u.Some? then [u.value] + us else us
  }

  // ---------- what is left, token by token ----------

  predicate Wraps(n: Node) {
    n.Optional? || n.Scope? || n.Repeat?
  }

  lemma {:induction false} UnfoldWrapped(h: Graph, rank: map<Ref, nat>, limit: nat, x: Ref, counts: map<Ref, nat>)
    requires Formed(h, rank) && x in h && Wraps(h[x])
    ensures Kids(h[x])[0] in h
    ensures Unfold(h, rank, limit, x, counts) == Wrap(x, Unfold(h, rank, limit, Kids(h[x])[0], counts))
  {
  }

  lemma {:induction false} UnfoldConcat(h: Graph, rank: map<Ref, nat>, limit: nat, x: Ref, counts: map<Ref, nat>)
    requires Formed(h, rank) && x in h && h[x].Concat?
    ensures x in rank && forall k :: k in h[x].tokens ==> k in h && rank[k] < rank[x]
    ensures Unfold(h, rank, limit, x, counts) ==
            match UnfoldParts(h, rank, limit, h[x].tokens, counts, rank[x])
            case Some(us) => Some(Tree(x, us))
            case None => None
  {
  }

  lemma {:induction false} UnfoldOne(h: Graph, rank: map<Ref, nat>, limit: nat, x: Ref, counts: map<Ref, nat>)
    requires Formed(h, rank) && x in h && h[x].One?
    ensures x in rank && forall k :: k in h[x].tokens ==> k in h && rank[k] < rank[x]
    ensures Unfold(h, rank, limit, x, counts) ==
            var us := UnfoldAlternatives(h, rank, limit, h[x].tokens, counts, rank[x]);
            if us == [] then None else Some(Tree(x, us))
  {
  }

  lemma {:induction false} UnfoldPointer(h: Graph, rank: map<Ref, nat>, limit: nat, x: Ref, counts: map<Ref, nat>)
    requires Formed(h, rank) && x in h && h[x].Pointer? && Grows(h, limit, x, counts)
    ensures Aim(h, x, {}).At?
    ensures var o := Aim(h, x, {}).child;
            o in h && !h[o].Pointer? && Unfold(h, rank, limit, x, counts) == Unfold(h, rank, limit, o, Bump(counts, o))
  {
    AimKnown(h, x, {});
  }

  lemma {:induction false} GrowsIfLeft(h: Graph, rank: map<Ref, nat>, limit: nat, x: Ref, counts: map<Ref, nat>)
    requires Formed(h, rank) && x in h && h[x].Pointer? && Unfold(h, rank, limit, x, counts).Some?
    ensures Grows(h, limit, x, counts)
  {
    hide Formed;
  }

  lemma {:induction false} UnfoldedOf(h: Graph, rank: map<Ref, nat>, limit: nat, x: Ref, counts: map<Ref, nat>)
    requires Formed(h, rank) && x in h && Unfold(h, rank, limit, x, counts).Some?
    ensures Unfold(h, rank, limit, x, counts).value.of == Shown(h, limit, x, counts)
  {
    AimKnown(h, x, {});
  }

  lemma {:induction false} UnfoldPartsStep(h: Graph, rank: map<Ref, nat>, limit: nat, ts: seq<Ref>,
          counts: map<Ref, nat>, bound: nat)
    requires Formed(h, rank) && (forall k :: k in ts ==> k in h && rank[k] < bound) && ts != []
    ensures ts[0] in h && forall k :: k in ts[1..] ==> k in h && rank[k] < bound
    ensures UnfoldParts(h, rank, limit, ts, counts, bound) ==
            var u, us := Unfold(h, rank, limit, ts[0], counts), UnfoldParts(h, rank, limit, ts[1..], counts, bound);
            if us.None? then None
            else if u.Some? then Some([u.value] + us.value)
            else if Spared(h, limit, ts[0], counts) then us else None
  {
    assert ts[0] in ts && forall k :: k in ts[1..] ==> k in ts;
    hide Unfold, Formed, Spared;
  }

  lemma {:induction false} UnfoldAlternativesStep(h: Graph, rank: map<Ref, nat>, limit: nat, ts: seq<Ref>,
          counts: map<Ref, nat>, bound: nat)
    requires Formed(h, rank) && (forall k :: k in ts ==> k in h && rank[k] < bound) && ts != []
    ensures ts[0] in h && forall k :: k in ts[1..] ==> k in h && rank[k] < bound
    ensures UnfoldAlternatives(h, rank, limit, ts, counts, bound) ==
            var u, us := Unfold(h, rank, limit, ts[0], counts),
                UnfoldAlternatives(h, rank, limit, ts[1..], counts, bound);
            if u.Some? then [u.value] + us else us
  {
    assert ts[0] in ts && forall k :: k in ts[1..] ==> k in ts;
    hide Unfold, Formed;
  }

  // ---------- what the result looks like ----------

  /** In g, the token x and what is below it are the tree t of copies of tokens of h, without pointers. */
  ghost predicate Looks(h: Graph, g: Graph, src: Source, x: Ref, t: Tree)
    decreases t
  {
    && x in g && x in src && src[x] == t.of && t.of in h && !g[x].Pointer? && SameKind(g[x], h[t.of])
    && |Kids(g[x])| == |t.parts|
    && forall i :: 0 <= i < |t.parts| ==> Looks(h, g, src, Kids(g[x])[i], t.parts[i])
  }

  /** The result is what the root unfolds into; that is nothing exactly if a cut went on past the root. */
  ghost predicate Unfolded(h: Graph, rank: map<Ref, nat>, limit: nat, r: Ref, g: Graph, src: Source, s: Ref,
          climbed: bool)
  {
    && Formed(h, rank) && r in h
    && var u := Unfold(h, rank, limit, r, map[]);
       (climbed <==> u == None) && (u.Some? ==> Looks(h, g, src, s, u.value))
  }

  /** A set of tokens below and including r that nothing else leads to, neither as a parent nor as a pointer. */
  ghost predicate Isolated(h: Graph, r: Ref, own: set<Ref>) {
    && r in own && own <= h.Keys
    && (forall x, k :: x in h && k in Kids(h[x]) ==> (x in own <==> k in own))
    && TargetsIn(h, h.Keys - own)
  }
}
