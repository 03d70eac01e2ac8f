/**
 * What the tokens keep during an unrolling, on every graph. Copies of tokens that were visited before may have
 * been cut already; but then less would be left of them in the specification, too, because it also counts the
 * expansions that were copied along. Those counts are kept here for every token.
 */
module UnrollTraces {
  import opened TokenGraphs
  import opened UnrollWords
  import opened UnrollState
  import opened UnrollCopy
  import opened UnrollMachine
  import opened UnrollSpec
  import opened UnrollTrees

  type Counts = map<Ref, nat>

  /** The original graph, and how often an original is expanded on a path. */
  datatype Basis = Basis(h: Graph, rank: map<Ref, nat>, limit: nat, root: Ref)

  /** Where a token comes from, and the expansions above it, also those that were copied along with it. */
  datatype Trace = Trace(src: Source, at: map<Ref, Counts>)

  // ---------- counts ----------

  ghost predicate Below(a: Counts, b: Counts) {
    forall o :: CountOf(a, o) <= CountOf(b, o)
  }

  function Plus(a: Counts, b: Counts): (c: Counts)
    ensures forall o :: CountOf(c, o) == CountOf(a, o) + CountOf(b, o)
  {
    map o | o in a.Keys + b.Keys :: CountOf(a, o) + CountOf(b, o)
  }

  lemma {:induction false} PlusNothing(a: Counts)
    ensures Plus(map[], a) == a && Plus(a, map[]) == a
  {
  }

  lemma {:induction false} PlusBump(a: Counts, b: Counts, o: Ref)
    ensures Plus(a, Bump(b, o)) == Bump(Plus(a, b), o)
  {
  }

  // ---------- with more expansions above, less is left ----------

  ghost function Rest(og: Basis, x: Ref, c: Counts): Option<Tree> {
    if Formed(og.h, og.rank) && x in og.h then Unfold(og.h, og.rank, og.limit, x, c) else None
  }

  lemma {:induction false} GrowsBelow(h: Graph, limit: nat, k: Ref, a: Counts, b: Counts)
    requires Below(a, b) && Grows(h, limit, k, b)
    ensures Grows(h, limit, k, a)
  {
  }

  lemma {:induction false} BumpBelow(a: Counts, b: Counts, o: Ref)
    requires Below(a, b)
    ensures Below(Bump(a, o), Bump(b, o))
  {
    forall x ensures CountOf(Bump(a, o), x) <= CountOf(Bump(b, o), x) {
      assert CountOf(a, x) <= CountOf(b, x) && CountOf(a, o) <= CountOf(b, o);
    }
  }

  lemma {:induction false} SparedBelow(h: Graph, limit: nat, k: Ref, a: Counts, b: Counts)
    requires Below(a, b) && Spared(h, limit, k, b)
    ensures Spared(h, limit, k, a)
  {
    if Grows(h, limit, k, b) { GrowsBelow(h, limit, k, a, b); }
  }

  lemma {:induction false} MoreLeft(h: Graph, rank: map<Ref, nat>, limit: nat, x: Ref, a: Counts, b: Counts)
    requires Formed(h, rank) && x in h && Below(a, b) && Unfold(h, rank, limit, x, b).Some?
    ensures Unfold(h, rank, limit, x, a).Some?
    decreases Left(h, limit, b), rank[x], 1, 0
  {
    if h[x].Text? { return; }
    hide Below;
    if Wraps(h[x]) {
      UnfoldWrapped(h, rank, limit, x, a);
      UnfoldWrapped(h, rank, limit, x, b);
      MoreLeft(h, rank, limit, Kids(h[x])[0], a, b);
    } else if h[x].Concat? {
      UnfoldConcat(h, rank, limit, x, a);
      UnfoldConcat(h, rank, limit, x, b);
      hide Unfold, Formed;
      MorePartsLeft(h, rank, limit, h[x].tokens, a, b, rank[x]);
    } else if h[x].One? {
      UnfoldOne(h, rank, limit, x, a);
      UnfoldOne(h, rank, limit, x, b);
      hide Unfold, Formed;
      MoreAlternativesLeft(h, rank, limit, h[x].tokens, a, b, rank[x]);
    } else {
      GrowsIfLeft(h, rank, limit, x, b);
      GrowsBelow(h, limit, x, a, b);
      UnfoldPointer(h, rank, limit, x, a);
      UnfoldPointer(h, rank, limit, x, b);
      var o := Aim(h, x, {}).child;
      hide Unfold, Formed, Aim;
      LeftLess(h, limit, b, o);
      BumpBelow(a, b, o);
      MoreLeft(h, rank, limit, o, Bump(a, o), Bump(b, o));
    }
  }

  lemma {:induction false} MorePartsLeft(h: Graph, rank: map<Ref, nat>, limit: nat, ts: seq<Ref>, a: Counts,
          b: Counts, bound: nat)
    requires Formed(h, rank) && (forall k :: k in ts ==> k in h && rank[k] < bound) && Below(a, b)
    requires UnfoldParts(h, rank, limit, ts, b, bound).Some?
    ensures UnfoldParts(h, rank, limit, ts, a, bound).Some?
    decreases Left(h, limit, b), bound, 0, |ts|
  {
    if ts != [] {
      UnfoldPartsStep(h, rank, limit, ts, a, bound);
      UnfoldPartsStep(h, rank, limit, ts, b, bound);
      assert ts[0] in ts;
      hide Unfold, UnfoldParts, Formed, Spared, Below;
      MorePartsLeft(h, rank, limit, ts[1..], a, b, bound);
      if Unfold(h, rank, limit, ts[0], b).Some? {
        MoreLeft(h, rank, limit, ts[0], a, b);
      } else {
        SparedBelow(h, limit, ts[0], a, b);
      }
    }
  }

  lemma {:induction false} MoreAlternativesLeft(h: Graph, rank: map<Ref, nat>, limit: nat, ts: seq<Ref>, a: Counts,
          b: Counts, bound: nat)
    requires Formed(h, rank) && (forall k :: k in ts ==> k in h && rank[k] < bound) && Below(a, b)
    requires UnfoldAlternatives(h, rank, limit, ts, b, bound) != []
    ensures UnfoldAlternatives(h, rank, limit, ts, a, bound) != []
    decreases Left(h, limit, b), bound, 0, |ts|
  {
    SomeAlternatives(h, rank, limit, ts, b, bound);
    UnfoldAlternativesStep(h, rank, limit, ts, a, bound);
    UnfoldAlternativesStep(h, rank, limit, ts, b, bound);
    assert ts[0] in ts;
    hide Unfold, UnfoldAlternatives, Formed, Below;
    if Unfold(h, rank, limit, ts[0], b).Some? {
      MoreLeft(h, rank, limit, ts[0], a, b);
    } else {
      MoreAlternativesLeft(h, rank, limit, ts[1..], a, b, bound);
    }
  }

  lemma {:induction false} LessRest(og: Basis, x: Ref, a: Counts, b: Counts)
    requires Below(a, b)
    ensures Rest(og, x, a) == None ==> Rest(og, x, b) == None
  {
    hide Formed, Unfold, Below;
    if Rest(og, x, b).Some? {
      MoreLeft(og.h, og.rank, og.limit, x, a, b);
    }
  }

  // ---------- what the tokens keep ----------

  /** k is what became of k0, below a token with the counts c. */
  ghost predicate Image(og: Basis, tr: Trace, c: Counts, k: Ref, k0: Ref) {
    && k in tr.src && k in tr.at
    && (|| (tr.src[k] == k0 && tr.at[k] == c)
        || (Grows(og.h, og.limit, k0, c) && tr.src[k] == Aim(og.h, k0, {}).child && tr.at[k] == Bump(c, tr.src[k])))
  }

  /** ts is what became of ts0, in order; only that can be missing of which nothing is left. */
  ghost predicate Aligned(og: Basis, tr: Trace, c: Counts, ts: seq<Ref>, ts0: seq<Ref>) {
    if ts0 == [] then ts == []
    else
      || (ts != [] && Image(og, tr, c, ts[0], ts0[0]) && Aligned(og, tr, c, ts[1..], ts0[1..]))
      || (Rest(og, ts0[0], c) == None && Aligned(og, tr, c, ts, ts0[1..]))
  }

  ghost predicate Has(og: Basis, tr: Trace, c: Counts, ts: seq<Ref>, k0: Ref) {
    exists k :: k in ts && Image(og, tr, c, k, k0)
  }

  /** If anything is left of x0 below the counts c, the token n of the same kind has it. */
  ghost predicate Holds(og: Basis, tr: Trace, n: Node, x0: Ref, c: Counts)
    requires x0 in og.h && (n.Pointer? || SameKind(n, og.h[x0]))
  {
    Rest(og, x0, c) == None ||
    match n
    case Concat(ts) => Aligned(og, tr, c, ts, og.h[x0].tokens)
    case One(ts) => forall k0 :: k0 in og.h[x0].tokens && Rest(og, k0, c).Some? ==> Has(og, tr, c, ts, k0)
    case Optional(t) => Image(og, tr, c, t, og.h[x0].token)
    case Scope(t) => Image(og, tr, c, t, og.h[x0].token)
    case Repeat(t, _, _) => Image(og, tr, c, t, og.h[x0].token)
    case _ => true
  }

  /** A pointer is unset, or leads where it led, or to an expansion of what it stands for. */
  ghost predicate Leading(og: Basis, tr: Trace, h: Graph, known: map<Ref, Ref>, x: Ref)
    requires x in h && h[x].Pointer? && x in tr.src && tr.src[x] in og.h && og.h[tr.src[x]].Pointer?
  {
    match h[x].target
    case None => true
    case Some(v) =>
      || og.h[tr.src[x]].target == Some(v)
      || (v in known && v in h && !h[v].Pointer? && v in tr.src && Stands(og.h, tr.src[x], tr.src[v]))
  }

  ghost predicate TokenOk(og: Basis, tr: Trace, h: Graph, known: map<Ref, Ref>, x: Ref) {
    && x in h && x in tr.src && x in tr.at && tr.src[x] in og.h
    && (if h[x].Pointer? then og.h[tr.src[x]].Pointer? && Leading(og, tr, h, known, x)
        else SameKind(h[x], og.h[tr.src[x]]) && Holds(og, tr, h[x], tr.src[x], tr.at[x]))
    && forall k :: k in Kids(h[x]) ==> k in tr.at && Below(tr.at[x], tr.at[k])
  }

  ghost predicate TokensOk(og: Basis, tr: Trace, h: Graph, known: map<Ref, Ref>) {
    forall x :: x in h ==> TokenOk(og, tr, h, known, x)
  }

  ghost predicate AllTraced(tr: Trace, h: Graph) {
    tr.src.Keys == h.Keys && tr.at.Keys == h.Keys
  }

  /** The original tokens themselves have no expansions above them. */
  ghost predicate Original(og: Basis, tr: Trace, h: Graph) {
    forall x :: x in og.h ==> x in h && x in tr.src && x in tr.at && tr.src[x] == x && tr.at[x] == map[]
  }

  ghost predicate Known(og: Basis, tr: Trace, m: Machine) {
    && (forall x :: x in m.originals ==> x in tr.src && tr.src[x] == m.originals[x])
    && (forall o :: o in m.clones ==> o in og.h && m.clones[o] in tr.src && m.clones[o] in tr.at
                                      && tr.src[m.clones[o]] == o && tr.at[m.clones[o]] == map[])
  }

  /** The counters of an entry do not count too much. */
  ghost predicate Counting(tr: Trace, queue: seq<Item>) {
    forall i :: 0 <= i < |queue| ==>
        queue[i].Item? && queue[i].tok in tr.at && Below(queue[i].counts, tr.at[queue[i].tok])
  }

  ghost predicate RootKept(og: Basis, tr: Trace, root: Ref, climbed: bool) {
    Rest(og, og.root, map[]) == None || (!climbed && Image(og, tr, map[], root, og.root))
  }

  /** The state of the unrolling has all that is left of the original graph. */
  ghost predicate Covers(og: Basis, tr: Trace, m: Machine) {
    && Formed(og.h, og.rank) && AllTraced(tr, m.h)
    && TokensOk(og, tr, m.h, m.originals) && Original(og, tr, m.h) && Known(og, tr, m)
    && Counting(tr, m.queue) && RootKept(og, tr, m.root, m.climbed)
  }

  // ---------- images ----------

  lemma {:induction false} ImageRest(og: Basis, tr: Trace, c: Counts, k: Ref, k0: Ref)
    requires Formed(og.h, og.rank) && Image(og, tr, c, k, k0)
    ensures Rest(og, tr.src[k], tr.at[k]) == Rest(og, k0, c)
  {
    hide Unfold, Formed, Aim;
    if tr.src[k] != k0 || tr.at[k] != c {
      UnfoldPointer(og.h, og.rank, og.limit, k0, c);
    }
  }

  /** Of every part of a concatenation something is left, or it is spared. */
  ghost predicate Parts(og: Basis, c: Counts, ts0: seq<Ref>) {
    forall k0 :: k0 in ts0 ==> Rest(og, k0, c).Some? || Spared(og.h, og.limit, k0, c)
  }

  lemma {:induction false} PartsOf(og: Basis, c: Counts, ts0: seq<Ref>, bound: nat)
    requires Formed(og.h, og.rank) && forall k :: k in ts0 ==> k in og.h && og.rank[k] < bound
    requires UnfoldParts(og.h, og.rank, og.limit, ts0, c, bound).Some?
    ensures Parts(og, c, ts0)
  {
    if ts0 != [] {
      UnfoldPartsStep(og.h, og.rank, og.limit, ts0, c, bound);
      hide Unfold, UnfoldParts, Spared;
      assert Formed(og.h, og.rank);
      hide Formed;
      PartsOf(og, c, ts0[1..], bound);
      assert forall k :: k in ts0 ==> k == ts0[0] || k in ts0[1..];
    }
  }

  lemma {:induction false} ConcatParts(og: Basis, x0: Ref, c: Counts)
    requires x0 in og.h && og.h[x0].Concat? && Rest(og, x0, c).Some?
    ensures Parts(og, c, og.h[x0].tokens)
  {
    UnfoldConcat(og.h, og.rank, og.limit, x0, c);
    hide Unfold, Formed;
    PartsOf(og, c, og.h[x0].tokens, og.rank[x0]);
  }

  lemma {:induction false} WrapRest(og: Basis, x0: Ref, c: Counts)
    requires x0 in og.h && Wraps(og.h[x0]) && Rest(og, x0, c).Some?
    ensures Rest(og, Kids(og.h[x0])[0], c).Some?
  {
    UnfoldWrapped(og.h, og.rank, og.limit, x0, c);
    hide Unfold, Formed;
  }

  // ---------- copies ----------

  ghost function Copied(tr: Trace, o: map<Ref, Ref>, c: Counts): Trace {
    Trace(tr.src + map x | x in o && o[x] in tr.src :: tr.src[o[x]],
          tr.at + map x | x in o && o[x] in tr.at :: Plus(c, tr.at[o[x]]))
  }

  /** The pointer k0 is not followed any more: it cannot be done without. */
  ghost predicate Useless(og: Basis, c: Counts, k0: Ref) {
    Rest(og, k0, c) == None && !Spared(og.h, og.limit, k0, c)
  }

  lemma {:induction false} StoppedIsUseless(og: Basis, c: Counts, k0: Ref)
    requires k0 in og.h && og.h[k0].Pointer? && !Grows(og.h, og.limit, k0, c)
    ensures Useless(og, c, k0)
  {
    hide Formed, Aim;
  }

  lemma {:induction false} ImageCopied(og: Basis, tr: Trace, o: map<Ref, Ref>, d: Counts, c: Counts, k: Ref, k0: Ref)
    requires k in o && Image(og, tr, c, o[k], k0)
    ensures Image(og, Copied(tr, o, d), Plus(d, c), k, k0) || Useless(og, Plus(d, c), k0)
  {
    hide Aim, Rest, Spared;
    if tr.src[o[k]] != k0 || tr.at[o[k]] != c {
      PlusBump(d, c, tr.src[o[k]]);
      if !Grows(og.h, og.limit, k0, Plus(d, c)) { StoppedIsUseless(og, Plus(d, c), k0); }
    }
  }

  lemma {:induction false} AlignedCopied(og: Basis, tr: Trace, o: map<Ref, Ref>, d: Counts, c: Counts, ts: seq<Ref>,
          us: seq<Ref>, ts0: seq<Ref>)
    requires Aligned(og, tr, c, us, ts0) && |ts| == |us| && Parts(og, Plus(d, c), ts0)
    requires forall i :: 0 <= i < |ts| ==> ts[i] in o && o[ts[i]] == us[i]
    ensures Aligned(og, Copied(tr, o, d), Plus(d, c), ts, ts0)
    decreases |ts0|
  {
    if ts0 != [] {
      hide Image, Rest, Spared, Copied;
      assert ts0[0] in ts0 && forall k0 :: k0 in ts0[1..] ==> k0 in ts0;
      if us != [] && Image(og, tr, c, us[0], ts0[0]) && Aligned(og, tr, c, us[1..], ts0[1..]) {
        ImageCopied(og, tr, o, d, c, ts[0], ts0[0]);
        AlignedCopied(og, tr, o, d, c, ts[1..], us[1..], ts0[1..]);
      } else {
        LessRest(og, ts0[0], c, Plus(d, c));
        AlignedCopied(og, tr, o, d, c, ts, us, ts0[1..]);
      }
    }
  }

  lemma {:induction false} HasCopied(og: Basis, tr: Trace, o: map<Ref, Ref>, d: Counts, c: Counts, ts: seq<Ref>,
          us: seq<Ref>, k0: Ref)
    requires Has(og, tr, c, us, k0) && |ts| == |us| && Rest(og, k0, Plus(d, c)).Some?
    requires forall i :: 0 <= i < |ts| ==> ts[i] in o && o[ts[i]] == us[i]
    ensures Has(og, Copied(tr, o, d), Plus(d, c), ts, k0)
  {
    hide Image, Rest, Spared, Copied;
    var k :| k in us && Image(og, tr, c, k, k0);
    var i :| 0 <= i < |us| && us[i] == k;
    ImageCopied(og, tr, o, d, c, ts[i], k0);
  }

  /** A copy further below keeps what is left there. */
  lemma {:induction false} HoldsCopied(og: Basis, tr: Trace, o: map<Ref, Ref>, d: Counts, n: Node, m: Node, x0: Ref,
          c: Counts)
    requires x0 in og.h && !n.Pointer? && SameKind(n, m) && SameKind(m, og.h[x0]) && Holds(og, tr, m, x0, c)
    requires CopyNode(n, m, o)
    ensures SameKind(n, og.h[x0]) && Holds(og, Copied(tr, o, d), n, x0, Plus(d, c))
  {
    var e := Plus(d, c);
    assert Below(c, e);
    if Rest(og, x0, e).Some? {
      LessRest(og, x0, c, e);
      if Wraps(og.h[x0]) { WrapRest(og, x0, e); }
      if n.Concat? { ConcatParts(og, x0, e); }
      hide Image, Rest, Copied, Spared, Has, Below, Parts;
      match n
      case Concat(ts) => AlignedCopied(og, tr, o, d, c, ts, m.tokens, og.h[x0].tokens);
      case One(ts) =>
        forall k0 | k0 in og.h[x0].tokens && Rest(og, k0, e).Some? ensures Has(og, Copied(tr, o, d), e, ts, k0) {
          LessRest(og, k0, c, e);
          HasCopied(og, tr, o, d, c, ts, m.tokens, k0);
        }
      case Optional(t) => ImageCopied(og, tr, o, d, c, Kids(n)[0], og.h[x0].token);
      case Scope(t) => ImageCopied(og, tr, o, d, c, Kids(n)[0], og.h[x0].token);
      case Repeat(t, _, _) => ImageCopied(og, tr, o, d, c, Kids(n)[0], og.h[x0].token);
      case _ =>
    }
  }

  // ---------- what does not change ----------

  ghost predicate ExtendsTrace(a: Trace, b: Trace) {
    && (forall x :: x in a.src ==> x in b.src && b.src[x] == a.src[x])
    && (forall x :: x in a.at ==> x in b.at && b.at[x] == a.at[x])
  }

  lemma {:induction false} AlignedStill(og: Basis, a: Trace, b: Trace, c: Counts, ts: seq<Ref>, ts0: seq<Ref>)
    requires Aligned(og, a, c, ts, ts0) && ExtendsTrace(a, b)
    ensures Aligned(og, b, c, ts, ts0)
    decreases |ts0|
  {
    if ts0 != [] {
      hide Rest;
      if ts != [] && Image(og, a, c, ts[0], ts0[0]) && Aligned(og, a, c, ts[1..], ts0[1..]) {
        AlignedStill(og, a, b, c, ts[1..], ts0[1..]);
        assert Image(og, b, c, ts[0], ts0[0]);
      } else {
        AlignedStill(og, a, b, c, ts, ts0[1..]);
      }
    }
  }

  lemma {:induction false} HoldsStill(og: Basis, a: Trace, b: Trace, n: Node, x0: Ref, c: Counts)
    requires x0 in og.h && !n.Pointer? && SameKind(n, og.h[x0]) && Holds(og, a, n, x0, c) && ExtendsTrace(a, b)
    ensures Holds(og, b, n, x0, c)
  {
    hide Rest, Aim;
    if Rest(og, x0, c).Some? {
      match n
      case Concat(ts) => AlignedStill(og, a, b, c, ts, og.h[x0].tokens);
      case One(ts) =>
        forall k0 | k0 in og.h[x0].tokens && Rest(og, k0, c).Some? ensures Has(og, b, c, ts, k0) {
          var k :| k in ts && Image(og, a, c, k, k0);
          assert Image(og, b, c, k, k0);
        }
      case _ =>
    }
  }

  /** Tokens stay, and none becomes a pointer. */
  ghost predicate Stays(h: Graph, g: Graph) {
    forall x :: x in h ==> x in g && (h[x].Pointer? <==> g[x].Pointer?)
  }

  lemma {:induction false} TokenStill(og: Basis, a: Trace, b: Trace, h: Graph, g: Graph, known: map<Ref, Ref>,
          more: map<Ref, Ref>, x: Ref)
    requires TokenOk(og, a, h, known, x) && ExtendsTrace(a, b) && Stays(h, g) && g[x] == h[x]
    requires forall k :: k in known ==> k in more
    ensures TokenOk(og, b, g, more, x)
  {
    hide Rest, Aim, Stands, Below;
    if !h[x].Pointer? {
      hide Holds;
      HoldsStill(og, a, b, h[x], a.src[x], a.at[x]);
    }
  }

  // ---------- cloning ----------

  lemma {:induction false} CopyExtends(tr: Trace, h: Graph, n: Ref, g: Graph, m: Ref, o: map<Ref, Ref>, d: Counts)
    requires AllTraced(tr, h) && CopyOf(h, n, g, m, o, h.Keys)
    ensures ExtendsTrace(tr, Copied(tr, o, d)) && AllTraced(Copied(tr, o, d), g) && Stays(h, g)
    ensures forall x :: x in h ==> g[x] == h[x] && x !in o
    ensures forall x :: x in o ==> o[x] in h && x in Copied(tr, o, d).src && x in Copied(tr, o, d).at
    ensures forall x :: x in o ==> Copied(tr, o, d).src[x] == tr.src[o[x]]
                                   && Copied(tr, o, d).at[x] == Plus(d, tr.at[o[x]])
  {
    hide *;
    CopyFacts(h, n, g, m, o);
    CopiedTrace(tr, h, g, o, d);
    CopyStays(h, g);
  }

  lemma {:induction false} CopyStays(h: Graph, g: Graph)
    requires forall x :: x in h ==> x in g && g[x] == h[x]
    ensures Stays(h, g)
  {
  }

  lemma {:induction false} CopyFacts(h: Graph, n: Ref, g: Graph, m: Ref, o: map<Ref, Ref>)
    requires CopyOf(h, n, g, m, o, h.Keys)
    ensures g.Keys == h.Keys + o.Keys && o.Keys !! h.Keys && forall x :: x in h ==> x in g && g[x] == h[x]
    ensures forall x :: x in o ==> o[x] in h
  {
    hide CopyNode, SingleParents, NoRepeats;
  }

  lemma {:induction false} CopiedTrace(tr: Trace, h: Graph, g: Graph, o: map<Ref, Ref>, d: Counts)
    requires AllTraced(tr, h) && g.Keys == h.Keys + o.Keys && o.Keys !! h.Keys && forall x :: x in o ==> o[x] in h
    ensures ExtendsTrace(tr, Copied(tr, o, d)) && AllTraced(Copied(tr, o, d), g)
    ensures forall x :: x in o ==> x in Copied(tr, o, d).src && x in Copied(tr, o, d).at
    ensures forall x :: x in o ==> Copied(tr, o, d).src[x] == tr.src[o[x]]
                                   && Copied(tr, o, d).at[x] == Plus(d, tr.at[o[x]])
  {
    hide Plus;
  }

  lemma {:induction false} CopyIs(h: Graph, n: Ref, g: Graph, m: Ref, o: map<Ref, Ref>, x: Ref)
    requires CopyOf(h, n, g, m, o, h.Keys) && x in o
    ensures x in g && o[x] in h && CopyNode(g[x], h[o[x]], o)
  {
    hide CopyNode, SingleParents, NoRepeats;
  }

  lemma {:induction false} PlusBelow(d: Counts, a: Counts, b: Counts)
    requires Below(a, b)
    ensures Below(Plus(d, a), Plus(d, b))
  {
  }

  lemma {:induction false} CopyOk(og: Basis, tr: Trace, h: Graph, known: map<Ref, Ref>, n: Ref, g: Graph, m: Ref,
          o: map<Ref, Ref>, d: Counts, x: Ref)
    requires AllTraced(tr, h) && CopyOf(h, n, g, m, o, h.Keys) && x in o && x in g && o[x] in h
    requires TokenOk(og, tr, h, known, o[x])
    ensures TokenOk(og, Copied(tr, o, d), g, known, x)
  {
    var tr', y := Copied(tr, o, d), o[x];
    CopyExtends(tr, h, n, g, m, o, d);
    CopyIs(h, n, g, m, o, x);
    hide CopyOf, Rest, Aim, Stands, Below, Copied, Holds, Plus, CopyNode, ExtendsTrace, AllTraced, Stays;
    CopyCounts(tr, tr', g[x], h[y], o, d, tr.at[y]);
    if h[y].Pointer? {
      SharedPointer(og, tr, tr', h, g, known, y, x, o);
    } else {
      assert !g[x].Pointer? && SameKind(g[x], h[y]) by { CopyKind(g[x], h[y], o); }
      HoldsCopied(og, tr, o, d, g[x], h[y], tr.src[y], tr.at[y]);
    }
  }

  lemma {:induction false} CopyKind(n: Node, m: Node, o: map<Ref, Ref>)
    requires CopyNode(n, m, o)
    ensures SameKind(n, m) && (n.Pointer? <==> m.Pointer?)
  {
  }

  /** A copy of a pointer leads where the pointer leads. */
  lemma {:induction false} SharedPointer(og: Basis, tr: Trace, tr': Trace, h: Graph, g: Graph, known: map<Ref, Ref>,
          y: Ref, x: Ref, o: map<Ref, Ref>)
    requires y in h && h[y].Pointer? && x in g && CopyNode(g[x], h[y], o) && Stays(h, g) && ExtendsTrace(tr, tr')
    requires y in tr.src && tr.src[y] in og.h && og.h[tr.src[y]].Pointer? && Leading(og, tr, h, known, y)
    requires x in tr'.src && tr'.src[x] == tr.src[y]
    ensures g[x].Pointer? && Leading(og, tr', g, known, x)
  {
    hide Stands;
  }

  lemma {:induction false} CopyCounts(tr: Trace, tr': Trace, n: Node, m: Node, o: map<Ref, Ref>, d: Counts, a: Counts)
    requires CopyNode(n, m, o) && forall k :: k in Kids(m) ==> k in tr.at && Below(a, tr.at[k])
    requires forall x :: x in o && o[x] in tr.at ==> x in tr'.at && tr'.at[x] == Plus(d, tr.at[o[x]])
    ensures forall k :: k in Kids(n) ==> k in tr'.at && Below(Plus(d, a), tr'.at[k])
  {
    hide Below, Plus;
    forall k | k in Kids(n) ensures k in tr'.at && Below(Plus(d, a), tr'.at[k]) {
      var i :| 0 <= i < |Kids(n)| && Kids(n)[i] == k;
      assert Kids(m)[i] in Kids(m) && k in o && o[k] == Kids(m)[i];
      PlusBelow(d, a, tr.at[o[k]]);
    }
  }

  lemma {:induction false} OriginalStill(og: Basis, a: Trace, b: Trace, h: Graph, g: Graph)
    requires Original(og, a, h) && ExtendsTrace(a, b) && Stays(h, g)
    ensures Original(og, b, g)
  {
  }

  lemma {:induction false} TokensAt(og: Basis, tr: Trace, h: Graph, known: map<Ref, Ref>)
    requires TokensOk(og, tr, h, known)
    ensures forall x :: x in h ==> TokenOk(og, tr, h, known, x)
  {
    hide TokenOk;
  }

  lemma {:induction false} TokensAre(og: Basis, tr: Trace, h: Graph, known: map<Ref, Ref>)
    ensures (forall x :: x in h ==> TokenOk(og, tr, h, known, x)) ==> TokensOk(og, tr, h, known)
  {
    hide TokenOk;
  }

  lemma {:induction false} CopyKeys(h: Graph, n: Ref, g: Graph, m: Ref, o: map<Ref, Ref>)
    requires CopyOf(h, n, g, m, o, h.Keys)
    ensures forall x :: x in g <==> x in h || x in o
  {
    hide CopiesMade, SingleParents;
  }

  lemma {:induction false} CopiesOk(og: Basis, tr: Trace, h: Graph, known: map<Ref, Ref>, n: Ref, g: Graph, m: Ref,
          o: map<Ref, Ref>, d: Counts)
    requires AllTraced(tr, h) && CopyOf(h, n, g, m, o, h.Keys)
    requires TokensOk(og, tr, h, known) && Original(og, tr, h)
    ensures TokensOk(og, Copied(tr, o, d), g, known) && Original(og, Copied(tr, o, d), g)
  {
    hide *;
    var tr' := Copied(tr, o, d);
    CopyExtends(tr, h, n, g, m, o, d);
    CopyKeys(h, n, g, m, o);
    OriginalStill(og, tr, tr', h, g);
    TokensAt(og, tr, h, known);
    TokensAre(og, tr', g, known);
    forall x | x in g ensures TokenOk(og, tr', g, known, x) {
      if x in o {
        CopyOk(og, tr, h, known, n, g, m, o, d, x);
      } else {
        TokenStill(og, tr, tr', h, g, known, known, x);
      }
    }
  }

  // ---------- the parts of the invariant ----------

  lemma {:induction false} CoversParts(og: Basis, tr: Trace, m: Machine)
    requires Covers(og, tr, m)
    ensures Formed(og.h, og.rank) && AllTraced(tr, m.h)
    ensures TokensOk(og, tr, m.h, m.originals) && Original(og, tr, m.h) && Known(og, tr, m)
    ensures Counting(tr, m.queue) && RootKept(og, tr, m.root, m.climbed)
  {
    hide Formed, AllTraced, TokensOk, Original, Known, Counting, RootKept;
  }

  lemma {:induction false} CoversIs(og: Basis, tr: Trace, m: Machine)
    requires Formed(og.h, og.rank) && AllTraced(tr, m.h)
    requires TokensOk(og, tr, m.h, m.originals) && Original(og, tr, m.h) && Known(og, tr, m)
    requires Counting(tr, m.queue) && RootKept(og, tr, m.root, m.climbed)
    ensures Covers(og, tr, m)
  {
    hide Formed, AllTraced, TokensOk, Original, Known, Counting, RootKept;
  }
}
