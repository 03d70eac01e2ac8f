/** What a cut takes along: only tokens of which nothing is left in the original graph. */
module UnrollLoss {
  import opened Onces
  import opened TokenGraphs
  import opened UnrollWords
  import opened UnrollState
  import opened UnrollSteps
  import opened UnrollCopy
  import opened UnrollRemoval
  import opened UnrollMachine
  import opened UnrollSpec
  import opened UnrollTrees
  import opened UnrollTraces
  import opened UnrollGrowth

  // ---------- what a cut takes along ----------

  /** Nothing is left of ta, and it was not expanded. */
  ghost predicate Gone(og: Basis, tr: Trace, h: Graph, ta: Ref) {
    && ta in h && ta in tr.src && ta in tr.at && tr.src[ta] in og.h && (h[ta].Pointer? <==> og.h[tr.src[ta]].Pointer?)
    && (!h[ta].Pointer? ==> SameKind(h[ta], og.h[tr.src[ta]]))
    && Rest(og, tr.src[ta], tr.at[ta]) == None
    && (h[ta].Pointer? ==> !Grows(og.h, og.limit, tr.src[ta], tr.at[ta]))
  }

  /** Nothing was left of a part that is taken away. */
  lemma {:induction false} GoneImage(og: Basis, tr: Trace, h: Graph, ta: Ref, c: Counts, k0: Ref)
    requires Formed(og.h, og.rank) && Gone(og, tr, h, ta) && Image(og, tr, c, ta, k0)
    ensures Rest(og, k0, c) == None
    ensures Spared(og.h, og.limit, k0, c) ==> OptionalType(h[ta])
  {
    ImageRest(og, tr, c, ta, k0);
    AimKnown(og.h, k0, {});
    hide Formed, Rest;
  }

  lemma {:induction false} AlignedDropped(og: Basis, tr: Trace, h: Graph, c: Counts, ts: seq<Ref>, ts0: seq<Ref>,
          ta: Ref)
    requires Formed(og.h, og.rank) && Gone(og, tr, h, ta) && Aligned(og, tr, c, ts, ts0)
    ensures Aligned(og, tr, c, Dropped(ts, ta), ts0)
    decreases |ts0|, 0
  {
    if ts0 != [] {
      hide Image, Rest, Formed, Gone;
      if ts != [] && Image(og, tr, c, ts[0], ts0[0]) && Aligned(og, tr, c, ts[1..], ts0[1..]) {
        if ts[0] != ta {
          AlignedDropped(og, tr, h, c, ts[1..], ts0[1..], ta);
          assert ([ts[0]] + Dropped(ts[1..], ta))[1..] == Dropped(ts[1..], ta);
        } else {
          GoneImage(og, tr, h, ta, c, ts0[0]);
          if |ts| > 1 {
            AlignedBehind(og, tr, h, c, ts[1..], ts0[1..], ta);
            assert ts[1..][1..] == ts[2..];
          } else {
            assert ts[1..] == [];
          }
        }
      } else {
        AlignedDropped(og, tr, h, c, ts, ts0[1..], ta);
      }
    }
  }

  /** What moves up is not looked at. */
  lemma {:induction false} AlignedBehind(og: Basis, tr: Trace, h: Graph, c: Counts, ts: seq<Ref>, ts0: seq<Ref>,
          ta: Ref)
    requires Formed(og.h, og.rank) && Gone(og, tr, h, ta) && Aligned(og, tr, c, ts, ts0) && ts != []
    ensures Aligned(og, tr, c, [ts[0]] + Dropped(ts[1..], ta), ts0)
    decreases |ts0|, 1
  {
    hide Image, Rest, Formed, Gone;
    if Image(og, tr, c, ts[0], ts0[0]) && Aligned(og, tr, c, ts[1..], ts0[1..]) {
      AlignedDropped(og, tr, h, c, ts[1..], ts0[1..], ta);
      assert ([ts[0]] + Dropped(ts[1..], ta))[1..] == Dropped(ts[1..], ta);
    } else {
      AlignedBehind(og, tr, h, c, ts, ts0[1..], ta);
    }
  }

  lemma {:induction false} PartLost(og: Basis, tr: Trace, h: Graph, c: Counts, ts: seq<Ref>, ts0: seq<Ref>, ta: Ref)
    requires Formed(og.h, og.rank) && Gone(og, tr, h, ta) && Aligned(og, tr, c, ts, ts0) && ta in ts
    requires Parts(og, c, ts0)
    ensures OptionalType(h[ta])
    decreases |ts0|
  {
    hide Image, Rest, Formed, Gone, Spared;
    assert ts0[0] in ts0 && forall k0 :: k0 in ts0[1..] ==> k0 in ts0;
    if ts != [] && Image(og, tr, c, ts[0], ts0[0]) && Aligned(og, tr, c, ts[1..], ts0[1..]) {
      if ts[0] == ta { GoneImage(og, tr, h, ta, c, ts0[0]); } else { PartLost(og, tr, h, c, ts[1..], ts0[1..], ta); }
    } else {
      PartLost(og, tr, h, c, ts, ts0[1..], ta);
    }
  }

  lemma {:induction false} HasRemoved(og: Basis, tr: Trace, h: Graph, c: Counts, ts: seq<Ref>, ta: Ref, k0: Ref)
    requires Formed(og.h, og.rank) && Gone(og, tr, h, ta) && Has(og, tr, c, ts, k0) && Rest(og, k0, c).Some?
    ensures Has(og, tr, c, Removed(ts, ta), k0)
  {
    hide Image, Rest, Formed, Gone;
    var k :| k in ts && Image(og, tr, c, k, k0);
    if k == ta { GoneImage(og, tr, h, ta, c, k0); }
    RemovedAmong(ts, ta, k);
  }

  lemma {:induction false} SomeLeft(og: Basis, x0: Ref, c: Counts)
    requires x0 in og.h && og.h[x0].One? && Rest(og, x0, c).Some?
    ensures exists k0 :: k0 in og.h[x0].tokens && Rest(og, k0, c).Some?
  {
    UnfoldOne(og.h, og.rank, og.limit, x0, c);
    var ts := og.h[x0].tokens;
    hide Unfold;
    var i := AlternativeOf(og.h, og.rank, og.limit, ts, c, og.rank[x0], 0);
    assert ts[i] in ts && Rest(og, ts[i], c).Some?;
  }

  lemma {:induction false} RemovalKind(h: Graph, n: Node, m: Node, ta: Ref)
    requires !n.Pointer? && SameKind(n, m)
    ensures !LogicalRemoval(h, n, ta).0.Pointer? && SameKind(LogicalRemoval(h, n, ta).0, m)
    ensures forall k :: k in Kids(LogicalRemoval(h, n, ta).0) ==> k in Kids(n)
  {
    match n
    case Concat(ts) => forall k | k in Dropped(ts, ta) ensures k in ts { DroppedAmong(ts, ta, k); }
    case One(ts) => forall k | k in Removed(ts, ta) ensures k in ts { RemovedAmong(ts, ta, k); }
    case _ =>
  }

  /** Without ta, the token still has what is left; if it is of no use, nothing is. */
  lemma {:induction false} HoldsWithout(og: Basis, tr: Trace, h: Graph, n: Node, x0: Ref, c: Counts, ta: Ref)
    requires x0 in og.h && !n.Pointer? && SameKind(n, og.h[x0]) && Holds(og, tr, n, x0, c)
    requires Formed(og.h, og.rank) && Gone(og, tr, h, ta)
    ensures SameKind(LogicalRemoval(h, n, ta).0, og.h[x0]) && Holds(og, tr, LogicalRemoval(h, n, ta).0, x0, c)
    ensures !LogicalRemoval(h, n, ta).1 ==> Rest(og, x0, c) == None
  {
    RemovalKind(h, n, og.h[x0], ta);
    assert ta in h;
    if Rest(og, x0, c).Some? {
      if Wraps(og.h[x0]) { WrapRest(og, x0, c); }
      hide Image, Rest, Formed, Gone, Has, Aligned;
      match n
      case Concat(ts) =>
        ConcatParts(og, x0, c);
        hide Parts;
        if ta in ts { PartLost(og, tr, h, c, ts, og.h[x0].tokens, ta); }
        AlignedDropped(og, tr, h, c, ts, og.h[x0].tokens, ta);
      case One(ts) =>
        forall k0 | k0 in og.h[x0].tokens && Rest(og, k0, c).Some? ensures Has(og, tr, c, Removed(ts, ta), k0) {
          HasRemoved(og, tr, h, c, ts, ta, k0);
        }
        SomeLeft(og, x0, c);
        var k0 :| k0 in og.h[x0].tokens && Rest(og, k0, c).Some?;
        HasSome(og, tr, c, Removed(ts, ta), k0);
      case Optional(t) => if t == ta { GoneImage(og, tr, h, ta, c, og.h[x0].token); }
      case Scope(t) => if t == ta { GoneImage(og, tr, h, ta, c, og.h[x0].token); }
      case Repeat(t, _, _) => if t == ta { GoneImage(og, tr, h, ta, c, og.h[x0].token); }
      case _ =>
    }
  }

  lemma {:induction false} HasSome(og: Basis, tr: Trace, c: Counts, ts: seq<Ref>, k0: Ref)
    requires Has(og, tr, c, ts, k0)
    ensures ts != []
  {
    hide Image;
  }

  /** Going up from ta by the parents leads to the root. */
  ghost predicate UpTo(tt: Item, ta: Ref, root: Ref)
    decreases tt
  {
    if tt.NoItem? then ta == root else UpTo(tt.parent, tt.tok, root)
  }

  lemma {:induction false} RemovalOk(og: Basis, tr: Trace, h: Graph, known: map<Ref, Ref>, p: Ref, ta: Ref)
    requires p in h && Formed(og.h, og.rank) && TokensOk(og, tr, h, known) && Gone(og, tr, h, ta)
    ensures var g := h[p := LogicalRemoval(h, h[p], ta).0];
            TokensOk(og, tr, g, known) && Stays(h, g) && g.Keys == h.Keys
    ensures !LogicalRemoval(h, h[p], ta).1 ==> Gone(og, tr, h[p := LogicalRemoval(h, h[p], ta).0], p)
  {
    var n := LogicalRemoval(h, h[p], ta).0;
    var g := h[p := n];
    hide *;
    TokensAt(og, tr, h, known);
    TokensAre(og, tr, g, known);
    ExtendsItself(tr);
    if h[p].Pointer? {
      PointerStays(h, h[p], ta);
      assert g == h;
      StaysItself(h);
    } else {
      WithoutOk(og, tr, h, g, known, p, ta);
    }
    forall x | x in g ensures TokenOk(og, tr, g, known, x) {
      if x != p { TokenStill(og, tr, tr, h, g, known, known, x); }
    }
  }

  lemma {:induction false} WithoutOk(og: Basis, tr: Trace, h: Graph, g: Graph, known: map<Ref, Ref>, p: Ref, ta: Ref)
    requires p in h && !h[p].Pointer? && g == h[p := LogicalRemoval(h, h[p], ta).0] && Formed(og.h, og.rank)
    requires TokenOk(og, tr, h, known, p) && Gone(og, tr, h, ta)
    ensures TokenOk(og, tr, g, known, p) && Stays(h, g)
    ensures !LogicalRemoval(h, h[p], ta).1 ==> Gone(og, tr, g, p)
  {
    hide Formed, Gone, LogicalRemoval, Below, Holds;
    HoldsWithout(og, tr, h, h[p], tr.src[p], tr.at[p], ta);
    RemovalKind(h, h[p], og.h[tr.src[p]], ta);
    GoneIs(og, tr, h, g, known, p);
  }

  lemma {:induction false} PointerStays(h: Graph, n: Node, ta: Ref)
    requires n.Pointer?
    ensures LogicalRemoval(h, n, ta) == (n, true)
  {
  }

  lemma {:induction false} GoneIs(og: Basis, tr: Trace, h: Graph, g: Graph, known: map<Ref, Ref>, p: Ref)
    requires TokenOk(og, tr, h, known, p) && !h[p].Pointer? && p in g && !g[p].Pointer?
    requires SameKind(g[p], og.h[tr.src[p]])
    ensures Rest(og, tr.src[p], tr.at[p]) == None ==> Gone(og, tr, g, p)
  {
    hide Rest, Below, Holds;
    assert !og.h[tr.src[p]].Pointer? by { KindOfToken(h[p], og.h[tr.src[p]]); }
  }

  lemma {:induction false} KindOfToken(n: Node, m: Node)
    requires SameKind(n, m) && !n.Pointer?
    ensures !m.Pointer?
  {
  }

  lemma {:induction false} ClimbCovers(og: Basis, tr: Trace, h: Graph, known: map<Ref, Ref>, tt: Item, ta: Ref,
          root: Ref)
    requires ItemIn(h, tt) && UpTo(tt, ta, root) && Formed(og.h, og.rank)
    requires TokensOk(og, tr, h, known) && Gone(og, tr, h, ta)
    ensures var (g, past) := Climb(h, tt, ta);
            && TokensOk(og, tr, g, known) && Stays(h, g) && g.Keys == h.Keys
            && (past ==> root in tr.src && root in tr.at && Rest(og, tr.src[root], tr.at[root]) == None)
    decreases tt
  {
    if tt.NoItem? {
      ClimbsPast(h, tt, ta);
      GoneRest(og, tr, h, ta);
      StaysItself(h);
    } else {
      ItemInParts(h, tt);
      ClimbsOn(h, tt, ta);
      var (n, keep) := LogicalRemoval(h, h[tt.tok], ta);
      var g := h[tt.tok := n];
      assert UpTo(tt.parent, tt.tok, root);
      hide *;
      RemovalOk(og, tr, h, known, tt.tok, ta);
      if !keep {
        ItemInMore(h, g, tt.parent);
        ClimbCovers(og, tr, g, known, tt.parent, tt.tok, root);
        StaysOn(h, g, Climb(h, tt, ta).0);
      }
    }
  }

  lemma {:induction false} GoneRest(og: Basis, tr: Trace, h: Graph, ta: Ref)
    requires Gone(og, tr, h, ta)
    ensures ta in tr.src && ta in tr.at && Rest(og, tr.src[ta], tr.at[ta]) == None
  {
    hide Rest;
  }

  lemma {:induction false} StaysItself(h: Graph)
    ensures Stays(h, h)
  {
  }

  lemma {:induction false} StaysOn(h: Graph, g: Graph, l: Graph)
    requires Stays(h, g) && Stays(g, l)
    ensures Stays(h, l)
  {
  }

  lemma {:induction false} CutCovers(og: Basis, tr: Trace, m: Machine, item: Item, n: Machine)
    requires item.Item? && item.tok in m.h && m.h[item.tok].Pointer? && n == CutAt(m, item)
    requires ItemIn(m.h, item) && UpTo(item.parent, item.tok, m.root) && item.tok in tr.src && item.tok in tr.at
    requires tr.src[item.tok] in og.h && !Grows(og.h, og.limit, tr.src[item.tok], tr.at[item.tok])
    requires Covers(og, tr, m)
    ensures Covers(og, tr, n)
  {
    hide *;
    CoversParts(og, tr, m);
    CutParts(m, item, n);
    var past := CutGraph(og, tr, m.h, m.originals, item, m.root);
    ExtendsItself(tr);
    OriginalStill(og, tr, tr, m.h, n.h);
    TracedStill(tr, m.h, n.h);
    KnownStill(og, tr, m, n);
    RootCut(og, tr, m.root, m.climbed, past);
    CoversIs(og, tr, n);
  }

  lemma {:induction false} CutParts(m: Machine, item: Item, n: Machine)
    requires item.Item? && n == CutAt(m, item)
    ensures n.h == Climb(m.h[item.tok := Pointer(None)], item.parent, item.tok).0
    ensures n.climbed == (m.climbed || Climb(m.h[item.tok := Pointer(None)], item.parent, item.tok).1)
    ensures n.originals == m.originals && n.clones == m.clones && n.root == m.root && n.queue == m.queue
  {
    hide Climb;
  }

  lemma {:induction false} CutGraph(og: Basis, tr: Trace, h: Graph, known: map<Ref, Ref>, item: Item, root: Ref)
    returns (past: bool)
    requires item.Item? && item.tok in h && h[item.tok].Pointer? && item.tok in tr.src && item.tok in tr.at
    requires ItemIn(h, item) && UpTo(item.parent, item.tok, root) && Formed(og.h, og.rank)
    requires tr.src[item.tok] in og.h && !Grows(og.h, og.limit, tr.src[item.tok], tr.at[item.tok])
    requires TokensOk(og, tr, h, known)
    ensures var g := Climb(h[item.tok := Pointer(None)], item.parent, item.tok).0;
            TokensOk(og, tr, g, known) && Stays(h, g) && g.Keys == h.Keys
    ensures past == Climb(h[item.tok := Pointer(None)], item.parent, item.tok).1
    ensures past ==> root in tr.src && root in tr.at && Rest(og, tr.src[root], tr.at[root]) == None
  {
    hide *;
    var t, h' := item.tok, h[item.tok := Pointer(None)];
    assert h'.Keys == h.Keys;
    TokensAt(og, tr, h, known);
    OkKind(og, tr, h, known, t);
    CutTokens(og, tr, h, known, t);
    CutIsGone(og, tr, h, t);
    ItemInMore(h, h', item);
    ItemInParts(h', item);
    ClimbCovers(og, tr, h', known, item.parent, t, root);
    past := Climb(h', item.parent, t).1;
    StaysOn(h, h', Climb(h', item.parent, t).0);
  }

  lemma {:induction false} KnownStill(og: Basis, tr: Trace, m: Machine, n: Machine)
    requires Known(og, tr, m) && n.originals == m.originals && n.clones == m.clones
    ensures Known(og, tr, n)
  {
  }

  lemma {:induction false} CutTokens(og: Basis, tr: Trace, h: Graph, known: map<Ref, Ref>, t: Ref)
    requires t in h && h[t].Pointer? && TokensOk(og, tr, h, known)
    ensures TokensOk(og, tr, h[t := Pointer(None)], known) && Stays(h, h[t := Pointer(None)])
  {
    var g := h[t := Pointer(None)];
    TokensAt(og, tr, h, known);
    TokensAre(og, tr, g, known);
    ExtendsItself(tr);
    assert Stays(h, g);
    hide TokensOk, TokenOk, ExtendsTrace;
    forall x | x in g ensures TokenOk(og, tr, g, known, x) {
      if x == t {
        SetOk(og, tr, h, g, known, t, None);
      } else {
        TokenStill(og, tr, tr, h, g, known, known, x);
      }
    }
  }

  lemma {:induction false} CutIsGone(og: Basis, tr: Trace, h: Graph, t: Ref)
    requires t in h && h[t].Pointer? && t in tr.src && t in tr.at && tr.src[t] in og.h && og.h[tr.src[t]].Pointer?
    requires !Grows(og.h, og.limit, tr.src[t], tr.at[t])
    ensures Gone(og, tr, h[t := Pointer(None)], t)
  {
    StoppedIsUseless(og, tr.at[t], tr.src[t]);
    hide Rest, Spared, Grows;
  }

  lemma {:induction false} RootCut(og: Basis, tr: Trace, root: Ref, climbed: bool, past: bool)
    requires RootKept(og, tr, root, climbed) && Formed(og.h, og.rank)
    requires past ==> root in tr.src && root in tr.at && Rest(og, tr.src[root], tr.at[root]) == None
    ensures RootKept(og, tr, root, climbed || past)
  {
    hide Rest, Formed, Image;
    if past && Image(og, tr, map[], root, og.root) { ImageRest(og, tr, map[], root, og.root); }
  }

  /** The children of a token come next, with its counts. */
  lemma {:induction false} VisitCovers(og: Basis, tr: Trace, m: Machine, item: Item, rest: seq<Item>, n: Machine)
    requires m.queue == [item] + rest && item.Item? && item.tok in m.h && Covers(og, tr, m)
    requires n.h == m.h && n.originals == m.originals && n.clones == m.clones && n.root == m.root
    requires n.climbed == m.climbed && n.queue == KidItems(Kids(m.h[item.tok]), item) + rest
    ensures Covers(og, tr, n)
  {
    CoversParts(og, tr, m);
    TokensAt(og, tr, m.h, m.originals);
    assert TokenOk(og, tr, m.h, m.originals, item.tok);
    VisitCounting(tr, m.h, item, rest);
    hide *;
    KnownStill(og, tr, m, n);
    CoversIs(og, tr, n);
  }

  lemma {:induction false} BelowOn(a: Counts, b: Counts, c: Counts)
    requires Below(a, b) && Below(b, c)
    ensures Below(a, c)
  {
    forall o ensures CountOf(a, o) <= CountOf(c, o) {
      assert CountOf(a, o) <= CountOf(b, o) && CountOf(b, o) <= CountOf(c, o);
    }
  }

  lemma {:induction false} VisitCounting(tr: Trace, h: Graph, item: Item, rest: seq<Item>)
    requires item.Item? && item.tok in h && item.tok in tr.at && Counting(tr, [item] + rest)
    requires forall k :: k in Kids(h[item.tok]) ==> k in tr.at && Below(tr.at[item.tok], tr.at[k])
    ensures Counting(tr, KidItems(Kids(h[item.tok]), item) + rest)
  {
    var ts := Kids(h[item.tok]);
    var q := KidItems(ts, item) + rest;
    hide Below;
    assert ([item] + rest)[0] == item;
    forall i | 0 <= i < |q| ensures q[i].Item? && q[i].tok in tr.at && Below(q[i].counts, tr.at[q[i].tok]) {
      if i < |ts| {
        assert ts[i] in ts;
        BelowOn(item.counts, tr.at[item.tok], tr.at[ts[i]]);
      } else {
        assert q[i] == ([item] + rest)[i - |ts| + 1];
      }
    }
  }

  lemma {:induction false} TakenCovers(og: Basis, tr: Trace, m: Machine, item: Item, rest: seq<Item>, n: Machine)
    requires m.queue == [item] + rest && item.Item? && n.queue == rest && n.h == m.h && n.originals == m.originals
    requires n.clones == m.clones && n.root == m.root && n.climbed == m.climbed
    requires Covers(og, tr, m)
    ensures Covers(og, tr, n) && item.tok in tr.at && Below(item.counts, tr.at[item.tok])
  {
    hide *;
    CoversParts(og, tr, m);
    CountingRest(tr, item, rest);
    KnownStill(og, tr, m, n);
    CoversIs(og, tr, n);
  }

  lemma {:induction false} CountingRest(tr: Trace, item: Item, rest: seq<Item>)
    requires Counting(tr, [item] + rest)
    ensures Counting(tr, rest) && item.Item? && item.tok in tr.at && Below(item.counts, tr.at[item.tok])
  {
    hide Below;
    var q := [item] + rest;
    assert q[0] == item;
    forall i | 0 <= i < |rest|
      ensures rest[i].Item? && rest[i].tok in tr.at && Below(rest[i].counts, tr.at[rest[i].tok])
    {
      assert rest[i] == q[i + 1];
    }
  }
}
