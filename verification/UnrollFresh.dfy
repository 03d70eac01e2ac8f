/** Cloning keeps the invariant of UnrollState. */
module UnrollFresh {
  import opened TokenGraphs
  import opened UnrollWords
  import opened UnrollState
  import opened UnrollCopy

  ghost function SourceWith(src: Source, o: map<Ref, Ref>): Source {
    src + map x | x in o && o[x] in src :: src[o[x]]
  }

  /** Everything that was there ranks above the copies. */
  ghost function RankAbove(h: Graph, rank: map<Ref, nat>, top: nat, o: map<Ref, Ref>): map<Ref, nat> {
    (map x | x in h && x in rank :: rank[x] + top) + (map x | x in o && o[x] in rank :: rank[o[x]])
  }

  ghost function SizeWith(size: map<Ref, nat>, o: map<Ref, Ref>, sz: map<Ref, nat>): map<Ref, nat> {
    size + map x | x in o :: SizeOf(sz, o[x])
  }

  ghost function WithCopies(v: View, g: Graph, m: Ref, o: map<Ref, Ref>, sz: map<Ref, nat>): View {
    v.(h := g, next := m, src := SourceWith(v.src, o), rank := RankAbove(v.h, v.rank, v.top, o),
       top := v.top + v.top, size := SizeWith(v.size, o, sz))
  }

  // ---------- words ----------

  lemma {:induction false} EmbedsSame(h0: Graph, src: Source, ts: seq<Ref>, src': Source, ts': seq<Ref>, ts0: seq<Ref>)
    requires Embeds(h0, src, ts, ts0) && |ts| == |ts'|
    requires forall i :: 0 <= i < |ts| && ts[i] in src ==> ts'[i] in src' && src'[ts'[i]] == src[ts[i]]
    ensures Embeds(h0, src', ts', ts0)
    decreases |ts0|
  {
    if ts0 != [] {
      if ts != [] && Matches(h0, src, ts[0], ts0[0]) && Embeds(h0, src, ts[1..], ts0[1..]) {
        EmbedsSame(h0, src, ts[1..], src', ts'[1..], ts0[1..]);
      } else {
        EmbedsSame(h0, src, ts, src', ts', ts0[1..]);
      }
    }
  }

  /** Tokens with the same kind and children from the same places stand for the same token. */
  lemma {:induction false} SimNodeSame(h0: Graph, src: Source, n: Node, src': Source, n': Node, m: Node)
    requires SimNode(h0, src, n, m) && SameKind(n', n) && |Kids(n)| == |Kids(n')|
    requires forall x :: x in src ==> x in src' && src'[x] == src[x]
    requires forall i :: 0 <= i < |Kids(n)| && Kids(n)[i] in src ==>
               Kids(n')[i] in src' && src'[Kids(n')[i]] == src[Kids(n)[i]]
    ensures SimNode(h0, src', n', m)
  {
    match n
    case Concat(ts) => EmbedsSame(h0, src, ts, src', n'.tokens, m.tokens);
    case One(ts) =>
      forall i | 0 <= i < |n'.tokens| ensures Among(h0, src', n'.tokens[i], m.tokens) {
        assert Among(h0, src, ts[i], m.tokens);
        var j :| 0 <= j < |m.tokens| && Matches(h0, src, ts[i], m.tokens[j]);
        assert Matches(h0, src', n'.tokens[i], m.tokens[j]);
      }
    case Optional(t) => assert Kids(n)[0] == t && Kids(n')[0] == n'.token;
    case Scope(t) => assert Kids(n)[0] == t && Kids(n')[0] == n'.token;
    case Repeat(t, _, _) => assert Kids(n)[0] == t && Kids(n')[0] == n'.token;
    case _ =>
  }

  lemma {:induction false} SameKindItself(n: Node)
    ensures SameKind(n, n)
  {
  }

  lemma {:induction false} CopiesSimulate(h0: Graph, v: View, g: Graph, m: Ref, o: map<Ref, Ref>, dom: set<Ref>)
    requires Simulates(h0, v.h, v.src) && v.src.Keys == v.h.Keys && CopyOf(v.h, v.next, g, m, o, dom)
    ensures Simulates(h0, g, SourceWith(v.src, o)) && SourceWith(v.src, o).Keys == g.Keys
  {
    var src' := SourceWith(v.src, o);
    forall r | r in g ensures r in src' && src'[r] in h0 && SimNode(h0, src', g[r], h0[src'[r]]) {
      hide SimNode;
      if r in o {
        forall i | 0 <= i < |Kids(g[r])| ensures |Kids(v.h[o[r]])| == |Kids(g[r])|
          ensures Kids(v.h[o[r]])[i] in v.src ==>
              Kids(g[r])[i] in src' && src'[Kids(g[r])[i]] == v.src[Kids(v.h[o[r]])[i]]
        {
          CopyKid(v.h, v.next, g, m, o, dom, r, i);
        }
        SimNodeSame(h0, v.src, v.h[o[r]], src', g[r], h0[src'[r]]);
      } else {
        SameKindItself(g[r]);
        SimNodeSame(h0, v.src, v.h[r], src', g[r], h0[src'[r]]);
      }
    }
  }

  // ---------- shape ----------

  /** A child in the extended graph: of a copy, the copy of a child; of another token, a child of old. */
  lemma {:induction false} CopyEdge(h: Graph, n: Ref, g: Graph, m: Ref, o: map<Ref, Ref>, dom: set<Ref>, r: Ref, k: Ref)
    requires Closed(h) && CopyOf(h, n, g, m, o, dom) && r in g && k in Kids(g[r])
    ensures r in o ==> k in o && o[r] in h && o[k] in Kids(h[o[r]]) && o[k] in h
    ensures r !in o ==> k !in o && r in h && g[r] == h[r] && k in h
  {
    if r in o {
      var i :| 0 <= i < |Kids(g[r])| && Kids(g[r])[i] == k;
      CopyKid(h, n, g, m, o, dom, r, i);
    }
  }

  lemma {:induction false} CopySources(h: Graph, n: Ref, g: Graph, m: Ref, o: map<Ref, Ref>, dom: set<Ref>)
    requires CopyOf(h, n, g, m, o, dom)
    ensures g.Keys == h.Keys + o.Keys && o.Keys !! h.Keys && forall x :: x in o ==> o[x] in h
  {
    hide SingleParents, CopyNode, NoRepeats;
  }

  lemma {:induction false} RanksAbove(v: View, g: Graph, m: Ref, o: map<Ref, Ref>, dom: set<Ref>)
    requires Shape(v) && CopyOf(v.h, v.next, g, m, o, dom)
    ensures RankAbove(v.h, v.rank, v.top, o).Keys == g.Keys
    ensures forall x :: x in v.h ==> x in v.rank && RankAbove(v.h, v.rank, v.top, o)[x] == v.rank[x] + v.top
    ensures forall x :: x in o ==> o[x] in v.rank && RankAbove(v.h, v.rank, v.top, o)[x] == v.rank[o[x]] < v.top
  {
    hide UniqueParent, Orphan, Closed, Acyclic, RankAbove, CopyOf;
    CopySources(v.h, v.next, g, m, o, dom);
    RanksDefined(v);
    RankAboveIs(v.h, v.rank, v.top, o);
  }

  lemma {:induction false} RanksDefined(v: View)
    requires Shape(v)
    ensures v.h.Keys <= v.rank.Keys
  {
  }

  lemma {:induction false} RankAboveIs(h: Graph, rank: map<Ref, nat>, top: nat, o: map<Ref, Ref>)
    requires h.Keys <= rank.Keys && o.Keys !! h.Keys && forall x :: x in o ==> o[x] in h
    ensures RankAbove(h, rank, top, o).Keys == h.Keys + o.Keys
    ensures forall x :: x in h ==> RankAbove(h, rank, top, o)[x] == rank[x] + top
    ensures forall x :: x in o ==> RankAbove(h, rank, top, o)[x] == rank[o[x]]
  {
  }

  lemma {:induction false} CopiesAcyclic(v: View, g: Graph, m: Ref, o: map<Ref, Ref>, dom: set<Ref>)
    requires Shape(v) && CopyOf(v.h, v.next, g, m, o, dom)
    ensures Acyclic(g, RankAbove(v.h, v.rank, v.top, o))
  {
    hide UniqueParent, Orphan, CopyOf, Closed, RankAbove;
    var rank := RankAbove(v.h, v.rank, v.top, o);
    RanksAbove(v, g, m, o, dom);
    forall r, k | r in g && k in Kids(g[r]) && k in g ensures rank[k] < rank[r] {
      CopyEdge(v.h, v.next, g, m, o, dom, r, k);
    }
  }

  lemma {:induction false} CopiesParents(v: View, g: Graph, m: Ref, o: map<Ref, Ref>, dom: set<Ref>)
    requires Shape(v) && CopyOf(v.h, v.next, g, m, o, dom)
    ensures Closed(g) && UniqueParent(g)
    ensures forall k :: k in v.h && Orphan(v.h, k) ==> Orphan(g, k)
  {
    hide Acyclic;
    forall r, k | r in g && k in Kids(g[r]) ensures k in g && (k in o <==> r in o) {
      hide UniqueParent;
      CopyEdge(v.h, v.next, g, m, o, dom, r, k);
    }
    forall p, q, k | p in g && q in g && k in Kids(g[p]) && k in Kids(g[q]) ensures p == q {
      assert (k in o <==> p in o) && (k in o <==> q in o);
    }
  }

  lemma {:induction false} CopiesShape(v: View, g: Graph, m: Ref, o: map<Ref, Ref>, dom: set<Ref>, sz: map<Ref, nat>)
    requires Shape(v) && CopyOf(v.h, v.next, g, m, o, dom)
    ensures Shape(WithCopies(v, g, m, o, sz))
  {
    hide UniqueParent, Closed, Acyclic, Orphan, Apart, Aside, CopyNode, CopiesMade, SingleParents;
    CopiesAcyclic(v, g, m, o, dom);
    CopiesParents(v, g, m, o, dom);
    CopiesAside(v, g, m, o, dom);
    RanksAbove(v, g, m, o, dom);
    CopiesNext(v, g, m, o, dom);
  }

  lemma {:induction false} CopiesNext(v: View, g: Graph, m: Ref, o: map<Ref, Ref>, dom: set<Ref>)
    requires Shape(v) && CopyOf(v.h, v.next, g, m, o, dom)
    ensures forall r :: r in g ==> r < m
  {
    hide UniqueParent, Closed, Acyclic, Apart, Aside, CopyNode, SingleParents, NoRepeats;
  }

  lemma {:induction false} CopiesAside(v: View, g: Graph, m: Ref, o: map<Ref, Ref>, dom: set<Ref>)
    requires Shape(v) && CopyOf(v.h, v.next, g, m, o, dom)
    ensures Apart(g, v.side, v.root) && Aside(g, v.side)
  {
    forall p, k | p in g && p !in v.side && k in Kids(g[p]) ensures k !in v.side && k != v.root {
      hide UniqueParent, Acyclic;
      CopyEdge(v.h, v.next, g, m, o, dom, p, k);
    }
  }

  // ---------- sizes ----------

  lemma {:induction false} SizeAllSame(size: map<Ref, nat>, ts: seq<Ref>, size': map<Ref, nat>, ts': seq<Ref>)
    requires |ts| == |ts'| && forall i :: 0 <= i < |ts| ==> SizeOf(size, ts[i]) == SizeOf(size', ts'[i])
    ensures SizeAll(size, ts) == SizeAll(size', ts')
  {
    if ts != [] {
      SizeAllSame(size, ts[1..], size', ts'[1..]);
    }
  }

  lemma {:induction false} CopySize(v: View, g: Graph, m: Ref, o: map<Ref, Ref>, dom: set<Ref>, sz: map<Ref, nat>,
          r: Ref)
    requires Closed(v.h) && CopyOf(v.h, v.next, g, m, o, dom) && Exact(v.h, dom, sz) && r in o
    ensures SizeOf(SizeWith(v.size, o, sz), r) == 1 + SizeAll(SizeWith(v.size, o, sz), Kids(g[r]))
  {
    var size := SizeWith(v.size, o, sz);
    CopyArity(v.h, v.next, g, m, o, dom, r);
    hide CopyOf, Closed;
    forall i | 0 <= i < |Kids(g[r])|
      ensures SizeOf(size, Kids(g[r])[i]) == SizeOf(sz, Kids(v.h[o[r]])[i])
    {
      CopyKid(v.h, v.next, g, m, o, dom, r, i);
    }
    SizeAllSame(size, Kids(g[r]), sz, Kids(v.h[o[r]]));
  }

  lemma {:induction false} CopyArity(h: Graph, n: Ref, g: Graph, m: Ref, o: map<Ref, Ref>, dom: set<Ref>, r: Ref)
    requires CopyOf(h, n, g, m, o, dom) && r in o
    ensures r in g && o[r] in dom && o[r] in h && |Kids(h[o[r]])| == |Kids(g[r])|
  {
    hide SingleParents;
  }

  lemma {:induction false} SizedAt(v: View, r: Ref)
    requires Sized(v) && r in Unvisited(v)
    ensures SizeOf(v.size, r) == 1 + SizeAll(v.size, Kids(v.h[r]))
  {
    hide ClosedIn, SizeAll;
  }

  lemma {:induction false} OldSize(v: View, g: Graph, m: Ref, o: map<Ref, Ref>, dom: set<Ref>, sz: map<Ref, nat>,
          r: Ref)
    requires Closed(v.h) && Sized(v) && CopyOf(v.h, v.next, g, m, o, dom) && r in Unvisited(v)
    ensures SizeOf(SizeWith(v.size, o, sz), r) == 1 + SizeAll(SizeWith(v.size, o, sz), Kids(g[r]))
  {
    var size := SizeWith(v.size, o, sz);
    SizedAt(v, r);
    CopiesKeys(v, g, m, o, dom);
    hide CopyOf, Sized;
    forall i | 0 <= i < |Kids(v.h[r])| ensures SizeOf(size, Kids(v.h[r])[i]) == SizeOf(v.size, Kids(v.h[r])[i]) {
      assert Kids(v.h[r])[i] in Kids(v.h[r]) && Kids(v.h[r])[i] in v.h;
    }
    SizeAllSame(size, Kids(g[r]), v.size, Kids(v.h[r]));
  }

  lemma {:induction false} CopiesSized(v: View, g: Graph, m: Ref, o: map<Ref, Ref>, dom: set<Ref>, sz: map<Ref, nat>)
    requires Shape(v) && Sized(v) && CopyOf(v.h, v.next, g, m, o, dom) && Exact(v.h, dom, sz)
    ensures Sized(WithCopies(v, g, m, o, sz))
  {
    hide Exact, UniqueParent, Acyclic, Orphan, Closed, CopyOf, SizeWith, ClosedIn;
    CopiesExact(v, g, m, o, dom, sz);
    CopiesClosed(v, g, m, o, dom);
  }

  lemma {:induction false} CopiesClosed(v: View, g: Graph, m: Ref, o: map<Ref, Ref>, dom: set<Ref>)
    requires Closed(v.h) && v.done <= v.h.Keys && v.side <= v.h.Keys && ClosedIn(v.h, Unvisited(v))
    requires CopyOf(v.h, v.next, g, m, o, dom)
    ensures ClosedIn(g, g.Keys - v.done - v.side)
  {
    forall r, k | r in g.Keys - v.done - v.side && k in Kids(g[r]) ensures k in g.Keys - v.done - v.side {
      CopyEdge(v.h, v.next, g, m, o, dom, r, k);
      assert r !in o ==> r in Unvisited(v) && k in Unvisited(v);
    }
  }

  lemma {:induction false} CopiesExact(v: View, g: Graph, m: Ref, o: map<Ref, Ref>, dom: set<Ref>, sz: map<Ref, nat>)
    requires Shape(v) && Sized(v) && CopyOf(v.h, v.next, g, m, o, dom) && Exact(v.h, dom, sz)
    ensures Exact(g, g.Keys - v.done - v.side, SizeWith(v.size, o, sz))
  {
    var size := SizeWith(v.size, o, sz);
    forall r | r in g && r !in v.done && r !in v.side ensures SizeOf(size, r) == 1 + SizeAll(size, Kids(g[r])) {
      hide SizeOf, SizeAll, Sized, UniqueParent, Acyclic, Orphan, SizeWith;
      if r in o {
        CopySize(v, g, m, o, dom, sz, r);
      } else {
        OldSize(v, g, m, o, dom, sz, r);
      }
    }
  }

  // ---------- the rest ----------

  lemma {:induction false} CopiesChain(v: View, g: Graph, m: Ref, o: map<Ref, Ref>, dom: set<Ref>, sz: map<Ref, nat>,
          it: Item)
    requires Closed(v.h) && CopyOf(v.h, v.next, g, m, o, dom) && ChainOk(v, it)
    ensures ChainOk(WithCopies(v, g, m, o, sz), it)
    decreases it
  {
    if it.Item? {
      CopiesOnlyParent(v.h, v.next, g, m, o, dom, v.side, it.tok, it.parent);
      CopiesChain(v, g, m, o, dom, sz, it.parent);
    }
  }

  lemma {:induction false} CopiesOnlyParent(h: Graph, n: Ref, g: Graph, m: Ref, o: map<Ref, Ref>, dom: set<Ref>,
          side: set<Ref>, k: Ref, parent: Item)
    requires Closed(h) && CopyOf(h, n, g, m, o, dom) && k in h && OnlyParent(h, side, k, parent)
    ensures OnlyParent(g, side, k, parent)
  {
    forall p | p in g && p !in side && k in Kids(g[p]) ensures parent.Item? && p == parent.tok {
      CopyEdge(h, n, g, m, o, dom, p, k);
    }
  }

  lemma {:induction false} CopiesPending(v: View, g: Graph, m: Ref, o: map<Ref, Ref>, dom: set<Ref>,
          sz: map<Ref, nat>, pend: seq<Item>)
    requires Closed(v.h) && CopyOf(v.h, v.next, g, m, o, dom) && Pending(v, pend)
    ensures Pending(WithCopies(v, g, m, o, sz), pend)
  {
    forall i | 0 <= i < |pend| ensures ItemOk(WithCopies(v, g, m, o, sz), pend[i]) {
      hide CopyOf, OnlyParent, ChainOk, Closed;
      assert ItemOk(v, pend[i]);
      CopiesKeys(v, g, m, o, dom);
      CopiesOnlyParent(v.h, v.next, g, m, o, dom, v.side, pend[i].tok, pend[i].parent);
      CopiesChain(v, g, m, o, dom, sz, pend[i].parent);
    }
  }

  lemma {:induction false} CopiesKeys(v: View, g: Graph, m: Ref, o: map<Ref, Ref>, dom: set<Ref>)
    requires CopyOf(v.h, v.next, g, m, o, dom)
    ensures forall x :: x in v.h ==> x in g && g[x] == v.h[x] && x !in o
    ensures forall x :: x in g ==> x in v.h || x in o
    ensures forall x :: x in o ==> o[x] in v.h && SameKind(g[x], v.h[o[x]])
  {
  }

  lemma {:induction false} CopiesLive(v: View, g: Graph, m: Ref, o: map<Ref, Ref>, dom: set<Ref>, sz: map<Ref, nat>,
          pend: seq<Item>, at: Item, gone: Ref)
    requires v.done <= v.h.Keys && CopyOf(v.h, v.next, g, m, o, dom) && Live(v, pend, at, gone)
    ensures Live(WithCopies(v, g, m, o, sz), pend, at, gone)
  {
    CopiesKeys(v, g, m, o, dom);
  }

  lemma {:induction false} CopiesKnown(v: View, g: Graph, m: Ref, o: map<Ref, Ref>, dom: set<Ref>, sz: map<Ref, nat>,
          x: Ref)
    requires v.src.Keys == v.h.Keys && CopyOf(v.h, v.next, g, m, o, dom) && KnownOk(v, x)
    ensures KnownOk(WithCopies(v, g, m, o, sz), x)
  {
  }

  lemma {:induction false} CopiesClone(h0: Graph, v: View, g: Graph, m: Ref, o: map<Ref, Ref>, dom: set<Ref>,
          sz: map<Ref, nat>, x: Ref)
    requires Shape(v) && v.src.Keys == v.h.Keys && CopyOf(v.h, v.next, g, m, o, dom) && CloneOk(h0, v, x)
    ensures CloneOk(h0, WithCopies(v, g, m, o, sz), x)
  {
    CopiesOld(v.h, v.next, g, m, o, dom);
    CopiesParents(v, g, m, o, dom);
    hide Shape, CopyOf, Orphan, UniqueParent, Closed, SizeWith, RankAbove;
  }

  lemma {:induction false} CopiesOld(h: Graph, n: Ref, g: Graph, m: Ref, o: map<Ref, Ref>, dom: set<Ref>)
    requires CopyOf(h, n, g, m, o, dom)
    ensures forall k :: k in h ==> k in g && g[k] == h[k] && k !in o
  {
    hide CopiesMade, SingleParents;
  }

  lemma {:induction false} CopiesTargets(h: Graph, n: Ref, g: Graph, m: Ref, o: map<Ref, Ref>, dom: set<Ref>,
          s: set<Ref>)
    requires CopyOf(h, n, g, m, o, dom) && TargetsIn(h, s)
    ensures TargetsIn(g, s)
  {
    forall r | r in g && g[r].Pointer? && g[r].target.Some? ensures g[r].target.value in s {
      assert r in o ==> g[r] == h[o[r]];
    }
  }

  lemma {:induction false} CopiesRegistered(h0: Graph, v: View, g: Graph, m: Ref, o: map<Ref, Ref>, dom: set<Ref>,
          sz: map<Ref, nat>, pend: seq<Item>)
    requires Shape(v) && v.src.Keys == v.h.Keys && CopyOf(v.h, v.next, g, m, o, dom) && Registered(h0, v, pend)
    ensures Registered(h0, WithCopies(v, g, m, o, sz), pend)
  {
    hide CopyOf, Shape, KnownOk, CloneOk, InItems, TargetsIn;
    var w := WithCopies(v, g, m, o, sz);
    forall x | x in w.originals ensures KnownOk(w, x) {
      CopiesKnown(v, g, m, o, dom, sz, x);
    }
    forall x | x in w.clones ensures CloneOk(h0, w, x) && !InItems(pend, w.clones[x]) {
      CopiesClone(h0, v, g, m, o, dom, sz, x);
    }
    CopiesTargets(v.h, v.next, g, m, o, dom, h0.Keys + v.originals.Keys);
  }

  lemma {:induction false} CopiesNoExpansion(h0: Graph, v: View, g: Graph, m: Ref, o: map<Ref, Ref>, dom: set<Ref>,
          sz: map<Ref, nat>, pend: seq<Item>)
    requires Closed(v.h) && CopyOf(v.h, v.next, g, m, o, dom) && Registered(h0, v, pend) && NoExpansionBelow(v)
    ensures NoExpansionBelow(WithCopies(v, g, m, o, sz))
  {
    forall r, k | r in g && r !in v.done && r !in v.side && k in Kids(g[r]) ensures !Expansion(v.originals, k) {
      hide CopyOf, CloneOk;
      CopyEdge(v.h, v.next, g, m, o, dom, r, k);
      CopiesKeys(v, g, m, o, dom);
      if k in v.originals {
        assert KnownOk(v, k);
      }
    }
  }

  lemma {:induction false} CopiesEdgeCounts(v: View, g: Graph, m: Ref, o: map<Ref, Ref>, dom: set<Ref>,
          sz: map<Ref, nat>)
    requires v.done <= v.h.Keys && CopyOf(v.h, v.next, g, m, o, dom) && EdgeCounts(v)
    ensures EdgeCounts(WithCopies(v, g, m, o, sz))
  {
    hide Bumped;
    var w := WithCopies(v, g, m, o, sz);
    forall r, k | r in v.done && r !in v.dead && r in g && k in Kids(g[r]) ensures EdgeCount(w, r, k) {
      assert EdgeCount(v, r, k);
    }
  }

  lemma {:induction false} CopiesCounted(h0: Graph, limit: nat, v: View, g: Graph, m: Ref, o: map<Ref, Ref>,
          dom: set<Ref>, sz: map<Ref, nat>, pend: seq<Item>)
    requires Shape(v) && CopyOf(v.h, v.next, g, m, o, dom) && Registered(h0, v, pend) && Counted(limit, v, pend)
    ensures Counted(limit, WithCopies(v, g, m, o, sz), pend)
  {
    hide CopyOf, Acyclic, UniqueParent, Orphan, Bumped, Registered, NoExpansionBelow, EdgeCounts, Closed;
    CopiesNoExpansion(h0, v, g, m, o, dom, sz, pend);
    CopiesEdgeCounts(v, g, m, o, dom, sz);
  }

  /** Copying keeps everything. */
  lemma {:induction false} CopiesKeep(h0: Graph, r0: Ref, limit: nat, v: View, pend: seq<Item>, gone: Ref, g: Graph,
          m: Ref, o: map<Ref, Ref>, dom: set<Ref>, sz: map<Ref, nat>)
    requires Inv(h0, r0, limit, v, pend, NoItem, gone)
    requires CopyOf(v.h, v.next, g, m, o, dom) && Exact(v.h, dom, sz)
    ensures Inv(h0, r0, limit, WithCopies(v, g, m, o, sz), pend, NoItem, gone)
  {
    hide CopyOf, Exact, Sized, Registered, Pending, Live, Counted, Simulates, Acyclic, UniqueParent, Orphan, SourceWith;
    CopiesShape(v, g, m, o, dom, sz);
    CopiesSimulate(h0, v, g, m, o, dom);
    CopiesSourced(h0, r0, v, g, m, o, dom, sz);
    CopiesSized(v, g, m, o, dom, sz);
    CopiesRegistered(h0, v, g, m, o, dom, sz, pend);
    CopiesPending(v, g, m, o, dom, sz, pend);
    CopiesLive(v, g, m, o, dom, sz, pend, NoItem, gone);
    CopiesCounted(h0, limit, v, g, m, o, dom, sz, pend);
  }

  lemma {:induction false} CopiesSourced(h0: Graph, r0: Ref, v: View, g: Graph, m: Ref, o: map<Ref, Ref>,
          dom: set<Ref>, sz: map<Ref, nat>)
    requires Shape(v) && Sourced(h0, r0, v) && CopyOf(v.h, v.next, g, m, o, dom)
    ensures Sourced(h0, r0, WithCopies(v, g, m, o, sz))
  {
    hide Simulates, Acyclic, UniqueParent, Orphan, Closed, CopyNode;
    CopiesSimulate(h0, v, g, m, o, dom);
  }

  // ---------- sizes of a whole graph ----------

  ghost function SizeFrom(h: Graph, rank: map<Ref, nat>, r: Ref): nat
    requires Closed(h) && Acyclic(h, rank) && r in h
    decreases rank[r], 1, 0
  {
    1 + SizeFromAll(h, rank, Kids(h[r]), rank[r])
  }

  ghost function SizeFromAll(h: Graph, rank: map<Ref, nat>, ts: seq<Ref>, bound: nat): nat
    requires Closed(h) && Acyclic(h, rank)
    requires forall i :: 0 <= i < |ts| ==> ts[i] in h && rank[ts[i]] < bound
    decreases bound, 0, |ts|
  {
    if ts == [] then 0 else SizeFrom(h, rank, ts[0]) + SizeFromAll(h, rank, ts[1..], bound)
  }

  lemma {:induction false} SizeFromAllIs(h: Graph, rank: map<Ref, nat>, sz: map<Ref, nat>, ts: seq<Ref>, bound: nat)
    requires Closed(h) && Acyclic(h, rank)
    requires forall x :: x in h ==> x in sz && sz[x] == SizeFrom(h, rank, x)
    requires forall i :: 0 <= i < |ts| ==> ts[i] in h && rank[ts[i]] < bound
    ensures SizeAll(sz, ts) == SizeFromAll(h, rank, ts, bound)
  {
    if ts != [] {
      SizeFromAllIs(h, rank, sz, ts[1..], bound);
    }
  }

  /** A graph without cycles has sizes. */
  lemma {:induction false} SizesExist(h: Graph, rank: map<Ref, nat>) returns (sz: map<Ref, nat>)
    requires Closed(h) && Acyclic(h, rank)
    ensures Exact(h, h.Keys, sz) && sz.Keys == h.Keys
  {
    sz := map x | x in h :: SizeFrom(h, rank, x);
    forall r | r in h ensures SizeOf(sz, r) == 1 + SizeAll(sz, Kids(h[r])) {
      SizeFromAllIs(h, rank, sz, Kids(h[r]), rank[r]);
    }
  }
}
