/** The clones of the unrolling are fresh copies, and where a run starts. */
module UnrollClones {
  import opened TokenGraphs
  import opened UnrollWords
  import opened UnrollState
  import opened UnrollCopy
  import opened UnrollFresh
  import opened UnrollLink

  // ---------- a clone is a fresh copy ----------

  lemma {:induction false} CopyIsOrphan(h: Graph, n: Ref, g: Graph, m: Ref, o: map<Ref, Ref>, dom: set<Ref>, c: Ref)
    requires Closed(h) && CopyOf(h, n, g, m, o, dom) && c in o && NotBelow(g, o, c)
    ensures Orphan(g, c)
  {
    forall p | p in g ensures c !in Kids(g[p]) {
      if c in Kids(g[p]) {
        CopyEdge(h, n, g, m, o, dom, p, c);
      }
    }
  }

  lemma {:induction false} PendingIsOld(v: View, pend: seq<Item>, c: Ref)
    requires Pending(v, pend) && InItems(pend, c)
    ensures c in v.h
  {
    var i :| 0 <= i < |pend| && pend[i].Item? && pend[i].tok == c;
    assert ItemOk(v, pend[i]);
  }

  lemma {:induction false} OriginalIsOld(h0: Graph, v: View, pend: seq<Item>, x: Ref)
    requires Registered(h0, v, pend) && x in v.originals
    ensures x in v.h
  {
    assert KnownOk(v, x);
  }

  lemma {:induction false} CloneIsOld(h0: Graph, v: View, pend: seq<Item>, x: Ref)
    requires Registered(h0, v, pend) && x in v.clones
    ensures v.clones[x] in v.h
  {
    assert CloneOk(h0, v, x);
  }

  lemma {:induction false} SourceOfCopy(src: Source, o: map<Ref, Ref>, c: Ref)
    requires c in o && o[c] in src
    ensures c in SourceWith(src, o) && SourceWith(src, o)[c] == src[o[c]]
    ensures forall x :: x in src && x !in o ==> x in SourceWith(src, o) && SourceWith(src, o)[x] == src[x]
  {
  }

  /** The copy c of a token that comes from where x comes from may serve as a clone of x. */
  lemma {:induction false} CopyIsFresh(h0: Graph, r0: Ref, v: View, pend: seq<Item>, g: Graph, m: Ref,
          o: map<Ref, Ref>, dom: set<Ref>, sz: map<Ref, nat>, c: Ref, x: Ref)
    requires c in o && o[c] in v.h && !v.h[o[c]].Pointer?
    requires x in v.src && o[c] in v.src && v.src[o[c]] == v.src[x]
    requires CopyOf(v.h, v.next, g, m, o, dom) && NotBelow(g, o, c)
    requires Shape(v) && Sourced(h0, r0, v) && Registered(h0, v, pend) && Pending(v, pend)
    ensures FreshCopy(h0, WithCopies(v, g, m, o, sz), pend, c, x)
    ensures forall y :: y in v.clones ==> v.clones[y] != c
    ensures c !in v.h
  {
    hide Acyclic, UniqueParent, Closed, Simulates, Stands, Registered, Pending, InItems, CopiesMade, SingleParents,
        NotBelow, SourceWith;
    CopiesKeys(v, g, m, o, dom);
    CopyIsOrphan(v.h, v.next, g, m, o, dom, c);
    SourceOfCopy(v.src, o, c);
    if InItems(pend, c) { PendingIsOld(v, pend, c); }
    if c in v.originals { OriginalIsOld(h0, v, pend, c); }
    forall y | y in v.clones ensures v.clones[y] != c { CloneIsOld(h0, v, pend, y); }
  }

  // ---------- the start ----------

  lemma {:induction false} EmbedsItself(h0: Graph, src: Source, ts: seq<Ref>)
    requires forall k :: k in ts ==> Matches(h0, src, k, k)
    ensures Embeds(h0, src, ts, ts)
  {
    if ts != [] {
      EmbedsItself(h0, src, ts[1..]);
    }
  }

  lemma {:induction false} NodeItself(h: Graph, src: Source, n: Node)
    requires forall k :: k in Kids(n) ==> Matches(h, src, k, k)
    requires n.Pointer? && n.target.Some? ==> Matches(h, src, n.target.value, n.target.value)
    ensures SimNode(h, src, n, n)
  {
    match n
    case Concat(ts) => EmbedsItself(h, src, ts);
    case One(ts) =>
      forall i | 0 <= i < |ts| ensures Among(h, src, ts[i], ts) {
        assert Matches(h, src, ts[i], ts[i]);
      }
    case Optional(t) => assert Kids(n)[0] == t;
    case Scope(t) => assert Kids(n)[0] == t;
    case Repeat(t, _, _) => assert Kids(n)[0] == t;
    case _ =>
  }

  ghost function Itself(h: Graph): Source {
    map r | r in h :: r
  }

  lemma {:induction false} SimulatesItself(h: Graph)
    requires Closed(h) && TargetsIn(h, h.Keys)
    ensures Simulates(h, h, Itself(h))
  {
    forall k | k in h ensures Matches(h, Itself(h), k, k) {
      StandsItself(h, k);
    }
    forall r | r in h ensures SimNode(h, Itself(h), h[r], h[r]) {
      NodeItself(h, Itself(h), h[r]);
    }
  }

  /** A rank above all. */
  lemma {:induction false} TopExists(h: Graph, rank: map<Ref, nat>, s: set<Ref>) returns (top: nat)
    requires h.Keys <= rank.Keys && s <= h.Keys
    ensures forall r :: r in s ==> rank[r] < top
  {
    if s == {} {
      top := 0;
    } else {
      var x :| x in s;
      top := TopExists(h, rank, s - {x});
      if top <= rank[x] { top := rank[x] + 1; }
    }
  }

  /** A forest of tokens, whose cycles all pass through pointers. */
  ghost predicate Grammar(h: Graph, root: Ref, rank: map<Ref, nat>) {
    && Closed(h) && UniqueParent(h) && Acyclic(h, rank) && TargetsIn(h, h.Keys)
    && Alternatives(h) && root in h
  }

  /** The tokens that cannot be below the root. */
  ghost function NotBelowRoot(h: Graph, root: Ref, rank: map<Ref, nat>): set<Ref> {
    set x | x in h && x in rank && root in rank && rank[x] > rank[root]
  }

  ghost function Start(h: Graph, next: Ref, root: Ref, rank: map<Ref, nat>, top: nat, size: map<Ref, nat>): View {
    View(h, next, root, NotBelowRoot(h, root, rank),
        map[], map[], false, Itself(h), rank, top, size, {}, {}, map[root := map[]])
  }

  lemma {:induction false} StartHolds(h: Graph, next: Ref, root: Ref, rank: map<Ref, nat>, top: nat,
          size: map<Ref, nat>, limit: nat)
    requires Grammar(h, root, rank) && Exact(h, h.Keys, size)
    requires forall r :: r in h ==> r < next && rank[r] < top
    ensures Inv(h, root, limit, Start(h, next, root, rank, top, size), [Item(root, NoItem, map[])], NoItem, 0)
  {
    hide Shape, Sourced, Sized, Registered, Pending, Live, Counted, Start;
    StartRest(h, next, root, rank, top, size, limit);
    StartSized(h, next, root, rank, top, size);
    StartRegistered(h, next, root, rank, top, size);
    StartSourced(h, next, root, rank, top, size);
  }

  lemma {:induction false} StartSized(h: Graph, next: Ref, root: Ref, rank: map<Ref, nat>, top: nat,
          size: map<Ref, nat>)
    requires Grammar(h, root, rank) && Exact(h, h.Keys, size)
    ensures Sized(Start(h, next, root, rank, top, size))
  {
    StartAside(h, root, rank);
    var side := NotBelowRoot(h, root, rank);
    assert h.Keys - {} - side == h.Keys - side;
    hide UniqueParent, Acyclic, SizeAll, SizeOf, NotBelowRoot, Apart, Kids;
    SizedBeside(h, side, size);
  }

  lemma {:induction false} SizedBeside(h: Graph, side: set<Ref>, size: map<Ref, nat>)
    requires Closed(h) && Aside(h, side) && Exact(h, h.Keys, size)
    ensures ClosedIn(h, h.Keys - side) && Exact(h, h.Keys - side, size)
  {
    hide SizeAll, SizeOf;
  }

  lemma {:induction false} StartSourced(h: Graph, next: Ref, root: Ref, rank: map<Ref, nat>, top: nat,
          size: map<Ref, nat>)
    requires Grammar(h, root, rank)
    ensures Sourced(h, root, Start(h, next, root, rank, top, size))
  {
    hide Simulates, UniqueParent, Acyclic, Orphan, Stands;
    SimulatesItself(h);
    StandsItself(h, root);
  }

  lemma {:induction false} StartRegistered(h: Graph, next: Ref, root: Ref, rank: map<Ref, nat>, top: nat,
          size: map<Ref, nat>)
    requires Grammar(h, root, rank)
    ensures Registered(h, Start(h, next, root, rank, top, size), [Item(root, NoItem, map[])])
    ensures Live(Start(h, next, root, rank, top, size), [Item(root, NoItem, map[])], NoItem, 0)
  {
    hide UniqueParent, Acyclic, Orphan, Closed;
    var empty: map<Ref, Ref> := map[];
    assert h.Keys + empty.Keys == h.Keys;
    assert [Item(root, NoItem, map[])][0].tok == root;
  }

  lemma {:induction false} StartRest(h: Graph, next: Ref, root: Ref, rank: map<Ref, nat>, top: nat,
          size: map<Ref, nat>, limit: nat)
    requires Grammar(h, root, rank)
    requires forall r :: r in h ==> r < next && rank[r] < top
    ensures var v := Start(h, next, root, rank, top, size);
            Shape(v) && Counted(limit, v, [Item(root, NoItem, map[])]) && Pending(v, [Item(root, NoItem, map[])])
  {
    StartPending(h, next, root, rank, top, size);
    StartCounted(h, next, root, rank, top, size, limit);
    StartAside(h, root, rank);
    hide Counted, Pending, Closed, UniqueParent, Acyclic, Apart, Aside, NotBelowRoot;
  }

  lemma {:induction false} StartAside(h: Graph, root: Ref, rank: map<Ref, nat>)
    requires Grammar(h, root, rank)
    ensures var side := NotBelowRoot(h, root, rank);
            side <= h.Keys && root !in side && Apart(h, side, root) && Aside(h, side)
  {
    hide UniqueParent;
    forall p, k | p in h && p !in NotBelowRoot(h, root, rank) && k in Kids(h[p])
      ensures k !in NotBelowRoot(h, root, rank) && k != root
    {
      assert rank[k] < rank[p];
    }
  }

  lemma {:induction false} StartPending(h: Graph, next: Ref, root: Ref, rank: map<Ref, nat>, top: nat,
          size: map<Ref, nat>)
    requires Grammar(h, root, rank)
    ensures Pending(Start(h, next, root, rank, top, size), [Item(root, NoItem, map[])])
  {
    StartAside(h, root, rank);
    hide UniqueParent, Acyclic, Closed;
  }

  lemma {:induction false} StartCounted(h: Graph, next: Ref, root: Ref, rank: map<Ref, nat>, top: nat,
          size: map<Ref, nat>, limit: nat)
    ensures Counted(limit, Start(h, next, root, rank, top, size), [Item(root, NoItem, map[])])
  {
  }
}
