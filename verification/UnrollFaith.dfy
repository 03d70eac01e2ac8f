/**
 * If nothing leads into the tree of the root, the unrolling builds exactly what UnrollSpec unfolds: the
 * invariant that says so for the tokens visited so far, and that every step keeps it.
 */
module UnrollFaith {
  import opened Onces
  import opened TokenGraphs
  import opened UnrollWords
  import opened UnrollState
  import opened UnrollSteps
  import opened UnrollCopy
  import opened UnrollFresh
  import opened UnrollLink
  import opened UnrollCut
  import opened UnrollRemoval
  import opened UnrollMachine
  import opened UnrollSpec
  import opened UnrollMarks

  // ---------- the invariant ----------

  ghost function U(pl: Plan, x: Ref, counts: map<Ref, nat>): Option<Tree> {
    if Formed(pl.h0, pl.rank) && x in pl.h0 then Unfold(pl.h0, pl.rank, pl.limit, x, counts) else None
  }

  /** What is left of a visited token, and of one on the worklist. */
  ghost function Left(pl: Plan, v: View, k: Ref): Option<Tree> {
    if k in v.src && k in v.cnt then U(pl, v.src[k], v.cnt[k]) else None
  }

  /** k is what became of k0, below a token with these counts. */
  ghost predicate Image(pl: Plan, v: View, counts: map<Ref, nat>, k: Ref, k0: Ref) {
    && k in v.h && k in v.src && k in v.cnt && Left(pl, v, k) == U(pl, k0, counts)
    && if v.h[k].Pointer? then v.src[k] == k0 && v.cnt[k] == counts
       else v.src[k] == Shown(pl.h0, pl.limit, k0, counts)
  }

  /** Of k0 nothing is left, and it may be missing. */
  ghost predicate Missing(pl: Plan, list: bool, k0: Ref, counts: map<Ref, nat>) {
    U(pl, k0, counts) == None && (list ==> Spared(pl.h0, pl.limit, k0, counts))
  }

  /** ts is what became of ts0, in order. */
  ghost predicate Aligned(pl: Plan, v: View, list: bool, counts: map<Ref, nat>, ts: seq<Ref>, ts0: seq<Ref>) {
    if ts0 == [] then ts == []
    else
      || (ts != [] && Image(pl, v, counts, ts[0], ts0[0]) && Aligned(pl, v, list, counts, ts[1..], ts0[1..]))
      || (Missing(pl, list, ts0[0], counts) && Aligned(pl, v, list, counts, ts, ts0[1..]))
  }

  ghost predicate NodeOk(pl: Plan, v: View, x: Ref) {
    && x in v.h && x in v.src && x in v.cnt && v.src[x] in pl.h0
    && !v.h[x].Pointer? && SameKind(v.h[x], pl.h0[v.src[x]])
    && Aligned(pl, v, v.h[x].Concat?, v.cnt[x], Kids(v.h[x]), Kids(pl.h0[v.src[x]]))
    && (v.h[x].One? ==> v.h[x].tokens != [])
  }

  /** What was not visited is as it was. */
  ghost predicate Pristine(pl: Plan, v: View, x: Ref) {
    && x in v.h && x in v.src && v.src[x] in pl.h0
    && CopyNode(v.h[x], pl.h0[v.src[x]], v.src)
  }

  /** Only tokens of the original graph lead to those that are not the root's own. */
  ghost predicate OwnEdges(pl: Plan, h: Graph) {
    forall x, k :: x in h && (x in pl.h0 ==> x in pl.own) && k in Kids(h[x]) ==> (k in pl.h0 ==> k in pl.own)
  }

  /** The tokens of the original graph that are not the root's own are not touched. */
  ghost predicate OthersKept(pl: Plan, v: View, pend: seq<Item>) {
    && (forall x :: x in pl.h0 ==> x in v.h && x in v.src && v.src[x] == x)
    && (forall x :: x in pl.h0 && x !in pl.own ==> x !in v.done && !InItems(pend, x) && v.h[x] == pl.h0[x])
    && OwnEdges(pl, v.h)
    && (forall x :: x in v.originals && x in pl.h0 ==> v.originals[x] == x)
  }

  /** While a cut climbs, nothing is left of the token that goes. */
  ghost predicate GoneOk(pl: Plan, v: View, gone: Ref) {
    && gone in v.h && gone in v.src && gone in v.cnt && Left(pl, v, gone) == None
    && (v.h[gone].Pointer? ==> !Grows(pl.h0, pl.limit, v.src[gone], v.cnt[gone]))
  }

  ghost predicate RootFaithful(pl: Plan, v: View) {
    && v.root in v.src && v.root in v.cnt && Left(pl, v, v.root) == U(pl, pl.r0, map[])
    && (v.climbed ==> U(pl, pl.r0, map[]) == None)
  }

  ghost predicate Untouched(pl: Plan, v: View) {
    forall x :: x in v.h && x !in v.done ==> Pristine(pl, v, x)
  }

  ghost predicate NodesOk(pl: Plan, v: View) {
    forall x :: x in v.done && x !in v.dead ==> NodeOk(pl, v, x)
  }

  /** What was cut off, except for pointers that were replaced. */
  ghost predicate DeadOk(pl: Plan, v: View) {
    forall x :: x in v.dead ==> x in v.h && x in v.src && x in v.cnt && (v.h[x].Pointer? || Left(pl, v, x) == None)
  }

  ghost predicate Faithful(pl: Plan, v: View, pend: seq<Item>) {
    Untouched(pl, v) && NodesOk(pl, v) && DeadOk(pl, v) && OthersKept(pl, v, pend) && RootFaithful(pl, v)
  }

  // ---------- lists ----------

  /** Nothing that the images depend on has changed. */
  lemma {:induction false} AlignedStill(pl: Plan, v: View, w: View, list: bool, counts: map<Ref, nat>, ts: seq<Ref>,
          ts0: seq<Ref>)
    requires Aligned(pl, v, list, counts, ts, ts0)
    requires forall k, k0 :: k in ts && Image(pl, v, counts, k, k0) ==> Image(pl, w, counts, k, k0)
    ensures Aligned(pl, w, list, counts, ts, ts0)
    decreases |ts0|
  {
    hide Image, Missing;
    if ts0 != [] {
      if ts != [] && Image(pl, v, counts, ts[0], ts0[0]) && Aligned(pl, v, list, counts, ts[1..], ts0[1..]) {
        assert ts[0] in ts && forall k :: k in ts[1..] ==> k in ts;
        AlignedStill(pl, v, w, list, counts, ts[1..], ts0[1..]);
      } else {
        AlignedStill(pl, v, w, list, counts, ts, ts0[1..]);
      }
    }
  }

  lemma {:induction false} AlignedCopy(pl: Plan, v: View, list: bool, counts: map<Ref, nat>, ts: seq<Ref>,
          ts0: seq<Ref>)
    requires |ts| == |ts0| && forall i :: 0 <= i < |ts| ==> Image(pl, v, counts, ts[i], ts0[i])
    ensures Aligned(pl, v, list, counts, ts, ts0)
  {
    hide Image;
    if ts != [] {
      AlignedCopy(pl, v, list, counts, ts[1..], ts0[1..]);
    }
  }

  lemma {:induction false} AlignedReplaced(pl: Plan, v: View, w: View, list: bool, counts: map<Ref, nat>,
          ts: seq<Ref>, ts0: seq<Ref>, t: Ref, c: Ref)
    requires Aligned(pl, v, list, counts, ts, ts0)
    requires forall k, k0 :: k in ts && Image(pl, v, counts, k, k0) ==>
        Image(pl, w, counts, if k == t then c else k, k0)
    ensures Aligned(pl, w, list, counts, Replaced(ts, t, c), ts0)
    decreases |ts0|
  {
    hide Image, Missing;
    if ts0 != [] {
      if ts != [] && Image(pl, v, counts, ts[0], ts0[0]) && Aligned(pl, v, list, counts, ts[1..], ts0[1..]) {
        assert ts[0] in ts && forall k :: k in ts[1..] ==> k in ts;
        AlignedReplaced(pl, v, w, list, counts, ts[1..], ts0[1..], t, c);
        assert Replaced(ts, t, c)[1..] == Replaced(ts[1..], t, c);
      } else {
        AlignedReplaced(pl, v, w, list, counts, ts, ts0[1..], t, c);
      }
    }
  }

  /** Of the token k0 that k stands for nothing is left either, and a concatenation does without both or neither. */
  lemma {:induction false} GoneImage(pl: Plan, v: View, counts: map<Ref, nat>, k: Ref, k0: Ref)
    requires GoneOk(pl, v, k) && Image(pl, v, counts, k, k0) && Simulates(pl.h0, v.h, v.src)
    ensures U(pl, k0, counts) == None
    ensures k0 in pl.h0 ==> Spared(pl.h0, pl.limit, k0, counts) == OptionalType(v.h[k])
  {
    assert SimNode(pl.h0, v.src, v.h[k], pl.h0[v.src[k]]);
  }

  lemma {:induction false} AlignedRemoved(pl: Plan, v: View, list: bool, counts: map<Ref, nat>, ts: seq<Ref>,
          ts0: seq<Ref>, ta: Ref)
    requires Aligned(pl, v, list, counts, ts, ts0) && Simulates(pl.h0, v.h, v.src)
    requires forall k0 :: k0 in ts0 ==> k0 in pl.h0
    requires ta in ts ==> GoneOk(pl, v, ta) && (list ==> OptionalType(v.h[ta]))
    ensures Aligned(pl, v, list, counts, Removed(ts, ta), ts0)
    decreases |ts0|
  {
    hide Image, Missing, GoneOk, Simulates;
    if ts0 != [] {
      if ts != [] && Image(pl, v, counts, ts[0], ts0[0]) && Aligned(pl, v, list, counts, ts[1..], ts0[1..]) {
        assert ts[0] in ts && forall k :: k in ts[1..] ==> k in ts;
        assert forall k0 :: k0 in ts0[1..] ==> k0 in ts0;
        AlignedRemoved(pl, v, list, counts, ts[1..], ts0[1..], ta);
        if ts[0] == ta {
          assert ts0[0] in ts0;
          GoneImage(pl, v, counts, ta, ts0[0]);
          assert Missing(pl, list, ts0[0], counts) by { GoneMissing(pl, list, ts0[0], counts); }
        } else {
          assert ([ts[0]] + Removed(ts[1..], ta))[1..] == Removed(ts[1..], ta);
        }
      } else {
        assert forall k0 :: k0 in ts0[1..] ==> k0 in ts0;
        AlignedRemoved(pl, v, list, counts, ts, ts0[1..], ta);
      }
    }
  }

  lemma {:induction false} GoneMissing(pl: Plan, list: bool, k0: Ref, counts: map<Ref, nat>)
    requires U(pl, k0, counts) == None && (list ==> Spared(pl.h0, pl.limit, k0, counts))
    ensures Missing(pl, list, k0, counts)
  {
  }

  /** A part that a concatenation does not do without takes it along. */
  lemma {:induction false} AlignedLost(pl: Plan, v: View, counts: map<Ref, nat>, ts: seq<Ref>, ts0: seq<Ref>, ta: Ref,
          bound: nat)
    requires Formed(pl.h0, pl.rank) && forall k :: k in ts0 ==> k in pl.h0 && pl.rank[k] < bound
    requires Aligned(pl, v, true, counts, ts, ts0) && Simulates(pl.h0, v.h, v.src)
    requires ta in ts && GoneOk(pl, v, ta) && !OptionalType(v.h[ta])
    ensures UnfoldParts(pl.h0, pl.rank, pl.limit, ts0, counts, bound) == None
    decreases |ts0|
  {
    if ts0 != [] {
      hide Image, Missing, GoneOk, Simulates, Spared;
      assert ts0[0] in ts0 && forall k0 :: k0 in ts0[1..] ==> k0 in ts0;
      if ts != [] && Image(pl, v, counts, ts[0], ts0[0]) && Aligned(pl, v, true, counts, ts[1..], ts0[1..]) {
        if ts[0] == ta {
          GoneImage(pl, v, counts, ta, ts0[0]);
        } else {
          AlignedLost(pl, v, counts, ts[1..], ts0[1..], ta, bound);
        }
      } else {
        AlignedLost(pl, v, counts, ts, ts0[1..], ta, bound);
      }
    }
  }

  /** If no alternative is there any more, none was left. */
  lemma {:induction false} AlignedEmpty(pl: Plan, v: View, counts: map<Ref, nat>, ts0: seq<Ref>, bound: nat)
    requires Formed(pl.h0, pl.rank) && forall k :: k in ts0 ==> k in pl.h0 && pl.rank[k] < bound
    requires Aligned(pl, v, false, counts, [], ts0)
    ensures UnfoldAlternatives(pl.h0, pl.rank, pl.limit, ts0, counts, bound) == []
    decreases |ts0|
  {
    if ts0 != [] {
      assert ts0[0] in ts0 && forall k0 :: k0 in ts0[1..] ==> k0 in ts0;
      AlignedEmpty(pl, v, counts, ts0[1..], bound);
    }
  }

  // ---------- visiting ----------

  /** The token of the entry was not visited, and is the only parent of its children. */
  ghost predicate Visits(pl: Plan, v: View, item: Item) {
    && item.Item? && item.tok in v.h && item.tok !in v.done && item.tok in v.cnt && v.cnt[item.tok] == item.counts
    && !v.h[item.tok].Pointer? && v.dead <= v.done
    && (forall k :: k in Kids(v.h[item.tok]) ==> k in v.h && k !in v.done && k != item.tok)
    && (forall y :: y in v.h && y != item.tok ==> forall k :: k in Kids(v.h[y]) ==> k !in Kids(v.h[item.tok]))
    && v.root !in Kids(v.h[item.tok]) && Simulates(pl.h0, v.h, v.src) && Alternatives(pl.h0)
  }

  lemma {:induction false} SimulatesKind(h0: Graph, h: Graph, src: Source, x: Ref)
    requires Simulates(h0, h, src) && x in h
    ensures x in src && src[x] in h0 && h0[src[x]].Pointer? == h[x].Pointer?
        && OptionalType(h0[src[x]]) == OptionalType(h[x])
  {
    assert SimNode(h0, src, h[x], h0[src[x]]);
  }

  lemma {:induction false} VisitedImage(pl: Plan, v: View, item: Item, i: nat)
    requires Visits(pl, v, item) && Pristine(pl, v, item.tok) && i < |Kids(v.h[item.tok])|
    ensures i < |Kids(pl.h0[v.src[item.tok]])|
    ensures Image(pl, Visited(v, item), item.counts, Kids(v.h[item.tok])[i], Kids(pl.h0[v.src[item.tok]])[i])
  {
    var k, k0 := Kids(v.h[item.tok])[i], Kids(pl.h0[v.src[item.tok]])[i];
    assert k in Kids(v.h[item.tok]) && k in v.src && v.src[k] == k0;
    hide U;
    SimulatesKind(pl.h0, v.h, v.src, k);
  }

  lemma {:induction false} VisitedNode(pl: Plan, v: View, item: Item)
    requires Visits(pl, v, item) && Pristine(pl, v, item.tok)
    ensures NodeOk(pl, Visited(v, item), item.tok)
  {
    var x, w := item.tok, Visited(v, item);
    var ts, ts0 := Kids(v.h[x]), Kids(pl.h0[v.src[x]]);
    forall i | 0 <= i < |ts| ensures i < |ts0| && Image(pl, w, item.counts, ts[i], ts0[i]) {
      VisitedImage(pl, v, item, i);
    }
    hide Image, Simulates;
    AlignedCopy(pl, w, v.h[x].Concat?, item.counts, ts, ts0);
    assert w.cnt[x] == item.counts;
  }

  lemma {:induction false} VisitedOther(pl: Plan, v: View, item: Item, y: Ref)
    requires Visits(pl, v, item) && NodeOk(pl, v, y) && y in v.done
    ensures NodeOk(pl, Visited(v, item), y)
  {
    var w, ts := Visited(v, item), Kids(v.h[item.tok]);
    assert y !in ts && w.cnt[y] == v.cnt[y];
    forall k, k0 | k in Kids(v.h[y]) && Image(pl, v, v.cnt[y], k, k0) ensures Image(pl, w, v.cnt[y], k, k0) {
      hide U, Visits;
      assert k !in ts;
    }
    hide Image, Visits;
    AlignedStill(pl, v, w, v.h[y].Concat?, v.cnt[y], Kids(v.h[y]), Kids(pl.h0[v.src[y]]));
  }

  lemma {:induction false} VisitOthersKept(pl: Plan, v: View, item: Item, rest: seq<Item>)
    requires OthersKept(pl, v, [item] + rest) && Visits(pl, v, item)
    ensures OthersKept(pl, Visited(v, item), KidItems(Kids(v.h[item.tok]), item) + rest)
  {
    var ts, more := Kids(v.h[item.tok]), KidItems(Kids(v.h[item.tok]), item) + rest;
    hide InItems, KidItems, Simulates;
    InItemsVisited(ts, item, rest, item.tok);
    OwnKids(pl, v, item.tok);
    forall k | k in pl.h0 && k !in pl.own ensures !InItems(more, k) && k != item.tok {
      InItemsVisited(ts, item, rest, k);
    }
    hide OwnEdges, Visits;
    OthersVisited(pl, v, Visited(v, item), [item] + rest, more, item.tok);
  }

  lemma {:induction false} OthersVisited(pl: Plan, v: View, w: View, pend: seq<Item>, more: seq<Item>, x: Ref)
    requires OthersKept(pl, v, pend) && w.h == v.h && w.src == v.src && w.originals == v.originals
        && w.done == v.done + {x}
    requires forall k :: k in pl.h0 && k !in pl.own ==> !InItems(more, k) && k != x
    ensures OthersKept(pl, w, more)
  {
    hide OwnEdges, InItems;
  }

  lemma {:induction false} OwnKids(pl: Plan, v: View, x: Ref)
    requires OwnEdges(pl, v.h) && x in v.h && (x in pl.h0 ==> x in pl.own)
    ensures forall k :: k in Kids(v.h[x]) ==> (k in pl.h0 ==> k in pl.own)
  {
  }

  lemma {:induction false} VisitFaithful(pl: Plan, v: View, item: Item, rest: seq<Item>)
    requires Faithful(pl, v, [item] + rest) && Visits(pl, v, item)
    ensures Faithful(pl, Visited(v, item), KidItems(Kids(v.h[item.tok]), item) + rest)
  {
    VisitOthersKept(pl, v, item, rest);
    VisitNodes(pl, v, item);
    VisitRest(pl, v, item);
    hide NodesOk, Untouched, DeadOk, RootFaithful, OthersKept, KidItems, Visits;
  }

  lemma {:induction false} VisitNodes(pl: Plan, v: View, item: Item)
    requires Untouched(pl, v) && NodesOk(pl, v) && Visits(pl, v, item)
    ensures NodesOk(pl, Visited(v, item)) && Untouched(pl, Visited(v, item))
  {
    var w := Visited(v, item);
    hide NodeOk, Pristine, Simulates;
    forall x | x in w.done && x !in w.dead ensures NodeOk(pl, w, x) {
      if x == item.tok { VisitedNode(pl, v, item); } else { VisitedOther(pl, v, item, x); }
    }
    forall x | x in w.h && x !in w.done ensures Pristine(pl, w, x) {
      PristineStill(pl, v, w, x);
    }
  }

  lemma {:induction false} VisitRest(pl: Plan, v: View, item: Item)
    requires DeadOk(pl, v) && RootFaithful(pl, v) && Visits(pl, v, item)
    ensures DeadOk(pl, Visited(v, item)) && RootFaithful(pl, Visited(v, item))
  {
    hide Simulates, U;
  }

  lemma {:induction false} PristineStill(pl: Plan, v: View, w: View, x: Ref)
    requires Pristine(pl, v, x) && x in w.h && w.h[x] == v.h[x]
        && forall y :: y in v.src ==> y in w.src && w.src[y] == v.src[y]
    ensures Pristine(pl, w, x)
  {
  }

  // ---------- cloning ----------

  lemma {:induction false} PristineCopy(pl: Plan, v: View, g: Graph, m: Ref, o: map<Ref, Ref>, dom: set<Ref>,
          sz: map<Ref, nat>, x: Ref)
    requires CopyOf(v.h, v.next, g, m, o, dom) && x in o && Pristine(pl, v, o[x])
    ensures Pristine(pl, WithCopies(v, g, m, o, sz), x)
  {
    CopyArity(v.h, v.next, g, m, o, dom, x);
    forall i | 0 <= i < |Kids(g[x])| ensures Kids(g[x])[i] in o && o[Kids(g[x])[i]] == Kids(v.h[o[x]])[i] {
      CopyKid(v.h, v.next, g, m, o, dom, x, i);
    }
    CopiesKeys(v, g, m, o, dom);
    hide CopyOf;
  }

  lemma {:induction false} CopiesNode(pl: Plan, v: View, g: Graph, m: Ref, o: map<Ref, Ref>, dom: set<Ref>,
          sz: map<Ref, nat>, y: Ref)
    requires CopyOf(v.h, v.next, g, m, o, dom) && NodeOk(pl, v, y) && v.src.Keys == v.h.Keys
    ensures NodeOk(pl, WithCopies(v, g, m, o, sz), y)
  {
    var w := WithCopies(v, g, m, o, sz);
    CopiesKeys(v, g, m, o, dom);
    hide CopyOf;
    forall k, k0 | k in Kids(v.h[y]) && Image(pl, v, v.cnt[y], k, k0) ensures Image(pl, w, v.cnt[y], k, k0) {
      hide U;
    }
    hide Image;
    AlignedStill(pl, v, w, v.h[y].Concat?, v.cnt[y], Kids(v.h[y]), Kids(pl.h0[v.src[y]]));
  }

  lemma {:induction false} CopiesOthersKept(pl: Plan, v: View, g: Graph, m: Ref, o: map<Ref, Ref>, dom: set<Ref>,
          sz: map<Ref, nat>, pend: seq<Item>)
    requires CopyOf(v.h, v.next, g, m, o, dom) && OthersKept(pl, v, pend) && v.src.Keys == v.h.Keys && Closed(v.h)
    ensures OthersKept(pl, WithCopies(v, g, m, o, sz), pend)
  {
    hide CopyOf, InItems, OwnEdges, Closed;
    CopiesOwnEdges(pl, v, g, m, o, dom);
    CopiesKeys(v, g, m, o, dom);
    forall x | x in pl.h0
      ensures x in g && g[x] == v.h[x] && x in SourceWith(v.src, o) && SourceWith(v.src, o)[x] == v.src[x]
    {
      assert x in v.h && x !in o;
    }
    OthersStay(pl, v, WithCopies(v, g, m, o, sz), pend);
  }

  lemma {:induction false} OthersStay(pl: Plan, v: View, w: View, pend: seq<Item>)
    requires OthersKept(pl, v, pend) && OwnEdges(pl, w.h) && w.done == v.done && w.originals == v.originals
    requires forall x :: x in pl.h0 ==>
        x in v.h && x in v.src && x in w.h && w.h[x] == v.h[x] && x in w.src && w.src[x] == v.src[x]
    ensures OthersKept(pl, w, pend)
  {
    hide OwnEdges, InItems;
  }

  lemma {:induction false} CopiesOwnEdges(pl: Plan, v: View, g: Graph, m: Ref, o: map<Ref, Ref>, dom: set<Ref>)
    requires CopyOf(v.h, v.next, g, m, o, dom) && OwnEdges(pl, v.h) && pl.h0.Keys <= v.h.Keys && Closed(v.h)
    ensures OwnEdges(pl, g)
  {
    CopiesKeys(v, g, m, o, dom);
    hide CopyOf;
    forall x, k | x in g && (x in pl.h0 ==> x in pl.own) && k in Kids(g[x]) ensures k in pl.h0 ==> k in pl.own {
      CopyEdge(v.h, v.next, g, m, o, dom, x, k);
    }
  }

  /** Copies of tokens that were not visited. */
  lemma {:induction false} CopiesFaithful(pl: Plan, v: View, g: Graph, m: Ref, o: map<Ref, Ref>, dom: set<Ref>,
          sz: map<Ref, nat>, pend: seq<Item>)
    requires Faithful(pl, v, pend) && CopyOf(v.h, v.next, g, m, o, dom) && v.src.Keys == v.h.Keys && Closed(v.h)
    requires dom !! v.done && v.dead <= v.done <= v.h.Keys && v.root in v.h
    ensures Faithful(pl, WithCopies(v, g, m, o, sz), pend)
  {
    CopiesOthersKept(pl, v, g, m, o, dom, sz, pend);
    CopiesNodes(pl, v, g, m, o, dom, sz);
    CopiesDead(pl, v, g, m, o, dom, sz);
    hide CopyOf, OthersKept, Untouched, NodesOk, DeadOk, RootFaithful;
  }

  lemma {:induction false} CopiesNodes(pl: Plan, v: View, g: Graph, m: Ref, o: map<Ref, Ref>, dom: set<Ref>,
          sz: map<Ref, nat>)
    requires Untouched(pl, v) && NodesOk(pl, v) && CopyOf(v.h, v.next, g, m, o, dom) && v.src.Keys == v.h.Keys
    requires dom !! v.done
    ensures Untouched(pl, WithCopies(v, g, m, o, sz)) && NodesOk(pl, WithCopies(v, g, m, o, sz))
  {
    var w := WithCopies(v, g, m, o, sz);
    CopiesKeys(v, g, m, o, dom);
    hide CopyOf, NodeOk, Pristine;
    forall x | x in w.done && x !in w.dead ensures NodeOk(pl, w, x) {
      CopiesNode(pl, v, g, m, o, dom, sz, x);
    }
    forall x | x in g && x !in w.done ensures Pristine(pl, w, x) {
      if x in o {
        CopyArity(v.h, v.next, g, m, o, dom, x);
        PristineCopy(pl, v, g, m, o, dom, sz, x);
      } else {
        PristineStill(pl, v, w, x);
      }
    }
  }

  lemma {:induction false} CopiesDead(pl: Plan, v: View, g: Graph, m: Ref, o: map<Ref, Ref>, dom: set<Ref>,
          sz: map<Ref, nat>)
    requires DeadOk(pl, v) && RootFaithful(pl, v) && CopyOf(v.h, v.next, g, m, o, dom) && v.src.Keys == v.h.Keys
    ensures DeadOk(pl, WithCopies(v, g, m, o, sz)) && RootFaithful(pl, WithCopies(v, g, m, o, sz))
  {
    CopiesKeys(v, g, m, o, dom);
    hide CopyOf, U;
    forall x | x in v.src ensures x in SourceWith(v.src, o) && SourceWith(v.src, o)[x] == v.src[x] { }
    SameLeft(pl, v, WithCopies(v, g, m, o, sz));
  }

  /** What is left of the tokens that were there is the same. */
  lemma {:induction false} SameLeft(pl: Plan, v: View, w: View)
    requires DeadOk(pl, v) && RootFaithful(pl, v) && w.cnt == v.cnt && w.dead == v.dead && w.root == v.root
        && w.climbed == v.climbed
    requires forall x :: x in v.src ==> x in w.src && w.src[x] == v.src[x]
    requires forall x :: x in v.h ==> x in w.h && w.h[x] == v.h[x]
    ensures DeadOk(pl, w) && RootFaithful(pl, w)
  {
    hide U;
  }

  lemma {:induction false} RegisterFaithful(pl: Plan, v: View, pend: seq<Item>, x: Ref, c: Ref)
    requires Faithful(pl, v, pend)
    ensures Faithful(pl, v.(originals := v.originals[x := x], clones := v.clones[x := c]), pend)
  {
    var w := v.(originals := v.originals[x := x], clones := v.clones[x := c]);
    hide Aligned, CopyNode, U, InItems;
    forall y | y in v.done && y !in v.dead ensures NodeOk(pl, w, y) {
      AlignedStill(pl, v, w, v.h[y].Concat?, v.cnt[y], Kids(v.h[y]), Kids(pl.h0[v.src[y]]));
    }
  }

  // ---------- a clone in the place of a pointer ----------

  /** The clone c is what the entry's pointer unfolds into. */
  ghost predicate Grown(pl: Plan, v: View, item: Item, c: Ref, original: Ref)
    requires item.Item?
  {
    && item.tok in v.src && item.tok in v.cnt && v.cnt[item.tok] == item.counts
    && Formed(pl.h0, pl.rank) && original in pl.h0 && v.src[item.tok] in pl.h0
    && Grows(pl.h0, pl.limit, v.src[item.tok], item.counts) && Aim(pl.h0, v.src[item.tok], {}).child == original
    && c in v.h && c in v.src && v.src[c] == original && !v.h[c].Pointer? && c !in v.done
  }

  lemma {:induction false} GrownLeft(pl: Plan, v: View, item: Item, c: Ref, original: Ref)
    requires item.Item? && Grown(pl, v, item, c, original)
    ensures Left(pl, Linked(v, item, c, original), c) == Left(pl, v, item.tok)
  {
    var w := Linked(v, item, c, original);
    assert w.cnt[c] == Bump(item.counts, original);
    hide LinkedGraph;
  }

  lemma {:induction false} LinkedImage(pl: Plan, v: View, item: Item, c: Ref, original: Ref, counts: map<Ref, nat>,
          k: Ref, k0: Ref)
    requires Image(pl, v, counts, k, k0) && ItemOk(v, item) && v.h[item.tok].Pointer? && k != c
    requires Strange(pl, v, c) && Grown(pl, v, item, c, original)
    ensures Image(pl, Linked(v, item, c, original), counts, if k == item.tok then c else k, k0)
  {
    GrownLeft(pl, v, item, c, original);
    LinkKinds(v, item, c);
    hide LinkedGraph, ItemOk, Orphan, U;
  }

  lemma {:induction false} LinkedParent(pl: Plan, v: View, item: Item, c: Ref, original: Ref)
    requires ItemOk(v, item) && v.h[item.tok].Pointer? && Strange(pl, v, c) && Grown(pl, v, item, c, original)
    requires item.parent.Item? && NodeOk(pl, v, item.parent.tok)
    ensures NodeOk(pl, Linked(v, item, c, original), item.parent.tok)
  {
    var w, p := Linked(v, item, c, original), item.parent.tok;
    LinkKinds(v, item, c);
    forall k, k0 | k in Kids(v.h[p]) && Image(pl, v, v.cnt[p], k, k0)
      ensures Image(pl, w, v.cnt[p], if k == item.tok then c else k, k0)
    {
      hide Image, ItemOk, LinkedGraph, NodeOk;
      OrphanNotBelow(v.h, c, p);
      LinkedImage(pl, v, item, c, original, v.cnt[p], k, k0);
    }
    assert p != c;
    hide Image, ItemOk, LinkedGraph, Orphan;
    AlignedReplaced(pl, v, w, v.h[p].Concat?, v.cnt[p], Kids(v.h[p]), Kids(pl.h0[v.src[p]]), item.tok, c);
  }

  lemma {:induction false} LinkedOther(pl: Plan, v: View, item: Item, c: Ref, original: Ref, y: Ref)
    requires ItemOk(v, item) && v.h[item.tok].Pointer? && Strange(pl, v, c) && Grown(pl, v, item, c, original)
    requires NodeOk(pl, v, y) && y != item.tok && !(item.parent.Item? && y == item.parent.tok) && y !in v.side && y != c
    ensures NodeOk(pl, Linked(v, item, c, original), y)
  {
    var w := Linked(v, item, c, original);
    LinkKinds(v, item, c);
    assert item.tok !in Kids(v.h[y]);
    forall k, k0 | k in Kids(v.h[y]) && Image(pl, v, v.cnt[y], k, k0) ensures Image(pl, w, v.cnt[y], k, k0) {
      hide Image, ItemOk, LinkedGraph, NodeOk;
      OrphanNotBelow(v.h, c, y);
      LinkedImage(pl, v, item, c, original, v.cnt[y], k, k0);
    }
    hide Image, ItemOk, LinkedGraph, Orphan;
    AlignedStill(pl, v, w, v.h[y].Concat?, v.cnt[y], Kids(v.h[y]), Kids(pl.h0[v.src[y]]));
  }

  lemma {:induction false} LinkNodes(pl: Plan, v: View, item: Item, c: Ref, original: Ref)
    requires ItemOk(v, item) && v.h[item.tok].Pointer? && Strange(pl, v, c) && Grown(pl, v, item, c, original)
    requires Untouched(pl, v) && NodesOk(pl, v) && v.side !! v.done
    ensures Untouched(pl, Linked(v, item, c, original)) && NodesOk(pl, Linked(v, item, c, original))
  {
    var w := Linked(v, item, c, original);
    LinkKeys(v, item, c);
    LinkKinds(v, item, c);
    assert item.parent.Item? ==> item.parent.tok in v.done by { assert ChainOk(v, item.parent); }
    forall x | x in w.done && x !in w.dead ensures NodeOk(pl, w, x) {
      hide ItemOk, LinkedGraph, NodeOk, Pristine, Strange, Orphan;
      if item.parent.Item? && x == item.parent.tok {
        LinkedParent(pl, v, item, c, original);
      } else {
        LinkedOther(pl, v, item, c, original, x);
      }
    }
    forall x | x in w.h && x !in w.done ensures Pristine(pl, w, x) {
      hide ItemOk, LinkedGraph, NodeOk, Pristine, Strange, Grown, Orphan;
      PristineStill(pl, v, w, x);
    }
  }

  lemma {:induction false} LinkOwnEdges(pl: Plan, v: View, item: Item, c: Ref)
    requires ItemOk(v, item) && v.h[item.tok].Pointer? && OwnEdges(pl, v.h) && c !in pl.h0
    ensures OwnEdges(pl, LinkedGraph(v.h, item, c))
  {
    LinkKeys(v, item, c);
    forall x, k | x in v.h && (x in pl.h0 ==> x in pl.own) && k in Kids(LinkedGraph(v.h, item, c)[x])
      ensures k in pl.h0 ==> k in pl.own
    {
      hide ItemOk, LinkedGraph;
      LinkEdge(v, item, c, x, k);
    }
  }

  lemma {:induction false} LinkOthersKept(pl: Plan, v: View, item: Item, rest: seq<Item>, c: Ref, original: Ref)
    requires OthersKept(pl, v, [item] + rest) && ItemOk(v, item) && v.h[item.tok].Pointer? && Strange(pl, v, c)
    ensures OthersKept(pl, Linked(v, item, c, original), [LinkedItem(item, c, original)] + rest)
  {
    var more := [LinkedItem(item, c, original)] + rest;
    LinkOwnEdges(pl, v, item, c);
    LinkKeys(v, item, c);
    LinkKinds(v, item, c);
    assert item.parent.Item? ==> item.parent.tok in v.done by { assert ChainOk(v, item.parent); }
    hide ItemOk, LinkedGraph, OwnEdges, Orphan, InItems;
    InItemsHead(item, rest, item.tok);
    forall k | k in pl.h0 && k !in pl.own
      ensures !InItems(more, k) && k != item.tok && LinkedGraph(v.h, item, c)[k] == v.h[k]
    {
      InItemsHead(item, rest, k);
      InItemsHead(LinkedItem(item, c, original), rest, k);
    }
    hide Strange;
    OthersLinked(pl, v, Linked(v, item, c, original), [item] + rest, more, item.tok, c, original);
  }

  lemma {:induction false} OthersLinked(pl: Plan, v: View, w: View, pend: seq<Item>, more: seq<Item>, t: Ref, c: Ref,
          original: Ref)
    requires OthersKept(pl, v, pend) && OwnEdges(pl, w.h) && w.h.Keys == v.h.Keys && w.src == v.src && c !in pl.h0
    requires w.done == v.done + {t} && w.originals == v.originals[c := original]
    requires forall k :: k in pl.h0 && k !in pl.own && k in v.h ==> !InItems(more, k) && k != t && w.h[k] == v.h[k]
    ensures OthersKept(pl, w, more)
  {
    hide OwnEdges, InItems;
  }

  lemma {:induction false} LinkRest(pl: Plan, v: View, item: Item, c: Ref, original: Ref)
    requires ItemOk(v, item) && v.h[item.tok].Pointer? && Strange(pl, v, c) && Grown(pl, v, item, c, original)
    requires DeadOk(pl, v) && RootFaithful(pl, v) && (item.parent.NoItem? ==> item.tok == v.root)
    ensures DeadOk(pl, Linked(v, item, c, original)) && RootFaithful(pl, Linked(v, item, c, original))
  {
    LinkDead(pl, v, item, c, original);
    GrownLeft(pl, v, item, c, original);
    hide ItemOk, LinkedGraph, U, Orphan, DeadOk;
  }

  lemma {:induction false} LinkDead(pl: Plan, v: View, item: Item, c: Ref, original: Ref)
    requires ItemOk(v, item) && v.h[item.tok].Pointer? && Strange(pl, v, c) && Grown(pl, v, item, c, original)
    requires DeadOk(pl, v)
    ensures DeadOk(pl, Linked(v, item, c, original))
  {
    var w := Linked(v, item, c, original);
    LinkKinds(v, item, c);
    LinkPointers(v, item, c);
    hide ItemOk, LinkedGraph, U, Orphan, Grows;
  }

  lemma {:induction false} LinkPointers(v: View, item: Item, c: Ref)
    requires ItemOk(v, item) && v.h[item.tok].Pointer?
    ensures forall x :: x in v.h ==>
        x in LinkedGraph(v.h, item, c) && LinkedGraph(v.h, item, c)[x].Pointer? == v.h[x].Pointer?
  {
    LinkKinds(v, item, c);
    hide LinkedGraph, ItemOk;
  }

  lemma {:induction false} LinkFaithful(pl: Plan, v: View, item: Item, rest: seq<Item>, c: Ref, original: Ref)
    requires Faithful(pl, v, [item] + rest) && ItemOk(v, item) && v.h[item.tok].Pointer? && v.side !! v.done
    requires Strange(pl, v, c) && Grown(pl, v, item, c, original)
    ensures Faithful(pl, Linked(v, item, c, original), [LinkedItem(item, c, original)] + rest)
  {
    LinkNodes(pl, v, item, c, original);
    LinkOthersKept(pl, v, item, rest, c, original);
    LinkRest(pl, v, item, c, original);
    hide ItemOk, LinkedGraph, Untouched, NodesOk, DeadOk, OthersKept, RootFaithful, Strange, Grown, Linked;
  }

  // ---------- cutting ----------

  /** A token that was visited, or is, loses some of its children. */
  lemma {:induction false} ShrunkNode(pl: Plan, v: View, w: View, p: Ref, n: Node, y: Ref)
    requires NodeOk(pl, v, y) && p in v.h && w.h == v.h[p := n] && w.src == v.src && w.cnt == v.cnt && y != p
    requires n.Pointer? == v.h[p].Pointer?
    ensures NodeOk(pl, w, y)
  {
    forall k, k0 | k in Kids(v.h[y]) && Image(pl, v, v.cnt[y], k, k0) ensures Image(pl, w, v.cnt[y], k, k0) {
      hide U;
    }
    hide Image;
    AlignedStill(pl, v, w, v.h[y].Concat?, v.cnt[y], Kids(v.h[y]), Kids(pl.h0[v.src[y]]));
  }

  lemma {:induction false} ShrunkNodes(pl: Plan, v: View, w: View, p: Ref, n: Node)
    requires Untouched(pl, v) && NodesOk(pl, v) && p in v.h && w.h == v.h[p := n] && w.src == v.src && w.cnt == v.cnt
    requires n.Pointer? == v.h[p].Pointer? && w.done == v.done + {p}
    requires (w.dead == v.dead && (p in v.dead || NodeOk(pl, w, p))) || w.dead == v.dead + {p}
    ensures Untouched(pl, w) && NodesOk(pl, w)
  {
    hide NodeOk, Pristine;
    forall x | x in w.done && x !in w.dead ensures NodeOk(pl, w, x) {
      if x != p { ShrunkNode(pl, v, w, p, n, x); }
    }
    forall x | x in w.h && x !in w.done ensures Pristine(pl, w, x) {
      PristineStill(pl, v, w, x);
    }
  }

  lemma {:induction false} ShrunkOthersKept(pl: Plan, v: View, w: View, p: Ref, n: Node, pend: seq<Item>,
          rest: seq<Item>)
    requires OthersKept(pl, v, pend) && p in v.h && w.h == v.h[p := n] && w.src == v.src && w.originals == v.originals
    requires forall k :: k in Kids(n) ==> k in Kids(v.h[p])
    requires w.done == v.done + {p} && (p in v.done || InItems(pend, p))
        && forall k :: InItems(rest, k) ==> InItems(pend, k)
    ensures OthersKept(pl, w, rest)
  {
    hide InItems;
  }

  lemma {:induction false} ShrunkDead(pl: Plan, v: View, w: View, p: Ref, n: Node)
    requires DeadOk(pl, v) && p in v.h && w.h == v.h[p := n] && w.src == v.src && w.cnt == v.cnt
    requires n.Pointer? == v.h[p].Pointer?
    requires w.dead == v.dead || (w.dead == v.dead + {p} && p in v.src && p in v.cnt && Left(pl, v, p) == None)
    ensures DeadOk(pl, w)
  {
    hide U;
  }

  lemma {:induction false} UngrownLeft(pl: Plan, v: View, t: Ref)
    requires t in v.h && v.h[t].Pointer? && t in v.src && t in v.cnt && Simulates(pl.h0, v.h, v.src)
    requires !Grows(pl.h0, pl.limit, v.src[t], v.cnt[t])
    ensures Left(pl, v, t) == None
  {
    SimulatesKind(pl.h0, v.h, v.src, t);
  }

  lemma {:induction false} CutFaithful(pl: Plan, v: View, item: Item, rest: seq<Item>)
    requires Faithful(pl, v, [item] + rest) && item.Item? && item.tok in v.h && v.h[item.tok].Pointer?
    requires GoneOk(pl, v, item.tok) && (item.parent.NoItem? ==> item.tok == v.root)
    ensures Faithful(pl, Retired(v, item).(h := v.h[item.tok := Pointer(None)]), rest)
    ensures GoneOk(pl, Retired(v, item).(h := v.h[item.tok := Pointer(None)]), item.tok)
  {
    var w := Retired(v, item).(h := v.h[item.tok := Pointer(None)]);
    ShrunkNodes(pl, v, w, item.tok, Pointer(None));
    ShrunkDead(pl, v, w, item.tok, Pointer(None));
    forall k ensures InItems([item] + rest, k) <==> k == item.tok || InItems(rest, k) { InItemsHead(item, rest, k); }
    ShrunkOthersKept(pl, v, w, item.tok, Pointer(None), [item] + rest, rest);
    hide Untouched, NodesOk, DeadOk, OthersKept, U, InItems;
  }

  lemma {:induction false} RemovalKind(h: Graph, p: Ref, ta: Ref)
    requires p in h && NoRepeats(Kids(h[p]))
    ensures var (n, keep) := LogicalRemoval(h, h[p], ta);
            && n.Pointer? == h[p].Pointer? && n.Concat? == h[p].Concat?
            && (forall m :: SameKind(h[p], m) ==> SameKind(n, m))
            && (keep ==> Kids(n) == Removed(Kids(h[p]), ta)) && (keep && n.One? ==> n.tokens != [])
            && (keep && h[p].Concat? && ta in Kids(h[p]) ==> ta in h && OptionalType(h[ta]))
            && (forall k :: k in Kids(n) ==> k in Kids(h[p]))
  {
    LosesOnly(h, p, ta);
    match h[p]
    case Concat(ts) => DroppedOnce(ts, ta); if ta !in ts { RemovedNothing(ts, ta); }
    case Optional(t) => if t != ta { RemovedNothing([t], ta); }
    case Scope(t) => if t != ta { RemovedNothing([t], ta); }
    case Repeat(t, _, _) => if t != ta { RemovedNothing([t], ta); }
    case _ =>
  }

  lemma {:induction false} RemovalParts(h: Graph, p: Ref, ta: Ref)
    requires p in h && NoRepeats(Kids(h[p]))
    ensures LogicalRemoval(h, h[p], ta).0.Pointer? == h[p].Pointer?
    ensures forall k :: k in Kids(LogicalRemoval(h, h[p], ta).0) ==> k in Kids(h[p])
  {
    RemovalKind(h, p, ta);
    hide LogicalRemoval, NoRepeats;
  }

  /** p is still of use without ta. */
  lemma {:induction false} PrunedNode(pl: Plan, v: View, p: Ref, ta: Ref)
    requires NodeOk(pl, v, p) && NoRepeats(Kids(v.h[p])) && Simulates(pl.h0, v.h, v.src) && Closed(pl.h0)
    requires GoneOk(pl, v, ta) && LogicalRemoval(v.h, v.h[p], ta).1
    ensures NodeOk(pl, v.(h := v.h[p := LogicalRemoval(v.h, v.h[p], ta).0]), p)
  {
    var n := LogicalRemoval(v.h, v.h[p], ta).0;
    var w, ts, ts0, counts := v.(h := v.h[p := n]), Kids(v.h[p]), Kids(pl.h0[v.src[p]]), v.cnt[p];
    RemovalKind(v.h, p, ta);
    hide LogicalRemoval, Simulates, GoneOk, Image, Missing;
    AlignedRemoved(pl, v, v.h[p].Concat?, counts, ts, ts0, ta);
    forall k, k0 | k in Removed(ts, ta) && Image(pl, v, counts, k, k0) ensures Image(pl, w, counts, k, k0) {
      ImageStill(pl, v, w, counts, k, k0);
    }
    AlignedStill(pl, v, w, v.h[p].Concat?, counts, Removed(ts, ta), ts0);
  }

  lemma {:induction false} ImageStill(pl: Plan, v: View, w: View, counts: map<Ref, nat>, k: Ref, k0: Ref)
    requires Image(pl, v, counts, k, k0) && w.src == v.src && w.cnt == v.cnt
    requires forall x :: x in v.h ==> x in w.h && w.h[x].Pointer? == v.h[x].Pointer?
    ensures Image(pl, w, counts, k, k0)
  {
    hide U;
  }

  lemma {:induction false} PruneFaithful(pl: Plan, v: View, pend: seq<Item>, p: Ref, ta: Ref)
    requires Faithful(pl, v, pend) && p in v.h && p in v.done && !v.h[p].Pointer? && NoRepeats(Kids(v.h[p]))
    requires Simulates(pl.h0, v.h, v.src) && Closed(pl.h0) && GoneOk(pl, v, ta) && LogicalRemoval(v.h, v.h[p], ta).1
    ensures Faithful(pl, v.(h := v.h[p := LogicalRemoval(v.h, v.h[p], ta).0]), pend)
  {
    hide LogicalRemoval, NodeOk, Simulates, GoneOk, NoRepeats, Closed, OthersKept, RootFaithful, DeadOk, Untouched;
    var n := LogicalRemoval(v.h, v.h[p], ta).0;
    var w := v.(h := v.h[p := n]);
    RemovalParts(v.h, p, ta);
    if p !in v.dead { PrunedNode(pl, v, p, ta); }
    assert v.done + {p} == v.done;
    hide NodesOk;
    PruneParts(pl, v, w, pend, p, n);
  }

  lemma {:induction false} PruneParts(pl: Plan, v: View, w: View, pend: seq<Item>, p: Ref, n: Node)
    requires Faithful(pl, v, pend) && p in v.h && p in v.done && !v.h[p].Pointer? && !n.Pointer?
    requires w == v.(h := v.h[p := n]) && forall k :: k in Kids(n) ==> k in Kids(v.h[p])
    requires p in v.dead || NodeOk(pl, w, p)
    ensures Faithful(pl, w, pend)
  {
    hide NodeOk;
    assert v.done + {p} == v.done;
    ShrunkNodes(pl, v, w, p, n);
    ShrunkDead(pl, v, w, p, n);
    ShrunkOthersKept(pl, v, w, p, n, pend, pend);
    hide Untouched, NodesOk, DeadOk, OthersKept, U;
  }

  lemma {:induction false} UnfoldsToNothing(pl: Plan, x: Ref, counts: map<Ref, nat>)
    requires Formed(pl.h0, pl.rank) && x in pl.h0
    requires var ts0 := Kids(pl.h0[x]);
             match pl.h0[x]
             case Concat(_) => UnfoldParts(pl.h0, pl.rank, pl.limit, ts0, counts, pl.rank[x]) == None
             case One(_) => UnfoldAlternatives(pl.h0, pl.rank, pl.limit, ts0, counts, pl.rank[x]) == []
             case Pointer(_) => false
             case Text(_) => false
             case _ => U(pl, ts0[0], counts) == None
    ensures U(pl, x, counts) == None
  {
    hide UnfoldParts, UnfoldAlternatives;
  }

  lemma {:induction false} PartsDescend(pl: Plan, x: Ref)
    requires Formed(pl.h0, pl.rank) && x in pl.h0
    ensures x in pl.rank
    ensures forall k :: k in Kids(pl.h0[x]) ==> k in pl.h0 && k in pl.rank && x in pl.rank && pl.rank[k] < pl.rank[x]
  {
  }

  lemma {:induction false} LostConcat(pl: Plan, v: View, p: Ref, ta: Ref)
    requires NodeOk(pl, v, p) && NoRepeats(Kids(v.h[p])) && Simulates(pl.h0, v.h, v.src) && Formed(pl.h0, pl.rank)
    requires GoneOk(pl, v, ta) && !LogicalRemoval(v.h, v.h[p], ta).1
    requires v.h[p].Concat?
    ensures U(pl, v.src[p], v.cnt[p]) == None
  {
    var ts, ts0 := v.h[p].tokens, Kids(pl.h0[v.src[p]]);
    PartsDescend(pl, v.src[p]);
    assert ta in ts && ta in v.h by { hide Aligned; }
    assert !OptionalType(v.h[ta]) by { hide Aligned; }
    hide Simulates, GoneOk, LogicalRemoval, Aligned, Unfold, UnfoldParts, Formed, U;
    AlignedLost(pl, v, v.cnt[p], ts, ts0, ta, pl.rank[v.src[p]]);
    UnfoldsToNothing(pl, v.src[p], v.cnt[p]);
  }

  lemma {:induction false} OneLost(h: Graph, p: Ref, ta: Ref)
    requires p in h && h[p].One? && !LogicalRemoval(h, h[p], ta).1
    ensures Removed(h[p].tokens, ta) == []
  {
  }

  lemma {:induction false} AlternativesLost(pl: Plan, v: View, counts: map<Ref, nat>, ts: seq<Ref>, x0: Ref, ta: Ref)
    requires Formed(pl.h0, pl.rank) && x0 in pl.h0 && pl.h0[x0].One? && Simulates(pl.h0, v.h, v.src)
    requires Aligned(pl, v, false, counts, ts, pl.h0[x0].tokens) && GoneOk(pl, v, ta) && Removed(ts, ta) == []
    ensures U(pl, x0, counts) == None
  {
    hide Simulates, GoneOk, Aligned, Unfold, UnfoldAlternatives, Formed, U;
    var ts0 := pl.h0[x0].tokens;
    PartsDescend(pl, x0);
    AlignedRemoved(pl, v, false, counts, ts, ts0, ta);
    AlignedEmpty(pl, v, counts, ts0, pl.rank[x0]);
    UnfoldsToNothing(pl, x0, counts);
  }

  lemma {:induction false} LostOne(pl: Plan, v: View, p: Ref, ta: Ref)
    requires NodeOk(pl, v, p) && NoRepeats(Kids(v.h[p])) && Simulates(pl.h0, v.h, v.src) && Formed(pl.h0, pl.rank)
    requires GoneOk(pl, v, ta) && !LogicalRemoval(v.h, v.h[p], ta).1
    requires v.h[p].One?
    ensures U(pl, v.src[p], v.cnt[p]) == None
  {
    hide Simulates, GoneOk, Aligned, Formed, U;
    OneLost(v.h, p, ta);
    AlternativesLost(pl, v, v.cnt[p], v.h[p].tokens, v.src[p], ta);
  }

  lemma {:induction false} LostWrapper(pl: Plan, v: View, p: Ref, ta: Ref)
    requires NodeOk(pl, v, p) && NoRepeats(Kids(v.h[p])) && Simulates(pl.h0, v.h, v.src) && Formed(pl.h0, pl.rank)
    requires GoneOk(pl, v, ta) && !LogicalRemoval(v.h, v.h[p], ta).1
    requires v.h[p].Optional? || v.h[p].Scope? || v.h[p].Repeat?
    ensures U(pl, v.src[p], v.cnt[p]) == None
  {
    var ts0 := Kids(pl.h0[v.src[p]]);
    assert Kids(v.h[p]) == [ta] && |ts0| == 1 && ts0 == [ts0[0]];
    hide Simulates, GoneOk, LogicalRemoval, Aligned, Unfold, Formed, U;
    OnlyLost(pl, v, v.cnt[p], ta, ts0[0]);
    UnfoldsToNothing(pl, v.src[p], v.cnt[p]);
  }

  /** Without ta nothing is left of p. */
  lemma {:induction false} LostNode(pl: Plan, v: View, p: Ref, ta: Ref)
    requires NodeOk(pl, v, p) && NoRepeats(Kids(v.h[p])) && Simulates(pl.h0, v.h, v.src) && Formed(pl.h0, pl.rank)
    requires GoneOk(pl, v, ta) && !LogicalRemoval(v.h, v.h[p], ta).1
    ensures Left(pl, v, p) == None
  {
    hide Simulates, GoneOk, Aligned, Formed, U;
    match v.h[p]
    case Concat(_) => LostConcat(pl, v, p, ta);
    case One(_) => LostOne(pl, v, p, ta);
    case Optional(_) => LostWrapper(pl, v, p, ta);
    case Scope(_) => LostWrapper(pl, v, p, ta);
    case Repeat(_, _, _) => LostWrapper(pl, v, p, ta);
    case _ =>
  }

  lemma {:induction false} OnlyLost(pl: Plan, v: View, counts: map<Ref, nat>, ta: Ref, t0: Ref)
    requires Aligned(pl, v, false, counts, [ta], [t0]) && GoneOk(pl, v, ta) && Simulates(pl.h0, v.h, v.src)
    ensures U(pl, t0, counts) == None
  {
    hide Simulates, GoneOk, Image, U;
    assert [ta][1..] == [] && [t0][1..] == [];
    if Image(pl, v, counts, ta, t0) { GoneImage(pl, v, counts, ta, t0); }
  }

  /** p goes too. */
  lemma {:induction false} ClimbFaithful(pl: Plan, v: View, pend: seq<Item>, at: Item, ta: Ref)
    requires Faithful(pl, v, pend) && at.Item? && at.tok in v.h && at.tok in v.done && !v.h[at.tok].Pointer?
    requires NoRepeats(Kids(v.h[at.tok])) && Simulates(pl.h0, v.h, v.src) && Formed(pl.h0, pl.rank)
    requires GoneOk(pl, v, ta) && !LogicalRemoval(v.h, v.h[at.tok], ta).1 && (at.parent.NoItem? ==> at.tok == v.root)
    ensures var w := Climbed(v.(h := v.h[at.tok := LogicalRemoval(v.h, v.h[at.tok], ta).0]), at);
            Faithful(pl, w, pend) && GoneOk(pl, w, at.tok)
  {
    var p, n := at.tok, LogicalRemoval(v.h, v.h[at.tok], ta).0;
    var w := Climbed(v.(h := v.h[p := n]), at);
    RemovalKind(v.h, p, ta);
    if p !in v.dead {
      assert NodeOk(pl, v, p);
      LostNode(pl, v, p, ta);
    }
    hide LogicalRemoval, NodeOk, Simulates, GoneOk, NoRepeats, Formed, U, SameKind;
    LostLeft(pl, v, p);
    ClimbParts(pl, v, w, pend, at, n);
  }

  lemma {:induction false} ClimbParts(pl: Plan, v: View, w: View, pend: seq<Item>, at: Item, n: Node)
    requires Faithful(pl, v, pend) && at.Item? && at.tok in v.h && at.tok in v.done && !v.h[at.tok].Pointer?
    requires w == Climbed(v.(h := v.h[at.tok := n]), at) && !n.Pointer?
        && forall k :: k in Kids(n) ==> k in Kids(v.h[at.tok])
    requires at.tok in v.src && at.tok in v.cnt && Left(pl, v, at.tok) == None
        && (at.parent.NoItem? ==> at.tok == v.root)
    ensures Faithful(pl, w, pend) && GoneOk(pl, w, at.tok)
  {
    assert v.done + {at.tok} == v.done;
    hide Untouched, NodesOk, DeadOk, OthersKept, RootFaithful, Left;
    ShrunkNodes(pl, v, w, at.tok, n);
    ShrunkDead(pl, v, w, at.tok, n);
    ShrunkOthersKept(pl, v, w, at.tok, n, pend, pend);
    ClimbRoot(pl, v, w, at);
    LostGone(pl, v, w, at.tok);
  }

  lemma {:induction false} LostLeft(pl: Plan, v: View, p: Ref)
    requires NodesOk(pl, v) && DeadOk(pl, v) && p in v.done && p in v.h && !v.h[p].Pointer?
    ensures p in v.src && p in v.cnt && (p in v.dead ==> Left(pl, v, p) == None)
  {
  }

  lemma {:induction false} LostGone(pl: Plan, v: View, w: View, p: Ref)
    requires Left(pl, v, p) == None && p in v.src && p in v.cnt && w.src == v.src && w.cnt == v.cnt
    requires p in w.h && !w.h[p].Pointer?
    ensures GoneOk(pl, w, p)
  {
  }

  lemma {:induction false} ClimbRoot(pl: Plan, v: View, w: View, at: Item)
    requires RootFaithful(pl, v) && at.Item? && Left(pl, v, at.tok) == None && (at.parent.NoItem? ==> at.tok == v.root)
    requires w.src == v.src && w.cnt == v.cnt && w.root == v.root && w.climbed == (v.climbed || at.parent.NoItem?)
    ensures RootFaithful(pl, w)
  {
    hide U;
  }

  // ---------- the result ----------

  /** The trees of ts are those of ts0. */
  ghost predicate LooksAll(pl: Plan, v: View, ts: seq<Ref>, us: seq<Tree>) {
    |ts| == |us| && forall i :: 0 <= i < |ts| ==> Looks(pl.h0, v.h, v.src, ts[i], us[i])
  }

  ghost predicate LooksLeft(pl: Plan, v: View, k: Ref) {
    Left(pl, v, k).Some? && Looks(pl.h0, v.h, v.src, k, Left(pl, v, k).value)
  }

  lemma {:induction false} LooksAllCons(pl: Plan, v: View, counts: map<Ref, nat>, ts: seq<Ref>, k0: Ref, us: seq<Tree>)
    requires ts != [] && Image(pl, v, counts, ts[0], k0) && LooksLeft(pl, v, ts[0]) && LooksAll(pl, v, ts[1..], us)
    ensures U(pl, k0, counts).Some? && LooksAll(pl, v, ts, [U(pl, k0, counts).value] + us)
  {
    hide Looks, U;
    var u := U(pl, k0, counts).value;
    forall i | 0 <= i < |ts| ensures Looks(pl.h0, v.h, v.src, ts[i], ([u] + us)[i]) {
      if i > 0 { assert ts[i] == ts[1..][i - 1]; }
    }
  }

  lemma {:induction false} AlignedParts(pl: Plan, v: View, counts: map<Ref, nat>, ts: seq<Ref>, ts0: seq<Ref>,
          bound: nat)
    requires Formed(pl.h0, pl.rank) && forall k :: k in ts0 ==> k in pl.h0 && pl.rank[k] < bound
    requires Aligned(pl, v, true, counts, ts, ts0) && forall k :: k in ts ==> LooksLeft(pl, v, k)
    ensures var us := UnfoldParts(pl.h0, pl.rank, pl.limit, ts0, counts, bound);
            us.Some? && LooksAll(pl, v, ts, us.value)
    decreases |ts0|
  {
    if ts0 != [] {
      hide Image, LooksLeft, LooksAll, UnfoldParts, Formed, Unfold, Spared;
      UnfoldPartsStep(pl.h0, pl.rank, pl.limit, ts0, counts, bound);
      if ts != [] && Image(pl, v, counts, ts[0], ts0[0]) && Aligned(pl, v, true, counts, ts[1..], ts0[1..]) {
        assert ts[0] in ts && forall k :: k in ts[1..] ==> k in ts;
        AlignedParts(pl, v, counts, ts[1..], ts0[1..], bound);
        LooksAllCons(pl, v, counts, ts, ts0[0], UnfoldParts(pl.h0, pl.rank, pl.limit, ts0[1..], counts, bound).value);
      } else {
        AlignedParts(pl, v, counts, ts, ts0[1..], bound);
      }
    }
  }

  lemma {:induction false} AlignedAlternatives(pl: Plan, v: View, counts: map<Ref, nat>, ts: seq<Ref>, ts0: seq<Ref>,
          bound: nat)
    requires Formed(pl.h0, pl.rank) && forall k :: k in ts0 ==> k in pl.h0 && pl.rank[k] < bound
    requires Aligned(pl, v, false, counts, ts, ts0) && forall k :: k in ts ==> LooksLeft(pl, v, k)
    ensures LooksAll(pl, v, ts, UnfoldAlternatives(pl.h0, pl.rank, pl.limit, ts0, counts, bound))
    decreases |ts0|
  {
    if ts0 != [] {
      hide Image, LooksLeft, LooksAll, UnfoldAlternatives, Formed, Unfold, Spared;
      UnfoldAlternativesStep(pl.h0, pl.rank, pl.limit, ts0, counts, bound);
      if ts != [] && Image(pl, v, counts, ts[0], ts0[0]) && Aligned(pl, v, false, counts, ts[1..], ts0[1..]) {
        assert ts[0] in ts && forall k :: k in ts[1..] ==> k in ts;
        AlignedAlternatives(pl, v, counts, ts[1..], ts0[1..], bound);
        LooksAllCons(pl, v, counts, ts, ts0[0], UnfoldAlternatives(pl.h0, pl.rank, pl.limit, ts0[1..], counts, bound));
      } else {
        AlignedAlternatives(pl, v, counts, ts, ts0[1..], bound);
      }
    }
  }

  lemma {:induction false} AlignedOnly(pl: Plan, v: View, counts: map<Ref, nat>, t: Ref, t0: Ref)
    requires Aligned(pl, v, false, counts, [t], [t0]) && LooksLeft(pl, v, t)
    ensures U(pl, t0, counts) == Left(pl, v, t)
  {
    hide U, Looks;
    assert [t][1..] == [] && [t0][1..] == [];
  }

  /** A visited token looks like what its source unfolds into, if its children do. */
  lemma {:induction false} NodeLooks(pl: Plan, v: View, x: Ref)
    requires NodeOk(pl, v, x) && Formed(pl.h0, pl.rank) && forall k :: k in Kids(v.h[x]) ==> LooksLeft(pl, v, k)
    ensures LooksLeft(pl, v, x)
  {
    var ts, ts0, counts := Kids(v.h[x]), Kids(pl.h0[v.src[x]]), v.cnt[x];
    var bound := pl.rank[v.src[x]];
    assert forall k :: k in ts0 ==> k in pl.h0 && pl.rank[k] < bound;
    match v.h[x]
    case Concat(_) => AlignedParts(pl, v, counts, ts, ts0, bound);
    case One(_) => AlignedAlternatives(pl, v, counts, ts, ts0, bound);
    case Optional(t) => AlignedOnly(pl, v, counts, t, ts0[0]); assert t in ts;
    case Scope(t) => AlignedOnly(pl, v, counts, t, ts0[0]); assert t in ts;
    case Repeat(t, _, _) => AlignedOnly(pl, v, counts, t, ts0[0]); assert t in ts;
    case _ =>
  }

  lemma {:induction false} LiveKid(v: View, x: Ref, k: Ref)
    requires Live(v, [], NoItem, 0) && Acyclic(v.h, v.rank) && Closed(v.h)
    requires x in v.done && x !in v.dead && x in v.h && k in Kids(v.h[x])
    ensures k in v.done && k !in v.dead && k in v.h && v.rank[k] < v.rank[x]
  {
  }

  lemma {:induction false} LiveLooks(pl: Plan, v: View, x: Ref)
    requires Faithful(pl, v, []) && Live(v, [], NoItem, 0) && Formed(pl.h0, pl.rank) && Acyclic(v.h, v.rank)
        && Closed(v.h)
    requires x in v.done && x !in v.dead && x in v.h
    ensures LooksLeft(pl, v, x)
    decreases v.rank[x]
  {
    assert NodeOk(pl, v, x);
    hide LooksLeft, NodeOk, Faithful, Live, Formed, Closed, Acyclic;
    forall k | k in Kids(v.h[x]) ensures LooksLeft(pl, v, k) {
      LiveKid(v, x, k);
      LiveLooks(pl, v, k);
    }
    NodeLooks(pl, v, x);
  }
}
