/** Each step of the unrolling keeps the invariant of UnrollState. */
module UnrollSteps {
  import opened TokenGraphs
  import opened UnrollWords
  import opened UnrollState

  // ---------- visiting a token that is no pointer ----------

  function KidItems(ts: seq<Ref>, parent: Item): (is_: seq<Item>)
    requires parent.Item?
    ensures |is_| == |ts| && forall i :: 0 <= i < |ts| ==> is_[i] == Item(ts[i], parent, parent.counts)
  {
    seq(|ts|, i requires 0 <= i < |ts| => Item(ts[i], parent, parent.counts))
  }

  ghost function Visited(v: View, item: Item): View
    requires item.Item? && item.tok in v.h
  {
    v.(done := v.done + {item.tok},
       cnt := v.cnt + map k | k in Kids(v.h[item.tok]) :: item.counts)
  }

  lemma {:induction false} InItemsSplit(a: seq<Item>, b: seq<Item>, k: Ref)
    ensures InItems(a + b, k) <==> InItems(a, k) || InItems(b, k)
  {
    if InItems(a, k) {
      var i :| 0 <= i < |a| && a[i].Item? && a[i].tok == k;
      assert (a + b)[i] == a[i];
    }
    if InItems(b, k) {
      var i :| 0 <= i < |b| && b[i].Item? && b[i].tok == k;
      assert (a + b)[|a| + i] == b[i];
    }
  }

  lemma {:induction false} InItemsHead(item: Item, rest: seq<Item>, k: Ref)
    requires item.Item?
    ensures InItems([item] + rest, k) <==> k == item.tok || InItems(rest, k)
  {
    assert ([item] + rest)[0] == item;
    InItemsSplit([item], rest, k);
  }

  lemma {:induction false} InKidItems(ts: seq<Ref>, parent: Item, k: Ref)
    requires parent.Item?
    ensures InItems(KidItems(ts, parent), k) <==> k in ts
  {
    if k in ts {
      var i :| 0 <= i < |ts| && ts[i] == k;
      assert KidItems(ts, parent)[i].tok == k;
    }
  }

  lemma {:induction false} ChainVisited(v: View, item: Item, it: Item)
    requires item.Item? && item.tok in v.h && ChainOk(v, it)
    ensures ChainOk(Visited(v, item), it)
    decreases it
  {
    if it.Item? {
      ChainVisited(v, item, it.parent);
    }
  }

  /** The parent of a token on the worklist was visited. */
  lemma {:induction false} ParentDone(v: View, it: Item, p: Ref)
    requires ItemOk(v, it) && p in v.h && p !in v.side && it.tok in Kids(v.h[p])
    ensures p in v.done
  {
    assert ChainOk(v, it.parent);
  }

  lemma {:induction false} KidItemOk(v: View, item: Item, k: Ref)
    requires Shape(v) && Sized(v) && ItemOk(v, item) && !v.h[item.tok].Pointer? && k in Kids(v.h[item.tok])
    ensures ItemOk(Visited(v, item), Item(k, item, item.counts)) && k != item.tok
  {
    ChainVisited(v, item, item.parent);
    assert ChainOk(Visited(v, item), item);
  }

  lemma {:induction false} OtherItemOk(v: View, item: Item, it: Item)
    requires ItemOk(v, item) && ItemOk(v, it) && it.tok != item.tok
    ensures ItemOk(Visited(v, item), it) && it.tok !in Kids(v.h[item.tok])
  {
    ChainVisited(v, item, it.parent);
    if it.tok in Kids(v.h[item.tok]) {
      ParentDone(v, it, item.tok);
    }
  }

  lemma {:induction false} KidsDiffer(v: View, r: Ref, i: nat, j: nat)
    requires Shape(v) && r in v.h && i < j
    ensures j < |Kids(v.h[r])| ==> Kids(v.h[r])[i] != Kids(v.h[r])[j]
  {
  }

  lemma {:induction false} VisitPending(v: View, item: Item, rest: seq<Item>)
    requires Shape(v) && Sized(v) && Pending(v, [item] + rest)
    requires item.Item? && item.tok in v.h && !v.h[item.tok].Pointer?
    ensures Pending(Visited(v, item), KidItems(Kids(v.h[item.tok]), item) + rest)
  {
    hide Shape, Sized, ChainOk, OnlyParent, Visited;
    var ts, w := Kids(v.h[item.tok]), Visited(v, item);
    var pend, more := [item] + rest, KidItems(Kids(v.h[item.tok]), item) + rest;
    assert pend[0] == item && ItemOk(v, item);
    forall i | 0 <= i < |more| ensures ItemOk(w, more[i]) && (i >= |ts| ==> more[i].tok !in ts) {
      hide ItemOk;
      if i < |ts| {
        KidItemOk(v, item, ts[i]);
      } else {
        assert more[i] == pend[i - |ts| + 1];
        OtherItemOk(v, item, more[i]);
      }
    }
    forall i, j | 0 <= i < j < |more|
      ensures more[i].Item? && more[j].Item? && more[i].tok != more[j].tok
    {
      assert ItemOk(w, more[i]) && ItemOk(w, more[j]);
      if i < |ts| {
        assert more[i].tok == ts[i] && ts[i] in ts;
        assert j < |ts| ==> ts[i] != ts[j] by { KidsDiffer(v, item.tok, i, j); }
      } else {
        assert more[i] == pend[i - |ts| + 1] && more[j] == pend[j - |ts| + 1];
      }
    }
  }

  lemma {:induction false} SizedWithout(h: Graph, dom: set<Ref>, size: map<Ref, nat>, x: Ref)
    requires ClosedIn(h, dom) && Exact(h, dom, size) && forall r :: r in dom ==> x !in Kids(h[r])
    ensures ClosedIn(h, dom - {x}) && Exact(h, dom - {x}, size)
  {
    hide SizeAll, SizeOf;
  }

  lemma {:induction false} VisitSized(v: View, item: Item, rest: seq<Item>)
    requires Shape(v) && Sized(v) && Pending(v, [item] + rest)
    requires item.Item? && item.tok in v.h
    ensures Sized(v.(done := v.done + {item.tok}))
  {
    assert ItemOk(v, ([item] + rest)[0]);
    hide Pending, Shape, Exact, ChainOk, OnlyParent;
    forall r | r in Unvisited(v) ensures item.tok !in Kids(v.h[r]) {
      if item.tok in Kids(v.h[r]) {
        ParentDone(v, item, r);
      }
    }
    hide ItemOk;
    SizedWithout(v.h, Unvisited(v), v.size, item.tok);
    assert Unvisited(v.(done := v.done + {item.tok})) == Unvisited(v) - {item.tok};
    hide ClosedIn;
  }

  lemma {:induction false} InItemsVisited(ts: seq<Ref>, item: Item, rest: seq<Item>, k: Ref)
    requires item.Item?
    ensures InItems(KidItems(ts, item) + rest, k) <==> k in ts || InItems(rest, k)
    ensures InItems([item] + rest, k) <==> k == item.tok || InItems(rest, k)
  {
    hide InItems, KidItems;
    InItemsSplit(KidItems(ts, item), rest, k);
    InKidItems(ts, item, k);
    InItemsHead(item, rest, k);
  }

  /** A visited token's children were visited, or wait. */
  lemma {:induction false} LiveOn(v: View, w: View, x: Ref, ts: seq<Ref>, pend: seq<Item>, more: seq<Item>, gone: Ref)
    requires Live(v, pend, NoItem, gone) && x in v.h && !v.h[x].Pointer? && Kids(v.h[x]) == ts
    requires w.h == v.h && w.dead == v.dead && w.done == v.done + {x} && w.root == v.root && w.climbed == v.climbed
    requires forall k :: k in ts ==> k !in v.dead
    requires forall k :: InItems(more, k) || k == x || !InItems(pend, k)
    requires forall k :: k in ts ==> InItems(more, k)
    ensures Live(w, more, NoItem, gone)
  {
    hide InItems;
  }

  lemma {:induction false} VisitLive(v: View, item: Item, rest: seq<Item>, gone: Ref)
    requires Shape(v) && Sized(v) && Pending(v, [item] + rest) && Live(v, [item] + rest, NoItem, gone)
    requires item.Item? && item.tok in v.h && !v.h[item.tok].Pointer?
    ensures Live(Visited(v, item), KidItems(Kids(v.h[item.tok]), item) + rest, NoItem, gone)
  {
    var ts := Kids(v.h[item.tok]);
    assert ItemOk(v, ([item] + rest)[0]);
    KidsUnvisited(v, item.tok);
    assert v.dead <= v.done;
    hide Shape, Sized, Pending, ItemOk, KidItems, InItems, Live;
    forall k ensures InItems(KidItems(ts, item) + rest, k) <==> k in ts || InItems(rest, k)
             ensures InItems([item] + rest, k) <==> k == item.tok || InItems(rest, k) {
      InItemsVisited(ts, item, rest, k);
    }
    LiveOn(v, Visited(v, item), item.tok, ts, [item] + rest, KidItems(ts, item) + rest, gone);
  }

  lemma {:induction false} VisitItemCounts(v: View, item: Item, rest: seq<Item>)
    requires Pending(v, [item] + rest) && ItemCounts(v, [item] + rest)
    requires item.Item? && item.tok in v.h && !v.h[item.tok].Pointer?
    ensures ItemCounts(Visited(v, item), KidItems(Kids(v.h[item.tok]), item) + rest)
  {
    var ts, w := Kids(v.h[item.tok]), Visited(v, item);
    var pend, more := [item] + rest, KidItems(Kids(v.h[item.tok]), item) + rest;
    assert pend[0] == item && ItemOk(v, item);
    forall i | 0 <= i < |more| && more[i].Item?
      ensures more[i].tok in w.cnt && w.cnt[more[i].tok] == more[i].counts
    {
      hide ChainOk, OnlyParent;
      if i < |ts| {
        assert more[i].tok == ts[i] && ts[i] in ts;
      } else {
        assert more[i] == pend[i - |ts| + 1] && ItemOk(v, more[i]);
        OtherItemOk(v, item, more[i]);
      }
    }
  }

  lemma {:induction false} OtherKid(v: View, x: Ref, r: Ref, k: Ref)
    requires Shape(v) && x in v.h && r in v.h && r != x && k in Kids(v.h[r])
    ensures k !in Kids(v.h[x])
  {
    hide Closed, Acyclic, Aside, Apart;
  }

  lemma {:induction false} KidsUnvisited(v: View, x: Ref)
    requires Shape(v) && Sized(v) && x in Unvisited(v)
    ensures forall k :: k in Kids(v.h[x]) ==> k in Unvisited(v) && k != x
  {
    hide UniqueParent, Aside, Apart, Exact;
  }

  lemma {:induction false} VisitEdgeCounts(v: View, item: Item)
    requires Shape(v) && Sized(v) && ItemOk(v, item) && item.tok in Unvisited(v) && EdgeCounts(v) && NoExpansionBelow(v)
    requires item.tok in v.cnt && v.cnt[item.tok] == item.counts
    ensures EdgeCounts(Visited(v, item))
  {
    var x, w := item.tok, Visited(v, item);
    KidsUnvisited(v, x);
    hide ItemOk, Sized, EdgeCount, NoExpansionBelow, Shape;
    forall r, k | r in w.done && r !in w.dead && r in v.h && k in Kids(v.h[r]) ensures EdgeCount(w, r, k) {
      if r == x {
        NewEdgeCount(v, item, k);
      } else {
        OtherKid(v, x, r, k);
        OldEdgeCount(v, item, r, k);
      }
    }
  }

  lemma {:induction false} NewEdgeCount(v: View, item: Item, k: Ref)
    requires item.Item? && item.tok in Unvisited(v) && k in Kids(v.h[item.tok]) && NoExpansionBelow(v)
    requires item.tok in v.cnt && v.cnt[item.tok] == item.counts && item.tok !in Kids(v.h[item.tok])
    ensures EdgeCount(Visited(v, item), item.tok, k)
  {
  }

  lemma {:induction false} OldEdgeCount(v: View, item: Item, r: Ref, k: Ref)
    requires item.Item? && item.tok in v.h && EdgeCount(v, r, k)
    requires r !in Kids(v.h[item.tok]) && k !in Kids(v.h[item.tok])
    ensures EdgeCount(Visited(v, item), r, k)
  {
  }

  lemma {:induction false} VisitCounted(h0: Graph, limit: nat, v: View, item: Item, rest: seq<Item>)
    requires Shape(v) && Sized(v) && Pending(v, [item] + rest) && Counted(limit, v, [item] + rest)
    requires item.Item? && item.tok in v.h && !v.h[item.tok].Pointer?
    ensures Counted(limit, Visited(v, item), KidItems(Kids(v.h[item.tok]), item) + rest)
  {
    assert ([item] + rest)[0] == item && ItemOk(v, item);
    VisitItemCounts(v, item, rest);
    VisitEdgeCounts(v, item);
    assert v.root !in Kids(v.h[item.tok]);
  }

  lemma {:induction false} VisitRegistered(h0: Graph, v: View, item: Item, rest: seq<Item>)
    requires Registered(h0, v, [item] + rest) && Pending(v, [item] + rest)
    requires item.Item? && item.tok in v.h && !v.h[item.tok].Pointer?
    ensures Registered(h0, Visited(v, item), KidItems(Kids(v.h[item.tok]), item) + rest)
  {
    var ts, pend, w := Kids(v.h[item.tok]), [item] + rest, Visited(v, item);
    assert pend[0] == item && ItemOk(v, item);
    forall x | x in w.originals ensures KnownOk(w, x) {
      assert KnownOk(v, x);
    }
    forall o | o in w.clones
      ensures CloneOk(h0, w, o) && !InItems(KidItems(ts, item) + rest, w.clones[o])
    {
      hide InItems, Orphan;
      assert CloneOk(h0, v, o);
      assert v.clones[o] !in ts by { assert Orphan(v.h, v.clones[o]); OrphanNotBelow(v.h, v.clones[o], item.tok); }
      InItemsSplit(KidItems(ts, item), rest, v.clones[o]);
      InKidItems(ts, item, v.clones[o]);
      InItemsHead(item, rest, v.clones[o]);
    }
  }

  lemma {:induction false} OrphanNotBelow(h: Graph, k: Ref, p: Ref)
    requires Orphan(h, k) && p in h
    ensures k !in Kids(h[p])
  {
  }

  /** Visiting a token that is no pointer keeps everything. */
  lemma {:induction false} VisitKeeps(h0: Graph, r0: Ref, limit: nat, v: View, item: Item, rest: seq<Item>, gone: Ref)
    requires Inv(h0, r0, limit, v, [item] + rest, NoItem, gone)
    requires item.Item? && item.tok in v.h && !v.h[item.tok].Pointer?
    ensures Inv(h0, r0, limit, Visited(v, item), KidItems(Kids(v.h[item.tok]), item) + rest, NoItem, gone)
  {
    hide Live, Pending, Sized, Counted, Registered, Sourced, ItemOk;
    VisitPending(v, item, rest);
    VisitLive(v, item, rest, gone);
    VisitCounted(h0, limit, v, item, rest);
    VisitRegistered(h0, v, item, rest);
    VisitRemainder(h0, r0, v, item, rest);
  }

  lemma {:induction false} VisitRemainder(h0: Graph, r0: Ref, v: View, item: Item, rest: seq<Item>)
    requires Shape(v) && Sourced(h0, r0, v) && Sized(v) && Pending(v, [item] + rest)
    requires item.Item? && item.tok in v.h && !v.h[item.tok].Pointer?
    ensures Shape(Visited(v, item)) && Sourced(h0, r0, Visited(v, item)) && Sized(Visited(v, item))
  {
    hide ChainOk, OnlyParent, Closed, UniqueParent, Acyclic, Simulates, Orphan, Sized;
    assert ItemOk(v, ([item] + rest)[0]);
    VisitSized(v, item, rest);
    VisitedSized(v, item);
  }

  lemma {:induction false} VisitedSized(v: View, item: Item)
    requires item.Item? && item.tok in v.h && Sized(v.(done := v.done + {item.tok}))
    ensures Sized(Visited(v, item))
  {
  }
}
