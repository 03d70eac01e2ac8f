/** Cutting a pointer off, and removing what cannot be printed without it, keep the invariant of UnrollState. */
module UnrollCut {
  import opened TokenGraphs
  import opened UnrollWords
  import opened UnrollState
  import opened UnrollSteps

  // ---------- taking the pointer out ----------

  ghost function Retired(v: View, item: Item): View
    requires item.Item?
  {
    v.(done := v.done + {item.tok}, dead := v.dead + {item.tok},
       climbed := v.climbed || item.parent.NoItem?)
  }

  lemma {:induction false} ChainRetired(v: View, item: Item, it: Item)
    requires item.Item? && ChainOk(v, it)
    ensures ChainOk(Retired(v, item), it)
    decreases it
  {
    if it.Item? {
      ChainRetired(v, item, it.parent);
    }
  }

  lemma {:induction false} RetirePending(v: View, item: Item, rest: seq<Item>)
    requires item.Item? && Pending(v, [item] + rest)
    ensures Pending(Retired(v, item), rest)
    ensures forall i :: 0 <= i < |rest| ==> rest[i].Item? && rest[i].tok != item.tok
  {
    var pend := [item] + rest;
    forall i | 0 <= i < |rest| ensures ItemOk(Retired(v, item), rest[i]) && rest[i].tok != item.tok {
      assert pend[i + 1] == rest[i] && ItemOk(v, rest[i]) && pend[0].tok != pend[i + 1].tok;
      ChainRetired(v, item, rest[i].parent);
    }
    forall i, j | 0 <= i < j < |rest| ensures rest[i].Item? && rest[j].Item? && rest[i].tok != rest[j].tok {
      assert pend[i + 1] == rest[i] && pend[j + 1] == rest[j];
    }
  }

  lemma {:induction false} RetireRegistered(h0: Graph, v: View, item: Item, rest: seq<Item>)
    requires item.Item? && Registered(h0, v, [item] + rest)
    ensures Registered(h0, Retired(v, item), rest)
  {
    hide InItems, Orphan;
    var w := Retired(v, item);
    forall x | x in w.originals ensures KnownOk(w, x) { assert KnownOk(v, x); }
    forall o | o in w.clones ensures CloneOk(h0, w, o) && !InItems(rest, w.clones[o]) {
      assert CloneOk(h0, v, o);
      InItemsHead(item, rest, v.clones[o]);
    }
  }

  lemma {:induction false} RetireLive(v: View, item: Item, rest: seq<Item>, g: Ref)
    requires Shape(v) && ItemOk(v, item) && Live(v, [item] + rest, NoItem, g)
    ensures Live(Retired(v, item), rest, item.parent, item.tok)
  {
    hide Closed, UniqueParent, Acyclic, Orphan, InItems, ChainOk;
    forall k ensures InItems([item] + rest, k) <==> k == item.tok || InItems(rest, k) {
      InItemsHead(item, rest, k);
    }
  }

  lemma {:induction false} RetireCounted(h0: Graph, limit: nat, v: View, item: Item, rest: seq<Item>)
    requires item.Item? && Counted(limit, v, [item] + rest)
    ensures Counted(limit, Retired(v, item), rest)
  {
    var w, pend := Retired(v, item), [item] + rest;
    forall i | 0 <= i < |rest| && rest[i].Item?
      ensures rest[i].tok in w.cnt && w.cnt[rest[i].tok] == rest[i].counts
    {
      assert pend[i + 1] == rest[i];
    }
    forall r, k | r in w.done && r !in w.dead && r in w.h && k in Kids(w.h[r]) ensures EdgeCount(w, r, k) {
      assert EdgeCount(v, r, k);
    }
  }

  lemma {:induction false} RetireSized(v: View, item: Item, rest: seq<Item>)
    requires Shape(v) && Sized(v) && item.Item? && item.tok in v.h && Pending(v, [item] + rest)
    ensures Sized(Retired(v, item))
  {
    hide Shape, Pending;
    VisitSized(v, item, rest);
    SizedOf(v.(done := v.done + {item.tok}), Retired(v, item));
  }

  lemma {:induction false} SizedOf(v: View, w: View)
    requires Sized(v) && w.h == v.h && w.done == v.done && w.side == v.side && w.size == v.size
    ensures Sized(w)
  {
  }

  /** The pointer counts as visited and as cut off; its parent still has it as a child. */
  lemma {:induction false} RetireKeeps(h0: Graph, r0: Ref, limit: nat, v: View, item: Item, rest: seq<Item>, g: Ref)
    requires Inv(h0, r0, limit, v, [item] + rest, NoItem, g) && item.Item?
    ensures Inv(h0, r0, limit, Retired(v, item), rest, item.parent, item.tok)
  {
    hide Sized, Registered, Live, Counted, Closed, UniqueParent, Acyclic, Orphan, Simulates, Stands, ChainOk,
        OnlyParent;
    assert ([item] + rest)[0] == item && ItemOk(v, item);
    RetirePending(v, item, rest);
    RetireRegistered(h0, v, item, rest);
    RetireLive(v, item, rest, g);
    RetireCounted(h0, limit, v, item, rest);
    RetireSized(v, item, rest);
  }

  // ---------- a visited token loses children ----------

  /** n is m with fewer children. */
  ghost predicate Fewer(n: Node, m: Node) {
    && (forall k :: k in Kids(n) ==> k in Kids(m))
    && NoRepeats(Kids(n)) && n.Pointer? == m.Pointer?
    && (n.Pointer? ==> n.target.None?)
  }

  lemma {:induction false} ShrinkShape(v: View, l: Ref, n: Node)
    requires Shape(v) && l in v.h && Fewer(n, v.h[l])
    ensures Shape(v.(h := v.h[l := n]))
  {
    ShrinkUnique(v.h, l, n);
    ShrinkEdges(v.h, l, n, v.rank, v.side, v.root);
    hide Closed, UniqueParent, Acyclic, Apart, Aside, Fewer, Kids;
  }

  lemma {:induction false} ShrinkEdges(h: Graph, l: Ref, n: Node, rank: map<Ref, nat>, side: set<Ref>, root: Ref)
    requires Closed(h) && Acyclic(h, rank) && Apart(h, side, root) && Aside(h, side) && l in h && Fewer(n, h[l])
    ensures Closed(h[l := n]) && Acyclic(h[l := n], rank) && Apart(h[l := n], side, root) && Aside(h[l := n], side)
  {
    var g := h[l := n];
    assert forall r :: r in g ==> r in h && forall k :: k in Kids(g[r]) ==> k in Kids(h[r]);
    hide Fewer, Kids;
  }

  lemma {:induction false} ShrinkUnique(h: Graph, l: Ref, n: Node)
    requires UniqueParent(h) && l in h && Fewer(n, h[l])
    ensures UniqueParent(h[l := n])
  {
    var g := h[l := n];
    assert forall r :: r in g ==> r in h && forall k :: k in Kids(g[r]) ==> k in Kids(h[r]);
    assert forall r :: r in g ==> NoRepeats(Kids(g[r]));
    hide Fewer, Kids, NoRepeats;
  }

  lemma {:induction false} ShrinkSized(v: View, l: Ref, n: Node)
    requires Sized(v) && l in v.done && l in v.h
    ensures Sized(v.(h := v.h[l := n]))
  {
  }

  lemma {:induction false} ShrinkRegistered(h0: Graph, v: View, pend: seq<Item>, l: Ref, n: Node)
    requires Registered(h0, v, pend) && l in v.h && Fewer(n, v.h[l])
    ensures Registered(h0, v.(h := v.h[l := n]), pend)
  {
    hide InItems, KnownOk, CloneOk, Fewer;
    var w := v.(h := v.h[l := n]);
    forall x | x in w.originals ensures KnownOk(w, x) { ShrinkKnown(v, l, n, x); }
    forall o | o in w.clones ensures CloneOk(h0, w, o) && !InItems(pend, w.clones[o]) { ShrinkClone(h0, v, l, n, o); }
    ShrinkTargets(v.h, l, n, h0.Keys + v.originals.Keys);
  }

  lemma {:induction false} ShrinkTargets(h: Graph, l: Ref, n: Node, s: set<Ref>)
    requires TargetsIn(h, s) && l in h && Fewer(n, h[l])
    ensures TargetsIn(h[l := n], s)
  {
  }

  lemma {:induction false} ShrinkKnown(v: View, l: Ref, n: Node, x: Ref)
    requires KnownOk(v, x) && l in v.h && Fewer(n, v.h[l])
    ensures KnownOk(v.(h := v.h[l := n]), x)
  {
  }

  lemma {:induction false} ShrinkClone(h0: Graph, v: View, l: Ref, n: Node, o: Ref)
    requires CloneOk(h0, v, o) && l in v.h && Fewer(n, v.h[l])
    ensures CloneOk(h0, v.(h := v.h[l := n]), o)
  {
  }

  lemma {:induction false} ShrinkChain(v: View, l: Ref, n: Node, it: Item)
    requires l in v.h && Fewer(n, v.h[l]) && ChainOk(v, it)
    ensures ChainOk(v.(h := v.h[l := n]), it)
    decreases it
  {
    if it.Item? {
      ShrinkChain(v, l, n, it.parent);
    }
  }

  lemma {:induction false} ShrinkPending(v: View, pend: seq<Item>, l: Ref, n: Node)
    requires Pending(v, pend) && l in v.h && Fewer(n, v.h[l])
    ensures Pending(v.(h := v.h[l := n]), pend)
  {
    forall i | 0 <= i < |pend| ensures ItemOk(v.(h := v.h[l := n]), pend[i]) {
      assert ItemOk(v, pend[i]);
      ShrinkChain(v, l, n, pend[i].parent);
    }
  }

  lemma {:induction false} ShrinkCounted(h0: Graph, limit: nat, v: View, pend: seq<Item>, l: Ref, n: Node)
    requires Counted(limit, v, pend) && l in v.h && Fewer(n, v.h[l])
    ensures Counted(limit, v.(h := v.h[l := n]), pend)
  {
    var w := v.(h := v.h[l := n]);
    forall r, k | r in w.done && r !in w.dead && r in w.h && k in Kids(w.h[r]) ensures EdgeCount(w, r, k) {
      assert EdgeCount(v, r, k);
    }
  }

  lemma {:induction false} ShrinkSourced(h0: Graph, r0: Ref, v: View, l: Ref, n: Node)
    requires Sourced(h0, r0, v) && l in v.h && Simulates(h0, v.h[l := n], v.src)
    ensures Sourced(h0, r0, v.(h := v.h[l := n]))
  {
    hide Simulates, Stands;
  }

  lemma {:induction false} ShrinkLive(v: View, pend: seq<Item>, at: Item, gone: Ref, l: Ref, n: Node)
    requires Live(v, pend, at, gone) && l in v.h && Fewer(n, v.h[l])
    ensures Live(v.(h := v.h[l := n]), pend, at, gone)
  {
  }

  /** Losing children keeps everything. */
  lemma {:induction false} ShrinkKeeps(h0: Graph, r0: Ref, limit: nat, v: View, pend: seq<Item>, at: Item, gone: Ref,
          l: Ref, n: Node)
    requires Inv(h0, r0, limit, v, pend, at, gone) && l in v.h && l in v.done && Fewer(n, v.h[l])
    requires Simulates(h0, v.h[l := n], v.src)
    ensures Inv(h0, r0, limit, v.(h := v.h[l := n]), pend, at, gone)
  {
    hide Shape, Sized, Registered, Live, Counted, Pending, Sourced, Fewer, Simulates;
    ShrinkShape(v, l, n);
    ShrinkSized(v, l, n);
    ShrinkRegistered(h0, v, pend, l, n);
    ShrinkPending(v, pend, l, n);
    ShrinkCounted(h0, limit, v, pend, l, n);
    ShrinkSourced(h0, r0, v, l, n);
    ShrinkLive(v, pend, at, gone, l, n);
  }

  // ---------- climbing ----------

  ghost function Climbed(v: View, at: Item): View
    requires at.Item?
  {
    v.(dead := v.dead + {at.tok}, climbed := v.climbed || at.parent.NoItem?)
  }

  /** The parent goes too: now its own parent has a removed child. */
  lemma {:induction false} ClimbKeeps(h0: Graph, r0: Ref, limit: nat, v: View, pend: seq<Item>, at: Item, gone: Ref)
    requires Inv(h0, r0, limit, v, pend, at, gone) && at.Item? && ChainOk(v, at)
    ensures Inv(h0, r0, limit, Climbed(v, at), pend, at.parent, at.tok)
    ensures ChainOk(Climbed(v, at), at.parent)
  {
    hide Closed, UniqueParent, Acyclic, Orphan, Simulates, Stands, Live, Registered, Pending, Counted, Sized;
    var w := Climbed(v, at);
    ClimbLive(v, pend, at, gone);
    ClimbRegistered(h0, v, pend, at);
    ClimbPending(v, pend, at);
    ClimbCounted(h0, limit, v, pend, at);
    SizedOf(v, w);
    ClimbChain(v, at, at.parent);
  }

  lemma {:induction false} ClimbChain(v: View, at: Item, it: Item)
    requires at.Item? && ChainOk(v, it)
    ensures ChainOk(Climbed(v, at), it)
    decreases it
  {
    if it.Item? {
      ClimbChain(v, at, it.parent);
    }
  }

  lemma {:induction false} ClimbLive(v: View, pend: seq<Item>, at: Item, gone: Ref)
    requires Shape(v) && Live(v, pend, at, gone) && at.Item? && ChainOk(v, at)
    ensures Live(Climbed(v, at), pend, at.parent, at.tok)
  {
    hide Closed, UniqueParent, Acyclic, Orphan, InItems;
  }

  lemma {:induction false} ClimbRegistered(h0: Graph, v: View, pend: seq<Item>, at: Item)
    requires Registered(h0, v, pend) && at.Item?
    ensures Registered(h0, Climbed(v, at), pend)
  {
    hide InItems, Orphan;
    var w := Climbed(v, at);
    forall x | x in w.originals ensures KnownOk(w, x) { assert KnownOk(v, x); }
    forall o | o in w.clones ensures CloneOk(h0, w, o) && !InItems(pend, w.clones[o]) { assert CloneOk(h0, v, o); }
  }

  lemma {:induction false} ClimbPending(v: View, pend: seq<Item>, at: Item)
    requires Pending(v, pend) && at.Item?
    ensures Pending(Climbed(v, at), pend)
  {
    forall i | 0 <= i < |pend| ensures ItemOk(Climbed(v, at), pend[i]) {
      assert ItemOk(v, pend[i]);
      ClimbChain(v, at, pend[i].parent);
    }
  }

  lemma {:induction false} ClimbCounted(h0: Graph, limit: nat, v: View, pend: seq<Item>, at: Item)
    requires Counted(limit, v, pend) && at.Item?
    ensures Counted(limit, Climbed(v, at), pend)
  {
    var w := Climbed(v, at);
    forall r, k | r in w.done && r !in w.dead && r in w.h && k in Kids(w.h[r]) ensures EdgeCount(w, r, k) {
      assert EdgeCount(v, r, k);
    }
  }
}
