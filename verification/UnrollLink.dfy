/** Registering an original, and putting a clone in the place of a pointer, keep the invariant of UnrollState. */
module UnrollLink {
  import opened TokenGraphs
  import opened UnrollWords
  import opened UnrollState
  import opened UnrollSteps

  // ---------- a new original ----------

  /** c is an untouched copy of x that nobody refers to. */
  ghost predicate FreshCopy(h0: Graph, v: View, pend: seq<Item>, c: Ref, x: Ref) {
    && c in v.h && c !in v.done && !v.h[c].Pointer? && c !in v.originals && c !in h0 && c != v.root && c !in v.side
    && Orphan(v.h, c) && !InItems(pend, c)
    && c in v.src && x in v.src && v.src[c] == v.src[x]
  }

  lemma {:induction false} RegisterKeeps(h0: Graph, r0: Ref, limit: nat, v: View, pend: seq<Item>, gone: Ref, x: Ref,
          c: Ref)
    requires Inv(h0, r0, limit, v, pend, NoItem, gone)
    requires x in h0 && x in v.h && !v.h[x].Pointer? && x !in v.originals
    requires FreshCopy(h0, v, pend, c, x) && c != x
    ensures Inv(h0, r0, limit, v.(originals := v.originals[x := x], clones := v.clones[x := c]), pend, NoItem, gone)
  {
    hide Shape, Sourced, Sized, Registered, Pending, Live, Counted;
    RegisterRegistered(h0, v, pend, x, c);
    RegisterCounted(h0, limit, v, pend, x, c);
    RegisterPending(v, v.(originals := v.originals[x := x], clones := v.clones[x := c]), pend);
    RegisterRest(h0, r0, v, pend, gone, x, c);
  }

  lemma {:induction false} RegisterRest(h0: Graph, r0: Ref, v: View, pend: seq<Item>, gone: Ref, x: Ref, c: Ref)
    requires Shape(v) && Sourced(h0, r0, v) && Sized(v) && Live(v, pend, NoItem, gone)
    ensures var w := v.(originals := v.originals[x := x], clones := v.clones[x := c]);
            Shape(w) && Sourced(h0, r0, w) && Sized(w) && Live(w, pend, NoItem, gone)
  {
    hide Closed, UniqueParent, Acyclic, Orphan, Simulates, Stands, Exact, ClosedIn;
  }

  lemma {:induction false} RegisterRegistered(h0: Graph, v: View, pend: seq<Item>, x: Ref, c: Ref)
    requires Registered(h0, v, pend)
    requires x in h0 && x in v.h && !v.h[x].Pointer? && x !in v.originals
    requires FreshCopy(h0, v, pend, c, x) && c != x
    ensures Registered(h0, v.(originals := v.originals[x := x], clones := v.clones[x := c]), pend)
  {
    hide Orphan, InItems;
    var w := v.(originals := v.originals[x := x], clones := v.clones[x := c]);
    forall y | y in w.originals ensures KnownOk(w, y) {
      assert y != x ==> KnownOk(v, y);
    }
    forall o | o in w.clones ensures CloneOk(h0, w, o) && !InItems(pend, w.clones[o]) {
      assert o != x ==> CloneOk(h0, v, o);
    }
  }

  lemma {:induction false} RegisterCounted(h0: Graph, limit: nat, v: View, pend: seq<Item>, x: Ref, c: Ref)
    requires Counted(limit, v, pend) && x !in v.originals
    ensures Counted(limit, v.(originals := v.originals[x := x], clones := v.clones[x := c]), pend)
  {
    var w := v.(originals := v.originals[x := x], clones := v.clones[x := c]);
    forall r, k | r in v.done && r !in v.dead && r in v.h && k in Kids(v.h[r]) ensures EdgeCount(w, r, k) {
      assert EdgeCount(v, r, k);
    }
    assert forall k :: Expansion(w.originals, k) <==> Expansion(v.originals, k);
  }

  /** The worklist does not depend on what is known about originals. */
  lemma {:induction false} RegisterPending(v: View, w: View, pend: seq<Item>)
    requires Pending(v, pend) && w.h == v.h && w.done == v.done && w.root == v.root && w.side == v.side
    ensures Pending(w, pend)
  {
    forall i | 0 <= i < |pend| ensures ItemOk(w, pend[i]) {
      assert ItemOk(v, pend[i]);
      RegisterChain(v, w, pend[i].parent);
    }
  }

  lemma {:induction false} RegisterChain(v: View, w: View, it: Item)
    requires ChainOk(v, it) && w.h == v.h && w.done == v.done && w.root == v.root && w.side == v.side
    ensures ChainOk(w, it)
    decreases it
  {
    if it.Item? {
      RegisterChain(v, w, it.parent);
    }
  }

  // ---------- a clone in the place of a pointer ----------

  /** Set the pointer of the entry to c, and c in the pointer's place in its parent. */
  ghost function LinkedGraph(h: Graph, item: Item, c: Ref): Graph
    requires item.Item?
  {
    var h1 := h[item.tok := Pointer(Some(c))];
    if item.parent.Item? && item.parent.tok in h1
    then h1[item.parent.tok := ReplaceIn(h1[item.parent.tok], item.tok, c)]
    else h1
  }

  ghost function LinkedItem(item: Item, c: Ref, original: Ref): Item
    requires item.Item?
  {
    Item(c, item.parent, item.counts[original := CountOf(item.counts, original) + 1])
  }

  ghost function Linked(v: View, item: Item, c: Ref, original: Ref): View
    requires item.Item?
  {
    v.(h := LinkedGraph(v.h, item, c),
       root := if item.parent.NoItem? then c else v.root,
       originals := v.originals[c := original],
       done := v.done + {item.tok},
       dead := v.dead + {item.tok},
       cnt := v.cnt[c := item.counts[original := CountOf(item.counts, original) + 1]])
  }

  /** When the entry's pointer may be replaced by c, a clone of what is kept for `original`. */
  ghost predicate Linkable(h0: Graph, limit: nat, v: View, item: Item, rest: seq<Item>, c: Ref, original: Ref) {
    && item.Item? && item.tok in v.h && v.h[item.tok].Pointer?
    && original in v.clones
    && FreshCopy(h0, v, [item] + rest, c, original)
    && (forall r :: r in v.done && r in v.rank && c in v.rank ==> v.rank[c] < v.rank[r])
    && item.tok in v.src && Stands(h0, v.src[item.tok], v.src[c])
    && CountOf(item.counts, original) < limit
    && (forall o :: o in v.clones ==> v.clones[o] != c)
  }

  /** The only children that change are those of the parent. */
  lemma {:induction false} LinkKids(v: View, item: Item, c: Ref, r: Ref)
    requires ItemOk(v, item) && v.h[item.tok].Pointer? && r in v.h
    ensures r in LinkedGraph(v.h, item, c)
    ensures Kids(LinkedGraph(v.h, item, c)[r])
              == if item.parent.Item? && r == item.parent.tok then Replaced(Kids(v.h[r]), item.tok, c) else Kids(v.h[r])
    ensures LinkedGraph(v.h, item, c)[r].Pointer? == v.h[r].Pointer?
    ensures item.parent.Item? ==> item.parent.tok in v.h && item.parent.tok in v.done && !v.h[item.parent.tok].Pointer?
  {
    assert ChainOk(v, item.parent);
  }

  /** Every child after the linking was one before, or is c in the place of the pointer. */
  lemma {:induction false} LinkEdge(v: View, item: Item, c: Ref, r: Ref, k: Ref)
    requires ItemOk(v, item) && v.h[item.tok].Pointer? && r in v.h
    requires k in Kids(LinkedGraph(v.h, item, c)[r])
    ensures (k in Kids(v.h[r]) && (item.parent.Item? && r == item.parent.tok ==> k != item.tok))
         || (k == c && item.parent.Item? && r == item.parent.tok && item.tok in Kids(v.h[r]))
  {
    LinkKids(v, item, c, r);
    if item.parent.Item? && r == item.parent.tok {
      var ts := Kids(v.h[r]);
      var i :| 0 <= i < |ts| && Replaced(ts, item.tok, c)[i] == k;
    }
  }

  lemma {:induction false} LinkKeys(v: View, item: Item, c: Ref)
    requires item.Item? && item.tok in v.h
    ensures LinkedGraph(v.h, item, c).Keys == v.h.Keys
  {
  }

  lemma {:induction false} LinkUnique(h: Graph, g: Graph, p: Ref, t: Ref, c: Ref)
    requires UniqueParent(h) && g.Keys == h.Keys && Orphan(h, c)
    requires forall r :: r in h ==> Kids(g[r]) == Kids(h[r]) || (r == p && Kids(g[r]) == Replaced(Kids(h[r]), t, c))
    ensures UniqueParent(g)
  {
    forall r | r in g ensures NoRepeats(Kids(g[r])) {
      var ts := Kids(h[r]);
      assert NoRepeats(ts);
      if Kids(g[r]) != ts {
        forall i, j | 0 <= i < j < |ts| ensures Kids(g[r])[i] != Kids(g[r])[j] {
          assert ts[i] in ts && ts[j] in ts;
        }
      }
    }
    forall r, k | r in g && k in Kids(g[r]) ensures k in Kids(h[r]) || (k == c && r == p) {
      var i :| 0 <= i < |Kids(g[r])| && Kids(g[r])[i] == k;
      assert Kids(h[r])[i] in Kids(h[r]);
    }
  }

  lemma {:induction false} LinkUniqueParent(v: View, item: Item, c: Ref)
    requires UniqueParent(v.h) && ItemOk(v, item) && v.h[item.tok].Pointer? && Orphan(v.h, c)
    ensures UniqueParent(LinkedGraph(v.h, item, c))
  {
    hide UniqueParent, Orphan;
    var g := LinkedGraph(v.h, item, c);
    LinkKeys(v, item, c);
    var p := if item.parent.Item? then item.parent.tok else 0;
    forall r | r in v.h
      ensures Kids(g[r]) == Kids(v.h[r]) || (r == p && Kids(g[r]) == Replaced(Kids(v.h[r]), item.tok, c))
    {
      LinkKids(v, item, c, r);
    }
    LinkUnique(v.h, g, p, item.tok, c);
  }

  lemma {:induction false} LinkDescent(v: View, item: Item, c: Ref, r: Ref, k: Ref)
    requires Shape(v) && ItemOk(v, item) && v.h[item.tok].Pointer? && c in v.h && Orphan(v.h, c) && c != v.root
    requires forall r :: r in v.done && r in v.rank && c in v.rank ==> v.rank[c] < v.rank[r]
    requires c !in v.side && r in v.h && k in Kids(LinkedGraph(v.h, item, c)[r])
    ensures k in v.h && v.rank[k] < v.rank[r]
    ensures r !in v.side ==> k !in v.side && k != (if item.parent.NoItem? then c else v.root)
  {
    hide UniqueParent, LinkedGraph, ChainOk;
    LinkEdge(v, item, c, r, k);
    LinkKids(v, item, c, r);
  }

  lemma {:induction false} LinkShape(h0: Graph, limit: nat, v: View, item: Item, rest: seq<Item>, c: Ref, original: Ref)
    requires Shape(v) && ItemOk(v, item) && Linkable(h0, limit, v, item, rest, c, original)
    ensures Shape(Linked(v, item, c, original))
  {
    hide UniqueParent, LinkedGraph, ChainOk, Stands, InItems, OnlyParent, Acyclic, Closed, Orphan, Apart, Aside, Kids;
    LinkKeys(v, item, c);
    LinkUniqueParent(v, item, c);
    RanksAll(v);
    LinkDescending(v, item, c);
  }

  lemma {:induction false} LinkDescending(v: View, item: Item, c: Ref)
    requires Shape(v) && ItemOk(v, item) && v.h[item.tok].Pointer? && c in v.h && Orphan(v.h, c) && c != v.root
    requires c !in v.side
    requires forall r :: r in v.done && r in v.rank && c in v.rank ==> v.rank[c] < v.rank[r]
    ensures Closed(LinkedGraph(v.h, item, c)) && Acyclic(LinkedGraph(v.h, item, c), v.rank)
    ensures Apart(LinkedGraph(v.h, item, c), v.side, if item.parent.NoItem? then c else v.root)
    ensures Aside(LinkedGraph(v.h, item, c), v.side)
  {
    hide LinkedGraph, ChainOk, OnlyParent, Acyclic, Closed, UniqueParent;
    var g, root := LinkedGraph(v.h, item, c), if item.parent.NoItem? then c else v.root;
    LinkKeys(v, item, c);
    RanksAll(v);
    forall r, k | r in g && k in Kids(g[r]) 
      ensures k in g && k in v.rank && r in v.rank && v.rank[k] < v.rank[r]
      ensures r !in v.side ==> k !in v.side && k != root
    {
      LinkDescent(v, item, c, r, k);
    }
    Descending(g, v.rank);
  }

  lemma {:induction false} RanksAll(v: View)
    requires Shape(v)
    ensures v.h.Keys <= v.rank.Keys
  {
  }

  lemma {:induction false} Descending(g: Graph, rank: map<Ref, nat>)
    requires g.Keys <= rank.Keys
    requires forall r, k :: r in g && k in Kids(g[r]) ==> k in g && rank[k] < rank[r]
    ensures Closed(g) && Acyclic(g, rank)
  {
  }

  lemma {:induction false} LinkSimulates(h0: Graph, v: View, item: Item, c: Ref)
    requires Simulates(h0, v.h, v.src) && v.src.Keys == v.h.Keys && ItemOk(v, item) && v.h[item.tok].Pointer?
    requires c in v.h && !v.h[c].Pointer? && Stands(h0, v.src[item.tok], v.src[c])
    ensures Simulates(h0, LinkedGraph(v.h, item, c), v.src)
  {
    hide Replaceable, Matches, Stands, Simulates, ChainOk, OnlyParent;
    var t := item.tok;
    SourceKind(h0, v.h, v.src, t);
    SourceKind(h0, v.h, v.src, c);
    StandsBeyond(h0, v.src[t], v.src[c]);
    SimulatesSet(h0, v.h, v.src, t, Some(c));
    ReplaceableBy(h0, v.src, t, c);
    LinkKids(v, item, c, t);
    if item.parent.Item? {
      SimulatesReplace(h0, v.h[t := Pointer(Some(c))], v.src, item.parent.tok, t, c);
    }
  }

  lemma {:induction false} LinkSourced(h0: Graph, r0: Ref, limit: nat, v: View, item: Item, rest: seq<Item>, c: Ref,
          original: Ref)
    requires Sourced(h0, r0, v) && ItemOk(v, item) && Linkable(h0, limit, v, item, rest, c, original)
    ensures Sourced(h0, r0, Linked(v, item, c, original))
  {
    hide Simulates, Stands, LinkedGraph, InItems, Orphan, ChainOk, OnlyParent;
    LinkSimulates(h0, v, item, c);
    LinkKeys(v, item, c);
    if item.parent.NoItem? {
      StandsOn(h0, r0, v.src[item.tok], v.src[c]);
    }
  }

  lemma {:induction false} SourceKind(h0: Graph, h: Graph, src: Source, r: Ref)
    requires Simulates(h0, h, src) && r in h
    ensures r in src && src[r] in h0 && h0[src[r]].Pointer? == h[r].Pointer?
  {
    assert SimNode(h0, src, h[r], h0[src[r]]);
  }

  // ---------- sizes ----------

  lemma {:induction false} LinkSized(v: View, item: Item, c: Ref, original: Ref)
    requires Sized(v) && ItemOk(v, item) && v.h[item.tok].Pointer?
    ensures Sized(Linked(v, item, c, original))
  {
    var w := Linked(v, item, c, original);
    LinkKeys(v, item, c);
    forall r | r in Unvisited(w)
      ensures r in Unvisited(v) && Kids(w.h[r]) == Kids(v.h[r])
      ensures forall k :: k in Kids(v.h[r]) ==> k in Unvisited(w)
    {
      hide SizeAll, SizeOf, LinkedGraph, Exact;
      LinkUnvisited(v, item, c, original, r);
    }
    hide Linked, LinkedGraph, ItemOk;
  }

  lemma {:induction false} LinkUnvisited(v: View, item: Item, c: Ref, original: Ref, r: Ref)
    requires Sized(v) && ItemOk(v, item) && v.h[item.tok].Pointer? && r in Unvisited(Linked(v, item, c, original))
    ensures r in Unvisited(v) && r in LinkedGraph(v.h, item, c) && Kids(LinkedGraph(v.h, item, c)[r]) == Kids(v.h[r])
    ensures forall k :: k in Kids(v.h[r]) ==> k in Unvisited(Linked(v, item, c, original))
  {
    hide Exact, ChainOk, LinkedGraph;
    LinkKeys(v, item, c);
    LinkKids(v, item, c, r);
    if item.tok in Kids(v.h[r]) {
      ParentDone(v, item, r);
    }
    forall k | k in Kids(v.h[r]) ensures k in Unvisited(Linked(v, item, c, original)) {
      assert k in Unvisited(v) && k != item.tok;
    }
  }

  // ---------- originals ----------

  lemma {:induction false} LinkKnown(h0: Graph, limit: nat, v: View, item: Item, rest: seq<Item>, c: Ref,
          original: Ref, x: Ref)
    requires ItemOk(v, item) && Linkable(h0, limit, v, item, rest, c, original)
    requires x == c || KnownOk(v, x)
    ensures KnownOk(Linked(v, item, c, original), x)
  {
    hide LinkedGraph, ChainOk, OnlyParent, Stands, Orphan, InItems;
    LinkKeys(v, item, c);
    LinkKids(v, item, c, x);
  }

  lemma {:induction false} LinkClone(h0: Graph, limit: nat, v: View, item: Item, rest: seq<Item>, c: Ref,
          original: Ref, o: Ref)
    requires ItemOk(v, item) && Linkable(h0, limit, v, item, rest, c, original)
    requires CloneOk(h0, v, o) && !InItems([item] + rest, v.clones[o])
    ensures CloneOk(h0, Linked(v, item, c, original), o)
    ensures !InItems([LinkedItem(item, c, original)] + rest, v.clones[o])
  {
    hide LinkedGraph, ChainOk, OnlyParent, Stands, InItems;
    var w, y := Linked(v, item, c, original), v.clones[o];
    LinkKeys(v, item, c);
    LinkKids(v, item, c, y);
    InItemsHead(item, rest, y);
    InItemsHead(LinkedItem(item, c, original), rest, y);
    forall r | r in w.h ensures y !in Kids(w.h[r]) {
      if y in Kids(w.h[r]) {
        LinkEdge(v, item, c, r, y);
      }
    }
  }

  lemma {:induction false} LinkTargets(h0: Graph, v: View, item: Item, c: Ref, s: set<Ref>)
    requires ItemOk(v, item) && v.h[item.tok].Pointer? && TargetsIn(v.h, s)
    ensures TargetsIn(LinkedGraph(v.h, item, c), s + {c})
  {
    hide ChainOk;
    LinkKeys(v, item, c);
    assert ChainOk(v, item.parent);
    LinkKids(v, item, c, item.tok);
  }

  lemma {:induction false} LinkRegistered(h0: Graph, limit: nat, v: View, item: Item, rest: seq<Item>, c: Ref,
          original: Ref)
    requires Registered(h0, v, [item] + rest) && ItemOk(v, item) && Linkable(h0, limit, v, item, rest, c, original)
    ensures Registered(h0, Linked(v, item, c, original), [LinkedItem(item, c, original)] + rest)
  {
    hide LinkedGraph, ItemOk, CloneOk, KnownOk, InItems, FreshCopy, Stands;
    var w := Linked(v, item, c, original);
    forall x | x in w.originals ensures KnownOk(w, x) {
      LinkKnown(h0, limit, v, item, rest, c, original, x);
    }
    forall o | o in w.clones
      ensures CloneOk(h0, w, o) && !InItems([LinkedItem(item, c, original)] + rest, w.clones[o])
    {
      LinkClone(h0, limit, v, item, rest, c, original, o);
    }
    LinkTargets(h0, v, item, c, h0.Keys + v.originals.Keys);
    assert h0.Keys + v.originals.Keys + {c} == h0.Keys + w.originals.Keys;
  }

  // ---------- the worklist ----------

  lemma {:induction false} LinkOnlyParent(v: View, item: Item, c: Ref, k: Ref, parent: Item)
    requires ItemOk(v, item) && v.h[item.tok].Pointer? && k != c
    requires OnlyParent(v.h, v.side, k, parent)
    ensures OnlyParent(LinkedGraph(v.h, item, c), v.side, k, parent)
  {
    LinkKeys(v, item, c);
    forall p | p in v.h && p !in v.side && k in Kids(LinkedGraph(v.h, item, c)[p])
      ensures parent.Item? && p == parent.tok {
      hide LinkedGraph, ChainOk;
      LinkEdge(v, item, c, p, k);
    }
  }

  lemma {:induction false} LinkChain(h0: Graph, limit: nat, v: View, item: Item, rest: seq<Item>, c: Ref,
          original: Ref, it: Item)
    requires ItemOk(v, item) && Linkable(h0, limit, v, item, rest, c, original) && ChainOk(v, it)
    requires item.parent.NoItem? ==> item.tok == v.root
    ensures ChainOk(Linked(v, item, c, original), it)
    decreases it
  {
    if it.Item? {
      hide LinkedGraph, Stands, InItems, Orphan;
      LinkKeys(v, item, c);
      LinkKids(v, item, c, it.tok);
      LinkOnlyParent(v, item, c, it.tok, it.parent);
      LinkChain(h0, limit, v, item, rest, c, original, it.parent);
    }
  }

  lemma {:induction false} LinkItem(h0: Graph, limit: nat, v: View, item: Item, rest: seq<Item>, c: Ref,
          original: Ref, it: Item)
    requires ItemOk(v, item) && Linkable(h0, limit, v, item, rest, c, original)
    requires ItemOk(v, it) && it.tok != item.tok && it.tok != c
    ensures ItemOk(Linked(v, item, c, original), it)
  {
    hide LinkedGraph, Stands, InItems, Orphan, OnlyParent, ChainOk;
    LinkKeys(v, item, c);
    LinkOnlyParent(v, item, c, it.tok, it.parent);
    LinkChain(h0, limit, v, item, rest, c, original, it.parent);
  }

  lemma {:induction false} LinkNewItem(h0: Graph, limit: nat, v: View, item: Item, rest: seq<Item>, c: Ref,
          original: Ref)
    requires ItemOk(v, item) && Linkable(h0, limit, v, item, rest, c, original)
    ensures ItemOk(Linked(v, item, c, original), LinkedItem(item, c, original))
  {
    LinkKeys(v, item, c);
    LinkChain(h0, limit, v, item, rest, c, original, item.parent);
    LinkNewParent(v, item, c);
    hide LinkedGraph, ChainOk, OnlyParent, Stands, InItems;
  }

  lemma {:induction false} LinkNewParent(v: View, item: Item, c: Ref)
    requires ItemOk(v, item) && v.h[item.tok].Pointer? && Orphan(v.h, c)
    ensures OnlyParent(LinkedGraph(v.h, item, c), v.side, c, item.parent)
  {
    LinkKeys(v, item, c);
    forall p | p in v.h && c in Kids(LinkedGraph(v.h, item, c)[p])
      ensures item.parent.Item? && p == item.parent.tok
    {
      hide LinkedGraph, ChainOk;
      LinkEdge(v, item, c, p, c);
    }
  }

  lemma {:induction false} LinkPending(h0: Graph, limit: nat, v: View, item: Item, rest: seq<Item>, c: Ref,
          original: Ref)
    requires Pending(v, [item] + rest) && Linkable(h0, limit, v, item, rest, c, original)
    ensures Pending(Linked(v, item, c, original), [LinkedItem(item, c, original)] + rest)
  {
    hide LinkedGraph, OnlyParent, ChainOk, Stands, Orphan, Linked;
    var w, pend, more := Linked(v, item, c, original), [item] + rest, [LinkedItem(item, c, original)] + rest;
    assert pend[0] == item && ItemOk(v, item);
    LinkNewItem(h0, limit, v, item, rest, c, original);
    forall i | 0 < i < |more| ensures ItemOk(w, more[i]) && more[i] == pend[i] && more[i].tok != c {
      assert more[i] == pend[i] && ItemOk(v, pend[i]) && pend[0].tok != pend[i].tok;
      assert !InItems(pend, c);
      LinkItem(h0, limit, v, item, rest, c, original, more[i]);
    }
  }

  // ---------- what is reachable, and counts ----------

  lemma {:induction false} LinkLive(h0: Graph, limit: nat, v: View, item: Item, rest: seq<Item>, c: Ref,
          original: Ref, gone: Ref)
    requires Shape(v) && ItemOk(v, item) && Linkable(h0, limit, v, item, rest, c, original)
    requires Live(v, [item] + rest, NoItem, gone)
    ensures Live(Linked(v, item, c, original), [LinkedItem(item, c, original)] + rest, NoItem, gone)
  {
    hide LinkedGraph, ChainOk, Stands, Orphan, InItems, UniqueParent, Acyclic, Closed;
    var w, t := Linked(v, item, c, original), item.tok;
    var pend, more := [item] + rest, [LinkedItem(item, c, original)] + rest;
    LinkKeys(v, item, c);
    forall k ensures InItems(more, k) <==> k == c || InItems(rest, k)
             ensures InItems(pend, k) <==> k == t || InItems(rest, k) {
      InItemsHead(item, rest, k);
      InItemsHead(LinkedItem(item, c, original), rest, k);
    }
    forall r | r in w.done && r !in w.dead ensures r in w.h && !w.h[r].Pointer? {
      LinkKids(v, item, c, r);
    }
    forall r, k | r in w.done && r !in w.dead && r in w.h && k in Kids(w.h[r])
      ensures k !in w.dead && (k in w.done || InItems(more, k))
    {
      LinkLiveEdge(h0, limit, v, item, rest, c, original, gone, r, k);
    }
  }

  lemma {:induction false} LinkLiveEdge(h0: Graph, limit: nat, v: View, item: Item, rest: seq<Item>, c: Ref,
          original: Ref, gone: Ref, r: Ref, k: Ref)
    requires Shape(v) && ItemOk(v, item) && Linkable(h0, limit, v, item, rest, c, original)
    requires Live(v, [item] + rest, NoItem, gone)
    requires forall k :: InItems([LinkedItem(item, c, original)] + rest, k) <==> k == c || InItems(rest, k)
    requires forall k :: InItems([item] + rest, k) <==> k == item.tok || InItems(rest, k)
    requires r in v.h && r in v.done && r !in v.dead && k in Kids(LinkedGraph(v.h, item, c)[r])
    ensures k !in v.dead + {item.tok}
        && (k in v.done + {item.tok} || InItems([LinkedItem(item, c, original)] + rest, k))
  {
    hide LinkedGraph, ChainOk, Stands, Orphan, InItems, UniqueParent, Acyclic, Closed;
    LinkEdge(v, item, c, r, k);
    LinkKids(v, item, c, r);
  }

  lemma {:induction false} LinkEdgeCounts(h0: Graph, limit: nat, v: View, item: Item, rest: seq<Item>, c: Ref,
          original: Ref)
    requires ItemOk(v, item) && Linkable(h0, limit, v, item, rest, c, original) && EdgeCounts(v)
    requires item.tok in v.cnt && v.cnt[item.tok] == item.counts && !Expansion(v.originals, item.tok)
    requires c !in v.done && original != c
    ensures EdgeCounts(Linked(v, item, c, original))
  {
    hide LinkedGraph, ChainOk, Stands, Orphan, InItems, OnlyParent;
    var w := Linked(v, item, c, original);
    LinkKeys(v, item, c);
    forall r, k | r in w.done && r !in w.dead && r in w.h && k in Kids(w.h[r]) ensures EdgeCount(w, r, k) {
      LinkEdge(v, item, c, r, k);
      if k in Kids(v.h[r]) {
        OrphanNotBelow(v.h, c, r);
        assert EdgeCount(v, r, k);
      } else {
        assert EdgeCount(v, r, item.tok);
      }
    }
  }

  lemma {:induction false} LinkNoExpansion(h0: Graph, limit: nat, v: View, item: Item, rest: seq<Item>, c: Ref,
          original: Ref)
    requires ItemOk(v, item) && Linkable(h0, limit, v, item, rest, c, original) && NoExpansionBelow(v)
    ensures NoExpansionBelow(Linked(v, item, c, original))
  {
    hide LinkedGraph, ChainOk, Stands, InItems, OnlyParent;
    var w := Linked(v, item, c, original);
    LinkKeys(v, item, c);
    forall r, k | r in w.h && r !in w.done && r !in w.side && k in Kids(w.h[r])
      ensures !Expansion(w.originals, k)
    {
      LinkEdge(v, item, c, r, k);
      LinkKids(v, item, c, r);
      OrphanNotBelow(v.h, c, r);
      assert r !in v.done && k in Kids(v.h[r]) && k != c;
      assert !Expansion(v.originals, k);
    }
  }

  lemma {:induction false} LinkItemCounts(h0: Graph, limit: nat, v: View, item: Item, rest: seq<Item>, c: Ref,
          original: Ref)
    requires Linkable(h0, limit, v, item, rest, c, original) && ItemCounts(v, [item] + rest)
    ensures ItemCounts(Linked(v, item, c, original), [LinkedItem(item, c, original)] + rest)
  {
    hide LinkedGraph, Stands, Orphan;
    var pend, more := [item] + rest, [LinkedItem(item, c, original)] + rest;
    forall i | 0 < i < |more| && more[i].Item? ensures more[i] == pend[i] && more[i].tok != c {
      assert more[i] == pend[i];
      assert !InItems(pend, c);
    }
  }

  lemma {:induction false} FirstItemCount(v: View, item: Item, rest: seq<Item>)
    requires item.Item? && ItemCounts(v, [item] + rest)
    ensures item.tok in v.cnt && v.cnt[item.tok] == item.counts
  {
    assert ([item] + rest)[0] == item;
  }

  lemma {:induction false} LinkCounted(h0: Graph, limit: nat, v: View, item: Item, rest: seq<Item>, c: Ref,
          original: Ref)
    requires Pending(v, [item] + rest) && Registered(h0, v, [item] + rest)
    requires Linkable(h0, limit, v, item, rest, c, original) && Counted(limit, v, [item] + rest)
    ensures Counted(limit, Linked(v, item, c, original), [LinkedItem(item, c, original)] + rest)
  {
    hide LinkedGraph, ChainOk, Stands, Orphan, OnlyParent, EdgeCounts, NoExpansionBelow, ItemCounts, Bumped, InItems,
        CountsOk;
    var w, pend, more := Linked(v, item, c, original), [item] + rest, [LinkedItem(item, c, original)] + rest;
    assert pend[0] == item && ItemOk(v, item);
    FirstItemCount(v, item, rest);
    assert CloneOk(h0, v, original);
    assert item.tok in v.originals ==> KnownOk(v, item.tok);
    LinkNoExpansion(h0, limit, v, item, rest, c, original);
    LinkEdgeCounts(h0, limit, v, item, rest, c, original);
    LinkItemCounts(h0, limit, v, item, rest, c, original);
    LinkRootCount(h0, limit, v, item, rest, c, original);
    LinkCountsOk(h0, limit, v, item, rest, c, original);
  }

  lemma {:induction false} LinkCountsOk(h0: Graph, limit: nat, v: View, item: Item, rest: seq<Item>, c: Ref,
          original: Ref)
    requires Linkable(h0, limit, v, item, rest, c, original) && CloneOk(h0, v, original)
    requires item.tok in v.cnt && v.cnt[item.tok] == item.counts
    requires forall r :: r in v.cnt ==> CountsOk(v.clones.Keys, limit, v.cnt[r])
    ensures forall r :: r in Linked(v, item, c, original).cnt ==>
        CountsOk(v.clones.Keys, limit, Linked(v, item, c, original).cnt[r])
  {
    assert CountsOk(v.clones.Keys, limit, item.counts);
  }

  lemma {:induction false} LinkRootCount(h0: Graph, limit: nat, v: View, item: Item, rest: seq<Item>, c: Ref,
          original: Ref)
    requires Linkable(h0, limit, v, item, rest, c, original) && ItemOk(v, item) && CloneOk(h0, v, original)
    requires item.tok in v.cnt && v.cnt[item.tok] == item.counts && !Expansion(v.originals, item.tok)
    requires v.root in v.cnt && v.cnt[v.root] == Bumped(map[], v.originals, v.root)
    ensures var w := Linked(v, item, c, original);
            w.root in w.cnt && w.cnt[w.root] == Bumped(map[], w.originals, w.root)
  {
    hide LinkedGraph, Stands, Orphan, InItems, ChainOk, OnlyParent;
  }

  /** Putting the clone in the place of the pointer keeps everything. */
  lemma {:induction false} LinkKeeps(h0: Graph, r0: Ref, limit: nat, v: View, item: Item, rest: seq<Item>, c: Ref,
          original: Ref, gone: Ref)
    requires Inv(h0, r0, limit, v, [item] + rest, NoItem, gone)
    requires Linkable(h0, limit, v, item, rest, c, original)
    ensures Inv(h0, r0, limit, Linked(v, item, c, original), [LinkedItem(item, c, original)] + rest, NoItem, gone)
  {
    hide Shape, Sourced, Sized, Registered, Live, Counted, Linkable, Linked, ItemOk;
    assert ([item] + rest)[0] == item && ItemOk(v, item);
    LinkShape(h0, limit, v, item, rest, c, original);
    LinkSourced(h0, r0, limit, v, item, rest, c, original);
    LinkSizedOf(h0, limit, v, item, rest, c, original);
    LinkRegistered(h0, limit, v, item, rest, c, original);
    LinkPending(h0, limit, v, item, rest, c, original);
    LinkLive(h0, limit, v, item, rest, c, original, gone);
    LinkCounted(h0, limit, v, item, rest, c, original);
  }

  lemma {:induction false} LinkSizedOf(h0: Graph, limit: nat, v: View, item: Item, rest: seq<Item>, c: Ref,
          original: Ref)
    requires Sized(v) && ItemOk(v, item) && Linkable(h0, limit, v, item, rest, c, original)
    ensures Sized(Linked(v, item, c, original))
  {
    hide Sized, ItemOk, Linked, FreshCopy, Stands;
    LinkSized(v, item, c, original);
  }
}
