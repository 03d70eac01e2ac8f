/**
 * UnrollPointers (token/transform.go:76-337) as a machine that takes one entry from the worklist at a
 * step. The machine is deterministic; the methods of module Unroll run it.
 */
module UnrollMachine {
  import opened Onces
  import opened TokenGraphs
  import opened UnrollState
  import opened UnrollSteps
  import opened UnrollCopy
  import opened UnrollLink
  import opened UnrollRemoval

  /** How a run ends: the worklist is empty, a pointer is not set, or a loop without pointers was found. */
  datatype Outcome = Unrolled | NilPointer | Endless

  /** What a run changes. */
  datatype Machine = Machine(
    h: Graph,
    next: Ref,
    root: Ref,
    originals: map<Ref, Ref>,
    clones: map<Ref, Ref>,
    queue: seq<Item>,
    /** pointerlessLoopDetection */
    seen: set<Ref>,
    climbed: bool)

  // ---------- cloning ----------

  /** The graph, the next free reference, and the clone of r. */
  ghost function CloneOf(h: Graph, n: Ref, r: Ref, fuel: nat): (Graph, Ref, Ref)
    decreases fuel, 0
  {
    if fuel == 0 || r !in h then (h, n, r)
    else
      var (g, m, cs) := CloneAllOf(h, n, Kids(h[r]), fuel - 1);
      (g[m := WithKids(h[r], cs)], m + 1, m)
  }

  ghost function CloneAllOf(h: Graph, n: Ref, ts: seq<Ref>, fuel: nat): (p: (Graph, Ref, seq<Ref>))
    ensures |p.2| == |ts|
    decreases fuel, |ts|
  {
    if ts == [] then (h, n, [])
    else
      var (h1, n1, c) := CloneOf(h, n, ts[0], fuel);
      var (h2, n2, cs) := CloneAllOf(h1, n1, ts[1..], fuel);
      (h2, n2, [c] + cs)
  }

  ghost predicate ClonedFrom(fuel0: nat, h: Graph, n: Ref, r: Ref, g: Graph, m: Ref, c: Ref) {
    forall fuel: nat :: fuel >= fuel0 ==> CloneOf(h, n, r, fuel) == (g, m, c)
  }

  ghost predicate AllClonedFrom(fuel0: nat, h: Graph, n: Ref, ts: seq<Ref>, g: Graph, m: Ref, cs: seq<Ref>) {
    forall fuel: nat :: fuel >= fuel0 ==> CloneAllOf(h, n, ts, fuel) == (g, m, cs)
  }

  /** Cloning r ends, with the graph g and the clone c. */
  ghost predicate Cloned(h: Graph, n: Ref, r: Ref, g: Graph, m: Ref, c: Ref) {
    exists fuel0: nat :: ClonedFrom(fuel0, h, n, r, g, m, c)
  }

  lemma {:induction false} ClonedBelow(h: Graph, n: Ref, r: Ref, bound: nat, h1: Graph, n1: Ref, cs: seq<Ref>)
    requires r in h && AllClonedFrom(bound, h, n, Kids(h[r]), h1, n1, cs) && |cs| == |Kids(h[r])|
    ensures ClonedFrom(bound + 1, h, n, r, h1[n1 := WithKids(h[r], cs)], n1 + 1, n1)
  {
    forall fuel: nat | fuel >= bound + 1
      ensures CloneOf(h, n, r, fuel) == (h1[n1 := WithKids(h[r], cs)], n1 + 1, n1)
    {
      assert CloneAllOf(h, n, Kids(h[r]), fuel - 1) == (h1, n1, cs);
    }
  }

  lemma {:induction false} AllClonedNext(bound: nat, h: Graph, n: Ref, ts: seq<Ref>, rank: nat, h1: Graph, n1: Ref,
          c: Ref, g: Graph, m: Ref, cs: seq<Ref>)
    requires ts != [] && rank < bound && ClonedFrom(rank + 1, h, n, ts[0], h1, n1, c)
    requires AllClonedFrom(bound, h1, n1, ts[1..], g, m, cs)
    ensures AllClonedFrom(bound, h, n, ts, g, m, [c] + cs)
  {
    forall fuel: nat | fuel >= bound ensures CloneAllOf(h, n, ts, fuel) == (g, m, [c] + cs) {
      assert CloneOf(h, n, ts[0], fuel) == (h1, n1, c);
      assert CloneAllOf(h1, n1, ts[1..], fuel) == (g, m, cs);
    }
  }

  // ---------- a clone is a fresh copy ----------

  lemma {:induction false} CloneOfCopies(h: Graph, n: Ref, r: Ref, fuel: nat, dom: set<Ref>, rank: map<Ref, nat>)
    returns (o: map<Ref, Ref>)
    requires r in dom && r in h && r in rank && rank[r] < fuel && forall x :: x in h ==> x < n
    requires Copyable(h, dom, rank)
    ensures var (g, m, c) := CloneOf(h, n, r, fuel);
            CopyOf(h, n, g, m, o, dom) && c in o && o[c] == r && NotBelow(g, o, c) && forall x :: x in g ==> x < m
    decreases rank[r], 1, 0
  {
    hide CopyOf, NotBelow, CopiesOf, WithKids;
    KidsRankBelow(h, dom, rank, r);
    hide Copyable;
    o := CloneAllOfCopies(h, n, Kids(h[r]), fuel - 1, dom, rank, rank[r]);
    var (g, m, cs) := CloneAllOf(h, n, Kids(h[r]), fuel - 1);
    CopyRoot(h, n, g, m, o, dom, r, cs);
    o := o[m := r];
  }

  lemma {:induction false} KidsRankBelow(h: Graph, dom: set<Ref>, rank: map<Ref, nat>, r: Ref)
    requires Copyable(h, dom, rank) && r in dom && r in h
    ensures r in rank && RanksBelow(Kids(h[r]), dom, rank, rank[r])
  {
    forall i | 0 <= i < |Kids(h[r])|
      ensures Kids(h[r])[i] in dom && Kids(h[r])[i] in rank && rank[Kids(h[r])[i]] < rank[r]
    {
      assert Kids(h[r])[i] in Kids(h[r]);
    }
  }

  lemma {:induction false} CloneAllOfCopies(h: Graph, n: Ref, ts: seq<Ref>, fuel: nat, dom: set<Ref>,
          rank: map<Ref, nat>, bound: nat) returns (o: map<Ref, Ref>)
    requires RanksBelow(ts, dom, rank, bound) && bound <= fuel && forall x :: x in h ==> x < n
    requires Copyable(h, dom, rank)
    ensures var (g, m, cs) := CloneAllOf(h, n, ts, fuel);
            CopyOf(h, n, g, m, o, dom) && CopiesOf(cs, ts, g, o) && forall x :: x in g ==> x < m
    decreases bound, 0, |ts|
  {
    if ts == [] {
      o := map[];
    } else {
      hide CopyOf, NotBelow, CopiesOf, RankWith;
      CopyableIn(h, dom, rank);
      hide Copyable;
      var o1 := CloneOfCopies(h, n, ts[0], fuel, dom, rank);
      var (h1, n1, c) := CloneOf(h, n, ts[0], fuel);
      var rank1 := RankWith(rank, o1);
      RankOfCopies(h, n, h1, n1, o1, dom, rank);
      RanksBelowRest(ts, dom, rank, rank1, bound);
      var o2 := CloneAllOfCopies(h1, n1, ts[1..], fuel, dom, rank1, bound);
      var (h2, n2, rest) := CloneAllOf(h1, n1, ts[1..], fuel);
      CopyTwice(h, n, h1, n1, o1, h2, n2, o2, dom);
      o := o1 + o2;
      CopiesApart(h, n, h1, n1, o1, h2, n2, o2, dom, c, rest, ts);
    }
  }

  lemma {:induction false} ClonedCopies(h: Graph, n: Ref, r: Ref, g: Graph, m: Ref, c: Ref, dom: set<Ref>,
          rank: map<Ref, nat>) returns (o: map<Ref, Ref>)
    requires r in dom && r in h && r in rank && (forall x :: x in h ==> x < n) && Cloned(h, n, r, g, m, c)
    requires Copyable(h, dom, rank)
    ensures CopyOf(h, n, g, m, o, dom) && c in o && o[c] == r && NotBelow(g, o, c) && forall x :: x in g ==> x < m
  {
    hide CopyOf, NotBelow, Copyable;
    var fuel0: nat :| ClonedFrom(fuel0, h, n, r, g, m, c);
    o := CloneOfCopies(h, n, r, fuel0 + rank[r] + 1, dom, rank);
    assert CloneOf(h, n, r, fuel0 + rank[r] + 1) == (g, m, c);
  }

  // ---------- one pointer ----------

  /** Where the pointers lead: nowhere, round in a circle, or to a token that is no pointer. */
  datatype Aimed = Unset | Loops | At(child: Ref)

  ghost function Aim(h: Graph, t: Ref, checked: set<Ref>): Aimed
    decreases h.Keys - checked
  {
    if t !in h || !h[t].Pointer? || h[t].target.None? then Unset
    else
      var c := h[t].target.value;
      if c !in h || !h[c].Pointer? then At(c)
      else if c in checked then Loops
      else Aim(h, c, checked + {c})
  }

  /**
   * Remove ta from the token of tt, that from the one above if it is of no use then, and so on; whether
   * this went past the root.
   */
  ghost function Climb(h: Graph, tt: Item, ta: Ref): (Graph, bool)
    decreases tt
  {
    if tt.NoItem? then (h, true)
    else if tt.tok !in h then (h, false)
    else
      var (n, keep) := LogicalRemoval(h, h[tt.tok], ta);
      if keep then (h[tt.tok := n], false) else Climb(h[tt.tok := n], tt.parent, tt.tok)
  }

  lemma {:induction false} ClimbsOn(h: Graph, tt: Item, ta: Ref)
    requires tt.Item? && tt.tok in h
    ensures var (n, keep) := LogicalRemoval(h, h[tt.tok], ta);
            Climb(h, tt, ta) == if keep then (h[tt.tok := n], false) else Climb(h[tt.tok := n], tt.parent, tt.tok)
  {
    hide LogicalRemoval;
  }

  lemma {:induction false} ClimbsPast(h: Graph, tt: Item, ta: Ref)
    requires tt.NoItem?
    ensures Climb(h, tt, ta) == (h, true)
  {
  }

  function OriginalOf(known: map<Ref, Ref>, child: Ref): Ref {
    if child in known then known[child] else child
  }

  /** The counter of a new original is not looked at. */
  predicate Wanted(maxRepeat: nat, known: map<Ref, Ref>, counts: map<Ref, nat>, child: Ref) {
    child !in known || CountOf(counts, known[child]) < maxRepeat
  }

  /** A child that is new becomes an original, with a clone of its own. */
  ghost predicate Registers(m: Machine, child: Ref, n: Machine) {
    if child in m.originals then n == m
    else
      exists g: Graph, next: Ref, c: Ref :: Cloned(m.h, m.next, child, g, next, c)
                        && n == m.(h := g, next := next, originals := m.originals[child := child],
                            clones := m.clones[child := c])
  }

  /** A clone of the original takes the place of the entry's pointer, and is next. */
  ghost predicate Expands(m: Machine, item: Item, original: Ref, n: Machine)
    requires item.Item?
  {
    && original in m.clones
    && exists g: Graph, next: Ref, c: Ref ::
        Cloned(m.h, m.next, m.clones[original], g, next, c) && n == PutIn(m, item, original, g, next, c)
  }

  ghost function PutIn(m: Machine, item: Item, original: Ref, g: Graph, next: Ref, c: Ref): Machine
    requires item.Item?
  {
    m.(h := LinkedGraph(g, item, c), next := next,
       root := if item.parent.NoItem? then c else m.root,
       originals := m.originals[c := original],
       queue := [LinkedItem(item, c, original)] + m.queue, seen := {})
  }

  lemma {:induction false} ExpandsTo(m: Machine, item: Item, original: Ref, g: Graph, next: Ref, c: Ref)
    requires item.Item? && original in m.clones && Cloned(m.h, m.next, m.clones[original], g, next, c)
    ensures Expands(m, item, original, PutIn(m, item, original, g, next, c))
  {
  }

  lemma {:induction false} RegistersTo(m: Machine, child: Ref, g: Graph, next: Ref, c: Ref)
    requires child !in m.originals && Cloned(m.h, m.next, child, g, next, c)
    ensures Registers(m, child,
              m.(h := g, next := next, originals := m.originals[child := child], clones := m.clones[child := c]))
  {
  }

  ghost function CutAt(m: Machine, item: Item): Machine
    requires item.Item?
  {
    var (g, past) := Climb(m.h[item.tok := Pointer(None)], item.parent, item.tok);
    m.(h := g, climbed := m.climbed || past)
  }

  /** The entry of a pointer, taken from the worklist. */
  ghost predicate Unpoints(maxRepeat: nat, m: Machine, item: Item, n: Machine)
    requires item.Item?
  {
    var aim := Aim(m.h, item.tok, {});
    && !aim.Unset?
    && if aim.At? && Wanted(maxRepeat, m.originals, item.counts, aim.child)
       then exists k :: Registers(m, aim.child, k) && Expands(k, item, OriginalOf(m.originals, aim.child), n)
       else n == CutAt(m, item)
  }

  // ---------- the machine ----------

  /** A token is twice on the way to the entry. */
  predicate Revisits(it: Item, checked: set<Ref>)
    decreases it
  {
    it.Item? && (it.tok in checked || Revisits(it.parent, checked + {it.tok}))
  }

  /** The first entry is taken from the worklist. */
  function Taken(m: Machine): Machine
    requires m.queue != [] && m.queue[0].Item?
  {
    m.(queue := m.queue[1..], seen := m.seen + {m.queue[0].tok})
  }

  lemma {:induction false} AtFront(m: Machine, item: Item, rest: seq<Item>) returns (t: Machine)
    requires m.queue == [item] + rest && item.Item?
    ensures m.queue != [] && m.queue[0] == item && t == Taken(m) && t == m.(queue := rest, seen := m.seen + {item.tok})
  {
    assert m.queue[0] == item && m.queue[1..] == rest;
    t := Taken(m);
  }

  ghost predicate Next(maxRepeat: nat, m: Machine, n: Machine) {
    && m.queue != [] && m.queue[0].Item? && m.queue[0].tok in m.h
    && var item := m.queue[0];
       && !(item.tok in m.seen && Revisits(item, {}))
       && if m.h[item.tok].Pointer? then Unpoints(maxRepeat, Taken(m), item, n)
          else n == Taken(m).(queue := KidItems(Kids(m.h[item.tok]), item) + m.queue[1..])
  }

  ghost predicate Stops(m: Machine, outcome: Outcome) {
    match outcome
    case Unrolled => m.queue == []
    case NilPointer =>
      && m.queue != [] && m.queue[0].Item? && m.queue[0].tok in m.h && m.h[m.queue[0].tok].Pointer?
      && !(m.queue[0].tok in m.seen && Revisits(m.queue[0], {})) && Aim(m.h, m.queue[0].tok, {}).Unset?
    case Endless => m.queue != [] && m.queue[0].Item? && m.queue[0].tok in m.seen && Revisits(m.queue[0], {})
  }

  /** k steps lead from m to n. */
  ghost predicate Goes(maxRepeat: nat, m: Machine, n: Machine, k: nat)
    decreases k
  {
    if k == 0 then m == n
    else exists l :: Goes(maxRepeat, m, l, k - 1) && Next(maxRepeat, l, n)
  }

  function Initial(h: Graph, r: Ref, free: Ref): Machine {
    Machine(h, free, r, map[], map[], [Item(r, NoItem, map[])], {}, false)
  }

  /** A run on the graph h from the root r ends so. */
  ghost predicate Ends(maxRepeat: nat, h: Graph, r: Ref, free: Ref, n: Machine, outcome: Outcome) {
    exists k: nat :: Goes(maxRepeat, Initial(h, r, free), n, k) && Stops(n, outcome)
  }

  // ---------- what a step needs ----------

  /** Below the tokens of dom are only tokens of dom, with lower ranks. */
  ghost predicate Descends(h: Graph, dom: set<Ref>, rank: map<Ref, nat>) {
    && dom <= h.Keys && dom <= rank.Keys
    && forall x, k :: x in dom && k in Kids(h[x]) ==> k in dom && rank[k] < rank[x]
  }

  ghost predicate ItemIn(h: Graph, it: Item)
    decreases it
  {
    it.Item? ==> it.tok in h && ItemIn(h, it.parent)
  }

  /** The store has no cycle but through pointers, and everything that is known of it is in it. */
  ghost predicate Sensible(m: Machine, rank: map<Ref, nat>) {
    && Descends(m.h, m.h.Keys, rank) && TargetsIn(m.h, m.h.Keys)
    && (forall x :: x in m.h ==> x < m.next)
    && (forall x :: x in m.originals ==> m.originals[x] in m.clones)
    && (forall o :: o in m.clones ==> m.clones[o] in m.h)
  }

  /** Registering an original leaves a store in which every token has a rank again. */
  lemma {:induction false} SensibleRegistered(m: Machine, child: Ref, n: Machine, rank: map<Ref, nat>)
    returns (rank': map<Ref, nat>)
    requires Sensible(m, rank) && child in m.h && Registers(m, child, n)
    ensures Sensible(n, rank') && n.queue == m.queue && n.seen == m.seen && n.root == m.root && n.climbed == m.climbed
    ensures forall x :: x in m.h ==> x in n.h && n.h[x] == m.h[x]
    ensures child in n.originals && n.originals[child] == OriginalOf(m.originals, child)
  {
    hide Cloned, Descends, TargetsIn;
    if child in m.originals {
      rank' := rank;
    } else {
      var g: Graph, next: Ref, c: Ref :| Cloned(m.h, m.next, child, g, next, c)
        && n == m.(h := g, next := next, originals := m.originals[child := child], clones := m.clones[child := c]);
      rank' := SensibleCloned(m.h, m.next, child, g, next, c, rank);
    }
  }

  lemma {:induction false} SensibleCloned(h: Graph, n: Ref, r: Ref, g: Graph, m: Ref, c: Ref, rank: map<Ref, nat>)
    returns (rank': map<Ref, nat>)
    requires r in h && (forall x :: x in h ==> x < n) && Cloned(h, n, r, g, m, c)
    requires Descends(h, h.Keys, rank) && TargetsIn(h, h.Keys)
    ensures Descends(g, g.Keys, rank') && TargetsIn(g, g.Keys) && c in g && forall x :: x in g ==> x < m
    ensures forall x :: x in h ==> x in g && g[x] == h[x]
  {
    hide *;
    DescendsCopyable(h, rank);
    var o := ClonedCopies(h, n, r, g, m, c, h.Keys, rank);
    RankOfCopies(h, n, g, m, o, h.Keys, rank);
    rank' := RankWith(rank, o);
    CopyableDescends(g, h.Keys, rank');
    CopyTargets(h, n, g, m, o);
  }

  lemma {:induction false} DescendsCopyable(h: Graph, rank: map<Ref, nat>)
    requires Descends(h, h.Keys, rank)
    ensures Copyable(h, h.Keys, rank) && h.Keys <= rank.Keys
  {
  }

  lemma {:induction false} CopyableDescends(g: Graph, dom: set<Ref>, rank: map<Ref, nat>)
    requires Copyable(g, dom, rank)
    ensures Descends(g, g.Keys, rank)
  {
  }

  lemma {:induction false} CopyTargets(h: Graph, n: Ref, g: Graph, m: Ref, o: map<Ref, Ref>)
    requires CopyOf(h, n, g, m, o, h.Keys) && TargetsIn(h, h.Keys)
    ensures TargetsIn(g, g.Keys) && g.Keys == h.Keys + o.Keys && forall x :: x in h ==> x in g && g[x] == h[x]
  {
  }

  lemma {:induction false} SensibleParts(m: Machine, rank: map<Ref, nat>)
    requires Sensible(m, rank)
    ensures Closed(m.h) && TargetsIn(m.h, m.h.Keys)
  {
    hide TargetsIn;
    assert Descends(m.h, m.h.Keys, rank);
    hide Sensible;
  }

  lemma {:induction false} SensibleClone(m: Machine, rank: map<Ref, nat>, original: Ref)
    requires Sensible(m, rank) && original in m.clones
    ensures m.clones[original] in m.h && m.clones[original] in rank && Descends(m.h, m.h.Keys, rank)
    ensures forall x :: x in m.h ==> x < m.next
  {
    hide TargetsIn;
  }

  lemma {:induction false} PutInIs(m: Machine, item: Item, original: Ref, g: Graph, next: Ref, c: Ref, n: Machine)
    requires item.Item? && n.h == LinkedGraph(g, item, c) && n.next == next && n.climbed == m.climbed
    requires n.root == (if item.parent.NoItem? then c else m.root)
    requires n.originals == m.originals[c := original] && n.clones == m.clones && n.seen == {}
    requires n.queue == [Item(c, item.parent, item.counts[original := CountOf(item.counts, original) + 1])] + m.queue
    ensures n == PutIn(m, item, original, g, next, c)
  {
    hide LinkedGraph;
  }

  lemma {:induction false} SensibleTaken(m: Machine, rank: map<Ref, nat>)
    requires m.queue != [] && m.queue[0].Item? && Sensible(m, rank)
    ensures Sensible(Taken(m), rank)
  {
    hide Descends, TargetsIn;
  }

  lemma {:induction false} ClonedIs(fuel0: nat, h: Graph, n: Ref, r: Ref, g: Graph, m: Ref, c: Ref)
    requires ClonedFrom(fuel0, h, n, r, g, m, c)
    ensures Cloned(h, n, r, g, m, c)
  {
    hide ClonedFrom;
  }

  lemma {:induction false} ItemInParts(h: Graph, it: Item)
    requires it.Item? && ItemIn(h, it)
    ensures it.tok in h && ItemIn(h, it.parent) && (it.parent.Item? ==> it.parent.tok in h)
  {
  }

  lemma {:induction false} ItemInMore(h: Graph, g: Graph, it: Item)
    requires ItemIn(h, it) && forall x :: x in h ==> x in g
    ensures ItemIn(g, it)
    decreases it
  {
    if it.Item? { ItemInMore(h, g, it.parent); }
  }

  lemma {:induction false} RemovalClosed(h: Graph, p: Ref, tok: Ref)
    requires Closed(h) && p in h
    ensures Closed(h[p := LogicalRemoval(h, h[p], tok).0])
  {
    match h[p]
    case Concat(ts) => forall k | k in Dropped(ts, tok) ensures k in ts { DroppedAmong(ts, tok, k); }
    case One(ts) => forall k | k in Removed(ts, tok) ensures k in ts { RemovedAmong(ts, tok, k); }
    case _ =>
  }

  lemma {:induction false} OriginalRegistered(m: Machine, child: Ref, rank: map<Ref, nat>)
    requires Sensible(m, rank) && child in m.originals
    ensures m.originals[child] in m.clones && m.clones[m.originals[child]] in m.h
  {
    hide Descends, TargetsIn;
  }

  /** A new original is not counted yet. */
  ghost predicate Uncounted(m: Machine, item: Item) {
    item.Item? &&
    var aim := Aim(m.h, item.tok, {});
    aim.At? && aim.child !in m.originals ==> CountOf(item.counts, aim.child) == 0
  }

  /** The entry can be taken. */
  ghost predicate Ready(m: Machine, item: Item, rank: map<Ref, nat>) {
    && item.Item? && (item.parent.Item? ==> item.parent.tok != item.tok) && item.tok !in m.seen
    && ItemIn(m.h, item) && Uncounted(m, item) && Sensible(m, rank)
  }

  ghost predicate FirstReady(m: Machine, rank: map<Ref, nat>) {
    m.queue != [] && Ready(m, m.queue[0], rank)
  }

  lemma {:induction false} FirstReadyIs(m: Machine, rank: map<Ref, nat>)
    requires m.queue != [] && Ready(m, m.queue[0], rank)
    ensures FirstReady(m, rank)
  {
    hide Ready;
  }

  lemma {:induction false} StopsEmpty(m: Machine)
    requires m.queue == []
    ensures Stops(m, Unrolled)
  {
  }

  lemma {:induction false} GoesNowhere(maxRepeat: nat, m: Machine)
    ensures Goes(maxRepeat, m, m, 0)
  {
  }

  lemma {:induction false} GoesOn(maxRepeat: nat, m: Machine, l: Machine, n: Machine, k: nat)
    requires Goes(maxRepeat, m, l, k) && Next(maxRepeat, l, n)
    ensures Goes(maxRepeat, m, n, k + 1)
  {
    hide Next;
    assert Goes(maxRepeat, m, l, (k + 1) - 1);
  }

  // ---------- the machine is deterministic ----------

  lemma {:induction false} ClonedOnce(h: Graph, n: Ref, r: Ref, g1: Graph, m1: Ref, c1: Ref, g2: Graph, m2: Ref,
          c2: Ref)
    requires Cloned(h, n, r, g1, m1, c1) && Cloned(h, n, r, g2, m2, c2)
    ensures g1 == g2 && m1 == m2 && c1 == c2
  {
    var f1: nat :| ClonedFrom(f1, h, n, r, g1, m1, c1);
    var f2: nat :| ClonedFrom(f2, h, n, r, g2, m2, c2);
    var p := CloneOf(h, n, r, f1 + f2);
    assert p == (g1, m1, c1) && p == (g2, m2, c2);
  }

  lemma {:induction false} RegistersOnce(m: Machine, child: Ref, n1: Machine, n2: Machine)
    requires Registers(m, child, n1) && Registers(m, child, n2)
    ensures n1 == n2
  {
    if child !in m.originals {
      var g1: Graph, x1: Ref, c1: Ref :| Cloned(m.h, m.next, child, g1, x1, c1)
        && n1 == m.(h := g1, next := x1, originals := m.originals[child := child], clones := m.clones[child := c1]);
      var g2: Graph, x2: Ref, c2: Ref :| Cloned(m.h, m.next, child, g2, x2, c2)
        && n2 == m.(h := g2, next := x2, originals := m.originals[child := child], clones := m.clones[child := c2]);
      ClonedOnce(m.h, m.next, child, g1, x1, c1, g2, x2, c2);
    }
  }

  lemma {:induction false} ExpandsOnce(m: Machine, item: Item, original: Ref, n1: Machine, n2: Machine)
    requires item.Item? && Expands(m, item, original, n1) && Expands(m, item, original, n2)
    ensures n1 == n2
  {
    var r := m.clones[original];
    var g1: Graph, x1: Ref, c1: Ref :| Cloned(m.h, m.next, r, g1, x1, c1) && n1 == PutIn(m, item, original, g1, x1, c1);
    var g2: Graph, x2: Ref, c2: Ref :| Cloned(m.h, m.next, r, g2, x2, c2) && n2 == PutIn(m, item, original, g2, x2, c2);
    ClonedOnce(m.h, m.next, r, g1, x1, c1, g2, x2, c2);
  }

  lemma {:induction false} NextOnce(maxRepeat: nat, m: Machine, n1: Machine, n2: Machine)
    requires Next(maxRepeat, m, n1) && Next(maxRepeat, m, n2)
    ensures n1 == n2
  {
    var item := m.queue[0];
    if m.h[item.tok].Pointer? {
      var t, aim := Taken(m), Aim(m.h, item.tok, {});
      if aim.At? && Wanted(maxRepeat, m.originals, item.counts, aim.child) {
        var o := OriginalOf(m.originals, aim.child);
        var k1 :| Registers(t, aim.child, k1) && Expands(k1, item, o, n1);
        var k2 :| Registers(t, aim.child, k2) && Expands(k2, item, o, n2);
        RegistersOnce(t, aim.child, k1, k2);
        ExpandsOnce(k1, item, o, n1, n2);
      }
    }
  }

  lemma {:induction false} GoesOnce(maxRepeat: nat, m: Machine, n1: Machine, n2: Machine, k: nat)
    requires Goes(maxRepeat, m, n1, k) && Goes(maxRepeat, m, n2, k)
    ensures n1 == n2
    decreases k
  {
    hide Next;
    if k > 0 {
      var l1 :| Goes(maxRepeat, m, l1, k - 1) && Next(maxRepeat, l1, n1);
      var l2 :| Goes(maxRepeat, m, l2, k - 1) && Next(maxRepeat, l2, n2);
      GoesOnce(maxRepeat, m, l1, l2, k - 1);
      NextOnce(maxRepeat, l1, n1, n2);
    }
  }

  lemma {:induction false} StopsOnce(m: Machine, o1: Outcome, o2: Outcome)
    requires Stops(m, o1) && Stops(m, o2)
    ensures o1 == o2
  {
  }

  lemma {:induction false} StopsDead(maxRepeat: nat, m: Machine, n: Machine, outcome: Outcome)
    requires Stops(m, outcome)
    ensures !Next(maxRepeat, m, n)
  {
  }

  /** A run that went on for longer passed the place of the shorter one. */
  lemma {:induction false} GoesThrough(maxRepeat: nat, m: Machine, n: Machine, k: nat, j: nat) returns (l: Machine)
    requires Goes(maxRepeat, m, n, k) && j < k
    ensures Goes(maxRepeat, m, l, j) && exists l' :: Next(maxRepeat, l, l')
    decreases k
  {
    hide Next;
    var p :| Goes(maxRepeat, m, p, k - 1) && Next(maxRepeat, p, n);
    if j == k - 1 {
      l := p;
    } else {
      l := GoesThrough(maxRepeat, m, p, k - 1, j);
    }
  }

  /** There is only one end to a run. */
  lemma {:induction false} EndsOnce(maxRepeat: nat, h: Graph, r: Ref, free: Ref, n1: Machine, o1: Outcome,
          n2: Machine, o2: Outcome)
    requires Ends(maxRepeat, h, r, free, n1, o1) && Ends(maxRepeat, h, r, free, n2, o2)
    ensures n1 == n2 && o1 == o2
  {
    hide Next, Stops, Initial;
    var m := Initial(h, r, free);
    var k1: nat :| Goes(maxRepeat, m, n1, k1) && Stops(n1, o1);
    var k2: nat :| Goes(maxRepeat, m, n2, k2) && Stops(n2, o2);
    if k1 < k2 {
      var l := GoesThrough(maxRepeat, m, n2, k2, k1);
      GoesOnce(maxRepeat, m, l, n1, k1);
      var l' :| Next(maxRepeat, l, l');
      StopsDead(maxRepeat, n1, l', o1);
    } else if k2 < k1 {
      var l := GoesThrough(maxRepeat, m, n1, k1, k2);
      GoesOnce(maxRepeat, m, l, n2, k2);
      var l' :| Next(maxRepeat, l, l');
      StopsDead(maxRepeat, n2, l', o2);
    } else {
      GoesOnce(maxRepeat, m, n1, n2, k1);
      StopsOnce(n1, o1, o2);
    }
  }
}
