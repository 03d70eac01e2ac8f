/** What one entry of the worklist needs and leaves: registering, expanding, cutting and climbing. */
module UnrollEntries {
  import opened TokenGraphs
  import opened UnrollWords
  import opened UnrollState
  import opened UnrollCopy
  import opened UnrollFresh
  import opened UnrollLink
  import opened UnrollCut
  import opened UnrollMeasure
  import opened UnrollRemoval
  import opened UnrollClones

  // ---------- what the invariant says about one entry ----------

  lemma {:induction false} FirstIsOk(h0: Graph, r0: Ref, limit: nat, v: View, item: Item, rest: seq<Item>)
    requires Inv(h0, r0, limit, v, [item] + rest, NoItem, 0)
    ensures ItemOk(v, item) && item.tok in v.cnt && v.cnt[item.tok] == item.counts
    ensures SizeOf(v.size, item.tok) == 1 + SizeAll(v.size, Kids(v.h[item.tok]))
    ensures CountsOk(v.clones.Keys, limit, item.counts)
  {
    hide Shape, Sourced, Live, Registered, EdgeCounts, NoExpansionBelow, ChainOk, OnlyParent, ClosedIn;
    assert ([item] + rest)[0] == item;
  }

  lemma {:induction false} TargetKnown(h0: Graph, r0: Ref, limit: nat, v: View, pend: seq<Item>, t: Ref)
    requires Inv(h0, r0, limit, v, pend, NoItem, 0) && t in v.h && v.h[t].Pointer? && v.h[t].target.Some?
    ensures v.h[t].target.value in h0.Keys + v.originals.Keys && v.h[t].target.value in v.h
    ensures t in v.src && v.h[t].target.value in v.src && Stands(h0, v.src[t], v.src[v.h[t].target.value])
  {
    hide Shape, Sized, Pending, Live, Counted, CloneOk, Stands, Simulates;
    PointerStands(h0, v.h, v.src, t);
    var c := v.h[t].target.value;
    assert c in v.originals ==> KnownOk(v, c);
  }

  lemma {:induction false} CloneKnown(h0: Graph, r0: Ref, limit: nat, v: View, pend: seq<Item>, o: Ref)
    requires Inv(h0, r0, limit, v, pend, NoItem, 0) && o in v.clones
    ensures CloneOk(h0, v, o) && o in v.src && v.clones[o] in v.src
  {
    hide Shape, Sourced, Sized, Pending, Live, Counted, KnownOk, CloneOk;
    assert CloneOk(h0, v, o);
    hide InItems;
    CloneSource(h0, v, o);
  }

  lemma {:induction false} InvParts(h0: Graph, r0: Ref, limit: nat, v: View, pend: seq<Item>)
    requires Inv(h0, r0, limit, v, pend, NoItem, 0)
    ensures Shape(v) && Sourced(h0, r0, v) && Registered(h0, v, pend) && Pending(v, pend) && Sized(v)
    ensures v.src.Keys == v.h.Keys
  {
    hide Shape, Simulates, Stands, Registered, Pending, Sized, Live, Counted;
  }

  lemma {:induction false} SourceKeys(h0: Graph, r0: Ref, limit: nat, v: View, pend: seq<Item>)
    requires Inv(h0, r0, limit, v, pend, NoItem, 0)
    ensures v.src.Keys == v.h.Keys
  {
    hide Shape, Simulates, Stands, Registered, Pending, Sized, Live, Counted;
  }

  lemma {:induction false} CloneInGraph(h0: Graph, v: View, o: Ref)
    requires CloneOk(h0, v, o)
    ensures v.clones[o] in v.h
  {
  }

  lemma {:induction false} CloneSource(h0: Graph, v: View, o: Ref)
    requires CloneOk(h0, v, o)
    ensures o in v.src && v.clones[o] in v.src
  {
  }

  lemma {:induction false} OriginalKnown(h0: Graph, r0: Ref, limit: nat, v: View, pend: seq<Item>, x: Ref)
    requires Inv(h0, r0, limit, v, pend, NoItem, 0) && x in v.originals
    ensures KnownOk(v, x)
  {
    hide Shape, Sourced, Sized, Pending, Live, Counted, KnownOk, CloneOk;
  }

  lemma {:induction false} ClonesAreFew(h0: Graph, r0: Ref, limit: nat, v: View, pend: seq<Item>)
    requires Inv(h0, r0, limit, v, pend, NoItem, 0)
    ensures |v.clones| <= |h0|
  {
    hide Inv, ItemOk, ChainOk;
    forall o | o in v.clones ensures o in h0 {
      CloneKnown(h0, r0, limit, v, pend, o);
    }
    SubsetSize(v.clones.Keys, h0.Keys);
  }

  lemma {:induction false} WholeIsCopyable(v: View)
    requires Shape(v)
    ensures Copyable(v.h, v.h.Keys, v.rank)
    ensures forall x :: x in v.h ==> x < v.next
  {
  }

  lemma {:induction false} UnvisitedIsCopyable(v: View)
    requires Shape(v) && Sized(v)
    ensures Copyable(v.h, Unvisited(v), v.rank) && Exact(v.h, Unvisited(v), v.size)
    ensures forall x :: x in v.h ==> x < v.next
  {
  }

  /** The originals are tokens of the original graph, and no expansion is larger than cap. */
  ghost predicate Bounded(h0: Graph, keys: seq<Ref>, cap: nat, v: View) {
    && NoRepeats(keys) && (forall x :: x in h0 <==> x in keys) && |keys| == |h0|
    && forall o :: o in v.clones ==> SizeOf(v.size, v.clones[o]) <= cap
  }

  lemma {:induction false} StartTied(h: Graph, next: Ref, root: Ref, rank: map<Ref, nat>, top: nat,
          size: map<Ref, nat>, keys: seq<Ref>)
    requires NoRepeats(keys) && |keys| == |h.Keys| && forall x :: x in h.Keys <==> x in keys
    ensures var v := Start(h, next, root, rank, top, size);
            && v.h == h && v.next == next && v.root == root && v.climbed == false
            && v.originals == map[] && v.clones == map[] && Bounded(h, keys, 0, v)
  {
  }

  lemma {:induction false} StartParts(h: Graph, next: Ref, root: Ref, rank: map<Ref, nat>, top: nat,
          size: map<Ref, nat>)
    ensures Start(h, next, root, rank, top, size).top == top && Start(h, next, root, rank, top, size).size == size
  {
  }

  /** A state in which the run can start. */
  lemma {:induction false} StartExists(h: Graph, next: Ref, root: Ref, rank: map<Ref, nat>, limit: nat)
    returns (v: View, keys: seq<Ref>)
    requires Grammar(h, root, rank) && forall x :: x in h ==> x < next
    ensures Inv(h, root, limit, v, [Item(root, NoItem, map[])], NoItem, 0) && Bounded(h, keys, 0, v)
    ensures v.h == h && v.next == next && v.root == root && !v.climbed && v.originals == map[] && v.clones == map[]
    ensures v == Start(h, next, root, rank, v.top, v.size)
  {
    hide Inv, Bounded, Start, NoRepeats, Exact, Orphan, UniqueParent;
    keys := ListOf(h.Keys);
    var top := TopExists(h, rank, h.Keys);
    var size := SizesExist(h, rank);
    v := Start(h, next, root, rank, top, size);
    StartTied(h, next, root, rank, top, size, keys);
    StartParts(h, next, root, rank, top, size);
    StartHolds(h, next, root, rank, top, size, limit);
  }

  // ---------- cloning ----------

  ghost function Registration(v: View, g: Graph, m: Ref, o: map<Ref, Ref>, sz: map<Ref, nat>, c: Ref, x: Ref): View {
    WithCopies(v, g, m, o, sz).(originals := v.originals[x := x], clones := v.clones[x := c])
  }

  /** After cloning x and registering the clone c. */
  lemma {:induction false} RegistrationKeeps(h0: Graph, r0: Ref, limit: nat, v: View, pend: seq<Item>, g: Graph,
          m: Ref, o: map<Ref, Ref>, dom: set<Ref>, sz: map<Ref, nat>, c: Ref, x: Ref)
    requires Inv(h0, r0, limit, v, pend, NoItem, 0) && CopyOf(v.h, v.next, g, m, o, dom) && Exact(v.h, dom, sz)
    requires c in o && o[c] == x && NotBelow(g, o, c)
    requires x in h0 && x in v.h && !v.h[x].Pointer? && x !in v.originals
    ensures Inv(h0, r0, limit, Registration(v, g, m, o, sz, c, x), pend, NoItem, 0)
  {
    hide Inv, CopyOf, Exact, NotBelow, FreshCopy;
    var w := WithCopies(v, g, m, o, sz);
    CopiesKeep(h0, r0, limit, v, pend, 0, g, m, o, dom, sz);
    CloneIsFresh(h0, r0, limit, v, pend, g, m, o, dom, sz, c, x);
    CopiesKeys(v, g, m, o, dom);
    RegisterKeeps(h0, r0, limit, w, pend, 0, x, c);
  }

  /** c is the copy of x, or of the clone kept for x. */
  ghost predicate CloneFor(v: View, g: Graph, o: map<Ref, Ref>, c: Ref, x: Ref) {
    && c in o && NotBelow(g, o, c)
    && o[c] in v.h && !v.h[o[c]].Pointer?
    && x in v.h && (x == o[c] || (x in v.clones && v.clones[x] == o[c]))
  }

  ghost predicate NoClone(v: View, c: Ref) {
    forall y :: y in v.clones ==> v.clones[y] != c
  }

  lemma {:induction false} CloneIsFresh(h0: Graph, r0: Ref, limit: nat, v: View, pend: seq<Item>, g: Graph, m: Ref,
          o: map<Ref, Ref>, dom: set<Ref>, sz: map<Ref, nat>, c: Ref, x: Ref)
    requires CloneFor(v, g, o, c, x) && CopyOf(v.h, v.next, g, m, o, dom)
    requires Inv(h0, r0, limit, v, pend, NoItem, 0)
    ensures FreshCopy(h0, WithCopies(v, g, m, o, sz), pend, c, x) && c !in v.h && NoClone(v, c)
  {
    hide Inv, Shape, Sourced, Registered, Pending, CopyOf, NotBelow, FreshCopy;
    InvParts(h0, r0, limit, v, pend);
    if x in v.clones && v.clones[x] == o[c] {
      CloneSourceOf(h0, r0, limit, v, pend, x);
    }
    CopyIsFresh(h0, r0, v, pend, g, m, o, dom, sz, c, x);
  }

  lemma {:induction false} CloneSourceOf(h0: Graph, r0: Ref, limit: nat, v: View, pend: seq<Item>, o: Ref)
    requires Inv(h0, r0, limit, v, pend, NoItem, 0) && o in v.clones
    ensures o in v.src && v.clones[o] in v.src && v.src[v.clones[o]] == v.src[o]
  {
    CloneKnown(h0, r0, limit, v, pend, o);
    hide Inv;
  }

  ghost predicate ClonesIn(v: View) {
    forall y :: y in v.clones ==> v.clones[y] in v.h
  }

  lemma {:induction false} SizeWithOther(size: map<Ref, nat>, o: map<Ref, Ref>, sz: map<Ref, nat>)
    ensures forall x :: x !in o ==> SizeOf(SizeWith(size, o, sz), x) == SizeOf(size, x)
  {
  }

  lemma {:induction false} RegistrationBounded(h0: Graph, keys: seq<Ref>, cap: nat, v: View, g: Graph, m: Ref,
          o: map<Ref, Ref>, dom: set<Ref>, sz: map<Ref, nat>, c: Ref, x: Ref)
    requires Bounded(h0, keys, cap, v) && CopyOf(v.h, v.next, g, m, o, dom) && ClonesIn(v)
    ensures var w := Registration(v, g, m, o, sz, c, x); Bounded(h0, keys, cap + SizeOf(w.size, c), w)
  {
    hide CopyOf, SizeWith, NoRepeats, SizeOf;
    CopiesKeys(v, g, m, o, dom);
    SizeWithOther(v.size, o, sz);
    var w := Registration(v, g, m, o, sz, c, x);
    assert w.size == SizeWith(v.size, o, sz) && w.clones == v.clones[x := c];
    forall y | y in w.clones ensures SizeOf(w.size, w.clones[y]) <= cap + SizeOf(w.size, c) {
      if y != x {
        assert SizeOf(w.size, v.clones[y]) == SizeOf(v.size, v.clones[y]);
      }
    }
  }

  /** Cloning leaves the tokens that were there, and where they come from, alone. */
  ghost predicate Extends(v: View, w: View) {
    && (forall x :: x in v.h ==> x in w.h && w.h[x] == v.h[x])
    && (forall x :: x in v.src ==> x in w.src && w.src[x] == v.src[x])
    && w.done == v.done && w.root == v.root
  }

  lemma {:induction false} RegistrationExtends(v: View, g: Graph, m: Ref, o: map<Ref, Ref>, dom: set<Ref>,
          sz: map<Ref, nat>, c: Ref, x: Ref)
    requires CopyOf(v.h, v.next, g, m, o, dom) && v.src.Keys == v.h.Keys
    ensures Extends(v, Registration(v, g, m, o, sz, c, x))
  {
  }

  lemma {:induction false} ClonesAreTokens(h0: Graph, r0: Ref, limit: nat, v: View, pend: seq<Item>)
    requires Inv(h0, r0, limit, v, pend, NoItem, 0)
    ensures ClonesIn(v)
  {
    hide Inv, CloneOk;
    forall y | y in v.clones ensures v.clones[y] in v.h {
      CloneKnown(h0, r0, limit, v, pend, y);
      CloneInGraph(h0, v, y);
    }
  }

  lemma {:induction false} SizesOf(h0: Graph, r0: Ref, limit: nat, v: View, pend: seq<Item>, dom: set<Ref>)
    returns (sz: map<Ref, nat>)
    requires ClosedIn(v.h, dom) && Inv(h0, r0, limit, v, pend, NoItem, 0)
    ensures Exact(v.h, dom, sz) && Copyable(v.h, dom, v.rank) && forall x :: x in v.h ==> x < v.next
  {
    hide Sourced, Sized, Registered, Pending, Live, Counted, UniqueParent, Apart, Aside;
    WholeIsCopyable(v);
    sz := SizesExist(v.h, v.rank);
    hide SizeAll, SizeOf;
  }

  lemma {:induction false} RegistrationFields(v: View, g: Graph, m: Ref, o: map<Ref, Ref>, sz: map<Ref, nat>, c: Ref,
          x: Ref)
    ensures var w := Registration(v, g, m, o, sz, c, x);
            && w.h == g && w.next == m && w.root == v.root && w.climbed == v.climbed
            && w.originals == v.originals[x := x] && w.clones == v.clones[x := c]
  {
  }

  lemma {:induction false} RegistrationHolds(h0: Graph, r0: Ref, limit: nat, v: View, pend: seq<Item>, g: Graph,
          m: Ref, o: map<Ref, Ref>, dom: set<Ref>, sz: map<Ref, nat>, c: Ref, x: Ref, keys: seq<Ref>, cap: nat)
    requires c in o && o[c] == x && NotBelow(g, o, c)
    requires x in h0 && x in v.h && !v.h[x].Pointer? && x !in v.originals
    requires CopyOf(v.h, v.next, g, m, o, dom) && Exact(v.h, dom, sz) && Bounded(h0, keys, cap, v)
    requires Inv(h0, r0, limit, v, pend, NoItem, 0)
    ensures var w := Registration(v, g, m, o, sz, c, x);
            && Inv(h0, r0, limit, w, pend, NoItem, 0) && Bounded(h0, keys, cap + SizeOf(w.size, c), w)
            && Extends(v, w) && x !in v.clones
            && w.h == g && w.next == m && w.root == v.root && w.climbed == v.climbed
            && w.originals == v.originals[x := x] && w.clones == v.clones[x := c]
  {
    hide Inv, Bounded, CopyOf, NotBelow, Exact, Extends, Registration;
    RegistrationFields(v, g, m, o, sz, c, x);
    RegistrationKeeps(h0, r0, limit, v, pend, g, m, o, dom, sz, c, x);
    ClonesAreTokens(h0, r0, limit, v, pend);
    RegistrationBounded(h0, keys, cap, v, g, m, o, dom, sz, c, x);
    SourceKeys(h0, r0, limit, v, pend);
    RegistrationExtends(v, g, m, o, dom, sz, c, x);
    if x in v.clones { CloneKnown(h0, r0, limit, v, pend, x); }
  }

  // ---------- putting a clone in the place of a pointer ----------

  ghost function Expansion1(v: View, g: Graph, m: Ref, o: map<Ref, Ref>): View {
    WithCopies(v, g, m, o, v.size)
  }

  ghost predicate Expandable(h0: Graph, limit: nat, v: View, item: Item, original: Ref) {
    && item.Item? && item.tok in v.h && v.h[item.tok].Pointer? && original in v.clones
    && item.tok in v.src && original in v.src && Stands(h0, v.src[item.tok], v.src[original])
    && CountOf(item.counts, original) < limit
  }

  lemma {:induction false} VisitedRankAbove(v: View, g: Graph, m: Ref, o: map<Ref, Ref>, dom: set<Ref>, c: Ref)
    requires Shape(v) && CopyOf(v.h, v.next, g, m, o, dom) && c in o
    ensures var w := Expansion1(v, g, m, o);
            forall r :: r in w.done && r in w.rank && c in w.rank ==> w.rank[c] < w.rank[r]
  {
    hide UniqueParent, Closed, Orphan, Acyclic, CopyOf, RankAbove;
    RanksAbove(v, g, m, o, dom);
  }

  lemma {:induction false} ExpansionLinkable(h0: Graph, r0: Ref, limit: nat, v: View, item: Item, rest: seq<Item>,
          g: Graph, m: Ref, o: map<Ref, Ref>, dom: set<Ref>, c: Ref, original: Ref)
    requires Expandable(h0, limit, v, item, original) && CloneFor(v, g, o, c, original)
        && CopyOf(v.h, v.next, g, m, o, dom)
    requires Inv(h0, r0, limit, v, [item] + rest, NoItem, 0)
    ensures Linkable(h0, limit, Expansion1(v, g, m, o), item, rest, c, original)
  {
    hide Inv, Shape, CopyOf, NotBelow, FreshCopy, Stands;
    CloneIsFresh(h0, r0, limit, v, [item] + rest, g, m, o, dom, v.size, c, original);
    ShapeOf(h0, r0, limit, v, [item] + rest);
    VisitedRankAbove(v, g, m, o, dom, c);
    CopiesKeys(v, g, m, o, dom);
    SourceKeys(h0, r0, limit, v, [item] + rest);
    FreshSource(h0, Expansion1(v, g, m, o), [item] + rest, c, original);
    OldSource(v, g, m, o, dom, item.tok);
    OldSource(v, g, m, o, dom, original);
  }

  lemma {:induction false} FreshSource(h0: Graph, v: View, pend: seq<Item>, c: Ref, x: Ref)
    requires FreshCopy(h0, v, pend, c, x)
    ensures c in v.src && x in v.src && v.src[c] == v.src[x]
  {
  }

  lemma {:induction false} OldSource(v: View, g: Graph, m: Ref, o: map<Ref, Ref>, dom: set<Ref>, x: Ref)
    requires CopyOf(v.h, v.next, g, m, o, dom) && x in v.src && x in v.h
    ensures x in Expansion1(v, g, m, o).src && Expansion1(v, g, m, o).src[x] == v.src[x]
  {
  }

  lemma {:induction false} ShapeOf(h0: Graph, r0: Ref, limit: nat, v: View, pend: seq<Item>)
    requires Inv(h0, r0, limit, v, pend, NoItem, 0)
    ensures Shape(v)
  {
    hide Shape, Simulates, Stands, Registered, Pending, Sized, Live, Counted;
  }

  lemma {:induction false} ExpansionKeeps(h0: Graph, r0: Ref, limit: nat, v: View, item: Item, rest: seq<Item>,
          g: Graph, m: Ref, o: map<Ref, Ref>, dom: set<Ref>, c: Ref, original: Ref)
    requires Expandable(h0, limit, v, item, original) && CloneFor(v, g, o, c, original)
        && CopyOf(v.h, v.next, g, m, o, dom)
    requires Exact(v.h, dom, v.size)
    requires Inv(h0, r0, limit, v, [item] + rest, NoItem, 0)
    ensures Inv(h0, r0, limit, Linked(Expansion1(v, g, m, o), item, c, original),
        [LinkedItem(item, c, original)] + rest, NoItem, 0)
  {
    hide Inv, CopyOf, NotBelow, Linkable, CloneFor, Exact, Linked;
    ExpansionLinkable(h0, r0, limit, v, item, rest, g, m, o, dom, c, original);
    CopiesKeep(h0, r0, limit, v, [item] + rest, 0, g, m, o, dom, v.size);
    LinkKeeps(h0, r0, limit, Expansion1(v, g, m, o), item, rest, c, original, 0);
  }

  // ---------- an expansion weighs less than its pointer ----------

  lemma {:induction false} CopySizeIs(v: View, o: map<Ref, Ref>, c: Ref)
    requires c in o
    ensures SizeOf(SizeWith(v.size, o, v.size), c) == SizeOf(v.size, o[c])
    ensures forall x :: x !in o ==> SizeOf(SizeWith(v.size, o, v.size), x) == SizeOf(v.size, x)
  {
  }

  lemma {:induction false} ExpansionBounded(h0: Graph, keys: seq<Ref>, cap: nat, v: View, item: Item, g: Graph,
          m: Ref, o: map<Ref, Ref>, dom: set<Ref>, c: Ref, original: Ref)
    requires item.Item? && Bounded(h0, keys, cap, v) && CopyOf(v.h, v.next, g, m, o, dom) && c in o
    requires ClonesIn(v)
    ensures Bounded(h0, keys, cap, Linked(Expansion1(v, g, m, o), item, c, original))
  {
    CopiesKeys(v, g, m, o, dom);
    CopySizeIs(v, o, c);
    hide CopyOf, SizeWith, NoRepeats, LinkedGraph;
  }

  lemma {:induction false} RoomLeft(known: set<Ref>, limit: nat, counts: map<Ref, nat>, keys: seq<Ref>, original: Ref)
    requires CountsOk(known, limit, counts) && CountOf(counts, original) < limit
    requires NoRepeats(keys) && original in keys
    ensures Total(counts, keys) + 1 <= |keys| * limit
  {
    TotalBumped(counts, keys, original);
    TotalBound(counts[original := CountOf(counts, original) + 1], keys, limit);
  }

  ghost predicate ItemsIn(h: Graph, items: seq<Item>) {
    forall i :: 0 <= i < |items| && items[i].Item? ==> items[i].tok in h
  }

  lemma {:induction false} PendingAreOld(v: View, item: Item, rest: seq<Item>)
    requires Pending(v, [item] + rest)
    ensures ItemsIn(v.h, rest)
  {
    hide ChainOk, OnlyParent;
    forall i | 0 <= i < |rest| && rest[i].Item? ensures rest[i].tok in v.h {
      assert ([item] + rest)[i + 1] == rest[i];
      assert ItemOk(v, ([item] + rest)[i + 1]);
    }
  }

  lemma {:induction false} RestIsOld(h0: Graph, r0: Ref, limit: nat, v: View, item: Item, rest: seq<Item>)
    requires Inv(h0, r0, limit, v, [item] + rest, NoItem, 0)
    ensures ItemsIn(v.h, rest)
  {
    hide Shape, Sourced, Sized, Registered, Live, Counted, Pending;
    PendingAreOld(v, item, rest);
  }

  lemma {:induction false} ExpansionLighter(h0: Graph, r0: Ref, limit: nat, keys: seq<Ref>, cap: nat, v: View,
          item: Item, rest: seq<Item>, g: Graph, m: Ref, o: map<Ref, Ref>, dom: set<Ref>, c: Ref, original: Ref)
    requires Bounded(h0, keys, cap, v) && CopyOf(v.h, v.next, g, m, o, dom)
    requires item.Item? && original in v.clones && original in h0 && c in o && o[c] == v.clones[original]
    requires CountOf(item.counts, original) < limit
    requires Inv(h0, r0, limit, v, [item] + rest, NoItem, 0)
    ensures WeightAll(SizeWith(v.size, o, v.size), cap, keys, limit, [LinkedItem(item, c, original)] + rest)
          < WeightAll(v.size, cap, keys, limit, [item] + rest)
  {
    hide Inv, CopyOf, SizeWith, ItemOk, WeightAll, SizeAll, NoRepeats, CountsOk;
    FirstIsOk(h0, r0, limit, v, item, rest);
    RoomLeft(v.clones.Keys, limit, item.counts, keys, original);
    CopySizeIs(v, o, c);
    CopiesKeys(v, g, m, o, dom);
    RestIsOld(h0, r0, limit, v, item, rest);
    LinkLighter(v.size, SizeWith(v.size, o, v.size), cap, keys, limit, item, c, original, rest);
  }

  lemma {:induction false} ExpansionFields(v: View, item: Item, g: Graph, m: Ref, o: map<Ref, Ref>, c: Ref,
          original: Ref)
    requires item.Item?
    ensures var w := Linked(Expansion1(v, g, m, o), item, c, original);
            && w.h == LinkedGraph(g, item, c) && w.next == m && w.climbed == v.climbed
            && w.root == (if item.parent.NoItem? then c else v.root)
            && w.originals == v.originals[c := original] && w.clones == v.clones
            && w.size == SizeWith(v.size, o, v.size) && w.done == v.done + {item.tok}
  {
  }

  /** The clone kept for an original can be cloned: it was not visited. */
  ghost predicate Cloneable(h0: Graph, v: View, original: Ref) {
    && Copyable(v.h, Unvisited(v), v.rank) && Exact(v.h, Unvisited(v), v.size)
    && (forall x :: x in v.h ==> x < v.next)
    && original in v.clones && original in v.h && original in h0
    && v.clones[original] in Unvisited(v) && !v.h[v.clones[original]].Pointer?
  }

  lemma {:induction false} ToClone(h0: Graph, r0: Ref, limit: nat, v: View, pend: seq<Item>, original: Ref)
    requires Inv(h0, r0, limit, v, pend, NoItem, 0) && original in v.clones
    ensures Cloneable(h0, v, original)
  {
    hide Inv, Shape, Sized, Sourced, Registered, Pending, Copyable, Exact, Orphan;
    InvParts(h0, r0, limit, v, pend);
    UnvisitedIsCopyable(v);
    CloneKnown(h0, r0, limit, v, pend, original);
    SourceKeys(h0, r0, limit, v, pend);
  }

  lemma {:induction false} ParentKnown(v: View, item: Item)
    requires ItemOk(v, item)
    ensures item.parent.Item? ==> item.parent.tok in v.h && item.parent.tok != item.tok
  {
    assert ChainOk(v, item.parent);
  }

  lemma {:induction false} OriginalCloned(h0: Graph, limit: nat, v: View, item: Item, original: Ref)
    requires Expandable(h0, limit, v, item, original)
    ensures item.Item? && item.tok in v.h && v.h[item.tok].Pointer? && original in v.clones
    ensures CountOf(item.counts, original) < limit
  {
  }

  lemma {:induction false} ExpansionHolds(h0: Graph, r0: Ref, limit: nat, keys: seq<Ref>, cap: nat, v: View,
          item: Item, rest: seq<Item>, g: Graph, m: Ref, o: map<Ref, Ref>, c: Ref, original: Ref)
    requires Expandable(h0, limit, v, item, original) && CloneFor(v, g, o, c, original)
    requires o[c] == v.clones[original]
    requires CopyOf(v.h, v.next, g, m, o, Unvisited(v)) && Bounded(h0, keys, cap, v)
    requires Inv(h0, r0, limit, v, [item] + rest, NoItem, 0)
    ensures var w, pend := Linked(Expansion1(v, g, m, o), item, c, original), [LinkedItem(item, c, original)] + rest;
            && Inv(h0, r0, limit, w, pend, NoItem, 0) && Bounded(h0, keys, cap, w)
            && WeightAll(w.size, cap, keys, limit, pend) < WeightAll(v.size, cap, keys, limit, [item] + rest)
            && w.h == LinkedGraph(g, item, c) && w.next == m && w.climbed == v.climbed
            && w.root == (if item.parent.NoItem? then c else v.root)
            && w.originals == v.originals[c := original] && w.clones == v.clones
  {
    hide Inv, Bounded, CopyOf, NotBelow, Copyable, Exact, Linked, Expandable, WeightAll, LinkedGraph, SizeWith;
    OriginalCloned(h0, limit, v, item, original);
    ToClone(h0, r0, limit, v, [item] + rest, original);
    ExpansionFields(v, item, g, m, o, c, original);
    ExpansionKeeps(h0, r0, limit, v, item, rest, g, m, o, Unvisited(v), c, original);
    ClonesAreTokens(h0, r0, limit, v, [item] + rest);
    ExpansionBounded(h0, keys, cap, v, item, g, m, o, Unvisited(v), c, original);
    ExpansionLighter(h0, r0, limit, keys, cap, v, item, rest, g, m, o, Unvisited(v), c, original);
  }

  // ---------- cutting ----------

  ghost function CutOff(v: View, item: Item): View
    requires item.Item?
  {
    Retired(v, item).(h := v.h[item.tok := Pointer(None)])
  }

  lemma {:induction false} CutOffFields(v: View, item: Item)
    requires item.Item?
    ensures var w := CutOff(v, item);
            && w.h == v.h[item.tok := Pointer(None)] && w.next == v.next && w.root == v.root
            && w.climbed == (v.climbed || item.parent.NoItem?) && w.originals == v.originals && w.clones == v.clones
            && w.size == v.size && w.done == v.done + {item.tok}
  {
  }

  lemma {:induction false} UnsetIsFewer(n: Node)
    requires n.Pointer?
    ensures Fewer(Pointer(None), n)
  {
  }

  lemma {:induction false} UnsetSimulates(h0: Graph, r0: Ref, limit: nat, v: View, pend: seq<Item>, t: Ref)
    requires Inv(h0, r0, limit, v, pend, NoItem, 0) && t in v.h && v.h[t].Pointer?
    ensures Simulates(h0, v.h[t := Pointer(None)], v.src)
  {
    hide Shape, Registered, Pending, Sized, Live, Counted, Simulates;
    SimulatesSet(h0, v.h, v.src, t, None);
  }

  lemma {:induction false} CutOffKeeps(h0: Graph, r0: Ref, limit: nat, v: View, item: Item, rest: seq<Item>)
    requires item.Item? && item.tok in v.h && v.h[item.tok].Pointer?
    requires Inv(h0, r0, limit, v, [item] + rest, NoItem, 0)
    ensures Inv(h0, r0, limit, CutOff(v, item), rest, item.parent, item.tok) && ChainOk(CutOff(v, item), item.parent)
  {
    hide Inv, Fewer, Simulates, ChainOk, OnlyParent;
    FirstIsOk(h0, r0, limit, v, item, rest);
    RetireKeeps(h0, r0, limit, v, item, rest, 0);
    UnsetSimulates(h0, r0, limit, v, [item] + rest, item.tok);
    UnsetIsFewer(v.h[item.tok]);
    ShrinkKeeps(h0, r0, limit, Retired(v, item), rest, item.parent, item.tok, item.tok, Pointer(None));
    ChainRetired(v, item, item.parent);
    ShrinkChain(Retired(v, item), item.tok, Pointer(None), item.parent);
  }

  /** The removal of ta from the token of tt, and how the cut goes on. */
  ghost function Pruned(v: View, tt: Item, ta: Ref): View
    requires tt.Item? && tt.tok in v.h
  {
    v.(h := v.h[tt.tok := LogicalRemoval(v.h, v.h[tt.tok], ta).0])
  }

  lemma {:induction false} ChainHead(v: View, tt: Item)
    requires tt.Item? && ChainOk(v, tt)
    ensures tt.tok in v.done && tt.tok in v.h && !v.h[tt.tok].Pointer?
  {
  }

  lemma {:induction false} PruneIsGood(h0: Graph, r0: Ref, limit: nat, v: View, pend: seq<Item>, tt: Item, ta: Ref,
          p: Ref)
    requires Inv(h0, r0, limit, v, pend, tt, ta) && p in v.h && !v.h[p].Pointer?
    ensures var (n, keep) := LogicalRemoval(v.h, v.h[p], ta); GoodRemoval(h0, v.h, v.src, p, ta, n, keep)
    ensures NoRepeats(Kids(v.h[p]))
  {
    hide Registered, Pending, Sized, Live, Counted, Simulates, Fewer, NoRepeats, LogicalRemoval, Acyclic, Closed,
        Orphan;
    RemovalKeeps(h0, v.h, v.src, p, ta);
  }

  lemma {:induction false} PruneKeeps(h0: Graph, r0: Ref, limit: nat, v: View, pend: seq<Item>, tt: Item, ta: Ref)
    requires tt.Item? && ChainOk(v, tt) && tt.tok in v.h && Inv(h0, r0, limit, v, pend, tt, ta)
    ensures Inv(h0, r0, limit, Pruned(v, tt, ta), pend, tt, ta) && ChainOk(Pruned(v, tt, ta), tt)
    ensures LogicalRemoval(v.h, v.h[tt.tok], ta).1 ==> ta !in Kids(Pruned(v, tt, ta).h[tt.tok])
  {
    hide Inv, Fewer, Simulates, ChainOk, LogicalRemoval;
    ChainHead(v, tt);
    PruneIsGood(h0, r0, limit, v, pend, tt, ta, tt.tok);
    ShrinkKeeps(h0, r0, limit, v, pend, tt, ta, tt.tok, LogicalRemoval(v.h, v.h[tt.tok], ta).0);
    ShrinkChain(v, tt.tok, LogicalRemoval(v.h, v.h[tt.tok], ta).0, tt);
  }

  lemma {:induction false} KidsAreTokens(h0: Graph, r0: Ref, limit: nat, v: View, pend: seq<Item>, tt: Item, ta: Ref,
          p: Ref)
    requires Inv(h0, r0, limit, v, pend, tt, ta) && p in v.h
    ensures forall k :: k in Kids(v.h[p]) ==> k in v.h
  {
    hide Sourced, Registered, Pending, Sized, Live, Counted, UniqueParent, Acyclic, Orphan;
  }

  lemma {:induction false} ClimbedFields(v: View, at: Item)
    requires at.Item?
    ensures var w := Climbed(v, at);
            && w.h == v.h && w.next == v.next && w.root == v.root && w.climbed == (v.climbed || at.parent.NoItem?)
            && w.originals == v.originals && w.clones == v.clones && w.size == v.size && w.done == v.done
  {
  }

  lemma {:induction false} LiveEnds(v: View, pend: seq<Item>, tt: Item, ta: Ref)
    requires Live(v, pend, tt, ta)
    requires tt.Item? ==> tt.tok in v.h && ta !in Kids(v.h[tt.tok])
    ensures Live(v, pend, NoItem, 0)
  {
  }

  /** The parent no longer has the removed child: the cut is over. */
  lemma {:induction false} CutEnds(h0: Graph, r0: Ref, limit: nat, v: View, pend: seq<Item>, tt: Item, ta: Ref)
    requires Inv(h0, r0, limit, v, pend, tt, ta)
    requires tt.Item? ==> tt.tok in v.h && ta !in Kids(v.h[tt.tok])
    ensures Inv(h0, r0, limit, v, pend, NoItem, 0)
  {
    hide Shape, Sourced, Sized, Registered, Pending, Counted, Live;
    LiveEnds(v, pend, tt, ta);
  }

  lemma {:induction false} ClonesFit(h0: Graph, r0: Ref, limit: nat, keys: seq<Ref>, cap: nat, v: View, pend: seq<Item>)
    requires Bounded(h0, keys, cap, v) && Inv(h0, r0, limit, v, pend, NoItem, 0)
    ensures |v.clones| <= |keys|
  {
    hide Inv;
    ClonesAreFew(h0, r0, limit, v, pend);
  }

  // ---------- one pointer ----------

  lemma {:induction false} NewOriginalUncounted(h0: Graph, r0: Ref, limit: nat, v: View, item: Item, rest: seq<Item>,
          x: Ref)
    requires Inv(h0, r0, limit, v, [item] + rest, NoItem, 0) && x !in v.originals
    ensures item.Item? && CountOf(item.counts, x) == 0 && x !in v.clones
  {
    hide Inv;
    FirstIsOk(h0, r0, limit, v, item, rest);
    if x in v.clones { CloneKnown(h0, r0, limit, v, [item] + rest, x); }
  }

  lemma {:induction false} OriginalHasClone(h0: Graph, r0: Ref, limit: nat, v: View, pend: seq<Item>, x: Ref)
    requires Inv(h0, r0, limit, v, pend, NoItem, 0) && x in v.originals
    ensures v.originals[x] in v.clones && x in v.src && v.originals[x] in v.src && v.src[x] == v.src[v.originals[x]]
  {
    hide Inv;
    OriginalKnown(h0, r0, limit, v, pend, x);
  }

  /** What a new original makes known of a pointer. */
  lemma {:induction false} ExpandableNow(h0: Graph, r0: Ref, limit: nat, v: View, w: View, item: Item,
          rest: seq<Item>, child: Ref)
    requires Extends(v, w) && item.Item? && item.tok in v.h && v.h[item.tok].Pointer? && child in v.h
    requires Stands(h0, Origin(v, item.tok), Origin(v, child))
    requires CountOf(item.counts, child) < limit && child in w.clones
    requires Inv(h0, r0, limit, v, [item] + rest, NoItem, 0)
    ensures Expandable(h0, limit, w, item, child)
  {
    hide Inv, Stands;
    SourceKeys(h0, r0, limit, v, [item] + rest);
  }

  ghost function Origin(v: View, x: Ref): Ref {
    if x in v.src then v.src[x] else 0
  }
}
