/** The invariant and the promise of a run together, and what each step of it does to them. */
module UnrollRun {
  import opened TokenGraphs
  import opened UnrollWords
  import opened UnrollState
  import opened UnrollSteps
  import opened UnrollCopy
  import opened UnrollFresh
  import opened UnrollLink
  import opened UnrollCut
  import opened UnrollMeasure
  import opened UnrollRemoval
  import opened UnrollMachine
  import opened UnrollClones
  import opened UnrollEntries
  import opened UnrollLasting
  import opened UnrollMarks
  import opened UnrollFaith
  import opened UnrollPromises
  import opened UnrollResult
  import opened UnrollLoss

  /** The state v is good, with `pend` still to be visited. */
  ghost predicate Good(pl: Plan, keys: seq<Ref>, cap: nat, v: View, marks: Marks, pend: seq<Item>) {
    && Sane(pl) && Bounded(pl.h0, keys, cap, v)
    && Inv(pl.h0, pl.r0, pl.limit, v, pend, NoItem, 0)
    && Promise(pl, v, marks, pend, NoItem, 0)
  }

  /** The same while a cut climbs. */
  ghost predicate GoodCut(pl: Plan, keys: seq<Ref>, cap: nat, v: View, marks: Marks, pend: seq<Item>, tt: Item, ta: Ref)
  {
    && Sane(pl) && Bounded(pl.h0, keys, cap, v) && ChainOk(v, tt)
    && Inv(pl.h0, pl.r0, pl.limit, v, pend, tt, ta)
    && Promise(pl, v, marks, pend, tt, ta)
  }

  function Weighs(pl: Plan, keys: seq<Ref>, cap: nat, v: View, items: seq<Item>): nat {
    WeightAll(v.size, cap, keys, pl.limit, items)
  }

  lemma {:induction false} GoodInv(pl: Plan, keys: seq<Ref>, cap: nat, v: View, marks: Marks, pend: seq<Item>)
    requires Good(pl, keys, cap, v, marks, pend)
    ensures Sane(pl) && Bounded(pl.h0, keys, cap, v) && Inv(pl.h0, pl.r0, pl.limit, v, pend, NoItem, 0)
  {
    hide Sane, Bounded, Inv, Promise;
  }

  lemma {:induction false} GoodPromise(pl: Plan, keys: seq<Ref>, cap: nat, v: View, marks: Marks, pend: seq<Item>)
    requires Good(pl, keys, cap, v, marks, pend)
    ensures Promise(pl, v, marks, pend, NoItem, 0)
  {
    hide Sane, Bounded, Inv, Promise;
  }

  lemma {:induction false} GoodOf(pl: Plan, keys: seq<Ref>, cap: nat, v: View, marks: Marks, pend: seq<Item>)
    requires Sane(pl) && Bounded(pl.h0, keys, cap, v) && Inv(pl.h0, pl.r0, pl.limit, v, pend, NoItem, 0)
    requires Promise(pl, v, marks, pend, NoItem, 0)
    ensures Good(pl, keys, cap, v, marks, pend)
  {
    hide Sane, Bounded, Inv, Promise;
  }

  lemma {:induction false} GoodCutParts(pl: Plan, keys: seq<Ref>, cap: nat, v: View, marks: Marks, pend: seq<Item>,
          tt: Item, ta: Ref)
    requires GoodCut(pl, keys, cap, v, marks, pend, tt, ta)
    ensures Sane(pl) && Bounded(pl.h0, keys, cap, v) && ChainOk(v, tt) && Inv(pl.h0, pl.r0, pl.limit, v, pend, tt, ta)
    ensures Promise(pl, v, marks, pend, tt, ta)
  {
    hide Sane, Bounded, Inv, Promise, ChainOk;
  }

  lemma {:induction false} GoodCutOf(pl: Plan, keys: seq<Ref>, cap: nat, v: View, marks: Marks, pend: seq<Item>,
          tt: Item, ta: Ref)
    requires Sane(pl) && Bounded(pl.h0, keys, cap, v) && ChainOk(v, tt) && Inv(pl.h0, pl.r0, pl.limit, v, pend, tt, ta)
    requires Promise(pl, v, marks, pend, tt, ta)
    ensures GoodCut(pl, keys, cap, v, marks, pend, tt, ta)
  {
    hide Sane, Bounded, Inv, Promise, ChainOk;
  }

  // ---------- the start ----------

  lemma {:induction false} GoodStart(pl: Plan, next: Ref) returns (v: View, keys: seq<Ref>)
    requires Grammar(pl.h0, pl.r0, pl.rank) && Sane(pl) && forall x :: x in pl.h0 ==> x < next
    ensures Good(pl, keys, 0, v, pl.heights, [Item(pl.r0, NoItem, map[])])
    ensures v.h == pl.h0 && v.next == next && v.root == pl.r0 && !v.climbed && v.originals == map[] && v.clones == map[]
  {
    hide *;
    v, keys := StartExists(pl.h0, next, pl.r0, pl.rank, pl.limit);
    StartPromise(pl, v, v.top, v.size, next);
    GoodOf(pl, keys, 0, v, pl.heights, [Item(pl.r0, NoItem, map[])]);
  }

  // ---------- what is known of the first entry ----------

  lemma {:induction false} GoodFirst(pl: Plan, keys: seq<Ref>, cap: nat, v: View, marks: Marks, item: Item,
          rest: seq<Item>)
    requires Good(pl, keys, cap, v, marks, [item] + rest)
    ensures item.Item? && item.tok in v.h && item.tok !in v.done
    ensures item.parent.Item? ==> item.parent.tok in v.h && item.parent.tok != item.tok
  {
    hide *;
    GoodInv(pl, keys, cap, v, marks, [item] + rest);
    GoodPromise(pl, keys, cap, v, marks, [item] + rest);
    FirstIsOk(pl.h0, pl.r0, pl.limit, v, item, rest);
    ItemKnown(v, item);
    ParentKnown(v, item);
  }

  lemma {:induction false} ItemKnown(v: View, item: Item)
    requires ItemOk(v, item)
    ensures item.Item? && item.tok in v.h && item.tok !in v.done
  {
    hide ChainOk, OnlyParent;
  }

  lemma {:induction false} GoodTarget(pl: Plan, keys: seq<Ref>, cap: nat, v: View, marks: Marks, pend: seq<Item>,
          t: Ref)
    requires t in v.h && v.h[t].Pointer? && v.h[t].target.Some? && Good(pl, keys, cap, v, marks, pend)
    ensures v.h[t].target.value in pl.h0.Keys + v.originals.Keys && v.h[t].target.value in v.h
    ensures t in v.src && v.h[t].target.value in v.src && Stands(pl.h0, v.src[t], v.src[v.h[t].target.value])
  {
    hide *;
    GoodInv(pl, keys, cap, v, marks, pend);
    GoodPromise(pl, keys, cap, v, marks, pend);
    TargetKnown(pl.h0, pl.r0, pl.limit, v, pend, t);
  }

  lemma {:induction false} GoodClones(pl: Plan, keys: seq<Ref>, cap: nat, v: View, marks: Marks, pend: seq<Item>)
    requires Good(pl, keys, cap, v, marks, pend)
    ensures |v.clones| <= |keys| && v.src.Keys == v.h.Keys
  {
    hide *;
    GoodInv(pl, keys, cap, v, marks, pend);
    GoodPromise(pl, keys, cap, v, marks, pend);
    ClonesFit(pl.h0, pl.r0, pl.limit, keys, cap, v, pend);
    SourceKeys(pl.h0, pl.r0, pl.limit, v, pend);
  }

  /** An unset pointer is met only if nothing was promised. */
  lemma {:induction false} GoodAim(pl: Plan, keys: seq<Ref>, cap: nat, v: View, marks: Marks, item: Item,
          rest: seq<Item>)
    requires item.Item? && item.tok in v.h && v.h[item.tok].Pointer? && Good(pl, keys, cap, v, marks, [item] + rest)
    ensures pl.safe ==> !Aim(v.h, item.tok, {}).Unset?
  {
    hide *;
    GoodInv(pl, keys, cap, v, marks, [item] + rest);
    GoodPromise(pl, keys, cap, v, marks, [item] + rest);
    GoodFirst(pl, keys, cap, v, marks, item, rest);
    if pl.safe { SafeAim(pl, v, marks, [item] + rest, item.tok); }
  }

  lemma {:induction false} GoodDecides(pl: Plan, maxRepeat: nat, keys: seq<Ref>, cap: nat, v: View, marks: Marks,
          item: Item, rest: seq<Item>)
    requires item.Item? && item.tok in v.h && v.h[item.tok].Pointer? && Good(pl, keys, cap, v, marks, [item] + rest)
    requires pl.exact || pl.heights != map[] ==> maxRepeat == pl.limit
    ensures Fits(pl, maxRepeat, v, marks, item)
  {
    hide *;
    GoodInv(pl, keys, cap, v, marks, [item] + rest);
    GoodPromise(pl, keys, cap, v, marks, [item] + rest);
    Decides(pl, maxRepeat, v, marks, item, rest);
  }

  // ---------- visiting ----------

  lemma {:induction false} GoodVisit(pl: Plan, keys: seq<Ref>, cap: nat, v: View, marks: Marks, item: Item,
          rest: seq<Item>)
    requires item.Item? && item.tok in v.h && !v.h[item.tok].Pointer? && Good(pl, keys, cap, v, marks, [item] + rest)
    ensures Good(pl, keys, cap, Visited(v, item), MarksVisited(pl, marks, Kids(v.h[item.tok]), item.counts),
                 KidItems(Kids(v.h[item.tok]), item) + rest)
    ensures Weighs(pl, keys, cap, Visited(v, item), KidItems(Kids(v.h[item.tok]), item) + rest)
          < Weighs(pl, keys, cap, v, [item] + rest)
  {
    hide *;
    var more := KidItems(Kids(v.h[item.tok]), item) + rest;
    GoodInv(pl, keys, cap, v, marks, [item] + rest);
    GoodPromise(pl, keys, cap, v, marks, [item] + rest);
    FirstIsOk(pl.h0, pl.r0, pl.limit, v, item, rest);
    VisitKeeps(pl.h0, pl.r0, pl.limit, v, item, rest, 0);
    VisitLighter(v.size, cap, keys, pl.limit, Kids(v.h[item.tok]), item, rest);
    PromiseVisit(pl, v, marks, item, rest);
    VisitBounded(pl, keys, cap, v, item);
    GoodOf(pl, keys, cap, Visited(v, item), MarksVisited(pl, marks, Kids(v.h[item.tok]), item.counts), more);
    VisitWeighs(pl, keys, cap, v, item, more);
    WeighsIs(pl, keys, cap, v, [item] + rest);
  }

  lemma {:induction false} WeighsIs(pl: Plan, keys: seq<Ref>, cap: nat, v: View, items: seq<Item>)
    ensures Weighs(pl, keys, cap, v, items) == WeightAll(v.size, cap, keys, pl.limit, items)
  {
  }

  lemma {:induction false} VisitBounded(pl: Plan, keys: seq<Ref>, cap: nat, v: View, item: Item)
    requires item.Item? && item.tok in v.h && Bounded(pl.h0, keys, cap, v)
    ensures Bounded(pl.h0, keys, cap, Visited(v, item))
  {
  }

  lemma {:induction false} VisitWeighs(pl: Plan, keys: seq<Ref>, cap: nat, v: View, item: Item, items: seq<Item>)
    requires item.Item? && item.tok in v.h
    ensures Weighs(pl, keys, cap, Visited(v, item), items) == WeightAll(v.size, cap, keys, pl.limit, items)
  {
  }

  lemma {:induction false} VisitFields(v: View, item: Item)
    requires item.Item? && item.tok in v.h
    ensures var w := Visited(v, item);
            && w.h == v.h && w.next == v.next && w.root == v.root && w.climbed == v.climbed
            && w.originals == v.originals && w.clones == v.clones && w.done == v.done + {item.tok}
  {
  }

  // ---------- a new original ----------

  lemma {:induction false} GoodSizes(pl: Plan, keys: seq<Ref>, cap: nat, v: View, marks: Marks, pend: seq<Item>,
          dom: set<Ref>) returns (sz: map<Ref, nat>)
    requires ClosedIn(v.h, dom) && Good(pl, keys, cap, v, marks, pend)
    ensures Exact(v.h, dom, sz) && Copyable(v.h, dom, v.rank) && forall x :: x in v.h ==> x < v.next
  {
    hide *;
    GoodInv(pl, keys, cap, v, marks, pend);
    GoodPromise(pl, keys, cap, v, marks, pend);
    sz := SizesOf(pl.h0, pl.r0, pl.limit, v, pend, dom);
  }

  lemma {:induction false} GoodRegister(pl: Plan, keys: seq<Ref>, cap: nat, v: View, marks: Marks, pend: seq<Item>,
          g: Graph, m: Ref, o: map<Ref, Ref>, dom: set<Ref>, sz: map<Ref, nat>, c: Ref, x: Ref)
    returns (w: View, ms: Marks, cap': nat)
    requires c in o && o[c] == x && NotBelow(g, o, c) && x in pl.h0 && x in v.h && !v.h[x].Pointer? && x !in v.originals
    requires CopyOf(v.h, v.next, g, m, o, dom) && Exact(v.h, dom, sz) && Whole(pl, v, dom)
    requires Good(pl, keys, cap, v, marks, pend)
    ensures Good(pl, keys, cap', w, ms, pend) && Extends(v, w) && x !in v.clones
    ensures w.h == g && w.next == m && w.root == v.root && w.climbed == v.climbed
    ensures w.originals == v.originals[x := x] && w.clones == v.clones[x := c]
    ensures forall y :: y in v.h ==> (y in ms <==> y in marks) && (y in marks ==> ms[y] == marks[y])
  {
    hide *;
    w, ms, cap' := Registration(v, g, m, o, sz, c, x), MarksCopied(marks, o), cap
        + SizeOf(Registration(v, g, m, o, sz, c, x).size, c);
    GoodInv(pl, keys, cap, v, marks, pend);
    GoodPromise(pl, keys, cap, v, marks, pend);
    RegistrationHolds(pl.h0, pl.r0, pl.limit, v, pend, g, m, o, dom, sz, c, x, keys, cap);
    RegistrationPromise(pl, v, marks, pend, g, m, o, dom, sz, c, x);
    GoodOf(pl, keys, cap', w, ms, pend);
  }

  lemma {:induction false} GoodDomain(pl: Plan, keys: seq<Ref>, cap: nat, v: View, marks: Marks, item: Item,
          rest: seq<Item>, child: Ref)
    requires item.Item? && item.tok in v.h && v.h[item.tok].Pointer? && Aim(v.h, item.tok, {}) == At(child)
    requires child in pl.h0 && child in v.h && !v.h[child].Pointer?
    requires Good(pl, keys, cap, v, marks, [item] + rest)
    ensures ClosedIn(v.h, Domain(pl, v)) && child in Domain(pl, v) && Whole(pl, v, Domain(pl, v))
  {
    hide *;
    GoodInv(pl, keys, cap, v, marks, [item] + rest);
    GoodPromise(pl, keys, cap, v, marks, [item] + rest);
    DomainFits(pl, v, marks, item, rest, child);
  }

  /** An original that is known may be expanded. */
  lemma {:induction false} GoodKnown(pl: Plan, keys: seq<Ref>, cap: nat, v: View, marks: Marks, item: Item,
          rest: seq<Item>, child: Ref)
    requires item.Item? && item.tok in v.h && v.h[item.tok].Pointer? && child in v.originals
    requires Stands(pl.h0, Origin(v, item.tok), Origin(v, child)) && CountOf(item.counts, v.originals[child]) < pl.limit
    requires Good(pl, keys, cap, v, marks, [item] + rest)
    ensures Expandable(pl.h0, pl.limit, v, item, v.originals[child])
  {
    hide *;
    GoodInv(pl, keys, cap, v, marks, [item] + rest);
    GoodPromise(pl, keys, cap, v, marks, [item] + rest);
    OriginalHasClone(pl.h0, pl.r0, pl.limit, v, [item] + rest, child);
    SourceKeys(pl.h0, pl.r0, pl.limit, v, [item] + rest);
    KnownExpandable(pl, v, item, child);
  }

  lemma {:induction false} KnownExpandable(pl: Plan, v: View, item: Item, child: Ref)
    requires item.Item? && item.tok in v.h && v.h[item.tok].Pointer? && child in v.originals
    requires Stands(pl.h0, Origin(v, item.tok), Origin(v, child)) && CountOf(item.counts, v.originals[child]) < pl.limit
    requires v.originals[child] in v.clones && child in v.src && v.originals[child] in v.src
    requires v.src[child] == v.src[v.originals[child]] && v.src.Keys == v.h.Keys
    ensures Expandable(pl.h0, pl.limit, v, item, v.originals[child])
  {
    hide Stands;
  }

  /** So may one that was registered just now. */
  lemma {:induction false} GoodNew(pl: Plan, keys: seq<Ref>, cap: nat, v: View, marks: Marks, w: View, item: Item,
          rest: seq<Item>, child: Ref)
    requires item.Item? && item.tok in v.h && v.h[item.tok].Pointer? && child in v.h && child !in v.originals
    requires Stands(pl.h0, Origin(v, item.tok), Origin(v, child)) && child in w.clones && Extends(v, w)
    requires Good(pl, keys, cap, v, marks, [item] + rest)
    ensures Expandable(pl.h0, pl.limit, w, item, child) && CountOf(item.counts, child) == 0
  {
    hide *;
    GoodInv(pl, keys, cap, v, marks, [item] + rest);
    GoodPromise(pl, keys, cap, v, marks, [item] + rest);
    NewOriginalUncounted(pl.h0, pl.r0, pl.limit, v, item, rest, child);
    SanePlan(pl);
    SaneLimit(pl);
    ExpandableNow(pl.h0, pl.r0, pl.limit, v, w, item, rest, child);
  }

  // ---------- an expansion ----------

  lemma {:induction false} GoodToClone(pl: Plan, keys: seq<Ref>, cap: nat, v: View, marks: Marks, pend: seq<Item>,
          original: Ref)
    requires original in v.clones && Good(pl, keys, cap, v, marks, pend)
    ensures v.clones[original] in Unvisited(v) && v.clones[original] in v.h && !v.h[v.clones[original]].Pointer?
    ensures Copyable(v.h, Unvisited(v), v.rank) && original in v.h && forall x :: x in v.h ==> x < v.next
  {
    hide *;
    GoodInv(pl, keys, cap, v, marks, pend);
    GoodPromise(pl, keys, cap, v, marks, pend);
    ToClone(pl.h0, pl.r0, pl.limit, v, pend, original);
    ToCloneParts(pl, v, original);
  }

  lemma {:induction false} ToCloneParts(pl: Plan, v: View, original: Ref)
    requires Cloneable(pl.h0, v, original)
    ensures original in v.clones && v.clones[original] in Unvisited(v) && v.clones[original] in v.h
    ensures !v.h[v.clones[original]].Pointer? && Copyable(v.h, Unvisited(v), v.rank) && original in v.h
    ensures forall x :: x in v.h ==> x < v.next
  {
    hide Copyable, Exact;
  }

  /** w and ms are good when c, cloned into the graph g, has taken the place of the entry's pointer. */
  ghost predicate Replaces(pl: Plan, keys: seq<Ref>, cap: nat, v: View, marks: Marks, item: Item, rest: seq<Item>,
          g: Graph, m: Ref, c: Ref, original: Ref, w: View, ms: Marks)
  {
    && item.Item?
    && w.h == LinkedGraph(g, item, c) && w.next == m && w.climbed == v.climbed
    && w.root == (if item.parent.NoItem? then c else v.root)
    && w.originals == v.originals[c := original] && w.clones == v.clones
    && (forall x :: x in v.h ==> x in g && g[x] == v.h[x])
    && Weighs(pl, keys, cap, w, [LinkedItem(item, c, original)] + rest) < Weighs(pl, keys, cap, v, [item] + rest)
    && Good(pl, keys, cap, w, ms, [LinkedItem(item, c, original)] + rest)
  }

  lemma {:induction false} GoodExpand(pl: Plan, keys: seq<Ref>, cap: nat, v: View, marks: Marks, item: Item,
          rest: seq<Item>, g: Graph, m: Ref, o: map<Ref, Ref>, c: Ref, original: Ref) returns (w: View, ms: Marks)
    requires Expandable(pl.h0, pl.limit, v, item, original) && original in v.clones && original in v.h
    requires c in o && NotBelow(g, o, c) && v.clones[original] in v.h && !v.h[v.clones[original]].Pointer?
    requires o[c] == v.clones[original] && Chosen(pl, v, marks, item, original)
    requires CopyOf(v.h, v.next, g, m, o, Unvisited(v))
    requires Good(pl, keys, cap, v, marks, [item] + rest)
    ensures Replaces(pl, keys, cap, v, marks, item, rest, g, m, c, original, w, ms)
  {
    hide *;
    GoodInv(pl, keys, cap, v, marks, [item] + rest);
    GoodPromise(pl, keys, cap, v, marks, [item] + rest);
    CloneForIs(v, g, o, c, original);
    OriginalCloned(pl.h0, pl.limit, v, item, original);
    w := Linked(Expansion1(v, g, m, o), item, c, original);
    ms := MarksLinked(pl, MarksCopied(marks, o), c, MoreCounts(item, original));
    ExpansionHolds(pl.h0, pl.r0, pl.limit, keys, cap, v, item, rest, g, m, o, c, original);
    ExpansionPromise(pl, v, marks, item, rest, g, m, o, c, original);
    CopiesKeys(v, g, m, o, Unvisited(v));
    GoodOf(pl, keys, cap, w, ms, [LinkedItem(item, c, original)] + rest);
    WeighsIs(pl, keys, cap, v, [item] + rest);
    WeighsIs(pl, keys, cap, w, [LinkedItem(item, c, original)] + rest);
    ReplacesIs(pl, keys, cap, v, marks, item, rest, g, m, c, original, w, ms);
  }

  lemma {:induction false} ReplacesIs(pl: Plan, keys: seq<Ref>, cap: nat, v: View, marks: Marks, item: Item,
          rest: seq<Item>, g: Graph, m: Ref, c: Ref, original: Ref, w: View, ms: Marks)
    requires item.Item? && w.h == LinkedGraph(g, item, c) && w.next == m && w.climbed == v.climbed
    requires w.root == (if item.parent.NoItem? then c else v.root)
    requires w.originals == v.originals[c := original] && w.clones == v.clones
    requires forall x :: x in v.h ==> x in g && g[x] == v.h[x]
    requires Weighs(pl, keys, cap, w, [LinkedItem(item, c, original)] + rest) < Weighs(pl, keys, cap, v, [item] + rest)
    requires Good(pl, keys, cap, w, ms, [LinkedItem(item, c, original)] + rest)
    ensures Replaces(pl, keys, cap, v, marks, item, rest, g, m, c, original, w, ms)
  {
    hide Good, Weighs, LinkedGraph;
  }

  lemma {:induction false} CloneForIs(v: View, g: Graph, o: map<Ref, Ref>, c: Ref, original: Ref)
    requires c in o && NotBelow(g, o, c) && original in v.clones && original in v.h && o[c] == v.clones[original]
    requires v.clones[original] in v.h && !v.h[v.clones[original]].Pointer?
    ensures CloneFor(v, g, o, c, original)
  {
    hide NotBelow;
  }

  // ---------- a cut ----------

  lemma {:induction false} GoodCutOff(pl: Plan, keys: seq<Ref>, cap: nat, v: View, marks: Marks, item: Item,
          rest: seq<Item>)
    requires item.Item? && item.tok in v.h && v.h[item.tok].Pointer? && Doomed(pl, v, marks, item)
    requires Good(pl, keys, cap, v, marks, [item] + rest)
    ensures GoodCut(pl, keys, cap, CutOff(v, item), marks, rest, item.parent, item.tok)
    ensures Weighs(pl, keys, cap, CutOff(v, item), rest) < Weighs(pl, keys, cap, v, [item] + rest)
  {
    hide *;
    GoodInv(pl, keys, cap, v, marks, [item] + rest);
    GoodPromise(pl, keys, cap, v, marks, [item] + rest);
    FirstIsOk(pl.h0, pl.r0, pl.limit, v, item, rest);
    CutLighter(v.size, cap, keys, pl.limit, item, rest);
    CutOffKeeps(pl.h0, pl.r0, pl.limit, v, item, rest);
    PromiseCut(pl, v, marks, item, rest);
    CutOffFields(v, item);
    CutBounded(pl, keys, cap, v, CutOff(v, item));
    GoodCutOf(pl, keys, cap, CutOff(v, item), marks, rest, item.parent, item.tok);
    WeighsIs(pl, keys, cap, v, [item] + rest);
    WeighsIs(pl, keys, cap, CutOff(v, item), rest);
  }

  lemma {:induction false} CutBounded(pl: Plan, keys: seq<Ref>, cap: nat, v: View, w: View)
    requires Bounded(pl.h0, keys, cap, v) && w.size == v.size && w.clones == v.clones
    ensures Bounded(pl.h0, keys, cap, w)
  {
  }

  /** A step of a cut's way up, and what it leaves. */
  lemma {:induction false} GoodPrune(pl: Plan, keys: seq<Ref>, cap: nat, v: View, marks: Marks, pend: seq<Item>,
          tt: Item, ta: Ref)
    requires tt.Item? && tt.tok in v.h && GoodCut(pl, keys, cap, v, marks, pend, tt, ta)
    ensures LogicalRemoval(v.h, v.h[tt.tok], ta).1 ==> Good(pl, keys, cap, Pruned(v, tt, ta), marks, pend)
    ensures !LogicalRemoval(v.h, v.h[tt.tok], ta).1 ==>
              GoodCut(pl, keys, cap, Climbed(Pruned(v, tt, ta), tt), marks, pend, tt.parent, tt.tok)
  {
    hide *;
    var w := Pruned(v, tt, ta);
    GoodCutParts(pl, keys, cap, v, marks, pend, tt, ta);
    PruneKeeps(pl.h0, pl.r0, pl.limit, v, pend, tt, ta);
    PromisePrune(pl, v, marks, pend, tt, ta);
    PrunedFields(v, tt, ta);
    AfterPruneIs(pl, v, marks, pend, tt, ta);
    CutBounded(pl, keys, cap, v, w);
    if LogicalRemoval(v.h, v.h[tt.tok], ta).1 {
      CutEnds(pl.h0, pl.r0, pl.limit, w, pend, tt, ta);
      GoodOf(pl, keys, cap, w, marks, pend);
    } else {
      ClimbKeeps(pl.h0, pl.r0, pl.limit, w, pend, tt, ta);
      ClimbedFields(w, tt);
      CutBounded(pl, keys, cap, w, Climbed(w, tt));
      GoodCutOf(pl, keys, cap, Climbed(w, tt), marks, pend, tt.parent, tt.tok);
    }
  }

  lemma {:induction false} AfterPruneIs(pl: Plan, v: View, marks: Marks, pend: seq<Item>, tt: Item, ta: Ref)
    requires AfterPrune(pl, v, marks, pend, tt, ta)
    ensures tt.Item? && tt.tok in v.h
    ensures LogicalRemoval(v.h, v.h[tt.tok], ta).1 ==> Promise(pl, Pruned(v, tt, ta), marks, pend, NoItem, 0)
    ensures !LogicalRemoval(v.h, v.h[tt.tok], ta).1 ==>
              Promise(pl, Climbed(Pruned(v, tt, ta), tt), marks, pend, tt.parent, tt.tok)
  {
    hide Promise, Pruned, Climbed, LogicalRemoval;
  }

  lemma {:induction false} PrunedFields(v: View, tt: Item, ta: Ref)
    requires tt.Item? && tt.tok in v.h
    ensures var w := Pruned(v, tt, ta);
            && w.h == v.h[tt.tok := LogicalRemoval(v.h, v.h[tt.tok], ta).0] && w.next == v.next && w.root == v.root
            && w.climbed == v.climbed && w.originals == v.originals && w.clones == v.clones && w.size == v.size
            && w.done == v.done
  {
    hide LogicalRemoval;
  }

  lemma {:induction false} GoodCutHead(pl: Plan, keys: seq<Ref>, cap: nat, v: View, marks: Marks, pend: seq<Item>,
          tt: Item, ta: Ref)
    requires tt.Item? && GoodCut(pl, keys, cap, v, marks, pend, tt, ta)
    ensures tt.tok in v.h && forall k :: k in Kids(v.h[tt.tok]) ==> k in v.h
  {
    hide *;
    GoodCutParts(pl, keys, cap, v, marks, pend, tt, ta);
    ChainHead(v, tt);
    KidsAreTokens(pl.h0, pl.r0, pl.limit, v, pend, tt, ta, tt.tok);
  }

  /** The cut went on past the root. */
  lemma {:induction false} GoodCutEnds(pl: Plan, keys: seq<Ref>, cap: nat, v: View, marks: Marks, pend: seq<Item>,
          tt: Item, ta: Ref)
    requires tt.NoItem? && GoodCut(pl, keys, cap, v, marks, pend, tt, ta)
    ensures Good(pl, keys, cap, v, marks, pend)
  {
    hide *;
    GoodCutParts(pl, keys, cap, v, marks, pend, tt, ta);
    CutEnds(pl.h0, pl.r0, pl.limit, v, pend, tt, ta);
    PromiseEnds(pl, v, marks, pend, tt, ta);
    GoodOf(pl, keys, cap, v, marks, pend);
  }

  // ---------- the state of the machine ----------

  /** v is what the proof knows of the machine's state m. */
  ghost predicate Tied(v: View, m: Machine) {
    && v.h == m.h && v.next == m.next && v.root == m.root && v.climbed == m.climbed
    && v.originals == m.originals && v.clones == m.clones
  }

  /** The limit that is promised is the one that is kept: the first expansion is made before a counter is looked at. */
  ghost predicate Planned(pl: Plan, maxRepeat: nat) {
    && pl.limit == (if maxRepeat == 0 then 1 else maxRepeat)
    && (pl.exact || pl.heights != map[] ==> maxRepeat == pl.limit)
  }

  /** Everything about a state of a run. */
  ghost predicate Runs(pl: Plan, maxRepeat: nat, keys: seq<Ref>, cap: nat, v: View, marks: Marks, m: Machine) {
    Tied(v, m) && Planned(pl, maxRepeat) && m.seen <= v.done && Good(pl, keys, cap, v, marks, m.queue)
  }

  lemma {:induction false} RunsParts(pl: Plan, maxRepeat: nat, keys: seq<Ref>, cap: nat, v: View, marks: Marks,
          m: Machine)
    requires Runs(pl, maxRepeat, keys, cap, v, marks, m)
    ensures Tied(v, m) && Planned(pl, maxRepeat) && m.seen <= v.done && Good(pl, keys, cap, v, marks, m.queue)
  {
    hide Good;
  }

  lemma {:induction false} RunsOf(pl: Plan, maxRepeat: nat, keys: seq<Ref>, cap: nat, v: View, marks: Marks, m: Machine)
    requires Tied(v, m) && Planned(pl, maxRepeat) && m.seen <= v.done && Good(pl, keys, cap, v, marks, m.queue)
    ensures Runs(pl, maxRepeat, keys, cap, v, marks, m)
  {
    hide Good;
  }

  lemma {:induction false} RunsStart(pl: Plan, maxRepeat: nat, next: Ref) returns (v: View, keys: seq<Ref>)
    requires Grammar(pl.h0, pl.r0, pl.rank) && Sane(pl) && Planned(pl, maxRepeat) && forall x :: x in pl.h0 ==> x < next
    ensures Runs(pl, maxRepeat, keys, 0, v, pl.heights, Initial(pl.h0, pl.r0, next))
  {
    hide Grammar, Sane, Good, Planned;
    v, keys := GoodStart(pl, next);
    RunsOf(pl, maxRepeat, keys, 0, v, pl.heights, Initial(pl.h0, pl.r0, next));
  }

  // ---------- what a step needs ----------

  lemma {:induction false} ChainIn(v: View, it: Item)
    requires ChainOk(v, it)
    ensures ItemIn(v.h, it)
    decreases it
  {
    if it.Item? { ChainIn(v, it.parent); }
  }

  lemma {:induction false} ItemOkIn(v: View, item: Item)
    requires ItemOk(v, item)
    ensures ItemIn(v.h, item)
  {
    ChainIn(v, item.parent);
    hide ChainOk, OnlyParent;
  }

  lemma {:induction false} GoodFirstIn(pl: Plan, keys: seq<Ref>, cap: nat, v: View, marks: Marks, item: Item,
          rest: seq<Item>)
    requires Good(pl, keys, cap, v, marks, [item] + rest)
    ensures ItemIn(v.h, item)
  {
    hide *;
    GoodInv(pl, keys, cap, v, marks, [item] + rest);
    FirstIsOk(pl.h0, pl.r0, pl.limit, v, item, rest);
    ItemOkIn(v, item);
  }

  lemma {:induction false} ShapeDescends(v: View)
    requires Shape(v)
    ensures Descends(v.h, v.h.Keys, v.rank) && forall x :: x in v.h ==> x < v.next
  {
    hide UniqueParent, Apart, Aside;
  }

  lemma {:induction false} TargetsInside(h: Graph, s: set<Ref>)
    requires TargetsIn(h, s) && s <= h.Keys
    ensures TargetsIn(h, h.Keys)
  {
  }

  lemma {:induction false} SensibleIs(v: View, m: Machine)
    requires Tied(v, m) && Descends(v.h, v.h.Keys, v.rank) && TargetsIn(v.h, v.h.Keys)
        && (forall x :: x in v.h ==> x < v.next)
    requires (forall x :: x in v.originals ==> v.originals[x] in v.clones) && v.clones.Values <= v.h.Keys
    ensures Sensible(m, v.rank)
  {
    hide Descends, TargetsIn;
    assert forall o :: o in v.clones ==> v.clones[o] in v.clones.Values;
  }

  lemma {:induction false} OriginalsHaveClones(pl: Plan, v: View, pend: seq<Item>)
    requires Inv(pl.h0, pl.r0, pl.limit, v, pend, NoItem, 0)
    ensures forall x :: x in v.originals ==> v.originals[x] in v.clones
  {
    hide *;
    forall x | x in v.originals ensures v.originals[x] in v.clones {
      OriginalHasClone(pl.h0, pl.r0, pl.limit, v, pend, x);
    }
  }

  lemma {:induction false} GoodSensible(pl: Plan, keys: seq<Ref>, cap: nat, v: View, marks: Marks, pend: seq<Item>,
          m: Machine)
    requires Good(pl, keys, cap, v, marks, pend) && Tied(v, m)
    ensures Sensible(m, v.rank)
  {
    hide *;
    GoodInv(pl, keys, cap, v, marks, pend);
    InvTargets(pl, v, pend);
    InvGroups(pl, v, pend);
    KnownInGraph(pl, v, pend);
    ShapeDescends(v);
    TargetsInside(v.h, pl.h0.Keys + v.originals.Keys);
    OriginalsHaveClones(pl, v, pend);
    SensibleIs(v, m);
  }

  lemma {:induction false} GoodUncounted(pl: Plan, keys: seq<Ref>, cap: nat, v: View, marks: Marks, item: Item,
          rest: seq<Item>, m: Machine)
    requires Good(pl, keys, cap, v, marks, [item] + rest) && Tied(v, m)
    ensures Uncounted(m, item)
  {
    hide Good, Aim;
    GoodFirst(pl, keys, cap, v, marks, item, rest);
    var aim := Aim(m.h, item.tok, {});
    if aim.At? && aim.child !in m.originals {
      GoodNewToken(pl, keys, cap, v, marks, item, rest, aim.child);
    }
  }

  lemma {:induction false} GoodReady(pl: Plan, keys: seq<Ref>, cap: nat, v: View, marks: Marks, item: Item,
          rest: seq<Item>, m: Machine)
    requires Tied(v, m) && m.seen <= v.done && Good(pl, keys, cap, v, marks, [item] + rest)
    ensures Ready(m, item, v.rank)
  {
    hide *;
    GoodFirst(pl, keys, cap, v, marks, item, rest);
    GoodFirstIn(pl, keys, cap, v, marks, item, rest);
    GoodSensible(pl, keys, cap, v, marks, [item] + rest, m);
    GoodUncounted(pl, keys, cap, v, marks, item, rest, m);
    TiedGraph(v, m);
    ReadyIs(m, item, v.rank);
  }

  lemma {:induction false} RunsReady(pl: Plan, maxRepeat: nat, keys: seq<Ref>, cap: nat, v: View, marks: Marks,
          m: Machine)
    requires m.queue != [] && Runs(pl, maxRepeat, keys, cap, v, marks, m)
    ensures FirstReady(m, v.rank)
  {
    hide *;
    assert m.queue == [m.queue[0]] + m.queue[1..];
    RunsParts(pl, maxRepeat, keys, cap, v, marks, m);
    GoodReady(pl, keys, cap, v, marks, m.queue[0], m.queue[1..], m);
    FirstReadyIs(m, v.rank);
  }

  lemma {:induction false} TiedGraph(v: View, m: Machine)
    requires Tied(v, m)
    ensures v.h == m.h && v.next == m.next && v.root == m.root && v.climbed == m.climbed
    ensures v.originals == m.originals && v.clones == m.clones
  {
  }

  lemma {:induction false} ReadyIs(m: Machine, item: Item, rank: map<Ref, nat>)
    requires item.Item? && (item.parent.Item? ==> item.parent.tok != item.tok) && item.tok !in m.seen
    requires ItemIn(m.h, item) && Uncounted(m, item) && Sensible(m, rank)
    ensures Ready(m, item, rank)
  {
    hide Sensible, Uncounted;
  }

  /** The machine stops at an unset pointer only if nothing was promised. */
  lemma {:induction false} RunsStop(pl: Plan, maxRepeat: nat, keys: seq<Ref>, cap: nat, v: View, marks: Marks,
          m: Machine)
    requires Stops(m, NilPointer) && Runs(pl, maxRepeat, keys, cap, v, marks, m)
    ensures !pl.safe
  {
    hide Good, Aim, Planned;
    var item, rest := m.queue[0], m.queue[1..];
    assert m.queue == [item] + rest;
    GoodAim(pl, keys, cap, v, marks, item, rest);
  }

  lemma {:induction false} RunsLeft(pl: Plan, maxRepeat: nat, keys: seq<Ref>, cap: nat, v: View, marks: Marks,
          m: Machine)
    requires Runs(pl, maxRepeat, keys, cap, v, marks, m)
    ensures |m.clones| <= |keys|
  {
    hide *;
    RunsParts(pl, maxRepeat, keys, cap, v, marks, m);
    TiedGraph(v, m);
    GoodClones(pl, keys, cap, v, marks, m.queue);
  }

  // ---------- a step keeps everything ----------

  lemma {:induction false} ProgressIs(pl: Plan, keys: seq<Ref>, cap: nat, v: View, m: Machine, cap': nat, w: View,
          n: Machine)
    requires Progress(pl, keys, cap, v, m, cap', w, n)
    ensures |n.clones| > |m.clones|
         || (|n.clones| == |m.clones| && Weighs(pl, keys, cap', w, n.queue) < Weighs(pl, keys, cap, v, m.queue))
  {
    hide Weighs;
  }

  /** There are more originals, or there is less to visit. */
  ghost predicate Progress(pl: Plan, keys: seq<Ref>, cap: nat, v: View, m: Machine, cap': nat, w: View, n: Machine) {
    || |n.clones| > |m.clones|
    || (|n.clones| == |m.clones| && Weighs(pl, keys, cap', w, n.queue) < Weighs(pl, keys, cap, v, m.queue))
  }

  lemma {:induction false} NextVisit(pl: Plan, maxRepeat: nat, keys: seq<Ref>, cap: nat, v: View, marks: Marks,
          m: Machine, n: Machine) returns (w: View, ms: Marks, cap': nat)
    requires Next(maxRepeat, m, n) && !m.h[m.queue[0].tok].Pointer? && Runs(pl, maxRepeat, keys, cap, v, marks, m)
    ensures Runs(pl, maxRepeat, keys, cap', w, ms, n) && Progress(pl, keys, cap, v, m, cap', w, n)
  {
    hide Good, Weighs, KidItems, MarksVisited, Visited, Planned;
    var item, rest := m.queue[0], m.queue[1..];
    assert m.queue == [item] + rest;
    GoodVisit(pl, keys, cap, v, marks, item, rest);
    VisitFields(v, item);
    w, ms, cap' := Visited(v, item), MarksVisited(pl, marks, Kids(v.h[item.tok]), item.counts), cap;
  }

  /** w is v with the graph c.0, and climbed if c.1. */
  ghost predicate ClimbedTo(v: View, w: View, c: (Graph, bool)) {
    && w.h == c.0 && w.climbed == (v.climbed || c.1) && w.next == v.next && w.root == v.root
    && w.originals == v.originals && w.clones == v.clones && w.size == v.size && w.done == v.done
  }

  lemma {:induction false} ClimbedToEnd(v: View, tt: Item, ta: Ref)
    requires tt.Item? && tt.tok in v.h && LogicalRemoval(v.h, v.h[tt.tok], ta).1
    ensures ClimbedTo(v, Pruned(v, tt, ta), Climb(v.h, tt, ta))
  {
    hide LogicalRemoval, Pruned;
    PrunedFields(v, tt, ta);
    ClimbsOn(v.h, tt, ta);
  }

  lemma {:induction false} ClimbedToOn(v: View, w: View, tt: Item, ta: Ref)
    requires tt.Item? && tt.tok in v.h && !LogicalRemoval(v.h, v.h[tt.tok], ta).1
    requires var u := Climbed(Pruned(v, tt, ta), tt); ClimbedTo(u, w, Climb(u.h, tt.parent, tt.tok))
    ensures ClimbedTo(v, w, Climb(v.h, tt, ta))
  {
    hide LogicalRemoval, Pruned, Climbed;
    PrunedFields(v, tt, ta);
    ClimbedFields(Pruned(v, tt, ta), tt);
    ClimbsOn(v.h, tt, ta);
    if tt.parent.NoItem? { ClimbsPast(Pruned(v, tt, ta).h, tt.parent, tt.tok); }
  }

  lemma {:induction false} ClimbedToNow(v: View, tt: Item, ta: Ref)
    requires tt.NoItem? && v.climbed
    ensures ClimbedTo(v, v, Climb(v.h, tt, ta))
  {
  }

  lemma {:induction false} ClimbedPast(v: View, tt: Item)
    requires tt.Item?
    ensures Climbed(v, tt).climbed || tt.parent.Item?
  {
  }

  /** A cut, to its end. */
  lemma {:induction false} GoodClimb(pl: Plan, keys: seq<Ref>, cap: nat, v: View, marks: Marks, pend: seq<Item>,
          tt: Item, ta: Ref) returns (w: View)
    requires v.climbed || tt.Item?
    requires GoodCut(pl, keys, cap, v, marks, pend, tt, ta)
    ensures Good(pl, keys, cap, w, marks, pend) && ClimbedTo(v, w, Climb(v.h, tt, ta))
    decreases tt
  {
    hide *;
    if tt.NoItem? {
      GoodCutEnds(pl, keys, cap, v, marks, pend, tt, ta);
      w := v;
      ClimbedToNow(v, tt, ta);
    } else {
      GoodCutHead(pl, keys, cap, v, marks, pend, tt, ta);
      GoodPrune(pl, keys, cap, v, marks, pend, tt, ta);
      w := Pruned(v, tt, ta);
      if LogicalRemoval(v.h, v.h[tt.tok], ta).1 {
        ClimbedToEnd(v, tt, ta);
      } else {
        ClimbedPast(w, tt);
        w := GoodClimb(pl, keys, cap, Climbed(w, tt), marks, pend, tt.parent, tt.tok);
        ClimbedToOn(v, w, tt, ta);
      }
    }
  }

  lemma {:induction false} NextCut(pl: Plan, maxRepeat: nat, keys: seq<Ref>, cap: nat, v: View, marks: Marks,
          m: Machine, n: Machine) returns (w: View, ms: Marks, cap': nat)
    requires m.queue != [] && m.queue[0].Item? && m.queue[0].tok in m.h && m.h[m.queue[0].tok].Pointer?
    requires n == CutAt(Taken(m), m.queue[0]) && Doomed(pl, v, marks, m.queue[0])
        && Runs(pl, maxRepeat, keys, cap, v, marks, m)
    ensures Runs(pl, maxRepeat, keys, cap', w, ms, n) && Progress(pl, keys, cap, v, m, cap', w, n)
  {
    hide Good, GoodCut, CutOff, Doomed, Climb, WeightAll, Planned;
    var item, rest := m.queue[0], m.queue[1..];
    assert m.queue == [item] + rest;
    CutOffFields(v, item);
    GoodCutOff(pl, keys, cap, v, marks, item, rest);
    w := GoodClimb(pl, keys, cap, CutOff(v, item), marks, rest, item.parent, item.tok);
    ClimbPast(v.h[item.tok := Pointer(None)], item.parent, item.tok);
    ms, cap' := marks, cap;
  }

  lemma {:induction false} ClimbPast(h: Graph, tt: Item, ta: Ref)
    ensures tt.NoItem? ==> Climb(h, tt, ta).1
  {
  }

  lemma {:induction false} ExpandableClone(pl: Plan, v: View, item: Item, original: Ref)
    requires Expandable(pl.h0, pl.limit, v, item, original)
    ensures original in v.clones
  {
    hide Stands;
  }

  lemma {:induction false} GoodNewToken(pl: Plan, keys: seq<Ref>, cap: nat, v: View, marks: Marks, item: Item,
          rest: seq<Item>, child: Ref)
    requires child !in v.originals && Good(pl, keys, cap, v, marks, [item] + rest)
    ensures child !in v.clones && item.Item? && item.tok in v.src && item.tok in v.h && CountOf(item.counts, child) == 0
  {
    hide *;
    GoodInv(pl, keys, cap, v, marks, [item] + rest);
    NewOriginalUncounted(pl.h0, pl.r0, pl.limit, v, item, rest, child);
    GoodFirst(pl, keys, cap, v, marks, item, rest);
    SourceKeys(pl.h0, pl.r0, pl.limit, v, [item] + rest);
  }

  lemma {:induction false} StillThere(v: View, w: View, item: Item)
    requires item.Item? && item.tok in v.h && item.tok in v.src && Extends(v, w)
    ensures item.tok in w.h && w.h[item.tok] == v.h[item.tok] && item.tok in w.src && w.src[item.tok] == v.src[item.tok]
    ensures w.done == v.done && forall x :: x in v.h ==> x in w.h
  {
  }

  /** aim is a token that comes from where t comes from. */
  ghost predicate AimedAt(pl: Plan, v: View, t: Ref, aim: Aimed) {
    aim.At? ==>
      && aim.child in v.h && !v.h[aim.child].Pointer? && aim.child in pl.h0.Keys + v.originals.Keys
      && t in v.src && aim.child in v.src && Stands(pl.h0, v.src[t], v.src[aim.child])
  }

  lemma {:induction false} AimedOn(pl: Plan, v: View, t: Ref, c: Ref, aim: Aimed)
    requires t in v.src && c in v.src && Stands(pl.h0, v.src[t], v.src[c]) && AimedAt(pl, v, c, aim)
    ensures AimedAt(pl, v, t, aim)
  {
    if aim.At? { StandsOn(pl.h0, v.src[t], v.src[c], v.src[aim.child]); }
    hide Stands;
  }

  /** What a pointer leads to comes from where the pointer comes from. */
  lemma {:induction false} AimStands(pl: Plan, keys: seq<Ref>, cap: nat, v: View, marks: Marks, pend: seq<Item>,
          t: Ref, checked: set<Ref>)
    requires t in v.h && v.h[t].Pointer? && Good(pl, keys, cap, v, marks, pend)
    ensures AimedAt(pl, v, t, Aim(v.h, t, checked))
    decreases v.h.Keys - checked
  {
    hide Good, Stands, AimedAt;
    if v.h[t].target.Some? {
      var c := v.h[t].target.value;
      GoodTarget(pl, keys, cap, v, marks, pend, t);
      if v.h[c].Pointer? {
        if c !in checked {
          AimStands(pl, keys, cap, v, marks, pend, c, checked + {c});
          AimedOn(pl, v, t, c, Aim(v.h, c, checked + {c}));
        } else {
          AimedNowhere(pl, v, t, Loops);
        }
      } else {
        AimedHere(pl, v, t, c);
      }
    } else {
      AimedNowhere(pl, v, t, Unset);
    }
  }

  lemma {:induction false} AimedNowhere(pl: Plan, v: View, t: Ref, aim: Aimed)
    requires !aim.At?
    ensures AimedAt(pl, v, t, aim)
  {
  }

  lemma {:induction false} AimedHere(pl: Plan, v: View, t: Ref, c: Ref)
    requires c in v.h && !v.h[c].Pointer? && c in pl.h0.Keys + v.originals.Keys
    requires t in v.src && c in v.src && Stands(pl.h0, v.src[t], v.src[c])
    ensures AimedAt(pl, v, t, At(c))
  {
    hide Stands;
  }

  lemma {:induction false} AimedParts(pl: Plan, v: View, t: Ref, child: Ref)
    requires AimedAt(pl, v, t, At(child))
    ensures child in v.h && !v.h[child].Pointer? && child in pl.h0.Keys + v.originals.Keys
    ensures Stands(pl.h0, Origin(v, t), Origin(v, child))
  {
    hide Stands;
  }

  /** An entry that can be expanded to the original, when the machine is in state m. */
  ghost predicate CanExpand(pl: Plan, keys: seq<Ref>, cap: nat, v: View, marks: Marks, m: Machine, item: Item,
          original: Ref)
  {
    && Tied(v, m) && Expandable(pl.h0, pl.limit, v, item, original) && Chosen(pl, v, marks, item, original)
    && Good(pl, keys, cap, v, marks, [item] + m.queue)
  }

  lemma {:induction false} CanExpandIs(pl: Plan, keys: seq<Ref>, cap: nat, v: View, marks: Marks, m: Machine,
          item: Item, original: Ref)
    requires Tied(v, m) && Expandable(pl.h0, pl.limit, v, item, original) && Chosen(pl, v, marks, item, original)
    requires Good(pl, keys, cap, v, marks, [item] + m.queue)
    ensures CanExpand(pl, keys, cap, v, marks, m, item, original)
  {
    hide Tied, Expandable, Chosen, Good;
  }

  lemma {:induction false} CanExpandParts(pl: Plan, keys: seq<Ref>, cap: nat, v: View, marks: Marks, m: Machine,
          item: Item, original: Ref)
    requires CanExpand(pl, keys, cap, v, marks, m, item, original)
    ensures Tied(v, m) && Expandable(pl.h0, pl.limit, v, item, original) && Chosen(pl, v, marks, item, original)
    ensures Good(pl, keys, cap, v, marks, [item] + m.queue)
  {
    hide Tied, Expandable, Chosen, Good;
  }

  /** The original is known. */
  lemma {:induction false} RegisteredBefore(pl: Plan, maxRepeat: nat, keys: seq<Ref>, cap: nat, v: View, marks: Marks,
          m: Machine, item: Item, child: Ref)
    requires item.Item? && item.tok in v.h && v.h[item.tok].Pointer? && Aim(v.h, item.tok, {}) == At(child)
    requires child in v.originals && CountOf(item.counts, v.originals[child]) < pl.limit
    requires Chosen(pl, v, marks, item, v.originals[child]) && Tied(v, m)
        && Good(pl, keys, cap, v, marks, [item] + m.queue)
    ensures CanExpand(pl, keys, cap, v, marks, m, item, v.originals[child])
  {
    hide *;
    AimStands(pl, keys, cap, v, marks, [item] + m.queue, item.tok, {});
    AimedParts(pl, v, item.tok, child);
    GoodKnown(pl, keys, cap, v, marks, item, m.queue, child);
    CanExpandIs(pl, keys, cap, v, marks, m, item, v.originals[child]);
  }

  /** The original is registered now. */
  lemma {:induction false} RegisteredNow(pl: Plan, keys: seq<Ref>, cap: nat, v: View, marks: Marks, m: Machine,
          item: Item, child: Ref, g: Graph, next: Ref, c: Ref, n: Machine) returns (w: View, ms: Marks, cap': nat)
    requires item.Item? && item.tok in v.h && v.h[item.tok].Pointer? && Aim(v.h, item.tok, {}) == At(child)
    requires child !in v.originals && Cloned(m.h, m.next, child, g, next, c)
    requires n == m.(h := g, next := next, originals := m.originals[child := child], clones := m.clones[child := c])
    requires Chosen(pl, v, marks, item, child) && Tied(v, m) && Good(pl, keys, cap, v, marks, [item] + m.queue)
    ensures CanExpand(pl, keys, cap', w, ms, n, item, child) && |n.clones| == |m.clones| + 1 && w.done == v.done
  {
    hide *;
    var pend := [item] + m.queue;
    TiedGraph(v, m);
    AimStands(pl, keys, cap, v, marks, pend, item.tok, {});
    AimedParts(pl, v, item.tok, child);
    InOriginal(pl, v, child);
    GoodDomain(pl, keys, cap, v, marks, item, m.queue, child);
    GoodNewToken(pl, keys, cap, v, marks, item, m.queue, child);
    var dom := Domain(pl, v);
    var sz := GoodSizes(pl, keys, cap, v, marks, pend, dom);
    RanksKnown(v.h, dom, v.rank, child);
    var o := ClonedCopies(v.h, v.next, child, g, next, c, dom, v.rank);
    w, ms, cap' := GoodRegister(pl, keys, cap, v, marks, pend, g, next, o, dom, sz, c, child);
    StillThere(v, w, item);
    InClones(v, w, child, c);
    GoodNew(pl, keys, cap, v, marks, w, item, m.queue, child);
    ChosenStill(pl, v, marks, w, ms, item, child);
    TiedRegistered(v, m, w, n, child, c, g, next);
    CanExpandIs(pl, keys, cap', w, ms, n, item, child);
  }

  lemma {:induction false} InOriginal(pl: Plan, v: View, child: Ref)
    requires child in pl.h0.Keys + v.originals.Keys && child !in v.originals
    ensures child in pl.h0
  {
  }

  lemma {:induction false} InClones(v: View, w: View, child: Ref, c: Ref)
    requires w.clones == v.clones[child := c]
    ensures child in w.clones
  {
  }

  lemma {:induction false} RanksKnown(h: Graph, dom: set<Ref>, rank: map<Ref, nat>, x: Ref)
    requires Copyable(h, dom, rank) && x in h
    ensures x in rank
  {
  }

  lemma {:induction false} TiedRegistered(v: View, m: Machine, w: View, n: Machine, child: Ref, c: Ref, g: Graph,
          next: Ref)
    requires Tied(v, m) && child !in v.clones && w.h == g && w.next == next && w.root == v.root
        && w.climbed == v.climbed
    requires w.originals == v.originals[child := child] && w.clones == v.clones[child := c]
    requires n == m.(h := g, next := next, originals := m.originals[child := child], clones := m.clones[child := c])
    ensures Tied(w, n) && |n.clones| == |m.clones| + 1 && n.queue == m.queue && n.seen == m.seen
  {
  }

  lemma {:induction false} NextExpand(pl: Plan, maxRepeat: nat, keys: seq<Ref>, cap: nat, v: View, marks: Marks,
          m: Machine, item: Item, original: Ref, n: Machine) returns (w: View, ms: Marks)
    requires Planned(pl, maxRepeat) && item.Item? && Expands(m, item, original, n)
    requires CanExpand(pl, keys, cap, v, marks, m, item, original)
    ensures Runs(pl, maxRepeat, keys, cap, w, ms, n) && n.clones == m.clones
    ensures Weighs(pl, keys, cap, w, n.queue) < Weighs(pl, keys, cap, v, [item] + m.queue)
  {
    hide CanExpand, Planned, Cloned, PutIn, Tied, Expandable, Runs, Weighs, Chosen, Good, Replaces, Copyable, CopyOf,
        NotBelow;
    var g: Graph, next: Ref,
        c: Ref :| Cloned(m.h, m.next, m.clones[original], g, next, c) && n == PutIn(m, item, original, g, next, c);
    CanExpandParts(pl, keys, cap, v, marks, m, item, original);
    TiedGraph(v, m);
    ExpandableClone(pl, v, item, original);
    GoodToClone(pl, keys, cap, v, marks, [item] + m.queue, original);
    RanksKnown(v.h, Unvisited(v), v.rank, v.clones[original]);
    var o := ClonedCopies(v.h, v.next, v.clones[original], g, next, c, Unvisited(v), v.rank);
    w, ms := GoodExpand(pl, keys, cap, v, marks, item, m.queue, g, next, o, c, original);
    ReplacedRuns(pl, maxRepeat, keys, cap, v, marks, m, item, original, g, next, c, w, ms, n);
  }

  lemma {:induction false} ReplacedRuns(pl: Plan, maxRepeat: nat, keys: seq<Ref>, cap: nat, v: View, marks: Marks,
          m: Machine, item: Item, original: Ref, g: Graph, next: Ref, c: Ref, w: View, ms: Marks, n: Machine)
    requires Planned(pl, maxRepeat) && Tied(v, m) && item.Item? && n == PutIn(m, item, original, g, next, c)
    requires Replaces(pl, keys, cap, v, marks, item, m.queue, g, next, c, original, w, ms)
    ensures Runs(pl, maxRepeat, keys, cap, w, ms, n) && n.clones == m.clones
    ensures Weighs(pl, keys, cap, w, n.queue) < Weighs(pl, keys, cap, v, [item] + m.queue)
  {
    hide Good, Weighs, LinkedGraph, Planned;
  }

  lemma {:induction false} NextPut(pl: Plan, maxRepeat: nat, keys: seq<Ref>, cap: nat, v: View, marks: Marks,
          m: Machine, n: Machine) returns (w: View, ms: Marks, cap': nat)
    requires m.queue != [] && m.queue[0].Item? && m.queue[0].tok in m.h && m.h[m.queue[0].tok].Pointer?
    requires Unpoints(maxRepeat, Taken(m), m.queue[0], n) && Aim(m.h, m.queue[0].tok, {}).At?
    requires Wanted(maxRepeat, m.originals, m.queue[0].counts, Aim(m.h, m.queue[0].tok, {}).child)
    requires Chosen(pl, v, marks, m.queue[0], OriginalOf(m.originals, Aim(m.h, m.queue[0].tok, {}).child))
    requires Runs(pl, maxRepeat, keys, cap, v, marks, m)
    ensures Runs(pl, maxRepeat, keys, cap', w, ms, n) && Progress(pl, keys, cap, v, m, cap', w, n)
  {
    hide Good, Aim, Chosen, Expands, CanExpand, Cloned, Weighs;
    var t, item, child := Taken(m), m.queue[0], Aim(m.h, m.queue[0].tok, {}).child;
    assert m.queue == [item] + t.queue;
    var k :| Registers(t, child, k) && Expands(k, item, OriginalOf(t.originals, child), n);
    if child in t.originals {
      cap' := cap;
      RegisteredBefore(pl, maxRepeat, keys, cap, v, marks, t, item, child);
      w, ms := NextExpand(pl, maxRepeat, keys, cap, v, marks, t, item, t.originals[child], n);
    } else {
      var g: Graph, next: Ref, c: Ref :| Cloned(t.h, t.next, child, g, next, c)
        && k == t.(h := g, next := next, originals := t.originals[child := child], clones := t.clones[child := c]);
      var w1, ms1;
      w1, ms1, cap' := RegisteredNow(pl, keys, cap, v, marks, t, item, child, g, next, c, k);
      w, ms := NextExpand(pl, maxRepeat, keys, cap', w1, ms1, k, item, child, n);
    }
  }

  /** A step of the machine keeps everything, and there is less to do. */
  lemma {:induction false} RunsNext(pl: Plan, maxRepeat: nat, keys: seq<Ref>, cap: nat, v: View, marks: Marks,
          m: Machine, n: Machine) returns (w: View, ms: Marks, cap': nat)
    requires Next(maxRepeat, m, n) && Runs(pl, maxRepeat, keys, cap, v, marks, m)
    ensures Runs(pl, maxRepeat, keys, cap', w, ms, n) && Progress(pl, keys, cap, v, m, cap', w, n)
  {
    hide Runs, Aim, Chosen, Doomed, Wanted, OriginalOf, Progress, CutAt, Registers, Expands;
    if m.h[m.queue[0].tok].Pointer? {
      var item := m.queue[0];
      RunsDecides(pl, maxRepeat, keys, cap, v, marks, m);
      if Aim(m.h, item.tok, {}).At? && Wanted(maxRepeat, m.originals, item.counts, Aim(m.h, item.tok, {}).child) {
        w, ms, cap' := NextPut(pl, maxRepeat, keys, cap, v, marks, m, n);
      } else {
        w, ms, cap' := NextCut(pl, maxRepeat, keys, cap, v, marks, m, n);
      }
    } else {
      w, ms, cap' := NextVisit(pl, maxRepeat, keys, cap, v, marks, m, n);
    }
  }

  lemma {:induction false} RunsDecides(pl: Plan, maxRepeat: nat, keys: seq<Ref>, cap: nat, v: View, marks: Marks,
          m: Machine)
    requires m.queue != [] && m.queue[0].Item? && m.queue[0].tok in m.h && m.h[m.queue[0].tok].Pointer?
    requires Runs(pl, maxRepeat, keys, cap, v, marks, m)
    ensures var item, aim := m.queue[0], Aim(m.h, m.queue[0].tok, {});
            if aim.At? && Wanted(maxRepeat, m.originals, item.counts, aim.child)
            then Chosen(pl, v, marks, item, OriginalOf(m.originals, aim.child))
            else Doomed(pl, v, marks, item)
  {
    hide Good, Aim, Chosen, Doomed, Wanted, OriginalOf;
    var item, rest := m.queue[0], m.queue[1..];
    assert m.queue == [item] + rest;
    GoodDecides(pl, maxRepeat, keys, cap, v, marks, item, rest);
  }

  // ---------- the result ----------

  /** Every token of g comes from one of h, an expansion from its original, and s from where r leads. */
  ghost predicate ComesFrom(h: Graph, r: Ref, g: Graph, s: Ref, originals: map<Ref, Ref>, src: Source) {
    && Simulates(h, g, src) && s in src && Stands(h, r, src[s])
    && forall k :: k in originals ==> k in g && k in src && src[k] == originals[k]
  }

  /** No pointer can be reached, and no path has more expansions of an original than the bound. */
  ghost predicate Pointerless(g: Graph, s: Ref, originals: map<Ref, Ref>, bound: nat) {
    && (forall p :: Path(g, s, p) ==> Last(p) in g && !g[Last(p)].Pointer?)
    && (forall p, o :: Path(g, s, p) ==> Expansions(originals, p, o) <= bound)
  }

  lemma {:induction false} OriginalSource(pl: Plan, v: View, marks: Marks, pend: seq<Item>, k: Ref)
    requires k in v.originals && Inv(pl.h0, pl.r0, pl.limit, v, pend, NoItem, 0)
        && Promise(pl, v, marks, pend, NoItem, 0)
    ensures k in v.h && k in v.src && v.src[k] == v.originals[k]
  {
    hide Inv, Heights, MarksKnown, Paid, Alive, InPlace, RootLasts, Faithful;
    OriginalKnown(pl.h0, pl.r0, pl.limit, v, pend, k);
    CloneKnown(pl.h0, pl.r0, pl.limit, v, pend, v.originals[k]);
  }

  lemma {:induction false} SourcedParts(pl: Plan, v: View, pend: seq<Item>)
    requires Inv(pl.h0, pl.r0, pl.limit, v, pend, NoItem, 0)
    ensures Simulates(pl.h0, v.h, v.src) && v.root in v.src && Stands(pl.h0, pl.r0, v.src[v.root])
  {
    hide Shape, Sized, Registered, Pending, Live, Counted, Simulates, Stands;
  }

  lemma {:induction false} GoodEnd(pl: Plan, keys: seq<Ref>, cap: nat, v: View, marks: Marks)
    requires Good(pl, keys, cap, v, marks, [])
    ensures ComesFrom(pl.h0, pl.r0, v.h, v.root, v.originals, v.src) && Kept(pl, v)
    ensures DropsAreFree(pl.h0) ==> forall w :: Prints(v.h, v.root, w) ==> Prints(pl.h0, pl.r0, w)
    ensures !v.climbed ==> Pointerless(v.h, v.root, v.originals, pl.limit)
    ensures !v.climbed ==> PlainTreeIn(v.h, Survivors(v), v.root, v.rank)
  {
    hide Good, Inv, Promise, Sane, Bounded, Kept, DropsAreFree, Prints, Simulates, Stands, Path, Expansions,
        PlainTreeIn, Survivors;
    GoodInv(pl, keys, cap, v, marks, []);
    GoodPromise(pl, keys, cap, v, marks, []);
    SourcedParts(pl, v, []);
    forall k | k in v.originals ensures k in v.h && k in v.src && v.src[k] == v.originals[k] {
      OriginalSource(pl, v, marks, [], k);
    }
    PromiseKept(pl, v, marks);
    UnrolledWords(pl.h0, pl.r0, pl.limit, v);
    UnrolledPaths(pl.h0, pl.r0, pl.limit, v);
    if !v.climbed { UnrolledTree(pl.h0, pl.r0, pl.limit, v); }
  }

  lemma {:induction false} RunsEnd(pl: Plan, maxRepeat: nat, keys: seq<Ref>, cap: nat, v: View, marks: Marks,
          m: Machine)
    requires m.queue == [] && Runs(pl, maxRepeat, keys, cap, v, marks, m)
    ensures ComesFrom(pl.h0, pl.r0, m.h, m.root, m.originals, v.src) && Kept(pl, v) && v.climbed == m.climbed
    ensures v.h == m.h && v.root == m.root
    ensures DropsAreFree(pl.h0) ==> forall w :: Prints(m.h, m.root, w) ==> Prints(pl.h0, pl.r0, w)
    ensures !m.climbed ==>
        Pointerless(m.h, m.root, m.originals, pl.limit) && PlainTreeIn(m.h, Survivors(v), m.root, v.rank)
  {
    hide PlainTreeIn, Survivors;
    hide Runs, Tied, Good, ComesFrom, Kept, DropsAreFree, Prints, Pointerless;
    RunsParts(pl, maxRepeat, keys, cap, v, marks, m);
    TiedGraph(v, m);
    GoodEnd(pl, keys, cap, v, marks);
  }

  // ---------- the way up ----------

  lemma {:induction false} ChainUpTo(v: View, it: Item)
    requires it.Item? && ChainOk(v, it)
    ensures UpTo(it.parent, it.tok, v.root)
    decreases it
  {
    hide OnlyParent;
    if it.parent.Item? { ChainUpTo(v, it.parent); }
  }

  lemma {:induction false} PendingUpTo(v: View, pend: seq<Item>)
    requires Pending(v, pend) && pend != []
    ensures pend[0].Item? && UpTo(pend[0].parent, pend[0].tok, v.root)
  {
    assert ItemOk(v, pend[0]);
    hide OnlyParent, Pending;
    if pend[0].parent.Item? { ChainUpTo(v, pend[0].parent); }
  }

  /** The parents of the first entry lead to the root. */
  lemma {:induction false} RunsUpTo(pl: Plan, maxRepeat: nat, keys: seq<Ref>, cap: nat, v: View, marks: Marks,
          m: Machine)
    requires m.queue != [] && Runs(pl, maxRepeat, keys, cap, v, marks, m)
    ensures m.queue[0].Item? && UpTo(m.queue[0].parent, m.queue[0].tok, m.root)
  {
    hide *;
    RunsParts(pl, maxRepeat, keys, cap, v, marks, m);
    TiedGraph(v, m);
    GoodInv(pl, keys, cap, v, marks, m.queue);
    InvPending(pl.h0, pl.r0, pl.limit, v, m.queue);
    PendingUpTo(v, m.queue);
  }

  lemma {:induction false} InvPending(h0: Graph, r0: Ref, limit: nat, v: View, pend: seq<Item>)
    requires Inv(h0, r0, limit, v, pend, NoItem, 0)
    ensures Pending(v, pend)
  {
    hide Shape, Sourced, Sized, Registered, Pending, Live, Counted;
  }
}
