/**
 * What a run promises beyond the invariant of UnrollState, if the original graph allows it: tokens that
 * last are not cut off, pointers stay set, and the result is what UnrollSpec unfolds. Every step of the
 * worklist keeps the promise.
 */
module UnrollPromises {
  import opened TokenGraphs
  import opened UnrollWords
  import opened UnrollState
  import opened UnrollSteps
  import opened UnrollCopy
  import opened UnrollFresh
  import opened UnrollLink
  import opened UnrollCut
  import opened UnrollRemoval
  import opened UnrollMachine
  import opened UnrollClones
  import opened UnrollEntries
  import opened UnrollLasting
  import opened UnrollSpec
  import opened UnrollMarks
  import opened UnrollFaith

  ghost predicate PointersSet(h: Graph) {
    forall r :: r in h && h[r].Pointer? ==> h[r].target.Some?
  }

  /** What the plan says is true of the original graph. */
  ghost predicate Sane(pl: Plan) {
    && Formed(pl.h0, pl.rank) && pl.r0 in pl.h0 && pl.limit >= 1
    && Heights(pl.h0, pl.heights)
    && (pl.safe ==> PointersSet(pl.h0) && (pl.exact || forall x :: x in pl.h0 ==> x in pl.heights))
    && (pl.exact ==> Isolated(pl.h0, pl.r0, pl.own))
  }

  /** No pointer that was not visited is unset. */
  ghost predicate WaitingSet(v: View) {
    forall x :: x in v.h && x !in v.done && v.h[x].Pointer? ==> v.h[x].target.Some?
  }

  /** While a cut climbs, `gone` was removed from the token of `at`. */
  ghost predicate Promise(pl: Plan, v: View, marks: Marks, pend: seq<Item>, at: Item, gone: Ref) {
    && Marked(pl, v, marks)
    && (pl.safe ==> WaitingSet(v))
    && (pl.exact ==> Faithful(pl, v, pend))
    && (at.Item? ==> gone !in marks && (pl.exact ==> GoneOk(pl, v, gone)))
  }

  // ---------- visiting ----------

  lemma {:induction false} KidsAreNew(h0: Graph, v: View, pend: seq<Item>, x: Ref, k: Ref)
    requires Registered(h0, v, pend) && NoExpansionBelow(v) && x in Unvisited(v) && k in Kids(v.h[x])
    ensures k !in v.clones.Values && (k in v.originals ==> k in h0)
  {
    hide InItems;
    forall o | o in v.clones ensures v.clones[o] != k {
      assert CloneOk(h0, v, o);
      OrphanNotBelow(v.h, v.clones[o], x);
    }
    if k in v.originals {
      assert !Expansion(v.originals, k);
      assert KnownOk(v, k);
      assert CloneOk(h0, v, k);
    }
  }

  lemma {:induction false} VisitFacts(pl: Plan, v: View, item: Item, rest: seq<Item>)
    requires Inv(pl.h0, pl.r0, pl.limit, v, [item] + rest, NoItem, 0) && Alternatives(pl.h0)
    requires item.Item? && item.tok in v.h && !v.h[item.tok].Pointer?
    ensures Visitable(pl, v, item) && Visits(pl, v, item)
  {
    hide Inv, Shape, Sized, Registered, NoExpansionBelow, Pending, Live, ItemOk, Closed, TargetsIn, Simulates,
        Alternatives;
    hide SizeAll, CountsOk;
    FirstIsOk(pl.h0, pl.r0, pl.limit, v, item, rest);
    InvTargets(pl, v, [item] + rest);
    InvGroups(pl, v, [item] + rest);
    ItemUnvisited(v, item);
    VisitFactsKids(pl, v, item, rest);
  }

  lemma {:induction false} ItemUnvisited(v: View, item: Item)
    requires ItemOk(v, item)
    ensures item.tok in Unvisited(v) && (item.parent.NoItem? <==> item.tok == v.root)
  {
  }

  lemma {:induction false} InvGroups(pl: Plan, v: View, pend: seq<Item>)
    requires Inv(pl.h0, pl.r0, pl.limit, v, pend, NoItem, 0)
    ensures Shape(v) && Sized(v) && Registered(pl.h0, v, pend) && NoExpansionBelow(v) && Pending(v, pend)
    ensures Live(v, pend, NoItem, 0)
  {
    hide Shape, Sourced, Sized, Registered, Pending, Live, NoExpansionBelow, EdgeCounts, ItemCounts;
  }

  lemma {:induction false} InvTargets(pl: Plan, v: View, pend: seq<Item>)
    requires Inv(pl.h0, pl.r0, pl.limit, v, pend, NoItem, 0)
    ensures TargetsIn(v.h, pl.h0.Keys + v.originals.Keys) && Closed(v.h) && Simulates(pl.h0, v.h, v.src)
    ensures v.src.Keys == v.h.Keys && pl.h0.Keys <= v.h.Keys && v.dead <= v.done <= v.h.Keys && v.root in v.h
    ensures v.side !! v.done && v.side <= v.h.Keys
  {
    hide Live, Pending, Sized, Counted, CloneOk, KnownOk, UniqueParent, Acyclic, Closed, Apart, Aside, TargetsIn,
        Simulates;
  }

  lemma {:induction false} VisitFactsKids(pl: Plan, v: View, item: Item, rest: seq<Item>)
    requires Shape(v) && Sized(v) && Registered(pl.h0, v, [item] + rest) && NoExpansionBelow(v)
    requires item.Item? && item.tok in Unvisited(v)
    ensures forall k :: k in Kids(v.h[item.tok]) ==> k in Unvisited(v) && k != item.tok && k != v.root
    ensures forall k :: k in Kids(v.h[item.tok]) ==> k !in v.clones.Values && (k in v.originals ==> k in pl.h0)
    ensures forall y :: y in v.h && y != item.tok ==> forall k :: k in Kids(v.h[y]) ==> k !in Kids(v.h[item.tok])
  {
    var x := item.tok;
    KidsUnvisited(v, x);
    RootNotBelow(v, x);
    hide Shape, Sized;
    forall y, k | y in v.h && y != x && k in Kids(v.h[y]) ensures k !in Kids(v.h[x]) { OtherKid(v, x, y, k); }
    forall k | k in Kids(v.h[x]) ensures k !in v.clones.Values && (k in v.originals ==> k in pl.h0) {
      KidsAreNew(pl.h0, v, [item] + rest, x, k);
    }
    hide Registered, NoExpansionBelow;
  }

  lemma {:induction false} RootNotBelow(v: View, x: Ref)
    requires Shape(v) && x in Unvisited(v)
    ensures v.root !in Kids(v.h[x])
  {
    hide Closed, UniqueParent, Acyclic, Aside;
  }

  lemma {:induction false} PromiseVisit(pl: Plan, v: View, marks: Marks, item: Item, rest: seq<Item>)
    requires Inv(pl.h0, pl.r0, pl.limit, v, [item] + rest, NoItem, 0) && Sane(pl)
    requires item.Item? && item.tok in v.h && !v.h[item.tok].Pointer?
    requires Promise(pl, v, marks, [item] + rest, NoItem, 0)
    ensures Promise(pl, Visited(v, item), MarksVisited(pl, marks, Kids(v.h[item.tok]), item.counts),
                    KidItems(Kids(v.h[item.tok]), item) + rest, NoItem, 0)
  {
    VisitFacts(pl, v, item, rest);
    hide Inv, Visitable, Visits, Marked, Faithful, KidItems;
    VisitMarked(pl, v, marks, item);
    if pl.exact { VisitFaithful(pl, v, item, rest); }
  }

  // ---------- cloning ----------

  /** The tokens of dom may be cloned. */
  ghost predicate Whole(pl: Plan, v: View, dom: set<Ref>) {
    && (pl.safe ==> forall x :: x in dom && x in v.h && v.h[x].Pointer? ==> v.h[x].target.Some?)
    && (pl.exact ==> dom !! v.done)
  }

  lemma {:induction false} CopiesSet(v: View, g: Graph, m: Ref, o: map<Ref, Ref>, dom: set<Ref>, sz: map<Ref, nat>)
    requires WaitingSet(v) && CopyOf(v.h, v.next, g, m, o, dom)
    requires forall x :: x in dom && x in v.h && v.h[x].Pointer? ==> v.h[x].target.Some?
    ensures WaitingSet(WithCopies(v, g, m, o, sz))
  {
    CopiesKeys(v, g, m, o, dom);
    forall x | x in o ensures o[x] in dom { CopyArity(v.h, v.next, g, m, o, dom, x); }
    hide CopyOf;
  }

  lemma {:induction false} KnownInGraph(pl: Plan, v: View, pend: seq<Item>)
    requires Inv(pl.h0, pl.r0, pl.limit, v, pend, NoItem, 0)
    ensures v.originals.Keys <= v.h.Keys && v.clones.Values <= v.h.Keys
  {
    hide Inv;
    forall x | x in v.originals ensures x in v.h { OriginalKnown(pl.h0, pl.r0, pl.limit, v, pend, x); }
    ClonesAreTokens(pl.h0, pl.r0, pl.limit, v, pend);
  }

  lemma {:induction false} PromiseCopies(pl: Plan, v: View, marks: Marks, pend: seq<Item>, g: Graph, m: Ref,
          o: map<Ref, Ref>, dom: set<Ref>, sz: map<Ref, nat>)
    requires Inv(pl.h0, pl.r0, pl.limit, v, pend, NoItem, 0) && Promise(pl, v, marks, pend, NoItem, 0)
    requires CopyOf(v.h, v.next, g, m, o, dom) && Whole(pl, v, dom)
    ensures Promise(pl, WithCopies(v, g, m, o, sz), MarksCopied(marks, o), pend, NoItem, 0)
  {
    hide Inv, Marked, Faithful, CopyOf, MarksCopied, Simulates, WaitingSet, TargetsIn, Closed, WithCopies;
    InvTargets(pl, v, pend);
    KnownInGraph(pl, v, pend);
    CopiesMarked(pl, v, marks, g, m, o, dom, sz);
    if pl.safe { CopiesSet(v, g, m, o, dom, sz); }
    if pl.exact { CopiesFaithful(pl, v, g, m, o, dom, sz, pend); }
  }

  lemma {:induction false} PromiseRegister(pl: Plan, v: View, marks: Marks, pend: seq<Item>, x: Ref, c: Ref)
    requires Promise(pl, v, marks, pend, NoItem, 0)
    requires x in pl.h0 && (c in marks <==> x in marks) && (c in marks ==> marks[c] == marks[x])
    ensures Promise(pl, v.(originals := v.originals[x := x], clones := v.clones[x := c]), marks, pend, NoItem, 0)
  {
    hide Marked, Faithful;
    RegisterMarked(pl, v, marks, x, c);
    if pl.exact { RegisterFaithful(pl, v, pend, x, c); }
  }

  // ---------- where a pointer leads ----------

  /** From a set pointer, set pointers never lead nowhere. */
  lemma {:induction false} AimSet(h: Graph, t: Ref, checked: set<Ref>)
    requires t in h && h[t].Pointer? && h[t].target.Some?
    requires forall p ::
        p in h && h[p].Pointer? && h[p].target.Some? && h[p].target.value in h && h[h[p].target.value].Pointer? ==>
               h[h[p].target.value].target.Some?
    ensures !Aim(h, t, checked).Unset?
    decreases h.Keys - checked
  {
    var c := h[t].target.value;
    if c in h && h[c].Pointer? && c !in checked {
      AimSet(h, c, checked + {c});
    }
  }

  /** What pointers lead to that are not the root's own is as it was. */
  ghost predicate OthersSame(pl: Plan, h: Graph) {
    forall x :: x in pl.h0 && x !in pl.own ==> x in h && h[x] == pl.h0[x]
  }

  lemma {:induction false} AimSame(pl: Plan, h: Graph, t: Ref, t0: Ref, checked: set<Ref>)
    requires OthersSame(pl, h) && Isolated(pl.h0, pl.r0, pl.own) && Closed(pl.h0)
    requires t in h && t0 in pl.h0 && h[t] == pl.h0[t0] && h[t].Pointer?
    ensures Aim(h, t, checked) == Aim(pl.h0, t0, checked)
    ensures Aim(h, t, checked).At? ==> Aim(h, t, checked).child in pl.h0 && Aim(h, t, checked).child !in pl.own
    decreases h.Keys - checked
  {
    if h[t].target.Some? {
      var c := h[t].target.value;
      assert c in pl.h0 && c !in pl.own;
      if h[c].Pointer? && c !in checked {
        AimSame(pl, h, c, c, checked + {c});
      }
    }
  }

  lemma {:induction false} OthersAreSame(pl: Plan, v: View, pend: seq<Item>)
    requires OthersKept(pl, v, pend)
    ensures OthersSame(pl, v.h)
  {
    hide InItems, OwnEdges;
  }

  lemma {:induction false} SanePlan(pl: Plan)
    requires Sane(pl)
    ensures Formed(pl.h0, pl.rank) && Closed(pl.h0) && (pl.exact ==> Isolated(pl.h0, pl.r0, pl.own))
  {
    hide Heights, Isolated, Acyclic;
  }

  /** A pointer that was not visited leads where it led. */
  lemma {:induction false} AimFaithful(pl: Plan, v: View, pend: seq<Item>, t: Ref)
    requires Faithful(pl, v, pend) && Sane(pl) && pl.exact && t in v.h && v.h[t].Pointer? && t !in v.done
    ensures t in v.src && v.src[t] in pl.h0 && pl.h0[v.src[t]] == v.h[t]
    ensures Aim(v.h, t, {}) == Aim(pl.h0, v.src[t], {})
    ensures Aim(v.h, t, {}).At? ==> Aim(v.h, t, {}).child in pl.h0 && Aim(v.h, t, {}).child !in pl.own
  {
    hide OthersSame, Aim, NodesOk, DeadOk, OthersKept, RootFaithful, Formed, Heights;
    assert Pristine(pl, v, t);
    OthersAreSame(pl, v, pend);
    SanePlan(pl);
    hide Untouched, Isolated, Sane;
    AimSame(pl, v.h, t, v.src[t], {});
  }

  /** Pointers of the original graph are set, or if every token lasts, marked. */
  lemma {:induction false} TargetsStaySet(pl: Plan, v: View, marks: Marks, pend: seq<Item>, p: Ref)
    requires Promise(pl, v, marks, pend, NoItem, 0) && Sane(pl) && pl.safe && !pl.exact
    requires TargetsIn(v.h, pl.h0.Keys + v.originals.Keys)
        && (forall x :: x in v.originals && x in v.h ==> !v.h[x].Pointer?)
    requires p in v.h && v.h[p].Pointer? && v.h[p].target.Some? && v.h[p].target.value in v.h
    requires v.h[v.h[p].target.value].Pointer?
    ensures v.h[v.h[p].target.value].target.Some?
  {
    var k := v.h[p].target.value;
    hide Faithful, WaitingSet, Formed, Heights, Alive, Paid, InPlace, TargetsIn, RestsOn;
    assert k in pl.h0 by { TargetIn(v.h, pl.h0.Keys + v.originals.Keys, p); }
    assert k in marks && RestsOn(v.h, marks, k, marks[k]);
    RestsOnTarget(v.h, marks, k, marks[k]);
  }

  lemma {:induction false} TargetIn(h: Graph, s: set<Ref>, p: Ref)
    requires TargetsIn(h, s) && p in h && h[p].Pointer? && h[p].target.Some?
    ensures h[p].target.value in s
  {
  }

  lemma {:induction false} RestsOnTarget(h: Graph, marks: Marks, k: Ref, n: nat)
    requires RestsOn(h, marks, k, n) && h[k].Pointer?
    ensures h[k].target.Some?
  {
  }

  lemma {:induction false} OriginalsAreTokens(pl: Plan, v: View, pend: seq<Item>)
    requires Inv(pl.h0, pl.r0, pl.limit, v, pend, NoItem, 0)
    ensures forall x :: x in v.originals ==> x in v.h && !v.h[x].Pointer?
  {
    hide Inv;
    forall x | x in v.originals ensures x in v.h && !v.h[x].Pointer? {
      OriginalKnown(pl.h0, pl.r0, pl.limit, v, pend, x);
    }
  }

  lemma {:induction false} SafeAimExact(pl: Plan, v: View, pend: seq<Item>, t: Ref)
    requires Faithful(pl, v, pend) && Sane(pl) && pl.exact && pl.safe && t in v.h && v.h[t].Pointer? && t !in v.done
    ensures !Aim(v.h, t, {}).Unset?
  {
    AimFaithful(pl, v, pend, t);
    hide Faithful, Aim, Formed, Heights, Isolated;
    AimSet(pl.h0, v.src[t], {});
  }

  lemma {:induction false} SafeAimMarked(pl: Plan, v: View, marks: Marks, pend: seq<Item>, t: Ref)
    requires Promise(pl, v, marks, pend, NoItem, 0) && Sane(pl) && pl.safe && !pl.exact
    requires TargetsIn(v.h, pl.h0.Keys + v.originals.Keys)
        && (forall x :: x in v.originals && x in v.h ==> !v.h[x].Pointer?)
    requires t in v.h && v.h[t].Pointer? && v.h[t].target.Some?
    ensures !Aim(v.h, t, {}).Unset?
  {
    hide Aim, Promise, Sane, TargetsIn;
    forall p | p in v.h && v.h[p].Pointer? && v.h[p].target.Some? && v.h[p].target.value in v.h
               && v.h[v.h[p].target.value].Pointer?
      ensures v.h[v.h[p].target.value].target.Some?
    {
      TargetsStaySet(pl, v, marks, pend, p);
    }
    AimSet(v.h, t, {});
  }

  /** The next pointer leads somewhere. */
  lemma {:induction false} SafeAim(pl: Plan, v: View, marks: Marks, pend: seq<Item>, t: Ref)
    requires Inv(pl.h0, pl.r0, pl.limit, v, pend, NoItem, 0) && Sane(pl) && pl.safe
    requires Promise(pl, v, marks, pend, NoItem, 0) && t in v.h && v.h[t].Pointer? && t !in v.done
    ensures !Aim(v.h, t, {}).Unset?
  {
    hide Inv, Aim, Marked, Faithful, Sane, Simulates, TargetsIn, Closed;
    InvTargets(pl, v, pend);
    OriginalsAreTokens(pl, v, pend);
    if pl.exact { SafeAimExact(pl, v, pend, t); } else { SafeAimMarked(pl, v, marks, pend, t); }
  }

  /** Marks fall along pointers, so marked pointers lead to a marked token that is no pointer. */
  lemma {:induction false} MarkedAim(h: Graph, marks: Marks, t: Ref, checked: set<Ref>)
    requires Heights(h, marks) && t in marks && t in h && h[t].Pointer?
    requires forall y :: y in checked ==> y in marks && marks[y] >= marks[t]
    ensures Aim(h, t, checked).At? && Aim(h, t, checked).child in marks && marks[Aim(h, t, checked).child] < marks[t]
    decreases marks[t]
  {
    assert RestsOn(h, marks, t, marks[t]);
    var c := h[t].target.value;
    assert RestsOn(h, marks, c, marks[c]);
    if h[c].Pointer? {
      assert c !in checked;
      MarkedAim(h, marks, c, checked + {c});
    }
  }

  lemma {:induction false} OriginalLower(pl: Plan, v: View, marks: Marks, child: Ref)
    requires MarksKnown(pl, v, marks) && child in marks && child in pl.h0.Keys + v.originals.Keys
    ensures OriginalOf(v.originals, child) in pl.heights && pl.heights[OriginalOf(v.originals, child)] == marks[child]
  {
  }

  lemma {:induction false} LowerAffords(pl: Plan, item: Item, o: Ref, n: nat)
    requires item.Item? && o in pl.heights && pl.heights[o] < n && Affords(pl, item.counts, n)
    ensures CountOf(item.counts, o) < pl.limit || pl.limit == 0
    ensures Affords(pl, MoreCounts(item, o), pl.heights[o])
  {
  }

  /** A marked pointer leads to an original that is lower, and may still be expanded. */
  lemma {:induction false} PointerPays(pl: Plan, v: View, marks: Marks, item: Item)
    requires Marked(pl, v, marks) && item.Item? && item.tok in marks && item.tok in v.h && v.h[item.tok].Pointer?
    requires item.tok in v.cnt && v.cnt[item.tok] == item.counts && pl.limit >= 1
    requires TargetsIn(v.h, pl.h0.Keys + v.originals.Keys)
    ensures var aim := Aim(v.h, item.tok, {});
            && aim.At?
            && var o := OriginalOf(v.originals, aim.child);
               && o in pl.heights && pl.heights[o] < marks[item.tok] && CountOf(item.counts, o) < pl.limit
               && Affords(pl, MoreCounts(item, o), pl.heights[o])
  {
    hide Aim, Heights, InPlace, Alive, MarksKnown, Affords, TargetsIn, RootLasts, OriginalOf;
    MarkedAim(v.h, marks, item.tok, {});
    AimIn(v.h, item.tok, {}, pl.h0.Keys + v.originals.Keys);
    var child := Aim(v.h, item.tok, {}).child;
    OriginalLower(pl, v, marks, child);
    LowerAffords(pl, item, OriginalOf(v.originals, child), marks[item.tok]);
  }

  lemma {:induction false} AimIn(h: Graph, t: Ref, checked: set<Ref>, s: set<Ref>)
    requires TargetsIn(h, s)
    ensures Aim(h, t, checked).At? ==> Aim(h, t, checked).child in s
    decreases h.Keys - checked
  {
    if t in h && h[t].Pointer? && h[t].target.Some? {
      var c := h[t].target.value;
      if c in h && h[c].Pointer? && c !in checked {
        AimIn(h, c, checked + {c}, s);
      }
    }
  }

  // ---------- an expansion ----------

  /** The pointer of the entry is to be expanded to the original. */
  ghost predicate Chosen(pl: Plan, v: View, marks: Marks, item: Item, original: Ref) {
    && item.Item? && original in pl.h0
    && (item.tok in marks ==>
          && original in pl.heights && pl.heights[original] < marks[item.tok]
          && Affords(pl, MoreCounts(item, original), pl.heights[original]))
    && (pl.exact ==>
          && item.tok in v.src && v.src[item.tok] in pl.h0
          && Grows(pl.h0, pl.limit, v.src[item.tok], item.counts) && Aim(pl.h0, v.src[item.tok], {}).child == original)
  }

  lemma {:induction false} LinkStrange(pl: Plan, v: View, item: Item, rest: seq<Item>, c: Ref, original: Ref)
    requires Linkable(pl.h0, pl.limit, v, item, rest, c, original) && NoClone(v, c)
    requires TargetsIn(v.h, pl.h0.Keys + v.originals.Keys) && v.dead <= v.done
    ensures Strange(pl, v, c)
  {
    hide InItems, Orphan, Stands;
  }

  lemma {:induction false} LinkGrown(pl: Plan, v: View, marks: Marks, item: Item, rest: seq<Item>, c: Ref,
          original: Ref)
    requires Linkable(pl.h0, pl.limit, v, item, rest, c, original) && Chosen(pl, v, marks, item, original)
    requires Formed(pl.h0, pl.rank) && pl.exact && OthersKept(pl, v, [item] + rest)
    requires item.tok in v.cnt && v.cnt[item.tok] == item.counts
    ensures Grown(pl, v, item, c, original)
  {
    hide InItems, Orphan, Stands, Formed, Grows, OwnEdges;
  }

  lemma {:induction false} ChosenSucceeds(pl: Plan, v: View, marks: Marks, item: Item, c: Ref, original: Ref)
    requires Chosen(pl, v, marks, item, original)
    requires (c in marks <==> original in pl.heights) && (c in marks ==> marks[c] == pl.heights[original])
    ensures Succeeds(pl, marks, item, c, original)
  {
    hide Affords, Grows;
  }

  lemma {:induction false} FaithfulLink(pl: Plan, v: View, marks: Marks, item: Item, rest: seq<Item>, c: Ref,
          original: Ref)
    requires Faithful(pl, v, [item] + rest) && Sane(pl) && pl.exact && Strange(pl, v, c) && ItemOk(v, item)
        && v.side !! v.done
    requires Linkable(pl.h0, pl.limit, v, item, rest, c, original) && Chosen(pl, v, marks, item, original)
    requires item.tok in v.cnt && v.cnt[item.tok] == item.counts
    ensures Faithful(pl, Linked(v, item, c, original), [LinkedItem(item, c, original)] + rest)
  {
    ItemUnvisited(v, item);
    assert item.tok in v.h && v.h[item.tok].Pointer? && Formed(pl.h0, pl.rank);
    hide Sane, Strange, ItemOk, Faithful, Linkable, Chosen;
    OthersOf(pl, v, [item] + rest);
    LinkGrown(pl, v, marks, item, rest, c, original);
    hide OthersKept, Grown, Linked;
    LinkFaithful(pl, v, item, rest, c, original);
  }

  lemma {:induction false} PromiseLink(pl: Plan, v: View, marks: Marks, item: Item, rest: seq<Item>, c: Ref,
          original: Ref)
    requires Inv(pl.h0, pl.r0, pl.limit, v, [item] + rest, NoItem, 0) && Sane(pl)
    requires Promise(pl, v, marks, [item] + rest, NoItem, 0)
    requires Linkable(pl.h0, pl.limit, v, item, rest, c, original) && NoClone(v, c)
        && Chosen(pl, v, marks, item, original)
    requires (c in marks <==> original in pl.heights) && (c in marks ==> marks[c] == pl.heights[original])
    ensures Promise(pl, Linked(v, item, c, original), MarksLinked(pl, marks, c, MoreCounts(item, original)),
                    [LinkedItem(item, c, original)] + rest, NoItem, 0)
  {
    hide Inv, Marked, ItemOk, Strange, Succeeds, Closed, TargetsIn, Simulates, Sane, Linkable, Chosen, Faithful,
        WaitingSet;
    hide SizeAll, CountsOk, Linked;
    LinkablePointer(pl, v, item, rest, c, original);
    InvTargets(pl, v, [item] + rest);
    FirstIsOk(pl.h0, pl.r0, pl.limit, v, item, rest);
    LinkStrange(pl, v, item, rest, c, original);
    ChosenSucceeds(pl, v, marks, item, c, original);
    LinkMarked(pl, v, marks, item, c, original);
    if pl.safe { LinkSet(v, item, c, original); }
    if pl.exact { FaithfulLink(pl, v, marks, item, rest, c, original); }
  }

  lemma {:induction false} LinkablePointer(pl: Plan, v: View, item: Item, rest: seq<Item>, c: Ref, original: Ref)
    requires Linkable(pl.h0, pl.limit, v, item, rest, c, original)
    ensures item.Item? && item.tok in v.h && v.h[item.tok].Pointer?
  {
  }

  lemma {:induction false} OthersOf(pl: Plan, v: View, pend: seq<Item>)
    requires Faithful(pl, v, pend)
    ensures OthersKept(pl, v, pend)
  {
    hide OthersKept, Untouched, NodesOk, DeadOk, RootFaithful;
  }

  lemma {:induction false} LinkSet(v: View, item: Item, c: Ref, original: Ref)
    requires WaitingSet(v) && ItemOk(v, item) && v.h[item.tok].Pointer?
    ensures WaitingSet(Linked(v, item, c, original))
  {
    LinkKinds(v, item, c);
    LinkPointers(v, item, c);
    assert item.parent.Item? ==> item.parent.tok in v.done by { assert ChainOk(v, item.parent); }
    hide LinkedGraph, ItemOk;
  }

  // ---------- cutting ----------

  /** The pointer of the entry is to be cut off. */
  ghost predicate Doomed(pl: Plan, v: View, marks: Marks, item: Item) {
    && item.Item? && item.tok !in marks && (pl.exact ==> GoneOk(pl, v, item.tok))
  }

  lemma {:induction false} PromiseCut(pl: Plan, v: View, marks: Marks, item: Item, rest: seq<Item>)
    requires Inv(pl.h0, pl.r0, pl.limit, v, [item] + rest, NoItem, 0)
    requires Promise(pl, v, marks, [item] + rest, NoItem, 0) && Doomed(pl, v, marks, item)
    requires item.tok in v.h && v.h[item.tok].Pointer?
    ensures Promise(pl, CutOff(v, item), marks, rest, item.parent, item.tok)
  {
    FirstIsOk(pl.h0, pl.r0, pl.limit, v, item, rest);
    ItemUnvisited(v, item);
    hide Inv, Marked, ItemOk, Faithful;
    CutMarked(pl, v, marks, item);
    if pl.exact { CutFaithful(pl, v, item, rest); }
  }

  lemma {:induction false} PromiseShrink(v: View, p: Ref, n: Node)
    requires WaitingSet(v) && p in v.h && !v.h[p].Pointer? && !n.Pointer?
    ensures WaitingSet(v.(h := v.h[p := n]))
  {
  }

  lemma {:induction false} PrunePromised(pl: Plan, v: View, marks: Marks, pend: seq<Item>, tt: Item, ta: Ref)
    requires Promise(pl, v, marks, pend, tt, ta) && Sane(pl) && Prunable(pl, v, tt)
    requires LogicalRemoval(v.h, v.h[tt.tok], ta).1 && !LogicalRemoval(v.h, v.h[tt.tok], ta).0.Pointer?
    ensures Promise(pl, Pruned(v, tt, ta), marks, pend, NoItem, 0)
  {
    assert Closed(pl.h0);
    hide Marked, Faithful, LogicalRemoval, Simulates, GoneOk, NoRepeats, Sane, WaitingSet;
    PruneMarked(pl, v, marks, tt.tok, ta);
    if pl.safe { PromiseShrink(v, tt.tok, LogicalRemoval(v.h, v.h[tt.tok], ta).0); }
    if pl.exact { PruneFaithful(pl, v, pend, tt.tok, ta); }
  }

  lemma {:induction false} ClimbPromised(pl: Plan, v: View, marks: Marks, pend: seq<Item>, tt: Item, ta: Ref)
    requires Promise(pl, v, marks, pend, tt, ta) && Sane(pl) && Prunable(pl, v, tt)
    requires !LogicalRemoval(v.h, v.h[tt.tok], ta).1 && !LogicalRemoval(v.h, v.h[tt.tok], ta).0.Pointer?
    ensures Promise(pl, Climbed(Pruned(v, tt, ta), tt), marks, pend, tt.parent, tt.tok)
  {
    assert Formed(pl.h0, pl.rank);
    hide Marked, Faithful, LogicalRemoval, Simulates, GoneOk, NoRepeats, Sane, Formed, WaitingSet;
    PruneMarked(pl, v, marks, tt.tok, ta);
    ClimbMarked(pl, Pruned(v, tt, ta), marks, tt);
    if pl.safe { ClimbSet(v, tt, LogicalRemoval(v.h, v.h[tt.tok], ta).0); }
    if pl.exact { ClimbFaithful(pl, v, pend, tt, ta); }
  }

  lemma {:induction false} ClimbSet(v: View, tt: Item, n: Node)
    requires WaitingSet(v) && tt.Item? && tt.tok in v.h && !v.h[tt.tok].Pointer? && !n.Pointer?
    ensures WaitingSet(Climbed(v.(h := v.h[tt.tok := n]), tt))
  {
  }

  /** A token on a cut's way up. */
  ghost predicate Prunable(pl: Plan, v: View, tt: Item) {
    && tt.Item? && tt.tok in v.h && tt.tok in v.done && !v.h[tt.tok].Pointer? && NoRepeats(Kids(v.h[tt.tok]))
    && Simulates(pl.h0, v.h, v.src) && (tt.parent.NoItem? ==> tt.tok == v.root)
  }

  lemma {:induction false} ChainPrunable(pl: Plan, v: View, pend: seq<Item>, tt: Item, ta: Ref)
    requires Inv(pl.h0, pl.r0, pl.limit, v, pend, tt, ta) && tt.Item? && ChainOk(v, tt)
    ensures Prunable(pl, v, tt) && tt.tok in v.h
    ensures !LogicalRemoval(v.h, v.h[tt.tok], ta).0.Pointer?
  {
    hide Inv, ChainOk, LogicalRemoval, Simulates, NoRepeats, GoodRemoval;
    ChainHead(v, tt);
    ChainRoot(v, tt);
    PruneIsGood(pl.h0, pl.r0, pl.limit, v, pend, tt, ta, tt.tok);
    InvSimulates(pl, v, pend, tt, ta);
    PruneKind(v.h, tt.tok, ta);
  }

  /** The cut is over, or goes on with the token of tt. */
  ghost predicate AfterPrune(pl: Plan, v: View, marks: Marks, pend: seq<Item>, tt: Item, ta: Ref) {
    && tt.Item? && tt.tok in v.h
    && if LogicalRemoval(v.h, v.h[tt.tok], ta).1 then Promise(pl, Pruned(v, tt, ta), marks, pend, NoItem, 0)
       else Promise(pl, Climbed(Pruned(v, tt, ta), tt), marks, pend, tt.parent, tt.tok)
  }

  /** One step of a cut's way up. */
  lemma {:induction false} PromisePrune(pl: Plan, v: View, marks: Marks, pend: seq<Item>, tt: Item, ta: Ref)
    requires Inv(pl.h0, pl.r0, pl.limit, v, pend, tt, ta) && Sane(pl) && tt.Item? && ChainOk(v, tt)
    requires Promise(pl, v, marks, pend, tt, ta)
    ensures AfterPrune(pl, v, marks, pend, tt, ta)
  {
    hide Inv, Promise, LogicalRemoval, ChainOk, Prunable, Sane, Pruned, Climbed;
    ChainPrunable(pl, v, pend, tt, ta);
    if LogicalRemoval(v.h, v.h[tt.tok], ta).1 {
      PrunePromised(pl, v, marks, pend, tt, ta);
    } else {
      ClimbPromised(pl, v, marks, pend, tt, ta);
    }
  }

  lemma {:induction false} ChainRoot(v: View, tt: Item)
    requires tt.Item? && ChainOk(v, tt)
    ensures tt.parent.NoItem? ==> tt.tok == v.root
  {
  }

  lemma {:induction false} InvSimulates(pl: Plan, v: View, pend: seq<Item>, at: Item, gone: Ref)
    requires Inv(pl.h0, pl.r0, pl.limit, v, pend, at, gone)
    ensures Simulates(pl.h0, v.h, v.src)
  {
    hide Shape, Sized, Registered, Pending, Live, Counted, Simulates;
  }

  // ---------- what the run does next ----------

  lemma {:induction false} OriginalIsToken(pl: Plan, v: View, pend: seq<Item>, child: Ref)
    requires Inv(pl.h0, pl.r0, pl.limit, v, pend, NoItem, 0) && child in pl.h0.Keys + v.originals.Keys
    ensures OriginalOf(v.originals, child) in pl.h0
  {
    hide Inv;
    if child in v.originals {
      OriginalKnown(pl.h0, pl.r0, pl.limit, v, pend, child);
      CloneKnown(pl.h0, pl.r0, pl.limit, v, pend, v.originals[child]);
    }
  }

  /** With the right limit, the run's decision is that of the specification. */
  lemma {:induction false} DecidesExactly(pl: Plan, v: View, item: Item, rest: seq<Item>)
    requires Faithful(pl, v, [item] + rest) && Sane(pl) && pl.exact
    requires item.Item? && item.tok in v.h && v.h[item.tok].Pointer? && item.tok !in v.done
    requires Simulates(pl.h0, v.h, v.src) && item.tok in v.cnt && v.cnt[item.tok] == item.counts
    requires Aim(v.h, item.tok, {}).At? && Aim(v.h, item.tok, {}).child !in v.originals ==>
               CountOf(item.counts, Aim(v.h, item.tok, {}).child) < pl.limit
    ensures item.tok in v.src && v.src[item.tok] in pl.h0 && Aim(v.h, item.tok, {}) == Aim(pl.h0, v.src[item.tok], {})
    ensures var aim := Aim(v.h, item.tok, {});
            if aim.At? && Wanted(pl.limit, v.originals, item.counts, aim.child)
            then OriginalOf(v.originals, aim.child) == aim.child && Grows(pl.h0, pl.limit, v.src[item.tok], item.counts)
            else GoneOk(pl, v, item.tok)
  {
    AimFaithful(pl, v, [item] + rest, item.tok);
    OthersOf(pl, v, [item] + rest);
    KnownItself(pl, v, [item] + rest);
    hide Faithful, Sane, Aim, OthersKept;
    if !(Aim(v.h, item.tok, {}).At? && Wanted(pl.limit, v.originals, item.counts, Aim(v.h, item.tok, {}).child)) {
      UngrownLeft(pl, v, item.tok);
    }
  }

  lemma {:induction false} KnownItself(pl: Plan, v: View, pend: seq<Item>)
    requires OthersKept(pl, v, pend)
    ensures forall x :: x in v.originals && x in pl.h0 ==> v.originals[x] == x
  {
  }

  /** A marked pointer is expanded. */
  lemma {:induction false} DecidesMarked(pl: Plan, maxRepeat: nat, v: View, marks: Marks, item: Item)
    requires Marked(pl, v, marks) && item.Item? && item.tok in marks && item.tok in v.h && v.h[item.tok].Pointer?
    requires item.tok in v.cnt && v.cnt[item.tok] == item.counts && pl.limit >= 1
    requires TargetsIn(v.h, pl.h0.Keys + v.originals.Keys) && (pl.heights != map[] ==> maxRepeat == pl.limit)
    ensures var aim := Aim(v.h, item.tok, {});
            && aim.At? && Wanted(maxRepeat, v.originals, item.counts, aim.child)
            && var o := OriginalOf(v.originals, aim.child);
               o in pl.heights && pl.heights[o] < marks[item.tok] && Affords(pl, MoreCounts(item, o), pl.heights[o])
  {
    hide Aim, Marked, Affords, TargetsIn;
    PointerPays(pl, v, marks, item);
  }

  /** What is known of a pointer that is next. */
  ghost predicate NextOk(pl: Plan, v: View, item: Item) {
    && item.Item? && item.tok in v.h && item.tok !in v.done && item.tok in v.cnt && v.cnt[item.tok] == item.counts
    && TargetsIn(v.h, pl.h0.Keys + v.originals.Keys) && Simulates(pl.h0, v.h, v.src)
    && var aim := Aim(v.h, item.tok, {});
       aim.At? ==>
           OriginalOf(v.originals, aim.child) in pl.h0
               && (aim.child in v.originals || CountOf(item.counts, aim.child) == 0)
  }

  lemma {:induction false} NextPointer(pl: Plan, v: View, item: Item, rest: seq<Item>)
    requires item.Item? && item.tok in v.h && v.h[item.tok].Pointer?
    requires Inv(pl.h0, pl.r0, pl.limit, v, [item] + rest, NoItem, 0)
    ensures NextOk(pl, v, item)
  {
    hide Inv, Aim, Simulates, Closed, TargetsIn, OriginalOf, SizeAll, CountsOk, ItemOk;
    InvTargets(pl, v, [item] + rest);
    FirstIsOk(pl.h0, pl.r0, pl.limit, v, item, rest);
    ItemUnvisited(v, item);
    var aim := Aim(v.h, item.tok, {});
    if aim.At? {
      AimIn(v.h, item.tok, {}, pl.h0.Keys + v.originals.Keys);
      OriginalIsToken(pl, v, [item] + rest, aim.child);
      if aim.child !in v.originals { NewOriginalUncounted(pl.h0, pl.r0, pl.limit, v, item, rest, aim.child); }
    }
  }

  /** Whether the pointer of the entry is expanded, where to, or is to be cut off. */
  ghost predicate Fits(pl: Plan, maxRepeat: nat, v: View, marks: Marks, item: Item) {
    item.Item? &&
    var aim := Aim(v.h, item.tok, {});
    if aim.At? && Wanted(maxRepeat, v.originals, item.counts, aim.child)
    then Chosen(pl, v, marks, item, OriginalOf(v.originals, aim.child))
    else Doomed(pl, v, marks, item)
  }

  lemma {:induction false} FitsBoth(pl: Plan, maxRepeat: nat, v: View, marks: Marks, item: Item)
    requires item.Item? && (pl.exact ==> maxRepeat == pl.limit)
    requires var aim := Aim(v.h, item.tok, {}); aim.At? ==> OriginalOf(v.originals, aim.child) in pl.h0
    requires item.tok in marks ==>
               var aim := Aim(v.h, item.tok, {});
               && aim.At? && Wanted(maxRepeat, v.originals, item.counts, aim.child)
               && var o := OriginalOf(v.originals, aim.child);
                  o in pl.heights && pl.heights[o] < marks[item.tok] && Affords(pl, MoreCounts(item, o), pl.heights[o])
    requires pl.exact ==>
               && item.tok in v.src && v.src[item.tok] in pl.h0
               && Aim(v.h, item.tok, {}) == Aim(pl.h0, v.src[item.tok], {})
               && var aim := Aim(v.h, item.tok, {});
                  if aim.At? && Wanted(pl.limit, v.originals, item.counts, aim.child)
                  then OriginalOf(v.originals, aim.child) == aim.child
                      && Grows(pl.h0, pl.limit, v.src[item.tok], item.counts)
                  else GoneOk(pl, v, item.tok)
    ensures Fits(pl, maxRepeat, v, marks, item)
  {
    hide Aim, Wanted, OriginalOf, Affords, Grows, GoneOk;
  }

  /** The decision is as the promise needs it. */
  lemma {:induction false} Decides(pl: Plan, maxRepeat: nat, v: View, marks: Marks, item: Item, rest: seq<Item>)
    requires item.Item? && item.tok in v.h && v.h[item.tok].Pointer?
    requires pl.exact || pl.heights != map[] ==> maxRepeat == pl.limit
    requires Sane(pl) && Inv(pl.h0, pl.r0, pl.limit, v, [item] + rest, NoItem, 0)
    requires Promise(pl, v, marks, [item] + rest, NoItem, 0)
    ensures Fits(pl, maxRepeat, v, marks, item)
  {
    hide Inv, Sane, Aim, Marked, Faithful, WaitingSet, Simulates, TargetsIn, OriginalOf, Affords, GoneOk, Grows,
        Wanted, Fits;
    NextPointer(pl, v, item, rest);
    SaneLimit(pl);
    if item.tok in marks { DecidesMarked(pl, maxRepeat, v, marks, item); }
    if pl.exact { DecidesExactly(pl, v, item, rest); }
    FitsBoth(pl, maxRepeat, v, marks, item);
  }

  lemma {:induction false} SaneLimit(pl: Plan)
    requires Sane(pl)
    ensures pl.limit >= 1 && Formed(pl.h0, pl.rank)
  {
    hide Formed, Heights, Isolated;
  }

  /** What may be cloned along with a new original. */
  ghost function Domain(pl: Plan, v: View): set<Ref> {
    if pl.exact then pl.h0.Keys - pl.own
    else if pl.safe then set x | x in v.h && (x in v.dead ==> v.h[x].Pointer? && v.h[x].target.Some?)
    else v.h.Keys
  }

  lemma {:induction false} DomainExact(pl: Plan, v: View, pend: seq<Item>, child: Ref)
    requires OthersKept(pl, v, pend) && Isolated(pl.h0, pl.r0, pl.own) && Closed(pl.h0)
        && (pl.safe ==> PointersSet(pl.h0))
    requires child in pl.h0 && child !in pl.own
    ensures ClosedIn(v.h, pl.h0.Keys - pl.own) && pl.h0.Keys - pl.own !! v.done && child in pl.h0.Keys - pl.own
    ensures pl.safe ==> forall x :: x in pl.h0 && x !in pl.own && x in v.h && v.h[x].Pointer? ==> v.h[x].target.Some?
  {
    hide InItems, OwnEdges;
  }

  /** Below a token that is neither cut off nor an unset pointer there is none that is. */
  lemma {:induction false} DomainMarkedEdge(pl: Plan, v: View, marks: Marks, pend: seq<Item>, x: Ref, k: Ref)
    requires Live(v, pend, NoItem, 0) && Sized(v) && Marked(pl, v, marks)
        && (forall y :: y in pl.h0 ==> y in pl.heights)
    requires v.dead <= v.done && Closed(v.h) && x in v.h && k in Kids(v.h[x]) && x !in v.dead
    ensures k in v.h && (k in v.dead ==> v.h[k].Pointer? && v.h[k].target.Some?)
  {
    if x in v.side {
      assert k in pl.h0 && k in marks;
      assert RestsOn(v.h, marks, k, marks[k]);
    } else if x !in v.done {
      assert x in Unvisited(v) && k in Unvisited(v);
    }
  }

  lemma {:induction false} DomainMarked(pl: Plan, v: View, marks: Marks, pend: seq<Item>, child: Ref)
    requires Live(v, pend, NoItem, 0) && Sized(v) && Marked(pl, v, marks) && WaitingSet(v)
    requires (forall y :: y in pl.h0 ==> y in pl.heights) && v.dead <= v.done && Closed(v.h)
    requires pl.safe && !pl.exact && child in pl.h0 && child in v.h && !v.h[child].Pointer?
    ensures ClosedIn(v.h, Domain(pl, v)) && child in Domain(pl, v) && Whole(pl, v, Domain(pl, v))
  {
    var dom := Domain(pl, v);
    forall r, k | r in dom && r in v.h && k in Kids(v.h[r]) ensures k in dom {
      hide Live, Sized, Marked, WaitingSet, Closed;
      DomainMarkedEdge(pl, v, marks, pend, r, k);
    }
    assert child in marks;
    hide Live, Sized, Closed, Heights, Paid, InPlace;
  }

  /** A new original, and what is below it, may be cloned. */
  lemma {:induction false} DomainFits(pl: Plan, v: View, marks: Marks, item: Item, rest: seq<Item>, child: Ref)
    requires item.Item? && item.tok in v.h && v.h[item.tok].Pointer? && Aim(v.h, item.tok, {}) == At(child)
    requires child in pl.h0 && child in v.h && !v.h[child].Pointer?
    requires Sane(pl) && Inv(pl.h0, pl.r0, pl.limit, v, [item] + rest, NoItem, 0)
    requires Promise(pl, v, marks, [item] + rest, NoItem, 0)
    ensures ClosedIn(v.h, Domain(pl, v)) && child in Domain(pl, v) && Whole(pl, v, Domain(pl, v))
  {
    hide Inv, Aim, Marked, Faithful, Simulates, TargetsIn, Formed, Heights, Isolated, Live, Sized, Registered,
        Pending, Shape;
    InvTargets(pl, v, [item] + rest);
    InvGroups(pl, v, [item] + rest);
    SanePlan(pl);
    if pl.exact {
      NextPointer(pl, v, item, rest);
      AimFaithful(pl, v, [item] + rest, item.tok);
      OthersOf(pl, v, [item] + rest);
      hide Promise, Sane, OthersKept;
      DomainExact(pl, v, [item] + rest, child);
    } else if pl.safe {
      DomainMarked(pl, v, marks, [item] + rest, child);
    } else {
      hide Sane, Promise;
    }
  }

  // ---------- the start ----------

  lemma {:induction false} StartMarked(pl: Plan, v: View, top: nat, size: map<Ref, nat>, next: Ref)
    requires Sane(pl) && v == Start(pl.h0, next, pl.r0, pl.rank, top, size)
    ensures Marked(pl, v, pl.heights)
  {
    hide Formed, TargetsIn, Isolated, NotBelowRoot;
    StartSide(pl);
    assert forall x :: x in pl.heights ==> RestsOn(pl.h0, pl.heights, x, pl.heights[x]);
    hide Heights;
  }

  lemma {:induction false} StartSide(pl: Plan)
    requires Sane(pl)
    ensures forall x, k :: x in pl.h0 && k in Kids(pl.h0[x]) ==> k in pl.h0
    ensures NotBelowRoot(pl.h0, pl.r0, pl.rank) <= pl.h0.Keys
  {
    hide Heights, Acyclic, TargetsIn, Isolated;
  }

  lemma {:induction false} StartPristine(pl: Plan, v: View, x: Ref)
    requires v.h == pl.h0 && v.src == Itself(pl.h0) && Closed(pl.h0) && x in v.h
    ensures Pristine(pl, v, x)
  {
    SameKindItself(v.h[x]);
    forall i | 0 <= i < |Kids(v.h[x])| ensures Kids(v.h[x])[i] in v.h { assert Kids(v.h[x])[i] in Kids(v.h[x]); }
  }

  lemma {:induction false} StartOthers(pl: Plan, v: View, pend: seq<Item>)
    requires v.h == pl.h0 && v.src == Itself(pl.h0) && v.done == {} && v.originals == map[]
    requires Isolated(pl.h0, pl.r0, pl.own) && pend == [Item(pl.r0, NoItem, map[])]
    ensures OthersKept(pl, v, pend)
  {
    hide TargetsIn;
    forall x | InItems(pend, x) ensures x == pl.r0 { }
  }

  lemma {:induction false} StartFaithful(pl: Plan, v: View, top: nat, size: map<Ref, nat>, next: Ref)
    requires Sane(pl) && pl.exact && v == Start(pl.h0, next, pl.r0, pl.rank, top, size)
    ensures Faithful(pl, v, [Item(pl.r0, NoItem, map[])])
  {
    hide Heights, Formed, Isolated, U, NotBelowRoot, Pristine, OthersKept;
    SanePlan(pl);
    forall x | x in v.h ensures Pristine(pl, v, x) { StartPristine(pl, v, x); }
    StartOthers(pl, v, [Item(pl.r0, NoItem, map[])]);
  }

  lemma {:induction false} StartPromise(pl: Plan, v: View, top: nat, size: map<Ref, nat>, next: Ref)
    requires Sane(pl) && v == Start(pl.h0, next, pl.r0, pl.rank, top, size)
    ensures Promise(pl, v, pl.heights, [Item(pl.r0, NoItem, map[])], NoItem, 0)
  {
    hide Marked, Faithful, Formed, Heights, Isolated;
    StartMarked(pl, v, top, size, next);
    if pl.exact { StartFaithful(pl, v, top, size, next); }
  }

  // ---------- the end ----------

  /** The root was not taken away, and the result is what the root unfolds into. */
  ghost predicate Kept(pl: Plan, v: View) {
    && (pl.r0 in pl.heights ==> !v.climbed)
    && (pl.exact ==>
          && (v.climbed <==> U(pl, pl.r0, map[]) == None)
          && (!v.climbed ==> U(pl, pl.r0, map[]).Some? && Looks(pl.h0, v.h, v.src, v.root, U(pl, pl.r0, map[]).value)))
  }

  /** Nothing waits any more. */
  lemma {:induction false} PromiseKept(pl: Plan, v: View, marks: Marks)
    requires Sane(pl) && Inv(pl.h0, pl.r0, pl.limit, v, [], NoItem, 0) && Promise(pl, v, marks, [], NoItem, 0)
    ensures Kept(pl, v)
  {
    if pl.exact && !v.climbed {
      hide Inv, Marked, Sane, Faithful, Live, Registered, Pending, Sized, NoExpansionBelow;
      SanePlan(pl);
      InvGroups(pl, v, []);
      RootLive(v);
      RootOf(pl, v);
      ShapeGraph(v);
      hide Shape, Formed, Closed, Acyclic, U;
      LiveLooks(pl, v, v.root);
    }
    hide Inv, Heights, MarksKnown, InPlace, Paid, Alive, Untouched, NodesOk, DeadOk, OthersKept, U;
  }

  lemma {:induction false} RootLive(v: View)
    requires Live(v, [], NoItem, 0) && !v.climbed && v.root in v.h
    ensures v.root in v.done && v.root !in v.dead
  {
  }

  lemma {:induction false} RootOf(pl: Plan, v: View)
    requires Faithful(pl, v, [])
    ensures RootFaithful(pl, v)
  {
    hide Untouched, NodesOk, DeadOk, OthersKept, RootFaithful;
  }

  lemma {:induction false} ShapeGraph(v: View)
    requires Shape(v)
    ensures Closed(v.h) && Acyclic(v.h, v.rank) && v.root in v.h
  {
  }

  // ---------- for the methods ----------

  lemma {:induction false} RegistrationPromise(pl: Plan, v: View, marks: Marks, pend: seq<Item>, g: Graph, m: Ref,
          o: map<Ref, Ref>, dom: set<Ref>, sz: map<Ref, nat>, c: Ref, x: Ref)
    requires x in pl.h0 && x in v.h && c in o && o[c] == x
    requires Inv(pl.h0, pl.r0, pl.limit, v, pend, NoItem, 0) && Promise(pl, v, marks, pend, NoItem, 0)
    requires CopyOf(v.h, v.next, g, m, o, dom) && Whole(pl, v, dom)
    ensures Promise(pl, Registration(v, g, m, o, sz, c, x), MarksCopied(marks, o), pend, NoItem, 0)
    ensures forall y :: y in v.h ==>
              (y in MarksCopied(marks, o) <==> y in marks) && (y in marks ==> MarksCopied(marks, o)[y] == marks[y])
  {
    hide Inv, Promise, CopyOf, Whole, MarksCopied;
    PromiseCopies(pl, v, marks, pend, g, m, o, dom, sz);
    CopySources(v.h, v.next, g, m, o, dom);
    MarksInGraph(pl, v, marks, pend);
    MarksCopiedIs(marks, o);
    PromiseRegister(pl, WithCopies(v, g, m, o, sz), MarksCopied(marks, o), pend, x, c);
  }

  lemma {:induction false} MarksInGraph(pl: Plan, v: View, marks: Marks, pend: seq<Item>)
    requires Promise(pl, v, marks, pend, NoItem, 0)
    ensures marks.Keys <= v.h.Keys
  {
    hide Heights, MarksKnown, Paid, InPlace, Faithful;
  }

  lemma {:induction false} CloneMarks(pl: Plan, v: View, marks: Marks, pend: seq<Item>, original: Ref)
    requires original in v.clones && Promise(pl, v, marks, pend, NoItem, 0)
    ensures v.clones[original] in marks <==> original in pl.heights
    ensures v.clones[original] in marks && original in pl.heights ==> marks[v.clones[original]] == pl.heights[original]
  {
    hide Heights, Alive, Paid, InPlace, Faithful;
  }

  lemma {:induction false} ExpansionPromise(pl: Plan, v: View, marks: Marks, item: Item, rest: seq<Item>, g: Graph,
          m: Ref, o: map<Ref, Ref>, c: Ref, original: Ref)
    requires Expandable(pl.h0, pl.limit, v, item, original) && CloneFor(v, g, o, c, original)
    requires o[c] == v.clones[original] && Chosen(pl, v, marks, item, original)
    requires CopyOf(v.h, v.next, g, m, o, Unvisited(v)) && Sane(pl)
    requires Inv(pl.h0, pl.r0, pl.limit, v, [item] + rest, NoItem, 0) && Promise(pl, v, marks, [item] + rest, NoItem, 0)
    ensures Promise(pl, Linked(Expansion1(v, g, m, o), item, c, original),
                    MarksLinked(pl, MarksCopied(marks, o), c, MoreCounts(item, original)),
                    [LinkedItem(item, c, original)] + rest, NoItem, 0)
  {
    hide *;
    var dom, ms, w := Unvisited(v), MarksCopied(marks, o), Expansion1(v, g, m, o);
    ExpansionStart(pl, v, item, g, o, c, original);
    UnvisitedWhole(pl, v, marks, [item] + rest);
    InvParts(pl.h0, pl.r0, pl.limit, v, [item] + rest);
    UnvisitedIsCopyable(v);
    SourceKeys(pl.h0, pl.r0, pl.limit, v, [item] + rest);
    CopySources(v.h, v.next, g, m, o, dom);
    MarksInGraph(pl, v, marks, [item] + rest);
    MarksCopiedIs(marks, o);
    CloneMarks(pl, v, marks, [item] + rest, original);
    ExpansionLinkable(pl.h0, pl.r0, pl.limit, v, item, rest, g, m, o, dom, c, original);
    CloneIsFresh(pl.h0, pl.r0, pl.limit, v, [item] + rest, g, m, o, dom, v.size, c, original);
    CopiesKeep(pl.h0, pl.r0, pl.limit, v, [item] + rest, 0, g, m, o, dom, v.size);
    ExpansionSame(v, g, m, o, c);
    PromiseCopies(pl, v, marks, [item] + rest, g, m, o, dom, v.size);
    OldSource(v, g, m, o, dom, item.tok);
    ChosenStill(pl, v, marks, w, ms, item, original);
    PromiseLink(pl, w, ms, item, rest, c, original);
  }

  lemma {:induction false} ExpansionStart(pl: Plan, v: View, item: Item, g: Graph, o: map<Ref, Ref>, c: Ref,
          original: Ref)
    requires Expandable(pl.h0, pl.limit, v, item, original) && CloneFor(v, g, o, c, original)
    ensures item.Item? && item.tok in v.h && item.tok in v.src && c in o && original in v.clones && original in v.h
  {
  }

  lemma {:induction false} ExpansionSame(v: View, g: Graph, m: Ref, o: map<Ref, Ref>, c: Ref)
    requires NoClone(v, c)
    ensures Expansion1(v, g, m, o) == WithCopies(v, g, m, o, v.size) && NoClone(Expansion1(v, g, m, o), c)
  {
  }

  lemma {:induction false} UnvisitedWhole(pl: Plan, v: View, marks: Marks, pend: seq<Item>)
    requires Promise(pl, v, marks, pend, NoItem, 0)
    ensures Whole(pl, v, Unvisited(v))
  {
    hide Marked, Faithful;
  }

  lemma {:induction false} ChosenStill(pl: Plan, v: View, marks: Marks, w: View, marks': Marks, item: Item,
          original: Ref)
    requires Chosen(pl, v, marks, item, original) && item.tok in v.src && item.tok in w.src
        && w.src[item.tok] == v.src[item.tok]
    requires (item.tok in marks' <==> item.tok in marks) && (item.tok in marks ==> marks'[item.tok] == marks[item.tok])
    ensures Chosen(pl, w, marks', item, original)
  {
    hide Affords, Grows, Aim;
  }

  lemma {:induction false} PromiseEnds(pl: Plan, v: View, marks: Marks, pend: seq<Item>, tt: Item, ta: Ref)
    requires Promise(pl, v, marks, pend, tt, ta)
    ensures Promise(pl, v, marks, pend, NoItem, 0)
  {
    hide Marked, Faithful, GoneOk;
  }
}
