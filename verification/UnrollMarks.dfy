/**
 * Which tokens the unrolling never takes away: those that last, and their copies as long as no original
 * that is expanded as often as it may be is as low as they are. Every step keeps these marks.
 */
module UnrollMarks {
  import opened Onces
  import opened TokenGraphs
  import opened UnrollWords
  import opened UnrollState
  import opened UnrollSteps
  import opened UnrollCopy
  import opened UnrollFresh
  import opened UnrollLink
  import opened UnrollCut
  import opened UnrollRemoval
  import opened UnrollLasting

  /** What is known of the original graph. */
  datatype Plan = Plan(
    h0: Graph,
    r0: Ref,
    rank: map<Ref, nat>,
    limit: nat,
    /** Heights of tokens that last. */
    heights: map<Ref, nat>,
    /** All pointers are set, and no token with an unset pointer below it is ever cloned. */
    safe: bool,
    /** The tokens `own` are isolated. */
    exact: bool,
    own: set<Ref>)

  type Marks = map<Ref, nat>

  /** No original that is expanded as often as it may be is lower than n. */
  ghost predicate Affords(pl: Plan, counts: map<Ref, nat>, n: nat) {
    forall o :: o in counts && counts[o] >= pl.limit && o in pl.heights ==> n <= pl.heights[o]
  }

  ghost predicate Paid(pl: Plan, v: View, marks: Marks) {
    forall x :: x in marks && x in v.cnt ==> Affords(pl, v.cnt[x], marks[x])
  }

  /** A marked token is cut off only if it is a pointer that was replaced. */
  ghost predicate Alive(v: View, marks: Marks) {
    forall x :: x in marks ==> x in v.h && (x in v.dead ==> v.h[x].Pointer?)
  }

  /** Tokens of the original graph, clones and expansions are marked with the height of the original. */
  ghost predicate MarksKnown(pl: Plan, v: View, marks: Marks) {
    && (forall x :: x in pl.h0 ==> (x in marks <==> x in pl.heights))
    && (forall x :: x in pl.h0 && x in marks && x in pl.heights ==> marks[x] == pl.heights[x])
    && (forall o :: o in v.clones ==> (v.clones[o] in marks <==> o in pl.heights))
    && (forall o :: o in v.clones && v.clones[o] in marks && o in pl.heights ==> marks[v.clones[o]] == pl.heights[o])
    && (forall x :: x in v.originals && x in marks ==>
          v.originals[x] in pl.heights && marks[x] == pl.heights[v.originals[x]])
  }

  /** Tokens of the original graph are reached only without expansions. */
  ghost predicate InPlace(pl: Plan, v: View) {
    && (forall x :: x in pl.h0 && x in v.cnt ==> v.cnt[x] == map[])
    && v.cnt.Keys <= v.h.Keys && OldEdges(pl, v.h, v.side)
  }

  /** Copies do not lead to tokens of the original graph, and what is aside leads to nothing else. */
  ghost predicate OldEdges(pl: Plan, h: Graph, side: set<Ref>) {
    && (forall x, k :: x in h && x !in pl.h0 && k in Kids(h[x]) ==> k !in pl.h0)
    && (forall x, k :: x in side && x in h && k in Kids(h[x]) ==> k in pl.h0)
  }

  /** The tokens of the original graph come from themselves. */
  ghost predicate SelfSource(pl: Plan, v: View) {
    forall x :: x in pl.h0 ==> x in v.src && v.src[x] == x
  }

  ghost predicate RootLasts(pl: Plan, v: View, marks: Marks) {
    pl.r0 in pl.heights ==> v.root in marks && !v.climbed
  }

  ghost predicate Marked(pl: Plan, v: View, marks: Marks) {
    && Heights(v.h, marks) && Paid(pl, v, marks) && Alive(v, marks)
    && MarksKnown(pl, v, marks) && InPlace(pl, v) && RootLasts(pl, v, marks) && SelfSource(pl, v)
  }

  // ---------- what a token rests on ----------

  /** The marks x rests on are still there, and no higher. */
  lemma {:induction false} RestsStill(h: Graph, marks: Marks, g: Graph, marks': Marks, x: Ref, n: nat)
    requires RestsOn(h, marks, x, n) && x in g && g[x] == h[x]
    requires forall k :: k in Kids(h[x]) && k in h && OptionalType(h[k]) ==> k in g && OptionalType(g[k])
    requires forall k :: k in Kids(h[x]) && Under(marks, k, n) ==> Under(marks', k, n)
    requires h[x].Pointer? && h[x].target.Some? && Under(marks, h[x].target.value, n) ==>
        Under(marks', h[x].target.value, n)
    ensures RestsOn(g, marks', x, n)
  {
    hide Under;
    match h[x]
    case One(ts) =>
      var k :| k in ts && Under(marks, k, n);
    case Optional(t) => assert Kids(h[x])[0] == t;
    case Scope(t) => assert Kids(h[x])[0] == t;
    case Repeat(t, _, _) => assert Kids(h[x])[0] == t;
    case _ =>
  }

  // ---------- visiting ----------

  /** The children of a visited token lose marks that are too high for its counts. */
  ghost function MarksVisited(pl: Plan, marks: Marks, ts: seq<Ref>, counts: map<Ref, nat>): Marks {
    map x | x in marks && (x in ts ==> Affords(pl, counts, marks[x])) :: marks[x]
  }

  /** What a visited token knows of its children. */
  ghost predicate Visitable(pl: Plan, v: View, item: Item) {
    && item.Item? && item.tok in v.h && item.tok in v.cnt && v.cnt[item.tok] == item.counts
    && (forall y :: y in v.h && y != item.tok ==> forall k :: k in Kids(v.h[y]) ==> k !in Kids(v.h[item.tok]))
    && (forall k :: k in Kids(v.h[item.tok]) ==> k !in v.clones.Values && (k in v.originals ==> k in pl.h0))
    && TargetsIn(v.h, pl.h0.Keys + v.originals.Keys)
    && Closed(v.h) && v.root !in Kids(v.h[item.tok])
  }

  lemma {:induction false} InPlaceKid(pl: Plan, v: View, item: Item, k: Ref)
    requires InPlace(pl, v) && Visitable(pl, v, item) && k in Kids(v.h[item.tok]) && k in pl.h0
    ensures item.counts == map[] && item.tok in pl.h0
  {
  }

  /** Marks on tokens of the original graph stay. */
  lemma {:induction false} InPlaceStays(pl: Plan, v: View, marks: Marks, item: Item, k: Ref)
    requires InPlace(pl, v) && Visitable(pl, v, item) && k in marks && k in pl.h0
    ensures k in MarksVisited(pl, marks, Kids(v.h[item.tok]), item.counts)
  {
    if k in Kids(v.h[item.tok]) {
      InPlaceKid(pl, v, item, k);
    }
  }

  lemma {:induction false} VisitRests(pl: Plan, v: View, marks: Marks, item: Item, x: Ref)
    requires Heights(v.h, marks) && Paid(pl, v, marks) && InPlace(pl, v) && Visitable(pl, v, item)
    requires x in MarksVisited(pl, marks, Kids(v.h[item.tok]), item.counts)
    ensures RestsOn(v.h, MarksVisited(pl, marks, Kids(v.h[item.tok]), item.counts), x, marks[x])
  {
    var ts, n := Kids(v.h[item.tok]), marks[x];
    var marks' := MarksVisited(pl, marks, ts, item.counts);
    assert RestsOn(v.h, marks, x, n);
    hide RestsOn;
    forall k | k in Kids(v.h[x]) && Under(marks, k, n) ensures Under(marks', k, n) {
      if k in ts {
        assert x == item.tok;
        assert Affords(pl, item.counts, n);
      }
    }
    if v.h[x].Pointer? && v.h[x].target.Some? {
      var k := v.h[x].target.value;
      if k in ts && Under(marks, k, n) {
        InPlaceStays(pl, v, marks, item, k);
      }
    }
    RestsStill(v.h, marks, v.h, marks', x, n);
  }

  lemma {:induction false} VisitMarksKnown(pl: Plan, v: View, marks: Marks, item: Item)
    requires MarksKnown(pl, v, marks) && InPlace(pl, v) && Visitable(pl, v, item)
    ensures MarksKnown(pl, Visited(v, item), MarksVisited(pl, marks, Kids(v.h[item.tok]), item.counts))
  {
    var ts := Kids(v.h[item.tok]);
    var marks' := MarksVisited(pl, marks, ts, item.counts);
    forall x | x in pl.h0 && x in marks ensures x in marks' {
      InPlaceStays(pl, v, marks, item, x);
    }
    forall o | o in v.clones && v.clones[o] in marks ensures v.clones[o] in marks' {
      assert v.clones[o] in v.clones.Values;
    }
    hide Visitable, InPlace, Affords;
  }

  lemma {:induction false} VisitPaid(pl: Plan, v: View, marks: Marks, item: Item)
    requires Paid(pl, v, marks) && InPlace(pl, v) && Visitable(pl, v, item)
    ensures Paid(pl, Visited(v, item), MarksVisited(pl, marks, Kids(v.h[item.tok]), item.counts))
    ensures InPlace(pl, Visited(v, item))
  {
    var w := Visited(v, item);
    forall x | x in pl.h0 && x in w.cnt ensures w.cnt[x] == map[] {
      if x in Kids(v.h[item.tok]) {
        InPlaceKid(pl, v, item, x);
      }
    }
    hide Affords;
  }

  lemma {:induction false} VisitHeights(pl: Plan, v: View, marks: Marks, item: Item)
    requires Heights(v.h, marks) && Paid(pl, v, marks) && InPlace(pl, v) && Visitable(pl, v, item)
    ensures Heights(v.h, MarksVisited(pl, marks, Kids(v.h[item.tok]), item.counts))
  {
    var marks' := MarksVisited(pl, marks, Kids(v.h[item.tok]), item.counts);
    forall x | x in marks' ensures marks'[x] == marks[x] && RestsOn(v.h, marks', x, marks'[x]) {
      hide Paid, InPlace, RestsOn, Visitable, Heights, Affords;
      VisitRests(pl, v, marks, item, x);
    }
  }

  lemma {:induction false} VisitMarked(pl: Plan, v: View, marks: Marks, item: Item)
    requires Marked(pl, v, marks) && Visitable(pl, v, item)
    ensures Marked(pl, Visited(v, item), MarksVisited(pl, marks, Kids(v.h[item.tok]), item.counts))
  {
    hide MarksKnown, Paid, InPlace, Heights, Affords, TargetsIn, Closed;
    VisitPaid(pl, v, marks, item);
    VisitMarksKnown(pl, v, marks, item);
    VisitHeights(pl, v, marks, item);
  }

  // ---------- cloning ----------

  ghost function MarksCopied(marks: Marks, o: map<Ref, Ref>): Marks {
    marks + map x | x in o && o[x] in marks :: marks[o[x]]
  }

  lemma {:induction false} MarksCopiedIs(marks: Marks, o: map<Ref, Ref>)
    requires o.Keys !! marks.Keys
    ensures forall x :: x !in o ==> (x in MarksCopied(marks, o) <==> x in marks)
    ensures forall x :: x in marks ==> MarksCopied(marks, o)[x] == marks[x]
    ensures forall x :: x in o ==> (x in MarksCopied(marks, o) <==> o[x] in marks)
    ensures forall x :: x in o && o[x] in marks ==> MarksCopied(marks, o)[x] == marks[o[x]]
  {
  }

  /** A copy rests on copies. */
  lemma {:induction false} CopyRests(h: Graph, marks: Marks, g: Graph, marks': Marks, o: map<Ref, Ref>, x: Ref, n: nat)
    requires x in o && o[x] in h && x in g && RestsOn(h, marks, o[x], n)
    requires SameKind(g[x], h[o[x]]) && |Kids(g[x])| == |Kids(h[o[x]])|
    requires forall i :: 0 <= i < |Kids(g[x])| ==> Kids(g[x])[i] in o && o[Kids(g[x])[i]] == Kids(h[o[x]])[i]
    requires forall k :: k in o && o[k] in h && k in g ==> OptionalType(g[k]) == OptionalType(h[o[k]])
    requires forall k :: k in o ==> k in g
    requires forall k, m: nat :: k in o && Under(marks, o[k], m) ==> Under(marks', k, m)
    requires forall k, m: nat :: Under(marks, k, m) ==> Under(marks', k, m)
    ensures RestsOn(g, marks', x, n)
  {
    hide Under;
    var ts := Kids(g[x]);
    match h[o[x]]
    case Concat(ts0) =>
      forall k | k in ts ensures Droppable(false, g, k) || Under(marks', k, n) {
        var i :| 0 <= i < |ts| && ts[i] == k;
        assert ts0[i] in ts0;
      }
    case One(ts0) =>
      var k0 :| k0 in ts0 && Under(marks, k0, n);
      var i :| 0 <= i < |ts0| && ts0[i] == k0;
      assert ts[i] in ts && Under(marks', ts[i], n);
    case Optional(t) => assert ts[0] == g[x].token && Kids(h[o[x]])[0] == t;
    case Scope(t) => assert ts[0] == g[x].token && Kids(h[o[x]])[0] == t;
    case Repeat(t, _, _) => assert ts[0] == g[x].token && Kids(h[o[x]])[0] == t;
    case _ =>
  }

  lemma {:induction false} CopiesHeights(v: View, marks: Marks, g: Graph, m: Ref, o: map<Ref, Ref>, dom: set<Ref>)
    requires Heights(v.h, marks) && marks.Keys <= v.h.Keys && CopyOf(v.h, v.next, g, m, o, dom) && Closed(v.h)
    ensures Heights(g, MarksCopied(marks, o))
  {
    var marks' := MarksCopied(marks, o);
    CopiesKeys(v, g, m, o, dom);
    MarksCopiedIs(marks, o);
    forall x | x in marks' ensures RestsOn(g, marks', x, marks'[x]) {
      hide CopyOf, MarksCopied, RestsOn;
      if x in o {
        CopyArity(v.h, v.next, g, m, o, dom, x);
        forall i | 0 <= i < |Kids(g[x])| ensures Kids(g[x])[i] in o && o[Kids(g[x])[i]] == Kids(v.h[o[x]])[i] {
          CopyKid(v.h, v.next, g, m, o, dom, x, i);
        }
        CopyRests(v.h, marks, g, marks', o, x, marks'[x]);
      } else {
        forall k | k in Kids(g[x]) ensures k in g && g[k] == v.h[k] {
          CopyEdge(v.h, v.next, g, m, o, dom, x, k);
        }
        RestsStill(v.h, marks, g, marks', x, marks'[x]);
      }
    }
  }

  lemma {:induction false} CopiesInPlace(pl: Plan, v: View, g: Graph, m: Ref, o: map<Ref, Ref>, dom: set<Ref>,
          sz: map<Ref, nat>)
    requires InPlace(pl, v) && pl.h0.Keys <= v.h.Keys && CopyOf(v.h, v.next, g, m, o, dom) && Closed(v.h)
        && v.side <= v.h.Keys
    ensures InPlace(pl, WithCopies(v, g, m, o, sz))
  {
    CopiesKeys(v, g, m, o, dom);
    forall x, k | x in g && k in Kids(g[x]) ensures (x !in pl.h0 ==> k !in pl.h0) && (x in v.side ==> k in pl.h0) {
      hide CopyOf;
      CopyEdge(v.h, v.next, g, m, o, dom, x, k);
    }
    hide CopyOf;
    assert OldEdges(pl, g, v.side);
  }

  lemma {:induction false} CopiesMarksKnown(pl: Plan, v: View, marks: Marks, o: map<Ref, Ref>, w: View)
    requires MarksKnown(pl, v, marks) && o.Keys !! marks.Keys && w.originals == v.originals && w.clones == v.clones
    requires pl.h0.Keys !! o.Keys && v.originals.Keys !! o.Keys && v.clones.Values !! o.Keys
    ensures MarksKnown(pl, w, MarksCopied(marks, o))
  {
    MarksCopiedIs(marks, o);
    hide MarksCopied;
    forall x | x in pl.h0 || x in v.originals || x in v.clones.Values
      ensures (x in MarksCopied(marks, o) <==> x in marks) && (x in marks ==> MarksCopied(marks, o)[x] == marks[x])
    {
    }
    assert forall c :: c in v.clones ==> v.clones[c] in v.clones.Values;
    SameMarksKnown(pl, v, marks, w, MarksCopied(marks, o));
  }

  lemma {:induction false} SameMarksKnown(pl: Plan, v: View, marks: Marks, w: View, marks': Marks)
    requires MarksKnown(pl, v, marks) && w.originals == v.originals && w.clones == v.clones
    requires forall x :: x in pl.h0 || x in v.originals || x in v.clones.Values ==>
               (x in marks' <==> x in marks) && (x in marks ==> marks'[x] == marks[x])
    ensures MarksKnown(pl, w, marks')
  {
    assert forall c :: c in v.clones ==> v.clones[c] in v.clones.Values;
  }

  lemma {:induction false} CopiesPaid(pl: Plan, v: View, marks: Marks, o: map<Ref, Ref>, w: View)
    requires Paid(pl, v, marks) && Alive(v, marks) && o.Keys !! v.h.Keys && v.cnt.Keys <= v.h.Keys && v.dead <= v.h.Keys
    requires w.cnt == v.cnt && w.dead == v.dead && forall x :: x in v.h || x in o ==> x in w.h
    requires forall x :: x in v.h ==> w.h[x] == v.h[x]
    ensures Paid(pl, w, MarksCopied(marks, o)) && Alive(w, MarksCopied(marks, o))
  {
    MarksCopiedIs(marks, o);
    hide MarksCopied, Affords;
  }

  lemma {:induction false} CopiesMarked(pl: Plan, v: View, marks: Marks, g: Graph, m: Ref, o: map<Ref, Ref>,
          dom: set<Ref>, sz: map<Ref, nat>)
    requires Marked(pl, v, marks) && pl.h0.Keys <= v.h.Keys && v.dead <= v.h.Keys && Closed(v.h) && v.side <= v.h.Keys
    requires v.originals.Keys <= v.h.Keys && v.clones.Values <= v.h.Keys && v.src.Keys == v.h.Keys
    requires CopyOf(v.h, v.next, g, m, o, dom)
    ensures Marked(pl, WithCopies(v, g, m, o, sz), MarksCopied(marks, o))
  {
    var w := WithCopies(v, g, m, o, sz);
    MarksAlive(pl, v, marks);
    CopiesHeights(v, marks, g, m, o, dom);
    CopiesInPlace(pl, v, g, m, o, dom, sz);
    CopySources(v.h, v.next, g, m, o, dom);
    CopiesKeys(v, g, m, o, dom);
    hide CopyOf, MarksCopied, Heights, Closed, MarksKnown, Paid, InPlace, Alive, RootLasts, SelfSource, SourceWith;
    CopiesPaid(pl, v, marks, o, w);
    CopiesMarksKnown(pl, v, marks, o, w);
    CopiesRoot(pl, v, marks, o, w);
    CopiesSelf(pl, v, o, w);
  }

  lemma {:induction false} CopiesSelf(pl: Plan, v: View, o: map<Ref, Ref>, w: View)
    requires SelfSource(pl, v) && w.src == SourceWith(v.src, o) && o.Keys !! v.src.Keys
    ensures SelfSource(pl, w)
  {
  }

  lemma {:induction false} MarksAlive(pl: Plan, v: View, marks: Marks)
    requires Marked(pl, v, marks)
    ensures marks.Keys <= v.h.Keys && v.cnt.Keys <= v.h.Keys
  {
    hide Heights, MarksKnown, Paid, RootLasts, OldEdges;
  }

  lemma {:induction false} CopiesRoot(pl: Plan, v: View, marks: Marks, o: map<Ref, Ref>, w: View)
    requires RootLasts(pl, v, marks) && w.root == v.root && w.climbed == v.climbed
    ensures RootLasts(pl, w, MarksCopied(marks, o))
  {
  }

  // ---------- a new original ----------

  lemma {:induction false} RegisterMarked(pl: Plan, v: View, marks: Marks, x: Ref, c: Ref)
    requires Marked(pl, v, marks) && x in pl.h0 && (c in marks <==> x in marks) && (c in marks ==> marks[c] == marks[x])
    ensures Marked(pl, v.(originals := v.originals[x := x], clones := v.clones[x := c]), marks)
  {
    RegisterMarksKnown(pl, v, marks, x, c);
    hide Heights, Affords, MarksKnown;
  }

  lemma {:induction false} RegisterMarksKnown(pl: Plan, v: View, marks: Marks, x: Ref, c: Ref)
    requires MarksKnown(pl, v, marks) && x in pl.h0 && (c in marks <==> x in marks)
        && (c in marks ==> marks[c] == marks[x])
    ensures MarksKnown(pl, v.(originals := v.originals[x := x], clones := v.clones[x := c]), marks)
  {
  }

  // ---------- a clone in the place of a pointer ----------

  ghost function MarksLinked(pl: Plan, marks: Marks, c: Ref, counts: map<Ref, nat>): Marks {
    if c in marks && !Affords(pl, counts, marks[c]) then marks - {c} else marks
  }

  ghost function MoreCounts(item: Item, original: Ref): map<Ref, nat>
    requires item.Item?
  {
    item.counts[original := CountOf(item.counts, original) + 1]
  }

  /** If the pointer is marked, so is what takes its place, and lower. */
  ghost predicate Succeeds(pl: Plan, marks: Marks, item: Item, c: Ref, original: Ref)
    requires item.Item?
  {
    && (item.tok in marks ==>
        c in marks && marks[c] < marks[item.tok] && Affords(pl, MoreCounts(item, original), marks[c]))
    && (c in marks ==> original in pl.heights && marks[c] == pl.heights[original])
  }

  /** What is known of the fresh clone c. */
  ghost predicate Strange(pl: Plan, v: View, c: Ref) {
    && c in v.h && Orphan(v.h, c) && c !in pl.h0 && c !in v.originals && c !in v.clones.Values
    && c != v.root && c !in v.dead
    && forall r :: r in v.h && v.h[r].Pointer? && v.h[r].target.Some? ==> v.h[r].target.value != c
  }

  lemma {:induction false} RestsReplaced(h: Graph, marks: Marks, g: Graph, marks': Marks, x: Ref, n: nat, t: Ref,
          c: Ref)
    requires RestsOn(h, marks, x, n) && !h[x].Pointer? && x in g && g[x] == ReplaceIn(h[x], t, c)
    requires t in h && h[t].Pointer?
    requires Under(marks, t, n) ==> Under(marks', c, n)
    requires forall k :: k in Kids(h[x]) && k in h && OptionalType(h[k]) ==> k in g && OptionalType(g[k])
    requires forall k :: k in Kids(h[x]) && k != t && Under(marks, k, n) ==> Under(marks', k, n)
    ensures RestsOn(g, marks', x, n)
  {
    hide Under;
    var ts := Kids(h[x]);
    match h[x]
    case Concat(_) =>
      forall k | k in Replaced(ts, t, c) ensures Droppable(false, g, k) || Under(marks', k, n) {
        var i :| 0 <= i < |ts| && Replaced(ts, t, c)[i] == k;
        assert ts[i] in ts;
      }
    case One(_) =>
      var k0 :| k0 in ts && Under(marks, k0, n);
      var i :| 0 <= i < |ts| && ts[i] == k0;
      assert Replaced(ts, t, c)[i] in Replaced(ts, t, c);
    case Optional(k) => assert ts[0] == k;
    case Scope(k) => assert ts[0] == k;
    case Repeat(k, _, _) => assert ts[0] == k;
    case _ =>
  }

  lemma {:induction false} LinkKinds(v: View, item: Item, c: Ref)
    requires ItemOk(v, item) && v.h[item.tok].Pointer?
    ensures forall k :: k in v.h ==> k in LinkedGraph(v.h, item, c)
    ensures forall k :: k in v.h ==> OptionalType(LinkedGraph(v.h, item, c)[k]) == OptionalType(v.h[k])
    ensures forall k :: k in v.h && k != item.tok && !(item.parent.Item? && k == item.parent.tok) ==>
              LinkedGraph(v.h, item, c)[k] == v.h[k]
    ensures LinkedGraph(v.h, item, c)[item.tok] == Pointer(Some(c))
    ensures item.parent.Item? ==>
              && item.parent.tok in v.h && item.parent.tok != item.tok && !v.h[item.parent.tok].Pointer?
              && LinkedGraph(v.h, item, c)[item.parent.tok] == ReplaceIn(v.h[item.parent.tok], item.tok, c)
  {
    assert ChainOk(v, item.parent);
  }

  lemma {:induction false} LinkRests(pl: Plan, v: View, marks: Marks, item: Item, c: Ref, original: Ref, x: Ref)
    requires Heights(v.h, marks) && ItemOk(v, item) && v.h[item.tok].Pointer? && Closed(v.h)
    requires Strange(pl, v, c) && Succeeds(pl, marks, item, c, original)
    requires x in MarksLinked(pl, marks, c, MoreCounts(item, original))
    ensures RestsOn(LinkedGraph(v.h, item, c), MarksLinked(pl, marks, c, MoreCounts(item, original)), x, marks[x])
  {
    var g, marks', t, n := LinkedGraph(v.h, item, c), MarksLinked(pl, marks, c, MoreCounts(item, original)), item.tok,
        marks[x];
    LinkKinds(v, item, c);
    assert RestsOn(v.h, marks, x, n);
    assert forall k, m: nat :: k != c && Under(marks, k, m) ==> Under(marks', k, m);
    assert forall m: nat :: Under(marks, t, m) ==> Under(marks', c, m);
    hide LinkedGraph, ItemOk, MarksLinked, Heights, Succeeds;
    if x == t {
      assert Under(marks', c, n);
    } else if item.parent.Item? && x == item.parent.tok {
      forall k | k in Kids(v.h[x]) ensures k != c { OrphanNotBelow(v.h, c, x); }
      hide RestsOn, Under;
      RestsReplaced(v.h, marks, g, marks', x, n, t, c);
    } else {
      forall k | k in Kids(v.h[x]) ensures k != c { OrphanNotBelow(v.h, c, x); }
      hide RestsOn, Under;
      RestsStill(v.h, marks, g, marks', x, n);
    }
  }

  lemma {:induction false} LinkHeights(pl: Plan, v: View, marks: Marks, item: Item, c: Ref, original: Ref)
    requires Heights(v.h, marks) && ItemOk(v, item) && v.h[item.tok].Pointer? && Closed(v.h)
    requires Strange(pl, v, c) && Succeeds(pl, marks, item, c, original)
    ensures Heights(LinkedGraph(v.h, item, c), MarksLinked(pl, marks, c, MoreCounts(item, original)))
  {
    var marks' := MarksLinked(pl, marks, c, MoreCounts(item, original));
    forall x | x in marks' ensures marks'[x] == marks[x] && RestsOn(LinkedGraph(v.h, item, c), marks', x, marks'[x]) {
      hide Heights, RestsOn, LinkedGraph, ItemOk, Succeeds, Strange;
      LinkRests(pl, v, marks, item, c, original, x);
    }
  }

  lemma {:induction false} LinkInPlace(pl: Plan, v: View, item: Item, c: Ref, original: Ref)
    requires InPlace(pl, v) && ItemOk(v, item) && v.h[item.tok].Pointer? && Strange(pl, v, c) && v.side !! v.done
    ensures InPlace(pl, Linked(v, item, c, original))
  {
    LinkKeys(v, item, c);
    assert item.parent.Item? ==> item.parent.tok in v.done by { assert ChainOk(v, item.parent); }
    hide ItemOk, LinkedGraph, Orphan;
    forall x, k | x in v.h && k in Kids(LinkedGraph(v.h, item, c)[x])
      ensures (x !in pl.h0 ==> k !in pl.h0) && (x in v.side ==> k in pl.h0)
    {
      LinkEdge(v, item, c, x, k);
    }
    LinkInPlaceOf(pl, v, item, c, original);
  }

  lemma {:induction false} LinkInPlaceOf(pl: Plan, v: View, item: Item, c: Ref, original: Ref)
    requires InPlace(pl, v) && item.Item? && c in v.h && c !in pl.h0 && OldEdges(pl, LinkedGraph(v.h, item, c), v.side)
    requires LinkedGraph(v.h, item, c).Keys == v.h.Keys
    ensures InPlace(pl, Linked(v, item, c, original))
  {
    hide LinkedGraph, OldEdges;
  }

  lemma {:induction false} LinkMarksKnown(pl: Plan, v: View, marks: Marks, item: Item, c: Ref, original: Ref)
    requires MarksKnown(pl, v, marks) && item.Item? && Strange(pl, v, c) && Succeeds(pl, marks, item, c, original)
    ensures MarksKnown(pl, Linked(v, item, c, original), MarksLinked(pl, marks, c, MoreCounts(item, original)))
  {
    assert forall o :: o in v.clones ==> v.clones[o] in v.clones.Values;
    hide Orphan, LinkedGraph, Affords;
  }

  lemma {:induction false} LinkPaid(pl: Plan, v: View, marks: Marks, item: Item, c: Ref, original: Ref)
    requires Paid(pl, v, marks) && Alive(v, marks) && ItemOk(v, item) && v.h[item.tok].Pointer? && Strange(pl, v, c)
    ensures var w, marks' := Linked(v, item, c, original), MarksLinked(pl, marks, c, MoreCounts(item, original));
            Paid(pl, w, marks') && Alive(w, marks')
  {
    LinkKinds(v, item, c);
    hide Orphan, LinkedGraph, Affords, ItemOk;
  }

  lemma {:induction false} LinkMarked(pl: Plan, v: View, marks: Marks, item: Item, c: Ref, original: Ref)
    requires Marked(pl, v, marks) && ItemOk(v, item) && v.h[item.tok].Pointer? && Closed(v.h) && v.side !! v.done
    requires Strange(pl, v, c) && Succeeds(pl, marks, item, c, original)
    ensures Marked(pl, Linked(v, item, c, original), MarksLinked(pl, marks, c, MoreCounts(item, original)))
  {
    LinkHeights(pl, v, marks, item, c, original);
    LinkInPlace(pl, v, item, c, original);
    LinkMarksKnown(pl, v, marks, item, c, original);
    LinkPaid(pl, v, marks, item, c, original);
    LinkRoot(pl, v, marks, item, c, original);
    hide Heights, InPlace, MarksKnown, Paid, Alive, LinkedGraph, ItemOk, Strange, Succeeds, MarksLinked, RootLasts;
  }

  lemma {:induction false} LinkRoot(pl: Plan, v: View, marks: Marks, item: Item, c: Ref, original: Ref)
    requires RootLasts(pl, v, marks) && ItemOk(v, item) && Strange(pl, v, c) && Succeeds(pl, marks, item, c, original)
    ensures RootLasts(pl, Linked(v, item, c, original), MarksLinked(pl, marks, c, MoreCounts(item, original)))
  {
    hide Orphan, LinkedGraph, ChainOk, OnlyParent, Affords;
  }

  // ---------- cutting ----------

  lemma {:induction false} UnsetHeights(h: Graph, marks: Marks, t: Ref)
    requires Heights(h, marks) && t in h && h[t].Pointer? && t !in marks
    ensures Heights(h[t := Pointer(None)], marks)
  {
    forall x | x in marks ensures RestsOn(h[t := Pointer(None)], marks, x, marks[x]) {
      assert RestsOn(h, marks, x, marks[x]);
      hide RestsOn, Heights, Under;
      RestsStill(h, marks, h[t := Pointer(None)], marks, x, marks[x]);
    }
  }

  /** An unmarked pointer is unset and counts as cut off. */
  lemma {:induction false} CutMarked(pl: Plan, v: View, marks: Marks, item: Item)
    requires Marked(pl, v, marks) && ItemOk(v, item) && v.h[item.tok].Pointer? && item.tok !in marks
    ensures Marked(pl, Retired(v, item).(h := v.h[item.tok := Pointer(None)]), marks)
  {
    UnsetHeights(v.h, marks, item.tok);
    ShrinkMarks(pl, v, marks, Retired(v, item).(h := v.h[item.tok := Pointer(None)]), item.tok, Pointer(None));
    hide Heights, MarksKnown, InPlace, Paid, Alive, ChainOk, OnlyParent;
  }

  /** What is left of the marks when the token p changes, and is cut off or not. */
  lemma {:induction false} ShrinkMarks(pl: Plan, v: View, marks: Marks, w: View, p: Ref, n: Node)
    requires Paid(pl, v, marks) && Alive(v, marks) && MarksKnown(pl, v, marks) && InPlace(pl, v)
    requires p in v.h && w.h == v.h[p := n] && w.cnt == v.cnt && w.originals == v.originals && w.clones == v.clones
    requires w.side == v.side && forall k :: k in Kids(n) ==> k in Kids(v.h[p])
    requires n.Pointer? == v.h[p].Pointer?
        && (w.dead == v.dead || (w.dead == v.dead + {p} && (p !in marks || n.Pointer?)))
    ensures Paid(pl, w, marks) && Alive(w, marks) && MarksKnown(pl, w, marks) && InPlace(pl, w)
  {
    ShrinkOldEdges(pl, v.h, p, n, v.side);
    hide Affords, OldEdges;
    SameMarksKnown(pl, v, marks, w, marks);
    hide MarksKnown;
  }

  lemma {:induction false} ShrinkOldEdges(pl: Plan, h: Graph, p: Ref, n: Node, side: set<Ref>)
    requires OldEdges(pl, h, side) && p in h && forall k :: k in Kids(n) ==> k in Kids(h[p])
    ensures OldEdges(pl, h[p := n], side)
  {
  }

  lemma {:induction false} LosesOnly(h: Graph, p: Ref, ta: Ref)
    requires p in h && NoRepeats(Kids(h[p]))
    ensures var (n, keep) := LogicalRemoval(h, h[p], ta);
            && (forall k :: k in Kids(n) ==> k in Kids(h[p]))
            && (keep && !n.Optional? && !n.Scope? && !n.Repeat? ==>
                forall k :: k in Kids(h[p]) && k != ta ==> k in Kids(n))
            && (n.Concat? <==> h[p].Concat?) && (n.One? <==> h[p].One?) && OptionalType(n) == OptionalType(h[p])
            && (h[p].Text? || h[p].Optional? || h[p].Scope? || h[p].Repeat? || h[p].Pointer? ==> n == h[p])
  {
    match h[p]
    case Concat(ts) =>
      DroppedOnce(ts, ta);
      forall k ensures k in Removed(ts, ta) <==> k in ts && k != ta { RemovedAmong(ts, ta, k); }
    case One(ts) =>
      forall k ensures k in Removed(ts, ta) <==> k in ts && k != ta { RemovedAmong(ts, ta, k); }
    case _ =>
  }

  /** A marked token is of use without an unmarked one. */
  lemma {:induction false} MarkedKeeps(h: Graph, marks: Marks, p: Ref, ta: Ref, n: nat)
    requires RestsOn(h, marks, p, n) && ta !in marks && NoRepeats(Kids(h[p])) && !h[p].Pointer?
    ensures var (m, keep) := LogicalRemoval(h, h[p], ta); keep && RestsOn(h[p := m], marks, p, n)
  {
    var (m, keep) := LogicalRemoval(h, h[p], ta);
    LosesOnly(h, p, ta);
    hide Dropped, Removed;
    match h[p]
    case Concat(ts) =>
      forall k | k in m.tokens ensures Droppable(false, h[p := m], k) || Under(marks, k, n) {
        assert k in ts;
      }
    case One(ts) =>
      var k :| k in ts && Under(marks, k, n);
      RemovedAmong(ts, ta, k);
      assert k in m.tokens;
    case _ =>
  }

  lemma {:induction false} PruneHeights(h: Graph, marks: Marks, p: Ref, ta: Ref)
    requires Heights(h, marks) && p in h && !h[p].Pointer? && ta !in marks && NoRepeats(Kids(h[p]))
    ensures var (n, keep) := LogicalRemoval(h, h[p], ta); Heights(h[p := n], marks) && (p in marks ==> keep)
  {
    var (n, keep) := LogicalRemoval(h, h[p], ta);
    LosesOnly(h, p, ta);
    hide LogicalRemoval, NoRepeats;
    forall x | x in marks ensures RestsOn(h[p := n], marks, x, marks[x]) && (x == p ==> keep) {
      assert RestsOn(h, marks, x, marks[x]);
      hide RestsOn, Heights, Under;
      if x == p {
        MarkedKeeps(h, marks, p, ta, marks[p]);
      } else {
        RestsStill(h, marks, h[p := n], marks, x, marks[x]);
      }
    }
  }

  /** An unmarked token is removed from p: p stays, or it is not marked and goes too. */
  lemma {:induction false} PruneMarked(pl: Plan, v: View, marks: Marks, p: Ref, ta: Ref)
    requires Marked(pl, v, marks) && p in v.h && !v.h[p].Pointer? && ta !in marks && NoRepeats(Kids(v.h[p]))
    ensures var (n, keep) := LogicalRemoval(v.h, v.h[p], ta);
            && Marked(pl, v.(h := v.h[p := n]), marks) && (p in marks ==> keep)
  {
    var (n, keep) := LogicalRemoval(v.h, v.h[p], ta);
    PruneHeights(v.h, marks, p, ta);
    LosesOnly(v.h, p, ta);
    PruneKind(v.h, p, ta);
    hide LogicalRemoval, Heights, MarksKnown, InPlace, Paid, Alive, NoRepeats;
    ShrinkMarks(pl, v, marks, v.(h := v.h[p := n]), p, n);
  }

  lemma {:induction false} PruneKind(h: Graph, p: Ref, ta: Ref)
    requires p in h
    ensures LogicalRemoval(h, h[p], ta).0.Pointer? == h[p].Pointer?
  {
  }

  lemma {:induction false} ClimbMarked(pl: Plan, v: View, marks: Marks, at: Item)
    requires Marked(pl, v, marks) && at.Item? && at.tok in v.h && at.tok !in marks
    requires at.parent.NoItem? ==> at.tok == v.root
    ensures Marked(pl, Climbed(v, at), marks)
  {
    assert v.h == v.h[at.tok := v.h[at.tok]];
    ShrinkMarks(pl, v, marks, Climbed(v, at), at.tok, v.h[at.tok]);
    hide Heights, MarksKnown, InPlace, Paid, Alive;
  }
}
