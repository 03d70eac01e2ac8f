/**
 * UnrollPointers (token/transform.go:76-337): pointers are replaced by clones of what they point to,
 * at most maxRepeat times on a path; beyond that they are cut off, with everything that cannot be
 * printed without them. The methods run the machine of UnrollMachine.
 */
module Unroll {
  import opened Onces
  import opened TokenGraphs
  import opened UnrollWords
  import opened UnrollState
  import opened UnrollSteps
  import opened UnrollCopy
  import opened UnrollLink
  import opened UnrollRemoval
  import opened UnrollMachine
  import opened UnrollClones
  import opened UnrollLasting
  import opened UnrollSpec
  import opened UnrollMarks
  import opened UnrollPromises
  import opened UnrollRun
  import opened UnrollResult
  import opened UnrollBounded
  import opened UnrollDefinitions
  import opened UnrollTraces
  import opened UnrollCover
  import opened UnrollKeeps

  class Unroller {
    const maxRepeat: nat
    var nodes: Graph
    var next: Ref
    var root: Ref
    var originals: map<Ref, Ref>
    var originalClones: map<Ref, Ref>
    var queue: seq<Item>
    /** pointerlessLoopDetection */
    var seen: set<Ref>
    /** A cut went on past the root: the root itself was cut off. */
    var climbed: bool

    ghost function Now(): Machine
      reads this
    {
      Machine(nodes, next, root, originals, originalClones, queue, seen, climbed)
    }

    constructor (h: Graph, r: Ref, free: Ref, limit: nat)
      ensures maxRepeat == limit && Now() == Initial(h, r, free)
    {
      maxRepeat := limit;
      nodes, next, root := h, free, r;
      originals, originalClones, climbed, seen := map[], map[], false, {};
      queue := [Item(r, NoItem, map[])];
    }

    /** Clone, token by token. */
    method Clone(r: Ref, ghost dom: set<Ref>, ghost rank: map<Ref, nat>) returns (c: Ref)
      requires (forall x :: x in nodes ==> x < next) && r in dom && Descends(nodes, dom, rank)
      modifies this`nodes, this`next
      ensures (forall x :: x in nodes ==> x < next)
          && forall x :: x in old(nodes) ==> x in nodes && nodes[x] == old(nodes)[x]
      ensures ClonedFrom(rank[r] + 1, old(nodes), old(next), r, nodes, next, c)
      decreases rank[r], 1, 0
    {
      hide ClonedFrom, AllClonedFrom;
      var n := nodes[r];
      var cs := CloneAll(Kids(n), dom, rank, rank[r]);
      c := next;
      ClonedBelow(old(nodes), old(next), r, rank[r], nodes, next, cs);
      nodes := nodes[c := WithKids(n, cs)];
      next := next + 1;
    }

    method CloneAll(ts: seq<Ref>, ghost dom: set<Ref>, ghost rank: map<Ref, nat>, ghost bound: nat)
      returns (cs: seq<Ref>)
      requires (forall x :: x in nodes ==> x < next) && Descends(nodes, dom, rank)
      requires forall k :: k in ts ==> k in dom && rank[k] < bound
      modifies this`nodes, this`next
      ensures (forall x :: x in nodes ==> x < next)
          && forall x :: x in old(nodes) ==> x in nodes && nodes[x] == old(nodes)[x]
      ensures |cs| == |ts| && AllClonedFrom(bound, old(nodes), old(next), ts, nodes, next, cs)
      decreases bound, 0, |ts|
    {
      if |ts| == 0 {
        cs := [];
      } else {
        hide ClonedFrom, AllClonedFrom;
        assert ts[0] in ts && forall k :: k in ts[1..] ==> k in ts;
        var c := Clone(ts[0], dom, rank);
        ghost var h1, n1 := nodes, next;
        var rest := CloneAll(ts[1..], dom, rank, bound);
        cs := [c] + rest;
        AllClonedNext(bound, old(nodes), old(next), ts, rank[ts[0]], h1, n1, c, nodes, next, rest);
      }
    }

    // ---------- one entry of the worklist ----------

    /** The children of a token are put in front of the worklist, the first one first. */
    method PushKids(ts: seq<Ref>, item: Item)
      requires item.Item?
      modifies this`queue
      ensures queue == KidItems(ts, item) + old(queue)
    {
      ghost var more := KidItems(ts, item);
      var i := |ts|;
      assert more[i..] + queue == queue;
      while i > 0
        invariant 0 <= i <= |ts| && queue == more[i..] + old(queue)
      {
        i := i - 1;
        assert more[i..] == [more[i]] + more[i + 1..];
        queue := [Item(ts[i], item, item.counts)] + queue;
      }
    }

    /** What a pointer leads to, past other pointers. */
    method Chase(t: Ref) returns (aim: Aimed)
      requires t in nodes && nodes[t].Pointer? && TargetsIn(nodes, nodes.Keys)
      ensures aim == Aim(nodes, t, {})
      ensures aim.At? ==> aim.child in nodes && !nodes[aim.child].Pointer?
    {
      var child := nodes[t].target;
      if child.None? { return Unset; }
      if nodes[child.value].Pointer? {
        var p := child.value;
        var checked := {p};
        assert {} + {p} == checked;
        while true
          invariant p in nodes && nodes[p].Pointer? && p in checked && checked <= nodes.Keys
          invariant Aim(nodes, p, checked) == Aim(nodes, t, {})
          decreases nodes.Keys - checked
        {
          child := nodes[p].target;
          if child.None? { return Unset; }
          if !nodes[child.value].Pointer? { break; }
          p := child.value;
          if p in checked { return Loops; }
          checked := checked + {p};
        }
      }
      aim := At(child.value);
    }

    /** A new original: from now on every expansion clones the clone that is made here. */
    method Register(child: Ref, ghost rank: map<Ref, nat>)
      requires child in nodes && child !in originals && Sensible(Now(), rank)
      modifies this`nodes, this`next, this`originals, this`originalClones
      ensures Registers(old(Now()), child, Now())
    {
      hide Cloned;
      originals := originals[child := child];
      var c := Clone(child, nodes.Keys, rank);
      originalClones := originalClones[child := c];
      ClonedIs(rank[child] + 1, old(nodes), old(next), child, nodes, next, c);
      RegistersTo(old(Now()), child, nodes, next, c);
    }

    /** The clone c takes the place of the pointer: in the pointer, in its parent and on the worklist. */
    method Link(item: Item, c: Ref, counts: map<Ref, nat>)
      requires item.Item? && item.tok in nodes
      requires item.parent.Item? ==> item.parent.tok in nodes && item.parent.tok != item.tok
      modifies this`nodes, this`root, this`queue
      ensures nodes == LinkedGraph(old(nodes), item, c)
      ensures root == if item.parent.NoItem? then c else old(root)
      ensures queue == [Item(c, item.parent, counts)] + old(queue)
    {
      nodes := nodes[item.tok := Pointer(Some(c))];
      if item.parent.Item? {
        nodes := nodes[item.parent.tok := ReplaceIn(nodes[item.parent.tok], item.tok, c)];
      } else {
        root := c;
      }
      queue := [Item(c, item.parent, counts)] + queue;
    }

    /** Put a clone of the original in the place of the pointer. */
    method Expand(item: Item, original: Ref, counted: nat, ghost rank: map<Ref, nat>)
      requires item.Item? && original in originalClones && counted == CountOf(item.counts, original)
      requires (item.parent.Item? ==> item.parent.tok != item.tok) && ItemIn(nodes, item) && Sensible(Now(), rank)
      modifies this`nodes, this`next, this`originals, this`root, this`queue, this`seen
      ensures Expands(old(Now()), item, original, Now())
    {
      hide *;
      ghost var m := Now();
      NowIs();
      SensibleClone(m, rank, original);
      seen := {};
      var c := Clone(originalClones[original], nodes.Keys, rank);
      ghost var g, free := nodes, next;
      ClonedIs(rank[originalClones[original]] + 1, m.h, m.next, m.clones[original], g, free, c);
      originals := originals[c := original];
      ItemInMore(m.h, nodes, item);
      ItemInParts(nodes, item);
      Link(item, c, item.counts[original := counted + 1]);
      NowIs();
      PutInIs(m, item, original, g, free, c, Now());
      ExpandsTo(m, item, original, g, free, c);
    }

    /** The alternatives without tok. */
    method WithoutAlternative(ts: seq<Ref>, tok: Ref) returns (us: seq<Ref>)
      ensures us == Removed(ts, tok)
    {
      us := ts;
      var i := 0;
      while i < |us|
        invariant 0 <= i <= |us| && tok !in us[..i] && Removed(us, tok) == Removed(ts, tok)
        decreases |us| - i
      {
        if us[i] == tok {
          RemovedSkip(us, i, tok);
          ghost var front := us[..i];
          us := us[..i] + us[i + 1..];
          assert us[..i] == front;
        } else {
          assert us[..i + 1] == us[..i] + [us[i]];
          i := i + 1;
        }
      }
      assert us[..i] == us;
      RemovedNothing(us, tok);
    }

    /** The tokens of a concatenation without tok, if it is of an optional type; otherwise all has to go. */
    method WithoutPart(ts: seq<Ref>, tok: Ref) returns (us: seq<Ref>, keep: bool)
      requires tok in ts ==> tok in nodes
      ensures keep == (tok !in ts || OptionalType(nodes[tok]))
      ensures us == if keep then Dropped(ts, tok) else ts
    {
      hide Dropped;
      us, keep := ts, true;
      var i := 0;
      DroppedFrom(ts, 0, tok);
      while i < |us|
        invariant 0 <= i <= |us| + 1
        invariant RestDropped(us, i, tok) == Dropped(ts, tok)
        invariant if tok in ts && OptionalType(nodes[tok]) then true else us == ts && i <= |us| && tok !in us[..i]
        decreases |us| - i
      {
        if us[i] == tok {
          assert tok in us;
          if tok !in ts || !OptionalType(nodes[tok]) {
            keep := false;
            return;
          }
          DroppedHere(us, i, tok);
          us := us[..i] + us[i + 1..];
        } else {
          DroppedOn(us, i, tok);
          assert us[..i + 1] == us[..i] + [us[i]];
        }
        i := i + 1;
      }
      DroppedAll(us, i, tok);
    }

    /** Take tok from the token p; whether p is still of use without it. */
    method InternalLogicalRemove(p: Ref, tok: Ref) returns (keep: bool)
      requires p in nodes && (tok in Kids(nodes[p]) ==> tok in nodes)
      modifies this`nodes
      ensures nodes == old(nodes)[p := LogicalRemoval(old(nodes), old(nodes)[p], tok).0]
      ensures keep == LogicalRemoval(old(nodes), old(nodes)[p], tok).1
    {
      var n := nodes[p];
      keep := true;
      match n {
        case Concat(ts) =>
          var us;
          us, keep := WithoutPart(ts, tok);
          if tok !in ts { DroppedNothing(ts, tok); }
          nodes := nodes[p := Concat(us)];
        case One(ts) =>
          var us := WithoutAlternative(ts, tok);
          nodes := nodes[p := One(us)];
          keep := |us| > 0;
        case Optional(t) => keep := t != tok;
        case Scope(t) => keep := t != tok;
        case Repeat(t, _, _) => keep := t != tok;
        case _ =>
      }
    }

    /** Take the pointer away, and everything above it that is of no use without it. */
    method Cut(item: Item)
      requires item.Item? && ItemIn(nodes, item) && nodes[item.tok].Pointer? && Closed(nodes)
      modifies this`nodes, this`climbed
      ensures Now() == CutAt(old(Now()), item)
    {
      ItemInMore(nodes, nodes[item.tok := Pointer(None)], item);
      nodes := nodes[item.tok := Pointer(None)];
      ghost var start := nodes;
      var ta, tt := item.tok, item.parent;
      while tt.Item?
        invariant nodes.Keys == old(nodes.Keys) && Closed(nodes) && ItemIn(nodes, tt)
        invariant Climb(nodes, tt, ta) == Climb(start, item.parent, item.tok) && climbed == old(climbed)
        decreases tt
      {
        hide LogicalRemoval;
        ghost var h := nodes;
        var keep := InternalLogicalRemove(tt.tok, ta);
        RemovalClosed(h, tt.tok, ta);
        ItemInMore(h, nodes, tt.parent);
        if keep { return; }
        ta, tt := tt.tok, tt.parent;
      }
      climbed := true;
    }

    /** The original that a pointer to child is expanded to, unless the path already has maxRepeat of its expansions. */
    method Choose(item: Item, child: Ref, ghost rank: map<Ref, nat>)
      returns (original: Ref, counted: nat, replace: bool)
      requires item.Item? && child in nodes && Sensible(Now(), rank)
      modifies this`nodes, this`next, this`originals, this`originalClones
      ensures original == OriginalOf(old(originals), child)
      ensures replace == Wanted(maxRepeat, old(originals), item.counts, child)
      ensures if replace then Registers(old(Now()), child, Now()) else Now() == old(Now())
      ensures child in old(originals) ==> counted == CountOf(item.counts, original)
      ensures child !in old(originals) ==> counted == 0
    {
      original, counted, replace := child, 0, true;
      if child in originals {
        original := originals[child];
        counted := CountOf(item.counts, original);
        if counted >= maxRepeat {
          replace := false;
        }
      } else {
        Register(child, rank);
      }
    }

    /** A pointer is replaced by a clone of what it leads to, or cut off. */
    method Unpoint(item: Item, ghost rank: map<Ref, nat>) returns (outcome: Outcome)
      requires item.Item? && ItemIn(nodes, item) && nodes[item.tok].Pointer? && Sensible(Now(), rank)
      requires Uncounted(Now(), item) && (item.parent.Item? ==> item.parent.tok != item.tok)
      modifies this
      ensures outcome == if Aim(old(nodes), item.tok, {}).Unset? then NilPointer else Unrolled
      ensures outcome == Unrolled ==> Unpoints(maxRepeat, old(Now()), item, Now())
    {
      hide Aim, Registers, Expands, CutAt, Wanted, OriginalOf, Sensible;
      SensibleParts(Now(), rank);
      var aim := Chase(item.tok);
      if aim.Unset? { return NilPointer; }
      outcome := Unrolled;
      var original, counted, replace := 0, 0, aim.At?;
      if replace {
        original, counted, replace := Choose(item, aim.child, rank);
      }
      if replace {
        ghost var known := Now();
        ghost var rank' := SensibleRegistered(old(Now()), aim.child, known, rank);
        ItemInMore(old(nodes), nodes, item);
        OriginalRegistered(known, aim.child, rank');
        Expand(item, original, counted, rank');
        assert Registers(old(Now()), aim.child, known) && Expands(known, item, original, Now());
      } else {
        Cut(item);
      }
    }

    /** The first entry of the worklist: a token is visited, and a pointer expanded or cut off. */
    method Take(ghost rank: map<Ref, nat>) returns (outcome: Outcome)
      requires FirstReady(Now(), rank)
      modifies this
      ensures outcome == Unrolled ==> Next(maxRepeat, old(Now()), Now())
      ensures outcome == NilPointer ==> Stops(old(Now()), NilPointer)
      ensures outcome != Endless
    {
      hide Aim, Unpoints, KidItems;
      var item := queue[0];
      queue := queue[1..];
      seen := seen + {item.tok};
      assert Now() == Taken(old(Now()));
      SensibleTaken(old(Now()), rank);
      if nodes[item.tok].Pointer? {
        outcome := Unpoint(item, rank);
      } else {
        PushKids(Kids(nodes[item.tok]), item);
        outcome := Unrolled;
      }
    }

    /** Take entries from the worklist until there are none. */
    method Run(ghost pl: Plan, ghost keys: seq<Ref>, ghost v0: View, ghost og: Basis, ghost tr0: Trace)
      returns (outcome: Outcome, ghost end: Machine, ghost v: View, ghost marks: Marks, ghost cap: nat,
            ghost tr: Trace)
      requires Runs(pl, maxRepeat, keys, 0, v0, pl.heights, Now())
      requires og.limit == maxRepeat && Covers(og, tr0, Now())
      modifies this
      ensures outcome == Unrolled ==> end == Now() && queue == [] && Runs(pl, maxRepeat, keys, cap, v, marks, end)
      ensures outcome == Unrolled ==> Covers(og, tr, end)
      ensures outcome == Unrolled || (outcome == NilPointer && !pl.safe)
      ensures exists k: nat :: Goes(maxRepeat, old(Now()), end, k) && Stops(end, outcome)
    {
      hide *;
      ghost var k: nat := 0;
      v, marks, cap, end, tr := v0, pl.heights, 0, Now(), tr0;
      GoesNowhere(maxRepeat, Now());
      NowIs();
      RunsLeft(pl, maxRepeat, keys, cap, v, marks, Now());
      while queue != []
        invariant Runs(pl, maxRepeat, keys, cap, v, marks, Now()) && |originalClones| <= |keys|
        invariant Goes(maxRepeat, old(Now()), Now(), k) && Covers(og, tr, Now())
        decreases |keys| - |originalClones|, Weighs(pl, keys, cap, v, queue)
      {
        end := Now();
        NowIs();
        RunsReady(pl, maxRepeat, keys, cap, v, marks, end);
        RunsUpTo(pl, maxRepeat, keys, cap, v, marks, end);
        outcome := Take(v.rank);
        if outcome == NilPointer {
          RunsStop(pl, maxRepeat, keys, cap, v, marks, end);
          return;
        }
        NowIs();
        ghost var before := (v, cap);
        tr := NextCovers(og, tr, end, v.rank, Now());
        v, marks, cap := RunsNext(pl, maxRepeat, keys, cap, v, marks, end, Now());
        ProgressIs(pl, keys, before.1, before.0, end, cap, v, Now());
        RunsLeft(pl, maxRepeat, keys, cap, v, marks, Now());
        GoesOn(maxRepeat, old(Now()), end, Now(), k);
        k := k + 1;
      }
      NowIs();
      outcome, end := Unrolled, Now();
      StopsEmpty(end);
    }

    lemma {:induction false} NowIs()
      ensures Now() == Machine(nodes, next, root, originals, originalClones, queue, seen, climbed)
    {
    }
  }

  // ---------- the unrolling of a whole graph ----------

  /** At most that many expansions of an original are on a path: the first one is made before a counter is looked at. */
  function Bound(limit: nat): nat {
    if limit == 0 then 1 else limit
  }

  ghost predicate CanBeIsolated(h: Graph, r: Ref) {
    exists own :: Isolated(h, r, own)
  }

  ghost predicate HasDefinitions(h: Graph, r: Ref) {
    exists def :: Definitions(h, r, def)
  }

  ghost predicate AllLast(h: Graph) {
    forall x :: x in h ==> Lasts(h, x)
  }

  /** What is promised for the graph h: all that it allows. */
  ghost function PlanFor(h: Graph, r: Ref, limit: nat, rank: map<Ref, nat>, heights: map<Ref, nat>): Plan {
    var exact := limit >= 1 && CanBeIsolated(h, r);
    var own := if exact then (var own :| Isolated(h, r, own); own) else {};
    Plan(h, r, rank, Bound(limit), if limit >= 1 then heights else map[],
         PointersSet(h) && limit >= 1 && (exact || AllLast(h)), exact, own)
  }

  lemma {:induction false} PlanIsSane(h: Graph, r: Ref, limit: nat, rank: map<Ref, nat>, heights: map<Ref, nat>)
    requires Grammar(h, r, rank) && Heights(h, heights) && forall x :: x in heights <==> Lasts(h, x)
    ensures var pl := PlanFor(h, r, limit, rank, heights);
            Sane(pl) && Planned(pl, limit) && pl.h0 == h && pl.r0 == r && pl.rank == rank && pl.limit == Bound(limit)
  {
    hide Heights, Closed, UniqueParent, Acyclic, Lasts, Isolated, TargetsIn, Alternatives;
    var pl := PlanFor(h, r, limit, rank, heights);
    EmptyHeights(h);
  }

  lemma {:induction false} EmptyHeights(h: Graph)
    ensures Heights(h, map[])
  {
  }

  lemma {:induction false} PlanKeeps(h: Graph, r: Ref, limit: nat, rank: map<Ref, nat>, heights: map<Ref, nat>, v: View)
    requires forall x :: x in heights <==> Lasts(h, x)
    requires var pl := PlanFor(h, r, limit, rank, heights); Sane(pl) && Kept(pl, v)
    ensures limit >= 1 && Lasts(h, r) ==> !v.climbed
    ensures limit >= 1 && CanBeIsolated(h, r) ==> Unfolded(h, rank, limit, r, v.h, v.src, v.root, v.climbed)
  {
    hide Lasts, Formed, Isolated, Heights, Looks, Unfold;
  }

  lemma {:induction false} ResultIs(h: Graph, rank: map<Ref, nat>, limit: nat, r: Ref, g: Graph, src: Source, s: Ref,
          climbed: bool)
    requires Grammar(h, r, rank) && limit >= 1
    requires CanBeIsolated(h, r) ==> Unfolded(h, rank, limit, r, g, src, s, climbed)
    requires LosesNothing(h, limit, r, g, s, climbed)
    ensures CanBeIsolated(h, r) && Unforced(h) ==> ExactlyWithin(h, limit, r, g, s, climbed)
    ensures !climbed && HasDefinitions(h, r) ==> CopiesWithin(h, limit, g, src, s)
  {
    hide Unfolded, LosesNothing, ExactlyWithin, CopiesWithin, Definitions, UniqueParent, Acyclic, Alternatives,
        Isolated;
    hide Unforced;
    if CanBeIsolated(h, r) && Unforced(h) {
      ExactWords(h, rank, limit, r, g, src, s, climbed);
    }
    if !climbed && HasDefinitions(h, r) {
      var def :| Definitions(h, r, def);
      var own := DefinitionsIsolate(h, rank, r, def);
      NoMoreCopies(h, rank, limit, r, def, g, src, s);
    }
  }

  /** Nothing is left of the root. */
  ghost predicate NothingLeft(h: Graph, rank: map<Ref, nat>, limit: nat, r: Ref) {
    Formed(h, rank) && r in h && Unfold(h, rank, limit, r, map[]) == None
  }

  lemma {:induction false} CutOffHasNothing(og: Basis, tr: Trace, m: Machine)
    requires Covers(og, tr, m) && og.root in og.h
    ensures m.climbed ==> NothingLeft(og.h, og.rank, og.limit, og.root)
  {
    CoversParts(og, tr, m);
    hide Covers, Formed, AllTraced, TokensOk, Original, Known, Counting, Unfold, Image;
  }

  lemma {:induction false} GrammarIsFormed(h: Graph, r: Ref, rank: map<Ref, nat>)
    requires Grammar(h, r, rank)
    ensures Formed(h, rank) && r in h
  {
    hide UniqueParent;
  }

  /**
   * The unrolling of a whole graph ends as the machine ends. A result prints only words of the original
   * grammar, and every word within the limit; if no cut went on past the root, it has no pointer and at most
   * Bound(limit) expansions of an original on any path. A root of which something is left is not cut off, so
   * one that lasts is not. There is a result if every token lasts, or if nothing leads into the tree of the
   * root; then the result is what the root unfolds into, and without forced Repeats its words are exactly
   * those within the limit. With definitions, a path has at most `limit` copies of a token.
   */
  method UnrollPointers(h: Graph, r: Ref, free: Ref, limit: nat, ghost rank: map<Ref, nat>)
    returns (outcome: Outcome, g: Graph, s: Ref, climbed: bool, originals: map<Ref, Ref>, ghost end: Machine,
          ghost src: Source, ghost part: set<Ref>, ghost ranks: map<Ref, nat>)
    requires Grammar(h, r, rank) && forall x :: x in h ==> x < free
    ensures Ends(limit, h, r, free, end, outcome) && outcome != Endless
    ensures outcome == Unrolled ==> g == end.h && s == end.root && climbed == end.climbed && originals == end.originals
    ensures outcome == Unrolled ==> ComesFrom(h, r, g, s, originals, src)
    ensures outcome == Unrolled && DropsAreFree(h) ==> forall w :: Prints(g, s, w) ==> Prints(h, r, w)
    ensures outcome == Unrolled && !climbed ==>
        Pointerless(g, s, originals, Bound(limit)) && PlainTreeIn(g, part, s, ranks)
    ensures outcome == Unrolled ==> LosesNothing(h, limit, r, g, s, climbed)
    ensures outcome == Unrolled && climbed ==> NothingLeft(h, rank, limit, r)
    ensures outcome == Unrolled && limit >= 1 && Lasts(h, r) ==> !climbed
    ensures limit >= 1 && PointersSet(h) && (AllLast(h) || CanBeIsolated(h, r)) ==> outcome == Unrolled
    ensures outcome == Unrolled && limit >= 1 && CanBeIsolated(h, r) ==> Unfolded(h, rank, limit, r, g, src, s, climbed)
    ensures outcome == Unrolled && limit >= 1 && CanBeIsolated(h, r) && Unforced(h) ==>
        ExactlyWithin(h, limit, r, g, s, climbed)
    ensures outcome == Unrolled && limit >= 1 && !climbed && HasDefinitions(h, r) ==> CopiesWithin(h, limit, g, src, s)
  {
    hide Grammar, Prints, DropsAreFree, Sane, Kept, Runs, Goes, Stops, Isolated, Lasts, Pointerless, ComesFrom;
    hide Unfolded, Heights, PlainTreeIn, Survivors, CopiesWithin, HasDefinitions;
    hide LosesNothing, ExactlyWithin, Unforced, Covers, NothingLeft;
    ghost var heights := HeightsExist(h);
    ghost var pl := PlanFor(h, r, limit, rank, heights);
    PlanIsSane(h, r, limit, rank, heights);
    ghost var v, keys := RunsStart(pl, limit, free);
    var u := new Unroller(h, r, free, limit);
    ghost var og := Basis(h, rank, limit, r);
    GrammarIsFormed(h, r, rank);
    ghost var tr := InitialCovers(og, free);
    ghost var marks, cap;
    outcome, end, v, marks, cap, tr := u.Run(pl, keys, v, og, tr);
    g, s, climbed, originals, src, part, ranks := u.nodes, u.root, u.climbed, u.originals, v.src, Survivors(v), v.rank;
    if outcome == Unrolled {
      RunsEnd(pl, limit, keys, cap, v, marks, end);
      PlanKeeps(h, r, limit, rank, heights, v);
      CoversLosesNothing(og, tr, end, part, ranks);
      CutOffHasNothing(og, tr, end);
      if limit >= 1 { ResultIs(h, rank, limit, r, g, src, s, climbed); }
    }
  }
}
