/** What UnrollSpec unfolds a token into: when anything is left, which words it prints, and how often a token occurs. */
module UnrollTrees {
  import opened TokenGraphs
  import opened UnrollWords
  import opened UnrollState
  import opened UnrollMachine
  import opened UnrollLasting
  import opened UnrollSpec
  import opened UnrollMarks
  import opened UnrollPromises

  // ---------- what lasts is left ----------

  /** A token is left as long as no original that is expanded as often as it may be is as low. */
  lemma {:induction false} LastingUnfolds(pl: Plan, x: Ref, counts: map<Ref, nat>)
    requires Formed(pl.h0, pl.rank) && Heights(pl.h0, pl.heights) && pl.limit >= 1
    requires x in pl.heights && x in pl.h0 && Affords(pl, counts, pl.heights[x])
    ensures Unfold(pl.h0, pl.rank, pl.limit, x, counts).Some?
    decreases pl.heights[x], 1, 0
  {
    var h := pl.h0;
    assert RestsOn(h, pl.heights, x, pl.heights[x]);
    if h[x].Text? { return; }
    hide Formed, Heights, Unfold, Grows;
    if Wraps(h[x]) { UnfoldWrapped(h, pl.rank, pl.limit, x, counts); }
    match h[x]
    case Concat(ts) =>
      UnfoldConcat(h, pl.rank, pl.limit, x, counts);
      LastingParts(pl, ts, counts, pl.rank[x], pl.heights[x]);
    case One(ts) =>
      UnfoldOne(h, pl.rank, pl.limit, x, counts);
      var k :| k in ts && Under(pl.heights, k, pl.heights[x]);
      LastingUnfolds(pl, k, counts);
      SomeAlternative(h, pl.rank, pl.limit, ts, counts, pl.rank[x], k);
    case Optional(t) => LastingUnfolds(pl, t, counts);
    case Scope(t) => LastingUnfolds(pl, t, counts);
    case Repeat(t, _, _) => LastingUnfolds(pl, t, counts);
    case Pointer(_) =>
      var o := LastingGrows(pl, x, counts);
      UnfoldPointer(h, pl.rank, pl.limit, x, counts);
      LastingUnfolds(pl, o, Bump(counts, o));
  }

  lemma {:induction false} LastingGrows(pl: Plan, x: Ref, counts: map<Ref, nat>) returns (o: Ref)
    requires Formed(pl.h0, pl.rank) && Heights(pl.h0, pl.heights) && pl.limit >= 1
    requires x in pl.heights && x in pl.h0 && pl.h0[x].Pointer? && Affords(pl, counts, pl.heights[x])
    ensures Grows(pl.h0, pl.limit, x, counts) && o == Aim(pl.h0, x, {}).child && o in pl.h0
    ensures o in pl.heights && pl.heights[o] < pl.heights[x] && Affords(pl, Bump(counts, o), pl.heights[o])
  {
    assert RestsOn(pl.h0, pl.heights, x, pl.heights[x]);
    MarkedAim(pl.h0, pl.heights, x, {});
    AimKnown(pl.h0, x, {});
    o := Aim(pl.h0, x, {}).child;
    LowerAffords(pl, Item(x, NoItem, counts), o, pl.heights[x]);
  }

  lemma {:induction false} LastingParts(pl: Plan, ts: seq<Ref>, counts: map<Ref, nat>, bound: nat, n: nat)
    requires Formed(pl.h0, pl.rank) && Heights(pl.h0, pl.heights) && pl.limit >= 1
    requires (forall k :: k in ts ==> k in pl.h0 && pl.rank[k] < bound) && Affords(pl, counts, n)
    requires forall k :: k in ts ==> Droppable(false, pl.h0, k) || Under(pl.heights, k, n)
    ensures UnfoldParts(pl.h0, pl.rank, pl.limit, ts, counts, bound).Some?
    decreases n, 0, |ts|
  {
    if ts != [] {
      UnfoldPartsStep(pl.h0, pl.rank, pl.limit, ts, counts, bound);
      hide Formed, Heights, Unfold, UnfoldParts, Droppable;
      DroppableIsSpared(pl.h0, pl.limit, ts[0], counts);
      assert forall k :: k in ts[1..] ==> k in ts;
      LastingParts(pl, ts[1..], counts, bound, n);
      if Under(pl.heights, ts[0], n) { LastingUnfolds(pl, ts[0], counts); }
    }
  }

  lemma {:induction false} DroppableIsSpared(h: Graph, limit: nat, k: Ref, counts: map<Ref, nat>)
    ensures Droppable(false, h, k) ==> Spared(h, limit, k, counts)
  {
  }

  lemma {:induction false} SomeAlternative(h: Graph, rank: map<Ref, nat>, limit: nat, ts: seq<Ref>,
          counts: map<Ref, nat>, bound: nat, k: Ref)
    requires Formed(h, rank) && (forall k :: k in ts ==> k in h && rank[k] < bound)
    requires k in ts && Unfold(h, rank, limit, k, counts).Some?
    ensures UnfoldAlternatives(h, rank, limit, ts, counts, bound) != []
  {
    assert forall k :: k in ts[1..] ==> k in ts;
    hide Unfold;
    if ts[0] != k { SomeAlternative(h, rank, limit, ts[1..], counts, bound, k); }
  }

  lemma {:induction false} AimStandsFor(h: Graph, t: Ref, checked: set<Ref>)
    requires Closed(h) && TargetsIn(h, h.Keys) && Aim(h, t, checked).At?
    ensures Stands(h, t, Aim(h, t, checked).child)
    decreases h.Keys - checked
  {
    var c := h[t].target.value;
    if c in h && h[c].Pointer? && c !in checked {
      AimStandsFor(h, c, checked + {c});
    } else {
      StandsItself(h, c);
    }
    StandsThrough(h, t, Aim(h, t, checked).child);
  }

  lemma {:induction false} SparedIsSkippable(h: Graph, limit: nat, k: Ref, counts: map<Ref, nat>)
    requires Closed(h) && TargetsIn(h, h.Keys) && Spared(h, limit, k, counts)
    ensures Skippable(h, k)
  {
    if Grows(h, limit, k, counts) { AimStandsFor(h, k, {}); } else { StandsItself(h, k); }
    assert OptionalType(h[Shown(h, limit, k, counts)]) && Stands(h, k, Shown(h, limit, k, counts));
  }

  lemma {:induction false} LeadsLasts(h: Graph, a: Ref, b: Ref, m: nat, n: nat)
    requires Leads(h, a, b, m) && LastsIn(true, h, b, n)
    ensures LastsIn(true, h, a, n + m)
    decreases m
  {
    if m > 0 { LeadsLasts(h, h[a].target.value, b, m - 1, n); }
  }

  /** Of a token that does not last, even loosely, nothing is left. */
  lemma {:induction false} UnfoldedLasts(h: Graph, rank: map<Ref, nat>, limit: nat, x: Ref, counts: map<Ref, nat>)
    returns (n: nat)
    requires Formed(h, rank) && x in h && Unfold(h, rank, limit, x, counts).Some?
    ensures LastsIn(true, h, x, n)
    decreases Left(h, limit, counts), rank[x], 1, 0
  {
    match h[x]
    case Text(_) => n := 1;
    case Concat(ts) =>
      n := UnfoldedPartsLast(h, rank, limit, ts, counts, rank[x]);
      n := n + 1;
    case One(ts) =>
      var i;
      i, n := UnfoldedAlternativeLasts(h, rank, limit, ts, counts, rank[x]);
      n := n + 1;
    case Optional(t) => n := UnfoldedLasts(h, rank, limit, t, counts); n := n + 1;
    case Scope(t) => n := UnfoldedLasts(h, rank, limit, t, counts); n := n + 1;
    case Repeat(t, _, _) => n := UnfoldedLasts(h, rank, limit, t, counts); n := n + 1;
    case Pointer(_) =>
      var o := Aim(h, x, {}).child;
      AimKnown(h, x, {});
      LeftLess(h, limit, counts, o);
      n := UnfoldedLasts(h, rank, limit, o, Bump(counts, o));
      AimStandsFor(h, x, {});
      var m: nat :| Leads(h, x, o, m);
      LeadsLasts(h, x, o, m, n);
      n := n + m;
  }

  lemma {:induction false} UnfoldedPartsLast(h: Graph, rank: map<Ref, nat>, limit: nat, ts: seq<Ref>,
          counts: map<Ref, nat>, bound: nat) returns (n: nat)
    requires Formed(h, rank) && (forall k :: k in ts ==> k in h && rank[k] < bound)
    requires UnfoldParts(h, rank, limit, ts, counts, bound).Some?
    ensures forall i :: 0 <= i < |ts| ==> Droppable(true, h, ts[i]) || LastsIn(true, h, ts[i], n)
    decreases Left(h, limit, counts), bound, 0, |ts|
  {
    if ts == [] {
      n := 0;
    } else {
      UnfoldPartsStep(h, rank, limit, ts, counts, bound);
      hide LastsIn, Droppable, UnfoldParts, Unfold, Formed, Spared, Skippable;
      n := UnfoldedPartsLast(h, rank, limit, ts[1..], counts, bound);
      var m := 0;
      if Unfold(h, rank, limit, ts[0], counts).Some? {
        m := UnfoldedLasts(h, rank, limit, ts[0], counts);
      } else {
        FormedParts(h, rank);
        SparedIsSkippable(h, limit, ts[0], counts);
      }
      MoreLast(h, ts, n, m);
      n := n + m;
    }
  }

  lemma {:induction false} FormedParts(h: Graph, rank: map<Ref, nat>)
    requires Formed(h, rank)
    ensures Closed(h) && TargetsIn(h, h.Keys)
  {
  }

  lemma {:induction false} MoreLast(h: Graph, ts: seq<Ref>, n: nat, m: nat)
    requires ts != []
        && forall i :: 0 <= i < |ts[1..]| ==> Droppable(true, h, ts[1..][i]) || LastsIn(true, h, ts[1..][i], n)
    requires Skippable(h, ts[0]) || LastsIn(true, h, ts[0], m)
    ensures forall i :: 0 <= i < |ts| ==> Droppable(true, h, ts[i]) || LastsIn(true, h, ts[i], n + m)
  {
    assert Skippable(h, ts[0]) ==> Droppable(true, h, ts[0]);
    hide LastsIn, Droppable;
    forall i | 0 <= i < |ts| && !Droppable(true, h, ts[i]) ensures LastsIn(true, h, ts[i], n + m) {
      if i == 0 {
        LastsMore(true, h, ts[0], m, n + m);
      } else {
        assert ts[i] == ts[1..][i - 1];
        LastsMore(true, h, ts[i], n, n + m);
      }
    }
  }

  lemma {:induction false} UnfoldedAlternativeLasts(h: Graph, rank: map<Ref, nat>, limit: nat, ts: seq<Ref>,
          counts: map<Ref, nat>, bound: nat) returns (i: nat, n: nat)
    requires Formed(h, rank) && (forall k :: k in ts ==> k in h && rank[k] < bound)
    requires UnfoldAlternatives(h, rank, limit, ts, counts, bound) != []
    ensures i < |ts| && LastsIn(true, h, ts[i], n)
    decreases Left(h, limit, counts), bound, 0, |ts|
  {
    assert ts[0] in ts && forall k :: k in ts[1..] ==> k in ts;
    if Unfold(h, rank, limit, ts[0], counts).Some? {
      i := 0;
      n := UnfoldedLasts(h, rank, limit, ts[0], counts);
    } else {
      i, n := UnfoldedAlternativeLasts(h, rank, limit, ts[1..], counts, bound);
      i := i + 1;
    }
  }

  // ---------- which token a part comes from ----------

  lemma {:induction false} SomeAlternatives(h: Graph, rank: map<Ref, nat>, limit: nat, ts: seq<Ref>,
          counts: map<Ref, nat>, bound: nat)
    requires Formed(h, rank) && (forall k :: k in ts ==> k in h && rank[k] < bound)
    requires UnfoldAlternatives(h, rank, limit, ts, counts, bound) != []
    ensures ts != []
  {
    hide Unfold, Formed;
  }

  lemma {:induction false} AlternativeOf(h: Graph, rank: map<Ref, nat>, limit: nat, ts: seq<Ref>,
          counts: map<Ref, nat>, bound: nat, j: nat) returns (i: nat)
    requires Formed(h, rank) && (forall k :: k in ts ==> k in h && rank[k] < bound)
    requires j < |UnfoldAlternatives(h, rank, limit, ts, counts, bound)|
    ensures i < |ts| && Unfold(h, rank, limit, ts[i], counts).Some?
    ensures UnfoldAlternatives(h, rank, limit, ts, counts, bound)[j] == Unfold(h, rank, limit, ts[i], counts).value
    decreases |ts|
  {
    hide *;
    SomeAlternatives(h, rank, limit, ts, counts, bound);
    UnfoldAlternativesStep(h, rank, limit, ts, counts, bound);
    var some := Unfold(h, rank, limit, ts[0], counts).Some?;
    if some && j == 0 {
      i := 0;
    } else {
      i := AlternativeOf(h, rank, limit, ts[1..], counts, bound, if some then j - 1 else j);
      i := i + 1;
    }
  }

  lemma {:induction false} SomeParts(h: Graph, rank: map<Ref, nat>, limit: nat, ts: seq<Ref>, counts: map<Ref, nat>,
          bound: nat)
    requires Formed(h, rank) && (forall k :: k in ts ==> k in h && rank[k] < bound)
    requires UnfoldParts(h, rank, limit, ts, counts, bound).Some?
    requires UnfoldParts(h, rank, limit, ts, counts, bound).value != []
    ensures ts != []
  {
    hide Unfold, Formed;
  }

  lemma {:induction false} PartOf(h: Graph, rank: map<Ref, nat>, limit: nat, ts: seq<Ref>, counts: map<Ref, nat>,
          bound: nat, j: nat) returns (i: nat)
    requires Formed(h, rank) && (forall k :: k in ts ==> k in h && rank[k] < bound)
    requires UnfoldParts(h, rank, limit, ts, counts, bound).Some?
    requires j < |UnfoldParts(h, rank, limit, ts, counts, bound).value|
    ensures i < |ts| && Unfold(h, rank, limit, ts[i], counts).Some?
    ensures UnfoldParts(h, rank, limit, ts, counts, bound).value[j] == Unfold(h, rank, limit, ts[i], counts).value
    decreases |ts|
  {
    hide *;
    SomeParts(h, rank, limit, ts, counts, bound);
    UnfoldPartsStep(h, rank, limit, ts, counts, bound);
    var some := Unfold(h, rank, limit, ts[0], counts).Some?;
    if some && j == 0 {
      i := 0;
    } else {
      i := PartOf(h, rank, limit, ts[1..], counts, bound, if some then j - 1 else j);
      i := i + 1;
    }
  }

  /** Every part of the tree of x is the tree of a child of x. */
  lemma {:induction false} ChildOf(h: Graph, rank: map<Ref, nat>, limit: nat, x: Ref, counts: map<Ref, nat>, j: nat)
    returns (k: Ref)
    requires Formed(h, rank) && x in h && !h[x].Pointer? && Unfold(h, rank, limit, x, counts).Some?
    requires j < |Unfold(h, rank, limit, x, counts).value.parts|
    ensures k in h && k in Kids(h[x]) && Unfold(h, rank, limit, k, counts).Some?
    ensures Unfold(h, rank, limit, x, counts).value.parts[j] == Unfold(h, rank, limit, k, counts).value
  {
    hide Formed;
    if Wraps(h[x]) {
      UnfoldWrapped(h, rank, limit, x, counts);
      k := Kids(h[x])[0];
    } else if h[x].Concat? {
      UnfoldConcat(h, rank, limit, x, counts);
      hide Unfold;
      var i := PartOf(h, rank, limit, h[x].tokens, counts, rank[x], j);
      k := h[x].tokens[i];
    } else if h[x].One? {
      UnfoldOne(h, rank, limit, x, counts);
      hide Unfold;
      var i := AlternativeOf(h, rank, limit, h[x].tokens, counts, rank[x], j);
      k := h[x].tokens[i];
    }
  }

  // ---------- when nothing is left of the root ----------

  /** No pointer leads to a token of an optional type. */
  ghost predicate NoOptionalTargets(h: Graph) {
    forall k :: k in h && h[k].Pointer? ==> !Skippable(h, k)
  }

  lemma {:induction false} LastsStrictly(h: Graph, x: Ref, n: nat)
    requires Closed(h) && NoOptionalTargets(h) && LastsIn(true, h, x, n)
    ensures LastsIn(false, h, x, n)
    decreases n
  {
    hide Closed, NoOptionalTargets, Droppable;
    match h[x]
    case Concat(ts) =>
      forall i | 0 <= i < |ts| ensures Droppable(false, h, ts[i]) || LastsIn(false, h, ts[i], n - 1) {
        KidIn(h, x, ts[i]);
        DroppableStrictly(h, ts[i]);
        if LastsIn(true, h, ts[i], n - 1) { LastsStrictly(h, ts[i], n - 1); }
      }
    case One(ts) =>
      var i :| 0 <= i < |ts| && LastsIn(true, h, ts[i], n - 1);
      LastsStrictly(h, ts[i], n - 1);
    case Optional(t) => LastsStrictly(h, t, n - 1);
    case Scope(t) => LastsStrictly(h, t, n - 1);
    case Repeat(t, _, _) => LastsStrictly(h, t, n - 1);
    case Pointer(Some(t)) => LastsStrictly(h, t, n - 1);
    case _ =>
  }

  lemma {:induction false} KidIn(h: Graph, x: Ref, k: Ref)
    requires Closed(h) && x in h && k in Kids(h[x])
    ensures k in h
  {
  }

  lemma {:induction false} DroppableStrictly(h: Graph, k: Ref)
    requires k in h && NoOptionalTargets(h)
    ensures Droppable(true, h, k) ==> Droppable(false, h, k)
  {
    if Skippable(h, k) { SkippableHere(h, k); }
  }

  lemma {:induction false} SkippableHere(h: Graph, k: Ref)
    requires k in h && Skippable(h, k) && NoOptionalTargets(h)
    ensures OptionalType(h[k])
  {
    var b :| b in h && OptionalType(h[b]) && Stands(h, k, b);
    var n: nat :| Leads(h, k, b, n);
  }

  /** The root is taken away only if it does not last; unless a pointer leads to an optional token, exactly then. */
  lemma {:induction false} TakenAway(h: Graph, rank: map<Ref, nat>, limit: nat, r: Ref, g: Graph, src: Source, s: Ref,
          climbed: bool)
    requires limit >= 1 && Unfolded(h, rank, limit, r, g, src, s, climbed)
    ensures Lasts(h, r) ==> !climbed
    ensures !climbed ==> LastsLoosely(h, r)
    ensures NoOptionalTargets(h) && !climbed ==> Lasts(h, r)
  {
    hide Unfold, Looks, LastsIn, Heights;
    if Lasts(h, r) {
      var heights := HeightsExist(h);
      LastingUnfolds(Plan(h, r, rank, limit, heights, false, false, {}), r, map[]);
    }
    if !climbed {
      var n := UnfoldedLasts(h, rank, limit, r, map[]);
      if NoOptionalTargets(h) { LastsStrictly(h, r, n); }
    }
  }
}
