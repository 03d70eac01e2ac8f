/**
 * Which words are left when at most `limit` expansions of an original may be on a path: those with a
 * derivation in the original graph that does not expand more.
 */
module UnrollBounded {
  import opened TokenGraphs
  import opened UnrollWords
  import opened UnrollMachine
  import opened UnrollSpec
  import opened UnrollTrees

  /** May print nothing. */
  predicate Free(n: Node) {
    n.Optional? || (n.Repeat? && n.from == 0)
  }

  /** A concatenation may do without k. */
  ghost predicate Spare(h: Graph, limit: nat, k: Ref, counts: map<Ref, nat>) {
    Shown(h, limit, k, counts) in h && Free(h[Shown(h, limit, k, counts)])
  }

  /**
   * Below a token with these counts, x prints w with no more than `limit` expansions of an original on a
   * path. A token that prints nothing may need its child nevertheless: it has to be there, if it is not
   * loose, unless the token is part of a concatenation.
   */
  ghost predicate Within(loose: bool, h: Graph, limit: nat, x: Ref, counts: map<Ref, nat>, d: Derivation, w: string)
    decreases d, 1
  {
    && x in h
    && (|| (Free(h[x]) && w == [] && (loose || ChildWithin(h, limit, Kids(h[x])[0], counts, d)))
        || PartsWithin(loose, h, limit, x, counts, d, w))
  }

  ghost predicate ChildWithin(h: Graph, limit: nat, k: Ref, counts: map<Ref, nat>, d: Derivation)
    decreases d, 0
  {
    |d.parts| == 1 && exists u :: Within(false, h, limit, k, counts, d.parts[0], u)
  }

  ghost predicate PartsWithin(loose: bool, h: Graph, limit: nat, x: Ref, counts: map<Ref, nat>, d: Derivation,
          w: string)
    requires x in h
    decreases d, 0
  {
    match h[x]
    case Text(t) => w == t
    case Concat(ts) => WithinAll(loose, true, h, limit, ts, counts, d.parts, w)
    case One(ts) =>
      |d.parts| == 1 && exists i :: 0 <= i < |ts| && Within(loose, h, limit, ts[i], counts, d.parts[0], w)
    case Optional(t) => |d.parts| == 1 && Within(loose, h, limit, t, counts, d.parts[0], w)
    case Scope(t) => |d.parts| == 1 && Within(loose, h, limit, t, counts, d.parts[0], w)
    case Repeat(t, from, to) =>
      && from <= |d.parts| <= to && (loose || d.parts != [])
      && WithinAll(loose, false, h, limit, Times(t, |d.parts|), counts, d.parts, w)
    case Pointer(_) =>
      && Grows(h, limit, x, counts) && |d.parts| == 1
      && var o := Aim(h, x, {}).child; Within(loose, h, limit, o, Bump(counts, o), d.parts[0], w)
  }

  ghost predicate WithinAll(loose: bool, sparing: bool, h: Graph, limit: nat, ts: seq<Ref>, counts: map<Ref, nat>,
          ds: seq<Derivation>, w: string)
    decreases ds
  {
    if ts == [] || ds == [] then ts == [] && ds == [] && w == []
    else
      exists i :: 0 <= i <= |w| && WithinAll(loose, sparing, h, limit, ts[1..], counts, ds[1..], w[i..])
                  && FirstWithin(loose, sparing, h, limit, ts[0], counts, ds[0], w[..i])
  }

  ghost predicate FirstWithin(loose: bool, sparing: bool, h: Graph, limit: nat, k: Ref, counts: map<Ref, nat>,
          d: Derivation, w: string)
    decreases d, 2
  {
    (sparing && w == [] && Spare(h, limit, k, counts)) || Within(loose, h, limit, k, counts, d, w)
  }

  // ---------- what is printed so is left ----------

  lemma {:induction false} ChildPrints(h: Graph, limit: nat, k: Ref, counts: map<Ref, nat>, d: Derivation)
    returns (u: string)
    requires ChildWithin(h, limit, k, counts, d)
    ensures |d.parts| == 1 && Within(false, h, limit, k, counts, d.parts[0], u)
  {
    u :| Within(false, h, limit, k, counts, d.parts[0], u);
  }

  lemma {:induction false} WithinUnfolds(h: Graph, rank: map<Ref, nat>, limit: nat, x: Ref, counts: map<Ref, nat>,
          d: Derivation, w: string)
    requires Formed(h, rank) && Within(false, h, limit, x, counts, d, w)
    ensures x in h && Unfold(h, rank, limit, x, counts).Some?
    decreases d, 1
  {
    hide Unfold, Formed, PartsWithin;
    if Free(h[x]) && w == [] && ChildWithin(h, limit, Kids(h[x])[0], counts, d) {
      UnfoldWrapped(h, rank, limit, x, counts);
      var u := ChildPrints(h, limit, Kids(h[x])[0], counts, d);
      WithinUnfolds(h, rank, limit, Kids(h[x])[0], counts, d.parts[0], u);
    } else {
      PartsUnfold(h, rank, limit, x, counts, d, w);
    }
  }

  lemma {:induction false} PartsUnfold(h: Graph, rank: map<Ref, nat>, limit: nat, x: Ref, counts: map<Ref, nat>,
          d: Derivation, w: string)
    requires Formed(h, rank) && x in h && PartsWithin(false, h, limit, x, counts, d, w)
    ensures Unfold(h, rank, limit, x, counts).Some?
    decreases d, 0
  {
    hide Formed, Within, WithinAll, FirstWithin;
    if h[x].Text? { return; }
    hide Unfold;
    if Wraps(h[x]) { UnfoldWrapped(h, rank, limit, x, counts); }
    match h[x]
    case Concat(ts) =>
      UnfoldConcat(h, rank, limit, x, counts);
      AllUnfold(h, rank, limit, ts, counts, rank[x], d.parts, w);
    case One(ts) =>
      UnfoldOne(h, rank, limit, x, counts);
      var i :| 0 <= i < |ts| && Within(false, h, limit, ts[i], counts, d.parts[0], w);
      WithinUnfolds(h, rank, limit, ts[i], counts, d.parts[0], w);
      SomeAlternative(h, rank, limit, ts, counts, rank[x], ts[i]);
    case Optional(t) => WithinUnfolds(h, rank, limit, t, counts, d.parts[0], w);
    case Scope(t) => WithinUnfolds(h, rank, limit, t, counts, d.parts[0], w);
    case Repeat(t, _, _) =>
      var i := FirstOf(h, limit, t, counts, d.parts, w);
      WithinUnfolds(h, rank, limit, t, counts, d.parts[0], w[..i]);
    case Pointer(_) =>
      UnfoldPointer(h, rank, limit, x, counts);
      var o := Aim(h, x, {}).child;
      WithinUnfolds(h, rank, limit, o, Bump(counts, o), d.parts[0], w);
  }

  lemma {:induction false} FirstOf(h: Graph, limit: nat, t: Ref, counts: map<Ref, nat>, ds: seq<Derivation>,
          w: string) returns (i: nat)
    requires ds != [] && WithinAll(false, false, h, limit, Times(t, |ds|), counts, ds, w)
    ensures i <= |w| && Within(false, h, limit, t, counts, ds[0], w[..i])
  {
    hide Within;
    var ts := Times(t, |ds|);
    i :| 0 <= i <= |w| && WithinAll(false, false, h, limit, ts[1..], counts, ds[1..], w[i..])
         && FirstWithin(false, false, h, limit, ts[0], counts, ds[0], w[..i]);
  }

  lemma {:induction false} AllUnfold(h: Graph, rank: map<Ref, nat>, limit: nat, ts: seq<Ref>, counts: map<Ref, nat>,
          bound: nat, ds: seq<Derivation>, w: string)
    requires Formed(h, rank) && (forall k :: k in ts ==> k in h && rank[k] < bound)
    requires WithinAll(false, true, h, limit, ts, counts, ds, w)
    ensures UnfoldParts(h, rank, limit, ts, counts, bound).Some?
    decreases ds
  {
    if ts != [] {
      UnfoldPartsStep(h, rank, limit, ts, counts, bound);
      hide Within, Unfold, UnfoldParts, Formed;
      var i :| 0 <= i <= |w| && WithinAll(false, true, h, limit, ts[1..], counts, ds[1..], w[i..])
               && FirstWithin(false, true, h, limit, ts[0], counts, ds[0], w[..i]);
      AllUnfold(h, rank, limit, ts[1..], counts, bound, ds[1..], w[i..]);
      if Within(false, h, limit, ts[0], counts, ds[0], w[..i]) {
        WithinUnfolds(h, rank, limit, ts[0], counts, ds[0], w[..i]);
      }
    }
  }

  // ---------- what is left prints nothing else ----------

  /** No Repeat insists on an item. */
  ghost predicate Unforced(h: Graph) {
    forall x :: x in h && h[x].Repeat? ==> h[x].from == 0
  }

  /** Of what something is left, that prints a word. */
  lemma {:induction false} LeftPrints(h: Graph, rank: map<Ref, nat>, limit: nat, x: Ref, counts: map<Ref, nat>)
    returns (d: Derivation, w: string)
    requires Formed(h, rank) && Unforced(h) && x in h && Unfold(h, rank, limit, x, counts).Some?
    ensures Within(false, h, limit, x, counts, d, w)
    decreases Left(h, limit, counts), rank[x], 2, 0
  {
    hide Formed, WithinAll, Unforced;
    if h[x].Text? {
      d, w := Derivation([]), h[x].text;
      return;
    }
    if h[x].Optional? || h[x].Repeat? {
      d := LeftPrintsNothing(h, rank, limit, x, counts);
      w := "";
      return;
    }
    hide Unfold;
    match h[x]
    case Concat(ts) =>
      UnfoldConcat(h, rank, limit, x, counts);
      var ds;
      ds, w := PartsLeftPrint(h, rank, limit, ts, counts, rank[x]);
      d := Derivation(ds);
    case One(ts) =>
      UnfoldOne(h, rank, limit, x, counts);
      var i := AlternativeOf(h, rank, limit, ts, counts, rank[x], 0);
      assert ts[i] in ts;
      d, w := LeftPrints(h, rank, limit, ts[i], counts);
      d := Derivation([d]);
    case Scope(k) =>
      UnfoldWrapped(h, rank, limit, x, counts);
      WrapRank(h, rank, x);
      d, w := LeftPrints(h, rank, limit, k, counts);
      d := Derivation([d]);
    case Pointer(_) =>
      GrowsIfLeft(h, rank, limit, x, counts);
      UnfoldPointer(h, rank, limit, x, counts);
      var o := Aim(h, x, {}).child;
      LeftLess(h, limit, counts, o);
      d, w := LeftPrints(h, rank, limit, o, Bump(counts, o));
      d := Derivation([d]);
  }

  /** What may print nothing does so. */
  lemma {:induction false} LeftPrintsNothing(h: Graph, rank: map<Ref, nat>, limit: nat, x: Ref, counts: map<Ref, nat>)
    returns (d: Derivation)
    requires Formed(h, rank) && Unforced(h) && x in h && Unfold(h, rank, limit, x, counts).Some?
    requires h[x].Optional? || h[x].Repeat?
    ensures Within(false, h, limit, x, counts, d, "")
    decreases Left(h, limit, counts), rank[x], 1, 0
  {
    var k := Kids(h[x])[0];
    assert Free(h[x]);
    UnfoldWrapped(h, rank, limit, x, counts);
    WrapRank(h, rank, x);
    hide Unfold, Formed, Unforced;
    var e, u := LeftPrints(h, rank, limit, k, counts);
    d := Derivation([e]);
    SkipsChild(h, limit, x, counts, e, u);
  }

  lemma {:induction false} SkipsChild(h: Graph, limit: nat, x: Ref, counts: map<Ref, nat>, e: Derivation, u: string)
    requires x in h && Free(h[x]) && Within(false, h, limit, Kids(h[x])[0], counts, e, u)
    ensures Within(false, h, limit, x, counts, Derivation([e]), "")
  {
    var d := Derivation([e]);
    hide PartsWithin;
    assert d.parts[0] == e;
  }

  lemma {:induction false} WrapRank(h: Graph, rank: map<Ref, nat>, x: Ref)
    requires Formed(h, rank) && x in h && Wraps(h[x])
    ensures x in rank && Kids(h[x])[0] in h && Kids(h[x])[0] in rank && rank[Kids(h[x])[0]] < rank[x]
  {
    assert Kids(h[x])[0] in Kids(h[x]);
  }

  lemma {:induction false} PartsLeftPrint(h: Graph, rank: map<Ref, nat>, limit: nat, ts: seq<Ref>,
          counts: map<Ref, nat>, bound: nat) returns (ds: seq<Derivation>, w: string)
    requires Formed(h, rank) && Unforced(h) && (forall k :: k in ts ==> k in h && rank[k] < bound)
    requires UnfoldParts(h, rank, limit, ts, counts, bound).Some?
    ensures WithinAll(false, true, h, limit, ts, counts, ds, w)
    decreases Left(h, limit, counts), bound, 0, |ts|
  {
    if ts == [] {
      ds, w := [], "";
    } else {
      assert ts[0] in ts;
      hide *;
      UnfoldPartsStep(h, rank, limit, ts, counts, bound);
      var rest, v := PartsLeftPrint(h, rank, limit, ts[1..], counts, bound);
      var d, u := Derivation([]), "";
      if Unfold(h, rank, limit, ts[0], counts).Some? {
        d, u := LeftPrints(h, rank, limit, ts[0], counts);
        WithinIsFirst(false, true, h, limit, ts[0], counts, d, u);
      } else {
        SparedIsSpare(h, limit, ts[0], counts);
      }
      w := u + v;
      assert w[..|u|] == u && w[|u|..] == v;
      ds := WithinPrepended(false, h, limit, ts, counts, d, rest, w, |u|);
    }
  }

  lemma {:induction false} NothingRepeated(g: Graph, c: Ref, es: seq<Derivation>, w: string)
    requires YieldsAll(g, Times(c, |es|), es, w) && es == []
    ensures w == []
  {
  }

  lemma {:induction false} PrintedIsWithin(h: Graph, rank: map<Ref, nat>, limit: nat, x: Ref, counts: map<Ref, nat>,
          g: Graph, src: Source, s: Ref, e: Derivation, w: string) returns (d: Derivation)
    requires Formed(h, rank) && Unforced(h) && x in h && Unfold(h, rank, limit, x, counts).Some?
    requires Looks(h, g, src, s, Unfold(h, rank, limit, x, counts).value) && Yields(g, s, e, w)
    ensures Within(false, h, limit, x, counts, d, w)
    decreases e, Left(h, limit, counts)
  {
    hide Formed, WithinAll, YieldsAll, Unforced;
    if h[x].Text? { d := e; return; }
    if Wraps(h[x]) { UnfoldWrapped(h, rank, limit, x, counts); }
    hide Unfold;
    match h[x]
    case Concat(ts) =>
      UnfoldConcat(h, rank, limit, x, counts);
      var ds := AllAreWithin(h, rank, limit, ts, counts, rank[x], g, src, Kids(g[s]), e.parts, w);
      d := Derivation(ds);
    case One(ts) =>
      UnfoldOne(h, rank, limit, x, counts);
      var us := UnfoldAlternatives(h, rank, limit, ts, counts, rank[x]);
      var j :| 0 <= j < |g[s].tokens| && Yields(g, g[s].tokens[j], e.parts[0], w);
      var i := AlternativeOf(h, rank, limit, ts, counts, rank[x], j);
      d := PrintedIsWithin(h, rank, limit, ts[i], counts, g, src, g[s].tokens[j], e.parts[0], w);
      d := Derivation([d]);
    case Optional(k) =>
      if w == [] {
        d := LeftPrintsNothing(h, rank, limit, x, counts);
      } else {
        d := PrintedIsWithin(h, rank, limit, k, counts, g, src, Kids(g[s])[0], e.parts[0], w);
        d := Derivation([d]);
      }
    case Scope(k) =>
      d := PrintedIsWithin(h, rank, limit, k, counts, g, src, Kids(g[s])[0], e.parts[0], w);
      d := Derivation([d]);
    case Repeat(k, _, _) =>
      if e.parts == [] {
        NothingRepeated(g, Kids(g[s])[0], e.parts, w);
        d := LeftPrintsNothing(h, rank, limit, x, counts);
      } else {
        var ds := SameAreWithin(h, rank, limit, k, counts, g, src, Kids(g[s])[0], e.parts, w);
        d := Derivation(ds);
      }
    case Pointer(_) =>
      GrowsIfLeft(h, rank, limit, x, counts);
      UnfoldPointer(h, rank, limit, x, counts);
      var o := Aim(h, x, {}).child;
      LeftLess(h, limit, counts, o);
      d := PrintedIsWithin(h, rank, limit, o, Bump(counts, o), g, src, s, e, w);
      d := Derivation([d]);
  }

  /** cs look like the trees us. */
  ghost predicate LooksAll(h: Graph, g: Graph, src: Source, cs: seq<Ref>, us: seq<Tree>) {
    |cs| == |us| && forall i :: 0 <= i < |us| ==> Looks(h, g, src, cs[i], us[i])
  }

  lemma {:induction false} LooksRest(h: Graph, g: Graph, src: Source, cs: seq<Ref>, u: Tree, us: seq<Tree>)
    requires LooksAll(h, g, src, cs, [u] + us)
    ensures cs != [] && Looks(h, g, src, cs[0], u) && LooksAll(h, g, src, cs[1..], us)
  {
    hide Looks;
    assert ([u] + us)[0] == u;
    forall i | 0 <= i < |us| ensures Looks(h, g, src, cs[1..][i], us[i]) {
      assert ([u] + us)[i + 1] == us[i];
    }
  }

  lemma {:induction false} AllAreWithin(h: Graph, rank: map<Ref, nat>, limit: nat, ts: seq<Ref>,
          counts: map<Ref, nat>, bound: nat, g: Graph, src: Source, cs: seq<Ref>, es: seq<Derivation>, w: string)
    returns (ds: seq<Derivation>)
    requires Formed(h, rank) && Unforced(h) && (forall k :: k in ts ==> k in h && rank[k] < bound)
    requires UnfoldParts(h, rank, limit, ts, counts, bound).Some?
    requires LooksAll(h, g, src, cs, UnfoldParts(h, rank, limit, ts, counts, bound).value) && YieldsAll(g, cs, es, w)
    ensures WithinAll(false, true, h, limit, ts, counts, ds, w)
    decreases es, Left(h, limit, counts), |ts|
  {
    if ts == [] {
      ds := [];
    } else {
      hide *;
      UnfoldPartsStep(h, rank, limit, ts, counts, bound);
      if Unfold(h, rank, limit, ts[0], counts).Some? {
        LooksRest(h, g, src, cs, Unfold(h, rank, limit, ts[0], counts).value,
                  UnfoldParts(h, rank, limit, ts[1..], counts, bound).value);
        var i := SplitYields(g, cs, es, w);
        var d := PrintedIsWithin(h, rank, limit, ts[0], counts, g, src, cs[0], es[0], w[..i]);
        ds := AllAreWithin(h, rank, limit, ts[1..], counts, bound, g, src, cs[1..], es[1..], w[i..]);
        WithinIsFirst(false, true, h, limit, ts[0], counts, d, w[..i]);
        ds := WithinPrepended(false, h, limit, ts, counts, d, ds, w, i);
      } else {
        ds := AllAreWithin(h, rank, limit, ts[1..], counts, bound, g, src, cs, es, w);
        SparedIsSpare(h, limit, ts[0], counts);
        assert w[..0] == [] && w[0..] == w;
        ds := WithinPrepended(false, h, limit, ts, counts, Derivation([]), ds, w, 0);
      }
    }
  }

  lemma {:induction false} SparedIsSpare(h: Graph, limit: nat, k: Ref, counts: map<Ref, nat>)
    requires Unforced(h) && Spared(h, limit, k, counts)
    ensures FirstWithin(false, true, h, limit, k, counts, Derivation([]), [])
  {
    assert Spare(h, limit, k, counts);
  }

  lemma {:induction false} WithinIsFirst(loose: bool, sparing: bool, h: Graph, limit: nat, k: Ref,
          counts: map<Ref, nat>, d: Derivation, w: string)
    requires Within(loose, h, limit, k, counts, d, w)
    ensures FirstWithin(loose, sparing, h, limit, k, counts, d, w)
  {
    hide Within, Spare;
  }

  lemma {:induction false} SplitYields(g: Graph, cs: seq<Ref>, es: seq<Derivation>, w: string) returns (i: nat)
    requires cs != [] && YieldsAll(g, cs, es, w)
    ensures es != [] && i <= |w| && Yields(g, cs[0], es[0], w[..i]) && YieldsAll(g, cs[1..], es[1..], w[i..])
  {
    hide Yields;
    i :| 0 <= i <= |w| && Yields(g, cs[0], es[0], w[..i]) && YieldsAll(g, cs[1..], es[1..], w[i..]);
  }

  lemma {:induction false} WithinPrepended(loose: bool, h: Graph, limit: nat, ts: seq<Ref>, counts: map<Ref, nat>,
          d: Derivation, ds: seq<Derivation>, w: string, i: nat) returns (es: seq<Derivation>)
    requires ts != [] && i <= |w| && FirstWithin(loose, true, h, limit, ts[0], counts, d, w[..i])
    requires WithinAll(loose, true, h, limit, ts[1..], counts, ds, w[i..])
    ensures WithinAll(loose, true, h, limit, ts, counts, es, w)
  {
    hide Within, Spare, FirstWithin;
    es := [d] + ds;
    assert es[1..] == ds && es[0] == d;
  }

  lemma {:induction false} YieldsPrepended(g: Graph, cs: seq<Ref>, d: Derivation, ds: seq<Derivation>, w: string,
          i: nat) returns (es: seq<Derivation>)
    requires cs != [] && i <= |w| && Yields(g, cs[0], d, w[..i]) && YieldsAll(g, cs[1..], ds, w[i..])
    ensures YieldsAll(g, cs, es, w)
  {
    hide Yields;
    es := [d] + ds;
    assert es[1..] == ds && es[0] == d;
  }

  lemma {:induction false} SameCons(loose: bool, h: Graph, limit: nat, t: Ref, counts: map<Ref, nat>, d: Derivation,
          ds: seq<Derivation>, u: string, w: string)
    requires Within(loose, h, limit, t, counts, d, u)
    requires WithinAll(loose, false, h, limit, Times(t, |ds|), counts, ds, w)
    ensures WithinAll(loose, false, h, limit, Times(t, |ds| + 1), counts, [d] + ds, u + w)
  {
    hide Within, Spare;
    var x := u + w;
    TimesMore(t, |ds|);
    assert x[..|u|] == u && x[|u|..] == w;
    assert ([d] + ds)[1..] == ds;
    assert FirstWithin(loose, false, h, limit, t, counts, d, u);
  }

  lemma {:induction false} SameAreWithin(h: Graph, rank: map<Ref, nat>, limit: nat, k: Ref, counts: map<Ref, nat>,
          g: Graph, src: Source, c: Ref, es: seq<Derivation>, w: string) returns (ds: seq<Derivation>)
    requires Formed(h, rank) && Unforced(h) && k in h && Unfold(h, rank, limit, k, counts).Some?
    requires Looks(h, g, src, c, Unfold(h, rank, limit, k, counts).value) && YieldsAll(g, Times(c, |es|), es, w)
    ensures |ds| == |es| && WithinAll(false, false, h, limit, Times(k, |ds|), counts, ds, w)
    decreases es, Left(h, limit, counts)
  {
    hide *;
    if es == [] {
      ds := [];
      StillNoneYield(g, h, limit, c, k, counts, w);
    } else {
      var i := SplitSame(g, c, es, w);
      var d := PrintedIsWithin(h, rank, limit, k, counts, g, src, c, es[0], w[..i]);
      ds := SameAreWithin(h, rank, limit, k, counts, g, src, c, es[1..], w[i..]);
      SameCons(false, h, limit, k, counts, d, ds, w[..i], w[i..]);
      ds := [d] + ds;
      assert w[..i] + w[i..] == w;
    }
  }

  lemma {:induction false} StillNoneYield(g: Graph, h: Graph, limit: nat, c: Ref, k: Ref, counts: map<Ref, nat>,
          w: string)
    requires YieldsAll(g, Times(c, 0), [], w)
    ensures WithinAll(false, false, h, limit, Times(k, 0), counts, [], w)
  {
  }

  lemma {:induction false} SplitSame(g: Graph, c: Ref, es: seq<Derivation>, w: string) returns (i: nat)
    requires es != [] && YieldsAll(g, Times(c, |es|), es, w)
    ensures i <= |w| && Yields(g, c, es[0], w[..i]) && YieldsAll(g, Times(c, |es[1..]|), es[1..], w[i..])
  {
    hide Yields;
    TimesMore(c, |es| - 1);
    i := SplitYields(g, Times(c, |es|), es, w);
  }

  // ---------- if only concatenations have optional parts ----------

  /** What may be skipped is part of a concatenation. */
  ghost predicate OptionalsInLists(h: Graph) {
    forall x, k :: x in h && !h[x].Concat? && !h[x].Pointer? && k in Kids(h[x]) ==> !Skippable(h, k)
  }

  lemma {:induction false} SpareIsSkippable(h: Graph, rank: map<Ref, nat>, limit: nat, k: Ref, counts: map<Ref, nat>)
    requires Formed(h, rank) && Spare(h, limit, k, counts)
    ensures Skippable(h, k)
  {
    assert Spared(h, limit, k, counts);
    hide Spared, Spare, Skippable;
    SparedIsSkippable(h, limit, k, counts);
  }

  lemma {:induction false} KidTightens(h: Graph, rank: map<Ref, nat>, limit: nat, x: Ref, k: Ref,
          counts: map<Ref, nat>, d: Derivation, w: string)
    requires Formed(h, rank) && OptionalsInLists(h) && x in h && !h[x].Concat? && k in Kids(h[x])
    requires Tight(h, limit, k, counts, d, w)
    ensures Within(false, h, limit, k, counts, d, w)
  {
    hide Within, Formed, Skippable;
    if Spare(h, limit, k, counts) { SpareIsSkippable(h, rank, limit, k, counts); }
  }

  lemma {:induction false} WithinIs(h: Graph, limit: nat, x: Ref, counts: map<Ref, nat>, d: Derivation, w: string)
    requires Within(true, h, limit, x, counts, d, w)
    ensures x in h && ((Free(h[x]) && w == []) || PartsWithin(true, h, limit, x, counts, d, w))
  {
  }

  ghost predicate Tight(h: Graph, limit: nat, x: Ref, counts: map<Ref, nat>, d: Derivation, w: string) {
    FirstWithin(false, true, h, limit, x, counts, d, w)
  }

  /** Then nothing that is skipped has to be there, or a concatenation may do without it. */
  lemma {:induction false} Tightens(h: Graph, rank: map<Ref, nat>, limit: nat, x: Ref, counts: map<Ref, nat>,
          d: Derivation, w: string) returns (e: Derivation)
    requires Formed(h, rank) && OptionalsInLists(h) && Within(true, h, limit, x, counts, d, w)
    ensures Tight(h, limit, x, counts, e, w)
    decreases d, 1
  {
    hide *;
    e := d;
    WithinIs(h, limit, x, counts, d, w);
    if Free(h[x]) && w == [] {
      MaySkip(h, limit, x, counts, d);
    } else {
      e := PartsTighten(h, rank, limit, x, counts, d, w);
    }
  }

  lemma {:induction false} PartsTighten(h: Graph, rank: map<Ref, nat>, limit: nat, x: Ref, counts: map<Ref, nat>,
          d: Derivation, w: string) returns (e: Derivation)
    requires Formed(h, rank) && OptionalsInLists(h) && x in h && PartsWithin(true, h, limit, x, counts, d, w)
    requires !(Free(h[x]) && w == [])
    ensures Tight(h, limit, x, counts, e, w)
    decreases d, 0
  {
    hide Formed, OptionalsInLists, WithinAll, ChildWithin, Spare, Tight, Within;
    if h[x].Pointer? {
      var o := Aim(h, x, {}).child;
      e := Tightens(h, rank, limit, o, Bump(counts, o), d.parts[0], w);
      PointerTight(h, rank, limit, x, counts, e, w);
      e := Derivation([e]);
      return;
    }
    match h[x] {
    case Text(_) => e := d;
    case Concat(ts) =>
      var es := AllTighten(h, rank, limit, ts, counts, d.parts, w);
      e := Derivation(es);
    case One(ts) =>
      var i :| 0 <= i < |ts| && Within(true, h, limit, ts[i], counts, d.parts[0], w);
      e := Tightens(h, rank, limit, ts[i], counts, d.parts[0], w);
      KidTightens(h, rank, limit, x, ts[i], counts, e, w);
      e := Derivation([e]);
    case Optional(k) =>
      e := Tightens(h, rank, limit, k, counts, d.parts[0], w);
      KidTightens(h, rank, limit, x, k, counts, e, w);
      e := Derivation([e]);
    case Scope(k) =>
      e := Tightens(h, rank, limit, k, counts, d.parts[0], w);
      KidTightens(h, rank, limit, x, k, counts, e, w);
      e := Derivation([e]);
    case Repeat(k, _, _) =>
      var es := SameTighten(h, rank, limit, x, k, counts, d.parts, w);
      e := Derivation(es);
      assert es != [] by { NoneWithin(h, limit, k, counts, es, w); }
    }
    TightParts(h, limit, x, counts, e, w);
  }

  lemma {:induction false} NoneWithin(h: Graph, limit: nat, k: Ref, counts: map<Ref, nat>, es: seq<Derivation>,
          w: string)
    requires WithinAll(false, false, h, limit, Times(k, |es|), counts, es, w)
    ensures es == [] ==> w == []
  {
  }

  lemma {:induction false} PointerTight(h: Graph, rank: map<Ref, nat>, limit: nat, x: Ref, counts: map<Ref, nat>,
          d: Derivation, w: string)
    requires Formed(h, rank) && x in h && h[x].Pointer? && Grows(h, limit, x, counts)
    requires var o := Aim(h, x, {}).child; Tight(h, limit, o, Bump(counts, o), d, w)
    ensures Tight(h, limit, x, counts, Derivation([d]), w)
  {
    AimKnown(h, x, {});
    var o := Aim(h, x, {}).child;
    hide Formed;
    if Within(false, h, limit, o, Bump(counts, o), d, w) {
      TightParts(h, limit, x, counts, Derivation([d]), w);
    }
  }

  lemma {:induction false} TightParts(h: Graph, limit: nat, x: Ref, counts: map<Ref, nat>, d: Derivation, w: string)
    requires x in h && PartsWithin(false, h, limit, x, counts, d, w)
    ensures Tight(h, limit, x, counts, d, w)
  {
  }

  lemma {:induction false} SplitWithin(loose: bool, sparing: bool, h: Graph, limit: nat, ts: seq<Ref>,
          counts: map<Ref, nat>, ds: seq<Derivation>, w: string) returns (i: nat)
    requires ts != [] && WithinAll(loose, sparing, h, limit, ts, counts, ds, w)
    ensures ds != [] && i <= |w| && WithinAll(loose, sparing, h, limit, ts[1..], counts, ds[1..], w[i..])
    ensures FirstWithin(loose, sparing, h, limit, ts[0], counts, ds[0], w[..i])
  {
    hide Within, FirstWithin;
    i :| 0 <= i <= |w| && WithinAll(loose, sparing, h, limit, ts[1..], counts, ds[1..], w[i..])
         && FirstWithin(loose, sparing, h, limit, ts[0], counts, ds[0], w[..i]);
  }

  lemma {:induction false} SplitSameWithin(loose: bool, h: Graph, limit: nat, k: Ref, counts: map<Ref, nat>,
          ds: seq<Derivation>, w: string) returns (i: nat)
    requires ds != [] && WithinAll(loose, false, h, limit, Times(k, |ds|), counts, ds, w)
    ensures i <= |w| && WithinAll(loose, false, h, limit, Times(k, |ds[1..]|), counts, ds[1..], w[i..])
    ensures Within(loose, h, limit, k, counts, ds[0], w[..i])
  {
    hide Within;
    TimesMore(k, |ds| - 1);
    i := SplitWithin(loose, false, h, limit, Times(k, |ds|), counts, ds, w);
  }

  lemma {:induction false} MaySkip(h: Graph, limit: nat, x: Ref, counts: map<Ref, nat>, d: Derivation)
    requires x in h && Free(h[x])
    ensures Tight(h, limit, x, counts, d, [])
  {
    assert Shown(h, limit, x, counts) == x;
  }

  lemma {:induction false} FirstTightens(h: Graph, rank: map<Ref, nat>, limit: nat, k: Ref, counts: map<Ref, nat>,
          d: Derivation, w: string) returns (e: Derivation)
    requires Formed(h, rank) && OptionalsInLists(h) && FirstWithin(true, true, h, limit, k, counts, d, w)
    ensures Tight(h, limit, k, counts, e, w)
    decreases d, 2
  {
    hide Within, Formed, OptionalsInLists, Spare;
    e := d;
    if Within(true, h, limit, k, counts, d, w) {
      e := Tightens(h, rank, limit, k, counts, d, w);
    }
  }

  lemma {:induction false} TightIsFirst(h: Graph, limit: nat, k: Ref, counts: map<Ref, nat>, d: Derivation, w: string)
    requires Tight(h, limit, k, counts, d, w)
    ensures FirstWithin(false, true, h, limit, k, counts, d, w)
  {
  }

  lemma {:induction false} AllTighten(h: Graph, rank: map<Ref, nat>, limit: nat, ts: seq<Ref>, counts: map<Ref, nat>,
          ds: seq<Derivation>, w: string) returns (es: seq<Derivation>)
    requires Formed(h, rank) && OptionalsInLists(h) && WithinAll(true, true, h, limit, ts, counts, ds, w)
    ensures WithinAll(false, true, h, limit, ts, counts, es, w)
    decreases ds
  {
    if ts == [] {
      es := [];
    } else {
      hide Within, Formed, OptionalsInLists, Spare;
      hide *;
      var i := SplitWithin(true, true, h, limit, ts, counts, ds, w);
      es := AllTighten(h, rank, limit, ts[1..], counts, ds[1..], w[i..]);
      var e := FirstTightens(h, rank, limit, ts[0], counts, ds[0], w[..i]);
      TightIsFirst(h, limit, ts[0], counts, e, w[..i]);
      es := WithinPrepended(false, h, limit, ts, counts, e, es, w, i);
    }
  }

  lemma {:induction false} StillNone(h: Graph, limit: nat, k: Ref, counts: map<Ref, nat>, w: string)
    requires WithinAll(true, false, h, limit, Times(k, 0), counts, [], w)
    ensures WithinAll(false, false, h, limit, Times(k, 0), counts, [], w)
  {
    hide Within;
  }

  lemma {:induction false} SameTighten(h: Graph, rank: map<Ref, nat>, limit: nat, x: Ref, k: Ref,
          counts: map<Ref, nat>, ds: seq<Derivation>, w: string) returns (es: seq<Derivation>)
    requires Formed(h, rank) && OptionalsInLists(h) && x in h && !h[x].Concat? && k in Kids(h[x])
    requires WithinAll(true, false, h, limit, Times(k, |ds|), counts, ds, w)
    ensures |es| == |ds| && WithinAll(false, false, h, limit, Times(k, |es|), counts, es, w)
    decreases ds
  {
    hide *;
    if ds == [] {
      es := [];
      StillNone(h, limit, k, counts, w);
    } else {
      var i := SplitSameWithin(true, h, limit, k, counts, ds, w);
      var e := Tightens(h, rank, limit, k, counts, ds[0], w[..i]);
      KidTightens(h, rank, limit, x, k, counts, e, w[..i]);
      es := SameTighten(h, rank, limit, x, k, counts, ds[1..], w[i..]);
      SameCons(false, h, limit, k, counts, e, es, w[..i], w[i..]);
      es := [e] + es;
      assert w[..i] + w[i..] == w;
    }
  }

  // ---------- the words of a result ----------

  /** r prints w with at most `limit` expansions of an original on a path. */
  ghost predicate PrintsWithin(loose: bool, h: Graph, limit: nat, r: Ref, w: string) {
    exists d :: Within(loose, h, limit, r, map[], d, w)
  }

  lemma {:induction false} TightWords(h: Graph, rank: map<Ref, nat>, limit: nat, r: Ref, w: string)
    requires Formed(h, rank) && OptionalsInLists(h) && !Skippable(h, r) && PrintsWithin(true, h, limit, r, w)
    ensures PrintsWithin(false, h, limit, r, w)
  {
    hide Within, Formed, Skippable, OptionalsInLists, Tight;
    var d :| Within(true, h, limit, r, map[], d, w);
    var e := Tightens(h, rank, limit, r, map[], d, w);
    RootTightens(h, rank, limit, r, e, w);
  }

  lemma {:induction false} RootTightens(h: Graph, rank: map<Ref, nat>, limit: nat, r: Ref, d: Derivation, w: string)
    requires Formed(h, rank) && !Skippable(h, r) && Tight(h, limit, r, map[], d, w)
    ensures Within(false, h, limit, r, map[], d, w)
  {
    hide Within, Formed, Skippable;
    if Spare(h, limit, r, map[]) { SpareIsSkippable(h, rank, limit, r, map[]); }
  }

  /** Every word within the limit is printed, and the root is cut off only if there is none. */
  ghost predicate LosesNothing(h: Graph, limit: nat, r: Ref, g: Graph, s: Ref, climbed: bool) {
    forall w :: PrintsWithin(false, h, limit, r, w) ==> !climbed && Prints(g, s, w)
  }

  /** The words are exactly those within the limit. */
  ghost predicate ExactlyWithin(h: Graph, limit: nat, r: Ref, g: Graph, s: Ref, climbed: bool) {
    forall w :: PrintsWithin(false, h, limit, r, w) <==> !climbed && Prints(g, s, w)
  }

  /** What the root unfolds into has no other words, if no Repeat insists on an item. */
  lemma {:induction false} ExactWords(h: Graph, rank: map<Ref, nat>, limit: nat, r: Ref, g: Graph, src: Source,
          s: Ref, climbed: bool)
    requires Unfolded(h, rank, limit, r, g, src, s, climbed) && Unforced(h)
    requires LosesNothing(h, limit, r, g, s, climbed)
    ensures ExactlyWithin(h, limit, r, g, s, climbed)
  {
    hide Within, Formed, Unforced, Looks, Yields, Unfold;
    if !climbed {
      forall w | Prints(g, s, w) ensures PrintsWithin(false, h, limit, r, w) {
        var e :| Yields(g, s, e, w);
        var d := PrintedIsWithin(h, rank, limit, r, map[], g, src, s, e, w);
      }
    }
  }
}
