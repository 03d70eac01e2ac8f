/** What is left prints every word within the limit: at the end of a run, on every graph. */
module UnrollKeeps {
  import opened TokenGraphs
  import opened UnrollWords
  import opened UnrollCopy
  import opened UnrollMachine
  import opened UnrollResult
  import opened UnrollSpec
  import opened UnrollBounded
  import opened UnrollTraces

  /** No pointer is in live, and nothing leads out of it. */
  ghost predicate Plain(h: Graph, live: set<Ref>) {
    forall x :: x in live ==> x in h && !h[x].Pointer? && forall k :: k in Kids(h[x]) ==> k in live
  }

  /** The result, with everything in it that is left. */
  ghost predicate Ended(og: Basis, tr: Trace, h: Graph, known: map<Ref, Ref>, live: set<Ref>) {
    Formed(og.h, og.rank) && TokensOk(og, tr, h, known) && Plain(h, live)
  }

  /** x prints w, if its source does so within the limit. */
  ghost predicate Demands(og: Basis, tr: Trace, x: Ref, d: Derivation, w: string) {
    x in tr.src && x in tr.at && Within(false, og.h, og.limit, tr.src[x], tr.at[x], d, w)
  }

  lemma {:induction false} EndedToken(og: Basis, tr: Trace, h: Graph, known: map<Ref, Ref>, live: set<Ref>, x: Ref)
    requires Ended(og, tr, h, known, live) && x in live
    ensures x in h && !h[x].Pointer? && forall k :: k in Kids(h[x]) ==> k in live
    ensures x in tr.src && x in tr.at && tr.src[x] in og.h && !og.h[tr.src[x]].Pointer?
    ensures SameKind(h[x], og.h[tr.src[x]]) && Holds(og, tr, h[x], tr.src[x], tr.at[x])
  {
    TokensAt(og, tr, h, known);
    assert TokenOk(og, tr, h, known, x);
    hide Formed, TokensOk, Holds, Below;
  }

  lemma {:induction false} WithinRest(og: Basis, x0: Ref, c: Counts, d: Derivation, w: string)
    requires Formed(og.h, og.rank) && Within(false, og.h, og.limit, x0, c, d, w)
    ensures x0 in og.h && Rest(og, x0, c).Some?
  {
    WithinUnfolds(og.h, og.rank, og.limit, x0, c, d, w);
    hide Within, Unfold, Formed;
  }

  lemma {:induction false} EndedFormed(og: Basis, tr: Trace, h: Graph, known: map<Ref, Ref>, live: set<Ref>)
    requires Ended(og, tr, h, known, live)
    ensures Formed(og.h, og.rank)
  {
    hide Formed, TokensOk, Plain;
  }

  /** What is left prints every word within the limit. */
  lemma {:induction false} WithinPrints(og: Basis, tr: Trace, h: Graph, known: map<Ref, Ref>, live: set<Ref>, x: Ref,
          d: Derivation, w: string) returns (e: Derivation)
    requires x in live && Ended(og, tr, h, known, live) && Demands(og, tr, x, d, w)
    ensures Yields(h, x, e, w)
    decreases d, 1
  {
    EndedToken(og, tr, h, known, live, x);
    EndedFormed(og, tr, h, known, live);
    var x0, c := tr.src[x], tr.at[x];
    WithinRest(og, x0, c, d, w);
    hide Ended, Formed, Rest, Holds, PartsWithin, ChildWithin;
    if Free(og.h[x0]) && w == [] && ChildWithin(og.h, og.limit, Kids(og.h[x0])[0], c, d) {
      e := Derivation([]);
    } else {
      e := PartsPrint(og, tr, h, known, live, x, d, w);
    }
  }

  lemma {:induction false} ImagePrints(og: Basis, tr: Trace, h: Graph, known: map<Ref, Ref>, live: set<Ref>,
          c: Counts, k: Ref, k0: Ref, d: Derivation, w: string) returns (e: Derivation)
    requires k in live && Ended(og, tr, h, known, live) && Image(og, tr, c, k, k0)
    requires Within(false, og.h, og.limit, k0, c, d, w)
    ensures Yields(h, k, e, w)
    decreases d, 2
  {
    if tr.src[k] == k0 && tr.at[k] == c {
      hide Ended, Image, Within;
      e := WithinPrints(og, tr, h, known, live, k, d, w);
    } else {
      FollowsWithin(og, c, k0, d, w);
      hide Ended, Within, Aim;
      e := WithinPrints(og, tr, h, known, live, k, d.parts[0], w);
    }
  }

  lemma {:induction false} FollowsWithin(og: Basis, c: Counts, k0: Ref, d: Derivation, w: string)
    requires Grows(og.h, og.limit, k0, c) && Within(false, og.h, og.limit, k0, c, d, w)
    ensures |d.parts| == 1
    ensures var o := Aim(og.h, k0, {}).child; Within(false, og.h, og.limit, o, Bump(c, o), d.parts[0], w)
  {
    hide Aim;
    assert PartsWithin(false, og.h, og.limit, k0, c, d, w);
  }

  lemma {:induction false} PartsPrint(og: Basis, tr: Trace, h: Graph, known: map<Ref, Ref>, live: set<Ref>, x: Ref,
          d: Derivation, w: string) returns (e: Derivation)
    requires x in live && x in tr.src && x in tr.at && tr.src[x] in og.h && Ended(og, tr, h, known, live)
    requires Rest(og, tr.src[x], tr.at[x]).Some? && PartsWithin(false, og.h, og.limit, tr.src[x], tr.at[x], d, w)
    ensures Yields(h, x, e, w)
    decreases d, 0
  {
    EndedToken(og, tr, h, known, live, x);
    EndedFormed(og, tr, h, known, live);
    var x0, c := tr.src[x], tr.at[x];
    hide Ended, Formed, Rest, Within, WithinAll, Aligned, Has, Image, YieldsAll;
    match og.h[x0]
    case Text(_) => e := d;
    case Concat(ts0) =>
      var es := AllPrint(og, tr, h, known, live, c, h[x].tokens, ts0, d.parts, w);
      e := Derivation(es);
    case One(ts0) =>
      var i :| 0 <= i < |ts0| && Within(false, og.h, og.limit, ts0[i], c, d.parts[0], w);
      WithinRest(og, ts0[i], c, d.parts[0], w);
      var j := HasAt(og, tr, c, h[x].tokens, ts0[i]);
      e := ImagePrints(og, tr, h, known, live, c, h[x].tokens[j], ts0[i], d.parts[0], w);
      e := Derivation([e]);
    case Optional(k0) =>
      e := ImagePrints(og, tr, h, known, live, c, h[x].token, k0, d.parts[0], w);
      e := Derivation([e]);
    case Scope(k0) =>
      e := ImagePrints(og, tr, h, known, live, c, h[x].token, k0, d.parts[0], w);
      e := Derivation([e]);
    case Repeat(k0, _, _) =>
      var es := SamePrint(og, tr, h, known, live, c, h[x].token, k0, d.parts, w);
      e := Derivation(es);
  }

  lemma {:induction false} HasAt(og: Basis, tr: Trace, c: Counts, ts: seq<Ref>, k0: Ref) returns (j: nat)
    requires Has(og, tr, c, ts, k0)
    ensures j < |ts| && Image(og, tr, c, ts[j], k0)
  {
    hide Image;
    var k :| k in ts && Image(og, tr, c, k, k0);
    j :| 0 <= j < |ts| && ts[j] == k;
  }

  lemma {:induction false} AlignedFirst(og: Basis, tr: Trace, c: Counts, ts: seq<Ref>, ts0: seq<Ref>)
    requires Aligned(og, tr, c, ts, ts0) && ts0 != []
    ensures (ts != [] && Image(og, tr, c, ts[0], ts0[0]) && Aligned(og, tr, c, ts[1..], ts0[1..]))
            || (Rest(og, ts0[0], c) == None && Aligned(og, tr, c, ts, ts0[1..]))
  {
    hide Image, Rest;
  }

  lemma {:induction false} AllPrint(og: Basis, tr: Trace, h: Graph, known: map<Ref, Ref>, live: set<Ref>, c: Counts,
          ts: seq<Ref>, ts0: seq<Ref>, ds: seq<Derivation>, w: string) returns (es: seq<Derivation>)
    requires (forall k :: k in ts ==> k in live) && Ended(og, tr, h, known, live) && Aligned(og, tr, c, ts, ts0)
    requires WithinAll(false, true, og.h, og.limit, ts0, c, ds, w)
    ensures YieldsAll(h, ts, es, w)
    decreases ds
  {
    if ts0 == [] {
      es := [];
    } else {
      hide *;
      AlignedFirst(og, tr, c, ts, ts0);
      var i := SplitWithin(false, true, og.h, og.limit, ts0, c, ds, w);
      if ts != [] && Image(og, tr, c, ts[0], ts0[0]) && Aligned(og, tr, c, ts[1..], ts0[1..]) {
        var e := FirstPrints(og, tr, h, known, live, c, ts[0], ts0[0], ds[0], w[..i]);
        es := AllPrint(og, tr, h, known, live, c, ts[1..], ts0[1..], ds[1..], w[i..]);
        es := YieldsPrepended(h, ts, e, es, w, i);
      } else {
        EndedFormed(og, tr, h, known, live);
        FirstSpared(og, ts0[0], c, ds[0], w[..i]);
        assert w[i..] == w;
        es := AllPrint(og, tr, h, known, live, c, ts, ts0[1..], ds[1..], w);
      }
    }
  }

  lemma {:induction false} FirstSpared(og: Basis, k0: Ref, c: Counts, d: Derivation, w: string)
    requires Formed(og.h, og.rank) && FirstWithin(false, true, og.h, og.limit, k0, c, d, w) && Rest(og, k0, c) == None
    ensures w == []
  {
    hide Within, Rest, Formed, Spare;
    if Within(false, og.h, og.limit, k0, c, d, w) { WithinRest(og, k0, c, d, w); }
  }

  lemma {:induction false} FirstPrints(og: Basis, tr: Trace, h: Graph, known: map<Ref, Ref>, live: set<Ref>,
          c: Counts, k: Ref, k0: Ref, d: Derivation, w: string) returns (e: Derivation)
    requires k in live && Ended(og, tr, h, known, live) && Image(og, tr, c, k, k0)
    requires FirstWithin(false, true, og.h, og.limit, k0, c, d, w)
    ensures Yields(h, k, e, w)
    decreases d, 3
  {
    hide Within, Ended, Image, Spare;
    if Within(false, og.h, og.limit, k0, c, d, w) {
      e := ImagePrints(og, tr, h, known, live, c, k, k0, d, w);
    } else {
      e := Derivation([]);
      SparePrints(og, tr, h, known, live, c, k, k0, e);
    }
  }

  lemma {:induction false} SparePrints(og: Basis, tr: Trace, h: Graph, known: map<Ref, Ref>, live: set<Ref>,
          c: Counts, k: Ref, k0: Ref, e: Derivation)
    requires k in live && Ended(og, tr, h, known, live) && Image(og, tr, c, k, k0) && Spare(og.h, og.limit, k0, c)
    requires e == Derivation([])
    ensures Yields(h, k, e, "")
  {
    EndedToken(og, tr, h, known, live, k);
    EndedFormed(og, tr, h, known, live);
    AimKnown(og.h, k0, {});
    hide Ended, Formed, Holds, Aim;
  }

  lemma {:induction false} SamePrint(og: Basis, tr: Trace, h: Graph, known: map<Ref, Ref>, live: set<Ref>, c: Counts,
          k: Ref, k0: Ref, ds: seq<Derivation>, w: string) returns (es: seq<Derivation>)
    requires k in live && Ended(og, tr, h, known, live) && Image(og, tr, c, k, k0)
    requires WithinAll(false, false, og.h, og.limit, Times(k0, |ds|), c, ds, w)
    ensures |es| == |ds| && YieldsAll(h, Times(k, |es|), es, w)
    decreases ds
  {
    hide *;
    if ds == [] {
      es := [];
      NonePrinted(og, h, c, k, k0, w);
    } else {
      var i := SplitSameWithin(false, og.h, og.limit, k0, c, ds, w);
      var e := ImagePrints(og, tr, h, known, live, c, k, k0, ds[0], w[..i]);
      var rest := SamePrint(og, tr, h, known, live, c, k, k0, ds[1..], w[i..]);
      es := [e] + rest;
      SameYield(h, k, e, rest, w, i);
    }
  }

  lemma {:induction false} NonePrinted(og: Basis, h: Graph, c: Counts, k: Ref, k0: Ref, w: string)
    requires WithinAll(false, false, og.h, og.limit, Times(k0, 0), c, [], w)
    ensures YieldsAll(h, Times(k, 0), [], w)
  {
  }

  lemma {:induction false} SameYield(h: Graph, k: Ref, e: Derivation, rest: seq<Derivation>, w: string, i: nat)
    requires i <= |w| && Yields(h, k, e, w[..i]) && YieldsAll(h, Times(k, |rest|), rest, w[i..])
    ensures YieldsAll(h, Times(k, |rest| + 1), [e] + rest, w)
  {
    hide Times, Yields;
    TimesMore(k, |rest|);
    YieldsCons(h, k, Times(k, |rest|), e, rest, w[..i], w[i..]);
    assert w[..i] + w[i..] == w;
  }

  // ---------- the end of a run ----------

  lemma {:induction false} PartIsPlain(h: Graph, s: set<Ref>, root: Ref, rank: map<Ref, nat>)
    requires PlainTreeIn(h, s, root, rank)
    ensures Plain(h, Part(h, s).Keys) && root in Part(h, s)
  {
    hide Acyclic;
  }

  lemma {:induction false} CutOffHasNone(og: Basis, w: string)
    requires Formed(og.h, og.rank) && Rest(og, og.root, map[]) == None
    ensures !PrintsWithin(false, og.h, og.limit, og.root, w)
  {
    hide Within, Rest, Formed;
    if PrintsWithin(false, og.h, og.limit, og.root, w) {
      var d :| Within(false, og.h, og.limit, og.root, map[], d, w);
      WithinRest(og, og.root, map[], d, w);
    }
  }

  lemma {:induction false} RootPrints(og: Basis, tr: Trace, m: Machine, live: set<Ref>, w: string)
    requires m.root in live && Image(og, tr, map[], m.root, og.root) && Ended(og, tr, m.h, m.originals, live)
    requires PrintsWithin(false, og.h, og.limit, og.root, w)
    ensures Prints(m.h, m.root, w)
  {
    hide Within, Image, Ended, Yields;
    var d :| Within(false, og.h, og.limit, og.root, map[], d, w);
    var e := ImagePrints(og, tr, m.h, m.originals, live, map[], m.root, og.root, d, w);
  }

  /** A run loses no word within the limit, and cuts the root off only if there is none. */
  lemma {:induction false} CoversLosesNothing(og: Basis, tr: Trace, m: Machine, part: set<Ref>, ranks: map<Ref, nat>)
    requires !m.climbed ==> PlainTreeIn(m.h, part, m.root, ranks)
    requires Covers(og, tr, m)
    ensures LosesNothing(og.h, og.limit, og.root, m.h, m.root, m.climbed)
  {
    CoversParts(og, tr, m);
    hide Covers, Formed, AllTraced, TokensOk, Original, Known, Counting, PlainTreeIn, PrintsWithin, Prints, Image,
        Part, Plain;
    hide Rest;
    forall w | PrintsWithin(false, og.h, og.limit, og.root, w) ensures !m.climbed && Prints(m.h, m.root, w) {
      if Rest(og, og.root, map[]) == None {
        CutOffHasNone(og, w);
      } else {
        PartIsPlain(m.h, part, m.root, ranks);
        RootPrints(og, tr, m, Part(m.h, part).Keys, w);
      }
    }
  }
}
