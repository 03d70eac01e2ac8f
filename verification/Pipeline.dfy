/** The last steps of the format parser (parser/tavor.go:1926-1934): pointers are unrolled, tokens minimised. */
module Pipeline {
  import opened TokenGraphs
  import opened UnrollWords
  import opened UnrollClones
  import opened UnrollLasting
  import opened UnrollMachine
  import opened UnrollResult
  import opened UnrollBounded
  import opened UnrollPromises
  import opened Unroll
  import opened Minimize

  lemma {:induction false} SameWithin(h: Graph, limit: nat, r: Ref, g: Graph, s: Ref, g': Graph, s': Ref)
    requires forall w :: Prints(g', s', w) <==> Prints(g, s, w)
    ensures LosesNothing(h, limit, r, g, s, false) ==> LosesNothing(h, limit, r, g', s', false)
    ensures ExactlyWithin(h, limit, r, g, s, false) ==> ExactlyWithin(h, limit, r, g', s', false)
  {
    hide Prints, PrintsWithin;
  }

  /** What can be generated from a format, and how it looks: nothing is left to unroll or to pass on. */
  ghost predicate Prepared(g: Graph, s: Ref) {
    forall p :: Path(g, s, p) ==> Last(p) in g && !g[Last(p)].Pointer? && !Single(g[Last(p)])
  }

  /**
   * A format of whose root something is left ends up without pointers and without tokens that pass on one
   * child. It prints only words of the format, and all of those within the limit. No unset pointer is met
   * if all are set and each token lasts or nothing leads into the tree of the root.
   */
  method Prepare(h: Graph, r: Ref, free: Ref, limit: nat, ghost rank: map<Ref, nat>)
    returns (outcome: Outcome, g: Graph, s: Ref, climbed: bool)
    requires Grammar(h, r, rank) && forall x :: x in h ==> x < free
    ensures limit >= 1 && PointersSet(h) && (AllLast(h) || CanBeIsolated(h, r)) ==> outcome == Unrolled
    ensures outcome == Unrolled && limit >= 1 && Lasts(h, r) ==> !climbed
    ensures outcome == Unrolled && !climbed ==> Prepared(g, s)
    ensures outcome == Unrolled && !climbed && DropsAreFree(h) ==> forall w :: Prints(g, s, w) ==> Prints(h, r, w)
    ensures outcome == Unrolled ==> LosesNothing(h, limit, r, g, s, climbed)
    ensures outcome == Unrolled && climbed ==> NothingLeft(h, rank, limit, r)
    ensures outcome == Unrolled && limit >= 1 && CanBeIsolated(h, r) && Unforced(h) ==>
        ExactlyWithin(h, limit, r, g, s, climbed)
  {
    hide *;
    var originals;
    ghost var end, src, part, ranks;
    outcome, g, s, climbed, originals, end, src, part, ranks := UnrollPointers(h, r, free, limit, rank);
    if outcome == Unrolled && !climbed {
      ghost var g0, s0 := g, s;
      g, s := MinimizeTokens(g, s, part, ranks);
      assert Prepared(g, s) by { PreparedIs(g, s); }
      SameWithin(h, limit, r, g0, s0, g, s);
    }
  }

  lemma {:induction false} PreparedIs(g: Graph, s: Ref)
    requires forall p :: Path(g, s, p) ==> Last(p) in g && !Single(g[Last(p)]) && !g[Last(p)].Pointer?
    ensures Prepared(g, s)
  {
    hide Path, Last, Single;
  }
}
