/** What the invariant of the unrolling says when the worklist is empty. */
module UnrollResult {
  import opened TokenGraphs
  import opened UnrollWords
  import opened UnrollState

  /** p leads from r downwards, from token to child. */
  ghost predicate Path(h: Graph, r: Ref, p: seq<Ref>) {
    && |p| > 0 && p[0] == r
    && forall i :: 0 <= i < |p| - 1 ==> p[i] in h && p[i + 1] in Kids(h[p[i]])
  }

  function Last(p: seq<Ref>): Ref {
    if p == [] then 0 else p[|p| - 1]
  }

  /** The number of expansions of the original o on p. */
  ghost function Expansions(originals: map<Ref, Ref>, p: seq<Ref>, o: Ref): nat {
    if p == [] then 0
    else Expansions(originals, p[..|p| - 1], o) + if Expansion(originals, Last(p)) && originals[Last(p)] == o then 1
        else 0
  }

  lemma {:induction false} UnrolledWords(h0: Graph, r0: Ref, limit: nat, v: View)
    requires Inv(h0, r0, limit, v, [], NoItem, 0)
    ensures DropsAreFree(h0) ==> forall w :: Prints(v.h, v.root, w) ==> Prints(h0, r0, w)
  {
    hide Shape, Sized, Registered, Pending, Live, Counted, Stands, Simulates, Prints;
    if DropsAreFree(h0) {
      forall w | Prints(v.h, v.root, w) ensures Prints(h0, r0, w) {
        WordsKept(h0, v.h, v.src, v.root, w);
        StandsWord(h0, r0, v.src[v.root], w);
      }
    }
  }

  lemma {:induction false} StandsWord(h0: Graph, a: Ref, b: Ref, w: string)
    requires Stands(h0, a, b) && Prints(h0, b, w)
    ensures Prints(h0, a, w)
  {
    var d :| Yields(h0, b, d, w);
    var e := StandsPrints(h0, a, b, d, w);
  }

  /** Every token that is reached was visited and not cut off, and its count is that of the path. */
  lemma {:induction false} PathCounted(h0: Graph, limit: nat, v: View, p: seq<Ref>, o: Ref)
    requires Live(v, [], NoItem, 0) && Counted(limit, v, []) && !v.climbed && Path(v.h, v.root, p)
    ensures Last(p) in v.done && Last(p) !in v.dead && Last(p) in v.h && Last(p) in v.cnt
    ensures Expansions(v.originals, p, o) == CountOf(v.cnt[Last(p)], o)
  {
    var q := p[..|p| - 1];
    if |p| > 1 {
      assert Path(v.h, v.root, q) && Last(q) == p[|p| - 2];
      PathCounted(h0, limit, v, q, o);
      assert EdgeCount(v, Last(q), Last(p));
    } else {
      assert q == [] && Last(p) == v.root;
    }
  }

  lemma {:induction false} UnrolledPaths(h0: Graph, r0: Ref, limit: nat, v: View)
    requires Inv(h0, r0, limit, v, [], NoItem, 0)
    ensures !v.climbed ==> forall p :: Path(v.h, v.root, p) ==> Last(p) in v.h && !v.h[Last(p)].Pointer?
    ensures !v.climbed ==> forall p, o :: Path(v.h, v.root, p) ==> Expansions(v.originals, p, o) <= limit
  {
    hide Shape, Sized, Registered, Pending, Sourced, Path;
    if !v.climbed {
      forall p, o | Path(v.h, v.root, p)
        ensures Last(p) in v.h && !v.h[Last(p)].Pointer? && Expansions(v.originals, p, o) <= limit
      {
        PathCounted(h0, limit, v, p, o);
        assert CountsOk(v.clones.Keys, limit, v.cnt[Last(p)]);
      }
      forall p | Path(v.h, v.root, p) ensures Last(p) in v.h && !v.h[Last(p)].Pointer? {
        PathCounted(h0, limit, v, p, 0);
      }
    }
  }

  // ---------- the shape of what is reached ----------

  /** A tree of tokens without pointers. */
  ghost predicate PlainTree(h: Graph, root: Ref, rank: map<Ref, nat>) {
    && Closed(h) && UniqueParent(h) && Acyclic(h, rank) && root in h && Orphan(h, root)
    && forall r :: r in h ==> !h[r].Pointer?
  }

  /** The tokens of s only. */
  ghost function Part(h: Graph, s: set<Ref>): (p: Graph)
    ensures p.Keys == h.Keys * s && forall x :: x in p ==> p[x] == h[x]
  {
    map x | x in h && x in s :: h[x]
  }

  /** What can be reached from the root, within s, is a tree without pointers; the rest may be anything. */
  ghost predicate PlainTreeIn(h: Graph, s: set<Ref>, root: Ref, rank: map<Ref, nat>) {
    PlainTree(Part(h, s), root, rank)
  }

  /** What was visited and not cut off. */
  ghost function Survivors(v: View): set<Ref> {
    v.done - v.dead
  }

  lemma {:induction false} UnrolledTree(h0: Graph, r0: Ref, limit: nat, v: View)
    requires Inv(h0, r0, limit, v, [], NoItem, 0) && !v.climbed
    ensures PlainTreeIn(v.h, Survivors(v), v.root, v.rank)
  {
    hide Sized, Registered, Pending, Sourced, Counted;
    SurvivorsClosed(v);
    SurvivorsShape(v);
    hide Shape, Live, UniqueParent, Acyclic, Orphan, Closed, Part;
  }

  lemma {:induction false} SurvivorsClosed(v: View)
    requires Shape(v) && Live(v, [], NoItem, 0) && !v.climbed
    ensures Closed(Part(v.h, Survivors(v))) && v.root in Part(v.h, Survivors(v))
    ensures forall r :: r in Part(v.h, Survivors(v)) ==> !Part(v.h, Survivors(v))[r].Pointer?
  {
    hide UniqueParent, Acyclic, Apart, Aside;
  }

  lemma {:induction false} SurvivorsShape(v: View)
    requires Shape(v)
    ensures var g := Part(v.h, Survivors(v)); UniqueParent(g) && Acyclic(g, v.rank) && Orphan(g, v.root)
  {
    hide Aside;
    var g := Part(v.h, Survivors(v));
    forall p | p in g ensures p in v.h && g[p] == v.h[p] && p !in v.side {
    }
  }
}
