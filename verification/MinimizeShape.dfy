/**
 * What minimising leaves: the tokens that do more than pass on their one child, each with what has taken
 * the place of its children.
 */
module MinimizeShapes {
  import opened TokenGraphs
  import opened UnrollCopy
  import opened UnrollResult
  import opened MinimizeWords

  /** A Concatenation or One of one token goes, and so does a Scope around a Scope. */
  ghost predicate Stays(h: Graph, x: Ref) {
    x in h && match h[x]
              case Concat(ts) => |ts| != 1
              case One(ts) => |ts| != 1
              case Scope(t) => t !in h || !h[t].Scope?
              case _ => true
  }

  /** With n tokens left out, each of which has one child only, x becomes y. */
  ghost predicate BecomesIn(h: Graph, x: Ref, y: Ref, n: nat)
    decreases n
  {
    if n == 0 then x == y
    else x in h && !Stays(h, x) && |Kids(h[x])| == 1 && BecomesIn(h, Kids(h[x])[0], y, n - 1)
  }

  ghost predicate Becomes(h: Graph, x: Ref, y: Ref) {
    exists n: nat :: BecomesIn(h, x, y, n)
  }

  /** In g the token x is as in h, with what its children have become. */
  ghost predicate SameBut(h: Graph, g: Graph, x: Ref) {
    && x in h && x in g && SameKind(g[x], h[x]) && |Kids(g[x])| == |Kids(h[x])|
    && forall i :: 0 <= i < |Kids(h[x])| ==> Becomes(h, Kids(h[x])[i], Kids(g[x])[i])
  }

  /** The tree of s in g is the tree of r in h, without the tokens that do not stay. */
  ghost predicate Contracted(h: Graph, r: Ref, g: Graph, s: Ref) {
    && Becomes(h, r, s)
    && forall p :: Path(g, s, p) ==> Stays(h, Last(p)) && SameBut(h, g, Last(p))
  }

  lemma {:induction false} BecomesItself(h: Graph, x: Ref)
    ensures Becomes(h, x, x)
  {
    assert BecomesIn(h, x, x, 0);
  }

  lemma {:induction false} BecomesMore(h: Graph, x: Ref, y: Ref, n: nat, z: Ref)
    requires BecomesIn(h, x, y, n) && y in h && !Stays(h, y) && Kids(h[y]) == [z]
    ensures BecomesIn(h, x, z, n + 1)
    decreases n
  {
    hide Stays;
    if n == 0 {
      assert BecomesIn(h, z, z, 0);
    } else {
      BecomesMore(h, Kids(h[x])[0], y, n - 1, z);
    }
  }

  /** The token that stands there is left out, too. */
  lemma {:induction false} BecomesOn(h: Graph, x: Ref, y: Ref, z: Ref)
    requires Becomes(h, x, y) && y in h && !Stays(h, y) && Kids(h[y]) == [z]
    ensures Becomes(h, x, z)
  {
    hide Stays, BecomesIn;
    var n: nat :| BecomesIn(h, x, y, n);
    BecomesMore(h, x, y, n, z);
  }

  /** What goes has become what its child has become. */
  lemma {:induction false} ChildBecomes(h: Graph, x: Ref, y: Ref)
    requires Becomes(h, x, y) && x != y
    ensures x in h && !Stays(h, x) && |Kids(h[x])| == 1 && Becomes(h, Kids(h[x])[0], y)
  {
    hide Stays;
    var n: nat :| BecomesIn(h, x, y, n);
    assert BecomesIn(h, Kids(h[x])[0], y, n - 1);
  }

  lemma {:induction false} BecomesInLarger(h: Graph, s: set<Ref>, x: Ref, y: Ref, n: nat)
    requires Closed(Part(h, s)) && BecomesIn(Part(h, s), x, y, n)
    ensures BecomesIn(h, x, y, n)
    decreases n
  {
    if n > 0 {
      StaysInLarger(h, s, x);
      BecomesInLarger(h, s, Kids(h[x])[0], y, n - 1);
    }
  }

  lemma {:induction false} StaysInLarger(h: Graph, s: set<Ref>, x: Ref)
    requires Closed(Part(h, s)) && x in Part(h, s)
    ensures Stays(Part(h, s), x) <==> Stays(h, x)
  {
    assert forall k :: k in Kids(h[x]) ==> k in Part(h, s);
  }

  lemma {:induction false} BecomesLarger(h: Graph, s: set<Ref>, x: Ref, y: Ref)
    requires Closed(Part(h, s)) && Becomes(Part(h, s), x, y)
    ensures Becomes(h, x, y)
  {
    hide Closed, BecomesIn;
    var n: nat :| BecomesIn(Part(h, s), x, y, n);
    BecomesInLarger(h, s, x, y, n);
  }

  lemma {:induction false} PathFront(h: Graph, r: Ref, p: seq<Ref>)
    requires Path(h, r, p) && |p| > 1
    ensures var q := p[..|p| - 1]; Path(h, r, q) && Last(q) in h && Last(p) in Kids(h[Last(q)])
  {
    var q := p[..|p| - 1];
    assert Last(q) == p[|p| - 2];
  }

  lemma {:induction false} PathMore(g: Graph, s: Ref, q: seq<Ref>, k: Ref)
    requires Path(g, s, q) && Last(q) in g && k in Kids(g[Last(q)])
    ensures Path(g, s, q + [k]) && Last(q + [k]) == k
  {
  }

  /** What is reached has become something that is reached. */
  lemma {:induction false} ReachedBecomes(h: Graph, r: Ref, g: Graph, s: Ref, p: seq<Ref>) returns (q: seq<Ref>)
    requires Contracted(h, r, g, s) && Path(h, r, p)
    ensures Path(g, s, q) && Becomes(h, Last(p), Last(q))
  {
    if |p| == 1 {
      q := [s];
      assert Path(g, s, q);
    } else {
      PathFront(h, r, p);
      var b := p[..|p| - 1];
      var x := Last(b);
      q := ReachedBecomes(h, r, g, s, b);
      var y := Last(q);
      assert Stays(h, y) && SameBut(h, g, y);
      if x == y {
        var i :| 0 <= i < |Kids(h[x])| && Kids(h[x])[i] == Last(p);
        var k := Kids(g[y])[i];
        assert k in Kids(g[y]);
        PathMore(g, s, q, k);
        q := q + [k];
      } else {
        ChildBecomes(h, x, y);
      }
    }
  }

  /** Every token that stays is still reached: with ReachedBecomes, no token is lost. */
  lemma {:induction false} WhatStaysIsReached(h: Graph, r: Ref, g: Graph, s: Ref, p: seq<Ref>) returns (q: seq<Ref>)
    requires Contracted(h, r, g, s) && Path(h, r, p) && Stays(h, Last(p))
    ensures Path(g, s, q) && Last(q) == Last(p) && SameBut(h, g, Last(p))
  {
    q := ReachedBecomes(h, r, g, s, p);
    if Last(p) != Last(q) { ChildBecomes(h, Last(p), Last(q)); }
  }
}
