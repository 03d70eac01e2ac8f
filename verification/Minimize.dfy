/**
 * MinimizeTokens (token/transform.go:14-74): tokens that only pass on their one child are replaced by
 * it, from the root downwards.
 */
module Minimize {
  import opened TokenGraphs
  import opened UnrollState
  import opened UnrollFresh
  import opened UnrollResult
  import opened UnrollCopy
  import opened MinimizeWords
  import opened MinimizeShapes

  /** Minimize of a token: its one child, for a Concatenation or One of length 1 and for a Scope of a Scope. */
  function Minimized(h: Graph, n: Node): Option<Ref> {
    match n
    case Concat(ts) => if |ts| == 1 then Some(ts[0]) else None
    case One(ts) => if |ts| == 1 then Some(ts[0]) else None
    case Scope(t) => if t in h && h[t].Scope? then Some(t) else None
    case _ => None
  }

  /** What the minimiser removes for good. */
  predicate Single(n: Node) {
    (n.Concat? || n.One?) && |Kids(n)| == 1
  }

  lemma {:induction false} PartYields(h: Graph, s: set<Ref>, rank: map<Ref, nat>, root: Ref, x: Ref, d: Derivation,
          w: string)
    requires PlainTreeIn(h, s, root, rank) && x in Part(h, s)
    ensures Yields(h, x, d, w) <==> Yields(Part(h, s), x, d, w)
    decreases d, 0
  {
    PartKids(h, s, rank, root, x);
    hide PlainTreeIn;
    match h[x]
    case Concat(ts) => PartYieldsAll(h, s, rank, root, ts, d.parts, w);
    case One(ts) =>
      if |d.parts| == 1 {
        forall i | 0 <= i < |ts| ensures Yields(h, ts[i], d.parts[0], w) <==> Yields(Part(h, s), ts[i], d.parts[0], w) {
          PartYields(h, s, rank, root, ts[i], d.parts[0], w);
        }
      }
    case Optional(t) => if |d.parts| == 1 { PartYields(h, s, rank, root, t, d.parts[0], w); }
    case Scope(t) => if |d.parts| == 1 { PartYields(h, s, rank, root, t, d.parts[0], w); }
    case Repeat(t, _, _) => PartYieldsAll(h, s, rank, root, Times(t, |d.parts|), d.parts, w);
    case _ =>
  }

  lemma {:induction false} PartKids(h: Graph, s: set<Ref>, rank: map<Ref, nat>, root: Ref, x: Ref)
    requires PlainTreeIn(h, s, root, rank) && x in Part(h, s)
    ensures x in h && h[x] == Part(h, s)[x] && !h[x].Pointer? && forall k :: k in Kids(h[x]) ==> k in Part(h, s)
    ensures forall i :: 0 <= i < |Kids(h[x])| ==> Kids(h[x])[i] in Part(h, s)
  {
    hide UniqueParent, Orphan, Acyclic;
    forall i | 0 <= i < |Kids(h[x])| ensures Kids(h[x])[i] in Part(h, s) {
      assert Kids(h[x])[i] in Kids(h[x]);
    }
  }

  lemma {:induction false} PartYieldsAll(h: Graph, s: set<Ref>, rank: map<Ref, nat>, root: Ref, ts: seq<Ref>,
          ds: seq<Derivation>, w: string)
    requires PlainTreeIn(h, s, root, rank) && forall i :: 0 <= i < |ts| ==> ts[i] in Part(h, s)
    ensures YieldsAll(h, ts, ds, w) <==> YieldsAll(Part(h, s), ts, ds, w)
    decreases ds
  {
    if ts != [] && ds != [] {
      hide PlainTreeIn, Yields;
      forall i | 0 <= i <= |w|
        ensures Yields(h, ts[0], ds[0], w[..i]) <==> Yields(Part(h, s), ts[0], ds[0], w[..i])
        ensures YieldsAll(h, ts[1..], ds[1..], w[i..]) <==> YieldsAll(Part(h, s), ts[1..], ds[1..], w[i..])
      {
        PartYields(h, s, rank, root, ts[0], ds[0], w[..i]);
        PartYieldsAll(h, s, rank, root, ts[1..], ds[1..], w[i..]);
      }
    }
  }

  lemma {:induction false} PartPrints(h: Graph, s: set<Ref>, rank: map<Ref, nat>, root: Ref, x: Ref, w: string)
    requires PlainTreeIn(h, s, root, rank) && x in Part(h, s)
    ensures Prints(h, x, w) <==> Prints(Part(h, s), x, w)
  {
    hide PlainTreeIn, Yields;
    forall d ensures Yields(h, x, d, w) <==> Yields(Part(h, s), x, d, w) {
      PartYields(h, s, rank, root, x, d, w);
    }
  }

  /** The state of the algorithm, with the tokens that were passed (done) and left out (dead). */
  datatype State = State(h: Graph, root: Ref, parents: map<Ref, Option<Ref>>, queue: seq<Ref>,
      done: set<Ref>, dead: set<Ref>)

  // ---------- the invariant ----------

  ghost predicate Shaped(h0: Graph, rank: map<Ref, nat>, s: State) {
    && s.h.Keys == h0.Keys && Closed(s.h) && Acyclic(s.h, rank)
    && (forall r :: r in s.h ==> !s.h[r].Pointer?)
    && s.root in s.h && s.root !in s.dead && s.done <= s.h.Keys && s.done !! s.dead
  }

  ghost predicate Owned(s: State) {
    && (forall p, q, k ::
        p in s.h && q in s.h && p !in s.dead && q !in s.dead && k in Kids(s.h[p]) && k in Kids(s.h[q]) ==> p == q)
    && (forall p :: p in s.h && p !in s.dead ==> NoRepeats(Kids(s.h[p])) && s.root !in Kids(s.h[p]))
  }

  ghost predicate Fresh(s: State, x: Ref) {
    x in s.h && x !in s.done && x !in s.dead
  }

  /** Nothing was changed at or below a token that was not passed. */
  ghost predicate Untouched(h0: Graph, s: State) {
    forall x :: Fresh(s, x) ==> x in h0 && s.h[x] == h0[x] && forall k :: k in Kids(s.h[x]) ==> Fresh(s, k)
  }

  ghost predicate Waits(s: State, v: Ref) {
    && Fresh(s, v) && v in s.parents
    && match s.parents[v]
       case None => v == s.root
       case Some(p) => p in s.done && p in s.h && v in Kids(s.h[p]) && v != s.root
  }

  ghost predicate Waiting(s: State) {
    && (forall i :: 0 <= i < |s.queue| ==> Waits(s, s.queue[i]))
    && NoRepeats(s.queue)
  }

  ghost predicate Reached(s: State) {
    && (s.root in s.done || s.root in s.queue)
    && (forall r, k :: r in s.done && r in s.h && k in Kids(s.h[r]) ==> k in s.done || k in s.queue)
    && (forall r :: r in s.done && r in s.h ==> !Single(s.h[r]))
  }

  ghost predicate Worded(h0: Graph, r0: Ref, s: State) {
    && SameWords(h0, s.h)
    && forall w :: Prints(h0, s.root, w) <==> Prints(h0, r0, w)
  }

  ghost predicate Invariant(h0: Graph, r0: Ref, rank: map<Ref, nat>, s: State) {
    Shaped(h0, rank, s) && Owned(s) && Untouched(h0, s) && Waiting(s) && Reached(s) && Worded(h0, r0, s)
  }

  // ---------- passing a token ----------

  ghost function Passing(s: State, v: Ref, rest: seq<Ref>): State
    requires v in s.h
  {
    s.(done := s.done + {v}, queue := Kids(s.h[v]) + rest,
       parents := s.parents + map k | k in Kids(s.h[v]) :: Some(v))
  }

  lemma {:induction false} PassingWaits(s: State, v: Ref, rest: seq<Ref>, x: Ref)
    requires Owned(s) && s.done !! s.dead && v in s.h && Waits(s, v) && Waits(s, x) && x != v
    ensures Waits(Passing(s, v, rest), x) && x !in Kids(s.h[v])
  {
  }

  lemma {:induction false} PassingKid(h0: Graph, s: State, v: Ref, rest: seq<Ref>, k: Ref)
    requires Owned(s) && Untouched(h0, s) && v in s.h && Waits(s, v) && k in Kids(s.h[v]) && k != v
    ensures Waits(Passing(s, v, rest), k)
  {
  }

  lemma {:induction false} KidIsOther(h0: Graph, rank: map<Ref, nat>, s: State, v: Ref, k: Ref)
    requires Shaped(h0, rank, s) && v in s.h && k in Kids(s.h[v])
    ensures k != v && k in s.h && rank[k] < rank[v]
  {
  }

  lemma {:induction false} PassingWaiting(h0: Graph, rank: map<Ref, nat>, s: State, v: Ref, rest: seq<Ref>)
    requires Shaped(h0, rank, s) && Owned(s) && Untouched(h0, s) && Waiting(s) && s.queue == [v] + rest && v in s.h
    ensures Waiting(Passing(s, v, rest))
  {
    assert s.queue[0] == v && Waits(s, v);
    OwnKids(s, v);
    hide Waits, Shaped, Owned, Untouched, Passing;
    var ts, t := Kids(s.h[v]), Passing(s, v, rest);
    var q := ts + rest;
    forall i | 0 <= i < |q| ensures Waits(t, q[i]) && (i >= |ts| ==> q[i] !in ts) {
      PassingWaitsAt(h0, rank, s, v, rest, i);
    }
    QueueDistinct(s.queue, v, rest, ts);
    PassingQueue(s, v, rest);
  }

  lemma {:induction false} OwnKids(s: State, v: Ref)
    requires Owned(s) && v in s.h && Waits(s, v)
    ensures NoRepeats(Kids(s.h[v]))
  {
  }

  lemma {:induction false} PassingWaitsAt(h0: Graph, rank: map<Ref, nat>, s: State, v: Ref, rest: seq<Ref>, i: nat)
    requires Shaped(h0, rank, s) && Owned(s) && Untouched(h0, s) && Waiting(s) && s.queue == [v] + rest && v in s.h
    requires Waits(s, v) && i < |Kids(s.h[v]) + rest|
    ensures var ts := Kids(s.h[v]);
            Waits(Passing(s, v, rest), (ts + rest)[i]) && (i >= |ts| ==> (ts + rest)[i] !in ts)
  {
    var ts := Kids(s.h[v]);
    assert s.done !! s.dead;
    hide Waits, Shaped, Owned, Untouched, Passing;
    if i < |ts| {
      KidIsOther(h0, rank, s, v, ts[i]);
      PassingKid(h0, s, v, rest, ts[i]);
    } else {
      assert s.queue[0] == v;
      assert (ts + rest)[i] == s.queue[i - |ts| + 1];
      PassingWaits(s, v, rest, s.queue[i - |ts| + 1]);
    }
  }

  lemma {:induction false} QueueDistinct(queue: seq<Ref>, v: Ref, rest: seq<Ref>, ts: seq<Ref>)
    requires NoRepeats(queue) && queue == [v] + rest && NoRepeats(ts)
    requires forall i :: |ts| <= i < |ts + rest| ==> (ts + rest)[i] !in ts
    ensures NoRepeats(ts + rest)
  {
    var q := ts + rest;
    forall i, j | 0 <= i < j < |q| ensures q[i] != q[j] {
      if i < |ts| {
        assert q[i] in ts;
      } else {
        assert q[i] == queue[i - |ts| + 1] && q[j] == queue[j - |ts| + 1];
      }
    }
  }

  lemma {:induction false} PassingQueue(s: State, v: Ref, rest: seq<Ref>)
    requires v in s.h
    ensures Passing(s, v, rest).queue == Kids(s.h[v]) + rest
  {
  }

  lemma {:induction false} PassingUntouched(h0: Graph, rank: map<Ref, nat>, s: State, v: Ref, rest: seq<Ref>)
    requires Shaped(h0, rank, s) && Owned(s) && Untouched(h0, s) && Waits(s, v) && v in s.h
    ensures Untouched(h0, Passing(s, v, rest))
  {
    var t := Passing(s, v, rest);
    forall x | Fresh(t, x) ensures x in h0 && t.h[x] == h0[x] && forall k :: k in Kids(t.h[x]) ==> Fresh(t, k) {
      assert Fresh(s, x);
    }
  }

  lemma {:induction false} PassingReached(s: State, v: Ref, rest: seq<Ref>)
    requires Reached(s) && s.queue == [v] + rest && v in s.h && !Single(s.h[v])
    ensures Reached(Passing(s, v, rest))
  {
  }

  lemma {:induction false} PassingKeeps(h0: Graph, r0: Ref, rank: map<Ref, nat>, s: State, v: Ref, rest: seq<Ref>)
    requires Invariant(h0, r0, rank, s) && s.queue == [v] + rest && v in s.h && !Single(s.h[v])
    ensures Invariant(h0, r0, rank, Passing(s, v, rest))
  {
    hide Owned, Untouched, Reached, Worded, Closed, Acyclic;
    assert s.queue[0] == v && Waits(s, v);
    PassingWaiting(h0, rank, s, v, rest);
    PassingUntouched(h0, rank, s, v, rest);
    PassingReached(s, v, rest);
    PassingRest(h0, r0, s, v, rest);
  }

  lemma {:induction false} PassingRest(h0: Graph, r0: Ref, s: State, v: Ref, rest: seq<Ref>)
    requires Owned(s) && Worded(h0, r0, s) && v in s.h
    ensures Owned(Passing(s, v, rest)) && Worded(h0, r0, Passing(s, v, rest))
  {
    hide SameWords, Prints;
  }

  // ---------- leaving a token out ----------

  /** r takes the place of v, in the parent of v or as the root. */
  ghost function Skipping(s: State, v: Ref, r: Ref, rest: seq<Ref>): State
    requires v in s.parents && (s.parents[v].Some? ==> s.parents[v].value in s.h)
  {
    s.(h := if s.parents[v].Some? then Bypassed(s.h, s.parents[v].value, v, r) else s.h,
       root := if s.parents[v].None? then r else s.root,
       parents := s.parents[r := s.parents[v]], queue := [r] + rest, dead := s.dead + {v})
  }

  /** What the step needs of v and its child r. */
  ghost predicate Skippable(s: State, v: Ref, r: Ref) {
    v in s.h && Waits(s, v) && Passes(s.h, v, r) && r in s.h
  }

  lemma {:induction false} SkipKids(h: Graph, p: Ref, v: Ref, r: Ref, x: Ref)
    requires p in h && x in h
    ensures Bypassed(h, p, v, r).Keys == h.Keys
    ensures Kids(Bypassed(h, p, v, r)[x]) == if x == p then Replaced(Kids(h[x]), v, r) else Kids(h[x])
    ensures Bypassed(h, p, v, r)[x].Pointer? == h[x].Pointer?
    ensures Single(Bypassed(h, p, v, r)[x]) == Single(h[x])
  {
  }

  /** A child after the step was one before, or is r in the place of v. */
  lemma {:induction false} SkipEdge(h: Graph, p: Ref, v: Ref, r: Ref, x: Ref, k: Ref)
    requires p in h && x in h && k in Kids(Bypassed(h, p, v, r)[x])
    ensures (k in Kids(h[x]) && (x == p ==> k != v || k == r)) || (k == r && x == p && v in Kids(h[x]))
  {
    SkipKids(h, p, v, r, x);
    if x == p {
      var ts := Kids(h[x]);
      var i :| 0 <= i < |ts| && Replaced(ts, v, r)[i] == k;
      assert ts[i] in ts;
    }
  }

  lemma {:induction false} SkipDescends(h0: Graph, rank: map<Ref, nat>, s: State, v: Ref, r: Ref, p: Ref, x: Ref,
          k: Ref)
    requires Shaped(h0, rank, s) && Skippable(s, v, r) && p in s.h && v in Kids(s.h[p])
    requires x in s.h && k in Kids(Bypassed(s.h, p, v, r)[x])
    ensures k in s.h && rank[k] < rank[x]
  {
    SkipEdge(s.h, p, v, r, x, k);
    assert r in Kids(s.h[v]);
  }

  lemma {:induction false} SkipShaped(h0: Graph, rank: map<Ref, nat>, s: State, v: Ref, r: Ref, rest: seq<Ref>)
    requires Shaped(h0, rank, s) && Skippable(s, v, r) && r !in s.dead && r != v
    ensures Shaped(h0, rank, Skipping(s, v, r, rest))
  {
    if s.parents[v].Some? {
      var p := s.parents[v].value;
      assert v in Kids(s.h[p]);
      SkipShape(h0, rank, s, v, r, p);
      hide Closed, Acyclic, Bypassed;
    }
  }

  lemma {:induction false} SkipShape(h0: Graph, rank: map<Ref, nat>, s: State, v: Ref, r: Ref, p: Ref)
    requires Shaped(h0, rank, s) && Skippable(s, v, r) && p in s.h && v in Kids(s.h[p])
    ensures var g := Bypassed(s.h, p, v, r);
            g.Keys == s.h.Keys && Closed(g) && Acyclic(g, rank) && forall r :: r in g ==> !g[r].Pointer?
  {
    var g := Bypassed(s.h, p, v, r);
    SkipKids(s.h, p, v, r, p);
    forall x | x in s.h ensures x in g && g[x].Pointer? == s.h[x].Pointer? {
      SkipKids(s.h, p, v, r, x);
    }
    forall x, k | x in s.h && k in Kids(g[x]) ensures k in s.h && rank[k] < rank[x] {
      hide Shaped, Skippable, Bypassed;
      SkipDescends(h0, rank, s, v, r, p, x, k);
    }
  }

  /** Only v has the child r. */
  lemma {:induction false} OnlyParent(s: State, v: Ref, r: Ref, x: Ref)
    requires Owned(s) && Skippable(s, v, r) && x in s.h && x !in s.dead && r in Kids(s.h[x])
    ensures x == v && r != s.root
  {
    assert r in Kids(s.h[v]);
  }

  lemma {:induction false} ReplacedDistinct(ts: seq<Ref>, v: Ref, r: Ref)
    requires NoRepeats(ts) && r !in ts
    ensures NoRepeats(Replaced(ts, v, r))
  {
    var us := Replaced(ts, v, r);
    forall i, j | 0 <= i < j < |us| ensures us[i] != us[j] {
      assert ts[i] in ts && ts[j] in ts;
    }
  }

  lemma {:induction false} SkipOwned(s: State, v: Ref, r: Ref, rest: seq<Ref>)
    requires Owned(s) && Skippable(s, v, r) && s.done !! s.dead
    ensures Owned(Skipping(s, v, r, rest))
  {
    var t := Skipping(s, v, r, rest);
    forall x | x in t.h && x !in t.dead ensures NoRepeats(Kids(t.h[x])) && t.root !in Kids(t.h[x]) {
      SkipOwnedAt(s, v, r, rest, x);
    }
    forall x, k | x in t.h && x !in t.dead && k in Kids(t.h[x])
      ensures k in Kids(s.h[x]) || (k == r && s.parents[v] == Some(x))
    {
      SkipOwnedEdge(s, v, r, rest, x, k);
    }
    hide Skipping;
    forall x, y, k | x in t.h && y in t.h && x !in t.dead && y !in t.dead && k in Kids(t.h[x]) && k in Kids(t.h[y])
      ensures x == y
    {
      if k == r {
        if r in Kids(s.h[x]) { OnlyParent(s, v, r, x); }
        if r in Kids(s.h[y]) { OnlyParent(s, v, r, y); }
      }
      SkipDead(s, v, r, rest);
    }
  }

  lemma {:induction false} SkipDead(s: State, v: Ref, r: Ref, rest: seq<Ref>)
    requires Skippable(s, v, r)
    ensures var t := Skipping(s, v, r, rest); t.h.Keys == s.h.Keys && t.dead == s.dead + {v} && t.done == s.done
  {
  }

  lemma {:induction false} SkipOwnedEdge(s: State, v: Ref, r: Ref, rest: seq<Ref>, x: Ref, k: Ref)
    requires Skippable(s, v, r) && x in s.h && k in Kids(Skipping(s, v, r, rest).h[x])
    ensures k in Kids(s.h[x]) || (k == r && s.parents[v] == Some(x))
  {
    if s.parents[v].Some? {
      SkipEdge(s.h, s.parents[v].value, v, r, x, k);
    }
  }

  lemma {:induction false} SkipOwnedAt(s: State, v: Ref, r: Ref, rest: seq<Ref>, x: Ref)
    requires Owned(s) && Skippable(s, v, r) && s.done !! s.dead && x in s.h && x !in s.dead && x != v
    ensures var t := Skipping(s, v, r, rest); NoRepeats(Kids(t.h[x])) && t.root !in Kids(t.h[x])
  {
    var t, ts := Skipping(s, v, r, rest), Kids(s.h[x]);
    assert NoRepeats(ts) && s.root !in ts;
    if r in ts {
      OnlyParent(s, v, r, x);
    }
    if s.parents[v].Some? {
      SkipKids(s.h, s.parents[v].value, v, r, x);
      ReplacedDistinct(ts, v, r);
      if s.root in Kids(t.h[x]) {
        SkipEdge(s.h, s.parents[v].value, v, r, x, s.root);
        OnlyParent(s, v, r, v);
      }
    }
  }

  lemma {:induction false} KidOfWaiting(h0: Graph, s: State, v: Ref, r: Ref)
    requires Untouched(h0, s) && Skippable(s, v, r)
    ensures r in Kids(s.h[v]) && Fresh(s, r)
  {
  }

  /** Only the parent has the child v. */
  lemma {:induction false} OnlyOwner(s: State, v: Ref, x: Ref)
    requires Owned(s) && s.done !! s.dead && v in s.h && Waits(s, v) && x in s.h && x !in s.dead && v in Kids(s.h[x])
    ensures s.parents[v] == Some(x)
  {
  }

  lemma {:induction false} SkipUntouched(h0: Graph, s: State, v: Ref, r: Ref, rest: seq<Ref>)
    requires Owned(s) && s.done !! s.dead && Untouched(h0, s) && Skippable(s, v, r)
    ensures Untouched(h0, Skipping(s, v, r, rest))
  {
    var t := Skipping(s, v, r, rest);
    forall x | Fresh(t, x) ensures x in h0 && t.h[x] == h0[x] && forall k :: k in Kids(t.h[x]) ==> Fresh(t, k) {
      hide Owned;
      assert Fresh(s, x);
      if v in Kids(s.h[x]) { OnlyOwner(s, v, x); }
    }
  }

  lemma {:induction false} SkipWaits(h0: Graph, s: State, v: Ref, r: Ref, rest: seq<Ref>, x: Ref)
    requires Owned(s) && s.done !! s.dead && Untouched(h0, s) && Skippable(s, v, r) && Waits(s, x) && x != v
    ensures Waits(Skipping(s, v, r, rest), x) && x != r
  {
    KidOfWaiting(h0, s, v, r);
    if x == r {
      OnlyParent(s, v, r, v);
      OnlyOwner(s, r, v);
    }
    hide Owned, Untouched;
    if s.parents[v].Some? && s.parents[x].Some? {
      SkipKept(s.h, s.parents[v].value, v, r, s.parents[x].value, x);
    }
  }

  lemma {:induction false} SkipKept(h: Graph, p: Ref, v: Ref, r: Ref, x: Ref, k: Ref)
    requires p in h && x in h && k in Kids(h[x]) && k != v
    ensures k in Kids(Bypassed(h, p, v, r)[x])
  {
    SkipKids(h, p, v, r, x);
    var ts := Kids(h[x]);
    var i :| 0 <= i < |ts| && ts[i] == k;
    assert x == p ==> Replaced(ts, v, r)[i] == k;
  }

  lemma {:induction false} SkipPlaced(h: Graph, p: Ref, v: Ref, r: Ref)
    requires p in h && v in Kids(h[p])
    ensures r in Kids(Bypassed(h, p, v, r)[p])
  {
    SkipKids(h, p, v, r, p);
    var ts := Kids(h[p]);
    var i :| 0 <= i < |ts| && ts[i] == v;
    assert Replaced(ts, v, r)[i] == r;
  }

  lemma {:induction false} SkipNext(h0: Graph, s: State, v: Ref, r: Ref, rest: seq<Ref>)
    requires Owned(s) && s.done !! s.dead && Untouched(h0, s) && Skippable(s, v, r) && r != v
    ensures Waits(Skipping(s, v, r, rest), r)
  {
    KidOfWaiting(h0, s, v, r);
    OnlyParent(s, v, r, v);
    hide Owned, Untouched;
    if s.parents[v].Some? {
      SkipPlaced(s.h, s.parents[v].value, v, r);
    }
  }

  lemma {:induction false} SkipWaiting(h0: Graph, s: State, v: Ref, r: Ref, rest: seq<Ref>)
    requires Owned(s) && s.done !! s.dead && Untouched(h0, s) && Waiting(s) && Skippable(s, v, r) && r != v
        && s.queue == [v] + rest
    ensures Waiting(Skipping(s, v, r, rest))
  {
    var t, q := Skipping(s, v, r, rest), [r] + rest;
    hide Owned, Untouched, Waits, Skipping, Skippable;
    SkipNext(h0, s, v, r, rest);
    forall i | 0 < i < |q| ensures Waits(t, q[i]) && q[i] != r && q[i] == s.queue[i] {
      assert q[i] == s.queue[i] && s.queue[0] == v;
      SkipWaits(h0, s, v, r, rest, q[i]);
    }
    HeadDistinct(s.queue, v, r, rest);
    SkipQueue(s, v, r, rest);
  }

  lemma {:induction false} HeadDistinct(queue: seq<Ref>, v: Ref, r: Ref, rest: seq<Ref>)
    requires NoRepeats(queue) && queue == [v] + rest
    requires forall i :: 0 < i < |[r] + rest| ==> ([r] + rest)[i] != r && ([r] + rest)[i] == queue[i]
    ensures NoRepeats([r] + rest)
  {
  }

  lemma {:induction false} SkipQueue(s: State, v: Ref, r: Ref, rest: seq<Ref>)
    requires Skippable(s, v, r)
    ensures Skipping(s, v, r, rest).queue == [r] + rest
  {
  }

  lemma {:induction false} SkipReached(s: State, v: Ref, r: Ref, rest: seq<Ref>)
    requires Owned(s) && s.done !! s.dead && Reached(s) && Skippable(s, v, r) && s.queue == [v] + rest
    ensures Reached(Skipping(s, v, r, rest))
  {
    var t := Skipping(s, v, r, rest);
    forall x | x in t.done && x in t.h ensures !Single(t.h[x]) {
      if s.parents[v].Some? { SkipKids(s.h, s.parents[v].value, v, r, x); }
    }
    forall x, k | x in t.done && x in t.h && k in Kids(t.h[x]) ensures k in t.done || k in t.queue {
      hide Owned, Single;
      if s.parents[v].Some? { SkipEdge(s.h, s.parents[v].value, v, r, x, k); }
      if k == v && v in Kids(s.h[x]) { OnlyOwner(s, v, x); }
    }
  }

  lemma {:induction false} SkipWorded(h0: Graph, r0: Ref, s: State, v: Ref, r: Ref, rest: seq<Ref>)
    requires Worded(h0, r0, s) && Skippable(s, v, r)
    ensures Worded(h0, r0, Skipping(s, v, r, rest))
  {
    hide Prints, Bypassed, Passes;
    if s.parents[v].Some? {
      BypassKeepsWords(s.h, s.parents[v].value, v, r);
    } else {
      forall w ensures Prints(h0, r, w) <==> Prints(h0, r0, w) {
        PassesSameWords(s.h, v, r, w);
      }
    }
  }

  lemma {:induction false} SkipKeeps(h0: Graph, r0: Ref, rank: map<Ref, nat>, s: State, v: Ref, r: Ref, rest: seq<Ref>)
    requires Invariant(h0, r0, rank, s) && s.queue == [v] + rest && v in s.h && Passes(s.h, v, r) && r in Kids(s.h[v])
    requires v in s.parents && (s.parents[v].Some? ==> s.parents[v].value in s.h)
    ensures Invariant(h0, r0, rank, Skipping(s, v, r, rest))
  {
    hide Owned, Untouched, Reached, Worded, Passes, Skipping;
    assert s.queue[0] == v && Waits(s, v);
    KidIsOther(h0, rank, s, v, r);
    assert s.done !! s.dead;
    hide Shaped, Waiting, Waits;
    assert Skippable(s, v, r);
    KidOfWaiting(h0, s, v, r);
    SkipShaped(h0, rank, s, v, r, rest);
    SkipOwned(s, v, r, rest);
    SkipUntouched(h0, s, v, r, rest);
    SkipWaiting(h0, s, v, r, rest);
    SkipReached(s, v, r, rest);
    SkipWorded(h0, r0, s, v, r, rest);
  }

  // ---------- what is left ----------

  /** The tokens that were passed stay, with what has become of their children so far. */
  ghost predicate Contracting(h0: Graph, r0: Ref, s: State) {
    && Becomes(h0, r0, s.root)
    && forall x :: x in s.done ==> Stays(h0, x) && SameBut(h0, s.h, x)
  }

  /** A waiting token is as it was, with its children. */
  lemma {:induction false} WaitingStays(h0: Graph, s: State, v: Ref)
    requires Untouched(h0, s) && Waits(s, v)
    ensures v in s.h && v in h0 && s.h[v] == h0[v] && (Stays(h0, v) <==> Minimized(s.h, s.h[v]).None?)
    ensures Minimized(s.h, s.h[v]).Some? ==> Kids(h0[v]) == [Minimized(s.h, s.h[v]).value]
  {
    assert Fresh(s, v);
    assert forall k :: k in Kids(h0[v]) ==> k in h0 && k in s.h && s.h[k] == h0[k];
    if Minimized(s.h, s.h[v]).Some? { MinimizedPasses(s.h, v); }
    if h0[v].Scope? { assert h0[v].token in Kids(h0[v]); }
  }

  lemma {:induction false} PassingContracts(h0: Graph, r0: Ref, s: State, v: Ref, rest: seq<Ref>)
    requires Contracting(h0, r0, s) && Untouched(h0, s) && Waits(s, v) && v in s.h && Minimized(s.h, s.h[v]).None?
    ensures Contracting(h0, r0, Passing(s, v, rest))
  {
    WaitingStays(h0, s, v);
    hide Untouched, Waits, Stays, Minimized, Becomes;
    forall i | 0 <= i < |Kids(h0[v])| ensures Becomes(h0, Kids(h0[v])[i], Kids(s.h[v])[i]) {
      BecomesItself(h0, Kids(h0[v])[i]);
    }
    KindOfItself(h0[v]);
  }

  lemma {:induction false} KindOfItself(n: Node)
    ensures SameKind(n, n)
  {
  }

  lemma {:induction false} SkippingContracts(h0: Graph, r0: Ref, s: State, v: Ref, r: Ref, rest: seq<Ref>)
    requires Contracting(h0, r0, s) && Untouched(h0, s) && Waits(s, v) && v in s.h
    requires Minimized(s.h, s.h[v]) == Some(r)
    requires v in s.parents && (s.parents[v].Some? ==> s.parents[v].value in s.h)
    ensures Contracting(h0, r0, Skipping(s, v, r, rest))
  {
    WaitingStays(h0, s, v);
    if s.parents[v].None? {
      assert s.root == v;
      hide *;
      BecomesOn(h0, r0, v, r);
      RootSkipped(h0, r0, s, v, r, rest);
    } else {
      hide *;
      forall x | x in s.done ensures Stays(h0, x) && SameBut(h0, s.h, x) {
        DoneStays(h0, r0, s, x);
      }
      var p := s.parents[v].value;
      forall x | x in s.done ensures SameBut(h0, Bypassed(s.h, p, v, r), x) {
        SameButSkipped(h0, s.h, p, v, r, x);
      }
      KidSkipped(h0, r0, s, v, r, rest, p);
    }
  }

  lemma {:induction false} DoneStays(h0: Graph, r0: Ref, s: State, x: Ref)
    requires Contracting(h0, r0, s) && x in s.done
    ensures Stays(h0, x) && SameBut(h0, s.h, x)
  {
    hide Stays, SameBut, Becomes;
  }

  lemma {:induction false} RootSkipped(h0: Graph, r0: Ref, s: State, v: Ref, r: Ref, rest: seq<Ref>)
    requires Contracting(h0, r0, s) && v in s.parents && s.parents[v].None? && Becomes(h0, r0, r)
    ensures Contracting(h0, r0, Skipping(s, v, r, rest))
  {
    hide Stays, SameBut, Becomes;
  }

  lemma {:induction false} KidSkipped(h0: Graph, r0: Ref, s: State, v: Ref, r: Ref, rest: seq<Ref>, p: Ref)
    requires Contracting(h0, r0, s) && v in s.parents && s.parents[v] == Some(p) && p in s.h
    requires forall x :: x in s.done ==> SameBut(h0, Bypassed(s.h, p, v, r), x)
    ensures Contracting(h0, r0, Skipping(s, v, r, rest))
  {
    hide Stays, SameBut, Becomes, Bypassed;
  }

  lemma {:induction false} SameButSkipped(h0: Graph, h: Graph, p: Ref, v: Ref, r: Ref, x: Ref)
    requires SameBut(h0, h, x) && p in h && v in h0 && !Stays(h0, v) && Kids(h0[v]) == [r]
    ensures SameBut(h0, Bypassed(h, p, v, r), x)
  {
    hide Stays, Becomes;
    SkipKids(h, p, v, r, x);
    var g := Bypassed(h, p, v, r);
    forall i | 0 <= i < |Kids(h0[x])| ensures Becomes(h0, Kids(h0[x])[i], Kids(g[x])[i]) {
      if x == p && Kids(h[x])[i] == v { BecomesOn(h0, Kids(h0[x])[i], v, r); }
    }
  }

  // ---------- the start and the measure ----------

  lemma {:induction false} StartHolds(h: Graph, r: Ref, rank: map<Ref, nat>)
    requires PlainTree(h, r, rank)
    ensures Invariant(h, r, rank, State(h, r, map[r := None], [r], {}, {}))
  {
    StartOwned(h, r, rank);
    StartWaits(h, r);
    hide Owned, Untouched, Waiting, Reached, Prints, UniqueParent, Orphan;
  }

  lemma {:induction false} StartOwned(h: Graph, r: Ref, rank: map<Ref, nat>)
    requires PlainTree(h, r, rank)
    ensures var s := State(h, r, map[r := None], [r], {}, {}); Owned(s) && Untouched(h, s)
  {
    hide Acyclic;
  }

  lemma {:induction false} StartWaits(h: Graph, r: Ref)
    requires r in h
    ensures var s := State(h, r, map[r := None], [r], {}, {}); Waiting(s) && Reached(s)
  {
    assert [r][0] == r;
  }

  /** The tokens at and below those that wait. */
  lemma {:induction false} SizeAllSplit(size: map<Ref, nat>, a: seq<Ref>, b: seq<Ref>)
    ensures SizeAll(size, a + b) == SizeAll(size, a) + SizeAll(size, b)
  {
    if a == [] {
      assert a + b == b;
    } else {
      assert (a + b)[1..] == a[1..] + b;
      SizeAllSplit(size, a[1..], b);
    }
  }

  lemma {:induction false} SizeAllOne(size: map<Ref, nat>, k: Ref)
    ensures SizeAll(size, [k]) == SizeOf(size, k)
  {
  }

  /** A waiting token has its original children, so going on to them leaves less to do. */
  lemma {:induction false} Lighter(h0: Graph, r0: Ref, rank: map<Ref, nat>, s: State, size: map<Ref, nat>, v: Ref,
          rest: seq<Ref>)
    requires Invariant(h0, r0, rank, s) && s.queue == [v] + rest && Exact(h0, h0.Keys, size)
    ensures v in s.h && v in s.parents && Waits(s, v)
    ensures SizeAll(size, Kids(s.h[v]) + rest) < SizeAll(size, [v] + rest)
    ensures forall r :: Kids(s.h[v]) == [r] ==> SizeAll(size, [r] + rest) < SizeAll(size, [v] + rest)
  {
    hide Shaped, Owned, Reached, Worded;
    assert s.queue[0] == v && Waits(s, v) && Fresh(s, v);
    hide Waiting, Untouched;
    assert s.h[v] == h0[v] by { FreshSame(h0, s, v); }
    SizeAllSplit(size, Kids(s.h[v]), rest);
    SizeAllSplit(size, [v], rest);
    SizeAllOne(size, v);
  }

  lemma {:induction false} FreshSame(h0: Graph, s: State, v: Ref)
    requires Untouched(h0, s) && Fresh(s, v)
    ensures v in h0 && s.h[v] == h0[v]
  {
  }

  lemma {:induction false} MinimizedPasses(h: Graph, v: Ref)
    requires v in h && Minimized(h, h[v]).Some?
    ensures Passes(h, v, Minimized(h, h[v]).value) && Kids(h[v]) == [Minimized(h, h[v]).value]
  {
    match h[v]
    case Concat(ts) => assert ts == [ts[0]];
    case One(ts) => assert ts == [ts[0]];
    case _ =>
  }

  // ---------- the algorithm ----------

  class Minimizer {
    var nodes: Graph
    var root: Ref
    var parents: map<Ref, Option<Ref>>
    var queue: seq<Ref>
    ghost const h0: Graph
    ghost const r0: Ref
    /** Everything that can be reached. */
    ghost const part: set<Ref>
    ghost const rank: map<Ref, nat>
    ghost const size: map<Ref, nat>
    ghost var done: set<Ref>
    ghost var dead: set<Ref>

    ghost function Now(): State
      reads this
    {
      State(Part(nodes, part), root, parents, queue, done, dead)
    }

    ghost predicate Valid()
      reads this
    {
      && Invariant(Part(h0, part), r0, rank, Now()) && Exact(Part(h0, part), Part(h0, part).Keys, size)
      && nodes.Keys == h0.Keys && SameWords(h0, nodes) && Contracting(Part(h0, part), r0, Now())
    }

    constructor (h: Graph, r: Ref, ghost s: set<Ref>, ghost rank: map<Ref, nat>)
      requires PlainTreeIn(h, s, r, rank)
      ensures Valid() && h0 == h && r0 == r && part == s && this.rank == rank && queue == [r]
    {
      hide Invariant, UniqueParent, Orphan;
      nodes, root, parents, queue := h, r, map[], [];
      h0, r0, part, this.rank, done, dead := h, r, s, rank, {}, {};
      ghost var sz := SizesExist(Part(h, s), rank);
      size := sz;
      queue := [r];
      parents := map[r := None];
      new;
      StartHolds(Part(h, s), r, rank);
      BecomesItself(Part(h, s), r);
    }

    /** Put r in the place of v. */
    method Replace(v: Ref, r: Ref)
      requires v in parents && (parents[v].Some? ==> parents[v].value in nodes)
      modifies this`nodes, this`root
      ensures nodes == if parents[v].Some? then Bypassed(old(nodes), parents[v].value, v, r) else old(nodes)
      ensures root == if parents[v].None? then r else old(root)
    {
      match parents[v] {
        case None => root := r;
        case Some(p) => nodes := nodes[p := ReplaceIn(nodes[p], v, r)];
      }
    }

    /** The children of v go in front of the queue, the first one first. */
    method Unshift(v: Ref)
      requires v in nodes
      modifies this`queue, this`parents
      ensures queue == Kids(nodes[v]) + old(queue)
      ensures parents == old(parents) + map k | k in Kids(nodes[v]) :: Some(v)
    {
      var ts := Kids(nodes[v]);
      var i := |ts|;
      assert ts[i..] + queue == queue;
      while i > 0
        invariant 0 <= i <= |ts| && queue == ts[i..] + old(queue)
        invariant parents == old(parents) + map k | k in ts[i..] :: Some(v)
      {
        i := i - 1;
        assert ts[i..] == [ts[i]] + ts[i + 1..];
        queue := [ts[i]] + queue;
        parents := parents[ts[i] := Some(v)];
      }
      assert ts[i..] == ts;
    }

    method Run()
      requires Valid() && queue != []
      modifies this
      ensures Valid() && queue == []
    {
      hide Invariant, SizeAll, Exact, Contracting;
      while queue != []
        invariant Valid()
        decreases SizeAll(size, queue)
      {
        ghost var s, rest, g := Now(), queue[1..], nodes;
        var v := queue[0];
        assert queue == [v] + rest;
        Lighter(Part(h0, part), r0, rank, s, size, v, rest);
        ParentIn(s, v);
        MinimizedHere(Part(h0, part), r0, rank, s, nodes, part, v);
        UntouchedHere(Part(h0, part), r0, rank, s);
        queue := queue[1..];
        var m := Minimized(nodes, nodes[v]);
        if m.Some? {
          MinimizedPasses(nodes, v);
          MinimizedPasses(s.h, v);
          SkipKeeps(Part(h0, part), r0, rank, s, v, m.value, rest);
          SkippingContracts(Part(h0, part), r0, s, v, m.value, rest);
          Replace(v, m.value);
          ReplacedPart(h0, g, part, parents[v], v, m.value, nodes);
          queue := [m.value] + queue;
          parents := parents[m.value := parents[v]];
          dead := dead + {v};
          assert Now() == Skipping(s, v, m.value, rest);
        } else {
          PassingKeeps(Part(h0, part), r0, rank, s, v, rest);
          PassingContracts(Part(h0, part), r0, s, v, rest);
          Unshift(v);
          done := done + {v};
          assert Now() == Passing(s, v, rest);
        }
      }
    }
  }

  lemma {:induction false} UntouchedHere(h0: Graph, r0: Ref, rank: map<Ref, nat>, s: State)
    requires Invariant(h0, r0, rank, s)
    ensures Untouched(h0, s)
  {
    hide Shaped, Owned, Untouched, Waiting, Reached, Worded;
  }

  /** What is minimised lies in the part. */
  lemma {:induction false} MinimizedHere(h0: Graph, r0: Ref, rank: map<Ref, nat>, s: State, g: Graph, part: set<Ref>,
          v: Ref)
    requires Invariant(h0, r0, rank, s) && s.h == Part(g, part) && v in s.h
    ensures v in g && g[v] == s.h[v] && Minimized(g, g[v]) == Minimized(s.h, s.h[v])
    ensures Minimized(g, g[v]).None? ==> !Single(g[v])
  {
    hide Owned, Untouched, Waiting, Reached, Worded, Acyclic;
    assert forall k :: k in Kids(s.h[v]) ==> k in s.h;
  }

  lemma {:induction false} ReplacedPart(h0: Graph, g: Graph, part: set<Ref>, p: Option<Ref>, v: Ref, r: Ref, g': Graph)
    requires Passes(g, v, r) && SameWords(h0, g) && (p.Some? ==> p.value in Part(g, part))
    requires g' == if p.Some? then Bypassed(g, p.value, v, r) else g
    ensures SameWords(h0, g') && g'.Keys == g.Keys
    ensures Part(g', part) == if p.Some? then Bypassed(Part(g, part), p.value, v, r) else Part(g, part)
  {
    if p.Some? {
      hide Passes, Prints;
      BypassKeepsWords(g, p.value, v, r);
    }
  }

  lemma {:induction false} ParentIn(s: State, v: Ref)
    requires Waits(s, v)
    ensures v in s.parents && (s.parents[v].Some? ==> s.parents[v].value in s.h)
  {
  }

  /** Whatever is reached at the end was passed. */
  lemma {:induction false} MinimizedPath(s: State, p: seq<Ref>)
    requires Reached(s) && s.queue == [] && s.done <= s.h.Keys && Path(s.h, s.root, p)
    ensures Last(p) in s.done && Last(p) in s.h && !Single(s.h[Last(p)])
  {
    var q := p[..|p| - 1];
    if |p| > 1 {
      assert Path(s.h, s.root, q) && Last(q) == p[|p| - 2];
      MinimizedPath(s, q);
      assert Last(p) in Kids(s.h[Last(q)]);
    }
  }

  /**
   * The minimised tree prints what the tree printed, so does every token of the store, and no Concatenation
   * and no One with exactly one child can be reached. It is the tree without those and without the Scopes
   * around a Scope; everything else is there, as it was.
   */
  method MinimizeTokens(h: Graph, r: Ref, ghost part: set<Ref>, ghost rank: map<Ref, nat>) returns (g: Graph, s: Ref)
    requires PlainTreeIn(h, part, r, rank)
    ensures forall w :: Prints(g, s, w) <==> Prints(h, r, w)
    ensures SameWords(h, g) && g.Keys == h.Keys
    ensures forall p :: Path(g, s, p) ==> Last(p) in g && !Single(g[Last(p)]) && !g[Last(p)].Pointer?
    ensures Contracted(h, r, g, s)
    ensures forall p :: Path(h, r, p) && Stays(h, Last(p)) ==> exists q :: Path(g, s, q) && Last(q) == Last(p)
  {
    hide Contracting, Contracted, Stays;
    hide Invariant, Path, Prints, Single, Last, SameWords, Exact, PlainTreeIn, Part;
    var m := new Minimizer(h, r, part, rank);
    m.Run();
    g, s := m.nodes, m.root;
    MinimizedResult(h, r, part, rank, g, m.Now());
    MinimizedShape(h, r, part, rank, g, m.Now());
    forall p | Path(h, r, p) && Stays(h, Last(p)) ensures exists q :: Path(g, s, q) && Last(q) == Last(p) {
      ghost var q := WhatStaysIsReached(h, r, g, s, p);
    }
  }

  lemma {:induction false} MinimizedResult(h0: Graph, r0: Ref, part: set<Ref>, rank: map<Ref, nat>, g: Graph, s: State)
    requires PlainTreeIn(h0, part, r0, rank) && SameWords(h0, g) && s.queue == [] && s.h == Part(g, part)
    requires Invariant(Part(h0, part), r0, rank, s)
    ensures forall w :: Prints(g, s.root, w) <==> Prints(h0, r0, w)
    ensures forall p :: Path(g, s.root, p) ==> Last(p) in g && !Single(g[Last(p)]) && !g[Last(p)].Pointer?
  {
    assert r0 in Part(h0, part) && s.root in Part(h0, part);
    hide Owned, Untouched, Waiting, Prints, Path, Acyclic, Single, Reached, Last, PlainTreeIn;
    forall p | Path(g, s.root, p) ensures Last(p) in g && !Single(g[Last(p)]) && !g[Last(p)].Pointer? {
      PartPath(g, part, s.root, p);
      hide Closed;
      MinimizedPath(s, p);
    }
    forall w ensures Prints(g, s.root, w) <==> Prints(h0, r0, w) {
      PartPrints(h0, part, rank, r0, r0, w);
      PartPrints(h0, part, rank, r0, s.root, w);
    }
  }

  lemma {:induction false} MinimizedShape(h0: Graph, r0: Ref, part: set<Ref>, rank: map<Ref, nat>, g: Graph, s: State)
    requires PlainTreeIn(h0, part, r0, rank) && s.queue == [] && s.h == Part(g, part) && g.Keys == h0.Keys
    requires Invariant(Part(h0, part), r0, rank, s) && Contracting(Part(h0, part), r0, s)
    ensures Contracted(h0, r0, g, s.root)
  {
    assert Closed(Part(h0, part)) by { hide UniqueParent, Acyclic, Orphan; }
    assert Closed(s.h) && s.root in s.h && Reached(s) && s.done <= s.h.Keys by {
      hide Owned, Untouched, Waiting, Reached, Worded, Acyclic, PlainTreeIn;
    }
    hide Closed, Reached, PlainTreeIn, Invariant;
    BecomesLarger(h0, part, r0, s.root);
    forall p | Path(g, s.root, p) ensures Stays(h0, Last(p)) && SameBut(h0, g, Last(p)) {
      hide Stays, Path, Last, SameBut, Becomes;
      PartPath(g, part, s.root, p);
      MinimizedPath(s, p);
      DoneStays(Part(h0, part), r0, s, Last(p));
      SameButLarger(h0, g, part, Last(p));
    }
  }

  lemma {:induction false} SameButLarger(h0: Graph, g: Graph, part: set<Ref>, x: Ref)
    requires Closed(Part(h0, part)) && Stays(Part(h0, part), x) && SameBut(Part(h0, part), Part(g, part), x)
    ensures Stays(h0, x) && SameBut(h0, g, x)
  {
    StaysInLarger(h0, part, x);
    hide Stays, Becomes, Closed;
    forall i | 0 <= i < |Kids(h0[x])| ensures Becomes(h0, Kids(h0[x])[i], Kids(g[x])[i]) {
      BecomesLarger(h0, part, Kids(h0[x])[i], Kids(g[x])[i]);
    }
  }

  lemma {:induction false} PartPath(g: Graph, part: set<Ref>, r: Ref, p: seq<Ref>)
    requires Closed(Part(g, part)) && r in Part(g, part) && Path(g, r, p)
    ensures Path(Part(g, part), r, p) && Last(p) in Part(g, part)
  {
    var q := p[..|p| - 1];
    if |p| > 1 {
      assert Path(g, r, q);
      PartPath(g, part, r, q);
      assert p[|p| - 2] in g && p[|p| - 1] in Kids(g[p[|p| - 2]]);
      assert Last(q) == p[|p| - 2];
      forall i | 0 <= i < |p| - 1 ensures p[i] in Part(g, part) && p[i + 1] in Kids(Part(g, part)[p[i]]) {
        if i < |p| - 2 { assert q[i] in Part(g, part) && q[i + 1] in Kids(Part(g, part)[q[i]]); }
      }
    }
  }
}
