/** InternalLogicalRemove on the graph: what it leaves, and that it adds no words. */
module UnrollRemoval {
  import opened Onces
  import opened TokenGraphs
  import opened UnrollWords
  import opened UnrollState
  import opened UnrollCut

  /** ts without tok. The loop moves on after a removal, so it does not look at what came next. */
  function Dropped(ts: seq<Ref>, tok: Ref): seq<Ref> {
    if ts == [] then []
    else if ts[0] != tok then [ts[0]] + Dropped(ts[1..], tok)
    else if |ts| == 1 then []
    else [ts[1]] + Dropped(ts[2..], tok)
  }

  /** What the loop makes of ts when it has come to i. */
  function RestDropped(ts: seq<Ref>, i: nat, tok: Ref): seq<Ref> {
    if i <= |ts| then ts[..i] + Dropped(ts[i..], tok) else ts
  }

  /** The loop removes what is at i, and goes on behind what comes next. */
  lemma {:induction false} DroppedHere(ts: seq<Ref>, i: nat, tok: Ref)
    requires i < |ts| && ts[i] == tok
    ensures RestDropped(ts[..i] + ts[i + 1..], i + 1, tok) == RestDropped(ts, i, tok)
  {
    var us := ts[..i] + ts[i + 1..];
    assert ts[i..][0] == ts[i];
    if i + 1 <= |us| {
      assert us[..i + 1] == ts[..i] + [ts[i + 1]] && us[i + 1..] == ts[i + 2..];
      assert ts[i..][1] == ts[i + 1] && ts[i..][2..] == ts[i + 2..];
    } else {
      assert us == ts[..i] && |ts[i..]| == 1;
    }
  }

  lemma {:induction false} DroppedOn(ts: seq<Ref>, i: nat, tok: Ref)
    requires i < |ts| && ts[i] != tok
    ensures RestDropped(ts, i + 1, tok) == RestDropped(ts, i, tok)
  {
    assert ts[i..][0] == ts[i] && ts[i..][1..] == ts[i + 1..];
    assert ts[..i + 1] == ts[..i] + [ts[i]];
  }

  lemma {:induction false} DroppedFrom(ts: seq<Ref>, i: nat, tok: Ref)
    requires i == 0
    ensures RestDropped(ts, i, tok) == Dropped(ts, tok)
  {
    assert ts[..0] + Dropped(ts[0..], tok) == Dropped(ts, tok) by { assert ts[0..] == ts; }
  }

  lemma {:induction false} DroppedAll(ts: seq<Ref>, i: nat, tok: Ref)
    requires i >= |ts|
    ensures RestDropped(ts, i, tok) == ts
  {
    if i == |ts| { assert ts[..i] == ts && ts[i..] == []; }
  }

  lemma {:induction false} DroppedAmong(ts: seq<Ref>, tok: Ref, k: Ref)
    requires k in Dropped(ts, tok)
    ensures k in ts
  {
    if ts[0] != tok {
      if k != ts[0] { DroppedAmong(ts[1..], tok, k); }
    } else if k != ts[1] {
      DroppedAmong(ts[2..], tok, k);
    }
  }

  lemma {:induction false} DroppedNothing(ts: seq<Ref>, tok: Ref)
    requires tok !in ts
    ensures Dropped(ts, tok) == ts
  {
    if ts != [] {
      assert ts[0] in ts && forall y :: y in ts[1..] ==> y in ts;
      DroppedNothing(ts[1..], tok);
    }
  }

  /** It makes no difference if tok is there only once. */
  lemma {:induction false} DroppedOnce(ts: seq<Ref>, tok: Ref)
    requires NoRepeats(ts)
    ensures Dropped(ts, tok) == Removed(ts, tok)
  {
    if ts == [] {
    } else if ts[0] != tok {
      DroppedOnce(ts[1..], tok);
    } else if |ts| > 1 {
      assert ts[1..][0] == ts[1] && ts[1..][1..] == ts[2..];
      DroppedOnce(ts[2..], tok);
    }
  }

  /** The token p after the removal of tok from it, and whether p is still of use. */
  function LogicalRemoval(h: Graph, n: Node, tok: Ref): (Node, bool) {
    match n
    case Concat(ts) =>
      if tok !in ts then (n, true)
      else if tok in h && OptionalType(h[tok]) then (Concat(Dropped(ts, tok)), true)
      else (n, false)
    case One(ts) => (One(Removed(ts, tok)), Removed(ts, tok) != [])
    case Optional(t) => (n, t != tok)
    case Scope(t) => (n, t != tok)
    case Repeat(t, _, _) => (n, t != tok)
    case _ => (n, true)
  }

  lemma {:induction false} RemovedAmong(ts: seq<Ref>, x: Ref, k: Ref)
    ensures k in Removed(ts, x) <==> k in ts && k != x
  {
    if ts != [] {
      RemovedAmong(ts[1..], x, k);
      assert k in ts <==> k == ts[0] || k in ts[1..];
    }
  }

  lemma {:induction false} RemovedDistinct(ts: seq<Ref>, x: Ref)
    requires NoRepeats(ts)
    ensures NoRepeats(Removed(ts, x))
  {
    if ts != [] {
      RemovedDistinct(ts[1..], x);
      RemovedAmong(ts[1..], x, ts[0]);
    }
  }

  /** Without repetitions, removing a token is dropping its one occurrence. */
  lemma {:induction false} RemovedOnce(ts: seq<Ref>, i: nat)
    requires NoRepeats(ts) && i < |ts|
    ensures Removed(ts, ts[i]) == ts[..i] + ts[i + 1..] && ts[i] !in ts[..i] + ts[i + 1..]
  {
    RemovedSkip(ts, i, ts[i]);
    RemovedNothing(ts[..i] + ts[i + 1..], ts[i]);
  }

  /** What the removal must leave: fewer children, none of them the removed one, and no new words. */
  ghost predicate GoodRemoval(h0: Graph, h: Graph, src: Source, p: Ref, tok: Ref, n: Node, keep: bool)
    requires p in h
  {
    Fewer(n, h[p]) && Simulates(h0, h[p := n], src) && (keep ==> tok !in Kids(n))
  }

  lemma {:induction false} UnchangedIsGood(h0: Graph, h: Graph, src: Source, p: Ref, tok: Ref)
    requires Simulates(h0, h, src) && p in h && !h[p].Pointer? && NoRepeats(Kids(h[p]))
    ensures GoodRemoval(h0, h, src, p, tok, h[p], tok !in Kids(h[p]))
    ensures GoodRemoval(h0, h, src, p, tok, h[p], false)
  {
    hide Simulates;
    assert h[p := h[p]] == h;
  }

  lemma {:induction false} ConcatRemoval(h0: Graph, h: Graph, src: Source, p: Ref, tok: Ref)
    requires Simulates(h0, h, src) && p in h && h[p].Concat? && NoRepeats(h[p].tokens)
    requires tok in h[p].tokens && tok in h && OptionalType(h[tok])
    ensures GoodRemoval(h0, h, src, p, tok, Concat(Removed(h[p].tokens, tok)), true)
  {
    hide Simulates;
    var ts := h[p].tokens;
    var i :| 0 <= i < |ts| && ts[i] == tok;
    RemovedOnce(ts, i);
    RemovedDistinct(ts, tok);
    SimulatesDrop(h0, h, src, p, i);
    forall k ensures k in Removed(ts, tok) <==> k in ts && k != tok { RemovedAmong(ts, tok, k); }
  }

  lemma {:induction false} OneRemoval(h0: Graph, h: Graph, src: Source, p: Ref, tok: Ref)
    requires Simulates(h0, h, src) && p in h && h[p].One? && NoRepeats(h[p].tokens)
    ensures GoodRemoval(h0, h, src, p, tok, One(Removed(h[p].tokens, tok)), true)
  {
    hide Simulates;
    var ts := h[p].tokens;
    RemovedDistinct(ts, tok);
    forall k ensures k in Removed(ts, tok) <==> k in ts && k != tok { RemovedAmong(ts, tok, k); }
    SimulatesFewer(h0, h, src, p, Removed(ts, tok));
  }

  lemma {:induction false} RemovalKeeps(h0: Graph, h: Graph, src: Source, p: Ref, tok: Ref)
    requires Simulates(h0, h, src) && UniqueParent(h) && p in h && !h[p].Pointer?
    ensures var (n, keep) := LogicalRemoval(h, h[p], tok); GoodRemoval(h0, h, src, p, tok, n, keep)
  {
    assert NoRepeats(Kids(h[p]));
    hide Simulates, UniqueParent, Fewer, Removed, Dropped;
    UnchangedIsGood(h0, h, src, p, tok);
    match h[p]
    case Concat(ts) =>
      if tok in ts && tok in h && OptionalType(h[tok]) {
        DroppedOnce(ts, tok);
        ConcatRemoval(h0, h, src, p, tok);
      }
    case One(ts) => OneRemoval(h0, h, src, p, tok);
    case _ =>
  }
}
