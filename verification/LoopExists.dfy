/** LoopExists (token/analyze.go): the search for a cycle that the strategies make before they start. */
module LoopDetection {
  import opened TokenGraphs
  import opened UnrollState
  import opened UnrollFresh

  /** Where a token leads: to its children, or for a pointer to what it points to. */
  function Next(n: Node): seq<Ref> {
    match n
    case Pointer(t) => if t.Some? then [t.value] else []
    case _ => Kids(n)
  }

  /** The i-th token that n is made of, or what it points to. */
  function Target(n: Node, i: nat): Option<Ref> {
    match n
    case Text(_) => None
    case Concat(ts) => if i < |ts| then Some(ts[i]) else None
    case One(ts) => if i < |ts| then Some(ts[i]) else None
    case Optional(t) => if i == 0 then Some(t) else None
    case Scope(t) => if i == 0 then Some(t) else None
    case Repeat(t, _, _) => if i == 0 then Some(t) else None
    case Pointer(t) => if i == 0 then t else None
  }

  ghost predicate Edge(h: Graph, x: Ref, y: Ref) {
    x in h && match h[x]
              case Text(_) => false
              case Concat(ts) => y in ts
              case One(ts) => y in ts
              case Optional(t) => y == t
              case Scope(t) => y == t
              case Repeat(t, _, _) => y == t
              case Pointer(t) => t == Some(y)
  }

  /** p leads from token to token. */
  ghost predicate Walk(h: Graph, p: seq<Ref>) {
    p != [] && forall i :: 0 <= i < |p| - 1 ==> Edge(h, p[i], p[i + 1])
  }

  ghost predicate Reachable(h: Graph, root: Ref, x: Ref) {
    exists p :: Walk(h, p) && p[0] == root && p[|p| - 1] == x
  }

  ghost predicate OnCycle(h: Graph, x: Ref) {
    exists p :: Walk(h, p) && |p| > 1 && p[0] == x && p[|p| - 1] == x
  }

  // ---------- routes ----------

  /** Where the route a of child positions leads from r. */
  ghost function At(h: Graph, r: Ref, a: seq<nat>): Option<Ref>
    decreases |a|
  {
    if r !in h then None
    else if a == [] then Some(r)
    else match Target(h[r], a[0])
         case Some(k) => At(h, k, a[1..])
         case None => None
  }

  /** a comes before b, or is b: a token comes before what is below it, and that before what follows. */
  predicate Before(a: seq<nat>, b: seq<nat>) {
    a == [] || (b != [] && (a[0] < b[0] || (a[0] == b[0] && Before(a[1..], b[1..]))))
  }

  /** The first position at which they differ is smaller in a. */
  predicate Left(a: seq<nat>, b: seq<nat>) {
    a != [] && b != [] && (a[0] < b[0] || (a[0] == b[0] && Left(a[1..], b[1..])))
  }

  /** At the end of b is a pointer to the token that a leads to. */
  ghost predicate LeadsBack(h: Graph, root: Ref, a: seq<nat>, b: seq<nat>) {
    && At(h, root, a).Some? && At(h, root, b).Some? && At(h, root, b).value in h
    && h[At(h, root, b).value] == Pointer(At(h, root, a))
  }

  /** A pointer is met that leads to a token that was met. */
  ghost predicate MeetsAgain(h: Graph, root: Ref) {
    exists a, b :: Before(a, b) && LeadsBack(h, root, a, b)
  }

  lemma {:induction false} AtOn(h: Graph, r: Ref, a: seq<nat>, b: seq<nat>)
    requires At(h, r, a).Some?
    ensures At(h, r, a + b) == At(h, At(h, r, a).value, b)
    decreases |a|
  {
    if a == [] {
      assert a + b == b;
    } else {
      AtOn(h, Next(h[r])[a[0]], a[1..], b);
      assert (a + b)[1..] == a[1..] + b;
    }
  }

  lemma {:induction false} AtIn(h: Graph, r: Ref, a: seq<nat>)
    requires At(h, r, a).Some?
    ensures At(h, r, a).value in h
    decreases |a|
  {
    if a != [] { AtIn(h, Next(h[r])[a[0]], a[1..]); }
  }

  lemma {:induction false} BeforeSame(a: seq<nat>, b: seq<nat>)
    ensures Before(a, a + b)
  {
    if a != [] {
      BeforeSame(a[1..], b);
      assert (a + b)[1..] == a[1..] + b;
    }
  }

  lemma {:induction false} BeforeOn(a: seq<nat>, b: seq<nat>, c: seq<nat>)
    requires Before(a, b)
    ensures Before(a, b + c)
  {
    if a != [] && a[0] == b[0] {
      BeforeOn(a[1..], b[1..], c);
      assert (b + c)[1..] == b[1..] + c;
    }
  }

  lemma {:induction false} LeftOn(a: seq<nat>, b: seq<nat>, c: seq<nat>, d: seq<nat>)
    requires Left(a, b)
    ensures Left(a + c, b + d) && !Before(b + d, a + c)
  {
    if a[0] == b[0] {
      LeftOn(a[1..], b[1..], c, d);
      assert (a + c)[1..] == a[1..] + c && (b + d)[1..] == b[1..] + d;
    }
  }

  lemma {:induction false} LeftSame(a: seq<nat>, k: nat, l: nat)
    requires k < l
    ensures Left(a + [k], a + [l])
  {
    if a != [] {
      LeftSame(a[1..], k, l);
      assert (a + [k])[1..] == a[1..] + [k] && (a + [l])[1..] == a[1..] + [l];
    }
  }

  /** Before a itself, of what is at and below a, comes only a. */
  lemma {:induction false} BelowIsLater(a: seq<nat>, b: seq<nat>)
    requires Before(a + b, a)
    ensures b == []
  {
    if a == [] {
      assert a + b == b;
    } else {
      assert (a + b)[1..] == a[1..] + b;
      BelowIsLater(a[1..], b);
    }
  }

  // ---------- what was taken and what waits ----------

  /** The queue has the tokens at the ends of these routes. */
  ghost predicate EndsAre(h: Graph, root: Ref, routes: seq<seq<nat>>, queue: seq<Ref>) {
    |routes| == |queue| && forall i :: 0 <= i < |routes| ==> At(h, root, routes[i]) == Some(queue[i])
  }

  ghost predicate Below(routes: seq<seq<nat>>, x: seq<nat>) {
    exists i :: 0 <= i < |routes| && routes[i] <= x
  }

  /** Every route was taken, or is at or below one that waits. */
  ghost predicate Covered(h: Graph, root: Ref, taken: seq<seq<nat>>, routes: seq<seq<nat>>) {
    forall x :: At(h, root, x).Some? ==> x in taken || Below(routes, x)
  }

  /** What waits is in order. */
  ghost predicate InOrder(routes: seq<seq<nat>>) {
    forall i, j :: 0 <= i < j < |routes| ==> Left(routes[i], routes[j])
  }

  /** What was taken comes before what waits. */
  ghost predicate Earlier(taken: seq<seq<nat>>, routes: seq<seq<nat>>) {
    forall a, i :: a in taken && 0 <= i < |routes| ==> Before(a, routes[i])
  }

  ghost predicate LedTo(h: Graph, root: Ref, taken: seq<seq<nat>>, x: Ref) {
    exists a :: a in taken && At(h, root, a) == Some(x)
  }

  /** lookup has the tokens that were taken. */
  ghost predicate Looked(h: Graph, root: Ref, taken: seq<seq<nat>>, lookup: set<Ref>) {
    forall x :: x in lookup <==> LedTo(h, root, taken, x)
  }

  /** Nothing that was taken leads back. */
  ghost predicate Clean(h: Graph, root: Ref, taken: seq<seq<nat>>) {
    forall a, b :: b in taken && Before(a, b) ==> !LeadsBack(h, root, a, b)
  }

  ghost predicate Searched(h: Graph, root: Ref, taken: seq<seq<nat>>, routes: seq<seq<nat>>, lookup: set<Ref>,
          queue: seq<Ref>)
  {
    && EndsAre(h, root, routes, queue) && Covered(h, root, taken, routes) && InOrder(routes) && Earlier(taken, routes)
    && Looked(h, root, taken, lookup) && Clean(h, root, taken)
  }

  /** The routes to the children of the token at b. */
  function Onward(b: seq<nat>, n: nat): (routes: seq<seq<nat>>)
    ensures |routes| == n && forall k :: 0 <= k < n ==> routes[k] == b + [k]
  {
    seq(n, k requires 0 <= k < n => b + [k])
  }

  lemma {:induction false} TakeEnds(h: Graph, root: Ref, routes: seq<seq<nat>>, queue: seq<Ref>)
    requires Closed(h) && TargetsIn(h, h.Keys) && EndsAre(h, root, routes, queue) && queue != [] && queue[0] in h
    ensures var ts := Next(h[queue[0]]);
            EndsAre(h, root, Onward(routes[0], |ts|) + routes[1..], ts + queue[1..])
  {
    var ts := Next(h[queue[0]]);
    var more := Onward(routes[0], |ts|) + routes[1..];
    forall i | 0 <= i < |more| ensures At(h, root, more[i]) == Some((ts + queue[1..])[i]) {
      if i < |ts| {
        AtOn(h, root, routes[0], [i]);
        assert ts[i] in ts && ts[i] in h;
        assert [i][1..] == [];
      }
    }
  }

  lemma {:induction false} TakeCovers(h: Graph, root: Ref, taken: seq<seq<nat>>, routes: seq<seq<nat>>, t: Ref)
    requires Covered(h, root, taken, routes) && routes != [] && At(h, root, routes[0]) == Some(t) && t in h
    ensures Covered(h, root, taken + [routes[0]], Onward(routes[0], |Next(h[t])|) + routes[1..])
  {
    var b, n := routes[0], |Next(h[t])|;
    var more := Onward(b, n) + routes[1..];
    forall x | At(h, root, x).Some? ensures x in taken + [b] || Below(more, x) {
      if x !in taken + [b] {
        var i :| 0 <= i < |routes| && routes[i] <= x;
        if i > 0 {
          assert more[n + i - 1] == routes[i];
        } else {
          var y := x[|b|..];
          assert x == b + y;
          assert (taken + [b])[|taken|] == b && b + [] == b;
          AtOn(h, root, b, y);
          assert y != [] && y[0] < n;
          assert more[y[0]] == b + [y[0]] && b + [y[0]] <= x;
        }
      }
    }
  }

  lemma {:induction false} TakeOrders(routes: seq<seq<nat>>, n: nat)
    requires InOrder(routes) && routes != []
    ensures InOrder(Onward(routes[0], n) + routes[1..])
  {
    var b := routes[0];
    var more := Onward(b, n) + routes[1..];
    forall i, j | 0 <= i < j < |more| ensures Left(more[i], more[j]) {
      if j < n {
        LeftSame(b, i, j);
      } else if i < n {
        LeftOn(b, routes[j - n + 1], [i], []);
        assert routes[j - n + 1] + [] == routes[j - n + 1];
      } else {
        assert more[i] == routes[i - n + 1] && more[j] == routes[j - n + 1];
      }
    }
  }

  lemma {:induction false} TakeIsEarlier(taken: seq<seq<nat>>, routes: seq<seq<nat>>, n: nat)
    requires Earlier(taken, routes) && InOrder(routes) && routes != []
    ensures Earlier(taken + [routes[0]], Onward(routes[0], n) + routes[1..])
  {
    var b := routes[0];
    var more := Onward(b, n) + routes[1..];
    forall a, i | a in taken + [b] && 0 <= i < |more| ensures Before(a, more[i]) {
      if a in taken {
        if i < n { BeforeOn(a, b, [i]); } else { assert more[i] == routes[i - n + 1]; }
      } else if i < n {
        BeforeSame(b, [i]);
      } else {
        LeftIsBefore(b, routes[i - n + 1]);
      }
    }
  }

  lemma {:induction false} LeftIsBefore(a: seq<nat>, b: seq<nat>)
    requires Left(a, b)
    ensures Before(a, b)
  {
    if a[0] == b[0] { LeftIsBefore(a[1..], b[1..]); }
  }

  lemma {:induction false} TakeLooks(h: Graph, root: Ref, taken: seq<seq<nat>>, b: seq<nat>, t: Ref, lookup: set<Ref>)
    requires Looked(h, root, taken, lookup) && At(h, root, b) == Some(t)
    ensures Looked(h, root, taken + [b], lookup + {t})
  {
    forall x ensures x in lookup + {t} <==> LedTo(h, root, taken + [b], x) {
      if LedTo(h, root, taken, x) {
        var a :| a in taken && At(h, root, a) == Some(x);
        assert a in taken + [b];
      }
      if x == t { assert b in taken + [b]; }
    }
  }

  /** A route that comes before the first one that waits was taken. */
  lemma {:induction false} EarlierIsTaken(h: Graph, root: Ref, taken: seq<seq<nat>>, routes: seq<seq<nat>>, a: seq<nat>)
    requires Covered(h, root, taken, routes) && InOrder(routes) && routes != []
    requires At(h, root, a).Some? && Before(a, routes[0])
    ensures a in taken || a == routes[0]
  {
    if a !in taken {
      var i :| 0 <= i < |routes| && routes[i] <= a;
      var y := a[|routes[i]|..];
      assert a == routes[i] + y;
      if i == 0 {
        BelowIsLater(routes[0], y);
        assert routes[0] + [] == routes[0];
      } else {
        assert routes[0] + [] == routes[0];
        LeftOn(routes[0], routes[i], [], y);
      }
    }
  }

  /** The pointer at b leads to a token that was met exactly if that is in lookup. */
  lemma {:induction false} LookupTells(h: Graph, root: Ref, taken: seq<seq<nat>>, routes: seq<seq<nat>>,
          lookup: set<Ref>, t: Ref)
    requires routes != [] && At(h, root, routes[0]) == Some(t) && t in h
    requires Covered(h, root, taken, routes) && InOrder(routes) && Earlier(taken, routes)
        && Looked(h, root, taken, lookup)
    ensures (exists a :: Before(a, routes[0]) && LeadsBack(h, root, a, routes[0]))
            <==> h[t].Pointer? && h[t].target.Some? && h[t].target.value in lookup + {t}
  {
    var b := routes[0];
    TakeLooks(h, root, taken, b, t, lookup);
    if a :| Before(a, b) && LeadsBack(h, root, a, b) {
      EarlierIsTaken(h, root, taken, routes, a);
      assert LedTo(h, root, taken + [b], h[t].target.value) by { assert a in taken + [b]; }
    }
    if h[t].Pointer? && h[t].target.Some? && h[t].target.value in lookup + {t} {
      var a :| a in taken + [b] && At(h, root, a) == Some(h[t].target.value);
      BeforeSame(b, []);
      assert b + [] == b;
      assert Before(a, b) && LeadsBack(h, root, a, b);
    }
  }

  lemma {:induction false} TakeClean(h: Graph, root: Ref, taken: seq<seq<nat>>, b: seq<nat>)
    requires Clean(h, root, taken) && !exists a :: Before(a, b) && LeadsBack(h, root, a, b)
    ensures Clean(h, root, taken + [b])
  {
    hide Before, LeadsBack;
  }

  lemma {:induction false} SearchedStart(h: Graph, root: Ref)
    requires root in h
    ensures Searched(h, root, [], [[]], {}, [root])
  {
    forall x | At(h, root, x).Some? ensures Below([[]], x) {
      var routes: seq<seq<nat>> := [[]];
      assert routes[0] <= x;
    }
    forall x ensures !LedTo(h, root, [], x) {
    }
  }

  /** The pointer that is taken leads back. */
  lemma {:induction false} SearchedFound(h: Graph, root: Ref, taken: seq<seq<nat>>, routes: seq<seq<nat>>,
          lookup: set<Ref>, queue: seq<Ref>)
    requires Searched(h, root, taken, routes, lookup, queue) && queue != [] && queue[0] in h
    requires var n := h[queue[0]]; n.Pointer? && n.target.Some? && n.target.value in lookup + {queue[0]}
    ensures MeetsAgain(h, root)
  {
    hide Covered, InOrder, Earlier, Looked, Clean, Before, LeadsBack;
    LookupTells(h, root, taken, routes, lookup, queue[0]);
  }

  /** One token is taken, and is not a pointer back. */
  lemma {:induction false} SearchedOn(h: Graph, root: Ref, taken: seq<seq<nat>>, routes: seq<seq<nat>>,
          lookup: set<Ref>, queue: seq<Ref>)
    requires Closed(h) && TargetsIn(h, h.Keys) && Searched(h, root, taken, routes, lookup, queue) && queue != []
        && queue[0] in h
    requires var n := h[queue[0]]; !(n.Pointer? && n.target.Some? && n.target.value in lookup + {queue[0]})
    ensures var t := queue[0];
            routes != []
                && Searched(h, root, taken + [routes[0]], Onward(routes[0], |Next(h[t])|) + routes[1..], lookup + {t},
                     Next(h[t]) + queue[1..])
  {
    var t, n := queue[0], |Next(h[queue[0]])|;
    assert At(h, root, routes[0]) == Some(t);
    TakeEnds(h, root, routes, queue);
    hide EndsAre, Covered, InOrder, Earlier, Looked, Clean, Before, LeadsBack;
    TakeCovers(h, root, taken, routes, t);
    TakeOrders(routes, n);
    TakeIsEarlier(taken, routes, n);
    TakeLooks(h, root, taken, routes[0], t, lookup);
    LookupTells(h, root, taken, routes, lookup, t);
    TakeClean(h, root, taken, routes[0]);
  }

  /** Nothing waits any more. */
  lemma {:induction false} SearchedAll(h: Graph, root: Ref, taken: seq<seq<nat>>, lookup: set<Ref>)
    requires Searched(h, root, taken, [], lookup, [])
    ensures !MeetsAgain(h, root)
  {
    hide Before;
    forall a, b | Before(a, b) ensures !LeadsBack(h, root, a, b) {
      if At(h, root, b).Some? {
        assert b in taken || Below([], b);
      }
    }
  }

  // ---------- why it stops ----------

  /** The tokens that were neither taken nor are next. */
  ghost function Unseen(h: Graph, lookup: set<Ref>, queue: seq<Ref>): nat {
    |h.Keys - lookup - (if queue == [] then {} else {queue[0]})|
  }

  lemma {:induction false} FewerUnseen(h: Graph, a: set<Ref>, b: set<Ref>, v: Ref)
    requires a <= b && v in h && v in b && v !in a
    ensures |h.Keys - b| < |h.Keys - a|
  {
    assert h.Keys - b <= (h.Keys - a) - {v};
    Smaller(h.Keys - b, (h.Keys - a) - {v});
  }

  lemma {:induction false} Smaller(a: set<Ref>, b: set<Ref>)
    requires a <= b
    ensures |a| <= |b|
  {
    assert |b - a| == |b| - |a|;
  }

  lemma {:induction false} SizeAllSplit(size: map<Ref, nat>, a: seq<Ref>, b: seq<Ref>)
    ensures SizeAll(size, a + b) == SizeAll(size, a) + SizeAll(size, b)
  {
    if a == [] {
      assert a + b == b;
    } else {
      assert (a + b)[1..] == a[1..] + b;
      SizeAllSplit(size, a[1..], b);
    }
  }

  /** Without following a pointer there is less to visit, and not more is unseen. */
  lemma {:induction false} LessToVisit(h: Graph, size: map<Ref, nat>, lookup: set<Ref>, t: Ref, queue: seq<Ref>)
    requires Closed(h) && Exact(h, h.Keys, size) && t in h
    ensures SizeAll(size, Kids(h[t]) + queue) < SizeAll(size, [t] + queue)
    ensures SizeAll(size, queue) < SizeAll(size, [t] + queue)
    ensures forall q :: Unseen(h, lookup + {t}, q) <= Unseen(h, lookup, [t] + queue)
  {
    SizeAllSplit(size, Kids(h[t]), queue);
    SizeAllSplit(size, [t], queue);
    assert SizeAll(size, [t]) == SizeOf(size, t) + SizeAll(size, [t][1..]);
    forall q ensures Unseen(h, lookup + {t}, q) <= Unseen(h, lookup, [t] + queue) {
      Smaller(h.Keys - (lookup + {t}) - (if q == [] then {} else {q[0]}), h.Keys - lookup - {t});
    }
  }

  /** Following a pointer to a token that was not taken leaves fewer unseen. */
  lemma {:induction false} FewerToSee(h: Graph, lookup: set<Ref>, t: Ref, v: Ref, queue: seq<Ref>)
    requires v in h && v !in lookup && v != t
    ensures Unseen(h, lookup + {t}, [v] + queue) < Unseen(h, lookup, [t] + queue)
  {
    FewerUnseen(h, lookup + {t}, lookup + {t} + {v}, v);
    assert h.Keys - (lookup + {t} + {v}) == h.Keys - (lookup + {t}) - {v};
    assert h.Keys - (lookup + {t}) == h.Keys - lookup - {t};
  }

  // ---------- the search ----------

  /** Take a token from the queue. */
  method Take(h: Graph, queue0: seq<Ref>, lookup0: set<Ref>) returns (queue: seq<Ref>, lookup: set<Ref>, found: bool)
    requires queue0 != [] && queue0[0] in h
    ensures lookup == lookup0 + {queue0[0]}
    ensures found <==> var n := h[queue0[0]]; n.Pointer? && n.target.Some? && n.target.value in lookup
    ensures !found ==> queue == Next(h[queue0[0]]) + queue0[1..]
  {
    var t := queue0[0];
    queue := queue0[1..];
    lookup := lookup0 + {t};
    found := false;
    match h[t] {
      case Pointer(v) =>
        if v.Some? {
          if v.value in lookup {
            found := true;
            return;
          }
          queue := [v.value] + queue;
        } else {
          assert [] + queue == queue;
        }
      case _ =>
        queue := Unshift(Kids(h[t]), queue);
    }
  }

  lemma {:induction false} Lighter(h: Graph, size: map<Ref, nat>, queue: seq<Ref>, lookup: set<Ref>)
    requires Closed(h) && TargetsIn(h, h.Keys) && Exact(h, h.Keys, size) && queue != [] && queue[0] in h
    requires var n := h[queue[0]]; !(n.Pointer? && n.target.Some? && n.target.value in lookup + {queue[0]})
    ensures var q, l := Next(h[queue[0]]) + queue[1..], lookup + {queue[0]};
            || Unseen(h, l, q) < Unseen(h, lookup, queue)
            || (Unseen(h, l, q) == Unseen(h, lookup, queue) && SizeAll(size, q) < SizeAll(size, queue))
  {
    hide SizeAll, Exact, Unseen;
    var t, rest := queue[0], queue[1..];
    assert queue == [t] + rest;
    LessToVisit(h, size, lookup, t, rest);
    if h[t].Pointer? && h[t].target.Some? {
      FewerToSee(h, lookup, t, h[t].target.value, rest);
    } else if h[t].Pointer? {
      assert [] + rest == rest;
    }
  }

  lemma {:induction false} FirstIn(h: Graph, root: Ref, taken: seq<seq<nat>>, routes: seq<seq<nat>>, lookup: set<Ref>,
          queue: seq<Ref>)
    requires Searched(h, root, taken, routes, lookup, queue) && queue != []
    ensures queue[0] in h && routes != []
  {
    AtIn(h, root, routes[0]);
  }

  /**
   * LoopExists ends on every graph whose cycles all pass through pointers. It finds something exactly if,
   * going through the graph from the root, token before children, children in order, a pointer is met
   * that leads to a token that was met before.
   */
  method LoopExists(h: Graph, root: Ref, ghost rank: map<Ref, nat>) returns (found: bool)
    requires Closed(h) && TargetsIn(h, h.Keys) && Acyclic(h, rank) && root in h
    ensures found <==> MeetsAgain(h, root)
    ensures found <==> (exists x :: Reachable(h, root, x) && OnCycle(h, x)) || Meets(h, root)
  {
    var lookup, queue := {}, [root];
    found := false;
    ghost var size := SizesExist(h, rank);
    ghost var taken, routes := [], [[]];
    YesMeans(h, rank, root);
    hide Reachable, OnCycle, Meets;
    hide SizeAll, Exact, Unseen, Acyclic, Closed, TargetsIn, Searched, MeetsAgain, Next;
    SearchedStart(h, root);
    while queue != []
      invariant !found && Searched(h, root, taken, routes, lookup, queue)
      decreases Unseen(h, lookup, queue), SizeAll(size, queue)
    {
      ghost var q, seen := queue, lookup;
      FirstIn(h, root, taken, routes, seen, q);
      queue, lookup, found := Take(h, queue, lookup);
      if found {
        SearchedFound(h, root, taken, routes, seen, q);
        return;
      }
      Lighter(h, size, q, seen);
      SearchedOn(h, root, taken, routes, seen, q);
      taken, routes := taken + [routes[0]], Onward(routes[0], |Next(h[q[0]])|) + routes[1..];
    }
    SearchedNone(h, root, taken, routes, lookup);
  }

  lemma {:induction false} SearchedNone(h: Graph, root: Ref, taken: seq<seq<nat>>, routes: seq<seq<nat>>,
          lookup: set<Ref>)
    requires Searched(h, root, taken, routes, lookup, [])
    ensures !MeetsAgain(h, root)
  {
    assert routes == [];
    hide Searched;
    SearchedAll(h, root, taken, lookup);
  }

  // ---------- what the answer means ----------

  lemma {:induction false} WalkRoute(h: Graph, p: seq<Ref>) returns (a: seq<nat>)
    requires Closed(h) && TargetsIn(h, h.Keys) && Walk(h, p) && p[0] in h
    ensures At(h, p[0], a) == Some(p[|p| - 1]) && |a| == |p| - 1
  {
    if |p| == 1 {
      a := [];
    } else {
      assert p[1] in Next(h[p[0]]);
      NextIn(h, p[0], p[1]);
      WalkRest(h, p);
      a := WalkRoute(h, p[1..]);
      var k :| 0 <= k < |Next(h[p[0]])| && Next(h[p[0]])[k] == p[1];
      a := [k] + a;
      assert a[1..] == a[1..];
    }
  }

  lemma {:induction false} NextIn(h: Graph, x: Ref, y: Ref)
    requires Closed(h) && TargetsIn(h, h.Keys) && x in h && y in Next(h[x])
    ensures y in h
  {
  }

  lemma {:induction false} WalkRest(h: Graph, p: seq<Ref>)
    requires Walk(h, p) && |p| > 1
    ensures Walk(h, p[1..])
  {
    var q := p[1..];
    forall i | 0 <= i < |q| - 1 ensures Edge(h, q[i], q[i + 1]) {
      assert Edge(h, p[i + 1], p[i + 2]);
    }
  }

  lemma {:induction false} WalkFront(h: Graph, p: seq<Ref>, n: nat)
    requires Walk(h, p) && 0 < n <= |p|
    ensures Walk(h, p[..n])
  {
    var q := p[..n];
    forall i | 0 <= i < |q| - 1 ensures Edge(h, q[i], q[i + 1]) {
      assert Edge(h, p[i], p[i + 1]);
    }
  }

  lemma {:induction false} WalkBack(h: Graph, p: seq<Ref>, n: nat)
    requires Walk(h, p) && n < |p|
    ensures Walk(h, p[n..])
  {
    var q := p[n..];
    forall i | 0 <= i < |q| - 1 ensures Edge(h, q[i], q[i + 1]) {
      assert Edge(h, p[n + i], p[n + i + 1]);
    }
  }

  /** A cycle passes through a pointer. */
  lemma {:induction false} PointerOn(h: Graph, rank: map<Ref, nat>, p: seq<Ref>) returns (i: nat)
    requires Closed(h) && TargetsIn(h, h.Keys) && Acyclic(h, rank) && Walk(h, p) && |p| > 1 && p[0] in h
    requires p[|p| - 1] in h && rank[p[|p| - 1]] >= rank[p[0]]
    ensures i < |p| - 1 && p[i] in h && h[p[i]].Pointer? && h[p[i]] == Pointer(Some(p[i + 1]))
  {
    assert p[1] in Next(h[p[0]]);
    if h[p[0]].Pointer? {
      i := 0;
    } else {
      NextIn(h, p[0], p[1]);
      assert rank[p[1]] < rank[p[0]];
      WalkRest(h, p);
      i := PointerOn(h, rank, p[1..]);
      i := i + 1;
    }
  }

  /** From x to what a pointer on the cycle leads to, and from there round to the pointer. */
  lemma {:induction false} Round(h: Graph, rank: map<Ref, nat>, x: Ref, c: seq<Ref>) returns (a: seq<nat>, b: seq<nat>)
    requires Closed(h) && TargetsIn(h, h.Keys) && Acyclic(h, rank) && x in h
    requires Walk(h, c) && |c| > 1 && c[0] == x && c[|c| - 1] == x
    ensures At(h, x, a).Some? && At(h, At(h, x, a).value, b).Some? && At(h, At(h, x, a).value, b).value in h
    ensures h[At(h, At(h, x, a).value, b).value] == Pointer(At(h, x, a))
  {
    var i := PointerOn(h, rank, c);
    hide *;
    WalkFront(h, c, i + 1);
    WalkBack(h, c, i + 1);
    WalkFront(h, c, i + 2);
    a := WalkRoute(h, c[..i + 2]);
    AtIn(h, x, a);
    var b1 := WalkRoute(h, c[i + 1..]);
    var b2 := WalkRoute(h, c[..i + 1]);
    AtOn(h, c[i + 1], b1, b2);
    b := b1 + b2;
  }

  /** Every cycle that can be reached is noticed. */
  lemma {:induction false} CycleMeetsAgain(h: Graph, rank: map<Ref, nat>, root: Ref, x: Ref)
    requires Closed(h) && TargetsIn(h, h.Keys) && Acyclic(h, rank) && root in h && Reachable(h, root, x)
        && OnCycle(h, x)
    ensures MeetsAgain(h, root)
  {
    var p :| Walk(h, p) && p[0] == root && p[|p| - 1] == x;
    var c :| Walk(h, c) && |c| > 1 && c[0] == x && c[|c| - 1] == x;
    assert Edge(h, c[0], c[1]);
    hide Closed, TargetsIn, Next, Acyclic, Walk, At, Before;
    var a0 := WalkRoute(h, p);
    var a1, b := Round(h, rank, x, c);
    var a := a0 + a1;
    AtOn(h, root, a0, a1);
    AtOn(h, root, a, b);
    BeforeSame(a, b);
    assert LeadsBack(h, root, a, a + b);
  }

  lemma {:induction false} RouteWalk(h: Graph, r: Ref, a: seq<nat>) returns (p: seq<Ref>)
    requires At(h, r, a).Some?
    ensures |p| == |a| + 1 && Walk(h, p) && p[0] == r && p[|p| - 1] == At(h, r, a).value
    decreases |a|
  {
    if a == [] {
      p := [r];
    } else {
      var q := RouteWalk(h, Next(h[r])[a[0]], a[1..]);
      p := [r] + q;
      forall i | 0 <= i < |p| - 1 ensures Edge(h, p[i], p[i + 1]) {
        if i > 0 { assert Edge(h, q[i - 1], q[i]); }
      }
    }
  }

  /** A pointer leads to a token that was met before, on a route that goes another way. */
  ghost predicate Meets(h: Graph, root: Ref) {
    exists a, b :: Left(a, b) && LeadsBack(h, root, a, b)
  }

  lemma {:induction false} BeforeIs(a: seq<nat>, b: seq<nat>)
    requires Before(a, b)
    ensures Left(a, b) || a <= b
  {
    if a != [] && a[0] == b[0] {
      BeforeIs(a[1..], b[1..]);
      assert a == [a[0]] + a[1..] && b == [b[0]] + b[1..];
    }
  }

  /** A pointer back on the same route closes a cycle. */
  lemma {:induction false} BackIsCycle(h: Graph, root: Ref, a: seq<nat>, b: seq<nat>)
    requires LeadsBack(h, root, a, b) && a <= b
    ensures At(h, root, a).Some?
    ensures Reachable(h, root, At(h, root, a).value) && OnCycle(h, At(h, root, a).value)
  {
    var x, c := At(h, root, a).value, b[|a|..];
    assert b == a + c;
    AtOn(h, root, a, c);
    AtIn(h, root, a);
    AtOn(h, x, c, [0]);
    assert [0][1..] == [] && At(h, x, c + [0]) == Some(x);
    hide At, Walk;
    var p := RouteWalk(h, root, a);
    var q := RouteWalk(h, x, c + [0]);
  }

  /**
   * The search answers yes exactly if a cycle can be reached, or a pointer leads to a token that was met
   * before on another way: a yes is right about cycles where no token is met on two ways.
   */
  lemma {:induction false} YesMeans(h: Graph, rank: map<Ref, nat>, root: Ref)
    requires Closed(h) && TargetsIn(h, h.Keys) && Acyclic(h, rank) && root in h
    ensures MeetsAgain(h, root) <==> (exists x :: Reachable(h, root, x) && OnCycle(h, x)) || Meets(h, root)
  {
    hide Reachable, OnCycle, LeadsBack, Closed, TargetsIn, Acyclic, Before, Left, Next;
    if MeetsAgain(h, root) {
      var a, b :| Before(a, b) && LeadsBack(h, root, a, b);
      BeforeIs(a, b);
      if a <= b {
        BackIsCycle(h, root, a, b);
        var x := At(h, root, a).value;
        assert Reachable(h, root, x) && OnCycle(h, x);
      } else {
        assert Left(a, b) && LeadsBack(h, root, a, b);
      }
    }
    if x :| Reachable(h, root, x) && OnCycle(h, x) {
      CycleMeetsAgain(h, rank, root, x);
    }
    if Meets(h, root) {
      var a, b :| Left(a, b) && LeadsBack(h, root, a, b);
      LeftIsBefore(a, b);
      assert Before(a, b) && LeadsBack(h, root, a, b);
    }
  }

  /** A token of any kind that is reached, and can be reached again from one of its own, makes the search answer yes. */
  lemma {:induction false} LoopThrough(h: Graph, rank: map<Ref, nat>, root: Ref, x: Ref, k: Ref)
    requires Closed(h) && TargetsIn(h, h.Keys) && Acyclic(h, rank) && root in h && x in h
    requires Reachable(h, root, x) && Reachable(h, k, x)
    requires || h[x] == Optional(k) || h[x] == Scope(k) || (h[x].Repeat? && h[x].token == k)
             || (h[x].Concat? && k in h[x].tokens) || (h[x].One? && k in h[x].tokens) || h[x] == Pointer(Some(k))
    ensures MeetsAgain(h, root)
  {
    assert Edge(h, x, k);
    hide *;
    BackCloses(h, x, k);
    CycleMeetsAgain(h, rank, root, x);
  }

  lemma {:induction false} BackCloses(h: Graph, x: Ref, k: Ref)
    requires Edge(h, x, k) && Reachable(h, k, x)
    ensures OnCycle(h, x)
  {
    hide Edge;
    var p :| Walk(h, p) && p[0] == k && p[|p| - 1] == x;
    var c := [x] + p;
    forall i | 0 <= i < |c| - 1 ensures Edge(h, c[i], c[i + 1]) {
      if i > 0 { assert Edge(h, p[i - 1], p[i]); }
    }
    assert Walk(h, c) && c[0] == x && c[|c| - 1] == x;
  }

  /** Then the token is reached by two routes, one of which ends with the pointer. */
  lemma {:induction false} MeetsOnTwoRoutes(h: Graph, root: Ref) returns (a: seq<nat>, b: seq<nat>)
    requires Closed(h) && TargetsIn(h, h.Keys) && Meets(h, root)
    ensures Left(a, b + [0]) && At(h, root, a).Some? && At(h, root, b + [0]) == At(h, root, a)
  {
    a, b :| Left(a, b) && LeadsBack(h, root, a, b);
    AtIn(h, root, a);
    AtOn(h, root, b, [0]);
    assert [0][1..] == [];
    LeftOn(a, b, [], [0]);
    assert a + [] == a;
  }

  /** A graph without a cycle, in which two pointers lead to the same token. */
  function TwoPointers(): Graph {
    map[0 := Concat([1, 2]), 1 := Pointer(Some(3)), 2 := Pointer(Some(3)), 3 := Text("x")]
  }

  /** A cycle is not needed: two pointers to a token are enough. */
  lemma {:induction false} FindsMoreThanCycles()
    ensures Meets(TwoPointers(), 0)
    ensures forall x :: !OnCycle(TwoPointers(), x)
  {
    var h := TwoPointers();
    assert h[0] == Concat([1, 2]) && h[1] == Pointer(Some(3)) && h[2] == Pointer(Some(3));
    assert [0, 0][1..] == [0] && [0][1..] == [] && [1][1..] == [];
    assert At(h, 3, []) == Some(3) && At(h, 1, [0]) == Some(3) && At(h, 2, []) == Some(2);
    assert At(h, 0, [0, 0]) == Some(3) && At(h, 0, [1]) == Some(2);
    assert Left([0, 0], [1]) && LeadsBack(h, 0, [0, 0], [1]);
    forall p | Walk(h, p) && |p| > 1 ensures p[0] != p[|p| - 1] {
      WalkDown(h, p);
    }
  }

  function Depth(x: Ref): nat {
    if x == 0 then 2 else if x == 3 then 0 else 1
  }

  lemma {:induction false} WalkDown(h: Graph, p: seq<Ref>)
    requires h == TwoPointers() && Walk(h, p) && |p| > 1
    ensures Depth(p[|p| - 1]) < Depth(p[0])
  {
    var q := p[..|p| - 1];
    assert Edge(h, p[|p| - 2], p[|p| - 1]);
    if |q| > 1 {
      WalkDown(h, q);
    }
  }

  /** The children in front of the queue, the first one first. */
  method Unshift(ts: seq<Ref>, queue: seq<Ref>) returns (q: seq<Ref>)
    ensures q == ts + queue
  {
    q := queue;
    var i := |ts|;
    assert ts[i..] + queue == queue;
    while i > 0
      invariant 0 <= i <= |ts| && q == ts[i..] + queue
    {
      i := i - 1;
      assert ts[i..] == [ts[i]] + ts[i + 1..];
      q := [ts[i]] + q;
    }
    assert ts[i..] == ts;
  }
}
