/** The path query (token/expressions/path.go:80-145): what can be reached by connections, past barriers. */
module PathQueries {

  /** One element of the list: its own value, and the values it connects to. */
  datatype Element = Element(over: string, connectBy: seq<string>)

  /** The last element with the value tells what the value connects to. */
  function Connects(list: seq<Element>, c: string): seq<string> {
    if list == [] then []
    else if list[|list| - 1].over == c then list[|list| - 1].connectBy
    else Connects(list[..|list| - 1], c)
  }

  /** Element i is the last one with the value c. */
  ghost predicate LastOver(list: seq<Element>, i: int, c: string) {
    0 <= i < |list| && list[i].over == c && forall j :: i < j < |list| ==> list[j].over != c
  }

  /** The last element with the value a connects to b, and b is no barrier. */
  ghost predicate Step(list: seq<Element>, without: seq<string>, a: string, b: string) {
    b !in without && exists i :: LastOver(list, i, a) && b in list[i].connectBy
  }

  lemma {:induction false} ConnectsAt(list: seq<Element>, c: string, i: nat)
    requires LastOver(list, i, c)
    ensures Connects(list, c) == list[i].connectBy
  {
    var n := |list| - 1;
    if i < n {
      assert list[n].over != c && LastOver(list[..n], i, c);
      hide LastOver;
      ConnectsAt(list[..n], c, i);
    }
  }

  lemma {:induction false} LastExists(list: seq<Element>, c: string, i: nat) returns (k: nat)
    requires i < |list| && list[i].over == c
    ensures LastOver(list, k, c)
  {
    var n := |list| - 1;
    if list[n].over == c {
      k := n;
    } else {
      k := LastExists(list[..n], c, i);
    }
  }

  lemma {:induction false} ConnectsNothing(list: seq<Element>, c: string)
    requires forall i :: 0 <= i < |list| ==> list[i].over != c
    ensures Connects(list, c) == []
  {
    if list != [] { ConnectsNothing(list[..|list| - 1], c); }
  }

  lemma {:induction false} ConnectsLast(list: seq<Element>, c: string)
    ensures forall i :: LastOver(list, i, c) ==> Connects(list, c) == list[i].connectBy
    ensures (exists i :: 0 <= i < |list| && list[i].over == c) <==> exists i :: LastOver(list, i, c)
    ensures (exists i :: LastOver(list, i, c)) || Connects(list, c) == []
  {
    forall i | LastOver(list, i, c) ensures Connects(list, c) == list[i].connectBy { ConnectsAt(list, c, i); }
    hide Connects;
    if i :| 0 <= i < |list| && list[i].over == c {
      var k := LastExists(list, c, i);
    } else {
      ConnectsNothing(list, c);
    }
  }

  lemma {:induction false} StepConnects(list: seq<Element>, without: seq<string>, a: string, b: string)
    ensures Step(list, without, a, b) <==> b in Connects(list, a) && b !in without
  {
    ConnectsLast(list, a);
  }

  /** p follows connections to values that are no barriers; where it starts does not matter. */
  ghost predicate Chain(list: seq<Element>, without: seq<string>, p: seq<string>) {
    && p != []
    && forall i :: 0 <= i < |p| - 1 ==> Step(list, without, p[i], p[i + 1])
  }

  ghost predicate Reached(list: seq<Element>, without: seq<string>, from: string, v: string) {
    exists p :: Chain(list, without, p) && p[0] == from && p[|p| - 1] == v
  }

  lemma {:induction false} ReachedNext(list: seq<Element>, without: seq<string>, from: string, c: string, v: string)
    requires Reached(list, without, from, c) && v in Connects(list, c) && v !in without
    ensures Reached(list, without, from, v)
  {
    var p :| Chain(list, without, p) && p[0] == from && p[|p| - 1] == c;
    var q := p + [v];
    StepConnects(list, without, c, v);
    hide Step;
    assert Chain(list, without, q) && q[0] == from && q[|q| - 1] == v;
  }

  ghost predicate NoRepeats(path: seq<string>) {
    forall i, j :: 0 <= i < j < |path| ==> path[i] != path[j]
  }

  /** Each value after the first one is connected to by one that comes earlier. */
  ghost predicate LedTo(list: seq<Element>, without: seq<string>, path: seq<string>) {
    forall k :: 0 < k < |path| ==> LedAt(list, without, path, k)
  }

  ghost predicate LedAt(list: seq<Element>, without: seq<string>, path: seq<string>, k: int)
    requires 0 < k < |path|
  {
    exists j :: 0 <= j < k && Step(list, without, path[j], path[k])
  }

  // ---------- the invariant of the search ----------

  /** Everything on the path is reached, once, and nothing else is checked but barriers. */
  ghost predicate Sound(list: seq<Element>, without: seq<string>, from: string, path: seq<string>, checked: set<string>)
  {
    && path != [] && path[0] == from && NoRepeats(path) && LedTo(list, without, path)
    && (forall v :: v in path ==> Reached(list, without, from, v))
    && (forall v :: v in checked <==> v in path || v in without)
  }

  /** The connections of c were followed. */
  ghost predicate Followed(list: seq<Element>, checked: set<string>, c: string) {
    forall v :: v in Connects(list, c) ==> v in checked
  }

  ghost predicate Complete(list: seq<Element>, path: seq<string>, checked: set<string>, stack: seq<string>) {
    forall c :: c in path ==> c in stack || Followed(list, checked, c)
  }

  lemma {:induction false} SoundMore(list: seq<Element>, without: seq<string>, from: string, path: seq<string>,
          checked: set<string>, c: string, v: string)
    requires Sound(list, without, from, path, checked) && c in path && v in Connects(list, c) && v !in checked
    ensures Sound(list, without, from, path + [v], checked + {v})
  {
    ReachedNext(list, without, from, c, v);
    StepConnects(list, without, c, v);
    hide Step, Reached, Connects;
    LedMore(list, without, path, c, v);
    hide LedTo;
  }

  lemma {:induction false} LedMore(list: seq<Element>, without: seq<string>, path: seq<string>, c: string, v: string)
    requires LedTo(list, without, path) && c in path && Step(list, without, c, v)
    ensures LedTo(list, without, path + [v])
  {
    hide Step;
    var j :| 0 <= j < |path| && path[j] == c;
    var more := path + [v];
    forall k | 0 < k < |more| ensures LedAt(list, without, more, k) {
      if k < |path| {
        assert LedAt(list, without, path, k);
        var i :| 0 <= i < k && Step(list, without, path[i], path[k]);
        assert Step(list, without, more[i], more[k]);
      } else {
        assert Step(list, without, more[j], more[k]);
      }
    }
  }

  /** With nothing left to follow, every chain stays on the path. */
  lemma {:induction false} ChainOnPath(list: seq<Element>, without: seq<string>, from: string, path: seq<string>,
          checked: set<string>, p: seq<string>)
    requires Sound(list, without, from, path, checked) && Complete(list, path, checked, [])
    requires Chain(list, without, p) && p[0] == from
    ensures p[|p| - 1] in path
  {
    if |p| > 1 {
      var q := p[..|p| - 1];
      ChainOnPath(list, without, from, path, checked, q);
      assert Step(list, without, q[|q| - 1], p[|p| - 1]);
      StepConnects(list, without, q[|q| - 1], p[|p| - 1]);
      assert Followed(list, checked, q[|q| - 1]);
    }
  }

  // ---------- termination ----------

  function Values(vs: seq<string>): set<string> {
    set v | v in vs
  }

  /** All values that are connected to. */
  function Targets(list: seq<Element>): set<string> {
    if list == [] then {} else Targets(list[..|list| - 1]) + Values(list[|list| - 1].connectBy)
  }

  lemma {:induction false} ConnectsTargets(list: seq<Element>, c: string, v: string)
    requires v in Connects(list, c)
    ensures v in Targets(list)
  {
    if list[|list| - 1].over != c {
      ConnectsTargets(list[..|list| - 1], c, v);
    }
  }

  lemma {:induction false} FewerTargets(all: set<string>, checked: set<string>, v: string)
    requires v in all && v !in checked
    ensures |all - (checked + {v})| == |all - checked| - 1
  {
    assert all - (checked + {v}) == (all - checked) - {v};
  }

  // ---------- the order of the path ----------

  /** The values of n that are not in seen, each once, the last one first. */
  function New(n: seq<string>, seen: set<string>): (r: seq<string>)
    ensures forall v :: v in r ==> v in n && v !in seen
  {
    if n == [] then []
    else
      var v, front := n[|n| - 1], n[..|n| - 1];
      if v in seen then New(front, seen) else [v] + New(front, seen + {v})
  }

  /** If all of n are new, they come from the last to the first. */
  lemma {:induction false} NewIsBackwards(n: seq<string>, seen: set<string>)
    requires NoRepeats(n) && forall v :: v in n ==> v !in seen
    ensures |New(n, seen)| == |n| && forall i :: 0 <= i < |n| ==> New(n, seen)[i] == n[|n| - 1 - i]
  {
    if n != [] {
      var v, front := n[|n| - 1], n[..|n| - 1];
      assert forall i :: 0 <= i < |front| ==> n[i] != n[|n| - 1];
      NewIsBackwards(front, seen + {v});
    }
  }

  function Reversed(s: seq<string>): (r: seq<string>)
    ensures |r| == |s| && (forall v :: v in r ==> v in s) && forall i :: 0 <= i < |s| ==> r[i] == s[|s| - 1 - i]
  {
    if s == [] then [] else Reversed(s[1..]) + [s[0]]
  }

  lemma {:induction false} LessToSee(list: seq<Element>, c: string, seen: set<string>)
    ensures var r := New(Connects(list, c), seen);
            r != [] ==> |Targets(list) - (seen + Values(r))| < |Targets(list) - seen|
    ensures New(Connects(list, c), seen) == [] ==> seen + Values(New(Connects(list, c), seen)) == seen
  {
    var r := New(Connects(list, c), seen);
    if r != [] {
      ConnectsTargets(list, c, r[0]);
      var t, s := Targets(list), seen + Values(r);
      assert r[0] in t - seen && r[0] !in t - s && t - s <= t - seen;
      FewerValues(t - s, t - seen, r[0]);
    }
  }

  lemma {:induction false} FewerValues(a: set<string>, b: set<string>, v: string)
    requires a <= b && v in b && v !in a
    ensures |a| < |b|
  {
    assert |b - a| == |b| - |a| && v in b - a;
  }

  /** What is still to come for the values of the stack: the new connections of the first, and then theirs. */
  function Explored(list: seq<Element>, stack: seq<string>, seen: set<string>): seq<string>
    decreases |Targets(list) - seen|, |stack|
  {
    if stack == [] then []
    else
      var r := New(Connects(list, stack[0]), seen);
      LessToSee(list, stack[0], seen);
      r + Explored(list, Reversed(r) + stack[1..], seen + Values(r))
  }

  /** Everything below a is listed before anything below b. */
  lemma {:induction false} DepthFirst(list: seq<Element>, a: seq<string>, b: seq<string>, seen: set<string>)
    ensures Explored(list, a + b, seen)
         == Explored(list, a, seen) + Explored(list, b, seen + Values(Explored(list, a, seen)))
    decreases |Targets(list) - seen|, |a|
  {
    if a == [] {
      assert a + b == b && Explored(list, a, seen) == [] && seen + Values([]) == seen;
    } else {
      var r := New(Connects(list, a[0]), seen);
      LessToSee(list, a[0], seen);
      hide New, Connects, Explored, Reversed;
      DepthFirst(list, Reversed(r) + a[1..], b, seen + Values(r));
      DepthStep(list, a, b, seen, r, seen + Values(r));
    }
  }

  lemma {:induction false} DepthStep(list: seq<Element>, a: seq<string>, b: seq<string>, seen: set<string>,
          r: seq<string>, next: set<string>)
    requires a != [] && r == New(Connects(list, a[0]), seen) && next == seen + Values(r)
    requires Explored(list, Reversed(r) + a[1..] + b, next) == Explored(list, Reversed(r) + a[1..], next)
        + Explored(list, b, next + Values(Explored(list, Reversed(r) + a[1..], next)))
    ensures Explored(list, a + b, seen)
         == Explored(list, a, seen) + Explored(list, b, seen + Values(Explored(list, a, seen)))
  {
    hide *;
    ExploredNext(list, a, seen);
    ExploredNext(list, a + b, seen);
    var more := Reversed(r) + a[1..];
    assert (a + b)[1..] == a[1..] + b && Reversed(r) + (a + b)[1..] == more + b;
    SeenTwice(seen, r, Explored(list, more, next));
  }

  lemma {:induction false} SeenTwice(seen: set<string>, a: seq<string>, b: seq<string>)
    ensures seen + Values(a) + Values(b) == seen + Values(a + b)
  {
    assert forall v :: v in a + b <==> v in a || v in b;
  }

  lemma {:induction false} ExploredNext(list: seq<Element>, stack: seq<string>, seen: set<string>)
    requires stack != []
    ensures var r := New(Connects(list, stack[0]), seen);
            Explored(list, stack, seen) == r + Explored(list, Reversed(r) + stack[1..], seen + Values(r))
  {
    hide New, Connects, Targets, Reversed;
  }

  lemma {:induction false} ExploredNothing(list: seq<Element>, stack: seq<string>, seen: set<string>)
    requires stack != [] && Connects(list, stack[0]) == []
    ensures Explored(list, stack, seen) == Explored(list, stack[1..], seen)
  {
    ExploredNext(list, stack, seen);
    hide Explored, Targets;
    assert New([], seen) == [] && Reversed([]) + stack[1..] == stack[1..] && seen + Values([]) == seen;
  }

  /** With the connections of the first value on the path, the rest is as it was to be. */
  ghost predicate StillToCome(list: seq<Element>, path: seq<string>, stack: seq<string>, seen: set<string>,
          goal: seq<string>)
  {
    path + Explored(list, stack, seen) == goal
  }

  lemma {:induction false} GoneOn(list: seq<Element>, path: seq<string>, c: string, rest: seq<string>,
          seen: set<string>, goal: seq<string>)
    requires StillToCome(list, path, [c] + rest, seen, goal)
    ensures var r := New(Connects(list, c), seen);
            StillToCome(list, path + r, Reversed(r) + rest, seen + Values(r), goal)
    ensures Connects(list, c) == [] ==> StillToCome(list, path, rest, seen, goal)
  {
    var stack := [c] + rest;
    ExploredNext(list, stack, seen);
    if Connects(list, c) == [] { ExploredNothing(list, stack, seen); }
    hide Explored, New, Connects, Reversed, Values;
    assert stack[1..] == rest;
  }

  // ---------- the code ----------

  /** The map of the connections; a later element overrides an earlier one. */
  method BuildConnects(list: seq<Element>) returns (connects: map<string, seq<string>>)
    ensures forall c :: c in connects <==> exists i :: LastOver(list, i, c)
    ensures forall c, i :: LastOver(list, i, c) ==> c in connects && connects[c] == list[i].connectBy
    ensures forall c :: (if c in connects then connects[c] else []) == Connects(list, c)
  {
    connects := map[];
    var i := 0;
    while i < |list|
      invariant 0 <= i <= |list|
      invariant forall c :: (if c in connects then connects[c] else []) == Connects(list[..i], c)
      invariant forall c :: c in connects <==> exists j :: 0 <= j < i && list[j].over == c
    {
      assert list[..i + 1][..i] == list[..i];
      connects := connects[list[i].over := list[i].connectBy];
      i := i + 1;
    }
    assert list[..i] == list;
    forall c ensures c in connects <==> exists i :: LastOver(list, i, c) { ConnectsLast(list, c); }
    forall c, i | LastOver(list, i, c) ensures c in connects && connects[c] == list[i].connectBy {
      ConnectsLast(list, c);
    }
  }

  /** While the connections of c are followed, those from i on are done. */
  ghost predicate Following(list: seq<Element>, without: seq<string>, from: string, path: seq<string>,
          checked: set<string>, stack: seq<string>, c: string, n: seq<string>, i: nat)
  {
    && Sound(list, without, from, path, checked) && c in path && n == Connects(list, c) && i <= |n|
    && (forall s :: s in stack ==> s in path)
    && (forall x :: x in path ==> x == c || x in stack || Followed(list, checked, x))
    && forall j :: i <= j < |n| ==> n[j] in checked
  }

  lemma {:induction false} FollowingMore(list: seq<Element>, without: seq<string>, from: string, path: seq<string>,
          checked: set<string>, stack: seq<string>, c: string, n: seq<string>, i: nat)
    requires i < |n| && Following(list, without, from, path, checked, stack, c, n, i + 1)
    ensures n[i] in checked ==> Following(list, without, from, path, checked, stack, c, n, i)
    ensures n[i] !in checked ==>
              && Following(list, without, from, path + [n[i]], checked + {n[i]}, [n[i]] + stack, c, n, i)
              && |Targets(list) - (checked + {n[i]})| < |Targets(list) - checked|
  {
    hide Sound, Targets, Connects;
    var v := n[i];
    if v !in checked {
      SoundMore(list, without, from, path, checked, c, v);
      ConnectsTargets(list, c, v);
      FewerTargets(Targets(list), checked, v);
    }
  }

  lemma {:induction false} FollowingDone(list: seq<Element>, without: seq<string>, from: string, path: seq<string>,
          checked: set<string>, stack: seq<string>, c: string, n: seq<string>)
    requires Following(list, without, from, path, checked, stack, c, n, 0)
    ensures Sound(list, without, from, path, checked) && Complete(list, path, checked, stack) && OnPath(stack, path)
  {
    hide Sound, Connects;
  }

  ghost predicate OnPath(stack: seq<string>, path: seq<string>) {
    forall s :: s in stack ==> s in path
  }

  lemma {:induction false} FollowingStarts(list: seq<Element>, without: seq<string>, from: string, path: seq<string>,
          checked: set<string>, stack: seq<string>, c: string, n: seq<string>)
    requires n == Connects(list, c) && c in path && Sound(list, without, from, path, checked)
    requires Complete(list, path, checked, [c] + stack) && OnPath(stack, path)
    ensures Following(list, without, from, path, checked, stack, c, n, |n|)
  {
    hide Sound, Connects;
  }

  /** What is not checked yet among the connections n of c goes on the path and on the stack, the last one first. */
  method Follow(list: seq<Element>, without: seq<string>, from: string, c: string, n: seq<string>, path0: seq<string>,
          checked0: set<string>, stack0: seq<string>)
    returns (path: seq<string>, checked: set<string>, stack: seq<string>)
    requires n == Connects(list, c) && c in path0 && Sound(list, without, from, path0, checked0)
    requires Complete(list, path0, checked0, [c] + stack0) && OnPath(stack0, path0)
    ensures Sound(list, without, from, path, checked) && Complete(list, path, checked, stack) && OnPath(stack, path)
    ensures |Targets(list) - checked| < |Targets(list) - checked0| || (checked == checked0 && stack == stack0)
    ensures var r := New(n, checked0);
            path == path0 + r && checked == checked0 + Values(r) && stack == Reversed(r) + stack0
  {
    hide Sound, Complete, OnPath, Following, Connects, Targets, Listing, New, Reversed, Values;
    path, checked, stack := path0, checked0, stack0;
    FollowingStarts(list, without, from, path, checked, stack, c, n);
    var i := |n|;
    ListingStarts(n, path0, checked0, stack0);
    while i > 0
      invariant 0 <= i <= |n| && Following(list, without, from, path, checked, stack, c, n, i)
      invariant |Targets(list) - checked| < |Targets(list) - checked0| || (checked == checked0 && stack == stack0)
      invariant Listing(n, i, path, checked, stack, path0, checked0, stack0)
    {
      ListingStep(n, i, path, checked, stack, path0, checked0, stack0);
      i := i - 1;
      var v := n[i];
      FollowingMore(list, without, from, path, checked, stack, c, n, i);
      if v !in checked {
        path := path + [v];
        checked := checked + {v};
        stack := [v] + stack;
      }
    }
    FollowingDone(list, without, from, path, checked, stack, c, n);
    ListingEnds(n, path, checked, stack, path0, checked0, stack0);
  }

  /** When the connections from i on are listed, those before are still to be. */
  ghost predicate Listing(n: seq<string>, i: nat, path: seq<string>, checked: set<string>, stack: seq<string>,
          path0: seq<string>, checked0: set<string>, stack0: seq<string>)
  {
    i <= |n| &&
    var r, r0 := New(n[..i], checked), New(n, checked0);
    && path + r == path0 + r0 && checked + Values(r) == checked0 + Values(r0)
    && Reversed(r) + stack == Reversed(r0) + stack0
  }

  lemma {:induction false} ListingStarts(n: seq<string>, path: seq<string>, checked: set<string>, stack: seq<string>)
    ensures Listing(n, |n|, path, checked, stack, path, checked, stack)
  {
    assert n[..|n|] == n;
  }

  lemma {:induction false} ListingStep(n: seq<string>, i: nat, path: seq<string>, checked: set<string>,
          stack: seq<string>, path0: seq<string>, checked0: set<string>, stack0: seq<string>)
    requires 0 < i && Listing(n, i, path, checked, stack, path0, checked0, stack0)
    ensures var v := n[i - 1];
            if v in checked then Listing(n, i - 1, path, checked, stack, path0, checked0, stack0)
            else Listing(n, i - 1, path + [v], checked + {v}, [v] + stack, path0, checked0, stack0)
  {
    NewStep(n, i, checked);
    hide New, Reversed, Values;
  }

  lemma {:induction false} ListingEnds(n: seq<string>, path: seq<string>, checked: set<string>, stack: seq<string>,
          path0: seq<string>, checked0: set<string>, stack0: seq<string>)
    requires Listing(n, 0, path, checked, stack, path0, checked0, stack0)
    ensures var r := New(n, checked0);
            path == path0 + r && checked == checked0 + Values(r) && stack == Reversed(r) + stack0
  {
    assert n[..0] == [] && New([], checked) == [];
    assert path + [] == path && [] + stack == stack && checked + Values([]) == checked;
  }

  lemma {:induction false} NewStep(n: seq<string>, i: nat, seen: set<string>)
    requires 0 < i <= |n|
    ensures var v, r := n[i - 1], New(n[..i], seen);
            if v in seen then r == New(n[..i - 1], seen)
            else var s := New(n[..i - 1], seen + {v});
                 r == [v] + s && Values(r) == {v} + Values(s) && Reversed(r) == Reversed(s) + [v]
  {
    assert n[..i][..i - 1] == n[..i - 1];
    var v := n[i - 1];
    if v !in seen {
      var s := New(n[..i - 1], seen + {v});
      assert ([v] + s)[1..] == s;
    }
  }

  /**
   * The query ends, and its path starts with `from`, has no value twice, and consists of `from` and of
   * exactly the values that can be reached by connections to values that are no barriers, each after one that
   * connects to it.
   */
  method Path(list: seq<Element>, from: string, without: seq<string>) returns (path: seq<string>)
    ensures path != [] && path[0] == from && NoRepeats(path)
    ensures forall v :: v in path <==> Reached(list, without, from, v)
    ensures LedTo(list, without, path)
    ensures path == [from] + Explored(list, [from], {from} + Values(without))
  {
    var connects := BuildConnects(list);
    path := [from];
    var checked := {from};
    var i := 0;
    while i < |without|
      invariant 0 <= i <= |without| && forall v :: v in checked <==> v == from || v in without[..i]
    {
      checked := checked + {without[i]};
      i := i + 1;
    }
    assert without[..i] == without;
    var stack := [from];
    SearchStarts(list, without, from, checked);
    assert checked == {from} + Values(without);
    ghost var goal := [from] + Explored(list, [from], {from} + Values(without));
    while stack != []
      invariant Sound(list, without, from, path, checked) && Complete(list, path, checked, stack)
      invariant OnPath(stack, path)
      invariant StillToCome(list, path, stack, checked, goal)
      decreases |Targets(list) - checked|, |stack|
    {
      hide Targets, Connects, Sound, Complete, New, Reversed, Explored, StillToCome, Values;
      var c := stack[0];
      HeadTail(stack);
      GoneOn(list, path, c, stack[1..], checked, goal);
      stack := stack[1..];
      if c in connects {
        path, checked, stack := Follow(list, without, from, c, connects[c], path, checked, stack);
      } else {
        NothingToFollow(list, path, checked, c, stack);
      }
    }
    forall v | Reached(list, without, from, v) ensures v in path {
      var p :| Chain(list, without, p) && p[0] == from && p[|p| - 1] == v;
      ChainOnPath(list, without, from, path, checked, p);
    }
  }

  lemma {:induction false} HeadTail(stack: seq<string>)
    requires stack != []
    ensures stack == [stack[0]] + stack[1..] && forall s :: s in stack[1..] ==> s in stack
  {
  }

  lemma {:induction false} SearchStarts(list: seq<Element>, without: seq<string>, from: string, checked: set<string>)
    requires forall v :: v in checked <==> v == from || v in without
    ensures Sound(list, without, from, [from], checked) && Complete(list, [from], checked, [from])
  {
    assert Chain(list, without, [from]) && [from][0] == from && [from][|[from]| - 1] == from;
  }

  lemma {:induction false} NothingToFollow(list: seq<Element>, path: seq<string>, checked: set<string>, c: string,
          stack: seq<string>)
    requires Complete(list, path, checked, [c] + stack) && Connects(list, c) == []
    ensures Complete(list, path, checked, stack)
  {
  }
}
