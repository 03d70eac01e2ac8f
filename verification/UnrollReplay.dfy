/** The steps of the unrolling on a given graph, for runs that are followed from beginning to end. */
module UnrollReplay {
  import opened TokenGraphs
  import opened Onces
  import opened UnrollWords
  import opened UnrollState
  import opened UnrollSteps
  import opened UnrollCopy
  import opened UnrollRemoval
  import opened UnrollMachine

  lemma {:induction false} ClonedBare(h: Graph, n: Ref, r: Ref)
    requires r in h && Kids(h[r]) == []
    ensures Cloned(h, n, r, h[n := h[r]], n + 1, n)
  {
    forall fuel: nat | fuel >= 1 ensures CloneOf(h, n, r, fuel) == (h[n := h[r]], n + 1, n) {
      assert CloneAllOf(h, n, [], fuel - 1) == (h, n, []);
    }
    assert ClonedFrom(1, h, n, r, h[n := h[r]], n + 1, n);
  }

  lemma {:induction false} ClonedAround(h: Graph, n: Ref, r: Ref, k: Ref, g: Graph, m: Ref, c: Ref)
    requires r in h && Kids(h[r]) == [k] && Cloned(h, n, k, g, m, c)
    ensures Cloned(h, n, r, g[m := WithKids(h[r], [c])], m + 1, m)
  {
    var f: nat :| ClonedFrom(f, h, n, k, g, m, c);
    forall fuel: nat | fuel >= f ensures CloneAllOf(h, n, [k], fuel) == (g, m, [c]) {
      assert [k][1..] == [] && [c] + [] == [c];
      assert CloneOf(h, n, k, fuel) == (g, m, c) && CloneAllOf(g, m, [], fuel) == (g, m, []);
    }
    ClonedBelow(h, n, r, f, g, m, [c]);
    assert ClonedFrom(f + 1, h, n, r, g[m := WithKids(h[r], [c])], m + 1, m);
  }

  lemma {:induction false} OptionalIs(a: Ref, b: Ref)
    ensures Kids(Optional(a)) == [a] && WithKids(Optional(a), [b]) == Optional(b)
  {
  }

  lemma {:induction false} ScopeIs(a: Ref, b: Ref)
    ensures Kids(Scope(a)) == [a] && WithKids(Scope(a), [b]) == Scope(b)
  {
  }

  lemma {:induction false} RepeatIs(a: Ref, b: Ref, from: nat, to: nat)
    ensures Kids(Repeat(a, from, to)) == [a] && WithKids(Repeat(a, from, to), [b]) == Repeat(b, from, to)
  {
  }

  lemma {:induction false} ConcatIs(a: Ref, b: Ref)
    ensures Kids(Concat([a])) == [a] && WithKids(Concat([a]), [b]) == Concat([b])
  {
  }

  lemma {:induction false} OneIs(a: Ref, b: Ref)
    ensures Kids(One([a])) == [a] && WithKids(One([a]), [b]) == One([b])
  {
  }

  lemma {:induction false} PointerIs(t: Option<Ref>)
    ensures Kids(Pointer(t)) == []
  {
  }

  lemma {:induction false} Start(limit: nat, h: Graph, r: Ref, free: Ref)
    ensures Goes(limit, Initial(h, r, free), Initial(h, r, free), 0)
    ensures Initial(h, r, free) == Machine(h, free, r, map[], map[], [Item(r, NoItem, map[])] + [], {}, false)
  {
  }

  lemma {:induction false} Finish(limit: nat, h: Graph, r: Ref, free: Ref, m: Machine, k: nat)
    requires Goes(limit, Initial(h, r, free), m, k) && m.queue == []
    ensures Ends(limit, h, r, free, m, Unrolled)
  {
    hide Goes;
  }

  lemma {:induction false} FinishNil(limit: nat, h: Graph, r: Ref, free: Ref, m: Machine, k: nat, item: Item,
          rest: seq<Item>)
    requires Goes(limit, Initial(h, r, free), m, k) && m.queue == [item] + rest && item.Item? && item.tok !in m.seen
    requires item.tok in m.h && m.h[item.tok] == Pointer(None)
    ensures Ends(limit, h, r, free, m, NilPointer)
  {
    hide Goes;
    assert m.queue[0] == item;
  }

  lemma {:induction false} Down(limit: nat, m0: Machine, m: Machine, k: nat, item: Item, rest: seq<Item>)
    returns (n: Machine)
    requires Goes(limit, m0, m, k) && m.queue == [item] + rest && item.Item? && item.tok !in m.seen
    requires item.tok in m.h && !m.h[item.tok].Pointer?
    ensures n == m.(queue := KidItems(Kids(m.h[item.tok]), item) + rest, seen := m.seen + {item.tok})
    ensures Goes(limit, m0, n, k + 1)
  {
    n := m.(queue := KidItems(Kids(m.h[item.tok]), item) + rest, seen := m.seen + {item.tok});
    assert m.queue[0] == item && m.queue[1..] == rest;
    assert Next(limit, m, n);
    GoesOn(limit, m0, m, n, k);
  }

  /** A token with one child. */
  lemma {:induction false} Down1(limit: nat, m0: Machine, m: Machine, k: nat, item: Item, rest: seq<Item>, a: Ref)
    returns (n: Machine)
    requires Goes(limit, m0, m, k) && m.queue == [item] + rest && item.Item? && item.tok !in m.seen
    requires item.tok in m.h && !m.h[item.tok].Pointer? && Kids(m.h[item.tok]) == [a]
    ensures n == m.(queue := [Item(a, item, item.counts)] + rest, seen := m.seen + {item.tok})
    ensures Goes(limit, m0, n, k + 1)
  {
    hide Goes;
    n := Down(limit, m0, m, k, item, rest);
    assert KidItems([a], item) == [Item(a, item, item.counts)];
  }

  /** A token with two children. */
  lemma {:induction false} Down2(limit: nat, m0: Machine, m: Machine, k: nat, item: Item, rest: seq<Item>, a: Ref,
          b: Ref) returns (n: Machine)
    requires Goes(limit, m0, m, k) && m.queue == [item] + rest && item.Item? && item.tok !in m.seen
    requires item.tok in m.h && !m.h[item.tok].Pointer? && Kids(m.h[item.tok]) == [a, b]
    ensures n == m.(queue := [Item(a, item, item.counts)] + ([Item(b, item, item.counts)] + rest), seen := m.seen
        + {item.tok})
    ensures Goes(limit, m0, n, k + 1)
  {
    hide Goes;
    n := Down(limit, m0, m, k, item, rest);
    var x, y := Item(a, item, item.counts), Item(b, item, item.counts);
    assert KidItems([a, b], item) == [x, y] && [x, y] + rest == [x] + ([y] + rest);
  }

  /** A token without children. */
  lemma {:induction false} Down0(limit: nat, m0: Machine, m: Machine, k: nat, item: Item, rest: seq<Item>)
    returns (n: Machine)
    requires Goes(limit, m0, m, k) && m.queue == [item] + rest && item.Item? && item.tok !in m.seen
    requires item.tok in m.h && !m.h[item.tok].Pointer? && Kids(m.h[item.tok]) == []
    ensures n == m.(queue := rest, seen := m.seen + {item.tok})
    ensures Goes(limit, m0, n, k + 1)
  {
    hide Goes;
    n := Down(limit, m0, m, k, item, rest);
    assert KidItems([], item) == [] && [] + rest == rest;
  }

  lemma {:induction false} AimsAt(h: Graph, t: Ref, c: Ref)
    requires t in h && h[t] == Pointer(Some(c)) && c in h && !h[c].Pointer?
    ensures Aim(h, t, {}) == At(c)
  {
  }

  /** The clone c in the place of the pointer of the entry: p is what becomes of its parent. */
  ghost predicate InPlaceOf(g: Graph, item: Item, c: Ref, p: Node) {
    && item.Item? && item.parent.Item? && item.parent.tok in g && item.parent.tok != item.tok
    && p == ReplaceIn(g[item.parent.tok], item.tok, c)
  }

  lemma {:induction false} PlacedAlone(g: Graph, item: Item, c: Ref, p: Node)
    requires item.Item? && item.parent.Item? && item.parent.tok in g && item.parent.tok != item.tok
    requires Kids(g[item.parent.tok]) == [item.tok] && p == WithKids(g[item.parent.tok], [c])
    ensures InPlaceOf(g, item, c, p)
  {
    assert Replaced([item.tok], item.tok, c) == [c];
  }

  lemma {:induction false} Placed(l: Machine, item: Item, rest: seq<Item>, original: Ref, g: Graph, next: Ref, c: Ref,
          p: Node) returns (n: Machine)
    requires l.queue == rest && InPlaceOf(g, item, c, p) && original !in item.counts
    ensures n == PutIn(l, item, original, g, next, c)
    ensures n == Machine(g[item.tok := Pointer(Some(c))][item.parent.tok := p], next, l.root,
        l.originals[c := original],
                         l.clones, [Item(c, item.parent, item.counts[original := 1])] + rest, {}, l.climbed)
  {
    n := PutIn(l, item, original, g, next, c);
  }

  lemma {:induction false} RegistersNothing(t: Machine, child: Ref)
    requires child in t.originals
    ensures Registers(t, child, t)
  {
  }

  lemma {:induction false} NextExpands(limit: nat, m: Machine, item: Item, rest: seq<Item>, child: Ref, original: Ref,
          l: Machine, n: Machine)
    requires m.queue == [item] + rest && item.Item? && item.tok !in m.seen && item.tok in m.h && m.h[item.tok].Pointer?
    requires Aim(m.h, item.tok, {}) == At(child)
        && original == if child in m.originals then m.originals[child] else child
    requires child !in m.originals || (original !in item.counts && limit > 0)
    requires Registers(m.(queue := rest, seen := m.seen + {item.tok}), child, l) && Expands(l, item, original, n)
    ensures Next(limit, m, n)
  {
    hide Aim, Registers, Expands;
    assert m.queue[0] == item && m.queue[1..] == rest;
    assert Taken(m) == m.(queue := rest, seen := m.seen + {item.tok});
  }

  /** A pointer to a token that is no original yet: g1 has the clone c1 that is kept, g the clone c of that. */
  lemma {:induction false} ExpandNew(limit: nat, m0: Machine, m: Machine, k: nat, item: Item, rest: seq<Item>,
          child: Ref, g1: Graph, n1: Ref, c1: Ref, g: Graph, next: Ref, c: Ref, p: Node) returns (n: Machine)
    requires Goes(limit, m0, m, k) && m.queue == [item] + rest && item.Item? && item.tok !in m.seen
    requires item.tok in m.h && m.h[item.tok] == Pointer(Some(child)) && child in m.h && !m.h[child].Pointer?
    requires child !in m.originals && child !in item.counts
    requires InPlaceOf(g, item, c, p)
    requires Cloned(m.h, m.next, child, g1, n1, c1) && Cloned(g1, n1, c1, g, next, c)
    ensures n == Machine(g[item.tok := Pointer(Some(c))][item.parent.tok := p], next, m.root,
                         m.originals[child := child][c := child], m.clones[child := c1],
                         [Item(c, item.parent, item.counts[child := 1])] + rest, {}, m.climbed)
    ensures Goes(limit, m0, n, k + 1)
  {
    hide *;
    AimsAt(m.h, item.tok, child);
    var t := AtFront(m, item, rest);
    var l := t.(h := g1, next := n1, originals := m.originals[child := child], clones := m.clones[child := c1]);
    n := Placed(l, item, rest, child, g, next, c, p);
    RegistersTo(t, child, g1, n1, c1);
    ExpandsTo(l, item, child, g, next, c);
    NextExpands(limit, m, item, rest, child, child, l, n);
    GoesOn(limit, m0, m, n, k);
  }

  /** A pointer to a known original, which may be expanded once more. */
  lemma {:induction false} ExpandAgain(limit: nat, m0: Machine, m: Machine, k: nat, item: Item, rest: seq<Item>,
          child: Ref, original: Ref, g: Graph, next: Ref, c: Ref, p: Node) returns (n: Machine)
    requires Goes(limit, m0, m, k) && m.queue == [item] + rest && item.Item? && item.tok !in m.seen
    requires item.tok in m.h && m.h[item.tok] == Pointer(Some(child)) && child in m.h && !m.h[child].Pointer?
    requires child in m.originals && original in m.clones
    requires m.originals[child] == original && original !in item.counts && limit > 0 && InPlaceOf(g, item, c, p)
    requires Cloned(m.h, m.next, m.clones[original], g, next, c)
    ensures n == Machine(g[item.tok := Pointer(Some(c))][item.parent.tok := p], next, m.root,
                         m.originals[c := original], m.clones,
                         [Item(c, item.parent, item.counts[original := 1])] + rest, {}, m.climbed)
    ensures Goes(limit, m0, n, k + 1)
  {
    hide *;
    AimsAt(m.h, item.tok, child);
    var t := AtFront(m, item, rest);
    n := Placed(t, item, rest, original, g, next, c, p);
    RegistersNothing(t, child);
    ExpandsTo(t, item, original, g, next, c);
    NextExpands(limit, m, item, rest, child, original, t, n);
    GoesOn(limit, m0, m, n, k);
  }

  /** A pointer that is cut off, because its original was expanded often enough. */
  lemma {:induction false} CutOff(limit: nat, m0: Machine, m: Machine, k: nat, item: Item, rest: seq<Item>,
          child: Ref, original: Ref, g: Graph, past: bool) returns (n: Machine)
    requires Goes(limit, m0, m, k) && m.queue == [item] + rest && item.Item? && item.tok !in m.seen
    requires item.tok in m.h && m.h[item.tok] == Pointer(Some(child)) && child in m.h && !m.h[child].Pointer?
    requires child in m.originals && m.originals[child] == original
    requires original in item.counts && item.counts[original] >= limit
    requires Climb(m.h[item.tok := Pointer(None)], item.parent, item.tok) == (g, past)
    ensures n == m.(h := g, climbed := m.climbed || past, queue := rest, seen := m.seen + {item.tok})
    ensures Goes(limit, m0, n, k + 1)
  {
    hide Aim, Climb;
    AimsAt(m.h, item.tok, child);
    assert m.queue[0] == item && m.queue[1..] == rest;
    n := CutAt(Taken(m), item);
    assert Next(limit, m, n);
    GoesOn(limit, m0, m, n, k);
  }

  // ---------- what a cut takes along ----------

  /** A token that is made of ta goes with it. */
  lemma {:induction false} GoesAlong(h: Graph, tt: Item, ta: Ref)
    requires tt.Item? && tt.tok in h 
        && (h[tt.tok].Optional? || h[tt.tok].Scope? || h[tt.tok].Repeat?) && Kids(h[tt.tok]) == [ta]
    ensures Climb(h, tt, ta) == Climb(h, tt.parent, tt.tok)
  {
    ClimbsOn(h, tt, ta);
    assert h[tt.tok := h[tt.tok]] == h;
  }

  /** A One loses its first alternative. */
  lemma {:induction false} OneStays(h: Graph, tt: Item, ta: Ref, b: Ref)
    requires tt.Item? && tt.tok in h && h[tt.tok] == One([ta, b]) && b != ta
    ensures Climb(h, tt, ta) == (h[tt.tok := One([b])], false)
  {
    ClimbsOn(h, tt, ta);
    assert [ta, b][1..] == [b];
    assert Removed([b], ta) == [b];
    assert Removed([ta, b], ta) == [b];
  }

  /** A concatenation loses an optional part. */
  lemma {:induction false} ConcatStays(h: Graph, tt: Item, ta: Ref)
    requires tt.Item? && tt.tok in h && h[tt.tok].Concat? && ta in h[tt.tok].tokens && ta in h && OptionalType(h[ta])
    ensures Climb(h, tt, ta) == (h[tt.tok := Concat(Dropped(h[tt.tok].tokens, ta))], false)
  {
    ClimbsOn(h, tt, ta);
  }

  /** A concatenation that does not have it stays as it is. */
  lemma {:induction false} NothingToDrop(h: Graph, tt: Item, ta: Ref)
    requires tt.Item? && tt.tok in h && h[tt.tok].Concat? && ta !in h[tt.tok].tokens
    ensures Climb(h, tt, ta) == (h, false)
  {
    ClimbsOn(h, tt, ta);
    assert h[tt.tok := h[tt.tok]] == h;
  }

  /** A One without alternatives goes, and if it is the root, the cut goes past it. */
  lemma {:induction false} RootOneGoes(h: Graph, tt: Item, ta: Ref)
    requires tt.Item? && tt.tok in h && h[tt.tok] == One([ta]) && tt.parent == NoItem
    ensures Climb(h, tt, ta) == (h[tt.tok := One([])], true)
  {
    ClimbsOn(h, tt, ta);
    assert Removed([ta], ta) == [];
  }
}
