/** On every graph, each step of the unrolling keeps at least what UnrollSpec leaves. */
module UnrollCover {
  import opened TokenGraphs
  import opened UnrollState
  import opened UnrollSteps
  import opened UnrollCopy
  import opened UnrollMachine
  import opened UnrollSpec
  import opened UnrollTraces
  import opened UnrollGrowth
  import opened UnrollLoss

  // ---------- a step ----------

  /** The entry is one of a pointer, with what is known of it. */
  ghost predicate AtPointer(og: Basis, tr: Trace, m: Machine, item: Item) {
    && item.Item? && item.tok in m.h && m.h[item.tok].Pointer? && item.tok in tr.at
    && Below(item.counts, tr.at[item.tok])
    && ItemIn(m.h, item) && UpTo(item.parent, item.tok, m.root)
    && (item.parent.Item? ==> item.parent.tok != item.tok)
  }

  lemma {:induction false} OriginalIs(og: Basis, tr: Trace, m: Machine, child: Ref)
    requires Known(og, tr, m) && Original(og, tr, m.h) && (child in m.originals || child in og.h)
    ensures child in tr.src && tr.src[child] == OriginalOf(m.originals, child)
  {
  }

  /** Where the pointer of an entry leads, in terms of the original graph. */
  lemma {:induction false} PointerAim(og: Basis, tr: Trace, m: Machine, item: Item)
    requires item.Item? && item.tok in m.h && m.h[item.tok].Pointer? && Covers(og, tr, m)
    ensures item.tok in tr.src && tr.src[item.tok] in og.h && og.h[tr.src[item.tok]].Pointer?
    ensures var aim := Aim(m.h, item.tok, {});
            && (aim.At? ==> aim.child in m.h && (aim.child in og.h || aim.child in m.originals)
                            && Aim(og.h, tr.src[item.tok], {}) == At(OriginalOf(m.originals, aim.child)))
            && (aim.Loops? ==> !Aim(og.h, tr.src[item.tok], {}).At?)
  {
    var t := item.tok;
    hide *;
    CoversParts(og, tr, m);
    TokensAt(og, tr, m.h, m.originals);
    OkKind(og, tr, m.h, m.originals, t);
    if Aim(m.h, t, {}).At? {
      AimKept(og, tr, m.h, m.originals, t, {});
      var c := Aim(m.h, t, {}).child;
      OriginalIs(og, tr, m, c);
      StandsAim(og.h, tr.src[t], tr.src[c]);
    } else if Aim(m.h, t, {}).Loops? {
      CircleKept(og, tr, m.h, m.originals, t);
    }
  }

  lemma {:induction false} NotGrown(og: Basis, tr: Trace, m: Machine, item: Item, aim: Aimed)
    requires item.Item? && item.tok in tr.src && item.tok in tr.at && Below(item.counts, tr.at[item.tok])
    requires aim.Loops? ==> !Aim(og.h, tr.src[item.tok], {}).At?
    requires aim.At? ==> !Wanted(og.limit, m.originals, item.counts, aim.child)
    requires aim.At? ==> Aim(og.h, tr.src[item.tok], {}) == At(OriginalOf(m.originals, aim.child))
    requires !aim.Unset?
    ensures !Grows(og.h, og.limit, tr.src[item.tok], tr.at[item.tok])
  {
    hide Aim;
    if aim.At? {
      var o := OriginalOf(m.originals, aim.child);
      assert CountOf(item.counts, o) <= CountOf(tr.at[item.tok], o);
    }
  }

  lemma {:induction false} AtPointerParts(og: Basis, tr: Trace, m: Machine, item: Item)
    requires AtPointer(og, tr, m, item)
    ensures item.Item? && item.tok in m.h && m.h[item.tok].Pointer? && item.tok in tr.at
    ensures Below(item.counts, tr.at[item.tok]) && ItemIn(m.h, item) && UpTo(item.parent, item.tok, m.root)
    ensures item.parent.Item? ==> item.parent.tok != item.tok && item.parent.tok in m.h
  {
    hide Below;
  }

  lemma {:induction false} ExpandableIs(og: Basis, tr: Trace, tr': Trace, m: Machine, k: Machine, item: Item,
          original: Ref)
    requires AtPointer(og, tr, m, item) && ExtendsTrace(tr, tr') && k.root == m.root
    requires forall x :: x in m.h ==> x in k.h && k.h[x] == m.h[x]
    requires item.tok in tr.src && tr.src[item.tok] in og.h && og.h[tr.src[item.tok]].Pointer?
    requires Aim(og.h, tr.src[item.tok], {}) == At(original)
    ensures MayExpand(og, tr', k, item, original)
  {
    AtPointerParts(og, tr, m, item);
    hide Aim, Below, ItemIn;
  }

  /** A pointer is expanded or cut off. */
  lemma {:induction false} UnpointCovers(og: Basis, tr: Trace, m: Machine, rank: map<Ref, nat>, item: Item,
          n: Machine) returns (tr': Trace)
    requires item.Item? && Unpoints(og.limit, m, item, n) && AtPointer(og, tr, m, item) && Sensible(m, rank)
    requires Covers(og, tr, m)
    ensures Covers(og, tr', n)
  {
    hide *;
    var aim := Aim(m.h, item.tok, {});
    AtPointerParts(og, tr, m, item);
    PointerAim(og, tr, m, item);
    UnpointsParts(og.limit, m, item, n);
    if aim.At? && Wanted(og.limit, m.originals, item.counts, aim.child) {
      var o := OriginalOf(m.originals, aim.child);
      var k := UnpointsBy(og.limit, m, item, n);
      var tr1 := RegisterCovers(og, tr, m, rank, aim.child, k);
      var rank1 := SensibleRegistered(m, aim.child, k, rank);
      ExpandableIs(og, tr, tr1, m, k, item, o);
      tr' := ExpandCovers(og, tr1, k, rank1, item, o, n);
    } else {
      NotGrown(og, tr, m, item, aim);
      CutCovers(og, tr, m, item, n);
      tr' := tr;
    }
  }

  lemma {:induction false} UnpointsParts(limit: nat, m: Machine, item: Item, n: Machine)
    requires item.Item? && Unpoints(limit, m, item, n)
    ensures var aim := Aim(m.h, item.tok, {});
            && !aim.Unset?
            && (!(aim.At? && Wanted(limit, m.originals, item.counts, aim.child)) ==> n == CutAt(m, item))
  {
    hide Aim, CutAt, Registers, Expands, Wanted;
  }

  lemma {:induction false} UnpointsBy(limit: nat, m: Machine, item: Item, n: Machine) returns (k: Machine)
    requires item.Item? && Unpoints(limit, m, item, n)
    requires var aim := Aim(m.h, item.tok, {}); aim.At? && Wanted(limit, m.originals, item.counts, aim.child)
    ensures Registers(m, Aim(m.h, item.tok, {}).child, k)
    ensures Expands(k, item, OriginalOf(m.originals, Aim(m.h, item.tok, {}).child), n)
  {
    hide Aim, CutAt, Registers, Expands, Wanted, OriginalOf;
    k :| Registers(m, Aim(m.h, item.tok, {}).child, k)
         && Expands(k, item, OriginalOf(m.originals, Aim(m.h, item.tok, {}).child), n);
  }

  /** Every step keeps what is left. */
  lemma {:induction false} NextCovers(og: Basis, tr: Trace, m: Machine, rank: map<Ref, nat>, n: Machine)
    returns (tr': Trace)
    requires m.queue != [] && m.queue[0].Item? && UpTo(m.queue[0].parent, m.queue[0].tok, m.root)
    requires Next(og.limit, m, n) && FirstReady(m, rank) && Covers(og, tr, m)
    ensures Covers(og, tr', n)
  {
    hide *;
    var item, rest := m.queue[0], m.queue[1..];
    assert m.queue == [item] + rest;
    NextParts(og.limit, m, n);
    ReadyParts(m, rank);
    if m.h[item.tok].Pointer? {
      var t := AtFront(m, item, rest);
      TakenCovers(og, tr, m, item, rest, t);
      SensibleTaken(m, rank);
      AtPointerIs(og, tr, m, t, item);
      tr' := UnpointCovers(og, tr, t, rank, item, n);
    } else {
      VisitCovers(og, tr, m, item, rest, n);
      tr' := tr;
    }
  }

  lemma {:induction false} NextParts(limit: nat, m: Machine, n: Machine)
    requires Next(limit, m, n)
    ensures m.queue != [] && m.queue[0].Item? && m.queue[0].tok in m.h
    ensures var item := m.queue[0];
            if m.h[item.tok].Pointer? then Unpoints(limit, Taken(m), item, n)
            else n.h == m.h && n.originals == m.originals && n.clones == m.clones && n.root == m.root
                 && n.climbed == m.climbed && n.queue == KidItems(Kids(m.h[item.tok]), item) + m.queue[1..]
  {
    hide Unpoints, Revisits;
  }

  lemma {:induction false} ReadyParts(m: Machine, rank: map<Ref, nat>)
    requires FirstReady(m, rank)
    ensures m.queue != [] && m.queue[0].Item? && ItemIn(m.h, m.queue[0]) && Sensible(m, rank)
    ensures m.queue[0].parent.Item? ==> m.queue[0].parent.tok != m.queue[0].tok
  {
    hide Sensible, ItemIn, Uncounted;
  }

  lemma {:induction false} AtPointerIs(og: Basis, tr: Trace, m: Machine, t: Machine, item: Item)
    requires item.Item? && item.tok in m.h && m.h[item.tok].Pointer? && item.tok in tr.at
    requires Below(item.counts, tr.at[item.tok]) && ItemIn(m.h, item) && UpTo(item.parent, item.tok, m.root)
    requires item.parent.Item? ==> item.parent.tok != item.tok
    requires t.h == m.h && t.root == m.root
    ensures AtPointer(og, tr, t, item)
  {
    hide Below, ItemIn, UpTo;
  }

  // ---------- the start ----------

  /** At the beginning every token is an original one. */
  ghost function Untouched(h: Graph): Trace {
    Trace(map x | x in h :: x, map x | x in h :: map[])
  }

  lemma {:induction false} AlignedItself(og: Basis, ts: seq<Ref>)
    requires forall k :: k in ts ==> k in og.h
    ensures Aligned(og, Untouched(og.h), map[], ts, ts)
  {
    hide Rest, Aim;
    if ts != [] {
      assert ts[0] in ts && forall k :: k in ts[1..] ==> k in ts;
      AlignedItself(og, ts[1..]);
    }
  }

  lemma {:induction false} ImageItself(og: Basis, k: Ref)
    requires k in og.h
    ensures Image(og, Untouched(og.h), map[], k, k)
  {
    hide Aim, Grows;
  }

  lemma {:induction false} HoldsItself(og: Basis, x: Ref)
    requires x in og.h && !og.h[x].Pointer? && forall k :: k in Kids(og.h[x]) ==> k in og.h
    ensures SameKind(og.h[x], og.h[x]) && Holds(og, Untouched(og.h), og.h[x], x, map[])
  {
    var tr := Untouched(og.h);
    hide Rest, Image, Untouched;
    match og.h[x]
    case Concat(ts) => AlignedItself(og, ts);
    case One(ts) =>
      forall k0 | k0 in ts ensures Has(og, tr, map[], ts, k0) { ImageItself(og, k0); }
    case Optional(t) => assert t in Kids(og.h[x]); ImageItself(og, t);
    case Scope(t) => assert t in Kids(og.h[x]); ImageItself(og, t);
    case Repeat(t, _, _) => assert t in Kids(og.h[x]); ImageItself(og, t);
    case _ =>
  }

  lemma {:induction false} TokenItself(og: Basis, x: Ref)
    requires Formed(og.h, og.rank) && x in og.h
    ensures TokenOk(og, Untouched(og.h), og.h, map[], x)
  {
    assert forall k :: k in Kids(og.h[x]) ==> k in og.h;
    hide Formed, Holds;
    if !og.h[x].Pointer? { HoldsItself(og, x); }
  }

  lemma {:induction false} InitialCovers(og: Basis, free: Ref) returns (tr: Trace)
    requires Formed(og.h, og.rank) && og.root in og.h
    ensures Covers(og, tr, Initial(og.h, og.root, free))
  {
    hide *;
    tr := Untouched(og.h);
    forall x | x in og.h ensures TokenOk(og, tr, og.h, map[], x) {
      TokenItself(og, x);
    }
    TokensAre(og, tr, og.h, map[]);
    InitialRest(og, free);
    CoversIs(og, tr, Initial(og.h, og.root, free));
  }

  lemma {:induction false} InitialRest(og: Basis, free: Ref)
    requires og.root in og.h
    ensures var tr, m := Untouched(og.h), Initial(og.h, og.root, free);
            && m.h == og.h && m.originals == map[] && AllTraced(tr, og.h) && Original(og, tr, og.h) && Known(og, tr, m)
            && Counting(tr, m.queue) && RootKept(og, tr, m.root, m.climbed)
  {
    hide Rest, Aim;
  }
}
