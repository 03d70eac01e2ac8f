/** What an expansion keeps of what is left of the original graph: the clone stands for the pointer. */
module UnrollGrowth {
  import opened TokenGraphs
  import opened UnrollWords
  import opened UnrollState
  import opened UnrollCopy
  import opened UnrollLink
  import opened UnrollMachine
  import opened UnrollSpec
  import opened UnrollTrees
  import opened UnrollTraces

  // ---------- where pointers lead ----------

  lemma {:induction false} LeadsOnce(h: Graph, a: Ref, b: Ref, n: nat, m: nat)
    requires b in h && !h[b].Pointer? && Leads(h, a, b, n) && Leads(h, a, b, m)
    ensures n == m
    decreases n
  {
    if n > 0 && m > 0 { LeadsOnce(h, h[a].target.value, b, n - 1, m - 1); }
  }

  /** All of these are at least n pointers away from b. */
  ghost predicate Farther(h: Graph, checked: set<Ref>, b: Ref, n: nat) {
    forall c :: c in checked ==> exists m: nat :: m >= n && Leads(h, c, b, m)
  }

  lemma {:induction false} FartherOn(h: Graph, checked: set<Ref>, c: Ref, b: Ref, n: nat)
    requires Farther(h, checked, b, n + 1) && Leads(h, c, b, n)
    ensures Farther(h, checked + {c}, b, n)
  {
    forall x | x in checked + {c} ensures exists m: nat :: m >= n && Leads(h, x, b, m) {
      if x in checked {
        var m: nat :| m >= n + 1 && Leads(h, x, b, m);
      }
    }
  }

  lemma {:induction false} NotAmong(h: Graph, checked: set<Ref>, c: Ref, b: Ref, n: nat)
    requires b in h && !h[b].Pointer? && Farther(h, checked, b, n + 1) && Leads(h, c, b, n)
    ensures c !in checked
  {
    if c in checked {
      var m: nat :| m >= n + 1 && Leads(h, c, b, m);
      LeadsOnce(h, c, b, n, m);
    }
  }

  lemma {:induction false} AimByLeads(h: Graph, a: Ref, b: Ref, n: nat, checked: set<Ref>)
    requires n > 0 && Leads(h, a, b, n) && b in h && !h[b].Pointer? && Farther(h, checked, b, n)
    ensures Aim(h, a, checked) == At(b)
    decreases n
  {
    var v := h[a].target.value;
    if n > 1 {
      NotAmong(h, checked, v, b, n - 1);
      FartherOn(h, checked, v, b, n - 1);
      AimByLeads(h, v, b, n - 1, checked + {v});
    }
  }

  lemma {:induction false} StandsAim(h: Graph, a: Ref, b: Ref)
    requires a in h && h[a].Pointer? && b in h && !h[b].Pointer? && Stands(h, a, b)
    ensures Aim(h, a, {}) == At(b)
  {
    var n: nat :| Leads(h, a, b, n);
    AimByLeads(h, a, b, n, {});
  }

  /** The pointer t leads to v as its source does, or to an expansion v. */
  ghost predicate Follows(og: Basis, tr: Trace, h: Graph, known: map<Ref, Ref>, t: Ref, v: Ref) {
    && t in h && h[t] == Pointer(Some(v)) && t in tr.src && tr.src[t] in og.h && og.h[tr.src[t]].Pointer?
    && v in h && v in tr.src && tr.src[v] in og.h && (h[v].Pointer? <==> og.h[tr.src[v]].Pointer?)
    && (|| (og.h[tr.src[t]].target == Some(v) && tr.src[v] == v && v in og.h)
        || (v in known && !h[v].Pointer? && Stands(og.h, tr.src[t], tr.src[v])))
  }

  lemma {:induction false} PointerFollows(og: Basis, tr: Trace, h: Graph, known: map<Ref, Ref>, t: Ref)
    requires Formed(og.h, og.rank) && TokensOk(og, tr, h, known) && Original(og, tr, h)
    requires t in h && h[t].Pointer? && h[t].target.Some?
    ensures Follows(og, tr, h, known, t, h[t].target.value)
  {
    hide *;
    TokensAt(og, tr, h, known);
    var v := h[t].target.value;
    OkPointer(og, tr, h, known, t);
    if og.h[tr.src[t]].target == Some(v) { TargetKept(og, tr, h, tr.src[t]); }
    OkKind(og, tr, h, known, v);
    FollowsIs(og, tr, h, known, t, v);
  }

  lemma {:induction false} FollowsIs(og: Basis, tr: Trace, h: Graph, known: map<Ref, Ref>, t: Ref, v: Ref)
    requires t in h && h[t] == Pointer(Some(v)) && t in tr.src && tr.src[t] in og.h && og.h[tr.src[t]].Pointer?
    requires v in h && v in tr.src && tr.src[v] in og.h && (h[v].Pointer? <==> og.h[tr.src[v]].Pointer?)
    requires (og.h[tr.src[t]].target == Some(v) && tr.src[v] == v && v in og.h)
        || (v in known && !h[v].Pointer? && Stands(og.h, tr.src[t], tr.src[v]))
    ensures Follows(og, tr, h, known, t, v)
  {
    hide Stands;
  }

  lemma {:induction false} OkKind(og: Basis, tr: Trace, h: Graph, known: map<Ref, Ref>, x: Ref)
    requires TokenOk(og, tr, h, known, x)
    ensures x in h && x in tr.src && tr.src[x] in og.h && (h[x].Pointer? <==> og.h[tr.src[x]].Pointer?)
    ensures x in tr.at && !h[x].Pointer? ==> SameKind(h[x], og.h[tr.src[x]])
  {
    hide Holds, Leading, Below;
  }

  lemma {:induction false} OkPointer(og: Basis, tr: Trace, h: Graph, known: map<Ref, Ref>, t: Ref)
    requires TokenOk(og, tr, h, known, t) && h[t].Pointer? && h[t].target.Some?
    ensures t in tr.src && tr.src[t] in og.h && og.h[tr.src[t]].Pointer?
    ensures var v := h[t].target.value;
            || og.h[tr.src[t]].target == Some(v)
            || (v in known && v in h && !h[v].Pointer? && v in tr.src && Stands(og.h, tr.src[t], tr.src[v]))
  {
    hide Stands, Below;
  }

  lemma {:induction false} TargetKept(og: Basis, tr: Trace, h: Graph, x: Ref)
    requires Formed(og.h, og.rank) && Original(og, tr, h) && x in og.h && og.h[x].Pointer? && og.h[x].target.Some?
    ensures var v := og.h[x].target.value; v in og.h && v in h && v in tr.src && tr.src[v] == v
  {
  }

  /** What a pointer leads to stands for what its source leads to. */
  lemma {:induction false} AimKept(og: Basis, tr: Trace, h: Graph, known: map<Ref, Ref>, t: Ref, checked: set<Ref>)
    requires t in h && h[t].Pointer? && Aim(h, t, checked).At?
    requires Formed(og.h, og.rank) && TokensOk(og, tr, h, known) && Original(og, tr, h)
    ensures var c := Aim(h, t, checked).child;
            && c in h && !h[c].Pointer? && c in tr.src && tr.src[c] in og.h && !og.h[tr.src[c]].Pointer?
            && t in tr.src && Stands(og.h, tr.src[t], tr.src[c]) && (c in known || c in og.h)
    decreases h.Keys - checked
  {
    PointerFollows(og, tr, h, known, t);
    hide TokensOk, Original, Formed, Stands;
    var v := h[t].target.value;
    if og.h[tr.src[t]].target == Some(v) && tr.src[v] == v {
      if h[v].Pointer? {
        AimKept(og, tr, h, known, v, checked + {v});
      } else {
        StandsItself(og.h, v);
      }
      StandsThrough(og.h, tr.src[t], tr.src[Aim(h, t, checked).child]);
    }
  }

  lemma {:induction false} LeadsNext(h: Graph, a: Ref, v: Ref, b: Ref, n: nat)
    requires n > 0 && Leads(h, a, b, n) && a in h && h[a].Pointer? && h[a].target == Some(v)
    requires v in h && h[v].Pointer? && b in h && !h[b].Pointer?
    ensures n > 1 && Leads(h, v, b, n - 1)
  {
  }

  lemma {:induction false} AimNext(h: Graph, t: Ref, checked: set<Ref>)
    requires t in h && h[t].Pointer?
    ensures Aim(h, t, checked) ==
            match h[t].target
            case None => Unset
            case Some(v) =>
              if v !in h || !h[v].Pointer? then At(v) else if v in checked then Loops else Aim(h, v, checked + {v})
  {
  }

  lemma {:induction false} FollowsPointer(og: Basis, tr: Trace, h: Graph, known: map<Ref, Ref>, t: Ref, v: Ref)
    requires Follows(og, tr, h, known, t, v)
    ensures v in h && t in tr.src && tr.src[t] in og.h && og.h[tr.src[t]].Pointer?
    ensures h[v].Pointer? ==>
              v in og.h && og.h[v].Pointer? && v in tr.src && tr.src[v] == v && og.h[tr.src[t]].target == Some(v)
  {
    hide Stands;
  }

  /** A pointer whose source leads to a token is in no circle. */
  lemma {:induction false} NoCircle(og: Basis, tr: Trace, h: Graph, known: map<Ref, Ref>, t: Ref, checked: set<Ref>,
          b: Ref, n: nat)
    requires t in h && h[t].Pointer? && t in tr.src && n > 0 && Leads(og.h, tr.src[t], b, n)
    requires b in og.h && !og.h[b].Pointer? && Farther(og.h, checked, b, n)
    requires Formed(og.h, og.rank) && TokensOk(og, tr, h, known) && Original(og, tr, h)
    ensures !Aim(h, t, checked).Loops?
    decreases n
  {
    hide *;
    AimNext(h, t, checked);
    if h[t].target.Some? {
      PointerFollows(og, tr, h, known, t);
      var v := h[t].target.value;
      FollowsPointer(og, tr, h, known, t, v);
      if h[v].Pointer? {
        LeadsNext(og.h, tr.src[t], v, b, n);
        NotAmong(og.h, checked, v, b, n - 1);
        FartherOn(og.h, checked, v, b, n - 1);
        NoCircle(og, tr, h, known, v, checked + {v}, b, n - 1);
      }
    }
  }

  /** A pointer in a circle comes from one that leads to no token. */
  lemma {:induction false} CircleKept(og: Basis, tr: Trace, h: Graph, known: map<Ref, Ref>, t: Ref)
    requires Formed(og.h, og.rank) && TokensOk(og, tr, h, known) && Original(og, tr, h)
    requires t in h && h[t].Pointer? && Aim(h, t, {}).Loops?
    ensures t in tr.src && tr.src[t] in og.h && og.h[tr.src[t]].Pointer? && !Aim(og.h, tr.src[t], {}).At?
  {
    assert TokenOk(og, tr, h, known, t);
    var t0 := tr.src[t];
    if Aim(og.h, t0, {}).At? {
      var b := Aim(og.h, t0, {}).child;
      AimKnown(og.h, t0, {});
      AimStandsFor(og.h, t0, {});
      var n: nat :| Leads(og.h, t0, b, n);
      NoCircle(og, tr, h, known, t, {}, b, n);
    }
  }

  // ---------- an expansion in the place of a pointer ----------

  /** c is an expansion of what the pointer t leads to. */
  ghost predicate Expanded(og: Basis, tr: Trace, t: Ref, c: Ref) {
    && t in tr.src && t in tr.at && c in tr.src && c in tr.at
    && tr.src[t] in og.h && og.h[tr.src[t]].Pointer? && Aim(og.h, tr.src[t], {}) == At(tr.src[c])
    && tr.at[c] == Bump(tr.at[t], tr.src[c])
  }

  lemma {:induction false} ImageReplaced(og: Basis, tr: Trace, e: Counts, t: Ref, c: Ref, k0: Ref)
    requires Formed(og.h, og.rank) && Expanded(og, tr, t, c) && Image(og, tr, e, t, k0)
    ensures Image(og, tr, e, c, k0) || Useless(og, e, k0)
  {
    if tr.src[t] == k0 && tr.at[t] == e {
      hide Aim, Formed, Rest, Spared;
      if !Grows(og.h, og.limit, k0, e) { StoppedIsUseless(og, e, k0); }
    } else {
      AimKnown(og.h, k0, {});
    }
  }

  lemma {:induction false} AlignedReplaced(og: Basis, tr: Trace, e: Counts, t: Ref, c: Ref, ts: seq<Ref>, ts0: seq<Ref>)
    requires Formed(og.h, og.rank) && Expanded(og, tr, t, c) && Aligned(og, tr, e, ts, ts0) && Parts(og, e, ts0)
    ensures Aligned(og, tr, e, Replaced(ts, t, c), ts0)
    decreases |ts0|
  {
    if ts0 != [] {
      hide Image, Rest, Spared, Formed, Expanded;
      assert ts0[0] in ts0 && forall k0 :: k0 in ts0[1..] ==> k0 in ts0;
      if ts != [] && Image(og, tr, e, ts[0], ts0[0]) && Aligned(og, tr, e, ts[1..], ts0[1..]) {
        if ts[0] == t { ImageReplaced(og, tr, e, t, c, ts0[0]); }
        AlignedReplaced(og, tr, e, t, c, ts[1..], ts0[1..]);
        assert Replaced(ts, t, c)[1..] == Replaced(ts[1..], t, c);
      } else {
        AlignedReplaced(og, tr, e, t, c, ts, ts0[1..]);
      }
    }
  }

  lemma {:induction false} HasReplaced(og: Basis, tr: Trace, e: Counts, t: Ref, c: Ref, ts: seq<Ref>, k0: Ref)
    requires Formed(og.h, og.rank) && Expanded(og, tr, t, c) && Has(og, tr, e, ts, k0) && Rest(og, k0, e).Some?
    ensures Has(og, tr, e, Replaced(ts, t, c), k0)
  {
    hide Image, Rest, Spared, Formed, Expanded;
    var k :| k in ts && Image(og, tr, e, k, k0);
    if k == t { ImageReplaced(og, tr, e, t, c, k0); }
    var i :| 0 <= i < |ts| && ts[i] == k;
    assert Replaced(ts, t, c)[i] in Replaced(ts, t, c);
  }

  lemma {:induction false} ReplacedKind(n: Node, m: Node, t: Ref, c: Ref)
    requires !n.Pointer? && SameKind(n, m)
    ensures !ReplaceIn(n, t, c).Pointer? && SameKind(ReplaceIn(n, t, c), m)
  {
  }

  lemma {:induction false} HoldsReplaced(og: Basis, tr: Trace, t: Ref, c: Ref, n: Node, x0: Ref, e: Counts)
    requires x0 in og.h && !n.Pointer? && SameKind(n, og.h[x0]) && Holds(og, tr, n, x0, e)
    requires Formed(og.h, og.rank) && Expanded(og, tr, t, c)
    ensures SameKind(ReplaceIn(n, t, c), og.h[x0]) && Holds(og, tr, ReplaceIn(n, t, c), x0, e)
  {
    ReplacedKind(n, og.h[x0], t, c);
    if Rest(og, x0, e).Some? {
      if Wraps(og.h[x0]) { WrapRest(og, x0, e); }
      if n.Concat? { ConcatParts(og, x0, e); }
      hide Image, Rest, Spared, Has, Parts, Formed, Expanded;
      match n
      case Concat(ts) => AlignedReplaced(og, tr, e, t, c, ts, og.h[x0].tokens);
      case One(ts) =>
        forall k0 | k0 in og.h[x0].tokens && Rest(og, k0, e).Some? ensures Has(og, tr, e, Replaced(ts, t, c), k0) {
          HasReplaced(og, tr, e, t, c, ts, k0);
        }
      case Optional(k) => if k == t { ImageReplaced(og, tr, e, t, c, og.h[x0].token); }
      case Scope(k) => if k == t { ImageReplaced(og, tr, e, t, c, og.h[x0].token); }
      case Repeat(k, _, _) => if k == t { ImageReplaced(og, tr, e, t, c, og.h[x0].token); }
      case _ =>
    }
  }

  lemma {:induction false} BumpAbove(a: Counts, b: Counts, o: Ref)
    requires Below(a, b)
    ensures Below(a, Bump(b, o))
  {
    forall x ensures CountOf(a, x) <= CountOf(Bump(b, o), x) {
      assert CountOf(a, x) <= CountOf(b, x);
    }
  }

  lemma {:induction false} ReplacedKids(n: Node, t: Ref, c: Ref, k: Ref)
    requires k in Kids(ReplaceIn(n, t, c))
    ensures k in Kids(n) || (k == c && t in Kids(n))
  {
    var i :| 0 <= i < |Kids(n)| && Kids(ReplaceIn(n, t, c))[i] == k;
    assert Kids(n)[i] in Kids(n);
  }

  /** The parent of the pointer. */
  lemma {:induction false} ReplacedOk(og: Basis, tr: Trace, h: Graph, g: Graph, known: map<Ref, Ref>, t: Ref, c: Ref,
          p: Ref)
    requires Formed(og.h, og.rank) && Expanded(og, tr, t, c) && TokenOk(og, tr, h, known, p)
    requires !h[p].Pointer? && p in g && g[p] == ReplaceIn(h[p], t, c)
    ensures TokenOk(og, tr, g, known, p)
  {
    hide Formed, Below, Holds;
    HoldsReplaced(og, tr, t, c, h[p], tr.src[p], tr.at[p]);
    ReplacedKind(h[p], og.h[tr.src[p]], t, c);
    forall k | k in Kids(g[p]) ensures k in tr.at && Below(tr.at[p], tr.at[k]) {
      ReplacedKids(h[p], t, c, k);
      if k !in Kids(h[p]) { BumpAbove(tr.at[p], tr.at[t], tr.src[c]); }
    }
  }

  /** The pointer itself. */
  lemma {:induction false} SetOk(og: Basis, tr: Trace, h: Graph, g: Graph, known: map<Ref, Ref>, t: Ref, v: Option<Ref>)
    requires t in h && h[t].Pointer? && TokenOk(og, tr, h, known, t) && t in g && g[t] == Pointer(v)
    requires v.Some? ==>
        v.value in known && v.value in g && !g[v.value].Pointer? && v.value in tr.src
        && Stands(og.h, tr.src[t], tr.src[v.value])
    ensures TokenOk(og, tr, g, known, t)
  {
    hide Stands, Below;
  }

  // ---------- the steps of the machine ----------

  lemma {:induction false} TokensKnown(og: Basis, tr: Trace, h: Graph, known: map<Ref, Ref>, more: map<Ref, Ref>)
    requires TokensOk(og, tr, h, known) && forall k :: k in known ==> k in more
    ensures TokensOk(og, tr, h, more)
  {
    TokensAt(og, tr, h, known);
    TokensAre(og, tr, h, more);
    hide TokensOk, TokenOk;
    forall x | x in h ensures TokenOk(og, tr, h, more, x) {
      TokenStill(og, tr, tr, h, h, known, more, x);
    }
  }

  /** The clone of r, as the copies that it is made of. */
  lemma {:induction false} CloneCopied(m: Machine, rank: map<Ref, nat>, r: Ref, g: Graph, next: Ref, c: Ref)
    returns (o: map<Ref, Ref>)
    requires r in m.h && Cloned(m.h, m.next, r, g, next, c) && Sensible(m, rank)
    ensures CopyOf(m.h, m.next, g, next, o, m.h.Keys) && c in o && o[c] == r && c in g
  {
    hide *;
    SensibleFor(m, rank);
    DescendsCopyable(m.h, rank);
    o := ClonedCopies(m.h, m.next, r, g, next, c, m.h.Keys, rank);
    CopyKeys(m.h, m.next, g, next, o);
  }

  lemma {:induction false} SensibleFor(m: Machine, rank: map<Ref, nat>)
    requires Sensible(m, rank)
    ensures Descends(m.h, m.h.Keys, rank) && TargetsIn(m.h, m.h.Keys) && forall x :: x in m.h ==> x < m.next
  {
    hide Descends, TargetsIn;
  }

  lemma {:induction false} CountingStill(a: Trace, b: Trace, queue: seq<Item>)
    requires Counting(a, queue) && ExtendsTrace(a, b)
    ensures Counting(b, queue)
  {
    hide Below;
  }

  lemma {:induction false} RootStill(og: Basis, a: Trace, b: Trace, root: Ref, climbed: bool)
    requires RootKept(og, a, root, climbed) && ExtendsTrace(a, b)
    ensures RootKept(og, b, root, climbed)
  {
    hide Rest, Aim;
  }

  lemma {:induction false} RegisterCovers(og: Basis, tr: Trace, m: Machine, rank: map<Ref, nat>, child: Ref,
          n: Machine) returns (tr': Trace)
    requires child in m.h && (child in og.h || child in m.originals) && Registers(m, child, n) && Sensible(m, rank)
    requires Covers(og, tr, m)
    ensures Covers(og, tr', n) && ExtendsTrace(tr, tr')
  {
    hide Cloned, Sensible, Covers;
    if child in m.originals {
      tr' := tr;
      ExtendsItself(tr);
    } else {
      var g: Graph, next: Ref, c: Ref :| Cloned(m.h, m.next, child, g, next, c)
        && n == m.(h := g, next := next, originals := m.originals[child := child], clones := m.clones[child := c]);
      hide *;
      tr' := RegisterNew(og, tr, m, rank, child, g, next, c, n);
    }
  }

  lemma {:induction false} RegisterNew(og: Basis, tr: Trace, m: Machine, rank: map<Ref, nat>, child: Ref, g: Graph,
          next: Ref, c: Ref, n: Machine) returns (tr': Trace)
    requires child in m.h && child in og.h && Cloned(m.h, m.next, child, g, next, c) && Sensible(m, rank)
    requires n.h == g && n.originals == m.originals[child := child] && n.clones == m.clones[child := c]
    requires n.queue == m.queue && n.root == m.root && n.climbed == m.climbed
    requires Covers(og, tr, m)
    ensures Covers(og, tr', n) && ExtendsTrace(tr, tr')
  {
    hide *;
    CoversParts(og, tr, m);
    var o := CloneCopied(m, rank, child, g, next, c);
    tr' := Copied(tr, o, map[]);
    CopyExtends(tr, m.h, m.next, g, next, o, map[]);
    CopiesOk(og, tr, m.h, m.originals, m.next, g, next, o, map[]);
    TokensKnown(og, tr', g, m.originals, n.originals);
    OriginalAt(og, tr, m.h, child);
    ExtendsAt(tr, tr', child);
    PlusNothing(map[]);
    KnownMore(og, tr, tr', m, child, c, n);
    CountingStill(tr, tr', m.queue);
    RootStill(og, tr, tr', m.root, m.climbed);
    CoversIs(og, tr', n);
  }

  lemma {:induction false} OriginalAt(og: Basis, tr: Trace, h: Graph, x: Ref)
    requires Original(og, tr, h) && x in og.h
    ensures x in h && x in tr.src && x in tr.at && tr.src[x] == x && tr.at[x] == map[]
  {
  }

  lemma {:induction false} KnownMore(og: Basis, tr: Trace, tr': Trace, m: Machine, child: Ref, c: Ref, n: Machine)
    requires Known(og, tr, m) && ExtendsTrace(tr, tr') && child in og.h && child in tr'.src && tr'.src[child] == child
    requires c in tr'.src && c in tr'.at && tr'.src[c] == child && tr'.at[c] == map[]
    requires n.originals == m.originals[child := child] && n.clones == m.clones[child := c]
    ensures Known(og, tr', n)
  {
  }

  /** The entry's pointer can be expanded to the original. */
  ghost predicate MayExpand(og: Basis, tr: Trace, m: Machine, item: Item, original: Ref) {
    && item.Item? && item.tok in m.h && m.h[item.tok].Pointer? && item.tok in tr.src && item.tok in tr.at
    && tr.src[item.tok] in og.h && og.h[tr.src[item.tok]].Pointer? && Aim(og.h, tr.src[item.tok], {}) == At(original)
    && Below(item.counts, tr.at[item.tok]) && (item.parent.NoItem? ==> item.tok == m.root)
    && (item.parent.Item? ==> item.parent.tok in m.h && item.parent.tok != item.tok)
  }

  lemma {:induction false} LinkedTokens(og: Basis, tr: Trace, g: Graph, known: map<Ref, Ref>, item: Item, c: Ref)
    requires item.Item? && item.tok in g && g[item.tok].Pointer? && c in g && !g[c].Pointer? && c in known
    requires item.parent.Item? ==> item.parent.tok in g && item.parent.tok != item.tok
    requires Formed(og.h, og.rank) && TokensOk(og, tr, g, known) && Expanded(og, tr, item.tok, c)
    ensures TokensOk(og, tr, LinkedGraph(g, item, c), known) && Stays(g, LinkedGraph(g, item, c))
    ensures LinkedGraph(g, item, c).Keys == g.Keys
  {
    var l, t := LinkedGraph(g, item, c), item.tok;
    LinkedNodes(g, item, c);
    TokensAt(og, tr, g, known);
    TokensAre(og, tr, l, known);
    assert Stands(og.h, tr.src[t], tr.src[c]) by { ExpandedStands(og, tr, t, c); }
    ExtendsItself(tr);
    hide *;
    forall x | x in l ensures TokenOk(og, tr, l, known, x) {
      if x == t {
        SetOk(og, tr, g, l, known, t, Some(c));
      } else if item.parent.Item? && x == item.parent.tok && !g[x].Pointer? {
        ReplacedOk(og, tr, g, l, known, t, c, x);
      } else {
        TokenStill(og, tr, tr, g, l, known, known, x);
      }
    }
  }

  lemma {:induction false} ExtendsAt(a: Trace, b: Trace, x: Ref)
    requires ExtendsTrace(a, b) && x in a.src && x in a.at
    ensures x in b.src && x in b.at && b.src[x] == a.src[x] && b.at[x] == a.at[x]
  {
  }

  lemma {:induction false} ExtendsItself(tr: Trace)
    ensures ExtendsTrace(tr, tr)
  {
  }

  lemma {:induction false} ExpandedStands(og: Basis, tr: Trace, t: Ref, c: Ref)
    requires Formed(og.h, og.rank) && Expanded(og, tr, t, c)
    ensures Stands(og.h, tr.src[t], tr.src[c])
  {
    AimStandsFor(og.h, tr.src[t], {});
  }

  lemma {:induction false} LinkedNodes(g: Graph, item: Item, c: Ref)
    requires item.Item? && item.tok in g && g[item.tok].Pointer?
    requires item.parent.Item? ==> item.parent.tok in g && item.parent.tok != item.tok
    ensures var l := LinkedGraph(g, item, c);
            && l.Keys == g.Keys && Stays(g, l) && l[item.tok] == Pointer(Some(c))
            && (item.parent.Item? ==> l[item.parent.tok] == ReplaceIn(g[item.parent.tok], item.tok, c))
            && forall x :: x in g && x != item.tok && !(item.parent.Item? && x == item.parent.tok && !g[x].Pointer?) ==>
                 l[x] == g[x]
  {
  }

  lemma {:induction false} ExpandCovers(og: Basis, tr: Trace, m: Machine, rank: map<Ref, nat>, item: Item,
          original: Ref, n: Machine) returns (tr': Trace)
    requires item.Item? && Expands(m, item, original, n) && MayExpand(og, tr, m, item, original) && Sensible(m, rank)
    requires Covers(og, tr, m)
    ensures Covers(og, tr', n)
  {
    hide MayExpand, Cloned, Sensible, Covers, PutIn;
    var g: Graph, next: Ref, c: Ref :| Cloned(m.h, m.next, m.clones[original], g, next, c)
                                       && n == PutIn(m, item, original, g, next, c);
    hide *;
    tr' := ExpandNow(og, tr, m, rank, item, original, g, next, c, n);
  }

  lemma {:induction false} ExpandNow(og: Basis, tr: Trace, m: Machine, rank: map<Ref, nat>, item: Item, original: Ref,
          g: Graph, next: Ref, c: Ref, n: Machine) returns (tr': Trace)
    requires item.Item? && original in m.clones && MayExpand(og, tr, m, item, original) && Sensible(m, rank)
    requires Cloned(m.h, m.next, m.clones[original], g, next, c) && n == PutIn(m, item, original, g, next, c)
    requires Covers(og, tr, m)
    ensures Covers(og, tr', n)
  {
    hide *;
    ExpandableParts(og, tr, m, item, original);
    var d := Bump(tr.at[item.tok], original);
    CoversParts(og, tr, m);
    KnownClone(og, tr, m, original);
    var o := CloneCopied(m, rank, m.clones[original], g, next, c);
    tr' := Copied(tr, o, d);
    CopyExtends(tr, m.h, m.next, g, next, o, d);
    CopiesOk(og, tr, m.h, m.originals, m.next, g, next, o, d);
    PlusNothing(d);
    ExpandedIs(og, tr, tr', m, item, original, c);
    ExpandedLinks(og, tr', m, g, item, original, next, c, n);
    ExpandedRest(og, tr, tr', m, g, item, original, next, c, n);
    CoversIs(og, tr', n);
  }

  lemma {:induction false} ExpandableParts(og: Basis, tr: Trace, m: Machine, item: Item, original: Ref)
    requires MayExpand(og, tr, m, item, original)
    ensures item.Item? && item.tok in m.h && m.h[item.tok].Pointer? && item.tok in tr.at
    ensures item.parent.Item? ==> item.parent.tok in m.h && item.parent.tok != item.tok
    ensures Below(item.counts, tr.at[item.tok]) && (item.parent.NoItem? ==> item.tok == m.root)
  {
    hide Aim, Below;
  }

  lemma {:induction false} KnownClone(og: Basis, tr: Trace, m: Machine, original: Ref)
    requires Known(og, tr, m) && original in m.clones && AllTraced(tr, m.h)
    ensures m.clones[original] in m.h && original in og.h
    ensures m.clones[original] in tr.src && m.clones[original] in tr.at
    ensures tr.src[m.clones[original]] == original && tr.at[m.clones[original]] == map[]
  {
  }

  lemma {:induction false} ExpandedIs(og: Basis, tr: Trace, tr': Trace, m: Machine, item: Item, original: Ref, c: Ref)
    requires MayExpand(og, tr, m, item, original) && ExtendsTrace(tr, tr') && c in tr'.src && c in tr'.at
    requires tr'.src[c] == original && tr'.at[c] == Bump(tr.at[item.tok], original)
    ensures Expanded(og, tr', item.tok, c)
  {
    hide Aim, Below;
  }

  lemma {:induction false} ExpandedLinks(og: Basis, tr: Trace, m: Machine, g: Graph, item: Item, original: Ref,
          next: Ref, c: Ref, n: Machine)
    requires item.Item? && n == PutIn(m, item, original, g, next, c) && c in g && Formed(og.h, og.rank)
    requires item.tok in m.h && m.h[item.tok].Pointer? && Stays(m.h, g) && AllTraced(tr, g)
    requires item.parent.Item? ==> item.parent.tok in m.h && item.parent.tok != item.tok
    requires Expanded(og, tr, item.tok, c) && TokensOk(og, tr, g, m.originals) && Original(og, tr, g)
    ensures TokensOk(og, tr, n.h, n.originals) && Original(og, tr, n.h) && AllTraced(tr, n.h)
  {
    var known := m.originals[c := original];
    hide *;
    StaysAt(m.h, g, item.tok);
    if item.parent.Item? { StaysAt(m.h, g, item.parent.tok); }
    ExpandedKind(og, tr, g, m.originals, item.tok, c);
    TokensKnown(og, tr, g, m.originals, known);
    LinkedTokens(og, tr, g, known, item, c);
    ExtendsItself(tr);
    OriginalStill(og, tr, tr, g, LinkedGraph(g, item, c));
    PutInParts(m, item, original, g, next, c, n);
    TracedStill(tr, g, n.h);
  }

  lemma {:induction false} StaysAt(h: Graph, g: Graph, x: Ref)
    requires Stays(h, g) && x in h
    ensures x in g && (h[x].Pointer? <==> g[x].Pointer?)
  {
  }

  /** An expansion is no pointer. */
  lemma {:induction false} ExpandedKind(og: Basis, tr: Trace, g: Graph, known: map<Ref, Ref>, t: Ref, c: Ref)
    requires Formed(og.h, og.rank) && TokensOk(og, tr, g, known) && Expanded(og, tr, t, c) && c in g
    ensures !g[c].Pointer?
  {
    AimKnown(og.h, tr.src[t], {});
    TokensAt(og, tr, g, known);
    OkKind(og, tr, g, known, c);
    hide TokensOk, TokenOk, Aim;
  }

  lemma {:induction false} TracedStill(tr: Trace, g: Graph, h: Graph)
    requires AllTraced(tr, g) && h.Keys == g.Keys
    ensures AllTraced(tr, h)
  {
  }

  lemma {:induction false} PutInParts(m: Machine, item: Item, original: Ref, g: Graph, next: Ref, c: Ref, n: Machine)
    requires item.Item? && n == PutIn(m, item, original, g, next, c)
    ensures n.h == LinkedGraph(g, item, c) && n.originals == m.originals[c := original] && n.clones == m.clones
    ensures n.queue == [Item(c, item.parent, Bump(item.counts, original))] + m.queue && n.climbed == m.climbed
    ensures n.root == if item.parent.NoItem? then c else m.root
  {
    hide LinkedGraph;
  }

  /** The clone in the place of the root. */
  lemma {:induction false} RootReplaced(og: Basis, tr: Trace, t: Ref, c: Ref)
    requires Formed(og.h, og.rank) && Expanded(og, tr, t, c) && RootKept(og, tr, t, false)
    ensures RootKept(og, tr, c, false)
  {
    hide Expanded, Formed, Rest, Image, Spared;
    if Rest(og, og.root, map[]).Some? { ImageReplaced(og, tr, map[], t, c, og.root); }
  }

  lemma {:induction false} KnownExpanded(og: Basis, tr: Trace, tr': Trace, m: Machine, c: Ref, original: Ref,
          n: Machine)
    requires Known(og, tr, m) && ExtendsTrace(tr, tr') && c in tr'.src && tr'.src[c] == original
    requires n.originals == m.originals[c := original] && n.clones == m.clones
    ensures Known(og, tr', n)
  {
  }

  lemma {:induction false} CountingMore(tr: Trace, item: Item, queue: seq<Item>)
    requires Counting(tr, queue) && item.Item? && item.tok in tr.at && Below(item.counts, tr.at[item.tok])
    ensures Counting(tr, [item] + queue)
  {
    hide Below;
  }

  lemma {:induction false} ExpandedRest(og: Basis, tr: Trace, tr': Trace, m: Machine, g: Graph, item: Item,
          original: Ref, next: Ref, c: Ref, n: Machine)
    requires MayExpand(og, tr, m, item, original) && n == PutIn(m, item, original, g, next, c)
    requires ExtendsTrace(tr, tr') && c in tr'.src && c in tr'.at && tr'.src[c] == original
    requires tr'.at[c] == Bump(tr.at[item.tok], original) && Expanded(og, tr', item.tok, c) && Formed(og.h, og.rank)
    requires Known(og, tr, m) && Counting(tr, m.queue) && RootKept(og, tr, m.root, m.climbed)
    ensures Known(og, tr', n) && Counting(tr', n.queue) && RootKept(og, tr', n.root, n.climbed)
  {
    hide *;
    ExpandableParts(og, tr, m, item, original);
    PutInParts(m, item, original, g, next, c, n);
    KnownExpanded(og, tr, tr', m, c, original, n);
    CountingStill(tr, tr', m.queue);
    BumpBelow(item.counts, tr.at[item.tok], original);
    CountingMore(tr', Item(c, item.parent, Bump(item.counts, original)), m.queue);
    RootStill(og, tr, tr', m.root, m.climbed);
    if item.parent.NoItem? {
      if m.climbed {
        ClimbedAnyway(og, tr', m.root, c);
      } else {
        RootReplaced(og, tr', item.tok, c);
      }
    }
  }

  lemma {:induction false} ClimbedAnyway(og: Basis, tr: Trace, a: Ref, b: Ref)
    requires RootKept(og, tr, a, true)
    ensures RootKept(og, tr, b, true)
  {
    hide Rest, Image;
  }
}
