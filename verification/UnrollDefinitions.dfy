/**
 * How often a token of the original graph occurs on a path of the result, whether or not it was expanded
 * there: if every pointer leads to the root of a definition, only as often as its definition is expanded.
 */
module UnrollDefinitions {
  import opened TokenGraphs
  import opened UnrollWords
  import opened UnrollState
  import opened UnrollMachine
  import opened UnrollSpec
  import opened UnrollTrees
  import opened UnrollResult

  /** A pointer leads to o. */
  ghost predicate Targeted(h: Graph, o: Ref) {
    exists p :: p in h && h[p] == Pointer(Some(o))
  }

  /** Every token is in a definition with its children, and pointers lead to definitions, but not to that of r. */
  ghost predicate Definitions(h: Graph, r: Ref, def: map<Ref, Ref>) {
    && h.Keys <= def.Keys && r in h && def[r] == r && !Targeted(h, r)
    && (forall x, k :: x in h && k in Kids(h[x]) ==> k in def && def[k] == def[x])
    && (forall o :: Targeted(h, o) ==> o in def && def[o] == o)
  }

  /** The number of copies of y on p. */
  ghost function Copies(src: Source, p: seq<Ref>, y: Ref): nat {
    if p == [] then 0 else (if p[0] in src && src[p[0]] == y then 1 else 0) + Copies(src, p[1..], y)
  }

  /** The expansions of the definition of y that may follow, and the one that y may be in. */
  ghost function Room(h: Graph, rank: map<Ref, nat>, limit: nat, def: map<Ref, Ref>, counts: map<Ref, nat>, x: Ref,
          y: Ref): nat
    requires h.Keys <= def.Keys && h.Keys <= rank.Keys && x in h && y in h
  {
    (if Targeted(h, def[y]) && CountOf(counts, def[y]) < limit then limit - CountOf(counts, def[y]) else 0)
    + (if def[x] == def[y] && rank[y] <= rank[x] then 1 else 0)
  }

  lemma {:induction false} AimTargets(h: Graph, t: Ref, checked: set<Ref>)
    requires Aim(h, t, checked).At?
    ensures Targeted(h, Aim(h, t, checked).child)
    decreases h.Keys - checked
  {
    var c := h[t].target.value;
    if c in h && h[c].Pointer? && c !in checked {
      AimTargets(h, c, checked + {c});
    }
  }

  lemma {:induction false} RoomGrown(h: Graph, rank: map<Ref, nat>, limit: nat, r: Ref, def: map<Ref, Ref>, x: Ref,
          o: Ref, counts: map<Ref, nat>, y: Ref)
    requires h.Keys <= rank.Keys && Definitions(h, r, def) && x in h && h[x].Pointer? && o in h && y in h
    requires Aim(h, x, {}) == At(o) && CountOf(counts, o) < limit
    ensures Room(h, rank, limit, def, Bump(counts, o), o, y) <= Room(h, rank, limit, def, counts, x, y)
  {
    AimTargets(h, x, {});
    hide Targeted;
  }

  lemma {:induction false} RoomBelow(h: Graph, rank: map<Ref, nat>, limit: nat, r: Ref, def: map<Ref, Ref>, x: Ref,
          k: Ref, counts: map<Ref, nat>, y: Ref)
    requires Formed(h, rank) && Definitions(h, r, def) && x in h && k in Kids(h[x]) && k in h && y in h
    ensures Room(h, rank, limit, def, counts, k, y)
        + (if x == y then 1 else 0) <= Room(h, rank, limit, def, counts, x, y)
  {
    hide Targeted;
  }

  lemma {:induction false} PathOn(g: Graph, s: Ref, p: seq<Ref>) returns (j: nat)
    requires Path(g, s, p) && |p| > 1
    ensures s in g && p[0] == s && Path(g, p[1], p[1..]) && j < |Kids(g[s])| && Kids(g[s])[j] == p[1]
  {
    assert p[0] in g && p[1] in Kids(g[p[0]]);
    j :| 0 <= j < |Kids(g[s])| && Kids(g[s])[j] == p[1];
    forall i | 0 <= i < |p[1..]| - 1 ensures p[1..][i] in g && p[1..][i + 1] in Kids(g[p[1..][i]]) {
      assert p[i + 1] in g && p[i + 2] in Kids(g[p[i + 1]]);
    }
  }

  /** On a path of the result a token has copies of it only as often as its definition is expanded. */
  lemma {:induction false} CopiesBounded(h: Graph, rank: map<Ref, nat>, limit: nat, r: Ref, def: map<Ref, Ref>,
          x: Ref, counts: map<Ref, nat>, g: Graph, src: Source, s: Ref, p: seq<Ref>, y: Ref)
    requires Formed(h, rank) && Definitions(h, r, def) && x in h && y in h && Unfold(h, rank, limit, x, counts).Some?
    requires Looks(h, g, src, s, Unfold(h, rank, limit, x, counts).value) && Path(g, s, p)
    ensures Copies(src, p, y) <= Room(h, rank, limit, def, counts, x, y)
    decreases |p|, Left(h, limit, counts)
  {
    if h[x].Pointer? {
      GrowsIfLeft(h, rank, limit, x, counts);
      UnfoldPointer(h, rank, limit, x, counts);
      var o := Aim(h, x, {}).child;
      hide Definitions, Unfold, Looks, Path, Copies, Room, Aim;
      LeftLess(h, limit, counts, o);
      hide Formed;
      CopiesBounded(h, rank, limit, r, def, o, Bump(counts, o), g, src, s, p, y);
      FormedRanks(h, rank);
      RoomGrown(h, rank, limit, r, def, x, o, counts, y);
    } else {
      UnfoldedOf(h, rank, limit, x, counts);
      hide Formed, Unfold, Aim, Definitions, Targeted;
      if |p| > 1 {
        var j := PathOn(g, s, p);
        var k := ChildOf(h, rank, limit, x, counts, j);
        hide Looks, Path;
        CopiesBounded(h, rank, limit, r, def, k, counts, g, src, p[1], p[1..], y);
        hide Room;
        RoomBelow(h, rank, limit, r, def, x, k, counts, y);
      } else {
        assert p[1..] == [];
      }
    }
  }

  lemma {:induction false} FormedRanks(h: Graph, rank: map<Ref, nat>)
    requires Formed(h, rank)
    ensures h.Keys <= rank.Keys
  {
  }

  /** From the root: at most `limit` copies, and one of what belongs to the root. */
  lemma {:induction false} FewCopies(h: Graph, rank: map<Ref, nat>, limit: nat, r: Ref, def: map<Ref, Ref>, g: Graph,
          src: Source, s: Ref, p: seq<Ref>, y: Ref)
    requires limit >= 1 && Definitions(h, r, def) && y in h && Unfolded(h, rank, limit, r, g, src, s, false)
        && Path(g, s, p)
    ensures Copies(src, p, y) <= if def[y] == r then 1 else limit
  {
    assert Unfold(h, rank, limit, r, map[]).Some?;
    CopiesBounded(h, rank, limit, r, def, r, map[], g, src, s, p, y);
    hide Targeted, Unfold, Looks, Path, Copies;
  }

  /** No path from s has more than `limit` copies of a token. */
  ghost predicate CopiesWithin(h: Graph, limit: nat, g: Graph, src: Source, s: Ref) {
    forall p, y :: Path(g, s, p) && y in h ==> Copies(src, p, y) <= limit
  }

  lemma {:induction false} NoMoreCopies(h: Graph, rank: map<Ref, nat>, limit: nat, r: Ref, def: map<Ref, Ref>,
          g: Graph, src: Source, s: Ref)
    requires limit >= 1 && Definitions(h, r, def) && Unfolded(h, rank, limit, r, g, src, s, false)
    ensures CopiesWithin(h, limit, g, src, s)
  {
    assert forall y :: y in h ==> y in def;
    hide Definitions, Unfolded, Path, Copies;
    forall p, y | Path(g, s, p) && y in h ensures Copies(src, p, y) <= limit {
      FewCopies(h, rank, limit, r, def, g, src, s, p, y);
    }
  }

  /** In such a grammar nothing leads into the tree of the root. */
  lemma {:induction false} DefinitionsIsolate(h: Graph, rank: map<Ref, nat>, r: Ref, def: map<Ref, Ref>)
    returns (own: set<Ref>)
    requires Closed(h) && TargetsIn(h, h.Keys) && Definitions(h, r, def) && r in h
    ensures Isolated(h, r, own)
  {
    own := set x | x in h && def[x] == r;
    forall x | x in h && h[x].Pointer? && h[x].target.Some? ensures h[x].target.value !in own {
      assert h[x] == Pointer(Some(h[x].target.value));
    }
  }
}
