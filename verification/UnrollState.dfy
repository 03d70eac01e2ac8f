/**
 * What the unrolling of pointers keeps at every step (token/transform.go:131-337): the invariant,
 * in groups, over a snapshot of the algorithm's state.
 */
module UnrollState {
  import opened TokenGraphs
  import opened UnrollWords

  /** An entry of the worklist: a token, the entry it was reached from, the expansions on the way. */
  datatype Item = NoItem | Item(tok: Ref, parent: Item, counts: map<Ref, nat>)

  /** The state, with what the proof remembers about it. */
  datatype View = View(
    h: Graph,
    next: Ref,
    root: Ref,
    /** Tokens that are not below the root: what they hold is not looked at. */
    side: set<Ref>,
    /** A token the algorithm knows, and the original it is a clone of. */
    originals: map<Ref, Ref>,
    /** For each original, the clone every expansion is cloned from. */
    clones: map<Ref, Ref>,
    climbed: bool,
    /** The token of the original graph each token comes from. */
    src: Source,
    rank: map<Ref, nat>,
    top: nat,
    /** The number of tokens below a token that was not visited yet. */
    size: map<Ref, nat>,
    /** The tokens that were taken from the worklist. */
    done: set<Ref>,
    /** Those of them that were cut off or replaced. */
    dead: set<Ref>,
    /** The counts with which a token was put on the worklist. */
    cnt: map<Ref, map<Ref, nat>>)

  // ---------- the shape of the graph ----------

  ghost predicate NoRepeats(ts: seq<Ref>) {
    forall i, j :: 0 <= i < j < |ts| ==> ts[i] != ts[j]
  }

  /** No token is a child twice. */
  ghost predicate UniqueParent(h: Graph) {
    && (forall p :: p in h ==> NoRepeats(Kids(h[p])))
    && (forall p, q, k :: p in h && q in h && k in Kids(h[p]) && k in Kids(h[q]) ==> p == q)
  }

  ghost predicate Orphan(h: Graph, k: Ref) {
    forall p :: p in h ==> k !in Kids(h[p])
  }

  /** k is the child of no token, except for those aside. */
  ghost predicate Apart(h: Graph, side: set<Ref>, k: Ref) {
    forall p :: p in h && p !in side ==> k !in Kids(h[p])
  }

  /** What is not aside leads only to what is not aside. */
  ghost predicate Aside(h: Graph, side: set<Ref>) {
    forall p, k :: p in h && p !in side && k in Kids(h[p]) ==> k !in side
  }

  ghost predicate Shape(v: View) {
    && Closed(v.h) && UniqueParent(v.h) && Acyclic(v.h, v.rank)
    && (forall r :: r in v.h ==> r < v.next && v.rank[r] < v.top)
    && v.root in v.h && v.root !in v.side && Apart(v.h, v.side, v.root)
    && v.dead <= v.done <= v.h.Keys
    && v.side <= v.h.Keys && v.side !! v.done && Aside(v.h, v.side)
  }

  ghost predicate Sourced(h0: Graph, r0: Ref, v: View) {
    && Simulates(h0, v.h, v.src) && v.src.Keys == v.h.Keys && h0.Keys <= v.h.Keys
    && v.root in v.src && Stands(h0, r0, v.src[v.root])
  }

  // ---------- sizes of what is still to be visited ----------

  function SizeOf(size: map<Ref, nat>, k: Ref): nat {
    if k in size then size[k] else 0
  }

  function SizeAll(size: map<Ref, nat>, ts: seq<Ref>): nat {
    if ts == [] then 0 else SizeOf(size, ts[0]) + SizeAll(size, ts[1..])
  }

  /** On dom, size counts the tokens at and below. */
  ghost predicate Exact(h: Graph, dom: set<Ref>, size: map<Ref, nat>) {
    forall r :: r in dom && r in h ==> SizeOf(size, r) == 1 + SizeAll(size, Kids(h[r]))
  }

  ghost predicate ClosedIn(h: Graph, dom: set<Ref>) {
    && dom <= h.Keys
    && forall r, k :: r in dom && r in h && k in Kids(h[r]) ==> k in dom
  }

  /** The tokens that were not visited, except those aside. */
  ghost function Unvisited(v: View): set<Ref> {
    v.h.Keys - v.done - v.side
  }

  /** Tokens that were not visited have only children that were not visited. */
  ghost predicate Sized(v: View) {
    ClosedIn(v.h, Unvisited(v)) && Exact(v.h, Unvisited(v), v.size)
  }

  // ---------- originals ----------

  ghost predicate InItems(items: seq<Item>, k: Ref) {
    exists i :: 0 <= i < |items| && items[i].Item? && items[i].tok == k
  }

  /** x is known to be a copy of its original, or is an original itself. */
  ghost predicate KnownOk(v: View, x: Ref) {
    && x in v.originals && x in v.h && !v.h[x].Pointer?
    && v.originals[x] in v.clones
    && x in v.src && v.originals[x] in v.src && v.src[x] == v.src[v.originals[x]]
  }

  /** The clone kept for the original o: untouched, and in nobody's reach. */
  ghost predicate CloneOk(h0: Graph, v: View, o: Ref) {
    && o in v.clones && o in h0 && o in v.originals && v.originals[o] == o && o in v.src
    && v.clones[o] in v.h && v.clones[o] !in v.done && v.clones[o] !in v.side && !v.h[v.clones[o]].Pointer?
    && v.clones[o] in v.src && v.src[v.clones[o]] == v.src[o]
    && v.clones[o] !in v.originals && v.clones[o] !in h0 && Orphan(v.h, v.clones[o])
  }

  ghost predicate Registered(h0: Graph, v: View, pend: seq<Item>) {
    && (forall x :: x in v.originals ==> KnownOk(v, x))
    && (forall o :: o in v.clones ==> CloneOk(h0, v, o) && !InItems(pend, v.clones[o]))
    && TargetsIn(v.h, h0.Keys + v.originals.Keys)
  }

  // ---------- the worklist ----------

  /** If k has a parent that is not aside, it is the token of that entry. */
  ghost predicate OnlyParent(h: Graph, side: set<Ref>, k: Ref, parent: Item) {
    forall p :: p in h && p !in side && k in Kids(h[p]) ==> parent.Item? && p == parent.tok
  }

  ghost predicate ChainOk(v: View, it: Item)
    decreases it
  {
    it.Item? ==>
      && it.tok in v.done && it.tok in v.h && !v.h[it.tok].Pointer?
      && OnlyParent(v.h, v.side, it.tok, it.parent)
      && (it.parent.NoItem? <==> it.tok == v.root)
      && ChainOk(v, it.parent)
  }

  ghost predicate ItemOk(v: View, it: Item) {
    && it.Item? && it.tok in v.h && it.tok !in v.done && it.tok !in v.side
    && OnlyParent(v.h, v.side, it.tok, it.parent)
    && (it.parent.NoItem? <==> it.tok == v.root)
    && ChainOk(v, it.parent)
  }

  ghost predicate Pending(v: View, pend: seq<Item>) {
    && (forall i :: 0 <= i < |pend| ==> ItemOk(v, pend[i]))
    && (forall i, j :: 0 <= i < j < |pend| ==> pend[i].Item? && pend[j].Item? && pend[i].tok != pend[j].tok)
  }

  // ---------- what is reachable ----------

  /**
   * A visited token that was not cut off is no pointer, and its children are visited and not cut
   * off, or on the worklist. While a cut climbs, the token `at` may still have the child `gone`.
   */
  ghost predicate Live(v: View, pend: seq<Item>, at: Item, gone: Ref) {
    && (forall r :: r in v.done && r !in v.dead ==> r in v.h && !v.h[r].Pointer?)
    && (forall r, k :: r in v.done && r !in v.dead && r in v.h && k in Kids(v.h[r]) ==>
          || (at.Item? && r == at.tok && k == gone)
          || (k !in v.dead && (k in v.done || InItems(pend, k))))
    && (v.root in v.done || InItems(pend, v.root))
    && (v.root in v.dead ==> v.climbed)
  }

  // ---------- counts ----------

  /** k is the root of a clone put in the place of a pointer. */
  ghost predicate Expansion(originals: map<Ref, Ref>, k: Ref) {
    k in originals && originals[k] != k
  }

  function CountOf(counts: map<Ref, nat>, o: Ref): nat {
    if o in counts then counts[o] else 0
  }

  /** The counts below a token whose parent has these counts. */
  ghost function Bumped(counts: map<Ref, nat>, originals: map<Ref, Ref>, k: Ref): map<Ref, nat> {
    if Expansion(originals, k) then counts[originals[k] := CountOf(counts, originals[k]) + 1] else counts
  }

  ghost predicate CountsOk(known: set<Ref>, limit: nat, counts: map<Ref, nat>) {
    forall o :: o in counts ==> o in known && counts[o] <= limit
  }

  /** An entry carries the counts of its token. */
  ghost predicate ItemCounts(v: View, pend: seq<Item>) {
    forall i :: 0 <= i < |pend| && pend[i].Item? ==> pend[i].tok in v.cnt && v.cnt[pend[i].tok] == pend[i].counts
  }

  /** Counts grow by one at each expansion, and nowhere else. */
  ghost predicate EdgeCounts(v: View) {
    forall r, k :: r in v.done && r !in v.dead && r in v.h && k in Kids(v.h[r]) ==> EdgeCount(v, r, k)
  }

  ghost predicate EdgeCount(v: View, r: Ref, k: Ref) {
    r in v.cnt && k in v.cnt && v.cnt[k] == Bumped(v.cnt[r], v.originals, k)
  }

  ghost predicate NoExpansionBelow(v: View) {
    forall r, k :: r in v.h && r !in v.done && r !in v.side && k in Kids(v.h[r]) ==> !Expansion(v.originals, k)
  }

  ghost predicate Counted(limit: nat, v: View, pend: seq<Item>) {
    && ItemCounts(v, pend)
    && (forall r :: r in v.cnt ==> CountsOk(v.clones.Keys, limit, v.cnt[r]))
    && NoExpansionBelow(v)
    && EdgeCounts(v)
    && v.root in v.cnt && v.cnt[v.root] == Bumped(map[], v.originals, v.root)
  }

  /** Everything, with `pend` still to be visited. */
  ghost predicate Inv(h0: Graph, r0: Ref, limit: nat, v: View, pend: seq<Item>, at: Item, gone: Ref) {
    && Shape(v)
    && Sourced(h0, r0, v)
    && Sized(v)
    && Registered(h0, v, pend)
    && Pending(v, pend)
    && Live(v, pend, at, gone)
    && Counted(limit, v, pend)
  }
}
