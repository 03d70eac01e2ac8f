/**
 * Token graphs: tokens as references into a store of nodes, so that sharing, pointers and in-place
 * edits are explicit. Used by the loop detection, the minimiser and the unrolling of pointers.
 */
module TokenGraphs {

  type Ref = nat

  datatype Option<T> = None | Some(value: T)

  datatype Node =
    | Text(text: string)
    | Concat(tokens: seq<Ref>)
    | One(tokens: seq<Ref>)
    | Optional(token: Ref)
    | Scope(token: Ref)
    | Repeat(token: Ref, from: nat, to: nat)
    | Pointer(target: Option<Ref>)

  type Graph = map<Ref, Node>

  /** InternalGet(0..InternalLen-1), or InternalGet of a forward token that is no pointer. */
  function Kids(n: Node): seq<Ref> {
    match n
    case Concat(ts) => ts
    case One(ts) => ts
    case Optional(t) => [t]
    case Scope(t) => [t]
    case Repeat(t, _, _) => [t]
    case _ => []
  }

  /** Every reference leads to a token. */
  ghost predicate Closed(h: Graph) {
    forall r, k :: r in h && k in Kids(h[r]) ==> k in h
  }

  ghost predicate TargetsIn(h: Graph, s: set<Ref>) {
    forall r :: r in h && h[r].Pointer? && h[r].target.Some? ==> h[r].target.value in s
  }

  /** Without its pointers the graph has no cycle: the rank falls from every token to its children. */
  ghost predicate Acyclic(h: Graph, rank: map<Ref, nat>) {
    && h.Keys <= rank.Keys
    && forall r, k :: r in h && k in Kids(h[r]) && k in h ==> rank[k] < rank[r]
  }

  /** A One is made of at least one token. */
  ghost predicate Alternatives(h: Graph) {
    forall r :: r in h && h[r].One? ==> h[r].tokens != []
  }

  // ---------- in-place edits of one token ----------

  function Replaced(ts: seq<Ref>, old_: Ref, new_: Ref): (r: seq<Ref>)
    ensures |r| == |ts|
    ensures forall i :: 0 <= i < |ts| ==> r[i] == if ts[i] == old_ then new_ else ts[i]
  {
    seq(|ts|, i requires 0 <= i < |ts| => if ts[i] == old_ then new_ else ts[i])
  }

  /** InternalReplace of a token that is no pointer. */
  function ReplaceIn(n: Node, old_: Ref, new_: Ref): (m: Node)
    ensures Kids(m) == Replaced(Kids(n), old_, new_)
    ensures m.Pointer? == n.Pointer?
  {
    match n
    case Concat(ts) => Concat(Replaced(ts, old_, new_))
    case One(ts) => One(Replaced(ts, old_, new_))
    case Optional(t) => Optional(if t == old_ then new_ else t)
    case Scope(t) => Scope(if t == old_ then new_ else t)
    case Repeat(t, from, to) => Repeat(if t == old_ then new_ else t, from, to)
    case _ => n
  }

  // ---------- what a token can print ----------

  /** t, n times. */
  function Times(t: Ref, n: nat): (ts: seq<Ref>)
    ensures |ts| == n && forall i :: 0 <= i < n ==> ts[i] == t
  {
    seq(n, i => t)
  }

  lemma {:induction false} TimesMore(t: Ref, n: nat)
    ensures Times(t, n + 1) == [t] + Times(t, n) && Times(t, n + 1)[1..] == Times(t, n)
  {
  }

  /** A finite proof that a token prints a word. */
  datatype Derivation = Derivation(parts: seq<Derivation>)

  ghost predicate Yields(h: Graph, r: Ref, d: Derivation, w: string)
    decreases d, 0
  {
    r in h &&
    match h[r]
    case Text(t) => w == t
    case Concat(ts) => YieldsAll(h, ts, d.parts, w)
    case One(ts) => |d.parts| == 1 && exists i :: 0 <= i < |ts| && Yields(h, ts[i], d.parts[0], w)
    case Optional(t) => w == [] || (|d.parts| == 1 && Yields(h, t, d.parts[0], w))
    case Scope(t) => |d.parts| == 1 && Yields(h, t, d.parts[0], w)
    case Repeat(t, from, to) =>
      from <= |d.parts| <= to && YieldsAll(h, Times(t, |d.parts|), d.parts, w)
    case Pointer(None) => false
    case Pointer(Some(t)) => |d.parts| == 1 && Yields(h, t, d.parts[0], w)
  }

  /** The tokens ts print one part of w each, in order. */
  ghost predicate YieldsAll(h: Graph, ts: seq<Ref>, ds: seq<Derivation>, w: string)
    decreases ds
  {
    if ts == [] || ds == [] then ts == [] && ds == [] && w == []
    else exists i :: 0 <= i <= |w| && Yields(h, ts[0], ds[0], w[..i]) && YieldsAll(h, ts[1..], ds[1..], w[i..])
  }

  /** The words of a token. */
  ghost predicate Prints(h: Graph, r: Ref, w: string) {
    exists d :: Yields(h, r, d, w)
  }
}
