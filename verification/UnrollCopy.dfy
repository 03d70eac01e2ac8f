/** Token.Clone on the graph: fresh copies of a token and everything below it; pointers are shared. */
module UnrollCopy {
  import opened TokenGraphs
  import opened UnrollState

  /** The same token, up to its children. */
  ghost predicate SameKind(n: Node, m: Node) {
    match n
    case Text(t) => m == n
    case Concat(_) => m.Concat?
    case One(_) => m.One?
    case Optional(_) => m.Optional?
    case Scope(_) => m.Scope?
    case Repeat(_, from, to) => m.Repeat? && m.from == from && m.to == to
    case Pointer(_) => m == n
  }

  /** n is m with every child replaced by a copy of it; `orig` leads from the copies back. */
  ghost predicate CopyNode(n: Node, m: Node, orig: map<Ref, Ref>) {
    && SameKind(n, m) && |Kids(n)| == |Kids(m)|
    && forall i :: 0 <= i < |Kids(n)| ==> Kids(n)[i] in orig && orig[Kids(n)[i]] == Kids(m)[i]
  }

  /** g is h with fresh tokens, each the copy of a token in dom. */
  ghost predicate CopyOf(h: Graph, n: Ref, g: Graph, m: Ref, orig: map<Ref, Ref>, dom: set<Ref>) {
    && n <= m && g.Keys == h.Keys + orig.Keys && orig.Keys !! h.Keys
    && (forall x :: x in h ==> g[x] == h[x])
    && CopiesMade(h, n, g, m, orig, dom)
    && SingleParents(g, orig)
  }

  ghost predicate CopiesMade(h: Graph, n: Ref, g: Graph, m: Ref, orig: map<Ref, Ref>, dom: set<Ref>)
    requires orig.Keys <= g.Keys
  {
    forall x :: x in orig ==>
      && n <= x < m && orig[x] in dom && orig[x] in h
      && CopyNode(g[x], h[orig[x]], orig) && NoRepeats(Kids(g[x]))
  }

  ghost predicate SingleParents(g: Graph, orig: map<Ref, Ref>)
    requires orig.Keys <= g.Keys
  {
    forall x, y, k :: x in orig && y in orig && k in Kids(g[x]) && k in Kids(g[y]) ==> x == y
  }

  ghost predicate NotBelow(g: Graph, orig: map<Ref, Ref>, c: Ref) {
    forall x :: x in orig && x in g ==> c !in Kids(g[x])
  }

  /** cs are copies of ts, one each, and below none of the copies made. */
  ghost predicate CopiesOf(cs: seq<Ref>, ts: seq<Ref>, g: Graph, orig: map<Ref, Ref>) {
    && |cs| == |ts| && NoRepeats(cs)
    && forall i :: 0 <= i < |cs| ==> cs[i] in orig && orig[cs[i]] == ts[i] && NotBelow(g, orig, cs[i])
  }

  /** Copies rank like what they are copies of. */
  ghost function RankWith(rank: map<Ref, nat>, o: map<Ref, Ref>): map<Ref, nat> {
    rank + map x | x in o && o[x] in rank :: rank[o[x]]
  }

  ghost predicate Copyable(h: Graph, dom: set<Ref>, rank: map<Ref, nat>) {
    Closed(h) && ClosedIn(h, dom) && Acyclic(h, rank)
  }

  ghost predicate RanksBelow(ts: seq<Ref>, dom: set<Ref>, rank: map<Ref, nat>, bound: nat) {
    forall i :: 0 <= i < |ts| ==> ts[i] in dom && ts[i] in rank && rank[ts[i]] < bound
  }

  lemma {:induction false} RanksBelowRest(ts: seq<Ref>, dom: set<Ref>, rank: map<Ref, nat>, rank': map<Ref, nat>,
          bound: nat)
    requires RanksBelow(ts, dom, rank, bound) && ts != []
    requires forall x :: x in dom ==> x in rank' && x in rank && rank'[x] == rank[x]
    ensures RanksBelow(ts[1..], dom, rank', bound)
  {
  }

  function WithKids(n: Node, cs: seq<Ref>): Node
    requires |cs| == |Kids(n)|
  {
    match n
    case Concat(_) => Concat(cs)
    case One(_) => One(cs)
    case Optional(_) => Optional(cs[0])
    case Scope(_) => Scope(cs[0])
    case Repeat(_, from, to) => Repeat(cs[0], from, to)
    case _ => n
  }

  lemma {:induction false} CopyNodeMore(n: Node, m: Node, orig: map<Ref, Ref>, more: map<Ref, Ref>)
    requires CopyNode(n, m, orig)
    requires forall x :: x in orig ==> x in more && more[x] == orig[x]
    ensures CopyNode(n, m, more)
  {
  }

  lemma {:induction false} KidsAreCopies(h: Graph, n: Ref, g: Graph, m: Ref, orig: map<Ref, Ref>, dom: set<Ref>,
          x: Ref, k: Ref)
    requires CopyOf(h, n, g, m, orig, dom) && x in orig && k in Kids(g[x])
    ensures k in orig
  {
    var i :| 0 <= i < |Kids(g[x])| && Kids(g[x])[i] == k;
  }

  /** Two copyings after each other are one. */
  lemma {:induction false} CopyTwice(h: Graph, n: Ref, g1: Graph, n1: Ref, o1: map<Ref, Ref>, g2: Graph, n2: Ref,
          o2: map<Ref, Ref>, dom: set<Ref>)
    requires dom <= h.Keys
    requires CopyOf(h, n, g1, n1, o1, dom) && CopyOf(g1, n1, g2, n2, o2, dom)
    ensures CopyOf(h, n, g2, n2, o1 + o2, dom)
  {
    var o := o1 + o2;
    forall x | x in o
      ensures n <= x < n2 && o[x] in dom && o[x] in h && CopyNode(g2[x], h[o[x]], o) && NoRepeats(Kids(g2[x]))
    {
      CopyNodeMore(g2[x], h[o[x]], if x in o2 then o2 else o1, o);
    }
    forall x, y, k | x in o && y in o && k in Kids(g2[x]) && k in Kids(g2[y]) ensures x == y {
      if x in o2 { KidsAreCopies(g1, n1, g2, n2, o2, dom, x, k); }
      else { KidsAreCopies(h, n, g1, n1, o1, dom, x, k); }
      if y in o2 { KidsAreCopies(g1, n1, g2, n2, o2, dom, y, k); }
      else { KidsAreCopies(h, n, g1, n1, o1, dom, y, k); }
    }
  }

  /** The copy of r itself, after its children were copied to cs. */
  lemma {:induction false} CopyRoot(h: Graph, n: Ref, g: Graph, m: Ref, o: map<Ref, Ref>, dom: set<Ref>, r: Ref,
          cs: seq<Ref>)
    requires CopyOf(h, n, g, m, o, dom) && r in dom && r in h
    requires (forall x :: x in g ==> x < m) && CopiesOf(cs, Kids(h[r]), g, o)
    ensures CopyOf(h, n, g[m := WithKids(h[r], cs)], m + 1, o[m := r], dom)
    ensures NotBelow(g[m := WithKids(h[r], cs)], o[m := r], m)
  {
    var f, p := g[m := WithKids(h[r], cs)], o[m := r];
    RootCopied(h[r], cs, o, p);
    RootApart(h, n, g, m, o, dom, cs);
    CopyRootParents(h, n, g, m, o, dom, r, f, cs);
    CopyRootNodes(h, n, g, m, o, dom, r, cs, f);
    hide CopiesMade, SingleParents, CopyNode, NoRepeats, CopiesOf, WithKids;
  }

  lemma {:induction false} CopyRootNodes(h: Graph, n: Ref, g: Graph, m: Ref, o: map<Ref, Ref>, dom: set<Ref>, r: Ref,
          cs: seq<Ref>, f: Graph)
    requires CopyOf(h, n, g, m, o, dom) && r in dom && r in h && m !in g
    requires m in f && f == g[m := f[m]] && Kids(f[m]) == cs && NoRepeats(cs) && CopyNode(f[m], h[r], o[m := r])
    ensures CopiesMade(h, n, f, m + 1, o[m := r], dom)
  {
    hide NoRepeats, CopyNode, SingleParents;
    var p := o[m := r];
    forall x | x in o ensures CopyNode(f[x], h[p[x]], p) {
      CopyNodeMore(f[x], h[p[x]], o, p);
    }
  }

  lemma {:induction false} CopyRootParents(h: Graph, n: Ref, g: Graph, m: Ref, o: map<Ref, Ref>, dom: set<Ref>,
          r: Ref, f: Graph, cs: seq<Ref>)
    requires CopyOf(h, n, g, m, o, dom) && m !in o
    requires m in f && Kids(f[m]) == cs && forall x :: x in o ==> x in f && x in g && f[x] == g[x]
    requires forall x, k :: x in o && x in g && k in Kids(g[x]) ==> k in o && k !in cs
    requires m !in cs
    ensures SingleParents(f, o[m := r]) && NotBelow(f, o[m := r], m)
  {
    hide CopyNode, NoRepeats, CopiesMade;
  }

  lemma {:induction false} RootCopied(n: Node, cs: seq<Ref>, o: map<Ref, Ref>, p: map<Ref, Ref>)
    requires |cs| == |Kids(n)| && forall i :: 0 <= i < |cs| ==> cs[i] in o && o[cs[i]] == Kids(n)[i]
    requires forall x :: x in o ==> x in p && p[x] == o[x]
    ensures Kids(WithKids(n, cs)) == cs && CopyNode(WithKids(n, cs), n, p)
  {
  }

  /** The children of the copies made are not among cs, and are copies themselves. */
  lemma {:induction false} RootApart(h: Graph, n: Ref, g: Graph, m: Ref, o: map<Ref, Ref>, dom: set<Ref>, cs: seq<Ref>)
    requires CopyOf(h, n, g, m, o, dom) && forall i :: 0 <= i < |cs| ==> NotBelow(g, o, cs[i])
    ensures forall x, k :: x in o && x in g && k in Kids(g[x]) ==> k in o && k !in cs
  {
    forall x, k | x in o && x in g && k in Kids(g[x]) ensures k in o && k !in cs {
      KidsAreCopies(h, n, g, m, o, dom, x, k);
      forall i | 0 <= i < |cs| ensures cs[i] != k { assert NotBelow(g, o, cs[i]); }
    }
  }

  lemma {:induction false} CopyableIn(h: Graph, dom: set<Ref>, rank: map<Ref, nat>)
    requires Copyable(h, dom, rank)
    ensures dom <= h.Keys
  {
  }

  lemma {:induction false} RanksKept(h: Graph, n: Ref, g: Graph, m: Ref, o: map<Ref, Ref>, dom: set<Ref>,
          rank: map<Ref, nat>)
    requires CopyOf(h, n, g, m, o, dom) && dom <= h.Keys <= rank.Keys
    ensures forall x :: x in o ==> o[x] in rank && x in RankWith(rank, o) && RankWith(rank, o)[x] == rank[o[x]]
    ensures forall x :: x in h ==> x in rank && x in RankWith(rank, o) && RankWith(rank, o)[x] == rank[x]
    ensures g.Keys <= RankWith(rank, o).Keys
  {
    hide CopyNode;
  }

  lemma {:induction false} RankOfCopies(h: Graph, n: Ref, g: Graph, m: Ref, o: map<Ref, Ref>, dom: set<Ref>,
          rank: map<Ref, nat>)
    requires CopyOf(h, n, g, m, o, dom) && Copyable(h, dom, rank)
    ensures Copyable(g, dom, RankWith(rank, o))
    ensures forall x :: x in dom ==> x in rank && x in RankWith(rank, o) && RankWith(rank, o)[x] == rank[x]
  {
    var rank1 := RankWith(rank, o);
    RanksKept(h, n, g, m, o, dom, rank);
    hide RankWith;
    forall r, k | r in g && k in Kids(g[r]) ensures k in g && rank1[k] < rank1[r] {
      hide CopyOf;
      CopyDescends(h, n, g, m, o, dom, rank, r, k);
    }
    CopyKept(h, n, g, m, o, dom);
    hide CopyOf;
    assert ClosedIn(g, dom);
  }

  lemma {:induction false} CopyKept(h: Graph, n: Ref, g: Graph, m: Ref, o: map<Ref, Ref>, dom: set<Ref>)
    requires CopyOf(h, n, g, m, o, dom)
    ensures forall x :: x in h ==> x in g && g[x] == h[x]
  {
  }

  lemma {:induction false} CopyDescends(h: Graph, n: Ref, g: Graph, m: Ref, o: map<Ref, Ref>, dom: set<Ref>,
          rank: map<Ref, nat>, r: Ref, k: Ref)
    requires CopyOf(h, n, g, m, o, dom) && Closed(h) && Acyclic(h, rank) && r in g && k in Kids(g[r])
    requires forall x :: x in o ==> o[x] in rank && x in RankWith(rank, o) && RankWith(rank, o)[x] == rank[o[x]]
    requires forall x :: x in h ==> x in rank && x in RankWith(rank, o) && RankWith(rank, o)[x] == rank[x]
    ensures k in g && k in RankWith(rank, o) && r in RankWith(rank, o) && RankWith(rank, o)[k] < RankWith(rank, o)[r]
  {
    hide RankWith, CopyNode;
    if r in o {
      var i :| 0 <= i < |Kids(g[r])| && Kids(g[r])[i] == k;
      CopyKid(h, n, g, m, o, dom, r, i);
    }
  }

  lemma {:induction false} CopyKid(h: Graph, n: Ref, g: Graph, m: Ref, o: map<Ref, Ref>, dom: set<Ref>, r: Ref, i: nat)
    requires CopyOf(h, n, g, m, o, dom) && r in o && i < |Kids(g[r])|
    ensures o[r] in dom && o[r] in h && |Kids(h[o[r]])| == |Kids(g[r])|
    ensures Kids(g[r])[i] in o && o[Kids(g[r])[i]] == Kids(h[o[r]])[i]
  {
  }

  lemma {:induction false} CopiesApart(h: Graph, n: Ref, g1: Graph, n1: Ref, o1: map<Ref, Ref>, g2: Graph, n2: Ref,
          o2: map<Ref, Ref>, dom: set<Ref>, c: Ref, rest: seq<Ref>, ts: seq<Ref>)
    requires CopyOf(h, n, g1, n1, o1, dom) && CopyOf(g1, n1, g2, n2, o2, dom)
    requires |ts| > 0 && c in o1 && o1[c] == ts[0] && NotBelow(g1, o1, c)
    requires CopiesOf(rest, ts[1..], g2, o2)
    ensures CopiesOf([c] + rest, ts, g2, o1 + o2)
  {
    hide SingleParents, CopyNode;
    var cs, o := [c] + rest, o1 + o2;
    forall x, k | x in o && x in g2 && k in Kids(g2[x]) ensures k !in cs {
      CopiesApartAt(h, n, g1, n1, o1, g2, n2, o2, dom, c, rest, ts[1..], x, k);
    }
    CopiesAreFresh(h, n, g1, n1, o1, g2, n2, o2, dom);
    hide CopyOf;
    forall i | 0 <= i < |cs| ensures cs[i] in o && o[cs[i]] == ts[i] && NotBelow(g2, o, cs[i]) {
      assert i > 0 ==> cs[i] == rest[i - 1] && ts[i] == ts[1..][i - 1];
      assert cs[i] in cs;
    }
  }

  lemma {:induction false} CopiesAreFresh(h: Graph, n: Ref, g1: Graph, n1: Ref, o1: map<Ref, Ref>, g2: Graph, n2: Ref,
          o2: map<Ref, Ref>, dom: set<Ref>)
    requires CopyOf(h, n, g1, n1, o1, dom) && CopyOf(g1, n1, g2, n2, o2, dom)
    ensures o1.Keys !! o2.Keys
  {
  }

  lemma {:induction false} CopiesApartAt(h: Graph, n: Ref, g1: Graph, n1: Ref, o1: map<Ref, Ref>, g2: Graph, n2: Ref,
          o2: map<Ref, Ref>, dom: set<Ref>, c: Ref, rest: seq<Ref>, ts: seq<Ref>, x: Ref, k: Ref)
    requires CopyOf(h, n, g1, n1, o1, dom) && CopyOf(g1, n1, g2, n2, o2, dom)
    requires c in o1 && NotBelow(g1, o1, c) && CopiesOf(rest, ts, g2, o2)
    requires (x in o1 || x in o2) && x in g2 && k in Kids(g2[x])
    ensures k != c && k !in rest
  {
    if x in o2 {
      KidsAreCopies(g1, n1, g2, n2, o2, dom, x, k);
      forall i | 0 <= i < |rest| ensures k != rest[i] { assert NotBelow(g2, o2, rest[i]); }
    } else {
      KidsAreCopies(h, n, g1, n1, o1, dom, x, k);
    }
  }
}
