/**
 * When a graph h prints only what an original graph h0 prints: every token of h comes from a token
 * of h0 (`src`), and each edit the unrolling makes keeps the two in step.
 */
module UnrollWords {
  import opened TokenGraphs

  type Source = map<Ref, Ref>

  // ---------- pointers of the original graph ----------

  ghost predicate Leads(h0: Graph, a: Ref, b: Ref, n: nat)
    decreases n
  {
    if n == 0 then a == b
    else a in h0 && h0[a].Pointer? && h0[a].target.Some? && Leads(h0, h0[a].target.value, b, n - 1)
  }

  /** Following pointers of h0 from a reaches b, so a prints what b prints. */
  ghost predicate Stands(h0: Graph, a: Ref, b: Ref) {
    exists n: nat :: Leads(h0, a, b, n)
  }

  lemma {:induction false} LeadsOn(h0: Graph, a: Ref, b: Ref, c: Ref, n: nat, m: nat)
    requires Leads(h0, a, b, n) && Leads(h0, b, c, m)
    ensures Leads(h0, a, c, n + m)
    decreases n
  {
    if n > 0 {
      LeadsOn(h0, h0[a].target.value, b, c, n - 1, m);
    }
  }

  lemma {:induction false} StandsItself(h0: Graph, a: Ref)
    ensures Stands(h0, a, a)
  {
    assert Leads(h0, a, a, 0);
  }

  lemma {:induction false} StandsOn(h0: Graph, a: Ref, b: Ref, c: Ref)
    requires Stands(h0, a, b) && Stands(h0, b, c)
    ensures Stands(h0, a, c)
  {
    var n: nat :| Leads(h0, a, b, n);
    var m: nat :| Leads(h0, b, c, m);
    LeadsOn(h0, a, b, c, n, m);
  }

  lemma {:induction false} StandsThrough(h0: Graph, a: Ref, b: Ref)
    requires a in h0 && h0[a].Pointer? && h0[a].target.Some? && Stands(h0, h0[a].target.value, b)
    ensures Stands(h0, a, b)
  {
    var n: nat :| Leads(h0, h0[a].target.value, b, n);
    assert Leads(h0, a, b, n + 1);
  }

  // ---------- tokens of h and tokens of h0 ----------

  /** k, a token of h, may take the place that k0 has in h0. */
  ghost predicate Matches(h0: Graph, src: Source, k: Ref, k0: Ref) {
    k in src && Stands(h0, k0, src[k])
  }

  /** The tokens Concatenation.InternalLogicalRemove drops: those of an optional type. */
  predicate OptionalType(n: Node) {
    n.Optional? || n.Repeat?
  }

  ghost predicate Skippable(h0: Graph, k0: Ref) {
    exists b :: b in h0 && OptionalType(h0[b]) && Stands(h0, k0, b)
  }

  /** ts are ts0, in order, without some skippable ones. */
  ghost predicate Embeds(h0: Graph, src: Source, ts: seq<Ref>, ts0: seq<Ref>) {
    if ts0 == [] then ts == []
    else
      || (ts != [] && Matches(h0, src, ts[0], ts0[0]) && Embeds(h0, src, ts[1..], ts0[1..]))
      || (Skippable(h0, ts0[0]) && Embeds(h0, src, ts, ts0[1..]))
  }

  ghost predicate Among(h0: Graph, src: Source, k: Ref, ts0: seq<Ref>) {
    exists j :: 0 <= j < |ts0| && Matches(h0, src, k, ts0[j])
  }

  ghost predicate SimNode(h0: Graph, src: Source, n: Node, m: Node) {
    match n
    case Text(t) => m == n
    case Concat(ts) => m.Concat? && Embeds(h0, src, ts, m.tokens)
    case One(ts) => m.One? && forall i :: 0 <= i < |ts| ==> Among(h0, src, ts[i], m.tokens)
    case Optional(t) => m.Optional? && Matches(h0, src, t, m.token)
    case Scope(t) => m.Scope? && Matches(h0, src, t, m.token)
    case Repeat(t, from, to) => m.Repeat? && m.from == from && m.to == to && Matches(h0, src, t, m.token)
    case Pointer(None) => m.Pointer?
    case Pointer(Some(t)) => m.Pointer? && m.target.Some? && Matches(h0, src, t, m.target.value)
  }

  ghost predicate Simulates(h0: Graph, h: Graph, src: Source) {
    && h.Keys <= src.Keys
    && forall r :: r in h ==> src[r] in h0 && SimNode(h0, src, h[r], h0[src[r]])
  }

  // ---------- soundness ----------

  /** What can be dropped from ts can print nothing. */
  ghost predicate FreeToDrop(h0: Graph, ts: seq<Ref>) {
    forall k :: k in ts && Skippable(h0, k) ==> Prints(h0, k, "")
  }

  /** What the removal drops from a concatenation because of its type can print nothing. */
  ghost predicate DropsAreFree(h0: Graph) {
    forall p :: p in h0 && h0[p].Concat? ==> FreeToDrop(h0, h0[p].tokens)
  }

  /** Only a Repeat that insists on a repetition may print something always. */
  lemma {:induction false} UnforcedDropsAreFree(h0: Graph)
    requires forall r :: r in h0 && h0[r].Repeat? ==> h0[r].from == 0
    ensures DropsAreFree(h0)
  {
    forall k | Skippable(h0, k) ensures Prints(h0, k, "") {
      var b :| b in h0 && OptionalType(h0[b]) && Stands(h0, k, b);
      var d := Derivation([]);
      assert Yields(h0, b, d, "");
      var e := StandsPrints(h0, k, b, d, "");
    }
  }

  lemma {:induction false} LeadsPrints(h0: Graph, a: Ref, b: Ref, n: nat, d: Derivation, w: string)
    returns (e: Derivation)
    requires Leads(h0, a, b, n) && Yields(h0, b, d, w)
    ensures Yields(h0, a, e, w)
    decreases n
  {
    if n == 0 {
      e := d;
    } else {
      var f := LeadsPrints(h0, h0[a].target.value, b, n - 1, d, w);
      e := Derivation([f]);
      assert e.parts[0] == f;
    }
  }

  lemma {:induction false} StandsPrints(h0: Graph, a: Ref, b: Ref, d: Derivation, w: string) returns (e: Derivation)
    requires Stands(h0, a, b) && Yields(h0, b, d, w)
    ensures Yields(h0, a, e, w)
  {
    var n: nat :| Leads(h0, a, b, n);
    e := LeadsPrints(h0, a, b, n, d, w);
  }

  lemma {:induction false} YieldsCons(h: Graph, t: Ref, ts: seq<Ref>, d: Derivation, ds: seq<Derivation>, u: string,
          w: string)
    requires Yields(h, t, d, u) && YieldsAll(h, ts, ds, w)
    ensures YieldsAll(h, [t] + ts, [d] + ds, u + w)
  {
    var x := u + w;
    assert x[..|u|] == u && x[|u|..] == w;
    assert ([t] + ts)[1..] == ts && ([d] + ds)[1..] == ds;
  }

  /** Whatever a token of h prints, its source prints in h0. */
  lemma {:induction false} Sound(h0: Graph, h: Graph, src: Source, r: Ref, d: Derivation, w: string)
    returns (e: Derivation)
    requires Simulates(h0, h, src) && DropsAreFree(h0) && Yields(h, r, d, w)
    ensures r in src && Yields(h0, src[r], e, w)
    decreases d, 0
  {
    var m := h0[src[r]];
    match h[r]
    case Text(t) => e := d;
    case Concat(ts) =>
      var es := SoundAll(h0, h, src, ts, d.parts, w, m.tokens);
      e := Derivation(es);
    case One(ts) =>
      var i :| 0 <= i < |ts| && Yields(h, ts[i], d.parts[0], w);
      assert Among(h0, src, ts[i], m.tokens);
      var j :| 0 <= j < |m.tokens| && Matches(h0, src, ts[i], m.tokens[j]);
      e := SoundMatch(h0, h, src, ts[i], d.parts[0], w, m.tokens[j]);
      e := Derivation([e]);
    case Optional(t) =>
      if w == [] {
        e := d;
      } else {
        e := SoundMatch(h0, h, src, t, d.parts[0], w, m.token);
        e := Derivation([e]);
      }
    case Scope(t) =>
      e := SoundMatch(h0, h, src, t, d.parts[0], w, m.token);
      e := Derivation([e]);
    case Repeat(t, from, to) =>
      var es := SoundSame(h0, h, src, t, d.parts, w, m.token);
      e := Derivation(es);
    case Pointer(t) =>
      e := SoundMatch(h0, h, src, t.value, d.parts[0], w, m.target.value);
      e := Derivation([e]);
  }

  lemma {:induction false} SoundMatch(h0: Graph, h: Graph, src: Source, k: Ref, d: Derivation, w: string, k0: Ref)
    returns (e: Derivation)
    requires Simulates(h0, h, src) && DropsAreFree(h0) && Yields(h, k, d, w) && Matches(h0, src, k, k0)
    ensures Yields(h0, k0, e, w)
    decreases d, 1
  {
    e := Sound(h0, h, src, k, d, w);
    e := StandsPrints(h0, k0, src[k], e, w);
  }

  lemma {:induction false} SoundAll(h0: Graph, h: Graph, src: Source, ts: seq<Ref>, ds: seq<Derivation>, w: string,
          ts0: seq<Ref>) returns (es: seq<Derivation>)
    requires Simulates(h0, h, src) && DropsAreFree(h0)
    requires YieldsAll(h, ts, ds, w) && Embeds(h0, src, ts, ts0) && FreeToDrop(h0, ts0)
    ensures YieldsAll(h0, ts0, es, w)
    decreases ds, |ts0|
  {
    if ts0 == [] {
      es := [];
    } else if ts != [] && Matches(h0, src, ts[0], ts0[0]) && Embeds(h0, src, ts[1..], ts0[1..]) {
      var i :| 0 <= i <= |w| && Yields(h, ts[0], ds[0], w[..i]) && YieldsAll(h, ts[1..], ds[1..], w[i..]);
      var e := SoundMatch(h0, h, src, ts[0], ds[0], w[..i], ts0[0]);
      es := SoundAll(h0, h, src, ts[1..], ds[1..], w[i..], ts0[1..]);
      YieldsCons(h0, ts0[0], ts0[1..], e, es, w[..i], w[i..]);
      es := [e] + es;
      assert [ts0[0]] + ts0[1..] == ts0 && w[..i] + w[i..] == w;
    } else {
      assert ts0[0] in ts0 && Prints(h0, ts0[0], "");
      var e :| Yields(h0, ts0[0], e, "");
      es := SoundAll(h0, h, src, ts, ds, w, ts0[1..]);
      YieldsCons(h0, ts0[0], ts0[1..], e, es, [], w);
      es := [e] + es;
      assert [ts0[0]] + ts0[1..] == ts0 && [] + w == w;
    }
  }

  lemma {:induction false} SoundSame(h0: Graph, h: Graph, src: Source, t: Ref, ds: seq<Derivation>, w: string,
          k0: Ref) returns (es: seq<Derivation>)
    requires Simulates(h0, h, src) && DropsAreFree(h0) && Matches(h0, src, t, k0)
    requires YieldsAll(h, Times(t, |ds|), ds, w)
    ensures |es| == |ds| && YieldsAll(h0, Times(k0, |es|), es, w)
    decreases ds, 0
  {
    if ds == [] {
      es := [];
    } else {
      hide Times, Simulates, DropsAreFree, Matches;
      var ts := Times(t, |ds|);
      TimesMore(t, |ds| - 1);
      var i :| 0 <= i <= |w| && Yields(h, ts[0], ds[0], w[..i]) && YieldsAll(h, ts[1..], ds[1..], w[i..]);
      var e := SoundMatch(h0, h, src, t, ds[0], w[..i], k0);
      var rest := SoundSame(h0, h, src, t, ds[1..], w[i..], k0);
      YieldsCons(h0, k0, Times(k0, |rest|), e, rest, w[..i], w[i..]);
      es := [e] + rest;
      TimesMore(k0, |rest|);
      assert w[..i] + w[i..] == w;
    }
  }

  /** The words of h are words of h0. */
  lemma {:induction false} WordsKept(h0: Graph, h: Graph, src: Source, r: Ref, w: string)
    requires Simulates(h0, h, src) && DropsAreFree(h0) && Prints(h, r, w)
    ensures r in src && Prints(h0, src[r], w)
  {
    var d :| Yields(h, r, d, w);
    var e := Sound(h0, h, src, r, d, w);
  }

  // ---------- the edits of the unrolling keep the graphs in step ----------

  /** c can replace t wherever t stands. */
  ghost predicate Replaceable(h0: Graph, src: Source, t: Ref, c: Ref) {
    forall k0 :: Matches(h0, src, t, k0) ==> Matches(h0, src, c, k0)
  }

  lemma {:induction false} EmbedsReplaced(h0: Graph, src: Source, ts: seq<Ref>, ts0: seq<Ref>, t: Ref, c: Ref)
    requires Embeds(h0, src, ts, ts0) && Replaceable(h0, src, t, c)
    ensures Embeds(h0, src, Replaced(ts, t, c), ts0)
    decreases |ts0|
  {
    if ts0 != [] {
      if ts != [] && Matches(h0, src, ts[0], ts0[0]) && Embeds(h0, src, ts[1..], ts0[1..]) {
        EmbedsReplaced(h0, src, ts[1..], ts0[1..], t, c);
        assert Replaced(ts, t, c)[1..] == Replaced(ts[1..], t, c);
      } else {
        EmbedsReplaced(h0, src, ts, ts0[1..], t, c);
      }
    }
  }

  lemma {:induction false} SimulatesReplace(h0: Graph, h: Graph, src: Source, p: Ref, t: Ref, c: Ref)
    requires Simulates(h0, h, src) && p in h && Replaceable(h0, src, t, c)
    ensures Simulates(h0, h[p := ReplaceIn(h[p], t, c)], src)
  {
    var m := h0[src[p]];
    match h[p]
    case Concat(ts) => EmbedsReplaced(h0, src, ts, m.tokens, t, c);
    case One(ts) =>
      forall i | 0 <= i < |ts| ensures Among(h0, src, Replaced(ts, t, c)[i], m.tokens) {
        assert Among(h0, src, ts[i], m.tokens);
        var j :| 0 <= j < |m.tokens| && Matches(h0, src, ts[i], m.tokens[j]);
        assert Matches(h0, src, Replaced(ts, t, c)[i], m.tokens[j]);
      }
    case _ =>
  }

  lemma {:induction false} EmbedsDropped(h0: Graph, src: Source, ts: seq<Ref>, ts0: seq<Ref>, i: nat)
    requires Embeds(h0, src, ts, ts0) && i < |ts|
    requires ts[i] in src && src[ts[i]] in h0 && OptionalType(h0[src[ts[i]]])
    ensures Embeds(h0, src, ts[..i] + ts[i + 1..], ts0)
    decreases |ts0|
  {
    var us := ts[..i] + ts[i + 1..];
    if ts != [] && Matches(h0, src, ts[0], ts0[0]) && Embeds(h0, src, ts[1..], ts0[1..]) {
      if i == 0 {
        assert us == ts[1..];
        assert Skippable(h0, ts0[0]);
      } else {
        EmbedsDropped(h0, src, ts[1..], ts0[1..], i - 1);
        assert us[1..] == ts[1..][..i - 1] + ts[1..][i..];
      }
    } else {
      EmbedsDropped(h0, src, ts, ts0[1..], i);
    }
  }

  /** Dropping a token of an optional type from a concatenation. */
  lemma {:induction false} SimulatesDrop(h0: Graph, h: Graph, src: Source, p: Ref, i: nat)
    requires Simulates(h0, h, src) && p in h && h[p].Concat? && i < |h[p].tokens|
    requires h[p].tokens[i] in h && OptionalType(h[h[p].tokens[i]])
    ensures Simulates(h0, h[p := Concat(h[p].tokens[..i] + h[p].tokens[i + 1..])], src)
  {
    EmbedsDropped(h0, src, h[p].tokens, h0[src[p]].tokens, i);
  }

  /** Dropping alternatives. */
  lemma {:induction false} SimulatesFewer(h0: Graph, h: Graph, src: Source, p: Ref, ts: seq<Ref>)
    requires Simulates(h0, h, src) && p in h && h[p].One?
    requires forall i :: 0 <= i < |ts| ==> ts[i] in h[p].tokens
    ensures Simulates(h0, h[p := One(ts)], src)
  {
    var m := h0[src[p]];
    forall i | 0 <= i < |ts| ensures Among(h0, src, ts[i], m.tokens) {
      var j :| 0 <= j < |h[p].tokens| && h[p].tokens[j] == ts[i];
    }
  }

  /** Pointer.Set. */
  lemma {:induction false} SimulatesSet(h0: Graph, h: Graph, src: Source, p: Ref, c: Option<Ref>)
    requires Simulates(h0, h, src) && p in h && h[p].Pointer?
    requires c.Some? ==>
               && c.value in src && h0[src[p]].target.Some?
               && Stands(h0, h0[src[p]].target.value, src[c.value])
    ensures Simulates(h0, h[p := Pointer(c)], src)
  {
  }

  lemma {:induction false} StandsBeyond(h0: Graph, a: Ref, b: Ref)
    requires a in h0 && h0[a].Pointer? && b in h0 && !h0[b].Pointer? && Stands(h0, a, b)
    ensures h0[a].target.Some? && Stands(h0, h0[a].target.value, b)
  {
    var n: nat :| Leads(h0, a, b, n);
    assert Leads(h0, h0[a].target.value, b, n - 1);
  }

  /** A pointer of h, and what it points to in h, in terms of h0. */
  lemma {:induction false} PointerStands(h0: Graph, h: Graph, src: Source, p: Ref)
    requires Simulates(h0, h, src) && p in h && h[p].Pointer? && h[p].target.Some?
    ensures h[p].target.value in src && Stands(h0, src[p], src[h[p].target.value])
  {
    StandsThrough(h0, src[p], src[h[p].target.value]);
  }

  /** A token c that comes from where the pointers of t lead can replace t. */
  lemma {:induction false} ReplaceableBy(h0: Graph, src: Source, t: Ref, c: Ref)
    requires t in src && c in src && Stands(h0, src[t], src[c])
    ensures Replaceable(h0, src, t, c)
  {
    forall k0 | Matches(h0, src, t, k0) ensures Matches(h0, src, c, k0) {
      StandsOn(h0, k0, src[t], src[c]);
    }
  }
}
