/** Leaving out a token that only passes on its one child does not change any token's words. */
module MinimizeWords {
  import opened TokenGraphs

  /** v prints exactly what its child r prints. */
  ghost predicate Passes(h: Graph, v: Ref, r: Ref) {
    v in h && (h[v] == Concat([r]) || h[v] == One([r]) || h[v] == Scope(r))
  }

  /** In the token p, r takes the place of v. */
  ghost function Bypassed(h: Graph, p: Ref, v: Ref, r: Ref): Graph
    requires p in h
  {
    h[p := ReplaceIn(h[p], v, r)]
  }

  lemma {:induction false} PassOn(h: Graph, v: Ref, r: Ref, d: Derivation, w: string)
    requires Passes(h, v, r) && Yields(h, r, d, w)
    ensures Yields(h, v, Derivation([d]), w)
  {
    var e := Derivation([d]);
    assert e.parts[0] == d;
    if h[v] == Concat([r]) {
      assert [r][0] == r && [d][0] == d && w[..|w|] == w && w[|w|..] == "" && [r][1..] == [] && [d][1..] == [];
      assert YieldsAll(h, [r], [d], w);
    } else if h[v] == One([r]) {
      assert [r][0] == r;
    }
  }

  lemma {:induction false} TakeOff(h: Graph, v: Ref, r: Ref, d: Derivation, w: string) returns (e: Derivation)
    requires Passes(h, v, r) && Yields(h, v, d, w)
    ensures Yields(h, r, e, w) && e in d.parts
  {
    if h[v] == Concat([r]) {
      assert YieldsAll(h, [r], d.parts, w);
      var i :| 0 <= i <= |w| && Yields(h, [r][0], d.parts[0], w[..i]) && YieldsAll(h, [r][1..], d.parts[1..], w[i..]);
      assert [r][1..] == [];
      assert w[i..] == "" && w[..i] == w;
    } else if h[v] == One([r]) {
      var i :| 0 <= i < |[r]| && Yields(h, [r][i], d.parts[0], w);
    }
    e := d.parts[0];
  }

  lemma {:induction false} YieldsSplit(h: Graph, ts: seq<Ref>, ds: seq<Derivation>, w: string) returns (i: nat)
    requires YieldsAll(h, ts, ds, w) && ts != []
    ensures ds != [] && i <= |w| && Yields(h, ts[0], ds[0], w[..i]) && YieldsAll(h, ts[1..], ds[1..], w[i..])
  {
    i :| 0 <= i <= |w| && Yields(h, ts[0], ds[0], w[..i]) && YieldsAll(h, ts[1..], ds[1..], w[i..]);
  }

  lemma {:induction false} YieldsJoin(h: Graph, t: Ref, ts: seq<Ref>, d: Derivation, ds: seq<Derivation>, w: string,
          i: nat)
    requires i <= |w| && Yields(h, t, d, w[..i]) && YieldsAll(h, ts, ds, w[i..])
    ensures YieldsAll(h, [t] + ts, [d] + ds, w)
  {
    assert ([t] + ts)[1..] == ts && ([d] + ds)[1..] == ds;
  }

  // ---------- no words are lost ----------

  lemma {:induction false} Onward(h: Graph, p: Ref, v: Ref, r: Ref, x: Ref, d: Derivation, w: string)
    returns (e: Derivation)
    requires p in h && Passes(h, v, r) && Yields(h, x, d, w)
    ensures Yields(Bypassed(h, p, v, r), x, e, w)
    decreases d, 0
  {
    match h[x]
    case Text(_) => e := d;
    case Concat(ts) =>
      var es := OnwardAll(h, p, v, r, ts, d.parts, w, x == p);
      e := Derivation(es);
    case One(ts) =>
      var i :| 0 <= i < |ts| && Yields(h, ts[i], d.parts[0], w);
      var f := OnwardKid(h, p, v, r, ts[i], d.parts[0], w, x == p);
      e := Derivation([f]);
      assert e.parts[0] == f;
      assert Yields(Bypassed(h, p, v, r), Kids(Bypassed(h, p, v, r)[x])[i], f, w);
    case Optional(t) =>
      if w == [] {
        e := d;
      } else {
        var f := OnwardKid(h, p, v, r, t, d.parts[0], w, x == p);
        e := Derivation([f]);
      }
    case Scope(t) =>
      var f := OnwardKid(h, p, v, r, t, d.parts[0], w, x == p);
      e := Derivation([f]);
    case Repeat(t, _, _) =>
      var es := OnwardSame(h, p, v, r, t, d.parts, w, x == p);
      e := Derivation(es);
    case Pointer(t) =>
      var f := Onward(h, p, v, r, t.value, d.parts[0], w);
      e := Derivation([f]);
  }

  function Passed(k: Ref, v: Ref, r: Ref, here: bool): Ref {
    if here && k == v then r else k
  }

  function PassedAll(ts: seq<Ref>, v: Ref, r: Ref, here: bool): seq<Ref> {
    if here then Replaced(ts, v, r) else ts
  }

  lemma {:induction false} PassedCons(ts: seq<Ref>, v: Ref, r: Ref, here: bool)
    requires ts != []
    ensures var us := PassedAll(ts, v, r, here);
            && us == [Passed(ts[0], v, r, here)] + PassedAll(ts[1..], v, r, here)
            && us != [] && us[0] == Passed(ts[0], v, r, here) && us[1..] == PassedAll(ts[1..], v, r, here)
  {
    if !here {
      assert [ts[0]] + ts[1..] == ts;
    }
  }

  lemma {:induction false} OnwardKid(h: Graph, p: Ref, v: Ref, r: Ref, k: Ref, d: Derivation, w: string, here: bool)
    returns (e: Derivation)
    requires p in h && Passes(h, v, r) && Yields(h, k, d, w)
    ensures Yields(Bypassed(h, p, v, r), Passed(k, v, r, here), e, w)
    decreases d, 1
  {
    if here && k == v {
      var f := TakeOff(h, v, r, d, w);
      e := Onward(h, p, v, r, r, f, w);
    } else {
      e := Onward(h, p, v, r, k, d, w);
    }
  }

  lemma {:induction false} OnwardAll(h: Graph, p: Ref, v: Ref, r: Ref, ts: seq<Ref>, ds: seq<Derivation>, w: string,
          here: bool) returns (es: seq<Derivation>)
    requires p in h && Passes(h, v, r) && YieldsAll(h, ts, ds, w)
    ensures YieldsAll(Bypassed(h, p, v, r), PassedAll(ts, v, r, here), es, w)
    decreases ds, |ts|
  {
    if ts == [] {
      es := [];
    } else {
      hide Replaced, PassedAll, Passes, Bypassed, Passed;
      var i := YieldsSplit(h, ts, ds, w);
      var e := OnwardKid(h, p, v, r, ts[0], ds[0], w[..i], here);
      var rest := OnwardAll(h, p, v, r, ts[1..], ds[1..], w[i..], here);
      es := [e] + rest;
      YieldsJoin(Bypassed(h, p, v, r), Passed(ts[0], v, r, here), PassedAll(ts[1..], v, r, here), e, rest, w, i);
      PassedCons(ts, v, r, here);
    }
  }

  lemma {:induction false} OnwardSame(h: Graph, p: Ref, v: Ref, r: Ref, t: Ref, ds: seq<Derivation>, w: string,
          here: bool) returns (es: seq<Derivation>)
    requires p in h && Passes(h, v, r) && YieldsAll(h, Times(t, |ds|), ds, w)
    ensures |es| == |ds| && YieldsAll(Bypassed(h, p, v, r), Times(Passed(t, v, r, here), |es|), es, w)
    decreases ds, 0
  {
    if ds == [] {
      es := [];
    } else {
      hide Times;
      TimesMore(t, |ds| - 1);
      var i := YieldsSplit(h, Times(t, |ds|), ds, w);
      var e := OnwardKid(h, p, v, r, t, ds[0], w[..i], here);
      var rest := OnwardSame(h, p, v, r, t, ds[1..], w[i..], here);
      es := [e] + rest;
      TimesMore(Passed(t, v, r, here), |rest|);
      YieldsJoin(Bypassed(h, p, v, r), Passed(t, v, r, here), Times(Passed(t, v, r, here), |rest|), e, rest, w, i);
    }
  }

  // ---------- no words are added ----------

  lemma {:induction false} Backward(h: Graph, p: Ref, v: Ref, r: Ref, x: Ref, d: Derivation, w: string)
    returns (e: Derivation)
    requires p in h && Passes(h, v, r) && Yields(Bypassed(h, p, v, r), x, d, w)
    ensures Yields(h, x, e, w)
    decreases d, 0
  {
    match h[x]
    case Text(_) => e := d;
    case Concat(ts) =>
      var es := BackwardAll(h, p, v, r, ts, d.parts, w, x == p);
      e := Derivation(es);
    case One(ts) =>
      var us := Kids(Bypassed(h, p, v, r)[x]);
      var i :| 0 <= i < |us| && Yields(Bypassed(h, p, v, r), us[i], d.parts[0], w);
      var f := BackwardKid(h, p, v, r, ts[i], d.parts[0], w, x == p);
      e := Derivation([f]);
      assert e.parts[0] == f && Yields(h, ts[i], f, w);
    case Optional(t) =>
      if w == [] {
        e := d;
      } else {
        var f := BackwardKid(h, p, v, r, t, d.parts[0], w, x == p);
        e := Derivation([f]);
      }
    case Scope(t) =>
      var f := BackwardKid(h, p, v, r, t, d.parts[0], w, x == p);
      e := Derivation([f]);
    case Repeat(t, _, _) =>
      var es := BackwardSame(h, p, v, r, t, d.parts, w, x == p);
      e := Derivation(es);
    case Pointer(t) =>
      var f := Backward(h, p, v, r, t.value, d.parts[0], w);
      e := Derivation([f]);
  }

  lemma {:induction false} BackwardKid(h: Graph, p: Ref, v: Ref, r: Ref, k: Ref, d: Derivation, w: string, here: bool)
    returns (e: Derivation)
    requires p in h && Passes(h, v, r) && Yields(Bypassed(h, p, v, r), Passed(k, v, r, here), d, w)
    ensures Yields(h, k, e, w)
    decreases d, 1
  {
    e := Backward(h, p, v, r, Passed(k, v, r, here), d, w);
    if here && k == v {
      PassOn(h, v, r, e, w);
      e := Derivation([e]);
    }
  }

  lemma {:induction false} BackwardAll(h: Graph, p: Ref, v: Ref, r: Ref, ts: seq<Ref>, ds: seq<Derivation>, w: string,
          here: bool) returns (es: seq<Derivation>)
    requires p in h && Passes(h, v, r)
    requires YieldsAll(Bypassed(h, p, v, r), PassedAll(ts, v, r, here), ds, w)
    ensures YieldsAll(h, ts, es, w)
    decreases ds, |ts|
  {
    if ts == [] {
      es := [];
    } else {
      hide Replaced, PassedAll, Passes, Bypassed, Passed;
      PassedCons(ts, v, r, here);
      var i := YieldsSplit(Bypassed(h, p, v, r), PassedAll(ts, v, r, here), ds, w);
      var e := BackwardKid(h, p, v, r, ts[0], ds[0], w[..i], here);
      var rest := BackwardAll(h, p, v, r, ts[1..], ds[1..], w[i..], here);
      es := [e] + rest;
      YieldsJoin(h, ts[0], ts[1..], e, rest, w, i);
      assert [ts[0]] + ts[1..] == ts;
    }
  }

  lemma {:induction false} BackwardSame(h: Graph, p: Ref, v: Ref, r: Ref, t: Ref, ds: seq<Derivation>, w: string,
          here: bool) returns (es: seq<Derivation>)
    requires p in h && Passes(h, v, r) && YieldsAll(Bypassed(h, p, v, r), Times(Passed(t, v, r, here), |ds|), ds, w)
    ensures |es| == |ds| && YieldsAll(h, Times(t, |es|), es, w)
    decreases ds, 0
  {
    if ds == [] {
      es := [];
    } else {
      hide Times;
      TimesMore(Passed(t, v, r, here), |ds| - 1);
      var i := YieldsSplit(Bypassed(h, p, v, r), Times(Passed(t, v, r, here), |ds|), ds, w);
      var e := BackwardKid(h, p, v, r, t, ds[0], w[..i], here);
      var rest := BackwardSame(h, p, v, r, t, ds[1..], w[i..], here);
      es := [e] + rest;
      TimesMore(t, |rest|);
      YieldsJoin(h, t, Times(t, |rest|), e, rest, w, i);
    }
  }

  /** Every token prints the same words in both graphs. */
  ghost predicate SameWords(h: Graph, g: Graph) {
    forall x, w :: Prints(h, x, w) <==> Prints(g, x, w)
  }

  lemma {:induction false} BypassKeepsWords(h: Graph, p: Ref, v: Ref, r: Ref)
    requires p in h && Passes(h, v, r)
    ensures SameWords(h, Bypassed(h, p, v, r))
  {
    forall x, w ensures Prints(h, x, w) <==> Prints(Bypassed(h, p, v, r), x, w) {
      if Prints(h, x, w) {
        var d :| Yields(h, x, d, w);
        var e := Onward(h, p, v, r, x, d, w);
      }
      if Prints(Bypassed(h, p, v, r), x, w) {
        var d :| Yields(Bypassed(h, p, v, r), x, d, w);
        var e := Backward(h, p, v, r, x, d, w);
      }
    }
  }

  lemma {:induction false} PassesSameWords(h: Graph, v: Ref, r: Ref, w: string)
    requires Passes(h, v, r)
    ensures Prints(h, v, w) <==> Prints(h, r, w)
  {
    if Prints(h, v, w) {
      var d :| Yields(h, v, d, w);
      var e := TakeOff(h, v, r, d, w);
    }
    if Prints(h, r, w) {
      var d :| Yields(h, r, d, w);
      PassOn(h, v, r, d, w);
    }
  }
}
