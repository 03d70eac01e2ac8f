/** The same by places: a use at u refers to the last definition before u all of whose scopes u is in. */
module ScopePaths {
  import opened ScopeRules

  type Path = seq<nat>

  function Child(t: Tok, i: nat): Option<Tok> {
    match t
    case Plain(kids) => if i < |kids| then Some(kids[i]) else None
    case Scoping(kid) => if i == 0 then Some(kid) else None
    case Variable(_, _, kid) => if i == 0 then Some(kid) else None
    case Value(_, _) => None
  }

  /** The token at p. */
  function Sub(t: Tok, p: Path): Option<Tok>
    decreases |p|
  {
    if p == [] then Some(t)
    else match Child(t, p[0]) case Some(k) => Sub(k, p[1..]) case None => None
  }

  predicate IsScope(t: Tok, c: Path) {
    Sub(t, c).Some? && Sub(t, c).value.Scoping?
  }

  predicate IsDef(t: Tok, d: Path, name: string) {
    Sub(t, d).Some? && Sub(t, d).value.Variable? && Sub(t, d).value.name == name
  }

  predicate IsUse(t: Tok, u: Path) {
    Sub(t, u).Some? && Sub(t, u).value.Value?
  }

  /** p is met before q. */
  predicate Earlier(p: Path, q: Path) {
    q != [] && (p == [] || p[0] < q[0] || (p[0] == q[0] && Earlier(p[1..], q[1..])))
  }

  /** The use at u can see the definition at d: it comes later, and is in every scope that d is in. */
  ghost predicate Visible(t: Tok, d: Path, u: Path, name: string) {
    IsDef(t, d, name) && Earlier(d, u) && forall c :: c < d && IsScope(t, c) ==> c < u
  }

  /** The definition at d is in no scope within t. */
  ghost predicate Leaks(t: Tok, d: Path, name: string) {
    IsDef(t, d, name) && forall c :: c < d ==> !IsScope(t, c)
  }

  ghost function VisibleDefs(t: Tok, u: Path, name: string): iset<Path> {
    iset d | Visible(t, d, u, name)
  }

  ghost function LeakingDefs(t: Tok, name: string): iset<Path> {
    iset d | Leaks(t, d, name)
  }

  /** v is the variable of the last definition in ds; without one it is `otherwise`. */
  ghost predicate LastOf(t: Tok, ds: iset<Path>, otherwise: Option<nat>, v: Option<nat>) {
    || (ds == iset{} && v == otherwise)
    || exists d :: IsLast(d, ds) && Sub(t, d).Some? && Sub(t, d).value.Variable? && v == Some(Sub(t, d).value.id)
  }

  ghost predicate IsLast(d: Path, ds: iset<Path>) {
    d in ds && forall e :: e in ds ==> e == d || Earlier(e, d)
  }

  /** The binding b is that of the use at u; what t does not define is as in env. */
  ghost predicate BindsAt(t: Tok, env: Env, u: Path, b: Bind) {
    && IsUse(t, u) && b.value == Sub(t, u).value.id
    && LastOf(t, VisibleDefs(t, u, Sub(t, u).value.name), Found(env, Sub(t, u).value.name), b.variable)
  }

  /** bs are the bindings of all uses, in order. */
  ghost predicate BindsUses(t: Tok, env: Env, us: seq<Path>, bs: seq<Bind>) {
    && |us| == |bs| && (forall u :: IsUse(t, u) <==> u in us)
    && (forall i, j :: 0 <= i < j < |us| ==> Earlier(us[i], us[j]))
    && forall i :: 0 <= i < |us| ==> BindsAt(t, env, us[i], bs[i])
  }

  ghost predicate EveryUseBound(t: Tok, env: Env, bs: seq<Bind>) {
    exists us :: BindsUses(t, env, us, bs)
  }

  // ---------- places below a child ----------

  ghost function Under(i: nat, ds: iset<Path>): iset<Path> {
    iset d: Path | d != [] && d[0] == i && d[1..] in ds
  }

  /** The same places, one child further on. */
  ghost function Shifted(ds: iset<Path>): iset<Path> {
    iset d: Path | d != [] && d[0] > 0 && [d[0] - 1] + d[1..] in ds
  }

  lemma {:induction false} SubChild(t: Tok, i: nat, k: Tok, p: Path)
    requires Child(t, i) == Some(k)
    ensures Sub(t, [i] + p) == Sub(k, p)
  {
    assert ([i] + p)[1..] == p;
  }

  lemma {:induction false} PrefixBelow(i: nat, c: Path, d: Path)
    ensures [i] + c < [i] + d <==> c < d
  {
    assert ([i] + d)[1..] == d && ([i] + c)[1..] == c;
    if c < d { assert [i] + d == [i] + c + d[|c|..]; }
    if [i] + c < [i] + d { assert ([i] + d)[..|c| + 1] == [i] + c; assert d[..|c|] == c; }
  }

  lemma {:induction false} EarlierBelow(i: nat, c: Path, j: nat, d: Path)
    ensures Earlier([i] + c, [j] + d) <==> i < j || (i == j && Earlier(c, d))
  {
    assert ([j] + d)[1..] == d && ([i] + c)[1..] == c;
  }

  lemma {:induction false} PrefixSplit(c: Path, i: nat, d: Path)
    requires c < [i] + d
    ensures c == [] || (c == [i] + c[1..] && c[1..] < d)
  {
    if c != [] {
      assert c[0] == ([i] + d)[0];
      assert c == [i] + c[1..];
      PrefixBelow(i, c[1..], d);
    }
  }

  lemma {:induction false} VisibleChild(t: Tok, i: nat, k: Tok, d: Path, u: Path, name: string)
    requires Child(t, i) == Some(k)
    ensures Visible(t, [i] + d, [i] + u, name) <==> Visible(k, d, u, name)
  {
    SubChild(t, i, k, d);
    EarlierBelow(i, d, i, u);
    hide Sub, Earlier;
    forall c: Path ensures IsScope(t, [i] + c) == IsScope(k, c) && ([i] + c < [i] + d <==> c < d)
        && ([i] + c < [i] + u <==> c < u)
    {
      SubChild(t, i, k, c);
      PrefixBelow(i, c, d);
      PrefixBelow(i, c, u);
    }
    if Visible(k, d, u, name) {
      forall c | c < [i] + d && IsScope(t, c) ensures c < [i] + u { PrefixSplit(c, i, d); }
    }
    if Visible(t, [i] + d, [i] + u, name) {
      forall c | c < d && IsScope(k, c) ensures c < u { assert IsScope(t, [i] + c); }
    }
  }

  lemma {:induction false} LeaksChild(t: Tok, i: nat, k: Tok, d: Path, name: string)
    requires Child(t, i) == Some(k) && !t.Scoping?
    ensures Leaks(t, [i] + d, name) <==> Leaks(k, d, name)
  {
    SubChild(t, i, k, d);
    assert !IsScope(t, []);
    hide Sub;
    forall c: Path ensures IsScope(t, [i] + c) == IsScope(k, c) && ([i] + c < [i] + d <==> c < d) {
      SubChild(t, i, k, c);
      PrefixBelow(i, c, d);
    }
    if Leaks(k, d, name) {
      forall c | c < [i] + d ensures !IsScope(t, c) { PrefixSplit(c, i, d); }
    }
    if Leaks(t, [i] + d, name) {
      forall c | c < d ensures !IsScope(k, c) { assert [i] + c < [i] + d; }
    }
  }

  /** From an earlier child only what is in no scope is visible. */
  lemma {:induction false} VisibleAcross(t: Tok, i: nat, k: Tok, d: Path, j: nat, u: Path, name: string)
    requires Child(t, i) == Some(k) && t.Plain? && i < j
    ensures Visible(t, [i] + d, [j] + u, name) <==> Leaks(k, d, name)
  {
    SubChild(t, i, k, d);
    EarlierBelow(i, d, j, u);
    assert !IsScope(t, []);
    hide Sub, Earlier;
    forall c: Path ensures IsScope(t, [i] + c) == IsScope(k, c) && ([i] + c < [i] + d <==> c < d)
        && !([i] + c < [j] + u)
    {
      SubChild(t, i, k, c);
      PrefixBelow(i, c, d);
    }
    if Leaks(k, d, name) {
      forall c | c < [i] + d ensures !IsScope(t, c) { PrefixSplit(c, i, d); }
    }
    if Visible(t, [i] + d, [j] + u, name) {
      forall c | c < d ensures !IsScope(k, c) { assert [i] + c < [i] + d; }
    }
  }

  // ---------- the last one of several definitions ----------

  lemma {:induction false} LastUnder(t: Tok, i: nat, k: Tok, ds: iset<Path>, otherwise: Option<nat>, v: Option<nat>)
    requires Child(t, i) == Some(k) && LastOf(k, ds, otherwise, v)
    ensures LastOf(t, Under(i, ds), otherwise, v)
  {
    if ds == iset{} && v == otherwise {
      assert Under(i, ds) == iset{};
    } else {
      var d :| IsLast(d, ds) && Sub(k, d).Some? && Sub(k, d).value.Variable? && v == Some(Sub(k, d).value.id);
      SubChild(t, i, k, d);
      assert ([i] + d)[1..] == d;
      hide Sub;
      forall e | e in Under(i, ds) ensures e == [i] + d || Earlier(e, [i] + d) {
        assert e == [i] + e[1..];
        EarlierBelow(i, e[1..], i, d);
      }
      assert IsLast([i] + d, Under(i, ds));
    }
  }

  /** What comes in bs counts more. */
  lemma {:induction false} LastJoined(t: Tok, ds: iset<Path>, bs: iset<Path>, otherwise: Option<nat>, x: Option<nat>,
          v: Option<nat>)
    requires LastOf(t, ds, otherwise, x) && LastOf(t, bs, x, v)
    requires forall d, b :: d in ds && b in bs ==> Earlier(d, b)
    ensures LastOf(t, ds + bs, otherwise, v)
  {
    hide Sub, Earlier;
    if bs == iset{} && v == x {
      assert ds + bs == ds;
    } else {
      var d :| IsLast(d, bs) && Sub(t, d).Some? && Sub(t, d).value.Variable? && v == Some(Sub(t, d).value.id);
      assert IsLast(d, ds + bs);
    }
  }

  lemma {:induction false} NoneLast(t: Tok, otherwise: Option<nat>)
    ensures LastOf(t, iset{}, otherwise, otherwise)
  {
  }

  lemma {:induction false} RestChild(ts: seq<Tok>, i: nat)
    requires ts != []
    ensures Child(Plain(ts), i + 1) == Child(Plain(ts[1..]), i)
  {
  }

  lemma {:induction false} SubRest(ts: seq<Tok>, i: nat, p: Path)
    requires ts != []
    ensures Sub(Plain(ts), [i + 1] + p) == Sub(Plain(ts[1..]), [i] + p)
  {
    assert ([i + 1] + p)[1..] == p && ([i] + p)[1..] == p;
  }

  lemma {:induction false} LastShifted(ts: seq<Tok>, ds: iset<Path>, otherwise: Option<nat>, v: Option<nat>)
    requires ts != [] && LastOf(Plain(ts[1..]), ds, otherwise, v)
    ensures LastOf(Plain(ts), Shifted(ds), otherwise, v)
  {
    var rest := Plain(ts[1..]);
    if ds == iset{} && v == otherwise {
      assert Shifted(ds) == iset{};
    } else {
      var d :| IsLast(d, ds) && Sub(rest, d).Some? && Sub(rest, d).value.Variable? && v == Some(Sub(rest, d).value.id);
      assert d != [];
      var i, p := d[0], d[1..];
      assert d == [i] + p;
      SubRest(ts, i, p);
      var s := [i + 1] + p;
      assert s[1..] == p && [s[0] - 1] + s[1..] == d;
      hide Sub;
      forall e | e in Shifted(ds) ensures e == s || Earlier(e, s) {
        EarlierBelow(e[0], e[1..], i + 1, p);
        EarlierBelow(e[0] - 1, e[1..], i, p);
        assert e == [e[0]] + e[1..];
      }
      assert IsLast(s, Shifted(ds));
    }
  }

  // ---------- which definitions are seen ----------

  lemma {:induction false} SeenInScope(t: Tok, u: Path, name: string)
    requires t.Scoping?
    ensures VisibleDefs(t, [0] + u, name) == Under(0, VisibleDefs(t.kid, u, name)) && LeakingDefs(t, name) == iset{}
  {
    hide Visible;
    forall d ensures Visible(t, d, [0] + u, name) <==> d in Under(0, VisibleDefs(t.kid, u, name)) {
      if d != [] && d[0] == 0 {
        assert d == [0] + d[1..];
        VisibleChild(t, 0, t.kid, d[1..], u, name);
      } else {
        NoDef(t, d, [0] + u, name);
      }
    }
    forall d ensures !Leaks(t, d, name) {
      assert IsScope(t, []);
      if d != [] { assert [] < d; }
    }
  }

  lemma {:induction false} NoDef(t: Tok, d: Path, u: Path, name: string)
    requires Sub(t, d).None? || !Sub(t, d).value.Variable?
    ensures !Visible(t, d, u, name) && !Leaks(t, d, name)
  {
  }

  ghost function Itself(t: Tok, name: string): iset<Path>
    requires t.Variable?
  {
    if t.name == name then iset{[]} else iset{}
  }

  lemma {:induction false} SeenInVariable(t: Tok, u: Path, name: string)
    requires t.Variable?
    ensures VisibleDefs(t, [0] + u, name) == Itself(t, name) + Under(0, VisibleDefs(t.kid, u, name))
    ensures LeakingDefs(t, name) == Itself(t, name) + Under(0, LeakingDefs(t.kid, name))
  {
    hide Visible, Leaks;
    forall d
      ensures Visible(t, d, [0] + u, name) <==> d in Itself(t, name) + Under(0, VisibleDefs(t.kid, u, name))
      ensures Leaks(t, d, name) <==> d in Itself(t, name) + Under(0, LeakingDefs(t.kid, name))
    {
      if d == [] {
        OwnDefinition(t, u, name);
      } else if d[0] == 0 {
        assert d == [0] + d[1..];
        VisibleChild(t, 0, t.kid, d[1..], u, name);
        LeaksChild(t, 0, t.kid, d[1..], name);
      } else {
        NoDef(t, d, [0] + u, name);
      }
    }
  }

  lemma {:induction false} OwnDefinition(t: Tok, u: Path, name: string)
    requires t.Variable?
    ensures Visible(t, [], [0] + u, name) <==> t.name == name
    ensures Leaks(t, [], name) <==> t.name == name
  {
  }

  lemma {:induction false} SeenInFirst(ts: seq<Tok>, u: Path, name: string)
    requires ts != []
    ensures VisibleDefs(Plain(ts), [0] + u, name) == Under(0, VisibleDefs(ts[0], u, name))
  {
    var t := Plain(ts);
    hide Visible;
    forall d ensures Visible(t, d, [0] + u, name) <==> d in Under(0, VisibleDefs(ts[0], u, name)) {
      if d != [] && d[0] == 0 {
        assert d == [0] + d[1..];
        VisibleChild(t, 0, ts[0], d[1..], u, name);
      } else {
        NotLater(t, d, u, name);
      }
    }
  }

  lemma {:induction false} NotLater(t: Tok, d: Path, u: Path, name: string)
    requires t.Plain? && (d == [] || d[0] > 0)
    ensures !Visible(t, d, [0] + u, name)
  {
  }

  lemma {:induction false} SeenInRest(ts: seq<Tok>, k: nat, u: Path, name: string)
    requires ts != []
    ensures VisibleDefs(Plain(ts), [k + 1] + u, name)
         == Under(0, LeakingDefs(ts[0], name)) + Shifted(VisibleDefs(Plain(ts[1..]), [k] + u, name))
  {
    var t, rest := Plain(ts), Plain(ts[1..]);
    hide Visible, Leaks;
    forall d ensures Visible(t, d, [k + 1] + u, name)
        <==> d in Under(0, LeakingDefs(ts[0], name)) + Shifted(VisibleDefs(rest, [k] + u, name))
    {
      if d == [] {
        NoDef(t, d, [k + 1] + u, name);
      } else {
        assert d == [d[0]] + d[1..];
        if d[0] == 0 {
          VisibleAcross(t, 0, ts[0], d[1..], k + 1, u, name);
        } else {
          VisibleInRest(ts, d[0] - 1, d[1..], k, u, name);
        }
      }
    }
  }

  lemma {:induction false} VisibleInRest(ts: seq<Tok>, i: nat, d: Path, k: nat, u: Path, name: string)
    requires ts != []
    ensures Visible(Plain(ts), [i + 1] + d, [k + 1] + u, name) <==> Visible(Plain(ts[1..]), [i] + d, [k] + u, name)
  {
    var t, rest := Plain(ts), Plain(ts[1..]);
    SubRest(ts, i, d);
    RestChild(ts, i);
    EarlierBelow(i + 1, d, k + 1, u);
    EarlierBelow(i, d, k, u);
    if i < |ts| - 1 {
      var c := ts[i + 1];
      hide Visible, Leaks;
      if i == k {
        VisibleChild(t, i + 1, c, d, u, name);
        VisibleChild(rest, i, c, d, u, name);
      } else if i < k {
        VisibleAcross(t, i + 1, c, d, k + 1, u, name);
        VisibleAcross(rest, i, c, d, k, u, name);
      } else {
        NotEarlier(t, [i + 1] + d, [k + 1] + u, name);
        NotEarlier(rest, [i] + d, [k] + u, name);
      }
    }
  }

  lemma {:induction false} NotEarlier(t: Tok, d: Path, u: Path, name: string)
    requires !Earlier(d, u)
    ensures !Visible(t, d, u, name)
  {
  }

  lemma {:induction false} LeakingOfList(ts: seq<Tok>, name: string)
    requires ts != []
    ensures LeakingDefs(Plain(ts), name) == Under(0, LeakingDefs(ts[0], name))
        + Shifted(LeakingDefs(Plain(ts[1..]), name))
  {
    var t, rest := Plain(ts), Plain(ts[1..]);
    hide Leaks;
    forall d ensures Leaks(t, d, name) <==> d in Under(0, LeakingDefs(ts[0], name)) + Shifted(LeakingDefs(rest, name)) {
      if d == [] {
        NoDef(t, d, [0], name);
      } else {
        assert d == [d[0]] + d[1..];
        if d[0] == 0 {
          LeaksChild(t, 0, ts[0], d[1..], name);
        } else if d[0] < |ts| {
          LeaksChild(t, d[0], ts[d[0]], d[1..], name);
          LeaksChild(rest, d[0] - 1, ts[d[0]], d[1..], name);
        } else {
          NoDef(t, d, [0], name);
          NoDef(rest, [d[0] - 1] + d[1..], [0], name);
        }
      }
    }
  }

  // ---------- every use is bound as its place says ----------

  ghost predicate LeavesBound(t: Tok, env: Env, env': Env) {
    forall name :: LastOf(t, LeakingDefs(t, name), Found(env, name), Found(env', name))
  }

  function Below(i: nat, us: seq<Path>): (vs: seq<Path>)
    ensures |vs| == |us| && forall j :: 0 <= j < |us| ==> vs[j] == [i] + us[j]
  {
    seq(|us|, j requires 0 <= j < |us| => [i] + us[j])
  }

  /** The places of the other children, one child further on. */
  function Onward(us: seq<Path>): (vs: seq<Path>)
    requires forall u :: u in us ==> u != []
    ensures |vs| == |us| && forall j :: 0 <= j < |us| ==> us[j] != [] && vs[j] == [us[j][0] + 1] + us[j][1..]
  {
    assert forall j :: 0 <= j < |us| ==> us[j] in us;
    seq(|us|, j requires 0 <= j < |us| => assert us[j] in us; [us[j][0] + 1] + us[j][1..])
  }

  lemma {:induction false} UsesOfOne(t: Tok, k: Tok, us: seq<Path>)
    requires (t.Scoping? || t.Variable?) && Child(t, 0) == Some(k) && forall u :: IsUse(k, u) <==> u in us
    requires forall i, j :: 0 <= i < j < |us| ==> Earlier(us[i], us[j])
    ensures forall u :: IsUse(t, u) <==> u in Below(0, us)
    ensures forall i, j :: 0 <= i < j < |us| ==> Earlier(Below(0, us)[i], Below(0, us)[j])
  {
    var vs := Below(0, us);
    forall u ensures IsUse(t, u) <==> u in vs {
      if u != [] && u[0] == 0 {
        assert u == [0] + u[1..];
        SubChild(t, 0, k, u[1..]);
        if u[1..] in us {
          var j :| 0 <= j < |us| && us[j] == u[1..];
          assert vs[j] == u;
        }
        if u in vs {
          var j :| 0 <= j < |vs| && vs[j] == u;
          assert us[j] == u[1..];
        }
      }
    }
    forall i, j | 0 <= i < j < |us| ensures Earlier(vs[i], vs[j]) { EarlierBelow(0, us[i], 0, us[j]); }
  }

  lemma {:induction false} ScopeBinds(t: Tok, env: Env, us: seq<Path>, bs: seq<Bind>)
    requires t.Scoping? && BindsUses(t.kid, env, us, bs)
    ensures BindsUses(t, env, Below(0, us), bs)
  {
    hide IsUse, Earlier, LastOf, VisibleDefs;
    UsesOfOne(t, t.kid, us);
    forall i | 0 <= i < |us| ensures BindsAt(t, env, Below(0, us)[i], bs[i]) {
      assert BindsAt(t.kid, env, us[i], bs[i]);
      ScopeBindsAt(t, env, us[i], bs[i]);
    }
  }

  lemma {:induction false} ScopeBindsAt(t: Tok, env: Env, u: Path, b: Bind)
    requires t.Scoping? && BindsAt(t.kid, env, u, b)
    ensures BindsAt(t, env, [0] + u, b)
  {
    SubChild(t, 0, t.kid, u);
    var name := Sub(t.kid, u).value.name;
    hide LastOf, VisibleDefs, LeakingDefs, Under, Sub;
    SeenInScope(t, u, name);
    LastUnder(t, 0, t.kid, VisibleDefs(t.kid, u, name), Found(env, name), b.variable);
  }

  lemma {:induction false} VariableBinds(t: Tok, env: Env, us: seq<Path>, bs: seq<Bind>)
    requires t.Variable? && BindsUses(t.kid, With(env, t.name, t.id), us, bs)
    ensures BindsUses(t, env, Below(0, us), bs)
  {
    hide IsUse, Earlier, LastOf, VisibleDefs;
    UsesOfOne(t, t.kid, us);
    forall i | 0 <= i < |us| ensures BindsAt(t, env, Below(0, us)[i], bs[i]) {
      assert BindsAt(t.kid, With(env, t.name, t.id), us[i], bs[i]);
      VariableBindsAt(t, env, us[i], bs[i]);
    }
  }

  /** The variable itself, before what is below it. */
  lemma {:induction false} WithItself(t: Tok, env: Env, name: string, ds: iset<Path>, v: Option<nat>)
    requires t.Variable? && LastOf(t.kid, ds, Found(With(env, t.name, t.id), name), v)
    ensures LastOf(t, Itself(t, name) + Under(0, ds), Found(env, name), v)
  {
    var x := Found(With(env, t.name, t.id), name);
    assert LastOf(t, Itself(t, name), Found(env, name), x) by {
      if t.name == name { assert IsLast([], Itself(t, name)); }
    }
    hide LastOf;
    LastUnder(t, 0, t.kid, ds, x, v);
    LastJoined(t, Itself(t, name), Under(0, ds), Found(env, name), x, v);
  }

  lemma {:induction false} VariableBindsAt(t: Tok, env: Env, u: Path, b: Bind)
    requires t.Variable? && BindsAt(t.kid, With(env, t.name, t.id), u, b)
    ensures BindsAt(t, env, [0] + u, b)
  {
    SubChild(t, 0, t.kid, u);
    var name := Sub(t.kid, u).value.name;
    hide LastOf, VisibleDefs, LeakingDefs, Under, Sub, Itself, With;
    SeenInVariable(t, u, name);
    WithItself(t, env, name, VisibleDefs(t.kid, u, name), b.variable);
  }

  lemma {:induction false} VariableLeaves(t: Tok, env: Env, env': Env)
    requires t.Variable? && LeavesBound(t.kid, With(env, t.name, t.id), env')
    ensures LeavesBound(t, env, env')
  {
    hide LastOf, LeakingDefs, VisibleDefs, Under, Itself, With;
    forall name ensures LastOf(t, LeakingDefs(t, name), Found(env, name), Found(env', name)) {
      SeenInVariable(t, [], name);
      WithItself(t, env, name, LeakingDefs(t.kid, name), Found(env', name));
    }
  }

  lemma {:induction false} ValueBinds(t: Tok, env: Env)
    requires t.Value?
    ensures BindsUses(t, env, [[]], [Bind(t.id, Found(env, t.name))]) && LeavesBound(t, env, env)
  {
    forall d, name ensures !IsDef(t, d, name) {
    }
    assert VisibleDefs(t, [], t.name) == iset{};
    forall name ensures LeakingDefs(t, name) == iset{} {
    }
    var us: seq<Path> := [[]];
    assert us[0] == [];
    forall u ensures IsUse(t, u) <==> u in us {
    }
  }

  /** Each use of the resolver's bindings is bound as its place says, and definitions leave their token as it says. */
  lemma {:induction false} ResolveBinds(t: Tok, env: Env) returns (us: seq<Path>)
    ensures BindsUses(t, env, us, Resolve(t, env).1) && LeavesBound(t, env, Resolve(t, env).0)
    decreases t, 0
  {
    hide BindsUses, LeavesBound, LastOf, LeakingDefs;
    match t
    case Plain(kids) => us := ResolveAllBinds(kids, env);
    case Scoping(kid) =>
      us := ResolveBinds(kid, env);
      ScopeBinds(t, env, us, Resolve(kid, env).1);
      ScopeLeaves(t, env);
      us := Below(0, us);
    case Variable(id, name, kid) =>
      us := ResolveBinds(kid, With(env, name, id));
      VariableBinds(t, env, us, Resolve(kid, With(env, name, id)).1);
      VariableLeaves(t, env, Resolve(kid, With(env, name, id)).0);
      us := Below(0, us);
    case Value(id, name) =>
      ValueBinds(t, env);
      us := [[]];
  }

  lemma {:induction false} ScopeLeaves(t: Tok, env: Env)
    requires t.Scoping?
    ensures LeavesBound(t, env, env)
  {
    hide LastOf, LeakingDefs, VisibleDefs;
    forall name ensures LastOf(t, LeakingDefs(t, name), Found(env, name), Found(env, name)) {
      SeenInScope(t, [], name);
      NoneLast(t, Found(env, name));
    }
  }

  lemma {:induction false} ResolveAllBinds(ts: seq<Tok>, env: Env) returns (us: seq<Path>)
    ensures BindsUses(Plain(ts), env, us, ResolveAll(ts, env).1)
    ensures LeavesBound(Plain(ts), env, ResolveAll(ts, env).0)
    decreases ts
  {
    hide BindsUses, LeavesBound;
    if ts == [] {
      us := [];
      NoToks(env);
    } else {
      var env1 := Resolve(ts[0], env).0;
      var u1 := ResolveBinds(ts[0], env);
      var u2 := ResolveAllBinds(ts[1..], env1);
      us := ListBinds(ts, env, env1, u1, Resolve(ts[0], env).1, u2, ResolveAll(ts[1..], env1).1);
      ListLeaves(ts, env, env1, ResolveAll(ts[1..], env1).0);
    }
  }

  lemma {:induction false} NoToks(env: Env)
    ensures BindsUses(Plain([]), env, [], []) && LeavesBound(Plain([]), env, env)
  {
    forall name ensures LeakingDefs(Plain([]), name) == iset{} {
    }
  }

  lemma {:induction false} ListLeaves(ts: seq<Tok>, env: Env, env1: Env, env2: Env)
    requires ts != [] && LeavesBound(ts[0], env, env1) && LeavesBound(Plain(ts[1..]), env1, env2)
    ensures LeavesBound(Plain(ts), env, env2)
  {
    hide LastOf, LeakingDefs, Under, Shifted;
    forall name ensures LastOf(Plain(ts), LeakingDefs(Plain(ts), name), Found(env, name), Found(env2, name)) {
      LeakingOfList(ts, name);
      LastInList(ts, LeakingDefs(ts[0], name), LeakingDefs(Plain(ts[1..]), name), Found(env, name), Found(env1, name),
                 Found(env2, name));
    }
  }

  lemma {:induction false} LastInList(ts: seq<Tok>, ds: iset<Path>, bs: iset<Path>, otherwise: Option<nat>,
          x: Option<nat>, v: Option<nat>)
    requires ts != [] && LastOf(ts[0], ds, otherwise, x) && LastOf(Plain(ts[1..]), bs, x, v)
    ensures LastOf(Plain(ts), Under(0, ds) + Shifted(bs), otherwise, v)
  {
    hide LastOf;
    LastUnder(Plain(ts), 0, ts[0], ds, otherwise, x);
    LastShifted(ts, bs, x, v);
    LastJoined(Plain(ts), Under(0, ds), Shifted(bs), otherwise, x, v);
  }

  lemma {:induction false} FirstBindsAt(ts: seq<Tok>, env: Env, u: Path, b: Bind)
    requires ts != [] && BindsAt(ts[0], env, u, b)
    ensures BindsAt(Plain(ts), env, [0] + u, b)
  {
    SubChild(Plain(ts), 0, ts[0], u);
    var name := Sub(ts[0], u).value.name;
    hide LastOf, VisibleDefs, Under, Sub;
    SeenInFirst(ts, u, name);
    LastUnder(Plain(ts), 0, ts[0], VisibleDefs(ts[0], u, name), Found(env, name), b.variable);
  }

  lemma {:induction false} RestBindsAt(ts: seq<Tok>, env: Env, env1: Env, u: Path, b: Bind)
    requires ts != [] && u != [] && LeavesBound(ts[0], env, env1) && BindsAt(Plain(ts[1..]), env1, u, b)
    ensures BindsAt(Plain(ts), env, [u[0] + 1] + u[1..], b)
  {
    var rest := Plain(ts[1..]);
    assert u == [u[0]] + u[1..];
    SubRest(ts, u[0], u[1..]);
    var name := Sub(rest, u).value.name;
    hide LastOf, VisibleDefs, Under, Shifted, LeakingDefs, Sub;
    SeenInRest(ts, u[0], u[1..], name);
    LastInList(ts, LeakingDefs(ts[0], name), VisibleDefs(rest, u, name), Found(env, name), Found(env1, name),
        b.variable);
  }

  lemma {:induction false} RootIsNoUse(ts: seq<Tok>, us: seq<Path>)
    requires forall u :: IsUse(Plain(ts), u) <==> u in us
    ensures forall u :: u in us ==> u != []
  {
    assert !IsUse(Plain(ts), []);
  }

  lemma {:induction false} UsesOfList(ts: seq<Tok>, u1: seq<Path>, u2: seq<Path>)
    requires ts != [] && (forall u :: IsUse(ts[0], u) <==> u in u1) && forall u :: u in u2 ==> u != []
    requires forall u :: IsUse(Plain(ts[1..]), u) <==> u in u2
    requires forall i, j :: 0 <= i < j < |u1| ==> Earlier(u1[i], u1[j])
    requires forall i, j :: 0 <= i < j < |u2| ==> Earlier(u2[i], u2[j])
    ensures var us := Below(0, u1) + Onward(u2);
            && (forall u :: IsUse(Plain(ts), u) <==> u in us)
            && forall i, j :: 0 <= i < j < |us| ==> Earlier(us[i], us[j])
  {
    var us := Below(0, u1) + Onward(u2);
    forall u ensures IsUse(Plain(ts), u) <==> u in us { UseOfList(ts, u1, u2, u); }
    forall i, j | 0 <= i < j < |us| ensures Earlier(us[i], us[j]) {
      if j < |u1| {
        EarlierBelow(0, u1[i], 0, u1[j]);
      } else if i < |u1| {
        var b := u2[j - |u1|];
        EarlierBelow(0, u1[i], b[0] + 1, b[1..]);
      } else {
        var a, b := u2[i - |u1|], u2[j - |u1|];
        assert a == [a[0]] + a[1..] && b == [b[0]] + b[1..];
        EarlierBelow(a[0], a[1..], b[0], b[1..]);
        EarlierBelow(a[0] + 1, a[1..], b[0] + 1, b[1..]);
      }
    }
  }

  lemma {:induction false} UseOfList(ts: seq<Tok>, u1: seq<Path>, u2: seq<Path>, u: Path)
    requires ts != [] && (forall u :: IsUse(ts[0], u) <==> u in u1) && forall u :: u in u2 ==> u != []
    requires forall u :: IsUse(Plain(ts[1..]), u) <==> u in u2
    ensures IsUse(Plain(ts), u) <==> u in Below(0, u1) + Onward(u2)
  {
    var v1, v2 := Below(0, u1), Onward(u2);
    hide Earlier;
    if u == [] {
      forall j | 0 <= j < |v2| ensures v2[j] != [] { }
    } else if u[0] == 0 {
      assert u == [0] + u[1..];
      SubChild(Plain(ts), 0, ts[0], u[1..]);
      hide Sub;
      forall j | 0 <= j < |v2| ensures v2[j] != u { }
      if u[1..] in u1 {
        var j :| 0 <= j < |u1| && u1[j] == u[1..];
        assert v1[j] == u;
      }
      if u in v1 {
        var j :| 0 <= j < |v1| && v1[j] == u;
        assert u1[j] == u[1..];
      }
    } else {
      var b := [u[0] - 1] + u[1..];
      assert u == [u[0]] + u[1..];
      SubRest(ts, u[0] - 1, u[1..]);
      hide Sub;
      forall j | 0 <= j < |v1| ensures v1[j] != u { }
      if b in u2 {
        var j :| 0 <= j < |u2| && u2[j] == b;
        assert v2[j] == u;
      }
      if u in v2 {
        var j :| 0 <= j < |v2| && v2[j] == u;
        assert u2[j] == [u2[j][0]] + u2[j][1..] == b;
      }
    }
  }

  lemma {:induction false} ListBinds(ts: seq<Tok>, env: Env, env1: Env, u1: seq<Path>, b1: seq<Bind>, u2: seq<Path>,
          b2: seq<Bind>) returns (us: seq<Path>)
    requires ts != [] && BindsUses(ts[0], env, u1, b1) && LeavesBound(ts[0], env, env1)
    requires BindsUses(Plain(ts[1..]), env1, u2, b2)
    ensures BindsUses(Plain(ts), env, us, b1 + b2)
  {
    hide BindsAt, LeavesBound, IsUse, Earlier;
    RootIsNoUse(ts[1..], u2);
    UsesOfList(ts, u1, u2);
    us := Below(0, u1) + Onward(u2);
    forall i | 0 <= i < |us| ensures BindsAt(Plain(ts), env, us[i], (b1 + b2)[i]) {
      if i < |u1| {
        FirstBindsAt(ts, env, u1[i], b1[i]);
      } else {
        RestBindsAt(ts, env, env1, u2[i - |u1|], b2[i - |u1|]);
      }
    }
  }

  /** In a whole tree every use is bound to the last definition that it can see, or to nothing. */
  lemma {:induction false} EveryUseIsBound(t: Tok, env: Env)
    ensures EveryUseBound(t, env, Resolve(t, env).1)
  {
    hide BindsUses, LeavesBound, Resolve;
    var us := ResolveBinds(t, env);
  }
}
