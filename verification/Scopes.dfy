/**
 * Name resolution (token/set.go, token/token.go, token/variables/variables.go): a stack traversal over
 * live chains of variable maps. It refines the resolver that passes environments.
 */
module VariableScopes {
  import opened ScopeRules
  import opened ScopePaths

  // ---------- live scopes ----------

  class VariableScope {
    const parent: VariableScope?
    var variables: map<string, nat>

    constructor (parent: VariableScope?)
      ensures this.parent == parent && variables == map[]
    {
      this.parent, variables := parent, map[];
    }

    /** Get, through the chain of parents. */
    method Get(name: string, ghost chain: seq<VariableScope>) returns (v: Option<nat>)
      requires Chain(chain) && chain != [] && chain[|chain| - 1] == this
      ensures v == Found(Seen(chain), name)
    {
      var c: VariableScope? := this;
      ghost var k := |chain|;
      ghost var ms := Maps(chain);
      assert ms[..k] == ms;
      while c != null
        invariant 0 <= k <= |chain| && (k == 0 ==> c == null) && (k > 0 ==> c == chain[k - 1])
        invariant Found(Merged(ms), name) == Found(Merged(ms[..k]), name)
        decreases k
      {
        assert ms[..k][..k - 1] == ms[..k - 1] && c == chain[k - 1];
        if name in c.variables {
          return Some(c.variables[name]);
        }
        c, k := c.parent, k - 1;
      }
      v := None;
    }

    method Set(name: string, id: nat)
      modifies this
      ensures variables == old(variables)[name := id]
    {
      variables := variables[name := id];
    }

    method Push() returns (s: VariableScope)
      ensures fresh(s) && s.parent == this && s.variables == map[]
    {
      s := new VariableScope(this);
    }
  }

  /** From the outermost scope to the innermost one. */
  ghost predicate Chain(cs: seq<VariableScope>) {
    && (cs != [] ==> cs[0].parent == null)
    && (forall i :: 0 < i < |cs| ==> cs[i].parent == cs[i - 1])
    && (forall i, j :: 0 <= i < j < |cs| ==> cs[i] != cs[j])
  }

  ghost function Maps(cs: seq<VariableScope>): (ms: seq<Env>)
    reads cs
    ensures |ms| == |cs| && forall i :: 0 <= i < |cs| ==> ms[i] == cs[i].variables
  {
    seq(|cs|, i requires 0 <= i < |cs| reads cs => cs[i].variables)
  }

  /** What the innermost of nested scopes sees. */
  function Merged(ms: seq<Env>): Env {
    if ms == [] then map[] else Merged(ms[..|ms| - 1]) + ms[|ms| - 1]
  }

  /** What the innermost scope of a chain sees. */
  ghost function Seen(cs: seq<VariableScope>): Env
    reads cs
  {
    Merged(Maps(cs))
  }

  /** The name is defined in the innermost scope. */
  function Defined(envs: seq<Env>, name: string, id: nat): (r: seq<Env>)
    requires envs != []
    ensures |r| == |envs| && r[|envs| - 1] == With(envs[|envs| - 1], name, id)
    ensures forall i :: 0 <= i < |envs| - 1 ==> r[i] == envs[i]
  {
    envs[..|envs| - 1] + [With(envs[|envs| - 1], name, id)]
  }

  /** What the scope of each depth sees. */
  ghost predicate SeenAt(ms: seq<Env>, envs: seq<Env>) {
    |envs| == |ms| && forall i :: 0 <= i < |ms| ==> envs[i] == Merged(ms[..i + 1])
  }

  // ---------- the bindings that a worklist stands for ----------

  /** An entry of the worklist; its scope is the one at that depth of the stack. */
  datatype Entry = Entry(token: Tok, depth: nat)

  ghost predicate Falling(q: seq<Entry>, top: nat) {
    q == [] || (1 <= q[0].depth <= top && Falling(q[1..], q[0].depth))
  }

  ghost function Rest(q: seq<Entry>, envs: seq<Env>): seq<Bind>
    requires Falling(q, |envs|)
  {
    if q == [] then []
    else
      var d := q[0].depth;
      var (env, b) := Resolve(q[0].token, envs[d - 1]);
      b + Rest(q[1..], envs[..d - 1] + [env])
  }

  /** Scopes below the next entry do not matter any more. */
  lemma {:induction false} RestOf(q: seq<Entry>, envs: seq<Env>, envs': seq<Env>, d: nat)
    requires d <= |envs| && d <= |envs'| && envs[..d] == envs'[..d] && Falling(q, d)
    ensures Falling(q, |envs|) && Falling(q, |envs'|) && Rest(q, envs) == Rest(q, envs')
  {
    if q != [] {
      var e := q[0].depth;
      assert envs[e - 1] == envs[..d][e - 1] && envs'[e - 1] == envs'[..d][e - 1];
      assert envs[..e - 1] == envs[..d][..e - 1] && envs'[..e - 1] == envs'[..d][..e - 1];
    }
  }

  function AtDepth(ts: seq<Tok>, d: nat): (q: seq<Entry>)
    ensures |q| == |ts| && forall i :: 0 <= i < |ts| ==> q[i] == Entry(ts[i], d)
  {
    seq(|ts|, i requires 0 <= i < |ts| => Entry(ts[i], d))
  }

  lemma {:induction false} FallingKids(ts: seq<Tok>, d: nat, q: seq<Entry>, top: nat)
    requires 1 <= d <= top && Falling(q, d)
    ensures Falling(AtDepth(ts, d) + q, top)
  {
    if ts == [] {
      assert AtDepth(ts, d) + q == q;
      FallingMore(q, d, top);
    } else {
      assert (AtDepth(ts, d) + q)[1..] == AtDepth(ts[1..], d) + q;
      FallingKids(ts[1..], d, q, d);
    }
  }

  lemma {:induction false} FallingMore(q: seq<Entry>, d: nat, top: nat)
    requires Falling(q, d) && d <= top
    ensures Falling(q, top)
  {
  }

  /** The children of a token, one after the other, are what the token stands for. */
  lemma {:induction false} RestKids(ts: seq<Tok>, q: seq<Entry>, envs: seq<Env>)
    requires |envs| > 0 && Falling(q, |envs|)
    ensures Falling(AtDepth(ts, |envs|) + q, |envs|)
    ensures var (env, b) := ResolveAll(ts, envs[|envs| - 1]);
            Rest(AtDepth(ts, |envs|) + q, envs) == b + Rest(q, envs[..|envs| - 1] + [env])
  {
    var d := |envs|;
    FallingKids(ts, d, q, d);
    if ts == [] {
      assert AtDepth(ts, d) + q == q && envs[..d - 1] + [envs[d - 1]] == envs;
    } else {
      assert (AtDepth(ts, d) + q)[1..] == AtDepth(ts[1..], d) + q;
      var (env1, b1) := Resolve(ts[0], envs[d - 1]);
      var envs1 := envs[..d - 1] + [env1];
      RestKids(ts[1..], q, envs1);
      assert envs1[..d - 1] == envs[..d - 1];
    }
  }

  /** v.variable of the VariableValues, after the bindings bs; a name nobody defines leaves it alone. */
  function Bound(bound: map<nat, nat>, bs: seq<Bind>): map<nat, nat> {
    if bs == [] then bound
    else
      var b, before := bs[|bs| - 1], Bound(bound, bs[..|bs| - 1]);
      if b.variable.Some? then before[b.value := b.variable.value] else before
  }

  function Size(t: Tok): nat
    decreases t, 0
  {
    match t
    case Plain(kids) => 1 + SizeAll(kids)
    case Scoping(kid) => 1 + Size(kid)
    case Variable(_, _, kid) => 1 + Size(kid)
    case Value(_, _) => 1
  }

  function SizeAll(ts: seq<Tok>): nat
    decreases ts
  {
    if ts == [] then 0 else Size(ts[0]) + SizeAll(ts[1..])
  }

  function Toks(q: seq<Entry>): (ts: seq<Tok>)
    ensures |ts| == |q| && forall i :: 0 <= i < |q| ==> ts[i] == q[i].token
  {
    seq(|q|, i requires 0 <= i < |q| => q[i].token)
  }

  lemma {:induction false} SizeAllSplit(a: seq<Tok>, b: seq<Tok>)
    ensures SizeAll(a + b) == SizeAll(a) + SizeAll(b)
  {
    if a == [] {
      assert a + b == b;
    } else {
      assert (a + b)[0] == a[0] && (a + b)[1..] == a[1..] + b;
      SizeAllSplit(a[1..], b);
    }
  }

  lemma {:induction false} SizeFirst(t: Tok, q: seq<Entry>, d: nat)
    ensures SizeAll(Toks([Entry(t, d)] + q)) == Size(t) + SizeAll(Toks(q))
  {
    assert Toks([Entry(t, d)] + q)[1..] == Toks(q);
  }

  lemma {:induction false} SizeKids(ts: seq<Tok>, q: seq<Entry>, d: nat)
    ensures SizeAll(Toks(AtDepth(ts, d) + q)) == SizeAll(ts) + SizeAll(Toks(q))
  {
    assert Toks(AtDepth(ts, d) + q) == ts + Toks(q);
    SizeAllSplit(ts, Toks(q));
  }

  // ---------- the steps of the traversal ----------

  lemma {:induction false} RestTruncated(e: Entry, q: seq<Entry>, envs: seq<Env>)
    requires Falling([e] + q, |envs|)
    ensures 1 <= e.depth <= |envs| && Falling(q, e.depth) && Falling([e] + q, e.depth)
    ensures Rest([e] + q, envs) == Rest([e] + q, envs[..e.depth])
  {
    assert ([e] + q)[0] == e && ([e] + q)[1..] == q;
    RestOf([e] + q, envs, envs[..e.depth], e.depth);
  }

  lemma {:induction false} RestFirst(e: Entry, q: seq<Entry>, envs: seq<Env>)
    requires 1 <= e.depth == |envs| && Falling(q, e.depth)
    ensures Falling([e] + q, |envs|)
    ensures var (env, b) := Resolve(e.token, envs[e.depth - 1]);
            Rest([e] + q, envs) == b + Rest(q, envs[..e.depth - 1] + [env])
  {
    assert ([e] + q)[0] == e && ([e] + q)[1..] == q;
  }

  /** Visiting tok, at the innermost depth, leaves q' with envs', and has made the bindings. */
  ghost predicate Step(tok: Tok, q: seq<Entry>, envs: seq<Env>, q': seq<Entry>, envs': seq<Env>, binds: seq<Bind>,
          n: nat)
  {
    && Falling([Entry(tok, |envs|)] + q, |envs|) && Falling(q', |envs'|) && AtLeast(q', n)
    && Rest([Entry(tok, |envs|)] + q, envs) == binds + Rest(q', envs')
    && SizeAll(Toks(q')) < SizeAll(Toks([Entry(tok, |envs|)] + q))
  }

  lemma {:induction false} StepScoping(kid: Tok, d: nat, q: seq<Entry>, envs: seq<Env>, n: nat)
    requires 1 <= d == |envs| && Falling(q, d) && AtLeast(q, n) && n <= d
    ensures Step(Scoping(kid), q, envs, [Entry(kid, d + 1)] + q, envs + [envs[d - 1]], [], n)
  {
    var inner := envs + [envs[d - 1]];
    FallingMore(q, d, d + 1);
    RestFirst(Entry(Scoping(kid), d), q, envs);
    RestFirst(Entry(kid, d + 1), q, inner);
    assert envs[..d - 1] + [envs[d - 1]] == envs && inner[..d] == envs;
    RestOf(q, envs, inner[..d] + [Resolve(kid, envs[d - 1]).0], d);
    hide Falling, Rest, Resolve;
    SizeFirst(Scoping(kid), q, d);
    SizeFirst(kid, q, d + 1);
  }

  lemma {:induction false} StepVariable(id: nat, name: string, kid: Tok, d: nat, q: seq<Entry>, envs: seq<Env>, n: nat)
    requires 1 <= d == |envs| && Falling(q, d) && AtLeast(q, n) && n <= d
    ensures Step(Variable(id, name, kid), q, envs, [Entry(kid, d)] + q, Defined(envs, name, id), [], n)
  {
    var envs' := Defined(envs, name, id);
    RestFirst(Entry(Variable(id, name, kid), d), q, envs);
    RestFirst(Entry(kid, d), q, envs');
    assert envs'[..d - 1] == envs[..d - 1];
    hide Falling, Rest;
    SizeFirst(Variable(id, name, kid), q, d);
    SizeFirst(kid, q, d);
  }

  lemma {:induction false} StepValue(id: nat, name: string, d: nat, q: seq<Entry>, envs: seq<Env>, n: nat)
    requires 1 <= d == |envs| && Falling(q, d) && AtLeast(q, n) && n <= d
    ensures Step(Value(id, name), q, envs, q, envs, [Bind(id, Found(envs[d - 1], name))], n)
  {
    RestFirst(Entry(Value(id, name), d), q, envs);
    assert envs[..d - 1] + [envs[d - 1]] == envs;
    hide Falling, Rest;
    SizeFirst(Value(id, name), q, d);
  }

  lemma {:induction false} StepPlain(kids: seq<Tok>, d: nat, q: seq<Entry>, envs: seq<Env>, n: nat)
    requires 1 <= d == |envs| && Falling(q, d) && AtLeast(q, n) && n <= d
    ensures Step(Plain(kids), q, envs, AtDepth(kids, d) + q, envs, [], n)
  {
    RestFirst(Entry(Plain(kids), d), q, envs);
    RestKids(kids, q, envs);
    hide Falling, Rest, Resolve;
    SizeFirst(Plain(kids), q, d);
    SizeKids(kids, q, d);
  }

  lemma {:induction false} SeenPrefix(ms: seq<Env>, envs: seq<Env>, d: nat)
    requires SeenAt(ms, envs) && d <= |ms|
    ensures SeenAt(ms[..d], envs[..d])
  {
    forall i | 0 <= i < d ensures envs[..d][i] == Merged(ms[..d][..i + 1]) {
      assert ms[..d][..i + 1] == ms[..i + 1];
    }
  }

  lemma {:induction false} ChainPrefix(stack: seq<VariableScope>, d: nat)
    requires Chain(stack) && d <= |stack|
    ensures Chain(stack[..d])
  {
  }

  lemma {:induction false} SeenPushed(ms: seq<Env>, envs: seq<Env>)
    requires SeenAt(ms, envs) && ms != []
    ensures SeenAt(ms + [map[]], envs + [envs[|envs| - 1]])
  {
    var more, all, d := ms + [map[]], envs + [envs[|envs| - 1]], |ms|;
    assert ms[..d] == ms && more[..d] == ms;
    forall i | 0 <= i < |more| ensures all[i] == Merged(more[..i + 1]) {
      if i < d {
        assert more[..i + 1] == ms[..i + 1];
      } else {
        assert more[..i + 1] == more && more[..|more| - 1] == ms;
        assert Merged(more) == Merged(ms) + map[];
      }
    }
  }

  lemma {:induction false} SeenSet(ms: seq<Env>, envs: seq<Env>, ms': seq<Env>, name: string, id: nat)
    requires ms != [] && SeenAt(ms, envs) && |ms'| == |ms| && ms'[|ms| - 1] == With(ms[|ms| - 1], name, id)
    requires forall i :: 0 <= i < |ms| - 1 ==> ms'[i] == ms[i]
    ensures SeenAt(ms', Defined(envs, name, id))
  {
    var d, all := |ms|, Defined(envs, name, id);
    assert ms[..d] == ms && ms'[..d] == ms' && ms'[..d - 1] == ms[..d - 1];
    var m, v := Merged(ms[..d - 1]), ms[d - 1];
    assert m + With(v, name, id) == With(m + v, name, id);
    forall i | 0 <= i < d ensures all[i] == Merged(ms'[..i + 1]) {
      if i < d - 1 {
        assert ms'[..i + 1] == ms[..i + 1];
      }
    }
  }

  lemma {:induction false} SeenLast(ms: seq<Env>, envs: seq<Env>)
    requires ms != [] && SeenAt(ms, envs)
    ensures envs[|ms| - 1] == Merged(ms)
  {
    assert ms[..|ms|] == ms;
  }

  lemma {:induction false} BoundMore(bound: map<nat, nat>, bs: seq<Bind>, b: Bind)
    ensures Bound(bound, bs + [b])
         == if b.variable.Some? then Bound(bound, bs)[b.value := b.variable.value] else Bound(bound, bs)
  {
    assert (bs + [b])[..|bs|] == bs;
  }

  /** The worklist, as pairs of a token and its scope. */
  ghost predicate Stands(queue: seq<(Tok, VariableScope)>, q: seq<Entry>, stack: seq<VariableScope>) {
    && |queue| == |q|
    && forall i :: 0 <= i < |q| ==>
        queue[i].0 == q[i].token && 1 <= q[i].depth <= |stack| && queue[i].1 == stack[q[i].depth - 1]
  }

  /** No entry lies outside of the scope the traversal started with. */
  ghost predicate AtLeast(q: seq<Entry>, d: nat) {
    forall i :: 0 <= i < |q| ==> d <= q[i].depth
  }

  lemma {:induction false} FallingAll(q: seq<Entry>, d: nat, i: nat)
    requires Falling(q, d) && i < |q|
    ensures q[i].depth <= d
  {
    if i > 0 {
      FallingAll(q[1..], q[0].depth, i - 1);
    }
  }

  lemma {:induction false} StandsRest(queue: seq<(Tok, VariableScope)>, q: seq<Entry>, stack: seq<VariableScope>,
          d: nat)
    requires queue != [] && Stands(queue, q, stack) && Falling(q[1..], d) && d <= |stack|
    ensures Stands(queue[1..], q[1..], stack[..d])
  {
    forall i | 0 <= i < |q[1..]| ensures q[1..][i].depth <= d && q[1..][i] == q[i + 1] {
      FallingAll(q[1..], d, i);
    }
  }

  // ---------- the state of the traversal ----------

  ghost predicate Ready(queue: seq<(Tok, VariableScope)>, q: seq<Entry>, stack: seq<VariableScope>) {
    Chain(stack) && Stands(queue, q, stack) && Falling(q, |stack|)
  }

  lemma {:induction false} ReadyFalls(queue: seq<(Tok, VariableScope)>, q: seq<Entry>, stack: seq<VariableScope>)
    requires Ready(queue, q, stack)
    ensures Chain(stack) && Falling(q, |stack|) && |queue| == |q|
  {
  }

  lemma {:induction false} ReadyPushed(queue: seq<(Tok, VariableScope)>, q: seq<Entry>, stack: seq<VariableScope>,
          s: VariableScope)
    requires Ready(queue, q, stack) && stack != [] && s.parent == stack[|stack| - 1]
        && forall i :: 0 <= i < |stack| ==> stack[i] != s
    ensures Ready(queue, q, stack + [s])
  {
    FallingMore(q, |stack|, |stack| + 1);
  }

  lemma {:induction false} ReadyFirst(queue: seq<(Tok, VariableScope)>, q: seq<Entry>, stack: seq<VariableScope>,
          t: Tok, s: VariableScope)
    requires Ready(queue, q, stack) && stack != [] && s == stack[|stack| - 1]
    ensures Ready([(t, s)] + queue, [Entry(t, |stack|)] + q, stack)
  {
    assert ([Entry(t, |stack|)] + q)[1..] == q;
  }

  lemma {:induction false} ReadyKids(kids: seq<Tok>, others: seq<(Tok, VariableScope)>, q: seq<Entry>,
          stack: seq<VariableScope>, queue: seq<(Tok, VariableScope)>)
    requires Ready(others, q, stack) && stack != [] && |queue| == |kids| + |others| && queue[|kids|..] == others
    requires forall i :: 0 <= i < |kids| ==> queue[i] == (kids[i], stack[|stack| - 1])
    ensures Ready(queue, AtDepth(kids, |stack|) + q, stack)
  {
    FallingKids(kids, |stack|, q, |stack|);
    var all := AtDepth(kids, |stack|) + q;
    forall i | 0 <= i < |all|
      ensures queue[i].0 == all[i].token && 1 <= all[i].depth <= |stack| && queue[i].1 == stack[all[i].depth - 1]
    {
      if i >= |kids| {
        assert queue[i] == others[i - |kids|] && all[i] == q[i - |kids|];
      }
    }
  }

  lemma {:induction false} ReadyStarts(root: Tok, scope: VariableScope, chain: seq<VariableScope>)
    requires Chain(chain) && chain != [] && chain[|chain| - 1] == scope
    ensures Ready([(root, scope)], [Entry(root, |chain|)], chain)
  {
    assert [Entry(root, |chain|)][1..] == [];
  }

  /** The next entry's scope becomes the innermost one. */
  lemma {:induction false} ReadyNext(queue: seq<(Tok, VariableScope)>, q: seq<Entry>, stack: seq<VariableScope>,
          envs: seq<Env>)
    requires queue != [] && Ready(queue, q, stack) && |q| == |queue| && SeenAt(Maps(stack), envs)
    ensures |envs| == |stack|
    ensures var d := q[0].depth;
            && 1 <= d <= |stack| && q[0].token == queue[0].0 && queue[0].1 == stack[d - 1]
            && Ready(queue[1..], q[1..], stack[..d]) && SeenAt(Maps(stack[..d]), envs[..d])
            && Falling(q, |envs|) && Falling(q, d) && Rest(q, envs) == Rest(q, envs[..d])
  {
    var d := q[0].depth;
    assert q == [q[0]] + q[1..];
    RestTruncated(q[0], q[1..], envs);
    StandsRest(queue, q, stack, d);
    SeenPrefix(Maps(stack), envs, d);
    assert Maps(stack)[..d] == Maps(stack[..d]);
    ChainPrefix(stack, d);
  }

  lemma {:induction false} Start(root: Tok, ms: seq<Env>) returns (envs: seq<Env>, goal: seq<Bind>)
    requires ms != []
    ensures SeenAt(ms, envs) && goal == Resolve(root, Merged(ms)).1
    ensures Falling([Entry(root, |ms|)], |envs|) && [] + Rest([Entry(root, |ms|)], envs) == goal
  {
    var n := |ms|;
    envs := seq(n, i requires 0 <= i < n => Merged(ms[..i + 1]));
    goal := Resolve(root, Merged(ms)).1;
    SeenLast(ms, envs);
    RestFirst(Entry(root, n), [], envs);
    assert [Entry(root, n)] + [] == [Entry(root, n)];
  }

  lemma {:induction false} RestNone(q: seq<Entry>, envs: seq<Env>)
    requires |q| == 0
    ensures Falling(q, |envs|) && Rest(q, envs) == []
  {
  }

  lemma {:induction false} AtLeastRest(q: seq<Entry>, n: nat)
    requires AtLeast(q, n) && q != []
    ensures AtLeast(q[1..], n) && n <= q[0].depth
  {
  }

  lemma {:induction false} AtLeastOne(t: Tok, n: nat)
    ensures AtLeast([Entry(t, n)], n)
  {
  }

  lemma {:induction false} StepReaches(tok: Tok, q: seq<Entry>, envs: seq<Env>, q': seq<Entry>, envs': seq<Env>,
          more: seq<Bind>, n: nat, binds: seq<Bind>, goal: seq<Bind>)
    requires Step(tok, q, envs, q', envs', more, n)
    requires Falling([Entry(tok, |envs|)] + q, |envs|) ==> binds + Rest([Entry(tok, |envs|)] + q, envs) == goal
    ensures Falling(q', |envs'|) && AtLeast(q', n) && (binds + more) + Rest(q', envs') == goal
    ensures SizeAll(Toks(q')) < SizeAll(Toks([Entry(tok, |envs|)] + q))
  {
    hide Falling, Rest, SizeAll, Toks;
    assert binds + (more + Rest(q', envs')) == (binds + more) + Rest(q', envs');
  }

  lemma {:induction false} BoundNone(bound: map<nat, nat>)
    ensures Bound(bound, []) == bound
  {
  }

  lemma {:induction false} BoundAll(bound: map<nat, nat>, a: seq<Bind>, b: seq<Bind>)
    ensures Bound(Bound(bound, a), b) == Bound(bound, a + b)
  {
    if b == [] {
      assert a + b == a;
    } else {
      assert (a + b)[..|a + b| - 1] == a + b[..|b| - 1];
      BoundAll(bound, a, b[..|b| - 1]);
    }
  }

  class Traversal {
    /** The variable of each VariableValue. */
    var bound: map<nat, nat>

    constructor (bound: map<nat, nat>)
      ensures this.bound == bound
    {
      this.bound := bound;
    }

    /** VariableValue.SetScope */
    method SetValue(id: nat, name: string, scope: VariableScope, ghost chain: seq<VariableScope>)
      requires Chain(chain) && chain != [] && chain[|chain| - 1] == scope
      modifies this
      ensures var v := Found(Seen(chain), name); bound == if v.Some? then old(bound)[id := v.value] else old(bound)
    {
      var tok := scope.Get(name, chain);
      if tok.Some? {
        bound := bound[id := tok.value];
      }
    }

    /** Variable.SetScope */
    method Define(name: string, id: nat, scope: VariableScope, ghost stack: seq<VariableScope>, ghost envs: seq<Env>)
      requires Chain(stack) && stack != [] && stack[|stack| - 1] == scope && SeenAt(Maps(stack), envs)
      modifies scope
      ensures SeenAt(Maps(stack), Defined(envs, name, id))
    {
      ghost var ms := Maps(stack);
      scope.Set(name, id);
      SeenSet(ms, envs, Maps(stack), name, id);
    }

    /** The children in front of the queue, the first one first. */
    method Unshift(kids: seq<Tok>, scope: VariableScope, queue: seq<(Tok, VariableScope)>)
      returns (r: seq<(Tok, VariableScope)>)
      ensures |r| == |kids| + |queue| && r[|kids|..] == queue
      ensures forall i :: 0 <= i < |kids| ==> r[i] == (kids[i], scope)
    {
      r := queue;
      var i := |kids|;
      while i > 0
        invariant 0 <= i <= |kids| && |r| == |kids| - i + |queue| && r[|kids| - i..] == queue
        invariant forall j :: i <= j < |kids| ==> r[j - i] == (kids[j], scope)
      {
        i := i - 1;
        r := [(kids[i], scope)] + r;
      }
    }

    /** One entry of the queue: set its scope, and put its children in front of the others. */
    method Visit(tok: Tok, scope: VariableScope, others: seq<(Tok, VariableScope)>, ghost q: seq<Entry>,
            ghost stack: seq<VariableScope>, ghost envs: seq<Env>, ghost n: nat)
      returns (queue: seq<(Tok, VariableScope)>, ghost q': seq<Entry>, ghost stack': seq<VariableScope>,
            ghost envs': seq<Env>, ghost binds: seq<Bind>)
      requires Ready(others, q, stack) && SeenAt(Maps(stack), envs) && stack != [] && stack[|stack| - 1] == scope
      requires AtLeast(q, n) && n <= |stack|
      modifies this, scope
      ensures Ready(queue, q', stack') && SeenAt(Maps(stack'), envs')
      ensures |stack| <= |stack'| && stack'[..|stack|] == stack
          && forall i :: |stack| <= i < |stack'| ==> fresh(stack'[i])
      ensures Step(tok, q, envs, q', envs', binds, n) && bound == Bound(old(bound), binds)
    {
      hide Resolve, Falling, Rest, Chain, Stands, Merged, Step, AtLeast, Ready, Toks, SizeAll;
      ghost var d := |stack|;
      ReadyFalls(others, q, stack);
      binds, stack', envs' := [], stack, envs;
      BoundNone(bound);
      match tok {
        case Scoping(kid) =>
          StepScoping(kid, d, q, envs, n);
          var s := scope.Push();
          SeenPushed(Maps(stack), envs);
          stack', envs' := stack + [s], envs + [envs[d - 1]];
          assert Maps(stack') == Maps(stack) + [map[]];
          ReadyPushed(others, q, stack, s);
          queue, q' := [(kid, s)] + others, [Entry(kid, d + 1)] + q;
          ReadyFirst(others, q, stack', kid, s);
        case Variable(id, name, kid) =>
          StepVariable(id, name, kid, d, q, envs, n);
          Define(name, id, scope, stack, envs);
          envs' := Defined(envs, name, id);
          queue, q' := [(kid, scope)] + others, [Entry(kid, d)] + q;
          ReadyFirst(others, q, stack, kid, scope);
        case Value(id, name) =>
          StepValue(id, name, d, q, envs, n);
          SeenLast(Maps(stack), envs);
          SetValue(id, name, scope, stack);
          binds := [Bind(id, Found(envs[d - 1], name))];
          BoundMore(old(bound), [], binds[0]);
          queue, q' := others, q;
        case Plain(kids) =>
          StepPlain(kids, d, q, envs, n);
          queue := Unshift(kids, scope, others);
          q' := AtDepth(kids, d) + q;
          ReadyKids(kids, others, q, stack, queue);
      }
    }

    method SetScope(root: Tok, scope: VariableScope, ghost chain: seq<VariableScope>)
      requires Chain(chain) && chain != [] && chain[|chain| - 1] == scope
      modifies this, scope
      ensures bound == Bound(old(bound), Resolve(root, old(Seen(chain))).1)
    {
      hide Resolve, Falling, Rest, SizeAll, Ready, Bound, Merged, AtLeast, Toks, SeenAt, Step, Chain;
      var queue := [(root, scope)];
      ghost var n, stack, q, binds := |chain|, chain, [Entry(root, |chain|)], [];
      ghost var envs, goal := Start(root, Maps(chain));
      ReadyStarts(root, scope, chain);
      AtLeastOne(root, n);
      BoundNone(bound);
      while queue != []
        invariant Ready(queue, q, stack) && n <= |stack| && stack[..n] == chain && SeenAt(Maps(stack), envs)
        invariant forall i :: n <= i < |stack| ==> fresh(stack[i])
        invariant |queue| == |q| && Falling(q, |envs|) && AtLeast(q, n)
        invariant binds + Rest(q, envs) == goal && bound == Bound(old(bound), binds)
        decreases SizeAll(Toks(q))
      {
        var (tok, sc) := queue[0];
        ghost var d := q[0].depth;
        ReadyNext(queue, q, stack, envs);
        AtLeastRest(q, n);
        stack, envs := stack[..d], envs[..d];
        assert q == [Entry(tok, d)] + q[1..];
        ghost var more, q', stack', envs';
        queue, q', stack', envs', more := Visit(tok, sc, queue[1..], q[1..], stack, envs, n);
        assert stack'[..n] == stack[..n];
        ReadyFalls(queue, q', stack');
        BoundAll(old(bound), binds, more);
        StepReaches(tok, q[1..], envs, q', envs', more, n, binds, goal);
        q, stack, envs, binds := q', stack', envs', binds + more;
      }
      RestNone(q, envs);
      assert binds + [] == binds;
    }

    /** From a fresh scope, every VariableValue is bound to the nearest definition before it that it can see. */
    method ResetScope(root: Tok)
      modifies this
      ensures bound == Bound(old(bound), Referred([], Events(root)))
      ensures EveryUseBound(root, map[], Referred([], Events(root)))
    {
      hide Resolve, Bound, Events, Referred, EveryUseBound;
      var scope := new VariableScope(null);
      NothingSeen(scope);
      SetScope(root, scope, [scope]);
      ResolveFindsNearest(root, map[], []);
      EveryUseIsBound(root, map[]);
    }
  }

  lemma {:induction false} NothingSeen(scope: VariableScope)
    requires scope.parent == null && scope.variables == map[]
    ensures Chain([scope]) && Seen([scope]) == map[] && Knows(map[], [])
  {
    var ms: seq<Env> := [map[]];
    assert Maps([scope]) == ms && ms[..0] == [];
  }
}
