/**
 * Which definition a use refers to (token/set.go, token/variables/variables.go): a resolver that passes
 * environments finds for every use the nearest definition before it that no closed scope hides.
 */
module ScopeRules {

  datatype Option<T> = None | Some(value: T)

  /** The tokens that are reached through Get. A VariableValue refers to a variable by its name. */
  datatype Tok =
    | Plain(kids: seq<Tok>)
    | Scoping(kid: Tok)
    | Variable(id: nat, name: string, kid: Tok)
    | Value(id: nat, name: string)

  /** A VariableValue, and the variable it is bound to if there is a visible one. */
  datatype Bind = Bind(value: nat, variable: Option<nat>)

  // ---------- the reference: which definition is visible ----------

  datatype Event = Open | Close | Def(id: nat, name: string) | Use(id: nat, name: string)

  /** The tokens in preorder, with the extent of the scopes. */
  function Events(t: Tok): seq<Event>
    decreases t, 0
  {
    match t
    case Plain(kids) => EventsAll(kids)
    case Scoping(kid) => [Open] + Events(kid) + [Close]
    case Variable(id, name, kid) => [Def(id, name)] + Events(kid)
    case Value(id, name) => [Use(id, name)]
  }

  function EventsAll(ts: seq<Tok>): seq<Event>
    decreases ts
  {
    if ts == [] then [] else Events(ts[0]) + EventsAll(ts[1..])
  }

  /** The nearest definition of the name, going back, that is outside of the scopes closed on the way. */
  function Nearest(past: seq<Event>, name: string, closed: nat): Option<nat> {
    if past == [] then None
    else
      var e, rest := past[|past| - 1], past[..|past| - 1];
      match e
      case Close => Nearest(rest, name, closed + 1)
      case Open => Nearest(rest, name, if closed > 0 then closed - 1 else 0)
      case Def(id, n) => if closed == 0 && n == name then Some(id) else Nearest(rest, name, closed)
      case Use(_, _) => Nearest(rest, name, closed)
  }

  function ReferredBy(past: seq<Event>, e: Event): seq<Bind> {
    if e.Use? then [Bind(e.id, Nearest(past, e.name, 0))] else []
  }

  /** What each use among `events` refers to, after the events of the past. */
  function Referred(past: seq<Event>, events: seq<Event>): seq<Bind>
    decreases events
  {
    if events == [] then [] else ReferredBy(past, events[0]) + Referred(past + [events[0]], events[1..])
  }

  lemma {:induction false} ReferredSplit(past: seq<Event>, a: seq<Event>, b: seq<Event>)
    ensures Referred(past, a + b) == Referred(past, a) + Referred(past + a, b)
    decreases a
  {
    hide ReferredBy;
    if a == [] {
      assert a + b == b && past + a == past;
    } else {
      var e, rest := a[0], a[1..];
      assert (a + b)[0] == e && (a + b)[1..] == rest + b && past + [e] + rest == past + a;
      ReferredSplit(past + [e], rest, b);
      Associate(ReferredBy(past, e), Referred(past + [e], rest), Referred(past + a, b));
    }
  }

  lemma {:induction false} Associate(a: seq<Bind>, b: seq<Bind>, c: seq<Bind>)
    ensures a + (b + c) == a + b + c
  {
  }

  /** A finished token hides nothing from outside of a closed scope around it. */
  lemma {:induction false} NearestSkips(past: seq<Event>, t: Tok, name: string, closed: nat)
    requires closed > 0
    ensures Nearest(past + Events(t), name, closed) == Nearest(past, name, closed)
    decreases t, 0
  {
    match t
    case Plain(kids) => NearestSkipsAll(past, kids, name, closed);
    case Scoping(kid) =>
      var all := past + Events(t);
      assert all[..|all| - 1] == (past + [Open]) + Events(kid);
      NearestSkips(past + [Open], kid, name, closed + 1);
      assert (past + [Open])[..|past|] == past;
    case Variable(id, n, kid) =>
      assert past + Events(t) == (past + [Def(id, n)]) + Events(kid);
      NearestSkips(past + [Def(id, n)], kid, name, closed);
      assert (past + [Def(id, n)])[..|past|] == past;
    case Value(id, n) =>
      assert (past + [Use(id, n)])[..|past|] == past;
  }

  lemma {:induction false} NearestSkipsAll(past: seq<Event>, ts: seq<Tok>, name: string, closed: nat)
    requires closed > 0
    ensures Nearest(past + EventsAll(ts), name, closed) == Nearest(past, name, closed)
    decreases ts
  {
    if ts == [] {
      assert past + [] == past;
    } else {
      assert past + EventsAll(ts) == (past + Events(ts[0])) + EventsAll(ts[1..]);
      NearestSkipsAll(past + Events(ts[0]), ts[1..], name, closed);
      NearestSkips(past, ts[0], name, closed);
    }
  }

  // ---------- the resolver that passes environments ----------

  type Env = map<string, nat>

  function Found(env: Env, name: string): Option<nat> {
    if name in env then Some(env[name]) else None
  }

  function With(env: Env, name: string, id: nat): Env {
    env[name := id]
  }

  /** The environment after t, and the bindings made in t. */
  function Resolve(t: Tok, env: Env): (Env, seq<Bind>)
    decreases t, 0
  {
    match t
    case Plain(kids) => ResolveAll(kids, env)
    case Scoping(kid) => (env, Resolve(kid, env).1)
    case Variable(id, name, kid) => Resolve(kid, With(env, name, id))
    case Value(id, name) => (env, [Bind(id, Found(env, name))])
  }

  function ResolveAll(ts: seq<Tok>, env: Env): (Env, seq<Bind>)
    decreases ts
  {
    if ts == [] then (env, [])
    else
      var (env1, b1) := Resolve(ts[0], env);
      var (env2, b2) := ResolveAll(ts[1..], env1);
      (env2, b1 + b2)
  }

  /** The environment holds what is visible after the past. */
  ghost predicate Knows(env: Env, past: seq<Event>) {
    forall name :: Found(env, name) == Nearest(past, name, 0)
  }

  lemma {:induction false} InsideKnown(env: Env, past: seq<Event>)
    requires Knows(env, past)
    ensures Knows(env, past + [Open])
  {
    assert (past + [Open])[..|past|] == past;
  }

  lemma {:induction false} ReferredInside(past: seq<Event>, kid: Tok)
    ensures Referred(past, Events(Scoping(kid))) == Referred(past + [Open], Events(kid))
  {
    hide Nearest;
    ReferredSplit(past, [Open] + Events(kid), [Close]);
    ReferredSplit(past, [Open], Events(kid));
    ReferredNone(past, Open);
    ReferredNone(past + ([Open] + Events(kid)), Close);
  }

  lemma {:induction false} NearestAround(past: seq<Event>, kid: Tok, name: string)
    ensures Nearest(past + Events(Scoping(kid)), name, 0) == Nearest(past, name, 0)
  {
    var inner, all := past + [Open], past + Events(Scoping(kid));
    assert all[..|all| - 1] == inner + Events(kid);
    NearestSkips(inner, kid, name, 1);
    assert inner[..|past|] == past;
  }

  /** Every use is bound to the nearest visible definition, and definitions do not leak out of their scope. */
  lemma {:induction false} ResolveFindsNearest(t: Tok, env: Env, past: seq<Event>)
    requires Knows(env, past)
    ensures Resolve(t, env).1 == Referred(past, Events(t))
    ensures Knows(Resolve(t, env).0, past + Events(t))
    decreases t, 0
  {
    hide Nearest;
    match t
    case Plain(kids) => ResolveAllFindsNearest(kids, env, past);
    case Scoping(kid) =>
      InsideKnown(env, past);
      ResolveFindsNearest(kid, env, past + [Open]);
      ReferredInside(past, kid);
      forall name ensures Nearest(past + Events(t), name, 0) == Nearest(past, name, 0) {
        NearestAround(past, kid, name);
      }
    case Variable(id, n, kid) =>
      DefinedKnown(env, past, id, n);
      ResolveFindsNearest(kid, With(env, n, id), past + [Def(id, n)]);
      ReferredSplit(past, [Def(id, n)], Events(kid));
      ReferredNone(past, Def(id, n));
      assert past + Events(t) == (past + [Def(id, n)]) + Events(kid);
    case Value(id, n) =>
      UsedKnown(env, past, id, n);
  }

  lemma {:induction false} DefinedKnown(env: Env, past: seq<Event>, id: nat, name: string)
    requires Knows(env, past)
    ensures Knows(With(env, name, id), past + [Def(id, name)])
  {
    var next := past + [Def(id, name)];
    assert next[..|past|] == past;
    forall n ensures Found(With(env, name, id), n) == Nearest(next, n, 0) {
      assert Found(env, n) == Nearest(past, n, 0);
    }
  }

  lemma {:induction false} UsedKnown(env: Env, past: seq<Event>, id: nat, name: string)
    requires Knows(env, past)
    ensures Knows(env, past + [Use(id, name)])
    ensures Referred(past, [Use(id, name)]) == [Bind(id, Found(env, name))]
  {
    assert (past + [Use(id, name)])[..|past|] == past;
    assert [Use(id, name)][1..] == [];
  }

  lemma {:induction false} ReferredNone(past: seq<Event>, e: Event)
    requires !e.Use?
    ensures Referred(past, [e]) == []
  {
    assert [e][1..] == [];
  }

  lemma {:induction false} ResolveAllFindsNearest(ts: seq<Tok>, env: Env, past: seq<Event>)
    requires Knows(env, past)
    ensures ResolveAll(ts, env).1 == Referred(past, EventsAll(ts))
    ensures Knows(ResolveAll(ts, env).0, past + EventsAll(ts))
    decreases ts
  {
    if ts == [] {
      assert past + [] == past;
    } else {
      ResolveFindsNearest(ts[0], env, past);
      ResolveAllFindsNearest(ts[1..], Resolve(ts[0], env).0, past + Events(ts[0]));
      ReferredSplit(past, Events(ts[0]), EventsAll(ts[1..]));
      assert past + EventsAll(ts) == past + Events(ts[0]) + EventsAll(ts[1..]);
    }
  }
}
