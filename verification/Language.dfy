/** The words of a format: what its tokens print under some permutation. */
module Languages {
  import opened Combinatorics
  import opened Onces
  import opened Grammars

  predicate InRanges(rs: seq<Range>, c: char) {
    exists i :: 0 <= i < |rs| && rs[i].from <= c <= rs[i].to
  }

  /** A character of the class: one of its characters, or one of its ranges. */
  predicate InClass(chars: seq<char>, ranges: seq<Range>, c: char) {
    c in chars || InRanges(ranges, c)
  }

  /** w is printed by g under some permutation of g and of the tokens active then. */
  ghost predicate Words(g: Grammar, w: string)
    decreases Height(g), 1
  {
    match g
    case Const(t) => w == t
    case CharClass(chars, ranges) => |w| == 1 && InClass(chars, ranges, w[0])
    case _ => exists p :: 0 <= p < Permutations(g) && WordsWith(g, p, w)
  }

  ghost predicate WordsWith(g: Grammar, p: nat, w: string)
    decreases Height(g), 0
  {
    KidsLower(g, p);
    WordsAll(Kids(g, p), w)
  }

  /** The siblings ks print the parts of w, in order. */
  ghost predicate WordsAll(ks: seq<Kid>, w: string)
    decreases KidsHeight(ks), 2, |ks|
  {
    if ks == [] then w == ""
    else
      KidsRest(ks);
      exists i :: 0 <= i <= |w| && Words(ks[0].token, w[..i]) && WordsAll(ks[1..], w[i..])
  }

  lemma {:induction false} KidsRest(ks: seq<Kid>)
    requires ks != []
    ensures Height(ks[0].token) <= KidsHeight(ks) && KidsHeight(ks[1..]) <= KidsHeight(ks)
  {
  }

  lemma {:induction false} WordsCons(ks: seq<Kid>, u: string, w: string)
    requires ks != [] && Words(ks[0].token, u) && WordsAll(ks[1..], w)
    ensures WordsAll(ks, u + w)
  {
    var x := u + w;
    assert x[..|u|] == u && x[|u|..] == w;
  }

  lemma {:induction false} WordsBy(g: Grammar, p: nat, w: string)
    requires !g.Const? && !g.CharClass? && p < Permutations(g) && WordsAll(Kids(g, p), w)
    ensures Words(g, w)
  {
    assert WordsWith(g, p, w);
  }

  // ---------- the words, token by token ----------

  /** The tokens ts print the parts of w, in order. */
  ghost predicate Joined(ts: seq<Grammar>, w: string)
    decreases |ts|
  {
    if ts == [] then w == "" else exists i :: 0 <= i <= |w| && Words(ts[0], w[..i]) && Joined(ts[1..], w[i..])
  }

  /** t, n times. */
  function Times(t: Grammar, n: nat): (ts: seq<Grammar>)
    ensures |ts| == n && forall i :: 0 <= i < n ==> ts[i] == t
  {
    seq(n, i => t)
  }

  /** The tokens in the order of v. */
  function Arranged(ts: seq<Grammar>, v: seq<nat>): (us: seq<Grammar>)
    requires forall i :: 0 <= i < |v| ==> v[i] < |ts|
    ensures |us| == |v| && forall i :: 0 <= i < |v| ==> us[i] == ts[v[i]]
  {
    seq(|v|, i requires 0 <= i < |v| => ts[v[i]])
  }

  lemma {:induction false} AllIsJoined(ks: seq<Kid>, ts: seq<Grammar>, w: string)
    requires |ks| == |ts| && forall i :: 0 <= i < |ks| ==> ks[i].token == ts[i]
    ensures WordsAll(ks, w) <==> Joined(ts, w)
    decreases |ks|
  {
    hide Words;
    if ks != [] {
      forall i | 0 <= i <= |w| ensures WordsAll(ks[1..], w[i..]) <==> Joined(ts[1..], w[i..]) {
        AllIsJoined(ks[1..], ts[1..], w[i..]);
      }
    }
  }

  lemma {:induction false} JoinedOne(t: Grammar, w: string)
    ensures Joined([t], w) <==> Words(t, w)
  {
    hide Words;
    assert [t][1..] == [];
    assert w[..|w|] == w && w[|w|..] == "";
    if i :| 0 <= i <= |w| && Words([t][0], w[..i]) && Joined([t][1..], w[i..]) {
      assert w[i..] == "" && w[..i] == w;
    }
  }

  /** What is printed under the permutation p. */
  lemma {:induction false} WithIsJoined(g: Grammar, p: nat, ts: seq<Grammar>, w: string)
    requires |Kids(g, p)| == |ts| && forall i :: 0 <= i < |ts| ==> Kids(g, p)[i].token == ts[i]
    ensures WordsWith(g, p, w) <==> Joined(ts, w)
  {
    hide Words;
    AllIsJoined(Kids(g, p), ts, w);
  }

  /** The words of a token in terms of the words of those it is made of. */
  ghost predicate WordsOf(g: Grammar, w: string) {
    match g
    case Const(t) => w == t
    case CharClass(chars, ranges) => |w| == 1 && InClass(chars, ranges, w[0])
    case Concat(ts) => Joined(ts, w)
    case One(ts) => exists t :: t in ts && Words(t, w)
    case Once(ts) => exists v :: IsPermutation(v, |ts|) && Joined(Arranged(ts, v), w)
    case Optional(t) => w == "" || Words(t, w)
    case Repeat(t, from, to) => exists n: nat :: from <= n <= to && Joined(Times(t, n), w)
    case Scope(t) => Words(t, w)
  }

  lemma {:induction false} WordsMean(g: Grammar, w: string)
    ensures Words(g, w) <==> WordsOf(g, w)
  {
    match g
    case Concat(ts) => ConcatWords(ts, w);
    case One(ts) => OneWords(ts, w);
    case Once(ts) => OnceWords(ts, w);
    case Optional(t) => OptionalWords(t, w);
    case Repeat(t, from, to) => RepeatWords(t, from, to, w);
    case Scope(t) => ScopeWords(t, w);
    case _ =>
  }

  lemma {:induction false} ConcatWords(ts: seq<Grammar>, w: string)
    ensures Words(Concat(ts), w) <==> Joined(ts, w)
  {
    WithIsJoined(Concat(ts), 0, ts, w);
    hide WordsWith, Joined;
  }

  lemma {:induction false} ScopeWords(t: Grammar, w: string)
    ensures Words(Scope(t), w) <==> Words(t, w)
  {
    WithIsJoined(Scope(t), 0, [t], w);
    JoinedOne(t, w);
    assert Words(Scope(t), w) <==> WordsWith(Scope(t), 0, w) by { hide WordsWith, Joined; }
  }

  lemma {:induction false} OneWords(ts: seq<Grammar>, w: string)
    ensures Words(One(ts), w) <==> exists t :: t in ts && Words(t, w)
  {
    forall p: nat | p < |ts| ensures WordsWith(One(ts), p, w) <==> Words(ts[p], w) {
      WithIsJoined(One(ts), p, [ts[p]], w);
      JoinedOne(ts[p], w);
    }
    OneChoices(ts, w);
  }

  lemma {:induction false} OneChoices(ts: seq<Grammar>, w: string)
    requires forall p: nat :: p < |ts| ==> (WordsWith(One(ts), p, w) <==> Words(ts[p], w))
    ensures Words(One(ts), w) <==> exists t :: t in ts && Words(t, w)
  {
    hide WordsWith;
    assert Words(One(ts), w) <==> exists p :: 0 <= p < |ts| && WordsWith(One(ts), p, w);
    hide Words;
    if t :| t in ts && Words(t, w) {
      var p :| 0 <= p < |ts| && ts[p] == t;
      assert WordsWith(One(ts), p, w);
    }
  }

  lemma {:induction false} OnceWords(ts: seq<Grammar>, w: string)
    ensures Words(Once(ts), w) <==> exists v :: IsPermutation(v, |ts|) && Joined(Arranged(ts, v), w)
  {
    var n := |ts|;
    forall p: nat | p < Fact(n) ensures WordsWith(Once(ts), p, w) <==> Joined(Arranged(ts, PermutationOf(n, p)), w) {
      WithIsJoined(Once(ts), p, Arranged(ts, PermutationOf(n, p)), w);
    }
    hide WordsWith, Joined, Fact, IsPermutation;
    assert Words(Once(ts), w) <==> exists p :: 0 <= p < Fact(n) && WordsWith(Once(ts), p, w);
    if v :| IsPermutation(v, n) && Joined(Arranged(ts, v), w) {
      PermutationArranges(v, n);
      var p := UnrankHits(Identity(n), v);
      assert PermutationOf(n, p) == v && WordsWith(Once(ts), p, w);
    }
  }

  lemma {:induction false} OptionalWords(t: Grammar, w: string)
    ensures Words(Optional(t), w) <==> w == "" || Words(t, w)
  {
    WithIsJoined(Optional(t), 0, [], w);
    WithIsJoined(Optional(t), 1, [t], w);
    JoinedOne(t, w);
    assert Joined([], w) <==> w == "";
    hide WordsWith, Joined;
    assert Words(Optional(t), w) <==> WordsWith(Optional(t), 0, w) || WordsWith(Optional(t), 1, w);
  }

  lemma {:induction false} RepeatWords(t: Grammar, from: nat, to: nat, w: string)
    ensures Words(Repeat(t, from, to), w) <==> exists n: nat :: from <= n <= to && Joined(Times(t, n), w)
  {
    var g := Repeat(t, from, to);
    forall p: nat ensures WordsWith(g, p, w) <==> Joined(Times(t, from + p), w) {
      WithIsJoined(g, p, Times(t, from + p), w);
    }
    hide WordsWith, Joined, Times;
    assert Words(g, w) <==> exists p :: 0 <= p < to - from + 1 && WordsWith(g, p, w);
    if n: nat :| from <= n <= to && Joined(Times(t, n), w) {
      assert WordsWith(g, n - from, w);
    }
  }
}
