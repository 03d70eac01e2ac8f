/**
 * What a parse of a token accepts: the ordered, greedy matcher as a function, the readings it stands for,
 * and when it accepts exactly the words of a format.
 */
module Matching {
  import opened Grammars
  import opened Configurations
  import opened Languages

  datatype Match = NoMatch | Match(next: nat)

  // ---------- what is consumed ----------

  /** The end of what g consumes of s from cur on: the first alternative that fits, as much as fits. */
  function Consumed(g: Grammar, s: string, cur: nat): Match
    decreases Height(g), 0
  {
    match g
    case Const(t) => if cur + |t| <= |s| && s[cur..cur + |t|] == t then Match(cur + |t|) else NoMatch
    case CharClass(chars, ranges) => if cur < |s| && InClass(chars, ranges, s[cur]) then Match(cur + 1) else NoMatch
    case Concat(ts) => ConsumedAll(ts, s, cur)
    case One(ts) => ConsumedFirst(ts, s, cur)
    case Once(_) => NoMatch
    case Optional(t) => var m := Consumed(t, s, cur); if m.Match? then m else Match(cur)
    case Repeat(t, from, to) => ConsumedTimes(t, from, if to >= from then to - from else 0, s, cur)
    case Scope(t) => Consumed(t, s, cur)
  }

  function ConsumedAll(ts: seq<Grammar>, s: string, cur: nat): Match
    decreases HeightAll(ts), 1, |ts|
  {
    if ts == [] then Match(cur)
    else var m := Consumed(ts[0], s, cur); if m.NoMatch? then m else ConsumedAll(ts[1..], s, m.next)
  }

  function ConsumedFirst(ts: seq<Grammar>, s: string, cur: nat): Match
    decreases HeightAll(ts), 1, |ts|
  {
    if ts == [] then NoMatch
    else var m := Consumed(ts[0], s, cur); if m.Match? then m else ConsumedFirst(ts[1..], s, cur)
  }

  function ConsumedTimes(t: Grammar, must: nat, may: nat, s: string, cur: nat): Match
    decreases Height(t), 1, must + may
  {
    if must > 0 then
      var m := Consumed(t, s, cur); if m.NoMatch? then m else ConsumedTimes(t, must - 1, may, s, m.next)
    else if may > 0 then
      var m := Consumed(t, s, cur); if m.NoMatch? then Match(cur) else ConsumedTimes(t, 0, may - 1, s, m.next)
    else Match(cur)
  }

  /** What is consumed is consumed within the input. */
  lemma {:induction false} ConsumedWithin(g: Grammar, s: string, cur: nat)
    requires cur <= |s|
    ensures Consumed(g, s, cur).Match? ==> cur <= Consumed(g, s, cur).next <= |s|
    decreases Height(g), 0
  {
    match g
    case Concat(ts) => ConsumedAllWithin(ts, s, cur);
    case One(ts) => ConsumedFirstWithin(ts, s, cur);
    case Optional(t) => ConsumedWithin(t, s, cur);
    case Repeat(t, from, to) => ConsumedTimesWithin(t, from, if to >= from then to - from else 0, s, cur);
    case Scope(t) => ConsumedWithin(t, s, cur);
    case _ =>
  }

  lemma {:induction false} ConsumedAllWithin(ts: seq<Grammar>, s: string, cur: nat)
    requires cur <= |s|
    ensures ConsumedAll(ts, s, cur).Match? ==> cur <= ConsumedAll(ts, s, cur).next <= |s|
    decreases HeightAll(ts), 1, |ts|
  {
    if ts != [] {
      ConsumedWithin(ts[0], s, cur);
      if Consumed(ts[0], s, cur).Match? { ConsumedAllWithin(ts[1..], s, Consumed(ts[0], s, cur).next); }
    }
  }

  lemma {:induction false} ConsumedFirstWithin(ts: seq<Grammar>, s: string, cur: nat)
    requires cur <= |s|
    ensures ConsumedFirst(ts, s, cur).Match? ==> cur <= ConsumedFirst(ts, s, cur).next <= |s|
    decreases HeightAll(ts), 1, |ts|
  {
    if ts != [] {
      ConsumedWithin(ts[0], s, cur);
      ConsumedFirstWithin(ts[1..], s, cur);
    }
  }

  lemma {:induction false} ConsumedTimesWithin(t: Grammar, must: nat, may: nat, s: string, cur: nat)
    requires cur <= |s|
    ensures ConsumedTimes(t, must, may, s, cur).Match? ==> cur <= ConsumedTimes(t, must, may, s, cur).next <= |s|
    decreases Height(t), 1, must + may
  {
    ConsumedWithin(t, s, cur);
    var m := Consumed(t, s, cur);
    if m.Match? {
      if must > 0 {
        ConsumedTimesWithin(t, must - 1, may, s, m.next);
      } else if may > 0 {
        ConsumedTimesWithin(t, 0, may - 1, s, m.next);
      }
    }
  }

  // ---------- readings ----------

  predicate Allowed(g: Grammar, p: nat) {
    match g
    case One(ts) => p < |ts|
    case Once(_) => false
    case Optional(_) => p <= 1
    case Repeat(_, from, to) => p == 0 || from + p <= to
    case _ => true
  }

  /** g, set to c, reads s from cur to nex, and at every choice nothing that comes first can be read. */
  ghost predicate Fits(g: Grammar, c: Config, s: string, cur: nat, nex: nat)
    decreases Height(g), 1
  {
    match g
    case Const(t) => cur + |t| == nex <= |s| && s[cur..nex] == t
    case CharClass(chars, ranges) =>
      cur + 1 == nex <= |s| && InClass(chars, ranges, s[cur]) && c.digit == s[cur] as nat
    case _ =>
      KidsLower(g, c.digit);
      && Allowed(g, c.digit) && FitsKids(Kids(g, c.digit), c.kids, s, cur, nex)
      && Greedy(g, c.digit, s, cur, nex)
  }

  /**
   * No alternative before the chosen one can be read, an Optional is left out only if it cannot be read, and
   * a Repeat ends before it is full only where no further item can be read.
   */
  ghost predicate Greedy(g: Grammar, p: nat, s: string, cur: nat, nex: nat)
    decreases Height(g), 0
  {
    match g
    case One(ts) => forall j :: 0 <= j < p && j < |ts| ==> (HeightAt(ts, j); !Readable(ts[j], s, cur))
    case Optional(t) => p == 0 ==> !Readable(t, s, cur)
    case Repeat(t, from, to) => from + p < to ==> !Readable(t, s, nex)
    case _ => true
  }

  ghost predicate Readable(g: Grammar, s: string, cur: nat)
    decreases Height(g), 2
  {
    exists c, nex :: Fits(g, c, s, cur, nex)
  }

  ghost predicate FitsKids(ks: seq<Kid>, cs: seq<Config>, s: string, cur: nat, nex: nat)
    decreases KidsHeight(ks), 3, |ks|
  {
    if ks == [] then cs == [] && nex == cur
    else
      KidsRest(ks);
      cs != [] && exists mid :: Fits(ks[0].token, cs[0], s, cur, mid) && FitsKids(ks[1..], cs[1..], s, mid, nex)
  }

  lemma {:induction false} FitsOne(k: Kid, cs: seq<Config>, s: string, cur: nat, nex: nat)
    ensures FitsKids([k], cs, s, cur, nex) <==> |cs| == 1 && Fits(k.token, cs[0], s, cur, nex)
  {
    assert [k][1..] == [];
    hide Fits;
    if cs != [] {
      forall mid: nat ensures FitsKids([], cs[1..], s, mid, nex) <==> |cs| == 1 && mid == nex {
      }
      assert FitsKids([k], cs, s, cur, nex) <==>
        exists mid: nat :: Fits(k.token, cs[0], s, cur, mid) && FitsKids([k][1..], cs[1..], s, mid, nex);
    }
  }

  /** Only the tokens matter, not where they come from. */
  lemma {:induction false} FitsSame(ks: seq<Kid>, ls: seq<Kid>, cs: seq<Config>, s: string, cur: nat, nex: nat)
    requires |ks| == |ls| && (forall i :: 0 <= i < |ks| ==> ks[i].token == ls[i].token) && FitsKids(ks, cs, s, cur, nex)
    ensures FitsKids(ls, cs, s, cur, nex)
    decreases |ks|
  {
    hide Fits;
    if ks != [] {
      var mid: nat :| Fits(ks[0].token, cs[0], s, cur, mid) && FitsKids(ks[1..], cs[1..], s, mid, nex);
      FitsSame(ks[1..], ls[1..], cs[1..], s, mid, nex);
    }
  }

  /** A reading is what the matcher finds. */
  lemma {:induction false} FitsConsumed(g: Grammar, c: Config, s: string, cur: nat, nex: nat)
    requires cur <= |s| && Fits(g, c, s, cur, nex)
    ensures Consumed(g, s, cur) == Match(nex) && nex <= |s|
    decreases Height(g), 1
  {
    if !g.Const? && !g.CharClass? {
      KidsLower(g, c.digit);
      var ks := Kids(g, c.digit);
      assert FitsKids(ks, c.kids, s, cur, nex) && Greedy(g, c.digit, s, cur, nex) && Allowed(g, c.digit);
      hide Fits, FitsKids, Readable;
      match g
      case Concat(ts) => FitsAll(ks, ts, c.kids, s, cur, nex);
      case One(ts) =>
        FitsOne(ks[0], c.kids, s, cur, nex);
        HeightAt(ts, c.digit);
        FitsConsumed(ts[c.digit], c.kids[0], s, cur, nex);
        forall j | 0 <= j < c.digit ensures Consumed(ts[j], s, cur).NoMatch? {
          HeightAt(ts, j);
          UnreadableFails(ts[j], s, cur);
        }
        FirstMatch(ts, c.digit, s, cur);
      case Optional(t) =>
        if c.digit == 0 {
          NoKidsFit(c.kids, s, cur, nex);
          UnreadableFails(t, s, cur);
        } else {
          FitsOne(ks[0], c.kids, s, cur, nex);
          FitsConsumed(t, c.kids[0], s, cur, nex);
        }
      case Repeat(t, from, to) =>
        if from + c.digit < to { UnreadableFails(t, s, nex); }
        FitsTimes(ks, t, from, if to >= from then to - from else 0, c.kids, s, cur, nex);
      case Scope(t) =>
        FitsOne(ks[0], c.kids, s, cur, nex);
        FitsConsumed(t, c.kids[0], s, cur, nex);
      case _ =>
    }
  }

  lemma {:induction false} NoKidsFit(cs: seq<Config>, s: string, cur: nat, nex: nat)
    requires FitsKids([], cs, s, cur, nex)
    ensures cs == [] && nex == cur
  {
  }

  lemma {:induction false} UnreadableFails(g: Grammar, s: string, cur: nat)
    requires !Readable(g, s, cur)
    ensures cur <= |s| ==> Consumed(g, s, cur).NoMatch?
    decreases Height(g), 2
  {
    hide Fits, Consumed;
    if cur <= |s| && Consumed(g, s, cur).Match? { var c := ConsumedFits(g, s, cur); }
  }

  lemma {:induction false} FailsUnreadable(g: Grammar, s: string, cur: nat)
    requires cur <= |s| && Consumed(g, s, cur).NoMatch?
    ensures !Readable(g, s, cur)
    decreases Height(g), 2
  {
    hide Fits, Consumed;
    forall c, nex | Fits(g, c, s, cur, nex) ensures false { FitsConsumed(g, c, s, cur, nex); }
  }

  lemma {:induction false} FirstMatch(ts: seq<Grammar>, p: nat, s: string, cur: nat)
    requires p < |ts| && Consumed(ts[p], s, cur).Match?
    requires forall j :: 0 <= j < p ==> Consumed(ts[j], s, cur).NoMatch?
    ensures ConsumedFirst(ts, s, cur) == Consumed(ts[p], s, cur)
  {
    hide Consumed;
    if p > 0 { FirstMatch(ts[1..], p - 1, s, cur); }
  }

  lemma {:induction false} FitsAll(ks: seq<Kid>, ts: seq<Grammar>, cs: seq<Config>, s: string, cur: nat, nex: nat)
    requires |ks| == |ts| && forall i :: 0 <= i < |ks| ==> ks[i].token == ts[i]
    requires cur <= |s| && FitsKids(ks, cs, s, cur, nex)
    ensures ConsumedAll(ts, s, cur) == Match(nex) && nex <= |s|
    decreases KidsHeight(ks), 3, |ks|
  {
    if ks != [] {
      KidsRest(ks);
      var mid: nat :| Fits(ks[0].token, cs[0], s, cur, mid) && FitsKids(ks[1..], cs[1..], s, mid, nex);
      hide Fits, FitsKids, Consumed;
      FitsConsumed(ks[0].token, cs[0], s, cur, mid);
      FitsAll(ks[1..], ts[1..], cs[1..], s, mid, nex);
    }
  }

  lemma {:induction false} FitsTimes(ks: seq<Kid>, t: Grammar, must: nat, may: nat, cs: seq<Config>, s: string,
          cur: nat, nex: nat)
    requires (forall i :: 0 <= i < |ks| ==> ks[i].token == t) && must <= |ks| <= must + may
    requires cur <= |s| && FitsKids(ks, cs, s, cur, nex)
    requires nex <= |s| && |ks| < must + may ==> Consumed(t, s, nex).NoMatch?
    ensures ConsumedTimes(t, must, may, s, cur) == Match(nex) && nex <= |s|
    decreases Height(t), 3, |ks|
  {
    hide Fits, Consumed;
    if ks == [] {
      assert nex == cur;
    } else {
      var mid: nat :| Fits(ks[0].token, cs[0], s, cur, mid) && FitsKids(ks[1..], cs[1..], s, mid, nex);
      hide FitsKids;
      FitsConsumed(t, cs[0], s, cur, mid);
      if must > 0 {
        FitsTimes(ks[1..], t, must - 1, may, cs[1..], s, mid, nex);
      } else {
        FitsTimes(ks[1..], t, 0, may - 1, cs[1..], s, mid, nex);
      }
    }
  }

  /** What the matcher finds is a reading. */
  lemma {:induction false} ConsumedFits(g: Grammar, s: string, cur: nat) returns (c: Config)
    requires cur <= |s| && Consumed(g, s, cur).Match?
    ensures Fits(g, c, s, cur, Consumed(g, s, cur).next)
    decreases Height(g), 1
  {
    match g
    case Const(_) => c := Config(0, []);
    case CharClass(_, _) => c := Config(s[cur] as nat, []);
    case Once(_) => assert false;
    case _ =>
      var nex := Consumed(g, s, cur).next;
      hide FitsKids, Readable;
      c := ConsumedParts(g, s, cur, nex);
      KidsLower(g, c.digit);
      assert Fits(g, c, s, cur, nex);
  }

  lemma {:induction false} ConsumedParts(g: Grammar, s: string, cur: nat, nex: nat) returns (c: Config)
    requires cur <= |s| && Consumed(g, s, cur) == Match(nex) && !g.Const? && !g.CharClass?
    ensures Allowed(g, c.digit) && FitsKids(Kids(g, c.digit), c.kids, s, cur, nex) && Greedy(g, c.digit, s, cur, nex)
    decreases Height(g), 0
  {
    hide Fits, FitsKids, Readable;
    match g
    case Concat(ts) =>
      KidsLower(g, 0);
      var cs := AllFit(Kids(g, 0), ts, s, cur);
      c := Config(0, cs);
    case One(ts) =>
      var p := FirstIndex(ts, s, cur);
      HeightAt(ts, p);
      var d := ConsumedFits(ts[p], s, cur);
      forall j | 0 <= j < p ensures !Readable(ts[j], s, cur) {
        HeightAt(ts, j);
        FailsUnreadable(ts[j], s, cur);
      }
      c := Config(p, [d]);
      FitsOne(Kid(p, ts[p]), [d], s, cur, nex);
    case Optional(t) =>
      if Consumed(t, s, cur).Match? {
        var d := ConsumedFits(t, s, cur);
        c := Config(1, [d]);
        FitsOne(Kid(0, t), [d], s, cur, nex);
      } else {
        FailsUnreadable(t, s, cur);
        c := Config(0, []);
        NoneFits(s, cur);
      }
    case Repeat(t, from, to) =>
      var cs := TimesFit(t, from, if to >= from then to - from else 0, s, cur);
      c := Config(|cs| - from, cs);
      FitsSame(Copies(t, |cs|), Kids(g, |cs| - from), cs, s, cur, nex);
      if |cs| < to {
        ConsumedWithin(g, s, cur);
        FailsUnreadable(t, s, nex);
      }
    case Scope(t) =>
      var d := ConsumedFits(t, s, cur);
      c := Config(0, [d]);
      FitsOne(Kid(0, t), [d], s, cur, nex);
    case _ =>
  }

  lemma {:induction false} NoneFits(s: string, cur: nat)
    ensures FitsKids([], [], s, cur, cur)
  {
  }

  /** n children t. */
  function Copies(t: Grammar, n: nat): (ks: seq<Kid>)
    ensures |ks| == n && forall i :: 0 <= i < n ==> ks[i].token == t
  {
    seq(n, i => Kid(0, t))
  }

  lemma {:induction false} FitsFirst(ks: seq<Kid>, c: Config, cs: seq<Config>, s: string, cur: nat, mid: nat, nex: nat)
    requires ks != [] && Fits(ks[0].token, c, s, cur, mid) && FitsKids(ks[1..], cs, s, mid, nex)
    ensures FitsKids(ks, [c] + cs, s, cur, nex)
  {
    hide Fits;
    assert ([c] + cs)[1..] == cs;
  }

  lemma {:induction false} AllFit(ks: seq<Kid>, ts: seq<Grammar>, s: string, cur: nat) returns (cs: seq<Config>)
    requires |ks| == |ts| && forall i :: 0 <= i < |ks| ==> ks[i].token == ts[i]
    requires cur <= |s| && ConsumedAll(ts, s, cur).Match?
    ensures FitsKids(ks, cs, s, cur, ConsumedAll(ts, s, cur).next)
    decreases KidsHeight(ks), 3, |ks|
  {
    hide Fits, Consumed;
    if ks == [] {
      cs := [];
    } else {
      KidsRest(ks);
      var mid := Consumed(ts[0], s, cur).next;
      hide FitsKids;
      ConsumedWithin(ts[0], s, cur);
      var c := ConsumedFits(ts[0], s, cur);
      cs := AllFit(ks[1..], ts[1..], s, mid);
      FitsFirst(ks, c, cs, s, cur, mid, ConsumedAll(ts, s, cur).next);
      cs := [c] + cs;
    }
  }

  lemma {:induction false} FirstIndex(ts: seq<Grammar>, s: string, cur: nat) returns (p: nat)
    requires ConsumedFirst(ts, s, cur).Match?
    ensures p < |ts| && Consumed(ts[p], s, cur) == ConsumedFirst(ts, s, cur)
    ensures forall j :: 0 <= j < p ==> Consumed(ts[j], s, cur).NoMatch?
  {
    hide Consumed;
    if Consumed(ts[0], s, cur).Match? {
      p := 0;
    } else {
      p := FirstIndex(ts[1..], s, cur);
      p := p + 1;
    }
  }

  lemma {:induction false} TimesFit(t: Grammar, must: nat, may: nat, s: string, cur: nat) returns (cs: seq<Config>)
    requires cur <= |s| && ConsumedTimes(t, must, may, s, cur).Match?
    ensures must <= |cs| <= must + may
    ensures FitsKids(Copies(t, |cs|), cs, s, cur, ConsumedTimes(t, must, may, s, cur).next)
    ensures |cs| < must + may ==> Consumed(t, s, ConsumedTimes(t, must, may, s, cur).next).NoMatch?
    decreases Height(t), 3, must + may
  {
    hide Fits, Consumed;
    if Consumed(t, s, cur).NoMatch? || must + may == 0 {
      cs := [];
    } else {
      var nex := ConsumedTimes(t, must, may, s, cur).next;
      var mid := Consumed(t, s, cur).next;
      hide FitsKids;
      ConsumedWithin(t, s, cur);
      var c := ConsumedFits(t, s, cur);
      if must > 0 {
        cs := TimesFit(t, must - 1, may, s, mid);
      } else {
        cs := TimesFit(t, 0, may - 1, s, mid);
      }
      assert Copies(t, |cs| + 1)[1..] == Copies(t, |cs|);
      FitsFirst(Copies(t, |cs| + 1), c, cs, s, cur, mid, nex);
      cs := [c] + cs;
    }
  }

  /** The matcher finds something exactly if there is a reading, and then there is only one end. */
  lemma {:induction false} ConsumedMeans(g: Grammar, s: string, cur: nat, nex: nat)
    requires cur <= |s|
    ensures Consumed(g, s, cur) == Match(nex) <==> exists c :: Fits(g, c, s, cur, nex)
    ensures Consumed(g, s, cur).Match? <==> Readable(g, s, cur)
  {
    hide Fits, Consumed;
    if Consumed(g, s, cur).Match? { var c := ConsumedFits(g, s, cur); } else { FailsUnreadable(g, s, cur); }
    if c :| Fits(g, c, s, cur, nex) { FitsConsumed(g, c, s, cur, nex); }
  }

  // ---------- formats whose choices are decided by the next character ----------

  ghost predicate MayStart(g: Grammar, c: char) {
    exists w :: Words(g, w) && w != "" && w[0] == c
  }

  ghost predicate MayStartAll(ts: seq<Grammar>, c: char) {
    exists w :: Joined(ts, w) && w != "" && w[0] == c
  }

  ghost function Starts(g: Grammar): iset<char> {
    iset c: char | MayStart(g, c)
  }

  ghost predicate MayBeEmpty(g: Grammar) {
    Words(g, "")
  }

  /** What may come after a token that is followed by ts, and then by a character of `follow`. */
  ghost function After(ts: seq<Grammar>, follow: iset<char>): iset<char> {
    (iset c: char | MayStartAll(ts, c)) + if Joined(ts, "") then follow else iset{}
  }

  /**
   * At most one alternative can start with the next character, only the last one may be empty, and what
   * may be left out does not start with a character that may follow.
   */
  ghost predicate Decided(g: Grammar, follow: iset<char>)
    decreases g
  {
    match g
    case Const(_) => true
    case CharClass(_, _) => true
    case Concat(ts) => DecidedAll(ts, follow)
    case One(ts) =>
      && (forall t :: t in ts ==> Decided(t, follow))
      && forall i, j :: 0 <= i < j < |ts| ==>
          !MayBeEmpty(ts[i]) && Starts(ts[i]) !! Starts(ts[j]) && (MayBeEmpty(ts[j]) ==> Starts(ts[i]) !! follow)
    case Once(_) => false
    case Optional(t) => Decided(t, follow) && Starts(t) !! follow
    case Repeat(t, from, to) => Decided(t, Starts(t) + follow) && (from < to ==> Starts(t) !! follow)
    case Scope(t) => Decided(t, follow)
  }

  ghost predicate DecidedAll(ts: seq<Grammar>, follow: iset<char>)
    decreases ts
  {
    ts == [] || (Decided(ts[0], After(ts[1..], follow)) && DecidedAll(ts[1..], follow))
  }

  /** What follows in s at j. */
  ghost predicate Followed(s: string, j: nat, follow: iset<char>) {
    j <= |s| && (j < |s| ==> s[j] in follow)
  }

  // ---------- what is read is a word ----------

  lemma {:induction false} ReadIsWord(g: Grammar, s: string, cur: nat)
    requires WellFormed(g) && cur <= |s| && Consumed(g, s, cur).Match?
    ensures cur <= Consumed(g, s, cur).next <= |s| && Words(g, s[cur..Consumed(g, s, cur).next])
    decreases Height(g), 0
  {
    ConsumedWithin(g, s, cur);
    var w := s[cur..Consumed(g, s, cur).next];
    WordsMean(g, w);
    match g
    case Concat(ts) => AllIsWord(ts, s, cur);
    case One(ts) =>
      var p := FirstIndex(ts, s, cur);
      HeightAt(ts, p);
      ReadIsWord(ts[p], s, cur);
      assert ts[p] in ts;
    case Optional(t) => if Consumed(t, s, cur).Match? { ReadIsWord(t, s, cur); }
    case Repeat(t, from, to) => var n := TimesIsWord(t, from, to - from, s, cur);
    case Scope(t) => ReadIsWord(t, s, cur);
    case _ =>
  }

  lemma {:induction false} JoinedCons(ts: seq<Grammar>, u: string, w: string)
    requires ts != [] && Words(ts[0], u) && Joined(ts[1..], w)
    ensures Joined(ts, u + w)
  {
    hide Words;
    assert (u + w)[..|u|] == u && (u + w)[|u|..] == w;
  }

  lemma {:induction false} AllIsWord(ts: seq<Grammar>, s: string, cur: nat)
    requires (forall t :: t in ts ==> WellFormed(t)) && cur <= |s| && ConsumedAll(ts, s, cur).Match?
    ensures cur <= ConsumedAll(ts, s, cur).next <= |s| && Joined(ts, s[cur..ConsumedAll(ts, s, cur).next])
    decreases HeightAll(ts), 1, |ts|
  {
    hide Words, Consumed;
    ConsumedAllWithin(ts, s, cur);
    if ts != [] {
      assert ts[0] in ts && forall t :: t in ts[1..] ==> t in ts;
      var mid, nex := Consumed(ts[0], s, cur).next, ConsumedAll(ts, s, cur).next;
      hide Joined, WellFormed;
      ReadIsWord(ts[0], s, cur);
      AllIsWord(ts[1..], s, mid);
      JoinedCons(ts, s[cur..mid], s[mid..nex]);
      assert s[cur..mid] + s[mid..nex] == s[cur..nex];
    }
  }

  lemma {:induction false} TimesIsWord(t: Grammar, must: nat, may: nat, s: string, cur: nat) returns (n: nat)
    requires WellFormed(t) && cur <= |s| && ConsumedTimes(t, must, may, s, cur).Match?
    ensures must <= n <= must + may
    ensures var nex := ConsumedTimes(t, must, may, s, cur).next; cur <= nex <= |s| && Joined(Times(t, n), s[cur..nex])
    decreases Height(t), 1, must + may
  {
    hide Words, Consumed;
    ConsumedTimesWithin(t, must, may, s, cur);
    if Consumed(t, s, cur).NoMatch? || must + may == 0 {
      n := 0;
    } else {
      var mid, nex := Consumed(t, s, cur).next, ConsumedTimes(t, must, may, s, cur).next;
      hide Joined, WellFormed;
      ReadIsWord(t, s, cur);
      if must > 0 {
        n := TimesIsWord(t, must - 1, may, s, mid);
      } else {
        n := TimesIsWord(t, 0, may - 1, s, mid);
      }
      assert Times(t, n + 1)[1..] == Times(t, n);
      JoinedCons(Times(t, n + 1), s[cur..mid], s[mid..nex]);
      assert s[cur..mid] + s[mid..nex] == s[cur..nex];
      n := n + 1;
    }
  }

  /** Where the next character is not one of its first ones, a token that is not empty cannot be read. */
  lemma {:induction false} NotRead(g: Grammar, s: string, cur: nat)
    requires WellFormed(g) && cur <= |s| && (cur < |s| ==> s[cur] !in Starts(g))
    ensures Consumed(g, s, cur).NoMatch? || (Consumed(g, s, cur) == Match(cur) && MayBeEmpty(g))
  {
    hide Consumed, Words, WellFormed;
    if Consumed(g, s, cur).Match? {
      ReadIsWord(g, s, cur);
      var nex := Consumed(g, s, cur).next;
      var w := s[cur..nex];
      assert nex == cur ==> w == "";
      if nex > cur { WordStarts(g, w); }
    }
  }

  lemma {:induction false} WordStarts(g: Grammar, w: string)
    requires Words(g, w) && w != ""
    ensures w[0] in Starts(g)
  {
    hide Words;
    assert MayStart(g, w[0]);
  }

  // ---------- a word is read ----------

  lemma {:induction false} WordIsRead(g: Grammar, follow: iset<char>, s: string, cur: nat, nex: nat)
    requires WellFormed(g) && Decided(g, follow) && cur <= nex <= |s| && Words(g, s[cur..nex])
    requires Followed(s, nex, follow)
    ensures Consumed(g, s, cur) == Match(nex)
    decreases Height(g), 0
  {
    var w := s[cur..nex];
    WordsMean(g, w);
    match g
    case Const(t) =>
    case CharClass(_, _) =>
    case Concat(ts) => WordsAreRead(ts, follow, s, cur, nex);
    case One(ts) =>
      var p := AlternativeOf(ts, w);
      HeightAt(ts, p);
      WordIsRead(ts[p], follow, s, cur, nex);
      EarlierFail(ts, follow, p, s, cur, nex);
      FirstMatch(ts, p, s, cur);
    case Optional(t) =>
      if w == "" {
        NotRead(t, s, cur);
      } else {
        WordIsRead(t, follow, s, cur, nex);
      }
    case Repeat(t, from, to) =>
      var n: nat :| from <= n <= to && Joined(Times(t, n), w);
      ItemsAreRead(t, n, from, to - from, follow, s, cur, nex);
    case Scope(t) => WordIsRead(t, follow, s, cur, nex);
    case Once(_) =>
  }

  lemma {:induction false} AlternativeOf(ts: seq<Grammar>, w: string) returns (p: nat)
    requires exists t :: t in ts && Words(t, w)
    ensures p < |ts| && Words(ts[p], w)
  {
    hide Words;
    var t :| t in ts && Words(t, w);
    p :| 0 <= p < |ts| && ts[p] == t;
  }

  /** The alternatives before the one of the word cannot be read. */
  lemma {:induction false} EarlierFail(ts: seq<Grammar>, follow: iset<char>, p: nat, s: string, cur: nat, nex: nat)
    requires WellFormed(One(ts)) && Decided(One(ts), follow) && p < |ts| && cur <= nex <= |s|
    requires Words(ts[p], s[cur..nex]) && Followed(s, nex, follow)
    ensures forall j :: 0 <= j < p ==> Consumed(ts[j], s, cur).NoMatch?
  {
    var w := s[cur..nex];
    hide Words, Consumed;
    forall j | 0 <= j < p ensures Consumed(ts[j], s, cur).NoMatch? {
      assert ts[j] in ts;
      if w == "" {
        assert MayBeEmpty(ts[p]) && Starts(ts[j]) !! follow;
      } else {
        assert w[0] == s[cur];
        WordStarts(ts[p], w);
      }
      NotRead(ts[j], s, cur);
    }
  }

  /** A word that is made of words starts like the first one of them that is not empty. */
  lemma {:induction false} JoinedStarts(t: Grammar, n: nat, w: string)
    requires Joined(Times(t, n), w) && w != ""
    ensures w[0] in Starts(t)
  {
    hide Words;
    var ts := Times(t, n);
    var i :| 0 <= i <= |w| && Words(ts[0], w[..i]) && Joined(ts[1..], w[i..]);
    if i == 0 {
      assert ts[1..] == Times(t, n - 1) && w[0..] == w;
      JoinedStarts(t, n - 1, w);
    } else {
      assert w[..i][0] == w[0];
      WordStarts(t, w[..i]);
    }
  }

  lemma {:induction false} WordsAreRead(ts: seq<Grammar>, follow: iset<char>, s: string, cur: nat, nex: nat)
    requires (forall t :: t in ts ==> WellFormed(t)) && DecidedAll(ts, follow) && cur <= nex <= |s|
    requires Joined(ts, s[cur..nex]) && Followed(s, nex, follow)
    ensures ConsumedAll(ts, s, cur) == Match(nex)
    decreases HeightAll(ts), 1, |ts|
  {
    hide Words, Consumed, Decided;
    var w := s[cur..nex];
    if ts == [] {
      assert w == "";
    } else {
      assert ts[0] in ts && forall t :: t in ts[1..] ==> t in ts;
      var i :| 0 <= i <= |w| && Words(ts[0], w[..i]) && Joined(ts[1..], w[i..]);
      var mid := cur + i;
      assert w[..i] == s[cur..mid] && w[i..] == s[mid..nex];
      RestFollows(ts[1..], follow, s, mid, nex);
      hide WellFormed, After, Followed, Joined;
      WordIsRead(ts[0], After(ts[1..], follow), s, cur, mid);
      WordsAreRead(ts[1..], follow, s, mid, nex);
    }
  }

  lemma {:induction false} RestFollows(ts: seq<Grammar>, follow: iset<char>, s: string, mid: nat, nex: nat)
    requires mid <= nex <= |s| && Joined(ts, s[mid..nex]) && Followed(s, nex, follow)
    ensures Followed(s, mid, After(ts, follow))
  {
    hide Joined;
    var w := s[mid..nex];
    if mid == nex {
      assert w == "";
    } else {
      assert w != "" && w[0] == s[mid];
      assert MayStartAll(ts, w[0]);
    }
  }

  lemma {:induction false} ItemsAreRead(t: Grammar, n: nat, must: nat, may: nat, follow: iset<char>, s: string,
          cur: nat, nex: nat)
    requires WellFormed(t) && Decided(t, Starts(t) + follow) && (may > 0 ==> Starts(t) !! follow)
    requires must <= n <= must + may && cur <= nex <= |s| && Joined(Times(t, n), s[cur..nex])
    requires Followed(s, nex, follow)
    ensures ConsumedTimes(t, must, may, s, cur) == Match(nex)
    decreases Height(t), 1, must + may
  {
    hide Words, Consumed, Decided, WellFormed, Starts;
    var w := s[cur..nex];
    if n == 0 {
      assert w == "";
      if may > 0 {
        hide Joined;
        NotRead(t, s, cur);
        if Consumed(t, s, cur).Match? {
          NoItems(t);
          ItemsAreRead(t, 0, 0, may - 1, follow, s, cur, nex);
        }
      }
    } else {
      var ts := Times(t, n);
      var i :| 0 <= i <= |w| && Words(ts[0], w[..i]) && Joined(ts[1..], w[i..]);
      var mid := cur + i;
      assert w[..i] == s[cur..mid] && w[i..] == s[mid..nex] && ts[1..] == Times(t, n - 1);
      hide Joined;
      ItemFollows(t, n - 1, follow, s, mid, nex);
      WordIsRead(t, Starts(t) + follow, s, cur, mid);
      if must > 0 {
        ItemsAreRead(t, n - 1, must - 1, may, follow, s, mid, nex);
      } else {
        ItemsAreRead(t, n - 1, 0, may - 1, follow, s, mid, nex);
      }
    }
  }

  lemma {:induction false} NoItems(t: Grammar)
    ensures Joined(Times(t, 0), "")
  {
  }

  lemma {:induction false} ItemFollows(t: Grammar, n: nat, follow: iset<char>, s: string, mid: nat, nex: nat)
    requires mid <= nex <= |s| && Joined(Times(t, n), s[mid..nex]) && Followed(s, nex, follow)
    ensures Followed(s, mid, Starts(t) + follow)
  {
    hide Joined, Starts;
    if mid < nex {
      assert s[mid..nex][0] == s[mid];
      JoinedStarts(t, n, s[mid..nex]);
    }
  }

  /** A format like this is accepted exactly on its words. */
  lemma {:induction false} DecidedIsExact(g: Grammar, s: string)
    requires WellFormed(g) && Decided(g, iset{})
    ensures Consumed(g, s, 0) == Match(|s|) <==> Words(g, s)
  {
    hide Consumed, Words, WellFormed, Decided;
    assert s[0..|s|] == s;
    if Consumed(g, s, 0) == Match(|s|) { ReadIsWord(g, s, 0); }
    if Words(g, s) { WordIsRead(g, iset{}, s, 0, |s|); }
  }
}
