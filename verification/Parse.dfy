/**
 * Parsing an input with a token tree (parser/internal.go and the Parse methods of the tokens): a
 * successful parse sets the tree so that it prints what was consumed.
 */
module Parsing {
  import opened Grammars
  import opened Configurations
  import opened Languages
  import opened Matching
  import opened TokenStores

  // ---------- what the tree prints ----------

  /** The bytes of a character, UTF-8 encoded; a parsed character is a byte. */
  function Rune(n: nat): string {
    if n < 0x80 then [n as char]
    else if n < 0x800 then [(0xC0 + n / 64) as char, (0x80 + n % 64) as char]
    else if n < 0x10000 then [(0xE0 + n / 4096) as char, (0x80 + n / 64 % 64) as char, (0x80 + n % 64) as char]
    else if n < 0x110000 then
      [(0xF0 + n / 262144) as char, (0x80 + n / 4096 % 64) as char, (0x80 + n / 64 % 64) as char,
          (0x80 + n % 64) as char]
    else [0xEF as char, 0xBF as char, 0xBD as char]
  }

  lemma {:induction false} AsciiRune(n: nat)
    requires AsciiText(Rune(n))
    ensures n < 128
  {
    assert Rune(n)[0] < 128 as char;
  }

  /** String. A character class keeps its character, every other token its permutation. */
  function Print(g: Grammar, a: Path, d: Store): string
    decreases Height(g), 0
  {
    match g
    case Const(t) => t
    case CharClass(_, _) => Rune(Digit(d, a))
    case _ =>
      KidsLower(g, Digit(d, a));
      PrintKids(Kids(g, Digit(d, a)), a, d)
  }

  function PrintKids(ks: seq<Kid>, q: Path, d: Store): string
    decreases KidsHeight(ks), 1, |ks|
  {
    if ks == [] then ""
    else
      KidsRest(ks);
      Print(ks[0].token, q + [ks[0].slot], d) + PrintKids(ks[1..], q, d)
  }

  predicate HasCode(c: char, n: nat) {
    c as nat == n
  }

  /** A state that parsing leaves: a member of each class, and a Repeat holds from `from` to max(from, to) items. */
  ghost predicate Parsed(g: Grammar, a: Path, d: Store)
    decreases Height(g), 0
  {
    match g
    case Const(_) => true
    case CharClass(chars, ranges) => exists c: char :: InClass(chars, ranges, c) && HasCode(c, Digit(d, a))
    case _ =>
      KidsLower(g, Digit(d, a));
      Allowed(g, Digit(d, a)) && ParsedKids(Kids(g, Digit(d, a)), a, d)
  }

  ghost predicate ParsedKids(ks: seq<Kid>, q: Path, d: Store)
    decreases KidsHeight(ks), 1, |ks|
  {
    if ks == [] then true
    else
      KidsRest(ks);
      Parsed(ks[0].token, q + [ks[0].slot], d) && ParsedKids(ks[1..], q, d)
  }

  /** Every class has ASCII characters only. */
  predicate Ascii(g: Grammar) {
    match g
    case CharClass(chars, ranges) =>
      (forall c :: c in chars ==> c < 128 as char) && forall i :: 0 <= i < |ranges| ==> ranges[i].to < 128 as char
    case Concat(ts) => forall t :: t in ts ==> Ascii(t)
    case One(ts) => forall t :: t in ts ==> Ascii(t)
    case Once(ts) => forall t :: t in ts ==> Ascii(t)
    case Optional(t) => Ascii(t)
    case Repeat(t, _, _) => Ascii(t)
    case Scope(t) => Ascii(t)
    case _ => true
  }

  predicate AsciiText(s: string) {
    forall i :: 0 <= i < |s| ==> s[i] < 128 as char
  }

  ghost predicate AsciiKids(ks: seq<Kid>) {
    forall i :: 0 <= i < |ks| ==> Ascii(ks[i].token)
  }

  // ---------- frames ----------

  lemma {:induction false} PrintSame(g: Grammar, a: Path, d: Store, e: Store)
    requires SameFrom(a, d, e)
    ensures Print(g, a, d) == Print(g, a, e) && Parsed(g, a, d) == Parsed(g, a, e)
    decreases Height(g), 0
  {
    assert Digit(d, a) == Digit(e, a);
    if !g.Const? && !g.CharClass? {
      KidsLower(g, Digit(d, a));
      var ks := Kids(g, Digit(d, a));
      forall i | 0 <= i < |ks| ensures SameFrom(a + [ks[i].slot], d, e) {
        ChildFrames(a, ks[i].slot, d, e);
      }
      PrintKidsSame(ks, a, d, e);
    }
  }

  lemma {:induction false} PrintKidsSame(ks: seq<Kid>, q: Path, d: Store, e: Store)
    requires SameBelow(ks, q, d, e)
    ensures PrintKids(ks, q, d) == PrintKids(ks, q, e) && ParsedKids(ks, q, d) == ParsedKids(ks, q, e)
    decreases KidsHeight(ks), 1, |ks|
  {
    if ks != [] {
      KidsRest(ks);
      PrintSame(ks[0].token, q + [ks[0].slot], d, e);
      forall i | 0 <= i < |ks[1..]| ensures SameFrom(q + [ks[1..][i].slot], d, e) {
        assert ks[1..][i] == ks[i + 1];
      }
      PrintKidsSame(ks[1..], q, d, e);
    }
  }

  /** Parsing the child in slot s leaves the other children alone. */
  lemma {:induction false} OthersSame(ks: seq<Kid>, q: Path, s: nat, d: Store, e: Store)
    requires OnlyFrom(q + [s], d, e) && forall i :: 0 <= i < |ks| ==> ks[i].slot != s
    ensures PrintKids(ks, q, d) == PrintKids(ks, q, e) && ParsedKids(ks, q, d) == ParsedKids(ks, q, e)
  {
    forall i | 0 <= i < |ks| ensures SameFrom(q + [ks[i].slot], d, e) {
      SiblingFrames(q, s, ks[i].slot, d, e);
    }
    PrintKidsSame(ks, q, d, e);
  }

  lemma {:induction false} BelowDigit(a: Path, s: nat, d: Store, v: nat)
    ensures SameFrom(a + [s], d, d[a := v])
  {
    forall x: Path | a + [s] <= x ensures Digit(d, x) == Digit(d[a := v], x) {
      BelowChild(a, s, x);
    }
  }

  /** The children do not change when the token's own permutation is set. */
  lemma {:induction false} OwnDigit(ks: seq<Kid>, a: Path, d: Store, v: nat)
    ensures PrintKids(ks, a, d) == PrintKids(ks, a, d[a := v]) && ParsedKids(ks, a, d) == ParsedKids(ks, a, d[a := v])
    ensures OnlyFrom(a, d, d[a := v])
  {
    forall i | 0 <= i < |ks| ensures SameFrom(a + [ks[i].slot], d, d[a := v]) {
      BelowDigit(a, ks[i].slot, d, v);
    }
    PrintKidsSame(ks, a, d, d[a := v]);
  }

  lemma {:induction false} OnlyFromTrans(a: Path, d: Store, e: Store, f: Store)
    requires OnlyFrom(a, d, e) && OnlyFrom(a, e, f)
    ensures OnlyFrom(a, d, f)
  {
  }

  lemma {:induction false} NothingChanged(a: Path, d: Store)
    ensures OnlyFrom(a, d, d)
  {
  }

  lemma {:induction false} ChildOnly(a: Path, s: nat, d: Store, e: Store)
    requires OnlyFrom(a + [s], d, e)
    ensures OnlyFrom(a, d, e)
  {
    forall x: Path | !(a <= x) ensures Digit(d, x) == Digit(e, x) {
      if a + [s] <= x { BelowChild(a, s, x); }
    }
  }

  /** One more child at the end. */
  lemma {:induction false} PrintMore(ks: seq<Kid>, k: Kid, q: Path, d: Store)
    ensures PrintKids(ks + [k], q, d) == PrintKids(ks, q, d) + Print(k.token, q + [k.slot], d)
    ensures ParsedKids(ks + [k], q, d) == (ParsedKids(ks, q, d) && Parsed(k.token, q + [k.slot], d))
  {
    if ks == [] {
      assert ks + [k] == [k] && [k][1..] == [];
    } else {
      assert (ks + [k])[1..] == ks[1..] + [k];
      PrintMore(ks[1..], k, q, d);
    }
  }

  /** A further child was parsed: the children so far still print what they printed. */
  lemma {:induction false} KidMore(ks: seq<Kid>, k: Kid, q: Path, d: Store, e: Store)
    requires OnlyFrom(q + [k.slot], d, e) && forall i :: 0 <= i < |ks| ==> ks[i].slot != k.slot
    ensures PrintKids(ks + [k], q, e) == PrintKids(ks, q, d) + Print(k.token, q + [k.slot], e)
    ensures ParsedKids(ks + [k], q, e) == (ParsedKids(ks, q, d) && Parsed(k.token, q + [k.slot], e))
  {
    OthersSame(ks, q, k.slot, d, e);
    PrintMore(ks, k, q, e);
  }

  /** The children of a Repeat with n items. */
  function Items(t: Grammar, n: nat): (ks: seq<Kid>)
    ensures |ks| == n && forall i :: 0 <= i < n ==> ks[i] == Kid(i, t)
  {
    seq(n, i requires 0 <= i => Kid(i, t))
  }

  lemma {:induction false} ItemsMore(t: Grammar, n: nat)
    ensures Items(t, n + 1) == Items(t, n) + [Kid(n, t)]
  {
  }

  predicate NoOnce(g: Grammar) {
    match g
    case Concat(ts) => forall t :: t in ts ==> NoOnce(t)
    case One(ts) => forall t :: t in ts ==> NoOnce(t)
    case Once(_) => false
    case Optional(t) => NoOnce(t)
    case Repeat(t, _, _) => NoOnce(t)
    case Scope(t) => NoOnce(t)
    case _ => true
  }

  /** What a successful parse of g at a, from cur to nex, leaves: a reading that passed nothing by. */
  ghost predicate Reads(g: Grammar, a: Path, d: Store, data: string, cur: nat, nex: nat) {
    && cur <= nex <= |data| && Parsed(g, a, d) && Fits(g, ReadToken(g, a, d), data, cur, nex)
    && (Ascii(g) || AsciiText(data[cur..nex]) ==> Print(g, a, d) == data[cur..nex])
  }

  ghost predicate ReadsKids(ks: seq<Kid>, q: Path, d: Store, data: string, cur: nat, nex: nat) {
    && cur <= nex <= |data| && ParsedKids(ks, q, d) && FitsKids(ks, ReadKids(ks, q, d), data, cur, nex)
    && (AsciiKids(ks) || AsciiText(data[cur..nex]) ==> PrintKids(ks, q, d) == data[cur..nex])
  }

  lemma {:induction false} ReadsEnds(g: Grammar, a: Path, d: Store, data: string, cur: nat, nex: nat)
    requires Reads(g, a, d, data, cur, nex)
    ensures cur <= nex <= |data|
  {
  }

  lemma {:induction false} ReadsNone(q: Path, d: Store, data: string, cur: nat)
    requires cur <= |data|
    ensures ReadsKids([], q, d, data, cur, cur)
  {
  }

  lemma {:induction false} AsciiParts(data: string, cur: nat, mid: nat, nex: nat)
    requires cur <= mid <= nex <= |data|
    ensures AsciiText(data[cur..nex]) ==> AsciiText(data[cur..mid]) && AsciiText(data[mid..nex])
  {
    assert data[cur..nex] == data[cur..mid] + data[mid..nex];
    forall i | 0 <= i < nex - mid ensures data[mid..nex][i] == data[cur..nex][mid - cur + i] {}
    forall i | 0 <= i < mid - cur ensures data[cur..mid][i] == data[cur..nex][i] {}
  }

  /** u and v are what was read, if that or what reads it is ASCII; so is their sum. */
  lemma {:induction false} BackMore(ks: seq<Kid>, k: Kid, u: string, v: string, data: string, cur: nat, mid: nat,
          nex: nat)
    requires cur <= mid <= nex <= |data|
    requires AsciiKids(ks) || AsciiText(data[cur..mid]) ==> u == data[cur..mid]
    requires Ascii(k.token) || AsciiText(data[mid..nex]) ==> v == data[mid..nex]
    ensures AsciiKids(ks + [k]) || AsciiText(data[cur..nex]) ==> u + v == data[cur..nex]
  {
    AsciiParts(data, cur, mid, nex);
    assert data[cur..mid] + data[mid..nex] == data[cur..nex];
    hide AsciiText, Ascii;
    var more := ks + [k];
    if AsciiKids(more) {
      forall i | 0 <= i < |ks| ensures Ascii(ks[i].token) { assert more[i] == ks[i]; }
      assert more[|ks|] == k;
    }
  }

  lemma {:induction false} ReadsMore(ks: seq<Kid>, k: Kid, q: Path, d: Store, e: Store, data: string, cur: nat,
          mid: nat, nex: nat)
    requires ReadsKids(ks, q, d, data, cur, mid) && Reads(k.token, q + [k.slot], e, data, mid, nex)
    requires OnlyFrom(q + [k.slot], d, e) && forall i :: 0 <= i < |ks| ==> ks[i].slot != k.slot
    ensures ReadsKids(ks + [k], q, e, data, cur, nex)
  {
    hide Fits, FitsKids, Ascii, AsciiKids, AsciiText, Print, PrintKids, Parsed, ParsedKids, ReadToken, ReadKids,
        OnlyFrom;
    KidMore(ks, k, q, d, e);
    ReadingMore(ks, k, q, d, e, data, cur, mid, nex);
    BackMore(ks, k, PrintKids(ks, q, d), Print(k.token, q + [k.slot], e), data, cur, mid, nex);
  }

  lemma {:induction false} FitsMore(ks: seq<Kid>, cs: seq<Config>, k: Kid, c: Config, data: string, cur: nat,
          mid: nat, nex: nat)
    requires FitsKids(ks, cs, data, cur, mid) && Fits(k.token, c, data, mid, nex)
    ensures FitsKids(ks + [k], cs + [c], data, cur, nex)
    decreases |ks|
  {
    hide Fits;
    if ks == [] {
      assert [] + [k] == [k] && [] + [c] == [c];
      FitsOne(k, [c], data, cur, nex);
    } else {
      var m: nat :| Fits(ks[0].token, cs[0], data, cur, m) && FitsKids(ks[1..], cs[1..], data, m, mid);
      FitsMore(ks[1..], cs[1..], k, c, data, m, mid, nex);
      assert (ks + [k])[1..] == ks[1..] + [k] && cs + [c] == [cs[0]] + (cs[1..] + [c]);
      FitsFirst(ks + [k], cs[0], cs[1..] + [c], data, cur, m, nex);
    }
  }

  lemma {:induction false} ReadingMore(ks: seq<Kid>, k: Kid, q: Path, d: Store, e: Store, data: string, cur: nat,
          mid: nat, nex: nat)
    requires FitsKids(ks, ReadKids(ks, q, d), data, cur, mid)
    requires Fits(k.token, ReadToken(k.token, q + [k.slot], e), data, mid, nex)
    requires OnlyFrom(q + [k.slot], d, e) && forall i :: 0 <= i < |ks| ==> ks[i].slot != k.slot
    ensures FitsKids(ks + [k], ReadKids(ks + [k], q, e), data, cur, nex)
  {
    hide Fits, FitsKids, ReadToken;
    ReadOthers(ks, q, k.slot, d, e);
    FitsMore(ks, ReadKids(ks, q, d), k, ReadToken(k.token, q + [k.slot], e), data, cur, mid, nex);
    assert ReadKids(ks + [k], q, e) == ReadKids(ks, q, e) + [ReadToken(k.token, q + [k.slot], e)];
  }

  lemma {:induction false} ReadOthers(ks: seq<Kid>, q: Path, s: nat, d: Store, e: Store)
    requires OnlyFrom(q + [s], d, e) && forall i :: 0 <= i < |ks| ==> ks[i].slot != s
    ensures ReadKids(ks, q, d) == ReadKids(ks, q, e)
  {
    forall i | 0 <= i < |ks| ensures SameFrom(q + [ks[i].slot], d, e) {
      SiblingFrames(q, s, ks[i].slot, d, e);
    }
    ReadKidsSame(ks, q, d, e);
  }

  /** What was read so far stays when something is left in another slot. */
  lemma {:induction false} ReadsOthers(ks: seq<Kid>, q: Path, s: nat, d: Store, e: Store, data: string, cur: nat,
          nex: nat)
    requires ReadsKids(ks, q, d, data, cur, nex)
    requires OnlyFrom(q + [s], d, e) && forall i :: 0 <= i < |ks| ==> ks[i].slot != s
    ensures ReadsKids(ks, q, e, data, cur, nex)
  {
    hide FitsKids;
    OthersSame(ks, q, s, d, e);
    ReadOthers(ks, q, s, d, e);
  }

  lemma {:induction false} ReadOwnDigit(g: Grammar, a: Path, d: Store, v: nat)
    ensures ReadToken(g, a, d[a := v]) == Config(v, ReadKids(Kids(g, v), a, d))
  {
    forall i | 0 <= i < |Kids(g, v)| ensures SameFrom(a + [Kids(g, v)[i].slot], d, d[a := v]) {
      BelowDigit(a, Kids(g, v)[i].slot, d, v);
    }
    ReadKidsSame(Kids(g, v), a, d, d[a := v]);
  }

  lemma {:induction false} FitsByKids(g: Grammar, c: Config, data: string, cur: nat, nex: nat)
    requires !g.Const? && !g.CharClass? && Allowed(g, c.digit) && Greedy(g, c.digit, data, cur, nex)
    requires FitsKids(Kids(g, c.digit), c.kids, data, cur, nex)
    ensures Fits(g, c, data, cur, nex)
  {
    hide FitsKids, Greedy;
  }

  /** With its children read, and its own permutation set, the token is read. */
  lemma {:induction false} ReadsToken(g: Grammar, v: nat, a: Path, d: Store, data: string, cur: nat, nex: nat)
    requires !g.Const? && !g.CharClass? && Allowed(g, v) && ReadsKids(Kids(g, v), a, d, data, cur, nex)
    requires Greedy(g, v, data, cur, nex)
    ensures Reads(g, a, d[a := v], data, cur, nex) && OnlyFrom(a, d, d[a := v])
  {
    OwnDigit(Kids(g, v), a, d, v);
    var ks := Kids(g, v);
    ReadOwnDigit(g, a, d, v);
    FitsByKids(g, Config(v, ReadKids(ks, a, d)), data, cur, nex);
    hide Fits, FitsKids, Greedy;
    if Ascii(g) {
      forall i | 0 <= i < |ks| ensures Ascii(ks[i].token) {
        KidAscii(g, v, i);
      }
    }
  }

  lemma {:induction false} KidAscii(g: Grammar, v: nat, i: nat)
    requires Ascii(g) && i < |Kids(g, v)|
    ensures Ascii(Kids(g, v)[i].token)
  {
  }

  /** A token whose children do not depend on its permutation. */
  lemma {:induction false} ReadsAnyway(g: Grammar, a: Path, d: Store, data: string, cur: nat, nex: nat)
    requires (g.Concat? || g.Scope?) && ReadsKids(Kids(g, 0), a, d, data, cur, nex)
    ensures Reads(g, a, d, data, cur, nex)
  {
    var ks := Kids(g, 0);
    assert Kids(g, Digit(d, a)) == ks;
    FitsByKids(g, Config(Digit(d, a), ReadKids(ks, a, d)), data, cur, nex);
    hide Fits, FitsKids, Greedy;
    if Ascii(g) {
      forall i | 0 <= i < |ks| ensures Ascii(ks[i].token) {
        KidAscii(g, 0, i);
      }
    }
  }

  lemma {:induction false} ClassReads(chars: seq<char>, ranges: seq<Range>, a: Path, d: Store, data: string, cur: nat)
    requires cur < |data| && InClass(chars, ranges, data[cur]) && Digit(d, a) == data[cur] as nat
    ensures Reads(CharClass(chars, ranges), a, d, data, cur, cur + 1)
  {
    var c := data[cur];
    assert data[cur..cur + 1] == [c] && HasCode(c, Digit(d, a));
    if Ascii(CharClass(chars, ranges)) || AsciiText(data[cur..cur + 1]) {
      assert data[cur..cur + 1][0] == c && c < 128 as char;
    }
  }

  class Parser {
    const data: string
    /** The state of the tokens, by their place in the tree. */
    var d: Store

    constructor (data: string, d: Store)
      ensures this.data == data && this.d == d
    {
      this.data, this.d := data, d;
    }

    method Parse(g: Grammar, a: Path, cur: nat) returns (nex: nat, ok: bool)
      requires cur <= |data| && NoOnce(g)
      modifies this`d
      ensures OnlyFrom(a, old(d), d)
      ensures ok == Consumed(g, data, cur).Match?
      ensures ok ==> nex == Consumed(g, data, cur).next && Reads(g, a, d, data, cur, nex)
      ensures ok <==> Readable(g, data, cur)
      decreases Height(g), 1
    {
      ConsumedMeans(g, data, cur, cur);
      hide Readable, Fits;
      match g
      case Const(t) => nex, ok := ParseConst(t, a, cur);
      case CharClass(chars, ranges) => nex, ok := ParseClass(chars, ranges, a, cur);
      case Concat(ts) => nex, ok := ParseConcat(ts, a, cur);
      case One(ts) => nex, ok := ParseOne(ts, a, cur);
      case Optional(t) => nex, ok := ParseOptional(t, a, cur);
      case Repeat(t, from, to) => nex, ok := ParseRepeat(t, from, to, a, cur);
      case Scope(t) =>
        nex, ok := Parse(t, a + [0], cur);
        ChildOnly(a, 0, old(d), d);
        if ok {
          ReadsNone(a, old(d), data, cur);
          ReadsMore([], Kid(0, t), a, old(d), d, data, cur, cur, nex);
          assert [] + [Kid(0, t)] == Kids(g, 0);
          ReadsAnyway(g, a, d, data, cur, nex);
        }
    }

    method ParseConst(t: string, a: Path, cur: nat) returns (nex: nat, ok: bool)
      requires cur <= |data|
      ensures ok == Consumed(Const(t), data, cur).Match?
      ensures ok ==> nex == Consumed(Const(t), data, cur).next && Reads(Const(t), a, d, data, cur, nex)
    {
      var nextIndex := |t| + cur;
      if nextIndex > |data| { return cur, false; }
      if t != data[cur..nextIndex] { return cur, false; }
      return nextIndex, true;
    }

    method ParseClass(chars: seq<char>, ranges: seq<Range>, a: Path, cur: nat) returns (nex: nat, ok: bool)
      requires cur <= |data|
      modifies this`d
      ensures OnlyFrom(a, old(d), d)
      ensures ok == Consumed(CharClass(chars, ranges), data, cur).Match?
      ensures ok ==> nex == Consumed(CharClass(chars, ranges), data, cur).next
      ensures ok ==> Reads(CharClass(chars, ranges), a, d, data, cur, nex)
    {
      if cur + 1 > |data| { return cur, false; }
      var v := data[cur];
      if v !in chars {
        var found, i := false, 0;
        while i < |ranges| && !found
          invariant 0 <= i <= |ranges|
          invariant !found ==> forall j :: 0 <= j < i ==> !(ranges[j].from <= v <= ranges[j].to)
          invariant found ==> InRanges(ranges, v)
          decreases |ranges| - i, !found
        {
          found := ranges[i].from <= v <= ranges[i].to;
          i := i + 1;
        }
        if !found { return cur, false; }
      }
      OwnDigit([], a, d, v as nat);
      d := d[a := v as nat];
      ClassReads(chars, ranges, a, d, data, cur);
      return cur + 1, true;
    }

    method ParseConcat(ts: seq<Grammar>, a: Path, cur: nat) returns (nex: nat, ok: bool)
      requires cur <= |data| && NoOnce(Concat(ts))
      modifies this`d
      ensures OnlyFrom(a, old(d), d)
      ensures ok == Consumed(Concat(ts), data, cur).Match?
      ensures ok ==> nex == Consumed(Concat(ts), data, cur).next && Reads(Concat(ts), a, d, data, cur, nex)
      decreases Height(Concat(ts)), 0
    {
      hide Reads, ReadsKids, OnlyFrom;
      ghost var ks := Kids(Concat(ts), 0);
      nex, ok := cur, true;
      ReadsNone(a, d, data, cur);
      NothingChanged(a, d);
      assert ks[..0] == [] && ts[0..] == ts;
      var i := 0;
      while i < |ts|
        invariant 0 <= i <= |ts| && OnlyFrom(a, old(d), d) && ReadsKids(ks[..i], a, d, data, cur, nex)
        invariant nex <= |data|
        invariant ConsumedAll(ts[i..], data, nex) == ConsumedAll(ts, data, cur)
      {
        HeightAt(ts, i);
        ghost var e, mid := d, nex;
        assert ts[i..][0] == ts[i] && ts[i..][1..] == ts[i + 1..];
        nex, ok := Parse(ts[i], a + [i], nex);
        ChildOnly(a, i, e, d);
        OnlyFromTrans(a, old(d), e, d);
        if !ok { return; }
        ReadsMore(ks[..i], ks[i], a, e, d, data, cur, mid, nex);
        ReadsEnds(ts[i], a + [i], d, data, mid, nex);
        assert ks[..i] + [ks[i]] == ks[..i + 1];
        i := i + 1;
      }
      assert ks[..i] == ks && ts[i..] == [];
      ReadsAnyway(Concat(ts), a, d, data, cur, nex);
    }

    method ParseOne(ts: seq<Grammar>, a: Path, cur: nat) returns (nex: nat, ok: bool)
      requires cur <= |data| && NoOnce(One(ts))
      modifies this`d
      ensures OnlyFrom(a, old(d), d)
      ensures ok == Consumed(One(ts), data, cur).Match?
      ensures ok ==> nex == Consumed(One(ts), data, cur).next && Reads(One(ts), a, d, data, cur, nex)
      decreases Height(One(ts)), 0
    {
      hide Reads, ReadsKids, Fits, FitsKids, Readable;
      var i := 0;
      assert ts[0..] == ts;
      while i < |ts|
        invariant 0 <= i <= |ts| && OnlyFrom(a, old(d), d)
        invariant ConsumedFirst(ts[i..], data, cur) == ConsumedFirst(ts, data, cur)
        invariant forall j :: 0 <= j < i ==> !Readable(ts[j], data, cur)
      {
        HeightAt(ts, i);
        ghost var e := d;
        assert ts[i..][0] == ts[i] && ts[i..][1..] == ts[i + 1..];
        nex, ok := Parse(ts[i], a + [i], cur);
        ChildOnly(a, i, e, d);
        OnlyFromTrans(a, old(d), e, d);
        if ok {
          ReadsNone(a, e, data, cur);
          ReadsMore([], Kid(i, ts[i]), a, e, d, data, cur, cur, nex);
          assert [] + [Kid(i, ts[i])] == Kids(One(ts), i);
          ReadsToken(One(ts), i, a, d, data, cur, nex);
          OnlyFromTrans(a, old(d), d, d[a := i]);
          d := d[a := i];
          return;
        }
        FailsUnreadable(ts[i], data, cur);
        i := i + 1;
      }
      assert ts[i..] == [];
      return cur, false;
    }

    method ParseOptional(t: Grammar, a: Path, cur: nat) returns (nex: nat, ok: bool)
      requires cur <= |data| && NoOnce(t)
      modifies this`d
      ensures OnlyFrom(a, old(d), d)
      ensures ok == Consumed(Optional(t), data, cur).Match?
      ensures ok ==> nex == Consumed(Optional(t), data, cur).next && Reads(Optional(t), a, d, data, cur, nex)
      decreases Height(Optional(t)), 0
    {
      hide Reads, ReadsKids, Fits, FitsKids, Readable;
      nex, ok := Parse(t, a + [0], cur);
      ChildOnly(a, 0, old(d), d);
      ReadsNone(a, d, data, cur);
      if ok {
        ReadsNone(a, old(d), data, cur);
        ReadsMore([], Kid(0, t), a, old(d), d, data, cur, cur, nex);
        assert [] + [Kid(0, t)] == Kids(Optional(t), 1);
        ReadsToken(Optional(t), 1, a, d, data, cur, nex);
        OnlyFromTrans(a, old(d), d, d[a := 1]);
        d := d[a := 1];
        return;
      }
      FailsUnreadable(t, data, cur);
      ReadsToken(Optional(t), 0, a, d, data, cur, cur);
      OnlyFromTrans(a, old(d), d, d[a := 0]);
      d := d[a := 0];
      return cur, true;
    }

    method ParseRepeat(t: Grammar, from: nat, to: nat, a: Path, start: nat) returns (cur: nat, ok: bool)
      requires start <= |data| && NoOnce(t)
      modifies this`d
      ensures OnlyFrom(a, old(d), d)
      ensures ok == Consumed(Repeat(t, from, to), data, start).Match?
      ensures ok ==> cur == Consumed(Repeat(t, from, to), data, start).next
      ensures ok ==> Reads(Repeat(t, from, to), a, d, data, start, cur)
      decreases Height(Repeat(t, from, to)), 0
    {
      hide ReadsKids, Reads, OnlyFrom;
      NothingChanged(a, d);
      ghost var goal := Consumed(Repeat(t, from, to), data, start);
      ghost var may := if to >= from then to - from else 0;
      cur, ok := start, true;
      ReadsNone(a, d, data, start);
      assert Items(t, 0) == [];
      var i := 1;
      while i <= from
        invariant 1 <= i <= from + 1 && cur <= |data| && OnlyFrom(a, old(d), d)
            && ReadsKids(Items(t, i - 1), a, d, data, start, cur)
        invariant ConsumedTimes(t, from - (i - 1), may, data, cur) == goal
      {
        ghost var e := d;
        var nex;
        nex, ok := ParseItem(t, i - 1, a, start, cur);
        OnlyFromTrans(a, old(d), e, d);
        if !ok { return; }
        cur := nex;
        i := i + 1;
      }
      while i <= to
        invariant from + 1 <= i && (i <= to + 1 || i == from + 1)
        invariant cur <= |data| && OnlyFrom(a, old(d), d) && ReadsKids(Items(t, i - 1), a, d, data, start, cur)
        invariant ConsumedTimes(t, 0, if to >= i - 1 then to - (i - 1) else 0, data, cur) == goal
        decreases 1 + to - i
      {
        ghost var e := d;
        var nex, fits := ParseItem(t, i - 1, a, start, cur);
        OnlyFromTrans(a, old(d), e, d);
        if !fits {
          FailsUnreadable(t, data, cur);
          break;
        }
        cur := nex;
        i := i + 1;
      }
      assert i <= to ==> !Readable(t, data, cur);
      assert Kids(Repeat(t, from, to), i - 1 - from) == Items(t, i - 1);
      ReadsToken(Repeat(t, from, to), i - 1 - from, a, d, data, start, cur);
      OnlyFromTrans(a, old(d), d, d[a := i - 1 - from]);
      d := d[a := i - 1 - from];
      ok := true;
    }

    /** A fresh clone of t, as the item after the first n ones; it counts only if it can be parsed. */
    method ParseItem(t: Grammar, n: nat, a: Path, start: nat, cur: nat) returns (nex: nat, ok: bool)
      requires cur <= |data| && NoOnce(t) && ReadsKids(Items(t, n), a, d, data, start, cur)
      modifies this`d
      ensures OnlyFrom(a, old(d), d)
      ensures ok == Consumed(t, data, cur).Match?
      ensures ok ==> nex == Consumed(t, data, cur).next <= |data| && ReadsKids(Items(t, n + 1), a, d, data, start, nex)
      ensures !ok ==> ReadsKids(Items(t, n), a, d, data, start, cur)
      decreases Height(t), 2
    {
      nex, ok := Parse(t, a + [n], cur);
      ChildOnly(a, n, old(d), d);
      if ok {
        ReadsMore(Items(t, n), Kid(n, t), a, old(d), d, data, start, cur, nex);
        ItemsMore(t, n);
      } else {
        ReadsOthers(Items(t, n), a, n, old(d), d, data, start, cur);
      }
    }
  }

  // ---------- accepted inputs are words ----------

  /** A state that parsing leaves is a permutation of the token. */
  lemma {:induction false} ParsedPrintsWord(g: Grammar, a: Path, d: Store)
    requires WellFormed(g) && (Ascii(g) || AsciiText(Print(g, a, d))) && Parsed(g, a, d)
    ensures Words(g, Print(g, a, d))
    decreases Height(g), 0
  {
    if g.CharClass? {
      var c: char :| InClass(g.chars, g.ranges, c) && HasCode(c, Digit(d, a));
      if !Ascii(g) { AsciiRune(c as nat); }
    } else if !g.Const? {
      var p := Digit(d, a);
      var ks := Kids(g, if g.Concat? || g.Scope? then 0 else p);
      assert ks == Kids(g, p);
      KidsLower(g, p);
      KidsAreSiblings(g, p);
      if Ascii(g) {
        forall i | 0 <= i < |ks| ensures Ascii(ks[i].token) { KidAscii(g, p, i); }
      }
      ParsedKidsPrintWords(ks, a, d);
      WordsBy(g, if g.Concat? || g.Scope? then 0 else p, Print(g, a, d));
    }
  }

  lemma {:induction false} ParsedKidsPrintWords(ks: seq<Kid>, q: Path, d: Store)
    requires WellFormedKids(ks) && ParsedKids(ks, q, d)
    requires AsciiKids(ks) || AsciiText(PrintKids(ks, q, d))
    ensures WordsAll(ks, PrintKids(ks, q, d))
    decreases KidsHeight(ks), 1, |ks|
  {
    if ks != [] {
      KidsRest(ks);
      var u, v := Print(ks[0].token, q + [ks[0].slot], d), PrintKids(ks[1..], q, d);
      AsciiParts(u + v, 0, |u|, |u + v|);
      assert (u + v)[0..|u|] == u && (u + v)[|u|..|u + v|] == v && (u + v)[0..|u + v|] == u + v;
      ParsedPrintsWord(ks[0].token, q + [ks[0].slot], d);
      ParsedKidsPrintWords(ks[1..], q, d);
      WordsCons(ks, u, v);
    }
  }

  /**
   * A nil result: the tree prints the whole input, which therefore is a word of the format. The input
   * is accepted exactly if it has a reading to its end in which nothing that comes first is passed by. Of a
   * format whose choices are decided by the next character exactly the words are accepted.
   */
  method ParseInternal(g: Grammar, src: string, before: Store) returns (ok: bool, d: Store)
    requires NoOnce(g)
    ensures ok <==> Consumed(g, src, 0) == Match(|src|)
    ensures ok <==> exists c :: Fits(g, c, src, 0, |src|)
    ensures ok ==> Parsed(g, [], d) && Fits(g, ReadToken(g, [], d), src, 0, |src|)
    ensures WellFormed(g) && Decided(g, iset{}) ==> (ok <==> Words(g, src))
    ensures ok && (Ascii(g) || AsciiText(src)) ==> Print(g, [], d) == src
    ensures ok && (Ascii(g) || AsciiText(src)) && WellFormed(g) ==> Words(g, src)
  {
    hide Consumed, Parsed, Print, Words, Ascii, NoOnce, WellFormed, Fits, Decided, ReadToken;
    ConsumedMeans(g, src, 0, |src|);
    if WellFormed(g) && Decided(g, iset{}) { DecidedIsExact(g, src); }
    var p := new Parser(src, before);
    var nex;
    nex, ok := p.Parse(g, [], 0);
    d := p.d;
    if ok && nex != |src| {
      ok := false;
    }
    if ok {
      assert src[0..nex] == src;
      if (Ascii(g) || AsciiText(src)) && WellFormed(g) {
        ParsedPrintsWord(g, [], d);
      }
    }
  }

  /** A character beyond ASCII is read as one byte and printed as two. */
  lemma {:induction false} OnlyAsciiPrintsBack(c: char)
    requires c < 256 as char
    ensures var g := CharClass([c], []);
            && Consumed(g, [c], 0) == Match(1)
            && (Print(g, [], map[[] := c as nat]) == [c] <==> c < 128 as char)
  {
    var d: Store := map[[] := c as nat];
    assert Digit(d, []) == c as nat;
  }

  // ---------- the characters of a class ----------

  /** The code points of a character class, in the order of its permutations. */
  function Codes(chars: seq<char>, ranges: seq<Range>): seq<nat> {
    seq(|chars|, i requires 0 <= i < |chars| => chars[i] as nat) + RangeCodes(ranges)
  }

  function RangeCodes(ranges: seq<Range>): seq<nat> {
    if ranges == [] then []
    else
      var lo, hi := ranges[0].from as nat, ranges[0].to as nat;
      (if hi >= lo then seq(hi - lo + 1, i requires 0 <= i => lo + i) else []) + RangeCodes(ranges[1..])
  }

  /** CharacterClass.permutation: the value that permutation i sets. */
  method ClassPermutation(chars: seq<char>, ranges: seq<Range>, i: nat) returns (value: nat)
    requires WellFormed(CharClass(chars, ranges)) && i < |Codes(chars, ranges)|
    ensures value == Codes(chars, ranges)[i]
  {
    var cl := |chars|;
    if i < cl {
      return chars[i] as nat;
    }
    var r := i - cl;
    var j := 0;
    assert ranges[0..] == ranges;
    while true
      invariant 0 <= j <= |ranges| && 0 <= r < |RangeCodes(ranges[j..])|
      invariant RangeCodes(ranges[j..])[r] == Codes(chars, ranges)[i]
      decreases |ranges| - j
    {
      assert j < |ranges| && ranges[j..][0] == ranges[j] && ranges[j..][1..] == ranges[j + 1..];
      var size := ranges[j].to as int - ranges[j].from as int + 1;
      if r < size {
        return ranges[j].from as nat + r;
      }
      r := r - size;
      j := j + 1;
    }
  }

  lemma {:induction false} RangeCodesAre(ranges: seq<Range>, c: char)
    ensures c as nat in RangeCodes(ranges) <==> InRanges(ranges, c)
  {
    if ranges != [] {
      RangeCodesAre(ranges[1..], c);
      var lo, hi := ranges[0].from as nat, ranges[0].to as nat;
      var first := if hi >= lo then seq(hi - lo + 1, i requires 0 <= i => lo + i) else [];
      if ranges[0].from <= c <= ranges[0].to {
        assert first[c as nat - lo] == c as nat;
      }
      if InRanges(ranges[1..], c) {
        var i :| 0 <= i < |ranges[1..]| && ranges[1..][i].from <= c <= ranges[1..][i].to;
        assert ranges[i + 1] == ranges[1..][i];
      }
      if InRanges(ranges, c) && !(ranges[0].from <= c <= ranges[0].to) {
        var i :| 0 <= i < |ranges| && ranges[i].from <= c <= ranges[i].to;
        assert ranges[1..][i - 1] == ranges[i];
      }
    }
  }

  lemma {:induction false} RangeCodesCount(ranges: seq<Range>)
    requires forall i :: 0 <= i < |ranges| ==> ranges[i].from <= ranges[i].to
    ensures |RangeCodes(ranges)| == RangeSize(ranges)
  {
    if ranges != [] {
      RangeCodesCount(ranges[1..]);
    }
  }

  /** Parsing accepts exactly the characters that the permutations enumerate, and there are Permutations of them. */
  lemma {:induction false} ClassAcceptsItsCodes(chars: seq<char>, ranges: seq<Range>, s: string, cur: nat)
    requires WellFormed(CharClass(chars, ranges)) && cur < |s|
    ensures |Codes(chars, ranges)| == Permutations(CharClass(chars, ranges))
    ensures Consumed(CharClass(chars, ranges), s, cur).Match? <==> s[cur] as nat in Codes(chars, ranges)
  {
    RangeCodesCount(ranges);
    RangeCodesAre(ranges, s[cur]);
    var front := seq(|chars|, i requires 0 <= i < |chars| => chars[i] as nat);
    if s[cur] in chars {
      var i :| 0 <= i < |chars| && chars[i] == s[cur];
      assert front[i] == s[cur] as nat;
    }
    if s[cur] as nat in front {
      var i :| 0 <= i < |front| && front[i] == s[cur] as nat;
      assert chars[i] == s[cur];
    }
  }
}
