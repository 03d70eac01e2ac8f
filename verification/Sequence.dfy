/** Sequences (token/sequences/sequence.go): issuing distinct values, and finding an issued one. */
module Sequences {
  import opened Combinatorics

  datatype Option<T> = None | Some(value: T)

  /** One except token: the values it lists, where they are numbers. */
  type Except = seq<Option<int>>

  /** The values an except list takes out. */
  function Excluded(except: seq<Except>): set<int> {
    if except == [] then {} else Excluded(except[..|except| - 1]) + Numbers(except[|except| - 1])
  }

  function Numbers(e: Except): set<int> {
    if e == [] then {}
    else Numbers(e[..|e| - 1]) + (if e[|e| - 1].Some? then {e[|e| - 1].value} else {})
  }

  /** v is listed by one of the except tokens. */
  ghost predicate Names(except: seq<Except>, v: int) {
    exists i, j :: 0 <= i < |except| && 0 <= j < |except[i]| && except[i][j] == Some(v)
  }

  lemma {:induction false} NumbersListed(e: Except, v: int)
    ensures v in Numbers(e) <==> Some(v) in e
  {
    if e != [] {
      var front := e[..|e| - 1];
      NumbersListed(front, v);
      assert e == front + [e[|e| - 1]];
    }
  }

  lemma {:induction false} ExcludedNamed(except: seq<Except>, v: int)
    ensures v in Excluded(except) <==> exists i :: 0 <= i < |except| && Some(v) in except[i]
  {
    if except != [] {
      var front := except[..|except| - 1];
      ExcludedNamed(front, v);
      NumbersListed(except[|except| - 1], v);
      assert forall i :: 0 <= i < |front| ==> front[i] == except[i];
      if i :| 0 <= i < |except| && Some(v) in except[i] {
        assert i < |front| ==> Some(v) in front[i];
      }
    }
  }

  lemma {:induction false} ExcludedIs(except: seq<Except>)
    ensures forall v :: v in Excluded(except) <==> Names(except, v)
  {
    forall v ensures v in Excluded(except) <==> Names(except, v) {
      ExcludedNamed(except, v);
      if Names(except, v) {
        var i, j :| 0 <= i < |except| && 0 <= j < |except[i]| && except[i][j] == Some(v);
        assert Some(v) in except[i];
      }
    }
  }

  /** The k-th value after a reset. */
  function Nth(start: int, step: int, k: nat): int {
    start + k * step
  }

  lemma {:induction false} NthNext(start: int, step: int, k: nat)
    ensures Nth(start, step, k + 1) == Nth(start, step, k) + step
  {
  }

  lemma {:induction false} NthDistinct(start: int, step: int, j: nat, k: nat)
    requires step != 0 && j != k
    ensures Nth(start, step, j) != Nth(start, step, k)
  {
    ProductNotZero(j - k, step);
    Distribute(j, k, step);
  }

  lemma {:induction false} ProductNotZero(a: int, b: int)
    requires a != 0 && b != 0
    ensures a * b != 0
  {
  }

  lemma {:induction false} Distribute(j: int, k: int, step: int)
    ensures (j - k) * step == j * step - k * step
  {
  }

  /** Go's division of a multiple. */
  lemma {:induction false} ExactDivision(n: nat, step: int)
    requires step != 0
    ensures (n * step) / step == n
  {
    var q, r := (n * step) / step, (n * step) % step;
    if step > 0 {
      SameQuotient(n, q, step, 0, r);
    } else {
      Negated(n, step);
      Negated(q, step);
      SameQuotient(n, q, -step, r, 0);
    }
  }

  lemma {:induction false} Negated(a: int, b: int)
    ensures a * -b == -(a * b)
  {
  }

  /** r + k and r + p are different positions of a cycle of length n, if they are less than n apart. */
  lemma {:induction false} CycleDistinct(r: nat, k: nat, p: nat, n: nat)
    requires k < p && p - k < n
    ensures (r + k) % n != (r + p) % n
  {
    var x, y := r + k, r + p;
    if x % n == y % n {
      MultipleOf(y / n - x / n, n);
      SameRest(n, x / n, y / n);
    }
  }

  lemma {:induction false} SameRest(n: int, a: int, b: int)
    ensures n * b - n * a == (b - a) * n
  {
  }

  lemma {:induction false} RestIs(q: nat, n: nat, k: nat)
    requires k < n
    ensures (q * n + k) % n == k
  {
    var x := q * n + k;
    SameQuotient(q, x / n, n, k, x % n);
  }

  /** Every position is reached from r. */
  lemma {:induction false} CycleReaches(r: nat, k: nat, n: nat) returns (j: nat)
    requires k < n
    ensures j < n && (r + j) % n == k
  {
    var q, a := r / n, r % n;
    DivideRest(r, n);
    if k >= a {
      j := k - a;
      RestIs(q, n, k);
    } else {
      j := k - a + n;
      OneMore(q, n);
      RestIs(q + 1, n, k);
    }
  }

  lemma {:induction false} DivideRest(r: nat, n: nat)
    requires n > 0
    ensures r == (r / n) * n + r % n && r / n >= 0 && r % n < n
  {
  }

  lemma {:induction false} OneMore(q: nat, n: nat)
    ensures (q + 1) * n == q * n + n
  {
  }

  // ---------- what `existing` looks for ----------

  /** The issued value at the cyclic position r + k. */
  function Cyclic(start: int, step: int, n: nat, r: nat, k: nat): int
    requires n > 0
  {
    Nth(start, step, (r + k) % n)
  }

  datatype Result = Value(value: int) | NoSequenceValue

  ghost predicate AllExcluded(start: int, step: int, n: nat, r: nat, k: nat, excluded: set<int>)
    requires n > 0
  {
    forall j: nat :: j < k ==> Cyclic(start, step, n, r, j) in excluded
  }

  /** The first issued value in cyclic order from r that is not excluded. */
  ghost predicate FirstFrom(start: int, step: int, n: nat, r: nat, excluded: set<int>, result: Result) {
    match result
    case Value(v) =>
      n > 0 && v !in excluded
          && exists k: nat :: k < n && v == Cyclic(start, step, n, r, k) && AllExcluded(start, step, n, r, k, excluded)
    case NoSequenceValue => forall k :: 0 <= k < n ==> Nth(start, step, k) in excluded
  }

  // ---------- the positions that were checked ----------

  /** The positions r, ..., r + m - 1 were checked. */
  ghost predicate Checked(start: int, step: int, n: nat, r: nat, m: nat, checked: set<int>) {
    && n > 0 && (forall k: nat :: k < m ==> Cyclic(start, step, n, r, k) in checked)
    && forall v :: v in checked ==> exists k: nat :: k < m && v == Cyclic(start, step, n, r, k)
  }

  lemma {:induction false} CyclicDistinct(start: int, step: int, n: nat, r: nat, j: nat, k: nat)
    requires step != 0 && n > 0 && j < k && k - j < n
    ensures Cyclic(start, step, n, r, j) != Cyclic(start, step, n, r, k)
  {
    CycleDistinct(r, j, k, n);
    NthDistinct(start, step, (r + j) % n, (r + k) % n);
  }

  lemma {:induction false} NotChecked(start: int, step: int, n: nat, r: nat, m: nat, checked: set<int>)
    requires step != 0 && Checked(start, step, n, r, m, checked) && m < n
    ensures Cyclic(start, step, n, r, m) !in checked
  {
    var v := Cyclic(start, step, n, r, m);
    if v in checked {
      var k: nat :| k < m && v == Cyclic(start, step, n, r, k);
      CyclicDistinct(start, step, n, r, k, m);
    }
  }

  lemma {:induction false} CheckedMore(start: int, step: int, n: nat, r: nat, m: nat, checked: set<int>)
    requires Checked(start, step, n, r, m, checked)
    ensures Checked(start, step, n, r, m + 1, checked + {Cyclic(start, step, n, r, m)})
  {
    hide Cyclic;
    forall v | v in checked + {Cyclic(start, step, n, r, m)}
      ensures exists k: nat :: k < m + 1 && v == Cyclic(start, step, n, r, k) {
      if v in checked {
        var k: nat :| k < m && v == Cyclic(start, step, n, r, k);
        assert k < m + 1;
      }
    }
  }

  lemma {:induction false} FoundFirst(start: int, step: int, n: nat, r: nat, m: nat, checked: set<int>,
          excluded: set<int>)
    requires Checked(start, step, n, r, m, checked) && checked <= excluded && m < n
    requires Cyclic(start, step, n, r, m) !in excluded
    ensures FirstFrom(start, step, n, r, excluded, Value(Cyclic(start, step, n, r, m)))
  {
    hide Cyclic;
  }

  lemma {:induction false} AllChecked(start: int, step: int, n: nat, r: nat, checked: set<int>, excluded: set<int>)
    requires Checked(start, step, n, r, n, checked) && checked <= excluded
    ensures FirstFrom(start, step, n, r, excluded, NoSequenceValue)
  {
    forall k | 0 <= k < n ensures Nth(start, step, k) in excluded {
      var j := CycleReaches(r, k, n);
      assert Cyclic(start, step, n, r, j) in checked;
    }
  }

  /** The issued value k positions on from r, round and round. */
  function OnFrom(issued: seq<int>, r: nat, k: nat): int
    requires issued != []
  {
    issued[(r + k) % |issued|]
  }

  /** The first of the issued values that is not listed, from position r on and round, or the error if all are. */
  ghost predicate FirstIssued(issued: seq<int>, r: nat, except: seq<Except>, result: Result)
    requires issued != []
  {
    match result
    case Value(v) =>
      exists k: nat :: k < |issued| && v == OnFrom(issued, r, k) && !Names(except, v)
                       && forall j: nat :: j < k ==> Names(except, OnFrom(issued, r, j))
    case NoSequenceValue => forall v :: v in issued ==> Names(except, v)
  }

  lemma {:induction false} FirstIsIssued(start: int, step: int, issued: seq<int>, r: nat, except: seq<Except>,
          result: Result)
    requires issued != [] && forall k :: 0 <= k < |issued| ==> issued[k] == Nth(start, step, k)
    requires FirstFrom(start, step, |issued|, r, Excluded(except), result)
    ensures FirstIssued(issued, r, except, result)
  {
    ExcludedIs(except);
    var n := |issued|;
    forall k: nat
      ensures Cyclic(start, step, n, r, k) == OnFrom(issued, r, k) { CyclicIsIssued(start, step, issued, r, k); }
    hide Names, Excluded, Nth, OnFrom, Cyclic;
    if result.Value? {
      var k: nat :| k < n && result.value == Cyclic(start, step, n, r, k)
                    && AllExcluded(start, step, n, r, k, Excluded(except));
      assert result.value == OnFrom(issued, r, k);
      forall j: nat | j < k ensures Names(except, OnFrom(issued, r, j)) {
        assert Cyclic(start, step, n, r, j) in Excluded(except);
      }
    }
  }

  lemma {:induction false} CyclicIsIssued(start: int, step: int, issued: seq<int>, r: nat, k: nat)
    requires issued != [] && forall k :: 0 <= k < |issued| ==> issued[k] == Nth(start, step, k)
    ensures Cyclic(start, step, |issued|, r, k) == OnFrom(issued, r, k)
  {
    hide Nth;
    var i := (r + k) % |issued|;
    assert issued[i] == Nth(start, step, i);
  }

  class Sequence {
    const start: int
    const step: int
    var value: int
    /** The values issued since the last reset. */
    ghost var issued: seq<int>

    ghost predicate Valid()
      reads this
    {
      && step != 0 && value == Nth(start, step, |issued|)
      && forall k :: 0 <= k < |issued| ==> issued[k] == Nth(start, step, k)
    }

    constructor (start: int, step: int)
      requires step != 0
      ensures Valid() && issued == [] && this.start == start && this.step == step
    {
      this.start, this.step, value, issued := start, step, start, [];
    }

    /** A new value. */
    method Next() returns (c: int)
      requires Valid()
      modifies this
      ensures Valid() && issued == old(issued) + [c] && c !in old(issued)
      ensures c == if old(issued) == [] then start else old(issued)[|old(issued)| - 1] + step
    {
      c := value;
      if issued != [] { NthNext(start, step, |issued| - 1); }
      if c in issued {
        var k :| 0 <= k < |issued| && issued[k] == c;
        NthDistinct(start, step, k, |issued|);
      }
      assert Nth(start, step, |issued| + 1) == value + step;
      value := value + step;
      issued := issued + [c];
    }

    method Reset()
      requires Valid()
      modifies this
      ensures Valid() && issued == []
    {
      value := start;
      issued := [];
    }

    lemma {:induction false} IssuedDistinct()
      requires Valid()
      ensures forall j, k :: 0 <= j < k < |issued| ==> issued[j] != issued[k]
    {
      forall j, k | 0 <= j < k < |issued| ensures issued[j] != issued[k] {
        NthDistinct(start, step, j, k);
      }
    }

    /** The values to leave out. */
    static method Lookup(except: seq<Except>) returns (exceptLookup: set<int>)
      ensures exceptLookup == Excluded(except)
    {
      exceptLookup := {};
      var i := 0;
      while i < |except|
        invariant 0 <= i <= |except| && exceptLookup == Excluded(except[..i])
      {
        assert except[..i + 1][..i] == except[..i];
        var more := LookupOne(except[i]);
        exceptLookup := exceptLookup + more;
        i := i + 1;
      }
      assert except[..i] == except;
    }

    static method LookupOne(tok: Except) returns (found: set<int>)
      ensures found == Numbers(tok)
    {
      found := {};
      var j := 0;
      while j < |tok|
        invariant 0 <= j <= |tok| && found == Numbers(tok[..j])
      {
        assert tok[..j + 1][..j] == tok[..j];
        match tok[j] {
          case Some(ex) => found := found + {ex};
          case None =>
        }
        j := j + 1;
      }
      assert tok[..j] == tok;
    }

    /**
     * existing. With an except list, even one that names no numbers, it ends with the first value from
     * r on that is not excluded, or with the error exactly if there is none.
     */
    method Existing(r0: nat, except: seq<Except>) returns (result: Result)
      requires Valid()
      ensures |issued| == 0 ==> result == NoSequenceValue
      ensures |issued| > 0 && except == [] ==> result == Value(start + r0 * step)
      ensures |issued| > 0 && except == [] && r0 < |issued| ==> result == Value(issued[r0])
      ensures |issued| > 0 && except != [] ==> FirstIssued(issued, r0, except, result)
    {
      var d := value - start;
      if d == 0 {
        if |issued| > 0 { NthDistinct(start, step, 0, |issued|); }
        return NoSequenceValue;
      }
      ExactDivision(|issued|, step);
      var n: nat := d / step;
      assert n == |issued|;
      if |except| == 0 {
        return Value(r0 * step + start);
      }
      var exceptLookup := Lookup(except);
      result := Scan(n, r0, exceptLookup);
      FirstIsIssued(start, step, issued, r0, except, result);
    }

    /** The loop of existing: r moves on only after its position was checked. */
    method Scan(n: nat, r0: nat, exceptLookup: set<int>) returns (result: Result)
      requires step != 0 && n > 0
      ensures FirstFrom(start, step, n, r0, exceptLookup, result)
    {
      var checked: set<int>, r := {}, r0;
      ghost var m := 0;
      while n != |checked|
        invariant r0 <= r && |checked| == m <= n && (m == r - r0 || m == r - r0 + 1)
        invariant Checked(start, step, n, r0, m, checked) && checked <= exceptLookup
        decreases n - m, m - (r - r0)
      {
        var i := (r % n) * step + start;
        assert i == Cyclic(start, step, n, r0, r - r0);
        NotChecked(start, step, n, r0, m, checked);
        if i in checked {
          r := r + 1;
          continue;
        }
        if i !in exceptLookup {
          FoundFirst(start, step, n, r0, m, checked, exceptLookup);
          return Value(i);
        }
        CheckedMore(start, step, n, r0, m, checked);
        checked := checked + {i};
        m := m + 1;
      }
      AllChecked(start, step, n, r0, checked, exceptLookup);
      result := NoSequenceValue;
    }
  }

  /** Without an except list the answer is the issued value in question exactly if there are that many. */
  lemma {:induction false} UncheckedIsIssued(start: int, step: int, n: nat, r: nat)
    requires step != 0 && n > 0
    ensures Nth(start, step, r) == Cyclic(start, step, n, r, 0) <==> r < n
  {
    if r < n {
      RestIs(0, n, r);
    } else {
      NthDistinct(start, step, r, r % n);
    }
  }
}
