/**
 * Why the unrolling of pointers stops: either a new original is registered, of which there are
 * finitely many, or the tokens still to be visited get lighter. A token with room for b more
 * expansions weighs its size times (cap + 1)^b, where no expansion is larger than cap.
 */
module UnrollMeasure {
  import opened Combinatorics
  import opened TokenGraphs
  import opened UnrollState
  import opened UnrollSteps

  // ---------- how many expansions a path can still have ----------

  function Total(counts: map<Ref, nat>, keys: seq<Ref>): nat {
    if keys == [] then 0 else CountOf(counts, keys[0]) + Total(counts, keys[1..])
  }

  lemma {:induction false} TotalBound(counts: map<Ref, nat>, keys: seq<Ref>, limit: nat)
    requires forall o :: o in counts ==> counts[o] <= limit
    ensures Total(counts, keys) <= |keys| * limit
  {
    if keys != [] {
      TotalBound(counts, keys[1..], limit);
      MoreTimes(|keys| - 1, limit);
    }
  }

  lemma {:induction false} MoreTimes(n: nat, limit: nat)
    ensures (n + 1) * limit == n * limit + limit
  {
  }

  lemma {:induction false} TotalSame(counts: map<Ref, nat>, keys: seq<Ref>, o: Ref, n: nat)
    requires o !in keys
    ensures Total(counts[o := n], keys) == Total(counts, keys)
  {
    if keys != [] {
      assert keys[0] in keys;
      TotalSame(counts, keys[1..], o, n);
    }
  }

  lemma {:induction false} TotalBumped(counts: map<Ref, nat>, keys: seq<Ref>, o: Ref)
    requires NoRepeats(keys) && o in keys
    ensures Total(counts[o := CountOf(counts, o) + 1], keys) == Total(counts, keys) + 1
  {
    if keys[0] == o {
      TotalSame(counts, keys[1..], o, CountOf(counts, o) + 1);
    } else {
      TotalBumped(counts, keys[1..], o);
    }
  }

  // ---------- weights ----------

  /** limit expansions of each original. */
  function Room(counts: map<Ref, nat>, keys: seq<Ref>, limit: nat): nat {
    if Total(counts, keys) <= |keys| * limit then |keys| * limit - Total(counts, keys) else 0
  }

  function Weight(size: map<Ref, nat>, cap: nat, keys: seq<Ref>, limit: nat, it: Item): nat {
    if it.NoItem? then 0 else SizeOf(size, it.tok) * Pow(cap + 1, Room(it.counts, keys, limit))
  }

  function WeightAll(size: map<Ref, nat>, cap: nat, keys: seq<Ref>, limit: nat, items: seq<Item>): nat {
    if items == [] then 0
    else Weight(size, cap, keys, limit, items[0]) + WeightAll(size, cap, keys, limit, items[1..])
  }

  lemma {:induction false} PowPositive(b: nat, e: nat)
    requires b > 0
    ensures Pow(b, e) > 0
  {
    if e > 0 {
      PowPositive(b, e - 1);
      PositiveTimes(b, Pow(b, e - 1));
    }
  }

  lemma {:induction false} PositiveTimes(a: nat, b: nat)
    requires a > 0 && b > 0
    ensures a * b > 0
  {
  }

  lemma {:induction false} WeightAllSplit(size: map<Ref, nat>, cap: nat, keys: seq<Ref>, limit: nat, a: seq<Item>,
          b: seq<Item>)
    ensures WeightAll(size, cap, keys, limit, a + b)
         == WeightAll(size, cap, keys, limit, a) + WeightAll(size, cap, keys, limit, b)
  {
    if a == [] {
      assert a + b == b;
    } else {
      assert (a + b)[1..] == a[1..] + b;
      WeightAllSplit(size, cap, keys, limit, a[1..], b);
    }
  }

  /** The children of a token weigh as much as their sizes say, together. */
  lemma {:induction false} KidsWeight(size: map<Ref, nat>, cap: nat, keys: seq<Ref>, limit: nat, ts: seq<Ref>,
          parent: Item)
    requires parent.Item?
    ensures WeightAll(size, cap, keys, limit, KidItems(ts, parent))
         == SizeAll(size, ts) * Pow(cap + 1, Room(parent.counts, keys, limit))
  {
    var items, p := KidItems(ts, parent), Pow(cap + 1, Room(parent.counts, keys, limit));
    if ts == [] {
    } else {
      KidsWeight(size, cap, keys, limit, ts[1..], parent);
      assert items[1..] == KidItems(ts[1..], parent);
      Distribute(SizeOf(size, ts[0]), SizeAll(size, ts[1..]), p);
    }
  }

  lemma {:induction false} Distribute(a: nat, b: nat, p: nat)
    ensures a * p + b * p == (a + b) * p
  {
  }

  /** Visiting a token leaves less to visit. */
  lemma {:induction false} VisitLighter(size: map<Ref, nat>, cap: nat, keys: seq<Ref>, limit: nat, ts: seq<Ref>,
          item: Item, rest: seq<Item>)
    requires item.Item? && SizeOf(size, item.tok) == 1 + SizeAll(size, ts)
    ensures WeightAll(size, cap, keys, limit, KidItems(ts, item) + rest)
          < WeightAll(size, cap, keys, limit, [item] + rest)
  {
    WeightAllSplit(size, cap, keys, limit, KidItems(ts, item), rest);
    WeightAllSplit(size, cap, keys, limit, [item], rest);
    assert WeightAll(size, cap, keys, limit, [item]) == Weight(size, cap, keys, limit, item) by {
      assert [item][1..] == [];
    }
    KidsWeight(size, cap, keys, limit, ts, item);
    var p := Pow(cap + 1, Room(item.counts, keys, limit));
    PowPositive(cap + 1, Room(item.counts, keys, limit));
    Distribute(1, SizeAll(size, ts), p);
  }

  /** An expansion weighs less than the pointer it replaces. */
  lemma {:induction false} LinkLighter(size: map<Ref, nat>, size': map<Ref, nat>, cap: nat, keys: seq<Ref>,
          limit: nat, item: Item, c: Ref, original: Ref, rest: seq<Item>)
    requires item.Item? && SizeOf(size, item.tok) >= 1 && SizeOf(size', c) <= cap
    requires NoRepeats(keys) && original in keys
    requires Total(item.counts, keys) + 1 <= |keys| * limit
    requires forall i :: 0 <= i < |rest| && rest[i].Item? ==> SizeOf(size', rest[i].tok) == SizeOf(size, rest[i].tok)
    ensures WeightAll(size', cap, keys, limit,
        [Item(c, item.parent, item.counts[original := CountOf(item.counts, original) + 1])] + rest)
          < WeightAll(size, cap, keys, limit, [item] + rest)
  {
    var new_ := Item(c, item.parent, item.counts[original := CountOf(item.counts, original) + 1]);
    TotalBumped(item.counts, keys, original);
    var e := Room(new_.counts, keys, limit);
    assert Room(item.counts, keys, limit) == e + 1;
    PowPositive(cap + 1, e);
    Shrinks(SizeOf(size', c), cap, SizeOf(size, item.tok), Pow(cap + 1, e));
    WeightAllSame(size, size', cap, keys, limit, rest);
    assert ([item] + rest)[1..] == rest && ([new_] + rest)[1..] == rest;
  }

  lemma {:induction false} Shrinks(a: nat, cap: nat, b: nat, p: nat)
    requires a <= cap && b >= 1 && p > 0
    ensures a * p < b * ((cap + 1) * p)
  {
    assert (cap - a) * p >= 0;
    assert (b - 1) * ((cap + 1) * p) >= 0;
  }

  lemma {:induction false} WeightAllSame(size: map<Ref, nat>, size': map<Ref, nat>, cap: nat, keys: seq<Ref>,
          limit: nat, items: seq<Item>)
    requires forall i :: 0 <= i < |items| && items[i].Item? ==>
        SizeOf(size', items[i].tok) == SizeOf(size, items[i].tok)
    ensures WeightAll(size', cap, keys, limit, items) == WeightAll(size, cap, keys, limit, items)
  {
    if items != [] {
      WeightAllSame(size, size', cap, keys, limit, items[1..]);
    }
  }

  /** Leaving an entry out does not make the worklist heavier. */
  lemma {:induction false} CutLighter(size: map<Ref, nat>, cap: nat, keys: seq<Ref>, limit: nat, item: Item,
          rest: seq<Item>)
    requires item.Item? && SizeOf(size, item.tok) >= 1
    ensures WeightAll(size, cap, keys, limit, rest) < WeightAll(size, cap, keys, limit, [item] + rest)
  {
    assert ([item] + rest)[1..] == rest;
    PowPositive(cap + 1, Room(item.counts, keys, limit));
    PositiveTimes(SizeOf(size, item.tok), Pow(cap + 1, Room(item.counts, keys, limit)));
  }

  // ---------- the originals are tokens of the original graph ----------

  lemma {:induction false} ListOf(s: set<Ref>) returns (keys: seq<Ref>)
    ensures NoRepeats(keys) && |keys| == |s| && forall x :: x in s <==> x in keys
  {
    if s == {} {
      keys := [];
    } else {
      var x :| x in s;
      var rest := ListOf(s - {x});
      keys := [x] + rest;
    }
  }

  lemma {:induction false} SubsetSize(a: set<Ref>, b: set<Ref>)
    requires a <= b
    ensures |a| <= |b|
  {
    assert |b - a| == |b| - |a|;
  }
}
