/**
 * Tokens that last: the removal of what the unrolling cuts off never reaches them. A token lasts by a
 * finite argument, so it has a height, above the heights of the tokens it needs.
 */
module UnrollLasting {
  import opened TokenGraphs
  import opened UnrollWords

  /** Its removal does not take the concatenation with it. Loosely, also if pointers lead to such a token. */
  ghost predicate Droppable(loose: bool, h: Graph, k: Ref) {
    (k in h && OptionalType(h[k])) || (loose && Skippable(h, k))
  }

  ghost predicate LastsIn(loose: bool, h: Graph, x: Ref, n: nat)
    decreases n
  {
    n > 0 && x in h &&
    match h[x]
    case Text(_) => true
    case Concat(ts) => forall i :: 0 <= i < |ts| ==> Droppable(loose, h, ts[i]) || LastsIn(loose, h, ts[i], n - 1)
    case One(ts) => exists i :: 0 <= i < |ts| && LastsIn(loose, h, ts[i], n - 1)
    case Optional(t) => LastsIn(loose, h, t, n - 1)
    case Scope(t) => LastsIn(loose, h, t, n - 1)
    case Repeat(t, _, _) => LastsIn(loose, h, t, n - 1)
    case Pointer(None) => false
    case Pointer(Some(t)) => LastsIn(loose, h, t, n - 1)
  }

  /** x needs only finitely many tokens, none of which needs itself. */
  ghost predicate Lasts(h: Graph, x: Ref) {
    exists n: nat :: LastsIn(false, h, x, n)
  }

  /** The same, if what an optional token needs is never needed by a concatenation that a pointer to it is in. */
  ghost predicate LastsLoosely(h: Graph, x: Ref) {
    exists n: nat :: LastsIn(true, h, x, n)
  }

  lemma {:induction false} LastsMore(loose: bool, h: Graph, x: Ref, n: nat, m: nat)
    requires LastsIn(loose, h, x, n) && n <= m
    ensures LastsIn(loose, h, x, m)
    decreases n
  {
    hide Droppable;
    match h[x]
    case Concat(ts) =>
      forall i | 0 <= i < |ts| && !Droppable(loose, h, ts[i]) ensures LastsIn(loose, h, ts[i], m - 1) {
        LastsMore(loose, h, ts[i], n - 1, m - 1);
      }
    case One(ts) =>
      var i :| 0 <= i < |ts| && LastsIn(loose, h, ts[i], n - 1);
      LastsMore(loose, h, ts[i], n - 1, m - 1);
    case Optional(t) => LastsMore(loose, h, t, n - 1, m - 1);
    case Scope(t) => LastsMore(loose, h, t, n - 1, m - 1);
    case Repeat(t, _, _) => LastsMore(loose, h, t, n - 1, m - 1);
    case Pointer(Some(t)) => LastsMore(loose, h, t, n - 1, m - 1);
    case _ =>
  }

  // ---------- heights ----------

  ghost predicate Under(sup: map<Ref, nat>, k: Ref, n: nat) {
    k in sup && sup[k] < n
  }

  /** What x needs is lower than n. */
  ghost predicate RestsOn(h: Graph, sup: map<Ref, nat>, x: Ref, n: nat) {
    x in h &&
    match h[x]
    case Text(_) => true
    case Concat(ts) => forall k :: k in ts ==> Droppable(false, h, k) || Under(sup, k, n)
    case One(ts) => exists k :: k in ts && Under(sup, k, n)
    case Optional(t) => Under(sup, t, n)
    case Scope(t) => Under(sup, t, n)
    case Repeat(t, _, _) => Under(sup, t, n)
    case Pointer(t) => t.Some? && Under(sup, t.value, n)
  }

  ghost predicate Heights(h: Graph, sup: map<Ref, nat>) {
    forall x :: x in sup ==> RestsOn(h, sup, x, sup[x])
  }

  ghost predicate IsHeight(h: Graph, x: Ref, n: nat) {
    LastsIn(false, h, x, n) && forall i: nat :: i < n ==> !LastsIn(false, h, x, i)
  }

  lemma {:induction false} HeightExists(h: Graph, x: Ref, n: nat)
    requires LastsIn(false, h, x, n)
    ensures exists m: nat :: IsHeight(h, x, m)
    decreases n
  {
    hide LastsIn;
    if i: nat :| i < n && LastsIn(false, h, x, i) {
      HeightExists(h, x, i);
    } else {
      assert IsHeight(h, x, n);
    }
  }

  lemma {:induction false} LastingHasHeight(h: Graph, x: Ref)
    requires Lasts(h, x)
    ensures exists m: nat :: IsHeight(h, x, m)
  {
    hide LastsIn;
    var n: nat :| LastsIn(false, h, x, n);
    HeightExists(h, x, n);
  }

  ghost function Height(h: Graph, x: Ref): (m: nat)
    requires Lasts(h, x)
    ensures IsHeight(h, x, m)
  {
    LastingHasHeight(h, x);
    var m: nat :| IsHeight(h, x, m);
    m
  }

  lemma {:induction false} HeightBelow(h: Graph, sup: map<Ref, nat>, k: Ref, n: nat)
    requires sup == map x | x in h && Lasts(h, x) :: Height(h, x)
    requires n > 0 && LastsIn(false, h, k, n - 1)
    ensures Under(sup, k, n)
  {
    assert k in h;
    hide LastsIn;
    assert Lasts(h, k);
    assert IsHeight(h, k, Height(h, k));
    assert Height(h, k) <= n - 1;
  }

  /** All tokens that last have heights. */
  lemma {:induction false} HeightsExist(h: Graph) returns (sup: map<Ref, nat>)
    ensures Heights(h, sup) && forall x :: x in sup <==> Lasts(h, x)
  {
    sup := map x | x in h && Lasts(h, x) :: Height(h, x);
    forall x | x in sup ensures RestsOn(h, sup, x, sup[x]) {
      hide Under, Droppable;
      var n := sup[x];
      match h[x]
      case Concat(ts) =>
        forall k | k in ts && !Droppable(false, h, k) ensures Under(sup, k, n) {
          var i :| 0 <= i < |ts| && ts[i] == k;
          HeightBelow(h, sup, k, n);
        }
      case One(ts) =>
        var i :| 0 <= i < |ts| && LastsIn(false, h, ts[i], n - 1);
        HeightBelow(h, sup, ts[i], n);
      case Optional(t) => HeightBelow(h, sup, t, n);
      case Scope(t) => HeightBelow(h, sup, t, n);
      case Repeat(t, _, _) => HeightBelow(h, sup, t, n);
      case Pointer(Some(t)) => HeightBelow(h, sup, t, n);
      case _ =>
    }
    forall x | Lasts(h, x) ensures x in sup {
      var n: nat :| LastsIn(false, h, x, n);
    }
  }
}
