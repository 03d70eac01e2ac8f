/**
 * UniqueItem (token/lists/items.go:171-291): the items of one family share a list, and no two of them
 * hold the same element of it.
 */
module UniqueItems {

  /** How many of the elements below j are free. */
  function Free(picked: set<int>, j: nat): nat {
    if j == 0 then 0 else Free(picked, j - 1) + (if j - 1 in picked then 0 else 1)
  }

  /** k is the i-th smallest free element of n. */
  ghost predicate NthFree(picked: set<int>, n: nat, i: nat, k: int) {
    0 <= k < n && k !in picked && Free(picked, k) == i
  }

  ghost predicate InList(picked: set<int>, n: nat) {
    forall k :: k in picked ==> 0 <= k < n
  }

  lemma {:induction false} FreeGrows(picked: set<int>, j: nat, k: nat)
    requires j <= k
    ensures Free(picked, j) <= Free(picked, k)
    decreases k - j
  {
    if j < k {
      FreeGrows(picked, j, k - 1);
    }
  }

  /** There is only one i-th smallest. */
  lemma {:induction false} NthFreeUnique(picked: set<int>, n: nat, i: nat, j: int, k: int)
    requires NthFree(picked, n, i, j) && NthFree(picked, n, i, k)
    ensures j == k
  {
    if j < k {
      FreeGrows(picked, j + 1, k);
    } else if k < j {
      FreeGrows(picked, k + 1, j);
    }
  }

  /** What is not picked is free. */
  lemma {:induction false} FreeCount(picked: set<int>, n: nat)
    requires InList(picked, n)
    ensures Free(picked, n) == n - |picked|
  {
    if n > 0 {
      if n - 1 in picked {
        var rest := picked - {n - 1};
        FreeCount(rest, n - 1);
        FreeSame(picked, rest, n - 1);
      } else {
        FreeCount(picked, n - 1);
      }
    } else {
      assert forall k :: k !in picked;
      assert picked == {};
    }
  }

  lemma {:induction false} FreeSame(a: set<int>, b: set<int>, n: nat)
    requires forall k :: 0 <= k < n ==> (k in a <==> k in b)
    ensures Free(a, n) == Free(b, n)
  {
    if n > 0 {
      FreeSame(a, b, n - 1);
    }
  }

  // ---------- a family of items ----------

  ghost predicate Held(items: set<UniqueItem>, k: int)
    reads items
  {
    k != -1 && exists x :: x in items && x.index == k
  }

  ghost predicate Distinct(items: set<UniqueItem>)
    reads items
  {
    forall x, y :: x in items && y in items && x.index != -1 && x.index == y.index ==> x == y
  }

  /** All items of the family share o; they hold distinct elements of the list, and what is picked is what they hold. */
  ghost predicate Family(o: UniqueItem, items: set<UniqueItem>)
    reads items, o
  {
    && o in items && o.original == o
    && (forall x :: x in items ==> x.original == o && (x.index == -1 || (0 <= x.index < o.size && x.index in o.picked)))
    && Distinct(items)
    && forall k :: k in o.picked ==> Held(items, k)
  }

  class UniqueItem {
    const original: UniqueItem
    /** The length of the list; only the original refers to it. */
    const size: nat
    /** Only that of the original is used. */
    var picked: set<int>
    var index: int

    constructor (size: nat)
      ensures original == this && this.size == size && Family(this, {this}) && index == -1
    {
      original := this;
      this.size, picked, index := size, {}, -1;
    }

    constructor Copy(original: UniqueItem)
      ensures this.original == original && index == -1
    {
      this.original, size, picked, index := original, 0, {}, -1;
    }

    /** A further item of the family, which holds nothing yet. */
    method Clone(ghost items: set<UniqueItem>) returns (n: UniqueItem)
      requires this in items && Family(original, items)
      ensures fresh(n) && n.index == -1 && Family(original, items + {n})
      ensures original.picked == old(original.picked)
    {
      n := new UniqueItem.Copy(original);
      assert forall k :: Held(items, k) ==> Held(items + {n}, k);
    }

    ghost predicate Room()
      reads this, original
    {
      |original.picked| < original.size
    }

    /** pick: take the i-th smallest element that is free. The code has no answer if nothing is. */
    method Pick(i: nat, ghost items: set<UniqueItem>)
      requires this in items && Family(original, items) && index == -1
      requires i + |original.picked| < original.size
      modifies `index, original`picked
      ensures Family(original, items) && NthFree(old(original.picked), original.size, i, index)
      ensures original.picked == old(original.picked) + {index}
    {
      PickedInList(original, items);
      var j := Find(original.picked, original.size, i);
      ghost var before := original.picked;
      index := j;
      original.picked := original.picked + {j};
      forall k | k in original.picked ensures Held(items, k) {
        if k != j {
          assert k in before;
        }
      }
    }

    /** The loop of pick: go through the list until i free elements were passed. */
    static method Find(picked: set<int>, nList: nat, i: nat) returns (k: nat)
      requires InList(picked, nList) && i + |picked| < nList
      ensures NthFree(picked, nList, i, k)
    {
      FreeCount(picked, nList);
      var r, j := i, 0;
      while j <= nList
        invariant 0 <= j <= nList && 0 <= r && r + Free(picked, j) == i
      {
        FreeGrows(picked, j, nList);
        if j !in picked {
          if r == 0 {
            break;
          }
          r := r - 1;
        }
        j := j + 1;
      }
      k := j;
    }

    /** Release: give the element back. */
    method Release(ghost items: set<UniqueItem>)
      requires this in items && Family(original, items)
      modifies `index, original`picked
      ensures Family(original, items) && index == -1
      ensures original.picked == old(original.picked) - {old(index)}
    {
      ghost var before := original.picked;
      if index != -1 {
        original.picked := original.picked - {index};
        index := -1;
      }
      forall k | k in original.picked ensures Held(items, k) {
        assert k in before;
      }
    }

    method Permutations(ghost items: set<UniqueItem>) returns (p: int)
      requires this in items && Family(original, items)
      ensures p == original.size - |original.picked - {index}|
    {
      p := original.size - |original.picked|;
      if index != -1 {
        p := p + 1;
      }
    }

    /** Permutation: give the element back, and take the i-th smallest free one, if there are so many. */
    method Permutation(i: nat, ghost items: set<UniqueItem>) returns (ok: bool)
      requires this in items && Family(original, items)
      modifies `index, original`picked
      ensures Family(original, items)
      ensures ok == (i < original.size - |old(original.picked) - {old(index)}|)
      ensures ok ==> NthFree(old(original.picked) - {old(index)}, original.size, i, index)
      ensures !ok ==> index == -1
      ensures original.picked == if ok then old(original.picked) - {old(index)} + {index}
          else old(original.picked) - {old(index)}
    {
      Release(items);
      var permutations := Permutations(items);
      assert original.picked - {-1} == original.picked by { PickedInList(original, items); }
      if i >= permutations {
        return false;
      }
      Pick(i, items);
      return true;
    }

    /** Index: an item that holds nothing takes the smallest free element. */
    method Index(ghost items: set<UniqueItem>) returns (k: int)
      requires this in items && Family(original, items)
      requires index == -1 ==> Room()
      modifies `index, original`picked
      ensures Family(original, items) && k == index && 0 <= k < original.size
      ensures old(index) != -1 ==> index == old(index) && original.picked == old(original.picked)
      ensures old(index) == -1 ==>
          NthFree(old(original.picked), original.size, 0, k) && original.picked == old(original.picked) + {k}
    {
      if index == -1 {
        Pick(0, items);
      }
      k := index;
    }
  }

  lemma {:induction false} PickedInList(o: UniqueItem, items: set<UniqueItem>)
    requires Family(o, items)
    ensures InList(o.picked, o.size)
  {
  }
}
