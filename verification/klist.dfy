/** The list of kernel/klinkedlist.c as one process at a time sees it: the loops of search and
    deleteNode and the relinking of insert, over nodes in pages.  Rcu treats each of their
    loads and stores as a step among other processes' steps; here they run alone. */
module KernelList {
  import opened Sets
  import opened Rcu

  /** head and next spell out `chain`. */
  ghost predicate Spells(chain: seq<int>, head: Ptr, next: map<int, Ptr>, data: map<int, int>) {
    && Distinct(chain) && head == PtrAt(chain, 0) && Known(chain, data)
    && (forall i :: 0 <= i < |chain| ==> chain[i] in next)
    && (forall i {:trigger next[chain[i]]} :: 0 <= i < |chain| ==> next[chain[i]] == PtrAt(chain, i + 1))
  }

  /** Position of the first node with the key, or the length. */
  function FirstWith(chain: seq<int>, data: map<int, int>, key: int): (i: nat)
    requires Known(chain, data)
    ensures i <= |chain| && (i < |chain| ==> data[chain[i]] == key)
    ensures forall k :: 0 <= k < i ==> data[chain[k]] != key
  {
    if chain == [] then 0 else if data[chain[0]] == key then 0 else 1 + FirstWith(chain[1..], data, key)
  }

  lemma {:induction false} SearchFindsFirst(chain: seq<int>, data: map<int, int>, key: int)
    requires Known(chain, data)
    ensures Search(chain, data, key) == PtrAt(chain, FirstWith(chain, data, key))
  {
    if chain != [] && data[chain[0]] != key {
      SearchFindsFirst(chain[1..], data, key);
      assert PtrAt(chain[1..], FirstWith(chain[1..], data, key)) == PtrAt(chain, FirstWith(chain, data, key));
    }
  }

  class List {
    var head: Ptr
    var next: map<int, Ptr>
    var data: map<int, int>
    var free: set<int>
    ghost var chain: seq<int>

    ghost predicate Valid()
      reads this
    {
      Spells(chain, head, next, data) && forall i :: 0 <= i < |chain| ==> chain[i] !in free
    }

    /** init_list on a page from kalloc. */
    constructor (n: int, pages: set<int>)
      ensures Valid() && chain == [n] && data == map[n := 0] && free == pages - {n}
    {
      head, next, data, free := At(n), map[n := Null], map[n := 0], pages - {n};
      chain := [n];
    }

    /** insert: a page off the free list becomes the new head. */
    method Insert(n: int, v: int)
      requires Valid() && n in free
      modifies this
      ensures Valid() && chain == [n] + old(chain) && free == old(free) - {n}
      ensures data == old(data)[n := v]
    {
      free := free - {n};
      data := data[n := v];
      next := next[n := head];
      head := At(n);
      chain := [n] + chain;
      forall i | 0 <= i < |chain| ensures next[chain[i]] == PtrAt(chain, i + 1) {
        if i > 0 { assert old(next)[old(chain)[i - 1]] == PtrAt(old(chain), i); }
      }
    }

    /** search answers as Search does on the list. */
    method SearchFor(key: int) returns (current: Ptr)
      requires Valid()
      ensures current == Search(chain, data, key)
    {
      current := head;
      ghost var i := 0;
      while current != Null
        invariant 0 <= i <= |chain| && current == PtrAt(chain, i)
        invariant forall k :: 0 <= k < i ==> data[chain[k]] != key
        decreases |chain| - i
      {
        if data[current.node] == key { break; }
        assert next[chain[i]] == PtrAt(chain, i + 1);
        current := next[current.node];
        i := i + 1;
      }
      SearchFindsFirst(chain, data, key);
      assert FirstWith(chain, data, key) == i;
    }

    /** deleteNode: the first node with the key leaves the list and its page becomes free. */
    method DeleteNode(key: int)
      requires Valid()
      modifies this
      ensures Valid()
      ensures var i := FirstWith(old(chain), old(data), key);
        if i == |old(chain)| then chain == old(chain) && free == old(free) && data == old(data)
        else
          && chain == Drop(old(chain), i) && free == old(free) + {old(chain)[i]}
          && data == old(data) - {old(chain)[i]}
    {
      var temp, prev := head, Null;
      ghost var i := 0;
      while temp != Null && data[temp.node] != key
        invariant 0 <= i <= |chain| && temp == PtrAt(chain, i) && prev == if i == 0 then Null else At(chain[i - 1])
        invariant forall k :: 0 <= k < i ==> data[chain[k]] != key
        decreases |chain| - i
      {
        assert next[chain[i]] == PtrAt(chain, i + 1);
        prev := temp;
        temp := next[temp.node];
        i := i + 1;
      }
      assert FirstWith(chain, data, key) == i;
      if temp == Null { return; }
      Unlink(prev, temp.node, i);
      Kfree(temp.node);
    }

    method Unlink(prev: Ptr, t: int, ghost i: nat)
      requires Valid() && i < |chain| && t == chain[i] && prev == if i == 0 then Null else At(chain[i - 1])
      modifies this`head, this`next, this`chain
      ensures Valid() && chain == Drop(old(chain), i) && t !in chain
    {
      assert next[chain[i]] == PtrAt(chain, i + 1);
      if prev == Null {
        head := next[t];
      } else {
        next := next[prev.node := next[t]];
      }
      DropDistinct(chain, i);
      ghost var was := chain;
      chain := Drop(chain, i);
      forall k | 0 <= k < |chain|
        ensures chain[k] in next && next[chain[k]] == PtrAt(chain, k + 1) && chain[k] in data && chain[k] !in free
      {
        Relink(was, old(next), next, i, k);
        DropAt(was, i, k);
      }
      if |chain| > 0 { DropAt(was, i, 0); }
    }

    method Kfree(n: int)
      requires Valid() && n !in chain
      modifies this`free, this`data, this`next
      ensures Valid() && free == old(free) + {n} && data == old(data) - {n}
    {
      free, data, next := free + {n}, data - {n}, next - {n};
      assert forall i :: 0 <= i < |chain| ==> next[chain[i]] == old(next)[chain[i]];
    }
  }
}
