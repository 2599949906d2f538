/** The user-level allocator (user/umalloc.c): a circular free list in address order.

    Addresses count header-sized units of 16 bytes.  `ring` is the free list from `base` on,
    `sz` the size of every block, free or live, and `arena` the units morecore has counted on.
    `brk` is the process's break, which sbrk moves. */
module UserMalloc {
  import opened Sets

  datatype View = View(ring: seq<int>, sz: map<int, int>, live: set<int>, arena: set<int>)

  type Field = map<int, int>

  // ---------------------------------------------------------------- the ring

  ghost predicate Sorted(ring: seq<int>) {
    forall i, j :: 0 <= i < j < |ring| ==> ring[i] < ring[j]
  }

  function Next(n: nat, i: nat): (k: nat)
    requires i < n
    ensures k < n
  {
    if i + 1 < n then i + 1 else 0
  }

  ghost predicate Link(ring: seq<int>, ptr: Field, i: int) {
    0 <= i < |ring| && ring[i] in ptr && ptr[ring[i]] == ring[Next(|ring|, i)]
  }

  ghost predicate Linked(ring: seq<int>, ptr: Field) {
    forall i :: 0 <= i < |ring| ==> Link(ring, ptr, i)
  }

  function Insert(ring: seq<int>, t: nat, bp: int): (r: seq<int>)
    requires t < |ring|
    ensures |r| == |ring| + 1
    ensures forall i :: 0 <= i < |r| ==> r[i] == if i <= t then ring[i] else if i == t + 1 then bp else ring[i - 1]
  {
    ring[..t + 1] + [bp] + ring[t + 1..]
  }

  function Delete(ring: seq<int>, k: nat): (r: seq<int>)
    requires k < |ring|
    ensures |r| == |ring| - 1 && forall i :: 0 <= i < |r| ==> r[i] == if i < k then ring[i] else ring[i + 1]
  {
    ring[..k] + ring[k + 1..]
  }

  lemma InsertElements(ring: seq<int>, t: nat, bp: int, a: int)
    requires t < |ring|
    ensures a in Insert(ring, t, bp) <==> a in ring || a == bp
  {
    var r := Insert(ring, t, bp);
    if a in ring {
      var k :| 0 <= k < |ring| && ring[k] == a;
      assert r[if k <= t then k else k + 1] == a;
    }
    assert r[t + 1] == bp;
  }

  lemma DeleteElements(ring: seq<int>, k: nat, a: int)
    requires Sorted(ring) && k < |ring|
    ensures a in Delete(ring, k) <==> a in ring && a != ring[k]
  {
    var r := Delete(ring, k);
    if a in ring && a != ring[k] {
      var i :| 0 <= i < |ring| && ring[i] == a;
      assert r[if i < k then i else i - 1] == a;
    }
    if a in r {
      var i :| 0 <= i < |r| && r[i] == a;
      assert a == ring[if i < k then i else i + 1];
    }
  }

  /** bp comes in after index t. */
  lemma InsertLinked(ring: seq<int>, ptr: Field, t: nat, bp: int)
    requires Sorted(ring) && Linked(ring, ptr) && t < |ring| && bp !in ring
    ensures ring[t] in ptr && Linked(Insert(ring, t, bp), ptr[bp := ptr[ring[t]]][ring[t] := bp])
  {
    hide Linked; hide Link;
    forall i | 0 <= i < |ring| ensures Link(ring, ptr, i) { LinkAt(ring, ptr, i); }
    LinkOf(ring, ptr, t);
    var ring', ptr' := Insert(ring, t, bp), ptr[bp := ptr[ring[t]]][ring[t] := bp];
    forall i | 0 <= i < |ring'| ensures Link(ring', ptr', i) { InsertLink(ring, ptr, t, bp, i); }
    AllLinked(ring', ptr');
  }

  lemma LinkAt(ring: seq<int>, ptr: Field, i: int)
    requires Linked(ring, ptr) && 0 <= i < |ring|
    ensures Link(ring, ptr, i)
  {
  }

  lemma LinkOf(ring: seq<int>, ptr: Field, i: int)
    requires Link(ring, ptr, i)
    ensures ring[i] in ptr && ptr[ring[i]] == ring[Next(|ring|, i)]
  {
  }

  lemma AllLinked(ring: seq<int>, ptr: Field)
    requires forall i :: 0 <= i < |ring| ==> Link(ring, ptr, i)
    ensures Linked(ring, ptr)
  {
  }

  lemma InsertLink(ring: seq<int>, ptr: Field, t: nat, bp: int, i: int)
    requires Sorted(ring) && t < |ring| && bp !in ring && 0 <= i <= |ring| && Link(ring, ptr, t)
    requires Link(ring, ptr, if i <= t then i else i - 1)
    ensures Link(Insert(ring, t, bp), ptr[bp := ptr[ring[t]]][ring[t] := bp], i)
  {
  }

  /** Index k goes out. */
  lemma DeleteLinked(ring: seq<int>, ptr: Field, k: nat)
    requires Sorted(ring) && Linked(ring, ptr) && 0 < k < |ring|
    ensures ring[k] in ptr && Linked(Delete(ring, k), ptr[ring[k - 1] := ptr[ring[k]]])
  {
    hide Linked; hide Link;
    forall i | 0 <= i < |ring| ensures Link(ring, ptr, i) { LinkAt(ring, ptr, i); }
    LinkOf(ring, ptr, k);
    var ring', ptr' := Delete(ring, k), ptr[ring[k - 1] := ptr[ring[k]]];
    forall i | 0 <= i < |ring'| ensures Link(ring', ptr', i) { DeleteLink(ring, ptr, k, i); }
    AllLinked(ring', ptr');
  }

  lemma DeleteLink(ring: seq<int>, ptr: Field, k: nat, i: int)
    requires Sorted(ring) && 0 < k < |ring| && 0 <= i < |ring| - 1 && Link(ring, ptr, k)
    requires Link(ring, ptr, if i < k then i else i + 1)
    ensures Link(Delete(ring, k), ptr[ring[k - 1] := ptr[ring[k]]], i)
  {
  }

  lemma InsertSorted(ring: seq<int>, t: nat, bp: int)
    requires Sorted(ring) && t < |ring| && ring[t] < bp && (t + 1 < |ring| ==> bp < ring[t + 1])
    ensures Sorted(Insert(ring, t, bp)) && bp !in ring
  {
    forall i | 0 <= i < |ring| ensures if i <= t then ring[i] < bp else bp < ring[i] {
      assert i < t ==> ring[i] < ring[t];
      assert i > t + 1 ==> ring[t + 1] < ring[i];
    }
  }

  lemma DeleteSorted(ring: seq<int>, k: nat)
    requires Sorted(ring) && k < |ring|
    ensures Sorted(Delete(ring, k))
  {
  }

  // ---------------------------------------------------------------- blocks

  ghost predicate Disjoint(sz: map<int, int>) {
    forall a, b :: a in sz && b in sz && a < b ==> a + sz[a] <= b
  }

  predicate InBlock(sz: map<int, int>, a: int, u: int) { a in sz && a <= u < a + sz[a] }

  /** The units of the blocks are those of the arena. */
  ghost predicate Covers(sz: map<int, int>, arena: set<int>) {
    forall u :: u in arena <==> exists a :: InBlock(sz, a, u)
  }

  /** Headers tell the size of their block; blocks lie above base. */
  ghost predicate Headers(base: int, size: Field, v: View) {
    && base in size && size[base] == 0
    && forall a :: a in v.sz ==> a in size && size[a] == v.sz[a] >= 1 && base < a
  }

  /** The ring is base and the blocks not live. */
  ghost predicate Members(base: int, v: View) {
    && |v.ring| > 0 && v.ring[0] == base && base !in v.sz
    && (forall a :: a in v.ring && a != base ==> a in v.sz && a !in v.live)
    && (forall a :: a in v.sz && a !in v.live ==> a in v.ring)
    && (forall a :: a in v.live ==> a in v.sz)
  }

  ghost predicate Heap(base: int, ptr: Field, size: Field, v: View) {
    && Sorted(v.ring) && Linked(v.ring, ptr) && Disjoint(v.sz) && Covers(v.sz, v.arena) && Headers(base, size, v)
    && Members(base, v)
  }

  /** No free block ends where the next begins, save at indices lo .. hi. */
  ghost predicate Apart(ring: seq<int>, size: Field, lo: int, hi: int) {
    forall i :: 0 <= i < |ring| - 1 && !(lo <= i < hi) && ring[i] in size ==> ring[i] + size[ring[i]] < ring[i + 1]
  }

  /** A live block joins the ring. */
  ghost function Released(v: View, t: nat, bp: int): (r: View)
    requires t < |v.ring|
  {
    v.(ring := Insert(v.ring, t, bp), live := v.live - {bp})
  }

  lemma ReleaseMembers(base: int, v: View, t: nat, bp: int)
    requires Members(base, v) && t < |v.ring| && bp in v.live
    ensures Members(base, Released(v, t, bp))
  {
    forall a ensures a in Insert(v.ring, t, bp) <==> a in v.ring || a == bp { InsertElements(v.ring, t, bp, a); }
  }

  lemma ReleaseApart(ring: seq<int>, size: Field, t: nat, bp: int)
    requires Apart(ring, size, 0, 0) && t < |ring|
    ensures Apart(Insert(ring, t, bp), size, t, t + 2)
  {
    var r := Insert(ring, t, bp);
    forall i | 0 <= i < |r| - 1 && !(t <= i < t + 2) && r[i] in size ensures r[i] + size[r[i]] < r[i + 1] {
      if i < t { assert r[i] == ring[i]; } else { assert r[i] == ring[i - 1] && r[i + 1] == ring[i - 1 + 1]; }
    }
  }

  lemma Release(base: int, ptr: Field, size: Field, v: View, t: nat, bp: int)
    requires Heap(base, ptr, size, v) && Apart(v.ring, size, 0, 0) && bp in v.live
    requires t < |v.ring| && v.ring[t] < bp && (t + 1 < |v.ring| ==> bp < v.ring[t + 1])
    ensures v.ring[t] in ptr
    ensures Heap(base, ptr[bp := ptr[v.ring[t]]][v.ring[t] := bp], size, Released(v, t, bp))
    ensures Apart(Insert(v.ring, t, bp), size, t, t + 2)
  {
    hide Sorted; hide Linked; hide Members; hide Apart; hide Covers; hide Disjoint;
    InsertSorted(v.ring, t, bp);
    InsertLinked(v.ring, ptr, t, bp);
    ReleaseMembers(base, v, t, bp);
    ReleaseApart(v.ring, size, t, bp);
  }

  /** Two neighbours in the ring become one block. */
  ghost function Merged(v: View, i: nat): (r: View)
    requires i + 1 < |v.ring| && v.ring[i] in v.sz && v.ring[i + 1] in v.sz
  {
    var a, b := v.ring[i], v.ring[i + 1];
    v.(ring := Delete(v.ring, i + 1), sz := (v.sz - {b})[a := v.sz[a] + v.sz[b]])
  }

  lemma MergeMembers(base: int, v: View, i: nat)
    requires Members(base, v) && Sorted(v.ring) && 0 < i && i + 1 < |v.ring|
    ensures v.ring[i] in v.sz && v.ring[i + 1] in v.sz && Members(base, Merged(v, i))
  {
    hide Sorted;
    InRing(base, v, i);
    InRing(base, v, i + 1);
    forall a
      ensures a in Delete(v.ring, i + 1) <==> a in v.ring && a != v.ring[i + 1]
    {
      DeleteElements(v.ring, i + 1, a);
    }
  }

  lemma InRing(base: int, v: View, i: nat)
    requires Members(base, v) && Sorted(v.ring) && 0 < i < |v.ring|
    ensures v.ring[i] in v.sz && v.ring[i] !in v.live && v.ring[i] != base
  {
    var a := v.ring[i];
    assert v.ring[0] < a && a in v.ring;
  }

  lemma MergeApart(ring: seq<int>, size: Field, i: nat, lo: int, x: int)
    requires Sorted(ring) && 0 < i && i + 1 < |ring| && Apart(ring, size, lo, i + 1) && lo <= i && ring[i + 1] in size
    requires ring[i] + x == ring[i + 1] + size[ring[i + 1]]
    ensures Apart(Delete(ring, i + 1), size[ring[i] := x], lo, i)
  {
    var r, size' := Delete(ring, i + 1), size[ring[i] := x];
    forall k | 0 <= k < |r| - 1 && !(lo <= k < i) && r[k] in size' ensures r[k] + size'[r[k]] < r[k + 1] {
      if k < i { assert r[k] == ring[k] && ring[k] != ring[i]; }
      else if k == i { assert ring[i + 1] + size[ring[i + 1]] < ring[i + 1 + 1]; }
      else { assert r[k] == ring[k + 1] && r[k + 1] == ring[k + 1 + 1]; }
    }
  }

  lemma MergeHeaders(base: int, size: Field, v: View, i: nat)
    requires Headers(base, size, v) && Disjoint(v.sz) && i + 1 < |v.ring| && v.ring[i] in v.sz && v.ring[i + 1] in v.sz
    requires v.ring[i] + v.sz[v.ring[i]] == v.ring[i + 1]
    ensures Headers(base, size[v.ring[i] := v.sz[v.ring[i]] + v.sz[v.ring[i + 1]]], Merged(v, i))
  {
  }

  lemma Merge(base: int, ptr: Field, size: Field, v: View, i: nat, lo: int)
    requires Heap(base, ptr, size, v) && 0 < i && i + 1 < |v.ring| && Apart(v.ring, size, lo, i + 1) && lo <= i
    requires v.ring[i] in v.sz && v.ring[i] + v.sz[v.ring[i]] == v.ring[i + 1]
    ensures v.ring[i + 1] in ptr && v.ring[i + 1] in v.sz && v.ring[i + 1] in size && v.ring[i] in size
    ensures var a, b := v.ring[i], v.ring[i + 1];
      var size' := size[a := size[a] + size[b]];
      Heap(base, ptr[a := ptr[b]], size', Merged(v, i)) && Apart(Delete(v.ring, i + 1), size', lo, i)
  {
    hide Sorted; hide Linked; hide Members; hide Apart; hide Covers; hide Disjoint; hide Delete;
    DeleteSorted(v.ring, i + 1);
    DeleteLinked(v.ring, ptr, i + 1);
    MergeMembers(base, v, i);
    MergedCovers(v.sz, v.arena, v.ring[i], v.ring[i + 1]);
    MergeHeaders(base, size, v, i);
    MergeApart(v.ring, size, i, lo, v.sz[v.ring[i]] + v.sz[v.ring[i + 1]]);
  }

  lemma MergedCovers(sz: map<int, int>, arena: set<int>, a: int, b: int)
    requires Disjoint(sz) && Covers(sz, arena) && a in sz && b in sz && a + sz[a] == b && sz[a] > 0 && sz[b] > 0
    ensures var sz' := (sz - {b})[a := sz[a] + sz[b]]; Disjoint(sz') && Covers(sz', arena)
  {
    var sz' := (sz - {b})[a := sz[a] + sz[b]];
    forall u ensures u in arena <==> exists c :: InBlock(sz', c, u) {
      if u in arena {
        var c :| InBlock(sz, c, u);
        assert InBlock(sz', if c == b then a else c, u);
      }
      if c :| InBlock(sz', c, u) {
        assert InBlock(sz, if c == a && u >= b then b else c, u);
      }
    }
  }

  // ---------------------------------------------------------------- the allocator

  /** The live blocks that both states have are the same. */
  ghost predicate Keeps(v: View, v': View) {
    forall a :: a in v.live && a in v'.live && a in v.sz ==> a in v'.sz && v'.sz[a] == v.sz[a]
  }

  /** A free block of at least n units. */
  ghost predicate Has(ring: seq<int>, size: Field, n: int) {
    exists k :: 0 <= k < |ring| && ring[k] in size && size[ring[k]] >= n
  }

  /** The gap of the ring where an address belongs. */
  lemma {:induction false} Slot(ring: seq<int>, bp: int) returns (t: nat)
    requires Sorted(ring) && |ring| > 0 && ring[0] < bp && bp !in ring
    ensures t < |ring| && forall i :: 0 <= i < |ring| ==> if i <= t then ring[i] < bp else bp < ring[i]
  {
    t := 0;
    while t + 1 < |ring| && ring[t + 1] < bp
      invariant t < |ring| && forall i :: 0 <= i <= t ==> ring[i] < bp
    {
      t := t + 1;
    }
    if t + 1 < |ring| {
      assert ring[t + 1] != bp;
    }
  }

  /** nunits for a request, and the units morecore asks for. */
  function UnitsFor(nbytes: int): (n: int) { (nbytes + 15) / 16 + 1 }

  function Grant(nu: int): (n: int) { if nu < 4096 then 4096 else nu }

  ghost function Units(at: int, n: int): (s: set<int>) { Range(at, at + n) }

  /** The element k steps round from index f. */
  function At(ring: seq<int>, f: nat, k: nat): (p: int)
    requires f < |ring| && k <= |ring|
  {
    ring[if f + k < |ring| then f + k else f + k - |ring|]
  }

  ghost predicate Small(ring: seq<int>, size: Field, f: nat, k: nat, n: int)
    requires f < |ring| && k <= |ring|
  {
    forall j :: 1 <= j < k ==> At(ring, f, j) in size && size[At(ring, f, j)] < n
  }

  class Allocator {
    const base: int
    var ptr: Field
    var size: Field
    var freep: int
    var brk: int
    ghost var v: View

    ghost predicate Ready()
      reads this
    {
      Heap(base, ptr, size, v) && Apart(v.ring, size, 0, 0) && freep in v.ring
    }

    ghost predicate Valid()
      reads this
    {
      && 0 < base
      && if freep == 0 then v.ring == [] && v.sz == map[] && v.live == {} && v.arena == {} else Ready()
    }

    /** All that the allocator counts on lies below the break. */
    ghost predicate Backed()
      reads this
    {
      base < brk && forall u :: u in v.arena ==> u < brk
    }

    constructor (b: int, end: int)
      requires 0 < b < end
      ensures Valid() && Backed() && base == b && freep == 0 && v.live == {} && v.ring == [] && v.arena == {}
      ensures brk == end
    {
      base, ptr, size, freep, brk := b, map[], map[], 0, end;
      v := View([], map[], {}, {});
    }

    /** sbrk(n) as sys_sbrk and growproc do it: the old break, or -1 when it is to go up and
        there is no memory. */
    method Sbrk(n: int, memory: bool) returns (p: int)
      requires n % 16 == 0 && 0 < brk
      modifies this`brk
      ensures p == if n > 0 && !memory then -1 else old(brk)
      ensures brk == if n > 0 && !memory then old(brk) else MovedBreak(old(brk), n)
    {
      p := brk;
      if n > 0 {
        if !memory { return -1; }
        brk := brk + n / 16;
      } else if n < 0 {
        // sz + n wraps when it would be negative, and then nothing goes
        if brk + n / 16 >= 0 { brk := brk + n / 16; }
      }
    }

    /** free(bp + 1): the block is free and joined with the free blocks it touches. */
    method Free(bp: int)
      requires Valid() && bp in v.live
      modifies this`ptr, this`size, this`freep, this`v
      ensures Valid() && freep != 0 && v.live == old(v.live) - {bp} && v.arena == old(v.arena)
      ensures Keeps(old(v), v) && bp in old(v.sz) && Has(v.ring, size, old(v.sz)[bp])
      ensures Spread(old(v), v, bp, old(v.sz)[bp])
    {
      hide Spread; hide Linked; hide Apart; hide Heap; hide Link; hide Sorted; hide Keeps;
      FreeStart(base, ptr, size, v, bp);
      ghost var t := Slot(v.ring, bp);
      var p := freep;
      ghost var i :| 0 <= i < |v.ring| && v.ring[i] == p;
      LinkAt(v.ring, ptr, i);
      LinkOf(v.ring, ptr, i);
      while !(bp > p && bp < ptr[p])
        invariant 0 <= i < |v.ring| && v.ring[i] == p && Link(v.ring, ptr, i) && unchanged(this)
        invariant p in ptr && ptr[p] == v.ring[Next(|v.ring|, i)]
        decreases if i <= t then t - i else t + |v.ring| - i
      {
        if p >= ptr[p] && (bp > p || bp < ptr[p]) { break; }
        WalkOn(v.ring, ptr, bp, t, i);
        p := ptr[p];
        i := Next(|v.ring|, i);
        LinkAt(v.ring, ptr, i);
        LinkOf(v.ring, ptr, i);
      }
      Arrived(v.ring, ptr, bp, t, i);
      Join(p, bp, t);
      freep := p;
    }

    /** morecore: at least nu units from sbrk, which is asked for ToInt of their bytes.  The store
        of the new header faults, and the kernel kills the process, when sbrk has left its page
        unmapped.  What joins the heap lies below the break exactly when nu is below 2^27. */
    method Morecore(nu: int, memory: bool) returns (r: Outcome)
      requires Valid() && Backed() && freep != 0 && 0 < nu <= 0x1000_0001
      modifies this
      ensures Valid() && freep != 0 && v.live == old(v.live)
      ensures r.Null? <==> !memory && ToInt(Grant(nu) * 16) > 0
      ensures r.Null? ==> unchanged(this)
      ensures !r.Null? ==>
        brk == MovedBreak(old(brk), ToInt(Grant(nu) * 16)) && (r.Killed? <==> !Touchable(brk, old(brk)))
      ensures r.Killed? ==> v == old(v)
      ensures r.Given? ==>
        && r.p == freep && Keeps(old(v), v) && Has(v.ring, size, nu) && Spread(old(v), v, old(brk), Grant(nu))
        && v.arena == old(v.arena) + Units(old(brk), Grant(nu)) && (Backed() <==> nu < 0x800_0000)
    {
      hide Heap; hide Apart; hide Keeps; hide Has; hide Spread; hide ToInt; hide Units; hide Touchable;
      var n := if nu < 4096 then 4096 else nu;
      SbrkArgument(n);
      var at := Sbrk(ToInt(n * 16), memory);
      if at == -1 { return Null; }
      if !Touchable(brk, at) { return Killed; }
      ghost var v0 := v;
      NewBlock(base, ptr, size, v, freep, at, n);
      size := size[at := n];
      v := Granted(v, at, n);
      ghost var v1 := v;
      Free(at);
      assert v.live == v0.live;
      HasLess(v.ring, size, n, nu);
      KeepsTrans(v0, v1, v);
      SpreadNew(v0, at, n, v);
      Reaches(v0.arena, at, n, brk);
      return Given(freep);
    }

    /** malloc: a block of exactly the units asked for, out of a free block if one is large
        enough and else out of a new one.  It lies below the break if it is not out of a new one
        or is below 2^27 units, and only then; but every header is in a mapped page, so only
        morecore's store can fault. */
    method Malloc(nbytes: int, memory: bool) returns (r: Outcome)
      requires Valid() && Backed() && 0 <= nbytes < 0x1_0000_0000
      modifies this
      ensures Valid() && freep != 0
      ensures var n, had := UnitsFor(nbytes), old(Has(v.ring, size, UnitsFor(nbytes)));
        && (r.Null? <==> !had && !memory && ToInt(Grant(n) * 16) > 0)
        && (r.Killed? <==> !had && !r.Null? && !Touchable(MovedBreak(old(brk), ToInt(Grant(n) * 16)), old(brk)))
        && brk == (if had || r.Null? then old(brk) else MovedBreak(old(brk), ToInt(Grant(n) * 16)))
      ensures !r.Given? ==> v.live == old(v.live) && v.arena == old(v.arena)
      ensures r.Given? ==>
        && r.p - 1 !in old(v.live) && v.live == old(v.live) + {r.p - 1} && Keeps(old(v), v)
        && r.p - 1 in v.sz && v.sz[r.p - 1] == UnitsFor(nbytes) && (forall a :: a in v.sz ==> Touchable(brk, a))
      ensures r.Given? ==>
        var n, had := UnitsFor(nbytes), old(Has(v.ring, size, UnitsFor(nbytes)));
        && v.arena == (if had then old(v.arena) else old(v.arena) + Units(old(brk), Grant(n)))
        && (r.p - 1 + n <= brk <==> had || n < 0x800_0000) && (Backed() <==> had || n < 0x800_0000)
    {
      hide Heap; hide Apart; hide Keeps; hide Has; hide Spread; hide ToInt; hide Units; hide Only; hide MovedBreak;
      hide Touchable; hide Low;
      var nunits := UnitsFor(nbytes);
      var prevp := freep;
      ghost var had := Has(v.ring, size, nunits);
      NoBlock(size, nunits);
      if prevp == 0 {
        freep, prevp := base, base;
        ptr := ptr[base := base];
        size := size[base := 0];
        v := v.(ring := [base]);
        FirstRing(base, ptr, size, v, nunits);
      }
      ghost var v0 := v;
      ghost var k, f := Enter(base, ptr, size, v, freep);
      KeepsRefl(v);
      KeepsSame(old(v), v0);
      var p := ptr[prevp];
      ghost var grown := false;
      while true
        invariant Ready() && freep != 0 && 0 < base
        invariant 0 <= f < |v.ring| && v.ring[f] == freep && 1 <= k <= |v.ring| && prevp == At(v.ring, f, k - 1)
        invariant p == At(v.ring, f, k)
        invariant Small(v.ring, size, f, k, nunits)
        invariant v.live == v0.live && Keeps(v0, v)
        invariant !grown ==> v.arena == v0.arena && brk == old(brk) && (had <==> Has(v.ring, size, nunits))
        invariant grown ==> Has(v.ring, size, nunits) && !had && (memory || ToInt(Grant(nunits) * 16) <= 0)
        invariant grown ==> Touchable(brk, old(brk)) && Low(v, old(brk))
        invariant grown ==>
          v.arena == v0.arena + Units(old(brk), Grant(nunits)) && brk == MovedBreak(old(brk), ToInt(Grant(nunits) * 16))
        invariant grown ==> Only(v, old(brk), Grant(nunits), nunits) && (Backed() <==> nunits < 0x800_0000)
        decreases !grown, |v.ring| - k
      {
        Here(base, ptr, size, v, f, k);
        if size[p] >= nunits {
          ghost var v1 := v;
          ghost var i := Pred(base, ptr, size, v, f, k);
          HasIt(v.ring, size, nunits, i);
          FreeBlock(base, ptr, size, v, i);
          p := Give(prevp, p, nunits, i);
          KeepsTrans(v0, v1, v);
          KeepsTrans(old(v), v0, v);
          Handed(base, ptr, size, v, p, nunits, brk);
          if grown {
            HandedNew(v1, old(brk), nunits, v1.ring[i], brk, ToInt(Grant(nunits) * 16));
            if nunits >= 0x800_0000 {
              Tail(base, ptr, size, v, old(v.arena), old(brk), p, nunits);
              LowTouchable(v1, v, p, old(brk), brk);
            }
          }
          if !grown || nunits < 0x800_0000 { BackedTouchable(base, ptr, size, v, brk); }
          return Given(p + 1);
        }
        if p == freep {
          Around(base, ptr, size, v, f, k, nunits);
          ghost var v1, ptr1, size1 := v, ptr, size;
          var more := Morecore(nunits, memory);
          if more.Null? { return Null; }
          if more.Killed? { return Killed; }
          p := more.p;
          KeepsTrans(v0, v1, v);
          SpreadLow(base, ptr1, size1, v1, v, old(brk), Grant(nunits));
          NewOnly(base, ptr1, size1, v1, v, old(brk), nunits);
          grown := true;
          k, f := Enter(base, ptr, size, v, freep);
        } else {
          Onward(base, ptr, size, v, f, k, nunits);
          k := k + 1;
        }
        prevp := p;
        p := ptr[p];
      }
    }

    /** malloc's block, once found: the whole of p or its tail. */
    method Give(prevp: int, p: int, nunits: int, ghost i: nat) returns (q: int)
      requires Ready() && 0 < base && 0 < i < |v.ring| && v.ring[i] == p && v.ring[i - 1] == prevp >= base && 0 < nunits
      requires p in v.sz && p in size && v.sz[p] == size[p] >= nunits
      modifies this`ptr, this`size, this`freep, this`v
      ensures Valid() && freep != 0 && q > 0 && q !in old(v.live) && v.live == old(v.live) + {q} && q in v.sz
      ensures v.sz[q] == nunits
      ensures Keeps(old(v), v) && v.arena == old(v.arena) && q + nunits == p + old(v.sz)[p]
      ensures forall a :: a in v.sz ==> a in old(v.sz) || a == q
    {
      hide Heap; hide Apart; hide Keeps;
      q := p;
      if size[q] == nunits {
        Take(base, ptr, size, v, i);
        ptr := ptr[prevp := ptr[q]];
        v := Taken(v, i);
      } else {
        Carve(base, ptr, size, v, i, nunits);
        v := Carved(v, i, nunits);
        size := size[q := size[q] - nunits];
        q := q + size[q];
        size := size[q := nunits];
      }
      freep := prevp;
    }

    /** The part of free after its loop. */
    method Join(p: int, bp: int, ghost t: nat)
      requires Valid() && freep != 0 && bp in v.live && t < |v.ring| && p == v.ring[t] && p < bp
      requires t + 1 < |v.ring| ==> bp < v.ring[t + 1]
      modifies this`ptr, this`size, this`v
      ensures Heap(base, ptr, size, v) && Apart(v.ring, size, 0, 0) && p in v.ring && v.live == old(v.live) - {bp}
      ensures v.arena == old(v.arena)
      ensures Keeps(old(v), v) && bp in old(v.sz) && Has(v.ring, size, old(v.sz)[bp])
      ensures Spread(old(v), v, bp, old(v.sz)[bp])
    {
      hide Heap; hide Apart; hide Keeps; hide Spread;
      ghost var v0 := v;
      JoinRight(p, bp, t);
      ghost var v1 := v;
      Touching(base, ptr[p := bp], size, v, t);
      if p + size[p] == bp {
        Merge(base, ptr[p := bp], size, v, t, t);
        MergeKeeps(base, ptr[p := bp], size, v, t);
        SpreadMerge(v0, v, t, bp, v0.sz[bp]);
        ghost var ptr' := ptr[p := bp];
        assert ptr[p := ptr[bp]] == ptr'[p := ptr'[bp]];
        size := size[p := size[p] + size[bp]];
        ptr := ptr[p := ptr[bp]];
        v := Merged(v, t);
      } else {
        Narrow(base, ptr[p := bp], size, v, t, t);
        ptr := ptr[p := bp];
        assert v.ring[t + 1] == bp;
        KeepsRefl(v);
      }
      assert v.ring[t] == p;
      KeepsTrans(v0, v1, v);
      ApartAll(v.ring, size, t);
    }

    /** bp takes its place in the list and swallows the block above if it touches it. */
    method JoinRight(p: int, bp: int, ghost t: nat)
      requires Valid() && freep != 0 && bp in v.live && t < |v.ring| && p == v.ring[t] && p < bp
      requires t + 1 < |v.ring| ==> bp < v.ring[t + 1]
      modifies this`ptr, this`size, this`v
      ensures Heap(base, ptr[p := bp], size, v) && Apart(v.ring, size, t, t + 1) && t + 1 < |v.ring| && v.ring[t] == p
      ensures v.ring[t + 1] == bp && bp in ptr
      ensures v.live == old(v.live) - {bp} && v.arena == old(v.arena)
      ensures Keeps(old(v), v) && bp in old(v.sz) && bp in v.sz && bp in size && size[bp] == v.sz[bp] >= old(v.sz)[bp]
      ensures Spread(old(v), v, bp, old(v.sz)[bp])
    {
      hide Heap; hide Apart; hide Keeps; hide Spread;
      ghost var v0 := v;
      Release(base, ptr, size, v, t, bp);
      Gap(base, ptr, size, v, t, bp);
      ghost var ptrA := ptr[bp := ptr[p]][p := bp];
      var nxt := ptr[p];
      v := Released(v, t, bp);
      KeepsSame(v0, v);
      SpreadSame(v0, v, bp);
      if bp + size[bp] == nxt {
        ghost var v1 := v;
        Swallow(base, ptr, size, v0, v, t, p, bp, nxt);
        size := size[bp := size[bp] + size[nxt]];
        ptr := ptr[bp := ptr[nxt]];
        v := Merged(v, t + 1);
        KeepsTrans(v0, v1, v);
      } else {
        Narrow(base, ptrA, size, v, t + 1, t);
        ptr := ptr[bp := nxt];
      }
    }
  }

  /** bp, now in the ring behind p, takes in the block above it. */
  lemma Swallow(base: int, ptr: Field, size: Field, v0: View, v: View, t: nat, p: int, bp: int, nxt: int)
    requires p in ptr && ptr[p] == nxt && Heap(base, ptr[bp := nxt][p := bp], size, v) && p != bp
    requires Apart(v.ring, size, t, t + 2) && t + 1 < |v.ring| && v.ring[t] == p && v.ring[t + 1] == bp && base < bp
    requires t + 2 < |v.ring| ==> nxt == v.ring[t + 2]
    requires t + 2 == |v.ring| ==> nxt == base
    requires bp in v0.sz && v.sz == v0.sz && bp in size && size[bp] == v.sz[bp] >= 1 && bp + size[bp] == nxt
    ensures t + 2 < |v.ring| && nxt in size && nxt in ptr && bp in v.sz && nxt in v.sz
    ensures var size' := size[bp := size[bp] + size[nxt]];
      && Heap(base, ptr[bp := ptr[nxt]][p := bp], size', Merged(v, t + 1))
      && Apart(Merged(v, t + 1).ring, size', t, t + 1)
    ensures Keeps(v, Merged(v, t + 1)) && Spread(v0, Merged(v, t + 1), bp, v0.sz[bp])
    ensures var w := Merged(v, t + 1); bp in w.sz && w.sz[bp] == size[bp] + size[nxt] >= v0.sz[bp]
    ensures forall a :: a in v.live ==> a in v.sz
  {
    hide Heap; hide Apart; hide Keeps; hide Spread;
    var ptrA := ptr[bp := nxt][p := bp];
    SpreadSame(v0, v, bp);
    Merge(base, ptrA, size, v, t + 1, t);
    MergeKeeps(base, ptrA, size, v, t + 1);
    SpreadMerge(v0, v, t + 1, bp, v0.sz[bp]);
    NotSelf(base, ptrA, size, v, t);
    assert ptrA[bp := ptrA[nxt]] == ptr[bp := ptr[nxt]][p := bp];
  }

  lemma NotSelf(base: int, ptr: Field, size: Field, v: View, t: nat)
    requires Heap(base, ptr, size, v) && t + 2 < |v.ring|
    ensures v.ring[t + 2] != v.ring[t] && v.ring[t + 2] != v.ring[t + 1]
  {
  }

  lemma KeepsRefl(v: View)
    ensures Keeps(v, v)
  {
  }

  lemma KeepsSame(v: View, v': View)
    requires v'.sz == v.sz
    ensures Keeps(v, v')
  {
  }

  lemma KeepsTrans(v0: View, v1: View, v2: View)
    requires Keeps(v0, v1) && Keeps(v1, v2) && (forall a :: a in v0.live && a in v2.live ==> a in v1.live)
    ensures Keeps(v0, v2)
  {
  }

  lemma MergeKeeps(base: int, ptr: Field, size: Field, v: View, i: nat)
    requires Heap(base, ptr, size, v) && 0 < i && i + 1 < |v.ring|
    ensures v.ring[i] in v.sz && v.ring[i + 1] in v.sz && Keeps(v, Merged(v, i))
    ensures forall a :: a in v.live ==> a in v.sz
    ensures v.ring[i] in size && v.ring[i + 1] in size
    ensures size[v.ring[i]] == v.sz[v.ring[i]] >= 1 && size[v.ring[i + 1]] == v.sz[v.ring[i + 1]] >= 1
  {
    hide Sorted; hide Linked; hide Covers; hide Disjoint;
    RingHeader(base, size, v, i);
    RingHeader(base, size, v, i + 1);
  }

  /** The gap bp goes into: what is read of the headers around it. */
  lemma Gap(base: int, ptr: Field, size: Field, v: View, t: nat, bp: int)
    requires Heap(base, ptr, size, v) && bp in v.live && t < |v.ring|
    ensures bp in size && bp in v.sz && size[bp] == v.sz[bp] >= 1 && v.ring[t] in ptr && base < bp
    ensures forall a :: a in v.live ==> a in v.sz
    ensures ptr[v.ring[t]] == if t + 1 < |v.ring| then v.ring[t + 1] else base
  {
    hide Sorted; hide Covers; hide Disjoint;
    LinkAt(v.ring, ptr, t);
    LiveHeader(base, size, v, bp);
  }

  lemma Touching(base: int, ptr: Field, size: Field, v: View, t: nat)
    requires Heap(base, ptr, size, v) && t + 1 < |v.ring|
    ensures v.ring[t] in size && v.ring[t + 1] in size && (forall a :: a in v.live ==> a in v.sz)
    ensures v.ring[t] + size[v.ring[t]] == v.ring[t + 1] ==>
      t > 0 && v.ring[t] in v.sz && v.sz[v.ring[t]] == size[v.ring[t]]
  {
    hide Linked; hide Covers; hide Disjoint;
    RingHeader(base, size, v, t);
    RingHeader(base, size, v, t + 1);
  }

  lemma LiveHeader(base: int, size: Field, v: View, a: int)
    requires Headers(base, size, v) && Members(base, v) && a in v.live
    ensures a in size && a in v.sz && size[a] == v.sz[a] >= 1
  {
  }

  lemma RingHeader(base: int, size: Field, v: View, i: nat)
    requires Headers(base, size, v) && Members(base, v) && Sorted(v.ring) && i < |v.ring|
    ensures v.ring[i] in size && size[v.ring[i]] >= 0
    ensures i > 0 ==> v.ring[i] in v.sz && v.sz[v.ring[i]] == size[v.ring[i]] >= 1
    ensures i == 0 ==> v.ring[i] == base && size[v.ring[i]] == 0
  {
    hide Sorted;
    if i > 0 {
      InRing(base, v, i);
      var a := v.ring[i];
      assert a in v.sz;
    }
  }

  /** Blocks in order that do not touch. */
  lemma Narrow(base: int, ptr: Field, size: Field, v: View, i: nat, lo: int)
    requires Heap(base, ptr, size, v) && i < |v.ring| && Apart(v.ring, size, lo, i + 1) && lo <= i
    requires i + 1 < |v.ring| && v.ring[i] in size ==> v.ring[i] + size[v.ring[i]] != v.ring[i + 1]
    ensures Apart(v.ring, size, lo, i)
  {
    if i + 1 < |v.ring| && v.ring[i] in size {
      RingHeader(base, size, v, i);
      RingHeader(base, size, v, i + 1);
    }
  }

  lemma ApartAll(ring: seq<int>, size: Field, t: int)
    requires Apart(ring, size, t, t)
    ensures Apart(ring, size, 0, 0)
  {
  }

  lemma Arrived(ring: seq<int>, ptr: Field, bp: int, t: nat, i: nat)
    requires Sorted(ring) && t < |ring| && i < |ring| && Link(ring, ptr, i)
    requires forall k :: 0 <= k < |ring| ==> if k <= t then ring[k] < bp else bp < ring[k]
    requires var p := ring[i]; (bp > p && bp < ptr[p]) || (p >= ptr[p] && (bp > p || bp < ptr[p]))
    ensures i == t
  {
    assert ring[0] < bp;
  }

  lemma FreeStart(base: int, ptr: Field, size: Field, v: View, bp: int)
    requires Heap(base, ptr, size, v) && bp in v.live
    ensures Sorted(v.ring) && Linked(v.ring, ptr) && |v.ring| > 0 && v.ring[0] == base < bp && bp !in v.ring
    ensures bp in v.sz
    ensures forall i :: 0 <= i < |v.ring| ==> v.ring[i] >= base
  {
    hide Sorted; hide Linked; hide Covers; hide Disjoint;
    assert bp in v.sz;
    RingAbove(base, size, v);
  }

  lemma RingAbove(base: int, size: Field, v: View)
    requires Headers(base, size, v) && Members(base, v)
    ensures forall i :: 0 <= i < |v.ring| ==> v.ring[i] >= base
  {
    forall i | 0 <= i < |v.ring| ensures v.ring[i] >= base {
      var a := v.ring[i];
      if a != base { assert a in v.ring && a in v.sz; }
    }
  }

  /** While the walk is not at the gap, it goes on. */
  lemma WalkOn(ring: seq<int>, ptr: Field, bp: int, t: nat, i: nat)
    requires Sorted(ring) && t < |ring| && i < |ring| && Link(ring, ptr, i)
    requires forall k :: 0 <= k < |ring| ==> if k <= t then ring[k] < bp else bp < ring[k]
    requires var p := ring[i]; !(bp > p && bp < ptr[p]) && !(p >= ptr[p] && (bp > p || bp < ptr[p]))
    ensures i != t
  {
  }

  // ---------------------------------------------------------------- new memory

  ghost function Granted(v: View, at: int, n: int): (r: View)
  {
    v.(sz := v.sz[at := n], live := v.live + {at}, arena := v.arena + Units(at, n))
  }

  lemma GrantCovers(sz: map<int, int>, arena: set<int>, at: int, n: int)
    requires Disjoint(sz) && Covers(sz, arena) && n > 0 && (forall a :: a in sz ==> sz[a] >= 1)
    requires forall u :: u in arena ==> u < at
    ensures Disjoint(sz[at := n]) && Covers(sz[at := n], arena + Units(at, n)) && at !in sz
  {
    EndsBelow(sz, arena, at);
    GrantDisjoint(sz, at, n);
    hide Disjoint; hide Units; hide InBlock;
    var sz' := sz[at := n];
    forall u ensures u in arena + Units(at, n) <==> exists c :: InBlock(sz', c, u) {
      GrantUnit(sz, arena, at, n, sz', u);
    }
  }

  lemma GrantUnit(sz: map<int, int>, arena: set<int>, at: int, n: int, sz': map<int, int>, u: int)
    requires at !in sz && sz' == sz[at := n] && (u in arena <==> exists a :: InBlock(sz, a, u))
    ensures u in arena + Units(at, n) <==> exists c :: InBlock(sz', c, u)
  {
    if u in arena {
      var c :| InBlock(sz, c, u);
      assert InBlock(sz', c, u);
    } else if u in Units(at, n) {
      assert InBlock(sz', at, u);
    }
    if c :| InBlock(sz', c, u) {
      if c != at { assert InBlock(sz, c, u); }
    }
  }

  lemma GrantDisjoint(sz: map<int, int>, at: int, n: int)
    requires Disjoint(sz) && forall a :: a in sz ==> sz[a] >= 1 && a + sz[a] <= at
    ensures Disjoint(sz[at := n]) && at !in sz
  {
  }

  lemma EndsBelow(sz: map<int, int>, arena: set<int>, at: int)
    requires Covers(sz, arena) && (forall a :: a in sz ==> sz[a] >= 1) && forall u :: u in arena ==> u < at
    ensures forall a :: a in sz ==> a + sz[a] <= at
  {
    forall a | a in sz ensures a + sz[a] <= at {
      assert InBlock(sz, a, a + sz[a] - 1);
      assert a + sz[a] - 1 in arena;
    }
  }

  lemma NewBlock(base: int, ptr: Field, size: Field, v: View, freep: int, at: int, n: int)
    requires Heap(base, ptr, size, v) && Apart(v.ring, size, 0, 0) && n > 0 && base < at
    requires forall u :: u in v.arena ==> u < at
    ensures Heap(base, ptr, size[at := n], Granted(v, at, n)) && Apart(v.ring, size[at := n], 0, 0)
    ensures Keeps(v, Granted(v, at, n)) && at !in v.live && at !in v.sz
    ensures forall a :: a in Granted(v, at, n).live ==> a in Granted(v, at, n).sz
  {
    hide Linked; hide Sorted; hide Covers; hide Disjoint; hide Units;
    GrantCovers(v.sz, v.arena, at, n);
    forall i | 0 <= i < |v.ring| ensures v.ring[i] != at { RingHeader(base, size, v, i); }
    forall i | 0 <= i < |v.ring| - 1 && v.ring[i] in size[at := n]
      ensures v.ring[i] + size[at := n][v.ring[i]] < v.ring[i + 1]
    {
      assert v.ring[i] in size;
    }
  }

  lemma HasLess(ring: seq<int>, size: Field, n: int, m: int)
    requires Has(ring, size, n) && m <= n
    ensures Has(ring, size, m)
  {
  }

  // ---------------------------------------------------------------- what sbrk is asked for

  /** The parameter of sbrk is a 32-bit int. */
  function ToInt(x: int): (y: int) { (x + 0x8000_0000) % 0x1_0000_0000 - 0x8000_0000 }

  /** Unit u lies in a page that is mapped for a process with this break; a page has 256. */
  predicate Touchable(brk: int, u: int) { u / 256 < (brk + 255) / 256 }

  /** What a call gives: a pointer, the null pointer, or nothing because of a page fault. */
  datatype Outcome = Null | Killed | Given(p: int)

  /** Where a granted sbrk(n) leaves the break. */
  function MovedBreak(brk: int, n: int): (b: int) { if n >= 0 || brk + n / 16 >= 0 then brk + n / 16 else brk }

  lemma SbrkArgument(nu: int)
    requires 0 <= nu <= 0x1000_0001
    ensures ToInt(nu * 16) == if nu < 0x800_0000 then nu * 16 else nu * 16 - 0x1_0000_0000
  {
    if nu < 0x800_0000 {
      assert (nu * 16 + 0x8000_0000) / 0x1_0000_0000 == 0;
    } else {
      assert (nu * 16 + 0x8000_0000) / 0x1_0000_0000 == 1;
    }
  }

  /** The break has come past the new units exactly when their bytes fit an int. */
  lemma Reaches(arena: set<int>, at: int, n: int, brk: int)
    requires 4096 <= n <= 0x1000_0001 && brk == MovedBreak(at, ToInt(n * 16)) && forall u :: u in arena ==> u < at
    ensures (forall u :: u in arena + Units(at, n) ==> u < brk) <==> n < 0x800_0000
    ensures n < 0x800_0000 ==> at < brk
    ensures n >= 0x800_0000 ==> brk < at + n
  {
    hide ToInt;
    SbrkArgument(n);
    assert at + n - 1 in arena + Units(at, n);
  }

  /** A block is as it was, or is a new one around bp .. bp+n. */
  ghost predicate Spread(v: View, v': View, bp: int, n: int) {
    forall a :: a in v'.sz ==> (a in v.sz && v'.sz[a] == v.sz[a]) || (a <= bp && bp + n <= a + v'.sz[a])
  }

  lemma SpreadSame(v: View, v': View, bp: int)
    requires v'.sz == v.sz && bp in v.sz
    ensures Spread(v, v', bp, v.sz[bp])
  {
  }

  lemma SpreadMerge(v0: View, v: View, i: nat, bp: int, n: int)
    requires Spread(v0, v, bp, n) && i + 1 < |v.ring| && v.ring[i] in v.sz && v.ring[i + 1] in v.sz && bp in v.sz
    requires v.sz[bp] >= n
    requires bp == v.ring[i] || bp == v.ring[i + 1] == v.ring[i] + v.sz[v.ring[i]]
    requires v.sz[v.ring[i]] >= 0 && v.sz[v.ring[i + 1]] >= 0
    ensures Spread(v0, Merged(v, i), bp, n)
  {
  }

  lemma SpreadNew(v: View, at: int, n: int, v': View)
    requires at !in v.sz && Spread(Granted(v, at, n), v', at, n)
    ensures Spread(v, v', at, n)
  {
  }

  /** The free blocks of m units and more hold at .. at+n. */
  ghost predicate Only(v: View, at: int, n: int, m: int) {
    forall a :: a in v.sz && a !in v.live && v.sz[a] >= m ==> a <= at && at + n <= a + v.sz[a]
  }

  lemma NewOnly(base: int, ptr: Field, size: Field, v: View, v': View, at: int, m: int)
    requires Heap(base, ptr, size, v) && !Has(v.ring, size, m) && v'.live == v.live && Spread(v, v', at, Grant(m))
    ensures Only(v', at, Grant(m), m)
  {
    hide Sorted; hide Linked; hide Covers; hide Disjoint;
    forall a | a in v.sz && a !in v.live ensures v.sz[a] < m {
      var k :| 0 <= k < |v.ring| && v.ring[k] == a;
      assert !(size[v.ring[k]] >= m);
    }
  }

  /** A block handed out below the break, or past it. */
  lemma Handed(base: int, ptr: Field, size: Field, v: View, p: int, n: int, brk: int)
    requires Heap(base, ptr, size, v) && p in v.sz && v.sz[p] == n > 0
    ensures (forall u :: u in v.arena ==> u < brk) ==> p + n <= brk
  {
    assert InBlock(v.sz, p, p + n - 1);
    assert p + n - 1 in v.arena;
  }

  lemma HandedNew(v: View, at: int, n: int, a: int, brk: int, arg: int)
    requires 0 < n <= 0x1000_0001 && Only(v, at, Grant(n), n) && a in v.sz && a !in v.live && v.sz[a] >= n
    requires arg == ToInt(Grant(n) * 16) && brk == MovedBreak(at, arg)
    ensures n >= 0x800_0000 ==> brk < a + v.sz[a]
  {
    hide ToInt;
    SbrkArgument(Grant(n));
  }

  lemma HasIt(ring: seq<int>, size: Field, n: int, i: nat)
    requires i < |ring| && ring[i] in size && size[ring[i]] >= n
    ensures Has(ring, size, n)
  {
  }

  lemma FreeBlock(base: int, ptr: Field, size: Field, v: View, i: nat)
    requires Heap(base, ptr, size, v) && 0 < i < |v.ring|
    ensures v.ring[i] in v.sz && v.ring[i] !in v.live
  {
    hide Sorted; hide Linked; hide Covers; hide Disjoint;
    InRing(base, v, i);
  }

  /** The blocks begin at `at` or below. */
  ghost predicate Low(v: View, at: int) { forall a :: a in v.sz ==> a <= at }

  lemma SpreadLow(base: int, ptr: Field, size: Field, v: View, v': View, at: int, n: int)
    requires Heap(base, ptr, size, v) && Spread(v, v', at, n) && forall u :: u in v.arena ==> u < at
    ensures Low(v', at)
  {
    hide Sorted; hide Linked; hide Members; hide Disjoint;
    forall a | a in v.sz ensures a < at {
      assert InBlock(v.sz, a, a);
      assert a in v.arena;
    }
  }

  /** A new block of the very size asked for begins at the old break, or is the tail of one that
      ends where it ends. */
  lemma Tail(base: int, ptr: Field, size: Field, v: View, arena: set<int>, at: int, q: int, n: int)
    requires Heap(base, ptr, size, v) && q in v.sz && v.sz[q] == n >= 4096
    requires v.arena == arena + Units(at, Grant(n)) && forall u :: u in arena ==> u < at
    ensures q <= at
  {
    assert InBlock(v.sz, q, q + n - 1);
    assert q + n - 1 in v.arena;
  }

  lemma LowTouchable(v: View, v': View, q: int, at: int, brk: int)
    requires Low(v, at) && q <= at && Touchable(brk, at) && forall a :: a in v'.sz ==> a in v.sz || a == q
    ensures forall a :: a in v'.sz ==> Touchable(brk, a)
  {
    forall a | a in v'.sz ensures Touchable(brk, a) { Below(a, at); }
  }

  lemma Below(a: int, b: int)
    requires a <= b
    ensures a / 256 <= b / 256
  {
  }

  lemma BackedTouchable(base: int, ptr: Field, size: Field, v: View, brk: int)
    requires Heap(base, ptr, size, v) && forall u :: u in v.arena ==> u < brk
    ensures forall a :: a in v.sz ==> Touchable(brk, a)
  {
    forall a | a in v.sz ensures Touchable(brk, a) {
      assert InBlock(v.sz, a, a);
      assert a in v.arena;
    }
  }

  /** When the process is killed: for 2^27 to 2^28 units, which make sbrk shrink it, the break
      moves out of the page it was in, or does not move and stands at the beginning of one. */
  lemma KilledIff(brk: int, n: int)
    requires 0 < brk && 0 < n <= 0x1000_0001
    ensures !Touchable(MovedBreak(brk, ToInt(Grant(n) * 16)), brk) <==>
      && 0x800_0000 <= n <= 0x1000_0000
      && (brk % 256 == 0 || brk % 256 <= 0x1000_0000 - n <= brk)
  {
    hide ToInt;
    SbrkArgument(Grant(n));
    var after := MovedBreak(brk, ToInt(Grant(n) * 16));
    PageCovered(after, brk);
  }

  lemma PageCovered(after: int, brk: int)
    ensures Touchable(after, brk) <==> after > brk - brk % 256
  {
  }

  /** A request that fails on a fresh process: 2^28 + 1 units, for which sbrk is asked for 16
      bytes.  They make the header's page real, and malloc hands out a block of which all but
      the first unit lies past the break. */
  method TooLarge(base: int, end: int) returns (m: Allocator, r: Outcome)
    requires 0 < base < end
    ensures m.Valid() && r.Given? && r.p - 1 in m.v.live && r.p - 1 in m.v.sz && m.v.sz[r.p - 1] == 0x1000_0001
    ensures m.brk == end + 1 < r.p - 1 + m.v.sz[r.p - 1] && !m.Backed()
  {
    hide Heap; hide Apart; hide ToInt; hide Touchable;
    m := new Allocator(base, end);
    SbrkArgument(0x1000_0001);
    KilledIff(end, 0x1000_0001);
    NoBlock(m.size, 0x1000_0001);
    r := m.Malloc(0xffff_fff1, true);
  }

  /** The smallest such request: 2^27 units, for which sbrk is asked to shrink by 2^31 bytes.  A
      process smaller than that keeps its break.  It is killed if the break is at the beginning
      of a page, as exec leaves it, and else gets a block past its break. */
  method Wrapped(base: int, end: int, memory: bool) returns (m: Allocator, r: Outcome)
    requires 0 < base < end < 0x800_0000
    ensures m.Valid() && m.brk == end && !r.Null? && (r.Killed? <==> end % 256 == 0)
    ensures r.Given? ==>
      r.p - 1 in m.v.sz && m.v.sz[r.p - 1] == 0x800_0000 && end < r.p - 1 + m.v.sz[r.p - 1] && !m.Backed()
  {
    hide Heap; hide Apart; hide ToInt; hide Touchable;
    m := new Allocator(base, end);
    SbrkArgument(0x800_0000);
    KilledIff(end, 0x800_0000);
    NoBlock(m.size, 0x800_0000);
    r := m.Malloc(0x7fff_ffe1, memory);
  }

  // ---------------------------------------------------------------- taking a block

  lemma FirstRing(base: int, ptr: Field, size: Field, v: View, n: int)
    requires v.ring == [base] && v.sz == map[] && v.live == {} && v.arena == {} && n > 0
    requires base in ptr && ptr[base] == base && base in size && size[base] == 0
    ensures Heap(base, ptr, size, v) && Apart(v.ring, size, 0, 0) && !Has(v.ring, size, n)
  {
  }

  lemma NoBlock(size: Field, n: int)
    ensures !Has([], size, n)
  {
  }

  lemma Enter(base: int, ptr: Field, size: Field, v: View, freep: int) returns (k: nat, f: nat)
    requires Heap(base, ptr, size, v) && freep in v.ring
    ensures k == 1 && f < |v.ring| && v.ring[f] == freep == At(v.ring, f, 0) && freep in ptr
    ensures ptr[freep] == At(v.ring, f, 1)
    ensures forall n :: Small(v.ring, size, f, 1, n)
  {
    k := 1;
    f :| 0 <= f < |v.ring| && v.ring[f] == freep;
    LinkAt(v.ring, ptr, f);
  }

  function Turn(n: nat, f: nat, k: nat): (i: nat)
    requires f < n && k <= n
    ensures i < n
  {
    if f + k < n then f + k else f + k - n
  }

  lemma Here(base: int, ptr: Field, size: Field, v: View, f: nat, k: nat)
    requires Heap(base, ptr, size, v) && f < |v.ring| && k <= |v.ring|
    ensures At(v.ring, f, k) in size && At(v.ring, f, k) in ptr
  {
    hide Sorted; hide Covers; hide Disjoint;
    LinkAt(v.ring, ptr, Turn(|v.ring|, f, k));
    RingHeader(base, size, v, Turn(|v.ring|, f, k));
  }

  lemma Pred(base: int, ptr: Field, size: Field, v: View, f: nat, k: nat) returns (i: nat)
    requires Heap(base, ptr, size, v) && f < |v.ring| && 1 <= k <= |v.ring|
    requires At(v.ring, f, k) in size && size[At(v.ring, f, k)] > 0
    ensures 0 < i < |v.ring| && v.ring[i] == At(v.ring, f, k) && v.ring[i - 1] == At(v.ring, f, k - 1)
    ensures v.ring[i] in v.sz && v.sz[v.ring[i]] == size[v.ring[i]] && v.ring[i - 1] >= base
  {
    hide Sorted; hide Covers; hide Disjoint; hide Linked;
    i := Turn(|v.ring|, f, k);
    RingHeader(base, size, v, i);
    RingAbove(base, size, v);
  }

  ghost function Taken(v: View, i: nat): (r: View)
    requires i < |v.ring|
  {
    v.(ring := Delete(v.ring, i), live := v.live + {v.ring[i]})
  }

  lemma TakeMembers(base: int, v: View, i: nat)
    requires Members(base, v) && Sorted(v.ring) && 0 < i < |v.ring|
    ensures Members(base, Taken(v, i)) && v.ring[i] !in v.live && v.ring[i - 1] in Taken(v, i).ring
  {
    hide Sorted;
    InRing(base, v, i);
    Different(v.ring, i);
    forall a ensures a in Delete(v.ring, i) <==> a in v.ring && a != v.ring[i] { DeleteElements(v.ring, i, a); }
  }

  lemma TakeApart(ring: seq<int>, size: Field, i: nat)
    requires Apart(ring, size, 0, 0) && Sorted(ring) && 0 < i < |ring|
    ensures Apart(Delete(ring, i), size, 0, 0)
  {
    var r := Delete(ring, i);
    forall k | 0 <= k < |r| - 1 && r[k] in size ensures r[k] + size[r[k]] < r[k + 1] {
      if k < i { assert r[k] == ring[k] && ring[k] + size[ring[k]] < ring[k + 1] <= r[k + 1]; }
      else { assert r[k] == ring[k + 1] && r[k + 1] == ring[k + 1 + 1]; }
    }
  }

  lemma Take(base: int, ptr: Field, size: Field, v: View, i: nat)
    requires Heap(base, ptr, size, v) && Apart(v.ring, size, 0, 0) && 0 < i < |v.ring|
    ensures v.ring[i] in ptr && Heap(base, ptr[v.ring[i - 1] := ptr[v.ring[i]]], size, Taken(v, i))
    ensures Apart(Delete(v.ring, i), size, 0, 0)
    ensures v.ring[i] !in v.live && v.ring[i - 1] in Taken(v, i).ring && Keeps(v, Taken(v, i))
    ensures v.ring[i - 1] != v.ring[i]
    ensures v.ring[i] > 0 || base <= 0
  {
    hide Sorted; hide Linked; hide Members; hide Apart; hide Covers; hide Disjoint;
    DeleteSorted(v.ring, i);
    DeleteLinked(v.ring, ptr, i);
    TakeMembers(base, v, i);
    Different(v.ring, i);
    TakeApart(v.ring, size, i);
    RingHeader(base, size, v, i);
  }

  lemma Different(ring: seq<int>, i: nat)
    requires Sorted(ring) && 0 < i < |ring|
    ensures forall k :: 0 <= k < |ring| && k != i ==> ring[k] != ring[i]
  {
  }

  ghost function Carved(v: View, i: nat, n: int): (r: View)
    requires i < |v.ring| && v.ring[i] in v.sz
  {
    var a := v.ring[i];
    v.(sz := v.sz[a := v.sz[a] - n][a + v.sz[a] - n := n], live := v.live + {a + v.sz[a] - n})
  }

  lemma CarveCovers(sz: map<int, int>, arena: set<int>, a: int, n: int)
    requires Disjoint(sz) && Covers(sz, arena) && a in sz && 0 < n < sz[a] && forall b :: b in sz ==> sz[b] >= 1
    ensures var sz' := sz[a := sz[a] - n][a + sz[a] - n := n];
      a + sz[a] - n !in sz && Disjoint(sz') && Covers(sz', arena)
  {
    var q := a + sz[a] - n;
    var sz' := sz[a := sz[a] - n][q := n];
    CarveDisjoint(sz, a, n);
    hide Disjoint;
    forall u ensures u in arena <==> exists c :: InBlock(sz', c, u) {
      if u in arena {
        var c :| InBlock(sz, c, u);
        assert InBlock(sz', if c == a && u >= q then q else c, u);
      }
      if c :| InBlock(sz', c, u) {
        assert InBlock(sz, if c == q then a else c, u);
      }
    }
  }

  lemma CarveDisjoint(sz: map<int, int>, a: int, n: int)
    requires Disjoint(sz) && a in sz && 0 < n < sz[a] && forall b :: b in sz ==> sz[b] >= 1
    ensures a + sz[a] - n !in sz && Disjoint(sz[a := sz[a] - n][a + sz[a] - n := n])
  {
  }

  lemma Carve(base: int, ptr: Field, size: Field, v: View, i: nat, n: int)
    requires Heap(base, ptr, size, v) && Apart(v.ring, size, 0, 0) && 0 < i < |v.ring| && v.ring[i] in v.sz
    requires 0 < n < v.sz[v.ring[i]]
    ensures var a := v.ring[i]; var q := a + v.sz[a] - n;
      && a in size && size[a] == v.sz[a] && q !in v.live && Keeps(v, Carved(v, i, n)) && q > base
      && Heap(base, ptr, size[a := size[a] - n][q := n], Carved(v, i, n))
      && Apart(v.ring, size[a := size[a] - n][q := n], 0, 0)
  {
    hide Linked; hide Sorted; hide Covers; hide Disjoint; hide Headers; hide Members; hide Apart; hide Keeps;
    CarveSizes(base, size, v, i, n);
    CarveCovers(v.sz, v.arena, v.ring[i], n);
    CarveHeaders(base, size, v, i, n);
    CarveApart(v.ring, size, i, n, v.ring[i] + v.sz[v.ring[i]] - n);
  }

  lemma CarveSizes(base: int, size: Field, v: View, i: nat, n: int)
    requires Headers(base, size, v) && Members(base, v) && Sorted(v.ring) && 0 < i < |v.ring| && v.ring[i] in v.sz
    requires Disjoint(v.sz) && 0 < n < v.sz[v.ring[i]]
    ensures var a := v.ring[i]; var q := a + v.sz[a] - n;
      && a in size && size[a] == v.sz[a] && q > base
      && (forall b :: b in v.sz ==> v.sz[b] >= 1)
      && forall k :: 0 <= k < |v.ring| ==> v.ring[k] != q && v.ring[k] in size
  {
    hide Sorted; hide Disjoint;
    RingHeader(base, size, v, i);
    CarveDisjoint(v.sz, v.ring[i], n);
    var q := v.ring[i] + v.sz[v.ring[i]] - n;
    forall k | 0 <= k < |v.ring| ensures v.ring[k] != q && v.ring[k] in size { RingHeader(base, size, v, k); }
  }

  lemma CarveHeaders(base: int, size: Field, v: View, i: nat, n: int)
    requires Headers(base, size, v) && Members(base, v) && i < |v.ring| && v.ring[i] in v.sz && v.ring[i] in size
    requires 0 < n < v.sz[v.ring[i]] && size[v.ring[i]] == v.sz[v.ring[i]] && v.ring[i] + v.sz[v.ring[i]] - n > base
    requires v.ring[i] + v.sz[v.ring[i]] - n !in v.sz && v.ring[i] + v.sz[v.ring[i]] - n !in v.ring
    ensures var a := v.ring[i]; var q := a + v.sz[a] - n;
      && Headers(base, size[a := size[a] - n][q := n], Carved(v, i, n)) && Members(base, Carved(v, i, n))
      && q !in v.live && Keeps(v, Carved(v, i, n))
  {
  }

  lemma CarveApart(ring: seq<int>, size: Field, i: nat, n: int, q: int)
    requires Apart(ring, size, 0, 0) && i < |ring| && n > 0
    requires forall k :: 0 <= k < |ring| ==> ring[k] != q && ring[k] in size
    ensures Apart(ring, size[ring[i] := size[ring[i]] - n][q := n], 0, 0)
  {
    var size' := size[ring[i] := size[ring[i]] - n][q := n];
    forall k | 0 <= k < |ring| - 1 && ring[k] in size' ensures ring[k] + size'[ring[k]] < ring[k + 1] {
      assert ring[k] + size[ring[k]] < ring[k + 1];
    }
  }

  lemma Around(base: int, ptr: Field, size: Field, v: View, f: nat, k: nat, n: int)
    requires Heap(base, ptr, size, v) && f < |v.ring| && 1 <= k <= |v.ring| && Small(v.ring, size, f, k, n)
    requires At(v.ring, f, k) == v.ring[f] && v.ring[f] in size && size[v.ring[f]] < n
    ensures k == |v.ring| && !Has(v.ring, size, n)
  {
    hide Linked; hide Covers; hide Disjoint;
    forall i | 0 <= i < |v.ring| && v.ring[i] in size ensures size[v.ring[i]] < n {
      if i != f {
        var j := if i > f then i - f else i + |v.ring| - f;
        assert At(v.ring, f, j) == v.ring[i];
      }
    }
  }

  lemma Onward(base: int, ptr: Field, size: Field, v: View, f: nat, k: nat, n: int)
    requires Heap(base, ptr, size, v) && f < |v.ring| && 1 <= k <= |v.ring| && At(v.ring, f, k) != v.ring[f]
    requires Small(v.ring, size, f, k, n)
    requires At(v.ring, f, k) in size && size[At(v.ring, f, k)] < n
    ensures k < |v.ring| && At(v.ring, f, k) in ptr && ptr[At(v.ring, f, k)] == At(v.ring, f, k + 1)
    ensures Small(v.ring, size, f, k + 1, n)
  {
    hide Covers; hide Disjoint; hide Sorted;
    LinkAt(v.ring, ptr, Turn(|v.ring|, f, k));
  }
}
