/** Copies between kernel and user memory (walkaddr, copyout, copyin and copyinstr of
    kernel/vm.c), over the flat view of an address space that the page tables refine.

    Physical memory appears here as bytes, one sequence of 4096 per page. */
module UserCopy {
  import opened PageTable

  const PGSIZE: int := 4096

  /** What walkaddr says of an address, as a page number; 0 for none. */
  function Translate(view: map<int, Pte>, va: int): (ppn: int)
  {
    var v := va / 4096;
    if 0 <= v < MAXVPN && v in view && view[v].v && view[v].u then view[v].ppn else 0
  }

  /** What the tree maps each page to. */
  ghost function Flat(mem: Mem, dir: Dir, root: int): (view: map<int, Pte>)
  {
    map v | v in Sets.Range(0, MAXVPN) :: Lookup(mem, dir, root, v)
  }

  lemma FlatAt(mem: Mem, dir: Dir, root: int, v: int)
    requires 0 <= v < MAXVPN
    ensures v in Flat(mem, dir, root) && Flat(mem, dir, root)[v] == Lookup(mem, dir, root, v)
  {
  }

  /** walkaddr on the tree computes that of the tree's flat view. */
  method Walkaddr(k: Kernel, root: int, va: int) returns (ppn: int)
    requires k.Valid({}) && Tab(root, 2, 0) in k.dir && va >= 0
    modifies k
    ensures k.Valid({}) && k.mem == old(k.mem) && k.dir == old(k.dir) && k.owner == old(k.owner)
    ensures k.freelist == old(k.freelist)
    ensures ppn == Translate(Flat(k.mem, k.dir, root), va)
  {
    hide Consistent; hide SameMap; hide SameUsers; hide SamePages; hide Grew; hide TabsGrow; hide Lack; hide Limbo;
    hide Flat; hide Lookup;
    if va >= MAXVPN * 4096 { return 0; }
    FlatAt(k.mem, k.dir, root, va / 4096);
    var t := k.Walk(root, va / 4096, false);
    if t == 0 { Unmapped(k.mem, k.dir, root, va / 4096); return 0; }
    LeafEntry(k.pages, k.mem, k.freelist, k.dir, k.owner, root, va / 4096, ZERO);
    var pte := k.mem[t][va / 4096 % 512];
    if !pte.v { return 0; }
    if !pte.u { return 0; }
    return pte.ppn;
  }

  // ---------------------------------------------------------------- user memory as bytes

  type Phys = map<int, seq<int>>

  predicate Mapped(view: map<int, Pte>, a: int) { Translate(view, a) != 0 }

  /** Every user page is real memory, and no two are the same. */
  ghost predicate Backed(view: map<int, Pte>, phys: Phys) {
    && (forall a :: Mapped(view, a) ==> Translate(view, a) in phys && |phys[Translate(view, a)]| == PGSIZE)
    && (forall a, b :: Mapped(view, a) && Translate(view, a) == Translate(view, b) ==> a / 4096 == b / 4096)
  }

  /** The byte a program sees at an address. */
  ghost function Byte(view: map<int, Pte>, phys: Phys, a: int): (x: int)
  {
    var p := Translate(view, a);
    if p in phys && |phys[p]| == PGSIZE then phys[p][a % 4096] else 0
  }

  /** The program's memory has changed to src at dst, and nowhere else. */
  ghost predicate Replaced(view: map<int, Pte>, phys: Phys, phys': Phys, dst: int, src: seq<int>) {
    forall a :: Mapped(view, a) ==>
      Byte(view, phys', a) == if dst <= a < dst + |src| then src[a - dst] else Byte(view, phys, a)
  }

  /** Pages that are not the program's have not changed. */
  ghost predicate OthersKept(view: map<int, Pte>, phys: Phys, phys': Phys) {
    forall p :: p in phys && (forall a :: Mapped(view, a) ==> Translate(view, a) != p) ==>
      p in phys' && phys'[p] == phys[p]
  }

  lemma KeptMore(view: map<int, Pte>, p0: Phys, p1: Phys, p2: Phys)
    requires OthersKept(view, p0, p1) && OthersKept(view, p1, p2)
    ensures OthersKept(view, p0, p2)
  {
  }

  lemma KeptOne(view: map<int, Pte>, phys: Phys, a: int, page: seq<int>)
    requires Mapped(view, a)
    ensures OthersKept(view, phys, phys[Translate(view, a) := page])
  {
  }

  lemma PageAt(a: int, va0: int)
    requires va0 % 4096 == 0 && va0 <= a < va0 + 4096
    ensures a / 4096 == va0 / 4096 && a % 4096 == a - va0
  {
  }

  lemma SamePage(view: map<int, Pte>, a: int, b: int)
    requires a / 4096 == b / 4096
    ensures Translate(view, a) == Translate(view, b)
  {
  }

  /** One memmove inside one page. */
  lemma Moved(view: map<int, Pte>, phys: Phys, dst: int, w: seq<int>)
    requires Backed(view, phys) && Mapped(view, dst) && dst % 4096 + |w| <= PGSIZE
    ensures var p := Translate(view, dst);
      && p in phys && |phys[p]| == PGSIZE
      && var phys' := phys[p := phys[p][..dst % 4096] + w + phys[p][dst % 4096 + |w|..]];
      Backed(view, phys') && Replaced(view, phys, phys', dst, w)
  {
    var p, va0 := Translate(view, dst), dst - dst % 4096;
    var phys' := phys[p := phys[p][..dst % 4096] + w + phys[p][dst % 4096 + |w|..]];
    forall a | Mapped(view, a)
      ensures Byte(view, phys', a) == if dst <= a < dst + |w| then w[a - dst] else Byte(view, phys, a)
    {
      if Translate(view, a) == p { PageAt(a, va0); }
      else if dst <= a < dst + |w| { PageAt(a, va0); PageAt(dst, va0); SamePage(view, a, dst); }
    }
  }

  lemma ReplacedMore(view: map<int, Pte>, p0: Phys, p1: Phys, p2: Phys, dst: int, src: seq<int>, k: nat, n: nat)
    requires k + n <= |src| && Replaced(view, p0, p1, dst, src[..k]) && Replaced(view, p1, p2, dst + k, src[k..k + n])
    ensures Replaced(view, p0, p2, dst, src[..k + n])
  {
  }

  /** All of len addresses from a on are mapped. */
  ghost predicate AllMapped(view: map<int, Pte>, a: int, len: int) {
    forall b :: a <= b < a + len ==> Mapped(view, b)
  }

  lemma PageMapped(view: map<int, Pte>, a: int, n: int)
    requires 0 <= n && a % 4096 + n <= PGSIZE && Mapped(view, a)
    ensures AllMapped(view, a, n)
  {
    forall b | a <= b < a + n ensures Mapped(view, b) {
      PageAt(b, a - a % 4096);
      PageAt(a, a - a % 4096);
      SamePage(view, a, b);
    }
  }

  /** The bytes a program sees from an address on. */
  ghost predicate Shows(view: map<int, Pte>, phys: Phys, a: int, bytes: seq<int>) {
    forall i :: 0 <= i < |bytes| ==> bytes[i] == Byte(view, phys, a + i)
  }

  /** A stretch of one page is what the program sees there. */
  lemma PageShows(view: map<int, Pte>, phys: Phys, a: int, n: nat)
    requires Backed(view, phys) && Mapped(view, a) && a % 4096 + n <= PGSIZE
    ensures var p := Translate(view, a);
      p in phys && |phys[p]| == PGSIZE && Shows(view, phys, a, phys[p][a % 4096..a % 4096 + n])
  {
    var p, va0 := Translate(view, a), a - a % 4096;
    var bytes := phys[p][a % 4096..a % 4096 + n];
    forall i | 0 <= i < n ensures bytes[i] == Byte(view, phys, a + i) {
      PageAt(a, va0);
      PageAt(a + i, va0);
      SamePage(view, a, a + i);
    }
  }

  lemma ShowsMore(view: map<int, Pte>, phys: Phys, a: int, b1: seq<int>, b2: seq<int>)
    requires Shows(view, phys, a, b1) && Shows(view, phys, a + |b1|, b2)
    ensures Shows(view, phys, a, b1 + b2)
  {
    forall i | 0 <= i < |b1 + b2| ensures (b1 + b2)[i] == Byte(view, phys, a + i) {
      if i >= |b1| { assert b2[i - |b1|] == Byte(view, phys, a + |b1| + (i - |b1|)); }
    }
  }

  lemma MappedMore(view: map<int, Pte>, a: int, k: nat, n: nat)
    requires AllMapped(view, a, k) && AllMapped(view, a + k, n)
    ensures AllMapped(view, a, k + n)
  {
  }

  /** The string at an address: bytes up to and with the first 0, of which there are at most max. */
  ghost predicate IsString(view: map<int, Pte>, phys: Phys, a: int, max: int, str: seq<int>) {
    && 0 < |str| <= max && AllMapped(view, a, |str|) && Shows(view, phys, a, str)
    && str[|str| - 1] == 0 && forall i :: 0 <= i < |str| - 1 ==> str[i] != 0
  }

  lemma NoString(view: map<int, Pte>, phys: Phys, a: int, max: int, seen: seq<int>)
    requires Shows(view, phys, a, seen) && (forall i :: 0 <= i < |seen| ==> seen[i] != 0)
    requires |seen| == max || !Mapped(view, a + |seen|)
    ensures forall str :: !IsString(view, phys, a, max, str)
  {
    forall str ensures !IsString(view, phys, a, max, str) {
      if IsString(view, phys, a, max, str) { StringSeen(view, phys, a, max, seen, str); }
    }
  }

  lemma StringSeen(view: map<int, Pte>, phys: Phys, a: int, max: int, seen: seq<int>, str: seq<int>)
    requires Shows(view, phys, a, seen) && IsString(view, phys, a, max, str)
    ensures if |str| <= |seen| then seen[|str| - 1] == 0 else Mapped(view, a + |seen|)
  {
  }

  class UserMemory {
    const view: map<int, Pte>
    var phys: Phys

    ghost predicate Valid()
      reads this
    {
      Backed(view, phys)
    }

    constructor (t: map<int, Pte>, p: Phys)
      requires Backed(t, p)
      ensures Valid() && view == t && phys == p
    {
      view, phys := t, p;
    }

    /** copyout: src into the program's memory, up to the first address not mapped for it, which
        is what makes it fail. */
    method Copyout(dstva: int, src: seq<int>) returns (ok: bool, ghost w: nat)
      requires Valid() && 0 <= dstva
      modifies this
      ensures Valid() && w <= |src| && Replaced(view, old(phys), phys, dstva, src[..w]) && AllMapped(view, dstva, w)
      ensures ok <==> AllMapped(view, dstva, |src|)
      ensures if ok then w == |src| else !Mapped(view, dstva + w)
      ensures OthersKept(view, old(phys), phys)
    {
      hide Replaced; hide Backed; hide Translate; hide AllMapped; hide OthersKept;
      NothingCopied(view, phys, dstva, src);
      var va, k := dstva, 0;
      while k < |src|
        invariant 0 <= k <= |src| && va == dstva + k && Valid()
        invariant Replaced(view, old(phys), phys, dstva, src[..k]) && AllMapped(view, dstva, k)
        invariant OthersKept(view, old(phys), phys)
      {
        var va0 := va - va % 4096;
        PageAt(va, va0);
        SamePage(view, va, va0);
        var pa0 := Translate(view, va0);
        if pa0 == 0 {
          NotAll(view, dstva, |src|, va);
          return false, k;
        }
        var n := if PGSIZE - (va - va0) > |src| - k then |src| - k else PGSIZE - (va - va0);
        ghost var p1 := phys;
        Moved(view, phys, va, src[k..k + n]);
        PageMapped(view, va, n);
        KeptOne(view, phys, va, phys[pa0][..va - va0] + src[k..k + n] + phys[pa0][va - va0 + n..]);
        phys := phys[pa0 := phys[pa0][..va - va0] + src[k..k + n] + phys[pa0][va - va0 + n..]];
        KeptMore(view, old(phys), p1, phys);
        ReplacedMore(view, old(phys), p1, phys, dstva, src, k, n);
        MappedMore(view, dstva, k, n);
        k := k + n;
        va := va + n;
      }
      return true, k;
    }

    /** copyin: the bytes the program sees, or failure exactly when one of them is not mapped. */
    method Copyin(srcva: int, len: nat) returns (ok: bool, dst: seq<int>)
      requires Valid() && 0 <= srcva
      ensures ok <==> AllMapped(view, srcva, len)
      ensures ok ==> |dst| == len && Shows(view, phys, srcva, dst)
    {
      hide Backed; hide Translate; hide AllMapped; hide Shows;
      dst := [];
      NothingCopied(view, phys, srcva, []);
      var va := srcva;
      while |dst| < len
        invariant |dst| <= len && va == srcva + |dst| && Shows(view, phys, srcva, dst) && AllMapped(view, srcva, |dst|)
      {
        var va0 := va - va % 4096;
        PageAt(va, va0);
        SamePage(view, va, va0);
        var pa0 := Translate(view, va0);
        if pa0 == 0 {
          NotAll(view, srcva, len, va);
          return false, dst;
        }
        var n := if PGSIZE - (va - va0) > len - |dst| then len - |dst| else PGSIZE - (va - va0);
        PageShows(view, phys, va, n);
        PageMapped(view, va, n);
        MappedMore(view, srcva, |dst|, n);
        ShowsMore(view, phys, srcva, dst, phys[pa0][va - va0..va - va0 + n]);
        dst := dst + phys[pa0][va - va0..va - va0 + n];
        va := va + n;
      }
      return true, dst;
    }

    /** copyinstr: the program's string with its 0, or failure exactly when there is none within
        max bytes that are mapped. */
    method Copyinstr(srcva: int, max: nat) returns (ok: bool, dst: seq<int>)
      requires Valid() && 0 <= srcva
      ensures ok ==> IsString(view, phys, srcva, max, dst)
      ensures !ok ==> forall str :: !IsString(view, phys, srcva, max, str)
    {
      hide Backed; hide Translate; hide AllMapped; hide Shows;
      dst := [];
      NothingCopied(view, phys, srcva, []);
      var va := srcva;
      while |dst| < max
        invariant |dst| <= max && va == srcva + |dst| && Shows(view, phys, srcva, dst) && AllMapped(view, srcva, |dst|)
        invariant forall i :: 0 <= i < |dst| ==> dst[i] != 0
        decreases max - |dst|
      {
        var va0 := va - va % 4096;
        PageAt(va, va0);
        SamePage(view, va, va0);
        var pa0 := Translate(view, va0);
        if pa0 == 0 {
          NoString(view, phys, srcva, max, dst);
          return false, dst;
        }
        var n := if PGSIZE - (va - va0) > max - |dst| then max - |dst| else PGSIZE - (va - va0);
        PageShows(view, phys, va, n);
        ghost var d0 := dst;
        var page := phys[pa0][va - va0..va - va0 + n];
        var p := 0;
        while p < n
          invariant 0 <= p <= n && dst == d0 + page[..p] && forall i :: 0 <= i < |dst| ==> dst[i] != 0
        {
          if page[p] == 0 {
            FoundZero(view, phys, srcva, max, d0, va, page, p);
            dst := dst + [0];
            assert d0 + page[..p] + [0] == d0 + page[..p + 1];
            return true, dst;
          }
          assert d0 + page[..p] + [page[p]] == d0 + page[..p + 1];
          dst := dst + [page[p]];
          p := p + 1;
        }
        assert page[..n] == page;
        PageMapped(view, va, n);
        MappedMore(view, srcva, |d0|, n);
        ShowsMore(view, phys, srcva, d0, page);
        va := va0 + PGSIZE;
        if |dst| == max { break; }
      }
      NoString(view, phys, srcva, max, dst);
      return false, dst;
    }
  }

  lemma FoundZero(view: map<int, Pte>, phys: Phys, srcva: int, max: int, d0: seq<int>, va: int, page: seq<int>, p: nat)
    requires Shows(view, phys, srcva, d0) && AllMapped(view, srcva, |d0|) && va == srcva + |d0|
    requires Shows(view, phys, va, page)
    requires p < |page| && va % 4096 + |page| <= PGSIZE && Mapped(view, va) && page[p] == 0 && |d0| + |page| <= max
    requires forall i :: 0 <= i < |d0 + page[..p]| ==> (d0 + page[..p])[i] != 0
    ensures IsString(view, phys, srcva, max, d0 + page[..p + 1])
  {
    PageMapped(view, va, p + 1);
    MappedMore(view, srcva, |d0|, p + 1);
    assert Shows(view, phys, va, page[..p + 1]);
    ShowsMore(view, phys, srcva, d0, page[..p + 1]);
    var str := d0 + page[..p + 1];
    forall i | 0 <= i < |str| - 1 ensures str[i] != 0 { assert str[i] == (d0 + page[..p])[i]; }
  }

  /** What copyout wrote, copyin reads back. */
  lemma CopiedReadsBack(view: map<int, Pte>, phys: Phys, phys': Phys, dst: int, src: seq<int>, got: seq<int>)
    requires Replaced(view, phys, phys', dst, src) && AllMapped(view, dst, |src|) && |got| == |src|
    requires Shows(view, phys', dst, got)
    ensures got == src
  {
    forall i | 0 <= i < |src| ensures got[i] == src[i] { assert Mapped(view, dst + i); }
  }

  lemma NothingCopied(view: map<int, Pte>, phys: Phys, dst: int, src: seq<int>)
    ensures Replaced(view, phys, phys, dst, src[..0]) && AllMapped(view, dst, 0) && Shows(view, phys, dst, [])
    ensures OthersKept(view, phys, phys)
  {
  }

  lemma NotAll(view: map<int, Pte>, a: int, len: int, b: int)
    requires a <= b < a + len && !Mapped(view, b)
    ensures !AllMapped(view, a, len)
  {
  }
}
