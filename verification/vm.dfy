/** Sv39 page tables over the page allocator (kernel/vm.c, kernel/kalloc.c; the scheme is
    section 4.4 of the RISC-V Privileged Architecture).

    Physical memory is pages of 512 words.  A page table is a tree of such pages that lives in
    memory and nowhere else; `dir` is a ghost directory that says which page each table and
    each user page of each address space is, `owner` its inverse.  Addresses appear as page
    numbers: vpn for virtual, ppn for physical. */
module PageTable {
  import opened Sets

  const ENTRIES: int := 512
  const MAXVPN: int := 0x400_0000 // MAXVA / PGSIZE
  const TRAMPOLINE: int := MAXVPN - 1
  const TRAPFRAME: int := MAXVPN - 2

  // ---------------------------------------------------------------- page-table entries

  /** A 64-bit entry: page number above the flags V, R, W, X, U in bits 0 to 4. */
  datatype Pte = Pte(ppn: int, v: bool, r: bool, w: bool, x: bool, u: bool)
  datatype Perm = Perm(r: bool, w: bool, x: bool, u: bool)

  predicate IsLeaf(pte: Pte) { pte.r || pte.w || pte.x }

  /** PTE_FLAGS(pte) == PTE_V. */
  predicate Bare(pte: Pte) { pte.v && !IsLeaf(pte) && !pte.u }

  /** PA2PTE(pa) | perm | PTE_V. */
  function MakePte(ppn: int, perm: Perm): (pte: Pte) { Pte(ppn, true, perm.r, perm.w, perm.x, perm.u) }

  function PermOf(pte: Pte): (p: Perm) { Perm(pte.r, pte.w, pte.x, pte.u) }

  /** PA2PTE(page) | PTE_V: a pointer to the next table. */
  function LinkPte(ppn: int): (pte: Pte) { Pte(ppn, true, false, false, false, false) }

  const ZERO: Pte := Pte(0, false, false, false, false, false)

  function Bit(b: bool): (n: int) { if b then 1 else 0 }

  function Encode(pte: Pte): (n: int)
  {
    pte.ppn * 1024 + Bit(pte.u) * 16 + Bit(pte.x) * 8 + Bit(pte.w) * 4 + Bit(pte.r) * 2 + Bit(pte.v)
  }

  /** PTE2PA and the flag tests of the kernel, on the number. */
  function Decode(n: int): (pte: Pte)
  {
    Pte(n / 1024, n % 2 == 1, n / 2 % 2 == 1, n / 4 % 2 == 1, n / 8 % 2 == 1, n / 16 % 2 == 1)
  }

  lemma Halve(n: int, a: int, b: bool)
    requires n == a * 2 + Bit(b)
    ensures n / 2 == a && (n % 2 == 1 <==> b)
  {
  }

  lemma Nested(n: int)
    ensures n / 4 == n / 2 / 2 && n / 8 == n / 4 / 2 && n / 16 == n / 8 / 2 && n / 1024 == n / 16 / 64
  {
  }

  lemma DecodeEncode(pte: Pte)
    ensures Decode(Encode(pte)) == pte
  {
    var n := Encode(pte);
    Nested(n);
    var a := pte.ppn * 64 + Bit(pte.u);
    Halve(n, a * 8 + Bit(pte.x) * 4 + Bit(pte.w) * 2 + Bit(pte.r), pte.v);
    Halve(n / 2, a * 4 + Bit(pte.x) * 2 + Bit(pte.w), pte.r);
    Halve(n / 4, a * 2 + Bit(pte.x), pte.w);
    Halve(n / 8, a, pte.x);
    assert a / 64 == pte.ppn;
    Halve(a, pte.ppn * 32, pte.u);
  }

  // ---------------------------------------------------------------- levels

  /** PX(level, va), and the table of each level on the way to a page. */
  function Px(level: int, v: int): (i: int)
    requires 0 <= v < MAXVPN
    ensures 0 <= i < ENTRIES
  {
    if level == 2 then v / 262144 % 512 else if level == 1 then v / 512 % 512 else v % 512
  }

  function Prefix(level: int, v: int): (p: int)
  {
    if level == 2 then 0 else if level == 1 then v / 262144 else v / 512
  }

  lemma PrefixStep(level: int, v: int)
    requires 1 <= level <= 2 && 0 <= v < MAXVPN
    ensures Prefix(level - 1, v) == Prefix(level, v) * 512 + Px(level, v)
  {
  }

  // ---------------------------------------------------------------- memory and its directory

  datatype Slot = Tab(root: int, level: int, prefix: int) | Usr(root: int, vpn: int)

  type Mem = map<int, seq<Pte>>
  type Dir = map<Slot, int>

  function Page(w: Pte): (z: seq<Pte>)
    ensures |z| == ENTRIES && forall i :: 0 <= i < ENTRIES ==> z[i] == w
  {
    seq(512, i => w)
  }

  ghost predicate MemOk(pages: set<int>, mem: Mem) {
    0 !in pages && forall p :: p in pages ==> p in mem && |mem[p]| == ENTRIES
  }

  ghost predicate FreeOk(pages: set<int>, freelist: seq<int>, owner: map<int, Slot>) {
    && Distinct(freelist)
    && forall i :: 0 <= i < |freelist| ==> freelist[i] in pages && freelist[i] !in owner
  }

  /** dir and owner are inverse: no page has two roles, no role two pages. */
  ghost predicate DirOk(pages: set<int>, dir: Dir, owner: map<int, Slot>) {
    && (forall s :: s in dir ==> dir[s] in pages && dir[s] in owner && owner[dir[s]] == s)
    && (forall p :: p in owner ==> p in pages && owner[p] in dir && dir[owner[p]] == p)
  }

  /** The tables a level can have below MAXVA. */
  predicate Bounded(l: int, p: int) {
    0 <= p < if l == 2 then 1 else if l == 1 then 256 else 131072
  }

  /** Tables hang together: below a root, each under its parent. */
  ghost predicate ShapeOk(dir: Dir) {
    && (forall r, l, p :: Tab(r, l, p) in dir ==>
          && 0 <= l <= 2 && Bounded(l, p) && (l == 2 ==> dir[Tab(r, l, p)] == r)
          && (l < 2 ==> Tab(r, l + 1, p / 512) in dir))
    && (forall r, v :: Usr(r, v) in dir ==> 0 <= v < MAXVPN && Tab(r, 0, v / 512) in dir)
  }

  /** An inner entry is valid exactly when the directory has a table there, and points to it. */
  ghost predicate InnerOk(mem: Mem, dir: Dir, r: int, l: int, p: int, i: int) {
    var s := Tab(r, l, p);
    s in dir && dir[s] in mem && i < |mem[dir[s]]| && 0 <= i ==>
      var pte := mem[dir[s]][i];
      if Tab(r, l - 1, p * 512 + i) in dir then
        pte == LinkPte(dir[Tab(r, l - 1, p * 512 + i)])
      else !pte.v
  }

  /** Where a user page is recorded, the bottom entry is a leaf that maps it. */
  ghost predicate BottomOk(mem: Mem, dir: Dir, r: int, p: int, i: int) {
    var s := Tab(r, 0, p);
    s in dir && dir[s] in mem && i < |mem[dir[s]]| && 0 <= i ==>
      var pte := mem[dir[s]][i];
      Usr(r, p * 512 + i) in dir ==> pte.v && IsLeaf(pte) && pte.ppn == dir[Usr(r, p * 512 + i)]
  }

  /** All entries are in order, except in the tables `torn`, which are being taken apart. */
  ghost predicate TreeOk(mem: Mem, dir: Dir, torn: set<Slot>) {
    && (forall r, l, p, i :: 1 <= l <= 2 && Tab(r, l, p) !in torn ==> InnerOk(mem, dir, r, l, p, i))
    && (forall r, p, i :: Tab(r, 0, p) !in torn ==> BottomOk(mem, dir, r, p, i))
  }

  /** What the tree of `root` maps page v to: the flat view of the address space. */
  ghost function Lookup(mem: Mem, dir: Dir, root: int, v: int): (pte: Pte)
  {
    var s := Tab(root, 0, v / 512);
    if s in dir && dir[s] in mem && |mem[dir[s]]| == ENTRIES && mem[dir[s]][v % 512].v
    then mem[dir[s]][v % 512] else ZERO
  }

  /** Two states map every page of every address space alike. */
  ghost predicate SameMap(mem: Mem, dir: Dir, mem': Mem, dir': Dir) {
    forall root, v :: 0 <= v < MAXVPN ==> Lookup(mem', dir', root, v) == Lookup(mem, dir, root, v)
  }

  /** Everything about memory, free list and directory at once. */
  ghost predicate Consistent(pages: set<int>, mem: Mem, freelist: seq<int>, dir: Dir, owner: map<int, Slot>,
                             torn: set<Slot>) {
    && MemOk(pages, mem) && FreeOk(pages, freelist, owner) && DirOk(pages, dir, owner) && ShapeOk(dir)
    && TreeOk(mem, dir, torn)
  }

  /** The user pages stay where they are and keep their contents. */
  ghost predicate SameUsers(mem: Mem, dir: Dir, mem': Mem, dir': Dir) {
    forall r, v :: Usr(r, v) in dir ==>
      var s := Usr(r, v);
      s in dir' && dir'[s] == dir[s] && (dir[s] in mem ==> dir[s] in mem' && mem'[dir[s]] == mem[dir[s]])
  }

  /** Pages neither free nor in any address space. */
  ghost function Limbo(pages: set<int>, freelist: seq<int>, owner: map<int, Slot>): (r: set<int>)
  {
    pages - Elements(freelist) - owner.Keys
  }

  // ---------------------------------------------------------------- a new table

  /** walk's allocation: page n, zeroed, hangs below entry i of table `up`. */
  ghost predicate Hangs(pages: set<int>, mem: Mem, dir: Dir, owner: map<int, Slot>, up: Slot, i: int, n: int, mem': Mem,
                        dir': Dir, owner': map<int, Slot>)
  {
    && up.Tab? && 1 <= up.level <= 2 && 0 <= up.prefix && 0 <= i < ENTRIES && up in dir && dir[up] in mem
    && |mem[dir[up]]| == ENTRIES
    && var child := Tab(up.root, up.level - 1, up.prefix * 512 + i);
    && child !in dir && n in pages && n !in owner && Bounded(child.level, child.prefix)
    && mem' == mem[n := Page(ZERO)][dir[up] := mem[dir[up]][i := LinkPte(n)]]
    && dir' == dir[child := n] && owner' == owner[n := child]
  }

  lemma HangsDir(pages: set<int>, mem: Mem, dir: Dir, owner: map<int, Slot>, up: Slot, i: int, n: int, mem': Mem,
                 dir': Dir, owner': map<int, Slot>)
    requires MemOk(pages, mem) && DirOk(pages, dir, owner) && ShapeOk(dir)
    requires Hangs(pages, mem, dir, owner, up, i, n, mem', dir', owner')
    ensures MemOk(pages, mem') && DirOk(pages, dir', owner') && ShapeOk(dir')
  {
  }

  lemma HangsInner(pages: set<int>, mem: Mem, dir: Dir, owner: map<int, Slot>, up: Slot, i: int, n: int, mem': Mem,
                   dir': Dir, owner': map<int, Slot>,
                   r: int, l: int, p: int, k: int)
    requires DirOk(pages, dir, owner) && ShapeOk(dir) && Hangs(pages, mem, dir, owner, up, i, n, mem', dir', owner')
    requires 1 <= l <= 2 && MemOk(pages, mem) && InnerOk(mem, dir, r, l, p, k)
    ensures InnerOk(mem', dir', r, l, p, k)
  {
    var s, child := Tab(r, l, p), Tab(up.root, up.level - 1, up.prefix * 512 + i);
    if s in dir' && 0 <= k < ENTRIES {
      SplitIndex(p, k, up.prefix, i);
      if s == child {
        assert Tab(r, l - 1, p * 512 + k) !in dir;
      } else {
        InDir(pages, dir, owner, s);
        InDir(pages, dir, owner, up);
        assert dir[s] != n && (s != up ==> dir[s] != dir[up]);
        assert mem'[dir[s]] == if s == up then mem[dir[s]][i := LinkPte(n)] else mem[dir[s]];
        assert Tab(r, l - 1, p * 512 + k) == child <==> s == up && k == i;
      }
    }
  }

  lemma InDir(pages: set<int>, dir: Dir, owner: map<int, Slot>, s: Slot)
    requires DirOk(pages, dir, owner) && s in dir
    ensures dir[s] in pages && dir[s] in owner && owner[dir[s]] == s
  {
  }

  lemma TablePage(pages: set<int>, mem: Mem, dir: Dir, owner: map<int, Slot>, s: Slot)
    requires MemOk(pages, mem) && DirOk(pages, dir, owner) && s in dir
    ensures dir[s] in mem && |mem[dir[s]]| == ENTRIES
  {
    var t := dir[s];
    assert t in pages;
  }

  lemma SplitIndex(p: int, k: int, q: int, i: int)
    requires 0 <= k < 512 && 0 <= i < 512
    ensures (p * 512 + k) / 512 == p && (p * 512 + k) % 512 == k
    ensures p * 512 + k == q * 512 + i <==> p == q && k == i
  {
  }

  lemma HangsBottom(pages: set<int>, mem: Mem, dir: Dir, owner: map<int, Slot>, up: Slot, i: int, n: int, mem': Mem,
                    dir': Dir, owner': map<int, Slot>,
                    r: int, p: int, k: int)
    requires DirOk(pages, dir, owner) && ShapeOk(dir) && Hangs(pages, mem, dir, owner, up, i, n, mem', dir', owner')
    requires BottomOk(mem, dir, r, p, k)
    ensures BottomOk(mem', dir', r, p, k)
  {
    var child := Tab(up.root, up.level - 1, up.prefix * 512 + i);
    if Tab(r, 0, p) == child && 0 <= k < ENTRIES {
      assert (p * 512 + k) / 512 == p;
      assert Usr(r, p * 512 + k) !in dir;
    }
  }

  lemma HangsSame(pages: set<int>, mem: Mem, dir: Dir, owner: map<int, Slot>, up: Slot, i: int, n: int, mem': Mem,
                  dir': Dir, owner': map<int, Slot>)
    requires DirOk(pages, dir, owner) && Hangs(pages, mem, dir, owner, up, i, n, mem', dir', owner')
    ensures SameMap(mem, dir, mem', dir') && SameUsers(mem, dir, mem', dir')
  {
  }

  lemma HangsConsistent(pages: set<int>, mem: Mem, freelist: seq<int>, dir: Dir, owner: map<int, Slot>, up: Slot,
                        i: int, n: int,
                        mem': Mem, dir': Dir, owner': map<int, Slot>)
    requires Consistent(pages, mem, freelist, dir, owner, {}) && n !in freelist
    requires Hangs(pages, mem, dir, owner, up, i, n, mem', dir', owner')
    ensures Consistent(pages, mem', freelist, dir', owner', {}) && SameMap(mem, dir, mem', dir')
    ensures SameUsers(mem, dir, mem', dir')
  {
    hide MemOk; hide DirOk; hide ShapeOk; hide InnerOk; hide BottomOk; hide Hangs; hide SameMap; hide SameUsers;
    HangsDir(pages, mem, dir, owner, up, i, n, mem', dir', owner');
    HangsSame(pages, mem, dir, owner, up, i, n, mem', dir', owner');
    HangsFree(pages, freelist, mem, dir, owner, up, i, n, mem', dir', owner');
    forall r, l, p, k | 1 <= l <= 2 ensures InnerOk(mem', dir', r, l, p, k) {
      HangsInner(pages, mem, dir, owner, up, i, n, mem', dir', owner', r, l, p, k);
    }
    forall r, p, k ensures BottomOk(mem', dir', r, p, k) {
      HangsBottom(pages, mem, dir, owner, up, i, n, mem', dir', owner', r, p, k);
    }
  }

  lemma HangsFree(pages: set<int>, freelist: seq<int>, mem: Mem, dir: Dir, owner: map<int, Slot>, up: Slot, i: int,
                  n: int,
                  mem': Mem, dir': Dir, owner': map<int, Slot>)
    requires FreeOk(pages, freelist, owner) && n !in freelist
    requires Hangs(pages, mem, dir, owner, up, i, n, mem', dir', owner')
    ensures FreeOk(pages, freelist, owner')
  {
  }

  // ---------------------------------------------------------------- writing a page nobody owns

  lemma FillConsistent(pages: set<int>, mem: Mem, freelist: seq<int>, dir: Dir, owner: map<int, Slot>, torn: set<Slot>,
                       n: int, page: seq<Pte>)
    requires Consistent(pages, mem, freelist, dir, owner, torn) && n in pages && n !in owner && |page| == ENTRIES
    ensures Consistent(pages, mem[n := page], freelist, dir, owner, torn)
    ensures SameMap(mem, dir, mem[n := page], dir) && SameUsers(mem, dir, mem[n := page], dir)
  {
    hide ShapeOk; hide FreeOk;
    var mem' := mem[n := page];
    forall r, l, p, i | 1 <= l <= 2 && Tab(r, l, p) !in torn ensures InnerOk(mem', dir, r, l, p, i) {
      assert InnerOk(mem, dir, r, l, p, i);
    }
    forall r, p, i | Tab(r, 0, p) !in torn ensures BottomOk(mem', dir, r, p, i) {
      assert BottomOk(mem, dir, r, p, i);
    }
  }

  lemma FreeLess(pages: set<int>, freelist: seq<int>, owner: map<int, Slot>)
    requires FreeOk(pages, freelist, owner) && freelist != []
    ensures FreeOk(pages, freelist[1..], owner) && freelist[0] !in freelist[1..]
    ensures freelist[0] in pages && freelist[0] !in owner
    ensures Limbo(pages, freelist[1..], owner) == Limbo(pages, freelist, owner) + {freelist[0]}
  {
    var n := freelist[0];
    assert forall k :: 0 <= k < |freelist| - 1 ==> freelist[1..][k] == freelist[k + 1];
    assert Elements(freelist) == Elements(freelist[1..]) + {n};
  }

  lemma FreeMore(pages: set<int>, freelist: seq<int>, owner: map<int, Slot>, n: int)
    requires FreeOk(pages, freelist, owner) && n in Limbo(pages, freelist, owner)
    ensures FreeOk(pages, [n] + freelist, owner)
    ensures Limbo(pages, [n] + freelist, owner) == Limbo(pages, freelist, owner) - {n}
  {
    assert Elements([n] + freelist) == Elements(freelist) + {n};
  }

  // ---------------------------------------------------------------- leaf entries

  /** *pte = x, for the entry of page v in its bottom table. */
  ghost predicate Writes(mem: Mem, dir: Dir, root: int, v: int, x: Pte, mem': Mem) {
    && 0 <= v < MAXVPN && Tab(root, 0, v / 512) in dir
    && var t := dir[Tab(root, 0, v / 512)];
    && t in mem && |mem[t]| == ENTRIES && mem' == mem[t := mem[t][v % 512 := x]]
  }

  lemma WriteBottom(pages: set<int>, mem: Mem, dir: Dir, owner: map<int, Slot>, root: int, v: int, x: Pte, mem': Mem,
                    r: int, p: int, i: int)
    requires DirOk(pages, dir, owner) && Writes(mem, dir, root, v, x, mem') && BottomOk(mem, dir, r, p, i)
    requires Usr(root, v) in dir ==> x.v && IsLeaf(x) && x.ppn == dir[Usr(root, v)]
    ensures BottomOk(mem', dir, r, p, i)
  {
    var s, t := Tab(r, 0, p), Tab(root, 0, v / 512);
    if s in dir {
      InDir(pages, dir, owner, s);
      InDir(pages, dir, owner, t);
      if s == t { assert v == p * 512 + v % 512; }
    }
  }

  lemma WriteInner(pages: set<int>, mem: Mem, dir: Dir, owner: map<int, Slot>, root: int, v: int, x: Pte, mem': Mem,
                   r: int, l: int, p: int, i: int)
    requires DirOk(pages, dir, owner) && Writes(mem, dir, root, v, x, mem') && 1 <= l <= 2
    requires InnerOk(mem, dir, r, l, p, i)
    ensures InnerOk(mem', dir, r, l, p, i)
  {
    var s, t := Tab(r, l, p), Tab(root, 0, v / 512);
    if s in dir {
      InDir(pages, dir, owner, s);
      InDir(pages, dir, owner, t);
    }
  }

  /** One entry changed: exactly one page of one address space maps differently. */
  ghost predicate Remaps(mem: Mem, dir: Dir, root: int, v: int, x: Pte, mem': Mem, dir': Dir) {
    forall r, u :: 0 <= u < MAXVPN ==>
      Lookup(mem', dir', r, u) == if r == root && u == v then x else Lookup(mem, dir, r, u)
  }

  lemma WriteRemaps(pages: set<int>, mem: Mem, dir: Dir, owner: map<int, Slot>, root: int, v: int, x: Pte, mem': Mem)
    requires DirOk(pages, dir, owner) && Writes(mem, dir, root, v, x, mem') && (x.v || x == ZERO)
    ensures Remaps(mem, dir, root, v, x, mem', dir) && SameUsers(mem, dir, mem', dir)
  {
    forall r, u | 0 <= u < MAXVPN
      ensures Lookup(mem', dir, r, u) == if r == root && u == v then x else Lookup(mem, dir, r, u)
    {
      var s, t := Tab(r, 0, u / 512), Tab(root, 0, v / 512);
      if s in dir {
        InDir(pages, dir, owner, s);
        InDir(pages, dir, owner, t);
        if s == t { assert u == u / 512 * 512 + u % 512 && v == v / 512 * 512 + v % 512; }
      }
    }
  }

  lemma WriteConsistent(pages: set<int>, mem: Mem, freelist: seq<int>, dir: Dir, owner: map<int, Slot>, root: int,
                        v: int, x: Pte, mem': Mem)
    requires Consistent(pages, mem, freelist, dir, owner, {}) && Writes(mem, dir, root, v, x, mem')
    requires x.v || x == ZERO
    requires Usr(root, v) in dir ==> x.v && IsLeaf(x) && x.ppn == dir[Usr(root, v)]
    ensures Consistent(pages, mem', freelist, dir, owner, {})
    ensures Remaps(mem, dir, root, v, x, mem', dir) && SameUsers(mem, dir, mem', dir)
  {
    hide DirOk; hide ShapeOk; hide FreeOk; hide InnerOk; hide BottomOk; hide Remaps; hide SameUsers;
    WriteRemaps(pages, mem, dir, owner, root, v, x, mem');
    forall r, l, p, i | 1 <= l <= 2 && Tab(r, l, p) !in {} ensures InnerOk(mem', dir, r, l, p, i) {
      WriteInner(pages, mem, dir, owner, root, v, x, mem', r, l, p, i);
    }
    forall r, p, i | Tab(r, 0, p) !in {} ensures BottomOk(mem', dir, r, p, i) {
      WriteBottom(pages, mem, dir, owner, root, v, x, mem', r, p, i);
    }
  }

  // ---------------------------------------------------------------- user pages in the directory

  /** A page in limbo becomes the user page of v, where the tree already maps it. */
  lemma AddUser(pages: set<int>, mem: Mem, freelist: seq<int>, dir: Dir, owner: map<int, Slot>, root: int, v: int,
                n: int)
    requires Consistent(pages, mem, freelist, dir, owner, {}) && 0 <= v < MAXVPN && Usr(root, v) !in dir
    requires n in Limbo(pages, freelist, owner)
    requires var pte := Lookup(mem, dir, root, v); pte.v && IsLeaf(pte) && pte.ppn == n
    ensures Consistent(pages, mem, freelist, dir[Usr(root, v) := n], owner[n := Usr(root, v)], {})
    ensures SameMap(mem, dir, mem, dir[Usr(root, v) := n]) && SameUsers(mem, dir, mem, dir[Usr(root, v) := n])
    ensures Limbo(pages, freelist, owner[n := Usr(root, v)]) == Limbo(pages, freelist, owner) - {n}
  {
    var dir', owner' := dir[Usr(root, v) := n], owner[n := Usr(root, v)];
    assert owner'.Keys == owner.Keys + {n};
    forall r, l, p, i | 1 <= l <= 2 ensures InnerOk(mem, dir', r, l, p, i) { assert InnerOk(mem, dir, r, l, p, i); }
    forall r, p, i ensures BottomOk(mem, dir', r, p, i) {
      assert BottomOk(mem, dir, r, p, i);
      var s := Tab(r, 0, p);
      if s in dir {
        InDir(pages, dir, owner, s);
        TablePage(pages, mem, dir, owner, s);
        if 0 <= i < ENTRIES && Usr(r, p * 512 + i) == Usr(root, v) {
          SplitIndex(p, i, v / 512, v % 512);
          assert Lookup(mem, dir, root, v) == mem[dir[s]][i];
        }
      }
    }
  }

  /** And back. */
  lemma DropUser(pages: set<int>, mem: Mem, freelist: seq<int>, dir: Dir, owner: map<int, Slot>, root: int, v: int)
    requires Consistent(pages, mem, freelist, dir, owner, {}) && Usr(root, v) in dir
    ensures var s := Usr(root, v);
      && Consistent(pages, mem, freelist, dir - {s}, owner - {dir[s]}, {})
      && SameMap(mem, dir, mem, dir - {s})
      && Limbo(pages, freelist, owner - {dir[s]}) == Limbo(pages, freelist, owner) + {dir[s]}
      && dir[s] in Limbo(pages, freelist, owner - {dir[s]}) && dir[s] !in Limbo(pages, freelist, owner)
  {
    var s := Usr(root, v);
    var n := dir[s];
    var dir', owner' := dir - {s}, owner - {n};
    InDir(pages, dir, owner, s);
    assert owner'.Keys == owner.Keys - {n};
    assert n !in freelist;
    forall r, l, p, i | 1 <= l <= 2 ensures InnerOk(mem, dir', r, l, p, i) { assert InnerOk(mem, dir, r, l, p, i); }
    forall r, p, i ensures BottomOk(mem, dir', r, p, i) { assert BottomOk(mem, dir, r, p, i); }
  }

  /** The same where there may be no user page. */
  lemma LetGo(pages: set<int>, mem: Mem, freelist: seq<int>, dir: Dir, owner: map<int, Slot>, root: int, v: int)
    requires Consistent(pages, mem, freelist, dir, owner, {})
    ensures var dir', owner' := WithoutUser(dir, root, v), WithoutPage(dir, owner, root, v);
      && Consistent(pages, mem, freelist, dir', owner', {}) && SameMap(mem, dir, mem, dir')
      && (if Usr(root, v) in dir then
            var n := dir[Usr(root, v)];
            Limbo(pages, freelist, owner') == Limbo(pages, freelist, owner) + {n} && n !in Limbo(pages, freelist, owner)
          else Limbo(pages, freelist, owner') == Limbo(pages, freelist, owner))
  {
    hide Consistent; hide Limbo; hide SameMap;
    if Usr(root, v) in dir {
      DropUser(pages, mem, freelist, dir, owner, root, v);
    } else {
      assert dir - {Usr(root, v)} == dir;
      NothingYet(mem, dir, root, v, 0, Perm(true, true, true, true));
    }
  }

  // ---------------------------------------------------------------- the kernel's operations

  const JUNK1: Pte := Pte(1, true, false, false, false, false)
  const JUNK5: Pte := Pte(5, true, false, true, false, false)

  /** The directory has only gained tables of one address space. */
  ghost predicate Grew(dir: Dir, dir': Dir, root: int) {
    && (forall s :: s in dir ==> s in dir' && dir'[s] == dir[s])
    && (forall s :: s in dir' && s !in dir ==> s.Tab? && s.root == root && s.level < 2)
  }

  /** No table has gone. */
  ghost predicate KeepsTabs(dir: Dir, dir': Dir) {
    forall r, l, p :: Tab(r, l, p) in dir ==> Tab(r, l, p) in dir' && dir'[Tab(r, l, p)] == dir[Tab(r, l, p)]
  }

  /** Other address spaces have the tables and pages they had. */
  ghost predicate Others(dir: Dir, dir': Dir, root: int) {
    forall q: Slot :: q.root != root ==> (q in dir' <==> q in dir) && (q in dir ==> q in dir' && dir'[q] == dir[q])
  }

  lemma OthersTrans(d1: Dir, d2: Dir, d3: Dir, root: int)
    requires Others(d1, d2, root) && Others(d2, d3, root)
    ensures Others(d1, d3, root)
  {
  }

  /** The given pages keep their contents. */
  ghost predicate SamePages(ps: set<int>, mem: Mem, mem': Mem) {
    forall p :: p in ps && p in mem ==> p in mem' && mem'[p] == mem[p]
  }

  lemma SamePagesTrans(ps: set<int>, m1: Mem, m2: Mem, m3: Mem)
    requires SamePages(ps, m1, m2) && SamePages(ps, m2, m3)
    ensures SamePages(ps, m1, m3)
  {
  }

  lemma SamePagesSet(ps: set<int>, m: Mem, n: int, page: seq<Pte>)
    requires n !in ps
    ensures SamePages(ps, m, m) && SamePages(ps, m, m[n := page])
  {
  }

  lemma SameMapTrans(m1: Mem, d1: Dir, m2: Mem, d2: Dir, m3: Mem, d3: Dir)
    requires SameMap(m1, d1, m2, d2) && SameMap(m2, d2, m3, d3)
    ensures SameMap(m1, d1, m3, d3)
  {
  }

  lemma SameUsersTrans(m1: Mem, d1: Dir, m2: Mem, d2: Dir, m3: Mem, d3: Dir)
    requires SameUsers(m1, d1, m2, d2) && SameUsers(m2, d2, m3, d3)
    ensures SameUsers(m1, d1, m3, d3)
  {
  }

  // ---------------------------------------------------------------- how many pages tables take

  /** The tables below the root that lead to page v, and to the pages lo .. hi. */
  function TablesTo(root: int, v: int): (r: set<Slot>) { {Tab(root, 1, Prefix(1, v)), Tab(root, 0, Prefix(0, v))} }

  function Tables(root: int, lo: int, hi: int): (r: set<Slot>)
    decreases hi - lo
  {
    if lo < hi then Tables(root, lo, hi - 1) + TablesTo(root, hi - 1) else {}
  }

  /** How many of these tables are still to be made. */
  ghost function Lack(dir: Dir, need: set<Slot>): (n: nat) { |need - dir.Keys| }

  /** The tables are those of before and these. */
  ghost predicate TabsGrow(dir: Dir, dir': Dir, need: set<Slot>) {
    forall s: Slot :: s.Tab? ==> (s in dir' <==> s in dir || s in need)
  }

  lemma {:induction false} TablesTab(root: int, lo: int, hi: int)
    ensures forall s :: s in Tables(root, lo, hi) ==> s.Tab?
    decreases hi - lo
  {
    if lo < hi { TablesTab(root, lo, hi - 1); }
  }

  lemma {:induction false} TablesJoin(root: int, lo: int, mid: int, hi: int)
    requires lo <= mid <= hi
    ensures Tables(root, lo, hi) == Tables(root, lo, mid) + Tables(root, mid, hi)
    decreases hi - mid
  {
    if mid < hi { TablesJoin(root, lo, mid, hi - 1); }
  }

  lemma TablesOne(root: int, v: int)
    ensures Tables(root, v, v + 1) == TablesTo(root, v)
  {
    assert Tables(root, v, v) == {};
  }

  /** One of them is made. */
  lemma LackLess(dir: Dir, need: set<Slot>, down: Slot, n: int)
    requires down in need && down !in dir
    ensures Lack(dir, need) >= 1 && Lack(dir[down := n], need) == Lack(dir, need) - 1
  {
    assert down in need - dir.Keys;
    assert need - dir[down := n].Keys == need - dir.Keys - {down};
  }

  /** All of them are there. */
  lemma LackNone(d0: Dir, dir: Dir, root: int, v: int)
    requires ShapeOk(dir) && Tab(root, 0, v / 512) in dir && Grew(d0, dir, root)
    requires forall s :: s in dir && s !in d0 ==> s in TablesTo(root, v)
    ensures Lack(dir, TablesTo(root, v)) == 0 && TabsGrow(d0, dir, TablesTo(root, v))
  {
    assert v / 512 / 512 == Prefix(1, v);
    assert Tab(root, 1, v / 512 / 512) in dir;
    assert TablesTo(root, v) - dir.Keys == {};
  }

  /** The cost of one stretch after another. */
  lemma LackMore(d0: Dir, d1: Dir, need1: set<Slot>, need2: set<Slot>)
    requires TabsGrow(d0, d1, need1) && forall s :: s in need1 + need2 ==> s.Tab?
    ensures Lack(d0, need1 + need2) == Lack(d0, need1) + Lack(d1, need2)
  {
    var a, b := need1 - d0.Keys, need2 - d1.Keys;
    assert need1 + need2 - d0.Keys == a + b && a !! b;
  }

  lemma LackSubset(dir: Dir, need1: set<Slot>, need2: set<Slot>)
    requires need1 <= need2
    ensures Lack(dir, need1) <= Lack(dir, need2)
  {
    SubsetSize(need1 - dir.Keys, need2 - dir.Keys);
  }

  lemma TabsGrowTrans(d0: Dir, d1: Dir, d2: Dir, need1: set<Slot>, need2: set<Slot>)
    requires TabsGrow(d0, d1, need1) && TabsGrow(d1, d2, need2)
    ensures TabsGrow(d0, d2, need1 + need2)
  {
  }

  /** `used` pages and the tables for lo .. hi have been taken off the free list. */
  ghost predicate Spent(free: int, dir: Dir, root: int, lo: int, hi: int, used: int, free': int, dir': Dir) {
    TabsGrow(dir, dir', Tables(root, lo, hi)) && free' == free - used - Lack(dir, Tables(root, lo, hi))
  }

  lemma SpentNone(free: int, dir: Dir, root: int, lo: int)
    ensures Spent(free, dir, root, lo, lo, 0, free, dir)
  {
    assert {} - dir.Keys == {};
  }

  lemma SpentMore(f0: int, d0: Dir, root: int, lo: int, mid: int, hi: int, u1: int, f1: int, d1: Dir, u2: int, f2: int,
                  d2: Dir)
    requires lo <= mid <= hi && Spent(f0, d0, root, lo, mid, u1, f1, d1) && Spent(f1, d1, root, mid, hi, u2, f2, d2)
    ensures Spent(f0, d0, root, lo, hi, u1 + u2, f2, d2)
  {
    hide TabsGrow; hide Lack; hide Tables;
    TablesJoin(root, lo, mid, hi);
    TablesTab(root, lo, hi);
    LackMore(d0, d1, Tables(root, lo, mid), Tables(root, mid, hi));
    TabsGrowTrans(d0, d1, d2, Tables(root, lo, mid), Tables(root, mid, hi));
  }

  lemma SpentEnough(free: int, dir: Dir, root: int, lo: int, hi: int, used: int, free': int, dir': Dir)
    requires Spent(free, dir, root, lo, hi, used, free', dir')
    ensures free' == free - used - Lack(dir, Tables(root, lo, hi))
  {
  }

  lemma SpentUser(free: int, dir: Dir, root: int, a: int, free': int, dir': Dir, n: int)
    requires Spent(free - 1, dir, root, a, a + 1, 0, free', dir')
    ensures Spent(free, dir, root, a, a + 1, 1, free', dir'[Usr(root, a) := n])
  {
  }

  /** How many tables n pages from 0 on take. */
  function TableCount(n: int): (c: int) { (n + 511) / 512 + (n + 262143) / 262144 }

  lemma {:induction false} TablesIn(root: int, n: nat)
    ensures forall s :: s in Tables(root, 0, n) <==>
      && s.Tab? && s.root == root && 0 <= s.level <= 1
      && 0 <= s.prefix < if s.level == 0 then (n + 511) / 512 else (n + 262143) / 262144
  {
    if n > 0 { TablesIn(root, n - 1); }
  }

  lemma {:induction false} TablesCount(root: int, n: nat)
    ensures |Tables(root, 0, n)| == TableCount(n)
  {
    hide Tables; hide Prefix; hide TableCount;
    if n == 0 {
      NoTables(root);
    } else {
      TablesCount(root, n - 1);
      TablesNext(root, n - 1);
      CountStep(n - 1);
    }
  }

  lemma NoTables(root: int)
    ensures |Tables(root, 0, 0)| == 0 == TableCount(0)
  {
  }

  lemma TablesNext(root: int, n: nat)
    ensures var was, a, b := Tables(root, 0, n), Tab(root, 1, Prefix(1, n)), Tab(root, 0, Prefix(0, n));
      && Tables(root, 0, n + 1) == was + {a} + {b}
      && (a in was <==> n % 262144 != 0) && (b in was <==> n % 512 != 0)
  {
    TablesIn(root, n);
    CountStep(n);
    assert Tables(root, 0, n + 1) == Tables(root, 0, n) + TablesTo(root, n);
  }

  lemma CountStep(n: nat)
    ensures 0 <= Prefix(0, n) && (Prefix(0, n) < (n + 511) / 512 <==> n % 512 != 0)
    ensures 0 <= Prefix(1, n) && (Prefix(1, n) < (n + 262143) / 262144 <==> n % 262144 != 0)
    ensures TableCount(n + 1) == TableCount(n) + (if n % 512 == 0 then 1 else 0) + if n % 262144 == 0 then 1 else 0
  {
    Ceiling(n, 512);
    Ceiling(n, 262144);
  }

  lemma Ceiling(n: nat, d: nat)
    requires d == 512 || d == 262144
    ensures (n + d - 1) / d == if n % d == 0 then n / d else n / d + 1
    ensures (n + d) / d == n / d + 1
  {
  }

  /** What is missing for one more page is missing for all of them. */
  lemma TooFew(f0: int, d0: Dir, root: int, lo: int, mid: int, hi: int, u1: int, f1: int, d1: Dir, u2: int)
    requires lo <= mid < hi && Spent(f0, d0, root, lo, mid, u1, f1, d1)
    requires f1 < u2 + Lack(d1, Tables(root, mid, mid + 1))
    ensures f0 < u1 + u2 + Lack(d0, Tables(root, lo, mid + 1)) <= u1 + u2 + Lack(d0, Tables(root, lo, hi))
  {
    hide TabsGrow; hide Lack; hide Tables;
    TablesJoin(root, lo, mid, mid + 1);
    TablesJoin(root, lo, mid + 1, hi);
    TablesTab(root, lo, mid + 1);
    LackMore(d0, d1, Tables(root, lo, mid), Tables(root, mid, mid + 1));
    LackSubset(d0, Tables(root, lo, mid + 1), Tables(root, lo, hi));
  }

  /** How the entry for the next level answers. */
  lemma InnerEntry(pages: set<int>, mem: Mem, freelist: seq<int>, dir: Dir, owner: map<int, Slot>, root: int,
                   level: int, v: int)
    requires Consistent(pages, mem, freelist, dir, owner, {}) && 1 <= level <= 2 && 0 <= v < MAXVPN
    requires Tab(root, level, Prefix(level, v)) in dir
    ensures var up, down := Tab(root, level, Prefix(level, v)), Tab(root, level - 1, Prefix(level - 1, v));
      && dir[up] in mem && |mem[dir[up]]| == ENTRIES && dir[up] in pages
      && var pte := mem[dir[up]][Px(level, v)];
      && (pte.v <==> down in dir) && (pte.v ==> pte.ppn == dir[down])
      && (down !in dir ==> Tab(root, 0, v / 512) !in dir)
  {
    var p := Prefix(level, v);
    TablePage(pages, mem, dir, owner, Tab(root, level, p));
    PrefixStep(level, v);
    assert InnerOk(mem, dir, root, level, p, Px(level, v));
    if level == 2 && Tab(root, 0, v / 512) in dir {
      assert v / 512 / 512 == Prefix(1, v);
    }
  }

  /** Pages first .. first+k of one address space now map consecutive physical pages; every
      other translation is as before. */
  ghost predicate Adds(mem: Mem, dir: Dir, root: int, first: int, k: int, ppn: int, perm: Perm, mem': Mem, dir': Dir) {
    forall r, u :: 0 <= u < MAXVPN ==>
      Lookup(mem', dir', r, u)
      == if r == root && first <= u < first + k then MakePte(ppn + u - first, perm) else Lookup(mem, dir, r, u)
  }

  lemma AddsOne(m0: Mem, d0: Dir, root: int, first: int, k: int, ppn: int, perm: Perm, m1: Mem, d1: Dir, m2: Mem,
                d2: Dir, m3: Mem, d3: Dir)
    requires Adds(m0, d0, root, first, k, ppn, perm, m1, d1) && SameMap(m1, d1, m2, d2) && k >= 0
    requires Remaps(m2, d2, root, first + k, MakePte(ppn + k, perm), m3, d3)
    ensures Adds(m0, d0, root, first, k + 1, ppn, perm, m3, d3)
  {
  }

  lemma AddsSame(m0: Mem, d0: Dir, root: int, first: int, k: int, ppn: int, perm: Perm, m1: Mem, d1: Dir, m2: Mem,
                 d2: Dir)
    requires Adds(m0, d0, root, first, k, ppn, perm, m1, d1) && SameMap(m1, d1, m2, d2)
    ensures Adds(m0, d0, root, first, k, ppn, perm, m2, d2)
  {
  }

  /** Pages first .. first+k are unmapped; every other translation is as before. */
  ghost predicate Removes(mem: Mem, dir: Dir, root: int, first: int, k: int, mem': Mem, dir': Dir) {
    forall r, u :: 0 <= u < MAXVPN ==>
      Lookup(mem', dir', r, u) == if r == root && first <= u < first + k then ZERO else Lookup(mem, dir, r, u)
  }

  lemma RemovesOne(m0: Mem, d0: Dir, root: int, first: int, k: int, m1: Mem, d1: Dir, m2: Mem, d2: Dir, m3: Mem,
                   d3: Dir)
    requires Removes(m0, d0, root, first, k, m1, d1) && SameMap(m1, d1, m2, d2) && k >= 0
    requires Remaps(m2, d2, root, first + k, ZERO, m3, d3)
    ensures Removes(m0, d0, root, first, k + 1, m3, d3)
  {
  }

  /** The directory without the user pages first .. first+k of one address space. */
  ghost predicate Drops(dir: Dir, root: int, first: int, k: int, dir': Dir) {
    && (forall s :: s in dir' <==> s in dir && !(s.Usr? && s.root == root && first <= s.vpn < first + k))
    && (forall s :: s in dir' ==> dir'[s] == dir[s])
  }

  /** The directory and its inverse without the user page of a. */
  ghost function WithoutUser(dir: Dir, root: int, a: int): (r: Dir) { dir - {Usr(root, a)} }

  ghost function WithoutPage(dir: Dir, owner: map<int, Slot>, root: int, a: int): (r: map<int, Slot>)
  {
    if Usr(root, a) in dir then owner - {dir[Usr(root, a)]} else owner
  }

  /** The loose pages after one page is unmapped: a user page let go joins them, another page
      that is freed leaves them. */
  ghost function LooseNext(loose: set<int>, mem: Mem, dir: Dir, root: int, a: int, doFree: bool): (r: set<int>)
  {
    if Usr(root, a) in dir then (if doFree then loose else loose + {dir[Usr(root, a)]})
    else if doFree then loose - {Lookup(mem, dir, root, a).ppn} else loose
  }

  ghost function LooseAfter(loose: set<int>, mem: Mem, dir: Dir, root: int, v: int, k: int, doFree: bool): (r: set<int>)
    decreases k
  {
    if k <= 0 then loose
    else LooseNext(LooseAfter(loose, mem, dir, root, v, k - 1, doFree), mem, dir, root, v + k - 1, doFree)
  }

  /** The mapped pages are user pages or loose ones, no two the same. */
  ghost predicate Freeable(mem: Mem, dir: Dir, root: int, v: int, n: int, loose: set<int>) {
    && (forall u :: v <= u < v + n && Lookup(mem, dir, root, u).v && Usr(root, u) !in dir ==>
          Lookup(mem, dir, root, u).ppn in loose)
    && (forall u, w ::
          v <= u < w < v + n && Usr(root, u) !in dir && Usr(root, w) !in dir && Lookup(mem, dir, root, w).v ==>
          Lookup(mem, dir, root, u).ppn != Lookup(mem, dir, root, w).ppn)
  }

  lemma {:induction false} StillLoose(loose: set<int>, mem: Mem, dir: Dir, root: int, v: int, n: int, k: int, j: int)
    requires Freeable(mem, dir, root, v, n, loose) && 0 <= j <= k < n
    ensures Lookup(mem, dir, root, v + k).v && Usr(root, v + k) !in dir ==>
      Lookup(mem, dir, root, v + k).ppn in LooseAfter(loose, mem, dir, root, v, j, true)
    decreases j
  {
    hide Lookup;
    if j > 0 { StillLoose(loose, mem, dir, root, v, n, k, j - 1); }
  }

  /** The callers free exactly user pages, so nothing comes loose and no loose page goes. */
  lemma {:induction false} LooseSame(loose: set<int>, mem: Mem, dir: Dir, root: int, v: int, n: int, doFree: bool)
    requires forall u :: v <= u < v + n ==> (Usr(root, u) in dir <==> doFree)
    ensures LooseAfter(loose, mem, dir, root, v, n, doFree) == loose
    ensures doFree ==> Freeable(mem, dir, root, v, n, loose)
    decreases n
  {
    if n > 0 { LooseSame(loose, mem, dir, root, v, n - 1, doFree); }
  }

  /** The user pages still there keep their contents. */
  ghost predicate KeepsUsers(mem: Mem, dir: Dir, mem': Mem, dir': Dir) {
    forall r, v :: Usr(r, v) in dir' ==>
      var s := Usr(r, v);
      s in dir && dir'[s] == dir[s] && (dir[s] in mem ==> dir[s] in mem' && mem'[dir[s]] == mem[dir[s]])
  }

  lemma KeepsUsersTrans(m1: Mem, d1: Dir, m2: Mem, d2: Dir, m3: Mem, d3: Dir)
    requires KeepsUsers(m1, d1, m2, d2) && KeepsUsers(m2, d2, m3, d3)
    ensures KeepsUsers(m1, d1, m3, d3)
  {
  }

  lemma SameKeeps(m1: Mem, d1: Dir, m2: Mem, d2: Dir)
    requires SameUsers(m1, d1, m2, d2) && forall s :: s in d2 && s.Usr? ==> s in d1
    ensures KeepsUsers(m1, d1, m2, d2)
  {
  }

  /** The entry of a page in its bottom table. */
  lemma LeafEntry(pages: set<int>, mem: Mem, freelist: seq<int>, dir: Dir, owner: map<int, Slot>, root: int, v: int,
                  x: Pte)
    requires Consistent(pages, mem, freelist, dir, owner, {}) && 0 <= v < MAXVPN && Tab(root, 0, v / 512) in dir
    ensures var t := dir[Tab(root, 0, v / 512)];
      && t in mem && |mem[t]| == ENTRIES
      && Lookup(mem, dir, root, v) == (if mem[t][v % 512].v then mem[t][v % 512] else ZERO)
      && (Usr(root, v) in dir ==>
            mem[t][v % 512].v && IsLeaf(mem[t][v % 512]) && mem[t][v % 512].ppn == dir[Usr(root, v)])
      && Writes(mem, dir, root, v, x, mem[t := mem[t][v % 512 := x]])
  {
    TablePage(pages, mem, dir, owner, Tab(root, 0, v / 512));
    assert BottomOk(mem, dir, root, v / 512, v % 512);
    assert v / 512 * 512 + v % 512 == v;
  }

  lemma Unmapped(mem: Mem, dir: Dir, root: int, v: int)
    requires Tab(root, 0, v / 512) !in dir
    ensures Lookup(mem, dir, root, v) == ZERO
  {
  }

  datatype Outcome = Done | NoMemory | Panic

  /** What uvmcopy is to copy: permissions and contents of the first k pages. */
  ghost function SourcePerms(mem: Mem, dir: Dir, root: int, k: nat): (r: seq<Perm>)
    ensures |r| == k && forall i :: 0 <= i < k ==> r[i] == PermOf(Lookup(mem, dir, root, i))
  {
    seq(k, i => PermOf(Lookup(mem, dir, root, i)))
  }

  ghost predicate HasPages(mem: Mem, dir: Dir, root: int, k: int) {
    forall v :: 0 <= v < k ==> Usr(root, v) in dir && dir[Usr(root, v)] in mem
  }

  ghost function SourcePages(mem: Mem, dir: Dir, root: int, k: nat): (r: seq<seq<Pte>>)
    requires HasPages(mem, dir, root, k)
    ensures |r| == k && forall i :: 0 <= i < k ==> r[i] == mem[dir[Usr(root, i)]]
  {
    seq(k, i requires 0 <= i < k => mem[dir[Usr(root, i)]])
  }

  /** The user pages are those of before and first .. first+k of one address space. */
  ghost predicate Gains(dir: Dir, root: int, first: int, k: int, dir': Dir) {
    forall r, v :: Usr(r, v) in dir' <==> Usr(r, v) in dir || (r == root && first <= v < first + k)
  }

  /** One page more: mapped with the permissions, owned, filled, everything else as before. */
  ghost predicate Placed(m0: Mem, d0: Dir, root: int, a: int, perm: Perm, content: seq<Pte>, m: Mem, d: Dir) {
    && Gains(d0, root, a, 1, d) && SameUsers(m0, d0, m, d) && Usr(root, a) in d
    && Remaps(m0, d0, root, a, MakePte(d[Usr(root, a)], perm), m, d)
    && d[Usr(root, a)] in m && m[d[Usr(root, a)]] == content
  }

  /** Pages first .. first+k are there, with these permissions and contents; else as before. */
  ghost predicate PlacedAll(m0: Mem, d0: Dir, root: int, first: int, perms: seq<Perm>, contents: seq<seq<Pte>>, m: Mem,
                            d: Dir)
  {
    && |perms| == |contents| && Gains(d0, root, first, |perms|, d) && SameUsers(m0, d0, m, d)
    && (forall i :: 0 <= i < |perms| ==> PageIs(m, d, root, first + i, perms[i], contents[i]))
    && (forall r, u :: 0 <= u < MAXVPN && !(r == root && first <= u < first + |perms|) ==>
          Lookup(m, d, r, u) == Lookup(m0, d0, r, u))
  }

  ghost predicate PageIs(m: Mem, d: Dir, root: int, u: int, perm: Perm, content: seq<Pte>) {
    && Usr(root, u) in d && Lookup(m, d, root, u) == MakePte(d[Usr(root, u)], perm)
    && d[Usr(root, u)] in m && m[d[Usr(root, u)]] == content
  }

  lemma PlacedNone(m: Mem, d: Dir, root: int, first: int)
    ensures PlacedAll(m, d, root, first, [], [], m, d)
  {
  }

  lemma PlacedMore(m0: Mem, d0: Dir, root: int, first: int, perms: seq<Perm>, contents: seq<seq<Pte>>, m1: Mem, d1: Dir,
                   perm: Perm, content: seq<Pte>, m2: Mem, d2: Dir)
    requires PlacedAll(m0, d0, root, first, perms, contents, m1, d1) && 0 <= first && first + |perms| < MAXVPN
    requires Placed(m1, d1, root, first + |perms|, perm, content, m2, d2)
    ensures PlacedAll(m0, d0, root, first, perms + [perm], contents + [content], m2, d2)
  {
    var k, perms', contents' := |perms|, perms + [perm], contents + [content];
    SameUsersTrans(m0, d0, m1, d1, m2, d2);
    forall i | 0 <= i < k + 1 ensures PageIs(m2, d2, root, first + i, perms'[i], contents'[i]) {
      if i < k { assert PageIs(m1, d1, root, first + i, perms[i], contents[i]); }
    }
  }

  lemma PlacedSame(m0: Mem, d0: Dir, root: int, first: int, perms: seq<Perm>, contents: seq<seq<Pte>>, m1: Mem, d1: Dir,
                   m2: Mem, d2: Dir, r2: int)
    requires PlacedAll(m0, d0, root, first, perms, contents, m1, d1) && 0 <= first && first + |perms| <= MAXVPN
    requires SameMap(m1, d1, m2, d2) && SameUsers(m1, d1, m2, d2) && Grew(d1, d2, r2)
    ensures PlacedAll(m0, d0, root, first, perms, contents, m2, d2)
  {
    SameUsersTrans(m0, d0, m1, d1, m2, d2);
    forall i | 0 <= i < |perms| ensures PageIs(m2, d2, root, first + i, perms[i], contents[i]) {
      assert PageIs(m1, d1, root, first + i, perms[i], contents[i]);
    }
  }

  /** Taking the placed pages away again restores the address space. */
  lemma RolledBack(m0: Mem, d0: Dir, root: int, first: int, perms: seq<Perm>, contents: seq<seq<Pte>>, m1: Mem, d1: Dir,
                   m2: Mem, d2: Dir)
    requires PlacedAll(m0, d0, root, first, perms, contents, m1, d1) && 0 <= first && first + |perms| <= MAXVPN
    requires Removes(m1, d1, root, first, |perms|, m2, d2) && Drops(d1, root, first, |perms|, d2)
    requires KeepsUsers(m1, d1, m2, d2)
    requires forall u :: first <= u < first + |perms| ==> !Lookup(m0, d0, root, u).v && Usr(root, u) !in d0
    ensures SameMap(m0, d0, m2, d2) && SameUsers(m0, d0, m2, d2) && Gains(d0, root, first, 0, d2)
  {
    forall r, u | 0 <= u < MAXVPN ensures Lookup(m2, d2, r, u) == Lookup(m0, d0, r, u) {
      assert !Lookup(m0, d0, r, u).v ==> Lookup(m0, d0, r, u) == ZERO;
    }
    forall r, v | Usr(r, v) in d0
      ensures Usr(r, v) in d2 && d2[Usr(r, v)] == d0[Usr(r, v)]
      ensures d0[Usr(r, v)] in m0 ==> d0[Usr(r, v)] in m2 && m2[d0[Usr(r, v)]] == m0[d0[Usr(r, v)]]
    {
      assert Usr(r, v) in d1;
    }
  }

  function Copies<T>(n: nat, x: T): (s: seq<T>)
    ensures |s| == n && forall i :: 0 <= i < n ==> s[i] == x
  {
    seq(n, i => x)
  }

  /** PGROUNDUP(sz) / PGSIZE. */
  function PagesFor(sz: int): (n: int) { (sz + 4095) / 4096 }

  lemma PlacePage(pages: set<int>, m0: Mem, d0: Dir, m1: Mem, d1: Dir, freelist: seq<int>, owner: map<int, Slot>,
                  root: int, a: int, n: int, perm: Perm)
    requires Consistent(pages, m1, freelist, d1, owner, {}) && 0 <= a < MAXVPN && Usr(root, a) !in d1
    requires Grew(d0, d1, root) && SameUsers(m0, d0, m1, d1) && Adds(m0, d0, root, a, 1, n, perm, m1, d1)
    requires n in Limbo(pages, freelist, owner) && (perm.r || perm.w || perm.x)
    ensures n in m1 && Consistent(pages, m1, freelist, d1[Usr(root, a) := n], owner[n := Usr(root, a)], {})
    ensures Placed(m0, d0, root, a, perm, m1[n], m1, d1[Usr(root, a) := n])
    ensures Limbo(pages, freelist, owner[n := Usr(root, a)]) == Limbo(pages, freelist, owner) - {n}
  {
    hide TreeOk; hide ShapeOk; hide DirOk; hide FreeOk;
    assert Lookup(m1, d1, root, a) == MakePte(n, perm);
    AddUser(pages, m1, freelist, d1, owner, root, a, n);
    var d2 := d1[Usr(root, a) := n];
    forall r, v ensures Usr(r, v) in d2 <==> Usr(r, v) in d0 || (r == root && a <= v < a + 1) {}
  }

  // ---------------------------------------------------------------- taking a tree apart

  ghost predicate NoLeaves(mem: Mem, dir: Dir, root: int) {
    forall v :: 0 <= v < MAXVPN ==> !Lookup(mem, dir, root, v).v
  }

  function Up(p: int, n: int): (q: int) { if n <= 0 then p else if n == 1 then p / 512 else p / 512 / 512 }

  /** q is s or a table below it. */
  predicate Under(s: Slot, q: Slot)
    requires s.Tab?
  {
    q.Tab? && q.root == s.root && q.level <= s.level && Up(q.prefix, s.level - q.level) == s.prefix
  }

  /** q lies below one of the first i entries of s. */
  predicate Gone(s: Slot, i: int, q: Slot)
    requires s.Tab?
  {
    && q.Tab? && q.root == s.root && q.level < s.level
    && s.prefix * 512 <= Up(q.prefix, s.level - 1 - q.level) < s.prefix * 512 + i
  }

  ghost predicate Prunes(dir: Dir, s: Slot, dir': Dir)
    requires s.Tab?
  {
    forall q :: (q in dir' <==> q in dir && !Under(s, q)) && (q in dir' ==> dir'[q] == dir[q])
  }

  ghost predicate PrunesTo(dir: Dir, s: Slot, i: int, dir': Dir)
    requires s.Tab?
  {
    forall q :: (q in dir' <==> q in dir && !Gone(s, i, q)) && (q in dir' ==> dir'[q] == dir[q])
  }

  /** The torn tables are the ones above s. */
  ghost predicate Above(s: Slot, torn: set<Slot>)
    requires s.Tab?
  {
    && (forall q :: q in torn ==> q.Tab? && q.root == s.root && q.level > s.level)
    && (s.level < 2 ==> Tab(s.root, s.level + 1, s.prefix / 512) in torn)
  }

  /** Pages still in the directory keep their contents. */
  ghost predicate KeepsTables(mem: Mem, mem': Mem, dir': Dir) {
    forall q :: q in dir' && dir'[q] in mem ==> dir'[q] in mem' && mem'[dir'[q]] == mem[dir'[q]]
  }

  ghost predicate KeepsTablesBut(mem: Mem, mem': Mem, dir': Dir, s: Slot) {
    forall q :: q in dir' && q != s && dir'[q] in mem ==> dir'[q] in mem' && mem'[dir'[q]] == mem[dir'[q]]
  }

  /** The entries of s from i on are as they were. */
  ghost predicate Entries(mem: Mem, dir: Dir, s: Slot, i: int, mem': Mem) {
    && s in dir && dir[s] in mem && dir[s] in mem' && |mem[dir[s]]| == |mem'[dir[s]]| == ENTRIES
    && forall k :: i <= k < ENTRIES && 0 <= k ==> mem'[dir[s]][k] == mem[dir[s]][k]
  }

  lemma TearStart(pages: set<int>, mem: Mem, freelist: seq<int>, dir: Dir, owner: map<int, Slot>, torn: set<Slot>,
                  s: Slot)
    requires Consistent(pages, mem, freelist, dir, owner, torn) && s.Tab? && s in dir
    ensures Consistent(pages, mem, freelist, dir, owner, torn + {s})
    ensures PrunesTo(dir, s, 0, dir) && KeepsTablesBut(mem, mem, dir, s) && Entries(mem, dir, s, 0, mem)
  {
    TablePage(pages, mem, dir, owner, s);
  }

  /** The entry freewalk looks at: nothing, or the table below. */
  lemma TornEntry(pages: set<int>, m0: Mem, f0: seq<int>, d0: Dir, o0: map<int, Slot>, torn: set<Slot>, s: Slot, i: int,
                  mem: Mem, dir: Dir)
    requires Consistent(pages, m0, f0, d0, o0, torn) && s.Tab? && s in d0 && Above(s, torn) && NoLeaves(m0, d0, s.root)
    requires 0 <= i < 512 && Entries(m0, d0, s, i, mem) && PrunesTo(d0, s, i, dir)
    ensures var pte, c := mem[d0[s]][i], Tab(s.root, s.level - 1, s.prefix * 512 + i);
      && (pte.v ==> s.level >= 1 && !IsLeaf(pte) && c in dir && dir[c] == pte.ppn)
      && (!pte.v ==> s.level <= 0 || c !in d0)
  {
    if s.level >= 1 {
      assert InnerOk(m0, d0, s.root, s.level, s.prefix, i);
    } else {
      var v := s.prefix * 512 + i;
      SplitIndex(s.prefix, i, 0, 0);
      assert Lookup(m0, d0, s.root, v).v <==> m0[d0[s]][i].v;
    }
  }

  lemma AboveChild(s: Slot, torn: set<Slot>, i: int)
    requires s.Tab? && Above(s, torn) && 0 <= i < 512
    ensures Above(Tab(s.root, s.level - 1, s.prefix * 512 + i), torn + {s})
  {
    SplitIndex(s.prefix, i, 0, 0);
  }

  lemma GoneMore(s: Slot, i: int, q: Slot)
    requires s.Tab? && 0 <= i < 512
    ensures Gone(s, i + 1, q) <==> Gone(s, i, q) || Under(Tab(s.root, s.level - 1, s.prefix * 512 + i), q)
  {
  }

  lemma PrunedChild(pages: set<int>, m0: Mem, d0: Dir, s: Slot, i: int, m1: Mem, d1: Dir, mem: Mem, dir: Dir,
                    freelist: seq<int>, owner: map<int, Slot>, torn: set<Slot>)
    requires s.Tab? && 0 <= i < 512 && PrunesTo(d0, s, i, d1) && s in d1
    requires Prunes(d1, Tab(s.root, s.level - 1, s.prefix * 512 + i), dir)
    requires KeepsTablesBut(m0, m1, d1, s) && Entries(m0, d0, s, i, m1) && KeepsTables(m1, mem, dir)
    ensures PrunesTo(d0, s, i + 1, dir) && s in dir && dir[s] == d0[s]
    ensures KeepsTablesBut(m0, mem, dir, s) && Entries(m0, d0, s, i, mem)
  {
    forall q
      ensures Gone(s, i + 1, q) <==> Gone(s, i, q) || Under(Tab(s.root, s.level - 1, s.prefix * 512 + i), q)
    {
      GoneMore(s, i, q);
    }
  }

  lemma ClearEntry(pages: set<int>, mem: Mem, freelist: seq<int>, dir: Dir, owner: map<int, Slot>, torn: set<Slot>,
                   s: Slot, i: int)
    requires Consistent(pages, mem, freelist, dir, owner, torn) && s.Tab? && s in dir && s in torn && s.level >= 1
    requires 0 <= i < 512
    requires NoLeaves(mem, dir, s.root)
    ensures dir[s] in mem && |mem[dir[s]]| == ENTRIES
    ensures var mem' := mem[dir[s] := mem[dir[s]][i := ZERO]];
      Consistent(pages, mem', freelist, dir, owner, torn) && NoLeaves(mem', dir, s.root)
  {
    TablePage(pages, mem, dir, owner, s);
    var mem' := mem[dir[s] := mem[dir[s]][i := ZERO]];
    forall r, l, p, k | 1 <= l <= 2 && Tab(r, l, p) !in torn ensures InnerOk(mem', dir, r, l, p, k) {
      assert InnerOk(mem, dir, r, l, p, k);
    }
    forall r, p, k | Tab(r, 0, p) !in torn ensures BottomOk(mem', dir, r, p, k) {
      assert BottomOk(mem, dir, r, p, k);
    }
    forall v | 0 <= v < MAXVPN ensures !Lookup(mem', dir, s.root, v).v {
      assert !Lookup(mem, dir, s.root, v).v;
    }
  }

  lemma ClearedTables(m0: Mem, d0: Dir, s: Slot, i: int, m2: Mem, dir: Dir, mem: Mem, pages: set<int>,
                      owner: map<int, Slot>)
    requires s in d0 && s in dir && dir[s] == d0[s] && Entries(m0, d0, s, i, m2) && 0 <= i < 512
    requires KeepsTablesBut(m0, m2, dir, s)
    requires DirOk(pages, dir, owner) && mem == m2[d0[s] := m2[d0[s]][i := ZERO]]
    ensures KeepsTablesBut(m0, mem, dir, s) && Entries(m0, d0, s, i + 1, mem)
  {
  }

  /** Nothing hangs below an empty entry. */
  lemma PrunedNone(d0: Dir, s: Slot, i: int, dir: Dir)
    requires ShapeOk(d0) && s.Tab? && s in d0 && 0 <= i < 512 && PrunesTo(d0, s, i, dir)
    requires s.level <= 0 || Tab(s.root, s.level - 1, s.prefix * 512 + i) !in d0
    ensures PrunesTo(d0, s, i + 1, dir)
  {
    var c := Tab(s.root, s.level - 1, s.prefix * 512 + i);
    assert s == Tab(s.root, s.level, s.prefix);
    forall q | q in d0 ensures Gone(s, i + 1, q) <==> Gone(s, i, q) {
      GoneMore(s, i, q);
      if Under(c, q) { UnderHasRoot(d0, c, q); }
    }
  }

  lemma UnderHasRoot(dir: Dir, c: Slot, q: Slot)
    requires ShapeOk(dir) && c.Tab? && c.level <= 2 && q in dir && Under(c, q)
    ensures c in dir
  {
    if q.level < c.level {
      var q1 := Tab(q.root, q.level + 1, q.prefix / 512);
      assert q == Tab(q.root, q.level, q.prefix);
      assert q1 in dir;
      if q1.level < c.level { assert Tab(q1.root, q1.level + 1, q1.prefix / 512) in dir; }
    }
  }

  lemma ShapeOf(pages: set<int>, mem: Mem, freelist: seq<int>, dir: Dir, owner: map<int, Slot>, torn: set<Slot>)
    requires Consistent(pages, mem, freelist, dir, owner, torn)
    ensures ShapeOk(dir) && DirOk(pages, dir, owner)
  {
  }

  lemma UpSplit(p: int, n: int)
    requires 1 <= n <= 2
    ensures Up(p, n) == Up(p, n - 1) / 512
  {
  }

  lemma PrunedAll(d0: Dir, s: Slot, dir: Dir)
    requires s.Tab? && s in d0 && ShapeOk(d0) && PrunesTo(d0, s, 512, dir)
    ensures Prunes(d0, s, dir - {s})
  {
    assert s == Tab(s.root, s.level, s.prefix);
    forall q | q in d0 ensures Under(s, q) <==> q == s || Gone(s, 512, q) {
      if q.Tab? && q.root == s.root && q.level < s.level {
        assert q == Tab(q.root, q.level, q.prefix);
        UpSplit(q.prefix, s.level - q.level);
      }
    }
  }

  lemma UnderStep(s: Slot, r: int, l: int, p: int)
    requires s.Tab? && 0 <= l && s.level <= 2
    ensures Under(s, Tab(r, l + 1, p / 512)) ==> Under(s, Tab(r, l, p))
  {
  }

  /** With everything below it gone, a table leaves the directory in good shape. */
  lemma DropShape(pages: set<int>, m0: Mem, f0: seq<int>, d0: Dir, o0: map<int, Slot>, dir: Dir, torn: set<Slot>,
                  s: Slot)
    requires Consistent(pages, m0, f0, d0, o0, torn) && s.Tab? && NoLeaves(m0, d0, s.root) && s in d0 && Above(s, torn)
    requires Prunes(d0, s, dir)
    ensures ShapeOk(dir)
  {
    assert s == Tab(s.root, s.level, s.prefix);
    forall r, l, p | Tab(r, l, p) in dir && l < 2 ensures Tab(r, l + 1, p / 512) in dir {
      var q := Tab(r, l + 1, p / 512);
      assert Tab(r, l, p) in d0 && q in d0;
      UnderStep(s, r, l, p);
    }
    forall r, v | Usr(r, v) in dir ensures Tab(r, 0, v / 512) in dir {
      var q := Tab(r, 0, v / 512);
      if Under(s, q) {
        assert q !in torn;
        UserSeen(pages, m0, f0, d0, o0, torn, r, v);
      }
    }
  }

  /** A user page of a table in order is mapped. */
  lemma UserSeen(pages: set<int>, mem: Mem, freelist: seq<int>, dir: Dir, owner: map<int, Slot>, torn: set<Slot>,
                 root: int, v: int)
    requires Consistent(pages, mem, freelist, dir, owner, torn) && Usr(root, v) in dir && Tab(root, 0, v / 512) !in torn
    ensures 0 <= v < MAXVPN && Lookup(mem, dir, root, v).v && Lookup(mem, dir, root, v).ppn == dir[Usr(root, v)]
  {
    TablePage(pages, mem, dir, owner, Tab(root, 0, v / 512));
    assert BottomOk(mem, dir, root, v / 512, v % 512);
    assert v / 512 * 512 + v % 512 == v;
  }

  lemma DropTable(pages: set<int>, mem: Mem, freelist: seq<int>, dir: Dir, owner: map<int, Slot>, torn: set<Slot>,
                  s: Slot)
    requires Consistent(pages, mem, freelist, dir, owner, torn + {s}) && s.Tab? && s in dir && Above(s, torn)
    requires ShapeOk(dir - {s})
    ensures Consistent(pages, mem, freelist, dir - {s}, owner - {dir[s]}, torn)
  {
    var dir', owner' := dir - {s}, owner - {dir[s]};
    InDir(pages, dir, owner, s);
    forall r, l, p, k | 1 <= l <= 2 && Tab(r, l, p) !in torn ensures InnerOk(mem, dir', r, l, p, k) {
      if Tab(r, l, p) != s && Tab(r, l, p) in dir {
        assert InnerOk(mem, dir, r, l, p, k);
        TablePage(pages, mem, dir, owner, Tab(r, l, p));
        if 0 <= k < 512 { SplitIndex(p, k, 0, 0); }
      }
    }
    forall r, p, k | Tab(r, 0, p) !in torn ensures BottomOk(mem, dir', r, p, k) {
      if Tab(r, 0, p) != s { assert BottomOk(mem, dir, r, p, k); }
    }
  }

  lemma LooseTable(pages: set<int>, mem: Mem, freelist: seq<int>, dir: Dir, owner: map<int, Slot>, torn: set<Slot>,
                   s: Slot)
    requires Consistent(pages, mem, freelist, dir, owner, torn) && s in dir
    ensures dir[s] !in Limbo(pages, freelist, owner) && dir[s] in Limbo(pages, freelist, owner - {dir[s]})
    ensures Limbo(pages, freelist, owner - {dir[s]}) == Limbo(pages, freelist, owner) + {dir[s]}
  {
    InDir(pages, dir, owner, s);
    var n := dir[s];
    assert (owner - {n}).Keys == owner.Keys - {n};
    assert n !in freelist;
  }

  lemma FreedTable(pages: set<int>, m0: Mem, m3: Mem, mem: Mem, d2: Dir, dir: Dir, s: Slot, owner: map<int, Slot>,
                   page: seq<Pte>)
    requires DirOk(pages, d2, owner) && s.Tab? && s in d2 && dir == d2 - {s} && KeepsTablesBut(m0, m3, d2, s)
    requires NoLeaves(m3, d2, s.root)
    requires mem == m3[d2[s] := page]
    ensures KeepsTables(m0, mem, dir) && NoLeaves(mem, dir, s.root)
  {
    InDir(pages, d2, owner, s);
    forall q | q in dir && dir[q] in m0 ensures dir[q] in mem && mem[dir[q]] == m0[dir[q]] {
      InDir(pages, d2, owner, q);
    }
    forall v | 0 <= v < MAXVPN ensures !Lookup(mem, dir, s.root, v).v {
      var t := Tab(s.root, 0, v / 512);
      assert !Lookup(m3, d2, s.root, v).v;
      if t in dir { InDir(pages, d2, owner, t); }
    }
  }

  // ---------------------------------------------------------------- whole address spaces

  /** Nothing in the directory belongs to this root. */
  ghost predicate Fresh(dir: Dir, root: int) {
    forall q: Slot :: q in dir ==> q.root != root
  }

  /** The address space of a process: user pages 0 .. n, mapped, and the pages `top`. */
  ghost predicate Space(mem: Mem, dir: Dir, root: int, n: int, top: set<int>) {
    && Tab(root, 2, 0) in dir && 0 <= n <= MAXVPN
    && (forall v :: Usr(root, v) in dir <==> 0 <= v < n)
    && (forall v :: 0 <= v < MAXVPN ==> (Lookup(mem, dir, root, v).v <==> v < n || v in top))
    && (forall v :: 0 <= v < MAXVPN && v in top ==> !Bare(Lookup(mem, dir, root, v)))
  }

  /** Other address spaces keep tables, pages, contents and translations. */
  ghost predicate Apart(m0: Mem, d0: Dir, root: int, mem: Mem, dir: Dir) {
    && Others(d0, dir, root)
    && (forall r, u :: r != root && 0 <= u < MAXVPN ==> Lookup(mem, dir, r, u) == Lookup(m0, d0, r, u))
    && (forall r, v :: r != root && Usr(r, v) in d0 ==>
          var s := Usr(r, v); s in dir && (d0[s] in m0 ==> d0[s] in mem && mem[d0[s]] == m0[d0[s]]))
  }

  lemma ApartTrans(m1: Mem, d1: Dir, root: int, m2: Mem, d2: Dir, m3: Mem, d3: Dir)
    requires Apart(m1, d1, root, m2, d2) && Apart(m2, d2, root, m3, d3)
    ensures Apart(m1, d1, root, m3, d3)
  {
  }

  lemma ApartRefl(m: Mem, d: Dir, root: int)
    ensures Apart(m, d, root, m, d)
  {
  }

  lemma ApartSpace(m0: Mem, d0: Dir, root: int, mem: Mem, dir: Dir, other: int, n: int, top: set<int>)
    requires Apart(m0, d0, root, mem, dir) && other != root && Space(m0, d0, other, n, top)
    ensures Space(mem, dir, other, n, top)
  {
    assert Tab(other, 2, 0).root == other;
    forall v ensures Usr(other, v) in dir <==> 0 <= v < n { assert Usr(other, v).root == other; }
  }

  lemma SameApart(m0: Mem, d0: Dir, root: int, mem: Mem, dir: Dir)
    requires SameMap(m0, d0, mem, dir) && SameUsers(m0, d0, mem, dir) && Others(d0, dir, root)
    ensures Apart(m0, d0, root, mem, dir)
  {
  }

  lemma SpaceMap(m0: Mem, d0: Dir, root: int, n: int, top: set<int>, a: int, k: int, ppn: int, perm: Perm, mem: Mem,
                 dir: Dir)
    requires Space(m0, d0, root, n, top) && Adds(m0, d0, root, a, k, ppn, perm, mem, dir) && 0 <= k <= 1
    requires Grew(d0, dir, root) && SameUsers(m0, d0, mem, dir)
    requires perm.r || perm.w || perm.x
    ensures Space(mem, dir, root, n, if k == 1 then top + {a} else top) && Apart(m0, d0, root, mem, dir)
  {
  }

  lemma SpaceUnmap(m0: Mem, d0: Dir, root: int, n: int, top: set<int>, a: int, mem: Mem, dir: Dir)
    requires Space(m0, d0, root, n, top) && n <= a < MAXVPN && Removes(m0, d0, root, a, 1, mem, dir)
    requires Drops(d0, root, a, 1, dir) && KeepsUsers(m0, d0, mem, dir)
    ensures Space(mem, dir, root, n, top - {a}) && Apart(m0, d0, root, mem, dir)
  {
    forall v ensures Usr(root, v) in dir <==> 0 <= v < n {}
  }

  lemma SpaceShrink(m0: Mem, d0: Dir, root: int, n: int, top: set<int>, k: int, mem: Mem, dir: Dir)
    requires Space(m0, d0, root, n, top) && 0 <= k <= n && (forall a :: a in top ==> a >= n)
    requires Removes(m0, d0, root, k, n - k, mem, dir) && Drops(d0, root, k, n - k, dir) && KeepsUsers(m0, d0, mem, dir)
    ensures Space(mem, dir, root, k, top) && Apart(m0, d0, root, mem, dir)
  {
    forall v ensures Usr(root, v) in dir <==> 0 <= v < k {}
  }

  lemma SpaceGrow(m0: Mem, d0: Dir, root: int, n: int, top: set<int>, perms: seq<Perm>, contents: seq<seq<Pte>>,
                  mem: Mem, dir: Dir)
    requires Space(m0, d0, root, n, top) && n + |perms| <= MAXVPN
    requires PlacedAll(m0, d0, root, n, perms, contents, mem, dir)
    requires KeepsTabs(d0, dir) && Others(d0, dir, root) && forall u :: n <= u < n + |perms| ==> u !in top
    ensures Space(mem, dir, root, n + |perms|, top) && Apart(m0, d0, root, mem, dir)
  {
    PlacedMapped(m0, d0, root, n, perms, contents, mem, dir);
  }

  lemma SpaceSame(m0: Mem, d0: Dir, root: int, n: int, top: set<int>, first: int, mem: Mem, dir: Dir)
    requires Space(m0, d0, root, n, top) && SameMap(m0, d0, mem, dir) && SameUsers(m0, d0, mem, dir)
    requires Gains(d0, root, first, 0, dir)
    requires KeepsTabs(d0, dir) && Others(d0, dir, root)
    ensures Space(mem, dir, root, n, top) && Apart(m0, d0, root, mem, dir)
  {
  }

  lemma SpaceNew(m0: Mem, d0: Dir, root: int, mem: Mem, dir: Dir)
    requires Fresh(d0, root) && dir == d0[Tab(root, 2, 0) := root] && NoLeaves(mem, dir, root)
    requires SameMap(m0, d0, mem, dir) && SameUsers(m0, d0, mem, dir)
    ensures Space(mem, dir, root, 0, {}) && Apart(m0, d0, root, mem, dir)
  {
    forall v ensures Usr(root, v) !in dir { assert Usr(root, v).root == root; }
  }

  lemma SpaceGone(m1: Mem, d1: Dir, root: int, mem: Mem, dir: Dir)
    requires ShapeOk(d1) && Prunes(d1, Tab(root, 2, 0), dir) && KeepsTables(m1, mem, dir) && Space(m1, d1, root, 0, {})
    requires forall q: Slot :: q in d1 ==> d1[q] in m1
    ensures Apart(m1, d1, root, mem, dir) && Fresh(dir, root)
  {
    PrunedRoot(d1, root, dir);
    forall r, u | r != root && 0 <= u < MAXVPN ensures Lookup(mem, dir, r, u) == Lookup(m1, d1, r, u) {
      assert Tab(r, 0, u / 512).root == r;
    }
    forall r, v | r != root && Usr(r, v) in d1 ensures Usr(r, v) in dir { assert Usr(r, v).root == r; }
  }

  lemma PagesOf(pages: set<int>, mem: Mem, freelist: seq<int>, dir: Dir, owner: map<int, Slot>)
    requires Consistent(pages, mem, freelist, dir, owner, {})
    ensures forall q: Slot :: q in dir ==> dir[q] in mem
  {
    forall q: Slot | q in dir ensures dir[q] in mem { TablePage(pages, mem, dir, owner, q); }
  }

  lemma SpaceMapped(pages: set<int>, mem: Mem, freelist: seq<int>, dir: Dir, owner: map<int, Slot>, root: int, n: int,
                    top: set<int>)
    requires Consistent(pages, mem, freelist, dir, owner, {}) && Space(mem, dir, root, n, top)
    ensures forall v :: 0 <= v < n ==>
      Lookup(mem, dir, root, v).v && Usr(root, v) in dir && !Bare(Lookup(mem, dir, root, v))
    ensures forall v :: n <= v < MAXVPN ==> (Lookup(mem, dir, root, v).v <==> v in top) && Usr(root, v) !in dir
    ensures forall v :: n <= v < MAXVPN && v in top ==> !Bare(Lookup(mem, dir, root, v))
    ensures HasPages(mem, dir, root, n)
  {
    PagesOf(pages, mem, freelist, dir, owner);
    forall v | 0 <= v < n ensures !Bare(Lookup(mem, dir, root, v)) {
      UserMapped(pages, mem, freelist, dir, owner, root, v);
    }
  }

  lemma SpaceEmpty(mem: Mem, dir: Dir, root: int)
    requires Space(mem, dir, root, 0, {})
    ensures NoLeaves(mem, dir, root)
  {
  }

  lemma FreshRoot(dir: Dir, root: int, pages: set<int>, owner: map<int, Slot>)
    requires ShapeOk(dir) && DirOk(pages, dir, owner) && root !in owner
    ensures Fresh(dir, root)
  {
    forall q: Slot | q in dir ensures q.root != root {
      if q.root == root {
        var t := if q.Tab? then q else Tab(root, 0, q.vpn / 512);
        assert q.Usr? ==> q == Usr(root, q.vpn);
        assert t == Tab(root, t.level, t.prefix) && t in dir;
        UnderHasRoot(dir, Tab(root, 2, 0), t);
      }
    }
  }

  lemma RootConsistent(pages: set<int>, mem: Mem, freelist: seq<int>, dir: Dir, owner: map<int, Slot>, root: int)
    requires Consistent(pages, mem, freelist, dir, owner, {}) && root in Limbo(pages, freelist, owner)
    ensures var mem', dir', owner' :=
        mem[root := Page(ZERO)], dir[Tab(root, 2, 0) := root], owner[root := Tab(root, 2, 0)];
      && Consistent(pages, mem', freelist, dir', owner', {}) && Fresh(dir, root)
      && SameMap(mem, dir, mem', dir') && SameUsers(mem, dir, mem', dir') && NoLeaves(mem', dir', root)
      && Limbo(pages, freelist, owner') == Limbo(pages, freelist, owner) - {root}
  {
    FreshRoot(dir, root, pages, owner);
    var mem', dir', owner' := mem[root := Page(ZERO)], dir[Tab(root, 2, 0) := root], owner[root := Tab(root, 2, 0)];
    assert owner'.Keys == owner.Keys + {root};
    forall r, l, p, k | 1 <= l <= 2 ensures InnerOk(mem', dir', r, l, p, k) {
      assert InnerOk(mem, dir, r, l, p, k);
      assert Tab(root, 1, k) !in dir;
    }
    forall r, p, k ensures BottomOk(mem', dir', r, p, k) { assert BottomOk(mem, dir, r, p, k); }
    forall r, v | 0 <= v < MAXVPN ensures Lookup(mem', dir', r, v) == Lookup(mem, dir, r, v) {}
    forall v | 0 <= v < MAXVPN ensures !Lookup(mem', dir', root, v).v { assert Tab(root, 0, v / 512) !in dir; }
  }

  lemma RootOf(pages: set<int>, mem: Mem, freelist: seq<int>, dir: Dir, owner: map<int, Slot>, root: int)
    requires Consistent(pages, mem, freelist, dir, owner, {}) && Tab(root, 2, 0) in dir
    ensures dir[Tab(root, 2, 0)] == root && Above(Tab(root, 2, 0), {})
  {
  }

  lemma PrunedRoot(d1: Dir, root: int, dir: Dir)
    requires ShapeOk(d1) && Prunes(d1, Tab(root, 2, 0), dir) && forall v :: Usr(root, v) !in d1
    ensures Others(d1, dir, root) && Fresh(dir, root)
  {
    var s := Tab(root, 2, 0);
    forall l, p | Tab(root, l, p) in d1 ensures Tab(root, l, p) !in dir { assert Up(p, 2 - l) == 0; }
    forall q: Slot | q in dir ensures q.root != root {
      match q
      case Usr(r, v) => assert Usr(r, v) in d1;
      case Tab(r, l, p) => assert Tab(r, l, p) in d1;
    }
    forall q: Slot | q.root != root ensures !Under(s, q) {}
  }

  // ---------------------------------------------------------------- the two pages on top

  /** The tables of a new process: its root and the two that lead to the top. */
  function TopTables(root: int): (r: set<Slot>) { {Tab(root, 2, 0)} + Tables(root, TRAPFRAME, MAXVPN) }

  lemma TopJoin(root: int)
    ensures Tables(root, TRAPFRAME, MAXVPN) == Tables(root, TRAMPOLINE, MAXVPN) + Tables(root, TRAPFRAME, TRAMPOLINE)
    ensures forall s :: s in Tables(root, TRAPFRAME, MAXVPN) ==> s.Tab?
  {
    TablesJoin(root, TRAPFRAME, TRAMPOLINE, MAXVPN);
    TablesTab(root, TRAPFRAME, MAXVPN);
  }

  lemma TopLack(d0: Dir, root: int)
    requires Fresh(d0, root)
    ensures var d1 := d0[Tab(root, 2, 0) := root];
      Lack(d1, Tables(root, TRAMPOLINE, MAXVPN)) <= Lack(d1, Tables(root, TRAPFRAME, MAXVPN)) == 2
  {
    var d1 := d0[Tab(root, 2, 0) := root];
    TopJoin(root);
    LackSubset(d1, Tables(root, TRAMPOLINE, MAXVPN), Tables(root, TRAPFRAME, MAXVPN));
    hide Tables;
    TopAre(root);
    var a, b := Tab(root, 1, 255), Tab(root, 0, 131071);
    assert a.root == root && b.root == root;
    assert {a, b} - d1.Keys == {a, b};
  }

  lemma TopAre(root: int)
    ensures Tables(root, TRAPFRAME, MAXVPN) == {Tab(root, 1, 255), Tab(root, 0, 131071)}
  {
    TopJoin(root);
    TablesOne(root, TRAPFRAME);
    TablesOne(root, TRAMPOLINE);
    hide Tables;
  }

  lemma TopTooFew(f1: int, d1: Dir, root: int, f2: int, d2: Dir)
    requires Spent(f1, d1, root, TRAMPOLINE, MAXVPN, 0, f2, d2) && f2 < Lack(d2, Tables(root, TRAPFRAME, TRAMPOLINE))
    ensures f1 < Lack(d1, Tables(root, TRAPFRAME, MAXVPN))
  {
    hide TabsGrow; hide Lack; hide Tables;
    TopJoin(root);
    LackMore(d1, d2, Tables(root, TRAMPOLINE, MAXVPN), Tables(root, TRAPFRAME, TRAMPOLINE));
  }

  lemma TopSpent(d0: Dir, f1: int, root: int, f2: int, d2: Dir, f3: int, d3: Dir)
    requires Fresh(d0, root) && Spent(f1, d0[Tab(root, 2, 0) := root], root, TRAMPOLINE, MAXVPN, 0, f2, d2)
    requires Spent(f2, d2, root, TRAPFRAME, TRAMPOLINE, 0, f3, d3)
    ensures f3 == f1 - 2 && TabsGrow(d0, d3, TopTables(root))
  {
    hide Lack; hide Tables;
    var d1 := d0[Tab(root, 2, 0) := root];
    TopJoin(root);
    TopLack(d0, root);
    LackMore(d1, d2, Tables(root, TRAMPOLINE, MAXVPN), Tables(root, TRAPFRAME, TRAMPOLINE));
  }

  class Kernel {
    ghost const pages: set<int>
    var mem: Mem
    var freelist: seq<int>
    ghost var dir: Dir
    ghost var owner: map<int, Slot>

    ghost predicate Valid(torn: set<Slot>)
      reads this
    {
      Consistent(pages, mem, freelist, dir, owner, torn)
    }

    ghost function Loose(): (r: set<int>)
      reads this
    {
      Limbo(pages, freelist, owner)
    }

    lemma LooseNonzero()
      requires Valid({})
      ensures 0 !in Loose()
    {
    }

    /** kinit over the pages of a range: all of them on the free list. */
    constructor (free: seq<int>)
      requires Distinct(free) && forall i :: 0 <= i < |free| ==> free[i] > 0
      ensures Valid({}) && pages == Elements(free) && freelist == free && dir == map[] && owner == map[]
    {
      pages := Elements(free);
      freelist := free;
      mem := map p | p in Elements(free) :: Page(JUNK1);
      dir, owner := map[], map[];
    }

    method Kalloc() returns (n: int)
      requires Valid({})
      modifies this`mem, this`freelist
      ensures Valid({})
      ensures n == 0 <==> old(freelist) == []
      ensures n == 0 ==> mem == old(mem) && freelist == old(freelist)
      ensures n != 0 ==>
        && n in pages && n !in owner && n !in freelist
        && freelist == old(freelist)[1..] && Loose() == old(Loose()) + {n} && n !in old(Loose())
        && mem == old(mem)[n := Page(JUNK5)]
      ensures SameMap(old(mem), dir, mem, dir) && SameUsers(old(mem), dir, mem, dir)
    {
      hide TreeOk; hide ShapeOk; hide DirOk;
      if freelist == [] { return 0; }
      FreeLess(pages, freelist, owner);
      n := freelist[0];
      FillConsistent(pages, mem, freelist, dir, owner, {}, n, Page(JUNK5));
      freelist := freelist[1..];
      mem := mem[n := Page(JUNK5)];
    }

    /** kfree: the page is in range, so its panic is not reached. */
    method Kfree(n: int, ghost torn: set<Slot>)
      requires Valid(torn) && n in Loose()
      modifies this`mem, this`freelist
      ensures Valid(torn) && n in pages
      ensures freelist == [n] + old(freelist) && Loose() == old(Loose()) - {n} && mem == old(mem)[n := Page(JUNK1)]
      ensures SameMap(old(mem), dir, mem, dir) && SameUsers(old(mem), dir, mem, dir)
    {
      hide TreeOk; hide ShapeOk; hide DirOk;
      FillConsistent(pages, mem, freelist, dir, owner, torn, n, Page(JUNK1));
      FreeMore(pages, freelist, owner, n);
      mem := mem[n := Page(JUNK1)];
      freelist := [n] + freelist;
    }

    /** walk: the bottom table for page v, or 0.  With alloc, missing tables are made; no
        translation changes either way. */
    method Walk(root: int, v: int, alloc: bool) returns (t: int)
      requires Valid({}) && Tab(root, 2, 0) in dir && 0 <= v < MAXVPN
      modifies this
      ensures Valid({}) && SameMap(old(mem), old(dir), mem, dir) && SameUsers(old(mem), old(dir), mem, dir)
      ensures Grew(old(dir), dir, root) && Loose() == old(Loose()) && SamePages(old(Loose()), old(mem), mem)
      ensures t != 0 <==> Tab(root, 0, v / 512) in dir
      ensures t != 0 ==> t == dir[Tab(root, 0, v / 512)]
      ensures !alloc ==> mem == old(mem) && dir == old(dir) && owner == old(owner) && freelist == old(freelist)
      ensures alloc && t == 0 ==> freelist == [] && old(|freelist|) < old(Lack(dir, TablesTo(root, v)))
      ensures alloc && t != 0 ==>
        TabsGrow(old(dir), dir, TablesTo(root, v)) && |freelist| == old(|freelist| - Lack(dir, TablesTo(root, v)))
    {
      hide Consistent; hide SameMap; hide SameUsers; hide Px; hide Prefix; hide SamePages; hide Lack; hide TabsGrow;
      LooseNonzero();
      SamePagesSet(Loose(), mem, 0, []);
      t := root;
      var level := 2;
      RootPage(pages, mem, freelist, dir, owner, root, v);
      while level > 0
        invariant 0 <= level <= 2 && Valid({}) && Loose() == old(Loose())
        invariant SameMap(old(mem), old(dir), mem, dir) && SameUsers(old(mem), old(dir), mem, dir)
        invariant Grew(old(dir), dir, root) && SamePages(old(Loose()), old(mem), mem)
        invariant Tab(root, level, Prefix(level, v)) in dir && t == dir[Tab(root, level, Prefix(level, v))]
        invariant !alloc ==> mem == old(mem) && dir == old(dir) && owner == old(owner) && freelist == old(freelist)
        invariant forall s :: s in dir && s !in old(dir) ==> s in TablesTo(root, v)
        invariant |freelist| - Lack(dir, TablesTo(root, v)) == old(|freelist| - Lack(dir, TablesTo(root, v)))
      {
        InnerEntry(pages, mem, freelist, dir, owner, root, level, v);
        var pte := mem[t][Px(level, v)];
        if pte.v {
          t := pte.ppn;
        } else if !alloc {
          return 0;
        } else {
          ghost var m1, d1 := mem, dir;
          t := NewTable(root, level, v, t);
          LackLess(d1, TablesTo(root, v), Tab(root, level - 1, Prefix(level - 1, v)), t);
          SameMapTrans(old(mem), old(dir), m1, d1, mem, dir);
          SameUsersTrans(old(mem), old(dir), m1, d1, mem, dir);
          SamePagesTrans(old(Loose()), old(mem), m1, mem);
          if t == 0 { return 0; }
        }
        level := level - 1;
      }
      BottomPage(pages, mem, freelist, dir, owner, root, v);
      ShapeOf(pages, mem, freelist, dir, owner, {});
      LackNone(old(dir), dir, root, v);
    }

    /** kalloc, memset and the entry in the table above, inside walk. */
    method NewTable(root: int, level: int, v: int, up: int) returns (n: int)
      requires Valid({}) && 1 <= level <= 2 && 0 <= v < MAXVPN
      requires Tab(root, level, Prefix(level, v)) in dir && up == dir[Tab(root, level, Prefix(level, v))]
      requires Tab(root, level - 1, Prefix(level - 1, v)) !in dir && Tab(root, 0, v / 512) !in dir
      modifies this
      ensures Valid({}) && SameMap(old(mem), old(dir), mem, dir) && SameUsers(old(mem), old(dir), mem, dir)
      ensures Loose() == old(Loose()) && SamePages(old(Loose()), old(mem), mem)
      ensures n == 0 ==> old(freelist) == [] == freelist && dir == old(dir)
      ensures n != 0 ==>
        dir == old(dir)[Tab(root, level - 1, Prefix(level - 1, v)) := n] && |freelist| == |old(freelist)| - 1
    {
      hide Consistent; hide SameMap; hide SameUsers; hide Px; hide Prefix; hide SamePages;
      LooseNonzero();
      SamePagesSet(Loose(), mem, 0, []);
      n := Kalloc();
      if n == 0 { return; }
      SamePagesSet(old(Loose()), old(mem), n, Page(JUNK5));
      ghost var m1, o1, d1 := mem, owner, dir;
      TableEntry(pages, mem, freelist, dir, owner, root, level, v, n);
      SamePagesSet(old(Loose()), mem, n, Page(ZERO));
      mem := mem[n := Page(ZERO)];
      ghost var m2 := mem;
      SamePagesTrans(old(Loose()), old(mem), m1, m2);
      SamePagesSet(old(Loose()), mem, up, mem[up][Px(level, v) := LinkPte(n)]);
      mem := mem[up := mem[up][Px(level, v) := LinkPte(n)]];
      ghost var down := Tab(root, level - 1, Prefix(level - 1, v));
      dir, owner := dir[down := n], owner[n := down];
      HangsConsistent(pages, m1, freelist, d1, o1, Tab(root, level, Prefix(level, v)), Px(level, v), n, mem, dir,
                      owner);
      SameMapTrans(old(mem), old(dir), m1, d1, mem, dir);
      SameUsersTrans(old(mem), old(dir), m1, d1, mem, dir);
      assert owner.Keys == o1.Keys + {n};
      SamePagesTrans(old(Loose()), old(mem), m2, mem);
    }

    /** mappages: the pages of [va, va+size) in order, as far as tables can be made. */
    method MapPages(root: int, va: int, size: int, ppn: int, perm: Perm) returns (rc: Outcome, ghost k: nat)
      requires Valid({}) && Tab(root, 2, 0) in dir && va >= 0 && size >= 0
      modifies this
      ensures Valid({}) && Loose() == old(Loose()) && Grew(old(dir), dir, root)
      ensures SameUsers(old(mem), old(dir), mem, dir)
      ensures SamePages(old(Loose()), old(mem), mem)
      ensures size == 0 ==> rc == Panic && k == 0
      ensures Adds(old(mem), old(dir), root, va / 4096, k, ppn, perm, mem, dir)
      ensures k > 0 ==> va / 4096 + k <= MAXVPN
      ensures forall u :: va / 4096 <= u < va / 4096 + k ==> !old(Lookup(mem, dir, root, u)).v
      ensures size > 0 ==>
        var n := (va + size - 1) / 4096 - va / 4096 + 1;
        && (rc == Done <==> k == n)
        && (rc == Panic <==> k < n && (va / 4096 + k >= MAXVPN || old(Lookup(mem, dir, root, va / 4096 + k)).v))
        && (rc == NoMemory ==>
              k < n && freelist == [] && old(|freelist|) < old(Lack(dir, Tables(root, va / 4096, va / 4096 + k + 1))))
        && (rc == Done ==> Spent(old(|freelist|), old(dir), root, va / 4096, va / 4096 + n, 0, |freelist|, dir))
    {
      hide Spent; hide Lack; hide Tables; hide Consistent; hide SameMap; hide SameUsers; hide Adds; hide Remaps;
      hide Lookup; hide Writes; hide SamePages;
      LooseNonzero();
      SamePagesSet(Loose(), mem, 0, []);
      k := 0;
      NothingYet(mem, dir, root, va / 4096, ppn, perm);
      if size == 0 { return Panic, 0; }
      var first, last := va / 4096, (va + size - 1) / 4096;
      SpentNone(|freelist|, dir, root, first);
      var a := first;
      while true
        invariant 0 <= k && a == first + k && a <= last
        invariant Valid({}) && Loose() == old(Loose()) && Grew(old(dir), dir, root)
        invariant SameUsers(old(mem), old(dir), mem, dir)
        invariant Adds(old(mem), old(dir), root, first, k, ppn, perm, mem, dir)
        invariant SamePages(old(Loose()), old(mem), mem)
        invariant k > 0 ==> first + k <= MAXVPN
        invariant Spent(old(|freelist|), old(dir), root, first, a, 0, |freelist|, dir)
        invariant forall u :: first <= u < first + k ==> !old(Lookup(mem, dir, root, u)).v
        decreases last - a
      {
        if a >= MAXVPN { return Panic, k; }
        ghost var m1, d1, f1 := mem, dir, |freelist|;
        rc := MapOne(root, a, ppn + (a - first), perm, old(mem), old(dir), first, k, ppn);
        SamePagesTrans(old(Loose()), old(mem), m1, mem);
        if rc == NoMemory { TooFew(old(|freelist|), old(dir), root, first, a, a + 1, 0, f1, d1, 0); }
        if rc != Done { return; }
        SpentMore(old(|freelist|), old(dir), root, first, a, a + 1, 0, f1, d1, 0, |freelist|, dir);
        k := k + 1;
        if a == last { break; }
        a := a + 1;
      }
    }

    /** The body of mappages' loop. */
    method MapOne(root: int, a: int, page: int, perm: Perm, ghost m0: Mem, ghost d0: Dir, ghost first: int,
                  ghost k: int, ghost ppn: int)
      returns (rc: Outcome)
      requires Valid({}) && Tab(root, 2, 0) in dir && 0 <= a < MAXVPN
      requires Adds(m0, d0, root, first, k, ppn, perm, mem, dir) && SameUsers(m0, d0, mem, dir) && Grew(d0, dir, root)
      requires k >= 0 && a == first + k && page == ppn + k
      modifies this
      ensures Valid({}) && Loose() == old(Loose()) && Grew(d0, dir, root) && SameUsers(m0, d0, mem, dir)
      ensures Adds(m0, d0, root, first, if rc == Done then k + 1 else k, ppn, perm, mem, dir)
      ensures SamePages(old(Loose()), old(mem), mem)
      ensures rc == NoMemory ==> freelist == [] && old(|freelist|) < old(Lack(dir, Tables(root, a, a + 1)))
      ensures rc == Done ==> Spent(old(|freelist|), old(dir), root, a, a + 1, 0, |freelist|, dir)
      ensures rc == Panic <==> Lookup(m0, d0, root, a).v
    {
      hide Consistent; hide SameMap; hide SameUsers; hide Remaps; hide Writes; hide Lookup; hide SamePages; hide Lack;
      hide TabsGrow;
      hide Tables;
      TablesOne(root, a);
      ghost var m1, d1 := mem, dir;
      AddsAt(m0, d0, root, first, k, ppn, perm, mem, dir);
      var t := Walk(root, a, true);
      SameUsersTrans(m0, d0, m1, d1, mem, dir);
      SameMapAt(m1, d1, mem, dir, root, a);
      AddsSame(m0, d0, root, first, k, ppn, perm, m1, d1, mem, dir);
      if t == 0 { Unmapped(mem, dir, root, a); return NoMemory; }
      LeafEntry(pages, mem, freelist, dir, owner, root, a, MakePte(page, perm));
      TableOwned(pages, mem, freelist, dir, owner, Tab(root, 0, a / 512));
      if mem[t][a % 512].v { return Panic; }
      ghost var m2 := mem;
      SamePagesSet(old(Loose()), mem, t, mem[t][a % 512 := MakePte(page, perm)]);
      mem := mem[t := mem[t][a % 512 := MakePte(page, perm)]];
      SamePagesTrans(old(Loose()), m1, m2, mem);
      WriteConsistent(pages, m2, freelist, dir, owner, root, a, MakePte(page, perm), mem);
      AddsOne(m0, d0, root, first, k, ppn, perm, m1, d1, m2, dir, mem, dir);
      SameUsersTrans(m0, d0, m2, dir, mem, dir);
      return Done;
    }

    /** uvmunmap: exactly the pages of the range go, and with doFree their memory is free; without
        it, user pages are the caller's now.  It panics exactly when one of them is not mapped or
        its entry has no flag but V.  What is freed has to be allocated, and only once. */
    method Uvmunmap(root: int, v: int, n: nat, doFree: bool) returns (ok: bool)
      requires Valid({}) && Tab(root, 2, 0) in dir && 0 <= v && v + n <= MAXVPN
      requires doFree ==> Freeable(mem, dir, root, v, n, Loose())
      modifies this
      ensures ok <==>
        forall u :: v <= u < v + n ==> old(Lookup(mem, dir, root, u)).v && !Bare(old(Lookup(mem, dir, root, u)))
      ensures ok ==>
        && Valid({}) && Removes(old(mem), old(dir), root, v, n, mem, dir)
        && Drops(old(dir), root, v, n, dir) && KeepsUsers(old(mem), old(dir), mem, dir)
        && Tab(root, 2, 0) in dir && Loose() == LooseAfter(old(Loose()), old(mem), old(dir), root, v, n, doFree)
    {
      hide Consistent; hide SameMap; hide KeepsUsers; hide Removes; hide Lookup; hide Drops; hide Freeable;
      NothingGone(mem, dir, root, v);
      ghost var k := 0;
      var a := v;
      while a < v + n
        invariant 0 <= k <= n && a == v + k
        invariant Valid({}) && Loose() == LooseAfter(old(Loose()), old(mem), old(dir), root, v, k, doFree)
        invariant Tab(root, 2, 0) in dir && Removes(old(mem), old(dir), root, v, k, mem, dir)
        invariant Drops(old(dir), root, v, k, dir) && KeepsUsers(old(mem), old(dir), mem, dir)
        invariant forall u :: v <= u < v + k ==>
          old(Lookup(mem, dir, root, u)).v && !Bare(old(Lookup(mem, dir, root, u)))
        decreases v + n - a
      {
        RemovesAt(old(mem), old(dir), root, v, k, mem, dir, Loose(), doFree);
        if doFree { StillLoose(old(Loose()), old(mem), old(dir), root, v, n, k, k); }
        ok := UnmapOne(root, a, doFree, old(mem), old(dir), v, k);
        if !ok { return; }
        a := a + 1;
        k := k + 1;
      }
      return true;
    }

    /** The body of uvmunmap's loop. */
    method UnmapOne(root: int, a: int, doFree: bool, ghost m0: Mem, ghost d0: Dir, ghost first: int, ghost k: int)
      returns (ok: bool)
      requires Valid({}) && Tab(root, 2, 0) in dir && 0 <= a < MAXVPN && k >= 0 && a == first + k
      requires doFree && Lookup(mem, dir, root, a).v ==> Usr(root, a) in dir || Lookup(mem, dir, root, a).ppn in Loose()
      requires Removes(m0, d0, root, first, k, mem, dir) && Drops(d0, root, first, k, dir)
      requires KeepsUsers(m0, d0, mem, dir)
      modifies this
      ensures ok <==> old(Lookup(mem, dir, root, a)).v && !Bare(old(Lookup(mem, dir, root, a)))
      ensures ok ==>
        && Valid({}) && Loose() == LooseNext(old(Loose()), old(mem), old(dir), root, a, doFree)
        && Removes(m0, d0, root, first, k + 1, mem, dir) && Tab(root, 2, 0) in dir
        && Drops(d0, root, first, k + 1, dir) && KeepsUsers(m0, d0, mem, dir)
    {
      hide Consistent; hide SameMap; hide KeepsUsers; hide SameUsers; hide Removes; hide Remaps; hide Lookup;
      hide Writes; hide Limbo;
      var t := Walk(root, a, false);
      if t == 0 { Unmapped(mem, dir, root, a); return false; }
      LeafEntry(pages, mem, freelist, dir, owner, root, a, ZERO);
      var pte := mem[t][a % 512];
      if !pte.v { return false; }
      if Bare(pte) { return false; }
      ghost var m1, d1 := mem, dir;
      LetGo(pages, mem, freelist, dir, owner, root, a);
      dir, owner := WithoutUser(dir, root, a), WithoutPage(dir, owner, root, a);
      NothingYet(mem, dir, root, a, 0, Perm(true, true, true, true));
      if doFree {
        Kfree(pte.ppn, {});
        SameMapTrans(m1, d1, m1, dir, mem, dir);
      }
      assert Loose() == LooseNext(old(Loose()), m1, d1, root, a, doFree);
      ghost var m2 := mem;
      LeafEntry(pages, mem, freelist, dir, owner, root, a, ZERO);
      mem := mem[t := mem[t][a % 512 := ZERO]];
      WriteConsistent(pages, m2, freelist, dir, owner, root, a, ZERO, mem);
      RemovesOne(m0, d0, root, first, k, m1, d1, m2, dir, mem, dir);
      SameKeeps(m2, dir, mem, dir);
      DroppedKeeps(m1, d1, m2, dir, root, a);
      KeepsUsersTrans(m1, d1, m2, dir, mem, dir);
      KeepsUsersTrans(m0, d0, m1, d1, mem, dir);
      DropsOne(d0, root, first, k, d1, dir);
      return true;
    }

    /** kalloc, memset or memmove, mappages and the kfree on failure: the common part of the
        loops of uvmalloc and uvmcopy. */
    method AddPage(root: int, a: int, perm: Perm, content: seq<Pte>) returns (ok: bool)
      requires Valid({}) && Tab(root, 2, 0) in dir && 0 <= a < MAXVPN && !Lookup(mem, dir, root, a).v
      requires (perm.r || perm.w || perm.x) && |content| == ENTRIES
      modifies this
      ensures Valid({}) && Loose() == old(Loose()) && KeepsTabs(old(dir), dir) && Others(old(dir), dir, root)
      ensures ok ==> Placed(old(mem), old(dir), root, a, perm, content, mem, dir)
      ensures ok ==> Spent(old(|freelist|), old(dir), root, a, a + 1, 1, |freelist|, dir)
      ensures !ok ==> old(|freelist|) < 1 + old(Lack(dir, Tables(root, a, a + 1)))
      ensures !ok ==>
        SameMap(old(mem), old(dir), mem, dir) && SameUsers(old(mem), old(dir), mem, dir) && Grew(old(dir), dir, root)
    {
      hide Consistent; hide SameMap; hide SameUsers; hide Lookup; hide Adds; hide Remaps; hide Placed; hide Limbo;
      hide SamePages;
      hide Spent; hide Lack; hide Tables;
      NothingYet(mem, dir, root, a, 0, perm);
      if Usr(root, a) in dir { UserMapped(pages, mem, freelist, dir, owner, root, a); }
      var n := NewPage(content);
      if n == 0 { return false; }
      ghost var d1 := dir;
      SameMapAt(old(mem), dir, mem, dir, root, a);
      assert a * 4096 / 4096 == a && (a * 4096 + 4096 - 1) / 4096 == a;
      ghost var m2 := mem;
      var rc, k := MapPages(root, a * 4096, 4096, n, perm);
      LoosePage(old(Loose()), n);
      SameUsersTrans(old(mem), d1, m2, d1, mem, dir);
      if rc != Done {
        NoneAdded(m2, d1, root, a, n, perm, mem, dir);
        SameMapTrans(old(mem), d1, m2, d1, mem, dir);
        ghost var m3 := mem;
        Kfree(n, {});
        SameMapTrans(old(mem), d1, m3, dir, mem, dir);
        SameUsersTrans(old(mem), d1, m3, dir, mem, dir);
        return false;
      }
      AddsAfter(old(mem), d1, m2, d1, root, a, n, perm, mem, dir);
      PageKept(old(Loose()) + {n}, m2, mem, n);
      PlacePage(pages, old(mem), d1, mem, dir, freelist, owner, root, a, n, perm);
      SpentUser(old(|freelist|), d1, root, a, |freelist|, dir, n);
      dir, owner := dir[Usr(root, a) := n], owner[n := Usr(root, a)];
      return true;
    }

    /** kalloc and memset or memmove. */
    method NewPage(content: seq<Pte>) returns (n: int)
      requires Valid({}) && |content| == ENTRIES
      modifies this`mem, this`freelist
      ensures Valid({}) && SameMap(old(mem), dir, mem, dir) && SameUsers(old(mem), dir, mem, dir)
      ensures n == 0 <==> old(freelist) == []
      ensures n == 0 ==> mem == old(mem) && freelist == old(freelist)
      ensures n != 0 ==>
        && n in mem && mem[n] == content && |freelist| == |old(freelist)| - 1
        && n !in old(Loose()) && Loose() == old(Loose()) + {n}
    {
      hide Consistent; hide SameMap; hide SameUsers; hide Limbo;
      n := Kalloc();
      if n == 0 { return; }
      ghost var m1 := mem;
      FillConsistent(pages, mem, freelist, dir, owner, {}, n, content);
      mem := mem[n := content];
      SameMapTrans(old(mem), dir, m1, dir, mem, dir);
      SameUsersTrans(old(mem), dir, m1, dir, mem, dir);
    }

    /** uvmalloc: zeroed pages from oldsz up to newsz, or nothing at all. */
    method Uvmalloc(root: int, oldsz: int, newsz: int, xperm: Perm) returns (r: int, ghost failed: bool)
      requires Valid({}) && Tab(root, 2, 0) in dir && 0 <= oldsz && 0 <= newsz && PagesFor(newsz) <= MAXVPN
      requires forall u :: PagesFor(oldsz) <= u < PagesFor(newsz) ==> !Lookup(mem, dir, root, u).v
      modifies this
      ensures Valid({}) && Loose() == old(Loose()) && KeepsTabs(old(dir), dir) && Others(old(dir), dir, root)
      ensures newsz < oldsz ==> r == oldsz && !failed && mem == old(mem) && dir == old(dir) && freelist == old(freelist)
      ensures newsz >= oldsz ==>
        && r == (if failed then 0 else newsz)
        && var n := PagesFor(newsz) - PagesFor(oldsz);
        && (failed <==> old(|freelist|) < n + old(Lack(dir, Tables(root, PagesFor(oldsz), PagesFor(newsz)))))
        && (failed ==> SameMap(old(mem), old(dir), mem, dir) && SameUsers(old(mem), old(dir), mem, dir)
                       && Gains(old(dir), root, PagesFor(oldsz), 0, dir))
        && (!failed ==> PlacedAll(old(mem), old(dir), root, PagesFor(oldsz), Copies(n, xperm.(r := true, u := true)),
                                  Copies(n, Page(ZERO)), mem, dir))
    {
      hide Consistent; hide SameMap; hide SameUsers; hide Lookup; hide PlacedAll; hide Placed; hide Removes; hide Drops;
      hide KeepsUsers; hide Gains;
      hide Spent; hide Lack; hide Tables;
      if newsz < oldsz { return oldsz, false; }
      var first, perm := PagesFor(oldsz), xperm.(r := true, u := true);
      NotUsers(pages, mem, freelist, dir, owner, root, first, PagesFor(newsz));
      ghost var k, perms, contents := 0, [], [];
      PlacedNone(mem, dir, root, first);
      SpentNone(|freelist|, dir, root, first);
      var a := first;
      while a * 4096 < newsz
        invariant 0 <= k && a == first + k && a <= PagesFor(newsz) && |perms| == |contents| == k
        invariant Valid({}) && Loose() == old(Loose()) && KeepsTabs(old(dir), dir) && Others(old(dir), dir, root)
        invariant PlacedAll(old(mem), old(dir), root, first, perms, contents, mem, dir)
        invariant Spent(old(|freelist|), old(dir), root, first, a, k, |freelist|, dir)
        invariant perms == Copies(k, perm) && contents == Copies(k, Page(ZERO))
        decreases newsz - a * 4096
      {
        PlacedOutside(old(mem), old(dir), root, first, perms, contents, mem, dir, a);
        ghost var m1, d1, f1 := mem, dir, |freelist|;
        var ok := AddPage(root, a, perm, Page(ZERO));
        OthersTrans(old(dir), d1, dir, root);
        if !ok {
          TooFew(old(|freelist|), old(dir), root, first, a, PagesFor(newsz), k, f1, d1, 1);
          ghost var d2 := dir;
          PlacedSame(old(mem), old(dir), root, first, perms, contents, m1, d1, mem, dir, root);
          Undo(root, first, a - first, old(mem), old(dir), perms, contents);
          OthersTrans(old(dir), d2, dir, root);
          return 0, true;
        }
        PlacedMore(old(mem), old(dir), root, first, perms, contents, m1, d1, perm, Page(ZERO), mem, dir);
        SpentMore(old(|freelist|), old(dir), root, first, a, a + 1, k, f1, d1, 1, |freelist|, dir);
        perms, contents, k := perms + [perm], contents + [Page(ZERO)], k + 1;
        a := a + 1;
      }
      assert k == PagesFor(newsz) - first;
      SpentEnough(old(|freelist|), old(dir), root, first, a, k, |freelist|, dir);
      return newsz, false;
    }

    /** uvmdealloc(pagetable, a, oldsz) or the err: path of uvmcopy, after k pages were placed. */
    method Undo(root: int, first: int, k: nat, ghost m0: Mem, ghost d0: Dir, ghost perms: seq<Perm>,
                ghost contents: seq<seq<Pte>>)
      requires Valid({}) && Tab(root, 2, 0) in dir && 0 <= first && first + k <= MAXVPN && |perms| == k
      requires PlacedAll(m0, d0, root, first, perms, contents, mem, dir)
      requires forall u :: first <= u < first + k ==> !Lookup(m0, d0, root, u).v && Usr(root, u) !in d0
      modifies this
      ensures Valid({}) && Loose() == old(Loose()) && KeepsTabs(old(dir), dir) && Others(old(dir), dir, root)
      ensures SameMap(m0, d0, mem, dir) && SameUsers(m0, d0, mem, dir) && Gains(d0, root, first, 0, dir)
    {
      hide Consistent; hide SameMap; hide SameUsers; hide Lookup; hide Removes; hide Drops; hide KeepsUsers; hide Gains;
      hide PlacedAll;
      ghost var m1, d1 := mem, dir;
      PlacedMapped(m0, d0, root, first, perms, contents, mem, dir);
      AllLeaves(pages, mem, freelist, dir, owner, root, first, k);
      LooseSame(Loose(), mem, dir, root, first, k, true);
      var ok := Uvmunmap(root, first, k, true);
      RolledBack(m0, d0, root, first, perms, contents, m1, d1, mem, dir);
      DropsKeep(d1, root, first, k, dir);
    }

    /** uvmdealloc: the pages from newsz up to oldsz go. */
    method Uvmdealloc(root: int, oldsz: int, newsz: int) returns (r: int)
      requires Valid({}) && Tab(root, 2, 0) in dir && 0 <= oldsz && 0 <= newsz && PagesFor(oldsz) <= MAXVPN
      requires forall u :: PagesFor(newsz) <= u < PagesFor(oldsz) ==> Usr(root, u) in dir
      modifies this
      ensures Valid({}) && Loose() == old(Loose()) && KeepsTabs(old(dir), dir) && Others(old(dir), dir, root)
      ensures r == if newsz >= oldsz then oldsz else newsz
      ensures newsz >= oldsz ==> mem == old(mem) && dir == old(dir)
      ensures newsz < oldsz ==>
        && var n := PagesFor(oldsz) - PagesFor(newsz);
        && Removes(old(mem), old(dir), root, PagesFor(newsz), n, mem, dir)
        && Drops(old(dir), root, PagesFor(newsz), n, dir) && KeepsUsers(old(mem), old(dir), mem, dir)
    {
      hide Consistent; hide Lookup; hide Removes; hide Drops; hide KeepsUsers;
      if newsz >= oldsz { return oldsz; }
      NothingGone(mem, dir, root, PagesFor(newsz));
      if PagesFor(newsz) < PagesFor(oldsz) {
        AllLeaves(pages, mem, freelist, dir, owner, root, PagesFor(newsz), PagesFor(oldsz) - PagesFor(newsz));
        LooseSame(Loose(), mem, dir, root, PagesFor(newsz), PagesFor(oldsz) - PagesFor(newsz), true);
        var ok := Uvmunmap(root, PagesFor(newsz), PagesFor(oldsz) - PagesFor(newsz), true);
        DropsKeep(old(dir), root, PagesFor(newsz), PagesFor(oldsz) - PagesFor(newsz), dir);
      }
      return newsz;
    }

    /** uvmcopy: the child gets pages of its own with the parent's permissions and contents, or
        nothing; the parent's translations and pages stay. */
    method Uvmcopy(parent: int, child: int, sz: int) returns (ok: bool)
      requires Valid({}) && Tab(parent, 2, 0) in dir && Tab(child, 2, 0) in dir && parent != child && 0 <= sz
      requires PagesFor(sz) <= MAXVPN
      requires HasPages(mem, dir, parent, PagesFor(sz))
      requires forall v :: 0 <= v < PagesFor(sz) ==> !Lookup(mem, dir, child, v).v
      modifies this
      ensures Valid({}) && Loose() == old(Loose()) && KeepsTabs(old(dir), dir) && Others(old(dir), dir, child)
      ensures ok ==>
        PlacedAll(old(mem), old(dir), child, 0, old(SourcePerms(mem, dir, parent, PagesFor(sz))),
                  old(SourcePages(mem, dir, parent, PagesFor(sz))), mem, dir)
      ensures !ok ==>
        && SameMap(old(mem), old(dir), mem, dir) && SameUsers(old(mem), old(dir), mem, dir)
        && Gains(old(dir), child, 0, 0, dir)
      ensures !ok <==> old(|freelist|) < PagesFor(sz) + old(Lack(dir, Tables(child, 0, PagesFor(sz))))
      ensures ok ==> Spent(old(|freelist|), old(dir), child, 0, PagesFor(sz), PagesFor(sz), |freelist|, dir)
    {
      hide Spent; hide Lack; hide Tables;
      hide Consistent; hide SameMap; hide SameUsers; hide Lookup; hide PlacedAll; hide Placed; hide Removes; hide Drops;
      hide KeepsUsers; hide Gains;
      NotUsers(pages, mem, freelist, dir, owner, child, 0, PagesFor(sz));
      ghost var perms, contents := [], [];
      PlacedNone(mem, dir, child, 0);
      SpentNone(|freelist|, dir, child, 0);
      var i := 0;
      while i * 4096 < sz
        invariant 0 <= i <= PagesFor(sz) && |perms| == |contents| == i
        invariant Valid({}) && Loose() == old(Loose()) && KeepsTabs(old(dir), dir) && Others(old(dir), dir, child)
        invariant PlacedAll(old(mem), old(dir), child, 0, perms, contents, mem, dir)
        invariant Spent(old(|freelist|), old(dir), child, 0, i, i, |freelist|, dir)
        invariant perms == old(SourcePerms(mem, dir, parent, i)) && contents == old(SourcePages(mem, dir, parent, i))
        decreases sz - i * 4096
      {
        PlacedOutside(old(mem), old(dir), child, 0, perms, contents, mem, dir, i);
        PlacedOther(old(mem), old(dir), child, 0, perms, contents, mem, dir, parent, i);
        ghost var m1, d1, f1 := mem, dir, |freelist|;
        ghost var perm, page := PermOf(Lookup(mem, dir, parent, i)), mem[dir[Usr(parent, i)]];
        ok := CopyPage(parent, child, i);
        OthersTrans(old(dir), d1, dir, child);
        if !ok {
          TooFew(old(|freelist|), old(dir), child, 0, i, PagesFor(sz), i, f1, d1, 1);
          ghost var d2 := dir;
          PlacedSame(old(mem), old(dir), child, 0, perms, contents, m1, d1, mem, dir, child);
          Undo(child, 0, i, old(mem), old(dir), perms, contents);
          OthersTrans(old(dir), d2, dir, child);
          return;
        }
        PlacedMore(old(mem), old(dir), child, 0, perms, contents, m1, d1, perm, page, mem, dir);
        SpentMore(old(|freelist|), old(dir), child, 0, i, i + 1, i, f1, d1, 1, |freelist|, dir);
        perms, contents := perms + [perm], contents + [page];
        i := i + 1;
        assert perms == old(SourcePerms(mem, dir, parent, i)) && contents == old(SourcePages(mem, dir, parent, i));
      }
      SpentEnough(old(|freelist|), old(dir), child, 0, i, i, |freelist|, dir);
      return true;
    }

    /** The body of uvmcopy's loop. */
    method CopyPage(parent: int, child: int, i: int) returns (ok: bool)
      requires Valid({}) && Tab(parent, 2, 0) in dir && Tab(child, 2, 0) in dir && 0 <= i < MAXVPN
      requires Usr(parent, i) in dir && dir[Usr(parent, i)] in mem && !Lookup(mem, dir, child, i).v
      modifies this
      ensures Valid({}) && Loose() == old(Loose()) && KeepsTabs(old(dir), dir) && Others(old(dir), dir, child)
      ensures ok ==> Placed(old(mem), old(dir), child, i, PermOf(old(Lookup(mem, dir, parent, i))),
                            old(mem[dir[Usr(parent, i)]]), mem, dir)
      ensures ok ==> Spent(old(|freelist|), old(dir), child, i, i + 1, 1, |freelist|, dir)
      ensures !ok ==> old(|freelist|) < 1 + old(Lack(dir, Tables(child, i, i + 1)))
      ensures !ok ==>
        SameMap(old(mem), old(dir), mem, dir) && SameUsers(old(mem), old(dir), mem, dir) && Grew(old(dir), dir, child)
    {
      hide Consistent; hide SameMap; hide SameUsers; hide Lookup; hide Placed; hide Spent; hide Lack; hide Tables;
      hide TabsGrow; hide SamePages;
      UserMapped(pages, mem, freelist, dir, owner, parent, i);
      var t := Walk(parent, i, false);
      LeafUsed(pages, mem, freelist, dir, owner, parent, i);
      LeafEntry(pages, mem, freelist, dir, owner, parent, i, ZERO);
      var pte := mem[t][i % 512];
      UserPage(pages, mem, dir, owner, freelist, Usr(parent, i));
      ok := AddPage(child, i, PermOf(pte), mem[pte.ppn]);
    }

    /** freewalk: the table and everything below it go back to the free list.  No leaf is
        mapped, so its panic is not reached. */
    method Freewalk(page: int, ghost s: Slot, ghost torn: set<Slot>)
      requires Valid(torn) && s.Tab? && s in dir && page == dir[s] && NoLeaves(mem, dir, s.root)
      requires Above(s, torn)
      modifies this
      ensures Valid(torn) && Loose() == old(Loose()) && Prunes(old(dir), s, dir) && KeepsTables(old(mem), mem, dir)
      ensures NoLeaves(mem, dir, s.root)
      decreases s.level
    {
      hide Consistent; hide NoLeaves; hide KeepsTables; hide Prunes; hide PrunesTo; hide Above; hide ShapeOk;
      hide DirOk; hide KeepsTablesBut; hide Limbo;
      TearStart(pages, mem, freelist, dir, owner, torn, s);
      ghost var torn' := torn + {s};
      var i := 0;
      while i < 512
        invariant 0 <= i <= 512 && Valid(torn') && Loose() == old(Loose())
        invariant PrunesTo(old(dir), s, i, dir) && s in dir && dir[s] == page && NoLeaves(mem, dir, s.root)
        invariant KeepsTablesBut(old(mem), mem, dir, s)
        invariant Entries(old(mem), old(dir), s, i, mem)
      {
        TornEntry(pages, old(mem), old(freelist), old(dir), old(owner), torn, s, i, mem, dir);
        var pte := mem[page][i];
        if pte.v && !IsLeaf(pte) {
          ghost var c := Tab(s.root, s.level - 1, s.prefix * 512 + i);
          ghost var m1, d1 := mem, dir;
          AboveChild(s, torn, i);
          Freewalk(pte.ppn, c, torn');
          PrunedChild(pages, old(mem), old(dir), s, i, m1, d1, mem, dir, freelist, owner, torn');
          ClearEntry(pages, mem, freelist, dir, owner, torn', s, i);
          ShapeOf(pages, mem, freelist, dir, owner, torn');
          ghost var m2 := mem;
          mem := mem[page := mem[page][i := ZERO]];
          ClearedTables(old(mem), old(dir), s, i, m2, dir, mem, pages, owner);
        } else {
          ShapeOf(pages, old(mem), old(freelist), old(dir), old(owner), torn);
          PrunedNone(old(dir), s, i, dir);
        }
        i := i + 1;
      }
      ShapeOf(pages, old(mem), old(freelist), old(dir), old(owner), torn);
      PrunedAll(old(dir), s, dir);
      DropShape(pages, old(mem), old(freelist), old(dir), old(owner), dir - {s}, torn, s);
      DropTable(pages, mem, freelist, dir, owner, torn, s);
      LooseTable(pages, mem, freelist, dir, owner, torn', s);
      ShapeOf(pages, mem, freelist, dir, owner, torn');
      FreedTable(pages, old(mem), mem, mem[page := Page(JUNK1)], dir, dir - {s}, s, owner, Page(JUNK1));
      dir, owner := dir - {s}, owner - {page};
      Kfree(page, torn);
      LoosePage(old(Loose()), page);
    }

    /** uvmcreate: an empty address space, named by its root page; 0 if there is no page. */
    method Uvmcreate() returns (root: int)
      requires Valid({})
      modifies this
      ensures Valid({}) && Loose() == old(Loose())
      ensures root == 0 <==> old(freelist) == []
      ensures root == 0 ==> dir == old(dir) && mem == old(mem) && freelist == old(freelist)
      ensures root != 0 ==>
        && Fresh(old(dir), root) && Space(mem, dir, root, 0, {}) && Apart(old(mem), old(dir), root, mem, dir)
        && dir == old(dir)[Tab(root, 2, 0) := root] && |freelist| == |old(freelist)| - 1
    {
      hide Consistent; hide SameMap; hide SameUsers; hide Limbo; hide NoLeaves; hide Fresh; hide Space; hide Apart;
      root := Kalloc();
      if root == 0 { return; }
      ghost var m1 := mem;
      RootConsistent(pages, mem, freelist, dir, owner, root);
      mem := mem[root := Page(ZERO)];
      dir, owner := dir[Tab(root, 2, 0) := root], owner[root := Tab(root, 2, 0)];
      SameMapTrans(old(mem), old(dir), m1, old(dir), mem, dir);
      SameUsersTrans(old(mem), old(dir), m1, old(dir), mem, dir);
      LoosePage(old(Loose()), root);
      SpaceNew(old(mem), old(dir), root, mem, dir);
    }

    /** uvmfree: all of the address space goes, and nothing else does. */
    method Uvmfree(root: int, sz: int)
      requires Valid({}) && 0 <= sz && Space(mem, dir, root, PagesFor(sz), {})
      modifies this
      ensures Valid({}) && Loose() == old(Loose()) && Apart(old(mem), old(dir), root, mem, dir) && Fresh(dir, root)
    {
      hide Consistent; hide Lookup; hide Removes; hide Drops; hide KeepsUsers; hide NoLeaves; hide Prunes;
      hide KeepsTables; hide Apart; hide Fresh;
      SpaceMapped(pages, mem, freelist, dir, owner, root, PagesFor(sz), {});
      ApartRefl(mem, dir, root);
      if sz > 0 {
        LooseSame(Loose(), mem, dir, root, 0, PagesFor(sz), true);
        var ok := Uvmunmap(root, 0, PagesFor(sz), true);
        SpaceShrink(old(mem), old(dir), root, PagesFor(sz), {}, 0, mem, dir);
      }
      ghost var m1, d1 := mem, dir;
      RootOf(pages, mem, freelist, dir, owner, root);
      ShapeOf(pages, mem, freelist, dir, owner, {});
      PagesOf(pages, mem, freelist, dir, owner);
      SpaceEmpty(mem, dir, root);
      Freewalk(root, Tab(root, 2, 0), {});
      SpaceGone(m1, d1, root, mem, dir);
      ApartTrans(old(mem), old(dir), root, m1, d1, mem, dir);
    }

    /** proc_pagetable: an address space with the trampoline and the trapframe on top, or 0 and
        nothing changed. */
    method ProcPagetable(trampoline: int, trapframe: int) returns (root: int)
      requires Valid({})
      modifies this
      ensures Valid({}) && Loose() == old(Loose())
      ensures root == 0 ==> dir == old(dir) && forall r :: Apart(old(mem), dir, r, mem, dir)
      ensures root == 0 <==> old(|freelist|) < 3
      ensures root != 0 ==> TabsGrow(old(dir), dir, TopTables(root)) && |freelist| == old(|freelist|) - 3
      ensures root != 0 ==>
        && Fresh(old(dir), root) && Space(mem, dir, root, 0, {TRAPFRAME, TRAMPOLINE})
        && Apart(old(mem), old(dir), root, mem, dir)
        && Lookup(mem, dir, root, TRAMPOLINE) == MakePte(trampoline, Perm(true, false, true, false))
        && Lookup(mem, dir, root, TRAPFRAME) == MakePte(trapframe, Perm(true, true, false, false))
    {
      hide Consistent; hide SameUsers; hide Limbo; hide NoLeaves; hide Fresh; hide Space; hide Apart; hide Lookup;
      hide Adds; hide Grew;
      hide Spent; hide Lack; hide Tables; hide TabsGrow;
      root := Uvmcreate();
      if root == 0 { forall r ensures Apart(old(mem), dir, r, mem, dir) { ApartRefl(mem, dir, r); } return; }
      SpaceMapped(pages, mem, freelist, dir, owner, root, 0, {});
      ghost var d1, f1 := dir, |freelist|;
      TopLack(old(dir), root);
      var ok := MapTop(root, TRAMPOLINE, trampoline, Perm(true, false, true, false), {}, old(mem), old(dir));
      if !ok {
        Discard(root, old(mem), old(dir));
        return 0;
      }
      ghost var d2, f2 := dir, |freelist|;
      assert {} + {TRAMPOLINE} == {TRAMPOLINE};
      ok := MapTop(root, TRAPFRAME, trapframe, Perm(true, true, false, false), {TRAMPOLINE}, old(mem), old(dir));
      if !ok {
        TopTooFew(f1, d1, root, f2, d2);
        UnmapTop(root, TRAMPOLINE, 0, {TRAMPOLINE}, old(mem), old(dir));
        assert {TRAMPOLINE} - {TRAMPOLINE} == {};
        Discard(root, old(mem), old(dir));
        return 0;
      }
      assert {TRAMPOLINE} + {TRAPFRAME} == {TRAPFRAME, TRAMPOLINE};
      TopSpent(old(dir), f1, root, f2, d2, |freelist|, dir);
    }

    /** A call of mappages for one of the two pages on top. */
    method MapTop(root: int, a: int, ppn: int, perm: Perm, ghost top: set<int>, ghost m0: Mem, ghost d0: Dir)
      returns (ok: bool)
      requires Valid({}) && Space(mem, dir, root, 0, top) && 0 <= a < MAXVPN && a !in top
      requires perm.r || perm.w || perm.x
      requires Apart(m0, d0, root, mem, dir)
      modifies this
      ensures Valid({}) && Loose() == old(Loose()) && Apart(m0, d0, root, mem, dir)
      ensures Space(mem, dir, root, 0, if ok then top + {a} else top)
      ensures ok ==> Lookup(mem, dir, root, a) == MakePte(ppn, perm)
      ensures forall b :: b in top && 0 <= b < MAXVPN ==> Lookup(mem, dir, root, b) == old(Lookup(mem, dir, root, b))
      ensures !ok ==> old(|freelist|) < old(Lack(dir, Tables(root, a, a + 1)))
      ensures ok ==> Spent(old(|freelist|), old(dir), root, a, a + 1, 0, |freelist|, dir)
    {
      hide Consistent; hide SameUsers; hide Limbo; hide Apart; hide Lookup; hide Grew; hide Spent; hide Lack;
      hide Tables;
      assert a * 4096 / 4096 == a && (a * 4096 + 4096 - 1) / 4096 == a;
      var rc, k := MapPages(root, a * 4096, 4096, ppn, perm);
      SpaceMap(old(mem), old(dir), root, 0, top, a, k, ppn, perm, mem, dir);
      ApartTrans(m0, d0, root, old(mem), old(dir), mem, dir);
      return rc == Done;
    }

    /** uvmunmap(pagetable, a, 1, 0). */
    method UnmapTop(root: int, a: int, ghost n: int, ghost top: set<int>, ghost m0: Mem, ghost d0: Dir)
      requires Valid({}) && Space(mem, dir, root, n, top) && n <= a < MAXVPN && a in top
      requires Apart(m0, d0, root, mem, dir)
      modifies this
      ensures Valid({}) && Loose() == old(Loose()) && Apart(m0, d0, root, mem, dir)
      ensures Space(mem, dir, root, n, top - {a})
    {
      hide Consistent; hide Limbo; hide Apart; hide Lookup; hide Removes; hide Drops; hide KeepsUsers;
      SpaceMapped(pages, mem, freelist, dir, owner, root, n, top);
      LooseSame(Loose(), mem, dir, root, a, 1, false);
      var ok := Uvmunmap(root, a, 1, false);
      SpaceUnmap(old(mem), old(dir), root, n, top, a, mem, dir);
      ApartTrans(m0, d0, root, old(mem), old(dir), mem, dir);
    }

    /** uvmfree of an address space that was made since (m0, d0). */
    method Discard(root: int, ghost m0: Mem, ghost d0: Dir)
      requires Valid({}) && Space(mem, dir, root, 0, {}) && Apart(m0, d0, root, mem, dir) && Fresh(d0, root)
      modifies this
      ensures Valid({}) && Loose() == old(Loose()) && dir == d0 && forall r :: Apart(m0, dir, r, mem, dir)
    {
      hide Consistent; hide Limbo; hide Space; hide Lookup;
      Uvmfree(root, 0);
      ApartTrans(m0, d0, root, old(mem), old(dir), mem, dir);
      ApartFresh(m0, d0, root, mem, dir);
    }

    /** proc_freepagetable. */
    method ProcFreepagetable(root: int, sz: int)
      requires Valid({}) && 0 <= sz && PagesFor(sz) <= TRAPFRAME
      requires Space(mem, dir, root, PagesFor(sz), {TRAPFRAME, TRAMPOLINE})
      modifies this
      ensures Valid({}) && Loose() == old(Loose()) && Apart(old(mem), old(dir), root, mem, dir) && Fresh(dir, root)
    {
      hide Consistent; hide Limbo; hide Apart; hide Lookup; hide Space; hide Fresh;
      ApartRefl(mem, dir, root);
      UnmapTop(root, TRAMPOLINE, PagesFor(sz), {TRAPFRAME, TRAMPOLINE}, old(mem), old(dir));
      assert {TRAPFRAME, TRAMPOLINE} - {TRAMPOLINE} == {TRAPFRAME};
      UnmapTop(root, TRAPFRAME, PagesFor(sz), {TRAPFRAME}, old(mem), old(dir));
      assert {TRAPFRAME} - {TRAPFRAME} == {};
      ghost var m1, d1 := mem, dir;
      Uvmfree(root, sz);
      ApartTrans(old(mem), old(dir), root, m1, d1, mem, dir);
    }
  }

  lemma ApartFresh(m0: Mem, d0: Dir, root: int, mem: Mem, dir: Dir)
    requires Apart(m0, d0, root, mem, dir) && Fresh(d0, root) && Fresh(dir, root)
    ensures dir == d0 && forall r :: Apart(m0, dir, r, mem, dir)
  {
    assert forall q: Slot :: q in dir <==> q in d0;
    forall u | 0 <= u < MAXVPN ensures Lookup(mem, dir, root, u) == Lookup(m0, d0, root, u) {
      assert Tab(root, 0, u / 512).root == root;
    }
    forall v ensures Usr(root, v) !in dir { assert Usr(root, v).root == root; }
  }

  lemma PlacedOther(m0: Mem, d0: Dir, root: int, first: int, perms: seq<Perm>, contents: seq<seq<Pte>>, m: Mem, d: Dir,
                    other: int, u: int)
    requires PlacedAll(m0, d0, root, first, perms, contents, m, d) && 0 <= u < MAXVPN && other != root
    requires Usr(other, u) in d0 && d0[Usr(other, u)] in m0
    ensures Lookup(m, d, other, u) == Lookup(m0, d0, other, u) && Usr(other, u) in d
    ensures d[Usr(other, u)] == d0[Usr(other, u)]
    ensures d[Usr(other, u)] in m && m[d[Usr(other, u)]] == m0[d0[Usr(other, u)]]
  {
  }

  lemma LeafUsed(pages: set<int>, mem: Mem, freelist: seq<int>, dir: Dir, owner: map<int, Slot>, root: int, v: int)
    requires Consistent(pages, mem, freelist, dir, owner, {}) && Usr(root, v) in dir
    ensures Tab(root, 0, v / 512) in dir
  {
  }

  lemma UserPage(pages: set<int>, mem: Mem, dir: Dir, owner: map<int, Slot>, freelist: seq<int>, s: Slot)
    requires Consistent(pages, mem, freelist, dir, owner, {}) && s in dir
    ensures dir[s] in mem && |mem[dir[s]]| == ENTRIES
  {
    TablePage(pages, mem, dir, owner, s);
  }

  lemma DropsKeep(dir: Dir, root: int, first: int, k: int, dir': Dir)
    requires Drops(dir, root, first, k, dir')
    ensures KeepsTabs(dir, dir') && Others(dir, dir', root)
  {
  }

  lemma NotUsers(pages: set<int>, mem: Mem, freelist: seq<int>, dir: Dir, owner: map<int, Slot>, root: int, lo: int,
                 hi: int)
    requires Consistent(pages, mem, freelist, dir, owner, {})
    requires forall u :: lo <= u < hi ==> !Lookup(mem, dir, root, u).v
    ensures forall u :: lo <= u < hi ==> Usr(root, u) !in dir
  {
    forall u | lo <= u < hi ensures Usr(root, u) !in dir {
      if Usr(root, u) in dir { UserMapped(pages, mem, freelist, dir, owner, root, u); }
    }
  }

  lemma PlacedOutside(m0: Mem, d0: Dir, root: int, first: int, perms: seq<Perm>, contents: seq<seq<Pte>>, m: Mem,
                      d: Dir, u: int)
    requires PlacedAll(m0, d0, root, first, perms, contents, m, d) && 0 <= u < MAXVPN && u >= first + |perms|
    ensures Lookup(m, d, root, u) == Lookup(m0, d0, root, u)
  {
  }

  lemma PlacedMapped(m0: Mem, d0: Dir, root: int, first: int, perms: seq<Perm>, contents: seq<seq<Pte>>, m: Mem, d: Dir)
    requires PlacedAll(m0, d0, root, first, perms, contents, m, d)
    ensures forall u :: first <= u < first + |perms| ==> Usr(root, u) in d && Lookup(m, d, root, u).v
  {
    forall u | first <= u < first + |perms| ensures Usr(root, u) in d && Lookup(m, d, root, u).v {
      var i := u - first;
      assert PageIs(m, d, root, first + i, perms[i], contents[i]);
    }
  }

  lemma TableOwned(pages: set<int>, mem: Mem, freelist: seq<int>, dir: Dir, owner: map<int, Slot>, s: Slot)
    requires Consistent(pages, mem, freelist, dir, owner, {}) && s in dir
    ensures dir[s] !in Limbo(pages, freelist, owner)
  {
    InDir(pages, dir, owner, s);
  }

  lemma UserMapped(pages: set<int>, mem: Mem, freelist: seq<int>, dir: Dir, owner: map<int, Slot>, root: int, v: int)
    requires Consistent(pages, mem, freelist, dir, owner, {}) && Usr(root, v) in dir
    ensures 0 <= v < MAXVPN && Lookup(mem, dir, root, v).v && Lookup(mem, dir, root, v).ppn == dir[Usr(root, v)]
    ensures IsLeaf(Lookup(mem, dir, root, v))
  {
    TablePage(pages, mem, dir, owner, Tab(root, 0, v / 512));
    assert BottomOk(mem, dir, root, v / 512, v % 512);
    assert v / 512 * 512 + v % 512 == v;
  }

  lemma AllLeaves(pages: set<int>, mem: Mem, freelist: seq<int>, dir: Dir, owner: map<int, Slot>, root: int, v: int,
                  n: int)
    requires Consistent(pages, mem, freelist, dir, owner, {}) && forall u :: v <= u < v + n ==> Usr(root, u) in dir
    ensures forall u :: v <= u < v + n ==> Lookup(mem, dir, root, u).v && !Bare(Lookup(mem, dir, root, u))
  {
    forall u | v <= u < v + n ensures Lookup(mem, dir, root, u).v && !Bare(Lookup(mem, dir, root, u)) {
      UserMapped(pages, mem, freelist, dir, owner, root, u);
    }
  }

  lemma PageKept(ps: set<int>, m1: Mem, m2: Mem, n: int)
    requires SamePages(ps, m1, m2) && n in ps && n in m1
    ensures n in m2 && m2[n] == m1[n]
  {
  }

  lemma NoneAdded(m0: Mem, d0: Dir, root: int, a: int, n: int, perm: Perm, m1: Mem, d1: Dir)
    requires Adds(m0, d0, root, a, 0, n, perm, m1, d1)
    ensures SameMap(m0, d0, m1, d1)
  {
  }

  lemma AddsAfter(m0: Mem, d0: Dir, m1: Mem, d1: Dir, root: int, a: int, n: int, perm: Perm, m2: Mem, d2: Dir)
    requires SameMap(m0, d0, m1, d1) && Adds(m1, d1, root, a, 1, n, perm, m2, d2)
    ensures Adds(m0, d0, root, a, 1, n, perm, m2, d2)
  {
  }

  lemma NothingGone(mem: Mem, dir: Dir, root: int, first: int)
    ensures Removes(mem, dir, root, first, 0, mem, dir) && Drops(dir, root, first, 0, dir)
    ensures KeepsUsers(mem, dir, mem, dir)
  {
  }

  lemma RemovesAt(m0: Mem, d0: Dir, root: int, first: int, k: int, m1: Mem, d1: Dir, loose: set<int>, doFree: bool)
    requires Removes(m0, d0, root, first, k, m1, d1) && 0 <= first + k < MAXVPN && Drops(d0, root, first, k, d1)
    ensures Lookup(m1, d1, root, first + k) == Lookup(m0, d0, root, first + k)
    ensures Usr(root, first + k) in d1 <==> Usr(root, first + k) in d0
    ensures LooseNext(loose, m1, d1, root, first + k, doFree) == LooseNext(loose, m0, d0, root, first + k, doFree)
  {
  }

  lemma LoosePage(loose: set<int>, n: int)
    requires n !in loose
    ensures loose + {n} - {n} == loose
  {
  }

  lemma DroppedKeeps(m1: Mem, d1: Dir, m2: Mem, d2: Dir, root: int, a: int)
    requires d2 == WithoutUser(d1, root, a) && SameUsers(m1, d2, m2, d2)
    ensures KeepsUsers(m1, d1, m2, d2)
  {
  }

  lemma DropsOne(d0: Dir, root: int, first: int, k: int, d1: Dir, d2: Dir)
    requires k >= 0 && Drops(d0, root, first, k, d1) && d2 == WithoutUser(d1, root, first + k)
    ensures Drops(d0, root, first, k + 1, d2)
  {
  }

  lemma NothingYet(mem: Mem, dir: Dir, root: int, first: int, ppn: int, perm: Perm)
    ensures Adds(mem, dir, root, first, 0, ppn, perm, mem, dir) && SameUsers(mem, dir, mem, dir)
    ensures SameMap(mem, dir, mem, dir) && Removes(mem, dir, root, first, 0, mem, dir)
  {
  }

  lemma AddsAt(m0: Mem, d0: Dir, root: int, first: int, k: int, ppn: int, perm: Perm, m1: Mem, d1: Dir)
    requires Adds(m0, d0, root, first, k, ppn, perm, m1, d1) && 0 <= first + k < MAXVPN
    ensures Lookup(m1, d1, root, first + k) == Lookup(m0, d0, root, first + k)
  {
  }

  lemma SameMapAt(m1: Mem, d1: Dir, m2: Mem, d2: Dir, root: int, v: int)
    requires SameMap(m1, d1, m2, d2) && 0 <= v < MAXVPN
    ensures Lookup(m2, d2, root, v) == Lookup(m1, d1, root, v)
  {
  }

  /** The place where walk hangs a new table. */
  lemma TableEntry(pages: set<int>, mem: Mem, freelist: seq<int>, dir: Dir, owner: map<int, Slot>, root: int,
                   level: int, v: int, n: int)
    requires Consistent(pages, mem, freelist, dir, owner, {}) && 1 <= level <= 2 && 0 <= v < MAXVPN
    requires Tab(root, level, Prefix(level, v)) in dir && Tab(root, level - 1, Prefix(level - 1, v)) !in dir
    requires n in pages && n !in owner
    ensures var up, i := Tab(root, level, Prefix(level, v)), Px(level, v);
      && dir[up] in mem && |mem[dir[up]]| == ENTRIES && dir[up] != n && dir[up] in owner
      && Hangs(pages, mem, dir, owner, up, i, n, mem[n := Page(ZERO)][dir[up] := mem[dir[up]][i := LinkPte(n)]],
               dir[Tab(root, level - 1, Prefix(level - 1, v)) := n], owner[n := Tab(root, level - 1,
                   Prefix(level - 1, v))])
  {
    TablePage(pages, mem, dir, owner, Tab(root, level, Prefix(level, v)));
    InDir(pages, dir, owner, Tab(root, level, Prefix(level, v)));
    PrefixStep(level, v);
  }

  lemma RootPage(pages: set<int>, mem: Mem, freelist: seq<int>, dir: Dir, owner: map<int, Slot>, root: int, v: int)
    requires Consistent(pages, mem, freelist, dir, owner, {}) && Tab(root, 2, 0) in dir
    ensures Prefix(2, v) == 0 && dir[Tab(root, 2, 0)] == root && SameMap(mem, dir, mem, dir)
    ensures SameUsers(mem, dir, mem, dir)
  {
  }

  lemma BottomPage(pages: set<int>, mem: Mem, freelist: seq<int>, dir: Dir, owner: map<int, Slot>, root: int, v: int)
    requires Consistent(pages, mem, freelist, dir, owner, {}) && Tab(root, 0, Prefix(0, v)) in dir
    ensures Prefix(0, v) == v / 512 && dir[Tab(root, 0, v / 512)] != 0
  {
    InDir(pages, dir, owner, Tab(root, 0, v / 512));
  }
}
