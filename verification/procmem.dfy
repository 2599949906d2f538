/** The memory of processes: allocproc, growproc, fork and freeproc (kernel/proc.c) over the
    page tables and the page allocator.

    A process is named by the root page of its page table.  Whatever sequence of these calls
    is made, and whichever of them run out of memory, address spaces stay apart and every page
    is free, in one address space or a trapframe. */
module ProcMemory {
  import opened Sets
  import opened PageTable
  import opened UserCopy

  const RAM: int := 0x8000 // (PHYSTOP - KERNBASE) / PGSIZE
  const NPROC: int := 64

  datatype Proc = Proc(sz: int, trapframe: int)

  const TOP: set<int> := {TRAPFRAME, TRAMPOLINE}

  /** One process: its pages up to sz, its trapframe where the trampoline expects it, and
      nothing on top that the program may touch. */
  ghost predicate Live(mem: Mem, dir: Dir, root: int, p: Proc) {
    && 0 <= p.sz && PagesFor(p.sz) <= RAM && Space(mem, dir, root, PagesFor(p.sz), TOP)
    && Lookup(mem, dir, root, TRAPFRAME) == MakePte(p.trapframe, Perm(true, true, false, false))
    && !Lookup(mem, dir, root, TRAMPOLINE).u
  }

  ghost predicate LiveAll(mem: Mem, dir: Dir, procs: map<int, Proc>) {
    forall r :: r in procs ==> Live(mem, dir, r, procs[r])
  }

  ghost predicate Framed(procs: map<int, Proc>, frames: map<int, int>) {
    && (forall r :: r in procs ==> procs[r].trapframe in frames && frames[procs[r].trapframe] == r)
    && (forall t :: t in frames ==> frames[t] in procs && procs[frames[t]].trapframe == t)
  }

  /** The process table: each process in one slot, 0 in the others. */
  ghost predicate Slotted(slots: seq<int>, procs: map<int, Proc>) {
    && |slots| == NPROC && 0 !in procs && (forall r :: r in procs ==> r in slots)
    && (forall i :: 0 <= i < |slots| && slots[i] != 0 ==> slots[i] in procs)
    && (forall i, j :: 0 <= i < j < |slots| && slots[i] != 0 ==> slots[i] != slots[j])
  }

  /** There is an UNUSED slot exactly when fewer than NPROC processes live. */
  lemma SlotsFull(slots: seq<int>, procs: map<int, Proc>)
    requires Slotted(slots, procs)
    ensures |procs| <= NPROC && (0 !in slots <==> |procs| == NPROC)
  {
    SlotSet(slots, procs);
    hide Slotted; hide Elements;
    if 0 !in slots {
      ElementsSize(slots);
      assert Elements(slots) == procs.Keys;
    } else {
      assert Elements(slots) == procs.Keys + {0};
      ElementsFew(slots);
    }
  }

  lemma SlotSet(slots: seq<int>, procs: map<int, Proc>)
    requires Slotted(slots, procs)
    ensures |slots| == NPROC && 0 !in procs && Elements(slots) == procs.Keys + if 0 in slots then {0} else {}
    ensures 0 !in slots ==> Distinct(slots)
  {
    forall x | x in slots ensures x in procs || x == 0 {
      var i :| 0 <= i < |slots| && slots[i] == x;
    }
    forall x | x in procs ensures x in slots {}
  }

  lemma {:induction false} ElementsFew(s: seq<int>)
    ensures |Elements(s)| <= |s|
  {
    if s != [] {
      ElementsFew(s[1..]);
      assert Elements(s) == Elements(s[1..]) + {s[0]};
    }
  }

  lemma SlotTaken(slots: seq<int>, procs: map<int, Proc>, i: int, root: int, p: Proc)
    requires Slotted(slots, procs) && 0 <= i < |slots| && slots[i] == 0 && root != 0 && root !in procs
    ensures Slotted(slots[i := root], procs[root := p])
  {
    var slots' := slots[i := root];
    forall r | r in procs[root := p] ensures r in slots' {
      if r == root {
        assert slots'[i] == r;
      } else {
        var j :| 0 <= j < |slots| && slots[j] == r;
        assert slots'[j] == r;
      }
    }
  }

  lemma SlotFreed(slots: seq<int>, procs: map<int, Proc>, root: int)
    requires Slotted(slots, procs) && root in procs
    ensures IndexOf(slots, root) < |slots| && Slotted(slots[IndexOf(slots, root) := 0], procs - {root})
  {
    var i := IndexOf(slots, root);
    var slots' := slots[i := 0];
    forall r | r in procs - {root} ensures r in slots' {
      var j :| 0 <= j < |slots| && slots[j] == r;
      assert slots'[j] == r;
    }
  }

  lemma SlotKept(slots: seq<int>, procs: map<int, Proc>, root: int, p: Proc)
    requires Slotted(slots, procs) && root in procs
    ensures Slotted(slots, procs[root := p])
  {
  }

  ghost predicate Rooted(dir: Dir, procs: map<int, Proc>) {
    forall q: Slot :: q in dir ==> q.root in procs
  }

  lemma LiveApart(m0: Mem, d0: Dir, root: int, mem: Mem, dir: Dir, r: int, p: Proc)
    requires Apart(m0, d0, root, mem, dir) && r != root && Live(m0, d0, r, p)
    ensures Live(mem, dir, r, p)
  {
    ApartSpace(m0, d0, root, mem, dir, r, PagesFor(p.sz), TOP);
  }

  lemma OthersLive(m0: Mem, d0: Dir, root: int, mem: Mem, dir: Dir, procs: map<int, Proc>)
    requires Apart(m0, d0, root, mem, dir) && LiveAll(m0, d0, procs - {root})
    ensures LiveAll(mem, dir, procs - {root})
  {
    hide Apart; hide Live;
    forall r | r in procs - {root} ensures Live(mem, dir, r, (procs - {root})[r]) {
      LiveApart(m0, d0, root, mem, dir, r, procs[r]);
    }
  }

  lemma AllApart(m0: Mem, d0: Dir, mem: Mem, dir: Dir, procs: map<int, Proc>, stray: int)
    requires Apart(m0, d0, stray, mem, dir) && LiveAll(m0, d0, procs) && stray !in procs
    ensures LiveAll(mem, dir, procs)
  {
    assert procs - {stray} == procs;
    OthersLive(m0, d0, stray, mem, dir, procs);
  }

  lemma LiveTaken(mem: Mem, dir: Dir, root: int, p: Proc)
    requires Live(mem, dir, root, p)
    ensures !Fresh(dir, root)
  {
    assert Tab(root, 2, 0).root == root;
  }

  /** A process has no more user pages than there are pages. */
  lemma {:induction false} Pigeonhole(left: set<int>, dir: Dir, root: int, n: nat)
    requires forall v :: 0 <= v < n ==> Usr(root, v) in dir && dir[Usr(root, v)] in left
    requires forall v, w :: 0 <= v < w < n ==> dir[Usr(root, v)] != dir[Usr(root, w)]
    ensures n <= |left|
  {
    if n > 0 {
      var p := dir[Usr(root, n - 1)];
      assert p in left;
      Pigeonhole(left - {p}, dir, root, n - 1);
    }
  }

  lemma SpaceFits(pages: set<int>, mem: Mem, freelist: seq<int>, dir: Dir, owner: map<int, Slot>, root: int, n: int,
                  top: set<int>)
    requires Consistent(pages, mem, freelist, dir, owner, {}) && Space(mem, dir, root, n, top)
    ensures n <= |pages|
  {
    forall v | 0 <= v < n
      ensures Usr(root, v) in dir && dir[Usr(root, v)] in pages && owner[dir[Usr(root, v)]] == Usr(root, v)
    {
      InDir(pages, dir, owner, Usr(root, v));
    }
    Pigeonhole(pages, dir, root, n);
  }

  /** PGROUNDUP is monotone, and a difference in size is one in pages. */
  lemma Rounding(a: int, b: int)
    requires a <= b
    ensures PagesFor(a) <= PagesFor(b)
  {
  }

  /** No page of one process is a page of another, a second page of the same, a table or free. */
  lemma Isolated(pages: set<int>, mem: Mem, freelist: seq<int>, dir: Dir, owner: map<int, Slot>, r1: int, v1: int,
                 r2: int, v2: int, n1: int, n2: int)
    requires Consistent(pages, mem, freelist, dir, owner, {}) && Space(mem, dir, r1, n1, TOP)
    requires Space(mem, dir, r2, n2, TOP)
    requires 0 <= v1 < n1 && 0 <= v2 < n2 && (r1 != r2 || v1 != v2)
    ensures var ppn := Lookup(mem, dir, r1, v1).ppn;
      && ppn != Lookup(mem, dir, r2, v2).ppn && ppn !in freelist
      && forall s: Slot :: s in dir && s.Tab? ==> dir[s] != ppn
  {
    UserMapped(pages, mem, freelist, dir, owner, r1, v1);
    UserMapped(pages, mem, freelist, dir, owner, r2, v2);
    InDir(pages, dir, owner, Usr(r1, v1));
    InDir(pages, dir, owner, Usr(r2, v2));
    forall s: Slot | s in dir && s.Tab? ensures dir[s] != dir[Usr(r1, v1)] { InDir(pages, dir, owner, s); }
  }

  // ---------------------------------------------------------------- steps of the proofs

  lemma SameAll(m0: Mem, dir: Dir, mem: Mem)
    requires SameMap(m0, dir, mem, dir) && SameUsers(m0, dir, mem, dir)
    ensures forall r :: Apart(m0, dir, r, mem, dir)
  {
    forall r ensures Apart(m0, dir, r, mem, dir) { SameApart(m0, dir, r, mem, dir); }
  }

  lemma SameAllPages(mem: Mem, dir: Dir)
    ensures forall r :: Apart(mem, dir, r, mem, dir)
  {
    forall r ensures Apart(mem, dir, r, mem, dir) { ApartRefl(mem, dir, r); }
  }

  lemma AllTrans(m0: Mem, m1: Mem, m2: Mem, m3: Mem, dir: Dir)
    requires (forall r :: Apart(m0, dir, r, m1, dir)) && (forall r :: Apart(m1, dir, r, m2, dir))
    requires forall r :: Apart(m2, dir, r, m3, dir)
    ensures forall r :: Apart(m0, dir, r, m3, dir)
  {
    hide Apart;
    forall r ensures Apart(m0, dir, r, m3, dir) {
      ApartTrans(m0, dir, r, m1, dir, m2, dir);
      ApartTrans(m0, dir, r, m2, dir, m3, dir);
    }
  }

  lemma LiveSteady(m0: Mem, mem: Mem, dir: Dir, procs: map<int, Proc>)
    requires (forall r :: Apart(m0, dir, r, mem, dir)) && LiveAll(m0, dir, procs)
    ensures LiveAll(mem, dir, procs)
  {
    hide Apart; hide Live;
    forall r | r in procs ensures Live(mem, dir, r, procs[r]) {
      assert Apart(m0, dir, r + 1, mem, dir);
      LiveApart(m0, dir, r + 1, mem, dir, r, procs[r]);
    }
  }

  lemma SameOwner(pages: set<int>, dir: Dir, o1: map<int, Slot>, o2: map<int, Slot>)
    requires DirOk(pages, dir, o1) && DirOk(pages, dir, o2)
    ensures o1.Keys == o2.Keys
  {
    forall n | n in o1 ensures n in o2 { assert o1[n] in dir; }
    forall n | n in o2 ensures n in o1 { assert o2[n] in dir; }
  }

  /** The directory and the loose pages decide which pages are free. */
  lemma SameFree(pages: set<int>, m1: Mem, f1: seq<int>, o1: map<int, Slot>, m2: Mem, f2: seq<int>, o2: map<int, Slot>,
                 dir: Dir)
    requires Consistent(pages, m1, f1, dir, o1, {}) && Consistent(pages, m2, f2, dir, o2, {})
    requires Limbo(pages, f1, o1) == Limbo(pages, f2, o2)
    ensures Elements(f1) == Elements(f2)
  {
    SameOwner(pages, dir, o1, o2);
    FreePages(pages, f1, o1);
    FreePages(pages, f2, o2);
  }

  lemma FreePages(pages: set<int>, f: seq<int>, owner: map<int, Slot>)
    requires FreeOk(pages, f, owner)
    ensures Elements(f) == pages - owner.Keys - Limbo(pages, f, owner)
  {
  }

  /** Every page is free, loose or owned, and only one of them. */
  lemma Partition(pages: set<int>, mem: Mem, f: seq<int>, dir: Dir, owner: map<int, Slot>)
    requires Consistent(pages, mem, f, dir, owner, {})
    ensures var loose := Limbo(pages, f, owner);
      && pages == Elements(f) + loose + owner.Keys
      && Elements(f) !! loose && Elements(f) !! owner.Keys && loose !! owner.Keys
  {
    hide TreeOk; hide MemOk; hide ShapeOk;
    FreePages(pages, f, owner);
    forall n | n in owner ensures n in pages {
      var s := owner[n];
      InDir(pages, dir, owner, s);
    }
  }

  lemma OwnedLives(pages: set<int>, dir: Dir, owner: map<int, Slot>, procs: map<int, Proc>, n: int)
    requires DirOk(pages, dir, owner) && Rooted(dir, procs) && n in owner
    ensures procs != map[]
  {
    var s := owner[n];
    assert s in dir && s.root in procs;
  }

  lemma NoProcs(pages: set<int>, mem: Mem, f: seq<int>, dir: Dir, owner: map<int, Slot>, procs: map<int, Proc>)
    requires Consistent(pages, mem, f, dir, owner, {}) && Rooted(dir, procs) && procs == map[]
    ensures owner.Keys == {}
  {
    hide TreeOk; hide MemOk; hide ShapeOk; hide Rooted;
    forall n ensures n !in owner {
      if n in owner { OwnedLives(pages, dir, owner, procs, n); }
    }
  }

  lemma NoFrames(procs: map<int, Proc>, frames: map<int, int>)
    requires Framed(procs, frames) && procs == map[]
    ensures frames.Keys == {}
  {
    forall t ensures t !in frames {
      if t in frames { FrameLives(procs, frames, t); }
    }
  }

  lemma FrameLives(procs: map<int, Proc>, frames: map<int, int>, t: int)
    requires Framed(procs, frames) && t in frames
    ensures procs != map[]
  {
    var r := frames[t];
    assert r in procs;
  }

  /** A new process joins the table. */
  lemma Adopt(m0: Mem, d0: Dir, root: int, mem: Mem, dir: Dir, procs: map<int, Proc>, frames: map<int, int>,
              trapframe: int)
    requires Apart(m0, d0, root, mem, dir) && LiveAll(m0, d0, procs) && Rooted(d0, procs) && Framed(procs, frames)
    requires Fresh(d0, root) && trapframe !in frames && Space(mem, dir, root, 0, TOP)
    requires Lookup(mem, dir, root, TRAPFRAME) == MakePte(trapframe, Perm(true, true, false, false))
    requires !Lookup(mem, dir, root, TRAMPOLINE).u
    ensures root !in procs
    ensures var procs', frames' := procs[root := Proc(0, trapframe)], frames[trapframe := root];
      && LiveAll(mem, dir, procs') && Rooted(dir, procs') && Framed(procs', frames')
      && frames'.Keys == frames.Keys + {trapframe}
  {
    hide Lookup; hide Space;
    if root in procs { LiveTaken(m0, d0, root, procs[root]); }
    AllApart(m0, d0, mem, dir, procs, root);
  }

  /** A process leaves it. */
  lemma Bury(m0: Mem, d0: Dir, root: int, mem: Mem, dir: Dir, procs: map<int, Proc>, frames: map<int, int>)
    requires Apart(m0, d0, root, mem, dir) && LiveAll(m0, d0, procs) && Rooted(d0, procs) && Framed(procs, frames)
    requires Fresh(dir, root) && root in procs
    ensures var procs', frames' := procs - {root}, frames - {procs[root].trapframe};
      && LiveAll(mem, dir, procs') && Rooted(dir, procs') && Framed(procs', frames')
      && frames'.Keys == frames.Keys - {procs[root].trapframe}
  {
    hide Live;
    OthersLive(m0, d0, root, mem, dir, procs);
  }

  /** The address space of one process changes. */
  lemma Resize(m0: Mem, d0: Dir, root: int, mem: Mem, dir: Dir, procs: map<int, Proc>, frames: map<int, int>, sz: int)
    requires Apart(m0, d0, root, mem, dir) && LiveAll(m0, d0, procs) && Rooted(d0, procs) && Framed(procs, frames)
    requires root in procs
    requires Live(mem, dir, root, procs[root].(sz := sz))
    ensures var procs' := procs[root := procs[root].(sz := sz)];
      LiveAll(mem, dir, procs') && Rooted(dir, procs') && Framed(procs', frames)
  {
    hide Live;
    OthersLive(m0, d0, root, mem, dir, procs);
    var procs' := procs[root := procs[root].(sz := sz)];
    forall r | r in procs' ensures Live(mem, dir, r, procs'[r]) {
      if r != root { assert r in procs - {root}; }
    }
  }

  class Processes {
    const k: Kernel
    const trampoline: int
    var procs: map<int, Proc>
    var slots: seq<int>
    ghost var frames: map<int, int>

    ghost predicate Valid()
      reads this, k
    {
      && k.Valid({}) && |k.pages| <= RAM
      && LiveAll(k.mem, k.dir, procs) && Rooted(k.dir, procs)
      && Framed(procs, frames) && k.Loose() == frames.Keys && Slotted(slots, procs)
    }

    constructor (kernel: Kernel, trampolinePage: int)
      requires kernel.Valid({}) && |kernel.pages| <= RAM && kernel.dir == map[] && kernel.Loose() == {}
      ensures Valid() && k == kernel && trampoline == trampolinePage && procs == map[]
    {
      k, trampoline, procs, frames, slots := kernel, trampolinePage, map[], map[], Copies(NPROC, 0);
    }

    /** Every page is free, a trapframe or in one address space; with no process all are free. */
    lemma Accounted()
      requires Valid()
      ensures k.pages == Elements(k.freelist) + frames.Keys + k.owner.Keys
      ensures Elements(k.freelist) !! frames.Keys && Elements(k.freelist) !! k.owner.Keys && frames.Keys !! k.owner.Keys
      ensures procs == map[] ==> Elements(k.freelist) == k.pages
    {
      hide Consistent; hide LiveAll; hide Rooted; hide Limbo;
      Partition(k.pages, k.mem, k.freelist, k.dir, k.owner);
      if procs == map[] {
        NoFrames(procs, frames);
        NoProcs(k.pages, k.mem, k.freelist, k.dir, k.owner, procs);
      }
    }

    /** allocproc: a process without user memory, or 0 and every page as it was; 0 exactly when the
        process table is full or fewer than four pages are free. */
    method Allocproc() returns (root: int)
      requires Valid()
      modifies this, k
      ensures Valid()
      ensures root == 0 ==>
        procs == old(procs) && k.dir == old(k.dir) && Elements(k.freelist) == old(Elements(k.freelist))
      ensures root == 0 ==> forall r :: Apart(old(k.mem), old(k.dir), r, k.mem, k.dir)
      ensures root != 0 ==>
        root !in old(procs) && root in procs && procs == old(procs)[root := Proc(0, procs[root].trapframe)]
      ensures root != 0 ==> Apart(old(k.mem), old(k.dir), root, k.mem, k.dir)
      ensures root == 0 <==> |old(procs)| == NPROC || old(|k.freelist|) < 4
      ensures root != 0 ==> TabsGrow(old(k.dir), k.dir, TopTables(root)) && |k.freelist| == old(|k.freelist|) - 4
    {
      hide TabsGrow; hide TopTables; hide Slotted; hide Consistent; hide Apart; hide Live; hide LiveAll; hide Rooted;
      hide Framed;
      hide Space; hide Fresh; hide Lookup; hide SameMap; hide SameUsers; hide Limbo;
      SlotsFull(slots, procs);
      var i := FindSlot();
      if i == NPROC {
        SameAllPages(k.mem, k.dir);
        return 0;
      }
      ghost var m0, d0 := k.mem, k.dir;
      var trapframe;
      root, trapframe := NewSpace();
      if root == 0 {
        LiveSteady(m0, k.mem, k.dir, procs);
        return;
      }
      Adopt(m0, d0, root, k.mem, k.dir, procs, frames, trapframe);
      SlotTaken(slots, procs, i, root, Proc(0, trapframe));
      slots := slots[i := root];
      procs := procs[root := Proc(0, trapframe)];
      frames := frames[trapframe := root];
    }

    /** The memory of allocproc: a trapframe and a page table with it on top, or nothing. */
    method NewSpace() returns (root: int, trapframe: int)
      requires k.Valid({})
      modifies k
      ensures k.Valid({}) && (root == 0 <==> old(|k.freelist|) < 4)
      ensures root == 0 ==>
        && k.dir == old(k.dir) && Elements(k.freelist) == old(Elements(k.freelist)) && k.Loose() == old(k.Loose())
        && forall r :: Apart(old(k.mem), old(k.dir), r, k.mem, k.dir)
      ensures root != 0 ==>
        && Apart(old(k.mem), old(k.dir), root, k.mem, k.dir) && Fresh(old(k.dir), root)
        && trapframe !in old(k.Loose()) && k.Loose() == old(k.Loose()) + {trapframe}
        && Space(k.mem, k.dir, root, 0, TOP)
        && Lookup(k.mem, k.dir, root, TRAPFRAME) == MakePte(trapframe, Perm(true, true, false, false))
        && !Lookup(k.mem, k.dir, root, TRAMPOLINE).u
        && TabsGrow(old(k.dir), k.dir, TopTables(root)) && |k.freelist| == old(|k.freelist|) - 4
    {
      hide TabsGrow; hide TopTables; hide Consistent; hide Apart; hide Space; hide Fresh; hide Lookup; hide SameMap;
      hide SameUsers; hide Limbo;
      root := 0;
      trapframe := k.Kalloc();
      SameAll(old(k.mem), k.dir, k.mem);
      if trapframe == 0 { return; }
      ghost var m1, d1 := k.mem, k.dir;
      root := k.ProcPagetable(trampoline, trapframe);
      if root == 0 {
        ghost var m2 := k.mem;
        k.Kfree(trapframe, {});
        LoosePage(old(k.Loose()), trapframe);
        SameAll(m2, k.dir, k.mem);
        AllTrans(old(k.mem), m1, m2, k.mem, k.dir);
        SameFree(k.pages, old(k.mem), old(k.freelist), old(k.owner), k.mem, k.freelist, k.owner, k.dir);
        return;
      }
      ApartTrans(old(k.mem), d1, root, m1, d1, k.mem, k.dir);
    }

    /** allocproc's loop: the first UNUSED slot. */
    method FindSlot() returns (i: int)
      requires Slotted(slots, procs)
      ensures |slots| == NPROC && 0 <= i <= NPROC && (i < NPROC ==> slots[i] == 0) && (i == NPROC <==> 0 !in slots)
      ensures forall j :: 0 <= j < i ==> slots[j] != 0
    {
      i := 0;
      while i < NPROC
        invariant 0 <= i <= NPROC && forall j :: 0 <= j < i ==> slots[j] != 0
      {
        if slots[i] == 0 { return; }
        i := i + 1;
      }
    }

    /** freeproc: the process is gone, its pages are free, the others are as they were. */
    method Freeproc(root: int)
      requires Valid() && root in procs
      modifies this, k
      ensures Valid() && procs == old(procs) - {root} && Apart(old(k.mem), old(k.dir), root, k.mem, k.dir)
      ensures Fresh(k.dir, root)
    {
      hide Slotted; hide Consistent; hide Apart; hide LiveAll; hide Rooted; hide Framed; hide Space; hide Fresh;
      hide Lookup;
      hide SameMap; hide SameUsers; hide Limbo;
      Trapframe(procs, frames, k.mem, k.dir, root);
      k.Kfree(procs[root].trapframe, {});
      ghost var m1, d1 := k.mem, k.dir;
      SameAll(old(k.mem), k.dir, k.mem);
      LiveSteady(old(k.mem), k.mem, k.dir, procs);
      Trapframe(procs, frames, k.mem, k.dir, root);
      k.ProcFreepagetable(root, procs[root].sz);
      Bury(m1, d1, root, k.mem, k.dir, procs, frames);
      ApartTrans(old(k.mem), d1, root, m1, d1, k.mem, k.dir);
      SlotFreed(slots, procs, root);
      slots := slots[IndexOf(slots, root) := 0];
      frames := frames - {procs[root].trapframe};
      procs := procs - {root};
    }

    /** growproc: all of the bytes asked for or none.  Memory runs out long before the heap
        meets the trapframe, so mappages' panic is not reached. */
    method Growproc(root: int, n: int) returns (ok: bool)
      requires Valid() && root in procs && -0x8000_0000 <= n < 0x8000_0000
      modifies this, k
      ensures Valid() && Apart(old(k.mem), old(k.dir), root, k.mem, k.dir)
      ensures var sz := old(procs[root].sz);
        procs == old(procs)[root := old(procs[root]).(sz := if ok && sz + n >= 0 then sz + n else sz)]
      ensures n <= 0 ==> ok
      ensures n > 0 ==>
        var a, b := PagesFor(old(procs[root].sz)), PagesFor(old(procs[root].sz) + n);
        ok <==> old(|k.freelist|) >= b - a + old(Lack(k.dir, Tables(root, a, b)))
      ensures !ok ==> SameMap(old(k.mem), old(k.dir), k.mem, k.dir) && SameUsers(old(k.mem), old(k.dir), k.mem, k.dir)
      ensures ok && n > 0 ==>
        var a, b := PagesFor(old(procs[root].sz)), PagesFor(procs[root].sz);
        PlacedAll(old(k.mem), old(k.dir), root, a, Copies(b - a, Perm(true, true, false, true)),
                  Copies(b - a, Page(ZERO)), k.mem, k.dir)
      ensures n <= 0 ==>
        var a, b := PagesFor(procs[root].sz), PagesFor(old(procs[root].sz));
        && Removes(old(k.mem), old(k.dir), root, a, b - a, k.mem, k.dir)
        && KeepsUsers(old(k.mem), old(k.dir), k.mem, k.dir)
    {
      hide Slotted; hide Lack; hide Tables;
      hide Consistent; hide Apart; hide LiveAll; hide Rooted; hide Framed; hide Space; hide Fresh; hide Lookup;
      hide SameMap; hide SameUsers; hide Limbo;
      hide PlacedAll; hide Gains; hide KeepsTabs; hide Others; hide Removes; hide Drops; hide KeepsUsers;
      Trapframe(procs, frames, k.mem, k.dir, root);
      var sz := procs[root].sz;
      ghost var m0, d0 := k.mem, k.dir;
      SpaceMapped(k.pages, k.mem, k.freelist, k.dir, k.owner, root, PagesFor(sz), TOP);
      if n > 0 {
        Rounding(sz, sz + n);
        var r, failed := k.Uvmalloc(root, sz, sz + n, Perm(false, true, false, false));
        if r == 0 {
          ok := false;
          SpaceSame(m0, d0, root, PagesFor(sz), TOP, PagesFor(sz), k.mem, k.dir);
          SameTop(m0, d0, k.mem, k.dir, root);
        } else {
          ok, sz := true, r;
          ghost var add := PagesFor(sz) - PagesFor(procs[root].sz);
          SpaceGrow(m0, d0, root, PagesFor(procs[root].sz), TOP, Copies(add, Perm(true, true, false, true)),
                    Copies(add, Page(ZERO)), k.mem, k.dir);
          SpaceFits(k.pages, k.mem, k.freelist, k.dir, k.owner, root, PagesFor(sz), TOP);
          PlacedTop(m0, d0, root, PagesFor(procs[root].sz), Copies(add, Perm(true, true, false, true)),
                    Copies(add, Page(ZERO)), k.mem, k.dir);
        }
      } else {
        ok := true;
        ApartRefl(k.mem, k.dir, root);
        NothingGone(k.mem, k.dir, root, PagesFor(sz));
        if n < 0 {
          // sz + n wraps when the request is larger than the process, and then nothing goes
          var newsz := if sz + n < 0 then sz + n + 0x1_0000_0000_0000_0000 else sz + n;
          if newsz < sz { Rounding(newsz, sz); }
          sz := k.Uvmdealloc(root, sz, newsz);
          if newsz < procs[root].sz { Shrunk(m0, d0, root, procs[root].sz, newsz, k.mem, k.dir); }
        }
      }
      Resize(m0, d0, root, k.mem, k.dir, procs, frames, sz);
      SlotKept(slots, procs, root, procs[root].(sz := sz));
      procs := procs[root := procs[root].(sz := sz)];
    }

    /** fork: a child with a copy of each of the parent's pages, or 0 and every page as it was. */
    method Fork(root: int) returns (child: int)
      requires Valid() && root in procs
      modifies this, k
      ensures Valid()
      ensures child == 0 ==>
        procs == old(procs) && k.dir == old(k.dir) && Elements(k.freelist) == old(Elements(k.freelist))
      ensures child == 0 ==> forall r :: Apart(old(k.mem), old(k.dir), r, k.mem, k.dir)
      ensures child != 0 ==>
        child !in old(procs) && child in procs && Apart(old(k.mem), old(k.dir), child, k.mem, k.dir)
      ensures child != 0 ==> procs == old(procs)[child := Proc(procs[root].sz, procs[child].trapframe)]
      ensures var n := PagesFor(old(procs[root].sz));
        child == 0 <==> |old(procs)| == NPROC || old(|k.freelist|) < 4 + n + TableCount(n)
      ensures child != 0 ==>
        forall v :: 0 <= v < PagesFor(procs[root].sz) ==> Copied(old(k.mem), old(k.dir), root, k.mem, k.dir, child, v)
    {
      hide Consistent; hide Apart; hide LiveAll; hide Rooted; hide Framed; hide Space; hide Fresh; hide Lookup;
      hide SameMap; hide SameUsers; hide Limbo;
      hide Slotted; hide PlacedAll; hide Gains; hide KeepsTabs; hide Others; hide Copied; hide Lack; hide Tables;
      hide TabsGrow;
      hide TopTables; hide Spent; hide TableCount;
      ghost var m0, d0, f0, o0 := k.mem, k.dir, k.freelist, k.owner;
      Trapframe(procs, frames, k.mem, k.dir, root);
      SpaceMapped(k.pages, k.mem, k.freelist, k.dir, k.owner, root, PagesFor(procs[root].sz), TOP);
      CountPositive(PagesFor(procs[root].sz));
      child := Allocproc();
      if child == 0 { return; }
      NoSlots(d0, old(procs), child);
      NewLack(d0, k.dir, child, PagesFor(procs[root].sz));
      Trapframe(procs, frames, k.mem, k.dir, root);
      Trapframe(procs, frames, k.mem, k.dir, child);
      var sz := procs[root].sz;
      ghost var m1, d1 := k.mem, k.dir;
      SpaceMapped(k.pages, k.mem, k.freelist, k.dir, k.owner, root, PagesFor(sz), TOP);
      SpaceMapped(k.pages, k.mem, k.freelist, k.dir, k.owner, child, 0, TOP);
      var ok := k.Uvmcopy(root, child, sz);
      if !ok {
        SpaceSame(m1, d1, child, 0, TOP, 0, k.mem, k.dir);
        SameTop(m1, d1, k.mem, k.dir, child);
        Resize(m1, d1, child, k.mem, k.dir, procs, frames, 0);
        assert procs[child := procs[child].(sz := 0)] == procs;
        ApartTrans(m0, d0, child, m1, d1, k.mem, k.dir);
        ghost var m2, d2 := k.mem, k.dir;
        Freeproc(child);
        ApartTrans(m0, d0, child, m2, d2, k.mem, k.dir);
        ApartFresh(m0, d0, child, k.mem, k.dir);
        SameProcs(old(procs), old(frames), procs, frames);
        SameFree(k.pages, m0, f0, o0, k.mem, k.freelist, k.owner, k.dir);
        return 0;
      }
      ghost var perms, contents := SourcePerms(m1, d1, root, PagesFor(sz)), SourcePages(m1, d1, root, PagesFor(sz));
      SpaceGrow(m1, d1, child, 0, TOP, perms, contents, k.mem, k.dir);
      PlacedTop(m1, d1, child, 0, perms, contents, k.mem, k.dir);
      Resize(m1, d1, child, k.mem, k.dir, procs, frames, sz);
      ApartTrans(m0, d0, child, m1, d1, k.mem, k.dir);
      forall v | 0 <= v < PagesFor(sz) ensures Copied(m0, d0, root, k.mem, k.dir, child, v) {
        CopyOf(m0, d0, m1, d1, root, child, PagesFor(sz), k.mem, k.dir, v);
      }
      SlotKept(slots, procs, child, procs[child].(sz := sz));
      procs := procs[child := procs[child].(sz := sz)];
    }
  }

  /** Page v of the child has the permissions and the contents of the parent's. */
  ghost predicate Copied(m0: Mem, d0: Dir, parent: int, mem: Mem, dir: Dir, child: int, v: int) {
    && Usr(parent, v) in d0 && d0[Usr(parent, v)] in m0 && Usr(child, v) in dir && dir[Usr(child, v)] in mem
    && mem[dir[Usr(child, v)]] == m0[d0[Usr(parent, v)]]
    && PermOf(Lookup(mem, dir, child, v)) == PermOf(Lookup(m0, d0, parent, v))
  }

  lemma CopyOf(m0: Mem, d0: Dir, m1: Mem, d1: Dir, parent: int, child: int, n: int, mem: Mem, dir: Dir, v: int)
    requires Apart(m0, d0, child, m1, d1) && parent != child && 0 <= v < n <= MAXVPN && HasPages(m1, d1, parent, n)
    requires HasPages(m0, d0, parent, n)
    requires PlacedAll(m1, d1, child, 0, SourcePerms(m1, d1, parent, n), SourcePages(m1, d1, parent, n), mem, dir)
    ensures Copied(m0, d0, parent, mem, dir, child, v)
  {
    assert PageIs(mem, dir, child, 0 + v, SourcePerms(m1, d1, parent, n)[v], SourcePages(m1, d1, parent, n)[v]);
    assert Usr(parent, v).root == parent;
  }

  lemma Trapframe(procs: map<int, Proc>, frames: map<int, int>, mem: Mem, dir: Dir, root: int)
    requires LiveAll(mem, dir, procs) && Framed(procs, frames) && root in procs
    ensures procs[root].trapframe in frames && Live(mem, dir, root, procs[root]) && Tab(root, 2, 0) in dir
  {
  }

  lemma PlacedTop(m0: Mem, d0: Dir, root: int, n: int, perms: seq<Perm>, contents: seq<seq<Pte>>, mem: Mem, dir: Dir)
    requires PlacedAll(m0, d0, root, n, perms, contents, mem, dir) && n + |perms| <= TRAPFRAME
    ensures Lookup(mem, dir, root, TRAPFRAME) == Lookup(m0, d0, root, TRAPFRAME)
    ensures Lookup(mem, dir, root, TRAMPOLINE) == Lookup(m0, d0, root, TRAMPOLINE)
  {
  }

  lemma SameTop(m0: Mem, d0: Dir, mem: Mem, dir: Dir, root: int)
    requires SameMap(m0, d0, mem, dir)
    ensures Lookup(mem, dir, root, TRAPFRAME) == Lookup(m0, d0, root, TRAPFRAME)
    ensures Lookup(mem, dir, root, TRAMPOLINE) == Lookup(m0, d0, root, TRAMPOLINE)
  {
  }

  lemma Shrunk(m0: Mem, d0: Dir, root: int, oldsz: int, newsz: int, mem: Mem, dir: Dir)
    requires 0 <= newsz < oldsz && PagesFor(oldsz) <= RAM && Space(m0, d0, root, PagesFor(oldsz), TOP)
    requires var n := PagesFor(oldsz) - PagesFor(newsz);
      && Removes(m0, d0, root, PagesFor(newsz), n, mem, dir)
      && Drops(d0, root, PagesFor(newsz), n, dir) && KeepsUsers(m0, d0, mem, dir)
    ensures Space(mem, dir, root, PagesFor(newsz), TOP) && Apart(m0, d0, root, mem, dir)
    ensures Lookup(mem, dir, root, TRAPFRAME) == Lookup(m0, d0, root, TRAPFRAME)
    ensures Lookup(mem, dir, root, TRAMPOLINE) == Lookup(m0, d0, root, TRAMPOLINE)
  {
    hide Space; hide Drops; hide KeepsUsers; hide Apart; hide Lookup;
    Rounding(newsz, oldsz);
    SpaceShrink(m0, d0, root, PagesFor(oldsz), TOP, PagesFor(newsz), mem, dir);
  }

  lemma CountPositive(n: nat)
    ensures TableCount(n) >= 0
  {
  }

  /** The tables for the pages of a child are all still to be made. */
  lemma NewLack(d0: Dir, dir: Dir, root: int, n: int)
    requires Fresh(d0, root) && TabsGrow(d0, dir, TopTables(root)) && 0 <= n <= RAM
    ensures Lack(dir, Tables(root, 0, n)) == TableCount(n)
  {
    hide Tables; hide TableCount;
    TablesCount(root, n);
    TablesIn(root, n);
    TopAre(root);
    forall s | s in Tables(root, 0, n) ensures s !in dir { assert s.root == root; }
    assert Tables(root, 0, n) - dir.Keys == Tables(root, 0, n);
  }

  // ---------------------------------------------------------------- what programs see

  /** Every page of RAM has its 4096 bytes. */
  ghost predicate Ram(pages: set<int>, phys: Phys) {
    forall q :: q in pages ==> q in phys && |phys[q]| == PGSIZE
  }

  /** Where a program can reach: the pages up to sz, each its own. */
  lemma Reach(pages: set<int>, mem: Mem, freelist: seq<int>, dir: Dir, owner: map<int, Slot>, root: int, p: Proc,
              a: int)
    requires Consistent(pages, mem, freelist, dir, owner, {}) && Live(mem, dir, root, p)
    requires Mapped(Flat(mem, dir, root), a)
    ensures 0 <= a / 4096 < PagesFor(p.sz) && Usr(root, a / 4096) in dir
    ensures var q := Translate(Flat(mem, dir, root), a);
      q == dir[Usr(root, a / 4096)] && q in pages && q in owner && owner[q] == Usr(root, a / 4096)
  {
    var v := a / 4096;
    assert Translate(Flat(mem, dir, root), a) == Lookup(mem, dir, root, v).ppn && Lookup(mem, dir, root, v).v
      && Lookup(mem, dir, root, v).u;
    assert v != TRAPFRAME && v != TRAMPOLINE;
    UserMapped(pages, mem, freelist, dir, owner, root, v);
    InDir(pages, dir, owner, Usr(root, v));
  }

  /** So copyout, copyin and copyinstr work on a process: all that they need of its flat view
      holds. */
  lemma ProcessBacked(pages: set<int>, mem: Mem, freelist: seq<int>, dir: Dir, owner: map<int, Slot>, root: int,
                      p: Proc, phys: Phys)
    requires Consistent(pages, mem, freelist, dir, owner, {}) && Live(mem, dir, root, p) && Ram(pages, phys)
    ensures Backed(Flat(mem, dir, root), phys)
    ensures forall a :: Mapped(Flat(mem, dir, root), a) ==> 0 <= a < PagesFor(p.sz) * 4096
  {
    hide Consistent; hide Live; hide Flat; hide Translate;
    var view := Flat(mem, dir, root);
    forall a | Mapped(view, a)
      ensures Translate(view, a) in phys && |phys[Translate(view, a)]| == PGSIZE && 0 <= a < PagesFor(p.sz) * 4096
    {
      Reach(pages, mem, freelist, dir, owner, root, p, a);
      var q := Translate(view, a);
      assert q in pages;
    }
    forall a, b | Mapped(view, a) && Translate(view, a) == Translate(view, b) ensures a / 4096 == b / 4096 {
      Reach(pages, mem, freelist, dir, owner, root, p, a);
      Reach(pages, mem, freelist, dir, owner, root, p, b);
    }
  }

  /** A copyout into one process changes no byte that another one sees. */
  lemma CopyoutApart(pages: set<int>, mem: Mem, freelist: seq<int>, dir: Dir, owner: map<int, Slot>,
                     r1: int, p1: Proc, r2: int, p2: Proc, phys: Phys, phys': Phys, b: int)
    requires Consistent(pages, mem, freelist, dir, owner, {}) && Live(mem, dir, r1, p1) && Live(mem, dir, r2, p2)
    requires r1 != r2
    requires Ram(pages, phys) && OthersKept(Flat(mem, dir, r1), phys, phys') && Mapped(Flat(mem, dir, r2), b)
    ensures Byte(Flat(mem, dir, r2), phys', b) == Byte(Flat(mem, dir, r2), phys, b)
  {
    hide Consistent; hide Live; hide Flat; hide Translate;
    Reach(pages, mem, freelist, dir, owner, r2, p2, b);
    var q := Translate(Flat(mem, dir, r2), b);
    forall a | Mapped(Flat(mem, dir, r1), a) ensures Translate(Flat(mem, dir, r1), a) != q {
      Reach(pages, mem, freelist, dir, owner, r1, p1, a);
    }
    assert q in pages;
  }

  lemma NoSlots(dir: Dir, procs: map<int, Proc>, root: int)
    requires Rooted(dir, procs) && root !in procs
    ensures Fresh(dir, root)
  {
  }

  lemma SameProcs(p0: map<int, Proc>, f0: map<int, int>, p1: map<int, Proc>, f1: map<int, int>)
    requires Framed(p0, f0) && Framed(p1, f1) && p0 == p1
    ensures f0.Keys == f1.Keys
  {
    forall t | t in f0 ensures t in f1 { var r := f0[t]; assert r in p1 && p1[r].trapframe == t; }
    forall t | t in f1 ensures t in f0 { var r := f1[t]; assert r in p0 && p0[r].trapframe == t; }
  }
}
