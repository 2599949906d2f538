/** The buffer cache (kernel/bio.c): NBUF buffers on one ring ordered by last release, with
    reference counts, over one disk.

    Buffers are named by their index in the array; index NBUF is the list head.  The ghost
    fields say what the links mean: `order` lists the ring from head.next on, `stamp` when
    each buffer was last moved to the front, `held` how often a buffer has been handed out
    and not released, `pins` how often it is pinned. */
module BufferCache {
  import opened RedoLog
  import opened Sets

  const NBUF: nat := 30
  const HEAD: nat := 30 // &bcache.head
  const DEV: int := 1 // ROOTDEV

  datatype Buf = Buf(valid: bool, dev: int, blockno: int, refcnt: int, data: Block)

  predicate Holds(b: Buf, dev: int, blockno: int) {
    b.dev == dev && b.blockno == blockno
  }

  predicate Cached(buf: seq<Buf>, dev: int, blockno: int) {
    exists i :: 0 <= i < |buf| && Holds(buf[i], dev, blockno)
  }

  predicate Unused(buf: seq<Buf>) {
    exists i :: 0 <= i < |buf| && buf[i].refcnt == 0
  }

  /** The neighbours of position i; the head closes the ring. */
  function After(order: seq<int>, i: int): (b: int)
    requires -1 <= i < |order|
  {
    if i + 1 < |order| then order[i + 1] else HEAD
  }

  function Before(order: seq<int>, i: int): (b: int)
    requires 0 <= i <= |order|
  {
    if i > 0 then order[i - 1] else HEAD
  }

  /** Buffers of the cache, each once. */
  predicate Buffers(order: seq<int>) {
    Distinct(order) && forall i :: 0 <= i < |order| ==> 0 <= order[i] < NBUF
  }

  /** next runs along `order` from the head and back to it, prev runs against it. */
  predicate Linked(order: seq<int>, next: seq<int>, prev: seq<int>)
    requires |next| == |prev| == NBUF + 1
  {
    && next[HEAD] == After(order, -1) && prev[HEAD] == Before(order, |order|)
    && (forall i {:trigger next[order[i]]} :: 0 <= i < |order| ==>
          0 <= order[i] < HEAD && next[order[i]] == After(order, i))
    && (forall i {:trigger prev[order[i]]} :: 0 <= i < |order| ==>
          0 <= order[i] < HEAD && prev[order[i]] == Before(order, i))
  }

  function Without(order: seq<int>, p: nat): (r: seq<int>)
    requires p < |order|
    ensures |r| == |order| - 1
  {
    order[..p] + order[p + 1..]
  }

  lemma WithoutAt(order: seq<int>, p: nat)
    requires p < |order|
    ensures |Without(order, p)| == |order| - 1
    ensures forall i :: 0 <= i < |order| - 1 ==> Without(order, p)[i] == order[if i < p then i else i + 1]
  {
  }

  lemma UnlinkNext(order: seq<int>, next: seq<int>, prev: seq<int>, p: nat, i: int)
    requires |next| == |prev| == NBUF + 1 && Buffers(order) && Linked(order, next, prev) && p < |order|
    requires 0 <= i < |order| - 1
    ensures 0 <= prev[order[p]] <= HEAD
    ensures next[prev[order[p]] := next[order[p]]][Without(order, p)[i]] == After(Without(order, p), i)
  {
    WithoutAt(order, p);
    hide Without;
    var k := if i < p then i else i + 1;
    assert next[order[k]] == After(order, k) && next[order[p]] == After(order, p) && prev[order[p]] == Before(order, p);
  }

  lemma UnlinkPrev(order: seq<int>, next: seq<int>, prev: seq<int>, p: nat, i: int)
    requires |next| == |prev| == NBUF + 1 && Buffers(order) && Linked(order, next, prev) && p < |order|
    requires 0 <= i < |order| - 1
    ensures 0 <= next[order[p]] <= HEAD
    ensures prev[next[order[p]] := prev[order[p]]][Without(order, p)[i]] == Before(Without(order, p), i)
  {
    WithoutAt(order, p);
    hide Without;
    var k := if i < p then i else i + 1;
    assert prev[order[k]] == Before(order, k) && next[order[p]] == After(order, p)
      && prev[order[p]] == Before(order, p);
  }

  lemma WithoutBuffers(order: seq<int>, p: nat)
    requires Buffers(order) && p < |order|
    ensures Buffers(Without(order, p)) && order[p] !in Without(order, p)
  {
    WithoutAt(order, p);
    hide Without;
    var o' := Without(order, p);
    forall i, j | 0 <= i < j < |o'| ensures o'[i] != o'[j] {
      assert order[if i < p then i else i + 1] != order[if j < p then j else j + 1];
    }
  }

  lemma UnlinkHead(order: seq<int>, next: seq<int>, prev: seq<int>, p: nat)
    requires |next| == |prev| == NBUF + 1 && Buffers(order) && Linked(order, next, prev) && p < |order|
    ensures var b := order[p];
      && next[b] == After(order, p) && prev[b] == Before(order, p) && next[b] != b
      && 0 <= next[b] <= HEAD && 0 <= prev[b] <= HEAD
      && next[prev[b] := next[b]][HEAD] == After(Without(order, p), -1)
      && prev[next[b] := prev[b]][HEAD] == Before(Without(order, p), |order| - 1)
  {
    WithoutAt(order, p);
    hide Without;
  }

  lemma Unlink(order: seq<int>, next: seq<int>, prev: seq<int>, p: nat)
    requires |next| == |prev| == NBUF + 1 && Buffers(order) && Linked(order, next, prev) && p < |order|
    ensures var b := order[p];
      && 0 <= next[b] <= HEAD && 0 <= prev[b] <= HEAD && next[b] != b
      && Linked(Without(order, p), next[prev[b] := next[b]], prev[next[b] := prev[b]])
  {
    hide Without; hide After; hide Before; hide Distinct;
    var b, o' := order[p], Without(order, p);
    UnlinkHead(order, next, prev, p);
    WithoutBuffers(order, p);
    var next', prev' := next[prev[b] := next[b]], prev[next[b] := prev[b]];
    forall i | 0 <= i < |o'| ensures next'[o'[i]] == After(o', i) && prev'[o'[i]] == Before(o', i) {
      UnlinkNext(order, next, prev, p, i);
      UnlinkPrev(order, next, prev, p, i);
    }
  }

  lemma PushFront(order: seq<int>, next: seq<int>, prev: seq<int>, b: int)
    requires |next| == |prev| == NBUF + 1 && Buffers(order) && Linked(order, next, prev) && 0 <= b < NBUF && b !in order
    ensures 0 <= next[HEAD] <= HEAD && next[HEAD] != b && Buffers([b] + order)
    ensures Linked([b] + order, next[b := next[HEAD]][HEAD := b], prev[b := HEAD][next[HEAD] := b])
  {
    var o' := [b] + order;
    var next', prev' := next[b := next[HEAD]][HEAD := b], prev[b := HEAD][next[HEAD] := b];
    forall i | 0 <= i < |o'| ensures next'[o'[i]] == After(o', i) && prev'[o'[i]] == Before(o', i) {
      if i > 0 {
        assert next[order[i - 1]] == After(order, i - 1) && prev[order[i - 1]] == Before(order, i - 1);
      }
    }
  }

  /** brelse's six assignments move position p to the front. */
  lemma MoveLinked(order: seq<int>, next: seq<int>, prev: seq<int>, p: nat)
    requires |next| == |prev| == NBUF + 1 && Buffers(order) && Linked(order, next, prev) && p < |order|
    ensures var b := order[p];
      && 0 <= b < NBUF && 0 <= next[b] <= HEAD && 0 <= prev[b] <= HEAD && next[b] != b
      && var prev1, next1 := prev[next[b] := prev[b]], next[prev[b] := next[b]];
      && 0 <= next1[HEAD] <= HEAD && next1[HEAD] != b
      && Buffers([b] + Without(order, p))
      && Linked([b] + Without(order, p), next1[b := next1[HEAD]][HEAD := b], prev1[b := HEAD][next1[HEAD] := b])
  {
    hide Distinct; hide After; hide Before; hide Without; hide Linked;
    Unlink(order, next, prev, p);
    WithoutBuffers(order, p);
    var b := order[p];
    PushFront(Without(order, p), next[prev[b] := next[b]], prev[next[b] := prev[b]], b);
  }

  /** Every buffer is on a full ring. */
  lemma OnRing(order: seq<int>, b: int)
    requires Buffers(order) && |order| == NBUF && 0 <= b < NBUF
    ensures b in order
  {
    if b !in order { MissingOne(order, NBUF, b); }
  }

  /** The ring is sorted by when its buffers were last moved to the front. */
  predicate Sorted(order: seq<int>, stamp: seq<int>, clock: int) {
    && |stamp| == NBUF && (forall i :: 0 <= i < |order| ==> 0 <= order[i] < NBUF && stamp[order[i]] < clock)
    && (forall i, j :: 0 <= i < j < |order| ==> stamp[order[i]] > stamp[order[j]])
  }

  lemma MoveSorted(order: seq<int>, stamp: seq<int>, clock: int, p: nat)
    requires Buffers(order) && Sorted(order, stamp, clock) && p < |order|
    ensures Sorted([order[p]] + Without(order, p), stamp[order[p] := clock], clock + 1)
  {
    WithoutAt(order, p);
    WithoutBuffers(order, p);
    hide Without;
    var o' := [order[p]] + Without(order, p);
    var stamp' := stamp[order[p] := clock];
    forall i, j | 0 <= i < j < |o'| ensures stamp'[o'[i]] > stamp'[o'[j]] {
      assert o'[j] == Without(order, p)[j - 1];
      if i > 0 { assert o'[i] == Without(order, p)[i - 1]; }
    }
  }

  /** At most one buffer per block. */
  predicate Unique(buf: seq<Buf>) {
    forall i, j :: 0 <= i < j < |buf| && buf[i].dev != 0 ==> !Holds(buf[j], buf[i].dev, buf[i].blockno)
  }

  lemma RecycleUnique(buf: seq<Buf>, r: int, b: Buf)
    requires Unique(buf) && 0 <= r < |buf| && !Cached(buf, b.dev, b.blockno)
    ensures Unique(buf[r := b])
  {
    var buf' := buf[r := b];
    forall i, j | 0 <= i < j < |buf'| && buf'[i].dev != 0 ensures !Holds(buf'[j], buf'[i].dev, buf'[i].blockno) {
      if i == r { assert !Holds(buf[j], b.dev, b.blockno); }
      if j == r { assert !Holds(buf[i], b.dev, b.blockno); }
    }
  }

  class BCache {
    var buf: seq<Buf>
    var next: seq<int>
    var prev: seq<int>
    var disk: Disk
    ghost var trace: seq<Write> // every block write the disk has received
    ghost var order: seq<int>
    ghost var stamp: seq<int>
    ghost var clock: int
    ghost var held: seq<int>
    ghost var pins: seq<int>

    ghost predicate Ring()
      reads this`order, this`next, this`prev, this`stamp, this`clock
    {
      && |order| == NBUF && |next| == |prev| == NBUF + 1
      && Buffers(order) && Linked(order, next, prev) && Sorted(order, stamp, clock)
    }

    ghost predicate Counts()
      reads this`buf, this`held, this`pins
    {
      && |buf| == NBUF && |held| == NBUF && |pins| == NBUF
      && (forall i :: 0 <= i < NBUF ==> held[i] >= 0 && pins[i] >= 0 && buf[i].refcnt == held[i] + pins[i])
    }

    ghost predicate Valid()
      reads this`order, this`next, this`prev, this`stamp, this`clock, this`buf, this`held, this`pins
    {
      Ring() && Counts() && Unique(buf)
    }

    /** The cache over zeroed memory, linked by binit. */
    constructor (d: Disk)
      ensures Valid() && disk == d && trace == []
      ensures forall i :: 0 <= i < NBUF ==> buf[i] == Buf(false, 0, 0, 0, [])
    {
      buf := seq(NBUF, i => Buf(false, 0, 0, 0, []));
      held, pins, stamp := seq(NBUF, i => 0), seq(NBUF, i => 0), seq(NBUF, i => i);
      clock := NBUF;
      disk, trace := d, [];
      next, prev := seq(NBUF + 1, i => HEAD), seq(NBUF + 1, i => HEAD);
      order := [];
      new;
      Binit();
    }

    /** binit: the buffers go on the list one by one, each in front. */
    method Binit()
      requires |next| == |prev| == NBUF + 1
      modifies this`next, this`prev, this`order
      ensures |next| == |prev| == NBUF + 1 && |order| == NBUF && Buffers(order) && Linked(order, next, prev)
      ensures forall i :: 0 <= i < NBUF ==> order[i] == NBUF - 1 - i
    {
      prev := prev[HEAD := HEAD];
      next := next[HEAD := HEAD];
      order := [];
      var b := 0;
      while b < NBUF
        invariant |next| == |prev| == NBUF + 1
        invariant 0 <= b <= NBUF && |order| == b && Buffers(order) && Linked(order, next, prev)
        invariant forall i :: 0 <= i < b ==> order[i] == b - 1 - i
      {
        PushFront(order, next, prev, b);
        next := next[b := next[HEAD]];
        prev := prev[b := HEAD];
        prev := prev[next[HEAD] := b];
        next := next[HEAD := b];
        order := [b] + order;
        b := b + 1;
      }
    }

    /** The first loop of bget. */
    method FindCached(dev: int, blockno: int) returns (b: int)
      requires Valid()
      ensures 0 <= b <= NBUF
      ensures b < NBUF ==> Holds(buf[b], dev, blockno)
      ensures b == HEAD <==> !Cached(buf, dev, blockno)
    {
      ghost var p := 0;
      b := next[HEAD];
      while b != HEAD
        invariant 0 <= p <= NBUF && b == (if p < NBUF then order[p] else HEAD)
        invariant forall i :: 0 <= i < p ==> !Holds(buf[order[i]], dev, blockno)
        decreases NBUF - p
      {
        if Holds(buf[b], dev, blockno) { return; }
        assert next[order[p]] == After(order, p);
        b := next[b];
        p := p + 1;
      }
      forall i | 0 <= i < NBUF ensures !Holds(buf[i], dev, blockno) { OnRing(order, i); }
    }

    /** The second loop of bget: the unused buffer moved to the front longest ago. */
    method FindUnused() returns (b: int)
      requires Valid()
      ensures 0 <= b <= NBUF
      ensures b < NBUF ==> buf[b].refcnt == 0
      ensures b < NBUF ==> forall i :: 0 <= i < NBUF && buf[i].refcnt == 0 ==> stamp[b] <= stamp[i]
      ensures b == HEAD <==> !Unused(buf)
    {
      b := prev[HEAD];
      ghost var p := NBUF - 1;
      while b != HEAD
        invariant -1 <= p < NBUF && b == (if p >= 0 then order[p] else HEAD)
        invariant forall i :: p < i < NBUF ==> buf[order[i]].refcnt != 0
        decreases p
      {
        if buf[b].refcnt == 0 {
          forall i | 0 <= i < NBUF && buf[i].refcnt == 0 ensures stamp[b] <= stamp[i] { OnRing(order, i); }
          return;
        }
        assert prev[order[p]] == Before(order, p);
        b := prev[b];
        p := p - 1;
      }
      forall i | 0 <= i < NBUF ensures buf[i].refcnt != 0 { OnRing(order, i); }
    }

    /** bget: the cached buffer, or the least recently released unused one; -1 is the panic
        "no buffers". */
    method Bget(dev: int, blockno: int) returns (r: int)
      requires Valid() && dev != 0
      modifies this`buf, this`held
      ensures Valid()
      ensures r == -1 || 0 <= r < NBUF
      ensures r == -1 <==> !Cached(old(buf), dev, blockno) && !Unused(old(buf))
      ensures r == -1 ==> buf == old(buf) && held == old(held)
      ensures r != -1 ==> held == old(held)[r := old(held)[r] + 1]
      ensures Cached(old(buf), dev, blockno) ==>
        Holds(old(buf)[r], dev, blockno) && buf == old(buf)[r := old(buf)[r].(refcnt := old(buf)[r].refcnt + 1)]
      ensures r != -1 && !Cached(old(buf), dev, blockno) ==>
        && old(buf)[r].refcnt == 0
        && (forall i :: 0 <= i < NBUF && old(buf)[i].refcnt == 0 ==> stamp[r] <= stamp[i])
        && buf == old(buf)[r := Buf(false, dev, blockno, 1, old(buf)[r].data)]
    {
      hide Linked; hide Sorted; hide Buffers;
      var b := FindCached(dev, blockno);
      if b != HEAD {
        buf := buf[b := buf[b].(refcnt := buf[b].refcnt + 1)];
        held := held[b := held[b] + 1];
        return b;
      }
      b := FindUnused();
      if b == HEAD { return -1; }
      RecycleUnique(buf, b, Buf(false, dev, blockno, 1, buf[b].data));
      buf := buf[b := Buf(false, dev, blockno, 1, buf[b].data)];
      held := held[b := held[b] + 1];
      return b;
    }

    /** bread: a buffer with the block's contents. */
    method Bread(blockno: int) returns (r: int)
      requires Valid() && 0 <= blockno < |disk|
      modifies this`buf, this`held
      ensures Valid()
      ensures r == -1 || 0 <= r < NBUF
      ensures r == -1 <==> !Cached(old(buf), DEV, blockno) && !Unused(old(buf))
      ensures r == -1 ==> buf == old(buf) && held == old(held)
      ensures r != -1 ==> held == old(held)[r := old(held)[r] + 1]
      ensures Cached(old(buf), DEV, blockno) ==>
        && Holds(old(buf)[r], DEV, blockno)
        && buf == old(buf)[r := Buf(true, DEV, blockno, old(buf)[r].refcnt + 1,
                                    if old(buf)[r].valid then old(buf)[r].data else disk[blockno])]
      ensures r != -1 && !Cached(old(buf), DEV, blockno) ==>
        old(buf)[r].refcnt == 0 && buf == old(buf)[r := Buf(true, DEV, blockno, 1, disk[blockno])]
    {
      hide Linked; hide Sorted; hide Buffers;
      r := Bget(DEV, blockno);
      if r != -1 && !buf[r].valid {
        buf := buf[r := buf[r].(data := disk[blockno])];
        buf := buf[r := buf[r].(valid := true)];
      }
    }

    /** memmove into a buffer the caller holds. */
    method Fill(b: int, v: Block)
      requires Valid() && 0 <= b < NBUF && held[b] >= 1
      modifies this`buf
      ensures Valid()
      ensures buf == old(buf)[b := old(buf)[b].(data := v)]
    {
      buf := buf[b := buf[b].(data := v)];
    }

    /** bwrite: the buffer's contents to its block. */
    method Bwrite(b: int)
      requires Valid() && 0 <= b < NBUF && held[b] >= 1 && 0 <= buf[b].blockno < |disk|
      modifies this`disk, this`trace
      ensures Valid()
      ensures disk == old(disk)[buf[b].blockno := buf[b].data]
      ensures trace == old(trace) + [Write(buf[b].blockno, buf[b].data)]
    {
      trace := trace + [Write(buf[b].blockno, buf[b].data)];
      disk := disk[buf[b].blockno := buf[b].data];
    }

    /** The relinking of brelse. */
    method MoveToFront(b: int)
      requires Ring() && 0 <= b < NBUF
      modifies this`next, this`prev, this`order, this`stamp, this`clock
      ensures Ring()
      ensures var p := IndexOf(old(order), b); p < NBUF && order == [b] + Without(old(order), p)
      ensures stamp == old(stamp)[b := old(clock)]
    {
      hide Linked; hide Distinct; hide Without; hide IndexOf;
      OnRing(order, b);
      ghost var p := IndexOf(order, b);
      MoveLinked(order, next, prev, p);
      MoveSorted(order, stamp, clock, p);
      WithoutBuffers(order, p);
      prev := prev[next[b] := prev[b]];
      next := next[prev[b] := next[b]];
      next := next[b := next[HEAD]];
      prev := prev[b := HEAD];
      prev := prev[next[HEAD] := b];
      next := next[HEAD := b];
      order := [b] + Without(order, p);
      stamp := stamp[b := clock];
      clock := clock + 1;
    }

    /** brelse: one reference less; the last one moves the buffer to the front. */
    method Brelse(b: int)
      requires Valid() && 0 <= b < NBUF && held[b] >= 1
      modifies this`buf, this`held, this`next, this`prev, this`order, this`stamp, this`clock
      ensures Valid()
      ensures buf == old(buf)[b := old(buf)[b].(refcnt := old(buf)[b].refcnt - 1)]
      ensures held == old(held)[b := old(held)[b] - 1]
      ensures old(buf)[b].refcnt == 1 ==>
        && stamp == old(stamp)[b := old(clock)]
        && var p := IndexOf(old(order), b); p < NBUF && order == [b] + Without(old(order), p)
      ensures old(buf)[b].refcnt != 1 ==> order == old(order) && stamp == old(stamp)
    {
      buf := buf[b := buf[b].(refcnt := buf[b].refcnt - 1)];
      held := held[b := held[b] - 1];
      if buf[b].refcnt == 0 { MoveToFront(b); }
    }

    method Bpin(b: int)
      requires Valid() && 0 <= b < NBUF
      modifies this`buf, this`pins
      ensures Valid()
      ensures buf == old(buf)[b := old(buf)[b].(refcnt := old(buf)[b].refcnt + 1)]
      ensures pins == old(pins)[b := old(pins)[b] + 1]
    {
      buf := buf[b := buf[b].(refcnt := buf[b].refcnt + 1)];
      pins := pins[b := pins[b] + 1];
    }

    method Bunpin(b: int)
      requires Valid() && 0 <= b < NBUF && pins[b] >= 1
      modifies this`buf, this`pins
      ensures Valid()
      ensures buf == old(buf)[b := old(buf)[b].(refcnt := old(buf)[b].refcnt - 1)]
      ensures pins == old(pins)[b := old(pins)[b] - 1]
    {
      buf := buf[b := buf[b].(refcnt := buf[b].refcnt - 1)];
      pins := pins[b := pins[b] - 1];
    }
  }
}
