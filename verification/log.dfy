/** The log over the buffer cache (kernel/log.c): which buffers are pinned, what commit() and
    recovery write and in which order, and when commit() runs out of buffers.

    One process at a time works here, as commit() does once no operation is outstanding. */
module Log {
  import opened RedoLog
  import opened Sets
  import opened BufferCache

  // ---------------------------------------------------------------- cache and log in agreement

  ghost predicate AllCached(buf: seq<Buf>, logged: seq<int>) {
    forall k :: 0 <= k < |logged| ==> Cached(buf, DEV, logged[k])
  }

  /** The buffer of each logged block has one pin, and no other buffer any. */
  ghost predicate Pinned(buf: seq<Buf>, pins: seq<int>, logged: seq<int>) {
    && |pins| == |buf|
    && (forall i :: 0 <= i < |buf| ==> pins[i] == if buf[i].dev == DEV && buf[i].blockno in logged then 1 else 0)
  }

  /** A buffer that is neither logged nor in use shows what the disk holds. */
  ghost predicate Clean(buf: seq<Buf>, held: seq<int>, disk: Disk, logged: seq<int>) {
    && |held| == |buf|
    && (forall i :: 0 <= i < |buf| ==> (buf[i].valid <==> buf[i].dev == DEV))
    && (forall i :: 0 <= i < |buf| && buf[i].valid ==> 0 <= buf[i].blockno < |disk|)
    && (forall i :: 0 <= i < |buf| && buf[i].valid && buf[i].blockno !in logged && held[i] == 0 ==>
          buf[i].data == disk[buf[i].blockno])
  }

  ghost predicate Idle(held: seq<int>) {
    forall i :: 0 <= i < |held| ==> held[i] == 0
  }

  /** What the cache shows for a cached block. */
  function Shown(buf: seq<Buf>, blk: int): (v: Block)
    requires Cached(buf, DEV, blk)
    decreases |buf|
  {
    if Holds(buf[0], DEV, blk) then buf[0].data else Shown(buf[1..], blk)
  }

  lemma {:induction false} ShownAt(buf: seq<Buf>, blk: int, i: int)
    requires Unique(buf) && 0 <= i < |buf| && Holds(buf[i], DEV, blk)
    ensures Cached(buf, DEV, blk) && Shown(buf, blk) == buf[i].data
  {
    if i > 0 {
      assert !Holds(buf[0], DEV, blk);
      ShownAt(buf[1..], blk, i - 1);
    }
  }

  ghost function ShownAll(buf: seq<Buf>, logged: seq<int>): (vals: seq<Block>)
    requires AllCached(buf, logged)
    ensures |vals| == |logged|
  {
    seq(|logged|, k requires 0 <= k < |logged| => Shown(buf, logged[k]))
  }

  /** A buffer is free to recycle exactly when fewer than NBUF blocks are logged. */
  lemma FreeBufferIff(buf: seq<Buf>, pins: seq<int>, logged: seq<int>)
    requires |buf| == NBUF && Unique(buf) && Distinct(logged) && AllCached(buf, logged) && Pinned(buf, pins, logged)
    ensures (exists i :: 0 <= i < NBUF && pins[i] == 0) <==> |logged| < NBUF
  {
    var nos := seq(NBUF, i requires 0 <= i < NBUF => buf[i].blockno);
    ElementsSize(logged);
    if forall i :: 0 <= i < NBUF ==> pins[i] != 0 {
      forall i, j | 0 <= i < j < NBUF ensures nos[i] != nos[j] {
        assert !Holds(buf[j], buf[i].dev, buf[i].blockno);
      }
      ElementsSize(nos);
      SubsetSize(Elements(nos), Elements(logged));
    } else {
      var i :| 0 <= i < NBUF && pins[i] == 0;
      var others := nos[..i] + nos[i + 1..];
      forall k | 0 <= k < |logged| ensures logged[k] in others {
        var j :| 0 <= j < NBUF && Holds(buf[j], DEV, logged[k]);
        assert j != i;
        assert others[if j < i then j else j - 1] == nos[j];
      }
      SubsetSize(Elements(logged), Elements(others));
      ElementsAtMost(others);
    }
  }

  lemma {:induction false} ElementsAtMost(s: seq<int>)
    ensures |Elements(s)| <= |s|
  {
    if s != [] {
      var t := s[..|s| - 1];
      ElementsAtMost(t);
      assert Elements(s) == Elements(t) + {s[|s| - 1]};
    }
  }

  /** Cache and log agree while operations may hold buffers. */
  ghost predicate Agrees(buf: seq<Buf>, held: seq<int>, pins: seq<int>, disk: Disk, logged: seq<int>) {
    AllCached(buf, logged) && Pinned(buf, pins, logged) && Clean(buf, held, disk, logged)
  }

  /** Pinning the buffer of a block newly logged. */
  lemma NewlyLogged(buf: seq<Buf>, held: seq<int>, pins: seq<int>, disk: Disk, logged: seq<int>, b: int)
    requires Agrees(buf, held, pins, disk, logged) && Unique(buf) && 0 <= b < |buf| && buf[b].valid
    requires buf[b].blockno !in logged
    ensures Agrees(buf[b := buf[b].(refcnt := buf[b].refcnt + 1)], held, pins[b := pins[b] + 1], disk,
                   logged + [buf[b].blockno])
  {
    var buf', blk := buf[b := buf[b].(refcnt := buf[b].refcnt + 1)], buf[b].blockno;
    var logged' := logged + [blk];
    forall k | 0 <= k < |logged'| ensures Cached(buf', DEV, logged'[k]) {
      if k < |logged| {
        var j :| 0 <= j < |buf| && Holds(buf[j], DEV, logged[k]);
        assert Holds(buf'[j], DEV, logged'[k]);
      } else {
        assert Holds(buf'[b], DEV, logged'[k]);
      }
    }
    forall i | 0 <= i < |buf'|
      ensures pins[b := pins[b] + 1][i] == if buf'[i].dev == DEV && buf'[i].blockno in logged' then 1 else 0
    {
      if i != b { assert !Holds(buf[i], DEV, blk); }
    }
  }

  lemma ListableMore(g: Geometry, len: nat, logged: seq<int>, blk: int)
    requires Listable(g, len, logged) && IsHome(g, len, blk) && blk !in logged && |logged| < LOGSIZE
    requires |logged| < g.size - 1
    ensures Listable(g, len, logged + [blk])
  {
  }

  /** Between two points the disk received exactly the writes `ws`, in that order. */
  ghost predicate Wrote(tr0: seq<Write>, d0: Disk, tr: seq<Write>, d: Disk, ws: seq<Write>) {
    tr == tr0 + ws && InBounds(|d0|, ws) && d == Apply(d0, ws)
  }

  lemma WroteNothing(tr: seq<Write>, d: Disk, ws: seq<Write>)
    ensures Wrote(tr, d, tr, d, ws[..0])
  {
  }

  lemma WroteNext(tr0: seq<Write>, d0: Disk, tr: seq<Write>, d: Disk, ws: seq<Write>, t: nat)
    requires t < |ws| && InBounds(|d0|, ws) && Wrote(tr0, d0, tr, d, ws[..t])
    ensures 0 <= ws[t].b < |d| && Wrote(tr0, d0, tr + [ws[t]], d[ws[t].b := ws[t].v], ws[..t + 1])
  {
    ApplyStep(d0, ws, t);
    assert tr0 + ws[..t] + [ws[t]] == tr0 + ws[..t + 1];
  }

  lemma WroteAll(tr0: seq<Write>, d0: Disk, tr: seq<Write>, d: Disk, ws: seq<Write>)
    requires Wrote(tr0, d0, tr, d, ws[..|ws|])
    ensures Wrote(tr0, d0, tr, d, ws)
  {
    assert ws[..|ws|] == ws;
  }

  lemma WroteThen(tr0: seq<Write>, d0: Disk, tr1: seq<Write>, d1: Disk, tr: seq<Write>, d: Disk, a: seq<Write>,
                  b: seq<Write>)
    requires Wrote(tr0, d0, tr1, d1, a) && Wrote(tr1, d1, tr, d, b)
    ensures Wrote(tr0, d0, tr, d, a + b)
  {
    ApplyConcat(d0, a, b);
    assert tr0 + a + b == tr0 + (a + b);
  }

  /** The log and its disk between operations. */
  ghost predicate Quiet(buf: seq<Buf>, held: seq<int>, pins: seq<int>, disk: Disk, logged: seq<int>) {
    |held| == |buf| && Idle(held) && Agrees(buf, held, pins, disk, logged)
  }

  /** A buffer nobody uses, which shows what the disk holds. */
  predicate Resting(b: Buf, held: int, pins: int, disk: Disk) {
    && held == 0 && pins == 0 && (b.valid <==> b.dev == DEV)
    && (b.valid ==> 0 <= b.blockno < |disk| && b.data == disk[b.blockno])
  }

  lemma AllResting(buf: seq<Buf>, held: seq<int>, pins: seq<int>, disk: Disk)
    requires Quiet(buf, held, pins, disk, [])
    ensures |held| == |pins| == |buf|
    ensures forall i :: 0 <= i < |buf| ==> Resting(buf[i], held[i], pins[i], disk)
  {
  }

  lemma SomeUnused(buf: seq<Buf>)
    requires |buf| > 0 && buf[0].refcnt == 0
    ensures Unused(buf)
  {
  }

  /** An unpinned buffer taken for block `blk`, which is written through, keeps the agreement
      and what is shown for the logged blocks. */
  lemma WriteThrough(buf: seq<Buf>, held: seq<int>, pins: seq<int>, disk: Disk, logged: seq<int>, r: int, blk: int,
                     v: Block)
    requires Quiet(buf, held, pins, disk, logged) && Unique(buf) && 0 <= blk < |disk| && blk !in logged
    requires 0 <= r < |buf| && pins[r] == 0 && (Holds(buf[r], DEV, blk) || !Cached(buf, DEV, blk))
    ensures var buf' := buf[r := Buf(true, DEV, blk, 0, v)];
      && Quiet(buf', held, pins, disk[blk := v], logged)
      && ShownAll(buf', logged) == ShownAll(buf, logged)
  {
    var buf' := buf[r := Buf(true, DEV, blk, 0, v)];
    forall k | 0 <= k < |logged|
      ensures Cached(buf', DEV, logged[k]) && Shown(buf', logged[k]) == Shown(buf, logged[k])
    {
      var j :| 0 <= j < |buf| && Holds(buf[j], DEV, logged[k]);
      assert Holds(buf'[j], DEV, logged[k]);
      ShownAt(buf, logged[k], j);
      TakenUnique(buf, r, blk, v);
      ShownAt(buf', logged[k], j);
    }
    forall i | 0 <= i < |buf'| && buf'[i].valid && buf'[i].blockno !in logged
      ensures buf'[i].data == disk[blk := v][buf'[i].blockno]
    {
      if i != r { assert !Holds(buf[i], DEV, blk); }
    }
  }

  lemma TakenUnique(buf: seq<Buf>, r: int, blk: int, v: Block)
    requires Unique(buf) && 0 <= r < |buf| && (Holds(buf[r], DEV, blk) || !Cached(buf, DEV, blk))
    ensures Unique(buf[r := Buf(true, DEV, blk, 0, v)])
  {
    if Holds(buf[r], DEV, blk) {
      assert Unique(buf[r := Buf(true, DEV, blk, 0, v)]);
    } else {
      RecycleUnique(buf, r, Buf(true, DEV, blk, 0, v));
    }
  }

  /** bread of a block that is not logged shows the disk, in a buffer nobody uses. */
  lemma ReadsDisk(buf: seq<Buf>, held: seq<int>, pins: seq<int>, disk: Disk, logged: seq<int>, blk: int, r: int)
    requires Quiet(buf, held, pins, disk, logged) && 0 <= blk < |disk| && blk !in logged && 0 <= r < |buf|
    requires forall i :: 0 <= i < |buf| ==> buf[i].refcnt == held[i] + pins[i]
    requires if Cached(buf, DEV, blk) then Holds(buf[r], DEV, blk) else buf[r].refcnt == 0
    requires |held| == |pins| == |buf| && pins[r] >= 0
    ensures buf[r].refcnt == 0 && pins[r] == 0
    ensures Cached(buf, DEV, blk) ==> buf[r].valid && buf[r].data == disk[blk]
  {
  }

  /** bread of a log block finds a buffer exactly when fewer than NBUF blocks are logged. */
  lemma BufferForLog(buf: seq<Buf>, held: seq<int>, pins: seq<int>, disk: Disk, logged: seq<int>, lb: int)
    requires |buf| == NBUF && Unique(buf) && Distinct(logged) && Quiet(buf, held, pins, disk, logged) && lb !in logged
    requires forall i :: 0 <= i < NBUF ==> buf[i].refcnt == held[i] + pins[i]
    ensures Cached(buf, DEV, lb) || Unused(buf) <==> |logged| < NBUF
  {
    FreeBufferIff(buf, pins, logged);
    if Cached(buf, DEV, lb) {
      var i :| 0 <= i < |buf| && Holds(buf[i], DEV, lb);
      assert pins[i] == 0;
    }
  }

  /** One round of write_log keeps cache and log in agreement and logs what the cache shows. */
  lemma LogRound(buf: seq<Buf>, held: seq<int>, pins: seq<int>, disk: Disk, logged: seq<int>, t: nat, l: int, h: int,
                 lb: int)
    requires Quiet(buf, held, pins, disk, logged) && Unique(buf) && t < |logged| && 0 <= lb < |disk| && lb !in logged
    requires 0 <= h < |buf| && Holds(buf[h], DEV, logged[t])
    requires 0 <= l < |buf| && pins[l] == 0 && (Holds(buf[l], DEV, lb) || !Cached(buf, DEV, lb))
    ensures var v := buf[h].data; var buf' := buf[l := Buf(true, DEV, lb, 0, v)];
      && Quiet(buf', held, pins, disk[lb := v], logged)
      && ShownAll(buf', logged) == ShownAll(buf, logged) && v == ShownAll(buf, logged)[t]
  {
    WriteThrough(buf, held, pins, disk, logged, l, lb, buf[h].data);
    ShownAt(buf, logged[t], h);
  }

  /** Installing: the pinned buffer of `blk` and the disk take `v`, and the pin goes. */
  lemma InstallThrough(buf: seq<Buf>, held: seq<int>, pins: seq<int>, disk: Disk, logged: seq<int>, d: int, v: Block)
    requires logged != [] && Distinct(logged) && Quiet(buf, held, pins, disk, logged) && Unique(buf)
    requires 0 <= d < |buf| && Holds(buf[d], DEV, logged[0])
    ensures 0 <= logged[0] < |disk|
    ensures var buf' := buf[d := Buf(true, DEV, logged[0], 0, v)];
      Unique(buf') && Quiet(buf', held, pins[d := 0], disk[logged[0] := v], logged[1..])
  {
    var blk, rest := logged[0], logged[1..];
    var buf', pins' := buf[d := Buf(true, DEV, blk, 0, v)], pins[d := 0];
    forall k | 0 <= k < |rest| ensures Cached(buf', DEV, rest[k]) {
      assert rest[k] == logged[k + 1];
      var j :| 0 <= j < |buf| && Holds(buf[j], DEV, logged[k + 1]);
      assert Holds(buf'[j], DEV, rest[k]);
    }
    forall i | 0 <= i < |buf'| ensures pins'[i] == if buf'[i].dev == DEV && buf'[i].blockno in rest then 1 else 0 {
      if i != d { assert !Holds(buf[i], DEV, blk); }
    }
  }

  /** bread of any block finds a buffer while fewer than NBUF blocks are logged. */
  lemma BufferForUpdate(buf: seq<Buf>, held: seq<int>, pins: seq<int>, disk: Disk, logged: seq<int>, blk: int)
    requires |buf| == NBUF && Unique(buf) && Distinct(logged) && Quiet(buf, held, pins, disk, logged)
    requires forall i :: 0 <= i < NBUF ==> buf[i].refcnt == held[i] + pins[i]
    ensures |logged| < NBUF ==> Cached(buf, DEV, blk) || Unused(buf)
  {
    FreeBufferIff(buf, pins, logged);
  }

  /** A buffer read and changed, before it is logged. */
  lemma Changed(buf: seq<Buf>, held: seq<int>, pins: seq<int>, disk: Disk, logged: seq<int>, blk: int, b: int, v: Block)
    requires Quiet(buf, held, pins, disk, logged) && Unique(buf) && 0 <= b < |buf| && 0 <= blk < |disk|
    requires forall i :: 0 <= i < |buf| ==> buf[i].refcnt == held[i] + pins[i]
    requires if Cached(buf, DEV, blk) then Holds(buf[b], DEV, blk) else buf[b].refcnt == 0
    ensures Agrees(buf[b := Buf(true, DEV, blk, buf[b].refcnt + 1, v)], held[b := held[b] + 1], pins, disk, logged)
    ensures forall x :: x in logged && x != blk ==> !Holds(buf[b], DEV, x)
  {
    var buf' := buf[b := Buf(true, DEV, blk, buf[b].refcnt + 1, v)];
    forall k | 0 <= k < |logged| ensures Cached(buf', DEV, logged[k]) {
      var j :| 0 <= j < |buf| && Holds(buf[j], DEV, logged[k]);
      assert pins[j] == 1;
      assert j == b ==> Holds(buf[b], DEV, blk);
      assert Holds(buf'[j], DEV, logged[k]);
    }
    assert blk in logged ==> Cached(buf, DEV, blk);
  }

  /** Releasing the last user of a logged buffer leaves cache and log quiet. */
  lemma Released(buf: seq<Buf>, held: seq<int>, pins: seq<int>, disk: Disk, logged: seq<int>, b: int)
    requires Agrees(buf, held, pins, disk, logged) && 0 <= b < |buf| && held[b] == 1
    requires forall i :: 0 <= i < |buf| && i != b ==> held[i] == 0
    requires buf[b].blockno in logged
    ensures Quiet(buf[b := buf[b].(refcnt := buf[b].refcnt - 1)], held[b := 0], pins, disk, logged)
  {
    var buf' := buf[b := buf[b].(refcnt := buf[b].refcnt - 1)];
    forall k | 0 <= k < |logged| ensures Cached(buf', DEV, logged[k]) {
      var j :| 0 <= j < |buf| && Holds(buf[j], DEV, logged[k]);
      assert Holds(buf'[j], DEV, logged[k]);
    }
  }

  /** What the cache shows after one block was changed to v: v there, the same elsewhere. */
  ghost predicate ShowsUpdate(buf: seq<Buf>, buf': seq<Buf>, logged': seq<int>, blk: int, v: Block) {
    forall k :: 0 <= k < |logged'| ==>
      && Cached(buf', DEV, logged'[k])
      && (logged'[k] == blk ==> Shown(buf', logged'[k]) == v)
      && (logged'[k] != blk ==> Cached(buf, DEV, logged'[k]) && Shown(buf', logged'[k]) == Shown(buf, logged'[k]))
  }

  lemma ShownAfter(buf: seq<Buf>, buf': seq<Buf>, b: int, blk: int, v: Block, logged: seq<int>, logged': seq<int>)
    requires Unique(buf) && Unique(buf') && |buf'| == |buf| && 0 <= b < |buf| && AllCached(buf, logged)
    requires Holds(buf'[b], DEV, blk) && buf'[b].data == v
    requires forall i :: 0 <= i < |buf| && i != b ==> buf'[i] == buf[i]
    requires forall x :: x in logged && x != blk ==> !Holds(buf[b], DEV, x)
    requires forall x :: x in logged' ==> x == blk || x in logged
    ensures ShowsUpdate(buf, buf', logged', blk, v)
  {
    forall k | 0 <= k < |logged'|
      ensures Cached(buf', DEV, logged'[k])
      ensures logged'[k] == blk ==> Shown(buf', logged'[k]) == v
      ensures logged'[k] != blk ==> Cached(buf, DEV, logged'[k]) && Shown(buf', logged'[k]) == Shown(buf, logged'[k])
    {
      var x := logged'[k];
      if x == blk {
        ShownAt(buf', x, b);
      } else {
        assert x in logged && Cached(buf, DEV, x);
        var j :| 0 <= j < |buf| && Holds(buf[j], DEV, x);
        ShownAt(buf, x, j);
        ShownAt(buf', x, j);
      }
    }
  }

  /** The disk after write_log. */
  lemma LoggedDisk(g: Geometry, d0: Disk, blocks: seq<int>, vals: seq<Block>, tr0: seq<Write>, tr1: seq<Write>,
                   d1: Disk)
    requires ValidDisk(g, d0) && Listed(g, d0) == [] && Listable(g, |d0|, blocks) && |vals| == |blocks|
    requires Wrote(tr0, d0, tr1, d1, LogWrites(g, vals))
    ensures Filled(g, d0, vals, |vals|, d1) && ValidDisk(g, d1) && d1[g.start] == d0[g.start] && |d1| == |d0|
  {
    CommitInterim(g, d0, vals, |vals|);
    assert LogWrites(g, vals)[..|vals|] == LogWrites(g, vals);
    FilledSame(g, d0, vals, |vals|, d1);
  }

  /** The disk after the header write. */
  lemma SealedLogged(g: Geometry, d0: Disk, blocks: seq<int>, vals: seq<Block>, tr0: seq<Write>,
                     tr1: seq<Write>, d1: Disk, tr2: seq<Write>, d2: Disk)
    requires ValidDisk(g, d0) && Listed(g, d0) == [] && Listable(g, |d0|, blocks) && |vals| == |blocks|
    requires Wrote(tr0, d0, tr1, d1, LogWrites(g, vals)) && Filled(g, d0, vals, |vals|, d1)
    requires var w := HeadWrite(g, d0[g.start], blocks); d2 == d1[g.start := w.v] && tr2 == tr1 + [w]
    ensures ValidDisk(g, d2) && Listed(g, d2) == blocks && d2[g.start] == PutHeader(d0[g.start], blocks) && |d2| == |d0|
    ensures forall i :: 0 <= i < |vals| ==> d2[g.start + 1 + i] == vals[i]
    ensures Wrote(tr0, d0, tr2, d2, LogWrites(g, vals) + [HeadWrite(g, d0[g.start], blocks)])
  {
    SealedHeader(g, d0, blocks, vals, d1, d2);
    var w := HeadWrite(g, d0[g.start], blocks);
    WroteOne(tr1, d1, w);
    WroteThen(tr0, d0, tr1, d1, tr2, d2, LogWrites(g, vals), [w]);
  }

  lemma WroteOne(tr: seq<Write>, d: Disk, w: Write)
    requires 0 <= w.b < |d|
    ensures Wrote(tr, d, tr + [w], d[w.b := w.v], [w])
  {
    assert [w][..0] == [];
  }

  /** The disk after the header is cleared again. */
  lemma Cleared(g: Geometry, d0: Disk, blocks: seq<int>, vals: seq<Block>, tr0: seq<Write>,
                d3: Disk, tr3: seq<Write>, d4: Disk, tr4: seq<Write>)
    requires ValidDisk(g, d0) && Listed(g, d0) == [] && Listable(g, |d0|, blocks) && |vals| == |blocks|
    requires Wrote(tr0, d0, tr3, d3,
                   LogWrites(g, vals) + [HeadWrite(g, d0[g.start], blocks)] + InstallWrites(blocks, vals))
    requires |d3| == |d0| && d3[g.start] == PutHeader(d0[g.start], blocks)
    requires var w := HeadWrite(g, d3[g.start], []); d4 == d3[g.start := w.v] && tr4 == tr3 + [w]
    ensures Wrote(tr0, d0, tr4, d4, CommitWrites(g, d0[g.start], blocks, vals))
    ensures ValidDisk(g, d4) && Listed(g, d4) == [] && |d4| == |d0|
  {
    var w := HeadWrite(g, d3[g.start], []);
    WroteOne(tr3, d3, w);
    WroteThen(tr0, d0, tr3, d3, tr4, d4,
              LogWrites(g, vals) + [HeadWrite(g, d0[g.start], blocks)] + InstallWrites(blocks, vals), [w]);
    assert HeaderBlocks(d4[g.start]) == [];
  }

  /** The disk after a recovery. */
  lemma RecoveredDisk(g: Geometry, d: Disk, tr: seq<Write>, d3: Disk, tr3: seq<Write>, d4: Disk, tr4: seq<Write>)
    requires ValidDisk(g, d) && Wrote(tr, d, tr3, d3, InstallWrites(Listed(g, d), LoggedCopies(g, d)))
    requires |d3| == |d| && d3[g.start] == d[g.start]
    requires var w := HeadWrite(g, d3[g.start], []); d4 == d3[g.start := w.v] && tr4 == tr3 + [w]
    ensures Wrote(tr, d, tr4, d4, RecoverWrites(g, d))
    ensures ValidDisk(g, d4) && Listed(g, d4) == []
  {
    var w := HeadWrite(g, d3[g.start], []);
    WroteOne(tr3, d3, w);
    WroteThen(tr, d, tr3, d3, tr4, d4, InstallWrites(Listed(g, d), LoggedCopies(g, d)), [w]);
    assert HeaderBlocks(d4[g.start]) == [];
  }

  /** One round of install_trans: entry 0 of what is left goes home and loses its pin. */
  lemma InstallRound(buf: seq<Buf>, held: seq<int>, pins: seq<int>, disk: Disk, left: seq<int>, l: int, h: int, lb: int)
    requires left != [] && Distinct(left) && Quiet(buf, held, pins, disk, left) && Unique(buf)
    requires 0 <= lb < |disk| && lb !in left
    requires 0 <= l < |buf| && pins[l] == 0 && (Holds(buf[l], DEV, lb) || !Cached(buf, DEV, lb))
    requires 0 <= h < |buf| && l != h && Holds(buf[h], DEV, left[0])
    ensures 0 <= left[0] < |disk|
    ensures var v := disk[lb];
      Quiet(buf[l := Buf(true, DEV, lb, 0, v)][h := Buf(true, DEV, left[0], 0, v)], held, pins[h := 0],
            disk[left[0] := v], left[1..])
  {
    hide ShownAll; hide Quiet; hide Unique;
    var v := disk[lb];
    WriteThrough(buf, held, pins, disk, left, l, lb, v);
    TakenUnique(buf, l, lb, v);
    assert disk[lb := v] == disk;
    InstallThrough(buf[l := Buf(true, DEV, lb, 0, v)], held, pins, disk, left, h, v);
  }

  class Log {
    const cache: BCache
    const g: Geometry
    var n: nat // lh.n
    var block: seq<int> // lh.block
    var outstanding: int

    constructor (c: BCache, geometry: Geometry)
      ensures cache == c && g == geometry && n == 0 && outstanding == 0 && |block| == LOGSIZE
    {
      cache, g, n, outstanding := c, geometry, 0, 0;
      block := seq(LOGSIZE, i => 0);
    }

    ghost predicate Valid()
      reads this, cache
    {
      && |block| == LOGSIZE && n <= LOGSIZE
      && cache.Valid() && ValidDisk(g, cache.disk) && Listable(g, |cache.disk|, block[..n])
    }

    /** The two breads of both loops: a log block, then a logged home block. */
    method Fetch(lb: int, hb: int, ghost logged: seq<int>) returns (l: int, h: int)
      requires cache.Valid() && Quiet(cache.buf, cache.held, cache.pins, cache.disk, logged)
      requires 0 <= lb < |cache.disk| && 0 <= hb < |cache.disk| && lb !in logged && hb in logged
      modifies cache`buf, cache`held
      ensures cache.Valid()
      ensures l == -1 <==> !old(Cached(cache.buf, DEV, lb)) && !old(Unused(cache.buf))
      ensures l == -1 ==> cache.buf == old(cache.buf) && cache.held == old(cache.held)
      ensures l != -1 ==>
        && 0 <= l < NBUF && 0 <= h < NBUF && l != h && cache.pins[l] == 0 && cache.pins[h] == 1
        && old(Holds(cache.buf[h], DEV, hb)) && (old(Holds(cache.buf[l], DEV, lb)) || !old(Cached(cache.buf, DEV, lb)))
        && cache.held == old(cache.held)[l := 1][h := 1]
        && cache.buf == old(cache.buf)[l := Buf(true, DEV, lb, 1, cache.disk[lb])][h := old(cache.buf[h]).(refcnt := 2)]
    {
      hide Linked; hide Sorted; hide Buffers;
      ghost var k :| 0 <= k < |logged| && logged[k] == hb;
      assert Cached(cache.buf, DEV, logged[k]);
      l := cache.Bread(lb);
      if l == -1 { return -1, -1; }
      assert old(cache.buf[l]).refcnt == 0;
      h := cache.Bread(hb);
    }

    /** The end of both loop bodies: l is released first. */
    method Release(l: int, h: int, unpin: bool)
      requires cache.Valid() && 0 <= l < NBUF && 0 <= h < NBUF && l != h && cache.held[l] == cache.held[h] == 1
      requires unpin ==> cache.pins[h] >= 1
      modifies cache
      ensures cache.Valid() && cache.disk == old(cache.disk) && cache.trace == old(cache.trace)
      ensures cache.held == old(cache.held)[l := 0][h := 0]
      ensures cache.pins == if unpin then old(cache.pins)[h := old(cache.pins)[h] - 1] else old(cache.pins)
      ensures cache.buf == old(cache.buf)[l := old(cache.buf[l]).(refcnt := old(cache.buf[l]).refcnt - 1)]
        [h := old(cache.buf[h]).(refcnt := old(cache.buf[h]).refcnt - if unpin then 2 else 1)]
    {
      hide Linked; hide Sorted; hide Buffers; hide Unique;
      if unpin { cache.Bunpin(h); }
      cache.Brelse(l);
      cache.Brelse(h);
    }

    /** The body of write_log's loop; -1 is the panic of bget. */
    method CopyToLog(lb: int, hb: int, ghost logged: seq<int>) returns (l: int, h: int)
      requires cache.Valid() && Quiet(cache.buf, cache.held, cache.pins, cache.disk, logged)
      requires 0 <= lb < |cache.disk| && 0 <= hb < |cache.disk| && lb !in logged && hb in logged
      modifies cache
      ensures cache.Valid() && cache.held == old(cache.held) && cache.pins == old(cache.pins)
      ensures l == -1 <==> !old(Cached(cache.buf, DEV, lb)) && !old(Unused(cache.buf))
      ensures l != -1 ==>
        && 0 <= l < NBUF && 0 <= h < NBUF && cache.pins[l] == 0
        && (old(Holds(cache.buf[l], DEV, lb)) || !old(Cached(cache.buf, DEV, lb)))
        && old(Holds(cache.buf[h], DEV, hb))
        && var v := old(cache.buf[h]).data;
        && cache.buf == old(cache.buf)[l := Buf(true, DEV, lb, 0, v)]
        && cache.disk == old(cache.disk)[lb := v] && cache.trace == old(cache.trace) + [Write(lb, v)]
    {
      hide Linked; hide Sorted; hide Buffers; hide Unique; hide Clean; hide Cached; hide Pinned;
      l, h := Fetch(lb, hb, logged);
      if l == -1 { return; }
      cache.Fill(l, cache.buf[h].data);
      cache.Bwrite(l);
      Release(h, l, false);
    }

    /** The body of install_trans's loop when not recovering. */
    method CopyHome(lb: int, hb: int, ghost logged: seq<int>) returns (l: int, h: int)
      requires cache.Valid() && Quiet(cache.buf, cache.held, cache.pins, cache.disk, logged)
      requires 0 <= lb < |cache.disk| && 0 <= hb < |cache.disk| && lb !in logged && hb in logged
      modifies cache
      ensures cache.Valid() && cache.held == old(cache.held)
      ensures l == -1 <==> !old(Cached(cache.buf, DEV, lb)) && !old(Unused(cache.buf))
      ensures l != -1 ==> var v := old(cache.disk[lb]);
        && 0 <= l < NBUF && 0 <= h < NBUF && l != h
        && old(cache.pins)[l] == 0 && (old(Holds(cache.buf[l], DEV, lb)) || !old(Cached(cache.buf, DEV, lb)))
        && old(Holds(cache.buf[h], DEV, hb)) && cache.pins == old(cache.pins)[h := 0]
        && cache.buf == old(cache.buf)[l := Buf(true, DEV, lb, 0, v)][h := Buf(true, DEV, hb, 0, v)]
        && cache.disk == old(cache.disk)[hb := v] && cache.trace == old(cache.trace) + [Write(hb, v)]
    {
      hide Linked; hide Sorted; hide Buffers; hide Unique; hide Cached; hide Pinned;
      l, h := Fetch(lb, hb, logged);
      if l == -1 { return; }
      cache.Fill(h, cache.buf[l].data);
      cache.Bwrite(h);
      Release(l, h, true);
    }

    /** CopyToLog in terms of the log: entry t goes out as the cache shows it. */
    method LogOne(lb: int, hb: int, ghost logged: seq<int>, ghost t: nat) returns (ok: bool)
      requires cache.Valid() && Quiet(cache.buf, cache.held, cache.pins, cache.disk, logged) && Distinct(logged)
      requires t < |logged| && hb == logged[t] && 0 <= hb < |cache.disk| && 0 <= lb < |cache.disk| && lb !in logged
      modifies cache
      ensures ok <==> |logged| < NBUF
      ensures ok ==>
        && cache.Valid() && cache.held == old(cache.held) && cache.pins == old(cache.pins)
        && Quiet(cache.buf, cache.held, cache.pins, cache.disk, logged)
        && var vals := old(ShownAll(cache.buf, logged));
        && ShownAll(cache.buf, logged) == vals
        && cache.disk == old(cache.disk)[lb := vals[t]] && cache.trace == old(cache.trace) + [Write(lb, vals[t])]
    {
      hide Linked; hide Sorted; hide Buffers; hide Clean; hide Pinned; hide ShownAll; hide AllCached;
      BufferForLog(cache.buf, cache.held, cache.pins, cache.disk, logged, lb);
      var l, h := CopyToLog(lb, hb, logged);
      if l == -1 { return false; }
      LogRound(old(cache.buf), old(cache.held), old(cache.pins), old(cache.disk), logged, t, l, h, lb);
      return true;
    }

    /** write_log: the logged blocks, as the cache shows them, to the log.  It runs out of
        buffers exactly when NBUF blocks are logged. */
    method WriteLog() returns (ok: bool)
      requires Valid() && Quiet(cache.buf, cache.held, cache.pins, cache.disk, block[..n])
      modifies cache
      ensures ok <==> n < NBUF
      ensures ok ==>
        && cache.Valid() && cache.held == old(cache.held) && cache.pins == old(cache.pins)
        && |cache.disk| == old(|cache.disk|)
        && Quiet(cache.buf, cache.held, cache.pins, cache.disk, block[..n])
        && var vals := ShownAll(old(cache.buf), block[..n]);
        && ShownAll(cache.buf, block[..n]) == vals
        && Wrote(old(cache.trace), old(cache.disk), cache.trace, cache.disk, LogWrites(g, vals))
    {
      hide BCache.Valid; hide Clean; hide Pinned; hide ShownAll; hide Cached; hide Wrote; hide Apply;
      ghost var logged := block[..n];
      ghost var vals := ShownAll(cache.buf, logged);
      ghost var ws := LogWrites(g, vals);
      CommitInterim(g, cache.disk, vals, n);
      WroteNothing(cache.trace, cache.disk, ws);
      var t := 0;
      while t < n
        invariant 0 <= t <= n && (t > 0 ==> n < NBUF)
        invariant cache.Valid() && cache.held == old(cache.held) && cache.pins == old(cache.pins)
        invariant |cache.disk| == old(|cache.disk|)
        invariant Quiet(cache.buf, cache.held, cache.pins, cache.disk, logged) && ShownAll(cache.buf, logged) == vals
        invariant Wrote(old(cache.trace), old(cache.disk), cache.trace, cache.disk, ws[..t])
      {
        WroteNext(old(cache.trace), old(cache.disk), cache.trace, cache.disk, ws, t);
        var more := LogOne(g.start + t + 1, block[t], logged, t);
        if !more { return false; }
        t := t + 1;
      }
      WroteAll(old(cache.trace), old(cache.disk), cache.trace, cache.disk, ws);
      return n < NBUF;
    }

    /** write_head: the in-memory header over the header block, its other words kept. */
    method WriteHead(ghost logged: seq<int>) returns (ok: bool)
      requires cache.Valid() && Quiet(cache.buf, cache.held, cache.pins, cache.disk, logged) && Distinct(logged)
      requires g.start !in logged && g.start < |cache.disk| && |cache.disk[g.start]| == WORDS
      requires |block| == LOGSIZE && n <= LOGSIZE
      modifies cache
      ensures ok <==> |logged| < NBUF
      ensures ok ==>
        && cache.Valid() && cache.held == old(cache.held) && cache.pins == old(cache.pins)
        && Quiet(cache.buf, cache.held, cache.pins, cache.disk, logged)
        && ShownAll(cache.buf, logged) == old(ShownAll(cache.buf, logged))
        && var w := HeadWrite(g, old(cache.disk)[g.start], block[..n]);
        && cache.disk == old(cache.disk)[g.start := w.v] && cache.trace == old(cache.trace) + [w]
    {
      hide Linked; hide Sorted; hide Buffers; hide Pinned; hide Clean; hide ShownAll; hide AllCached; hide Cached;
      BufferForLog(cache.buf, cache.held, cache.pins, cache.disk, logged, g.start);
      var b := cache.Bread(g.start);
      if b == -1 { return false; }
      ReadsDisk(old(cache.buf), old(cache.held), old(cache.pins), old(cache.disk), logged, g.start, b);
      var data := EncodeHead(cache.buf[b].data);
      WriteThrough(old(cache.buf), old(cache.held), old(cache.pins), old(cache.disk), logged, b, g.start, data);
      Store(b, data);
      assert cache.buf == old(cache.buf)[b := Buf(true, DEV, g.start, 0, data)];
      return true;
    }

    /** Change a buffer held once, write it through and release it. */
    method Store(b: int, data: Block)
      requires cache.Valid() && 0 <= b < NBUF && cache.held[b] == 1 && 0 <= cache.buf[b].blockno < |cache.disk|
      modifies cache
      ensures cache.Valid() && cache.pins == old(cache.pins) && cache.held == old(cache.held)[b := 0]
      ensures cache.buf == old(cache.buf)[b := old(cache.buf[b]).(data := data, refcnt := old(cache.buf[b]).refcnt - 1)]
      ensures var blk := old(cache.buf[b]).blockno;
        cache.disk == old(cache.disk)[blk := data] && cache.trace == old(cache.trace) + [Write(blk, data)]
    {
      hide Linked; hide Sorted; hide Buffers; hide Unique;
      cache.Fill(b, data);
      cache.Bwrite(b);
      cache.Brelse(b);
    }

    /** The assignments of write_head to the header block. */
    method EncodeHead(h: Block) returns (data: Block)
      requires |h| == WORDS && |block| == LOGSIZE && n <= LOGSIZE
      ensures data == PutHeader(h, block[..n])
    {
      data := h[0 := n];
      var i := 0;
      while i < n
        invariant 0 <= i <= n && |data| == WORDS && data[0] == n
        invariant forall k :: 0 <= k < i ==> data[1 + k] == block[k]
        invariant forall k :: 1 + i <= k < WORDS ==> data[k] == h[k]
      {
        data := data[1 + i := block[i]];
        i := i + 1;
      }
      var r := PutHeader(h, block[..n]);
      assert forall k :: 0 <= k < WORDS ==> data[k] == r[k];
    }

    /** The two breads of install_trans when recovering: nothing is logged or pinned. */
    method FetchRecovered(lb: int, hb: int) returns (l: int, h: int)
      requires cache.Valid() && Quiet(cache.buf, cache.held, cache.pins, cache.disk, [])
      requires 0 <= lb < |cache.disk| && 0 <= hb < |cache.disk| && lb != hb
      modifies cache`buf, cache`held
      ensures cache.Valid()
      ensures 0 <= l < NBUF && 0 <= h < NBUF && l != h && cache.pins[l] == cache.pins[h] == 0
      ensures cache.held == old(cache.held)[l := 1][h := 1]
      ensures old(Holds(cache.buf[l], DEV, lb)) || !old(Cached(cache.buf, DEV, lb))
      ensures var mid := old(cache.buf)[l := Buf(true, DEV, lb, 0, cache.disk[lb])];
        Holds(mid[h], DEV, hb) || !Cached(mid, DEV, hb)
      ensures cache.buf ==
        old(cache.buf)[l := Buf(true, DEV, lb, 1, cache.disk[lb])][h := Buf(true, DEV, hb, 1, cache.disk[hb])]
    {
      hide Linked; hide Sorted; hide Buffers; hide Quiet;
      l := ReadQuiet(lb);
      assert cache.buf[if l == 0 then 1 else 0].refcnt == 0;
      h := cache.Bread(hb);
      ghost var mid := old(cache.buf)[l := Buf(true, DEV, lb, 0, cache.disk[lb])];
      forall i | 0 <= i < NBUF && Holds(mid[i], DEV, hb) ensures i == h {}
    }

    /** bread with nothing logged and no buffer in use. */
    method ReadQuiet(lb: int) returns (l: int)
      requires cache.Valid() && Quiet(cache.buf, cache.held, cache.pins, cache.disk, []) && 0 <= lb < |cache.disk|
      modifies cache`buf, cache`held
      ensures cache.Valid() && 0 <= l < NBUF && cache.pins[l] == 0 && cache.held == old(cache.held)[l := 1]
      ensures old(Holds(cache.buf[l], DEV, lb)) || !old(Cached(cache.buf, DEV, lb))
      ensures cache.buf == old(cache.buf)[l := Buf(true, DEV, lb, 1, cache.disk[lb])]
      ensures forall i :: 0 <= i < NBUF && i != l ==> Resting(cache.buf[i], cache.held[i], cache.pins[i], cache.disk)
    {
      hide Linked; hide Sorted; hide Buffers; hide Cached; hide Unique;
      AllResting(cache.buf, cache.held, cache.pins, cache.disk);
      hide Quiet;
      SomeUnused(cache.buf);
      l := cache.Bread(lb);
    }

    /** The body of install_trans's loop when recovering. */
    method CopyRecovered(lb: int, hb: int)
      requires cache.Valid() && Quiet(cache.buf, cache.held, cache.pins, cache.disk, [])
      requires 0 <= lb < |cache.disk| && 0 <= hb < |cache.disk| && lb != hb
      modifies cache
      ensures cache.Valid() && cache.held == old(cache.held) && cache.pins == old(cache.pins)
      ensures Quiet(cache.buf, cache.held, cache.pins, cache.disk, [])
      ensures var v := old(cache.disk[lb]);
        cache.disk == old(cache.disk)[hb := v] && cache.trace == old(cache.trace) + [Write(hb, v)]
    {
      hide Linked; hide Sorted; hide Buffers; hide Unique; hide Cached; hide Pinned; hide Clean; hide AllCached;
      hide ShownAll;
      var l, h := FetchRecovered(lb, hb);
      cache.Fill(h, cache.buf[l].data);
      cache.Bwrite(h);
      Release(l, h, false);
      ghost var v, d := old(cache.disk[lb]), old(cache.disk);
      ghost var mid := old(cache.buf)[l := Buf(true, DEV, lb, 0, v)];
      WriteThrough(old(cache.buf), old(cache.held), cache.pins, d, [], l, lb, v);
      TakenUnique(old(cache.buf), l, lb, v);
      assert d[lb := v] == d;
      WriteThrough(mid, old(cache.held), cache.pins, d, [], h, hb, v);
      assert cache.buf == mid[h := Buf(true, DEV, hb, 0, v)];
    }

    /** install_trans: the logged blocks to their home locations, each in one write. */
    method InstallTrans(recovering: bool, ghost vals: seq<Block>)
      requires Valid() && |vals| == n && (recovering || n < NBUF)
      requires Quiet(cache.buf, cache.held, cache.pins, cache.disk, if recovering then [] else block[..n])
      requires forall i :: 0 <= i < n ==> cache.disk[g.start + 1 + i] == vals[i]
      modifies cache
      ensures cache.Valid() && Quiet(cache.buf, cache.held, cache.pins, cache.disk, [])
      ensures |cache.disk| == old(|cache.disk|)
      ensures forall b :: g.start <= b < g.start + g.size ==> cache.disk[b] == old(cache.disk[b])
      ensures Wrote(old(cache.trace), old(cache.disk), cache.trace, cache.disk, InstallWrites(block[..n], vals))
    {
      hide BCache.Valid; hide Clean; hide Pinned; hide ShownAll; hide Cached; hide Wrote; hide Apply; hide AllCached;
      hide HeaderBlocks;
      ghost var logged, ws := block[..n], InstallWrites(block[..n], vals);
      WroteNothing(cache.trace, cache.disk, ws);
      var t := 0;
      while t < n
        invariant 0 <= t <= n && |cache.disk| == old(|cache.disk|)
        invariant cache.Valid()
        invariant Quiet(cache.buf, cache.held, cache.pins, cache.disk, if recovering then [] else logged[t..])
        invariant forall b :: g.start <= b < g.start + g.size ==> cache.disk[b] == old(cache.disk[b])
        invariant Wrote(old(cache.trace), old(cache.disk), cache.trace, cache.disk, ws[..t])
      {
        assert IsHome(g, |cache.disk|, logged[t]);
        WroteNext(old(cache.trace), old(cache.disk), cache.trace, cache.disk, ws, t);
        if recovering {
          CopyRecovered(g.start + t + 1, block[t]);
        } else {
          InstallOne(g.start + t + 1, block[t], logged[t..]);
          assert logged[t..][1..] == logged[t + 1..];
        }
        t := t + 1;
      }
      WroteAll(old(cache.trace), old(cache.disk), cache.trace, cache.disk, ws);
      assert logged[n..] == [];
    }

    /** CopyHome in terms of the log: the first block left goes home and loses its pin. */
    method InstallOne(lb: int, hb: int, ghost left: seq<int>)
      requires cache.Valid() && Quiet(cache.buf, cache.held, cache.pins, cache.disk, left)
      requires left != [] && Distinct(left) && |left| < NBUF && hb == left[0]
      requires 0 <= hb < |cache.disk| && 0 <= lb < |cache.disk| && lb !in left
      modifies cache
      ensures cache.Valid() && Quiet(cache.buf, cache.held, cache.pins, cache.disk, left[1..])
      ensures var v := old(cache.disk[lb]);
        cache.disk == old(cache.disk)[hb := v] && cache.trace == old(cache.trace) + [Write(hb, v)]
    {
      hide Linked; hide Sorted; hide Buffers; hide Clean; hide Pinned; hide ShownAll; hide AllCached; hide Cached;
      BufferForLog(cache.buf, cache.held, cache.pins, cache.disk, left, lb);
      var l, h := CopyHome(lb, hb, left);
      InstallRound(old(cache.buf), old(cache.held), old(cache.pins), old(cache.disk), left, l, h, lb);
    }

    /** commit: the writes are exactly CommitWrites of what the cache shows, so CommitPrefix and
        CrashAtomicity describe every crash inside it.  It fails, in bget, exactly when NBUF
        blocks are logged. */
    method Commit() returns (ok: bool)
      requires Valid() && Listed(g, cache.disk) == []
      requires Quiet(cache.buf, cache.held, cache.pins, cache.disk, block[..n])
      modifies this`n, cache
      ensures ok <==> old(n) < NBUF
      ensures ok ==>
        && Valid() && n == 0 && Listed(g, cache.disk) == []
        && Quiet(cache.buf, cache.held, cache.pins, cache.disk, [])
        && var blocks := old(block[..n]);
        && var vals := ShownAll(old(cache.buf), blocks);
        && Wrote(old(cache.trace), old(cache.disk), cache.trace, cache.disk,
                 if blocks == [] then [] else CommitWrites(g, old(cache.disk)[g.start], blocks, vals))
    {
      hide BCache.Valid; hide Clean; hide Pinned; hide ShownAll; hide Cached; hide Wrote; hide AllCached;
      hide LogWrites; hide InstallWrites;
      ghost var blocks, d0, tr0 := block[..n], cache.disk, cache.trace;
      ghost var vals := ShownAll(cache.buf, blocks);
      if n > 0 {
        ok := WriteLog();
        if !ok { return; }
        ghost var d1, tr1 := cache.disk, cache.trace;
        LoggedDisk(g, d0, blocks, vals, tr0, tr1, d1);
        ok := WriteHead(blocks);
        ghost var d2, tr2 := cache.disk, cache.trace;
        SealedLogged(g, d0, blocks, vals, tr0, tr1, d1, tr2, d2);
        InstallTrans(false, vals);
        ghost var d3, tr3 := cache.disk, cache.trace;
        WroteThen(tr0, d0, tr2, d2, tr3, d3, LogWrites(g, vals) + [HeadWrite(g, d0[g.start], blocks)],
                  InstallWrites(blocks, vals));
        n := 0;
        ok := WriteHead([]);
        assert block[..n] == [];
        Cleared(g, d0, blocks, vals, tr0, d3, tr3, cache.disk, cache.trace);
      } else {
        assert blocks == [];
        WroteNothing(tr0, d0, []);
        ok := true;
      }
    }

    /** log_write's search for the block among those logged. */
    method Scan(blk: int) returns (i: nat)
      requires n <= |block|
      ensures i <= n && (i < n ==> block[i] == blk)
      ensures i == n <==> blk !in block[..n]
    {
      i := 0;
      while i < n && block[i] != blk
        invariant 0 <= i <= n && blk !in block[..i]
      {
        i := i + 1;
      }
    }

    /** log_write: absorb or append, pinning the buffer once per logged block. */
    method LogWrite(b: int) returns (panicked: bool)
      requires Valid() && 0 <= b < NBUF && cache.held[b] >= 1
      requires Agrees(cache.buf, cache.held, cache.pins, cache.disk, block[..n])
      requires cache.buf[b].valid && IsHome(g, |cache.disk|, cache.buf[b].blockno)
      modifies this`n, this`block, cache`buf, cache`pins
      ensures panicked <==> old(n) >= LOGSIZE || old(n) >= g.size - 1 || outstanding < 1
      ensures panicked ==>
        n == old(n) && block == old(block) && cache.buf == old(cache.buf) && cache.pins == old(cache.pins)
      ensures Valid() && Agrees(cache.buf, cache.held, cache.pins, cache.disk, block[..n])
      ensures !panicked ==>
        && var blk, logged := old(cache.buf[b]).blockno, old(block[..n]);
        && block[..n] == (if blk in logged then logged else logged + [blk])
        && cache.buf == (if blk in logged then old(cache.buf)
                         else old(cache.buf)[b := old(cache.buf[b]).(refcnt := old(cache.buf[b]).refcnt + 1)])
    {
      hide BCache.Ring; hide Unique; hide Clean; hide Pinned; hide AllCached; hide HeaderBlocks;
      if n >= LOGSIZE || n >= g.size - 1 { return true; }
      if outstanding < 1 { return true; }
      var blk := cache.buf[b].blockno;
      ghost var logged := block[..n];
      var i := Scan(blk);
      block := block[i := blk];
      if i == n {
        NewlyLogged(cache.buf, cache.held, cache.pins, cache.disk, logged, b);
        cache.Bpin(b);
        n := n + 1;
        assert block[..n] == logged + [blk];
        ListableMore(g, |cache.disk|, logged, blk);
      } else {
        assert block[..n] == logged;
      }
      return false;
    }

    /** The idiom log_write is made for: bread, change the data, log_write, brelse.  What the
        cache shows for the block is then logged, and nothing has reached the disk. */
    method UpdateBlock(blk: int, v: Block) returns (ok: bool)
      requires Valid() && Quiet(cache.buf, cache.held, cache.pins, cache.disk, block[..n])
      requires IsHome(g, |cache.disk|, blk) && outstanding >= 1
      modifies this`n, this`block, cache
      ensures old(n) < NBUF && old(n) < LOGSIZE && old(n) < g.size - 1 ==> ok
      ensures ok ==>
        && Valid() && Quiet(cache.buf, cache.held, cache.pins, cache.disk, block[..n])
        && cache.disk == old(cache.disk) && cache.trace == old(cache.trace)
        && block[..n] == (if blk in old(block[..n]) then old(block[..n]) else old(block[..n]) + [blk])
        && ShowsUpdate(old(cache.buf), cache.buf, block[..n], blk, v)
    {
      hide BCache.Ring; hide Unique; hide Clean; hide Pinned; hide AllCached; hide HeaderBlocks; hide Shown;
      hide Cached;
      hide ShowsUpdate;
      ghost var logged := block[..n];
      BufferForUpdate(cache.buf, cache.held, cache.pins, cache.disk, logged, blk);
      var b := Modify(blk, v, logged);
      if b == -1 { return false; }
      hide Agrees; hide Unused; hide Quiet; hide Idle;
      ok := LogAndRelease(b);
      if !ok { return; }
      assert cache.held == old(cache.held);
      ShownAfter(old(cache.buf), cache.buf, b, blk, v, logged, block[..n]);
    }

    /** log_write and brelse of a buffer that has been changed. */
    method LogAndRelease(b: int) returns (ok: bool)
      requires Valid() && 0 <= b < NBUF && cache.held[b] == 1
      requires forall i :: 0 <= i < NBUF && i != b ==> cache.held[i] == 0
      requires Agrees(cache.buf, cache.held, cache.pins, cache.disk, block[..n])
      requires cache.buf[b].valid && IsHome(g, |cache.disk|, cache.buf[b].blockno) && outstanding >= 1
      modifies this`n, this`block, cache`buf, cache`pins, cache`held, cache`next, cache`prev, cache`order,
        cache`stamp, cache`clock
      ensures ok <==> old(n) < LOGSIZE && old(n) < g.size - 1
      ensures ok ==>
        && Valid() && Quiet(cache.buf, cache.held, cache.pins, cache.disk, block[..n])
        && cache.held == old(cache.held)[b := 0]
        && var blk, logged := old(cache.buf[b]).blockno, old(block[..n]);
        && block[..n] == (if blk in logged then logged else logged + [blk])
        && (forall i :: 0 <= i < NBUF && i != b ==> cache.buf[i] == old(cache.buf)[i])
        && cache.buf[b].dev == old(cache.buf[b]).dev && cache.buf[b].blockno == blk
        && cache.buf[b].data == old(cache.buf[b]).data
    {
      hide BCache.Ring; hide Unique; hide Clean; hide Pinned; hide AllCached; hide HeaderBlocks; hide Shown;
      hide Cached;
      var panicked := LogWrite(b);
      if panicked { return false; }
      Released(cache.buf, cache.held, cache.pins, cache.disk, block[..n], b);
      cache.Brelse(b);
      return true;
    }

    /** bread and the change of the data. */
    method Modify(blk: int, v: Block, ghost logged: seq<int>) returns (b: int)
      requires cache.Valid() && Quiet(cache.buf, cache.held, cache.pins, cache.disk, logged) && 0 <= blk < |cache.disk|
      modifies cache`buf, cache`held
      ensures cache.Valid() && (b == -1 <==> !old(Cached(cache.buf, DEV, blk)) && !old(Unused(cache.buf)))
      ensures b != -1 ==>
        && 0 <= b < NBUF && cache.held == old(cache.held)[b := 1]
        && cache.buf == old(cache.buf)[b := Buf(true, DEV, blk, old(cache.buf[b]).refcnt + 1, v)]
        && Agrees(cache.buf, cache.held, cache.pins, cache.disk, logged)
        && forall x :: x in logged && x != blk ==> !Holds(old(cache.buf[b]), DEV, x)
    {
      hide BCache.Ring; hide Unique; hide Clean; hide Pinned; hide AllCached; hide Cached;
      b := cache.Bread(blk);
      if b == -1 { return; }
      Changed(old(cache.buf), old(cache.held), old(cache.pins), old(cache.disk), logged, blk, b, v);
      cache.Fill(b, v);
      assert cache.buf == old(cache.buf)[b := Buf(true, DEV, blk, old(cache.buf[b]).refcnt + 1, v)];
    }

    /** read_head: the header block into memory. */
    method ReadHead()
      requires cache.Valid() && Quiet(cache.buf, cache.held, cache.pins, cache.disk, [])
      requires ValidDisk(g, cache.disk) && |block| == LOGSIZE
      modifies this`n, this`block, cache
      ensures cache.Valid() && Quiet(cache.buf, cache.held, cache.pins, cache.disk, [])
      ensures cache.disk == old(cache.disk) && cache.trace == old(cache.trace)
      ensures |block| == LOGSIZE && n <= LOGSIZE && block[..n] == Listed(g, cache.disk)
    {
      hide Linked; hide Sorted; hide Buffers; hide ShownAll; hide Pinned; hide Clean; hide AllCached; hide Cached;
      var b := ReadQuiet(g.start);
      WriteThrough(old(cache.buf), old(cache.held), old(cache.pins), old(cache.disk), [], b, g.start,
                   cache.disk[g.start]);
      var h := cache.buf[b].data;
      DecodeHead(h);
      cache.Brelse(b);
      assert cache.buf == old(cache.buf)[b := Buf(true, DEV, g.start, 0, h)];
      assert cache.held == old(cache.held) && cache.disk[g.start := h] == cache.disk;
    }

    /** The assignments of read_head. */
    method DecodeHead(h: Block)
      requires IsHeader(h) && |block| == LOGSIZE
      modifies this`n, this`block
      ensures |block| == LOGSIZE && n <= LOGSIZE && block[..n] == HeaderBlocks(h)
    {
      n := h[0];
      var i := 0;
      while i < n
        invariant 0 <= i <= n && |block| == LOGSIZE && n == h[0]
        invariant forall k :: 0 <= k < i ==> block[k] == h[1 + k]
      {
        block := block[i := h[1 + i]];
        i := i + 1;
      }
    }

    /** recover_from_log: the writes are exactly RecoverWrites of the disk it finds. */
    method RecoverFromLog()
      requires cache.Valid() && Quiet(cache.buf, cache.held, cache.pins, cache.disk, [])
      requires ValidDisk(g, cache.disk) && |block| == LOGSIZE
      modifies this`n, this`block, cache
      ensures Valid() && n == 0 && Listed(g, cache.disk) == []
      ensures Quiet(cache.buf, cache.held, cache.pins, cache.disk, [])
      ensures Wrote(old(cache.trace), old(cache.disk), cache.trace, cache.disk, RecoverWrites(g, old(cache.disk)))
    {
      hide BCache.Valid; hide Quiet; hide ShownAll; hide Wrote; hide InstallWrites;
      ReadHead();
      ghost var d, tr := cache.disk, cache.trace;
      InstallTrans(true, LoggedCopies(g, d));
      ghost var d3, tr3 := cache.disk, cache.trace;
      n := 0;
      var ok := WriteHead([]);
      assert block[..n] == [];
      RecoveredDisk(g, d, tr, d3, tr3, cache.disk, cache.trace);
    }
  }
}
