/** The on-disk redo log: what the block writes of a commit and of a recovery do to the
    disk, one block write at a time (kernel/log.c, on-disk format of kernel/fs.h).

    A disk is a sequence of blocks, a block a sequence of 32-bit words; writing one block is
    the atomic step.  A crash may therefore leave any prefix of a write sequence behind. */
module RedoLog {
  import opened Sets

  const MAXOPBLOCKS: nat := 10
  const LOGSIZE: nat := 30 // MAXOPBLOCKS * 3
  const WORDS: nat := 256 // BSIZE / sizeof(int)

  type Block = seq<int>
  type Disk = seq<Block>
  datatype Write = Write(b: int, v: Block)

  /** Where the log lies: the header in block `start`, logged copies behind it. */
  datatype Geometry = Geometry(start: nat, size: nat)

  predicate IsHome(g: Geometry, len: nat, b: int) {
    0 <= b < len && !(g.start <= b < g.start + g.size)
  }

  /** The block numbers a log may list. */
  predicate Listable(g: Geometry, len: nat, blocks: seq<int>) {
    && |blocks| <= LOGSIZE && |blocks| <= g.size - 1
    && Distinct(blocks)
    && forall i :: 0 <= i < |blocks| ==> IsHome(g, len, blocks[i])
  }

  /** struct logheader laid over a block: word 0 is n, words 1..n are block numbers.
      Writing a header leaves the words behind it as they were. */
  predicate IsHeader(h: Block) {
    |h| == WORDS && 0 <= h[0] <= LOGSIZE
  }

  function HeaderBlocks(h: Block): (s: seq<int>)
    requires IsHeader(h)
  {
    h[1..1 + h[0]]
  }

  function PutHeader(h: Block, blocks: seq<int>): (r: Block)
    requires |h| == WORDS && |blocks| <= LOGSIZE
    ensures IsHeader(r) && HeaderBlocks(r) == blocks
    ensures r[1 + |blocks|..] == h[1 + |blocks|..]
  {
    [|blocks|] + blocks + h[1 + |blocks|..]
  }

  predicate ValidDisk(g: Geometry, d: Disk) {
    && 1 <= g.size && g.start + g.size <= |d|
    && IsHeader(d[g.start])
    && Listable(g, |d|, HeaderBlocks(d[g.start]))
  }

  function Listed(g: Geometry, d: Disk): (s: seq<int>)
    requires ValidDisk(g, d)
  {
    HeaderBlocks(d[g.start])
  }

  /** What a recovery would make of home block `b`: the logged copy if the header lists it. */
  function Redo(g: Geometry, d: Disk, b: int): (v: Block)
    requires ValidDisk(g, d) && IsHome(g, |d|, b)
  {
    var i := IndexOf(Listed(g, d), b);
    if i < |Listed(g, d)| then d[g.start + 1 + i] else d[b]
  }

  /** The file system a disk stands for. */
  function HomeView(g: Geometry, d: Disk): (m: map<int, Block>)
    requires ValidDisk(g, d)
  {
    map b | 0 <= b < |d| && IsHome(g, |d|, b) :: Redo(g, d, b)
  }

  /** A file system with the listed blocks replaced. */
  function Overlay(m: map<int, Block>, blocks: seq<int>, vals: seq<Block>): (r: map<int, Block>)
    requires |blocks| == |vals|
  {
    map b | b in m ::
      var i := IndexOf(blocks, b);
      if i < |blocks| then vals[i] else m[b]
  }

  // ---------------------------------------------------------------- write sequences

  predicate InBounds(len: nat, ws: seq<Write>) {
    forall i :: 0 <= i < |ws| ==> 0 <= ws[i].b < len
  }

  function Apply(d: Disk, ws: seq<Write>): (r: Disk)
    requires InBounds(|d|, ws)
    ensures |r| == |d|
  {
    if ws == [] then d else
      var w := ws[|ws| - 1];
      Apply(d, ws[..|ws| - 1])[w.b := w.v]
  }

  /** write_log: the logged blocks go behind the header. */
  function LogWrites(g: Geometry, vals: seq<Block>): (ws: seq<Write>)
    ensures |ws| == |vals|
  {
    seq(|vals|, i requires 0 <= i < |vals| => Write(g.start + 1 + i, vals[i]))
  }

  /** install_trans: the logged blocks go home. */
  function InstallWrites(blocks: seq<int>, vals: seq<Block>): (ws: seq<Write>)
    requires |blocks| == |vals|
    ensures |ws| == |vals|
  {
    seq(|vals|, i requires 0 <= i < |vals| => Write(blocks[i], vals[i]))
  }

  /** write_head with the given list, over the header block `h`. */
  function HeadWrite(g: Geometry, h: Block, blocks: seq<int>): (w: Write)
    requires |h| == WORDS && |blocks| <= LOGSIZE
  {
    Write(g.start, PutHeader(h, blocks))
  }

  /** commit(): log, header, install, clear. */
  function CommitWrites(g: Geometry, h: Block, blocks: seq<int>, vals: seq<Block>): (ws: seq<Write>)
    requires |h| == WORDS && |blocks| == |vals| && |blocks| <= LOGSIZE
  {
    LogWrites(g, vals) + [HeadWrite(g, h, blocks)] + InstallWrites(blocks, vals)
    + [HeadWrite(g, PutHeader(h, blocks), [])]
  }

  /** The logged copies a disk holds. */
  function LoggedCopies(g: Geometry, d: Disk): (vals: seq<Block>)
    requires ValidDisk(g, d)
  {
    d[g.start + 1..g.start + 1 + |Listed(g, d)|]
  }

  /** recover_from_log(): install whatever the header lists, then clear. */
  function RecoverWrites(g: Geometry, d: Disk): (ws: seq<Write>)
    requires ValidDisk(g, d)
  {
    InstallWrites(Listed(g, d), LoggedCopies(g, d)) + [HeadWrite(g, d[g.start], [])]
  }

  lemma ApplyStep(d: Disk, ws: seq<Write>, k: nat)
    requires InBounds(|d|, ws) && k < |ws|
    ensures InBounds(|d|, ws[..k]) && InBounds(|d|, ws[..k + 1])
    ensures Apply(d, ws[..k + 1]) == Apply(d, ws[..k])[ws[k].b := ws[k].v]
  {
    var cut := ws[..k + 1];
    assert cut[..|cut| - 1] == ws[..k] && cut[|cut| - 1] == ws[k];
    assert InBounds(|d|, cut);
  }

  lemma {:induction false} ApplyConcat(d: Disk, a: seq<Write>, b: seq<Write>)
    requires InBounds(|d|, a) && InBounds(|d|, b)
    ensures InBounds(|d|, a + b) && Apply(d, a + b) == Apply(Apply(d, a), b)
    decreases |b|
  {
    assert InBounds(|d|, a + b) by {
      forall i | 0 <= i < |a + b| ensures 0 <= (a + b)[i].b < |d| {}
    }
    if b == [] {
      assert a + b == a;
    } else {
      var b' := b[..|b| - 1];
      assert (a + b)[..|a + b| - 1] == a + b';
      ApplyConcat(d, a, b');
    }
  }

  // ---------------------------------------------------------------- recovery

  /** A disk whose first `k` listed blocks are already home. */
  ghost predicate InstalledTo(g: Geometry, d: Disk, e: Disk, k: nat)
    requires ValidDisk(g, d)
  {
    && |e| == |d| && k <= |Listed(g, d)|
    && (forall b :: g.start <= b < g.start + g.size ==> e[b] == d[b])
    && (forall b :: IsHome(g, |d|, b) ==> e[b] == if IndexOf(Listed(g, d), b) < k then Redo(g, d, b) else d[b])
  }

  /** Such a disk stands for the same file system. */
  lemma InstalledSame(g: Geometry, d: Disk, e: Disk, k: nat)
    requires ValidDisk(g, d) && InstalledTo(g, d, e, k)
    ensures ValidDisk(g, e) && Listed(g, e) == Listed(g, d) && HomeView(g, e) == HomeView(g, d)
  {
    assert e[g.start] == d[g.start];
    forall b | IsHome(g, |d|, b) ensures Redo(g, e, b) == Redo(g, d, b) {
      var i := IndexOf(Listed(g, d), b);
      if i < |Listed(g, d)| { assert e[g.start + 1 + i] == d[g.start + 1 + i]; }
    }
  }

  lemma InstallOne(g: Geometry, d: Disk, e: Disk, k: nat)
    requires ValidDisk(g, d) && InstalledTo(g, d, e, k) && k < |Listed(g, d)|
    ensures var b := Listed(g, d)[k]; IsHome(g, |d|, b) && InstalledTo(g, d, e[b := LoggedCopies(g, d)[k]], k + 1)
  {
    var blocks, v := Listed(g, d), LoggedCopies(g, d)[k];
    assert IsHome(g, |d|, blocks[k]);
    var e' := e[blocks[k] := v];
    forall b | IsHome(g, |d|, b) ensures e'[b] == if IndexOf(blocks, b) < k + 1 then Redo(g, d, b) else d[b] {
      assert IndexOf(blocks, b) == k <==> b == blocks[k];
    }
  }

  /** Clearing the header once everything is home keeps the file system. */
  lemma ClearLog(g: Geometry, d: Disk, e: Disk)
    requires ValidDisk(g, d) && InstalledTo(g, d, e, |Listed(g, d)|)
    ensures var c := e[g.start := PutHeader(d[g.start], [])];
      ValidDisk(g, c) && Listed(g, c) == [] && HomeView(g, c) == HomeView(g, d)
  {
    var c := e[g.start := PutHeader(d[g.start], [])];
    assert Listed(g, c) == [];
    forall b | IsHome(g, |d|, b) ensures Redo(g, c, b) == Redo(g, d, b) {
      assert c[b] == e[b];
    }
  }

  lemma RecoverBounds(g: Geometry, d: Disk)
    requires ValidDisk(g, d)
    ensures InBounds(|d|, RecoverWrites(g, d))
  {
    var ws := RecoverWrites(g, d);
    forall i | 0 <= i < |ws| ensures 0 <= ws[i].b < |d| {
      if i < |Listed(g, d)| { assert IsHome(g, |d|, Listed(g, d)[i]); }
    }
  }

  lemma {:induction false} RecoverInterim(g: Geometry, d: Disk, k: nat)
    requires ValidDisk(g, d) && k <= |Listed(g, d)|
    requires InBounds(|d|, RecoverWrites(g, d))
    ensures InstalledTo(g, d, Apply(d, RecoverWrites(g, d)[..k]), k)
  {
    if k > 0 {
      RecoverInterim(g, d, k - 1);
      ApplyStep(d, RecoverWrites(g, d), k - 1);
      InstallOne(g, d, Apply(d, RecoverWrites(g, d)[..k - 1]), k - 1);
    }
  }

  /** However far a recovery gets before the next crash, the disk still stands for the same
      file system; a recovery that completes has cleared the log. */
  lemma RecoverPrefix(g: Geometry, d: Disk, k: nat)
    requires ValidDisk(g, d) && k <= |RecoverWrites(g, d)|
    ensures var ws := RecoverWrites(g, d); InBounds(|d|, ws) && InBounds(|d|, ws[..k])
    ensures ValidDisk(g, Apply(d, RecoverWrites(g, d)[..k]))
    ensures HomeView(g, Apply(d, RecoverWrites(g, d)[..k])) == HomeView(g, d)
    ensures k == |RecoverWrites(g, d)| ==> Listed(g, Apply(d, RecoverWrites(g, d)[..k])) == []
  {
    hide Apply; hide HomeView; hide InstallWrites; hide Redo;
    var n := |Listed(g, d)|;
    var ws := RecoverWrites(g, d);
    RecoverBounds(g, d);
    if k <= n {
      RecoverInterim(g, d, k);
      InstalledSame(g, d, Apply(d, ws[..k]), k);
    } else {
      assert k == n + 1 && ws[n] == HeadWrite(g, d[g.start], []);
      RecoverInterim(g, d, n);
      ApplyStep(d, ws, n);
      ClearLog(g, d, Apply(d, ws[..n]));
    }
  }

  // ---------------------------------------------------------------- commit

  /** A disk with the first `k` values in the log blocks and nothing else changed. */
  ghost predicate Filled(g: Geometry, d: Disk, vals: seq<Block>, k: nat, e: Disk) {
    && |e| == |d| && k <= |vals|
    && (forall b :: 0 <= b < |d| && !(g.start + 1 <= b < g.start + 1 + k) ==> e[b] == d[b])
    && (forall i :: 0 <= i < k && g.start + 1 + i < |d| ==> e[g.start + 1 + i] == vals[i])
  }

  lemma {:induction false} CommitInterim(g: Geometry, d: Disk, vals: seq<Block>, k: nat)
    requires ValidDisk(g, d) && |vals| <= g.size - 1 && k <= |vals|
    ensures var ws := LogWrites(g, vals); InBounds(|d|, ws) && InBounds(|d|, ws[..k])
    ensures Filled(g, d, vals, k, Apply(d, LogWrites(g, vals)[..k]))
  {
    if k > 0 {
      CommitInterim(g, d, vals, k - 1);
      ApplyStep(d, LogWrites(g, vals), k - 1);
    }
  }

  /** Filling the log blocks of an empty log changes no file. */
  lemma FilledSame(g: Geometry, d: Disk, vals: seq<Block>, k: nat, e: Disk)
    requires ValidDisk(g, d) && Listed(g, d) == [] && |vals| <= g.size - 1 && Filled(g, d, vals, k, e)
    ensures ValidDisk(g, e) && Listed(g, e) == [] && HomeView(g, e) == HomeView(g, d)
  {
    assert e[g.start] == d[g.start];
    forall b | IsHome(g, |d|, b) ensures Redo(g, e, b) == Redo(g, d, b) {}
  }

  lemma SealedHeader(g: Geometry, d: Disk, blocks: seq<int>, vals: seq<Block>, e: Disk, s: Disk)
    requires ValidDisk(g, d) && Listable(g, |d|, blocks) && |vals| == |blocks|
    requires Filled(g, d, vals, |vals|, e) && s == e[g.start := PutHeader(d[g.start], blocks)]
    ensures ValidDisk(g, s) && Listed(g, s) == blocks && LoggedCopies(g, s) == vals
  {
    assert s[g.start] == PutHeader(d[g.start], blocks);
    assert HeaderBlocks(s[g.start]) == blocks;
    forall i | 0 <= i < |vals| ensures s[g.start + 1 + i] == vals[i] {}
  }

  /** The header write changes the file system to the new one, all at once, and leaves a disk
      whose recovery is the rest of the commit. */
  lemma SealedDisk(g: Geometry, d: Disk, blocks: seq<int>, vals: seq<Block>, e: Disk, s: Disk)
    requires ValidDisk(g, d) && Listed(g, d) == [] && Listable(g, |d|, blocks) && |vals| == |blocks|
    requires Filled(g, d, vals, |vals|, e) && s == e[g.start := PutHeader(d[g.start], blocks)]
    ensures ValidDisk(g, s) && HomeView(g, s) == Overlay(HomeView(g, d), blocks, vals)
  {
    SealedHeader(g, d, blocks, vals, e, s);
    forall b | IsHome(g, |d|, b)
      ensures Redo(g, s, b) == (var i := IndexOf(blocks, b); if i < |blocks| then vals[i] else Redo(g, d, b))
    {
      var i := IndexOf(blocks, b);
      if i < |blocks| { assert s[g.start + 1 + i] == vals[i]; } else { assert s[b] == d[b]; }
    }
  }

  /** From the header write on, a commit is a recovery of the disk it wrote. */
  lemma CommitTail(g: Geometry, d: Disk, blocks: seq<int>, vals: seq<Block>, s: Disk)
    requires ValidDisk(g, d) && Listable(g, |d|, blocks) && |vals| == |blocks|
    requires ValidDisk(g, s) && s[g.start] == PutHeader(d[g.start], blocks) && LoggedCopies(g, s) == vals
    ensures CommitWrites(g, d[g.start], blocks, vals)
         == (LogWrites(g, vals) + [HeadWrite(g, d[g.start], blocks)]) + RecoverWrites(g, s)
  {
    assert Listed(g, s) == blocks;
  }

  /** The write sequence of a commit, split at its header write. */
  lemma CommitSplit(g: Geometry, d: Disk, blocks: seq<int>, vals: seq<Block>) returns (head: seq<Write>, s: Disk)
    requires ValidDisk(g, d) && Listed(g, d) == [] && Listable(g, |d|, blocks) && |vals| == |blocks|
    ensures head == LogWrites(g, vals) + [HeadWrite(g, d[g.start], blocks)]
    ensures InBounds(|d|, head) && Apply(d, head) == s
    ensures ValidDisk(g, s) && HomeView(g, s) == Overlay(HomeView(g, d), blocks, vals)
    ensures CommitWrites(g, d[g.start], blocks, vals) == head + RecoverWrites(g, s)
  {
    var lw := LogWrites(g, vals);
    CommitInterim(g, d, vals, |vals|);
    assert lw[..|lw|] == lw;
    var full := Apply(d, lw);
    s := full[g.start := PutHeader(d[g.start], blocks)];
    SealedHeader(g, d, blocks, vals, full, s);
    SealedDisk(g, d, blocks, vals, full, s);
    CommitTail(g, d, blocks, vals, s);
    head := lw + [HeadWrite(g, d[g.start], blocks)];
    assert head[..|head| - 1] == lw;
  }

  lemma CommitBefore(g: Geometry, d: Disk, blocks: seq<int>, vals: seq<Block>, k: nat, cut: seq<Write>)
    requires ValidDisk(g, d) && Listed(g, d) == [] && Listable(g, |d|, blocks) && |vals| == |blocks|
    requires k <= |blocks| && cut == CommitWrites(g, d[g.start], blocks, vals)[..k]
    ensures InBounds(|d|, cut) && ValidDisk(g, Apply(d, cut)) && Listed(g, Apply(d, cut)) == []
    ensures HomeView(g, Apply(d, cut)) == HomeView(g, d)
  {
    CommitInterim(g, d, vals, k);
    assert cut == LogWrites(g, vals)[..k];
    FilledSame(g, d, vals, k, Apply(d, cut));
  }

  lemma CommitAfter(g: Geometry, d: Disk, blocks: seq<int>, vals: seq<Block>, k: nat, cut: seq<Write>)
    requires ValidDisk(g, d) && Listed(g, d) == [] && Listable(g, |d|, blocks) && |vals| == |blocks|
    requires |blocks| < k <= 2 * |blocks| + 2 && cut == CommitWrites(g, d[g.start], blocks, vals)[..k]
    ensures InBounds(|d|, cut) && ValidDisk(g, Apply(d, cut))
    ensures HomeView(g, Apply(d, cut)) == Overlay(HomeView(g, d), blocks, vals)
    ensures k == 2 * |blocks| + 2 ==> Listed(g, Apply(d, cut)) == []
  {
    var head, s := CommitSplit(g, d, blocks, vals);
    var j := k - |head|;
    RecoverPrefix(g, s, j);
    assert cut == head + RecoverWrites(g, s)[..j];
    ApplyConcat(d, head, RecoverWrites(g, s)[..j]);
  }

  /** A commit cut after any number of block writes: all old up to the header write, all new
      from it on; complete, the log is empty again. */
  lemma CommitPrefix(g: Geometry, d: Disk, blocks: seq<int>, vals: seq<Block>, k: nat, cut: seq<Write>)
    requires ValidDisk(g, d) && Listed(g, d) == [] && Listable(g, |d|, blocks) && |vals| == |blocks|
    requires k <= 2 * |blocks| + 2 && cut == CommitWrites(g, d[g.start], blocks, vals)[..k]
    ensures InBounds(|d|, cut) && ValidDisk(g, Apply(d, cut))
    ensures HomeView(g, Apply(d, cut))
         == if k <= |blocks| then HomeView(g, d) else Overlay(HomeView(g, d), blocks, vals)
    ensures k == 2 * |blocks| + 2 || k <= |blocks| ==> Listed(g, Apply(d, cut)) == []
  {
    if k <= |blocks| {
      CommitBefore(g, d, blocks, vals, k, cut);
    } else {
      CommitAfter(g, d, blocks, vals, k, cut);
    }
  }

  // ---------------------------------------------------------------- crashes

  /** Recovery attempts: each entry of `cuts` is a boot that crashed after that many block
      writes (or after all of them); then one boot that completes. */
  function Boots(g: Geometry, d: Disk, cuts: seq<nat>): (r: Disk)
    requires ValidDisk(g, d)
    ensures |r| == |d| && ValidDisk(g, r) && Listed(g, r) == []
    ensures HomeView(g, r) == HomeView(g, d)
    decreases |cuts|
  {
    var ws := RecoverWrites(g, d);
    if cuts == [] then
      RecoverPrefix(g, d, |ws|);
      assert ws[..|ws|] == ws;
      Apply(d, ws)
    else
      var k := if cuts[0] <= |ws| then cuts[0] else |ws|;
      RecoverPrefix(g, d, k);
      Boots(g, Apply(d, ws[..k]), cuts[1..])
  }

  /** Crash atomicity: a commit of `vals` to `blocks`, starting from an empty log, crashes
      after `k` block writes, any number of recoveries crash after that, and one completes.
      The home blocks are then all new if the header write had been done and all old if not,
      and they are in their home locations. */
  lemma CrashAtomicity(g: Geometry, d: Disk, blocks: seq<int>, vals: seq<Block>, k: nat, cuts: seq<nat>)
    requires ValidDisk(g, d) && Listed(g, d) == [] && Listable(g, |d|, blocks) && |vals| == |blocks|
    requires k <= |CommitWrites(g, d[g.start], blocks, vals)|
    ensures var cut := CommitWrites(g, d[g.start], blocks, vals)[..k];
      && InBounds(|d|, cut) && ValidDisk(g, Apply(d, cut))
      && var r := Boots(g, Apply(d, cut), cuts);
      && Listed(g, r) == []
      && forall b :: IsHome(g, |d|, b) ==>
           r[b] == if k > |blocks| && b in blocks then vals[IndexOf(blocks, b)] else d[b]
  {
    var cut := CommitWrites(g, d[g.start], blocks, vals)[..k];
    CommitPrefix(g, d, blocks, vals, k, cut);
    var r := Boots(g, Apply(d, cut), cuts);
    forall b | IsHome(g, |d|, b)
      ensures r[b] == if k > |blocks| && b in blocks then vals[IndexOf(blocks, b)] else d[b]
    {
      assert HomeView(g, r)[b] == r[b] && HomeView(g, d)[b] == d[b];
    }
  }
}
