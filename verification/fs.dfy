/** Inode contents and block allocation (kernel/fs.c, and filewrite of kernel/file.c).

    Blocks are 1024 bytes; an indirect block is 256 little-endian words.  `owner` is a ghost
    map from each allocated block to the one place that refers to it; `puts` lists what the
    transaction has passed to log_write. */
module FileSystem {
  import opened Sets

  const BSIZE: int := 1024
  const NDIRECT: int := 12
  const NINDIRECT: int := 256
  const MAXFILE: int := NDIRECT + NINDIRECT
  const BPB: int := 8192
  const MAXOPBLOCKS: int := 10
  const U32: int := 0x1_0000_0000

  type Block = seq<int>

  /** The words a program sees in a block, and a store into one. */
  function Word(b: Block, j: int): (x: int)
    requires |b| == BSIZE && 0 <= j < NINDIRECT
  {
    b[4 * j] + 256 * b[4 * j + 1] + 65536 * b[4 * j + 2] + 16777216 * b[4 * j + 3]
  }

  function SetWord(b: Block, j: int, x: int): (c: Block)
    requires |b| == BSIZE && 0 <= j < NINDIRECT
  {
    b[4 * j := x % 256][4 * j + 1 := x / 256 % 256][4 * j + 2 := x / 65536 % 256][4 * j + 3 := x / 16777216]
  }

  lemma Digits(x: int)
    ensures x == x % 256 + 256 * (x / 256 % 256) + 65536 * (x / 65536 % 256) + 16777216 * (x / 16777216)
  {
    assert x / 65536 == x / 256 / 256 && x / 16777216 == x / 65536 / 256;
  }

  lemma WordSet(b: Block, j: int, x: int, k: int)
    requires |b| == BSIZE && 0 <= j < NINDIRECT && 0 <= k < NINDIRECT
    ensures |SetWord(b, j, x)| == BSIZE && Word(SetWord(b, j, x), k) == if k == j then x else Word(b, k)
  {
    Digits(x);
  }

  function Zeros(): (z: Block)
    ensures |z| == BSIZE && forall i :: 0 <= i < BSIZE ==> z[i] == 0
  {
    seq(1024, i => 0)
  }

  // ---------------------------------------------------------------- inodes and references

  datatype Inode = Inode(addrs: seq<int>, size: int)
  const EMPTY: Inode := Inode([0, 0, 0, 0, 0, 0, 0, 0, 0, 0, 0, 0, 0], 0)
  type Inodes = map<int, Inode>
  type Data = seq<Block>

  /** The places that can refer to a block: addrs[i], or word j of the indirect block. */
  datatype Ref = Addr(inum: int, i: int) | Entry(inum: int, j: int)

  ghost predicate DataOk(data: Data) {
    forall b :: 0 <= b < |data| ==> |data[b]| == BSIZE
  }

  ghost predicate InodesOk(inodes: Inodes) {
    forall n :: n in inodes ==> |inodes[n].addrs| == NDIRECT + 1 && 0 <= inodes[n].size <= MAXFILE * BSIZE
  }

  ghost function Entries(inodes: Inodes, data: Data, n: int, j: int): (b: int)
  {
    if n in inodes && |inodes[n].addrs| == NDIRECT + 1 && 0 <= j < NINDIRECT then
      var t := inodes[n].addrs[NDIRECT];
      if 0 < t < |data| && |data[t]| == BSIZE then Word(data[t], j) else 0
    else 0
  }

  ghost function At(inodes: Inodes, data: Data, r: Ref): (b: int)
  {
    match r
    case Addr(n, i) => if n in inodes && 0 <= i < |inodes[n].addrs| then inodes[n].addrs[i] else 0
    case Entry(n, j) => Entries(inodes, data, n, j)
  }

  /** Where block bn of a file is recorded. */
  function Place(n: int, bn: int): (r: Ref) { if bn < NDIRECT then Addr(n, bn) else Entry(n, bn - NDIRECT) }

  /** Block bn of file n, 0 for none. */
  ghost function BlockAt(inodes: Inodes, data: Data, n: int, bn: int): (b: int) { At(inodes, data, Place(n, bn)) }

  /** Entries of a table that is being given back, no longer counted. */
  ghost function Dead(n: int, k: int): (s: set<Ref>) { set j | 0 <= j < k :: Entry(n, j) }

  /** Each reference owns its block, each owned block has its reference. */
  ghost predicate Owned(first: int, inodes: Inodes, data: Data, owner: map<int, Ref>, dead: set<Ref>) {
    && (forall r :: r !in dead && At(inodes, data, r) != 0 ==>
          At(inodes, data, r) in owner && owner[At(inodes, data, r)] == r)
    && (forall b :: b in owner ==> 0 < first <= b < |data| && owner[b] !in dead && At(inodes, data, owner[b]) == b)
  }

  /** The bitmap has a bit for the metadata and for each owned block, and for no other. */
  ghost predicate Mapped(first: int, used: seq<bool>, owner: map<int, Ref>) {
    && first > 0
    && forall b :: 0 <= b < |used| ==> (used[b] <==> b < first || b in owner)
  }

  /** Every block below the size of a file is there. */
  ghost predicate HoleFree(inodes: Inodes, data: Data) {
    forall n, bn :: n in inodes && 0 <= bn && bn * BSIZE < inodes[n].size ==> BlockAt(inodes, data, n, bn) != 0
  }

  ghost predicate Sound(first: int, used: seq<bool>, inodes: Inodes, data: Data, owner: map<int, Ref>, dead: set<Ref>) {
    && DataOk(data) && InodesOk(inodes) && |used| == |data| < U32
    && Owned(first, inodes, data, owner, dead) && Mapped(first, used, owner)
  }

  // ---------------------------------------------------------------- bytes

  ghost function Byte(inodes: Inodes, data: Data, n: int, bn: int, o: int): (x: int)
  {
    var b := BlockAt(inodes, data, n, bn);
    if 0 < b < |data| && 0 <= o < |data[b]| then data[b][o] else 0
  }

  /** The file as the bytes a user wrote. */
  ghost function Contents(inodes: Inodes, data: Data, n: int): (s: seq<int>)
    requires n in inodes && inodes[n].size >= 0
    ensures |s| == inodes[n].size
    ensures forall k :: 0 <= k < |s| ==> s[k] == Byte(inodes, data, n, k / 1024, k % 1024)
  {
    seq(inodes[n].size, k => Byte(inodes, data, n, k / 1024, k % 1024))
  }

  /** s with w in place of what was at off, longer if w reaches past its end. */
  function Splice(s: seq<int>, off: nat, w: seq<int>): (t: seq<int>)
    requires off <= |s|
    ensures |t| == if off + |w| > |s| then off + |w| else |s|
    ensures forall k :: 0 <= k < |t| ==> t[k] == if off <= k < off + |w| then w[k - off] else s[k]
  {
    s[..off] + w + if off + |w| < |s| then s[off + |w|..] else []
  }

  lemma SpliceTwice(s: seq<int>, off: nat, v: seq<int>, w: seq<int>)
    requires off <= |s|
    ensures Splice(Splice(s, off, v), off + |v|, w) == Splice(s, off, v + w)
  {
  }

  /** References only appear; the files' sizes stay. */
  ghost predicate Grows(i0: Inodes, d0: Data, i1: Inodes, d1: Data) {
    && |d1| == |d0| && i1.Keys == i0.Keys && (forall n :: n in i0 ==> i1[n].size == i0[n].size)
    && (forall r :: At(i0, d0, r) != 0 ==> At(i1, d1, r) == At(i0, d0, r))
  }

  /** Bytes of mapped blocks stay, except those from lo to hi of file n. */
  ghost predicate KeepsBytes(i0: Inodes, d0: Data, i1: Inodes, d1: Data, n: int, lo: int, hi: int) {
    forall m, bn, o ::
      0 <= bn < MAXFILE && 0 <= o < BSIZE && BlockAt(i0, d0, m, bn) != 0 && !(m == n && lo <= bn * BSIZE + o < hi) ==>
        Byte(i1, d1, m, bn, o) == Byte(i0, d0, m, bn, o)
  }

  lemma GrowsTrans(i0: Inodes, d0: Data, i1: Inodes, d1: Data, i2: Inodes, d2: Data)
    requires Grows(i0, d0, i1, d1) && Grows(i1, d1, i2, d2)
    ensures Grows(i0, d0, i2, d2)
  {
  }

  lemma KeepsTrans(i0: Inodes, d0: Data, i1: Inodes, d1: Data, i2: Inodes, d2: Data, n: int, lo: int, mid: int, hi: int)
    requires Grows(i0, d0, i1, d1) && lo <= mid <= hi
    requires KeepsBytes(i0, d0, i1, d1, n, lo, mid) && KeepsBytes(i1, d1, i2, d2, n, mid, hi)
    ensures KeepsBytes(i0, d0, i2, d2, n, lo, hi)
  {
    forall m, bn, o | 0 <= bn < MAXFILE && 0 <= o < BSIZE && BlockAt(i0, d0, m, bn) != 0
      && !(m == n && lo <= bn * BSIZE + o < hi)
      ensures Byte(i2, d2, m, bn, o) == Byte(i0, d0, m, bn, o)
    {
      assert At(i1, d1, Place(m, bn)) != 0;
      assert Byte(i1, d1, m, bn, o) == Byte(i0, d0, m, bn, o);
    }
  }

  lemma GrowsHoleFree(i0: Inodes, d0: Data, i1: Inodes, d1: Data)
    requires Grows(i0, d0, i1, d1) && HoleFree(i0, d0)
    ensures HoleFree(i1, d1)
  {
    forall n, bn | n in i1 && 0 <= bn && bn * BSIZE < i1[n].size ensures BlockAt(i1, d1, n, bn) != 0 {
      assert BlockAt(i0, d0, n, bn) != 0;
      assert At(i0, d0, Place(n, bn)) != 0;
    }
  }

  /** The other files are what they were. */
  lemma OtherContents(i0: Inodes, d0: Data, i1: Inodes, d1: Data, n: int, lo: int, hi: int, m: int)
    requires KeepsBytes(i0, d0, i1, d1, n, lo, hi) && HoleFree(i0, d0) && InodesOk(i0)
    requires m in i0 && m in i1 && i1[m].size == i0[m].size && m != n
    ensures Contents(i1, d1, m) == Contents(i0, d0, m)
  {
    forall k | 0 <= k < i0[m].size ensures Contents(i1, d1, m)[k] == Contents(i0, d0, m)[k] {
      var bn, o := k / 1024, k % 1024;
      assert BlockAt(i0, d0, m, bn) != 0;
      assert Byte(i1, d1, m, bn, o) == Byte(i0, d0, m, bn, o);
    }
  }

  // ---------------------------------------------------------------- a new block

  /** balloc's block b becomes addrs[i] of file n, zeroed. */
  lemma NewAddr(first: int, used: seq<bool>, inodes: Inodes, data: Data, owner: map<int, Ref>, n: int, i: int, b: int)
    requires Sound(first, used, inodes, data, owner, {}) && n in inodes && 0 <= i <= NDIRECT && inodes[n].addrs[i] == 0
    requires 0 <= b < |used| && !used[b]
    ensures var inodes', data' := inodes[n := inodes[n].(addrs := inodes[n].addrs[i := b])], data[b := Zeros()];
      && Sound(first, used[b := true], inodes', data', owner[b := Addr(n, i)], {})
      && Grows(inodes, data, inodes', data')
      && (forall r :: r != Addr(n, i) ==> At(inodes', data', r) == At(inodes, data, r))
      && forall m, lo, hi :: KeepsBytes(inodes, data, inodes', data', m, lo, hi)
  {
    var inodes', data', owner' := inodes[n := inodes[n].(addrs := inodes[n].addrs[i := b])], data[b := Zeros()],
                                  owner[b := Addr(n, i)];
    assert b !in owner && b >= first;
    forall r | r != Addr(n, i) ensures At(inodes', data', r) == At(inodes, data, r) {
      NewAddrAt(first, used, inodes, data, owner, n, i, b, r);
    }
    forall r ensures At(inodes, data, r) != b {}
    NewBytes(inodes, data, inodes', data', b);
  }

  lemma NewAddrAt(first: int, used: seq<bool>, inodes: Inodes, data: Data, owner: map<int, Ref>, n: int, i: int, b: int,
                  r: Ref)
    requires Sound(first, used, inodes, data, owner, {}) && n in inodes && 0 <= i <= NDIRECT && inodes[n].addrs[i] == 0
    requires 0 <= b < |used| && !used[b] && r != Addr(n, i)
    ensures At(inodes[n := inodes[n].(addrs := inodes[n].addrs[i := b])], data[b := Zeros()], r) == At(inodes, data, r)
  {
    if r.Entry? && r.inum in inodes {
      assert At(inodes, data, Addr(r.inum, NDIRECT)) != b;
    }
  }

  /** Where references keep their value and one block of no file changes, all bytes stay. */
  lemma NewBytes(i0: Inodes, d0: Data, i1: Inodes, d1: Data, b: int)
    requires Grows(i0, d0, i1, d1) && 0 <= b < |d0| && (forall r :: At(i0, d0, r) != b)
    requires forall c :: 0 <= c < |d0| && c != b ==> d1[c] == d0[c]
    ensures forall m, lo, hi :: KeepsBytes(i0, d0, i1, d1, m, lo, hi)
  {
    forall m, bn, o | BlockAt(i0, d0, m, bn) != 0 ensures Byte(i1, d1, m, bn, o) == Byte(i0, d0, m, bn, o) {
      assert At(i0, d0, Place(m, bn)) != b;
    }
  }

  /** balloc's block b becomes word j of the indirect block t of file n. */
  lemma NewEntry(first: int, used: seq<bool>, inodes: Inodes, data: Data, owner: map<int, Ref>, n: int, j: int, b: int)
    requires Sound(first, used, inodes, data, owner, {}) && n in inodes && 0 <= j < NINDIRECT
    requires var t := inodes[n].addrs[NDIRECT]; 0 < t < |data| && Word(data[t], j) == 0
    requires 0 <= b < |used| && !used[b]
    ensures var t := inodes[n].addrs[NDIRECT]; var data' := data[b := Zeros()][t := SetWord(data[t], j, b)];
      && t != b && Sound(first, used[b := true], inodes, data', owner[b := Entry(n, j)], {})
      && Grows(inodes, data, inodes, data')
      && (forall r :: At(inodes, data', r) == if r == Entry(n, j) then b else At(inodes, data, r))
      && forall m, lo, hi :: KeepsBytes(inodes, data, inodes, data', m, lo, hi)
  {
    var t := inodes[n].addrs[NDIRECT];
    assert At(inodes, data, Addr(n, NDIRECT)) == t;
    assert b !in owner && b >= first;
    var data' := data[b := Zeros()][t := SetWord(data[t], j, b)];
    WordSet(data[t], j, b, j);
    forall r ensures At(inodes, data', r) == if r == Entry(n, j) then b else At(inodes, data, r) {
      NewEntryAt(first, used, inodes, data, owner, n, j, b, r);
    }
    forall r ensures At(inodes, data, r) != b {}
    forall m, bn, o | 0 <= bn < MAXFILE && BlockAt(inodes, data, m, bn) != 0
      ensures Byte(inodes, data', m, bn, o) == Byte(inodes, data, m, bn, o)
    {
      assert At(inodes, data, Place(m, bn)) != b && At(inodes, data, Place(m, bn)) != t;
    }
  }

  lemma NewEntryAt(first: int, used: seq<bool>, inodes: Inodes, data: Data, owner: map<int, Ref>, n: int, j: int,
                   b: int, r: Ref)
    requires Sound(first, used, inodes, data, owner, {}) && n in inodes && 0 <= j < NINDIRECT
    requires var t := inodes[n].addrs[NDIRECT]; 0 < t < |data| && Word(data[t], j) == 0
    requires 0 <= b < |used| && !used[b]
    ensures var t := inodes[n].addrs[NDIRECT];
      At(inodes, data[b := Zeros()][t := SetWord(data[t], j, b)], r) ==
        if r == Entry(n, j) then b else At(inodes, data, r)
  {
    var t := inodes[n].addrs[NDIRECT];
    assert At(inodes, data, Addr(n, NDIRECT)) == t;
    if r.Entry? && r.inum in inodes && 0 <= r.j < NINDIRECT {
      var u := inodes[r.inum].addrs[NDIRECT];
      assert At(inodes, data, Addr(r.inum, NDIRECT)) == u;
      WordSet(data[t], j, b, r.j);
      assert u != 0 ==> u in owner && owner[u] == Addr(r.inum, NDIRECT);
    }
  }

  // ---------------------------------------------------------------- writing a data block

  /** Part of block bn of file n changes: bytes o .. o+|w|. */
  lemma WriteBlock(first: int, used: seq<bool>, inodes: Inodes, data: Data, owner: map<int, Ref>, n: int, bn: int,
                   o: int, w: seq<int>)
    requires Sound(first, used, inodes, data, owner, {}) && n in inodes && 0 <= bn < MAXFILE && 0 <= o
    requires o + |w| <= BSIZE
    requires BlockAt(inodes, data, n, bn) != 0
    ensures var b := BlockAt(inodes, data, n, bn);
      && 0 < b < |data|
      && var data' := data[b := Splice(data[b], o, w)];
      && Sound(first, used, inodes, data', owner, {}) && Grows(inodes, data, inodes, data')
      && (forall r :: At(inodes, data', r) == At(inodes, data, r))
      && KeepsBytes(inodes, data, inodes, data', n, bn * BSIZE + o, bn * BSIZE + o + |w|)
      && forall k :: o <= k < o + |w| ==> Byte(inodes, data', n, bn, k) == w[k - o]
  {
    var b := BlockAt(inodes, data, n, bn);
    assert At(inodes, data, Place(n, bn)) == b;
    var data' := data[b := Splice(data[b], o, w)];
    forall r ensures At(inodes, data', r) == At(inodes, data, r) {
      if r.Entry? && r.inum in inodes { assert At(inodes, data, Addr(r.inum, NDIRECT)) != b; }
    }
    forall m, c, k | 0 <= c < MAXFILE && 0 <= k < BSIZE && BlockAt(inodes, data, m, c) != 0
      && !(m == n && bn * BSIZE + o <= c * BSIZE + k < bn * BSIZE + o + |w|)
      ensures Byte(inodes, data', m, c, k) == Byte(inodes, data, m, c, k)
    {
      if At(inodes, data, Place(m, c)) == b { assert Place(m, c) == Place(n, bn); }
    }
  }

  // ---------------------------------------------------------------- giving blocks back

  lemma DropAddr(first: int, used: seq<bool>, inodes: Inodes, data: Data, owner: map<int, Ref>, n: int, i: int)
    requires Sound(first, used, inodes, data, owner, {}) && n in inodes && 0 <= i < NDIRECT && inodes[n].addrs[i] != 0
    ensures var b := inodes[n].addrs[i]; var inodes' := inodes[n := inodes[n].(addrs := inodes[n].addrs[i := 0])];
      && 0 <= b < |used| && used[b] && b in owner && owner[b] == Addr(n, i)
      && Sound(first, used[b := false], inodes', data, owner - {b}, {})
      && forall r :: At(inodes', data, r) == if r == Addr(n, i) then 0 else At(inodes, data, r)
  {
    var b := inodes[n].addrs[i];
    assert At(inodes, data, Addr(n, i)) == b;
    var inodes' := inodes[n := inodes[n].(addrs := inodes[n].addrs[i := 0])];
    forall r ensures At(inodes', data, r) == if r == Addr(n, i) then 0 else At(inodes, data, r) {}
  }

  lemma DropEntry(first: int, used: seq<bool>, inodes: Inodes, data: Data, owner: map<int, Ref>, n: int, j: int)
    requires Sound(first, used, inodes, data, owner, Dead(n, j)) && 0 <= j
    requires Entries(inodes, data, n, j) != 0
    ensures var b := Entries(inodes, data, n, j);
      && 0 <= b < |used| && used[b] && b in owner && owner[b] == Entry(n, j)
      && Sound(first, used[b := false], inodes, data, owner - {b}, Dead(n, j + 1))
  {
    var b := At(inodes, data, Entry(n, j));
    assert Entry(n, j) !in Dead(n, j);
    assert Dead(n, j + 1) == Dead(n, j) + {Entry(n, j)};
  }

  lemma SkipEntry(first: int, used: seq<bool>, inodes: Inodes, data: Data, owner: map<int, Ref>, n: int, j: int)
    requires Sound(first, used, inodes, data, owner, Dead(n, j)) && 0 <= j
    requires Entries(inodes, data, n, j) == 0
    ensures Sound(first, used, inodes, data, owner, Dead(n, j + 1))
  {
    assert At(inodes, data, Entry(n, j)) == 0;
    assert Dead(n, j + 1) == Dead(n, j) + {Entry(n, j)};
  }

  lemma DropTable(first: int, used: seq<bool>, inodes: Inodes, data: Data, owner: map<int, Ref>, n: int)
    requires Sound(first, used, inodes, data, owner, Dead(n, NINDIRECT)) && n in inodes && inodes[n].addrs[NDIRECT] != 0
    ensures var b := inodes[n].addrs[NDIRECT];
      var inodes' := inodes[n := inodes[n].(addrs := inodes[n].addrs[NDIRECT := 0])];
      && 0 <= b < |used| && used[b] && b in owner && owner[b] == Addr(n, NDIRECT)
      && Sound(first, used[b := false], inodes', data, owner - {b}, {})
      && forall r :: At(inodes', data, r) ==
          if r == Addr(n, NDIRECT) || (r.Entry? && r.inum == n) then 0 else At(inodes, data, r)
  {
    var b := inodes[n].addrs[NDIRECT];
    assert At(inodes, data, Addr(n, NDIRECT)) == b;
    var inodes' := inodes[n := inodes[n].(addrs := inodes[n].addrs[NDIRECT := 0])];
    forall r
      ensures At(inodes', data, r) ==
        if r == Addr(n, NDIRECT) || (r.Entry? && r.inum == n) then 0 else At(inodes, data, r)
    {
    }
    forall r | At(inodes', data, r) != 0 ensures r !in Dead(n, NINDIRECT) {}
    forall c | c in owner - {b} ensures owner[c] != Addr(n, NDIRECT) && !(owner[c].Entry? && owner[c].inum == n) {
      assert At(inodes, data, owner[c]) == c;
    }
  }

  // ---------------------------------------------------------------- the file system

  /** The bitmap and the ownership without the blocks of the given references. */
  ghost predicate Without(used0: seq<bool>, owner0: map<int, Ref>, gone: set<Ref>, used: seq<bool>,
                          owner: map<int, Ref>) {
    && |used| == |used0|
    && (forall b :: b in owner <==> b in owner0 && owner0[b] !in gone)
    && (forall b :: b in owner ==> owner[b] == owner0[b])
    && (forall b :: 0 <= b < |used| ==> (used[b] <==> used0[b] && !(b in owner0 && owner0[b] in gone)))
  }

  lemma WithoutMore(used0: seq<bool>, owner0: map<int, Ref>, gone: set<Ref>, used: seq<bool>, owner: map<int, Ref>,
                    b: int, r: Ref)
    requires Without(used0, owner0, gone, used, owner) && 0 <= b < |used| && b in owner && owner[b] == r
    requires forall c :: c in owner && owner[c] == r ==> c == b
    ensures Without(used0, owner0, gone + {r}, used[b := false], owner - {b})
  {
  }

  lemma WithoutSkip(used0: seq<bool>, owner0: map<int, Ref>, gone: set<Ref>, used: seq<bool>, owner: map<int, Ref>,
                    r: Ref)
    requires Without(used0, owner0, gone, used, owner) && forall c :: c in owner ==> owner[c] != r
    ensures Without(used0, owner0, gone + {r}, used, owner)
  {
  }

  /** BBLOCK. */
  function BitBlock(bmapstart: int, b: int): (n: int) { b / 8192 + bmapstart }

  // ---------------------------------------------------------------- the disk

  /** Inode blocks, then the bitmap, then the blocks of files; the log lies before them. */
  datatype Layout = Layout(inodestart: int, bmapstart: int, first: int)

  ghost predicate LaidOut(lay: Layout, size: int, inodes: Inodes) {
    && 0 <= lay.inodestart <= lay.bmapstart && lay.bmapstart + size / 8192 < lay.first <= size
    && forall n :: n in inodes ==> 0 <= n && lay.inodestart + n / 16 < lay.bmapstart
  }

  /** A block of the bitmap as its bits, a block of inodes as the fields of its 16 inodes. */
  function BitsOf(used: seq<bool>, k: int): (v: Block)
    requires k >= 0
  {
    seq(8192, i requires 0 <= i < 8192 => if 8192 * k + i < |used| && used[8192 * k + i] then 1 else 0)
  }

  function FieldOf(dinodes: Inodes, n: int, j: int): (x: int)
  {
    if n in dinodes && 0 <= j <= |dinodes[n].addrs| then
      if j == 0 then dinodes[n].size else dinodes[n].addrs[j - 1]
    else 0
  }

  function InodesOf(dinodes: Inodes, k: int): (v: Block)
  {
    seq(224, i requires 0 <= i < 224 => FieldOf(dinodes, 16 * k + i / 14, i % 14))
  }

  function BlockOf(lay: Layout, used: seq<bool>, dinodes: Inodes, data: Data, b: int): (v: Block)
    requires 0 <= lay.inodestart <= b < |data|
  {
    if b >= lay.first then data[b]
    else if b >= lay.bmapstart then BitsOf(used, b - lay.bmapstart)
    else InodesOf(dinodes, b - lay.inodestart)
  }

  /** What the buffer cache shows of the file system's blocks. */
  function Image(lay: Layout, used: seq<bool>, dinodes: Inodes, data: Data): (m: map<int, Block>)
    requires 0 <= lay.inodestart
  {
    map b | lay.inodestart <= b < |data| :: BlockOf(lay, used, dinodes, data, b)
  }

  /** A call of log_write, with what the block holds then. */
  datatype Put = Put(b: int, v: Block)

  function Logged(puts: seq<Put>): (bs: set<int>) { set q | q in puts :: q.b }

  function Apply(m: map<int, Block>, puts: seq<Put>): (r: map<int, Block>)
  {
    if puts == [] then m else Apply(m, puts[..|puts| - 1])[puts[|puts| - 1].b := puts[|puts| - 1].v]
  }

  /** All that changed on the way from m0 to m1 was passed to log_write since p0. */
  ghost predicate Traced(m0: map<int, Block>, p0: seq<Put>, m1: map<int, Block>, p1: seq<Put>) {
    |p0| <= |p1| && p1[..|p0|] == p0 && Apply(m0, p1[|p0|..]) == m1
  }

  lemma LoggedMore(puts: seq<Put>, b: int, v: Block)
    ensures Logged(puts + [Put(b, v)]) == Logged(puts) + {b}
  {
    var more := puts + [Put(b, v)];
    assert more[|puts|] == Put(b, v);
    forall q | q in puts ensures q in more { var i :| 0 <= i < |puts| && puts[i] == q; assert more[i] == q; }
  }

  lemma LoggedNone()
    ensures Logged([]) == {}
  {
  }

  lemma TracedAll(m0: map<int, Block>, m1: map<int, Block>, puts: seq<Put>)
    requires Traced(m0, [], m1, puts)
    ensures Apply(m0, puts) == m1
  {
    assert puts[0..] == puts;
  }

  lemma TracedNone(m: map<int, Block>, puts: seq<Put>)
    ensures Traced(m, puts, m, puts)
  {
    assert puts[|puts|..] == [];
  }

  lemma TracedOne(m0: map<int, Block>, p0: seq<Put>, m1: map<int, Block>, p1: seq<Put>, b: int, v: Block)
    requires Traced(m0, p0, m1, p1)
    ensures Traced(m0, p0, m1[b := v], p1 + [Put(b, v)])
  {
    var more := (p1 + [Put(b, v)])[|p0|..];
    assert more == p1[|p0|..] + [Put(b, v)];
    assert more[..|more| - 1] == p1[|p0|..];
  }

  lemma {:induction false} ApplyBoth(m: map<int, Block>, a: seq<Put>, b: seq<Put>)
    ensures Apply(m, a + b) == Apply(Apply(m, a), b)
    decreases |b|
  {
    if b == [] {
      assert a + b == a;
    } else {
      var c := b[..|b| - 1];
      ApplyBoth(m, a, c);
      assert (a + b)[..|a + b| - 1] == a + c;
    }
  }

  lemma TracedTrans(m0: map<int, Block>, p0: seq<Put>, m1: map<int, Block>, p1: seq<Put>, m2: map<int, Block>,
                    p2: seq<Put>)
    requires Traced(m0, p0, m1, p1) && Traced(m1, p1, m2, p2)
    ensures Traced(m0, p0, m2, p2)
  {
    ApplyBoth(m0, p1[|p0|..], p2[|p1|..]);
    assert p2[|p0|..] == p1[|p0|..] + p2[|p1|..];
  }

  lemma BitChanges(lay: Layout, used: seq<bool>, dinodes: Inodes, data: Data, c: int, x: bool)
    requires 0 <= lay.inodestart <= lay.bmapstart && lay.bmapstart + |data| / 8192 < lay.first <= |data|
    requires 0 <= c < |used| == |data|
    ensures var used' := used[c := x];
      Image(lay, used', dinodes, data)
        == Image(lay, used, dinodes, data)[BitBlock(lay.bmapstart, c) := BitsOf(used', c / 8192)]
  {
    var used', at := used[c := x], BitBlock(lay.bmapstart, c);
    assert c / 8192 <= |data| / 8192;
    forall b | lay.inodestart <= b < |data| && b != at
      ensures BlockOf(lay, used', dinodes, data, b) == BlockOf(lay, used, dinodes, data, b)
    {
      if lay.bmapstart <= b < lay.first { OtherBits(used, c, x, b - lay.bmapstart); }
    }
  }

  lemma OtherBits(used: seq<bool>, c: int, x: bool, k: int)
    requires 0 <= c < |used| && 0 <= k != c / 8192
    ensures BitsOf(used[c := x], k) == BitsOf(used, k)
  {
  }

  lemma DataChanges(lay: Layout, used: seq<bool>, dinodes: Inodes, data: Data, b: int, v: Block)
    requires 0 <= lay.inodestart <= lay.first <= b < |data|
    ensures Image(lay, used, dinodes, data[b := v]) == Image(lay, used, dinodes, data)[b := v]
  {
  }

  lemma InodeChanges(lay: Layout, used: seq<bool>, dinodes: Inodes, data: Data, n: int, x: Inode)
    requires 0 <= lay.inodestart && 0 <= n && lay.inodestart + n / 16 < lay.bmapstart <= lay.first <= |data|
    ensures var dinodes' := dinodes[n := x];
      Image(lay, used, dinodes', data)
        == Image(lay, used, dinodes, data)[n / 16 + lay.inodestart := InodesOf(dinodes', n / 16)]
  {
    var dinodes', at := dinodes[n := x], n / 16 + lay.inodestart;
    forall b | lay.inodestart <= b < |data| && b != at
      ensures BlockOf(lay, used, dinodes', data, b) == BlockOf(lay, used, dinodes, data, b)
    {
      if b < lay.bmapstart && b < lay.first { OtherInodes(dinodes, n, x, b - lay.inodestart); }
    }
  }

  lemma OtherInodes(dinodes: Inodes, n: int, x: Inode, k: int)
    requires 0 <= n && k != n / 16
    ensures InodesOf(dinodes[n := x], k) == InodesOf(dinodes, k)
  {
    forall i | 0 <= i < 224 ensures 16 * k + i / 14 != n { Sixteen(n, k, i); }
  }

  lemma Sixteen(n: int, k: int, i: int)
    requires 0 <= i < 224 && k != n / 16
    ensures 16 * k + i / 14 != n
  {
    assert 0 <= i / 14 < 16;
  }

  /** The blocks on disk determine the bitmap, the inodes and the blocks of files. */
  lemma ImageDetermines(lay: Layout, u1: seq<bool>, i1: Inodes, d1: Data, u2: seq<bool>, i2: Inodes, d2: Data)
    requires LaidOut(lay, |d1|, i1) && LaidOut(lay, |d1|, i2) && |u1| == |u2| == |d1| == |d2| && InodesOk(i1)
    requires InodesOk(i2)
    requires i1.Keys == i2.Keys && Image(lay, u1, i1, d1) == Image(lay, u2, i2, d2)
    ensures u1 == u2 && i1 == i2 && d1[lay.first..] == d2[lay.first..]
  {
    var m1, m2 := Image(lay, u1, i1, d1), Image(lay, u2, i2, d2);
    forall b | lay.first <= b < |d1| ensures d1[b] == d2[b] {
      assert m1[b] == d1[b] && m2[b] == d2[b];
    }
    forall c | 0 <= c < |u1| ensures u1[c] == u2[c] {
      var b := BitBlock(lay.bmapstart, c);
      assert c / 8192 <= |d1| / 8192;
      assert m1[b] == BitsOf(u1, c / 8192) && m2[b] == BitsOf(u2, c / 8192);
      assert BitsOf(u1, c / 8192)[c % 8192] == BitsOf(u2, c / 8192)[c % 8192];
    }
    forall n | n in i1 ensures i1[n] == i2[n] { InodeDetermined(lay, u1, i1, d1, u2, i2, d2, n); }
  }

  lemma InodeDetermined(lay: Layout, u1: seq<bool>, i1: Inodes, d1: Data, u2: seq<bool>, i2: Inodes, d2: Data, n: int)
    requires LaidOut(lay, |d1|, i1) && |d1| == |d2| && InodesOk(i1) && InodesOk(i2) && n in i1 && n in i2
    requires Image(lay, u1, i1, d1) == Image(lay, u2, i2, d2)
    ensures i1[n] == i2[n]
  {
    var b, k := n / 16 + lay.inodestart, n / 16;
    assert Image(lay, u1, i1, d1)[b] == InodesOf(i1, k) && Image(lay, u2, i2, d2)[b] == InodesOf(i2, k);
    forall j | 0 <= j < 14 ensures FieldOf(i1, n, j) == FieldOf(i2, n, j) {
      var i := n % 16 * 14 + j;
      FieldAt(n, j);
      assert InodesOf(i1, k)[i] == InodesOf(i2, k)[i];
    }
    assert FieldOf(i1, n, 0) == i1[n].size && FieldOf(i2, n, 0) == i2[n].size;
    forall j | 0 <= j < 13 ensures i1[n].addrs[j] == i2[n].addrs[j] {
      assert FieldOf(i1, n, j + 1) == FieldOf(i2, n, j + 1);
    }
  }

  lemma FieldAt(n: int, j: int)
    requires 0 <= j < 14
    ensures var i := n % 16 * 14 + j; 0 <= i < 224 && i / 14 == n % 16 && i % 14 == j && 16 * (n / 16) + i / 14 == n
  {
  }

  /** Block bn has one of the bytes off .. off+n. */
  predicate Overlaps(off: int, n: int, bn: int) { n > 0 && off < bn * BSIZE + BSIZE && bn * BSIZE < off + n }

  /** What a writei at `off` that has written w has done so far. */
  ghost predicate Written(i0: Inodes, d0: Data, i1: Inodes, d1: Data, n: int, off: int, w: seq<int>) {
    && Grows(i0, d0, i1, d1) && KeepsBytes(i0, d0, i1, d1, n, off, off + |w|)
    && (forall bn :: 0 <= bn < MAXFILE && Overlaps(off, |w|, bn) ==> BlockAt(i1, d1, n, bn) != 0)
    && (forall bn, o :: 0 <= bn < MAXFILE && 0 <= o < BSIZE && off <= bn * BSIZE + o < off + |w| ==>
          Byte(i1, d1, n, bn, o) == w[bn * BSIZE + o - off])
  }

  lemma WrittenMore(i0: Inodes, d0: Data, i1: Inodes, d1: Data, i2: Inodes, d2: Data, n: int, off: int, w: seq<int>,
                    v: seq<int>, bn: int, o: int)
    requires Written(i0, d0, i1, d1, n, off, w) && Grows(i1, d1, i2, d2) && (v != [] ==> BlockAt(i2, d2, n, bn) != 0)
    requires 0 <= bn && 0 <= o && bn * BSIZE + o == off + |w| && o + |v| <= BSIZE
    requires KeepsBytes(i1, d1, i2, d2, n, off + |w|, off + |w| + |v|)
    requires forall k :: o <= k < o + |v| ==> Byte(i2, d2, n, bn, k) == v[k - o]
    ensures Written(i0, d0, i2, d2, n, off, w + v)
  {
    GrowsTrans(i0, d0, i1, d1, i2, d2);
    KeepsTrans(i0, d0, i1, d1, i2, d2, n, off, off + |w|, off + |w| + |v|);
    forall c | 0 <= c < MAXFILE && Overlaps(off, |w + v|, c) ensures BlockAt(i2, d2, n, c) != 0 {
      if c != bn {
        assert BlockAt(i1, d1, n, c) != 0;
        assert At(i1, d1, Place(n, c)) != 0;
      } else if v == [] {
        assert BlockAt(i1, d1, n, c) != 0;
        assert At(i1, d1, Place(n, c)) != 0;
      }
    }
    forall c, k | 0 <= c < MAXFILE && 0 <= k < BSIZE && off <= c * BSIZE + k < off + |w + v|
      ensures Byte(i2, d2, n, c, k) == (w + v)[c * BSIZE + k - off]
    {
      if c * BSIZE + k < off + |w| {
        assert Byte(i1, d1, n, c, k) == w[c * BSIZE + k - off];
        assert BlockAt(i1, d1, n, c) != 0;
        assert Byte(i2, d2, n, c, k) == Byte(i1, d1, n, c, k);
      } else {
        assert c == bn;
      }
    }
  }

  lemma WrittenNone(i0: Inodes, d0: Data, n: int, off: int)
    ensures Written(i0, d0, i0, d0, n, off, [])
  {
  }

  /** ip->size = off + tot where that is larger. */
  function Resize(inodes: Inodes, n: int, end: int): (i: Inodes)
    requires n in inodes
  {
    if end > inodes[n].size then inodes[n := inodes[n].(size := end)] else inodes
  }

  lemma ResizeAt(inodes: Inodes, data: Data, n: int, end: int, r: Ref)
    requires n in inodes
    ensures At(Resize(inodes, n, end), data, r) == At(inodes, data, r)
  {
  }

  lemma ResizeSound(first: int, used: seq<bool>, inodes: Inodes, data: Data, owner: map<int, Ref>, n: int, end: int)
    requires Sound(first, used, inodes, data, owner, {}) && n in inodes && end <= MAXFILE * BSIZE
    ensures Sound(first, used, Resize(inodes, n, end), data, owner, {})
  {
    forall r ensures At(Resize(inodes, n, end), data, r) == At(inodes, data, r) { ResizeAt(inodes, data, n, end, r); }
  }

  lemma WrittenHoleFree(i0: Inodes, d0: Data, i1: Inodes, d1: Data, n: int, off: int, w: seq<int>)
    requires Written(i0, d0, i1, d1, n, off, w) && HoleFree(i0, d0) && n in i0 && 0 <= off <= i0[n].size && InodesOk(i0)
    requires off + |w| <= MAXFILE * BSIZE
    ensures HoleFree(Resize(i1, n, off + |w|), d1)
  {
    var i2 := Resize(i1, n, off + |w|);
    forall m, bn | m in i2 && 0 <= bn && bn * BSIZE < i2[m].size ensures BlockAt(i2, d1, m, bn) != 0 {
      ResizeAt(i1, d1, n, off + |w|, Place(m, bn));
      if bn * BSIZE < i0[m].size {
        assert BlockAt(i0, d0, m, bn) != 0;
        assert At(i0, d0, Place(m, bn)) != 0;
      } else {
        assert BlockAt(i1, d1, n, bn) != 0;
      }
    }
  }

  lemma WrittenContents(i0: Inodes, d0: Data, i1: Inodes, d1: Data, n: int, off: int, w: seq<int>)
    requires Written(i0, d0, i1, d1, n, off, w) && HoleFree(i0, d0) && n in i0 && 0 <= off <= i0[n].size && InodesOk(i0)
    requires off + |w| <= MAXFILE * BSIZE
    ensures n in i1 && i0[n].size >= 0
    ensures Contents(Resize(i1, n, off + |w|), d1, n) == Splice(Contents(i0, d0, n), off, w)
  {
    var i2, s := Resize(i1, n, off + |w|), Contents(i0, d0, n);
    forall k | 0 <= k < i2[n].size ensures Contents(i2, d1, n)[k] == Splice(s, off, w)[k] {
      var bn, o := k / 1024, k % 1024;
      ResizeAt(i1, d1, n, off + |w|, Place(n, bn));
      if off <= k < off + |w| {
        assert Byte(i1, d1, n, bn, o) == w[bn * BSIZE + o - off];
      } else {
        assert BlockAt(i0, d0, n, bn) != 0;
        assert Byte(i1, d1, n, bn, o) == Byte(i0, d0, n, bn, o);
      }
    }
  }

  lemma WrittenOthers(i0: Inodes, d0: Data, i1: Inodes, d1: Data, n: int, off: int, w: seq<int>, m: int)
    requires Written(i0, d0, i1, d1, n, off, w) && HoleFree(i0, d0) && InodesOk(i0) && InodesOk(i1) && n in i0
    requires m in i0 && m != n
    ensures m in i1 && i0[m].size >= 0 && i1[m].size >= 0
    ensures Contents(Resize(i1, n, off + |w|), d1, m) == Contents(i0, d0, m)
  {
    OtherContents(i0, d0, i1, d1, n, off, off + |w|, m);
    var i2 := Resize(i1, n, off + |w|);
    forall k | 0 <= k < i0[m].size ensures Contents(i2, d1, m)[k] == Contents(i1, d1, m)[k] {
      ResizeAt(i1, d1, n, off + |w|, Place(m, k / 1024));
    }
  }

  /** Block b is logged on account of reference r: it is r's block, or the bitmap block with the
      bit of r's block and r is new. */
  ghost predicate Touches(bmapstart: int, i0: Inodes, d0: Data, i1: Inodes, d1: Data, r: Ref, b: int) {
    At(i1, d1, r) != 0 && (b == At(i1, d1, r) || (At(i0, d0, r) == 0 && b == BitBlock(bmapstart, At(i1, d1, r))))
  }

  /** The blocks one writei may log: the inode's, those of the indirect block and those of the
      data blocks in its range. */
  ghost predicate MayLog(bmapstart: int, iblock: int, i0: Inodes, d0: Data, i1: Inodes, d1: Data, n: int, off: int,
                         cnt: int, b: int) {
    || b == iblock || Touches(bmapstart, i0, d0, i1, d1, Addr(n, NDIRECT), b)
    || exists bn :: off / 1024 <= bn < (off + cnt + 1023) / 1024 && Touches(bmapstart, i0, d0, i1, d1, Place(n, bn), b)
  }

  ghost predicate LogOk(logged0: set<int>, logged: set<int>, bmapstart: int, iblock: int, i0: Inodes, d0: Data,
                        i1: Inodes, d1: Data, n: int, off: int, cnt: int) {
    forall b :: b in logged ==> b in logged0 || MayLog(bmapstart, iblock, i0, d0, i1, d1, n, off, cnt, b)
  }

  /** What one bmap logs. */
  ghost predicate BmapLogs(l0: set<int>, l1: set<int>, bmapstart: int, i0: Inodes, d0: Data, i1: Inodes, d1: Data,
                           n: int, bn: int) {
    forall b :: b in l1 ==>
      b in l0 || Touches(bmapstart, i0, d0, i1, d1, Addr(n, NDIRECT), b)
        || Touches(bmapstart, i0, d0, i1, d1, Place(n, bn), b)
  }

  lemma TouchesLater(bmapstart: int, i0: Inodes, d0: Data, i1: Inodes, d1: Data, i2: Inodes, d2: Data, r: Ref, b: int)
    requires Touches(bmapstart, i0, d0, i1, d1, r, b) && (At(i1, d1, r) != 0 ==> At(i2, d2, r) == At(i1, d1, r))
    ensures Touches(bmapstart, i0, d0, i2, d2, r, b)
  {
  }

  lemma TouchesSince(bmapstart: int, i0: Inodes, d0: Data, i1: Inodes, d1: Data, i2: Inodes, d2: Data, r: Ref, b: int)
    requires Touches(bmapstart, i1, d1, i2, d2, r, b) && (At(i0, d0, r) != 0 ==> At(i1, d1, r) == At(i0, d0, r))
    ensures Touches(bmapstart, i0, d0, i2, d2, r, b)
  {
  }

  lemma LogGrows(logged0: set<int>, logged: set<int>, bmapstart: int, iblock: int, i0: Inodes, d0: Data, i1: Inodes,
                 d1: Data,
                 n: int, off: int, cnt: int, i2: Inodes, d2: Data)
    requires LogOk(logged0, logged, bmapstart, iblock, i0, d0, i1, d1, n, off, cnt)
    requires forall r :: At(i1, d1, r) != 0 ==> At(i2, d2, r) == At(i1, d1, r)
    ensures LogOk(logged0, logged, bmapstart, iblock, i0, d0, i2, d2, n, off, cnt)
  {
    hide At; hide Touches;
    forall b | b in logged && b !in logged0 ensures MayLog(bmapstart, iblock, i0, d0, i2, d2, n, off, cnt, b) {
      assert MayLog(bmapstart, iblock, i0, d0, i1, d1, n, off, cnt, b);
      if Touches(bmapstart, i0, d0, i1, d1, Addr(n, NDIRECT), b) {
        TouchesLater(bmapstart, i0, d0, i1, d1, i2, d2, Addr(n, NDIRECT), b);
      } else if bn :|
          off / 1024 <= bn < (off + cnt + 1023) / 1024 && Touches(bmapstart, i0, d0, i1, d1, Place(n, bn), b) {
        TouchesLater(bmapstart, i0, d0, i1, d1, i2, d2, Place(n, bn), b);
      }
    }
  }

  /** What bmap logs, and the block written, are blocks writei may log. */
  lemma LogMore(logged0: set<int>, l0: set<int>, l1: set<int>, bmapstart: int, iblock: int, i0: Inodes, d0: Data,
                i1: Inodes, d1: Data,
                i2: Inodes, d2: Data, n: int, off: int, cnt: int, bn: int)
    requires LogOk(logged0, l0, bmapstart, iblock, i0, d0, i2, d2, n, off, cnt)
    requires BmapLogs(l0, l1, bmapstart, i1, d1, i2, d2, n, bn)
    requires off / 1024 <= bn < (off + cnt + 1023) / 1024
    requires forall r :: At(i0, d0, r) != 0 ==> At(i1, d1, r) == At(i0, d0, r)
    ensures LogOk(logged0, l1, bmapstart, iblock, i0, d0, i2, d2, n, off, cnt)
  {
    hide At; hide Touches;
    forall b | b in l1 && b !in logged0 ensures MayLog(bmapstart, iblock, i0, d0, i2, d2, n, off, cnt, b) {
      if b !in l0 {
        if Touches(bmapstart, i1, d1, i2, d2, Addr(n, NDIRECT), b) {
          TouchesSince(bmapstart, i0, d0, i1, d1, i2, d2, Addr(n, NDIRECT), b);
        } else {
          TouchesSince(bmapstart, i0, d0, i1, d1, i2, d2, Place(n, bn), b);
        }
      }
    }
  }

  lemma WrittenSizes(i0: Inodes, d0: Data, i1: Inodes, d1: Data, n: int, off: int, w: seq<int>)
    requires Written(i0, d0, i1, d1, n, off, w)
    ensures i1.Keys == i0.Keys && |d1| == |d0| && forall m :: m in i0 ==> i1[m].size == i0[m].size
  {
  }

  lemma Finish(first: int, used: seq<bool>, i0: Inodes, d0: Data, i1: Inodes, d1: Data, owner: map<int, Ref>, n: int,
               off: int, w: seq<int>)
    requires Sound(first, used, i1, d1, owner, {}) && InodesOk(i0) && HoleFree(i0, d0)
    requires Written(i0, d0, i1, d1, n, off, w)
    requires n in i0 && 0 <= off <= i0[n].size && off + |w| <= MAXFILE * BSIZE
    ensures i1.Keys == i0.Keys && InodesOk(i1) && |d1| == |d0|
    ensures var i2 := Resize(i1, n, off + |w|);
      && Sound(first, used, i2, d1, owner, {}) && HoleFree(i2, d1) && InodesOk(i2)
      && Contents(i2, d1, n) == Splice(Contents(i0, d0, n), off, w)
      && forall m :: m in i0 && m != n ==> Contents(i2, d1, m) == Contents(i0, d0, m)
  {
    hide Owned; hide HoleFree; hide Written; hide At; hide Contents; hide Splice;
    WrittenSizes(i0, d0, i1, d1, n, off, w);
    ResizeSound(first, used, i1, d1, owner, n, off + |w|);
    WrittenHoleFree(i0, d0, i1, d1, n, off, w);
    WrittenContents(i0, d0, i1, d1, n, off, w);
    forall m | m in i0 && m != n ensures m in i1 && Contents(Resize(i1, n, off + |w|), d1, m) == Contents(i0, d0, m) {
      WrittenOthers(i0, d0, i1, d1, n, off, w, m);
    }
  }

  class File {
    const ip: int
    const writable: bool
    var off: int
  }

  class FileSystem {
    const bmapstart: int
    const inodestart: int
    const first: int
    var used: seq<bool>
    var data: Data
    var inodes: Inodes
    var dinodes: Inodes
    ghost var owner: map<int, Ref>
    ghost var puts: seq<Put>

    ghost predicate Valid()
      reads this
    {
      Sound(first, used, inodes, data, owner, {}) && HoleFree(inodes, data) && LaidOut(Lay(), |data|, inodes)
    }

    function Lay(): (lay: Layout) { Layout(inodestart, bmapstart, first) }

    ghost function Shown(): (m: map<int, Block>)
      requires inodestart >= 0
      reads this
    {
      Image(Lay(), used, dinodes, data)
    }

    /** A fresh image: the metadata marked, no file with a block. */
    constructor (bitmap: int, inodeBlocks: int, firstData: int, size: nat, n: nat)
      requires 0 <= inodeBlocks && inodeBlocks + n / 16 < bitmap && bitmap + size / 8192 < firstData <= size < U32
      ensures Valid() && bmapstart == bitmap && inodestart == inodeBlocks && first == firstData && |used| == size
      ensures owner == map[]
    {
      bmapstart, inodestart, first := bitmap, inodeBlocks, firstData;
      used := seq(size, b => b < firstData);
      data := seq(size, b => Zeros());
      inodes := map i | i in Range(0, n) :: EMPTY;
      dinodes := map i | i in Range(0, n) :: EMPTY;
      owner, puts := map[], [];
      new;
      FreshLayout(Lay(), size, n, inodes);
    }

    function BBlock(b: int): (n: int) { BitBlock(bmapstart, b) }

    function IBlock(n: int): (b: int) { n / 16 + inodestart }

    /** balloc: the lowest free block, marked and zeroed, or 0 when the disk is full. */
    method Balloc() returns (b: int)
      requires |used| == |data| && (|used| > 0 ==> used[0])
      modifies this`used, this`data, this`puts
      ensures b == 0 <==> forall c :: 0 <= c < |old(used)| ==> old(used)[c]
      ensures b == 0 ==> used == old(used) && data == old(data) && puts == old(puts)
      ensures b != 0 ==>
        && 0 < b < |old(used)| && !old(used)[b] && (forall c :: 0 <= c < b ==> old(used)[c])
        && used == old(used)[b := true] && data == old(data)[b := Zeros()]
        && puts == old(puts) + [Put(BBlock(b), BitsOf(used, b / 8192))] + [Put(b, Zeros())]
    {
      b := 0;
      while b < |used|
        invariant 0 <= b && forall c :: 0 <= c < b && c < |used| ==> used[c]
        invariant used == old(used) && data == old(data) && puts == old(puts)
      {
        var bi := 0;
        while bi < BPB && b + bi < |used|
          invariant 0 <= bi <= BPB && forall c :: 0 <= c < b + bi && c < |used| ==> used[c]
          invariant used == old(used) && data == old(data) && puts == old(puts)
        {
          if !used[b + bi] {
            used := used[b + bi := true];
            puts := puts + [Put(BBlock(b + bi), BitsOf(used, (b + bi) / 8192))];
            data := data[b + bi := Zeros()];
            puts := puts + [Put(b + bi, Zeros())];
            return b + bi;
          }
          bi := bi + 1;
        }
        b := b + BPB;
      }
      return 0;
    }

    /** bfree; false stands for its panic. */
    method Bfree(b: int) returns (ok: bool)
      requires 0 <= b < |used|
      modifies this`used, this`puts
      ensures ok <==> old(used)[b]
      ensures used == old(used)[b := false]
      ensures puts == if ok then old(puts) + [Put(BBlock(b), BitsOf(used, b / 8192))] else old(puts)
    {
      if !used[b] { return false; }
      used := used[b := false];
      puts := puts + [Put(BBlock(b), BitsOf(used, b / 8192))];
      return true;
    }

    method Iupdate(n: int)
      requires n in inodes
      modifies this`dinodes, this`puts
      ensures dinodes == old(dinodes)[n := inodes[n]]
      ensures puts == old(puts) + [Put(IBlock(n), InodesOf(dinodes, n / 16))]
    {
      dinodes := dinodes[n := inodes[n]];
      puts := puts + [Put(IBlock(n), InodesOf(dinodes, n / 16))];
    }

    /** bmap: block bn of the file, allocated if it has none; 0 exactly when it has none and
        the disk is full.  Other references and all bytes stay. */
    method Bmap(n: int, bn: int) returns (addr: int)
      requires Valid() && n in inodes && 0 <= bn < MAXFILE
      modifies this`used, this`data, this`inodes, this`owner, this`puts
      ensures Valid() && Grows(old(inodes), old(data), inodes, data)
      ensures addr == BlockAt(inodes, data, n, bn) && (addr != 0 ==> 0 < addr < |data|)
      ensures old(BlockAt(inodes, data, n, bn)) != 0 ==>
        used == old(used) && data == old(data) && inodes == old(inodes) && owner == old(owner) && puts == old(puts)
      ensures addr == 0 ==> forall c :: 0 <= c < |used| ==> used[c]
      ensures forall m, lo, hi :: KeepsBytes(old(inodes), old(data), inodes, data, m, lo, hi)
      ensures BmapLogs(old(Logged(puts)), Logged(puts), bmapstart, old(inodes), old(data), inodes, data, n, bn)
      ensures Traced(old(Shown()), old(puts), Shown(), puts) && n in inodes && inodes == old(inodes)[n := inodes[n]]
    {
      hide HoleFree; hide KeepsBytes; hide LaidOut; hide Traced; hide Image; hide Logged;
      LayBounds(Lay(), |data|, inodes);
      SameBytes(inodes, data);
      TracedNone(Shown(), puts);
      if bn < NDIRECT {
        addr := inodes[n].addrs[bn];
        if addr == 0 {
          addr := AllocAddr(n, bn);
        } else {
          assert At(inodes, data, Addr(n, bn)) == addr;
        }
        return;
      }
      addr := BmapFar(n, bn);
    }

    /** The indirect part of bmap. */
    method BmapFar(n: int, bn: int) returns (addr: int)
      requires Valid() && n in inodes && NDIRECT <= bn < MAXFILE
      modifies this`used, this`data, this`inodes, this`owner, this`puts
      ensures Valid() && Grows(old(inodes), old(data), inodes, data)
      ensures addr == BlockAt(inodes, data, n, bn) && (addr != 0 ==> 0 < addr < |data|)
      ensures old(BlockAt(inodes, data, n, bn)) != 0 ==>
        used == old(used) && data == old(data) && inodes == old(inodes) && owner == old(owner) && puts == old(puts)
      ensures addr == 0 ==> forall c :: 0 <= c < |used| ==> used[c]
      ensures forall m, lo, hi :: KeepsBytes(old(inodes), old(data), inodes, data, m, lo, hi)
      ensures BmapLogs(old(Logged(puts)), Logged(puts), bmapstart, old(inodes), old(data), inodes, data, n, bn)
      ensures Traced(old(Shown()), old(puts), Shown(), puts) && n in inodes && inodes == old(inodes)[n := inodes[n]]
    {
      hide HoleFree; hide KeepsBytes; hide LaidOut; hide Traced; hide Image; hide Logged;
      LayBounds(Lay(), |data|, inodes);
      SameBytes(inodes, data);
      TracedNone(Shown(), puts);
      ghost var i0, d0 := inodes, data;
      var t := inodes[n].addrs[NDIRECT];
      if t == 0 {
        t := AllocAddr(n, NDIRECT);
        if t == 0 { return 0; }
      }
      assert At(inodes, data, Addr(n, NDIRECT)) == t;
      assert BlockAt(inodes, data, n, bn) == Word(data[t], bn - NDIRECT);
      addr := Word(data[t], bn - NDIRECT);
      if addr == 0 {
        ghost var i1, d1, m1, p1 := inodes, data, Shown(), puts;
        addr := AllocEntry(n, bn - NDIRECT, t);
        TracedTrans(old(Shown()), old(puts), m1, p1, Shown(), puts);
        GrowsTrans(i0, d0, i1, d1, inodes, data);
        KeepsAll(i0, d0, i1, d1, inodes, data);
      } else {
        assert At(inodes, data, Entry(n, bn - NDIRECT)) == addr;
      }
    }

    /** balloc, and the block into ip->addrs[i]. */
    method AllocAddr(n: int, i: int) returns (b: int)
      requires Valid() && n in inodes && 0 <= i <= NDIRECT && inodes[n].addrs[i] == 0
      modifies this`used, this`data, this`inodes, this`owner, this`puts
      ensures Valid() && Grows(old(inodes), old(data), inodes, data)
      ensures n in inodes && |inodes[n].addrs| == NDIRECT + 1 && inodes[n].addrs[i] == b && (b != 0 ==> 0 < b < |data|)
      ensures b == 0 ==> inodes == old(inodes) && data == old(data) && forall c :: 0 <= c < |used| ==> used[c]
      ensures forall r :: At(inodes, data, r) == if r == Addr(n, i) then b else old(At(inodes, data, r))
      ensures forall m, lo, hi :: KeepsBytes(old(inodes), old(data), inodes, data, m, lo, hi)
      ensures forall c :: c in Logged(puts) ==>
        c in old(Logged(puts)) || (b != 0 && (c == b || c == BitBlock(bmapstart, b)))
      ensures Traced(old(Shown()), old(puts), Shown(), puts) && inodes == old(inodes)[n := inodes[n]]
    {
      hide HoleFree; hide KeepsBytes; hide LaidOut; hide Traced; hide Image; hide Logged;
      LayBounds(Lay(), |data|, inodes);
      SameBytes(inodes, data);
      TracedNone(Shown(), puts);
      b := Balloc();
      if b == 0 { return; }
      FreeBlock(first, old(used), owner, b);
      Allocated(Lay(), old(used), dinodes, old(data), b, old(puts));
      LaidSame(Lay(), |data|, inodes, n, inodes[n].(addrs := inodes[n].addrs[i := b]));
      NewAddr(first, old(used), inodes, old(data), owner, n, i, b);
      inodes := inodes[n := inodes[n].(addrs := inodes[n].addrs[i := b])];
      owner := owner[b := Addr(n, i)];
      GrowsHoleFree(old(inodes), old(data), inodes, data);
    }

    /** balloc, and the block into word j of the indirect block. */
    method AllocEntry(n: int, j: int, t: int) returns (b: int)
      requires Valid() && n in inodes && 0 <= j < NINDIRECT && t == inodes[n].addrs[NDIRECT] && 0 < t < |data|
      requires Word(data[t], j) == 0
      modifies this`used, this`data, this`owner, this`puts
      ensures Valid() && Grows(inodes, old(data), inodes, data)
      ensures b == At(inodes, data, Entry(n, j)) && (b != 0 ==> 0 < b < |data|)
      ensures b == 0 ==> forall c :: 0 <= c < |used| ==> used[c]
      ensures forall m, lo, hi :: KeepsBytes(inodes, old(data), inodes, data, m, lo, hi)
      ensures forall c :: c in Logged(puts) ==>
        c in old(Logged(puts)) || (b != 0 && (c == b || c == BitBlock(bmapstart, b) || c == t))
      ensures Traced(old(Shown()), old(puts), Shown(), puts)
      ensures forall r :: r != Entry(n, j) ==> At(inodes, data, r) == old(At(inodes, data, r))
    {
      hide HoleFree; hide KeepsBytes; hide LaidOut; hide Traced; hide Image; hide Logged;
      LayBounds(Lay(), |data|, inodes);
      SameBytes(inodes, data);
      TracedNone(Shown(), puts);
      TableBlock(first, inodes, data, owner, n);
      b := Balloc();
      if b != 0 {
        FreeBlock(first, old(used), owner, b);
        Allocated(Lay(), old(used), dinodes, old(data), b, old(puts));
        ghost var m1, p1, x := Shown(), puts, SetWord(data[t], j, b);
        DataChanges(Lay(), used, dinodes, data, t, x);
        TracedOne(old(Shown()), old(puts), m1, p1, t, x);
        LoggedMore(p1, t, x);
        NewEntry(first, old(used), inodes, old(data), owner, n, j, b);
        data := data[t := SetWord(data[t], j, b)];
        puts := puts + [Put(t, data[t])];
        owner := owner[b := Entry(n, j)];
        GrowsHoleFree(inodes, old(data), inodes, data);
      }
    }

    /** writei, the copies from user memory succeeding: exactly the bytes off .. off+r become
        the first r of src.  It stops short only when the disk is full. */
    method Writei(n: int, src: seq<int>, off: int, cnt: int) returns (r: int)
      requires Valid() && n in inodes && 0 <= off < U32 && 0 <= cnt < U32 && |src| == cnt
      modifies this
      ensures Valid() && inodes.Keys == old(inodes.Keys) && |data| == |old(data)|
      ensures r == -1 <==> off > old(inodes[n].size) || off + cnt >= U32 || off + cnt > MAXFILE * BSIZE
      ensures r == -1 ==> unchanged(this)
      ensures r != -1 ==>
        && 0 <= r <= cnt && (r < cnt ==> forall c :: 0 <= c < |used| ==> used[c])
        && Contents(inodes, data, n) == Splice(old(Contents(inodes, data, n)), off, src[..r])
        && (forall m :: m in inodes && m != n ==> Contents(inodes, data, m) == old(Contents(inodes, data, m)))
        && dinodes == old(dinodes)[n := inodes[n]]
        && inodes == old(inodes)[n := inodes[n]] && Traced(old(Shown()), old(puts), Shown(), puts)
        && LogOk(old(Logged(puts)), Logged(puts), bmapstart, IBlock(n), old(inodes), old(data), inodes, data, n, off,
                 cnt)
    {
      hide HoleFree; hide Written; hide LogOk; hide Owned; hide Mapped; hide Contents; hide LaidOut; hide Traced;
      hide Image; hide Logged;
      LayBounds(Lay(), |data|, inodes);
      if off > inodes[n].size || (off + cnt) % U32 < off { return -1; }
      if (off + cnt) % U32 > MAXFILE * BSIZE { return -1; }
      ghost var i0, d0 := inodes, data;
      var tot := WriteAll(n, src, off, cnt);
      var at := off + tot;
      Finish(first, used, i0, d0, inodes, data, owner, n, off, src[..tot]);
      LogResize(old(Logged(puts)), Logged(puts), bmapstart, IBlock(n), i0, d0, inodes, data, n, off, cnt, at);
      hide Resize; hide Sound; hide InodesOk;
      ghost var m1, p1 := Shown(), puts;
      SetSize(n, at);
      TracedTrans(old(Shown()), old(puts), m1, p1, Shown(), puts);
      return tot;
    }

    /** The loop of writei. */
    method WriteAll(n: int, src: seq<int>, off: int, cnt: int) returns (tot: int)
      requires Valid() && n in inodes && 0 <= off <= inodes[n].size && 0 <= cnt && off + cnt <= MAXFILE * BSIZE
      requires |src| == cnt
      modifies this`used, this`data, this`inodes, this`owner, this`puts
      ensures Valid() && n in inodes && 0 <= tot <= cnt && (tot < cnt ==> forall c :: 0 <= c < |used| ==> used[c])
      ensures Written(old(inodes), old(data), inodes, data, n, off, src[..tot]) && inodes == old(inodes)[n := inodes[n]]
      ensures LogOk(old(Logged(puts)), Logged(puts), bmapstart, IBlock(n), old(inodes), old(data), inodes, data, n, off,
                    cnt)
      ensures Traced(old(Shown()), old(puts), Shown(), puts)
    {
      hide HoleFree; hide Written; hide LogOk; hide Owned; hide Mapped; hide LaidOut; hide Traced; hide Image;
      hide Logged;
      hide InodesOk; hide DataOk;
      LayBounds(Lay(), |data|, inodes);
      TracedNone(Shown(), puts);
      ghost var i0, d0 := inodes, data;
      WrittenNone(i0, d0, n, off);
      LogStart(Logged(puts), bmapstart, IBlock(n), inodes, data, n, off, cnt);
      tot := 0;
      while tot < cnt
        invariant 0 <= tot <= cnt && Valid() && n in inodes && inodes == i0[n := inodes[n]]
        invariant Written(i0, d0, inodes, data, n, off, src[..tot]) && Traced(old(Shown()), old(puts), Shown(), puts)
        invariant LogOk(old(Logged(puts)), Logged(puts), bmapstart, IBlock(n), i0, d0, inodes, data, n, off, cnt)
      {
        ghost var m1, p1 := Shown(), puts;
        var addr, m := WriteSome(n, src, off, cnt, tot, i0, d0, old(Logged(puts)));
        TracedTrans(old(Shown()), old(puts), m1, p1, Shown(), puts);
        if addr == 0 { break; }
        tot := tot + m;
      }
    }

    /** The end of writei: the size, if the file has grown, and iupdate in any case. */
    method SetSize(n: int, at: int)
      requires n in inodes && LaidOut(Lay(), |data|, inodes)
      modifies this`inodes, this`dinodes, this`puts
      ensures inodes == Resize(old(inodes), n, at) && inodes == old(inodes)[n := inodes[n]] && n in inodes
      ensures LaidOut(Lay(), |data|, inodes) && dinodes == old(dinodes)[n := inodes[n]]
      ensures Traced(old(Shown()), old(puts), Shown(), puts) && Logged(puts) == old(Logged(puts)) + {IBlock(n)}
    {
      hide LaidOut; hide Traced; hide Image; hide Logged;
      LayBounds(Lay(), |data|, inodes);
      LaidSame(Lay(), |data|, inodes, n, inodes[n].(size := at));
      if at > inodes[n].size { inodes := inodes[n := inodes[n].(size := at)]; }
      InodeChanges(Lay(), used, dinodes, data, n, inodes[n]);
      Iupdate(n);
      TracedNone(old(Shown()), old(puts));
      TracedOne(old(Shown()), old(puts), old(Shown()), old(puts), IBlock(n), InodesOf(dinodes, n / 16));
      LoggedMore(old(puts), IBlock(n), InodesOf(dinodes, n / 16));
    }

    /** One turn of writei's loop. */
    method WriteSome(n: int, src: seq<int>, off: int, cnt: int, tot: int, ghost i0: Inodes, ghost d0: Data,
                     ghost logged0: set<int>)
      returns (addr: int, m: int)
      requires Valid() && n in inodes && 0 <= off && off + cnt <= MAXFILE * BSIZE && |src| == cnt && 0 <= tot < cnt
      requires Written(i0, d0, inodes, data, n, off, src[..tot])
      requires LogOk(logged0, Logged(puts), bmapstart, IBlock(n), i0, d0, inodes, data, n, off, cnt)
      modifies this`used, this`data, this`inodes, this`owner, this`puts
      ensures Valid() && n in inodes
      ensures LogOk(logged0, Logged(puts), bmapstart, IBlock(n), i0, d0, inodes, data, n, off, cnt)
      ensures Traced(old(Shown()), old(puts), Shown(), puts) && inodes == old(inodes)[n := inodes[n]]
      ensures addr != 0 ==> 0 < m <= cnt - tot && Written(i0, d0, inodes, data, n, off, src[..tot + m])
      ensures addr == 0 ==> Written(i0, d0, inodes, data, n, off, src[..tot]) && forall c :: 0 <= c < |used| ==> used[c]
    {
      hide HoleFree; hide Written; hide LogOk; hide Owned; hide Mapped; hide KeepsBytes; hide At; hide LaidOut;
      hide Traced; hide Image; hide Logged; hide BmapLogs;
      LayBounds(Lay(), |data|, inodes);
      var at := off + tot;
      ghost var i1, d1, l1 := inodes, data, Logged(puts);
      addr := Bmap(n, at / 1024);
      LogGrows(logged0, l1, bmapstart, IBlock(n), i0, d0, i1, d1, n, off, cnt, inodes, data);
      WrittenGrew(i0, d0, i1, d1, n, off, src[..tot]);
      WrittenToo(l1, Logged(puts), bmapstart, i1, d1, inodes, data, n, at / 1024);
      LogMore(logged0, l1, Logged(puts) + if addr == 0 then {} else {addr}, bmapstart, IBlock(n), i0, d0, i1, d1,
              inodes, data, n, off, cnt, at / 1024);
      m := 0;
      if addr == 0 {
        assert Logged(puts) + {} == Logged(puts);
        assert src[..tot] + [] == src[..tot];
        WrittenMore(i0, d0, i1, d1, inodes, data, n, off, src[..tot], [], at / 1024, at % 1024);
        return;
      }
      m := if cnt - tot < BSIZE - at % 1024 then cnt - tot else BSIZE - at % 1024;
      ghost var d2, m2, p2 := data, Shown(), puts;
      PutBytes(n, addr, at, src[tot..tot + m]);
      TracedTrans(old(Shown()), old(puts), m2, p2, Shown(), puts);
      LogGrows(logged0, Logged(puts), bmapstart, IBlock(n), i0, d0, inodes, d2, n, off, cnt, inodes, data);
      StepBytes(i1, d1, inodes, d2, inodes, data, n, at, at + m);
      WrittenMore(i0, d0, i1, d1, inodes, data, n, off, src[..tot], src[tot..tot + m], at / 1024, at % 1024);
      assert src[..tot] + src[tot..tot + m] == src[..tot + m];
    }

    /** bread, the copy, log_write. */
    method PutBytes(n: int, addr: int, at: int, w: seq<int>)
      requires Valid() && n in inodes && 0 <= at && at / 1024 < MAXFILE && at % 1024 + |w| <= BSIZE
      requires addr == BlockAt(inodes, data, n, at / 1024) && 0 < addr < |data|
      modifies this`data, this`puts
      ensures Valid() && data == old(data)[addr := Splice(old(data)[addr], at % 1024, w)]
      ensures Grows(inodes, old(data), inodes, data) && KeepsBytes(inodes, old(data), inodes, data, n, at, at + |w|)
      ensures forall r :: At(inodes, data, r) == At(inodes, old(data), r)
      ensures forall o :: at % 1024 <= o < at % 1024 + |w| ==> Byte(inodes, data, n, at / 1024, o) == w[o - at % 1024]
      ensures Traced(old(Shown()), old(puts), Shown(), puts) && Logged(puts) == old(Logged(puts)) + {addr}
    {
      hide HoleFree; hide Owned; hide Mapped; hide KeepsBytes; hide At; hide LaidOut; hide Traced; hide Image;
      hide Logged;
      LayBounds(Lay(), |data|, inodes);
      ghost var x := Splice(data[addr], at % 1024, w);
      DataBlock(first, inodes, data, owner, n, at / 1024);
      DataChanges(Lay(), used, dinodes, data, addr, x);
      TracedNone(Shown(), puts);
      TracedOne(Shown(), puts, Shown(), puts, addr, x);
      LoggedMore(puts, addr, x);
      WriteBlock(first, used, inodes, data, owner, n, at / 1024, at % 1024, w);
      data := data[addr := Splice(data[addr], at % 1024, w)];
      puts := puts + [Put(addr, data[addr])];
      GrowsHoleFree(inodes, old(data), inodes, data);
    }

    /** readi, the copies to user memory succeeding: the bytes of the file, as far as there are
        any, and no change to anything, so its bmap never allocates. */
    method Readi(n: int, off: int, cnt: int) returns (dst: seq<int>)
      requires Valid() && n in inodes && 0 <= off < U32 && 0 <= cnt < U32
      modifies this`used, this`data, this`inodes, this`owner, this`puts
      ensures unchanged(this)
      ensures dst == if off > inodes[n].size || off + cnt >= U32 then []
                     else
                       var end := if off + cnt < inodes[n].size then off + cnt else inodes[n].size;
                       Contents(inodes, data, n)[off..end]
    {
      hide KeepsBytes; hide Owned; hide Mapped; hide BlockAt; hide HoleFree; hide Contents; hide Grows;
      ghost var c := Contents(inodes, data, n);
      dst := [];
      if off > inodes[n].size || (off + cnt) % U32 < off { return; }
      var n', tot, at := cnt, 0, off;
      if off + cnt > inodes[n].size { n' := inodes[n].size - off; }
      while tot < n'
        invariant 0 <= tot <= n' && at == off + tot && unchanged(this)
        invariant dst == c[off..off + tot]
      {
        BlockThere(inodes, data, n, at);
        var addr := Bmap(n, at / 1024);
        if addr == 0 { break; }
        var m := if n' - tot < BSIZE - at % 1024 then n' - tot else BSIZE - at % 1024;
        ReadMore(inodes, data, n, off, at, m);
        dst := dst + data[addr][at % 1024..at % 1024 + m];
        tot, at := tot + m, at + m;
      }
    }

    /** itrunc: the file is empty; exactly its blocks are free again; no bfree panics; the other
        files are as they were. */
    method Itrunc(n: int) returns (ok: bool)
      requires Valid() && n in inodes
      modifies this
      ensures Valid() && ok && data == old(data)
      ensures n in inodes && inodes == old(inodes)[n := Inode(inodes[n].addrs, 0)] && |inodes[n].addrs| == NDIRECT + 1
      ensures forall i :: 0 <= i <= NDIRECT ==> inodes[n].addrs[i] == 0
      ensures forall b :: b in owner <==> b in old(owner) && old(owner)[b].inum != n
      ensures forall b :: 0 <= b < |used| ==>
        (used[b] <==> old(used)[b] && !(b in old(owner) && old(owner)[b].inum == n))
      ensures forall m :: m in inodes && m != n ==> Contents(inodes, data, m) == old(Contents(inodes, data, m))
      ensures Contents(inodes, data, n) == [] && dinodes == old(dinodes)[n := inodes[n]]
    {
      hide HoleFree; hide Owned; hide Mapped; hide Without; hide At;
      ghost var gone: set<Ref> := {};
      NoneGone(used, owner);
      var i := 0;
      while i < NDIRECT
        invariant 0 <= i <= NDIRECT && Sound(first, used, inodes, data, owner, {}) && data == old(data)
        invariant n in inodes && inodes == old(inodes)[n := Inode(inodes[n].addrs, old(inodes)[n].size)]
        invariant forall k :: 0 <= k < i ==> inodes[n].addrs[k] == 0
        invariant forall k :: i <= k <= NDIRECT ==> inodes[n].addrs[k] == old(inodes)[n].addrs[k]
        invariant Without(old(used), old(owner), gone, used, owner) && GoneTo(n, i, 0, gone)
        invariant dinodes == old(dinodes)
      {
        AddrOwner(first, used, inodes, data, owner, n, i, {});
        if inodes[n].addrs[i] != 0 {
          DropAddr(first, used, inodes, data, owner, n, i);
          WithoutMore(old(used), old(owner), gone, used, owner, inodes[n].addrs[i], Addr(n, i));
          ok := Bfree(inodes[n].addrs[i]);
          if !ok { return; }
          owner := owner - {inodes[n].addrs[i]};
          inodes := inodes[n := inodes[n].(addrs := inodes[n].addrs[i := 0])];
        } else {
          WithoutSkip(old(used), old(owner), gone, used, owner, Addr(n, i));
        }
        gone := gone + {Addr(n, i)};
        i := i + 1;
      }
      ok, gone := TruncTable(n, old(used), old(owner), gone);
      if !ok { return; }
      Truncated(first, old(used), old(inodes), data, old(owner), gone, used, inodes, owner, n);
      inodes := inodes[n := inodes[n].(size := 0)];
      Iupdate(n);
    }

    /** The indirect part of itrunc. */
    method TruncTable(n: int, ghost used0: seq<bool>, ghost owner0: map<int, Ref>, ghost gone0: set<Ref>)
      returns (ok: bool, ghost gone: set<Ref>)
      requires Sound(first, used, inodes, data, owner, {}) && n in inodes && Without(used0, owner0, gone0, used, owner)
      requires GoneTo(n, NDIRECT, 0, gone0)
      modifies this`used, this`inodes, this`owner, this`puts
      ensures Sound(first, used, inodes, data, owner, {}) && ok
      ensures inodes == old(inodes)[n := old(inodes)[n].(addrs := old(inodes)[n].addrs[NDIRECT := 0])]
      ensures Without(used0, owner0, gone, used, owner) && GoneTo(n, NDIRECT + 1, NINDIRECT, gone)
    {
      hide Owned; hide Mapped; hide Without; hide At; hide Entries;
      gone := gone0;
      var t := inodes[n].addrs[NDIRECT];
      AddrOwner(first, used, inodes, data, owner, n, NDIRECT, {});
      if t != 0 {
        TableWords(inodes, data, n);
        DeadNone(n);
        var j := 0;
        while j < NINDIRECT
          invariant 0 <= j <= NINDIRECT && Sound(first, used, inodes, data, owner, Dead(n, j)) && inodes == old(inodes)
          invariant Without(used0, owner0, gone, used, owner) && GoneTo(n, NDIRECT, j, gone)
        {
          EntryOwner(first, used, inodes, data, owner, n, j);
          if Word(data[t], j) != 0 {
            DropEntry(first, used, inodes, data, owner, n, j);
            WithoutMore(used0, owner0, gone, used, owner, Word(data[t], j), Entry(n, j));
            ok := Bfree(Word(data[t], j));
            if !ok { return; }
            owner := owner - {Word(data[t], j)};
          } else {
            SkipEntry(first, used, inodes, data, owner, n, j);
            WithoutSkip(used0, owner0, gone, used, owner, Entry(n, j));
          }
          gone := gone + {Entry(n, j)};
          j := j + 1;
        }
        DropTable(first, used, inodes, data, owner, n);
        AddrOwner(first, used, inodes, data, owner, n, NDIRECT, Dead(n, NINDIRECT));
        WithoutMore(used0, owner0, gone, used, owner, t, Addr(n, NDIRECT));
        ok := Bfree(t);
        if !ok { return; }
        owner := owner - {t};
        inodes := inodes[n := inodes[n].(addrs := inodes[n].addrs[NDIRECT := 0])];
        gone := gone + {Addr(n, NDIRECT)};
      } else {
        gone := NoTable(first, used, inodes, data, owner, n, used0, owner0, gone0);
      }
      ok := true;
    }

    /** filewrite on an inode: w bytes of src go in at the file's offset, which moves by w; the
        result tells whether that was all of them, and it is unless the disk is full or the
        file would be too long or have a hole.  No transaction logs more than MAXOPBLOCKS
        blocks.  `snaps` and `calls` record the file system between the transactions and what
        each has logged. */
    method Filewrite(f: File, src: seq<int>, cnt: int)
      returns (ret: int, ghost w: nat, ghost snaps: seq<Snap>, ghost calls: seq<seq<Put>>)
      requires Valid() && f.ip in inodes && 0 <= f.off < U32 && |src| == (if cnt > 0 then cnt else 0)
      requires cnt < 0x8000_0000
      modifies this, f`off
      ensures Valid() && w <= |src| && Progress(old(inodes), old(data), inodes, data, f.ip, old(f.off), src[..w])
      ensures f.off == old(f.off) + w && ret == if f.writable && w == cnt then cnt else -1
      ensures f.writable && w < cnt ==>
        || (forall c :: 0 <= c < |used| ==> used[c])
        || old(f.off) > old(inodes[f.ip].size) || old(f.off) + cnt > MAXFILE * BSIZE
      ensures |snaps| == |calls| + 1 && snaps[0] == Snap(old(used), old(inodes), old(data), 0)
      ensures snaps[|calls|] == Snap(used, inodes, data, w)
      ensures old(dinodes == inodes) ==> dinodes == inodes && History(Lay(), snaps, calls, f.ip, old(f.off), src)
      ensures forall k :: 0 <= k < |calls| ==> |Logged(calls[k])| <= MAXOPBLOCKS
    {
      hide HoleFree; hide Owned; hide Mapped; hide Progress; hide LaidOut; hide Image; hide Apply; hide History;
      w := 0;
      Untouched(inodes, data, f.ip, f.off);
      assert src[..0] == [];
      LayBounds(Lay(), |data|, inodes);
      snaps, calls := [Snap(used, inodes, data, 0)], [];
      HistoryStart(Lay(), snaps[0], f.ip, f.off, src);
      if !f.writable { return -1, 0, snaps, calls; }
      var max := (MAXOPBLOCKS - 1 - 1 - 2) / 2 * BSIZE;
      var i := 0;
      while i < cnt
        invariant 0 <= i <= |src| && Valid() && w == i && f.off == old(f.off) + w && |data| == |old(data)|
        invariant Progress(old(inodes), old(data), inodes, data, f.ip, old(f.off), src[..w])
        invariant |snaps| == |calls| + 1 && snaps[0] == Snap(old(used), old(inodes), old(data), 0)
        invariant snaps[|calls|] == Snap(used, inodes, data, w) && (i < cnt ==> i == 3072 * |calls|)
        invariant old(dinodes == inodes) ==> dinodes == inodes && History(Lay(), snaps, calls, f.ip, old(f.off), src)
        invariant forall k :: 0 <= k < |calls| ==> |Logged(calls[k])| <= MAXOPBLOCKS
      {
        var n1 := cnt - i;
        if n1 > max { n1 := max; }
        var r := WriteChunk(f, src, i, n1, old(inodes), old(data), old(f.off));
        if r > 0 { w := w + r; }
        if old(dinodes == inodes) {
          HistoryMore(Lay(), snaps, calls, f.ip, old(f.off), src, Snap(used, inodes, data, w), puts);
        }
        snaps, calls := snaps + [Snap(used, inodes, data, w)], calls + [puts];
        if r != n1 { break; }
        i := i + r;
      }
      ret := if i == cnt then cnt else -1;
    }

    /** One transaction of filewrite: begin_op, writei, end_op. */
    method WriteChunk(f: File, src: seq<int>, i: int, n1: int, ghost i0: Inodes, ghost d0: Data, ghost off0: int)
      returns (r: int)
      requires Valid() && 0 <= i && 0 < n1 <= 3072 && i + n1 <= |src| < 0x8000_0000 && f.off == off0 + i
      requires 0 <= off0 < U32
      requires Progress(i0, d0, inodes, data, f.ip, off0, src[..i])
      modifies this, f`off
      ensures Valid() && -1 <= r <= n1 && |data| == |old(data)| == |used|
      ensures var w := if r > 0 then i + r else i;
        f.off == off0 + w && Progress(i0, d0, inodes, data, f.ip, off0, src[..w])
      ensures r < n1 ==>
        || (forall c :: 0 <= c < |used| ==> used[c])
        || (f.ip in i0 && off0 > i0[f.ip].size) || off0 + |src| > MAXFILE * BSIZE
      ensures |Logged(puts)| <= MAXOPBLOCKS && Apply(old(Shown()), puts) == Shown()
      ensures old(dinodes == inodes) ==> dinodes == inodes
    {
      hide HoleFree; hide LogOk; hide Owned; hide Mapped; hide Contents; hide Splice; hide LaidOut; hide Image;
      hide Traced; hide Logged; hide Apply; hide Progress; hide DataOk;
      LayBounds(Lay(), |data|, inodes);
      puts := [];
      LoggedNone();
      TracedNone(Shown(), puts);
      TracedAll(Shown(), Shown(), puts);
      ghost var i1, d1 := inodes, data;
      ProgressSize(i0, d0, inodes, data, f.ip, off0, src[..i]);
      r := Writei(f.ip, src[i..i + n1], f.off, n1);
      if r >= 0 {
        LogBound(Logged(puts), bmapstart, IBlock(f.ip), i1, d1, inodes, data, f.ip, f.off, n1);
        ProgressMore(i0, d0, i1, d1, f.ip, off0, src, i, n1, r, inodes, data);
        TracedAll(old(Shown()), Shown(), puts);
      }
      if r > 0 { f.off := f.off + r; }
    }
  }

  /** The file system between two transactions, w bytes of the caller's being written. */
  datatype Snap = Snap(used: seq<bool>, inodes: Inodes, data: Data, w: nat)

  ghost predicate SnapOk(lay: Layout, first: Snap, s: Snap, n: int, off: int, src: seq<int>) {
    && LaidOut(lay, |s.data|, s.inodes) && |s.used| == |s.data| == |first.data| && s.w <= |src|
    && Progress(first.inodes, first.data, s.inodes, s.data, n, off, src[..s.w])
  }

  /** The calls of log_write lead from one to the next. */
  ghost predicate SnapStep(lay: Layout, s: Snap, puts: seq<Put>, s': Snap) {
    && 0 <= lay.inodestart && s.w <= s'.w && |Logged(puts)| <= MAXOPBLOCKS
    && Apply(Image(lay, s.used, s.inodes, s.data), puts) == Image(lay, s'.used, s'.inodes, s'.data)
  }

  /** A whole filewrite: each transaction but the last writes 3072 bytes. */
  ghost predicate History(lay: Layout, snaps: seq<Snap>, calls: seq<seq<Put>>, n: int, off: int, src: seq<int>) {
    && |snaps| == |calls| + 1
    && (forall k :: 0 <= k < |snaps| ==> SnapOk(lay, snaps[0], snaps[k], n, off, src))
    && (forall k :: 0 <= k < |calls| ==> SnapStep(lay, snaps[k], calls[k], snaps[k + 1]))
    && (forall k :: 0 <= k < |calls| ==> snaps[k].w == 3072 * k)
  }

  lemma HistoryStart(lay: Layout, s: Snap, n: int, off: int, src: seq<int>)
    requires LaidOut(lay, |s.data|, s.inodes) && |s.used| == |s.data| && s.w == 0 && InodesOk(s.inodes) && n in s.inodes
    requires off >= 0
    ensures History(lay, [s], [], n, off, src)
  {
    hide LaidOut;
    Untouched(s.inodes, s.data, n, off);
    assert src[..0] == [];
  }

  lemma HistoryMore(lay: Layout, snaps: seq<Snap>, calls: seq<seq<Put>>, n: int, off: int, src: seq<int>, s: Snap,
                    puts: seq<Put>)
    requires History(lay, snaps, calls, n, off, src) && SnapOk(lay, snaps[0], s, n, off, src)
    requires SnapStep(lay, snaps[|calls|], puts, s) && snaps[|calls|].w == 3072 * |calls|
    ensures History(lay, snaps + [s], calls + [puts], n, off, src)
  {
    hide SnapOk; hide SnapStep;
    var snaps', calls' := snaps + [s], calls + [puts];
    forall k | 0 <= k < |calls'| ensures SnapStep(lay, snaps'[k], calls'[k], snaps'[k + 1]) {
      if k < |calls| { assert SnapStep(lay, snaps[k], calls[k], snaps[k + 1]); }
    }
  }

  /** What filewrite has done after the bytes w: they are in the file, the other files are as
      they were. */
  ghost predicate Progress(i0: Inodes, d0: Data, inodes: Inodes, data: Data, n: int, off: int, w: seq<int>) {
    && InodesOk(i0) && InodesOk(inodes) && n in i0 && inodes.Keys == i0.Keys && |data| == |d0| && off >= 0
    && (w != [] ==> off <= i0[n].size && off + |w| <= MAXFILE * BSIZE)
    && Contents(inodes, data, n) == (if w != [] then Splice(Contents(i0, d0, n), off, w) else Contents(i0, d0, n))
    && forall m :: m in i0 && m != n ==> Contents(inodes, data, m) == Contents(i0, d0, m)
  }

  lemma Untouched(inodes: Inodes, data: Data, n: int, off: int)
    requires InodesOk(inodes) && n in inodes && off >= 0
    ensures Progress(inodes, data, inodes, data, n, off, [])
  {
  }

  lemma ProgressSize(i0: Inodes, d0: Data, inodes: Inodes, data: Data, n: int, off: int, w: seq<int>)
    requires Progress(i0, d0, inodes, data, n, off, w)
    ensures n in i0 && n in inodes && 0 <= inodes[n].size
    ensures off + |w| <= inodes[n].size <==> off <= i0[n].size
    ensures w != [] ==> off + |w| <= MAXFILE * BSIZE
  {
    assert |Contents(inodes, data, n)| == inodes[n].size && |Contents(i0, d0, n)| == i0[n].size;
  }

  lemma ProgressMore(i0: Inodes, d0: Data, i1: Inodes, d1: Data, n: int, off: int, src: seq<int>, i: nat, n1: nat,
                     r: nat, inodes: Inodes, data: Data)
    requires i + n1 <= |src| && r <= n1 && Progress(i0, d0, i1, d1, n, off, src[..i]) && off + i <= i1[n].size
    requires off + i + r <= MAXFILE * BSIZE
    requires InodesOk(inodes) && inodes.Keys == i1.Keys && |data| == |d1|
    requires Contents(inodes, data, n) == Splice(Contents(i1, d1, n), off + i, src[i..i + n1][..r])
    requires forall m :: m in inodes && m != n ==> Contents(inodes, data, m) == Contents(i1, d1, m)
    ensures Progress(i0, d0, inodes, data, n, off, src[..i + r])
  {
    hide Contents; hide Splice;
    ProgressSize(i0, d0, i1, d1, n, off, src[..i]);
    Lengths(i0, d0, i1, d1, n);
    Chunks(Contents(i0, d0, n), off, src, i, Contents(i1, d1, n), n1, r);
  }

  lemma Lengths(i0: Inodes, d0: Data, i1: Inodes, d1: Data, n: int)
    requires n in i0 && n in i1 && i0[n].size >= 0 && i1[n].size >= 0
    ensures |Contents(i0, d0, n)| == i0[n].size && |Contents(i1, d1, n)| == i1[n].size
  {
  }

  lemma Chunks(s0: seq<int>, off: int, src: seq<int>, w: nat, s1: seq<int>, n1: nat, r: nat)
    requires r <= n1 && w + n1 <= |src| && 0 <= off && (w > 0 ==> off <= |s0|)
    requires s1 == (if w > 0 then Splice(s0, off, src[..w]) else s0)
    requires off + w <= |s1|
    ensures off <= |s0|
    ensures Splice(s1, off + w, src[w..w + n1][..r]) == if w + r > 0 then Splice(s0, off, src[..w + r]) else s0
  {
    SliceTwice(src, w, n1, r);
    assert |s1| >= off + w && off <= |s0|;
    hide Splice;
    if w > 0 {
      SpliceTwice(s0, off, src[..w], src[w..w + r]);
    } else {
      NoSplice(s0, off, src, r);
    }
  }

  lemma SliceTwice(src: seq<int>, w: nat, n1: nat, r: nat)
    requires r <= n1 && w + n1 <= |src|
    ensures src[w..w + n1][..r] == src[w..w + r] && src[..w] + src[w..w + r] == src[..w + r]
  {
  }

  lemma NoSplice(s: seq<int>, off: nat, src: seq<int>, r: nat)
    requires off <= |s| && r <= |src|
    ensures src[0..r] == src[..r] && (r == 0 ==> Splice(s, off, src[0..r]) == s)
  {
  }

  /** A write of at most three blocks' worth: aligned, it has three data blocks, all of them new
      perhaps; not aligned, it has four, of which the first was there.  With the bitmap blocks
      of the new ones, the indirect block and the inode that is MAXOPBLOCKS at most. */
  lemma LogBound(logged: set<int>, bmapstart: int, iblock: int, i0: Inodes, d0: Data, i1: Inodes, d1: Data, n: int,
                 off: int, cnt: int)
    requires LogOk({}, logged, bmapstart, iblock, i0, d0, i1, d1, n, off, cnt) && HoleFree(i0, d0) && n in i0
    requires 0 <= off <= i0[n].size
    requires 0 <= cnt <= 3072
    ensures |logged| <= MAXOPBLOCKS
  {
    hide At; hide Touches;
    var q, m := off / 1024, if off % 1024 == 0 then 0 else 1;
    var t, first, b1, b2, b3 := At(i1, d1, Addr(n, NDIRECT)), BlockAt(i1, d1, n, q), BlockAt(i1, d1, n, q + m),
                                BlockAt(i1, d1, n, q + m + 1), BlockAt(i1, d1, n, q + m + 2);
    var most := {iblock, t, BitBlock(bmapstart, t), first, b1, BitBlock(bmapstart, b1), b2, BitBlock(bmapstart, b2), b3,
                 BitBlock(bmapstart, b3)};
    forall b | b in logged ensures b in most {
      assert MayLog(bmapstart, iblock, i0, d0, i1, d1, n, off, cnt, b);
      if Touches(bmapstart, i0, d0, i1, d1, Addr(n, NDIRECT), b) {
        TouchedBy(bmapstart, i0, d0, i1, d1, Addr(n, NDIRECT), b);
      } else if bn :|
          off / 1024 <= bn < (off + cnt + 1023) / 1024 && Touches(bmapstart, i0, d0, i1, d1, Place(n, bn), b) {
        TouchedBy(bmapstart, i0, d0, i1, d1, Place(n, bn), b);
        if m == 1 && bn == q { assert BlockAt(i0, d0, n, q) != 0; }
      }
    }
    TenAtMost(iblock, t, BitBlock(bmapstart, t), first, b1, BitBlock(bmapstart, b1), b2, BitBlock(bmapstart, b2), b3,
              BitBlock(bmapstart, b3));
    SubsetSize(logged, most);
  }

  lemma TouchedBy(bmapstart: int, i0: Inodes, d0: Data, i1: Inodes, d1: Data, r: Ref, b: int)
    requires Touches(bmapstart, i0, d0, i1, d1, r, b)
    ensures b == At(i1, d1, r) || (At(i0, d0, r) == 0 && b == BitBlock(bmapstart, At(i1, d1, r)))
  {
  }

  lemma TenAtMost(a: int, b: int, c: int, d: int, e: int, f: int, g: int, h: int, i: int, j: int)
    ensures |{a, b, c, d, e, f, g, h, i, j}| <= 10
  {
    var x, y := {a, b, c, d, e}, {f, g, h, i, j};
    assert {a, b, c, d, e, f, g, h, i, j} == x + y;
    assert |x + y| <= |x| + |y|;
  }

  lemma BlockThere(inodes: Inodes, data: Data, n: int, at: int)
    requires InodesOk(inodes) && HoleFree(inodes, data) && n in inodes && 0 <= at < inodes[n].size
    ensures 0 <= at / 1024 < MAXFILE && BlockAt(inodes, data, n, at / 1024) != 0
  {
  }

  lemma ReadMore(inodes: Inodes, data: Data, n: int, off: int, at: int, m: int)
    requires n in inodes && 0 <= off <= at && 0 <= m && at + m <= inodes[n].size && at % 1024 + m <= BSIZE
    requires DataOk(data)
    requires 0 < BlockAt(inodes, data, n, at / 1024) < |data|
    ensures var c := Contents(inodes, data, n);
      c[off..at] + data[BlockAt(inodes, data, n, at / 1024)][at % 1024..at % 1024 + m] == c[off..at + m]
  {
    hide BlockAt;
    ReadChunk(inodes, data, n, at, m);
    var c := Contents(inodes, data, n);
    assert c[off..at] + c[at..at + m] == c[off..at + m];
  }

  lemma ReadChunk(inodes: Inodes, data: Data, n: int, at: int, m: int)
    requires n in inodes && 0 <= at && 0 <= m && at + m <= inodes[n].size && at % 1024 + m <= BSIZE && DataOk(data)
    requires 0 < BlockAt(inodes, data, n, at / 1024) < |data|
    ensures Contents(inodes, data, n)[at..at + m] == data[BlockAt(inodes, data, n, at / 1024)][at % 1024..at % 1024 + m]
  {
    var c, b := Contents(inodes, data, n)[at..at + m],
                data[BlockAt(inodes, data, n, at / 1024)][at % 1024..at % 1024 + m];
    forall k | 0 <= k < m ensures c[k] == b[k] {
      Spread(at, k);
    }
  }

  lemma Spread(at: int, k: int)
    requires at % 1024 + k < 1024 && k >= 0
    ensures (at + k) / 1024 == at / 1024 && (at + k) % 1024 == at % 1024 + k
  {
  }

  /** The references given up: addrs below i and words below j of file n. */
  ghost predicate GoneTo(n: int, i: int, j: int, gone: set<Ref>) {
    && (forall r :: r in gone ==> r.inum == n)
    && (forall k :: 0 <= k < i ==> Addr(n, k) in gone) && (forall k :: 0 <= k < j ==> Entry(n, k) in gone)
  }

  lemma NoneGone(used: seq<bool>, owner: map<int, Ref>)
    ensures Without(used, owner, {}, used, owner)
  {
  }

  lemma AddrOwner(first: int, used: seq<bool>, inodes: Inodes, data: Data, owner: map<int, Ref>, n: int, i: int,
                  dead: set<Ref>)
    requires Sound(first, used, inodes, data, owner, dead) && n in inodes && 0 <= i <= NDIRECT && Addr(n, i) !in dead
    ensures forall c :: c in owner && owner[c] == Addr(n, i) ==> c == inodes[n].addrs[i]
    ensures inodes[n].addrs[i] == 0 ==> forall c :: c in owner ==> owner[c] != Addr(n, i)
    ensures inodes[n].addrs[i] != 0 ==> 0 < inodes[n].addrs[i] < |data|
  {
    assert At(inodes, data, Addr(n, i)) == inodes[n].addrs[i];
  }

  lemma EntryOwner(first: int, used: seq<bool>, inodes: Inodes, data: Data, owner: map<int, Ref>, n: int, j: int)
    requires Sound(first, used, inodes, data, owner, Dead(n, j)) && n in inodes && 0 <= j < NINDIRECT
    ensures forall c :: c in owner && owner[c] == Entry(n, j) ==> c == Entries(inodes, data, n, j)
    ensures Entries(inodes, data, n, j) == 0 ==> forall c :: c in owner ==> owner[c] != Entry(n, j)
  {
    assert At(inodes, data, Entry(n, j)) == Entries(inodes, data, n, j);
  }

  lemma TableWords(inodes: Inodes, data: Data, n: int)
    requires n in inodes && InodesOk(inodes) && DataOk(data) && 0 < inodes[n].addrs[NDIRECT] < |data|
    ensures forall j :: 0 <= j < NINDIRECT ==> Entries(inodes, data, n, j) == Word(data[inodes[n].addrs[NDIRECT]], j)
  {
  }

  lemma DeadNone(n: int)
    ensures Dead(n, 0) == {}
  {
  }

  lemma NoTable(first: int, used: seq<bool>, inodes: Inodes, data: Data, owner: map<int, Ref>, n: int,
                used0: seq<bool>, owner0: map<int, Ref>, gone0: set<Ref>) returns (gone: set<Ref>)
    requires Sound(first, used, inodes, data, owner, {}) && n in inodes && inodes[n].addrs[NDIRECT] == 0
    requires Without(used0, owner0, gone0, used, owner) && GoneTo(n, NDIRECT, 0, gone0)
    ensures Without(used0, owner0, gone, used, owner) && GoneTo(n, NDIRECT + 1, NINDIRECT, gone)
    ensures inodes == inodes[n := inodes[n].(addrs := inodes[n].addrs[NDIRECT := 0])]
  {
    gone := gone0 + Dead(n, NINDIRECT) + {Addr(n, NDIRECT)};
    forall c | c in owner ensures owner[c] !in Dead(n, NINDIRECT) && owner[c] != Addr(n, NDIRECT) {
      assert At(inodes, data, owner[c]) == c;
    }
    assert inodes[n].addrs[NDIRECT := 0] == inodes[n].addrs;
  }

  lemma Truncated(first: int, used0: seq<bool>, i0: Inodes, data: Data, owner0: map<int, Ref>, gone: set<Ref>,
                  used: seq<bool>, i1: Inodes, owner: map<int, Ref>, n: int)
    requires Sound(first, used0, i0, data, owner0, {}) && HoleFree(i0, data) && n in i0
    requires Sound(first, used, i1, data, owner, {}) && n in i1 && i1 == i0[n := Inode(i1[n].addrs, i0[n].size)]
    requires Without(used0, owner0, gone, used, owner) && GoneTo(n, NDIRECT + 1, NINDIRECT, gone)
    ensures var i2 := i1[n := i1[n].(size := 0)];
      && Sound(first, used, i2, data, owner, {}) && HoleFree(i2, data) && Contents(i2, data, n) == []
      && (forall m :: m in i2 && m != n ==> Contents(i2, data, m) == Contents(i0, data, m))
    ensures forall b :: b in owner <==> b in owner0 && owner0[b].inum != n
    ensures forall b :: 0 <= b < |used| ==> (used[b] <==> used0[b] && !(b in owner0 && owner0[b].inum == n))
  {
    var i2 := i1[n := i1[n].(size := 0)];
    forall r ensures At(i2, data, r) == At(i1, data, r) {}
    forall b | b in owner0 ensures owner0[b].inum == n <==> owner0[b] in gone {
      var r := owner0[b];
      assert At(i0, data, r) == b;
      match r case Addr(m, i) => {} case Entry(m, j) => {}
    }
    forall m, bn | m in i2 && 0 <= bn && bn * BSIZE < i2[m].size ensures BlockAt(i2, data, m, bn) != 0 {
      assert BlockAt(i0, data, m, bn) != 0;
    }
    forall m | m in i2 && m != n ensures Contents(i2, data, m) == Contents(i0, data, m) {
      forall k | 0 <= k < i0[m].size ensures Contents(i2, data, m)[k] == Contents(i0, data, m)[k] {}
    }
  }

  lemma StepBytes(i1: Inodes, d1: Data, i2: Inodes, d2: Data, i3: Inodes, d3: Data, n: int, lo: int, hi: int)
    requires Grows(i1, d1, i2, d2) && Grows(i2, d2, i3, d3) && KeepsBytes(i1, d1, i2, d2, n, lo, lo)
    requires KeepsBytes(i2, d2, i3, d3, n, lo, hi) && lo <= hi
    ensures Grows(i1, d1, i3, d3) && KeepsBytes(i1, d1, i3, d3, n, lo, hi)
  {
    GrowsTrans(i1, d1, i2, d2, i3, d3);
    KeepsTrans(i1, d1, i2, d2, i3, d3, n, lo, lo, hi);
  }

  lemma LayBounds(lay: Layout, size: int, inodes: Inodes)
    requires LaidOut(lay, size, inodes)
    ensures 0 <= lay.inodestart <= lay.bmapstart && lay.bmapstart + size / 8192 < lay.first <= size
    ensures forall n :: n in inodes ==> 0 <= n && lay.inodestart + n / 16 < lay.bmapstart
  {
  }

  lemma FreshLayout(lay: Layout, size: int, n: nat, inodes: Inodes)
    requires 0 <= lay.inodestart && lay.inodestart + n / 16 < lay.bmapstart
    requires lay.bmapstart + size / 8192 < lay.first <= size
    requires forall i :: i in inodes ==> 0 <= i < n
    ensures LaidOut(lay, size, inodes)
  {
    forall i | i in inodes ensures i / 16 <= n / 16 {}
  }

  lemma LaidSame(lay: Layout, size: int, inodes: Inodes, n: int, x: Inode)
    requires LaidOut(lay, size, inodes) && n in inodes
    ensures LaidOut(lay, size, inodes[n := x])
  {
  }

  /** A block that is free is one of the blocks of files. */
  lemma FreeBlock(first: int, used: seq<bool>, owner: map<int, Ref>, b: int)
    requires Mapped(first, used, owner) && 0 <= b < |used| && !used[b]
    ensures first <= b
  {
  }

  lemma TableBlock(first: int, inodes: Inodes, data: Data, owner: map<int, Ref>, n: int)
    requires Owned(first, inodes, data, owner, {}) && n in inodes && |inodes[n].addrs| == NDIRECT + 1
    requires inodes[n].addrs[NDIRECT] != 0
    ensures first <= inodes[n].addrs[NDIRECT]
  {
    assert At(inodes, data, Addr(n, NDIRECT)) == inodes[n].addrs[NDIRECT];
  }

  lemma DataBlock(first: int, inodes: Inodes, data: Data, owner: map<int, Ref>, n: int, bn: int)
    requires Owned(first, inodes, data, owner, {}) && BlockAt(inodes, data, n, bn) != 0
    ensures first <= BlockAt(inodes, data, n, bn)
  {
    assert At(inodes, data, Place(n, bn)) != 0;
  }

  /** What balloc changes, it logs. */
  lemma Allocated(lay: Layout, used: seq<bool>, dinodes: Inodes, data: Data, b: int, puts: seq<Put>)
    requires 0 <= lay.inodestart <= lay.bmapstart && lay.bmapstart + |data| / 8192 < lay.first <= b < |used| == |data|
    ensures var used', bits := used[b := true], Put(BitBlock(lay.bmapstart, b), BitsOf(used[b := true], b / 8192));
      && Traced(Image(lay, used, dinodes, data), puts, Image(lay, used', dinodes, data[b := Zeros()]),
                puts + [bits] + [Put(b, Zeros())])
      && Logged(puts + [bits] + [Put(b, Zeros())]) == Logged(puts) + {BitBlock(lay.bmapstart, b)} + {b}
  {
    hide Image; hide Traced; hide Logged;
    var used', at := used[b := true], BitBlock(lay.bmapstart, b);
    var bits := BitsOf(used', b / 8192);
    var m0, m1 := Image(lay, used, dinodes, data), Image(lay, used', dinodes, data);
    BitChanges(lay, used, dinodes, data, b, true);
    TracedNone(m0, puts);
    TracedOne(m0, puts, m0, puts, at, bits);
    LoggedMore(puts, at, bits);
    DataChanges(lay, used', dinodes, data, b, Zeros());
    TracedOne(m0, puts, m1, puts + [Put(at, bits)], b, Zeros());
    LoggedMore(puts + [Put(at, bits)], b, Zeros());
  }

  lemma LogStart(logged: set<int>, bmapstart: int, iblock: int, inodes: Inodes, data: Data, n: int, off: int, cnt: int)
    ensures LogOk(logged, logged, bmapstart, iblock, inodes, data, inodes, data, n, off, cnt)
  {
  }

  lemma WrittenGrew(i0: Inodes, d0: Data, i1: Inodes, d1: Data, n: int, off: int, w: seq<int>)
    requires Written(i0, d0, i1, d1, n, off, w)
    ensures forall r :: At(i0, d0, r) != 0 ==> At(i1, d1, r) == At(i0, d0, r)
  {
  }

  /** The data block itself is logged when it has been written. */
  lemma WrittenToo(l0: set<int>, l1: set<int>, bmapstart: int, i0: Inodes, d0: Data, i1: Inodes, d1: Data, n: int,
                   bn: int)
    requires BmapLogs(l0, l1, bmapstart, i0, d0, i1, d1, n, bn)
    ensures var addr := BlockAt(i1, d1, n, bn);
      BmapLogs(l0, l1 + if addr == 0 then {} else {addr}, bmapstart, i0, d0, i1, d1, n, bn)
  {
  }

  lemma LogResize(logged0: set<int>, logged: set<int>, bmapstart: int, iblock: int, i0: Inodes, d0: Data,
                  inodes: Inodes, data: Data,
                  n: int, off: int, cnt: int, end: int)
    requires LogOk(logged0, logged, bmapstart, iblock, i0, d0, inodes, data, n, off, cnt) && n in inodes
    ensures LogOk(logged0, logged + {iblock}, bmapstart, iblock, i0, d0, Resize(inodes, n, end), data, n, off, cnt)
  {
    forall r ensures At(Resize(inodes, n, end), data, r) == At(inodes, data, r) { ResizeAt(inodes, data, n, end, r); }
    LogGrows(logged0, logged, bmapstart, iblock, i0, d0, inodes, data, n, off, cnt, Resize(inodes, n, end), data);
  }

  lemma SameBytes(inodes: Inodes, data: Data)
    ensures Grows(inodes, data, inodes, data) && forall m, lo, hi :: KeepsBytes(inodes, data, inodes, data, m, lo, hi)
  {
  }

  lemma KeepsAll(i0: Inodes, d0: Data, i1: Inodes, d1: Data, i2: Inodes, d2: Data)
    requires Grows(i0, d0, i1, d1)
    requires forall m, lo, hi :: KeepsBytes(i0, d0, i1, d1, m, lo, hi)
    requires forall m, lo, hi :: KeepsBytes(i1, d1, i2, d2, m, lo, hi)
    ensures forall m, lo, hi :: KeepsBytes(i0, d0, i2, d2, m, lo, hi)
  {
    hide Grows; hide KeepsBytes;
    forall m, lo, hi ensures KeepsBytes(i0, d0, i2, d2, m, lo, hi) {
      assert KeepsBytes(i0, d0, i1, d1, m, lo, lo) && KeepsBytes(i1, d1, i2, d2, m, lo, lo);
      KeepsTrans(i0, d0, i1, d1, i2, d2, m, lo, lo, lo);
      KeepsLess(i0, d0, i2, d2, m, lo, hi);
    }
  }

  lemma KeepsLess(i0: Inodes, d0: Data, i1: Inodes, d1: Data, m: int, lo: int, hi: int)
    requires KeepsBytes(i0, d0, i1, d1, m, lo, lo)
    ensures KeepsBytes(i0, d0, i1, d1, m, lo, hi)
  {
  }
}
