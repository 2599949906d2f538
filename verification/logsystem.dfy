/** The logging system over whole runs: any number of concurrent file-system operations, group
    commit, crashes at any block write, and recoveries that may crash again (kernel/log.c).

    Every step is one critical section under log.lock, or one block write.  `hist`, `current`,
    `committed` and `mark` are history variables: all updates ever logged, the operations of the
    running transaction, those whose transaction has committed, and how many of the updates were
    made before the last crash. */
module LogSystem {
  import opened RedoLog
  import opened Sets

  datatype Update = Update(op: int, b: int, v: Block)

  datatype Phase =
    | Normal
    | Committing(base: Disk, vals: seq<Block>, k: nat)
    | Off
    | Recovering(base: Disk, k: nat)

  datatype State = State(
    disk: Disk,
    phase: Phase,
    ops: map<int, set<int>>, // outstanding operations and the blocks each has logged
    blocks: seq<int>, // log.lh.block[0..n)
    cache: map<int, Block>, // home blocks as the buffer cache shows them
    used: set<int>,
    hist: seq<Update>,
    current: set<int>,
    committed: set<int>,
    mark: nat)

  datatype Event =
    | Begin(op: int)
    | LogWrite(op: int, b: int, v: Block)
    | End(op: int)
    | BlockWrite
    | Crash
    | Boot

  /** The updates of the given operations, in order. */
  function Only(h: seq<Update>, who: set<int>): (r: seq<Update>)
  {
    if h == [] then [] else
      var rest := Only(h[..|h| - 1], who);
      if h[|h| - 1].op in who then rest + [h[|h| - 1]] else rest
  }

  /** A file system after a sequence of updates. */
  function Replay(m: map<int, Block>, h: seq<Update>): (r: map<int, Block>)
  {
    if h == [] then m else
      Replay(m, h[..|h| - 1])[h[|h| - 1].b := h[|h| - 1].v]
  }

  function Contents(cache: map<int, Block>, blocks: seq<int>): (vals: seq<Block>)
    requires forall i :: 0 <= i < |blocks| ==> blocks[i] in cache
  {
    seq(|blocks|, i requires 0 <= i < |blocks| => cache[blocks[i]])
  }

  /** log_write's two guards: "too big a transaction". */
  predicate TooBig(g: Geometry, blocks: seq<int>) {
    |blocks| >= LOGSIZE || |blocks| >= g.size - 1
  }

  /** begin_op's admission test. */
  predicate Admits(s: State) {
    s.phase == Normal && |s.blocks| + (|s.ops| + 1) * MAXOPBLOCKS <= LOGSIZE
  }

  ghost predicate BeginStep(s: State, op: int, s': State) {
    && Admits(s) && op !in s.used
    && s' == s.(ops := s.ops[op := {}], used := s.used + {op}, current := s.current + {op})
  }

  /** The caller's part: inside an operation, a home block, at most MAXOPBLOCKS of them. */
  predicate MayLog(g: Geometry, s: State, op: int, b: int) {
    && s.phase == Normal && op in s.ops && IsHome(g, |s.disk|, b)
    && |s.ops[op] + {b}| <= MAXOPBLOCKS
  }

  ghost predicate LogWriteStep(g: Geometry, s: State, op: int, b: int, v: Block, s': State) {
    && MayLog(g, s, op, b) && !TooBig(g, s.blocks)
    && s' == s.(
        ops := s.ops[op := s.ops[op] + {b}],
        blocks := if IndexOf(s.blocks, b) < |s.blocks| then s.blocks else s.blocks + [b],
        cache := s.cache[b := v],
        hist := s.hist + [Update(op, b, v)])
  }

  ghost predicate EndStep(s: State, op: int, s': State) {
    && s.phase == Normal && op in s.ops
    && (forall i :: 0 <= i < |s.blocks| ==> s.blocks[i] in s.cache)
    && var rest := s.ops - {op};
    && s' == s.(
        ops := rest,
        phase := if rest.Keys == {} && s.blocks != [] then Committing(s.disk, Contents(s.cache, s.blocks), 0)
                 else Normal)
  }

  /** The next block write of commit(); the header write makes the transaction count. */
  ghost predicate CommitStep(g: Geometry, s: State, s': State) {
    && s.phase.Committing?
    && var Committing(base, vals, k) := s.phase;
    && var n := |s.blocks|;
    && ValidDisk(g, base) && |vals| == n <= LOGSIZE
    && var ws := CommitWrites(g, base[g.start], s.blocks, vals);
    && k < |ws| && 0 <= ws[k].b < |s.disk|
    && s' == s.(
        disk := s.disk[ws[k].b := ws[k].v],
        phase := if k + 1 == |ws| then Normal else Committing(base, vals, k + 1),
        blocks := if k + 1 == |ws| then [] else s.blocks,
        current := if k == n then {} else s.current,
        committed := if k == n then s.committed + s.current else s.committed)
  }

  ghost predicate RecoverStep(g: Geometry, s: State, s': State) {
    && s.phase.Recovering?
    && var Recovering(base, k) := s.phase;
    && ValidDisk(g, base)
    && var ws := RecoverWrites(g, base);
    && k < |ws| && 0 <= ws[k].b < |s.disk|
    && var d := s.disk[ws[k].b := ws[k].v];
    && ValidDisk(g, d)
    && s' == s.(
        disk := d,
        phase := if k + 1 == |ws| then Normal else Recovering(base, k + 1),
        cache := if k + 1 == |ws| then HomeView(g, d) else s.cache)
  }

  ghost predicate Step(g: Geometry, s: State, e: Event, s': State) {
    match e
    case Begin(op) => BeginStep(s, op, s')
    case LogWrite(op, b, v) => LogWriteStep(g, s, op, b, v, s')
    case End(op) => EndStep(s, op, s')
    case BlockWrite => CommitStep(g, s, s') || RecoverStep(g, s, s')
    case Crash => s' == s.(phase := Off, ops := map[], blocks := [], cache := map[], current := {}, mark := |s.hist|)
    case Boot => s.phase == Off && s' == s.(phase := Recovering(s.disk, 0))
  }

  ghost predicate Init(g: Geometry, init: map<int, Block>, s: State) {
    && ValidDisk(g, s.disk) && Listed(g, s.disk) == [] && HomeView(g, s.disk) == init
    && s == State(s.disk, Normal, map[], [], init, {}, [], {}, {}, 0)
  }

  /** s is reached from an initial state by n steps. */
  ghost predicate Reaches(g: Geometry, init: map<int, Block>, s: State, n: nat)
    decreases n
  {
    if n == 0 then Init(g, init, s)
    else exists p, e :: Reaches(g, init, p, n - 1) && Step(g, p, e, s)
  }

  ghost predicate Reachable(g: Geometry, init: map<int, Block>, s: State) {
    exists n: nat :: Reaches(g, init, s, n)
  }

  lemma ReachableNext(g: Geometry, init: map<int, Block>, p: State, e: Event, s: State)
    requires Reachable(g, init, p) && Step(g, p, e, s)
    ensures Reachable(g, init, s)
  {
    hide Step; hide Init;
    var n: nat :| Reaches(g, init, p, n);
    assert Reaches(g, init, s, n + 1);
  }

  lemma ReachableInit(g: Geometry, init: map<int, Block>, s: State)
    requires Init(g, init, s)
    ensures Reachable(g, init, s)
  {
    hide Init;
    assert Reaches(g, init, s, 0);
  }

  // ---------------------------------------------------------------- reserved log space

  /** Log space still promised to the given operations. */
  ghost function Reserved(who: set<int>, ops: map<int, set<int>>): (r: int)
    requires who <= ops.Keys
  {
    if !exists o :: o in who then 0 else
      var o :| o in who;
      MAXOPBLOCKS - |ops[o]| + Reserved(who - {o}, ops)
  }

  lemma {:induction false} ReservedWithout(who: set<int>, ops: map<int, set<int>>, o: int)
    requires o in who && who <= ops.Keys
    ensures Reserved(who, ops) == MAXOPBLOCKS - |ops[o]| + Reserved(who - {o}, ops)
  {
    var p :| p in who && Reserved(who, ops) == MAXOPBLOCKS - |ops[p]| + Reserved(who - {p}, ops);
    if p != o {
      ReservedWithout(who - {p}, ops, o);
      ReservedWithout(who - {o}, ops, p);
      assert who - {p} - {o} == who - {o} - {p};
    }
  }

  lemma {:induction false} ReservedBounds(who: set<int>, ops: map<int, set<int>>)
    requires who <= ops.Keys && forall o :: o in ops ==> |ops[o]| <= MAXOPBLOCKS
    ensures 0 <= Reserved(who, ops) <= |who| * MAXOPBLOCKS
  {
    if exists p :: p in who {
      var p :| p in who;
      ReservedWithout(who, ops, p);
      ReservedBounds(who - {p}, ops);
    }
  }

  lemma {:induction false} ReservedSame(who: set<int>, ops: map<int, set<int>>, ops': map<int, set<int>>)
    requires who <= ops.Keys && who <= ops'.Keys && forall o :: o in who ==> ops[o] == ops'[o]
    ensures Reserved(who, ops) == Reserved(who, ops')
  {
    if exists p :: p in who {
      var p :| p in who;
      ReservedWithout(who, ops, p);
      ReservedWithout(who, ops', p);
      ReservedSame(who - {p}, ops, ops');
    }
  }

  lemma ReservedSet(ops: map<int, set<int>>, o: int, x: set<int>)
    ensures Reserved(ops.Keys + {o}, ops[o := x]) ==
      MAXOPBLOCKS - |x|
      + (if o in ops then Reserved(ops.Keys, ops) - (MAXOPBLOCKS - |ops[o]|) else Reserved(ops.Keys, ops))
  {
    var ops' := ops[o := x];
    ReservedWithout(ops.Keys + {o}, ops', o);
    assert ops.Keys + {o} - {o} == ops.Keys - {o};
    ReservedSame(ops.Keys - {o}, ops, ops');
    if o in ops { ReservedWithout(ops.Keys, ops, o); } else { assert ops.Keys - {o} == ops.Keys; }
  }

  // ---------------------------------------------------------------- the invariant

  ghost predicate OpsOk(s: State) {
    && s.ops.Keys <= s.current && s.current !! s.committed && s.current + s.committed <= s.used
    && (forall i :: 0 <= i < |s.hist| ==> s.hist[i].op in s.used)
    && s.mark <= |s.hist| && (forall i :: s.mark <= i < |s.hist| ==> s.hist[i].op in s.current + s.committed)
  }

  ghost predicate SpaceOk(s: State) {
    && (forall o :: o in s.ops ==> |s.ops[o]| <= MAXOPBLOCKS)
    && (forall o, b :: o in s.ops && b in s.ops[o] ==> b in s.blocks)
    && |s.blocks| + Reserved(s.ops.Keys, s.ops) <= LOGSIZE
  }

  ghost predicate DiskOk(g: Geometry, init: map<int, Block>, s: State) {
    ValidDisk(g, s.disk) && HomeView(g, s.disk) == Replay(init, Only(s.hist, s.committed))
  }

  /** The cache shows the disk with the logged blocks replaced by what was logged. */
  ghost predicate CacheOk(g: Geometry, init: map<int, Block>, s: State, base: Disk) {
    && ValidDisk(g, base) && |base| == |s.disk| && Listed(g, base) == [] && Listable(g, |base|, s.blocks)
    && s.cache.Keys == HomeView(g, base).Keys
    && (forall b :: b in s.cache && b !in s.blocks ==> s.cache[b] == HomeView(g, base)[b])
    && s.cache == Replay(init, Only(s.hist, s.committed + s.current))
  }

  ghost predicate PhaseOk(g: Geometry, init: map<int, Block>, s: State) {
    match s.phase
    case Normal => CacheOk(g, init, s, s.disk)
    case Committing(base, vals, k) =>
      && s.ops == map[] && CacheOk(g, init, s, base)
      && vals == Contents(s.cache, s.blocks)
      && k < 2 * |s.blocks| + 2
      && var cut := CommitWrites(g, base[g.start], s.blocks, vals)[..k];
      && InBounds(|base|, cut) && s.disk == Apply(base, cut)
      && (k > |s.blocks| ==> s.current == {})
      && (k <= |s.blocks| ==> HomeView(g, base) == Replay(init, Only(s.hist, s.committed)))
    case Off => s.ops == map[] && s.blocks == [] && s.current == {}
    case Recovering(base, k) =>
      && s.ops == map[] && s.blocks == [] && s.current == {}
      && ValidDisk(g, base) && |base| == |s.disk| && k < |RecoverWrites(g, base)|
      && var cut := RecoverWrites(g, base)[..k];
      && InBounds(|base|, cut) && s.disk == Apply(base, cut)
  }

  ghost predicate Inv(g: Geometry, init: map<int, Block>, s: State) {
    OpsOk(s) && SpaceOk(s) && DiskOk(g, init, s) && PhaseOk(g, init, s)
  }

  lemma InitInv(g: Geometry, init: map<int, Block>, s: State)
    requires Init(g, init, s)
    ensures Inv(g, init, s)
  {
  }

  // ---------------------------------------------------------------- one lemma per event

  lemma {:induction false} OnlyOthers(h: seq<Update>, who: set<int>, op: int)
    requires forall i :: 0 <= i < |h| ==> h[i].op != op
    ensures Only(h, who + {op}) == Only(h, who)
  {
    if h != [] { OnlyOthers(h[..|h| - 1], who, op); }
  }

  lemma BeginSpace(s: State, op: int, s': State)
    requires OpsOk(s) && SpaceOk(s) && BeginStep(s, op, s')
    ensures SpaceOk(s')
  {
    hide Reserved;
    BeginReserve(s.ops, op);
  }

  lemma BeginReserve(ops: map<int, set<int>>, op: int)
    requires op !in ops && forall o :: o in ops ==> |ops[o]| <= MAXOPBLOCKS
    ensures var ops' := ops[op := {}]; Reserved(ops'.Keys, ops') <= (|ops| + 1) * MAXOPBLOCKS
  {
    hide Reserved;
    ReservedSet(ops, op, {});
    ReservedBounds(ops.Keys, ops);
    assert ops[op := {}].Keys == ops.Keys + {op};
  }

  lemma BeginInv(g: Geometry, init: map<int, Block>, s: State, op: int, s': State)
    requires Inv(g, init, s) && BeginStep(s, op, s')
    ensures Inv(g, init, s')
  {
    hide HomeView; hide ValidDisk; hide Listable; hide Replay; hide SpaceOk;
    assert SpaceOk(s') by { BeginSpace(s, op, s'); }
    OnlyOthers(s.hist, s.committed + s.current, op);
    assert s'.committed + s'.current == s.committed + s.current + {op};
  }

  lemma AppendKeepsDistinct(g: Geometry, len: nat, blocks: seq<int>, b: int)
    requires Listable(g, len, blocks) && !TooBig(g, blocks) && IsHome(g, len, b) && IndexOf(blocks, b) == |blocks|
    ensures Listable(g, len, blocks + [b])
  {
    forall i, j | 0 <= i < j < |blocks + [b]| ensures (blocks + [b])[i] != (blocks + [b])[j] {}
  }

  lemma ReplayAppend(m: map<int, Block>, h: seq<Update>, who: set<int>, u: Update)
    ensures Only(h + [u], who) == if u.op in who then Only(h, who) + [u] else Only(h, who)
    ensures u.op in who ==> Replay(m, Only(h + [u], who)) == Replay(m, Only(h, who))[u.b := u.v]
  {
    assert (h + [u])[..|h|] == h;
    var r := Only(h, who) + [u];
    assert r[..|r| - 1] == Only(h, who);
  }

  lemma LogWriteCache(g: Geometry, init: map<int, Block>, s: State, op: int, b: int, v: Block, s': State)
    requires Inv(g, init, s) && LogWriteStep(g, s, op, b, v, s')
    ensures CacheOk(g, init, s', s'.disk)
  {
    ReplayAppend(init, s.hist, s.committed + s.current, Update(op, b, v));
    if IndexOf(s.blocks, b) == |s.blocks| { AppendKeepsDistinct(g, |s.disk|, s.blocks, b); }
  }

  lemma LogWriteSpace(g: Geometry, init: map<int, Block>, s: State, op: int, b: int, v: Block, s': State)
    requires Inv(g, init, s) && LogWriteStep(g, s, op, b, v, s')
    ensures SpaceOk(s')
  {
    ReservedSet(s.ops, op, s.ops[op] + {b});
    assert s'.ops.Keys == s.ops.Keys + {op};
    if IndexOf(s.blocks, b) == |s.blocks| {
      assert b !in s.blocks;
    } else {
      assert s.blocks[IndexOf(s.blocks, b)] == b;
      assert |s.ops[op]| <= |s.ops[op] + {b}| by {
        assert b in s.ops[op] ==> s.ops[op] + {b} == s.ops[op];
      }
    }
  }

  lemma LogWriteInv(g: Geometry, init: map<int, Block>, s: State, op: int, b: int, v: Block, s': State)
    requires Inv(g, init, s) && LogWriteStep(g, s, op, b, v, s')
    ensures Inv(g, init, s')
  {
    LogWriteCache(g, init, s, op, b, v, s');
    LogWriteSpace(g, init, s, op, b, v, s');
    ReplayAppend(init, s.hist, s.committed, Update(op, b, v));
  }

  lemma EndInv(g: Geometry, init: map<int, Block>, s: State, op: int, s': State)
    requires Inv(g, init, s) && EndStep(s, op, s')
    ensures Inv(g, init, s')
  {
    EndSpace(s, op, s');
    EndPhase(g, init, s, op, s');
    hide SpaceOk; hide PhaseOk;
  }

  lemma EndSpace(s: State, op: int, s': State)
    requires SpaceOk(s) && EndStep(s, op, s')
    ensures SpaceOk(s')
  {
    ReservedWithout(s.ops.Keys, s.ops, op);
    assert s'.ops.Keys == s.ops.Keys - {op};
    ReservedSame(s'.ops.Keys, s.ops, s'.ops);
    ReservedBounds(s.ops.Keys, s.ops);
  }

  lemma EndPhase(g: Geometry, init: map<int, Block>, s: State, op: int, s': State)
    requires DiskOk(g, init, s) && PhaseOk(g, init, s) && EndStep(s, op, s')
    ensures PhaseOk(g, init, s')
  {
    hide HomeView; hide Replay; hide Only;
    if s'.phase.Committing? {
      assert CommitWrites(g, s.disk[g.start], s.blocks, s'.phase.vals)[..0] == [];
    }
  }

  /** What the header write of a commit publishes is what the cache shows. */
  lemma OverlayIsCache(m: map<int, Block>, blocks: seq<int>, cache: map<int, Block>)
    requires cache.Keys == m.Keys && forall i :: 0 <= i < |blocks| ==> blocks[i] in cache
    requires forall b :: b in cache && b !in blocks ==> cache[b] == m[b]
    ensures Overlay(m, blocks, Contents(cache, blocks)) == cache
  {
    forall b | b in m ensures Overlay(m, blocks, Contents(cache, blocks))[b] == cache[b] {
      if IndexOf(blocks, b) == |blocks| { assert b !in blocks; }
    }
  }

  /** What the next block write of a commit does to the disk. */
  lemma CommitStepDisk(g: Geometry, base: Disk, blocks: seq<int>, vals: seq<Block>, ws: seq<Write>, k: nat, d: Disk)
    requires ValidDisk(g, base) && Listed(g, base) == [] && Listable(g, |base|, blocks) && |vals| == |blocks|
    requires ws == CommitWrites(g, base[g.start], blocks, vals) && k < |ws|
    requires InBounds(|base|, ws[..k]) && d == Apply(base, ws[..k]) && 0 <= ws[k].b < |base|
    ensures InBounds(|base|, ws[..k + 1])
    ensures var d' := d[ws[k].b := ws[k].v];
      && d' == Apply(base, ws[..k + 1]) && ValidDisk(g, d')
      && HomeView(g, d') == (if k < |blocks| then HomeView(g, base) else Overlay(HomeView(g, base), blocks, vals))
      && (k + 1 == |ws| ==> Listed(g, d') == [])
  {
    hide HomeView; hide Overlay; hide LogWrites; hide InstallWrites; hide ValidDisk; hide Listable; hide Listed;
    CommitPrefix(g, base, blocks, vals, |ws|, ws[..|ws|]);
    assert ws[..|ws|] == ws;
    CommitPrefix(g, base, blocks, vals, k + 1, ws[..k + 1]);
    ApplyStep(base, ws, k);
  }

  /** The next block write of a commit, in terms of the cache. */
  ghost predicate Wrote(g: Geometry, s: State, d: Disk)
    requires s.phase.Committing? && ValidDisk(g, s.phase.base) && |s.phase.vals| == |s.blocks| <= LOGSIZE
  {
    var Committing(base, vals, k) := s.phase;
    var ws := CommitWrites(g, base[g.start], s.blocks, vals);
    && k < |ws| && InBounds(|base|, ws[..k + 1]) && d == Apply(base, ws[..k + 1]) && ValidDisk(g, d)
    && HomeView(g, d) == (if k < |s.blocks| then HomeView(g, base) else s.cache)
    && (k + 1 == |ws| ==> Listed(g, d) == [])
  }

  lemma CommitFacts(g: Geometry, init: map<int, Block>, s: State)
    requires PhaseOk(g, init, s) && s.phase.Committing?
    ensures var Committing(base, vals, k) := s.phase;
      && ValidDisk(g, base) && Listed(g, base) == [] && Listable(g, |base|, s.blocks) && |base| == |s.disk|
      && (forall i :: 0 <= i < |s.blocks| ==> s.blocks[i] in s.cache) && s.cache.Keys == HomeView(g, base).Keys
      && (forall b :: b in s.cache && b !in s.blocks ==> s.cache[b] == HomeView(g, base)[b])
      && |vals| == |s.blocks| <= LOGSIZE && vals == Contents(s.cache, s.blocks)
      && var cut := CommitWrites(g, base[g.start], s.blocks, vals);
      k < |cut| && InBounds(|base|, cut[..k]) && s.disk == Apply(base, cut[..k])
  {
    hide Replay; hide Only; hide Apply; hide LogWrites; hide InstallWrites; hide IndexOf; hide Redo;
  }

  lemma CommitWritesNext(g: Geometry, init: map<int, Block>, s: State, s': State)
    requires PhaseOk(g, init, s) && CommitStep(g, s, s')
    ensures Wrote(g, s, s'.disk)
  {
    hide HomeView; hide Overlay; hide LogWrites; hide InstallWrites; hide Apply; hide Listable; hide PhaseOk;
    hide Listed; hide Contents; hide IndexOf; hide CommitWrites;
    CommitFacts(g, init, s);
    var Committing(base, vals, k) := s.phase;
    OverlayIsCache(HomeView(g, base), s.blocks, s.cache);
    CommitStepDisk(g, base, s.blocks, vals, CommitWrites(g, base[g.start], s.blocks, vals), k, s.disk);
  }

  lemma CommitWriteDisk(g: Geometry, init: map<int, Block>, s: State, s': State)
    requires DiskOk(g, init, s) && PhaseOk(g, init, s) && CommitStep(g, s, s') && Wrote(g, s, s'.disk)
    ensures DiskOk(g, init, s')
  {
    hide HomeView; hide LogWrites; hide InstallWrites; hide Apply; hide Listable; hide Listed; hide Replay; hide Only;
    if s.current == {} { assert s.committed + s.current == s.committed; }
  }

  lemma CommitWritePhase(g: Geometry, init: map<int, Block>, s: State, s': State)
    requires PhaseOk(g, init, s) && CommitStep(g, s, s') && DiskOk(g, init, s') && Wrote(g, s, s'.disk)
    ensures PhaseOk(g, init, s')
  {
    hide HomeView; hide Replay; hide LogWrites; hide InstallWrites; hide Apply; hide IndexOf; hide Listed; hide Only;
    hide ValidDisk;
    assert (s.committed + s.current) + {} == s.committed + s.current;
    if s.phase.k + 1 == 2 * |s.blocks| + 2 {
      assert Listable(g, |s'.disk|, []);
    }
  }

  lemma CommittingIdle(g: Geometry, init: map<int, Block>, s: State)
    requires PhaseOk(g, init, s) && s.phase.Committing?
    ensures s.ops == map[]
  {
  }

  lemma CommitWriteInv(g: Geometry, init: map<int, Block>, s: State, s': State)
    requires Inv(g, init, s) && CommitStep(g, s, s')
    ensures Inv(g, init, s')
  {
    CommittingIdle(g, init, s);
    hide DiskOk; hide PhaseOk; hide Wrote;
    CommitWritesNext(g, init, s, s');
    CommitWriteDisk(g, init, s, s');
    CommitWritePhase(g, init, s, s');
  }

  lemma RecoverWriteInv(g: Geometry, init: map<int, Block>, s: State, s': State)
    requires Inv(g, init, s) && RecoverStep(g, s, s')
    ensures Inv(g, init, s')
  {
    var base, k := s.phase.base, s.phase.k;
    var ws := RecoverWrites(g, base);
    RecoverPrefix(g, base, k);
    RecoverPrefix(g, base, k + 1);
    ApplyStep(base, ws, k);
    assert s.committed + s.current == s.committed;
  }

  lemma CrashInv(g: Geometry, init: map<int, Block>, s: State, s': State)
    requires Inv(g, init, s) && Step(g, s, Crash, s')
    ensures Inv(g, init, s')
  {
  }

  lemma BootInv(g: Geometry, init: map<int, Block>, s: State, s': State)
    requires Inv(g, init, s) && s.phase == Off && s' == s.(phase := Recovering(s.disk, 0))
    ensures Inv(g, init, s')
  {
    assert RecoverWrites(g, s.disk)[..0] == [];
  }

  lemma StepInv(g: Geometry, init: map<int, Block>, s: State, e: Event, s': State)
    requires Inv(g, init, s) && Step(g, s, e, s')
    ensures Inv(g, init, s')
  {
    hide BeginStep; hide LogWriteStep; hide EndStep; hide CommitStep; hide RecoverStep;
    match e
    case Begin(op) => BeginInv(g, init, s, op, s');
    case LogWrite(op, b, v) => LogWriteInv(g, init, s, op, b, v, s');
    case End(op) => EndInv(g, init, s, op, s');
    case BlockWrite =>
      if CommitStep(g, s, s') { CommitWriteInv(g, init, s, s'); } else { RecoverWriteInv(g, init, s, s'); }
    case Crash => CrashInv(g, init, s, s');
    case Boot => BootInv(g, init, s, s');
  }

  // ---------------------------------------------------------------- theorems over all runs

  lemma {:induction false} RunInv(g: Geometry, init: map<int, Block>, s: State, n: nat)
    requires Reaches(g, init, s, n)
    ensures Inv(g, init, s)
    decreases n
  {
    hide Inv; hide Step; hide Init;
    if n == 0 {
      InitInv(g, init, s);
    } else {
      var p, e :| Reaches(g, init, p, n - 1) && Step(g, p, e, s);
      RunInv(g, init, p, n - 1);
      StepInv(g, init, p, e, s);
    }
  }

  /** File-system operations are atomic and durable.  Stop any run at any point, let any number
      of recoveries crash and one complete: each home block then holds what the updates of the
      committed operations, all of them and no others, left in it, and no operation still
      outstanding is among the committed ones. */
  lemma OperationsAreAtomic(g: Geometry, init: map<int, Block>, s: State, cuts: seq<nat>)
    requires Reachable(g, init, s)
    ensures ValidDisk(g, s.disk)
    ensures var r := Boots(g, s.disk, cuts);
      && Replay(init, Only(s.hist, s.committed)).Keys == HomeView(g, r).Keys
      && forall b :: IsHome(g, |r|, b) ==> r[b] == Replay(init, Only(s.hist, s.committed))[b]
    ensures s.ops.Keys !! s.committed
  {
    var n: nat :| Reaches(g, init, s, n);
    RunInv(g, init, s, n);
    var r := Boots(g, s.disk, cuts);
    forall b | IsHome(g, |r|, b) ensures r[b] == Replay(init, Only(s.hist, s.committed))[b] {
      assert HomeView(g, r)[b] == r[b];
    }
  }

  /** A commit runs only with no operation outstanding, so it never contains half of one. */
  lemma CommitsWholeOperations(g: Geometry, init: map<int, Block>, s: State)
    requires Reachable(g, init, s)
    ensures s.phase.Committing? ==> |s.ops| == 0
  {
    var n: nat :| Reaches(g, init, s, n);
    RunInv(g, init, s, n);
  }

  /** Committed operations stay committed, whatever happens later. */
  lemma StepKeepsCommitted(g: Geometry, s: State, e: Event, s': State)
    requires Step(g, s, e, s')
    ensures s.committed <= s'.committed
    ensures Only(s'.hist, s.committed)[..|Only(s.hist, s.committed)|] == Only(s.hist, s.committed)
  {
    if s'.hist != s.hist {
      assert s'.hist[..|s'.hist| - 1] == s.hist;
    }
  }

  /** An operation that keeps to MAXOPBLOCKS blocks always finds room to append. */
  lemma AppendHasRoom(g: Geometry, init: map<int, Block>, s: State, op: int, b: int)
    requires Reachable(g, init, s) && op in s.ops
    requires b !in s.blocks && |s.ops[op] + {b}| <= MAXOPBLOCKS
    ensures |s.blocks| < LOGSIZE
  {
    var n: nat :| Reaches(g, init, s, n);
    RunInv(g, init, s, n);
    assert b !in s.ops[op];
    ReservedWithout(s.ops.Keys, s.ops, op);
    ReservedBounds(s.ops.Keys - {op}, s.ops);
  }

  // ---------------------------------------------------------------- the guards, exactly

  /** A run in which three operations log ten blocks each, after its first k blocks. */
  ghost predicate Filling(g: Geometry, d: Disk, k: nat, s: State) {
    && s.disk == d && s.phase == Normal
    && |s.blocks| == k && (forall i :: 0 <= i < k ==> s.blocks[i] == g.start + g.size + i)
    && 0 in s.ops && 1 in s.ops && 2 in s.ops
    && forall o: int, b: int :: 0 <= o < 3 && b in s.ops[o] ==> g.start + g.size + 10 * o <= b < g.start + g.size + k
  }

  /** In such a run an operation with its share not used up may log the next block. */
  lemma FillingNext(g: Geometry, d: Disk, k: nat, s: State)
    requires Filling(g, d, k, s) && k < LOGSIZE && g.start + g.size + k < |d|
    ensures MayLog(g, s, k / 10, g.start + g.size + k) && g.start + g.size + k !in s.blocks
  {
    var op, b := k / 10, g.start + g.size + k;
    FillingSmall(g, d, k, s, op, b);
  }

  lemma FillingSmall(g: Geometry, d: Disk, k: nat, s: State, op: int, b: int)
    requires Filling(g, d, k, s) && 0 <= op < 3 && 10 * op <= k < 10 * op + 10 && b == g.start + g.size + k
    ensures op in s.ops && |s.ops[op] + {b}| <= MAXOPBLOCKS
  {
    FillingShare(g, d, k, s, op);
    hide Filling;
    SubsetSize(s.ops[op] + {b}, Range(g.start + g.size + 10 * op, b + 1));
  }

  lemma FillingShare(g: Geometry, d: Disk, k: nat, s: State, op: int)
    requires Filling(g, d, k, s) && 0 <= op < 3
    ensures op in s.ops && forall x :: x in s.ops[op] ==> g.start + g.size + 10 * op <= x < g.start + g.size + k
  {
  }

  lemma FillingStart(g: Geometry, d: Disk) returns (s: State)
    requires ValidDisk(g, d) && Listed(g, d) == []
    ensures Reachable(g, HomeView(g, d), s) && Filling(g, d, 0, s)
  {
    hide Reachable; hide HomeView; hide ValidDisk;
    var m := HomeView(g, d);
    var s0 := State(d, Normal, map[], [], m, {}, [], {}, {}, 0);
    var s1 := s0.(ops := map[0 := {}], used := {0}, current := {0});
    var s2 := s1.(ops := s1.ops[1 := {}], used := s1.used + {1}, current := s1.current + {1});
    s := s2.(ops := s2.ops[2 := {}], used := s2.used + {2}, current := s2.current + {2});
    assert s.ops[0] == s.ops[1] == s.ops[2] == {};
    assert Filling(g, d, 0, s);
    hide Filling; hide LogWriteStep; hide EndStep; hide CommitStep; hide RecoverStep;
    ReachableInit(g, m, s0);
    ReachableNext(g, m, s0, Begin(0), s1);
    ReachableNext(g, m, s1, Begin(1), s2);
    ReachableNext(g, m, s2, Begin(2), s);
  }

  lemma {:induction false} FillingReached(g: Geometry, d: Disk, k: nat) returns (s: State)
    requires ValidDisk(g, d) && Listed(g, d) == [] && g.start + g.size + k <= |d|
    requires k <= LOGSIZE && k <= g.size - 1
    ensures Reachable(g, HomeView(g, d), s) && Filling(g, d, k, s)
  {
    hide Reachable; hide HomeView; hide ValidDisk; hide Filling; hide LogWriteStep; hide BeginStep; hide EndStep;
    hide CommitStep; hide RecoverStep; hide Listed;
    if k == 0 {
      s := FillingStart(g, d);
    } else {
      var p := FillingReached(g, d, k - 1);
      s := FillingMore(g, d, k - 1, p);
      ReachableNext(g, HomeView(g, d), p, LogWrite((k - 1) / 10, g.start + g.size + k - 1, []), s);
    }
  }

  lemma FillingMore(g: Geometry, d: Disk, k: nat, p: State) returns (s: State)
    requires Filling(g, d, k, p) && g.start + g.size + k < |d| && k < LOGSIZE && k < g.size - 1
    ensures LogWriteStep(g, p, k / 10, g.start + g.size + k, [], s) && Filling(g, d, k + 1, s)
  {
    FillingNext(g, d, k, p);
    var op, b := k / 10, g.start + g.size + k;
    s := p.(ops := p.ops[op := p.ops[op] + {b}], blocks := p.blocks + [b], cache := p.cache[b := []],
            hist := p.hist + [Update(op, b, [])]);
  }

  /** Some operation keeping to its limit meets the guard when it appends. */
  ghost predicate AppendCanPanic(g: Geometry, init: map<int, Block>) {
    exists s, op, b ::
      Reachable(g, init, s) && MayLog(g, s, op, b) && b !in s.blocks && TooBig(g, s.blocks)
  }

  /** log_write's second guard makes the reserve too small by one unless the log area has more
      than LOGSIZE blocks: appending can panic exactly when log.size <= LOGSIZE.  (The image
      builder makes log.size equal to LOGSIZE.) */
  lemma AppendPanicsIffLogTooSmall(g: Geometry, d: Disk)
    requires ValidDisk(g, d) && Listed(g, d) == [] && g.start + g.size + LOGSIZE <= |d|
    ensures AppendCanPanic(g, HomeView(g, d)) <==> g.size <= LOGSIZE
  {
    hide Reachable; hide HomeView;
    var m := HomeView(g, d);
    if g.size <= LOGSIZE {
      var k := g.size - 1;
      var s := FillingReached(g, d, k);
      FillingNext(g, d, k, s);
    }
    if AppendCanPanic(g, m) {
      var s, op, b :|
        Reachable(g, m, s) && MayLog(g, s, op, b) && b !in s.blocks && TooBig(g, s.blocks);
      AppendHasRoom(g, m, s, op, b);
    }
  }

  /** Some operation keeping to its limit is refused a block the transaction already holds. */
  ghost predicate AbsorbCanPanic(g: Geometry, init: map<int, Block>) {
    exists s, op, b ::
      Reachable(g, init, s) && MayLog(g, s, op, b) && b in s.blocks && TooBig(g, s.blocks)
  }

  /** In a filling run the operation that logged the last block may log it again. */
  lemma FillingAgain(g: Geometry, d: Disk, k: nat, s: State)
    requires Filling(g, d, k, s) && 0 < k <= LOGSIZE && g.start + g.size + k <= |d|
    ensures MayLog(g, s, (k - 1) / 10, s.blocks[k - 1]) && s.blocks[k - 1] in s.blocks
  {
    var op, b := (k - 1) / 10, s.blocks[k - 1];
    SubsetSize(s.ops[op] + {b}, Range(g.start + g.size + 10 * op, g.start + g.size + k));
  }

  /** The guards come before the absorption scan, so a full transaction refuses even a block it
      already holds, to an operation within its limit.  Some run gets there exactly when the log
      area has room for a block at all. */
  lemma AbsorbedWritePanicsIff(g: Geometry, d: Disk)
    requires ValidDisk(g, d) && Listed(g, d) == [] && g.start + g.size + LOGSIZE <= |d|
    ensures AbsorbCanPanic(g, HomeView(g, d)) <==> g.size >= 2
  {
    hide Reachable; hide HomeView;
    var m := HomeView(g, d);
    if g.size >= 2 {
      var k := if g.size - 1 < LOGSIZE then g.size - 1 else LOGSIZE;
      var s := FillingReached(g, d, k);
      FillingAgain(g, d, k, s);
      assert TooBig(g, s.blocks);
    }
    if AbsorbCanPanic(g, m) {
      var s, op, b :|
        Reachable(g, m, s) && MayLog(g, s, op, b) && b in s.blocks && TooBig(g, s.blocks);
      LogFits(g, m, s);
    }
  }

  lemma LogFits(g: Geometry, init: map<int, Block>, s: State)
    requires Reachable(g, init, s) && s.phase == Normal
    ensures |s.blocks| <= g.size - 1
  {
    var n: nat :| Reaches(g, init, s, n);
    RunInv(g, init, s, n);
  }

  // ---------------------------------------------------------------- durability

  /** What the running transaction has updated, it has logged. */
  ghost predicate CurrentLogged(s: State) {
    forall i :: 0 <= i < |s.hist| && s.hist[i].op in s.current ==> s.hist[i].b in s.blocks
  }

  lemma CurrentLoggedStep(g: Geometry, init: map<int, Block>, s: State, e: Event, s': State)
    requires Inv(g, init, s) && CurrentLogged(s) && Step(g, s, e, s')
    ensures CurrentLogged(s')
  {
    hide SpaceOk; hide DiskOk; hide CacheOk; hide RecoverWrites; hide HomeView; hide Contents;
    match e
    case LogWrite(op, b, v) =>
      assert b in s'.blocks;
      assert forall x :: x in s.blocks ==> x in s'.blocks;
    case _ =>
  }

  lemma {:induction false} RunLogged(g: Geometry, init: map<int, Block>, s: State, n: nat)
    requires Reaches(g, init, s, n)
    ensures CurrentLogged(s)
    decreases n
  {
    hide Inv; hide Step; hide CurrentLogged;
    if n == 0 {
      LoggedAtStart(g, init, s);
    } else {
      var p, e :| Reaches(g, init, p, n - 1) && Step(g, p, e, s);
      RunInv(g, init, p, n - 1);
      RunLogged(g, init, p, n - 1);
      CurrentLoggedStep(g, init, p, e, s);
    }
  }

  lemma LoggedAtStart(g: Geometry, init: map<int, Block>, s: State)
    requires Init(g, init, s)
    ensures CurrentLogged(s)
  {
  }

  /** With no operation outstanding and no commit running, nothing is logged. */
  ghost predicate Idle(s: State) { s.phase == Normal && s.ops == map[] ==> s.blocks == [] }

  lemma IdleStep(g: Geometry, init: map<int, Block>, s: State, e: Event, s': State)
    requires Inv(g, init, s) && Idle(s) && Step(g, s, e, s')
    ensures Idle(s')
  {
    hide OpsOk; hide SpaceOk; hide DiskOk; hide CacheOk; hide CommitWrites; hide HomeView; hide Contents;
    match e
    case Begin(op) => assert op in s'.ops;
    case LogWrite(op, b, v) => assert op in s'.ops;
    case End(op) => assert s'.ops == map[] ==> s'.ops.Keys == {};
    case _ =>
  }

  lemma {:induction false} RunIdle(g: Geometry, init: map<int, Block>, s: State, n: nat)
    requires Reaches(g, init, s, n)
    ensures Idle(s)
    decreases n
  {
    hide Inv; hide Step; hide Idle; hide Init;
    if n == 0 {
      IdleStart(g, init, s);
    } else {
      var p, e :| Reaches(g, init, p, n - 1) && Step(g, p, e, s);
      RunInv(g, init, p, n - 1);
      RunIdle(g, init, p, n - 1);
      IdleStep(g, init, p, e, s);
    }
  }

  lemma IdleStart(g: Geometry, init: map<int, Block>, s: State)
    requires Init(g, init, s)
    ensures Idle(s)
  {
  }

  lemma IdleEmpty(g: Geometry, init: map<int, Block>, s: State)
    requires Reachable(g, init, s) && s.phase == Normal && s.ops == map[]
    ensures s.blocks == []
  {
    hide Reaches;
    var n: nat :| Reaches(g, init, s, n);
    RunIdle(g, init, s, n);
  }

  /** Durability: whenever the log is empty again, as it is when the end_op that committed
      returns, every update that any operation has made since the last crash is committed; all
      of them survive every later crash. */
  lemma EndedOperationsAreDurable(g: Geometry, init: map<int, Block>, s: State, cuts: seq<nat>)
    requires Reachable(g, init, s) && s.phase == Normal && s.blocks == []
    ensures forall i :: s.mark <= i < |s.hist| ==> s.hist[i].op in s.committed
    ensures ValidDisk(g, s.disk)
    ensures var r := Boots(g, s.disk, cuts);
      forall b :: IsHome(g, |r|, b) ==> b in s.cache && r[b] == s.cache[b]
  {
    hide Inv; hide CurrentLogged; hide Reaches; hide ValidDisk; hide Boots; hide HomeView;
    var n: nat :| Reaches(g, init, s, n);
    RunInv(g, init, s, n);
    RunLogged(g, init, s, n);
    NoneCurrent(g, init, s);
    EmptyLog(g, init, s);
    BootedHome(g, s.disk, cuts);
  }

  lemma NoneCurrent(g: Geometry, init: map<int, Block>, s: State)
    requires Inv(g, init, s) && CurrentLogged(s) && s.blocks == []
    ensures forall i :: s.mark <= i < |s.hist| ==> s.hist[i].op in s.committed
  {
    hide SpaceOk; hide DiskOk; hide PhaseOk;
  }

  /** With nothing logged the cache shows the disk. */
  lemma EmptyLog(g: Geometry, init: map<int, Block>, s: State)
    requires Inv(g, init, s) && s.phase == Normal && s.blocks == []
    ensures ValidDisk(g, s.disk) && s.cache == HomeView(g, s.disk)
  {
    hide SpaceOk; hide OpsOk; hide DiskOk; hide ValidDisk; hide HomeView;
    assert CacheOk(g, init, s, s.disk);
    var home := HomeView(g, s.disk);
    forall b | b in s.cache ensures s.cache[b] == home[b] { assert b !in s.blocks; }
    assert s.cache.Keys == home.Keys;
  }

  lemma BootedHome(g: Geometry, d: Disk, cuts: seq<nat>)
    requires ValidDisk(g, d)
    ensures var r := Boots(g, d, cuts);
      forall b :: IsHome(g, |r|, b) ==> b in HomeView(g, d) && r[b] == HomeView(g, d)[b]
  {
    var r := Boots(g, d, cuts);
    forall b | IsHome(g, |r|, b) ensures b in HomeView(g, d) && r[b] == HomeView(g, d)[b] {
      assert HomeView(g, r)[b] == r[b];
    }
  }
}
