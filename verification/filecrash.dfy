/** filewrite on top of the log (kernel/file.c, kernel/fs.c, kernel/log.c): what is left of a
    write to a file when the machine crashes at any block write, and recoveries crash too.

    One process runs; transaction k of its filewrite is operation k of the log system, and its
    calls of log_write are those the file system recorded.  The home blocks of the disk hold the
    image of the file system. */
module FileCrash {
  import opened Sets
  import opened RedoLog
  import F = FileSystem
  import L = LogSystem

  function Updates(op: int, puts: seq<F.Put>): (h: seq<L.Update>)
    ensures |h| == |puts| && forall i :: 0 <= i < |puts| ==> h[i] == L.Update(op, puts[i].b, puts[i].v)
  {
    seq(|puts|, i requires 0 <= i < |puts| => L.Update(op, puts[i].b, puts[i].v))
  }

  /** All that the transactions pass to log_write, in order. */
  function Script(calls: seq<seq<F.Put>>): (h: seq<L.Update>)
  {
    if calls == [] then [] else Script(calls[..|calls| - 1]) + Updates(|calls| - 1, calls[|calls| - 1])
  }

  /** What the process may do next: begin a transaction when the one before has ended and nothing
      of its work has been lost, log the next block, end the transaction when all are logged.
      Commits, crashes and recoveries come as they come. */
  ghost predicate Allowed(calls: seq<seq<F.Put>>, s: L.State, e: L.Event) {
    match e
    case Begin(op) => op == |s.used| < |calls| && s.ops == map[] && s.used == s.current + s.committed
    case LogWrite(op, b, v) => 0 <= op < |calls| && s.hist + [L.Update(op, b, v)] <= Script(calls[..op + 1])
    case End(op) => 0 <= op < |calls| && s.hist == Script(calls[..op + 1])
    case _ => true
  }

  /** s is reached by n steps of the process and the machine. */
  ghost predicate Drives(g: Geometry, init: map<int, Block>, calls: seq<seq<F.Put>>, s: L.State, n: nat)
    decreases n
  {
    if n == 0 then L.Init(g, init, s)
    else exists p, e :: Drives(g, init, calls, p, n - 1) && Allowed(calls, p, e) && L.Step(g, p, e, s)
  }

  lemma {:induction false} DrivesReaches(g: Geometry, init: map<int, Block>, calls: seq<seq<F.Put>>, s: L.State, n: nat)
    requires Drives(g, init, calls, s, n)
    ensures L.Reaches(g, init, s, n)
    decreases n
  {
    hide L.Init; hide L.Step; hide Allowed;
    if n > 0 {
      var p, e :| Drives(g, init, calls, p, n - 1) && Allowed(calls, p, e) && L.Step(g, p, e, s);
      DrivesReaches(g, init, calls, p, n - 1);
    }
  }

  // ---------------------------------------------------------------- the script

  lemma ScriptNext(calls: seq<seq<F.Put>>, k: nat)
    requires k < |calls|
    ensures Script(calls[..k + 1]) == Script(calls[..k]) + Updates(k, calls[k])
    ensures Script(calls[..k]) <= Script(calls[..k + 1])
  {
    assert calls[..k + 1][..k] == calls[..k];
  }

  lemma {:induction false} ScriptPrefix(calls: seq<seq<F.Put>>, j: nat, u: nat)
    requires j <= u <= |calls|
    ensures Script(calls[..j]) <= Script(calls[..u])
    decreases u
  {
    if j < u {
      ScriptPrefix(calls, j, u - 1);
      ScriptNext(calls, u - 1);
    }
  }

  /** Behind the first j transactions come updates of later ones only. */
  lemma {:induction false} ScriptOps(calls: seq<seq<F.Put>>, j: nat, u: nat, i: nat)
    requires j <= u <= |calls| && i < |Script(calls[..u])|
    ensures 0 <= Script(calls[..u])[i].op < u
    ensures |Script(calls[..j])| <= i ==> j <= Script(calls[..u])[i].op
    decreases u
  {
    if u > 0 {
      ScriptNext(calls, u - 1);
      if j < u { ScriptPrefix(calls, j, u - 1); }
      if i < |Script(calls[..u - 1])| { ScriptOps(calls, if j < u then j else u - 1, u - 1, i); }
    }
  }

  lemma {:induction false} OnlyBoth(a: seq<L.Update>, b: seq<L.Update>, who: set<int>)
    ensures L.Only(a + b, who) == L.Only(a, who) + L.Only(b, who)
    decreases |b|
  {
    if b == [] {
      assert a + b == a;
    } else {
      OnlyBoth(a, b[..|b| - 1], who);
      assert (a + b)[..|a + b| - 1] == a + b[..|b| - 1];
    }
  }

  lemma {:induction false} OnlyAll(a: seq<L.Update>, who: set<int>)
    requires forall i :: 0 <= i < |a| ==> a[i].op in who
    ensures L.Only(a, who) == a
  {
    if a != [] {
      var most := a[..|a| - 1];
      OnlyAll(most, who);
      assert a == most + [a[|a| - 1]];
    }
  }

  lemma {:induction false} OnlyNone(a: seq<L.Update>, who: set<int>)
    requires forall i :: 0 <= i < |a| ==> a[i].op !in who
    ensures L.Only(a, who) == []
  {
    if a != [] { OnlyNone(a[..|a| - 1], who); }
  }

  /** The updates of the first j transactions are the script up to there. */
  lemma OnlyFirst(calls: seq<seq<F.Put>>, hist: seq<L.Update>, j: nat, u: nat)
    requires j <= u <= |calls| && Script(calls[..j]) <= hist <= Script(calls[..u])
    ensures L.Only(hist, Range(0, j)) == Script(calls[..j])
  {
    hide Script; hide L.Only;
    var a := Script(calls[..j]);
    var b := hist[|a|..];
    assert hist == a + b;
    OnlyBoth(a, b, Range(0, j));
    forall i | 0 <= i < |a| ensures a[i].op in Range(0, j) { ScriptOps(calls, j, j, i); }
    OnlyAll(a, Range(0, j));
    forall i | 0 <= i < |b| ensures b[i].op !in Range(0, j) {
      ScriptOps(calls, j, u, |a| + i);
      assert b[i] == Script(calls[..u])[|a| + i];
    }
    OnlyNone(b, Range(0, j));
  }

  // ---------------------------------------------------------------- the image

  /** m has these blocks, with these contents. */
  ghost predicate Agrees(m: map<int, Block>, img: map<int, Block>) {
    forall b :: b in img ==> b in m && m[b] == img[b]
  }

  lemma {:induction false} ReplayApply(m: map<int, Block>, img: map<int, Block>, op: int, puts: seq<F.Put>)
    requires Agrees(m, img)
    ensures Agrees(L.Replay(m, Updates(op, puts)), F.Apply(img, puts))
    decreases |puts|
  {
    if puts != [] {
      var some := puts[..|puts| - 1];
      ReplayApply(m, img, op, some);
      assert Updates(op, puts)[..|puts| - 1] == Updates(op, some);
    }
  }

  lemma {:induction false} ReplayBoth(m: map<int, Block>, a: seq<L.Update>, b: seq<L.Update>)
    ensures L.Replay(m, a + b) == L.Replay(L.Replay(m, a), b)
    decreases |b|
  {
    if b == [] {
      assert a + b == a;
    } else {
      ReplayBoth(m, a, b[..|b| - 1]);
      assert (a + b)[..|a + b| - 1] == a + b[..|b| - 1];
    }
  }

  ghost function ImageOf(lay: F.Layout, s: F.Snap): (m: map<int, Block>)
    requires 0 <= lay.inodestart
  {
    F.Image(lay, s.used, s.inodes, s.data)
  }

  /** Replaying the first j transactions gives the image of the file system after them. */
  lemma {:induction false} ReplayScript(init: map<int, Block>, lay: F.Layout, snaps: seq<F.Snap>,
                                        calls: seq<seq<F.Put>>, ip: int, off: int, src: seq<int>, j: nat)
    requires F.History(lay, snaps, calls, ip, off, src) && j <= |calls| && 0 <= lay.inodestart
    requires Agrees(init, ImageOf(lay, snaps[0]))
    ensures Agrees(L.Replay(init, Script(calls[..j])), ImageOf(lay, snaps[j]))
    decreases j
  {
    hide F.SnapOk; hide Agrees; hide F.Image; hide F.Apply; hide L.Replay; hide Script;
    if j == 0 {
      NoScript(init, calls);
    } else {
      ReplayScript(init, lay, snaps, calls, ip, off, src, j - 1);
      ScriptNext(calls, j - 1);
      ReplayBoth(init, Script(calls[..j - 1]), Updates(j - 1, calls[j - 1]));
      var m := L.Replay(init, Script(calls[..j - 1]));
      ReplayApply(m, ImageOf(lay, snaps[j - 1]), j - 1, calls[j - 1]);
      assert F.SnapStep(lay, snaps[j - 1], calls[j - 1], snaps[j - 1 + 1]);
    }
  }

  lemma NoScript(init: map<int, Block>, calls: seq<seq<F.Put>>)
    ensures L.Replay(init, Script(calls[..0])) == init
  {
  }

  // ---------------------------------------------------------------- the invariant

  /** The transactions begun are the first of the filewrite, those committed the first of them;
      the rest runs, or was lost in a crash. */
  ghost predicate InStep(calls: seq<seq<F.Put>>, s: L.State) {
    InStepAt(calls, s, |s.used|, |s.committed|)
  }

  ghost predicate InStepAt(calls: seq<seq<F.Put>>, s: L.State, u: int, j: int) {
    && 0 <= j <= u <= |calls| && s.used == Range(0, u) && s.committed == Range(0, j)
    && (s.current == Range(j, u) || s.current == {})
    && Script(calls[..j]) <= s.hist <= Script(calls[..u])
    && (s.ops != map[] ==> u >= 1 && s.ops.Keys == {u - 1} && u - 1 in s.current)
    && (s.current == Range(j, u) ==>
          if s.ops == map[] then s.hist == Script(calls[..u]) else Script(calls[..u - 1]) <= s.hist)
  }

  lemma InStepStart(g: Geometry, init: map<int, Block>, calls: seq<seq<F.Put>>, s: L.State)
    requires L.Init(g, init, s)
    ensures InStep(calls, s)
  {
    assert calls[..0] == [];
  }

  lemma BeginInStep(calls: seq<seq<F.Put>>, s: L.State, op: int, s': L.State)
    requires InStep(calls, s) && Allowed(calls, s, L.Begin(op)) && L.BeginStep(s, op, s')
    ensures InStep(calls, s')
  {
    NothingLost(calls, s);
    hide Script; hide Range;
    BeginAt(calls, s, s', |s.used|, |s.committed|);
    hide InStepAt;
    RangeMore(0, |s.used|);
  }

  lemma BeginAt(calls: seq<seq<F.Put>>, s: L.State, s': L.State, u: int, j: int)
    requires 0 <= j <= u < |calls| && s.used == Range(0, u) && s.committed == Range(0, j) && s.current == Range(j, u)
    requires s.ops == map[] && s.hist == Script(calls[..u]) && Script(calls[..j]) <= s.hist
    requires s' == s.(ops := s.ops[u := {}], used := s.used + {u}, current := s.current + {u})
    ensures InStepAt(calls, s', u + 1, j)
  {
    hide Script; hide Range;
    ScriptNext(calls, u);
    RangeMore(0, u);
    RangeMore(j, u);
    OneMore(s.ops, u);
  }

  lemma OneMore(ops: map<int, set<int>>, u: int)
    requires ops == map[]
    ensures ops[u := {}].Keys == {u} && ops[u := {}] != map[]
  {
    assert u in ops[u := {}];
  }

  lemma RangeMore(lo: int, hi: int)
    requires lo <= hi
    ensures Range(lo, hi) + {hi} == Range(lo, hi + 1) && |Range(lo, hi + 1)| == hi + 1 - lo && hi in Range(lo, hi + 1)
  {
  }

  lemma NothingLost(calls: seq<seq<F.Put>>, s: L.State)
    requires InStep(calls, s) && s.used == s.current + s.committed
    ensures s.current == Range(|s.committed|, |s.used|)
  {
    hide Script;
    if s.current == {} {
      assert s.used == s.committed;
    }
  }

  lemma LogWriteInStep(g: Geometry, calls: seq<seq<F.Put>>, s: L.State, op: int, b: int, v: Block, s': L.State)
    requires InStep(calls, s) && Allowed(calls, s, L.LogWrite(op, b, v)) && L.LogWriteStep(g, s, op, b, v, s')
    ensures InStep(calls, s')
  {
    hide Script; hide Range;
    assert op in s.ops.Keys && op == |s.used| - 1;
    assert s'.ops.Keys == s.ops.Keys;
    assert s.hist <= s'.hist;
  }

  lemma EndInStep(calls: seq<seq<F.Put>>, s: L.State, op: int, s': L.State)
    requires InStep(calls, s) && Allowed(calls, s, L.End(op)) && L.EndStep(s, op, s')
    ensures InStep(calls, s')
  {
    hide Script; hide Range;
    assert op in s.ops.Keys && op == |s.used| - 1;
    OnlyOne(s.ops, op);
  }

  lemma OnlyOne(ops: map<int, set<int>>, op: int)
    requires ops.Keys == {op}
    ensures ops - {op} == map[]
  {
  }

  lemma CommitInStep(g: Geometry, init: map<int, Block>, calls: seq<seq<F.Put>>, s: L.State, s': L.State)
    requires InStep(calls, s) && L.CommitStep(g, s, s') && s.ops == map[]
    ensures InStep(calls, s')
  {
    hide Script; hide CommitWrites; hide ValidDisk;
    var u, j := |s.used|, |s.committed|;
    assert Range(0, j) + Range(j, u) == Range(0, u);
    assert s.current == {} ==> s.committed + s.current == s.committed;
    assert Range(u, u) == {};
  }

  lemma CrashInStep(g: Geometry, calls: seq<seq<F.Put>>, s: L.State, s': L.State)
    requires InStep(calls, s) && L.Step(g, s, L.Crash, s')
    ensures InStep(calls, s')
  {
    hide Script;
  }

  lemma StepInStep(g: Geometry, init: map<int, Block>, calls: seq<seq<F.Put>>, s: L.State, e: L.Event, s': L.State)
    requires InStep(calls, s) && L.Inv(g, init, s) && Allowed(calls, s, e) && L.Step(g, s, e, s')
    ensures InStep(calls, s')
  {
    hide InStep; hide Allowed; hide L.BeginStep; hide L.LogWriteStep; hide L.EndStep; hide L.CommitStep;
    match e
    case Begin(op) => BeginInStep(calls, s, op, s');
    case LogWrite(op, b, v) => LogWriteInStep(g, calls, s, op, b, v, s');
    case End(op) => EndInStep(calls, s, op, s');
    case BlockWrite =>
      if L.CommitStep(g, s, s') {
        Committing(g, init, s, s');
        CommitInStep(g, init, calls, s, s');
      } else {
        SameWork(calls, s, s');
      }
    case Crash => CrashInStep(g, calls, s, s');
    case Boot => SameWork(calls, s, s');
  }

  lemma Committing(g: Geometry, init: map<int, Block>, s: L.State, s': L.State)
    requires L.Inv(g, init, s) && L.CommitStep(g, s, s')
    ensures s.ops == map[]
  {
    hide L.CacheOk; hide CommitWrites;
  }

  lemma SameWork(calls: seq<seq<F.Put>>, s: L.State, s': L.State)
    requires InStep(calls, s) && s'.ops == s.ops && s'.used == s.used && s'.hist == s.hist && s'.current == s.current
    requires s'.committed == s.committed
    ensures InStep(calls, s')
  {
    hide Script;
  }

  lemma {:induction false} RunInStep(g: Geometry, init: map<int, Block>, calls: seq<seq<F.Put>>, s: L.State, n: nat)
    requires Drives(g, init, calls, s, n)
    ensures InStep(calls, s)
    decreases n
  {
    hide InStep; hide Allowed; hide L.Step; hide L.Init; hide L.Inv;
    if n == 0 {
      InStepStart(g, init, calls, s);
    } else {
      var p, e :| Drives(g, init, calls, p, n - 1) && Allowed(calls, p, e) && L.Step(g, p, e, s);
      RunInStep(g, init, calls, p, n - 1);
      DrivesReaches(g, init, calls, p, n - 1);
      L.RunInv(g, init, p, n - 1);
      StepInStep(g, init, calls, p, e, s);
    }
  }

  // ---------------------------------------------------------------- room in the log

  /** A running transaction has the log to itself and has logged blocks of its own calls. */
  ghost predicate Alone(calls: seq<seq<F.Put>>, s: L.State) {
    forall op :: op in s.ops ==>
      && s.phase == L.Normal && 0 <= op < |calls| && s.ops[op] <= F.Logged(calls[op])
      && forall i :: 0 <= i < |s.blocks| ==> s.blocks[i] in F.Logged(calls[op])
  }

  /** The next block to log is one of the transaction's. */
  lemma NextPut(calls: seq<seq<F.Put>>, s: L.State, op: int, b: int, v: Block)
    requires InStep(calls, s) && op in s.ops && Allowed(calls, s, L.LogWrite(op, b, v))
    ensures b in F.Logged(calls[op])
  {
    hide Script; hide Range; hide F.Logged;
    assert op in s.ops.Keys && op == |s.used| - 1;
    InCurrent(calls, s);
    ScriptNext(calls, op);
    var before, k := Script(calls[..op]), |s.hist|;
    assert Script(calls[..op + 1])[k] == L.Update(op, b, v);
    IsLogged(calls[op], k - |before|);
  }

  lemma InCurrent(calls: seq<seq<F.Put>>, s: L.State)
    requires InStep(calls, s) && s.ops != map[]
    ensures Script(calls[..|s.used| - 1]) <= s.hist
  {
    hide Script;
    assert s.current != {};
  }

  lemma IsLogged(puts: seq<F.Put>, i: nat)
    requires i < |puts|
    ensures puts[i].b in F.Logged(puts)
  {
    assert puts[i] in puts;
  }

  lemma StepAlone(g: Geometry, calls: seq<seq<F.Put>>, s: L.State, e: L.Event, s': L.State)
    requires InStep(calls, s) && Alone(calls, s) && L.Idle(s) && Allowed(calls, s, e) && L.Step(g, s, e, s')
    requires L.CommitStep(g, s, s') || L.RecoverStep(g, s, s') ==> s.ops == map[]
    ensures Alone(calls, s')
  {
    hide InStep; hide Script; hide F.Logged; hide CommitWrites; hide RecoverWrites; hide L.Contents; hide ValidDisk;
    hide HomeView;
    match e
    case LogWrite(op, b, v) => NextPut(calls, s, op, b, v); Sole(calls, s, op);
    case End(op) => Sole(calls, s, op); OnlyOne(s.ops, op);
    case _ =>
  }

  lemma Sole(calls: seq<seq<F.Put>>, s: L.State, op: int)
    requires InStep(calls, s) && op in s.ops
    ensures s.ops.Keys == {op}
  {
    hide Script; hide Range;
    assert op in s.ops.Keys;
  }

  lemma {:induction false} RunAlone(g: Geometry, init: map<int, Block>, calls: seq<seq<F.Put>>, s: L.State, n: nat)
    requires Drives(g, init, calls, s, n)
    ensures Alone(calls, s)
    decreases n
  {
    hide InStep; hide Allowed; hide L.Step; hide L.Inv; hide L.Idle; hide Alone; hide L.CommitStep; hide L.RecoverStep;
    if n == 0 {
      AloneStart(g, init, calls, s);
    } else {
      var p, e :| Drives(g, init, calls, p, n - 1) && Allowed(calls, p, e) && L.Step(g, p, e, s);
      RunAlone(g, init, calls, p, n - 1);
      RunInStep(g, init, calls, p, n - 1);
      DrivesReaches(g, init, calls, p, n - 1);
      L.RunInv(g, init, p, n - 1);
      L.RunIdle(g, init, p, n - 1);
      NoneRuns(g, init, p, s);
      StepAlone(g, calls, p, e, s);
    }
  }

  lemma AloneStart(g: Geometry, init: map<int, Block>, calls: seq<seq<F.Put>>, s: L.State)
    requires L.Init(g, init, s)
    ensures Alone(calls, s)
  {
  }

  lemma NoneRuns(g: Geometry, init: map<int, Block>, s: L.State, s': L.State)
    requires L.Inv(g, init, s)
    ensures L.CommitStep(g, s, s') || L.RecoverStep(g, s, s') ==> s.ops == map[]
  {
    hide L.CacheOk; hide CommitWrites; hide RecoverWrites;
  }

  /** No log_write of filewrite panics, on a log area with room for one transaction. */
  lemma LogTakesEveryCall(g: Geometry, init: map<int, Block>, s: L.State, n: nat, lay: F.Layout, snaps: seq<F.Snap>,
                          calls: seq<seq<F.Put>>, ip: int, off: int, src: seq<int>, op: int, b: int, v: Block)
    requires F.History(lay, snaps, calls, ip, off, src) && 0 <= lay.inodestart && Agrees(init, ImageOf(lay, snaps[0]))
    requires Drives(g, init, calls, s, n) && g.size >= MAXOPBLOCKS + 2
    requires op in s.ops && Allowed(calls, s, L.LogWrite(op, b, v))
    ensures L.MayLog(g, s, op, b) && !L.TooBig(g, s.blocks)
  {
    hide InStep; hide F.SnapOk; hide F.Logged; hide Script; hide F.Image; hide F.Apply; hide L.Inv;
    RunInStep(g, init, calls, s, n);
    RunAlone(g, init, calls, s, n);
    NextPut(calls, s, op, b, v);
    var all := F.Logged(calls[op]);
    assert F.SnapStep(lay, snaps[op], calls[op], snaps[op + 1]);
    SubsetSize(s.ops[op] + {b}, all);
    DrivesReaches(g, init, calls, s, n);
    L.RunInv(g, init, s, n);
    OnDisk(lay, snaps, calls, ip, off, src, op, b);
    HomeBlock(g, init, s, b);
    DistinctBlocks(g, init, s);
    ElementsSize(s.blocks);
    assert Elements(s.blocks) <= all;
    SubsetSize(Elements(s.blocks), all);
  }

  /** What a transaction logs is a block of the file system. */
  lemma OnDisk(lay: F.Layout, snaps: seq<F.Snap>, calls: seq<seq<F.Put>>, ip: int, off: int, src: seq<int>, op: nat,
               b: int)
    requires F.History(lay, snaps, calls, ip, off, src) && 0 <= lay.inodestart && op < |calls|
    requires b in F.Logged(calls[op])
    ensures b in ImageOf(lay, snaps[0])
  {
    hide F.Logged; hide F.Progress; hide F.LaidOut;
    assert F.SnapStep(lay, snaps[op], calls[op], snaps[op + 1]);
    assert F.SnapOk(lay, snaps[0], snaps[op + 1], ip, off, src) && F.SnapOk(lay, snaps[0], snaps[0], ip, off, src);
    ApplyKeys(ImageOf(lay, snaps[op]), calls[op]);
  }

  lemma {:induction false} ApplyKeys(m: map<int, Block>, puts: seq<F.Put>)
    ensures F.Logged(puts) <= F.Apply(m, puts).Keys
  {
    if puts != [] {
      var most, q := puts[..|puts| - 1], puts[|puts| - 1];
      ApplyKeys(m, most);
      F.LoggedMore(most, q.b, q.v);
      assert most + [F.Put(q.b, q.v)] == puts;
    }
  }

  lemma HomeBlock(g: Geometry, init: map<int, Block>, s: L.State, b: int)
    requires L.Inv(g, init, s) && b in init
    ensures IsHome(g, |s.disk|, b)
  {
    hide L.PhaseOk; hide L.Only;
    ReplayKeys(init, L.Only(s.hist, s.committed));
    HomeKeys(g, s.disk);
  }

  lemma {:induction false} ReplayKeys(m: map<int, Block>, h: seq<L.Update>)
    ensures m.Keys <= L.Replay(m, h).Keys
  {
    if h != [] { ReplayKeys(m, h[..|h| - 1]); }
  }

  lemma DistinctBlocks(g: Geometry, init: map<int, Block>, s: L.State)
    requires L.Inv(g, init, s) && s.phase == L.Normal
    ensures Distinct(s.blocks)
  {
    hide L.Replay; hide L.Only; hide HomeView;
  }

  // ---------------------------------------------------------------- the theorems

  /** Crash at any point of a filewrite, let any number of recoveries crash and one complete: the
      disk holds the file system as it was after the committed transactions.  The file has their
      bytes, 3072 for each unless it was the last, every other file is as it was. */
  lemma CrashLeavesWholeChunks(g: Geometry, init: map<int, Block>, s: L.State, n: nat, cuts: seq<nat>, lay: F.Layout,
                               snaps: seq<F.Snap>, calls: seq<seq<F.Put>>, ip: int, off: int, src: seq<int>)
    requires F.History(lay, snaps, calls, ip, off, src) && 0 <= lay.inodestart && Agrees(init, ImageOf(lay, snaps[0]))
    requires Drives(g, init, calls, s, n)
    ensures ValidDisk(g, s.disk) && |s.committed| <= |calls|
    ensures var r, now := Boots(g, s.disk, cuts), snaps[|s.committed|];
      && (forall b :: b in ImageOf(lay, now) ==> IsHome(g, |r|, b) && r[b] == ImageOf(lay, now)[b])
      && now.w <= |src| && F.Progress(snaps[0].inodes, snaps[0].data, now.inodes, now.data, ip, off, src[..now.w])
      && (|s.committed| < |calls| ==> now.w == 3072 * |s.committed|)
  {
    hide F.Image; hide L.Replay; hide Script; hide L.Only; hide L.Reaches; hide Boots; hide F.Progress; hide F.SnapStep;
    var j := |s.committed|;
    RunInStep(g, init, calls, s, n);
    OnlyFirst(calls, s.hist, j, |s.used|);
    ReplayScript(init, lay, snaps, calls, ip, off, src, j);
    DrivesReaches(g, init, calls, s, n);
    assert L.Reachable(g, init, s);
    L.OperationsAreAtomic(g, init, s, cuts);
    assert F.SnapOk(lay, snaps[0], snaps[j], ip, off, src);
    HomeKeys(g, Boots(g, s.disk, cuts));
  }

  lemma HomeKeys(g: Geometry, d: Disk)
    requires ValidDisk(g, d)
    ensures forall b :: b in HomeView(g, d) ==> IsHome(g, |d|, b)
  {
  }

  /** What has returned is not lost: when end_op is through, a crash leaves the bytes of all the
      transactions so far. */
  lemma FinishedChunksSurvive(g: Geometry, init: map<int, Block>, s: L.State, n: nat, cuts: seq<nat>, lay: F.Layout,
                              snaps: seq<F.Snap>, calls: seq<seq<F.Put>>, ip: int, off: int, src: seq<int>)
    requires F.History(lay, snaps, calls, ip, off, src) && 0 <= lay.inodestart && Agrees(init, ImageOf(lay, snaps[0]))
    requires Drives(g, init, calls, s, n) && s.phase == L.Normal && s.ops == map[] && s.used == s.current + s.committed
    ensures ValidDisk(g, s.disk) && |s.used| <= |calls|
    ensures var r, now := Boots(g, s.disk, cuts), ImageOf(lay, snaps[|s.used|]);
      forall b :: b in now ==> IsHome(g, |r|, b) && r[b] == now[b]
  {
    hide Script; hide L.Reaches; hide F.Image; hide L.Replay; hide L.Only; hide Boots; hide F.SnapStep; hide F.SnapOk;
    var u := |s.used|;
    RunInStep(g, init, calls, s, n);
    NothingLost(calls, s);
    assert s.committed + s.current == Range(0, u);
    ScriptPrefix(calls, u, u);
    OnlyFirst(calls, s.hist, u, u);
    ReplayScript(init, lay, snaps, calls, ip, off, src, u);
    DrivesReaches(g, init, calls, s, n);
    assert L.Reachable(g, init, s);
    L.IdleEmpty(g, init, s);
    L.EndedOperationsAreDurable(g, init, s, cuts);
    L.RunInv(g, init, s, n);
    CacheIs(g, init, s);
    L.OperationsAreAtomic(g, init, s, cuts);
    HomeKeys(g, Boots(g, s.disk, cuts));
    CacheHome(g, init, s, cuts);
  }

  lemma CacheIs(g: Geometry, init: map<int, Block>, s: L.State)
    requires L.Inv(g, init, s) && s.phase == L.Normal
    ensures s.cache == L.Replay(init, L.Only(s.hist, s.committed + s.current))
  {
  }

  lemma CacheHome(g: Geometry, init: map<int, Block>, s: L.State, cuts: seq<nat>)
    requires L.Inv(g, init, s) && s.phase == L.Normal
    ensures ValidDisk(g, s.disk) && forall b :: b in s.cache ==> IsHome(g, |Boots(g, s.disk, cuts)|, b)
  {
    hide L.Replay; hide L.Only; hide Listable;
    HomeKeys(g, s.disk);
  }
}
