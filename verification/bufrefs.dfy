/** Reference counts across threads (kernel/bio.c): bget gives up bcache.lock before it waits for
    the buffer's sleep-lock, and the count is what keeps the buffer its own meanwhile.

    The sections under bcache.lock are single steps, as are taking and giving up a sleep-lock. */
module BufferRefs {
  import opened Sets

  /** A thread: outside, past bget's critical section and waiting for the sleep-lock, returned
      with the buffer, past releasesleep in brelse. */
  datatype Pc = Out | Waiting(b: int, want: int) | Holding(b: int, want: int) | Leaving(b: int, want: int)

  /** block is the (dev, blockno) held, -1 for none yet; holder the thread with the sleep-lock;
      pins the calls of bpin not yet undone. */
  datatype Buf = Buf(block: int, refcnt: int, holder: int, pins: nat)

  datatype State = State(bufs: map<int, Buf>, pc: map<int, Pc>)

  predicate Refers(pc: Pc, b: int) { !pc.Out? && pc.b == b }

  function Refs(pc: map<int, Pc>, b: int): (r: set<int>) { set t | t in pc && Refers(pc[t], b) }

  /** bget under bcache.lock: a buffer that holds the block, else, when none does, an unused one. */
  ghost predicate Get(s: State, t: int, want: int, b: int, s': State) {
    && t in s.pc && s.pc[t].Out? && b in s.bufs && want >= 0
    && (s.bufs[b].block == want || (s.bufs[b].refcnt == 0 && forall c :: c in s.bufs ==> s.bufs[c].block != want))
    && s' == s.(bufs := s.bufs[b := s.bufs[b].(block := want,
                                               refcnt := if s.bufs[b].block == want then s.bufs[b].refcnt + 1 else 1)],
                pc := s.pc[t := Waiting(b, want)])
  }

  ghost predicate Acquire(s: State, t: int, s': State) {
    && t in s.pc && s.pc[t].Waiting? && s.pc[t].b in s.bufs && s.bufs[s.pc[t].b].holder == -1
    && s' == s.(bufs := s.bufs[s.pc[t].b := s.bufs[s.pc[t].b].(holder := t)],
                pc := s.pc[t := Holding(s.pc[t].b, s.pc[t].want)])
  }

  ghost predicate Release(s: State, t: int, s': State) {
    && t in s.pc && s.pc[t].Holding? && s.pc[t].b in s.bufs
    && s' == s.(bufs := s.bufs[s.pc[t].b := s.bufs[s.pc[t].b].(holder := -1)],
                pc := s.pc[t := Leaving(s.pc[t].b, s.pc[t].want)])
  }

  ghost predicate Unref(s: State, t: int, s': State) {
    && t in s.pc && s.pc[t].Leaving? && s.pc[t].b in s.bufs
    && var b := s.pc[t].b;
    s' == s.(bufs := s.bufs[b := s.bufs[b].(refcnt := s.bufs[b].refcnt - 1)], pc := s.pc[t := Out])
  }

  /** bpin by a thread with the buffer, and bunpin of a pinned one. */
  ghost predicate Pin(s: State, b: int, s': State) {
    && b in s.bufs
    && ((exists t :: t in s.pc && s.pc[t].Holding? && s.pc[t].b == b)
        && s' == s.(bufs := s.bufs[b := s.bufs[b].(refcnt := s.bufs[b].refcnt + 1, pins := s.bufs[b].pins + 1)]))
  }

  ghost predicate Unpin(s: State, b: int, s': State) {
    && b in s.bufs && s.bufs[b].pins > 0
    && s' == s.(bufs := s.bufs[b := s.bufs[b].(refcnt := s.bufs[b].refcnt - 1, pins := s.bufs[b].pins - 1)])
  }

  ghost predicate Next(s: State, s': State) {
    || (exists t, want, b :: Get(s, t, want, b, s'))
    || (exists t :: Acquire(s, t, s') || Release(s, t, s') || Unref(s, t, s'))
    || (exists b :: Pin(s, b, s') || Unpin(s, b, s'))
  }

  // ---------------------------------------------------------------- the invariant

  /** The count of a buffer is the threads that refer to it and its pins. */
  ghost predicate Counted(s: State) {
    forall b :: b in s.bufs ==> s.bufs[b].refcnt == |Refs(s.pc, b)| + s.bufs[b].pins
  }

  /** A thread's buffer holds the block it asked for; the sleep-lock has the one holder. */
  ghost predicate Kept(s: State) {
    && (forall t :: t in s.pc && !s.pc[t].Out? ==>
          t >= 0 && s.pc[t].b in s.bufs && s.bufs[s.pc[t].b].block == s.pc[t].want)
    && (forall t, b :: t in s.pc && b in s.bufs ==> (s.bufs[b].holder == t <==> s.pc[t].Holding? && s.pc[t].b == b))
    && (forall t :: t in s.pc ==> t >= 0)
    && (forall b, c :: b in s.bufs && c in s.bufs && b != c && s.bufs[b].block >= 0 ==>
          s.bufs[b].block != s.bufs[c].block)
  }

  ghost predicate Inv(s: State) { Counted(s) && Kept(s) }

  lemma Recount(pc: map<int, Pc>, t: int, x: Pc, b: int)
    requires t in pc
    ensures |Refs(pc[t := x], b)| == |Refs(pc, b)|
      + (if Refers(x, b) then 1 else 0) - (if Refers(pc[t], b) then 1 else 0)
  {
    var a := Refs(pc, b);
    if Refers(x, b) {
      assert Refs(pc[t := x], b) == a + {t};
      if Refers(pc[t], b) { assert a + {t} == a; }
    } else {
      assert Refs(pc[t := x], b) == a - {t};
      if !Refers(pc[t], b) { assert a - {t} == a; }
    }
  }

  /** A count of 0 means nobody refers to the buffer. */
  lemma Unused(s: State, b: int, t: int)
    requires Counted(s) && b in s.bufs && s.bufs[b].refcnt == 0 && t in s.pc
    ensures !Refers(s.pc[t], b) && s.bufs[b].pins == 0 && Refs(s.pc, b) == {}
  {
    assert t in Refs(s.pc, b) <==> Refers(s.pc[t], b);
  }

  lemma CountMoves(s: State, t: int, x: Pc, bufs: map<int, Buf>)
    requires Counted(s) && t in s.pc && bufs.Keys == s.bufs.Keys
    requires forall b :: b in bufs ==>
      bufs[b].refcnt - bufs[b].pins
      == s.bufs[b].refcnt - s.bufs[b].pins + (if Refers(x, b) then 1 else 0) - (if Refers(s.pc[t], b) then 1 else 0)
    ensures Counted(State(bufs, s.pc[t := x]))
  {
    hide Refs;
    forall b | b in bufs ensures bufs[b].refcnt == |Refs(s.pc[t := x], b)| + bufs[b].pins { Recount(s.pc, t, x, b); }
  }

  lemma GetKept(s: State, t: int, want: int, b: int, s': State)
    requires Kept(s) && Get(s, t, want, b, s')
    requires s.bufs[b].refcnt == 0 ==> forall u :: u in s.pc ==> !Refers(s.pc[u], b)
    ensures Kept(s')
  {
  }

  lemma GetInv(s: State, t: int, want: int, b: int, s': State)
    requires Inv(s) && Get(s, t, want, b, s')
    ensures Inv(s')
  {
    hide Kept; hide Refs;
    forall u | u in s.pc && s.bufs[b].refcnt == 0
      ensures !Refers(s.pc[u], b) && s.bufs[b].pins == 0
    {
      Unused(s, b, u);
    }
    GetKept(s, t, want, b, s');
    CountMoves(s, t, Waiting(b, want), s'.bufs);
  }

  lemma MoveKept(s: State, t: int, s': State)
    requires Kept(s) && (Acquire(s, t, s') || Release(s, t, s') || Unref(s, t, s'))
    ensures Kept(s')
  {
  }

  lemma MoveInv(s: State, t: int, s': State)
    requires Inv(s) && (Acquire(s, t, s') || Release(s, t, s') || Unref(s, t, s'))
    ensures Inv(s')
  {
    hide Kept; hide Refs;
    MoveKept(s, t, s');
    CountMoves(s, t, s'.pc[t], s'.bufs);
  }

  lemma PinInv(s: State, b: int, s': State)
    requires Inv(s) && (Pin(s, b, s') || Unpin(s, b, s'))
    ensures Inv(s')
  {
  }

  lemma StepInv(s: State, s': State)
    requires Inv(s) && Next(s, s')
    ensures Inv(s')
  {
    hide Inv; hide Get; hide Acquire; hide Release; hide Unref; hide Pin; hide Unpin;
    if t, want, b :| Get(s, t, want, b, s') { GetInv(s, t, want, b, s'); }
    else if t :| Acquire(s, t, s') || Release(s, t, s') || Unref(s, t, s') { MoveInv(s, t, s'); }
    else {
      var b :| Pin(s, b, s') || Unpin(s, b, s');
      PinInv(s, b, s');
    }
  }

  ghost predicate Init(s: State) {
    && (forall t :: t in s.pc ==> t >= 0 && s.pc[t] == Out)
    && forall b :: b in s.bufs ==> s.bufs[b] == Buf(-1, 0, -1, 0)
  }

  lemma InitInv(s: State)
    requires Init(s)
    ensures Inv(s)
  {
    forall b | b in s.bufs ensures Refs(s.pc, b) == {} {
      forall t ensures t !in Refs(s.pc, b) {}
    }
  }

  ghost predicate Run(run: seq<State>) {
    |run| > 0 && Init(run[0]) && forall i :: 0 <= i < |run| - 1 ==> Next(run[i], run[i + 1])
  }

  lemma {:induction false} RunInv(run: seq<State>, i: nat)
    requires Run(run) && i < |run|
    ensures Inv(run[i])
  {
    hide Inv; hide Init; hide Next;
    if i == 0 {
      InitInv(run[0]);
    } else {
      RunInv(run, i - 1);
      StepInv(run[i - 1], run[i - 1 + 1]);
    }
  }

  /** A thread that bget has returned to, or that still waits for the sleep-lock, has a buffer
      that holds the block it asked for and is counted; no other thread has returned with it. */
  lemma ReturnedBufferHoldsBlock(run: seq<State>, i: nat, t: int, u: int)
    requires Run(run) && i < |run| && t in run[i].pc && !run[i].pc[t].Out? && u in run[i].pc
    ensures var s := run[i]; var b := s.pc[t].b;
      && b in s.bufs && s.bufs[b].block == s.pc[t].want && s.bufs[b].refcnt >= 1
      && (s.pc[t].Holding? && s.pc[u].Holding? && s.pc[u].b == b ==> u == t)
  {
    RunInv(run, i);
    var s := run[i];
    assert t in Refs(s.pc, s.pc[t].b);
  }

  /** And no step gives that buffer another block. */
  lemma NotRecycled(run: seq<State>, i: nat, t: int, u: int, want: int, b: int)
    requires Run(run) && i + 1 < |run| && t in run[i].pc && Refers(run[i].pc[t], b)
    requires Get(run[i], u, want, b, run[i + 1])
    ensures run[i].bufs[b].block == want
  {
    RunInv(run, i);
    if run[i].bufs[b].refcnt == 0 { Unused(run[i], b, t); }
  }

  /** Nor does one give a pinned buffer another block, though no thread may have it. */
  lemma PinnedNotRecycled(run: seq<State>, i: nat, u: int, want: int, b: int)
    requires Run(run) && i + 1 < |run| && b in run[i].bufs && run[i].bufs[b].pins > 0
    requires Get(run[i], u, want, b, run[i + 1])
    ensures run[i].bufs[b].block == want
  {
    RunInv(run, i);
  }

  /** So from log_write to the commit's bunpin the cache keeps the block. */
  lemma {:induction false} PinnedKeepsBlock(run: seq<State>, i: nat, j: nat, b: int)
    requires Run(run) && i <= j < |run| && b in run[i].bufs
    requires forall k :: i <= k < j ==> b in run[k].bufs && run[k].bufs[b].pins > 0
    ensures b in run[j].bufs && run[j].bufs[b].block == run[i].bufs[b].block
    decreases j
  {
    hide Run; hide Next;
    if i < j {
      PinnedKeepsBlock(run, i, j - 1, b);
      PinnedStep(run, j - 1, b);
    }
  }

  lemma PinnedStep(run: seq<State>, k: nat, b: int)
    requires Run(run) && k + 1 < |run| && b in run[k].bufs && run[k].bufs[b].pins > 0
    ensures b in run[k + 1].bufs && run[k + 1].bufs[b].block == run[k].bufs[b].block
  {
    RunInv(run, k);
    assert Next(run[k], run[k + 1]);
  }
}
