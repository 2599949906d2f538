/** Read-copy-update as the kernel does it (kernel/rcu.c, kernel/klinkedlist.c, on the scheduler
    of kernel/proc.c and push_off/pop_off of kernel/spinlock.c).

    Readers turn interrupts off on their CPU, so they keep it until they are done.  The writer
    runs itself on one CPU after another and takes that as proof that the readers it found
    there are gone.  A step is one context switch, one store to the list, or one turn of a loop:
    a reader's turn loads the data of a node, which never changes, together with its next, and
    insert takes and fills in its new node, which nobody else can see, at once.  One process
    writes, any number read. */
module Rcu {
  import opened Sets

  datatype Ptr = Null | At(node: int)

  /** `visits` is the bound of synchronize_rcu's loop; `gap` says whether a reader may lose its
      CPU between loading head_ref and turning interrupts off. */
  datatype Config = Config(ncpu: nat, visits: nat, gap: bool)

  /** A search in progress.  `locked` is set by rcu_read_lock.  `born` numbers the sections by
      when their head load happened; `answers` collects what a search of the whole list would
      have answered at each instant since then. */
  datatype Reader =
    | Out
    | Active(locked: bool, key: int, cur: Ptr, born: nat, answers: set<Ptr>)

  /** What the writer does once its grace period is over. */
  datatype Then = Publish(n: int) | Reclaim(n: int, pos: nat)

  datatype Writer =
    | Idle
    | Walk(key: int, prev: Ptr, temp: Ptr, pos: nat) // deleteNode's loop
    | Sync(i: nat, since: nat, after: Then) // synchronize_rcu, at the loop test
    | Pinned(i: nat, since: nat, after: Then) // cpu_affinity is i, yield not yet called
    | Waiting(i: nat, since: nat, after: Then) // inside yield
    | Over(since: nat, after: Then) // synchronize_rcu has returned

  const W: int := 0 // the writer's process; readers have other numbers

  datatype State = State(
    at: map<int, int>, // the CPU each process is current on, -1 if none
    affinity: int, // the writer's cpu_affinity; readers have -1
    readers: map<int, Reader>,
    w: Writer,
    head: Ptr,
    next: map<int, Ptr>,
    data: map<int, int>,
    free: set<int>,
    chain: seq<int>, // the nodes from head on
    clock: nat)

  /** Position i of a list, as a pointer. */
  function PtrAt(chain: seq<int>, i: nat): (p: Ptr)
  {
    if i < |chain| then At(chain[i]) else Null
  }

  /** A list without its position pos. */
  function Drop(chain: seq<int>, pos: nat): (r: seq<int>)
    requires pos < |chain|
    ensures |r| == |chain| - 1
  {
    chain[..pos] + chain[pos + 1..]
  }

  /** A sequential search. */
  function Search(path: seq<int>, data: map<int, int>, key: int): (p: Ptr)
    requires forall i :: 0 <= i < |path| ==> path[i] in data
  {
    if path == [] then Null else if data[path[0]] == key then At(path[0]) else Search(path[1..], data, key)
  }

  // ---------------------------------------------------------------- steps

  predicate Running(s: State, p: int) {
    p in s.at && s.at[p] >= 0
  }

  predicate CpuFree(s: State, c: int) {
    forall p :: p in s.at ==> s.at[p] != c
  }

  /** scheduler() picks a runnable process its affinity allows; a yield inside
      synchronize_rcu then returns. */
  ghost predicate Dispatch(cfg: Config, s: State, p: int, c: int, s': State) {
    && p in s.at && s.at[p] == -1 && 0 <= c < cfg.ncpu && CpuFree(s, c)
    && (p == W ==> s.affinity == -1 || s.affinity == c)
    && s' == s.(
        at := s.at[p := c],
        w := if p == W && s.w.Waiting? then Sync(s.w.i + 1, s.w.since, s.w.after) else s.w)
  }

  /** A timer interrupt yields the CPU; it cannot happen with interrupts off. */
  ghost predicate Preempt(cfg: Config, s: State, p: int, s': State) {
    && Running(s, p)
    && (p in s.readers && s.readers[p].Active? ==> cfg.gap && !s.readers[p].locked)
    && s' == s.(at := s.at[p := -1])
  }

  /** search: current = head_ref. */
  ghost predicate LoadHead(s: State, p: int, key: int, s': State) {
    && Running(s, p) && p in s.readers && s.readers[p].Out? && ListKnown(s)
    && s' == s.(
        readers := s.readers[p := Active(false, key, s.head, s.clock, {Search(s.chain, s.data, key)})],
        clock := s.clock + 1)
  }

  /** rcu_read_lock. */
  ghost predicate ReadLock(s: State, p: int, s': State) {
    && Running(s, p) && p in s.readers && s.readers[p].Active? && !s.readers[p].locked
    && s' == s.(readers := s.readers[p := s.readers[p].(locked := true)])
  }

  /** The loop of search: the answer is found or the walk goes on. */
  predicate Answers(s: State, r: Reader) {
    r.Active? && r.locked && (r.cur == Null || (r.cur.node in s.data && s.data[r.cur.node] == r.key))
  }

  ghost predicate ReadStep(s: State, p: int, s': State) {
    && Running(s, p) && p in s.readers && s.readers[p].Active? && s.readers[p].locked
    && var r := s.readers[p];
    && (r.cur.At? ==> r.cur.node in s.data && r.cur.node in s.next)
    && s' == s.(readers := s.readers[p := if Answers(s, r) then Out else r.(cur := s.next[r.cur.node])])
  }

  ghost predicate ListKnown(s: State) {
    forall i :: 0 <= i < |s.chain| ==> s.chain[i] in s.data
  }

  /** The readers' histories after the list has become `chain`. */
  ghost function Witness(readers: map<int, Reader>, chain: seq<int>, data: map<int, int>): (r: map<int, Reader>)
    requires forall i :: 0 <= i < |chain| ==> chain[i] in data
  {
    map p | p in readers ::
      match readers[p]
      case Out => Out
      case Active(l, key, cur, born, answers) => Active(l, key, cur, born, answers + {Search(chain, data, key)})
  }

  /** insert, up to the call of synchronize_rcu: a free page becomes a node before the list. */
  ghost predicate InsertStart(s: State, n: int, v: int, s': State) {
    && Running(s, W) && s.w == Idle && n in s.free
    && s' == s.(
        free := s.free - {n}, data := s.data[n := v], next := s.next[n := s.head],
        w := Sync(0, s.clock, Publish(n)))
  }

  /** deleteNode: temp = head_ref. */
  ghost predicate DeleteStart(s: State, key: int, s': State) {
    && Running(s, W) && s.w == Idle
    && s' == s.(w := Walk(key, Null, s.head, 0))
  }

  /** The loop of deleteNode: not found, one node on, or unlink. */
  ghost predicate WalkStep(s: State, s': State) {
    && Running(s, W) && s.w.Walk?
    && var Walk(key, prev, temp, pos) := s.w;
    match temp
    case Null => s' == s.(w := Idle)
    case At(t) =>
      && t in s.data && t in s.next
      && if s.data[t] != key then s' == s.(w := Walk(key, temp, s.next[t], pos + 1))
         else Unlinks(s, prev, t, pos, s')
  }

  ghost predicate Unlinks(s: State, prev: Ptr, t: int, pos: nat, s': State)
    requires t in s.next
  {
    && pos < |s.chain| && (prev.At? ==> prev.node in s.next)
    && var chain := Drop(s.chain, pos);
    && (forall i :: 0 <= i < |chain| ==> chain[i] in s.data)
    && s' == s.(
        head := if prev == Null then s.next[t] else s.head,
        next := if prev == Null then s.next else s.next[prev.node := s.next[t]],
        chain := chain,
        readers := Witness(s.readers, chain, s.data),
        w := Sync(0, s.clock, Reclaim(t, pos)))
  }

  /** One round of synchronize_rcu. */
  ghost predicate SyncPin(cfg: Config, s: State, s': State) {
    && Running(s, W) && s.w.Sync? && s.w.i < cfg.visits
    && s' == s.(affinity := s.w.i, w := Pinned(s.w.i, s.w.since, s.w.after))
  }

  ghost predicate SyncYield(s: State, s': State) {
    && Running(s, W) && s.w.Pinned?
    && s' == s.(at := s.at[W := -1], w := Waiting(s.w.i, s.w.since, s.w.after))
  }

  ghost predicate SyncReturn(cfg: Config, s: State, s': State) {
    && Running(s, W) && s.w.Sync? && s.w.i >= cfg.visits
    && s' == s.(affinity := -1, w := Over(s.w.since, s.w.after))
  }

  /** head_ref = new_node, or kfree(temp). */
  ghost predicate Finish(s: State, s': State) {
    && Running(s, W) && s.w.Over?
    && match s.w.after
       case Publish(n) =>
         && n in s.data && ListKnown(s)
         && s' == s.(head := At(n), chain := [n] + s.chain, readers := Witness(s.readers, [n] + s.chain, s.data),
                     w := Idle)
       case Reclaim(n, _) =>
         s' == s.(free := s.free + {n}, data := s.data - {n}, next := s.next - {n}, w := Idle)
  }

  datatype Event =
    | EDispatch(p: int, c: int) | EPreempt(p: int)
    | ELoad(p: int, key: int) | ELock(p: int) | ERead(p: int)
    | EInsert(n: int, v: int) | EDelete(key: int) | EWalk
    | EPin | EYield | EReturn | EFinish

  ghost predicate Step(cfg: Config, s: State, e: Event, s': State) {
    match e
    case EDispatch(p, c) => Dispatch(cfg, s, p, c, s')
    case EPreempt(p) => Preempt(cfg, s, p, s')
    case ELoad(p, key) => LoadHead(s, p, key, s')
    case ELock(p) => ReadLock(s, p, s')
    case ERead(p) => ReadStep(s, p, s')
    case EInsert(n, v) => InsertStart(s, n, v, s')
    case EDelete(key) => DeleteStart(s, key, s')
    case EWalk => WalkStep(s, s')
    case EPin => SyncPin(cfg, s, s')
    case EYield => SyncYield(s, s')
    case EReturn => SyncReturn(cfg, s, s')
    case EFinish => Finish(s, s')
  }

  /** init_list: one node, no search, nothing running. */
  ghost predicate Init(s: State) {
    && W !in s.readers && s.at.Keys == s.readers.Keys + {W}
    && (forall p :: p in s.at ==> s.at[p] == -1) && (forall p :: p in s.readers ==> s.readers[p] == Out)
    && exists n :: StartsWith(s, n)
  }

  predicate StartsWith(s: State, n: int) {
    n !in s.free && s == State(s.at, -1, s.readers, Idle, At(n), map[n := Null], map[n := 0], s.free, [n], 0)
  }

  ghost predicate Reaches(cfg: Config, s: State, k: nat)
    decreases k
  {
    if k == 0 then Init(s) else exists p, e :: Reaches(cfg, p, k - 1) && Step(cfg, p, e, s)
  }

  ghost predicate Reachable(cfg: Config, s: State) {
    exists k: nat :: Reaches(cfg, s, k)
  }

  // ---------------------------------------------------------------- the invariant

  /** No process is current on two CPUs, no CPU has two; a search keeps its CPU. */
  ghost predicate SchedOk(cfg: Config, s: State) {
    && W !in s.readers && s.at.Keys == s.readers.Keys + {W}
    && (forall p :: p in s.at ==> -1 <= s.at[p] < cfg.ncpu)
    && (forall p, q :: p in s.at && q in s.at && p != q && s.at[p] >= 0 ==> s.at[p] != s.at[q])
    && (forall p :: p in s.readers && s.readers[p].Active? ==> s.at[p] >= 0)
  }

  /** head and next spell out `chain`, none of it free. */
  ghost predicate ListOk(s: State) {
    && Distinct(s.chain) && s.head == PtrAt(s.chain, 0)
    && (forall i :: 0 <= i < |s.chain| ==>
          s.chain[i] in s.data && s.chain[i] !in s.free && s.chain[i] in s.next)
    && (forall i {:trigger s.next[s.chain[i]]} :: 0 <= i < |s.chain| ==> s.next[s.chain[i]] == PtrAt(s.chain, i + 1))
  }

  predicate InSync(w: Writer) {
    w.Sync? || w.Pinned? || w.Waiting? || w.Over?
  }

  /** The node a grace period is for: allocated, off the list, leading back into it. */
  ghost predicate AfterOk(s: State, after: Then) {
    && after.n !in s.chain && after.n !in s.free && after.n in s.data && after.n in s.next
    && match after
       case Publish(n) => s.next[n] == s.head
       case Reclaim(n, pos) => pos <= |s.chain| && s.next[n] == PtrAt(s.chain, pos)
  }

  ghost predicate WalkOk(s: State, key: int, prev: Ptr, temp: Ptr, pos: nat) {
    && pos <= |s.chain| && temp == PtrAt(s.chain, pos)
    && prev == (if pos == 0 then Null else At(s.chain[pos - 1]))
    && forall i :: 0 <= i < pos ==> s.chain[i] in s.data && s.data[s.chain[i]] != key
  }

  ghost predicate WriterOk(s: State) {
    && (InSync(s.w) ==> s.w.since <= s.clock && AfterOk(s, s.w.after))
    && (s.w.Walk? ==> WalkOk(s, s.w.key, s.w.prev, s.w.temp, s.w.pos))
    && (s.w.Pinned? || s.w.Waiting? ==> s.affinity == s.w.i)
    && (s.w.Waiting? ==> W in s.at && s.at[W] == -1)
  }

  /** Only a reader older than the grace period may still stand on the unlinked node. */
  predicate OnUnlinked(w: Writer, n: int, born: nat) {
    InSync(w) && w.after.Reclaim? && w.after.n == n && born < w.since
  }

  predicate CurOk(s: State, r: Reader)
    requires r.Active?
  {
    r.born < s.clock && (r.cur == Null || r.cur.node in s.chain || OnUnlinked(s.w, r.cur.node, r.born))
  }

  /** The nodes a reader standing at `cur` has still before it. */
  function Path(chain: seq<int>, w: Writer, cur: Ptr): (p: seq<int>)
  {
    if cur == Null then []
    else if cur.node in chain then chain[IndexOf(chain, cur.node)..]
    else if InSync(w) && w.after.Reclaim? && w.after.pos <= |chain| then [cur.node] + chain[w.after.pos..]
    else []
  }

  predicate Known(path: seq<int>, data: map<int, int>) {
    forall i :: 0 <= i < |path| ==> path[i] in data
  }

  /** What a search finds if it goes on from here is an answer of its section. */
  ghost predicate ReaderOk(s: State, r: Reader) {
    r.Active? ==>
      && CurOk(s, r)
      && var path := Path(s.chain, s.w, r.cur);
      Known(path, s.data) && Search(path, s.data, r.key) in r.answers
  }

  ghost predicate ReadersOk(s: State) {
    forall p :: p in s.readers ==> ReaderOk(s, s.readers[p])
  }

  /** Sections older than the grace period sit on CPUs not yet visited. */
  ghost predicate GraceOk(s: State) {
    && (s.w.Sync? || s.w.Pinned? || s.w.Waiting? ==>
          forall p :: p in s.readers && s.readers[p].Active? && s.readers[p].born < s.w.since ==>
            p in s.at && s.at[p] >= s.w.i)
    && (s.w.Over? ==> forall p :: p in s.readers && s.readers[p].Active? ==> s.readers[p].born >= s.w.since)
  }

  ghost predicate Inv(cfg: Config, s: State) {
    SchedOk(cfg, s) && ListOk(s) && WriterOk(s) && ReadersOk(s) && GraceOk(s)
  }

  lemma InitInv(cfg: Config, s: State)
    requires Init(s)
    ensures Inv(cfg, s)
  {
  }

  // ---------------------------------------------------------------- scheduling

  /** Neither list nor readers have changed, nor the node a grace period is for. */
  lemma SameReaders(s: State, s': State)
    requires ListOk(s) && ReadersOk(s) && s'.(at := s.at, affinity := s.affinity, w := s.w) == s
    requires InSync(s'.w) == InSync(s.w) && (InSync(s.w) ==> s'.w.after == s.w.after && s'.w.since == s.w.since)
    ensures ListOk(s') && ReadersOk(s')
  {
    hide Search; hide Known; hide IndexOf;
    forall q | q in s'.readers ensures ReaderOk(s', s'.readers[q]) { assert ReaderOk(s, s.readers[q]); }
  }

  lemma DispatchInv(cfg: Config, s: State, p: int, c: int, s': State)
    requires Inv(cfg, s) && Dispatch(cfg, s, p, c, s')
    ensures Inv(cfg, s')
  {
    SameReaders(s, s');
    hide ListOk; hide ReadersOk;
  }

  lemma PreemptInv(cfg: Config, s: State, p: int, s': State)
    requires Inv(cfg, s) && Preempt(cfg, s, p, s') && !cfg.gap
    ensures Inv(cfg, s')
  {
    SameReaders(s, s');
    hide ListOk; hide ReadersOk;
  }

  lemma SyncInv(cfg: Config, s: State, s': State)
    requires Inv(cfg, s)
    requires SyncPin(cfg, s, s') || SyncYield(s, s') || (SyncReturn(cfg, s, s') && cfg.visits >= cfg.ncpu)
    ensures Inv(cfg, s')
  {
    SameReaders(s, s');
    hide ListOk; hide ReadersOk;
  }

  // ---------------------------------------------------------------- readers

  lemma PathAt(chain: seq<int>, w: Writer, i: nat)
    requires Distinct(chain) && i <= |chain|
    ensures Path(chain, w, PtrAt(chain, i)) == chain[i..]
  {
    if i < |chain| { assert IndexOf(chain, chain[i]) == i; }
  }

  lemma LoadHeadInv(cfg: Config, s: State, p: int, key: int, s': State)
    requires Inv(cfg, s) && LoadHead(s, p, key, s')
    ensures Inv(cfg, s')
  {
    PathAt(s.chain, s.w, 0);
    assert s.chain[0..] == s.chain;
    forall q | q in s'.readers ensures ReaderOk(s', s'.readers[q]) {
      if q != p { assert ReaderOk(s, s.readers[q]); }
    }
  }

  lemma ReadLockInv(cfg: Config, s: State, p: int, s': State)
    requires Inv(cfg, s) && ReadLock(s, p, s')
    ensures Inv(cfg, s')
  {
    hide Search; hide Known; hide IndexOf;
    forall q | q in s'.readers ensures ReaderOk(s', s'.readers[q]) { assert ReaderOk(s, s.readers[q]); }
  }

  /** Following next drops the first node of what lies ahead. */
  lemma PathNext(s: State, r: Reader)
    requires ListOk(s) && WriterOk(s) && ReaderOk(s, r) && r.Active? && r.cur.At? && r.cur.node in s.next
    ensures var path := Path(s.chain, s.w, r.cur);
      path != [] && path[0] == r.cur.node && Path(s.chain, s.w, s.next[r.cur.node]) == path[1..]
    ensures CurOk(s, r.(cur := s.next[r.cur.node]))
  {
    var n := r.cur.node;
    if n in s.chain {
      var i := IndexOf(s.chain, n);
      PathAt(s.chain, s.w, i + 1);
    } else {
      PathAt(s.chain, s.w, s.w.after.pos);
    }
  }

  lemma ReadStepInv(cfg: Config, s: State, p: int, s': State)
    requires Inv(cfg, s) && ReadStep(s, p, s')
    ensures Inv(cfg, s')
  {
    var r := s.readers[p];
    assert ReaderOk(s, r);
    if !Answers(s, r) { PathNext(s, r); }
    forall q | q in s'.readers ensures ReaderOk(s', s'.readers[q]) {
      if q != p { assert ReaderOk(s, s.readers[q]); }
    }
  }

  // ---------------------------------------------------------------- the writer

  lemma {:induction false} SearchFrame(path: seq<int>, data: map<int, int>, data': map<int, int>, key: int)
    requires Known(path, data) && Known(path, data') && forall i :: 0 <= i < |path| ==> data'[path[i]] == data[path[i]]
    ensures Search(path, data', key) == Search(path, data, key)
  {
    if path != [] { SearchFrame(path[1..], data, data', key); }
  }

  lemma InsertStartInv(cfg: Config, s: State, n: int, v: int, s': State)
    requires Inv(cfg, s) && InsertStart(s, n, v, s')
    ensures Inv(cfg, s')
  {
    forall q | q in s'.readers ensures ReaderOk(s', s'.readers[q]) {
      var r := s.readers[q];
      assert ReaderOk(s, r);
      if r.Active? {
        var path := Path(s.chain, s.w, r.cur);
        assert Path(s'.chain, s'.w, r.cur) == path;
        assert forall i :: 0 <= i < |path| ==> path[i] in s.chain;
        SearchFrame(path, s.data, s'.data, r.key);
      }
    }
  }

  lemma DeleteStartInv(cfg: Config, s: State, key: int, s': State)
    requires Inv(cfg, s) && DeleteStart(s, key, s')
    ensures Inv(cfg, s')
  {
    SameReaders(s, s');
    hide ReadersOk;
  }

  lemma WalkOnInv(cfg: Config, s: State, s': State)
    requires Inv(cfg, s) && WalkStep(s, s') && !InSync(s'.w)
    ensures Inv(cfg, s')
  {
    SameReaders(s, s');
    WalkOnWriter(s, s');
    hide ReadersOk; hide ListOk; hide WriterOk;
  }

  lemma WalkOnWriter(s: State, s': State)
    requires ListOk(s) && WriterOk(s) && WalkStep(s, s') && !InSync(s'.w)
    ensures WriterOk(s')
  {
    assert s.w.temp.At? ==> s.w.temp.node == s.chain[s.w.pos];
  }

  /** Taking the first match of a key out of the list: a search for another key finds the same,
      a search for this key from before it finds what the new list has. */
  lemma SearchWithout(chain: seq<int>, data: map<int, int>, pos: nat, i: nat, del: int, key: int)
    requires Known(chain, data) && pos < |chain| && data[chain[pos]] == del && i <= pos
    requires forall k :: 0 <= k < pos ==> data[chain[k]] != del
    ensures var chain' := Drop(chain, pos);
      && Known(chain', data) && Known(chain[i..], data) && Known(chain'[i..], data)
      && (Search(chain'[i..], data, key) == Search(chain[i..], data, key)
          || Search(chain'[i..], data, key) == Search(chain', data, key))
  {
    var chain' := Drop(chain, pos);
    if key == del {
      SearchSkips(chain', data, i, key);
    } else {
      SearchSame(chain, data, pos, i, key);
    }
  }

  /** A search for a key no node before i has may start at i. */
  lemma {:induction false} SearchSkips(chain: seq<int>, data: map<int, int>, i: nat, key: int)
    requires Known(chain, data) && i <= |chain| && forall k :: 0 <= k < i ==> data[chain[k]] != key
    ensures Known(chain[i..], data) && Search(chain, data, key) == Search(chain[i..], data, key)
    decreases i
  {
    if i == 0 {
      assert chain[0..] == chain;
    } else {
      SearchSkips(chain[1..], data, i - 1, key);
      assert chain[1..][i - 1..] == chain[i..];
    }
  }

  /** Taking out a node with another value changes no search. */
  lemma {:induction false} SearchSame(chain: seq<int>, data: map<int, int>, pos: nat, i: nat, key: int)
    requires Known(chain, data) && pos < |chain| && data[chain[pos]] != key && i <= pos
    ensures var chain' := Drop(chain, pos);
      && Known(chain'[i..], data) && Known(chain[i..], data)
      && Search(chain'[i..], data, key) == Search(chain[i..], data, key)
    decreases pos - i
  {
    var chain' := Drop(chain, pos);
    if i == pos {
      assert chain'[i..] == chain[i..][1..];
    } else {
      SearchSame(chain, data, pos, i + 1, key);
      assert chain'[i..][1..] == chain'[i + 1..] && chain[i..][1..] == chain[i + 1..] && chain'[i] == chain[i];
    }
  }

  /** The unlinking branch of the walk, spelled out. */
  ghost predicate Unlinking(s: State, s': State) {
    && s.w.Walk? && s.w.temp.At? && s.w.temp.node in s.next && s.w.temp.node in s.data
    && s.data[s.w.temp.node] == s.w.key && Unlinks(s, s.w.prev, s.w.temp.node, s.w.pos, s')
  }

  lemma DropAt(chain: seq<int>, pos: nat, i: nat)
    requires pos < |chain| && i < |chain| - 1
    ensures Drop(chain, pos)[i] == chain[if i < pos then i else i + 1]
  {
  }

  lemma DropDistinct(chain: seq<int>, pos: nat)
    requires Distinct(chain) && pos < |chain|
    ensures Distinct(Drop(chain, pos)) && chain[pos] !in Drop(chain, pos)
    ensures forall n :: n in chain && n != chain[pos] ==> n in Drop(chain, pos)
    ensures forall n :: n in Drop(chain, pos) ==> n in chain
  {
    var r := Drop(chain, pos);
    forall n | n in chain && n != chain[pos] ensures n in r {
      var k :| 0 <= k < |chain| && chain[k] == n;
      assert r[if k < pos then k else k - 1] == n;
    }
  }

  lemma DropTail(chain: seq<int>, pos: nat, i: nat)
    requires pos < |chain| && pos <= i < |chain|
    ensures Drop(chain, pos)[i..] == chain[i + 1..]
  {
  }

  /** Pointing the predecessor of position pos past it leaves the list without it. */
  lemma Relink(chain: seq<int>, next: map<int, Ptr>, next': map<int, Ptr>, pos: nat, i: nat)
    requires Distinct(chain) && pos < |chain| && i < |chain| - 1
    requires forall k :: 0 <= k < |chain| ==> chain[k] in next
    requires forall k {:trigger next[chain[k]]} :: 0 <= k < |chain| ==> next[chain[k]] == PtrAt(chain, k + 1)
    requires next' == if pos == 0 then next else next[chain[pos - 1] := next[chain[pos]]]
    ensures Drop(chain, pos)[i] in next' && next'[Drop(chain, pos)[i]] == PtrAt(Drop(chain, pos), i + 1)
  {
    hide Drop;
    DropAt(chain, pos, i);
    if i + 1 < |chain| - 1 { DropAt(chain, pos, i + 1); }
    var k := if i < pos then i else i + 1;
    var a := chain[k];
    assert a in next && next[chain[k]] == PtrAt(chain, k + 1) && next[chain[pos]] == PtrAt(chain, pos + 1);
    if i + 1 != pos && pos > 0 { assert chain[k] != chain[pos - 1]; }
  }

  lemma UnlinkList(s: State, s': State)
    requires ListOk(s) && WriterOk(s) && Unlinking(s, s')
    ensures ListOk(s')
  {
    hide Drop; hide Witness; hide Distinct;
    assert s.w.temp.node == s.chain[s.w.pos];
    DropDistinct(s.chain, s.w.pos);
    forall i | 0 <= i < |s'.chain|
      ensures s'.chain[i] in s'.next && s'.next[s'.chain[i]] == PtrAt(s'.chain, i + 1)
      ensures s'.chain[i] in s'.data && s'.chain[i] !in s'.free
    {
      Relink(s.chain, s.next, s'.next, s.w.pos, i);
      DropAt(s.chain, s.w.pos, i);
    }
    if |s'.chain| > 0 { DropAt(s.chain, s.w.pos, 0); }
    assert s.next[s.w.temp.node] == PtrAt(s.chain, s.w.pos + 1);
  }

  lemma UnlinkWriter(s: State, s': State)
    requires ListOk(s) && WriterOk(s) && Unlinking(s, s')
    ensures WriterOk(s')
  {
    hide Drop;
    DropDistinct(s.chain, s.w.pos);
    assert s.next[s.w.temp.node] == PtrAt(s.chain, s.w.pos + 1);
    if s.w.pos < |s'.chain| { DropAt(s.chain, s.w.pos, s.w.pos); }
    assert s.w.temp.node in s.chain;
  }

  /** What lies ahead of position i once position pos is unlinked. */
  lemma PathWithout(chain: seq<int>, w: Writer, pos: nat, i: nat)
    requires Distinct(chain) && pos < |chain| && i <= |chain| && w.Sync? && w.after == Reclaim(chain[pos], pos)
    ensures var chain' := Drop(chain, pos);
      Path(chain', w, PtrAt(chain, i)) == if i < pos then chain'[i..] else chain[i..]
  {
    hide Path; hide Drop; hide Distinct;
    var chain' := Drop(chain, pos);
    DropDistinct(chain, pos);
    if i < pos {
      DropAt(chain, pos, i);
      PathAt(chain', w, i);
    } else if i == pos {
      PathOff(chain', w, chain[pos], pos);
      DropTail(chain, pos, pos);
      assert [chain[pos]] + chain[pos + 1..] == chain[pos..];
    } else {
      if i < |chain| { DropAt(chain, pos, i - 1); }
      PathAt(chain', w, i - 1);
      DropTail(chain, pos, i - 1);
    }
  }

  /** The node just unlinked still leads back into the list. */
  lemma PathOff(chain: seq<int>, w: Writer, node: int, pos: nat)
    requires node !in chain && pos <= |chain| && w.Sync? && w.after == Reclaim(node, pos)
    ensures Path(chain, w, At(node)) == [node] + chain[pos..]
  {
  }

  /** Where a reader stands when no grace period is on. */
  function Standing(chain: seq<int>, cur: Ptr): (i: nat)
  {
    if cur == Null then |chain| else IndexOf(chain, cur.node)
  }

  lemma UnlinkCur(s: State, s': State, r: Reader)
    requires ListOk(s) && WriterOk(s) && r.Active? && CurOk(s, r) && Unlinking(s, s')
    ensures CurOk(s', r)
    ensures Standing(s.chain, r.cur) <= |s.chain| && r.cur == PtrAt(s.chain, Standing(s.chain, r.cur))
  {
    hide Drop;
    DropDistinct(s.chain, s.w.pos);
  }

  lemma UnlinkPath(s: State, s': State, r: Reader)
    requires ListOk(s) && WriterOk(s) && r.Active? && CurOk(s, r) && Unlinking(s, s')
    ensures var i := Standing(s.chain, r.cur);
      && i <= |s.chain| && Path(s.chain, s.w, r.cur) == s.chain[i..]
      && Path(s'.chain, s'.w, r.cur) == if i < s.w.pos then s'.chain[i..] else s.chain[i..]
  {
    hide Path; hide CurOk; hide Standing;
    UnlinkCur(s, s', r);
    var i := Standing(s.chain, r.cur);
    PathAt(s.chain, s.w, i);
    PathWithout(s.chain, s'.w, s.w.pos, i);
  }

  /** What Witness adds to a search. */
  lemma WitnessAt(s: State, q: int, chain: seq<int>)
    requires q in s.readers && s.readers[q].Active? && Known(chain, s.data)
    ensures var r, w := s.readers[q], Witness(s.readers, chain, s.data);
      q in w && w[q] == r.(answers := r.answers + {Search(chain, s.data, r.key)})
  {
  }

  lemma UnlinkAnswer(s: State, s': State, r: Reader)
    requires ListOk(s) && WriterOk(s) && Unlinking(s, s') && r.Active? && ReaderOk(s, r)
    ensures var path := Path(s'.chain, s'.w, r.cur);
      && Known(path, s.data) && Known(s'.chain, s.data)
      && (Search(path, s.data, r.key) in r.answers || Search(path, s.data, r.key) == Search(s'.chain, s.data, r.key))
  {
    hide Path; hide Standing;
    UnlinkPath(s, s', r);
    var i := Standing(s.chain, r.cur);
    if i < s.w.pos { SearchWithout(s.chain, s.data, s.w.pos, i, s.w.key, r.key); }
  }

  lemma UnlinkReader(s: State, s': State, q: int)
    requires ListOk(s) && WriterOk(s) && Unlinking(s, s')
    requires q in s.readers && ReaderOk(s, s.readers[q])
    ensures q in s'.readers && ReaderOk(s', s'.readers[q])
  {
    hide Path; hide Search; hide ListOk; hide WriterOk; hide Witness;
    var r := s.readers[q];
    if r.Active? {
      UnlinkCur(s, s', r);
      UnlinkAnswer(s, s', r);
      WitnessAt(s, q, s'.chain);
    } else {
      WitnessOut(s, q, s'.chain);
    }
  }

  lemma WitnessOut(s: State, q: int, chain: seq<int>)
    requires q in s.readers && s.readers[q].Out? && Known(chain, s.data)
    ensures q in Witness(s.readers, chain, s.data) && Witness(s.readers, chain, s.data)[q] == Out
  {
  }

  lemma UnlinkInv(cfg: Config, s: State, s': State)
    requires Inv(cfg, s) && Unlinking(s, s')
    ensures Inv(cfg, s')
  {
    hide ListOk; hide WriterOk; hide ReaderOk;
    UnlinkList(s, s');
    UnlinkWriter(s, s');
    forall q | q in s'.readers ensures ReaderOk(s', s'.readers[q]) { UnlinkReader(s, s', q); }
  }

  lemma PublishReader(s: State, s': State, q: int)
    requires ListOk(s) && WriterOk(s) && GraceOk(s) && Finish(s, s') && s.w.after.Publish?
    requires q in s.readers && ReaderOk(s, s.readers[q])
    ensures q in s'.readers && ReaderOk(s', s'.readers[q])
  {
    var r := s.readers[q];
    if r.Active? && r.cur.At? {
      var i := IndexOf(s.chain, r.cur.node);
      assert s'.chain[i + 1] == s.chain[i];
      assert IndexOf(s'.chain, r.cur.node) == i + 1;
      assert s'.chain[i + 1..] == s.chain[i..];
    }
  }

  lemma ReclaimReader(s: State, s': State, q: int)
    requires ListOk(s) && WriterOk(s) && GraceOk(s) && Finish(s, s') && s.w.after.Reclaim?
    requires q in s.readers && ReaderOk(s, s.readers[q])
    ensures ReaderOk(s', s.readers[q])
  {
    var r := s.readers[q];
    if r.Active? {
      var path := Path(s.chain, s.w, r.cur);
      assert Path(s'.chain, s'.w, r.cur) == path;
      assert forall i :: 0 <= i < |path| ==> path[i] in s.chain;
      SearchFrame(path, s.data, s'.data, r.key);
    }
  }

  lemma FinishList(s: State, s': State)
    requires ListOk(s) && WriterOk(s) && Finish(s, s')
    ensures ListOk(s') && WriterOk(s')
  {
    if s.w.after.Publish? {
      assert forall i :: 0 <= i < |s.chain| ==> s'.chain[i + 1] == s.chain[i];
      forall i | 0 <= i < |s'.chain| ensures s'.next[s'.chain[i]] == PtrAt(s'.chain, i + 1) {
        if i > 0 { assert s.next[s.chain[i - 1]] == PtrAt(s.chain, i); }
      }
    }
  }

  lemma FinishInv(cfg: Config, s: State, s': State)
    requires Inv(cfg, s) && Finish(s, s')
    ensures Inv(cfg, s')
  {
    hide ListOk; hide WriterOk; hide ReaderOk;
    FinishList(s, s');
    forall q | q in s'.readers ensures ReaderOk(s', s'.readers[q]) {
      if s.w.after.Publish? { PublishReader(s, s', q); } else { ReclaimReader(s, s', q); }
    }
  }

  lemma WalkCases(s: State, s': State)
    requires WalkStep(s, s')
    ensures Unlinking(s, s') || !InSync(s'.w)
  {
  }

  lemma StepInv(cfg: Config, s: State, e: Event, s': State)
    requires Inv(cfg, s) && Step(cfg, s, e, s') && cfg.visits >= cfg.ncpu && !cfg.gap
    ensures Inv(cfg, s')
  {
    hide Inv; hide Dispatch; hide Preempt; hide LoadHead; hide ReadLock; hide ReadStep; hide InsertStart;
    hide DeleteStart;
    hide WalkStep; hide SyncPin; hide SyncYield; hide SyncReturn; hide Finish; hide Unlinking;
    match e
    case EDispatch(p, c) => DispatchInv(cfg, s, p, c, s');
    case EPreempt(p) => PreemptInv(cfg, s, p, s');
    case ELoad(p, key) => LoadHeadInv(cfg, s, p, key, s');
    case ELock(p) => ReadLockInv(cfg, s, p, s');
    case ERead(p) => ReadStepInv(cfg, s, p, s');
    case EInsert(n, v) => InsertStartInv(cfg, s, n, v, s');
    case EDelete(key) => DeleteStartInv(cfg, s, key, s');
    case EWalk =>
      WalkCases(s, s');
      if Unlinking(s, s') { UnlinkInv(cfg, s, s'); } else { WalkOnInv(cfg, s, s'); }
    case EPin => SyncInv(cfg, s, s');
    case EYield => SyncInv(cfg, s, s');
    case EReturn => SyncInv(cfg, s, s');
    case EFinish => FinishInv(cfg, s, s');
  }

  lemma {:induction false} RunInv(cfg: Config, s: State, k: nat)
    requires Reaches(cfg, s, k) && cfg.visits >= cfg.ncpu && !cfg.gap
    ensures Inv(cfg, s)
    decreases k
  {
    hide Inv; hide Step; hide Init;
    if k == 0 {
      InitInv(cfg, s);
    } else {
      var p, e :| Reaches(cfg, p, k - 1) && Step(cfg, p, e, s);
      RunInv(cfg, p, k - 1);
      StepInv(cfg, p, e, s);
    }
  }

  // ---------------------------------------------------------------- theorems

  /** What holds however few CPUs synchronize_rcu visits: a section older than the grace period
      sits on a CPU it has not come to, or does not come to. */
  ghost predicate VisitedOk(cfg: Config, s: State) {
    && W !in s.readers
    && (forall p :: p in s.readers && s.readers[p].Active? ==> p in s.at && s.at[p] >= 0 && s.readers[p].born < s.clock)
    && (InSync(s.w) ==> s.w.since <= s.clock)
    && (s.w.Pinned? || s.w.Waiting? ==> s.affinity == s.w.i)
    && (InSync(s.w) ==> forall p :: p in s.readers && s.readers[p].Active? && s.readers[p].born < s.w.since ==>
          p in s.at && s.at[p] >= if s.w.Over? then cfg.visits else s.w.i)
  }

  /** Readers in the same sections on the same CPUs, and the same progress of the writer. */
  ghost predicate SameSections(s: State, s': State) {
    && s'.at == s.at && s'.clock == s.clock && s'.affinity == s.affinity && s'.readers.Keys == s.readers.Keys
    && forall p :: p in s.readers ==>
        && (s'.readers[p].Active? <==> s.readers[p].Active?)
        && (s.readers[p].Active? ==> s'.readers[p].born == s.readers[p].born)
  }

  lemma SectionsKept(s: State, chain: seq<int>, data: map<int, int>)
    requires forall i :: 0 <= i < |chain| ==> chain[i] in data
    ensures SameSections(s, s.(readers := Witness(s.readers, chain, data)))
  {
  }

  lemma WriterVisited(cfg: Config, s: State, e: Event, s': State)
    requires VisitedOk(cfg, s) && Step(cfg, s, e, s')
    requires e.EInsert? || e.EDelete? || e.EWalk? || e.EFinish?
    ensures VisitedOk(cfg, s')
  {
    hide Witness; hide Search;
    match e
    case EWalk =>
      if s'.chain != s.chain || s'.w.Sync? { SectionsKept(s, s'.chain, s.data); }
    case EFinish =>
      if s.w.after.Publish? { SectionsKept(s, s'.chain, s.data); }
    case _ =>
  }

  lemma StepVisited(cfg: Config, s: State, e: Event, s': State)
    requires VisitedOk(cfg, s) && Step(cfg, s, e, s') && !cfg.gap
    ensures VisitedOk(cfg, s')
  {
    hide Witness; hide Search;
    if e.EInsert? || e.EDelete? || e.EWalk? || e.EFinish? { WriterVisited(cfg, s, e, s'); }
  }

  lemma InitVisited(cfg: Config, s: State)
    requires Init(s)
    ensures VisitedOk(cfg, s)
  {
  }

  lemma {:induction false} RunVisited(cfg: Config, s: State, k: nat)
    requires Reaches(cfg, s, k) && !cfg.gap
    ensures VisitedOk(cfg, s)
    decreases k
  {
    hide Step; hide VisitedOk; hide Init;
    if k == 0 {
      InitVisited(cfg, s);
    } else {
      var p, e :| Reaches(cfg, p, k - 1) && Step(cfg, p, e, s);
      RunVisited(cfg, p, k - 1);
      StepVisited(cfg, p, e, s);
    }
  }

  /** Grace period: when synchronize_rcu returns, every section that was open at its start on a
      CPU it visits has ended, whatever CPUs there are.  (A section keeps its CPU.) */
  lemma GracePeriod(cfg: Config, s: State, p: int)
    requires Reachable(cfg, s) && !cfg.gap
    requires s.w.Over? && p in s.readers && s.readers[p].Active? && p in s.at && s.at[p] < cfg.visits
    ensures s.readers[p].born >= s.w.since
  {
    var k: nat :| Reaches(cfg, s, k);
    RunVisited(cfg, s, k);
  }

  /** So when it visits every CPU, every section that was open has ended. */
  lemma GracePeriodEverywhere(cfg: Config, s: State, p: int)
    requires Reachable(cfg, s) && cfg.visits >= cfg.ncpu && !cfg.gap
    requires s.w.Over? && p in s.readers && s.readers[p].Active?
    ensures s.readers[p].born >= s.w.since
  {
    var k: nat :| Reaches(cfg, s, k);
    RunInv(cfg, s, k);
  }

  /** A reader's next load would touch a page already passed to kfree. */
  ghost predicate TouchesFreed(s: State) {
    exists p :: p in s.readers && s.readers[p].Active? && s.readers[p].cur.At? && s.readers[p].cur.node in s.free
  }

  /** Linearizability: the pointer a search is about to return is what a search of the whole
      list would have returned at some instant since it loaded the head. */
  lemma SearchLinearizable(cfg: Config, s: State, p: int)
    requires Reachable(cfg, s) && cfg.visits >= cfg.ncpu && !cfg.gap
    requires p in s.readers && Answers(s, s.readers[p])
    ensures s.readers[p].cur in s.readers[p].answers
  {
    var k: nat :| Reaches(cfg, s, k);
    RunInv(cfg, s, k);
    var r := s.readers[p];
    assert ReaderOk(s, r);
    if r.cur.At? {
      var path := Path(s.chain, s.w, r.cur);
      assert path[0] == r.cur.node;
    }
  }

  // ---------------------------------------------------------------- exactly when reclamation is safe

  ghost predicate Safe(cfg: Config) {
    forall s :: Reachable(cfg, s) ==> !TouchesFreed(s)
  }

  lemma GraceMakesSafe(cfg: Config, s: State)
    requires Reachable(cfg, s) && cfg.visits >= cfg.ncpu && !cfg.gap
    ensures !TouchesFreed(s)
  {
    var k: nat :| Reaches(cfg, s, k);
    RunInv(cfg, s, k);
    forall p | p in s.readers && s.readers[p].Active? && s.readers[p].cur.At? ensures s.readers[p].cur.node !in s.free {
      assert ReaderOk(s, s.readers[p]);
    }
  }

  /** With more visits than CPUs the writer waits for a CPU that does not exist: nothing is ever
      passed to kfree, and what was never free stays so. */
  predicate Alive(s: State, p: Ptr) {
    p.At? ==> p.node !in s.free
  }

  ghost predicate Stuck(cfg: Config, s: State) {
    && (s.w.Sync? ==> s.w.i <= cfg.ncpu) && !s.w.Over?
    && (s.w.Pinned? || s.w.Waiting? ==> s.affinity == s.w.i)
    && Alive(s, s.head) && (s.w.Walk? ==> Alive(s, s.w.prev) && Alive(s, s.w.temp))
    && (forall n :: n in s.next ==> n !in s.free && Alive(s, s.next[n]))
    && (forall p :: p in s.readers && s.readers[p].Active? ==> Alive(s, s.readers[p].cur))
  }

  lemma StuckStep(cfg: Config, s: State, e: Event, s': State)
    requires Stuck(cfg, s) && Step(cfg, s, e, s') && cfg.visits > cfg.ncpu
    ensures Stuck(cfg, s')
  {
    hide Witness; hide Search; hide Drop;
    if e.EInsert? || e.EDelete? || e.EWalk? || e.EFinish? { StuckWriter(cfg, s, e, s'); }
  }

  lemma StuckWriter(cfg: Config, s: State, e: Event, s': State)
    requires Stuck(cfg, s) && Step(cfg, s, e, s') && (e.EInsert? || e.EDelete? || e.EWalk? || e.EFinish?)
    ensures Stuck(cfg, s')
  {
    hide Search; hide Drop;
  }

  lemma {:induction false} RunStuck(cfg: Config, s: State, k: nat)
    requires Reaches(cfg, s, k) && cfg.visits > cfg.ncpu
    ensures Stuck(cfg, s)
    decreases k
  {
    hide Step; hide Stuck;
    if k == 0 {
      StuckInit(cfg, s);
    } else {
      var p, e :| Reaches(cfg, p, k - 1) && Step(cfg, p, e, s);
      RunStuck(cfg, p, k - 1);
      StuckStep(cfg, p, e, s);
    }
  }

  lemma StuckInit(cfg: Config, s: State)
    requires Init(s)
    ensures Stuck(cfg, s)
  {
  }

  // A run in which a reader stands on the node while the writer deletes and frees it.

  lemma ReachableNext(cfg: Config, p: State, e: Event, s: State)
    requires Reachable(cfg, p) && Step(cfg, p, e, s)
    ensures Reachable(cfg, s)
  {
    hide Step; hide Init;
    var k: nat :| Reaches(cfg, p, k);
    assert Reaches(cfg, s, k + 1);
  }

  /** The reader, process 1, looks for 5 and stands on node 7, on CPU r or on none; the writer
      is on CPU c; the list is gone. */
  function Scene(locked: bool, r: int, c: int, affinity: int, w: Writer): (s: State)
  {
    State(map[W := c, 1 := r], affinity, map[1 := Active(locked, 5, At(7), 0, {Null})], w,
          Null, map[7 := Null], map[7 := 0], {}, [], 1)
  }

  function Before(locked: bool, r: int, c: int, w: Writer): (s: State)
  {
    Scene(locked, r, c, -1, w).(head := At(7), chain := [7])
  }

  lemma StandOn(cfg: Config, locked: bool, r: int)
    requires cfg.ncpu >= 1 && if locked then 0 <= r < cfg.ncpu else cfg.gap && r == -1
    ensures Reachable(cfg, Before(locked, r, -1, Idle))
  {
    hide Reachable;
    var c := if locked then r else 0;
    StandBefore(cfg, c);
    var s2 := Before(false, c, -1, Idle);
    if locked {
      ReachableNext(cfg, s2, ELock(1), Before(true, c, -1, Idle));
    } else {
      ReachableNext(cfg, s2, EPreempt(1), Before(false, -1, -1, Idle));
    }
  }

  lemma StandBefore(cfg: Config, c: int)
    requires 0 <= c < cfg.ncpu
    ensures Reachable(cfg, Before(false, c, -1, Idle))
  {
    hide Reachable;
    var s0 := Before(false, -1, -1, Idle).(readers := map[1 := Out], clock := 0);
    assert StartsWith(s0, 7);
    ReachableInit(cfg, s0);
    var s1 := s0.(at := map[W := -1, 1 := c]);
    ReachableNext(cfg, s0, EDispatch(1, c), s1);
    assert Search([7], s1.data, 5) == Search([], s1.data, 5);
    ReachableNext(cfg, s1, ELoad(1, 5), Before(false, c, -1, Idle));
  }

  lemma ReachableInit(cfg: Config, s: State)
    requires Init(s)
    ensures Reachable(cfg, s)
  {
    hide Init;
    assert Reaches(cfg, s, 0);
  }

  lemma DeleteIt(cfg: Config, locked: bool, r: int)
    requires cfg.ncpu >= 1 && r != 0 && Reachable(cfg, Before(locked, r, -1, Idle))
    ensures Reachable(cfg, Scene(locked, r, 0, -1, Sync(0, 1, Reclaim(7, 0))))
  {
    hide Reachable;
    FindIt(cfg, locked, r);
    var s2 := Before(locked, r, 0, Walk(0, Null, At(7), 0));
    var s3 := Scene(locked, r, 0, -1, Sync(0, 1, Reclaim(7, 0)));
    assert Drop([7], 0) == [];
    var once: set<Ptr> := {Null};
    assert once + {Search([], s2.data, 5)} == once;
    assert Witness(s2.readers, [], s2.data) == s3.readers;
    assert Unlinks(s2, Null, 7, 0, s3);
    ReachableNext(cfg, s2, EWalk, s3);
  }

  lemma FindIt(cfg: Config, locked: bool, r: int)
    requires cfg.ncpu >= 1 && r != 0 && Reachable(cfg, Before(locked, r, -1, Idle))
    ensures Reachable(cfg, Before(locked, r, 0, Walk(0, Null, At(7), 0)))
  {
    hide Reachable;
    var s0, s1 := Before(locked, r, -1, Idle), Before(locked, r, 0, Idle);
    ReachableNext(cfg, s0, EDispatch(W, 0), s1);
    var s2 := Before(locked, r, 0, Walk(0, Null, At(7), 0));
    ReachableNext(cfg, s1, EDelete(0), s2);
  }

  /** One round of synchronize_rcu on a CPU the reader is not on. */
  lemma Visit(cfg: Config, locked: bool, r: int, c: int, affinity: int, i: nat)
    requires i < cfg.visits && i < cfg.ncpu && r != i && c >= 0
    requires Reachable(cfg, Scene(locked, r, c, affinity, Sync(i, 1, Reclaim(7, 0))))
    ensures Reachable(cfg, Scene(locked, r, i, i, Sync(i + 1, 1, Reclaim(7, 0))))
  {
    hide Reachable;
    var after := Reclaim(7, 0);
    var s0, s1 := Scene(locked, r, c, affinity, Sync(i, 1, after)), Scene(locked, r, c, i, Pinned(i, 1, after));
    assert SyncPin(cfg, s0, s1);
    ReachableNext(cfg, s0, EPin, s1);
    var s2, s3 := Scene(locked, r, -1, i, Waiting(i, 1, after)), Scene(locked, r, i, i, Sync(i + 1, 1, after));
    assert s1.at[W := -1] == s2.at && s2.at[W := i] == s3.at;
    assert SyncYield(s1, s2);
    ReachableNext(cfg, s1, EYield, s2);
    assert Dispatch(cfg, s2, W, i, s3);
    ReachableNext(cfg, s2, EDispatch(W, i), s3);
  }

  lemma {:induction false} VisitAll(cfg: Config, locked: bool, r: int, i: nat)
    requires i <= cfg.visits <= cfg.ncpu && (r == -1 || r == cfg.visits)
    requires Reachable(cfg, Scene(locked, r, 0, -1, Sync(0, 1, Reclaim(7, 0))))
    ensures Reachable(cfg, Scene(locked, r, if i == 0 then 0 else i - 1, i - 1, Sync(i, 1, Reclaim(7, 0))))
  {
    hide Reachable; hide Scene;
    if i > 0 {
      VisitAll(cfg, locked, r, i - 1);
      Visit(cfg, locked, r, if i == 1 then 0 else i - 2, i - 2, i - 1);
    }
  }

  lemma FreeIt(cfg: Config, locked: bool, r: int)
    requires 1 <= cfg.visits <= cfg.ncpu && (r == -1 || r == cfg.visits) && Reachable(cfg, Before(locked, r, -1, Idle))
    ensures !Safe(cfg)
  {
    hide Reachable; hide Before; hide Scene;
    DeleteIt(cfg, locked, r);
    VisitAll(cfg, locked, r, cfg.visits);
    FreedScene(cfg, locked, r);
  }

  lemma FreedScene(cfg: Config, locked: bool, r: int)
    requires 1 <= cfg.visits
    requires Reachable(cfg, Scene(locked, r, cfg.visits - 1, cfg.visits - 1, Sync(cfg.visits, 1, Reclaim(7, 0))))
    ensures !Safe(cfg)
  {
    hide Reachable;
    var v, after := cfg.visits - 1, Reclaim(7, 0);
    var s0, s1 := Scene(locked, r, v, v, Sync(v + 1, 1, after)), Scene(locked, r, v, -1, Over(1, after));
    ReachableNext(cfg, s0, EReturn, s1);
    var s2 := Scene(locked, r, v, -1, Idle).(free := {7}, data := map[], next := map[]);
    assert s1.data - {7} == map[] && s1.next - {7} == map[];
    ReachableNext(cfg, s1, EFinish, s2);
    assert s2.readers[1].Active?;
    assert TouchesFreed(s2);
  }

  /** No reader can reach a node passed to kfree, in any run, exactly when synchronize_rcu
      visits every CPU and a reader cannot lose its CPU between the head load and the lock (or
      when it visits more CPUs than there are, and never returns). */
  lemma ReclamationSafeIff(cfg: Config)
    requires cfg.visits >= 1
    ensures Safe(cfg) <==> cfg.visits > cfg.ncpu || (cfg.visits == cfg.ncpu && !cfg.gap)
  {
    if cfg.visits > cfg.ncpu {
      forall s | Reachable(cfg, s) ensures !TouchesFreed(s) {
        var k: nat :| Reaches(cfg, s, k);
        RunStuck(cfg, s, k);
      }
    } else if cfg.visits == cfg.ncpu && !cfg.gap {
      forall s | Reachable(cfg, s) ensures !TouchesFreed(s) { GraceMakesSafe(cfg, s); }
    } else if cfg.visits < cfg.ncpu {
      StandOn(cfg, true, cfg.visits);
      FreeIt(cfg, true, cfg.visits);
    } else {
      StandOn(cfg, false, -1);
      FreeIt(cfg, false, -1);
    }
  }
}
