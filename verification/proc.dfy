/** Sleep, wakeup and the scheduler (kernel/proc.c, on the spinlocks of kernel/spinlock.c).

    Every lock operation, every store to a process or CPU record and every swtch is one step of
    some process, of some interrupt handler or of some CPU's scheduler; any enabled step may
    come next.  p->lock is held across swtch: taken by one side, released by the other.
    Processes are numbered below n, handlers from n on. */
module SleepWakeup {
  datatype RunState = Sleeping | Runnable | Running

  /** Who holds a p->lock: a process, or a CPU's scheduler. */
  datatype Holder = Free | ByProc(p: int) | ByCpu(c: int)

  /** Where a process is.  SleepA to SleepH are the points of sleep(chan, lk): before taking
      p->lock, before releasing lk, before the store to chan, before the store to state, before
      swtch, switched out, before clearing chan, before releasing p->lock and before taking lk
      again.  WakeAt, WakeHave and WakeDone are the points of wakeup(chan) at proc[i]. */
  datatype Pc =
    | Out
    | SleepA(chan: int, lk: int) | SleepB(chan: int, lk: int) | SleepC(chan: int, lk: int) | SleepD(chan: int, lk: int)
    | SleepE(chan: int, lk: int) | SleepOut(chan: int, lk: int) | SleepF(chan: int, lk: int)
    | SleepG(chan: int, lk: int)
    | SleepH(chan: int, lk: int)
    | WakeAt(chan: int, i: int) | WakeHave(chan: int, i: int) | WakeDone(chan: int, i: int)

  /** A timer interrupt's yield, on top of whatever the process does. */
  datatype Yielding = NoYield | YieldA | YieldB | YieldC | YieldOut | YieldD

  /** One call of sleep: the process and the number of that call. */
  datatype Call = Call(p: int, gen: nat, chan: int)

  /** `marks` collects the calls of sleep(chan, lk) in progress whenever the process took lk. */
  datatype Proc = Proc(state: RunState, chan: int, affinity: int, lock: Holder, on: int, pc: Pc, y: Yielding, gen: nat,
                       marks: set<Call>)

  /** A scheduler: looking, with proc[p].lock before the test, after state = RUNNING, after
      c->proc = p, running p, just back, after c->proc = 0. */
  datatype Sched = Look | Have(p: int) | Chosen(p: int) | Given(p: int) | On(p: int) | Back(p: int) | Cleared(p: int)

  datatype Cpu = Cpu(cur: int, sp: Sched)

  /** The value of `on` for an interrupt handler, which the scheduler does not know.  A handler
      takes locks and calls wakeup; on whatever CPU it runs, and on top of whatever it has
      interrupted, is left open. */
  const HANDLER: int := -2

  datatype State = State(procs: map<int, Proc>, cpus: map<int, Cpu>, lk: map<int, int>)

  // ---------------------------------------------------------------- steps

  predicate HoldsNone(s: State, q: int) { forall l :: l in s.lk ==> s.lk[l] != q }

  predicate Awake(p: Proc) { p.on >= 0 && p.y == NoYield }

  /** A process with a CPU, or a handler. */
  predicate Acts(p: Proc) { Awake(p) || (p.on == HANDLER && p.y == NoYield) }

  predicate Allowed(affinity: int, c: int) { affinity == -1 || affinity == c }

  /** Points of sleep past the release of lk and before the process runs again. */
  predicate Down(pc: Pc) { pc.SleepC? || pc.SleepD? || pc.SleepE? || pc.SleepOut? }

  predicate InWakeup(pc: Pc) { pc.WakeAt? || pc.WakeHave? || pc.WakeDone? }

  /** The steps of sleep that touch only the process's own record. */
  predicate SleepMove(q: int, p: Proc, p': Proc) {
    && Awake(p)
    && match p.pc
       case SleepA(c, l) => p.lock == Free && p' == p.(lock := ByProc(q), pc := SleepB(c, l))
       case SleepC(c, l) => p' == p.(chan := c, pc := SleepD(c, l))
       case SleepD(c, l) => p' == p.(state := Sleeping, pc := SleepE(c, l))
       case SleepF(c, l) => p' == p.(chan := 0, pc := SleepG(c, l))
       case SleepG(c, l) => p' == p.(lock := Free, pc := SleepH(c, l))
       case _ => false
  }

  /** yield, called from a timer interrupt. */
  predicate YieldMove(q: int, p: Proc, p': Proc) {
    && p.on >= 0
    && match p.y
       case YieldA => p.lock == Free && p' == p.(lock := ByProc(q), y := YieldB)
       case YieldB => p' == p.(state := Runnable, y := YieldC)
       case YieldD => p' == p.(lock := Free, y := NoYield)
       case _ => false
  }

  /** wakeup is called, passes over its own process, and ends. */
  predicate WakeMove(n: int, q: int, p: Proc, p': Proc) {
    && Acts(p) && p' == p.(pc := p'.pc)
    && match p.pc
       case Out => p'.pc.WakeAt? && p'.pc.i == 0
       case WakeAt(c, i) => (i == q && i < n && p'.pc == WakeAt(c, i + 1)) || (i == n && p'.pc == Out)
       case _ => false
  }

  /** The process sets its affinity; or another one kills it, under p->lock. */
  predicate OtherMove(p: Proc, p': Proc) {
    || (Awake(p) && p.pc.Out? && p' == p.(affinity := p'.affinity))
    || (p.lock == Free && p.state == Sleeping && p' == p.(state := Runnable))
  }

  ghost predicate OwnStep(n: int, s: State, q: int, s': State) {
    && q in s.procs && q in s'.procs && s' == s.(procs := s.procs[q := s'.procs[q]])
    && var p, p' := s.procs[q], s'.procs[q];
    SleepMove(q, p, p') || YieldMove(q, p, p') || WakeMove(n, q, p, p') || OtherMove(p, p')
  }

  /** Points where a process may hold no p->lock. */
  predicate Interruptible(p: Proc) { Awake(p) && (p.pc.Out? || p.pc.WakeAt? || p.pc.SleepH?) }

  /** Interrupts are on only when no spinlock is held. */
  ghost predicate Timer(s: State, q: int, s': State) {
    && q in s.procs && HoldsNone(s, q) && Interruptible(s.procs[q])
    && s' == s.(procs := s.procs[q := s.procs[q].(y := YieldA)])
  }

  /** The calls of sleep(chan, l) in progress. */
  function InSleep(procs: map<int, Proc>, l: int): (r: set<Call>)
  {
    set p | p in procs && Down(procs[p].pc) && procs[p].pc.lk == l :: Call(p, procs[p].gen, procs[p].pc.chan)
  }

  /** acquire(l), outside these functions. */
  ghost predicate TakeLk(s: State, q: int, l: int, s': State) {
    && q in s.procs && Acts(s.procs[q]) && s.procs[q].pc.Out? && l in s.lk && s.lk[l] == -1
    && s' == s.(procs := s.procs[q := Marked(s, q, l)], lk := s.lk[l := q])
  }

  /** The process, out of sleep, with the calls in progress on l among its marks. */
  function Marked(s: State, q: int, l: int): (p: Proc)
    requires q in s.procs
  {
    s.procs[q].(pc := Out, marks := s.procs[q].marks + InSleep(s.procs, l))
  }

  ghost predicate DropLk(s: State, q: int, l: int, s': State) {
    && q in s.procs && Acts(s.procs[q]) && s.procs[q].pc.Out? && l in s.lk && s.lk[l] == q
    && s' == s.(lk := s.lk[l := -1])
  }

  /** sleep(chan, l) is called with l held and no other spinlock. */
  ghost predicate CallSleep(s: State, q: int, chan: int, l: int, s': State) {
    && q in s.procs && Awake(s.procs[q]) && s.procs[q].pc.Out? && l in s.lk
    && (forall m :: m in s.lk ==> (s.lk[m] == q <==> m == l))
    && s' == s.(procs := s.procs[q := s.procs[q].(pc := SleepA(chan, l), gen := s.procs[q].gen + 1)])
  }

  ghost predicate SleepRelease(s: State, q: int, s': State) {
    && q in s.procs && Awake(s.procs[q]) && s.procs[q].pc.SleepB? && s.procs[q].pc.lk in s.lk
    && var pc := s.procs[q].pc;
    s' == s.(procs := s.procs[q := s.procs[q].(pc := SleepC(pc.chan, pc.lk))], lk := s.lk[pc.lk := -1])
  }

  ghost predicate SleepRetake(s: State, q: int, s': State) {
    && q in s.procs && Awake(s.procs[q]) && s.procs[q].pc.SleepH? && s.procs[q].pc.lk in s.lk
    && s.lk[s.procs[q].pc.lk] == -1
    && s' == s.(procs := s.procs[q := Marked(s, q, s.procs[q].pc.lk)], lk := s.lk[s.procs[q].pc.lk := q])
  }

  /** Either way a waker can come to hold l: by acquire, or at the end of a sleep of its own. */
  ghost predicate Takes(s: State, q: int, l: int, s': State) {
    TakeLk(s, q, l, s') || (SleepRetake(s, q, s') && s.procs[q].pc.lk == l)
  }

  /** swtch to the scheduler, in sleep or in yield: the lock passes to the CPU. */
  ghost predicate SwitchOut(s: State, q: int, s': State) {
    && q in s.procs && s.procs[q].on in s.cpus
    && var p := s.procs[q];
    && (p.y == YieldC || (Awake(p) && p.pc.SleepE?)) && p.on >= 0
    && var p' := p.(on := -1, lock := ByCpu(p.on));
    s' == s.(
      procs := s.procs[q := if p.y == YieldC then p'.(y := YieldOut) else p'.(pc := SleepOut(p.pc.chan, p.pc.lk))],
      cpus := s.cpus[p.on := s.cpus[p.on].(sp := Back(q))])
  }

  /** wakeup at another process: acquire, test, release. */
  ghost predicate WakeTake(s: State, q: int, i: int, s': State) {
    && q in s.procs && i in s.procs && i != q && Acts(s.procs[q]) && s.procs[q].pc.WakeAt? && s.procs[q].pc.i == i
    && s.procs[i].lock == Free && s.procs[i].on != HANDLER
    && s' == s.(procs := s.procs[i := s.procs[i].(lock := ByProc(q))]
                                [q := s.procs[q].(pc := WakeHave(s.procs[q].pc.chan, i))])
  }

  ghost predicate WakeTest(s: State, q: int, i: int, s': State) {
    && q in s.procs && i in s.procs && i != q && Acts(s.procs[q]) && s.procs[q].pc.WakeHave? && s.procs[q].pc.i == i
    && var t, chan := s.procs[i], s.procs[q].pc.chan;
    s' == s.(procs := s.procs[i := if t.state == Sleeping && t.chan == chan then t.(state := Runnable) else t]
                             [q := s.procs[q].(pc := WakeDone(chan, i))])
  }

  ghost predicate WakeDrop(s: State, q: int, i: int, s': State) {
    && q in s.procs && i in s.procs && i != q && Acts(s.procs[q]) && s.procs[q].pc.WakeDone? && s.procs[q].pc.i == i
    && s' == s.(procs := s.procs[i := s.procs[i].(lock := Free)]
                                [q := s.procs[q].(pc := WakeAt(s.procs[q].pc.chan, i + 1))])
  }

  /** A handler passes over the process it has interrupted, which had interrupts on. */
  ghost predicate PassHost(s: State, q: int, i: int, s': State) {
    && q in s.procs && i in s.procs && i != q && s.procs[q].on == HANDLER && Acts(s.procs[q])
    && s.procs[q].pc.WakeAt? && s.procs[q].pc.i == i && Interruptible(s.procs[i])
    && s' == s.(procs := s.procs[q := s.procs[q].(pc := WakeAt(s.procs[q].pc.chan, i + 1))])
  }

  /** The scheduler of CPU c takes p's lock; */
  ghost predicate Pick(s: State, c: int, q: int, s': State) {
    && c in s.cpus && s.cpus[c].sp.Look? && q in s.procs && s.procs[q].lock == Free && s.procs[q].on != HANDLER
    && s' == s.(procs := s.procs[q := s.procs[q].(lock := ByCpu(c))], cpus := s.cpus[c := s.cpus[c].(sp := Have(q))])
  }

  /** looks at affinity and state; */
  ghost predicate Inspect(s: State, c: int, q: int, s': State) {
    && c in s.cpus && q in s.procs && s.cpus[c].sp == Have(q)
    && var p := s.procs[q];
    if !Allowed(p.affinity, c) || p.state != Runnable
    then s' == s.(procs := s.procs[q := p.(lock := Free)], cpus := s.cpus[c := s.cpus[c].(sp := Look)])
    else s' == s.(procs := s.procs[q := p.(state := Running)], cpus := s.cpus[c := s.cpus[c].(sp := Chosen(q))])
  }

  /** sets c->proc; clears it when the process is back; */
  ghost predicate SetCur(s: State, c: int, q: int, s': State) {
    && c in s.cpus && q in s.procs
    && ((s.cpus[c].sp == Chosen(q) && s' == s.(cpus := s.cpus[c := Cpu(q, Given(q))]))
        || (s.cpus[c].sp == Back(q) && s' == s.(cpus := s.cpus[c := Cpu(-1, Cleared(q))])))
  }

  /** switches to the process, which goes on where it stopped; */
  ghost predicate SwitchIn(s: State, c: int, q: int, s': State) {
    && c in s.cpus && q in s.procs && s.cpus[c].sp == Given(q)
    && var p := s.procs[q];
    && (p.y == YieldOut || p.pc.SleepOut?)
    && var p' := p.(on := c, lock := ByProc(q));
    s' == s.(
      procs := s.procs[q := if p.y == YieldOut then p'.(y := YieldD) else p'.(pc := SleepF(p.pc.chan, p.pc.lk))],
      cpus := s.cpus[c := s.cpus[c].(sp := On(q))])
  }

  /** and releases the lock. */
  ghost predicate Unpick(s: State, c: int, q: int, s': State) {
    && c in s.cpus && q in s.procs && s.cpus[c].sp == Cleared(q)
    && s' == s.(procs := s.procs[q := s.procs[q].(lock := Free)], cpus := s.cpus[c := s.cpus[c].(sp := Look)])
  }

  ghost predicate ProcStep(n: int, s: State, q: int, s': State) {
    OwnStep(n, s, q, s') || Timer(s, q, s') || SleepRelease(s, q, s') || SleepRetake(s, q, s') || SwitchOut(s, q, s')
  }

  ghost predicate ProcWith(s: State, q: int, x: int, s': State) {
    || TakeLk(s, q, x, s') || DropLk(s, q, x, s')
    || WakeTake(s, q, x, s') || WakeTest(s, q, x, s') || WakeDrop(s, q, x, s') || PassHost(s, q, x, s')
  }

  ghost predicate CpuStep(s: State, c: int, q: int, s': State) {
    Pick(s, c, q, s') || Inspect(s, c, q, s') || SetCur(s, c, q, s') || SwitchIn(s, c, q, s') || Unpick(s, c, q, s')
  }

  ghost predicate Next(n: int, s: State, s': State) {
    || (exists q :: ProcStep(n, s, q, s'))
    || (exists q, x :: ProcWith(s, q, x, s'))
    || (exists q, chan, l :: CallSleep(s, q, chan, l, s'))
    || (exists c, q :: CpuStep(s, c, q, s'))
  }

  // ---------------------------------------------------------------- the invariant

  /** The points where a process holds its own lock. */
  predicate OwnHold(p: Proc) {
    if p.y == NoYield then p.pc.SleepB? || p.pc.SleepC? || p.pc.SleepD? || p.pc.SleepE? || p.pc.SleepF? || p.pc.SleepG?
    else p.y == YieldB || p.y == YieldC || p.y == YieldD
  }

  predicate Suspended(p: Proc) { p.y == YieldOut || (p.y == NoYield && p.pc.SleepOut?) }

  predicate HandlerOk(n: int, q: int, p: Proc) {
    && q >= n >= 0 && p.on == HANDLER && p.y == NoYield && p.lock == Free && p.state == Running
    && (p.pc.Out? || (InWakeup(p.pc) && 0 <= p.pc.i <= n && (p.pc.WakeAt? || p.pc.i < n)))
    && (forall k :: k in p.marks ==> k.p != q && 0 <= k.p < n)
  }

  /** One process or handler on its own. */
  predicate ProcOk(n: int, q: int, p: Proc) {
    if p.on == HANDLER then HandlerOk(n, q, p) else UserOk(n, q, p)
  }

  predicate UserOk(n: int, q: int, p: Proc) {
    && 0 <= q < n && p.on >= -1
    && (p.y != NoYield ==> p.pc.Out? || p.pc.WakeAt? || p.pc.SleepH?)
    && (p.lock == ByProc(q) <==> OwnHold(p))
    && (p.on == -1 <==> Suspended(p))
    && (p.on >= 0 ==>
          p.state == (if p.y == YieldC then Runnable else if p.y == NoYield && p.pc.SleepE? then Sleeping else Running))
    && (p.on == -1 && p.state == Running ==> p.lock.ByCpu?)
    && (p.on == -1 && p.y == YieldOut ==> p.state != Sleeping)
    && (p.pc.SleepD? || p.pc.SleepE? || p.pc.SleepOut? || p.pc.SleepF? ==> p.chan == p.pc.chan)
    && (p.pc.WakeAt? || p.pc.WakeHave? || p.pc.WakeDone? ==> 0 <= p.pc.i <= n)
    && (p.pc.WakeHave? || p.pc.WakeDone? ==> p.pc.i < n && p.pc.i != q)
    && (forall k :: k in p.marks ==> k.p != q && 0 <= k.p < n)
  }

  predicate CpuOk(n: int, x: Cpu) {
    && (x.cur == -1 || 0 <= x.cur < n) && (!x.sp.Look? ==> 0 <= x.sp.p < n)
  }

  predicate InHand(sp: Sched, q: int)
  {
    sp == Have(q) || sp == Chosen(q) || sp == Given(q) || sp == Back(q) || sp == Cleared(q)
  }

  /** A process and a CPU. */
  predicate PairOk(q: int, p: Proc, c: int, x: Cpu) {
    && (p.on == c <==> x.sp == On(q))
    && (p.lock == ByCpu(c) <==> InHand(x.sp, q))
    && (x.sp == Have(q) && p.on == -1 ==> p.state != Running)
    && (x.sp == Chosen(q) || x.sp == Given(q) ==> p.on == -1 && p.state == Running && Allowed(p.affinity, c))
    && (x.sp == Back(q) || x.sp == Cleared(q) ==> p.on == -1 && p.state != Running)
    && (x.cur == q <==> x.sp == Given(q) || x.sp == On(q) || x.sp == Back(q))
  }

  /** The process is still in that call of sleep and has not been woken. */
  predicate Dozing(p: Proc, k: Call) {
    p.gen == k.gen && (p.pc.SleepC? || p.pc.SleepD? || ((p.pc.SleepE? || p.pc.SleepOut?) && p.state == Sleeping))
  }

  /** wakeup(chan) has been at proc[k.p]. */
  predicate Scanned(pc: Pc, k: Call) {
    match pc
    case WakeAt(chan, i) => k.chan == chan && k.p < i
    case WakeHave(chan, i) => k.chan == chan && k.p < i
    case WakeDone(chan, i) => k.chan == chan && k.p <= i
    case _ => false
  }

  predicate CallOk(r: Proc, k: Call, p: Proc) {
    && k.gen <= p.gen
    && (k.gen == p.gen ==> !p.pc.SleepA? && !p.pc.SleepB? && (Down(p.pc) ==> p.pc.chan == k.chan))
    && (Scanned(r.pc, k) ==> !Dozing(p, k))
  }

  /** Two processes. */
  predicate TwoOk(r: int, x: Proc, q: int, p: Proc) {
    && (p.lock == ByProc(r) <==> (x.pc.WakeHave? || x.pc.WakeDone?) && x.pc.i == q)
    && (forall k :: k in x.marks && k.p == q ==> CallOk(x, k, p))
  }

  /** A process and a lock. */
  predicate LockOk(l: int, o: int, q: int, p: Proc) {
    && (o == q ==>
          && p.y == NoYield
          && (p.pc.Out? || p.pc.SleepA? || p.pc.SleepB? || p.pc.WakeAt? || p.pc.WakeHave? || p.pc.WakeDone?))
    && ((p.pc.SleepA? || p.pc.SleepB?) ==> (o == q <==> p.pc.lk == l))
  }

  ghost predicate Inv(n: int, s: State) {
    && n >= 0 && (forall q :: 0 <= q < n ==> q in s.procs) && (forall q :: q in s.procs ==> q >= 0)
    && (forall q :: q in s.procs ==> ProcOk(n, q, s.procs[q]))
    && (forall c :: c in s.cpus ==> c >= 0 && CpuOk(n, s.cpus[c]))
    && (forall q, c :: q in s.procs && c in s.cpus ==> PairOk(q, s.procs[q], c, s.cpus[c]))
    && (forall r, q :: r in s.procs && q in s.procs && r != q ==> TwoOk(r, s.procs[r], q, s.procs[q]))
    && (forall l, q :: l in s.lk && q in s.procs ==> LockOk(l, s.lk[l], q, s.procs[q]))
    && (forall q :: q in s.procs ==> KnownOk(s.procs.Keys, s.cpus.Keys, s.lk.Keys, s.procs[q]))
  }

  /** The process, CPU and lock numbers in a record are real ones. */
  predicate KnownOk(procs: set<int>, cpus: set<int>, lks: set<int>, p: Proc) {
    && (p.lock.ByProc? ==> p.lock.p in procs) && (p.lock.ByCpu? ==> p.lock.c in cpus) && (p.on >= 0 ==> p.on in cpus)
    && (p.pc.Out? || InWakeup(p.pc) || p.pc.lk in lks)
  }

  // ---------------------------------------------------------------- one record changes

  /** What a new record p' of process q must keep to, whatever the rest of the state. */
  ghost predicate Safe(n: int, q: int, p: Proc, p': Proc) {
    && ProcOk(n, q, p')
    && (forall c, x :: PairOk(q, p, c, x) ==> PairOk(q, p', c, x))
    && (forall r, x :: r != q && TwoOk(r, x, q, p) ==> TwoOk(r, x, q, p'))
    && (forall r, x :: r != q && TwoOk(q, p, r, x) ==> TwoOk(q, p', r, x))
    && (forall l, o :: LockOk(l, o, q, p) ==> LockOk(l, o, q, p'))
  }

  lemma SleepSafe(n: int, q: int, p: Proc, p': Proc)
    requires ProcOk(n, q, p) && SleepMove(q, p, p')
    ensures Safe(n, q, p, p')
  {
  }

  lemma YieldSafe(n: int, q: int, p: Proc, p': Proc)
    requires ProcOk(n, q, p) && YieldMove(q, p, p')
    ensures Safe(n, q, p, p')
  {
  }

  lemma WakeSafe(n: int, q: int, p: Proc, p': Proc)
    requires ProcOk(n, q, p) && WakeMove(n, q, p, p')
    ensures Safe(n, q, p, p')
  {
  }

  lemma OtherSafe(n: int, q: int, p: Proc, p': Proc)
    requires ProcOk(n, q, p) && OtherMove(p, p')
    ensures Safe(n, q, p, p')
  {
  }

  lemma OwnFrame(n: int, s: State, q: int, p': Proc)
    requires Inv(n, s) && q in s.procs && Safe(n, q, s.procs[q], p')
    requires KnownOk(s.procs.Keys, s.cpus.Keys, s.lk.Keys, p')
    ensures Inv(n, s.(procs := s.procs[q := p']))
  {
    hide ProcOk; hide PairOk; hide TwoOk; hide LockOk; hide CpuOk; hide KnownOk;
    var s' := s.(procs := s.procs[q := p']);
    assert s'.procs.Keys == s.procs.Keys;
  }

  lemma OwnInv(n: int, s: State, q: int, s': State)
    requires Inv(n, s) && OwnStep(n, s, q, s')
    ensures Inv(n, s')
  {
    hide Inv; hide Safe; hide PairOk; hide TwoOk; hide LockOk; hide ProcOk;
    var p, p' := s.procs[q], s'.procs[q];
    Known(n, s, q);
    if SleepMove(q, p, p') { SleepSafe(n, q, p, p'); }
    else if YieldMove(q, p, p') { YieldSafe(n, q, p, p'); }
    else if WakeMove(n, q, p, p') { WakeSafe(n, q, p, p'); }
    else { OtherSafe(n, q, p, p'); }
    OwnFrame(n, s, q, p');
  }

  lemma Known(n: int, s: State, q: int)
    requires Inv(n, s) && q in s.procs
    ensures ProcOk(n, q, s.procs[q]) && KnownOk(s.procs.Keys, s.cpus.Keys, s.lk.Keys, s.procs[q])
  {
  }

  // ---------------------------------------------------------------- a record and a lock

  /** Safe towards CPUs and towards the marks of others. */
  ghost predicate SafeBut(n: int, q: int, p: Proc, p': Proc) {
    && ProcOk(n, q, p')
    && (forall c, x :: PairOk(q, p, c, x) ==> PairOk(q, p', c, x))
    && (forall r, x :: r != q && TwoOk(r, x, q, p) ==> TwoOk(r, x, q, p'))
  }

  ghost predicate SafeMarks(q: int, p: Proc, p': Proc) {
    forall r, x :: r != q && TwoOk(q, p, r, x) ==> TwoOk(q, p', r, x)
  }

  ghost predicate LocksOk(s: State, q: int, p': Proc, lk: map<int, int>) {
    && (forall l :: l in lk ==> LockOk(l, lk[l], q, p'))
    && (forall l, r :: l in lk && r in s.procs && r != q ==> LockOk(l, lk[l], r, s.procs[r]))
  }

  lemma LockFrame(n: int, s: State, q: int, p': Proc, lk: map<int, int>)
    requires Inv(n, s) && q in s.procs && SafeBut(n, q, s.procs[q], p') && lk.Keys == s.lk.Keys
    requires KnownOk(s.procs.Keys, s.cpus.Keys, s.lk.Keys, p')
    requires (forall r :: r in s.procs && r != q ==> TwoOk(q, p', r, s.procs[r])) && LocksOk(s, q, p', lk)
    ensures Inv(n, s.(procs := s.procs[q := p'], lk := lk))
  {
    hide ProcOk; hide PairOk; hide TwoOk; hide LockOk; hide CpuOk; hide KnownOk;
    var s' := s.(procs := s.procs[q := p'], lk := lk);
    assert s'.procs.Keys == s.procs.Keys;
  }

  lemma MarksKept(n: int, s: State, q: int, p': Proc)
    requires Inv(n, s) && q in s.procs && SafeMarks(q, s.procs[q], p')
    ensures forall r :: r in s.procs && r != q ==> TwoOk(q, p', r, s.procs[r])
  {
    hide ProcOk; hide PairOk; hide TwoOk; hide LockOk; hide CpuOk; hide KnownOk;
  }

  /** Lock l changes hands between q and nobody. */
  lemma HandLock(n: int, s: State, q: int, p': Proc, l: int, o: int)
    requires Inv(n, s) && q in s.procs && l in s.lk && ((s.lk[l] == -1 && o == q) || (s.lk[l] == q && o == -1))
    requires LockOk(l, o, q, p') && forall m :: m in s.lk && m != l ==> LockOk(m, s.lk[m], q, p')
    ensures LocksOk(s, q, p', s.lk[l := o])
  {
    hide ProcOk; hide PairOk; hide TwoOk; hide CpuOk; hide KnownOk;
    forall r | r in s.procs && r != q ensures LockOk(l, o, r, s.procs[r]) {
      assert LockOk(l, s.lk[l], r, s.procs[r]);
      assert r >= 0;
    }
  }

  lemma SameLocks(n: int, s: State, q: int, p': Proc)
    requires Inv(n, s) && q in s.procs && forall m :: m in s.lk ==> LockOk(m, s.lk[m], q, p')
    ensures LocksOk(s, q, p', s.lk)
  {
    hide ProcOk; hide PairOk; hide TwoOk; hide LockOk; hide CpuOk; hide KnownOk;
  }

  lemma LockAt(n: int, s: State, l: int, q: int)
    requires Inv(n, s) && l in s.lk && q in s.procs
    ensures LockOk(l, s.lk[l], q, s.procs[q])
  {
  }

  lemma TimerSafe(n: int, q: int, p: Proc)
    requires ProcOk(n, q, p) && Interruptible(p)
    ensures SafeBut(n, q, p, p.(y := YieldA)) && SafeMarks(q, p, p.(y := YieldA))
  {
  }

  lemma TimerInv(n: int, s: State, q: int, s': State)
    requires Inv(n, s) && Timer(s, q, s')
    ensures Inv(n, s')
  {
    hide Inv; hide PairOk; hide TwoOk; hide ProcOk; hide SafeBut; hide SafeMarks; hide LocksOk;
    var p, p' := s.procs[q], s'.procs[q];
    Known(n, s, q);
    TimerSafe(n, q, p);
    MarksKept(n, s, q, p');
    forall l | l in s.lk ensures LockOk(l, s.lk[l], q, p') { LockAt(n, s, l, q); }
    SameLocks(n, s, q, p');
    LockFrame(n, s, q, p', s.lk);
  }

  lemma CallSafe(n: int, q: int, p: Proc, chan: int, l: int)
    requires ProcOk(n, q, p) && Awake(p) && p.pc.Out?
    ensures var p' := p.(pc := SleepA(chan, l), gen := p.gen + 1); SafeBut(n, q, p, p') && SafeMarks(q, p, p')
  {
  }

  lemma CallSleepInv(n: int, s: State, q: int, chan: int, l: int, s': State)
    requires Inv(n, s) && CallSleep(s, q, chan, l, s')
    ensures Inv(n, s')
  {
    hide Inv; hide PairOk; hide TwoOk; hide ProcOk; hide SafeBut; hide SafeMarks; hide LocksOk;
    var p, p' := s.procs[q], s'.procs[q];
    Known(n, s, q);
    CallSafe(n, q, p, chan, l);
    MarksKept(n, s, q, p');
    forall m | m in s.lk ensures LockOk(m, s.lk[m], q, p') { LockAt(n, s, m, q); }
    SameLocks(n, s, q, p');
    LockFrame(n, s, q, p', s.lk);
  }

  lemma ReleaseSafe(n: int, q: int, p: Proc)
    requires ProcOk(n, q, p) && Awake(p) && p.pc.SleepB?
    ensures var p' := p.(pc := SleepC(p.pc.chan, p.pc.lk)); SafeBut(n, q, p, p') && SafeMarks(q, p, p')
  {
  }

  lemma ReleaseInv(n: int, s: State, q: int, s': State)
    requires Inv(n, s) && SleepRelease(s, q, s')
    ensures Inv(n, s')
  {
    hide Inv; hide PairOk; hide TwoOk; hide ProcOk; hide SafeBut; hide SafeMarks; hide LocksOk;
    var p, p' := s.procs[q], s'.procs[q];
    Known(n, s, q);
    ReleaseSafe(n, q, p);
    MarksKept(n, s, q, p');
    forall m | m in s.lk ensures LockOk(m, s.lk[m], q, p) { LockAt(n, s, m, q); }
    Numbered(n, s, q);
    HandLock(n, s, q, p', p.pc.lk, -1);
    LockFrame(n, s, q, p', s.lk[p.pc.lk := -1]);
  }

  lemma Numbered(n: int, s: State, q: int)
    requires Inv(n, s)
    ensures (0 <= q < n ==> q in s.procs) && (q in s.procs ==> q >= 0)
  {
  }

  /** The new marks of a process that takes l are calls in progress. */
  lemma TakeMarks(n: int, s: State, q: int, l: int, r: int)
    requires Inv(n, s) && q in s.procs && (s.procs[q].pc.Out? || s.procs[q].pc.SleepH?) && r in s.procs && r != q
    ensures TwoOk(q, Marked(s, q, l), r, s.procs[r])
  {
    hide ProcOk; hide PairOk; hide LockOk; hide CpuOk; hide KnownOk;
    assert TwoOk(q, s.procs[q], r, s.procs[r]);
  }

  lemma TakeSafe(n: int, q: int, p: Proc, s: State, l: int)
    requires ProcOk(n, q, p) && Acts(p) && (p.pc.Out? || p.pc.SleepH?) && q in s.procs && s.procs[q] == p
    requires forall r :: r in s.procs && Down(s.procs[r].pc) ==> 0 <= r < n
    ensures SafeBut(n, q, p, Marked(s, q, l))
  {
  }

  /** Only processes sleep. */
  lemma DownUser(n: int, s: State, r: int)
    requires Inv(n, s) && r in s.procs && Down(s.procs[r].pc)
    ensures 0 <= r < n
  {
    hide PairOk; hide TwoOk; hide LockOk;
    assert ProcOk(n, r, s.procs[r]);
  }

  lemma TakesInv(n: int, s: State, q: int, l: int, s': State)
    requires Inv(n, s) && Takes(s, q, l, s')
    ensures Inv(n, s')
  {
    hide Inv; hide PairOk; hide TwoOk; hide ProcOk; hide SafeBut; hide LocksOk; hide InSleep;
    var p, p' := s.procs[q], s'.procs[q];
    Known(n, s, q);
    forall r | r in s.procs && Down(s.procs[r].pc) ensures 0 <= r < n { DownUser(n, s, r); }
    TakeSafe(n, q, p, s, l);
    forall r | r in s.procs && r != q ensures TwoOk(q, p', r, s.procs[r]) { TakeMarks(n, s, q, l, r); }
    forall m | m in s.lk ensures LockOk(m, s.lk[m], q, p) { LockAt(n, s, m, q); }
    HandLock(n, s, q, p', l, q);
    LockFrame(n, s, q, p', s.lk[l := q]);
  }

  lemma DropLkInv(n: int, s: State, q: int, l: int, s': State)
    requires Inv(n, s) && DropLk(s, q, l, s')
    ensures Inv(n, s')
  {
    hide Inv; hide PairOk; hide TwoOk; hide ProcOk; hide LocksOk;
    var p := s.procs[q];
    Known(n, s, q);
    assert s.procs[q := p] == s.procs;
    SameSafe(n, q, p);
    MarksKept(n, s, q, p);
    forall m | m in s.lk ensures LockOk(m, s.lk[m], q, p) { LockAt(n, s, m, q); }
    Numbered(n, s, q);
    HandLock(n, s, q, p, l, -1);
    LockFrame(n, s, q, p, s.lk[l := -1]);
  }

  lemma SameSafe(n: int, q: int, p: Proc)
    requires ProcOk(n, q, p)
    ensures SafeBut(n, q, p, p) && SafeMarks(q, p, p)
  {
  }

  // ---------------------------------------------------------------- a record and a CPU

  ghost predicate CpuSafe(n: int, q: int, p: Proc, p': Proc, c: int, x: Cpu, x': Cpu) {
    && ProcOk(n, q, p') && CpuOk(n, x') && PairOk(q, p', c, x')
    && (forall d, y :: d >= 0 && d != c && PairOk(q, p, d, y) ==> PairOk(q, p', d, y))
    && (forall r, y :: r >= 0 && r != q && PairOk(r, y, c, x) ==> PairOk(r, y, c, x'))
    && (forall r, y :: r != q && TwoOk(r, y, q, p) ==> TwoOk(r, y, q, p'))
    && (forall r, y :: r != q && TwoOk(q, p, r, y) ==> TwoOk(q, p', r, y))
    && (forall l, o :: LockOk(l, o, q, p) ==> LockOk(l, o, q, p'))
  }

  lemma CpuFrame(n: int, s: State, q: int, p': Proc, c: int, x': Cpu)
    requires Inv(n, s) && q in s.procs && c in s.cpus && CpuSafe(n, q, s.procs[q], p', c, s.cpus[c], x')
    requires KnownOk(s.procs.Keys, s.cpus.Keys, s.lk.Keys, p')
    ensures Inv(n, s.(procs := s.procs[q := p'], cpus := s.cpus[c := x']))
  {
    hide ProcOk; hide PairOk; hide TwoOk; hide LockOk; hide CpuOk; hide KnownOk;
    var s' := s.(procs := s.procs[q := p'], cpus := s.cpus[c := x']);
    assert s'.procs.Keys == s.procs.Keys && s'.cpus.Keys == s.cpus.Keys;
  }

  lemma KnownPair(n: int, s: State, q: int, c: int)
    requires Inv(n, s) && q in s.procs && c in s.cpus
    ensures PairOk(q, s.procs[q], c, s.cpus[c]) && CpuOk(n, s.cpus[c]) && c >= 0
  {
  }

  lemma OutSafe(n: int, q: int, p: Proc, x: Cpu)
    requires ProcOk(n, q, p) && CpuOk(n, x) && PairOk(q, p, p.on, x) && p.on >= 0
    requires p.y == YieldC || (Awake(p) && p.pc.SleepE?)
    ensures var p1 := p.(on := -1, lock := ByCpu(p.on));
      CpuSafe(n, q, p, if p.y == YieldC then p1.(y := YieldOut) else p1.(pc := SleepOut(p.pc.chan, p.pc.lk)), p.on, x,
              x.(sp := Back(q)))
  {
  }

  lemma SwitchOutInv(n: int, s: State, q: int, s': State)
    requires Inv(n, s) && SwitchOut(s, q, s')
    ensures Inv(n, s')
  {
    hide Inv; hide PairOk; hide TwoOk; hide ProcOk; hide LockOk; hide CpuSafe;
    var p := s.procs[q];
    Known(n, s, q);
    KnownPair(n, s, q, p.on);
    OutSafe(n, q, p, s.cpus[p.on]);
    CpuFrame(n, s, q, s'.procs[q], p.on, s'.cpus[p.on]);
  }

  lemma PickSafe(n: int, q: int, p: Proc, c: int, x: Cpu)
    requires ProcOk(n, q, p) && CpuOk(n, x) && PairOk(q, p, c, x) && x.sp.Look? && p.lock == Free && p.on != HANDLER
    requires c >= 0
    ensures CpuSafe(n, q, p, p.(lock := ByCpu(c)), c, x, x.(sp := Have(q)))
  {
  }

  lemma LookSafe(n: int, q: int, p: Proc, c: int, x: Cpu)
    requires ProcOk(n, q, p) && CpuOk(n, x) && PairOk(q, p, c, x) && x.sp == Have(q) && c >= 0
    ensures if !Allowed(p.affinity, c) || p.state != Runnable
            then CpuSafe(n, q, p, p.(lock := Free), c, x, x.(sp := Look))
            else CpuSafe(n, q, p, p.(state := Running), c, x, x.(sp := Chosen(q)))
  {
  }

  lemma CurSafe(n: int, q: int, p: Proc, c: int, x: Cpu)
    requires ProcOk(n, q, p) && CpuOk(n, x) && PairOk(q, p, c, x) && c >= 0
    ensures x.sp == Chosen(q) ==> CpuSafe(n, q, p, p, c, x, Cpu(q, Given(q)))
    ensures x.sp == Back(q) ==> CpuSafe(n, q, p, p, c, x, Cpu(-1, Cleared(q)))
  {
  }

  lemma InSafe(n: int, q: int, p: Proc, c: int, x: Cpu)
    requires ProcOk(n, q, p) && CpuOk(n, x) && PairOk(q, p, c, x) && x.sp == Given(q) && c >= 0
    requires p.y == YieldOut || p.pc.SleepOut?
    ensures var p1 := p.(on := c, lock := ByProc(q));
      CpuSafe(n, q, p, if p.y == YieldOut then p1.(y := YieldD) else p1.(pc := SleepF(p.pc.chan, p.pc.lk)), c, x,
              x.(sp := On(q)))
  {
  }

  lemma UnpickSafe(n: int, q: int, p: Proc, c: int, x: Cpu)
    requires ProcOk(n, q, p) && CpuOk(n, x) && PairOk(q, p, c, x) && x.sp == Cleared(q) && c >= 0
    ensures CpuSafe(n, q, p, p.(lock := Free), c, x, x.(sp := Look))
  {
  }

  lemma CpuInv(n: int, s: State, c: int, q: int, s': State)
    requires Inv(n, s) && CpuStep(s, c, q, s')
    ensures Inv(n, s')
  {
    hide Inv; hide PairOk; hide TwoOk; hide ProcOk; hide LockOk; hide CpuSafe; hide CpuOk;
    var p, x := s.procs[q], s.cpus[c];
    Known(n, s, q);
    KnownPair(n, s, q, c);
    if Pick(s, c, q, s') { PickSafe(n, q, p, c, x); }
    else if Inspect(s, c, q, s') { LookSafe(n, q, p, c, x); }
    else if SetCur(s, c, q, s') { CurSafe(n, q, p, c, x); assert s.procs[q := p] == s.procs; }
    else if SwitchIn(s, c, q, s') { InSafe(n, q, p, c, x); }
    else { UnpickSafe(n, q, p, c, x); }
    CpuFrame(n, s, q, s'.procs[q], c, s'.cpus[c]);
  }

  // ---------------------------------------------------------------- two records

  /** The waker q and the process i it looks at. */
  ghost predicate BothSafe(n: int, q: int, p: Proc, p': Proc, i: int, t: Proc, t': Proc) {
    && ProcOk(n, q, p') && ProcOk(n, i, t') && TwoOk(q, p', i, t') && TwoOk(i, t', q, p')
    && (forall c, x :: PairOk(q, p, c, x) ==> PairOk(q, p', c, x))
    && (forall c, x :: PairOk(i, t, c, x) ==> PairOk(i, t', c, x))
    && (forall r, y :: r != q && r != i && TwoOk(r, y, q, p) ==> TwoOk(r, y, q, p'))
    && (forall r, y :: r != q && r != i && TwoOk(q, p, r, y) ==> TwoOk(q, p', r, y))
    && (forall r, y :: r != q && r != i && TwoOk(r, y, i, t) ==> TwoOk(r, y, i, t'))
    && (forall r, y :: r != q && r != i && TwoOk(i, t, r, y) ==> TwoOk(i, t', r, y))
    && (forall l, o :: LockOk(l, o, q, p) ==> LockOk(l, o, q, p'))
    && (forall l, o :: LockOk(l, o, i, t) ==> LockOk(l, o, i, t'))
  }

  lemma BothFrame(n: int, s: State, q: int, p': Proc, i: int, t': Proc)
    requires Inv(n, s) && q in s.procs && i in s.procs && i != q && BothSafe(n, q, s.procs[q], p', i, s.procs[i], t')
    requires KnownOk(s.procs.Keys, s.cpus.Keys, s.lk.Keys, p') && KnownOk(s.procs.Keys, s.cpus.Keys, s.lk.Keys, t')
    ensures Inv(n, s.(procs := s.procs[i := t'][q := p']))
  {
    hide ProcOk; hide PairOk; hide TwoOk; hide LockOk; hide CpuOk; hide KnownOk;
    var s' := s.(procs := s.procs[i := t'][q := p']);
    assert s'.procs.Keys == s.procs.Keys;
  }

  lemma KnownTwo(n: int, s: State, q: int, i: int)
    requires Inv(n, s) && q in s.procs && i in s.procs && i != q
    ensures TwoOk(q, s.procs[q], i, s.procs[i]) && TwoOk(i, s.procs[i], q, s.procs[q])
  {
  }

  ghost predicate Both(n: int, q: int, p: Proc, i: int, t: Proc) {
    i != q && ProcOk(n, q, p) && ProcOk(n, i, t) && TwoOk(q, p, i, t) && TwoOk(i, t, q, p) && Acts(p)
  }

  lemma TakeBoth(n: int, q: int, p: Proc, i: int, t: Proc)
    requires Both(n, q, p, i, t) && p.pc.WakeAt? && p.pc.i == i && t.lock == Free && t.on != HANDLER
    ensures BothSafe(n, q, p, p.(pc := WakeHave(p.pc.chan, i)), i, t, t.(lock := ByProc(q)))
  {
  }

  lemma TestBoth(n: int, q: int, p: Proc, i: int, t: Proc)
    requires Both(n, q, p, i, t) && p.pc.WakeHave? && p.pc.i == i
    ensures var chan := p.pc.chan;
      BothSafe(n, q, p, p.(pc := WakeDone(chan, i)), i, t,
               if t.state == Sleeping && t.chan == chan then t.(state := Runnable) else t)
  {
  }

  lemma DropBoth(n: int, q: int, p: Proc, i: int, t: Proc)
    requires Both(n, q, p, i, t) && p.pc.WakeDone? && p.pc.i == i
    ensures BothSafe(n, q, p, p.(pc := WakeAt(p.pc.chan, i + 1)), i, t, t.(lock := Free))
  {
  }

  lemma PassBoth(n: int, q: int, p: Proc, i: int, t: Proc)
    requires Both(n, q, p, i, t) && p.on == HANDLER && p.pc.WakeAt? && p.pc.i == i && Interruptible(t)
    ensures BothSafe(n, q, p, p.(pc := WakeAt(p.pc.chan, i + 1)), i, t, t)
  {
  }

  lemma WakeInv(n: int, s: State, q: int, i: int, s': State)
    requires Inv(n, s)
    requires WakeTake(s, q, i, s') || WakeTest(s, q, i, s') || WakeDrop(s, q, i, s') || PassHost(s, q, i, s')
    ensures Inv(n, s')
  {
    hide Inv; hide PairOk; hide TwoOk; hide ProcOk; hide LockOk; hide BothSafe;
    var p, t := s.procs[q], s.procs[i];
    Known(n, s, q);
    Known(n, s, i);
    KnownTwo(n, s, q, i);
    if WakeTake(s, q, i, s') { TakeBoth(n, q, p, i, t); }
    else if WakeTest(s, q, i, s') { TestBoth(n, q, p, i, t); }
    else if WakeDrop(s, q, i, s') { DropBoth(n, q, p, i, t); }
    else { PassBoth(n, q, p, i, t); assert s.procs[i := t] == s.procs; }
    BothFrame(n, s, q, s'.procs[q], i, s'.procs[i]);
  }

  lemma Retakes(s: State, q: int, s': State)
    requires SleepRetake(s, q, s')
    ensures q in s.procs && s.procs[q].pc.SleepH? && Takes(s, q, s.procs[q].pc.lk, s')
  {
  }

  // ---------------------------------------------------------------- whole runs

  lemma StepInv(n: int, s: State, s': State)
    requires Inv(n, s) && Next(n, s, s')
    ensures Inv(n, s')
  {
    hide Inv; hide OwnStep; hide Timer; hide SleepRelease; hide SleepRetake; hide SwitchOut; hide TakeLk; hide DropLk;
    hide WakeTake; hide WakeTest; hide WakeDrop; hide PassHost; hide CallSleep; hide CpuStep;
    if q :| ProcStep(n, s, q, s') {
      if OwnStep(n, s, q, s') { OwnInv(n, s, q, s'); }
      else if Timer(s, q, s') { TimerInv(n, s, q, s'); }
      else if SleepRelease(s, q, s') { ReleaseInv(n, s, q, s'); }
      else if SleepRetake(s, q, s') { Retakes(s, q, s'); TakesInv(n, s, q, s.procs[q].pc.lk, s'); }
      else { SwitchOutInv(n, s, q, s'); }
    } else if q, x :| ProcWith(s, q, x, s') {
      if TakeLk(s, q, x, s') { TakesInv(n, s, q, x, s'); }
      else if DropLk(s, q, x, s') { DropLkInv(n, s, q, x, s'); }
      else { WakeInv(n, s, q, x, s'); }
    } else if q, chan, l :| CallSleep(s, q, chan, l, s') {
      CallSleepInv(n, s, q, chan, l, s');
    } else {
      var c, q :| CpuStep(s, c, q, s');
      CpuInv(n, s, c, q, s');
    }
  }

  /** At boot every process waits in the run queue, as fork leaves it, and no handler runs. */
  ghost predicate Init(n: int, s: State) {
    && n >= 0 && (forall q :: 0 <= q < n ==> q in s.procs)
    && (forall q :: q in s.procs ==> q >= 0 && if q < n then Forked(s.procs[q]) else Quiet(s.procs[q]))
    && (forall c :: c in s.cpus ==> c >= 0 && s.cpus[c] == Cpu(-1, Look))
    && (forall l :: l in s.lk ==> s.lk[l] == -1)
  }

  lemma InitInv(n: int, s: State)
    requires Init(n, s)
    ensures Inv(n, s)
  {
    hide ProcOk; hide PairOk; hide TwoOk; hide LockOk; hide CpuOk; hide KnownOk;
    forall q | q in s.procs
      ensures ProcOk(n, q, s.procs[q]) && KnownOk(s.procs.Keys, s.cpus.Keys, s.lk.Keys, s.procs[q])
    {
      FirstProc(n, q, s.procs[q], s);
    }
    forall q, c | q in s.procs && c in s.cpus
      ensures PairOk(q, s.procs[q], c, s.cpus[c]) && CpuOk(n, s.cpus[c])
    {
      FirstPair(n, q, s.procs[q], c);
    }
    forall c | c in s.cpus ensures CpuOk(n, s.cpus[c]) { FirstCpu(n); }
    forall r, q | r in s.procs && q in s.procs && r != q
      ensures TwoOk(r, s.procs[r], q, s.procs[q])
    {
      FirstTwo(n, r, s.procs[r], q, s.procs[q]);
    }
    forall l, q | l in s.lk && q in s.procs
      ensures LockOk(l, s.lk[l], q, s.procs[q])
    {
      FirstLock(n, l, q, s.procs[q]);
    }
  }

  /** A process that has been forked and not yet run. */
  predicate Forked(p: Proc) {
    p.state == Runnable && p.lock == Free && p.on == -1 && p.pc == Out && p.y == YieldOut && p.marks == {}
  }

  /** A handler that has not run. */
  predicate Quiet(p: Proc) {
    p.state == Running && p.lock == Free && p.on == HANDLER && p.pc == Out && p.y == NoYield && p.marks == {}
  }

  predicate First(n: int, q: int, p: Proc) { q >= 0 && n >= 0 && if q < n then Forked(p) else Quiet(p) }

  lemma FirstProc(n: int, q: int, p: Proc, s: State)
    requires First(n, q, p)
    ensures ProcOk(n, q, p) && KnownOk(s.procs.Keys, s.cpus.Keys, s.lk.Keys, p)
  {
  }

  lemma FirstPair(n: int, q: int, p: Proc, c: int)
    requires First(n, q, p) && c >= 0
    ensures PairOk(q, p, c, Cpu(-1, Look)) && CpuOk(n, Cpu(-1, Look))
  {
  }

  lemma FirstCpu(n: int)
    ensures CpuOk(n, Cpu(-1, Look))
  {
  }

  lemma FirstTwo(n: int, r: int, x: Proc, q: int, p: Proc)
    requires First(n, r, x) && First(n, q, p)
    ensures TwoOk(r, x, q, p)
  {
  }

  lemma FirstLock(n: int, l: int, q: int, p: Proc)
    requires First(n, q, p)
    ensures LockOk(l, -1, q, p)
  {
  }

  ghost predicate Run(n: int, run: seq<State>) {
    && |run| > 0 && Init(n, run[0])
    && forall i :: 0 <= i < |run| - 1 ==> Next(n, run[i], run[i + 1])
  }

  lemma {:induction false} RunInv(n: int, run: seq<State>, i: nat)
    requires Run(n, run) && i < |run|
    ensures Inv(n, run[i])
  {
    hide Inv; hide Next; hide Init;
    if i == 0 {
      InitInv(n, run[0]);
    } else {
      RunInv(n, run, i - 1);
      StepInv(n, run[i - 1], run[i - 1 + 1]);
    }
  }

  /** Marks are never lost. */
  lemma StepMarks(n: int, s: State, s': State, q: int)
    requires Next(n, s, s') && q in s.procs
    ensures q in s'.procs && s.procs[q].marks <= s'.procs[q].marks
  {
    hide ProcStep; hide ProcWith; hide CallSleep; hide CpuStep;
    if r :| ProcStep(n, s, r, s') { ProcMarks(n, s, r, s', q); }
    else if r, x :| ProcWith(s, r, x, s') { WithMarks(s, r, x, s', q); }
    else if r, chan, l :| CallSleep(s, r, chan, l, s') { CallMarks(s, r, chan, l, s', q); }
    else {
      var c, r :| CpuStep(s, c, r, s');
      CpuMarks(s, c, r, s', q);
    }
  }

  lemma ProcMarks(n: int, s: State, r: int, s': State, q: int)
    requires ProcStep(n, s, r, s') && q in s.procs
    ensures q in s'.procs && s.procs[q].marks <= s'.procs[q].marks
  {
  }

  lemma WithMarks(s: State, r: int, x: int, s': State, q: int)
    requires ProcWith(s, r, x, s') && q in s.procs
    ensures q in s'.procs && s.procs[q].marks <= s'.procs[q].marks
  {
  }

  lemma CallMarks(s: State, r: int, chan: int, l: int, s': State, q: int)
    requires CallSleep(s, r, chan, l, s') && q in s.procs
    ensures q in s'.procs && s.procs[q].marks <= s'.procs[q].marks
  {
  }

  lemma CpuMarks(s: State, c: int, r: int, s': State, q: int)
    requires CpuStep(s, c, r, s') && q in s.procs
    ensures q in s'.procs && s.procs[q].marks <= s'.procs[q].marks
  {
  }

  lemma {:induction false} RunMarks(n: int, run: seq<State>, a: nat, b: nat, q: int)
    requires Run(n, run) && a <= b < |run| && q in run[a].procs
    ensures q in run[b].procs && run[a].procs[q].marks <= run[b].procs[q].marks
    decreases b - a
  {
    hide Next; hide Init;
    if a < b {
      StepMarks(n, run[a], run[a + 1], q);
      RunMarks(n, run, a + 1, b, q);
    }
  }

  /** When a process takes l, every call of sleep(chan, l) that has not been woken is past its
      release of l, and goes into the marks. */
  lemma TakenMarks(n: int, s: State, q: int, l: int, s': State, p: int)
    requires Inv(n, s) && Takes(s, q, l, s') && p in s.procs
    requires var pc := s.procs[p].pc; (pc.SleepA? || pc.SleepB? || Down(pc)) && pc.lk == l
    ensures p != q && Down(s.procs[p].pc) && Call(p, s.procs[p].gen, s.procs[p].pc.chan) in s'.procs[q].marks
  {
    hide Inv;
    LockAt(n, s, l, p);
    Known(n, s, p);
  }

  /** No lost wakeup: a process that has called sleep(chan, l) before a waker takes l, be the waker
      a process or an interrupt handler and l taken by acquire or at the end of a sleep, is no
      longer in that call and asleep when the waker's wakeup(chan), however much later, is
      through. */
  lemma NoLostWakeup(n: int, run: seq<State>, a: nat, b: nat, q: int, l: int, p: int)
    requires Run(n, run) && a + 1 <= b < |run| && Takes(run[a], q, l, run[a + 1]) && p in run[a].procs
    requires var pc := run[a].procs[p].pc; (pc.SleepA? || pc.SleepB? || Down(pc)) && pc.lk == l
    requires q in run[b].procs && run[b].procs[q].pc == WakeAt(run[a].procs[p].pc.chan, n)
    ensures p in run[b].procs && !Dozing(run[b].procs[p], Call(p, run[a].procs[p].gen, run[a].procs[p].pc.chan))
  {
    hide Inv; hide Next; hide Init; hide Takes; hide Dozing;
    RunInv(n, run, a);
    RunInv(n, run, b);
    TakenMarks(n, run[a], q, l, run[a + 1], p);
    DownUser(n, run[a], p);
    Numbered(n, run[b], p);
    TakesStay(run[a], q, l, run[a + 1]);
    RunMarks(n, run, a + 1, b, q);
    Through(n, run[b], q, p, Call(p, run[a].procs[p].gen, run[a].procs[p].pc.chan));
  }

  lemma TakesStay(s: State, q: int, l: int, s': State)
    requires Takes(s, q, l, s')
    ensures q in s'.procs
  {
  }

  lemma Through(n: int, s: State, q: int, p: int, k: Call)
    requires Inv(n, s) && q in s.procs && p in s.procs && p != q && p < n && k in s.procs[q].marks && k.p == p
    requires s.procs[q].pc == WakeAt(k.chan, n)
    ensures !Dozing(s.procs[p], k)
  {
    hide Inv; hide Dozing;
    KnownTwo(n, s, q, p);
  }

  /** No process is current on two CPUs. */
  lemma OneCpu(n: int, run: seq<State>, i: nat, c: int, d: int)
    requires Run(n, run) && i < |run| && c in run[i].cpus && d in run[i].cpus && c != d
    requires run[i].cpus[c].cur == run[i].cpus[d].cur
    ensures run[i].cpus[c].cur == -1
  {
    hide Inv; hide Next; hide Init;
    RunInv(n, run, i);
    var s := run[i];
    var q := s.cpus[c].cur;
    KnownCpu(n, s, c);
    if q != -1 {
      Numbered(n, s, q);
      KnownPair(n, s, q, c);
      KnownPair(n, s, q, d);
    }
  }

  lemma KnownCpu(n: int, s: State, c: int)
    requires Inv(n, s) && c in s.cpus
    ensures CpuOk(n, s.cpus[c]) && c >= 0
  {
  }

  /** A process that starts to run on a CPU is allowed to, was Runnable when chosen and runs
      nowhere else; the scheduler holds its lock. */
  lemma DispatchAllowed(n: int, run: seq<State>, i: nat, c: int, q: int)
    requires Run(n, run) && i + 1 < |run| && SwitchIn(run[i], c, q, run[i + 1])
    ensures Allowed(run[i].procs[q].affinity, c) && run[i].procs[q].on == -1 && run[i].procs[q].lock == ByCpu(c)
    ensures run[i].cpus[c].cur == q
  {
    hide Inv; hide Next; hide Init;
    RunInv(n, run, i);
    KnownPair(n, run[i], q, c);
  }

  /** The tests at the head of sched never panic. */
  lemma SchedPasses(n: int, run: seq<State>, i: nat, q: int)
    requires Run(n, run) && i < |run| && q in run[i].procs
    requires run[i].procs[q].y == YieldC || (Awake(run[i].procs[q]) && run[i].procs[q].pc.SleepE?)
    ensures run[i].procs[q].lock == ByProc(q) && run[i].procs[q].state != Running && HoldsNone(run[i], q)
    ensures forall r :: r in run[i].procs && r != q ==> run[i].procs[r].lock != ByProc(q)
  {
    hide Inv; hide Next; hide Init;
    RunInv(n, run, i);
    Known(n, run[i], q);
    forall l | l in run[i].lk ensures run[i].lk[l] != q { LockAt(n, run[i], l, q); }
    forall r | r in run[i].procs && r != q ensures run[i].procs[r].lock != ByProc(q) { KnownTwo(n, run[i], q, r); }
  }
}
