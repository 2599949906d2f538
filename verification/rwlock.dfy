/** The reader-writer lock (kernel/rwlock.c): any number of threads, each atomic operation, load
    and store of the lock one step, in any order. */
module RwLock {
  import opened Sets

  const WORD: int := 0x1_0000_0000_0000_0000

  /** Where a thread is.  Readers: before the increment, before the test of writer, before the
      decrement that cancels, spinning, inside.  Writers: before the test-and-set, spinning on
      writer, spinning on readers, inside. */
  datatype Pc = Idle | Announce | Check | Cancel | Wait | Reading | Swap | Spin | Drain | Writing

  /** readers is a 64-bit unsigned field. */
  datatype State = State(readers: int, writer: int, pc: map<int, Pc>)

  function Add(readers: int, d: int): (r: int) { (readers + d) % WORD }

  /** One atomic step of thread t. */
  predicate Step(s: State, t: int, s': State) {
    && t in s.pc
    && match s.pc[t]
       case Idle => (s' == s.(pc := s.pc[t := Announce])) || (s' == s.(pc := s.pc[t := Swap]))
       case Announce => s' == s.(readers := Add(s.readers, 1), pc := s.pc[t := Check])
       case Check => s' == s.(pc := s.pc[t := if s.writer != 0 then Cancel else Reading])
       case Cancel => s' == s.(readers := Add(s.readers, -1), pc := s.pc[t := Wait])
       case Wait => s' == s.(pc := s.pc[t := if s.writer != 0 then Wait else Announce])
       case Reading => s' == s.(readers := Add(s.readers, -1), pc := s.pc[t := Idle])
       case Swap => s' == s.(writer := 1, pc := s.pc[t := if s.writer != 0 then Spin else Drain])
       case Spin => s' == s.(pc := s.pc[t := if s.writer != 0 then Spin else Swap])
       case Drain => s' == s.(pc := s.pc[t := if s.readers > 0 then Drain else Writing])
       case Writing => s' == s.(writer := 0, pc := s.pc[t := Idle])
  }

  /** Past the increment and not yet past the decrement. */
  predicate Counted(pc: Pc) { pc == Check || pc == Cancel || pc == Reading }

  predicate Holding(pc: Pc) { pc == Drain || pc == Writing }

  function Readers(pc: map<int, Pc>): (r: set<int>) { set t | t in pc && Counted(pc[t]) }

  ghost predicate CountOk(s: State) { |s.pc| < WORD && s.readers == |Readers(s.pc)| }

  ghost predicate FlagOk(s: State) {
    && (s.writer == 0 || s.writer == 1)
    && (s.writer == 0 ==> forall t :: t in s.pc ==> !Holding(s.pc[t]))
    && (forall t, u :: t in s.pc && u in s.pc && t != u && Holding(s.pc[t]) ==> !Holding(s.pc[u]))
    && (forall t, u :: t in s.pc && u in s.pc && s.pc[t] == Writing ==> s.pc[u] != Reading)
  }

  ghost predicate Inv(s: State) { CountOk(s) && FlagOk(s) }

  /** The counted threads after one of them has moved. */
  lemma Recount(pc: map<int, Pc>, t: int, x: Pc)
    requires t in pc && |pc| < WORD
    ensures |Readers(pc[t := x])| == |Readers(pc)| + (if Counted(x) then 1 else 0) - (if Counted(pc[t]) then 1 else 0)
    ensures |Readers(pc)| < WORD && |Readers(pc[t := x])| < WORD && |pc[t := x]| == |pc|
  {
    var a, pc' := Readers(pc), pc[t := x];
    assert pc'.Keys == pc.Keys;
    SubsetSize(a, pc.Keys);
    SubsetSize(Readers(pc'), pc.Keys);
    if Counted(x) {
      assert Readers(pc') == a + {t};
      if Counted(pc[t]) { assert a + {t} == a; }
    } else {
      assert Readers(pc') == a - {t};
      if !Counted(pc[t]) { assert a - {t} == a; }
    }
  }

  lemma SomeReader(pc: map<int, Pc>, t: int)
    requires t in pc && Counted(pc[t])
    ensures |Readers(pc)| > 0
  {
    assert t in Readers(pc);
  }

  lemma CountInv(s: State, t: int, s': State)
    requires CountOk(s) && Step(s, t, s')
    ensures CountOk(s')
  {
    hide Readers;
    Recount(s.pc, t, s'.pc[t]);
    if Counted(s.pc[t]) { SomeReader(s.pc, t); }
  }

  lemma FlagInv(s: State, t: int, s': State)
    requires FlagOk(s) && Step(s, t, s')
    requires s.pc[t] == Drain && s.readers <= 0 ==> forall u :: u in s.pc ==> s.pc[u] != Reading
    ensures FlagOk(s')
  {
  }

  lemma StepInv(s: State, t: int, s': State)
    requires Inv(s) && Step(s, t, s')
    ensures Inv(s')
  {
    hide Readers; hide FlagOk;
    CountInv(s, t, s');
    forall u | u in s.pc && s.readers <= 0 ensures s.pc[u] != Reading {
      if s.pc[u] == Reading { SomeReader(s.pc, u); }
    }
    FlagInv(s, t, s');
  }

  ghost predicate Next(s: State, s': State) { exists t :: Step(s, t, s') }

  ghost predicate Run(run: seq<State>) {
    && |run| > 0 && run[0].readers == 0 && run[0].writer == 0 && |run[0].pc| < WORD
    && (forall t :: t in run[0].pc ==> run[0].pc[t] == Idle)
    && forall i :: 0 <= i < |run| - 1 ==> Next(run[i], run[i + 1])
  }

  lemma {:induction false} RunInv(run: seq<State>, i: nat)
    requires Run(run) && i < |run|
    ensures Inv(run[i])
  {
    if i == 0 {
      forall t ensures t !in Readers(run[0].pc) {}
      assert Readers(run[0].pc) == {};
    } else {
      RunInv(run, i - 1);
      assert Next(run[i - 1], run[i - 1 + 1]);
      var t :| Step(run[i - 1], t, run[i]);
      StepInv(run[i - 1], t, run[i]);
    }
  }

  /** At any point of any run: the count is exact, one writer at most is inside, and never with
      a reader. */
  lemma Exclusion(run: seq<State>, i: nat, t: int, u: int)
    requires Run(run) && i < |run| && t in run[i].pc && u in run[i].pc && t != u
    ensures run[i].readers == |Readers(run[i].pc)|
    ensures run[i].pc[t] == Writing ==> run[i].pc[u] != Writing && run[i].pc[u] != Reading
    ensures run[i].pc[t] == Writing ==> run[i].writer == 1
  {
    RunInv(run, i);
  }
}
