/** The virtio disk driver (kernel/virtio_disk.c) with its device: descriptor chains in a table
    of NUM, an available and a used ring with 16-bit indices (sections 2.6 and 5.2 of the Virtio
    1.1 specification).

    The driver's methods are its critical sections under vdisk_lock; the device's are its own
    atomic steps.  They may be called in any order their preconditions allow. */
module VirtioDisk {
  import opened Sets

  const NUM: int := 8
  const IDX: int := 0x1_0000

  /** What a descriptor points at: a request header, a buffer's data, a status byte. */
  datatype Target = Null | Ops(i: int) | Data(b: int) | Status(i: int)

  datatype Desc = Desc(addr: Target, len: int, next: int, hasNext: bool, devWrites: bool)
  datatype Op = Op(write: bool, sector: int)
  datatype Info = Info(b: int, status: int)

  const FREED: Desc := Desc(Null, 0, 0, false, false)

  /** A request: in the available ring, with the device, its status written, in the used ring,
      reported to its submitter. */
  datatype Phase = Posted | Taken | Served | Used | Done

  datatype Req = Req(serial: int, b: int, write: bool, block: int, d1: int, d2: int, phase: Phase)

  type Reqs = map<int, Req>

  // ---------------------------------------------------------------- descriptors

  ghost predicate FreeOk(free: seq<bool>, own: map<int, int>) {
    && |free| == NUM && (forall i :: i in own ==> 0 <= i < NUM)
    && (forall i :: 0 <= i < NUM ==> (free[i] <==> i !in own))
  }

  /** The allocated descriptors are the disjoint chains of three of the requests in flight. */
  ghost predicate OwnOk(own: map<int, int>, reqs: Reqs) {
    (forall h :: h in reqs ==> Owns(own, h, reqs[h])) && (forall i :: i in own ==> PartOf(own, reqs, i))
  }

  predicate Owns(own: map<int, int>, h: int, r: Req) {
    && h != r.d1 && h != r.d2 && r.d1 != r.d2
    && h in own && own[h] == h && r.d1 in own && own[r.d1] == h && r.d2 in own && own[r.d2] == h
  }

  predicate PartOf(own: map<int, int>, reqs: Reqs, i: int) {
    i in own && own[i] in reqs && (i == own[i] || i == reqs[own[i]].d1 || i == reqs[own[i]].d2)
  }

  /** A chain as section 5.2 wants it: header, data, status. */
  ghost predicate Chain(desc: seq<Desc>, ops: seq<Op>, info: seq<Info>, h: int, r: Req)
    requires |desc| == |ops| == |info| == NUM
  {
    && 0 <= h < NUM && 0 <= r.d1 < NUM && 0 <= r.d2 < NUM
    && desc[h] == Desc(Ops(h), 16, r.d1, true, false)
    && desc[r.d1] == Desc(Data(r.b), 1024, r.d2, true, !r.write)
    && desc[r.d2] == Desc(Status(h), 1, 0, false, true)
    && ops[h] == Op(r.write, r.block * 2) && info[h].b == r.b
    && (r.phase == Served || r.phase == Used ==> info[h].status == 0)
  }

  ghost predicate ChainsOk(desc: seq<Desc>, ops: seq<Op>, info: seq<Info>, reqs: Reqs) {
    |desc| == |ops| == |info| == NUM && forall h :: h in reqs ==> Chain(desc, ops, info, h, reqs[h])
  }

  // ---------------------------------------------------------------- rings

  /** Where entry k from index `head` on lies in a ring. */
  function Slot(head: int, k: int): (i: int)
    ensures 0 <= i < NUM
  {
    (head + k) % 8
  }

  /** The entries from index `head` up to index `tail` of a ring, both 16 bits wide. */
  ghost predicate Queue(q: seq<int>, ring: seq<int>, head: int, tail: int) {
    && |ring| == NUM && 0 <= head < IDX && |q| <= NUM && tail == (head + |q|) % 0x1_0000
    && forall k :: 0 <= k < |q| ==> q[k] == ring[Slot(head, k)]
  }

  /** 2^16 is a multiple of NUM, so slots go on across the wrap. */
  lemma SlotAt(head: int, k: int)
    ensures (head + k) % 0x1_0000 % 8 == Slot(head, k)
  {
  }

  lemma SlotNext(head: int, k: int)
    ensures Slot((head + 1) % 0x1_0000, k) == Slot(head, k + 1)
  {
  }

  lemma SlotsDiffer(head: int, k: int, m: int)
    requires 0 <= k < m < NUM
    ensures Slot(head, k) != Slot(head, m)
  {
  }

  /** A new entry at the tail overwrites none of the waiting ones. */
  lemma QueuePush(q: seq<int>, ring: seq<int>, head: int, tail: int, h: int)
    requires Queue(q, ring, head, tail) && |q| < NUM
    ensures Queue(q + [h], ring[tail % 8 := h], head, (tail + 1) % 0x1_0000)
  {
    hide Slot;
    var r := ring[tail % 8 := h];
    SlotAt(head, |q|);
    Advance(head, |q|);
    forall k | 0 <= k < |q| + 1 ensures (q + [h])[k] == r[Slot(head, k)] {
      if k < |q| { SlotsDiffer(head, k, |q|); }
    }
  }

  lemma Advance(head: int, k: int)
    ensures ((head + k) % 0x1_0000 + 1) % 0x1_0000 == (head + (k + 1)) % 0x1_0000
    ensures ((head + 1) % 0x1_0000 + k) % 0x1_0000 == (head + (k + 1)) % 0x1_0000
  {
  }

  lemma QueuePop(q: seq<int>, ring: seq<int>, head: int, tail: int)
    requires Queue(q, ring, head, tail) && head != tail
    ensures q != [] && q[0] == ring[head % 8] && Queue(q[1..], ring, (head + 1) % 0x1_0000, tail)
  {
    hide Slot;
    QueueEmpty(q, ring, head, tail);
    SlotAt(head, 0);
    assert q[0] == ring[Slot(head, 0)];
    Advance(head, |q| - 1);
    forall k | 0 <= k < |q| - 1 ensures q[1..][k] == ring[Slot((head + 1) % 0x1_0000, k)] {
      assert q[k + 1] == ring[Slot(head, k + 1)];
      SlotNext(head, k);
    }
  }

  lemma QueueEmpty(q: seq<int>, ring: seq<int>, head: int, tail: int)
    requires Queue(q, ring, head, tail)
    ensures head == tail <==> q == []
  {
  }

  /** The ring holds exactly the heads of the requests in a phase, each once. */
  ghost predicate Holds(q: seq<int>, reqs: Reqs, phase: Phase) {
    && Distinct(q) && (forall k :: 0 <= k < |q| ==> 0 <= q[k] < NUM && q[k] in reqs && reqs[q[k]].phase == phase)
    && (forall h :: h in reqs && reqs[h].phase == phase ==> h in q)
  }

  lemma HoldsPush(q: seq<int>, reqs: Reqs, phase: Phase, h: int, r: Req)
    requires Holds(q, reqs, phase) && 0 <= h < NUM && (h in reqs ==> reqs[h].phase != phase) && r.phase == phase
    ensures Holds(q + [h], reqs[h := r], phase) && |q| < NUM
  {
    assert h !in q;
    MissingOne(q, NUM, h);
    assert (q + [h])[|q|] == h;
    forall x | x in reqs[h := r] && reqs[h := r][x].phase == phase ensures x in q + [h] {}
  }

  lemma HoldsPop(q: seq<int>, reqs: Reqs, phase: Phase, r: Req)
    requires Holds(q, reqs, phase) && q != [] && r.phase != phase
    ensures q[0] in reqs && reqs[q[0]].phase == phase && 0 <= q[0] < NUM && Holds(q[1..], reqs[q[0] := r], phase)
  {
    var h := q[0];
    assert forall k :: 0 <= k < |q| - 1 ==> q[1..][k] == q[k + 1];
    forall x | x in reqs[h := r] && reqs[h := r][x].phase == phase ensures x in q[1..] {
      var k :| 0 <= k < |q| && q[k] == x;
      assert q[1..][k - 1] == x;
    }
  }

  lemma HoldsOther(q: seq<int>, reqs: Reqs, phase: Phase, h: int, r: Req)
    requires Holds(q, reqs, phase) && (h in reqs ==> reqs[h].phase != phase) && r.phase != phase
    ensures Holds(q, reqs[h := r], phase)
  {
    assert forall k :: 0 <= k < |q| ==> q[k] != h;
  }

  lemma HoldsGone(q: seq<int>, reqs: Reqs, phase: Phase, h: int)
    requires Holds(q, reqs, phase) && h in reqs && reqs[h].phase != phase
    ensures Holds(q, reqs - {h}, phase)
  {
  }

  // ---------------------------------------------------------------- requests

  /** b->disk says whether the request of b is still to be reported; no buffer has two. */
  ghost predicate BuffersOk(busy: map<int, bool>, data: map<int, seq<int>>, media: map<int, seq<int>>, reqs: Reqs) {
    && (forall h :: h in reqs ==>
          && reqs[h].b in busy && (busy[reqs[h].b] <==> reqs[h].phase != Done) && reqs[h].b in data
          && reqs[h].block * 2 in media)
    && (forall h, g :: h in reqs && g in reqs && h != g ==> reqs[h].b != reqs[g].b)
  }

  /** Each request has been reported at most once, and just when it says so. */
  ghost predicate ServedOk(served: seq<int>, serial: int, reqs: Reqs) {
    && serial >= 0 && Distinct(served) && (forall k :: 0 <= k < |served| ==> 0 <= served[k] < serial)
    && (forall h :: h in reqs ==> 0 <= reqs[h].serial < serial && (reqs[h].serial in served <==> reqs[h].phase == Done))
    && (forall h, g :: h in reqs && g in reqs && h != g ==> reqs[h].serial != reqs[g].serial)
  }

  lemma PhaseBuffers(busy: map<int, bool>, data: map<int, seq<int>>, media: map<int, seq<int>>, reqs: Reqs, h: int,
                     phase: Phase)
    requires BuffersOk(busy, data, media, reqs) && h in reqs && reqs[h].phase != Done
    ensures BuffersOk(if phase == Done then busy[reqs[h].b := false] else busy, data, media,
                      reqs[h := reqs[h].(phase := phase)])
  {
  }

  lemma PhaseServed(served: seq<int>, serial: int, reqs: Reqs, h: int, phase: Phase)
    requires ServedOk(served, serial, reqs) && h in reqs && reqs[h].phase != Done
    ensures ServedOk(if phase == Done then served + [reqs[h].serial] else served, serial,
                     reqs[h := reqs[h].(phase := phase)])
    ensures reqs[h].serial !in served
  {
    var r, sv := reqs[h := reqs[h].(phase := phase)], if phase == Done then served + [reqs[h].serial] else served;
    assert phase == Done ==> sv[|served|] == reqs[h].serial;
    forall g | g in r ensures r[g].serial in sv <==> r[g].phase == Done {
      if g != h { assert reqs[g].serial != reqs[h].serial; }
    }
  }

  lemma PhaseOwn(own: map<int, int>, reqs: Reqs, h: int, phase: Phase)
    requires OwnOk(own, reqs) && h in reqs
    ensures OwnOk(own, reqs[h := reqs[h].(phase := phase)])
  {
  }

  lemma PhaseChains(desc: seq<Desc>, ops: seq<Op>, info: seq<Info>, reqs: Reqs, h: int, phase: Phase, info': seq<Info>)
    requires ChainsOk(desc, ops, info, reqs) && h in reqs && 0 <= h < NUM
    requires info' == info || info' == info[h := info[h].(status := 0)]
    requires phase == Served || phase == Used ==> info'[h].status == 0
    ensures ChainsOk(desc, ops, info', reqs[h := reqs[h].(phase := phase)])
  {
    var r := reqs[h := reqs[h].(phase := phase)];
    forall g | g in r ensures Chain(desc, ops, info', g, r[g]) { assert Chain(desc, ops, info, g, reqs[g]); }
  }

  /** The descriptors of a new request. */
  function Link(desc: seq<Desc>, h: int, d1: int, d2: int, b: int, write: bool): (r: seq<Desc>)
    requires |desc| == NUM && 0 <= h < NUM && 0 <= d1 < NUM && 0 <= d2 < NUM
  {
    desc[h := Desc(Ops(h), 16, d1, true, false)]
        [d1 := Desc(Data(b), 1024, d2, true, !write)]
        [d2 := Desc(Status(h), 1, 0, false, true)]
  }

  /** The three descriptors of a chain marked, emptied, given an owner, taken from it. */
  function Mark(free: seq<bool>, h: int, d1: int, d2: int, v: bool): (r: seq<bool>)
    requires 0 <= h < |free| && 0 <= d1 < |free| && 0 <= d2 < |free|
  {
    free[h := v][d1 := v][d2 := v]
  }

  function Blank(desc: seq<Desc>, h: int, d1: int, d2: int): (r: seq<Desc>)
    requires 0 <= h < |desc| && 0 <= d1 < |desc| && 0 <= d2 < |desc|
  {
    desc[h := FREED][d1 := FREED][d2 := FREED]
  }

  function Give(own: map<int, int>, h: int, d1: int, d2: int): (r: map<int, int>) { own[h := h][d1 := h][d2 := h] }

  function Take(own: map<int, int>, h: int, d1: int, d2: int): (r: map<int, int>) { own - {h, d1, d2} }

  ghost predicate Fresh(own: map<int, int>, h: int, d1: int, d2: int) {
    && 0 <= h < NUM && 0 <= d1 < NUM && 0 <= d2 < NUM && h != d1 && h != d2 && d1 != d2
    && h !in own && d1 !in own && d2 !in own
  }

  lemma NewOwn(free: seq<bool>, own: map<int, int>, reqs: Reqs, h: int, r: Req)
    requires FreeOk(free, own) && OwnOk(own, reqs) && Fresh(own, h, r.d1, r.d2)
    ensures h !in reqs && OwnOk(Give(own, h, r.d1, r.d2), reqs[h := r])
    ensures FreeOk(Mark(free, h, r.d1, r.d2, false), Give(own, h, r.d1, r.d2))
  {
    NewFree(free, own, h, r.d1, r.d2);
    hide FreeOk; hide Mark; hide Give; hide Fresh; hide PartOf;
    var own', reqs' := Give(own, h, r.d1, r.d2), reqs[h := r];
    NotYet(own, reqs, h, r);
    hide Owns;
    forall i | i in own' ensures PartOf(own', reqs', i) { GivenTo(own, reqs, h, r, i); }
    forall g | g in reqs' ensures Owns(own', g, reqs'[g]) {
      if g != h { OwnsStill(own, h, r, g, reqs[g]); }
    }
  }

  lemma NotYet(own: map<int, int>, reqs: Reqs, h: int, r: Req)
    requires OwnOk(own, reqs) && Fresh(own, h, r.d1, r.d2)
    ensures h !in reqs && Owns(Give(own, h, r.d1, r.d2), h, r)
  {
  }

  lemma GivenTo(own: map<int, int>, reqs: Reqs, h: int, r: Req, i: int)
    requires Fresh(own, h, r.d1, r.d2) && h !in reqs && i in Give(own, h, r.d1, r.d2)
    requires i in own ==> PartOf(own, reqs, i)
    ensures PartOf(Give(own, h, r.d1, r.d2), reqs[h := r], i)
  {
  }

  lemma OwnsStill(own: map<int, int>, h: int, r: Req, g: int, q: Req)
    requires Fresh(own, h, r.d1, r.d2) && Owns(own, g, q)
    ensures Owns(Give(own, h, r.d1, r.d2), g, q)
  {
  }

  lemma NewFree(free: seq<bool>, own: map<int, int>, h: int, d1: int, d2: int)
    requires FreeOk(free, own) && Fresh(own, h, d1, d2)
    ensures FreeOk(Mark(free, h, d1, d2, false), Give(own, h, d1, d2))
  {
  }

  lemma NewChains(desc: seq<Desc>, ops: seq<Op>, info: seq<Info>, own: map<int, int>, reqs: Reqs, h: int, r: Req)
    requires ChainsOk(desc, ops, info, reqs) && OwnOk(own, reqs) && Fresh(own, h, r.d1, r.d2) && r.phase == Posted
    ensures ChainsOk(Link(desc, h, r.d1, r.d2, r.b, r.write), ops[h := Op(r.write, r.block * 2)],
                     info[h := Info(r.b, 0xff)], reqs[h := r])
  {
    var desc', ops', info', reqs' := Link(desc, h, r.d1, r.d2, r.b, r.write), ops[h := Op(r.write, r.block * 2)],
                                     info[h := Info(r.b, 0xff)], reqs[h := r];
    forall g | g in reqs' ensures Chain(desc', ops', info', g, reqs'[g]) {
      if g != h { assert Chain(desc, ops, info, g, reqs[g]); }
    }
  }

  lemma NewTables(free: seq<bool>, own: map<int, int>, desc: seq<Desc>, ops: seq<Op>, info: seq<Info>, reqs: Reqs,
                  h: int, r: Req)
    requires FreeOk(free, own) && OwnOk(own, reqs) && ChainsOk(desc, ops, info, reqs) && Fresh(own, h, r.d1, r.d2)
    requires r.phase == Posted
    ensures h !in reqs && 0 <= h < NUM && 0 <= r.d1 < NUM && 0 <= r.d2 < NUM
    ensures |free| == |desc| == |ops| == |info| == NUM
    ensures OwnOk(Give(own, h, r.d1, r.d2), reqs[h := r])
    ensures FreeOk(Mark(free, h, r.d1, r.d2, false), Give(own, h, r.d1, r.d2))
    ensures ChainsOk(Link(desc, h, r.d1, r.d2, r.b, r.write), ops[h := Op(r.write, r.block * 2)],
                     info[h := Info(r.b, 0xff)], reqs[h := r])
  {
    hide FreeOk; hide OwnOk; hide ChainsOk; hide Link;
    Sizes(free, own, desc, ops, info, reqs);
    NewOwn(free, own, reqs, h, r);
    NewChains(desc, ops, info, own, reqs, h, r);
  }

  lemma NewSound(free: seq<bool>, desc: seq<Desc>, ops: seq<Op>, info: seq<Info>, own: map<int, int>, reqs: Reqs,
                 posted: seq<int>, availRing: seq<int>, availSeen: int, avail: int,
                 completed: seq<int>, usedRing: seq<int>, usedSeen: int, used: int,
                 busy: map<int, bool>, data: map<int, seq<int>>, media: map<int, seq<int>>,
                 served: seq<int>, serial: int, h: int, r: Req)
    requires Sound(free, desc, ops, info, own, reqs, posted, availRing, availSeen, avail, completed, usedRing, usedSeen,
                   used, busy, data, media, served, serial)
    requires Fresh(own, h, r.d1, r.d2) && r.phase == Posted && r.serial == serial && r.b in data && r.block * 2 in media
    requires forall g :: g in reqs ==> reqs[g].b != r.b
    ensures h !in reqs && 0 <= h < NUM && 0 <= r.d1 < NUM && 0 <= r.d2 < NUM
    ensures |free| == |desc| == |ops| == |info| == |availRing| == NUM
    ensures Sound(Mark(free, h, r.d1, r.d2, false), Link(desc, h, r.d1, r.d2, r.b, r.write),
                  ops[h := Op(r.write, r.block * 2)], info[h := Info(r.b, 0xff)],
                  Give(own, h, r.d1, r.d2), reqs[h := r],
                  posted + [h], availRing[avail % 8 := h], availSeen, (avail + 1) % 0x1_0000,
                  completed, usedRing, usedSeen, used,
                  busy[r.b := true], data, media, served, serial + 1)
  {
    hide FreeOk; hide OwnOk; hide ChainsOk; hide Holds; hide Queue; hide BuffersOk; hide ServedOk; hide Link;
    NewTables(free, own, desc, ops, info, reqs, h, r);
    NewBuffers(busy, data, media, reqs, h, r);
    NewServed(served, serial, reqs, h, r);
    HoldsPush(posted, reqs, Posted, h, r);
    HoldsOther(completed, reqs, Used, h, r);
    QueuePush(posted, availRing, availSeen, avail, h);
    QueueSize(posted, availRing, availSeen, avail);
  }

  lemma GoneOwn(free: seq<bool>, own: map<int, int>, reqs: Reqs, h: int)
    requires FreeOk(free, own) && OwnOk(own, reqs) && h in reqs
    ensures var r := reqs[h];
      && 0 <= h < NUM && 0 <= r.d1 < NUM && 0 <= r.d2 < NUM
      && OwnOk(Take(own, h, r.d1, r.d2), reqs - {h})
      && FreeOk(Mark(free, h, r.d1, r.d2, true), Take(own, h, r.d1, r.d2))
  {
    var r := reqs[h];
    assert h in own && r.d1 in own && r.d2 in own;
  }

  lemma GoneChains(desc: seq<Desc>, ops: seq<Op>, info: seq<Info>, own: map<int, int>, reqs: Reqs, h: int)
    requires ChainsOk(desc, ops, info, reqs) && OwnOk(own, reqs) && h in reqs && 0 <= h < NUM && 0 <= reqs[h].d1 < NUM
    requires 0 <= reqs[h].d2 < NUM
    ensures ChainsOk(Blank(desc, h, reqs[h].d1, reqs[h].d2), ops, info[h := info[h].(b := 0)], reqs - {h})
  {
    var r := reqs[h];
    var desc', info' := Blank(desc, h, r.d1, r.d2), info[h := info[h].(b := 0)];
    forall g | g in reqs - {h} ensures Chain(desc', ops, info', g, reqs[g]) {
      assert Chain(desc, ops, info, g, reqs[g]);
      assert own[g] == g && own[reqs[g].d1] == g && own[reqs[g].d2] == g;
    }
  }

  lemma NewBuffers(busy: map<int, bool>, data: map<int, seq<int>>, media: map<int, seq<int>>, reqs: Reqs, h: int,
                   r: Req)
    requires BuffersOk(busy, data, media, reqs) && (forall g :: g in reqs ==> reqs[g].b != r.b) && r.phase == Posted
    requires r.b in data && r.block * 2 in media
    ensures BuffersOk(busy[r.b := true], data, media, reqs[h := r])
  {
  }

  lemma NewServed(served: seq<int>, serial: int, reqs: Reqs, h: int, r: Req)
    requires ServedOk(served, serial, reqs) && h !in reqs && r.serial == serial && r.phase == Posted
    ensures ServedOk(served, serial + 1, reqs[h := r])
  {
  }

  /** All of it. */
  ghost predicate Sound(free: seq<bool>, desc: seq<Desc>, ops: seq<Op>, info: seq<Info>, own: map<int, int>, reqs: Reqs,
                        posted: seq<int>, availRing: seq<int>, availSeen: int, avail: int,
                        completed: seq<int>, usedRing: seq<int>, usedSeen: int, used: int,
                        busy: map<int, bool>, data: map<int, seq<int>>, media: map<int, seq<int>>,
                        served: seq<int>, serial: int)
  {
    && FreeOk(free, own) && OwnOk(own, reqs) && ChainsOk(desc, ops, info, reqs)
    && Queue(posted, availRing, availSeen, avail) && Holds(posted, reqs, Posted)
    && Queue(completed, usedRing, usedSeen, used) && Holds(completed, reqs, Used)
    && BuffersOk(busy, data, media, reqs) && ServedOk(served, serial, reqs)
  }

  predicate AllIn(hs: seq<int>, reqs: Reqs) { forall k :: 0 <= k < |hs| ==> hs[k] in reqs }

  /** The requests after those of hs have been reported. */
  function Reported(reqs: Reqs, hs: seq<int>): (r: Reqs)
  {
    map h | h in reqs :: if h in hs then reqs[h].(phase := Done) else reqs[h]
  }

  function Serials(reqs: Reqs, hs: seq<int>): (s: seq<int>)
    requires AllIn(hs, reqs)
    ensures |s| == |hs| && forall k :: 0 <= k < |hs| ==> s[k] == reqs[hs[k]].serial
  {
    seq(|hs|, k requires 0 <= k < |hs| => reqs[hs[k]].serial)
  }

  /** b is the buffer of one of the requests of hs. */
  ghost predicate HasBuffer(reqs: Reqs, hs: seq<int>, b: int)
    requires AllIn(hs, reqs)
  {
    exists k :: 0 <= k < |hs| && reqs[hs[k]].b == b
  }

  lemma NoneReported(reqs: Reqs, hs: seq<int>)
    requires AllIn(hs, reqs)
    ensures Reported(reqs, hs[..0]) == reqs && Serials(reqs, hs[..0]) == [] && hs[0..] == hs
    ensures forall b :: !HasBuffer(reqs, hs[..0], b)
  {
  }

  lemma ReportedNext(reqs: Reqs, hs: seq<int>, k: nat)
    requires AllIn(hs, reqs) && Distinct(hs) && k < |hs|
    ensures hs[k] in Reported(reqs, hs[..k]) && Reported(reqs, hs[..k])[hs[k]] == reqs[hs[k]]
    ensures Reported(reqs, hs[..k + 1]) == Reported(reqs, hs[..k])[hs[k] := reqs[hs[k]].(phase := Done)]
    ensures Serials(reqs, hs[..k + 1]) == Serials(reqs, hs[..k]) + [reqs[hs[k]].serial]
    ensures hs[k..][0] == hs[k] && hs[k..][1..] == hs[k + 1..]
    ensures forall b :: HasBuffer(reqs, hs[..k + 1], b) <==> HasBuffer(reqs, hs[..k], b) || reqs[hs[k]].b == b
  {
    var now, was := hs[..k + 1], hs[..k];
    assert now == was + [hs[k]] && hs[k] !in was;
    forall b ensures HasBuffer(reqs, now, b) <==> HasBuffer(reqs, was, b) || reqs[hs[k]].b == b {
      if HasBuffer(reqs, was, b) {
        var i :| 0 <= i < |was| && reqs[was[i]].b == b;
        assert now[i] == was[i];
      }
      assert now[k] == hs[k];
      if HasBuffer(reqs, now, b) {
        var i :| 0 <= i < |now| && reqs[now[i]].b == b;
        if i < k { assert was[i] == now[i]; }
      }
    }
  }

  /** A ring with its index, as the driver and the device share them. */
  datatype Virtq = Virtq(idx: int, ring: seq<int>)

  datatype View = View(own: map<int, int>, reqs: Reqs, posted: seq<int>, completed: seq<int>, served: seq<int>,
                       serial: int)

  // ---------------------------------------------------------------- driver and device

  class Disk {
    var free: seq<bool>
    var desc: seq<Desc>
    var ops: seq<Op>
    var info: seq<Info>
    var avail: Virtq
    var usedSeen: int
    var busy: map<int, bool>
    // the device's side
    var used: Virtq
    var availSeen: int
    var data: map<int, seq<int>>
    var media: map<int, seq<int>>
    ghost var g: View

    ghost predicate Tables()
      reads this
    {
      FreeOk(free, g.own) && OwnOk(g.own, g.reqs) && ChainsOk(desc, ops, info, g.reqs)
    }

    ghost predicate Valid()
      reads this
    {
      Sound(free, desc, ops, info, g.own, g.reqs, g.posted, avail.ring, availSeen, avail.idx, g.completed, used.ring,
            usedSeen, used.idx, busy, data, media, g.served, g.serial)
    }

    constructor (d: map<int, seq<int>>, m: map<int, seq<int>>)
      ensures Valid() && g.reqs == map[] && g.served == [] && data == d && media == m
    {
      free := [true, true, true, true, true, true, true, true];
      desc := [FREED, FREED, FREED, FREED, FREED, FREED, FREED, FREED];
      ops := [Op(false, 0), Op(false, 0), Op(false, 0), Op(false, 0), Op(false, 0), Op(false, 0), Op(false, 0),
              Op(false, 0)];
      info := [Info(0, 0), Info(0, 0), Info(0, 0), Info(0, 0), Info(0, 0), Info(0, 0), Info(0, 0), Info(0, 0)];
      avail, used := Virtq(0, [0, 0, 0, 0, 0, 0, 0, 0]), Virtq(0, [0, 0, 0, 0, 0, 0, 0, 0]);
      usedSeen, availSeen, busy, data, media := 0, 0, map[], d, m;
      g := View(map[], map[], [], [], [], 0);
    }

    /** alloc_desc: the lowest free descriptor. */
    method AllocDesc() returns (i: int)
      requires |free| == NUM
      modifies this`free
      ensures i == -1 <==> forall k :: 0 <= k < NUM ==> !old(free)[k]
      ensures i == -1 ==> free == old(free)
      ensures i != -1 ==>
        0 <= i < NUM && old(free)[i] && (forall k :: 0 <= k < i ==> !old(free)[k]) && free == old(free)[i := false]
    {
      i := 0;
      while i < NUM
        invariant 0 <= i <= NUM && free == old(free) && forall k :: 0 <= k < i ==> !free[k]
      {
        if free[i] {
          free := free[i := false];
          return;
        }
        i := i + 1;
      }
      return -1;
    }

    /** free_desc; false stands for its panics. */
    method FreeDesc(i: int) returns (ok: bool)
      requires |free| == |desc| == NUM && 0 <= i
      modifies this`free, this`desc
      ensures ok <==> i < NUM && !old(free)[i]
      ensures ok ==> free == old(free)[i := true] && desc == old(desc)[i := FREED]
    {
      if i >= NUM { return false; }
      if free[i] { return false; }
      desc := desc[i := FREED];
      free := free[i := true];
      return true;
    }

    /** alloc3_desc: three free descriptors, or the free set as it was when there are fewer. */
    method Alloc3() returns (idx: seq<int>)
      requires |free| == |desc| == NUM
      modifies this`free, this`desc
      ensures idx != [] ==>
        && |idx| == 3 && Distinct(idx) && (forall k :: 0 <= k < 3 ==> 0 <= idx[k] < NUM && old(free)[idx[k]])
        && free == Mark(old(free), idx[0], idx[1], idx[2], false) && desc == old(desc)
      ensures idx == [] ==>
        && free == old(free) && |desc| == NUM && (forall k :: 0 <= k < NUM && !free[k] ==> desc[k] == old(desc)[k])
        && forall a, b, c :: 0 <= a < b < c < NUM ==> !(free[a] && free[b] && free[c])
    {
      idx := [];
      while |idx| < 3
        invariant |idx| <= 3 && |free| == NUM && desc == old(desc) && Distinct(idx)
        invariant forall k :: 0 <= k < |idx| ==> 0 <= idx[k] < NUM && old(free)[idx[k]] && !free[idx[k]]
        invariant forall y :: 0 <= y < NUM && y !in idx ==> free[y] == old(free)[y]
      {
        var i := AllocDesc();
        if i < 0 {
          FewFree(old(free), idx);
          GiveBack(idx, old(free));
          return [];
        }
        idx := idx + [i];
      }
    }

    /** alloc3_desc's loop when it has found too few. */
    method GiveBack(idx: seq<int>, ghost free0: seq<bool>)
      requires |free| == |desc| == |free0| == NUM && Distinct(idx)
      requires forall k :: 0 <= k < |idx| ==> 0 <= idx[k] < NUM && free0[idx[k]] && !free[idx[k]]
      requires forall y :: 0 <= y < NUM && y !in idx ==> free[y] == free0[y]
      modifies this`free, this`desc
      ensures free == free0 && |desc| == NUM && forall k :: 0 <= k < NUM && !free[k] ==> desc[k] == old(desc)[k]
    {
      var j := 0;
      while j < |idx|
        invariant 0 <= j <= |idx| && |free| == |desc| == NUM
        invariant forall k :: 0 <= k < |idx| ==> free[idx[k]] == (k < j)
        invariant forall y :: 0 <= y < NUM && y !in idx ==> free[y] == free0[y] && desc[y] == old(desc)[y]
      {
        var ok := FreeDesc(idx[j]);
        j := j + 1;
      }
      forall y | 0 <= y < NUM ensures free[y] == free0[y] && (!free[y] ==> desc[y] == old(desc)[y]) {
        if y in idx { var k :| 0 <= k < |idx| && idx[k] == y; }
      }
    }

    /** free_chain: the three descriptors of the chain, and no panic. */
    method FreeChain(h: int, ghost d1: int, ghost d2: int) returns (ok: bool)
      requires |free| == |desc| == NUM && 0 <= h < NUM && 0 <= d1 < NUM && 0 <= d2 < NUM && h != d1 && h != d2
      requires d1 != d2
      requires !free[h] && !free[d1] && !free[d2] && desc[h].hasNext && desc[h].next == d1 && desc[d1].hasNext
      requires desc[d1].next == d2 && !desc[d2].hasNext
      modifies this`free, this`desc
      ensures ok && free == Mark(old(free), h, d1, d2, true) && desc == Blank(old(desc), h, d1, d2)
    {
      var i := h;
      ghost var k := 0;
      while true
        invariant 0 <= k <= 2 && i == (if k == 0 then h else if k == 1 then d1 else d2)
        invariant free == (if k == 0 then old(free) else if k == 1 then old(free)[h := true]
                           else old(free)[h := true][d1 := true])
        invariant desc == (if k == 0 then old(desc) else if k == 1 then old(desc)[h := FREED]
                           else old(desc)[h := FREED][d1 := FREED])
        decreases 3 - k
      {
        var flag, nxt := desc[i].hasNext, desc[i].next;
        ok := FreeDesc(i);
        if !ok { return; }
        if flag { i := nxt; } else { return; }
        k := k + 1;
      }
    }

    /** virtio_disk_rw up to its wait: the request is laid out and published, or, with fewer than
        three free descriptors, nothing is. */
    method Submit(b: int, block: int, write: bool) returns (h: int)
      requires Valid() && b in data && block * 2 in media && forall x :: x in g.reqs ==> g.reqs[x].b != b
      modifies this
      ensures Valid() && data == old(data) && media == old(media) && g.served == old(g.served)
      ensures h == -1 ==> g.reqs == old(g.reqs) && free == old(free) && g.serial == old(g.serial)
      ensures h == -1 ==> forall x, y, z :: 0 <= x < y < z < NUM ==> !(free[x] && free[y] && free[z])
      ensures h != -1 ==>
        && h !in old(g.reqs) && h in g.reqs && g.reqs == old(g.reqs)[h := g.reqs[h]] && g.reqs[h].b == b
        && g.reqs[h].write == write && g.reqs[h].block == block
        && g.reqs[h].phase == Posted && g.reqs[h].serial == old(g.serial) && g.posted == old(g.posted) + [h]
    {
      hide FreeOk; hide OwnOk; hide ChainsOk; hide Holds; hide Queue; hide BuffersOk; hide ServedOk;
      Sizes(free, g.own, desc, ops, info, g.reqs);
      ghost var free0, desc0 := free, desc;
      var idx := Alloc3();
      if idx == [] {
        SameChains(free, g.own, desc0, ops, info, g.reqs, desc);
        return -1;
      }
      h := idx[0];
      IsFresh(free0, g.own, idx);
      Publish(b, block, write, h, idx[1], idx[2], free0);
    }

    /** Three descriptors in hand: format them and tell the device. */
    method Publish(b: int, block: int, write: bool, h: int, d1: int, d2: int, ghost free0: seq<bool>)
      requires Sound(free0, desc, ops, info, g.own, g.reqs, g.posted, avail.ring, availSeen, avail.idx, g.completed,
                     used.ring, usedSeen, used.idx, busy, data, media, g.served, g.serial)
      requires Fresh(g.own, h, d1, d2) && |free0| == NUM && 0 <= h < NUM && 0 <= d1 < NUM && 0 <= d2 < NUM && h != d1
      requires h != d2 && d1 != d2
      requires free == Mark(free0, h, d1, d2, false)
      requires b in data && block * 2 in media && forall x :: x in g.reqs ==> g.reqs[x].b != b
      modifies this`avail, this`busy, this`desc, this`g, this`info, this`ops
      ensures Valid() && g.served == old(g.served)
      ensures h !in old(g.reqs) && g.reqs == old(g.reqs)[h := Req(old(g.serial), b, write, block, d1, d2, Posted)]
      ensures g.posted == old(g.posted) + [h]
    {
      hide Sound; hide Fresh; hide Link; hide Mark; hide Give;
      ghost var r := Req(g.serial, b, write, block, d1, d2, Posted);
      NewSound(free0, desc, ops, info, g.own, g.reqs, g.posted, avail.ring, availSeen, avail.idx, g.completed,
               used.ring, usedSeen, used.idx, busy, data, media, g.served, g.serial, h, r);
      Format(b, block, write, h, d1, d2);
      busy := busy[b := true];
      avail := avail.(ring := avail.ring[avail.idx % 8 := h]);
      avail := avail.(idx := (avail.idx + 1) % 0x1_0000);
      g := g.(own := Give(g.own, h, d1, d2), reqs := g.reqs[h := r], posted := g.posted + [h], serial := g.serial + 1);
    }

    method Format(b: int, block: int, write: bool, h: int, d1: int, d2: int)
      requires |desc| == |ops| == |info| == NUM && 0 <= h < NUM && 0 <= d1 < NUM && 0 <= d2 < NUM && h != d1 && h != d2
      requires d1 != d2
      modifies this`ops, this`desc, this`info
      ensures desc == Link(old(desc), h, d1, d2, b, write) && ops == old(ops)[h := Op(write, block * 2)]
      ensures info == old(info)[h := Info(b, 0xff)]
    {
      ops := ops[h := Op(write, block * 2)];
      desc := desc[h := Desc(Ops(h), 16, d1, true, false)];
      desc := desc[d1 := Desc(Data(b), 1024, d2, true, !write)];
      info := info[h := info[h].(status := 0xff)];
      desc := desc[d2 := Desc(Status(h), 1, 0, false, true)];
      info := info[h := info[h].(b := b)];
    }

    /** The device takes the next available request. */
    method DeviceTake() returns (h: int)
      requires Valid() && availSeen != avail.idx
      modifies this`availSeen, this`g
      ensures Valid() && old(g.posted) == [h] + g.posted && g.served == old(g.served)
      ensures h in old(g.reqs) && old(g.reqs)[h].phase == Posted
      ensures g.reqs == old(g.reqs)[h := old(g.reqs)[h].(phase := Taken)]
    {
      hide FreeOk; hide OwnOk; hide ChainsOk; hide Holds; hide Queue; hide BuffersOk; hide ServedOk;
      Sizes(free, g.own, desc, ops, info, g.reqs);
      QueueSize(g.posted, avail.ring, availSeen, avail.idx);
      QueuePop(g.posted, avail.ring, availSeen, avail.idx);
      h := avail.ring[availSeen % 8];
      HoldsAt(g.posted, g.reqs, Posted);
      HoldsPop(g.posted, g.reqs, Posted, g.reqs[h].(phase := Taken));
      HoldsOther(g.completed, g.reqs, Used, h, g.reqs[h].(phase := Taken));
      PhaseAll(h, Taken, info);
      availSeen := (availSeen + 1) % 0x1_0000;
      g := g.(reqs := g.reqs[h := g.reqs[h].(phase := Taken)], posted := g.posted[1..]);
    }

    /** It follows the chain, moves the block and writes the status: what was asked for. */
    method DeviceServe(h: int)
      requires Valid() && h in g.reqs && g.reqs[h].phase == Taken
      modifies this`data, this`g, this`info, this`media
      ensures Valid() && h in g.reqs && g == old(g).(reqs := old(g.reqs)[h := old(g.reqs)[h].(phase := Served)])
      ensures g.reqs[h].write ==>
        data == old(data) && g.reqs[h].b in data && media == old(media)[g.reqs[h].block * 2 := data[g.reqs[h].b]]
      ensures !g.reqs[h].write ==>
        && media == old(media) && g.reqs[h].block * 2 in media
        && data == old(data)[g.reqs[h].b := media[g.reqs[h].block * 2]]
    {
      hide FreeOk; hide OwnOk; hide ChainsOk; hide Holds; hide Queue; hide BuffersOk; hide ServedOk;
      Sizes(free, g.own, desc, ops, info, g.reqs);
      ChainAt(desc, ops, info, g.reqs, h);
      BufferAt(busy, data, media, g.reqs, h);
      var op := ops[desc[h].addr.i];
      var d := desc[desc[h].next];
      var st := desc[d.next].addr.i;
      MoveBuffers(busy, data, media, g.reqs, h);
      if op.write {
        media := media[op.sector := data[d.addr.b]];
      } else {
        data := data[d.addr.b := media[op.sector]];
      }
      HoldsOther(g.posted, g.reqs, Posted, h, g.reqs[h].(phase := Served));
      HoldsOther(g.completed, g.reqs, Used, h, g.reqs[h].(phase := Served));
      PhaseAll(h, Served, info[st := info[st].(status := 0)]);
      info := info[st := info[st].(status := 0)];
      g := g.(reqs := g.reqs[h := g.reqs[h].(phase := Served)]);
    }

    /** It reports a request it has served, whichever it likes. */
    method DevicePush(h: int)
      requires Valid() && h in g.reqs && g.reqs[h].phase == Served
      modifies this`g, this`used
      ensures Valid() && g.completed == old(g.completed) + [h] && g.served == old(g.served)
      ensures g.reqs == old(g.reqs)[h := old(g.reqs)[h].(phase := Used)]
    {
      hide FreeOk; hide OwnOk; hide ChainsOk; hide Holds; hide Queue; hide BuffersOk; hide ServedOk;
      Sizes(free, g.own, desc, ops, info, g.reqs);
      ChainAt(desc, ops, info, g.reqs, h);
      QueueSize(g.completed, used.ring, usedSeen, used.idx);
      HoldsPush(g.completed, g.reqs, Used, h, g.reqs[h].(phase := Used));
      HoldsOther(g.posted, g.reqs, Posted, h, g.reqs[h].(phase := Used));
      QueuePush(g.completed, used.ring, usedSeen, used.idx, h);
      PhaseAll(h, Used, info);
      used := used.(ring := used.ring[used.idx % 8 := h]);
      used := used.(idx := (used.idx + 1) % 0x1_0000);
      g := g.(reqs := g.reqs[h := g.reqs[h].(phase := Used)], completed := g.completed + [h]);
    }

    /** One turn of virtio_disk_intr's loop; false stands for its panic. */
    method IntrOne() returns (ok: bool)
      requires Valid() && usedSeen != used.idx
      modifies this`busy, this`g, this`usedSeen
      ensures Valid() && ok && old(g.completed) != []
      ensures var h := old(g.completed)[0];
        && h in old(g.reqs) && old(g.reqs)[h].phase == Used && old(g.reqs)[h].serial !in old(g.served)
        && g == old(g).(completed := old(g.completed)[1..], reqs := old(g.reqs)[h := old(g.reqs)[h].(phase := Done)],
                        served := old(g.served) + [old(g.reqs)[h].serial])
        && busy == old(busy)[old(g.reqs)[h].b := false]
    {
      hide FreeOk; hide OwnOk; hide ChainsOk; hide Holds; hide Queue; hide BuffersOk; hide ServedOk;
      Sizes(free, g.own, desc, ops, info, g.reqs);
      QueueSize(g.completed, used.ring, usedSeen, used.idx);
      QueuePop(g.completed, used.ring, usedSeen, used.idx);
      HoldsAt(g.completed, g.reqs, Used);
      var id := used.ring[usedSeen % 8];
      ChainAt(desc, ops, info, g.reqs, id);
      if info[id].status != 0 { return false; }
      var b := info[id].b;
      HoldsPop(g.completed, g.reqs, Used, g.reqs[id].(phase := Done));
      HoldsOther(g.posted, g.reqs, Posted, id, g.reqs[id].(phase := Done));
      PhaseAll(id, Done, info);
      busy := busy[b := false];
      usedSeen := (usedSeen + 1) % 0x1_0000;
      g := g.(served := g.served + [g.reqs[id].serial], reqs := g.reqs[id := g.reqs[id].(phase := Done)],
              completed := g.completed[1..]);
      return true;
    }

    /** virtio_disk_intr: every completed request is reported, in order and each once; the other
        requests and buffers stay as they are. */
    method Intr() returns (ok: bool)
      requires Valid()
      modifies this`busy, this`g, this`usedSeen
      ensures Valid() && ok && usedSeen == used.idx && AllIn(old(g.completed), old(g.reqs))
      ensures g == old(g).(completed := [], reqs := Reported(old(g.reqs), old(g.completed)),
                           served := old(g.served) + Serials(old(g.reqs), old(g.completed)))
      ensures forall b :: b in old(busy) ==>
        b in busy && busy[b] == (old(busy)[b] && !HasBuffer(old(g.reqs), old(g.completed), b))
    {
      hide Sound; hide Queue; hide Reported; hide Serials; hide HasBuffer; hide Distinct;
      ghost var k, g0 := 0, g;
      CompletedRing();
      NoneReported(g0.reqs, g0.completed);
      while usedSeen != used.idx
        invariant Valid() && 0 <= k <= |g0.completed| && AllIn(g0.completed, g0.reqs) && Distinct(g0.completed)
        invariant g == g0.(completed := g0.completed[k..], reqs := Reported(g0.reqs, g0.completed[..k]),
                           served := g0.served + Serials(g0.reqs, g0.completed[..k]))
        invariant forall b :: b in old(busy) ==>
          b in busy && busy[b] == (old(busy)[b] && !HasBuffer(g0.reqs, g0.completed[..k], b))
        decreases |g0.completed| - k
      {
        ok := IntrOne();
        if !ok { return; }
        ReportedNext(g0.reqs, g0.completed, k);
        k := k + 1;
      }
      CompletedRing();
      assert g0.completed[..k] == g0.completed;
      return true;
    }

    lemma CompletedRing()
      requires Valid()
      ensures AllIn(g.completed, g.reqs) && Distinct(g.completed) && (usedSeen == used.idx <==> g.completed == [])
    {
      QueueEmpty(g.completed, used.ring, usedSeen, used.idx);
    }

    /** The rest of virtio_disk_rw, once b->disk is 0: the chain is free again. */
    method Finish(b: int, h: int) returns (ok: bool)
      requires Valid() && h in g.reqs && g.reqs[h].b == b && b in busy && !busy[b]
      modifies this
      ensures Valid() && ok && g.reqs == old(g.reqs) - {h} && g.served == old(g.served) && data == old(data)
      ensures media == old(media)
      ensures var r := old(g.reqs)[h];
        && 0 <= h < NUM && 0 <= r.d1 < NUM && 0 <= r.d2 < NUM && |old(free)| == NUM
        && free == Mark(old(free), h, r.d1, r.d2, true)
    {
      hide FreeOk; hide OwnOk; hide ChainsOk; hide Holds; hide Queue; hide BuffersOk; hide ServedOk; hide Chain;
      hide Mark; hide Blank; hide Take;
      Sizes(free, g.own, desc, ops, info, g.reqs);
      ghost var r := g.reqs[h];
      BufferAt(busy, data, media, g.reqs, h);
      GoneAll(h);
      info := info[h := info[h].(b := 0)];
      ok := FreeChain(h, r.d1, r.d2);
      g := g.(own := Take(g.own, h, r.d1, r.d2), reqs := g.reqs - {h});
    }

    /** What a finished request leaves behind. */
    lemma GoneAll(h: int)
      requires Valid() && h in g.reqs && g.reqs[h].phase == Done
      ensures |free| == |desc| == |info| == NUM
      ensures var r := g.reqs[h];
        && 0 <= h < NUM && 0 <= r.d1 < NUM && 0 <= r.d2 < NUM && h != r.d1 && h != r.d2 && r.d1 != r.d2
        && !free[h] && !free[r.d1] && !free[r.d2]
        && desc[h].hasNext && desc[h].next == r.d1 && desc[r.d1].hasNext && desc[r.d1].next == r.d2
        && !desc[r.d2].hasNext
        && FreeOk(Mark(free, h, r.d1, r.d2, true), Take(g.own, h, r.d1, r.d2))
        && OwnOk(Take(g.own, h, r.d1, r.d2), g.reqs - {h})
        && ChainsOk(Blank(desc, h, r.d1, r.d2), ops, info[h := info[h].(b := 0)], g.reqs - {h})
      ensures BuffersOk(busy, data, media, g.reqs - {h}) && ServedOk(g.served, g.serial, g.reqs - {h})
      ensures Holds(g.posted, g.reqs - {h}, Posted) && Holds(g.completed, g.reqs - {h}, Used)
    {
      hide FreeOk; hide OwnOk; hide ChainsOk; hide Holds; hide Queue; hide BuffersOk; hide ServedOk; hide Chain;
      Sizes(free, g.own, desc, ops, info, g.reqs);
      ChainAt(desc, ops, info, g.reqs, h);
      OwnedBy(free, g.own, g.reqs, h);
      ChainLinks(desc, ops, info, h, g.reqs[h]);
      GoneOwn(free, g.own, g.reqs, h);
      GoneChains(desc, ops, info, g.own, g.reqs, h);
      GoneRest(busy, data, media, g.served, g.serial, g.reqs, h);
      HoldsGone(g.posted, g.reqs, Posted, h);
      HoldsGone(g.completed, g.reqs, Used, h);
    }

    /** Nothing but the rings looks at a request's phase in a way that a change could upset. */
    lemma PhaseAll(h: int, phase: Phase, info': seq<Info>)
      requires Tables() && BuffersOk(busy, data, media, g.reqs) && ServedOk(g.served, g.serial, g.reqs) && h in g.reqs
      requires g.reqs[h].phase != Done && 0 <= h < NUM
      requires |info| == NUM && (info' == info || info' == info[h := info[h].(status := 0)])
      requires phase == Served || phase == Used ==> info'[h].status == 0
      ensures var reqs' := g.reqs[h := g.reqs[h].(phase := phase)];
        && OwnOk(g.own, reqs') && ChainsOk(desc, ops, info', reqs')
        && BuffersOk(if phase == Done then busy[g.reqs[h].b := false] else busy, data, media, reqs')
        && ServedOk(if phase == Done then g.served + [g.reqs[h].serial] else g.served, g.serial, reqs')
        && g.reqs[h].serial !in g.served
    {
      hide FreeOk; hide OwnOk; hide ChainsOk; hide BuffersOk; hide ServedOk;
      PhaseOwn(g.own, g.reqs, h, phase);
      PhaseChains(desc, ops, info, g.reqs, h, phase, info');
      PhaseBuffers(busy, data, media, g.reqs, h, phase);
      PhaseServed(g.served, g.serial, g.reqs, h, phase);
    }
  }

  lemma Sizes(free: seq<bool>, own: map<int, int>, desc: seq<Desc>, ops: seq<Op>, info: seq<Info>, reqs: Reqs)
    requires FreeOk(free, own) && ChainsOk(desc, ops, info, reqs)
    ensures |free| == |desc| == |ops| == |info| == NUM
  {
  }

  lemma QueueSize(q: seq<int>, ring: seq<int>, head: int, tail: int)
    requires Queue(q, ring, head, tail)
    ensures |ring| == NUM && 0 <= head < IDX && 0 <= tail < IDX
  {
  }

  lemma HoldsAt(q: seq<int>, reqs: Reqs, phase: Phase)
    requires Holds(q, reqs, phase) && q != []
    ensures 0 <= q[0] < NUM && q[0] in reqs && reqs[q[0]].phase == phase
  {
  }

  lemma ChainAt(desc: seq<Desc>, ops: seq<Op>, info: seq<Info>, reqs: Reqs, h: int)
    requires ChainsOk(desc, ops, info, reqs) && h in reqs
    ensures |desc| == |ops| == |info| == NUM && 0 <= h < NUM && Chain(desc, ops, info, h, reqs[h])
  {
  }

  lemma ChainLinks(desc: seq<Desc>, ops: seq<Op>, info: seq<Info>, h: int, r: Req)
    requires |desc| == |ops| == |info| == NUM && Chain(desc, ops, info, h, r)
    ensures 0 <= h < NUM && 0 <= r.d1 < NUM && 0 <= r.d2 < NUM
    ensures desc[h].hasNext && desc[h].next == r.d1 && desc[r.d1].hasNext && desc[r.d1].next == r.d2
    ensures !desc[r.d2].hasNext
  {
  }

  lemma BufferAt(busy: map<int, bool>, data: map<int, seq<int>>, media: map<int, seq<int>>, reqs: Reqs, h: int)
    requires BuffersOk(busy, data, media, reqs) && h in reqs
    ensures reqs[h].b in busy && (busy[reqs[h].b] <==> reqs[h].phase != Done) && reqs[h].b in data
    ensures reqs[h].block * 2 in media
  {
  }

  /** Moving a block changes no buffer's standing. */
  lemma MoveBuffers(busy: map<int, bool>, data: map<int, seq<int>>, media: map<int, seq<int>>, reqs: Reqs, h: int)
    requires BuffersOk(busy, data, media, reqs) && h in reqs
    ensures reqs[h].b in data && reqs[h].block * 2 in media
    ensures BuffersOk(busy, data, media[reqs[h].block * 2 := data[reqs[h].b]], reqs)
    ensures BuffersOk(busy, data[reqs[h].b := media[reqs[h].block * 2]], media, reqs)
  {
  }

  lemma OwnedBy(free: seq<bool>, own: map<int, int>, reqs: Reqs, h: int)
    requires FreeOk(free, own) && OwnOk(own, reqs) && h in reqs
    ensures var r := reqs[h];
      && 0 <= h < NUM && 0 <= r.d1 < NUM && 0 <= r.d2 < NUM && h != r.d1 && h != r.d2 && r.d1 != r.d2 && |free| == NUM
      && !free[h] && !free[r.d1] && !free[r.d2]
  {
    var r := reqs[h];
    assert h in own && r.d1 in own && r.d2 in own;
  }

  lemma GoneRest(busy: map<int, bool>, data: map<int, seq<int>>, media: map<int, seq<int>>, served: seq<int>,
                 serial: int, reqs: Reqs, h: int)
    requires BuffersOk(busy, data, media, reqs) && ServedOk(served, serial, reqs)
    ensures BuffersOk(busy, data, media, reqs - {h}) && ServedOk(served, serial, reqs - {h})
  {
  }

  lemma IsFresh(free: seq<bool>, own: map<int, int>, idx: seq<int>)
    requires FreeOk(free, own) && |idx| == 3 && Distinct(idx)
    requires forall k :: 0 <= k < 3 ==> 0 <= idx[k] < NUM && free[idx[k]]
    ensures Fresh(own, idx[0], idx[1], idx[2])
  {
    assert free[idx[0]] && free[idx[1]] && free[idx[2]];
    assert idx[0] != idx[1] && idx[0] != idx[2] && idx[1] != idx[2];
  }

  /** Only free descriptors were touched. */
  lemma SameChains(free: seq<bool>, own: map<int, int>, desc: seq<Desc>, ops: seq<Op>, info: seq<Info>, reqs: Reqs,
                   desc': seq<Desc>)
    requires FreeOk(free, own) && OwnOk(own, reqs) && ChainsOk(desc, ops, info, reqs) && |desc'| == NUM
    requires forall k :: 0 <= k < NUM && !free[k] ==> desc'[k] == desc[k]
    ensures ChainsOk(desc', ops, info, reqs)
  {
    forall h | h in reqs ensures Chain(desc', ops, info, h, reqs[h]) {
      assert Chain(desc, ops, info, h, reqs[h]);
      OwnedBy(free, own, reqs, h);
    }
  }

  lemma FewFree(free: seq<bool>, idx: seq<int>)
    requires |free| == NUM && |idx| < 3 && forall y :: 0 <= y < NUM && free[y] ==> y in idx
    ensures forall a, b, c :: 0 <= a < b < c < NUM ==> !(free[a] && free[b] && free[c])
  {
    forall a, b, c | 0 <= a < b < c < NUM ensures !(free[a] && free[b] && free[c]) {
      if free[a] && free[b] && free[c] {
        SubsetSize({a, b, c}, Elements(idx));
        FewElements(idx);
      }
    }
  }

  lemma FewElements(idx: seq<int>)
    requires |idx| < 3
    ensures |Elements(idx)| < 3
  {
    if |idx| == 2 { assert Elements(idx) == {idx[0], idx[1]}; }
    else if |idx| == 1 { assert Elements(idx) == {idx[0]}; }
    else { assert Elements(idx) == {}; }
  }
}
