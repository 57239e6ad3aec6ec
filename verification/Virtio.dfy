/** kernel/virtio_disk.c: the descriptors and the two rings of the disk queue (section 2.6 of Virtio 1.1; the
    three-descriptor requests are those of section 5.2).  The methods of the driver are its critical sections
    under vdisk_lock, which does not hold off the device: TakeRequest and Complete are the device's steps, and
    between any two accesses of the driver to shared memory the device takes any number of them (`Device`, whose
    argument says which).  The ring indices are 16-bit; ghost counters say how often they have been increased. */
module Virtio {
  const NUM: nat := 8
  const NONE: nat := 8
  const MINE: nat := 9
  const BSIZE: nat := 1024
  const NEXT: nat := 1
  const WRITE: nat := 2
  const TWO16: nat := 0x1_0000

  datatype Addr = Nowhere | OpHeader(i: nat) | BufData(b: nat) | StatusOf(i: nat)
  datatype Desc = Desc(addr: Addr, len: nat, flags: nat, next: nat)
  datatype Op = Op(write: bool, sector: nat)
  datatype Info = Info(b: nat, status: nat)

  const ZERO := Desc(Nowhere, 0, 0, 0)

  /** A request is known to the device, being worked on, reported by the device, or seen by the driver. */
  datatype Phase = Submitted | Taken | Reported | Seen
  datatype Chain = Chain(i1: nat, i2: nat, b: nat, write: bool, sector: nat, phase: Phase)

  // ---------- Chains ----------

  /** No request in flight has this buffer: its sleep-lock is held by the caller. */
  ghost predicate Unused(chains: map<nat, Chain>, b: nat) {
    forall h :: h in chains ==> chains[h].b != b
  }

  /** What the three descriptors say, and whose they are. */
  ghost predicate ChainOk(desc: seq<Desc>, ops: seq<Op>, info: seq<Info>, own: seq<nat>, h: nat, c: Chain)
    requires |desc| == |ops| == |info| == |own| == NUM
  {
    && h < NUM && c.i1 < NUM && c.i2 < NUM && h != c.i1 && h != c.i2 && c.i1 != c.i2
    && own[h] == h && own[c.i1] == h && own[c.i2] == h
    && desc[h] == Desc(OpHeader(h), 16, NEXT, c.i1)
    && desc[c.i1] == Desc(BufData(c.b), BSIZE, (if c.write then 0 else WRITE) + NEXT, c.i2)
    && desc[c.i2] == Desc(StatusOf(h), 1, WRITE, 0)
    && ops[h] == Op(c.write, c.sector) && info[h].b == c.b
    && (c.phase == Reported ==> info[h].status == 0)
  }

  /** The request a device finds that follows the chain from its head. */
  datatype Request = Malformed | Request(b: nat, write: bool, sector: nat)

  function Follow(desc: seq<Desc>, ops: seq<Op>, h: nat): Request
    requires |desc| == |ops| == NUM && h < NUM
  {
    var d0 := desc[h];
    if d0.addr != OpHeader(h) || d0.flags % 2 != 1 || d0.next >= NUM then Malformed else
      var d1 := desc[d0.next];
      if !d1.addr.BufData? || d1.len != BSIZE || d1.flags % 2 != 1 || d1.next >= NUM then Malformed else
        var d2 := desc[d1.next];
        if d2 != Desc(StatusOf(h), 1, WRITE, 0) then Malformed
        else if (d1.flags == NEXT) != ops[h].write then Malformed
        else Request(d1.addr.b, ops[h].write, ops[h].sector)
  }

  /** The device finds the request the driver meant. */
  lemma DeviceSeesRequest(desc: seq<Desc>, ops: seq<Op>, info: seq<Info>, own: seq<nat>, h: nat, c: Chain)
    requires |desc| == |ops| == |info| == |own| == NUM && ChainOk(desc, ops, info, own, h, c)
    ensures Follow(desc, ops, h) == Request(c.b, c.write, c.sector)
  {
  }

  /** A descriptor is free, or in the hands of the driver, which has allocated it and not published it yet or is about
      to free it, or belongs to a chain, as one of its three. */
  ghost predicate OwnOk(own: seq<nat>, free: seq<bool>, desc: seq<Desc>, chains: map<nat, Chain>, i: nat)
    requires |own| == |free| == |desc| == NUM && i < NUM
  {
    if own[i] == NONE then free[i] && desc[i] == ZERO
    else if own[i] == MINE then !free[i]
    else !free[i] && own[i] in chains && (i == own[i] || i == chains[own[i]].i1 || i == chains[own[i]].i2)
  }

  ghost predicate Queue(free: seq<bool>, desc: seq<Desc>, ops: seq<Op>, info: seq<Info>, own: seq<nat>, chains: map<nat,
        Chain>) {
    && |free| == |desc| == |ops| == |info| == |own| == NUM
    && (forall i :: 0 <= i < NUM ==> OwnOk(own, free, desc, chains, i))
    && (forall h :: h in chains ==> ChainOk(desc, ops, info, own, h, chains[h]))
    && (forall h, k :: h in chains && k in chains && h != k ==> chains[h].b != chains[k].b)
  }

  // ---------- At most two requests ----------

  ghost function OwnedBy(own: seq<nat>, hs: set<nat>): set<nat> {
    set i | 0 <= i < |own| && own[i] in hs
  }

  lemma {:induction false} ThreeEach(free: seq<bool>, desc: seq<Desc>, ops: seq<Op>, info: seq<Info>, own: seq<nat>,
        chains: map<nat, Chain>, hs: set<nat>)
    requires Queue(free, desc, ops, info, own, chains) && hs <= chains.Keys
    ensures |OwnedBy(own, hs)| == 3 * |hs|
    decreases hs
  {
    if hs != {} {
      var h :| h in hs;
      ThreeEach(free, desc, ops, info, own, chains, hs - {h});
      ThreeOf(free, desc, ops, info, own, chains, h);
      hide Queue;
      assert OwnedBy(own, hs) == OwnedBy(own, hs - {h}) + OwnedBy(own, {h});
      assert OwnedBy(own, hs - {h}) !! OwnedBy(own, {h});
    }
  }

  lemma ThreeOf(free: seq<bool>, desc: seq<Desc>, ops: seq<Op>, info: seq<Info>, own: seq<nat>, chains: map<nat, Chain>,
        h: nat)
    requires Queue(free, desc, ops, info, own, chains) && h in chains
    ensures OwnedBy(own, {h}) == {h, chains[h].i1, chains[h].i2} && |OwnedBy(own, {h})| == 3
  {
    var c := chains[h];
    assert ChainOk(desc, ops, info, own, h, c);
    var three: set<nat> := {h, c.i1, c.i2};
    forall i | 0 <= i < NUM && own[i] == h ensures i in three {
      assert OwnOk(own, free, desc, chains, i);
    }
    assert OwnedBy(own, {h}) == three;
    assert three == {h} + {c.i1} + {c.i2};
  }

  lemma {:induction false} AtMost(s: set<nat>, n: nat)
    requires forall i :: i in s ==> i < n
    ensures |s| <= n
  {
    if n > 0 {
      AtMost(s - {n - 1}, n - 1);
      assert |s| <= |s - {n - 1}| + 1 by {
        assert n - 1 in s ==> s == s - {n - 1} + {n - 1};
        assert n - 1 !in s ==> s == s - {n - 1};
      }
    }
  }

  lemma TwoInFlight(free: seq<bool>, desc: seq<Desc>, ops: seq<Op>, info: seq<Info>, own: seq<nat>, chains: map<nat,
        Chain>)
    requires Queue(free, desc, ops, info, own, chains)
    ensures |chains| <= 2
  {
    ThreeEach(free, desc, ops, info, own, chains, chains.Keys);
    AtMost(OwnedBy(own, chains.Keys), NUM);
    assert |chains| == |chains.Keys|;
  }

  // ---------- Rings ----------

  /** The ring entry for an index, or for a count. */
  function Slot(i: nat): (k: nat)
    ensures k < NUM
  {
    i % NUM
  }

  /** A count as a 16-bit index. */
  function Low16(n: nat): nat {
    n % TWO16
  }

  /** The entries lo to hi of the log are still in the ring, the chains in them are in this phase, each once. */
  ghost predicate Ring(ring: seq<nat>, log: seq<nat>, lo: nat, chains: map<nat, Chain>, phase: Phase) {
    && |ring| == NUM && lo <= |log|
    && (forall i :: lo <= i < |log| ==> log[i] in chains && chains[log[i]].phase == phase && log[i] < NUM)
    && (forall i :: lo <= i < |log| ==> ring[Slot(i)] == log[i])
    && (forall i, j :: lo <= i < j < |log| ==> log[i] != log[j])
    && (forall h :: h in chains && chains[h].phase == phase ==> h in log[lo..])
  }

  lemma {:induction false} DistinctFit(log: seq<nat>, s: set<nat>)
    requires (forall i :: 0 <= i < |log| ==> log[i] in s) && forall i, j :: 0 <= i < j < |log| ==> log[i] != log[j]
    ensures |log| <= |s|
  {
    if log != [] {
      var n := |log| - 1;
      DistinctFit(log[..n], s - {log[n]});
    }
  }

  /** At most two entries of a ring are outstanding. */
  lemma RingShort(ring: seq<nat>, log: seq<nat>, lo: nat, chains: map<nat, Chain>, phase: Phase)
    requires Ring(ring, log, lo, chains, phase) && |chains| <= 2
    ensures |log| - lo <= 2
  {
    DistinctFit(log[lo..], chains.Keys);
  }

  // ---------- The steps ----------

  ghost function WithPhase(chains: map<nat, Chain>, h: nat, phase: Phase): map<nat, Chain>
    requires h in chains
  {
    chains[h := chains[h].(phase := phase)]
  }

  /** A chain moves on from a phase that is not the ring's to one that is not. */
  lemma RingOther(ring: seq<nat>, log: seq<nat>, lo: nat, chains: map<nat, Chain>, phase: Phase, h: nat, next: Phase)
    requires Ring(ring, log, lo, chains, phase) && h in chains && chains[h].phase != phase && next != phase
    ensures Ring(ring, log, lo, WithPhase(chains, h, next), phase)
  {
  }

  /** The oldest entry of a ring is taken out. */
  lemma RingTake(ring: seq<nat>, log: seq<nat>, lo: nat, chains: map<nat, Chain>, phase: Phase, next: Phase)
    requires Ring(ring, log, lo, chains, phase) && lo < |log| && next != phase
    ensures ring[Slot(lo)] == log[lo] && log[lo] in chains && chains[log[lo]].phase == phase && log[lo] < NUM
    ensures Ring(ring, log, lo + 1, WithPhase(chains, log[lo], next), phase)
  {
    var chains' := WithPhase(chains, log[lo], next);
    forall h | h in chains' && chains'[h].phase == phase ensures h in log[lo + 1..] {
      assert h in log[lo..] && log[lo..] == [log[lo]] + log[lo + 1..];
    }
  }

  /** An entry goes in behind the newest. */
  lemma RingPut(ring: seq<nat>, log: seq<nat>, lo: nat, chains: map<nat, Chain>, phase: Phase, h: nat, chains': map<nat,
        Chain>)
    requires Ring(ring, log, lo, chains, phase) && |log| - lo < NUM && h < NUM && h in chains'
             && chains'[h].phase == phase
    requires h in chains ==> chains[h].phase != phase
    requires forall k :: k != h ==>
               (k in chains <==> k in chains') && (k in chains ==> chains'[k].phase == chains[k].phase)
    ensures Ring(ring[Slot(|log|) := h], log + [h], lo, chains', phase)
  {
    var ring', log' := ring[Slot(|log|) := h], log + [h];
    assert log'[lo..] == log[lo..] + [h];
    forall i | lo <= i < |log'| ensures ring'[Slot(i)] == log'[i] {
      if i < |log| {
        Slots(i, |log|);
      }
    }
  }

  lemma RingReport(ring: seq<nat>, log: seq<nat>, lo: nat, chains: map<nat, Chain>, h: nat)
    requires Ring(ring, log, lo, chains, Reported) && |log| - lo < NUM && h < NUM && h in chains
             && chains[h].phase == Taken
    ensures |ring| == NUM && Ring(ring[Slot(|log|) := h], log + [h], lo, WithPhase(chains, h, Reported), Reported)
  {
    RingSize(ring, log, lo, chains, Reported);
    hide Ring;
    RingPut(ring, log, lo, chains, Reported, h, WithPhase(chains, h, Reported));
  }

  lemma RingSubmit(ring: seq<nat>, log: seq<nat>, lo: nat, chains: map<nat, Chain>, h: nat, c: Chain)
    requires Ring(ring, log, lo, chains, Submitted) && |log| - lo < NUM && h < NUM && h !in chains
             && c.phase == Submitted
    ensures |ring| == NUM && Ring(ring[Slot(|log|) := h], log + [h], lo, chains[h := c], Submitted)
  {
    RingSize(ring, log, lo, chains, Submitted);
    hide Ring;
    RingPut(ring, log, lo, chains, Submitted, h, chains[h := c]);
  }

  lemma Slots(i: nat, n: nat)
    requires i < n < i + NUM
    ensures Slot(i) != Slot(n)
  {
  }

  /** A chain that is in neither phase is gone. */
  lemma RingGone(ring: seq<nat>, log: seq<nat>, lo: nat, chains: map<nat, Chain>, phase: Phase, h: nat)
    requires Ring(ring, log, lo, chains, phase) && h in chains && chains[h].phase != phase
    ensures Ring(ring, log, lo, chains - {h}, phase)
  {
  }

  lemma QueuePhase(free: seq<bool>, desc: seq<Desc>, ops: seq<Op>, info: seq<Info>, own: seq<nat>, chains: map<nat,
        Chain>, h: nat, phase: Phase, info': seq<Info>)
    requires Queue(free, desc, ops, info, own, chains) && h in chains && |info'| == NUM && h < NUM
    requires info' == info[h := Info(info[h].b, info'[h].status)] && (phase == Reported ==> info'[h].status == 0)
    ensures Queue(free, desc, ops, info', own, WithPhase(chains, h, phase))
  {
    var chains' := WithPhase(chains, h, phase);
    forall i | 0 <= i < NUM ensures OwnOk(own, free, desc, chains', i) {
      assert OwnOk(own, free, desc, chains, i);
    }
    forall k | k in chains' ensures ChainOk(desc, ops, info', own, k, chains'[k]) {
      assert ChainOk(desc, ops, info, own, k, chains[k]);
    }
  }

  lemma QueueReport(free: seq<bool>, desc: seq<Desc>, ops: seq<Op>, info: seq<Info>, own: seq<nat>, chains: map<nat,
        Chain>, h: nat)
    requires Queue(free, desc, ops, info, own, chains) && h in chains
    ensures |info| == NUM && h < NUM && Queue(free, desc, ops, info[h := Info(info[h].b, 0)], own,
            WithPhase(chains, h, Reported))
  {
    assert ChainOk(desc, ops, info, own, h, chains[h]);
    hide Queue, WithPhase;
    QueuePhase(free, desc, ops, info, own, chains, h, Reported, info[h := Info(info[h].b, 0)]);
  }

  lemma ChainKept(desc: seq<Desc>, ops: seq<Op>, info: seq<Info>, own: seq<nat>,
                  desc': seq<Desc>, ops': seq<Op>, info': seq<Info>, own': seq<nat>, k: nat, c: Chain)
    requires |desc| == |ops| == |info| == |own| == |desc'| == |ops'| == |info'| == |own'| == NUM
    requires ChainOk(desc, ops, info, own, k, c)
    requires forall i :: 0 <= i < NUM && own[i] == k ==>
               desc'[i] == desc[i] && ops'[i] == ops[i] && info'[i] == info[i] && own'[i] == own[i]
    ensures ChainOk(desc', ops', info', own', k, c)
  {
  }

  /** Whatever the driver does to descriptors that are its own, no chain notices. */
  lemma QueueMine(free: seq<bool>, desc: seq<Desc>, ops: seq<Op>, info: seq<Info>, own: seq<nat>, chains: map<nat,
        Chain>,
                  i: nat, free': seq<bool>, desc': seq<Desc>, ops': seq<Op>, info': seq<Info>, own': seq<nat>)
    requires Queue(free, desc, ops, info, own, chains) && i < NUM && (own[i] == MINE || own[i] == NONE)
    requires |free'| == |desc'| == |ops'| == |info'| == |own'| == NUM
    requires free' == free[i := free'[i]] && desc' == desc[i := desc'[i]] && ops' == ops[i := ops'[i]]
    requires info' == info[i := info'[i]] && own' == own[i := own'[i]]
    requires if own'[i] == NONE then free'[i] && desc'[i] == ZERO else own'[i] == MINE && !free'[i]
    ensures Queue(free', desc', ops', info', own', chains) && i !in chains
  {
    assert i in chains ==> ChainOk(desc, ops, info, own, i, chains[i]);
    forall k | k in chains ensures ChainOk(desc', ops', info', own', k, chains[k]) {
      assert ChainOk(desc, ops, info, own, k, chains[k]);
      ChainKept(desc, ops, info, own, desc', ops', info', own', k, chains[k]);
    }
    forall k | 0 <= k < NUM ensures OwnOk(own', free', desc', chains, k) {
      assert OwnOk(own, free, desc, chains, k);
    }
  }

  /** Three descriptors of the driver that say what a chain's do become a chain. */
  lemma QueueAdd(free: seq<bool>, desc: seq<Desc>, ops: seq<Op>, info: seq<Info>, own: seq<nat>, chains: map<nat,
        Chain>, h: nat, c: Chain)
    requires Queue(free, desc, ops, info, own, chains) && Formatted(desc, ops, info, own, h, c) && Unused(chains, c.b)
    ensures h !in chains && Queue(free, desc, ops, info, own[h := h][c.i1 := h][c.i2 := h], chains[h := c])
  {
    var own', chains' := own[h := h][c.i1 := h][c.i2 := h], chains[h := c];
    assert h in chains ==> ChainOk(desc, ops, info, own, h, chains[h]);
    forall k | k in chains ensures ChainOk(desc, ops, info, own', k, chains[k]) {
      assert ChainOk(desc, ops, info, own, k, chains[k]);
      ChainKept(desc, ops, info, own, desc, ops, info, own', k, chains[k]);
    }
    forall i | 0 <= i < NUM ensures OwnOk(own', free, desc, chains', i) {
      assert OwnOk(own, free, desc, chains, i);
    }
  }

  ghost predicate InHand(own: seq<nat>, h: nat, i1: nat, i2: nat) {
    && |own| == NUM && h < NUM && i1 < NUM && i2 < NUM && h != i1 && h != i2 && i1 != i2
    && own[h] == MINE && own[i1] == MINE && own[i2] == MINE
  }

  /** The driver's three descriptors say what a chain's do. */
  ghost predicate Formatted(desc: seq<Desc>, ops: seq<Op>, info: seq<Info>, own: seq<nat>, h: nat, c: Chain) {
    && |desc| == |ops| == |info| == NUM && InHand(own, h, c.i1, c.i2)
    && desc[h] == Desc(OpHeader(h), 16, NEXT, c.i1)
    && desc[c.i1] == Desc(BufData(c.b), BSIZE, (if c.write then 0 else WRITE) + NEXT, c.i2)
    && desc[c.i2] == Desc(StatusOf(h), 1, WRITE, 0)
    && ops[h] == Op(c.write, c.sector) && info[h] == Info(c.b, 0xff) && c.phase == Submitted
  }

  /** The three descriptors of a request are in the driver's hands again. */
  lemma QueueDrop(free: seq<bool>, desc: seq<Desc>, ops: seq<Op>, info: seq<Info>, own: seq<nat>, chains: map<nat,
        Chain>, h: nat, info': seq<Info>)
    requires Queue(free, desc, ops, info, own, chains) && h in chains && h < NUM && |info'| == NUM
             && info' == info[h := info'[h]]
    ensures var c := chains[h];
      c.i1 < NUM && c.i2 < NUM && Queue(free, desc, ops, info', own[h := MINE][c.i1 := MINE][c.i2 := MINE],
          chains - {h})
  {
    var c := chains[h];
    assert ChainOk(desc, ops, info, own, h, c);
    hide OwnOk;
    var own' := own[h := MINE][c.i1 := MINE][c.i2 := MINE];
    forall k | k in chains && k != h ensures ChainOk(desc, ops, info', own', k, chains[k]) {
      assert ChainOk(desc, ops, info, own, k, chains[k]);
      ChainKept(desc, ops, info, own, desc, ops, info', own', k, chains[k]);
    }
    forall i | 0 <= i < NUM ensures OwnOk(own', free, desc, chains - {h}, i) {
      assert OwnOk(own, free, desc, chains, i);
      OwnDrop(own, free, desc, chains, h, i);
    }
  }

  lemma OwnDrop(own: seq<nat>, free: seq<bool>, desc: seq<Desc>, chains: map<nat, Chain>, h: nat, i: nat)
    requires |own| == |free| == |desc| == NUM && i < NUM && h < NUM && OwnOk(own, free, desc, chains, i)
    requires h in chains && chains[h].i1 < NUM && chains[h].i2 < NUM && own[h] == own[chains[h].i1] ==
             own[chains[h].i2] == h
    ensures var c := chains[h]; OwnOk(own[h := MINE][c.i1 := MINE][c.i2 := MINE], free, desc, chains - {h}, i)
  {
  }

  // ---------- Free descriptors ----------

  function FreeCount(free: seq<bool>): nat {
    if free == [] then 0 else (if free[0] then 1 else 0) + FreeCount(free[1..])
  }

  lemma {:induction false} FreeCountSet(free: seq<bool>, i: nat, x: bool)
    requires i < |free|
    ensures FreeCount(free[i := x]) == FreeCount(free) - (if free[i] then 1 else 0) + if x then 1 else 0
  {
    if i == 0 {
      assert free[i := x][1..] == free[1..];
    } else {
      assert free[i := x][1..] == free[1..][i - 1 := x];
      FreeCountSet(free[1..], i - 1, x);
    }
  }

  lemma {:induction false} FreeCountNone(free: seq<bool>)
    requires forall i :: 0 <= i < |free| ==> !free[i]
    ensures FreeCount(free) == 0
  {
    if free != [] {
      FreeCountNone(free[1..]);
    }
  }

  datatype Three = NoThree | Three(i0: nat, i1: nat, i2: nat)

  /** The rings, what has gone through them, and the buffers. */
  datatype Rest = Rest(availRing: seq<nat>, submitted: seq<nat>, taken: nat,
                       usedRing: seq<nat>, reported: seq<nat>, seen: nat, busy: set<nat>, working: set<nat>)

  ghost predicate Orderly(r: Rest, chains: map<nat, Chain>) {
    && Ring(r.availRing, r.submitted, r.taken, chains, Submitted) && Ring(r.usedRing, r.reported, r.seen, chains,
        Reported)
    && BusyOk(chains, r.busy) && WorkOk(chains, r.working)
  }

  lemma TakeOk(r: Rest, chains: map<nat, Chain>)
    requires Orderly(r, chains) && r.taken < |r.submitted|
    ensures |r.availRing| == NUM && r.availRing[Slot(r.taken)] == r.submitted[r.taken]
    ensures var h := r.submitted[r.taken];
      && h < NUM && h in chains && chains[h].phase == Submitted
      && Orderly(r.(taken := r.taken + 1, working := r.working + {h}), WithPhase(chains, h, Taken))
  {
    hide Ring, Slot, BusyOk, WorkOk;
    var h := r.submitted[r.taken];
    RingSize(r.availRing, r.submitted, r.taken, chains, Submitted);
    RingTake(r.availRing, r.submitted, r.taken, chains, Submitted, Taken);
    RingOther(r.usedRing, r.reported, r.seen, chains, Reported, h, Taken);
    BusyStep(chains, r.busy, h, Taken);
    WorkStep(chains, r.working, h, Taken);
  }

  lemma CompleteOk(r: Rest, chains: map<nat, Chain>, h: nat)
    requires Orderly(r, chains) && h in r.working && h < NUM && |chains| <= 2
    ensures h in chains && chains[h].phase == Taken && |r.usedRing| == NUM
    ensures Orderly(r.(usedRing := r.usedRing[Slot(|r.reported|) := h], reported := r.reported + [h], working :=
            r.working - {h}),
                    WithPhase(chains, h, Reported))
  {
    hide Ring, Slot, BusyOk, WorkOk, WithPhase;
    WorkingAt(chains, r.working, h);
    RingShort(r.usedRing, r.reported, r.seen, chains, Reported);
    RingSize(r.usedRing, r.reported, r.seen, chains, Reported);
    RingOther(r.availRing, r.submitted, r.taken, chains, Submitted, h, Reported);
    RingReport(r.usedRing, r.reported, r.seen, chains, h);
    BusyStep(chains, r.busy, h, Reported);
    WorkStep(chains, r.working, h, Reported);
  }

  lemma SeeOk(free: seq<bool>, desc: seq<Desc>, ops: seq<Op>, info: seq<Info>, own: seq<nat>, r: Rest, chains: map<nat,
        Chain>)
    requires Queue(free, desc, ops, info, own, chains) && Orderly(r, chains) && r.seen < |r.reported|
    ensures |r.usedRing| == NUM && r.usedRing[Slot(r.seen)] == r.reported[r.seen]
    ensures var h := r.reported[r.seen];
      && h < NUM == |info| && h in chains && chains[h].phase == Reported && info[h] == Info(chains[h].b, 0)
      && Queue(free, desc, ops, info, own, WithPhase(chains, h, Seen))
      && Orderly(r.(seen := r.seen + 1, busy := r.busy - {chains[h].b}), WithPhase(chains, h, Seen))
  {
    hide Ring, Slot, BusyOk, WorkOk, Queue, WithPhase;
    var h := r.reported[r.seen];
    RingSize(r.usedRing, r.reported, r.seen, chains, Reported);
    RingTake(r.usedRing, r.reported, r.seen, chains, Reported, Seen);
    SameInfo(free, desc, ops, info, own, chains, h);
    RingOther(r.availRing, r.submitted, r.taken, chains, Submitted, h, Seen);
    QueuePhase(free, desc, ops, info, own, chains, h, Seen, info);
    BusyGone(free, desc, ops, info, own, chains, r.busy, h);
    WorkStep(chains, r.working, h, Seen);
  }

  class Disk {
    var free: seq<bool>
    var desc: seq<Desc>
    var ops: seq<Op>
    var info: seq<Info>
    var availRing: seq<nat>
    var availIdx: nat
    var usedRing: seq<nat>
    var usedIdx: nat             // the device's
    var seenIdx: nat             // used_idx, the driver's
    var devIdx: nat              // how far the device has come in the avail ring
    var working: set<nat>        // the requests the device has taken and not reported
    var busy: set<nat>           // buffers with b->disk set
    ghost var own: seq<nat>
    ghost var chains: map<nat, Chain>
    ghost var submitted: seq<nat>
    ghost var taken: nat
    ghost var reported: seq<nat>
    ghost var seen: nat

    ghost function Now(): Rest
      reads this
    {
      Rest(availRing, submitted, taken, usedRing, reported, seen, busy, working)
    }

    /** What holds at every moment, also inside the driver's critical sections. */
    ghost predicate Inv()
      reads this
    {
      Queue(free, desc, ops, info, own, chains) && Orderly(Now(), chains) && Indices()
    }

    /** What holds while vdisk_lock is free: every descriptor in use belongs to a chain. */
    ghost predicate Quiet()
      reads this
    {
      Inv() && NoneMine(own)
    }

    ghost predicate Indices()
      reads this
    {
      availIdx == Low16(|submitted|) && devIdx == Low16(taken) && usedIdx == Low16(|reported|) && seenIdx == Low16(seen)
    }

    constructor ()
      ensures Quiet() && chains == map[] && busy == {}
    {
      free, desc := seq(NUM, i => true), seq(NUM, i => ZERO);
      ops, info := seq(NUM, i => Op(false, 0)), seq(NUM, i => Info(0, 0));
      availRing, usedRing := seq(NUM, i => 0), seq(NUM, i => 0);
      availIdx, usedIdx, seenIdx, devIdx, working, busy := 0, 0, 0, 0, {}, {};
      own, chains, submitted, taken, reported, seen := seq(NUM, i => NONE), map[], [], 0, [], 0;
    }

    // ---------- The device ----------

    /** The device takes the next request from the avail ring; it finds what the driver put there. */
    method TakeRequest() returns (h: nat)
      requires Inv() && devIdx != availIdx
      modifies this`devIdx, this`taken, this`chains, this`working
      ensures Inv() && h < NUM && h in old(chains) && old(chains)[h].phase == Submitted
              && chains == WithPhase(old(chains), h, Taken)
      ensures old(taken) < |submitted| && h == submitted[old(taken)]
      ensures |desc| == |ops| == NUM && Follow(desc, ops, h) == Request(chains[h].b, chains[h].write, chains[h].sector)
    {
      hide Slot, Low16, Queue, Orderly, Follow;
      IndexBehind(Now(), free, desc, ops, info, own, chains);
      TakeOk(Now(), chains);
      RingIndex(taken);
      h := availRing[Slot(devIdx)];
      SameInfo(free, desc, ops, info, own, chains, h);
      QueuePhase(free, desc, ops, info, own, chains, h, Taken, info);
      chains := WithPhase(chains, h, Taken);
      working := working + {h};
      taken := taken + 1;
      devIdx := Low16(devIdx + 1);
    }

    /** The device reports a request it has carried out, in whatever order. */
    method Complete(h: nat)
      requires Inv() && h in working
      modifies this`info, this`usedRing, this`usedIdx, this`reported, this`chains, this`working
      ensures h in old(chains) && old(chains)[h].phase == Taken
      ensures Inv() && chains == WithPhase(old(chains), h, Reported) && reported == old(reported) + [h]
      ensures h < NUM && |info| == |old(info)| == NUM && info == old(info)[h := Info(old(info)[h].b, 0)]
    {
      hide WithPhase, Slot, Low16, Queue, Orderly, Follow;
      TwoInFlight(free, desc, ops, info, own, chains);
      WorkAt(Now(), chains, h);
      QueueReport(free, desc, ops, info, own, chains, h);
      CompleteOk(Now(), chains, h);
      RingIndex(|reported|);
      info := info[h := Info(info[h].b, 0)];
      usedRing := usedRing[Slot(usedIdx) := h];
      usedIdx := Low16(usedIdx + 1);
      chains := WithPhase(chains, h, Reported);
      working := working - {h};
      reported := reported + [h];
    }

    /** Any number of steps of the device: each entry names a request to report, if it can be, and otherwise the
        next request is taken, if there is one. */
    method Device(todo: seq<nat>)
      requires Inv()
      modifies this`info, this`usedRing, this`usedIdx, this`reported, this`devIdx, this`taken, this`chains, this`working
      ensures Inv() && Advanced(old(chains), chains) && MineKept(own, old(info), info) && old(reported) <= reported
    {
      hide Queue, Orderly, Low16, Advanced, MineKept;
      AdvancedSelf(chains);
      Sizes(free, desc, ops, info, own, chains);
      MineSelf(own, info);
      var k := 0;
      while k < |todo|
        invariant k <= |todo| && Inv() && Advanced(old(chains), chains) && MineKept(own, old(info), info)
                  && old(reported) <= reported
      {
        ghost var before, info0 := chains, info;
        if todo[k] in working {
          NotMine(free, desc, ops, info, own, chains);
          Complete(todo[k]);
          AdvancedStep(old(chains), before, todo[k], Reported);
          MineStep(own, old(info), info0, todo[k], 0);
        } else if devIdx != availIdx {
          var h := TakeRequest();
          AdvancedStep(old(chains), before, h, Taken);
        }
        k := k + 1;
      }
    }

    // ---------- Descriptors ----------

    /** alloc_desc: the first free descriptor, which is the driver's from now on, or NONE. */
    method AllocDesc(todo: seq<nat>) returns (i: nat)
      requires Inv()
      modifies this`free, this`own, this`info, this`usedRing, this`usedIdx, this`reported, this`devIdx, this`taken,
      this`chains, this`working
      ensures Inv() && Advanced(old(chains), chains) && |free| == |old(free)| == |own| == |old(own)| == NUM && i <= NUM
      ensures i == NUM ==> free == old(free) && own == old(own) && FreeCount(free) == 0
      ensures i < NUM ==>
                && old(free)[i] && (forall k :: 0 <= k < i ==> !old(free)[k]) && free == old(free)[i := false]
                && old(own)[i] == NONE && own == old(own)[i := MINE] && FreeCount(free) == FreeCount(old(free)) - 1
    {
      hide FreeCount, Queue, Orderly, Low16, Advanced;
      Sizes(free, desc, ops, info, own, chains);
      AdvancedSelf(chains);
      i := 0;
      while i < NUM
        invariant 0 <= i <= NUM && Inv() && unchanged(this) && forall k :: 0 <= k < i ==> !free[k]
      {
        if free[i] {
          FreeCountSet(free, i, false);
          FreeNone(free, desc, ops, info, own, chains, i);
          QueueMine(free, desc, ops, info, own, chains, i, free[i := false], desc, ops, info, own[i := MINE]);
          free := free[i := false];
          own := own[i := MINE];
          Device(todo);
          return;
        }
        i := i + 1;
      }
      FreeCountNone(free);
    }

    /** free_desc; false is one of its panics. */
    method FreeDesc(i: nat, todo: seq<nat>) returns (ok: bool)
      requires Inv() && |own| == NUM && (i < NUM && !free[i] ==> own[i] == MINE)
      modifies this`free, this`own, this`desc, this`info, this`usedRing, this`usedIdx, this`reported, this`devIdx,
      this`taken, this`chains, this`working
      ensures Inv() && Advanced(old(chains), chains) && |free| == |old(free)| == |desc| == |old(desc)| == |old(own)| ==
              NUM
      ensures ok == (i < NUM && !old(free)[i])
      ensures !ok ==> free == old(free) && desc == old(desc) && own == old(own)
      ensures ok ==>
                free == old(free)[i := true] && desc == old(desc)[i := ZERO] && own == old(own)[i := NONE]
                && FreeCount(free) == FreeCount(old(free)) + 1
    {
      hide FreeCount, Queue, Orderly, Low16, Advanced;
      Sizes(free, desc, ops, info, own, chains);
      AdvancedSelf(chains);
      if i >= NUM || free[i] {
        return false;
      }
      FreeCountSet(free, i, true);
      QueueMine(free, desc, ops, info, own, chains, i, free[i := true], desc[i := ZERO], ops, info, own[i := NONE]);
      desc := desc[i := ZERO];
      free := free[i := true];
      own := own[i := NONE];
      Device(todo);
      ok := true;
    }

    /** alloc3_desc: three descriptors if three are free, and otherwise everything as it was. */
    method Alloc3(todo: seq<seq<nat>>) returns (r: Three)
      requires Inv()
      modifies this`free, this`own, this`desc, this`info, this`usedRing, this`usedIdx, this`reported, this`devIdx,
      this`taken, this`chains, this`working
      ensures Inv() && Advanced(old(chains), chains)
      ensures r.NoThree? <==> FreeCount(old(free)) < 3
      ensures r.NoThree? ==> free == old(free) && own == old(own)
      ensures r.Three? ==>
                && InHand(own, r.i0, r.i1, r.i2) && |old(own)| == |old(free)| == NUM
                && old(own)[r.i0] == old(own)[r.i1] == old(own)[r.i2] == NONE
                    && own == old(own)[r.i0 := MINE][r.i1 := MINE][r.i2 := MINE]
                && free == old(free)[r.i0 := false][r.i1 := false][r.i2 := false]
    {
      hide FreeCount, Queue, Orderly, Low16, Advanced;
      r := NoThree;
      ghost var c0 := chains;
      var i0 := AllocDesc(Turn(todo, 0));
      if i0 == NUM {
        return;
      }
      ghost var c1 := chains;
      var i1 := AllocDesc(Turn(todo, 1));
      AdvancedTrans(c0, c1, chains);
      if i1 == NUM {
        ghost var c2 := chains;
        var ok := FreeDesc(i0, Turn(todo, 2));
        AdvancedTrans(c0, c2, chains);
        return;
      }
      ghost var c2 := chains;
      var i2 := AllocDesc(Turn(todo, 2));
      AdvancedTrans(c0, c2, chains);
      if i2 == NUM {
        ghost var c3 := chains;
        var ok := FreeDesc(i0, Turn(todo, 3));
        AdvancedTrans(c0, c3, chains);
        ghost var c4 := chains;
        ok := FreeDesc(i1, Turn(todo, 4));
        AdvancedTrans(c0, c4, chains);
        return;
      }
      r := Three(i0, i1, i2);
    }

    // ---------- Submitting a request ----------

    /** The driver fills in a descriptor of its own. */
    method PutDesc(i: nat, d: Desc, todo: seq<nat>)
      requires Inv() && i < |own| && own[i] == MINE
      modifies this`desc, this`info, this`usedRing, this`usedIdx, this`reported, this`devIdx, this`taken, this`chains,
      this`working
      ensures Inv() && Advanced(old(chains), chains) && MineKept(own, old(info), info) && i < |old(desc)|
              && desc == old(desc)[i := d]
    {
      hide Queue, Orderly, Low16, Advanced, MineKept;
      Sizes(free, desc, ops, info, own, chains);
      NotFree(free, desc, ops, info, own, chains, i);
      QueueMine(free, desc, ops, info, own, chains, i, free, desc[i := d], ops, info, own);
      desc := desc[i := d];
      Device(todo);
    }

    /** The driver fills in the header of a request. */
    method PutOp(i: nat, o: Op, todo: seq<nat>)
      requires Inv() && i < |own| && own[i] == MINE
      modifies this`ops, this`info, this`usedRing, this`usedIdx, this`reported, this`devIdx, this`taken, this`chains,
      this`working
      ensures Inv() && Advanced(old(chains), chains) && MineKept(own, old(info), info) && i < |old(ops)|
              && ops == old(ops)[i := o]
    {
      hide Queue, Orderly, Low16, Advanced, MineKept;
      Sizes(free, desc, ops, info, own, chains);
      NotFree(free, desc, ops, info, own, chains, i);
      QueueMine(free, desc, ops, info, own, chains, i, free, desc, ops[i := o], info, own);
      ops := ops[i := o];
      Device(todo);
    }

    /** The driver fills in the record of a request. */
    method PutInfo(i: nat, x: Info, todo: seq<nat>)
      requires Inv() && i < |own| && own[i] == MINE
      modifies this`info, this`usedRing, this`usedIdx, this`reported, this`devIdx, this`taken, this`chains, this`working
      ensures Inv() && Advanced(old(chains), chains) && i < |info| && info[i] == x
    {
      hide Queue, Orderly, Low16, Advanced;
      Sizes(free, desc, ops, info, own, chains);
      NotFree(free, desc, ops, info, own, chains, i);
      QueueMine(free, desc, ops, info, own, chains, i, free, desc, ops, info[i := x], own);
      info := info[i := x];
      Device(todo);
    }

    /** b->disk = 1. */
    method SetBusy(b: nat, todo: seq<nat>)
      requires Inv() && Unused(chains, b)
      modifies this`busy, this`info, this`usedRing, this`usedIdx, this`reported, this`devIdx, this`taken, this`chains,
      this`working
      ensures Inv() && Advanced(old(chains), chains) && MineKept(own, old(info), info) && busy == old(busy) + {b}
    {
      hide Queue, Orderly, Low16, Advanced, MineKept, Unused;
      BusyMore(Now(), chains, b);
      busy := busy + {b};
      Device(todo);
    }

    /** The head goes into the avail ring, where the device does not look yet. */
    method PutAvail(h: nat, todo: seq<nat>)
      requires Inv()
      modifies this`availRing, this`info, this`usedRing, this`usedIdx, this`reported, this`devIdx, this`taken,
      this`chains, this`working
      ensures Inv() && Advanced(old(chains), chains) && MineKept(own, old(info), info)
      ensures |availRing| == NUM && availRing[Slot(availIdx)] == h
    {
      hide Queue, Orderly, Low16, Slot, Advanced, MineKept;
      TwoInFlight(free, desc, ops, info, own, chains);
      RingIndex(|submitted|);
      SpareOk(Now(), chains, h);
      availRing := availRing[Slot(availIdx) := h];
      Device(todo);
    }

    /** The increase of the index gives the chain to the device. */
    method Announce(h: nat, ghost c: Chain)
      requires Inv() && Formatted(desc, ops, info, own, h, c) && Unused(chains, c.b) && c.b in busy
      requires |availRing| == NUM && availRing[Slot(availIdx)] == h
      modifies this`availIdx, this`submitted, this`own, this`chains
      ensures Inv() && submitted == old(submitted) + [h] && h !in old(chains) && chains == old(chains)[h := c]
      ensures |old(own)| == NUM && c.i1 < NUM && c.i2 < NUM && own == old(own)[h := h][c.i1 := h][c.i2 := h]
    {
      hide Queue, Orderly, Low16, Slot, Formatted, Unused;
      FormattedAt(desc, ops, info, own, h, c);
      QueueAdd(free, desc, ops, info, own, chains, h, c);
      TwoInFlight(free, desc, ops, info, own, chains);
      RingIndex(|submitted|);
      SubmitOk(Now(), chains, h, c);
      own := own[h := h][c.i1 := h][c.i2 := h];
      chains := chains[h := c];
      submitted := submitted + [h];
      availIdx := Low16(availIdx + 1);
    }

    /** The three descriptors, the header and the record of a request are filled in, one after the other. */
    method Format(h: nat, i1: nat, i2: nat, b: nat, write: bool, sector: nat, todo: seq<seq<nat>>)
      requires Inv() && InHand(own, h, i1, i2) && Unused(chains, b)
      modifies this`desc, this`ops, this`busy, this`info, this`usedRing, this`usedIdx, this`reported, this`devIdx,
      this`taken, this`chains, this`working
      ensures Inv() && Advanced(old(chains), chains) && Unused(chains, b) && busy == old(busy) + {b}
      ensures Formatted(desc, ops, info, own, h, Chain(i1, i2, b, write, sector, Submitted))
    {
      hide Queue, Orderly, Indices, Low16, Slot, Advanced, MineKept, Unused;
      ghost var c0 := chains;
      FormatFirst(h, i1, i2, b, write, sector, todo);
      ghost var c3 := chains;
      Sizes(free, desc, ops, info, own, chains);
      PutInfo(h, Info(info[h].b, 0xff), Turn(todo, 3));
      StillUnused(c0, c3, chains, b);
      ghost var c4, info4 := chains, info;
      PutDesc(i2, Desc(StatusOf(h), 1, WRITE, 0), Turn(todo, 4));
      StillUnused(c0, c4, chains, b);
      MineAt(own, info4, info, h);
      ghost var c5, info5 := chains, info;
      SetBusy(b, Turn(todo, 5));
      StillUnused(c0, c5, chains, b);
      MineAt(own, info5, info, h);
      ghost var c6 := chains;
      PutInfo(h, Info(b, info[h].status), Turn(todo, 6));
      StillUnused(c0, c6, chains, b);
      Sizes(free, desc, ops, info, own, chains);
    }

    method FormatFirst(h: nat, i1: nat, i2: nat, b: nat, write: bool, sector: nat, todo: seq<seq<nat>>)
      requires Inv() && InHand(own, h, i1, i2) && Unused(chains, b)
      modifies this`desc, this`ops, this`info, this`usedRing, this`usedIdx, this`reported, this`devIdx, this`taken,
      this`chains, this`working
      ensures Inv() && Advanced(old(chains), chains) && Unused(chains, b) && |ops| == |desc| == NUM
              && ops[h] == Op(write, sector)
      ensures desc[h] == Desc(OpHeader(h), 16, NEXT, i1) && desc[i1] == Desc(BufData(b), BSIZE,
              (if write then 0 else WRITE) + NEXT, i2)
    {
      hide Queue, Orderly, Indices, Low16, Slot, Advanced, MineKept, Unused;
      ghost var c0 := chains;
      AdvancedSelf(chains);
      PutOp(h, Op(write, sector), Turn(todo, 0));
      StillUnused(c0, c0, chains, b);
      ghost var c1 := chains;
      PutDesc(h, Desc(OpHeader(h), 16, NEXT, i1), Turn(todo, 1));
      StillUnused(c0, c1, chains, b);
      ghost var c2 := chains;
      PutDesc(i1, Desc(BufData(b), BSIZE, (if write then 0 else WRITE) + NEXT, i2), Turn(todo, 2));
      StillUnused(c0, c2, chains, b);
      Sizes(free, desc, ops, info, own, chains);
    }

    /** virtio_disk_rw up to the notification: the request is in the avail ring, or there are not three free
        descriptors and nothing has changed but what the device does.  No other request has this buffer. */
    method Submit(b: nat, write: bool, sector: nat, todo: seq<seq<nat>>) returns (ok: bool)
      requires Quiet() && Unused(chains, b)
      modifies this
      ensures Quiet() && (ok <==> FreeCount(old(free)) >= 3)
      ensures !ok ==>
                free == old(free) && own == old(own) && submitted == old(submitted) && busy == old(busy)
                && Advanced(old(chains), chains)
      ensures ok ==>
                && |submitted| == |old(submitted)| + 1 && submitted[..|old(submitted)|] == old(submitted)
                    && busy == old(busy) + {b}
                && var h := submitted[|old(submitted)|];
                h !in old(chains) && h in chains && SameRequest(chains[h], b, write, sector)
                    && Advanced(old(chains), chains - {h})
    {
      hide Queue, Orderly, Low16, Slot, Advanced, MineKept, Unused, FreeCount, NoneMine, Formatted;
      ghost var c0 := chains;
      AdvancedSelf(chains);
      var idx := Alloc3(todo);
      if idx.NoThree? {
        return false;
      }
      StillUnused(c0, c0, chains, b);
      Enqueue(idx.i0, idx.i1, idx.i2, b, write, sector, todo, c0);
      MineBack(old(own), idx.i0, idx.i1, idx.i2, idx.i0);
      ok := true;
    }

    method Enqueue(h: nat, i1: nat, i2: nat, b: nat, write: bool, sector: nat, todo: seq<seq<nat>>, ghost c0: map<nat,
          Chain>)
      requires Inv() && InHand(own, h, i1, i2) && Unused(chains, b) && Advanced(c0, chains)
      modifies this`desc, this`ops, this`busy, this`info, this`usedRing, this`usedIdx, this`reported, this`devIdx,
      this`taken, this`chains, this`working,
               this`own, this`availRing, this`availIdx, this`submitted
      ensures Inv() && submitted == old(submitted) + [h] && busy == old(busy) + {b} && |old(own)| == NUM
              && own == old(own)[h := h][i1 := h][i2 := h]
      ensures h !in c0 && h in chains && chains[h] == Chain(i1, i2, b, write, sector, Submitted)
              && Advanced(c0, chains - {h})
    {
      hide Queue, Orderly, Low16, Slot, Advanced, MineKept, Unused, Formatted;
      ghost var c1 := chains;
      Format(h, i1, i2, b, write, sector, Later(todo, 5));
      StillUnused(c0, c1, chains, b);
      ghost var c2, info2 := chains, info;
      PutAvail(h, Turn(todo, 12));
      StillUnused(c0, c2, chains, b);
      FormattedStill(desc, ops, info2, info, own, h, Chain(i1, i2, b, write, sector, Submitted));
      ghost var c3 := chains;
      Announce(h, Chain(i1, i2, b, write, sector, Submitted));
      AdvancedKeys(c0, c3);
      assert chains - {h} == c3;
    }

    // ---------- Completion ----------

    /** One round of virtio_disk_intr; false is its panic.  The device goes on while the entry is read. */
    method SeeOne(todo: seq<nat>) returns (ok: bool)
      requires Inv() && seenIdx != usedIdx
      modifies this`busy, this`seenIdx, this`seen, this`info, this`usedRing, this`usedIdx, this`reported, this`devIdx,
      this`taken, this`chains, this`working
      ensures ok && Inv() && old(seen) < |old(reported)| && seen == old(seen) + 1 && old(reported) <= reported
      ensures var h := old(reported)[old(seen)];
        && h in old(chains) && old(chains)[h].phase == Reported && busy == old(busy) - {old(chains)[h].b}
        && SawOne(old(chains), h, chains)
    {
      hide Slot, Low16, Queue, Orderly, Advanced, SawOne;
      IndexBehind(Now(), free, desc, ops, info, own, chains);
      SeeOk(free, desc, ops, info, own, Now(), chains);
      RingIndex(seen);
      var id := usedRing[Slot(seenIdx)];
      ghost var c0 := chains;
      Device(todo);
      AdvancedAt(c0, chains, id);
      SeeOk(free, desc, ops, info, own, Now(), chains);
      if info[id].status != 0 {
        return false;
      }
      var b := info[id].b;
      SawIt(c0, chains, id);
      busy := busy - {b};
      seenIdx := Low16(seenIdx + 1);
      chains := WithPhase(chains, id, Seen);
      seen := seen + 1;
      ok := true;
    }

    /** virtio_disk_intr, while the device reports more requests: the loop ends, because none is submitted meanwhile;
        every request reported by then has been seen, in order, and the status of each is 0. */
    method Intr(todo: seq<seq<nat>>) returns (ok: bool)
      requires Quiet()
      modifies this`busy, this`seenIdx, this`seen, this`info, this`usedRing, this`usedIdx, this`reported, this`devIdx,
      this`taken, this`chains, this`working
      ensures ok && Quiet() && old(reported) <= reported && |old(reported)| <= seen == |reported|
      ensures Progressed(old(chains), chains)
      ensures forall h :: h in chains ==> chains[h].phase != Reported
      ensures forall h :: h in chains && old(chains)[h].phase == Reported ==> chains[h].phase == Seen
    {
      hide Slot, Low16, Queue, Orderly, Progressed, SawOne;
      ok := true;
      ProgressedSelf(chains);
      IndexBehind(Now(), free, desc, ops, info, own, chains);
      var turn := 0;
      while seenIdx != usedIdx
        invariant ok && Inv() && Progressed(old(chains), chains) && old(reported) <= reported && seen <= |reported|
                  && (seenIdx == usedIdx <==> seen == |reported|)
        decreases |Unseen(chains)|
      {
        ghost var before := chains;
        ghost var h := reported[seen];
        ok := SeeOne(Turn(todo, turn));
        FewerUnseen(before, h, chains);
        ProgressedSaw(old(chains), before, h, chains);
        IndexBehind(Now(), free, desc, ops, info, own, chains);
        turn := turn + 1;
      }
      NoneReported(Now(), chains);
      ProgressedAt(old(chains), chains);
    }

    /** The end of virtio_disk_rw, which waits until the buffer is not busy: the request has completed, and its
        three descriptors are free again.  No panic of free_desc. */
    method Finish(h: nat, todo: seq<seq<nat>>) returns (ok: bool)
      requires Quiet() && h in chains && chains[h].b !in busy
      modifies this`info, this`free, this`desc, this`own, this`usedRing, this`usedIdx, this`reported, this`devIdx,
      this`taken, this`chains, this`working
      ensures ok && Quiet() && old(chains)[h].phase == Seen && Advanced(old(chains) - {h}, chains)
              && FreeCount(free) == FreeCount(old(free)) + 3
    {
      hide Slot, Low16, Queue, Orderly, FreeCount, Advanced, NoneMine;
      FinishOk(Now(), chains, h);
      SameInfo(free, desc, ops, info, own, chains, h);
      ghost var c, own0 := chains[h], own;
      QueueDrop(free, desc, ops, info, own, chains, h, info[h := Info(0, info[h].status)]);
      info := info[h := Info(0, info[h].status)];
      own := own[h := MINE][c.i1 := MINE][c.i2 := MINE];
      chains := chains - {h};
      ok := FreeChain(h, c, todo);
      MineGone(own0, h, c.i1, c.i2);
    }

    /** free_chain, on a chain of three. */
    method FreeChain(h: nat, ghost c: Chain, todo: seq<seq<nat>>) returns (ok: bool)
      requires Inv() && InHand(own, h, c.i1, c.i2) && |desc| == NUM
      requires desc[h].flags % 2 == 1 && desc[h].next == c.i1 && desc[c.i1].flags % 2 == 1 && desc[c.i1].next == c.i2
               && desc[c.i2].flags % 2 == 0
      modifies this`free, this`desc, this`own, this`info, this`usedRing, this`usedIdx, this`reported, this`devIdx,
      this`taken, this`chains, this`working
      ensures ok && Inv() && Advanced(old(chains), chains) && FreeCount(free) == FreeCount(old(free)) + 3
      ensures own == old(own)[h := NONE][c.i1 := NONE][c.i2 := NONE]
    {
      hide FreeCount, Queue, Orderly, Low16, Advanced;
      AdvancedSelf(chains);
      Sizes(free, desc, ops, info, own, chains);
      var i, turn := h, 0;
      ok := true;
      while true
        invariant 0 <= turn <= 2 && ok && Inv() && Advanced(old(chains), chains) && |free| == |desc| == |own| ==
                  |old(own)| == NUM
        invariant i == (if turn == 0 then h else if turn == 1 then c.i1 else c.i2)
                  && FreeCount(free) == FreeCount(old(free)) + turn
        invariant own == (if turn == 0 then old(own) else if turn == 1 then old(own)[h := NONE]
                  else old(own)[h := NONE][c.i1 := NONE])
        invariant forall k :: 0 <= k < NUM && own[k] == MINE ==> desc[k] == old(desc)[k]
        decreases 3 - turn
      {
        var flag, nxt := desc[i].flags, desc[i].next;
        ghost var before := chains;
        NotFree(free, desc, ops, info, own, chains, i);
        ok := FreeDesc(i, Turn(todo, turn));
        AdvancedTrans(old(chains), before, chains);
        Sizes(free, desc, ops, info, own, chains);
        if flag % 2 == 1 {
          i := nxt;
          turn := turn + 1;
        } else {
          break;
        }
      }
    }
  }

  // ---------- What the device may do ----------

  function Turn(todo: seq<seq<nat>>, k: nat): seq<nat> {
    if k < |todo| then todo[k] else []
  }

  function Later(todo: seq<seq<nat>>, k: nat): seq<seq<nat>> {
    if k <= |todo| then todo[k..] else []
  }

  /** The device takes and reports requests, and nothing else. */
  ghost predicate Moved(c: Chain, c': Chain) {
    && c' == c.(phase := c'.phase)
    && (c'.phase == c.phase || (c.phase == Submitted && c'.phase == Taken)
        || ((c.phase == Submitted || c.phase == Taken) && c'.phase == Reported))
  }

  ghost predicate Advanced(chains: map<nat, Chain>, chains': map<nat, Chain>) {
    chains'.Keys == chains.Keys && forall h :: h in chains ==> Moved(chains[h], chains'[h])
  }

  lemma AdvancedSelf(chains: map<nat, Chain>)
    ensures Advanced(chains, chains)
  {
  }

  lemma AdvancedTrans(a: map<nat, Chain>, b: map<nat, Chain>, c: map<nat, Chain>)
    requires Advanced(a, b) && Advanced(b, c)
    ensures Advanced(a, c)
  {
  }

  lemma AdvancedStep(a: map<nat, Chain>, b: map<nat, Chain>, h: nat, phase: Phase)
    requires Advanced(a, b) && h in b && ((b[h].phase == Submitted && phase == Taken)
             || (b[h].phase == Taken && phase == Reported))
    ensures Advanced(a, WithPhase(b, h, phase))
  {
  }

  lemma AdvancedKeys(a: map<nat, Chain>, b: map<nat, Chain>)
    requires Advanced(a, b)
    ensures a.Keys == b.Keys
  {
  }

  lemma AdvancedAt(a: map<nat, Chain>, b: map<nat, Chain>, h: nat)
    requires Advanced(a, b) && h in a && a[h].phase == Reported
    ensures h in b && b[h] == a[h]
  {
  }

  lemma StillUnused(a: map<nat, Chain>, b: map<nat, Chain>, c: map<nat, Chain>, buf: nat)
    requires Advanced(a, b) && Advanced(b, c) && Unused(b, buf)
    ensures Advanced(a, c) && Unused(c, buf)
  {
  }

  /** The records of the driver's own descriptors are left alone. */
  ghost predicate MineKept(own: seq<nat>, info: seq<Info>, info': seq<Info>) {
    |info'| == |info| == |own| && forall i :: 0 <= i < |own| && own[i] == MINE ==> info'[i] == info[i]
  }

  lemma MineSelf(own: seq<nat>, info: seq<Info>)
    requires |own| == |info|
    ensures MineKept(own, info, info)
  {
  }

  lemma MineStep(own: seq<nat>, a: seq<Info>, b: seq<Info>, h: nat, status: nat)
    requires MineKept(own, a, b) && h < |b| && own[h] != MINE
    ensures MineKept(own, a, b[h := Info(b[h].b, status)])
  {
  }

  lemma MineAt(own: seq<nat>, a: seq<Info>, b: seq<Info>, h: nat)
    requires MineKept(own, a, b) && h < |own| && own[h] == MINE
    ensures h < |a| == |b| && a[h] == b[h]
  {
  }

  ghost predicate NoneMine(own: seq<nat>) {
    forall i :: 0 <= i < |own| ==> own[i] != MINE
  }

  lemma MineBack(own: seq<nat>, h: nat, i1: nat, i2: nat, x: nat)
    requires NoneMine(own) && h < |own| && i1 < |own| && i2 < |own| && x != MINE
    ensures NoneMine(own[h := MINE][i1 := MINE][i2 := MINE][h := x][i1 := x][i2 := x])
  {
  }

  lemma MineGone(own: seq<nat>, h: nat, i1: nat, i2: nat)
    requires NoneMine(own) && h < |own| && i1 < |own| && i2 < |own|
    ensures NoneMine(own[h := MINE][i1 := MINE][i2 := MINE][h := NONE][i1 := NONE][i2 := NONE])
  {
  }

  lemma Sizes(free: seq<bool>, desc: seq<Desc>, ops: seq<Op>, info: seq<Info>, own: seq<nat>, chains: map<nat, Chain>)
    requires Queue(free, desc, ops, info, own, chains)
    ensures |free| == |desc| == |ops| == |info| == |own| == NUM
  {
  }

  lemma FreeNone(free: seq<bool>, desc: seq<Desc>, ops: seq<Op>, info: seq<Info>, own: seq<nat>, chains: map<nat,
        Chain>, i: nat)
    requires Queue(free, desc, ops, info, own, chains) && i < NUM && free[i]
    ensures own[i] == NONE
  {
    assert OwnOk(own, free, desc, chains, i);
  }

  lemma NotFree(free: seq<bool>, desc: seq<Desc>, ops: seq<Op>, info: seq<Info>, own: seq<nat>, chains: map<nat, Chain>,
        i: nat)
    requires Queue(free, desc, ops, info, own, chains) && i < NUM && own[i] == MINE
    ensures !free[i]
  {
    assert OwnOk(own, free, desc, chains, i);
  }

  lemma NotMine(free: seq<bool>, desc: seq<Desc>, ops: seq<Op>, info: seq<Info>, own: seq<nat>, chains: map<nat, Chain>)
    requires Queue(free, desc, ops, info, own, chains)
    ensures forall h :: h in chains ==> h < |own| && own[h] != MINE
  {
    forall h | h in chains ensures h < |own| && own[h] != MINE {
      assert ChainOk(desc, ops, info, own, h, chains[h]);
    }
  }

  /** The device works on exactly the requests it has taken. */
  ghost predicate WorkOk(chains: map<nat, Chain>, working: set<nat>) {
    forall h :: h in working <==> h in chains && chains[h].phase == Taken
  }

  lemma WorkingAt(chains: map<nat, Chain>, working: set<nat>, h: nat)
    requires WorkOk(chains, working) && h in working
    ensures h in chains && chains[h].phase == Taken
  {
  }

  lemma WorkStep(chains: map<nat, Chain>, working: set<nat>, h: nat, phase: Phase)
    requires WorkOk(chains, working) && h in chains
    ensures phase == Taken ==> WorkOk(WithPhase(chains, h, phase), working + {h})
    ensures phase != Taken ==> WorkOk(WithPhase(chains, h, phase), working - {h})
    ensures phase != Taken && chains[h].phase != Taken ==> working - {h} == working
  {
  }

  lemma WorkAdd(chains: map<nat, Chain>, working: set<nat>, h: nat, c: Chain)
    requires WorkOk(chains, working) && h !in chains && c.phase == Submitted
    ensures WorkOk(chains[h := c], working)
  {
  }

  lemma WorkLess(chains: map<nat, Chain>, working: set<nat>, h: nat)
    requires WorkOk(chains, working) && h in chains && chains[h].phase != Taken
    ensures WorkOk(chains - {h}, working)
  {
  }

  lemma BusyOther(chains: map<nat, Chain>, busy: set<nat>, b: nat)
    requires BusyOk(chains, busy) && Unused(chains, b)
    ensures BusyOk(chains, busy + {b})
  {
  }

  /** The slot behind the newest entry holds nothing that is outstanding. */
  lemma RingSpare(ring: seq<nat>, log: seq<nat>, lo: nat, chains: map<nat, Chain>, phase: Phase, x: nat)
    requires Ring(ring, log, lo, chains, phase) && |log| - lo < NUM
    ensures Ring(ring[Slot(|log|) := x], log, lo, chains, phase)
  {
    forall i | lo <= i < |log| ensures ring[Slot(|log|) := x][Slot(i)] == log[i] {
      Slots(i, |log|);
    }
  }

  lemma FormattedAt(desc: seq<Desc>, ops: seq<Op>, info: seq<Info>, own: seq<nat>, h: nat, c: Chain)
    requires Formatted(desc, ops, info, own, h, c)
    ensures h < NUM == |own| && c.i1 < NUM && c.i2 < NUM && c.phase == Submitted
  {
  }

  lemma FormattedStill(desc: seq<Desc>, ops: seq<Op>, info: seq<Info>, info': seq<Info>, own: seq<nat>, h: nat,
        c: Chain)
    requires Formatted(desc, ops, info, own, h, c) && MineKept(own, info, info')
    ensures Formatted(desc, ops, info', own, h, c)
  {
  }

  // ---------- What the driver sees ----------

  /** Request h has been seen, and the device may have done some work. */
  ghost predicate SawOne(chains: map<nat, Chain>, h: nat, chains': map<nat, Chain>) {
    && h in chains && chains'.Keys == chains.Keys && chains'[h] == chains[h].(phase := Seen)
    && forall k :: k in chains && k != h ==> Moved(chains[k], chains'[k])
  }

  lemma SawIt(chains: map<nat, Chain>, chains': map<nat, Chain>, h: nat)
    requires Advanced(chains, chains') && h in chains && h in chains' && chains'[h] == chains[h]
    ensures SawOne(chains, h, WithPhase(chains', h, Seen))
  {
  }

  /** Requests move on in the order of the phases, and keep what they are. */
  ghost predicate Onwards(c: Chain, c': Chain) {
    c' == c.(phase := c'.phase) && Rank(c.phase) <= Rank(c'.phase)
  }

  function Rank(phase: Phase): nat {
    match phase
    case Submitted => 0
    case Taken => 1
    case Reported => 2
    case Seen => 3
  }

  ghost predicate Progressed(chains: map<nat, Chain>, chains': map<nat, Chain>) {
    chains'.Keys == chains.Keys && forall h :: h in chains ==> Onwards(chains[h], chains'[h])
  }

  lemma ProgressedSelf(chains: map<nat, Chain>)
    ensures Progressed(chains, chains)
  {
  }

  lemma ProgressedSaw(a: map<nat, Chain>, b: map<nat, Chain>, h: nat, c: map<nat, Chain>)
    requires Progressed(a, b) && SawOne(b, h, c)
    ensures Progressed(a, c)
  {
  }

  lemma ProgressedAt(a: map<nat, Chain>, b: map<nat, Chain>)
    requires Progressed(a, b) && forall h :: h in b ==> b[h].phase != Reported
    ensures a.Keys == b.Keys && forall h :: h in b && a[h].phase == Reported ==> b[h].phase == Seen
  {
  }

  ghost function Unseen(chains: map<nat, Chain>): set<nat> {
    set h | h in chains && chains[h].phase != Seen
  }

  lemma FewerUnseen(chains: map<nat, Chain>, h: nat, chains': map<nat, Chain>)
    requires SawOne(chains, h, chains') && chains[h].phase == Reported
    ensures |Unseen(chains')| < |Unseen(chains)|
  {
    assert Unseen(chains') == Unseen(chains) - {h};
  }

  ghost predicate SameRequest(c: Chain, b: nat, write: bool, sector: nat) {
    c.b == b && c.write == write && c.sector == sector && c.phase == Submitted
  }

  /** A buffer is busy until the driver has seen its request completed. */
  ghost predicate BusyOk(chains: map<nat, Chain>, busy: set<nat>) {
    forall h :: h in chains ==> (chains[h].b in busy <==> chains[h].phase != Seen)
  }

  lemma RingNew(ring: seq<nat>, log: seq<nat>, lo: nat, chains: map<nat, Chain>, phase: Phase, h: nat, c: Chain)
    requires Ring(ring, log, lo, chains, phase) && h !in chains && c.phase != phase
    ensures Ring(ring, log, lo, chains[h := c], phase)
  {
  }

  lemma BusyAdd(chains: map<nat, Chain>, busy: set<nat>, h: nat, c: Chain)
    requires BusyOk(chains, busy) && c.phase != Seen && c.b in busy
    ensures BusyOk(chains[h := c], busy)
  {
  }

  /** The 16-bit index finds the same ring entry as the count. */
  lemma RingIndex(n: nat)
    ensures Slot(Low16(n)) == Slot(n) && Low16(Low16(n) + 1) == Low16(n + 1)
  {
  }

  lemma RingSize(ring: seq<nat>, log: seq<nat>, lo: nat, chains: map<nat, Chain>, phase: Phase)
    requires Ring(ring, log, lo, chains, phase)
    ensures |ring| == NUM && lo <= |log|
  {
  }

  lemma SameInfo(free: seq<bool>, desc: seq<Desc>, ops: seq<Op>, info: seq<Info>, own: seq<nat>, chains: map<nat,
        Chain>, h: nat)
    requires Queue(free, desc, ops, info, own, chains) && h in chains
    ensures |free| == |desc| == |ops| == |info| == |own| == NUM && h < NUM
            && info == info[h := Info(info[h].b, info[h].status)] && info[h].b == chains[h].b
    ensures chains[h].phase == Reported ==> info[h].status == 0
    ensures Follow(desc, ops, h) == Request(chains[h].b, chains[h].write, chains[h].sector)
    ensures var c := chains[h];
      && c.i1 < NUM && c.i2 < NUM && h != c.i1 && h != c.i2 && c.i1 != c.i2 && !free[h] && !free[c.i1] && !free[c.i2]
      && desc[h].flags % 2 == 1 && desc[h].next == c.i1 && desc[c.i1].flags % 2 == 1 && desc[c.i1].next == c.i2
          && desc[c.i2].flags % 2 == 0
  {
    assert ChainOk(desc, ops, info, own, h, chains[h]);
    DeviceSeesRequest(desc, ops, info, own, h, chains[h]);
    assert OwnOk(own, free, desc, chains, h) && OwnOk(own, free, desc, chains, chains[h].i1)
           && OwnOk(own, free, desc, chains, chains[h].i2);
  }

  lemma BusyStep(chains: map<nat, Chain>, busy: set<nat>, h: nat, phase: Phase)
    requires BusyOk(chains, busy) && h in chains && chains[h].phase != Seen && phase != Seen
    ensures BusyOk(WithPhase(chains, h, phase), busy)
  {
  }

  lemma BusyGone(free: seq<bool>, desc: seq<Desc>, ops: seq<Op>, info: seq<Info>, own: seq<nat>, chains: map<nat,
        Chain>, busy: set<nat>, h: nat)
    requires Queue(free, desc, ops, info, own, chains) && BusyOk(chains, busy) && h in chains
    ensures BusyOk(WithPhase(chains, h, Seen), busy - {chains[h].b})
  {
  }

  lemma BusyLess(chains: map<nat, Chain>, busy: set<nat>, h: nat)
    requires BusyOk(chains, busy)
    ensures BusyOk(chains - {h}, busy)
  {
  }

  lemma SeenAt(chains: map<nat, Chain>, busy: set<nat>, h: nat)
    requires BusyOk(chains, busy) && h in chains && chains[h].b !in busy
    ensures chains[h].phase == Seen
  {
  }

  /** The 16-bit indices are equal only when the driver has caught up with the device. */
  lemma IndexReached(seen: nat, n: nat, ring: seq<nat>, log: seq<nat>, phase: Phase,
                     free: seq<bool>, desc: seq<Desc>, ops: seq<Op>, info: seq<Info>, own: seq<nat>, chains: map<nat,
                         Chain>)
    requires Queue(free, desc, ops, info, own, chains) && n == |log| && Ring(ring, log, seen, chains, phase)
    ensures seen <= n <= seen + 2 && (Low16(seen) == Low16(n) <==> seen == n)
  {
    hide Queue, Ring;
    TwoInFlight(free, desc, ops, info, own, chains);
    RingShort(ring, log, seen, chains, phase);
    RingSize(ring, log, seen, chains, phase);
  }

  /** Index comparisons say how far each side has come. */
  lemma IndexBehind(r: Rest, free: seq<bool>, desc: seq<Desc>, ops: seq<Op>, info: seq<Info>, own: seq<nat>,
        chains: map<nat, Chain>)
    requires Queue(free, desc, ops, info, own, chains) && Orderly(r, chains)
    ensures r.seen <= |r.reported| && (Low16(r.seen) == Low16(|r.reported|) <==> r.seen == |r.reported|)
    ensures r.taken <= |r.submitted| && (Low16(r.taken) == Low16(|r.submitted|) <==> r.taken == |r.submitted|)
  {
    hide Queue, Ring;
    IndexReached(r.seen, |r.reported|, r.usedRing, r.reported, Reported, free, desc, ops, info, own, chains);
    IndexReached(r.taken, |r.submitted|, r.availRing, r.submitted, Submitted, free, desc, ops, info, own, chains);
  }

  lemma NoneReported(r: Rest, chains: map<nat, Chain>)
    requires Orderly(r, chains) && r.seen == |r.reported|
    ensures forall h :: h in chains ==> chains[h].phase != Reported
  {
    assert r.reported[|r.reported|..] == [];
  }

  lemma WorkAt(r: Rest, chains: map<nat, Chain>, h: nat)
    requires Orderly(r, chains) && h in r.working
    ensures h in chains && chains[h].phase == Taken
  {
  }

  lemma BusyMore(r: Rest, chains: map<nat, Chain>, b: nat)
    requires Orderly(r, chains) && Unused(chains, b)
    ensures Orderly(r.(busy := r.busy + {b}), chains)
  {
    hide Ring, WorkOk;
    BusyOther(chains, r.busy, b);
  }

  lemma SpareOk(r: Rest, chains: map<nat, Chain>, h: nat)
    requires Orderly(r, chains) && |chains| <= 2
    ensures |r.availRing| == NUM && Orderly(r.(availRing := r.availRing[Slot(|r.submitted|) := h]), chains)
  {
    hide Ring, WorkOk, BusyOk, Slot;
    RingShort(r.availRing, r.submitted, r.taken, chains, Submitted);
    RingSize(r.availRing, r.submitted, r.taken, chains, Submitted);
    RingSpare(r.availRing, r.submitted, r.taken, chains, Submitted, h);
  }

  lemma SubmitOk(r: Rest, chains: map<nat, Chain>, h: nat, c: Chain)
    requires Orderly(r, chains) && |chains| <= 2 && h < NUM && h !in chains && c.phase == Submitted && c.b in r.busy
    requires |r.availRing| == NUM && r.availRing[Slot(|r.submitted|)] == h
    ensures Orderly(r.(submitted := r.submitted + [h]), chains[h := c])
  {
    hide Ring, WorkOk, BusyOk, Slot;
    RingShort(r.availRing, r.submitted, r.taken, chains, Submitted);
    RingSubmit(r.availRing, r.submitted, r.taken, chains, h, c);
    RingNew(r.usedRing, r.reported, r.seen, chains, Reported, h, c);
    BusyAdd(chains, r.busy, h, c);
    WorkAdd(chains, r.working, h, c);
    assert r.availRing[Slot(|r.submitted|) := h] == r.availRing;
  }

  lemma FinishOk(r: Rest, chains: map<nat, Chain>, h: nat)
    requires Orderly(r, chains) && h in chains && chains[h].b !in r.busy
    ensures chains[h].phase == Seen && Orderly(r, chains - {h})
  {
    hide Ring, WorkOk, BusyOk;
    SeenAt(chains, r.busy, h);
    RingGone(r.availRing, r.submitted, r.taken, chains, Submitted, h);
    RingGone(r.usedRing, r.reported, r.seen, chains, Reported, h);
    BusyLess(chains, r.busy, h);
    WorkLess(chains, r.working, h);
  }
}
