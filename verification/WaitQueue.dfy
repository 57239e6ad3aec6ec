/** The wait-queue table of kernel/waitqueue.c and the operations of kernel/proc.c that
    walk it.  A bucket is a singly linked list threaded through the process table: the
    `wq_entry` of the source is embedded in `struct proc`, so a pointer to an entry is the
    table index of its process, and NIL is the null pointer.  Every method below is a section
    that the source runs under the bucket lock (and p->lock); the interleavings of those
    sections are in SleepWakeup.dfy. */
module WaitQueue {
  const NWQUEUE: nat := 16
  const NIL := -1

  /** wq_hash: the low four bits of the channel address after dropping its three alignment bits. */
  function Hash(chan: nat): (b: nat)
    ensures b < NWQUEUE
  {
    (chan / 8) % NWQUEUE
  }

  datatype ProcState = UNUSED | USED | SLEEPING | RUNNABLE | RUNNING | ZOMBIE

  /** struct proc, with its embedded wq_entry (entryChan, next, queued). */
  datatype Proc = Proc(state: ProcState, chan: nat, killed: bool, pid: int,
                       entryChan: nat, next: int, queued: bool)
  {
    predicate SleepsOn(c: nat) {
      state == SLEEPING && chan == c
    }
  }

  /** The member of `q` at position i, or NIL past its end. */
  ghost function At(q: seq<nat>, i: nat): (r: int)
    ensures i < |q| <==> r != NIL
  {
    if i < |q| then q[i] else NIL
  }

  ghost predicate NextIs(procs: seq<Proc>, q: seq<nat>, i: nat)
    requires i < |q| && q[i] < |procs|
  {
    procs[q[i]].next == At(q, i + 1)
  }

  /** The list that starts at `head` runs through exactly `q`, in order, and ends: it is acyclic. */
  ghost predicate Linked(procs: seq<Proc>, head: int, q: seq<nat>) {
    && head == At(q, 0)
    && (forall i :: 0 <= i < |q| ==> q[i] < |procs|)
    && (forall i :: 0 <= i < |q| ==> NextIs(procs, q, i))
    && (forall i, j :: 0 <= i < j < |q| ==> q[i] != q[j])
  }

  /** What an entry of bucket `b` says about its process. */
  ghost predicate EntryOk(b: nat, p: Proc) {
    p.state == SLEEPING && p.queued && p.entryChan == p.chan && Hash(p.chan) == b
  }

  ghost predicate BucketOk(procs: seq<Proc>, b: nat, head: int, q: seq<nat>) {
    && Linked(procs, head, q)
    && forall i :: 0 <= i < |q| ==> EntryOk(b, procs[q[i]])
  }

  /** Queue/state agreement: a process is SLEEPING iff it is linked, once, in its channel's bucket. */
  ghost predicate Agreement(procs: seq<Proc>, heads: seq<int>, queues: seq<seq<nat>>) {
    && |heads| == |queues| == NWQUEUE
    && (forall b :: 0 <= b < NWQUEUE ==> BucketOk(procs, b, heads[b], queues[b]))
    && (forall p :: 0 <= p < |procs| ==> (procs[p].queued <==> procs[p].state == SLEEPING))
    && (forall p :: 0 <= p < |procs| && procs[p].state == SLEEPING ==> p in queues[Hash(procs[p].chan)])
  }

  /** `q` without its members that sleep on `chan`. */
  ghost function NotOn(procs: seq<Proc>, q: seq<nat>, chan: nat): (r: seq<nat>)
    requires forall i :: 0 <= i < |q| ==> q[i] < |procs|
    ensures forall p :: p in r <==> p in q && procs[p].chan != chan
  {
    if q == [] then []
    else NotOn(procs, q[..|q| - 1], chan) + if procs[q[|q| - 1]].chan == chan then [] else [q[|q| - 1]]
  }

  /** Everything about the processes except their state and list links. */
  ghost predicate SameIdentity(procs: seq<Proc>, procs': seq<Proc>) {
    && |procs| == |procs'|
    && forall p :: 0 <= p < |procs| ==>
         procs'[p].chan == procs[p].chan && procs'[p].killed == procs[p].killed && procs'[p].pid == procs[p].pid
  }

  /** What a scan of the whole process table would make of `wakeup(chan)`. */
  ghost function ScanWake(procs: seq<Proc>, chan: nat, p: nat): ProcState
    requires p < |procs|
  {
    if procs[p].SleepsOn(chan) then RUNNABLE else procs[p].state
  }

  /** Position of the first member of `q` that sleeps on `chan`, or |q|. */
  ghost function FirstOn(procs: seq<Proc>, q: seq<nat>, chan: nat): (k: nat)
    requires forall i :: 0 <= i < |q| ==> q[i] < |procs|
    ensures k <= |q| && (k < |q| ==> procs[q[k]].chan == chan)
    ensures forall i :: 0 <= i < k ==> procs[q[i]].chan != chan
  {
    if q == [] || procs[q[0]].chan == chan then 0 else 1 + FirstOn(procs, q[1..], chan)
  }

  /** The list after a wakeup(chan) that has walked past the first i members of `q`. */
  ghost function AfterWalk(procs: seq<Proc>, q: seq<nat>, i: nat, chan: nat): (r: seq<nat>)
    requires i <= |q| && forall j :: 0 <= j < |q| ==> q[j] < |procs|
  {
    NotOn(procs, q[..i], chan) + q[i..]
  }

  lemma AfterWalkEnds(procs: seq<Proc>, q: seq<nat>, chan: nat)
    requires forall j :: 0 <= j < |q| ==> q[j] < |procs|
    ensures AfterWalk(procs, q, 0, chan) == q
    ensures AfterWalk(procs, q, |q|, chan) == NotOn(procs, q, chan)
  {
    assert q[..|q|] == q;
  }

  /** One step of the walk: member i stands at position k of the list, followed by member i + 1. */
  lemma AfterWalkStep(procs: seq<Proc>, q: seq<nat>, i: nat, chan: nat, k: nat)
    requires i < |q| && forall j :: 0 <= j < |q| ==> q[j] < |procs|
    requires k == |NotOn(procs, q[..i], chan)|
    ensures k < |AfterWalk(procs, q, i, chan)| && AfterWalk(procs, q, i, chan)[k] == q[i]
    ensures At(AfterWalk(procs, q, i, chan), k + 1) == At(q, i + 1)
    ensures AfterWalk(procs, q, i + 1, chan) ==
              var r := AfterWalk(procs, q, i, chan);
              if procs[q[i]].chan == chan then r[..k] + r[k + 1..] else r
  {
    assert q[..i + 1][..i] == q[..i];
    assert q[..i + 1] == q[..i] + [q[i]];
  }

  /** The states after a wakeup(chan) that has walked past the first i members of `q`. */
  ghost predicate Walked(procs: seq<Proc>, procs': seq<Proc>, q: seq<nat>, i: nat, chan: nat)
    requires i <= |q| && forall j :: 0 <= j < |q| ==> q[j] < |procs|
  {
    && SameIdentity(procs, procs')
    && (forall j :: 0 <= j < i ==> procs'[q[j]].state == ScanWake(procs, chan, q[j]))
    && (forall p :: 0 <= p < |procs| && p !in q[..i] ==> procs'[p].state == procs[p].state)
  }

  lemma WalkedStep(procs: seq<Proc>, mid: seq<Proc>, procs': seq<Proc>, q: seq<nat>, i: nat, chan: nat)
    requires i < |q| && forall j :: 0 <= j < |q| ==> q[j] < |procs|
    requires forall j, k :: 0 <= j < k < |q| ==> q[j] != q[k]
    requires Walked(procs, mid, q, i, chan) && SameIdentity(mid, procs')
    requires forall p :: 0 <= p < |procs| && p != q[i] ==> procs'[p].state == mid[p].state
    requires procs'[q[i]].state == ScanWake(mid, chan, q[i])
    ensures Walked(procs, procs', q, i + 1, chan)
  {
    assert q[i] !in q[..i];
    assert q[..i + 1] == q[..i] + [q[i]];
  }

  /** After the whole bucket is walked the states are those of the full-table scan. */
  lemma WalkedAll(procs: seq<Proc>, heads: seq<int>, queues: seq<seq<nat>>, procs': seq<Proc>, chan: nat)
    requires Agreement(procs, heads, queues)
    requires |queues| == NWQUEUE && forall j :: 0 <= j < |queues[Hash(chan)]| ==> queues[Hash(chan)][j] < |procs|
    requires Walked(procs, procs', queues[Hash(chan)], |queues[Hash(chan)]|, chan)
    ensures forall p :: 0 <= p < |procs| ==> procs'[p].state == ScanWake(procs, chan, p)
  {
    var q := queues[Hash(chan)];
    assert q[..|q|] == q;
    forall p | 0 <= p < |procs| ensures procs'[p].state == ScanWake(procs, chan, p) {
      if p in q {
        var j :| 0 <= j < |q| && q[j] == p;
      }
    }
  }

  /** What the walk starts from. */
  lemma WalkStart(procs: seq<Proc>, heads: seq<int>, queues: seq<seq<nat>>, b: nat)
    requires Agreement(procs, heads, queues) && b < NWQUEUE
    ensures |heads| == |queues| == NWQUEUE && heads[b] == At(queues[b], 0)
    ensures forall j :: 0 <= j < |queues[b]| ==> queues[b][j] < |procs|
    ensures forall j, k :: 0 <= j < k < |queues[b]| ==> queues[b][j] != queues[b][k]
    ensures queues == queues[b := queues[b]]
    ensures forall chan :: Walked(procs, procs, queues[b], 0, chan)
  {
    assert BucketOk(procs, b, heads[b], queues[b]);
  }

  /** What the walk reads at position k of a bucket. */
  lemma EntryFacts(procs: seq<Proc>, heads: seq<int>, queues: seq<seq<nat>>, b: nat, k: nat)
    requires Agreement(procs, heads, queues) && b < NWQUEUE && k < |queues[b]|
    ensures |heads| == |queues| == NWQUEUE && queues[b][k] < |procs|
    ensures procs[queues[b][k]].next == At(queues[b], k + 1)
    ensures EntryOk(b, procs[queues[b][k]])
  {
    assert BucketOk(procs, b, heads[b], queues[b]);
    assert NextIs(procs, queues[b], k);
  }

  /** What unlinking position k of `q` does to the process table: the entry is cleared and its
      predecessor, if it has one, points past it. */
  ghost predicate Unlinked(procs: seq<Proc>, procs': seq<Proc>, q: seq<nat>, k: nat)
    requires k < |q| && forall i :: 0 <= i < |q| ==> q[i] < |procs|
  {
    && |procs'| == |procs|
    && procs'[q[k]] == procs[q[k]].(entryChan := 0, next := NIL, queued := false)
    && forall p :: 0 <= p < |procs| && p != q[k] ==>
         procs'[p] == if k > 0 && p == q[k - 1] then procs[p].(next := procs[q[k]].next) else procs[p]
  }

  lemma UnlinkKeepsList(procs: seq<Proc>, head: int, q: seq<nat>, k: nat, procs': seq<Proc>, head': int)
    requires Linked(procs, head, q) && k < |q| && Unlinked(procs, procs', q, k)
    requires head' == if k == 0 then procs[q[0]].next else head
    ensures Linked(procs', head', q[..k] + q[k + 1..])
  {
    var r := q[..k] + q[k + 1..];
    assert NextIs(procs, q, k);
    forall i | 0 <= i < |r| ensures NextIs(procs', r, i) {
      assert NextIs(procs, q, if i < k then i else i + 1);
    }
  }

  /** Two buckets never share a process: the channel decides the bucket. */
  lemma BucketsDisjoint(procs: seq<Proc>, heads: seq<int>, queues: seq<seq<nat>>, b: nat, c: nat)
    requires Agreement(procs, heads, queues) && b < NWQUEUE && c < NWQUEUE && b != c
    ensures forall i :: 0 <= i < |queues[b]| ==> queues[b][i] !in queues[c]
  {
    assert BucketOk(procs, b, heads[b], queues[b]) && BucketOk(procs, c, heads[c], queues[c]);
    forall i | 0 <= i < |queues[b]| ensures queues[b][i] !in queues[c] {
      assert EntryOk(b, procs[queues[b][i]]);
    }
  }

  lemma ListFrame(procs: seq<Proc>, procs': seq<Proc>, head: int, q: seq<nat>)
    requires Linked(procs, head, q) && |procs'| == |procs|
    requires forall i :: 0 <= i < |q| ==> procs'[q[i]].next == procs[q[i]].next
    ensures Linked(procs', head, q)
  {
    forall i | 0 <= i < |q| ensures NextIs(procs', q, i) {
      assert NextIs(procs, q, i);
    }
  }

  /** A bucket whose processes are untouched stays as it was. */
  lemma BucketFrame(procs: seq<Proc>, procs': seq<Proc>, c: nat, head: int, q: seq<nat>)
    requires BucketOk(procs, c, head, q) && |procs'| == |procs|
    requires forall i :: 0 <= i < |q| ==> procs'[q[i]] == procs[q[i]]
    ensures BucketOk(procs', c, head, q)
  {
    ListFrame(procs, procs', head, q);
  }

  lemma RemainingMembers(q: seq<nat>, k: nat, p: nat)
    requires k < |q|
    ensures p in q && p != q[k] ==> p in q[..k] + q[k + 1..]
  {
  }

  lemma RemainingEntries(procs: seq<Proc>, procs': seq<Proc>, b: nat, head: int, q: seq<nat>, k: nat)
    requires BucketOk(procs, b, head, q) && k < |q|
    requires Unlinked(procs[q[k] := procs[q[k]].(state := RUNNABLE)], procs', q, k)
    ensures var r := q[..k] + q[k + 1..]; forall i :: 0 <= i < |r| ==> EntryOk(b, procs'[r[i]])
  {
    hide Hash;
    var r := q[..k] + q[k + 1..];
    forall i | 0 <= i < |r| ensures EntryOk(b, procs'[r[i]]) {
      var j := if i < k then i else i + 1;
      assert r[i] == q[j] && EntryOk(b, procs[q[j]]);
    }
  }

  /** Waking the sleeper at position k of bucket b keeps the agreement. */
  lemma WakeAgrees(procs: seq<Proc>, heads: seq<int>, queues: seq<seq<nat>>, b: nat, k: nat,
                   procs': seq<Proc>, head': int)
    requires Agreement(procs, heads, queues) && b < NWQUEUE && k < |queues[b]|
    requires BucketOk(procs, b, heads[b], queues[b])
    requires Unlinked(procs[queues[b][k] := procs[queues[b][k]].(state := RUNNABLE)], procs', queues[b], k)
    requires Linked(procs', head', queues[b][..k] + queues[b][k + 1..])
    ensures Agreement(procs', heads[b := head'], queues[b := queues[b][..k] + queues[b][k + 1..]])
  {
    hide Hash;
    var q := queues[b];
    var r := q[..k] + q[k + 1..];
    var queues' := queues[b := r];
    RemainingEntries(procs, procs', b, heads[b], q, k);
    forall c | 0 <= c < NWQUEUE ensures BucketOk(procs', c, heads[b := head'][c], queues'[c]) {
      if c != b {
        assert BucketOk(procs, c, heads[c], queues[c]);
        BucketsDisjoint(procs, heads, queues, c, b);
        BucketFrame(procs, procs', c, heads[c], queues[c]);
      }
    }
    forall p | 0 <= p < |procs'| && procs'[p].state == SLEEPING ensures p in queues'[Hash(procs'[p].chan)] {
      assert p in queues[Hash(procs[p].chan)];
      RemainingMembers(q, k, p);
    }
  }

  /** Pushing a process that is not on the list. */
  lemma PushKeepsList(procs: seq<Proc>, head: int, q: seq<nat>, p: nat, procs': seq<Proc>)
    requires Linked(procs, head, q) && p < |procs| && p !in q
    requires |procs'| == |procs| && procs'[p].next == head
    requires forall o :: 0 <= o < |procs| && o != p ==> procs'[o].next == procs[o].next
    ensures Linked(procs', p, [p] + q)
  {
    forall i | 0 <= i < |q| + 1 ensures NextIs(procs', [p] + q, i) {
      if i > 0 {
        assert NextIs(procs, q, i - 1) && q[i - 1] != p;
      }
    }
  }

  /** Pushing a process that was not sleeping, now asleep, keeps the agreement. */
  lemma SleepAgrees(procs: seq<Proc>, heads: seq<int>, queues: seq<seq<nat>>, p: nat, chan: nat, procs': seq<Proc>)
    requires Agreement(procs, heads, queues) && p < |procs| && procs[p].state != SLEEPING
    requires procs' == procs[p := procs[p].(state := SLEEPING, chan := chan, entryChan := chan,
                                            next := heads[Hash(chan)], queued := true)]
    ensures Agreement(procs', heads[Hash(chan) := p], queues[Hash(chan) := [p] + queues[Hash(chan)]])
  {
    var b := Hash(chan);
    var queues' := queues[b := [p] + queues[b]];
    forall c | 0 <= c < NWQUEUE ensures BucketOk(procs', c, heads[b := p][c], queues'[c]) {
      assert BucketOk(procs, c, heads[c], queues[c]);
      NotQueued(procs, heads, queues, p, c);
      BucketFrame(procs, procs', c, heads[c], queues[c]);
      if c == b {
        PushKeepsList(procs, heads[c], queues[c], p, procs');
        forall i | 0 <= i < |queues'[c]| ensures EntryOk(c, procs'[queues'[c][i]]) {
          assert i > 0 ==> queues'[c][i] == queues[c][i - 1];
        }
      }
    }
    forall o | 0 <= o < |procs'| && procs'[o].state == SLEEPING ensures o in queues'[Hash(procs'[o].chan)] {
      if o == p {
        assert queues'[b][0] == p;
      } else {
        assert o in queues[Hash(procs[o].chan)];
      }
    }
  }

  /** A process that is not sleeping is in no bucket. */
  lemma NotQueued(procs: seq<Proc>, heads: seq<int>, queues: seq<seq<nat>>, p: nat, c: nat)
    requires Agreement(procs, heads, queues) && p < |procs| && procs[p].state != SLEEPING && c < NWQUEUE
    ensures p !in queues[c]
  {
    assert BucketOk(procs, c, heads[c], queues[c]);
    assert forall i :: 0 <= i < |queues[c]| ==> EntryOk(c, procs[queues[c][i]]);
  }

  /** The walk of wakeup_one stops nowhere iff no process of the table sleeps on the channel. */
  lemma FirstOnMissesIff(procs: seq<Proc>, heads: seq<int>, queues: seq<seq<nat>>, chan: nat)
    requires Agreement(procs, heads, queues)
    ensures |queues| == NWQUEUE && forall j :: 0 <= j < |queues[Hash(chan)]| ==> queues[Hash(chan)][j] < |procs|
    ensures FirstOn(procs, queues[Hash(chan)], chan) == |queues[Hash(chan)]|
            <==> forall p :: 0 <= p < |procs| ==> !procs[p].SleepsOn(chan)
  {
    var q := queues[Hash(chan)];
    assert BucketOk(procs, Hash(chan), heads[Hash(chan)], q);
    var k := FirstOn(procs, q, chan);
    if k < |q| {
      assert EntryOk(Hash(chan), procs[q[k]]);
      assert procs[q[k]].SleepsOn(chan);
    } else {
      assert forall p :: p in q ==> procs[p].chan != chan;
    }
  }

  /** Changing fields of one process that is neither before nor after asleep keeps the agreement. */
  lemma AwakeAgrees(procs: seq<Proc>, heads: seq<int>, queues: seq<seq<nat>>, p: nat, v: Proc)
    requires Agreement(procs, heads, queues) && p < |procs| && procs[p].state != SLEEPING
    requires v.state != SLEEPING && !v.queued
    ensures Agreement(procs[p := v], heads, queues)
  {
    forall c | 0 <= c < NWQUEUE ensures BucketOk(procs[p := v], c, heads[c], queues[c]) {
      assert BucketOk(procs, c, heads[c], queues[c]);
      NotQueued(procs, heads, queues, p, c);
      BucketFrame(procs, procs[p := v], c, heads[c], queues[c]);
    }
  }

  /** Setting the killed flag touches nothing that the queues rely on. */
  lemma KilledAgrees(procs: seq<Proc>, heads: seq<int>, queues: seq<seq<nat>>, p: nat)
    requires Agreement(procs, heads, queues) && p < |procs|
    ensures Agreement(procs[p := procs[p].(killed := true)], heads, queues)
  {
    var procs' := procs[p := procs[p].(killed := true)];
    forall c | 0 <= c < NWQUEUE ensures BucketOk(procs', c, heads[c], queues[c]) {
      assert BucketOk(procs, c, heads[c], queues[c]);
      ListFrame(procs, procs', heads[c], queues[c]);
      forall i | 0 <= i < |queues[c]| ensures EntryOk(c, procs'[queues[c][i]]) {
        assert EntryOk(c, procs[queues[c][i]]);
      }
    }
  }

  class ProcTable {
    var procs: seq<Proc>             // proc[NPROC]
    var heads: seq<int>              // wt.buckets[b].head
    ghost var queues: seq<seq<nat>>  // the list that each head leads to

    ghost predicate Valid()
      reads this
    {
      Agreement(procs, heads, queues)
    }

    /** procinit and wq_init. */
    constructor (nproc: nat)
      ensures Valid() && |procs| == nproc
      ensures forall p :: 0 <= p < nproc ==> procs[p] == Proc(UNUSED, 0, false, 0, 0, NIL, false)
    {
      procs := seq(nproc, i => Proc(UNUSED, 0, false, 0, 0, NIL, false));
      heads := seq(NWQUEUE, i => NIL);
      queues := seq(NWQUEUE, i => []);
    }

    /** wq_add_locked: push at the head. */
    method AddLocked(b: nat, chan: nat, p: nat)
      requires b < |heads| == |queues| && p < |procs|
      requires Linked(procs, heads[b], queues[b]) && p !in queues[b]
      modifies this
      ensures procs == old(procs)[p := old(procs[p]).(entryChan := chan, next := old(heads[b]), queued := true)]
      ensures heads == old(heads)[b := p] && queues == old(queues)[b := [p] + old(queues[b])]
      ensures Linked(procs, heads[b], queues[b])
    {
      procs := procs[p := procs[p].(entryChan := chan, next := heads[b], queued := true)];
      heads := heads[b := p];
      queues := queues[b := [p] + queues[b]];
      PushKeepsList(old(procs), old(heads[b]), old(queues[b]), p, procs);
    }

    /** wq_remove_locked: unlink `entry` wherever it stands in the list; an entry that is not
        linked changes nothing. */
    method RemoveLocked(b: nat, entry: nat, ghost k: nat)
      requires b < |heads| == |queues| && entry < |procs|
      requires Linked(procs, heads[b], queues[b])
      requires if entry in queues[b] then k < |queues[b]| && queues[b][k] == entry else k == |queues[b]|
      modifies this
      ensures k == |old(queues[b])| ==> procs == old(procs) && heads == old(heads) && queues == old(queues)
      ensures k < |old(queues[b])| ==>
                && Unlinked(old(procs), procs, old(queues[b]), k)
                && queues == old(queues)[b := old(queues[b])[..k] + old(queues[b])[k + 1..]]
                && |heads| == |old(heads)| && heads == old(heads)[b := heads[b]]
                && Linked(procs, heads[b], queues[b])
    {
      ghost var q := queues[b];
      var unlinked := procs[entry].(entryChan := 0, next := NIL, queued := false);
      if heads[b] == entry {
        assert q[0] == entry;
        heads := heads[b := procs[entry].next];
        procs := procs[entry := unlinked];
        queues := queues[b := q[..k] + q[k + 1..]];
        UnlinkKeepsList(old(procs), old(heads[b]), q, k, procs, heads[b]);
        return;
      }
      var e := heads[b];
      ghost var i := 0;
      while e != NIL && procs[e].next != NIL
        invariant 0 <= i <= |q| && e == At(q, i) && (i < |q| ==> NextIs(procs, q, i))
        invariant forall j :: 0 <= j <= i && j < |q| ==> q[j] != entry
        invariant unchanged(this)
        decreases |q| - i
      {
        if procs[e].next == entry {
          assert q[i + 1] == entry;
          procs := procs[e := procs[e].(next := procs[entry].next)];
          procs := procs[entry := unlinked];
          queues := queues[b := q[..k] + q[k + 1..]];
          UnlinkKeepsList(old(procs), old(heads[b]), q, k, procs, heads[b]);
          return;
        }
        e := procs[e].next;
        i := i + 1;
      }
    }

    /** The locked section of wakeup and wakeup_one that wakes the linked sleeper at position k:
        it becomes RUNNABLE and leaves the list, and nothing else changes. */
    method WakeEntry(b: nat, e: nat, ghost k: nat)
      requires Valid() && b < NWQUEUE && k < |queues[b]| && queues[b][k] == e
      modifies this
      ensures Valid() && SameIdentity(old(procs), procs)
      ensures forall p :: 0 <= p < |procs| ==> procs[p].state == if p == e then RUNNABLE else old(procs[p]).state
      ensures queues == old(queues)[b := old(queues[b])[..k] + old(queues[b])[k + 1..]]
    {
      assert BucketOk(procs, b, heads[b], queues[b]);
      procs := procs[e := procs[e].(state := RUNNABLE)];
      ListFrame(old(procs), procs, heads[b], queues[b]);
      RemoveLocked(b, e, k);
      WakeAgrees(old(procs), old(heads), old(queues), b, k, procs, heads[b]);
    }

    /** The part of sleep() between taking the bucket lock and calling sched(). */
    method Sleep(p: nat, chan: nat)
      requires Valid() && p < |procs| && procs[p].state == RUNNING
      modifies this
      ensures Valid() && |procs| == |old(procs)|
      ensures procs[p].SleepsOn(chan) && procs[p].killed == old(procs[p]).killed && procs[p].pid == old(procs[p]).pid
      ensures forall o :: 0 <= o < |procs| && o != p ==> procs[o] == old(procs[o])
      ensures queues == old(queues)[Hash(chan) := [p] + old(queues[Hash(chan)])]
    {
      assert BucketOk(procs, Hash(chan), heads[Hash(chan)], queues[Hash(chan)]);
      NotQueued(procs, heads, queues, p, Hash(chan));
      AddLocked(Hash(chan), chan, p);
      procs := procs[p := procs[p].(chan := chan)];
      procs := procs[p := procs[p].(state := SLEEPING)];
      SleepAgrees(old(procs), old(heads), old(queues), p, chan, procs);
    }

    /** wakeup: the bucket walk makes RUNNABLE exactly the processes that a scan of the whole
        process table would, and drops exactly those from the bucket, in order. */
    method Wakeup(chan: nat)
      requires Valid()
      modifies this
      ensures Valid() && SameIdentity(old(procs), procs)
      ensures forall p :: 0 <= p < |procs| ==> procs[p].state == ScanWake(old(procs), chan, p)
      ensures queues == old(queues)[Hash(chan) := NotOn(old(procs), old(queues[Hash(chan)]), chan)]
    {
      hide Agreement, Walked, AfterWalk, NotOn, Hash;
      var b := Hash(chan);
      WalkStart(procs, heads, queues, b);
      ghost var q := queues[b];
      AfterWalkEnds(procs, q, chan);
      var e := heads[b];
      ghost var i := 0;
      while e != NIL
        invariant 0 <= i <= |q| && e == At(q, i)
        invariant Valid() && SameIdentity(old(procs), procs) && Walked(old(procs), procs, q, i, chan)
        invariant queues == old(queues)[b := AfterWalk(old(procs), q, i, chan)]
        decreases |q| - i
      {
        ghost var k := |NotOn(old(procs), q[..i], chan)|;
        AfterWalkStep(old(procs), q, i, chan, k);
        EntryFacts(procs, heads, queues, b, k);
        ghost var mid := procs;
        var next := procs[e].next;
        if procs[e].entryChan == chan {
          if procs[e].state == SLEEPING && procs[e].chan == chan {
            WakeEntry(b, e, k);
          }
        }
        WalkedStep(old(procs), mid, procs, q, i, chan);
        e := next;
        i := i + 1;
      }
      WalkedAll(old(procs), old(heads), old(queues), procs, chan);
    }

    /** wakeup_one: the walk wakes exactly one process sleeping on the channel, the one enqueued
        last, if there is any; otherwise it changes nothing. */
    method WakeupOne(chan: nat)
      requires Valid()
      modifies this
      ensures Valid() && SameIdentity(old(procs), procs)
      ensures var q := old(queues[Hash(chan)]);
              (forall j :: 0 <= j < |q| ==> q[j] < |old(procs)|) &&
              var k := FirstOn(old(procs), q, chan);
              && (k == |q| ==> procs == old(procs) && queues == old(queues))
              && (k < |q| ==>
                    && queues == old(queues)[Hash(chan) := q[..k] + q[k + 1..]]
                    && forall p :: 0 <= p < |procs| ==>
                         procs[p].state == if p == q[k] then RUNNABLE else old(procs)[p].state)
    {
      hide Agreement, Hash;
      var b := Hash(chan);
      WalkStart(procs, heads, queues, b);
      ghost var q := queues[b];
      var e := heads[b];
      ghost var i := 0;
      while e != NIL
        invariant 0 <= i <= |q| && e == At(q, i)
        invariant unchanged(this)
        invariant forall j :: 0 <= j < i ==> procs[q[j]].chan != chan
        decreases |q| - i
      {
        EntryFacts(procs, heads, queues, b, i);
        var next := procs[e].next;
        if procs[e].entryChan == chan {
          if procs[e].state == SLEEPING && procs[e].chan == chan {
            WakeEntry(b, e, i);
            assert FirstOn(old(procs), q, chan) == i;
            break;
          }
        }
        e := next;
        i := i + 1;
      }
    }

    /** wq_has_sleeper: with the bucket lock free, a zero answer means that nobody sleeps on any
        channel of the bucket. */
    method HasSleeper(chan: nat) returns (r: bool)
      requires Valid()
      ensures !r <==> queues[Hash(chan)] == []
      ensures !r <==> forall p :: 0 <= p < |procs| && procs[p].state == SLEEPING ==> Hash(procs[p].chan) != Hash(chan)
    {
      r := heads[Hash(chan)] != NIL;
      assert BucketOk(procs, Hash(chan), heads[Hash(chan)], queues[Hash(chan)]);
      if r {
        assert EntryOk(Hash(chan), procs[queues[Hash(chan)][0]]);
      }
    }

    /** kkill: the first process with the pid is marked killed, and if it sleeps then its sleep ends,
        together with that of every process on its channel. */
    method Kkill(pid: int) returns (r: int)
      requires Valid()
      modifies this
      ensures Valid() && |procs| == |old(procs)|
      ensures r == -1 ==> procs == old(procs) && forall p :: 0 <= p < |procs| ==> procs[p].pid != pid
      ensures r != -1 ==> r == 0 && exists p ::
                && 0 <= p < |procs| && old(procs)[p].pid == pid
                && (forall o :: 0 <= o < p ==> old(procs)[o].pid != pid)
                && SameIdentity(old(procs)[p := old(procs)[p].(killed := true)], procs)
                && (old(procs)[p].state == SLEEPING ==>
                      forall o :: 0 <= o < |procs| ==> procs[o].state == ScanWake(old(procs), old(procs)[p].chan, o))
                && (old(procs)[p].state != SLEEPING ==> forall o :: 0 <= o < |procs| ==>
                      procs[o].state == old(procs)[o].state)
    {
      var p := 0;
      while p < |procs|
        invariant 0 <= p <= |procs| && unchanged(this)
        invariant forall o :: 0 <= o < p ==> procs[o].pid != pid
      {
        if procs[p].pid == pid {
          hide Agreement, Hash;
          KilledAgrees(procs, heads, queues, p);
          procs := procs[p := procs[p].(killed := true)];
          if procs[p].state == SLEEPING {
            Wakeup(procs[p].chan);
          }
          return 0;
        }
        p := p + 1;
      }
      return -1;
    }

    /** The scheduler switches to a RUNNABLE process. */
    method Schedule(p: nat)
      requires Valid() && p < |procs| && procs[p].state == RUNNABLE
      modifies this
      ensures Valid() && procs == old(procs)[p := old(procs)[p].(state := RUNNING)] && queues == old(queues)
    {
      AwakeAgrees(procs, heads, queues, p, procs[p].(state := RUNNING));
      procs := procs[p := procs[p].(state := RUNNING)];
    }

    /** The end of sleep(), which clears p->chan: the process is in no list. */
    method Tidy(p: nat)
      requires Valid() && p < |procs| && procs[p].state == RUNNING
      modifies this
      ensures Valid() && procs == old(procs)[p := old(procs)[p].(chan := 0)] && queues == old(queues)
      ensures forall b :: 0 <= b < |queues| ==> p !in queues[b]
    {
      forall b | 0 <= b < |queues| ensures p !in queues[b] {
        NotQueued(procs, heads, queues, p, b);
      }
      AwakeAgrees(procs, heads, queues, p, procs[p].(chan := 0));
      procs := procs[p := procs[p].(chan := 0)];
    }

    /** kexit's last change: a zombie is in no list, so FreeProc may clear its entry. */
    method Exit(p: nat)
      requires Valid() && p < |procs| && procs[p].state == RUNNING
      modifies this
      ensures Valid() && procs == old(procs)[p := old(procs)[p].(state := ZOMBIE)] && queues == old(queues)
      ensures forall b :: 0 <= b < |queues| ==> p !in queues[b]
    {
      forall b | 0 <= b < |queues| ensures p !in queues[b] {
        NotQueued(procs, heads, queues, p, b);
      }
      AwakeAgrees(procs, heads, queues, p, procs[p].(state := ZOMBIE));
      procs := procs[p := procs[p].(state := ZOMBIE)];
    }

    /** freeproc clears the embedded entry; it cannot cut a live entry out of a list, because the
        processes it is called on, ZOMBIE or half-built, are never linked. */
    method FreeProc(p: nat)
      requires Valid() && p < |procs| && (procs[p].state == ZOMBIE || procs[p].state == USED)
      modifies this
      ensures Valid() && queues == old(queues)
      ensures procs == old(procs)[p := Proc(UNUSED, 0, false, 0, 0, NIL, false)]
    {
      hide Agreement;
      AwakeAgrees(procs, heads, queues, p, Proc(UNUSED, 0, false, 0, 0, NIL, false));
      procs := procs[p := procs[p].(pid := 0)];
      procs := procs[p := procs[p].(chan := 0)];
      procs := procs[p := procs[p].(entryChan := 0, next := NIL, queued := false)];
      procs := procs[p := procs[p].(killed := false, state := UNUSED)];
      assert procs == old(procs)[p := Proc(UNUSED, 0, false, 0, 0, NIL, false)];
    }
  }
}
