/** What the sleep/wakeup machine guarantees over whole runs. */
module SleepTheorems {
  import opened Common
  import opened WaitQueue
  import opened SleepWakeup
  import opened SleepInvariant

  lemma {:induction false} RunInv(o: Order, run: seq<State>, i: nat)
    requires Run(o, run) && i < |run|
    ensures Inv(o, run[i])
  {
    hide Inv, Init, Enabled, After;
    if i == 0 {
      InitInv(o, run[0]);
    } else {
      RunInv(o, run, i - 1);
      assert NextAt(o, run, i - 1);
      var t :| Enabled(o, run[i - 1], t) && run[i] == After(o, run[i - 1], t);
      InvStep(o, run[i - 1], t);
    }
  }

  /** The step that a run takes at position i. */
  lemma StepOf(o: Order, run: seq<State>, i: nat) returns (t: Step)
    requires Run(o, run) && i + 1 < |run|
    ensures Inv(o, run[i]) && Enabled(o, run[i], t) && run[i + 1] == After(o, run[i], t)
    ensures |run[i + 1].procs| == |run[i].procs|
  {
    RunInv(o, run, i);
    assert NextAt(o, run, i);
    t :| Enabled(o, run[i], t) && run[i + 1] == After(o, run[i], t);
    InvGivesStepPre(o, run[i], t);
    StepDoes(o, run[i], t);
  }

  // ---------- One step, seen from one process ----------

  /** x holds the bucket lock for the call w, with the bookkeeping `snap`. */
  predicate InWalk(pc: Pc, w: Call, snap: map<Pid, nat>) {
    (pc.WakeWalk? || pc.WakeProbe? || pc.WakeExit?) && pc.w == w && pc.snap == snap
  }

  predicate Walking(pc: Pc) {
    pc.WakeWalk? || pc.WakeProbe? || pc.WakeExit?
  }

  /** Only a process's own steps move it. */
  lemma PcAfter(o: Order, s: State, t: Step, x: Pid)
    requires |s.queues| == |s.bucketLock| == NWQUEUE && Enabled(o, s, t) && x < |s.procs|
    ensures |After(o, s, t).procs| == |s.procs|
    ensures After(o, s, t).procs[x].pc == if x == t.p then StepPc(o, s, t) else s.procs[x].pc
  {
    hide Hash, NextPc, HeldBucket, Probing, HoldsOwn, CanGo, CanAdvance, Committed;
  }

  /** A step of anybody leaves a walk on the same call, or ends it. */
  lemma WalkStays(o: Order, s: State, t: Step, x: Pid, w: Call, snap: map<Pid, nat>)
    requires |s.queues| == |s.bucketLock| == NWQUEUE && Enabled(o, s, t) && x < |s.procs|
             && InWalk(s.procs[x].pc, w, snap)
    ensures |After(o, s, t).procs| == |s.procs|
    ensures Walking(After(o, s, t).procs[x].pc) ==> InWalk(After(o, s, t).procs[x].pc, w, snap)
  {
    PcAfter(o, s, t, x);
    hide Hash, CanAdvance, Snapshot, After;
  }

  /** A process is woken once more exactly when it goes from Sleeping to Runnable. */
  lemma WakesCount(o: Order, s: State, t: Step, v: Pid)
    requires Inv(o, s) && Enabled(o, s, t) && v < |s.procs|
    ensures |After(o, s, t).procs| == |s.procs|
    ensures var a, a' := s.procs[v], After(o, s, t).procs[v];
            a'.wakes == a.wakes + if a.state == Sleeping && a'.state == Runnable then 1 else 0
  {
    InvGivesStepPre(o, s, t);
    StepDoes(o, s, t);
    if v != t.p {
      assert SideEffect(s, t.p, s.procs[v], After(o, s, t).procs[v]);
    }
    hide Inv, StepPre, LocksOk, PhaseOk, Hash, HeldBucket, Probing, HoldsOwn, HeldLk, Committed;
  }

  /** Process v is made Runnable out of a sleep at some step between i and j. */
  ghost predicate MadeRunnable(run: seq<State>, v: Pid, i: nat, j: nat)
    requires i <= j < |run| && forall k :: 0 <= k < |run| ==> v < |run[k].procs|
  {
    exists k :: i <= k < j && run[k].procs[v].state == Sleeping && run[k + 1].procs[v].state == Runnable
  }

  lemma {:induction false} SameSize(o: Order, run: seq<State>, i: nat)
    requires Run(o, run) && i < |run|
    ensures |run[i].procs| == |run[0].procs|
  {
    if i > 0 {
      SameSize(o, run, i - 1);
      var _ := StepOf(o, run, i - 1);
    }
  }

  lemma MadeRunnableMono(run: seq<State>, v: Pid, i: nat, j: nat, m: nat)
    requires i <= j <= m < |run| && forall k :: 0 <= k < |run| ==> v < |run[k].procs|
    requires MadeRunnable(run, v, i, j)
    ensures MadeRunnable(run, v, i, m)
  {
  }

  lemma MadeRunnableNow(run: seq<State>, v: Pid, i: nat, j: nat)
    requires i < j < |run| && forall k :: 0 <= k < |run| ==> v < |run[k].procs|
    requires run[j - 1].procs[v].state == Sleeping && run[j].procs[v].state == Runnable
    ensures MadeRunnable(run, v, i, j)
  {
    assert run[j - 1 + 1].procs[v].state == Runnable;
  }

  lemma {:induction false} MoreWakes(o: Order, run: seq<State>, v: Pid, i: nat, j: nat)
    requires Run(o, run) && i <= j < |run| && forall k :: 0 <= k < |run| ==> v < |run[k].procs|
    requires run[j].procs[v].wakes > run[i].procs[v].wakes
    ensures MadeRunnable(run, v, i, j)
    decreases j - i
  {
    hide Inv, Enabled, After, Run, MadeRunnable;
    if i < j {
      var t := StepOf(o, run, j - 1);
      WakesCount(o, run[j - 1], t, v);
      if run[j - 1].procs[v].wakes > run[i].procs[v].wakes {
        MoreWakes(o, run, v, i, j - 1);
        MadeRunnableMono(run, v, i, j - 1, j);
      } else {
        MadeRunnableNow(run, v, i, j);
      }
    }
  }

  /** x took the bucket lock for the call w between i and i + 1, and still has it at j. */
  ghost predicate WakeupFromTo(run: seq<State>, x: Pid, w: Call, i: nat, j: nat) {
    && i < j < |run| && (forall k :: 0 <= k < |run| ==> x < |run[k].procs|)
    && run[i].procs[x].pc == WakeEnter(w)
    && forall k :: i < k <= j ==> Walking(run[k].procs[x].pc)
  }

  lemma {:induction false} WalkSnapshot(o: Order, run: seq<State>, x: Pid, w: Call, i: nat, j: nat)
    requires Run(o, run) && WakeupFromTo(run, x, w, i, j)
    ensures InWalk(run[j].procs[x].pc, w, Snapshot(run[i], w.chan))
    decreases j
  {
    hide Inv, Enabled, After, Run;
    var t := StepOf(o, run, j - 1);
    if j == i + 1 {
      WalkBegins(o, run[i], t, x, w);
    } else {
      WalkSnapshot(o, run, x, w, i, j - 1);
      WalkStays(o, run[j - 1], t, x, w, Snapshot(run[i], w.chan));
    }
  }

  lemma WalkBegins(o: Order, s: State, t: Step, x: Pid, w: Call)
    requires |s.queues| == |s.bucketLock| == NWQUEUE && Enabled(o, s, t) && x < |s.procs|
             && s.procs[x].pc == WakeEnter(w)
    requires |After(o, s, t).procs| == |s.procs| && Walking(After(o, s, t).procs[x].pc)
    ensures InWalk(After(o, s, t).procs[x].pc, w, Snapshot(s, w.chan))
  {
    PcAfter(o, s, t, x);
    hide Hash, CanAdvance, Snapshot, After;
  }

  // ---------- The guarantees ----------

  /** No lost wakeup: whoever had released lk inside sleep(chan) when a wakeup(chan) took the bucket
      lock has been made Runnable by the time that the wakeup has walked the list. */
  lemma NoLostWakeup(o: Order, run: seq<State>, x: Pid, w: Call, p: Pid, i: nat, j: nat)
    requires Run(o, run) && WakeupFromTo(run, x, w, i, j) && run[j].procs[x].pc.WakeExit? && !w.one
    requires (forall k :: 0 <= k < |run| ==> p < |run[k].procs|) && Committed(run[i].procs[p], w.chan)
    ensures MadeRunnable(run, p, i, j)
  {
    WalkSnapshot(o, run, x, w, i, j);
    RunInv(o, run, j);
    assert WalkOk(run[j], run[j].procs[x].pc);
    MoreWakes(o, run, p, i, j);
  }

  /** wakeup_one: if anybody was committed to sleep on the channel when it took the bucket lock, then
      it has made exactly one of them Runnable. */
  lemma WakeupOneWakesOne(o: Order, run: seq<State>, x: Pid, w: Call, i: nat, j: nat) returns (e: Pid)
    requires Run(o, run) && WakeupFromTo(run, x, w, i, j) && run[j].procs[x].pc.WakeExit? && w.one
    requires exists p :: 0 <= p < |run[i].procs| && Committed(run[i].procs[p], w.chan)
    ensures (forall k :: 0 <= k < |run| ==> e < |run[k].procs|) && Committed(run[i].procs[e], w.chan)
    ensures MadeRunnable(run, e, i, j)
    ensures |run[j].procs| == |run[i].procs|
    ensures forall q :: 0 <= q < |run[i].procs| && q != e && Committed(run[i].procs[q], w.chan) ==>
              run[j].procs[q].state == Sleeping && run[j].procs[q].chan == w.chan
  {
    WalkSnapshot(o, run, x, w, i, j);
    RunInv(o, run, j);
    assert WalkOk(run[j], run[j].procs[x].pc);
    var snap := Snapshot(run[i], w.chan);
    var p :| 0 <= p < |run[i].procs| && Committed(run[i].procs[p], w.chan);
    assert p in snap;
    assert OneWoken(run[j], w.chan, snap);
    e :| e in snap && OnlyWoken(run[j], w.chan, snap, e);
    forall k | 0 <= k < |run| ensures |run[k].procs| == |run[0].procs| {
      SameSize(o, run, k);
    }
    MoreWakes(o, run, e, i, j);
  }

  /** kkill: the sleep that it saw has ended by the time its wakeup has walked the list. */
  lemma KillEndsSleep(o: Order, run: seq<State>, x: Pid, v: Pid, i: nat, j: nat)
    requires Run(o, run) && i < j < |run| && forall k :: 0 <= k < |run| ==> x < |run[k].procs| && v < |run[k].procs|
    requires run[i].procs[x].pc == KillHold(v) && run[i].procs[v].state == Sleeping
    requires run[i + 1].procs[x].pc.WakeEnter?
    requires forall k :: i < k <= j ==> InWakeup(run[k].procs[x].pc) && !run[k].procs[x].pc.WakeReturn?
    requires run[j].procs[x].pc.WakeExit?
    ensures MadeRunnable(run, v, i, j)
  {
    KillCall(o, run, x, v, i, j);
    RunInv(o, run, j);
    assert WalkOk(run[j], run[j].procs[x].pc);
    MoreWakes(o, run, v, i, j);
  }

  lemma {:induction false} KillCall(o: Order, run: seq<State>, x: Pid, v: Pid, i: nat, j: nat)
    requires Run(o, run) && i < j < |run| && forall k :: 0 <= k < |run| ==> x < |run[k].procs| && v < |run[k].procs|
    requires run[i].procs[x].pc == KillHold(v) && run[i].procs[v].state == Sleeping
    requires run[i + 1].procs[x].pc.WakeEnter?
    requires forall k :: i < k <= j ==> InWakeup(run[k].procs[x].pc) && !run[k].procs[x].pc.WakeReturn?
    ensures InWakeup(run[j].procs[x].pc)
    ensures run[j].procs[x].pc.w == Call(run[i].procs[v].chan, false, false, Seen(v, run[i].procs[v].wakes))
    decreases j
  {
    hide Inv, Enabled, After, Run;
    var t := StepOf(o, run, j - 1);
    if j > i + 1 {
      KillCall(o, run, x, v, i, j - 1);
    }
    CallStays(o, run[j - 1], t, x);
  }

  lemma CallStays(o: Order, s: State, t: Step, x: Pid)
    requires |s.queues| == |s.bucketLock| == NWQUEUE && Enabled(o, s, t) && x < |s.procs| && x < |After(o, s, t).procs|
    ensures var pc, pc' := s.procs[x].pc, After(o, s, t).procs[x].pc;
            && (InWakeup(pc) && InWakeup(pc') ==> pc'.w == pc.w)
            && (pc.KillHold? && pc'.WakeEnter? && pc.v < |s.procs| ==>
                  pc'.w == Call(s.procs[pc.v].chan, false, false, Seen(pc.v, s.procs[pc.v].wakes)))
  {
    PcAfter(o, s, t, x);
    hide Hash, CanAdvance, Snapshot, After;
  }

  /** No process sleeps, or is about to, on a sleep-lock that is not locked, whenever nobody is inside
      its inner spinlock. */
  lemma NoSleeperOnFreeSleepLock(o: Order, run: seq<State>, i: nat, l: nat, p: Pid)
    requires Run(o, run) && i < |run| && p < |run[i].procs|
    requires l in run[i].sleepLocks && l !in run[i].locked && Inner(l) !in run[i].owner
    ensures !Committed(run[i].procs[p], l)
  {
    RunInv(o, run, i);
  }

  /** Queue/state agreement: with the bucket lock free, a process sleeps on a channel of the bucket
      exactly if it is in the bucket's list; and it is there once. */
  lemma QueueAgrees(o: Order, run: seq<State>, i: nat, b: nat, p: Pid)
    requires Run(o, run) && i < |run| && p < |run[i].procs| && b < NWQUEUE
    requires |run[i].bucketLock| == NWQUEUE && run[i].bucketLock[b] == None
    ensures |run[i].queues| == NWQUEUE
    ensures p in run[i].queues[b] <==> run[i].procs[p].state == Sleeping && Hash(run[i].procs[p].chan) == b
    ensures forall m, n :: 0 <= m < n < |run[i].queues[b]| ==> run[i].queues[b][m] != run[i].queues[b][n]
  {
    RunInv(o, run, i);
    var s := run[i];
    assert QueueOk(s, b) && PhaseOk(o, s, s.procs[p]) && LocksOk(s, p);
    hide Hash, Walks, SleepLocksOk, HeldLk, Run;
  }

  /** The lockless test, documented order: an empty bucket means that nobody is committed to sleep on
      any channel of it. */
  lemma FastPathSound(run: seq<State>, i: nat, c: nat, p: Pid)
    requires Run(Documented, run) && i < |run| && p < |run[i].procs|
    ensures |run[i].queues| == NWQUEUE
    ensures run[i].queues[Hash(c)] == [] ==> !Committed(run[i].procs[p], c)
  {
    RunInv(Documented, run, i);
    assert PhaseOk(Documented, run[i], run[i].procs[p]);
  }

  /** The lockless test, order of the code: an empty bucket means that nobody is committed to sleep on
      the channel if and only if the holder of the bucket lock, if there is one, is not between
      releasing lk and enqueueing itself for that channel. */
  lemma FastPathExact(run: seq<State>, i: nat, c: nat)
    requires Run(Coded, run) && i < |run|
    ensures |run[i].queues| == |run[i].bucketLock| == NWQUEUE
    ensures run[i].queues[Hash(c)] == [] ==>
              ((forall p :: 0 <= p < |run[i].procs| ==> !Committed(run[i].procs[p], c)) <==>
               !InGap(run[i], Hash(c), c))
  {
    RunInv(Coded, run, i);
    var s := run[i];
    forall p | 0 <= p < |s.procs| && s.queues[Hash(c)] == [] && Committed(s.procs[p], c) ensures InGap(s, Hash(c), c) {
      assert PhaseOk(Coded, s, s.procs[p]) && LocksOk(s, p);
    }
  }

  ghost predicate InGap(s: State, b: nat, c: nat)
    requires b < |s.bucketLock|
  {
    && s.bucketLock[b].Some? && s.bucketLock[b].value < |s.procs|
    && s.procs[s.bucketLock[b].value].pc.SleepGap? && s.procs[s.bucketLock[b].value].pc.j.chan == c
  }

  /** A process that holds a process lock needs no further lock for its next step. */
  lemma ProcLockLast(o: Order, s: State, r: Pid)
    requires |s.queues| == |s.bucketLock| == NWQUEUE && r < |s.procs|
    requires HoldsOwn(s.procs[r].pc) || Probing(s.procs[r].pc).Some?
    ensures CanAdvance(o, s, r)
  {
    hide Hash, Snapshot, Matches;
  }

  /** Lock order: whoever holds a process lock is never waiting for anything. */
  lemma ProcLockHolderCanStep(o: Order, run: seq<State>, i: nat, v: Pid)
    requires Run(o, run) && i < |run| && v < |run[i].procs| && run[i].procs[v].lock.Some?
    ensures |run[i].queues| == |run[i].bucketLock| == NWQUEUE && run[i].procs[v].lock.value < |run[i].procs|
    ensures CanAdvance(o, run[i], run[i].procs[v].lock.value)
  {
    RunInv(o, run, i);
    var s, r := run[i], run[i].procs[v].lock.value;
    assert LocksOk(s, r);
    hide Inv, Run, CanAdvance, HoldsOwn, Probing, HeldBucket, HeldLk;
    ProcLockLast(o, s, r);
  }

  /** A process that holds a bucket lock waits for nothing but a process lock. */
  lemma BucketLockNext(o: Order, s: State, r: Pid)
    requires |s.queues| == |s.bucketLock| == NWQUEUE && r < |s.procs| && HeldBucket(s.procs[r].pc).Some?
    requires s.procs[r].pc.WakeWalk? && s.procs[r].pc.rest != [] ==> s.procs[r].pc.rest[0] < |s.procs|
    ensures CanAdvance(o, s, r) || s.procs[r].lock.Some?
            || (s.procs[r].pc.WakeWalk? && s.procs[r].pc.rest != [] && s.procs[s.procs[r].pc.rest[0]].lock.Some?)
  {
    hide Hash, Snapshot, Matches;
  }

  /** And whoever holds a bucket lock waits for nothing but a process lock, whose holder can step: the
      order lk, bucket, process lock admits no cycle. */
  lemma BucketHolderCanStep(o: Order, run: seq<State>, i: nat, b: nat)
    requires Run(o, run) && i < |run| && b < NWQUEUE && |run[i].bucketLock| == NWQUEUE && run[i].bucketLock[b].Some?
    ensures |run[i].queues| == NWQUEUE && run[i].bucketLock[b].value < |run[i].procs|
    ensures || CanAdvance(o, run[i], run[i].bucketLock[b].value)
            || exists v :: 0 <= v < |run[i].procs| && run[i].procs[v].lock.Some?
                           && run[i].procs[v].lock.value < |run[i].procs|
                               && CanAdvance(o, run[i], run[i].procs[v].lock.value)
  {
    RunInv(o, run, i);
    var s, r := run[i], run[i].bucketLock[b].value;
    var pc := s.procs[r].pc;
    assert LocksOk(s, r) && WalkOk(s, pc) && QueueOk(s, b);
    hide Inv, Run, CanAdvance, HoldsOwn, Probing, HeldBucket, HeldLk, Covers;
    BucketLockNext(o, s, r);
    if s.procs[r].lock.Some? {
      ProcLockHolderCanStep(o, run, i, r);
    } else if pc.WakeWalk? && pc.rest != [] && s.procs[pc.rest[0]].lock.Some? {
      ProcLockHolderCanStep(o, run, i, pc.rest[0]);
    }
  }

  // ---------- Calls come to an end ----------

  function Stage(pc: Pc): nat {
    match pc
    case Idle => 0
    case WakeReturn(_) => 1
    case WakeExit(_, _) => 2
    case WakeProbe(_, _, _) => 3
    case WakeWalk(_, _, _) => 3
    case WakeEnter(_) => 4
    case RelTry(_) => 5
    case KillHold(_) => 5
    case KillTry(_) => 6
    case Relock(_) => 7
    case Woken(_) => 8
    case Asleep(_) => 9
    case Dozing(_) => 10
    case SleepReady(_) => 11
    case SleepGap(_) => 12
    case SleepFreed(_) => 12
    case SleepBoth(_) => 13
    case SleepListed(_) => 13
    case SleepBucket(_) => 14
    case SleepEnter(_) => 15
    case AcqTest(_) => 16
    case AcqTry(_) => 17
  }

  /** What a walk has before it. */
  function Before(pc: Pc): nat {
    if pc.WakeWalk? then 2 * |pc.rest| + 1 else if pc.WakeProbe? then 2 * |pc.rest| else 0
  }

  /** Every step inside a call brings the process nearer to its end, list element by list element in a walk; only
      acquiresleep, woken, goes back to its test. */
  lemma CallsEnd(o: Order, s: State, p: Pid)
    requires p < |s.procs| && |s.queues| == |s.bucketLock| == NWQUEUE && CanAdvance(o, s, p)
    ensures var pc, pc' := s.procs[p].pc, NextPc(o, s, p);
            || Stage(pc') < Stage(pc) || (Stage(pc') == Stage(pc) && Before(pc') < Before(pc))
            || (pc.Relock? && pc.j.acq && pc' == AcqTest(pc.j.chan))
  {
    hide Hash, CanGo, Snapshot, Matches;
  }
}
