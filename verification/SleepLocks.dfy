/** Sleep-locks (kernel/sleeplock.c) over whole runs of the sleep/wakeup machine, in terms of where the processes are:
    a call of acquiresleep returns, a call of releasesleep lets go. */
module SleepLocks {
  import opened Common
  import opened WaitQueue
  import opened SleepWakeup
  import opened SleepInvariant
  import opened SleepTheorems

  /** Between i and i + 1 process p returns from acquiresleep(l). */
  ghost predicate Acquires(run: seq<State>, i: nat, p: Pid, l: nat) {
    && i + 1 < |run| && p < |run[i].procs| && p < |run[i + 1].procs|
    && run[i].procs[p].pc == AcqTest(l) && run[i + 1].procs[p].pc == Idle
  }

  /** Between i and i + 1 process p lets go of l in releasesleep. */
  ghost predicate Releases(run: seq<State>, i: nat, p: Pid, l: nat) {
    && i + 1 < |run| && p < |run[i].procs| && p < |run[i + 1].procs|
    && run[i].procs[p].pc == RelTry(l) && run[i + 1].procs[p].pc != RelTry(l)
  }

  ghost predicate Unreleased(run: seq<State>, l: nat, i: nat, j: nat) {
    forall k, x :: i <= k < j ==> !Releases(run, k, x, l)
  }

  /** p has returned from acquiresleep(l) and nobody has let go of l since. */
  ghost predicate Taken(run: seq<State>, l: nat, p: Pid, j: nat) {
    exists i :: 0 <= i < j && Acquires(run, i, p, l) && Unreleased(run, l, i + 1, j)
  }

  /** One step, seen from a sleep-lock. */
  lemma LockedStep(o: Order, s: State, t: Step, l: nat)
    requires |s.queues| == |s.bucketLock| == NWQUEUE && Enabled(o, s, t)
    ensures var pc, pc', s' := s.procs[t.p].pc, StepPc(o, s, t), After(o, s, t);
            && (pc == AcqTest(l) && pc' == Idle ==> l !in s.locked && Holding(s', l, t.p))
            && (pc == AcqTest(l) && l in s.locked && t.Continue? ==> pc' == SleepEnter(Job(l, Inner(l), true)))
            && (pc == RelTry(l) && pc' != pc ==> l !in s'.locked)
            && (!(pc == AcqTest(l) && pc' == Idle) && !(pc == RelTry(l) && pc' != pc) ==>
                  (l in s'.locked <==> l in s.locked) && forall p :: Holding(s', l, p) <==> Holding(s, l, p))
  {
    hide Hash, CanGo, HeldBucket, Probing, HoldsOwn, Committed, Snapshot;
  }

  /** holdingsleep answers yes to exactly the process that has taken the lock. */
  lemma {:induction false} HoldingExactly(o: Order, run: seq<State>, l: nat, p: Pid, j: nat)
    requires Run(o, run) && j < |run|
    ensures Holding(run[j], l, p) <==> Taken(run, l, p, j)
  {
    hide Inv, Enabled, After, Releases, Acquires, StepPc;
    if j == 0 {
      FirstUnlocked(o, run);
    } else {
      HoldingExactly(o, run, l, p, j - 1);
      var t := StepOf(o, run, j - 1);
      TakenStep(o, run, l, p, j - 1, t);
    }
  }

  lemma FirstUnlocked(o: Order, run: seq<State>)
    requires Run(o, run)
    ensures run[0].locked == map[]
  {
  }

  lemma TakenStep(o: Order, run: seq<State>, l: nat, p: Pid, j: nat, t: Step)
    requires Run(o, run) && j + 1 < |run| && Inv(o, run[j]) && Enabled(o, run[j], t)
             && run[j + 1] == After(o, run[j], t)
    requires Holding(run[j], l, p) <==> Taken(run, l, p, j)
    ensures Holding(run[j + 1], l, p) <==> Taken(run, l, p, j + 1)
  {
    hide Inv, Enabled, After, StepPc, Unreleased;
    Basics(o, run[j], t);
    LockedStep(o, run[j], t, l);
    Movers(o, run, j, t, l);
    if Releases(run, j, t.p, l) {
      NotTakenAny(run, l, p, j, t.p);
    } else if Acquires(run, j, p, l) {
      UnreleasedNone(run, l, j + 1);
    } else {
      TakenOn(run, l, p, j);
    }
  }

  lemma Basics(o: Order, s: State, t: Step)
    requires Inv(o, s) && Enabled(o, s, t)
    ensures |s.queues| == |s.bucketLock| == NWQUEUE && t.p < |s.procs|
  {
    hide Locks, Phases, QueuesOk, Walks, SleepLocksOk, CanAdvance;
  }

  /** Nobody but the process that steps acquires or releases. */
  lemma Movers(o: Order, run: seq<State>, j: nat, t: Step, l: nat)
    requires j + 1 < |run| && |run[j].queues| == |run[j].bucketLock| == NWQUEUE
    requires Enabled(o, run[j], t) && run[j + 1] == After(o, run[j], t)
    ensures |run[j + 1].procs| == |run[j].procs| && t.p < |run[j].procs|
            && run[j + 1].procs[t.p].pc == StepPc(o, run[j], t)
    ensures forall x: Pid :: x != t.p ==> !Acquires(run, j, x, l) && !Releases(run, j, x, l)
  {
    hide After, StepPc, CanAdvance;
    PcAfter(o, run[j], t, t.p);
    forall x: Pid | x != t.p ensures !Acquires(run, j, x, l) && !Releases(run, j, x, l) {
      if x < |run[j].procs| {
        PcAfter(o, run[j], t, x);
      }
    }
  }

  lemma UnreleasedNone(run: seq<State>, l: nat, j: nat)
    ensures Unreleased(run, l, j, j)
  {
  }

  lemma NotTakenAny(run: seq<State>, l: nat, p: Pid, j: nat, x: Pid)
    requires Releases(run, j, x, l) && !Acquires(run, j, p, l)
    ensures !Taken(run, l, p, j + 1)
  {
  }

  lemma TakenOn(run: seq<State>, l: nat, p: Pid, j: nat)
    requires !Acquires(run, j, p, l) && forall x :: !Releases(run, j, x, l)
    ensures Taken(run, l, p, j + 1) <==> Taken(run, l, p, j)
  {
    hide Acquires;
    if Taken(run, l, p, j) {
      var i :| 0 <= i < j && Acquires(run, i, p, l) && Unreleased(run, l, i + 1, j);
      assert Unreleased(run, l, i + 1, j + 1);
    }
    if Taken(run, l, p, j + 1) {
      var i :| 0 <= i < j + 1 && Acquires(run, i, p, l) && Unreleased(run, l, i + 1, j + 1);
      assert i < j && Unreleased(run, l, i + 1, j);
    }
  }

  /** Mutual exclusion: between two returns from acquiresleep(l) somebody has let go of l. */
  lemma MutualExclusion(o: Order, run: seq<State>, l: nat, i: nat, p: Pid, j: nat, q: Pid)
    requires Run(o, run) && i < j && Acquires(run, i, p, l) && Acquires(run, j, q, l)
    ensures exists k, x :: i < k < j && Releases(run, k, x, l)
  {
    hide Inv, Enabled, After, StepPc, Releases;
    HoldingExactly(o, run, l, p, j);
    var t := StepOf(o, run, j);
    Basics(o, run[j], t);
    Movers(o, run, j, t, l);
    LockedStep(o, run[j], t, l);
    assert !Unreleased(run, l, i + 1, j);
  }

  /** acquiresleep(l) goes through its test exactly when nobody has the lock, and otherwise to sleep. */
  lemma AcquiresIffFree(o: Order, run: seq<State>, l: nat, p: Pid, j: nat)
    requires Run(o, run) && j < |run| && p < |run[j].procs| && run[j].procs[p].pc == AcqTest(l)
    requires |run[j].queues| == NWQUEUE
    ensures NextPc(o, run[j], p) == Idle <==> forall q :: !Taken(run, l, q, j)
    ensures NextPc(o, run[j], p) != Idle ==> NextPc(o, run[j], p) == SleepEnter(Job(l, Inner(l), true))
  {
    hide Taken;
    if l in run[j].locked {
      HoldingExactly(o, run, l, run[j].locked[l], j);
    } else {
      forall q ensures !Taken(run, l, q, j) {
        HoldingExactly(o, run, l, q, j);
      }
    }
  }

  /** The process is inside acquiresleep(l). */
  predicate InAcquire(pc: Pc, l: nat) {
    pc == AcqTry(l) || pc == AcqTest(l) || (InSleep(pc) && pc.j.acq && pc.j.chan == l)
  }

  /** While nobody lets go of l, whoever else is inside acquiresleep(l) stays there. */
  lemma {:induction false} OthersStay(o: Order, run: seq<State>, l: nat, i: nat, p: Pid, k: nat, q: Pid, j: nat)
    requires Run(o, run) && i < k <= j < |run| && Acquires(run, i, p, l) && Unreleased(run, l, i + 1, j)
    requires q < |run[k].procs| && InAcquire(run[k].procs[q].pc, l)
    ensures q < |run[j].procs| && InAcquire(run[j].procs[q].pc, l)
    decreases j - k
  {
    hide Inv, Enabled, After, StepPc, Releases, Acquires, InAcquire;
    if k < j {
      OthersStay(o, run, l, i, p, k, q, j - 1);
      var t := StepOf(o, run, j - 1);
      Basics(o, run[j - 1], t);
      assert Unreleased(run, l, i + 1, j - 1);
      HoldingExactly(o, run, l, p, j - 1);
      StaysInside(o, run[j - 1], t, l, q);
    }
  }

  lemma StaysInside(o: Order, s: State, t: Step, l: nat, q: Pid)
    requires |s.queues| == |s.bucketLock| == NWQUEUE && Enabled(o, s, t) && l in s.locked && q < |s.procs|
    requires InAcquire(s.procs[q].pc, l)
    ensures |After(o, s, t).procs| == |s.procs| && InAcquire(After(o, s, t).procs[q].pc, l)
  {
    PcAfter(o, s, t, q);
    hide Hash, After, CanGo, Snapshot;
  }

  // ---------- The spinlocks ----------

  /** Returning from acquiresleep or releasesleep, a process has let go of the inner spinlock. */
  lemma ReturnsUnlocked(o: Order, s: State, t: Step)
    requires |s.queues| == |s.bucketLock| == NWQUEUE && Enabled(o, s, t) && t.Continue? && StepPc(o, s, t) == Idle
    ensures s.procs[t.p].pc.AcqTest? ==> Inner(s.procs[t.p].pc.l) !in After(o, s, t).owner
    ensures s.procs[t.p].pc.WakeReturn? && s.procs[t.p].pc.w.rel ==>
              Inner(s.procs[t.p].pc.w.chan) !in After(o, s, t).owner
  {
    hide Hash, CanGo, HeldBucket, Probing, HoldsOwn, Committed, Snapshot;
  }

  /** The process has released lk inside sleep and has not taken it again. */
  predicate WithoutLk(pc: Pc) {
    pc.SleepGap? || pc.SleepFreed? || pc.SleepReady? || pc.Dozing? || pc.Asleep? || pc.Woken? || pc.Relock?
  }

  /** A process that sleeps, is about to, or has just been woken does not hold the lock it gave to sleep. */
  lemma {:induction false} SleepsWithoutLk(o: Order, run: seq<State>, i: nat, p: Pid)
    requires Run(o, run) && i < |run| && p < |run[i].procs| && WithoutLk(run[i].procs[p].pc)
    ensures run[i].procs[p].pc.j.lk in run[i].owner ==> run[i].owner[run[i].procs[p].pc.j.lk] != p
  {
    hide Inv, Enabled, After;
    if i == 0 {
      FirstIdle(o, run, p);
    } else {
      var t := StepOf(o, run, i - 1);
      Basics(o, run[i - 1], t);
      if WithoutLk(run[i - 1].procs[p].pc) {
        SleepsWithoutLk(o, run, i - 1, p);
      }
      LkStep(o, run[i - 1], t, p);
    }
  }

  lemma FirstIdle(o: Order, run: seq<State>, p: Pid)
    requires Run(o, run) && p < |run[0].procs|
    ensures run[0].procs[p].pc == Idle
  {
  }

  lemma LkStep(o: Order, s: State, t: Step, p: Pid)
    requires |s.queues| == |s.bucketLock| == NWQUEUE && Enabled(o, s, t) && p < |s.procs|
    requires WithoutLk(s.procs[p].pc) ==> s.procs[p].pc.j.lk in s.owner ==> s.owner[s.procs[p].pc.j.lk] != p
    ensures |After(o, s, t).procs| == |s.procs|
    ensures var s' := After(o, s, t); var pc := s'.procs[p].pc;
            WithoutLk(pc) ==> pc.j.lk in s'.owner ==> s'.owner[pc.j.lk] != p
  {
    hide Go, After, CanGo, Enqueue, WakeFront, Matches, Snapshot, Hash;
    OwnerAfter(o, s, t);
    PcAfter(o, s, t, p);
    if t.p == p {
      if WithoutLk(StepPc(o, s, t)) {
        OwnLk(o, s, t);
      }
    } else {
      OthersLk(o, s, t);
    }
  }

  lemma OwnerAfter(o: Order, s: State, t: Step)
    requires |s.queues| == |s.bucketLock| == NWQUEUE && Enabled(o, s, t)
    ensures After(o, s, t).owner == StepUpdate(o, s, t).owner
  {
    hide StepUpdate, StepPc, CanGo, HoldsLock, HeldBucket;
  }

  lemma OwnLk(o: Order, s: State, t: Step)
    requires |s.queues| == |s.bucketLock| == NWQUEUE && Enabled(o, s, t) && WithoutLk(StepPc(o, s, t))
    requires var pc := s.procs[t.p].pc; WithoutLk(pc) ==> pc.j.lk in s.owner ==> s.owner[pc.j.lk] != t.p
    ensures var lk, owner := StepPc(o, s, t).j.lk, StepUpdate(o, s, t).owner; lk in owner ==> owner[lk] != t.p
  {
    hide CanGo, Snapshot, Hash, Matches;
  }

  lemma OthersLk(o: Order, s: State, t: Step)
    requires |s.queues| == |s.bucketLock| == NWQUEUE && Enabled(o, s, t)
    ensures var owner := StepUpdate(o, s, t).owner;
            forall lk :: lk in owner && owner[lk] != t.p ==> lk in s.owner && s.owner[lk] == owner[lk]
  {
    hide CanGo, Snapshot, Hash, Matches;
  }

  /** And sleep returns with the lock, which was free. */
  lemma SleepReturnsWithLk(o: Order, s: State, t: Step)
    requires |s.queues| == |s.bucketLock| == NWQUEUE && Enabled(o, s, t) && t.Continue? && s.procs[t.p].pc.Relock?
    ensures var lk, s' := s.procs[t.p].pc.j.lk, After(o, s, t); lk !in s.owner && lk in s'.owner && s'.owner[lk] == t.p
  {
    hide Hash, CanGo, HeldBucket, Probing, HoldsOwn, Committed, Snapshot;
  }
}
