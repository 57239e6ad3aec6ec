/** The invariant of the sleep/wakeup machine and the proof that every step keeps it, in both
    orders of sleep(). */
module SleepInvariant {
  import opened Common
  import opened WaitQueue
  import opened SleepWakeup

  // ---------- What every reachable state satisfies ----------

  /** The condition lock that a process at pc holds. */
  function HeldLk(pc: Pc): Option<nat> {
    match pc
    case SleepEnter(j) => Some(j.lk)
    case SleepBucket(j) => Some(j.lk)
    case SleepBoth(j) => Some(j.lk)
    case SleepListed(j) => Some(j.lk)
    case AcqTest(l) => Some(Inner(l))
    case WakeEnter(w) => if w.rel then Some(Inner(w.chan)) else None
    case WakeWalk(w, _, _) => if w.rel then Some(Inner(w.chan)) else None
    case WakeProbe(w, _, _) => if w.rel then Some(Inner(w.chan)) else None
    case WakeExit(w, _) => if w.rel then Some(Inner(w.chan)) else None
    case WakeReturn(w) => if w.rel then Some(Inner(w.chan)) else None
    case _ => None
  }

  predicate InSleep(pc: Pc) {
    || pc.SleepEnter? || pc.SleepBucket? || pc.SleepBoth? || pc.SleepGap? || pc.SleepListed? || pc.SleepFreed?
    || pc.SleepReady? || pc.Dozing? || pc.Asleep? || pc.Woken? || pc.Relock?
  }

  predicate InWakeup(pc: Pc) {
    pc.WakeEnter? || pc.WakeWalk? || pc.WakeProbe? || pc.WakeExit? || pc.WakeReturn?
  }

  /** The process's entry is linked in a bucket. */
  predicate OnList(p: Process) {
    p.pc.SleepListed? || p.pc.SleepFreed? || p.pc.SleepReady? || p.state == Sleeping
  }

  /** The bucket and process locks that p holds are exactly those its program counter says. */
  ghost predicate SpinOk(s: State, p: Pid)
    requires p < |s.procs| && |s.bucketLock| == NWQUEUE
  {
    var pc := s.procs[p].pc;
    && (forall b :: 0 <= b < NWQUEUE ==> (s.bucketLock[b] == Some(p) <==> HeldBucket(pc) == Some(b)))
    && (forall v :: 0 <= v < |s.procs| ==> (s.procs[v].lock == Some(p) <==> HoldsLock(pc, p, v)))
  }

  /** And p holds the condition lock that its program counter says. */
  ghost predicate LocksOk(s: State, p: Pid)
    requires p < |s.procs| && |s.bucketLock| == NWQUEUE
  {
    && SpinOk(s, p)
    && var h := HeldLk(s.procs[p].pc); h.Some? ==> h.value in s.owner && s.owner[h.value] == p
  }

  ghost predicate Locks(s: State)
    requires |s.bucketLock| == NWQUEUE
  {
    && (forall p :: 0 <= p < |s.procs| ==> LocksOk(s, p))
    && (forall b :: 0 <= b < NWQUEUE && s.bucketLock[b].Some? ==> s.bucketLock[b].value < |s.procs|)
    && (forall v :: 0 <= v < |s.procs| && s.procs[v].lock.Some? ==> s.procs[v].lock.value < |s.procs|)
  }

  ghost predicate PhaseOk(o: Order, s: State, me: Process) {
    && (me.state == Sleeping ==> (me.pc.Dozing? || me.pc.Asleep?) && me.chan == me.pc.j.chan)
    && (me.pc.Dozing? ==> me.state == Sleeping)
    && (me.state == Runnable ==> me.pc.Asleep?)
    && (me.pc.Asleep? ==> me.state != Running)
    && (OnList(me) ==> me.entry == me.pc.j.chan)
    && (o == Documented ==> !me.pc.SleepBoth? && !me.pc.SleepGap?)
    && (o == Coded ==> !me.pc.SleepListed? && !me.pc.SleepFreed?)
    && (InSleep(me.pc) ==>
          (me.pc.j.acq <==> me.pc.j.chan in s.sleepLocks) && (me.pc.j.acq ==> me.pc.j.lk == Inner(me.pc.j.chan)))
    && (InSleep(me.pc) && me.pc.j.acq && HeldLk(me.pc).Some? ==> me.pc.j.chan in s.locked)
    && (me.pc.AcqTry? || me.pc.AcqTest? || me.pc.RelTry? ==> me.pc.l in s.sleepLocks)
    && (InWakeup(me.pc) && me.pc.w.rel ==> me.pc.w.chan in s.sleepLocks && !me.pc.w.one)
  }

  ghost predicate Phases(o: Order, s: State) {
    forall p :: 0 <= p < |s.procs| ==> PhaseOk(o, s, s.procs[p])
  }

  /** A bucket lists, once each, exactly the processes that are on a list for one of its channels. */
  ghost predicate QueuesOk(s: State)
    requires |s.queues| == NWQUEUE
  {
    && (forall b :: 0 <= b < NWQUEUE ==> QueueOk(s, b))
    && (forall p :: 0 <= p < |s.procs| && OnList(s.procs[p]) ==> p in s.queues[Hash(s.procs[p].entry)])
  }

  ghost predicate QueueOk(s: State, b: nat)
    requires b < |s.queues|
  {
    && (forall i :: 0 <= i < |s.queues[b]| ==>
          s.queues[b][i] < |s.procs| && OnList(s.procs[s.queues[b][i]]) && Hash(s.procs[s.queues[b][i]].entry) == b)
    && (forall i, k :: 0 <= i < k < |s.queues[b]| ==> s.queues[b][i] != s.queues[b][k])
  }

  ghost predicate IsSuffix(rest: seq<Pid>, q: seq<Pid>) {
    |rest| <= |q| && rest == q[|q| - |rest|..]
  }

  /** The process kkill saw asleep is still in that sleep, on that channel, or has been woken since. */
  ghost predicate VictimPending(s: State, w: Call) {
    w.victim.Seen? ==>
      var Seen(v, n) := w.victim;
      && v < |s.procs| && !w.one
      && (s.procs[v].wakes > n || (s.procs[v].wakes == n && s.procs[v].state == Sleeping && s.procs[v].chan == w.chan))
  }

  ghost predicate VictimSeen(s: State, w: Call, snap: map<Pid, nat>) {
    w.victim.Seen? ==>
      var Seen(v, n) := w.victim;
      && v < |s.procs| && !w.one
      && (s.procs[v].wakes > n || (v in snap && snap[v] == n))
  }

  /** A walk in progress: whoever was committed when it began is ahead of it, still asleep, or has
      been woken; and nobody else is committed. */
  ghost predicate Covers(s: State, w: Call, rest: seq<Pid>, snap: map<Pid, nat>) {
    && VictimSeen(s, w, snap)
    && (forall q :: q in snap ==>
          && q < |s.procs|
          && (|| (s.procs[q].wakes == snap[q] && s.procs[q].state == Sleeping && s.procs[q].chan == w.chan && q in rest)
              || (!w.one && s.procs[q].wakes > snap[q])))
    && (forall q :: 0 <= q < |s.procs| && Committed(s.procs[q], w.chan) ==> q in snap && s.procs[q].wakes == snap[q])
  }

  ghost predicate AllWoken(s: State, snap: map<Pid, nat>) {
    forall q :: q in snap ==> q < |s.procs| && s.procs[q].wakes > snap[q]
  }

  ghost predicate OneWoken(s: State, chan: nat, snap: map<Pid, nat>) {
    exists e :: e in snap && OnlyWoken(s, chan, snap, e)
  }

  ghost predicate OnlyWoken(s: State, chan: nat, snap: map<Pid, nat>, e: Pid)
    requires e in snap
  {
    && e < |s.procs| && s.procs[e].wakes > snap[e]
    && forall q :: q in snap && q != e ==>
         q < |s.procs| && s.procs[q].wakes == snap[q] && s.procs[q].state == Sleeping && s.procs[q].chan == chan
  }

  /** A walk that is over. */
  ghost predicate Finished(s: State, w: Call, snap: map<Pid, nat>) {
    && VictimSeen(s, w, snap)
    && (!w.one ==> AllWoken(s, snap) && forall q :: 0 <= q < |s.procs| ==> !Committed(s.procs[q], w.chan))
    && (w.one ==> snap == map[] || OneWoken(s, w.chan, snap))
  }

  ghost predicate WalkOk(s: State, pc: Pc)
    requires |s.queues| == NWQUEUE
  {
    match pc
    case WakeEnter(w) => VictimPending(s, w)
    case WakeWalk(w, rest, snap) => IsSuffix(rest, s.queues[Hash(w.chan)]) && Covers(s, w, rest, snap)
    case WakeProbe(w, rest, snap) =>
      rest != [] && IsSuffix(rest, s.queues[Hash(w.chan)]) && Covers(s, w, rest, snap)
    case WakeExit(w, snap) => Finished(s, w, snap)
    case KillTry(v) => v < |s.procs|
    case KillHold(v) => v < |s.procs|
    case _ => true
  }

  ghost predicate Walks(s: State)
    requires |s.queues| == NWQUEUE
  {
    forall p :: 0 <= p < |s.procs| ==> WalkOk(s, s.procs[p].pc)
  }

  /** The process at pc is inside releasesleep(l), before the end of its wakeup. */
  predicate Releasing(pc: Pc, l: nat) {
    (pc.WakeEnter? || pc.WakeWalk? || pc.WakeProbe?) && pc.w.rel && pc.w.chan == l
  }

  /** Somebody committed to sleep on a sleep-lock that is not locked: its release is under way. */
  ghost predicate SleepLocksOk(s: State) {
    forall p, l :: 0 <= p < |s.procs| && l in s.sleepLocks && l !in s.locked && Committed(s.procs[p], l) ==>
      Inner(l) in s.owner && s.owner[Inner(l)] < |s.procs| && Releasing(s.procs[s.owner[Inner(l)]].pc, l)
  }

  ghost predicate Inv(o: Order, s: State) {
    && |s.queues| == |s.bucketLock| == NWQUEUE
    && Locks(s) && Phases(o, s) && QueuesOk(s) && Walks(s) && SleepLocksOk(s)
  }

  lemma InitInv(o: Order, s: State)
    requires Init(s)
    ensures Inv(o, s)
  {
  }

  // ---------- What one step can do ----------

  predicate LockEffect(p: Pid, a: Option<Pid>, a': Option<Pid>) {
    a' == a || (a == None && a' == Some(p)) || (a == Some(p) && a' == None)
  }

  /** Taking and releasing locks: p keeps exactly the locks that its program counter says. */
  lemma GoLocks(s: State, p: Pid, next: Pc)
    requires |s.bucketLock| == NWQUEUE && p < |s.procs| && SpinOk(s, p) && CanGo(s, p, next)
    ensures SpinOk(Go(s, p, next), p)
    ensures forall v :: 0 <= v < |s.procs| ==> LockEffect(p, s.procs[v].lock, Go(s, p, next).procs[v].lock)
    ensures forall b :: 0 <= b < NWQUEUE ==> LockEffect(p, s.bucketLock[b], Go(s, p, next).bucketLock[b])
  {
    hide Hash, HeldBucket, HoldsOwn, Probing, HeldLk;
  }

  /** A step of p leaves another process where it is; at most it takes or gives back its lock, or,
      holding that lock and the bucket lock, wakes it. */
  ghost predicate SideEffect(s: State, p: Pid, a: Process, a': Process)
    requires |s.bucketLock| == NWQUEUE
  {
    && a'.pc == a.pc && a'.chan == a.chan && a'.entry == a.entry
    && LockEffect(p, a.lock, a'.lock)
    && (|| (a'.state == a.state && a'.wakes == a.wakes)
        || (&& a.state == Sleeping && a'.state == Runnable && a'.wakes == a.wakes + 1 && a.lock == Some(p)
            && s.bucketLock[Hash(a.chan)] == Some(p)))
  }

  /** What a step of p does to p: it never wakes itself or leaves a list, and it commits to sleep on
      a channel only while it holds the channel's bucket lock. */
  ghost predicate OwnEffect(s: State, p: Pid, a: Process, a': Process)
    requires |s.bucketLock| == NWQUEUE
  {
    && a'.wakes == a.wakes && LockEffect(p, a.lock, a'.lock)
    && (a.state == Sleeping ==> a'.state == Sleeping && a'.chan == a.chan)
    && (OnList(a) ==> OnList(a') && a'.entry == a.entry)
    && (forall c :: Committed(a', c) && !Committed(a, c) ==> s.bucketLock[Hash(c)] == Some(p))
  }

  /** A step of p touches only locks that are free or its own, and the lists of buckets it has locked. */
  ghost predicate Effect(s: State, p: Pid, s': State)
    requires |s.bucketLock| == |s.queues| == NWQUEUE
  {
    && |s'.procs| == |s.procs| && |s'.bucketLock| == |s'.queues| == NWQUEUE && s'.sleepLocks == s.sleepLocks
    && p < |s.procs| && OwnEffect(s, p, s.procs[p], s'.procs[p])
    && (forall q :: 0 <= q < |s.procs| && q != p ==> SideEffect(s, p, s.procs[q], s'.procs[q]))
    && (forall b :: 0 <= b < NWQUEUE ==> LockEffect(p, s.bucketLock[b], s'.bucketLock[b]))
    && (forall b :: 0 <= b < NWQUEUE && s.bucketLock[b] != Some(p) ==> s'.queues[b] == s.queues[b])
    && (forall k :: k in s.owner && s.owner[k] != p ==> k in s'.owner && s'.owner[k] == s.owner[k])
    && (forall l :: Inner(l) in s.owner && s.owner[Inner(l)] != p ==> (l in s'.locked <==> l in s.locked))
  }

  /** The part of Effect that the update alone decides. */
  ghost predicate UpdateEffect(s: State, p: Pid, u: State)
    requires |s.bucketLock| == |s.queues| == NWQUEUE
  {
    && |u.procs| == |s.procs| && u.bucketLock == s.bucketLock && |u.queues| == NWQUEUE && u.sleepLocks == s.sleepLocks
    && p < |s.procs| && u.procs[p].pc == s.procs[p].pc && u.procs[p].lock == s.procs[p].lock
    && (forall q :: 0 <= q < |s.procs| && q != p ==>
          u.procs[q].lock == s.procs[q].lock && SideEffect(s, p, s.procs[q], u.procs[q]))
    && (forall b :: 0 <= b < NWQUEUE && s.bucketLock[b] != Some(p) ==> u.queues[b] == s.queues[b])
    && (forall k :: k in s.owner && s.owner[k] != p ==> k in u.owner && u.owner[k] == s.owner[k])
    && (forall l :: Inner(l) in s.owner && s.owner[Inner(l)] != p ==> (l in u.locked <==> l in s.locked))
  }

  /** What the case analysis below needs of the process that steps. */
  ghost predicate StepPre(o: Order, s: State, t: Step) {
    && |s.queues| == |s.bucketLock| == NWQUEUE && Enabled(o, s, t) && LocksOk(s, t.p) && PhaseOk(o, s, s.procs[t.p])
    && (s.procs[t.p].pc.WakeProbe? ==> var rest := s.procs[t.p].pc.rest;
          rest != [] && rest[0] < |s.procs| && OnList(s.procs[rest[0]]))
  }

  lemma SleepUpdateDoes(o: Order, s: State, t: Step)
    requires StepPre(o, s, t) && InSleep(s.procs[t.p].pc)
    ensures UpdateEffect(s, t.p, StepUpdate(o, s, t))
  {
    hide Hash, CanGo, NextPc, Committed, PhaseOk;
  }

  lemma UpdateDoes(o: Order, s: State, t: Step)
    requires StepPre(o, s, t) && !s.procs[t.p].pc.WakeProbe? && !InSleep(s.procs[t.p].pc)
    ensures UpdateEffect(s, t.p, StepUpdate(o, s, t))
  {
    hide Hash, CanGo, NextPc, Committed, PhaseOk;
  }

  lemma ProbeUpdateDoes(o: Order, s: State, t: Step)
    requires StepPre(o, s, t) && s.procs[t.p].pc.WakeProbe?
    ensures UpdateEffect(s, t.p, StepUpdate(o, s, t))
  {
    hide Hash;
  }

  lemma MyHeldLk(o: Order, s: State, t: Step)
    requires StepPre(o, s, t)
    ensures var u := StepUpdate(o, s, t);
            var h := HeldLk(StepPc(o, s, t));
            h.Some? ==> h.value in u.owner && u.owner[h.value] == t.p
  {
    hide Hash, CanGo, SpinOk, Committed;
  }

  lemma MyPhaseInSleep(o: Order, s: State, t: Step)
    requires StepPre(o, s, t) && InSleep(s.procs[t.p].pc)
    ensures PhaseOk(o, StepUpdate(o, s, t), StepUpdate(o, s, t).procs[t.p].(pc := StepPc(o, s, t)))
  {
    hide Hash, CanGo, SpinOk, Committed;
  }

  lemma MyPhaseElsewhere(o: Order, s: State, t: Step)
    requires StepPre(o, s, t) && !InSleep(s.procs[t.p].pc)
    ensures PhaseOk(o, StepUpdate(o, s, t), StepUpdate(o, s, t).procs[t.p].(pc := StepPc(o, s, t)))
  {
    hide Hash, CanGo, SpinOk, Committed;
  }

  lemma MyEffect(o: Order, s: State, t: Step, a': Process)
    requires StepPre(o, s, t) && LockEffect(t.p, s.procs[t.p].lock, a'.lock)
    requires a' == StepUpdate(o, s, t).procs[t.p].(pc := StepPc(o, s, t), lock := a'.lock)
    ensures OwnEffect(s, t.p, s.procs[t.p], a')
  {
    hide PhaseOk, LocksOk, CanAdvance, StepUpdate, StepPc, OwnEffect, LockEffect;
    if InSleep(s.procs[t.p].pc) {
      MyEffectInSleep(o, s, t, a');
    } else {
      MyEffectElsewhere(o, s, t, a');
    }
  }

  lemma MyEffectInSleep(o: Order, s: State, t: Step, a': Process)
    requires StepPre(o, s, t) && LockEffect(t.p, s.procs[t.p].lock, a'.lock) && InSleep(s.procs[t.p].pc)
    requires a' == StepUpdate(o, s, t).procs[t.p].(pc := StepPc(o, s, t), lock := a'.lock)
    ensures OwnEffect(s, t.p, s.procs[t.p], a')
  {
    hide Hash, CanGo, Snapshot, HoldsLock;
  }

  lemma MyEffectElsewhere(o: Order, s: State, t: Step, a': Process)
    requires StepPre(o, s, t) && LockEffect(t.p, s.procs[t.p].lock, a'.lock) && !InSleep(s.procs[t.p].pc)
    requires a' == StepUpdate(o, s, t).procs[t.p].(pc := StepPc(o, s, t), lock := a'.lock)
    ensures OwnEffect(s, t.p, s.procs[t.p], a')
  {
    hide Hash, CanGo, Snapshot, HoldsLock;
  }

  lemma StepCanGo(o: Order, s: State, t: Step)
    requires StepPre(o, s, t)
    ensures CanGo(s, t.p, StepPc(o, s, t))
  {
    hide Hash, SpinOk, PhaseOk, HeldLk;
  }

  lemma PhaseGo(o: Order, u: State, s': State, a: Process, a': Process)
    requires PhaseOk(o, u, a) && s'.sleepLocks == u.sleepLocks && s'.locked == u.locked && a' == a.(lock := a'.lock)
    ensures PhaseOk(o, s', a')
  {
  }

  /** One step: its effect on everybody, and the stepping process's own locks and phase. */
  lemma StepDoes(o: Order, s: State, t: Step)
    requires StepPre(o, s, t)
    ensures Effect(s, t.p, After(o, s, t))
    ensures LocksOk(After(o, s, t), t.p) && PhaseOk(o, After(o, s, t), After(o, s, t).procs[t.p])
  {
    hide Hash, StepUpdate, StepPc, HeldBucket, Probing, HoldsOwn, HeldLk, Committed, OnList, CanAdvance, PhaseOk,
         OwnEffect;
    var p, u, next, s' := t.p, StepUpdate(o, s, t), StepPc(o, s, t), After(o, s, t);
    if InSleep(s.procs[p].pc) {
      SleepUpdateDoes(o, s, t);
      MyPhaseInSleep(o, s, t);
    } else {
      if s.procs[p].pc.WakeProbe? { ProbeUpdateDoes(o, s, t); } else { UpdateDoes(o, s, t); }
      MyPhaseElsewhere(o, s, t);
    }
    MyHeldLk(o, s, t);
    StepCanGo(o, s, t);
    GoLocks(u, p, next);
    PhaseGo(o, u, s', u.procs[p].(pc := next), s'.procs[p]);
    MyEffect(o, s, t, s'.procs[p]);
  }

  // ---------- Every other process keeps its part of the invariant ----------

  lemma OtherLocks(s: State, p: Pid, s': State, q: Pid)
    requires |s.bucketLock| == |s.queues| == NWQUEUE && Effect(s, p, s') && q < |s.procs| && q != p && LocksOk(s, q)
    ensures LocksOk(s', q)
  {
    hide Hash, HeldBucket, Probing, HoldsOwn, HeldLk, Committed, OnList;
  }

  lemma OtherPhase(o: Order, s: State, p: Pid, s': State, q: Pid)
    requires |s.bucketLock| == |s.queues| == NWQUEUE && Effect(s, p, s') && q < |s.procs| && q != p && LocksOk(s, q)
    requires PhaseOk(o, s, s.procs[q])
    ensures PhaseOk(o, s', s'.procs[q])
  {
    hide Hash;
  }

  /** Nobody gets into or out of a sleep on a channel while another process holds its bucket lock. */
  lemma SleepersFixed(o: Order, s: State, p: Pid, s': State, c: nat, r: Pid)
    requires |s.bucketLock| == |s.queues| == NWQUEUE && Effect(s, p, s') && r < |s.procs|
    requires s.bucketLock[Hash(c)] != Some(p) && PhaseOk(o, s, s.procs[r])
    ensures s'.procs[r].wakes >= s.procs[r].wakes
    ensures s.procs[r].state == Sleeping && s.procs[r].chan == c ==>
              s'.procs[r].state == Sleeping && s'.procs[r].chan == c && s'.procs[r].wakes == s.procs[r].wakes
    ensures Committed(s'.procs[r], c) ==> Committed(s.procs[r], c) && s'.procs[r].wakes == s.procs[r].wakes
  {
    hide Hash;
  }

  lemma VictimKept(s: State, p: Pid, s': State, v: Pid)
    requires |s.bucketLock| == |s.queues| == NWQUEUE && Effect(s, p, s') && v < |s.procs|
    ensures s'.procs[v].wakes >= s.procs[v].wakes
    ensures s.procs[v].state == Sleeping && s'.procs[v].wakes == s.procs[v].wakes ==>
              s'.procs[v].state == Sleeping && s'.procs[v].chan == s.procs[v].chan
  {
    if v != p {
      assert SideEffect(s, p, s.procs[v], s'.procs[v]);
    }
  }

  /** What a step of p leaves alone for a walk of another process on channel c. */
  ghost predicate Undisturbed(s: State, s': State, c: nat) {
    && |s'.procs| == |s.procs|
    && forall r :: 0 <= r < |s.procs| ==>
         && s'.procs[r].wakes >= s.procs[r].wakes
         && (s.procs[r].state == Sleeping && s.procs[r].chan == c ==>
               s'.procs[r].state == Sleeping && s'.procs[r].chan == c && s'.procs[r].wakes == s.procs[r].wakes)
         && (Committed(s'.procs[r], c) ==> Committed(s.procs[r], c) && s'.procs[r].wakes == s.procs[r].wakes)
  }

  lemma CoversUndisturbed(s: State, s': State, w: Call, rest: seq<Pid>, snap: map<Pid, nat>)
    requires Undisturbed(s, s', w.chan) && Covers(s, w, rest, snap)
    ensures Covers(s', w, rest, snap)
  {
    hide Committed;
  }

  lemma FinishedUndisturbed(s: State, s': State, w: Call, snap: map<Pid, nat>)
    requires Undisturbed(s, s', w.chan) && Finished(s, w, snap)
    ensures Finished(s', w, snap)
  {
    hide Committed;
    if w.one && snap != map[] {
      var e :| e in snap && OnlyWoken(s, w.chan, snap, e);
      assert OnlyWoken(s', w.chan, snap, e);
    }
  }

  lemma OtherWalk(o: Order, s: State, p: Pid, s': State, q: Pid)
    requires |s.bucketLock| == |s.queues| == NWQUEUE && Effect(s, p, s') && q < |s.procs| && q != p && LocksOk(s, q)
    requires Phases(o, s) && WalkOk(s, s.procs[q].pc)
    ensures WalkOk(s', s'.procs[q].pc)
  {
    var pc := s.procs[q].pc;
    assert SideEffect(s, p, s.procs[q], s'.procs[q]);
    if pc.WakeEnter? && pc.w.victim.Seen? {
      VictimKept(s, p, s', pc.w.victim.v);
    } else if pc.WakeWalk? || pc.WakeProbe? || pc.WakeExit? {
      assert s.bucketLock[Hash(pc.w.chan)] == Some(q);
      hide Hash, Committed, SideEffect, OwnEffect, Covers, Finished, PhaseOk, SpinOk;
      assert Undisturbed(s, s', pc.w.chan) by {
        forall r | 0 <= r < |s.procs| {
          SleepersFixed(o, s, p, s', pc.w.chan, r);
        }
      }
      if pc.WakeExit? {
        FinishedUndisturbed(s, s', pc.w, pc.snap);
      } else {
        CoversUndisturbed(s, s', pc.w, pc.rest, pc.snap);
      }
    }
  }

  // ---------- The walk of the process that steps ----------

  /** The step changed nothing that a walk on channel c looks at. */
  ghost predicate SameSleepers(s: State, s': State) {
    && |s'.procs| == |s.procs|
    && forall q :: 0 <= q < |s.procs| ==>
         && s'.procs[q].state == s.procs[q].state && s'.procs[q].chan == s.procs[q].chan
         && s'.procs[q].wakes == s.procs[q].wakes && s'.procs[q].entry == s.procs[q].entry
         && forall c :: Committed(s'.procs[q], c) <==> Committed(s.procs[q], c)
  }

  /** A process whose entry is on the list for c while the bucket lock is not its own is asleep on c,
      and every process committed to c is on the list. */
  lemma ListedAsleep(o: Order, s: State, c: nat, q: Pid)
    requires Inv(o, s) && q < |s.procs| && s.bucketLock[Hash(c)] != Some(q)
    ensures OnList(s.procs[q]) && s.procs[q].entry == c ==> s.procs[q].state == Sleeping && s.procs[q].chan == c
    ensures Committed(s.procs[q], c) ==> s.procs[q].state == Sleeping && s.procs[q].chan == c && q in s.queues[Hash(c)]
  {
    assert PhaseOk(o, s, s.procs[q]) && LocksOk(s, q);
    hide Hash, Walks, SleepLocksOk, HeldLk;
  }

  lemma StartWalk(o: Order, s: State, s': State, w: Call)
    requires Inv(o, s) && SameSleepers(s, s') && s.bucketLock[Hash(w.chan)] == None && VictimPending(s, w)
    ensures Covers(s', w, s.queues[Hash(w.chan)], Snapshot(s, w.chan))
  {
    forall q | 0 <= q < |s.procs| && Committed(s.procs[q], w.chan)
      ensures s.procs[q].state == Sleeping && s.procs[q].chan == w.chan && q in s.queues[Hash(w.chan)]
    {
      ListedAsleep(o, s, w.chan, q);
    }
    hide Inv, Hash;
  }

  lemma SkipEntry(o: Order, s: State, s': State, p: Pid, w: Call, rest: seq<Pid>, snap: map<Pid, nat>)
    requires Inv(o, s) && SameSleepers(s, s') && rest != [] && rest[0] < |s.procs| && Covers(s, w, rest, snap)
    requires s.procs[rest[0]].entry != w.chan || !Matches(s, w, rest)
    ensures Covers(s', w, rest[1..], snap)
  {
    assert PhaseOk(o, s, s.procs[rest[0]]);
    hide Inv, Hash, Committed;
    assert rest == [rest[0]] + rest[1..];
  }

  lemma EndWalk(s: State, s': State, w: Call, snap: map<Pid, nat>)
    requires SameSleepers(s, s') && Covers(s, w, [], snap)
    ensures Finished(s', w, snap)
  {
    hide Committed;
    assert w.one ==> snap.Keys == {};
  }

  /** The step woke e and changed nothing else that a walk looks at. */
  ghost predicate Wakes(s: State, s': State, e: Pid) {
    && |s'.procs| == |s.procs| && e < |s.procs|
    && s'.procs[e].wakes == s.procs[e].wakes + 1 && (forall c :: !Committed(s'.procs[e], c))
    && forall q :: 0 <= q < |s.procs| && q != e ==>
         && s'.procs[q].state == s.procs[q].state && s'.procs[q].chan == s.procs[q].chan
         && s'.procs[q].wakes == s.procs[q].wakes
         && forall c :: Committed(s'.procs[q], c) <==> Committed(s.procs[q], c)
  }

  lemma WakeEntry(s: State, s': State, w: Call, rest: seq<Pid>, snap: map<Pid, nat>)
    requires rest != [] && rest[0] !in rest[1..] && rest[0] < |s.procs| && Matches(s, w, rest)
    requires Covers(s, w, rest, snap) && Wakes(s, s', rest[0])
    ensures !w.one ==> Covers(s', w, rest[1..], snap)
    ensures w.one ==> Finished(s', w, snap)
  {
    var e := rest[0];
    assert Committed(s.procs[e], w.chan);
    assert rest == [e] + rest[1..];
    hide Committed;
    if w.one {
      assert OnlyWoken(s', w.chan, snap, e);
    }
  }

  /** A step of a process outside sleep() that wakes nobody. */
  lemma QuietStep(o: Order, s: State, t: Step)
    requires StepPre(o, s, t) && StepUpdate(o, s, t).procs == s.procs
    requires !InSleep(s.procs[t.p].pc)
    ensures SameSleepers(s, After(o, s, t))
  {
    hide Hash, StepUpdate, HoldsOwn, HeldBucket, Probing, SpinOk, CanGo;
    var s' := After(o, s, t);
    assert forall q :: 0 <= q < |s.procs| && q != t.p ==> s'.procs[q].pc == s.procs[q].pc;
    assert !s.procs[t.p].pc.SleepGap? && !s'.procs[t.p].pc.SleepGap?;
  }

  lemma CoversSame(s: State, s': State, w: Call, rest: seq<Pid>, snap: map<Pid, nat>)
    requires SameSleepers(s, s') && Covers(s, w, rest, snap)
    ensures Covers(s', w, rest, snap)
  {
    hide Committed;
  }

  lemma SuffixTail(rest: seq<Pid>, q: seq<Pid>)
    requires IsSuffix(rest, q) && rest != []
    requires forall i, k :: 0 <= i < k < |q| ==> q[i] != q[k]
    ensures IsSuffix(rest[1..], q) && rest[0] !in rest[1..]
    ensures var n := |q| - |rest|; q[n] == rest[0] && IsSuffix(rest[1..], q[..n] + q[n + 1..])
  {
  }

  lemma ProbeWakes(o: Order, s: State, t: Step)
    requires StepPre(o, s, t) && s.procs[t.p].pc.WakeProbe? && Matches(s, s.procs[t.p].pc.w, s.procs[t.p].pc.rest)
    requires |s.procs[t.p].pc.rest| <= |s.queues[Hash(s.procs[t.p].pc.w.chan)]|
    requires PhaseOk(o, s, s.procs[s.procs[t.p].pc.rest[0]])
    ensures Wakes(s, After(o, s, t), s.procs[t.p].pc.rest[0])
  {
    hide Hash, HoldsOwn, HeldBucket, Probing, SpinOk, CanGo, HeldLk;
  }

  /** What the invariant says at the program counter of p. */
  lemma PcFacts(o: Order, s: State, p: Pid)
    requires Inv(o, s) && p < |s.procs|
    ensures |s.queues| == |s.bucketLock| == NWQUEUE && WalkOk(s, s.procs[p].pc)
    ensures var pc := s.procs[p].pc;
            pc.WakeWalk? || pc.WakeProbe? ==>
              var q := s.queues[Hash(pc.w.chan)];
              && (forall i, k :: 0 <= i < k < |q| ==> q[i] != q[k])
              && (pc.rest != [] ==>
                    pc.rest[0] == q[|q| - |pc.rest|] && pc.rest[0] < |s.procs| && PhaseOk(o, s, s.procs[pc.rest[0]]))
  {
    var pc := s.procs[p].pc;
    assert WalkOk(s, pc);
    if pc.WakeWalk? || pc.WakeProbe? {
      assert QueueOk(s, Hash(pc.w.chan));
    }
  }

  lemma MyWalk(o: Order, s: State, t: Step)
    requires Inv(o, s) && StepPre(o, s, t)
    ensures WalkOk(After(o, s, t), After(o, s, t).procs[t.p].pc)
  {
    hide Hash, Covers, Finished, Committed, HeldBucket, HoldsOwn, Probing, CanGo, HeldLk, PhaseOk, OnList, Snapshot,
         SpinOk, Inv;
    var p, pc, s' := t.p, s.procs[t.p].pc, After(o, s, t);
    PcFacts(o, s, p);
    if !t.Continue? {
    } else if pc.WakeEnter? {
      MyStart(o, s, t);
    } else if pc.WakeWalk? {
      MyWalkOn(o, s, t);
    } else if pc.WakeProbe? {
      MyProbe(o, s, t);
    } else if pc.KillHold? {
      QuietStep(o, s, t);
    }
  }

  /** The walk takes the bucket lock. */
  lemma MyStart(o: Order, s: State, t: Step)
    requires Inv(o, s) && StepPre(o, s, t) && t.Continue? && s.procs[t.p].pc.WakeEnter?
    ensures WalkOk(After(o, s, t), After(o, s, t).procs[t.p].pc)
  {
    hide Hash, Covers, Committed, SameSleepers, HoldsOwn, Probing, HeldLk, PhaseOk, OnList, Snapshot, SpinOk, Inv;
    PcFacts(o, s, t.p);
    QuietStep(o, s, t);
    StartWalk(o, s, After(o, s, t), s.procs[t.p].pc.w);
  }

  /** The walk moves past an entry of another channel, locks a process to look at it, or ends. */
  lemma MyWalkOn(o: Order, s: State, t: Step)
    requires Inv(o, s) && StepPre(o, s, t) && t.Continue? && s.procs[t.p].pc.WakeWalk?
    ensures WalkOk(After(o, s, t), After(o, s, t).procs[t.p].pc)
  {
    hide Hash, Covers, Finished, Committed, SameSleepers, HeldBucket, HoldsOwn, Probing, CanGo, HeldLk, PhaseOk, OnList,
         Snapshot, SpinOk, Inv, Wakes;
    PcFacts(o, s, t.p);
    var WakeWalk(w, rest, snap) := s.procs[t.p].pc;
    var s' := After(o, s, t);
    QuietStep(o, s, t);
    if rest == [] {
      EndWalk(s, s', w, snap);
    } else {
      SuffixTail(rest, s.queues[Hash(w.chan)]);
      CoversSame(s, s', w, rest, snap);
      if s.procs[rest[0]].entry != w.chan {
        SkipEntry(o, s, s', t.p, w, rest, snap);
      }
    }
  }

  /** The walk looks at a process it has locked, and wakes it if it sleeps on the channel. */
  lemma MyProbe(o: Order, s: State, t: Step)
    requires Inv(o, s) && StepPre(o, s, t) && t.Continue? && s.procs[t.p].pc.WakeProbe?
    ensures WalkOk(After(o, s, t), After(o, s, t).procs[t.p].pc)
  {
    hide Hash, Covers, Finished, Committed, SameSleepers, HeldBucket, HoldsOwn, Probing, CanGo, HeldLk, PhaseOk, OnList,
         Snapshot, SpinOk, Inv, Wakes;
    PcFacts(o, s, t.p);
    var WakeProbe(w, rest, snap) := s.procs[t.p].pc;
    var s' := After(o, s, t);
    SuffixTail(rest, s.queues[Hash(w.chan)]);
    if Matches(s, w, rest) {
      ProbeWakes(o, s, t);
      WakeEntry(s, s', w, rest, snap);
    } else {
      QuietStep(o, s, t);
      SkipEntry(o, s, s', t.p, w, rest, snap);
    }
  }

  // ---------- The lists ----------

  /** Every process but x is on a list, with the same entry, exactly if it was. */
  ghost predicate SameListed(s: State, s': State, x: int) {
    && |s'.procs| == |s.procs|
    && forall q :: 0 <= q < |s.procs| && q != x ==>
         (OnList(s'.procs[q]) <==> OnList(s.procs[q])) && (OnList(s.procs[q]) ==> s'.procs[q].entry == s.procs[q].entry)
  }

  lemma QueuesSame(s: State, s': State)
    requires |s.queues| == NWQUEUE && QueuesOk(s) && s'.queues == s.queues && SameListed(s, s', -1)
    ensures QueuesOk(s')
  {
    hide Hash, OnList;
    forall b | 0 <= b < NWQUEUE ensures QueueOk(s', b) {
      assert QueueOk(s, b);
    }
  }

  lemma QueuesPush(s: State, s': State, p: Pid, c: nat)
    requires |s.queues| == NWQUEUE && QueuesOk(s) && SameListed(s, s', p) && p < |s.procs| && !OnList(s.procs[p])
    requires OnList(s'.procs[p]) && s'.procs[p].entry == c
    requires s'.queues == s.queues[Hash(c) := [p] + s.queues[Hash(c)]]
    ensures QueuesOk(s')
  {
    hide Hash, OnList;
    forall b | 0 <= b < NWQUEUE ensures QueueOk(s', b) {
      assert QueueOk(s, b);
    }
    assert s'.queues[Hash(c)][0] == p;
    forall q | 0 <= q < |s'.procs| && OnList(s'.procs[q]) ensures q in s'.queues[Hash(s'.procs[q].entry)] {
      if q != p {
        assert q in s.queues[Hash(s.procs[q].entry)];
      }
    }
  }

  lemma QueuesDrop(s: State, s': State, b: nat, n: nat)
    requires |s.queues| == NWQUEUE && QueuesOk(s) && b < NWQUEUE && n < |s.queues[b]|
    requires SameListed(s, s', s.queues[b][n]) && s.queues[b][n] < |s.procs| && !OnList(s'.procs[s.queues[b][n]])
    requires s'.queues == s.queues[b := s.queues[b][..n] + s.queues[b][n + 1..]]
    ensures QueuesOk(s')
  {
    hide Hash, OnList;
    var e, q, r := s.queues[b][n], s.queues[b], s'.queues[b];
    assert QueueOk(s, b);
    forall c | 0 <= c < NWQUEUE ensures QueueOk(s', c) {
      assert QueueOk(s, c);
      if c == b {
        DropDistinct(q, n);
      } else {
        assert e !in s.queues[c];
      }
    }
    forall x | 0 <= x < |s'.procs| && OnList(s'.procs[x]) ensures x in s'.queues[Hash(s'.procs[x].entry)] {
      assert x in s.queues[Hash(s.procs[x].entry)];
      DropMembers(q, n, x);
    }
  }

  lemma DropDistinct(q: seq<Pid>, n: nat)
    requires n < |q| && forall i, k :: 0 <= i < k < |q| ==> q[i] != q[k]
    ensures var r := q[..n] + q[n + 1..];
            && (forall i :: 0 <= i < |r| ==> r[i] in q && r[i] != q[n])
            && (forall i, k :: 0 <= i < k < |r| ==> r[i] != r[k])
  {
    var r := q[..n] + q[n + 1..];
    assert forall i :: 0 <= i < |r| ==> r[i] == q[if i < n then i else i + 1];
  }

  lemma DropMembers(q: seq<Pid>, n: nat, x: Pid)
    requires n < |q|
    ensures x in q && x != q[n] ==> x in q[..n] + q[n + 1..]
  {
  }

  /** The step of sleep() that links the process. */
  ghost predicate Enlists(o: Order, pc: Pc) {
    pc.SleepGap? || (pc.SleepBucket? && o == Documented)
  }

  /** sleep() puts its process on the list in one step, and takes nobody off. */
  lemma SleepLists(o: Order, s: State, t: Step)
    requires StepPre(o, s, t) && InSleep(s.procs[t.p].pc) && Enlists(o, s.procs[t.p].pc)
    ensures var s', pc := After(o, s, t), s.procs[t.p].pc;
            && SameListed(s, s', t.p) && !OnList(s.procs[t.p]) && OnList(s'.procs[t.p])
                && s'.procs[t.p].entry == pc.j.chan
            && s'.queues == s.queues[Hash(pc.j.chan) := [t.p] + s.queues[Hash(pc.j.chan)]]
  {
    hide Hash, HoldsOwn, HeldBucket, Probing, SpinOk, CanGo, HeldLk, Committed, Snapshot;
  }

  lemma SleepListsNobody(o: Order, s: State, t: Step)
    requires StepPre(o, s, t) && InSleep(s.procs[t.p].pc) && !Enlists(o, s.procs[t.p].pc)
    ensures SameListed(s, After(o, s, t), -1) && After(o, s, t).queues == s.queues
  {
    hide Hash, HoldsOwn, HeldBucket, Probing, SpinOk, CanGo, HeldLk, Committed, Snapshot;
  }

  /** Everybody else changes a list only by waking a process. */
  lemma OthersList(o: Order, s: State, t: Step)
    requires StepPre(o, s, t) && !InSleep(s.procs[t.p].pc)
    requires !(t.Continue? && s.procs[t.p].pc.WakeProbe? && Matches(s, s.procs[t.p].pc.w, s.procs[t.p].pc.rest))
    ensures SameListed(s, After(o, s, t), -1) && After(o, s, t).queues == s.queues
  {
    hide Hash, HoldsOwn, HeldBucket, Probing, SpinOk, CanGo, HeldLk, Committed, Snapshot;
  }

  lemma ProbeUnlists(o: Order, s: State, t: Step)
    requires StepPre(o, s, t) && t.Continue? && s.procs[t.p].pc.WakeProbe?
    requires Matches(s, s.procs[t.p].pc.w, s.procs[t.p].pc.rest) && PhaseOk(o, s, s.procs[s.procs[t.p].pc.rest[0]])
    requires |s.procs[t.p].pc.rest| <= |s.queues[Hash(s.procs[t.p].pc.w.chan)]|
    ensures var s', e, b := After(o, s, t), s.procs[t.p].pc.rest[0], Hash(s.procs[t.p].pc.w.chan);
            var n := |s.queues[b]| - |s.procs[t.p].pc.rest|;
            && SameListed(s, s', e) && !OnList(s'.procs[e])
            && s'.queues == s.queues[b := s.queues[b][..n] + s.queues[b][n + 1..]]
  {
    hide Hash, HoldsOwn, HeldBucket, Probing, SpinOk, CanGo, HeldLk, Committed, Snapshot;
  }

  lemma QueuesStep(o: Order, s: State, t: Step)
    requires Inv(o, s) && StepPre(o, s, t)
    ensures |After(o, s, t).queues| == NWQUEUE && QueuesOk(After(o, s, t))
  {
    hide Hash, After, PhaseOk, SpinOk, OnList, SameListed, QueuesOk, Covers, Phases, Walks, Locks, SleepLocksOk,
         CanAdvance;
    var p, pc, s' := t.p, s.procs[t.p].pc, After(o, s, t);
    PcFacts(o, s, p);
    if InSleep(pc) {
      if Enlists(o, pc) {
        SleepLists(o, s, t);
        QueuesPush(s, s', p, pc.j.chan);
      } else {
        SleepListsNobody(o, s, t);
        QueuesSame(s, s');
      }
    } else if t.Continue? && pc.WakeProbe? && Matches(s, pc.w, pc.rest) {
      ProbeUnlists(o, s, t);
      QueuesDrop(s, s', Hash(pc.w.chan), |s.queues[Hash(pc.w.chan)]| - |pc.rest|);
    } else {
      OthersList(o, s, t);
      QueuesSame(s, s');
    }
  }

  // ---------- The sleep-locks ----------

  /** A process commits to sleep on c only by releasing lk; if c is a sleep-lock, it is locked. */
  lemma CommitOnLocked(o: Order, s: State, t: Step, c: nat)
    requires StepPre(o, s, t) && c in s.sleepLocks
    requires Committed(After(o, s, t).procs[t.p], c) && !Committed(s.procs[t.p], c)
    ensures c in After(o, s, t).locked
  {
    hide After, PhaseOk, LocksOk, CanAdvance, Committed;
    if InSleep(s.procs[t.p].pc) {
      CommitInSleep(o, s, t, c);
    } else {
      NoCommitElsewhere(o, s, t, c);
    }
  }

  lemma CommitInSleep(o: Order, s: State, t: Step, c: nat)
    requires StepPre(o, s, t) && c in s.sleepLocks && InSleep(s.procs[t.p].pc)
    requires Committed(After(o, s, t).procs[t.p], c) && !Committed(s.procs[t.p], c)
    ensures c in After(o, s, t).locked
  {
    hide Hash, HoldsOwn, HeldBucket, Probing, SpinOk, CanGo, Snapshot, Matches, HoldsLock;
  }

  lemma NoCommitElsewhere(o: Order, s: State, t: Step, c: nat)
    requires StepPre(o, s, t) && !InSleep(s.procs[t.p].pc) && !Committed(s.procs[t.p], c)
    ensures !Committed(After(o, s, t).procs[t.p], c)
  {
    hide Hash, HoldsOwn, HeldBucket, Probing, SpinOk, CanGo, Snapshot, HoldsLock;
  }

  /** A process inside releasesleep(l) stays there until its walk is over. */
  lemma ReleasingGoesOn(o: Order, s: State, t: Step, l: nat)
    requires StepPre(o, s, t) && Releasing(s.procs[t.p].pc, l)
    ensures After(o, s, t).owner == s.owner
    ensures var pc := After(o, s, t).procs[t.p].pc; Releasing(pc, l) || (pc.WakeExit? && pc.w.chan == l && !pc.w.one)
  {
    hide Hash, HoldsOwn, HeldBucket, Probing, SpinOk, CanGo, Committed;
  }

  lemma UnlockStarts(o: Order, s: State, t: Step, l: nat)
    requires StepPre(o, s, t) && l in s.locked && l !in After(o, s, t).locked
    ensures var s' := After(o, s, t);
            Inner(l) in s'.owner && s'.owner[Inner(l)] == t.p && Releasing(s'.procs[t.p].pc, l)
  {
    hide Hash, HoldsOwn, HeldBucket, Probing, SpinOk, CanGo, Committed;
  }

  lemma SleepLocksStep(o: Order, s: State, t: Step)
    requires Inv(o, s) && StepPre(o, s, t) && Effect(s, t.p, After(o, s, t))
    requires WalkOk(After(o, s, t), After(o, s, t).procs[t.p].pc)
    ensures SleepLocksOk(After(o, s, t))
  {
    var p, s' := t.p, After(o, s, t);
    forall r, l | 0 <= r < |s'.procs| && l in s'.sleepLocks && l !in s'.locked && Committed(s'.procs[r], l)
      ensures Inner(l) in s'.owner && s'.owner[Inner(l)] < |s'.procs| && Releasing(s'.procs[s'.owner[Inner(l)]].pc, l)
    {
      if !Committed(s.procs[r], l) && r == p {
        CommitOnLocked(o, s, t, l);
      } else {
        assert Committed(s.procs[r], l);
        if l in s.locked {
          UnlockStarts(o, s, t, l);
        } else {
          var x := s.owner[Inner(l)];
          assert Releasing(s.procs[x].pc, l);
          if x == p {
            ReleasingGoesOn(o, s, t, l);
          } else {
            assert SideEffect(s, p, s.procs[x], s'.procs[x]);
          }
        }
      }
    }
  }

  // ---------- Every reachable state ----------

  lemma InvGivesStepPre(o: Order, s: State, t: Step)
    requires Inv(o, s) && Enabled(o, s, t)
    ensures StepPre(o, s, t)
  {
    var pc := s.procs[t.p].pc;
    assert LocksOk(s, t.p) && PhaseOk(o, s, s.procs[t.p]) && WalkOk(s, pc);
    if pc.WakeProbe? {
      assert QueueOk(s, Hash(pc.w.chan));
    }
    hide Hash, LocksOk, PhaseOk, Covers, SleepLocksOk, Enabled;
  }

  lemma InvStep(o: Order, s: State, t: Step)
    requires Inv(o, s) && Enabled(o, s, t)
    ensures Inv(o, After(o, s, t))
  {
    hide After, Effect, StepPre, Hash, WalkOk, LocksOk, PhaseOk, QueuesOk, SleepLocksOk, CanAdvance;
    InvGivesStepPre(o, s, t);
    StepDoes(o, s, t);
    MyWalk(o, s, t);
    QueuesStep(o, s, t);
    SleepLocksStep(o, s, t);
    var p, s' := t.p, After(o, s, t);
    LockRange(s, p, s');
    forall q | 0 <= q < |s.procs| && q != p
      ensures LocksOk(s', q) && PhaseOk(o, s', s'.procs[q]) && WalkOk(s', s'.procs[q].pc)
    {
      OtherLocks(s, p, s', q);
      OtherPhase(o, s, p, s', q);
      OtherWalk(o, s, p, s', q);
    }
  }

  lemma LockRange(s: State, p: Pid, s': State)
    requires |s.bucketLock| == |s.queues| == NWQUEUE && Locks(s) && Effect(s, p, s')
    ensures |s'.procs| == |s.procs| && |s'.bucketLock| == |s'.queues| == NWQUEUE
    ensures forall b :: 0 <= b < NWQUEUE && s'.bucketLock[b].Some? ==> s'.bucketLock[b].value < |s'.procs|
    ensures forall v :: 0 <= v < |s'.procs| && s'.procs[v].lock.Some? ==> s'.procs[v].lock.value < |s'.procs|
  {
    hide Hash, LocksOk, Committed, OnList;
  }
}
