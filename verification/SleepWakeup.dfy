/** sleep, wakeup, wakeup_one, kkill (kernel/proc.c) and acquiresleep, releasesleep (kernel/sleeplock.c) as a machine
    over any number of processes, one step per lock acquisition, lock release or list access. `Order` selects where
    sleep() releases its condition lock: after taking the locks but before enqueueing, as the code does, or after
    enqueueing, as the design document says. */
module SleepWakeup {
  import opened Common
  import opened WaitQueue

  type Pid = nat

  /** The states that matter here; every other process state counts as Running. */
  datatype RunState = Running | Sleeping | Runnable

  /** A call sleep(chan, lk); `acq` when it is the one in acquiresleep. */
  datatype Job = Job(chan: nat, lk: nat, acq: bool)

  /** A call wakeup(chan) or wakeup_one(chan); `rel` when it is the one in releasesleep.  `victim`
      is bookkeeping for kkill: the process seen asleep and how often it had been woken. */
  datatype Call = Call(chan: nat, one: bool, rel: bool, victim: Victim)
  datatype Victim = Nobody | Seen(v: Pid, n: nat)

  /** Program counters.  `rest` is the list from the walk's `e` on.  `snap` is bookkeeping: the
      processes that were committed to sleep on the channel when the walk took the bucket lock,
      with the number of times each had been woken by then. */
  datatype Pc =
    | Idle
    | AcqTry(l: nat)
    | AcqTest(l: nat)
    | RelTry(l: nat)
    | SleepEnter(j: Job)
    | SleepBucket(j: Job)
    | SleepBoth(j: Job)    // Coded: bucket and process lock held, lk not yet released
    | SleepGap(j: Job)     // Coded: lk released, not yet enqueued
    | SleepListed(j: Job)  // Documented: enqueued, lk not yet released
    | SleepFreed(j: Job)   // Documented: lk released, process lock not yet taken
    | SleepReady(j: Job)
    | Dozing(j: Job)
    | Asleep(j: Job)
    | Woken(j: Job)
    | Relock(j: Job)
    | WakeEnter(w: Call)
    | WakeWalk(w: Call, rest: seq<Pid>, snap: map<Pid, nat>)
    | WakeProbe(w: Call, rest: seq<Pid>, snap: map<Pid, nat>)
    | WakeExit(w: Call, snap: map<Pid, nat>)
    | WakeReturn(w: Call)
    | KillTry(v: Pid)
    | KillHold(v: Pid)

  datatype Process = Process(pc: Pc, state: RunState, chan: nat, entry: nat, lock: Option<Pid>, wakes: nat)

  datatype State = State(
    procs: seq<Process>,
    queues: seq<seq<Pid>>,
    bucketLock: seq<Option<Pid>>,
    owner: map<nat, Pid>,     // the condition locks that are held, and by whom
    sleepLocks: set<nat>,     // addresses of the sleep-locks; fixed
    locked: map<nat, Pid>)    // the sleep-locks that are held, each with the process in lk->pid

  /** The spinlock inside the sleep-lock at address l. */
  function Inner(l: nat): nat {
    l + 8
  }

  /** The process has released lk inside sleep(c) and nobody has made it Runnable since. */
  predicate Committed(p: Process, c: nat) {
    || ((p.pc.SleepGap? || p.pc.SleepFreed? || p.pc.SleepReady?) && p.pc.j.chan == c)
    || (p.state == Sleeping && p.chan == c)
  }

  /** The answer of holdingsleep(l) to process p. */
  predicate Holding(s: State, l: nat, p: Pid) {
    l in s.locked && s.locked[l] == p
  }

  // ---------- Which locks a program counter stands for ----------

  /** The bucket lock that a process at pc holds. */
  function HeldBucket(pc: Pc): (b: Option<nat>)
    ensures b.Some? ==> b.value < NWQUEUE
  {
    match pc
    case SleepBucket(j) => Some(Hash(j.chan))
    case SleepBoth(j) => Some(Hash(j.chan))
    case SleepGap(j) => Some(Hash(j.chan))
    case SleepListed(j) => Some(Hash(j.chan))
    case SleepFreed(j) => Some(Hash(j.chan))
    case SleepReady(j) => Some(Hash(j.chan))
    case WakeWalk(w, _, _) => Some(Hash(w.chan))
    case WakeProbe(w, _, _) => Some(Hash(w.chan))
    case WakeExit(w, _) => Some(Hash(w.chan))
    case _ => None
  }

  /** The process holds its own p->lock. */
  predicate HoldsOwn(pc: Pc) {
    pc.SleepBoth? || pc.SleepGap? || pc.SleepReady? || pc.Dozing? || pc.Woken?
  }

  /** The process whose p->lock a waker or a killer at pc holds. */
  function Probing(pc: Pc): Option<Pid> {
    match pc
    case WakeProbe(_, rest, _) => if rest == [] then None else Some(rest[0])
    case KillHold(v) => Some(v)
    case _ => None
  }

  /** Process p at pc holds the process lock of v. */
  predicate HoldsLock(pc: Pc, p: Pid, v: Pid) {
    (v == p && HoldsOwn(pc)) || Probing(pc) == Some(v)
  }

  /** The locks that p takes on its way to `next` are free. */
  predicate CanGo(s: State, p: Pid, next: Pc)
    requires p < |s.procs| && |s.bucketLock| == NWQUEUE
  {
    var pc := s.procs[p].pc;
    && (HeldBucket(next).Some? && HeldBucket(next) != HeldBucket(pc) ==> s.bucketLock[HeldBucket(next).value] == None)
    && (HoldsOwn(next) && !HoldsOwn(pc) ==> s.procs[p].lock == None)
    && (Probing(next).Some? && Probing(next) != Probing(pc) ==>
          Probing(next).value < |s.procs| && s.procs[Probing(next).value].lock == None)
  }

  /** p goes to `next`, releasing the bucket and process locks it leaves behind and taking the new ones. */
  function Go(s: State, p: Pid, next: Pc): State
    requires p < |s.procs| && |s.bucketLock| == NWQUEUE
  {
    var pc := s.procs[p].pc;
    s.(procs := seq(|s.procs|, v requires 0 <= v < |s.procs| =>
         s.procs[v].(pc := if v == p then next else s.procs[v].pc,
                     lock := if HoldsLock(next, p, v) then Some(p)
                             else if HoldsLock(pc, p, v) then None else s.procs[v].lock)),
       bucketLock := seq(NWQUEUE, b requires 0 <= b < NWQUEUE =>
         if HeldBucket(next) == Some(b) then Some(p)
         else if HeldBucket(pc) == Some(b) then None else s.bucketLock[b]))
  }

  // ---------- The steps ----------

  function Snapshot(s: State, chan: nat): map<Pid, nat> {
    map q: Pid | 0 <= q < |s.procs| && Committed(s.procs[q], chan) :: s.procs[q].wakes
  }

  /** The test of wakeup: the entry's process sleeps on the channel. */
  predicate Matches(s: State, w: Call, rest: seq<Pid>) {
    rest != [] && rest[0] < |s.procs| && s.procs[rest[0]].state == Sleeping && s.procs[rest[0]].chan == w.chan
  }

  /** Where process p goes next. */
  function NextPc(o: Order, s: State, p: Pid): Pc
    requires p < |s.procs| && |s.queues| == NWQUEUE
  {
    match s.procs[p].pc
    case Idle => Idle
    case AcqTry(l) => AcqTest(l)
    case AcqTest(l) => if l in s.locked then SleepEnter(Job(l, Inner(l), true)) else Idle
    case RelTry(l) => WakeEnter(Call(l, false, true, Nobody))
    case SleepEnter(j) => SleepBucket(j)
    case SleepBucket(j) => if o == Coded then SleepBoth(j) else SleepListed(j)
    case SleepBoth(j) => SleepGap(j)
    case SleepGap(j) => SleepReady(j)
    case SleepListed(j) => SleepFreed(j)
    case SleepFreed(j) => SleepReady(j)
    case SleepReady(j) => Dozing(j)
    case Dozing(j) => Asleep(j)
    case Asleep(j) => Woken(j)
    case Woken(j) => Relock(j)
    case Relock(j) => if j.acq then AcqTest(j.chan) else Idle
    case WakeEnter(w) => WakeWalk(w, s.queues[Hash(w.chan)], Snapshot(s, w.chan))
    case WakeWalk(w, rest, snap) =>
      if rest == [] then WakeExit(w, snap)
      else if rest[0] < |s.procs| && s.procs[rest[0]].entry == w.chan then WakeProbe(w, rest, snap)
      else WakeWalk(w, rest[1..], snap)
    case WakeProbe(w, rest, snap) =>
      if rest == [] || (w.one && Matches(s, w, rest)) then WakeExit(w, snap) else WakeWalk(w, rest[1..], snap)
    case WakeExit(w, snap) => WakeReturn(w)
    case WakeReturn(w) => Idle
    case KillTry(v) => KillHold(v)
    case KillHold(v) =>
      if v < |s.procs| && s.procs[v].state == Sleeping
      then WakeEnter(Call(s.procs[v].chan, false, false, Seen(v, s.procs[v].wakes))) else Idle
  }

  function Enqueue(s: State, p: Pid, chan: nat): State
    requires p < |s.procs| && |s.queues| == NWQUEUE
  {
    s.(queues := s.queues[Hash(chan) := [p] + s.queues[Hash(chan)]],
       procs := s.procs[p := s.procs[p].(entry := chan)])
  }

  /** The process at the front of `rest`, a suffix of bucket b's list, is woken and unlinked. */
  function WakeFront(s: State, b: nat, rest: seq<Pid>): State
    requires b < |s.queues| && 0 < |rest| <= |s.queues[b]| && rest[0] < |s.procs|
  {
    var n := |s.queues[b]| - |rest|;
    var e := s.procs[rest[0]];
    s.(queues := s.queues[b := s.queues[b][..n] + s.queues[b][n + 1..]],
       procs := s.procs[rest[0] := e.(state := Runnable, wakes := e.wakes + 1)])
  }

  /** What the next step of process p changes besides the bucket and process locks. */
  function Update(o: Order, s: State, p: Pid): State
    requires p < |s.procs| && |s.queues| == NWQUEUE
  {
    var me := s.procs[p];
    match me.pc
    case AcqTry(l) => s.(owner := s.owner[Inner(l) := p])
    case AcqTest(l) => if l in s.locked then s else s.(locked := s.locked[l := p], owner := s.owner - {Inner(l)})
    case RelTry(l) => s.(locked := s.locked - {l}, owner := s.owner[Inner(l) := p])
    case SleepBucket(j) => if o == Coded then s else Enqueue(s, p, j.chan)
    case SleepBoth(j) => s.(owner := s.owner - {j.lk})
    case SleepGap(j) => Enqueue(s, p, j.chan)
    case SleepListed(j) => s.(owner := s.owner - {j.lk})
    case SleepReady(j) => s.(procs := s.procs[p := me.(state := Sleeping, chan := j.chan)])
    case Asleep(j) => s.(procs := s.procs[p := me.(state := Running)])
    case Woken(j) => s.(procs := s.procs[p := me.(chan := 0)])
    case Relock(j) => s.(owner := s.owner[j.lk := p])
    case WakeProbe(w, rest, _) =>
      if Matches(s, w, rest) && |rest| <= |s.queues[Hash(w.chan)]| then WakeFront(s, Hash(w.chan), rest) else s
    case WakeReturn(w) => if w.rel then s.(owner := s.owner - {Inner(w.chan)}) else s
    case _ => s
  }

  /** The next step of process p can be taken: the locks it takes are free, and the scheduler runs
      only Runnable processes. */
  predicate CanAdvance(o: Order, s: State, p: Pid)
    requires p < |s.procs| && |s.queues| == |s.bucketLock| == NWQUEUE
  {
    && CanGo(s, p, NextPc(o, s, p))
    && match s.procs[p].pc
       case Idle => false
       case AcqTry(l) => Inner(l) !in s.owner
       case RelTry(l) => Inner(l) !in s.owner
       case Relock(j) => j.lk !in s.owner
       case Asleep(j) => s.procs[p].state == Runnable
       case _ => true
  }

  /** A step: the next step of a process, or a process that is running other code takes or drops a
      condition lock or calls one of the modelled functions. */
  datatype Step =
    | Continue(p: Pid)
    | TakeLock(p: Pid, lk: nat)
    | DropLock(p: Pid, lk: nat)
    | CallSleep(p: Pid, chan: nat, lk: nat)
    | CallWakeup(p: Pid, chan: nat, one: bool)
    | CallKill(p: Pid, v: Pid)
    | CallAcquireSleep(p: Pid, l: nat)
    | CallReleaseSleep(p: Pid, l: nat)

  predicate Enabled(o: Order, s: State, t: Step)
    requires |s.queues| == |s.bucketLock| == NWQUEUE
  {
    && t.p < |s.procs|
    && (t.Continue? ==> CanAdvance(o, s, t.p))
    && (!t.Continue? ==> s.procs[t.p].pc == Idle)
    && match t
       case TakeLock(_, lk) => lk !in s.owner
       case DropLock(_, lk) => lk in s.owner && s.owner[lk] == t.p
       case CallSleep(_, chan, lk) => lk in s.owner && s.owner[lk] == t.p && chan !in s.sleepLocks
       case CallKill(_, v) => v < |s.procs|
       case CallAcquireSleep(_, l) => l in s.sleepLocks
       case CallReleaseSleep(_, l) => l in s.sleepLocks
       case _ => true
  }

  function StepUpdate(o: Order, s: State, t: Step): State
    requires |s.queues| == NWQUEUE && t.p < |s.procs|
  {
    match t
    case Continue(p) => Update(o, s, p)
    case TakeLock(p, lk) => s.(owner := s.owner[lk := p])
    case DropLock(_, lk) => s.(owner := s.owner - {lk})
    case _ => s
  }

  function StepPc(o: Order, s: State, t: Step): Pc
    requires |s.queues| == NWQUEUE && t.p < |s.procs|
  {
    match t
    case Continue(p) => NextPc(o, s, p)
    case TakeLock(_, _) => Idle
    case DropLock(_, _) => Idle
    case CallSleep(_, chan, lk) => SleepEnter(Job(chan, lk, false))
    case CallWakeup(_, chan, one) => WakeEnter(Call(chan, one, false, Nobody))
    case CallKill(_, v) => KillTry(v)
    case CallAcquireSleep(_, l) => AcqTry(l)
    case CallReleaseSleep(_, l) => RelTry(l)
  }

  function After(o: Order, s: State, t: Step): State
    requires |s.queues| == |s.bucketLock| == NWQUEUE && Enabled(o, s, t)
  {
    Go(StepUpdate(o, s, t), t.p, StepPc(o, s, t))
  }

  ghost predicate Next(o: Order, s: State, s': State) {
    |s.queues| == |s.bucketLock| == NWQUEUE && exists t :: Enabled(o, s, t) && s' == After(o, s, t)
  }

  ghost predicate Init(s: State) {
    && |s.queues| == |s.bucketLock| == NWQUEUE
    && (forall p :: 0 <= p < |s.procs| ==> s.procs[p] == Process(Idle, Running, 0, 0, None, 0))
    && (forall b :: 0 <= b < NWQUEUE ==> s.queues[b] == [] && s.bucketLock[b] == None)
    && s.owner == map[] && s.locked == map[]
  }

  /** A run: any number of steps from an initial state. */
  ghost predicate Run(o: Order, run: seq<State>) {
    |run| > 0 && Init(run[0]) && forall i :: 0 <= i < |run| - 1 ==> NextAt(o, run, i)
  }

  ghost predicate NextAt(o: Order, run: seq<State>, i: nat)
    requires i + 1 < |run|
  {
    Next(o, run[i], run[i + 1])
  }
}
