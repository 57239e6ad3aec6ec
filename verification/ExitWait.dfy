/** kfork, kexit, reparent and kwait of kernel/proc.c as a machine over any number of processes, one
    step per section under a lock.  A process waits on the channel that is its own address, so wakeup
    of that channel concerns it alone; while it is between releasing wait_lock and being SLEEPING it
    holds the bucket lock, and a wakeup of the channel has to wait (see SleepWakeup.dfy). */
module ExitWait {
  import opened Common

  type Pid = nat
  const NOBODY := -1

  datatype Life = Unused | Used | Live | Zombie

  datatype Pc =
    | Off                       // no code of its own runs: unused, or not started yet
    | Run                       // any other code
    | ForkLink(np: Pid)         // kfork: about to set np->parent under wait_lock
    | ForkStart(np: Pid)        // kfork: about to make np runnable
    | ExitWant                  // kexit: about to take wait_lock
    | ExitScan(k: nat)          // reparent: about to look at process k
    | ExitPoke(k: nat)          // reparent: k given to init, about to wake init up
    | ExitWake                  // about to wake the parent up
    | ExitLast                  // about to become a zombie and release wait_lock
    | Dead                      // a zombie that still holds its p->lock and runs on its stack
    | Buried                    // the scheduler has released the zombie's p->lock
    | WaitWant                  // kwait: about to take wait_lock
    | WaitScan(k: nat, kids: bool)
    | WaitMid                   // wait_lock released, not yet asleep
    | WaitAsleep

  /** `exits` and `reaps` count how often the slot's process has exited and has been reaped. */
  datatype Proc = Proc(life: Life, parent: int, pc: Pc, exits: nat, reaps: nat)

  datatype State = State(procs: seq<Proc>, waitLock: Option<Pid>, init: Pid)

  function Put(s: State, p: Pid, v: Proc): State
    requires p < |s.procs|
  {
    s.(procs := s.procs[p := v])
  }

  function Go(s: State, p: Pid, pc: Pc): State
    requires p < |s.procs|
  {
    Put(s, p, s.procs[p].(pc := pc))
  }

  /** wakeup(c) can take the bucket lock. */
  predicate CanWake(s: State, c: int) {
    0 <= c < |s.procs| ==> s.procs[c].pc != WaitMid
  }

  function Wake(s: State, c: int): State {
    if 0 <= c < |s.procs| && s.procs[c].pc == WaitAsleep then Go(s, c, WaitWant) else s
  }

  datatype Step =
    | Fork(p: Pid, np: Pid)
    | ForkFail(p: Pid)
    | CallExit(p: Pid)
    | CallWait(p: Pid)
    | Spurious(p: Pid)       // a wakeup by kkill
    | GiveUp(p: Pid)         // kwait returns without reaping: copyout failed, or it was killed
    | Continue(p: Pid)

  predicate Enabled(s: State, t: Step) {
    && t.p < |s.procs| && s.init < |s.procs|
    && var me := s.procs[t.p];
       match t
       case Fork(_, np) => me.pc == Run && np < |s.procs| && s.procs[np].life == Unused
       case ForkFail(_) => me.pc.ForkLink? && me.pc.np < |s.procs|
       case CallExit(_) => me.pc == Run && t.p != s.init
       case CallWait(_) => me.pc == Run
       case Spurious(_) => CanWake(s, t.p)
       case GiveUp(_) => me.pc.WaitScan?
       case Continue(_) =>
         match me.pc
         case Off => false
         case Run => false
         case ForkLink(np) => s.waitLock == None && np < |s.procs|
         case ForkStart(np) => np < |s.procs|
         case ExitWant => s.waitLock == None
         case ExitPoke(_) => CanWake(s, s.init)
         case ExitWake => CanWake(s, me.parent)
         case Buried => false
         case WaitWant => s.waitLock == None
         // the scan takes the lock of each child, which a process still exiting holds
         case WaitScan(k, _) => k < |s.procs| && s.procs[k].parent == t.p ==> s.procs[k].pc != Dead
         case WaitAsleep => false
         case _ => true
  }

  function After(s: State, t: Step): State
    requires Enabled(s, t)
  {
    var p, me := t.p, s.procs[t.p];
    match t
    case Fork(_, np) => Go(Put(s, np, s.procs[np].(life := Used, parent := NOBODY, pc := Off)), p, ForkLink(np))
    case ForkFail(_) => Go(Put(s, me.pc.np, s.procs[me.pc.np].(life := Unused, parent := NOBODY)), p, Run)
    case CallExit(_) => Go(s, p, ExitWant)
    case CallWait(_) => Go(s, p, WaitWant)
    case Spurious(_) => Wake(s, p)
    case GiveUp(_) => Go(s.(waitLock := None), p, Run)
    case Continue(_) =>
      match me.pc
      case ForkLink(np) => Go(Put(s, np, s.procs[np].(parent := p)), p, ForkStart(np))
      case ForkStart(np) => Go(Put(s, np, s.procs[np].(life := Live, pc := Run)), p, Run)
      case ExitWant => Go(s.(waitLock := Some(p)), p, ExitScan(0))
      case ExitScan(k) =>
        if k >= |s.procs| then Go(s, p, ExitWake)
        else if s.procs[k].parent == p then Go(Put(s, k, s.procs[k].(parent := s.init)), p, ExitPoke(k))
        else Go(s, p, ExitScan(k + 1))
      case ExitPoke(k) => Go(Wake(s, s.init), p, ExitScan(k + 1))
      case ExitWake => Go(Wake(s, me.parent), p, ExitLast)
      case ExitLast => Put(s.(waitLock := None), p, me.(life := Zombie, pc := Dead, exits := me.exits + 1))
      case Dead => Go(s, p, Buried)
      case WaitWant => Go(s.(waitLock := Some(p)), p, WaitScan(0, false))
      case WaitScan(k, kids) =>
        if k >= |s.procs| then Go(s.(waitLock := None), p, if kids then WaitMid else Run)
        else if s.procs[k].parent != p then Go(s, p, WaitScan(k + 1, kids))
        else if s.procs[k].life != Zombie then Go(s, p, WaitScan(k + 1, true))
        else // freeproc
          Go(Put(s.(waitLock := None), k, Proc(Unused, NOBODY, Off, s.procs[k].exits, s.procs[k].reaps + 1)), p, Run)
      case WaitMid => Go(s, p, WaitAsleep)
      case _ => s
  }

  ghost predicate Init(s: State) {
    && s.init < |s.procs| && s.waitLock == None
    && (forall p :: 0 <= p < |s.procs| ==>
          s.procs[p] == if p == s.init then Proc(Live, NOBODY, Run, 0, 0) else Proc(Unused, NOBODY, Off, 0, 0))
  }

  ghost predicate NextAt(run: seq<State>, i: nat)
    requires i + 1 < |run|
  {
    exists t :: Enabled(run[i], t) && run[i + 1] == After(run[i], t)
  }

  ghost predicate Behaviour(run: seq<State>) {
    |run| > 0 && Init(run[0]) && forall i :: 0 <= i < |run| - 1 ==> NextAt(run, i)
  }

  // ---------- What every reachable state satisfies ----------

  predicate HoldsWaitLock(pc: Pc) {
    pc.ExitScan? || pc.ExitPoke? || pc.ExitWake? || pc.ExitLast? || pc.WaitScan?
  }

  /** In kwait, past its scan: asleep or on the way there. */
  predicate Waiting(pc: Pc) {
    pc.WaitMid? || pc.WaitAsleep?
  }

  /** Where each kind of process can be. */
  ghost predicate PlaceOk(s: State, p: Pid)
    requires p < |s.procs|
  {
    var me := s.procs[p];
    && (me.pc.Off? <==> me.life == Unused || me.life == Used)
    && (me.life == Zombie <==> me.pc.Dead? || me.pc.Buried?)
    && (me.life == Unused ==> me.parent == NOBODY)
    && (s.waitLock == Some(p) <==> HoldsWaitLock(me.pc))
    && me.exits == me.reaps + (if me.life == Zombie then 1 else 0)
    && (me.pc.ForkLink? ==>
          me.pc.np < |s.procs| && s.procs[me.pc.np].life == Used && s.procs[me.pc.np].parent == NOBODY)
    && (me.pc.ForkStart? ==>
          me.pc.np < |s.procs| && s.procs[me.pc.np].life == Used && s.procs[me.pc.np].parent == p)
    && (p == s.init ==> me.life == Live && !Exiting(me.pc) && me.parent == NOBODY)
    && me.parent != p
  }

  predicate Exiting(pc: Pc) {
    pc.ExitWant? || pc.ExitScan? || pc.ExitPoke? || pc.ExitWake? || pc.ExitLast? || pc.Dead? || pc.Buried?
  }

  /** A process that has not finished being forked belongs to exactly one kfork. */
  ghost predicate ForksApart(s: State, p: Pid, q: Pid)
    requires p < |s.procs| && q < |s.procs|
  {
    var a, b := s.procs[p].pc, s.procs[q].pc;
    p != q && (a.ForkLink? || a.ForkStart?) && (b.ForkLink? || b.ForkStart?) ==> a.np != b.np
  }

  /** What p's parent pointer may say: c is a child of p. */
  ghost predicate ChildOk(s: State, p: Pid, c: Pid)
    requires p < |s.procs| && c < |s.procs|
  {
    var me := s.procs[p].pc;
    s.procs[c].parent == p ==>
      // nobody is left behind by a process that has exited, or is past giving its children away
      && s.procs[p].life == Live && !me.ExitWake? && !me.ExitLast?
      && (me.ExitScan? ==> me.k <= c) && (me.ExitPoke? ==> me.k < c)
      // a waiting process has no zombie child, unless init has just been given one
      && (Waiting(me) && s.procs[c].life == Zombie ==> p == s.init && Giving(s, c))
      && (me.WaitScan? && s.procs[c].life == Zombie ==> me.k <= c)
      // a scan that has found no child has passed none
      && (me.WaitScan? && !me.kids ==> me.k <= c)
  }

  /** Some process is in reparent, has just given c to init and is about to wake init up. */
  ghost predicate Giving(s: State, c: Pid) {
    s.waitLock.Some? && s.waitLock.value < |s.procs| && s.procs[s.waitLock.value].pc == ExitPoke(c)
  }

  /** The parent of a process about to become a zombie has been woken up. */
  ghost predicate WokenOk(s: State, p: Pid)
    requires p < |s.procs|
  {
    var q := s.procs[p].parent;
    s.procs[p].pc.ExitLast? && 0 <= q < |s.procs| ==> !Waiting(s.procs[q].pc)
  }

  ghost predicate Inv(s: State) {
    && s.init < |s.procs|
    && (forall p :: 0 <= p < |s.procs| ==> PlaceOk(s, p))
    && (forall p :: 0 <= p < |s.procs| ==> WokenOk(s, p))
    && (forall p, q :: 0 <= p < |s.procs| && 0 <= q < |s.procs| ==> ForksApart(s, p, q))
    && (forall p, c :: 0 <= p < |s.procs| && 0 <= c < |s.procs| ==> ChildOk(s, p, c))
    && (s.waitLock.Some? ==> s.waitLock.value < |s.procs|)
  }

  lemma InitInv(s: State)
    requires Init(s)
    ensures Inv(s)
  {
  }

  /** The facts about the processes that a step and a pair (q, c) involve. */
  lemma Facts(s: State, t: Step, q: Pid, c: Pid)
    requires Inv(s) && Enabled(s, t) && q < |s.procs| && c < |s.procs|
    ensures PlaceOk(s, q) && PlaceOk(s, c) && PlaceOk(s, t.p) && PlaceOk(s, s.init)
    ensures WokenOk(s, q) && WokenOk(s, c) && WokenOk(s, t.p)
    ensures ForksApart(s, q, t.p) && ForksApart(s, t.p, q) && ForksApart(s, c, t.p)
    ensures ChildOk(s, q, c) && ChildOk(s, t.p, c) && ChildOk(s, q, t.p)
  {
  }

  predicate InFork(s: State, t: Step)
    requires t.p < |s.procs|
  {
    t.Fork? || t.ForkFail? || (t.Continue? && (s.procs[t.p].pc.ForkLink? || s.procs[t.p].pc.ForkStart?))
  }

  predicate InReparent(s: State, t: Step)
    requires t.p < |s.procs|
  {
    t.Continue? && (s.procs[t.p].pc.ExitScan? || s.procs[t.p].pc.ExitPoke?)
  }

  predicate InExit(s: State, t: Step)
    requires t.p < |s.procs|
  {
    t.CallExit? || (t.Continue? && Exiting(s.procs[t.p].pc) && !InReparent(s, t))
  }

  lemma PlaceFork(s: State, t: Step, q: Pid)
    requires Inv(s) && Enabled(s, t) && q < |s.procs| && InFork(s, t)
    ensures |After(s, t).procs| == |s.procs| && PlaceOk(After(s, t), q)
  {
    Facts(s, t, q, q);
    hide ChildOk, WokenOk, Inv;
  }

  lemma PlaceExit(s: State, t: Step, q: Pid)
    requires Inv(s) && Enabled(s, t) && q < |s.procs| && InExit(s, t)
    ensures |After(s, t).procs| == |s.procs| && PlaceOk(After(s, t), q)
  {
    Facts(s, t, q, q);
    hide ChildOk, WokenOk, Inv;
  }

  lemma PlaceReparent(s: State, t: Step, q: Pid)
    requires Inv(s) && Enabled(s, t) && q < |s.procs| && InReparent(s, t)
    ensures |After(s, t).procs| == |s.procs| && PlaceOk(After(s, t), q)
  {
    Facts(s, t, q, q);
    hide ChildOk, WokenOk, Inv;
  }

  lemma PlaceWait(s: State, t: Step, q: Pid)
    requires Inv(s) && Enabled(s, t) && q < |s.procs| && !InFork(s, t) && !InExit(s, t) && !InReparent(s, t)
    ensures |After(s, t).procs| == |s.procs| && PlaceOk(After(s, t), q)
  {
    Facts(s, t, q, q);
    hide ChildOk, WokenOk, Inv;
  }

  lemma NewPlace(s: State, t: Step)
    requires Inv(s) && Enabled(s, t) && InFork(s, t)
    ensures var np := if t.Fork? then t.np else s.procs[t.p].pc.np; np < |s.procs| && PlaceOk(s, np)
  {
    hide After, WokenOk, ForksApart, ChildOk;
    assert PlaceOk(s, t.p);
  }

  lemma ChildFork(s: State, t: Step, q: Pid, c: Pid)
    requires Inv(s) && Enabled(s, t) && q < |s.procs| && c < |s.procs| && InFork(s, t)
    ensures |After(s, t).procs| == |s.procs| && ChildOk(After(s, t), q, c)
  {
    hide Inv, ForksApart, WokenOk;
    Facts(s, t, q, c);
    NewPlace(s, t);
  }

  lemma ChildExit(s: State, t: Step, q: Pid, c: Pid)
    requires Inv(s) && Enabled(s, t) && q < |s.procs| && c < |s.procs| && InExit(s, t)
    ensures |After(s, t).procs| == |s.procs| && ChildOk(After(s, t), q, c)
  {
    hide Inv, ForksApart;
    Facts(s, t, q, c);
  }

  lemma ChildReparent(s: State, t: Step, q: Pid, c: Pid)
    requires Inv(s) && Enabled(s, t) && q < |s.procs| && c < |s.procs| && InReparent(s, t)
    ensures |After(s, t).procs| == |s.procs| && ChildOk(After(s, t), q, c)
  {
    hide Inv, ForksApart;
    Facts(s, t, q, c);
  }

  lemma ChildWait(s: State, t: Step, q: Pid, c: Pid)
    requires Inv(s) && Enabled(s, t) && q < |s.procs| && c < |s.procs| && !InFork(s, t) && !InExit(s, t)
             && !InReparent(s, t)
    ensures |After(s, t).procs| == |s.procs| && ChildOk(After(s, t), q, c)
  {
    hide Inv, ForksApart;
    Facts(s, t, q, c);
  }

  /** What a step of p can do to another process: wake it up, give it to init, start or undo a fork of
      it, or reap it. */
  predicate OtherEffect(s: State, p: Pid, a: Proc, a': Proc) {
    || a' == a
    || (a.pc == WaitAsleep && a' == a.(pc := WaitWant))
    || (a.parent == p && a' == a.(parent := s.init) && s.waitLock == Some(p))
    || (a.pc == Off && (a'.pc == Off || a'.pc == Run))
    || (a.life == Zombie && a'.pc == Off)
  }

  lemma OthersAfter(s: State, t: Step, q: Pid)
    requires Inv(s) && Enabled(s, t) && q < |s.procs| && q != t.p
    ensures |After(s, t).procs| == |s.procs| && OtherEffect(s, t.p, s.procs[q], After(s, t).procs[q])
  {
    Facts(s, t, q, q);
    hide ChildOk, WokenOk, Inv, ForksApart;
  }

  /** What a step of p does to p's place in a fork, or at the end of its exit. */
  lemma MeAfter(s: State, t: Step)
    requires Inv(s) && Enabled(s, t)
    ensures |After(s, t).procs| == |s.procs| && After(s, t).procs[t.p].parent == s.procs[t.p].parent
    ensures var pc, pc' := s.procs[t.p].pc, After(s, t).procs[t.p].pc;
            && (pc'.ForkLink? || pc'.ForkStart? ==>
                  (t.Fork? && pc'.np == t.np) || ((pc.ForkLink? || pc.ForkStart?) && pc'.np == pc.np))
            && (Waiting(pc') ==> Waiting(pc) || HoldsWaitLock(pc))
            && (pc'.ExitLast? ==> (t.Continue? && pc.ExitWake?) || (t.Spurious? && pc.ExitLast?))
  {
    Facts(s, t, t.p, t.p);
    hide ChildOk, WokenOk, Inv, ForksApart;
  }

  lemma WokenStep(s: State, t: Step, q: Pid)
    requires Inv(s) && Enabled(s, t) && q < |s.procs|
    ensures |After(s, t).procs| == |s.procs| && WokenOk(After(s, t), q)
  {
    Facts(s, t, q, q);
    MeAfter(s, t);
    var s', x := After(s, t), s.procs[q].parent;
    if q == t.p {
      if t.Continue? && s.procs[q].pc.ExitWake? {
        ParentWoken(s, t);
      } else if 0 <= x < |s.procs| {
        OthersAfter(s, t, x);
      }
    } else {
      OthersAfter(s, t, q);
      if 0 <= x < |s.procs| && x != t.p {
        OthersAfter(s, t, x);
      }
    }
    hide After, Inv, ChildOk, ForksApart, Enabled;
  }

  lemma ParentWoken(s: State, t: Step)
    requires Inv(s) && Enabled(s, t) && t.Continue? && s.procs[t.p].pc.ExitWake?
    ensures WokenOk(After(s, t), t.p)
  {
  }

  lemma Apart(s: State, q: Pid, c: Pid)
    requires Inv(s) && q < |s.procs| && c < |s.procs|
    ensures ForksApart(s, q, c)
  {
  }

  lemma ForksStep(s: State, t: Step, q: Pid, c: Pid)
    requires Inv(s) && Enabled(s, t) && q < |s.procs| && c < |s.procs|
    ensures |After(s, t).procs| == |s.procs| && ForksApart(After(s, t), q, c)
  {
    hide After, Inv, WokenOk, ChildOk;
    Facts(s, t, q, c);
    Apart(s, q, c);
    MeAfter(s, t);
    if q != t.p { OthersAfter(s, t, q); }
    if c != t.p { OthersAfter(s, t, c); }
  }

  lemma InvStep(s: State, t: Step)
    requires Inv(s) && Enabled(s, t)
    ensures Inv(After(s, t))
  {
    hide After, Enabled, PlaceOk, WokenOk, ForksApart, ChildOk;
    var s' := After(s, t);
    InvStepRange(s, t);
    forall q | 0 <= q < |s'.procs| ensures PlaceOk(s', q) && WokenOk(s', q) {
      if InFork(s, t) { PlaceFork(s, t, q); } else if InExit(s, t) { PlaceExit(s, t, q); }
      else if InReparent(s, t) { PlaceReparent(s, t, q); } else { PlaceWait(s, t, q); }
      WokenStep(s, t, q);
    }
    forall q, c | 0 <= q < |s'.procs| && 0 <= c < |s'.procs| ensures ForksApart(s', q, c) && ChildOk(s', q, c) {
      if InFork(s, t) { ChildFork(s, t, q, c); } else if InExit(s, t) { ChildExit(s, t, q, c); }
      else if InReparent(s, t) { ChildReparent(s, t, q, c); } else { ChildWait(s, t, q, c); }
      ForksStep(s, t, q, c);
    }
  }

  lemma InvStepRange(s: State, t: Step)
    requires Inv(s) && Enabled(s, t)
    ensures var s' := After(s, t);
            |s'.procs| == |s.procs| && t.p < |s.procs| && s'.init == s.init
                && (s'.waitLock.Some? ==> s'.waitLock.value < |s'.procs|)
  {
    hide PlaceOk, WokenOk, ForksApart, ChildOk;
  }

  lemma {:induction false} RunInv(run: seq<State>, i: nat)
    requires Behaviour(run) && i < |run|
    ensures Inv(run[i])
  {
    hide Inv, Init, Enabled, After;
    if i == 0 {
      InitInv(run[0]);
    } else {
      RunInv(run, i - 1);
      assert NextAt(run, i - 1);
      var t :| Enabled(run[i - 1], t) && run[i] == After(run[i - 1], t);
      InvStep(run[i - 1], t);
    }
  }

  // ---------- The guarantees ----------

  /** Whenever wait_lock is free, no process asleep in kwait, or on its way there, has a zombie child,
      whether its own or one that reparent gave to init. */
  lemma NoWaiterMissesZombie(run: seq<State>, i: nat, p: Pid, c: Pid)
    requires Behaviour(run) && i < |run| && p < |run[i].procs| && c < |run[i].procs|
    requires run[i].waitLock == None && Waiting(run[i].procs[p].pc) && run[i].procs[c].parent == p
    ensures run[i].procs[c].life != Zombie
  {
    RunInv(run, i);
    assert ChildOk(run[i], p, c);
  }

  /** Nobody is left without a parent that can reap it: a parent is never a zombie or a free slot. */
  lemma NoOrphans(run: seq<State>, i: nat, p: Pid, c: Pid)
    requires Behaviour(run) && i < |run| && p < |run[i].procs| && c < |run[i].procs| && run[i].procs[c].parent == p
    ensures run[i].procs[p].life == Live
  {
    RunInv(run, i);
    assert ChildOk(run[i], p, c);
  }

  /** Each exit is reaped at most once, and only by the current parent, after the zombie has left its
      stack. */
  lemma ReapedOnce(run: seq<State>, i: nat, c: Pid, t: Step)
    requires Behaviour(run) && i < |run| && c < |run[i].procs| && Enabled(run[i], t) && |After(run[i], t).procs| ==
             |run[i].procs|
    ensures run[i].procs[c].reaps <= run[i].procs[c].exits <= run[i].procs[c].reaps + 1
    ensures After(run[i], t).procs[c].reaps != run[i].procs[c].reaps ==>
              && After(run[i], t).procs[c].reaps == run[i].procs[c].reaps + 1 == run[i].procs[c].exits
              && run[i].procs[c].parent == t.p && run[i].procs[c].pc == Buried
  {
    RunInv(run, i);
    assert PlaceOk(run[i], c) && PlaceOk(run[i], t.p);
    hide Inv, ChildOk, WokenOk, ForksApart;
  }

  /** c, a zombie child of p, is reaped. */
  ghost predicate ReapsChild(s: State, s': State, p: Pid, c: Pid) {
    && c < |s.procs| == |s'.procs| && s.procs[c].parent == p && s.procs[c].life == Zombie
    && s'.procs[c].life == Unused && s'.procs[c].reaps == s.procs[c].reaps + 1
  }

  /** What kwait returns: it has reaped a zombie child, or the caller has no child at all. */
  lemma WaitReturns(run: seq<State>, i: nat, p: Pid)
    requires Behaviour(run) && i < |run| && Enabled(run[i], Continue(p)) && run[i].procs[p].pc.WaitScan?
    ensures var s, s' := run[i], After(run[i], Continue(p));
            && |s'.procs| == |s.procs|
            && (s'.procs[p].pc == Run ==>
                  || (forall c :: 0 <= c < |s.procs| ==> s.procs[c].parent != p)
                  || (exists c: Pid :: ReapsChild(s, s', p, c)))
  {
    RunInv(run, i);
    ScanReturns(run[i], p);
  }

  lemma ScanReturns(s: State, p: Pid)
    requires Inv(s) && Enabled(s, Continue(p)) && s.procs[p].pc.WaitScan?
    ensures var s' := After(s, Continue(p)); var k := s.procs[p].pc.k;
            && |s'.procs| == |s.procs|
            && (s'.procs[p].pc == Run ==>
                  || (forall c :: 0 <= c < |s.procs| ==> s.procs[c].parent != p)
                  || ReapsChild(s, s', p, k))
  {
    hide Inv, ForksApart, WokenOk;
    Facts(s, Continue(p), p, p);
    if s.procs[p].pc.k >= |s.procs| && !s.procs[p].pc.kids {
      forall c | 0 <= c < |s.procs| ensures s.procs[c].parent != p {
        Facts(s, Continue(p), p, c);
      }
    }
  }

  /** In kwait with a child found: still scanning, asleep or on the way there. */
  predicate FoundChild(pc: Pc) {
    Waiting(pc) || (pc.WaitScan? && pc.kids)
  }

  /** Nobody sleeps in kwait without a child that will wake it up when it exits. */
  lemma {:induction false} SleeperHasChild(run: seq<State>, i: nat, p: Pid) returns (c: Pid)
    requires Behaviour(run) && i < |run| && p < |run[i].procs| && FoundChild(run[i].procs[p].pc)
    ensures c < |run[i].procs| && run[i].procs[c].parent == p
  {
    hide Inv, Enabled, After;
    if i == 0 {
      FirstNotWaiting(run, p);
    }
    var t := StepOf(run, i - 1);
    InvStepRange(run[i - 1], t);
    if FoundChild(run[i - 1].procs[p].pc) {
      c := SleeperHasChild(run, i - 1, p);
      WaitingKeepsChild(run[i - 1], t, p, c);
    } else {
      c := FindsChild(run[i - 1], t, p);
    }
  }

  lemma FirstNotWaiting(run: seq<State>, p: Pid)
    requires Behaviour(run) && p < |run[0].procs|
    ensures !FoundChild(run[0].procs[p].pc)
  {
  }

  lemma StepOf(run: seq<State>, i: nat) returns (t: Step)
    requires Behaviour(run) && i + 1 < |run|
    ensures Inv(run[i]) && Enabled(run[i], t) && run[i + 1] == After(run[i], t)
  {
    hide Inv, Enabled, After;
    RunInv(run, i);
    assert NextAt(run, i);
    t :| Enabled(run[i], t) && run[i + 1] == After(run[i], t);
  }

  lemma FindsChild(s: State, t: Step, p: Pid) returns (c: Pid)
    requires Inv(s) && Enabled(s, t) && p < |s.procs| && !FoundChild(s.procs[p].pc)
    requires |After(s, t).procs| == |s.procs| && FoundChild(After(s, t).procs[p].pc)
    ensures c < |s.procs| && After(s, t).procs[c].parent == p
  {
    hide Inv, ChildOk, ForksApart, WokenOk;
    Facts(s, t, p, p);
    c := s.procs[p].pc.k;
  }

  /** While p is in kwait its children stay its own, except the one it reaps. */
  lemma WaitingKeepsChild(s: State, t: Step, p: Pid, c: Pid)
    requires Inv(s) && Enabled(s, t) && p < |s.procs| && c < |s.procs| && FoundChild(s.procs[p].pc)
    requires s.procs[c].parent == p && |After(s, t).procs| == |s.procs| && FoundChild(After(s, t).procs[p].pc)
    ensures After(s, t).procs[c].parent == p
  {
    hide Inv, After;
    if InFork(s, t) {
      ForkKeepsChild(s, t, p, c);
    } else {
      OthersKeepChild(s, t, p, c);
    }
  }

  lemma ForkKeepsChild(s: State, t: Step, p: Pid, c: Pid)
    requires Inv(s) && Enabled(s, t) && p < |s.procs| && c < |s.procs| && FoundChild(s.procs[p].pc)
    requires s.procs[c].parent == p && |After(s, t).procs| == |s.procs| && InFork(s, t)
    ensures After(s, t).procs[c].parent == p
  {
    hide Inv, ForksApart, WokenOk, ChildOk;
    Facts(s, t, p, c);
    NewPlace(s, t);
  }

  lemma OthersKeepChild(s: State, t: Step, p: Pid, c: Pid)
    requires Inv(s) && Enabled(s, t) && p < |s.procs| && c < |s.procs| && FoundChild(s.procs[p].pc) && !InFork(s, t)
    requires s.procs[c].parent == p && |After(s, t).procs| == |s.procs| && FoundChild(After(s, t).procs[p].pc)
    ensures After(s, t).procs[c].parent == p
  {
    hide Inv, ForksApart, WokenOk, ChildOk;
    Facts(s, t, p, c);
  }

  /** kfork gives the caller a running child. */
  lemma ForkReturns(s: State, t: Step)
    requires Inv(s) && Enabled(s, t) && t.Continue? && s.procs[t.p].pc.ForkStart?
    ensures var np, s' := s.procs[t.p].pc.np, After(s, t);
            np < |s'.procs| && s'.procs[np].life == Live && s'.procs[np].pc == Run && s'.procs[np].parent == t.p
  {
    hide Inv, ForksApart, WokenOk, ChildOk;
    Facts(s, t, t.p, t.p);
    NewPlace(s, t);
  }

  /** A step leaves c as it is, reaps it, or is its exiting parent giving it to init. */
  ghost predicate KeepsParent(s: State, t: Step, c: Pid)
    requires Enabled(s, t) && c < |s.procs|
  {
    && |After(s, t).procs| == |s.procs|
    && var a, a' := s.procs[c], After(s, t).procs[c];
       && a.reaps <= a'.reaps
       && (a'.reaps == a.reaps ==>
             && (a'.life == Live || a'.life == Zombie)
             && (a'.parent == a.parent
                 || (a'.parent == s.init && a.parent == t.p && t.Continue? && s.procs[t.p].pc == ExitScan(c))))
  }

  /** A process keeps its parent until it is reaped or the parent, exiting, gives it to init. */
  lemma ParentStep(s: State, t: Step, c: Pid)
    requires Inv(s) && Enabled(s, t) && c < |s.procs| && (s.procs[c].life == Live || s.procs[c].life == Zombie)
    ensures KeepsParent(s, t, c)
  {
    hide KeepsParent, Inv, After;
    if InFork(s, t) {
      ParentFork(s, t, c);
    } else if InReparent(s, t) {
      ParentReparent(s, t, c);
    } else {
      ParentElse(s, t, c);
    }
  }

  lemma ParentFork(s: State, t: Step, c: Pid)
    requires Inv(s) && Enabled(s, t) && c < |s.procs| && (s.procs[c].life == Live || s.procs[c].life == Zombie)
    requires InFork(s, t)
    ensures KeepsParent(s, t, c)
  {
    hide Inv, ForksApart, WokenOk, ChildOk;
    Facts(s, t, c, c);
    NewPlace(s, t);
  }

  lemma ParentReparent(s: State, t: Step, c: Pid)
    requires Inv(s) && Enabled(s, t) && c < |s.procs| && (s.procs[c].life == Live || s.procs[c].life == Zombie)
    requires InReparent(s, t)
    ensures KeepsParent(s, t, c)
  {
    hide Inv, ForksApart, WokenOk, ChildOk;
    Facts(s, t, c, c);
  }

  lemma ParentElse(s: State, t: Step, c: Pid)
    requires Inv(s) && Enabled(s, t) && c < |s.procs| && (s.procs[c].life == Live || s.procs[c].life == Zombie)
    requires !InFork(s, t) && !InReparent(s, t)
    ensures KeepsParent(s, t, c)
  {
    hide Inv, ForksApart, WokenOk, ChildOk;
    Facts(s, t, c, c);
  }

  /** After kfork has returned np to p, np is a child of p until it is reaped or p is in reparent. */
  lemma {:induction false} ChildOfItsForker(run: seq<State>, i: nat, p: Pid, np: Pid, j: nat)
    requires Behaviour(run) && i < j < |run| && p < |run[i].procs| && p < |run[i + 1].procs| && np < |run[i + 1].procs|
    requires run[i].procs[p].pc == ForkStart(np) && run[i + 1].procs[p].pc == Run
    requires forall k :: i < k < j ==> p < |run[k].procs| && run[k].procs[p].pc != ExitScan(np)
    requires np < |run[j].procs| && run[j].procs[np].reaps == run[i + 1].procs[np].reaps
    ensures run[j].procs[np].parent == p && (run[j].procs[np].life == Live || run[j].procs[np].life == Zombie)
  {
    hide Inv, Enabled, After;
    if j == i + 1 {
      var t := StepOf(run, i);
      StartIsContinue(run[i], t, p);
      ForkReturns(run[i], t);
    } else {
      var t := StepOf(run, j - 1);
      InvStepRange(run[j - 1], t);
      ReapsGrow(run, i + 1, j - 1, np);
      ReapsStep(run[j - 1], t, np);
      ChildOfItsForker(run, i, p, np, j - 1);
      ParentStep(run[j - 1], t, np);
    }
  }

  lemma StartIsContinue(s: State, t: Step, p: Pid)
    requires Inv(s) && Enabled(s, t) && p < |s.procs| && p < |After(s, t).procs|
    requires s.procs[p].pc.ForkStart? && After(s, t).procs[p].pc == Run
    ensures t == Continue(p)
  {
    hide Inv, ForksApart, WokenOk, ChildOk;
    Facts(s, t, p, p);
    if InFork(s, t) {
      NewPlace(s, t);
    }
  }

  lemma ReapsStep(s: State, t: Step, c: Pid)
    requires Inv(s) && Enabled(s, t) && c < |s.procs|
    ensures |After(s, t).procs| == |s.procs| && s.procs[c].reaps <= After(s, t).procs[c].reaps
  {
    hide Inv, ForksApart, WokenOk, ChildOk;
    Facts(s, t, c, c);
  }

  lemma {:induction false} ReapsGrow(run: seq<State>, i: nat, j: nat, c: Pid)
    requires Behaviour(run) && i <= j < |run| && c < |run[i].procs|
    ensures |run[j].procs| == |run[i].procs| && run[i].procs[c].reaps <= run[j].procs[c].reaps
  {
    hide Inv, Enabled, After;
    if i < j {
      ReapsGrow(run, i, j - 1, c);
      var t := StepOf(run, j - 1);
      ReapsStep(run[j - 1], t, c);
    }
  }

  /** wait_lock protects the parent fields: while somebody holds it, nobody else changes one. */
  lemma ParentsFrozen(run: seq<State>, i: nat, t: Step, c: Pid)
    requires Behaviour(run) && i < |run| && c < |run[i].procs| && Enabled(run[i], t)
    requires run[i].waitLock.Some? && run[i].waitLock.value != t.p
    ensures |After(run[i], t).procs| == |run[i].procs| && After(run[i], t).procs[c].parent == run[i].procs[c].parent
  {
    hide Enabled, After, Inv;
    RunInv(run, i);
    if InForkNow(run[i], t) {
      FrozenFork(run[i], t, c);
    } else {
      FrozenElse(run[i], t, c);
    }
  }

  predicate InForkNow(s: State, t: Step) {
    t.p < |s.procs| && InFork(s, t)
  }

  lemma FrozenFork(s: State, t: Step, c: Pid)
    requires Inv(s) && Enabled(s, t) && c < |s.procs| && s.waitLock.Some? && s.waitLock.value != t.p && InForkNow(s, t)
    ensures |After(s, t).procs| == |s.procs| && After(s, t).procs[c].parent == s.procs[c].parent
  {
    hide Inv, ForksApart, WokenOk, ChildOk;
    Facts(s, t, c, c);
    NewPlace(s, t);
  }

  lemma FrozenElse(s: State, t: Step, c: Pid)
    requires Inv(s) && Enabled(s, t) && c < |s.procs| && s.waitLock.Some? && s.waitLock.value != t.p && !InForkNow(s, t)
    ensures |After(s, t).procs| == |s.procs| && After(s, t).procs[c].parent == s.procs[c].parent
  {
    hide Inv, ForksApart, WokenOk, ChildOk;
    Facts(s, t, c, c);
  }

  /** How many steps of its own a process is at most away from the end of its call, or from sleep in it. */
  function Rank(n: nat, pc: Pc): nat {
    match pc
    case ForkLink(_) => 2
    case ForkStart(_) => 1
    case ExitWant => 2 * n + 6
    case ExitScan(k) => if k < n then 2 * (n - k) + 5 else 5
    case ExitPoke(k) => if k < n then 2 * (n - k) + 4 else 6
    case ExitWake => 3
    case ExitLast => 2
    case Dead => 1
    case WaitWant => n + 4
    case WaitScan(k, _) => if k < n then n - k + 3 else 3
    case WaitMid => 1
    case _ => 0
  }

  /** The scans end: each step inside kfork, kexit or kwait brings the process nearer to the end of the call, or to
      sleep. */
  lemma CallsEnd(s: State, p: Pid)
    requires Inv(s) && Enabled(s, Continue(p))
    ensures var s' := After(s, Continue(p));
            |s'.procs| == |s.procs| && Rank(|s.procs|, s'.procs[p].pc) < Rank(|s.procs|, s.procs[p].pc)
  {
    hide Inv, ForksApart, WokenOk, ChildOk;
    Facts(s, Continue(p), p, p);
    if InFork(s, Continue(p)) {
      NewPlace(s, Continue(p));
    }
  }

  predicate Forking(pc: Pc, np: Pid) {
    (pc.ForkLink? || pc.ForkStart?) && pc.np == np
  }

  /** No slot is lost: a slot that is taken but not started belongs to a kfork still under way, which will start it or
      free it. */
  lemma {:induction false} TakenSlotHasForker(run: seq<State>, i: nat, c: Pid) returns (p: Pid)
    requires Behaviour(run) && i < |run| && c < |run[i].procs| && run[i].procs[c].life == Used
    ensures p < |run[i].procs| && Forking(run[i].procs[p].pc, c)
  {
    hide Inv, Enabled, After;
    if i == 0 {
      FirstNotUsed(run, c);
    }
    var t := StepOf(run, i - 1);
    InvStepRange(run[i - 1], t);
    if run[i - 1].procs[c].life == Used {
      p := TakenSlotHasForker(run, i - 1, c);
      StaysForking(run[i - 1], t, p, c);
    } else {
      p := t.p;
      StartsForking(run[i - 1], t, c);
    }
  }

  lemma FirstNotUsed(run: seq<State>, c: Pid)
    requires Behaviour(run) && c < |run[0].procs|
    ensures run[0].procs[c].life != Used
  {
  }

  lemma StaysForking(s: State, t: Step, p: Pid, c: Pid)
    requires Inv(s) && Enabled(s, t) && p < |s.procs| && c < |s.procs| && Forking(s.procs[p].pc, c)
    requires |After(s, t).procs| == |s.procs| && After(s, t).procs[c].life == Used
    ensures Forking(After(s, t).procs[p].pc, c)
  {
    hide Inv, WokenOk, ChildOk;
    Facts(s, t, p, c);
    if InFork(s, t) {
      NewPlace(s, t);
    }
  }

  lemma StartsForking(s: State, t: Step, c: Pid)
    requires Inv(s) && Enabled(s, t) && c < |s.procs| && s.procs[c].life != Used
    requires |After(s, t).procs| == |s.procs| && After(s, t).procs[c].life == Used
    ensures Forking(After(s, t).procs[t.p].pc, c)
  {
    hide Inv, WokenOk, ChildOk, ForksApart;
    Facts(s, t, c, c);
    if InFork(s, t) {
      NewPlace(s, t);
    }
  }
}
