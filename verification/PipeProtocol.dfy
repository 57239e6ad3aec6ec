/** One reader and one writer on one pipe (kernel/pipe.c) with the lockless wq_has_sleeper test, at
    the granularity of lock operations, in both orders of sleep().  Both channels of a pipe live in
    one bucket (Pipe.PipeChannelsShareBucket), which other pipes share: `others` counts the foreign
    entries in it.  Only the number of buffered bytes matters here; the bytes are in Pipe.dfy. */
module PipeProtocol {
  import opened Pipe
  import opened Common

  datatype Role = Reader | Writer

  /** Where a process is inside sleep(); see SleepWakeup.Pc. */
  datatype Phase = Entering | GotBucket | GotBoth | Gap | Listed | Freed | Ready | Dozing | Slumber | Awake | Relocking

  /** What follows a wakeup of the other side. */
  datatype Then = ThenSleep(n: nat) | ThenReturn | ThenGone

  datatype Place =
    | Outside
    | Gone                             // has closed its end
    | WantLock(n: nat)
    | Loop(n: nat, first: bool)        // the while loop, n bytes to go; first: nothing stored in it yet
    | InSleep(n: nat, phase: Phase)
    | Copy(n: nat)                     // the for loop of piperead
    | Test(next: Then)                 // about to call wq_has_sleeper on the other channel
    | WakeWant(next: Then)             // wakeup_one or wakeup: about to take the bucket lock
    | WakeHold(next: Then)
    | Leave(next: Then)                // about to release pi->lock, or to sleep
    | WantClose

  datatype State = State(
    lock: Option<Role>,    // pi->lock
    bucket: Option<Role>,
    queue: set<Role>,      // which of the two is linked in the bucket
    others: nat,
    used: nat,             // nwrite - nread
    readopen: bool,
    writeopen: bool,
    r: Place,
    w: Place)

  /** What a run may do.  `guarded`: wq_has_sleeper is called only while the bucket lock is free.
      `midKill`: kkill can take effect on a pipewrite that has stored bytes it has not announced. */
  datatype Config = Config(order: Order, guarded: bool, midKill: bool)

  function Other(me: Role): Role {
    if me == Reader then Writer else Reader
  }

  function At(s: State, me: Role): Place {
    if me == Reader then s.r else s.w
  }

  function To(s: State, me: Role, p: Place): State {
    if me == Reader then s.(r := p) else s.(w := p)
  }

  /** The condition under which a reader or a writer goes to sleep. */
  predicate Blocked(s: State, me: Role) {
    if me == Reader then s.used == 0 && s.writeopen else s.used == PIPESIZE && s.readopen
  }

  /** It has released pi->lock inside sleep() and has not been woken. */
  predicate Asleep(p: Place) {
    p.InSleep? && (p.phase.Gap? || p.phase.Freed? || p.phase.Ready? || p.phase.Dozing? || p.phase.Slumber?)
  }

  predicate SleepStep(c: Config, s: State, me: Role, s': State)
    requires At(s, me).InSleep?
  {
    var InSleep(n, phase) := At(s, me);
    match phase
    case Entering => s.bucket == None && s' == To(s.(bucket := Some(me)), me, InSleep(n, GotBucket))
    case GotBucket =>
      if c.order == Coded then s' == To(s, me, InSleep(n, GotBoth))
      else s' == To(s.(queue := s.queue + {me}), me, InSleep(n, Listed))
    case GotBoth => s' == To(s.(lock := None), me, InSleep(n, Gap))
    case Gap => s' == To(s.(queue := s.queue + {me}), me, InSleep(n, Ready))
    case Listed => s' == To(s.(lock := None), me, InSleep(n, Freed))
    case Freed => s' == To(s, me, InSleep(n, Ready))
    case Ready => s' == To(s.(bucket := None), me, InSleep(n, Dozing))
    case Dozing => s' == To(s, me, InSleep(n, Slumber))
    case Slumber => false
    case Awake => s' == To(s, me, InSleep(n, Relocking))
    case Relocking => s.lock == None && s' == To(s.(lock := Some(me)), me, Loop(n, true))
  }

  /** The loop of pipewrite: a closed pipe or a kill ends the call, a full pipe leads to sleep, and
      otherwise a byte is stored or copyin fails. */
  predicate WriteLoop(c: Config, s: State, s': State)
    requires s.w.Loop?
  {
    var Loop(n, first) := s.w;
    if n == 0 then s' == s.(w := Test(ThenReturn))
    else if !s.readopen then s' == s.(lock := None, w := Outside)
    else
      || ((first || c.midKill) && s' == s.(lock := None, w := Outside))
      || (if s.used == PIPESIZE then s' == s.(w := Test(ThenSleep(n)))
          else s' == s.(used := s.used + 1, w := Loop(n - 1, false)) || s' == s.(w := Test(ThenReturn)))
  }

  /** The loops of piperead. */
  predicate ReadLoop(s: State, s': State)
    requires s.r.Loop?
  {
    if s.used == 0 && s.writeopen then
      s' == s.(lock := None, r := Outside) || s' == s.(r := InSleep(s.r.n, Entering))
    else s' == s.(r := Copy(s.r.n))
  }

  predicate CopyLoop(s: State, s': State)
    requires s.r.Copy?
  {
    if s.r.n == 0 || s.used == 0 then s' == s.(r := Test(ThenReturn))
    else s' == s.(used := s.used - 1, r := Copy(s.r.n - 1)) || s' == s.(r := Test(ThenReturn))
  }

  /** With the bucket lock held the waker wakes the other side if it is linked; for that it takes its
      process lock, which a dozing process still holds. */
  predicate WakeStep(s: State, me: Role, s': State)
    requires At(s, me).WakeHold?
  {
    var you := Other(me);
    var next := At(s, me).next;
    if you in s.queue && At(s, you).InSleep? then
      && At(s, you).phase == Slumber
      && s' == To(To(s.(queue := s.queue - {you}, bucket := None), you, InSleep(At(s, you).n, Awake)), me, Leave(next))
    else s' == To(s.(bucket := None), me, Leave(next))
  }

  predicate LeaveStep(s: State, me: Role, s': State)
    requires At(s, me).Leave?
  {
    match At(s, me).next
    case ThenSleep(n) => s' == To(s, me, InSleep(n, Entering))
    case ThenReturn => s' == To(s.(lock := None), me, Outside)
    case ThenGone => s' == To(s.(lock := None), me, Gone)
  }

  predicate Step(c: Config, s: State, me: Role, s': State) {
    match At(s, me)
    case Outside => s' == To(s, me, WantClose) || CallStep(s, me, s')
    case Gone => false
    case WantLock(n) => s.lock == None && s' == To(s.(lock := Some(me)), me, Loop(n, true))
    case Loop(_, _) => if me == Writer then WriteLoop(c, s, s') else ReadLoop(s, s')
    case InSleep(_, _) => SleepStep(c, s, me, s')
    case Copy(_) => me == Reader && CopyLoop(s, s')
    case Test(next) =>
      // wq_has_sleeper: the head of the bucket, read without its lock
      (c.guarded ==> s.bucket == None) &&
      if s.queue != {} || s.others > 0 then s' == To(s, me, WakeWant(next)) else s' == To(s, me, Leave(next))
    case WakeWant(next) => s.bucket == None && s' == To(s.(bucket := Some(me)), me, WakeHold(next))
    case WakeHold(_) => WakeStep(s, me, s')
    case Leave(_) => LeaveStep(s, me, s')
    case WantClose =>
      && s.lock == None
      && s' == To(if me == Reader then s.(lock := Some(me), readopen := false)
          else s.(lock := Some(me), writeopen := false),
                  me, WakeWant(ThenGone))
  }

  /** A call of pipewrite or piperead for some number of bytes. */
  predicate CallStep(s: State, me: Role, s': State) {
    At(s', me).WantLock? && s' == To(s, me, WantLock(At(s', me).n))
  }

  /** Other users of the bucket come and go while its lock is free. */
  predicate ForeignStep(s: State, s': State) {
    s.bucket == None && s' == s.(others := s'.others)
  }

  /** kkill of a side that is asleep: its wakeup takes the bucket lock and makes the side runnable. */
  predicate KillStep(s: State, me: Role, s': State) {
    && s.bucket == None && me in s.queue && At(s, me).InSleep? && At(s, me).phase == Slumber
    && s' == To(s.(queue := s.queue - {me}), me, InSleep(At(s, me).n, Awake))
  }

  ghost predicate Next(c: Config, s: State, s': State) {
    || ForeignStep(s, s') || KillStep(s, Reader, s') || KillStep(s, Writer, s')
    || Step(c, s, Reader, s') || Step(c, s, Writer, s')
  }

  ghost predicate Init(s: State) {
    s == State(None, None, {}, s.others, 0, true, true, Outside, Outside)
  }

  ghost predicate NextAt(c: Config, run: seq<State>, i: nat)
    requires i + 1 < |run|
  {
    Next(c, run[i], run[i + 1])
  }

  ghost predicate Run(c: Config, run: seq<State>) {
    |run| > 0 && Init(run[0]) && forall i :: 0 <= i < |run| - 1 ==> NextAt(c, run, i)
  }

  // ---------- When it works ----------

  /** The configurations in which nobody sleeps in vain. */
  predicate Sound(c: Config) {
    !c.midKill && (c.order == Documented || c.guarded)
  }

  predicate HoldsLock(p: Place) {
    || p.Loop? || p.Copy? || p.Test? || p.WakeWant? || p.WakeHold? || p.Leave?
    || (p.InSleep? && (p.phase.Entering? || p.phase.GotBucket? || p.phase.GotBoth? || p.phase.Listed?))
  }

  predicate HoldsBucket(p: Place) {
    || p.WakeHold?
    || (p.InSleep? && (p.phase.GotBucket? || p.phase.GotBoth? || p.phase.Gap? || p.phase.Listed? || p.phase.Freed?
        || p.phase.Ready?))
  }

  predicate Linked(p: Place) {
    p.InSleep? && (p.phase.Listed? || p.phase.Freed? || p.phase.Ready? || p.phase.Dozing? || p.phase.Slumber?)
  }

  /** Inside the critical section, before it has made sure that the other side is awake. */
  predicate Owes(me: Role, p: Place) {
    p.Test? || p.WakeWant? || p.WakeHold? || p.Copy? || (me == Writer && p.Loop? && !p.first)
  }

  ghost predicate Ok(c: Config, s: State, me: Role) {
    var p := At(s, me);
    && (s.lock == Some(me) <==> HoldsLock(p))
    && (s.bucket == Some(me) <==> HoldsBucket(p))
    && (me in s.queue <==> Linked(p))
    && (c.order == Documented ==> !(p.InSleep? && (p.phase.GotBoth? || p.phase.Gap?)))
    && (p.InSleep? && HoldsLock(p) ==> Blocked(s, me))
    && (HoldsLock(p) && !p.InSleep? && !p.Loop? && !p.Copy? && p.next.ThenSleep? ==> Blocked(s, me))
    && (p.Loop? && !p.first ==> s.readopen)
    && (Asleep(p) ==> Blocked(s, me) || Owes(Other(me), At(s, Other(me))))
  }

  ghost predicate Inv(c: Config, s: State) {
    Ok(c, s, Reader) && Ok(c, s, Writer)
  }

  lemma EnterStepOk(c: Config, s: State, me: Role, s': State)
    requires Sound(c) && Inv(c, s) && At(s, me).InSleep? && HoldsLock(At(s, me)) && SleepStep(c, s, me, s')
    ensures Inv(c, s')
  {
  }

  lemma SleepStepOk(c: Config, s: State, me: Role, s': State)
    requires Sound(c) && Inv(c, s) && At(s, me).InSleep? && Asleep(At(s, me)) && SleepStep(c, s, me, s')
    ensures Inv(c, s')
  {
  }

  lemma RelockStepOk(c: Config, s: State, me: Role, s': State)
    requires Sound(c) && Inv(c, s) && At(s, me).InSleep? && !HoldsLock(At(s, me)) && !Asleep(At(s, me))
             && SleepStep(c, s, me, s')
    ensures Inv(c, s')
  {
  }

  lemma WakeStepOk(c: Config, s: State, me: Role, s': State)
    requires Sound(c) && Inv(c, s) && Step(c, s, me, s')
    requires At(s, me).Test? || At(s, me).WakeWant? || At(s, me).WakeHold?
    ensures Inv(c, s')
  {
  }

  lemma LoopStepOk(c: Config, s: State, me: Role, s': State)
    requires Sound(c) && Inv(c, s) && Step(c, s, me, s')
    requires At(s, me).Loop? || At(s, me).Copy?
    ensures Inv(c, s')
  {
  }

  lemma EdgeStepOk(c: Config, s: State, me: Role, s': State)
    requires Sound(c) && Inv(c, s) && Step(c, s, me, s')
    requires At(s, me).Outside? || At(s, me).WantLock? || At(s, me).WantClose?
    ensures Inv(c, s')
  {
  }

  lemma LeaveStepOk(c: Config, s: State, me: Role, s': State)
    requires Sound(c) && Inv(c, s) && At(s, me).Leave? && Step(c, s, me, s')
    ensures Inv(c, s')
  {
  }

  lemma KillStepOk(c: Config, s: State, me: Role, s': State)
    requires Inv(c, s) && KillStep(s, me, s')
    ensures Inv(c, s')
  {
  }

  lemma InitOk(c: Config, s: State)
    requires Init(s)
    ensures Inv(c, s)
  {
  }

  lemma NextOk(c: Config, s: State, s': State)
    requires Sound(c) && Inv(c, s) && Next(c, s, s')
    ensures Inv(c, s')
  {
    if KillStep(s, Reader, s') {
      KillStepOk(c, s, Reader, s');
    } else if KillStep(s, Writer, s') {
      KillStepOk(c, s, Writer, s');
    } else if !ForeignStep(s, s') {
      hide Ok;
      var me := if Step(c, s, Reader, s') then Reader else Writer;
      match At(s, me)
      case InSleep(_, _) =>
        if HoldsLock(At(s, me)) {
          EnterStepOk(c, s, me, s');
        } else if Asleep(At(s, me)) {
          SleepStepOk(c, s, me, s');
        } else {
          RelockStepOk(c, s, me, s');
        }
      case Leave(_) => LeaveStepOk(c, s, me, s');
      case Test(_) => WakeStepOk(c, s, me, s');
      case WakeWant(_) => WakeStepOk(c, s, me, s');
      case WakeHold(_) => WakeStepOk(c, s, me, s');
      case Loop(_, _) => LoopStepOk(c, s, me, s');
      case Copy(_) => LoopStepOk(c, s, me, s');
      case _ => EdgeStepOk(c, s, me, s');
    }
  }

  lemma {:induction false} RunInv(c: Config, run: seq<State>, i: nat)
    requires Sound(c) && Run(c, run) && i < |run|
    ensures Inv(c, run[i])
  {
    hide Inv, Step;
    if i == 0 {
      InitOk(c, run[0]);
    } else {
      RunInv(c, run, i - 1);
      assert NextAt(c, run, i - 1);
      NextOk(c, run[i - 1], run[i]);
    }
  }

  /** With pi->lock free: a sleeping reader means an empty pipe whose writer is open, and a sleeping
      writer means a full pipe whose reader is open. */
  predicate NobodySleepsInVain(s: State) {
    s.lock == None ==> (Asleep(s.r) ==> Blocked(s, Reader)) && (Asleep(s.w) ==> Blocked(s, Writer))
  }

  lemma SoundRuns(c: Config, run: seq<State>, i: nat)
    requires Sound(c) && Run(c, run) && i < |run|
    ensures NobodySleepsInVain(run[i])
  {
    RunInv(c, run, i);
  }

  // ---------- When it does not ----------

  /** The order of the code: the reader is between releasing pi->lock and enqueueing itself when the
      writer stores a byte and finds the bucket empty. */
  function GapRun(): seq<State> {
    var s0 := State(None, None, {}, 0, 0, true, true, Outside, Outside);
    var s1 := s0.(r := WantLock(1));
    var s2 := s1.(lock := Some(Reader), r := Loop(1, true));
    var s3 := s2.(r := InSleep(1, Entering));
    var s4 := s3.(bucket := Some(Reader), r := InSleep(1, GotBucket));
    var s5 := s4.(r := InSleep(1, GotBoth));
    var s6 := s5.(lock := None, r := InSleep(1, Gap));
    var s7 := s6.(w := WantLock(1));
    var s8 := s7.(lock := Some(Writer), w := Loop(1, true));
    var s9 := s8.(used := 1, w := Loop(0, false));
    var s10 := s9.(w := Test(ThenReturn));
    var s11 := s10.(w := Leave(ThenReturn));
    var s12 := s11.(lock := None, w := Outside);
    var s13 := s12.(queue := {Reader}, r := InSleep(1, Ready));
    var s14 := s13.(bucket := None, r := InSleep(1, Dozing));
    var s15 := s14.(r := InSleep(1, Slumber));
    [s0, s1, s2, s3, s4, s5, s6, s7, s8, s9, s10, s11, s12, s13, s14, s15]
  }

  /** In the order of the code, with an unguarded test, a run leaves the reader asleep on a pipe that
      holds a byte, with the writer gone back to other work and no step left for the reader to take. */
  lemma CodedOrderLosesWakeup(c: Config)
    requires c.order == Coded && !c.guarded
    ensures Run(c, GapRun())
    ensures var s := GapRun()[|GapRun()| - 1];
            && s.lock == None && s.r == InSleep(1, Slumber) && s.w == Outside && s.used == 1
            && forall s' :: !Step(c, s, Reader, s')
  {
    var run := GapRun();
    forall i | 0 <= i < |run| - 1 ensures NextAt(c, run, i) {
      assert Step(c, run[i], if 6 <= i <= 11 then Writer else Reader, run[i + 1]);
    }
  }

  /** A kill that ends pipewrite between storing bytes and announcing them. */
  function KillRun(order: Order): seq<State> {
    var s0 := State(None, None, {}, 0, 0, true, true, Outside, Outside);
    var s1 := s0.(r := WantLock(1));
    var s2 := s1.(lock := Some(Reader), r := Loop(1, true));
    var s3 := s2.(r := InSleep(1, Entering));
    var s4 := s3.(bucket := Some(Reader), r := InSleep(1, GotBucket));
    var s5 := if order == Coded then s4.(r := InSleep(1, GotBoth)) else s4.(queue := {Reader}, r := InSleep(1, Listed));
    var s6 := s5.(lock := None, r := InSleep(1, if order == Coded then Gap else Freed));
    var s7 := s6.(w := WantLock(2));
    var s8 := s7.(lock := Some(Writer), w := Loop(2, true));
    var s9 := s8.(used := 1, w := Loop(1, false));
    var s10 := s9.(lock := None, w := Outside);
    var s11 := s10.(queue := {Reader}, r := InSleep(1, Ready));
    var s12 := s11.(bucket := None, r := InSleep(1, Dozing));
    var s13 := s12.(r := InSleep(1, Slumber));
    [s0, s1, s2, s3, s4, s5, s6, s7, s8, s9, s10, s11, s12, s13]
  }

  /** In either order, a pipewrite killed in mid-write leaves the reader asleep on data with no step of its own left. */
  lemma MidWriteKillLosesWakeup(c: Config)
    requires c.midKill
    ensures Run(c, KillRun(c.order))
    ensures var s := KillRun(c.order)[|KillRun(c.order)| - 1];
            && s.lock == None && s.r == InSleep(1, Slumber) && s.w == Outside && s.used == 1
            && forall s' :: !Step(c, s, Reader, s')
  {
    var run := KillRun(c.order);
    forall i | 0 <= i < |run| - 1 ensures NextAt(c, run, i) {
      assert Step(c, run[i], if 6 <= i <= 9 then Writer else Reader, run[i + 1]);
    }
  }

  /** Exactly when nobody sleeps in vain: in every run, if and only if no kill hits a write in progress
      and either sleep() enqueues before it releases pi->lock or the lockless test is made only while
      the bucket lock is free. */
  lemma NobodySleepsInVainIff(c: Config)
    ensures (forall run: seq<State>, i: nat :: Run(c, run) && i < |run| ==> NobodySleepsInVain(run[i])) <==> Sound(c)
  {
    if Sound(c) {
      forall run: seq<State>, i: nat | Run(c, run) && i < |run| ensures NobodySleepsInVain(run[i]) {
        SoundRuns(c, run, i);
      }
    } else if c.midKill {
      MidWriteKillLosesWakeup(c);
      var run := KillRun(c.order);
      assert !NobodySleepsInVain(run[|run| - 1]);
    } else {
      CodedOrderLosesWakeup(c);
      var run := GapRun();
      assert !NobodySleepsInVain(run[|run| - 1]);
    }
  }

  // ---------- The bytes and the ends ----------

  /** The side is past the point in pipeclose that closes its end. */
  predicate Closed(p: Place) {
    p.Gone? || ((p.Test? || p.WakeWant? || p.WakeHold? || p.Leave?) && p.next.ThenGone?)
  }

  /** The flags agree with the places; only the reader copies bytes out. */
  ghost predicate Ends(s: State) {
    !s.w.Copy? && (s.readopen <==> !Closed(s.r)) && (s.writeopen <==> !Closed(s.w))
  }

  lemma EndsStep(c: Config, s: State, s': State)
    requires Ends(s) && Next(c, s, s')
    ensures Ends(s')
  {
    if Step(c, s, Reader, s') {
      EndsSide(c, s, Reader, s');
    } else if Step(c, s, Writer, s') {
      EndsSide(c, s, Writer, s');
    }
    hide Step;
  }

  lemma EndsSide(c: Config, s: State, me: Role, s': State)
    requires Ends(s) && Step(c, s, me, s')
    ensures Ends(s')
  {
    if At(s, me).InSleep? {
      EndsSleep(c, s, me, s');
    } else if At(s, me).WakeHold? {
      EndsWake(s, me, s');
    } else {
      hide SleepStep, WakeStep;
    }
  }

  lemma EndsSleep(c: Config, s: State, me: Role, s': State)
    requires Ends(s) && At(s, me).InSleep? && SleepStep(c, s, me, s')
    ensures Ends(s')
  {
  }

  lemma EndsWake(s: State, me: Role, s': State)
    requires Ends(s) && At(s, me).WakeHold? && WakeStep(s, me, s')
    ensures Ends(s')
  {
  }

  /** In every run, whatever the order and the kills: an end is open until the side that holds it closes it. */
  lemma {:induction false} OpenUntilClosed(c: Config, run: seq<State>, i: nat)
    requires Run(c, run) && i < |run|
    ensures run[i].readopen <==> !Closed(run[i].r)
    ensures (run[i].writeopen <==> !Closed(run[i].w)) && !run[i].w.Copy?
  {
    hide Next;
    if i > 0 {
      OpenUntilClosed(c, run, i - 1);
      assert NextAt(c, run, i - 1);
      EndsStep(c, run[i - 1], run[i]);
    }
  }

  /** The writer has gone on by a byte; the reader has. */
  predicate Stored(w: Place, w': Place) {
    w.Loop? && w'.Loop? && w'.n + 1 == w.n
  }

  predicate Fetched(r: Place, r': Place) {
    r.Copy? && r'.Copy? && r'.n + 1 == r.n
  }

  ghost function Stores(run: seq<State>, i: nat): nat
    requires i < |run|
  {
    if i == 0 then 0 else Stores(run, i - 1) + if Stored(run[i - 1].w, run[i].w) then 1 else 0
  }

  ghost function Fetches(run: seq<State>, i: nat): nat
    requires i < |run|
  {
    if i == 0 then 0 else Fetches(run, i - 1) + if Fetched(run[i - 1].r, run[i].r) then 1 else 0
  }

  ghost predicate Counted(s: State, s': State) {
    && s'.used <= PIPESIZE
    && s'.used == s.used + (if Stored(s.w, s'.w) then 1 else 0) - if Fetched(s.r, s'.r) then 1 else 0
  }

  lemma BytesStep(c: Config, s: State, s': State)
    requires Next(c, s, s') && s.used <= PIPESIZE
    ensures Counted(s, s')
  {
    if Step(c, s, Reader, s') {
      BytesSide(c, s, Reader, s');
    } else if Step(c, s, Writer, s') {
      BytesSide(c, s, Writer, s');
    }
    hide Step;
  }

  lemma BytesSide(c: Config, s: State, me: Role, s': State)
    requires Step(c, s, me, s') && s.used <= PIPESIZE
    ensures Counted(s, s')
  {
    if At(s, me).InSleep? {
      BytesSleep(c, s, me, s');
    } else {
      hide SleepStep;
    }
  }

  lemma BytesSleep(c: Config, s: State, me: Role, s': State)
    requires At(s, me).InSleep? && SleepStep(c, s, me, s') && s.used <= PIPESIZE
    ensures Counted(s, s')
  {
  }

  /** In every run: what the writer has stored and the reader has not fetched is in the buffer, and fits it. */
  lemma {:induction false} BytesConserved(c: Config, run: seq<State>, i: nat)
    requires Run(c, run) && i < |run|
    ensures run[i].used + Fetches(run, i) == Stores(run, i) && run[i].used <= PIPESIZE
  {
    hide Next;
    if i > 0 {
      BytesConserved(c, run, i - 1);
      assert NextAt(c, run, i - 1);
      BytesStep(c, run[i - 1], run[i]);
    }
  }

  /** piperead stops waiting only for a byte, for the end of the file, or because it was killed. */
  lemma ReaderWaits(c: Config, run: seq<State>, i: nat)
    requires Run(c, run) && i + 1 < |run| && run[i].r.Loop? && run[i + 1].r != run[i].r
    ensures run[i + 1].r.Copy? ==> Stores(run, i) > Fetches(run, i) || Closed(run[i].w)
    ensures run[i + 1].r.InSleep? ==> Stores(run, i) == Fetches(run, i) && !Closed(run[i].w)
    ensures run[i + 1].r.Copy? || run[i + 1].r.InSleep? || run[i + 1].r == Outside
  {
    assert NextAt(c, run, i);
    BytesConserved(c, run, i);
    OpenUntilClosed(c, run, i);
  }

  // ---------- Calls come to an end ----------

  /** How many steps of its own a side is at most away from the end of its call, or from sleep in it. */
  function Rank(p: Place): nat {
    match p
    case Outside => 0
    case Gone => 0
    case WantLock(n) => n + 17
    case Loop(n, _) => n + 16
    case Copy(n) => n + 15
    case WantClose => 14
    case Test(_) => 14
    case WakeWant(_) => 13
    case WakeHold(_) => 12
    case Leave(_) => 11
    case InSleep(_, phase) => PhaseRank(phase)
  }

  function PhaseRank(phase: Phase): nat {
    match phase
    case Entering => 10
    case GotBucket => 9
    case GotBoth => 8
    case Listed => 8
    case Gap => 7
    case Freed => 7
    case Ready => 6
    case Dozing => 5
    case Slumber => 4
    case Awake => 3
    case Relocking => 2
  }

  /** Between two sleeps every step of a side brings it nearer to the end of the call, or to sleep. */
  lemma CallsEnd(c: Config, s: State, me: Role, s': State)
    requires Step(c, s, me, s') && !At(s, me).Outside? && !(At(s, me).InSleep? && At(s, me).phase.Relocking?)
    ensures Rank(At(s', me)) < Rank(At(s, me))
  {
    if At(s, me).InSleep? {
      SleepsOn(c, s, me, s');
    } else {
      hide SleepStep;
    }
  }

  lemma SleepsOn(c: Config, s: State, me: Role, s': State)
    requires At(s, me).InSleep? && SleepStep(c, s, me, s') && !At(s, me).phase.Relocking?
    ensures Rank(At(s', me)) < Rank(At(s, me))
  {
  }

  /** Nothing that the step of this side waits for is missing: a lock, or the process lock of a dozing sleeper. */
  predicate Free(s: State, me: Role) {
    var p := At(s, me);
    match p
    case Outside => true
    case Gone => false
    case WantLock(_) => s.lock == None
    case WantClose => s.lock == None
    case Test(_) => s.bucket == None
    case WakeWant(_) => s.bucket == None
    case WakeHold(_) =>
      Other(me) in s.queue && At(s, Other(me)).InSleep? ==> At(s, Other(me)).phase == Slumber
    case InSleep(_, phase) =>
      phase != Slumber && (phase == Entering ==> s.bucket == None) && (phase == Relocking ==> s.lock == None)
    case _ => true
  }

  lemma FreeSteps(c: Config, s: State, me: Role) returns (s': State)
    requires Free(s, me) && (At(s, me).Copy? ==> me == Reader)
    ensures Step(c, s, me, s')
  {
    var you := Other(me);
    match At(s, me)
    case Outside => s' := To(s, me, WantClose);
    case WantLock(n) => s' := To(s.(lock := Some(me)), me, Loop(n, true));
    case Loop(n, _) =>
      s' := LoopSteps(c, s, me);
    case InSleep(_, _) =>
      s' := SleepSteps(c, s, me);
    case Copy(n) => s' := s.(r := Test(ThenReturn));
    case Test(next) => s' := To(s, me, if s.queue != {} || s.others > 0 then WakeWant(next) else Leave(next));
    case WakeWant(next) => s' := To(s.(bucket := Some(me)), me, WakeHold(next));
    case WakeHold(next) =>
      s' := if you in s.queue && At(s, you).InSleep?
      then To(To(s.(queue := s.queue - {you}, bucket := None), you, InSleep(At(s, you).n, Awake)), me, Leave(next))
      else To(s.(bucket := None), me, Leave(next));
    case Leave(next) =>
      s' := match next
        case ThenSleep(n) => To(s, me, InSleep(n, Entering))
        case ThenReturn => To(s.(lock := None), me, Outside)
        case ThenGone => To(s.(lock := None), me, Gone);
    case WantClose =>
      s' := To(if me == Reader then s.(lock := Some(me), readopen := false)
               else s.(lock := Some(me), writeopen := false), me, WakeWant(ThenGone));
  }

  lemma LoopSteps(c: Config, s: State, me: Role) returns (s': State)
    requires At(s, me).Loop?
    ensures Step(c, s, me, s')
  {
    var n := At(s, me).n;
    if me == Reader {
      s' := if s.used == 0 && s.writeopen then s.(r := InSleep(n, Entering)) else s.(r := Copy(n));
    } else {
      s' := if n == 0 then s.(w := Test(ThenReturn))
            else if !s.readopen then s.(lock := None, w := Outside)
            else s.(w := Test(if s.used == PIPESIZE then ThenSleep(n) else ThenReturn));
    }
  }

  lemma SleepSteps(c: Config, s: State, me: Role) returns (s': State)
    requires At(s, me).InSleep? && Free(s, me)
    ensures Step(c, s, me, s')
  {
    var InSleep(n, phase) := At(s, me);
    s' := match phase
      case Entering => To(s.(bucket := Some(me)), me, InSleep(n, GotBucket))
      case GotBucket =>
        if c.order == Coded then To(s, me, InSleep(n, GotBoth))
        else To(s.(queue := s.queue + {me}), me, InSleep(n, Listed))
      case GotBoth => To(s.(lock := None), me, InSleep(n, Gap))
      case Gap => To(s.(queue := s.queue + {me}), me, InSleep(n, Ready))
      case Listed => To(s.(lock := None), me, InSleep(n, Freed))
      case Freed => To(s, me, InSleep(n, Ready))
      case Ready => To(s.(bucket := None), me, InSleep(n, Dozing))
      case Dozing => To(s, me, InSleep(n, Slumber))
      case Awake => To(s, me, InSleep(n, Relocking))
      case _ => To(s.(lock := Some(me)), me, Loop(n, true));
  }

  /** Somebody can go on, unless both sides have closed. */
  lemma SomebodyFree(c: Config, s: State)
    requires Inv(c, s) && Ends(s)
    ensures Free(s, Reader) || Free(s, Writer) || (s.r.Gone? && s.w.Gone?)
  {
    if s.lock.Some? {
      HolderFree(c, s, s.lock.value);
    } else {
      UnlockedFree(c, s, Reader);
      UnlockedFree(c, s, Writer);
      assert !Asleep(s.r) || !Asleep(s.w);
    }
  }

  /** The holder of pi->lock can go on, or waits for the other side, which can. */
  lemma HolderFree(c: Config, s: State, me: Role)
    requires Inv(c, s) && s.lock == Some(me)
    ensures Free(s, me) || Free(s, Other(me))
  {
    assert Ok(c, s, me) && Ok(c, s, Other(me));
    if s.bucket.Some? {
      TwoSides(me, s.bucket.value);
    }
    if !Free(s, me) && At(s, me).WakeHold? {
      assert At(s, Other(me)).phase == Dozing;
    }
  }

  lemma TwoSides(me: Role, x: Role)
    ensures x == me || x == Other(me)
  {
    match x
    case Reader =>
    case Writer =>
  }

  lemma UnlockedFree(c: Config, s: State, me: Role)
    requires Inv(c, s) && s.lock == None
    ensures Free(s, me) || At(s, me).Gone? || Asleep(At(s, me))
  {
  }

  /** In a sound configuration the two sides never get stuck: in every state of every run one of them can take a step,
      until both have closed the pipe. */
  lemma NeverStuck(c: Config, run: seq<State>, i: nat)
    requires Sound(c) && Run(c, run) && i < |run|
    ensures (run[i].r.Gone? && run[i].w.Gone?) || exists me, s' :: Step(c, run[i], me, s')
  {
    hide Inv, Step, Free, Next;
    var s := run[i];
    RunInv(c, run, i);
    OpenUntilClosed(c, run, i);
    SomebodyFree(c, s);
    if Free(s, Reader) {
      var s' := FreeSteps(c, s, Reader);
    } else if Free(s, Writer) {
      var s' := FreeSteps(c, s, Writer);
    }
  }
}
