/** begin_op, log_write and end_op (kernel/log.c) as a state machine over any number of processes: every
    step is a critical section of log.lock.  An operation under way has reserved MAXOPBLOCKS log blocks
    and may append at most that many to the list. */
module LogReserve {
  import opened BufferCache
  import opened LogRecovery

  /** Asleep on &log; runnable in the loop of begin_op; between begin_op and end_op, having appended `used`
      blocks; in commit(), before and after the list is emptied. */
  datatype Proc = Idle | Waiting | Trying | InOp(used: nat) | Committing | Cleared

  datatype State = State(lh: seq<nat>, outstanding: nat, committing: bool, procs: seq<Proc>)

  datatype Step =
    | Call(p: nat)
    | Begin(p: nat)
    | LogWrite(p: nat, b: nat)
    | End(p: nat)
    | Clear(p: nat)
    | Done(p: nat)

  predicate NoSpace(s: State) {
    |s.lh| + (s.outstanding + 1) * MAXOPBLOCKS > LOGBLOCKS
  }

  /** The panic tests of log_write. */
  predicate Panics(s: State) {
    |s.lh| >= LOGBLOCKS || s.outstanding < 1
  }

  /** The caller's part: an operation appends at most MAXOPBLOCKS blocks; a block in the list is free. */
  predicate MayWrite(s: State, p: nat, b: nat) {
    p < |s.procs| && s.procs[p].InOp? && (b in s.lh || s.procs[p].used < MAXOPBLOCKS)
  }

  predicate Enabled(s: State, t: Step) {
    t.p < |s.procs| &&
    var p := s.procs[t.p];
    match t
    case Call(_) => p.Idle?
    case Begin(_) => p.Trying?
    case LogWrite(_, b) => MayWrite(s, t.p, b) && !Panics(s)
    case End(_) => p.InOp? && s.outstanding > 0
    case Clear(_) => p.Committing?
    case Done(_) => p.Cleared?
  }

  /** wakeup(&log). */
  function Woken(procs: seq<Proc>): seq<Proc> {
    seq(|procs|, i requires 0 <= i < |procs| => if procs[i].Waiting? then Trying else procs[i])
  }

  function After(s: State, t: Step): State
    requires Enabled(s, t)
  {
    match t
    case Call(p) => s.(procs := s.procs[p := Trying])
    case Begin(p) =>
      if s.committing || NoSpace(s) then s.(procs := s.procs[p := Waiting])
      else s.(outstanding := s.outstanding + 1, procs := s.procs[p := InOp(0)])
    case LogWrite(p, b) =>
      if b in s.lh then s else s.(lh := s.lh + [b], procs := s.procs[p := InOp(s.procs[p].used + 1)])
    case End(p) =>
      if s.outstanding == 1 then s.(outstanding := 0, committing := true, procs := s.procs[p := Committing])
      else s.(outstanding := s.outstanding - 1, procs := Woken(s.procs[p := Idle]))
    case Clear(p) => s.(lh := [], procs := s.procs[p := Cleared])
    case Done(p) => s.(committing := false, procs := Woken(s.procs[p := Idle]))
  }

  // ---------- Sums over the processes ----------

  function One(p: Proc): nat {
    if p.InOp? then 1 else 0
  }

  /** What an operation may still append. */
  function Left(p: Proc): int {
    if p.InOp? then MAXOPBLOCKS - p.used else 0
  }

  predicate Commits(p: Proc) {
    p.Committing? || p.Cleared?
  }

  function Ops(procs: seq<Proc>): nat {
    if procs == [] then 0 else One(procs[0]) + Ops(procs[1..])
  }

  function Reserved(procs: seq<Proc>): int {
    if procs == [] then 0 else Left(procs[0]) + Reserved(procs[1..])
  }

  function Committers(procs: seq<Proc>): nat {
    if procs == [] then 0 else (if Commits(procs[0]) then 1 else 0) + Committers(procs[1..])
  }

  lemma {:induction false} SumsUpdate(procs: seq<Proc>, p: nat, q: Proc)
    requires p < |procs|
    ensures Ops(procs[p := q]) == Ops(procs) - One(procs[p]) + One(q)
    ensures Reserved(procs[p := q]) == Reserved(procs) - Left(procs[p]) + Left(q)
    ensures Committers(procs[p := q]) == Committers(procs) - (if Commits(procs[p]) then 1 else 0) + if Commits(q) then 1
            else 0
  {
    var r := procs[p := q];
    if p == 0 {
      assert r[1..] == procs[1..];
    } else {
      assert r[1..] == procs[1..][p - 1 := q];
      SumsUpdate(procs[1..], p - 1, q);
    }
  }

  lemma {:induction false} SumsWoken(procs: seq<Proc>)
    ensures Ops(Woken(procs)) == Ops(procs) && Reserved(Woken(procs)) == Reserved(procs) && Committers(Woken(procs)) ==
            Committers(procs)
  {
    if procs != [] {
      assert Woken(procs)[1..] == Woken(procs[1..]);
      SumsWoken(procs[1..]);
    }
  }

  /** Every operation is within its reservation, so the sum covers each of them. */
  lemma {:induction false} SumsCover(procs: seq<Proc>, p: nat)
    requires p < |procs| && forall i :: 0 <= i < |procs| ==> Left(procs[i]) >= 0
    ensures Reserved(procs) >= Left(procs[p]) && Ops(procs) >= One(procs[p])
            && (Commits(procs[p]) ==> Committers(procs) >= 1)
  {
    SumsUpdate(procs, p, Idle);
    SumsNat(procs[p := Idle]);
  }

  lemma {:induction false} SumsNat(procs: seq<Proc>)
    requires forall i :: 0 <= i < |procs| ==> Left(procs[i]) >= 0
    ensures Reserved(procs) >= 0
  {
    if procs != [] {
      assert Left(procs[0]) >= 0;
      SumsNat(procs[1..]);
    }
  }

  lemma {:induction false} SumsNone(procs: seq<Proc>)
    requires Ops(procs) == 0
    ensures Reserved(procs) == 0
  {
    if procs != [] {
      SumsNone(procs[1..]);
    }
  }

  // ---------- The invariant ----------

  ghost predicate Inv(s: State) {
    && (forall i :: 0 <= i < |s.procs| ==> Left(s.procs[i]) >= 0)
    && |s.lh| + Reserved(s.procs) <= LOGBLOCKS
    && Ops(s.procs) == s.outstanding
    && Committers(s.procs) == (if s.committing then 1 else 0)
    && (s.committing ==> s.outstanding == 0)
    && (s.outstanding == 0 && !s.committing ==> s.lh == [])
    && (forall i :: 0 <= i < |s.procs| && s.procs[i].Cleared? ==> s.lh == [])
    && (forall i :: 0 <= i < |s.procs| && s.procs[i].Waiting? ==> s.committing || NoSpace(s))
  }

  predicate Init(s: State) {
    s.lh == [] && s.outstanding == 0 && !s.committing && forall i :: 0 <= i < |s.procs| ==> s.procs[i].Idle?
  }

  lemma {:induction false} InitSums(procs: seq<Proc>)
    requires forall i :: 0 <= i < |procs| ==> procs[i].Idle?
    ensures Ops(procs) == 0 && Reserved(procs) == 0 && Committers(procs) == 0
  {
    if procs != [] {
      InitSums(procs[1..]);
    }
  }

  /** The reservation begin_op makes fits. */
  lemma InvBegin(s: State, p: nat)
    requires Inv(s) && Enabled(s, Begin(p))
    ensures Inv(After(s, Begin(p)))
  {
    SumsUpdate(s.procs, p, Waiting);
    SumsUpdate(s.procs, p, InOp(0));
    ReservedBound(s.procs);
  }

  lemma {:induction false} ReservedBound(procs: seq<Proc>)
    requires forall i :: 0 <= i < |procs| ==> Left(procs[i]) >= 0
    ensures Reserved(procs) <= Ops(procs) * MAXOPBLOCKS
  {
    if procs != [] {
      assert Left(procs[0]) >= 0;
      ReservedBound(procs[1..]);
    }
  }

  lemma InvEnd(s: State, p: nat)
    requires Inv(s) && Enabled(s, End(p))
    ensures Inv(After(s, End(p)))
  {
    SumsCover(s.procs, p);
    SumsUpdate(s.procs, p, Committing);
    SumsUpdate(s.procs, p, Idle);
    SumsWoken(s.procs[p := Idle]);
    assert Left(s.procs[p]) >= 0;
  }

  lemma InvCommit(s: State, p: nat)
    requires Inv(s) && p < |s.procs|
    ensures Enabled(s, Clear(p)) ==> Inv(After(s, Clear(p)))
    ensures Enabled(s, Done(p)) ==> Inv(After(s, Done(p)))
  {
    SumsCover(s.procs, p);
    SumsUpdate(s.procs, p, Cleared);
    SumsUpdate(s.procs, p, Idle);
    SumsWoken(s.procs[p := Idle]);
  }

  lemma InvWrite(s: State, p: nat, b: nat)
    requires Inv(s) && Enabled(s, LogWrite(p, b))
    ensures Inv(After(s, LogWrite(p, b)))
  {
    SumsCover(s.procs, p);
    SumsUpdate(s.procs, p, InOp(s.procs[p].used + 1));
    forall i | 0 <= i < |s.procs| ensures !s.procs[i].Cleared? {
      SumsCover(s.procs, i);
    }
  }

  lemma InvStep(s: State, t: Step)
    requires Inv(s) && Enabled(s, t)
    ensures Inv(After(s, t))
  {
    match t
    case Call(p) => SumsUpdate(s.procs, p, Trying);
    case Begin(p) => InvBegin(s, p);
    case LogWrite(p, b) => InvWrite(s, p, b);
    case End(p) => InvEnd(s, p);
    case Clear(p) => InvCommit(s, p);
    case Done(p) => InvCommit(s, p);
  }

  ghost predicate NextAt(run: seq<State>, i: nat)
    requires i + 1 < |run|
  {
    exists t :: Enabled(run[i], t) && run[i + 1] == After(run[i], t)
  }

  ghost predicate Run(run: seq<State>) {
    |run| > 0 && Init(run[0]) && forall i :: 0 <= i < |run| - 1 ==> NextAt(run, i)
  }

  lemma {:induction false} RunInv(run: seq<State>, i: nat)
    requires Run(run) && i < |run|
    ensures Inv(run[i])
  {
    if i == 0 {
      InitSums(run[0].procs);
    } else {
      RunInv(run, i - 1);
      assert NextAt(run, i - 1);
      var t :| Enabled(run[i - 1], t) && run[i] == After(run[i - 1], t);
      InvStep(run[i - 1], t);
    }
  }

  // ---------- What the reservation is for ----------

  /** The list never overflows, and an operation that still has reserved blocks never meets a panic: not
      "too big a transaction", not "outside of trans", and not "log.committing" when it ends. */
  lemma NoOverflow(run: seq<State>, i: nat, p: nat)
    requires Run(run) && i < |run| && p < |run[i].procs| && run[i].procs[p].InOp?
    ensures |run[i].lh| <= LOGBLOCKS && !run[i].committing && run[i].outstanding >= 1
    ensures run[i].procs[p].used < MAXOPBLOCKS ==> !Panics(run[i])
  {
    RunInv(run, i);
    SumsCover(run[i].procs, p);
    SumsNat(run[i].procs);
  }

  /** The test for a full log comes before the search for the block, so a block that needs no room panics
      too; that happens exactly when the log is full, and then every operation has used up its reservation. */
  lemma PanicIffFull(run: seq<State>, i: nat, p: nat, b: nat)
    requires Run(run) && i < |run| && MayWrite(run[i], p, b)
    ensures Panics(run[i]) <==> |run[i].lh| == LOGBLOCKS
    ensures Panics(run[i]) ==> b in run[i].lh && forall q :: 0 <= q < |run[i].procs| && run[i].procs[q].InOp? ==>
              run[i].procs[q].used == MAXOPBLOCKS
  {
    NoOverflow(run, i, p);
    RunInv(run, i);
    forall q | 0 <= q < |run[i].procs| && run[i].procs[q].InOp? ensures Panics(run[i]) ==>
          run[i].procs[q].used == MAXOPBLOCKS {
      NoOverflow(run, i, q);
      SumsCover(run[i].procs, q);
      assert Left(run[i].procs[q]) >= 0;
    }
  }

  /** While a commit is under way no operation is: nothing is added to the transaction being committed. */
  lemma CommitAlone(run: seq<State>, i: nat, p: nat, q: nat)
    requires Run(run) && i < |run| && p < |run[i].procs| && q < |run[i].procs|
    requires Commits(run[i].procs[p])
    ensures run[i].committing && !run[i].procs[q].InOp?
    ensures Commits(run[i].procs[q]) ==> p == q
  {
    RunInv(run, i);
    var procs := run[i].procs;
    SumsCover(procs, p);
    SumsCover(procs, q);
    SumsUpdate(procs, p, Idle);
    if p != q {
      SumsCover(procs[p := Idle], q);
    }
  }

  /** Whoever sleeps in begin_op has a reason, and somebody who will wake it. */
  lemma WaitersHaveAReason(run: seq<State>, i: nat, p: nat)
    requires Run(run) && i < |run| && p < |run[i].procs| && run[i].procs[p].Waiting?
    ensures run[i].committing || NoSpace(run[i])
    ensures exists q :: 0 <= q < |run[i].procs| && (run[i].procs[q].InOp? || Commits(run[i].procs[q]))
  {
    RunInv(run, i);
    SomeWorker(run[i].procs);
  }

  lemma {:induction false} SomeWorker(procs: seq<Proc>)
    requires Ops(procs) + Committers(procs) > 0
    ensures exists q :: 0 <= q < |procs| && (procs[q].InOp? || Commits(procs[q]))
  {
    if !(procs[0].InOp? || Commits(procs[0])) {
      SomeWorker(procs[1..]);
      var q :| 0 <= q < |procs[1..]| && (procs[1..][q].InOp? || Commits(procs[1..][q]));
      assert procs[q + 1] == procs[1..][q];
    }
  }

  /** Whoever does not sleep in begin_op can go on. */
  lemma NeverStuck(run: seq<State>, i: nat, p: nat)
    requires Run(run) && i < |run| && p < |run[i].procs| && !run[i].procs[p].Waiting?
    ensures exists t: Step :: t.p == p && Enabled(run[i], t)
  {
    RunInv(run, i);
    SumsCover(run[i].procs, p);
    var t := match run[i].procs[p]
      case Idle => Call(p)
      case InOp(_) => End(p)
      case Committing => Clear(p)
      case Cleared => Done(p)
      case _ => Begin(p);
    assert t.p == p && Enabled(run[i], t);
  }

  predicate Distinct(lh: seq<nat>) {
    forall i, j :: 0 <= i < j < |lh| ==> lh[i] != lh[j]
  }

  /** Each block is in the list once: log absorption. */
  lemma {:induction false} Absorbed(run: seq<State>, i: nat)
    requires Run(run) && i < |run|
    ensures Distinct(run[i].lh)
  {
    if i > 0 {
      Absorbed(run, i - 1);
      assert NextAt(run, i - 1);
    }
  }

  /** A commit empties the list between i and i + 1. */
  ghost predicate Cuts(run: seq<State>, i: nat) {
    i + 1 < |run| && |run[i].procs| == |run[i + 1].procs|
    && exists p :: 0 <= p < |run[i].procs| && run[i].procs[p] == Committing && run[i + 1].procs[p] == Cleared
  }

  /** What an operation has logged stays in the transaction until a commit has been made of it. */
  lemma {:induction false} StaysLogged(run: seq<State>, i: nat, j: nat, p: nat, b: nat)
    requires Run(run) && i < j < |run| && Enabled(run[i], LogWrite(p, b)) && run[i + 1] == After(run[i], LogWrite(p, b))
    requires forall k :: i < k < j ==> !Cuts(run, k)
    ensures b in run[j].lh
  {
    if j > i + 1 {
      StaysLogged(run, i, j - 1, p, b);
      assert NextAt(run, j - 1) && !Cuts(run, j - 1);
      var t :| Enabled(run[j - 1], t) && run[j] == After(run[j - 1], t);
    }
  }

  lemma Extend(run: seq<State>, t: Step)
    requires Run(run) && Enabled(run[|run| - 1], t)
    ensures Run(run + [After(run[|run| - 1], t)])
  {
    var r := run + [After(run[|run| - 1], t)];
    forall i | 0 <= i < |r| - 1 ensures NextAt(r, i) {
      if i < |run| - 1 {
        assert NextAt(run, i);
        var u :| Enabled(run[i], u) && run[i + 1] == After(run[i], u);
        assert r[i] == run[i] && r[i + 1] == run[i + 1];
      } else {
        assert Enabled(r[i], t) && r[i + 1] == After(r[i], t);
      }
    }
  }

  /** That panic can be reached: three operations append ten blocks each, and then one of them writes one
      of its blocks again. */
  lemma FullLogPanics() returns (run: seq<State>)
    ensures Run(run) && MayWrite(run[|run| - 1], 0, 0) && Panics(run[|run| - 1])
  {
    run := [State([], 0, false, [Idle, Idle, Idle])];
    var q := 0;
    while q < 3
      invariant q <= 3 && Run(run)
      invariant run[|run| - 1] == State([], q, false, seq(3, i => if i < q then InOp(0) else Idle))
    {
      Extend(run, Call(q));
      run := run + [After(run[|run| - 1], Call(q))];
      Extend(run, Begin(q));
      run := run + [After(run[|run| - 1], Begin(q))];
      q := q + 1;
    }
    var n := 0;
    while n < LOGBLOCKS
      invariant n <= LOGBLOCKS && Run(run) && run[|run| - 1] == Filled(n)
    {
      var t := LogWrite(n / MAXOPBLOCKS, n);
      assert |seq(n, i => i)| == n;
      Extend(run, t);
      run := run + [After(run[|run| - 1], t)];
      n := n + 1;
    }
    assert Filled(n).lh[0] == 0;
  }

  /** Three operations, of which the first have appended their ten blocks. */
  function Filled(n: nat): State {
    State(seq(n, i => i), 3, false, [InOp(Share(n, 0)), InOp(Share(n, 1)), InOp(Share(n, 2))])
  }

  function Share(n: nat, q: nat): nat {
    if n <= q * MAXOPBLOCKS then 0 else if n - q * MAXOPBLOCKS >= MAXOPBLOCKS then MAXOPBLOCKS else n - q * MAXOPBLOCKS
  }
}
