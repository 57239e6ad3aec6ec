/** Runs that end in a commit (kernel/log.c) while other processes hold buffers: three operations list n blocks, readers
    outside any operation hold m others, and the operations end.  The commit succeeds if and only if a buffer is left
    over; with n = 30 and m = 0 the list alone takes them all, and with n = 29 one reader is enough. */
module CommitRun {
  import opened Common
  import opened BufferCache
  import opened LogCache
  import opened LogRecovery
  import opened Journal

  const START: nat := 2
  const LISTED: nat := 40     // the first block that is listed
  const READ: nat := 80       // the first block that is only read
  const SIZE: nat := 120

  function Range(from: nat, n: nat): (s: seq<nat>)
    ensures |s| == n && forall k :: 0 <= k < n ==> s[k] == from + k
  {
    seq(n, k => from + k)
  }

  function ZeroBlock(): (b: Block)
    ensures b[0] == 0
  {
    seq(256, i => 0)
  }

  /** The operations are under way and have listed n blocks; the readers hold m buffers of other blocks. */
  ghost predicate Midway(log: Log, n: nat, m: nat)
    reads log, log.bc
  {
    && log.Valid() && log.start == START && |log.bc.disk| == SIZE && log.lh == Range(LISTED, n) && !log.committing
    && n <= LOGBLOCKS && |log.held| == m && BusyCount(log.bc.bufs, log.lh, log.held) == n + m
    && forall i :: i in log.held ==> i < |log.bc.bufs| && READ <= log.bc.bufs[i].blockno < READ + m
  }

  method ListOne(log: Log, n: nat)
    requires Midway(log, n, 0) && n < LOGBLOCKS && log.outstanding == 3 && log.Reserve() && log.room == LOGBLOCKS - n
    modifies log, log.bc
    ensures Midway(log, n + 1, 0) && log.outstanding == 3 && log.Reserve() && log.room == LOGBLOCKS - (n + 1)
  {
    hide Ring, Everybody, Unique, Coherent, HomeList, DiskOk, HeadOf, Steady, BusyCount, NoFree, Keeps, Range;
    NothingHeld(log.bc.bufs, log.lh, log.held);
    SomeFree(log);
    var buf := log.Read(LISTED + n);
    var ok := log.LogWrite(buf.value, ZeroBlock());
    log.Release(buf.value);
    RangeMore(LISTED, n);
    NothingHeld(log.bc.bufs, log.lh, log.held);
  }

  lemma RangeMore(from: nat, n: nat)
    ensures Range(from, n + 1) == Range(from, n) + [from + n]
  {
  }

  lemma NothingHeld(bufs: seq<Buf>, dirty: seq<nat>, held: multiset<nat>)
    requires |held| == 0
    ensures held == multiset{} && BusyCount(bufs, dirty, held) == |dirty|
  {
    assert forall i :: i !in held;
    assert Others(bufs, dirty, held) == {};
  }

  lemma SomeFree(log: Log)
    requires log.Valid() && BusyCount(log.bc.bufs, log.lh, log.held) < NBUF
    ensures !NoFree(log.bc.bufs)
  {
    hide Coherent, BusyCount, NoFree;
    BusyExactly(log.bc.bufs, log.bc.disk, log.view, log.lh, log.held);
  }

  method HoldOne(log: Log, n: nat, m: nat)
    requires Midway(log, n, m) && n + m < NBUF && log.outstanding == 3
    modifies log, log.bc
    ensures Midway(log, n, m + 1) && log.outstanding == 3
  {
    hide Ring, Everybody, Unique, Coherent, HomeList, DiskOk, HeadOf, BusyCount, NoFree, Keeps;
    SomeFree(log);
    ghost var bufs0, held0 := log.bc.bufs, log.held;
    var buf := log.Read(READ + m);
    Sizes(log.bc.bufs, log.bc.disk, log.view, log.dirty, log.held);
    OneMore(bufs0, log.bc.bufs, log.lh, held0, buf.value);
  }

  lemma OneMore(bufs: seq<Buf>, bufs': seq<Buf>, dirty: seq<nat>, held: multiset<nat>, i: nat)
    requires Steady(bufs, bufs', held) && |bufs| == |bufs'| && i < |bufs| && i !in held && bufs'[i].blockno !in dirty
    ensures BusyCount(bufs', dirty, held + multiset{i}) == BusyCount(bufs, dirty, held) + 1
    ensures |held + multiset{i}| == |held| + 1
  {
    var a, b := Others(bufs, dirty, held), Others(bufs', dirty, held + multiset{i});
    assert b == a + {i};
  }

  /** The last end_op succeeds if and only if the list and the readers leave a buffer over. */
  method CommitAfter(n: nat, m: nat) returns (ok: bool)
    requires 0 < n <= LOGBLOCKS && n + m <= NBUF
    ensures ok <==> n + m < NBUF
  {
    hide Ring, Everybody, Unique, Coherent, HomeList, Recovered, RecoveryWrites, Midway;
    var image: Disk := seq(SIZE, b => ZeroBlock());
    CleanImage(image);
    var bc := new BufCache(image);
    var log := new Log(bc, START);
    log.RecoverFromLog();
    ok := log.BeginOp();
    ok := log.BeginOp();
    ok := log.BeginOp();
    FirstMidway(log);
    var k := 0;
    while k < n
      invariant k <= n && Midway(log, k, 0) && log.outstanding == 3 && log.Reserve() && log.room == LOGBLOCKS - k
    {
      ListOne(log, k);
      k := k + 1;
    }
    k := 0;
    while k < m
      invariant k <= m && Midway(log, n, k) && log.outstanding == 3
    {
      HoldOne(log, n, k);
      k := k + 1;
    }
    ok := Finish(log, n, m);
  }

  method Finish(log: Log, n: nat, m: nat) returns (ok: bool)
    requires Midway(log, n, m) && log.outstanding == 3 && n > 0 && n + m <= NBUF
    modifies log, log.bc
    ensures ok <==> n + m < NBUF
  {
    hide Ring, Everybody, Unique, Coherent, HomeList, DiskOk, HeadOf, BusyCount;
    ok := log.EndOp();
    ok := log.EndOp();
    ok := log.EndOp();
  }

  lemma CleanImage(image: Disk)
    requires |image| == SIZE && forall b :: 0 <= b < SIZE ==> image[b] == ZeroBlock()
    ensures DiskOk(START, image) && |Recovered(START, image)| == SIZE
  {
    assert HeadOf(image[START]) == [];
  }

  lemma FirstMidway(log: Log)
    requires log.Valid() && log.start == START && |log.bc.disk| == SIZE && log.lh == [] && log.held == multiset{}
             && !log.committing
    ensures Midway(log, 0, 0)
  {
    hide Ring, Everybody, Unique, Coherent, HomeList, DiskOk, HeadOf, BusyCount;
    NothingHeld(log.bc.bufs, log.lh, log.held);
    assert log.lh == Range(LISTED, 0);
  }
}
