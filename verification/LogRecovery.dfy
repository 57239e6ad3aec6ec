/** What recovery makes of a disk (kernel/log.c), as functions, and crash atomicity as a property of
    disk states: between any two block writes of a commit or of a recovery, any number of times. */
module LogRecovery {
  import opened BufferCache
  import opened LogCache

  const LOGBLOCKS: nat := 30

  type Disk = seq<Block>

  /** The header block and the LOGBLOCKS blocks behind it. */
  predicate InLog(start: nat, b: nat) {
    start <= b <= start + LOGBLOCKS
  }

  /** Distinct home blocks outside the log. */
  ghost predicate HomeList(start: nat, size: nat, lh: seq<nat>) {
    && |lh| <= LOGBLOCKS
    && (forall i :: 0 <= i < |lh| ==> lh[i] < size && !InLog(start, lh[i]))
    && Distinct(lh)
  }

  /** write_head: the count and the block numbers, over whatever the header block held. */
  function SetHead(b: Block, lh: seq<nat>): Block
    requires |lh| <= LOGBLOCKS
  {
    seq(256, i requires 0 <= i < 256 => if i == 0 then |lh| else if i <= |lh| then lh[i - 1] else b[i])
  }

  /** read_head. */
  function HeadOf(b: Block): (lh: seq<nat>)
    requires b[0] <= LOGBLOCKS
  {
    b[1..1 + b[0]]
  }

  lemma HeadRoundTrip(b: Block, lh: seq<nat>)
    requires |lh| <= LOGBLOCKS
    ensures SetHead(b, lh)[0] <= LOGBLOCKS && HeadOf(SetHead(b, lh)) == lh
  {
  }

  /** A disk whose log header makes sense. */
  ghost predicate DiskOk(start: nat, d: Disk) {
    start + LOGBLOCKS < |d| && d[start][0] <= LOGBLOCKS && HomeList(start, |d|, HeadOf(d[start]))
  }

  /** install_trans after k blocks. */
  function Install(start: nat, d: Disk, lh: seq<nat>, k: nat): (r: Disk)
    requires start + LOGBLOCKS < |d| && HomeList(start, |d|, lh) && k <= |lh|
    ensures |r| == |d|
  {
    if k == 0 then d else
      var r := Install(start, d, lh, k - 1);
      r[lh[k - 1] := r[start + k]]
  }

  /** recover_from_log. */
  function Recovered(start: nat, d: Disk): (r: Disk)
    requires DiskOk(start, d)
    ensures |r| == |d|
  {
    var lh := HeadOf(d[start]);
    var r := Install(start, d, lh, |lh|);
    r[start := SetHead(r[start], [])]
  }

  lemma {:induction false} InstallAt(start: nat, d: Disk, lh: seq<nat>, k: nat)
    requires start + LOGBLOCKS < |d| && HomeList(start, |d|, lh) && k <= |lh|
    ensures forall i :: 0 <= i < k ==> Install(start, d, lh, k)[lh[i]] == d[start + 1 + i]
    ensures forall b :: 0 <= b < |d| && b !in lh[..k] ==> Install(start, d, lh, k)[b] == d[b]
  {
    if k > 0 {
      InstallAt(start, d, lh, k - 1);
      assert lh[..k] == lh[..k - 1] + [lh[k - 1]];
      assert start + k !in lh[..k - 1];
    }
  }

  /** The two disks agree outside the log. */
  ghost predicate SameHome(start: nat, d: Disk, d': Disk) {
    |d| == |d'| && forall b :: 0 <= b < |d| && !InLog(start, b) ==> d[b] == d'[b]
  }

  /** The disk with the home blocks of a transaction written. */
  function Applied(d: Disk, lh: seq<nat>, v: seq<Block>): (r: Disk)
    requires |lh| == |v| && forall i :: 0 <= i < |lh| ==> lh[i] < |d|
    ensures |r| == |d|
  {
    if lh == [] then d else Applied(d, lh[..|lh| - 1], v[..|v| - 1])[lh[|lh| - 1] := v[|v| - 1]]
  }

  lemma {:induction false} AppliedAt(d: Disk, lh: seq<nat>, v: seq<Block>)
    requires |lh| == |v| && (forall i :: 0 <= i < |lh| ==> lh[i] < |d|) && Distinct(lh)
    ensures forall i :: 0 <= i < |lh| ==> Applied(d, lh, v)[lh[i]] == v[i]
    ensures forall b :: 0 <= b < |d| && b !in lh ==> Applied(d, lh, v)[b] == d[b]
  {
    if lh != [] {
      AppliedAt(d, lh[..|lh| - 1], v[..|v| - 1]);
      assert lh == lh[..|lh| - 1] + [lh[|lh| - 1]];
    }
  }

  // ---------- Recovery may itself crash ----------

  /** A disk that a crash during recovery of d can leave: some blocks installed, header intact, or done. */
  ghost predicate MidRecovery(start: nat, d: Disk, d': Disk)
    requires DiskOk(start, d)
  {
    d' == Recovered(start, d) || exists k :: 0 <= k <= |HeadOf(d[start])| && d' == Install(start, d, HeadOf(d[start]),
        k)
  }

  /** Whoever knows the log blocks and the other home blocks knows the recovered home blocks. */
  lemma RecoveredAt(start: nat, d: Disk, lh: seq<nat>)
    requires DiskOk(start, d) && HeadOf(d[start]) == lh
    ensures forall i :: 0 <= i < |lh| ==> Recovered(start, d)[lh[i]] == d[start + 1 + i]
    ensures forall b :: 0 <= b < |d| && !InLog(start, b) && b !in lh ==> Recovered(start, d)[b] == d[b]
  {
    InstallAt(start, d, lh, |lh|);
    assert lh[..|lh|] == lh;
  }

  lemma SameHomeBy(start: nat, d: Disk, d': Disk, lh: seq<nat>)
    requires |d| == |d'|
    requires forall i :: 0 <= i < |lh| ==> lh[i] < |d| && d[lh[i]] == d'[lh[i]]
    requires forall b :: 0 <= b < |d| && !InLog(start, b) && b !in lh ==> d[b] == d'[b]
    ensures SameHome(start, d, d')
  {
    forall b | 0 <= b < |d| && !InLog(start, b) ensures d[b] == d'[b] {
      if b in lh {
        var i :| 0 <= i < |lh| && lh[i] == b;
      }
    }
  }

  /** Recovering what a crashed recovery left gives the same home blocks. */
  lemma RecoveryRestarts(start: nat, d: Disk, d': Disk)
    requires DiskOk(start, d) && MidRecovery(start, d, d')
    ensures DiskOk(start, d') && SameHome(start, Recovered(start, d'), Recovered(start, d))
  {
    if d' == Recovered(start, d) {
      RecoveryIdempotent(start, d);
    } else {
      var k :| 0 <= k <= |HeadOf(d[start])| && d' == Install(start, d, HeadOf(d[start]), k);
      InstallRestarts(start, d, k);
    }
  }

  lemma InstallRestarts(start: nat, d: Disk, k: nat)
    requires DiskOk(start, d) && k <= |HeadOf(d[start])|
    ensures var d' := Install(start, d, HeadOf(d[start]), k);
            DiskOk(start, d') && SameHome(start, Recovered(start, d'), Recovered(start, d))
  {
    var lh := HeadOf(d[start]);
    var d' := Install(start, d, lh, k);
    InstallAt(start, d, lh, k);
    assert d'[start] == d[start];
    RecoveredAt(start, d, lh);
    RecoveredAt(start, d', lh);
    assert forall b :: InLog(start, b) ==> b !in lh[..k];
    hide Recovered, Install;
    SameHomeBy(start, Recovered(start, d'), Recovered(start, d), lh);
  }

  /** Any number of crashes during recovery. */
  ghost predicate CrashChain(start: nat, ds: seq<Disk>) {
    |ds| > 0 && DiskOk(start, ds[0]) && forall i :: 0 <= i < |ds| - 1 ==> CrashAt(start, ds, i)
  }

  ghost predicate CrashAt(start: nat, ds: seq<Disk>, i: nat)
    requires i + 1 < |ds|
  {
    DiskOk(start, ds[i]) && MidRecovery(start, ds[i], ds[i + 1])
  }

  lemma {:induction false} RepeatedCrashes(start: nat, ds: seq<Disk>, i: nat)
    requires CrashChain(start, ds) && i < |ds|
    ensures DiskOk(start, ds[i]) && SameHome(start, Recovered(start, ds[i]), Recovered(start, ds[0]))
  {
    if i > 0 {
      RepeatedCrashes(start, ds, i - 1);
      assert CrashAt(start, ds, i - 1);
      RecoveryRestarts(start, ds[i - 1], ds[i]);
    }
  }

  /** Recovering a recovered disk changes nothing at all. */
  lemma RecoveryIdempotent(start: nat, d: Disk)
    requires DiskOk(start, d)
    ensures DiskOk(start, Recovered(start, d)) && Recovered(start, Recovered(start, d)) == Recovered(start, d)
  {
    var lh := HeadOf(d[start]);
    var r := Recovered(start, d);
    HeadRoundTrip(Install(start, d, lh, |lh|)[start], []);
    assert SetHead(r[start], []) == r[start];
  }

  // ---------- A commit may crash between any two of its writes ----------

  /** The first k log blocks hold the first k blocks of the transaction; nothing else has changed. */
  ghost predicate Logged(start: nat, d: Disk, v: seq<Block>, k: nat, d': Disk)
    requires start + LOGBLOCKS < |d| && k <= |v| <= LOGBLOCKS
  {
    && |d'| == |d|
    && (forall i :: 0 <= i < k ==> d'[start + 1 + i] == v[i])
    && (forall b :: 0 <= b < |d| && !(start < b <= start + k) ==> d'[b] == d[b])
  }

  /** Before the header is written the transaction has not happened. */
  lemma CrashBeforeHeader(start: nat, d: Disk, v: seq<Block>, k: nat, d': Disk)
    requires DiskOk(start, d) && HeadOf(d[start]) == [] && k <= |v| <= LOGBLOCKS && Logged(start, d, v, k, d')
    ensures DiskOk(start, d') && SameHome(start, Recovered(start, d'), d)
  {
    assert d'[start] == d[start];
  }

  /** From the write of the header on, the whole transaction has happened: with the header written and k
      blocks installed, ... */
  lemma CrashAfterHeader(start: nat, d: Disk, lh: seq<nat>, v: seq<Block>, k: nat, d': Disk)
    requires start + LOGBLOCKS < |d| && HomeList(start, |d|, lh) && |lh| == |v| && k <= |lh|
    requires Logged(start, d, v, |v|, d')
    ensures var h := d'[start := SetHead(d'[start], lh)];
      var c := Install(start, h, lh, k);
      DiskOk(start, c) && SameHome(start, Recovered(start, c), Applied(d, lh, v))
  {
    var h := d'[start := SetHead(d'[start], lh)];
    HeadRoundTrip(d'[start], lh);
    InstallRestarts(start, h, k);
    RecoveredAt(start, h, lh);
    AppliedAt(d, lh, v);
    hide Recovered, Install, Applied, SetHead;
    SameHomeBy(start, Recovered(start, h), Applied(d, lh, v), lh);
  }

  /** ... and once all of them are and the header is cleared again. */
  lemma CommitDone(start: nat, d: Disk, lh: seq<nat>, v: seq<Block>, d': Disk)
    requires start + LOGBLOCKS < |d| && HomeList(start, |d|, lh) && |lh| == |v|
    requires Logged(start, d, v, |v|, d')
    ensures var h := d'[start := SetHead(d'[start], lh)];
      var c := Install(start, h, lh, |lh|);
      var e := c[start := SetHead(c[start], [])];
      && DiskOk(start, e) && HeadOf(e[start]) == []
      && SameHome(start, e, Applied(d, lh, v)) && SameHome(start, Recovered(start, e), Applied(d, lh, v))
  {
    var h := d'[start := SetHead(d'[start], lh)];
    HeadRoundTrip(d'[start], lh);
    var c := Install(start, h, lh, |lh|);
    HeadRoundTrip(c[start], []);
    CrashAfterHeader(start, d, lh, v, 0, d');
    RecoveryIdempotent(start, h);
    assert Recovered(start, h) == c[start := SetHead(c[start], [])];
  }
}
