/** kernel/log.c on top of the buffer cache: what each routine writes, and in which disk states it can be
    interrupted.  A result `false` is a panic, which stops the machine as a power failure does; what is
    promised about the writes so far holds then too. */
module Journal {
  import opened Common
  import opened BufferCache
  import opened LogCache
  import opened LogRecovery

  /** The contents a transaction gives to its blocks. */
  ghost function Values(view: Disk, lh: seq<nat>): (v: seq<Block>)
    requires forall k :: 0 <= k < |lh| ==> lh[k] < |view|
    ensures |v| == |lh|
  {
    seq(|lh|, k requires 0 <= k < |lh| => view[lh[k]])
  }

  /** The writes since w0 are those of write_log on d0. */
  ghost predicate LogWrites(start: nat, d0: Disk, v: seq<Block>, w0: seq<Disk>, w: seq<Disk>)
    requires start + LOGBLOCKS < |d0| && |v| <= LOGBLOCKS
  {
    && |w0| <= |w| <= |w0| + |v| && w[..|w0|] == w0
    && forall j :: |w0| <= j < |w| ==> Logged(start, d0, v, j + 1 - |w0|, w[j])
  }

  /** The writes since w0 are those of install_trans on d0. */
  ghost predicate InstallWrites(start: nat, d0: Disk, lh: seq<nat>, w0: seq<Disk>, w: seq<Disk>)
    requires start + LOGBLOCKS < |d0| && HomeList(start, |d0|, lh)
  {
    && |w0| <= |w| <= |w0| + |lh| && w[..|w0|] == w0
    && forall j :: |w0| <= j < |w| ==> Installed(start, d0, lh, j + 1 - |w0|, w[j])
  }

  ghost predicate Installed(start: nat, d0: Disk, lh: seq<nat>, k: nat, d: Disk)
    requires start + LOGBLOCKS < |d0| && HomeList(start, |d0|, lh) && k <= |lh|
  {
    d == Install(start, d0, lh, k)
  }

  /** A crash after any of the writes since w0 recovers to d0 before write number c and to d1 from it on. */
  ghost predicate Atomic(start: nat, d0: Disk, d1: Disk, w0: seq<Disk>, c: nat, w: seq<Disk>) {
    && |w0| <= |w| && w[..|w0|] == w0
    && forall j :: |w0| <= j < |w| ==> RecoversTo(start, w[j], if j < c then d0 else d1)
  }

  ghost predicate RecoversTo(start: nat, d: Disk, target: Disk) {
    DiskOk(start, d) && SameHome(start, Recovered(start, d), target)
  }

  /** d' is d with block b overwritten by x. */
  ghost predicate Wrote(d: Disk, b: nat, x: Block, d': Disk) {
    b < |d| && d' == d[b := x]
  }

  ghost predicate Adds(w: seq<Disk>, d: Disk, w': seq<Disk>) {
    w' == w + [d]
  }

  datatype Pair = NoPair | Pair(first: nat, second: nat)

  class Log {
    const bc: BufCache
    const start: nat
    var lh: seq<nat>
    var outstanding: nat
    var committing: bool
    ghost var dirty: seq<nat>          // the blocks of lh that still have their pin
    ghost var view: Disk
    ghost var held: multiset<nat>      // buffers between bget and brelse
    ghost var room: nat                // blocks that the operations under way may still add to the list

    ghost predicate Base()
      reads this, bc
    {
      && bc.Valid() && start + LOGBLOCKS < |bc.disk| && HomeList(start, |bc.disk|, lh)
      && Coherent(bc.bufs, bc.disk, view, dirty, held)
    }

    /** Between commits: the header on disk is empty and every block of the list is pinned. */
    ghost predicate Valid()
      reads this, bc
    {
      Base() && dirty == lh && DiskOk(start, bc.disk) && HeadOf(bc.disk[start]) == []
    }

    /** What is reserved fits the log. */
    ghost predicate Reserve()
      reads this
    {
      |lh| + room <= LOGBLOCKS && room <= outstanding * MAXOPBLOCKS
    }

    /** initlog, up to the recovery. */
    constructor (bc0: BufCache, start0: nat)
      requires bc0.Valid() && start0 + LOGBLOCKS < |bc0.disk|
      requires forall i :: 0 <= i < NBUF ==> bc0.bufs[i].dev != DEV && bc0.bufs[i].refcnt == 0
      ensures Base() && bc == bc0 && start == start0 && lh == dirty == [] && held == multiset{} && view == bc.disk
              && outstanding == 0
      ensures Reserve() && room == 0 && !committing
    {
      bc, start, lh, dirty, held, view, outstanding := bc0, start0, [], [], multiset{}, bc0.disk, 0;
      committing, room := false, 0;
    }

    /** bget on the log's device: it panics if and only if the block is in no buffer and every buffer is referred to. */
    method Get(b: nat) returns (r: Option<nat>)
      requires Base() && b < |bc.disk|
      modifies this`held, bc`bufs
      ensures Base() && Steady(old(bc.bufs), bc.bufs, old(held))
      ensures r.None? <==> !Hit(old(bc.bufs), DEV, b) && NoFree(old(bc.bufs))
      ensures r.None? ==> held == old(held) && bc.bufs == old(bc.bufs)
      ensures r.Some? ==>
                && held == old(held) + multiset{r.value} && r.value < NBUF && Holds(bc.bufs[r.value], DEV, b)
                && (bc.bufs[r.value].valid ==> bc.bufs[r.value].data == view[b])
    {
      hide Ring, Everybody, Unique, HomeList, LastFree;
      ghost var was := bc.bufs;
      r := bc.Bget(DEV, b);
      if r.None? {
        SteadySelf(was, bc.disk, view, dirty, held);
      } else {
        assert Unique(bc.bufs);
        AfterGet(was, bc.bufs, bc.disk, view, dirty, held, r.value, b);
        SteadyGot(was, bc.bufs, bc.disk, view, dirty, held, r.value, b);
        held := held + multiset{r.value};
      }
    }

    /** The rest of bread, any time later, for a buffer that is not valid. */
    method Fill(i: nat)
      requires Base() && i in held && i < NBUF && !bc.bufs[i].valid
      modifies bc`bufs
      ensures Base() && Steady(old(bc.bufs), bc.bufs, held) && bc.bufs[i].valid
              && Holds(bc.bufs[i], DEV, old(bc.bufs)[i].blockno)
      ensures old(bc.bufs)[i].blockno < |view| && bc.bufs[i].data == view[old(bc.bufs)[i].blockno]
    {
      hide Ring, Everybody, Unique, HomeList;
      AfterFill(bc.bufs, bc.disk, view, dirty, held, i);
      SteadyFill(bc.bufs, bc.disk, view, dirty, held, i);
      bc.Fill(i);
    }

    /** bread on the log's device. */
    method Read(b: nat) returns (r: Option<nat>)
      requires Base() && b < |bc.disk|
      modifies this`held, bc`bufs
      ensures Base()
      ensures r.None? <==> !Hit(old(bc.bufs), DEV, b) && NoFree(old(bc.bufs))
      ensures r.None? ==> held == old(held) && bc.bufs == old(bc.bufs)
      ensures r.Some? ==>
                && held == old(held) + multiset{r.value} && r.value < NBUF
                && Holds(bc.bufs[r.value], DEV, b) && bc.bufs[r.value].valid && bc.bufs[r.value].data == view[b]
      ensures Steady(old(bc.bufs), bc.bufs, old(held))
    {
      hide Ring, Everybody, Unique, HomeList, Coherent, Steady;
      ghost var was, held0 := bc.bufs, held;
      r := Get(b);
      if r.Some? && !bc.bufs[r.value].valid {
        ghost var mid := bc.bufs;
        Fill(r.value);
        SteadyTrans(was, mid, bc.bufs, held0, held);
      }
    }

    /** brelse. */
    method Release(i: nat)
      requires Base() && i in held
      modifies this`held, bc`bufs, bc`next, bc`prev, bc`order
      ensures Base() && held == old(held) - multiset{i} && Keeps(old(bc.bufs), bc.bufs, old(held))
    {
      hide Ring, Everybody, Unique, HomeList, Coherent, ToFront;
      AfterRelease(bc.bufs, bc.disk, view, dirty, held, i);
      HeldFacts(bc.bufs, bc.disk, view, dirty, held, i);
      bc.Brelse(i);
      held := held - multiset{i};
    }

    /** Two breads.  The second is a hit if its block is in the list; otherwise two buffers may be needed. */
    method ReadPair(a: nat, b: nat) returns (r: Pair)
      requires Base() && a < |bc.disk| && b < |bc.disk|
      modifies this`held, bc`bufs
      ensures Base()
      ensures b in dirty ==> (r.NoPair? <==> !Hit(old(bc.bufs), DEV, a) && NoFree(old(bc.bufs)))
      ensures r.NoPair? && dirty == [] ==> |old(held)| + 1 >= NBUF
      ensures r.Pair? ==>
                && held == old(held) + multiset{r.first} + multiset{r.second} && r.first < NBUF && r.second < NBUF
                && Holds(bc.bufs[r.first], DEV, a) && bc.bufs[r.first].data == view[a]
                && Holds(bc.bufs[r.second], DEV, b) && bc.bufs[r.second].data == view[b]
                && Keeps(old(bc.bufs), bc.bufs, old(held))
    {
      hide Ring, Everybody, Unique, Coherent, HomeList, Steady, Keeps, NoFree;
      Sizes(bc.bufs, bc.disk, view, dirty, held);
      ghost var bufs0, held0 := bc.bufs, held;
      var x := Read(a);
      if x.None? {
        if dirty == [] {
          FreeLeft(bc.bufs, bc.disk, view, held);
        }
        return NoPair;
      }
      ghost var bufs1, held1 := bc.bufs, held;
      if b in dirty {
        ListedHit(bc.bufs, bc.disk, view, dirty, held, b);
      }
      var y := Read(b);
      if y.None? {
        if dirty == [] {
          FreeLeft(bc.bufs, bc.disk, view, held);
        }
        return NoPair;
      }
      SteadyAt(bufs1, bc.bufs, held1, x.value);
      SteadyTrans(bufs0, bufs1, bc.bufs, held0, held1);
      SteadyKeeps(bufs0, bc.bufs, bc.disk, view, dirty, held0, held);
      r := Pair(x.value, y.value);
    }

    /** Two brelses. */
    method ReleasePair(x: nat, y: nat, ghost rest: multiset<nat>)
      requires Base() && (held == rest + multiset{x} + multiset{y} || held == rest + multiset{y} + multiset{x})
      modifies this`held, bc`bufs, bc`next, bc`prev, bc`order
      ensures Base() && held == rest && Keeps(old(bc.bufs), bc.bufs, rest)
    {
      hide Ring, Everybody, Unique, Coherent, HomeList, Keeps;
      TakeAndGive(rest, x, y);
      RestLess(rest, x, y);
      ghost var bufs0, held0 := bc.bufs, held;
      Release(y);
      ghost var bufs1, held1 := bc.bufs, held;
      MoreKeeps(bufs0, bufs1, rest, held0);
      Release(x);
      KeepsTrans(bufs0, bufs1, bc.bufs, rest, held1);
    }

    /** memmove into a buffer and bwrite. */
    method WriteThrough(i: nat, b: nat, data: Block)
      requires Base() && i in held && i < NBUF && Holds(bc.bufs[i], DEV, b)
      modifies this`view, bc`bufs, bc`disk, bc`writes
      ensures Base() && |old(view)| == |view| == |bc.disk| == |old(bc.disk)|
      ensures Wrote(old(view), b, data, view) && Wrote(old(bc.disk), b, data, bc.disk)
              && Adds(old(bc.writes), bc.disk, bc.writes)
      ensures bc.bufs == old(bc.bufs)[i := old(bc.bufs)[i].(data := data)]
    {
      hide Ring, Everybody, Unique, HomeList, Coherent;
      HeldFacts(bc.bufs, bc.disk, view, dirty, held, i);
      AfterWrite(bc.bufs, bc.disk, view, dirty, held, i, b, data);
      bc.SetData(i, data);
      bc.Bwrite(i);
      view := view[b := data];
    }

    /** log_write, with the change to the buffer it records: the block joins the list unless it is there. */
    method LogWrite(i: nat, data: Block) returns (ok: bool)
      requires Valid() && i in held && i < NBUF && bc.bufs[i].valid && !InLog(start, bc.bufs[i].blockno)
      modifies this`lh, this`dirty, this`view, this`room, bc`bufs
      ensures ok <==> |old(lh)| < LOGBLOCKS && outstanding >= 1
      ensures !ok ==> lh == old(lh) && view == old(view) && bc.bufs == old(bc.bufs) && room == old(room)
      ensures old(Reserve()) && old(room) > 0 ==> ok && Reserve() && room >= old(room) - 1
      ensures old(room) > 0 ==> |lh| + room == |old(lh)| + old(room)
      ensures ok ==>
                var b := old(bc.bufs)[i].blockno;
                Valid() && b < |old(view)| && view == old(view)[b := data] && lh == if b in old(lh) then old(lh)
                    else old(lh) + [b]
    {
      hide Ring, Everybody, Unique, Coherent;
      if |lh| >= LOGBLOCKS || outstanding < 1 {
        return false;
      }
      HeldFacts(bc.bufs, bc.disk, view, dirty, held, i);
      ghost var was := bc.bufs;
      var b := bc.bufs[i].blockno;
      bc.SetData(i, data);
      var k := 0;
      while k < |lh| && lh[k] != b
        invariant k <= |lh| && b !in lh[..k]
      {
        k := k + 1;
      }
      if k == |lh| {
        AfterPin(was, bc.disk, view, dirty, held, i);
        ghost var p := was[i := was[i].(refcnt := was[i].refcnt + 1)];
        AfterChange(p, bc.disk, view, dirty + [b], held, i, data);
        bc.Bpin(i);
        lh := lh + [b];
        dirty := dirty + [b];
        room := if room > 0 then room - 1 else 0;
        assert bc.bufs == p[i := p[i].(data := data)];
      } else {
        AfterChange(was, bc.disk, view, dirty, held, i, data);
        lh := lh[k := b];
        assert lh == old(lh);
      }
      view := view[b := data];
      ok := true;
    }

    /** One round of write_log. */
    method CopyToLog(tail: nat) returns (ok: bool)
      requires Base() && dirty == lh && tail < |lh|
      modifies this`view, this`held, bc`bufs, bc`disk, bc`writes, bc`next, bc`prev, bc`order
      ensures !ok ==> bc.disk == old(bc.disk) && bc.writes == old(bc.writes) && |view| == |old(view)|
      ensures ok ==>
                && Base() && held == old(held) && |old(view)| == |view| == |bc.disk| == |old(bc.disk)|
                    && lh[tail] < |old(view)|
                && Wrote(old(bc.disk), start + 1 + tail, old(view)[lh[tail]], bc.disk)
                    && Adds(old(bc.writes), bc.disk, bc.writes)
                && Wrote(old(view), start + 1 + tail, old(view)[lh[tail]], view)
      ensures ok ==> Keeps(old(bc.bufs), bc.bufs, held)
      ensures ok <==> Hit(old(bc.bufs), DEV, start + tail + 1) || !NoFree(old(bc.bufs))
    {
      hide Wrote, Adds, Ring, Everybody, Unique, Coherent, HomeList, Distinct, Steady, Keeps, NoFree;
      HomeAt(start, |bc.disk|, lh, tail);
      Sizes(bc.bufs, bc.disk, view, dirty, held);
      ghost var bufs0, held0 := bc.bufs, held;
      var p := ReadPair(start + tail + 1, lh[tail]);
      if p.NoPair? {
        return false;
      }
      ghost var bufs1 := bc.bufs;
      WriteThrough(p.first, start + tail + 1, bc.bufs[p.second].data);
      DataKeeps(bufs1, p.first, bc.bufs, held0);
      ghost var bufs2 := bc.bufs;
      ReleasePair(p.first, p.second, old(held));
      KeepsTrans(bufs0, bufs1, bufs2, held0, held0);
      KeepsTrans(bufs0, bufs2, bc.bufs, held0, held0);
      ok := true;
    }

    /** write_log. */
    method WriteLog() returns (ok: bool)
      requires Base() && dirty == lh
      modifies this`view, this`held, bc`bufs, bc`disk, bc`writes, bc`next, bc`prev, bc`order
      ensures |view| == |old(view)| == |old(bc.disk)| && LogWrites(start, old(bc.disk), Values(old(view), lh),
              old(bc.writes), bc.writes)
      ensures ok ==>
                && Base() && held == old(held) && |bc.writes| == |old(bc.writes)| + |lh|
                && Logged(start, old(bc.disk), Values(old(view), lh), |lh|, bc.disk)
                && Logged(start, old(view), Values(old(view), lh), |lh|, view)
      ensures ok ==> Keeps(old(bc.bufs), bc.bufs, held)
      ensures BusyCount(old(bc.bufs), dirty, old(held)) < NBUF ==> ok
      ensures lh != [] && !Hit(old(bc.bufs), DEV, start + 1) && NoFree(old(bc.bufs)) ==> !ok
    {
      hide Ring, Everybody, Unique, Coherent, Keeps, NoFree, BusyCount;
      Sizes(bc.bufs, bc.disk, view, dirty, held);
      ghost var bufs0 := bc.bufs;
      KeepsSelf(bufs0, held);
      ghost var v := Values(view, lh);
      ghost var d0, w0, view0 := bc.disk, bc.writes, view;
      hide Values;
      LogStart(start, d0, v, w0);
      LogStart(start, view0, v, w0);
      hide Logged, LogWrites, HomeList, Wrote, Adds;
      var tail := 0;
      while tail < |lh|
        invariant tail <= |lh| && Base() && dirty == lh && held == old(held) && |view| == |view0|
        invariant Logged(start, d0, v, tail, bc.disk) && Logged(start, view0, v, tail, view)
        invariant LogWrites(start, d0, v, w0, bc.writes) && |bc.writes| == |w0| + tail
        invariant Keeps(bufs0, bc.bufs, held) && (tail == 0 ==> bc.bufs == bufs0)
        invariant !Hit(bufs0, DEV, start + 1) && NoFree(bufs0) ==> tail == 0
      {
        StillRoom(bufs0, bc.bufs, bc.disk, view, dirty, held, start, |bc.disk|, lh);
        ghost var bufs1 := bc.bufs;
        HomeIn(start, |bc.disk|, lh, tail);
        ValueAt(start, view0, lh, tail, view);
        ghost var w1, d1, view1 := bc.writes, bc.disk, view;
        ok := CopyToLog(tail);
        if !ok {
          return;
        }
        KeepsTrans(bufs0, bufs1, bc.bufs, held, held);
        LoggedGrow(start, d0, v, tail, d1, bc.disk);
        LoggedGrow(start, view0, v, tail, view1, view);
        tail := tail + 1;
        LogWritesGrow(start, d0, v, w0, w1, bc.disk, bc.writes);
      }
      ok := true;
    }

    /** The loop of write_head. */
    static method PackHead(b: Block, lh: seq<nat>) returns (hb: Block)
      requires |lh| <= LOGBLOCKS
      ensures hb == SetHead(b, lh)
    {
      hb := b[0 := |lh|];
      var i := 0;
      while i < |lh|
        invariant 0 <= i <= |lh| && hb[0] == |lh|
        invariant forall k :: 1 <= k <= i ==> hb[k] == lh[k - 1]
        invariant forall k :: i < k < 256 ==> hb[k] == b[k]
      {
        hb := hb[1 + i := lh[i]];
        i := i + 1;
      }
    }

    /** write_head. */
    method WriteHead() returns (ok: bool)
      requires Base() && start !in dirty
      modifies this`view, this`held, bc`bufs, bc`disk, bc`writes, bc`next, bc`prev, bc`order
      ensures !ok ==> bc.disk == old(bc.disk) && bc.writes == old(bc.writes)
      ensures ok ==>
                && Base() && held == old(held) && |view| == |old(view)| == |old(bc.disk)|
                && Wrote(old(bc.disk), start, SetHead(old(bc.disk)[start], lh), bc.disk)
                    && Adds(old(bc.writes), bc.disk, bc.writes)
                && Wrote(old(view), start, SetHead(old(bc.disk)[start], lh), view)
      ensures ok ==> Keeps(old(bc.bufs), bc.bufs, held)
      ensures !NoFree(old(bc.bufs)) ==> ok
    {
      hide Ring, Everybody, Unique, Coherent, SetHead, Keeps, Steady, NoFree;
      ghost var bufs0, held0 := bc.bufs, held;
      Sizes(bc.bufs, bc.disk, view, dirty, held);
      CleanAt(bc.bufs, bc.disk, view, dirty, held, start);
      var buf := Read(start);
      if buf.None? {
        return false;
      }
      var hb := PackHead(bc.bufs[buf.value].data, lh);
      SteadyKeeps(bufs0, bc.bufs, bc.disk, view, dirty, held0, held);
      ghost var bufs1 := bc.bufs;
      WriteThrough(buf.value, start, hb);
      DataKeeps(bufs1, buf.value, bc.bufs, held0);
      ghost var bufs2, held2 := bc.bufs, held;
      Release(buf.value);
      KeepsTrans(bufs0, bufs1, bufs2, held0, held0);
      KeepsTrans(bufs0, bufs2, bc.bufs, held0, held2);
      ok := true;
    }

    /** One round of install_trans. */
    method CopyHome(tail: nat, recovering: bool) returns (ok: bool)
      requires Base() && tail < |lh| && Pins(recovering, lh, tail, dirty)
      modifies this`view, this`held, this`dirty, bc`bufs, bc`disk, bc`writes, bc`next, bc`prev, bc`order
      ensures !ok ==> bc.disk == old(bc.disk) && bc.writes == old(bc.writes)
      ensures ok ==>
                && Base() && held == old(held) && start + 1 + tail < |old(view)| == |view| == |bc.disk| ==
                    |old(bc.disk)|
                && Pins(recovering, lh, tail + 1, dirty)
                && Wrote(old(bc.disk), lh[tail], old(view)[start + 1 + tail], bc.disk)
                    && Adds(old(bc.writes), bc.disk, bc.writes)
                && Wrote(old(view), lh[tail], old(view)[start + 1 + tail], view)
      ensures ok ==> Keeps(old(bc.bufs), bc.bufs, held)
      ensures Roomy(recovering, old(bc.bufs), old(dirty), old(held)) ==> ok
    {
      hide Wrote, Adds, Ring, Everybody, Unique, Coherent, HomeList, Distinct, Steady, Keeps, NoFree, BusyCount;
      HomeIn(start, |bc.disk|, lh, tail);
      PinsIn(start, |bc.disk|, recovering, lh, tail, dirty);
      RoomyFree(recovering, bc.bufs, bc.disk, view, dirty, held, start, lh, tail);
      hide Pins;
      Sizes(bc.bufs, bc.disk, view, dirty, held);
      ghost var bufs0, held0 := bc.bufs, held;
      var p := ReadPair(start + tail + 1, lh[tail]);
      if p.NoPair? {
        return false;
      }
      ghost var bufs1 := bc.bufs;
      WriteHome(p.second, tail, bc.bufs[p.first].data, recovering);
      ghost var bufs2, held2 := bc.bufs, held;
      MoreKeeps(bufs1, bufs2, held0, held2);
      ReleasePair(p.second, p.first, old(held));
      KeepsTrans(bufs0, bufs1, bufs2, held0, held0);
      KeepsTrans(bufs0, bufs2, bc.bufs, held0, held0);
      ok := true;
    }

    /** bunpin of a block that has been installed. */
    method Unpin(i: nat)
      requires Base() && dirty != [] && dirty[0] < |bc.disk| == |view| && dirty[0] !in dirty[1..]
      requires i < NBUF && Holds(bc.bufs[i], DEV, dirty[0]) && bc.disk[dirty[0]] == view[dirty[0]]
      modifies this`dirty, bc`bufs
      ensures Base() && dirty == old(dirty)[1..] && Keeps(old(bc.bufs), bc.bufs, held)
    {
      hide Ring, Everybody, Unique, Coherent, HomeList, Distinct, Steady;
      AfterUnpin(bc.bufs, bc.disk, view, dirty, held, i);
      dirty := dirty[1..];
      bc.Bunpin(i);
    }

    method WriteHome(i: nat, tail: nat, data: Block, recovering: bool)
      requires Base() && tail < |lh| && Pins(recovering, lh, tail, dirty)
      requires i in held && i < NBUF && Holds(bc.bufs[i], DEV, lh[tail])
      modifies this`view, this`dirty, bc`bufs, bc`disk, bc`writes
      ensures Base() && |old(view)| == |view| == |bc.disk| == |old(bc.disk)| && Pins(recovering, lh, tail + 1, dirty)
      ensures Wrote(old(view), lh[tail], data, view) && Wrote(old(bc.disk), lh[tail], data, bc.disk)
              && Adds(old(bc.writes), bc.disk, bc.writes)
      ensures Keeps(old(bc.bufs), bc.bufs, held)
    {
      hide Ring, Everybody, Unique, Coherent, HomeList, Keeps;
      ghost var bufs0 := bc.bufs;
      PinsAt(start, |bc.disk|, recovering, lh, tail, dirty);
      hide Pins;
      WriteThrough(i, lh[tail], data);
      DataKeeps(bufs0, i, bc.bufs, held);
      if !recovering {
        ghost var bufs1 := bc.bufs;
        Unpin(i);
        KeepsTrans(bufs0, bufs1, bc.bufs, held, held);
      }
    }

    /** install_trans has done `tail` rounds since the disk was d0. */
    ghost predicate Installing(recovering: bool, tail: nat, d0: Disk, w0: seq<Disk>, view0: Disk, held0: multiset<nat>,
          roomy: bool)
      reads this, bc
    {
      && tail <= |lh| && Base() && held == held0 && |bc.disk| == |d0|
      && Pins(recovering, lh, tail, dirty) && (roomy ==> Roomy(recovering, bc.bufs, dirty, held))
      && Installed(start, d0, lh, tail, bc.disk) && (!recovering ==> SameDisk(view, view0))
      && InstallWrites(start, d0, lh, w0, bc.writes) && |bc.writes| == |w0| + tail
    }

    method InstallRound(recovering: bool, tail: nat, ghost d0: Disk, ghost w0: seq<Disk>, ghost view0: Disk,
          ghost roomy: bool) returns (ok: bool)
      requires tail < |lh| && Installing(recovering, tail, d0, w0, view0, held, roomy)
               && (!recovering ==> LogShows(start, lh, view0))
      modifies this`view, this`held, this`dirty, bc`bufs, bc`disk, bc`writes, bc`next, bc`prev, bc`order
      ensures ok ==> Installing(recovering, tail + 1, d0, w0, view0, old(held), roomy)
      ensures !ok ==> !roomy && bc.writes == old(bc.writes)
    {
      hide Ring, Everybody, Unique, Coherent, InstallWrites, Installed, Pins, Wrote, Adds, LogShows, HomeList, SameDisk,
           Roomy, Keeps;
      Sizes(bc.bufs, bc.disk, view, dirty, held);
      HomeIn(start, |bc.disk|, lh, tail);
      LogBlockClean(bc.bufs, bc.disk, view, dirty, held, start, recovering, lh, tail);
      ghost var w1, d1, view1, dirty1, bufs1 := bc.writes, bc.disk, view, dirty, bc.bufs;
      ok := CopyHome(tail, recovering);
      if ok {
        InstallGrow(start, d0, lh, tail, d1, bc.disk);
        PinsFewer(recovering, lh, tail, bufs1, d1, view1, dirty1, bc.bufs, dirty, held);
        if !recovering {
          LogShowsAt(start, lh, view0, tail);
          WroteSame(view0, view1, lh[tail], start + 1 + tail, view);
        }
        InstallWritesGrow(start, d0, lh, w0, w1, bc.disk, bc.writes);
      }
    }

    /** install_trans. */
    method InstallTrans(recovering: bool) returns (ok: bool)
      requires Base() && dirty == (if recovering then [] else lh)
      requires |view| == |bc.disk| && (!recovering ==> LogShows(start, lh, view))
      modifies this`view, this`held, this`dirty, bc`bufs, bc`disk, bc`writes, bc`next, bc`prev, bc`order
      ensures InstallWrites(start, old(bc.disk), lh, old(bc.writes), bc.writes)
      ensures ok ==>
                && Base() && dirty == [] && held == old(held) && |bc.writes| == |old(bc.writes)| + |lh|
                && |bc.disk| == |old(bc.disk)| && Installed(start, old(bc.disk), lh, |lh|, bc.disk)
                    && (!recovering ==> view == old(view))
      ensures Roomy(recovering, old(bc.bufs), old(dirty), old(held)) ==> ok && Roomy(recovering, bc.bufs, dirty, held)
    {
      hide Ring, Everybody, Unique, Coherent;
      ghost var d0, w0, view0, roomy := bc.disk, bc.writes, view, Roomy(recovering, bc.bufs, dirty, held);
      InstallStart(start, d0, lh, w0);
      PinsEnds(recovering, lh, dirty);
      SameDiskIs(view, view0);
      hide InstallWrites, Installed, Pins, LogShows, HomeList, SameDisk, Roomy;
      var tail := 0;
      while tail < |lh|
        invariant Installing(recovering, tail, d0, w0, view0, old(held), roomy)
      {
        ok := InstallRound(recovering, tail, d0, w0, view0, roomy);
        if !ok {
          return;
        }
        tail := tail + 1;
      }
      PinsEnds(recovering, lh, dirty);
      SameDiskIs(view, view0);
      ok := true;
    }

    /** The first half of commit: up to the header write, the transaction has not happened. */
    method WriteLogAndHead() returns (ok: bool)
      requires Valid() && lh != []
      modifies this`view, this`held, bc`bufs, bc`disk, bc`writes, bc`next, bc`prev, bc`order
      ensures Atomic(start, old(bc.disk), old(view), old(bc.writes), |old(bc.writes)| + |lh|, bc.writes)
      ensures ok ==>
                && Base() && held == old(held) && |bc.writes| == |old(bc.writes)| + |lh| + 1
                && Promises(start, lh, bc.disk, old(view)) && LogShows(start, lh, view)
                    && SameHome(start, view, old(view))
      ensures ok ==> Keeps(old(bc.bufs), bc.bufs, held)
      ensures BusyCount(old(bc.bufs), lh, old(held)) < NBUF ==> ok
      ensures !Hit(old(bc.bufs), DEV, start + 1) && NoFree(old(bc.bufs)) ==> !ok
    {
      hide Ring, Everybody, Unique, Values, Keeps, NoFree, BusyCount, Coherent, Logged, LogWrites, SetHead, HeadOf,
           LogShows, SameExcept, Atomic, SameHome, Wrote, Adds, HomeList, Applied, Promises, DiskOk;
      ghost var d0, w0, view0, bufs0 := bc.disk, bc.writes, view, bc.bufs;
      Sizes(bc.bufs, bc.disk, view, dirty, held);
      CleanHome(bc.bufs, d0, view0, dirty, held);
      HomeNotHead(start, |d0|, lh);
      ghost var v := Values(view, lh);
      AppliedView(start, d0, view0, lh, v);
      ok := WriteLog();
      AtomicLog(start, d0, view0, lh, v, w0, bc.writes);
      if ok {
        ghost var d1, w1, view1, bufs1 := bc.disk, bc.writes, view, bc.bufs;
        StillRoom(bufs0, bufs1, d1, view1, dirty, held, start, |d1|, lh);
        ok := WriteHead();
        if ok {
          KeepsTrans(bufs0, bufs1, bc.bufs, held, held);
          AtomicHead(start, d0, view0, lh, v, d1, bc.disk, w0, w1, bc.writes);
          LoggedView(start, view0, lh, v, view1, view, SetHead(d1[start], lh));
        }
      }
    }

    /** The second half: the transaction has happened, and is installed. */
    method InstallAndClear(ghost d0: Disk, ghost target: Disk, ghost w0: seq<Disk>, ghost c: nat) returns (ok: bool)
      requires Base() && dirty == lh && Promises(start, lh, bc.disk, target) && LogShows(start, lh, view)
      requires Atomic(start, d0, target, w0, c, bc.writes) && c <= |bc.writes|
      modifies this`view, this`held, this`dirty, this`lh, bc`bufs, bc`disk, bc`writes, bc`next, bc`prev, bc`order
      ensures Atomic(start, d0, target, w0, c, bc.writes)
      ensures ok ==>
                && Valid() && lh == [] && held == old(held) && |bc.writes| == |old(bc.writes)| + |old(lh)| + 1
                && SameHome(start, view, old(view)) && SameHome(start, bc.disk, target)
      ensures BusyCount(old(bc.bufs), old(lh), old(held)) < NBUF ==> ok
    {
      ghost var h, w2, view2, l := bc.disk, bc.writes, view, lh;
      hide Ring, Everybody, Unique, Keeps, NoFree, BusyCount;
      HomeNotHead(start, |h|, lh);
      Sizes(bc.bufs, bc.disk, view, dirty, held);
      hide Coherent, InstallWrites, Installed, DiskOk, SetHead, HeadOf, LogShows, Atomic, SameHome, Wrote, Adds,
           HomeList, Promises;
      ok := InstallTrans(false);
      AtomicInstall(start, d0, target, l, h, w0, c, w2, bc.writes);
      if ok {
        ghost var w3, d3 := bc.writes, bc.disk;
        lh := [];
        RoomyEnd(bc.bufs, bc.disk, view, held);
        ok := WriteHead();
        if ok {
          AtomicDone(start, d0, target, l, h, d3, bc.disk, w0, c, w3, bc.writes);
          HeadHome(start, view2, view2, view, SetHead(d3[start], []));
        }
      }
    }

    /** commit: whatever write it is cut short after, recovery finds either none of the transaction or all
        of it; the header write is the point where that changes.  If nobody is using a block of the log, it runs to
        the end if and only if the list is empty, or the blocks of the list and the other buffers in use leave a
        buffer over.  No operation is active, and none begins before it is over. */
    method Commit() returns (ok: bool)
      requires Valid()
      requires committing && outstanding == 0
      modifies this`view, this`held, this`dirty, this`lh, bc`bufs, bc`disk, bc`writes, bc`next, bc`prev, bc`order
      ensures Atomic(start, old(bc.disk), old(view), old(bc.writes), |old(bc.writes)| + |old(lh)|, bc.writes)
      ensures ok ==>
                && Valid() && lh == [] && held == old(held)
                && SameHome(start, view, old(view)) && SameHome(start, bc.disk, old(view))
                && (old(lh) != [] ==> |bc.writes| == |old(bc.writes)| + 2 * |old(lh)| + 2)
      ensures LeavesBuffer(old(bc.bufs), old(lh), old(held)) ==> ok
      ensures NoLogHeld(start, old(bc.bufs), old(held)) ==> (ok <==> LeavesBuffer(old(bc.bufs), old(lh), old(held)))
    {
      ghost var d0, w0, view0, bufs0 := bc.disk, bc.writes, view, bc.bufs;
      hide Ring, Everybody, Unique, HomeList, Coherent, BusyCount, NoFree, NoLogHeld, Keeps;
      CleanHome(bc.bufs, d0, view0, dirty, held);
      ok := true;
      if |lh| > 0 {
        NoLogHit(start, bufs0, d0, view0, lh, held);
        ok := WriteLogAndHead();
        if ok {
          ghost var view1 := view;
          SameCount(bufs0, bc.bufs, lh, held);
          ok := InstallAndClear(d0, view0, w0, |w0| + |lh|);
          SameHomeTrans(start, view, view1, view0);
        }
      } else {
        NothingToCommit(start, d0, view0, w0);
      }
      hide *;
    }

    /** read_head. */
    method ReadHead()
      requires Base() && dirty == [] && held == multiset{} && DiskOk(start, bc.disk)
      modifies this`lh, this`held, bc`bufs, bc`next, bc`prev, bc`order
      ensures Base() && held == multiset{} && lh == HeadOf(bc.disk[start])
    {
      hide Ring, Everybody, Unique, Coherent, HomeList, NoFree;
      CleanAt(bc.bufs, bc.disk, view, dirty, held, start);
      FreeLeft(bc.bufs, bc.disk, view, held);
      var buf := Read(start);
      var hb := bc.bufs[buf.value].data;
      var l: seq<nat> := [];
      while |l| < hb[0]
        invariant |l| <= hb[0] && l == hb[1..1 + |l|]
      {
        l := l + [hb[1 + |l|]];
      }
      lh := l;
      Release(buf.value);
    }

    /** recover_from_log: however it was cut short before, and wherever it is cut short again, the disk is on
        its way to the same recovered disk. */
    method RecoverFromLog()
      requires Base() && lh == dirty == [] && held == multiset{} && DiskOk(start, bc.disk)
      modifies this`view, this`held, this`dirty, this`lh, bc`bufs, bc`disk, bc`writes, bc`next, bc`prev, bc`order
      ensures Valid() && lh == [] && held == multiset{} && bc.disk == Recovered(start, old(bc.disk))
      ensures RecoveryWrites(start, old(bc.disk), old(bc.writes), bc.writes)
    {
      ghost var d0, w0 := bc.disk, bc.writes;
      hide Ring, Everybody, Unique, Coherent, HomeList, InstallWrites, Installed, Wrote, Adds, SetHead, HeadOf,
           Recovered, RecoveryWrites, DiskOk, NoFree;
      HeadOfRecovered(start, d0);
      ReadHead();
      Sizes(bc.bufs, bc.disk, view, dirty, held);
      var ok := InstallTrans(true);
      assert ok;
      ghost var d1, w1, l := bc.disk, bc.writes, lh;
      lh := [];
      FreeLeft(bc.bufs, bc.disk, view, held);
      ok := WriteHead();
      assert ok;
      RecoveryDone(start, d0, l, d1, bc.disk, w0, w1, bc.writes);
    }

    /** begin_op, one try.  Whoever is admitted may add MAXOPBLOCKS blocks to the list: as long as there is room,
        LogWrite does not panic, whatever the operations already under way do with theirs. */
    method BeginOp() returns (admitted: bool)
      requires Reserve()
      modifies this`outstanding, this`room
      ensures Reserve() && room == old(room) + if admitted then MAXOPBLOCKS else 0
      ensures admitted <==> !committing && |lh| + (old(outstanding) + 1) * MAXOPBLOCKS <= LOGBLOCKS
      ensures outstanding == old(outstanding) + if admitted then 1 else 0
    {
      if committing {
        return false;
      }
      if |lh| + (outstanding + 1) * MAXOPBLOCKS > LOGBLOCKS {
        return false;
      }
      outstanding := outstanding + 1;
      room := room + MAXOPBLOCKS;
      admitted := true;
    }

    /** end_op: the last operation out commits what all of them have written.  It panics if a commit is under way. */
    method EndOp() returns (ok: bool)
      requires Valid() && outstanding > 0
      modifies this, bc
      ensures outstanding == old(outstanding) - 1 && committing == old(committing)
      ensures room == if old(room) > outstanding * MAXOPBLOCKS then outstanding * MAXOPBLOCKS else old(room)
      ensures Atomic(start, old(bc.disk), old(view), old(bc.writes), |old(bc.writes)| + |old(lh)|, bc.writes)
      ensures committing || outstanding > 0 ==>
                && bc.disk == old(bc.disk) && bc.writes == old(bc.writes) && bc.bufs == old(bc.bufs)
                && lh == old(lh) && view == old(view)
      ensures committing ==> !ok
      ensures ok && outstanding > 0 ==> Valid()
      ensures ok && outstanding == 0 ==>
                Valid() && lh == [] && SameHome(start, view, old(view)) && SameHome(start, bc.disk, old(view))
      ensures ok ==> held == old(held) && (old(Reserve()) ==> Reserve())
      ensures !committing && (outstanding > 0 || LeavesBuffer(old(bc.bufs), old(lh), old(held))) ==> ok
      ensures !committing && NoLogHeld(start, old(bc.bufs), old(held)) ==>
                (ok <==> outstanding > 0 || LeavesBuffer(old(bc.bufs), old(lh), old(held)))
    {
      hide Ring, Everybody, Unique, HomeList, Coherent, LeavesBuffer, NoLogHeld;
      outstanding := outstanding - 1;
      room := if room > outstanding * MAXOPBLOCKS then outstanding * MAXOPBLOCKS else room;
      if committing {
        return false;
      }
      ok := true;
      if outstanding == 0 {
        committing := true;
        ok := Commit();
        committing := false;
      }
    }
  }

  /** The buffers in use keep their block and its contents. */
  ghost predicate Steady(bufs: seq<Buf>, bufs': seq<Buf>, held: multiset<nat>) {
    forall i :: i in held ==>
      && i < |bufs| == |bufs'| && Holds(bufs'[i], bufs[i].dev, bufs[i].blockno)
      && (bufs[i].valid ==> bufs'[i].valid && bufs'[i].data == bufs[i].data)
  }

  lemma SteadyTrans(a: seq<Buf>, b: seq<Buf>, c: seq<Buf>, held: multiset<nat>, more: multiset<nat>)
    requires Steady(a, b, held) && Steady(b, c, more) && held <= more
    ensures Steady(a, c, held)
  {
  }

  lemma SteadyGot(bufs: seq<Buf>, bufs': seq<Buf>, disk: Disk, view: Disk, dirty: seq<nat>, held: multiset<nat>, i: nat,
        b: nat)
    requires Coherent(bufs, disk, view, dirty, held) && Got(bufs, bufs', i, DEV, b)
    ensures Steady(bufs, bufs', held)
  {
    assert i in held ==> Counted(bufs[i], i, dirty, held);
  }

  lemma SteadyFill(bufs: seq<Buf>, disk: Disk, view: Disk, dirty: seq<nat>, held: multiset<nat>, i: nat)
    requires Coherent(bufs, disk, view, dirty, held) && i < |bufs| && !bufs[i].valid && bufs[i].blockno < |disk|
    ensures Steady(bufs, bufs[i := bufs[i].(data := disk[bufs[i].blockno], valid := true)], held)
  {
  }

  lemma SteadySelf(bufs: seq<Buf>, disk: Disk, view: Disk, dirty: seq<nat>, held: multiset<nat>)
    requires Coherent(bufs, disk, view, dirty, held)
    ensures Steady(bufs, bufs, held)
  {
  }

  lemma HeldFacts(bufs: seq<Buf>, disk: Disk, view: Disk, dirty: seq<nat>, held: multiset<nat>, i: nat)
    requires Coherent(bufs, disk, view, dirty, held) && i in held
    ensures |view| == |disk| && |bufs| == NBUF && i < NBUF && bufs[i].dev == DEV && bufs[i].blockno < |view|
  {
    assert Shows(bufs[i], view);
  }

  lemma Sizes(bufs: seq<Buf>, disk: Disk, view: Disk, dirty: seq<nat>, held: multiset<nat>)
    requires Coherent(bufs, disk, view, dirty, held)
    ensures |view| == |disk| && |bufs| == NBUF
  {
  }

  lemma CleanAt(bufs: seq<Buf>, disk: Disk, view: Disk, dirty: seq<nat>, held: multiset<nat>, b: nat)
    requires Coherent(bufs, disk, view, dirty, held) && b < |disk| && b !in dirty
    ensures b < |view| && disk[b] == view[b]
  {
  }

  lemma CleanHome(bufs: seq<Buf>, disk: Disk, view: Disk, dirty: seq<nat>, held: multiset<nat>)
    requires Coherent(bufs, disk, view, dirty, held)
    ensures SameExcept(disk, view, dirty)
  {
  }

  ghost predicate SameExcept(d: Disk, d': Disk, lh: seq<nat>) {
    |d| == |d'| && forall b :: 0 <= b < |d| && b !in lh ==> d[b] == d'[b]
  }

  /** The log blocks show what the listed blocks show. */
  ghost predicate LogShows(start: nat, lh: seq<nat>, view: Disk) {
    forall k :: 0 <= k < |lh| ==> lh[k] < |view| && start + 1 + k < |view| && view[lh[k]] == view[start + 1 + k]
  }

  lemma LogShowsAt(start: nat, lh: seq<nat>, view: Disk, k: nat)
    requires LogShows(start, lh, view) && k < |lh|
    ensures lh[k] < |view| && start + 1 + k < |view| && view[lh[k]] == view[start + 1 + k]
  {
  }

  lemma LogWritesGrow(start: nat, d0: Disk, v: seq<Block>, w0: seq<Disk>, w: seq<Disk>, d: Disk, w': seq<Disk>)
    requires start + LOGBLOCKS < |d0| && |v| <= LOGBLOCKS && LogWrites(start, d0, v, w0, w) && |w| < |w0| + |v|
    requires Logged(start, d0, v, |w| + 1 - |w0|, d) && Adds(w, d, w')
    ensures LogWrites(start, d0, v, w0, w') && |w'| == |w| + 1
  {
    hide Logged;
  }

  lemma HomeNotHead(start: nat, size: nat, lh: seq<nat>)
    requires HomeList(start, size, lh)
    ensures start !in lh && |lh| <= LOGBLOCKS && (forall k :: 0 <= k < |lh| ==> lh[k] < size)
            && HomeList(start, size, [])
  {
  }

  lemma HomeIn(start: nat, size: nat, lh: seq<nat>, k: nat)
    requires HomeList(start, size, lh) && k < |lh|
    ensures |lh| <= LOGBLOCKS && lh[k] < size && !InLog(start, lh[k])
  {
  }

  lemma HomeAt(start: nat, size: nat, lh: seq<nat>, k: nat)
    requires HomeList(start, size, lh) && k < |lh|
    ensures |lh| <= LOGBLOCKS && lh[k] < size && !InLog(start, lh[k]) && lh[k] !in lh[k + 1..]
    ensures Distinct(lh) && start + 1 + k !in lh && start + 1 + k !in lh[k..]
  {
  }

  /** The blocks that still have their pin when install_trans has done k of them. */
  ghost predicate Pins(recovering: bool, lh: seq<nat>, k: nat, dirty: seq<nat>) {
    k <= |lh| && dirty == if recovering then [] else lh[k..]
  }

  /** There are buffers enough for install_trans: recovery has no pinned buffers to hit. */
  ghost predicate Roomy(recovering: bool, bufs: seq<Buf>, dirty: seq<nat>, held: multiset<nat>) {
    if recovering then |held| + 1 < NBUF else BusyCount(bufs, dirty, held) < NBUF
  }

  lemma RoomyFree(recovering: bool, bufs: seq<Buf>, disk: Disk, view: Disk, dirty: seq<nat>, held: multiset<nat>,
        start: nat,
        lh: seq<nat>, k: nat)
    requires Coherent(bufs, disk, view, dirty, held) && HomeList(start, |disk|, lh) && Pins(recovering, lh, k, dirty)
             && k < |lh|
    ensures recovering ==> dirty == []
    ensures !recovering ==> lh[k] in dirty
    ensures !recovering && Roomy(recovering, bufs, dirty, held) ==> !NoFree(bufs)
  {
    hide Coherent, BusyCount, NoFree;
    if !recovering {
      assert Distinct(dirty);
      BusyExactly(bufs, disk, view, dirty, held);
    }
  }

  lemma RoomyEnd(bufs: seq<Buf>, disk: Disk, view: Disk, held: multiset<nat>)
    requires Coherent(bufs, disk, view, [], held)
    ensures Roomy(false, bufs, [], held) ==> !NoFree(bufs)
  {
    hide Coherent, NoFree, BusyCount;
    BusyExactly(bufs, disk, view, [], held);
  }

  /** With nothing pinned, a few buffers in use leave one over. */
  lemma FreeLeft(bufs: seq<Buf>, disk: Disk, view: Disk, held: multiset<nat>)
    requires Coherent(bufs, disk, view, [], held)
    ensures |held| < NBUF ==> !NoFree(bufs)
  {
    hide Coherent, NoFree;
    BusyExactly(bufs, disk, view, [], held);
    CountAtMost(bufs, [], held);
  }

  /** The list still leaves a buffer over. */
  lemma StillRoom(bufs0: seq<Buf>, bufs: seq<Buf>, disk: Disk, view: Disk, dirty: seq<nat>, held: multiset<nat>,
        start: nat,
        size: nat, lh: seq<nat>)
    requires Coherent(bufs, disk, view, dirty, held) && HomeList(start, size, lh) && dirty == lh
             && Keeps(bufs0, bufs, held)
    ensures BusyCount(bufs0, dirty, held) < NBUF ==> !NoFree(bufs)
  {
    hide Coherent, NoFree, BusyCount, Keeps;
    SameCount(bufs0, bufs, dirty, held);
    BusyExactly(bufs, disk, view, dirty, held);
  }

  lemma ListedHit(bufs: seq<Buf>, disk: Disk, view: Disk, dirty: seq<nat>, held: multiset<nat>, b: nat)
    requires Coherent(bufs, disk, view, dirty, held) && b in dirty
    ensures Hit(bufs, DEV, b)
  {
    var k :| 0 <= k < |dirty| && dirty[k] == b;
    assert Cached(bufs, dirty[k]);
  }

  /** There is nothing to commit, or the blocks of the list and the other buffers in use leave a buffer over. */
  ghost predicate LeavesBuffer(bufs: seq<Buf>, lh: seq<nat>, held: multiset<nat>) {
    lh == [] || BusyCount(bufs, lh, held) < NBUF
  }

  /** Nobody is using a block of the log. */
  ghost predicate NoLogHeld(start: nat, bufs: seq<Buf>, held: multiset<nat>) {
    forall i :: i in held && i < |bufs| ==> !InLog(start, bufs[i].blockno)
  }

  lemma NoLogHit(start: nat, bufs: seq<Buf>, disk: Disk, view: Disk, lh: seq<nat>, held: multiset<nat>)
    requires Coherent(bufs, disk, view, lh, held) && HomeList(start, |disk|, lh)
    ensures NoLogHeld(start, bufs, held) && BusyCount(bufs, lh, held) >= NBUF ==>
              !Hit(bufs, DEV, start + 1) && NoFree(bufs)
  {
    hide BusyCount;
    if NoLogHeld(start, bufs, held) {
      assert InLog(start, start + 1);
      BusyExactly(bufs, disk, view, lh, held);
      NoBufferLeftIff(bufs, disk, view, lh, held, start + 1);
    }
  }

  lemma KeepsSelf(bufs: seq<Buf>, held: multiset<nat>)
    ensures Keeps(bufs, bufs, held)
  {
  }

  lemma MoreKeeps(a: seq<Buf>, b: seq<Buf>, held: multiset<nat>, more: multiset<nat>)
    requires Keeps(a, b, more) && held <= more
    ensures Keeps(a, b, held)
  {
  }

  lemma DataKeeps(bufs: seq<Buf>, i: nat, bufs': seq<Buf>, held: multiset<nat>)
    requires i < |bufs| == |bufs'| && bufs' == bufs[i := bufs[i].(data := bufs'[i].data)]
    ensures Keeps(bufs, bufs', held)
  {
  }

  lemma SteadyKeeps(bufs: seq<Buf>, bufs': seq<Buf>, disk: Disk, view: Disk, dirty: seq<nat>, held: multiset<nat>,
        more: multiset<nat>)
    requires Steady(bufs, bufs', held) && |bufs| == NBUF && Coherent(bufs', disk, view, dirty, more)
    ensures Keeps(bufs, bufs', held)
  {
  }

  lemma PinsEnds(recovering: bool, lh: seq<nat>, dirty: seq<nat>)
    ensures Pins(recovering, lh, 0, dirty) <==> dirty == if recovering then [] else lh
    ensures Pins(recovering, lh, |lh|, dirty) <==> dirty == []
  {
  }

  lemma PinsIn(start: nat, size: nat, recovering: bool, lh: seq<nat>, k: nat, dirty: seq<nat>)
    requires HomeList(start, size, lh) && k < |lh| && Pins(recovering, lh, k, dirty)
    ensures start + 1 + k !in dirty && (!recovering ==> lh[k] in dirty)
  {
  }

  lemma LogBlockClean(bufs: seq<Buf>, disk: Disk, view: Disk, dirty: seq<nat>, held: multiset<nat>, start: nat,
        recovering: bool, lh: seq<nat>, k: nat)
    requires Coherent(bufs, disk, view, dirty, held) && start + LOGBLOCKS < |disk|
    requires HomeList(start, |disk|, lh) && k < |lh| && Pins(recovering, lh, k, dirty)
    ensures start + 1 + k < |disk| == |view| && disk[start + 1 + k] == view[start + 1 + k]
  {
    PinsIn(start, |disk|, recovering, lh, k, dirty);
  }

  lemma PinsAt(start: nat, size: nat, recovering: bool, lh: seq<nat>, k: nat, dirty: seq<nat>)
    requires HomeList(start, size, lh) && k < |lh| && Pins(recovering, lh, k, dirty)
    ensures recovering ==> Pins(recovering, lh, k + 1, dirty)
    ensures !recovering ==>
              dirty != [] && dirty[0] == lh[k] && lh[k] !in dirty[1..] && Pins(recovering, lh, k + 1, dirty[1..])
  {
  }

  lemma PinsFewer(recovering: bool, lh: seq<nat>, k: nat, bufs: seq<Buf>, disk: Disk, view: Disk, dirty: seq<nat>,
        bufs': seq<Buf>, dirty': seq<nat>, held: multiset<nat>)
    requires k < |lh| && Pins(recovering, lh, k, dirty) && Pins(recovering, lh, k + 1, dirty')
    requires Coherent(bufs, disk, view, dirty, held) && Keeps(bufs, bufs', held)
    ensures Roomy(recovering, bufs, dirty, held) ==> Roomy(recovering, bufs', dirty', held)
  {
    hide Coherent, Keeps, BusyCount;
    if !recovering {
      assert dirty' == dirty[1..];
      FewerBusy(bufs, disk, view, dirty, held);
      SameCount(bufs, bufs', dirty', held);
    }
  }

  ghost predicate SameDisk(d: Disk, d': Disk) {
    d == d'
  }

  lemma SameDiskIs(d: Disk, d': Disk)
    ensures SameDisk(d, d') <==> d == d'
  {
  }

  lemma WroteSame(d0: Disk, d: Disk, b: nat, c: nat, d': Disk)
    requires SameDisk(d, d0) && c < |d| && Wrote(d, b, d[c], d') && d0[b] == d0[c]
    ensures SameDisk(d', d0)
  {
  }

  lemma LogStart(start: nat, d0: Disk, v: seq<Block>, w0: seq<Disk>)
    requires start + LOGBLOCKS < |d0| && |v| <= LOGBLOCKS
    ensures Logged(start, d0, v, 0, d0) && LogWrites(start, d0, v, w0, w0)
  {
  }

  lemma LoggedGrow(start: nat, d0: Disk, v: seq<Block>, k: nat, d: Disk, d': Disk)
    requires start + LOGBLOCKS < |d0| && k < |v| <= LOGBLOCKS && Logged(start, d0, v, k, d)
    requires Wrote(d, start + 1 + k, v[k], d')
    ensures Logged(start, d0, v, k + 1, d')
  {
  }

  lemma ValueAt(start: nat, view0: Disk, lh: seq<nat>, k: nat, view: Disk)
    requires start + LOGBLOCKS < |view0| && HomeList(start, |view0|, lh) && k < |lh|
             && Logged(start, view0, Values(view0, lh), k, view)
    ensures |view| == |view0| && view[lh[k]] == Values(view0, lh)[k]
  {
  }

  lemma InstallStart(start: nat, d0: Disk, lh: seq<nat>, w0: seq<Disk>)
    requires start + LOGBLOCKS < |d0| && HomeList(start, |d0|, lh)
    ensures Installed(start, d0, lh, 0, d0) && InstallWrites(start, d0, lh, w0, w0)
  {
  }

  lemma InstallGrow(start: nat, d0: Disk, lh: seq<nat>, k: nat, d: Disk, d': Disk)
    requires start + LOGBLOCKS < |d0| && HomeList(start, |d0|, lh) && k < |lh| && Installed(start, d0, lh, k, d)
    requires |d| == |d0| && Wrote(d, lh[k], d[start + 1 + k], d')
    ensures Installed(start, d0, lh, k + 1, d')
  {
  }

  lemma InstallWritesGrow(start: nat, d0: Disk, lh: seq<nat>, w0: seq<Disk>, w: seq<Disk>, d: Disk, w': seq<Disk>)
    requires start + LOGBLOCKS < |d0| && HomeList(start, |d0|, lh) && InstallWrites(start, d0, lh, w0, w)
             && |w| < |w0| + |lh|
    requires Installed(start, d0, lh, |w| + 1 - |w0|, d) && Adds(w, d, w')
    ensures InstallWrites(start, d0, lh, w0, w') && |w'| == |w| + 1
  {
    hide Installed;
  }

  lemma SteadyAt(bufs: seq<Buf>, bufs': seq<Buf>, held: multiset<nat>, i: nat)
    requires Steady(bufs, bufs', held) && i in held && i < |bufs| && bufs[i].valid
    ensures i < |bufs| == |bufs'| && bufs'[i].data == bufs[i].data && Holds(bufs'[i], bufs[i].dev, bufs[i].blockno)
  {
  }

  lemma RestLess(rest: multiset<nat>, x: nat, y: nat)
    ensures rest <= rest + multiset{x} + multiset{y} && rest <= rest + multiset{y} + multiset{x}
    ensures rest <= rest + multiset{x}
  {
  }

  lemma TakeAndGive(held: multiset<nat>, a: nat, b: nat)
    ensures var two := held + multiset{a} + multiset{b};
      a in two && b in two && a in two - multiset{b} && b in two - multiset{a}
      && two - multiset{b} - multiset{a} == held && two - multiset{a} - multiset{b} == held
    ensures |held + multiset{a}| == |held| + 1 && held + multiset{b} + multiset{a} == held + multiset{a} + multiset{b}
  {
  }

  // ---------- Putting the writes of a commit together ----------

  /** Applying the transaction to the disk gives the view. */
  lemma AppliedView(start: nat, d0: Disk, view: Disk, lh: seq<nat>, v: seq<Block>)
    requires |view| == |d0| && HomeList(start, |d0|, lh) && v == Values(view, lh)
    requires SameExcept(d0, view, lh)
    ensures SameHome(start, Applied(d0, lh, v), view)
  {
    AppliedAt(d0, lh, v);
    SameHomeBy(start, Applied(d0, lh, v), view, lh);
  }

  lemma AtomicLog(start: nat, d0: Disk, view: Disk, lh: seq<nat>, v: seq<Block>, w0: seq<Disk>, w: seq<Disk>)
    requires DiskOk(start, d0) && HeadOf(d0[start]) == [] && |v| == |lh| <= LOGBLOCKS && LogWrites(start, d0, v, w0, w)
    ensures Atomic(start, d0, view, w0, |w0| + |lh|, w)
  {
    forall j | |w0| <= j < |w| ensures RecoversTo(start, w[j], d0) {
      CrashBeforeHeader(start, d0, v, j + 1 - |w0|, w[j]);
    }
  }

  lemma AtomicStep(start: nat, d0: Disk, view: Disk, w0: seq<Disk>, c: nat, w: seq<Disk>, d: Disk)
    requires Atomic(start, d0, view, w0, c, w) && c <= |w| && RecoversTo(start, d, view)
    ensures Atomic(start, d0, view, w0, c, w + [d])
  {
    hide RecoversTo;
  }

  lemma RecoversAlso(start: nat, d: Disk, t: Disk, t': Disk)
    requires RecoversTo(start, d, t) && SameHome(start, t, t')
    ensures RecoversTo(start, d, t')
  {
    hide DiskOk, Recovered;
  }

  lemma NothingToCommit(start: nat, d0: Disk, view: Disk, w0: seq<Disk>)
    requires SameExcept(d0, view, [])
    ensures Atomic(start, d0, view, w0, |w0|, w0) && SameHome(start, view, view) && SameHome(start, d0, view)
  {
  }

  lemma SameHomeTrans(start: nat, a: Disk, b: Disk, c: Disk)
    ensures SameHome(start, a, b) && SameHome(start, b, c) ==> SameHome(start, a, c)
  {
  }

  /** The header names the blocks of a transaction, and recovery would carry it out. */
  ghost predicate Promises(start: nat, lh: seq<nat>, h: Disk, target: Disk) {
    RecoversTo(start, h, target) && HeadOf(h[start]) == lh
  }

  lemma AtomicHead(start: nat, d0: Disk, view: Disk, lh: seq<nat>, v: seq<Block>, d1: Disk, h: Disk, w0: seq<Disk>,
        w: seq<Disk>, w': seq<Disk>)
    requires start + LOGBLOCKS < |d0| && HomeList(start, |d0|, lh) && |v| == |lh| && Logged(start, d0, v, |v|, d1)
    requires SameHome(start, Applied(d0, lh, v), view) && |d1| == |d0| && Wrote(d1, start, SetHead(d1[start], lh), h)
    requires Atomic(start, d0, view, w0, |w0| + |lh|, w) && |w| == |w0| + |lh| && Adds(w, h, w')
    ensures Promises(start, lh, h, view) && Atomic(start, d0, view, w0, |w0| + |lh|, w') && |w'| == |w| + 1
  {
    CrashAfterHeader(start, d0, lh, v, 0, d1);
    HeadRoundTrip(d1[start], lh);
    assert Install(start, h, lh, 0) == h;
    hide Atomic, Applied, SameHome, SetHead, Logged, HomeList, DiskOk, Recovered;
    RecoversAlso(start, h, Applied(d0, lh, v), view);
    AtomicStep(start, d0, view, w0, |w0| + |lh|, w, h);
  }

  lemma PromiseKept(start: nat, lh: seq<nat>, h: Disk, target: Disk, k: nat, d: Disk)
    requires Promises(start, lh, h, target) && k <= |lh| && Installed(start, h, lh, k, d)
    ensures RecoversTo(start, d, target)
  {
    InstallRestarts(start, h, k);
    hide Recovered, Install, DiskOk;
  }

  lemma AtomicInstall(start: nat, d0: Disk, target: Disk, lh: seq<nat>, h: Disk, w0: seq<Disk>, c: nat, w: seq<Disk>,
        w': seq<Disk>)
    requires start + LOGBLOCKS < |h| && HomeList(start, |h|, lh) && Promises(start, lh, h, target)
    requires Atomic(start, d0, target, w0, c, w) && c <= |w| && InstallWrites(start, h, lh, w, w')
    ensures Atomic(start, d0, target, w0, c, w')
  {
    hide HomeList, RecoversTo, Atomic, InstallWrites, SameHome, Installed, Promises;
    InstallWritesAt(start, h, lh, w, w');
    forall j | |w| <= j < |w'| ensures RecoversTo(start, w'[j], target) {
      PromiseKept(start, lh, h, target, j + 1 - |w|, w'[j]);
    }
    AtomicMore(start, d0, target, w0, c, w, w');
  }

  lemma AtomicDone(start: nat, d0: Disk, target: Disk, lh: seq<nat>, h: Disk, d: Disk, e: Disk, w0: seq<Disk>, c: nat,
        w: seq<Disk>, w': seq<Disk>)
    requires start + LOGBLOCKS < |h| && HomeList(start, |h|, lh) && Promises(start, lh, h, target)
    requires Atomic(start, d0, target, w0, c, w) && c <= |w| && Installed(start, h, lh, |lh|, d)
    requires start < |d| && Wrote(d, start, SetHead(d[start], []), e) && Adds(w, e, w')
    ensures Atomic(start, d0, target, w0, c, w') && |w'| == |w| + 1
    ensures DiskOk(start, e) && HeadOf(e[start]) == [] && SameHome(start, e, target)
  {
    assert e == Recovered(start, h);
    RecoveryIdempotent(start, h);
    HeadRoundTrip(d[start], []);
    hide Recovered, SetHead, Install, HomeList, Atomic;
    AtomicStep(start, d0, target, w0, c, w, e);
  }

  lemma InstallWritesAt(start: nat, d0: Disk, lh: seq<nat>, w0: seq<Disk>, w: seq<Disk>)
    requires start + LOGBLOCKS < |d0| && HomeList(start, |d0|, lh) && InstallWrites(start, d0, lh, w0, w)
    ensures |w0| <= |w| <= |w0| + |lh| && w[..|w0|] == w0 && forall j :: |w0| <= j < |w| ==>
              Installed(start, d0, lh, j + 1 - |w0|, w[j])
  {
  }

  lemma AtomicMore(start: nat, d0: Disk, view: Disk, w0: seq<Disk>, c: nat, w: seq<Disk>, w': seq<Disk>)
    requires Atomic(start, d0, view, w0, c, w) && |w| <= |w'| && w'[..|w|] == w && c <= |w|
    requires forall j :: |w| <= j < |w'| ==> RecoversTo(start, w'[j], view)
    ensures Atomic(start, d0, view, w0, c, w')
  {
    hide RecoversTo;
    assert w'[..|w0|] == w[..|w0|];
    assert forall j :: 0 <= j < |w| ==> w'[j] == w'[..|w|][j];
  }

  /** After write_log and write_head the log blocks show what the listed blocks show. */
  lemma LoggedView(start: nat, view0: Disk, lh: seq<nat>, v: seq<Block>, view1: Disk, view: Disk, x: Block)
    requires start + LOGBLOCKS < |view0| && HomeList(start, |view0|, lh) && v == Values(view0, lh)
             && Logged(start, view0, v, |lh|, view1)
    requires Wrote(view1, start, x, view)
    ensures LogShows(start, lh, view) && SameHome(start, view, view0)
  {
    assert forall k :: 0 <= k < |lh| ==> v[k] == view0[lh[k]];
  }

  lemma HeadHome(start: nat, view0: Disk, view1: Disk, view: Disk, x: Block)
    requires SameHome(start, view1, view0) && Wrote(view1, start, x, view)
    ensures SameHome(start, view, view0)
  {
  }

  // ---------- The writes of a recovery ----------

  ghost predicate RecoveryWrites(start: nat, d0: Disk, w0: seq<Disk>, w: seq<Disk>)
    requires DiskOk(start, d0)
  {
    |w0| <= |w| && w[..|w0|] == w0 && forall j :: |w0| <= j < |w| ==> MidRecovery(start, d0, w[j])
  }

  lemma HeadOfRecovered(start: nat, d: Disk)
    requires DiskOk(start, d)
    ensures start + LOGBLOCKS < |d| && d[start][0] <= LOGBLOCKS && HomeList(start, |d|, HeadOf(d[start]))
            && HomeList(start, |d|, [])
    ensures DiskOk(start, Recovered(start, d)) && HeadOf(Recovered(start, d)[start]) == []
  {
    RecoveryIdempotent(start, d);
    HeadRoundTrip(Install(start, d, HeadOf(d[start]), |HeadOf(d[start])|)[start], []);
  }

  lemma RecoveryDone(start: nat, d0: Disk, lh: seq<nat>, d1: Disk, d2: Disk, w0: seq<Disk>, w1: seq<Disk>,
        w2: seq<Disk>)
    requires DiskOk(start, d0) && lh == HeadOf(d0[start]) && Installed(start, d0, lh, |lh|, d1)
             && InstallWrites(start, d0, lh, w0, w1)
    requires start < |d1| && Wrote(d1, start, SetHead(d1[start], []), d2) && Adds(w1, d2, w2)
    ensures d2 == Recovered(start, d0) && RecoveryWrites(start, d0, w0, w2)
  {
    hide SetHead, HomeList, Install;
    assert d2 == Recovered(start, d0);
    hide DiskOk, HeadOf, Recovered;
    forall j | |w0| <= j < |w2| ensures MidRecovery(start, d0, w2[j]) {
      if j < |w1| {
        assert w2[j] == w1[j] && Installed(start, d0, lh, j + 1 - |w0|, w1[j]);
      }
    }
    assert w2[..|w0|] == w1[..|w0|];
  }

  /** The whole story: a crash after any write of a commit, then any number of recoveries of which all but
      the last crash too, ends with either none or all of the transaction on disk. */
  lemma CommitSurvivesCrashes(start: nat, d0: Disk, d1: Disk, w0: seq<Disk>, c: nat, w: seq<Disk>, j: nat,
        ds: seq<Disk>, i: nat)
    requires Atomic(start, d0, d1, w0, c, w) && |w0| <= j < |w| && CrashChain(start, ds) && ds[0] == w[j] && i < |ds|
    ensures RecoversTo(start, ds[i], if j < c then d0 else d1)
  {
    RepeatedCrashes(start, ds, i);
    assert RecoversTo(start, w[j], if j < c then d0 else d1);
    hide DiskOk, Recovered;
    SameHomeTrans(start, Recovered(start, ds[i]), Recovered(start, ds[0]), if j < c then d0 else d1);
  }
}
