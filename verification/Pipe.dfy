/** kernel/pipe.c: the circular buffer and its 32-bit counters.  Each method is the work that
    pipewrite or piperead does between taking pi->lock and giving it up, in sleep() or at the end;
    any number of readers and writers interleave by calling them in any order.  The ghost histories
    `stored` and `delivered` are every byte ever put into and taken out of the pipe. */
module Pipe {
  import opened WaitQueue

  const PIPESIZE: nat := 512
  const WRAP: nat := 0x1_0000_0000  // uint arithmetic is modulo 2^32
  type byte = x: int | 0 <= x < 256

  /** Slot of the k-th byte: reducing the counter modulo 2^32 first changes nothing. */
  lemma SlotOfCounter(k: nat)
    ensures (k % WRAP) % PIPESIZE == k % PIPESIZE
  {
    assert k == (k / WRAP) * WRAP + k % WRAP;
  }

  /** Two live bytes never share a slot. */
  lemma SlotsApart(a: nat, b: nat)
    requires a < b < a + PIPESIZE
    ensures a % PIPESIZE != b % PIPESIZE
  {
  }

  /** The tests `nread == nwrite` and `nwrite == nread + PIPESIZE` on wrapped counters mean empty and full. */
  lemma CounterTests(r: nat, w: nat)
    requires r <= w <= r + PIPESIZE
    ensures r % WRAP == w % WRAP <==> r == w
    ensures w % WRAP == (r % WRAP + PIPESIZE) % WRAP <==> w == r + PIPESIZE
  {
  }

  /** Both channels of a pipe are in one bucket, the same for every pipe: the structure starts a page,
      and nread and nwrite stand 536 and 540 bytes into it, behind the lock and the buffer. */
  lemma PipeChannelsShareBucket(page: nat)
    requires page % 4096 == 0
    ensures Hash(page + 24 + PIPESIZE) == Hash(page + 24 + PIPESIZE + 4) == 3
  {
    var q := page / 4096;
    assert page == 4096 * q;
    assert (page + 536) / 8 == 512 * q + 67 && (page + 540) / 8 == 512 * q + 67;
  }

  /** Slot k of the ring holds byte k of the history, for every byte still in the pipe. */
  ghost predicate RingHolds(ring: seq<byte>, history: seq<byte>, from: nat) {
    && |ring| == PIPESIZE
    && forall k :: from <= k < |history| ==> ring[k % PIPESIZE] == history[k]
  }

  /** Storing one more byte in its slot overwrites no byte still in the pipe. */
  lemma RingStore(ring: seq<byte>, history: seq<byte>, from: nat, ch: byte)
    requires RingHolds(ring, history, from) && from <= |history| < from + PIPESIZE
    ensures RingHolds(ring[|history| % PIPESIZE := ch], history + [ch], from)
  {
    forall k | from <= k < |history| + 1
      ensures ring[|history| % PIPESIZE := ch][k % PIPESIZE] == (history + [ch])[k]
    {
      if k < |history| {
        SlotsApart(k, |history|);
      }
    }
  }

  /** Why a call of pipewrite gives up pi->lock. */
  datatype WriteEnd = Full | Refused | Finished

  /** Bytes start to i found the writer alive and were copied in. */
  ghost predicate Copied(start: nat, i: nat, copyin: seq<bool>, killed: seq<bool>)
    requires i <= |copyin| == |killed|
  {
    forall k :: start <= k < i ==> !killed[k] && copyin[k]
  }

  class Pipe {
    const data: array<byte>
    var nread: nat
    var nwrite: nat
    var readopen: bool
    var writeopen: bool
    ghost var stored: seq<byte>
    ghost var delivered: seq<byte>

    /** FIFO: what was delivered is a prefix of what was stored, and the rest is in the ring. */
    ghost predicate Valid()
      reads this, data
    {
      && data.Length == PIPESIZE
      && |delivered| <= |stored| <= |delivered| + PIPESIZE
      && delivered == stored[..|delivered|]
      && nread == |delivered| % WRAP && nwrite == |stored| % WRAP
      && RingHolds(data[..], stored, |delivered|)
    }

    ghost function Contents(): seq<byte>
      requires Valid()
      reads this, data
    {
      stored[|delivered|..]
    }

    /** pipealloc. */
    constructor ()
      ensures Valid() && fresh(data) && stored == [] && delivered == [] && readopen && writeopen
    {
      data := new byte[PIPESIZE](i => 0);
      nread, nwrite, readopen, writeopen := 0, 0, true, true;
      stored, delivered := [], [];
    }

    /** The store `data[nwrite++ % PIPESIZE] = ch` of pipewrite. */
    method Store(ch: byte)
      requires Valid() && |Contents()| < PIPESIZE
      modifies this`nwrite, this`stored, data
      ensures Valid() && stored == old(stored) + [ch]
    {
      SlotOfCounter(|stored|);
      RingStore(data[..], stored, |delivered|, ch);
      data[nwrite % PIPESIZE] := ch;
      nwrite := (nwrite + 1) % WRAP;
      stored := stored + [ch];
    }

    /** The load `data[nread % PIPESIZE]` of piperead. */
    method Peek() returns (ch: byte)
      requires Valid() && Contents() != []
      ensures ch == Contents()[0]
    {
      SlotOfCounter(|delivered|);
      ch := data[nread % PIPESIZE];
    }

    /** The increment `nread++` of piperead. */
    method Drop()
      requires Valid() && Contents() != []
      modifies this`nread, this`delivered
      ensures Valid() && delivered == old(delivered) + [old(Contents())[0]] && Contents() == old(Contents())[1..]
    {
      delivered := delivered + [stored[|delivered|]];
      nread := (nread + 1) % WRAP;
    }

    /** pipewrite, from taking pi->lock with `start` bytes done until it sleeps or leaves.  copyin[k]
        and killed[k] say how the calls made for byte k turn out. */
    method WriteSection(src: seq<byte>, start: nat, copyin: seq<bool>, killed: seq<bool>)
      returns (i: nat, end: WriteEnd)
      requires Valid() && start <= |src| == |copyin| == |killed|
      modifies this, data
      ensures Valid() && delivered == old(delivered) && readopen == old(readopen) && writeopen == old(writeopen)
      ensures start <= i <= |src| && stored == old(stored) + src[start..i]
      ensures Copied(start, i, copyin, killed) && (start < i ==> readopen)
      ensures end == Full <==> i < |src| && readopen && !killed[i] && |Contents()| == PIPESIZE
      ensures end == Refused <==> i < |src| && (!readopen || killed[i])
      ensures end == Finished <==>
                i == |src| || (readopen && !killed[i] && |Contents()| < PIPESIZE && !copyin[i])
    {
      hide RingHolds;
      i := start;
      assert src[start..i] == [];
      while i < |src|
        invariant start <= i <= |src| && Valid()
        invariant delivered == old(delivered) && readopen == old(readopen) && writeopen == old(writeopen)
        invariant stored == old(stored) + src[start..i]
        invariant Copied(start, i, copyin, killed) && (start < i ==> readopen)
      {
        CounterTests(|delivered|, |stored|);
        if !readopen || killed[i] {
          return i, Refused;
        }
        if nwrite == (nread + PIPESIZE) % WRAP {
          return i, Full;
        }
        if !copyin[i] {
          return i, Finished;
        }
        Store(src[i]);
        i := i + 1;
        assert src[start..i] == src[start..i - 1] + [src[i - 1]];
      }
      end := Finished;
    }

    /** The test at the head of piperead. */
    method MustWait() returns (b: bool)
      requires Valid()
      ensures b <==> Contents() == [] && writeopen
    {
      CounterTests(|delivered|, |stored|);
      b := nread == nwrite && writeopen;
    }

    /** piperead, from finding the pipe readable until it releases pi->lock.  copyout[k] says how the
        copy of byte k to the user turns out; a failed one leaves the byte in the pipe. */
    method ReadSection(n: int, copyout: seq<bool>) returns (r: int, out: seq<byte>)
      requires Valid() && n <= |copyout|
      modifies this`nread, this`delivered
      ensures Valid() && stored == old(stored)
      ensures out <= old(Contents()) && delivered == old(delivered) + out && Contents() == old(Contents())[|out|..]
      ensures |out| <= (if n > 0 then n else 0)
      ensures forall k :: 0 <= k < |out| ==> copyout[k]
      ensures |out| < n && Contents() != [] ==> !copyout[|out|]
      ensures r == if out == [] && n > 0 && Contents() != [] then -1 else |out|
    {
      hide RingHolds;
      r, out := 0, [];
      while r < n
        invariant 0 <= r == |out| && (r == 0 || r <= n) && Valid() && stored == old(stored)
        invariant out <= old(Contents()) && delivered == old(delivered) + out && Contents() == old(Contents())[|out|..]
        invariant forall k :: 0 <= k < |out| ==> copyout[k]
        decreases n - r
      {
        CounterTests(|delivered|, |stored|);
        if nread == nwrite {
          break;
        }
        var ch := Peek();
        if !copyout[r] {
          if r == 0 {
            r := -1;
          }
          break;
        }
        Drop();
        out := out + [ch];
        r := r + 1;
      }
    }

    /** pipeclose; its wakeups are in PipeProtocol.dfy. */
    method Close(writable: bool) returns (unused: bool)
      requires Valid()
      modifies this`readopen, this`writeopen
      ensures Valid() && stored == old(stored) && delivered == old(delivered)
      ensures readopen == (old(readopen) && writable) && writeopen == (old(writeopen) && !writable)
      ensures unused <==> !readopen && !writeopen
    {
      if writable {
        writeopen := false;
      } else {
        readopen := false;
      }
      unused := !readopen && !writeopen;
    }
  }
}
