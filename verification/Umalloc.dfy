/** user/umalloc.c: the allocator of Kernighan and Ritchie.  Addresses and sizes count headers; memory is the
    pointer and size fields at every address.  The free list is a ring through `base`, which lies below the
    heap, in order of address.  Every unit obtained from sbrk belongs to exactly one block, free or live. */
module Umalloc {
  import opened Common

  /** Position i of the ring: base, then the free blocks in order. */
  function At(base: nat, fl: seq<nat>, i: nat): nat
    requires i <= |fl|
  {
    if i == 0 then base else fl[i - 1]
  }

  function Succ(fl: seq<nat>, i: nat): nat {
    if i == |fl| then 0 else i + 1
  }

  ghost predicate NextIs(base: nat, ptr: map<nat, nat>, fl: seq<nat>, i: nat)
    requires i <= |fl|
  {
    At(base, fl, i) in ptr && ptr[At(base, fl, i)] == At(base, fl, Succ(fl, i))
  }

  ghost predicate Ring(base: nat, ptr: map<nat, nat>, fl: seq<nat>) {
    forall i :: 0 <= i <= |fl| ==> NextIs(base, ptr, fl, i)
  }

  /** In order of address, with one wrap, above base. */
  ghost predicate Sorted(base: nat, fl: seq<nat>) {
    (forall i :: 0 <= i < |fl| ==> base < fl[i]) && forall i, j :: 0 <= i < j < |fl| ==> fl[i] < fl[j]
  }

  // ---------- Where a block goes in the list ----------

  /** The number of free blocks below b. */
  function Place(fl: seq<nat>, b: nat): nat {
    if fl == [] then 0 else (if fl[0] < b then 1 else 0) + Place(fl[1..], b)
  }

  lemma {:induction false} PlaceSplits(base: nat, fl: seq<nat>, b: nat)
    requires Sorted(base, fl) && b !in fl
    ensures Place(fl, b) <= |fl|
    ensures forall i :: 0 <= i < |fl| ==> (fl[i] < b <==> i < Place(fl, b))
  {
    if fl != [] {
      PlaceSplits(base, fl[1..], b);
      forall i | 0 <= i < |fl| ensures fl[i] < b <==> i < Place(fl, b) {
        if i > 0 {
          assert fl[1..][i - 1] == fl[i];
          assert fl[i - 1] < fl[i];
          if i > 1 {
            assert fl[1..][i - 2] == fl[i - 1];
          }
        } else if |fl| > 1 {
          assert fl[1..][0] == fl[1];
        }
      }
    }
  }

  /** The tests of the search loop in free, at p with successor q. */
  predicate Between(b: nat, p: nat, q: nat) {
    b > p && b < q
  }

  predicate AtWrap(b: nat, p: nat, q: nat) {
    p >= q && (b > p || b < q)
  }

  /** The search stops exactly where the block belongs. */
  lemma StopsAtPlace(base: nat, fl: seq<nat>, b: nat, i: nat)
    requires Sorted(base, fl) && b !in fl && b > base && i <= |fl|
    ensures var p, q := At(base, fl, i), At(base, fl, Succ(fl, i));
            (Between(b, p, q) || AtWrap(b, p, q)) <==> i == Place(fl, b)
  {
    PlaceSplits(base, fl, b);
  }

  // ---------- Blocks ----------

  /** The n units from b on belong to block b. */
  ghost predicate Owns(owner: map<nat, nat>, b: nat, n: nat) {
    n >= 1 && forall u :: b <= u < b + n ==> u in owner && owner[u] == b
  }

  ghost predicate FreeBlock(size: map<nat, nat>, owner: map<nat, nat>, b: nat) {
    b in size && Owns(owner, b, size[b])
  }

  ghost predicate LiveBlock(size: map<nat, nat>, live: map<nat, nat>, owner: map<nat, nat>, b: nat)
    requires b in live
  {
    b in size && size[b] == live[b] && Owns(owner, b, live[b])
  }

  /** Unit u lies in the block that is said to own it. */
  ghost predicate Within(size: map<nat, nat>, fl: seq<nat>, live: map<nat, nat>, owner: map<nat, nat>, u: nat)
    requires u in owner
  {
    var b := owner[u];
    if b in live then b !in fl && b <= u < b + live[b] else b in fl && b in size && b <= u < b + size[b]
  }

  ghost predicate Blocks(size: map<nat, nat>, fl: seq<nat>, live: map<nat, nat>, owner: map<nat, nat>) {
    && (forall i :: 0 <= i < |fl| ==> fl[i] !in live && FreeBlock(size, owner, fl[i]))
    && (forall b :: b in live ==> LiveBlock(size, live, owner, b))
    && (forall u :: u in owner ==> Within(size, fl, live, owner, u))
  }

  /** Free block i does not touch the next one. */
  ghost predicate Apart(size: map<nat, nat>, fl: seq<nat>, i: nat)
    requires i + 1 < |fl|
  {
    fl[i] in size && fl[i] + size[fl[i]] != fl[i + 1]
  }

  /** Two different blocks share no unit. */
  lemma Disjoint(size: map<nat, nat>, fl: seq<nat>, live: map<nat, nat>, owner: map<nat, nat>, a: nat, b: nat)
    requires Blocks(size, fl, live, owner) && a != b && (a in live || a in fl) && (b in live || b in fl)
    ensures var m, n := (if a in live then live[a] else size[a]), if b in live then live[b] else size[b];
            a + m <= b || b + n <= a
  {
    assert a in live ==> LiveBlock(size, live, owner, a);
    assert b in live ==> LiveBlock(size, live, owner, b);
    assert a in fl ==> FreeBlock(size, owner, a);
    assert b in fl ==> FreeBlock(size, owner, b);
    assert a in owner && owner[a] == a && b in owner && owner[b] == b;
  }

  // ---------- The whole heap ----------

  ghost predicate Heap(base: nat, ptr: map<nat, nat>, size: map<nat, nat>, fl: seq<nat>, live: map<nat, nat>,
        owner: map<nat, nat>) {
    && Ring(base, ptr, fl) && Sorted(base, fl) && Blocks(size, fl, live, owner)
    && base in size && size[base] == 0 && base !in owner && forall u :: u in owner ==> u > base
  }

  /** free, first part: the block goes into the list between p and its successor, still unmerged. */
  ghost function Inserted(fl: seq<nat>, j: nat, b: nat): seq<nat>
    requires j <= |fl|
  {
    fl[..j] + [b] + fl[j..]
  }

  lemma InsertRing(base: nat, ptr: map<nat, nat>, fl: seq<nat>, j: nat, b: nat)
    requires Ring(base, ptr, fl) && j <= |fl| && b !in fl && b != base && Sorted(base, fl)
    ensures var p := At(base, fl, j); p in ptr && Ring(base, ptr[b := ptr[p]][p := b], Inserted(fl, j, b))
  {
    var p := At(base, fl, j);
    assert NextIs(base, ptr, fl, j);
    var ptr', fl' := ptr[b := ptr[p]][p := b], Inserted(fl, j, b);
    forall i | 0 <= i <= |fl'| ensures NextIs(base, ptr', fl', i) {
      if i < j {
        assert NextIs(base, ptr, fl, i);
      } else if i > j + 1 {
        assert NextIs(base, ptr, fl, i - 1);
      }
    }
  }

  lemma InsertSorted(base: nat, fl: seq<nat>, b: nat)
    requires Sorted(base, fl) && b !in fl && b > base
    ensures Place(fl, b) <= |fl| && Sorted(base, Inserted(fl, Place(fl, b), b))
  {
    PlaceSplits(base, fl, b);
  }

  lemma InsertMember(fl: seq<nat>, j: nat, b: nat, x: nat)
    requires j <= |fl|
    ensures x in Inserted(fl, j, b) <==> x == b || x in fl
  {
    assert fl == fl[..j] + fl[j..];
  }

  lemma InsertBlocks(size: map<nat, nat>, fl: seq<nat>, live: map<nat, nat>, owner: map<nat, nat>, j: nat, b: nat)
    requires Blocks(size, fl, live, owner) && j <= |fl| && b in live
    ensures Blocks(size, Inserted(fl, j, b), live - {b}, owner)
  {
    assert LiveBlock(size, live, owner, b);
    var fl', live' := Inserted(fl, j, b), live - {b};
    forall i | 0 <= i < |fl'| ensures fl'[i] !in live' && FreeBlock(size, owner, fl'[i]) {
      if i < j {
        assert FreeBlock(size, owner, fl[i]);
      } else if i > j {
        assert FreeBlock(size, owner, fl[i - 1]);
      }
    }
    forall x | x in live' ensures LiveBlock(size, live', owner, x) {
      assert LiveBlock(size, live, owner, x);
    }
    forall u | u in owner ensures Within(size, fl', live', owner, u) {
      assert Within(size, fl, live, owner, u);
      InsertMember(fl, j, b, owner[u]);
    }
  }

  // ---------- Merging two neighbours ----------

  ghost function Without(fl: seq<nat>, i: nat): (r: seq<nat>)
    requires i < |fl|
    ensures |r| == |fl| - 1
  {
    fl[..i] + fl[i + 1..]
  }

  ghost function Renamed(owner: map<nat, nat>, q: nat, a: nat): map<nat, nat> {
    map u | u in owner :: if owner[u] == q then a else owner[u]
  }

  lemma WithoutRing(base: nat, ptr: map<nat, nat>, fl: seq<nat>, i: nat)
    requires Ring(base, ptr, fl) && Sorted(base, fl) && i < |fl|
    ensures var p := At(base, fl, i);
            fl[i] in ptr && Ring(base, ptr[p := ptr[fl[i]]], Without(fl, i)) && Sorted(base, Without(fl, i))
  {
    var p, fl' := At(base, fl, i), Without(fl, i);
    assert NextIs(base, ptr, fl, i + 1);
    var ptr' := ptr[p := ptr[fl[i]]];
    forall k | 0 <= k <= |fl'| ensures NextIs(base, ptr', fl', k) {
      if k <= i {
        assert NextIs(base, ptr, fl, k);
      } else {
        assert NextIs(base, ptr, fl, k + 1);
      }
    }
  }

  lemma WithoutMember(base: nat, fl: seq<nat>, i: nat, x: nat)
    requires Sorted(base, fl) && i < |fl|
    ensures x in Without(fl, i) <==> x in fl && x != fl[i]
  {
    assert fl == fl[..i] + [fl[i]] + fl[i + 1..];
  }

  lemma RenameOwns(owner: map<nat, nat>, q: nat, a: nat, b: nat, n: nat)
    requires Owns(owner, b, n) && b != q
    ensures Owns(Renamed(owner, q, a), b, n)
  {
  }

  lemma MergeOwns(owner: map<nat, nat>, a: nat, m: nat, n: nat)
    requires Owns(owner, a, m) && Owns(owner, a + m, n)
    ensures Owns(Renamed(owner, a + m, a), a, m + n)
  {
  }

  lemma MergeBlocks(base: nat, size: map<nat, nat>, fl: seq<nat>, live: map<nat, nat>, owner: map<nat, nat>, i: nat)
    requires Blocks(size, fl, live, owner) && Sorted(base, fl) && i + 1 < |fl| && fl[i] in size
             && fl[i] + size[fl[i]] == fl[i + 1]
    ensures fl[i + 1] in size && Blocks(size[fl[i] := size[fl[i]] + size[fl[i + 1]]], Without(fl, i + 1), live,
            Renamed(owner, fl[i + 1], fl[i]))
  {
    hide Owns;
    var a, q := fl[i], fl[i + 1];
    assert FreeBlock(size, owner, a) && FreeBlock(size, owner, q);
    var size', fl', owner' := size[a := size[a] + size[q]], Without(fl, i + 1), Renamed(owner, q, a);
    forall k | 0 <= k < |fl'| ensures fl'[k] !in live && FreeBlock(size', owner', fl'[k]) {
      WithoutMember(base, fl, i + 1, fl'[k]);
      MergeFree(base, size, fl, live, owner, i, fl'[k]);
    }
    forall x | x in live ensures LiveBlock(size', live, owner', x) {
      assert LiveBlock(size, live, owner, x);
      RenameOwns(owner, q, a, x, live[x]);
    }
    forall u | u in owner' ensures Within(size', fl', live, owner', u) {
      MergeWithin(base, size, fl, live, owner, i, u);
    }
  }

  lemma MergeFree(base: nat, size: map<nat, nat>, fl: seq<nat>, live: map<nat, nat>, owner: map<nat, nat>, i: nat,
        x: nat)
    requires Blocks(size, fl, live, owner) && Sorted(base, fl) && i + 1 < |fl| && fl[i] in size
             && fl[i] + size[fl[i]] == fl[i + 1]
    requires x in fl && x != fl[i + 1]
    ensures fl[i + 1] in size && FreeBlock(size[fl[i] := size[fl[i]] + size[fl[i + 1]]], Renamed(owner, fl[i + 1],
            fl[i]), x)
  {
    hide Owns;
    assert FreeBlock(size, owner, fl[i]) && FreeBlock(size, owner, fl[i + 1]) && FreeBlock(size, owner, x);
    if x == fl[i] {
      MergeOwns(owner, x, size[x], size[fl[i + 1]]);
    } else {
      RenameOwns(owner, fl[i + 1], fl[i], x, size[x]);
    }
  }

  lemma MergeWithin(base: nat, size: map<nat, nat>, fl: seq<nat>, live: map<nat, nat>, owner: map<nat, nat>, i: nat,
        u: nat)
    requires Blocks(size, fl, live, owner) && Sorted(base, fl) && i + 1 < |fl| && fl[i] in size && fl[i + 1] in size
    requires fl[i] + size[fl[i]] == fl[i + 1] && u in owner
    ensures Within(size[fl[i] := size[fl[i]] + size[fl[i + 1]]], Without(fl, i + 1), live, Renamed(owner, fl[i + 1],
            fl[i]), u)
  {
    hide Owns;
    assert Within(size, fl, live, owner, u);
    WithoutMember(base, fl, i + 1, Renamed(owner, fl[i + 1], fl[i])[u]);
  }

  /** Block i absorbs block i + 1, which it touches. */
  lemma Merge(base: nat, ptr: map<nat, nat>, size: map<nat, nat>, fl: seq<nat>, live: map<nat, nat>, owner: map<nat,
        nat>, i: nat)
    requires Heap(base, ptr, size, fl, live, owner) && i + 1 < |fl| && fl[i] in size && fl[i] + size[fl[i]] == fl[i + 1]
    ensures fl[i + 1] in size && fl[i + 1] in ptr
    ensures Heap(base, ptr[fl[i] := ptr[fl[i + 1]]], size[fl[i] := size[fl[i]] + size[fl[i + 1]]], Without(fl, i + 1),
            live, Renamed(owner, fl[i + 1], fl[i]))
  {
    hide Blocks, Ring;
    WithoutRing(base, ptr, fl, i + 1);
    MergeBlocks(base, size, fl, live, owner, i);
  }

  // ---------- Taking a block ----------

  lemma UnlinkBlocks(base: nat, size: map<nat, nat>, fl: seq<nat>, live: map<nat, nat>, owner: map<nat, nat>, i: nat)
    requires Blocks(size, fl, live, owner) && Sorted(base, fl) && i < |fl|
    ensures fl[i] in size && Blocks(size, Without(fl, i), live[fl[i] := size[fl[i]]], owner)
  {
    var b, fl' := fl[i], Without(fl, i);
    assert FreeBlock(size, owner, b);
    var live' := live[b := size[b]];
    forall k | 0 <= k < |fl'| ensures fl'[k] !in live' && FreeBlock(size, owner, fl'[k]) {
      WithoutMember(base, fl, i, fl'[k]);
    }
    forall x | x in live' ensures LiveBlock(size, live', owner, x) {
      if x != b {
        assert LiveBlock(size, live, owner, x);
      }
    }
    forall u | u in owner ensures Within(size, fl', live', owner, u) {
      assert Within(size, fl, live, owner, u);
      WithoutMember(base, fl, i, owner[u]);
    }
  }

  /** malloc takes a free block that fits exactly. */
  lemma Unlink(base: nat, ptr: map<nat, nat>, size: map<nat, nat>, fl: seq<nat>, live: map<nat, nat>, owner: map<nat,
        nat>, i: nat)
    requires Heap(base, ptr, size, fl, live, owner) && i < |fl|
    ensures fl[i] in size && fl[i] in ptr && fl[i] !in live
    ensures Heap(base, ptr[At(base, fl, i) := ptr[fl[i]]], size, Without(fl, i), live[fl[i] := size[fl[i]]], owner)
  {
    assert FreeBlock(size, owner, fl[i]);
    hide Blocks, Ring;
    WithoutRing(base, ptr, fl, i);
    UnlinkBlocks(base, size, fl, live, owner, i);
  }

  ghost function Carved(owner: map<nat, nat>, b: nat, n: nat): map<nat, nat> {
    map u | u in owner :: if b <= u < b + n then b else owner[u]
  }

  lemma CarveOwns(owner: map<nat, nat>, a: nat, m: nat, n: nat)
    requires Owns(owner, a, m) && 0 < n < m
    ensures Owns(Carved(owner, a + m - n, n), a, m - n) && Owns(Carved(owner, a + m - n, n), a + m - n, n)
  {
  }

  lemma CarveOther(owner: map<nat, nat>, a: nat, m: nat, n: nat, b: nat, k: nat)
    requires Owns(owner, a, m) && 0 < n < m && Owns(owner, b, k) && b != a
    ensures Owns(Carved(owner, a + m - n, n), b, k) && b != a + m - n
  {
    assert b in owner && a + m - n in owner;
    var owner' := Carved(owner, a + m - n, n);
    forall u | b <= u < b + k ensures u in owner' && owner'[u] == b {
      assert u in owner && owner[u] == b;
    }
  }

  lemma SplitBlocks(size: map<nat, nat>, fl: seq<nat>, live: map<nat, nat>, owner: map<nat, nat>, i: nat, n: nat)
    requires Blocks(size, fl, live, owner) && i < |fl| && 0 < n && fl[i] in size && n < size[fl[i]]
    ensures var b := fl[i] + size[fl[i]] - n;
      && b !in live && b !in fl
      && Blocks(size[fl[i] := size[fl[i]] - n][b := n], fl, live[b := n], Carved(owner, b, n))
  {
    hide Owns;
    var a := fl[i];
    var b := a + size[a] - n;
    assert FreeBlock(size, owner, a);
    CarveOwns(owner, a, size[a], n);
    var size', live', owner' := size[a := size[a] - n][b := n], live[b := n], Carved(owner, b, n);
    forall k | 0 <= k < |fl| ensures fl[k] !in live && fl[k] != b && FreeBlock(size', owner', fl[k]) {
      assert FreeBlock(size, owner, fl[k]);
      if fl[k] != a {
        CarveOther(owner, a, size[a], n, fl[k], size[fl[k]]);
      }
    }
    forall x | x in live ensures x != b && LiveBlock(size', live', owner', x) {
      assert LiveBlock(size, live, owner, x);
      CarveOther(owner, a, size[a], n, x, live[x]);
    }
    forall u | u in owner' ensures Within(size', fl, live', owner', u) {
      SplitWithin(size, fl, live, owner, i, n, u);
    }
  }

  lemma SplitWithin(size: map<nat, nat>, fl: seq<nat>, live: map<nat, nat>, owner: map<nat, nat>, i: nat, n: nat,
        u: nat)
    requires Blocks(size, fl, live, owner) && i < |fl| && fl[i] in size && 0 < n < size[fl[i]] && u in owner
    requires fl[i] + size[fl[i]] - n !in live && fl[i] + size[fl[i]] - n !in fl
    ensures var b := fl[i] + size[fl[i]] - n;
            Within(size[fl[i] := size[fl[i]] - n][b := n], fl, live[b := n], Carved(owner, b, n), u)
  {
    assert Within(size, fl, live, owner, u);
    assert FreeBlock(size, owner, fl[i]);
  }

  /** malloc takes the upper part of a larger free block. */
  lemma Split(base: nat, ptr: map<nat, nat>, size: map<nat, nat>, fl: seq<nat>, live: map<nat, nat>, owner: map<nat,
        nat>, i: nat, n: nat)
    requires Heap(base, ptr, size, fl, live, owner) && i < |fl| && 0 < n && fl[i] in size && n < size[fl[i]]
    ensures var b := fl[i] + size[fl[i]] - n;
      b !in live && Heap(base, ptr, size[fl[i] := size[fl[i]] - n][b := n], fl, live[b := n], Carved(owner, b, n))
  {
    SplitBlocks(size, fl, live, owner, i, n);
    hide Blocks;
  }

  // ---------- New memory ----------

  ghost function Region(b: nat, n: nat): (m: map<nat, nat>)
    ensures forall u :: u in m <==> b <= u < b + n
    ensures forall u :: u in m ==> m[u] == b
  {
    if n == 0 then map[] else Region(b, n - 1)[b + n - 1 := b]
  }

  /** The units of a new region form a live block, until morecore frees it. */
  lemma AddRegion(base: nat, ptr: map<nat, nat>, size: map<nat, nat>, fl: seq<nat>, live: map<nat, nat>, owner: map<nat,
        nat>, b: nat, n: nat)
    requires Heap(base, ptr, size, fl, live, owner) && n > 0 && b > base && forall u :: u in owner ==> u < b
    ensures Heap(base, ptr, size[b := n], fl, live[b := n], owner + Region(b, n)) && b !in live && b !in fl
  {
    var size', live', owner' := size[b := n], live[b := n], owner + Region(b, n);
    forall k | 0 <= k < |fl| ensures fl[k] < b && fl[k] !in live' && FreeBlock(size', owner', fl[k]) {
      assert FreeBlock(size, owner, fl[k]);
      assert fl[k] in owner;
    }
    forall x | x in live ensures x < b {
      assert LiveBlock(size, live, owner, x) && x in owner;
    }
    forall x | x in live' ensures LiveBlock(size', live', owner', x) {
      if x != b {
        assert LiveBlock(size, live, owner, x);
      }
    }
    forall u | u in owner' ensures Within(size', fl, live', owner', u) {
      if u in owner {
        assert Within(size, fl, live, owner, u);
      }
    }
  }

  /** Whatever a program writes into a live block, short of its header, leaves the heap as it is. */
  lemma UserWrites(base: nat, ptr: map<nat, nat>, size: map<nat, nat>, fl: seq<nat>, live: map<nat, nat>,
        owner: map<nat, nat>, b: nat, u: nat, x: nat, y: nat)
    requires Heap(base, ptr, size, fl, live, owner) && b in live && b < u < b + live[b]
    ensures Heap(base, ptr[u := x], size[u := y], fl, live, owner)
  {
    assert LiveBlock(size, live, owner, b) && owner[u] == b;
    var ptr', size' := ptr[u := x], size[u := y];
    forall k | 0 <= k < |fl| ensures fl[k] != u && fl[k] !in live && FreeBlock(size', owner, fl[k]) {
      assert FreeBlock(size, owner, fl[k]);
      assert owner[fl[k]] == fl[k];
    }
    forall k | 0 <= k <= |fl| ensures NextIs(base, ptr', fl, k) {
      assert NextIs(base, ptr, fl, k);
    }
    forall a | a in live ensures LiveBlock(size', live, owner, a) {
      assert LiveBlock(size, live, owner, a);
      assert owner[a] == a;
    }
    forall w | w in owner ensures Within(size', fl, live, owner, w) {
      assert Within(size, fl, live, owner, w);
    }
  }

  // ---------- No two free blocks touch ----------

  ghost predicate GapsExcept(size: map<nat, nat>, fl: seq<nat>, lo: int, hi: int) {
    forall i :: 0 <= i < |fl| - 1 && !(lo <= i < hi) ==> Apart(size, fl, i)
  }

  lemma InsertGaps(size: map<nat, nat>, fl: seq<nat>, j: nat, b: nat)
    requires GapsExcept(size, fl, 0, 0) && j <= |fl| && b in size
    ensures GapsExcept(size, Inserted(fl, j, b), j - 1, j + 1)
    ensures (j == |fl| || b + size[b] != fl[j]) ==> GapsExcept(size, Inserted(fl, j, b), j - 1, j)
  {
    var fl' := Inserted(fl, j, b);
    forall i | 0 <= i < |fl'| - 1 && !(j - 1 <= i < j + 1) ensures Apart(size, fl', i) {
      assert Apart(size, fl, if i < j then i else i - 1);
    }
  }

  lemma MergeGaps(base: nat, size: map<nat, nat>, fl: seq<nat>, lo: int, i: nat)
    requires Sorted(base, fl) && i + 1 < |fl| && lo <= i && GapsExcept(size, fl, lo, i + 1)
    requires fl[i] in size && fl[i + 1] in size && fl[i] + size[fl[i]] == fl[i + 1]
    ensures GapsExcept(size[fl[i] := size[fl[i]] + size[fl[i + 1]]], Without(fl, i + 1), lo, i)
  {
    var size', fl' := size[fl[i] := size[fl[i]] + size[fl[i + 1]]], Without(fl, i + 1);
    forall k | 0 <= k < |fl'| - 1 && !(lo <= k < i) ensures Apart(size', fl', k) {
      assert Apart(size, fl, if k < i then k else k + 1);
    }
  }

  lemma UnlinkGaps(base: nat, size: map<nat, nat>, fl: seq<nat>, live: map<nat, nat>, owner: map<nat, nat>, i: nat)
    requires Blocks(size, fl, live, owner) && Sorted(base, fl) && i < |fl| && GapsExcept(size, fl, 0, 0)
    ensures GapsExcept(size, Without(fl, i), 0, 0)
  {
    var fl' := Without(fl, i);
    forall k | 0 <= k < |fl'| - 1 ensures Apart(size, fl', k) {
      assert Apart(size, fl, if k < i then k else k + 1);
      if k == i - 1 {
        Disjoint(size, fl, live, owner, fl[k], fl[i]);
      }
    }
  }

  lemma SplitGaps(base: nat, size: map<nat, nat>, fl: seq<nat>, live: map<nat, nat>, owner: map<nat, nat>, i: nat,
        n: nat)
    requires Blocks(size, fl, live, owner) && Sorted(base, fl) && i < |fl| && GapsExcept(size, fl, 0, 0)
             && fl[i] in size && 0 < n < size[fl[i]]
    requires fl[i] + size[fl[i]] - n !in fl
    ensures GapsExcept(size[fl[i] := size[fl[i]] - n][fl[i] + size[fl[i]] - n := n], fl, 0, 0)
  {
    var size' := size[fl[i] := size[fl[i]] - n][fl[i] + size[fl[i]] - n := n];
    forall k | 0 <= k < |fl| - 1 ensures Apart(size', fl, k) {
      assert Apart(size, fl, k);
      if k == i {
        Disjoint(size, fl, live, owner, fl[i], fl[i + 1]);
      }
    }
  }

  // ---------- free ----------

  /** A free block of at least n units. */
  ghost predicate Fits(size: map<nat, nat>, fl: seq<nat>, n: nat) {
    exists i :: 0 <= i < |fl| && fl[i] in size && size[fl[i]] >= n
  }

  datatype Lists = Lists(ptr: map<nat, nat>, size: map<nat, nat>, fl: seq<nat>, owner: map<nat, nat>)

  /** The heap is in order, but blocks lo to hi may touch their successors. */
  ghost predicate Good(base: nat, s: Lists, live: map<nat, nat>, lo: int, hi: int) {
    Heap(base, s.ptr, s.size, s.fl, live, s.owner) && GapsExcept(s.size, s.fl, lo, hi)
  }

  ghost predicate Linked(base: nat, s: Lists) {
    base in s.ptr && base in s.size && base !in s.fl && forall x :: x in s.fl ==> x in s.ptr && x in s.size
  }

  lemma GoodLinked(base: nat, s: Lists, live: map<nat, nat>, lo: int, hi: int)
    requires Good(base, s, live, lo, hi)
    ensures Linked(base, s)
  {
    assert NextIs(base, s.ptr, s.fl, 0);
    forall i | 0 <= i < |s.fl| ensures s.fl[i] in s.ptr && s.fl[i] in s.size {
      assert NextIs(base, s.ptr, s.fl, i + 1) && FreeBlock(s.size, s.owner, s.fl[i]);
    }
  }

  ghost function InsertAt(base: nat, s: Lists, j: nat, b: nat): Lists
    requires Linked(base, s) && j <= |s.fl|
  {
    var p := At(base, s.fl, j);
    Lists(s.ptr[b := s.ptr[p]][p := b], s.size, Inserted(s.fl, j, b), s.owner)
  }

  ghost function MergeAt(base: nat, s: Lists, i: nat): Lists
    requires Linked(base, s) && i + 1 < |s.fl|
  {
    var a, q := s.fl[i], s.fl[i + 1];
    Lists(s.ptr[a := s.ptr[q]], s.size[a := s.size[a] + s.size[q]], Without(s.fl, i + 1), Renamed(s.owner, q, a))
  }

  lemma InsertGood(base: nat, s: Lists, live: map<nat, nat>, b: nat)
    requires Good(base, s, live, 0, 0) && Linked(base, s) && b in live
    ensures var j := Place(s.fl, b);
      && b !in s.fl && b > base && b in s.size && s.size[b] == live[b] && j <= |s.fl|
      && var t := InsertAt(base, s, j, b);
      && Good(base, t, live - {b}, j - 1, j + 1) && |t.fl| == |s.fl| + 1 && t.fl[j] == b
          && At(base, t.fl, j) == At(base, s.fl, j)
      && (j < |s.fl| ==> t.fl[j + 1] == s.fl[j])
      && ((j == |s.fl| || b + s.size[b] != s.fl[j]) ==> Good(base, t, live - {b}, j - 1, j))
  {
    hide Ring, Sorted, Blocks, GapsExcept, Place;
    LiveFacts(base, s, live, b);
    var j := Place(s.fl, b);
    InsertSorted(base, s.fl, b);
    InsertRing(base, s.ptr, s.fl, j, b);
    InsertBlocks(s.size, s.fl, live, s.owner, j, b);
    InsertGaps(s.size, s.fl, j, b);
  }

  lemma LiveFacts(base: nat, s: Lists, live: map<nat, nat>, b: nat)
    requires Heap(base, s.ptr, s.size, s.fl, live, s.owner) && b in live
    ensures b !in s.fl && b > base && b in s.size && s.size[b] == live[b] && b in s.owner && s.owner[b] == b
  {
    assert LiveBlock(s.size, live, s.owner, b) && b in s.owner;
  }

  lemma FreeNotLive(size: map<nat, nat>, fl: seq<nat>, live: map<nat, nat>, owner: map<nat, nat>, i: nat)
    requires Blocks(size, fl, live, owner) && i < |fl|
    ensures fl[i] !in live
  {
  }

  lemma MergeGood(base: nat, s: Lists, live: map<nat, nat>, lo: int, i: nat)
    requires Good(base, s, live, lo, i + 1) && Linked(base, s) && i + 1 < |s.fl| && lo <= i
             && s.fl[i] + s.size[s.fl[i]] == s.fl[i + 1]
    ensures var t := MergeAt(base, s, i);
      && Good(base, t, live, lo, i) && |t.fl| == |s.fl| - 1 && At(base, t.fl, i) == At(base, s.fl, i)
          && t.fl[i] == s.fl[i]
      && t.owner.Keys == s.owner.Keys && OwnerKept(s.owner, t.owner, live) && t.size[s.fl[i]] >= s.size[s.fl[i]]
          && t.size[s.fl[i]] >= s.size[s.fl[i + 1]]
  {
    hide Ring, Blocks, GapsExcept;
    FreeNotLive(s.size, s.fl, live, s.owner, i + 1);
    Merge(base, s.ptr, s.size, s.fl, live, s.owner, i);
    MergeGaps(base, s.size, s.fl, lo, i);
  }

  /** The first half of free: behind p and before q, merged with q if it touches q. */
  lemma FreeUp(base: nat, s: Lists, live: map<nat, nat>, b: nat) returns (t: Lists)
    requires Good(base, s, live, 0, 0) && Linked(base, s) && b in live
    ensures b in s.size && b != base && Place(s.fl, b) <= |s.fl|
    ensures var j := Place(s.fl, b); var p := At(base, s.fl, j); var q := s.ptr[p];
      && Good(base, t, live - {b}, j - 1, j) && Linked(base, t) && p != b && q in s.ptr && q in s.size
      && j < |t.fl| && t.fl[j] == b && At(base, t.fl, j) == p && t.owner.Keys == s.owner.Keys
          && OwnerKept(s.owner, t.owner, live - {b}) && t.size[b] >= live[b]
      && t.size == (if b + s.size[b] == q then s.size[b := s.size[b] + s.size[q]] else s.size)
      && t.ptr == s.ptr[b := if b + s.size[b] == q then s.ptr[q] else q][p := b]
  {
    hide Good, Place, OwnerKept, Linked;
    OwnerKeptSelf(s.owner, live - {b});
    var j: int := Place(s.fl, b);
    LiveBelow(base, s, live, b);
    LinkedAt(base, s, j);
    InsertGood(base, s, live, b);
    var p := At(base, s.fl, j);
    NextOf(base, s, live, j);
    BaseApart(base, s, live, 0, 0);
    t := InsertAt(base, s, j, b);
    GoodLinked(base, t, live - {b}, j - 1, j + 1);
    if b + s.size[b] == s.ptr[p] {
      MergeGood(base, t, live - {b}, j - 1, j);
      t := MergeAt(base, t, j);
      GoodLinked(base, t, live - {b}, j - 1, j);
      var q := s.ptr[p];
      assert t.ptr == s.ptr[b := s.ptr[q]][p := b];
    }
  }

  lemma NextOf(base: nat, s: Lists, live: map<nat, nat>, j: nat)
    requires Good(base, s, live, 0, 0) && Linked(base, s) && j <= |s.fl|
    ensures s.ptr[At(base, s.fl, j)] == At(base, s.fl, Succ(s.fl, j)) && (j < |s.fl| ==> s.fl[j] != At(base, s.fl, j))
  {
    assert NextIs(base, s.ptr, s.fl, j);
  }

  /** The second half: merged with p if p touches it. */
  lemma FreeDown(base: nat, s: Lists, live: map<nat, nat>, j: nat, n: nat) returns (t: Lists)
    requires j < |s.fl| && Good(base, s, live, j - 1, j) && Linked(base, s) && s.size[s.fl[j]] >= n
    ensures var b, p := s.fl[j], At(base, s.fl, j);
      && Good(base, t, live, 0, 0) && Linked(base, t) && Fits(t.size, t.fl, n) && (p == base || p in t.fl)
          && t.owner.Keys == s.owner.Keys && OwnerKept(s.owner, t.owner, live)
      && t.size == (if p + s.size[p] == b then s.size[p := s.size[p] + s.size[b]] else s.size)
      && t.ptr == (if p + s.size[p] == b then s.ptr[p := s.ptr[b]] else s.ptr)
  {
    hide Good, Fits, OwnerKept;
    OwnerKeptSelf(s.owner, live);
    BaseApart(base, s, live, j - 1, j);
    var b, p := s.fl[j], At(base, s.fl, j);
    t := s;
    if p + s.size[p] == b {
      MergeGood(base, s, live, j - 1, j - 1);
      t := MergeAt(base, s, j - 1);
      GoodLinked(base, t, live, j - 1, j - 1);
      GoodNone(base, t, live, j - 1);
      FitsAt(t.size, t.fl, j - 1, n);
    } else {
      NotTouching(base, s, live, j);
      FitsAt(t.size, t.fl, j, n);
    }
  }

  lemma FitsAt(size: map<nat, nat>, fl: seq<nat>, i: nat, n: nat)
    requires i < |fl| && fl[i] in size && size[fl[i]] >= n
    ensures Fits(size, fl, n)
  {
  }

  lemma GoodNone(base: nat, s: Lists, live: map<nat, nat>, k: int)
    requires Good(base, s, live, k, k)
    ensures Good(base, s, live, 0, 0)
  {
    hide Heap;
  }

  lemma NotTouching(base: nat, s: Lists, live: map<nat, nat>, j: nat)
    requires j < |s.fl| && Good(base, s, live, j - 1, j) && Linked(base, s) && At(base, s.fl, j)
             + s.size[At(base, s.fl, j)] != s.fl[j]
    ensures Good(base, s, live, 0, 0)
  {
    hide Heap;
    forall i | 0 <= i < |s.fl| - 1 ensures Apart(s.size, s.fl, i) {
    }
  }

  lemma BaseApart(base: nat, s: Lists, live: map<nat, nat>, lo: int, hi: int)
    requires Good(base, s, live, lo, hi) && Linked(base, s)
    ensures s.size[base] == 0 && base !in s.fl
  {
  }

  // ---------- Requests ----------

  const HEADER: nat := 16

  /** The units for a request: enough for the bytes, and one for the header. */
  function Units(nbytes: nat): (n: nat)
    ensures n >= 1 && (n - 1) * HEADER >= nbytes && (n - 1) * HEADER < nbytes + HEADER
  {
    (nbytes + HEADER - 1) / HEADER + 1
  }

  /** What morecore asks for: the units wanted, or 4096 if that is more. */
  function Grain(nu: nat): (r: nat)
    ensures nu <= r && 4096 <= r && (r == nu || r == 4096)
  {
    if nu < 4096 then 4096 else nu
  }

  /** The byte count as sbrk receives it, in an int. */
  function SbrkArgument(nu: nat): int {
    var m := nu * HEADER % 0x1_0000_0000;
    if m < 0x8000_0000 then m else m - 0x1_0000_0000
  }

  /** The end of the process after a successful sbrk(arg) at `end`.  A negative argument gives memory back, unless
      there is not that much; then growproc leaves the size alone. */
  function EndAfter(end: nat, arg: int): nat {
    if arg >= 0 then end + arg / HEADER else if end * HEADER + arg >= 0 then (end * HEADER + arg) / HEADER else end
  }

  /** The units that have been obtained from sbrk and not given back. */
  ghost function Obtained(arena: set<nat>, end: nat, arg: int): set<nat> {
    if arg >= 0 then arena + Region(end, arg / HEADER).Keys else set u | u in arena && u < EndAfter(end, arg)
  }

  /** The units that morecore is about to put on the list have all been obtained from sbrk if and only if their bytes
      fit its int argument. */
  lemma BackedIff(arena: set<nat>, end: nat, nu: nat)
    requires nu > 0 && forall u :: u in arena ==> u < end
    ensures arena + Region(end, nu).Keys <= Obtained(arena, end, SbrkArgument(nu)) <==> nu * HEADER < 0x8000_0000
    ensures nu * HEADER < 0x8000_0000 ==> Obtained(arena, end, SbrkArgument(nu)) == arena + Region(end, nu).Keys
    ensures nu * HEADER < 0x8000_0000 ==> EndAfter(end, SbrkArgument(nu)) == end + nu
  {
    hide SbrkArgument;
    ArgumentSize(nu);
    var arg := SbrkArgument(nu);
    var all := arena + Region(end, nu).Keys;
    if nu * HEADER >= 0x8000_0000 {
      var u := if arg >= 0 then end + arg / HEADER else end;
      assert u in all && u !in Obtained(arena, end, arg);
    }
  }

  lemma ArgumentSize(nu: nat)
    ensures nu * HEADER < 0x8000_0000 ==> SbrkArgument(nu) == nu * HEADER && SbrkArgument(nu) / HEADER == nu
    ensures nu * HEADER >= 0x8000_0000 && SbrkArgument(nu) >= 0 ==> SbrkArgument(nu) / HEADER < nu
  {
  }

  /** The ring position s steps after the one behind position f. */
  function Rot(n: nat, f: nat, s: int): nat
    requires f < n && -1 <= s < n
  {
    if f + 1 + s < n then f + 1 + s else f + 1 + s - n
  }

  /** The first s blocks after freep are too small. */
  ghost predicate TooSmall(base: nat, size: map<nat, nat>, fl: seq<nat>, f: nat, s: nat, n: nat)
    requires f <= |fl| && s <= |fl| + 1
  {
    forall t :: 0 <= t < s ==> SmallRank(base, size, fl, f, t, n)
  }

  ghost predicate SmallRank(base: nat, size: map<nat, nat>, fl: seq<nat>, f: nat, t: nat, n: nat)
    requires f <= |fl| && t <= |fl|
  {
    SmallAt(base, size, fl, Rot(|fl| + 1, f, t), n)
  }

  ghost predicate SmallAt(base: nat, size: map<nat, nat>, fl: seq<nat>, i: nat, n: nat)
    requires i <= |fl|
  {
    At(base, fl, i) in size && size[At(base, fl, i)] < n
  }

  /** Once round the ring without success: no block fits. */
  lemma NoneFits(base: nat, size: map<nat, nat>, fl: seq<nat>, f: nat, n: nat)
    requires f <= |fl| && TooSmall(base, size, fl, f, |fl| + 1, n)
    ensures !Fits(size, fl, n)
  {
    forall i | 0 <= i < |fl| ensures fl[i] in size ==> size[fl[i]] < n {
      var k := i + 1;
      var t := if k >= f + 1 then k - f - 1 else k + |fl| - f;
      assert Rot(|fl| + 1, f, t) == k;
      assert SmallRank(base, size, fl, f, t, n);
    }
  }

  class Allocator {
    const base: nat
    var ptr: map<nat, nat>
    var size: map<nat, nat>
    var freep: nat          // 0 before the first malloc
    var brk: nat
    ghost var fl: seq<nat>
    ghost var live: map<nat, nat>
    ghost var owner: map<nat, nat>
    ghost var arena: set<nat>   // the units obtained from sbrk

    ghost function S(): Lists
      reads this
    {
      Lists(ptr, size, fl, owner)
    }

    /** The ring is in order, and each unit that the headers claim belongs to one block. */
    ghost predicate Shape()
      reads this
    {
      0 < base && Good(base, S(), live, 0, 0) && Linked(base, S()) && (freep == base || freep in fl)
    }

    /** And what the headers claim is what has been obtained from sbrk. */
    ghost predicate Inv()
      reads this
    {
      Shape() && base < brk && owner.Keys == arena && forall u :: u in arena ==> u < brk
    }

    /** Before the first malloc, or in order. */
    ghost predicate Valid()
      reads this
    {
      if freep == 0 then 0 < base < brk && fl == [] && live == map[] && owner == map[] && arena == {} else Inv()
    }

    constructor (base0: nat, brk0: nat)
      requires 0 < base0 < brk0
      ensures Valid() && freep == 0 && live == map[] && arena == {} && base == base0 && brk == brk0
    {
      base, brk, freep := base0, brk0, 0;
      ptr, size, fl, live, owner, arena := map[], map[], [], map[], map[], {};
    }

    /** The search loop of free. */
    method FindPlace(bp: nat) returns (p: nat)
      requires Shape() && bp in live
      ensures Place(fl, bp) <= |fl| && p == At(base, fl, Place(fl, bp))
    {
      hide Good, Place, Between, AtWrap;
      ghost var j := Place(fl, bp);
      LiveBelow(base, S(), live, bp);
      ghost var i: nat := Position(base, fl, freep);
      p := freep;
      NextOf(base, S(), live, i);
      Stops(base, S(), live, bp, i);
      while !Between(bp, p, ptr[p])
        invariant i <= |fl| && p == At(base, fl, i) && p in ptr
        invariant ptr[p] == At(base, fl, Succ(fl, i)) && ((Between(bp, p, ptr[p]) || AtWrap(bp, p, ptr[p])) <==> i == j)
        decreases if i <= j then j - i else |fl| + 1 - i + j
      {
        if AtWrap(bp, p, ptr[p]) {
          break;
        }
        p := ptr[p];
        i := Succ(fl, i);
        NextOf(base, S(), live, i);
        Stops(base, S(), live, bp, i);
      }
    }

    /** free: the block is no longer live; the list stays in order and without touching blocks; nothing in
        the other live blocks changes. */
    method Free(ap: nat)
      requires Shape() && ap > 0 && ap - 1 in live
      modifies this`ptr, this`size, this`freep, this`fl, this`live, this`owner
      ensures Shape() && owner.Keys == old(owner.Keys) && (Inv() <==> old(Inv()))
      ensures live == old(live) - {ap - 1} && Fits(size, fl, old(live)[ap - 1])
      ensures Kept(old(S()), S(), live)
    {
      hide Good, Place, Fits, Kept, Linked, At;
      var bp := ap - 1;
      var p := FindPlace(bp);
      ghost var u := FreeAll(base, S(), live, bp, p);
      var q := ptr[p];
      if bp + size[bp] == q {
        size := size[bp := size[bp] + size[q]];
        ptr := ptr[bp := ptr[q]];
      } else {
        ptr := ptr[bp := q];
      }
      if p + size[p] == bp {
        size := size[p := size[p] + size[bp]];
        ptr := ptr[p := ptr[bp]];
      } else {
        ptr := ptr[p := bp];
      }
      freep := p;
      fl, owner, live := u.fl, u.owner, live - {bp};
    }

    /** morecore: `gap` units are between the old end of the heap and the region sbrk returns, which others may
        have taken; `grant` says whether sbrk succeeds.  The header claims the units wanted, whatever sbrk was
        asked for: the heap is in order afterwards if and only if their bytes fit the argument. */
    method MoreCore(nunits: nat, grant: bool, gap: nat) returns (ok: bool)
      requires Inv() && 0 < nunits
      modifies this
      ensures ok == grant && Shape() && live == old(live)
      ensures !ok ==> unchanged(this)
      ensures ok ==> owner.Keys == old(arena) + Region(old(brk) + gap, Grain(nunits)).Keys && Fits(size, fl, nunits)
      ensures ok ==> arena == Obtained(old(arena), old(brk) + gap, SbrkArgument(Grain(nunits)))
      ensures ok ==> (owner.Keys <= arena <==> Grain(nunits) * HEADER < 0x8000_0000)
      ensures ok ==> (Inv() <==> Grain(nunits) * HEADER < 0x8000_0000)
      ensures Kept(old(S()), S(), live)
    {
      hide Good, Fits, Linked, Region, Kept, Obtained, EndAfter, SbrkArgument;
      KeptSelf(S(), live);
      if !grant {
        return false;
      }
      var nu := Grain(nunits);
      var hp := brk + gap;
      NewRegion(base, S(), live, hp, nu, arena);
      BackedIff(arena, hp, nu);
      ghost var s := S();
      brk := EndAfter(hp, SbrkArgument(nu));
      size := size[hp := nu];
      live := live[hp := nu];
      owner := owner + Region(hp, nu);
      arena := Obtained(arena, hp, SbrkArgument(nu));
      ghost var t := S();
      Free(hp + 1);
      KeptTrans(s, t, S(), live);
      FitsLess(size, fl, nu, nunits);
      ok := true;
    }

    /** The end of malloc: p, behind prevp, is large enough. */
    method Take(prevp: nat, p: nat, nunits: nat, ghost i: nat) returns (ap: nat)
      requires Shape() && i < |fl| && prevp == At(base, fl, i) && p == fl[i] && p in size && 0 < nunits <= size[p]
      modifies this`ptr, this`size, this`freep, this`fl, this`live, this`owner
      ensures Shape() && owner.Keys == old(owner.Keys) && (Inv() <==> old(Inv()))
      ensures ap > 0 && ap - 1 !in old(live) && live == old(live)[ap - 1 := nunits]
      ensures Kept(old(S()), S(), old(live))
    {
      hide Good, Linked, Kept;
      ghost var s := S();
      LinkedAt(base, s, i);
      if size[p] == nunits {
        TakeAll(base, s, live, i);
        ptr := ptr[prevp := ptr[p]];
        ap := p + 1;
        fl, live := Without(fl, i), live[p := nunits];
      } else {
        TakePart(base, s, live, i, nunits);
        size := size[p := size[p] - nunits];
        var b := p + size[p];
        size := size[b := nunits];
        ap := b + 1;
        live, owner := live[b := nunits], Carved(owner, b, nunits);
      }
      freep := prevp;
    }

    /** The first malloc makes the ring of base alone. */
    method Start(ghost n: nat)
      requires Valid()
      modifies this`ptr, this`size, this`freep
      ensures Inv() && Kept(old(S()), S(), live)
      ensures Fits(size, fl, n) <==> Fits(old(size), fl, n)
    {
      hide Good, Linked, Fits, Kept;
      KeptSelf(S(), live);
      if freep == 0 {
        EmptyRing(base);
        KeptNone(S(), Lists(map[base := base], map[base := 0], [], map[]));
        NothingFits(size, n);
        ptr, size := map[base := base], map[base := 0];
        freep := base;
        NothingFits(size, n);
      }
    }

    /** The search of malloc has passed s blocks, starting behind freep, which is at position f. */
    ghost predicate Searching(prevp: nat, p: nat, f: nat, s: nat, nunits: nat)
      reads this
    {
      && Shape() && f <= |fl| && At(base, fl, f) == freep && s <= |fl|
      && prevp == At(base, fl, Rot(|fl| + 1, f, s - 1)) && p == At(base, fl, Rot(|fl| + 1, f, s)) && p in ptr
          && p in size
      && TooSmall(base, size, fl, f, s, nunits)
    }

    /** morecore has come back with a region at `end`. */
    ghost predicate Grew(arena0: set<nat>, end: nat, nunits: nat)
      reads this
    {
      && owner.Keys == arena0 + Region(end, Grain(nunits)).Keys
          && arena == Obtained(arena0, end, SbrkArgument(Grain(nunits)))
      && (Inv() <==> Grain(nunits) * HEADER < 0x8000_0000)
    }

    /** The loop of malloc: it ends at a block that is large enough, which morecore has made if there was none, or
        without one if then sbrk fails. */
    method Search(nunits: nat, grant: bool, gap: nat) returns (found: bool, prevp: nat, p: nat, ghost i: nat)
      requires Inv() && nunits > 0
      modifies this
      ensures Shape() && live == old(live) && Kept(old(S()), S(), live)
      ensures found <==> Fits(old(size), old(fl), nunits) || grant
      ensures !found ==> unchanged(this)
      ensures found && Fits(old(size), old(fl), nunits) ==> Inv() && arena == old(arena)
      ensures found && !Fits(old(size), old(fl), nunits) ==> Grew(old(arena), old(brk) + gap, nunits)
      ensures found ==> i < |fl| && prevp == At(base, fl, i) && p == fl[i] && p in size && nunits <= size[p]
    {
      hide Good, Linked, Fits, TooSmall, Rot, Kept, At, Grew, Grain, Region, Obtained, SbrkArgument;
      KeptSelf(S(), live);
      ghost var grown := false;
      LinkedHas(base, S(), freep);
      prevp, p := freep, ptr[freep];
      ghost var f, s := Position(base, fl, freep), 0;
      StartSearch(base, S(), live, f, nunits);
      while size[p] < nunits
        invariant Searching(prevp, p, f, s, nunits) && live == old(live) && Kept(old(S()), S(), live)
        invariant !grown ==> unchanged(this)
        invariant grown ==>
                    grant && Fits(size, fl, nunits) && !Fits(old(size), old(fl), nunits)
                    && Grew(old(arena), old(brk) + gap, nunits)
        decreases if grown then 0 else 1, |fl| + 1 - s
      {
        PassOne(base, S(), live, f, s, nunits);
        if p == freep {
          NoneFits(base, size, fl, f, nunits);
          var ok := MoreCore(nunits, grant, gap);
          if !ok {
            return false, prevp, p, 0;
          }
          grown := true;
          HasGrown(old(arena), old(brk) + gap, nunits);
          p := freep;
          LinkedHas(base, S(), freep);
          f, s := Position(base, fl, freep), 0;
          StartSearch(base, S(), live, f, nunits);
        } else {
          s := s + 1;
        }
        prevp, p := p, ptr[p];
      }
      i := FoundAt(base, S(), live, f, s, nunits);
      FitsAt(size, fl, i, nunits);
      found := true;
    }

    lemma HasGrown(arena0: set<nat>, end: nat, nunits: nat)
      requires owner.Keys == arena0 + Region(end, Grain(nunits)).Keys
               && arena == Obtained(arena0, end, SbrkArgument(Grain(nunits)))
      requires Inv() <==> Grain(nunits) * HEADER < 0x8000_0000
      ensures Grew(arena0, end, nunits)
    {
    }

    /** malloc: a block of its own for the caller, large enough for the bytes; new memory only if no free
        block is large enough; 0 only if then sbrk fails.  The heap stays in order if and only if a free block is
        large enough, or sbrk fails, or the bytes it is asked for fit its argument. */
    method Malloc(nbytes: nat, grant: bool, gap: nat) returns (r: Option<nat>)
      requires Valid() && nbytes < 0x1_0000_0000
      modifies this
      ensures Shape() && Kept(old(S()), S(), old(live))
      ensures Inv() <==>
              Fits(old(size), old(fl), Units(nbytes)) || !grant || Grain(Units(nbytes)) * HEADER < 0x8000_0000
      ensures r.None? <==> !Fits(old(size), old(fl), Units(nbytes)) && !grant
      ensures r.None? ==> live == old(live) && arena == old(arena) && owner == old(owner)
      ensures r.Some? ==> r.value > 0 && r.value - 1 !in old(live) && live == old(live)[r.value - 1 := Units(nbytes)]
      ensures r.Some? && Fits(old(size), old(fl), Units(nbytes)) ==>
                arena == old(arena) && owner.Keys == old(owner.Keys)
      ensures r.Some? && !Fits(old(size), old(fl), Units(nbytes)) ==> Grew(old(arena), old(brk) + gap, Units(nbytes))
    {
      hide Good, Linked, Fits, Region, Kept, Obtained, SbrkArgument, Units, Grain;
      var nunits := Units(nbytes);
      Start(nunits);
      ghost var s := S();
      var found, prevp, p;
      ghost var i;
      found, prevp, p, i := Search(nunits, grant, gap);
      ghost var t := S();
      KeptTrans(old(S()), s, t, live);
      if !found {
        return None;
      }
      var ap := Take(prevp, p, nunits, i);
      KeptTrans(old(S()), t, S(), old(live));
      r := Some(ap);
    }
  }

  /** A request whose bytes do not fit: the block returned claims 2^28 + 1 units, and one has been obtained. */
  method Overcommit() returns (a: Allocator, r: Option<nat>)
    ensures r.Some? && r.value > 0 && r.value - 1 in a.live && a.live[r.value - 1] == 0x1000_0001 && a.arena == {2}
  {
    hide Good, Linked, Kept, Fits, Region, Obtained, Units, Grain, SbrkArgument;
    BigRequest();
    a := new Allocator(1, 2);
    NothingFits(a.size, 0x1000_0001);
    r := a.Malloc(0xffff_ffff, true, 0);
  }

  lemma BigRequest()
    ensures Units(0xffff_ffff) == Grain(0x1000_0001) == 0x1000_0001 && SbrkArgument(0x1000_0001) == HEADER
    ensures Obtained({}, 2, HEADER) == {2}
  {
    var all := Obtained({}, 2, HEADER);
    assert forall u :: u in all <==> u in Region(2, 1);
  }

  ghost predicate SameAt(m: map<nat, nat>, m': map<nat, nat>, u: nat) {
    (u in m <==> u in m') && (u in m ==> m[u] == m'[u])
  }

  ghost predicate OwnerKept(owner: map<nat, nat>, owner': map<nat, nat>, keep: map<nat, nat>) {
    forall u :: u in owner && owner[u] in keep ==> u in owner' && owner'[u] == owner[u]
  }

  /** Every unit of the blocks in `keep` still belongs to its block and holds what it held. */
  ghost predicate Kept(s: Lists, t: Lists, keep: map<nat, nat>) {
    OwnerKept(s.owner, t.owner, keep) && forall u :: u in s.owner && s.owner[u] in keep ==>
          SameAt(s.ptr, t.ptr, u) && SameAt(s.size, t.size, u)
  }

  lemma OwnerKeptSelf(owner: map<nat, nat>, keep: map<nat, nat>)
    ensures OwnerKept(owner, owner, keep)
  {
  }

  lemma OwnerKeptTrans(a: map<nat, nat>, b: map<nat, nat>, c: map<nat, nat>, keep: map<nat, nat>)
    requires OwnerKept(a, b, keep) && OwnerKept(b, c, keep)
    ensures OwnerKept(a, c, keep)
  {
  }

  lemma KeptTrans(s: Lists, t: Lists, w: Lists, keep: map<nat, nat>)
    requires Kept(s, t, keep) && Kept(t, w, keep)
    ensures Kept(s, w, keep)
  {
  }

  /** Only the header of the freed block and of its neighbour below are written. */
  lemma HeadersOnly(base: nat, s: Lists, live: map<nat, nat>, b: nat, p: nat, t: Lists)
    requires Good(base, s, live, 0, 0) && b in live && (p == base || p in s.fl)
             && OwnerKept(s.owner, t.owner, live - {b})
    requires forall u :: u != b && u != p ==> SameAt(s.ptr, t.ptr, u) && SameAt(s.size, t.size, u)
    ensures Kept(s, t, live - {b})
  {
    forall u | u in s.owner && s.owner[u] in live - {b} ensures u != b && u != p {
      LiveFacts(base, s, live, b);
      if p in s.fl {
        assert FreeBlock(s.size, s.owner, p);
        assert p in s.owner && s.owner[p] == p;
      }
    }
  }

  /** All of free, given the place. */
  lemma FreeAll(base: nat, s: Lists, live: map<nat, nat>, b: nat, p: nat) returns (u: Lists)
    requires Good(base, s, live, 0, 0) && Linked(base, s) && b in live && Place(s.fl, b) <= |s.fl|
             && p == At(base, s.fl, Place(s.fl, b))
    ensures b in s.size && p in s.ptr && s.ptr[p] in s.ptr && s.ptr[p] in s.size && p in s.size && p != b
    ensures var q := s.ptr[p];
      var size1 := if b + s.size[b] == q then s.size[b := s.size[b] + s.size[q]] else s.size;
      var ptr1 := if b + s.size[b] == q then s.ptr[b := s.ptr[q]] else s.ptr[b := q];
      && u.size == (if p + size1[p] == b then size1[p := size1[p] + size1[b]] else size1)
      && u.ptr == (if p + size1[p] == b then ptr1[p := ptr1[b]] else ptr1[p := b])
    ensures Good(base, u, live - {b}, 0, 0) && Linked(base, u) && Fits(u.size, u.fl, live[b])
            && (p == base || p in u.fl) && u.owner.Keys == s.owner.Keys
    ensures Kept(s, u, live - {b})
  {
    hide Good, Fits, Place, Linked, OwnerKept;
    LinkedAt(base, s, Place(s.fl, b));
    var t := FreeUp(base, s, live, b);
    LinkedAt(base, t, Place(s.fl, b));
    u := FreeDown(base, t, live - {b}, Place(s.fl, b), live[b]);
    OwnerKeptTrans(s.owner, t.owner, u.owner, live - {b});
    HeadersOnly(base, s, live, b, p, u);
  }

  lemma LinkedAt(base: nat, s: Lists, j: nat)
    requires Linked(base, s) && j <= |s.fl|
    ensures At(base, s.fl, j) in s.ptr && At(base, s.fl, j) in s.size && (At(base, s.fl, j) == base
            || At(base, s.fl, j) in s.fl)
    ensures j < |s.fl| ==> s.fl[j] in s.ptr && s.fl[j] in s.size
  {
  }

  lemma LiveBelow(base: nat, s: Lists, live: map<nat, nat>, b: nat)
    requires Good(base, s, live, 0, 0) && b in live
    ensures Place(s.fl, b) <= |s.fl|
  {
    LiveFacts(base, s, live, b);
    PlaceSplits(base, s.fl, b);
  }

  lemma Stops(base: nat, s: Lists, live: map<nat, nat>, b: nat, i: nat)
    requires Good(base, s, live, 0, 0) && b in live && i <= |s.fl|
    ensures var p, q := At(base, s.fl, i), At(base, s.fl, Succ(s.fl, i));
            (Between(b, p, q) || AtWrap(b, p, q)) <==> i == Place(s.fl, b)
  {
    LiveFacts(base, s, live, b);
    StopsAtPlace(base, s.fl, b, i);
  }

  ghost function Position(base: nat, fl: seq<nat>, x: nat): (i: nat)
    requires x == base || x in fl
    ensures i <= |fl| && At(base, fl, i) == x
  {
    if x == base then 0 else
      var k :| 0 <= k < |fl| && fl[k] == x;
      k + 1
  }

  lemma NewRegion(base: nat, s: Lists, live: map<nat, nat>, b: nat, n: nat, arena: set<nat>)
    requires Good(base, s, live, 0, 0) && Linked(base, s) && n > 0 && b > base && s.owner.Keys == arena
             && forall u :: u in arena ==> u < b
    ensures b !in live && live[b := n] - {b} == live && b !in s.owner && (forall u :: u in s.owner ==> s.owner[u] != b)
    ensures var t := Lists(s.ptr, s.size[b := n], s.fl, s.owner + Region(b, n));
            Good(base, t, live[b := n], 0, 0) && Linked(base, t) && Kept(s, t, live)
    ensures (s.owner + Region(b, n)).Keys == arena + Region(b, n).Keys && forall u :: u in arena + Region(b, n).Keys ==>
              u < b + n
  {
    hide Heap, Region, GapsExcept, Kept;
    AddRegion(base, s.ptr, s.size, s.fl, live, s.owner, b, n);
    RegionOwner(base, s, live, b);
    RegionGaps(s.size, s.fl, b, n);
    RegionKept(s, live, b, n);
  }

  lemma RegionOwner(base: nat, s: Lists, live: map<nat, nat>, b: nat)
    requires Heap(base, s.ptr, s.size, s.fl, live, s.owner) && forall u :: u in s.owner ==> u < b
    ensures forall u :: u in s.owner ==> s.owner[u] != b
  {
    forall u | u in s.owner ensures s.owner[u] != b {
      assert Within(s.size, s.fl, live, s.owner, u);
    }
  }

  lemma RegionGaps(size: map<nat, nat>, fl: seq<nat>, b: nat, n: nat)
    requires GapsExcept(size, fl, 0, 0) && b !in fl
    ensures GapsExcept(size[b := n], fl, 0, 0)
  {
    var size' := size[b := n];
    forall i | 0 <= i < |fl| - 1 ensures Apart(size', fl, i) {
      assert Apart(size, fl, i);
    }
  }

  lemma RegionKept(s: Lists, live: map<nat, nat>, b: nat, n: nat)
    requires forall u :: u in s.owner ==> u < b
    ensures Kept(s, Lists(s.ptr, s.size[b := n], s.fl, s.owner + Region(b, n)), live)
  {
  }

  lemma FitsLess(size: map<nat, nat>, fl: seq<nat>, m: nat, n: nat)
    requires Fits(size, fl, m) && n <= m
    ensures Fits(size, fl, n)
  {
  }

  lemma TakeAll(base: nat, s: Lists, live: map<nat, nat>, i: nat)
    requires Good(base, s, live, 0, 0) && Linked(base, s) && i < |s.fl|
    ensures var p := At(base, s.fl, i); var b := s.fl[i];
      && b !in live && (p == base || p in Without(s.fl, i))
      && var t := Lists(s.ptr[p := s.ptr[b]], s.size, Without(s.fl, i), s.owner);
      Good(base, t, live[b := s.size[b]], 0, 0) && Linked(base, t)
      && Kept(s, t, live)
  {
    Unlink(base, s.ptr, s.size, s.fl, live, s.owner, i);
    UnlinkGaps(base, s.size, s.fl, live, s.owner, i);
  }

  /** The upper n units of free block i. */
  ghost function Upper(base: nat, s: Lists, i: nat, n: nat): (b: nat)
    requires Linked(base, s) && i < |s.fl| && n < s.size[s.fl[i]]
    ensures b > s.fl[i]
  {
    s.fl[i] + s.size[s.fl[i]] - n
  }

  ghost function TakenPart(base: nat, s: Lists, i: nat, n: nat): Lists
    requires Linked(base, s) && i < |s.fl| && n < s.size[s.fl[i]]
  {
    var p, b := s.fl[i], Upper(base, s, i, n);
    Lists(s.ptr, s.size[p := s.size[p] - n][b := n], s.fl, Carved(s.owner, b, n))
  }

  lemma TakePart(base: nat, s: Lists, live: map<nat, nat>, i: nat, n: nat)
    requires Linked(base, s) && i < |s.fl| && 0 < n < s.size[s.fl[i]] && Good(base, s, live, 0, 0)
    ensures Upper(base, s, i, n) !in live && Good(base, TakenPart(base, s, i, n), live[Upper(base, s, i, n) := n], 0, 0)
    ensures Linked(base, TakenPart(base, s, i, n)) && Kept(s, TakenPart(base, s, i, n), live)
            && TakenPart(base, s, i, n).owner.Keys == s.owner.Keys
  {
    hide Ring, Sorted, Blocks, GapsExcept, Linked, Kept;
    LinkedAt(base, s, i);
    CarveLinked(base, s, i, n);
    CarveKept(base, s, live, i, n);
    Split(base, s.ptr, s.size, s.fl, live, s.owner, i, n);
    SplitBlocks(s.size, s.fl, live, s.owner, i, n);
    SplitGaps(base, s.size, s.fl, live, s.owner, i, n);
  }

  lemma CarveLinked(base: nat, s: Lists, i: nat, n: nat)
    requires Linked(base, s) && i < |s.fl| && 0 < n < s.size[s.fl[i]]
    ensures Linked(base, TakenPart(base, s, i, n))
  {
  }

  lemma CarveKept(base: nat, s: Lists, live: map<nat, nat>, i: nat, n: nat)
    requires Linked(base, s) && i < |s.fl| && 0 < n < s.size[s.fl[i]] && Blocks(s.size, s.fl, live, s.owner)
    ensures Kept(s, TakenPart(base, s, i, n), live)
  {
    hide Blocks, Linked;
    LinkedAt(base, s, i);
    NotOfLive(s.size, s.fl, live, s.owner, i);
  }

  lemma NotOfLive(size: map<nat, nat>, fl: seq<nat>, live: map<nat, nat>, owner: map<nat, nat>, i: nat)
    requires Blocks(size, fl, live, owner) && i < |fl| && fl[i] in size
    ensures forall u :: u in owner && owner[u] in live ==> !(fl[i] <= u < fl[i] + size[fl[i]])
    ensures size[fl[i]] > 0
  {
    assert FreeBlock(size, owner, fl[i]) && fl[i] !in live;
  }

  lemma EmptyRing(base: nat)
    ensures Good(base, Lists(map[base := base], map[base := 0], [], map[]), map[], 0, 0)
            && Linked(base, Lists(map[base := base], map[base := 0], [], map[]))
  {
  }

  lemma KeptSelf(s: Lists, keep: map<nat, nat>)
    ensures Kept(s, s, keep)
  {
  }

  lemma KeptNone(s: Lists, t: Lists)
    requires s.owner == map[]
    ensures Kept(s, t, map[])
  {
  }

  lemma NothingFits(size: map<nat, nat>, n: nat)
    ensures !Fits(size, [], n)
  {
  }

  lemma LinkedHas(base: nat, s: Lists, x: nat)
    requires Linked(base, s) && (x == base || x in s.fl)
    ensures x in s.ptr && x in s.size
  {
  }

  lemma StartSearch(base: nat, s: Lists, live: map<nat, nat>, f: nat, n: nat)
    requires Good(base, s, live, 0, 0) && Linked(base, s) && f <= |s.fl|
    ensures At(base, s.fl, f) in s.ptr && Rot(|s.fl| + 1, f, -1) == f && TooSmall(base, s.size, s.fl, f, 0, n)
    ensures var p := At(base, s.fl, Rot(|s.fl| + 1, f, 0)); s.ptr[At(base, s.fl, f)] == p && p in s.ptr && p in s.size
  {
    NextOf(base, s, live, f);
  }

  /** One block passed: it is freep exactly when it is the last. */
  lemma PassOne(base: nat, s: Lists, live: map<nat, nat>, f: nat, k: nat, n: nat)
    requires Good(base, s, live, 0, 0) && Linked(base, s) && f <= |s.fl| && k <= |s.fl|
             && TooSmall(base, s.size, s.fl, f, k, n)
    requires var p := At(base, s.fl, Rot(|s.fl| + 1, f, k)); p in s.size && s.size[p] < n
    ensures TooSmall(base, s.size, s.fl, f, k + 1, n)
    ensures At(base, s.fl, Rot(|s.fl| + 1, f, k)) == At(base, s.fl, f) <==> k == |s.fl|
    ensures k < |s.fl| ==>
              var p, q := At(base, s.fl, Rot(|s.fl| + 1, f, k)), At(base, s.fl, Rot(|s.fl| + 1, f, k + 1));
                  p in s.ptr && s.ptr[p] == q && q in s.ptr && q in s.size
  {
    hide Good, Linked;
    var i := Rot(|s.fl| + 1, f, k);
    assert SmallRank(base, s.size, s.fl, f, k, n);
    Different(base, s, live, i, f);
    LinkedAt(base, s, i);
    NextOf(base, s, live, i);
    LinkedAt(base, s, Succ(s.fl, i));
  }

  lemma Different(base: nat, s: Lists, live: map<nat, nat>, i: nat, j: nat)
    requires Good(base, s, live, 0, 0) && i <= |s.fl| && j <= |s.fl|
    ensures At(base, s.fl, i) == At(base, s.fl, j) <==> i == j
  {
  }

  /** A block that is large enough is not base. */
  lemma FoundAt(base: nat, s: Lists, live: map<nat, nat>, f: nat, k: nat, n: nat) returns (i: nat)
    requires Good(base, s, live, 0, 0) && Linked(base, s) && f <= |s.fl| && k <= |s.fl| && n > 0
    requires var p := At(base, s.fl, Rot(|s.fl| + 1, f, k)); p in s.size && s.size[p] >= n
    ensures i < |s.fl| && s.fl[i] == At(base, s.fl, Rot(|s.fl| + 1, f, k)) && At(base, s.fl, i) == At(base, s.fl,
            Rot(|s.fl| + 1, f, k - 1))
  {
    BaseApart(base, s, live, 0, 0);
    i := Rot(|s.fl| + 1, f, k) - 1;
  }

  // ---------- Conservation ----------

  ghost function Total(m: map<nat, nat>, ks: seq<nat>): nat
    requires forall k :: k in ks ==> k in m
  {
    if ks == [] then 0 else m[ks[0]] + Total(m, ks[1..])
  }

  ghost predicate Listed(ks: seq<nat>) {
    forall i, j :: 0 <= i < j < |ks| ==> ks[i] != ks[j]
  }

  ghost function UnitsIn(owner: map<nat, nat>, ks: seq<nat>): set<nat> {
    set u | u in owner && owner[u] in ks
  }

  ghost predicate Exactly(owner: map<nat, nat>, b: nat, n: nat) {
    Owns(owner, b, n) && forall u :: u in owner && owner[u] == b ==> b <= u < b + n
  }

  lemma {:induction false} RegionSize(b: nat, n: nat)
    ensures |Region(b, n).Keys| == n
  {
    if n > 0 {
      RegionSize(b, n - 1);
      assert Region(b, n).Keys == Region(b, n - 1).Keys + {b + n - 1};
    }
  }

  lemma {:induction false} CountUnits(owner: map<nat, nat>, m: map<nat, nat>, ks: seq<nat>)
    requires Listed(ks) && forall k :: k in ks ==> k in m && Exactly(owner, k, m[k])
    ensures |UnitsIn(owner, ks)| == Total(m, ks)
  {
    if ks != [] {
      hide Exactly, UnitsIn;
      var b := ks[0];
      assert b in ks;
      CountUnits(owner, m, ks[1..]);
      CountOne(owner, b, m[b], ks);
    }
  }

  lemma CountOne(owner: map<nat, nat>, b: nat, n: nat, ks: seq<nat>)
    requires ks != [] && b == ks[0] && b !in ks[1..] && Exactly(owner, b, n)
    ensures |UnitsIn(owner, ks)| == n + |UnitsIn(owner, ks[1..])|
  {
    hide Region;
    RegionSize(b, n);
    assert ks == [b] + ks[1..];
    assert UnitsIn(owner, ks) == Region(b, n).Keys + UnitsIn(owner, ks[1..]);
    assert Region(b, n).Keys !! UnitsIn(owner, ks[1..]);
  }

  /** The units obtained from sbrk are the units of the free blocks and of the live blocks, and no others. */
  lemma UnitsConserved(base: nat, s: Lists, live: map<nat, nat>, ks: seq<nat>)
    requires Good(base, s, live, 0, 0) && Linked(base, s) && Listed(ks) && forall b :: b in live <==> b in ks
    ensures |s.owner.Keys| == Total(s.size, s.fl) + Total(live, ks)
  {
    hide Good, Exactly, Total, UnitsIn, Linked;
    LinkedMaps(base, s);
    FreeExactly(base, s, live);
    LiveExactly(base, s, live);
    CountUnits(s.owner, s.size, s.fl);
    CountUnits(s.owner, live, ks);
    Parted(base, s, live, ks);
  }

  lemma LinkedMaps(base: nat, s: Lists)
    requires Linked(base, s)
    ensures forall x :: x in s.fl ==> x in s.size
  {
  }

  lemma FreeExactly(base: nat, s: Lists, live: map<nat, nat>)
    requires Good(base, s, live, 0, 0)
    ensures Listed(s.fl) && forall b :: b in s.fl ==> b in s.size && Exactly(s.owner, b, s.size[b])
  {
    forall b | b in s.fl ensures b in s.size && Exactly(s.owner, b, s.size[b]) {
      assert FreeBlock(s.size, s.owner, b) && b !in live;
      forall u | u in s.owner && s.owner[u] == b ensures b <= u < b + s.size[b] {
        assert Within(s.size, s.fl, live, s.owner, u);
      }
    }
  }

  lemma LiveExactly(base: nat, s: Lists, live: map<nat, nat>)
    requires Good(base, s, live, 0, 0)
    ensures forall b :: b in live ==> Exactly(s.owner, b, live[b])
  {
    forall b | b in live ensures Exactly(s.owner, b, live[b]) {
      assert LiveBlock(s.size, live, s.owner, b);
      forall u | u in s.owner && s.owner[u] == b ensures b <= u < b + live[b] {
        assert Within(s.size, s.fl, live, s.owner, u);
      }
    }
  }

  lemma Parted(base: nat, s: Lists, live: map<nat, nat>, ks: seq<nat>)
    requires Good(base, s, live, 0, 0) && forall b :: b in live <==> b in ks
    ensures |s.owner.Keys| == |UnitsIn(s.owner, s.fl)| + |UnitsIn(s.owner, ks)|
  {
    forall u | u in s.owner ensures s.owner[u] in s.fl <==> s.owner[u] !in ks {
      assert Within(s.size, s.fl, live, s.owner, u);
    }
    assert s.owner.Keys == UnitsIn(s.owner, s.fl) + UnitsIn(s.owner, ks);
    assert UnitsIn(s.owner, s.fl) !! UnitsIn(s.owner, ks);
  }
}
