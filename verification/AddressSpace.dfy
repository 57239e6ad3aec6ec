/** kernel/vm.c, kernel/kalloc.c, and the users of both in kernel/proc.c and kernel/sysproc.c: the address
    spaces of any number of processes over one pool of pages.  The contents of a page of memory is one value;
    the contents of a table page is its 512 entries. */
module AddressSpace {
  import opened Common
  import opened PageTree
  import opened VmPages

  const TWO64: nat := 0x1_0000_0000_0000_0000

  /** PGROUNDUP(sz) / PGSIZE. */
  function Pages(sz: nat): nat {
    (sz + PGSIZE - 1) / PGSIZE
  }

  /** PGROUNDDOWN(va) / PGSIZE. */
  function PageOf(va: nat): nat {
    va / PGSIZE
  }

  /** The user pages lie below the size, and the size below the trap frame; above it there are only the pages
      of the trap frame and the trampoline. */
  ghost predicate Sized(pm: map<nat, nat>, sz: nat) {
    sz <= TRAPFRAME && forall v :: v in pm ==> v < Pages(sz) || v == TFVPN || v == TFVPN + 1
  }

  ghost predicate AllSized(sz: map<nat, nat>, spaces: map<nat, Space>) {
    forall p :: p in sz ==> p in spaces && Sized(spaces[p].pm, sz[p])
  }

  lemma SizedAt(sz: map<nat, nat>, spaces: map<nat, Space>, p: nat)
    requires AllSized(sz, spaces) && p in sz
    ensures p in spaces && Sized(spaces[p].pm, sz[p])
  {
    hide Sized;
  }

  /** An address space is gone, or has come. */
  lemma AllSizedChange(sz: map<nat, nat>, spaces: map<nat, Space>, spaces': map<nat, Space>, p: nat)
    requires AllSized(sz, spaces) && spaces' - {p} == spaces - {p}
    ensures AllSized(sz - {p}, spaces')
    ensures forall n :: p in spaces' && Sized(spaces'[p].pm, n) ==> AllSized(sz[p := n], spaces')
  {
    hide Sized;
    forall q | q in spaces && q != p ensures q in spaces' && spaces'[q] == spaces[q] {
      assert q in spaces - {p} && q in spaces' - {p};
      assert (spaces' - {p})[q] == spaces'[q] && (spaces - {p})[q] == spaces[q];
    }
  }

  lemma NotSized(sz: map<nat, nat>, spaces: map<nat, Space>, p: nat)
    requires AllSized(sz, spaces) && p !in spaces
    ensures p !in sz
  {
    hide Sized;
  }

  /** The pages held are the trap frames, and no two processes share one. */
  ghost predicate Framed(frame: map<nat, nat>, held: set<nat>) {
    && (forall p :: p in frame ==> frame[p] in held)
    && (forall x :: x in held ==> exists p :: p in frame && frame[p] == x)
    && (forall p, q :: p in frame && q in frame && p != q ==> frame[p] != frame[q])
  }

  lemma FramedAdd(frame: map<nat, nat>, held: set<nat>, p: nat, x: nat)
    requires Framed(frame, held) && p !in frame && x !in held
    ensures Framed(frame[p := x], held + {x})
  {
    var frame' := frame[p := x];
    forall y | y in held + {x} ensures exists q :: q in frame' && frame'[q] == y {
      if y == x {
        assert frame'[p] == y;
      } else {
        var q :| q in frame && frame[q] == y;
        assert frame'[q] == y;
      }
    }
  }

  lemma FramedDrop(frame: map<nat, nat>, held: set<nat>, p: nat)
    requires Framed(frame, held) && p in frame
    ensures Framed(frame - {p}, held - {frame[p]})
  {
    var frame' := frame - {p};
    forall y | y in held - {frame[p]} ensures exists q :: q in frame' && frame'[q] == y {
      var q :| q in frame && frame[q] == y;
      assert frame'[q] == y;
    }
  }

  /** Every process has its trap frame page mapped at TRAPFRAME. */
  ghost predicate Trapped(frame: map<nat, nat>, sz: map<nat, nat>, spaces: map<nat, Space>) {
    && frame.Keys == sz.Keys
    && forall p :: p in frame ==> p in spaces && TrapAt(spaces[p].pm, frame[p])
  }

  ghost predicate TrapAt(pm: map<nat, nat>, x: nat) {
    TFVPN in pm && Ppn(pm[TFVPN]) == x
  }

  /** A change of p's map that leaves the page at TRAPFRAME alone. */
  lemma TrappedStill(frame: map<nat, nat>, sz: map<nat, nat>, s: Vm, s': Vm, p: nat, pm: map<nat, nat>)
    requires Trapped(frame, sz, s.spaces) && Becomes(s, s', p, pm) && SameTrap(s.spaces[p].pm, pm)
    ensures Trapped(frame, sz, s'.spaces)
  {
  }

  ghost predicate SameTrap(pm: map<nat, nat>, pm': map<nat, nat>) {
    TFVPN in pm ==> TFVPN in pm' && pm'[TFVPN] == pm[TFVPN]
  }

  lemma TrappedSize(frame: map<nat, nat>, sz: map<nat, nat>, sz': map<nat, nat>, spaces: map<nat, Space>)
    requires Trapped(frame, sz, spaces) && sz'.Keys == sz.Keys
    ensures Trapped(frame, sz', spaces)
  {
  }

  ghost predicate Rooted(roots: map<nat, nat>, spaces: map<nat, Space>) {
    roots.Keys == spaces.Keys && forall p :: p in spaces ==> ROOT in spaces[p].tab && roots[p] == spaces[p].tab[ROOT]
  }

  lemma RootedTab(roots: map<nat, nat>, spaces: map<nat, Space>, p: nat, key: Key, x: nat)
    requires Rooted(roots, spaces) && p in spaces && key != ROOT
    ensures Rooted(roots, WithTab(spaces, p, key, x))
  {
  }

  lemma RootedPm(roots: map<nat, nat>, spaces: map<nat, Space>, p: nat, pm: map<nat, nat>)
    requires Rooted(roots, spaces) && p in spaces
    ensures Rooted(roots, WithPm(spaces, p, pm))
  {
  }

  lemma RootedAt(roots: map<nat, nat>, spaces: map<nat, Space>, p: nat)
    requires Rooted(roots, spaces) && p in spaces
    ensures p in roots && ROOT in spaces[p].tab && roots[p] == spaces[p].tab[ROOT]
  {
  }

  /** The same maps; p may have more tables. */
  ghost predicate Grew(s: Vm, s': Vm, p: nat) {
    && p in s.spaces && p in s'.spaces && s'.spaces == s.spaces[p := Space(s'.spaces[p].tab, s.spaces[p].pm)]
    && s'.held == s.held && s'.all == s.all
    && (forall key :: key in s.spaces[p].tab ==>
          key in s'.spaces[p].tab && s'.spaces[p].tab[key] == s.spaces[p].tab[key])
    && (forall x :: x in s.use ==> x in s'.use && s'.use[x] == s.use[x])
  }

  lemma GrewSelf(s: Vm, p: nat)
    requires p in s.spaces
    ensures Grew(s, s, p)
  {
  }

  lemma GrewTrans(s: Vm, t: Vm, u: Vm, p: nat)
    requires Grew(s, t, p) && Grew(t, u, p)
    ensures Grew(s, u, p)
  {
  }

  datatype MapResult = Mapped | NoMemory | Remap

  /** The map with n pages from v on going to the pages from x on. */
  ghost function Extended(pm: map<nat, nat>, v: nat, x: nat, n: nat, perm: nat): map<nat, nat>
    requires perm < 1024
  {
    if n == 0 then pm else Extended(pm, v, x, n - 1, perm)[v + n - 1 := MakePte(x + n - 1, perm)]
  }

  /** The map without the n pages from v on. */
  ghost function Cut(pm: map<nat, nat>, v: nat, n: nat): map<nat, nat> {
    if n == 0 then pm else Cut(pm, v, n - 1) - {v + n - 1}
  }

  lemma {:induction false} ExtendedAt(pm: map<nat, nat>, v: nat, x: nat, n: nat, perm: nat, u: nat)
    requires perm < 1024
    ensures v <= u < v + n ==>
              u in Extended(pm, v, x, n, perm) && Extended(pm, v, x, n, perm)[u] == MakePte(x + (u - v), perm)
    ensures !(v <= u < v + n) ==>
              (u in Extended(pm, v, x, n, perm) <==> u in pm) && (u in pm ==> Extended(pm, v, x, n, perm)[u] == pm[u])
  {
    if n > 0 {
      ExtendedAt(pm, v, x, n - 1, perm, u);
    }
  }

  lemma {:induction false} CutAt(pm: map<nat, nat>, v: nat, n: nat, u: nat)
    ensures u in Cut(pm, v, n) <==> u in pm && !(v <= u < v + n)
    ensures u in Cut(pm, v, n) ==> Cut(pm, v, n)[u] == pm[u]
  {
    if n > 0 {
      CutAt(pm, v, n - 1, u);
    }
  }

  class Machine {
    var pool: seq<nat>
    var mem: Mem
    var data: map<nat, nat>
    var roots: map<nat, nat>
    var sz: map<nat, nat>
    var frame: map<nat, nat>
    ghost var spaces: map<nat, Space>
    ghost var use: map<nat, Use>
    ghost var held: set<nat>
    ghost var all: set<nat>
    ghost var misses: nat  // calls of kalloc that have failed

    ghost function S(): Vm
      reads this
    {
      Vm(pool, mem, spaces, use, held, all)
    }

    ghost predicate Inv()
      reads this
    {
      Good(S()) && Rooted(roots, spaces)
    }

    /** Address spaces of processes: the user part is bounded by the size, and every process has a trap frame
        page of its own, mapped where it belongs.  Nobody else holds a page. */
    ghost predicate Valid()
      reads this
    {
      Inv() && AllSized(sz, spaces) && Framed(frame, held) && Trapped(frame, sz, spaces)
    }

    /** kinit, with all the pages on the free list. */
    constructor (pages: seq<nat>)
      requires forall i, j :: 0 <= i < j < |pages| ==> pages[i] != pages[j]
      ensures Valid() && pool == pages && all == (set x | x in pages) && sz == frame == map[] && spaces == map[]
    {
      pool, mem, data, roots, sz, frame := pages, map[], map[], map[], map[], map[];
      spaces, use, held, all := map[], map[], {}, set x | x in pages;
    }

    /** kalloc. */
    method Kalloc() returns (r: Option<nat>)
      requires Inv()
      modifies this`pool, this`held, this`misses
      ensures Inv() && (r.None? <==> old(pool) == [])
      ensures r.None? ==> S() == old(S())
      ensures r.Some? ==>
                old(pool) == [r.value] + pool && held == old(held) + {r.value} && r.value !in old(held)
                && r.value !in use
      ensures misses == old(misses) + if r.None? then 1 else 0
    {
      hide Good;
      if pool == [] {
        misses := misses + 1;
        return None;
      }
      TakePage(S());
      r := Some(pool[0]);
      held := held + {pool[0]};
      pool := pool[1..];
    }

    /** kfree. */
    method Kfree(x: nat)
      requires Inv() && x in held
      modifies this`pool, this`held
      ensures Inv() && pool == [x] + old(pool) && held == old(held) - {x}
    {
      hide Good;
      GivePage(S(), x);
      pool := [x] + pool;
      held := held - {x};
    }

    /** One level of walk: from the table of a level to that of the level below. */
    method WalkDown(p: nat, v: nat, level: nat, table: nat, alloc: bool) returns (r: Option<nat>)
      requires Inv() && p in spaces && v < VPAGES && 0 < level <= 2 && KeyOf(level, v) in spaces[p].tab
               && table == spaces[p].tab[KeyOf(level, v)]
      modifies this`pool, this`mem, this`spaces, this`use, this`held, this`misses
      ensures Inv() && Grew(old(S()), S(), p)
      ensures r.Some? ==> KeyOf(level - 1, v) in spaces[p].tab && r.value == spaces[p].tab[KeyOf(level - 1, v)]
      ensures r.None? ==> spaces == old(spaces) && KeyOf(level - 1, v) !in spaces[p].tab && (alloc ==> pool == [])
      ensures !alloc ==> S() == old(S())
      ensures misses == old(misses) + if alloc && r.None? then 1 else 0
    {
      hide Rooted, Good, KeyOf, Px, Grew, WithTab;
      GrewSelf(S(), p);
      DownFacts(S(), p, v, level);
      var pte := mem[table][Px(level, v)];
      if IsValid(pte) {
        return Some(Ppn(pte));
      }
      if !alloc {
        return None;
      }
      var x := Kalloc();
      if x.None? {
        return None;
      }
      DownHang(S(), p, v, level, x.value);
      KeyParent(level, v);
      mem := mem[x.value := Blank(512)];
      var t: seq<nat> := mem[table];
      mem := mem[table := t[Px(level, v) := MakePte(x.value, 0)]];
      RootedTab(roots, spaces, p, KeyOf(level - 1, v), x.value);
      spaces := WithTab(spaces, p, KeyOf(level - 1, v), x.value);
      use := use[x.value := Table(p, KeyOf(level - 1, v))];
      held := held - {x.value};
      GrewTable(old(S()), S(), p, KeyOf(level - 1, v), x.value);
      HungAt(old(spaces), p, KeyOf(level - 1, v), x.value);
      r := x;
    }

    /** walk: the level-0 table for the page, if it is there or can be made. */
    method Walk(p: nat, v: nat, alloc: bool) returns (r: Option<nat>)
      requires Inv() && p in spaces && v < MAXVPN
      modifies this`pool, this`mem, this`spaces, this`use, this`held, this`misses
      ensures Inv() && Grew(old(S()), S(), p)
      ensures r.Some? ==>
                KeyOf(0, v) in spaces[p].tab && r.value == spaces[p].tab[KeyOf(0, v)] && r.value in mem
                && |mem[r.value]| == 512
      ensures r.Some? ==> mem[r.value][v % 512] == if v in spaces[p].pm then spaces[p].pm[v] else 0
      ensures r.None? ==> KeyOf(0, v) !in spaces[p].tab && v !in spaces[p].pm && (alloc ==> pool == [])
      ensures !alloc ==> S() == old(S())
      ensures misses == old(misses) + if alloc && r.None? then 1 else 0
    {
      hide Rooted, Good, KeyOf, Grew;
      GrewSelf(S(), p);
      KeySteps(2, v);
      RootedAt(roots, spaces, p);
      var table, level := roots[p], 2;
      while level > 0
        invariant 0 <= level <= 2 && Inv() && Grew(old(S()), S(), p) && p in spaces && (!alloc ==> S() == old(S()))
                  && misses == old(misses)
        invariant KeyOf(level, v) in spaces[p].tab && table == spaces[p].tab[KeyOf(level, v)]
      {
        ghost var before := S();
        var next := WalkDown(p, v, level, table, alloc);
        GrewTrans(old(S()), before, S(), p);
        if next.None? {
          MissingAbove(S(), p, v, level - 1);
          return None;
        }
        table := next.value;
        level := level - 1;
      }
      EntryFound(S(), p, v);
      r := Some(table);
    }

    /** The write of an entry for a page not mapped before. */
    method Install(p: nat, v: nat, x: nat, pte: nat, table: nat)
      requires Inv() && p in spaces && v < MAXVPN && KeyOf(0, v) in spaces[p].tab && v !in spaces[p].pm
               && table == spaces[p].tab[KeyOf(0, v)]
      requires IsValid(pte) && IsLeaf(pte) && Ppn(pte) == x && (v < TFVPN ==> x in held)
      modifies this`mem, this`spaces, this`use, this`held
      ensures Inv() && spaces == WithPm(old(spaces), p, old(spaces)[p].pm[v := pte])
      ensures v < TFVPN ==> use == old(use)[x := Memory(p, v)] && held == old(held) - {x}
      ensures v >= TFVPN ==> use == old(use) && held == old(held)
    {
      hide Rooted, Good, KeyOf;
      PageMapped(S(), p, v, x, pte);
      var row: seq<nat> := mem[table];
      mem := mem[table := row[v % 512 := pte]];
      RootedPm(roots, spaces, p, spaces[p].pm[v := pte]);
      spaces := WithPm(spaces, p, spaces[p].pm[v := pte]);
      if v < TFVPN {
        use := use[x := Memory(p, v)];
        held := held - {x};
      }
    }

    /** One page of mappages. */
    method MapOne(p: nat, v: nat, x: nat, perm: nat) returns (r: MapResult)
      requires Inv() && p in spaces && v < MAXVPN && perm < 1024 && perm / 2 % 8 != 0 && (v < TFVPN ==> x in held)
      modifies this`pool, this`mem, this`spaces, this`use, this`held, this`misses
      ensures Inv() && UseKept(old(S()), S())
      ensures r.Remap? <==> v in old(spaces)[p].pm
      ensures r.NoMemory? ==> pool == []
      ensures !r.Mapped? ==> Becomes(old(S()), S(), p, old(spaces)[p].pm) && held == old(held)
      ensures r.Mapped? ==>
                Becomes(old(S()), S(), p, old(spaces)[p].pm[v := MakePte(x, perm)])
                && held == old(held) - (if v < TFVPN then {x} else {})
      ensures misses == old(misses) + if r.NoMemory? then 1 else 0
    {
      hide Rooted, Good, KeyOf, Grew, MakePte, Becomes, UseKept, WithPm;
      var table := Walk(p, v, true);
      ghost var t := S();
      GrewSame(old(S()), t, p);
      if table.None? {
        return NoMemory;
      }
      var pte := mem[table.value][v % 512];
      ValidIff(S(), p, v);
      if IsValid(pte) {
        return Remap;
      }
      PteLeaf(x, perm);
      PteRoundTrip(x, perm);
      Install(p, v, x, MakePte(x, perm), table.value);
      BecomesPm(t, S(), p, t.spaces[p].pm[v := MakePte(x, perm)]);
      BecomesTrans(old(S()), t, S(), p, t.spaces[p].pm, t.spaces[p].pm[v := MakePte(x, perm)]);
      if v < TFVPN {
        NotInMem(t, x);
      }
      UseKeptOne(t, S(), x, Memory(p, v));
      UseKeptTrans(old(S()), t, S());
      r := MapResult.Mapped;
    }

    /** mappages has mapped k pages since state s0. */
    ghost predicate MappedSoFar(p: nat, v: nat, x: nat, k: nat, perm: nat, s0: Vm)
      reads this
    {
      && Inv() && perm < 1024 && p in s0.spaces && Becomes(s0, S(), p, Extended(s0.spaces[p].pm, v, x, k, perm))
      && UseKept(s0, S()) && held == s0.held - Span(x, Users(v, k))
    }

    method MapRound(p: nat, v: nat, x: nat, k: nat, n: nat, perm: nat, ghost s0: Vm) returns (r: MapResult)
      requires MappedSoFar(p, v, x, k, perm, s0) && perm / 2 % 8 != 0 && k < n && v + n <= MAXVPN
               && Span(x, Users(v, n)) <= s0.held
      modifies this`pool, this`mem, this`spaces, this`use, this`held, this`misses
      ensures MappedSoFar(p, v, x, if r.Mapped? then k + 1 else k, perm, s0)
      ensures r.Remap? <==> v + k in s0.spaces[p].pm
      ensures r.NoMemory? ==> pool == []
      ensures misses == old(misses) + if r.NoMemory? then 1 else 0
    {
      hide Rooted, Good, Becomes, UseKept, Extended, Span, Users;
      ghost var pm, before := s0.spaces[p].pm, S();
      BecomesAt(s0, before, p, Extended(pm, v, x, k, perm));
      ExtendedAt(pm, v, x, k, perm, v + k);
      SpanStep(x, v, k);
      SpanIn(x, v, k, n);
      r := MapOne(p, v + k, x + k, perm);
      UseKeptTrans(s0, before, S());
      ExtendedStep(pm, v, x, k, perm);
      BecomesTrans(s0, before, S(), p, Extended(pm, v, x, k, perm), Extended(pm, v, x, if r.Mapped? then k + 1 else k,
          perm));
    }

    /** mappages: n pages from v on go to the pages from x on.  It can stop short for want of memory for a
        table, after k of them, or at a page that is mapped already. */
    method MapPages(p: nat, v: nat, x: nat, n: nat, perm: nat) returns (r: MapResult, ghost k: nat)
      requires Inv() && p in spaces && n > 0 && v + n <= MAXVPN && perm < 1024 && perm / 2 % 8 != 0
               && Span(x, Users(v, n)) <= held
      modifies this`pool, this`mem, this`spaces, this`use, this`held, this`misses
      ensures MappedSoFar(p, v, x, k, perm, old(S())) && k <= n && (r.Mapped? <==> k == n)
      ensures r.Remap? ==> v + k in old(spaces)[p].pm
      ensures forall u :: v <= u < v + k ==> u !in old(spaces)[p].pm
      ensures r.NoMemory? ==> pool == [] && v + k !in old(spaces)[p].pm
      ensures misses == old(misses) + if r.NoMemory? then 1 else 0
    {
      hide Rooted, Good, Becomes, UseKept, Extended, Span;
      BecomesSelf(S(), p);
      ExtendedNone(spaces[p].pm, v, x, perm);
      SpanNone(x);
      k := 0;
      var i := 0;
      while i < n
        invariant i == k <= n && MappedSoFar(p, v, x, k, perm, old(S())) && misses == old(misses)
        invariant forall u :: v <= u < v + i ==> u !in old(spaces)[p].pm
      {
        r := MapRound(p, v, x, i, n, perm, old(S()));
        if !r.Mapped? {
          return;
        }
        i, k := i + 1, k + 1;
      }
      r := MapResult.Mapped;
    }

    /** One page of uvmunmap. */
    method UnmapOne(p: nat, v: nat, free: bool)
      requires Inv() && p in spaces && v < MAXVPN && (free <==> v < TFVPN)
      modifies this`pool, this`mem, this`spaces, this`use, this`held, this`misses
      ensures Inv() && Becomes(old(S()), S(), p, old(spaces)[p].pm - {v}) && held == old(held)
      ensures misses == old(misses)
    {
      hide Rooted, Good, KeyOf, Becomes;
      BecomesSelf(S(), p);
      var table := Walk(p, v, false);
      ValidIff(S(), p, v);
      if table.None? || !IsValid(mem[table.value][v % 512]) {
        assert spaces[p].pm - {v} == spaces[p].pm;
        return;
      }
      ghost var s := S();
      PageUnmapped(s, p, v);
      var x := Ppn(mem[table.value][v % 512]);
      if free {
        pool := [x] + pool;
        use := use - {x};
      }
      var row: seq<nat> := mem[table.value];
      mem := mem[table.value := row[v % 512 := 0]];
      RootedPm(roots, spaces, p, spaces[p].pm - {v});
      spaces := WithPm(spaces, p, spaces[p].pm - {v});
      BecomesPm(s, S(), p, s.spaces[p].pm - {v});
    }

    /** uvmunmap: exactly the n pages from v on are gone, mapped or not before; with `free`, their memory is
        back on the free list. */
    method UvmUnmap(p: nat, v: nat, n: nat, free: bool)
      requires Inv() && p in spaces && v + n <= MAXVPN && (if free then v + n <= TFVPN else v >= TFVPN)
      modifies this`pool, this`mem, this`spaces, this`use, this`held, this`misses
      ensures Inv() && Becomes(old(S()), S(), p, Cut(old(spaces)[p].pm, v, n)) && held == old(held)
      ensures misses == old(misses)
    {
      hide Rooted, Good, Becomes, Cut;
      BecomesSelf(S(), p);
      ghost var pm := spaces[p].pm;
      CutNone(pm, v);
      var i := 0;
      while i < n
        invariant i <= n && Inv() && p in spaces && Becomes(old(S()), S(), p, Cut(pm, v, i)) && held == old(held)
                  && misses == old(misses)
      {
        ghost var before := S();
        BecomesAt(old(S()), before, p, Cut(pm, v, i));
        UnmapOne(p, v + i, free);
        CutStep(pm, v, i);
        BecomesTrans(old(S()), before, S(), p, Cut(pm, v, i), Cut(pm, v, i + 1));
        i := i + 1;
      }
    }

    /** Allocate a page, fill it, and map it: the common part of uvmalloc, uvmcopy and vmfault.  If a table
        cannot be had the page is given back. */
    method AddPage(p: nat, v: nat, contents: nat, perm: nat) returns (r: Option<nat>)
      requires Inv() && p in spaces && v < TFVPN && v !in spaces[p].pm && perm < 1024 && perm / 2 % 8 != 0
      modifies this`pool, this`mem, this`spaces, this`use, this`held, this`misses, this`data
      ensures Inv() && held == old(held) && UseKept(old(S()), S()) && DataKept(old(use), old(data), data)
      ensures r.None? ==> Becomes(old(S()), S(), p, old(spaces)[p].pm)
      ensures r.Some? ==>
                Becomes(old(S()), S(), p, old(spaces)[p].pm[v := MakePte(r.value, perm)]) && r.value in data
                && data[r.value] == contents && r.value !in old(use)
      ensures misses == old(misses) + if r.None? then 1 else 0
    {
      hide Rooted, Good, Becomes, UseKept, Extended, DataKept, MakePte;
      BecomesSelf(S(), p);
      DataKeptSelf(use, data);
      var x := Kalloc();
      if x.None? {
        return None;
      }
      DataKeptOne(use, data, x.value, contents);
      data := data[x.value := contents];
      ghost var t := S();
      BecomesHeld(old(S()), t, p);
      SpanOne(x.value, v);
      var m;
      ghost var k;
      m, k := MapPages(p, v, x.value, 1, perm);
      MappedOne(t, S(), p, v, x.value, k, perm);
      BecomesTrans(old(S()), t, S(), p, old(spaces)[p].pm, if m.Mapped? then old(spaces)[p].pm[v := MakePte(x.value,
          perm)] else old(spaces)[p].pm);
      UseKeptTrans(old(S()), t, S());
      if !m.Mapped? {
        ghost var u := S();
        Kfree(x.value);
        BecomesHeld(u, S(), p);
        BecomesTrans(old(S()), u, S(), p, old(spaces)[p].pm, old(spaces)[p].pm);
        UseKeptTrans(old(S()), u, S());
        return None;
      }
      r := x;
    }

    /** uvmdealloc: the pages from the new size up to the old are gone. */
    method UvmDealloc(p: nat, oldsz: nat, newsz: nat) returns (r: nat)
      requires Inv() && p in spaces && Pages(oldsz) <= TFVPN
      modifies this`pool, this`mem, this`spaces, this`use, this`held, this`misses
      ensures Inv() && held == old(held) && r == if newsz < oldsz then newsz else oldsz
      ensures Becomes(old(S()), S(), p, Cut(old(spaces)[p].pm, Pages(newsz),
              if Pages(newsz) < Pages(oldsz) then Pages(oldsz) - Pages(newsz) else 0))
      ensures misses == old(misses)
    {
      hide Rooted, Good, Becomes, Cut;
      BecomesSelf(S(), p);
      CutNone(spaces[p].pm, Pages(newsz));
      if newsz >= oldsz {
        return oldsz;
      }
      if Pages(newsz) < Pages(oldsz) {
        UvmUnmap(p, Pages(newsz), Pages(oldsz) - Pages(newsz), true);
      }
      r := newsz;
    }

    /** uvmalloc has come to page v. */
    ghost predicate Allocating(p: nat, lo: nat, v: nat, perm: nat, s0: Vm, data0: map<nat, nat>)
      reads this
    {
      && Inv() && held == s0.held && p in s0.spaces && p in spaces && Becomes(s0, S(), p, spaces[p].pm)
          && UseKept(s0, S()) && DataKept(s0.use, data0, data)
      && FreshPages(s0.spaces[p].pm, spaces[p].pm, lo, v, data, perm)
    }

    /** One page of uvmalloc. */
    method AllocRound(p: nat, lo: nat, v: nat, perm: nat, ghost s0: Vm, ghost data0: map<nat, nat>, ghost oldsz: nat)
          returns (ok: bool)
      requires Allocating(p, lo, v, perm, s0, data0) && lo == Pages(oldsz) <= v < TFVPN && Sized(s0.spaces[p].pm, oldsz)
      requires perm < 1023 && perm / 2 % 8 != 0 && perm % 2 == 0
      modifies this`pool, this`mem, this`spaces, this`use, this`held, this`misses, this`data
      ensures Allocating(p, lo, if ok then v + 1 else v, perm, s0, data0)
      ensures misses == old(misses) + if ok then 0 else 1
    {
      hide Rooted, Good, Becomes, UseKept, DataKept, FreshPages, Sized, MakePte;
      ghost var before, data1, pm := S(), data, s0.spaces[p].pm;
      FreshAbove(pm, spaces[p].pm, lo, v, data, perm, oldsz);
      var x := AddPage(p, v, 0, perm);
      UseKeptTrans(s0, before, S());
      DataKeptTrans(s0, before, data0, data1, data);
      if x.None? {
        BecomesAt(before, S(), p, before.spaces[p].pm);
        FreshStill(before, pm, lo, v, data1, data, perm, p);
      } else {
        BecomesAt(before, S(), p, before.spaces[p].pm[v := MakePte(x.value, perm)]);
        FreshMore(before, pm, lo, v, data1, data, perm, x.value, p);
      }
      BecomesLast(s0, before, S(), p);
      ok := x.Some?;
    }

    /** uvmalloc: every page between the sizes is there, new and zero; or, if memory runs out, the map is as it
        was.  No page is mapped twice. */
    method UvmAlloc(p: nat, oldsz: nat, newsz: nat, xperm: nat) returns (r: nat)
      requires Inv() && p in spaces && Sized(spaces[p].pm, oldsz) && newsz <= TRAPFRAME
      requires xperm == 0 || xperm == PTE_W || xperm == PTE_X || xperm == PTE_W + PTE_X
      modifies this`pool, this`mem, this`spaces, this`use, this`held, this`misses, this`data
      ensures Inv() && held == old(held) && (newsz >= oldsz ==> r == 0 || r == newsz)
      ensures newsz < oldsz ==> r == oldsz && S() == old(S())
      ensures oldsz <= newsz == r && newsz > 0 ==>
                Allocating(p, Pages(oldsz), Pages(newsz), PTE_R + PTE_U + xperm, old(S()), old(data))
      ensures oldsz <= newsz && r == 0 ==> Becomes(old(S()), S(), p, old(spaces)[p].pm)
      ensures misses == old(misses) + if oldsz <= newsz && r != newsz then 1 else 0
      ensures DataKept(old(use), old(data), data)
    {
      hide Rooted, Good, Becomes, UseKept, DataKept, FreshPages, Sized, Cut;
      BecomesSelf(S(), p);
      DataKeptSelf(use, data);
      if newsz < oldsz {
        return oldsz;
      }
      var lo := Pages(oldsz);
      PagesFit(oldsz, newsz);
      FreshNone(spaces[p].pm, lo, data, PTE_R + PTE_U + xperm);
      var v := lo;
      while v * PGSIZE < newsz
        invariant lo <= v <= Pages(newsz) && misses == old(misses) && Allocating(p, lo, v, PTE_R + PTE_U + xperm,
                  old(S()), old(data))
      {
        PagesBelow(v, newsz);
        var ok := AllocRound(p, lo, v, PTE_R + PTE_U + xperm, old(S()), old(data), oldsz);
        if !ok {
          CutFresh(old(spaces)[p].pm, spaces[p].pm, lo, v, data, PTE_R + PTE_U + xperm, oldsz);
          PagesWhole(v);
          PagesWhole(lo);
          ghost var mid := S();
          var d := UvmDealloc(p, v * PGSIZE, lo * PGSIZE);
          BecomesTrans(old(S()), mid, S(), p, mid.spaces[p].pm, old(spaces)[p].pm);
          return 0;
        }
        v := v + 1;
      }
      PagesDone(v, newsz);
      r := newsz;
      NothingNew(old(S()), S(), p, lo, v, data, PTE_R + PTE_U + xperm);
    }

    /** vmfault: the page of va, below the size and not mapped, comes in zeroed, with R, W and U (22). */
    method VmFault(p: nat, va: nat) returns (r: Option<nat>)
      requires Valid() && p in sz && p in spaces
      modifies this`pool, this`mem, this`spaces, this`use, this`held, this`misses, this`data
      ensures Valid() && DataKept(old(use), old(data), data)
      ensures r.Some? <==> va < sz[p] && PageOf(va) !in old(spaces)[p].pm && misses == old(misses)
      ensures if r.Some? then Faulted(old(S()), S(), p, va, sz[p], r.value, data) else SameMap(old(S()), S(), p)
      ensures misses == old(misses) + if r.None? && va < sz[p] && PageOf(va) !in old(spaces)[p].pm then 1 else 0
    {
      hide AllSized, Good, Rooted, Becomes, DataKept, Sized, UseKept, MakePte, PageOf, Framed, Trapped;
      SizedAt(sz, spaces, p);
      BecomesSelf(S(), p);
      DataKeptSelf(use, data);
      if va >= sz[p] {
        return None;
      }
      SizedBelow(spaces[p].pm, sz[p], va);
      var table := Walk(p, PageOf(va), false);
      ValidIff(S(), p, PageOf(va));
      if table.Some? && IsValid(mem[table.value][PageOf(va) % 512]) {
        return None;
      }
      ghost var before := spaces;
      r := AddPage(p, PageOf(va), 0, 22);
      SizedStill(old(S()), S(), sz, p, PageOf(va), if r.Some? then MakePte(r.value, 22) else 0);
      TrappedStill(frame, sz, old(S()), S(), p, if r.Some? then old(spaces)[p].pm[PageOf(va) := MakePte(r.value, 22)]
          else old(spaces)[p].pm);
    }

    /** growproc. */
    method GrowProc(p: nat, n: int) returns (ok: bool)
      requires Valid() && p in sz && -0x8000_0000 <= n < 0x8000_0000
      modifies this`pool, this`mem, this`spaces, this`use, this`held, this`misses, this`data, this`sz
      ensures Valid() && sz.Keys == old(sz).Keys && (forall q :: q in sz && q != p ==> sz[q] == old(sz)[q])
              && p in old(spaces) && p in spaces
      ensures ok <==> n <= 0 || (old(sz)[p] + n <= TRAPFRAME && misses == old(misses))
      ensures !ok ==> sz == old(sz) && Becomes(old(S()), S(), p, old(spaces)[p].pm)
      ensures ok ==>
                sz[p] == (if old(sz)[p] + n >= 0 then old(sz)[p] + n else old(sz)[p])
                && Becomes(old(S()), S(), p, spaces[p].pm)
      ensures ok && n > 0 ==> Allocating(p, Pages(old(sz)[p]), Pages(sz[p]), PTE_R + PTE_U + PTE_W, old(S()), old(data))
      ensures ok && n < 0 && old(sz)[p] + n >= 0 ==>
                spaces[p].pm == Cut(old(spaces)[p].pm, Pages(sz[p]), Pages(old(sz)[p]) - Pages(sz[p]))
      ensures misses == old(misses) + if !ok && old(sz)[p] + n <= TRAPFRAME then 1 else 0
      ensures DataKept(old(use), old(data), data)
    {
      hide AllSized, Good, Rooted, Becomes, DataKept, Sized, UseKept, FreshPages, Cut, Wrap64, Pages, Framed, Trapped,
           SameTrap;
      SizedAt(sz, spaces, p);
      BecomesSelf(S(), p);
      DataKeptSelf(use, data);
      var size := sz[p];
      SizedLimit(spaces[p].pm, size);
      if n > 0 {
        if size + n > TRAPFRAME {
          return false;
        }
        var r := UvmAlloc(p, size, size + n, PTE_W);
        if r == 0 {
          OthersSized(old(S()), S(), sz, p, old(spaces)[p].pm, sz[p]);
          assert sz[p := sz[p]] == sz;
          BecomesAt(old(S()), S(), p, old(spaces)[p].pm);
          TrappedStill(frame, sz, old(S()), S(), p, old(spaces)[p].pm);
          return false;
        }
        GrownSized(old(spaces)[p].pm, spaces[p].pm, size, size + n, data, PTE_R + PTE_U + PTE_W);
        OthersSized(old(S()), S(), sz, p, spaces[p].pm, r);
        PagesFit(size, size + n);
        GrownTrap(old(spaces)[p].pm, spaces[p].pm, Pages(size), Pages(size + n), data, PTE_R + PTE_U + PTE_W);
        TrappedStill(frame, sz, old(S()), S(), p, spaces[p].pm);
        TrappedSize(frame, sz, sz[p := r], spaces);
        sz := sz[p := r];
      } else if n < 0 {
        var target := Wrap64(size + n);
        WrapCases(size, n);
        PagesOrder(size, target);
        CutNone(spaces[p].pm, Pages(target));
        var r := UvmDealloc(p, size, target);
        BecomesAt(old(S()), S(), p, Cut(old(spaces)[p].pm, Pages(target),
            if Pages(target) < Pages(size) then Pages(size) - Pages(target) else 0));
        ShrunkSized(old(spaces)[p].pm, size, target);
        OthersSized(old(S()), S(), sz, p, spaces[p].pm, r);
        ShrunkTrap(old(spaces)[p].pm, Pages(target), if Pages(target) < Pages(size) then Pages(size) - Pages(target)
            else 0);
        TrappedStill(frame, sz, old(S()), S(), p, spaces[p].pm);
        TrappedSize(frame, sz, sz[p := r], spaces);
        sz := sz[p := r];
      }
      ok := true;
    }

    /** sys_sbrk: the old size, or -1.  Lazily, only the size changes. */
    method SysSbrk(p: nat, n: int, eager: bool) returns (r: int)
      requires Valid() && p in sz && -0x8000_0000 <= n < 0x8000_0000
      modifies this`pool, this`mem, this`spaces, this`use, this`held, this`misses, this`data, this`sz
      ensures Valid() && sz.Keys == old(sz).Keys && (forall q :: q in sz && q != p ==> sz[q] == old(sz)[q])
              && (r == -1 || r == old(sz)[p])
      ensures r == -1 <==> n > 0 && (old(sz)[p] + n > TRAPFRAME || misses > old(misses))
      ensures r == -1 ==> sz == old(sz) && p in old(spaces) && Becomes(old(S()), S(), p, old(spaces)[p].pm)
      ensures r != -1 ==> sz[p] == (if old(sz)[p] + n >= 0 then old(sz)[p] + n else old(sz)[p])
      ensures r != -1 && eager && n > 0 ==>
                Allocating(p, Pages(old(sz)[p]), Pages(sz[p]), PTE_R + PTE_U + PTE_W, old(S()), old(data))
      ensures r != -1 && n < 0 && old(sz)[p] + n >= 0 ==>
                p in old(spaces) && Becomes(old(S()), S(), p, Cut(old(spaces)[p].pm, Pages(sz[p]),
                Pages(old(sz)[p]) - Pages(sz[p])))
      ensures !eager && n >= 0 ==> S() == old(S())
      ensures misses == old(misses) + if eager && r == -1 && old(sz)[p] + n <= TRAPFRAME then 1 else 0
      ensures DataKept(old(use), old(data), data)
    {
      hide AllSized, Good, Rooted, Becomes, Sized, FreshPages, Cut, Framed, Trapped;
      SizedAt(sz, spaces, p);
      BecomesSelf(S(), p);
      DataKeptSelf(use, data);
      var addr := sz[p];
      if eager || n < 0 {
        var ok := GrowProc(p, n);
        if !ok {
          return -1;
        }
      } else {
        SizedLimit(spaces[p].pm, addr);
        if Wrap64(addr + n) < addr {
          return -1;
        }
        if addr + n > TRAPFRAME {
          return -1;
        }
        SizedMore(spaces[p].pm, addr, addr + n);
        AllSizedChange(sz, spaces, spaces, p);
        TrappedSize(frame, sz, sz[p := sz[p] + n], spaces);
        sz := sz[p := sz[p] + n];
      }
      r := addr;
    }

    /** uvmcopy from p to c has come to page i. */
    ghost predicate Copying(p: nat, c: nat, i: nat, s0: Vm, data0: map<nat, nat>)
      reads this
    {
      && Good(s0) && Inv() && held == s0.held && p != c && p in s0.spaces && c in s0.spaces && c in spaces
          && p in spaces && spaces[p].pm == s0.spaces[p].pm
      && Becomes(s0, S(), c, spaces[c].pm) && UseKept(s0, S()) && DataKept(s0.use, data0, data)
          && NoUserPages(s0.spaces[c].pm)
      && CopiedTo(s0.spaces[p].pm, s0.spaces[c].pm, spaces[c].pm, i, data0, data)
    }

    method CopyRound(p: nat, c: nat, i: nat, ghost s0: Vm, ghost data0: map<nat, nat>) returns (ok: bool)
      requires Copying(p, c, i, s0, data0) && i < TFVPN
      modifies this`pool, this`mem, this`spaces, this`use, this`held, this`misses, this`data
      ensures Copying(p, c, if ok then i + 1 else i, s0, data0)
      ensures misses == old(misses) + if ok then 0 else 1
    {
      hide Good, Rooted, Becomes, UseKept, DataKept, CopiedTo, MakePte, Ppn, Flags, NoUserPages;
      ghost var pmp, pmc := s0.spaces[p].pm, s0.spaces[c].pm;
      NotYetCopied(pmp, pmc, spaces[c].pm, i, data0, data);
      var table := Walk(p, i, false);
      ValidIff(S(), p, i);
      if table.None? || !IsValid(mem[table.value][i % 512]) {
        CopySkip(pmp, pmc, spaces[c].pm, i, data0, data);
        return true;
      }
      var pte := mem[table.value][i % 512];
      CopyFlags(S(), p, i);
      CopySource(s0, p, i, data0, data);
      ghost var before, data1 := S(), data;
      var x := AddPage(c, i, Content(data, Ppn(pte)), Flags(pte));
      UseKeptTrans(s0, before, S());
      DataKeptTrans(s0, before, data0, data1, data);
      ghost var pm' := if x.Some? then before.spaces[c].pm[i := MakePte(x.value, Flags(pte))] else before.spaces[c].pm;
      BecomesAt(before, S(), c, pm');
      BecomesLast(s0, before, S(), c);
      CopyStill(before, c, pmp, pmc, i, data0, data1, data);
      if x.None? {
        return false;
      }
      CopyMore(pmp, pmc, before.spaces[c].pm, i, data0, data, x.value, pte);
      ok := true;
    }

    /** uvmcopy: the child has the same user pages with the same permissions and contents, on pages of its own;
        or, if memory runs out, no user page at all. */
    method UvmCopy(p: nat, c: nat, size: nat) returns (ok: bool)
      requires Inv() && p in spaces && c in spaces && p != c && size <= TRAPFRAME && NoUserPages(spaces[c].pm)
      modifies this`pool, this`mem, this`spaces, this`use, this`held, this`misses, this`data
      ensures Inv() && held == old(held)
      ensures if ok then Copying(p, c, Pages(size), old(S()), old(data)) else SameMap(old(S()), S(), c)
      ensures misses == old(misses) + if ok then 0 else 1
      ensures DataKept(old(use), old(data), data)
    {
      hide Good, Rooted, Becomes, UseKept, DataKept, CopiedTo, NoUserPages, Cut;
      BecomesSelf(S(), c);
      DataKeptSelf(use, data);
      CopyNone(spaces[p].pm, spaces[c].pm, data);
      PagesFit(0, size);
      var i := 0;
      while i * PGSIZE < size
        invariant 0 <= i <= Pages(size) && misses == old(misses) && Copying(p, c, i, old(S()), old(data))
      {
        PagesBelow(i, size);
        ok := CopyRound(p, c, i, old(S()), old(data));
        if !ok {
          CutCopied(old(spaces)[p].pm, old(spaces)[c].pm, spaces[c].pm, i, old(data), data);
          ghost var mid := S();
          UvmUnmap(c, 0, i, true);
          BecomesTrans(old(S()), mid, S(), c, mid.spaces[c].pm, old(spaces)[c].pm);
          return;
        }
        i := i + 1;
      }
      PagesDone(i, size);
      ok := true;
    }

    /** freewalk of the table `key` of an address space without leaves has come to entry i. */
    ghost predicate FreeingTables(p: nat, key: Key, i: nat, s0: Vm)
      reads this
    {
      && Good(S()) && p in s0.spaces && p in spaces && spaces == s0.spaces[p := spaces[p]] && spaces[p].pm == map[]
          && held == s0.held && all == s0.all
      && key in spaces[p].tab && FewerTables(s0.spaces[p].tab, spaces[p].tab, key) && ChildrenFrom(spaces[p], key, i)
    }

    /** freewalk: the table and all tables below it are back on the free list, and it never finds a leaf.  The
        entry for it in its parent, if it has one, is still to be cleared. */
    method FreeWalk(p: nat, table: nat, ghost key: Key)
      requires Good(S()) && p in spaces && spaces[p].pm == map[] && key in spaces[p].tab && table == spaces[p].tab[key]
      modifies this`pool, this`mem, this`spaces, this`use, this`held
      ensures held == old(held) && all == old(all)
      ensures key == ROOT ==> Good(S()) && spaces == old(spaces) - {p}
      ensures key != ROOT ==> TableFreed(old(S()), S(), p, key)
      decreases key.level
    {
      hide Good, FewerTables, ChildrenFrom, TableFreed, Px;
      FewerSelf(spaces[p].tab, key);
      ChildrenAll(spaces[p], key);
      var i := 0;
      while i < 512
        invariant 0 <= i <= 512 && FreeingTables(p, key, i, old(S())) && spaces[p].tab[key] == table
      {
        EntryOf(S(), p, key, i);
        var pte := mem[table][i];
        if IsValid(pte) && !IsLeaf(pte) {
          var child := Ppn(pte);
          ghost var s := S();
          FreeWalk(p, child, Key(key.level - 1, key.pre * 512 + i));
          ChildFreed(old(S()), s, S(), p, key, i);
          var row: seq<nat> := mem[table];
          mem := mem[table := row[i := 0]];
        } else {
          assert !IsValid(pte);
          ChildrenSkip(spaces[p], key, i);
        }
        i := i + 1;
      }
      ghost var s := S();
      if key == ROOT {
        RootLast(s, p);
      } else {
        TableLast(old(S()), s, p, key);
      }
      mem := mem - {table};
      pool := [table] + pool;
      use := use - {table};
      spaces := if key == ROOT then spaces - {p} else spaces[p := Space(spaces[p].tab - {key}, spaces[p].pm)];
      if key != ROOT {
        IsFreed(old(S()), s, S(), p, key);
      }
    }

    /** uvmcreate. */
    method UvmCreate(p: nat) returns (ok: bool)
      requires Inv() && p !in spaces
      modifies this`pool, this`mem, this`spaces, this`use, this`held, this`misses, this`roots
      ensures Inv() && held == old(held) && (ok <==> old(pool) != [])
      ensures !ok ==> spaces == old(spaces)
      ensures ok ==> p in spaces && spaces[p].pm == map[] && spaces - {p} == old(spaces)
      ensures misses == old(misses) + if ok then 0 else 1
    {
      hide Good, Rooted;
      var x := Kalloc();
      if x.None? {
        return false;
      }
      NewSpace(S(), p, x.value);
      RootedNew(roots, spaces, p, x.value);
      mem := mem[x.value := Blank(512)];
      roots := roots[p := x.value];
      spaces := spaces[p := Space(map[ROOT := x.value], map[])];
      use := use[x.value := Table(p, ROOT)];
      held := held - {x.value};
      ok := true;
    }

    /** mappages of a page that belongs to the kernel. */
    method MapKernel(p: nat, v: nat, x: nat, perm: nat) returns (ok: bool)
      requires Inv() && p in spaces && TFVPN <= v < MAXVPN && v !in spaces[p].pm && perm < 1024 && perm / 2 % 8 != 0
      modifies this`pool, this`mem, this`spaces, this`use, this`held, this`misses
      ensures Inv() && held == old(held) && p in spaces && all == old(all) && spaces - {p} == old(spaces) - {p}
      ensures spaces[p].pm == if ok then old(spaces)[p].pm[v := MakePte(x, perm)] else old(spaces)[p].pm
      ensures misses == old(misses) + if ok then 0 else 1
    {
      hide Good, Rooted, Becomes, MakePte, Extended, UseKept;
      SpanKernel(x, v);
      var m;
      ghost var k;
      m, k := MapPages(p, v, x, 1, perm);
      MappedOne(old(S()), S(), p, v, x, k, perm);
      BecomesAt(old(S()), S(), p, if k == 1 then old(spaces)[p].pm[v := MakePte(x, perm)] else old(spaces)[p].pm);
      ok := m.Mapped?;
    }

    /** proc_pagetable: an address space with the trampoline and the trap frame page and nothing else, or
        nothing if there is not enough memory. */
    method ProcPagetable(p: nat, trampoline: nat, trapframe: nat) returns (ok: bool)
      requires Inv() && p !in spaces
      modifies this`pool, this`mem, this`spaces, this`use, this`held, this`misses, this`roots
      ensures Inv() && held == old(held) && all == old(all)
      ensures !ok ==> spaces == old(spaces)
      ensures ok ==>
                && p in spaces && spaces - {p} == old(spaces)
                && spaces[p].pm == map[TFVPN + 1 := MakePte(trampoline, PTE_R + PTE_X), TFVPN := MakePte(trapframe,
                    PTE_R + PTE_W)]
      ensures misses == old(misses) + if ok then 0 else 1
    {
      hide Good, Rooted, MakePte, Cut, Becomes;
      ok := UvmCreate(p);
      if !ok {
        return;
      }
      ok := MapKernel(p, TFVPN + 1, trampoline, PTE_R + PTE_X);
      if !ok {
        FreeSpace(p);
        return;
      }
      ok := MapKernel(p, TFVPN, trapframe, PTE_R + PTE_W);
      if !ok {
        ghost var s := S();
        UvmUnmap(p, TFVPN + 1, 1, false);
        CutOne(s.spaces[p].pm, TFVPN + 1);
        BecomesAt(s, S(), p, s.spaces[p].pm - {TFVPN + 1});
        FreeSpace(p);
        return;
      }
    }

    /** freewalk from the root of an address space without leaves. */
    method FreeSpace(p: nat)
      requires Inv() && p in spaces && spaces[p].pm == map[]
      modifies this`pool, this`mem, this`spaces, this`use, this`held, this`roots
      ensures Inv() && held == old(held) && all == old(all) && spaces == old(spaces) - {p}
    {
      hide Good, Rooted;
      RootedAt(roots, spaces, p);
      RootedDrop(roots, spaces, p);
      FreeWalk(p, roots[p], ROOT);
      roots := roots - {p};
    }

    /** proc_freepagetable: the address space is gone and every page it used is back on the free list. */
    method ProcFreePagetable(p: nat)
      requires Inv() && AllSized(sz, spaces) && p in sz && p in spaces
      modifies this`pool, this`mem, this`spaces, this`use, this`held, this`misses, this`roots, this`sz
      ensures Inv() && AllSized(sz, spaces) && held == old(held) && all == old(all) && spaces == old(spaces) - {p}
              && sz == old(sz) - {p}
      ensures forall x :: x in old(use) && old(use)[x].p == p ==> x in pool
      ensures misses == old(misses)
    {
      hide AllSized, Good, Rooted, Becomes, Cut, Sized;
      SizedAt(sz, spaces, p);
      ghost var s0 := S();
      SizedLimit(spaces[p].pm, sz[p]);
      UvmUnmap(p, TFVPN + 1, 1, false);
      CutOne(s0.spaces[p].pm, TFVPN + 1);
      BecomesAt(s0, S(), p, s0.spaces[p].pm - {TFVPN + 1});
      ghost var s1 := S();
      UvmUnmap(p, TFVPN, 1, false);
      CutOne(s1.spaces[p].pm, TFVPN);
      BecomesAt(s1, S(), p, s1.spaces[p].pm - {TFVPN});
      ghost var s2 := S();
      UserOnly(s0.spaces[p].pm, sz[p]);
      if sz[p] > 0 {
        UvmUnmap(p, 0, Pages(sz[p]), true);
      } else {
        CutNone(spaces[p].pm, 0);
        BecomesSelf(S(), p);
      }
      BecomesAt(s2, S(), p, Cut(s2.spaces[p].pm, 0, Pages(sz[p])));
      FreeSpace(p);
      AllSizedChange(sz, s0.spaces, spaces, p);
      sz := sz - {p};
      AllBack(s0, S(), p);
    }

    /** The memory part of allocproc: a process with a trap frame page, an address space that maps it, and no user
        pages; or, if kalloc fails at any point, every page is back on the free list. */
    method AllocProc(p: nat, trampoline: nat) returns (ok: bool)
      requires Valid() && p !in spaces
      modifies this`pool, this`mem, this`spaces, this`use, this`held, this`misses, this`roots, this`sz, this`frame
      ensures Valid() && all == old(all)
      ensures !ok ==> spaces == old(spaces) && sz == old(sz) && frame == old(frame) && held == old(held)
      ensures ok ==>
                p in spaces && p in frame && spaces - {p} == old(spaces) && sz == old(sz)[p := 0]
                && frame == old(frame)[p := frame[p]]
      ensures ok ==>
                p !in old(frame) && frame[p] !in old(use) && frame[p] !in old(held) && held == old(held) + {frame[p]}
      ensures ok ==>
                spaces[p].pm == map[TFVPN + 1 := MakePte(trampoline, PTE_R + PTE_X), TFVPN := MakePte(frame[p],
                PTE_R + PTE_W)]
      ensures misses == old(misses) + if ok then 0 else 1
    {
      hide AllSized, Good, Rooted, MakePte, Sized, Framed, Trapped, DataKept, TrapAt;
      NotSized(sz, spaces, p);
      TrappedAt(frame, sz, spaces, p);
      var x := Kalloc();
      if x.None? {
        return false;
      }
      ok := ProcPagetable(p, trampoline, x.value);
      if !ok {
        Kfree(x.value);
        return;
      }
      KernelOnly(spaces[p].pm, MakePte(trampoline, PTE_R + PTE_X), MakePte(x.value, PTE_R + PTE_W));
      AllSizedChange(sz, old(spaces), spaces, p);
      FramedAdd(frame, old(held), p, x.value);
      KernelTrap(spaces[p].pm, MakePte(trampoline, PTE_R + PTE_X), x.value);
      TrappedNew(frame, sz, old(spaces), spaces, p, x.value);
      sz := sz[p := 0];
      frame := frame[p := x.value];
    }

    /** The memory part of freeproc: the trap frame page first, then the address space, whose mapping of it is
        dropped without freeing it again.  Every page of the process is back on the free list. */
    method FreeProc(p: nat)
      requires Valid() && p in sz
      modifies this`pool, this`mem, this`spaces, this`use, this`held, this`misses, this`roots, this`sz, this`frame
      ensures Valid() && all == old(all) && spaces == old(spaces) - {p} && sz == old(sz) - {p}
              && frame == old(frame) - {p} && misses == old(misses)
      ensures p in old(frame) && old(frame)[p] in pool && held == old(held) - {old(frame)[p]}
      ensures forall x :: x in old(use) && old(use)[x].p == p ==> x in pool
    {
      hide AllSized, Good, Rooted, Sized, Framed, Trapped, TrapAt;
      SizedAt(sz, spaces, p);
      TrappedAt(frame, sz, spaces, p);
      FramedAt(frame, held, p);
      FramedDrop(frame, held, p);
      TrappedDrop(frame, sz, spaces, p);
      Kfree(frame[p]);
      ghost var s := S();
      InPool(s, frame[p]);
      ProcFreePagetable(p);
      StillInPool(s, S(), p, frame[p]);
      frame := frame - {p};
    }

    /** The middle of kfork: the user pages are copied to a new process and it gets the size; or kalloc fails and it
        stays without user pages. */
    method CopyInto(p: nat, c: nat) returns (ok: bool)
      requires Valid() && p in sz && c in sz && p != c && c in spaces && sz[c] == 0 && NoUserPages(spaces[c].pm)
      modifies this`pool, this`mem, this`spaces, this`use, this`held, this`misses, this`data, this`sz
      ensures Valid() && all == old(all) && held == old(held) && DataKept(old(use), old(data), data)
      ensures p in spaces && c in spaces && spaces - {c} == old(spaces) - {c}
      ensures !ok ==> sz == old(sz)
      ensures ok ==>
                sz == old(sz)[c := old(sz)[p]] && UserCopy(spaces[p].pm, spaces[c].pm, Pages(sz[p]), old(data), data)
      ensures ok ==> KernelSame(old(spaces)[c].pm, spaces[c].pm)
      ensures misses == old(misses) + if ok then 0 else 1
    {
      hide AllSized, Good, Rooted, Becomes, Sized, NoUserPages, CopiedTo, UserCopy, DataKept, UseKept, Framed, Trapped,
           TrapAt, SameTrap, KernelSame;
      SizedAt(sz, spaces, p);
      SizedAt(sz, spaces, c);
      SizedLimit(spaces[p].pm, sz[p]);
      ok := UvmCopy(p, c, sz[p]);
      if !ok {
        BecomesAt(old(S()), S(), c, old(spaces)[c].pm);
        AllSizedChange(sz, old(spaces), spaces, c);
        assert sz[c := 0] == sz;
        TrapSelf(old(spaces)[c].pm);
        TrappedStill(frame, sz, old(S()), S(), c, old(spaces)[c].pm);
        return;
      }
      BecomesAt(old(S()), S(), c, spaces[c].pm);
      CopySized(spaces[p].pm, old(spaces)[c].pm, spaces[c].pm, sz[p], old(data), data);
      AllSizedChange(sz, old(spaces), spaces, c);
      TrappedStill(frame, sz, old(S()), S(), c, spaces[c].pm);
      TrappedSize(frame, sz, sz[c := sz[p]], spaces);
      sz := sz[c := sz[p]];
    }

    /** The memory part of kfork: the child gets a trap frame page of its own and a copy of the parent's user pages,
        or, if kalloc fails at any point, nothing is left of it and every page it had is back on the free list. */
    method Fork(p: nat, c: nat, trampoline: nat) returns (ok: bool)
      requires Valid() && p in sz && c !in spaces
      modifies this`pool, this`mem, this`spaces, this`use, this`held, this`misses, this`roots, this`data, this`sz,
      this`frame
      ensures Valid() && all == old(all)
      ensures !ok ==> spaces == old(spaces) && sz == old(sz) && frame == old(frame) && held == old(held)
      ensures ok ==>
                p in spaces && p in old(spaces) && c in spaces && spaces - {c} == old(spaces)
                && sz == old(sz)[c := old(sz)[p]]
      ensures ok ==> c in frame && frame == old(frame)[c := frame[c]] && frame[c] !in old(use) && frame[c] !in old(held)
      ensures ok ==> UserCopy(spaces[p].pm, spaces[c].pm, Pages(sz[p]), old(data), data)
      ensures ok ==> TFVPN in spaces[c].pm && spaces[c].pm[TFVPN] == MakePte(frame[c], PTE_R + PTE_W)
      ensures ok ==> TFVPN + 1 in spaces[c].pm && spaces[c].pm[TFVPN + 1] == MakePte(trampoline, PTE_R + PTE_X)
      ensures misses == old(misses) + if ok then 0 else 1
      ensures DataKept(old(use), old(data), data)
    {
      hide AllSized, Good, Rooted, MakePte, Sized, NoUserPages, UserCopy, DataKept, UseKept, Framed, Trapped;
      SizedAt(sz, spaces, p);
      DataKeptSelf(use, data);
      NotSized(sz, spaces, c);
      ok := AllocProc(c, trampoline);
      if !ok {
        return;
      }
      ghost var s1 := S();
      KernelOnly(spaces[c].pm, MakePte(trampoline, PTE_R + PTE_X), MakePte(frame[c], PTE_R + PTE_W));
      ok := CopyInto(p, c);
      UseStill(old(S()), s1, c);
      DataKeptTrans(old(S()), s1, old(data), old(data), data);
      if !ok {
        FreeProc(c);
      }
    }
  }

  lemma DownFacts(s: Vm, p: nat, v: nat, level: nat)
    requires Good(s) && p in s.spaces && v < VPAGES && 0 < level <= 2 && KeyOf(level, v) in s.spaces[p].tab
    ensures Px(level, v) < 512 && var table := s.spaces[p].tab[KeyOf(level, v)];
      && table in s.mem && |s.mem[table]| == 512
      && var pte := s.mem[table][Px(level, v)];
      if KeyOf(level - 1, v) in s.spaces[p].tab then IsValid(pte) && Ppn(pte) == s.spaces[p].tab[KeyOf(level - 1, v)]
          else !IsValid(pte)
  {
    hide Good, Px, KeyOf, SpaceOk, Expected;
    KeySteps(level, v);
    SpaceAt(s, p);
    TableInUse(s.mem, s.use, p, s.spaces[p], KeyOf(level, v));
    ExpectedOnWay(s.spaces[p], level, v);
    if KeyOf(level - 1, v) in s.spaces[p].tab {
      PteRoundTrip(s.spaces[p].tab[KeyOf(level - 1, v)], 0);
    }
  }

  lemma HungAt(spaces: map<nat, Space>, p: nat, key: Key, x: nat)
    requires p in spaces
    ensures var s := WithTab(spaces, p, key, x);
      && s.Keys == spaces.Keys && key in s[p].tab && s[p].tab[key] == x && (key != ROOT && ROOT in spaces[p].tab ==>
          ROOT in s[p].tab && s[p].tab[ROOT] == spaces[p].tab[ROOT])
      && forall q :: q in spaces && q != p ==> s[q] == spaces[q]
  {
  }

  lemma SpaceAt(s: Vm, p: nat)
    requires Good(s) && p in s.spaces
    ensures SpaceOk(s.mem, s.use, p, s.spaces[p])
  {
    hide SpaceOk, UsesOk, PoolOk;
  }

  lemma GrewTable(s: Vm, s': Vm, p: nat, key: Key, x: nat)
    requires p in s.spaces && key !in s.spaces[p].tab && x !in s.use
    requires s'.spaces == WithTab(s.spaces, p, key, x) && s'.use == s.use[x := Table(p, key)] && s'.held == s.held
             && s'.all == s.all
    ensures Grew(s, s', p)
  {
  }

  /** walk makes the missing table. */
  lemma DownHang(s: Vm, p: nat, v: nat, level: nat, x: nat)
    requires Good(s) && p in s.spaces && v < VPAGES && 0 < level <= 2 && KeyOf(level, v) in s.spaces[p].tab
             && KeyOf(level - 1, v) !in s.spaces[p].tab && x in s.held
    ensures Px(level, v) < 512 && x !in s.mem && x !in s.use
    ensures var table := s.spaces[p].tab[KeyOf(level, v)];
      && table in s.mem && |s.mem[table]| == 512 && table != x
      && Good(s.(mem := Poke(s.mem[x := Blank(512)], table, Px(level, v), MakePte(x, 0)), spaces := WithTab(s.spaces, p,
          KeyOf(level - 1, v), x),
                 use := s.use[x := Table(p, KeyOf(level - 1, v))], held := s.held - {x}))
  {
    hide Good, Px, KeyOf;
    DownFacts(s, p, v, level);
    NotInMem(s, x);
    KeySteps(level, v);
    KeySteps(level - 1, v);
    KeyParent(level, v);
    HangTable(s, p, KeyOf(level - 1, v), x);
  }

  lemma KeyParent(level: nat, v: nat)
    requires v < VPAGES && 0 < level <= 2
    ensures KeyOf(level - 1, v).level == level - 1 && Key(level, KeyOf(level - 1, v).pre / 512) == KeyOf(level, v)
            && KeyOf(level - 1, v).pre % 512 == Px(level, v)
  {
  }

  /** Below a missing table nothing is mapped. */
  lemma MissingAbove(s: Vm, p: nat, v: nat, level: nat)
    requires Good(s) && p in s.spaces && v < VPAGES && level <= 2 && KeyOf(level, v) !in s.spaces[p].tab
    ensures KeyOf(0, v) !in s.spaces[p].tab && v !in s.spaces[p].pm
  {
    hide Good, SpaceOk;
    SpaceAt(s, p);
    MissingInTree(s.mem, s.use, p, s.spaces[p], v, level);
  }

  lemma MissingInTree(mem: Mem, use: map<nat, Use>, p: nat, sp: Space, v: nat, level: nat)
    requires SpaceOk(mem, use, p, sp) && v < VPAGES && level <= 2 && KeyOf(level, v) !in sp.tab
    ensures KeyOf(0, v) !in sp.tab && v !in sp.pm
  {
    WalkRefinesMap(mem, sp, 0, v);
    PresentAbove(mem, use, p, sp, v, 0);
    PresentAbove(mem, use, p, sp, v, 1);
  }

  lemma PresentAbove(mem: Mem, use: map<nat, Use>, p: nat, sp: Space, v: nat, level: nat)
    requires SpaceOk(mem, use, p, sp) && v < VPAGES && level < 2
    ensures KeyOf(level, v) in sp.tab ==> KeyOf(level + 1, v) in sp.tab
  {
    KeySteps(level, v);
    var key := KeyOf(level, v);
    assert key in sp.tab ==> KeyOk(sp, key);
  }

  lemma EntryFound(s: Vm, p: nat, v: nat)
    requires Good(s) && p in s.spaces && v < VPAGES && KeyOf(0, v) in s.spaces[p].tab
    ensures var x := s.spaces[p].tab[KeyOf(0, v)];
      x in s.mem && |s.mem[x]| == 512 && s.mem[x][v % 512] == if v in s.spaces[p].pm then s.spaces[p].pm[v] else 0
  {
    hide Good, SpaceOk, KeyOf, Expected;
    SpaceAt(s, p);
    TableInUse(s.mem, s.use, p, s.spaces[p], KeyOf(0, v));
    ExpectedOnWay(s.spaces[p], 0, v);
  }

  lemma ValidIff(s: Vm, p: nat, v: nat)
    requires Good(s) && p in s.spaces
    ensures IsValid(if v in s.spaces[p].pm then s.spaces[p].pm[v] else 0) <==> v in s.spaces[p].pm
  {
    SpaceAt(s, p);
    hide Good;
    assert v in s.spaces[p].pm ==> LeafOk(s.spaces[p], v);
  }

  lemma GrewSame(s: Vm, s': Vm, p: nat)
    requires Grew(s, s', p)
    ensures p in s.spaces && p in s'.spaces && s'.spaces[p].pm == s.spaces[p].pm && s'.held == s.held && s'.all == s.all
            && s'.spaces.Keys == s.spaces.Keys
    ensures Becomes(s, s', p, s.spaces[p].pm) && UseKept(s, s')
  {
  }

  /** p's map is now pm, and the other address spaces are as they were. */
  ghost predicate Becomes(s: Vm, s': Vm, p: nat, pm: map<nat, nat>) {
    p in s.spaces && p in s'.spaces && s'.spaces == s.spaces[p := Space(s'.spaces[p].tab, pm)] && s'.all == s.all
  }

  ghost predicate UseKept(s: Vm, s': Vm) {
    forall x :: x in s.use ==> x in s'.use && s'.use[x] == s.use[x]
  }

  ghost predicate SameMap(s: Vm, s': Vm, p: nat) {
    p in s.spaces && Becomes(s, s', p, s.spaces[p].pm)
  }

  /** The page of va, below the size and not mapped before, is now page x, which holds zeros. */
  ghost predicate Faulted(s: Vm, s': Vm, p: nat, va: nat, sz: nat, x: nat, data: map<nat, nat>) {
    && va < sz && p in s.spaces && PageOf(va) !in s.spaces[p].pm && x in data && data[x] == 0
    && Becomes(s, s', p, s.spaces[p].pm[PageOf(va) := MakePte(x, 22)])
  }

  lemma BecomesSelf(s: Vm, p: nat)
    requires p in s.spaces
    ensures Becomes(s, s, p, s.spaces[p].pm) && UseKept(s, s)
  {
  }

  lemma BecomesAt(s: Vm, s': Vm, p: nat, pm: map<nat, nat>)
    requires Becomes(s, s', p, pm)
    ensures p in s.spaces && p in s'.spaces && s'.spaces[p].pm == pm && s'.all == s.all
            && s'.spaces.Keys == s.spaces.Keys
    ensures forall q :: q in s.spaces && q != p ==> s'.spaces[q] == s.spaces[q]
  {
  }

  lemma BecomesTrans(s: Vm, t: Vm, u: Vm, p: nat, pm: map<nat, nat>, pm': map<nat, nat>)
    requires Becomes(s, t, p, pm) && Becomes(t, u, p, pm')
    ensures Becomes(s, u, p, pm')
  {
  }

  lemma BecomesPm(s: Vm, s': Vm, p: nat, pm: map<nat, nat>)
    requires p in s.spaces && s'.spaces == WithPm(s.spaces, p, pm) && s'.all == s.all
    ensures Becomes(s, s', p, pm)
  {
  }

  lemma UseKeptTrans(s: Vm, t: Vm, u: Vm)
    requires UseKept(s, t) && UseKept(t, u)
    ensures UseKept(s, u)
  {
  }

  lemma UseKeptOne(s: Vm, s': Vm, x: nat, u: Use)
    requires s'.use == s.use || (x !in s.use && s'.use == s.use[x := u])
    ensures UseKept(s, s')
  {
  }

  // ---------- Ranges ----------

  /** How many of the first k pages from v on are user pages. */
  ghost function Users(v: nat, k: nat): nat {
    if v + k <= TFVPN then k else if v >= TFVPN then 0 else TFVPN - v
  }

  ghost function Span(x: nat, n: nat): (r: set<nat>)
    ensures forall y :: y in r <==> x <= y < x + n
  {
    if n == 0 then {} else Span(x, n - 1) + {x + n - 1}
  }

  lemma SpanStep(x: nat, v: nat, k: nat)
    ensures Users(v, k) <= k && (v + k < TFVPN ==> x + k !in Span(x, Users(v, k)))
    ensures Span(x, Users(v, k + 1)) == Span(x, Users(v, k)) + if v + k < TFVPN then {x + k} else {}
  {
  }

  lemma SpanNone(x: nat)
    ensures Span(x, 0) == {}
  {
  }

  lemma SpanIn(x: nat, v: nat, k: nat, n: nat)
    requires k < n
    ensures v + k < TFVPN ==> x + k in Span(x, Users(v, n))
  {
  }

  lemma ExtendedNone(pm: map<nat, nat>, v: nat, x: nat, perm: nat)
    requires perm < 1024
    ensures Extended(pm, v, x, 0, perm) == pm
  {
  }

  lemma ExtendedStep(pm: map<nat, nat>, v: nat, x: nat, n: nat, perm: nat)
    requires perm < 1024
    ensures Extended(pm, v, x, n + 1, perm) == Extended(pm, v, x, n, perm)[v + n := MakePte(x + n, perm)]
  {
  }

  lemma CutNone(pm: map<nat, nat>, v: nat)
    ensures Cut(pm, v, 0) == pm
  {
  }

  lemma CutStep(pm: map<nat, nat>, v: nat, n: nat)
    ensures Cut(pm, v, n + 1) == Cut(pm, v, n) - {v + n}
  {
  }

  lemma PageUnmapped(s: Vm, p: nat, v: nat)
    requires Good(s) && p in s.spaces && v < MAXVPN && v in s.spaces[p].pm
    ensures KeyOf(0, v) in s.spaces[p].tab
    ensures var table := s.spaces[p].tab[KeyOf(0, v)]; var x := Ppn(s.spaces[p].pm[v]);
      && table in s.mem && |s.mem[table]| == 512
      && var mem' := Poke(s.mem, table, v % 512, 0); var spaces' := WithPm(s.spaces, p, s.spaces[p].pm - {v});
      && (v < TFVPN ==>
            x in s.use && x !in s.held && Good(s.(mem := mem', spaces := spaces', use := s.use - {x}, pool := [x]
            + s.pool)))
      && (v >= TFVPN ==> Good(s.(mem := mem', spaces := spaces')))
  {
    hide Good, KeyOf, SpaceOk;
    SpaceAt(s, p);
    LeafAt(s.mem, s.use, p, s.spaces[p], v);
    EntryFound(s, p, v);
    if v < TFVPN {
      DropLeaf(s, p, v);
      var x := Ppn(s.spaces[p].pm[v]);
      var t := s.(mem := Entered(s.mem, s.spaces[p], v, 0), spaces := WithPm(s.spaces, p, s.spaces[p].pm - {v}),
          use := s.use - {x}, held := s.held + {x});
      GivePage(t, x);
      assert t.held - {x} == s.held;
    } else {
      KernelLeaf(s, p, v, 0);
    }
  }

  lemma PageMapped(s: Vm, p: nat, v: nat, x: nat, pte: nat)
    requires Good(s) && p in s.spaces && v < MAXVPN && KeyOf(0, v) in s.spaces[p].tab && v !in s.spaces[p].pm
    requires IsValid(pte) && IsLeaf(pte) && Ppn(pte) == x && (v < TFVPN ==> x in s.held)
    ensures var table := s.spaces[p].tab[KeyOf(0, v)];
      && table in s.mem && |s.mem[table]| == 512
      && var mem' := Poke(s.mem, table, v % 512, pte); var spaces' := WithPm(s.spaces, p, s.spaces[p].pm[v := pte]);
      && (v < TFVPN ==> Good(s.(mem := mem', spaces := spaces', use := s.use[x := Memory(p, v)], held := s.held - {x})))
      && (v >= TFVPN ==> Good(s.(mem := mem', spaces := spaces')))
  {
    hide Good, KeyOf;
    EntryFound(s, p, v);
    if v < TFVPN {
      HangLeaf(s, p, v, x, pte);
    } else {
      KernelLeaf(s, p, v, pte);
    }
  }

  // ---------- Contents ----------

  ghost predicate DataKept(use: map<nat, Use>, data: map<nat, nat>, data': map<nat, nat>) {
    forall x :: x in use ==> Content(data', x) == Content(data, x)
  }

  lemma DataKeptSelf(use: map<nat, Use>, data: map<nat, nat>)
    ensures DataKept(use, data, data)
  {
  }

  lemma DataKeptOne(use: map<nat, Use>, data: map<nat, nat>, x: nat, c: nat)
    requires x !in use
    ensures DataKept(use, data, data[x := c])
  {
  }

  lemma DataKeptTrans(s: Vm, t: Vm, data: map<nat, nat>, data': map<nat, nat>, data'': map<nat, nat>)
    requires UseKept(s, t) && DataKept(s.use, data, data') && DataKept(t.use, data', data'')
    ensures DataKept(s.use, data, data'')
  {
  }

  lemma BecomesHeld(s: Vm, s': Vm, p: nat)
    requires p in s.spaces && s'.spaces == s.spaces && s'.all == s.all && s'.use == s.use
    ensures Becomes(s, s', p, s.spaces[p].pm) && UseKept(s, s')
  {
  }

  lemma BecomesLast(s: Vm, t: Vm, u: Vm, p: nat)
    requires p in s.spaces && p in t.spaces && p in u.spaces && Becomes(s, t, p, t.spaces[p].pm)
             && Becomes(t, u, p, u.spaces[p].pm)
    ensures Becomes(s, u, p, u.spaces[p].pm)
  {
  }

  lemma SpanOne(x: nat, v: nat)
    requires v < TFVPN
    ensures Users(v, 1) == 1 && Users(v, 0) == 0 && Span(x, 1) == {x} && Span(x, 0) == {}
  {
    assert Span(x, 1) == Span(x, 0) + {x};
  }

  lemma MappedOne(s: Vm, s': Vm, p: nat, v: nat, x: nat, k: nat, perm: nat)
    requires perm < 1024 && k <= 1 && p in s.spaces && Becomes(s, s', p, Extended(s.spaces[p].pm, v, x, k, perm))
    ensures Becomes(s, s', p, if k == 1 then s.spaces[p].pm[v := MakePte(x, perm)] else s.spaces[p].pm)
  {
    hide Becomes;
    ExtendedNone(s.spaces[p].pm, v, x, perm);
    ExtendedStep(s.spaces[p].pm, v, x, 0, perm);
  }

  // ---------- Growing ----------

  /** From pm to pm' the pages lo to hi have come in, with these permissions and zero contents. */
  ghost predicate FreshPages(pm: map<nat, nat>, pm': map<nat, nat>, lo: nat, hi: nat, data: map<nat, nat>, perm: nat) {
    && (forall u :: lo <= u < hi ==> u in pm' && Content(data, Ppn(pm'[u])) == 0 && Flags(pm'[u]) == perm + 1)
    && (forall u :: !(lo <= u < hi) ==> (u in pm <==> u in pm') && (u in pm ==> pm'[u] == pm[u]))
  }

  lemma FreshNone(pm: map<nat, nat>, lo: nat, data: map<nat, nat>, perm: nat)
    ensures FreshPages(pm, pm, lo, lo, data, perm)
  {
  }

  lemma PagesFit(oldsz: nat, newsz: nat)
    requires oldsz <= newsz <= TRAPFRAME
    ensures Pages(oldsz) <= Pages(newsz) <= TFVPN
  {
  }

  lemma PagesBelow(v: nat, newsz: nat)
    requires v * PGSIZE < newsz <= TRAPFRAME
    ensures v < Pages(newsz) && v < TFVPN
  {
  }

  lemma PagesDone(v: nat, newsz: nat)
    requires v * PGSIZE >= newsz && v <= Pages(newsz)
    ensures v == Pages(newsz)
  {
  }

  lemma PagesWhole(v: nat)
    ensures Pages(v * PGSIZE) == v
  {
  }

  lemma FreshAbove(pm: map<nat, nat>, pm': map<nat, nat>, lo: nat, v: nat, data: map<nat, nat>, perm: nat, sz: nat)
    requires FreshPages(pm, pm', lo, v, data, perm) && Sized(pm, sz) && lo == Pages(sz) <= v < TFVPN
    ensures v !in pm'
  {
  }

  lemma NothingNew(s: Vm, s': Vm, p: nat, lo: nat, v: nat, data: map<nat, nat>, perm: nat)
    requires p in s.spaces && p in s'.spaces && FreshPages(s.spaces[p].pm, s'.spaces[p].pm, lo, v, data, perm)
    ensures lo == v ==> s'.spaces[p].pm == s.spaces[p].pm
  {
  }

  lemma FreshStill(s: Vm, pm: map<nat, nat>, lo: nat, v: nat, data: map<nat, nat>, data': map<nat, nat>, perm: nat,
        p: nat)
    requires Good(s) && p in s.spaces && FreshPages(pm, s.spaces[p].pm, lo, v, data, perm)
             && DataKept(s.use, data, data') && v <= TFVPN
    ensures FreshPages(pm, s.spaces[p].pm, lo, v, data', perm)
  {
    hide Good, SpaceOk;
    SpaceAt(s, p);
    MemoryAt(s.mem, s.use, p, s.spaces[p]);
  }

  lemma FreshMore(s: Vm, pm: map<nat, nat>, lo: nat, v: nat, data: map<nat, nat>, data': map<nat, nat>, perm: nat,
        x: nat, p: nat)
    requires Good(s) && p in s.spaces && FreshPages(pm, s.spaces[p].pm, lo, v, data, perm)
             && DataKept(s.use, data, data') && lo <= v < TFVPN
    requires perm < 1023 && perm % 2 == 0 && Content(data', x) == 0
    ensures FreshPages(pm, s.spaces[p].pm[v := MakePte(x, perm)], lo, v + 1, data', perm)
  {
    hide Good, SpaceOk;
    SpaceAt(s, p);
    PteRoundTrip(x, perm);
    MemoryAt(s.mem, s.use, p, s.spaces[p]);
    hide MakePte, Ppn, Flags;
  }

  lemma MemoryAt(mem: Mem, use: map<nat, Use>, p: nat, sp: Space)
    requires SpaceOk(mem, use, p, sp)
    ensures MemoryUsed(use, p, sp)
  {
  }

  lemma CutFresh(pm: map<nat, nat>, pm': map<nat, nat>, lo: nat, v: nat, data: map<nat, nat>, perm: nat, sz: nat)
    requires FreshPages(pm, pm', lo, v, data, perm) && Sized(pm, sz) && lo == Pages(sz) <= v <= TFVPN
    ensures Cut(pm', lo, if lo < v then v - lo else 0) == pm
  {
    var n := if lo < v then v - lo else 0;
    forall u: nat ensures (u in Cut(pm', lo, n) <==> u in pm) && (u in pm ==> Cut(pm', lo, n)[u] == pm[u]) {
      CutAt(pm', lo, n, u);
    }
  }

  // ---------- Sizes ----------

  /** An unsigned 64-bit number. */
  function Wrap64(x: int): nat {
    x % TWO64
  }

  lemma WrapCases(size: nat, n: int)
    requires size <= TRAPFRAME && -0x8000_0000 <= n < 0
    ensures if size + n >= 0 then Wrap64(size + n) == size + n else Wrap64(size + n) >= size
  {
  }

  lemma PagesOrder(a: nat, b: nat)
    ensures a <= b ==> Pages(a) <= Pages(b)
    ensures b <= a ==> Pages(b) <= Pages(a)
  {
  }

  lemma SizedBelow(pm: map<nat, nat>, sz: nat, va: nat)
    requires Sized(pm, sz) && va < sz
    ensures PageOf(va) < Pages(sz) && PageOf(va) < TFVPN
  {
  }

  lemma SizedLimit(pm: map<nat, nat>, sz: nat)
    requires Sized(pm, sz)
    ensures sz <= TRAPFRAME && Pages(sz) <= TFVPN
  {
  }

  lemma SizedMore(pm: map<nat, nat>, sz: nat, sz': nat)
    requires Sized(pm, sz) && sz <= sz' <= TRAPFRAME
    ensures Sized(pm, sz')
  {
  }

  lemma OthersSized(s: Vm, s': Vm, sz: map<nat, nat>, p: nat, pm: map<nat, nat>, sz': nat)
    requires AllSized(sz, s.spaces) && p in sz && Becomes(s, s', p, pm) && Sized(pm, sz')
    ensures AllSized(sz[p := sz'], s'.spaces)
  {
    hide Sized;
  }

  lemma SizedStill(s: Vm, s': Vm, sz: map<nat, nat>, p: nat, v: nat, pte: nat)
    requires AllSized(sz, s.spaces) && p in sz && p in s.spaces && v < Pages(sz[p])
    requires Becomes(s, s', p, s.spaces[p].pm) || Becomes(s, s', p, s.spaces[p].pm[v := pte])
    ensures AllSized(sz, s'.spaces)
  {
  }

  lemma GrownSized(pm: map<nat, nat>, pm': map<nat, nat>, sz: nat, sz': nat, data: map<nat, nat>, perm: nat)
    requires Sized(pm, sz) && sz <= sz' <= TRAPFRAME && FreshPages(pm, pm', Pages(sz), Pages(sz'), data, perm)
    ensures Sized(pm', sz')
  {
  }

  lemma ShrunkSized(pm: map<nat, nat>, sz: nat, target: nat)
    requires Sized(pm, sz)
    ensures Sized(Cut(pm, Pages(target), if Pages(target) < Pages(sz) then Pages(sz) - Pages(target) else 0),
            if target < sz then target else sz)
  {
    var n := if Pages(target) < Pages(sz) then Pages(sz) - Pages(target) else 0;
    forall v: nat ensures v in Cut(pm, Pages(target), n) <==> v in pm && !(Pages(target) <= v < Pages(target) + n) {
      CutAt(pm, Pages(target), n, v);
    }
  }

  // ---------- Copying ----------

  function Content(data: map<nat, nat>, x: nat): nat {
    if x in data then data[x] else 0
  }

  ghost predicate NoUserPages(pm: map<nat, nat>) {
    forall v :: v in pm ==> v >= TFVPN
  }

  ghost predicate SamePage(pte: nat, data: map<nat, nat>, pte': nat, data': map<nat, nat>) {
    Flags(pte') == Flags(pte) && Content(data', Ppn(pte')) == Content(data, Ppn(pte))
  }

  /** From pmc to pm the first i pages have been copied from pmp. */
  ghost predicate CopiedTo(pmp: map<nat, nat>, pmc: map<nat, nat>, pm: map<nat, nat>, i: nat, data0: map<nat, nat>,
        data: map<nat, nat>) {
    && (forall v :: 0 <= v < i ==> (v in pm <==> v in pmp))
    && (forall v :: 0 <= v < i && v in pmp ==> SamePage(pmp[v], data0, pm[v], data))
    && (forall v :: v >= i ==> (v in pm <==> v in pmc) && (v in pmc ==> pm[v] == pmc[v]))
  }

  lemma CopyNone(pmp: map<nat, nat>, pmc: map<nat, nat>, data: map<nat, nat>)
    ensures CopiedTo(pmp, pmc, pmc, 0, data, data)
  {
  }

  lemma NotYetCopied(pmp: map<nat, nat>, pmc: map<nat, nat>, pm: map<nat, nat>, i: nat, data0: map<nat, nat>,
        data: map<nat, nat>)
    requires CopiedTo(pmp, pmc, pm, i, data0, data) && NoUserPages(pmc) && i < TFVPN
    ensures i !in pm
  {
  }

  lemma CopySkip(pmp: map<nat, nat>, pmc: map<nat, nat>, pm: map<nat, nat>, i: nat, data0: map<nat, nat>, data: map<nat,
        nat>)
    requires CopiedTo(pmp, pmc, pm, i, data0, data) && i !in pm && i !in pmp
    ensures CopiedTo(pmp, pmc, pm, i + 1, data0, data)
  {
  }

  lemma CopyFlags(s: Vm, p: nat, v: nat)
    requires Good(s) && p in s.spaces && v in s.spaces[p].pm
    ensures var f := Flags(s.spaces[p].pm[v]); f < 1024 && f / 2 % 8 != 0 && f % 2 == 1
  {
    hide Good;
    SpaceAt(s, p);
    assert LeafOk(s.spaces[p], v);
    FlagBits(s.spaces[p].pm[v]);
  }

  lemma FlagBits(pte: nat)
    requires IsValid(pte) && IsLeaf(pte)
    ensures Flags(pte) < 1024 && Flags(pte) / 2 % 8 != 0 && Flags(pte) % 2 == 1
  {
    assert pte == pte / 1024 * 1024 + Flags(pte);
    assert pte / 2 == pte / 1024 * 512 + Flags(pte) / 2;
    assert (pte / 1024 * 64 * 8 + Flags(pte) / 2) % 8 == Flags(pte) / 2 % 8;
  }

  /** The source page still holds what it held at the start. */
  lemma CopySource(s0: Vm, p: nat, v: nat, data0: map<nat, nat>, data: map<nat, nat>)
    requires Good(s0) && DataKept(s0.use, data0, data) && p in s0.spaces && v in s0.spaces[p].pm && v < TFVPN
    ensures Content(data, Ppn(s0.spaces[p].pm[v])) == Content(data0, Ppn(s0.spaces[p].pm[v]))
  {
    hide Good, SpaceOk;
    SpaceAt(s0, p);
    MemoryAt(s0.mem, s0.use, p, s0.spaces[p]);
  }

  /** The pages copied so far are in use, and hold what they held. */
  lemma CopyStill(s: Vm, c: nat, pmp: map<nat, nat>, pmc: map<nat, nat>, i: nat, data0: map<nat, nat>, data: map<nat,
        nat>, data': map<nat, nat>)
    requires Good(s) && c in s.spaces && CopiedTo(pmp, pmc, s.spaces[c].pm, i, data0, data)
             && DataKept(s.use, data, data') && i <= TFVPN
    ensures CopiedTo(pmp, pmc, s.spaces[c].pm, i, data0, data')
  {
    hide Good, SpaceOk;
    SpaceAt(s, c);
    MemoryAt(s.mem, s.use, c, s.spaces[c]);
    hide Ppn, Flags, Content;
  }

  lemma CopyMore(pmp: map<nat, nat>, pmc: map<nat, nat>, pm: map<nat, nat>, i: nat, data0: map<nat, nat>, data: map<nat,
        nat>, x: nat, pte: nat)
    requires CopiedTo(pmp, pmc, pm, i, data0, data) && i in pmp && pmp[i] == pte && Flags(pte) < 1024
             && Flags(pte) % 2 == 1 && Content(data, x) == Content(data0, Ppn(pte))
    ensures CopiedTo(pmp, pmc, pm[i := MakePte(x, Flags(pte))], i + 1, data0, data)
  {
    hide MakePte, Ppn, Flags, Content;
    PteRoundTrip(x, Flags(pte));
  }

  lemma CutCopied(pmp: map<nat, nat>, pmc: map<nat, nat>, pm: map<nat, nat>, i: nat, data0: map<nat, nat>,
        data: map<nat, nat>)
    requires CopiedTo(pmp, pmc, pm, i, data0, data) && NoUserPages(pmc) && i <= TFVPN
    ensures Cut(pm, 0, i) == pmc
  {
    forall u: nat ensures (u in Cut(pm, 0, i) <==> u in pmc) && (u in pmc ==> Cut(pm, 0, i)[u] == pmc[u]) {
      CutAt(pm, 0, i, u);
    }
  }

  // ---------- Teardown ----------

  /** Tables of levels above key's are all still there; none is new; key is the only other one promised. */
  ghost predicate FewerTables(tab: map<Key, nat>, tab': map<Key, nat>, key: Key) {
    && (forall k :: k in tab' ==> k in tab && tab'[k] == tab[k])
    && (forall k :: k in tab && k.level > key.level ==> k in tab')
  }

  /** No child of the table before entry i is left. */
  ghost predicate ChildrenFrom(sp: Space, key: Key, i: nat) {
    forall k :: k in sp.tab && k.level + 1 == key.level && k.pre / 512 == key.pre ==> k.pre % 512 >= i
  }

  /** All is well once the entry for the freed table is cleared in its parent. */
  ghost predicate TableFreed(s: Vm, s': Vm, p: nat, key: Key) {
    && p in s.spaces && p in s'.spaces && s'.spaces == s.spaces[p := s'.spaces[p]] && s'.spaces[p].pm == map[]
    && FewerTables(s.spaces[p].tab, s'.spaces[p].tab, key) && key !in s'.spaces[p].tab
    && Parent(key) in s'.spaces[p].tab
    && var parent := s'.spaces[p].tab[Parent(key)];
    parent in s'.mem && |s'.mem[parent]| == 512 && Good(s'.(mem := Poke(s'.mem, parent, key.pre % 512, 0)))
  }

  lemma FewerSelf(tab: map<Key, nat>, key: Key)
    ensures FewerTables(tab, tab, key)
  {
  }

  lemma ChildrenAll(sp: Space, key: Key)
    ensures ChildrenFrom(sp, key, 0)
  {
  }

  lemma EntryOf(s: Vm, p: nat, key: Key, i: nat)
    requires Good(s) && p in s.spaces && s.spaces[p].pm == map[] && key in s.spaces[p].tab && i < 512
    ensures var table := s.spaces[p].tab[key];
      && table in s.mem && |s.mem[table]| == 512 && key.level <= 2
      && var pte := s.mem[table][i];
      if key.level > 0 && Key(key.level - 1, key.pre * 512 + i) in s.spaces[p].tab
      then IsValid(pte) && !IsLeaf(pte) && Ppn(pte) == s.spaces[p].tab[Key(key.level - 1, key.pre * 512 + i)]
          else !IsValid(pte)
  {
    hide Good, MakePte;
    SpaceAt(s, p);
    TableInUse(s.mem, s.use, p, s.spaces[p], key);
    KeyLevel(s.mem, s.spaces[p], key);
    if key.level > 0 && Key(key.level - 1, key.pre * 512 + i) in s.spaces[p].tab {
      PteRoundTrip(s.spaces[p].tab[Key(key.level - 1, key.pre * 512 + i)], 0);
      PteLeaf(s.spaces[p].tab[Key(key.level - 1, key.pre * 512 + i)], 0);
    }
  }

  lemma KeyLevel(mem: Mem, sp: Space, key: Key)
    requires TreeOk(mem, sp) && key in sp.tab
    ensures KeyOk(sp, key) && key.level <= 2
  {
    hide TableOk, LeafOk;
  }

  lemma ChildrenSkip(sp: Space, key: Key, i: nat)
    requires ChildrenFrom(sp, key, i) && !(key.level > 0 && Key(key.level - 1, key.pre * 512 + i) in sp.tab) && i < 512
    ensures ChildrenFrom(sp, key, i + 1)
  {
    forall k | k in sp.tab && k.level + 1 == key.level && k.pre / 512 == key.pre ensures k.pre % 512 >= i + 1 {
      assert k == Key(key.level - 1, key.pre * 512 + k.pre % 512);
    }
  }

  /** The parent clears the entry of the child that has been freed. */
  lemma ChildFreed(s0: Vm, s: Vm, s': Vm, p: nat, key: Key, i: nat)
    requires key.level > 0 && i < 512 && TableFreed(s, s', p, Key(key.level - 1, key.pre * 512 + i))
    requires p in s0.spaces && s.spaces == s0.spaces[p := s.spaces[p]] && FewerTables(s0.spaces[p].tab, s.spaces[p].tab,
             key) && key in s.spaces[p].tab
    requires ChildrenFrom(s.spaces[p], key, i)
    ensures p in s'.spaces && s'.spaces == s0.spaces[p := s'.spaces[p]] && s'.spaces[p].pm == map[]
    ensures key in s'.spaces[p].tab && s'.spaces[p].tab[key] == s.spaces[p].tab[key]
    ensures s'.spaces[p].tab[key] in s'.mem && |s'.mem[s'.spaces[p].tab[key]]| == 512
            && Good(s'.(mem := Poke(s'.mem, s'.spaces[p].tab[key], i, 0)))
    ensures FewerTables(s0.spaces[p].tab, s'.spaces[p].tab, key) && ChildrenFrom(s'.spaces[p], key, i + 1)
  {
    hide Good, Poke;
    var child := Key(key.level - 1, key.pre * 512 + i);
    assert Parent(child) == key && child.pre % 512 == i;
    ChildrenLess(s.spaces[p], s'.spaces[p], key, i);
  }

  lemma ChildrenLess(sp: Space, sp': Space, key: Key, i: nat)
    requires ChildrenFrom(sp, key, i) && i < 512 && key.level > 0 && (forall k :: k in sp'.tab ==> k in sp.tab)
             && Key(key.level - 1, key.pre * 512 + i) !in sp'.tab
    ensures ChildrenFrom(sp', key, i + 1)
  {
    assert ChildrenFrom(sp', key, i);
    ChildrenSkip(sp', key, i);
  }

  lemma RootLast(s: Vm, p: nat)
    requires Good(s) && p in s.spaces && s.spaces[p].pm == map[] && ROOT in s.spaces[p].tab
             && ChildrenFrom(s.spaces[p], ROOT, 512)
    ensures var x := s.spaces[p].tab[ROOT];
      Good(s.(mem := s.mem - {x}, pool := [x] + s.pool, use := s.use - {x}, spaces := s.spaces - {p}))
  {
    hide Good, SpaceOk;
    SpaceAt(s, p);
    OnlyRoot(s.mem, s.use, p, s.spaces[p]);
    DropSpace(s, p);
    var x := s.spaces[p].tab[ROOT];
    var t := s.(mem := s.mem - {x}, spaces := s.spaces - {p}, use := s.use - {x}, held := s.held + {x});
    GivePage(t, x);
    assert t.held - {x} == s.held;
  }

  lemma OnlyRoot(mem: Mem, use: map<nat, Use>, p: nat, sp: Space)
    requires SpaceOk(mem, use, p, sp) && ROOT in sp.tab && sp.pm == map[] && ChildrenFrom(sp, ROOT, 512)
    ensures sp == Space(map[ROOT := sp.tab[ROOT]], map[])
  {
    forall k | k in sp.tab ensures k.level != 1 {
      KeyLevel(mem, sp, k);
      assert Parent(k) in sp.tab ==> KeyOk(sp, Parent(k));
    }
    forall k | k in sp.tab ensures k == ROOT {
      KeyLevel(mem, sp, k);
    }
  }

  lemma TableLast(s0: Vm, s: Vm, p: nat, key: Key)
    requires Good(s) && p in s.spaces && s.spaces[p].pm == map[] && key in s.spaces[p].tab && key != ROOT
             && ChildrenFrom(s.spaces[p], key, 512)
    ensures key.level < 2 && Parent(key) in s.spaces[p].tab
    ensures var sp := s.spaces[p]; var x, y := sp.tab[key], sp.tab[Parent(key)];
      && x != y && y in s.mem && |s.mem[y]| == 512
      && Good(s.(mem := Poke(s.mem - {x}, y, key.pre % 512, 0), pool := [x] + s.pool, use := s.use - {x},
          spaces := s.spaces[p := Space(sp.tab - {key}, sp.pm)]))
  {
    hide Good, SpaceOk;
    SpaceAt(s, p);
    KeyOfTable(s.mem, s.use, p, s.spaces[p], key);
    DropTable(s, p, key);
    var sp := s.spaces[p];
    var x, y := sp.tab[key], sp.tab[Parent(key)];
    var t := s.(mem := Poke(s.mem, y, key.pre % 512, 0) - {x}, spaces := s.spaces[p := Space(sp.tab - {key}, sp.pm)],
        use := s.use - {x}, held := s.held + {x});
    GivePage(t, x);
    assert t.held - {x} == s.held;
    assert Poke(s.mem, y, key.pre % 512, 0) - {x} == Poke(s.mem - {x}, y, key.pre % 512, 0);
  }

  lemma KeyOfTable(mem: Mem, use: map<nat, Use>, p: nat, sp: Space, key: Key)
    requires SpaceOk(mem, use, p, sp) && key in sp.tab && key != ROOT && ChildrenFrom(sp, key, 512)
    ensures key.level < 2 && Parent(key) in sp.tab && Childless(sp, key)
  {
    hide TableOk, LeafOk, TablesUsed, MemoryUsed;
    KeyLevel(mem, sp, key);
  }

  lemma IsFreed(s0: Vm, s: Vm, s': Vm, p: nat, key: Key)
    requires p in s0.spaces && p in s.spaces && s.spaces == s0.spaces[p := s.spaces[p]] && s.spaces[p].pm == map[]
    requires key.level < 2 && key in s.spaces[p].tab && Parent(key) in s.spaces[p].tab
             && FewerTables(s0.spaces[p].tab, s.spaces[p].tab, key)
    requires s'.spaces == s.spaces[p := Space(s.spaces[p].tab - {key}, s.spaces[p].pm)]
    requires var y := s.spaces[p].tab[Parent(key)];
             y in s'.mem && |s'.mem[y]| == 512 && Good(s'.(mem := Poke(s'.mem, y, key.pre % 512, 0)))
    ensures TableFreed(s0, s', p, key)
  {
    hide Good, Poke;
  }

  lemma RootedNew(roots: map<nat, nat>, spaces: map<nat, Space>, p: nat, x: nat)
    requires Rooted(roots, spaces)
    ensures Rooted(roots[p := x], spaces[p := Space(map[ROOT := x], map[])])
  {
  }

  lemma RootedDrop(roots: map<nat, nat>, spaces: map<nat, Space>, p: nat)
    requires Rooted(roots, spaces)
    ensures Rooted(roots - {p}, spaces - {p})
  {
  }

  lemma SpanKernel(x: nat, v: nat)
    requires v >= TFVPN
    ensures Users(v, 1) == Users(v, 0) == 0 && Span(x, 0) == {}
  {
  }

  lemma CutOne(pm: map<nat, nat>, v: nat)
    ensures Cut(pm, v, 1) == pm - {v}
  {
    CutNone(pm, v);
    CutStep(pm, v, 0);
  }

  lemma UserOnly(pm: map<nat, nat>, sz: nat)
    requires Sized(pm, sz)
    ensures Cut(pm - {TFVPN + 1} - {TFVPN}, 0, Pages(sz)) == map[]
  {
    var pm' := pm - {TFVPN + 1} - {TFVPN};
    forall u: nat ensures u !in Cut(pm', 0, Pages(sz)) {
      CutAt(pm', 0, Pages(sz), u);
    }
  }

  lemma AllBack(s: Vm, s': Vm, p: nat)
    requires Good(s) && Good(s') && s'.held == s.held && s'.all == s.all && s'.spaces == s.spaces - {p}
    ensures forall x :: x in s.use && s.use[x].p == p ==> x in s'.pool
  {
    hide SpaceOk, UseOk;
    forall x | x in s.use && s.use[x].p == p ensures x !in s'.use {
      if x in s'.use {
        NotAnothers(s, s', p, x);
      }
    }
  }

  lemma NotAnothers(s: Vm, s': Vm, p: nat, x: nat)
    requires Good(s) && Good(s') && s'.spaces == s.spaces - {p} && x in s'.use
    ensures x in s.use && s.use[x].p != p
  {
    hide PoolOk;
    assert UseOk(s'.mem, s'.spaces, x, s'.use[x]);
    var q := s'.use[x].p;
    assert q in s.spaces && q != p && SpaceOk(s.mem, s.use, q, s.spaces[q]);
  }

  ghost predicate KernelSame(pm: map<nat, nat>, pm': map<nat, nat>) {
    forall v :: v >= TFVPN && v in pm ==> v in pm' && pm'[v] == pm[v]
  }

  lemma TrapSelf(pm: map<nat, nat>)
    ensures SameTrap(pm, pm)
  {
  }

  lemma GrownTrap(pm: map<nat, nat>, pm': map<nat, nat>, lo: nat, hi: nat, data: map<nat, nat>, perm: nat)
    requires FreshPages(pm, pm', lo, hi, data, perm) && hi <= TFVPN
    ensures SameTrap(pm, pm')
  {
  }

  lemma ShrunkTrap(pm: map<nat, nat>, v: nat, n: nat)
    requires n == 0 || v + n <= TFVPN
    ensures SameTrap(pm, Cut(pm, v, n))
  {
    hide Cut;
    CutAt(pm, v, n, TFVPN);
  }

  lemma KernelTrap(pm: map<nat, nat>, a: nat, x: nat)
    requires pm == map[TFVPN + 1 := a, TFVPN := MakePte(x, PTE_R + PTE_W)]
    ensures TrapAt(pm, x)
  {
    hide MakePte;
    PteRoundTrip(x, PTE_R + PTE_W);
  }

  lemma TrappedNew(frame: map<nat, nat>, sz: map<nat, nat>, spaces: map<nat, Space>, spaces': map<nat, Space>, p: nat,
        x: nat)
    requires Trapped(frame, sz, spaces) && spaces' - {p} == spaces && p in spaces' && TrapAt(spaces'[p].pm, x)
    ensures Trapped(frame[p := x], sz[p := 0], spaces')
  {
    forall q | q in frame && q != p ensures q in spaces' && spaces'[q] == spaces[q] {
      assert (spaces' - {p})[q] == spaces[q];
    }
  }

  lemma TrappedDrop(frame: map<nat, nat>, sz: map<nat, nat>, spaces: map<nat, Space>, p: nat)
    requires Trapped(frame, sz, spaces)
    ensures Trapped(frame - {p}, sz - {p}, spaces - {p})
  {
  }

  lemma TrappedAt(frame: map<nat, nat>, sz: map<nat, nat>, spaces: map<nat, Space>, p: nat)
    requires Trapped(frame, sz, spaces)
    ensures p in frame <==> p in sz
  {
  }

  lemma FramedAt(frame: map<nat, nat>, held: set<nat>, p: nat)
    requires Framed(frame, held) && p in frame
    ensures frame[p] in held
  {
  }

  lemma InPool(s: Vm, x: nat)
    requires Good(s) && x in s.pool
    ensures x in s.all && x !in s.use && x !in s.held
  {
    hide Tidy;
  }

  lemma StillInPool(s: Vm, s': Vm, p: nat, x: nat)
    requires Good(s) && Good(s') && s'.held == s.held && s'.all == s.all && s'.spaces == s.spaces - {p}
    requires x in s.all && x !in s.use && x !in s.held
    ensures x in s'.pool
  {
    hide SpaceOk, UseOk;
    if x in s'.use {
      NotAnothers(s, s', p, x);
    }
  }

  /** A new address space takes no page from the others. */
  lemma UseStill(s: Vm, s': Vm, c: nat)
    requires Good(s) && Good(s') && c !in s.spaces && s'.spaces - {c} == s.spaces
    ensures UseKept(s, s')
  {
    hide PoolOk;
    forall x | x in s.use ensures x in s'.use && s'.use[x] == s.use[x] {
      assert UseOk(s.mem, s.spaces, x, s.use[x]);
      var q := s.use[x].p;
      assert q in s'.spaces && q != c && SpaceOk(s'.mem, s'.use, q, s'.spaces[q]);
    }
  }

  /** The user pages of the second map are copies of those of the first. */
  ghost predicate UserCopy(pm: map<nat, nat>, pm': map<nat, nat>, n: nat, data: map<nat, nat>, data': map<nat, nat>) {
    && (forall v :: 0 <= v < n ==> (v in pm' <==> v in pm))
    && (forall v :: 0 <= v < n && v in pm ==> SamePage(pm[v], data, pm'[v], data'))
  }

  lemma KernelOnly(pm: map<nat, nat>, a: nat, b: nat)
    requires pm == map[TFVPN + 1 := a, TFVPN := b]
    ensures NoUserPages(pm) && Sized(pm, 0)
  {
  }

  lemma CopySized(pmp: map<nat, nat>, pmc: map<nat, nat>, pm: map<nat, nat>, sz: nat, data0: map<nat, nat>,
        data: map<nat, nat>)
    requires CopiedTo(pmp, pmc, pm, Pages(sz), data0, data) && Sized(pmp, sz) && Sized(pmc, 0)
    ensures Sized(pm, sz) && UserCopy(pmp, pm, Pages(sz), data0, data)
    ensures KernelSame(pmc, pm) && SameTrap(pmc, pm)
  {
  }
}
