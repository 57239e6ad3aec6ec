/** The pages of all address spaces together (kernel/vm.c, kernel/kalloc.c).  Every page of the pool is on the
    free list, or held (as a trap frame, or just allocated), or in use in exactly one place: as a table of
    one address space, or as the memory behind one page of one. */
module VmPages {
  import opened PageTree

  datatype Use = Table(p: nat, key: Key) | Memory(p: nat, v: nat)

  type Mem = map<nat, seq<nat>>

  datatype Vm = Vm(pool: seq<nat>, mem: Mem, spaces: map<nat, Space>, use: map<nat, Use>, held: set<nat>, all: set<nat>)

  ghost predicate PoolOk(pool: seq<nat>, held: set<nat>, used: set<nat>, all: set<nat>) {
    && (forall i, j :: 0 <= i < j < |pool| ==> pool[i] != pool[j])
    && (forall x :: x in pool ==> x in all && x !in used && x !in held)
    && (forall x :: x in held ==> x in all && x !in used)
    && (forall x :: x in used ==> x in all)
    && (forall x :: x in all ==> x in pool || x in held || x in used)
  }

  ghost predicate TablesUsed(use: map<nat, Use>, p: nat, sp: Space) {
    forall key :: key in sp.tab ==> sp.tab[key] in use && use[sp.tab[key]] == Table(p, key)
  }

  /** User pages lie below the trap frame. */
  ghost predicate MemoryUsed(use: map<nat, Use>, p: nat, sp: Space) {
    forall v :: v in sp.pm && v < TFVPN ==> Ppn(sp.pm[v]) in use && use[Ppn(sp.pm[v])] == Memory(p, v)
  }

  ghost predicate SpaceOk(mem: Mem, use: map<nat, Use>, p: nat, sp: Space) {
    TreeOk(mem, sp) && TablesUsed(use, p, sp) && MemoryUsed(use, p, sp)
  }

  ghost predicate UseOk(mem: Mem, spaces: map<nat, Space>, x: nat, u: Use) {
    && u.p in spaces
    && var sp := spaces[u.p];
    match u
    case Table(_, key) => key in sp.tab && sp.tab[key] == x && x in mem
    case Memory(_, v) => v in sp.pm && v < TFVPN && Ppn(sp.pm[v]) == x && x !in mem
  }

  ghost predicate UsesOk(mem: Mem, spaces: map<nat, Space>, use: map<nat, Use>) {
    forall x :: x in use ==> UseOk(mem, spaces, x, use[x])
  }

  ghost predicate Tidy(mem: Mem, spaces: map<nat, Space>, use: map<nat, Use>) {
    && (forall p :: p in spaces ==> SpaceOk(mem, use, p, spaces[p]))
    && UsesOk(mem, spaces, use) && forall x :: x in mem ==> x in use
  }

  ghost predicate Good(s: Vm) {
    PoolOk(s.pool, s.held, s.use.Keys, s.all) && Tidy(s.mem, s.spaces, s.use)
  }

  lemma TablesApart(mem: Mem, use: map<nat, Use>, p: nat, sp: Space)
    requires SpaceOk(mem, use, p, sp)
    ensures PageTree.Apart(sp)
  {
    hide TreeOk, MemoryUsed;
  }

  // ---------- The free list ----------

  lemma TakePage(s: Vm)
    requires Good(s) && s.pool != []
    ensures Good(s.(pool := s.pool[1..], held := s.held + {s.pool[0]})) && s.pool[0] !in s.use && s.pool[0] !in s.mem
            && s.pool[0] !in s.held
  {
    NotInMem(s, s.pool[0]);
    hide Tidy;
    assert s.pool == [s.pool[0]] + s.pool[1..];
  }

  lemma NotInMem(s: Vm, x: nat)
    requires Good(s) && (x in s.held || x in s.pool)
    ensures x !in s.mem && x !in s.use
  {
    hide SpaceOk, UsesOk;
  }

  lemma GivePage(s: Vm, x: nat)
    requires Good(s) && x in s.held
    ensures Good(s.(pool := [x] + s.pool, held := s.held - {x}))
  {
    hide Tidy;
  }

  lemma HoldUse(pool: seq<nat>, held: set<nat>, used: set<nat>, all: set<nat>, x: nat)
    requires PoolOk(pool, held, used, all)
    ensures x in held ==> PoolOk(pool, held - {x}, used + {x}, all)
    ensures x in used ==> PoolOk(pool, held + {x}, used - {x}, all)
  {
  }

  // ---------- Tables and memory come into use ----------

  /** What p's pages and pages out of use do is nothing to another address space. */
  lemma Elsewhere(mem: Mem, use: map<nat, Use>, mem': Mem, use': map<nat, Use>, q: nat, sp: Space)
    requires SpaceOk(mem, use, q, sp)
    requires forall x :: x in use && use[x].p == q ==>
               x in use' && use'[x] == use[x] && (x in mem ==> x in mem' && mem'[x] == mem[x])
    ensures SpaceOk(mem', use', q, sp)
  {
    TreeFrame(mem, mem', sp);
    hide TreeOk;
  }

  lemma AllElsewhere(mem: Mem, spaces: map<nat, Space>, use: map<nat, Use>, mem': Mem, use': map<nat, Use>, p: nat)
    requires Tidy(mem, spaces, use)
    requires forall x :: x in use && use[x].p != p ==>
               x in use' && use'[x] == use[x] && (x in mem ==> x in mem' && mem'[x] == mem[x])
    ensures forall q :: q in spaces && q != p ==> SpaceOk(mem', use', q, spaces[q])
  {
    hide SpaceOk, UsesOk;
    forall q | q in spaces && q != p ensures SpaceOk(mem', use', q, spaces[q]) {
      Elsewhere(mem, use, mem', use', q, spaces[q]);
    }
  }

  ghost function WithTab(spaces: map<nat, Space>, p: nat, key: Key, x: nat): map<nat, Space>
    requires p in spaces
  {
    spaces[p := Space(spaces[p].tab[key := x], spaces[p].pm)]
  }

  lemma HangSpace(mem: Mem, use: map<nat, Use>, p: nat, sp: Space, key: Key, x: nat)
    requires SpaceOk(mem, use, p, sp) && x !in use && x !in mem && key !in sp.tab && key.level < 2
             && Key(key.level + 1, key.pre / 512) in sp.tab
    ensures TableOk(mem, sp, Key(key.level + 1, key.pre / 512))
    ensures SpaceOk(WithTable(mem, sp, key, x), use[x := Table(p, key)], p, Space(sp.tab[key := x], sp.pm))
  {
    TablesApart(mem, use, p, sp);
    AddTable(mem, sp, key, x);
    hide TreeOk, WithTable;
  }

  lemma HangUses(mem: Mem, spaces: map<nat, Space>, use: map<nat, Use>, p: nat, key: Key, x: nat, mem': Mem)
    requires UsesOk(mem, spaces, use) && p in spaces && key !in spaces[p].tab && x !in use && mem'.Keys == mem.Keys
             + {x}
    ensures UsesOk(mem', WithTab(spaces, p, key, x), use[x := Table(p, key)])
  {
    var use' := use[x := Table(p, key)];
    forall y | y in use' ensures UseOk(mem', WithTab(spaces, p, key, x), y, use'[y]) {
      assert y in use ==> UseOk(mem, spaces, y, use[y]);
    }
  }

  /** walk adds a table to an address space. */
  lemma HangTable(s: Vm, p: nat, key: Key, x: nat)
    requires Good(s) && p in s.spaces && x in s.held && key !in s.spaces[p].tab && key.level < 2
             && Key(key.level + 1, key.pre / 512) in s.spaces[p].tab
    ensures TableOk(s.mem, s.spaces[p], Key(key.level + 1, key.pre / 512)) && x !in s.mem
    ensures Good(s.(mem := WithTable(s.mem, s.spaces[p], key, x), spaces := WithTab(s.spaces, p, key, x),
            use := s.use[x := Table(p, key)], held := s.held - {x}))
  {
    hide SpaceOk, UsesOk, PoolOk, TableOk, TreeOk;
    NotInMem(s, x);
    HoldUse(s.pool, s.held, s.use.Keys, s.all, x);
    HangSpace(s.mem, s.use, p, s.spaces[p], key, x);
    var mem' := WithTable(s.mem, s.spaces[p], key, x);
    TableKept(s.mem, s.use, p, s.spaces[p], key, x);
    HangUses(s.mem, s.spaces, s.use, p, key, x, mem');
    AllElsewhere(s.mem, s.spaces, s.use, mem', s.use[x := Table(p, key)], p);
    assert s.use[x := Table(p, key)].Keys == s.use.Keys + {x};
  }

  /** Only p's own pages are written. */
  lemma TableKept(mem: Mem, use: map<nat, Use>, p: nat, sp: Space, key: Key, x: nat)
    requires SpaceOk(mem, use, p, sp) && x !in mem && x !in use && key.level < 2
             && Key(key.level + 1, key.pre / 512) in sp.tab
    requires TableOk(mem, sp, Key(key.level + 1, key.pre / 512))
    ensures WithTable(mem, sp, key, x).Keys == mem.Keys + {x}
    ensures forall y :: y in use && use[y].p != p && y in mem ==> WithTable(mem, sp, key, x)[y] == mem[y]
  {
    hide TreeOk;
    var parent := Key(key.level + 1, key.pre / 512);
    assert use[sp.tab[parent]] == Table(p, parent);
  }

  // ---------- Leaves ----------

  ghost function WithPm(spaces: map<nat, Space>, p: nat, pm: map<nat, nat>): map<nat, Space>
    requires p in spaces
  {
    spaces[p := Space(spaces[p].tab, pm)]
  }

  /** The entry of page v is written where walk found it. */
  ghost function Entered(mem: Mem, sp: Space, v: nat, pte: nat): Mem
    requires KeyOf(0, v) in sp.tab && TableOk(mem, sp, KeyOf(0, v))
  {
    Poke(mem, sp.tab[KeyOf(0, v)], v % 512, pte)
  }

  ghost predicate Entry(pte: nat) {
    pte == 0 || (IsValid(pte) && IsLeaf(pte))
  }

  lemma LeafSpace(mem: Mem, use: map<nat, Use>, p: nat, sp: Space, v: nat, pte: nat, use': map<nat, Use>)
    requires SpaceOk(mem, use, p, sp) && v < VPAGES && KeyOf(0, v) in sp.tab && Entry(pte)
    requires TablesUsed(use', p, sp) && MemoryUsed(use', p, Space(sp.tab, WithLeaf(sp.pm, v, pte)))
    ensures TableOk(mem, sp, KeyOf(0, v))
    ensures SpaceOk(Entered(mem, sp, v, pte), use', p, Space(sp.tab, WithLeaf(sp.pm, v, pte)))
    ensures Entered(mem, sp, v, pte).Keys == mem.Keys
    ensures forall y :: y in use && use[y].p != p && y in mem ==> Entered(mem, sp, v, pte)[y] == mem[y]
  {
    TablesApart(mem, use, p, sp);
    hide TreeOk, MemoryUsed;
    SetLeaf(mem, sp, v, pte);
    assert use[sp.tab[KeyOf(0, v)]] == Table(p, KeyOf(0, v));
  }

  /** mappages puts a held page behind user page v. */
  lemma HangLeaf(s: Vm, p: nat, v: nat, x: nat, pte: nat)
    requires Good(s) && p in s.spaces && x in s.held && v < TFVPN && v !in s.spaces[p].pm
             && KeyOf(0, v) in s.spaces[p].tab
    requires pte != 0 && Entry(pte) && Ppn(pte) == x
    ensures TableOk(s.mem, s.spaces[p], KeyOf(0, v))
    ensures Good(s.(mem := Entered(s.mem, s.spaces[p], v, pte), spaces := WithPm(s.spaces, p, s.spaces[p].pm[v := pte]),
                    use := s.use[x := Memory(p, v)], held := s.held - {x}))
  {
    hide SpaceOk, UsesOk, PoolOk, TableOk, TreeOk;
    NotInMem(s, x);
    HoldUse(s.pool, s.held, s.use.Keys, s.all, x);
    var sp, use' := s.spaces[p], s.use[x := Memory(p, v)];
    HangLeafUsed(s.mem, s.use, p, sp, v, x, pte);
    LeafSpace(s.mem, s.use, p, sp, v, pte, use');
    HangLeafUses(s.mem, s.spaces, s.use, p, v, x, pte, Entered(s.mem, sp, v, pte));
    AllElsewhere(s.mem, s.spaces, s.use, Entered(s.mem, sp, v, pte), use', p);
    assert use'.Keys == s.use.Keys + {x};
  }

  lemma HangLeafUsed(mem: Mem, use: map<nat, Use>, p: nat, sp: Space, v: nat, x: nat, pte: nat)
    requires SpaceOk(mem, use, p, sp) && x !in use && Ppn(pte) == x && v !in sp.pm && pte != 0
    ensures TablesUsed(use[x := Memory(p, v)], p, sp) && MemoryUsed(use[x := Memory(p, v)], p,
            Space(sp.tab, WithLeaf(sp.pm, v, pte)))
  {
    hide TreeOk;
  }

  lemma HangLeafUses(mem: Mem, spaces: map<nat, Space>, use: map<nat, Use>, p: nat, v: nat, x: nat, pte: nat, mem': Mem)
    requires UsesOk(mem, spaces, use) && p in spaces && v !in spaces[p].pm && v < TFVPN && x !in use && x !in mem
             && Ppn(pte) == x && mem'.Keys == mem.Keys
    ensures UsesOk(mem', WithPm(spaces, p, spaces[p].pm[v := pte]), use[x := Memory(p, v)])
  {
    var use' := use[x := Memory(p, v)];
    forall y | y in use' ensures UseOk(mem', WithPm(spaces, p, spaces[p].pm[v := pte]), y, use'[y]) {
      assert y in use ==> UseOk(mem, spaces, y, use[y]);
    }
  }

  /** The trampoline and the trap frame are mapped and unmapped without changing hands. */
  lemma KernelLeaf(s: Vm, p: nat, v: nat, pte: nat)
    requires Good(s) && p in s.spaces && TFVPN <= v < VPAGES && KeyOf(0, v) in s.spaces[p].tab && Entry(pte)
    ensures TableOk(s.mem, s.spaces[p], KeyOf(0, v))
    ensures Good(s.(mem := Entered(s.mem, s.spaces[p], v, pte), spaces := WithPm(s.spaces, p,
            WithLeaf(s.spaces[p].pm, v, pte))))
  {
    hide SpaceOk, UsesOk, PoolOk, TableOk, TreeOk;
    var sp := s.spaces[p];
    KernelLeafUsed(s.mem, s.use, p, sp, v, pte);
    LeafSpace(s.mem, s.use, p, sp, v, pte, s.use);
    KernelLeafUses(s.mem, s.spaces, s.use, p, v, pte, Entered(s.mem, sp, v, pte));
    AllElsewhere(s.mem, s.spaces, s.use, Entered(s.mem, sp, v, pte), s.use, p);
  }

  lemma KernelLeafUsed(mem: Mem, use: map<nat, Use>, p: nat, sp: Space, v: nat, pte: nat)
    requires SpaceOk(mem, use, p, sp) && v >= TFVPN
    ensures TablesUsed(use, p, sp) && MemoryUsed(use, p, Space(sp.tab, WithLeaf(sp.pm, v, pte)))
  {
    hide TreeOk;
  }

  lemma KernelLeafUses(mem: Mem, spaces: map<nat, Space>, use: map<nat, Use>, p: nat, v: nat, pte: nat, mem': Mem)
    requires UsesOk(mem, spaces, use) && p in spaces && v >= TFVPN && mem'.Keys == mem.Keys
    ensures UsesOk(mem', WithPm(spaces, p, WithLeaf(spaces[p].pm, v, pte)), use)
  {
    forall y | y in use ensures UseOk(mem', WithPm(spaces, p, WithLeaf(spaces[p].pm, v, pte)), y, use[y]) {
      assert UseOk(mem, spaces, y, use[y]);
    }
  }

  /** uvmunmap takes the page behind user page v out of use. */
  lemma DropLeaf(s: Vm, p: nat, v: nat)
    requires Good(s) && p in s.spaces && v < TFVPN && v in s.spaces[p].pm
    ensures KeyOf(0, v) in s.spaces[p].tab && TableOk(s.mem, s.spaces[p], KeyOf(0, v))
    ensures var x := Ppn(s.spaces[p].pm[v]);
      && x in s.use && s.use[x] == Memory(p, v) && x !in s.held
      && Good(s.(mem := Entered(s.mem, s.spaces[p], v, 0), spaces := WithPm(s.spaces, p, s.spaces[p].pm - {v}),
                 use := s.use - {x}, held := s.held + {x}))
  {
    hide SpaceOk, UsesOk, TableOk, TreeOk;
    var sp := s.spaces[p];
    var x := Ppn(sp.pm[v]);
    LeafAt(s.mem, s.use, p, sp, v);
    HoldUse(s.pool, s.held, s.use.Keys, s.all, x);
    DropLeafUsed(s.mem, s.use, p, sp, v);
    LeafSpace(s.mem, s.use, p, sp, v, 0, s.use - {x});
    DropLeafUses(s.mem, s.spaces, s.use, p, v, Entered(s.mem, sp, v, 0));
    AllElsewhere(s.mem, s.spaces, s.use, Entered(s.mem, sp, v, 0), s.use - {x}, p);
    UseMem(s.mem, s.spaces, s.use, x);
    assert (s.use - {x}).Keys == s.use.Keys - {x};
  }

  lemma LeafAt(mem: Mem, use: map<nat, Use>, p: nat, sp: Space, v: nat)
    requires SpaceOk(mem, use, p, sp) && v in sp.pm
    ensures v < VPAGES && KeyOf(0, v) in sp.tab
    ensures v < TFVPN ==> Ppn(sp.pm[v]) in use && use[Ppn(sp.pm[v])] == Memory(p, v)
  {
    assert LeafOk(sp, v);
  }

  lemma UseMem(mem: Mem, spaces: map<nat, Space>, use: map<nat, Use>, x: nat)
    requires UsesOk(mem, spaces, use) && x in use
    ensures x in mem <==> use[x].Table?
  {
    assert UseOk(mem, spaces, x, use[x]);
  }

  lemma DropLeafUsed(mem: Mem, use: map<nat, Use>, p: nat, sp: Space, v: nat)
    requires SpaceOk(mem, use, p, sp) && v in sp.pm && v < TFVPN
    ensures TablesUsed(use - {Ppn(sp.pm[v])}, p, sp) && MemoryUsed(use - {Ppn(sp.pm[v])}, p,
            Space(sp.tab, WithLeaf(sp.pm, v, 0)))
  {
    hide TreeOk;
  }

  lemma DropLeafUses(mem: Mem, spaces: map<nat, Space>, use: map<nat, Use>, p: nat, v: nat, mem': Mem)
    requires UsesOk(mem, spaces, use) && p in spaces && v in spaces[p].pm && mem'.Keys == mem.Keys
    ensures UsesOk(mem', WithPm(spaces, p, spaces[p].pm - {v}), use - {Ppn(spaces[p].pm[v])})
  {
    var use' := use - {Ppn(spaces[p].pm[v])};
    forall y | y in use' ensures UseOk(mem', WithPm(spaces, p, spaces[p].pm - {v}), y, use'[y]) {
      assert UseOk(mem, spaces, y, use[y]);
    }
  }

  // ---------- Whole address spaces ----------

  ghost predicate Childless(sp: Space, key: Key) {
    forall k :: k in sp.tab && k.level + 1 == key.level ==> k.pre / 512 != key.pre
  }

  ghost function Parent(key: Key): Key {
    Key(key.level + 1, key.pre / 512)
  }

  lemma DropTableSpace(mem: Mem, use: map<nat, Use>, p: nat, sp: Space, key: Key)
    requires SpaceOk(mem, use, p, sp) && key in sp.tab && key.level < 2 && sp.pm == map[] && Childless(sp, key)
    ensures Parent(key) in sp.tab && TableOk(mem, sp, Parent(key)) && sp.tab[key] in mem
            && sp.tab[key] != sp.tab[Parent(key)]
    ensures SpaceOk(Poke(mem, sp.tab[Parent(key)], key.pre % 512, 0) - {sp.tab[key]}, use - {sp.tab[key]}, p,
            Space(sp.tab - {key}, sp.pm))
    ensures forall y :: y in use && use[y].p != p && y in mem ==> y != sp.tab[key] && y != sp.tab[Parent(key)]
  {
    TablesApart(mem, use, p, sp);
    assert TableOk(mem, sp, key);
    hide TreeOk;
    RemoveTable(mem, sp, key);
    assert use[sp.tab[key]] == Table(p, key) && use[sp.tab[Parent(key)]] == Table(p, Parent(key));
  }

  lemma DropTableUses(mem: Mem, spaces: map<nat, Space>, use: map<nat, Use>, p: nat, key: Key, mem': Mem)
    requires UsesOk(mem, spaces, use) && p in spaces && key in spaces[p].tab
    requires mem'.Keys == mem.Keys - {spaces[p].tab[key]}
    ensures UsesOk(mem', spaces[p := Space(spaces[p].tab - {key}, spaces[p].pm)], use - {spaces[p].tab[key]})
  {
    var use' := use - {spaces[p].tab[key]};
    forall y | y in use' ensures UseOk(mem', spaces[p := Space(spaces[p].tab - {key}, spaces[p].pm)], y, use'[y]) {
      assert UseOk(mem, spaces, y, use[y]);
    }
  }

  /** freewalk returns a table with nothing below it. */
  lemma DropTable(s: Vm, p: nat, key: Key)
    requires Good(s) && p in s.spaces && key in s.spaces[p].tab && key.level < 2 && s.spaces[p].pm == map[]
             && Childless(s.spaces[p], key)
    ensures var sp := s.spaces[p]; var x := sp.tab[key];
      && Parent(key) in sp.tab && TableOk(s.mem, sp, Parent(key)) && x in s.mem && x in s.use && x !in s.held
          && x != sp.tab[Parent(key)]
      && Good(s.(mem := Poke(s.mem, sp.tab[Parent(key)], key.pre % 512, 0) - {x},
          spaces := s.spaces[p := Space(sp.tab - {key}, sp.pm)],
                 use := s.use - {x}, held := s.held + {x}))
  {
    hide SpaceOk, UsesOk, TableOk, TreeOk, Childless, Poke;
    var sp := s.spaces[p];
    var x := sp.tab[key];
    DropTableSpace(s.mem, s.use, p, sp, key);
    HoldUse(s.pool, s.held, s.use.Keys, s.all, x);
    TableInUse(s.mem, s.use, p, sp, key);
    TableInUse(s.mem, s.use, p, sp, Parent(key));
    PokeKeeps(s.mem, sp, Parent(key), key.pre % 512);
    var mem' := Poke(s.mem, sp.tab[Parent(key)], key.pre % 512, 0) - {x};
    DropTableUses(s.mem, s.spaces, s.use, p, key, mem');
    AllElsewhere(s.mem, s.spaces, s.use, mem', s.use - {x}, p);
    assert (s.use - {x}).Keys == s.use.Keys - {x};
  }

  lemma PokeKeeps(mem: Mem, sp: Space, key: Key, j: nat)
    requires key in sp.tab && TableOk(mem, sp, key) && j < 512
    ensures Poke(mem, sp.tab[key], j, 0).Keys == mem.Keys && forall y :: y in mem && y != sp.tab[key] ==>
              Poke(mem, sp.tab[key], j, 0)[y] == mem[y]
  {
  }

  lemma TableInUse(mem: Mem, use: map<nat, Use>, p: nat, sp: Space, key: Key)
    requires SpaceOk(mem, use, p, sp) && key in sp.tab
    ensures sp.tab[key] in use && use[sp.tab[key]] == Table(p, key) && sp.tab[key] in mem && |mem[sp.tab[key]]| == 512
            && TableOk(mem, sp, key)
  {
    assert TableOk(mem, sp, key);
  }

  /** uvmcreate. */
  lemma NewSpace(s: Vm, p: nat, x: nat)
    requires Good(s) && p !in s.spaces && x in s.held
    ensures Good(s.(mem := s.mem[x := Blank(512)], spaces := s.spaces[p := Space(map[ROOT := x], map[])],
            use := s.use[x := Table(p, ROOT)], held := s.held - {x}))
  {
    hide SpaceOk, UsesOk;
    NotInMem(s, x);
    HoldUse(s.pool, s.held, s.use.Keys, s.all, x);
    var mem', sp, use' := s.mem[x := Blank(512)], Space(map[ROOT := x], map[]), s.use[x := Table(p, ROOT)];
    EmptySpace(mem', use', p, x);
    NewUses(s.mem, s.spaces, s.use, p, x);
    AllElsewhere(s.mem, s.spaces, s.use, mem', use', p);
    assert use'.Keys == s.use.Keys + {x};
  }

  lemma EmptySpace(mem: Mem, use: map<nat, Use>, p: nat, x: nat)
    requires x in mem && mem[x] == Blank(512) && x in use && use[x] == Table(p, ROOT)
    ensures SpaceOk(mem, use, p, Space(map[ROOT := x], map[]))
  {
    assert TableOk(mem, Space(map[ROOT := x], map[]), ROOT);
  }

  lemma NewUses(mem: Mem, spaces: map<nat, Space>, use: map<nat, Use>, p: nat, x: nat)
    requires UsesOk(mem, spaces, use) && p !in spaces && x !in use
    ensures UsesOk(mem[x := Blank(512)], spaces[p := Space(map[ROOT := x], map[])], use[x := Table(p, ROOT)])
  {
    var use' := use[x := Table(p, ROOT)];
    forall y | y in use' ensures UseOk(mem[x := Blank(512)], spaces[p := Space(map[ROOT := x], map[])], y, use'[y]) {
      assert y in use ==> UseOk(mem, spaces, y, use[y]);
    }
  }

  /** freewalk returns the root, and with it the address space is gone. */
  lemma DropSpace(s: Vm, p: nat)
    requires Good(s) && p in s.spaces && ROOT in s.spaces[p].tab
             && s.spaces[p] == Space(map[ROOT := s.spaces[p].tab[ROOT]], map[])
    ensures var x := s.spaces[p].tab[ROOT];
      x in s.use && x !in s.held && Good(s.(mem := s.mem - {x}, spaces := s.spaces - {p}, use := s.use - {x},
          held := s.held + {x}))
  {
    hide SpaceOk, UsesOk;
    var x := s.spaces[p].tab[ROOT];
    TableInUse(s.mem, s.use, p, s.spaces[p], ROOT);
    HoldUse(s.pool, s.held, s.use.Keys, s.all, x);
    DropUses(s.mem, s.spaces, s.use, p, x);
    AllElsewhere(s.mem, s.spaces, s.use, s.mem - {x}, s.use - {x}, p);
    assert (s.use - {x}).Keys == s.use.Keys - {x};
  }

  lemma DropUses(mem: Mem, spaces: map<nat, Space>, use: map<nat, Use>, p: nat, x: nat)
    requires UsesOk(mem, spaces, use) && p in spaces && spaces[p] == Space(map[ROOT := x], map[])
    ensures UsesOk(mem - {x}, spaces - {p}, use - {x})
  {
    var use' := use - {x};
    forall y | y in use' ensures UseOk(mem - {x}, spaces - {p}, y, use'[y]) {
      assert UseOk(mem, spaces, y, use[y]);
    }
  }
}
