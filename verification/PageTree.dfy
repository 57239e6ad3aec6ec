/** kernel/vm.c and kernel/riscv.h: the Sv39 page-table tree as data, and what it means as a map.  A page is
    its number (address / 4096); a page-table entry is the 64-bit word, in which the page number sits above
    ten flag bits.  Table pages are named by their level and the part of the virtual page number that leads
    to them. */
module PageTree {
  const PGSIZE: nat := 4096
  const VPAGES: nat := 0x800_0000     // 512 * 512 * 512
  const MAXVPN: nat := 0x400_0000     // MAXVA / PGSIZE
  const TRAPFRAME: nat := 0x3F_FFFF_E000
  const TFVPN: nat := 0x3FF_FFFE

  const PTE_R: nat := 2
  const PTE_W: nat := 4
  const PTE_X: nat := 8
  const PTE_U: nat := 16

  // ---------- Entries ----------

  predicate IsValid(pte: nat) {
    pte % 2 == 1
  }

  /** R, W or X is set. */
  predicate IsLeaf(pte: nat) {
    pte / 2 % 8 != 0
  }

  function Ppn(pte: nat): nat {
    pte / 1024
  }

  function Flags(pte: nat): nat {
    pte % 1024
  }

  /** PA2PTE(pa) | flags | PTE_V. */
  function MakePte(page: nat, flags: nat): nat
    requires flags < 1024
  {
    page * 1024 + (if flags % 2 == 1 then flags else flags + 1)
  }

  lemma PteRoundTrip(page: nat, flags: nat)
    requires flags < 1024
    ensures IsValid(MakePte(page, flags)) && Ppn(MakePte(page, flags)) == page
    ensures Flags(MakePte(page, flags)) == if flags % 2 == 1 then flags else flags + 1
  {
  }

  lemma PteLeaf(page: nat, flags: nat)
    requires flags < 1024
    ensures IsLeaf(MakePte(page, flags)) == (flags / 2 % 8 != 0)
  {
    assert MakePte(page, flags) / 2 == page * 512 + flags / 2;
    assert (page * 64 * 8 + flags / 2) % 8 == flags / 2 % 8;
  }

  // ---------- Where a page is found ----------

  /** PX(level, va), for the page of va. */
  function Px(level: nat, v: nat): nat {
    if level == 0 then v % 512 else if level == 1 then v / 512 % 512 else v / 512 / 512 % 512
  }

  datatype Key = Key(level: nat, pre: nat)

  const ROOT := Key(2, 0)

  /** The table of a level on the way to page v. */
  function KeyOf(level: nat, v: nat): Key {
    Key(level, if level == 0 then v / 512 else if level == 1 then v / 512 / 512 else v / 512 / 512 / 512)
  }

  lemma KeySteps(level: nat, v: nat)
    requires v < VPAGES && level <= 2
    ensures KeyOf(2, v) == ROOT && Px(level, v) < 512
    ensures level > 0 ==> KeyOf(level - 1, v).pre == KeyOf(level, v).pre * 512 + Px(level, v)
    ensures KeyOf(0, v).pre * 512 + Px(0, v) == v
    ensures level < 2 ==> KeyOf(level, v).pre / 512 == KeyOf(level + 1, v).pre
  {
  }

  // ---------- The tree ----------

  /** The table pages of an address space by key, and the map the tree stands for. */
  datatype Space = Space(tab: map<Key, nat>, pm: map<nat, nat>)

  ghost function Expected(sp: Space, key: Key, j: nat): nat {
    var k := key.pre * 512 + j;
    if key.level == 0 then
      if k in sp.pm then sp.pm[k] else 0
    else
      if Key(key.level - 1, k) in sp.tab then MakePte(sp.tab[Key(key.level - 1, k)], 0) else 0
  }

  /** The entry walk looks at, on every level. */
  lemma ExpectedOnWay(sp: Space, level: nat, v: nat)
    requires v < VPAGES && level <= 2
    ensures level == 0 ==> Expected(sp, KeyOf(0, v), Px(0, v)) == if v in sp.pm then sp.pm[v] else 0
    ensures level > 0 ==>
              Expected(sp, KeyOf(level, v), Px(level, v)) == if KeyOf(level - 1,
                  v) in sp.tab then MakePte(sp.tab[KeyOf(level - 1, v)], 0) else 0
  {
    KeySteps(level, v);
  }

  ghost predicate TableOk(mem: map<nat, seq<nat>>, sp: Space, key: Key)
    requires key in sp.tab
  {
    && sp.tab[key] in mem && |mem[sp.tab[key]]| == 512
    && forall j :: 0 <= j < 512 ==> mem[sp.tab[key]][j] == Expected(sp, key, j)
  }

  ghost predicate KeyOk(sp: Space, key: Key) {
    if key.level == 2 then key == ROOT else key.level < 2 && Key(key.level + 1, key.pre / 512) in sp.tab
  }

  ghost predicate LeafOk(sp: Space, v: nat)
    requires v in sp.pm
  {
    v < VPAGES && KeyOf(0, v) in sp.tab && IsValid(sp.pm[v]) && IsLeaf(sp.pm[v])
  }

  ghost predicate TreeOk(mem: map<nat, seq<nat>>, sp: Space) {
    && ROOT in sp.tab
    && (forall key :: key in sp.tab ==> KeyOk(sp, key) && TableOk(mem, sp, key))
    && (forall v :: v in sp.pm ==> LeafOk(sp, v))
  }

  /** What walk finds without allocating: the entry for page v, or 0 if a table is missing. */
  ghost function Walked(mem: map<nat, seq<nat>>, table: nat, level: nat, v: nat): nat
    requires level <= 2
    decreases level
  {
    if table !in mem || |mem[table]| != 512 || Px(level, v) >= 512 then 0 else
      var pte := mem[table][Px(level, v)];
      if level == 0 then pte else if IsValid(pte) then Walked(mem, Ppn(pte), level - 1, v) else 0
  }

  /** The tree means the map. */
  lemma {:induction false} WalkRefinesMap(mem: map<nat, seq<nat>>, sp: Space, level: nat, v: nat)
    requires TreeOk(mem, sp) && level <= 2 && v < VPAGES
    ensures KeyOf(level, v) in sp.tab ==>
              Walked(mem, sp.tab[KeyOf(level, v)], level, v) == if v in sp.pm then sp.pm[v] else 0
    ensures KeyOf(level, v) !in sp.tab ==> v !in sp.pm
  {
    KeySteps(level, v);
    if level > 0 {
      WalkRefinesMap(mem, sp, level - 1, v);
      var key, child := KeyOf(level, v), KeyOf(level - 1, v);
      if key in sp.tab {
        assert TableOk(mem, sp, key);
        if child in sp.tab {
          PteRoundTrip(sp.tab[child], 0);
        }
      } else if child in sp.tab {
        KeySteps(level - 1, v);
        assert KeyOk(sp, child);
      }
    } else {
      assert v in sp.pm ==> LeafOk(sp, v);
      assert KeyOf(0, v) in sp.tab ==> TableOk(mem, sp, KeyOf(0, v));
    }
  }

  // ---------- Changing the tree ----------

  /** Distinct tables are distinct pages. */
  ghost predicate Apart(sp: Space) {
    forall a, b :: a in sp.tab && b in sp.tab && a != b ==> sp.tab[a] != sp.tab[b]
  }

  /** The table with one entry changed. */
  ghost function Poke(mem: map<nat, seq<nat>>, page: nat, j: nat, pte: nat): map<nat, seq<nat>>
    requires page in mem && j < |mem[page]|
  {
    var t: seq<nat> := mem[page];
    mem[page := t[j := pte]]
  }

  /** memset of a table. */
  function Blank(n: nat): seq<nat> {
    seq(n, j => 0)
  }

  /** walk makes a missing table: a blank page, entered in its parent. */
  ghost function WithTable(mem: map<nat, seq<nat>>, sp: Space, key: Key, page: nat): map<nat, seq<nat>>
    requires key.level < 2 && Key(key.level + 1, key.pre / 512) in sp.tab
             && TableOk(mem, sp, Key(key.level + 1, key.pre / 512)) && page !in mem
  {
    Poke(mem[page := Blank(512)], sp.tab[Key(key.level + 1, key.pre / 512)], key.pre % 512, MakePte(page, 0))
  }

  lemma ChildKey(key: Key, key': Key, j: nat)
    requires key'.level == key.level + 1 && j < 512
    ensures key'.pre * 512 + j == key.pre <==> key'.pre == key.pre / 512 && j == key.pre % 512
  {
  }

  lemma AddTable(mem: map<nat, seq<nat>>, sp: Space, key: Key, page: nat)
    requires TreeOk(mem, sp) && Apart(sp) && key !in sp.tab && key.level < 2
             && Key(key.level + 1, key.pre / 512) in sp.tab
    requires page !in mem
    ensures TableOk(mem, sp, Key(key.level + 1, key.pre / 512))
    ensures TreeOk(WithTable(mem, sp, key, page), Space(sp.tab[key := page], sp.pm))
            && Apart(Space(sp.tab[key := page], sp.pm))
  {
    var parent := Key(key.level + 1, key.pre / 512);
    assert TableOk(mem, sp, parent);
    var mem', sp' := WithTable(mem, sp, key, page), Space(sp.tab[key := page], sp.pm);
    forall k | k in sp'.tab ensures KeyOk(sp', k) && TableOk(mem', sp', k) {
      if k == key {
        AddTableNew(mem, sp, key, page);
      } else {
        assert KeyOk(sp, k) && TableOk(mem, sp, k);
        AddTableOld(mem, sp, key, page, k);
      }
    }
    forall v | v in sp'.pm ensures LeafOk(sp', v) {
      assert LeafOk(sp, v);
    }
    forall k | k in sp.tab ensures sp.tab[k] != page {
      assert TableOk(mem, sp, k);
    }
  }

  /** Nothing hangs below a table that is not there. */
  lemma AddTableNew(mem: map<nat, seq<nat>>, sp: Space, key: Key, page: nat)
    requires TreeOk(mem, sp) && key !in sp.tab && key.level < 2 && Key(key.level + 1, key.pre / 512) in sp.tab
             && page !in mem
    requires TableOk(mem, sp, Key(key.level + 1, key.pre / 512))
    ensures TableOk(WithTable(mem, sp, key, page), Space(sp.tab[key := page], sp.pm), key)
  {
    var sp' := Space(sp.tab[key := page], sp.pm);
    forall j | 0 <= j < 512 ensures Expected(sp', key, j) == 0 {
      var k := key.pre * 512 + j;
      assert k / 512 == key.pre;
      assert k in sp.pm ==> LeafOk(sp, k);
      assert key.level > 0 && Key(key.level - 1, k) in sp.tab ==> KeyOk(sp, Key(key.level - 1, k));
    }
  }

  lemma AddTableOld(mem: map<nat, seq<nat>>, sp: Space, key: Key, page: nat, k: Key)
    requires Apart(sp) && key !in sp.tab && key.level < 2 && Key(key.level + 1, key.pre / 512) in sp.tab && page !in mem
    requires TableOk(mem, sp, Key(key.level + 1, key.pre / 512)) && k in sp.tab && k != key && TableOk(mem, sp, k)
    ensures TableOk(WithTable(mem, sp, key, page), Space(sp.tab[key := page], sp.pm), k)
  {
    var parent := Key(key.level + 1, key.pre / 512);
    var mem', sp' := WithTable(mem, sp, key, page), Space(sp.tab[key := page], sp.pm);
    forall j | 0 <= j < 512 ensures mem'[sp'.tab[k]][j] == Expected(sp', k, j) {
      assert mem[sp.tab[k]][j] == Expected(sp, k, j);
      if k.level == key.level + 1 {
        ChildKey(key, k, j);
      }
    }
  }

  /** The entry of page v: a leaf, or nothing. */
  ghost function WithLeaf(pm: map<nat, nat>, v: nat, pte: nat): map<nat, nat> {
    if pte == 0 then pm - {v} else pm[v := pte]
  }

  /** Writing the entry walk has found changes the map at that page only. */
  lemma SetLeaf(mem: map<nat, seq<nat>>, sp: Space, v: nat, pte: nat)
    requires TreeOk(mem, sp) && Apart(sp) && v < VPAGES && KeyOf(0, v) in sp.tab
             && (pte == 0 || (IsValid(pte) && IsLeaf(pte)))
    ensures TableOk(mem, sp, KeyOf(0, v))
    ensures TreeOk(Poke(mem, sp.tab[KeyOf(0, v)], v % 512, pte), Space(sp.tab, WithLeaf(sp.pm, v, pte)))
  {
    var low := KeyOf(0, v);
    assert TableOk(mem, sp, low);
    var mem', sp' := Poke(mem, sp.tab[low], v % 512, pte), Space(sp.tab, WithLeaf(sp.pm, v, pte));
    forall k | k in sp'.tab ensures KeyOk(sp', k) && TableOk(mem', sp', k) {
      assert KeyOk(sp, k) && TableOk(mem, sp, k);
      SetLeafTable(mem, sp, v, pte, k);
    }
    forall u | u in sp'.pm ensures LeafOk(sp', u) {
      assert u != v ==> LeafOk(sp, u);
    }
  }

  lemma SetLeafTable(mem: map<nat, seq<nat>>, sp: Space, v: nat, pte: nat, k: Key)
    requires Apart(sp) && KeyOf(0, v) in sp.tab && TableOk(mem, sp, KeyOf(0, v)) && k in sp.tab && TableOk(mem, sp, k)
    ensures TableOk(Poke(mem, sp.tab[KeyOf(0, v)], v % 512, pte), Space(sp.tab, WithLeaf(sp.pm, v, pte)), k)
  {
    var mem', sp' := Poke(mem, sp.tab[KeyOf(0, v)], v % 512, pte), Space(sp.tab, WithLeaf(sp.pm, v, pte));
    forall j | 0 <= j < 512 ensures mem'[sp'.tab[k]][j] == Expected(sp', k, j) {
      assert mem[sp.tab[k]][j] == Expected(sp, k, j);
    }
  }

  /** freewalk removes a table with nothing below it: its page is gone, its entry in the parent cleared. */
  lemma RemoveTable(mem: map<nat, seq<nat>>, sp: Space, key: Key)
    requires TreeOk(mem, sp) && Apart(sp) && key in sp.tab && key.level < 2 && sp.pm == map[]
    requires forall k :: k in sp.tab && k.level + 1 == key.level ==> k.pre / 512 != key.pre
    ensures var parent := Key(key.level + 1, key.pre / 512);
      && parent in sp.tab && TableOk(mem, sp, parent)
      && TreeOk(Poke(mem, sp.tab[parent], key.pre % 512, 0) - {sp.tab[key]}, Space(sp.tab - {key}, sp.pm))
  {
    var parent := Key(key.level + 1, key.pre / 512);
    assert KeyOk(sp, key) && TableOk(mem, sp, parent);
    var mem', sp' := Poke(mem, sp.tab[parent], key.pre % 512, 0) - {sp.tab[key]}, Space(sp.tab - {key}, sp.pm);
    forall k | k in sp'.tab ensures KeyOk(sp', k) && TableOk(mem', sp', k) {
      assert KeyOk(sp, k) && TableOk(mem, sp, k);
      RemoveTableOld(mem, sp, key, k);
    }
  }

  lemma RemoveTableOld(mem: map<nat, seq<nat>>, sp: Space, key: Key, k: Key)
    requires Apart(sp) && key in sp.tab && key.level < 2 && Key(key.level + 1, key.pre / 512) in sp.tab
    requires TableOk(mem, sp, Key(key.level + 1, key.pre / 512)) && k in sp.tab && k != key && TableOk(mem, sp, k)
    ensures TableOk(Poke(mem, sp.tab[Key(key.level + 1, key.pre / 512)], key.pre % 512, 0) - {sp.tab[key]},
            Space(sp.tab - {key}, sp.pm), k)
  {
    var mem', sp' := Poke(mem, sp.tab[Key(key.level + 1, key.pre / 512)], key.pre % 512, 0) - {sp.tab[key]},
        Space(sp.tab - {key}, sp.pm);
    forall j | 0 <= j < 512 ensures mem'[sp'.tab[k]][j] == Expected(sp', k, j) {
      assert mem[sp.tab[k]][j] == Expected(sp, k, j);
      if k.level == key.level + 1 {
        ChildKey(key, k, j);
      }
    }
  }

  /** A tree is not affected by what happens to other pages. */
  lemma TreeFrame(mem: map<nat, seq<nat>>, mem': map<nat, seq<nat>>, sp: Space)
    requires TreeOk(mem, sp) && forall key :: key in sp.tab && sp.tab[key] in mem ==>
               sp.tab[key] in mem' && mem'[sp.tab[key]] == mem[sp.tab[key]]
    ensures TreeOk(mem', sp)
  {
    forall key | key in sp.tab ensures KeyOk(sp, key) && TableOk(mem', sp, key) {
      assert KeyOk(sp, key) && TableOk(mem, sp, key);
    }
  }
}
