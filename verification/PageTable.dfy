/** Sv39 page tables (kernel/vm.c, kernel/riscv.h): three levels of 512-entry tables, and the flat
    map from virtual pages to entries that they stand for. */
module PageTable {

  const PGSIZE: nat := 4096
  const ENTRIES: nat := 512
  const MAXVPN: nat := 0x400_0000         // MAXVA / PGSIZE
  const TRAMPOLINE: nat := MAXVPN - 1     // as page numbers
  const TRAPFRAME: nat := TRAMPOLINE - 1

  const PTE_V: nat := 1
  const PTE_R: nat := 2
  const PTE_W: nat := 4
  const PTE_X: nat := 8
  const PTE_U: nat := 16

  /** A page-table entry: physical page number and the ten flag bits. */
  datatype Pte = Pte(ppn: nat, flags: nat) {
    predicate V() { flags % 2 == 1 }
    predicate U() { flags / 16 % 2 == 1 }
    /** Any of R, W, X set: the entry maps a page. */
    predicate Leaf() { flags / 2 % 8 != 0 }
  }

  const NOPTE: Pte := Pte(0, 0)

  /** flags | PTE_V */
  function OrV(flags: nat): nat { if flags % 2 == 1 then flags else flags + 1 }

  /** flags & ~PTE_U */
  function ClearU(flags: nat): nat { if flags / 16 % 2 == 1 then flags - 16 else flags }

  /** The one sets bit 0 and the other clears bit 4, and neither touches another bit. */
  lemma FlagBits(hi: nat, bit: nat, lo: nat)
    requires bit < 2 && lo < 16
    ensures OrV(hi * 2 + bit) == hi * 2 + 1
    ensures ClearU(hi * 32 + bit * 16 + lo) == hi * 32 + lo
  {
    var f := hi * 32 + bit * 16 + lo;
    assert f / 16 == hi * 2 + bit && (hi * 2 + bit) % 2 == bit;
  }

  type Tables = map<nat, seq<Pte>>

  /** Place of a table in some tree: below `root`, at `level` 2, 1 or 0, for the virtual pages
      whose number starts with `prefix`. */
  datatype Pos = Pos(root: nat, level: nat, prefix: nat)

  function Parent(p: Pos): Pos { Pos(p.root, p.level + 1, p.prefix / ENTRIES) }

  function Child(p: Pos, i: nat): Pos
    requires p.level > 0
  {
    Pos(p.root, p.level - 1, p.prefix * ENTRIES + i)
  }

  /** What each page of the allocator's range is in use for. */
  datatype Role =
    | Free                         // on the free list
    | Held                         // allocated, not part of any user address space
    | Node(pos: Pos)               // a page-table page
    | Frame(root: nat, vpn: nat)   // user memory

  /** Table contents, with the bookkeeping that says which page is which table. */
  datatype Mem = Mem(pt: Tables, role: map<nat, Role>, node: map<Pos, nat>)

  /** The entry for a virtual page, looked up in one step. */
  function Flat(m: Mem, root: nat, vpn: nat): Pte {
    var p := Pos(root, 0, vpn / ENTRIES);
    if p in m.node && m.node[p] in m.pt && |m.pt[m.node[p]]| == ENTRIES
    then m.pt[m.node[p]][vpn % ENTRIES] else NOPTE
  }

  ghost predicate EntryOk(m: Mem, p: Pos, i: nat)
    requires p in m.node && m.node[p] in m.pt && i < |m.pt[m.node[p]]|
  {
    var e := m.pt[m.node[p]][i];
    if !e.V() then e == NOPTE
    else if p.level > 0 then Child(p, i) in m.node
    else
      var vpn := p.prefix * ENTRIES + i;
      e.Leaf() && (vpn < TRAPFRAME ==> e.ppn in m.role && m.role[e.ppn] == Frame(p.root, vpn))
  }

  /** The page at p is a table, hangs where it should, and its valid entries lead somewhere. */
  ghost predicate NodeOk(m: Mem, p: Pos)
    requires p in m.node
  {
    var t := m.node[p];
    && t in m.role && m.role[t] == Node(p)
    && t in m.pt && |m.pt[t]| == ENTRIES
    && p.level <= 2
    && (p.level == 2 ==> p.prefix == 0 && p.root == t)
    && (p.level < 2 ==>
          && Parent(p) in m.node && m.node[Parent(p)] in m.pt && |m.pt[m.node[Parent(p)]]| == ENTRIES
          && m.pt[m.node[Parent(p)]][p.prefix % ENTRIES] == Pte(t, PTE_V))
    && forall i :: 0 <= i < ENTRIES ==> EntryOk(m, p, i)
  }

  /** No page in use is lost: a table is at its place, a user page is mapped at its address. */
  ghost predicate PageOk(m: Mem, a: nat)
    requires a in m.role
  {
    match m.role[a]
    case Node(p) => p in m.node && m.node[p] == a
    case Frame(r, v) => v < TRAPFRAME && Flat(m, r, v).V() && Flat(m, r, v).ppn == a
    case _ => true
  }

  ghost predicate WF(m: Mem) {
    match m
    case Mem(_, role, node) =>
      && (forall p {:trigger NodeOk(m, p)} :: p in node ==> NodeOk(m, p))
      && (forall a {:trigger PageOk(m, a)} :: a in role ==> PageOk(m, a))
  }

  /** Every address space maps every page as before. */
  ghost predicate SameFlat(m: Mem, m': Mem) {
    forall r: nat, v: nat {:trigger Flat(m', r, v)} :: Flat(m', r, v) == Flat(m, r, v)
  }

  /** Every page of every address space but one page of one is mapped as before. */
  ghost predicate SameFlatBut(m: Mem, m': Mem, root: nat, vpn: nat) {
    forall r: nat, v: nat {:trigger Flat(m', r, v)} :: r != root || v != vpn ==> Flat(m', r, v) == Flat(m, r, v)
  }

  ghost predicate Root(m: Mem, r: nat) {
    Pos(r, 2, 0) in m.node
  }

  // ---------------------------------------------------------------------------------
  // walk() without allocation, as the hardware does it.

  /** PX(level, va) for the page number of va. */
  function Px(level: nat, vpn: nat): (i: nat)
    requires level <= 2
    ensures i < ENTRIES
  {
    (if level == 0 then vpn else if level == 1 then vpn / ENTRIES else vpn / ENTRIES / ENTRIES) % ENTRIES
  }

  /** Three dependent lookups, giving up at the first invalid entry. */
  function Lookup(pt: Tables, root: nat, vpn: nat): Pte {
    if root !in pt || |pt[root]| != ENTRIES then NOPTE else
    var e2 := pt[root][Px(2, vpn)];
    if !e2.V() || e2.ppn !in pt || |pt[e2.ppn]| != ENTRIES then NOPTE else
    var e1 := pt[e2.ppn][Px(1, vpn)];
    if !e1.V() || e1.ppn !in pt || |pt[e1.ppn]| != ENTRIES then NOPTE else
    pt[e1.ppn][Px(0, vpn)]
  }

  /** The three-level walk computes the flat map. */
  lemma LookupIsFlat(m: Mem, root: nat, vpn: nat)
    requires WF(m) && Root(m, root) && vpn < ENTRIES * ENTRIES * ENTRIES
    ensures Lookup(m.pt, root, vpn) == Flat(m, root, vpn)
  {
    var p2 := Pos(root, 2, 0);
    var p1 := Pos(root, 1, vpn / ENTRIES / ENTRIES);
    var p0 := Pos(root, 0, vpn / ENTRIES);
    assert NodeOk(m, p2) && EntryOk(m, p2, Px(2, vpn));
    assert Child(p2, Px(2, vpn)) == p1 && Parent(p0) == p1 && Parent(p1) == p2;
    if p1 in m.node {
      assert NodeOk(m, p1) && EntryOk(m, p1, Px(1, vpn));
      assert Child(p1, Px(1, vpn)) == p0;
    }
    if p0 in m.node { assert NodeOk(m, p0); }
  }

  // ---------------------------------------------------------------------------------
  // The elementary changes to a tree, and what each does to the flat map.

  /** memset(page, 0, PGSIZE), as a table. */
  function Empty(): (t: seq<Pte>)
    ensures |t| == ENTRIES
  {
    seq(ENTRIES, _ => NOPTE)
  }

  function SetEntry(pt: Tables, t: nat, i: nat, e: Pte): Tables
    requires t in pt && i < |pt[t]|
  {
    pt[t := pt[t][i := e]]
  }

  /** Page a, fresh from the allocator, becomes the root table of a new address space. */
  function AddRoot(m: Mem, a: nat): Mem {
    Mem(m.pt[a := Empty()], m.role[a := Node(Pos(a, 2, 0))], m.node[Pos(a, 2, 0) := a])
  }

  /** walk(alloc): page a becomes the missing table at p, linked from its parent. */
  function AddNode(m: Mem, p: Pos, a: nat): Mem
    requires Parent(p) in m.node && m.node[Parent(p)] in m.pt && |m.pt[m.node[Parent(p)]]| == ENTRIES
    requires a != m.node[Parent(p)]
  {
    Mem(SetEntry(m.pt[a := Empty()], m.node[Parent(p)], p.prefix % ENTRIES, Pte(a, PTE_V)),
        m.role[a := Node(p)], m.node[p := a])
  }

  ghost predicate HasLeafTable(m: Mem, r: nat, v: nat) {
    && Pos(r, 0, v / ENTRIES) in m.node
    && m.node[Pos(r, 0, v / ENTRIES)] in m.pt && |m.pt[m.node[Pos(r, 0, v / ENTRIES)]]| == ENTRIES
  }

  /** *pte = e, for the entry of virtual page v. */
  function WriteLeaf(m: Mem, r: nat, v: nat, e: Pte): Mem
    requires HasLeafTable(m, r, v)
  {
    m.(pt := SetEntry(m.pt, m.node[Pos(r, 0, v / ENTRIES)], v % ENTRIES, e))
  }

  function SetRole(m: Mem, a: nat, role: Role): Mem {
    m.(role := m.role[a := role])
  }

  /** Nodes of a tree are reached through its root. */
  lemma NodeHasRoot(m: Mem, p: Pos)
    requires WF(m) && p in m.node
    ensures Root(m, p.root)
  {
    assert NodeOk(m, p);
    if p.level < 2 {
      assert NodeOk(m, Parent(p));
      if p.level == 0 { assert NodeOk(m, Parent(Parent(p))); }
    }
  }

  lemma AddRootKeepsWF(m: Mem, a: nat)
    requires WF(m) && a in m.role && m.role[a] == Held
    ensures WF(AddRoot(m, a)) && Root(AddRoot(m, a), a) && !Root(m, a)
    ensures SameFlat(m, AddRoot(m, a))
    ensures forall v: nat :: Flat(AddRoot(m, a), a, v) == NOPTE
  {
    var m' := AddRoot(m, a);
    var p := Pos(a, 2, 0);
    assert p !in m.node by { assert p in m.node ==> NodeOk(m, p); }
    forall q | q in m'.node ensures NodeOk(m', q) {
      if q != p {
        assert NodeOk(m, q) && m.node[q] != a;
        if q.level < 2 { assert NodeOk(m, Parent(q)) && m.node[Parent(q)] != a; }
        forall i | 0 <= i < ENTRIES ensures EntryOk(m', q, i) { assert EntryOk(m, q, i); }
      } else {
        forall i | 0 <= i < ENTRIES ensures EntryOk(m', q, i) {}
      }
    }
    forall r: nat, v: nat ensures Flat(m', r, v) == Flat(m, r, v) {
      var q := Pos(r, 0, v / ENTRIES);
      if q in m.node { assert NodeOk(m, q); }
    }
    forall b | b in m'.role ensures PageOk(m', b) {
      if b != a { assert PageOk(m, b); }
    }
    forall v: nat ensures Flat(m', a, v) == NOPTE {
      var q := Pos(a, 0, v / ENTRIES);
      if q in m.node { NodeHasRoot(m, q); }
    }
  }

  lemma AddNodeKeepsWF(m: Mem, p: Pos, a: nat)
    requires WF(m) && p.level < 2 && p !in m.node && Parent(p) in m.node
    requires a in m.role && m.role[a] == Held
    ensures NodeOk(m, Parent(p)) && a != m.node[Parent(p)]
    ensures WF(AddNode(m, p, a))
    ensures SameFlat(m, AddNode(m, p, a))
  {
    var u, j := m.node[Parent(p)], p.prefix % ENTRIES;
    assert NodeOk(m, Parent(p)) && EntryOk(m, Parent(p), j);
    assert Child(Parent(p), j) == p;
    var m' := AddNode(m, p, a);
    forall q | q in m'.node ensures NodeOk(m', q) {
      if q != p {
        assert NodeOk(m, q) && m.node[q] != a;
        if q.level < 2 {
          assert NodeOk(m, Parent(q)) && m.node[Parent(q)] != a;
          assert Parent(q) == Parent(p) ==> q.prefix % ENTRIES != j;
        }
        forall i | 0 <= i < ENTRIES ensures EntryOk(m', q, i) { assert EntryOk(m, q, i); }
      } else {
        forall i | 0 <= i < ENTRIES ensures EntryOk(m', q, i) {}
      }
    }
    forall r: nat, v: nat ensures Flat(m', r, v) == Flat(m, r, v) {
      var q := Pos(r, 0, v / ENTRIES);
      if q in m.node { assert NodeOk(m, q); }
    }
    forall b | b in m'.role ensures PageOk(m', b) {
      if b != a { assert PageOk(m, b); }
    }
  }

  /** Writing one leaf entry changes the flat map there and nowhere else. */
  lemma WriteLeafFlat(m: Mem, r: nat, v: nat, e: Pte)
    requires WF(m) && HasLeafTable(m, r, v)
    ensures Flat(WriteLeaf(m, r, v, e), r, v) == e && SameFlatBut(m, WriteLeaf(m, r, v, e), r, v)
  {
    var m', p := WriteLeaf(m, r, v, e), Pos(r, 0, v / ENTRIES);
    assert NodeOk(m, p);
    forall r': nat, v': nat | r' != r || v' != v ensures Flat(m', r', v') == Flat(m, r', v') {
      var q := Pos(r', 0, v' / ENTRIES);
      if q in m.node { assert NodeOk(m, q); }
    }
  }

  /** The tables stay well formed if the entry written, and the roles of the pages it and its
      predecessor name, are right. */
  lemma WriteLeafNode(m: Mem, r: nat, v: nat, e: Pte, role: map<nat, Role>, q: Pos)
    requires WF(m) && HasLeafTable(m, r, v) && q in m.node
    requires role.Keys == m.role.Keys
    requires if e.V() then e.Leaf() && (v < TRAPFRAME ==> e.ppn in role && role[e.ppn] == Frame(r, v)) else e == NOPTE
    requires forall a :: a in role && (m.role[a].Node? || role[a].Node?) ==> role[a] == m.role[a]
    requires forall a :: a in role && m.role[a].Frame? && m.role[a] != Frame(r, v) ==> role[a] == m.role[a]
    ensures NodeOk(WriteLeaf(m, r, v, e).(role := role), q)
  {
    var m', p := WriteLeaf(m, r, v, e).(role := role), Pos(r, 0, v / ENTRIES);
    assert NodeOk(m, p) && NodeOk(m, q);
    if q.level < 2 { assert NodeOk(m, Parent(q)); }
    forall i | 0 <= i < ENTRIES ensures EntryOk(m', q, i) {
      assert EntryOk(m, q, i);
      assert q.prefix * ENTRIES + i == v && q.level == 0 && q.root == r ==> q == p && i == v % ENTRIES;
    }
  }

  lemma WriteLeafKeepsWF(m: Mem, r: nat, v: nat, e: Pte, role: map<nat, Role>)
    requires WF(m) && HasLeafTable(m, r, v)
    requires role.Keys == m.role.Keys
    requires if e.V() then e.Leaf() && (v < TRAPFRAME ==> e.ppn in role && role[e.ppn] == Frame(r, v)) else e == NOPTE
    requires forall a :: a in role && (m.role[a].Node? || role[a].Node?) ==> role[a] == m.role[a]
    requires forall a :: a in role && m.role[a].Frame? && m.role[a] != Frame(r, v) ==> role[a] == m.role[a]
    requires forall a :: a in role && role[a].Frame? && role[a] != Frame(r, v) ==> m.role[a] == role[a]
    requires forall a :: a in role && role[a] == Frame(r, v) ==> e.V() && e.ppn == a && v < TRAPFRAME
    ensures WF(WriteLeaf(m, r, v, e).(role := role))
  {
    var m' := WriteLeaf(m, r, v, e).(role := role);
    WriteLeafFlat(m, r, v, e);
    forall q | q in m'.node ensures NodeOk(m', q) { WriteLeafNode(m, r, v, e, role, q); }
    forall a | a in m'.role ensures PageOk(m', a) {
      assert PageOk(m, a);
      if role[a].Frame? && role[a] != Frame(r, v) {
        assert Flat(m', role[a].root, role[a].vpn) == Flat(m, role[a].root, role[a].vpn);
      }
    }
  }

  /** A page moving between the free list and a caller's hands matters to no tree. */
  lemma SetRoleKeepsWF(m: Mem, a: nat, role: Role)
    requires WF(m) && a in m.role
    requires (m.role[a].Free? || m.role[a].Held?) && (role.Free? || role.Held?)
    ensures WF(SetRole(m, a, role)) && SameFlat(m, SetRole(m, a, role))
  {
    var m' := SetRole(m, a, role);
    forall q | q in m'.node ensures NodeOk(m', q) {
      assert NodeOk(m, q);
      forall i | 0 <= i < ENTRIES ensures EntryOk(m', q, i) { assert EntryOk(m, q, i); }
    }
    forall b | b in m'.role ensures PageOk(m', b) { assert PageOk(m, b); }
  }

  /** Mapping page v, until now unmapped, to a page in hand. */
  lemma MapKeepsWF(m: Mem, r: nat, v: nat, e: Pte)
    requires WF(m) && HasLeafTable(m, r, v) && !Flat(m, r, v).V()
    requires e.V() && e.Leaf() && (v < TRAPFRAME ==> e.ppn in m.role && m.role[e.ppn] == Held)
    ensures WF(Mapped(m, r, v, e))
  {
    forall a | a in m.role ensures m.role[a] != Frame(r, v) { assert PageOk(m, a); }
    WriteLeafKeepsWF(m, r, v, e, Mapped(m, r, v, e).role);
  }

  function Mapped(m: Mem, r: nat, v: nat, e: Pte): Mem
    requires HasLeafTable(m, r, v)
  {
    WriteLeaf(m, r, v, e).(role := if v < TRAPFRAME then m.role[e.ppn := Frame(r, v)] else m.role)
  }

  /** Unmapping page v hands its page, if it is user memory, to a new role. */
  lemma UnmapKeepsWF(m: Mem, r: nat, v: nat, role: Role)
    requires WF(m) && HasLeafTable(m, r, v) && Flat(m, r, v).V() && (role.Free? || role.Held?)
    ensures v < TRAPFRAME ==> Flat(m, r, v).ppn in m.role && m.role[Flat(m, r, v).ppn] == Frame(r, v)
    ensures WF(Unmapped(m, r, v, role))
  {
    var p := Pos(r, 0, v / ENTRIES);
    assert NodeOk(m, p) && EntryOk(m, p, v % ENTRIES);
    forall a | a in m.role && m.role[a] == Frame(r, v) ensures a == Flat(m, r, v).ppn && v < TRAPFRAME {
      assert PageOk(m, a);
    }
    WriteLeafKeepsWF(m, r, v, NOPTE, Unmapped(m, r, v, role).role);
  }

  function Unmapped(m: Mem, r: nat, v: nat, role: Role): Mem
    requires HasLeafTable(m, r, v)
  {
    WriteLeaf(m, r, v, NOPTE).(role := if v < TRAPFRAME then m.role[Flat(m, r, v).ppn := role] else m.role)
  }

  /** Changing the flags of a mapping that stays one. */
  lemma ReflagKeepsWF(m: Mem, r: nat, v: nat, flags: nat)
    requires WF(m) && HasLeafTable(m, r, v) && Flat(m, r, v).V()
    requires Pte(0, flags).V() && Pte(0, flags).Leaf()
    ensures WF(WriteLeaf(m, r, v, Pte(Flat(m, r, v).ppn, flags)))
  {
    var p := Pos(r, 0, v / ENTRIES);
    assert NodeOk(m, p) && EntryOk(m, p, v % ENTRIES);
    forall a | a in m.role && m.role[a] == Frame(r, v) ensures a == Flat(m, r, v).ppn && v < TRAPFRAME {
      assert PageOk(m, a);
    }
    WriteLeafKeepsWF(m, r, v, Pte(Flat(m, r, v).ppn, flags), m.role);
  }

  /** m' has the nodes of m, and perhaps some more below root r made of free pages. */
  ghost predicate Grown(m: Mem, m': Mem, r: nat) {
    && (forall p :: p in m.node ==> p in m'.node && m'.node[p] == m.node[p])
    && m'.role.Keys == m.role.Keys
    && forall a {:trigger m'.role[a]} :: a in m.role ==>
         m'.role[a] == m.role[a] || (m.role[a] == Free && m'.role[a].Node? && m'.role[a].pos.root == r)
  }

  /** The table at a level on the way from a root to a virtual page's entry. */
  function PosOf(root: nat, level: nat, vpn: nat): Pos
    requires level <= 2
  {
    Pos(root, level, if level == 2 then 0 else if level == 1 then vpn / ENTRIES / ENTRIES else vpn / ENTRIES)
  }

  lemma PathStep(root: nat, level: nat, vpn: nat)
    requires 0 < level <= 2 && vpn < MAXVPN
    ensures Child(PosOf(root, level, vpn), Px(level, vpn)) == PosOf(root, level - 1, vpn)
    ensures Parent(PosOf(root, level - 1, vpn)) == PosOf(root, level, vpn)
    ensures PosOf(root, level - 1, vpn).prefix % ENTRIES == Px(level, vpn)
  {
  }

  /** Where walk's entry at a level leads: to the next table, or nowhere if there is none. */
  lemma PathEntry(m: Mem, root: nat, level: nat, vpn: nat)
    requires WF(m) && 0 < level <= 2 && vpn < MAXVPN && PosOf(root, level, vpn) in m.node
    ensures var t := m.node[PosOf(root, level, vpn)];
            && t in m.pt && |m.pt[t]| == ENTRIES
            && var e := m.pt[t][Px(level, vpn)]; var c := PosOf(root, level - 1, vpn);
               (e.V() <==> c in m.node) && (e.V() ==> e.ppn == m.node[c])
  {
    PathStep(root, level, vpn);
    var p := PosOf(root, level, vpn);
    assert NodeOk(m, p) && EntryOk(m, p, Px(level, vpn));
    if PosOf(root, level - 1, vpn) in m.node { assert NodeOk(m, PosOf(root, level - 1, vpn)); }
  }

  lemma GrownTrans(m: Mem, m1: Mem, m2: Mem, r: nat)
    requires Grown(m, m1, r) && Grown(m1, m2, r)
    ensures Grown(m, m2, r)
  {
    forall a | a in m.role
      ensures m2.role[a] == m.role[a] || (m.role[a] == Free && m2.role[a].Node? && m2.role[a].pos.root == r)
    {
      var x, y := m1.role[a], m2.role[a];
    }
  }

  lemma PathMissing(m: Mem, root: nat, level: nat, vpn: nat)
    requires WF(m) && level <= 1 && vpn < MAXVPN && PosOf(root, level, vpn) !in m.node
    ensures PosOf(root, 0, vpn) !in m.node
  {
    if PosOf(root, 0, vpn) in m.node {
      assert NodeOk(m, PosOf(root, 0, vpn));
      PathStep(root, 1, vpn);
    }
  }

  /** Like Grown, but page a, until now in hand, has become the user page at v of r. */
  ghost predicate GrownMapping(m: Mem, m': Mem, r: nat, v: nat, a: nat) {
    && (forall p :: p in m.node ==> p in m'.node && m'.node[p] == m.node[p])
    && m'.role.Keys == m.role.Keys
    && (v < TRAPFRAME ==> a in m'.role && m'.role[a] == Frame(r, v))
    && forall b {:trigger m'.role[b]} :: b in m.role && (v < TRAPFRAME ==> b != a) ==>
         m'.role[b] == m.role[b] || (m.role[b] == Free && m'.role[b].Node? && m'.role[b].pos.root == r)
  }

  /** walk(alloc) from m0 to m, then *pte = e. */
  lemma MapStep(m0: Mem, m: Mem, r: nat, v: nat, e: Pte)
    requires WF(m) && SameFlat(m0, m) && Grown(m0, m, r) && Pos(r, 0, v / ENTRIES) in m.node
    requires !Flat(m0, r, v).V() && e.V() && e.Leaf()
    requires v < TRAPFRAME ==> e.ppn in m0.role && m0.role[e.ppn] == Held
    ensures HasLeafTable(m, r, v) && WF(Mapped(m, r, v, e))
    ensures Flat(Mapped(m, r, v, e), r, v) == e && SameFlatBut(m0, Mapped(m, r, v, e), r, v)
    ensures GrownMapping(m0, Mapped(m, r, v, e), r, v, e.ppn)
  {
    assert NodeOk(m, Pos(r, 0, v / ENTRIES));
    var m' := Mapped(m, r, v, e);
    assert Flat(m, r, v) == Flat(m0, r, v);
    assert v < TRAPFRAME ==> m.role[e.ppn] == Held;
    MapKeepsWF(m, r, v, e);
    WriteLeafFlat(m, r, v, e);
    var w := WriteLeaf(m, r, v, e);
    forall r': nat, v': nat ensures Flat(m', r', v') == Flat(w, r', v') {}
    forall b | b in m0.role && (v < TRAPFRAME ==> b != e.ppn) ensures m'.role[b] == m.role[b] {}
  }

  /** Pages first .. first+n-1 of root r map to pages ppn, ppn+1, ... with the given flags. */
  ghost predicate MapsRange(m: Mem, r: nat, first: nat, n: nat, ppn: nat, flags: nat) {
    forall k: nat {:trigger Flat(m, r, k)} :: first <= k < first + n ==> Flat(m, r, k) == Pte(ppn + k - first, flags)
  }

  /** Every page of every address space, but n pages of root from first on, is mapped as before. */
  ghost predicate SameFlatOutside(m: Mem, m': Mem, root: nat, first: nat, n: nat) {
    forall r: nat, v: nat {:trigger Flat(m', r, v)} ::
      !(r == root && first <= v < first + n) ==> Flat(m', r, v) == Flat(m, r, v)
  }

  /** Every table of m is still there. */
  ghost predicate KeepsNodes(m: Mem, m': Mem) {
    forall p :: p in m.node ==> p in m'.node && m'.node[p] == m.node[p]
  }

  /** Besides user pages put in place at first .. first+n-1, roles change only from free page to
      table of r. */
  ghost predicate GrownRange(m: Mem, m': Mem, r: nat, first: nat, n: nat, ppn: nat) {
    && KeepsNodes(m, m') && m'.role.Keys == m.role.Keys
    && forall b {:trigger m'.role[b]} :: b in m.role ==>
         if ppn <= b < ppn + n && first + (b - ppn) < TRAPFRAME then m'.role[b] == Frame(r, first + (b - ppn))
         else m'.role[b] == m.role[b] || (m.role[b] == Free && m'.role[b].Node? && m'.role[b].pos.root == r)
  }

  /** From m to m', n pages of r have been mapped and nothing else has changed but for new tables. */
  ghost predicate RangeMapped(m: Mem, m': Mem, r: nat, first: nat, n: nat, ppn: nat, flags: nat) {
    && MapsRange(m', r, first, n, ppn, flags)
    && SameFlatOutside(m, m', r, first, n)
    && GrownRange(m, m', r, first, n, ppn)
  }

  lemma RangeMappedStep(m: Mem, m1: Mem, m2: Mem, r: nat, first: nat, n: nat, ppn: nat, flags: nat, v: nat, a: nat)
    requires RangeMapped(m, m1, r, first, n, ppn, flags) && v == first + n && a == ppn + n
    requires v < TRAPFRAME ==> a in m.role && m.role[a] == Held
    requires GrownMapping(m1, m2, r, v, a)
    requires Flat(m2, r, v) == Pte(a, flags) && SameFlatBut(m1, m2, r, v)
    ensures RangeMapped(m, m2, r, first, n + 1, ppn, flags)
  {
    forall b | b in m.role
      ensures if ppn <= b < ppn + n + 1 && first + (b - ppn) < TRAPFRAME then m2.role[b] == Frame(r, first + (b - ppn))
              else m2.role[b] == m.role[b] || (m.role[b] == Free && m2.role[b].Node? && m2.role[b].pos.root == r)
    {
      var x, y := m1.role[b], m2.role[b];
    }
    forall k: nat | first <= k < first + n ensures Flat(m2, r, k) == Flat(m1, r, k) {}
  }

  lemma RangeMappedEnd(m: Mem, m1: Mem, m2: Mem, r: nat, first: nat, n: nat, ppn: nat, flags: nat)
    requires RangeMapped(m, m1, r, first, n, ppn, flags) && Grown(m1, m2, r) && SameFlat(m1, m2)
    ensures RangeMapped(m, m2, r, first, n, ppn, flags)
  {
    forall b | b in m.role
      ensures if ppn <= b < ppn + n && first + (b - ppn) < TRAPFRAME then m2.role[b] == Frame(r, first + (b - ppn))
              else m2.role[b] == m.role[b] || (m.role[b] == Free && m2.role[b].Node? && m2.role[b].pos.root == r)
    {
      var x, y := m1.role[b], m2.role[b];
    }
  }

  /** None of pages first .. first+n-1 of r is mapped, and those that will hold user memory can be
      mapped to pages ppn, ppn+1, ..., which are in hand. */
  ghost predicate CanMap(m: Mem, r: nat, first: nat, n: nat, ppn: nat) {
    forall k: nat {:trigger Flat(m, r, k)} :: first <= k < first + n ==>
      && !Flat(m, r, k).V()
      && (k < TRAPFRAME ==> ppn + (k - first) in m.role && m.role[ppn + (k - first)] == Held)
  }

  lemma CanMapNext(m: Mem, m': Mem, r: nat, first: nat, n: nat, j: nat, ppn: nat, flags: nat)
    requires CanMap(m, r, first, n, ppn) && RangeMapped(m, m', r, first, j, ppn, flags) && j < n
    ensures !Flat(m', r, first + j).V()
    ensures first + j < TRAPFRAME ==> ppn + j in m.role && m.role[ppn + j] == Held
    ensures first + j < TRAPFRAME ==> ppn + j in m'.role && m'.role[ppn + j] == Held
  {
    assert Flat(m', r, first + j) == Flat(m, r, first + j);
  }

  /** From m to m', n pages of r have been unmapped, their pages have gone to a new role, and
      nothing else has changed. */
  ghost predicate RangeUnmapped(m: Mem, m': Mem, r: nat, first: nat, n: nat, role: Role) {
    && m'.node == m.node && m'.role.Keys == m.role.Keys
    && (forall k: nat {:trigger Flat(m', r, k)} :: first <= k < first + n ==> Flat(m', r, k) == NOPTE)
    && SameFlatOutside(m, m', r, first, n)
    && forall a {:trigger m'.role[a]} :: a in m.role ==>
         m'.role[a] == if UserPage(m.role[a], r, first, n) then role else m.role[a]
  }

  /** The role of a user page at one of first .. first+n-1 of r. */
  predicate UserPage(role: Role, r: nat, first: nat, n: nat) {
    role.Frame? && role.root == r && first <= role.vpn < first + n
  }

  /** One unmapping. */
  lemma UnmapStep(m: Mem, r: nat, v: nat, role: Role)
    requires WF(m) && HasLeafTable(m, r, v) && Flat(m, r, v).V() && (role.Free? || role.Held?)
    ensures WF(Unmapped(m, r, v, role)) && RangeUnmapped(m, Unmapped(m, r, v, role), r, v, 1, role)
  {
    UnmapKeepsWF(m, r, v, role);
    WriteLeafFlat(m, r, v, NOPTE);
    var m', w := Unmapped(m, r, v, role), WriteLeaf(m, r, v, NOPTE);
    forall r': nat, v': nat ensures Flat(m', r', v') == Flat(w, r', v') {}
    forall a | a in m.role ensures m'.role[a] == if UserPage(m.role[a], r, v, 1) then role else m.role[a] {
      assert PageOk(m, a);
    }
  }

  lemma RangeUnmappedStep(m: Mem, m1: Mem, m2: Mem, r: nat, first: nat, n: nat, v: nat, role: Role)
    requires RangeUnmapped(m, m1, r, first, n, role) && RangeUnmapped(m1, m2, r, v, 1, role) && v == first + n
    requires !role.Frame?
    ensures RangeUnmapped(m, m2, r, first, n + 1, role)
  {
    forall k: nat | first <= k < first + n + 1 ensures Flat(m2, r, k) == NOPTE {
      assert k != v ==> Flat(m2, r, k) == Flat(m1, r, k);
    }
    forall r': nat, v': nat | !(r' == r && first <= v' < first + n + 1) ensures Flat(m2, r', v') == Flat(m, r', v') {
      assert Flat(m2, r', v') == Flat(m1, r', v');
    }
    forall a | a in m.role ensures m2.role[a] == if UserPage(m.role[a], r, first, n + 1) then role else m.role[a] {
      assert m1.role[a] == if UserPage(m.role[a], r, first, n) then role else m.role[a];
    }
  }

  /** A page that is not mapped has the all-zero entry, so that restoring a map restores it exactly. */
  lemma UnmappedIsZero(m: Mem, r: nat, v: nat)
    requires WF(m) && !Flat(m, r, v).V()
    ensures Flat(m, r, v) == NOPTE
  {
    var p := Pos(r, 0, v / ENTRIES);
    if p in m.node { assert NodeOk(m, p) && EntryOk(m, p, v % ENTRIES); }
  }

  /** From m to m', n pages of r have been mapped to pages that were free, and
      nothing else has changed but for new tables. */
  ghost predicate Alloced(m: Mem, m': Mem, r: nat, first: nat, n: nat) {
    && KeepsNodes(m, m') && m'.role.Keys == m.role.Keys
    && SameFlatOutside(m, m', r, first, n)
    && (forall k: nat {:trigger Flat(m', r, k)} :: first <= k < first + n ==>
          var e := Flat(m', r, k);
          e.V() && e.ppn in m.role && m.role[e.ppn] == Free)
    && forall a {:trigger m'.role[a]} :: a in m.role ==>
         || m'.role[a] == m.role[a]
         || (m.role[a] == Free && m'.role[a].Node? && m'.role[a].pos.root == r)
         || (m.role[a] == Free && UserPage(m'.role[a], r, first, n))
  }

  /** One more page: taken from the free list (m1), then mapped (m2). */
  lemma AllocedStep(m: Mem, m0: Mem, m1: Mem, m2: Mem, r: nat, first: nat, n: nat, flags: nat, v: nat, a: nat)
    requires Alloced(m, m0, r, first, n) && v == first + n
    requires a in m0.role && m0.role[a] == Free && m1 == SetRole(m0, a, Held)
    requires RangeMapped(m1, m2, r, v, 1, a, flags) && Pte(0, flags).V() && v < TRAPFRAME
    ensures Alloced(m, m2, r, first, n + 1)
  {
    assert Flat(m2, r, v) == Pte(a, flags);
    assert m0.role[a] == m.role[a];
    forall r': nat, v': nat | !(r' == r && first <= v' < first + n + 1) ensures Flat(m2, r', v') == Flat(m, r', v') {
      assert Flat(m2, r', v') == Flat(m1, r', v') == Flat(m0, r', v');
    }
    forall k: nat | first <= k < first + n ensures Flat(m2, r, k) == Flat(m0, r, k) {
      assert Flat(m2, r, k) == Flat(m1, r, k);
    }
    forall b | b in m.role
      ensures || m2.role[b] == m.role[b]
              || (m.role[b] == Free && m2.role[b].Node? && m2.role[b].pos.root == r)
              || (m.role[b] == Free && UserPage(m2.role[b], r, first, n + 1))
    {
      var x, y, z := m0.role[b], m1.role[b], m2.role[b];
    }
  }

  /** The page could not be mapped and went back. */
  lemma AllocedFail(m: Mem, m0: Mem, m1: Mem, m2: Mem, r: nat, first: nat, n: nat, flags: nat, v: nat, a: nat)
    requires Alloced(m, m0, r, first, n)
    requires a in m0.role && m0.role[a] == Free && m1 == SetRole(m0, a, Held)
    requires RangeMapped(m1, m2, r, v, 0, a, flags)
    ensures Alloced(m, SetRole(m2, a, Free), r, first, n)
  {
    var m3 := SetRole(m2, a, Free);
    assert m0.role[a] == m.role[a];
    forall r': nat, v': nat ensures Flat(m3, r', v') == Flat(m0, r', v') {
      assert Flat(m3, r', v') == Flat(m2, r', v') == Flat(m1, r', v') == Flat(m0, r', v');
    }
    forall b | b in m.role
      ensures || m3.role[b] == m.role[b]
              || (m.role[b] == Free && m3.role[b].Node? && m3.role[b].pos.root == r)
              || (m.role[b] == Free && UserPage(m3.role[b], r, first, n))
    {
      var x, y, z := m0.role[b], m1.role[b], m2.role[b];
    }
  }

  /** Unmapping what was allocated leaves every translation as it was, and of the pages taken only
      new tables. */
  lemma AllocedUndone(m: Mem, m1: Mem, m2: Mem, r: nat, first: nat, n: nat)
    requires WF(m) && Alloced(m, m1, r, first, n) && RangeUnmapped(m1, m2, r, first, n, Free)
    requires forall k: nat {:trigger Flat(m, r, k)} :: first <= k < first + n ==> !Flat(m, r, k).V()
    ensures SameFlat(m, m2) && Grown(m, m2, r)
  {
    forall r': nat, v': nat ensures Flat(m2, r', v') == Flat(m, r', v') {
      if r' == r && first <= v' < first + n {
        UnmappedIsZero(m, r, v');
      } else {
        assert Flat(m2, r', v') == Flat(m1, r', v');
      }
    }
    forall b | b in m.role
      ensures m2.role[b] == m.role[b] || (m.role[b] == Free && m2.role[b].Node? && m2.role[b].pos.root == r)
    {
      var x, y := m1.role[b], m2.role[b];
      assert PageOk(m, b);
    }
  }
}
