/** Whole address spaces: copying (uvmcopy), marking (uvmclear), and setting up and tearing down a
    process's page table (kernel/vm.c, kernel/proc.c). */
module AddressSpace {
  import opened Common
  import opened PageTable
  import opened Teardown
  import opened Vm

  /** The first n pages of r. */
  function PagesOf(m: Mem, d: map<nat, seq<Byte>>, r: nat, n: nat): seq<Page> {
    seq(n, k requires 0 <= k => PageAt(m, d, r, k))
  }

  /** A user page of the old space keeps its contents while pages are added to the new one. */
  lemma SourcePage(m: Mem, m1: Mem, d: map<nat, seq<Byte>>, d1: map<nat, seq<Byte>>, r: nat, r': nat, v: nat, n: nat)
    requires WF(m) && WF(m1) && r != r' && SameFlatOutside(m, m1, r', 0, n) && KeptData(m.role, d, d1)
    requires v < TRAPFRAME && Flat(m, r, v).V()
    requires forall a :: a in m1.role ==> a in d1 && |d1[a]| == PGSIZE
    ensures Flat(m1, r, v) == Flat(m, r, v) && PosOf(r, 0, v) in m1.node
    ensures Flat(m1, r, v).ppn in m1.role && |d1[Flat(m1, r, v).ppn]| == PGSIZE && Flat(m1, r, v).Leaf()
    ensures PageAt(m, d, r, v) == Page(Flat(m1, r, v).flags, d1[Flat(m1, r, v).ppn])
    ensures OrV(Flat(m1, r, v).flags) == Flat(m1, r, v).flags
  {
    assert Flat(m1, r, v) == Flat(m, r, v);
    FrameRole(m, r, v);
    FrameRole(m1, r, v);
    var p := Pos(r, 0, v / ENTRIES);
    assert NodeOk(m1, p) && EntryOk(m1, p, v % ENTRIES);
    assert m.role[Flat(m, r, v).ppn] != Free;
  }

  /** The body of uvmcopy's loop, from (k0, g0) on. */
  method CopyPage(mem: Memory, old_: nat, new_: nat, v: nat, ghost k0: Kernel, ghost g0: Book) returns (ok: bool)
    requires mem.Valid() && WF(MemOf(k0, g0)) && Root(mem.M(), old_) && Root(mem.M(), new_) && old_ != new_
             && v < TRAPFRAME
    requires Adding(k0, g0, mem.k, mem.g, new_, 0, PagesOf(MemOf(k0, g0), k0.data, old_, v)) == true
    requires Flat(MemOf(k0, g0), old_, v).V() && !Flat(MemOf(k0, g0), new_, v).V()
    modifies mem
    ensures mem.Valid()
    ensures ok ==> Adding(k0, g0, mem.k, mem.g, new_, 0, PagesOf(MemOf(k0, g0), k0.data, old_, v + 1)) == true
    ensures !ok ==> Alloced(MemOf(k0, g0), mem.M(), new_, 0, v) && KeptData(g0.role, k0.data, mem.k.data)
    ensures !ok ==> forall last: nat {:trigger CanGrow(g0, new_, 0, last)} :: v < last ==> !CanGrow(g0, new_, 0, last)
  {
    hide Spent, CanGrow, ShowsPages, NoneFreed, Listed, Lacking, SameFlat, Grown, KeptData, WF, NodeOk, EntryOk,
        WalkKeeps;
    ghost var m, d := MemOf(k0, g0), k0.data;
    SourcePage(m, mem.M(), d, mem.k.data, old_, new_, v, v);
    assert Flat(mem.M(), new_, v) == Flat(m, new_, v);
    var t := mem.Walk(old_, v, false);
    var e := mem.k.pt[t][Px(0, v)];
    ghost var want := PagesOf(m, d, old_, v);
    ok := mem.AddPage(new_, v, mem.k.data[e.ppn], e.flags, k0, g0, 0, want);
    assert PagesOf(m, d, old_, v + 1) == want + [PageAt(m, d, old_, v)];
  }

  /** uvmcopy. It works exactly when there are pages for the copies and for the tables the new space
      lacks. On success the new space shows the same pages as the old one, in pages of its own; on failure
      every translation is as before. */
  method Uvmcopy(mem: Memory, old_: nat, new_: nat, sz: nat) returns (ok: bool)
    requires mem.Valid() && Root(mem.M(), old_) && Root(mem.M(), new_) && old_ != new_ && sz <= TRAPFRAME * PGSIZE
    requires forall k: nat {:trigger Flat(mem.M(), old_, k)} :: k < PagesUp(sz) ==> Flat(mem.M(), old_, k).V()
    requires forall k: nat {:trigger Flat(mem.M(), new_, k)} :: k < PagesUp(sz) ==> !Flat(mem.M(), new_, k).V()
    modifies mem
    ensures mem.Valid() && KeptData(old(mem.g.role), old(mem.k.data), mem.k.data)
    ensures ok <==> CanGrow(old(mem.g), new_, 0, PagesUp(sz))
    ensures ok ==> Filled(old(mem.M()), old(mem.k.data), mem.M(), mem.k.data, new_, 0,
                          PagesOf(old(mem.M()), old(mem.k.data), old_, PagesUp(sz))) == true
    ensures !ok ==> SameFlat(old(mem.M()), mem.M()) && Grown(old(mem.M()), mem.M(), new_)
  {
    hide Spent, CanGrow, ShowsPages, KeptData, NoneFreed;
    ghost var k0, g0, m, d := mem.k, mem.g, mem.M(), mem.k.data;
    var i, n := 0, PagesUp(sz);
    AddingStart(mem.k, mem.g, new_, 0);
    assert PagesOf(m, d, old_, 0) == [];
    while i < n
      invariant i <= n && mem.Valid() && Adding(k0, g0, mem.k, mem.g, new_, 0, PagesOf(m, d, old_, i)) == true
    {
      ok := CopyPage(mem, old_, new_, i, k0, g0);
      if !ok {
        assert !CanGrow(g0, new_, 0, n);
        mem.GiveBack(new_, 0, i, m, d);
        return;
      }
      i := i + 1;
    }
    ok := true;
    AddingAll(k0, g0, mem.k, mem.g, new_, 0, PagesOf(m, d, old_, n), n);
  }

  /** uvmclear, of a page that has an entry: the entry loses PTE_U, and nothing else changes. */
  method Uvmclear(mem: Memory, root: nat, vpn: nat)
    requires mem.Valid() && Root(mem.M(), root) && vpn < MAXVPN && PosOf(root, 0, vpn) in mem.g.node
    modifies mem
    ensures mem.Valid() && mem.g == old(mem.g) && mem.k == old(mem.k).(pt := mem.k.pt)
    ensures var e := Flat(old(mem.M()), root, vpn); Flat(mem.M(), root, vpn) == Pte(e.ppn, ClearU(e.flags))
    ensures SameFlatBut(old(mem.M()), mem.M(), root, vpn) && !Flat(mem.M(), root, vpn).U()
  {
    var t := mem.Walk(root, vpn, false);
    ghost var m := mem.M();
    assert NodeOk(m, PosOf(root, 0, vpn)) && EntryOk(m, PosOf(root, 0, vpn), Px(0, vpn));
    var e := mem.k.pt[t][Px(0, vpn)];
    ClearKeepsWF(m, root, vpn);
    mem.k := mem.k.(pt := SetEntry(mem.k.pt, t, Px(0, vpn), Pte(e.ppn, ClearU(e.flags))));
    assert mem.M() == WriteLeaf(m, root, vpn, Pte(e.ppn, ClearU(e.flags)));
  }

  /** The five low flag bits, from a quotient and a remainder. */
  lemma LowBits(f: nat, q: nat, r: nat)
    requires f == 32 * q + r && r < 32
    ensures f % 2 == r % 2 && f / 2 % 8 == r / 2 % 8 && f / 16 % 2 == r / 16
  {
    QuotRem(f, 2, 16 * q + r / 2, r % 2);
    QuotRem(f / 2, 8, 2 * q + r / 2 / 8, r / 2 % 8);
    QuotRem(f, 16, 2 * q + r / 16, r % 16);
    QuotRem(f / 16, 2, q, r / 16);
  }

  lemma ClearFlags(f: nat)
    ensures Pte(0, ClearU(f)).V() == Pte(0, f).V() && Pte(0, ClearU(f)).Leaf() == Pte(0, f).Leaf()
    ensures !Pte(0, ClearU(f)).U()
  {
    var q, r := f / 32, f % 32;
    LowBits(f, q, r);
    if r >= 16 { LowBits(f - 16, q, r - 16); }
  }

  lemma ClearKeepsWF(m: Mem, r: nat, v: nat)
    requires WF(m) && HasLeafTable(m, r, v)
    ensures var e := Flat(m, r, v); var m' := WriteLeaf(m, r, v, Pte(e.ppn, ClearU(e.flags)));
            WF(m') && Flat(m', r, v) == Pte(e.ppn, ClearU(e.flags)) && SameFlatBut(m, m', r, v) && !Flat(m', r, v).U()
  {
    var e := Flat(m, r, v);
    var p := Pos(r, 0, v / ENTRIES);
    assert NodeOk(m, p) && EntryOk(m, p, v % ENTRIES);
    ClearFlags(e.flags);
    WriteLeafFlat(m, r, v, Pte(e.ppn, ClearU(e.flags)));
    if e.V() {
      ReflagKeepsWF(m, r, v, ClearU(e.flags));
    } else {
      WriteLeafKeepsWF(m, r, v, NOPTE, m.role) by { NotMappedHere(m, r, v); }
    }
  }

  lemma NotMappedHere(m: Mem, r: nat, v: nat)
    requires WF(m) && !Flat(m, r, v).V()
    ensures forall a :: a in m.role ==> m.role[a] != Frame(r, v)
  {
    forall a | a in m.role ensures m.role[a] != Frame(r, v) { assert PageOk(m, a); }
  }

  /** A page of the address space r: one of its tables or of its user pages. */
  predicate Owned(role: Role, r: nat) {
    (role.Node? && role.pos.root == r) || (role.Frame? && role.root == r)
  }

  /** The address space r is gone: its pages, and no others, have become free. */
  ghost predicate Torn(m: Mem, m': Mem, r: nat) {
    && !Root(m', r) && m'.role.Keys == m.role.Keys
    && (forall a {:trigger m'.role[a]} :: a in m.role ==> m'.role[a] == if Owned(m.role[a], r) then Free else m.role[a])
    && (forall p :: p in m'.node <==> p in m.node && p.root != r)
    && (forall p :: p in m'.node ==> m'.node[p] == m.node[p])
    && (forall r': nat, v: nat {:trigger Flat(m', r', v)} :: Flat(m', r', v) == if r' == r then NOPTE
        else Flat(m, r', v))
  }

  /** Nothing is mapped in r. */
  ghost predicate Vacant(m: Mem, r: nat) {
    forall v: nat {:trigger Flat(m, r, v)} :: !Flat(m, r, v).V()
  }

  lemma TornTables(m: Mem, m': Mem, r: nat)
    requires WF(m) && Root(m, r) && Vacant(m, r)
    requires Removed(m, m', Subtree(m, Pos(r, 2, 0))) && KeepsTables(m, m', Subtree(m, Pos(r, 2, 0)))
    ensures WF(m') && Torn(m, m', r)
  {
    RemoveRoot(m, m', r);
    forall q | q in m.node ensures q in Subtree(m, Pos(r, 2, 0)) <==> q.root == r { RootUnder(m, q, r); }
    forall a | a in m.role ensures m'.role[a] == if Owned(m.role[a], r) then Free else m.role[a] {
      assert PageOk(m, a);
    }
  }

  /** Unmapping the user pages, then freeing the tables. */
  lemma TornAll(m: Mem, m1: Mem, m2: Mem, r: nat, n: nat)
    requires WF(m) && RangeUnmapped(m, m1, r, 0, n, Free) && Torn(m1, m2, r)
    requires forall v: nat {:trigger Flat(m, r, v)} :: v >= n ==> !Flat(m, r, v).V()
    ensures Torn(m, m2, r)
  {
    forall a | a in m.role ensures m2.role[a] == if Owned(m.role[a], r) then Free else m.role[a] {
      assert PageOk(m, a);
      var x := m1.role[a];
    }
    forall r': nat, v: nat ensures Flat(m2, r', v) == if r' == r then NOPTE else Flat(m, r', v) {
      assert Flat(m1, r', v) == Flat(m1, r', v);
    }
  }

  lemma VacantAfter(m: Mem, m1: Mem, r: nat, n: nat)
    requires RangeUnmapped(m, m1, r, 0, n, Free)
    requires forall v: nat {:trigger Flat(m, r, v)} :: v >= n ==> !Flat(m, r, v).V()
    ensures Vacant(m1, r)
  {
    forall v: nat ensures !Flat(m1, r, v).V() {
      if v >= n { assert Flat(m1, r, v) == Flat(m, r, v); }
    }
  }

  lemma RemovedNoneFreed(m: Mem, m': Mem, S: set<Pos>)
    requires Removed(m, m', S)
    ensures NoneFreed(m'.role, m.role)
  {
    forall a | a in m'.role && m'.role[a] != Free ensures a in m.role && m.role[a] != Free {}
  }

  /** The tables below entry i are gone, and pages in use have kept their contents. */
  lemma EntryFreed(m: Mem, m1: Mem, m2: Mem, d: map<nat, seq<Byte>>, d1: map<nat, seq<Byte>>, d2: map<nat, seq<Byte>>,
                   p: Pos, i: nat)
    requires Bare(m, p) && OnePlace(m) && p in m.node && p.level > 0 && Standing(m, m1, p, i) && i < ENTRIES
    requires Removed(m1, m2, Subtree(m1, Child(p, i))) && KeepsTables(m1, m2, Subtree(m1, Child(p, i)))
    requires KeptData(m1.role, d, d1) && KeptData(m2.role, d1, d2)
    ensures m.node[p] in m2.pt && |m2.pt[m.node[p]]| == ENTRIES
    ensures Standing(m, m2.(pt := SetEntry(m2.pt, m.node[p], i, NOPTE)), p, i + 1) && KeptData(m2.role, d, d2)
  {
    StandingStep(m, m1, m2, p, i);
    RemovedNoneFreed(m1, m2, Subtree(m1, Child(p, i)));
    KeptDataFewer(m1.role, m2.role, d, d1, d2);
  }

  /** freewalk of the table at p, through which nothing is mapped: it and every table below it
      go to the free list, each once. */
  method Freewalk(mem: Memory, t: nat, ghost p: Pos)
    requires mem.ListOk() && OnePlace(mem.M()) && Bare(mem.M(), p) && p in mem.g.node && mem.g.node[p] == t
    modifies mem
    ensures mem.ListOk() && KeptData(mem.g.role, old(mem.k.data), mem.k.data)
    ensures Removed(old(mem.M()), mem.M(), Subtree(old(mem.M()), p))
            && KeepsTables(old(mem.M()), mem.M(), Subtree(old(mem.M()), p))
    decreases p.level, 1
  {
    hide Listed, Standing, Bare, OnePlace, Removed, KeepsTables;
    ghost var m := mem.M();
    StandingStart(m, p);
    var i: nat := 0;
    while i < ENTRIES
      invariant i <= ENTRIES && mem.ListOk() && KeptData(mem.g.role, old(mem.k.data), mem.k.data)
      invariant Standing(m, mem.M(), p, i)
    {
      FreeEntry(mem, t, i, p, m, old(mem.k.data));
      i := i + 1;
    }
    FreeTable(mem, t, p, m, old(mem.k.data));
  }

  /** The kfree that ends freewalk. */
  method FreeTable(mem: Memory, t: nat, ghost p: Pos, ghost m: Mem, ghost d: map<nat, seq<Byte>>)
    requires mem.ListOk() && OnePlace(m) && Bare(m, p) && p in m.node && m.node[p] == t
    requires Standing(m, mem.M(), p, ENTRIES) && KeptData(mem.g.role, d, mem.k.data)
    modifies mem
    ensures mem.ListOk() && KeptData(mem.g.role, d, mem.k.data)
    ensures Removed(m, mem.M(), Subtree(m, p)) && KeepsTables(m, mem.M(), Subtree(m, p))
  {
    hide Listed, Bare, OnePlace, Standing;
    StandingEnd(m, mem.M(), p);
    mem.Kfree(t);
    ghost var k1, g1 := mem.k, mem.g;
    mem.g := mem.g.(node := mem.g.node - {p});
    ListedSame(k1, g1, mem.k, mem.g);
  }

  /** The body of freewalk's loop. */
  method FreeEntry(mem: Memory, t: nat, i: nat, ghost p: Pos, ghost m: Mem, ghost d: map<nat, seq<Byte>>)
    requires mem.ListOk() && OnePlace(m) && Bare(m, p) && p in m.node && m.node[p] == t
    requires i < ENTRIES && Standing(m, mem.M(), p, i) && KeptData(mem.g.role, d, mem.k.data)
    modifies mem
    ensures mem.ListOk() && Standing(m, mem.M(), p, i + 1) && KeptData(mem.g.role, d, mem.k.data)
    decreases p.level, 0
  {
    StandingEntry(m, mem.M(), p, i);
    var e := mem.k.pt[t][i];
    if e.V() && !e.Leaf() {
      FreeChild(mem, t, i, e.ppn, p, m, d);
    }
  }

  /** An entry that points to a lower-level table. */
  method FreeChild(mem: Memory, t: nat, i: nat, child: nat, ghost p: Pos, ghost m: Mem, ghost d: map<nat, seq<Byte>>)
    requires mem.ListOk() && OnePlace(m) && Bare(m, p) && p in m.node && m.node[p] == t && p.level > 0
    requires i < ENTRIES && Standing(m, mem.M(), p, i) && KeptData(mem.g.role, d, mem.k.data)
    requires OnePlace(mem.M()) && Bare(mem.M(), Child(p, i))
    requires Child(p, i) in mem.g.node && mem.g.node[Child(p, i)] == child
    modifies mem
    ensures mem.ListOk() && Standing(m, mem.M(), p, i + 1) && KeptData(mem.g.role, d, mem.k.data)
    decreases p.level - 1, 2
  {
    hide Listed, Standing, OnePlace, Bare, KeptData;
    ghost var m1, d1 := mem.M(), mem.k.data;
    Freewalk(mem, child, Child(p, i));
    EntryFreed(m, m1, mem.M(), d, d1, mem.k.data, p, i);
    ghost var k2 := mem.k;
    mem.k := mem.k.(pt := SetEntry(mem.k.pt, t, i, NOPTE));
    ListedSame(k2, mem.g, mem.k, mem.g);
  }

  /** freewalk of a whole tree through which nothing is mapped. */
  method FreeTree(mem: Memory, root: nat)
    requires mem.Valid() && Root(mem.M(), root) && Vacant(mem.M(), root)
    modifies mem
    ensures mem.Valid() && Torn(old(mem.M()), mem.M(), root) && KeptData(mem.g.role, old(mem.k.data), mem.k.data)
  {
    ghost var m := mem.M();
    assert NodeOk(m, Pos(root, 2, 0));
    WFOnePlace(m);
    UnmappedIsBare(m, root);
    Freewalk(mem, root, Pos(root, 2, 0));
    TornTables(m, mem.M(), root);
  }

  /** uvmfree, of an address space that maps exactly the pages below sz: every page of it goes to
      the free list, and nothing else changes. */
  method Uvmfree(mem: Memory, root: nat, sz: nat)
    requires mem.Valid() && Root(mem.M(), root) && sz <= TRAPFRAME * PGSIZE
    requires forall v: nat {:trigger Flat(mem.M(), root, v)} :: v < PagesUp(sz) <==> Flat(mem.M(), root, v).V()
    modifies mem
    ensures mem.Valid() && Torn(old(mem.M()), mem.M(), root) && KeptData(mem.g.role, old(mem.k.data), mem.k.data)
  {
    ghost var m, d := mem.M(), mem.k.data;
    if sz > 0 { mem.Uvmunmap(root, 0, PagesUp(sz), true); }
    ghost var m1, d1 := mem.M(), mem.k.data;
    VacantAfter(m, m1, root, PagesUp(sz));
    FreeTree(mem, root);
    TornAll(m, m1, mem.M(), root, PagesUp(sz));
    TornNoneFreed(m1, mem.M(), root);
    KeptDataFewer(m1.role, mem.g.role, d, d1, mem.k.data);
  }

  lemma TornNoneFreed(m: Mem, m': Mem, r: nat)
    requires Torn(m, m', r)
    ensures NoneFreed(m'.role, m.role)
  {
    forall a | a in m'.role && m'.role[a] != Free ensures a in m.role && m.role[a] != Free {}
  }

  /** From m to m' the address space r has come into being, out of free pages made into its tables,
      and no other translation has changed. */
  ghost predicate Fresh(m: Mem, m': Mem, r: nat) {
    && !Root(m, r) && Root(m', r) && m'.role.Keys == m.role.Keys && KeepsNodes(m, m')
    && (forall r': nat, v: nat {:trigger Flat(m', r', v)} :: r' != r ==> Flat(m', r', v) == Flat(m, r', v))
    && forall a {:trigger m'.role[a]} :: a in m.role ==>
         m'.role[a] == m.role[a] || (m.role[a] == Free && m'.role[a].Node? && m'.role[a].pos.root == r)
  }

  lemma FreshMapped(m: Mem, m1: Mem, m2: Mem, r: nat, v: nat, n: nat, ppn: nat, flags: nat)
    requires Fresh(m, m1, r) && RangeMapped(m1, m2, r, v, n, ppn, flags) && v >= TRAPFRAME
    ensures Fresh(m, m2, r)
  {
    forall r': nat, v': nat | r' != r ensures Flat(m2, r', v') == Flat(m, r', v') {
      assert Flat(m2, r', v') == Flat(m1, r', v');
    }
    forall a | a in m.role
      ensures m2.role[a] == m.role[a] || (m.role[a] == Free && m2.role[a].Node? && m2.role[a].pos.root == r)
    {
      var x, y := m1.role[a], m2.role[a];
    }
  }

  lemma FreshUnmapped(m: Mem, m1: Mem, m2: Mem, r: nat, v: nat, role: Role)
    requires WF(m1) && Fresh(m, m1, r) && RangeUnmapped(m1, m2, r, v, 1, role) && v >= TRAPFRAME
    ensures Fresh(m, m2, r)
  {
    forall r': nat, v': nat | r' != r ensures Flat(m2, r', v') == Flat(m, r', v') {
      assert Flat(m2, r', v') == Flat(m1, r', v');
    }
    forall a | a in m.role
      ensures m2.role[a] == m.role[a] || (m.role[a] == Free && m2.role[a].Node? && m2.role[a].pos.root == r)
    {
      assert PageOk(m1, a);
      var x, y := m1.role[a], m2.role[a];
    }
  }

  lemma NotOwned(m: Mem, r: nat, a: nat)
    requires WF(m) && !Root(m, r) && a in m.role
    ensures !Owned(m.role[a], r)
  {
    if Owned(m.role[a], r) {
      assert PageOk(m, a);
      NodeHasRoot(m, if m.role[a].Node? then m.role[a].pos else Pos(r, 0, m.role[a].vpn / ENTRIES));
    }
  }

  /** Tearing a fresh address space down undoes everything. */
  lemma FreshTorn(m: Mem, m1: Mem, m2: Mem, r: nat)
    requires WF(m) && WF(m1) && Fresh(m, m1, r) && Torn(m1, m2, r)
    ensures m2.role == m.role && m2.node == m.node && SameFlat(m, m2)
  {
    forall a | a in m.role ensures m2.role[a] == m.role[a] {
      NotOwned(m, r, a);
      var x := m1.role[a];
    }
    forall p | p in m.node ensures p.root != r { NodeHasRoot(m, p); }
    forall p | p in m2.node ensures p in m.node && m2.node[p] == m.node[p] {
      assert NodeOk(m1, p);
      var a := m1.node[p];
      assert m1.role[a] == m.role[a] && PageOk(m, a);
    }
    forall r': nat, v: nat ensures Flat(m2, r', v) == Flat(m, r', v) {
      if r' == r {
        var p := Pos(r, 0, v / ENTRIES);
        if p in m.node { NodeHasRoot(m, p); }
      } else {
        assert Flat(m1, r', v) == Flat(m, r', v);
      }
    }
  }

  /** A process's page table, apart from its user memory: the trampoline and trapframe pages, neither
      of them for the user. */
  ghost predicate HighPages(m: Mem, r: nat, tramp: nat, tf: nat) {
    && Flat(m, r, TRAMPOLINE) == Pte(tramp, PTE_V + PTE_R + PTE_X)
    && Flat(m, r, TRAPFRAME) == Pte(tf, PTE_V + PTE_R + PTE_W)
    && (forall v: nat {:trigger Flat(m, r, v)} :: v > TRAMPOLINE ==> Flat(m, r, v) == NOPTE)
  }

  /** Nothing below page first of r is mapped. */
  ghost predicate OnlyAt(m: Mem, r: nat, first: nat) {
    forall v: nat {:trigger Flat(m, r, v)} :: v < first ==> Flat(m, r, v) == NOPTE
  }

  lemma FreshCreated(m: Mem, m': Mem, r: nat)
    requires WF(m) && !Root(m, r) && SameFlat(m, m') && r in m.role && m.role[r] == Free
    requires m'.role == m.role[r := Node(Pos(r, 2, 0))] && m'.node == m.node[Pos(r, 2, 0) := r]
    ensures Fresh(m, m', r)
  {
  }

  lemma FreshKept(m: Mem, m1: Mem, d: map<nat, seq<Byte>>, d1: map<nat, seq<Byte>>, d2: map<nat, seq<Byte>>, r: nat)
    requires Fresh(m, m1, r) && KeptData(m.role, d, d1) && KeptData(m1.role, d1, d2)
    ensures KeptData(m.role, d, d2)
  {
    assert NoneFreed(m.role, m1.role) by {
      forall a | a in m.role && m.role[a] != Free ensures a in m1.role && m1.role[a] != Free { var x := m1.role[a]; }
    }
    KeptDataTrans(m.role, m1.role, d, d1, d2);
  }

  /** uvmfree(pagetable, 0) on an error path. */
  method DiscardFresh(mem: Memory, root: nat, ghost m: Mem, ghost d: map<nat, seq<Byte>>)
    requires mem.Valid() && WF(m) && Fresh(m, mem.M(), root) && Vacant(mem.M(), root) && KeptData(m.role, d, mem.k.data)
    modifies mem
    ensures mem.Valid() && KeptData(m.role, d, mem.k.data)
    ensures mem.g.role == m.role && mem.g.node == m.node && SameFlat(m, mem.M())
  {
    ghost var m1, d1 := mem.M(), mem.k.data;
    Uvmfree(mem, root, 0);
    FreshTorn(m, m1, mem.M(), root);
    forall a | a in m.role && m.role[a] != Free ensures mem.k.data[a] == d[a] { assert mem.g.role[a] != Free; }
  }

  /** What is mapped in a new address space, once both high pages are. */
  lemma HighMapped(m1: Mem, m2: Mem, m3: Mem, r: nat, tramp: nat, tf: nat)
    requires forall v: nat {:trigger Flat(m1, r, v)} :: Flat(m1, r, v) == NOPTE
    requires RangeMapped(m1, m2, r, TRAMPOLINE, 1, tramp, PTE_V + PTE_R + PTE_X)
    requires RangeMapped(m2, m3, r, TRAPFRAME, 1, tf, PTE_V + PTE_R + PTE_W)
    ensures HighPages(m3, r, tramp, tf) && OnlyAt(m3, r, TRAPFRAME)
  {
    assert Flat(m3, r, TRAMPOLINE) == Flat(m2, r, TRAMPOLINE);
    forall v: nat | v > TRAMPOLINE || v < TRAPFRAME ensures Flat(m3, r, v) == NOPTE {
      assert Flat(m3, r, v) == Flat(m2, r, v) == Flat(m1, r, v);
    }
  }

  /** With the trapframe not mapped, unmapping the trampoline leaves nothing. */
  lemma HighUndone(m1: Mem, m2: Mem, m3: Mem, m4: Mem, r: nat, tramp: nat, tf: nat, f: nat, f': nat)
    requires forall v: nat {:trigger Flat(m1, r, v)} :: Flat(m1, r, v) == NOPTE
    requires RangeMapped(m1, m2, r, TRAMPOLINE, 1, tramp, f) && RangeMapped(m2, m3, r, TRAPFRAME, 0, tf, f')
    requires RangeUnmapped(m3, m4, r, TRAMPOLINE, 1, Held)
    ensures Vacant(m4, r)
  {
    forall v: nat ensures !Flat(m4, r, v).V() {
      if v != TRAMPOLINE { assert Flat(m4, r, v) == Flat(m3, r, v) == Flat(m2, r, v) == Flat(m1, r, v); }
    }
  }

  lemma KeptUnmapped(m: Mem, m': Mem, d: map<nat, seq<Byte>>, d1: map<nat, seq<Byte>>, d2: map<nat, seq<Byte>>, r: nat)
    requires Fresh(m, m', r) && KeptData(m.role, d, d1) && KeptData(m'.role, d1, d2)
    ensures KeptData(m.role, d, d2)
  {
    forall a | a in m.role && m.role[a] != Free ensures a in d && a in d2 && d2[a] == d[a] { var x := m'.role[a]; }
  }

  /** proc_pagetable's second mapping, of the trapframe. */
  method MapTrapframe(mem: Memory, root: nat, tf: nat, ghost tramp: nat, ghost m: Mem, ghost m1: Mem,
                      ghost d: map<nat, seq<Byte>>)
    returns (r: nat)
    requires mem.Valid() && WF(m) && Fresh(m, mem.M(), root) && KeptData(m.role, d, mem.k.data) && root != 0
    requires forall v: nat {:trigger Flat(m1, root, v)} :: Flat(m1, root, v) == NOPTE
    requires RangeMapped(m1, mem.M(), root, TRAMPOLINE, 1, tramp, PTE_V + PTE_R + PTE_X)
    modifies mem
    ensures mem.Valid() && KeptData(m.role, d, mem.k.data)
    ensures r == if |old(mem.g.free)| >= Lacking(Path(root, TRAPFRAME), old(mem.g.node)) then root else 0
    ensures r == 0 ==> mem.g.role == m.role && mem.g.node == m.node && SameFlat(m, mem.M())
    ensures r != 0 ==>
              Fresh(m, mem.M(), root) && HighPages(mem.M(), root, tramp, tf) && OnlyAt(mem.M(), root, TRAPFRAME)
  {
    ghost var m2, d2 := mem.M(), mem.k.data;
    assert Flat(m2, root, TRAPFRAME) == Flat(m1, root, TRAPFRAME);
    var ok := mem.MapPage(root, TRAPFRAME, tf, PTE_R + PTE_W);
    ghost var m3, d3 := mem.M(), mem.k.data;
    FreshMapped(m, m2, m3, root, TRAPFRAME, if ok then 1 else 0, tf, PTE_V + PTE_R + PTE_W);
    FreshKept(m, m2, d, d2, d3, root);
    if ok {
      HighMapped(m1, m2, m3, root, tramp, tf);
      r := root;
    } else {
      r := 0;
      assert Flat(m3, root, TRAMPOLINE) == Flat(m2, root, TRAMPOLINE);
      mem.Uvmunmap(root, TRAMPOLINE, 1, false);
      HighUndone(m1, m2, m3, mem.M(), root, tramp, tf, PTE_V + PTE_R + PTE_X, PTE_V + PTE_R + PTE_W);
      FreshUnmapped(m, m3, mem.M(), root, TRAMPOLINE, Held);
      KeptUnmapped(m, mem.M(), d, d3, mem.k.data, root);
      DiscardFresh(mem, root, m, d);
    }
  }

  /** A new address space has no table but its root; the trampoline and the trapframe share theirs. */
  lemma NewTables(m: Mem, g: Book, root: nat)
    requires WF(m) && !Root(m, root) && g.node == m.node[Pos(root, 2, 0) := root]
    ensures Lacking(Path(root, TRAMPOLINE), g.node) == 2 && Path(root, TRAPFRAME) == Path(root, TRAMPOLINE)
  {
    hide WF, Lacking;
    HasRoot(m, PosOf(root, 1, TRAMPOLINE));
    HasRoot(m, PosOf(root, 0, TRAMPOLINE));
    LackIs(g.node, root, TRAMPOLINE);
    assert Lack(g.node, root, TRAMPOLINE, 1) == 1;
  }

  lemma HasRoot(m: Mem, p: Pos)
    requires WF(m) && p.level <= 1
    ensures p in m.node ==> Root(m, p.root)
    decreases 1 - p.level
  {
    if p in m.node {
      assert NodeOk(m, p);
      if p.level == 0 { HasRoot(m, Parent(p)); } else { assert NodeOk(m, Parent(p)); }
    }
  }

  /** What the two mappings take. */
  lemma TwoTables(g1: Book, g2: Book, root: nat)
    requires Spent(g1, g2, Path(root, TRAMPOLINE), 0) && Lacking(Path(root, TRAMPOLINE), g1.node) == 2
    requires Path(root, TRAPFRAME) == Path(root, TRAMPOLINE)
    ensures Lacking(Path(root, TRAPFRAME), g2.node) == 0
  {
    assert Path(root, TRAPFRAME) - g2.node.Keys == {};
  }

  /** proc_pagetable: a new address space with the trampoline and the trapframe mapped and no user
      memory, if there are three free pages; otherwise (0) every page is what it was before. */
  method ProcPagetable(mem: Memory, tramp: nat, tf: nat) returns (root: nat)
    requires mem.Valid()
    modifies mem
    ensures mem.Valid() && KeptData(old(mem.g.role), old(mem.k.data), mem.k.data)
    ensures root != 0 <==> |old(mem.g.free)| >= 3
    ensures root == 0 ==>
              mem.g.role == old(mem.g.role) && mem.g.node == old(mem.g.node) && SameFlat(old(mem.M()), mem.M())
    ensures root != 0 ==> Fresh(old(mem.M()), mem.M(), root) && HighPages(mem.M(), root, tramp, tf)
    ensures root != 0 ==> OnlyAt(mem.M(), root, TRAPFRAME)
  {
    hide Lacking, Path, Spent, Listed, SameFlat, Grown, WF, NodeOk, EntryOk, Flat;
    ghost var m, d := mem.M(), mem.k.data;
    root := mem.Uvmcreate();
    if root == 0 { return; }
    ghost var m1, d1, g1 := mem.M(), mem.k.data, mem.g;
    FreshCreated(m, m1, root);
    NewTables(m, g1, root);
    var ok := mem.MapPage(root, TRAMPOLINE, tramp, PTE_R + PTE_X);
    FreshMapped(m, m1, mem.M(), root, TRAMPOLINE, if ok then 1 else 0, tramp, PTE_V + PTE_R + PTE_X);
    FreshKept(m, m1, d, d1, mem.k.data, root);
    if !ok {
      DiscardFresh(mem, root, m, d);
      return 0;
    }
    TwoTables(g1, mem.g, root);
    root := MapTrapframe(mem, root, tf, tramp, m, m1, d);
  }

  /** proc_freepagetable, of a process with sz bytes of user memory: every page of its address space
      is freed, and nothing else changes; the trampoline and the trapframe are not its to free. */
  method ProcFreepagetable(mem: Memory, root: nat, sz: nat, ghost tramp: nat, ghost tf: nat)
    requires mem.Valid() && Root(mem.M(), root) && sz <= TRAPFRAME * PGSIZE && HighPages(mem.M(), root, tramp, tf)
    requires forall v: nat {:trigger Flat(mem.M(), root, v)} :: v < TRAPFRAME ==>
               (v < PagesUp(sz) <==> Flat(mem.M(), root, v).V())
    modifies mem
    ensures mem.Valid() && Torn(old(mem.M()), mem.M(), root) && KeptData(mem.g.role, old(mem.k.data), mem.k.data)
  {
    ghost var m, d := mem.M(), mem.k.data;
    mem.Uvmunmap(root, TRAMPOLINE, 1, false);
    ghost var m1, d1 := mem.M(), mem.k.data;
    assert Flat(m1, root, TRAPFRAME) == Flat(m, root, TRAPFRAME);
    HighRoles(m, m1, root, TRAMPOLINE);
    mem.Uvmunmap(root, TRAPFRAME, 1, false);
    ghost var m2, d2 := mem.M(), mem.k.data;
    HighRoles(m1, m2, root, TRAPFRAME);
    LowPages(m, m1, m2, root, sz, tramp, tf);
    Uvmfree(mem, root, sz);
    TornLow(m, m1, m2, mem.M(), root);
    KeptFreed(m2, mem.M(), d, d1, d2, mem.k.data, root);
  }

  /** Unmapping a page that is not user memory changes no role. */
  lemma HighRoles(m: Mem, m': Mem, r: nat, v: nat)
    requires WF(m) && RangeUnmapped(m, m', r, v, 1, Held) && v >= TRAPFRAME
    ensures m'.role == m.role
  {
    forall a | a in m.role ensures m'.role[a] == m.role[a] { assert PageOk(m, a); }
  }

  lemma LowPages(m: Mem, m1: Mem, m2: Mem, r: nat, sz: nat, tramp: nat, tf: nat)
    requires HighPages(m, r, tramp, tf) && sz <= TRAPFRAME * PGSIZE
    requires RangeUnmapped(m, m1, r, TRAMPOLINE, 1, Held) && RangeUnmapped(m1, m2, r, TRAPFRAME, 1, Held)
    requires forall v: nat {:trigger Flat(m, r, v)} :: v < TRAPFRAME ==> (v < PagesUp(sz) <==> Flat(m, r, v).V())
    ensures forall v: nat {:trigger Flat(m2, r, v)} :: v < PagesUp(sz) <==> Flat(m2, r, v).V()
  {
    forall v: nat ensures v < PagesUp(sz) <==> Flat(m2, r, v).V() {
      if v != TRAPFRAME {
        assert Flat(m2, r, v) == Flat(m1, r, v);
        if v != TRAMPOLINE { assert Flat(m1, r, v) == Flat(m, r, v); }
      }
    }
  }

  lemma TornLow(m: Mem, m1: Mem, m2: Mem, m3: Mem, r: nat)
    requires RangeUnmapped(m, m1, r, TRAMPOLINE, 1, Held) && RangeUnmapped(m1, m2, r, TRAPFRAME, 1, Held)
    requires m2.role == m1.role == m.role && Torn(m2, m3, r)
    ensures Torn(m, m3, r)
  {
    forall r': nat, v: nat ensures Flat(m3, r', v) == if r' == r then NOPTE else Flat(m, r', v) {
      if r' != r { assert Flat(m3, r', v) == Flat(m2, r', v) == Flat(m1, r', v) == Flat(m, r', v); }
    }
  }

  lemma KeptFreed(m: Mem, m': Mem, d: map<nat, seq<Byte>>, d1: map<nat, seq<Byte>>, d2: map<nat, seq<Byte>>,
                  d3: map<nat, seq<Byte>>, r: nat)
    requires KeptData(m.role, d, d1) && KeptData(m.role, d1, d2) && KeptData(m'.role, d2, d3) && Torn(m, m', r)
    ensures KeptData(m'.role, d, d3)
  {
    forall a | a in m'.role && m'.role[a] != Free ensures a in d && a in d3 && d3[a] == d[a] {
      assert m.role[a] != Free;
    }
  }
}
