/** The page allocator (kernel/kalloc.c) and the page-table code over it (kernel/vm.c,
    kernel/proc.c). Pages are named by their physical page number. */
module Vm {
  import opened Common
  import opened PageTable

  /** The list from h through the links stored in the pages is s; page 0 ends it. */
  ghost predicate Chain(h: nat, link: map<nat, nat>, s: seq<nat>)
    decreases s
  {
    if s == [] then h == 0
    else h == s[0] && h != 0 && h in link && Chain(link[h], link, s[1..])
  }

  lemma {:induction false} ChainFrame(h: nat, link: map<nat, nat>, s: seq<nat>, a: nat, n: nat)
    requires Chain(h, link, s) && a !in s
    ensures Chain(h, link[a := n], s)
    decreases s
  {
    if s != [] { ChainFrame(link[h], link, s[1..], a, n); }
  }

  /** Every page from lo up to hi mapped to x. */
  function Pages<T>(lo: nat, hi: nat, x: T): (m: map<nat, T>)
    requires lo <= hi
    ensures forall a :: a in m <==> lo <= a < hi
    ensures forall a :: a in m ==> m[a] == x
  {
    if lo == hi then map[] else Pages(lo, hi - 1, x)[hi - 1 := x]
  }

  /** The machine's side: kmem.freelist, the links stored in free pages, the contents of pages in
      use as tables, and the contents of all pages as bytes. */
  datatype Kernel = Kernel(freelist: nat, link: map<nat, nat>, pt: Tables, data: map<nat, seq<Byte>>)

  /** The bookkeeping: the free list in order, its pages, what each page is, where each table is. */
  datatype Book = Book(list: seq<nat>, free: set<nat>, role: map<nat, Role>, node: map<Pos, nat>)

  ghost function MemOf(k: Kernel, g: Book): Mem {
    Mem(k.pt, g.role, g.node)
  }

  /** The links from freelist on run through the free pages, each once. */
  ghost predicate Listed(k: Kernel, g: Book) {
    Distinct(g.list) && (forall a :: a in g.list <==> a in g.free) && Chain(k.freelist, k.link, g.list)
  }

  lemma ListedSame(k: Kernel, g: Book, k': Kernel, g': Book)
    requires Listed(k, g) && k'.freelist == k.freelist && k'.link == k.link && g'.list == g.list && g'.free == g.free
    ensures Listed(k', g')
  {}

  /** The pages of the allocator's range each have one role; those on the free list are free. */
  ghost predicate Used(lo: nat, hi: nat, k: Kernel, g: Book) {
    && 0 < lo && (forall a :: a in g.role <==> lo <= a < hi)
    && (forall a {:trigger a in g.free} {:trigger g.role[a]} :: a in g.free <==> a in g.role && g.role[a] == Free)
    && (forall a :: a in g.role ==> a in k.data && |k.data[a]| == PGSIZE)
  }

  /** Page a put at the front of the free list, and taken from there. */
  ghost function Pushed(g: Book, a: nat): Book {
    g.(list := [a] + g.list, free := g.free + {a}, role := g.role[a := Free])
  }

  ghost function Popped(g: Book, a: nat): Book
    requires g.list != []
  {
    g.(list := g.list[1..], free := g.free - {a}, role := g.role[a := Held])
  }

  /** Pages that were in use keep their contents. */
  ghost predicate KeptData(role: map<nat, Role>, d: map<nat, seq<Byte>>, d': map<nat, seq<Byte>>) {
    forall a {:trigger role[a]} :: a in role && role[a] != Free ==> a in d && a in d' && d'[a] == d[a]
  }

  /** Pages in use stay in use. */
  ghost predicate NoneFreed(role: map<nat, Role>, role': map<nat, Role>) {
    forall a {:trigger role[a]} :: a in role && role[a] != Free ==> a in role' && role'[a] != Free
  }

  lemma KeptDataTrans(role: map<nat, Role>, role': map<nat, Role>,
                      d: map<nat, seq<Byte>>, d': map<nat, seq<Byte>>, d'': map<nat, seq<Byte>>)
    requires KeptData(role, d, d') && KeptData(role', d', d'') && NoneFreed(role, role')
    ensures KeptData(role, d, d'')
  {
    forall a | a in role && role[a] != Free ensures a in d && a in d'' && d''[a] == d[a] {
      assert role'[a] != Free;
    }
  }

  lemma KeptDataFewer(role: map<nat, Role>, role': map<nat, Role>,
                      d: map<nat, seq<Byte>>, d': map<nat, seq<Byte>>, d'': map<nat, seq<Byte>>)
    requires KeptData(role, d, d') && KeptData(role', d', d'') && NoneFreed(role', role)
    ensures KeptData(role', d, d'')
  {
    forall a | a in role' && role'[a] != Free ensures a in d && a in d'' && d''[a] == d[a] {
      assert role[a] != Free;
    }
  }

  lemma NoneFreedTrans(r0: map<nat, Role>, r1: map<nat, Role>, r2: map<nat, Role>)
    requires NoneFreed(r0, r1) && NoneFreed(r1, r2)
    ensures NoneFreed(r0, r2)
  {
    forall a | a in r0 && r0[a] != Free ensures a in r2 && r2[a] != Free { assert r1[a] != Free; }
  }

  /** PGROUNDUP(sz) / PGSIZE */
  function PagesUp(sz: nat): nat {
    (sz + PGSIZE - 1) / PGSIZE
  }

  const PERM_USER: nat := PTE_R + PTE_W + PTE_X + PTE_U

  /** A page as its process sees it: flags and contents. */
  datatype Page = Page(flags: nat, bytes: seq<Byte>)

  const ZEROPAGE: Page := Page(OrV(PERM_USER), seq(PGSIZE, _ => 0))

  function PageAt(m: Mem, d: map<nat, seq<Byte>>, r: nat, v: nat): Page {
    var e := Flat(m, r, v);
    Page(e.flags, if e.ppn in d then d[e.ppn] else [])
  }

  /** The pages of r from first on are those in want. */
  ghost predicate ShowsPages(m: Mem, d: map<nat, seq<Byte>>, r: nat, first: nat, want: seq<Page>) {
    forall k: nat {:trigger Flat(m, r, k)} :: first <= k < first + |want| ==> PageAt(m, d, r, k) == want[k - first]
  }

  /** They stay so when one more is mapped. */
  lemma ShowsPagesStep(m0: Mem, m1: Mem, m2: Mem, d0: map<nat, seq<Byte>>, d1: map<nat, seq<Byte>>, d2: map<nat,
                       seq<Byte>>,
                       r: nat, first: nat, want: seq<Page>, v: nat, a: nat, page: Page)
    requires WF(m0) && ShowsPages(m0, d0, r, first, want) && v == first + |want| < TRAPFRAME
    requires forall k: nat {:trigger Flat(m0, r, k)} :: first <= k < v ==> Flat(m0, r, k).V()
    requires KeptData(m0.role, d0, d1) && a in m0.role && m0.role[a] == Free && m1 == SetRole(m0, a, Held)
    requires a in d1 && d1[a] == page.bytes && KeptData(m1.role, d1, d2)
    requires RangeMapped(m1, m2, r, v, 1, a, page.flags)
    ensures ShowsPages(m2, d2, r, first, want + [page])
  {
    forall k: nat | first <= k < v + 1 ensures PageAt(m2, d2, r, k) == (want + [page])[k - first] {
      if k < v {
        assert Flat(m2, r, k) == Flat(m1, r, k) == Flat(m0, r, k);
        FrameRole(m0, r, k);
        assert m1.role[Flat(m0, r, k).ppn] != Free;
      } else {
        assert m1.role[a] != Free;
        assert Flat(m2, r, k) == Pte(a, page.flags);
      }
    }
  }

  lemma FrameRole(m: Mem, r: nat, v: nat)
    requires WF(m) && Flat(m, r, v).V() && v < TRAPFRAME
    ensures Flat(m, r, v).ppn in m.role && m.role[Flat(m, r, v).ppn] == Frame(r, v)
  {
    var p := Pos(r, 0, v / ENTRIES);
    assert NodeOk(m, p) && EntryOk(m, p, v % ENTRIES);
  }

  lemma NoneFreedMapping(m0: Mem, m1: Mem, m2: Mem, r: nat, v: nat, n: nat, a: nat, flags: nat)
    requires a in m0.role && m0.role[a] == Free && m1 == SetRole(m0, a, Held) && RangeMapped(m1, m2, r, v, n, a, flags)
    requires n <= 1 && v < TRAPFRAME
    ensures NoneFreed(m0.role, m2.role) && NoneFreed(m0.role, SetRole(m2, a, Free).role)
  {
    forall b | b in m0.role && m0.role[b] != Free ensures b in m2.role && m2.role[b] != Free {
      assert m1.role[b] == m0.role[b];
      var x := m2.role[b];
    }
  }

  /** r has grown by the pages in want, from first on, and nothing else has changed. */
  ghost predicate Filled(m: Mem, d: map<nat, seq<Byte>>, m': Mem, d': map<nat, seq<Byte>>,
                         r: nat, first: nat, want: seq<Page>)
  {
    && Alloced(m, m', r, first, |want|) && ShowsPages(m', d', r, first, want)
    && KeptData(m.role, d, d') && NoneFreed(m.role, m'.role)
  }

  /** One more page, taken from the free list (m1) and mapped (m2). */
  lemma FilledStep(m: Mem, m0: Mem, m1: Mem, m2: Mem,
                   d: map<nat, seq<Byte>>, d0: map<nat, seq<Byte>>, d1: map<nat, seq<Byte>>, d2: map<nat, seq<Byte>>,
                   r: nat, first: nat, want: seq<Page>, v: nat, a: nat, page: Page)
    requires WF(m0) && Filled(m, d, m0, d0, r, first, want) && Pte(0, page.flags).V()
    requires v == first + |want| < TRAPFRAME && a in m0.role && m0.role[a] == Free && m1 == SetRole(m0, a, Held)
    requires KeptData(m0.role, d0, d1) && a in d1 && d1[a] == page.bytes && KeptData(m1.role, d1, d2)
    requires RangeMapped(m1, m2, r, v, 1, a, page.flags)
    ensures Filled(m, d, m2, d2, r, first, want + [page])
  {
    NoneFreedMapping(m0, m1, m2, r, v, 1, a, page.flags);
    NoneFreedTrans(m.role, m0.role, m2.role);
    KeptDataTrans(m0.role, m1.role, d0, d1, d2);
    KeptDataTrans(m.role, m0.role, d, d0, d2);
    AllocedStep(m, m0, m1, m2, r, first, |want|, page.flags, v, a);
    ShowsPagesStep(m0, m1, m2, d0, d1, d2, r, first, want, v, a, page);
  }

  /** A page that could not be mapped goes back. */
  lemma FilledFail(m: Mem, m0: Mem, m1: Mem, m2: Mem,
                   d: map<nat, seq<Byte>>, d0: map<nat, seq<Byte>>, d1: map<nat, seq<Byte>>, d2: map<nat, seq<Byte>>,
                   r: nat, first: nat, want: seq<Page>, v: nat, a: nat, flags: nat)
    requires Filled(m, d, m0, d0, r, first, want)
    requires v < TRAPFRAME && a in m0.role && m0.role[a] == Free && m1 == SetRole(m0, a, Held)
    requires KeptData(m0.role, d0, d1) && KeptData(m1.role, d1, d2)
    requires RangeMapped(m1, m2, r, v, 0, a, flags)
    ensures a in m2.role && m2.role[a] == Held
    ensures Alloced(m, SetRole(m2, a, Free), r, first, |want|)
    ensures forall x: seq<Byte> {:trigger d2[a := x]} :: KeptData(m.role, d, d2[a := x])
  {
    NoneFreedMapping(m0, m1, m2, r, v, 0, a, flags);
    KeptDataTrans(m0.role, m1.role, d0, d1, d2);
    KeptDataTrans(m.role, m0.role, d, d0, d2);
    AllocedFail(m, m0, m1, m2, r, first, |want|, flags, v, a);
    assert m0.role[a] == m.role[a];
  }

  /** Unmapping and freeing what was allocated. */
  lemma KeptUndone(m0: Mem, m2: Mem, d0: map<nat, seq<Byte>>, d1: map<nat, seq<Byte>>, d2: map<nat, seq<Byte>>, r: nat)
    requires KeptData(m0.role, d0, d1) && KeptData(m2.role, d1, d2) && Grown(m0, m2, r)
    ensures KeptData(m0.role, d0, d2)
  {
    forall a | a in m0.role && m0.role[a] != Free ensures a in d0 && a in d2 && d2[a] == d0[a] {
      assert m2.role[a] != Free;
    }
  }

  // ---------------------------------------------------------------------------------
  // How many pages a mapping takes.

  /** The tables below the root on the way to the entry of a virtual page. */
  function Path(root: nat, vpn: nat): set<Pos> {
    {PosOf(root, 1, vpn), PosOf(root, 0, vpn)}
  }

  /** Those for n pages from page first on. */
  function TablesFor(root: nat, first: nat, n: nat): set<Pos> {
    if n == 0 then {} else TablesFor(root, first, n - 1) + Path(root, first + n - 1)
  }

  /** How many of the tables in need there are not. */
  ghost function Lacking(need: set<Pos>, node: map<Pos, nat>): nat {
    |need - node.Keys|
  }

  /** The tables in need are there, and each that was not has taken a free page; so have n others. */
  ghost predicate Spent(g: Book, g': Book, need: set<Pos>, n: nat) {
    && (forall p :: p in g'.node <==> p in g.node || p in need)
    && |g'.free| + Lacking(need, g.node) + n == |g.free|
  }

  lemma LackingMore(a: set<Pos>, b: set<Pos>, node: map<Pos, nat>, node': map<Pos, nat>)
    requires forall p :: p in node' <==> p in node || p in a
    ensures Lacking(a + b, node) == Lacking(a, node) + Lacking(b, node')
  {
    var k, k' := node.Keys, node'.Keys;
    assert (a + b) - k == (a - k) + (b - k') && (a - k) !! (b - k');
  }

  lemma LackingLess(a: set<Pos>, b: set<Pos>, node: map<Pos, nat>)
    requires a <= b
    ensures Lacking(a, node) <= Lacking(b, node)
  {
    SubsetSize(a - node.Keys, b - node.Keys);
  }

  lemma SpentTrans(g0: Book, g1: Book, g2: Book, a: set<Pos>, b: set<Pos>, n: nat, m: nat)
    requires Spent(g0, g1, a, n) && Spent(g1, g2, b, m)
    ensures Spent(g0, g2, a + b, n + m)
  {
    hide Lacking;
    LackingMore(a, b, g0.node, g1.node);
  }

  /** Too little is left for b: there was too little for all. */
  lemma SpentShort(g0: Book, g1: Book, a: set<Pos>, b: set<Pos>, all: set<Pos>, n: nat, m: nat)
    requires Spent(g0, g1, a, n) && |g1.free| < Lacking(b, g1.node) + m && a + b <= all
    ensures |g0.free| < Lacking(all, g0.node) + n + m
  {
    hide Lacking;
    LackingMore(a, b, g0.node, g1.node);
    LackingLess(a + b, all, g0.node);
  }

  lemma SpentNothing(g: Book)
    ensures Spent(g, g, {}, 0)
  {
    assert {} - g.node.Keys == {};
  }

  lemma SpentAll(g: Book, g': Book, need: set<Pos>)
    requires Spent(g, g', need, 0)
    ensures |g.free| >= Lacking(need, g.node)
  {}

  lemma {:induction false} TablesMore(root: nat, first: nat, j: nat, n: nat)
    requires j <= n
    ensures TablesFor(root, first, j) <= TablesFor(root, first, n)
  {
    if j < n { TablesMore(root, first, j, n - 1); }
  }

  lemma SpentNext(g0: Book, g: Book, g': Book, r: nat, first: nat, j: nat, v: nat, n: nat, m: nat)
    requires Spent(g0, g, TablesFor(r, first, j), n) && Spent(g, g', Path(r, v), m) && v == first + j
    ensures Spent(g0, g', TablesFor(r, first, j + 1), n + m)
  {
    hide Spent, Path, Lacking;
    SpentTrans(g0, g, g', TablesFor(r, first, j), Path(r, v), n, m);
  }

  lemma SpentOut(g0: Book, g: Book, r: nat, first: nat, j: nat, all: nat, v: nat, n: nat, m: nat)
    requires Spent(g0, g, TablesFor(r, first, j), n) && |g.free| < Lacking(Path(r, v), g.node) + m && v == first + j
             && j < all
    ensures |g0.free| < Lacking(TablesFor(r, first, all), g0.node) + n + m
  {
    hide Spent, Path, Lacking;
    TablesMore(r, first, j + 1, all);
    SpentShort(g0, g, TablesFor(r, first, j), Path(r, v), TablesFor(r, first, all), n, m);
  }

  /** The tables missing below a level on the way to a virtual page. */
  function Lack(node: map<Pos, nat>, root: nat, vpn: nat, level: nat): nat
    requires level <= 2
  {
    if level == 0 then 0
    else (if PosOf(root, level - 1, vpn) in node then 0 else 1) + Lack(node, root, vpn, level - 1)
  }

  lemma {:induction false} LackSame(node: map<Pos, nat>, root: nat, vpn: nat, level: nat, c: Pos, a: nat)
    requires level <= 2 && c.level >= level
    ensures Lack(node[c := a], root, vpn, level) == Lack(node, root, vpn, level)
  {
    if level > 0 { LackSame(node, root, vpn, level - 1, c, a); }
  }

  lemma LackIs(node: map<Pos, nat>, root: nat, vpn: nat)
    ensures Lack(node, root, vpn, 2) == Lacking(Path(root, vpn), node)
  {
    var p, q := PosOf(root, 1, vpn), PosOf(root, 0, vpn);
    assert Lack(node, root, vpn, 1) == if q in node then 0 else 1;
    assert Path(root, vpn) - node.Keys == (if p in node then {} else {p}) + if q in node then {} else {q};
  }

  /** What walk does to the rest: no translation changes, and r may have new tables. */
  ghost predicate WalkKeeps(k: Kernel, g: Book, k': Kernel, g': Book, r: nat) {
    && SameFlat(MemOf(k, g), MemOf(k', g')) && Grown(MemOf(k, g), MemOf(k', g'), r)
    && KeptData(g.role, k.data, k'.data)
  }

  lemma WalkKeepsNone(k: Kernel, g: Book, r: nat)
    requires forall a :: a in g.role ==> a in k.data
    ensures WalkKeeps(k, g, k, g, r)
  {}

  /** Page a has been taken for a table at a level on the way to a virtual page, where there is none. */
  ghost predicate Takes(k: Kernel, g: Book, k1: Kernel, g1: Book, root: nat, level: nat, vpn: nat, t: nat, a: nat) {
    && 0 < level <= 2 && vpn < MAXVPN && a in g.role && g.role[a] == Free && g1.role == g.role[a := Held]
        && g1.node == g.node
    && k1.pt == k.pt
    && PosOf(root, level, vpn) in g.node && g.node[PosOf(root, level, vpn)] == t
    && PosOf(root, level - 1, vpn) !in g.node
    && a in k1.data && k1.data == k.data[a := k1.data[a]] && (forall b :: b in g.role ==> b in k.data)
    && WF(MemOf(k1, g1)) && SameFlat(MemOf(k, g), MemOf(k1, g1))
  }

  lemma CanHang(k: Kernel, g: Book, k1: Kernel, g1: Book, root: nat, level: nat, vpn: nat, t: nat, a: nat)
    requires Takes(k, g, k1, g1, root, level, vpn, t, a)
    ensures t in k1.pt && |k1.pt[t]| == ENTRIES && t != a && Px(level, vpn) < ENTRIES
  {
    PathStep(root, level, vpn);
    AddNodeKeepsWF(MemOf(k1, g1), PosOf(root, level - 1, vpn), a);
  }

  /** The new table hangs from the one above it. */
  lemma Hangs(k: Kernel, g: Book, k1: Kernel, g1: Book, k2: Kernel, g2: Book, root: nat, level: nat, vpn: nat, t: nat,
              a: nat)
    requires Takes(k, g, k1, g1, root, level, vpn, t, a)
    requires t in k1.pt && |k1.pt[t]| == ENTRIES && t != a && Px(level, vpn) < ENTRIES
    requires k2 == k1.(pt := SetEntry(k1.pt[a := Empty()], t, Px(level, vpn), Pte(a, PTE_V)))
    requires var c := PosOf(root, level - 1, vpn); g2 == g1.(role := g1.role[a := Node(c)], node := g1.node[c := a])
    ensures WF(MemOf(k2, g2)) && WalkKeeps(k, g, k2, g2, root)
  {
    hide WF;
    var c := PosOf(root, level - 1, vpn);
    PathStep(root, level, vpn);
    AddNodeKeepsWF(MemOf(k1, g1), c, a);
    assert MemOf(k2, g2) == AddNode(MemOf(k1, g1), c, a);
    forall r: nat, v: nat ensures Flat(MemOf(k2, g2), r, v) == Flat(MemOf(k, g), r, v) {
      assert Flat(MemOf(k1, g1), r, v) == Flat(MemOf(k, g), r, v);
    }
  }

  lemma WalkKeepsTrans(k: Kernel, g: Book, k1: Kernel, g1: Book, k2: Kernel, g2: Book, r: nat)
    requires WalkKeeps(k, g, k1, g1, r) && WalkKeeps(k1, g1, k2, g2, r)
    ensures WalkKeeps(k, g, k2, g2, r)
  {
    GrownTrans(MemOf(k, g), MemOf(k1, g1), MemOf(k2, g2), r);
    forall a | a in g.role && g.role[a] != Free ensures a in k.data && a in k2.data && k2.data[a] == k.data[a] {
      assert g1.role[a] != Free;
    }
  }

  /** What walk spends. */
  lemma WalkSpent(g: Book, g': Book, root: nat, vpn: nat)
    requires |g'.free| + Lack(g.node, root, vpn, 2) == |g.free| && PosOf(root, 1, vpn) in g'.node
             && PosOf(root, 0, vpn) in g'.node
    requires (forall p :: p in g.node ==> p in g'.node)
             && (forall p :: p in g'.node ==> p in g.node || p in Path(root, vpn))
    ensures Spent(g, g', Path(root, vpn), 0)
  {
    LackIs(g.node, root, vpn);
  }

  /** One page taken, then what maps it. */
  lemma SpentPage(g: Book, g1: Book, g': Book, need: set<Pos>, a: nat)
    requires a in g.free && g1.free == g.free - {a} && g1.node == g.node && Spent(g1, g', need, 0)
    ensures Spent(g, g', need, 1)
  {}

  lemma PathBoth(m: Mem, root: nat, vpn: nat)
    requires WF(m) && vpn < MAXVPN && PosOf(root, 0, vpn) in m.node
    ensures PosOf(root, 1, vpn) in m.node
  {
    assert NodeOk(m, PosOf(root, 0, vpn));
    PathStep(root, 1, vpn);
  }

  // ---------------------------------------------------------------------------------
  // The loops of mappages, uvmalloc and uvmcopy.

  /** From (k0, g0) the first j pages of a range have been mapped. */
  ghost predicate Mapping(k0: Kernel, g0: Book, k: Kernel, g: Book, r: nat, first: nat, j: nat, ppn: nat, flags: nat) {
    && KeptData(g0.role, k0.data, k.data)
    && RangeMapped(MemOf(k0, g0), MemOf(k, g), r, first, j, ppn, flags)
    && Spent(g0, g, TablesFor(r, first, j), 0)
  }

  lemma MappingStart(k: Kernel, g: Book, r: nat, first: nat, ppn: nat, flags: nat)
    requires forall a :: a in g.role ==> a in k.data
    ensures Mapping(k, g, k, g, r, first, 0, ppn, flags)
  {
    SpentNothing(g);
  }

  /** What MapOne does to the machine when it maps page v. */
  ghost predicate MappedOne(k: Kernel, g: Book, k': Kernel, g': Book, r: nat, v: nat, ppn: nat, flags: nat) {
    && KeptData(g.role, k.data, k'.data)
    && Flat(MemOf(k', g'), r, v) == Pte(ppn, flags) && SameFlatBut(MemOf(k, g), MemOf(k', g'), r, v)
    && GrownMapping(MemOf(k, g), MemOf(k', g'), r, v, ppn)
    && Spent(g, g', Path(r, v), 0)
  }

  /** And when it fails. */
  ghost predicate MappedNone(k: Kernel, g: Book, k': Kernel, g': Book, r: nat, v: nat) {
    && KeptData(g.role, k.data, k'.data)
    && SameFlat(MemOf(k, g), MemOf(k', g')) && Grown(MemOf(k, g), MemOf(k', g'), r) && g'.free == {}
    && |g.free| < Lacking(Path(r, v), g.node)
  }

  lemma MappingNext(k0: Kernel, g0: Book, k: Kernel, g: Book, k': Kernel, g': Book,
                    r: nat, first: nat, j: nat, v: nat, ppn: nat, p: nat, flags: nat)
    requires Mapping(k0, g0, k, g, r, first, j, ppn, flags) && MappedOne(k, g, k', g', r, v, p, flags)
    requires v == first + j && p == ppn + j && (v < TRAPFRAME ==> p in g0.role && g0.role[p] == Held)
    ensures Mapping(k0, g0, k', g', r, first, j + 1, ppn, flags)
  {
    hide Spent, Lacking, TablesFor, Path, MapsRange, SameFlatOutside, GrownRange, GrownMapping, SameFlatBut;
    RangeMappedStep(MemOf(k0, g0), MemOf(k, g), MemOf(k', g'), r, first, j, ppn, flags, v, p);
    SpentNext(g0, g, g', r, first, j, v, 0, 0);
    MappingKept(k0, g0, k, g, k', r, first, j, ppn, flags);
  }

  lemma MappingKept(k0: Kernel, g0: Book, k: Kernel, g: Book, k': Kernel, r: nat, first: nat, j: nat, ppn: nat,
                    flags: nat)
    requires Mapping(k0, g0, k, g, r, first, j, ppn, flags) && KeptData(g.role, k.data, k'.data)
    ensures KeptData(g0.role, k0.data, k'.data)
  {
    hide Spent, TablesFor, MapsRange, SameFlatOutside;
    forall a | a in g0.role && g0.role[a] != Free ensures a in k0.data && a in k'.data && k'.data[a] == k0.data[a] {
      assert g.role[a] != Free;
    }
  }

  lemma MappingFails(k0: Kernel, g0: Book, k: Kernel, g: Book, k': Kernel, g': Book,
                     r: nat, first: nat, j: nat, n: nat, v: nat, ppn: nat, flags: nat)
    requires Mapping(k0, g0, k, g, r, first, j, ppn, flags) && MappedNone(k, g, k', g', r, v) && v == first + j && j < n
    ensures KeptData(g0.role, k0.data, k'.data) && RangeMapped(MemOf(k0, g0), MemOf(k', g'), r, first, j, ppn, flags)
    ensures g'.free == {} && |g0.free| < Lacking(TablesFor(r, first, n), g0.node)
  {
    hide Spent, Lacking, TablesFor, Path, MapsRange, SameFlatOutside, GrownRange, Grown, SameFlat;
    RangeMappedEnd(MemOf(k0, g0), MemOf(k, g), MemOf(k', g'), r, first, j, ppn, flags);
    MappingKept(k0, g0, k, g, k', r, first, j, ppn, flags);
    SpentOut(g0, g, r, first, j, n, v, 0, 0);
  }

  /** From (k0, g0) the pages in want have been added to r from page first on. */
  ghost predicate Adding(k0: Kernel, g0: Book, k: Kernel, g: Book, r: nat, first: nat, want: seq<Page>) {
    && Filled(MemOf(k0, g0), k0.data, MemOf(k, g), k.data, r, first, want)
    && Spent(g0, g, TablesFor(r, first, |want|), |want|)
  }

  lemma AddingStart(k: Kernel, g: Book, r: nat, first: nat)
    requires forall a :: a in g.role ==> a in k.data
    ensures Adding(k, g, k, g, r, first, [])
  {
    SpentNothing(g);
  }

  lemma AddingNext(k0: Kernel, g0: Book, k: Kernel, g: Book, k1: Kernel, g1: Book, k2: Kernel, g2: Book,
                   r: nat, first: nat, want: seq<Page>, v: nat, a: nat, page: Page)
    requires WF(MemOf(k, g)) && Adding(k0, g0, k, g, r, first, want) && Pte(0, page.flags).V()
    requires v == first + |want| < TRAPFRAME && a in g.role && g.role[a] == Free
    requires MemOf(k1, g1) == SetRole(MemOf(k, g), a, Held) && a in g.free && g1.free == g.free - {a}
    requires KeptData(g.role, k.data, k1.data) && a in k1.data && k1.data[a] == page.bytes
             && KeptData(g1.role, k1.data, k2.data)
    requires RangeMapped(MemOf(k1, g1), MemOf(k2, g2), r, v, 1, a, page.flags) && Spent(g1, g2, Path(r, v), 0)
    ensures Adding(k0, g0, k2, g2, r, first, want + [page])
  {
    hide Spent, Lacking, TablesFor, Path, Filled, KeptData, WF, RangeMapped;
    FilledStep(MemOf(k0, g0), MemOf(k, g), MemOf(k1, g1), MemOf(k2, g2), k0.data, k.data, k1.data, k2.data,
               r, first, want, v, a, page);
    SpentPage(g, g1, g2, Path(r, v), a);
    SpentNext(g0, g, g2, r, first, |want|, v, |want|, 1);
  }

  /** There are pages enough for the pages from first up to last and for the tables they lack. */
  ghost predicate CanGrow(g: Book, root: nat, first: nat, last: nat) {
    first <= last ==> |g.free| >= Lacking(TablesFor(root, first, last - first), g.node) + last - first
  }

  /** One page too many. */
  lemma AddingShort(k0: Kernel, g0: Book, k: Kernel, g: Book, r: nat, first: nat, want: seq<Page>, v: nat)
    requires Adding(k0, g0, k, g, r, first, want) && v == first + |want| && |g.free| < Lacking(Path(r, v), g.node) + 1
    ensures forall last: nat {:trigger CanGrow(g0, r, first, last)} :: v < last ==> !CanGrow(g0, r, first, last)
  {
    hide Spent, Lacking, TablesFor, Path, Filled;
    forall last: nat | v < last ensures !CanGrow(g0, r, first, last) {
      SpentOut(g0, g, r, first, |want|, last - first, v, |want|, 1);
    }
  }

  class Memory {
    const lo: nat             // the allocator's range, from `end` up to PHYSTOP
    const hi: nat
    var k: Kernel
    ghost var g: Book

    ghost function M(): Mem
      reads this
    {
      MemOf(k, g)
    }

    /** The allocator's own invariant. */
    ghost predicate ListOk()
      reads this
    {
      Listed(k, g) && Used(lo, hi, k, g)
    }

    ghost predicate Valid()
      reads this
    {
      ListOk() && WF(M())
    }

    /** kinit: every page of the range is freed, lowest first. */
    constructor (lo: nat, hi: nat)
      requires 0 < lo <= hi
      ensures Valid() && this.lo == lo && this.hi == hi && g.node == map[]
      ensures forall a :: a in g.role ==> g.role[a] == Free
    {
      this.lo, this.hi := lo, hi;
      k := Kernel(0, map[], map[], Pages(lo, hi, seq(PGSIZE, _ => 0)));
      g := Book([], {}, Pages(lo, hi, Held), map[]);
      new;
      FreeRange();
    }

    /** freerange, of pages that are all in hand. */
    method FreeRange()
      requires lo <= hi && ListOk() && g.node == map[] && g.list == []
      requires forall a :: a in g.role ==> g.role[a] == Held
      modifies this
      ensures Valid() && g.node == map[] && forall a :: a in g.role ==> g.role[a] == Free
    {
      hide Listed;
      var a := lo;
      while a < hi
        invariant lo <= a <= hi && ListOk() && g.node == map[]
        invariant forall b :: b in g.role ==> g.role[b] == if b < a then Free else Held
      {
        Kfree(a);
        a := a + 1;
      }
    }

    /** kfree, of a page that is not free. */
    method Kfree(a: nat)
      requires ListOk() && a in g.role && g.role[a] != Free
      modifies this
      ensures ListOk() && g == Pushed(old(g), a)
      ensures k.pt == old(k.pt) && k.data == old(k.data)[a := k.data[a]]
    {
      ChainFrame(k.freelist, k.link, g.list, a, k.freelist);
      k := Kernel(a, k.link[a := k.freelist], k.pt, k.data[a := seq(PGSIZE, _ => 1)]);
      assert ([a] + g.list)[1..] == g.list;
      g := Pushed(g, a);
    }

    /** kalloc: 0 if no page is free. */
    method Kalloc() returns (a: nat)
      requires Valid()
      modifies this
      ensures Valid() && k.pt == old(k.pt)
      ensures a == 0 <==> old(g.free) == {}
      ensures a == 0 ==> g == old(g) && k == old(k)
      ensures a != 0 ==> a in old(g.role) && old(g.role)[a] == Free && k.data == old(k.data)[a := k.data[a]]
      ensures a != 0 ==> a in old(g.free) && g == Popped(old(g), a)
      ensures SameFlat(old(M()), M())
    {
      a := k.freelist;
      if a != 0 {
        assert g.list == [a] + g.list[1..] && a in g.list && g.role[a] == Free;
        SetRoleKeepsWF(M(), a, Held);
        k := k.(freelist := k.link[a], data := k.data[a := seq(PGSIZE, _ => 5)]);
        g := Popped(g, a);
      } else {
        assert g.free == {};
      }
    }

    /** walk: the table holding the entry of a virtual page, or 0 if there is none and none may
        be made, or none can for want of pages. No translation changes. */
    method Walk(root: nat, vpn: nat, alloc: bool) returns (t: nat)
      requires Valid() && Root(M(), root) && vpn < MAXVPN
      modifies this
      ensures Valid() && WalkKeeps(old(k), old(g), k, g, root) == true
      ensures t != 0 ==> PosOf(root, 0, vpn) in g.node && g.node[PosOf(root, 0, vpn)] == t
      ensures t == 0 ==> PosOf(root, 0, vpn) !in g.node && (alloc ==> g.free == {})
      ensures !alloc ==> k == old(k) && g == old(g)
      ensures alloc ==> (t != 0 <==> |old(g.free)| >= Lack(old(g.node), root, vpn, 2))
      ensures alloc && t != 0 ==> |g.free| + Lack(old(g.node), root, vpn, 2) == |old(g.free)|
      ensures forall p :: p in g.node ==> p in old(g.node) || p in Path(root, vpn)
    {
      hide Listed, SameFlat, Grown;
      t := root;
      var level: nat := 2;
      assert NodeOk(M(), Pos(root, 2, 0));
      WalkKeepsNone(k, g, root);
      while level > 0
        invariant level <= 2 && Valid() && WalkKeeps(old(k), old(g), k, g, root) == true
        invariant PosOf(root, level, vpn) in g.node && g.node[PosOf(root, level, vpn)] == t
        invariant !alloc ==> k == old(k) && g == old(g)
        invariant alloc ==> |g.free| + Lack(old(g.node), root, vpn, 2) == |old(g.free)| + Lack(g.node, root, vpn, level)
        invariant forall p :: p in g.node ==> p in old(g.node) || p in Path(root, vpn)
      {
        PathEntry(M(), root, level, vpn);
        var e := k.pt[t][Px(level, vpn)];
        if e.V() {
          t := e.ppn;
        } else {
          PathMissing(M(), root, level - 1, vpn);
          if !alloc { return 0; }
          ghost var k1, g1 := k, g;
          t := NewTable(root, level, vpn, t);
          WalkKeepsTrans(old(k), old(g), k1, g1, k, g, root);
          if t == 0 { return; }
        }
        level := level - 1;
      }
      assert NodeOk(M(), PosOf(root, 0, vpn));
    }

    /** The allocating branch of walk: a zeroed page becomes the table the entry lacks. */
    method NewTable(root: nat, level: nat, vpn: nat, t: nat) returns (a: nat)
      requires Valid() && 0 < level <= 2 && vpn < MAXVPN
      requires PosOf(root, level, vpn) in g.node && g.node[PosOf(root, level, vpn)] == t
      requires PosOf(root, level - 1, vpn) !in g.node
      modifies this
      ensures Valid() && WalkKeeps(old(k), old(g), k, g, root) == true
      ensures a != 0 ==> PosOf(root, level - 1, vpn) in g.node && g.node[PosOf(root, level - 1, vpn)] == a
      ensures a == 0 ==> M() == old(M()) && g.free == {}
      ensures a != 0 ==>
                |g.free| + 1 == |old(g.free)|
                    && Lack(g.node, root, vpn, level - 1) == Lack(old(g.node), root, vpn, level - 1)
      ensures a == 0 ==> old(g.free) == {}
      ensures forall p :: p in g.node ==> p in old(g.node) || p == PosOf(root, level - 1, vpn)
    {
      hide Listed, Lack, WF, SameFlat, Grown;
      ghost var c := PosOf(root, level - 1, vpn);
      ghost var k0, g0 := k, g;
      a := Kalloc();
      if a != 0 {
        ghost var k1, g1 := k, g;
        CanHang(k0, g0, k1, g1, root, level, vpn, t, a);
        k := k.(pt := SetEntry(k.pt[a := Empty()], t, Px(level, vpn), Pte(a, PTE_V)));
        g := g.(role := g.role[a := Node(c)], node := g.node[c := a]);
        Hangs(k0, g0, k1, g1, k, g, root, level, vpn, t, a);
        ListedSame(k1, g1, k, g);
        LackSame(old(g.node), root, vpn, level - 1, c, a);
      } else {
        WalkKeepsNone(k0, g0, root);
      }
    }

    /** The body of mappages' loop: map one page that is not mapped yet. */
    method MapOne(root: nat, vpn: nat, ppn: nat, perm: nat) returns (ok: bool)
      requires Valid() && Root(M(), root) && vpn < MAXVPN && !Flat(M(), root, vpn).V()
      requires Pte(ppn, perm).Leaf() && (vpn < TRAPFRAME ==> ppn in g.role && g.role[ppn] == Held)
      modifies this
      ensures Valid()
      ensures ok <==> |old(g.free)| >= Lacking(Path(root, vpn), old(g.node))
      ensures ok ==> MappedOne(old(k), old(g), k, g, root, vpn, ppn, OrV(perm)) == true
      ensures !ok ==> MappedNone(old(k), old(g), k, g, root, vpn) == true
    {
      hide Lacking, Lack, Spent, Listed, SameFlat, KeptData, WF, NodeOk, EntryOk, Flat;
      LackIs(g.node, root, vpn);
      var t := Walk(root, vpn, true);
      ok := t != 0;
      if ok {
        PathBoth(M(), root, vpn);
        ghost var m, k1, g1 := M(), k, g;
        MapStep(old(M()), m, root, vpn, Pte(ppn, OrV(perm)));
        k := k.(pt := SetEntry(k.pt, t, Px(0, vpn), Pte(ppn, OrV(perm))));
        if vpn < TRAPFRAME { g := g.(role := g.role[ppn := Frame(root, vpn)]); }
        assert M() == Mapped(m, root, vpn, Pte(ppn, OrV(perm)));
        ListedSame(k1, g1, k, g);
        WalkSpent(old(g), g, root, vpn);
      }
    }

    /** mappages' loop, over page numbers. */
    method MapRange(root: nat, first: nat, last: nat, ppn: nat, perm: nat) returns (ok: bool, ghost j: nat)
      requires Valid() && Root(M(), root) && first <= last < MAXVPN && Pte(0, perm).Leaf()
      requires CanMap(M(), root, first, last - first + 1, ppn)
      modifies this
      ensures Valid() && KeptData(old(g.role), old(k.data), k.data)
              && RangeMapped(old(M()), M(), root, first, j, ppn, OrV(perm))
      ensures if ok then j == last - first + 1 else j <= last - first && g.free == {}
      ensures ok <==> |old(g.free)| >= Lacking(TablesFor(root, first, last - first + 1), old(g.node))
      ensures ok ==> Spent(old(g), g, TablesFor(root, first, last - first + 1), 0) == true
    {
      hide WF, MapsRange, SameFlatOutside, KeptData, Spent, Lacking, MappedOne, MappedNone, TablesFor;
      ghost var k0, g0, n := k, g, last - first + 1;
      var a, p := first, ppn;
      j := 0;
      MappingStart(k, g, root, first, ppn, OrV(perm));
      while true
        invariant a == first + j && p == ppn + j && first <= a <= last
        invariant Valid() && Mapping(k0, g0, k, g, root, first, j, ppn, OrV(perm)) == true
        decreases last - a
      {
        ghost var k1, g1 := k, g;
        CanMapNext(MemOf(k0, g0), M(), root, first, n, j, ppn, OrV(perm));
        ok := MapOne(root, a, p, perm);
        if !ok {
          MappingFails(k0, g0, k1, g1, k, g, root, first, j, n, a, ppn, OrV(perm));
          return;
        }
        MappingNext(k0, g0, k1, g1, k, g, root, first, j, a, ppn, p, OrV(perm));
        j := j + 1;
        if a == last {
          SpentAll(g0, g, TablesFor(root, first, n));
          return;
        }
        a := a + 1;
        p := p + 1;
      }
    }

    /** mappages. On success exactly the pages that the byte range touches are mapped, to
        successive physical pages. Where a table cannot be allocated (ok is false) the first j of
        them are, and the tables made on the way stay in the tree. */
    method Mappages(root: nat, va: nat, size: nat, pa: nat, perm: nat) returns (ok: bool, ghost j: nat)
      requires Valid() && Root(M(), root) && size > 0 && va + size <= MAXVPN * PGSIZE && Pte(0, perm).Leaf()
      requires CanMap(M(), root, va / PGSIZE, (va + size - 1) / PGSIZE - va / PGSIZE + 1, pa / PGSIZE)
      modifies this
      ensures Valid() && KeptData(old(g.role), old(k.data), k.data)
              && RangeMapped(old(M()), M(), root, va / PGSIZE, j, pa / PGSIZE, OrV(perm))
      ensures if ok then j == (va + size - 1) / PGSIZE - va / PGSIZE + 1
              else j <= (va + size - 1) / PGSIZE - va / PGSIZE && g.free == {}
      ensures var need := TablesFor(root, va / PGSIZE, (va + size - 1) / PGSIZE - va / PGSIZE + 1);
              (ok <==> |old(g.free)| >= Lacking(need, old(g.node))) && (ok ==> Spent(old(g), g, need, 0) == true)
    {
      ok, j := MapRange(root, va / PGSIZE, (va + size - 1) / PGSIZE, pa / PGSIZE, perm);
    }

    /** The body of uvmunmap's loop, for a page that is mapped. */
    method UnmapOne(root: nat, vpn: nat, doFree: bool)
      requires Valid() && Root(M(), root) && vpn < MAXVPN && Flat(M(), root, vpn).V()
      requires doFree ==> vpn < TRAPFRAME
      modifies this
      ensures Valid() && KeptData(g.role, old(k.data), k.data)
      ensures RangeUnmapped(old(M()), M(), root, vpn, 1, if doFree then Free else Held)
    {
      ghost var m, role' := M(), if doFree then Free else Held;
      var t := Walk(root, vpn, false);
      assert NodeOk(m, PosOf(root, 0, vpn));
      UnmapKeepsWF(m, root, vpn, role');
      UnmapStep(m, root, vpn, role');
      var e := k.pt[t][Px(0, vpn)];
      if doFree {
        Kfree(e.ppn);
      } else if vpn < TRAPFRAME {
        g := g.(role := g.role[e.ppn := Held]);
      }
      k := k.(pt := SetEntry(k.pt, t, Px(0, vpn), NOPTE));
      assert M() == Unmapped(m, root, vpn, role');
    }

    /** uvmunmap, from page first on, of pages that are all mapped. */
    method Uvmunmap(root: nat, first: nat, npages: nat, doFree: bool)
      requires Valid() && Root(M(), root) && first + npages <= MAXVPN
      requires forall k: nat {:trigger Flat(M(), root, k)} :: first <= k < first + npages ==> Flat(M(), root, k).V()
      requires doFree ==> first + npages <= TRAPFRAME
      modifies this
      ensures Valid() && KeptData(g.role, old(k.data), k.data)
      ensures RangeUnmapped(old(M()), M(), root, first, npages, if doFree then Free else Held)
    {
      var i: nat := 0;
      while i < npages
        invariant i <= npages && Valid() && KeptData(g.role, old(k.data), k.data)
        invariant RangeUnmapped(old(M()), M(), root, first, i, if doFree then Free else Held)
      {
        ghost var m, d := M(), k.data;
        assert Flat(m, root, first + i) == Flat(old(M()), root, first + i);
        UnmapOne(root, first + i, doFree);
        RangeUnmappedStep(old(M()), m, M(), root, first, i, first + i, if doFree then Free else Held);
        KeptDataFewer(m.role, g.role, old(k.data), d, k.data);
        i := i + 1;
      }
    }

    /** uvmcreate: an address space with nothing mapped, or 0. */
    method Uvmcreate() returns (root: nat)
      requires Valid()
      modifies this
      ensures Valid() && KeptData(old(g.role), old(k.data), k.data) && SameFlat(old(M()), M())
      ensures root == 0 <==> old(g.free) == {}
      ensures root == 0 ==> M() == old(M()) && g.free == old(g.free)
      ensures root != 0 ==> !Root(old(M()), root) && Root(M(), root) && forall v: nat :: Flat(M(), root, v) == NOPTE
      ensures root != 0 ==> root in old(g.role) && old(g.role)[root] == Free && |g.free| + 1 == |old(g.free)|
      ensures root != 0 ==>
                g.role == old(g.role)[root := Node(Pos(root, 2, 0))] && g.node == old(g.node)[Pos(root, 2, 0) := root]
    {
      root := Kalloc();
      if root != 0 {
        ghost var m := M();
        AddRootKeepsWF(m, root);
        k := k.(pt := k.pt[root := Empty()]);
        g := g.(role := g.role[root := Node(Pos(root, 2, 0))], node := g.node[Pos(root, 2, 0) := root]);
        assert M() == AddRoot(m, root);
      }
    }

    /** uvmdealloc */
    method Uvmdealloc(root: nat, oldsz: nat, newsz: nat) returns (sz: nat)
      requires Valid() && Root(M(), root) && oldsz <= TRAPFRAME * PGSIZE
      requires forall k: nat {:trigger Flat(M(), root, k)} :: PagesUp(newsz) <= k < PagesUp(oldsz) ==>
                 Flat(M(), root, k).V()
      modifies this
      ensures Valid() && KeptData(g.role, old(k.data), k.data)
      ensures sz == if newsz >= oldsz then oldsz else newsz
      ensures newsz >= oldsz ==> k == old(k) && g == old(g)
      ensures RangeUnmapped(old(M()), M(), root, PagesUp(newsz),
                            if PagesUp(newsz) < PagesUp(oldsz) then PagesUp(oldsz) - PagesUp(newsz) else 0, Free)
    {
      if newsz >= oldsz {
        return oldsz;
      }
      if PagesUp(newsz) < PagesUp(oldsz) {
        Uvmunmap(root, PagesUp(newsz), PagesUp(oldsz) - PagesUp(newsz), true);
      }
      return newsz;
    }

    /** mappages of a single page, as every user of an address space calls it. */
    method MapPage(root: nat, vpn: nat, ppn: nat, perm: nat) returns (ok: bool)
      requires Valid() && Root(M(), root) && vpn < MAXVPN && !Flat(M(), root, vpn).V()
      requires Pte(0, perm).Leaf() && (vpn < TRAPFRAME ==> ppn in g.role && g.role[ppn] == Held)
      modifies this
      ensures Valid() && KeptData(old(g.role), old(k.data), k.data)
      ensures RangeMapped(old(M()), M(), root, vpn, if ok then 1 else 0, ppn, OrV(perm))
      ensures ok <==> |old(g.free)| >= Lacking(Path(root, vpn), old(g.node))
      ensures ok ==> Spent(old(g), g, Path(root, vpn), 0) == true
    {
      hide WF, Listed, Used, Spent, Lacking, Path, KeptData, MapsRange, SameFlatOutside, GrownRange;
      assert TablesFor(root, vpn, 1) == Path(root, vpn);
      QuotRem(vpn * PGSIZE, PGSIZE, vpn, 0);
      QuotRem(vpn * PGSIZE + PGSIZE - 1, PGSIZE, vpn, PGSIZE - 1);
      QuotRem(ppn * PGSIZE, PGSIZE, ppn, 0);
      ghost var j;
      ok, j := Mappages(root, vpn * PGSIZE, PGSIZE, ppn * PGSIZE, perm);
    }

    /** kalloc and memset, or memmove: a page with given contents. */
    method KallocFill(bytes: seq<Byte>) returns (a: nat)
      requires Valid() && |bytes| == PGSIZE
      modifies this
      ensures Valid() && KeptData(old(g.role), old(k.data), k.data)
      ensures a == 0 <==> old(g.free) == {}
      ensures a == 0 ==> M() == old(M())
      ensures a != 0 ==> a in old(g.role) && old(g.role)[a] == Free && M() == SetRole(old(M()), a, Held)
      ensures a != 0 ==> a in old(g.free) && g.free == old(g.free) - {a}
      ensures a != 0 ==> k.data[a] == bytes
    {
      a := Kalloc();
      if a != 0 {
        k := k.(data := k.data[a := bytes]);
      }
    }

    /** kfree of a page in hand. */
    method KfreeHeld(a: nat)
      requires Valid() && a in g.role && g.role[a] == Held
      modifies this
      ensures Valid() && M() == SetRole(old(M()), a, Free) && k.data == old(k.data)[a := k.data[a]]
    {
      SetRoleKeepsWF(M(), a, Free);
      Kfree(a);
    }

    /** One round of uvmalloc or uvmcopy: one more page is allocated, filled and mapped, or none. */
    method AddPage(root: nat, vpn: nat, bytes: seq<Byte>, perm: nat,
                   ghost k0: Kernel, ghost g0: Book, ghost first: nat, ghost want: seq<Page>)
      returns (ok: bool)
      requires Valid() && Root(M(), root) && vpn == first + |want| < TRAPFRAME && !Flat(M(), root, vpn).V()
      requires Adding(k0, g0, k, g, root, first, want) == true && |bytes| == PGSIZE && Pte(0, perm).Leaf()
      modifies this
      ensures Valid()
      ensures ok ==> Adding(k0, g0, k, g, root, first, want + [Page(OrV(perm), bytes)]) == true
      ensures !ok ==> Alloced(MemOf(k0, g0), M(), root, first, |want|) && KeptData(g0.role, k0.data, k.data)
      ensures !ok ==> forall last: nat {:trigger CanGrow(g0, root, first, last)} :: vpn < last ==>
                !CanGrow(g0, root, first, last)
    {
      hide WF, Listed, Used, Spent, Lacking, Path, ShowsPages;
      ghost var k1, g1, m, d := k, g, MemOf(k0, g0), k0.data;
      var mem := KallocFill(bytes);
      if mem == 0 {
        KeptDataTrans(m.role, g1.role, d, k1.data, k.data);
        AddingShort(k0, g0, k1, g1, root, first, want, vpn);
        return false;
      }
      ghost var k2, g2 := k, g;
      ok := MapPage(root, vpn, mem, perm);
      if ok {
        AddingNext(k0, g0, k1, g1, k2, g2, k, g, root, first, want, vpn, mem, Page(OrV(perm), bytes));
      } else {
        AddingShort(k0, g0, k1, g1, root, first, want, vpn);
        FilledFail(m, MemOf(k1, g1), MemOf(k2, g2), M(), d, k1.data, k2.data, k.data, root, first, want, vpn, mem,
            OrV(perm));
        KfreeHeld(mem);
      }
    }

    /** The unmapping when uvmalloc or uvmcopy fails at page a. */
    method GiveBack(root: nat, first: nat, a: nat, ghost m: Mem, ghost d: map<nat, seq<Byte>>)
      requires Valid() && Root(M(), root) && first <= a <= TRAPFRAME && WF(m) && KeptData(m.role, d, k.data)
      requires Alloced(m, M(), root, first, a - first)
      requires forall k: nat {:trigger Flat(m, root, k)} :: first <= k < a ==> !Flat(m, root, k).V()
      modifies this
      ensures Valid() && SameFlat(m, M()) && Grown(m, M(), root) && KeptData(m.role, d, k.data)
    {
      ghost var m1, d1 := M(), k.data;
      Uvmunmap(root, first, a - first, true);
      AllocedUndone(m, m1, M(), root, first, a - first);
      KeptUndone(m, M(), d, d1, k.data, root);
    }

    /** uvmalloc. On success the address space has grown by zeroed pages and nothing else has
        changed; on failure (0) every translation is as before, and of the pages taken in between
        only new, empty tables of this address space are kept. */
    method Uvmalloc(root: nat, oldsz: nat, newsz: nat) returns (sz: nat)
      requires Valid() && Root(M(), root) && newsz <= TRAPFRAME * PGSIZE
      requires forall k: nat {:trigger Flat(M(), root, k)} :: PagesUp(oldsz) <= k < PagesUp(newsz) ==>
                 !Flat(M(), root, k).V()
      modifies this
      ensures Valid() && KeptData(old(g.role), old(k.data), k.data)
      ensures newsz < oldsz ==> sz == oldsz && M() == old(M())
      ensures newsz >= oldsz ==> sz == if CanGrow(old(g), root, PagesUp(oldsz), PagesUp(newsz)) then newsz else 0
      ensures newsz >= oldsz && CanGrow(old(g), root, PagesUp(oldsz), PagesUp(newsz)) ==>
                Filled(old(M()), old(k.data), M(), k.data, root, PagesUp(oldsz),
                       seq(PagesUp(newsz) - PagesUp(oldsz), _ => ZEROPAGE))
      ensures newsz >= oldsz && !CanGrow(old(g), root, PagesUp(oldsz), PagesUp(newsz)) ==>
                SameFlat(old(M()), M()) && Grown(old(M()), M(), root)
    {
      if newsz < oldsz {
        return oldsz;
      }
      var ok := GrowTo(root, PagesUp(oldsz), PagesUp(newsz));
      return if ok then newsz else 0;
    }

    /** uvmalloc's loop, over page numbers. */
    method GrowTo(root: nat, first: nat, last: nat) returns (ok: bool)
      requires Valid() && Root(M(), root) && first <= last <= TRAPFRAME
      requires forall k: nat {:trigger Flat(M(), root, k)} :: first <= k < last ==> !Flat(M(), root, k).V()
      modifies this
      ensures Valid() && KeptData(old(g.role), old(k.data), k.data)
      ensures ok <==> CanGrow(old(g), root, first, last)
      ensures ok ==> Filled(old(M()), old(k.data), M(), k.data, root, first, seq(last - first, _ => ZEROPAGE)) == true
      ensures !ok ==> SameFlat(old(M()), M()) && Grown(old(M()), M(), root)
    {
      hide WF, ShowsPages, Spent, KeptData, NoneFreed, CanGrow;
      ghost var k0, g0 := k, g;
      ghost var want := [];
      AddingStart(k, g, root, first);
      var a := first;
      while a < last
        invariant first <= a <= last && Valid() && want == seq(a - first, _ => ZEROPAGE)
        invariant Adding(k0, g0, k, g, root, first, want) == true
      {
        assert Flat(M(), root, a) == Flat(MemOf(k0, g0), root, a);
        ok := AddPage(root, a, seq(PGSIZE, _ => 0), PERM_USER, k0, g0, first, want);
        if !ok {
          assert !CanGrow(g0, root, first, last);
          GiveBack(root, first, a, MemOf(k0, g0), k0.data);
          return;
        }
        want := want + [ZEROPAGE];
        a := a + 1;
      }
      ok := true;
      AddingAll(k0, g0, k, g, root, first, want, last);
    }
  }

  lemma AddingAll(k0: Kernel, g0: Book, k: Kernel, g: Book, r: nat, first: nat, want: seq<Page>, last: nat)
    requires Adding(k0, g0, k, g, r, first, want) && last == first + |want|
    ensures CanGrow(g0, r, first, last)
  {}
}
