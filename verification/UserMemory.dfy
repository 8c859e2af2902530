/** A process's memory, byte by byte: growing and shrinking it (growproc in kernel/proc.c), and copying it
    for a child (the part of fork that makes the child's address space). */
module UserMemory {
  import opened Common
  import opened PageTable
  import opened Vm
  import opened AddressSpace
  import opened UserCopy

  /** Of the pages below the trapframe exactly those are mapped that begin below sz. */
  ghost predicate Sized(m: Mem, r: nat, sz: nat) {
    forall v: nat {:trigger Flat(m, r, v)} :: v < TRAPFRAME ==> (Flat(m, r, v).V() <==> v * PGSIZE < sz)
  }

  /** p pages are enough for sz bytes, and no more than it takes. */
  predicate Rounds(sz: nat, p: nat) {
    sz <= p * PGSIZE < sz + PGSIZE
  }

  lemma RoundUp(sz: nat)
    ensures Rounds(sz, PagesUp(sz))
    ensures forall p: nat :: Rounds(sz, p) ==> p == PagesUp(sz)
    ensures forall v: nat {:trigger v * PGSIZE} :: v < PagesUp(sz) <==> v * PGSIZE < sz
  {
  }

  /** Where the page of an address begins. */
  function PageStart(x: nat): nat { x / PGSIZE * PGSIZE }

  /** A space of sz bytes has become one of sz': what it had, as far as it still has it, is unchanged, and the
      pages it has gained are the user's to read, write and execute, and zero. */
  ghost predicate Resized(m: Mem, d: map<nat, seq<Byte>>, m': Mem, d': map<nat, seq<Byte>>, r: nat, sz: nat, sz': nat) {
    forall x: nat {:trigger ByteAt(m', d', r, x)} :: PageStart(x) < sz' ==>
      && Accessible(m', r, x) == (PageStart(x) >= sz || Accessible(m, r, x))
      && if PageStart(x) < sz then SameFlags(m, m', r, x) && ByteAt(m', d', r, x) == ByteAt(m, d, r, x)
         else Flat(m', r, x / PGSIZE).flags == 1 + 2 + 4 + 8 + 16 && ByteAt(m', d', r, x) == 0
  }

  ghost predicate SameFlags(m: Mem, m': Mem, r: nat, x: nat) {
    Flat(m', r, x / PGSIZE).flags == Flat(m, r, x / PGSIZE).flags
  }

  /** No other address space shows a difference. */
  ghost predicate OthersKeep(m: Mem, d: map<nat, seq<Byte>>, m': Mem, d': map<nat, seq<Byte>>, r: nat) {
    && (forall r': nat, v: nat {:trigger Flat(m', r', v)} :: r' != r ==> Flat(m', r', v) == Flat(m, r', v))
    && (forall r': nat, x: nat {:trigger ByteAt(m', d', r', x)} ::
          r' != r && x / PGSIZE < TRAPFRAME && Flat(m, r', x / PGSIZE).V() ==>
              ByteAt(m', d', r', x) == ByteAt(m, d, r', x))
  }

  /** Nor does r from the trapframe on. */
  ghost predicate OthersSame(m: Mem, d: map<nat, seq<Byte>>, m': Mem, d': map<nat, seq<Byte>>, r: nat) {
    OthersKeep(m, d, m', d', r) && forall v: nat {:trigger Flat(m', r, v)} :: v >= TRAPFRAME ==>
      Flat(m', r, v) == Flat(m, r, v)
  }

  /** Mapped user memory whose translation stays keeps its bytes. */
  lemma SameByte(m: Mem, d: map<nat, seq<Byte>>, m': Mem, d': map<nat, seq<Byte>>, r: nat, x: nat)
    requires WF(m) && KeptData(m.role, d, d') && x / PGSIZE < TRAPFRAME && Flat(m, r, x / PGSIZE).V()
    requires Flat(m', r, x / PGSIZE) == Flat(m, r, x / PGSIZE)
    ensures ByteAt(m', d', r, x) == ByteAt(m, d, r, x)
  {
    FrameRole(m, r, x / PGSIZE);
  }

  lemma PageOf(x: nat, p: nat, sz: nat)
    requires Rounds(sz, p)
    ensures PageStart(x) < sz <==> x / PGSIZE < p
    ensures x < sz ==> PageStart(x) < sz
  {
  }

  lemma GrownBytes(m: Mem, d: map<nat, seq<Byte>>, m': Mem, d': map<nat, seq<Byte>>, r: nat, sz: nat, sz': nat,
                   first: nat, last: nat)
    requires WF(m) && Sized(m, r, sz) && Rounds(sz, first) && Rounds(sz', last) && first <= last <= TRAPFRAME
    requires Filled(m, d, m', d', r, first, seq(last - first, _ => ZEROPAGE))
    ensures Sized(m', r, sz') && Resized(m, d, m', d', r, sz, sz') && OthersSame(m, d, m', d', r)
  {
    forall v: nat | v < TRAPFRAME ensures Flat(m', r, v).V() <==> v * PGSIZE < sz' {
      PageOf(v * PGSIZE, first, sz);
      PageOf(v * PGSIZE, last, sz');
      if !(first <= v < last) { assert Flat(m', r, v) == Flat(m, r, v); }
    }
    forall x: nat | PageStart(x) < sz'
      ensures Accessible(m', r, x) == (PageStart(x) >= sz || Accessible(m, r, x))
      ensures if PageStart(x) < sz then SameFlags(m, m', r, x) && ByteAt(m', d', r, x) == ByteAt(m, d, r, x)
              else Flat(m', r, x / PGSIZE).flags == 1 + 2 + 4 + 8 + 16 && ByteAt(m', d', r, x) == 0
    {
      PageOf(x, first, sz);
      PageOf(x, last, sz');
      if PageStart(x) < sz {
        assert Flat(m', r, x / PGSIZE) == Flat(m, r, x / PGSIZE);
        SameByte(m, d, m', d', r, x);
      } else {
        assert PageAt(m', d', r, x / PGSIZE) == ZEROPAGE;
      }
    }
    forall r': nat, x: nat | r' != r && x / PGSIZE < TRAPFRAME && Flat(m, r', x / PGSIZE).V()
      ensures ByteAt(m', d', r', x) == ByteAt(m, d, r', x)
    {
      SameByte(m, d, m', d', r', x);
    }
  }

  /** A failed growth shows no difference. */
  lemma SameBytes(m: Mem, d: map<nat, seq<Byte>>, m': Mem, d': map<nat, seq<Byte>>, r: nat, sz: nat)
    requires WF(m) && Sized(m, r, sz) && sz <= TRAPFRAME * PGSIZE && SameFlat(m, m') && KeptData(m.role, d, d')
    ensures Sized(m', r, sz) && Resized(m, d, m', d', r, sz, sz) && OthersSame(m, d, m', d', r)
  {
    forall v: nat | v < TRAPFRAME ensures Flat(m', r, v).V() <==> v * PGSIZE < sz {
      assert Flat(m', r, v) == Flat(m, r, v);
    }
    forall x: nat | PageStart(x) < sz
      ensures Accessible(m', r, x) == Accessible(m, r, x) && ByteAt(m', d', r, x) == ByteAt(m, d, r, x)
    {
      assert Flat(m', r, x / PGSIZE) == Flat(m, r, x / PGSIZE);
      SameByte(m, d, m', d', r, x);
    }
    forall r': nat, x: nat | r' != r && x / PGSIZE < TRAPFRAME && Flat(m, r', x / PGSIZE).V()
      ensures ByteAt(m', d', r', x) == ByteAt(m, d, r', x)
    {
      SameByte(m, d, m', d', r', x);
    }
  }

  lemma ShrunkBytes(m: Mem, d: map<nat, seq<Byte>>, m': Mem, d': map<nat, seq<Byte>>, r: nat, sz: nat, sz': nat,
                    first: nat, last: nat)
    requires WF(m) && Sized(m, r, sz) && Rounds(sz, last) && Rounds(sz', first) && first <= last <= TRAPFRAME
    requires RangeUnmapped(m, m', r, first, last - first, Free) && KeptData(m'.role, d, d')
    ensures Sized(m', r, sz') && Resized(m, d, m', d', r, sz, sz') && OthersSame(m, d, m', d', r)
  {
    forall v: nat | v < TRAPFRAME ensures Flat(m', r, v).V() <==> v * PGSIZE < sz' {
      PageOf(v * PGSIZE, first, sz');
      PageOf(v * PGSIZE, last, sz);
      if !(first <= v < last) { assert Flat(m', r, v) == Flat(m, r, v); }
    }
    forall r': nat, x: nat | x / PGSIZE < TRAPFRAME && Flat(m, r', x / PGSIZE).V() && (r' != r || x / PGSIZE < first)
      ensures Flat(m', r', x / PGSIZE) == Flat(m, r', x / PGSIZE) && ByteAt(m', d', r', x) == ByteAt(m, d, r', x)
    {
      FrameRole(m, r', x / PGSIZE);
      assert Flat(m', r', x / PGSIZE) == Flat(m, r', x / PGSIZE);
      assert m'.role[Flat(m, r', x / PGSIZE).ppn] != Free;
    }
    forall x: nat | PageStart(x) < sz'
      ensures Accessible(m', r, x) == Accessible(m, r, x) && ByteAt(m', d', r, x) == ByteAt(m, d, r, x)
      ensures PageStart(x) < sz
    {
      PageOf(x, first, sz');
      PageOf(x, last, sz);
      assert Flat(m, r, x / PGSIZE).V();
      assert Flat(m', r, x / PGSIZE) == Flat(m, r, x / PGSIZE);
    }
  }

  lemma AllAccessible(m: Mem, d: map<nat, seq<Byte>>, m': Mem, d': map<nat, seq<Byte>>, r: nat, sz: nat, sz': nat)
    requires Resized(m, d, m', d', r, sz, sz') && Reachable(m, r, 0, sz)
    ensures Reachable(m', r, 0, sz')
  {
    forall x: nat | x < sz' ensures Accessible(m', r, x) {
      StartOfPage(x);
      hide PageStart, ByteAt;
      var b := ByteAt(m', d', r, x);
      if PageStart(x) < sz { assert Accessible(m, r, PageStart(x)); }
    }
  }

  lemma StartOfPage(x: nat)
    ensures PageStart(x) <= x && PageStart(x) / PGSIZE == x / PGSIZE
  {
    QuotRem(PageStart(x), PGSIZE, x / PGSIZE, 0);
  }

  /** Where growproc calls uvmalloc. */
  method GrowBy(mem: Memory, root: nat, sz: nat, newsz: nat) returns (ok: bool, sz': nat)
    requires mem.Valid() && Root(mem.M(), root) && Sized(mem.M(), root, sz) && newsz < UINT && sz < UINT && newsz != sz
    modifies mem
    ensures mem.Valid() && Sized(mem.M(), root, sz')
    ensures newsz < sz ==> ok
    ensures sz' == if ok && newsz >= sz then newsz else sz
    ensures forall first: nat, last: nat :: newsz >= sz && Rounds(sz, first) && Rounds(newsz, last) ==>
              (ok <==> CanGrow(old(mem.g), root, first, last))
    ensures Resized(old(mem.M()), old(mem.k.data), mem.M(), mem.k.data, root, sz, sz')
    ensures OthersSame(old(mem.M()), old(mem.k.data), mem.M(), mem.k.data, root)
  {
    hide WF, Listed, Filled, CanGrow, Resized, OthersSame;
    ghost var m, d := mem.M(), mem.k.data;
    RoundUp(sz);
    RoundUp(newsz);
    var t := mem.Uvmalloc(root, sz, newsz);
    ok := t != 0;
    sz' := if ok then t else sz;
    if ok && newsz >= sz {
      GrownBytes(m, d, mem.M(), mem.k.data, root, sz, newsz, PagesUp(sz), PagesUp(newsz));
    } else {
      SameFlatSelf(m);
      SameBytes(m, d, mem.M(), mem.k.data, root, sz);
    }
  }

  lemma SameFlatSelf(m: Mem)
    ensures SameFlat(m, m)
  {
  }

  /** Where it calls uvmdealloc. */
  method ShrinkTo(mem: Memory, root: nat, sz: nat, newsz: nat) returns (sz': nat)
    requires mem.Valid() && Root(mem.M(), root) && Sized(mem.M(), root, sz) && newsz < UINT && sz < UINT
    modifies mem
    ensures mem.Valid() && Sized(mem.M(), root, sz') && sz' == if newsz >= sz then sz else newsz
    ensures Resized(old(mem.M()), old(mem.k.data), mem.M(), mem.k.data, root, sz, sz')
    ensures OthersSame(old(mem.M()), old(mem.k.data), mem.M(), mem.k.data, root)
  {
    hide WF, Listed, RangeUnmapped, Resized, OthersSame;
    ghost var m, d := mem.M(), mem.k.data;
    RoundUp(sz);
    RoundUp(newsz);
    sz' := mem.Uvmdealloc(root, sz, newsz);
    if newsz < sz {
      ShrunkBytes(m, d, mem.M(), mem.k.data, root, sz, newsz, PagesUp(newsz), PagesUp(sz));
    } else {
      SameFlatSelf(m);
      SameBytes(m, d, m, d, root, sz);
    }
  }

  /** growproc, of a process with sz bytes. The new size is computed as a uint: where it does not fit one,
      nothing changes and growproc reports success. Otherwise it fails, with nothing changed, exactly when
      there are not enough pages to grow. */
  method Growproc(mem: Memory, root: nat, sz: nat, n: int) returns (ok: bool, sz': nat)
    requires mem.Valid() && Root(mem.M(), root) && sz < UINT && Sized(mem.M(), root, sz)
    requires -0x8000_0000 <= n < 0x8000_0000
    modifies mem
    ensures mem.Valid() && Sized(mem.M(), root, sz')
    ensures sz' == if ok && 0 <= sz + n < UINT then sz + n else sz
    ensures n <= 0 || sz + n >= UINT ==> ok
    ensures forall first: nat, last: nat :: 0 < n && sz + n < UINT && Rounds(sz, first) && Rounds(sz + n, last) ==>
              (ok <==> CanGrow(old(mem.g), root, first, last))
    ensures Resized(old(mem.M()), old(mem.k.data), mem.M(), mem.k.data, root, sz, sz')
    ensures OthersSame(old(mem.M()), old(mem.k.data), mem.M(), mem.k.data, root)
    ensures Reachable(old(mem.M()), root, 0, sz) ==> Reachable(mem.M(), root, 0, sz')
  {
    hide WF, Listed, CanGrow, Resized, OthersSame, Reachable;
    ghost var m, d := mem.M(), mem.k.data;
    ok, sz' := true, sz;
    if n > 0 {
      ok, sz' := GrowBy(mem, root, sz, (sz + n) % UINT);
    } else if n < 0 {
      sz' := ShrinkTo(mem, root, sz, (sz + n) % UINT);
    } else {
      SameFlatSelf(m);
      SameBytes(m, d, m, d, root, sz);
    }
    if Reachable(m, root, 0, sz) { AllAccessible(m, d, mem.M(), mem.k.data, root, sz, sz'); }
  }

  /** uvmclear: the user loses the page, and nothing else. */
  method ClearPage(mem: Memory, root: nat, vpn: nat)
    requires mem.Valid() && Root(mem.M(), root) && vpn < MAXVPN && PosOf(root, 0, vpn) in mem.g.node
    modifies mem
    ensures mem.Valid()
    ensures forall r: nat, x: nat {:trigger Accessible(mem.M(), r, x)} ::
              Accessible(mem.M(), r, x) <==> Accessible(old(mem.M()), r, x) && !(r == root && x / PGSIZE == vpn)
    ensures forall r: nat, x: nat {:trigger ByteAt(mem.M(), mem.k.data, r, x)} ::
              ByteAt(mem.M(), mem.k.data, r, x) == ByteAt(old(mem.M()), old(mem.k.data), r, x)
  {
    hide WF, Listed;
    Uvmclear(mem, root, vpn);
  }

  // ---------------------------------------------------------------------------------
  // A child's address space.

  /** r', in the later state, shows what r showed in the earlier one, below sz. */
  ghost predicate Copied(m: Mem, d: map<nat, seq<Byte>>, r: nat, m': Mem, d': map<nat, seq<Byte>>, r': nat, sz: nat) {
    forall x: nat {:trigger ByteAt(m', d', r', x)} :: PageStart(x) < sz ==>
      && Accessible(m', r', x) == Accessible(m, r, x) && ByteAt(m', d', r', x) == ByteAt(m, d, r, x)
      && Flat(m', r', x / PGSIZE).flags == Flat(m, r, x / PGSIZE).flags
  }

  /** Every byte of user memory, of every address space, is what it was. */
  ghost predicate AllSame(m: Mem, d: map<nat, seq<Byte>>, m': Mem, d': map<nat, seq<Byte>>) {
    && SameFlat(m, m')
    && (forall r: nat, x: nat {:trigger ByteAt(m', d', r, x)} ::
          x / PGSIZE < TRAPFRAME && Flat(m, r, x / PGSIZE).V() ==> ByteAt(m', d', r, x) == ByteAt(m, d, r, x))
  }

  lemma KeptBytes(m: Mem, d: map<nat, seq<Byte>>, m': Mem, d': map<nat, seq<Byte>>)
    requires WF(m) && SameFlat(m, m') && KeptData(m.role, d, d')
    ensures AllSame(m, d, m', d')
  {
    forall r: nat, x: nat | x / PGSIZE < TRAPFRAME && Flat(m, r, x / PGSIZE).V()
      ensures ByteAt(m', d', r, x) == ByteAt(m, d, r, x)
    {
      assert Flat(m', r, x / PGSIZE) == Flat(m, r, x / PGSIZE);
      SameByte(m, d, m', d', r, x);
    }
  }

  /** The new space has come into being (m1), and the parent's pages are copied into it (m2). */
  lemma ChildShows(m: Mem, d: map<nat, seq<Byte>>, m1: Mem, d1: map<nat, seq<Byte>>, m2: Mem, d2: map<nat, seq<Byte>>,
                   parent: nat, child: nat, sz: nat, n: nat)
    requires WF(m) && parent != child && Sized(m, parent, sz) && Rounds(sz, n) && n <= TRAPFRAME
    requires Fresh(m, m1, child) && KeptData(m.role, d, d1) && OnlyAt(m1, child, TRAPFRAME)
    requires Filled(m1, d1, m2, d2, child, 0, PagesOf(m1, d1, parent, n))
    requires forall a :: a in m.role ==> a in d && |d[a]| == PGSIZE
    ensures Sized(m2, child, sz) && Copied(m, d, parent, m2, d2, child, sz)
  {
    forall v: nat | v < TRAPFRAME ensures Flat(m2, child, v).V() <==> v * PGSIZE < sz {
      PageOf(v * PGSIZE, n, sz);
      if v >= n { assert Flat(m2, child, v) == Flat(m1, child, v); }
    }
    forall x: nat | PageStart(x) < sz
      ensures Accessible(m2, child, x) == Accessible(m, parent, x)
              && ByteAt(m2, d2, child, x) == ByteAt(m, d, parent, x)
    {
      PageOf(x, n, sz);
      var v := x / PGSIZE;
      assert Flat(m1, parent, v) == Flat(m, parent, v);
      FrameRole(m, parent, v);
      assert PageAt(m2, d2, child, v) == PageAt(m1, d1, parent, v);
    }
  }

  lemma ChildApart(m: Mem, d: map<nat, seq<Byte>>, m1: Mem, d1: map<nat, seq<Byte>>, m2: Mem, d2: map<nat, seq<Byte>>,
                   child: nat, want: seq<Page>, tramp: nat, tf: nat)
    requires WF(m) && Fresh(m, m1, child) && KeptData(m.role, d, d1) && HighPages(m1, child, tramp, tf)
    requires Filled(m1, d1, m2, d2, child, 0, want) && |want| <= TRAPFRAME
    ensures Root(m2, child) && HighPages(m2, child, tramp, tf) && OthersKeep(m, d, m2, d2, child)
  {
    forall v: nat | v >= TRAPFRAME ensures Flat(m2, child, v) == Flat(m1, child, v) {}
    forall r: nat, v: nat | r != child ensures Flat(m2, r, v) == Flat(m, r, v) {
      assert Flat(m2, r, v) == Flat(m1, r, v);
    }
    FreshKept(m, m1, d, d1, d2, child);
    forall r: nat, x: nat | r != child && x / PGSIZE < TRAPFRAME && Flat(m, r, x / PGSIZE).V()
      ensures ByteAt(m2, d2, r, x) == ByteAt(m, d, r, x)
    {
      SameByte(m, d, m2, d2, r, x);
    }
  }

  lemma FreshGrown(m: Mem, m1: Mem, m2: Mem, r: nat)
    requires Fresh(m, m1, r) && SameFlat(m1, m2) && Grown(m1, m2, r)
    ensures Fresh(m, m2, r)
  {
    forall r': nat, v: nat | r' != r ensures Flat(m2, r', v) == Flat(m, r', v) {
      assert Flat(m2, r', v) == Flat(m1, r', v);
    }
    forall a | a in m.role
      ensures m2.role[a] == m.role[a] || (m.role[a] == Free && m2.role[a].Node? && m2.role[a].pos.root == r)
    {
      var x, y := m1.role[a], m2.role[a];
    }
  }

  /** freeproc of a child whose memory could not be copied. */
  method GiveUp(mem: Memory, child: nat, tramp: nat, tf: nat, ghost m: Mem, ghost d: map<nat, seq<Byte>>)
    requires mem.Valid() && WF(m) && Fresh(m, mem.M(), child) && KeptData(m.role, d, mem.k.data)
    requires HighPages(mem.M(), child, tramp, tf) && OnlyAt(mem.M(), child, TRAPFRAME)
    modifies mem
    ensures mem.Valid() && mem.g.role == m.role && mem.g.node == m.node && AllSame(m, d, mem.M(), mem.k.data)
  {
    hide Listed;
    ghost var m2, d2 := mem.M(), mem.k.data;
    ProcFreepagetable(mem, child, 0, tramp, tf);
    FreshTorn(m, m2, mem.M(), child);
    forall a | a in m.role && m.role[a] != Free ensures mem.k.data[a] == d[a] { assert mem.g.role[a] != Free; }
    KeptBytes(m, d, mem.M(), mem.k.data);
  }

  /** fork's part in it: a page table of its own for the child (proc_pagetable) and a copy of the parent's
      memory (uvmcopy), or, if there are not the pages for it, everything given back (freeproc). */
  method ForkMemory(mem: Memory, parent: nat, sz: nat, tramp: nat, tf: nat) returns (child: nat)
    requires mem.Valid() && Root(mem.M(), parent) && sz < UINT && Sized(mem.M(), parent, sz)
    modifies mem
    ensures mem.Valid()
    ensures child == 0 ==>
              && mem.g.role == old(mem.g.role) && mem.g.node == old(mem.g.node)
              && AllSame(old(mem.M()), old(mem.k.data), mem.M(), mem.k.data)
    ensures child != 0 ==>
              && !Root(old(mem.M()), child) && Root(mem.M(), child) && HighPages(mem.M(), child, tramp, tf)
              && Sized(mem.M(), child, sz) && UserSpace(mem.M(), child)
              && Copied(old(mem.M()), old(mem.k.data), parent, mem.M(), mem.k.data, child, sz)
              && OthersKeep(old(mem.M()), old(mem.k.data), mem.M(), mem.k.data, child)
  {
    hide Listed, WF, Filled, Fresh, SameFlat, Grown, CanGrow, AllSame, Copied, OthersKeep, HighPages, UserSpace;
    ghost var m, d := mem.M(), mem.k.data;
    child := ProcPagetable(mem, tramp, tf);
    if child == 0 {
      KeptBytes(m, d, mem.M(), mem.k.data);
      return;
    }
    ghost var m1, d1 := mem.M(), mem.k.data;
    StillThere(m, m1, parent, child);
    StillSized(m, m1, parent, child, sz);
    RoundUp(sz);
    var ok := Uvmcopy(mem, parent, child, sz);
    ghost var m2, d2 := mem.M(), mem.k.data;
    if ok {
      ChildShows(m, d, m1, d1, m2, d2, parent, child, sz, PagesUp(sz));
      ChildApart(m, d, m1, d1, m2, d2, child, PagesOf(m1, d1, parent, PagesUp(sz)), tramp, tf);
      HighIsKernels(m2, child, tramp, tf);
      return;
    }
    FreshGrown(m, m1, m2, child);
    SameHigh(m1, m2, child, tramp, tf);
    FreshKept(m, m1, d, d1, d2, child);
    GiveUp(mem, child, tramp, tf, m, d);
    child := 0;
  }

  /** Trampoline and trapframe are not the user's. */
  lemma HighIsKernels(m: Mem, r: nat, tramp: nat, tf: nat)
    requires HighPages(m, r, tramp, tf)
    ensures UserSpace(m, r)
  {
    forall v: nat | v >= TRAPFRAME ensures !Flat(m, r, v).U() {
      assert v == TRAPFRAME || v == TRAMPOLINE || v > TRAMPOLINE;
    }
  }

  lemma StillThere(m: Mem, m': Mem, r: nat, child: nat)
    requires Fresh(m, m', child) && Root(m, r)
    ensures Root(m', r) && r != child && !Root(m, child) && Root(m', child)
  {
  }

  lemma StillSized(m: Mem, m': Mem, r: nat, child: nat, sz: nat)
    requires Fresh(m, m', child) && Sized(m, r, sz) && r != child
    ensures Sized(m', r, sz)
  {
    forall v: nat | v < TRAPFRAME ensures Flat(m', r, v).V() <==> v * PGSIZE < sz {
      assert Flat(m', r, v) == Flat(m, r, v);
    }
  }

  lemma SameHigh(m: Mem, m': Mem, r: nat, tramp: nat, tf: nat)
    requires SameFlat(m, m') && HighPages(m, r, tramp, tf) && OnlyAt(m, r, TRAPFRAME)
    ensures HighPages(m', r, tramp, tf) && OnlyAt(m', r, TRAPFRAME)
  {
    forall v: nat ensures Flat(m', r, v) == Flat(m, r, v) {}
  }
}
