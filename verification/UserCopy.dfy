/** Copying between the kernel and user memory, page by page (copyout, copyin and copyinstr in
    kernel/vm.c). */
module UserCopy {
  import opened Common
  import opened PageTable
  import opened Vm

  /** The user may use the byte at va: its page is mapped, with PTE_U. */
  predicate Accessible(m: Mem, r: nat, va: nat) {
    va < MAXVPN * PGSIZE && Flat(m, r, va / PGSIZE).V() && Flat(m, r, va / PGSIZE).U()
  }

  /** The trapframe and trampoline pages are not for the user. */
  ghost predicate UserSpace(m: Mem, r: nat) {
    forall v: nat {:trigger Flat(m, r, v)} :: v >= TRAPFRAME ==> !Flat(m, r, v).U()
  }

  /** The byte at va, for a mapped page of user memory. */
  function ByteAt(m: Mem, d: map<nat, seq<Byte>>, r: nat, va: nat): Byte {
    var a := Flat(m, r, va / PGSIZE).ppn;
    if a in d && |d[a]| == PGSIZE then d[a][va % PGSIZE] else 0
  }

  /** The n bytes from va on. */
  function Bytes(m: Mem, d: map<nat, seq<Byte>>, r: nat, va: nat, n: nat): (s: seq<Byte>)
    ensures |s| == n
  {
    seq<Byte>(n, i requires 0 <= i => ByteAt(m, d, r, va + i))
  }

  /** Every user page has its contents on record. */
  ghost predicate Backed(m: Mem, d: map<nat, seq<Byte>>) {
    forall a :: a in m.role ==> a != 0 && a in d && |d[a]| == PGSIZE
  }

  lemma AccessiblePage(m: Mem, d: map<nat, seq<Byte>>, r: nat, va: nat)
    requires WF(m) && UserSpace(m, r) && Accessible(m, r, va) && Backed(m, d)
    ensures va / PGSIZE < TRAPFRAME
    ensures var a := Flat(m, r, va / PGSIZE).ppn; a in m.role && m.role[a] == Frame(r, va / PGSIZE) && a != 0
  {
    FrameRole(m, r, va / PGSIZE);
  }

  /** walkaddr: the physical page of an accessible address, else 0. */
  method Walkaddr(mem: Memory, root: nat, va: nat) returns (pa: nat)
    requires mem.Valid() && Root(mem.M(), root) && UserSpace(mem.M(), root)
    modifies mem
    ensures mem.k == old(mem.k) && mem.g == old(mem.g) && mem.Valid() && Backed(mem.M(), mem.k.data)
    ensures pa != 0 <==> Accessible(mem.M(), root, va)
    ensures pa != 0 ==> va / PGSIZE < TRAPFRAME && pa in mem.g.role && mem.g.role[pa] == Frame(root, va / PGSIZE)
    ensures pa != 0 ==> pa == Flat(mem.M(), root, va / PGSIZE).ppn && pa in mem.k.data && |mem.k.data[pa]| == PGSIZE
  {
    if va >= MAXVPN * PGSIZE { return 0; }
    var t := mem.Walk(root, va / PGSIZE, false);
    if t == 0 { return 0; }
    assert NodeOk(mem.M(), PosOf(root, 0, va / PGSIZE));
    var e := mem.k.pt[t][Px(0, va / PGSIZE)];
    if !e.V() || !e.U() { return 0; }
    AccessiblePage(mem.M(), mem.k.data, root, va);
    return e.ppn;
  }

  /** From d to d' the bytes src have been written at va in r, and no other byte of any user page,
      or of any page that is not user memory, has changed. */
  ghost predicate Wrote(m: Mem, d: map<nat, seq<Byte>>, d': map<nat, seq<Byte>>, r: nat, va: nat, src: seq<Byte>) {
    && d'.Keys == d.Keys
    && (forall a {:trigger m.role[a]} :: a in m.role && !(m.role[a].Frame? && m.role[a].root == r) && a in d ==>
        d'[a] == d[a])
    && (forall r': nat, x: nat {:trigger ByteAt(m, d', r', x)} ::
          x / PGSIZE < TRAPFRAME && Flat(m, r', x / PGSIZE).V() ==>
            ByteAt(m, d', r', x) == if r' == r && va <= x < va + |src| then src[x - va] else ByteAt(m, d, r', x))
  }

  /** One page's worth. */
  lemma WrotePage(m: Mem, d: map<nat, seq<Byte>>, r: nat, va: nat, a: nat, chunk: seq<Byte>)
    requires WF(m) && Backed(m, d) && va / PGSIZE < TRAPFRAME && Flat(m, r, va / PGSIZE).V()
    requires a == Flat(m, r, va / PGSIZE).ppn && a in m.role && m.role[a] == Frame(r, va / PGSIZE)
    requires va % PGSIZE + |chunk| <= PGSIZE
    ensures Wrote(m, d, d[a := Overlay(d[a], va % PGSIZE, chunk)], r, va, chunk)
  {
    var d' := d[a := Overlay(d[a], va % PGSIZE, chunk)];
    forall r': nat, x: nat | x / PGSIZE < TRAPFRAME && Flat(m, r', x / PGSIZE).V()
      ensures ByteAt(m, d', r', x) == if r' == r && va <= x < va + |chunk| then chunk[x - va] else ByteAt(m, d, r', x)
    {
      FrameRole(m, r', x / PGSIZE);
      if Flat(m, r', x / PGSIZE).ppn == a {
        assert x / PGSIZE == va / PGSIZE && r' == r;
      }
    }
  }

  lemma WroteNothing(m: Mem, d: map<nat, seq<Byte>>, r: nat, va: nat)
    ensures Wrote(m, d, d, r, va, [])
  {
  }

  lemma WroteMore(m: Mem, d: map<nat, seq<Byte>>, d1: map<nat, seq<Byte>>, d2: map<nat, seq<Byte>>,
                  r: nat, va: nat, src: seq<Byte>, va1: nat, chunk: seq<Byte>)
    requires Wrote(m, d, d1, r, va, src) && Wrote(m, d1, d2, r, va1, chunk) && va1 == va + |src|
    ensures Wrote(m, d, d2, r, va, src + chunk)
  {
    forall r': nat, x: nat | x / PGSIZE < TRAPFRAME && Flat(m, r', x / PGSIZE).V()
      ensures ByteAt(m, d2, r', x) ==
              if r' == r && va <= x < va + |src + chunk| then (src + chunk)[x - va] else ByteAt(m, d, r', x)
    {
      assert ByteAt(m, d1, r', x) == if r' == r && va <= x < va + |src| then src[x - va] else ByteAt(m, d, r', x);
    }
    forall a | a in m.role && !(m.role[a].Frame? && m.role[a].root == r) && a in d ensures d2[a] == d[a] {
      assert d1[a] == d[a];
    }
  }

  lemma SamePageNumber(va: nat, n: nat)
    requires va % PGSIZE + n <= PGSIZE
    ensures forall x: nat {:trigger x / PGSIZE} :: va <= x < va + n ==>
              x / PGSIZE == va / PGSIZE && x % PGSIZE == va % PGSIZE + (x - va)
  {
    var q := va / PGSIZE;
    forall x: nat | va <= x < va + n ensures x / PGSIZE == q && x % PGSIZE == va % PGSIZE + (x - va) {
      QuotRem(x, PGSIZE, q, va % PGSIZE + (x - va));
    }
  }

  /** Addresses of one page are accessible together. */
  lemma SamePage(m: Mem, r: nat, va: nat, n: nat)
    requires va % PGSIZE + n <= PGSIZE
    ensures forall x: nat {:trigger Accessible(m, r, x)} :: va <= x < va + n ==>
              Accessible(m, r, x) == Accessible(m, r, va)
    ensures forall x: nat {:trigger x / PGSIZE} :: va <= x < va + n ==>
              x / PGSIZE == va / PGSIZE && x % PGSIZE == va % PGSIZE + (x - va)
  {
    SamePageNumber(va, n);
    forall x: nat | va <= x < va + n ensures Accessible(m, r, x) == Accessible(m, r, va) {
      assert x / PGSIZE == va / PGSIZE;
    }
  }

  /** The first n addresses from va on are accessible. */
  ghost predicate Reachable(m: Mem, r: nat, va: nat, n: nat) {
    forall x: nat {:trigger Accessible(m, r, x)} :: va <= x < va + n ==> Accessible(m, r, x)
  }

  /** How much of a range the page holding va covers: PGSIZE - (va - va0), at most len. */
  function ChunkSize(va: nat, len: nat): (n: nat)
    ensures n <= len && va % PGSIZE + n <= PGSIZE
    ensures len > 0 ==> n > 0
    ensures n < len ==> va + n == (va / PGSIZE + 1) * PGSIZE
  {
    if PGSIZE - va % PGSIZE > len then len else PGSIZE - va % PGSIZE
  }

  /** memmove to a user page. */
  method StorePage(mem: Memory, root: nat, va: nat, pa: nat, chunk: seq<Byte>)
    requires mem.Valid() && va / PGSIZE < TRAPFRAME && Flat(mem.M(), root, va / PGSIZE).V()
    requires pa == Flat(mem.M(), root, va / PGSIZE).ppn && pa in mem.g.role
             && mem.g.role[pa] == Frame(root, va / PGSIZE)
    requires va % PGSIZE + |chunk| <= PGSIZE
    modifies mem
    ensures mem.Valid() && mem.M() == old(mem.M()) && mem.g == old(mem.g)
    ensures Wrote(mem.M(), old(mem.k.data), mem.k.data, root, va, chunk)
  {
    hide Listed;
    WrotePage(mem.M(), mem.k.data, root, va, pa, chunk);
    ghost var k1 := mem.k;
    mem.k := mem.k.(data := mem.k.data[pa := Overlay(mem.k.data[pa], va % PGSIZE, chunk)]);
    ListedSame(k1, mem.g, mem.k, mem.g);
  }

  /** copyout: all of src is written if the whole range is accessible, and otherwise exactly the
      part before the first address that is not. */
  method Copyout(mem: Memory, root: nat, dstva: nat, src: seq<Byte>) returns (ok: bool, ghost done: nat)
    requires mem.Valid() && Root(mem.M(), root) && UserSpace(mem.M(), root)
    modifies mem
    ensures mem.Valid() && mem.M() == old(mem.M()) && mem.g == old(mem.g) && done <= |src|
    ensures Wrote(mem.M(), old(mem.k.data), mem.k.data, root, dstva, src[..done])
    ensures Reachable(mem.M(), root, dstva, done)
    ensures if ok then done == |src| else done < |src| && !Accessible(mem.M(), root, dstva + done)
  {
    hide Listed, WF, Wrote;
    ghost var m, d := mem.M(), mem.k.data;
    WroteNothing(m, d, root, dstva);
    var va, rest := dstva, src;
    done := 0;
    while |rest| > 0
      invariant done + |rest| == |src| && rest == src[done..] && (|rest| > 0 ==> va == dstva + done)
      invariant mem.Valid() && mem.M() == m && mem.g == old(mem.g)
      invariant Wrote(m, d, mem.k.data, root, dstva, src[..done]) && Reachable(m, root, dstva, done)
    {
      var pa := Walkaddr(mem, root, va / PGSIZE * PGSIZE);
      SamePage(m, root, va / PGSIZE * PGSIZE, PGSIZE);
      assert Accessible(m, root, va) == Accessible(m, root, va / PGSIZE * PGSIZE);
      if pa == 0 { return false, done; }
      var n := ChunkSize(va, |rest|);
      ghost var d1 := mem.k.data;
      SamePage(m, root, va, n);
      StorePage(mem, root, va, pa, rest[..n]);
      WroteMore(m, d, d1, mem.k.data, root, dstva, src[..done], va, rest[..n]);
      assert src[..done] + rest[..n] == src[..done + n];
      rest := rest[n..];
      done := done + n;
      va := (va / PGSIZE + 1) * PGSIZE;
    }
    assert src[..done] == src;
    ok := true;
  }

  /** copyin: the bytes of the range if all of it is accessible, and otherwise a failure. */
  method Copyin(mem: Memory, root: nat, srcva: nat, len: nat) returns (ok: bool, dst: seq<Byte>)
    requires mem.Valid() && Root(mem.M(), root) && UserSpace(mem.M(), root)
    modifies mem
    ensures mem.k == old(mem.k) && mem.g == old(mem.g) && mem.Valid()
    ensures ok <==> Reachable(mem.M(), root, srcva, len)
    ensures ok ==> dst == Bytes(mem.M(), mem.k.data, root, srcva, len)
  {
    ghost var m := mem.M();
    dst := [];
    var va, left := srcva, len;
    while left > 0
      invariant |dst| + left == len && (left > 0 ==> va == srcva + |dst|)
      invariant mem.k == old(mem.k) && mem.g == old(mem.g) && mem.Valid()
      invariant Reachable(m, root, srcva, |dst|) && dst == Bytes(m, mem.k.data, root, srcva, |dst|)
    {
      var pa := Walkaddr(mem, root, va / PGSIZE * PGSIZE);
      SamePage(m, root, va / PGSIZE * PGSIZE, PGSIZE);
      assert Accessible(m, root, va) == Accessible(m, root, va / PGSIZE * PGSIZE);
      if pa == 0 { return false, dst; }
      var n := ChunkSize(va, left);
      SamePage(m, root, va, n);
      var chunk := mem.k.data[pa][va % PGSIZE..va % PGSIZE + n];
      forall i | 0 <= i < n ensures chunk[i] == ByteAt(m, mem.k.data, root, va + i) {
        assert (va + i) / PGSIZE == va / PGSIZE;
      }
      dst := dst + chunk;
      left := left - n;
      va := (va / PGSIZE + 1) * PGSIZE;
    }
    ok := true;
  }

  /** What copyout wrote, copyin reads back. */
  lemma RoundTrip(m: Mem, d: map<nat, seq<Byte>>, d': map<nat, seq<Byte>>, r: nat, va: nat, src: seq<Byte>)
    requires UserSpace(m, r) && Reachable(m, r, va, |src|) && Wrote(m, d, d', r, va, src)
    ensures Bytes(m, d', r, va, |src|) == src
  {
    forall i: nat | i < |src| ensures ByteAt(m, d', r, va + i) == src[i] {
      assert Accessible(m, r, va + i);
    }
  }

  /** copyout, and copyin of the same range: both work if and only if all of it is the user's, and what
      went out comes back. */
  method OutAndIn(mem: Memory, root: nat, va: nat, src: seq<Byte>) returns (ok: bool, dst: seq<Byte>)
    requires mem.Valid() && Root(mem.M(), root) && UserSpace(mem.M(), root)
    modifies mem
    ensures mem.Valid() && mem.M() == old(mem.M()) && mem.g == old(mem.g)
    ensures ok <==> Reachable(mem.M(), root, va, |src|)
    ensures ok ==> dst == src
  {
    ghost var m, d := mem.M(), mem.k.data;
    ghost var done;
    dst := [];
    ok, done := Copyout(mem, root, va, src);
    if !ok { return; }
    assert src[..done] == src;
    ok, dst := Copyin(mem, root, va, |src|);
    RoundTrip(m, d, mem.k.data, root, va, src);
  }

  /** The user has a string of n bytes, and the NUL after it, at va. */
  ghost predicate StringAt(m: Mem, d: map<nat, seq<Byte>>, r: nat, va: nat, n: nat) {
    && Reachable(m, r, va, n + 1) && ByteAt(m, d, r, va + n) == 0
    && forall x: nat {:trigger ByteAt(m, d, r, x)} :: va <= x < va + n ==> ByteAt(m, d, r, x) != 0
  }

  /** The inner loop of copyinstr: bytes of one page, up to a NUL. */
  method CopyinstrPage(page: seq<Byte>, off: nat, n: nat) returns (gotNull: bool, dst: seq<Byte>)
    requires off + n <= |page|
    ensures |dst| <= n && dst == page[off..off + |dst|] && 0 !in dst
    ensures if gotNull then |dst| < n && page[off + |dst|] == 0 else |dst| == n
  {
    dst := [];
    gotNull := false;
    while |dst| < n
      invariant |dst| <= n && dst == page[off..off + |dst|] && 0 !in dst
      decreases n - |dst|
    {
      if page[off + |dst|] == 0 {
        return true, dst;
      }
      dst := dst + [page[off + |dst|]];
    }
  }

  /** copyinstr: the bytes up to the first NUL, if the range up to it is accessible and it comes
      within max, and otherwise a failure. */
  method Copyinstr(mem: Memory, root: nat, srcva: nat, max: nat) returns (ok: bool, dst: seq<Byte>)
    requires mem.Valid() && Root(mem.M(), root) && UserSpace(mem.M(), root)
    modifies mem
    ensures mem.k == old(mem.k) && mem.g == old(mem.g) && mem.Valid()
    ensures ok <==> exists n: nat :: n < max && StringAt(mem.M(), mem.k.data, root, srcva, n)
    ensures ok ==>
              StringAt(mem.M(), mem.k.data, root, srcva, |dst|) && dst == Bytes(mem.M(), mem.k.data, root, srcva, |dst|)
  {
    ghost var m, d := mem.M(), mem.k.data;
    dst := [];
    var va, left := srcva, max;
    while left > 0
      invariant left >= 0 && |dst| + left == max && (left > 0 ==> va == srcva + |dst|)
      invariant mem.k == old(mem.k) && mem.g == old(mem.g) && mem.Valid()
      invariant Reachable(m, root, srcva, |dst|) && dst == Bytes(m, d, root, srcva, |dst|) && 0 !in dst
    {
      var pa := Walkaddr(mem, root, va / PGSIZE * PGSIZE);
      SamePage(m, root, va / PGSIZE * PGSIZE, PGSIZE);
      assert Accessible(m, root, va) == Accessible(m, root, va / PGSIZE * PGSIZE);
      if pa == 0 {
        NoString(m, d, root, srcva, dst, max);
        return false, dst;
      }
      var n := ChunkSize(va, left);
      SamePage(m, root, va, n);
      var gotNull, chunk := CopyinstrPage(mem.k.data[pa], va % PGSIZE, n);
      ChunkBytes(m, d, root, srcva, dst, va, pa, chunk);
      dst := dst + chunk;
      left := left - |chunk|;
      if gotNull {
        assert (va + |chunk|) / PGSIZE == va / PGSIZE;
        assert ByteAt(m, d, root, srcva + |dst|) == 0;
        FoundString(m, d, root, srcva, dst);
        return true, dst;
      }
      va := (va / PGSIZE + 1) * PGSIZE;
    }
    NoString(m, d, root, srcva, dst, max);
    ok := false;
  }

  lemma ChunkBytes(m: Mem, d: map<nat, seq<Byte>>, r: nat, srcva: nat, dst: seq<Byte>, va: nat, pa: nat,
                   chunk: seq<Byte>)
    requires dst == Bytes(m, d, r, srcva, |dst|) && va == srcva + |dst| && Flat(m, r, va / PGSIZE).ppn == pa
    requires pa in d && |d[pa]| == PGSIZE && va % PGSIZE + |chunk| <= PGSIZE
    requires chunk == d[pa][va % PGSIZE..va % PGSIZE + |chunk|]
    ensures dst + chunk == Bytes(m, d, r, srcva, |dst + chunk|)
  {
    SamePage(m, r, va, |chunk|);
    forall i: nat | i < |chunk| ensures chunk[i] == ByteAt(m, d, r, va + i) {
      assert (va + i) / PGSIZE == va / PGSIZE;
    }
  }

  lemma FoundString(m: Mem, d: map<nat, seq<Byte>>, r: nat, va: nat, dst: seq<Byte>)
    requires Reachable(m, r, va, |dst| + 1) && dst == Bytes(m, d, r, va, |dst|) && 0 !in dst
    requires ByteAt(m, d, r, va + |dst|) == 0
    ensures StringAt(m, d, r, va, |dst|)
  {
    forall x: nat | va <= x < va + |dst| ensures ByteAt(m, d, r, x) != 0 { assert dst[x - va] in dst; }
  }

  /** No string ends before the copy had to stop. */
  lemma NoString(m: Mem, d: map<nat, seq<Byte>>, r: nat, va: nat, dst: seq<Byte>, max: nat)
    requires dst == Bytes(m, d, r, va, |dst|) && 0 !in dst
    requires |dst| == max || !Accessible(m, r, va + |dst|)
    ensures !exists n: nat :: n < max && StringAt(m, d, r, va, n)
  {
    forall n: nat | n < max ensures !StringAt(m, d, r, va, n) {
      if n < |dst| { assert dst[n] == ByteAt(m, d, r, va + n) && dst[n] in dst; }
    }
  }
}
