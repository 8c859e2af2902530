/** Allocating, mapping and freeing the blocks of a file (kernel/fs.c). The inode at hand is in memory,
    in ip; iupdate copies it to its place on disk. */
module Files {
  import opened Common
  import opened FsLayout

  /** BBLOCK and IBLOCK: where bit b of the bitmap, or inode i, is kept. */
  function BBlock(sb: Super, b: nat): nat { b / BPB + sb.bmapstart }

  function IBlock(sb: Super, i: nat): nat { i / IPB + sb.inodestart }

  /** The inodes lie one after the other from the start of block inodestart on, 64 bytes each, and the bits of the
      bitmap from the start of block bmapstart on; so two of them are in one block if and only if they are in the
      same sixteen, or the same 8192. */
  lemma WhereKept(sb: Super, i: nat, j: nat)
    ensures IBlock(sb, i) * 1024 + i % 16 * 64 == sb.inodestart * 1024 + i * 64
    ensures IBlock(sb, i) == IBlock(sb, j) <==> i / 16 == j / 16
    ensures BBlock(sb, i) * 8192 + i % 8192 == sb.bmapstart * 8192 + i
    ensures BBlock(sb, i) == BBlock(sb, j) <==> i / 8192 == j / 8192
    ensures IBlock(sb, 0) == sb.inodestart && BBlock(sb, 0) == sb.bmapstart
  {
    assert i == i / 16 * 16 + i % 16 && i == i / 8192 * 8192 + i % 8192;
  }

  /** The file system with inode i as it is in memory. */
  function View(k: Fs, i: nat, ip: Inode): Fs {
    if i < |k.ino| then k.(ino := k.ino[i := ip]) else k
  }

  ghost predicate Good(sb: Super, k: Fs, i: nat, ip: Inode, own: Owners) {
    && Shape(sb, k) && i < sb.ninodes && |ip.addrs| == NDIRECT + 1
    && Owned(sb, View(k, i, ip), own) && FreeOk(View(k, i, ip))
  }

  /** A file system with no files: the blocks below sb.data are marked, the inodes have no blocks. */
  ghost predicate Blank(sb: Super, k: Fs) {
    && Shape(sb, k) && (forall b: nat :: b < sb.size ==> (k.bits[b] <==> b < sb.data))
    && (forall i: nat :: i < sb.ninodes ==> k.ino[i].addrs == NOADDRS)
  }

  lemma BlankIsGood(sb: Super, k: Fs, i: nat)
    requires Blank(sb, k) && i < sb.ninodes
    ensures Good(sb, k, i, k.ino[i], map[]) && InSlots(map[])
  {
    assert k.ino[i := k.ino[i]] == k.ino;
    forall j: nat, s: nat ensures SlotOk(k, map[], j, s) {}
  }

  /** Byte x of file i; where no block is mapped it reads as zero. */
  function ByteAt(v: Fs, i: nat, x: nat): Byte {
    var b := Ref(v, i, SlotOf(x / BSIZE));
    if b == 0 || b >= |v.blk| || |v.blk[b]| != BSIZE then 0 else v.blk[b][x % BSIZE]
  }

  ghost predicate SameBytes(v: Fs, v': Fs) {
    forall i: nat, x: nat {:trigger ByteAt(v', i, x)} :: ByteAt(v', i, x) == ByteAt(v, i, x)
  }

  /** The inodes of v, but for the block numbers of inode i. */
  ghost predicate SameInodes(v: Fs, v': Fs, i: nat) {
    i < |v.ino| && |v'.ino| == |v.ino| && v'.ino == v.ino[i := v.ino[i].(addrs := v'.ino[i].addrs)]
  }

  /** bmap has mapped block bn of file i to addr: nothing changes if it was mapped; otherwise a zeroed
      block that had no owner has taken its place, perhaps with a new indirect block, and no byte of any
      file is different. */
  ghost predicate MapsTo(v: Fs, own: Owners, v': Fs, own': Owners, i: nat, bn: nat, addr: nat) {
    && Ref(v', i, SlotOf(bn)) == addr != 0
    && (Ref(v, i, SlotOf(bn)) != 0 ==> v' == v && own' == own)
    && (Ref(v, i, SlotOf(bn)) == 0 ==> addr !in own)
    && (forall i': nat, s: nat {:trigger Ref(v', i', s)} :: Ref(v, i', s) != 0 ==> Ref(v', i', s) == Ref(v, i', s))
    && (forall i': nat, s: nat {:trigger Ref(v', i', s)} ::
          Ref(v', i', s) != Ref(v, i', s) ==> i' == i && (s == SlotOf(bn) || (s == NDIRECT && bn >= NDIRECT)))
    && SameInodes(v, v', i) && SameBytes(v, v')
  }

  /** A block the code has just taken shows in no file. */
  lemma TakenBytes(sb: Super, v: Fs, own: Owners, b: nat, v': Fs)
    requires Shape(sb, v) && Owned(sb, v, own) && b < sb.size && b !in own && Shape(sb, v') && SameRefs(v, v')
    requires v'.blk == v.blk[b := v'.blk[b]]
    ensures SameBytes(v, v')
  {
    forall i: nat, x: nat ensures ByteAt(v', i, x) == ByteAt(v, i, x) {
      assert SlotOk(v, own, i, SlotOf(x / BSIZE));
      assert Ref(v', i, SlotOf(x / BSIZE)) == Ref(v, i, SlotOf(x / BSIZE));
    }
  }

  /** A zeroed block put where there was none shows no new byte; nor does a new entry of an indirect
      block. */
  lemma PutBytes(sb: Super, v: Fs, own: Owners, i: nat, s: nat, b: nat, v': Fs)
    requires Shape(sb, v) && Owned(sb, v, own) && Shape(sb, v') && NewRef(v, v', i, s, b) && Ref(v, i, s) == 0
    requires b in own && own[b] == Hand && b < sb.size && v.blk[b] == Zeroes()
    requires forall c: nat {:trigger v'.blk[c]} :: c < sb.size && c != Ref(v, i, NDIRECT) ==> v'.blk[c] == v.blk[c]
    requires Ref(v, i, NDIRECT) == 0 ==> v'.blk == v.blk
    ensures SameBytes(v, v')
  {
    assert OwnerOk(sb, v, own, b);
    forall i': nat, x: nat ensures ByteAt(v', i', x) == ByteAt(v, i', x) {
      var t := SlotOf(x / BSIZE);
      assert SlotOk(v, own, i', t) && SlotOk(v, own, i, NDIRECT);
      assert Ref(v', i', t) == if i' == i && t == s then b else Ref(v, i', t);
      assert OwnerOk(sb, v, own, b);
      if Ref(v, i', t) != 0 { assert OwnerOk(sb, v, own, Ref(v, i', t)); }
    }
  }

  /** One block more: slot s of inode i has got block b, which had no owner, and no byte shows it. */
  ghost predicate Grew(v: Fs, own: Owners, v': Fs, own': Owners, i: nat, s: nat, b: nat) {
    && b != 0 && b !in own && own' == own[b := Slot(i, s)]
    && NewRef(v, v', i, s, b) && SameBytes(v, v') && SameInodes(v, v', i)
  }

  lemma GrewAddr(sb: Super, v0: Fs, own0: Owners, v: Fs, own: Owners, i: nat, s: nat, b: nat, v': Fs, own': Owners)
    requires Shape(sb, v) && Owned(sb, v, own) && own == own0[b := Hand] && b != 0 && b !in own0
    requires SameRefs(v0, v) && SameBytes(v0, v) && v.ino == v0.ino
    requires i < sb.ninodes && s <= NDIRECT && Ref(v0, i, s) == 0 && b < sb.size && v.blk[b] == Zeroes()
    requires v' == PutAddr(v, i, s, b) && own' == own0[b := Slot(i, s)]
    ensures Shape(sb, v') && Owned(sb, v', own') && Grew(v0, own0, v', own', i, s, b)
  {
    assert Ref(v, i, s) == Ref(v0, i, s);
    assert own' == own[b := Slot(i, s)];
    PutAddrKeeps(sb, v, own, b, i, s, v', own');
    PutBytes(sb, v, own, i, s, b, v');
    GrewFrom(v0, own0, v, v', i, s, b);
  }

  lemma GrewFrom(v0: Fs, own0: Owners, v: Fs, v': Fs, i: nat, s: nat, b: nat)
    requires SameRefs(v0, v) && SameBytes(v0, v) && NewRef(v, v', i, s, b) && SameBytes(v, v')
    ensures NewRef(v0, v', i, s, b) && SameBytes(v0, v')
  {
    forall i': nat, t: nat ensures Ref(v', i', t) == if i' == i && t == s then b else Ref(v0, i', t) {
      assert Ref(v, i', t) == Ref(v0, i', t);
    }
    forall i': nat, x: nat
        ensures ByteAt(v', i', x) == ByteAt(v0, i', x) { assert ByteAt(v, i', x) == ByteAt(v0, i', x); }
  }

  lemma GrewEntry(sb: Super, v0: Fs, own0: Owners, v: Fs, own: Owners, i: nat, j: nat, x: nat, b: nat, v': Fs,
                  own': Owners)
    requires Shape(sb, v) && Owned(sb, v, own) && own == own0[b := Hand] && b != 0 && b !in own0
    requires SameRefs(v0, v) && SameBytes(v0, v) && v.ino == v0.ino
    requires i < sb.ninodes && j < NINDIRECT && x == Ref(v0, i, NDIRECT) && 0 < x < sb.size
             && Ref(v0, i, NDIRECT + 1 + j) == 0
    requires b < sb.size && v.blk[b] == Zeroes()
    requires v' == PutEntry(v, x, j, b) && own' == own0[b := Slot(i, NDIRECT + 1 + j)]
    ensures Shape(sb, v') && Owned(sb, v', own') && Grew(v0, own0, v', own', i, NDIRECT + 1 + j, b)
  {
    assert Ref(v, i, NDIRECT) == x && Ref(v, i, NDIRECT + 1 + j) == 0;
    assert own' == own[b := Slot(i, NDIRECT + 1 + j)];
    PutEntryKeeps(sb, v, own, b, i, j, x, v', own');
    PutBytes(sb, v, own, i, NDIRECT + 1 + j, b, v');
    GrewFrom(v0, own0, v, v', i, NDIRECT + 1 + j, b);
  }

  /** bmap of an unmapped block, from the one or two allocations it makes. */
  lemma MapsOne(v: Fs, own: Owners, v': Fs, own': Owners, i: nat, bn: nat, b: nat)
    requires Grew(v, own, v', own', i, SlotOf(bn), b) && Ref(v, i, SlotOf(bn)) == 0
    ensures MapsTo(v, own, v', own', i, bn, b)
  {
  }

  lemma MapsTwo(v: Fs, own: Owners, v1: Fs, own1: Owners, v': Fs, own': Owners, i: nat, bn: nat, x: nat, b: nat)
    requires bn >= NDIRECT && Grew(v, own, v1, own1, i, NDIRECT, x) && Ref(v, i, NDIRECT) == 0
    requires Grew(v1, own1, v', own', i, SlotOf(bn), b) && Ref(v, i, SlotOf(bn)) == 0
    ensures MapsTo(v, own, v', own', i, bn, b)
  {
    forall i': nat, s: nat
      ensures Ref(v', i', s) == if i' == i && s == SlotOf(bn) then b else if i' == i && s == NDIRECT then x
              else Ref(v, i', s)
    {
      assert Ref(v1, i', s) == if i' == i && s == NDIRECT then x else Ref(v, i', s);
    }
    forall i': nat, y: nat
        ensures ByteAt(v', i', y) == ByteAt(v, i', y) { assert ByteAt(v1, i', y) == ByteAt(v, i', y); }
  }

  /** Every block that differs from what it was in `base` has been given to log_write, but for those in
      `stray`. */
  ghost predicate Covered(sb: Super, base: Fs, k: Fs, log: set<nat>, stray: set<nat>) {
    && |k.blk| == |base.blk| && |k.bits| == |base.bits| && |k.ino| == |base.ino|
    && (forall c: nat {:trigger k.blk[c]} :: c < |k.blk| && k.blk[c] != base.blk[c] ==> c in log || c in stray)
    && (forall b: nat {:trigger k.bits[b]} :: b < |k.bits| && k.bits[b] != base.bits[b] ==> BBlock(sb, b) in log)
    && (forall i: nat {:trigger k.ino[i]} :: i < |k.ino| && k.ino[i] != base.ino[i] ==> IBlock(sb, i) in log)
  }

  /** A change to one block, one bit of the bitmap or one inode. */
  lemma CoversBlock(sb: Super, base: Fs, k: Fs, log: set<nat>, stray: set<nat>, c: nat, bytes: seq<Byte>)
    requires Covered(sb, base, k, log, stray) && c < |k.blk|
    ensures Covered(sb, base, k.(blk := k.blk[c := bytes]), log + {c}, stray)
    ensures Covered(sb, base, k.(blk := k.blk[c := bytes]), log, stray + {c})
  {}

  lemma CoversBit(sb: Super, base: Fs, k: Fs, log: set<nat>, stray: set<nat>, b: nat, bit: bool)
    requires Covered(sb, base, k, log, stray) && b < |k.bits|
    ensures Covered(sb, base, k.(bits := k.bits[b := bit]), log + {BBlock(sb, b)}, stray)
  {}

  lemma CoversInode(sb: Super, base: Fs, k: Fs, log: set<nat>, stray: set<nat>, i: nat, ip: Inode)
    requires Covered(sb, base, k, log, stray) && i < |k.ino|
    ensures Covered(sb, base, k.(ino := k.ino[i := ip]), log + {IBlock(sb, i)}, stray)
  {}

  class FileSystem {
    const sb: Super
    var k: Fs
    var cur: nat                 // ip->inum
    var ip: Inode
    ghost var own: Owners
    ghost var base: Fs           // what k was when the transaction began
    ghost var logged: set<nat>   // the blocks that log_write has been given since
    ghost var stray: set<nat>    // the blocks changed since and not given to it

    /** On any image whose blocks are owned as they should be, such as a blank one. */
    constructor (sb: Super, k: Fs, cur: nat, ghost own: Owners)
      requires cur < |k.ino| && Good(sb, k, cur, k.ino[cur], own) && InSlots(own)
      ensures Valid() && this.sb == sb && this.k == k && this.cur == cur && this.own == own && ip == k.ino[cur]
      ensures V() == k == base && logged == stray == {}
    {
      this.sb, this.k, this.cur, this.ip, this.own := sb, k, cur, k.ino[cur], own;
      this.base, this.logged, this.stray := k, {}, {};
      new;
      assert k.ino[cur := k.ino[cur]] == k.ino;
    }

    ghost function V(): Fs
      reads this
    {
      View(k, cur, ip)
    }

    /** Between operations no block is in hand, so that the bitmap is exact (BitmapExact). */
    ghost predicate Valid()
      reads this
    {
      Sound() && InSlots(own)
    }

    ghost predicate Sound()
      reads this
    {
      Good(sb, k, cur, ip, own) == true && Logs()
    }

    ghost predicate Logs()
      reads this
    {
      Covered(sb, base, k, logged, stray) == true
    }

    /** begin_op: the transaction starts from what there is now. */
    method BeginOp()
      requires Valid()
      modifies this`base, this`logged, this`stray
      ensures Valid() && base == k && logged == stray == {}
    {
      base, logged, stray := k, {}, {};
    }

    /** ilock of an allocated inode, once the inode at hand is on disk. */
    method Ilock(i: nat)
      requires Valid() && ip == k.ino[cur] && i < sb.ninodes && k.ino[i].kind != 0
      modifies this`cur, this`ip
      ensures Valid() && cur == i && ip == k.ino[i] && V() == old(V()) == k
    {
      assert k.ino[cur := k.ino[cur]] == k.ino;
      cur := i;
      ip := k.ino[i];
      assert k.ino[cur := k.ino[cur]] == k.ino;
    }

    /** The block balloc has found: marked, and zeroed by bzero. */
    method TakeBlock(b: nat)
      requires Sound() && b < sb.size && !k.bits[b]
      modifies this`k, this`own, this`logged
      ensures Free(k.bits) == Free(old(k.bits)) - 1
      ensures b != 0 && Sound() && k == TakenBlock(old(k), b) && b !in old(own) && own == old(own)[b := Hand]
      ensures SameRefs(old(V()), V()) && SameBytes(old(V()), V())
      ensures logged == old(logged) + {BBlock(sb, b), b}
    {
      hide Covered;
      ghost var v := V();
      FreeUpdate(k.bits, b, true);
      CoversBit(sb, base, k, logged, stray, b, true);
      CoversBlock(sb, base, k.(bits := k.bits[b := true]), logged + {BBlock(sb, b)}, stray, b, Zeroes());
      assert logged + {BBlock(sb, b)} + {b} == logged + {BBlock(sb, b), b};
      k := TakenBlock(k, b);
      logged := logged + {BBlock(sb, b), b};
      TakeKeeps(sb, v, own, b, V(), own[b := Hand]);
      TakenBytes(sb, v, own, b, V());
      own := own[b := Hand];
    }

    /** balloc: the lowest free block, marked and zeroed. 0, where the kernel panics, if there is
        none. */
    method Balloc() returns (b: nat)
      requires Sound()
      modifies this`k, this`own, this`logged
      ensures b == 0 <==> Free(old(k.bits)) == 0
      ensures b == 0 ==> k == old(k)
      ensures b != 0 ==> Free(k.bits) == Free(old(k.bits)) - 1
      ensures b != 0 ==> b < sb.size && !old(k.bits)[b] && forall c: nat :: c < b ==> old(k.bits)[c]
      ensures b != 0 ==> Sound() && k == TakenBlock(old(k), b) && b !in old(own) && own == old(own)[b := Hand]
      ensures SameRefs(old(V()), V()) && SameBytes(old(V()), V())
      ensures logged == old(logged) + if b == 0 then {} else {BBlock(sb, b), b}
    {
      hide Covered;
      NoneFree(k.bits);
      var b0 := 0;
      while b0 < sb.size
        invariant forall c: nat :: c < b0 && c < sb.size ==> k.bits[c]
      {
        var bi := 0;
        while bi < BPB && b0 + bi < sb.size
          invariant 0 <= bi <= BPB
          invariant forall c: nat :: c < b0 + bi && c < sb.size ==> k.bits[c]
        {
          if !k.bits[b0 + bi] {
            b := b0 + bi;
            TakeBlock(b);
            return;
          }
          bi := bi + 1;
        }
        b0 := b0 + BPB;
      }
      b := 0;
    }

    /** bfree, of a block that is marked. */
    method Bfree(b: nat)
      requires b < |k.bits| && k.bits[b]
      modifies this`k, this`logged
      ensures k == old(k).(bits := old(k.bits)[b := false]) && logged == old(logged) + {BBlock(sb, b)}
      ensures old(Logs()) ==> Logs()
    {
      if Logs() { CoversBit(sb, base, k, logged, stray, b, false); }
      k := k.(bits := k.bits[b := false]);
      logged := logged + {BBlock(sb, b)};
    }

    /** iupdate */
    method Iupdate()
      requires Valid()
      modifies this`k, this`logged
      ensures Valid() && k == old(V()) && V() == old(V()) && logged == old(logged) + {IBlock(sb, cur)}
    {
      CoversInode(sb, base, k, logged, stray, cur, ip);
      k := k.(ino := k.ino[cur := ip]);
      assert k.ino[cur := ip] == k.ino;
      logged := logged + {IBlock(sb, cur)};
    }

    /** ip->addrs[s] = balloc(), for a slot that has no block. */
    method AllocAddr(s: nat) returns (addr: nat)
      requires Valid() && ip.kind != 0 && s <= NDIRECT && ip.addrs[s] == 0
      modifies this`k, this`ip, this`own, this`logged
      ensures addr == 0 <==> Free(old(k.bits)) == 0
      ensures addr != 0 ==> Free(k.bits) == Free(old(k.bits)) - 1
      ensures addr != 0 ==> Valid() && Grew(old(V()), old(own), V(), own, cur, s, addr)
      ensures addr != 0 ==> logged == old(logged) + {BBlock(sb, addr), addr}
    {
      ghost var v0, own0 := V(), own;
      addr := Balloc();
      if addr == 0 { return; }
      ghost var v, own1 := V(), own;
      ip := ip.(addrs := ip.addrs[s := addr]);
      own := own0[addr := Slot(cur, s)];
      assert V() == PutAddr(v, cur, s, addr);
      GrewAddr(sb, v0, own0, v, own1, cur, s, addr, V(), own);
    }

    /** a[j] = balloc(), log_write, for an entry that has no block. */
    method AllocEntry(j: nat) returns (addr: nat)
      requires Valid() && j < NINDIRECT && ip.addrs[NDIRECT] != 0 && Ref(V(), cur, NDIRECT + 1 + j) == 0
      modifies this`k, this`own, this`logged
      ensures addr == 0 <==> Free(old(k.bits)) == 0
      ensures addr != 0 ==> Free(k.bits) == Free(old(k.bits)) - 1
      ensures addr != 0 ==> Valid() && Grew(old(V()), old(own), V(), own, cur, NDIRECT + 1 + j, addr)
      ensures addr != 0 ==> logged == old(logged) + {BBlock(sb, addr), addr, ip.addrs[NDIRECT]}
    {
      ghost var v0, own0 := V(), own;
      var x := ip.addrs[NDIRECT];
      OneReference(sb, v0, own0, cur, NDIRECT, cur, NDIRECT);
      addr := Balloc();
      if addr == 0 { return; }
      ghost var v, own1 := V(), own;
      CoversBlock(sb, base, k, logged, stray, x, PutEntry(k, x, j, addr).blk[x]);
      k := PutEntry(k, x, j, addr);
      logged := logged + {x};
      own := own0[addr := Slot(cur, NDIRECT + 1 + j)];
      assert V() == PutEntry(v, x, j, addr);
      GrewEntry(sb, v0, own0, v, own1, cur, j, x, addr, V(), own);
    }

    /** bmap of a block beyond the direct ones, whose indirect block is there. */
    method BmapEntry(bn: nat) returns (addr: nat)
      requires Valid() && ip.kind != 0 && NDIRECT <= bn < MAXFILE && ip.addrs[NDIRECT] != 0
      modifies this`k, this`own, this`logged
      ensures addr == 0 <==> Ref(old(V()), cur, SlotOf(bn)) == 0 && Free(old(k.bits)) == 0
      ensures addr != 0 ==> Valid() && Ref(V(), cur, SlotOf(bn)) == addr
      ensures Ref(old(V()), cur, SlotOf(bn)) != 0 ==> k == old(k) && own == old(own) && logged == old(logged)
      ensures addr != 0 && Ref(old(V()), cur, SlotOf(bn)) == 0 ==>
                && Grew(old(V()), old(own), V(), own, cur, SlotOf(bn), addr) == true
                && Free(k.bits) == Free(old(k.bits)) - 1
                && logged == old(logged) + {BBlock(sb, addr), addr, ip.addrs[NDIRECT]}
    {
      var x := ip.addrs[NDIRECT];
      assert Ref(V(), cur, NDIRECT) == x;
      OneReference(sb, V(), own, cur, NDIRECT, cur, NDIRECT);
      addr := GetWord(k.blk[x], bn - NDIRECT);
      assert Ref(V(), cur, SlotOf(bn)) == addr;
      if addr == 0 {
        addr := AllocEntry(bn - NDIRECT);
      }
    }

    /** bmap of a block beyond the direct ones. */
    method BmapIndirect(bn: nat) returns (addr: nat)
      requires Valid() && ip.kind != 0 && NDIRECT <= bn < MAXFILE
      modifies this`k, this`ip, this`own, this`logged
      ensures addr == 0 <==> Free(old(k.bits)) < Cost(old(V()), cur, bn, old(ip.addrs[NDIRECT]) != 0)
      ensures addr != 0 ==> Free(k.bits) == Free(old(k.bits)) - Cost(old(V()), cur, bn, old(ip.addrs[NDIRECT]) != 0)
      ensures addr != 0 ==> Valid() && MapsTo(old(V()), old(own), V(), own, cur, bn, addr) == true
      ensures addr != 0 ==> logged <= old(logged) + Touched(sb, V(), cur, bn)
      ensures Ref(old(V()), cur, SlotOf(bn)) != 0 ==>
                k == old(k) && ip == old(ip) && own == old(own) && logged == old(logged)
    {
      hide Covered;
      ghost var v, own0 := V(), own;
      var x := ip.addrs[NDIRECT];
      if x == 0 {
        x := AllocAddr(NDIRECT);
        if x == 0 { return 0; }
      }
      ghost var v1, own1 := V(), own;
      assert Ref(v, cur, NDIRECT) == old(ip.addrs[NDIRECT]) && Ref(v1, cur, NDIRECT) == x;
      assert Ref(v1, cur, SlotOf(bn)) == Ref(v, cur, SlotOf(bn));
      addr := BmapEntry(bn);
      if addr != 0 && Ref(v, cur, SlotOf(bn)) == 0 {
        assert Ref(V(), cur, NDIRECT) == x;
        if Ref(v, cur, NDIRECT) == 0 {
          MapsTwo(v, own0, v1, own1, V(), own, cur, bn, x, addr);
        } else {
          MapsOne(v, own0, V(), own, cur, bn, addr);
        }
      }
    }

    /** bmap: the block holding block bn of the file, allocated if there is none. 0 where the kernel
        panics, exactly when there are fewer free blocks than the mapping takes. */
    method Bmap(bn: nat) returns (addr: nat)
      requires Valid() && ip.kind != 0 && bn < MAXFILE
      modifies this`k, this`ip, this`own, this`logged
      ensures addr == 0 <==> Free(old(k.bits)) < Cost(old(V()), cur, bn, old(ip.addrs[NDIRECT]) != 0)
      ensures addr != 0 ==> Free(k.bits) == Free(old(k.bits)) - Cost(old(V()), cur, bn, old(ip.addrs[NDIRECT]) != 0)
      ensures addr != 0 ==> Valid() && MapsTo(old(V()), old(own), V(), own, cur, bn, addr) == true
      ensures addr != 0 ==> logged <= old(logged) + Touched(sb, V(), cur, bn)
      ensures Ref(old(V()), cur, SlotOf(bn)) != 0 ==>
                k == old(k) && ip == old(ip) && own == old(own) && logged == old(logged)
    {
      if bn >= NDIRECT {
        addr := BmapIndirect(bn);
        return;
      }
      ghost var v, own0 := V(), own;
      addr := ip.addrs[bn];
      assert Ref(v, cur, bn) == addr;
      if addr == 0 {
        addr := AllocAddr(bn);
        if addr != 0 { MapsOne(v, own0, V(), own, cur, bn, addr); }
      }
    }

    /** itrunc's first loop: the direct blocks. */
    method FreeDirect()
      requires Valid()
      modifies this`k, this`ip, this`logged
      ensures Logs() && k == old(k).(bits := k.bits) && Freed(sb, old(k.bits), k.bits, own, cur, 0, NDIRECT)
      ensures ip == old(ip).(addrs := ip.addrs) && |ip.addrs| == NDIRECT + 1
              && ip.addrs[NDIRECT] == old(ip.addrs[NDIRECT])
      ensures forall s: nat :: s < NDIRECT ==> ip.addrs[s] == 0
    {
      ghost var v, bits := V(), k.bits;
      var i: nat := 0;
      while i < NDIRECT
        invariant Logs() && i <= NDIRECT && k == old(k).(bits := k.bits) && Freed(sb, bits, k.bits, own, cur, 0, i)
        invariant ip == old(ip).(addrs := ip.addrs) && |ip.addrs| == NDIRECT + 1
        invariant forall s: nat :: s < i ==> ip.addrs[s] == 0
        invariant forall s: nat :: i <= s <= NDIRECT ==> ip.addrs[s] == old(ip.addrs)[s]
      {
        ghost var bits1 := k.bits;
        if ip.addrs[i] != 0 {
          assert Ref(v, cur, i) == ip.addrs[i];
          OneReference(sb, v, own, cur, i, cur, i);
          FreeNext(sb, v, own, cur, 0, i, bits, bits1, ip.addrs[i]);
          Bfree(ip.addrs[i]);
          ip := ip.(addrs := ip.addrs[i := 0]);
        }
        FreedNext(sb, v, own, cur, 0, i, bits, bits1, k.bits);
        i := i + 1;
      }
    }

    /** itrunc's second loop: the blocks named by the indirect block. */
    method FreeEntries(x: nat, ghost v: Fs, ghost bits: seq<bool>)
      requires Shape(sb, v) && Owned(sb, v, own) && Ref(v, cur, NDIRECT) == x != 0 && cur < sb.ninodes
      requires Logs() && v.blk == k.blk && Freed(sb, v.bits, bits, own, cur, 0, NDIRECT) && k.bits == bits
      modifies this`k, this`logged
      ensures Logs() && k == old(k).(bits := k.bits) && Freed(sb, bits, k.bits, own, cur, NDIRECT + 1, SLOTS)
    {
      OneReference(sb, v, own, cur, NDIRECT, cur, NDIRECT);
      var j: nat := 0;
      while j < NINDIRECT
        invariant Logs() && j <= NINDIRECT && k == old(k).(bits := k.bits)
        invariant Freed(sb, bits, k.bits, own, cur, NDIRECT + 1, NDIRECT + 1 + j)
      {
        ghost var bits1 := k.bits;
        var a := GetWord(k.blk[x], j);
        if a != 0 {
          assert Ref(v, cur, NDIRECT + 1 + j) == a;
          StillMarked(sb, v, own, cur, NDIRECT + 1 + j, a, bits);
          FreeNext(sb, v, own, cur, NDIRECT + 1, NDIRECT + 1 + j, bits, bits1, a);
          Bfree(a);
        }
        FreedNext(sb, v, own, cur, NDIRECT + 1, NDIRECT + 1 + j, bits, bits1, k.bits);
        j := j + 1;
      }
    }

    /** itrunc: the file's blocks are free again, and nothing else has changed. */
    method Itrunc()
      requires Valid()
      modifies this`k, this`ip, this`own, this`logged
      ensures Valid() && k == V() && ip == old(ip).(addrs := NOADDRS, size := 0)
      ensures k == old(k).(bits := k.bits, ino := old(k.ino)[cur := ip])
      ensures Dropped(old(own), own, cur) && OnlyFree(old(V()), V(), cur)
    {
      hide Covered, OwnerOk, Freed, SameBytes;
      ghost var v := V();
      FreeDirect();
      ghost var bits1 := k.bits;
      var x := ip.addrs[NDIRECT];
      assert x == Ref(v, cur, NDIRECT);
      ghost var bits2 := k.bits;
      if x != 0 {
        FreeEntries(x, v, bits1);
        bits2 := k.bits;
        StillMarked(sb, v, own, cur, NDIRECT, x, bits1);
        assert k.bits[x] by { assert SlotOk(v, own, cur, NDIRECT); }
        Bfree(x);
        ip := ip.(addrs := ip.addrs[NDIRECT := 0]);
      }
      ip := ip.(size := 0);
      AllFreed(sb, v, own, cur, bits1, bits2, k.bits);
      ghost var own' := map b | b in own && !(own[b].Slot? && own[b].i == cur) :: own[b];
      assert ip.addrs == NOADDRS;
      TruncKeeps(sb, v, own, cur, V(), own');
      OnlyFreeBytes(v, V(), cur);
      own := own';
      Iupdate();
    }

    /** iput's branch for the last reference to an inode without links. */
    method Ifree()
      requires Valid()
      modifies this`k, this`ip, this`own, this`logged
      ensures Valid() && k == V() && ip == old(ip).(kind := 0, addrs := NOADDRS, size := 0)
      ensures Dropped(old(own), own, cur) && OnlyFree(old(V()), V(), cur)
    {
      ghost var v := V();
      Itrunc();
      ghost var v1 := V();
      ip := ip.(kind := 0);
      SameAddrs(sb, v1, V(), own);
      OnlyFreeBytes(v, V(), cur);
      Iupdate();
    }

    /** iput, of the last or another reference; ref and valid are ip->ref and ip->valid. */
    method Iput(ref: nat, valid: bool) returns (left: nat)
      requires Valid() && ref > 0
      modifies this`k, this`ip, this`own, this`logged
      ensures Valid() && left == ref - 1
      ensures if ref == 1 && valid && old(ip.nlink) == 0
              then k == V() && ip.kind == 0 && Dropped(old(own), own, cur) && OnlyFree(old(V()), V(), cur)
              else k == old(k) && ip == old(ip) && own == old(own)
    {
      if ref == 1 && valid && ip.nlink == 0 {
        Ifree();
      }
      left := ref - 1;
    }

    /** ialloc: the first free inode, from 1 on, gets a kind. 0, where the kernel panics, if there is
        none. Needs the inode in memory to be as it is on disk. */
    method Ialloc(kind: nat) returns (inum: nat)
      requires Valid() && ip == k.ino[cur] && kind != 0
      modifies this`k, this`logged, this`ip
      ensures Valid() && inum < sb.ninodes && (inum == 0 ==> k == old(k))
      ensures inum == 0 ==> forall i: nat :: 0 < i < sb.ninodes ==> k.ino[i].kind != 0
      ensures inum != 0 ==> forall i: nat :: 0 < i < inum ==> old(k.ino)[i].kind != 0
      ensures inum != 0 ==>
                old(k.ino)[inum].kind == 0 && k == old(k).(ino := old(k.ino)[inum := Inode(kind, 0, 0, NOADDRS)])
      ensures V() == k && SameRefs(old(V()), V())
    {
      inum := 1;
      while inum < sb.ninodes
        invariant forall i: nat :: 0 < i < inum && i < sb.ninodes ==> k.ino[i].kind != 0
      {
        if k.ino[inum].kind == 0 {
          ghost var v := V();
          CoversInode(sb, base, k, logged, stray, inum, Inode(kind, 0, 0, NOADDRS));
          k := k.(ino := k.ino[inum := Inode(kind, 0, 0, NOADDRS)]);
          ip := k.ino[cur];
          logged := logged + {IBlock(sb, inum)};
          assert v.ino[inum].addrs == NOADDRS;
          SameAddrs(sb, v, V(), own);
          return;
        }
        inum := inum + 1;
      }
      inum := 0;
    }
  }

  /** The owners but for the slots of inode i. */
  ghost predicate Dropped(own: Owners, own': Owners, i: nat) {
    && (forall b: nat :: b in own' <==> b in own && !(own[b].Slot? && own[b].i == i))
    && (forall b: nat :: b in own' ==> own'[b] == own[b])
  }

  /** Inode i has lost its blocks; the others show what they did. */
  ghost predicate OnlyFree(v: Fs, v': Fs, i: nat) {
    && (forall i': nat, s: nat {:trigger Ref(v', i', s)} :: Ref(v', i', s) == if i' == i then 0 else Ref(v, i', s))
    && (forall i': nat, x: nat {:trigger ByteAt(v', i', x)} :: i' != i ==> ByteAt(v', i', x) == ByteAt(v, i', x))
    && |v'.ino| == |v.ino| && i < |v.ino| && v'.ino == v.ino[i := v'.ino[i]]
  }

  lemma OnlyFreeBytes(v: Fs, v': Fs, i: nat)
    requires forall i': nat, s: nat {:trigger Ref(v', i', s)} :: Ref(v', i', s) == if i' == i then 0 else Ref(v, i', s)
    requires v'.blk == v.blk && |v'.ino| == |v.ino| && i < |v.ino| && v'.ino == v.ino[i := v'.ino[i]]
    ensures OnlyFree(v, v', i)
  {
  }

  /** Changing what inodes hold besides block numbers. */
  lemma SameAddrs(sb: Super, v: Fs, v': Fs, own: Owners)
    requires Shape(sb, v) && Owned(sb, v, own) && v' == v.(ino := v'.ino) && |v'.ino| == |v.ino|
    requires forall i: nat :: i < |v.ino| ==> v'.ino[i].addrs == v.ino[i].addrs
    ensures Shape(sb, v') && Owned(sb, v', own) && SameRefs(v, v') && SameBytes(v, v')
  {
    forall i: nat, s: nat
        ensures Ref(v', i, s) == Ref(v, i, s) && SlotOk(v', own, i, s) { assert SlotOk(v, own, i, s); }
    forall b: nat | b in own ensures OwnerOk(sb, v', own, b) { assert OwnerOk(sb, v, own, b); }
    forall i: nat, x: nat ensures ByteAt(v', i, x) == ByteAt(v, i, x) {
      assert Ref(v', i, SlotOf(x / BSIZE)) == Ref(v, i, SlotOf(x / BSIZE));
    }
  }

  lemma AllFreed(sb: Super, v: Fs, own: Owners, i: nat, bits1: seq<bool>, bits2: seq<bool>, bits': seq<bool>)
    requires Shape(sb, v) && Owned(sb, v, own) && Freed(sb, v.bits, bits1, own, i, 0, NDIRECT)
    requires var x := Ref(v, i, NDIRECT);
             if x == 0 then bits' == bits1
             else Freed(sb, bits1, bits2, own, i, NDIRECT + 1, SLOTS) && x < |bits2| && bits' == bits2[x := false]
    ensures |bits'| == sb.size
    ensures forall b: nat {:trigger bits'[b]} :: b < sb.size ==>
              (bits'[b] <==> v.bits[b] && !(b in own && own[b].Slot? && own[b].i == i))
  {
    assert SlotOk(v, own, i, NDIRECT);
    forall b: nat | b < sb.size ensures bits'[b] <==> v.bits[b] && !(b in own && own[b].Slot? && own[b].i == i) {
      assert b in own ==> OwnerOk(sb, v, own, b);
      assert bits1[b] <==> v.bits[b] && !(b in own && own[b].Slot? && own[b].i == i && own[b].s < NDIRECT);
      if Ref(v, i, NDIRECT) != 0 {
        assert bits2[b] <==>
                 bits1[b] && !(b in own && own[b].Slot? && own[b].i == i && NDIRECT + 1 <= own[b].s < SLOTS);
      }
    }
  }

  /** The blocks in slots lo .. n-1 of inode i, and no others, are no longer marked. */
  ghost predicate Freed(sb: Super, bits: seq<bool>, bits': seq<bool>, own: Owners, i: nat, lo: nat, n: nat) {
    && |bits| == |bits'| == sb.size
    && forall b: nat {:trigger bits'[b]} :: b < sb.size ==>
         (bits'[b] <==> bits[b] && !(b in own && own[b].Slot? && own[b].i == i && lo <= own[b].s < n))
  }

  /** The block in slot n is still marked when its turn comes, so that bfree does not panic. */
  lemma FreeNext(sb: Super, v: Fs, own: Owners, i: nat, lo: nat, n: nat, bits: seq<bool>, bits1: seq<bool>, b: nat)
    requires Shape(sb, v) && Owned(sb, v, own) && Ref(v, i, n) == b != 0 && Freed(sb, bits, bits1, own, i, lo, n)
    requires b < |bits| && bits[b]
    ensures b < |bits1| && bits1[b]
  {
    assert SlotOk(v, own, i, n);
  }

  lemma FreedNext(sb: Super, v: Fs, own: Owners, i: nat, lo: nat, n: nat, bits: seq<bool>, bits1: seq<bool>,
                  bits2: seq<bool>)
    requires Shape(sb, v) && Owned(sb, v, own) && lo <= n && Freed(sb, bits, bits1, own, i, lo, n)
    requires if Ref(v, i, n) == 0 then bits2 == bits1
             else Ref(v, i, n) < sb.size && bits2 == bits1[Ref(v, i, n) := false]
    ensures Freed(sb, bits, bits2, own, i, lo, n + 1)
  {
    assert SlotOk(v, own, i, n);
    forall b: nat | b < sb.size
      ensures bits2[b] <==> bits[b] && !(b in own && own[b].Slot? && own[b].i == i && lo <= own[b].s < n + 1)
    {
      assert bits1[b] <==> bits[b] && !(b in own && own[b].Slot? && own[b].i == i && lo <= own[b].s < n);
      assert b in own ==> OwnerOk(sb, v, own, b);
    }
  }

  /** Freeing the direct blocks leaves the others marked. */
  lemma StillMarked(sb: Super, v: Fs, own: Owners, i: nat, s: nat, b: nat, bits: seq<bool>)
    requires Shape(sb, v) && Owned(sb, v, own) && Ref(v, i, s) == b != 0 && s >= NDIRECT
    requires Freed(sb, v.bits, bits, own, i, 0, NDIRECT)
    ensures b < |bits| && bits[b]
  {
    assert SlotOk(v, own, i, s);
    assert OwnerOk(sb, v, own, b);
  }

  /** How many blocks mapping block bn of file i takes; `ind` says whether the indirect block is there. */
  function Cost(v: Fs, i: nat, bn: nat, ind: bool): nat {
    if Ref(v, i, SlotOf(bn)) != 0 then 0 else if bn < NDIRECT || ind then 1 else 2
  }

  /** The blocks bmap may log: the block itself, the indirect block, and those of the bitmap with their
      bits. */
  function Touched(sb: Super, v: Fs, i: nat, bn: nat): set<nat> {
    var b, x := Ref(v, i, SlotOf(bn)), Ref(v, i, NDIRECT);
    {b, BBlock(sb, b)} + if bn < NDIRECT then {} else {x, BBlock(sb, x)}
  }
}
