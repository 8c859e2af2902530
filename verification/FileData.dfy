/** Reading and writing the bytes of a file (readi and writei in kernel/fs.c). */
module FileData {
  import opened Common
  import opened FsLayout
  import opened Files

  /** n bytes of file i, from off on. */
  function Bytes(v: Fs, i: nat, off: nat, n: nat): (s: seq<Byte>)
    ensures |s| == n
  {
    seq<Byte>(n, j requires 0 <= j => ByteAt(v, i, off + j))
  }

  /** The file is not too long, and every block below its size is mapped. */
  ghost predicate Dense(v: Fs, i: nat) {
    && i < |v.ino| && v.ino[i].size <= MAXFILE * BSIZE
    && forall bn: nat {:trigger SlotOf(bn)} :: bn * BSIZE < v.ino[i].size ==> Ref(v, i, SlotOf(bn)) != 0
  }

  /** min(n - tot, BSIZE - off % BSIZE) */
  function Chunk(off: nat, left: nat): (m: nat)
    ensures m <= left && off % BSIZE + m <= BSIZE && (left > 0 ==> m > 0)
    ensures m < left ==> (off + m) % BSIZE == 0
  {
    if left < BSIZE - off % BSIZE then left else BSIZE - off % BSIZE
  }

  /** The bytes from off on within one block. */
  lemma InBlock(off: nat, m: nat, x: nat)
    requires off % BSIZE + m <= BSIZE && off <= x < off + m
    ensures x / BSIZE == off / BSIZE && x % BSIZE == off % BSIZE + (x - off)
  {
    QuotRem(x, BSIZE, off / BSIZE, off % BSIZE + (x - off));
  }

  lemma BlockBytes(v: Fs, i: nat, off: nat, m: nat, b: nat)
    requires off % BSIZE + m <= BSIZE && Ref(v, i, SlotOf(off / BSIZE)) == b != 0 && b < |v.blk| && |v.blk[b]| == BSIZE
    ensures v.blk[b][off % BSIZE..off % BSIZE + m] == Bytes(v, i, off, m)
  {
    var s, t := v.blk[b][off % BSIZE..off % BSIZE + m], Bytes(v, i, off, m);
    forall j: nat | j < m ensures s[j] == t[j] {
      InBlock(off, m, off + j);
      assert t[j] == ByteAt(v, i, off + j) && s[j] == v.blk[b][off % BSIZE + j];
    }
  }

  /** readi. The destination takes `room` bytes before copying to it fails. What is read are the bytes
      of the file, as many as are asked for, up to its end, or up to the block of which the destination does
      not take all that is wanted; nothing changes. */
  method Readi(f: FileSystem, off: nat, n: nat, room: nat) returns (data: seq<Byte>)
    requires f.Valid() && f.ip.kind != 0 && Dense(f.V(), f.cur) && off < UINT && n < UINT
    modifies f`k, f`ip, f`own, f`logged
    ensures f.k == old(f.k) && f.ip == old(f.ip) && f.own == old(f.own) && f.logged == old(f.logged)
    ensures data == Bytes(f.V(), f.cur, off, |data|)
    ensures off > f.ip.size || off + n >= UINT ==> data == []
    ensures off <= f.ip.size && off + n < UINT ==> |data| <= n && off + |data| <= f.ip.size && |data| <= room
    ensures off <= f.ip.size && off + n < UINT ==>
              || |data| == n || off + |data| == f.ip.size
              || ((data == [] || (off + |data|) % BSIZE == 0)
                  && room < n && off + room < f.ip.size && room < |data| + BSIZE - (off + |data|) % BSIZE)
  {
    data := [];
    if off > f.ip.size || off + n >= UINT { return; }
    var want := if off + n > f.ip.size then f.ip.size - off else n;
    while |data| < want
      invariant |data| <= want && |data| <= room && data == Bytes(f.V(), f.cur, off, |data|)
      invariant |data| == 0 || |data| == want || (off + |data|) % BSIZE == 0
      invariant f.k == old(f.k) && f.ip == old(f.ip) && f.own == old(f.own) && f.logged == old(f.logged)
      decreases want - |data|
    {
      var m := Chunk(off + |data|, want - |data|);
      if |data| + m > room { return; }
      var chunk := ReadBlock(f, off + |data|, m);
      data := data + chunk;
    }
  }

  /** A round of readi: m bytes of one block. */
  method ReadBlock(f: FileSystem, at: nat, m: nat) returns (chunk: seq<Byte>)
    requires f.Valid() && f.ip.kind != 0 && Dense(f.V(), f.cur) && at < f.ip.size && at % BSIZE + m <= BSIZE
    modifies f`k, f`ip, f`own, f`logged
    ensures f.k == old(f.k) && f.ip == old(f.ip) && f.own == old(f.own) && f.logged == old(f.logged)
    ensures chunk == Bytes(f.V(), f.cur, at, m)
  {
    var bn := at / BSIZE;
    assert bn * BSIZE < f.ip.size && bn < MAXFILE;
    assert Ref(f.V(), f.cur, SlotOf(bn)) != 0;
    var b := f.Bmap(bn);
    OneReference(f.sb, f.V(), f.own, f.cur, SlotOf(bn), f.cur, SlotOf(bn));
    BlockBytes(f.V(), f.cur, at, m, b);
    chunk := f.k.blk[b][at % BSIZE..at % BSIZE + m];
  }

  /** From v to v' the bytes src have been written at off in file i, and no other byte of any file has
      changed. */
  ghost predicate Wrote(v: Fs, v': Fs, i: nat, off: nat, src: seq<Byte>) {
    forall i': nat, x: nat {:trigger ByteAt(v', i', x)} :: x < MAXFILE * BSIZE ==>
      ByteAt(v', i', x) == if i' == i && off <= x < off + |src| then src[x - off] else ByteAt(v, i', x)
  }

  /** What was mapped before still is, to the same blocks; other inodes have not changed, nor inode i
      but for its blocks. */
  ghost predicate Extends(v: Fs, v': Fs, i: nat) {
    && (forall i': nat, s: nat {:trigger Ref(v', i', s)} :: Ref(v, i', s) != 0 ==> Ref(v', i', s) == Ref(v, i', s))
    && SameInodes(v, v', i)
  }

  lemma SlotOfInjective(a: nat, b: nat)
    ensures SlotOf(a) == SlotOf(b) ==> a == b
    ensures SlotOf(a) != NDIRECT
  {
  }

  /** Writing part of one block. */
  lemma WroteBlock(sb: Super, v: Fs, own: Owners, i: nat, at: nat, b: nat, bytes: seq<Byte>, v': Fs)
    requires Shape(sb, v) && Owned(sb, v, own) && Ref(v, i, SlotOf(at / BSIZE)) == b && 0 < b < sb.size
    requires at % BSIZE + |bytes| <= BSIZE && v' == v.(blk := v.blk[b := Overlay(v.blk[b], at % BSIZE, bytes)])
    ensures Shape(sb, v') && Owned(sb, v', own) && SameRefs(v, v') && Wrote(v, v', i, at, bytes)
  {
    var s := SlotOf(at / BSIZE);
    SlotOfInjective(at / BSIZE, 0);
    PutDataKeeps(sb, v, own, i, s, b, Overlay(v.blk[b], at % BSIZE, bytes), v');
    forall i': nat, x: nat
      ensures ByteAt(v', i', x) == if i' == i && at <= x < at + |bytes| then bytes[x - at] else ByteAt(v, i', x)
    {
      var t := SlotOf(x / BSIZE);
      assert Ref(v', i', t) == Ref(v, i', t);
      if Ref(v, i', t) == b {
        OneReference(sb, v, own, i, s, i', t);
        SlotOfInjective(x / BSIZE, at / BSIZE);
        assert x == x / BSIZE * BSIZE + x % BSIZE && at == at / BSIZE * BSIZE + at % BSIZE;
      } else if i' == i && at <= x < at + |bytes| {
        InBlock(at, |bytes|, x);
      }
    }
  }

  /** A round of writei: bmap from v to v1, then part of the block, to v2. */
  lemma WroteMore(v0: Fs, v: Fs, own: Owners, v1: Fs, own1: Owners, v2: Fs, i: nat, off: nat, src: seq<Byte>,
                  at: nat, b: nat, bytes: seq<Byte>)
    requires Wrote(v0, v, i, off, src) && Extends(v0, v, i) && at == off + |src|
    requires MapsTo(v, own, v1, own1, i, at / BSIZE, b) && SameRefs(v1, v2) && Wrote(v1, v2, i, at, bytes)
    requires at % BSIZE + |bytes| <= BSIZE && v2.ino == v1.ino
    ensures Wrote(v0, v2, i, off, src + bytes) && Extends(v0, v2, i)
  {
    forall i': nat, x: nat | x < MAXFILE * BSIZE
      ensures ByteAt(v2, i', x) ==
              if i' == i && off <= x < off + |src + bytes| then (src + bytes)[x - off] else ByteAt(v0, i', x)
    {
      assert ByteAt(v1, i', x) == ByteAt(v, i', x);
      assert ByteAt(v, i', x) == if i' == i && off <= x < off + |src| then src[x - off] else ByteAt(v0, i', x);
    }
    forall i': nat, s: nat | Ref(v0, i', s) != 0 ensures Ref(v2, i', s) == Ref(v0, i', s) {
      assert Ref(v, i', s) == Ref(v0, i', s);
      assert Ref(v1, i', s) == Ref(v, i', s);
    }
  }

  // ---------------------------------------------------------------------------------
  // What a write logs.

  /** The blocks holding n blocks of file i from block bn on. */
  function DataBlocks(v: Fs, i: nat, bn: nat, n: nat): (s: set<nat>)
    ensures |s| <= n
  {
    if n == 0 then {} else DataBlocks(v, i, bn, n - 1) + {Ref(v, i, SlotOf(bn + n - 1))}
  }

  /** A block that writing cnt blocks of file i from block bn on may log before iupdate, with a bitmap of
      one block: one of those blocks, the indirect block, or the bitmap. */
  ghost predicate MayLog(sb: Super, v: Fs, i: nat, bn: nat, cnt: nat, c: nat) {
    || c == sb.bmapstart
    || (c != 0 && c == Ref(v, i, NDIRECT))
    || exists j: nat {:trigger SlotOf(j)} :: bn <= j < bn + cnt && Ref(v, i, SlotOf(j)) == c
  }

  ghost predicate LogsOnly(sb: Super, v: Fs, i: nat, bn: nat, cnt: nat, log: set<nat>, log': set<nat>) {
    sb.size <= BPB ==> forall c: nat {:trigger c in log'} :: c in log' ==> c in log || MayLog(sb, v, i, bn, cnt, c)
  }

  lemma MayLogKept(sb: Super, v: Fs, v': Fs, i: nat, bn: nat, cnt: nat, c: nat)
    requires MayLog(sb, v, i, bn, cnt, c) && forall s: nat {:trigger Ref(v', i, s)} :: Ref(v, i, s) != 0 ==>
               Ref(v', i, s) == Ref(v, i, s)
    requires forall j: nat {:trigger SlotOf(j)} :: bn <= j < bn + cnt ==> Ref(v, i, SlotOf(j)) != 0
    ensures MayLog(sb, v', i, bn, cnt + 1, c)
  {
    if c != sb.bmapstart && !(c != 0 && c == Ref(v, i, NDIRECT)) {
      var j: nat :| bn <= j < bn + cnt && Ref(v, i, SlotOf(j)) == c;
      assert Ref(v', i, SlotOf(j)) == c;
    } else {
      assert Ref(v', i, NDIRECT) == Ref(v', i, NDIRECT);
    }
  }

  /** One more block. */
  lemma LogsNext(sb: Super, v: Fs, v': Fs, i: nat, bn: nat, cnt: nat, log: set<nat>, log1: set<nat>, log': set<nat>)
    requires forall s: nat {:trigger Ref(v', i, s)} :: Ref(v, i, s) != 0 ==> Ref(v', i, s) == Ref(v, i, s)
    requires forall j: nat {:trigger SlotOf(j)} :: bn <= j < bn + cnt ==> Ref(v, i, SlotOf(j)) != 0
    requires LogsOnly(sb, v, i, bn, cnt, log, log1) && LogsOnly(sb, v', i, bn + cnt, 1, log1, log')
    ensures LogsOnly(sb, v', i, bn, cnt + 1, log, log')
  {
    if sb.size <= BPB {
      forall c: nat | c in log' ensures c in log || MayLog(sb, v', i, bn, cnt + 1, c) {
        if c in log1 {
          if c !in log { MayLogKept(sb, v, v', i, bn, cnt, c); }
        } else {
          assert MayLog(sb, v', i, bn + cnt, 1, c);
        }
      }
    }
  }

  lemma TouchedOne(sb: Super, v: Fs, i: nat, bn: nat, b: nat, log: set<nat>, log': set<nat>)
    requires b == Ref(v, i, SlotOf(bn)) < sb.size && Ref(v, i, NDIRECT) < sb.size
             && (bn >= NDIRECT ==> Ref(v, i, NDIRECT) != 0)
    requires log' <= log + Touched(sb, v, i, bn) + {b}
    ensures LogsOnly(sb, v, i, bn, 1, log, log')
  {
    if sb.size <= BPB {
      var x := Ref(v, i, NDIRECT);
      assert b / BPB == 0 && x / BPB == 0;
      forall c: nat | c in log' ensures c in log || MayLog(sb, v, i, bn, 1, c) {
        assert Ref(v, i, SlotOf(bn)) == b;
      }
    }
  }

  /** Counting them. */
  lemma {:induction false} InDataBlocks(v: Fs, i: nat, bn: nat, n: nat, j: nat)
    requires bn <= j < bn + n
    ensures Ref(v, i, SlotOf(j)) in DataBlocks(v, i, bn, n)
  {
    if j < bn + n - 1 { InDataBlocks(v, i, bn, n - 1, j); }
  }

  lemma LogCount(sb: Super, v: Fs, i: nat, bn: nat, cnt: nat, log: set<nat>)
    requires sb.size <= BPB && LogsOnly(sb, v, i, bn, cnt, {}, log)
    ensures |log| <= cnt + 2
  {
    var d := DataBlocks(v, i, bn, cnt);
    var all := d + {Ref(v, i, NDIRECT)} + {sb.bmapstart};
    forall c: nat | c in log ensures c in all {
      if c != sb.bmapstart && c != Ref(v, i, NDIRECT) {
        var j: nat :| bn <= j < bn + cnt && Ref(v, i, SlotOf(j)) == c;
        InDataBlocks(v, i, bn, cnt, j);
      }
    }
    SubsetSize(log, all);
    assert |d + {Ref(v, i, NDIRECT)}| <= |d| + 1;
    assert |all| <= |d + {Ref(v, i, NDIRECT)}| + 1;
  }

  // ---------------------------------------------------------------------------------
  // How many blocks a write takes.

  /** The blocks that mapping n blocks of file i from block bn on takes, one after the other. */
  function Need(v: Fs, i: nat, bn: nat, n: nat, ind: bool): nat
    decreases n
  {
    if n == 0 then 0 else Cost(v, i, bn, ind) + Need(v, i, bn + 1, n - 1, ind || bn >= NDIRECT)
  }

  /** Whether file i has an indirect block. */
  predicate HasIndirect(v: Fs, i: nat) { Ref(v, i, NDIRECT) != 0 }

  /** The slots of those n blocks, and that of the indirect block if one of them is beyond the direct
      ones. */
  function Slots(bn: nat, n: nat): (s: set<nat>) {
    if n == 0 then {}
    else Slots(bn, n - 1) + {SlotOf(bn + n - 1)} + if bn + n - 1 >= NDIRECT then {NDIRECT} else {}
  }

  function Missing(v: Fs, i: nat, bn: nat, n: nat): set<nat> {
    set s | s in Slots(bn, n) && Ref(v, i, s) == 0
  }

  lemma {:induction false} SlotsAre(bn: nat, n: nat, s: nat)
    ensures s in Slots(bn, n) <==>
              (s == NDIRECT && n > 0 && bn + n > NDIRECT) || exists j: nat {:trigger SlotOf(j)} ::
                  bn <= j < bn + n && s == SlotOf(j)
  {
    if n > 0 {
      SlotsAre(bn, n - 1, s);
      assert SlotOf(bn + n - 1) == SlotOf(bn + n - 1);
    }
  }

  lemma {:induction false} NeedLast(v: Fs, i: nat, bn: nat, n: nat, ind: bool)
    requires n > 0
    ensures Need(v, i, bn, n, ind) == Need(v, i, bn, n - 1, ind) + Cost(v, i, bn + n - 1, ind
            || (n > 1 && bn + n - 1 > NDIRECT))
    decreases n
  {
    if n > 1 { NeedLast(v, i, bn + 1, n - 1, ind || bn >= NDIRECT); }
  }

  /** What the last block adds to the missing slots. */
  lemma MissingLast(v: Fs, i: nat, bn: nat, n: nat, j: nat, m: set<nat>)
    requires n > 0 && j == bn + n - 1 && m == Missing(v, i, bn, n - 1)
    ensures SlotOf(j) !in m && (NDIRECT in m <==> n > 1 && j > NDIRECT && !HasIndirect(v, i))
    ensures Missing(v, i, bn, n) == m + (if Ref(v, i, SlotOf(j)) == 0 then {SlotOf(j)} else {})
                                      + if j >= NDIRECT && !HasIndirect(v, i) then {NDIRECT} else {}
  {
    SlotsAre(bn, n - 1, SlotOf(j));
    SlotsAre(bn, n - 1, NDIRECT);
    forall j': nat ensures SlotOf(j') != NDIRECT && (SlotOf(j') == SlotOf(j) ==> j' == j) { SlotOfInjective(j', j); }
  }

  lemma AddSizes(m: set<nat>, x: nat, a: bool, y: nat, b: bool)
    requires x !in m && x != y
    ensures |m + (if a then {x} else {}) + if b then {y} else {}|
            == |m| + (if a then 1 else 0) + if b && y !in m then 1 else 0
  {
    var m1 := m + if a then {x} else {};
    assert !a ==> m1 == m;
    var m2 := m1 + if b then {y} else {};
    assert !b || y in m ==> m2 == m1;
  }

  lemma CostIs(v: Fs, i: nat, j: nat, ind: bool)
    requires HasIndirect(v, i) ==> ind
    ensures Cost(v, i, j, ind) == (if Ref(v, i, SlotOf(j)) == 0 then 1 else 0) + if j >= NDIRECT && !ind then 1 else 0
  {}

  lemma MissingMore(v: Fs, i: nat, bn: nat, n: nat, j: nat, ind: bool)
    requires n > 0 && j == bn + n - 1 && (ind <==> HasIndirect(v, i) || (n > 1 && j > NDIRECT))
    ensures |Missing(v, i, bn, n)| == |Missing(v, i, bn, n - 1)| + Cost(v, i, j, ind)
  {
    var m := Missing(v, i, bn, n - 1);
    MissingLast(v, i, bn, n, j, m);
    SlotOfInjective(j, j);
    AddSizes(m, SlotOf(j), Ref(v, i, SlotOf(j)) == 0, NDIRECT, j >= NDIRECT && !HasIndirect(v, i));
    CostIs(v, i, j, ind);
  }

  lemma NoneMissingOfNone(v: Fs, i: nat, bn: nat, ind: bool)
    ensures Need(v, i, bn, 0, ind) == 0 && Missing(v, i, bn, 0) == {}
  {}

  /** What a write takes is a block for each slot of its range that has none. */
  lemma {:induction false} NeedIsMissing(v: Fs, i: nat, bn: nat, n: nat, ind: bool)
    requires ind == HasIndirect(v, i)
    ensures Need(v, i, bn, n, ind) == |Missing(v, i, bn, n)|
  {
    hide Need, Missing, Cost, Slots;
    if n == 0 {
      NoneMissingOfNone(v, i, bn, ind);
    } else {
      NeedIsMissing(v, i, bn, n - 1, ind);
      NeedLast(v, i, bn, n, ind);
      MissingMore(v, i, bn, n, bn + n - 1, ind || (n > 1 && bn + n - 1 > NDIRECT));
    }
  }

  /** From v to v' the slots of n blocks of file i from block bn on have got a block, and no other slot
      of the file has changed. */
  ghost predicate Filled(v: Fs, v': Fs, i: nat, bn: nat, n: nat) {
    forall s: nat {:trigger Ref(v', i, s)} :: if s in Slots(bn, n) then Ref(v', i, s) != 0
        else Ref(v', i, s) == Ref(v, i, s)
  }

  lemma FilledNext(v0: Fs, v: Fs, v': Fs, i: nat, bn: nat, cnt: nat, j: nat)
    requires Filled(v0, v, i, bn, cnt) && Filled(v, v', i, j, 1) && Extends(v, v', i) && j == bn + cnt
    ensures Filled(v0, v', i, bn, cnt + 1)
  {
    assert Slots(j, 1) == {SlotOf(j)} + if j >= NDIRECT then {NDIRECT} else {};
    forall s: nat
      ensures if s in Slots(bn, cnt + 1) then Ref(v', i, s) != 0 else Ref(v', i, s) == Ref(v0, i, s)
    {
      assert Ref(v, i, s) == Ref(v, i, s);
    }
  }

  lemma {:induction false} NeedKept(v: Fs, v': Fs, i: nat, bn: nat, n: nat, ind: bool)
    requires forall j: nat {:trigger SlotOf(j)} :: bn <= j ==> Ref(v', i, SlotOf(j)) == Ref(v, i, SlotOf(j))
    ensures Need(v', i, bn, n, ind) == Need(v, i, bn, n, ind)
    decreases n
  {
    if n > 0 { NeedKept(v, v', i, bn + 1, n - 1, ind || bn >= NDIRECT); }
  }

  // ---------------------------------------------------------------------------------
  // writei.

  /** The bytes from `at` on, in block bn of file i, have been written to block b. */
  ghost predicate BlockWritten(sb: Super, v: Fs, v': Fs, i: nat, at: nat, bn: nat, bytes: seq<Byte>, b: nat,
                               log: set<nat>, log': set<nat>)
  {
    && Wrote(v, v', i, at, bytes) && Extends(v, v', i)
    && 0 < b == Ref(v', i, SlotOf(bn))
    && LogsOnly(sb, v', i, bn, 1, log, log')
    && Filled(v, v', i, bn, 1)
  }

  /** A round of writei: part of the block that holds byte `at`. b is 0 where the kernel panics for
      want of blocks. A copy that fails (!copied) may have changed the block already, which is then not
      logged. */
  method WriteBlock(f: FileSystem, at: nat, bytes: seq<Byte>, copied: bool, ghost bn: nat, ghost n: nat)
    returns (b: nat)
    requires f.Valid() && f.ip.kind != 0 && bn == at / BSIZE < MAXFILE && at % BSIZE + |bytes| <= BSIZE && n > 0
    modifies f`k, f`ip, f`own, f`logged, f`stray
    ensures b == 0 <==> Free(old(f.k.bits)) < Cost(old(f.V()), f.cur, bn, HasIndirect(old(f.V()), f.cur))
    ensures b != 0 ==> f.Valid() && f.ip == old(f.ip).(addrs := f.ip.addrs)
    ensures b != 0 ==> BlockWritten(f.sb, old(f.V()), f.V(), f.cur, at, bn, bytes, b, old(f.logged), f.logged) == true
    ensures b != 0 ==> Paid(Free(old(f.k.bits)), old(f.V()), Free(f.k.bits), f.V(), f.cur, bn, n, 1) == true
    ensures b != 0 ==> f.stray == old(f.stray) + if copied then {} else {b}
  {
    ghost var v, own := f.V(), f.own;
    b := f.Bmap(at / BSIZE);
    if b == 0 { return; }
    ghost var v1, log1 := f.V(), f.logged;
    StoreBytes(f, at, bytes, copied, b, bn);
    BlockDone(f.sb, v, own, v1, f.own, f.V(), f.cur, at, bn, bytes, b, old(f.logged), log1, f.logged);
    PaidOne(Free(old(f.k.bits)), v, Free(f.k.bits), f.V(), f.cur, bn, n);
  }

  /** The bytes from `at` on, in block bn of the file, are stored in block b. */
  method StoreBytes(f: FileSystem, at: nat, bytes: seq<Byte>, copied: bool, b: nat, ghost bn: nat)
    requires f.Valid() && bn == at / BSIZE && at % BSIZE + |bytes| <= BSIZE && 0 < b == Ref(f.V(), f.cur, SlotOf(bn))
    modifies f`k, f`logged, f`stray
    ensures f.stray == old(f.stray) + if copied then {} else {b}
    ensures f.Valid() && f.k.bits == old(f.k.bits) && b < f.sb.size && b < |f.V().blk| == |old(f.V()).blk|
    ensures f.V() == old(f.V()).(blk := old(f.V()).blk[b := Overlay(old(f.V()).blk[b], at % BSIZE, bytes)])
    ensures f.logged <= old(f.logged) + {b}
  {
    ghost var v := f.V();
    OneReference(f.sb, v, f.own, f.cur, SlotOf(bn), f.cur, SlotOf(bn));
    CoversBlock(f.sb, f.base, f.k, f.logged, f.stray, b, Overlay(f.k.blk[b], at % BSIZE, bytes));
    f.k := f.k.(blk := f.k.blk[b := Overlay(f.k.blk[b], at % BSIZE, bytes)]);
    if copied { f.logged := f.logged + {b}; }
    ghost var more := if copied then {} else {b};
    f.stray := f.stray + more;
    WroteBlock(f.sb, v, f.own, f.cur, at, b, bytes, f.V());
  }

  /** cnt of n blocks from block bn on have been mapped, and paid for: v, with `free` blocks unmarked,
      has become v' with free'. */
  ghost predicate Paid(free: nat, v: Fs, free': nat, v': Fs, i: nat, bn: nat, n: nat, cnt: nat) {
    cnt <= n && free' + Need(v, i, bn, n, HasIndirect(v, i)) == free + Need(v', i, bn + cnt, n - cnt,
        HasIndirect(v', i))
  }

  lemma PaidOne(free: nat, v: Fs, free': nat, v': Fs, i: nat, bn: nat, n: nat)
    requires n > 0 && (HasIndirect(v', i) <==> HasIndirect(v, i) || bn >= NDIRECT)
    requires forall j: nat {:trigger SlotOf(j)} :: bn < j ==> Ref(v', i, SlotOf(j)) == Ref(v, i, SlotOf(j))
    requires free' == free - Cost(v, i, bn, HasIndirect(v, i))
    ensures Paid(free, v, free', v', i, bn, n, 1)
  {
    NeedKept(v, v', i, bn + 1, n - 1, HasIndirect(v', i));
  }

  /** From bmap (v to v1) and the change to the block (v1 to v2). */
  lemma BlockDone(sb: Super, v: Fs, own: Owners, v1: Fs, own1: Owners, v2: Fs, i: nat, at: nat, bn: nat,
                  bytes: seq<Byte>, b: nat,
                  log: set<nat>, log1: set<nat>, log2: set<nat>)
    requires Shape(sb, v1) && Owned(sb, v1, own1) && MapsTo(v, own, v1, own1, i, bn, b) && bn == at / BSIZE
             && 0 < b < sb.size
    requires at % BSIZE + |bytes| <= BSIZE && v2 == v1.(blk := v1.blk[b := Overlay(v1.blk[b], at % BSIZE, bytes)])
    requires log1 <= log + Touched(sb, v1, i, bn) && log2 <= log1 + {b} && bn < MAXFILE
    ensures Shape(sb, v2) && Owned(sb, v2, own1) && BlockWritten(sb, v, v2, i, at, bn, bytes, b, log, log2)
    ensures forall j: nat {:trigger SlotOf(j)} :: bn < j ==> Ref(v2, i, SlotOf(j)) == Ref(v, i, SlotOf(j))
    ensures HasIndirect(v2, i) <==> HasIndirect(v, i) || bn >= NDIRECT
  {
    WroteBlock(sb, v1, own1, i, at, b, bytes, v2);
    assert Wrote(v, v, i, at, []) && Extends(v, v, i);
    WroteMore(v, v, own, v1, own1, v2, i, at, [], at, b, bytes);
    assert [] + bytes == bytes;
    assert SlotOk(v1, own1, i, NDIRECT);
    assert Ref(v1, i, NDIRECT) != 0 ==> OwnerOk(sb, v1, own1, Ref(v1, i, NDIRECT));
    assert Ref(v2, i, SlotOf(bn)) == b && Ref(v2, i, NDIRECT) == Ref(v1, i, NDIRECT);
    TouchedOne(sb, v2, i, bn, b, log, log2);
    LaterSlots(v, own, v1, own1, v2, i, bn, b);
  }

  /** bmap of block bn leaves the slots of later blocks alone. */
  lemma LaterSlots(v: Fs, own: Owners, v1: Fs, own1: Owners, v2: Fs, i: nat, bn: nat, b: nat)
    requires MapsTo(v, own, v1, own1, i, bn, b) && SameRefs(v1, v2) && (bn >= NDIRECT ==> Ref(v1, i, NDIRECT) != 0)
    ensures forall j: nat {:trigger SlotOf(j)} :: bn < j ==> Ref(v2, i, SlotOf(j)) == Ref(v, i, SlotOf(j))
    ensures HasIndirect(v2, i) <==> HasIndirect(v, i) || bn >= NDIRECT
    ensures Filled(v, v2, i, bn, 1)
  {
    assert Slots(bn, 1) == {SlotOf(bn)} + if bn >= NDIRECT then {NDIRECT} else {};
    forall s: nat ensures if s in Slots(bn, 1) then Ref(v2, i, s) != 0 else Ref(v2, i, s) == Ref(v, i, s) {
      assert Ref(v2, i, s) == Ref(v1, i, s);
    }
    forall j: nat | bn < j ensures Ref(v2, i, SlotOf(j)) == Ref(v, i, SlotOf(j)) {
      SlotOfInjective(j, bn);
      assert Ref(v2, i, SlotOf(j)) == Ref(v1, i, SlotOf(j));
    }
    SlotOfInjective(bn, bn);
    assert Ref(v2, i, NDIRECT) == Ref(v1, i, NDIRECT);
  }

  lemma ExtendsTrans(v0: Fs, v1: Fs, v2: Fs, i: nat, off: nat, src: seq<Byte>, at: nat, bytes: seq<Byte>)
    requires Wrote(v0, v1, i, off, src) && Extends(v0, v1, i) && at == off + |src|
    requires Wrote(v1, v2, i, at, bytes) && Extends(v1, v2, i)
    ensures Wrote(v0, v2, i, off, src + bytes) && Extends(v0, v2, i)
  {
    forall i': nat, x: nat | x < MAXFILE * BSIZE
      ensures ByteAt(v2, i', x) ==
              if i' == i && off <= x < off + |src + bytes| then (src + bytes)[x - off] else ByteAt(v0, i', x)
    {
      assert ByteAt(v1, i', x) == if i' == i && off <= x < off + |src| then src[x - off] else ByteAt(v0, i', x);
    }
    forall i': nat, s: nat | Ref(v0, i', s) != 0 ensures Ref(v2, i', s) == Ref(v0, i', s) {
      assert Ref(v1, i', s) == Ref(v0, i', s);
    }
  }

  /** The first tot of n bytes from off on lie in the cnt blocks from block first on, and the next byte,
      if there is one, in the block after them. */
  ghost predicate Spans(off: nat, n: nat, first: nat, tot: nat, cnt: nat) {
    && first * BSIZE <= off < (first + 1) * BSIZE && tot <= n && (cnt == 0 || cnt * BSIZE <= n + 2 * BSIZE - 2)
    && (tot == 0 || off + tot <= (first + cnt) * BSIZE)
    && (tot < n ==> if cnt == 0 then tot == 0 else off + tot == (first + cnt) * BSIZE)
  }

  /** A chunk ends with the source or with its block. */
  lemma ChunkEnds(at: nat, left: nat, bn: nat)
    requires bn * BSIZE <= at < (bn + 1) * BSIZE
    ensures at / BSIZE == bn && at % BSIZE == at - bn * BSIZE
    ensures Chunk(at, left) == if at + left <= (bn + 1) * BSIZE then left else (bn + 1) * BSIZE - at
  {
    QuotRem(at, BSIZE, bn, at - bn * BSIZE);
  }

  /** Where writei stands after tot bytes in cnt blocks. */
  ghost predicate Midway(sb: Super, v0: Fs, v: Fs, i: nat, off: nat, src: seq<Byte>, first: nat, cnt: nat,
                         logged0: set<nat>, logged: set<nat>)
  {
    && Wrote(v0, v, i, off, src) && Extends(v0, v, i)
    && (forall j: nat {:trigger SlotOf(j)} :: first <= j < first + cnt ==> Ref(v, i, SlotOf(j)) != 0)
    && Filled(v0, v, i, first, cnt)
    && LogsOnly(sb, v, i, first, cnt, logged0, logged)
  }

  /** A round, whole or not. */
  lemma MidwayNext(sb: Super, v0: Fs, v: Fs, v': Fs, i: nat, off: nat, src: seq<Byte>, first: nat, cnt: nat,
                   at: nat, bytes: seq<Byte>, b: nat, logged0: set<nat>, logged: set<nat>, logged': set<nat>)
    requires Midway(sb, v0, v, i, off, src, first, cnt, logged0, logged) && at == off + |src|
    requires Wrote(v, v', i, at, bytes) && Extends(v, v', i)
    requires 0 < b == Ref(v', i, SlotOf(first + cnt)) && LogsOnly(sb, v', i, first + cnt, 1, logged, logged')
    requires Filled(v, v', i, first + cnt, 1)
    ensures Midway(sb, v0, v', i, off, src + bytes, first, cnt + 1, logged0, logged')
  {
    ExtendsTrans(v0, v, v', i, off, src, at, bytes);
    LogsNext(sb, v, v', i, first, cnt, logged0, logged, logged');
    FilledNext(v0, v, v', i, first, cnt, first + cnt);
    forall j: nat | first <= j < first + cnt + 1 ensures Ref(v', i, SlotOf(j)) != 0 {
      if j < first + cnt { assert Ref(v, i, SlotOf(j)) != 0; }
    }
  }

  /** The end of writei: the size, and iupdate. */
  method Finish(f: FileSystem, end: nat)
    requires f.Valid()
    modifies f`k, f`ip, f`logged
    ensures f.Valid() && f.k == f.V()
            && f.ip == old(f.ip).(size := if end > old(f.ip.size) then end else old(f.ip.size))
    ensures SameRefs(old(f.V()), f.V()) && SameBytes(old(f.V()), f.V()) && f.k.bits == old(f.k.bits)
    ensures f.V().ino == old(f.V()).ino[f.cur := f.ip] && f.logged == old(f.logged) + {IBlock(f.sb, f.cur)}
  {
    ghost var v := f.V();
    if end > f.ip.size { f.ip := f.ip.(size := end); }
    SameAddrs(f.sb, v, f.V(), f.own);
    f.Iupdate();
  }

  /** A file that had no holes has none after a write that begins within it. */
  lemma StaysDense(v0: Fs, v: Fs, v': Fs, i: nat, off: nat, first: nat, tot: nat, cnt: nat)
    requires Dense(v0, i) && off <= v0.ino[i].size && Extends(v0, v, i) && SameRefs(v, v') && first == off / BSIZE
    requires (tot == 0 || off + tot <= (first + cnt) * BSIZE) && off + tot <= MAXFILE * BSIZE && i < |v'.ino|
    requires forall j: nat {:trigger SlotOf(j)} :: first <= j < first + cnt ==> Ref(v, i, SlotOf(j)) != 0
    requires v'.ino[i].size == if tot > 0 && off + tot > v0.ino[i].size then off + tot else v0.ino[i].size
    ensures Dense(v', i)
  {
    forall bn: nat | bn * BSIZE < v'.ino[i].size ensures Ref(v', i, SlotOf(bn)) != 0 {
      assert Ref(v', i, SlotOf(bn)) == Ref(v, i, SlotOf(bn));
      if bn * BSIZE < v0.ino[i].size {
        assert Ref(v0, i, SlotOf(bn)) != 0;
      } else {
        assert first <= bn < first + cnt;
      }
    }
  }

  /** The source of a write: copying from it works for the first `good` bytes; where it fails, `part`
      bytes of the chunk may have been copied before. */
  datatype Source = Source(bytes: seq<Byte>, good: nat, part: nat)

  /** What a chunk brings, and whether the copy worked. */
  function Fetch(src: Source, t: nat, m: nat): (r: (seq<Byte>, bool))
    requires t + m <= |src.bytes|
    ensures |r.0| <= m && r.0 == src.bytes[t..t + |r.0|] && (r.1 ==> |r.0| == m) && (r.1 <==> t + m <= src.good)
  {
    if t + m <= src.good then (src.bytes[t..t + m], true)
    else (src.bytes[t..t + if src.part < m then src.part else m], false)
  }

  /** How far a write got: tot bytes and logged, done bytes in the blocks, cnt blocks. */
  datatype Progress = Progress(tot: nat, done: nat, cnt: nat)

  /** What writei has done to the file system when it returns: the bytes that came are in the file, the
      slots of the blocks it went through are filled and no others, and the size is what it should be. */
  ghost predicate WriteDone(sb: Super, v: Fs, v': Fs, i: nat, off: nat, src: Source, first: nat, n: nat, p: Progress,
                            log: set<nat>, log': set<nat>)
  {
    && p.tot <= p.done <= |src.bytes| && Ends(off, src, first, n, p)
    && Wrote(v, v', i, off, src.bytes[..p.done]) && Filled(v, v', i, first, p.cnt)
    && i < |v.ino| && i < |v'.ino|
    && v'.ino == v.ino[i := v.ino[i].(addrs := v'.ino[i].addrs, size := SizeAfter(v.ino[i].size, off, p.tot))]
    && (Dense(v, i) ==> Dense(v', i))
    && (p.cnt == 0 || p.cnt * BSIZE <= |src.bytes| + 2 * BSIZE - 2)
    && LogsOnly(sb, v', i, first, p.cnt, log + {IBlock(sb, i)}, log')
  }

  /** The size of a file once tot bytes have been written at off. */
  function SizeAfter(size: nat, off: nat, tot: nat): nat {
    if tot > 0 && off + tot > size then off + tot else size
  }

  /** Where the loop of writei stands: p.tot bytes, p.done of them in the blocks, and which. */
  ghost predicate Stands(sb: Super, v0: Fs, v: Fs, i: nat, off: nat, src: Source, first: nat, p: Progress,
                         log: set<nat>, log': set<nat>)
  {
    && p.tot <= p.done <= |src.bytes| && (p.done == p.tot || src.good < |src.bytes|)
    && (p.tot == 0 || off + p.tot <= (first + p.cnt) * BSIZE)
    && (p.cnt == 0 || p.cnt * BSIZE <= |src.bytes| + 2 * BSIZE - 2)
    && Midway(sb, v0, v, i, off, src.bytes[..p.done], first, p.cnt, log, log')
  }

  lemma StandsNext(sb: Super, v0: Fs, v: Fs, v': Fs, i: nat, off: nat, src: Source, p: Progress, first: nat, at: nat,
                   m: nat, got: nat, bn: nat, b: nat, log: set<nat>, log1: set<nat>, log': set<nat>)
    requires Stands(sb, v0, v, i, off, src, first, p, log, log1) == true
    requires p.tot == p.done && got <= m && p.tot + m <= |src.bytes|
    requires (p.cnt + 1) * BSIZE <= |src.bytes| + 2 * BSIZE - 2 && off + p.tot + m <= (first + p.cnt + 1) * BSIZE
    requires (p.tot + m <= src.good ==> got == m) && at == off + p.tot
    requires BlockWritten(sb, v, v', i, at, bn, src.bytes[p.tot..p.tot + got], b, log1, log') == true
             && bn == first + p.cnt
    ensures Stands(sb, v0, v', i, off, src, first, Advance(src, p, m, got), log, log') && b == Ref(v', i, SlotOf(bn))
  {
    hide Wrote, Extends, Filled, LogsOnly;
    var bytes := src.bytes[p.tot..p.tot + got];
    MidwayNext(sb, v0, v, v', i, off, src.bytes[..p.tot], first, p.cnt, at, bytes, b, log, log1, log');
    assert src.bytes[..p.tot] + bytes == src.bytes[..p.tot + got];
  }

  /** The progress after a chunk of m bytes of which got have come. */
  function Advance(src: Source, p: Progress, m: nat, got: nat): Progress {
    Progress(if p.tot + m <= src.good then p.tot + m else p.tot, p.tot + got, p.cnt + 1)
  }

  /** The work of a round of writei: m bytes from byte t of the source on, to block bn of the file, which is the
      first of n blocks. */
  method WritePart(f: FileSystem, off: nat, src: Source, t: nat, m: nat, ghost first: nat, ghost p: Progress,
                    ghost v0: Fs, ghost log: set<nat>, ghost bn: nat, ghost n: nat)
    returns (halted: bool, copied: bool, ghost p': Progress)
    requires f.Valid() && f.ip.kind != 0 && t + m <= |src.bytes| && p == Progress(t, t, p.cnt)
    requires (off + t) / BSIZE == bn == first + p.cnt < MAXFILE && (off + t) % BSIZE + m <= BSIZE && n > 0
    requires (p.cnt + 1) * BSIZE <= |src.bytes| + 2 * BSIZE - 2 && off + t + m <= (first + p.cnt + 1) * BSIZE
    requires Stands(f.sb, v0, f.V(), f.cur, off, src, first, p, log, f.logged) == true
    modifies f`k, f`ip, f`own, f`logged, f`stray
    ensures halted <==> Free(old(f.k.bits)) < Cost(old(f.V()), f.cur, bn, HasIndirect(old(f.V()), f.cur))
    ensures !halted ==> f.Valid() && f.ip == old(f.ip).(addrs := f.ip.addrs)
    ensures !halted ==> Stands(f.sb, v0, f.V(), f.cur, off, src, first, p', log, f.logged) == true
    ensures !halted ==> Paid(Free(old(f.k.bits)), old(f.V()), Free(f.k.bits), f.V(), f.cur, bn, n, 1) == true
    ensures (copied <==> t + m <= src.good) && p' == Advance(src, p, m, |Fetch(src, t, m).0|)
    ensures !halted ==> f.stray == old(f.stray) + if copied then {} else {Ref(f.V(), f.cur, SlotOf(bn))}
  {
    hide Stands, Paid, Need, BlockWritten;
    var x := Fetch(src, t, m);
    copied := x.1;
    p' := Advance(src, p, m, |x.0|);
    ghost var v, log1 := f.V(), f.logged;
    var b := WriteBlock(f, off + t, x.0, copied, bn, n);
    halted := b == 0;
    if halted { return; }
    StandsNext(f.sb, v0, v, f.V(), f.cur, off, src, p, first, off + t, m, |x.0|, bn, b, log, log1, f.logged);
  }

  /** The blocks writei maps, if it is not short of any: those of the range, up to the one where copying
      from the source fails. */
  function Attempted(off: nat, src: Source): nat {
    if src.bytes == [] then 0
    else (off + if src.good < |src.bytes| then src.good else |src.bytes| - 1) / BSIZE - off / BSIZE + 1
  }

  /** The last of n blocks from block first on has the last byte that writei tries to copy. */
  ghost predicate Reaches(off: nat, src: Source, first: nat, n: nat) {
    if src.bytes == [] then n == 0
    else
      var x := off + if src.good < |src.bytes| then src.good else |src.bytes| - 1;
      n > 0 && (first + n - 1) * BSIZE <= x < (first + n) * BSIZE
  }

  /** How far writei gets, if it does not halt: to the end, or to the chunk whose copy fails. */
  ghost predicate Ends(off: nat, src: Source, first: nat, n: nat, p: Progress) {
    && p.cnt == n && p.tot <= |src.bytes|
    && if src.good >= |src.bytes| then p.tot == p.done == |src.bytes|
       else
         && p.tot == (if n == 1 then 0 else (first + n - 1) * BSIZE - off)
         && var m := Chunk(off + p.tot, |src.bytes| - p.tot);
            p.done == p.tot + if src.part < m then src.part else m
  }

  lemma RoundFits(off: nat, src: Source, first: nat, t: nat, cnt: nat, m: nat, n: nat)
    requires Spans(off, |src.bytes|, first, t, cnt) && t < |src.bytes| && (t == 0 || t <= src.good)
    requires m == Chunk(off + t, |src.bytes| - t) && Reaches(off, src, first, n)
    ensures (off + t) / BSIZE == first + cnt && (off + t) % BSIZE + m <= BSIZE && cnt < n
    ensures Spans(off, |src.bytes|, first, t + m, cnt + 1) && t + m <= |src.bytes|
    ensures t + m == |src.bytes| || t + m > src.good ==> cnt + 1 == n
  {
    ChunkEnds(off + t, |src.bytes| - t, first + cnt);
  }

  /** Where a round halts for want of blocks. */
  lemma ShortFall(f0: nat, v0: Fs, free: nat, v: Fs, i: nat, first: nat, n: nat, cnt: nat, bn: nat)
    requires Paid(f0, v0, free, v, i, first, n, cnt) == true && cnt < n && bn == first + cnt
    requires free < Cost(v, i, bn, HasIndirect(v, i))
    ensures f0 < Need(v0, i, first, n, HasIndirect(v0, i))
  {}

  lemma PaidAll(f0: nat, v0: Fs, free: nat, v: Fs, i: nat, first: nat, n: nat)
    requires Paid(f0, v0, free, v, i, first, n, n) == true
    ensures free == f0 - Need(v0, i, first, n, HasIndirect(v0, i))
  {}

  /** What holds at the head of each round: t bytes are written, in p.cnt of n blocks. */
  ghost predicate Underway(v0: Fs, free0: nat, v: Fs, free: nat, i: nat, off: nat, src: Source, first: nat, n: nat,
                           t: nat, p: Progress)
  {
    && t <= |src.bytes| && (t == 0 || t <= src.good) && (t == |src.bytes| ==> p.cnt == n)
    && p == Progress(t, t, p.cnt)
    && Spans(off, |src.bytes|, first, t, p.cnt) == true
    && Paid(free0, v0, free, v, i, first, n, p.cnt) == true
  }

  /** The chunk whose copy fails is the last. */
  lemma LastPart(off: nat, src: Source, first: nat, t: nat, p: Progress, m: nat, n: nat, p': Progress)
    requires Spans(off, |src.bytes|, first, t, p.cnt) && t < |src.bytes| && p == Progress(t, t, p.cnt)
    requires m == Chunk(off + t, |src.bytes| - t) && p.cnt + 1 == n && t + m > src.good
    requires p' == Advance(src, p, m, |Fetch(src, t, m).0|)
    ensures Ends(off, src, first, n, p')
  {
  }

  lemma UnderwayNext(v0: Fs, free0: nat, v: Fs, free: nat, v': Fs, free': nat, i: nat, off: nat, src: Source,
                     first: nat, n: nat, t: nat, p: Progress, m: nat, bn: nat, rest: nat, p': Progress)
    requires Underway(v0, free0, v, free, i, off, src, first, n, t, p) == true && t < |src.bytes|
    requires m == Chunk(off + t, |src.bytes| - t) && Reaches(off, src, first, n) && p.cnt < n
    requires Paid(free, v, free', v', i, bn, rest, 1) == true && bn == first + p.cnt && rest == n - p.cnt
    requires p' == Advance(src, p, m, |Fetch(src, t, m).0|)
    ensures t + m <= src.good ==> Underway(v0, free0, v', free', i, off, src, first, n, t + m, p') == true
    ensures t + m > src.good ==> free' == free0 - Need(v0, i, first, n, HasIndirect(v0, i))
    ensures t + m > src.good ==> Ends(off, src, first, n, p') == true && p'.tot == t && bn == first + n - 1
  {
    hide Spans, Ends, Cost;
    RoundFits(off, src, first, t, p.cnt, m, n);
    if t + m > src.good { LastPart(off, src, first, t, p, m, n, p'); }
    assert Paid(free0, v0, free', v', i, first, n, p.cnt + 1);
  }

  /** One round of writei. */
  method WriteRound(f: FileSystem, off: nat, src: Source, t: nat, ghost first: nat, ghost n: nat, ghost p: Progress,
                    ghost v0: Fs, ghost free0: nat, ghost log: set<nat>)
    returns (halted: bool, copied: bool, m: nat, ghost p': Progress)
    requires f.Valid() && f.ip.kind != 0 && off + |src.bytes| <= MAXFILE * BSIZE && t < |src.bytes|
    requires Reaches(off, src, first, n)
    requires Underway(v0, free0, f.V(), Free(f.k.bits), f.cur, off, src, first, n, t, p) == true
    requires Stands(f.sb, v0, f.V(), f.cur, off, src, first, p, log, f.logged) == true
    modifies f`k, f`ip, f`own, f`logged, f`stray
    ensures halted ==> free0 < Need(v0, f.cur, first, n, HasIndirect(v0, f.cur))
    ensures !halted ==> f.Valid() && f.ip == old(f.ip).(addrs := f.ip.addrs) && m > 0
    ensures !halted ==> Stands(f.sb, v0, f.V(), f.cur, off, src, first, p', log, f.logged) == true
    ensures !halted && copied ==>
              Underway(v0, free0, f.V(), Free(f.k.bits), f.cur, off, src, first, n, t + m, p') == true
    ensures !halted && !copied ==>
              src.good < |src.bytes| && Free(f.k.bits) == free0 - Need(v0, f.cur, first, n, HasIndirect(v0, f.cur))
    ensures !halted && !copied ==> p'.tot == t && Ends(off, src, first, n, p') == true
    ensures !halted ==> f.stray == old(f.stray) + if copied then {} else {Ref(f.V(), f.cur, SlotOf(first + n - 1))}
  {
    hide Stands, Paid, Ends, Need, Missing, Files.Good;
    m := Chunk(off + t, |src.bytes| - t);
    RoundFits(off, src, first, t, p.cnt, m, n);
    ghost var free, v, bn, rest := Free(f.k.bits), f.V(), first + p.cnt, n - p.cnt;
    halted, copied, p' := WritePart(f, off, src, t, m, first, p, v0, log, bn, rest);
    if halted {
      ShortFall(free0, v0, free, v, f.cur, first, n, p.cnt, bn);
      return;
    }
    UnderwayNext(v0, free0, v, free, f.V(), Free(f.k.bits), f.cur, off, src, first, n, t, p, m, bn, rest, p');
  }

  /** writei's loop. */
  method WriteLoop(f: FileSystem, off: nat, src: Source, ghost first: nat, ghost n: nat)
    returns (halted: bool, t: nat, ghost p: Progress)
    requires f.Valid() && f.ip.kind != 0 && off + |src.bytes| <= MAXFILE * BSIZE
    requires first * BSIZE <= off < (first + 1) * BSIZE && Reaches(off, src, first, n)
    modifies f`k, f`ip, f`own, f`logged, f`stray
    ensures halted <==> Free(old(f.k.bits)) < Need(old(f.V()), f.cur, first, n, HasIndirect(old(f.V()), f.cur))
    ensures !halted ==> f.Valid() && f.ip == old(f.ip).(addrs := f.ip.addrs)
    ensures !halted ==> t == p.tot && Ends(off, src, first, n, p) == true
    ensures !halted ==>
              Free(f.k.bits) == Free(old(f.k.bits)) - Need(old(f.V()), f.cur, first, n, HasIndirect(old(f.V()), f.cur))
    ensures !halted && src.good >= |src.bytes| ==> f.stray == old(f.stray)
    ensures !halted && src.good < |src.bytes| ==> f.stray == old(f.stray) + {Ref(f.V(), f.cur, SlotOf(first + n - 1))}
    ensures !halted ==> Stands(f.sb, old(f.V()), f.V(), f.cur, off, src, first, p, old(f.logged), f.logged) == true
  {
    hide Stands, Need;
    ghost var v0, free0, log := f.V(), Free(f.k.bits), f.logged;
    halted, t, p := false, 0, Progress(0, 0, 0);
    StandsStart(f.sb, v0, f.cur, off, src, first, log);
    while t < |src.bytes|
      invariant !halted && f.stray == old(f.stray) && f.Valid() && f.ip == old(f.ip).(addrs := f.ip.addrs)
      invariant Stands(f.sb, v0, f.V(), f.cur, off, src, first, p, log, f.logged) == true
      invariant Underway(v0, free0, f.V(), Free(f.k.bits), f.cur, off, src, first, n, t, p) == true
    {
      var copied, m;
      halted, copied, m, p := WriteRound(f, off, src, t, first, n, p, v0, free0, log);
      if halted || !copied { return; }
      t := t + m;
    }
    PaidAll(free0, v0, Free(f.k.bits), f.V(), f.cur, first, n);
  }

  lemma StandsStart(sb: Super, v: Fs, i: nat, off: nat, src: Source, first: nat, log: set<nat>)
    requires i < |v.ino| && first * BSIZE <= off < (first + 1) * BSIZE
    ensures Stands(sb, v, v, i, off, src, first, Progress(0, 0, 0), log, log) && Spans(off, |src.bytes|, first, 0, 0)
  {
    assert src.bytes[..0] == [];
  }

  /** The end of writei, from its loop on. */
  method Conclude(f: FileSystem, off: nat, src: Source, t: nat, ghost first: nat, ghost n: nat, ghost p: Progress,
                  ghost v0: Fs, ghost log: set<nat>)
    requires f.Valid() && f.cur < |v0.ino| && off <= v0.ino[f.cur].size && off + |src.bytes| <= MAXFILE * BSIZE
    requires t == p.tot && Ends(off, src, first, n, p) == true && first == off / BSIZE
    requires Stands(f.sb, v0, f.V(), f.cur, off, src, first, p, log, f.logged) == true
    modifies f`k, f`ip, f`logged
    ensures f.Valid() && f.ip.kind == old(f.ip.kind) && (|src.bytes| > 0 ==> f.k == f.V())
    ensures SameRefs(old(f.V()), f.V()) && f.k.bits == old(f.k.bits)
    ensures WriteDone(f.sb, v0, f.V(), f.cur, off, src, first, n, p, log, f.logged) == true
  {
    hide Stands, Ends, WriteDone;
    ghost var v, log1 := f.V(), f.logged;
    if |src.bytes| > 0 { Finish(f, off + t); }
    Concluded(f.sb, v0, v, f.V(), f.cur, off, src, first, n, p, log, log1, f.logged);
  }

  /** From the loop (v0 to v) and the update of the inode (v to v'). */
  lemma Concluded(sb: Super, v0: Fs, v: Fs, v': Fs, i: nat, off: nat, src: Source, first: nat, n: nat, p: Progress,
                  log: set<nat>, log1: set<nat>, log': set<nat>)
    requires i < |v0.ino| && i < |v.ino| && off <= v0.ino[i].size && off + |src.bytes| <= MAXFILE * BSIZE
    requires Ends(off, src, first, n, p) && first == off / BSIZE && Stands(sb, v0, v, i, off, src, first, p, log, log1)
    requires SameRefs(v, v') && SameBytes(v, v') && log' <= log1 + {IBlock(sb, i)}
    requires if src.bytes == [] then v' == v
             else v'.ino == v.ino[i := v.ino[i].(size := if off + p.tot > v.ino[i].size then off + p.tot
                 else v.ino[i].size)]
    ensures WriteDone(sb, v0, v', i, off, src, first, n, p, log, log')
  {
    hide Ends, Filled, LogsOnly, Dense;
    SameWrote(v0, v, v', i, off, src.bytes[..p.done]);
    FilledSame(v0, v, v', i, first, p.cnt);
    if Dense(v0, i) { StaysDense(v0, v, v', i, off, first, p.tot, p.cnt); }
    SameLogs(sb, v, v', i, first, p.cnt, log, log1, IBlock(sb, i), log');
  }

  lemma SameWrote(v0: Fs, v: Fs, v': Fs, i: nat, off: nat, bytes: seq<Byte>)
    requires Wrote(v0, v, i, off, bytes) && SameBytes(v, v')
    ensures Wrote(v0, v', i, off, bytes)
  {
    forall i': nat, x: nat | x < MAXFILE * BSIZE
      ensures ByteAt(v', i', x) == if i' == i && off <= x < off + |bytes| then bytes[x - off] else ByteAt(v0, i', x)
    {
      assert ByteAt(v', i', x) == ByteAt(v, i', x);
    }
  }

  lemma FilledSame(v0: Fs, v: Fs, v': Fs, i: nat, bn: nat, n: nat)
    requires Filled(v0, v, i, bn, n) && SameRefs(v, v')
    ensures Filled(v0, v', i, bn, n)
  {
    forall s: nat ensures if s in Slots(bn, n) then Ref(v', i, s) != 0 else Ref(v', i, s) == Ref(v0, i, s) {
      assert Ref(v', i, s) == Ref(v, i, s);
    }
  }

  lemma SameLogs(sb: Super, v: Fs, v': Fs, i: nat, bn: nat, cnt: nat, log: set<nat>, log1: set<nat>, ib: nat,
                 log': set<nat>)
    requires SameRefs(v, v') && LogsOnly(sb, v, i, bn, cnt, log, log1) && log' <= log1 + {ib}
    ensures LogsOnly(sb, v', i, bn, cnt, log + {ib}, log')
  {
    if sb.size <= BPB {
      forall c: nat | c in log' ensures c in log + {ib} || MayLog(sb, v', i, bn, cnt, c) {
        if c !in log && c != ib {
          assert MayLog(sb, v, i, bn, cnt, c);
          if c != sb.bmapstart && !(c != 0 && c == Ref(v, i, NDIRECT)) {
            var j: nat :| bn <= j < bn + cnt && Ref(v, i, SlotOf(j)) == c;
            assert Ref(v', i, SlotOf(j)) == c;
          } else {
            assert Ref(v', i, NDIRECT) == Ref(v, i, NDIRECT);
          }
        }
      }
    }
  }

  /** The block whose copy failed, the last of n from block first on. */
  function Unlogged(v: Fs, i: nat, src: Source, first: nat, n: nat): set<nat> {
    if src.good >= |src.bytes| || first + n == 0 then {} else {Ref(v, i, SlotOf(first + n - 1))}
  }

  lemma AttemptedReaches(off: nat, src: Source)
    ensures Reaches(off, src, off / BSIZE, Attempted(off, src))
    ensures off / BSIZE * BSIZE <= off < (off / BSIZE + 1) * BSIZE
  {}

  /** writei, once it has found that the range is in order: n blocks from block first on. */
  method WriteRange(f: FileSystem, off: nat, src: Source, ghost first: nat, ghost n: nat)
    returns (halted: bool, ghost p: Progress)
    requires f.Valid() && f.ip.kind != 0 && off <= f.ip.size && off + |src.bytes| <= MAXFILE * BSIZE
    requires first == off / BSIZE && n == Attempted(off, src)
    modifies f`k, f`ip, f`own, f`logged, f`stray
    ensures halted <==> Free(old(f.k.bits)) < |Missing(old(f.V()), f.cur, first, n)|
    ensures !halted ==> f.Valid() && f.ip.kind == old(f.ip.kind) && (|src.bytes| > 0 ==> f.k == f.V())
    ensures !halted ==>
              WriteDone(f.sb, old(f.V()), f.V(), f.cur, off, src, first, n, p, old(f.logged), f.logged) == true
    ensures !halted ==> f.stray == old(f.stray) + Unlogged(f.V(), f.cur, src, first, n)
    ensures !halted ==> Free(f.k.bits) == Free(old(f.k.bits)) - |Missing(old(f.V()), f.cur, first, n)|
  {
    hide Stands, Ends, Need, Missing, WriteDone, Attempted;
    ghost var v0, log := f.V(), f.logged;
    var t;
    NeedIsMissing(v0, f.cur, first, n, HasIndirect(v0, f.cur));
    AttemptedReaches(off, src);
    halted, t, p := WriteLoop(f, off, src, first, n);
    if halted { return; }
    Conclude(f, off, src, t, first, n, p, v0, log);
  }

  /** writei. It returns the length asked for even if copying from the source failed part way; the block
      that failed has then been changed and not logged. halted: the kernel has panicked for want of
      blocks, exactly when fewer are unmarked than there are slots to fill. */
  method Writei(f: FileSystem, off: nat, src: Source) returns (r: int, halted: bool, ghost p: Progress)
    requires f.Valid() && f.ip.kind != 0 && off < UINT && |src.bytes| < UINT
    modifies f`k, f`ip, f`own, f`logged, f`stray
    ensures r == -1 <==> off > old(f.ip.size) || off + |src.bytes| >= UINT || off + |src.bytes| > MAXFILE * BSIZE
    ensures r == -1 ==> !halted && f.k == old(f.k) && f.ip == old(f.ip) && f.own == old(f.own)
                        && f.logged == old(f.logged) && f.stray == old(f.stray)
    ensures r != -1 ==> r == |src.bytes|
    ensures !halted ==> f.Valid() && f.ip.kind == old(f.ip.kind)
    ensures var first, n := off / BSIZE, Attempted(off, src);
            r != -1 ==>
              && (halted <==> Free(old(f.k.bits)) < |Missing(old(f.V()), f.cur, first, n)|)
              && (!halted ==>
                  WriteDone(f.sb, old(f.V()), f.V(), f.cur, off, src, first, n, p, old(f.logged), f.logged) == true)
              && (!halted ==> f.stray == old(f.stray) + Unlogged(f.V(), f.cur, src, first, n))
              && (!halted ==> Free(f.k.bits) == Free(old(f.k.bits)) - |Missing(old(f.V()), f.cur, first, n)|)
              && (!halted && |src.bytes| > 0 ==> f.k == f.V())
  {
    halted, p := false, Progress(0, 0, 0);
    var n := |src.bytes|;
    if off > f.ip.size || off + n >= UINT || off + n > MAXFILE * BSIZE { return -1, false, p; }
    r := n;
    halted, p := WriteRange(f, off, src, off / BSIZE, Attempted(off, src));
  }

  /** What was written is what is then read: writei of a source that does not fail, in a file without
      holes, and readi of the same range. */
  method WriteThenRead(f: FileSystem, off: nat, src: Source) returns (data: seq<Byte>, halted: bool)
    requires f.Valid() && f.ip.kind != 0 && Dense(f.V(), f.cur) && src.good >= |src.bytes|
    requires off <= f.ip.size && off + |src.bytes| <= MAXFILE * BSIZE
    modifies f`k, f`ip, f`own, f`logged, f`stray
    ensures halted <==> Free(old(f.k.bits)) < |Missing(old(f.V()), f.cur, off / BSIZE, Attempted(off, src))|
    ensures !halted ==> f.Valid() && data == src.bytes
  {
    hide Missing, Attempted;
    ghost var v := f.V();
    data := [];
    var r;
    ghost var p;
    r, halted, p := Writei(f, off, src);
    if halted { return; }
    assert src.bytes[..p.done] == src.bytes;
    data := Readi(f, off, |src.bytes|, |src.bytes|);
    ReadBack(v, f.V(), f.cur, off, src.bytes);
  }

  /** After a write that did not fail, a read of the same range brings back what was written. */
  lemma ReadBack(v: Fs, v': Fs, i: nat, off: nat, src: seq<Byte>)
    requires Wrote(v, v', i, off, src) && off + |src| <= MAXFILE * BSIZE
    ensures Bytes(v', i, off, |src|) == src
  {
    var s := Bytes(v', i, off, |src|);
    forall j | 0 <= j < |src| ensures s[j] == src[j] { assert s[j] == ByteAt(v', i, off + j); }
  }
}
