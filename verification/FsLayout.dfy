/** How the file system lies on its disk (kernel/fs.h, kernel/fs.c): the free-block bitmap, the words
    of an indirect block, inodes, and who owns each block. */
module FsLayout {
  import opened Common

  const BSIZE: nat := 1024
  const NDIRECT: nat := 12
  const NINDIRECT: nat := 256
  const MAXFILE: nat := 268
  const BPB: nat := 8192                  // bitmap bits per block
  const IPB: nat := 16                    // inodes per block

  type Block = seq<Byte>

  function Zeroes(): (b: Block)
    ensures |b| == BSIZE && forall i :: 0 <= i < BSIZE ==> b[i] == 0
  {
    seq(BSIZE, _ => 0)
  }

  // ---------------------------------------------------------------------------------
  // The bitmap: bit b says whether block b is in use.

  /** How many blocks are not marked. */
  function Free(bits: seq<bool>): nat {
    if bits == [] then 0 else Free(bits[..|bits| - 1]) + if bits[|bits| - 1] then 0 else 1
  }

  lemma {:induction false} FreeUpdate(bits: seq<bool>, b: nat, x: bool)
    requires b < |bits| && bits[b] != x
    ensures Free(bits[b := x]) == if x then Free(bits) - 1 else Free(bits) + 1
  {
    var n := |bits| - 1;
    if b < n {
      FreeUpdate(bits[..n], b, x);
      assert bits[b := x][..n] == bits[..n][b := x];
    } else {
      assert bits[b := x][..n] == bits[..n];
    }
  }

  lemma {:induction false} NoneFree(bits: seq<bool>)
    ensures Free(bits) == 0 <==> forall b :: 0 <= b < |bits| ==> bits[b]
  {
    if bits != [] {
      var t := bits[..|bits| - 1];
      NoneFree(t);
      assert (forall b :: 0 <= b < |bits| ==> bits[b]) <==> (forall b :: 0 <= b < |t| ==> t[b]) && bits[|bits| - 1];
    }
  }

  // ---------------------------------------------------------------------------------
  // The words of an indirect block: (uint *)bp->data.

  function GetWord(b: Block, j: nat): nat
    requires 4 * j + 4 <= |b|
  {
    (b[4 * j] as int) + 256 * (b[4 * j + 1] as int) + 65536 * (b[4 * j + 2] as int) + 16777216 * (b[4 * j + 3] as int)
  }

  function PutWord(b: Block, j: nat, w: nat): (r: Block)
    requires 4 * j + 4 <= |b| && w < 0x1_0000_0000
    ensures |r| == |b|
  {
    b[4 * j := w % 256][4 * j + 1 := w / 256 % 256][4 * j + 2 := w / 65536 % 256][4 * j + 3 := w / 16777216]
  }

  lemma WordBytes(w: nat)
    requires w < 0x1_0000_0000
    ensures w == w % 256 + 256 * (w / 256 % 256) + 65536 * (w / 65536 % 256) + 16777216 * (w / 16777216)
    ensures w / 16777216 < 256
  {
    assert w / 256 / 256 == w / 65536 && w / 65536 / 256 == w / 16777216;
  }

  /** A word reads back as it was written, and the others as before. */
  lemma PutGet(b: Block, j: nat, w: nat, k: nat)
    requires 4 * j + 4 <= |b| && 4 * k + 4 <= |b| && w < 0x1_0000_0000
    ensures GetWord(PutWord(b, j, w), k) == if k == j then w else GetWord(b, k)
  {
    WordBytes(w);
  }

  lemma ZeroWords(j: nat)
    requires j < NINDIRECT
    ensures GetWord(Zeroes(), j) == 0
  {
  }

  // ---------------------------------------------------------------------------------
  // Inodes and the blocks they refer to.

  /** struct dinode: addrs holds NDIRECT direct block numbers and that of the indirect block. */
  datatype Inode = Inode(kind: nat, nlink: nat, size: nat, addrs: seq<nat>)

  const NOADDRS: seq<nat> := [0, 0, 0, 0, 0, 0, 0, 0, 0, 0, 0, 0, 0]

  /** The superblock's numbers; data blocks are those from `data` on. */
  datatype Super = Super(size: nat, data: nat, ninodes: nat, inodestart: nat, bmapstart: nat) {
    predicate Valid() { 0 < data <= size < 0x1_0000_0000 }
  }

  /** The file system as the code sees it through the buffer and inode caches. */
  datatype Fs = Fs(bits: seq<bool>, blk: seq<Block>, ino: seq<Inode>)

  ghost predicate Shape(sb: Super, v: Fs) {
    && sb.Valid() && |v.bits| == |v.blk| == sb.size && |v.ino| == sb.ninodes
    && (forall b :: 0 <= b < |v.blk| ==> |v.blk[b]| == BSIZE)
    && (forall i :: 0 <= i < |v.ino| ==> |v.ino[i].addrs| == NDIRECT + 1)
  }

  const SLOTS: nat := NDIRECT + 1 + NINDIRECT

  /** The block number in slot s of inode i: the direct blocks, the indirect block, its entries. 0 is
      none. */
  function Ref(v: Fs, i: nat, s: nat): nat {
    if i >= |v.ino| || |v.ino[i].addrs| != NDIRECT + 1 || s >= SLOTS then 0
    else if s <= NDIRECT then v.ino[i].addrs[s]
    else
      var x := v.ino[i].addrs[NDIRECT];
      if x == 0 || x >= |v.blk| || |v.blk[x]| != BSIZE then 0 else GetWord(v.blk[x], s - NDIRECT - 1)
  }

  /** The slot for block bn of a file. */
  function SlotOf(bn: nat): nat { if bn < NDIRECT then bn else bn + 1 }

  /** Blocks 0 to 11 of a file are those in its inode; from 12 on they are the little-endian words of the block
      that the inode names last. */
  lemma WhichBlock(v: Fs, i: nat, bn: nat)
    requires i < |v.ino| && |v.ino[i].addrs| == 13 && bn < 268
    ensures bn < 12 ==> Ref(v, i, SlotOf(bn)) == v.ino[i].addrs[bn]
    ensures bn >= 12 && v.ino[i].addrs[12] == 0 ==> Ref(v, i, SlotOf(bn)) == 0
    ensures var x := v.ino[i].addrs[12];
            bn >= 12 && 0 < x < |v.blk| && |v.blk[x]| == 1024 ==>
              var at := 4 * (bn - 12);
              Ref(v, i, SlotOf(bn)) == (v.blk[x][at] as int) + 0x100 * (v.blk[x][at + 1] as int)
                                       + 0x1_0000 * (v.blk[x][at + 2] as int) + 0x100_0000 * (v.blk[x][at + 3] as int)
  {
  }

  /** Who a data block in use belongs to: a slot of an inode, or the code that has just taken it. */
  datatype Owner = Slot(i: nat, s: nat) | Hand

  type Owners = map<nat, Owner>

  /** What a slot refers to belongs to it. */
  ghost predicate SlotOk(v: Fs, own: Owners, i: nat, s: nat) {
    Ref(v, i, s) != 0 ==> Ref(v, i, s) in own && own[Ref(v, i, s)] == Slot(i, s)
  }

  /** A block with an owner is a data block, and its owner refers to it. */
  ghost predicate OwnerOk(sb: Super, v: Fs, own: Owners, b: nat)
    requires b in own
  {
    sb.data <= b < sb.size && (own[b].Slot? ==> Ref(v, own[b].i, own[b].s) == b)
  }

  /** The bitmap marks a block exactly when it is metadata or has an owner; owners and the slots that
      refer to blocks correspond one to one. */
  ghost predicate Owned(sb: Super, v: Fs, own: Owners)
    requires Shape(sb, v)
  {
    && (forall i: nat, s: nat {:trigger Ref(v, i, s)} :: SlotOk(v, own, i, s))
    && (forall b: nat {:trigger own[b]} :: b in own ==> OwnerOk(sb, v, own, b))
    && (forall b: nat {:trigger v.bits[b]} :: b < sb.size ==> (v.bits[b] <==> b < sb.data || b in own))
  }

  /** Every block is in exactly one place. */
  lemma OneReference(sb: Super, v: Fs, own: Owners, i: nat, s: nat, i': nat, s': nat)
    requires Shape(sb, v) && Owned(sb, v, own) && Ref(v, i, s) == Ref(v, i', s') != 0
    ensures i == i' && s == s' && sb.data <= Ref(v, i, s) < sb.size && v.bits[Ref(v, i, s)]
  {
    assert SlotOk(v, own, i, s) && SlotOk(v, own, i', s');
    assert OwnerOk(sb, v, own, Ref(v, i, s));
  }

  /** No block is in hand: every block with an owner is in a slot. */
  ghost predicate InSlots(own: Owners) {
    forall b :: b in own ==> own[b].Slot?
  }

  /** Slot s of inode j holds block b, and the inode is in use. */
  ghost predicate Refers(v: Fs, j: nat, s: nat, b: nat) {
    Ref(v, j, s) == b != 0 && j < |v.ino| && v.ino[j].kind != 0
  }

  /** A free inode has no blocks. */
  ghost predicate FreeOk(v: Fs) {
    forall i: nat {:trigger v.ino[i]} :: i < |v.ino| && v.ino[i].kind == 0 ==> v.ino[i].addrs == NOADDRS
  }

  /** The bitmap is exact: a block is marked if and only if it is metadata or some slot of an inode in
      use refers to it, and then only one slot does. */
  lemma BitmapExact(sb: Super, v: Fs, own: Owners, b: nat)
    requires Shape(sb, v) && Owned(sb, v, own) && FreeOk(v) && InSlots(own) && b < sb.size
    ensures v.bits[b] <==> b < sb.data || exists j: nat, s: nat :: Refers(v, j, s, b)
    ensures forall j: nat, s: nat, j': nat, s': nat :: Refers(v, j, s, b) && Refers(v, j', s', b) ==> j == j' && s == s'
    ensures b < sb.data ==> forall j: nat, s: nat :: !Refers(v, j, s, b)
  {
    if b in own {
      assert OwnerOk(sb, v, own, b);
      assert Refers(v, own[b].i, own[b].s, b);
    }
    forall j: nat, s: nat | Refers(v, j, s, b) ensures b in own && own[b] == Slot(j, s) && b >= sb.data {
      assert SlotOk(v, own, j, s);
      assert OwnerOk(sb, v, own, b);
    }
  }

  // ---------------------------------------------------------------------------------
  // Changes that keep the ownership.

  /** balloc: block b, until now free, is marked and zeroed. */
  lemma TakeKeeps(sb: Super, v: Fs, own: Owners, b: nat, v': Fs, own': Owners)
    requires Shape(sb, v) && Owned(sb, v, own) && b < sb.size && !v.bits[b]
    requires v' == TakenBlock(v, b) && own' == own[b := Hand]
    ensures Shape(sb, v') && Owned(sb, v', own') && SameRefs(v, v')
  {
    forall i: nat, s: nat ensures Ref(v', i, s) == Ref(v, i, s) && SlotOk(v', own', i, s) {
      assert SlotOk(v, own, i, s) && SlotOk(v, own, i, NDIRECT);
      var x := Ref(v, i, NDIRECT);
    }
    forall c: nat | c in own' ensures OwnerOk(sb, v', own', c) { assert c != b ==> OwnerOk(sb, v, own, c); }
  }

  /** Every slot refers to what it did. */
  ghost predicate SameRefs(v: Fs, v': Fs) {
    forall i: nat, s: nat {:trigger Ref(v', i, s)} :: Ref(v', i, s) == Ref(v, i, s)
  }

  /** Slot s of inode i refers to b, and every other to what it did. */
  ghost predicate NewRef(v: Fs, v': Fs, i: nat, s: nat, b: nat) {
    forall i': nat, s': nat {:trigger Ref(v', i', s')} :: Ref(v', i', s') == if i' == i && s' == s then b
        else Ref(v, i', s')
  }

  function TakenBlock(v: Fs, b: nat): Fs
    requires b < |v.bits| && b < |v.blk|
  {
    v.(bits := v.bits[b := true], blk := v.blk[b := Zeroes()])
  }

  /** A block in hand goes into a direct slot, or becomes an indirect block, that had none. */
  lemma PutAddrKeeps(sb: Super, v: Fs, own: Owners, b: nat, i: nat, s: nat, v': Fs, own': Owners)
    requires Shape(sb, v) && Owned(sb, v, own) && i < sb.ninodes && s <= NDIRECT && Ref(v, i, s) == 0
    requires b in own && own[b] == Hand && b < |v.blk| && (s == NDIRECT ==> v.blk[b] == Zeroes())
    requires v' == PutAddr(v, i, s, b) && own' == own[b := Slot(i, s)]
    ensures Shape(sb, v') && Owned(sb, v', own') && NewRef(v, v', i, s, b)
  {
    assert OwnerOk(sb, v, own, b);
    forall i': nat, s': nat ensures Ref(v', i', s') == if i' == i && s' == s then b else Ref(v, i', s') {
      if i' == i && s == NDIRECT && NDIRECT < s' < SLOTS { ZeroWords(s' - NDIRECT - 1); }
    }
    NewOwner(sb, v, own, b, i, s, v', own');
  }

  /** With the references in place, so is the ownership. */
  lemma NewOwner(sb: Super, v: Fs, own: Owners, b: nat, i: nat, s: nat, v': Fs, own': Owners)
    requires Shape(sb, v) && Owned(sb, v, own) && Shape(sb, v') && v'.bits == v.bits
    requires Ref(v, i, s) == 0 && b in own && own[b] == Hand && own' == own[b := Slot(i, s)] && NewRef(v, v', i, s, b)
    ensures Owned(sb, v', own')
  {
    assert OwnerOk(sb, v, own, b);
    forall i': nat, s': nat ensures SlotOk(v', own', i', s') { assert SlotOk(v, own, i', s'); }
    forall c: nat | c in own' ensures OwnerOk(sb, v', own', c) { assert c != b ==> OwnerOk(sb, v, own, c); }
  }

  function PutAddr(v: Fs, i: nat, s: nat, b: nat): Fs
    requires i < |v.ino| && s < |v.ino[i].addrs|
  {
    v.(ino := v.ino[i := v.ino[i].(addrs := v.ino[i].addrs[s := b])])
  }

  /** A block in hand goes into an entry of an indirect block that had none. */
  lemma PutEntryKeeps(sb: Super, v: Fs, own: Owners, b: nat, i: nat, j: nat, x: nat, v': Fs, own': Owners)
    requires Shape(sb, v) && Owned(sb, v, own) && i < sb.ninodes && j < NINDIRECT && x == Ref(v, i, NDIRECT)
    requires 0 < x < sb.size && Ref(v, i, NDIRECT + 1 + j) == 0 && b in own && own[b] == Hand && b < sb.size
    requires v' == PutEntry(v, x, j, b) && own' == own[b := Slot(i, NDIRECT + 1 + j)]
    ensures Shape(sb, v') && Owned(sb, v', own') && NewRef(v, v', i, NDIRECT + 1 + j, b)
  {
    var t := NDIRECT + 1 + j;
    assert OwnerOk(sb, v, own, b);
    forall i': nat, s': nat ensures Ref(v', i', s') == if i' == i && s' == t then b else Ref(v, i', s') {
      if NDIRECT < s' < SLOTS && Ref(v, i', NDIRECT) == x {
        OneReference(sb, v, own, i, NDIRECT, i', NDIRECT);
        PutGet(v.blk[x], j, b, s' - NDIRECT - 1);
      }
    }
    NewOwner(sb, v, own, b, i, t, v', own');
  }

  function PutEntry(v: Fs, x: nat, j: nat, b: nat): Fs
    requires x < |v.blk| && 4 * j + 4 <= |v.blk[x]| && b < 0x1_0000_0000
  {
    v.(blk := v.blk[x := PutWord(v.blk[x], j, b)])
  }

  /** Writing a block of data, which no inode uses as an indirect block. */
  lemma PutDataKeeps(sb: Super, v: Fs, own: Owners, i: nat, s: nat, b: nat, data: Block, v': Fs)
    requires Shape(sb, v) && Owned(sb, v, own) && Ref(v, i, s) == b && 0 < b < sb.size && s != NDIRECT
             && |data| == BSIZE
    requires v' == v.(blk := v.blk[b := data])
    ensures Shape(sb, v') && Owned(sb, v', own) && SameRefs(v, v')
  {
    forall i': nat, s': nat ensures Ref(v', i', s') == Ref(v, i', s') {
      if Ref(v, i', NDIRECT) == b { OneReference(sb, v, own, i, s, i', NDIRECT); }
    }
    forall i': nat, s': nat ensures SlotOk(v', own, i', s') { assert SlotOk(v, own, i', s'); }
    forall c: nat | c in own ensures OwnerOk(sb, v', own, c) { assert OwnerOk(sb, v, own, c); }
  }

  /** itrunc: every block of inode i is unmarked and its slots are cleared. */
  lemma TruncKeeps(sb: Super, v: Fs, own: Owners, i: nat, v': Fs, own': Owners)
    requires Shape(sb, v) && Owned(sb, v, own) && i < sb.ninodes && |v'.bits| == sb.size && |v'.ino| == sb.ninodes
    requires v' == v.(bits := v'.bits, ino := v.ino[i := v'.ino[i]]) && v'.ino[i].addrs == NOADDRS
    requires forall b: nat {:trigger v'.bits[b]} :: b < sb.size ==>
               (v'.bits[b] <==> v.bits[b] && !(b in own && own[b].Slot? && own[b].i == i))
    requires forall b: nat :: b in own' <==> b in own && !(own[b].Slot? && own[b].i == i)
    requires forall b: nat :: b in own' ==> own'[b] == own[b]
    ensures Shape(sb, v') && Owned(sb, v', own')
    ensures forall i': nat, s: nat :: Ref(v', i', s) == if i' == i then 0 else Ref(v, i', s)
  {
    forall i': nat, s: nat ensures Ref(v', i', s) == if i' == i then 0 else Ref(v, i', s) {}
    forall i': nat, s: nat ensures SlotOk(v', own', i', s) { assert SlotOk(v, own, i', s); }
    forall b: nat | b in own' ensures OwnerOk(sb, v', own', b) { assert OwnerOk(sb, v, own, b); }
    forall b: nat | b < sb.size ensures v'.bits[b] <==> b < sb.data || b in own' {
      assert b in own ==> OwnerOk(sb, v, own, b);
    }
  }
}
