/** The buffer cache (kernel/bio.c): NBUF buffers on a doubly linked ring in order of use,
    over a disk that is read and written a block at a time. */
module Bcache {
  import opened Common
  import opened Replay

  const NBUF: nat := MAXOPBLOCKS * 3
  const HEAD: nat := NBUF  // the ring's head, &bcache.head
  const ROOTDEV: nat := 1  // the only device; unused buffers carry device 0

  /** struct buf without its ring pointers; refcnt is a uint and wraps. */
  datatype Buf = Buf(valid: bool, dev: nat, blockno: nat, locked: bool, refcnt: nat, data: Block)

  /** A uint after adding or taking away one. */
  function Wrap(x: int): nat
    requires -1 <= x <= UINT
  {
    if x < 0 then x + UINT else if x >= UINT then x - UINT else x
  }

  // ---------------------------------------------------------------------------------
  // The ring, as two pointer tables over buffer numbers.

  /** The i-th buffer from most to least recently used; the head on either side. */
  function At(order: seq<nat>, i: int): nat {
    if 0 <= i < |order| then order[i] else HEAD
  }

  /** Following next from the head visits exactly `order`, and prev visits it backwards. */
  ghost predicate Ring(next: seq<nat>, prev: seq<nat>, order: seq<nat>) {
    && |next| == |prev| == NBUF + 1
    && Distinct(order)
    && (forall i :: 0 <= i < |order| ==> order[i] < NBUF)
    && (forall i {:trigger Joint(i)} :: 0 <= i <= |order| && Joint(i) ==>
          next[At(order, i - 1)] == At(order, i) && prev[At(order, i)] == At(order, i - 1))
  }

  /** True of every i: names the place between two neighbours, so that proofs say which they use. */
  ghost predicate Joint(i: int) {
    true
  }

  function Without(order: seq<nat>, p: nat): seq<nat>
    requires p < |order|
  {
    order[..p] + order[p + 1..]
  }

  /** brelse's first two assignments take buffer b, at position p, out of the ring. */
  lemma Unlinked(next: seq<nat>, prev: seq<nat>, order: seq<nat>, p: nat)
    requires Ring(next, prev, order) && p < |order|
    ensures var b := order[p];
            && prev[b] <= NBUF && next[b] <= NBUF
            && Ring(next[prev[b] := next[b]], prev[next[b] := prev[b]], Without(order, p))
  {
    var b, o := order[p], Without(order, p);
    assert Joint(p) && Joint(p + 1);
    var next', prev' := next[prev[b] := next[b]], prev[next[b] := prev[b]];
    forall i | 0 <= i <= |o|
      ensures next'[At(o, i - 1)] == At(o, i) && prev'[At(o, i)] == At(o, i - 1)
    {
      assert Joint(i) && Joint(i + 1);
    }
  }

  /** The last four assignments put b right after the head. */
  lemma Pushed(next: seq<nat>, prev: seq<nat>, order: seq<nat>, b: nat)
    requires Ring(next, prev, order) && b < NBUF && b !in order
    ensures next[HEAD] <= NBUF
    ensures Ring(next[b := next[HEAD]][HEAD := b], prev[b := HEAD][next[HEAD] := b], [b] + order)
  {
    var o := [b] + order;
    assert Joint(0);
    var next', prev' := next[b := next[HEAD]][HEAD := b], prev[b := HEAD][next[HEAD] := b];
    forall i | 0 <= i <= |o|
      ensures next'[At(o, i - 1)] == At(o, i) && prev'[At(o, i)] == At(o, i - 1)
    {
      assert Joint(i - 1);
    }
  }

  /** binit's loop: each buffer in turn goes to the front of an empty ring. */
  method InitRing(next: array<nat>, prev: array<nat>) returns (ghost order: seq<nat>)
    requires next.Length == prev.Length == NBUF + 1 && next != prev
    requires next[HEAD] == prev[HEAD] == HEAD
    modifies next, prev
    ensures Ring(next[..], prev[..], order) && |order| == NBUF
    ensures forall i :: 0 <= i < NBUF ==> i in order
  {
    order := [];
    var b: nat := 0;
    while b < NBUF
      invariant 0 <= b <= NBUF && |order| == b
      invariant Ring(next[..], prev[..], order)
      invariant forall i :: 0 <= i < |order| ==> order[i] < b
      invariant forall i :: 0 <= i < b ==> i in order
    {
      ghost var n: seq<nat>, p: seq<nat> := next[..], prev[..];
      Pushed(n, p, order, b);
      next[b] := next[HEAD];
      prev[b] := HEAD;
      prev[next[HEAD]] := b;
      next[HEAD] := b;
      assert next[..] == n[b := n[HEAD]][HEAD := b];
      assert prev[..] == p[b := HEAD][n[HEAD] := b];
      order := [b] + order;
      b := b + 1;
    }
  }

  // ---------------------------------------------------------------------------------
  // How many buffers are taken.

  /** The blocks whose buffers are referred to or pinned, or have been unpinned once too often. */
  ghost function InUse(refs: seq<nat>, pins: seq<int>): set<int> {
    set b | 0 <= b < |refs| && b < |pins| && refs[b] + pins[b] != 0
  }

  /** The blocks in s can all be held at once: bget finds a buffer for each of them. */
  ghost predicate Room(refs: seq<nat>, pins: seq<int>, s: set<int>) {
    |InUse(refs, pins) + s| <= NBUF
  }

  /** One more block needs one more buffer, unless it has one. */
  lemma RoomForOne(refs: seq<nat>, pins: seq<int>, x: int)
    ensures Room(refs, pins, {x}) <==>
              (x in InUse(refs, pins) && |InUse(refs, pins)| <= NBUF) || |InUse(refs, pins)| < NBUF
  {
    var u := InUse(refs, pins);
    if x in u { assert u + {x} == u; } else { assert |u + {x}| == |u| + 1; }
  }

  /** Room for two is room for one and then, with that one held, for the other. */
  lemma RoomForTwo(refs: seq<nat>, pins: seq<int>, x: int, y: int)
    requires 0 <= x < |refs| == |pins| && pins[x] >= 0
    ensures Room(refs, pins, {x, y}) <==> Room(refs, pins, {x}) && Room(refs[x := refs[x] + 1], pins, {y})
  {
    var u, u' := InUse(refs, pins), InUse(refs[x := refs[x] + 1], pins);
    assert u' == u + {x};
    assert u + {x, y} == u' + {y};
    SubsetSize(u + {x}, u + {x, y});
  }

  /** Blocks in use and buffers with references pair up through slot and blockno. */
  ghost predicate Paired(bufs: seq<Buf>, slot: seq<int>, u: set<int>) {
    && |bufs| == NBUF
    && (forall b :: b in u ==>
          0 <= b < |slot| && 0 <= slot[b] < NBUF && bufs[slot[b]].refcnt != 0 && bufs[slot[b]].blockno == b)
    && (forall i {:trigger bufs[i]} :: 0 <= i < NBUF && bufs[i].refcnt != 0 ==>
          bufs[i].blockno in u && bufs[i].blockno < |slot| && slot[bufs[i].blockno] == i)
  }

  lemma PairedSize(bufs: seq<Buf>, slot: seq<int>, u: set<int>)
    requires Paired(bufs, slot, u)
    ensures |u| <= NBUF && (|u| == NBUF <==> forall i :: 0 <= i < NBUF ==> bufs[i].refcnt != 0)
  {
    var busy := set i | 0 <= i < |bufs| && bufs[i].refcnt != 0;
    var f: map<int, int> := map b | b in u && 0 <= b < |slot| :: slot[b];
    forall b | b in u
        ensures b in f && f[b] in busy && bufs[f[b]].blockno == b { assert b in u ==> slot[b] == slot[b]; }
    Injected(f, u, busy);
    var g: map<int, int> := map i | i in busy :: bufs[i].blockno;
    Injected(g, busy, u);
    SubsetSize(busy, Upto(NBUF));
    assert (forall i :: 0 <= i < NBUF ==> bufs[i].refcnt != 0) ==> busy == Upto(NBUF);
    if |u| == NBUF {
      forall i | 0 <= i < NBUF ensures bufs[i].refcnt != 0 { assert i in Upto(NBUF); }
    }
  }

  /** The disk that the driver reads and writes. */
  datatype Drive = Drive(disk: Disk)

  /** The bookkeeping: the disk after each write so far; the buffers, most recently used first; for each
      block its latest contents, the buffer that holds it or -1, the references held through bget, the
      bpin calls less the bunpin calls, and whether its buffer's sleep lock is held; and the blocks let go
      of, by the last to refer to them, with contents that were not on disk. */
  datatype Books = Books(writes: seq<Disk>, order: seq<nat>, logical: Disk, slot: seq<int>, refs: seq<nat>,
                         pins: seq<int>, locks: seq<bool>, stray: set<nat>)

  /** Some stray blocks have lost their buffers, and with them their contents; the rest have theirs. */
  ghost predicate Forgets(g: Books, g': Books, d: Disk) {
    && |g'.logical| == |g.logical| == |d| && g'.stray <= g.stray
    && forall k: nat {:trigger g'.logical[k]} :: k < |d| ==>
         g'.logical[k] == if k in g.stray && k !in g'.stray then d[k] else g.logical[k]
  }

  class Cache {
    var hw: Drive
    const buf: array<Buf>
    const next: array<nat>
    const prev: array<nat>
    ghost var g: Books

    ghost predicate RingOk()
      reads this`g, next, prev
    {
      && buf.Length == NBUF && next.Length == prev.Length == NBUF + 1 && next != prev
      && Ring(next[..], prev[..], g.order)
      && |g.order| == NBUF && (forall i :: 0 <= i < NBUF ==> i in g.order)
    }

    ghost predicate Sizes()
      reads this
    {
      && buf.Length == NBUF
      && |g.slot| == |g.refs| == |g.pins| == |g.locks| == |g.logical| == |hw.disk|
      && forall b :: 0 <= b < |g.slot| ==> -1 <= g.slot[b] < NBUF
    }

    /** A buffer in use is the one `slot` names for its block: one buffer a block at most. */
    ghost predicate BufOk(i: nat)
      requires Sizes() && i < NBUF
      reads this, buf
    {
      if buf[i].dev == ROOTDEV
      then buf[i].blockno < |hw.disk| && g.slot[buf[i].blockno] == i
      else buf[i].dev == 0 && buf[i].refcnt == 0 && !buf[i].locked
    }

    /** refcnt counts a cached block's references and pins, as a uint. A valid buffer holds its
        block's latest contents. A block whose latest contents are not on disk is in a valid
        buffer that is held or pinned, or stray. */
    ghost predicate BlockOk(b: nat)
      requires Sizes() && b < |hw.disk|
      reads this, buf
    {
      && -1 <= g.pins[b] && g.refs[b] + g.pins[b] < UINT
      && (g.locks[b] ==> g.refs[b] > 0)
      && if g.slot[b] == -1
         then g.refs[b] == g.pins[b] == 0 && g.logical[b] == hw.disk[b]
         else
           var f := buf[g.slot[b]];
           && f.dev == ROOTDEV && f.blockno == b
           && f.refcnt == Wrap(g.refs[b] + g.pins[b]) && f.locked == g.locks[b]
           && (f.valid ==> f.data == g.logical[b])
           && (g.logical[b] != hw.disk[b] ==> f.valid && (g.refs[b] + g.pins[b] > 0 || b in g.stray))
    }

    ghost predicate Valid()
      reads this, buf, next, prev
    {
      Sound() == true
    }

    ghost predicate Sound()
      reads this, buf, next, prev
    {
      && RingOk() && Sizes()
      && (forall i: nat {:trigger BufOk(i)} :: i < NBUF ==> BufOk(i))
      && (forall b: nat {:trigger BlockOk(b)} :: b < |hw.disk| ==> BlockOk(b))
    }

    /** No block in use has been unpinned once too often: what bget needs. */
    ghost predicate Safe()
      reads this
    {
      |g.refs| == |g.pins| && forall b :: 0 <= b < |g.pins| ==> g.pins[b] >= 0 || g.refs[b] == 0
    }

    /** Buffer i is locked and holds block b's latest contents: what bread's caller gets. */
    ghost predicate Holds(i: nat, b: nat)
      reads this, buf
    {
      && Sizes() && i < NBUF && b < |hw.disk| && g.slot[b] == i && g.locks[b]
      && buf[i].valid && buf[i].dev == ROOTDEV && buf[i].blockno == b && buf[i].data == g.logical[b]
    }

    /** A cached block unpinned once too often: idle, its buffer counts 2^32 - 1 references and is
        never recycled; in use by one caller, it counts none, and bget may recycle it. */
    lemma Overdrawn(k: nat)
      requires Valid() && k < |hw.disk| && g.pins[k] == -1
      ensures g.slot[k] >= 0
      ensures g.refs[k] == 0 ==> buf[g.slot[k]].refcnt == UINT - 1
      ensures g.refs[k] == 1 ==> buf[g.slot[k]].refcnt == 0
    {
      assert BlockOk(k);
    }

    /** binit, over a given disk. */
    constructor (d: Disk)
      ensures Valid() && Safe() && hw.disk == g.logical == d && g.writes == [] && g.stray == {}
      ensures forall b :: 0 <= b < |d| ==> g.refs[b] == g.pins[b] == 0 && !g.locks[b] && g.slot[b] == -1
      ensures fresh(buf) && fresh(next) && fresh(prev)
    {
      hw := Drive(d);
      g := Books([], [], d, seq(|d|, _ => -1), seq(|d|, _ => 0), seq(|d|, _ => 0), seq(|d|, _ => false), {});
      buf := new Buf[NBUF](_ => Buf(false, 0, 0, false, 0, []));
      next := new nat[NBUF + 1](_ => HEAD);
      prev := new nat[NBUF + 1](_ => HEAD);
      new;
      ghost var order := InitRing(next, prev);
      g := g.(order := order);
    }

    /** The buffers that bget will not recycle are those of the blocks in use, one each. */
    lemma Taken()
      requires Valid()
      ensures |InUse(g.refs, g.pins)| <= NBUF
      ensures |InUse(g.refs, g.pins)| == NBUF <==> forall i :: 0 <= i < NBUF ==> buf[i].refcnt != 0
    {
      var u, bufs := InUse(g.refs, g.pins), buf[..];
      forall b | b in u
        ensures 0 <= b < |g.slot| && 0 <= g.slot[b] < NBUF && bufs[g.slot[b]].refcnt != 0
                && bufs[g.slot[b]].blockno == b
      {
        assert BlockOk(b);
      }
      forall i | 0 <= i < NBUF && bufs[i].refcnt != 0
        ensures bufs[i].blockno in u && bufs[i].blockno < |g.slot| && g.slot[bufs[i].blockno] == i
      {
        assert BufOk(i) && BlockOk(buf[i].blockno);
      }
      PairedSize(bufs, g.slot, u);
    }

    /** Where bget panics, in terms of what is held and pinned. */
    lemma NoBuffer(blockno: nat)
      requires Valid() && blockno < |hw.disk|
      ensures (g.slot[blockno] < 0 && forall i :: 0 <= i < NBUF ==> buf[i].refcnt != 0) <==>
                !Room(g.refs, g.pins, {blockno})
    {
      Taken();
      RoomForOne(g.refs, g.pins, blockno);
      assert BlockOk(blockno);
    }

    /** bget's first loop: walk the ring forwards for the block. HEAD if it is not cached. */
    method FindCached(blockno: nat) returns (b: nat)
      requires Valid() && blockno < |hw.disk|
      ensures b == if g.slot[blockno] >= 0 then g.slot[blockno] else HEAD
    {
      b := next[HEAD];
      ghost var i: int := 0;
      assert Joint(0) && BlockOk(blockno);
      assert g.slot[blockno] >= 0 ==> g.slot[blockno] in g.order;
      while b != HEAD
        invariant 0 <= i <= |g.order| && b == At(g.order, i)
        invariant forall j :: 0 <= j < i ==> g.order[j] != g.slot[blockno]
        decreases |g.order| - i
      {
        if buf[b].dev == ROOTDEV && buf[b].blockno == blockno {
          assert BufOk(b);
          return b;
        }
        assert Joint(i + 1);
        b := next[b];
        i := i + 1;
      }
    }

    /** bget's second loop: walk the ring backwards for a buffer nobody refers to.
        HEAD if there is none. */
    method FindUnused() returns (b: nat)
      requires Valid()
      ensures b == HEAD <==> forall i :: 0 <= i < NBUF ==> buf[i].refcnt != 0
      ensures b != HEAD ==> b < NBUF && buf[b].refcnt == 0 && LeastRecent(b)
    {
      b := prev[HEAD];
      ghost var i: int := |g.order| - 1;
      assert Joint(|g.order|);
      while b != HEAD
        invariant -1 <= i < |g.order| && b == At(g.order, i)
        invariant forall j :: i < j < |g.order| ==> buf[g.order[j]].refcnt != 0
        decreases i + 1
      {
        if buf[b].refcnt == 0 {
          return b;
        }
        assert Joint(i);
        b := prev[b];
        i := i - 1;
      }
      forall k | 0 <= k < NBUF ensures buf[k].refcnt != 0 {
        assert k in g.order;
      }
    }

    /** Every buffer released longer ago than b is referred to. */
    ghost predicate LeastRecent(b: nat)
      requires RingOk()
      reads this, buf, next, prev
    {
      exists p :: 0 <= p < |g.order| && g.order[p] == b
               && forall j :: p < j < |g.order| ==> buf[g.order[j]].refcnt != 0
    }

    /** Where bget finds the block: one more reference. */
    method Ref(blockno: nat, b: nat)
      requires Valid() && b < NBUF && blockno < |hw.disk| && g.slot[blockno] == b
               && g.refs[blockno] + g.pins[blockno] + 1 < UINT
      modifies this`g, buf
      ensures g == old(g).(refs := g.refs)
      ensures Valid() && g.refs == old(g.refs)[blockno := old(g.refs[blockno]) + 1]
      ensures forall i :: 0 <= i < NBUF && i != b ==> buf[i] == old(buf[i])
      ensures buf[b] == old(buf[b]).(refcnt := buf[b].refcnt)
    {
      assert BlockOk(blockno);
      buf[b] := buf[b].(refcnt := Wrap(buf[b].refcnt + 1));
      g := g.(refs := g.refs[blockno := g.refs[blockno] + 1]);
      forall i: nat | i < NBUF ensures BufOk(i) { assert old(BufOk(i)); }
      forall k: nat | k < |hw.disk| ensures BlockOk(k) { assert old(BlockOk(k)); }
    }

    /** Where it does not: take over a buffer nobody refers to. */
    method Recycle(blockno: nat, b: nat)
      requires Valid() && Safe() && b < NBUF && buf[b].refcnt == 0
      requires blockno < |hw.disk| && g.slot[blockno] == -1
      modifies this`g, buf
      ensures g == old(g).(refs := g.refs, slot := g.slot, logical := g.logical, stray := g.stray)
      ensures Forgets(old(g), g, hw.disk)
      ensures Valid() && g.refs == old(g.refs)[blockno := 1] && g.slot[blockno] == b
      ensures forall i :: 0 <= i < NBUF && i != b ==> buf[i] == old(buf[i])
      ensures Evicts(b, blockno)
    {
      hide Ring;
      assert BufOk(b) && BlockOk(blockno);
      if buf[b].dev == ROOTDEV {
        assert BlockOk(buf[b].blockno);
        ghost var e := buf[b].blockno;
        g := g.(slot := g.slot[e := -1], logical := g.logical[e := hw.disk[e]], stray := g.stray - {e});
      }
      buf[b] := buf[b].(dev := ROOTDEV, blockno := blockno, valid := false, refcnt := 1);
      g := g.(slot := g.slot[blockno := b]);
      g := g.(refs := g.refs[blockno := 1]);
      forall k: nat | k < |hw.disk|
          ensures old(g.slot[k]) == b ==> old(buf[b].dev) == ROOTDEV && k == old(buf[b].blockno) {
        assert old(BlockOk(k));
      }
      forall i: nat | i < NBUF ensures BufOk(i) { assert old(BufOk(i)); }
      forall k: nat | k < |hw.disk| ensures BlockOk(k) { assert old(BlockOk(k)); }
    }

    /** bget up to taking the buffer's sleep lock. Returns HEAD where bget panics for want of
        a buffer. A hit adds a reference; a miss takes over the least recently used buffer
        nobody refers to. No block's latest contents change, but for a stray one that loses its buffer. */
    method BgetRef(blockno: nat) returns (b: nat)
      requires Valid() && Safe() && blockno < |hw.disk| && g.refs[blockno] + g.pins[blockno] + 1 < UINT
      modifies this`g, buf
      ensures g == old(g).(refs := g.refs, slot := g.slot, logical := g.logical, stray := g.stray)
      ensures Valid() && Forgets(old(g), g, hw.disk)
      ensures b == HEAD <==> old(g.slot[blockno] < 0 && forall i :: 0 <= i < NBUF ==> buf[i].refcnt != 0)
      ensures b == HEAD ==> g == old(g) && buf[..] == old(buf[..])
      ensures b != HEAD ==>
                b < NBUF && g.slot[blockno] == b && g.refs == old(g.refs)[blockno := old(g.refs[blockno]) + 1]
      ensures forall i :: 0 <= i < NBUF && i != b ==> buf[i] == old(buf[i])
      ensures b != HEAD && old(g.slot[blockno]) >= 0 ==>
                g == old(g).(refs := g.refs) && buf[b] == old(buf[b]).(refcnt := buf[b].refcnt)
      ensures b != HEAD && old(g.slot[blockno]) < 0 ==> old(LeastRecent(b)) && Evicts(b, blockno)
    {
      b := FindCached(blockno);
      if b != HEAD {
        Ref(blockno, b);
        return;
      }
      b := FindUnused();
      if b != HEAD {
        assert old(buf[b].refcnt) == 0 && old(BlockOk(blockno));
        Recycle(blockno, b);
      }
    }

    /** Buffer b, until now unreferenced and perhaps holding some other block, holds blockno. */
    twostate predicate Evicts(b: nat, blockno: nat)
      requires old(Valid()) && Valid() && hw.disk == old(hw.disk)
      reads this, buf, next, prev
    {
      && b < NBUF && !buf[b].valid
      && forall k :: 0 <= k < |hw.disk| && k != blockno ==>
           if old(g.slot[k]) == b then g.slot[k] == -1 && g.refs[k] == g.pins[k] == 0
           else g.slot[k] == old(g.slot[k]) && g.logical[k] == old(g.logical[k])
    }

    /** acquiresleep on a free lock, by a caller with a reference. */
    method AcquireSleep(blockno: nat, b: nat)
      requires Valid() && b < NBUF && blockno < |hw.disk| && g.slot[blockno] == b && !g.locks[blockno]
               && g.refs[blockno] > 0
      modifies this`g, buf
      ensures g == old(g).(locks := g.locks)
      ensures Valid() && g.locks == old(g.locks)[blockno := true]
      ensures forall i :: 0 <= i < NBUF && i != b ==> buf[i] == old(buf[i])
      ensures buf[b] == old(buf[b]).(locked := true)
    {
      assert BlockOk(blockno);
      buf[b] := buf[b].(locked := true);
      g := g.(locks := g.locks[blockno := true]);
      forall i: nat | i < NBUF ensures BufOk(i) { assert old(BufOk(i)); }
      forall k: nat | k < |hw.disk| ensures BlockOk(k) { assert old(BlockOk(k)); }
    }

    /** bget, for a caller that need not wait for the buffer's lock. */
    method Bget(blockno: nat) returns (b: nat)
      requires Valid() && Safe() && blockno < |hw.disk| && !g.locks[blockno]
      requires g.refs[blockno] + g.pins[blockno] + 1 < UINT
      modifies this`g, buf
      ensures g == old(g).(refs := g.refs, slot := g.slot, locks := g.locks, logical := g.logical, stray := g.stray)
      ensures Forgets(old(g), g, hw.disk) && (old(g.stray) == {} ==> g.logical == old(g.logical))
      ensures Valid() && (g.pins[blockno] >= 0 ==> Safe())
      ensures b != HEAD <==> Room(old(g.refs), old(g.pins), {blockno})
      ensures b == HEAD ==> g == old(g)
      ensures b != HEAD ==>
                && b < NBUF && g.slot[blockno] == b
                && g.refs == old(g.refs)[blockno := old(g.refs[blockno]) + 1]
                && g.locks == old(g.locks)[blockno := true]
      ensures forall i: nat, k: nat :: old(Holds(i, k)) ==> Holds(i, k)
    {
      hide Ring, Room, InUse, LeastRecent;
      NoBuffer(blockno);
      b := BgetRef(blockno);
      if b != HEAD {
        AcquireSleep(blockno, b);
      }
      forall i: nat, k: nat | old(Holds(i, k)) ensures Holds(i, k) {
        assert old(BlockOk(k)) && old(BlockOk(blockno)) && i != b;
      }
    }

    /** The second half of bread: read the block in if the buffer is not valid. */
    method Fill(blockno: nat, b: nat)
      requires Valid() && b < NBUF && blockno < |hw.disk| && g.slot[blockno] == b && g.locks[blockno]
      modifies buf
      ensures Valid() && Holds(b, blockno)
      ensures forall i :: 0 <= i < NBUF && i != b ==> buf[i] == old(buf[i])
      ensures old(buf[b].valid) ==> buf[b] == old(buf[b])
      ensures forall i: nat, k: nat :: old(Holds(i, k)) ==> Holds(i, k)
    {
      assert BlockOk(blockno);
      if !buf[b].valid {
        buf[b] := buf[b].(valid := true, data := hw.disk[buf[b].blockno]);
      }
      forall i: nat | i < NBUF ensures BufOk(i) { assert old(BufOk(i)); }
      forall k: nat | k < |hw.disk| ensures BlockOk(k) { assert old(BlockOk(k)); }
    }

    /** bread, for a caller that need not wait for the buffer's lock: the locked buffer holds
        the block's latest contents. Returns HEAD where bget panics. */
    method Bread(blockno: nat) returns (b: nat)
      requires Valid() && Safe() && blockno < |hw.disk| && !g.locks[blockno]
      requires g.refs[blockno] + g.pins[blockno] + 1 < UINT
      modifies this`g, buf
      ensures g == old(g).(refs := g.refs, slot := g.slot, locks := g.locks, logical := g.logical, stray := g.stray)
      ensures Forgets(old(g), g, hw.disk) && (old(g.stray) == {} ==> g.logical == old(g.logical))
      ensures Valid() && (g.pins[blockno] >= 0 ==> Safe())
      ensures b != HEAD <==> Room(old(g.refs), old(g.pins), {blockno})
      ensures b == HEAD ==> g == old(g)
      ensures b != HEAD ==>
                && Holds(b, blockno)
                && g.refs == old(g.refs)[blockno := old(g.refs[blockno]) + 1]
                && g.locks == old(g.locks)[blockno := true]
      ensures forall i: nat, k: nat :: old(Holds(i, k)) ==> Holds(i, k)
    {
      b := Bget(blockno);
      if b != HEAD {
        Fill(blockno, b);
      }
    }

    /** Two breads of different blocks in a row, as in install_trans and write_log. */
    method BreadTwo(x: nat, y: nat) returns (b0: nat, b1: nat)
      requires Valid() && Safe() && x < |hw.disk| && y < |hw.disk| && x != y
      requires g.pins[x] >= 0 && !g.locks[x] && g.refs[x] + g.pins[x] + 1 < UINT
      requires g.pins[y] >= 0 && !g.locks[y] && g.refs[y] + g.pins[y] + 1 < UINT
      modifies this`g, buf
      ensures g == old(g).(refs := g.refs, slot := g.slot, locks := g.locks, logical := g.logical, stray := g.stray)
      ensures Forgets(old(g), g, hw.disk) && (old(g.stray) == {} ==> g.logical == old(g.logical))
      ensures b0 != HEAD && b1 != HEAD <==> Room(old(g.refs), old(g.pins), {x, y})
      ensures b0 != HEAD && b1 != HEAD ==>
                && Valid() && Safe() && Holds(b0, x) && Holds(b1, y)
                && g.refs == old(g.refs)[x := old(g.refs[x]) + 1][y := old(g.refs[y]) + 1]
                && g.locks == old(g.locks)[x := true][y := true]
    {
      hide Room, InUse;
      RoomForTwo(g.refs, g.pins, x, y);
      b1 := HEAD;
      b0 := Bread(x);
      if b0 != HEAD {
        b1 := Bread(y);
      }
    }

    /** The holder of a buffer changes its data. */
    method SetData(b: nat, ghost k: nat, v: Block)
      requires Valid() && Holds(b, k) && g.pins[k] >= 0
      modifies this`g, buf
      ensures g == old(g).(logical := g.logical)
      ensures Valid() && g.logical == old(g.logical)[k := v]
      ensures forall i: nat, j: nat :: old(Holds(i, j)) ==> Holds(i, j)
    {
      assert BlockOk(k);
      buf[b] := buf[b].(data := v);
      g := g.(logical := g.logical[k := v]);
      forall i: nat | i < NBUF ensures BufOk(i) { assert old(BufOk(i)); }
      forall j: nat | j < |hw.disk| ensures BlockOk(j) { assert old(BlockOk(j)); }
    }

    /** bwrite: the block's latest contents reach the disk. */
    method Bwrite(b: nat, ghost k: nat)
      requires Valid() && Holds(b, k)
      modifies this`hw, this`g
      ensures g == old(g).(writes := g.writes)
      ensures Valid() && hw.disk == old(hw.disk)[k := g.logical[k]] && g.writes == old(g.writes) + [hw.disk]
      ensures forall i: nat, j: nat :: old(Holds(i, j)) ==> Holds(i, j)
    {
      hw := Drive(hw.disk[buf[b].blockno := buf[b].data]);
      g := g.(writes := g.writes + [hw.disk]);
      forall i: nat | i < NBUF ensures BufOk(i) { assert old(BufOk(i)); }
      forall j: nat | j < |hw.disk| ensures BlockOk(j) { assert old(BlockOk(j)); }
    }

    /** memmove into a held buffer, then bwrite. */
    method Store(b: nat, ghost k: nat, v: Block)
      requires Valid() && Holds(b, k) && g.pins[k] >= 0
      modifies this`hw, this`g, buf
      ensures g == old(g).(logical := g.logical, writes := g.writes)
      ensures Valid() && hw.disk == old(hw.disk)[k := v] && g.logical == old(g.logical)[k := v]
              && g.writes == old(g.writes) + [hw.disk]
      ensures forall i: nat, j: nat :: old(Holds(i, j)) ==> Holds(i, j)
    {
      SetData(b, k, v);
      Bwrite(b, k);
    }

    /** brelse: one reference less; a buffer nobody refers to any more goes to the front of the
        ring. A block whose latest contents are not on disk is then stray. */
    method Brelse(b: nat, ghost k: nat)
      requires Valid() && Holds(b, k)
      modifies this`g, buf, next, prev
      ensures g == old(g).(refs := g.refs, locks := g.locks, order := g.order, stray := g.stray)
      ensures Valid()
      ensures g.refs[k] + 1 == old(g.refs[k]) && g.refs == old(g.refs)[k := g.refs[k]]
              && g.locks == old(g.locks)[k := false]
      ensures g.stray == old(g.stray) + if g.refs[k] + g.pins[k] == 0 && g.logical[k] != hw.disk[k] then {k} else {}
      ensures forall i: nat, j: nat :: old(Holds(i, j)) && j != k ==> Holds(i, j)
      ensures if g.refs[k] + g.pins[k] != 0 then g.order == old(g.order)
              else exists p: nat ::
                  p < |old(g.order)| && old(g.order)[p] == b && g.order == [b] + Without(old(g.order), p)
    {
      hide Ring, Without;
      assert BlockOk(k);
      buf[b] := buf[b].(locked := false);
      buf[b] := buf[b].(refcnt := Wrap(buf[b].refcnt - 1));
      g := g.(refs := g.refs[k := g.refs[k] - 1], locks := g.locks[k := false]);
      if g.refs[k] + g.pins[k] == 0 && g.logical[k] != hw.disk[k] { g := g.(stray := g.stray + {k}); }
      if buf[b].refcnt == 0 {
        ghost var p := MoveToFront(b);
      }
      forall i: nat | i < NBUF ensures BufOk(i) { assert old(BufOk(i)); }
      forall j: nat | j < |hw.disk| ensures BlockOk(j) { assert old(BlockOk(j)); }
    }

    /** Two brelses in a row. */
    method BrelseTwo(b0: nat, b1: nat, ghost x: nat, ghost y: nat)
      requires Valid() && Holds(b0, x) && Holds(b1, y) && x != y
      requires g.refs[x] + g.pins[x] != 1 || g.logical[x] == hw.disk[x]
      requires g.refs[y] + g.pins[y] != 1 || g.logical[y] == hw.disk[y]
      modifies this`g, buf, next, prev
      ensures g == old(g).(refs := g.refs, locks := g.locks, order := g.order)
      ensures Valid() && g.locks == old(g.locks)[x := false][y := false]
      ensures g.refs[x] + 1 == old(g.refs[x]) && g.refs[y] + 1 == old(g.refs[y])
      ensures g.refs == old(g.refs)[x := g.refs[x]][y := g.refs[y]]
    {
      Brelse(b0, x);
      Brelse(b1, y);
    }

    /** brelse's pointer surgery. */
    method MoveToFront(b: nat) returns (ghost p: nat)
      requires RingOk() && b < NBUF
      modifies this`g, next, prev
      ensures g == old(g).(order := g.order)
      ensures RingOk() && p < |old(g.order)| && old(g.order[p]) == b
      ensures g.order == [b] + Without(old(g.order), p)
    {
      assert b in g.order;
      p :| 0 <= p < |g.order| && g.order[p] == b;
      ghost var n0: seq<nat>, p0: seq<nat> := next[..], prev[..];
      Unlinked(n0, p0, g.order, p);
      prev[next[b]] := prev[b];
      next[prev[b]] := next[b];
      ghost var n1: seq<nat>, p1: seq<nat> := next[..], prev[..];
      assert n1 == n0[p0[b] := n0[b]] && p1 == p0[n0[b] := p0[b]];
      Pushed(n1, p1, Without(g.order, p), b);
      next[b] := next[HEAD];
      prev[b] := HEAD;
      prev[next[HEAD]] := b;
      next[HEAD] := b;
      assert next[..] == n1[b := n1[HEAD]][HEAD := b];
      assert prev[..] == p1[b := HEAD][n1[HEAD] := b];
      g := g.(order := [b] + Without(g.order, p));
      forall i | 0 <= i < NBUF ensures i in g.order {
        assert i in old(g.order);
        ghost var q :| 0 <= q < |old(g.order)| && old(g.order[q]) == i;
        assert q == p || i == Without(old(g.order), p)[if q < p then q else q - 1];
      }
    }

    /** bpin */
    method Bpin(b: nat, ghost k: nat)
      requires Valid() && Holds(b, k) && g.pins[k] >= 0 && g.refs[k] + g.pins[k] + 1 < UINT
      modifies this`g, buf
      ensures g == old(g).(pins := g.pins)
      ensures Valid() && g.pins == old(g.pins)[k := old(g.pins[k]) + 1]
      ensures forall i: nat, j: nat :: old(Holds(i, j)) ==> Holds(i, j)
    {
      assert BlockOk(k);
      buf[b] := buf[b].(refcnt := Wrap(buf[b].refcnt + 1));
      g := g.(pins := g.pins[k := g.pins[k] + 1]);
      forall i: nat | i < NBUF ensures BufOk(i) { assert old(BufOk(i)); }
      forall j: nat | j < |hw.disk| ensures BlockOk(j) { assert old(BlockOk(j)); }
    }

    /** bunpin, whether or not a bpin went before it. */
    method Bunpin(b: nat, ghost k: nat)
      requires Valid() && Holds(b, k) && g.pins[k] >= 0
      requires g.refs[k] + g.pins[k] != 1 || g.logical[k] == hw.disk[k]
      modifies this`g, buf
      ensures g == old(g).(pins := g.pins)
      ensures Valid() && g.pins == old(g.pins)[k := old(g.pins[k]) - 1]
      ensures forall i: nat, j: nat :: old(Holds(i, j)) ==> Holds(i, j)
    {
      assert BlockOk(k);
      buf[b] := buf[b].(refcnt := Wrap(buf[b].refcnt - 1));
      g := g.(pins := g.pins[k := g.pins[k] - 1]);
      forall i: nat | i < NBUF ensures BufOk(i) { assert old(BufOk(i)); }
      forall j: nat | j < |hw.disk| ensures BlockOk(j) { assert old(BlockOk(j)); }
    }
  }
}
