/** What becomes of a block that recovery has unpinned without its having been pinned (kernel/log.c over
    kernel/bio.c): its buffer counts one reference too few, so that bget takes it from the caller who holds
    it once it is the least recently used. */
module BufferReuse {
  import opened Common
  import opened Bcache

  /** Nobody refers to any block, and block k has been unpinned once too often. */
  ghost predicate Idle(c: Cache, k: nat)
    reads c
  {
    && |c.g.refs| == |c.g.pins| == |c.g.locks| == |c.hw.disk| && k < |c.hw.disk|
    && forall b: nat {:trigger c.g.refs[b]} :: b < |c.hw.disk| ==>
         c.g.refs[b] == 0 && c.g.pins[b] == (if b == k then -1 else 0) && !c.g.locks[b]
  }

  /** All buffers but that of block k are there to be taken. */
  lemma OthersUnused(c: Cache, k: nat, i: nat)
    requires c.Valid() && Idle(c, k) && i < NBUF
    ensures c.buf[i].refcnt == 0 <==> i != c.g.slot[k]
  {
    assert c.BufOk(i) && c.BlockOk(k);
    if c.buf[i].dev == ROOTDEV {
      assert c.BlockOk(c.buf[i].blockno);
      assert c.g.refs[c.buf[i].blockno] == 0;
    }
    assert c.g.refs[k] == 0;
  }

  /** Where the buffer in position p is once the last of the others has gone to the front. */
  function Later(p: nat): nat { if p < NBUF - 1 then p + 1 else p }

  /** bread of block x, which is not cached, takes the last of the others. */
  method ReadInto(c: Cache, k: nat, x: nat, ghost p: nat) returns (b: nat)
    requires c.Valid() && c.Safe() && Idle(c, k) && x < |c.hw.disk| && x != k && c.g.slot[x] == -1
    requires p < NBUF && |c.g.order| == NBUF && c.g.order[p] == c.g.slot[k]
    modifies c`g, c.buf
    ensures c.Valid() && c.Holds(b, x) && c.g.slot[k] == old(c.g.slot[k])
    ensures c.g.refs == old(c.g.refs)[x := 1] && c.g.locks == old(c.g.locks)[x := true]
    ensures c.g.order == old(c.g.order) && c.g.pins == old(c.g.pins)
    ensures b == c.g.order[LastBut(p)] && Distinct(c.g.order)
    ensures forall y: nat :: y < |c.hw.disk| && y != x && old(c.g.slot[y]) == -1 ==> c.g.slot[y] == -1
  {
    hide Ring, Forgets;
    Last(c, k, p);
    assert c.g.refs[x] == 0 && c.g.refs[k] == 0;
    b := c.BgetRef(x);
    c.AcquireSleep(x, b);
    c.Fill(x, b);
  }

  /** Someone reads block x, which is not cached, and lets go of it: of the buffers that come after that of
      block k in the order of use, if any do, there is one less. */
  method ReadAnother(c: Cache, k: nat, x: nat, ghost p: nat)
    requires c.Valid() && c.Safe() && Idle(c, k) && x < |c.hw.disk| && x != k && c.g.slot[x] == -1
    requires p < NBUF && |c.g.order| == NBUF && c.g.order[p] == c.g.slot[k]
    modifies c, c.buf, c.next, c.prev
    ensures c.Valid() && c.Safe() && Idle(c, k) && c.hw == old(c.hw)
    ensures |c.g.order| == NBUF && c.g.slot[k] == old(c.g.slot[k]) == c.g.order[Later(p)]
    ensures forall y: nat :: y < |c.hw.disk| && y != x && old(c.g.slot[y]) == -1 ==> c.g.slot[y] == -1
  {
    hide Ring;
    ghost var order := c.g.order;
    assert c.g.refs[x] == 0;
    var b := ReadInto(c, k, x, p);
    c.Brelse(b, x);
    assert c.g.refs == old(c.g.refs) && c.g.locks == old(c.g.locks) && c.g.pins == old(c.g.pins);
    forall y: nat | y < |c.hw.disk|
      ensures c.g.refs[y] == 0 && c.g.pins[y] == (if y == k then -1 else 0) && !c.g.locks[y]
    {
      assert old(c.g.refs)[y] == 0;
    }
    Moved(order, p, b, c.g.order);
  }

  /** The last but for position p. */
  function LastBut(p: nat): nat { if p < NBUF - 1 then NBUF - 1 else NBUF - 2 }

  /** The buffer that will be taken is the last of the others in the order of use. */
  lemma Last(c: Cache, k: nat, p: nat)
    requires c.Valid() && Idle(c, k) && p < NBUF && |c.g.order| == NBUF && c.g.order[p] == c.g.slot[k]
    ensures c.g.order[LastBut(p)] < NBUF && c.buf[c.g.order[LastBut(p)]].refcnt == 0 && Distinct(c.g.order)
    ensures forall b: nat :: c.LeastRecent(b) && b < NBUF && c.buf[b].refcnt == 0 ==> b == c.g.order[LastBut(p)]
  {
    OthersUnused(c, k, c.g.order[LastBut(p)]);
    OthersUnused(c, k, c.g.order[p]);
    forall b: nat | c.LeastRecent(b) && b < NBUF && c.buf[b].refcnt == 0 ensures b == c.g.order[LastBut(p)] {
      var q :| 0 <= q < |c.g.order| && c.g.order[q] == b
               && forall j :: q < j < |c.g.order| ==> c.buf[c.g.order[j]].refcnt != 0;
      assert q >= LastBut(p);
    }
  }

  lemma Moved(order: seq<nat>, p: nat, b: nat, order': seq<nat>)
    requires |order| == NBUF && p < NBUF && Distinct(order) && b == order[LastBut(p)]
    requires exists q: nat :: q < NBUF && order[q] == b && order' == [b] + Without(order, q)
    ensures |order'| == NBUF && order'[Later(p)] == order[p]
  {
  }

  /** bread of block k, whose buffer is the least recently used, and then bget's search for a buffer that
      nobody refers to. */
  method HoldAndLook(c: Cache, k: nat) returns (held: nat, taken: nat)
    requires c.Valid() && c.Safe() && Idle(c, k) && |c.g.order| == NBUF && c.g.order[NBUF - 1] == c.g.slot[k]
    modifies c, c.buf
    ensures c.hw == old(c.hw) && c.Valid() && c.Holds(held, k) && c.g.refs[k] == 1 && c.g.slot == old(c.g.slot)
    ensures taken == held
  {
    hide Ring, Forgets;
    assert c.BlockOk(k) && c.g.refs[k] == 0;
    held := c.BgetRef(k);
    c.AcquireSleep(k, held);
    c.Fill(k, held);
    assert c.BlockOk(k);
    taken := c.FindUnused();
  }

  /** After recovery of block k, and then as many reads of other blocks as there are buffers, someone reads
      block k and holds it; bget, looking for a buffer for the last of the other blocks, finds the very one
      that is held. */
  method HeldIsTaken(c: Cache, k: nat, xs: seq<nat>) returns (held: nat, taken: nat)
    requires c.Valid() && c.Safe() && Idle(c, k) && |xs| == NBUF && Distinct(xs)
    requires forall i :: 0 <= i < NBUF ==> xs[i] < |c.hw.disk| && xs[i] != k && c.g.slot[xs[i]] == -1
    modifies c, c.buf, c.next, c.prev
    ensures c.hw == old(c.hw) && c.Valid() && c.Holds(held, k) && c.g.refs[k] == 1 && c.g.slot[xs[NBUF - 1]] == -1
    ensures taken == held
  {
    hide Ring, Forgets, Room, InUse;
    assert c.BlockOk(k) && c.g.refs[k] == 0;
    assert c.g.slot[k] in c.g.order;
    ghost var p: nat :| p < NBUF && c.g.order[p] == c.g.slot[k];
    var i: nat := 0;
    while i < NBUF - 1
      invariant i <= NBUF - 1 && c.Valid() && c.Safe() && Idle(c, k) && c.hw == old(c.hw) && |c.g.order| == NBUF
      invariant i <= p < NBUF && c.g.order[p] == c.g.slot[k]
      invariant forall j :: i <= j < NBUF ==> c.g.slot[xs[j]] == -1
    {
      ReadAnother(c, k, xs[i], p);
      p, i := Later(p), i + 1;
    }
    held, taken := HoldAndLook(c, k);
  }
}
