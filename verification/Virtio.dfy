/** The disk driver's request ring (kernel/virtio_disk.c): three descriptors to a request, an array of
    requests for the device, and one of those it has finished. */
module Virtio {
  import opened Common

  const NUM: nat := 8
  const U16: nat := 65536

  /** What a descriptor points to: a request header, the data of buffer b, or a status byte. */
  datatype Addr = Null | Header(write: bool, sector: nat) | Data(b: nat) | Status(i: nat)

  /** flags: VRING_DESC_F_NEXT and VRING_DESC_F_WRITE. */
  datatype Desc = Desc(addr: Addr, more: bool, writes: bool, next: nat)

  /** disk.info[i]; buffer numbers start at 1. */
  datatype Info = Info(b: nat, status: nat)

  /** The memory that driver and device share, the driver's own, and b->disk for every buffer. */
  datatype Rings = Rings(free: seq<bool>, desc: seq<Desc>, avail: seq<nat>, availIdx: nat, used: seq<nat>, usedId: nat,
                         usedIdx: nat, info: seq<Info>, busy: map<nat, bool>)

  /** Where a request is: waiting for the device, with it, finished by it, or seen to be so. */
  datatype Phase = Queued | Taken | Finished | Seen

  datatype Req = Req(b: nat, write: bool, sector: nat, d1: nat, d2: nat, phase: Phase)

  /** The requests by their first descriptor, the request each descriptor is part of, how far the device has
      come, and what waits in the two rings. */
  datatype Book = Book(reqs: map<nat, Req>, own: map<nat, nat>, devIdx: nat, queued: seq<nat>, done: seq<nat>)

  function Chain(i: nat, r: Req): set<nat> { {i, r.d1, r.d2} }

  /** Entries start, start + 1, ... of a ring are q. */
  ghost predicate RingIs(ring: seq<nat>, start: nat, q: seq<nat>) {
    |ring| == NUM && |q| < NUM && forall k: nat {:trigger q[k]} :: k < |q| ==> ring[(start + k) % NUM] == q[k]
  }

  /** Request r is laid out from descriptor i on. */
  ghost predicate ReqOk(k: Rings, g: Book, i: nat, r: Req)
    requires |k.free| == |k.desc| == |k.info| == NUM
  {
    && i < NUM && r.d1 < NUM && r.d2 < NUM && i != r.d1 && i != r.d2 && r.d1 != r.d2
    && (forall d :: d in Chain(i, r) ==> d in g.own && g.own[d] == i)
    && k.desc[i] == Desc(Header(r.write, r.sector), true, false, r.d1)
    && k.desc[r.d1] == Desc(Data(r.b), true, !r.write, r.d2)
    && k.desc[r.d2] == Desc(Status(i), false, true, 0)
    && k.info[i].b == r.b && r.b > 0 && r.b in k.busy && (k.busy[r.b] <==> r.phase != Seen)
    && (r.phase == Queued <==> i in g.queued) && (r.phase == Finished <==> i in g.done)
  }

  ghost predicate Shape(k: Rings) {
    |k.free| == |k.desc| == |k.info| == |k.avail| == |k.used| == NUM && k.availIdx < U16 && k.usedId < U16
        && k.usedIdx < NUM
  }

  ghost predicate RingsOk(k: Rings, g: Book) {
    && g.devIdx < U16 && RingIs(k.avail, g.devIdx, g.queued) && k.availIdx == (g.devIdx + |g.queued|) % U16
    && RingIs(k.used, k.usedIdx, g.done) && k.usedId % NUM == (k.usedIdx + |g.done|) % NUM
    && Distinct(g.queued) && Distinct(g.done)
    && (forall i :: i in g.queued || i in g.done ==> i in g.reqs)
  }

  ghost predicate ReqsOk(k: Rings, g: Book)
    requires Shape(k)
  {
    forall i: nat {:trigger ReqOk(k, g, i, g.reqs[i])} :: i in g.reqs ==> ReqOk(k, g, i, g.reqs[i])
  }

  /** Descriptors that are not free are part of a request. */
  ghost predicate OwnersOk(free: seq<bool>, g: Book) {
    && |free| == NUM && (forall d: nat {:trigger d in g.own} :: d in g.own <==> d < NUM && !free[d])
    && (forall d: nat {:trigger g.own[d]} :: d in g.own ==>
        g.own[d] in g.reqs && d in Chain(g.own[d], g.reqs[g.own[d]]))
  }

  /** A buffer is in at most one request. */
  ghost predicate BuffersOk(reqs: map<nat, Req>) {
    forall i: nat, j: nat {:trigger reqs[i], reqs[j]} :: i in reqs && j in reqs && i != j ==> reqs[i].b != reqs[j].b
  }

  ghost predicate Ok(k: Rings, g: Book) {
    Shape(k) && RingsOk(k, g) && ReqsOk(k, g) && OwnersOk(k.free, g) && BuffersOk(g.reqs)
  }

  ghost function FreeSet(free: seq<bool>): set<nat> { set d: nat | d < |free| && free[d] }

  /** A chain has three descriptors, in D, and they are its own. */
  ghost predicate ChainIn(own: map<nat, nat>, i: nat, r: Req, D: set<nat>) {
    && i != r.d1 && i != r.d2 && r.d1 != r.d2
    && i in D && r.d1 in D && r.d2 in D
    && i in own && r.d1 in own && r.d2 in own && own[i] == own[r.d1] == own[r.d2] == i
  }

  /** The chains of the requests in S, which make up D. */
  lemma {:induction false} ChainsFill(reqs: map<nat, Req>, own: map<nat, nat>, S: set<nat>, D: set<nat>)
    requires S <= reqs.Keys && forall i {:trigger reqs[i]} :: i in S ==> ChainIn(own, i, reqs[i], D)
    requires forall d {:trigger d in D} :: d in D ==> d in own && own[d] in S && d in Chain(own[d], reqs[own[d]])
    ensures |D| == 3 * |S|
    decreases |S|
  {
    if S == {} {
      assert D == {};
    } else {
      var a := Element(S);
      var r := reqs[a];
      var D' := D - {a} - {r.d1} - {r.d2};
      forall i | i in S - {a} ensures ChainIn(own, i, reqs[i], D') { assert ChainIn(own, i, reqs[i], D); }
      assert ChainIn(own, a, r, D);
      forall d | d in D' ensures d in own && own[d] in S - {a} { assert d in D && (own[d] == a ==> d in Chain(a, r)); }
      ChainsFill(reqs, own, S - {a}, D');
    }
  }

  /** Every descriptor is free or part of one request: three to a request. */
  lemma ThreeEach(k: Rings, g: Book)
    requires Ok(k, g)
    ensures |FreeSet(k.free)| + 3 * |g.reqs.Keys| == NUM
  {
    forall i | i in g.reqs.Keys ensures ChainIn(g.own, i, g.reqs[i], g.own.Keys) {
      var r := g.reqs[i];
      assert ReqOk(k, g, i, g.reqs[i]) && i in Chain(i, r) && r.d1 in Chain(i, r) && r.d2 in Chain(i, r);
    }
    forall d | d in g.own.Keys
        ensures g.own[d] in g.reqs.Keys && d in Chain(g.own[d], g.reqs[g.own[d]]) { var x := g.own[d]; }
    ChainsFill(g.reqs, g.own, g.reqs.Keys, g.own.Keys);
    FreeOrOwned(k.free, g.own.Keys);
  }

  lemma FreeOrOwned(free: seq<bool>, owned: set<nat>)
    requires |free| == NUM && forall d: nat :: d in owned <==> d < NUM && !free[d]
    ensures |FreeSet(free)| + |owned| == NUM
  {
    var f := FreeSet(free);
    assert f + owned == Upto(NUM) && f !! owned;
    assert |f + owned| == |f| + |owned|;
  }

  /** There are never more than two requests at a time. */
  lemma AtMostTwo(k: Rings, g: Book)
    requires Ok(k, g)
    ensures |g.reqs.Keys| <= 2 && (|FreeSet(k.free)| >= 3 <==> |g.reqs.Keys| <= 1)
  {
    ThreeEach(k, g);
  }

  /** So the rings never fill up. */
  lemma {:induction false} ShortQueue(q: seq<nat>, S: set<nat>)
    requires Distinct(q) && forall i :: i in q ==> i in S
    ensures |q| <= |S|
    decreases |q|
  {
    if q != [] {
      var x, rest := q[|q| - 1], q[..|q| - 1];
      forall i | i in rest ensures i in S - {x} { var j :| 0 <= j < |rest| && rest[j] == i; assert q[j] == i; }
      ShortQueue(rest, S - {x});
    }
  }

  /** The interrupt handler's test, which compares positions modulo NUM, is exact. */
  lemma TestIsExact(k: Rings, g: Book)
    requires Ok(k, g)
    ensures k.usedIdx % NUM != k.usedId % NUM <==> g.done != []
    ensures |g.done| <= 2 && |g.queued| <= 2
  {
    AtMostTwo(k, g);
    ShortQueue(g.done, g.reqs.Keys);
    ShortQueue(g.queued, g.reqs.Keys);
  }

  // ---------------------------------------------------------------------------------
  // Steps.

  /** A new request in descriptors i, d1 and d2. */
  function Written(desc: seq<Desc>, i: nat, r: Req): seq<Desc>
    requires i < |desc| && r.d1 < |desc| && r.d2 < |desc|
  {
    desc[i := Desc(Header(r.write, r.sector), true, false, r.d1)]
        [r.d1 := Desc(Data(r.b), true, !r.write, r.d2)]
        [r.d2 := Desc(Status(i), false, true, 0)]
  }

  ghost predicate Unused(k: Rings, i: nat, r: Req) {
    && Shape(k) && i < NUM && r.d1 < NUM && r.d2 < NUM && i != r.d1 && i != r.d2 && r.d1 != r.d2
    && k.free[i] && k.free[r.d1] && k.free[r.d2] && r.b > 0
  }

  function SubmitK(k: Rings, i: nat, r: Req): Rings
    requires |k.desc| == |k.info| == |k.free| == |k.avail| == NUM && i < NUM && r.d1 < NUM && r.d2 < NUM
  {
    k.(free := k.free[i := false][r.d1 := false][r.d2 := false], desc := Written(k.desc, i, r),
       info := k.info[i := Info(r.b, 0)], busy := k.busy[r.b := true],
       avail := k.avail[k.availIdx % NUM := i], availIdx := (k.availIdx + 1) % U16)
  }

  ghost function SubmitG(g: Book, i: nat, r: Req): Book {
    g.(reqs := g.reqs[i := r], own := g.own[i := i][r.d1 := i][r.d2 := i], queued := g.queued + [i])
  }

  lemma NotYet(k: Rings, g: Book, i: nat)
    requires Ok(k, g) && i < NUM && k.free[i]
    ensures i !in g.reqs && i !in g.own && i !in g.queued && i !in g.done
    ensures forall j :: j in g.reqs ==> i !in Chain(j, g.reqs[j])
  {
    forall j | j in g.reqs ensures i !in Chain(j, g.reqs[j]) { assert ReqOk(k, g, j, g.reqs[j]); }
    assert i in g.reqs ==> i in Chain(i, g.reqs[i]);
  }

  lemma RingAppend(ring: seq<nat>, start: nat, q: seq<nat>, pos: nat, x: nat)
    requires RingIs(ring, start, q) && |q| + 1 < NUM && pos == (start + |q|) % NUM
    ensures RingIs(ring[pos := x], start, q + [x])
  {
    forall k: nat | k < |q| + 1 ensures ring[pos := x][(start + k) % NUM] == (q + [x])[k] {
      if k < |q| { var y := q[k]; SamePlace(start + k, start + |q|); }
    }
  }

  /** Positions less than NUM apart are different places. */
  lemma SamePlace(a: nat, b: nat)
    requires a < b < a + NUM
    ensures a % NUM != b % NUM
  {}

  lemma SameShift(a: nat, b: nat, k: nat)
    requires a % NUM == b % NUM
    ensures (a + k) % NUM == (b + k) % NUM
  {
    var qa, qb, r := a / NUM, b / NUM, a % NUM;
    assert a + k == NUM * qa + (r + k) && b + k == NUM * qb + (r + k);
    ModAdd(qa, r + k);
    ModAdd(qb, r + k);
  }

  lemma ModAdd(q: nat, x: nat)
    ensures (NUM * q + x) % NUM == x % NUM
  {}

  lemma RingDrop(ring: seq<nat>, start: nat, q: seq<nat>, start': nat)
    requires RingIs(ring, start, q) && q != [] && start' % NUM == (start + 1) % NUM
    ensures RingIs(ring, start', q[1..]) && ring[start % NUM] == q[0]
  {
    forall k: nat | k < |q| - 1 ensures ring[(start' + k) % NUM] == q[1..][k] {
      var y := q[k + 1];
      SameShift(start', start + 1, k);
    }
  }

  lemma DistinctAppend(q: seq<nat>, x: nat)
    requires Distinct(q) && x !in q
    ensures Distinct(q + [x])
  {}

  lemma SubmitOk(k: Rings, g: Book, i: nat, r: Req)
    requires Ok(k, g) && Unused(k, i, r) && r.phase == Queued && forall j :: j in g.reqs ==> g.reqs[j].b != r.b
    ensures Ok(SubmitK(k, i, r), SubmitG(g, i, r))
  {
    hide RingsOk;
    TestIsExact(k, g);
    NotYet(k, g, i);
    NotYet(k, g, r.d1);
    NotYet(k, g, r.d2);
    SubmitRings(k, g, i, r);
    SubmitOwners(k.free, g, i, r);
    hide OwnersOk, BuffersOk;
    var k', g' := SubmitK(k, i, r), SubmitG(g, i, r);
    forall j: nat | j in g'.reqs ensures ReqOk(k', g', j, g'.reqs[j]) {
      if j == i {
        SubmitNew(k, g, i, r);
      } else {
        assert ReqOk(k, g, j, g.reqs[j]);
        SubmitOther(k, g, i, r, j);
      }
    }
  }

  lemma SubmitOwners(free: seq<bool>, g: Book, i: nat, r: Req)
    requires OwnersOk(free, g) && BuffersOk(g.reqs) && i < NUM && r.d1 < NUM && r.d2 < NUM
    requires i !in g.reqs && i !in g.own && r.d1 !in g.own && r.d2 !in g.own && forall j :: j in g.reqs ==>
               g.reqs[j].b != r.b
    ensures OwnersOk(free[i := false][r.d1 := false][r.d2 := false], SubmitG(g, i, r))
            && BuffersOk(SubmitG(g, i, r).reqs)
  {
    var g' := SubmitG(g, i, r);
    forall d: nat | d in g'.own ensures g'.own[d] in g'.reqs && d in Chain(g'.own[d], g'.reqs[g'.own[d]]) {
      assert d in g.own ==> g.own[d] in g.reqs;
    }
  }

  lemma SubmitNew(k: Rings, g: Book, i: nat, r: Req)
    requires Unused(k, i, r) && r.phase == Queued && i !in g.done
    ensures ReqOk(SubmitK(k, i, r), SubmitG(g, i, r), i, r)
  {
    assert (g.queued + [i])[|g.queued|] == i;
  }

  lemma SubmitRings(k: Rings, g: Book, i: nat, r: Req)
    requires Shape(k) && RingsOk(k, g) && |g.queued| <= 2 && i !in g.queued && i < NUM && r.d1 < NUM && r.d2 < NUM
    ensures RingsOk(SubmitK(k, i, r), SubmitG(g, i, r))
  {
    DistinctAppend(g.queued, i);
    assert k.availIdx % NUM == (g.devIdx + |g.queued|) % NUM;
    RingAppend(k.avail, g.devIdx, g.queued, k.availIdx % NUM, i);
  }

  /** The other requests are as they were. */
  lemma SubmitOther(k: Rings, g: Book, i: nat, r: Req, j: nat)
    requires Shape(k) && Unused(k, i, r) && j in g.reqs && ReqOk(k, g, j, g.reqs[j]) && i != j && g.reqs[j].b != r.b
    requires i !in Chain(j, g.reqs[j]) && r.d1 !in Chain(j, g.reqs[j]) && r.d2 !in Chain(j, g.reqs[j])
    ensures ReqOk(SubmitK(k, i, r), SubmitG(g, i, r), j, g.reqs[j])
  {
    var q := g.reqs[j];
    assert j in Chain(j, q) && q.d1 in Chain(j, q) && q.d2 in Chain(j, q);
  }

  /** A request that only changes its phase, and the rings that go with it. */
  ghost predicate Advances(k: Rings, g: Book, i: nat, phase: Phase, k': Rings, g': Book) {
    && Shape(k) && Shape(k') && i in g.reqs && g'.reqs == g.reqs[i := g.reqs[i].(phase := phase)] && g'.own == g.own
    && k'.free == k.free && k'.desc == k.desc
    && (forall j: nat {:trigger k'.info[j]} :: j < NUM ==> k'.info[j].b == k.info[j].b)
    && g.reqs[i].b in k.busy && k'.busy == k.busy[g.reqs[i].b := phase != Seen]
    && (forall j: nat {:trigger j in g'.queued} {:trigger j in g'.done} ::
          if j == i then (j in g'.queued <==> phase == Queued) && (j in g'.done <==> phase == Finished)
          else (j in g'.queued <==> j in g.queued) && (j in g'.done <==> j in g.done))
  }

  lemma AdvancesOk(k: Rings, g: Book, i: nat, phase: Phase, k': Rings, g': Book)
    requires Ok(k, g) && Advances(k, g, i, phase, k', g') && RingsOk(k', g')
    ensures Ok(k', g')
  {
    AdvancesOwners(k.free, g, i, phase, g');
    forall j: nat | j in g'.reqs ensures ReqOk(k', g', j, g'.reqs[j]) {
      assert ReqOk(k, g, j, g.reqs[j]) && (j != i ==> g.reqs[j].b != g.reqs[i].b);
      AdvancesReq(k, g, i, phase, k', g', j);
    }
  }

  lemma AdvancesOwners(free: seq<bool>, g: Book, i: nat, phase: Phase, g': Book)
    requires OwnersOk(free, g) && BuffersOk(g.reqs) && i in g.reqs && g'.own == g.own
    requires g'.reqs == g.reqs[i := g.reqs[i].(phase := phase)]
    ensures OwnersOk(free, g') && BuffersOk(g'.reqs)
  {
    forall d: nat | d in g'.own
        ensures g'.own[d] in g'.reqs && d in Chain(g'.own[d], g'.reqs[g'.own[d]]) { var x := g.own[d]; }
    forall a: nat, b: nat | a in g'.reqs && b in g'.reqs && a != b ensures g'.reqs[a].b != g'.reqs[b].b {
      var x, y := g.reqs[a], g.reqs[b];
    }
  }

  lemma AdvancesReq(k: Rings, g: Book, i: nat, phase: Phase, k': Rings, g': Book, j: nat)
    requires Advances(k, g, i, phase, k', g') && j in g.reqs && ReqOk(k, g, j, g.reqs[j])
    requires j != i ==> g.reqs[j].b != g.reqs[i].b
    ensures ReqOk(k', g', j, g'.reqs[j])
  {
    assert j in g'.queued || j !in g'.queued;
    var x := k'.info[j];
  }

  ghost function TakeG(g: Book, i: nat): Book
    requires i in g.reqs && g.queued != []
  {
    g.(reqs := g.reqs[i := g.reqs[i].(phase := Taken)], devIdx := (g.devIdx + 1) % U16, queued := g.queued[1..])
  }

  lemma HeadAndTail(q: seq<nat>, j: nat)
    requires q != [] && Distinct(q)
    ensures Distinct(q[1..]) && (j in q[1..] <==> j in q && j != q[0])
  {
    if j in q && j != q[0] { var m :| 0 <= m < |q| && q[m] == j; assert q[1..][m - 1] == j; }
  }

  lemma TakeOk(k: Rings, g: Book, i: nat)
    requires Ok(k, g) && g.queued != [] && i == g.queued[0]
    ensures k.avail[g.devIdx % NUM] == i && i in g.reqs && g.reqs[i].phase == Queued && Ok(k, TakeG(g, i))
  {
    assert i in g.queued && ReqOk(k, g, i, g.reqs[i]);
    var g' := TakeG(g, i);
    RingDrop(k.avail, g.devIdx, g.queued, g'.devIdx);
    forall j: nat ensures j in g'.queued <==> j in g.queued && j != i { HeadAndTail(g.queued, j); }
    HeadAndTail(g.queued, i);
    assert k.busy[g.reqs[i].b := true] == k.busy;
    assert i !in g.done;
    AdvancesOk(k, g, i, Taken, k, g');
  }

  function CompleteK(k: Rings, i: nat, status: nat): Rings
    requires |k.info| == |k.used| == NUM && i < NUM
  {
    k.(info := k.info[i := k.info[i].(status := status)], used := k.used[k.usedId % NUM := i],
        usedId := (k.usedId + 1) % U16)
  }

  ghost function CompleteG(g: Book, i: nat): Book
    requires i in g.reqs
  {
    g.(reqs := g.reqs[i := g.reqs[i].(phase := Finished)], done := g.done + [i])
  }

  lemma CompleteOk(k: Rings, g: Book, i: nat, status: nat)
    requires Ok(k, g) && i in g.reqs && g.reqs[i].phase == Taken
    ensures i < NUM && Ok(CompleteK(k, i, status), CompleteG(g, i))
  {
    hide OwnersOk, BuffersOk;
    assert ReqOk(k, g, i, g.reqs[i]);
    TestIsExact(k, g);
    CompleteRings(k, g, i, status);
    hide RingsOk;
    assert k.busy[g.reqs[i].b := true] == k.busy;
    AdvancesOk(k, g, i, Finished, CompleteK(k, i, status), CompleteG(g, i));
  }

  lemma CompleteRings(k: Rings, g: Book, i: nat, status: nat)
    requires Shape(k) && RingsOk(k, g) && i < NUM && i in g.reqs && i !in g.done && |g.done| < NUM - 1
    ensures RingsOk(CompleteK(k, i, status), CompleteG(g, i))
  {
    DistinctAppend(g.done, i);
    RingAppend(k.used, k.usedIdx, g.done, k.usedId % NUM, i);
    assert CompleteK(k, i, status).usedId % NUM == (k.usedId + 1) % NUM;
    SameShift(k.usedId, k.usedIdx + |g.done|, 1);
  }

  function SeeK(k: Rings): Rings
    requires Shape(k) && k.used[k.usedIdx] < NUM
  {
    k.(busy := k.busy[k.info[k.used[k.usedIdx]].b := false], usedIdx := (k.usedIdx + 1) % NUM)
  }

  ghost function SeeG(g: Book, i: nat): Book
    requires i in g.reqs && g.done != []
  {
    g.(reqs := g.reqs[i := g.reqs[i].(phase := Seen)], done := g.done[1..])
  }

  /** What the handler finds in the ring is the first descriptor of the next finished request, and the
      buffer it releases is that of the request. */
  lemma SeeOk(k: Rings, g: Book, i: nat)
    requires Ok(k, g) && g.done != [] && i == g.done[0]
    ensures Shape(k) && k.used[k.usedIdx] == i < NUM && i in g.reqs && k.info[i].b == g.reqs[i].b
            && g.reqs[i].b in k.busy
    ensures Ok(SeeK(k), SeeG(g, i))
  {
    hide OwnersOk, BuffersOk;
    assert i in g.done && ReqOk(k, g, i, g.reqs[i]);
    assert i !in g.queued;
    SeeRings(k, g, i);
    forall j: nat ensures j in SeeG(g, i).done <==> j in g.done && j != i { HeadAndTail(g.done, j); }
    hide RingsOk;
    AdvancesOk(k, g, i, Seen, SeeK(k), SeeG(g, i));
  }

  lemma SeeRings(k: Rings, g: Book, i: nat)
    requires Shape(k) && RingsOk(k, g) && g.done != [] && i == g.done[0] < NUM
    ensures k.used[k.usedIdx] == i && i in g.reqs && RingsOk(SeeK(k), SeeG(g, i))
  {
    var k' := (k.usedIdx + 1) % NUM;
    assert i in g.done;
    RingDrop(k.used, k.usedIdx, g.done, k');
    forall j: nat ensures j in g.done[1..] ==> j in g.done { HeadAndTail(g.done, j); }
    HeadAndTail(g.done, i);
    SameShift(k.usedIdx + 1, k', |g.done| - 1);
  }

  function Cleared(desc: seq<Desc>, d: nat): seq<Desc>
    requires d < |desc|
  {
    desc[d := desc[d].(addr := Null)]
  }

  function FinishK(k: Rings, i: nat, r: Req): Rings
    requires |k.desc| == |k.info| == |k.free| == NUM && i < NUM && r.d1 < NUM && r.d2 < NUM
  {
    k.(free := k.free[i := true][r.d1 := true][r.d2 := true], info := k.info[i := k.info[i].(b := 0)],
       desc := Cleared(Cleared(Cleared(k.desc, i), r.d1), r.d2))
  }

  ghost function FinishG(g: Book, i: nat, r: Req): Book {
    g.(reqs := g.reqs - {i}, own := g.own - Chain(i, r))
  }

  lemma FinishOk(k: Rings, g: Book, i: nat)
    requires Ok(k, g) && i in g.reqs && g.reqs[i].phase == Seen
    ensures i < NUM && g.reqs[i].d1 < NUM && g.reqs[i].d2 < NUM
            && Ok(FinishK(k, i, g.reqs[i]), FinishG(g, i, g.reqs[i]))
  {
    var r := g.reqs[i];
    assert ReqOk(k, g, i, g.reqs[i]);
    var k', g' := FinishK(k, i, r), FinishG(g, i, r);
    FinishOwners(k.free, g, i, r);
    forall j: nat | j in g'.reqs ensures ReqOk(k', g', j, g'.reqs[j]) {
      assert ReqOk(k, g, j, g.reqs[j]);
      FinishOther(k, g, i, r, j);
    }
  }

  lemma FinishOwners(free: seq<bool>, g: Book, i: nat, r: Req)
    requires OwnersOk(free, g) && BuffersOk(g.reqs) && i < NUM && r.d1 < NUM && r.d2 < NUM && i in g.reqs
             && g.reqs[i] == r
    requires forall d :: d in Chain(i, r) ==> d in g.own && g.own[d] == i
    ensures OwnersOk(free[i := true][r.d1 := true][r.d2 := true], FinishG(g, i, r)) && BuffersOk(FinishG(g, i, r).reqs)
  {
    var g' := FinishG(g, i, r);
    forall d: nat | d in g'.own ensures g'.own[d] in g'.reqs && d in Chain(g'.own[d], g'.reqs[g'.own[d]]) {
      var x := g.own[d];
    }
    forall a: nat, b: nat | a in g'.reqs && b in g'.reqs && a != b ensures g'.reqs[a].b != g'.reqs[b].b {
      var x, y := g.reqs[a], g.reqs[b];
    }
  }

  lemma FinishOther(k: Rings, g: Book, i: nat, r: Req, j: nat)
    requires Shape(k) && i in g.reqs && g.reqs[i] == r && j in g.reqs && i != j && ReqOk(k, g, i, r)
             && ReqOk(k, g, j, g.reqs[j])
    ensures ReqOk(FinishK(k, i, r), FinishG(g, i, r), j, g.reqs[j])
  {
    var q := g.reqs[j];
    assert i in Chain(i, r) && r.d1 in Chain(i, r) && r.d2 in Chain(i, r);
    assert j in Chain(j, q) && q.d1 in Chain(j, q) && q.d2 in Chain(j, q);
  }

  // ---------------------------------------------------------------------------------
  // The driver, and the device as it sees it.

  /** What the device learns by following at most n descriptors from i on, as long as their flags say that there
      are more: where each points to, and whether the device is to write there. */
  function Decode(desc: seq<Desc>, i: nat, n: nat): seq<(Addr, bool)>
    decreases n
  {
    if i >= |desc| || n == 0 then []
    else [(desc[i].addr, desc[i].writes)] + if desc[i].more then Decode(desc, desc[i].next, n - 1) else []
  }

  lemma DecodeIs(k: Rings, g: Book, i: nat)
    requires Shape(k) && i in g.reqs && ReqOk(k, g, i, g.reqs[i])
    ensures var r := g.reqs[i];
            Decode(k.desc, i, NUM) == [(Header(r.write, r.sector), false), (Data(r.b), !r.write), (Status(i), true)]
  {
    var r := g.reqs[i];
    assert Decode(k.desc, r.d2, 6) == [(Status(i), true)];
    assert Decode(k.desc, r.d1, 7) == [(Data(r.b), !r.write), (Status(i), true)];
  }

  /** The same but for the addresses of free descriptors. */
  ghost predicate SameButFree(k: Rings, k': Rings) {
    && Shape(k) && Shape(k') && k' == k.(desc := k'.desc)
    && forall d: nat {:trigger k'.desc[d]} :: d < NUM ==>
        k'.desc[d] == k.desc[d] || (k.free[d] && k'.desc[d] == k.desc[d].(addr := Null))
  }

  lemma SameButFreeOk(k: Rings, g: Book, k': Rings)
    requires Ok(k, g) && SameButFree(k, k')
    ensures Ok(k', g)
  {
    forall j: nat | j in g.reqs ensures ReqOk(k', g, j, g.reqs[j]) {
      var r := g.reqs[j];
      assert ReqOk(k, g, j, g.reqs[j]) && j in Chain(j, r) && r.d1 in Chain(j, r) && r.d2 in Chain(j, r);
      var a, b, c := k'.desc[j], k'.desc[r.d1], k'.desc[r.d2];
    }
  }

  class Driver {
    var k: Rings
    var devIdx: nat              // how many requests the device has taken
    ghost var g: Book

    ghost predicate Valid()
      reads this
    {
      Ok(k, g) == true && devIdx == g.devIdx
    }

    /** virtio_disk_init, with no request yet for any of the buffers. */
    constructor (bufs: set<nat>)
      ensures Valid() && g.reqs == map[] && k.busy.Keys == bufs && forall b :: b in bufs ==> !k.busy[b]
    {
      k := Rings(seq(NUM, _ => true), seq(NUM, _ => Desc(Null, false, false, 0)), seq(NUM, _ => 0), 0,
          seq(NUM, _ => 0), 0, 0,
                 seq(NUM, _ => Info(0, 0)), map b | b in bufs :: false);
      devIdx, g := 0, Book(map[], map[], 0, [], []);
    }

    /** alloc_desc */
    method AllocDesc() returns (i: int)
      requires Shape(k)
      modifies this`k
      ensures -1 <= i < NUM && (i == -1 <==> FreeSet(old(k.free)) == {})
      ensures i == -1 ==> k == old(k)
      ensures i >= 0 ==> old(k.free)[i] && k == old(k).(free := old(k.free)[i := false])
    {
      var d: nat := 0;
      while d < NUM
        invariant d <= NUM && forall c: nat {:trigger k.free[c]} :: c < d ==> !k.free[c]
      {
        if k.free[d] {
          assert d in FreeSet(k.free);
          k := k.(free := k.free[d := false]);
          return d;
        }
        d := d + 1;
      }
      i := -1;
    }

    /** free_desc; neither of its panics can be. */
    method FreeDesc(i: nat)
      requires Shape(k) && i < NUM && !k.free[i]
      modifies this`k
      ensures k == old(k).(desc := Cleared(old(k.desc), i), free := old(k.free)[i := true])
    {
      k := k.(desc := Cleared(k.desc, i));
      k := k.(free := k.free[i := true]);
    }

    /** alloc3_desc: three free descriptors, if there are so many. */
    method Alloc3() returns (ok: bool, i0: nat, i1: nat, i2: nat)
      requires Shape(k)
      modifies this`k
      ensures Shape(k) && (ok <==> |FreeSet(old(k.free))| >= 3)
      ensures !ok ==> SameButFree(old(k), k)
      ensures ok ==> i0 < NUM && i1 < NUM && i2 < NUM && i0 != i1 && i0 != i2 && i1 != i2
                     && old(k.free)[i0] && old(k.free)[i1] && old(k.free)[i2]
                     && k == old(k).(free := old(k.free)[i0 := false][i1 := false][i2 := false])
    {
      ok, i0, i1, i2 := false, 0, 0, 0;
      ghost var free := k.free;
      var a := AllocDesc();
      if a < 0 { return; }
      FreeLess(free, a);
      ghost var free1 := k.free;
      var b := AllocDesc();
      if b < 0 {
        FreeDesc(a);
        return;
      }
      FreeLess(free1, b);
      var c := AllocDesc();
      if c < 0 {
        FreeDesc(a);
        FreeDesc(b);
        return;
      }
      ok, i0, i1, i2 := true, a, b, c;
      FreeThree(free, a, b, c);
    }

    /** virtio_disk_rw up to where it waits for the device. Without three free descriptors it has to sleep
        and try again. */
    method Submit(b: nat, blockno: nat, write: bool) returns (ok: bool, i: nat)
      requires Valid() && b > 0 && b in k.busy && !k.busy[b] && forall j :: j in g.reqs ==> g.reqs[j].b != b
      modifies this
      ensures Valid() && (ok <==> |FreeSet(old(k.free))| >= 3)
      ensures !ok ==> g == old(g) && SameButFree(old(k), k)
      ensures ok ==>
                i !in old(g.reqs) && i in g.reqs
                    && g.reqs[i] == Req(b, write, 2 * blockno, g.reqs[i].d1, g.reqs[i].d2, Queued)
      ensures ok ==>
                g.reqs == old(g.reqs)[i := g.reqs[i]] && g.queued == old(g.queued) + [i] && g.done == old(g.done)
                    && k.busy == old(k.busy)[b := true]
    {
      hide RingsOk, ReqsOk, OwnersOk, BuffersOk;
      ghost var k0 := k;
      var d1, d2;
      ok, i, d1, d2 := Alloc3();
      if !ok {
        SameButFreeOk(k0, g, k);
        return;
      }
      ghost var r := Req(b, write, 2 * blockno, d1, d2, Queued);
      NotYet(k0, g, i);
      SubmitOk(k0, g, i, r);
      k := k.(desc := k.desc[i := Desc(Header(write, 2 * blockno), true, false, d1)]);
      k := k.(desc := k.desc[d1 := Desc(Data(b), true, !write, d2)]);
      k := k.(info := k.info[i := k.info[i].(status := 0)]);
      k := k.(desc := k.desc[d2 := Desc(Status(i), false, true, 0)]);
      k := k.(busy := k.busy[b := true]);
      k := k.(info := k.info[i := k.info[i].(b := b)]);
      k := k.(avail := k.avail[k.availIdx % NUM := i]);
      k := k.(availIdx := (k.availIdx + 1) % U16);
      assert k == SubmitK(k0, i, r);
      g := SubmitG(g, i, r);
    }

    /** The device takes the next request: the oldest it has not taken, and just what was asked for. It reads the
        header, reads the buffer for a write and writes it for a read, and writes the status. */
    method DeviceTake() returns (i: nat, parts: seq<(Addr, bool)>)
      requires Valid() && g.queued != []
      modifies this`g, this`devIdx
      ensures Valid() && i == old(g.queued)[0] && i in old(g.reqs) && g == TakeG(old(g), i)
      ensures var r := old(g.reqs)[i];
              parts == [(Header(r.write, r.sector), false), (Data(r.b), !r.write), (Status(i), true)]
    {
      TakeOk(k, g, g.queued[0]);
      i := k.avail[devIdx % NUM];
      assert ReqOk(k, g, i, g.reqs[i]);
      DecodeIs(k, g, i);
      parts := Decode(k.desc, i, NUM);
      g := TakeG(g, i);
      devIdx := (devIdx + 1) % U16;
    }

    /** The device finishes a request it has taken, in whatever order. */
    method DeviceFinish(i: nat, status: nat)
      requires Valid() && i in g.reqs && g.reqs[i].phase == Taken
      modifies this`k, this`g
      ensures Valid() && g == CompleteG(old(g), i) && i < |old(k.info)|
              && k.info == old(k.info)[i := old(k.info)[i].(status := status)] && k.busy == old(k.busy)
    {
      CompleteOk(k, g, i, status);
      k := CompleteK(k, i, status);
      g := CompleteG(g, i);
    }

    /** virtio_disk_intr: every request that the device has finished, and no other, is seen to be so, and
        its buffer released. halted: the device has reported an error, and the kernel panics. */
    method Intr() returns (halted: bool)
      requires Valid()
      modifies this`k, this`g
      ensures halted <==> exists m: nat {:trigger old(g.done)[m]} ::
                m < |old(g.done)| && Failed(old(k.info), old(g.done)[m])
      ensures !halted ==>
                Valid() && g.done == [] && g.queued == old(g.queued) && SeenAll(old(g.reqs), old(g.done), g.reqs)
      ensures !halted ==> Released(old(k.busy), old(g.reqs), old(g.done), k.busy)
    {
      hide Ok, SeenAll, Released;
      ghost var reqs0, done0, info0, busy0 := g.reqs, g.done, k.info, k.busy;
      ghost var n: nat := 0;
      halted := false;
      TestIsExact(k, g);
      SeenNone(reqs0, busy0);
      assert done0[..0] == [];
      while k.usedIdx % NUM != k.usedId % NUM
        invariant Valid() && n <= |done0| && g.done == done0[n..] && k.info == info0 && g.queued == old(g.queued)
        invariant k.usedIdx % NUM != k.usedId % NUM <==> g.done != []
        invariant SeenAll(reqs0, done0[..n], g.reqs) && Released(busy0, reqs0, done0[..n], k.busy)
        invariant forall m: nat {:trigger done0[m]} :: m < n ==> !Failed(info0, done0[m])
        decreases |g.done|
      {
        SeeOk(k, g, g.done[0]);
        var id := k.used[k.usedIdx];
        if k.info[id].status != 0 { return true; }
        SeenOne(reqs0, busy0, done0, n, g.reqs, k.busy, id);
        g := SeeG(g, id);
        k := SeeK(k);
        n := n + 1;
        TestIsExact(k, g);
      }
      assert done0[..n] == done0;
    }

    /** The end of virtio_disk_rw, once the buffer is released. */
    method Finish(i: nat)
      requires Valid() && i in g.reqs && g.reqs[i].phase == Seen
      modifies this`k, this`g
      ensures Valid() && g == FinishG(old(g), i, old(g.reqs)[i]) && k.busy == old(k.busy)
      ensures FreeSet(k.free) == FreeSet(old(k.free)) + Chain(i, old(g.reqs)[i])
    {
      ghost var r, k0 := g.reqs[i], k;
      FinishOk(k, g, i);
      assert ReqOk(k, g, i, g.reqs[i]);
      k := k.(info := k.info[i := k.info[i].(b := 0)]);
      FreeChain(i, r);
      assert k == FinishK(k0, i, r);
      g := FinishG(g, i, r);
    }

    /** free_chain, of a chain of three. */
    method FreeChain(i: nat, ghost r: Req)
      requires Shape(k) && i < NUM && r.d1 < NUM && r.d2 < NUM && i != r.d1 && i != r.d2 && r.d1 != r.d2
      requires !k.free[i] && !k.free[r.d1] && !k.free[r.d2]
      requires k.desc[i].more && k.desc[i].next == r.d1 && k.desc[r.d1].more && k.desc[r.d1].next == r.d2
               && !k.desc[r.d2].more
      modifies this`k
      ensures k == old(k).(free := old(k.free)[i := true][r.d1 := true][r.d2 := true],
                           desc := Cleared(Cleared(Cleared(old(k.desc), i), r.d1), r.d2))
    {
      var d := i;
      ghost var n: nat := 0;
      ghost var k0 := k;
      while true
        invariant n <= 2 && d == if n == 0 then i else if n == 1 then r.d1 else r.d2
        invariant k == if n == 0 then k0
                       else if n == 1 then k0.(free := k0.free[i := true], desc := Cleared(k0.desc, i))
                       else k0.(free := k0.free[i := true][r.d1 := true], desc := Cleared(Cleared(k0.desc, i), r.d1))
        decreases 2 - n
      {
        FreeDesc(d);
        if !k.desc[d].more { break; }
        d := k.desc[d].next;
        n := n + 1;
      }
    }
  }

  predicate Failed(info: seq<Info>, i: nat) { i < |info| && info[i].status != 0 }

  /** The requests in ids, and no others, have been seen to be finished. */
  ghost predicate SeenAll(reqs: map<nat, Req>, ids: seq<nat>, reqs': map<nat, Req>) {
    && reqs'.Keys == reqs.Keys
    && forall i: nat {:trigger reqs'[i]} :: i in reqs ==> reqs'[i] == if i in ids then reqs[i].(phase := Seen)
        else reqs[i]
  }

  /** Their buffers, and no others, have been released. */
  ghost predicate Released(busy: map<nat, bool>, reqs: map<nat, Req>, ids: seq<nat>, busy': map<nat, bool>) {
    && busy'.Keys == busy.Keys
    && forall b: nat {:trigger busy'[b]} :: b in busy ==>
         (busy'[b] <==> busy[b] && forall m: nat {:trigger ids[m]} :: m < |ids| && ids[m] in reqs ==>
             reqs[ids[m]].b != b)
  }

  lemma SeenNone(reqs: map<nat, Req>, busy: map<nat, bool>)
    ensures SeenAll(reqs, [], reqs) && Released(busy, reqs, [], busy)
  {}

  lemma SeenOne(reqs0: map<nat, Req>, busy0: map<nat, bool>, done: seq<nat>, n: nat, reqs: map<nat, Req>,
                busy: map<nat, bool>, i: nat)
    requires n < |done| && i == done[n] && i in reqs && SeenAll(reqs0, done[..n], reqs)
             && Released(busy0, reqs0, done[..n], busy)
    requires reqs[i].b in busy
    ensures SeenAll(reqs0, done[..n + 1], reqs[i := reqs[i].(phase := Seen)])
    ensures Released(busy0, reqs0, done[..n + 1], busy[reqs[i].b := false])
  {
    var ids := done[..n + 1];
    assert ids == done[..n] + [i] && ids[n] == i;
    forall m: nat | m < n ensures ids[m] == done[..n][m] {}
  }

  lemma FreeLess(free: seq<bool>, a: nat)
    requires a < |free| && free[a]
    ensures FreeSet(free[a := false]) == FreeSet(free) - {a} && |FreeSet(free[a := false])| == |FreeSet(free)| - 1
  {
    assert a in FreeSet(free);
  }

  lemma FreeThree(free: seq<bool>, a: nat, b: nat, c: nat)
    requires a < |free| && b < |free| && c < |free| && a != b && a != c && b != c && free[a] && free[b] && free[c]
    ensures |FreeSet(free)| >= 3
  {
    FreeLess(free, a);
    FreeLess(free[a := false], b);
    FreeLess(free[a := false][b := false], c);
  }
}
