/** The free list of the user-level allocator (user/umalloc.c): a circular list in address order. Addresses
    count headers, of 16 bytes each. */
module FreeList {

  /** The headers: p->s.ptr and p->s.size. */
  datatype Headers = Headers(ptr: map<nat, nat>, size: map<nat, nat>)

  /** The bookkeeping: the free blocks, from `base` on, in the order of the list; the blocks in use; and
      for every header-sized unit the block it is part of. */
  datatype Book = Book(list: seq<nat>, used: set<nat>, own: map<nat, nat>)

  /** Where the list leads from its i-th block. */
  function After(list: seq<nat>, i: nat): nat
    requires i < |list|
  {
    if i + 1 < |list| then list[i + 1] else list[0]
  }

  ghost predicate Ordered(list: seq<nat>) {
    forall i: nat, j: nat {:trigger list[i], list[j]} :: i < j < |list| ==> list[i] < list[j]
  }

  ghost predicate LinkOk(h: Headers, list: seq<nat>, i: nat) {
    i < |list| ==>
      list[i] in h.ptr && list[i] in h.size && h.ptr[list[i]] == After(list, i) && (i > 0 ==> h.size[list[i]] > 0)
  }

  ghost predicate Linked(h: Headers, list: seq<nat>) {
    forall i: nat {:trigger LinkOk(h, list, i)} :: LinkOk(h, list, i)
  }

  /** A block, free or in use, other than the first of the list. */
  predicate Block(g: Book, a: nat) {
    a in g.used || (a in g.list && a != g.list[0])
  }

  /** Unit u is part of the block that it is said to be part of. */
  ghost predicate Inside(h: Headers, g: Book, u: nat) {
    u in g.own ==> Block(g, g.own[u]) && g.own[u] in h.size && g.own[u] <= u < g.own[u] + h.size[g.own[u]]
  }

  /** If u is one of the size[a] units from block a on, it is said to be part of a. */
  ghost predicate Covers(h: Headers, g: Book, a: nat, u: nat) {
    Block(g, a) && a in h.size && a <= u < a + h.size[a] ==> u in g.own && g.own[u] == a
  }

  /** Every block is made of its units, and of no others. */
  ghost predicate OwnOk(h: Headers, g: Book) {
    && (forall u: nat {:trigger Inside(h, g, u)} :: Inside(h, g, u))
    && (forall a: nat, u: nat {:trigger Covers(h, g, a, u)} :: Covers(h, g, a, u))
  }

  ghost predicate Sound(h: Headers, g: Book) {
    && g.list != [] && Ordered(g.list) && Linked(h, g.list) && g.list[0] in h.size && h.size[g.list[0]] == 0
    && (forall a :: a in g.used ==> a in h.size && h.size[a] > 0 && a > g.list[0] && a !in g.list)
    && OwnOk(h, g)
  }

  /** No two free blocks touch. */
  ghost predicate Coalesced(h: Headers, list: seq<nat>) {
    forall i: nat {:trigger Gap(h, list, i)} :: Gap(h, list, i)
  }

  predicate Gap(h: Headers, list: seq<nat>, i: nat) {
    0 < i && i + 1 < |list| && list[i] in h.size ==> list[i] + h.size[list[i]] < list[i + 1]
  }

  /** The place of an address in the list: the last block below it. */
  predicate PlaceOf(list: seq<nat>, a: nat, i: nat) {
    i < |list| && list[i] < a && (i + 1 < |list| ==> a < list[i + 1])
  }

  lemma {:induction false} FindPlace(list: seq<nat>, a: nat) returns (i: nat)
    requires list != [] && Ordered(list) && list[0] < a && a !in list
    ensures PlaceOf(list, a, i)
    ensures forall j: nat {:trigger list[j]} :: j < |list| ==> (list[j] < a <==> j <= i)
  {
    i := |list| - 1;
    while list[i] > a
      invariant i < |list| && (i + 1 < |list| ==> a < list[i + 1])
    {
      assert list[0] < a;
      i := i - 1;
    }
    assert list[i] in list;
  }

  // ---------------------------------------------------------------------------------
  // Putting a block back.

  function Inserted(list: seq<nat>, i: nat, a: nat): (r: seq<nat>)
    requires i < |list|
    ensures |r| == |list| + 1
    ensures forall j: nat {:trigger r[j]} :: j < |r| ==> r[j] == if j <= i then list[j] else if j == i + 1 then a
            else list[j - 1]
  {
    list[..i + 1] + [a] + list[i + 1..]
  }

  /** Block a, until now in use, linked in after the i-th free one. */
  function InsertH(h: Headers, list: seq<nat>, i: nat, a: nat): Headers
    requires i < |list|
  {
    h.(ptr := h.ptr[a := After(list, i)][list[i] := a])
  }

  function InsertG(g: Book, i: nat, a: nat): Book
    requires i < |g.list|
  {
    g.(list := Inserted(g.list, i, a), used := g.used - {a})
  }

  lemma InsertMembers(list: seq<nat>, i: nat, a: nat, x: nat)
    requires i < |list|
    ensures x in Inserted(list, i, a) <==> x in list || x == a
  {
    var r := Inserted(list, i, a);
    assert r[i + 1] == a;
    forall j: nat | j < |list| ensures list[j] in r { assert r[if j <= i then j else j + 1] == list[j]; }
  }

  lemma InsertLinked(h: Headers, list: seq<nat>, i: nat, a: nat)
    requires list != [] && Ordered(list) && Linked(h, list) && PlaceOf(list, a, i) && a !in list && a in h.size
             && h.size[a] > 0
    ensures Linked(InsertH(h, list, i, a), Inserted(list, i, a))
  {
    var h', list' := InsertH(h, list, i, a), Inserted(list, i, a);
    forall j: nat ensures LinkOk(h', list', j) {
      var j0 := if j <= i then j else j - 1;
      assert LinkOk(h, list, j0) && LinkOk(h, list, i);
      if j < |list'| && j != i + 1 { var x, y := list[j0], list[i]; }
      if j + 1 < |list'| { var z := list'[j + 1]; }
    }
  }

  /** Soundness depends on the blocks and their sizes, however they are linked. */
  lemma SameBlocks(h: Headers, g: Book, h': Headers, g': Book)
    requires OwnOk(h, g) && h'.size == h.size && g'.own == g.own
    requires forall x {:trigger Block(g', x)} {:trigger Block(g, x)} :: Block(g', x) <==> Block(g, x)
    ensures OwnOk(h', g')
  {
    hide Block;
    forall u: nat ensures Inside(h', g', u) { assert Inside(h, g, u); }
    forall a: nat, u: nat ensures Covers(h', g', a, u) { assert Covers(h, g, a, u); }
  }

  lemma InsertSound(h: Headers, g: Book, i: nat, a: nat)
    requires Sound(h, g) && a in g.used && PlaceOf(g.list, a, i)
    ensures Sound(InsertH(h, g.list, i, a), InsertG(g, i, a))
  {
    var h', g' := InsertH(h, g.list, i, a), InsertG(g, i, a);
    InsertOrdered(g.list, i, a);
    InsertLinked(h, g.list, i, a);
    forall x ensures Block(g', x) <==> Block(g, x) { InsertMembers(g.list, i, a, x); }
    forall x | x in g'.used ensures x !in g'.list { InsertMembers(g.list, i, a, x); }
    hide OwnOk, Linked, Ordered;
    SameBlocks(h, g, h', g');
  }

  lemma InsertOrdered(list: seq<nat>, i: nat, a: nat)
    requires Ordered(list) && PlaceOf(list, a, i)
    ensures Ordered(Inserted(list, i, a))
  {
    var r := Inserted(list, i, a);
    forall x: nat, y: nat | x < y < |r| ensures r[x] < r[y] {
      var x', y' := if x <= i then x else x - 1, if y <= i then y else y - 1;
      assert x' < y' ==> list[x'] < list[y'];
      assert x' < i ==> list[x'] < list[i];
      assert i + 1 < y' ==> list[i + 1] < list[y'];
    }
  }

  // ---------------------------------------------------------------------------------
  // Taking a block out of the list.

  function Removed(list: seq<nat>, j: nat): (r: seq<nat>)
    requires j < |list|
    ensures |r| == |list| - 1
    ensures forall k: nat {:trigger r[k]} :: k < |r| ==> r[k] == if k < j then list[k] else list[k + 1]
  {
    list[..j] + list[j + 1..]
  }

  lemma RemovedMembers(list: seq<nat>, j: nat, x: nat)
    requires j < |list| && Ordered(list)
    ensures x in Removed(list, j) <==> x in list && x != list[j]
  {
    var r := Removed(list, j);
    forall k: nat | k < |list| && k != j ensures list[k] in r && list[k] != list[j] {
      assert r[if k < j then k else k - 1] == list[k];
      var y := list[j];
    }
    if x in r { var k :| 0 <= k < |r| && r[k] == x; assert list[if k < j then k else k + 1] == x; }
  }

  lemma RemovedOrdered(list: seq<nat>, j: nat)
    requires j < |list| && Ordered(list)
    ensures Ordered(Removed(list, j))
  {
    var r := Removed(list, j);
    forall x: nat, y: nat | x < y < |r| ensures r[x] < r[y] {
      var a, b := list[if x < j then x else x + 1], list[if y < j then y else y + 1];
    }
  }

  /** The link past the j-th block. */
  function PastH(h: Headers, list: seq<nat>, j: nat): Headers
    requires 0 < j < |list|
  {
    h.(ptr := h.ptr[list[j - 1] := After(list, j)])
  }

  lemma PastLinked(h: Headers, list: seq<nat>, j: nat)
    requires Ordered(list) && Linked(h, list) && 0 < j < |list|
    ensures Linked(PastH(h, list, j), Removed(list, j))
  {
    var h', r := PastH(h, list, j), Removed(list, j);
    forall k: nat ensures LinkOk(h', r, k) {
      var k0 := if k < j then k else k + 1;
      assert LinkOk(h, list, k0);
      if k < |r| { var x, y := list[k0], list[j - 1]; }
      if k + 1 < |r| { var z := r[k + 1]; }
    }
  }

  /** The j-th free block, whole, is in use. */
  lemma TakeWhole(h: Headers, g: Book, j: nat)
    requires Sound(h, g) && 0 < j < |g.list|
    ensures Sound(PastH(h, g.list, j), g.(list := Removed(g.list, j), used := g.used + {g.list[j]}))
  {
    var a, h', g' := g.list[j], PastH(h, g.list, j), g.(list := Removed(g.list, j), used := g.used + {g.list[j]});
    RemovedOrdered(g.list, j);
    PastLinked(h, g.list, j);
    assert g'.list[0] == g.list[0] < a && LinkOk(h, g.list, j);
    forall x ensures Block(g', x) <==> Block(g, x) { RemovedMembers(g.list, j, x); }
    forall x | x in g'.used ensures x !in g'.list { RemovedMembers(g.list, j, x); }
    hide OwnOk, Linked, Ordered;
    SameBlocks(h, g, h', g');
  }

  /** The last n units of the j-th free block are a block in use. */
  function TailH(h: Headers, a: nat, n: nat): Headers
    requires a in h.size && n <= h.size[a]
  {
    h.(size := h.size[a := h.size[a] - n][a + h.size[a] - n := n])
  }

  function TailG(g: Book, a: nat, q: nat): Book {
    g.(used := g.used + {q}, own := map u | u in g.own :: if g.own[u] == a && u >= q then q else g.own[u])
  }

  lemma TakeTail(h: Headers, g: Book, j: nat, n: nat, a: nat, q: nat)
    requires Sound(h, g) && 0 < j < |g.list| && a == g.list[j] && a in h.size && 0 < n < h.size[a]
             && q == a + h.size[a] - n
    ensures Sound(TailH(h, a, n), TailG(g, a, q)) && !Block(g, q)
  {
    assert Block(g, a) && g.list[0] < a by { assert g.list[0] < g.list[j]; }
    NotABlock(h, g, a, q);
    assert q !in g.list;
    TailLinked(h, g.list, a, q, n);
    forall x ensures Block(TailG(g, a, q), x) <==> Block(g, x) || x == q { TailBlock(g, a, q, x); }
    TailOwn(h, g, a, q, n);
    assert TailG(g, a, q).list == g.list && TailG(g, a, q).used == g.used + {q};
    hide Linked, Ordered, OwnOk, TailG, Block;
    forall x | x in TailG(g, a, q).used
      ensures x in TailH(h, a, n).size && TailH(h, a, n).size[x] > 0 && x > g.list[0] && x !in g.list
    {
      assert x != q ==> x in g.used;
    }
  }

  lemma TailBlock(g: Book, a: nat, q: nat, x: nat)
    requires g.list != []
    ensures Block(TailG(g, a, q), x) <==> Block(g, x) || x == q
  {}

  lemma TailLinked(h: Headers, list: seq<nat>, a: nat, q: nat, n: nat)
    requires Linked(h, list) && a in h.size && 0 < n < h.size[a] && q == a + h.size[a] - n && q !in list
    ensures Linked(TailH(h, a, n), list)
  {
    var h' := TailH(h, a, n);
    forall k: nat ensures LinkOk(h', list, k) {
      assert LinkOk(h, list, k) && (k < |list| ==> list[k] != q);
    }
  }

  /** No block begins inside another. */
  lemma NotABlock(h: Headers, g: Book, a: nat, q: nat)
    requires Sound(h, g) && Block(g, a) && a in h.size && a < q < a + h.size[a]
    ensures !Block(g, q)
  {
    BlockOwns(h, g, q);
    assert Covers(h, g, a, q);
  }

  lemma BlockOwns(h: Headers, g: Book, q: nat)
    requires Sound(h, g)
    ensures Block(g, q) ==> q in h.size && h.size[q] > 0 && q in g.own && g.own[q] == q
  {
    if Block(g, q) {
      if q in g.list { var k: nat :| k < |g.list| && g.list[k] == q; assert k > 0 && LinkOk(h, g.list, k); }
      assert q in h.size && h.size[q] > 0 && Covers(h, g, q, q);
    }
  }

  lemma TailOwn(h: Headers, g: Book, a: nat, q: nat, n: nat)
    requires OwnOk(h, g) && Block(g, a) && a in h.size && 0 < n < h.size[a] && q == a + h.size[a] - n && !Block(g, q)
    requires forall x {:trigger Block(TailG(g, a, q), x)} :: Block(TailG(g, a, q), x) <==> Block(g, x) || x == q
    ensures OwnOk(TailH(h, a, n), TailG(g, a, q))
  {
    var h', g' := TailH(h, a, n), TailG(g, a, q);
    hide Block;
    forall u: nat ensures Inside(h', g', u) {
      assert Inside(h, g, u);
      assert u in g'.own ==> Block(g', g.own[u]) && Block(g', q);
    }
    forall x: nat, u: nat ensures Covers(h', g', x, u) {
      assert Covers(h, g, if x == q then a else x, u) && (Block(g', x) <==> Block(g, x) || x == q);
    }
  }

  // ---------------------------------------------------------------------------------
  // Two free blocks that touch become one.

  function MergeH(h: Headers, list: seq<nat>, i: nat): Headers
    requires i + 1 < |list| && list[i] in h.size && list[i + 1] in h.size
  {
    Headers(h.ptr[list[i] := After(list, i + 1)], h.size[list[i] := h.size[list[i]] + h.size[list[i + 1]]])
  }

  function MergeG(g: Book, i: nat): Book
    requires i + 1 < |g.list|
  {
    var a, b := g.list[i], g.list[i + 1];
    g.(list := Removed(g.list, i + 1), own := map u | u in g.own :: if g.own[u] == b then a else g.own[u])
  }

  lemma MergeSound(h: Headers, g: Book, i: nat)
    requires Sound(h, g) && 0 < i && i + 1 < |g.list| && g.list[i] in h.size
             && g.list[i] + h.size[g.list[i]] == g.list[i + 1]
    requires g.list[i + 1] in h.size
    ensures Sound(MergeH(h, g.list, i), MergeG(g, i))
  {
    var a, b, h', g' := g.list[i], g.list[i + 1], MergeH(h, g.list, i), MergeG(g, i);
    RemovedOrdered(g.list, i + 1);
    PastLinked(h, g.list, i + 1);
    assert g.list[0] < a < b && LinkOk(h, g.list, i + 1);
    assert Linked(h', g'.list) by { MergeLinked(h, g.list, i); }
    forall x ensures Block(g', x) <==> Block(g, x) && x != b { RemovedMembers(g.list, i + 1, x); }
    forall x | x in g'.used ensures x !in g'.list { RemovedMembers(g.list, i + 1, x); }
    MergeOwn(h, g, i, a, b);
  }

  lemma MergeLinked(h: Headers, list: seq<nat>, i: nat)
    requires Ordered(list) && Linked(h, list) && 0 < i && i + 1 < |list| && list[i] in h.size && list[i + 1] in h.size
    ensures Linked(MergeH(h, list, i), Removed(list, i + 1))
  {
    var h', r := MergeH(h, list, i), Removed(list, i + 1);
    PastLinked(h, list, i + 1);
    forall k: nat ensures LinkOk(h', r, k) { assert LinkOk(PastH(h, list, i + 1), r, k); }
  }

  lemma MergeOwn(h: Headers, g: Book, i: nat, a: nat, b: nat)
    requires OwnOk(h, g) && i + 1 < |g.list| && g.list[i] == a && g.list[i + 1] == b && a in h.size && b in h.size
    requires a + h.size[a] == b && Block(g, a) && Block(g, b)
    requires forall x {:trigger Block(MergeG(g, i), x)} :: Block(MergeG(g, i), x) <==> Block(g, x) && x != b
    ensures OwnOk(MergeH(h, g.list, i), MergeG(g, i))
  {
    var h', g' := MergeH(h, g.list, i), MergeG(g, i);
    hide Block;
    forall u: nat ensures Inside(h', g', u) {
      assert Inside(h, g, u);
      assert u in g'.own ==> (Block(g', g.own[u]) <==> Block(g, g.own[u]) && g.own[u] != b) && Block(g', a);
    }
    forall x: nat, u: nat ensures Covers(h', g', x, u) {
      assert Covers(h, g, if x == a && u >= b then b else x, u) && (Block(g', x) <==> Block(g, x) && x != b);
    }
  }

  // ---------------------------------------------------------------------------------
  // free, as a change of headers and books.

  /** Blocks do not overlap. */
  lemma Apart(h: Headers, g: Book, a: nat, b: nat)
    requires Sound(h, g) && Block(g, a) && Block(g, b) && a < b
    ensures a in h.size && a + h.size[a] <= b
  {
    BlockOwns(h, g, a);
    BlockOwns(h, g, b);
    assert Covers(h, g, a, b);
  }

  lemma InTheList(g: Book, i: nat)
    requires 0 < i < |g.list| && Ordered(g.list)
    ensures Block(g, g.list[i])
  {
    var x, y := g.list[0], g.list[i];
  }

  /** The free block at place i ends where the next one begins. */
  predicate TouchesNext(h: Headers, list: seq<nat>, i: nat) {
    i + 1 < |list| && list[i] in h.size && list[i] + h.size[list[i]] == list[i + 1]
  }

  ghost function MergeIf(s: (Headers, Book), i: nat): (Headers, Book) {
    if 0 < i && TouchesNext(s.0, s.1.list, i)
        && s.1.list[i + 1] in s.0.size then (MergeH(s.0, s.1.list, i), MergeG(s.1, i)) else s
  }

  /** Block a goes back after the i-th free block, and is joined with its neighbours where they touch. */
  ghost function FreeOf(h: Headers, g: Book, i: nat, a: nat): (Headers, Book)
    requires i < |g.list|
  {
    MergeIf(MergeIf((InsertH(h, g.list, i, a), InsertG(g, i, a)), i + 1), i)
  }

  /** Free blocks touch at most at places lo to hi - 1. */
  ghost predicate CoalescedBut(h: Headers, list: seq<nat>, lo: nat, hi: nat) {
    forall i: nat {:trigger Gap(h, list, i)} :: !(lo <= i < hi) ==> Gap(h, list, i)
  }

  lemma InsertCoalesced(h: Headers, list: seq<nat>, i: nat, a: nat)
    requires Coalesced(h, list) && PlaceOf(list, a, i)
    ensures CoalescedBut(InsertH(h, list, i, a), Inserted(list, i, a), i, i + 2)
  {
    var h', r := InsertH(h, list, i, a), Inserted(list, i, a);
    forall k: nat | !(i <= k < i + 2) ensures Gap(h', r, k) {
      var k0 := if k < i then k else k - 1;
      assert Gap(h, list, k0);
    }
  }

  lemma MergeCoalesced(h: Headers, list: seq<nat>, i: nat, lo: nat)
    requires 0 < i && lo <= i && TouchesNext(h, list, i) && list[i + 1] in h.size && CoalescedBut(h, list, lo, i + 1)
             && Ordered(list)
    ensures CoalescedBut(MergeH(h, list, i), Removed(list, i + 1), lo, i)
  {
    var h', r := MergeH(h, list, i), Removed(list, i + 1);
    forall k: nat | !(lo <= k < i) ensures Gap(h', r, k) {
      assert Gap(h, list, if k < i then k else k + 1);
      if k < |r| && k != i { var x, y := list[if k < i then k else k + 1], list[i]; }
    }
  }

  /** Joining the block at place i with the next one, if they touch, leaves one place less to look at. */
  lemma MergeStep(h: Headers, g: Book, i: nat, lo: nat, h': Headers, g': Book)
    requires Sound(h, g) && lo <= i < |g.list| && CoalescedBut(h, g.list, lo, i + 1) && (h', g') == MergeIf((h, g), i)
    ensures Sound(h', g') && CoalescedBut(h', g'.list, lo, i) && i < |g'.list| && g'.list[..i + 1] == g.list[..i + 1]
    ensures g'.used == g.used && (forall x :: x in g.used ==> x in h'.size && h'.size[x] == h.size[x])
            && g'.own.Keys == g.own.Keys
  {
    hide OwnOk, Linked;
    if i > 0 && i + 1 < |g.list| {
      InTheList(g, i);
      InTheList(g, i + 1);
      BlockOwns(h, g, g.list[i + 1]);
      Apart(h, g, g.list[i], g.list[i + 1]);
      if TouchesNext(h, g.list, i) {
        MergeSound(h, g, i);
        MergeCoalesced(h, g.list, i, lo);
        assert g'.own.Keys == g.own.Keys;
      } else {
        assert Gap(h, g.list, i);
      }
    }
    forall k: nat | !(lo <= k < i) ensures Gap(h', g'.list, k) {
      if g'.list == g.list && h' == h && k != i { assert Gap(h, g.list, k); }
    }
  }

  lemma FreeSound(h: Headers, g: Book, i: nat, a: nat, h': Headers, g': Book)
    requires Sound(h, g) && Coalesced(h, g.list) && a in g.used && PlaceOf(g.list, a, i)
             && (h', g') == FreeOf(h, g, i, a)
    ensures Sound(h', g') && Coalesced(h', g'.list) && i < |g'.list| && g'.list[..i + 1] == g.list[..i + 1]
    ensures exists k: nat :: 0 < k < |g'.list| && g'.list[k] in h'.size && h'.size[g'.list[k]] >= h.size[a]
    ensures g'.used == g.used - {a} && g'.own.Keys == g.own.Keys
    ensures forall x :: x in g'.used ==> x in h.size && x in h'.size && h'.size[x] == h.size[x]
  {
    hide OwnOk, Ordered;
    var h1, g1 := InsertH(h, g.list, i, a), InsertG(g, i, a);
    InsertSound(h, g, i, a);
    InsertCoalesced(h, g.list, i, a);
    var s2 := MergeIf((h1, g1), i + 1);
    MergeStep(h1, g1, i + 1, i, s2.0, s2.1);
    MergeStep(s2.0, s2.1, i, i, h', g');
    assert g1.list[..i + 1] == g.list[..i + 1];
    assert s2.1.list[..i + 1] == s2.1.list[..i + 2][..i + 1] == g1.list[..i + 2][..i + 1];
    assert s2.1.list[i + 1] == s2.1.list[..i + 2][i + 1] == g1.list[..i + 2][i + 1] == a;
    assert LinkOk(h', g'.list, i) && LinkOk(h', g'.list, i + 1);
    var k := if g'.list == s2.1.list then i + 1 else i;
    assert g'.list[k] in h'.size && h'.size[g'.list[k]] >= h.size[a];
  }

  /** The two conditionals of free, one after the other. */
  function JoinUp(h: Headers, a: nat, next: nat): Headers
    requires a in h.size && next in h.size && next in h.ptr
  {
    if a + h.size[a] == next then Headers(h.ptr[a := h.ptr[next]], h.size[a := h.size[a] + h.size[next]])
    else h.(ptr := h.ptr[a := next])
  }

  function JoinDown(h: Headers, p: nat, a: nat): Headers
    requires a in h.size && p in h.size && a in h.ptr
  {
    if p + h.size[p] == a then Headers(h.ptr[p := h.ptr[a]], h.size[p := h.size[p] + h.size[a]])
    else h.(ptr := h.ptr[p := a])
  }

  /** The first conditional is the link and the join with the block above. */
  lemma UpIsMerge(h: Headers, g: Book, i: nat, a: nat, p: nat, next: nat)
    requires Sound(h, g) && a in g.used && PlaceOf(g.list, a, i) && p == g.list[i] && next == After(g.list, i)
    ensures a in h.size && next in h.size && next in h.ptr && p in h.size && p in h.ptr && h.ptr[p] == next
    ensures g.list[0] <= p < a && (i > 0 ==> g.list[0] < p)
    ensures var up, s2 := JoinUp(h, a, next), MergeIf((InsertH(h, g.list, i, a), InsertG(g, i, a)), i + 1);
            && s2.0 == up.(ptr := up.ptr[p := a])
            && |s2.1.list| > i + 1 && s2.1.list[i] == p && s2.1.list[i + 1] == a && a in s2.0.ptr
            && s2.0.ptr[a] == After(s2.1.list, i + 1)
  {
    hide OwnOk, Coalesced;
    var list, list1 := g.list, Inserted(g.list, i, a);
    assert LinkOk(h, list, i) && LinkOk(h, list, if i + 1 < |list| then i + 1 else 0);
    var s1 := (InsertH(h, list, i, a), InsertG(g, i, a));
    var up, s2 := JoinUp(h, a, next), MergeIf(s1, i + 1);
    assert list1[i] == p && list1[i + 1] == a && (i + 1 < |list| ==> list1[i + 2] == next);
    if TouchesNext(s1.0, list1, i + 1) {
      assert After(list1, i + 2) == After(list, i + 1) == h.ptr[next];
      assert s2.0.ptr == up.ptr[p := a] && s2.0.size == up.size;
    } else {
      assert s1.0.ptr == up.ptr[p := a];
    }
  }

  /** They come to linking the block in and joining what touches. */
  lemma JoinsAreFree(h: Headers, g: Book, i: nat, a: nat, p: nat, next: nat)
    requires Sound(h, g) && a in g.used && PlaceOf(g.list, a, i) && p == g.list[i] && next == After(g.list, i)
    ensures a in h.size && next in h.size && next in h.ptr && p in h.size && p in h.ptr && h.ptr[p] == next
    ensures g.list[0] <= p
    ensures JoinDown(JoinUp(h, a, next), p, a) == FreeOf(h, g, i, a).0
  {
    hide OwnOk, Coalesced, Ordered, Linked, InsertH, InsertG;
    UpIsMerge(h, g, i, a, p, next);
  }

  /** Taking a block out, or part of one, makes no two free blocks touch. */
  lemma TakeCoalesced(h: Headers, list: seq<nat>, j: nat, n: nat)
    requires Ordered(list) && Coalesced(h, list) && 0 < j < |list| && list[j] in h.size
    ensures Coalesced(PastH(h, list, j), Removed(list, j))
    ensures n <= h.size[list[j]] && list[j] + h.size[list[j]] - n !in list[..j] + list[j + 1..] ==>
              Coalesced(TailH(h, list[j], n), list)
  {
    forall k: nat ensures Gap(PastH(h, list, j), Removed(list, j), k) {
      assert Gap(h, list, if k < j then k else k + 1);
      if k + 1 == j && j + 1 < |list| { var x, y := list[j], list[j + 1]; }
    }
    var q := list[j] + h.size[list[j]] - n;
    if n <= h.size[list[j]] && q !in list[..j] + list[j + 1..] {
      forall k: nat ensures Gap(TailH(h, list[j], n), list, k) {
        assert Gap(h, list, k);
        if k < |list| && k != j { assert list[k] == (list[..j] + list[j + 1..])[if k < j then k else k - 1]; }
        if k < j { var x, y := list[k], list[j]; } else if j < k < |list| { var x, y := list[j], list[k]; }
      }
    }
  }
}
