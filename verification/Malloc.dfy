/** The user-level allocator (user/umalloc.c). */
module Malloc {
  import opened Common
  import opened FreeList

  const UNIT: nat := 16                  // sizeof(Header)
  const MINCORE: nat := 4096             // the least that morecore asks for, in headers
  const INT_MAX: int := 0x7fff_ffff

  /** What an argument of type int gets of a number of bytes. */
  function ToInt(n: nat): int {
    var m := n % UINT;
    if m > INT_MAX then m - UINT else m
  }

  /** Some free block has n units. */
  ghost predicate Fits(h: Headers, list: seq<nat>, n: nat) {
    exists i: nat :: 0 < i < |list| && list[i] in h.size && h.size[list[i]] >= n
  }

  /** The first i blocks after place f, going round, are too small. */
  ghost predicate NoneYet(h: Headers, list: seq<nat>, f: nat, i: nat, n: nat) {
    forall k: nat {:trigger At(list, f, k)} :: 0 < k <= i && k <= |list| ==>
      At(list, f, k) in h.size && h.size[At(list, f, k)] < n
  }

  /** The k-th block after place f of the circular list. */
  function At(list: seq<nat>, f: nat, k: nat): nat {
    if f >= |list| || k > |list| then 0 else if f + k < |list| then list[f + k] else list[f + k - |list|]
  }

  lemma AtNext(h: Headers, list: seq<nat>, f: nat, k: nat)
    requires Linked(h, list) && f < |list| && k < |list|
    ensures At(list, f, k) in h.ptr && h.ptr[At(list, f, k)] == At(list, f, k + 1) && At(list, f, k) in h.size
  {
    assert LinkOk(h, list, if f + k < |list| then f + k else f + k - |list|);
  }

  /** Once round the list nothing has been left out. */
  lemma AllRound(h: Headers, list: seq<nat>, f: nat, n: nat)
    requires f < |list| && NoneYet(h, list, f, |list|, n)
    ensures !Fits(h, list, n)
  {
    forall i: nat | 0 < i < |list| && list[i] in h.size ensures h.size[list[i]] < n {
      var k := if i > f then i - f else i - f + |list|;
      assert At(list, f, k) == list[i];
    }
  }

  lemma AtIndex(list: seq<nat>, f: nat, i: nat)
    requires Ordered(list) && f < |list| && 1 <= i <= |list|
    ensures At(list, f, i) == list[f] <==> i == |list|
    ensures var k := if f + i < |list| then f + i else f + i - |list|;
            At(list, f, i) == list[k] && (k > 0 ==> At(list, f, i - 1) == list[k - 1])
  {
    var k := if f + i < |list| then f + i else f + i - |list|;
    if k < f { var x, y := list[k], list[f]; } else if f < k { var x, y := list[f], list[k]; }
  }

  lemma UsedSelf(h: Headers, g: Book)
    requires Sound(h, g)
    ensures KeepsUsed(h, g.used, h)
  {}

  lemma NoneYetStart(h: Headers, list: seq<nat>, f: nat, n: nat)
    ensures NoneYet(h, list, f, 0, n)
  {}

  lemma FitsAt(h: Headers, list: seq<nat>, k: nat, n: nat)
    requires 0 < k < |list| && list[k] in h.size && h.size[list[k]] >= n
    ensures Fits(h, list, n)
  {}

  lemma NoneYetNext(h: Headers, list: seq<nat>, f: nat, i: nat, n: nat)
    requires i > 0 && NoneYet(h, list, f, i - 1, n) && At(list, f, i) in h.size && h.size[At(list, f, i)] < n
    ensures NoneYet(h, list, f, i, n)
  {}

  lemma FirstTime(h: Headers, g: Book, base: nat)
    requires g == Book([base], {}, map[]) && base in h.ptr && base in h.size && h.ptr[base] == base && h.size[base] == 0
    ensures Sound(h, g) && Coalesced(h, g.list)
  {
    forall a: nat, u: nat ensures Covers(h, g, a, u) {}
  }

  /** n units from a on, that belonged to nothing. */
  ghost predicate Virgin(base: nat, own: map<nat, nat>, a: nat) {
    base < a && forall u :: u in own ==> u < a
  }

  function Range(a: nat, n: nat): (r: set<nat>)
    ensures forall u: nat :: u in r <==> a <= u < a + n
  {
    set u: nat {:trigger In(u, a, n)} | a <= u < a + n && In(u, a, n)
  }

  predicate In(u: nat, a: nat, n: nat) { a <= u < a + n }

  ghost predicate Good(base: nat, h: Headers, freep: nat, g: Book) {
    && base > 0
    && if freep == 0 then g == Book([], {}, map[])
       else Sound(h, g) && Coalesced(h, g.list) && g.list[0] == base && freep in g.list
  }

  /** The blocks in use are what they were. */
  ghost predicate KeepsUsed(h: Headers, used: set<nat>, h': Headers) {
    forall x {:trigger x in used} :: x in used ==> x in h.size && x in h'.size && h'.size[x] == h.size[x]
  }

  class Heap {
    const base: nat                      // the address of the static header
    var h: Headers
    var freep: nat
    ghost var g: Book

    constructor (base: nat)
      requires base > 0
      ensures Valid() && this.base == base && g.used == {} && g.own == map[]
    {
      this.base, h, freep, g := base, Headers(map[], map[]), 0, Book([], {}, map[]);
    }

    ghost predicate Valid()
      reads this
    {
      Good(base, h, freep, g) == true
    }

    /** free's search: the last free block below bp. */
    method Place(bp: nat) returns (p: nat, ghost i: nat)
      requires Valid() && bp in g.used
      ensures PlaceOf(g.list, bp, i) && p == g.list[i]
      ensures p in g.list && p < bp && forall q :: q in g.list ==> q <= p || bp < q
    {
      ghost var list := g.list;
      i := FindPlace(list, bp);
      p := freep;
      ghost var j: nat :| j < |list| && list[j] == p;
      assert LinkOk(h, list, j);
      while !(bp > p && bp < h.ptr[p])
        invariant j < |list| && p == list[j] && LinkOk(h, list, j) == true
        decreases if j <= i then i - j else i + |list| - j
      {
        var x := list[i];
        if p >= h.ptr[p] && (bp > p || bp < h.ptr[p]) { break; }
        p := h.ptr[p];
        j := if j + 1 < |list| then j + 1 else 0;
        assert LinkOk(h, list, j);
      }
      var x, y := list[0], list[j];
    }

    /** free. Afterwards the block is free, joined with its free neighbours; the other blocks in use are
        untouched and no unit is lost. */
    method Free(bp: nat)
      requires Valid() && bp in g.used
      modifies this
      ensures Valid() && freep != 0 && g.used == old(g.used) - {bp} && KeepsUsed(old(h), g.used, h)
              && g.own.Keys == old(g.own.Keys)
      ensures bp in old(h).size && Fits(h, g.list, old(h).size[bp])
    {
      hide Sound, Coalesced, FreeOf;
      var p;
      ghost var i;
      p, i := Place(bp);
      ghost var r := FreeOf(h, g, i, bp);
      JoinsAreFree(h, g, i, bp, p, After(g.list, i));
      FreeSound(h, g, i, bp, r.0, r.1);
      assert p == r.1.list[..i + 1][i] && base == r.1.list[..i + 1][0];
      var next := h.ptr[p];
      h := JoinUp(h, bp, next);
      h := JoinDown(h, p, bp);
      freep, g := p, r.1;
    }

    /** morecore, for which sbrk has given the memory from `grant` on, or nothing (-1). lost: the number of
        bytes does not fit the int that sbrk takes, which has been asked for something else. */
    method Morecore(nu: nat, grant: int) returns (ok: bool, lost: bool)
      requires Valid() && freep != 0 && nu < UINT && (grant == -1 || (grant >= 0 && Virgin(base, g.own, grant)))
      modifies this
      ensures lost <==> grant != -1 && AskFor(nu) * UNIT > INT_MAX
      ensures ok <==> grant != -1 && !lost
      ensures !ok ==> h == old(h) && freep == old(freep) && g == old(g)
      ensures ok ==> Valid() && freep != 0 && g.used == old(g.used) && KeepsUsed(old(h), g.used, h)
      ensures ok ==> g.own.Keys == old(g.own.Keys) + Range(grant, AskFor(nu)) && Fits(h, g.list, nu)
    {
      ok, lost := false, false;
      var n := if nu < MINCORE then MINCORE else nu;
      if grant == -1 { return; }
      if ToInt(n * UNIT) != n * UNIT { return false, true; }
      ghost var h0 := h;
      var hp: nat := grant;
      NewBlock(h, g, base, hp, n);
      h := h.(size := h.size[hp := n]);
      g := Grown(g, hp, n);
      Free(hp);
      ok := true;
    }

    /** malloc's two ways of taking n units from the k-th free block, p. */
    method Take(prevp: nat, p: nat, n: nat, ghost k: nat) returns (q: nat)
      requires Valid() && freep != 0 && 0 < k < |g.list| && p == g.list[k] && prevp == g.list[k - 1]
      requires 0 < n && p in h.size && n <= h.size[p]
      modifies this
      ensures Valid() && freep != 0 && q !in old(g.used) && g.used == old(g.used) + {q} && g.own.Keys == old(g.own.Keys)
      ensures q in h.size && h.size[q] == n && KeepsUsed(old(h), old(g.used), h)
    {
      hide Good, OwnOk, Ordered, Coalesced;
      Took(base, h, freep, g, k, p, prevp);
      if h.size[p] == n {
        TookWhole(base, h, freep, g, k, p, prevp);
        h := h.(ptr := h.ptr[prevp := h.ptr[p]]);
        g := g.(list := Removed(g.list, k), used := g.used + {p});
        q := p;
      } else {
        q := p + (h.size[p] - n);
        TookTail(base, h, freep, g, k, p, prevp, n, q);
        g := TailG(g, p, q);
        h := h.(size := h.size[p := h.size[p] - n]);
        h := h.(size := h.size[q := n]);
      }
      freep := prevp;
    }

    /** malloc of nbytes, where sbrk would give the memory from `grant` on, or nothing (-1). It fails
        exactly when no free block has room and sbrk gives nothing. What it returns is the place after the
        header of a block of just enough units that was not in use; the blocks in use are untouched, and
        no unit is lost. */
    method Malloc(nbytes: nat, grant: int) returns (r: nat, lost: bool)
      requires Valid() && nbytes < UINT && (grant == -1 || (grant >= 0 && Virgin(base, g.own, grant)))
      modifies this
      ensures var n, fits := Units(nbytes), Fits(old(h), old(g.list), Units(nbytes));
              && (lost <==> !fits && grant != -1 && AskFor(n) * UNIT > INT_MAX)
              && (!lost ==> Valid() && (r == 0 <==> !fits && grant == -1))
              && (!lost && r == 0 ==>
                  g.used == old(g.used) && KeepsUsed(old(h), g.used, h) && g.own.Keys == old(g.own.Keys))
              && (!lost && r != 0 ==>
                    && r - 1 !in old(g.used) && g.used == old(g.used) + {r - 1} && r - 1 in h.size && h.size[r - 1] == n
                    && KeepsUsed(old(h), old(g.used), h)
                    && g.own.Keys == old(g.own.Keys) + if fits then {} else Range(grant, AskFor(n)))
    {
      var n := Units(nbytes);
      lost := false;
      if freep == 0 {
        h, freep := Headers(h.ptr[base := base], h.size[base := 0]), base;
        g := g.(list := [base]);
        FirstTime(h, g, base);
      }
      ghost var h1, g1 := h, g;
      var lost1, ok, prevp, p;
      ghost var k, fits;
      ok, lost1, prevp, p, k, fits := Search(n, grant);
      if !ok { return 0, lost1; }
      var q := Take(prevp, p, n, k);
      r := q + 1;
    }

    /** morecore, once the search has come round, and where freep is in the list afterwards. */
    method AskMore(n: nat, grant: int, ghost f0: nat) returns (ok: bool, lost: bool, ghost f: nat)
      requires Valid() && freep != 0 && n < UINT && (grant == -1 || (grant >= 0 && Virgin(base, g.own, grant)))
      modifies this
      ensures lost <==> grant != -1 && AskFor(n) * UNIT > INT_MAX
      ensures ok <==> grant != -1 && !lost
      ensures !ok ==> h == old(h) && freep == old(freep) && g == old(g) && f == f0
      ensures ok ==> Valid() && freep != 0 && g.used == old(g.used) && KeepsUsed(old(h), g.used, h)
      ensures ok ==> g.own.Keys == old(g.own.Keys) + Range(grant, AskFor(n)) && Fits(h, g.list, n)
      ensures ok ==>
                && f < |g.list| && g.list[f] == freep == At(g.list, f, 0) && freep in h.ptr && freep in h.size
                && h.ptr[freep] == At(g.list, f, 1) && NoneYet(h, g.list, f, 0, n)
    {
      f := f0;
      ok, lost := Morecore(n, grant);
      if ok {
        f :| f < |g.list| && g.list[f] == freep;
        AtNext(h, g.list, f, 0);
      }
    }

    /** malloc's loop, up to where it has found a block p, the k-th free one, with room for n units. */
    method Search(n: nat, grant: int) returns (ok: bool, lost: bool, prevp: nat, p: nat, ghost k: nat, ghost fits: bool)
      requires Valid() && freep != 0 && 0 < n < UINT && (grant == -1 || (grant >= 0 && Virgin(base, g.own, grant)))
      modifies this
      ensures fits == Fits(old(h), old(g.list), n)
      ensures lost <==> !fits && grant != -1 && AskFor(n) * UNIT > INT_MAX
      ensures ok <==> fits || (grant != -1 && !lost)
      ensures !lost ==> Valid() && g.used == old(g.used) && KeepsUsed(old(h), g.used, h)
      ensures !lost ==> g.own.Keys == old(g.own.Keys) + if fits || grant == -1 then {} else Range(grant, AskFor(n))
      ensures ok ==>
                freep != 0 && 0 < k < |g.list| && p == g.list[k] && prevp == g.list[k - 1] && p in h.size
                    && h.size[p] >= n
    {
      hide OwnOk, Coalesced, Fits, NoneYet, KeepsUsed, Linked, Ordered, LinkOk;
      UsedSelf(h, g);
      ghost var h1, g1 := h, g;
      ghost var f: nat :| f < |g.list| && g.list[f] == freep;
      ghost var i, asked := 1, false;
      AtNext(h, g.list, f, 0);
      ok, lost, fits, k := false, false, Fits(h, g.list, n), 0;
      prevp := freep;
      p := h.ptr[prevp];
      NoneYetStart(h, g.list, f, n);
      while true
        invariant Valid() && freep != 0 && f < |g.list| && g.list[f] == freep && 1 <= i <= |g.list| && !lost
        invariant p == At(g.list, f, i) && prevp == At(g.list, f, i - 1) && NoneYet(h, g.list, f, i - 1, n) == true
        invariant g.used == g1.used && KeepsUsed(h1, g.used, h)
        invariant if asked then Fits(h, g.list, n) && !fits && grant != -1 && AskFor(n) * UNIT <= INT_MAX
                                && g.own.Keys == g1.own.Keys + Range(grant, AskFor(n))
                  else h == h1 && g == g1
        decreases !asked, |g.list| - i
      {
        AtIndex(g.list, f, i);
        k := if f + i < |g.list| then f + i else f + i - |g.list|;
        AtNext(h, g.list, f, if i < |g.list| then i else 0);
        if h.size[p] >= n {
          FitsAt(h, g.list, k, n);
          ok := true;
          return;
        }
        NoneYetNext(h, g.list, f, i, n);
        if p == freep {
          AllRound(h, g.list, f, n);
          assert !asked;
          ok, lost, f := AskMore(n, grant, f);
          if !ok { return; }
          asked := true;
          p := freep;
          i := 0;
        }
        prevp, p, i := p, h.ptr[p], i + 1;
      }
    }
  }

  lemma Took(base: nat, h: Headers, freep: nat, g: Book, k: nat, p: nat, prevp: nat)
    requires Good(base, h, freep, g) && freep != 0 && 0 < k < |g.list| && p == g.list[k] && prevp == g.list[k - 1]
    ensures p in h.ptr && p in h.size && prevp in h.ptr && h.ptr[p] == After(g.list, k) && prevp != 0 && p !in g.used
    ensures KeepsUsed(h, g.used, h) && forall x :: x in g.used ==> x != p
  {
    assert LinkOk(h, g.list, k) && LinkOk(h, g.list, k - 1);
    var x, y := g.list[0], g.list[k - 1];
  }

  lemma TookWhole(base: nat, h: Headers, freep: nat, g: Book, k: nat, p: nat, prevp: nat)
    requires Good(base, h, freep, g) && freep != 0 && 0 < k < |g.list| && p == g.list[k] && prevp == g.list[k - 1]
             && prevp != 0
    ensures Good(base, PastH(h, g.list, k), prevp, g.(list := Removed(g.list, k), used := g.used + {p}))
  {
    assert LinkOk(h, g.list, k);
    TakeWhole(h, g, k);
    TakeCoalesced(h, g.list, k, 0);
    var r := Removed(g.list, k);
    assert r[k - 1] == prevp && r[0] == base;
  }

  lemma TookTail(base: nat, h: Headers, freep: nat, g: Book, k: nat, p: nat, prevp: nat, n: nat, q: nat)
    requires Good(base, h, freep, g) && freep != 0 && 0 < k < |g.list| && p == g.list[k] && prevp == g.list[k - 1]
             && prevp != 0
    requires p in h.size && 0 < n < h.size[p] && q == p + h.size[p] - n
    ensures Good(base, TailH(h, p, n), prevp, TailG(g, p, q)) && q !in g.used && TailG(g, p, q).own.Keys == g.own.Keys
    ensures KeepsUsed(h, g.used, TailH(h, p, n)) && q != p
  {
    hide LinkOk, Coalesced, Gap, OwnOk, Ordered;
    TakeTail(h, g, k, n, p, q);
    assert q !in g.list;
    TakeCoalesced(h, g.list, k, n);
  }

  /** The headers malloc needs for a number of bytes, one of them its own. */
  function Units(nbytes: nat): (n: nat)
    ensures n > 0 && (n - 1) * UNIT >= nbytes && (n - 1) * UNIT < nbytes + UNIT
  {
    (nbytes + UNIT - 1) / UNIT + 1
  }

  /** What morecore asks sbrk for, in headers. */
  function AskFor(nu: nat): (n: nat)
    ensures n >= nu && n >= 4096 && (n == nu || n == 4096)
  {
    if nu < MINCORE then MINCORE else nu
  }

  ghost function Grown(g: Book, a: nat, n: nat): Book {
    g.(used := g.used + {a}, own := g.own + map u | u in Range(a, n) :: a)
  }

  lemma NewBlock(h: Headers, g: Book, base: nat, a: nat, n: nat)
    requires Sound(h, g) && Coalesced(h, g.list) && g.list[0] == base && Virgin(base, g.own, a) && n > 0
    ensures a !in g.list && a !in g.used && Grown(g, a, n).own.Keys == g.own.Keys + Range(a, n)
    ensures Sound(h.(size := h.size[a := n]), Grown(g, a, n)) && Coalesced(h.(size := h.size[a := n]), g.list)
  {
    BlockOwns(h, g, a);
    var h', g' := h.(size := h.size[a := n]), Grown(g, a, n);
    assert a !in g.list && a !in g.used;
    forall k: nat
        ensures LinkOk(h', g'.list, k) && Gap(h', g'.list, k) { assert LinkOk(h, g.list, k) && Gap(h, g.list, k); }
    forall x ensures Block(g', x) <==> Block(g, x) || x == a {}
    NewOwn(h, g, a, n);
  }

  lemma NewOwn(h: Headers, g: Book, a: nat, n: nat)
    requires OwnOk(h, g) && n > 0 && !Block(g, a) && forall u :: u in g.own ==> u < a
    requires forall x {:trigger Block(Grown(g, a, n), x)} :: Block(Grown(g, a, n), x) <==> Block(g, x) || x == a
    ensures OwnOk(h.(size := h.size[a := n]), Grown(g, a, n))
  {
    var h', g' := h.(size := h.size[a := n]), Grown(g, a, n);
    hide Block;
    forall u: nat ensures Inside(h', g', u) {
      assert Inside(h, g, u);
      assert u in g.own ==> Block(g', g.own[u]);
      assert Block(g', a);
    }
    forall x: nat, u: nat
        ensures Covers(h', g', x, u) { assert Covers(h, g, x, u) && (Block(g', x) <==> Block(g, x) || x == a); }
  }
}
