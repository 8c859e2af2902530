/** Taking a page-table tree apart (freewalk in kernel/vm.c). */
module Teardown {
  import opened PageTable

  /** The ancestor of q at level l. */
  function Up(q: Pos, l: nat): Pos
    requires q.level <= l
    decreases l - q.level
  {
    if q.level == l then q else Up(Parent(q), l)
  }

  /** q is p or a table below it. */
  predicate Under(q: Pos, p: Pos) {
    q.level <= p.level && Up(q, p.level) == p
  }

  /** The tables of m at or below p. */
  function Subtree(m: Mem, p: Pos): set<Pos> {
    set q | q in m.node && Under(q, p)
  }

  /** The tables of m below one of p's first n entries. */
  function Firsts(m: Mem, p: Pos, n: nat): set<Pos>
    requires p.level > 0
  {
    set q | q in m.node && q.level < p.level && Under(q, p) && Up(q, p.level - 1).prefix % ENTRIES < n
  }

  ghost predicate BareEntry(m: Mem, q: Pos, i: nat)
    requires q in m.node && m.node[q] in m.pt && i < |m.pt[m.node[q]]|
  {
    var e := m.pt[m.node[q]][i];
    if q.level == 0 then !e.V()
    else (e.V() <==> Child(q, i) in m.node) && (e.V() ==> e == Pte(m.node[Child(q, i)], PTE_V))
  }

  /** A table all of whose valid entries lead to tables: nothing is mapped through it. */
  ghost predicate BareNode(m: Mem, q: Pos)
    requires q in m.node
  {
    var t := m.node[q];
    && t in m.role && m.role[t] == Node(q) && t in m.pt && |m.pt[t]| == ENTRIES && q.level <= 2
    && forall i :: 0 <= i < ENTRIES ==> BareEntry(m, q, i)
  }

  /** Every table at or below p is bare and hangs from another one, up to p. */
  ghost predicate Bare(m: Mem, p: Pos) {
    forall q {:trigger BareNode(m, q)} :: q in m.node && Under(q, p) ==>
      BareNode(m, q) && (q.level < p.level ==> Parent(q) in m.node)
  }

  lemma AncestorIn(m: Mem, p: Pos, q: Pos, l: nat)
    requires Bare(m, p) && q in m.node && Under(q, p) && q.level <= l <= p.level
    ensures Up(q, l) in m.node
    decreases l - q.level
  {
    assert BareNode(m, q);
    if q.level < l {
      assert Up(Parent(q), p.level) == Up(q, p.level);
      AncestorIn(m, p, Parent(q), l);
    }
  }

  /** Nothing hangs from an invalid entry. */
  lemma NoChild(m: Mem, p: Pos, i: nat)
    requires p.level > 0 && i < ENTRIES && Bare(m, p) && Child(p, i) !in m.node
    ensures Subtree(m, Child(p, i)) == {}
  {
    forall q | q in m.node && Under(q, Child(p, i)) ensures false {
      UnderChild(q, p, i);
      AncestorIn(m, p, q, p.level - 1);
    }
  }

  /** Tables and pages with the role of a table correspond one to one. */
  ghost predicate OnePlace(m: Mem) {
    && (forall q {:trigger m.node[q]} :: q in m.node ==> m.node[q] in m.role && m.role[m.node[q]] == Node(q))
    && (forall a {:trigger m.role[a]} :: a in m.role && m.role[a].Node? ==>
          m.role[a].pos in m.node && m.node[m.role[a].pos] == a)
  }

  /** The tables in S, and no others, have gone to the free list. */
  ghost predicate Removed(m: Mem, m': Mem, S: set<Pos>) {
    && m'.node == m.node - S && m'.role.Keys == m.role.Keys
    && (forall a {:trigger m'.role[a]} :: a in m.role ==>
          m'.role[a] == if m.role[a].Node? && m.role[a].pos in S then Free else m.role[a])
  }

  /** Tables outside S keep their entries. */
  ghost predicate KeepsTables(m: Mem, m': Mem, S: set<Pos>) {
    forall q {:trigger m.node[q]} :: q in m.node && q !in S && m.node[q] in m.pt ==>
      m.node[q] in m'.pt && m'.pt[m.node[q]] == m.pt[m.node[q]]
  }

  lemma RemovedTrans(m0: Mem, m1: Mem, m2: Mem, S: set<Pos>, T: set<Pos>)
    requires Removed(m0, m1, S) && Removed(m1, m2, T)
    ensures Removed(m0, m2, S + T)
  {
    assert m0.node - S - T == m0.node - (S + T);
    forall a | a in m0.role
      ensures m2.role[a] == if m0.role[a].Node? && m0.role[a].pos in S + T then Free else m0.role[a]
    {
      var x := m1.role[a];
    }
  }

  lemma UpChild(q: Pos, p: Pos)
    requires q.level < p.level && Under(q, p)
    ensures Parent(Up(q, p.level - 1)) == p
    ensures Child(p, Up(q, p.level - 1).prefix % ENTRIES) == Up(q, p.level - 1)
  {
    UpThrough(q, p.level - 1);
  }

  /** The tables below the first n + 1 entries are those below the first n and those at or below
      the n-th child. */
  lemma FirstsNext(m: Mem, p: Pos, n: nat)
    requires p.level > 0 && n < ENTRIES
    ensures Firsts(m, p, n + 1) == Firsts(m, p, n) + Subtree(m, Child(p, n))
    ensures Firsts(m, p, n) !! Subtree(m, Child(p, n))
  {
    var c := Child(p, n);
    assert c.prefix % ENTRIES == n && Parent(c) == p;
    forall q | q in m.node
      ensures q in Firsts(m, p, n + 1) <==> q in Firsts(m, p, n) || Under(q, c)
      ensures !(q in Firsts(m, p, n) && Under(q, c))
    {
      if q.level < p.level && Under(q, p) { UpChild(q, p); }
      if Under(q, c) { UpThrough(q, c.level); }
    }
  }

  lemma UpThrough(q: Pos, l: nat)
    requires q.level <= l
    ensures Up(q, l).level == l && Up(q, l + 1) == Parent(Up(q, l))
    decreases l - q.level
  {
    if q.level < l { UpThrough(Parent(q), l); }
  }

  lemma FirstsAll(m: Mem, p: Pos)
    requires p.level > 0 && p in m.node
    ensures Firsts(m, p, ENTRIES) + {p} == Subtree(m, p)
  {
    forall q | q in m.node ensures Under(q, p) && q.level == p.level ==> q == p {}
  }

  /** A child's tables are p's tables. */
  lemma UnderChild(q: Pos, p: Pos, i: nat)
    requires p.level > 0 && i < ENTRIES && Under(q, Child(p, i))
    ensures Under(q, p) && q.level < p.level && Up(q, p.level - 1) == Child(p, i)
  {
    UpThrough(q, p.level - 1);
    assert Parent(Child(p, i)) == p;
  }

  /** Where freewalk stands before entry i of the table at p, having started in m. */
  ghost predicate Walked(m: Mem, m': Mem, p: Pos, i: nat)
    requires p.level > 0
  {
    && Removed(m, m', Firsts(m, p, i)) && KeepsTables(m, m', Firsts(m, p, i) + {p})
    && p in m.node && m.node[p] in m.pt && m.node[p] in m'.pt
    && |m.pt[m.node[p]]| == |m'.pt[m.node[p]]| == ENTRIES
    && (forall j :: 0 <= j < i <= ENTRIES ==> !m'.pt[m.node[p]][j].V())
    && (forall j :: i <= j < ENTRIES ==> m'.pt[m.node[p]][j] == m.pt[m.node[p]][j])
  }

  /** The child at entry i is still whole. */
  lemma ChildBare(m: Mem, m': Mem, p: Pos, i: nat)
    requires p.level > 0 && i < ENTRIES && Bare(m, p) && Walked(m, m', p, i)
    ensures Subtree(m', Child(p, i)) == Subtree(m, Child(p, i)) && Bare(m', Child(p, i))
  {
    var c := Child(p, i);
    FirstsNext(m, p, i);
    forall q | q in m'.node && Under(q, c) ensures BareNode(m', q) && (q.level < c.level ==> Parent(q) in m'.node) {
      UnderChild(q, p, i);
      assert BareNode(m, q) && q in m.node && q !in Firsts(m, p, i) + {p};
      assert q.level < c.level ==> Under(Parent(q), c);
      var t := m.node[q];
      assert m'.role[t] == m.role[t];
      forall j | 0 <= j < ENTRIES ensures BareEntry(m', q, j) {
        assert BareEntry(m, q, j);
        if q.level > 0 && Child(q, j) in m.node {
          assert Parent(Child(q, j)) == q;
          assert Up(Child(q, j), c.level) == Up(q, c.level);
          assert Under(Child(q, j), c);
        }
      }
    }
  }

  /** Removing the child's tables and clearing the entry is one round of the loop. */
  lemma WalkedStep(m: Mem, m1: Mem, m2: Mem, p: Pos, i: nat)
    requires p.level > 0 && i < ENTRIES && Bare(m, p) && OnePlace(m) && Walked(m, m1, p, i)
    requires Removed(m1, m2, Subtree(m1, Child(p, i))) && KeepsTables(m1, m2, Subtree(m1, Child(p, i)))
    ensures m.node[p] in m2.pt && |m2.pt[m.node[p]]| == ENTRIES
    ensures Walked(m, m2.(pt := SetEntry(m2.pt, m.node[p], i, NOPTE)), p, i + 1)
  {
    var t, S, T := m.node[p], Firsts(m, p, i), Subtree(m1, Child(p, i));
    ChildBare(m, m1, p, i);
    FirstsNext(m, p, i);
    RemovedTrans(m, m1, m2, S, T);
    assert p !in S && p !in T by { if p in T { UnderChild(p, p, i); } }
    assert p in m1.node && m1.node[p] == t && m2.pt[t] == m1.pt[t];
    var m3 := m2.(pt := SetEntry(m2.pt, t, i, NOPTE));
    assert BareNode(m, p);
    forall q | q in m.node && q !in S + T + {p} && m.node[q] in m.pt
      ensures m.node[q] in m3.pt && m3.pt[m.node[q]] == m.pt[m.node[q]]
    {
      assert q in m1.node && m1.node[q] == m.node[q];
      assert m1.pt[m1.node[q]] == m.pt[m.node[q]];
      assert m.role[m.node[q]] == Node(q) && m.role[t] == Node(p);
    }
  }

  /** An invalid entry is passed over. */
  lemma WalkedSkip(m: Mem, m1: Mem, p: Pos, i: nat)
    requires p.level > 0 && i < ENTRIES && Bare(m, p) && Walked(m, m1, p, i) && !m.pt[m.node[p]][i].V()
    ensures Walked(m, m1, p, i + 1)
  {
    assert Under(p, p) && BareNode(m, p) && BareEntry(m, p, i);
    NoChild(m, p, i);
    FirstsNext(m, p, i);
  }

  lemma RemovedOnePlace(m: Mem, m': Mem, S: set<Pos>)
    requires OnePlace(m) && Removed(m, m', S)
    ensures OnePlace(m')
  {
    forall q | q in m'.node ensures m'.node[q] in m'.role && m'.role[m'.node[q]] == Node(q) {
      assert m'.node[q] == m.node[q];
    }
    forall a | a in m'.role && m'.role[a].Node? ensures m'.role[a].pos in m'.node && m'.node[m'.role[a].pos] == a {
      assert m'.role[a] == m.role[a];
    }
  }

  /** The last step: the table itself goes, once every entry is clear. */
  lemma WalkedEnd(m: Mem, m1: Mem, p: Pos)
    requires p.level > 0 && OnePlace(m) && Walked(m, m1, p, ENTRIES)
    ensures var m2 := Mem(m1.pt, m1.role[m.node[p] := Free], m1.node - {p});
            Removed(m, m2, Subtree(m, p)) && KeepsTables(m, m2, Subtree(m, p))
  {
    var m2 := Mem(m1.pt, m1.role[m.node[p] := Free], m1.node - {p});
    FirstsAll(m, p);
    var S := Firsts(m, p, ENTRIES);
    assert m.node - S - {p} == m.node - (S + {p});
    forall a | a in m.role
      ensures m2.role[a] == if m.role[a].Node? && m.role[a].pos in S + {p} then Free else m.role[a]
    {
      var x := m1.role[a];
      assert m.role[m.node[p]] == Node(p);
    }
  }

  lemma WFOnePlace(m: Mem)
    requires WF(m)
    ensures OnePlace(m)
  {
    forall q | q in m.node ensures m.node[q] in m.role && m.role[m.node[q]] == Node(q) { assert NodeOk(m, q); }
    forall a | a in m.role && m.role[a].Node? ensures m.role[a].pos in m.node && m.node[m.role[a].pos] == a {
      assert PageOk(m, a);
    }
  }

  /** Every table of r, and no other, is at or below its root table. */
  lemma RootUnder(m: Mem, q: Pos, r: nat)
    requires WF(m) && q in m.node
    ensures Under(q, Pos(r, 2, 0)) <==> q.root == r
  {
    assert NodeOk(m, q);
    if q.level < 2 {
      var q1 := Parent(q);
      assert NodeOk(m, q1);
      if q1.level < 2 {
        assert NodeOk(m, Parent(q1));
        assert Up(q1, 2) == Parent(q1) == Pos(q.root, 2, 0);
      }
      assert Up(q, 2) == Up(q1, 2) == Pos(q.root, 2, 0);
    }
  }

  /** With no page of r mapped its tree is bare. */
  lemma UnmappedIsBare(m: Mem, r: nat)
    requires WF(m) && Root(m, r) && forall v: nat :: !Flat(m, r, v).V()
    ensures Bare(m, Pos(r, 2, 0))
  {
    forall q | q in m.node && Under(q, Pos(r, 2, 0)) ensures BareNode(m, q) && (q.level < 2 ==> Parent(q) in m.node) {
      RootUnder(m, q, r);
      assert NodeOk(m, q);
      forall i | 0 <= i < ENTRIES ensures BareEntry(m, q, i) {
        assert EntryOk(m, q, i);
        if q.level == 0 {
          var v := q.prefix * ENTRIES + i;
          assert v / ENTRIES == q.prefix && v % ENTRIES == i && Flat(m, r, v) == m.pt[m.node[q]][i];
        } else if Child(q, i) in m.node {
          assert NodeOk(m, Child(q, i)) && Parent(Child(q, i)) == q;
        }
      }
    }
  }

  /** Removing a tree through which nothing is mapped leaves the other trees as they were. */
  lemma RemoveRoot(m: Mem, m': Mem, r: nat)
    requires WF(m) && Root(m, r) && forall v: nat :: !Flat(m, r, v).V()
    requires Removed(m, m', Subtree(m, Pos(r, 2, 0))) && KeepsTables(m, m', Subtree(m, Pos(r, 2, 0)))
    ensures WF(m') && !Root(m', r)
    ensures forall r': nat, v: nat :: r' != r ==> Flat(m', r', v) == Flat(m, r', v)
    ensures forall v: nat :: Flat(m', r, v) == NOPTE
    ensures forall a :: a in m.role && m.role[a].Node? && m.role[a].pos.root == r ==> m'.role[a] == Free
  {
    var S := Subtree(m, Pos(r, 2, 0));
    forall q | q in m.node ensures q in S <==> q.root == r { RootUnder(m, q, r); }
    forall r': nat, v: nat | r' != r ensures Flat(m', r', v) == Flat(m, r', v) {
      var q := Pos(r', 0, v / ENTRIES);
      if q in m.node { assert NodeOk(m, q) && q !in S; }
    }
    forall q | q in m'.node ensures NodeOk(m', q) {
      assert q in m.node && q !in S && NodeOk(m, q) && m'.node[q] == m.node[q];
      if q.level < 2 { assert NodeOk(m, Parent(q)) && Parent(q) !in S && m'.node[Parent(q)] == m.node[Parent(q)]; }
      forall i | 0 <= i < ENTRIES ensures EntryOk(m', q, i) { assert EntryOk(m, q, i); }
    }
    forall a | a in m'.role ensures PageOk(m', a) {
      assert PageOk(m, a);
      if m.role[a].Frame? { assert Flat(m, m.role[a].root, m.role[a].vpn).V(); }
    }
    forall a | a in m.role && m.role[a].Node? && m.role[a].pos.root == r ensures m'.role[a] == Free {
      assert PageOk(m, a);
    }
  }

  /** freewalk's progress through the table at p, which may also be a leaf table. */
  ghost predicate Standing(m: Mem, m': Mem, p: Pos, i: nat) {
    match p.level
    case 0 => m' == m
    case _ => Walked(m, m', p, i)
  }

  lemma StandingStart(m: Mem, p: Pos)
    requires Bare(m, p) && p in m.node
    ensures Standing(m, m, p, 0)
  {
    assert Under(p, p) && BareNode(m, p);
    if p.level > 0 { assert Firsts(m, p, 0) == {}; }
  }

  /** What freewalk finds in entry i: nothing, or a child that is still whole. */
  lemma StandingEntry(m: Mem, m1: Mem, p: Pos, i: nat)
    requires Bare(m, p) && OnePlace(m) && p in m.node && Standing(m, m1, p, i) && i < ENTRIES
    ensures p in m1.node && m1.node[p] == m.node[p] && m.node[p] in m1.pt && |m1.pt[m.node[p]]| == ENTRIES
    ensures var e := m1.pt[m.node[p]][i];
            && (!e.V() ==> Standing(m, m1, p, i + 1))
            && (e.V() ==> p.level > 0 && !e.Leaf() && OnePlace(m1) && Bare(m1, Child(p, i))
                          && Child(p, i) in m1.node && m1.node[Child(p, i)] == e.ppn)
  {
    assert Under(p, p) && BareNode(m, p) && BareEntry(m, p, i);
    if p.level > 0 {
      var e := m1.pt[m.node[p]][i];
      assert p !in Firsts(m, p, i);
      if e.V() {
        ChildBare(m, m1, p, i);
        RemovedOnePlace(m, m1, Firsts(m, p, i));
        FirstsNext(m, p, i);
        assert Under(Child(p, i), Child(p, i));
      } else {
        WalkedSkip(m, m1, p, i);
      }
    }
  }

  lemma StandingStep(m: Mem, m1: Mem, m2: Mem, p: Pos, i: nat)
    requires Bare(m, p) && OnePlace(m) && p in m.node && p.level > 0 && Standing(m, m1, p, i) && i < ENTRIES
    requires Removed(m1, m2, Subtree(m1, Child(p, i))) && KeepsTables(m1, m2, Subtree(m1, Child(p, i)))
    ensures m.node[p] in m2.pt && |m2.pt[m.node[p]]| == ENTRIES
    ensures Standing(m, m2.(pt := SetEntry(m2.pt, m.node[p], i, NOPTE)), p, i + 1)
  {
    WalkedStep(m, m1, m2, p, i);
  }

  lemma StandingEnd(m: Mem, m1: Mem, p: Pos)
    requires Bare(m, p) && OnePlace(m) && p in m.node && Standing(m, m1, p, ENTRIES)
    ensures m.node[p] in m1.role && m1.role[m.node[p]] == Node(p)
    ensures var m2 := Mem(m1.pt, m1.role[m.node[p] := Free], m1.node - {p});
            Removed(m, m2, Subtree(m, p)) && KeepsTables(m, m2, Subtree(m, p))
  {
    if p.level > 0 {
      assert p !in Firsts(m, p, ENTRIES);
      WalkedEnd(m, m1, p);
    } else {
      assert Subtree(m, p) == {p} by {
        forall q | q in m.node && Under(q, p) ensures q == p {}
        assert Under(p, p);
      }
    }
  }
}
