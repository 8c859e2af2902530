/** The directory tree (kernel/fs.c, kernel/sysfile.c): inodes with their link counts and entries, and
    what creating, linking, unlinking and freeing an inode keep. */
module DirTree {
  import opened Common

  const T_DIR: nat := 1
  const T_FILE: nat := 2
  const T_DEVICE: nat := 3
  const ROOTINO: nat := 1
  const DIRENTS: nat := 17152            // MAXFILE * BSIZE / sizeof(struct dirent)
  const SHRT_MAX: int := 32767

  /** inum 0 marks an entry that is not in use. */
  datatype Dirent = Dirent(inum: nat, name: string)

  const NOENT: Dirent := Dirent(0, "")

  /** An inode; kind 0 is a free one. Only directories have entries here. */
  datatype Node = Node(kind: nat, nlink: int, ents: seq<Dirent>)

  const FREENODE: Node := Node(0, 0, [])

  type Nodes = seq<Node>

  /** nlink++ on a short. */
  function Inc(nlink: int): int { if nlink == SHRT_MAX then -SHRT_MAX - 1 else nlink + 1 }

  /** A directory that some entry still names. */
  predicate Linked(n: Node) { n.kind == T_DIR && n.nlink > 0 }

  /** Entry k of the linked directory d names inode i, and is not its ".". */
  predicate Names(v: Nodes, d: nat, k: nat, i: nat) {
    d < |v| && Linked(v[d]) && k < |v[d].ents| && v[d].ents[k].inum == i && v[d].ents[k].name != "."
  }

  /** All such entries. */
  ghost function RefsTo(v: Nodes, i: nat): (s: set<(nat, nat)>)
    ensures forall d: nat, k: nat {:trigger Names(v, d, k, i)} :: (d, k) in s <==> Names(v, d, k, i)
  {
    set d: nat, k: nat | d < |v| && k < |v[d].ents| && Names(v, d, k, i) :: (d, k)
  }

  /** Every link count is the number of entries other than "." that name the inode in linked
      directories. */
  ghost predicate LinksOk(v: Nodes) {
    forall i: nat {:trigger RefsTo(v, i)} :: 0 < i < |v| ==> v[i].nlink == |RefsTo(v, i)|
  }

  ghost predicate NamesDistinct(ents: seq<Dirent>) {
    forall j: nat, k: nat {:trigger ents[j], ents[k]} :: j < k < |ents| && ents[j].inum != 0 && ents[k].inum != 0 ==>
      ents[j].name != ents[k].name
  }

  ghost predicate NodeOk(v: Nodes, i: nat)
    requires i < |v|
  {
    var n := v[i];
    n.nlink <= SHRT_MAX && if n.kind == T_DIR then
      && i > 0 && 2 <= |n.ents| <= DIRENTS && n.ents[0] == Dirent(i, ".")
      && n.ents[1].name == ".." && 0 < n.ents[1].inum < |v| && NamesDistinct(n.ents)
      && (i != ROOTINO ==> n.ents[1].inum != i)
      && (n.nlink <= 0 ==> forall k: nat {:trigger n.ents[k]} :: 2 <= k < |n.ents| ==> n.ents[k].inum == 0)
    else n.ents == [] && (n.kind == 0 ==> n.nlink == 0) && (i == 0 ==> n.kind == 0)
  }

  /** What an entry beyond "." and ".." of a linked directory names is an inode in use; a directory so
      named is one level further down, and has no other name. */
  ghost predicate EntryOk(v: Nodes, depth: seq<nat>, d: nat, k: nat)
    requires d < |v| && k < |v[d].ents| && |depth| == |v|
  {
    var i := v[d].ents[k].inum;
    i != 0 ==>
      && i < |v| && v[i].kind != 0
      && (v[i].kind == T_DIR ==>
            && i != ROOTINO && depth[i] == depth[d] + 1 && |v[i].ents| >= 2 && v[i].ents[1].inum == d
            && forall j: nat {:trigger v[d].ents[j]} :: 2 <= j < |v[d].ents| && v[d].ents[j].inum == i ==> j == k)
  }

  /** Entry k of directory p, beyond its dots, names d. */
  predicate HasChild(v: Nodes, p: nat, k: nat, d: nat) {
    p < |v| && 2 <= k < |v[p].ents| && v[p].ents[k].inum == d
  }

  /** The ".." of a linked directory leads to the linked directory that names it; that of the root to
      the root. */
  ghost predicate UpOk(v: Nodes, depth: seq<nat>, d: nat)
    requires d < |v| && |v[d].ents| >= 2 && |depth| == |v|
  {
    var p := v[d].ents[1].inum;
    && p < |v| && Linked(v[p])
    && if d == ROOTINO then p == ROOTINO && depth[d] == 0 else exists k: nat :: HasChild(v, p, k, d)
  }

  ghost predicate TreeOk(v: Nodes, depth: seq<nat>) {
    && |depth| == |v| && ROOTINO < |v| && Linked(v[ROOTINO])
    && (forall i: nat {:trigger NodeOk(v, i)} :: i < |v| ==> NodeOk(v, i))
    && (forall d: nat, k: nat {:trigger EntryOk(v, depth, d, k)} ::
          d < |v| && Linked(v[d]) && 2 <= k < |v[d].ents| ==> EntryOk(v, depth, d, k))
    && (forall d: nat {:trigger UpOk(v, depth, d)} :: d < |v| && Linked(v[d]) && |v[d].ents| >= 2 ==> UpOk(v, depth, d))
  }

  ghost predicate Inv(v: Nodes, depth: seq<nat>) {
    TreeOk(v, depth) && LinksOk(v)
  }

  // ---------------------------------------------------------------------------------
  // What it is good for.

  /** Every entry in use of a linked directory names an inode in use that has links. */
  lemma NoDangling(v: Nodes, depth: seq<nat>, d: nat, k: nat)
    requires Inv(v, depth) && d < |v| && Linked(v[d]) && k < |v[d].ents| && v[d].ents[k].inum != 0
    ensures v[d].ents[k].inum < |v| && v[v[d].ents[k].inum].kind != 0 && v[v[d].ents[k].inum].nlink > 0
  {
    assert NodeOk(v, d) && UpOk(v, depth, d);
    var i := v[d].ents[k].inum;
    if k >= 2 {
      assert EntryOk(v, depth, d, k);
      NotDot(v, d, k);
      assert Names(v, d, k, i) && (d, k) in RefsTo(v, i);
    }
  }

  /** Only the first entry is called ".", and only the second "..". */
  lemma NotDot(v: Nodes, d: nat, k: nat)
    requires d < |v| && NodeOk(v, d) && v[d].kind == T_DIR && 0 < k < |v[d].ents| && v[d].ents[k].inum != 0
    ensures v[d].ents[k].name != "." && (k > 1 ==> v[d].ents[k].name != "..")
  {
    var a, b, e := v[d].ents[0], v[d].ents[1], v[d].ents[k];
  }

  /** The parents of a linked directory, nearest first. */
  ghost function Up(v: Nodes, d: nat, n: nat): nat
    decreases n
  {
    if n == 0 then d else if d < |v| && |v[d].ents| >= 2 then Up(v, v[d].ents[1].inum, n - 1) else 0
  }

  /** Linked directories form a tree: from each, ".." leads to the root in as many steps as it is deep,
      through linked directories. */
  lemma {:induction false} ReachesRoot(v: Nodes, depth: seq<nat>, d: nat)
    requires Inv(v, depth) && d < |v| && Linked(v[d])
    ensures Up(v, d, depth[d]) == ROOTINO
    decreases depth[d]
  {
    assert NodeOk(v, d) && UpOk(v, depth, d);
    if d != ROOTINO {
      var p := v[d].ents[1].inum;
      ParentAbove(v, depth, d);
      ReachesRoot(v, depth, p);
    }
  }

  lemma ParentAbove(v: Nodes, depth: seq<nat>, d: nat)
    requires Inv(v, depth) && d < |v| && Linked(v[d]) && d != ROOTINO
    ensures |v[d].ents| >= 2 && v[d].ents[1].inum < |v| && depth[d] == depth[v[d].ents[1].inum] + 1
  {
    assert NodeOk(v, d) && UpOk(v, depth, d);
    var p := v[d].ents[1].inum;
    var k: nat :| HasChild(v, p, k, d);
    assert EntryOk(v, depth, p, k);
  }

  predicate Childless(n: Node) {
    forall j: nat {:trigger n.ents[j]} :: 2 <= j < |n.ents| ==> n.ents[j].inum == 0
  }

  /** No ".." leads to a directory without children, unless it is the root's own. */
  lemma NoParentOf(v: Nodes, depth: seq<nat>, d: nat, i: nat)
    requires Inv(v, depth) && d < |v| && Linked(v[d]) && i < |v| && i != ROOTINO && Childless(v[i])
    ensures |v[d].ents| >= 2 && v[d].ents[1].inum != i
  {
    assert NodeOk(v, d) && UpOk(v, depth, d);
    forall j: nat ensures d != 0 ==> !HasChild(v, i, j, d) {
      if 2 <= j < |v[i].ents| { var e := v[i].ents[j]; }
    }
  }

  /** A linked directory without children has one name: its link count is 1. */
  lemma EmptyHasOneLink(v: Nodes, depth: seq<nat>, d: nat, k: nat, i: nat)
    requires Inv(v, depth) && Names(v, d, k, i) && k >= 2 && 0 < i < |v| && v[i].kind == T_DIR && Childless(v[i])
    ensures RefsTo(v, i) == {(d, k)} && v[i].nlink == 1 && i != d && i != ROOTINO
    ensures |v[i].ents| >= 2 && v[i].ents[1].inum == d
  {
    assert EntryOk(v, depth, d, k) && NodeOk(v, i) && NodeOk(v, d);
    forall d': nat, k': nat | Names(v, d', k', i) ensures d' == d && k' == k {
      NoParentOf(v, depth, d', i);
      assert NodeOk(v, d') && k' >= 2 && EntryOk(v, depth, d', k');
      var e := v[d].ents[k'];
    }
    assert RefsTo(v, i) == {(d, k)} by {
      forall x | x in RefsTo(v, i) ensures x == (d, k) { assert Names(v, x.0, x.1, i); }
    }
  }

  /** What has no links is named by no linked directory. */
  lemma NoLinksNoNames(v: Nodes, i: nat, d: nat, k: nat)
    requires LinksOk(v) && 0 < i < |v| && v[i].nlink == 0
    ensures !Names(v, d, k, i)
  {
    assert RefsTo(v, i) == {};
    assert (d, k) !in RefsTo(v, i);
  }

  // ---------------------------------------------------------------------------------
  // Changes.

  /** Where dirlink writes: an entry not in use, or one past the last. */
  predicate FreeSlot(ents: seq<Dirent>, k: nat) {
    2 <= k <= |ents| && (k == |ents| ==> k < DIRENTS) && (k < |ents| ==> ents[k].inum == 0)
  }

  predicate Unnamed(ents: seq<Dirent>, name: string) {
    forall k: nat {:trigger ents[k]} :: k < |ents| && ents[k].inum != 0 ==> ents[k].name != name
  }

  function SetEnt(ents: seq<Dirent>, k: nat, e: Dirent): (r: seq<Dirent>)
    requires k <= |ents|
    ensures |r| == if k < |ents| then |ents| else |ents| + 1
    ensures forall j: nat {:trigger r[j]} :: j < |r| ==> r[j] == if j == k then e else ents[j]
  {
    if k < |ents| then ents[k := e] else ents + [e]
  }

  /** A free inode put to use, with no links yet; a directory has its dots. */
  ghost predicate Unborn(v: Nodes, i: nat, n: Node) {
    && n.nlink == 0 && n.kind != 0
    && if n.kind == T_DIR then
         exists d: nat {:trigger Dots(i, d)} :: 0 < d < |v| && d != i && n.ents == Dots(i, d)
       else n.ents == []
  }

  function Dots(i: nat, d: nat): seq<Dirent> { [Dirent(i, "."), Dirent(d, "..")] }

  lemma RefsEqual(v: Nodes, i: nat, s: set<(nat, nat)>)
    requires forall d: nat, k: nat {:trigger (d, k) in s} {:trigger Names(v, d, k, i)} :: (d, k) in s <==>
               Names(v, d, k, i)
    ensures RefsTo(v, i) == s
  {
    forall x ensures x in RefsTo(v, i) <==>
        x in s { assert x == (x.0, x.1) && (Names(v, x.0, x.1, i) <==> (x.0, x.1) in s); }
  }

  /** Changes to an inode that is not linked, before and after, leave the entries that count alone. */
  lemma SameRefs(v: Nodes, i: nat, n: Node, j: nat)
    requires i < |v| && !Linked(v[i]) && !Linked(n)
    ensures RefsTo(v[i := n], j) == RefsTo(v, j)
  {
    var v' := v[i := n];
    RefsEqual(v', j, RefsTo(v, j));
  }

  /** An inode without links may become free, and a free one be put to use. */
  lemma UnlinkedKeeps(v: Nodes, depth: seq<nat>, i: nat, n: Node)
    requires Inv(v, depth) && 0 < i < |v| && v[i].nlink == 0 && (n == FREENODE || Unborn(v, i, n))
    ensures Inv(v[i := n], depth)
  {
    var v' := v[i := n];
    forall j: nat | 0 < j < |v|
        ensures v'[j].nlink == |RefsTo(v', j)| { SameRefs(v, i, n, j); assert v[j].nlink == |RefsTo(v, j)|; }
    forall j: nat | j < |v| ensures NodeOk(v', j) { assert NodeOk(v, j); }
    forall d: nat, k: nat | d < |v| && Linked(v'[d]) && 2 <= k < |v'[d].ents| ensures EntryOk(v', depth, d, k) {
      assert EntryOk(v, depth, d, k) && NodeOk(v, d);
      NoLinksNoNames(v, i, d, k);
      if v[d].ents[k].inum != 0 { NotDot(v, d, k); }
    }
    forall d: nat | d < |v| && Linked(v'[d]) && |v'[d].ents| >= 2 ensures UpOk(v', depth, d) {
      assert UpOk(v, depth, d);
      var p := v[d].ents[1].inum;
      if d != ROOTINO {
        var k: nat :| HasChild(v, p, k, d);
        assert HasChild(v', p, k, d);
      }
    }
  }

  // A new name for a file or device.

  function LinkFile(v: Nodes, d: nat, k: nat, name: string, i: nat): Nodes
    requires d < |v| && i < |v| && k <= |v[d].ents|
  {
    var v1 := v[i := v[i].(nlink := Inc(v[i].nlink))];
    if i == d then v1 else v1[d := v[d].(ents := SetEnt(v[d].ents, k, Dirent(i, name)))]
  }

  ghost predicate CanLink(v: Nodes, d: nat, k: nat, name: string, i: nat) {
    && d < |v| && v[d].kind == T_DIR && FreeSlot(v[d].ents, k) && Unnamed(v[d].ents, name)
    && 0 < i < |v| && v[i].kind != 0
  }

  lemma LinkFileName(v: Nodes, d: nat, k: nat, name: string, i: nat, j: nat, d': nat, k': nat)
    requires CanLink(v, d, k, name, i) && v[i].kind != T_DIR && NodeOk(v, d) && 0 < j
    ensures Names(LinkFile(v, d, k, name, i), d', k', j)
            <==> Names(v, d', k', j) || (j == i && Linked(v[d]) && d' == d && k' == k)
    ensures !Names(v, d, k, j)
  {
    var v' := LinkFile(v, d, k, name, i);
    assert v[d].ents[0].name == ".";
    if d' == d && k' < |v'[d].ents| { var e := v'[d].ents[k']; }
  }

  lemma LinkFileNames(v: Nodes, d: nat, k: nat, name: string, i: nat, j: nat)
    requires CanLink(v, d, k, name, i) && v[i].kind != T_DIR && NodeOk(v, d) && 0 < j
    ensures RefsTo(LinkFile(v, d, k, name, i), j) == RefsTo(v, j) + if j == i && Linked(v[d]) then {(d, k)} else {}
    ensures (d, k) !in RefsTo(v, j)
  {
    hide Linked, LinkFile, Names;
    var s := RefsTo(v, j) + if j == i && Linked(v[d]) then {(d, k)} else {};
    forall d': nat, k': nat ensures (d', k') in s <==> Names(LinkFile(v, d, k, name, i), d', k', j) {
      LinkFileName(v, d, k, name, i, j, d', k');
    }
    RefsEqual(LinkFile(v, d, k, name, i), j, s);
    LinkFileName(v, d, k, name, i, j, d, k);
  }

  /** With the counts in order, a link keeps the tree. */
  lemma LinkFileTree(v: Nodes, depth: seq<nat>, d: nat, k: nat, name: string, i: nat)
    requires Inv(v, depth) && CanLink(v, d, k, name, i) && v[i].kind != T_DIR && Linked(v[d])
    ensures TreeOk(LinkFile(v, d, k, name, i), depth)
  {
    var v' := LinkFile(v, d, k, name, i);
    assert NodeOk(v, d) && NodeOk(v, i);
    forall j: nat | j < |v| ensures NodeOk(v', j) {
      assert NodeOk(v, j);
      if j == d { assert NamesDistinct(v'[d].ents) by { LinkDistinct(v[d].ents, k, Dirent(i, name)); } }
    }
    forall d': nat, k': nat | d' < |v| && Linked(v'[d']) && 2 <= k' < |v'[d'].ents| ensures EntryOk(v', depth, d', k') {
      LinkEntry(v, depth, d, k, Dirent(i, name), v', d', k');
    }
    forall d': nat | d' < |v| && Linked(v'[d']) && |v'[d'].ents| >= 2 ensures UpOk(v', depth, d') {
      assert NodeOk(v, d') && UpOk(v, depth, d');
      var p := v[d'].ents[1].inum;
      assert v'[d'].ents[1] == v[d'].ents[1];
      if d' != ROOTINO {
        var k': nat :| HasChild(v, p, k', d');
        assert v'[p].ents[k'] == v[p].ents[k'];
        assert HasChild(v', p, k', d');
      }
    }
  }

  lemma LinkDistinct(ents: seq<Dirent>, k: nat, e: Dirent)
    requires NamesDistinct(ents) && FreeSlot(ents, k) && Unnamed(ents, e.name)
    ensures NamesDistinct(SetEnt(ents, k, e))
  {
    var r := SetEnt(ents, k, e);
    forall a: nat, b: nat | a < b < |r| && r[a].inum != 0 && r[b].inum != 0 ensures r[a].name != r[b].name {
      if a != k { assert r[a] == ents[a]; }
      if b != k { assert r[b] == ents[b]; }
    }
  }

  /** The other entries are as good as they were. */
  lemma LinkEntry(v: Nodes, depth: seq<nat>, d: nat, k: nat, e: Dirent, v': Nodes, d': nat, k': nat)
    requires Inv(v, depth) && CanLink(v, d, k, e.name, e.inum) && v[e.inum].kind != T_DIR && Linked(v[d])
    requires v' == LinkFile(v, d, k, e.name, e.inum)
    requires d' < |v| && Linked(v[d']) && 2 <= k' < |v'[d'].ents|
    ensures EntryOk(v', depth, d', k')
  {
    assert NodeOk(v, e.inum);
    if d' == d && k' == k {
      assert v'[d].ents[k] == e;
    } else {
      assert EntryOk(v, depth, d', k') && v'[d'].ents[k'] == v[d'].ents[k'];
      var i := v[d'].ents[k'].inum;
      if i != 0 && v[i].kind == T_DIR {
        assert NodeOk(v, i);
        forall j: nat | 2 <= j < |v'[d'].ents| && v'[d'].ents[j].inum == i
            ensures j == k' { assert v'[d'].ents[j] == v[d'].ents[j]; }
        assert v'[i].ents[1] == v[i].ents[1];
      }
    }
  }

  /** A link keeps the invariant if and only if the directory is linked and the count does not wrap. */
  lemma LinkFileKeeps(v: Nodes, depth: seq<nat>, d: nat, k: nat, name: string, i: nat)
    requires Inv(v, depth) && CanLink(v, d, k, name, i) && v[i].kind != T_DIR
    ensures Linked(v[d]) && v[i].nlink < SHRT_MAX ==> Inv(LinkFile(v, d, k, name, i), depth)
    ensures !(Linked(v[d]) && v[i].nlink < SHRT_MAX) ==> !LinksOk(LinkFile(v, d, k, name, i))
  {
    hide EntryOk, UpOk, RefsTo, Names;
    var v' := LinkFile(v, d, k, name, i);
    assert NodeOk(v, i) && NodeOk(v, d);
    if Linked(v[d]) && v[i].nlink < SHRT_MAX {
      forall j: nat | 0 < j < |v| ensures v'[j].nlink == |RefsTo(v', j)| {
        LinkFileNames(v, d, k, name, i, j);
        assert v[j].nlink == |RefsTo(v, j)|;
      }
      LinkFileTree(v, depth, d, k, name, i);
    } else {
      LinkFileNames(v, d, k, name, i, i);
      assert v[i].nlink == |RefsTo(v, i)| && v'[i].nlink != |RefsTo(v', i)|;
    }
  }

  // The name of a new directory i in d, which its ".." refers to.

  function LinkDir(v: Nodes, d: nat, k: nat, name: string, i: nat): Nodes
    requires d < |v| && i < |v| && k <= |v[d].ents|
  {
    v[i := v[i].(nlink := 1)][d := Node(v[d].kind, Inc(v[d].nlink), SetEnt(v[d].ents, k, Dirent(i, name)))]
  }

  ghost predicate CanLinkDir(v: Nodes, d: nat, k: nat, name: string, i: nat) {
    CanLink(v, d, k, name, i) && v[i] == Node(T_DIR, 0, Dots(i, d)) && i != d
  }

  lemma LinkDirName(v: Nodes, d: nat, k: nat, name: string, i: nat, j: nat, d': nat, k': nat)
    requires CanLinkDir(v, d, k, name, i) && NodeOk(v, d) && 0 < j && Linked(v[d]) && v[d].nlink < SHRT_MAX
    ensures Names(LinkDir(v, d, k, name, i), d', k', j)
            <==> Names(v, d', k', j) || (j == i && d' == d && k' == k) || (j == d && d' == i && k' == 1)
    ensures !Names(v, d, k, j) && !Names(v, i, 1, j)
  {
    var v' := LinkDir(v, d, k, name, i);
    assert v[d].ents[0].name == ".";
    if d' == d && k' < |v'[d].ents| { var e := v'[d].ents[k']; }
  }

  /** The entry in the directory itself, and the ".." of the new one. */
  lemma LinkDirNames(v: Nodes, d: nat, k: nat, name: string, i: nat, j: nat)
    requires CanLinkDir(v, d, k, name, i) && NodeOk(v, d) && 0 < j && Linked(v[d]) && v[d].nlink < SHRT_MAX
    ensures RefsTo(LinkDir(v, d, k, name, i), j)
            == RefsTo(v, j) + (if j == i then {(d, k)} else {}) + if j == d then {(i, 1)} else {}
    ensures (d, k) !in RefsTo(v, j) && (i, 1) !in RefsTo(v, j)
  {
    hide Linked, LinkDir, Names;
    var s := RefsTo(v, j) + (if j == i then {(d, k)} else {}) + if j == d then {(i, 1)} else {};
    forall d': nat, k': nat ensures (d', k') in s <==> Names(LinkDir(v, d, k, name, i), d', k', j) {
      LinkDirName(v, d, k, name, i, j, d', k');
    }
    RefsEqual(LinkDir(v, d, k, name, i), j, s);
    LinkDirName(v, d, k, name, i, j, d, k);
  }

  lemma LinkDirEntry(v: Nodes, depth: seq<nat>, d: nat, k: nat, e: Dirent, v': Nodes, d': nat, k': nat)
    requires Inv(v, depth) && CanLinkDir(v, d, k, e.name, e.inum) && Linked(v[d]) && v[d].nlink < SHRT_MAX
    requires v' == LinkDir(v, d, k, e.name, e.inum) && d' < |v| && Linked(v'[d']) && 2 <= k' < |v'[d'].ents|
    ensures EntryOk(v', depth[e.inum := depth[d] + 1], d', k')
  {
    var depth' := depth[e.inum := depth[d] + 1];
    assert NodeOk(v, d) && NodeOk(v, d');
    if d' == d && k' == k {
      forall j: nat | 2 <= j < |v'[d].ents| && v'[d].ents[j].inum == e.inum ensures j == k {
        assert j != k ==> v'[d].ents[j] == v[d].ents[j];
        NotNamed(v, depth, d, j, e.inum);
      }
    } else {
      assert EntryOk(v, depth, d', k') && v'[d'].ents[k'] == v[d'].ents[k'];
      NotNamed(v, depth, d', k', e.inum);
      var i := v[d'].ents[k'].inum;
      if i != 0 && v[i].kind == T_DIR {
        assert NodeOk(v, i);
        forall j: nat | 2 <= j < |v'[d'].ents| && v'[d'].ents[j].inum == i
            ensures j == k' { assert j != k ==> v'[d'].ents[j] == v[d'].ents[j]; }
        assert v'[i].ents[1] == v[i].ents[1];
      }
    }
  }

  lemma NotNamed(v: Nodes, depth: seq<nat>, d: nat, k: nat, i: nat)
    requires Inv(v, depth) && 0 < i < |v| && v[i].nlink == 0 && d < |v| && Linked(v[d])
    ensures 1 <= k < |v[d].ents| ==> v[d].ents[k].inum != i
  {
    assert NodeOk(v, d);
    NoLinksNoNames(v, i, d, k);
    if 1 <= k < |v[d].ents| && v[d].ents[k].inum != 0 { NotDot(v, d, k); }
  }

  lemma LinkDirTree(v: Nodes, depth: seq<nat>, d: nat, k: nat, name: string, i: nat)
    requires Inv(v, depth) && CanLinkDir(v, d, k, name, i) && Linked(v[d]) && v[d].nlink < SHRT_MAX
    ensures TreeOk(LinkDir(v, d, k, name, i), depth[i := depth[d] + 1])
  {
    var v', depth' := LinkDir(v, d, k, name, i), depth[i := depth[d] + 1];
    assert NodeOk(v, d) && NodeOk(v, i);
    forall j: nat | j < |v| ensures NodeOk(v', j) {
      assert NodeOk(v, j);
      if j == d { assert NamesDistinct(v'[d].ents) by { LinkDistinct(v[d].ents, k, Dirent(i, name)); } }
    }
    forall d': nat, k': nat | d' < |v| && Linked(v'[d']) && 2 <= k' < |v'[d'].ents|
        ensures EntryOk(v', depth', d', k') {
      LinkDirEntry(v, depth, d, k, Dirent(i, name), v', d', k');
    }
    forall d': nat | d' < |v| && Linked(v'[d']) && |v'[d'].ents| >= 2 ensures UpOk(v', depth', d') {
      assert NodeOk(v, d');
      if d' == i {
        assert HasChild(v', d, k, i);
      } else {
        assert UpOk(v, depth, d') && v'[d'].ents[1] == v[d'].ents[1];
        var p := v[d'].ents[1].inum;
        if d' != ROOTINO {
          var k': nat :| HasChild(v, p, k', d');
          assert v'[p].ents[k'] == v[p].ents[k'];
          assert HasChild(v', p, k', d');
        }
      }
    }
  }

  /** In a directory that is not linked, the new one's ".." makes its own ".." count again. */
  lemma LinkDirBreaks(v: Nodes, depth: seq<nat>, d: nat, k: nat, name: string, i: nat)
    requires Inv(v, depth) && CanLinkDir(v, d, k, name, i) && !(Linked(v[d]) && v[d].nlink < SHRT_MAX)
    ensures !LinksOk(LinkDir(v, d, k, name, i))
  {
    var v' := LinkDir(v, d, k, name, i);
    assert NodeOk(v, d) && v[d].nlink == |RefsTo(v, d)|;
    if v[d].nlink == SHRT_MAX {
      assert v'[d].nlink != |RefsTo(v', d)|;
    } else {
      var p := v[d].ents[1].inum;
      assert d != ROOTINO;
      NewParentNames(v, d, k, name, i, p);
      hide RefsTo, TreeOk;
      assert v[p].nlink == |RefsTo(v, p)| && v'[p].nlink != |RefsTo(v', p)|;
    }
  }

  /** The unlinked directory d becomes linked, and with it its ".." counts. */
  lemma NewParentNames(v: Nodes, d: nat, k: nat, name: string, i: nat, p: nat)
    requires CanLinkDir(v, d, k, name, i) && NodeOk(v, d) && !Linked(v[d]) && v[d].nlink >= 0 && p == v[d].ents[1].inum
    requires v[d].nlink < SHRT_MAX && p != d
    ensures |RefsTo(LinkDir(v, d, k, name, i), p)| == |RefsTo(v, p)| + 1 + if p == i then 1 else 0
  {
    var v' := LinkDir(v, d, k, name, i);
    assert v'[d].ents[1] == v[d].ents[1];
    var s := RefsTo(v, p) + {(d, 1)} + if p == i then {(d, k)} else {};
    forall d': nat, k': nat ensures (d', k') in s <==> Names(v', d', k', p) {
      assert (d', k') in RefsTo(v, p) <==> Names(v, d', k', p);
      if d' == d && k' < |v'[d].ents| { var e := v'[d].ents[k']; }
    }
    RefsEqual(v', p, s);
    assert (d, 1) !in RefsTo(v, p) && (d, k) !in RefsTo(v, p) by { assert !Names(v, d, 1, p) && !Names(v, d, k, p); }
  }

  /** mkdir keeps the invariant if and only if the directory it makes one in is linked and its count does
      not wrap. */
  lemma LinkDirKeeps(v: Nodes, depth: seq<nat>, d: nat, k: nat, name: string, i: nat)
    requires Inv(v, depth) && CanLinkDir(v, d, k, name, i)
    ensures Linked(v[d]) && v[d].nlink < SHRT_MAX ==> Inv(LinkDir(v, d, k, name, i), depth[i := depth[d] + 1])
    ensures !(Linked(v[d]) && v[d].nlink < SHRT_MAX) ==> !LinksOk(LinkDir(v, d, k, name, i))
  {
    if Linked(v[d]) && v[d].nlink < SHRT_MAX {
      var v' := LinkDir(v, d, k, name, i);
      assert NodeOk(v, d);
      forall j: nat | 0 < j < |v| ensures v'[j].nlink == |RefsTo(v', j)| {
        LinkDirNames(v, d, k, name, i, j);
        assert v[j].nlink == |RefsTo(v, j)|;
      }
      LinkDirTree(v, depth, d, k, name, i);
    } else {
      LinkDirBreaks(v, depth, d, k, name, i);
    }
  }

  // A name taken away, of a file or of an empty directory.

  function Unlink(v: Nodes, d: nat, k: nat, i: nat): Nodes
    requires d < |v| && i < |v| && k < |v[d].ents| && i != d
  {
    v[i := v[i].(nlink := v[i].nlink - 1)]
     [d := Node(v[d].kind, if v[i].kind == T_DIR then v[d].nlink - 1 else v[d].nlink, v[d].ents[k := NOENT])]
  }

  /** Entry k of the linked directory d, beyond its dots, names i, a file or an empty directory. */
  ghost predicate CanUnlink(v: Nodes, d: nat, k: nat, i: nat) {
    && Names(v, d, k, i) && k >= 2 && 0 < i < |v| && i != d && v[i].kind != 0
    && (v[i].kind == T_DIR ==> Childless(v[i]) && |v[i].ents| >= 2 && v[i].ents[1].inum == d && v[i].nlink == 1)
  }

  /** A directory that has a child is named by its own parent besides. */
  lemma ParentStays(v: Nodes, depth: seq<nat>, d: nat, i: nat)
    requires Inv(v, depth) && d < |v| && Linked(v[d]) && i < |v| && Linked(v[i]) && i != ROOTINO
    requires |v[i].ents| >= 2 && v[i].ents[1].inum == d
    ensures v[d].nlink > 1
  {
    assert NodeOk(v, d) && NodeOk(v, i) && UpOk(v, depth, d);
    var a, b := (i, 1), (ROOTINO, 1);
    assert Names(v, i, 1, d);
    if d != ROOTINO {
      var p := v[d].ents[1].inum;
      var k: nat :| HasChild(v, p, k, d);
      assert NodeOk(v, p);
      NotDot(v, p, k);
      assert Names(v, p, k, d);
      b := (p, k);
    } else {
      assert Names(v, ROOTINO, 1, d);
    }
    SubsetSize({a, b}, RefsTo(v, d));
    assert v[d].nlink == |RefsTo(v, d)|;
  }

  lemma UnlinkName(v: Nodes, d: nat, k: nat, i: nat, j: nat, d': nat, k': nat)
    requires CanUnlink(v, d, k, i) && NodeOk(v, d) && NodeOk(v, i) && 0 < j && (v[i].kind == T_DIR ==> v[d].nlink > 1)
    ensures Names(Unlink(v, d, k, i), d', k', j)
            <==> Names(v, d', k', j) && !(d' == d && k' == k) && !(v[i].kind == T_DIR && d' == i && k' == 1)
    ensures v[i].kind == T_DIR && d' == i && k' == 1 && Names(v, d', k', j) ==> j == d
  {
    var v' := Unlink(v, d, k, i);
    if d' == d && k' < |v[d].ents| { var e := v'[d].ents[k']; }
    if d' == i && k' < |v[i].ents| { var e, f := v[i].ents[k'], v[i].ents[0]; }
  }

  /** What unlinking takes away from the entries that name j. */
  function Lost(v: Nodes, d: nat, k: nat, i: nat, j: nat): set<(nat, nat)>
    requires i < |v|
  {
    if j == i then {(d, k)} else if j == d && v[i].kind == T_DIR then {(i, 1)} else {}
  }

  lemma UnlinkNames(v: Nodes, d: nat, k: nat, i: nat, j: nat)
    requires CanUnlink(v, d, k, i) && NodeOk(v, d) && NodeOk(v, i) && 0 < j && (v[i].kind == T_DIR ==> v[d].nlink > 1)
    ensures RefsTo(Unlink(v, d, k, i), j) == RefsTo(v, j) - Lost(v, d, k, i, j)
    ensures Lost(v, d, k, i, j) <= RefsTo(v, j)
  {
    assert v[i].kind == T_DIR ==> Names(v, i, 1, d);
    assert Names(v, d, k, j) ==> j == i;
    assert Names(v, d, k, i);
    hide Linked, Unlink, Names;
    var s := RefsTo(v, j) - Lost(v, d, k, i, j);
    forall d': nat, k': nat ensures (d', k') in s <==> Names(Unlink(v, d, k, i), d', k', j) {
      UnlinkName(v, d, k, i, j, d', k');
      assert (d', k') in RefsTo(v, j) <==> Names(v, d', k', j);
    }
    RefsEqual(Unlink(v, d, k, i), j, s);
  }

  lemma UnlinkEntry(v: Nodes, depth: seq<nat>, d: nat, k: nat, i: nat, v': Nodes, d': nat, k': nat)
    requires Inv(v, depth) && CanUnlink(v, d, k, i) && v' == Unlink(v, d, k, i)
    requires d' < |v| && Linked(v'[d']) && 2 <= k' < |v'[d'].ents|
    ensures EntryOk(v', depth, d', k')
  {
    assert NodeOk(v, d) && NodeOk(v, i) && EntryOk(v, depth, d', k');
    if !(d' == d && k' == k) {
      assert v'[d'].ents[k'] == v[d'].ents[k'];
      var x := v[d'].ents[k'].inum;
      if x != 0 && v[x].kind == T_DIR {
        assert NodeOk(v, x);
        forall j: nat | 2 <= j < |v'[d'].ents| && v'[d'].ents[j].inum == x ensures j == k' {
          assert !(d' == d && j == k) ==> v'[d'].ents[j] == v[d'].ents[j];
        }
        assert v'[x].ents[1] == v[x].ents[1];
      }
    }
  }

  lemma UnlinkTree(v: Nodes, depth: seq<nat>, d: nat, k: nat, i: nat)
    requires Inv(v, depth) && CanUnlink(v, d, k, i) && i != ROOTINO && (v[i].kind == T_DIR ==> v[d].nlink > 1)
    ensures TreeOk(Unlink(v, d, k, i), depth)
  {
    var v' := Unlink(v, d, k, i);
    assert NodeOk(v, d) && NodeOk(v, i);
    forall j: nat | j < |v| ensures NodeOk(v', j) {
      assert NodeOk(v, j);
      if j == d {
        forall a: nat, b: nat | a < b < |v'[d].ents| && v'[d].ents[a].inum != 0 && v'[d].ents[b].inum != 0
          ensures v'[d].ents[a].name != v'[d].ents[b].name
        {
          assert a != k && b != k && v'[d].ents[a] == v[d].ents[a] && v'[d].ents[b] == v[d].ents[b];
        }
      }
    }
    forall d': nat, k': nat | d' < |v| && Linked(v'[d']) && 2 <= k' < |v'[d'].ents| ensures EntryOk(v', depth, d', k') {
      UnlinkEntry(v, depth, d, k, i, v', d', k');
    }
    forall d': nat | d' < |v| && Linked(v'[d']) && |v'[d'].ents| >= 2 ensures UpOk(v', depth, d') {
      assert NodeOk(v, d') && UpOk(v, depth, d') && v'[d'].ents[1] == v[d'].ents[1];
      var p := v[d'].ents[1].inum;
      if v[i].kind == T_DIR { NoParentOf(v, depth, d', i); }
      if d' != ROOTINO {
        var k': nat :| HasChild(v, p, k', d');
        assert v'[p].ents[k'] == v[p].ents[k'];
        assert HasChild(v', p, k', d');
      }
    }
  }

  /** Taking a name away keeps the invariant. */
  lemma UnlinkKeeps(v: Nodes, depth: seq<nat>, d: nat, k: nat, i: nat)
    requires Inv(v, depth) && Names(v, d, k, i) && k >= 2 && 0 < i < |v|
    requires v[i].kind == T_DIR ==> Childless(v[i])
    ensures i != d && CanUnlink(v, d, k, i) && v[i].nlink > 0 && Inv(Unlink(v, d, k, i), depth)
  {
    assert NodeOk(v, d) && NodeOk(v, i) && EntryOk(v, depth, d, k);
    assert (d, k) in RefsTo(v, i) && v[i].nlink == |RefsTo(v, i)|;
    if v[i].kind == T_DIR {
      EmptyHasOneLink(v, depth, d, k, i);
      ParentStays(v, depth, d, i);
    }
    UnlinkCounts(v, d, k, i);
    UnlinkTree(v, depth, d, k, i);
  }

  lemma UnlinkCounts(v: Nodes, d: nat, k: nat, i: nat)
    requires LinksOk(v) && CanUnlink(v, d, k, i) && NodeOk(v, d) && NodeOk(v, i)
             && (v[i].kind == T_DIR ==> v[d].nlink > 1)
    ensures LinksOk(Unlink(v, d, k, i))
  {
    var v' := Unlink(v, d, k, i);
    forall j: nat | 0 < j < |v| ensures v'[j].nlink == |RefsTo(v', j)| {
      UnlinkCount(v, d, k, i, j);
    }
  }

  lemma LessOf(s: set<(nat, nat)>, t: set<(nat, nat)>)
    requires t <= s
    ensures |s - t| == |s| - |t|
  {}

  lemma UnlinkCount(v: Nodes, d: nat, k: nat, i: nat, j: nat)
    requires LinksOk(v) && CanUnlink(v, d, k, i) && NodeOk(v, d) && NodeOk(v, i)
             && (v[i].kind == T_DIR ==> v[d].nlink > 1)
    requires 0 < j < |v|
    ensures Unlink(v, d, k, i)[j].nlink == |RefsTo(Unlink(v, d, k, i), j)|
  {
    hide Names, Linked, NodeOk;
    UnlinkNames(v, d, k, i, j);
    LessOf(RefsTo(v, j), Lost(v, d, k, i, j));
    assert v[j].nlink == |RefsTo(v, j)|;
  }

  /** A file system with a file, 3, a directory, 2, that has been unlinked and is still open, and a directory,
      4, that is being made in it. */
  function Sample(): Nodes {
    [FREENODE, Node(T_DIR, 1, [Dirent(1, "."), Dirent(1, ".."), Dirent(3, "f")]), Node(T_DIR, 0, Dots(2, 1)),
     Node(T_FILE, 1, []), Node(T_DIR, 0, Dots(4, 2))]
  }

  lemma SampleLinks()
    ensures LinksOk(Sample())
  {
    var v := Sample();
    assert RefsTo(v, 1) == {(1, 1)} && RefsTo(v, 2) == {} && RefsTo(v, 3) == {(1, 2)} && RefsTo(v, 4) == {};
  }

  lemma SampleTree()
    ensures TreeOk(Sample(), [0, 0, 0, 0, 0])
  {
  }

  /** A name for the file, or for the new directory, in the unlinked one makes the counts wrong. */
  lemma UnlinkedBreaks(v: Nodes)
    requires v == Sample()
    ensures Inv(v, [0, 0, 0, 0, 0]) && !Linked(v[2])
    ensures CanLink(v, 2, 2, "x", 3) && v[3].kind == T_FILE && !LinksOk(LinkFile(v, 2, 2, "x", 3))
    ensures CanLinkDir(v, 2, 2, "x", 4) && !LinksOk(LinkDir(v, 2, 2, "x", 4))
  {
    hide LinksOk, TreeOk, LinkFile, LinkDir;
    SampleLinks();
    SampleTree();
    LinkFileKeeps(v, [0, 0, 0, 0, 0], 2, 2, "x", 3);
    LinkDirKeeps(v, [0, 0, 0, 0, 0], 2, 2, "x", 4);
  }
}
