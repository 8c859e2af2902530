/** What a path means: which names it holds, which inode it leads to, and what link, unlink and create do by
    the paths that they are given (namex in kernel/fs.c, kernel/sysfile.c). */
module Paths {
  import opened Common
  import opened DirTree
  import opened Directories

  // ---------------------------------------------------------------------------------
  // The names in a path.

  /** m lists, in order, the stretches of the path from place i on that have no slash in them and that a slash
      or an end of the path bounds on either side. */
  ghost predicate Stretches(path: string, i: nat, m: seq<(nat, nat)>) {
    && (forall t: nat {:trigger m[t]} :: t < |m| ==> i <= m[t].0 < m[t].1 <= |path|)
    && (forall t: nat, u: nat {:trigger m[t], m[u]} :: t < u < |m| ==> m[t].1 < m[u].0)
    && (forall k: nat {:trigger path[k]} :: i <= k < |path| ==> (path[k] != '/' <==> Covers(m, k)))
  }

  ghost predicate Covers(m: seq<(nat, nat)>, k: nat) {
    exists t: nat {:trigger m[t]} :: t < |m| && m[t].0 <= k < m[t].1
  }

  function Piece(path: string, s: nat, e: nat): string
    requires s <= e <= |path|
  {
    if e - s >= 14 then path[s..s + 14] else path[s..e]
  }

  /** names[t] is stretch m[t] of the path. */
  ghost predicate Pieces(path: string, m: seq<(nat, nat)>, names: seq<string>) {
    && |names| == |m|
    && forall t: nat {:trigger m[t]} :: t < |m| ==>
         m[t].0 <= m[t].1 <= |path| && names[t] == Piece(path, m[t].0, m[t].1)
  }

  lemma MorePieces(path: string, m: seq<(nat, nat)>, names: seq<string>)
    requires m != [] && Pieces(path, m[1..], names) && m[0].0 <= m[0].1 <= |path|
    ensures Pieces(path, m, [Piece(path, m[0].0, m[0].1)] + names)
  {
    hide Piece;
    assert forall t: nat {:trigger m[t]} :: 0 < t < |m| ==> m[t] == m[1..][t - 1];
  }

  lemma {:induction false} NamesArePieces(path: string, i: nat, m: seq<(nat, nat)>)
    requires i <= |path| && Stretches(path, i, m)
    ensures Pieces(path, m, NamesFrom(path, i))
    decreases |m|
  {
    if m == [] {
      assert forall k: nat {:trigger path[k]} :: i <= k < |path| ==> path[k] == '/';
    } else {
      var s, e := m[0].0, m[0].1;
      FirstStretch(path, i, m);
      NextIsUnique(path, i, s, e);
      hide Stretches, NamesFrom, Pieces, NextIs;
      NamesArePieces(path, e, m[1..]);
      MorePieces(path, m, NamesFrom(path, e));
      PieceIsCut(path, s, e);
    }
  }

  lemma PieceIsCut(path: string, s: nat, e: nat)
    requires s <= e <= |path|
    ensures Piece(path, s, e) == Cut(path[s..e])
  {
    if e - s >= 14 { assert path[s..e][..14] == path[s..s + 14]; }
  }

  /** The names are these stretches, cut to the fourteen characters that an entry has room for. */
  lemma NamesAreStretches(path: string, m: seq<(nat, nat)>)
    requires Stretches(path, 0, m)
    ensures |Elements(path)| == |m|
    ensures forall t: nat {:trigger m[t]} :: t < |m| ==>
              Elements(path)[t] ==
              if m[t].1 - m[t].0 >= 14 then path[m[t].0..m[t].0 + 14] else path[m[t].0..m[t].1]
  {
    hide NamesFrom;
    NamesArePieces(path, 0, m);
  }

  lemma FirstStretch(path: string, i: nat, m: seq<(nat, nat)>)
    requires i <= |path| && Stretches(path, i, m) && m != []
    ensures NextIs(path, i, m[0].0, m[0].1) && Stretches(path, m[0].1, m[1..])
  {
    var (s, e) := m[0];
    var n := m[1..];
    assert forall t: nat {:trigger n[t]} :: t < |n| ==> n[t] == m[t + 1];
    forall k: nat | i <= k <= e && k < |path| ensures path[k] != '/' <==> s <= k < e {
      if Covers(m, k) {
        var t: nat :| t < |m| && m[t].0 <= k < m[t].1;
        assert t == 0;
      }
    }
    forall k: nat | e <= k < |path| ensures Covers(n, k) <==> Covers(m, k) {
      if Covers(m, k) {
        var t: nat :| t < |m| && m[t].0 <= k < m[t].1;
        assert n[t - 1] == m[t];
      }
      if Covers(n, k) {
        var t: nat :| t < |n| && n[t].0 <= k < n[t].1;
        assert m[t + 1] == n[t];
      }
    }
  }

  /** Every path has such stretches. */
  lemma {:induction false} HasStretches(path: string, i: nat) returns (m: seq<(nat, nat)>)
    requires i <= |path|
    ensures Stretches(path, i, m)
    decreases |path| - i
  {
    var s := PastSlashes(path, i);
    if s == |path| { return []; }
    var e := NextSlash(path, s);
    var n := HasStretches(path, e);
    m := [(s, e)] + n;
    assert NextIs(path, i, s, e);
    StretchBefore(path, i, s, e, n);
  }

  lemma StretchBefore(path: string, i: nat, s: nat, e: nat, n: seq<(nat, nat)>)
    requires NextIs(path, i, s, e) && Stretches(path, e, n)
    ensures Stretches(path, i, [(s, e)] + n)
  {
    var m := [(s, e)] + n;
    assert forall t: nat {:trigger m[t]} :: 0 < t < |m| ==> m[t] == n[t - 1];
    forall t: nat | t < |n| ensures e < n[t].0 {
      assert n[t].0 <= e < n[t].1 ==> Covers(n, e);
      assert e < |path| ==> path[e] == '/';
    }
    forall k: nat | i <= k < |path| ensures path[k] != '/' <==> Covers(m, k) {
      CoversMore(s, e, n, k);
      assert k < e ==> !Covers(n, k);
    }
  }

  lemma CoversMore(s: nat, e: nat, n: seq<(nat, nat)>, k: nat)
    ensures Covers([(s, e)] + n, k) <==> s <= k < e || Covers(n, k)
  {
    var m := [(s, e)] + n;
    if Covers(m, k) {
      var t: nat :| t < |m| && m[t].0 <= k < m[t].1;
      assert t > 0 ==> n[t - 1] == m[t];
    }
    if Covers(n, k) {
      var t: nat :| t < |n| && n[t].0 <= k < n[t].1;
      assert m[t + 1] == n[t];
    }
    if s <= k < e { assert m[0] == (s, e); }
  }

  // ---------------------------------------------------------------------------------
  // Where a path leads.

  /** In directory i, in use, the first entry in use with the name leads to inode j. */
  ghost predicate Names(v: Nodes, i: nat, name: string, j: nat) {
    && i < |v| && v[i].kind == T_DIR
    && exists k: nat {:trigger v[i].ents[k]} ::
         && k < |v[i].ents| && v[i].ents[k] == Dirent(j, name) && j != 0
         && forall h: nat {:trigger v[i].ents[h]} :: h < k ==> v[i].ents[h].inum == 0 || v[i].ents[h].name != name
  }

  /** No entry in use bears the name. */
  ghost predicate Nameless(ents: seq<Dirent>, name: string) {
    forall h: nat {:trigger ents[h]} :: h < |ents| ==> ents[h].inum == 0 || ents[h].name != name
  }

  /** The inodes that the names pass through, one after the other. */
  ghost predicate Leads(v: Nodes, names: seq<string>, chain: seq<nat>) {
    && |chain| == |names| + 1
    && forall t: nat {:trigger names[t]} :: t < |names| ==> Names(v, chain[t], names[t], chain[t + 1])
  }

  lemma NamesIs(v: Nodes, i: nat, name: string, j: nat)
    requires i < |v|
    ensures var k := IndexOf(v[i].ents, name);
            && (Names(v, i, name, j) <==> v[i].kind == T_DIR && k < |v[i].ents| && v[i].ents[k].inum == j)
            && (Nameless(v[i].ents, name) <==> k == |v[i].ents|)
  {
    var k := IndexOf(v[i].ents, name);
    if Names(v, i, name, j) {
      var h: nat :| h < |v[i].ents| && v[i].ents[h] == Dirent(j, name) && j != 0
                    && forall g: nat {:trigger v[i].ents[g]} :: g < h ==>
                         v[i].ents[g].inum == 0 || v[i].ents[g].name != name;
      IndexIs(v[i].ents, name, h);
    }
  }

  lemma LeadsOn(v: Nodes, i: nat, names: seq<string>, rest: seq<nat>)
    requires names != [] && Leads(v, names[1..], rest) && Names(v, i, names[0], rest[0])
    ensures Leads(v, names, [i] + rest)
  {
    var chain := [i] + rest;
    forall t: nat | t < |names| ensures Names(v, chain[t], names[t], chain[t + 1]) {
      if t > 0 { assert names[1..][t - 1] == names[t]; }
    }
  }

  lemma LeadsTail(v: Nodes, names: seq<string>, chain: seq<nat>)
    requires names != [] && Leads(v, names, chain)
    ensures Names(v, chain[0], names[0], chain[1]) && Leads(v, names[1..], chain[1..])
  {
    forall t: nat | t < |names| - 1 ensures Names(v, chain[1..][t], names[1..][t], chain[1..][t + 1]) {
      assert names[1..][t] == names[t + 1];
    }
  }

  lemma {:induction false} ChainOf(v: Nodes, i: nat, names: seq<string>) returns (chain: seq<nat>)
    requires Resolve(v, i, names).Found?
    ensures Leads(v, names, chain) && chain[0] == i && chain[|names|] == Resolve(v, i, names).i
    decreases |names|
  {
    if names == [] { return [i]; }
    var n := v[i].ents[IndexOf(v[i].ents, names[0])].inum;
    NamesIs(v, i, names[0], n);
    var rest := ChainOf(v, n, names[1..]);
    LeadsOn(v, i, names, rest);
    chain := [i] + rest;
  }

  lemma {:induction false} ChainEnds(v: Nodes, names: seq<string>, chain: seq<nat>)
    requires Leads(v, names, chain)
    ensures Resolve(v, chain[0], names) == Found(chain[|names|])
    decreases |names|
  {
    if names != [] {
      LeadsTail(v, names, chain);
      NamesIs(v, chain[0], names[0], chain[1]);
      ChainEnds(v, names[1..], chain[1..]);
    }
  }

  /** Following the names comes to inode j if, and only if, there are inodes from i to j of which each one, a
      directory, names the next. */
  lemma LeadsTo(v: Nodes, i: nat, names: seq<string>, j: nat)
    ensures Resolve(v, i, names) == Found(j) <==>
            exists chain :: Leads(v, names, chain) && chain[0] == i && chain[|names|] == j
  {
    hide Resolve, Names;
    if Resolve(v, i, names) == Found(j) { var chain := ChainOf(v, i, names); }
    if exists chain :: Leads(v, names, chain) && chain[0] == i && chain[|names|] == j {
      var chain :| Leads(v, names, chain) && chain[0] == i && chain[|names|] == j;
      ChainEnds(v, names, chain);
    }
  }

  /** Inode i is in use, and no directory or one without an entry for the name. */
  ghost predicate DeadEnd(v: Nodes, i: nat, name: string) {
    i < |v| && v[i].kind != 0 && (v[i].kind != T_DIR || Nameless(v[i].ents, name))
  }

  /** The first names pass through the inodes, and the last of these is a dead end for the name that is next. */
  ghost predicate Stops(v: Nodes, names: seq<string>, chain: seq<nat>) {
    && 0 < |chain| <= |names| && Leads(v, names[..|chain| - 1], chain)
    && DeadEnd(v, chain[|chain| - 1], names[|chain| - 1])
  }

  lemma {:induction false} StopOf(v: Nodes, i: nat, names: seq<string>) returns (chain: seq<nat>)
    requires Resolve(v, i, names) == Missing
    ensures Stops(v, names, chain) && chain[0] == i
    decreases |names|
  {
    NamesIs(v, i, names[0], 0);
    if DeadEnd(v, i, names[0]) { return [i]; }
    var n := v[i].ents[IndexOf(v[i].ents, names[0])].inum;
    NamesIs(v, i, names[0], n);
    var rest := StopOf(v, n, names[1..]);
    StopsOn(v, i, names, rest);
    chain := [i] + rest;
  }

  lemma StopsOn(v: Nodes, i: nat, names: seq<string>, rest: seq<nat>)
    requires names != [] && Stops(v, names[1..], rest) && Names(v, i, names[0], rest[0])
    ensures Stops(v, names, [i] + rest)
  {
    hide DeadEnd, Names;
    var some := names[..|rest|];
    assert some[1..] == names[1..][..|rest| - 1] && some[0] == names[0];
    LeadsOn(v, i, some, rest);
    assert names[|rest|] == names[1..][|rest| - 1];
  }

  lemma {:induction false} StopEnds(v: Nodes, names: seq<string>, chain: seq<nat>)
    requires Stops(v, names, chain)
    ensures Resolve(v, chain[0], names) == Missing
    decreases |names|
  {
    if |chain| == 1 {
      NamesIs(v, chain[0], names[0], 0);
    } else {
      StopsTail(v, names, chain);
      NamesIs(v, chain[0], names[0], chain[1]);
      StopEnds(v, names[1..], chain[1..]);
    }
  }

  lemma StopsTail(v: Nodes, names: seq<string>, chain: seq<nat>)
    requires Stops(v, names, chain) && |chain| > 1
    ensures Names(v, chain[0], names[0], chain[1]) && Stops(v, names[1..], chain[1..])
  {
    hide DeadEnd, Names;
    var some := names[..|chain| - 1];
    LeadsTail(v, some, chain);
    var rest := chain[1..];
    assert some[1..] == names[1..][..|rest| - 1] && some[0] == names[0];
    assert names[|rest|] == names[1..][|rest| - 1];
  }

  /** It comes to nothing if, and only if, after some of the names it is at an inode in use that is no
      directory, or at a directory without an entry for the name that is next. */
  lemma LeadsNowhere(v: Nodes, i: nat, names: seq<string>)
    ensures Resolve(v, i, names) == Missing <==> exists chain :: Stops(v, names, chain) && chain[0] == i
  {
    hide Resolve, Leads, DeadEnd;
    if Resolve(v, i, names) == Missing { var chain := StopOf(v, i, names); }
    if exists chain :: Stops(v, names, chain) && chain[0] == i {
      var chain :| Stops(v, names, chain) && chain[0] == i;
      StopEnds(v, names, chain);
    }
  }

  /** Where a path leads from a working directory. */
  function LookUp(v: Nodes, cwd: nat, path: string): Lookup {
    Resolve(v, Start(cwd, path), Elements(path))
  }

  /** A path that begins with a slash leads to one and the same place from everywhere, namely where its names
      lead from the root. */
  lemma FromRoot(v: Nodes, cwd: nat, path: string, j: nat)
    requires path != "" && path[0] == '/'
    ensures LookUp(v, cwd, path) == Found(j) <==>
            exists chain :: Leads(v, Elements(path), chain) && chain[0] == 1 && chain[|Elements(path)|] == j
    ensures forall cwd': nat :: LookUp(v, cwd', path) == LookUp(v, cwd, path)
  {
    LeadsTo(v, ROOTINO, Elements(path), j);
  }

  /** Any other leads where its names lead from the working directory. */
  lemma FromCwd(v: Nodes, cwd: nat, path: string, j: nat)
    requires path == "" || path[0] != '/'
    ensures LookUp(v, cwd, path) == Found(j) <==>
            exists chain :: Leads(v, Elements(path), chain) && chain[0] == cwd && chain[|Elements(path)|] == j
  {
    LeadsTo(v, cwd, Elements(path), j);
  }

  // ---------------------------------------------------------------------------------
  // The calls, by the paths that they are given.

  /** d is the directory that all names but the last lead to. */
  ghost predicate Above(v: Nodes, i: nat, names: seq<string>, d: nat) {
    names != [] && Resolve(v, i, names[..|names| - 1]) == Found(d) && d < |v| && v[d].kind == T_DIR
  }

  lemma {:induction false} ParentIs(v: Nodes, i: nat, names: seq<string>, d: nat)
    ensures ResolveParent(v, i, names) == Found(d) <==> Above(v, i, names, d)
    decreases |names|
  {
    if |names| > 1 && i < |v| && v[i].kind == T_DIR {
      var k := IndexOf(v[i].ents, names[0]);
      var some := names[..|names| - 1];
      assert some[1..] == names[1..][..|names| - 2] && some[0] == names[0];
      if k < |v[i].ents| { ParentIs(v, v[i].ents[k].inum, names[1..], d); }
    }
  }

  /** The directory in which the path's last name is to be found. */
  ghost predicate Parent(v: Nodes, cwd: nat, path: string, d: nat) {
    Above(v, Start(cwd, path), Elements(path), d)
  }

  ghost predicate HasParent(v: Nodes, cwd: nat, path: string) {
    exists d: nat :: Parent(v, cwd, path, d)
  }

  /** What looking for the parent first and for the last name in it comes to. */
  lemma InParent(v: Nodes, cwd: nat, path: string)
    ensures var r := ResolveParent(v, Start(cwd, path), Elements(path));
            && (forall d: nat :: Parent(v, cwd, path, d) <==> r == Found(d))
            && (HasParent(v, cwd, path) <==> r.Found?)
            && (Elements(path) == [] ==> r == Missing && LookUp(v, cwd, path).Found?)
            && (Elements(path) != [] && !r.Found? ==> LookUp(v, cwd, path) == r)
            && (r.Found? ==>
                  var k := IndexOf(v[r.i].ents, Last(path));
                  LookUp(v, cwd, path) == if k == |v[r.i].ents| then Missing else Found(v[r.i].ents[k].inum))
  {
    var r := ResolveParent(v, Start(cwd, path), Elements(path));
    forall d: nat ensures Parent(v, cwd, path, d) <==> r == Found(d) {
      ParentIs(v, Start(cwd, path), Elements(path), d);
    }
    if r.Found? { assert Parent(v, cwd, path, r.i); }
    if Elements(path) != [] { ResolveLast(v, Start(cwd, path), Elements(path)); }
  }

  ghost predicate InUse(v: Nodes, i: nat) { i < |v| && v[i].kind != 0 }

  ghost predicate IsDir(v: Nodes, i: nat) { i < |v| && v[i].kind == T_DIR }

  /** The directory has an entry not in use, or is below its greatest size. */
  ghost predicate HasRoom(n: Node) {
    |n.ents| < DIRENTS || exists j: nat {:trigger n.ents[j]} :: j < DIRENTS && n.ents[j].inum == 0
  }

  lemma RoomIs(n: Node)
    ensures HasRoom(n) <==> SlotFor(n.ents) < DIRENTS
  {
    var k := SlotFor(n.ents);
    if k < |n.ents| { assert n.ents[k].inum == 0; }
  }

  /** link gives the inode of the old path, unless that is a directory, the name that the new path ends with,
      where the new path leads nowhere yet but its directory is there. */
  lemma LinkByPath(v: Nodes, cwd: nat, oldPath: string, newPath: string, d: nat, i: nat)
    ensures LinkCall(v, cwd, oldPath, newPath) == Done(d, i) <==>
            && LookUp(v, cwd, oldPath) == Found(i) && InUse(v, i) && !IsDir(v, i)
            && LookUp(v, cwd, newPath) == Missing && Parent(v, cwd, newPath, d) && HasRoom(v[d])
    ensures var from, to := LookUp(v, cwd, oldPath), LookUp(v, cwd, newPath);
            LinkCall(v, cwd, oldPath, newPath) == Fail <==>
            || from == Missing || (from.Found? && IsDir(v, from.i))
            || (from.Found? && InUse(v, from.i) && (to.Found? || (to == Missing && !HasParent(v, cwd, newPath))))
    ensures !LinkCall(v, cwd, oldPath, newPath).Existing?
  {
    hide Resolve, ResolveParent, Elements, Start, HasRoom, Parent, HasParent;
    InParent(v, cwd, newPath);
    var r := ResolveParent(v, Start(cwd, newPath), Elements(newPath));
    if r.Found? { RoomIs(v[r.i]); }
  }

  /** unlink takes the name that the path ends with from its directory, where the path leads to an inode and
      the name is not "." or "..", unless that inode is a directory with entries. */
  lemma UnlinkByPath(v: Nodes, cwd: nat, path: string, d: nat, i: nat)
    ensures UnlinkCall(v, cwd, path) == Done(d, i) <==>
            && LookUp(v, cwd, path) == Found(i) && Parent(v, cwd, path, d)
            && Last(path) != "." && Last(path) != ".." && (IsDir(v, i) ==> Childless(v[i]))
    ensures var at := LookUp(v, cwd, path);
            UnlinkCall(v, cwd, path) == Fail <==>
            || at == Missing || (at.Found? && !HasParent(v, cwd, path))
            || (at.Found? && (Last(path) == "." || Last(path) == ".." || (IsDir(v, at.i) && !Childless(v[at.i]))))
    ensures !UnlinkCall(v, cwd, path).Existing?
  {
    hide Resolve, ResolveParent, Elements, Start, Parent, HasParent, Childless;
    InParent(v, cwd, path);
  }

  /** create of a file, where the path leads to a file or a device, returns that; it fails where the path leads
      to anything else, and makes the first free inode the path's where it leads nowhere and its directory is
      there. */
  lemma CreateByPath(v: Nodes, cwd: nat, path: string, kind: nat, d: nat, i: nat)
    ensures CreateCall(v, cwd, path, kind) == Existing(i) <==>
            && kind == T_FILE && LookUp(v, cwd, path) == Found(i) && InUse(v, i)
            && (v[i].kind == T_FILE || v[i].kind == T_DEVICE) && HasParent(v, cwd, path)
    ensures CreateCall(v, cwd, path, kind) == Done(d, i) <==>
            && LookUp(v, cwd, path) == Missing && Parent(v, cwd, path, d) && HasRoom(v[d])
            && 0 < i < |v| && v[i].kind == 0 && forall j: nat {:trigger v[j]} :: 0 < j < i ==> v[j].kind != 0
    ensures var at := LookUp(v, cwd, path);
            CreateCall(v, cwd, path, kind) == Fail <==>
            || (!HasParent(v, cwd, path) && at != Halt)
            || (at.Found? && InUse(v, at.i) && HasParent(v, cwd, path)
                && !(kind == T_FILE && (v[at.i].kind == T_FILE || v[at.i].kind == T_DEVICE)))
  {
    hide Resolve, ResolveParent, Elements, Start, HasRoom, Parent, HasParent;
    InParent(v, cwd, path);
    var r := ResolveParent(v, Start(cwd, path), Elements(path));
    if r.Found? { RoomIs(v[r.i]); }
    if |v| > 0 {
      var f := FirstFree(v, 1);
      assert 0 < i < |v| && v[i].kind == 0 && f < i ==> v[f].kind == 0;
    }
  }
}
