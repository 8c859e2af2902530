/** Paths and the system calls that change the directory tree (kernel/fs.c, kernel/sysfile.c). */
module Directories {
  import opened Common
  import opened DirTree

  const DIRSIZ: nat := 14

  // ---------------------------------------------------------------------------------
  // Paths.

  /** The first place from i on that has no slash, or that has one; the end if there is none. */
  function PastSlashes(path: string, i: nat): (j: nat)
    requires i <= |path|
    ensures i <= j <= |path| && (j < |path| ==> path[j] != '/') && forall k :: i <= k < j ==> path[k] == '/'
    decreases |path| - i
  {
    if i < |path| && path[i] == '/' then PastSlashes(path, i + 1) else i
  }

  function NextSlash(path: string, i: nat): (j: nat)
    requires i <= |path|
    ensures i <= j <= |path| && (j < |path| ==> path[j] == '/') && forall k :: i <= k < j ==> path[k] != '/'
    decreases |path| - i
  {
    if i < |path| && path[i] != '/' then NextSlash(path, i + 1) else i
  }

  /** A name as it is kept in an entry. */
  function Cut(s: string): string { if |s| >= DIRSIZ then s[..DIRSIZ] else s }

  /** The names in the path from place i on. */
  function NamesFrom(path: string, i: nat): seq<string>
    requires i <= |path|
    decreases |path| - i
  {
    var s := PastSlashes(path, i);
    if s == |path| then [] else
    var e := NextSlash(path, s);
    [Cut(path[s..e])] + NamesFrom(path, e)
  }

  function Elements(path: string): seq<string> { NamesFrom(path, 0) }

  /** Leading slashes do not matter. */
  lemma NamesPast(path: string, i: nat)
    requires i <= |path|
    ensures NamesFrom(path, PastSlashes(path, i)) == NamesFrom(path, i)
    ensures NamesFrom(path, i) == [] <==> PastSlashes(path, i) == |path|
  {
    var j := PastSlashes(path, i);
    assert PastSlashes(path, j) == j;
  }

  /** The loops of skipelem. */
  method SkipTo(path: string, i: nat, slash: bool) returns (j: nat)
    requires i <= |path|
    ensures j == if slash then PastSlashes(path, i) else NextSlash(path, i)
  {
    j := i;
    while j < |path| && (path[j] == '/') == slash
      invariant i <= j <= |path|
      invariant (if slash then PastSlashes(path, j) else NextSlash(path, j)) == if slash then PastSlashes(path, i)
                else NextSlash(path, i)
    {
      j := j + 1;
    }
  }

  /** From place i on the path has slashes, and then, from s to e, a stretch without any that goes on to the
      next slash or the end. */
  ghost predicate NextIs(path: string, i: nat, s: nat, e: nat) {
    && i <= s < e <= |path| && (e < |path| ==> path[e] == '/')
    && (forall k :: i <= k < s ==> path[k] == '/') && (forall k :: s <= k < e ==> path[k] != '/')
  }

  lemma NextIsUnique(path: string, i: nat, s: nat, e: nat)
    requires NextIs(path, i, s, e)
    ensures PastSlashes(path, i) == s && NextSlash(path, s) == e
    ensures NamesFrom(path, i) == [Cut(path[s..e])] + NamesFrom(path, e)
  {
    var s', e' := PastSlashes(path, i), NextSlash(path, s);
    var c := path[s];
    assert s' == s;
    assert e' == e;
  }

  /** skipelem, from place i of the path: the next stretch without slashes, whole or its first DIRSIZ
      characters, and the place after it, past any slashes; or nothing, if there are only slashes. */
  method Skipelem(path: string, i: nat) returns (ok: bool, rest: nat, name: string, ghost s: nat, ghost e: nat)
    requires i <= |path|
    ensures ok <==> exists k :: i <= k < |path| && path[k] != '/'
    ensures ok ==> NextIs(path, i, s, e) && name == if e - s >= 14 then path[s..s + 14] else path[s..e]
    ensures ok ==> e <= rest <= |path| && (forall k :: e <= k < rest ==> path[k] == '/')
                   && (rest < |path| ==> path[rest] != '/')
    ensures ok <==> NamesFrom(path, i) != []
    ensures rest <= |path| && (ok ==> i < rest && NamesFrom(path, i) == [name] + NamesFrom(path, rest))
    ensures ok ==> (rest == |path| <==> NamesFrom(path, rest) == [])
  {
    NamesPast(path, i);
    var from := SkipTo(path, i, true);
    s, e := from, from;
    if from == |path| { return false, from, "", s, e; }
    var to := SkipTo(path, from, false);
    e := to;
    name := Cut(path[from..to]);
    rest := SkipTo(path, to, true);
    NamesPast(path, to);
    NamesPast(path, rest);
    assert PastSlashes(path, rest) == rest;
    assert path[s] != '/';
    ok := true;
  }

  /** What looking up a path comes to. Halt: ilock has met an inode that is not in use, and panics. */
  datatype Lookup = Found(i: nat) | Missing | Halt

  /** dirlookup: the entry in use that bears a name, or one past the last. */
  function IndexOf(ents: seq<Dirent>, name: string): (k: nat)
    ensures k <= |ents| && (k < |ents| ==> ents[k].inum != 0 && ents[k].name == name)
    ensures forall j: nat {:trigger ents[j]} :: j < k ==> ents[j].inum == 0 || ents[j].name != name
  {
    if ents == [] then 0
    else if ents[0].inum != 0 && ents[0].name == name then 0
    else
      var k := IndexOf(ents[1..], name);
      assert forall j: nat {:trigger ents[j]} :: 0 < j < k + 1 ==> ents[j] == ents[1..][j - 1];
      k + 1
  }

  /** Following names from inode i on. */
  function Resolve(v: Nodes, i: nat, names: seq<string>): Lookup
    decreases |names|
  {
    if names == [] then Found(i)
    else if i >= |v| || v[i].kind == 0 then Halt
    else if v[i].kind != T_DIR then Missing
    else
      var k := IndexOf(v[i].ents, names[0]);
      if k == |v[i].ents| then Missing else Resolve(v, v[i].ents[k].inum, names[1..])
  }

  /** The directory that the last name is to be found in. */
  function ResolveParent(v: Nodes, i: nat, names: seq<string>): (r: Lookup)
    ensures r.Found? ==> names != [] && r.i < |v| && v[r.i].kind == T_DIR
    decreases |names|
  {
    if names == [] then Missing
    else if i >= |v| || v[i].kind == 0 then Halt
    else if v[i].kind != T_DIR then Missing
    else if |names| == 1 then Found(i)
    else
      var k := IndexOf(v[i].ents, names[0]);
      if k == |v[i].ents| then Missing else ResolveParent(v, v[i].ents[k].inum, names[1..])
  }

  function LastOf(names: seq<string>): string { if names == [] then "" else names[|names| - 1] }

  function Last(path: string): string { LastOf(Elements(path)) }

  function Start(cwd: nat, path: string): nat {
    if path != "" && path[0] == '/' then ROOTINO else cwd
  }

  /** Looking up the whole path is looking up its last name in the directory before. */
  lemma {:induction false} ResolveLast(v: Nodes, i: nat, names: seq<string>)
    requires names != []
    ensures var r := ResolveParent(v, i, names);
            Resolve(v, i, names) ==
              if !r.Found? then r
              else
                var k := IndexOf(v[r.i].ents, LastOf(names));
                if k == |v[r.i].ents| then Missing else Found(v[r.i].ents[k].inum)
    decreases |names|
  {
    if i < |v| && v[i].kind == T_DIR {
      var k := IndexOf(v[i].ents, names[0]);
      if |names| == 1 {
        assert names[1..] == [];
      } else if k < |v[i].ents| {
        ResolveLast(v, v[i].ents[k].inum, names[1..]);
        assert names[1..][|names| - 2] == names[|names| - 1];
      }
    }
  }

  /** Paths without names, and paths that are one name. */
  lemma OneName(v: Nodes, i: nat, path: string)
    ensures path == "" || path == "/" ==> Resolve(v, i, Elements(path)) == Found(i)
    ensures path != "" && '/' !in path ==> Elements(path) == [if |path| >= 14 then path[..14] else path]
    ensures path != "" && '/' !in path ==>
              Resolve(v, i, Elements(path)) ==
              if i >= |v| || v[i].kind == 0 then Halt
              else if v[i].kind != T_DIR then Missing
              else
                var k := IndexOf(v[i].ents, if |path| >= 14 then path[..14] else path);
                if k == |v[i].ents| then Missing else Found(v[i].ents[k].inum)
  {
    if path != "" && '/' !in path {
      NextIsUnique(path, 0, 0, |path|);
      assert path[0..|path|] == path && NamesFrom(path, |path|) == [];
      assert Elements(path)[1..] == [];
    } else if path == "/" {
      assert PastSlashes(path, 0) == PastSlashes(path, 1) == 1;
    }
  }

  // ---------------------------------------------------------------------------------
  // The system calls.

  /** dirlink's slot: the first entry not in use, or one past the last. */
  function SlotFor(ents: seq<Dirent>): (k: nat)
    ensures k <= |ents| && (k < |ents| ==> ents[k].inum == 0)
    ensures forall j: nat {:trigger ents[j]} :: j < k ==> ents[j].inum != 0
  {
    if ents == [] || ents[0].inum == 0 then 0
    else
      var k := SlotFor(ents[1..]);
      assert forall j: nat {:trigger ents[j]} :: 0 < j < k + 1 ==> ents[j] == ents[1..][j - 1];
      k + 1
  }

  function WithEntry(v: Nodes, d: nat, e: Dirent): Nodes
    requires d < |v|
  {
    v[d := v[d].(ents := SetEnt(v[d].ents, SlotFor(v[d].ents), e))]
  }

  lemma SlotIs(ents: seq<Dirent>, k: nat)
    requires k <= |ents| && (k < |ents| ==> ents[k].inum == 0)
    requires forall j: nat {:trigger ents[j]} :: j < k ==> ents[j].inum != 0
    ensures SlotFor(ents) == k
  {
    var m := SlotFor(ents);
    assert (m < |ents| ==> ents[m].inum == 0) && (k < |ents| ==> ents[k].inum == 0);
  }

  lemma IndexIs(ents: seq<Dirent>, name: string, k: nat)
    requires k <= |ents| && (k < |ents| ==> ents[k].inum != 0 && ents[k].name == name)
    requires forall j: nat {:trigger ents[j]} :: j < k ==> ents[j].inum == 0 || ents[j].name != name
    ensures IndexOf(ents, name) == k
  {
    var m := IndexOf(ents, name);
    assert (m < |ents| ==> ents[m].name == name) && (k < |ents| ==> ents[k].name == name);
  }

  /** Inodes held from outside (open files, working directories) are in use, and what is in use without
      links is held. */
  ghost predicate HeldOk(v: Nodes, refs: seq<nat>) {
    && |refs| == |v|
    && forall i: nat {:trigger refs[i]} :: 0 < i < |v| ==>
         (refs[i] > 0 ==> v[i].kind != 0) && (v[i].kind != 0 && v[i].nlink == 0 ==> refs[i] > 0)
  }

  /** nlink-- on a short. */
  function Dec(nlink: int): int { if nlink == -SHRT_MAX - 1 then SHRT_MAX else nlink - 1 }

  /** How a call comes out: a panic, failure, an inode that was there already, or one that inode i has got
      or lost its name in directory d. */
  datatype Outcome = Panic | Fail | Existing(i: nat) | Done(d: nat, i: nat)

  function LinkCall(v: Nodes, cwd: nat, oldPath: string, newPath: string): Outcome {
    match Resolve(v, Start(cwd, oldPath), Elements(oldPath))
    case Halt => Panic
    case Missing => Fail
    case Found(i) =>
      if i >= |v| || v[i].kind == 0 then Panic
      else if v[i].kind == T_DIR then Fail
      else
        match ResolveParent(v, Start(cwd, newPath), Elements(newPath))
        case Halt => Panic
        case Missing => Fail
        case Found(d) =>
          if IndexOf(v[d].ents, Last(newPath)) < |v[d].ents| then Fail
          else if SlotFor(v[d].ents) >= DIRENTS then Panic else Done(d, i)
  }

  function UnlinkCall(v: Nodes, cwd: nat, path: string): Outcome {
    match ResolveParent(v, Start(cwd, path), Elements(path))
    case Halt => Panic
    case Missing => Fail
    case Found(d) =>
      var k := IndexOf(v[d].ents, Last(path));
      if Last(path) == "." || Last(path) == ".." || k == |v[d].ents| then Fail
      else
        var i := v[d].ents[k].inum;
        if i < |v| && v[i].kind == T_DIR && !Childless(v[i]) then Fail else Done(d, i)
  }

  /** The first inode from 1 on that is free. */
  function FirstFree(v: Nodes, i: nat): (r: nat)
    requires i <= |v|
    ensures i <= r <= |v| && (r < |v| ==> v[r].kind == 0) && forall j: nat {:trigger v[j]} :: i <= j < r ==>
              v[j].kind != 0
    decreases |v| - i
  {
    if i < |v| && v[i].kind != 0 then FirstFree(v, i + 1) else i
  }

  function CreateCall(v: Nodes, cwd: nat, path: string, kind: nat): Outcome {
    match ResolveParent(v, Start(cwd, path), Elements(path))
    case Halt => Panic
    case Missing => Fail
    case Found(d) =>
      var k := IndexOf(v[d].ents, Last(path));
      if k < |v[d].ents| then
        var i := v[d].ents[k].inum;
        if i >= |v| || v[i].kind == 0 then Panic
        else if kind == T_FILE && (v[i].kind == T_FILE || v[i].kind == T_DEVICE) then Existing(i) else Fail
      else
        var i := FirstFree(v, 1);
        if i >= |v| || SlotFor(v[d].ents) >= DIRENTS then Panic else Done(d, i)
  }

  /** iput, by its last holder, of an inode without links. */
  function Released(v: Nodes, refs: seq<nat>, i: nat): Nodes
    requires i < |v| == |refs|
  {
    if refs[i] == 0 && v[i].nlink == 0 then v[i := FREENODE] else v
  }

  /** Looking up does not depend on link counts. */
  lemma {:induction false} SameLookups(v: Nodes, v': Nodes, i: nat, names: seq<string>)
    requires |v'| == |v| && forall j: nat {:trigger v'[j]} :: j < |v| ==>
               v'[j].kind == v[j].kind && v'[j].ents == v[j].ents
    ensures ResolveParent(v', i, names) == ResolveParent(v, i, names)
    decreases |names|
  {
    if names != [] && i < |v| {
      var n := v'[i];
      var k := IndexOf(v[i].ents, names[0]);
      if k < |v[i].ents| { SameLookups(v, v', v[i].ents[k].inum, names[1..]); }
    }
  }

  class Dirs {
    var k: Nodes
    var refs: seq<nat>          // references from outside the call at hand
    ghost var depth: seq<nat>

    ghost predicate Valid()
      reads this
    {
      Inv(k, depth) == true && HeldOk(k, refs) == true
    }

    /** What mkfs makes: a root with nothing but its dots, and free inodes. */
    constructor (n: nat)
      requires n > ROOTINO
      ensures Valid() && |k| == n && k[ROOTINO] == Node(T_DIR, 1, Dots(ROOTINO, ROOTINO))
      ensures forall i: nat :: i < n && i != ROOTINO ==> k[i] == FREENODE
    {
      var v: Nodes := seq(n, _ => FREENODE);
      k := v[ROOTINO := Node(T_DIR, 1, Dots(ROOTINO, ROOTINO))];
      refs := seq(n, _ => 0);
      depth := seq(n, _ => 0);
      new;
      MkfsInv(k, depth);
    }

    method Dirlookup(d: nat, name: string) returns (off: nat)
      requires d < |k|
      ensures off == IndexOf(k[d].ents, name)
    {
      off := 0;
      while off < |k[d].ents|
        invariant off <= |k[d].ents|
        invariant forall j: nat {:trigger k[d].ents[j]} :: j < off ==>
                    k[d].ents[j].inum == 0 || k[d].ents[j].name != name
      {
        if k[d].ents[off].inum != 0 && k[d].ents[off].name == name { break; }
        off := off + 1;
      }
      IndexIs(k[d].ents, name, off);
    }

    /** dirlink. halted: the directory is as long as a file can be, and the kernel panics. */
    method Dirlink(d: nat, name: string, inum: nat) returns (ok: bool, halted: bool)
      requires d < |k|
      modifies this`k
      ensures ok <==> IndexOf(old(k)[d].ents, name) == |old(k)[d].ents|
      ensures halted <==> ok && SlotFor(old(k)[d].ents) >= DIRENTS
      ensures k == if ok && !halted then WithEntry(old(k), d, Dirent(inum, name)) else old(k)
    {
      halted := false;
      var present := Dirlookup(d, name);
      ok := present == |k[d].ents|;
      if !ok { return; }
      var off := 0;
      while off < |k[d].ents| && k[d].ents[off].inum != 0
        invariant off <= |k[d].ents| && forall j: nat {:trigger k[d].ents[j]} :: j < off ==> k[d].ents[j].inum != 0
      {
        off := off + 1;
      }
      SlotIs(k[d].ents, off);
      if off >= DIRENTS { return true, true; }
      k := WithEntry(k, d, Dirent(inum, name));
    }

    method Isdirempty(d: nat) returns (b: bool)
      requires d < |k|
      ensures b <==> Childless(k[d])
    {
      var off := 2;
      while off < |k[d].ents|
        invariant 2 <= off && forall j: nat {:trigger k[d].ents[j]} :: 2 <= j < off && j < |k[d].ents| ==>
                    k[d].ents[j].inum == 0
      {
        if k[d].ents[off].inum != 0 { return false; }
        off := off + 1;
      }
      b := true;
    }

    /** namex. A path that begins with a slash is followed from the root, whatever the working directory is,
        and any other from the working directory. */
    method Namex(cwd: nat, path: string, parent: bool) returns (r: Lookup, name: string)
      ensures path != "" && path[0] == '/' ==>
                r == if parent then ResolveParent(k, ROOTINO, Elements(path)) else Resolve(k, ROOTINO, Elements(path))
      ensures path == "" || path[0] != '/' ==>
                r == if parent then ResolveParent(k, cwd, Elements(path)) else Resolve(k, cwd, Elements(path))
      ensures parent && r.Found? ==> name == Last(path)
      ensures !parent && path == "/" ==> r == Found(ROOTINO)
      ensures !parent && path == "" ==> r == Found(cwd)
      ensures !parent && path != "" && '/' !in path ==>
                r == if cwd >= |k| || k[cwd].kind == 0 then Halt
                else if k[cwd].kind != T_DIR then Missing
                else
                  var e := IndexOf(k[cwd].ents, if |path| >= 14 then path[..14] else path);
                  if e == |k[cwd].ents| then Missing else Found(k[cwd].ents[e].inum)
    {
      OneName(k, if path == "/" then ROOTINO else cwd, path);
      var i: nat, p: nat := Start(cwd, path), 0;
      name := "";
      while true
        invariant p <= |path| && (p > 0 ==> name == Last(path) || NamesFrom(path, p) != [])
        invariant NamesFrom(path, p) != [] ==> Elements(path) != [] && LastOf(NamesFrom(path, p)) == Last(path)
        invariant parent ==>
                    ResolveParent(k, i, NamesFrom(path, p)) == ResolveParent(k, Start(cwd, path), Elements(path))
        invariant !parent ==> Resolve(k, i, NamesFrom(path, p)) == Resolve(k, Start(cwd, path), Elements(path))
        decreases |path| - p
      {
        var ok, q, elem, _, _ := Skipelem(path, p);
        if !ok { return if parent then Missing else Found(i), name; }
        name := elem;
        ghost var ns, ns' := NamesFrom(path, p), NamesFrom(path, q);
        assert ns[1..] == ns' && ns[0] == elem;
        if i >= |k| || k[i].kind == 0 { return Halt, name; }
        if k[i].kind != T_DIR { return Missing, name; }
        if parent && q == |path| { return Found(i), name; }
        var off := Dirlookup(i, name);
        if off == |k[i].ents| { return Missing, name; }
        i := k[i].ents[off].inum;
        p := q;
      }
    }

    /** iput of the call's own reference. */
    method Put(i: nat)
      requires i < |k| == |refs|
      modifies this`k
      ensures k == Released(old(k), refs, i)
    {
      if refs[i] == 0 && k[i].nlink == 0 { k := k[i := FREENODE]; }
    }

    /** idup, or iget for an open file or a working directory. */
    method Hold(i: nat)
      requires Valid() && 0 < i < |k| && k[i].kind != 0 && |refs| == |k|
      modifies this`refs
      ensures Valid() && refs == old(refs)[i := old(refs)[i] + 1]
    {
      OneMoreHolder(k, refs, i);
      refs := refs[i := refs[i] + 1];
    }

    /** iput by one of the holders. The last one to let go of an inode without links frees it. */
    method Drop(i: nat)
      requires Valid() && 0 < i < |k| == |refs| && refs[i] > 0
      modifies this`k, this`refs
      ensures Valid() && refs == old(refs)[i := old(refs)[i] - 1] && k == Released(old(k), refs, i)
    {
      ghost var v := k;
      refs := refs[i := refs[i] - 1];
      if refs[i] == 0 && k[i].nlink == 0 { UnlinkedKeeps(k, depth, i, FREENODE); }
      Put(i);
      forall j: nat | 0 < j < |k|
          ensures (refs[j] > 0 ==> k[j].kind != 0) && (k[j].kind != 0 && k[j].nlink == 0 ==> refs[j] > 0) {
        assert old(refs)[j] > 0 ==> v[j].kind != 0;
      }
    }

    /** link. It keeps the tree and its counts if and only if the directory is linked and the count does
        not wrap. */
    method SysLink(cwd: nat, oldPath: string, newPath: string) returns (r: int, halted: bool)
      requires Valid() && cwd < |k|
      modifies this`k
      ensures halted <==> LinkCall(old(k), cwd, oldPath, newPath).Panic?
      ensures !halted ==> r == if LinkCall(old(k), cwd, oldPath, newPath).Done? then 0 else -1
      ensures !halted && r == -1 ==> k == old(k)
      ensures !halted && r == 0 ==>
                var v, c := old(k), LinkCall(old(k), cwd, oldPath, newPath);
                && CanLink(v, c.d, SlotFor(v[c.d].ents), Last(newPath), c.i)
                && k == LinkFile(v, c.d, SlotFor(v[c.d].ents), Last(newPath), c.i)
                && (Linked(v[c.d]) && v[c.i].nlink < SHRT_MAX ==> Valid())
                && (!(Linked(v[c.d]) && v[c.i].nlink < SHRT_MAX) ==> !LinksOk(k))
    {
      hide Inv, HeldOk, Elements, Last, Resolve, ResolveParent;
      halted, r := false, -1;
      var f, _ := Namex(cwd, oldPath, false);
      if f.Halt? { return -1, true; }
      if f.Missing? { return; }
      var ip := f.i;
      if ip >= |k| || k[ip].kind == 0 { return -1, true; }
      NotReleased(k, depth, refs, ip);
      if k[ip].kind == T_DIR {
        Put(ip);
        return;
      }
      ghost var v := k;
      k := k[ip := k[ip].(nlink := Inc(k[ip].nlink))];
      var ok;
      ok, halted := LinkAt(cwd, newPath, ip, v);
      if halted { return; }
      if !ok { k := k[ip := k[ip].(nlink := Dec(k[ip].nlink))]; }
      assert !ok ==> k == v;
      r := if ok then 0 else -1;
      Put(ip);
    }

    /** The part of link that finds the directory and writes the entry, once ip's count in v has gone
        up. */
    method LinkAt(cwd: nat, newPath: string, ip: nat, ghost v: Nodes) returns (ok: bool, halted: bool)
      requires Inv(v, depth) && HeldOk(v, refs) && ip < |v| == |k| && v[ip].kind != 0 && v[ip].kind != T_DIR
      requires k == v[ip := v[ip].(nlink := Inc(v[ip].nlink))]
      modifies this`k
      ensures var b := ResolveParent(v, Start(cwd, newPath), Elements(newPath));
              && (halted <==>
                  b.Halt? || (b.Found? && IndexOf(v[b.i].ents, Last(newPath)) == |v[b.i].ents|
                      && SlotFor(v[b.i].ents) >= DIRENTS))
              && (ok <==> !halted && b.Found? && IndexOf(v[b.i].ents, Last(newPath)) == |v[b.i].ents|)
              && (ok ==> Named(v, depth, refs, b.i, SlotFor(v[b.i].ents), Last(newPath), ip, k))
      ensures !ok && !halted ==> k == old(k)
    {
      hide Inv, HeldOk;
      ok, halted := false, false;
      SameLookups(v, k, Start(cwd, newPath), Elements(newPath));
      var g, name := Namex(cwd, newPath, true);
      if g.Halt? { return false, true; }
      if g.Missing? { return; }
      ok, halted := Dirlink(g.i, name, ip);
      if halted { return false, true; }
      NotReleased(v, depth, refs, g.i);
      if ok { LinkedFile(v, depth, refs, g.i, name, ip); }
      Put(g.i);
    }

    /** unlink. It keeps the tree and its counts. */
    method SysUnlink(cwd: nat, path: string) returns (r: int, halted: bool)
      requires Valid() && cwd < |k|
      modifies this`k
      ensures halted <==> UnlinkCall(old(k), cwd, path).Panic?
      ensures !halted ==> Valid() && r == if UnlinkCall(old(k), cwd, path).Done? then 0 else -1
      ensures !halted && r == -1 ==> k == old(k)
      ensures !halted && r == 0 ==>
                var v, c := old(k), UnlinkCall(old(k), cwd, path);
                c.d < |v| && Gone(v, refs, c.d, IndexOf(v[c.d].ents, Last(path)), c.i, k)
    {
      hide Inv, HeldOk;
      halted, r := false, -1;
      var f, name := Namex(cwd, path, true);
      if f.Halt? { return -1, true; }
      if f.Missing? { return; }
      var dp := f.i;
      NotReleased(k, depth, refs, dp);
      if name == "." || name == ".." {
        Put(dp);
        return;
      }
      var off := Dirlookup(dp, name);
      if off == |k[dp].ents| {
        Put(dp);
        return;
      }
      r := UnlinkEntryOf(dp, off, name);
    }

    /** The part of unlink that follows dirlookup. Neither ilock nor the check of the link count
        panics. */
    method UnlinkEntryOf(dp: nat, off: nat, name: string) returns (r: int)
      requires Valid() && dp < |k| && k[dp].kind == T_DIR && name != "." && name != ".."
      requires off == IndexOf(k[dp].ents, name) < |k[dp].ents|
      modifies this`k
      ensures Valid()
      ensures var v := old(k); var i := v[dp].ents[off].inum;
              && i < |v| && r == (if v[i].kind == T_DIR && !Childless(v[i]) then -1 else 0)
              && if r == -1 then k == v else Gone(v, refs, dp, off, i, k)
    {
      hide Inv, HeldOk;
      ghost var v := k;
      FoundEntry(k, depth, dp, name);
      var ip := k[dp].ents[off].inum;
      NotReleased(k, depth, refs, dp);
      NotReleased(k, depth, refs, ip);
      if k[ip].kind == T_DIR {
        var empty := Isdirempty(ip);
        if !empty {
          Put(ip);
          Put(dp);
          return -1;
        }
      }
      UnlinkedOne(k, depth, refs, dp, off, ip);
      assert k[ip].kind != 0 && k[ip].nlink >= 1;
      k := k[dp := k[dp].(ents := k[dp].ents[off := NOENT])];
      if k[ip].kind == T_DIR { k := k[dp := k[dp].(nlink := k[dp].nlink - 1)]; }
      Put(dp);
      k := k[ip := k[ip].(nlink := k[ip].nlink - 1)];
      assert k == Unlink(v, dp, off, ip);
      Put(ip);
      r := 0;
    }

    /** ialloc's search. */
    method Ialloc() returns (i: nat)
      requires |k| > 0
      ensures i == FirstFree(k, 1)
    {
      i := 1;
      while i < |k| && k[i].kind != 0
        invariant 1 <= i <= |k| && FirstFree(k, i) == FirstFree(k, 1)
      {
        i := i + 1;
      }
    }

    /** create. It keeps the tree and its counts if and only if the directory is linked and, for a new
        directory, its count does not wrap. The caller is given a reference to the inode. */
    method Create(cwd: nat, path: string, kind: nat) returns (ip: nat, halted: bool)
      requires Valid() && cwd < |k| && (kind == T_DIR || kind == T_FILE || kind == T_DEVICE)
      modifies this
      ensures halted <==> CreateCall(old(k), cwd, path, kind).Panic?
      ensures !halted ==>
                match CreateCall(old(k), cwd, path, kind)
                case Existing(i) => ip == i && k == old(k) && Valid() && refs == old(refs)[i := old(refs)[i] + 1]
                case Done(d, i) =>
                  && ip == i && refs == old(refs)[i := old(refs)[i] + 1]
                  && Made(old(k), old(depth), old(refs), d, Last(path), i, kind, k, depth, refs)
                case _ => ip == 0 && k == old(k) && Valid() && refs == old(refs)
    {
      hide Inv, HeldOk, Elements, Last, Resolve, ResolveParent, Made;
      halted, ip := false, 0;
      var f, name := Namex(cwd, path, true);
      if f.Halt? { return 0, true; }
      if f.Missing? { return; }
      var dp := f.i;
      NotReleased(k, depth, refs, dp);
      var off := Dirlookup(dp, name);
      if off < |k[dp].ents| {
        Put(dp);
        var i := k[dp].ents[off].inum;
        if i >= |k| || k[i].kind == 0 { return 0, true; }
        NotReleased(k, depth, refs, i);
        if kind == T_FILE && (k[i].kind == T_FILE || k[i].kind == T_DEVICE) {
          OneMoreHolder(k, refs, i);
          refs := refs[i := refs[i] + 1];
          return i, false;
        }
        Put(i);
        return;
      }
      ip, halted := MakeNode(dp, name, kind);
    }

    /** The part of create that makes a new inode. */
    method MakeNode(dp: nat, name: string, kind: nat) returns (ip: nat, halted: bool)
      requires Valid() && dp < |k| && k[dp].kind == T_DIR && IndexOf(k[dp].ents, name) == |k[dp].ents|
      requires kind == T_DIR || kind == T_FILE || kind == T_DEVICE
      modifies this
      ensures halted <==> FirstFree(old(k), 1) == |old(k)| || SlotFor(old(k)[dp].ents) >= DIRENTS
      ensures !halted ==>
                ip == FirstFree(old(k), 1) && |old(refs)| == |old(k)| && refs == old(refs)[ip := old(refs)[ip] + 1]
      ensures !halted ==> Made(old(k), old(depth), old(refs), dp, name, ip, kind, k, depth, refs)
    {
      hide Inv, HeldOk;
      ghost var v := k;
      NotReleased(v, depth, refs, dp);
      ip := Ialloc();
      if ip == |k| { return 0, true; }
      halted := FillNode(dp, name, ip, kind);
      if halted { return; }
      MadeNode(v, depth, refs, dp, name, ip, kind);
      Put(dp);
      refs := refs[ip := refs[ip] + 1];
      if kind == T_DIR { depth := depth[ip := depth[dp] + 1]; }
    }

    /** The writes of create. */
    method FillNode(dp: nat, name: string, ip: nat, kind: nat) returns (halted: bool)
      requires dp < |k| && 0 < ip < |k| && k[ip].kind == 0 && k[dp].kind == T_DIR
      requires IndexOf(k[dp].ents, name) == |k[dp].ents|
      modifies this`k
      ensures halted <==> SlotFor(old(k)[dp].ents) >= DIRENTS
      ensures !halted ==> k == NewNode(old(k), dp, SlotFor(old(k)[dp].ents), name, ip, kind)
    {
      ghost var v := k;
      k := k[ip := Node(kind, 1, [])];
      if kind == T_DIR {
        k := k[dp := k[dp].(nlink := Inc(k[dp].nlink))];
        MakeDots(ip, dp);
      }
      assert k[dp].ents == v[dp].ents;
      ghost var ok;
      ok, halted := Dirlink(dp, name, ip);
      assert !halted ==> k == NewNode(v, dp, SlotFor(v[dp].ents), name, ip, kind);
    }

    /** The entries of a new directory, which dirlink does not refuse. */
    method MakeDots(ip: nat, dp: nat)
      requires 0 < ip < |k| && k[ip].ents == []
      modifies this`k
      ensures k == old(k)[ip := old(k)[ip].(ents := Dots(ip, dp))]
    {
      var ok1, halted1 := Dirlink(ip, ".", ip);
      assert k[ip].ents == [Dirent(ip, ".")] && SlotFor(k[ip].ents) == 1;
      var ok2, halted2 := Dirlink(ip, "..", dp);
      assert ok1 && ok2 && !halted1 && !halted2 && k[ip].ents == Dots(ip, dp);
    }
  }

  /** A new inode with a name in d. */
  function NewNode(v: Nodes, d: nat, k: nat, name: string, i: nat, kind: nat): Nodes
    requires d < |v| && i < |v| && k <= |v[d].ents| && i != d
  {
    if kind == T_DIR then LinkDir(v[i := Node(T_DIR, 0, Dots(i, d))], d, k, name, i)
    else LinkFile(v[i := Node(kind, 0, [])], d, k, name, i)
  }

  ghost predicate Made(v: Nodes, depth: seq<nat>, refs: seq<nat>, d: nat, name: string, i: nat, kind: nat,
                       v': Nodes, depth': seq<nat>, refs': seq<nat>)
  {
    && d < |v| && 0 < i < |v| && i != d && v[i].kind == 0 && v' == NewNode(v, d, SlotFor(v[d].ents), name, i, kind)
    && if Linked(v[d]) && (kind == T_DIR ==> v[d].nlink < SHRT_MAX) then Inv(v', depth') && HeldOk(v', refs')
        else !LinksOk(v')
  }

  lemma OneMoreHolder(v: Nodes, refs: seq<nat>, i: nat)
    requires HeldOk(v, refs) && 0 < i < |v| && v[i].kind != 0
    ensures HeldOk(v, refs[i := refs[i] + 1])
  {
    var refs' := refs[i := refs[i] + 1];
    forall j: nat | 0 < j < |v|
        ensures (refs'[j] > 0 ==> v[j].kind != 0) && (v[j].kind != 0 && v[j].nlink == 0 ==> refs'[j] > 0) {
      var r := refs[j];
    }
  }

  lemma MadeNode(v: Nodes, depth: seq<nat>, refs: seq<nat>, d: nat, name: string, i: nat, kind: nat)
    requires Inv(v, depth) && HeldOk(v, refs) && d < |v| && v[d].kind == T_DIR && 0 < i < |v| && v[i].kind == 0
    requires IndexOf(v[d].ents, name) == |v[d].ents| && SlotFor(v[d].ents) < DIRENTS
    requires kind == T_DIR || kind == T_FILE || kind == T_DEVICE
    ensures i != d && |depth| == |v|
    ensures Made(v, depth, refs, d, name, i, kind, NewNode(v, d, SlotFor(v[d].ents), name, i, kind),
                 if kind == T_DIR then depth[i := depth[d] + 1] else depth, refs[i := refs[i] + 1])
    ensures Released(NewNode(v, d, SlotFor(v[d].ents), name, i, kind), refs, d) == NewNode(v, d, SlotFor(v[d].ents),
            name, i, kind)
  {
    assert NodeOk(v, d) && NodeOk(v, i);
    NotReleased(v, depth, refs, d);
    FreshSlot(v, d, name);
    var k, v' := SlotFor(v[d].ents), NewNode(v, d, SlotFor(v[d].ents), name, i, kind);
    var n := if kind == T_DIR then Node(T_DIR, 0, Dots(i, d)) else Node(kind, 0, []);
    assert Unborn(v, i, n) by { assert kind == T_DIR ==> n.ents == Dots(i, d); }
    UnlinkedKeeps(v, depth, i, n);
    if kind == T_DIR {
      LinkDirKeeps(v[i := n], depth, d, k, name, i);
    } else {
      LinkFileKeeps(v[i := n], depth, d, k, name, i);
    }
    var refs' := refs[i := refs[i] + 1];
    if Linked(v[d]) {
      forall j: nat | 0 < j < |v|
          ensures (refs'[j] > 0 ==> v'[j].kind != 0) && (v'[j].kind != 0 && v'[j].nlink == 0 ==> refs'[j] > 0) {
        var r := refs[j];
      }
    }
  }

  /** An entry that a lookup has found, other than the dots, is one of a linked directory. */
  lemma FoundEntry(v: Nodes, depth: seq<nat>, d: nat, name: string)
    requires Inv(v, depth) && d < |v| && v[d].kind == T_DIR && name != "." && name != ".."
    requires IndexOf(v[d].ents, name) < |v[d].ents|
    ensures var k := IndexOf(v[d].ents, name); var i := v[d].ents[k].inum;
            k >= 2 && 0 < i < |v| && Names(v, d, k, i) && v[i].kind != 0 && i != d
  {
    var k := IndexOf(v[d].ents, name);
    assert NodeOk(v, d);
    var e := v[d].ents[k];
    assert EntryOk(v, depth, d, k) && NodeOk(v, e.inum);
  }

  /** v' is v without entry k of d, and without inode i if nothing holds it any more. */
  ghost predicate Gone(v: Nodes, refs: seq<nat>, d: nat, k: nat, i: nat, v': Nodes) {
    CanUnlink(v, d, k, i) && |refs| == |v| && v' == Released(Unlink(v, d, k, i), refs, i)
  }

  lemma UnlinkedOne(v: Nodes, depth: seq<nat>, refs: seq<nat>, d: nat, k: nat, i: nat)
    requires Inv(v, depth) && HeldOk(v, refs) && Names(v, d, k, i) && k >= 2 && 0 < i < |v|
    requires v[i].kind == T_DIR ==> Childless(v[i])
    ensures i != d && CanUnlink(v, d, k, i) && v[i].nlink > 0 && Unlink(v, d, k, i)[d].nlink > 0
    ensures var v' := Released(Unlink(v, d, k, i), refs, i); Inv(v', depth) && HeldOk(v', refs)
  {
    UnlinkKeeps(v, depth, d, k, i);
    var u := Unlink(v, d, k, i);
    if v[i].kind == T_DIR {
      EmptyHasOneLink(v, depth, d, k, i);
      ParentStays(v, depth, d, i);
    }
    if refs[i] == 0 && u[i].nlink == 0 { UnlinkedKeeps(u, depth, i, FREENODE); }
    forall j: nat | 0 < j < |v| ensures var v' := Released(u, refs, i);
      (refs[j] > 0 ==> v'[j].kind != 0) && (v'[j].kind != 0 && v'[j].nlink == 0 ==> refs[j] > 0)
    {
      var r := refs[j];
    }
  }

  /** v' is v with a new name for i in d; it is in order if and only if d is linked and the count does not
      wrap. */
  ghost predicate Named(v: Nodes, depth: seq<nat>, refs: seq<nat>, d: nat, k: nat, name: string, i: nat, v': Nodes) {
    && CanLink(v, d, k, name, i) && v' == LinkFile(v, d, k, name, i) && |refs| == |v|
    && Released(v', refs, i) == v'
    && (Linked(v[d]) && v[i].nlink < SHRT_MAX ==> Inv(v', depth) && HeldOk(v', refs))
    && (!(Linked(v[d]) && v[i].nlink < SHRT_MAX) ==> !LinksOk(v'))
  }

  /** What is in use without links is held, and so stays. */
  lemma NotReleased(v: Nodes, depth: seq<nat>, refs: seq<nat>, i: nat)
    requires Inv(v, depth) && HeldOk(v, refs) && i < |v| && v[i].kind != 0
    ensures 0 < i < |refs| == |v| && v[i].nlink >= 0 && Released(v, refs, i) == v && (v[i].nlink == 0 ==> refs[i] > 0)
  {
    assert NodeOk(v, i);
    assert v[i].nlink == |RefsTo(v, i)|;
  }

  lemma LinkedFile(v: Nodes, depth: seq<nat>, refs: seq<nat>, d: nat, name: string, i: nat)
    requires Inv(v, depth) && HeldOk(v, refs) && d < |v| && v[d].kind == T_DIR && i < |v| && v[i].kind != 0
             && v[i].kind != T_DIR
    requires IndexOf(v[d].ents, name) == |v[d].ents| && SlotFor(v[d].ents) < DIRENTS
    ensures i != d && Named(v, depth, refs, d, SlotFor(v[d].ents), name, i, LinkFile(v, d, SlotFor(v[d].ents), name, i))
  {
    NotReleased(v, depth, refs, i);
    FreshSlot(v, d, name);
    LinkFileKeeps(v, depth, d, SlotFor(v[d].ents), name, i);
  }

  lemma FreshSlot(v: Nodes, d: nat, name: string)
    requires d < |v| && NodeOk(v, d) && v[d].kind == T_DIR && IndexOf(v[d].ents, name) == |v[d].ents|
             && SlotFor(v[d].ents) < DIRENTS
    ensures FreeSlot(v[d].ents, SlotFor(v[d].ents)) && Unnamed(v[d].ents, name)
  {
    var ents := v[d].ents;
    assert ents[0].inum != 0 && ents[1].inum != 0;
  }

  // ---------------------------------------------------------------------------------
  // What the calls mean for paths.

  /** From a linked directory, or the root, no lookup panics; the directories on the way are linked and
      what is found is in use and has links. */
  lemma {:induction false} LinkedWalk(v: Nodes, depth: seq<nat>, i: nat, names: seq<string>)
    requires Inv(v, depth) && i < |v| && v[i].kind != 0 && v[i].nlink > 0
    ensures !Resolve(v, i, names).Halt? && !ResolveParent(v, i, names).Halt?
    ensures Resolve(v, i, names).Found? ==>
              Resolve(v, i, names).i < |v| && v[Resolve(v, i, names).i].kind != 0 && v[Resolve(v, i, names).i].nlink > 0
    ensures ResolveParent(v, i, names).Found? ==> Linked(v[ResolveParent(v, i, names).i])
    decreases |names|
  {
    if names != [] && v[i].kind == T_DIR {
      var k := IndexOf(v[i].ents, names[0]);
      if k < |v[i].ents| {
        NoDangling(v, depth, i, k);
        LinkedWalk(v, depth, v[i].ents[k].inum, names[1..]);
      }
    }
  }

  /** An entry more does not hide what was found before. */
  lemma IndexGrows(ents: seq<Dirent>, k: nat, e: Dirent, name: string)
    requires k <= |ents| && (k < |ents| ==> ents[k].inum == 0) && e.inum != 0 && Unnamed(ents, e.name)
    ensures var r := SetEnt(ents, k, e);
            IndexOf(r, name) == if name == e.name then k
                                else if IndexOf(ents, name) == |ents| then |r| else IndexOf(ents, name)
  {
    var r, m := SetEnt(ents, k, e), IndexOf(ents, name);
    forall j: nat | j < |r| && j != k ensures r[j] == ents[j] {}
    IndexIs(r, name, if name == e.name then k else if m == |ents| then |r| else m);
  }

  /** Every inode keeps its kind and entries, but for d, which gets one more. */
  ghost predicate MoreEntries(v: Nodes, v': Nodes, d: nat, k: nat, e: Dirent) {
    && |v'| == |v| && d < |v| && v[d].kind == T_DIR && k <= |v[d].ents| && (k < |v[d].ents| ==> v[d].ents[k].inum == 0)
    && e.inum != 0 && Unnamed(v[d].ents, e.name)
    && forall j: nat {:trigger v'[j]} :: j < |v| && v[j].kind != 0 ==>
         v'[j].kind == v[j].kind && v'[j].ents == if j == d then SetEnt(v[d].ents, k, e) else v[j].ents
  }

  lemma {:induction false} StillFound(v: Nodes, v': Nodes, d: nat, k: nat, e: Dirent, i: nat, names: seq<string>)
    requires MoreEntries(v, v', d, k, e)
    ensures ResolveParent(v, i, names).Found? ==> ResolveParent(v', i, names) == ResolveParent(v, i, names)
    ensures Resolve(v, i, names).Found? ==> Resolve(v', i, names) == Resolve(v, i, names)
    decreases |names|
  {
    if names != [] && i < |v| && v[i].kind == T_DIR {
      var n := v'[i];
      var m := IndexOf(v[i].ents, names[0]);
      if i == d { IndexGrows(v[d].ents, k, e, names[0]); }
      if m < |v[i].ents| {
        assert n.ents[m] == v[i].ents[m] && IndexOf(n.ents, names[0]) == m;
        StillFound(v, v', d, k, e, v[i].ents[m].inum, names[1..]);
      }
    }
  }

  /** The path that link or create was given leads to the inode afterwards, and every path that led
      somewhere still leads there. */
  lemma NewPathFound(v: Nodes, v': Nodes, d: nat, k: nat, i: nat, start: nat, path: string)
    requires MoreEntries(v, v', d, k, Dirent(i, Last(path))) && ResolveParent(v, start, Elements(path)) == Found(d)
    ensures Resolve(v', start, Elements(path)) == Found(i)
    ensures forall s: nat, q: string {:trigger Resolve(v', s, Elements(q))} ::
              Resolve(v, s, Elements(q)).Found? ==> Resolve(v', s, Elements(q)) == Resolve(v, s, Elements(q))
  {
    var e := Dirent(i, Last(path));
    StillFound(v, v', d, k, e, start, Elements(path));
    ResolveLast(v', start, Elements(path));
    IndexGrows(v[d].ents, k, e, e.name);
    var n := v'[d];
    forall s: nat, q: string | Resolve(v, s, Elements(q)).Found?
        ensures Resolve(v', s, Elements(q)) == Resolve(v, s, Elements(q)) {
      StillFound(v, v', d, k, e, s, Elements(q));
    }
  }

  /** After a link. */
  lemma LinkFound(v: Nodes, depth: seq<nat>, refs: seq<nat>, v': Nodes, cwd: nat, oldPath: string, newPath: string)
    requires Inv(v, depth) && LinkCall(v, cwd, oldPath, newPath).Done?
    requires var c := LinkCall(v, cwd, oldPath, newPath);
             Named(v, depth, refs, c.d, SlotFor(v[c.d].ents), Last(newPath), c.i, v')
    ensures Resolve(v', Start(cwd, newPath), Elements(newPath)) == Found(LinkCall(v, cwd, oldPath, newPath).i)
    ensures Resolve(v', Start(cwd, oldPath), Elements(oldPath)) == Found(LinkCall(v, cwd, oldPath, newPath).i)
  {
    var c := LinkCall(v, cwd, oldPath, newPath);
    assert NodeOk(v, c.i);
    NewPathFound(v, v', c.d, SlotFor(v[c.d].ents), c.i, Start(cwd, newPath), newPath);
  }

  /** After a creation. */
  lemma CreateFound(v: Nodes, depth: seq<nat>, refs: seq<nat>, v': Nodes, depth': seq<nat>, refs': seq<nat>,
                    cwd: nat, path: string, kind: nat)
    requires Inv(v, depth) && CreateCall(v, cwd, path, kind).Done? && kind != 0
    requires var c := CreateCall(v, cwd, path, kind); Made(v, depth, refs, c.d, Last(path), c.i, kind, v', depth',
             refs')
    ensures Resolve(v', Start(cwd, path), Elements(path)) == Found(CreateCall(v, cwd, path, kind).i)
    ensures var c := CreateCall(v, cwd, path, kind);
            && v'[c.i].kind == kind && v'[c.i].nlink == 1 && (kind != T_DIR ==> v'[c.i].ents == [])
            && (kind == T_DIR ==> Resolve(v', c.i, ["."]) == Found(c.i) && Resolve(v', c.i, [".."]) == Found(c.d))
            && forall j: nat {:trigger v'[j]} :: j < |v| && j != c.i && j != c.d ==> v'[j] == v[j]
  {
    var c := CreateCall(v, cwd, path, kind);
    assert NodeOk(v, c.d);
    NewPathFound(v, v', c.d, SlotFor(v[c.d].ents), c.i, Start(cwd, path), path);
    if kind == T_DIR { DotsLead(v', c.i, c.d); }
  }

  lemma {:induction false} DotsLead(v: Nodes, i: nat, d: nat)
    requires i < |v| && v[i].kind == T_DIR && v[i].ents == [Dirent(i, "."), Dirent(d, "..")] && i != 0 && d != 0
    ensures Resolve(v, i, ["."]) == Found(i) && Resolve(v, i, [".."]) == Found(d)
  {
    var ents := v[i].ents;
    assert "."[0] == '.' && |"."| == 1 && |".."| == 2;
    IndexIs(ents, ".", 0);
    IndexIs(ents, "..", 1);
    assert ["."][1..] == [] && [".."][1..] == [];
  }

  /** After an unlink the name is gone from its directory. */
  lemma UnlinkGone(v: Nodes, depth: seq<nat>, refs: seq<nat>, v': Nodes, d: nat, name: string, i: nat)
    requires Inv(v, depth) && d < |v| && v[d].kind == T_DIR && IndexOf(v[d].ents, name) < |v[d].ents|
    requires Gone(v, refs, d, IndexOf(v[d].ents, name), i, v')
    ensures IndexOf(v'[d].ents, name) == |v'[d].ents|
    ensures forall other {:trigger IndexOf(v'[d].ents, other)} ::
              other != name && IndexOf(v[d].ents, other) < |v[d].ents| ==>
                  IndexOf(v'[d].ents, other) == IndexOf(v[d].ents, other)
  {
    var k, ents, ents' := IndexOf(v[d].ents, name), v[d].ents, v'[d].ents;
    assert NodeOk(v, d) && ents' == ents[k := NOENT];
    forall j: nat | j < |ents'| ensures ents'[j].inum == 0 || ents'[j].name != name { var a, b := ents[j], ents[k]; }
    IndexIs(ents', name, |ents'|);
    forall other | other != name && IndexOf(ents, other) < |ents|
        ensures IndexOf(ents', other) == IndexOf(ents, other) {
      IndexIs(ents', other, IndexOf(ents, other));
    }
  }

  lemma MkfsInv(v: Nodes, depth: seq<nat>)
    requires ROOTINO < |v| == |depth| && v[ROOTINO] == Node(T_DIR, 1, Dots(ROOTINO, ROOTINO))
    requires forall i: nat :: i < |v| && i != ROOTINO ==> v[i] == FREENODE
    requires forall i: nat :: i < |v| ==> depth[i] == 0
    ensures Inv(v, depth)
  {
    forall i: nat | 0 < i < |v| ensures v[i].nlink == |RefsTo(v, i)| {
      var s: set<(nat, nat)> := if i == ROOTINO then {(ROOTINO, 1)} else {};
      RefsEqual(v, i, s);
    }
  }
}
