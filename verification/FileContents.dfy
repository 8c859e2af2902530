/** Files as sequences of bytes: what reading a file to its end brings, and what a write makes of it (readi and
    writei in kernel/fs.c, fileread and filewrite in kernel/file.c). */
module FileContents {
  import opened Common
  import opened FsLayout
  import opened Files
  import opened FileData
  import opened FileWrite

  /** The contents of file i. */
  ghost function Contents(v: Fs, i: nat): (s: seq<Byte>)
    requires i < |v.ino|
    ensures |s| == v.ino[i].size
  {
    Bytes(v, i, 0, v.ino[i].size)
  }

  /** c with b written over it at off, and past its end. */
  function Spliced(c: seq<Byte>, off: nat, b: seq<Byte>): seq<Byte>
    requires off <= |c|
  {
    c[..off] + b + if off + |b| < |c| then c[off + |b|..] else []
  }

  lemma BytesJoin(v: Fs, i: nat, off: nat, n: nat, m: nat)
    ensures Bytes(v, i, off, n) + Bytes(v, i, off + n, m) == Bytes(v, i, off, n + m)
  {
    var a, b, c := Bytes(v, i, off, n), Bytes(v, i, off + n, m), Bytes(v, i, off, n + m);
    forall j: nat | j < n + m ensures (a + b)[j] == c[j] {
      assert c[j] == ByteAt(v, i, off + j);
      if j >= n { assert b[j - n] == ByteAt(v, i, off + n + (j - n)); }
    }
  }

  /** Reading n bytes at a time until a read brings nothing: all of the file, in order, and nothing else. */
  method ReadFile(f: FileSystem, n: nat) returns (data: seq<Byte>)
    requires f.Valid() && f.ip.kind != 0 && Dense(f.V(), f.cur) && 0 < n < 0x8000_0000
    modifies f`k, f`ip, f`own, f`logged
    ensures f.k == old(f.k) && f.ip == old(f.ip) && f.own == old(f.own) && f.logged == old(f.logged)
    ensures data == Contents(f.V(), f.cur)
  {
    hide Bytes;
    data := [];
    BytesOfNone(f.V(), f.cur);
    while true
      invariant f.k == old(f.k) && f.ip == old(f.ip) && f.own == old(f.own) && f.logged == old(f.logged)
      invariant |data| <= f.ip.size && data == Bytes(f.V(), f.cur, 0, |data|)
      decreases f.ip.size - |data|
    {
      var part := Readi(f, |data|, n, n);
      if part == [] { break; }
      BytesJoin(f.V(), f.cur, 0, |data|, |part|);
      data := data + part;
    }
  }

  lemma BytesOfNone(v: Fs, i: nat)
    ensures Bytes(v, i, 0, 0) == []
  {
  }

  /** A write that did not fail, as a change of the contents. */
  lemma WroteSpliced(v: Fs, v': Fs, i: nat, off: nat, src: seq<Byte>)
    requires i < |v.ino| && i < |v'.ino| && off <= v.ino[i].size && off + |src| <= MAXFILE * BSIZE
    requires Wrote(v, v', i, off, src) && v.ino[i].size <= MAXFILE * BSIZE
    requires v'.ino[i].size == if off + |src| > v.ino[i].size then off + |src| else v.ino[i].size
    ensures Contents(v', i) == Spliced(Contents(v, i), off, src)
  {
    var c, c' := Contents(v, i), Contents(v', i);
    var s := Spliced(c, off, src);
    forall x: nat | x < |c'| ensures c'[x] == s[x] {
      assert c'[x] == ByteAt(v', i, x);
      if x < |c| { assert c[x] == ByteAt(v, i, x); }
    }
  }

  lemma OthersContents(v: Fs, v': Fs, i: nat, j: nat, off: nat, src: seq<Byte>)
    requires i < |v.ino| == |v'.ino| && j < |v.ino| && j != i && v'.ino[j] == v.ino[j]
    requires v.ino[j].size <= MAXFILE * BSIZE && Wrote(v, v', i, off, src)
    ensures Contents(v', j) == Contents(v, j)
  {
    var c, c' := Contents(v, j), Contents(v', j);
    forall x: nat | x < |c| ensures c'[x] == c[x] { assert c'[x] == ByteAt(v', j, x) && c[x] == ByteAt(v, j, x); }
  }

  /** filewrite of a source that does not fail, where the range is in order: the file becomes what it was with
      the source written over it at the offset, no other file changes, and it halts exactly when fewer blocks
      are unmarked than slots are missing in the range. */
  method Overwrite(f: FileSystem, off: nat, src: Source) returns (halted: bool, off': nat)
    requires f.Valid() && f.ip.kind != 0 && Dense(f.V(), f.cur) && src.good >= |src.bytes|
    requires off <= f.ip.size && off + |src.bytes| <= MAXFILE * BSIZE
    modifies f`k, f`ip, f`own, f`base, f`logged, f`stray
    ensures halted <==> Free(old(f.k.bits)) < |Missing(old(f.V()), f.cur, off / BSIZE, Span(off, |src.bytes|))|
    ensures !halted ==> f.Valid() && f.ip.kind == old(f.ip.kind) && Dense(f.V(), f.cur) && off' == off + |src.bytes|
    ensures !halted ==> f.cur < |f.V().ino| == |old(f.V()).ino|
    ensures !halted ==> Contents(f.V(), f.cur) == Spliced(Contents(old(f.V()), f.cur), off, src.bytes)
    ensures !halted ==> forall j: nat :: j < |f.V().ino| && j != f.cur && old(f.V()).ino[j].size <= MAXFILE * BSIZE ==>
              Contents(f.V(), j) == Contents(old(f.V()), j)
  {
    hide Missing, Slots, CourseOf, Came, Covered;
    ghost var v := f.V();
    GoodEnds(f.ip.size, off, src, 0);
    GoodSlots(f.ip.size, off, src, 0);
    LacksIs(v, f.cur, off / BSIZE, Span(off, |src.bytes|));
    var ret;
    ghost var most, ops;
    ret, off', halted, most, ops := Filewrite(f, off, src);
    if halted { return; }
    GoodWrote(v, f.V(), f.cur, off, src);
    WroteSpliced(v, f.V(), f.cur, off, src.bytes);
    forall j: nat | j < |f.V().ino| && j != f.cur && v.ino[j].size <= MAXFILE * BSIZE
      ensures Contents(f.V(), j) == Contents(v, j)
    {
      OthersContents(v, f.V(), f.cur, j, off, src.bytes);
    }
  }

  lemma LacksIs(v: Fs, i: nat, bn: nat, n: nat)
    ensures Lacks(v, i, Slots(bn, n)) == Missing(v, i, bn, n)
  {
  }

  /** Written and then read to the end, n bytes at a time. */
  method WriteAndReadFile(f: FileSystem, off: nat, src: Source, n: nat) returns (halted: bool, data: seq<Byte>)
    requires f.Valid() && f.ip.kind != 0 && Dense(f.V(), f.cur) && src.good >= |src.bytes| && 0 < n < 0x8000_0000
    requires off <= f.ip.size && off + |src.bytes| <= MAXFILE * BSIZE
    modifies f`k, f`ip, f`own, f`base, f`logged, f`stray
    ensures halted <==> Free(old(f.k.bits)) < |Missing(old(f.V()), f.cur, off / BSIZE, Span(off, |src.bytes|))|
    ensures !halted ==> f.Valid() && data == Spliced(Contents(old(f.V()), f.cur), off, src.bytes)
  {
    hide Missing, Contents, Dense;
    data := [];
    var off';
    halted, off' := Overwrite(f, off, src);
    if !halted { data := ReadFile(f, n); }
  }
}
