/** Writing through a file descriptor (filewrite in kernel/file.c): a write goes to writei in chunks, each
    a transaction of its own. */
module FileWrite {
  import opened Common
  import opened FsLayout
  import opened Files
  import opened FileData

  const MAXCHUNK: nat := (MAXOPBLOCKS - 1 - 1 - 2) / 2 * BSIZE

  /** The blocks a chunk of filewrite logs, with a bitmap of one block: at most four of data, the indirect
      block, the inode's and the bitmap's. */
  lemma ChunkLogs(sb: Super, v: Fs, v': Fs, i: nat, off: nat, src: Source, first: nat, n: nat, p: Progress,
                  log: set<nat>)
    requires sb.size <= BPB && |src.bytes| <= MAXCHUNK
    requires WriteDone(sb, v, v', i, off, src, first, n, p, {}, log) == true
    ensures |log| <= 7
  {
    var ib := IBlock(sb, i);
    assert p.cnt <= 4;
    assert LogsOnly(sb, v', i, first, p.cnt, {}, log - {ib});
    LogCount(sb, v', i, first, p.cnt, log - {ib});
    assert log <= (log - {ib}) + {ib};
    SubsetSize(log, (log - {ib}) + {ib});
  }

  function Rest(src: Source, i: nat, n: nat): Source
    requires i + n <= |src.bytes|
  {
    Source(src.bytes[i..i + n], if src.good >= i then src.good - i else 0, src.part)
  }

  /** The blocks that n bytes from off on lie in. */
  function Span(off: nat, n: nat): nat {
    if n == 0 then 0 else (off + n - 1) / BSIZE - off / BSIZE + 1
  }

  /** The part of a range lies in its blocks, and two parts that meet make up the whole. */
  lemma SpanParts(off: nat, i: nat, m: nat, n: nat)
    requires i + m <= n
    ensures m > 0 ==>
              off / BSIZE <= (off + i) / BSIZE && (off + i) / BSIZE + Span(off + i, m) <= off / BSIZE + Span(off, n)
    ensures m > 0 ==> (off + i) / BSIZE <= off / BSIZE + Span(off, i)
    ensures m > 0 ==> (off + i) / BSIZE + Span(off + i, m) == off / BSIZE + Span(off, i + m)
    ensures Span(off, i) <= Span(off, i + m)
  {}

  /** What writei maps is part of what the whole write needs. */
  lemma AttemptedPart(off: nat, src: Source)
    ensures Attempted(off, src) <= Span(off, |src.bytes|)
    ensures src.good >= |src.bytes| ==> Attempted(off, src) == Span(off, |src.bytes|)
  {}

  lemma SlotsWithin(bn: nat, n: nat, first: nat, all: nat)
    requires n > 0 ==> first <= bn && bn + n <= first + all
    ensures Slots(bn, n) <= Slots(first, all)
  {
    forall s | s in Slots(bn, n) ensures s in Slots(first, all) {
      SlotsAre(bn, n, s);
      SlotsAre(first, all, s);
    }
  }

  lemma SlotsJoin(first: nat, n: nat, bn: nat, m: nat, all: nat)
    requires first <= bn <= first + n && bn + m == first + all && n <= all
    ensures Slots(first, all) <= Slots(first, n) + Slots(bn, m)
  {
    forall s | s in Slots(first, all) ensures s in Slots(first, n) + Slots(bn, m) {
      SlotsAre(first, n, s);
      SlotsAre(bn, m, s);
      SlotsAre(first, all, s);
    }
  }

  // ---------------------------------------------------------------------------------
  // What filewrite does, chunk after chunk.

  /** How far writei gets with a range that is in order. */
  function Outcome(off: nat, src: Source): Progress {
    var n, all := Attempted(off, src), |src.bytes|;
    if src.good >= all then Progress(all, all, n) else
    var last := (off + src.good) / BSIZE * BSIZE;
    var tot := if last <= off then 0 else last - off;
    var m := Chunk(off + tot, all - tot);
    Progress(tot, tot + if src.part < m then src.part else m, n)
  }

  lemma EndsThere(off: nat, src: Source, p: Progress)
    requires Ends(off, src, off / BSIZE, Attempted(off, src), p)
    ensures p == Outcome(off, src) && p.cnt == Attempted(off, src)
  {
  }

  /** The length of the chunk from byte i on. */
  function Piece(src: Source, i: nat): (n1: nat)
    requires i <= |src.bytes|
    ensures i + n1 <= |src.bytes| && (i < |src.bytes| ==> n1 > 0)
  {
    if |src.bytes| - i > MAXCHUNK then MAXCHUNK else |src.bytes| - i
  }

  function ChunkAt(src: Source, i: nat): Source
    requires i <= |src.bytes|
  {
    Rest(src, i, Piece(src, i))
  }

  /** writei takes the chunk from byte i on, of a file of that size. */
  predicate InOrder(size: nat, off: nat, src: Source, i: nat)
    requires i <= |src.bytes|
  {
    off + i <= size && off + i + Piece(src, i) <= MAXFILE * BSIZE
  }

  /** The course of a write: the slots it fills, the byte it gets to, and the size it leaves. */
  datatype Course = Course(slots: set<nat>, end: nat, size: nat)

  function CourseOf(size: nat, off: nat, src: Source, i: nat): (c: Course)
    requires i <= |src.bytes|
    ensures i <= c.end <= |src.bytes|
    decreases |src.bytes| - i
  {
    if i == |src.bytes| || !InOrder(size, off, src, i) then Course({}, i, size) else
    var c := CourseOf(SizeAfter(size, off + i, Outcome(off + i, ChunkAt(src, i)).tot), off, src, i + Piece(src, i));
    c.(slots := Slots((off + i) / BSIZE, Attempted(off + i, ChunkAt(src, i))) + c.slots)
  }

  lemma CourseStops(size: nat, off: nat, src: Source, i: nat)
    requires i <= |src.bytes| && (i == |src.bytes| || !InOrder(size, off, src, i))
    ensures CourseOf(size, off, src, i) == Course({}, i, size)
  {
  }

  lemma CourseNext(size: nat, off: nat, src: Source, i: nat, first: nat, n: nat, tot: nat)
    requires i < |src.bytes| && InOrder(size, off, src, i) && first == (off + i) / BSIZE
    requires n == Attempted(off + i, ChunkAt(src, i)) && tot == Outcome(off + i, ChunkAt(src, i)).tot
    ensures var c := CourseOf(SizeAfter(size, off + i, tot), off, src, i + Piece(src, i));
            CourseOf(size, off, src, i) == c.(slots := Slots(first, n) + c.slots)
  {
    hide Attempted, Slots, Outcome;
  }

  /** The slots of a set that have no block. */
  function Lacks(v: Fs, i: nat, slots: set<nat>): set<nat> {
    set s | s in slots && Ref(v, i, s) == 0
  }

  /** Where the chunk of byte t begins. */
  function StartOf(t: nat): (c: nat)
    ensures c <= t
  {
    t / MAXCHUNK * MAXCHUNK
  }

  predicate Starts(i: nat) { i % MAXCHUNK == 0 }

  lemma InChunk(i: nat, t: nat)
    requires Starts(i) && i <= t < i + MAXCHUNK
    ensures StartOf(t) == i
  {
    assert i == 3072 * (i / 3072);
    QuotRem(t, 3072, i / 3072, t - i);
  }

  lemma InChunkEnd(t: nat)
    ensures t < StartOf(t) + MAXCHUNK
  {
  }

  lemma NextStarts(i: nat)
    requires Starts(i)
    ensures Starts(i + MAXCHUNK)
  {
  }

  /** Byte t of the source has come: copying its chunk got that far. */
  predicate Came(off: nat, src: Source, t: nat)
    requires t < |src.bytes|
  {
    t - StartOf(t) < Outcome(off + StartOf(t), ChunkAt(src, StartOf(t))).done
  }

  /** From v0 to v those of the first n bytes of the source that came have been written at off in file i,
      and no other byte of any file has changed. */
  ghost predicate WroteSome(v0: Fs, v: Fs, i: nat, off: nat, src: Source, n: nat) {
    n <= |src.bytes| &&
    forall i': nat, x: nat {:trigger ByteAt(v, i', x)} :: x < MAXFILE * BSIZE ==>
      ByteAt(v, i', x) == if i' == i && off <= x < off + n && Came(off, src, x - off) then src.bytes[x - off]
                          else ByteAt(v0, i', x)
  }

  /** A chunk brings no more than it has. */
  lemma OutcomeBounds(off: nat, src: Source)
    ensures Outcome(off, src).tot <= Outcome(off, src).done <= |src.bytes|
    ensures src.good >= |src.bytes| ==> Outcome(off, src).tot == Outcome(off, src).done == |src.bytes|
  {
  }

  lemma WroteNext(v0: Fs, v: Fs, v': Fs, i: nat, off: nat, src: Source, n: nat, done: nat)
    requires n < |src.bytes| && Starts(n) && WroteSome(v0, v, i, off, src, n)
    requires done == Outcome(off + n, ChunkAt(src, n)).done <= |ChunkAt(src, n).bytes|
    requires Wrote(v, v', i, off + n, ChunkAt(src, n).bytes[..done])
    ensures WroteSome(v0, v', i, off, src, n + Piece(src, n))
  {
    hide Outcome, StartOf, Starts, ByteAt;
    forall i': nat, x: nat | x < MAXFILE * BSIZE
      ensures ByteAt(v', i', x)
           == if i' == i && off <= x < off + n + Piece(src, n) && Came(off, src, x - off) then src.bytes[x - off]
              else ByteAt(v0, i', x)
    {
      assert ByteAt(v, i', x) == if i' == i && off <= x < off + n && Came(off, src, x - off) then src.bytes[x - off]
                                 else ByteAt(v0, i', x);
      if off + n <= x < off + n + Piece(src, n) { InChunk(n, x - off); }
    }
  }

  /** From v0 to v no inode but f has changed, and f in its size and blocks only; a file without holes still
      has none. */
  ghost predicate Follows(v0: Fs, v: Fs, f: nat) {
    && f < |v0.ino| == |v.ino| && v.ino == v0.ino[f := v0.ino[f].(size := v.ino[f].size, addrs := v.ino[f].addrs)]
    && (Dense(v0, f) ==> Dense(v, f))
  }

  /** Where filewrite stands after i of its bytes, on the course that it set out on. */
  ghost predicate Partway(v0: Fs, free0: nat, v: Fs, free: nat, f: nat, off: nat, src: Source, i: nat) {
    && i <= |src.bytes| && (i == |src.bytes| || Starts(i)) && f < |v0.ino| && f < |v.ino|
    && var c0, c := CourseOf(v0.ino[f].size, off, src, 0), CourseOf(v.ino[f].size, off, src, i);
    && free + |Lacks(v0, f, c0.slots)| == free0 + |Lacks(v, f, c.slots)|
    && c.end == c0.end && c.size == c0.size
    && WroteSome(v0, v, f, off, src, i) && Follows(v0, v, f)
  }

  lemma PartwayStart(v0: Fs, free0: nat, f: nat, off: nat, src: Source)
    requires f < |v0.ino|
    ensures Partway(v0, free0, v0, free0, f, off, src, 0)
  {
  }

  /** Filling some slots takes them off those that lack a block. */
  lemma LacksAfter(v: Fs, v': Fs, i: nat, bn: nat, n: nat, slots: set<nat>)
    requires Filled(v, v', i, bn, n)
    ensures |Lacks(v, i, Slots(bn, n) + slots)| == |Lacks(v', i, slots)| + |Missing(v, i, bn, n)|
  {
    var a, b, d := Lacks(v, i, Slots(bn, n) + slots), Lacks(v', i, slots), Missing(v, i, bn, n);
    forall s: nat ensures s in a <==> s in b || s in d { assert Ref(v', i, s) == Ref(v', i, s); }
    forall s: nat ensures !(s in b && s in d) { assert Ref(v', i, s) == Ref(v', i, s); }
    assert a == b + d && b !! d;
  }

  /** A chunk that writei has taken in. */
  lemma PartwayNext(v0: Fs, free0: nat, v: Fs, free: nat, v': Fs, free': nat, f: nat, off: nat, src: Source, i: nat,
                    sb: Super, p: Progress, log: set<nat>, first: nat, n: nat)
    requires Partway(v0, free0, v, free, f, off, src, i) && i < |src.bytes| && InOrder(v.ino[f].size, off, src, i)
    requires first == (off + i) / BSIZE && n == Attempted(off + i, ChunkAt(src, i))
    requires WriteDone(sb, v, v', f, off + i, ChunkAt(src, i), first, n, p, {}, log)
    requires free' == free - |Missing(v, f, first, n)|
    ensures Partway(v0, free0, v', free', f, off, src, i + Piece(src, i))
  {
    hide Attempted, Slots, Missing, Lacks, Wrote, WroteSome, Filled, LogsOnly, Dense, Ends, Outcome, CourseOf, Starts;
    NextStarts(i);
    var size, chunk := v.ino[f].size, ChunkAt(src, i);
    EndsThere(off + i, chunk, p);
    CourseNext(size, off, src, i, first, n, p.tot);
    LacksAfter(v, v', f, first, n, CourseOf(SizeAfter(size, off + i, p.tot), off, src, i + Piece(src, i)).slots);
    WroteNext(v0, v, v', f, off, src, i, p.done);
  }

  /** A chunk for which there are not enough blocks. */
  lemma PartwayShort(v0: Fs, free0: nat, v: Fs, free: nat, f: nat, off: nat, src: Source, i: nat, first: nat, n: nat)
    requires Partway(v0, free0, v, free, f, off, src, i) && i < |src.bytes| && InOrder(v.ino[f].size, off, src, i)
    requires first == (off + i) / BSIZE && n == Attempted(off + i, ChunkAt(src, i)) && free < |Missing(v, f, first, n)|
    ensures free0 < |Lacks(v0, f, CourseOf(v0.ino[f].size, off, src, 0).slots)|
  {
    hide Attempted, Slots, WroteSome, Outcome;
    SubsetSize(Missing(v, f, first, n), Lacks(v, f, CourseOf(v.ino[f].size, off, src, i).slots));
  }

  lemma PartwayEnd(v0: Fs, free0: nat, v: Fs, free: nat, f: nat, off: nat, src: Source, i: nat)
    requires Partway(v0, free0, v, free, f, off, src, i)
    requires i == |src.bytes| || !InOrder(v.ino[f].size, off, src, i)
    ensures var c := CourseOf(v0.ino[f].size, off, src, 0);
            && free == free0 - |Lacks(v0, f, c.slots)| && c.end == i && c.size == v.ino[f].size
            && WroteSome(v0, v, f, off, src, i) && Follows(v0, v, f)
  {
    assert Lacks(v, f, {}) == {};
  }

  /** One transaction of filewrite: begin_op, writei, end_op. */
  method WriteChunk(f: FileSystem, off: nat, src: Source, ghost first: nat, ghost n: nat)
    returns (r: int, halted: bool, ghost p: Progress)
    requires f.Valid() && f.ip.kind != 0 && off < UINT && |src.bytes| <= MAXCHUNK
    requires first == off / BSIZE && n == Attempted(off, src)
    modifies f`k, f`ip, f`own, f`base, f`logged, f`stray
    ensures !halted ==> f.Valid() && f.ip.kind == old(f.ip.kind) && (f.sb.size <= BPB ==> |f.logged| <= 7)
    ensures if off > old(f.ip.size) || off + |src.bytes| > MAXFILE * BSIZE then r == -1 else r == |src.bytes|
    ensures r == -1 ==> !halted && f.k == old(f.k) && f.ip == old(f.ip)
    ensures r != -1 ==> (halted <==> Free(old(f.k.bits)) < |Missing(old(f.V()), f.cur, first, n)|)
    ensures r != -1 && !halted ==>
              && WriteDone(f.sb, old(f.V()), f.V(), f.cur, off, src, first, n, p, {}, f.logged) == true
              && Free(f.k.bits) == Free(old(f.k.bits)) - |Missing(old(f.V()), f.cur, first, n)|
              && f.base == old(f.k) && f.stray == Unlogged(f.V(), f.cur, src, first, n)
  {
    hide WriteDone, Missing, Attempted;
    f.BeginOp();
    ghost var v := f.V();
    r, halted, p := Writei(f, off, src);
    if r != -1 && !halted && f.sb.size <= BPB { ChunkLogs(f.sb, v, f.V(), f.cur, off, src, first, n, p, f.logged); }
  }

  /** i of n bytes have been written in so many transactions, as few as can be with 3072 bytes in each. */
  predicate Trips(i: nat, n: nat, ops: nat) {
    i <= ops * 3072 && (i < n ==> i == ops * 3072) && (ops > 0 ==> (ops - 1) * 3072 < i)
  }

  lemma TripsNone(n: nat)
    ensures Trips(0, n, 0)
  {
  }

  lemma TripsNext(i: nat, n: nat, ops: nat)
    requires Trips(i, n, ops) && i < n
    ensures Trips(i + if n - i > MAXCHUNK then MAXCHUNK else n - i, n, ops + 1)
  {
  }

  /** filewrite to an inode, n1 bytes to a transaction, at most 3072, none of which logs more than 7 blocks. It returns
      n if and only if every chunk is in order, whether or not copying fails in one; the bytes that came
      are in the file. It halts exactly when fewer blocks are unmarked than there are slots to fill on its
      course. */
  method Filewrite(f: FileSystem, off: nat, src: Source)
    returns (ret: int, off': nat, halted: bool, ghost most: nat, ghost ops: nat)
    requires f.Valid() && f.ip.kind != 0 && off < UINT
    modifies f`k, f`ip, f`own, f`base, f`logged, f`stray
    ensures !halted ==> f.Valid() && f.ip.kind == old(f.ip.kind) && (f.sb.size <= BPB ==> most <= 7)
    ensures var c := CourseOf(old(f.ip.size), off, src, 0);
            && (halted <==> Free(old(f.k.bits)) < |Lacks(old(f.V()), f.cur, c.slots)|)
            && (!halted ==> ret == if c.end == |src.bytes| then |src.bytes| else -1)
            && (!halted ==> off' == off + c.end && f.ip.size == c.size)
            && (!halted ==> Free(f.k.bits) == Free(old(f.k.bits)) - |Lacks(old(f.V()), f.cur, c.slots)|)
            && (!halted ==> WroteSome(old(f.V()), f.V(), f.cur, off, src, c.end) && Follows(old(f.V()), f.V(), f.cur))
    ensures !halted && ret >= 0 ==> Trips(|src.bytes|, |src.bytes|, ops)
  {
    hide WriteDone, Missing, Attempted, CourseOf, Lacks, WroteSome, Trips, Follows, Partway, Covered;
    ghost var v0, free0 := f.V(), Free(f.k.bits);
    var i: nat, n := 0, |src.bytes|;
    ret, off', halted, most, ops := -1, off, false, 0, 0;
    PartwayStart(v0, free0, f.cur, off, src);
    TripsNone(n);
    while i < n
      invariant !halted && i <= n && off' == off + i && off' < UINT && f.Valid() && f.ip.kind == old(f.ip.kind)
      invariant f.sb.size <= BPB ==> most <= 7
      invariant Trips(i, n, ops)
      invariant Partway(v0, free0, f.V(), Free(f.k.bits), f.cur, off, src, i) == true
    {
      var chunk, r := ChunkAt(src, i), 0;
      ghost var v, free, first, m, p := f.V(), Free(f.k.bits), off' / BSIZE, Attempted(off', chunk), Progress(0, 0, 0);
      r, halted, p := WriteChunk(f, off', chunk, first, m);
      if halted {
        PartwayShort(v0, free0, v, free, f.cur, off, src, i, first, m);
        return;
      }
      most := if |f.logged| > most then |f.logged| else most;
      if r < 0 { break; }
      PartwayNext(v0, free0, v, free, f.V(), Free(f.k.bits), f.cur, off, src, i, f.sb, p, f.logged, first, m);
      off' := off' + r;
      i := i + r;
      TripsNext(i - r, n, ops);
      ops := ops + 1;
    }
    PartwayEnd(v0, free0, f.V(), Free(f.k.bits), f.cur, off, src, i);
    ret := if i == n then n else -1;
  }

  // ---------------------------------------------------------------------------------
  // A source from which copying does not fail.

  /** Then the write goes through if and only if the range is in order. */
  lemma {:induction false} GoodEnds(size: nat, off: nat, src: Source, i: nat)
    requires src.good >= |src.bytes| && i <= |src.bytes|
    ensures var c, n := CourseOf(size, off, src, i), |src.bytes|;
            && (c.end == n <==> i == n || (off + i <= size && off + n <= MAXFILE * BSIZE))
            && (c.end == n ==> c.size == SizeAfter(size, off + i, n - i))
    decreases |src.bytes| - i
  {
    hide Attempted, Slots, Outcome, CourseOf;
    if i == |src.bytes| || !InOrder(size, off, src, i) {
      CourseStops(size, off, src, i);
    } else {
      var n1, chunk := Piece(src, i), ChunkAt(src, i);
      GoodEnds(SizeAfter(size, off + i, n1), off, src, i + n1);
      OutcomeBounds(off + i, chunk);
      CourseNext(size, off, src, i, (off + i) / BSIZE, Attempted(off + i, chunk), n1);
    }
  }

  /** And it fills the slots of the whole range. */
  lemma {:induction false} GoodSlots(size: nat, off: nat, src: Source, i: nat)
    requires src.good >= |src.bytes| && i <= |src.bytes| && off + i <= size && off + |src.bytes| <= MAXFILE * BSIZE
    ensures CourseOf(size, off, src, i).slots == Slots((off + i) / BSIZE, Span(off + i, |src.bytes| - i))
    decreases |src.bytes| - i
  {
    hide Attempted, Slots, Outcome, CourseOf, Span;
    if i == |src.bytes| {
      CourseStops(size, off, src, i);
      NoSlots((off + i) / BSIZE, off + i);
    } else {
      GoodNext(size, off, src, i, Piece(src, i));
      GoodSlots(SizeAfter(size, off + i, Piece(src, i)), off, src, i + Piece(src, i));
      TwoParts(off + i, Piece(src, i), |src.bytes| - i);
    }
  }

  lemma GoodNext(size: nat, off: nat, src: Source, i: nat, n1: nat)
    requires src.good >= |src.bytes| && i < |src.bytes| && n1 == Piece(src, i) && InOrder(size, off, src, i)
    ensures CourseOf(size, off, src, i).slots
         == Slots((off + i) / BSIZE, Span(off + i, n1)) + CourseOf(SizeAfter(size, off + i, n1), off, src, i + n1).slots
  {
    hide Attempted, Slots, Outcome, CourseOf, Span;
    AttemptedPart(off + i, ChunkAt(src, i));
    OutcomeBounds(off + i, ChunkAt(src, i));
    CourseNext(size, off, src, i, (off + i) / BSIZE, Span(off + i, n1), n1);
  }

  /** The slots of a range are those of its first n1 bytes and those of the rest. */
  lemma TwoParts(off: nat, n1: nat, n: nat)
    requires 0 < n1 <= n
    ensures Slots(off / BSIZE, Span(off, n))
         == Slots(off / BSIZE, Span(off, n1)) + Slots((off + n1) / BSIZE, Span(off + n1, n - n1))
  {
    hide Slots;
    var first, next := off / BSIZE, (off + n1) / BSIZE;
    SpanParts(off, 0, n1, n);
    if n1 == n { NoSlots(next, off + n1); return; }
    SpanParts(off, n1, n - n1, n);
    SlotsWithin(first, Span(off, n1), first, Span(off, n));
    SlotsWithin(next, Span(off + n1, n - n1), first, Span(off, n));
    SlotsJoin(first, Span(off, n1), next, Span(off + n1, n - n1), Span(off, n));
  }

  lemma NoSlots(bn: nat, off: nat)
    ensures Span(off, 0) == 0 && Slots(bn, 0) == {}
  {
  }

  /** All of it is written. */
  lemma GoodWrote(v0: Fs, v: Fs, f: nat, off: nat, src: Source)
    requires src.good >= |src.bytes| && WroteSome(v0, v, f, off, src, |src.bytes|)
    ensures Wrote(v0, v, f, off, src.bytes)
  {
    forall t: nat | t < |src.bytes| ensures Came(off, src, t) {
      OutcomeBounds(off + StartOf(t), ChunkAt(src, StartOf(t)));
      InChunkEnd(t);
    }
    hide Came;
  }
}
