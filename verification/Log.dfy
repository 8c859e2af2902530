/** The logging layer as code over the buffer cache (kernel/log.c): begin_op, log_write and
    end_op with its commit, and recovery at boot. The disk writes they issue are, one by one, those of
    Replay.CommitTrace and Replay.RecoveryTrace. */
module Log {
  import opened Common
  import opened Replay
  import opened LogMachine
  import opened Bcache

  /** Exactly the logged blocks are pinned, once each. */
  ghost predicate PinsMatch(L: Layout, lh: seq<int>, pins: seq<int>) {
    && |pins| == L.nblocks
    && (forall b {:trigger L.Home(b)} :: L.Home(b) ==> pins[b] == if b in lh then 1 else 0)
    && (forall b {:trigger pins[b]} :: L.start <= b < L.start + L.size && b < |pins| ==> pins[b] == 0)
  }

  /** Block b can be read by the committing thread without waiting. */
  ghost predicate ReadyIn(refs: seq<nat>, pins: seq<int>, locks: seq<bool>, b: int) {
    && 0 <= b < |refs| == |pins| == |locks|
    && pins[b] >= 0 && !locks[b] && refs[b] + pins[b] + 1 < UINT
  }

  /** So can every block of the log and every logged block. */
  ghost predicate CopyReadyIn(L: Layout, lh: seq<int>, refs: seq<nat>, pins: seq<int>, locks: seq<bool>) {
    && |pins| == L.nblocks
    && (forall b {:trigger ReadyIn(refs, pins, locks, b)} ::
          L.start <= b < L.start + L.size ==> ReadyIn(refs, pins, locks, b))
    && (forall i {:trigger lh[i]} :: 0 <= i < |lh| ==> ReadyIn(refs, pins, locks, lh[i]))
  }

  /** The operations that have ended hold nothing they changed, nor any block of the log. */
  ghost predicate ReleasedIn(L: Layout, lh: seq<int>, refs: seq<nat>, locks: seq<bool>, d: Disk, m: Disk) {
    && |refs| == |locks| == |d| == |m| == L.nblocks
    && forall b {:trigger locks[b]} :: 0 <= b < L.nblocks ==>
         && refs[b] + 2 < UINT
         && (locks[b] ==> L.Home(b) && b !in lh && d[b] == m[b])
  }

  /** Cache and disk agree but for blocks that are logged or held. */
  ghost predicate HeldOrLogged(L: Layout, lh: seq<int>, locks: seq<bool>, d: Disk, m: Disk) {
    && |locks| == |d| == |m| == L.nblocks
    && (forall b {:trigger d[b]} :: L.start <= b < L.start + L.size && b < |d| ==> d[b] == m[b])
    && (forall b {:trigger L.Home(b)} :: L.Home(b) && b !in lh && !locks[b] ==> d[b] == m[b])
  }

  lemma ReadyToCommit(L: Layout, lh: seq<int>, refs: seq<nat>, pins: seq<int>, locks: seq<bool>, d: Disk, m: Disk)
    requires L.Valid() && Loggable(L, lh) && PinsMatch(L, lh, pins)
    requires ReleasedIn(L, lh, refs, locks, d, m) && HeldOrLogged(L, lh, locks, d, m)
    ensures CopyReadyIn(L, lh, refs, pins, locks)
    ensures forall i {:trigger lh[i]} :: 0 <= i < |lh| ==> pins[lh[i]] > 0
    ensures AgreeOff(L, d, m, lh)
  {
    forall b | L.start <= b < L.start + L.size ensures ReadyIn(refs, pins, locks, b) {
      assert !locks[b];
    }
    forall i | 0 <= i < |lh| ensures ReadyIn(refs, pins, locks, lh[i]) && pins[lh[i]] > 0 {
      assert lh[i] in lh && !locks[lh[i]];
    }
    forall b | L.Home(b) && b !in lh ensures d[b] == m[b] {
      assert locks[b] || !locks[b];
    }
  }

  /** The disks of the first half of a commit. */
  ghost function HeadTrace(L: Layout, d: Disk, m: Disk, lh: seq<int>): (ws: seq<Disk>)
    requires L.Valid() && |d| == |m| == L.nblocks && |m[L.start]| == WORDS && Loggable(L, lh)
    ensures |ws| == |lh| + 1
  {
    LogTrace(L, d, m, lh, |lh|) + [Headered(L, d, m, lh)]
  }

  lemma HeadTraceTake(L: Layout, d: Disk, m: Disk, lh: seq<int>, k: nat)
    requires L.Valid() && |d| == |m| == L.nblocks && |m[L.start]| == WORDS && Loggable(L, lh) && k <= |lh|
    ensures LogTrace(L, d, m, lh, k) == HeadTrace(L, d, m, lh)[..k]
    ensures LogTrace(L, d, m, lh, |lh|) + [Headered(L, d, m, lh)] == HeadTrace(L, d, m, lh)[..|lh| + 1]
  {
    LogTracePrefix(L, d, m, lh, k, |lh|);
  }

  lemma RecoveryTraceTake(L: Layout, d: Disk, k: nat)
    requires HeaderOk(L, d) && k <= |Entries(d[L.start])|
    ensures var lh := Entries(d[L.start]);
            InstallTrace(L, d, lh, k) == RecoveryTrace(L, d)[..k]
  {
    InstallTracePrefix(L, d, Entries(d[L.start]), k, |Entries(d[L.start])|);
  }

  /** The disks of a commit: those of its first half, then those of its second. */
  lemma HeadIsFirst(L: Layout, d: Disk, m: Disk, lh: seq<int>, k: nat)
    requires L.Valid() && |d| == |m| == L.nblocks && |m[L.start]| == WORDS && Loggable(L, lh) && k <= |lh| + 1
    ensures HeadTrace(L, d, m, lh)[..k] == CommitTrace(L, d, m, lh)[..k]
  {
    assert CommitTrace(L, d, m, lh) == HeadTrace(L, d, m, lh) + RecoveryTrace(L, Headered(L, d, m, lh));
  }

  lemma CommitTraceTake(L: Layout, d: Disk, m: Disk, lh: seq<int>, j: nat)
    requires L.Valid() && |d| == |m| == L.nblocks && |m[L.start]| == WORDS && Loggable(L, lh) && j <= |lh| + 1
    ensures var c, r := CommitTrace(L, d, m, lh), RecoveryTrace(L, Headered(L, d, m, lh));
            c[..|lh| + 1] + r[..j] == c[..|lh| + 1 + j] && r[|lh|] == c[2 * |lh| + 1]
  {
    var a, r := HeadTrace(L, d, m, lh), RecoveryTrace(L, Headered(L, d, m, lh));
    assert CommitTrace(L, d, m, lh) == a + r;
  }

  lemma Joined<T>(w: seq<T>, a: seq<T>, b: seq<T>, c: seq<T>)
    requires a + b == c
    ensures w + a + b == w + c
  {
  }

  lemma HeadedAgree(L: Layout, d': Disk, m': Disk, d: Disk, m: Disk, lh: seq<int>)
    requires L.Valid() && |d| == |m| == L.nblocks && |m[L.start]| == WORDS && Loggable(L, lh) && AgreeOff(L, d, m, lh)
    requires d' == Logged(L, d, m, lh, |lh|)[L.start := Headed(m[L.start], lh)]
    requires m' == Logged(L, m, m, lh, |lh|)[L.start := Headed(m[L.start], lh)]
    ensures AgreeOff(L, d', m', lh)
  {
    LoggedAgree(L, d, m, lh, |lh|);
  }

  /** What InstallAndClear finds before it clears the header. */
  lemma ClearAgree(L: Layout, d: Disk, m: Disk, lh: seq<int>)
    requires HeaderOk(L, d) && lh == Entries(d[L.start]) && AgreeOff(L, d, m, lh)
    ensures Installed(L, d, lh, |lh|) == Installed(L, m, lh, |lh|)
    ensures Installed(L, d, lh, |lh|)[L.start] == d[L.start] && |d[L.start]| == WORDS
    ensures Installed(L, d, lh, |lh|)[L.start := Headed(d[L.start], [])] == RecoveryTrace(L, d)[|lh|]
  {
    InstalledAgree(L, d, m, lh, |lh|);
    AgreeOffNothing(L, Installed(L, d, lh, |lh|), Installed(L, m, lh, |lh|));
    InstalledOutside(L, d, lh, |lh|, L.start);
  }

  // ---------------------------------------------------------------------------------
  // When the cache has buffers enough.

  /** Round i of write_log or install_trans finds buffers for the log block and the home block. */
  ghost predicate RoomAt(L: Layout, lh: seq<int>, refs: seq<nat>, pins: seq<int>, i: nat)
    requires i < |lh|
  {
    Room(refs, pins, {L.start + 1 + i, lh[i]})
  }

  /** So do the first k rounds of write_log. */
  ghost predicate LogsFit(L: Layout, lh: seq<int>, refs: seq<nat>, pins: seq<int>, k: nat)
    requires k <= |lh|
  {
    forall i: nat {:trigger RoomAt(L, lh, refs, pins, i)} :: i < k ==> RoomAt(L, lh, refs, pins, i)
  }

  /** And of install_trans, which takes a pin away in each round. */
  ghost predicate InstallsFit(L: Layout, lh: seq<int>, refs: seq<nat>, p: seq<int>, k: nat)
    requires |p| == L.nblocks && Loggable(L, lh) && k <= |lh|
  {
    forall i: nat {:trigger Unpinned(L, p, lh, i)} :: i < k ==> RoomAt(L, lh, refs, Unpinned(L, p, lh, i), i)
  }

  lemma InstallStart(L: Layout, d: Disk, lh: seq<int>, refs: seq<nat>, p: seq<int>)
    requires L.Valid() && |d| == |p| == L.nblocks && Loggable(L, lh)
    ensures Installed(L, d, lh, 0) == d && InstallTrace(L, d, lh, 0) == []
    ensures Unpinned(L, p, lh, 0) == p && InstallsFit(L, lh, refs, p, 0)
  {
  }

  lemma FitNext(L: Layout, d: Disk, lh: seq<int>, refs: seq<nat>, p: seq<int>, k: nat)
    requires L.Valid() && |d| == |p| == L.nblocks && Loggable(L, lh) && k < |lh| && InstallsFit(L, lh, refs, p, k)
    ensures InstallsFit(L, lh, refs, p, k + 1) <==> RoomAt(L, lh, refs, Unpinned(L, p, lh, k), k)
    ensures InstallTrace(L, d, lh, k + 1) == InstallTrace(L, d, lh, k) + [Installed(L, d, lh, k + 1)]
  {
    hide RoomAt;
  }

  lemma FitLess(L: Layout, lh: seq<int>, refs: seq<nat>, p: seq<int>, j: nat, k: nat)
    requires |p| == L.nblocks && Loggable(L, lh) && j <= k <= |lh| && !InstallsFit(L, lh, refs, p, j)
    ensures !InstallsFit(L, lh, refs, p, k)
  {
    hide RoomAt;
  }

  /** Each block of the log that a commit of n blocks reads finds a buffer. */
  ghost predicate CommitRoom(L: Layout, n: nat, refs: seq<nat>, pins: seq<int>) {
    forall x: int {:trigger Room(refs, pins, {x})} :: L.start <= x <= L.start + n ==> Room(refs, pins, {x})
  }

  /** A single buffer that nobody refers to is enough for a commit. */
  lemma OneBufferCommits(L: Layout, n: nat, refs: seq<nat>, pins: seq<int>)
    requires |InUse(refs, pins)| < NBUF
    ensures CommitRoom(L, n, refs, pins)
  {
    forall x: int | L.start <= x <= L.start + n ensures Room(refs, pins, {x}) { RoomForOne(refs, pins, x); }
  }

  /** With fewer blocks in use there is no less room. */
  lemma RoomShrinks(refs: seq<nat>, pins: seq<int>, pins': seq<int>, s: set<int>, s': set<int>)
    requires Room(refs, pins, s) && InUse(refs, pins') + s' <= InUse(refs, pins) + s
    ensures Room(refs, pins', s')
  {
    SubsetSize(InUse(refs, pins') + s', InUse(refs, pins) + s);
  }

  /** In a commit the home block is pinned, so that round i needs a buffer for the log block alone. */
  lemma LogRoom(L: Layout, lh: seq<int>, refs: seq<nat>, pins: seq<int>, i: nat)
    requires i < |lh| && 0 <= lh[i] < |refs| == |pins| && pins[lh[i]] > 0
    ensures RoomAt(L, lh, refs, pins, i) <==> Room(refs, pins, {L.start + 1 + i})
  {
    assert lh[i] in InUse(refs, pins);
    assert InUse(refs, pins) + {L.start + 1 + i, lh[i]} == InUse(refs, pins) + {L.start + 1 + i};
  }

  lemma HeadAndLogRoom(L: Layout, lh: seq<int>, refs: seq<nat>, pins: seq<int>)
    requires |refs| == |pins| == L.nblocks && Loggable(L, lh) && forall j {:trigger lh[j]} :: 0 <= j < |lh| ==>
               pins[lh[j]] > 0
    ensures CommitRoom(L, |lh|, refs, pins) <==> LogsFit(L, lh, refs, pins, |lh|) && Room(refs, pins, {L.start})
  {
    forall i: nat | i < |lh| ensures RoomAt(L, lh, refs, pins, i) <==> Room(refs, pins, {L.start + 1 + i}) {
      LogRoom(L, lh, refs, pins, i);
    }
    if LogsFit(L, lh, refs, pins, |lh|) && Room(refs, pins, {L.start}) {
      forall x: int | L.start <= x <= L.start + |lh| ensures Room(refs, pins, {x}) {
        if x != L.start { assert RoomAt(L, lh, refs, pins, x - L.start - 1); }
      }
    }
  }

  /** install_trans needs no more than write_log did, nor the second write_head than the first. */
  lemma InstallRoom(L: Layout, lh: seq<int>, refs: seq<nat>, p: seq<int>, i: nat)
    requires L.Valid() && Loggable(L, lh) && |refs| == |p| == L.nblocks && i <= |lh|
    requires forall j {:trigger lh[j]} :: 0 <= j < |lh| ==> p[lh[j]] > 0
    requires CommitRoom(L, |lh|, refs, p)
    ensures i < |lh| ==> RoomAt(L, lh, refs, Unpinned(L, p, lh, i), i)
    ensures Room(refs, Unpinned(L, p, lh, i), {L.start})
  {
    var q := Unpinned(L, p, lh, i);
    UnpinnedAt(L, p, lh, i);
    forall b | b in InUse(refs, q)
        ensures b in InUse(refs, p) { assert b in lh[..i] ==> exists j :: 0 <= j < |lh| && lh[j] == b; }
    RoomShrinks(refs, p, q, {L.start}, {L.start});
    if i < |lh| {
      NotYetUnpinned(L, p, lh, i);
      RoomShrinks(refs, p, q, {L.start + 1 + i}, {L.start + 1 + i});
      LogRoom(L, lh, refs, q, i);
    }
  }

  lemma InstallsRoom(L: Layout, lh: seq<int>, refs: seq<nat>, p: seq<int>)
    requires L.Valid() && Loggable(L, lh) && |refs| == |p| == L.nblocks && CommitRoom(L, |lh|, refs, p)
    requires forall j {:trigger lh[j]} :: 0 <= j < |lh| ==> p[lh[j]] > 0
    ensures InstallsFit(L, lh, refs, p, |lh|) && Room(refs, Unpinned(L, p, lh, |lh|), {L.start})
  {
    forall i: nat | i <= |lh|
      ensures i < |lh| ==> RoomAt(L, lh, refs, Unpinned(L, p, lh, i), i)
      ensures Room(refs, Unpinned(L, p, lh, i), {L.start})
    {
      InstallRoom(L, lh, refs, p, i);
    }
  }

  ghost function SetOf(s: seq<int>): set<int> { set x | x in s }

  lemma {:induction false} SetOfSize(s: seq<int>)
    requires Distinct(s)
    ensures |SetOf(s)| == |s|
  {
    if s != [] {
      var t, x := s[..|s| - 1], s[|s| - 1];
      SetOfSize(t);
      assert s == t + [x] && SetOf(s) == SetOf(t) + {x};
    }
  }

  lemma RecoveryInUse(L: Layout, lh: seq<int>, refs: seq<nat>, p: seq<int>, i: nat)
    requires L.Valid() && Loggable(L, lh) && |refs| == |p| == L.nblocks && i <= |lh|
    requires forall b :: 0 <= b < L.nblocks ==> refs[b] == p[b] == 0
    ensures InUse(refs, Unpinned(L, p, lh, i)) == SetOf(lh[..i]) && |SetOf(lh[..i])| == i
  {
    var q, s := Unpinned(L, p, lh, i), lh[..i];
    UnpinnedAt(L, p, lh, i);
    forall b ensures b in InUse(refs, q) <==>
        b in SetOf(s) { assert b in s ==> exists j :: 0 <= j < |lh| && lh[j] == b; }
    SetOfSize(s);
  }

  lemma AddTwo(u: set<int>, x: int, y: int)
    requires x !in u && y !in u && x != y
    ensures |u + {x}| == |u| + 1 && |u + {x, y}| == |u| + 2
  {
    assert u + {x, y} == u + {x} + {y};
  }

  /** In recovery every block installed stays in use, unpinned once too often: round i needs two buffers
      besides i others. */
  lemma RecoveryRoom(L: Layout, lh: seq<int>, refs: seq<nat>, p: seq<int>, i: nat)
    requires L.Valid() && Loggable(L, lh) && |refs| == |p| == L.nblocks && i <= |lh|
    requires forall b :: 0 <= b < L.nblocks ==> refs[b] == p[b] == 0
    ensures Room(refs, Unpinned(L, p, lh, i), {L.start}) <==> i + 1 <= NBUF
    ensures i < |lh| ==> (RoomAt(L, lh, refs, Unpinned(L, p, lh, i), i) <==> i + 2 <= NBUF)
  {
    hide InUse, Unpinned;
    var u, s := SetOf(lh[..i]), L.start;
    RecoveryInUse(L, lh, refs, p, i);
    forall x | x in lh[..i] ensures L.Home(x) { var j :| 0 <= j < i && lh[..i][j] == x; assert lh[j] == x; }
    assert !L.Home(s);
    AddTwo(u, s, -1);
    if i < |lh| {
      assert !L.Home(s + 1 + i) && lh[i] !in lh[..i];
      AddTwo(u, s + 1 + i, lh[i]);
    }
  }

  lemma RecoveryFits(L: Layout, lh: seq<int>, refs: seq<nat>, p: seq<int>)
    requires L.Valid() && Loggable(L, lh) && |refs| == |p| == L.nblocks
    requires forall b :: 0 <= b < L.nblocks ==> refs[b] == p[b] == 0
    ensures Room(refs, p, {L.start})
    ensures |lh| < NBUF <==> InstallsFit(L, lh, refs, p, |lh|) && Room(refs, Unpinned(L, p, lh, |lh|), {L.start})
  {
    forall i: nat | i <= |lh|
      ensures Room(refs, Unpinned(L, p, lh, i), {L.start}) <==> i + 1 <= NBUF
      ensures i < |lh| ==> (RoomAt(L, lh, refs, Unpinned(L, p, lh, i), i) <==> i + 2 <= NBUF)
    {
      RecoveryRoom(L, lh, refs, p, i);
    }
    assert Unpinned(L, p, lh, 0) == p;
  }

  /** Taking and giving back a reference and a lock on each of two blocks. */
  lemma GivenBack(refs: seq<nat>, locks: seq<bool>, x: nat, y: nat, r1: seq<nat>, r2: seq<nat>, l2: seq<bool>)
    requires x < |refs| == |locks| && y < |refs| && x != y && !locks[x] && !locks[y]
    requires r1 == refs[x := refs[x] + 1][y := refs[y] + 1] && |r2| == |r1| && r2[x] + 1 == r1[x] && r2[y] + 1 == r1[y]
    requires r2 == r1[x := r2[x]][y := r2[y]] || r2 == r1[y := r2[y]][x := r2[x]]
    requires l2 == locks[x := true][y := true][x := false][y := false]
             || l2 == locks[x := true][y := true][y := false][x := false]
    ensures r2 == refs && l2 == locks
  {
  }

  class LogLayer {
    const L: Layout
    const bc: Cache
    const block: array<int>  // log.lh.block
    var n: nat               // log.lh.n
    var outstanding: nat
    var committing: bool

    /** The zeroed `struct log`, pointed at a cache by initlog. */
    constructor (layout: Layout, cache: Cache)
      ensures L == layout && bc == cache && n == outstanding == 0 && !committing
      ensures fresh(block) && block.Length == LOGSIZE
    {
      L, bc, n, outstanding, committing := layout, cache, 0, 0, false;
      block := new int[LOGSIZE](_ => 0);
    }

    ghost function Lh(): seq<int>
      requires n <= block.Length
      reads this, block
    {
      block[..n]
    }

    ghost predicate HeadOk()
      reads this, block
    {
      HeaderSound() == true
    }

    ghost predicate HeaderSound()
      reads this, block
    {
      && block.Length == LOGSIZE && n <= LOGSIZE && L.Valid() && Loggable(L, Lh())
      && block as object != bc.next && block as object != bc.prev
    }

    ghost predicate CacheOk()
      reads bc, bc.buf, bc.next, bc.prev
    {
      CacheSound() == true
    }

    ghost predicate CacheSound()
      reads bc, bc.buf, bc.next, bc.prev
    {
      bc.Valid() && bc.Safe() && |bc.hw.disk| == L.nblocks && bc.g.stray == {}
    }

    ghost predicate Ready(b: int)
      reads bc
    {
      ReadyIn(bc.g.refs, bc.g.pins, bc.g.locks, b)
    }

    /** The loop body of write_log: copy a logged block from the cache to the log.
        Returns false where bread panics. */
    method LogOne(tail: nat) returns (ok: bool)
      requires HeadOk() && CacheOk() && tail < n
      requires Ready(L.start + 1 + tail) && Ready(block[tail]) && bc.g.pins[block[tail]] > 0
      modifies bc, bc.buf, bc.next, bc.prev
      ensures ok <==> Room(old(bc.g.refs), old(bc.g.pins), {L.start + 1 + tail, block[tail]})
      ensures bc.g.writes == if ok then old(bc.g.writes) + [bc.hw.disk] else old(bc.g.writes)
      ensures !ok ==> bc.hw.disk == old(bc.hw.disk)
      ensures ok ==>
                CacheOk() && bc.g.refs == old(bc.g.refs) && bc.g.pins == old(bc.g.pins) && bc.g.locks == old(bc.g.locks)
      ensures ok ==> bc.hw.disk == old(bc.hw.disk)[L.start + 1 + tail := old(bc.g.logical[block[tail]])]
      ensures ok ==> bc.g.logical == old(bc.g.logical)[L.start + 1 + tail := old(bc.g.logical[block[tail]])]
    {
      hide Room, InUse;
      ok := false;
      ghost var t, f := L.start + 1 + tail, block[tail];
      assert Lh()[tail] == f;
      var to, from := bc.BreadTwo(L.start + tail + 1, block[tail]);
      if to == HEAD || from == HEAD { return; }
      ghost var r1 := bc.g.refs;
      bc.Store(to, t, bc.buf[from].data);
      bc.BrelseTwo(from, to, f, t);
      GivenBack(old(bc.g.refs), old(bc.g.locks), t, f, r1, bc.g.refs, bc.g.locks);
      ok := true;
    }

    /** The loop body of install_trans: copy a block from the log to its home and unpin it. */
    method InstallOne(tail: nat) returns (ok: bool)
      requires HeadOk() && CacheOk() && tail < n
      requires Ready(L.start + 1 + tail) && Ready(block[tail])
      requires bc.g.pins[block[tail]] > 0 || bc.g.refs[block[tail]] == 0
      requires bc.g.logical[L.start + 1 + tail] == bc.hw.disk[L.start + 1 + tail]
      modifies bc, bc.buf, bc.next, bc.prev
      ensures ok <==> Room(old(bc.g.refs), old(bc.g.pins), {L.start + 1 + tail, block[tail]})
      ensures bc.g.writes == if ok then old(bc.g.writes) + [bc.hw.disk] else old(bc.g.writes)
      ensures !ok ==> bc.hw.disk == old(bc.hw.disk)
      ensures ok ==> CacheOk() && bc.g.refs == old(bc.g.refs) && bc.g.locks == old(bc.g.locks)
      ensures ok ==> bc.g.pins == old(bc.g.pins)[block[tail] := old(bc.g.pins[block[tail]]) - 1]
      ensures ok ==> bc.hw.disk == old(bc.hw.disk)[block[tail] := old(bc.g.logical[L.start + 1 + tail])]
      ensures ok ==> bc.g.logical == old(bc.g.logical)[block[tail] := old(bc.g.logical[L.start + 1 + tail])]
    {
      hide Room, Bcache.Cache.Valid;
      ok := false;
      ghost var f, t := L.start + 1 + tail, block[tail];
      assert Lh()[tail] == t;
      var lbuf, dbuf := bc.BreadTwo(L.start + tail + 1, block[tail]);
      if lbuf == HEAD || dbuf == HEAD { return; }
      ghost var r1 := bc.g.refs;
      InstallHeld(lbuf, dbuf, f, t);
      GivenBack(old(bc.g.refs), old(bc.g.locks), f, t, r1, bc.g.refs, bc.g.locks);
      ok := true;
    }

    /** The rest of the loop body, with both buffers in hand. */
    method InstallHeld(lbuf: nat, dbuf: nat, ghost f: nat, ghost t: nat)
      requires CacheOk() && bc.Holds(lbuf, f) && bc.Holds(dbuf, t) && f != t && bc.g.pins[f] >= 0 && bc.g.pins[t] >= 0
      requires bc.g.logical[f] == bc.hw.disk[f] && (bc.g.pins[t] > 0 || bc.g.refs[t] == 1)
      modifies bc, bc.buf, bc.next, bc.prev
      ensures CacheOk() && bc.g.writes == old(bc.g.writes) + [bc.hw.disk]
      ensures bc.g.locks == old(bc.g.locks)[f := false][t := false]
      ensures bc.g.refs[f] + 1 == old(bc.g.refs[f]) && bc.g.refs[t] + 1 == old(bc.g.refs[t])
      ensures bc.g.refs == old(bc.g.refs)[f := bc.g.refs[f]][t := bc.g.refs[t]]
      ensures bc.g.pins == old(bc.g.pins)[t := old(bc.g.pins[t]) - 1]
      ensures bc.hw.disk == old(bc.hw.disk)[t := old(bc.g.logical[f])]
      ensures bc.g.logical == old(bc.g.logical)[t := old(bc.g.logical[f])]
    {
      bc.Store(dbuf, t, bc.buf[lbuf].data);
      bc.Bunpin(dbuf, t);
      bc.BrelseTwo(lbuf, dbuf, f, t);
    }

    ghost predicate CopyReady()
      requires HeadOk()
      reads this, block, bc
    {
      CopyReadyIn(L, Lh(), bc.g.refs, bc.g.pins, bc.g.locks)
    }

    ghost predicate AllPinned()
      requires HeadOk()
      reads this, block, bc
    {
      |bc.g.pins| == L.nblocks && forall i {:trigger Lh()[i]} :: 0 <= i < n ==> bc.g.pins[Lh()[i]] > 0
    }

    /** A round of write_log, on the way from disk d and cache contents m. */
    method LogNext(tail: nat, ghost d: Disk, ghost m: Disk, ghost lh: seq<int>) returns (ok: bool)
      requires HeadOk() && CacheOk() && CopyReady() && AllPinned() && tail < n && lh == Lh() && |d| == |m| == L.nblocks
      requires bc.hw.disk == Logged(L, d, m, lh, tail) && bc.g.logical == Logged(L, m, m, lh, tail)
      modifies bc, bc.buf, bc.next, bc.prev
      ensures ok <==> RoomAt(L, lh, old(bc.g.refs), old(bc.g.pins), tail)
      ensures bc.g.writes == if ok then old(bc.g.writes) + [bc.hw.disk] else old(bc.g.writes)
      ensures ok ==>
                CacheOk() && bc.g.refs == old(bc.g.refs) && bc.g.pins == old(bc.g.pins) && bc.g.locks == old(bc.g.locks)
      ensures ok ==> bc.hw.disk == Logged(L, d, m, lh, tail + 1) && bc.g.logical == Logged(L, m, m, lh, tail + 1)
    {
      hide Room, Logged, InUse;
      LogRound(L, d, m, lh, tail, bc.hw.disk, bc.g.logical);
      assert block[tail] == lh[tail];
      assert ReadyIn(bc.g.refs, bc.g.pins, bc.g.locks, L.start + 1 + tail);
      ok := LogOne(tail);
    }

    /** write_log: every logged block goes from the cache to the log. */
    method WriteLog() returns (ok: bool, ghost k: nat)
      requires HeadOk() && CacheOk() && CopyReady() && AllPinned()
      modifies bc, bc.buf, bc.next, bc.prev
      ensures ok <==> LogsFit(L, Lh(), old(bc.g.refs), old(bc.g.pins), n)
      ensures k <= n && bc.g.writes == old(bc.g.writes) + LogTrace(L, old(bc.hw.disk), old(bc.g.logical), Lh(), k)
      ensures ok ==> k == n
      ensures ok ==>
                CacheOk() && bc.g.refs == old(bc.g.refs) && bc.g.pins == old(bc.g.pins) && bc.g.locks == old(bc.g.locks)
      ensures ok ==> bc.hw.disk == Logged(L, old(bc.hw.disk), old(bc.g.logical), Lh(), n)
      ensures ok ==> bc.g.logical == Logged(L, old(bc.g.logical), old(bc.g.logical), Lh(), n)
    {
      hide Room, InUse;
      ghost var d, m, lh, refs, p := bc.hw.disk, bc.g.logical, Lh(), bc.g.refs, bc.g.pins;
      var tail := 0;
      while tail < n
        invariant 0 <= tail <= n && CacheOk()
        invariant bc.g.refs == refs && bc.g.pins == p && bc.g.locks == old(bc.g.locks)
        invariant LogsFit(L, lh, refs, p, tail) == true
        invariant bc.hw.disk == Logged(L, d, m, lh, tail) && bc.g.logical == Logged(L, m, m, lh, tail)
        invariant bc.g.writes == old(bc.g.writes) + LogTrace(L, d, m, lh, tail)
      {
        ok := LogNext(tail, d, m, lh);
        assert ok <==> RoomAt(L, lh, refs, p, tail);
        if !ok { return ok, tail; }
        tail := tail + 1;
      }
      ok, k := true, n;
    }

    /** write_head: the in-memory header goes to disk. */
    method WriteHead() returns (ok: bool)
      requires HeadOk() && CacheOk() && Ready(L.start) && |bc.g.logical[L.start]| == WORDS
      modifies bc, bc.buf, bc.next, bc.prev
      ensures ok <==> Room(old(bc.g.refs), old(bc.g.pins), {L.start})
      ensures bc.g.writes == if ok then old(bc.g.writes) + [bc.hw.disk] else old(bc.g.writes)
      ensures !ok ==> bc.hw.disk == old(bc.hw.disk)
      ensures ok ==>
                CacheOk() && bc.g.refs == old(bc.g.refs) && bc.g.pins == old(bc.g.pins) && bc.g.locks == old(bc.g.locks)
      ensures ok ==> bc.hw.disk == old(bc.hw.disk)[L.start := Headed(old(bc.g.logical[L.start]), Lh())]
      ensures ok ==> bc.g.logical == old(bc.g.logical)[L.start := Headed(old(bc.g.logical[L.start]), Lh())]
    {
      hide Room, InUse, Ring, Forgets;
      ok := false;
      var b := bc.Bread(L.start);
      if b == HEAD { return; }
      var h := FillHead(bc.buf[b].data);
      bc.Store(b, L.start, h);
      bc.Brelse(b, L.start);
      ok := true;
    }

    /** The copying loop of write_head, on the header block's contents. */
    method FillHead(old_: Block) returns (h: Block)
      requires HeadOk() && |old_| == WORDS
      ensures h == Headed(old_, Lh())
    {
      h := old_[0 := n];
      var i := 0;
      while i < n
        invariant 0 <= i <= n && |h| == WORDS && h[0] == n
        invariant forall j :: 0 <= j < i ==> h[1 + j] == block[j]
        invariant forall j :: 1 + i <= j < WORDS ==> h[j] == old_[j]
      {
        h := h[1 + i := block[i]];
        i := i + 1;
      }
      var e := Headed(old_, Lh());
      forall j | 0 <= j < WORDS ensures h[j] == e[j] {
        if 1 <= j <= n { assert h[1 + (j - 1)] == block[j - 1] == Lh()[j - 1]; }
      }
    }

    /** The blocks to be installed are pinned, or nobody refers to them. */
    ghost predicate PinnedOrIdle()
      requires HeadOk()
      reads this, block, bc
    {
      && |bc.g.pins| == |bc.g.refs| == L.nblocks
      && forall i {:trigger Lh()[i]} :: 0 <= i < n ==> bc.g.pins[Lh()[i]] > 0 || bc.g.refs[Lh()[i]] == 0
    }

    /** A round of install_trans, on the way from disk d, cache contents m and pins p. */
    method InstallNext(tail: nat, ghost d: Disk, ghost m: Disk, ghost lh: seq<int>, ghost p: seq<int>)
        returns (ok: bool)
      requires HeadOk() && CacheOk() && tail < n && lh == Lh() && |p| == L.nblocks && AgreeOff(L, d, m, lh)
      requires ReadyIn(bc.g.refs, p, bc.g.locks, L.start + 1 + tail) && ReadyIn(bc.g.refs, p, bc.g.locks, lh[tail])
      requires (p[lh[tail]] > 0 || bc.g.refs[lh[tail]] == 0) && bc.g.pins == Unpinned(L, p, lh, tail)
      requires bc.hw.disk == Installed(L, d, lh, tail) && bc.g.logical == Installed(L, m, lh, tail)
      modifies bc, bc.buf, bc.next, bc.prev
      ensures ok <==> RoomAt(L, lh, old(bc.g.refs), old(bc.g.pins), tail)
      ensures bc.g.writes == if ok then old(bc.g.writes) + [bc.hw.disk] else old(bc.g.writes)
      ensures ok ==> CacheOk() && bc.g.refs == old(bc.g.refs) && bc.g.locks == old(bc.g.locks)
      ensures ok ==> bc.g.pins == Unpinned(L, p, lh, tail + 1)
      ensures ok ==> bc.hw.disk == Installed(L, d, lh, tail + 1) && bc.g.logical == Installed(L, m, lh, tail + 1)
    {
      InstallRound(L, d, m, lh, tail, bc.hw.disk, bc.g.logical);
      NotYetUnpinned(L, p, lh, tail);
      assert block[tail] == lh[tail];
      ok := InstallOne(tail);
    }

    /** install_trans: every logged block goes from the log to its home and loses a pin. */
    method InstallTrans() returns (ok: bool, ghost k: nat)
      requires HeadOk() && CacheOk() && CopyReady() && PinnedOrIdle()
      requires AgreeOff(L, bc.hw.disk, bc.g.logical, Lh())
      modifies bc, bc.buf, bc.next, bc.prev
      ensures ok <==> InstallsFit(L, Lh(), old(bc.g.refs), old(bc.g.pins), n)
      ensures k <= n && bc.g.writes == old(bc.g.writes) + InstallTrace(L, old(bc.hw.disk), Lh(), k)
      ensures ok ==> k == n
      ensures ok ==> CacheOk() && bc.g.refs == old(bc.g.refs) && bc.g.locks == old(bc.g.locks)
      ensures ok ==> bc.g.pins == Unpinned(L, old(bc.g.pins), Lh(), n)
      ensures ok ==> bc.hw.disk == Installed(L, old(bc.hw.disk), Lh(), n)
      ensures ok ==> bc.g.logical == Installed(L, old(bc.g.logical), Lh(), n)
    {
      hide Room, Bcache.Cache.Valid, InstallsFit, Installed, InstallTrace, Unpinned;
      ghost var d, m, lh, refs, p := bc.hw.disk, bc.g.logical, Lh(), bc.g.refs, bc.g.pins;
      InstallStart(L, d, lh, refs, p);
      InstallStart(L, m, lh, refs, p);
      var tail := 0;
      while tail < n
        invariant 0 <= tail <= n && CacheOk()
        invariant bc.g.refs == refs && bc.g.locks == old(bc.g.locks) && bc.g.pins == Unpinned(L, p, lh, tail)
        invariant InstallsFit(L, lh, refs, p, tail) == true
        invariant bc.hw.disk == Installed(L, d, lh, tail) && bc.g.logical == Installed(L, m, lh, tail)
        invariant bc.g.writes == old(bc.g.writes) + InstallTrace(L, d, lh, tail)
      {
        assert ReadyIn(bc.g.refs, p, bc.g.locks, L.start + 1 + tail) && ReadyIn(bc.g.refs, p, bc.g.locks, lh[tail]);
        ok := InstallNext(tail, d, m, lh, p);
        FitNext(L, d, lh, refs, p, tail);
        if !ok {
          FitLess(L, lh, refs, p, tail + 1, n);
          return ok, tail;
        }
        tail := tail + 1;
      }
      ok, k := true, n;
    }

    /** The first half of commit(): write_log, write_head. Of the disks this goes through the first k are
        written, all of them unless bread panics. */
    method LogAndHead() returns (ok: bool, ghost k: nat)
      requires HeadOk() && CacheOk() && CopyReady() && Fits(L, bc.hw.disk) && AllPinned()
      requires AgreeOff(L, bc.hw.disk, bc.g.logical, Lh()) == true
      modifies bc, bc.buf, bc.next, bc.prev
      ensures ok <==> CommitRoom(L, n, old(bc.g.refs), old(bc.g.pins))
      ensures k <= n + 1 && (ok ==> k == n + 1)
      ensures bc.g.writes == old(bc.g.writes) + HeadTrace(L, old(bc.hw.disk), old(bc.g.logical), Lh())[..k]
      ensures ok ==> CacheOk() && bc.hw.disk == Headered(L, old(bc.hw.disk), old(bc.g.logical), Lh())
      ensures ok ==> bc.g.refs == old(bc.g.refs) && bc.g.pins == old(bc.g.pins) && bc.g.locks == old(bc.g.locks)
      ensures ok ==> AgreeOff(L, bc.hw.disk, bc.g.logical, Lh()) == true
    {
      ghost var d, m, lh := bc.hw.disk, bc.g.logical, Lh();
      HeadAndLogRoom(L, lh, bc.g.refs, bc.g.pins);
      ok, k := WriteLog();
      HeadTraceTake(L, d, m, lh, k);
      if ok {
        LoggedAgree(L, d, m, lh, n);
        ok := WriteHead();
        if ok {
          k := n + 1;
          Joined(old(bc.g.writes), LogTrace(L, d, m, lh, n), [bc.hw.disk], HeadTrace(L, d, m, lh)[..k]);
          HeadedAgree(L, bc.hw.disk, bc.g.logical, d, m, lh);
        }
      }
    }

    /** log.lh.n = 0 and write_head, after the log of disk d has been installed. */
    method ClearHead(ghost d: Disk, ghost lh: seq<int>, ghost w: seq<Disk>) returns (ok: bool)
      requires HeadOk() && CacheOk() && Ready(L.start) && HeaderOk(L, d) && lh == Entries(d[L.start])
      requires bc.hw.disk == bc.g.logical && bc.hw.disk[L.start] == d[L.start]
      requires bc.hw.disk[L.start := Headed(d[L.start], [])] == RecoveryTrace(L, d)[|lh|]
      requires bc.g.writes == w + RecoveryTrace(L, d)[..|lh|]
      modifies this`n, bc, bc.buf, bc.next, bc.prev
      ensures ok <==> Room(old(bc.g.refs), old(bc.g.pins), {L.start})
      ensures bc.g.writes == w + RecoveryTrace(L, d)[..if ok then |lh| + 1 else |lh|]
      ensures ok ==> HeadOk() && CacheOk() && n == 0 && bc.hw.disk == bc.g.logical == RecoveryTrace(L, d)[|lh|]
      ensures ok ==> bc.g.refs == old(bc.g.refs) && bc.g.locks == old(bc.g.locks) && bc.g.pins == old(bc.g.pins)
    {
      n := 0;
      assert Lh() == [];
      ok := WriteHead();
      if ok {
        Joined(w, RecoveryTrace(L, d)[..|lh|], [bc.hw.disk], RecoveryTrace(L, d)[..|lh| + 1]);
      }
    }

    /** install_trans, then an empty header: recovery, and the second half of commit(). */
    method InstallAndClear() returns (ok: bool, ghost k: nat)
      requires HeadOk() && CacheOk() && CopyReady() && PinnedOrIdle()
      requires AgreeOff(L, bc.hw.disk, bc.g.logical, Lh()) == true
      requires HeaderOk(L, bc.hw.disk) && Entries(bc.hw.disk[L.start]) == Lh()
      modifies this`n, bc, bc.buf, bc.next, bc.prev
      ensures ok <==> InstallsFit(L, old(Lh()), old(bc.g.refs), old(bc.g.pins), old(n))
                      && Room(old(bc.g.refs), Unpinned(L, old(bc.g.pins), old(Lh()), old(n)), {L.start})
      ensures k <= old(n) + 1 && (ok ==> k == old(n) + 1)
      ensures bc.g.writes == old(bc.g.writes) + RecoveryTrace(L, old(bc.hw.disk))[..k]
      ensures ok ==>
                HeadOk() && CacheOk() && n == 0
                    && bc.hw.disk == bc.g.logical == RecoveryTrace(L, old(bc.hw.disk))[old(n)]
      ensures ok ==> bc.g.refs == old(bc.g.refs) && bc.g.locks == old(bc.g.locks)
      ensures ok ==> bc.g.pins == Unpinned(L, old(bc.g.pins), old(Lh()), old(n))
    {
      ghost var d, m, lh, p, w := bc.hw.disk, bc.g.logical, Lh(), bc.g.pins, bc.g.writes;
      assert ReadyIn(bc.g.refs, p, bc.g.locks, L.start);
      ok, k := InstallTrans();
      RecoveryTraceTake(L, d, k);
      if ok {
        ClearAgree(L, d, m, lh);
        UnpinnedOutside(L, p, lh, n, L.start);
        ok := ClearHead(d, lh, w);
        k := if ok then |lh| + 1 else |lh|;
      }
    }

    /** The second half of commit(), after a first half from disk d and cache contents m, since when the
        writes were w. */
    method FinishCommit(ghost d: Disk, ghost m: Disk, ghost lh: seq<int>, ghost w: seq<Disk>)
        returns (ok: bool, ghost k: nat)
      requires HeadOk() && CacheOk() && CopyReady() && AllPinned() && lh == Lh() && Fits(L, m) && |d| == |m|
      requires AgreeOff(L, bc.hw.disk, bc.g.logical, lh) == true && bc.hw.disk == Headered(L, d, m, lh)
      requires bc.g.writes == w + CommitTrace(L, d, m, lh)[..n + 1] && CommitRoom(L, n, bc.g.refs, bc.g.pins)
      modifies this`n, bc, bc.buf, bc.next, bc.prev
      ensures ok && k == 2 * old(n) + 2 && bc.g.writes == w + CommitTrace(L, d, m, lh)[..k]
      ensures HeadOk() && CacheOk() && n == 0
      ensures bc.hw.disk == bc.g.logical == CommitTrace(L, d, m, lh)[2 * old(n) + 1]
      ensures bc.g.refs == old(bc.g.refs) && bc.g.locks == old(bc.g.locks)
      ensures bc.g.pins == Unpinned(L, old(bc.g.pins), lh, old(n))
    {
      InstallsRoom(L, lh, bc.g.refs, bc.g.pins);
      ghost var n0, j := n, 0;
      ok, j := InstallAndClear();
      k := n0 + 1 + j;
      CommitTraceTake(L, d, m, lh, j);
      Joined(w, CommitTrace(L, d, m, lh)[..n0 + 1], RecoveryTrace(L, Headered(L, d, m, lh))[..j],
          CommitTrace(L, d, m, lh)[..k]);
    }

    /** commit() of a log that is not empty. */
    method CommitSome() returns (ok: bool, ghost k: nat)
      requires HeadOk() && CacheOk() && CopyReady() && Fits(L, bc.hw.disk) && AllPinned() && n > 0
      requires AgreeOff(L, bc.hw.disk, bc.g.logical, Lh()) == true
      modifies this`n, bc, bc.buf, bc.next, bc.prev
      ensures ok <==> CommitRoom(L, old(n), old(bc.g.refs), old(bc.g.pins))
      ensures k <= 2 * old(n) + 2 && (ok ==> k == 2 * old(n) + 2)
      ensures bc.g.writes == old(bc.g.writes) + CommitTrace(L, old(bc.hw.disk), old(bc.g.logical), old(Lh()))[..k]
      ensures ok ==>
                bc.hw.disk == bc.g.logical == CommitTrace(L, old(bc.hw.disk), old(bc.g.logical),
                    old(Lh()))[2 * old(n) + 1]
      ensures ok ==> HeadOk() && CacheOk() && n == 0
      ensures ok ==> bc.g.refs == old(bc.g.refs) && bc.g.locks == old(bc.g.locks)
      ensures ok ==> bc.g.pins == Unpinned(L, old(bc.g.pins), old(Lh()), old(n))
    {
      ghost var d, m, lh, w := bc.hw.disk, bc.g.logical, Lh(), bc.g.writes;
      ok, k := LogAndHead();
      HeadIsFirst(L, d, m, lh, k);
      if ok {
        ok, k := FinishCommit(d, m, lh, w);
      }
    }

    /** commit(). The disk goes through CommitTrace, or a prefix of it if bread panics, which happens
        exactly when some block of the log finds no buffer; in the end it holds what the cache shows. */
    method Commit() returns (ok: bool, ghost k: nat)
      requires HeadOk() && CacheOk() && CopyReady() && Fits(L, bc.hw.disk) && AllPinned()
      requires AgreeOff(L, bc.hw.disk, bc.g.logical, Lh()) == true
      modifies this`n, bc, bc.buf, bc.next, bc.prev
      ensures ok <==> old(n) == 0 || CommitRoom(L, old(n), old(bc.g.refs), old(bc.g.pins))
      ensures old(n) == 0 ==> bc.g.writes == old(bc.g.writes) && bc.hw.disk == bc.g.logical == old(bc.hw.disk)
      ensures old(n) > 0 ==> k <= 2 * old(n) + 2 && (ok ==> k == 2 * old(n) + 2)
      ensures old(n) > 0 ==>
                bc.g.writes == old(bc.g.writes) + CommitTrace(L, old(bc.hw.disk), old(bc.g.logical), old(Lh()))[..k]
      ensures old(n) > 0 && ok ==>
                bc.hw.disk == bc.g.logical == CommitTrace(L, old(bc.hw.disk), old(bc.g.logical),
                    old(Lh()))[2 * old(n) + 1]
      ensures ok ==> HeadOk() && CacheOk() && n == 0
      ensures ok ==> bc.g.refs == old(bc.g.refs) && bc.g.locks == old(bc.g.locks)
      ensures ok ==> bc.g.pins == Unpinned(L, old(bc.g.pins), old(Lh()), old(n))
    {
      if n > 0 {
        ok, k := CommitSome();
      } else {
        AgreeOffNothing(L, bc.hw.disk, bc.g.logical);
        ok, k := true, 0;
      }
    }

    /** read_head's loop. */
    method CopyEntries(h: Block)
      requires block.Length == LOGSIZE && |h| == WORDS && 0 <= h[0] <= LOGSIZE
      modifies this`n, block
      ensures n <= block.Length && Lh() == Entries(h)
    {
      n := h[0];
      var i := 0;
      while i < n
        invariant 0 <= i <= n == h[0]
        invariant forall j :: 0 <= j < i ==> block[j] == h[1 + j]
      {
        block[i] := h[1 + i];
        i := i + 1;
      }
    }

    /** read_head: the header on disk into memory. */
    method ReadHead() returns (ok: bool)
      requires block.Length == LOGSIZE && CacheOk() && HeaderOk(L, bc.hw.disk) && Ready(L.start)
               && bc.g.pins[L.start] == 0
      requires bc.g.logical == bc.hw.disk && block as object != bc.next && block as object != bc.prev
      modifies this`n, block, bc`g, bc.buf, bc.next, bc.prev
      ensures bc.g == old(bc.g).(refs := bc.g.refs, slot := bc.g.slot, locks := bc.g.locks, order := bc.g.order)
      ensures ok <==> Room(old(bc.g.refs), old(bc.g.pins), {L.start})
      ensures ok ==> HeadOk() && Lh() == Entries(bc.hw.disk[L.start])
      ensures ok ==> CacheOk() && bc.g.refs == old(bc.g.refs) && bc.g.locks == old(bc.g.locks)
    {
      hide Room, Bcache.Cache.Valid, Forgets;
      ok := false;
      var b := bc.Bread(L.start);
      if b == HEAD { return; }
      var h := bc.buf[b].data;
      CopyEntries(h);
      bc.Brelse(b, L.start);
      assert bc.g.refs == old(bc.g.refs) && bc.g.locks == old(bc.g.locks);
      ok := true;
    }

    /** recover_from_log, at boot, with nothing held, pinned or modified in the cache. The disk
        goes through RecoveryTrace and ends with the recovered home blocks; but each recovered
        block has been unpinned without ever being pinned. */
    method RecoverFromLog() returns (ok: bool, ghost k: nat)
      requires block.Length == LOGSIZE && CacheOk() && HeaderOk(L, bc.hw.disk) && bc.g.logical == bc.hw.disk
      requires block as object != bc.next && block as object != bc.prev
      requires forall b :: 0 <= b < L.nblocks ==> bc.g.refs[b] == bc.g.pins[b] == 0 && !bc.g.locks[b]
      modifies this`n, block, bc, bc.buf, bc.next, bc.prev
      ensures ok <==> |Entries(old(bc.hw.disk)[L.start])| < NBUF
      ensures k <= |Entries(old(bc.hw.disk)[L.start])| + 1
      ensures bc.g.writes == old(bc.g.writes) + RecoveryTrace(L, old(bc.hw.disk))[..k]
      ensures ok ==> HeadOk() && CacheOk() && n == 0 && HeaderEmpty(L, bc.hw.disk) && bc.hw.disk == bc.g.logical
      ensures ok ==> SameHome(L, bc.hw.disk, Recovered(L, old(bc.hw.disk)))
      ensures ok ==> forall b :: 0 <= b < L.nblocks ==>
                bc.g.refs[b] == 0 && bc.g.pins[b] == if b in Entries(old(bc.hw.disk)[L.start]) then -1 else 0
    {
      hide Room, InUse, Recovered, RecoveryTrace;
      ghost var d, p := bc.hw.disk, bc.g.pins;
      RecoveryFits(L, Entries(d[L.start]), bc.g.refs, p);
      ok := ReadHead();
      k := 0;
      if ok {
        ghost var lh := Lh();
        assert forall i :: 0 <= i < |lh| ==> ReadyIn(bc.g.refs, bc.g.pins, bc.g.locks, lh[i]);
        ok, k := InstallAndClear();
        RecoveryTraceSafe(L, d);
        UnpinnedAt(L, p, lh, |lh|);
        assert lh[..|lh|] == lh;
      }
    }

    /** Between a completed recovery and the next crash: the log on disk is empty, exactly the
        logged blocks are pinned, once each, and a block whose latest contents are not on disk
        is logged or still held by the operation that changed it. */
    ghost predicate Running()
      reads this, block, bc, bc.buf, bc.next, bc.prev
    {
      && HeadOk() && CacheOk() && HeaderEmpty(L, bc.hw.disk)
      && PinsMatch(L, Lh(), bc.g.pins) && HeldOrLogged(L, Lh(), bc.g.locks, bc.hw.disk, bc.g.logical)
      && (outstanding == 0 ==> n == 0)
    }

    /** initlog at boot. The running invariant, with its pin balance, holds afterwards exactly
        when the log on disk was empty: recovering even one block breaks it. */
    method InitLog() returns (ok: bool)
      requires block.Length == LOGSIZE && CacheOk() && HeaderOk(L, bc.hw.disk) && bc.g.logical == bc.hw.disk
      requires block as object != bc.next && block as object != bc.prev && outstanding == 0
      requires forall b :: 0 <= b < L.nblocks ==> bc.g.refs[b] == bc.g.pins[b] == 0 && !bc.g.locks[b]
      modifies this`n, block, bc, bc.buf, bc.next, bc.prev
      ensures ok <==> |Entries(old(bc.hw.disk)[L.start])| < NBUF
      ensures ok ==> n == 0 && HeaderEmpty(L, bc.hw.disk) && SameHome(L, bc.hw.disk, Recovered(L, old(bc.hw.disk)))
      ensures ok ==> (Running() <==> Entries(old(bc.hw.disk)[L.start]) == [])
    {
      ghost var lh := Entries(bc.hw.disk[L.start]);
      ghost var k;
      ok, k := RecoverFromLog();
      if ok && lh != [] { assert lh[0] in lh && bc.g.pins[lh[0]] == -1; }
    }

    /** One turn of begin_op's loop: false where it sleeps. */
    method BeginOp() returns (admitted: bool)
      requires Running()
      modifies this`outstanding
      ensures Running()
      ensures admitted <==> !committing && n + (old(outstanding) + 1) * MAXOPBLOCKS <= LOGSIZE
      ensures outstanding == old(outstanding) + if admitted then 1 else 0
    {
      if committing {
        admitted := false;
      } else if n + (outstanding + 1) * MAXOPBLOCKS > LOGSIZE {
        admitted := false;
      } else {
        outstanding := outstanding + 1;
        admitted := true;
      }
    }

    /** log_write: the block is logged once, and pinned if it was not. halted: it panics. */
    method LogWrite(b: nat, ghost k: nat) returns (halted: bool)
      requires Running() && bc.Holds(b, k) && L.Home(k) && bc.g.refs[k] + 2 < UINT
      modifies this`n, block, bc`g, bc.buf
      ensures bc.g == old(bc.g).(pins := bc.g.pins) && Running() && bc.Holds(b, k)
      ensures halted <==> L.TooBig(old(n)) || outstanding < 1
      ensures Lh() == if halted then old(Lh()) else Absorbed(old(Lh()), k)
    {
      hide Ring;
      halted := n >= LOGSIZE || n >= L.size - 1 || outstanding < 1;
      if halted { return; }
      ghost var lh := Lh();
      var i := 0;
      while i < n && block[i] != bc.buf[b].blockno
        invariant 0 <= i <= n && k !in block[..i]
      {
        i := i + 1;
      }
      block[i] := bc.buf[b].blockno;
      if i == n {
        bc.Bpin(b, k);
        n := n + 1;
        assert Lh() == lh + [k];
      } else {
        assert Lh() == lh;
      }
    }

    ghost predicate Released()
      requires n <= block.Length
      reads this, block, bc
    {
      ReleasedIn(L, Lh(), bc.g.refs, bc.g.locks, bc.hw.disk, bc.g.logical)
    }

    /** end_op. The last operation to end commits: whichever of its disk writes a crash follows,
        recovery brings back the home blocks as they were on disk, up to the header write, and as
        the operations left them from then on; and they are what the commit leaves on disk. */
    method EndOp() returns (ok: bool)
      requires Running() && outstanding >= 1 && !committing
      requires outstanding == 1 ==> Released()
      modifies this`outstanding, this`committing, this`n, bc, bc.buf, bc.next, bc.prev
      ensures outstanding == old(outstanding) - 1
      ensures ok <==> old(outstanding) > 1 || old(n) == 0 || CommitRoom(L, old(n), old(bc.g.refs), old(bc.g.pins))
      ensures old(outstanding) > 1 ==> ok && Running() && n == old(n) && unchanged(bc) && unchanged(bc.buf)
      ensures ok ==> Running() && !committing
      ensures old(outstanding) == 1 && ok ==> n == 0 && SameHome(L, bc.hw.disk, old(bc.g.logical))
      ensures old(bc.g.writes) <= bc.g.writes
      ensures forall i :: |old(bc.g.writes)| <= i < |bc.g.writes| ==>
                && HeaderOk(L, bc.g.writes[i])
                && SameHome(L, Recovered(L, bc.g.writes[i]),
                            if i < |old(bc.g.writes)| + old(n) then old(bc.hw.disk) else old(bc.g.logical))
    {
      outstanding := outstanding - 1;
      ok := true;
      if outstanding == 0 {
        committing := true;
        ok := CommitNow();
        committing := false;
      }
    }

    /** The commit of end_op, which no operation is in the way of. */
    method CommitNow() returns (ok: bool)
      requires HeadOk() && CacheOk() && HeaderEmpty(L, bc.hw.disk) && Released()
      requires PinsMatch(L, Lh(), bc.g.pins) && HeldOrLogged(L, Lh(), bc.g.locks, bc.hw.disk, bc.g.logical)
      modifies this`n, bc, bc.buf, bc.next, bc.prev
      ensures ok <==> old(n) == 0 || CommitRoom(L, old(n), old(bc.g.refs), old(bc.g.pins))
      ensures ok ==> HeadOk() && CacheOk() && n == 0 && HeaderEmpty(L, bc.hw.disk) && bc.hw.disk == bc.g.logical
      ensures ok ==> SameHome(L, bc.hw.disk, old(bc.g.logical))
      ensures ok ==> PinsMatch(L, [], bc.g.pins)
      ensures old(bc.g.writes) <= bc.g.writes
      ensures forall i :: |old(bc.g.writes)| <= i < |bc.g.writes| ==>
                && HeaderOk(L, bc.g.writes[i])
                && SameHome(L, Recovered(L, bc.g.writes[i]),
                            if i < |old(bc.g.writes)| + old(n) then old(bc.hw.disk) else old(bc.g.logical))
    {
      hide Room, InUse, CommitRoom, Recovered;
      ghost var d, m, lh, w, p := bc.hw.disk, bc.g.logical, Lh(), bc.g.writes, bc.g.pins;
      ReadyToCommit(L, lh, bc.g.refs, p, bc.g.locks, d, m);
      ghost var k;
      ok, k := Commit();
      UnpinnedAll(L, p, lh);
      if |lh| > 0 { CommitWritesSafe(L, d, m, lh, w, k); }
    }
  }

  lemma CommitWritesSafe(L: Layout, d: Disk, m: Disk, lh: seq<int>, w: seq<Disk>, k: nat)
    requires HeaderEmpty(L, d) && Fits(L, m) && Loggable(L, lh) && AgreeOff(L, d, m, lh) && k <= 2 * |lh| + 2
    ensures var w' := w + CommitTrace(L, d, m, lh)[..k];
            forall i :: |w| <= i < |w'| ==>
              HeaderOk(L, w'[i]) && SameHome(L, Recovered(L, w'[i]), if i < |w| + |lh| then d else m)
    ensures var last := CommitTrace(L, d, m, lh)[2 * |lh| + 1]; HeaderEmpty(L, last) && SameHome(L, last, m)
  {
    CommitTraceAt(L, d, m, lh, 0);
    var ws := CommitTrace(L, d, m, lh);
    var w' := w + ws[..k];
    forall i | |w| <= i < |w'|
      ensures HeaderOk(L, w'[i]) && SameHome(L, Recovered(L, w'[i]), if i < |w| + |lh| then d else m)
    {
      assert w'[i] == ws[i - |w|];
      CommitTraceAt(L, d, m, lh, i - |w|);
    }
  }

  /** Unpinning every logged block undoes exactly the pins log_write made. */
  lemma UnpinnedAll(L: Layout, p: seq<int>, lh: seq<int>)
    requires |p| == L.nblocks && Loggable(L, lh)
    requires PinsMatch(L, lh, p)
    ensures PinsMatch(L, [], Unpinned(L, p, lh, |lh|))
  {
    UnpinnedAt(L, p, lh, |lh|);
    assert lh[..|lh|] == lh;
    forall b: nat | b < |p| && !L.Home(b) ensures Unpinned(L, p, lh, |lh|)[b] == p[b] {
      UnpinnedOutside(L, p, lh, |lh|, b);
    }
  }

  /** The pins after install_trans has unpinned the first k logged blocks. */
  ghost function Unpinned(L: Layout, p: seq<int>, lh: seq<int>, k: nat): (p': seq<int>)
    requires |p| == L.nblocks && k <= |lh| && Loggable(L, lh)
    ensures |p'| == |p|
  {
    if k == 0 then p else
    var q := Unpinned(L, p, lh, k - 1);
    q[lh[k - 1] := q[lh[k - 1]] - 1]
  }

  lemma {:induction false} UnpinnedAt(L: Layout, p: seq<int>, lh: seq<int>, k: nat)
    requires |p| == L.nblocks && k <= |lh| && Loggable(L, lh)
    ensures forall b {:trigger Unpinned(L, p, lh, k)[b]} :: 0 <= b < |p| ==>
              Unpinned(L, p, lh, k)[b] == p[b] - if b in lh[..k] then 1 else 0
  {
    if k > 0 {
      UnpinnedAt(L, p, lh, k - 1);
      assert lh[..k] == lh[..k - 1] + [lh[k - 1]];
      assert lh[k - 1] !in lh[..k - 1];
    }
  }

  lemma {:induction false} UnpinnedOutside(L: Layout, p: seq<int>, lh: seq<int>, k: nat, b: nat)
    requires |p| == L.nblocks && k <= |lh| && Loggable(L, lh) && b < |p| && !L.Home(b)
    ensures Unpinned(L, p, lh, k)[b] == p[b]
  {
    if k > 0 { UnpinnedOutside(L, p, lh, k - 1, b); }
  }

  lemma NotYetUnpinned(L: Layout, p: seq<int>, lh: seq<int>, k: nat)
    requires L.Valid() && |p| == L.nblocks && Loggable(L, lh) && k < |lh|
    ensures Unpinned(L, p, lh, k)[lh[k]] == p[lh[k]]
    ensures Unpinned(L, p, lh, k)[L.start + 1 + k] == p[L.start + 1 + k]
  {
    UnpinnedAt(L, p, lh, k);
    UnpinnedOutside(L, p, lh, k, L.start + 1 + k);
    assert lh[k] !in lh[..k];
  }
}
