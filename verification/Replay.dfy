/** Disk blocks, the on-disk log (kernel/log.c, kernel/fs.h, kernel/param.h), and
    what log recovery makes of a disk.

    A block is BSIZE bytes, seen here as its 256 ints, because the only block whose
    inside the log looks at is the header: `struct logheader` is an int `n` followed
    by LOGSIZE ints `block[]`. */
module Replay {
  import opened Common

  const LOGSIZE: nat := MAXOPBLOCKS * 3
  const WORDS: nat := 256

  type Block = seq<int>
  type Disk = seq<Block>

  /** Where the log lies: header at `start`, log blocks in the `size - 1` blocks after it. */
  datatype Layout = Layout(start: nat, size: nat, nblocks: nat) {

    predicate Valid() {
      1 <= size && start + size <= nblocks
    }

    /** A block outside the log: the only kind an operation may change. */
    predicate Home(b: int) {
      0 <= b < nblocks && !(start <= b < start + size)
    }

    /** The guard of log_write's "too big a transaction" panic, for a log holding n blocks. */
    predicate TooBig(n: nat) {
      n >= LOGSIZE || n >= size - 1
    }
  }

  /** A list of block numbers that fits the log and names distinct home blocks. */
  ghost predicate Loggable(L: Layout, lh: seq<int>) {
    && |lh| <= LOGSIZE && |lh| <= L.size - 1
    && (forall i :: 0 <= i < |lh| ==> L.Home(lh[i]))
    && Distinct(lh)
  }

  /** The block numbers a header block records. */
  function Entries(h: Block): (lh: seq<int>)
    requires |h| == WORDS && 0 <= h[0] <= LOGSIZE
  {
    h[1..1 + h[0]]
  }

  /** write_head: count and numbers replaced, stale numbers past the count left behind. */
  function Headed(h: Block, lh: seq<int>): (h': Block)
    requires |h| == WORDS && |lh| <= LOGSIZE
    ensures |h'| == WORDS && h'[0] == |lh| && Entries(h') == lh
    ensures forall i :: 1 + |lh| <= i < WORDS ==> h'[i] == h[i]
  {
    [|lh|] + lh + h[1 + |lh|..]
  }

  /** A disk of the layout's size, whose header block is a whole block. */
  predicate Fits(L: Layout, d: Disk) {
    L.Valid() && |d| == L.nblocks && |d[L.start]| == WORDS
  }

  ghost predicate HeaderOk(L: Layout, d: Disk) {
    && Fits(L, d)
    && 0 <= d[L.start][0] <= LOGSIZE
    && Loggable(L, Entries(d[L.start]))
  }

  ghost predicate HeaderEmpty(L: Layout, d: Disk) {
    Fits(L, d) && d[L.start][0] == 0
  }

  /** The disk after install_trans has copied the first k logged blocks home. */
  function Installed(L: Layout, d: Disk, lh: seq<int>, k: nat): (d': Disk)
    requires L.Valid() && |d| == L.nblocks && k <= |lh| && Loggable(L, lh)
    ensures |d'| == |d|
  {
    if k == 0 then d else Installed(L, d, lh, k - 1)[lh[k - 1] := d[L.start + k]]
  }

  /** What completed recovery leaves behind, up to clearing the header. */
  function Recovered(L: Layout, d: Disk): (d': Disk)
    requires HeaderOk(L, d)
    ensures |d'| == |d|
  {
    var lh := Entries(d[L.start]);
    Installed(L, d, lh, |lh|)
  }

  ghost predicate SameHome(L: Layout, d: Disk, e: Disk) {
    && |d| == |e| == L.nblocks
    && forall b {:trigger L.Home(b)} :: L.Home(b) ==> d[b] == e[b]
  }

  lemma {:induction false} InstalledAt(L: Layout, d: Disk, lh: seq<int>, k: nat)
    requires L.Valid() && |d| == L.nblocks && k <= |lh| && Loggable(L, lh)
    ensures forall i :: 0 <= i < k ==> Installed(L, d, lh, k)[lh[i]] == d[L.start + 1 + i]
    ensures forall b {:trigger Installed(L, d, lh, k)[b]} ::
              0 <= b < |d| && b !in lh[..k] ==> Installed(L, d, lh, k)[b] == d[b]
  {
    if k > 0 {
      InstalledAt(L, d, lh, k - 1);
      assert lh[..k] == lh[..k - 1] + [lh[k - 1]];
    }
  }

  /** Recovered, said pointwise: a logged block holds its log copy, any other its own contents. */
  lemma RecoveredAt(L: Layout, d: Disk)
    requires HeaderOk(L, d)
    ensures var lh := Entries(d[L.start]);
            && (forall i :: 0 <= i < |lh| ==> Recovered(L, d)[lh[i]] == d[L.start + 1 + i])
            && (forall b {:trigger Recovered(L, d)[b]} :: 0 <= b < |d| && b !in lh ==> Recovered(L, d)[b] == d[b])
  {
    var lh := Entries(d[L.start]);
    InstalledAt(L, d, lh, |lh|);
    assert lh[..|lh|] == lh;
  }

  /** With an empty header recovery changes no block at all. */
  lemma RecoveredEmpty(L: Layout, d: Disk)
    requires HeaderEmpty(L, d)
    ensures HeaderOk(L, d) && Recovered(L, d) == d
  {
  }

  /** Installing any one logged block early, or again, does not change what recovery yields. */
  lemma InstallOneIsNeutral(L: Layout, d: Disk, k: nat)
    requires HeaderOk(L, d) && k < |Entries(d[L.start])|
    ensures var d' := d[Entries(d[L.start])[k] := d[L.start + 1 + k]];
            HeaderOk(L, d') && Recovered(L, d') == Recovered(L, d)
  {
    var lh := Entries(d[L.start]);
    var d' := d[lh[k] := d[L.start + 1 + k]];
    assert d'[L.start] == d[L.start];
    RecoveredAt(L, d);
    RecoveredAt(L, d');
    forall b | 0 <= b < |d|
      ensures Recovered(L, d')[b] == Recovered(L, d)[b]
    {
      if b in lh {
        var i :| 0 <= i < |lh| && lh[i] == b;
        assert d'[L.start + 1 + i] == d[L.start + 1 + i];
      }
    }
  }

  /** Writing a header over complete log copies makes recovery yield the copied contents. */
  lemma HeadWriteRecovers(L: Layout, d: Disk, m: Disk, h: Block, lh: seq<int>)
    requires L.Valid() && |d| == |m| == L.nblocks && |h| == WORDS && Loggable(L, lh)
    requires forall i :: 0 <= i < |lh| ==> d[L.start + 1 + i] == m[lh[i]]
    requires forall b {:trigger L.Home(b)} :: L.Home(b) && b !in lh ==> d[b] == m[b]
    ensures HeaderOk(L, d[L.start := Headed(h, lh)])
    ensures SameHome(L, Recovered(L, d[L.start := Headed(h, lh)]), m)
  {
    var d' := d[L.start := Headed(h, lh)];
    RecoveredAt(L, d');
    forall b | L.Home(b) ensures Recovered(L, d')[b] == m[b] {
      if b in lh {
        var i :| 0 <= i < |lh| && lh[i] == b;
        assert d'[L.start + 1 + i] == d[L.start + 1 + i];
      }
    }
  }

  /** Clearing the header once every logged block is home keeps what recovery yields. */
  lemma ClearRecovers(L: Layout, d: Disk)
    requires HeaderOk(L, d)
    requires forall i :: 0 <= i < |Entries(d[L.start])| ==> d[Entries(d[L.start])[i]] == d[L.start + 1 + i]
    ensures var d' := d[L.start := Headed(d[L.start], [])];
            HeaderEmpty(L, d') && SameHome(L, d', Recovered(L, d)) && Recovered(L, d') == d'
  {
    var lh := Entries(d[L.start]);
    RecoveredAt(L, d);
    forall b | L.Home(b) ensures d[b] == Recovered(L, d)[b] {
      if b in lh {
        var i :| 0 <= i < |lh| && lh[i] == b;
      }
    }
  }

  // ---------------------------------------------------------------------------------
  // What a commit writes, one disk after another.

  /** Disk d after write_log has put the first k logged blocks' contents in m into the log. */
  function Logged(L: Layout, d: Disk, m: Disk, lh: seq<int>, k: nat): (d': Disk)
    requires L.Valid() && |d| == |m| == L.nblocks && k <= |lh| && Loggable(L, lh)
    ensures |d'| == |d|
  {
    if k == 0 then d else Logged(L, d, m, lh, k - 1)[L.start + k := m[lh[k - 1]]]
  }

  lemma {:induction false} LoggedAt(L: Layout, d: Disk, m: Disk, lh: seq<int>, k: nat)
    requires L.Valid() && |d| == |m| == L.nblocks && k <= |lh| && Loggable(L, lh)
    ensures forall i :: 0 <= i < k ==> Logged(L, d, m, lh, k)[L.start + 1 + i] == m[lh[i]]
    ensures forall b :: 0 <= b < |d| && !(L.start < b <= L.start + k) ==> Logged(L, d, m, lh, k)[b] == d[b]
  {
    if k > 0 { LoggedAt(L, d, m, lh, k - 1); }
  }

  /** The disks that write_log's first k writes leave. */
  function LogTrace(L: Layout, d: Disk, m: Disk, lh: seq<int>, k: nat): (ws: seq<Disk>)
    requires L.Valid() && |d| == |m| == L.nblocks && k <= |lh| && Loggable(L, lh)
    ensures |ws| == k
  {
    if k == 0 then [] else LogTrace(L, d, m, lh, k - 1) + [Logged(L, d, m, lh, k)]
  }

  /** The disks that install_trans's first k writes leave. */
  function InstallTrace(L: Layout, d: Disk, lh: seq<int>, k: nat): (ws: seq<Disk>)
    requires L.Valid() && |d| == L.nblocks && k <= |lh| && Loggable(L, lh)
    ensures |ws| == k
  {
    if k == 0 then [] else InstallTrace(L, d, lh, k - 1) + [Installed(L, d, lh, k)]
  }

  lemma {:induction false} LogTracePrefix(L: Layout, d: Disk, m: Disk, lh: seq<int>, j: nat, k: nat)
    requires L.Valid() && |d| == |m| == L.nblocks && j <= k <= |lh| && Loggable(L, lh)
    ensures LogTrace(L, d, m, lh, j) <= LogTrace(L, d, m, lh, k)
  {
    if j < k { LogTracePrefix(L, d, m, lh, j, k - 1); }
  }


  /** d and m differ at most on the blocks in lh. */
  ghost predicate AgreeOff(L: Layout, d: Disk, m: Disk, lh: seq<int>) {
    && |d| == |m| == L.nblocks
    && (forall b {:trigger L.Home(b)} :: L.Home(b) && b !in lh ==> d[b] == m[b])
    && (forall b {:trigger d[b]} :: L.start <= b < L.start + L.size && b < |d| ==> d[b] == m[b])
  }

  lemma AgreeOffNothing(L: Layout, d: Disk, m: Disk)
    requires AgreeOff(L, d, m, [])
    ensures d == m
  {
    forall b | 0 <= b < |d| ensures d[b] == m[b] { assert L.Home(b) || L.start <= b < L.start + L.size; }
  }

  /** Installing into both the disk and the cache removes the differences. */
  lemma {:induction false} InstalledAgree(L: Layout, d: Disk, m: Disk, lh: seq<int>, k: nat)
    requires L.Valid() && k <= |lh| && Loggable(L, lh) && AgreeOff(L, d, m, lh)
    ensures AgreeOff(L, Installed(L, d, lh, k), Installed(L, m, lh, k), lh[k..])
  {
    if k > 0 {
      InstalledAgree(L, d, m, lh, k - 1);
      assert lh[k - 1..] == [lh[k - 1]] + lh[k..];
      InstalledOutside(L, d, lh, k - 1, L.start + k);
      InstalledOutside(L, m, lh, k - 1, L.start + k);
    }
  }

  lemma {:induction false} InstalledOutside(L: Layout, d: Disk, lh: seq<int>, k: nat, b: nat)
    requires L.Valid() && |d| == L.nblocks && k <= |lh| && Loggable(L, lh) && b < |d| && !L.Home(b)
    ensures Installed(L, d, lh, k)[b] == d[b]
  {
    if k > 0 { InstalledOutside(L, d, lh, k - 1, b); }
  }

  lemma {:induction false} LoggedAgree(L: Layout, d: Disk, m: Disk, lh: seq<int>, k: nat)
    requires L.Valid() && k <= |lh| && Loggable(L, lh) && AgreeOff(L, d, m, lh)
    ensures AgreeOff(L, Logged(L, d, m, lh, k), Logged(L, m, m, lh, k), lh)
    ensures Logged(L, m, m, lh, k)[L.start] == m[L.start]
    ensures SameHome(L, Logged(L, m, m, lh, k), m)
  {
    if k > 0 { LoggedAgree(L, d, m, lh, k - 1); }
  }

  /** One round of write_log, on the cache's view mk and the disk dk. */
  lemma LogRound(L: Layout, d: Disk, m: Disk, lh: seq<int>, k: nat, dk: Disk, mk: Disk)
    requires L.Valid() && |d| == |m| == L.nblocks && k < |lh| && Loggable(L, lh)
    requires dk == Logged(L, d, m, lh, k) && mk == Logged(L, m, m, lh, k)
    ensures dk[L.start + 1 + k := mk[lh[k]]] == Logged(L, d, m, lh, k + 1)
    ensures mk[L.start + 1 + k := mk[lh[k]]] == Logged(L, m, m, lh, k + 1)
  {
    LoggedAt(L, m, m, lh, k);
  }

  /** One round of install_trans, on the cache's view mk and the disk dk. */
  lemma InstallRound(L: Layout, d: Disk, m: Disk, lh: seq<int>, k: nat, dk: Disk, mk: Disk)
    requires L.Valid() && |d| == |m| == L.nblocks && k < |lh| && Loggable(L, lh)
    requires m[L.start + 1 + k] == d[L.start + 1 + k]
    requires dk == Installed(L, d, lh, k) && mk == Installed(L, m, lh, k)
    ensures mk[L.start + 1 + k] == dk[L.start + 1 + k]
    ensures dk[lh[k] := mk[L.start + 1 + k]] == Installed(L, d, lh, k + 1)
    ensures mk[lh[k] := mk[L.start + 1 + k]] == Installed(L, m, lh, k + 1)
  {
    InstalledOutside(L, d, lh, k, L.start + 1 + k);
    InstalledOutside(L, m, lh, k, L.start + 1 + k);
  }

  lemma {:induction false} InstallTracePrefix(L: Layout, d: Disk, lh: seq<int>, j: nat, k: nat)
    requires L.Valid() && |d| == L.nblocks && j <= k <= |lh| && Loggable(L, lh)
    ensures InstallTrace(L, d, lh, j) <= InstallTrace(L, d, lh, k)
  {
    if j < k { InstallTracePrefix(L, d, lh, j, k - 1); }
  }

  /** Every one of these disks recovers to the home blocks of `base`. */
  ghost predicate AllRecoverTo(L: Layout, ws: seq<Disk>, base: Disk) {
    forall i :: 0 <= i < |ws| ==> HeaderOk(L, ws[i]) && SameHome(L, Recovered(L, ws[i]), base)
  }

  /** Until the header is written recovery ignores the log. */
  lemma {:induction false} LogTraceSafe(L: Layout, d: Disk, m: Disk, lh: seq<int>, k: nat)
    requires HeaderEmpty(L, d) && |m| == L.nblocks && k <= |lh| && Loggable(L, lh)
    ensures AllRecoverTo(L, LogTrace(L, d, m, lh, k), d)
  {
    if k > 0 {
      LogTraceSafe(L, d, m, lh, k - 1);
      LoggedAt(L, d, m, lh, k);
      RecoveredEmpty(L, Logged(L, d, m, lh, k));
    }
  }

  /** Once it is written every further install leaves what recovery yields alone. */
  lemma {:induction false} InstallsAreNeutral(L: Layout, d: Disk, lh: seq<int>, k: nat)
    requires HeaderOk(L, d) && lh == Entries(d[L.start]) && k <= |lh|
    ensures HeaderOk(L, Installed(L, d, lh, k)) && Recovered(L, Installed(L, d, lh, k)) == Recovered(L, d)
    ensures Installed(L, d, lh, k)[L.start] == d[L.start]
  {
    if k > 0 {
      InstallsAreNeutral(L, d, lh, k - 1);
      InstallOneIsNeutral(L, Installed(L, d, lh, k - 1), k - 1);
      InstalledAt(L, d, lh, k - 1);
      assert L.start + k !in lh[..k - 1] by { assert !L.Home(L.start + k); }
    }
  }

  lemma {:induction false} InstallTraceSafe(L: Layout, d: Disk, lh: seq<int>, k: nat)
    requires HeaderOk(L, d) && lh == Entries(d[L.start]) && k <= |lh|
    ensures AllRecoverTo(L, InstallTrace(L, d, lh, k), Recovered(L, d))
  {
    if k > 0 {
      InstallTraceSafe(L, d, lh, k - 1);
      InstallsAreNeutral(L, d, lh, k);
    }
  }

  /** Every disk that installing the log of disk d and then clearing its header leaves, write by
      write: recovery at boot, and the second half of a commit. */
  function RecoveryTrace(L: Layout, d: Disk): (ws: seq<Disk>)
    requires HeaderOk(L, d)
    ensures |ws| == |Entries(d[L.start])| + 1
  {
    var lh := Entries(d[L.start]);
    InstallTrace(L, d, lh, |lh|) + [Installed(L, d, lh, |lh|)[L.start := Headed(d[L.start], [])]]
  }

  /** A crash after any write of recovery recovers to the same home blocks, and so, whether it
      comes through at once or after any number of such crashes, recovery ends with them. */
  lemma RecoveryTraceSafe(L: Layout, d: Disk)
    requires HeaderOk(L, d)
    ensures AllRecoverTo(L, RecoveryTrace(L, d), Recovered(L, d))
    ensures var last := RecoveryTrace(L, d)[|Entries(d[L.start])|];
            HeaderEmpty(L, last) && SameHome(L, last, Recovered(L, d))
  {
    var lh := Entries(d[L.start]);
    var n := |lh|;
    var e := Installed(L, d, lh, n);
    InstallTraceSafe(L, d, lh, n);
    InstallsAreNeutral(L, d, lh, n);
    AllInstalled(L, d, lh);
    ClearRecovers(L, e);
  }

  lemma AllInstalled(L: Layout, d: Disk, lh: seq<int>)
    requires L.Valid() && |d| == L.nblocks && Loggable(L, lh)
    ensures var e := Installed(L, d, lh, |lh|);
            forall i :: 0 <= i < |lh| ==> e[lh[i]] == e[L.start + 1 + i] == d[L.start + 1 + i]
  {
    var e := Installed(L, d, lh, |lh|);
    InstalledAt(L, d, lh, |lh|);
    forall i | 0 <= i < |lh| ensures e[lh[i]] == e[L.start + 1 + i] == d[L.start + 1 + i] {
      var b := L.start + 1 + i;
      assert !L.Home(b);
      assert b !in lh[..|lh|];
    }
  }

  /** The disk when commit() has written its header: the log copies made, the header over them. */
  function Headered(L: Layout, d: Disk, m: Disk, lh: seq<int>): (d2: Disk)
    requires L.Valid() && |d| == |m| == L.nblocks && |m[L.start]| == WORDS && Loggable(L, lh)
    ensures HeaderOk(L, d2) && Entries(d2[L.start]) == lh
  {
    Logged(L, d, m, lh, |lh|)[L.start := Headed(m[L.start], lh)]
  }

  /** Every disk that commit() leaves, write by write, from a disk d and a cache showing m. */
  function CommitTrace(L: Layout, d: Disk, m: Disk, lh: seq<int>): (ws: seq<Disk>)
    requires L.Valid() && |d| == |m| == L.nblocks && |m[L.start]| == WORDS && Loggable(L, lh)
    ensures |ws| == 2 * |lh| + 2
  {
    LogTrace(L, d, m, lh, |lh|) + [Headered(L, d, m, lh)] + RecoveryTrace(L, Headered(L, d, m, lh))
  }

  /** The commit is atomic: a crash after any of its writes recovers to the home blocks as the
      disk had them before, up to the header write, and as the cache had them, from then on. */
  lemma CommitTraceSafe(L: Layout, d: Disk, m: Disk, lh: seq<int>)
    requires HeaderEmpty(L, d) && Fits(L, m) && Loggable(L, lh)
    requires forall b {:trigger L.Home(b)} :: L.Home(b) && b !in lh ==> d[b] == m[b]
    ensures var ws, n := CommitTrace(L, d, m, lh), |lh|;
            && AllRecoverTo(L, ws[..n], d) && AllRecoverTo(L, ws[n..], m)
            && HeaderEmpty(L, ws[2 * n + 1]) && SameHome(L, ws[2 * n + 1], m)
  {
    var ws, n, d1, d2 := CommitTrace(L, d, m, lh), |lh|, Logged(L, d, m, lh, |lh|), Headered(L, d, m, lh);
    LogTraceSafe(L, d, m, lh, n);
    assert ws[..n] == LogTrace(L, d, m, lh, n);
    assert ws[n..] == [d2] + RecoveryTrace(L, d2);
    LoggedAt(L, d, m, lh, n);
    HeadWriteRecovers(L, d1, m, m[L.start], lh);
    RecoveryTraceSafe(L, d2);
  }

  lemma CommitTraceAt(L: Layout, d: Disk, m: Disk, lh: seq<int>, i: nat)
    requires HeaderEmpty(L, d) && Fits(L, m) && Loggable(L, lh) && AgreeOff(L, d, m, lh)
    requires i < 2 * |lh| + 2
    ensures var e := CommitTrace(L, d, m, lh)[i];
            HeaderOk(L, e) && SameHome(L, Recovered(L, e), if i < |lh| then d else m)
    ensures HeaderEmpty(L, CommitTrace(L, d, m, lh)[2 * |lh| + 1])
    ensures SameHome(L, CommitTrace(L, d, m, lh)[2 * |lh| + 1], m)
  {
    var ws, n := CommitTrace(L, d, m, lh), |lh|;
    CommitTraceSafe(L, d, m, lh);
    if i < n { assert ws[..n][i] == ws[i]; } else { assert ws[n..][i - n] == ws[i]; }
  }

  /** Recovering a recovered disk changes nothing: recovery may crash and start over. */
  lemma RecoveryIdempotent(L: Layout, d: Disk)
    requires HeaderOk(L, d)
    ensures HeaderOk(L, Recovered(L, d)) && Recovered(L, Recovered(L, d)) == Recovered(L, d)
  {
    var lh := Entries(d[L.start]);
    var r := Recovered(L, d);
    RecoveredAt(L, d);
    assert L.start !in lh;
    RecoveredAt(L, r);
    forall b | 0 <= b < |d|
      ensures Recovered(L, r)[b] == r[b]
    {
      if b in lh {
        var i :| 0 <= i < |lh| && lh[i] == b;
        assert !L.Home(L.start + 1 + i) && L.start + 1 + i !in lh;
      }
    }
  }
}
