/** The machine of interleaved steps and the writes of the code are the same commit (kernel/log.c):
    the disks LogMachine's committing thread goes through, tick by tick, are those of
    Replay.CommitTrace, which the code in Log is held to, and its recovering thread's are those of
    Replay.RecoveryTrace. */
module LogRefine {
  import opened Common
  import opened Replay
  import opened LogMachine

  /** The committing or recovering thread has a next step. */
  ghost predicate CanTick(L: Layout, s: State) {
    && Fits(L, s.disk) && Fits(L, s.mem) && Loggable(L, s.lh)
    && 0 <= s.disk[L.start][0] <= LOGSIZE && !s.phase.Running?
  }

  /** The state k steps of that thread later, or where it stopped. */
  ghost function After(L: Layout, s: State, k: nat): State {
    if k == 0 then s else
    var t := After(L, s, k - 1);
    if CanTick(L, t) then Ticked(L, t) else t
  }

  /** The commit of lh begins: the last operation has ended, the cache shows m over disk d. */
  function Starts(d: Disk, m: Disk, lh: seq<int>, stray: set<int>): State {
    State(d, m, lh, map[], stray, WriteLog(0))
  }

  /** Disk d and cache m differ at most on the blocks in lh and the stray ones. */
  ghost predicate Near(L: Layout, d: Disk, m: Disk, lh: seq<int>, stray: set<int>) {
    && |d| == |m| == L.nblocks
    && (forall b {:trigger L.Home(b)} :: b in stray ==> L.Home(b) && b !in lh)
    && forall b {:trigger m[b]} :: 0 <= b < |m| && b !in lh && b !in stray ==> m[b] == d[b]
  }

  ghost predicate Ready(L: Layout, d: Disk, m: Disk, lh: seq<int>, stray: set<int>) {
    HeaderEmpty(L, d) && Fits(L, m) && Loggable(L, lh) && Near(L, d, m, lh, stray)
  }

  /** Cache contents m on the stray blocks, disk e elsewhere. */
  ghost function Mixed(e: Disk, m: Disk, stray: set<int>): (d: Disk)
    ensures |d| == |e| && forall b {:trigger d[b]} :: 0 <= b < |e| ==> d[b] == if b in stray && b < |m| then m[b]
            else e[b]
  {
    seq(|e|, b requires 0 <= b < |e| => if b in stray && b < |m| then m[b] else e[b])
  }

  /** With every logged block home they differ on the stray ones only. */
  lemma NearInstalled(L: Layout, d: Disk, m: Disk, lh: seq<int>, stray: set<int>)
    requires L.Valid() && Loggable(L, lh) && Near(L, d, m, lh, stray)
    ensures Installed(L, m, lh, |lh|) == Mixed(Installed(L, d, lh, |lh|), m, stray)
  {
    var e, f, n := Installed(L, d, lh, |lh|), Installed(L, m, lh, |lh|), |lh|;
    InstalledAt(L, d, lh, n);
    InstalledAt(L, m, lh, n);
    hide Installed;
    assert lh[..n] == lh;
    forall b | 0 <= b < |f| ensures f[b] == if b in stray then m[b] else e[b] {
      if b in lh {
        var i :| 0 <= i < n && lh[i] == b;
        assert !L.Home(L.start + 1 + i);
        assert m[L.start + 1 + i] == d[L.start + 1 + i];
      }
    }
  }

  /** One more step, from a state given outright. */
  lemma Onward(L: Layout, s: State, k: nat, t: State)
    requires After(L, s, k) == t && CanTick(L, t)
    ensures After(L, s, k + 1) == Ticked(L, t)
  {
  }

  lemma LogTick(L: Layout, d: Disk, m: Disk, lh: seq<int>, stray: set<int>, k: nat)
    requires Ready(L, d, m, lh, stray) && k < |lh|
    ensures var t := State(Logged(L, d, m, lh, k), Logged(L, m, m, lh, k), lh, map[], stray, WriteLog(k));
            && CanTick(L, t)
            && Ticked(L, t)
            == State(Logged(L, d, m, lh, k + 1), Logged(L, m, m, lh, k + 1), lh, map[], stray, WriteLog(k + 1))
  {
    LoggedAt(L, d, m, lh, k);
    LoggedAt(L, m, m, lh, k);
    LogRound(L, d, m, lh, k, Logged(L, d, m, lh, k), Logged(L, m, m, lh, k));
    hide Logged;
  }

  lemma {:induction false} WriteLogTicks(L: Layout, d: Disk, m: Disk, lh: seq<int>, stray: set<int>, k: nat)
    requires Ready(L, d, m, lh, stray) && k <= |lh|
    ensures After(L, Starts(d, m, lh, stray), k)
         == State(Logged(L, d, m, lh, k), Logged(L, m, m, lh, k), lh, map[], stray, WriteLog(k))
  {
    if k == 0 { return; }
    hide After, Logged, Ticked, CanTick;
    WriteLogTicks(L, d, m, lh, stray, k - 1);
    LogTick(L, d, m, lh, stray, k - 1);
    Onward(L, Starts(d, m, lh, stray), k - 1, After(L, Starts(d, m, lh, stray), k - 1));
  }

  lemma NearHead(L: Layout, d: Disk, m: Disk, lh: seq<int>, stray: set<int>)
    requires Ready(L, d, m, lh, stray)
    ensures Near(L, Headered(L, d, m, lh), Headered(L, m, m, lh), lh, stray)
    ensures forall b :: b in stray ==> 0 <= b < L.nblocks && Headered(L, m, m, lh)[b] == m[b]
  {
    LoggedAt(L, d, m, lh, |lh|);
    LoggedAt(L, m, m, lh, |lh|);
    hide Logged;
    var d2, m2 := Headered(L, d, m, lh), Headered(L, m, m, lh);
    forall b | 0 <= b < L.nblocks && b !in lh && b !in stray ensures m2[b] == d2[b] {
      if L.start < b <= L.start + |lh| {
        var i := b - L.start - 1;
        assert d2[L.start + 1 + i] == m[lh[i]] == m2[L.start + 1 + i];
      } else {
        assert m[b] == d[b];
      }
    }
    forall b | b in stray ensures 0 <= b < L.nblocks && m2[b] == m[b] { assert L.Home(b); }
  }

  /** The header write, and what it leaves in the cache. */
  lemma HeadTicks(L: Layout, d: Disk, m: Disk, lh: seq<int>, stray: set<int>)
    requires Ready(L, d, m, lh, stray)
    ensures After(L, Starts(d, m, lh, stray), |lh| + 1).disk == Logged(L, d, m, lh, |lh|)
    ensures var d2, m2 := Headered(L, d, m, lh), Headered(L, m, m, lh);
            && After(L, Starts(d, m, lh, stray), |lh| + 2) == State(d2, m2, lh, map[], stray, Install(0))
            && Near(L, d2, m2, lh, stray)
  {
    hide After;
    var n, s := |lh|, Starts(d, m, lh, stray);
    var d1, m1 := Logged(L, d, m, lh, n), Logged(L, m, m, lh, n);
    WriteLogTicks(L, d, m, lh, stray, n);
    LoggedAt(L, d, m, lh, n);
    LoggedAt(L, m, m, lh, n);
    NearHead(L, d, m, lh, stray);
    hide Logged;
    Onward(L, s, n, State(d1, m1, lh, map[], stray, WriteLog(n)));
    Onward(L, s, n + 1, State(d1, m1, lh, map[], stray, WriteHead));
  }

  lemma InstallTick(L: Layout, d: Disk, m: Disk, lh: seq<int>, stray: set<int>, k: nat)
    requires HeaderOk(L, d) && Fits(L, m) && lh == Entries(d[L.start]) && Near(L, d, m, lh, stray) && k < |lh|
    ensures var t := State(Installed(L, d, lh, k), Installed(L, m, lh, k), lh, map[], stray, Install(k));
            && CanTick(L, t)
            && Ticked(L, t)
            == State(Installed(L, d, lh, k + 1), Installed(L, m, lh, k + 1), lh, map[], stray, Install(k + 1))
  {
    hide Installed;
    InstalledOutside(L, d, lh, k, L.start);
    InstalledOutside(L, m, lh, k, L.start);
    assert !L.Home(L.start + 1 + k);
    assert m[L.start + 1 + k] == d[L.start + 1 + k];
    InstallRound(L, d, m, lh, k, Installed(L, d, lh, k), Installed(L, m, lh, k));
  }

  lemma {:induction false} InstallTicks(
    L: Layout, d: Disk, m: Disk, lh: seq<int>, stray: set<int>, s: State, t: nat, k: nat)
    requires HeaderOk(L, d) && Fits(L, m) && lh == Entries(d[L.start]) && Near(L, d, m, lh, stray) && k <= |lh|
    requires After(L, s, t) == State(d, m, lh, map[], stray, Install(0))
    ensures After(L, s, t + k) == State(Installed(L, d, lh, k), Installed(L, m, lh, k), lh, map[], stray, Install(k))
  {
    hide After, Ticked, CanTick, Near, HeaderOk;
    if k == 0 { return; }
    hide Installed;
    InstallTicks(L, d, m, lh, stray, s, t, k - 1);
    InstallTick(L, d, m, lh, stray, k - 1);
    Onward(L, s, t + k - 1, After(L, s, t + k - 1));
  }

  /** The thread clears the header and leaves the log idle; but for the stray blocks cache and disk are
      alike. */
  lemma ClearTicks(L: Layout, d: Disk, m: Disk, lh: seq<int>, stray: set<int>, s: State, t: nat)
    requires HeaderOk(L, d) && Fits(L, m) && lh == Entries(d[L.start]) && Near(L, d, m, lh, stray)
    requires After(L, s, t) == State(d, m, lh, map[], stray, Install(0))
    ensures var n, e := |lh|, RecoveryTrace(L, d)[|lh|];
            && After(L, s, t + n + 1).disk == Installed(L, d, lh, n)
            && After(L, s, t + n + 2) == State(e, Mixed(e, m, stray), [], map[], stray, Done)
            && After(L, s, t + n + 3) == State(e, Mixed(e, m, stray), [], map[], stray, Running)
  {
    hide After, Installed;
    var n := |lh|;
    InstallTicks(L, d, m, lh, stray, s, t, n);
    NearInstalled(L, d, m, lh, stray);
    var e := Installed(L, d, lh, n);
    var f := Mixed(e, m, stray);
    InstalledOutside(L, d, lh, n, L.start);
    assert L.start !in stray && f[L.start] == e[L.start] by { assert !L.Home(L.start); }
    var h := Headed(d[L.start], []);
    assert f[L.start := h] == Mixed(e[L.start := h], m, stray);
    Onward(L, s, t + n, State(e, f, lh, map[], stray, Install(n)));
    Onward(L, s, t + n + 1, State(e, f, lh, map[], stray, Clear));
    Onward(L, s, t + n + 2, State(e[L.start := h], f[L.start := h], [], map[], stray, Done));
  }

  /** How many of a commit's disk writes are done after k steps: all steps write but the three
      that move on from write_log, from install_trans and from commit. */
  function CommitWrites(n: nat, k: nat): nat {
    if k <= n then k else if k == n + 1 then n
    else if k <= 2 * n + 2 then k - 1 else if k == 2 * n + 3 then 2 * n + 1 else 2 * n + 2
  }

  lemma LogTraceIndex(L: Layout, d: Disk, m: Disk, lh: seq<int>, i: nat, n: nat)
    requires L.Valid() && |d| == |m| == L.nblocks && i < n <= |lh| && Loggable(L, lh)
    ensures LogTrace(L, d, m, lh, n)[i] == Logged(L, d, m, lh, i + 1)
  {
    LogTracePrefix(L, d, m, lh, i + 1, n);
  }

  lemma Nothing(L: Layout, d: Disk, m: Disk, lh: seq<int>)
    requires L.Valid() && |d| == |m| == L.nblocks && Loggable(L, lh)
    ensures Installed(L, d, lh, 0) == Logged(L, d, m, lh, 0) == d
  {
  }

  lemma InstallTraceIndex(L: Layout, d: Disk, lh: seq<int>, i: nat, n: nat)
    requires L.Valid() && |d| == L.nblocks && i < n <= |lh| && Loggable(L, lh)
    ensures InstallTrace(L, d, lh, n)[i] == Installed(L, d, lh, i + 1)
  {
    InstallTracePrefix(L, d, lh, i + 1, n);
  }

  /** CommitTrace, disk by disk. */
  lemma CommitTraceIndex(L: Layout, d: Disk, m: Disk, lh: seq<int>, stray: set<int>, i: nat)
    requires Ready(L, d, m, lh, stray) && i < 2 * |lh| + 2
    ensures var n, d2, e := |lh|, Headered(L, d, m, lh), CommitTrace(L, d, m, lh)[i];
            e == if i < n then Logged(L, d, m, lh, i + 1) else if i <= 2 * n then Installed(L, d2, lh, i - n)
                 else RecoveryTrace(L, d2)[n]
  {
    hide Installed, Logged, LogTrace, InstallTrace;
    var n, d2 := |lh|, Headered(L, d, m, lh);
    if i < n { LogTraceIndex(L, d, m, lh, i, n); }
    if i == n { Nothing(L, d2, m, lh); }
    if n < i <= 2 * n { InstallTraceIndex(L, d2, lh, i - n - 1, n); }
  }

  /** The machine's commit is the code's: after any number of its steps the disk is the one that
      many writes of CommitTrace leave, and its last step leaves the log idle, with nothing in it
      and the cache equal to the disk. */
  lemma CommitIsTrace(L: Layout, d: Disk, m: Disk, lh: seq<int>, stray: set<int>, k: nat)
    requires Ready(L, d, m, lh, stray) && k <= 2 * |lh| + 5
    ensures var w := CommitWrites(|lh|, k);
            After(L, Starts(d, m, lh, stray), k).disk == if w == 0 then d else CommitTrace(L, d, m, lh)[w - 1]
    ensures var e := CommitTrace(L, d, m, lh)[2 * |lh| + 1];
            k == 2 * |lh| + 5 ==>
              After(L, Starts(d, m, lh, stray), k) == State(e, Mixed(e, m, stray), [], map[], stray, Running)
  {
    hide After, Installed, Logged, Ticked, CanTick, CommitTrace, RecoveryTrace, Headered, Near, Loggable;
    var n, s := |lh|, Starts(d, m, lh, stray);
    var d2, m2 := Headered(L, d, m, lh), Headered(L, m, m, lh);
    var w := CommitWrites(n, k);
    HeadTicks(L, d, m, lh, stray);
    Nothing(L, d, m, lh);
    if w > 0 { CommitTraceIndex(L, d, m, lh, stray, w - 1); }
    if k <= n + 1 {
      WriteLogTicks(L, d, m, lh, stray, w);
    } else if k <= 2 * n + 2 {
      InstallTicks(L, d2, m2, lh, stray, s, n + 2, k - n - 2);
    } else {
      ClearTicks(L, d2, m2, lh, stray, s, n + 2);
      NearHead(L, d, m, lh, stray);
      var e := RecoveryTrace(L, d2)[n];
      assert Mixed(e, m, stray) == Mixed(e, m2, stray);
    }
  }

  lemma RecoverTick(L: Layout, d: Disk, k: nat)
    requires HeaderOk(L, d) && k < |Entries(d[L.start])|
    ensures var lh := Entries(d[L.start]);
            var e, e' := Installed(L, d, lh, k), Installed(L, d, lh, k + 1);
            && CanTick(L, State(e, e, lh, map[], {}, RecInstall(k)))
            && Ticked(L, State(e, e, lh, map[], {}, RecInstall(k))) == State(e', e', lh, map[], {}, RecInstall(k + 1))
  {
    var lh := Entries(d[L.start]);
    hide Installed;
    InstalledOutside(L, d, lh, k, L.start);
    InstallRound(L, d, d, lh, k, Installed(L, d, lh, k), Installed(L, d, lh, k));
  }

  lemma RecoverStarts(L: Layout, d: Disk)
    requires HeaderOk(L, d)
    ensures var lh := Entries(d[L.start]);
            After(L, Booted(d), 1) == State(d, d, lh, map[], {}, RecInstall(0)) && Installed(L, d, lh, 0) == d
  {
    assert After(L, Booted(d), 0) == Booted(d);
    Onward(L, Booted(d), 0, Booted(d));
  }

  lemma {:induction false} RecoverTicks(L: Layout, d: Disk, k: nat)
    requires HeaderOk(L, d) && k <= |Entries(d[L.start])|
    ensures var lh := Entries(d[L.start]); var e := Installed(L, d, lh, k);
            After(L, Booted(d), k + 1) == State(e, e, lh, map[], {}, RecInstall(k))
  {
    if k == 0 {
      RecoverStarts(L, d);
      return;
    }
    hide After, Installed, Ticked, CanTick;
    RecoverTicks(L, d, k - 1);
    RecoverTick(L, d, k - 1);
    Onward(L, Booted(d), k, After(L, Booted(d), k));
  }

  function RecoveryWrites(n: nat, k: nat): nat {
    if k == 0 then 0 else if k <= n + 1 then k - 1 else if k == n + 2 then n else n + 1
  }

  /** So is its recovery, which ends with the log idle. */
  lemma RecoveryIsTrace(L: Layout, d: Disk, k: nat)
    requires HeaderOk(L, d) && k <= |Entries(d[L.start])| + 3
    ensures var w := RecoveryWrites(|Entries(d[L.start])|, k);
            After(L, Booted(d), k).disk == if w == 0 then d else RecoveryTrace(L, d)[w - 1]
    ensures var n := |Entries(d[L.start])|; var e := RecoveryTrace(L, d)[n];
            k == n + 3 ==> After(L, Booted(d), k) == State(e, e, [], map[], {}, Running)
  {
    var lh := Entries(d[L.start]);
    var n := |lh|;
    if k == 0 { return; }
    hide After, Installed, InstallTrace;
    if k > n + 1 {
      RecoverEnds(L, d);
    } else {
      RecoverTicks(L, d, k - 1);
      if k > 1 { InstallTraceIndex(L, d, lh, k - 2, n); } 
      Nothing(L, d, d, lh);
    }
  }

  lemma RecoverEnds(L: Layout, d: Disk)
    requires HeaderOk(L, d)
    ensures var lh := Entries(d[L.start]); var n, ws := |lh|, RecoveryTrace(L, d);
            && After(L, Booted(d), n + 2).disk == (if n == 0 then d else ws[n - 1])
            && After(L, Booted(d), n + 3) == State(ws[n], ws[n], [], map[], {}, Running)
  {
    var lh := Entries(d[L.start]);
    var n := |lh|;
    var e := Installed(L, d, lh, n);
    RecoverTicks(L, d, n);
    if n > 0 { InstallTraceIndex(L, d, lh, n - 1, n); }
    InstalledOutside(L, d, lh, n, L.start);
    hide After, Installed, InstallTrace;
    Onward(L, Booted(d), n + 1, State(e, e, lh, map[], {}, RecInstall(n)));
    Onward(L, Booted(d), n + 2, State(e, e, lh, map[], {}, RecClear));
  }
}
