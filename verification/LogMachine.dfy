/** The log as a machine of interleaved steps (kernel/log.c): any number of file system
    operations begin, modify and log blocks, and end, in any order; the last one to end
    commits, one disk write a step; a crash may come between any two steps and is
    followed by recovery, which may crash too. An operation may end without having logged all that
    it modified: what it leaves in the cache is lost when the buffer is reused. */
module LogMachine {
  import opened Common
  import opened Replay

  /** An operation between begin_op and end_op: how many blocks it has added to the log,
      and which blocks it holds modified but has not yet passed to log_write. */
  datatype Op = Op(added: nat, dirty: set<int>)

  /** Where the committing or recovering thread stands. Each step in WriteLog, WriteHead,
      Install, Clear, RecInstall and RecClear issues at most one disk write. */
  datatype Phase =
    | ReadHead | RecInstall(done: nat) | RecClear
    | Running
    | WriteLog(done: nat) | WriteHead | Install(done: nat) | Clear | Done
  {
    predicate Recovering() {
      ReadHead? || RecInstall? || RecClear?
    }

    /** log.committing */
    predicate Committing() {
      WriteLog? || WriteHead? || Install? || Clear? || Done?
    }
  }

  /** `mem` is what bread returns for each block: the cached copy, or the disk's. The `stray` blocks are
      those that an operation modified and let go of without logging them. */
  datatype State = State(disk: Disk, mem: Disk, lh: seq<int>, ops: map<nat, Op>, stray: set<int>, phase: Phase)

  /** Evict is bget reusing the buffer of a stray block, which nobody refers to. */
  datatype Step =
    | Begin(id: nat) | Modify(id: nat, b: int, v: Block) | LogWrite(id: nat, b: int) | End(id: nat)
    | Evict(b: int) | Tick | Crash

  ghost predicate Init(L: Layout, s: State) {
    HeaderOk(L, s.disk) && s == Booted(s.disk)
  }

  function Booted(d: Disk): State {
    State(d, d, [], map[], {}, ReadHead)
  }

  /** begin_op's admission test. */
  predicate Admits(s: State) {
    s.phase.Running? && |s.lh| + (|s.ops| + 1) * MAXOPBLOCKS <= LOGSIZE
  }

  function Absorbed(lh: seq<int>, b: int): seq<int> {
    if b in lh then lh else lh + [b]
  }

  /** One step of the thread that commits or recovers. */
  function Ticked(L: Layout, s: State): State
    requires Fits(L, s.disk) && Fits(L, s.mem) && Loggable(L, s.lh)
    requires 0 <= s.disk[L.start][0] <= LOGSIZE && !s.phase.Running?
  {
    var p, n := s.phase, |s.lh|;
    match p
    case ReadHead =>
      s.(lh := Entries(s.disk[L.start]), phase := RecInstall(0))
    case RecInstall(k) =>
      if k >= n then s.(phase := RecClear) else
      var d := s.disk[s.lh[k] := s.disk[L.start + 1 + k]];
      s.(disk := d, mem := d, phase := RecInstall(k + 1))
    case RecClear =>
      var d := s.disk[L.start := Headed(s.disk[L.start], [])];
      s.(disk := d, mem := d, lh := [], phase := Running)
    case WriteLog(k) =>
      if k >= n then s.(phase := WriteHead) else
      var v := s.mem[s.lh[k]];
      s.(disk := s.disk[L.start + 1 + k := v], mem := s.mem[L.start + 1 + k := v], phase := WriteLog(k + 1))
    case WriteHead =>
      var h := Headed(s.mem[L.start], s.lh);
      s.(disk := s.disk[L.start := h], mem := s.mem[L.start := h], phase := Install(0))
    case Install(k) =>
      if k >= n then s.(phase := Clear) else
      var v := s.mem[L.start + 1 + k];
      s.(disk := s.disk[s.lh[k] := v], mem := s.mem[s.lh[k] := v], phase := Install(k + 1))
    case Clear =>
      var h := Headed(s.mem[L.start], []);
      s.(disk := s.disk[L.start := h], mem := s.mem[L.start := h], lh := [], phase := Done)
    case Done =>
      s.(phase := Running)
  }

  /** The step relation. `cap` is how many blocks one operation may add to the log. */
  ghost predicate Next(L: Layout, cap: nat, s: State, step: Step, s': State) {
    && Fits(L, s.disk) && Fits(L, s.mem) && Loggable(L, s.lh)
    && 0 <= s.disk[L.start][0] <= LOGSIZE
    && match step
       case Begin(id) =>
         && Admits(s) && id !in s.ops
         && s' == s.(ops := s.ops[id := Op(0, {})])
       case Modify(id, b, v) =>
         && s.phase.Running? && id in s.ops && L.Home(b)
         && (forall j :: j in s.ops && j != id ==> b !in s.ops[j].dirty)  // the buffer's sleep lock
         && s' == s.(mem := s.mem[b := v], ops := s.ops[id := s.ops[id].(dirty := s.ops[id].dirty + {b})])
       case LogWrite(id, b) =>
         && s.phase.Running? && Calls(cap, s, id, b) && !L.TooBig(|s.lh|)
         && s' == s.(lh := Absorbed(s.lh, b), stray := s.stray - {b},
                     ops := s.ops[id := Op(if b in s.lh then s.ops[id].added else s.ops[id].added + 1,
                                           s.ops[id].dirty - {b})])
       case End(id) =>
         && s.phase.Running? && id in s.ops
         && var ops := s.ops - {id};
            s' == s.(ops := ops, stray := s.stray + Unlogged(s.lh, s.ops[id].dirty),
                     phase := if ops != map[] then Running else if s.lh == [] then Done else WriteLog(0))
       case Evict(b) =>
         && b in s.stray && L.Home(b) && !Dirty(s, b)
         && s' == s.(mem := s.mem[b := s.disk[b]], stray := s.stray - {b})
       case Tick =>
         !s.phase.Running? && s' == Ticked(L, s)
       case Crash =>
         s' == Booted(s.disk)
  }

  /** What an operation leaves behind: a block in the log is written by the commit as it is then. */
  function Unlogged(lh: seq<int>, dirty: set<int>): set<int> {
    set b | b in dirty && b !in lh
  }

  ghost predicate Dirty(s: State, b: int) {
    exists id :: id in s.ops && b in s.ops[id].dirty
  }

  /** An operation within its budget calls log_write on a block it has modified. */
  ghost predicate Calls(cap: nat, s: State, id: nat, b: int) {
    id in s.ops && b in s.ops[id].dirty && (b in s.lh || s.ops[id].added < cap)
  }

  ghost predicate IsRun(L: Layout, cap: nat, run: seq<State>, steps: seq<Step>) {
    && |run| == |steps| + 1
    && Init(L, run[0])
    && forall i :: 0 <= i < |steps| ==> Next(L, cap, run[i], steps[i], run[i + 1])
  }

  // ---------------------------------------------------------------------------------
  // The invariant. `base` is the logical disk that recovery would bring back.

  /** The cache's contents, but for the stray blocks, of which the disk's count. */
  ghost function Shown(s: State): (d: Disk)
    ensures |d| == |s.mem|
    ensures forall b {:trigger d[b]} :: 0 <= b < |d| ==>
              d[b] == if b in s.stray && b < |s.disk| then s.disk[b] else s.mem[b]
  {
    seq(|s.mem|, b requires 0 <= b < |s.mem| => if b in s.stray && b < |s.disk| then s.disk[b] else s.mem[b])
  }

  ghost predicate Copied(L: Layout, s: State, k: nat)
    requires L.Valid() && |s.disk| == |s.mem| == L.nblocks && Loggable(L, s.lh)
  {
    forall i :: 0 <= i < k <= |s.lh| ==> s.disk[L.start + 1 + i] == s.mem[s.lh[i]]
  }

  ghost predicate Shape(L: Layout, s: State) {
    && HeaderOk(L, s.disk) && Fits(L, s.mem) && Loggable(L, s.lh)
    && (s.ops != map[] ==> s.phase.Running?)
    && forall b :: b in s.stray ==> L.Home(b) && b !in s.lh
  }

  /** Cache and disk agree off the logged blocks, the blocks being modified and the stray ones. */
  ghost predicate Agree(L: Layout, s: State)
    requires L.Valid() && |s.disk| == |s.mem| == L.nblocks
  {
    && (forall id :: id in s.ops ==> forall b :: b in s.ops[id].dirty ==> L.Home(b))
    && (forall b {:trigger s.mem[b]} :: L.start <= b < L.start + L.size ==> s.mem[b] == s.disk[b])
    && forall b {:trigger L.Home(b)} :: L.Home(b) && b !in s.lh && b !in s.stray && !Dirty(s, b) ==>
        s.mem[b] == s.disk[b]
  }

  /** Agreement while no operation is in progress. */
  ghost predicate Settled(L: Layout, s: State)
    requires L.Valid() && |s.disk| == |s.mem| == L.nblocks
  {
    && (forall b {:trigger s.mem[b]} :: L.start <= b < L.start + L.size ==> s.mem[b] == s.disk[b])
    && forall b {:trigger L.Home(b)} :: L.Home(b) && b !in s.lh && b !in s.stray ==> s.mem[b] == s.disk[b]
  }

  ghost predicate Matches(s: State) {
    |s.mem| == |s.disk| && forall b {:trigger s.mem[b]} :: 0 <= b < |s.mem| && b !in s.stray ==> s.mem[b] == s.disk[b]
  }

  ghost predicate Installs(L: Layout, s: State, k: nat)
    requires Shape(L, s)
  {
    && Matches(s) && s.lh == Entries(s.disk[L.start]) && k <= |s.lh|
    && forall i :: 0 <= i < k ==> s.disk[s.lh[i]] == s.disk[L.start + 1 + i]
  }

  ghost predicate PhaseOk(L: Layout, s: State, base: Disk)
    requires Shape(L, s)
  {
    match s.phase
    case ReadHead => s.lh == [] && s.stray == {} && Matches(s)
    case RecInstall(k) => s.stray == {} && Installs(L, s, k)
    case RecClear => s.stray == {} && Installs(L, s, |s.lh|)
    case Running => HeaderEmpty(L, s.disk) && (s.ops == map[] ==> s.lh == []) && Agree(L, s)
    case WriteLog(k) =>
      HeaderEmpty(L, s.disk) && Settled(L, s) && s.lh != [] && k <= |s.lh| && Copied(L, s, k)
    case WriteHead => HeaderEmpty(L, s.disk) && Settled(L, s) && Copied(L, s, |s.lh|)
    case Install(k) =>
      && s.lh == Entries(s.disk[L.start]) && Settled(L, s) && k <= |s.lh| && Copied(L, s, |s.lh|)
      && (forall i :: 0 <= i < k ==> s.disk[s.lh[i]] == s.mem[s.lh[i]])
      && SameHome(L, Shown(s), base)
    case Clear => Installs(L, s, |s.lh|) && SameHome(L, Shown(s), base)
    case Done => HeaderEmpty(L, s.disk) && s.lh == [] && Matches(s) && SameHome(L, Shown(s), base)
  }

  ghost predicate Inv(L: Layout, s: State, base: Disk) {
    && Shape(L, s)
    && SameHome(L, Recovered(L, s.disk), base)
    && PhaseOk(L, s, base)
  }

  /** No operation is in progress and the machine is not recovering. */
  predicate Quiet(s: State) {
    s.ops == map[] && !s.phase.Recovering()
  }

  lemma InitInv(L: Layout, s: State)
    requires Init(L, s)
    ensures Inv(L, s, Recovered(L, s.disk))
  {
  }

  lemma OpStepKeepsInv(L: Layout, cap: nat, s: State, step: Step, s': State, base: Disk)
    requires Inv(L, s, base) && Next(L, cap, s, step, s') && (step.Begin? || step.Modify? || step.LogWrite?)
    ensures Inv(L, s', base)
  {
    var id := step.id;
    assert id in s'.ops;
    forall c | Dirty(s, c) ensures c in s'.lh || Dirty(s', c) {
      var j :| j in s.ops && c in s.ops[j].dirty;
      assert j in s'.ops && (j != id ==> c in s'.ops[j].dirty);
      assert step.Modify? ==> c in s'.ops[j].dirty;
      assert step.LogWrite? && j == id && c != step.b ==> c in s'.ops[id].dirty;
    }
    if step.Modify? { assert step.b in s'.ops[id].dirty; }
  }

  lemma EndKeepsInv(L: Layout, cap: nat, s: State, id: nat, s': State, base: Disk)
    requires Inv(L, s, base) && Next(L, cap, s, End(id), s')
    ensures Inv(L, s', base)
  {
    forall c | Dirty(s, c) ensures Dirty(s', c) || c in s'.stray || c in s.lh {
      var j :| j in s.ops && c in s.ops[j].dirty;
      assert j != id ==> j in s'.ops;
    }
    RecoveredEmpty(L, s.disk);
    if s'.ops == map[] {
      assert forall c :: !Dirty(s', c);
      assert Settled(L, s');
      if s.lh == [] { SettledEmpty(L, s'); }
    }
  }

  lemma SettledEmpty(L: Layout, s: State)
    requires Shape(L, s) && Settled(L, s) && s.lh == []
    ensures Matches(s)
  {
    forall b | 0 <= b < L.nblocks && b !in s.stray ensures s.mem[b] == s.disk[b] {
      assert L.Home(b) || L.start <= b < L.start + L.size;
    }
  }

  /** What is shown of a state without a log, or with all of it home, is the disk. */
  lemma ShownMatches(s: State)
    requires Matches(s)
    ensures Shown(s) == s.disk
  {
  }

  lemma BootKeepsInv(L: Layout, s: State, base: Disk)
    requires Inv(L, s, base)
    ensures Inv(L, Booted(s.disk), base)
    ensures s.phase.ReadHead? ==> Inv(L, Ticked(L, s), base)
  {
  }

  lemma RecInstallKeepsInv(L: Layout, s: State, base: Disk)
    requires Inv(L, s, base) && s.phase.RecInstall?
    ensures Inv(L, Ticked(L, s), base)
  {
    hide Recovered, SameHome, Loggable;
    if s.phase.done < |s.lh| {
      InstallOneIsNeutral(L, s.disk, s.phase.done);
      InstalledSoFar(L, s.disk, s.lh, s.phase.done);
    }
  }

  lemma InstalledSoFar(L: Layout, d: Disk, lh: seq<int>, k: nat)
    requires HeaderOk(L, d) && lh == Entries(d[L.start]) && k < |lh|
    requires forall i :: 0 <= i < k ==> d[lh[i]] == d[L.start + 1 + i]
    ensures 0 <= lh[k] < |d| && lh[k] != L.start && d[lh[k] := d[L.start + 1 + k]][L.start] == d[L.start]
    ensures var d' := d[lh[k] := d[L.start + 1 + k]]; forall i :: 0 <= i <= k ==> d'[lh[i]] == d'[L.start + 1 + i]
  {
    assert L.Home(lh[k]);
  }

  lemma RecClearKeepsInv(L: Layout, s: State, base: Disk)
    requires Inv(L, s, base) && s.phase.RecClear?
    ensures Inv(L, Ticked(L, s), base)
  {
    ClearRecovers(L, s.disk);
  }

  /** The header write is where the logical disk recovery brings back changes, from the
      disk before the transaction to the cache's contents at the commit. */
  lemma HeadWriteSwitches(L: Layout, s: State, base: Disk)
    requires Inv(L, s, base) && s.phase.WriteHead?
    ensures SameHome(L, Recovered(L, s.disk), s.disk)
    ensures Inv(L, Ticked(L, s), Shown(Ticked(L, s))) && Quiet(Ticked(L, s))
    ensures SameHome(L, Recovered(L, Ticked(L, s).disk), Shown(s))
  {
    RecoveredEmpty(L, s.disk);
    HeadWriteRecovers(L, s.disk, Shown(s), s.mem[L.start], s.lh);
    hide Recovered, Loggable, HeaderOk;
    var s', h := Ticked(L, s), Headed(s.mem[L.start], s.lh);
    assert s'.disk == s.disk[L.start := h] && s'.mem == s.mem[L.start := h];
    HeadShown(L, s, h, s', Recovered(L, s'.disk));
  }

  lemma HeadShown(L: Layout, s: State, h: Block, s': State, d: Disk)
    requires L.Valid() && |s.disk| == |s.mem| == L.nblocks && L.start < L.nblocks && SameHome(L, d, Shown(s))
    requires s' == s.(disk := s.disk[L.start := h], mem := s.mem[L.start := h], phase := s'.phase)
    ensures SameHome(L, d, Shown(s'))
  {
  }

  lemma WriteLogKeepsInv(L: Layout, s: State, base: Disk)
    requires Inv(L, s, base) && s.phase.WriteLog?
    ensures Inv(L, Ticked(L, s), base)
  {
    RecoveredEmpty(L, s.disk);
    RecoveredEmpty(L, Ticked(L, s).disk);
  }

  lemma InstallOne(L: Layout, d: Disk, m: Disk, lh: seq<int>, k: nat)
    requires L.Valid() && |d| == |m| == L.nblocks && Loggable(L, lh) && k < |lh|
    requires forall i :: 0 <= i < |lh| ==> d[L.start + 1 + i] == m[lh[i]]
    requires forall i :: 0 <= i < k ==> d[lh[i]] == m[lh[i]]
    ensures var d' := d[lh[k] := m[lh[k]]];
            && (forall i :: 0 <= i < |lh| ==> d'[L.start + 1 + i] == m[lh[i]])
            && (forall i :: 0 <= i <= k ==> d'[lh[i]] == m[lh[i]])
  {
  }

  /** An install takes the cache's contents of the block to the disk. */
  lemma InstallIs(L: Layout, s: State, base: Disk)
    requires Inv(L, s, base) && s.phase.Install? && s.phase.done < |s.lh|
    ensures var b := s.lh[s.phase.done];
            && 0 <= b < |s.disk| == |s.mem| && b != L.start && b !in s.stray
            && Ticked(L, s) == s.(disk := s.disk[b := s.mem[b]], phase := Install(s.phase.done + 1))
            && s.mem[b] == s.disk[L.start + 1 + s.phase.done]
  {
    hide Recovered, SameHome, Shown;
    var k := s.phase.done;
    assert s.mem[L.start + 1 + k] == s.disk[L.start + 1 + k] == s.mem[s.lh[k]];
    assert s.mem[s.lh[k] := s.mem[L.start + 1 + k]] == s.mem;
  }

  lemma InstallKeepsInv(L: Layout, s: State, base: Disk)
    requires Inv(L, s, base) && s.phase.Install? && s.phase.done < |s.lh|
    ensures Inv(L, Ticked(L, s), base)
  {
    hide Recovered, SameHome, Loggable, Ticked;
    var k, s' := s.phase.done, Ticked(L, s);
    InstallIs(L, s, base);
    assert Shown(s') == Shown(s);
    InstallOneIsNeutral(L, s.disk, k);
    InstallOne(L, s.disk, s.mem, s.lh, k);
  }

  lemma InstallEnds(L: Layout, s: State, base: Disk)
    requires Inv(L, s, base) && s.phase.Install? && s.phase.done >= |s.lh|
    ensures Inv(L, Ticked(L, s), base)
  {
    forall b | 0 <= b < L.nblocks && b !in s.stray ensures s.mem[b] == s.disk[b] {
      if b in s.lh {
        var i :| 0 <= i < |s.lh| && s.lh[i] == b;
      } else {
        assert L.Home(b) || L.start <= b < L.start + L.size;
      }
    }
  }

  lemma ClearKeepsInv(L: Layout, s: State, base: Disk)
    requires Inv(L, s, base) && (s.phase.Clear? || s.phase.Done?)
    ensures Inv(L, Ticked(L, s), base)
  {
    if s.phase.Clear? { ClearRecovers(L, s.disk); }
  }

  lemma EvictKeepsInv(L: Layout, cap: nat, s: State, b: int, s': State, base: Disk)
    requires Inv(L, s, base) && Next(L, cap, s, Evict(b), s')
    ensures Inv(L, s', base)
  {
    hide Recovered, SameHome, HeaderOk;
    assert Shown(s') == Shown(s);
    assert forall c :: Dirty(s', c) <==> Dirty(s, c);
  }

  /** Every step keeps the invariant; the recoverable disk stays but for the header write, which
      makes it the logical disk of the (quiet) state reached. */
  lemma StepKeepsInv(L: Layout, cap: nat, s: State, step: Step, s': State, base: Disk) returns (base': Disk)
    requires Inv(L, s, base) && Next(L, cap, s, step, s')
    ensures Inv(L, s', base')
    ensures if step.Tick? && s.phase.WriteHead? then base' == Shown(s') && Quiet(s') else base' == base
  {
    hide Inv, Ticked, PhaseOk;
    base' := base;
    match step
    case Crash => BootKeepsInv(L, s, base);
    case Tick =>
      match s.phase {
        case ReadHead => BootKeepsInv(L, s, base);
        case RecInstall(_) => RecInstallKeepsInv(L, s, base);
        case RecClear => RecClearKeepsInv(L, s, base);
        case WriteLog(_) => WriteLogKeepsInv(L, s, base);
        case WriteHead => HeadWriteSwitches(L, s, base); base' := Shown(s');
        case Install(k) => if k < |s.lh| { InstallKeepsInv(L, s, base); } else { InstallEnds(L, s, base); }
        case Clear => ClearKeepsInv(L, s, base);
        case Done => ClearKeepsInv(L, s, base);
      }
    case End(id) => EndKeepsInv(L, cap, s, id, s', base);
    case Evict(b) => EvictKeepsInv(L, cap, s, b, s', base);
    case _ => OpStepKeepsInv(L, cap, s, step, s', base);
  }

  /** Step i of the run is a commit's header write. */
  ghost predicate Commits(run: seq<State>, steps: seq<Step>, i: nat) {
    i < |steps| < |run| && steps[i].Tick? && run[i].phase.WriteHead?
  }

  /** State j is where the last commit up to state k took effect; -1 if there was none. */
  ghost predicate LastCommit(run: seq<State>, steps: seq<Step>, j: int, k: nat) {
    && -1 <= j <= k && j != 0
    && (j > 0 ==> Commits(run, steps, j - 1))
    && forall i: nat {:trigger Commits(run, steps, i)} :: j <= i < k ==> !Commits(run, steps, i)
  }

  lemma {:induction false} RunKeepsInv(L: Layout, cap: nat, run: seq<State>, steps: seq<Step>, k: nat)
    returns (base: Disk, j: int)
    requires IsRun(L, cap, run, steps) && k < |run|
    ensures Inv(L, run[k], base)
    ensures LastCommit(run, steps, j, k)
    ensures base == if j < 0 then Recovered(L, run[0].disk) else Shown(run[j])
    ensures j > 0 ==> Quiet(run[j])
  {
    hide Inv, Next, Quiet;
    if k == 0 {
      InitInv(L, run[0]);
      base, j := Recovered(L, run[0].disk), -1;
    } else {
      base, j := RunKeepsInv(L, cap, run, steps, k - 1);
      var base' := StepKeepsInv(L, cap, run[k - 1], steps[k - 1], run[k], base);
      if Commits(run, steps, k - 1) { j := k; }
      base := base';
    }
  }

  // ---------------------------------------------------------------------------------
  // What the invariant gives over whole runs.

  /** At every moment of every run recovery would bring back what was shown at the last commit, made
      while no operation was in progress, or, before the first commit, what the disk recovered to when
      the run began. */
  lemma CrashSafe(L: Layout, cap: nat, run: seq<State>, steps: seq<Step>, k: nat)
    requires IsRun(L, cap, run, steps) && k < |run|
    ensures HeaderOk(L, run[k].disk)
    ensures exists j :: LastCommit(run, steps, j, k) && (j > 0 ==> Quiet(run[j])) &&
                        SameHome(L, Recovered(L, run[k].disk),
                                 if j < 0 then Recovered(L, run[0].disk) else Shown(run[j]))
  {
    var base, j := RunKeepsInv(L, cap, run, steps, k);
  }

  /** Group commit: while a commit runs no operation is in progress, and none is admitted. */
  lemma CommitIsExclusive(L: Layout, cap: nat, run: seq<State>, steps: seq<Step>, k: nat)
    requires IsRun(L, cap, run, steps) && k < |run| && run[k].phase.Committing()
    ensures run[k].ops == map[] && !Admits(run[k])
    ensures k < |steps| ==> steps[k].Tick? || steps[k].Crash? || steps[k].Evict?
  {
    var base, j := RunKeepsInv(L, cap, run, steps, k);
    assert k < |steps| ==> Next(L, cap, run[k], steps[k], run[k + 1]);
  }

  /** Durability: once no operation is in progress and the commit is over, recovery brings back exactly
      what is shown; that is what the cache has, if and only if no stray block differs from the disk. */
  lemma QuietIsDurable(L: Layout, cap: nat, run: seq<State>, steps: seq<Step>, k: nat)
    requires IsRun(L, cap, run, steps) && k < |run|
    requires Quiet(run[k]) && (run[k].phase.Running? || run[k].phase.Done?)
    ensures HeaderOk(L, run[k].disk) && SameHome(L, Recovered(L, run[k].disk), Shown(run[k]))
    ensures SameHome(L, run[k].disk, Shown(run[k]))
    ensures SameHome(L, Recovered(L, run[k].disk), run[k].mem) <==> StrayIsSame(run[k])
  {
    var base, j := RunKeepsInv(L, cap, run, steps, k);
    var s := run[k];
    RecoveredEmpty(L, s.disk);
    assert forall b :: !Dirty(s, b);
    if s.phase.Running? { SettledEmpty(L, s); }
    ShownMatches(s);
    SameAsCache(L, s);
  }

  /** What was left behind unlogged is what the disk has anyway. */
  ghost predicate StrayIsSame(s: State) {
    forall b {:trigger s.mem[b]} :: b in s.stray && 0 <= b < |s.mem| && b < |s.disk| ==> s.mem[b] == s.disk[b]
  }

  lemma SameAsCache(L: Layout, s: State)
    requires Shape(L, s)
    ensures SameHome(L, Shown(s), s.mem) <==> StrayIsSame(s)
  {
    if SameHome(L, Shown(s), s.mem) {
      forall b | b in s.stray && 0 <= b < |s.mem| && b < |s.disk| ensures s.mem[b] == s.disk[b] {
        assert L.Home(b) && Shown(s)[b] == s.mem[b];
      }
    }
  }

  /** The commit's atomicity, with its switch point: up to the header write recovery brings back
      the home blocks as they were on disk, untouched by the transaction; from then on it brings
      back the transaction's. */
  lemma CommitSwitchPoint(L: Layout, cap: nat, run: seq<State>, steps: seq<Step>, k: nat)
    requires IsRun(L, cap, run, steps) && k < |run| && run[k].phase.Committing()
    ensures HeaderOk(L, run[k].disk)
    ensures run[k].phase.WriteLog? || run[k].phase.WriteHead?
            ==> SameHome(L, Recovered(L, run[k].disk), run[k].disk)
    ensures !(run[k].phase.WriteLog? || run[k].phase.WriteHead?)
            ==> SameHome(L, Recovered(L, run[k].disk), Shown(run[k]))
  {
    var base, j := RunKeepsInv(L, cap, run, steps, k);
    if run[k].phase.WriteLog? || run[k].phase.WriteHead? { RecoveredEmpty(L, run[k].disk); }
  }

  /** Every step but the commit's header write leaves alone what recovery brings back. */
  lemma OtherStepsKeepRecovered(L: Layout, cap: nat, run: seq<State>, steps: seq<Step>, k: nat)
    requires IsRun(L, cap, run, steps) && k < |steps| && !(steps[k].Tick? && run[k].phase.WriteHead?)
    ensures HeaderOk(L, run[k].disk) && HeaderOk(L, run[k + 1].disk)
    ensures SameHome(L, Recovered(L, run[k + 1].disk), Recovered(L, run[k].disk))
    ensures run[k].phase.Recovering() ==> run[k + 1].ops == map[]
    ensures steps[k].Crash? ==> run[k + 1].phase.ReadHead?
  {
    var base, j := RunKeepsInv(L, cap, run, steps, k);
    var base' := StepKeepsInv(L, cap, run[k], steps[k], run[k + 1], base);
  }

  /** Recovery: from any crash, through any number of further crashes while recovering, the
      machine comes up with exactly the disk that recovery was promised to bring back. */
  lemma {:induction false} RecoveryCompletes(
    L: Layout, cap: nat, run: seq<State>, steps: seq<Step>, k: nat, m: nat)
    requires IsRun(L, cap, run, steps) && k <= m < |steps|
    requires steps[k].Crash? && forall i :: k < i <= m ==> run[i].phase.Recovering()
    ensures HeaderOk(L, run[k].disk) && HeaderOk(L, run[m + 1].disk)
    ensures SameHome(L, Recovered(L, run[m + 1].disk), Recovered(L, run[k].disk))
    ensures run[m + 1].phase.Running? ==>
              SameHome(L, run[m + 1].mem, Recovered(L, run[k].disk)) && Quiet(run[m + 1])
  {
    hide Recovered, Shown;
    OtherStepsKeepRecovered(L, cap, run, steps, m);
    if m > k { RecoveryCompletes(L, cap, run, steps, k, m - 1); }
    if run[m + 1].phase.Running? { QuietIsDurable(L, cap, run, steps, m + 1); }
  }

  /** At state k nothing is in progress and the cache shows v for block b, but recovery would not bring
      it back; one step later, without a crash, it is gone from the cache. */
  ghost predicate Loses(L: Layout, run: seq<State>, steps: seq<Step>, k: nat, b: int, v: Block) {
    && k + 1 < |run| == |steps| + 1 && Quiet(run[k]) && run[k].phase.Done? && steps[k] == Evict(b)
    && L.Home(b) && |run[k].mem| == |run[k + 1].mem| == L.nblocks && HeaderOk(L, run[k].disk)
    && run[k].mem[b] == v && Recovered(L, run[k].disk)[b] != v && run[k + 1].mem[b] != v
  }

  /** Boot on a disk whose log is empty. */
  lemma BootSteps(L: Layout, cap: nat, d: Disk, s: State)
    requires HeaderEmpty(L, d) && s == Booted(d)
    ensures Init(L, s)
    ensures Next(L, cap, s, Tick, s.(phase := RecInstall(0)))
    ensures Next(L, cap, s.(phase := RecInstall(0)), Tick, s.(phase := RecClear))
    ensures Next(L, cap, s.(phase := RecClear), Tick, s.(phase := Running))
  {
    assert Headed(d[L.start], []) == d[L.start] && d[L.start := d[L.start]] == d;
  }

  /** An operation modifies block b and ends; later its buffer is reused. */
  lemma StraySteps(L: Layout, cap: nat, s: State, b: int, v: Block, s1: State, s2: State, s3: State, s4: State)
    requires HeaderEmpty(L, s.disk) && s == Booted(s.disk).(phase := Running) && L.Home(b)
    requires s1 == s.(ops := map[0 := Op(0, {})]) && s2 == s1.(mem := s.mem[b := v], ops := map[0 := Op(0, {b})])
    requires s3 == s2.(ops := map[], stray := {b}, phase := Done) && s4 == s3.(mem := s.disk, stray := {})
    ensures Next(L, cap, s, Begin(0), s1) && Next(L, cap, s1, Modify(0, b, v), s2)
    ensures Next(L, cap, s2, End(0), s3) && Next(L, cap, s3, Evict(b), s4)
  {
    assert s.ops[0 := Op(0, {})] == s1.ops && s1.ops[0 := Op(0, {} + {b})] == s2.ops && {} + {b} == {b};
    assert s2.ops - {0} == map[] && Unlogged([], {b}) == {b} && {b} - {b} == {};
    assert s3.mem[b := s.disk[b]] == s.disk;
  }

  lemma SevenSteps(L: Layout, cap: nat, r: seq<State>, t: seq<Step>)
    requires |r| == 8 && |t| == 7 && Init(L, r[0]) && Next(L, cap, r[0], t[0], r[1]) && Next(L, cap, r[1], t[1], r[2])
    requires Next(L, cap, r[2], t[2], r[3]) && Next(L, cap, r[3], t[3], r[4]) && Next(L, cap, r[4], t[4], r[5])
    requires Next(L, cap, r[5], t[5], r[6]) && Next(L, cap, r[6], t[6], r[7])
    ensures IsRun(L, cap, r, t)
  {
    hide Next, Init;
    forall i | 0 <= i < 7 ensures Next(L, cap, r[i], t[i], r[i + 1]) { assert i in {0, 1, 2, 3, 4, 5, 6}; }
  }

  lemma StrayRun(L: Layout, cap: nat, d: Disk, b: int, v: Block) returns (run: seq<State>, steps: seq<Step>)
    requires HeaderEmpty(L, d) && L.Home(b)
    ensures IsRun(L, cap, run, steps) && |run| == 8 && |steps| == 7 && steps[6] == Evict(b)
    ensures run[6] == State(d, d[b := v], [], map[], {b}, Done) && run[7] == State(d, d, [], map[], {}, Done)
  {
    hide Next, Recovered, IsRun, Init;
    var s0 := Booted(d);
    var s1, s2, s3 := s0.(phase := RecInstall(0)), s0.(phase := RecClear), s0.(phase := Running);
    var s4 := s3.(ops := map[0 := Op(0, {})]);
    var s5 := s4.(mem := d[b := v], ops := map[0 := Op(0, {b})]);
    var s6 := s5.(ops := map[], stray := {b}, phase := Done);
    var s7 := s6.(mem := d, stray := {});
    BootSteps(L, cap, d, s0);
    StraySteps(L, cap, s3, b, v, s4, s5, s6, s7);
    run := [s0, s1, s2, s3, s4, s5, s6, s7];
    steps := [Tick, Tick, Tick, Begin(0), Modify(0, b, v), End(0), Evict(b)];
    SevenSteps(L, cap, run, steps);
  }

  /** An operation that ends without logging what it modified can come to that. */
  lemma StrayLost(L: Layout, cap: nat, d: Disk, b: int, v: Block)
    requires HeaderEmpty(L, d) && L.Home(b) && v != d[b]
    ensures exists run, steps, k :: IsRun(L, cap, run, steps) && Loses(L, run, steps, k, b, v)
  {
    hide IsRun, Recovered;
    var run, steps := StrayRun(L, cap, d, b, v);
    RecoveredEmpty(L, d);
    assert Loses(L, run, steps, 6, b, v);
  }
}
