/** Every step of the process-table machine keeps the invariant. */
module ProcSteps {
  import opened ProcMachine
  import opened ProcInv

  // ---------------------------------------------------------------------------------
  // Conditions.

  lemma CondKeeps(g: Config, s: State, ch: nat, b: bool)
    requires Inv(g, s) && ch < |g.lockOf|
    requires b ==> forall q: nat {:trigger Coming(s, s.lock[L(g.lockOf[ch])], ch, q)} :: q < g.n ==>
               Coming(s, s.lock[L(g.lockOf[ch])], ch, q)
    ensures Inv(g, s.(cond := s.cond[ch := b]))
  {
    var s' := s.(cond := s.cond[ch := b]);
    CondFrame(g, s, s');
    forall d: nat, q: nat | d < |g.lockOf| && q < g.n ensures WakeOk(g, s', d, q) {
      assert WakeOk(g, s, d, q);
      assert d == ch && b ==> Coming(s, s.lock[L(g.lockOf[ch])], ch, q);
    }
  }

  lemma CondFrame(g: Config, s: State, s': State)
    requires Inv(g, s) && s' == s.(cond := s'.cond) && |s'.cond| == |s.cond|
    ensures Shape(g, s') && Cpus(g, s') && Procs(g, s') && Pcs(g, s') && Family(g, s') && LocksOk(g, s')
            && PidsOk(g, s')
  {
    forall c: nat | c < g.ncpu ensures CpuOk(g, s', c) { assert CpuOk(g, s, c); }
    forall q: nat | q < g.n ensures ProcOk(g, s', q) { assert ProcOk(g, s, q); }
    SameProcs(g, s, s');
    forall c: nat, lk | c < g.ncpu && lk in s'.lock ensures CpuHolds(g, s', c, lk) <==> s'.lock[lk] == Cpu(c) {
      assert CpuHolds(g, s, c, lk) <==> s.lock[lk] == Cpu(c);
    }
    forall e: nat, lk | e < g.nintr && lk in s'.lock ensures IntrHolds(g, s', e, lk) <==> s'.lock[lk] == Intr(e) {
      assert IntrHolds(g, s, e, lk) <==> s.lock[lk] == Intr(e);
    }
  }

  lemma SameProcs(g: Config, s: State, s': State)
    requires Shape(g, s) && Shape(g, s') && s'.proc == s.proc && s'.pc == s.pc && s'.ipc == s.ipc
    requires Pcs(g, s) && Family(g, s)
    ensures Pcs(g, s') && Family(g, s')
  {
    forall q: nat | q < g.n ensures PcOk(g, s', q) && FamilyOk(g, s', q) { assert PcOk(g, s, q) && FamilyOk(g, s, q); }
    forall e: nat | e < g.nintr ensures IntrOk(g, s', e) { assert IntrOk(g, s, e); }
  }

  // ---------------------------------------------------------------------------------
  // sched.

  /** The thread holds its own lock only: sched's checks pass. */
  ghost predicate OnlyOwn(g: Config, pc: Pc, p: nat) {
    forall lk :: Holds(g, pc, p, lk) <==> lk == P(p)
  }

  ghost predicate GoesTo(g: Config, s: State, c: nat, p: nat, q: Proc, pc: Pc, s': State) {
    Running(g, s, c, p) && s' == SwitchOut(s, c, p, q, pc) && Shape(g, s') && OnlyOwn(g, s.pc[p], p)
  }

  lemma OutLocks(g: Config, s: State, c: nat, p: nat, q: Proc, pc: Pc, s': State)
    requires GoesTo(g, s, c, p, q, pc, s')
    ensures LocksOk(g, s')
  {
    assert CpuOk(g, s, c);
    forall c': nat, lk | c' < g.ncpu && lk in s'.lock ensures CpuHolds(g, s', c', lk) <==> s'.lock[lk] == Cpu(c') {
      assert CpuHolds(g, s, c', lk) <==> s.lock[lk] == Cpu(c');
      assert CpuOk(g, s, c');
    }
    forall e: nat, lk | e < g.nintr && lk in s'.lock ensures IntrHolds(g, s', e, lk) <==> s'.lock[lk] == Intr(e) {
      assert IntrHolds(g, s, e, lk) <==> s.lock[lk] == Intr(e);
    }
  }

  lemma OutProcs(g: Config, s: State, c: nat, p: nat, q: Proc, pc: Pc, s': State)
    requires GoesTo(g, s, c, p, q, pc, s') && q == s.proc[p].(state := q.state, chan := q.chan)
    requires ProcOk(g, s', p) && PcOk(g, s', p)
    ensures Cpus(g, s') && Procs(g, s') && Pcs(g, s')
  {
    hide PcFits;
    assert CpuOk(g, s, c);
    forall c': nat | c' < g.ncpu ensures CpuOk(g, s', c') { assert CpuOk(g, s, c'); }
    forall i: nat | i < g.n ensures ProcOk(g, s', i) && PcOk(g, s', i) {
      assert ProcOk(g, s, i) && PcOk(g, s, i);
      if i != p { PcSame(g, s, s', i); }
    }
    forall e: nat | e < g.nintr ensures IntrOk(g, s', e) { assert IntrOk(g, s, e); }
  }

  lemma OutFamily(g: Config, s: State, c: nat, p: nat, q: Proc, pc: Pc, s': State)
    requires GoesTo(g, s, c, p, q, pc, s') && q == s.proc[p].(state := q.state, chan := q.chan)
    requires s.proc[p].state != UNUSED
    requires q.state == s.proc[p].state || (s.proc[p].state != ZOMBIE && q.state != ZOMBIE && q.state != UNUSED)
    requires forall i: nat {:trigger s.proc[i]} :: i < g.n && s.proc[i].parent == p ==>
               NotPassed(pc, i) && (s.proc[i].state == ZOMBIE && !s.proc[i].gave ==> SeesZombie(q, pc, i))
    ensures Family(g, s')
  {
    forall i: nat | i < g.n ensures FamilyOk(g, s', i) { assert FamilyOk(g, s, i); }
  }

  lemma OutWakes(g: Config, s: State, c: nat, p: nat, q: Proc, pc: Pc, s': State)
    requires GoesTo(g, s, c, p, q, pc, s') && ProcOk(g, s, p)
    requires forall ch: nat {:trigger Dozing(s', p, ch)} :: ch < |g.lockOf| && Dozing(s', p, ch) ==> Dozing(s, p, ch)
    ensures Wakes(g, s')
  {
    forall ch: nat, i: nat | ch < |g.lockOf| && i < g.n ensures WakeOk(g, s', ch, i) {
      assert WakeOk(g, s, ch, i);
      var lk := L(g.lockOf[ch]);
      assert CpuHolds(g, s, c, lk) <==> s.lock[lk] == Cpu(c);
      assert s.cond[ch] == s'.cond[ch];
      match s.lock[lk] {
        case Cpu(c') => assert c' < g.ncpu ==> CpuOk(g, s, c');
        case _ =>
      }
      assert CpuOk(g, s, c);
    }
  }

  lemma OutKeeps(g: Config, s: State, c: nat, p: nat, q: Proc, pc: Pc, s': State)
    requires GoesTo(g, s, c, p, q, pc, s') && q == s.proc[p].(state := q.state, chan := q.chan)
    requires ProcOk(g, s', p) && PcOk(g, s', p)
    requires q.state == s.proc[p].state || (s.proc[p].state != ZOMBIE && q.state != ZOMBIE && q.state != UNUSED)
    requires forall i: nat {:trigger s.proc[i]} :: i < g.n && s.proc[i].parent == p ==>
               NotPassed(pc, i) && (s.proc[i].state == ZOMBIE && !s.proc[i].gave ==> SeesZombie(q, pc, i))
    requires forall ch: nat {:trigger Dozing(s', p, ch)} :: ch < |g.lockOf| && Dozing(s', p, ch) ==> Dozing(s, p, ch)
    ensures Inv(g, s')
  {
    assert ProcOk(g, s, p) && CpuOk(g, s, c);
    assert s.proc[p].state != UNUSED;
    OutLocks(g, s, c, p, q, pc, s');
    OutProcs(g, s, c, p, q, pc, s');
    OutFamily(g, s, c, p, q, pc, s');
    OutWakes(g, s, c, p, q, pc, s');
    assert forall i: nat {:trigger s'.proc[i]} :: i < g.n ==> s'.proc[i].pid == s.proc[i].pid;
    assert PidsOk(g, s');
  }

  // ---------------------------------------------------------------------------------
  // The scheduler.

  /** CPU c moves within the scheduler, taking or dropping one process's lock. */
  function Rescanned(s: State, c: nat, op: LockOp, m: Mode): State
    requires c < |s.mode| && c < |s.curr|
  {
    s.(mode := s.mode[c := m], curr := s.curr[c := -1], lock := AfterOp(s.lock, Cpu(c), op))
  }

  lemma RescanKeeps(g: Config, s: State, c: nat, op: LockOp, m: Mode)
    requires Inv(g, s) && c < g.ncpu && !s.mode[c].Run? && (m.Scan? || m.Locked?) && m.i < g.n
    requires match op
             case Take(lk) => s.mode[c].Scan? && lk == P(m.i) && m.Locked? && lk in s.lock && s.lock[lk] == Nobody
             case Drop(lk) => CpuHolds(g, s, c, lk) && m.Scan? && lk in s.lock
             case Stay => false
    ensures Inv(g, Rescanned(s, c, op, m))
  {
    hide Pcs, Family, LocksOk;
    var s' := Rescanned(s, c, op, m);
    RescanLocks(g, s, c, op, m);
    forall c': nat | c' < g.ncpu ensures CpuOk(g, s', c') { assert CpuOk(g, s, c'); }
    forall i: nat | i < g.n ensures ProcOk(g, s', i) { assert ProcOk(g, s, i); }
    SameProcs(g, s, s');
    forall ch: nat, i: nat | ch < |g.lockOf| && i < g.n ensures WakeOk(g, s', ch, i) { assert WakeOk(g, s, ch, i); }
  }

  lemma RescanLocks(g: Config, s: State, c: nat, op: LockOp, m: Mode)
    requires Inv(g, s) && c < g.ncpu && !s.mode[c].Run? && (m.Scan? || m.Locked?) && m.i < g.n
    requires match op
             case Take(lk) => s.mode[c].Scan? && lk == P(m.i) && m.Locked? && lk in s.lock && s.lock[lk] == Nobody
             case Drop(lk) => CpuHolds(g, s, c, lk) && m.Scan? && lk in s.lock
             case Stay => false
    ensures Shape(g, Rescanned(s, c, op, m)) && LocksOk(g, Rescanned(s, c, op, m))
  {
    var s' := Rescanned(s, c, op, m);
    forall c': nat, lk | c' < g.ncpu && lk in s'.lock ensures CpuHolds(g, s', c', lk) <==> s'.lock[lk] == Cpu(c') {
      assert CpuHolds(g, s, c', lk) <==> s.lock[lk] == Cpu(c');
      assert CpuHolds(g, s, c, lk) <==> s.lock[lk] == Cpu(c);
    }
    forall e: nat, lk | e < g.nintr && lk in s'.lock ensures IntrHolds(g, s', e, lk) <==> s'.lock[lk] == Intr(e) {
      assert IntrHolds(g, s, e, lk) <==> s.lock[lk] == Intr(e);
      assert CpuHolds(g, s, c, lk) <==> s.lock[lk] == Cpu(c);
    }
  }

  /** The scheduler switches to a process. */
  function Dispatched(s: State, c: nat, i: nat): State
    requires i < |s.proc| && c < |s.mode| && c < |s.curr| && i < |s.at|
  {
    SetProc(s, i, s.proc[i].(state := RUNNING)).(mode := s.mode[c := Run(i)], curr := s.curr[c := i],
        at := s.at[i := c])
  }

  lemma DispatchLocks(g: Config, s: State, c: nat, i: nat)
    requires Inv(g, s) && c < g.ncpu && s.mode[c] == Locked(i) && i < g.n && s.proc[i].state == RUNNABLE
    ensures Shape(g, Dispatched(s, c, i)) && LocksOk(g, Dispatched(s, c, i))
  {
    var s' := Dispatched(s, c, i);
    assert ProcOk(g, s, i);
    forall c': nat, lk | c' < g.ncpu && lk in s'.lock ensures CpuHolds(g, s', c', lk) <==> s'.lock[lk] == Cpu(c') {
      assert CpuHolds(g, s, c', lk) <==> s.lock[lk] == Cpu(c');
    }
    forall e: nat, lk | e < g.nintr && lk in s'.lock ensures IntrHolds(g, s', e, lk) <==> s'.lock[lk] == Intr(e) {
      assert IntrHolds(g, s, e, lk) <==> s.lock[lk] == Intr(e);
    }
  }

  lemma DispatchKeeps(g: Config, s: State, c: nat, i: nat)
    requires Inv(g, s) && c < g.ncpu && s.mode[c] == Locked(i) && i < g.n && s.proc[i].state == RUNNABLE
    ensures Inv(g, Dispatched(s, c, i))
  {
    var s' := Dispatched(s, c, i);
    DispatchLocks(g, s, c, i);
    assert ProcOk(g, s, i) && CpuOk(g, s, c);
    DispatchProcs(g, s, c, i);
    DispatchRest(g, s, c, i);
    hide Family, Wakes, PidsOk, Procs;
    assert Everything(g, s');
  }

  lemma DispatchRest(g: Config, s: State, c: nat, i: nat)
    requires Inv(g, s) && c < g.ncpu && s.mode[c] == Locked(i) && i < g.n && s.proc[i].state == RUNNABLE
    requires Shape(g, Dispatched(s, c, i))
    ensures var s' := Dispatched(s, c, i); Family(g, s') && Wakes(g, s') && PidsOk(g, s')
  {
    hide Pcs, LocksOk;
    var s' := Dispatched(s, c, i);
    assert ProcOk(g, s, i);
    forall q: nat | q < g.n ensures FamilyOk(g, s', q) { assert FamilyOk(g, s, q); }
    forall ch: nat, q: nat | ch < |g.lockOf| && q < g.n ensures WakeOk(g, s', ch, q) { assert WakeOk(g, s, ch, q); }
    assert forall j: nat {:trigger s'.proc[j]} :: j < g.n ==> s'.proc[j].pid == s.proc[j].pid;
  }

  lemma DispatchProcs(g: Config, s: State, c: nat, i: nat)
    requires Inv(g, s) && c < g.ncpu && s.mode[c] == Locked(i) && i < g.n && s.proc[i].state == RUNNABLE
    requires Shape(g, Dispatched(s, c, i)) && ProcOk(g, s, i)
    ensures Cpus(g, Dispatched(s, c, i)) && Procs(g, Dispatched(s, c, i)) && Pcs(g, Dispatched(s, c, i))
  {
    hide PcFits;
    var s' := Dispatched(s, c, i);
    forall c': nat | c' < g.ncpu ensures CpuOk(g, s', c') {
      assert CpuOk(g, s, c');
      assert CpuHolds(g, s, c', P(i)) <==> s.lock[P(i)] == Cpu(c');
      assert CpuHolds(g, s, c, P(i)) <==> s.lock[P(i)] == Cpu(c);
    }
    forall q: nat | q < g.n ensures ProcOk(g, s', q) && PcOk(g, s', q) {
      assert ProcOk(g, s, q) && PcOk(g, s, q);
      PcSame(g, s, s', q);
    }
    forall e: nat | e < g.nintr ensures IntrOk(g, s', e) { assert IntrOk(g, s, e); }
  }

  lemma SchedKeeps(g: Config, s: State, c: nat, s': State)
    requires Inv(g, s) && c < g.ncpu && SchedStep(g, s, c) == Some(s')
    ensures Inv(g, s')
  {
    assert CpuOk(g, s, c);
    match s.mode[c] {
      case Scan(i) =>
        RescanKeeps(g, s, c, Take(P(i)), Locked(i));
        assert s.curr[c := -1] == s.curr;
        assert s' == Rescanned(s, c, Take(P(i)), Locked(i));
      case Locked(i) =>
        if s.proc[i].state == RUNNABLE {
          DispatchKeeps(g, s, c, i);
        } else {
          RescanKeeps(g, s, c, Drop(P(i)), Scan(Next(g, i)));
          assert s.curr[c := -1] == s.curr;
          assert s' == Rescanned(s, c, Drop(P(i)), Scan(Next(g, i)));
        }
      case Back(p) =>
        RescanKeeps(g, s, c, Drop(P(p)), Scan(Next(g, p)));
        assert s' == Rescanned(s, c, Drop(P(p)), Scan(Next(g, p)));
      case Run(_) =>
    }
  }

  // ---------------------------------------------------------------------------------
  // Writes to a slot that nobody runs: fork, and the reaping of a zombie.

  /** Process k, whose thread runs nowhere, gets a new record and a new thread. */
  ghost predicate Rewritten(g: Config, s: State, k: nat, s': State) {
    && Inv(g, s) && Shape(g, s') && k < g.n && s.at[k] == -1
    && s' == s.(proc := s.proc[k := s'.proc[k]], pc := s.pc[k := s'.pc[k]], nextpid := s'.nextpid, reaped := s'.reaped)
  }

  lemma RewrittenLocks(g: Config, s: State, k: nat, s': State)
    requires Rewritten(g, s, k, s')
    ensures LocksOk(g, s') && Cpus(g, s')
  {
    forall c: nat | c < g.ncpu ensures CpuOk(g, s', c) { assert CpuOk(g, s, c); }
    forall c: nat, lk | c < g.ncpu && lk in s'.lock ensures CpuHolds(g, s', c, lk) <==> s'.lock[lk] == Cpu(c) {
      assert CpuHolds(g, s, c, lk) <==> s.lock[lk] == Cpu(c);
      assert CpuOk(g, s, c);
    }
    forall e: nat, lk | e < g.nintr && lk in s'.lock ensures IntrHolds(g, s', e, lk) <==> s'.lock[lk] == Intr(e) {
      assert IntrHolds(g, s, e, lk) <==> s.lock[lk] == Intr(e);
    }
  }

  lemma RewrittenWakes(g: Config, s: State, k: nat, s': State)
    requires Rewritten(g, s, k, s') && (s'.pc[k] == Forkret || s'.pc[k] == Dead)
    ensures Wakes(g, s')
  {
    forall ch: nat, q: nat | ch < |g.lockOf| && q < g.n ensures WakeOk(g, s', ch, q) {
      assert WakeOk(g, s, ch, q);
      match s.lock[L(g.lockOf[ch])] {
        case Cpu(c) => assert c < g.ncpu ==> CpuOk(g, s, c);
        case _ =>
      }
    }
  }

  /** An unused slot or a zombie has no children. */
  lemma Childless(g: Config, s: State, k: nat, q: nat)
    requires Inv(g, s) && k < g.n && q < g.n && (s.proc[k].state == UNUSED || s.proc[k].state == ZOMBIE)
    ensures s.proc[q].parent != k
  {
    assert FamilyOk(g, s, q);
  }

  lemma RewrittenFamily(g: Config, s: State, k: nat, s': State)
    requires Rewritten(g, s, k, s') && k != 0 && (s.proc[k].state == UNUSED || s.proc[k].state == ZOMBIE)
    requires FamilyOk(g, s', k) && s'.proc[k].state != ZOMBIE
    ensures Family(g, s')
  {
    forall q: nat | q < g.n ensures FamilyOk(g, s', q) {
      assert FamilyOk(g, s, q);
      Childless(g, s, k, q);
    }
  }

  /** No thread counts on k being its child. */
  ghost predicate Unclaimed(g: Config, s: State, k: nat)
    requires Shape(g, s)
  {
    forall q: nat {:trigger s.pc[q]} :: q < g.n && k < g.n && s.proc[k].parent == q ==>
      !s.pc[q].WAcq? && !s.pc[q].WL? && !s.pc[q].ReparA? && !s.pc[q].ReparL?
  }

  lemma RewrittenProcs(g: Config, s: State, k: nat, s': State)
    requires Rewritten(g, s, k, s') && Unclaimed(g, s, k) && ProcOk(g, s', k)
             && (s'.pc[k] == Forkret || s'.pc[k] == Dead)
    ensures Procs(g, s') && Pcs(g, s')
  {
    forall q: nat | q < g.n ensures ProcOk(g, s', q) && PcOk(g, s', q) {
      assert ProcOk(g, s, q) && PcOk(g, s, q);
      var x := s.pc[q];
    }
    forall e: nat | e < g.nintr ensures IntrOk(g, s', e) { assert IntrOk(g, s, e); }
  }

  lemma SlotKeeps(g: Config, s: State, k: nat, s': State)
    requires Rewritten(g, s, k, s') && s.proc[k].state == UNUSED && k != 0
    requires ProcOk(g, s', k) && FamilyOk(g, s', k) && (s'.pc[k] == Forkret || s'.pc[k] == Dead)
    requires s'.nextpid == s.nextpid + 1 && s'.reaped == s.reaped && s'.proc[k].state != ZOMBIE
    requires s'.proc[k].pid == s.nextpid || (s'.proc[k].pid == 0 && s'.proc[k].state == UNUSED)
    ensures Inv(g, s')
  {
    assert ProcOk(g, s, k);
    RewrittenLocks(g, s, k, s');
    RewrittenWakes(g, s, k, s');
    RewrittenFamily(g, s, k, s');
    RewrittenProcs(g, s, k, s');
    assert PidsOk(g, s') by {
      forall i: nat | i < g.n ensures s'.proc[i].pid < s'.nextpid { assert s.proc[i].pid < s.nextpid; }
    }
  }

  lemma ReapKeeps(g: Config, s: State, k: nat)
    requires Inv(g, s) && k < g.n && s.proc[k].state == ZOMBIE && s.at[k] == -1 && Unclaimed(g, s, k)
    ensures Inv(g, SetProc(s, k, UNUSEDPROC).(reaped := s.reaped + [s.proc[k].pid]))
  {
    var s' := SetProc(s, k, UNUSEDPROC).(reaped := s.reaped + [s.proc[k].pid]);
    assert ProcOk(g, s, k);
    assert s.pc[k := Dead] == s.pc;
    assert Shape(g, s') && Rewritten(g, s, k, s');
    RewrittenLocks(g, s, k, s');
    RewrittenWakes(g, s, k, s');
    RewrittenFamily(g, s, k, s');
    RewrittenProcs(g, s, k, s');
    assert PidsOk(g, s') by {
      forall r: nat | r < |s'.reaped|
          ensures 0 < s'.reaped[r] < s'.nextpid { assert r < |s.reaped| ==> s'.reaped[r] == s.reaped[r]; }
    }
  }

  // ---------------------------------------------------------------------------------
  // exit.

  /** reparent's write. */
  lemma GiveKeeps(g: Config, s: State, p: nat, k: nat)
    requires Inv(g, s) && p < g.n && k < g.n && s.proc[k].parent == p && s.pc[p].Repar?
    ensures Inv(g, SetProc(s, k, Given(s.proc[k], s.pc[k])))
  {
    var s' := SetProc(s, k, Given(s.proc[k], s.pc[k]));
    assert ProcOk(g, s, k) && PcOk(g, s, 0);
    StateLocks(g, s, s', k);
    GiveProcs(g, s, p, k);
    forall q: nat | q < g.n ensures FamilyOk(g, s', q) { assert FamilyOk(g, s, q); }
    StateWakes(g, s, s', k);
    assert forall i: nat {:trigger s'.proc[i]} :: i < g.n ==> s'.proc[i].pid == s.proc[i].pid;
    assert PidsOk(g, s');
  }

  lemma GiveProcs(g: Config, s: State, p: nat, k: nat)
    requires Inv(g, s) && p < g.n && k < g.n && s.proc[k].parent == p && s.pc[p].Repar?
    requires Shape(g, SetProc(s, k, Given(s.proc[k], s.pc[k])))
    ensures var s' := SetProc(s, k, Given(s.proc[k], s.pc[k])); Cpus(g, s') && Procs(g, s') && Pcs(g, s')
  {
    hide Family, Wakes, LocksOk, PidsOk;
    var s' := SetProc(s, k, Given(s.proc[k], s.pc[k]));
    forall c: nat | c < g.ncpu ensures CpuOk(g, s', c) { assert CpuOk(g, s, c); }
    forall q: nat | q < g.n ensures ProcOk(g, s', q) && PcOk(g, s', q) { assert ProcOk(g, s, q) && PcOk(g, s, q); }
    forall e: nat | e < g.nintr ensures IntrOk(g, s', e) { assert IntrOk(g, s, e); }
  }

  /** The parent whose lock an exiting child holds is neither scanning for zombies nor, once woken,
      asleep in wait. */
  lemma ParentSees(g: Config, s: State, c: nat, p: nat, op: nat)
    requires Running(g, s, c, p) && op < g.n && op != p && s.pc[p].Repar? && s.pc[p].op == op
    requires !(s.proc[op].state == SLEEPING && s.proc[op].chan == OfProc(op))
    ensures SeesZombie(s.proc[op], s.pc[op], p)
  {
    assert ProcOk(g, s, op);
    assert CpuHolds(g, s, c, P(op)) <==> s.lock[P(op)] == Cpu(c);
    var c': nat := if s.at[op] >= 0 then s.at[op] else c;
    assert CpuHolds(g, s, c', P(op)) <==> s.lock[P(op)] == Cpu(c');
  }

  function Zombied(s: State, p: nat, op: nat): State
    requires p < |s.proc| && p < |s.pc|
  {
    SetPc(SetProc(s, p, s.proc[p].(state := ZOMBIE)), p, Exit8(op))
  }

  lemma ZombieKeeps(g: Config, s: State, c: nat, p: nat, op: nat)
    requires Running(g, s, c, p) && op < g.n && s.pc[p] == Repar(op, g.n)
    requires !(s.proc[op].state == SLEEPING && s.proc[op].chan == OfProc(op))
    ensures Inv(g, Zombied(s, p, op))
  {
    var s' := Zombied(s, p, op);
    assert ProcOk(g, s, p) && PcOk(g, s, p) && CpuOk(g, s, c);
    forall q: nat | q < g.n ensures s.proc[q].parent != p { assert FamilyOk(g, s, q); }
    if !s.proc[p].gave { ParentSees(g, s, c, p, op); }
    ZombieLocks(g, s, c, p, op);
    ZombieProcs(g, s, c, p, op);
    forall q: nat | q < g.n ensures FamilyOk(g, s', q) { assert FamilyOk(g, s, q); }
    ZombieWakes(g, s, c, p, op);
    assert forall i: nat {:trigger s'.proc[i]} :: i < g.n ==> s'.proc[i].pid == s.proc[i].pid;
    assert PidsOk(g, s');
  }

  lemma ZombieWakes(g: Config, s: State, c: nat, p: nat, op: nat)
    requires Running(g, s, c, p) && op < g.n && s.pc[p] == Repar(op, g.n) && Shape(g, Zombied(s, p, op))
    ensures Wakes(g, Zombied(s, p, op))
  {
    var s' := Zombied(s, p, op);
    forall ch: nat, q: nat | ch < |g.lockOf| && q < g.n ensures WakeOk(g, s', ch, q) { assert WakeOk(g, s, ch, q); }
  }

  lemma ZombieLocks(g: Config, s: State, c: nat, p: nat, op: nat)
    requires Running(g, s, c, p) && op < g.n && s.pc[p] == Repar(op, g.n)
    ensures Shape(g, Zombied(s, p, op)) && LocksOk(g, Zombied(s, p, op))
  {
    var s' := Zombied(s, p, op);
    forall c': nat, lk | c' < g.ncpu && lk in s'.lock ensures CpuHolds(g, s', c', lk) <==> s'.lock[lk] == Cpu(c') {
      assert CpuHolds(g, s, c', lk) <==> s.lock[lk] == Cpu(c');
    }
    forall e: nat, lk | e < g.nintr && lk in s'.lock ensures IntrHolds(g, s', e, lk) <==> s'.lock[lk] == Intr(e) {
      assert IntrHolds(g, s, e, lk) <==> s.lock[lk] == Intr(e);
    }
  }

  lemma ZombieProcs(g: Config, s: State, c: nat, p: nat, op: nat)
    requires Running(g, s, c, p) && op < g.n && s.pc[p] == Repar(op, g.n) && Shape(g, Zombied(s, p, op))
    ensures Cpus(g, Zombied(s, p, op)) && Procs(g, Zombied(s, p, op)) && Pcs(g, Zombied(s, p, op))
  {
    var s' := Zombied(s, p, op);
    assert CpuOk(g, s, c) && PcOk(g, s, p);
    forall c': nat | c' < g.ncpu ensures CpuOk(g, s', c') { assert CpuOk(g, s, c'); }
    assert PcOk(g, s', p);
    hide PcFits;
    forall q: nat | q < g.n ensures ProcOk(g, s', q) && PcOk(g, s', q) {
      assert ProcOk(g, s, q) && PcOk(g, s, q);
      if q != p { PcSame(g, s, s', q); }
    }
    forall e: nat | e < g.nintr ensures IntrOk(g, s', e) { assert IntrOk(g, s, e); }
  }

  // ---------------------------------------------------------------------------------
  // Interrupt handlers.

  function IntrMoved(s: State, e: nat, op: LockOp, pc: Pc): State
    requires e < |s.ipc|
  {
    s.(ipc := s.ipc[e := pc], lock := AfterOp(s.lock, Intr(e), op))
  }

  lemma IntrLocks(g: Config, s: State, e: nat, op: LockOp, pc: Pc)
    requires Inv(g, s) && e < g.nintr && LockMove(g, s, s.ipc[e], g.n, op, pc)
    ensures Shape(g, IntrMoved(s, e, op, pc)) && LocksOk(g, IntrMoved(s, e, op, pc))
  {
    var s' := IntrMoved(s, e, op, pc);
    forall c: nat, lk | c < g.ncpu && lk in s'.lock ensures CpuHolds(g, s', c, lk) <==> s'.lock[lk] == Cpu(c) {
      assert CpuHolds(g, s, c, lk) <==> s.lock[lk] == Cpu(c);
      assert IntrHolds(g, s, e, lk) <==> s.lock[lk] == Intr(e);
    }
    forall e': nat, lk | e' < g.nintr && lk in s'.lock ensures IntrHolds(g, s', e', lk) <==> s'.lock[lk] == Intr(e') {
      assert IntrHolds(g, s, e', lk) <==> s.lock[lk] == Intr(e');
      assert IntrHolds(g, s, e, lk) <==> s.lock[lk] == Intr(e);
    }
  }

  lemma IntrKeeps(g: Config, s: State, e: nat, op: LockOp, pc: Pc)
    requires Inv(g, s) && e < g.nintr && LockMove(g, s, s.ipc[e], g.n, op, pc)
    requires Shape(g, IntrMoved(s, e, op, pc)) ==> IntrOk(g, IntrMoved(s, e, op, pc), e)
    requires forall ch: nat, q: nat {:trigger WillWake(s.ipc[e], ch, q)} ::
               ch < |g.lockOf| && q < g.n && Dozing(s, q, ch) && WillWake(s.ipc[e], ch, q) ==>
                 WillWake(pc, ch, q) && op != Drop(L(g.lockOf[ch]))
    ensures Inv(g, IntrMoved(s, e, op, pc))
  {
    var s' := IntrMoved(s, e, op, pc);
    IntrLocks(g, s, e, op, pc);
    forall c: nat | c < g.ncpu ensures CpuOk(g, s', c) { assert CpuOk(g, s, c); }
    forall q: nat | q < g.n ensures ProcOk(g, s', q) && PcOk(g, s', q) { assert ProcOk(g, s, q) && PcOk(g, s, q); }
    forall e': nat | e' < g.nintr ensures IntrOk(g, s', e') { assert IntrOk(g, s, e'); }
    forall q: nat | q < g.n ensures FamilyOk(g, s', q) { assert FamilyOk(g, s, q); }
    IntrWakes(g, s, e, op, pc);
  }

  lemma IntrWakes(g: Config, s: State, e: nat, op: LockOp, pc: Pc)
    requires Inv(g, s) && e < g.nintr && LockMove(g, s, s.ipc[e], g.n, op, pc) && Shape(g, IntrMoved(s, e, op, pc))
    requires forall ch: nat, q: nat {:trigger WillWake(s.ipc[e], ch, q)} ::
               ch < |g.lockOf| && q < g.n && Dozing(s, q, ch) && WillWake(s.ipc[e], ch, q) ==>
                 WillWake(pc, ch, q) && op != Drop(L(g.lockOf[ch]))
    ensures Wakes(g, IntrMoved(s, e, op, pc))
  {
    hide Cpus, Procs, Pcs, Family, PidsOk;
    var s' := IntrMoved(s, e, op, pc);
    forall ch: nat, q: nat | ch < |g.lockOf| && q < g.n ensures WakeOk(g, s', ch, q) {
      assert WakeOk(g, s, ch, q);
      assert IntrHolds(g, s, e, L(g.lockOf[ch])) <==> s.lock[L(g.lockOf[ch])] == Intr(e);
    }
  }

  /** A wakeup holding the lock of ch and of process k leaves nobody dozing there. */
  lemma NobodyDozes(g: Config, s: State, h: Holder, ch: nat, k: nat)
    requires Inv(g, s) && ch < |g.lockOf| && k < g.n && s.lock[L(g.lockOf[ch])] == h && s.lock[P(k)] == h && h != Nobody
    requires h.Cpu? ==> h.c < g.ncpu && s.mode[h.c].Run? && s.mode[h.c].p < g.n && s.pc[s.mode[h.c].p].WakeL?
    requires !(s.proc[k].state == SLEEPING && s.proc[k].chan == Cond(ch))
    ensures !Dozing(s, k, ch)
  {
    assert ProcOk(g, s, k);
    assert s.at[k] >= 0 ==> (CpuHolds(g, s, s.at[k], P(k)) <==> s.lock[P(k)] == Cpu(s.at[k]));
    assert s.at[k] >= 0 ==> (CpuHolds(g, s, s.at[k], L(g.lockOf[ch])) <==> s.lock[L(g.lockOf[ch])] == Cpu(s.at[k]));
  }
}
