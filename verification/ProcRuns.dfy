/** Whole runs of the process-table machine. */
module ProcRuns {
  import opened ProcMachine
  import opened ProcInv
  import opened ProcSteps

  /** MoveKeeps, for a thread that is not coming back from sleep. */
  lemma MoveTo(g: Config, s: State, c: nat, p: nat, op: LockOp, pc: Pc, s': State)
    requires Running(g, s, c, p) && LockMove(g, s, s.pc[p], p, op, pc)
    requires s' == s.(pc := s.pc[p := pc], lock := AfterOp(s.lock, Cpu(c), op)) && s.proc[p].chan == NoChan
    requires Shape(g, s') ==> ProcOk(g, s', p) && PcOk(g, s', p)
    requires AheadOf(g, s, p, pc) && NoneMissed(g, s, p, op, pc)
    ensures Inv(g, s')
  {
    assert s.proc[p := s.proc[p].(chan := NoChan)] == s.proc;
    assert s' == Moved(s, c, p, op, pc);
    MoveKeeps(g, s, c, p, op, pc);
  }

  /** What is known of a running thread. */
  lemma RunningFacts(g: Config, s: State, c: nat, p: nat)
    requires Running(g, s, c, p)
    ensures ProcOk(g, s, p) && PcOk(g, s, p) && CpuOk(g, s, c) && s.at[p] == c
    ensures s.proc[p].state == RUNNING || s.pc[p].Exit8? || s.pc[p].Exit9?
    ensures forall q: nat {:trigger s.proc[q]} :: q < g.n && s.proc[q].parent == p ==> NotPassed(s.pc[p], q)
    ensures forall q: nat {:trigger s.proc[q]} ::
              q < g.n && s.proc[q].parent == p && s.proc[q].state == ZOMBIE && !s.proc[q].gave ==>
              SeesZombie(s.proc[p], s.pc[p], q)
    ensures forall lk {:trigger Holds(g, s.pc[p], p, lk)} :: lk in s.lock ==>
              (Holds(g, s.pc[p], p, lk) <==> s.lock[lk] == Cpu(c))
  {
    assert ProcOk(g, s, p) && PcOk(g, s, p) && CpuOk(g, s, c);
    forall q: nat | q < g.n && s.proc[q].parent == p
      ensures NotPassed(s.pc[p], q)
      ensures s.proc[q].state == ZOMBIE && !s.proc[q].gave ==> SeesZombie(s.proc[p], s.pc[p], q)
    {
      assert FamilyOk(g, s, q);
    }
    forall lk | lk in s.lock ensures Holds(g, s.pc[p], p, lk) <==> s.lock[lk] == Cpu(c) {
      assert CpuHolds(g, s, c, lk) <==> s.lock[lk] == Cpu(c);
    }
  }

  /** Points where a thread is neither looking through its children, nor on its way to sleep, nor
      waking others. */
  predicate Plain(pc: Pc) {
    PlainPoint(pc) == true
  }

  predicate PlainPoint(pc: Pc) {
    match pc
    case User | Yielding(_) | Wait0 | WRel | Exit1 | Exit2 | Exit3 | Exit4 => true
    case Enter(_) | Test(_) | Signal(_) | Fork(_) | ForkL(_) | Exit5(_) | Exit6(_) | Kill(_, _) | KillL(_, _) => true
    case _ => false
  }

  lemma PlainMove(g: Config, s: State, c: nat, p: nat, op: LockOp, pc: Pc, s': State)
    requires Running(g, s, c, p) && LockMove(g, s, s.pc[p], p, op, pc) && Plain(pc)
    requires s' == s.(pc := s.pc[p := pc], lock := AfterOp(s.lock, Cpu(c), op))
    requires s.proc[p].state == RUNNING && s.proc[p].chan == NoChan && !s.pc[p].Wake? && !s.pc[p].WakeL?
    requires Shape(g, s') ==> PcOk(g, s', p)
    ensures Inv(g, s')
  {
    assert ProcOk(g, s, p) && CpuOk(g, s, c);
    MoveTo(g, s, c, p, op, pc, s');
  }

  lemma YieldKeeps(g: Config, s: State, c: nat, p: nat, s': State)
    requires Running(g, s, c, p) && ThreadStep(g, s, c, p, DoYield) == Some(s')
    ensures Inv(g, s')
  {
    hide Cpus, Procs, Pcs, Family, Wakes, LocksOk, PidsOk;
    RunningFacts(g, s, c, p);
    PlainMove(g, s, c, p, Take(P(p)), Yielding(s.pc[p]), s');
  }

  lemma UserKeeps(g: Config, s: State, c: nat, p: nat, x: Choice, s': State)
    requires Running(g, s, c, p) && s.pc[p] == User && UserStep(g, s, c, p, x) == Some(s')
    ensures Inv(g, s')
  {
    hide Cpus, Procs, Pcs, Family, Wakes, LocksOk, PidsOk;
    match x {
      case DoEnter(ch) => UserTo(g, s, c, p, Enter(ch), s');
      case DoSignal(ch) => UserTo(g, s, c, p, Signal(ch), s');
      case DoFork => UserTo(g, s, c, p, Fork(0), s');
      case DoExit => UserTo(g, s, c, p, Exit1, s');
      case DoWait => UserTo(g, s, c, p, Wait0, s');
      case DoKill(pid) => UserTo(g, s, c, p, Kill(pid, 0), s');
      case _ =>
    }
  }

  lemma UserTo(g: Config, s: State, c: nat, p: nat, pc: Pc, s': State)
    requires Shape(g, s) && Running(g, s, c, p) && s.pc[p] == User && s' == s.(pc := s.pc[p := pc])
    requires Lockless(pc) && LocklessFits(g, s, p, pc) && !pc.Exit5?
    ensures Inv(g, s')
  {
    hide Cpus, Procs, Pcs, Family, Wakes, LocksOk, PidsOk;
    RunningFacts(g, s, c, p);
    PlainMove(g, s, c, p, Stay, pc, s');
  }

  lemma SleepKeeps(g: Config, s: State, c: nat, p: nat, x: Choice, s': State)
    requires Running(g, s, c, p) && PartOf(s.pc[p]) == AtSleep && SleepStep(g, s, c, p, x) == Some(s')
    ensures Inv(g, s')
  {
    hide Cpus, Procs, Pcs, Family, Wakes, LocksOk, PidsOk;
    RunningFacts(g, s, c, p);
    match s.pc[p] {
      case Forkret => PlainMove(g, s, c, p, Drop(P(p)), User, s');
      case Yielding(to) => OutKeeps(g, s, c, p, s.proc[p].(state := RUNNABLE), Yielded(to), s');
      case Yielded(to) => PlainMove(g, s, c, p, Drop(P(p)), to, s');
      case Enter(ch) => PlainMove(g, s, c, p, Take(L(g.lockOf[ch])), Test(ch), s');
      case Test(ch) => TestKeeps(g, s, c, p, x, s', ch);
      case _ => DozeKeeps(g, s, c, p, x, s');
    }
  }

  lemma TestKeeps(g: Config, s: State, c: nat, p: nat, x: Choice, s': State, ch: nat)
    requires Running(g, s, c, p) && s.pc[p] == Test(ch) && SleepStep(g, s, c, p, x) == Some(s')
    ensures Inv(g, s')
  {
    hide Cpus, Procs, Pcs, Family, Wakes, LocksOk, PidsOk;
    RunningFacts(g, s, c, p);
    if x == Fail {
      PlainMove(g, s, c, p, Drop(L(g.lockOf[ch])), User, s');
    } else if !s.cond[ch] {
      MoveTo(g, s, c, p, Stay, Sleep1(ch), s');
    } else if x == Fail2 {
      CondKeeps(g, s, ch, false);
      PlainMove(g, s.(cond := s.cond[ch := false]), c, p, Drop(L(g.lockOf[ch])), User, s');
    } else {
      PlainMove(g, s, c, p, Drop(L(g.lockOf[ch])), User, s');
    }
  }

  /** sleep: from finding the condition false to looking again. */
  /** sleep, from the lock of its condition to that of the process. */
  lemma SleepMove(g: Config, s: State, c: nat, p: nat, op: LockOp, pc: Pc, s': State, ch: nat)
    requires Running(g, s, c, p) && s' == s.(pc := s.pc[p := pc], lock := AfterOp(s.lock, Cpu(c), op))
             && ch < |g.lockOf|
    requires if s.pc[p] == Sleep1(ch) then op == Take(P(p)) && s.lock[P(p)] == Nobody && pc == Sleep2(ch)
             else s.pc[p] == Sleep2(ch) && op == Drop(L(g.lockOf[ch])) && pc == Sleep3(ch)
    ensures Inv(g, s')
  {
    hide Cpus, Procs, Pcs, Family, Wakes, LocksOk, PidsOk;
    RunningFacts(g, s, c, p);
    MoveTo(g, s, c, p, op, pc, s');
  }

  lemma DozeKeeps(g: Config, s: State, c: nat, p: nat, x: Choice, s': State)
    requires Running(g, s, c, p) && SleepStep(g, s, c, p, x) == Some(s')
    requires s.pc[p].Sleep1? || s.pc[p].Sleep2? || s.pc[p].Sleep3? || s.pc[p].Asleep?
    ensures Inv(g, s')
  {
    hide Cpus, Procs, Pcs, Family, Wakes, LocksOk, PidsOk;
    RunningFacts(g, s, c, p);
    match s.pc[p] {
      case Sleep1(ch) => SleepMove(g, s, c, p, Take(P(p)), Sleep2(ch), s', ch);
      case Sleep2(ch) => SleepMove(g, s, c, p, Drop(L(g.lockOf[ch])), Sleep3(ch), s', ch);
      case Sleep3(ch) => OutKeeps(g, s, c, p, s.proc[p].(state := SLEEPING, chan := Cond(ch)), Asleep(ch), s');
      case Asleep(ch) => AwakeKeeps(g, s, c, p, s', ch);
      case _ =>
    }
  }

  lemma AwakeKeeps(g: Config, s: State, c: nat, p: nat, s': State, ch: nat)
    requires Running(g, s, c, p) && s.pc[p] == Asleep(ch) && SleepStep(g, s, c, p, Go) == Some(s')
    ensures Inv(g, s')
  {
    hide Cpus, Procs, Pcs, Family, Wakes, LocksOk, PidsOk;
    RunningFacts(g, s, c, p);
    assert s' == Moved(s, c, p, Drop(P(p)), Enter(ch));
    MoveKeeps(g, s, c, p, Drop(P(p)), Enter(ch));
  }

  lemma WakeKeeps(g: Config, s: State, c: nat, p: nat, s': State)
    requires Running(g, s, c, p) && PartOf(s.pc[p]) == AtWake && WakeStep(g, s, c, p) == Some(s')
    ensures Inv(g, s')
  {
    hide Cpus, Procs, Pcs, Family, Wakes, LocksOk, PidsOk;
    RunningFacts(g, s, c, p);
    match s.pc[p] {
      case Signal(ch) => SignalKeeps(g, s, c, p, s', ch);
      case Wake(ch, k) =>
        if k < g.n {
          MoveTo(g, s, c, p, Take(P(k)), WakeL(ch, k), s');
        } else {
          MoveTo(g, s, c, p, Drop(L(g.lockOf[ch])), User, s');
        }
      case WakeL(ch, k) => WakeOne(g, s, c, p, s', ch, k);
      case _ =>
    }
  }

  /** The lock is taken before the condition becomes true, so that the wakeup is already coming. */
  lemma SignalKeeps(g: Config, s: State, c: nat, p: nat, s': State, ch: nat)
    requires Running(g, s, c, p) && s.pc[p] == Signal(ch) && WakeStep(g, s, c, p) == Some(s')
    ensures Inv(g, s')
  {
    hide Cpus, Procs, Pcs, Family, Wakes, LocksOk, PidsOk;
    RunningFacts(g, s, c, p);
    var lk := L(g.lockOf[ch]);
    var s1 := s.(pc := s.pc[p := Wake(ch, 0)], lock := s.lock[lk := Cpu(c)]);
    MoveTo(g, s, c, p, Take(lk), Wake(ch, 0), s1);
    CondKeeps(g, s1, ch, true);
    assert s' == s1.(cond := s1.cond[ch := true]);
  }

  lemma WakeOne(g: Config, s: State, c: nat, p: nat, s': State, ch: nat, k: nat)
    requires Running(g, s, c, p) && s.pc[p] == WakeL(ch, k) && WakeStep(g, s, c, p) == Some(s')
    ensures Inv(g, s')
  {
    hide Cpus, Procs, Pcs, Family, Wakes, LocksOk, PidsOk, Holds, LockMove, WillWake, Dozing, CpuHolds;
    RunningFacts(g, s, c, p);
    var q := s.proc[k];
    var s1 := SetProc(s, k, Woken(q, Cond(ch)));
    if q.state == SLEEPING && q.chan == Cond(ch) { WokenKeeps(g, s, k); } else { assert s1 == s; }
    WakePast(g, s1, c, p, s', ch, k);
  }

  lemma WakePast(g: Config, s: State, c: nat, p: nat, s': State, ch: nat, k: nat)
    requires Running(g, s, c, p) && s.pc[p] == WakeL(ch, k) && k < g.n && ch < |g.lockOf|
    requires !(s.proc[k].state == SLEEPING && s.proc[k].chan == Cond(ch))
    requires s' == s.(pc := s.pc[p := Wake(ch, k + 1)], lock := s.lock[P(k) := Nobody])
    ensures Inv(g, s')
  {
    hide Cpus, Procs, Pcs, Family, Wakes, LocksOk, PidsOk;
    RunningFacts(g, s, c, p);
    assert Holds(g, s.pc[p], p, P(k)) && Holds(g, s.pc[p], p, L(g.lockOf[ch]));
    NobodyDozes(g, s, Cpu(c), ch, k);
    PastIsFree(g, s, p, ch, k);
    hide NoneMissed, AheadOf, LockMove;
    MoveTo(g, s, c, p, Drop(P(k)), Wake(ch, k + 1), s');
  }

  lemma PastIsFree(g: Config, s: State, p: nat, ch: nat, k: nat)
    requires Shape(g, s) && p < g.n && s.pc[p] == WakeL(ch, k) && k < g.n && ch < |g.lockOf| && !Dozing(s, k, ch)
    ensures LockMove(g, s, s.pc[p], p, Drop(P(k)), Wake(ch, k + 1))
    ensures AheadOf(g, s, p, Wake(ch, k + 1)) && NoneMissed(g, s, p, Drop(P(k)), Wake(ch, k + 1))
  {
  }

  lemma ForkKeeps(g: Config, s: State, c: nat, p: nat, x: Choice, s': State)
    requires Running(g, s, c, p) && PartOf(s.pc[p]) == AtFork && ForkStep(g, s, c, p, x) == Some(s')
    ensures Inv(g, s')
  {
    hide Cpus, Procs, Pcs, Family, Wakes, LocksOk, PidsOk;
    RunningFacts(g, s, c, p);
    match s.pc[p] {
      case Fork(k) =>
        if k < g.n {
          PlainMove(g, s, c, p, Take(P(k)), ForkL(k), s');
        } else {
          PlainMove(g, s, c, p, Stay, User, s');
        }
      case ForkL(k) =>
        if s.proc[k].state != UNUSED {
          PlainMove(g, s, c, p, Drop(P(k)), Fork(k + 1), s');
        } else {
          ForkSlot(g, s, c, p, x, s', k);
        }
      case _ =>
    }
  }

  /** fork, once it has found an unused slot. */
  lemma ForkSlot(g: Config, s: State, c: nat, p: nat, x: Choice, s': State, k: nat)
    requires Running(g, s, c, p) && s.pc[p] == ForkL(k) && k < g.n && s.proc[k].state == UNUSED
    requires ForkStep(g, s, c, p, x) == Some(s')
    ensures Inv(g, s')
  {
    hide Cpus, Pcs, Wakes, LocksOk, PidsOk;
    RunningFacts(g, s, c, p);
    assert ProcOk(g, s, k) && k != p && k != 0;
    var q := if x == Fail then s.proc[k].(pid := s.nextpid)
             else if x == Fail2 then UNUSEDPROC
             else s.proc[k].(state := RUNNABLE, parent := p, pid := s.nextpid, gave := false);
    var pc := if x == Fail || x == Fail2 then Dead else Forkret;
    var s1 := s.(proc := s.proc[k := q], pc := s.pc[k := pc], nextpid := s.nextpid + 1);
    ForkTaken(g, s, p, k, q, pc, s1);
    assert s.pc[k := Dead] == s.pc;
    assert s1.pc[p := User] == s'.pc;
    ForkDone(g, s1, c, p, s', k);
  }

  lemma ForkTaken(g: Config, s: State, p: nat, k: nat, q: Proc, pc: Pc, s1: State)
    requires Inv(g, s) && p < g.n && k < g.n && s.proc[k].state == UNUSED && s.pc[k] == Dead && k != p && k != 0
    requires s.proc[p].state == RUNNING && s.pc[p] == ForkL(k) && q.chan == NoChan
    requires if pc == Forkret then q.state == RUNNABLE && q.parent == p && !q.gave && q.pid == s.nextpid
             else pc == Dead && q.state == UNUSED && q.parent == -1 && (q.pid == s.nextpid || q.pid == 0)
    requires s1 == s.(proc := s.proc[k := q], pc := s.pc[k := pc], nextpid := s.nextpid + 1)
    ensures Inv(g, s1)
  {
    assert ProcOk(g, s, k);
    SlotKeeps(g, s, k, s1) by {
      assert Shape(g, s1) && Rewritten(g, s, k, s1);
      assert FamilyOk(g, s, k);
    }
  }

  lemma ForkDone(g: Config, s: State, c: nat, p: nat, s': State, k: nat)
    requires Running(g, s, c, p) && s.pc[p] == ForkL(k)
             && s' == s.(pc := s.pc[p := User], lock := s.lock[P(k) := Nobody])
    ensures Inv(g, s')
  {
    hide Cpus, Procs, Pcs, Family, Wakes, LocksOk, PidsOk;
    RunningFacts(g, s, c, p);
    PlainMove(g, s, c, p, Drop(P(k)), User, s');
  }

  lemma ExitKeeps(g: Config, s: State, c: nat, p: nat, s': State)
    requires Running(g, s, c, p) && PartOf(s.pc[p]) == AtExit && ExitStep(g, s, c, p) == Some(s')
    ensures Inv(g, s')
  {
    match s.pc[p] {
      case Exit1 | Exit3 | Exit4 | Exit5(_) => LockUp(g, s, c, p, s');
      case Exit2 => WakeInit(g, s, c, p, s');
      case Exit8(_) | Exit9 => OffCpu(g, s, c, p, s');
      case ReparL(op, k) => GiveUpChild(g, s, c, p, s', op, k);
      case _ => LeaveKeeps(g, s, c, p, s');
    }
  }

  lemma LockUp(g: Config, s: State, c: nat, p: nat, s': State)
    requires Running(g, s, c, p) && (s.pc[p].Exit1? || s.pc[p].Exit3? || s.pc[p].Exit4? || s.pc[p].Exit5?)
    requires ExitStep(g, s, c, p) == Some(s')
    ensures Inv(g, s')
  {
    hide Cpus, Procs, Pcs, Family, Wakes, LocksOk, PidsOk;
    RunningFacts(g, s, c, p);
    match s.pc[p] {
      case Exit1 => PlainMove(g, s, c, p, Take(P(0)), Exit2, s');
      case Exit3 => PlainMove(g, s, c, p, Take(P(p)), Exit4, s');
      case Exit4 => CopyParent(g, s, c, p, s');
      case Exit5(op) => PlainMove(g, s, c, p, Take(P(op)), Exit6(op), s');
      case _ =>
    }
  }

  lemma CopyParent(g: Config, s: State, c: nat, p: nat, s': State)
    requires Running(g, s, c, p) && s.pc[p] == Exit4 && ExitStep(g, s, c, p) == Some(s')
    ensures Inv(g, s')
  {
    hide Cpus, Procs, Pcs, Wakes, LocksOk, PidsOk;
    RunningFacts(g, s, c, p);
    assert FamilyOk(g, s, p);
    PlainMove(g, s, c, p, Drop(P(p)), Exit5(s.proc[p].parent), s');
  }

  lemma WakeInit(g: Config, s: State, c: nat, p: nat, s': State)
    requires Running(g, s, c, p) && s.pc[p] == Exit2 && ExitStep(g, s, c, p) == Some(s')
    ensures Inv(g, s')
  {
    hide Cpus, Procs, Pcs, Family, Wakes, LocksOk, PidsOk;
    RunningFacts(g, s, c, p);
    var q := s.proc[0];
    var s1 := SetProc(s, 0, Woken(q, OfProc(0)));
    if q.state == SLEEPING && q.chan == OfProc(0) { WokenKeeps(g, s, 0); } else { assert s1 == s; }
    RunningFacts(g, s1, c, p);
    PlainMove(g, s1, c, p, Drop(P(0)), Exit3, s');
  }

  /** exit, with the parent's lock held. */
  lemma LeaveKeeps(g: Config, s: State, c: nat, p: nat, s': State)
    requires Running(g, s, c, p) && ExitStep(g, s, c, p) == Some(s')
    requires s.pc[p].Exit6? || s.pc[p].Repar? || s.pc[p].ReparA?
    ensures Inv(g, s')
  {
    match s.pc[p] {
      case Repar(op, k) =>
        if k < g.n {
          LookKeeps(g, s, c, p, s', op, k);
        } else {
          DieKeeps(g, s, c, p, s', op, k);
        }
      case Exit6(op) => StartRepar(g, s, c, p, s', op);
      case ReparA(op, k) => ReparTake(g, s, c, p, s', op, k);
      case _ =>
    }
  }

  lemma StartRepar(g: Config, s: State, c: nat, p: nat, s': State, op: nat)
    requires Running(g, s, c, p) && s.pc[p] == Exit6(op) && ExitStep(g, s, c, p) == Some(s')
    ensures Inv(g, s')
  {
    hide Cpus, Procs, Pcs, Family, Wakes, LocksOk, PidsOk;
    RunningFacts(g, s, c, p);
    assert Holds(g, s.pc[p], p, P(op));
    MoveTo(g, s, c, p, Take(P(p)), Repar(op, 0), s');
  }

  lemma ReparTake(g: Config, s: State, c: nat, p: nat, s': State, op: nat, k: nat)
    requires Running(g, s, c, p) && s.pc[p] == ReparA(op, k) && ExitStep(g, s, c, p) == Some(s')
    ensures Inv(g, s')
  {
    hide Cpus, Procs, Pcs, Family, Wakes, LocksOk, PidsOk;
    RunningFacts(g, s, c, p);
    assert Holds(g, s.pc[p], p, P(op)) && Holds(g, s.pc[p], p, P(p));
    MoveTo(g, s, c, p, Take(P(k)), ReparL(op, k), s');
  }

  /** reparent looks at one more process. */
  lemma LookKeeps(g: Config, s: State, c: nat, p: nat, s': State, op: nat, k: nat)
    requires Running(g, s, c, p) && s.pc[p] == Repar(op, k) && k < g.n && ExitStep(g, s, c, p) == Some(s')
    ensures Inv(g, s')
  {
    hide Cpus, Procs, Pcs, Family, Wakes, LocksOk, PidsOk;
    RunningFacts(g, s, c, p);
    LookNext(g, s, c, p, s', op, k, if s.proc[k].parent == p then ReparA(op, k) else Repar(op, k + 1));
  }

  lemma LookNext(g: Config, s: State, c: nat, p: nat, s': State, op: nat, k: nat, pc: Pc)
    requires Running(g, s, c, p) && s.pc[p] == Repar(op, k) && k < g.n && s' == s.(pc := s.pc[p := pc])
    requires pc == if s.proc[k].parent == p then ReparA(op, k) else Repar(op, k + 1)
    ensures Inv(g, s')
  {
    hide Cpus, Procs, Pcs, Family, Wakes, LocksOk, PidsOk, CpuOk, LocklessFits, Resumes, Woken;
    RunningFacts(g, s, c, p);
    MoveTo(g, s, c, p, Stay, pc, s');
  }

  /** wakeup1(original_parent), and the process becomes a zombie. */
  lemma DieKeeps(g: Config, s: State, c: nat, p: nat, s': State, op: nat, k: nat)
    requires Running(g, s, c, p) && s.pc[p] == Repar(op, k) && k >= g.n && ExitStep(g, s, c, p) == Some(s')
    ensures Inv(g, s')
  {
    hide Cpus, Procs, Pcs, Family, Wakes, LocksOk, PidsOk;
    RunningFacts(g, s, c, p);
    var q := s.proc[op];
    var s1 := SetProc(s, op, Woken(q, OfProc(op)));
    if q.state == SLEEPING && q.chan == OfProc(op) { WokenKeeps(g, s, op); } else { assert s1 == s; }
    ZombieKeeps(g, s1, c, p, op);
    assert s' == Zombied(s1, p, op);
  }

  lemma GiveUpChild(g: Config, s: State, c: nat, p: nat, s': State, op: nat, k: nat)
    requires Running(g, s, c, p) && s.pc[p] == ReparL(op, k) && ExitStep(g, s, c, p) == Some(s')
    ensures Inv(g, s')
  {
    hide Cpus, Procs, Pcs, Family, Wakes, LocksOk, PidsOk;
    RunningFacts(g, s, c, p);
    var s1 := s.(pc := s.pc[p := Repar(op, k)], lock := s.lock[P(k) := Nobody]);
    LetGo(g, s, c, p, s1, op, k);
    GiveKeeps(g, s1, p, k);
    var s2 := SetProc(s1, k, Given(s1.proc[k], s1.pc[k]));
    RunningFacts(g, s2, c, p);
    assert s' == s2.(pc := s2.pc[p := Repar(op, k + 1)]);
    MoveTo(g, s2, c, p, Stay, Repar(op, k + 1), s');
  }

  lemma LetGo(g: Config, s: State, c: nat, p: nat, s1: State, op: nat, k: nat)
    requires Running(g, s, c, p) && s.pc[p] == ReparL(op, k)
    requires s1 == s.(pc := s.pc[p := Repar(op, k)], lock := s.lock[P(k) := Nobody])
    ensures Inv(g, s1)
  {
    hide Cpus, Procs, Pcs, Family, Wakes, LocksOk, PidsOk;
    RunningFacts(g, s, c, p);
    MoveTo(g, s, c, p, Drop(P(k)), Repar(op, k), s1);
  }

  /** A zombie gives up its CPU for good. */
  lemma OffCpu(g: Config, s: State, c: nat, p: nat, s': State)
    requires Running(g, s, c, p) && (s.pc[p].Exit8? || s.pc[p].Exit9?) && ExitStep(g, s, c, p) == Some(s')
    ensures Inv(g, s')
  {
    hide Cpus, Procs, Pcs, Family, Wakes, LocksOk, PidsOk;
    RunningFacts(g, s, c, p);
    match s.pc[p] {
      case Exit8(op) => MoveTo(g, s, c, p, Drop(P(op)), Exit9, s');
      case Exit9 => OutKeeps(g, s, c, p, s.proc[p], Dead, s');
      case _ =>
    }
  }

  lemma WaitKeeps(g: Config, s: State, c: nat, p: nat, x: Choice, s': State)
    requires Running(g, s, c, p) && PartOf(s.pc[p]) == AtWait && WaitStep(g, s, c, p, x) == Some(s')
    ensures Inv(g, s')
  {
    match s.pc[p] {
      case WScan(k, have) => ScanKeeps(g, s, c, p, x, s', k, have);
      case WL(k, have) => ChildKeeps(g, s, c, p, x, s', k, have);
      case WAsleep => BackInWait(g, s, c, p, x, s');
      case _ => WaitLocks(g, s, c, p, x, s');
    }
  }

  lemma WaitLocks(g: Config, s: State, c: nat, p: nat, x: Choice, s': State)
    requires Running(g, s, c, p) && WaitStep(g, s, c, p, x) == Some(s')
    requires s.pc[p].Wait0? || s.pc[p].WAcq? || s.pc[p].WRel?
    ensures Inv(g, s')
  {
    hide Cpus, Procs, Pcs, Family, Wakes, LocksOk, PidsOk;
    RunningFacts(g, s, c, p);
    match s.pc[p] {
      case Wait0 => MoveTo(g, s, c, p, Take(P(p)), WScan(0, false), s');
      case WAcq(k, have) => TakeChild(g, s, c, p, x, s', k, have);
      case WRel => PlainMove(g, s, c, p, Drop(P(p)), User, s');
      case _ =>
    }
  }

  lemma TakeChild(g: Config, s: State, c: nat, p: nat, x: Choice, s': State, k: nat, have: bool)
    requires Running(g, s, c, p) && s.pc[p] == WAcq(k, have) && WaitStep(g, s, c, p, x) == Some(s')
    ensures Inv(g, s')
  {
    hide Cpus, Procs, Pcs, Family, Wakes, LocksOk, PidsOk;
    RunningFacts(g, s, c, p);
    assert Holds(g, s.pc[p], p, P(p));
    MoveTo(g, s, c, p, Take(P(k)), WL(k, have), s');
  }

  lemma BackInWait(g: Config, s: State, c: nat, p: nat, x: Choice, s': State)
    requires Running(g, s, c, p) && s.pc[p] == WAsleep && WaitStep(g, s, c, p, x) == Some(s')
    ensures Inv(g, s')
  {
    hide Cpus, Procs, Pcs, Family, Wakes, LocksOk, PidsOk;
    RunningFacts(g, s, c, p);
    assert s' == Moved(s, c, p, Stay, WScan(0, false));
    MoveKeeps(g, s, c, p, Stay, WScan(0, false));
  }

  /** wait looks at one more process, or has looked at all and sleeps if it has children. */
  lemma ScanKeeps(g: Config, s: State, c: nat, p: nat, x: Choice, s': State, k: nat, have: bool)
    requires Running(g, s, c, p) && s.pc[p] == WScan(k, have) && WaitStep(g, s, c, p, x) == Some(s')
    ensures Inv(g, s')
  {
    hide Cpus, Procs, Pcs, Family, Wakes, LocksOk, PidsOk;
    RunningFacts(g, s, c, p);
    if k >= g.n {
      ScanDone(g, s, c, p, x, s', k, have);
    } else if s.proc[k].parent == p {
      ScanFound(g, s, c, p, s', k, have);
    } else {
      ScanPast(g, s, c, p, s', k, have);
    }
  }

  lemma ScanFound(g: Config, s: State, c: nat, p: nat, s': State, k: nat, have: bool)
    requires Running(g, s, c, p) && s.pc[p] == WScan(k, have) && k < g.n && s' == s.(pc := s.pc[p := WAcq(k, have)])
    requires s.proc[k].parent == p
    ensures Inv(g, s')
  {
    hide Cpus, Procs, Pcs, Family, Wakes, LocksOk, PidsOk;
    RunningFacts(g, s, c, p);
    MoveTo(g, s, c, p, Stay, WAcq(k, have), s');
  }

  lemma ScanPast(g: Config, s: State, c: nat, p: nat, s': State, k: nat, have: bool)
    requires Running(g, s, c, p) && s.pc[p] == WScan(k, have) && k < g.n
             && s' == s.(pc := s.pc[p := WScan(k + 1, have)])
    requires s.proc[k].parent != p
    ensures Inv(g, s')
  {
    hide Cpus, Procs, Pcs, Family, Wakes, LocksOk, PidsOk;
    RunningFacts(g, s, c, p);
    MoveTo(g, s, c, p, Stay, WScan(k + 1, have), s');
  }

  lemma ScanDone(g: Config, s: State, c: nat, p: nat, x: Choice, s': State, k: nat, have: bool)
    requires Running(g, s, c, p) && s.pc[p] == WScan(k, have) && k >= g.n && WaitStep(g, s, c, p, x) == Some(s')
    ensures Inv(g, s')
  {
    hide Cpus, Procs, Pcs, Family, Wakes, LocksOk, PidsOk;
    RunningFacts(g, s, c, p);
    if !have || s.proc[p].killed {
      PlainMove(g, s, c, p, Drop(P(p)), User, s');
    } else {
      OutKeeps(g, s, c, p, s.proc[p].(state := SLEEPING, chan := OfProc(p)), WAsleep, s');
    }
  }

  /** wait has a child's lock. */
  lemma ChildKeeps(g: Config, s: State, c: nat, p: nat, x: Choice, s': State, k: nat, have: bool)
    requires Running(g, s, c, p) && s.pc[p] == WL(k, have) && WaitStep(g, s, c, p, x) == Some(s')
    ensures Inv(g, s')
  {
    hide Cpus, Procs, Pcs, Family, Wakes, LocksOk, PidsOk;
    RunningFacts(g, s, c, p);
    if s.proc[k].state == ZOMBIE && x != Fail {
      ReapChild(g, s, c, p, x, s', k, have);
    } else {
      PassChild(g, s, c, p, x, s', k, have);
    }
  }

  lemma PassChild(g: Config, s: State, c: nat, p: nat, x: Choice, s': State, k: nat, have: bool)
    requires Running(g, s, c, p) && s.pc[p] == WL(k, have) && k < g.n && (s.proc[k].state != ZOMBIE || x == Fail)
    requires WaitStep(g, s, c, p, x) == Some(s')
    ensures Inv(g, s')
  {
    hide Cpus, Procs, Pcs, Family, Wakes, LocksOk, PidsOk;
    RunningFacts(g, s, c, p);
    if s.proc[k].state != ZOMBIE {
      PassLiving(g, s, c, p, s', k, have);
    } else {
      PlainMove(g, s, c, p, Drop(P(k)), WRel, s');
    }
  }

  lemma PassLiving(g: Config, s: State, c: nat, p: nat, s': State, k: nat, have: bool)
    requires Running(g, s, c, p) && s.pc[p] == WL(k, have) && k < g.n && s.proc[k].state != ZOMBIE
    requires s' == s.(pc := s.pc[p := WScan(k + 1, true)], lock := s.lock[P(k) := Nobody])
    ensures Inv(g, s')
  {
    hide Cpus, Procs, Pcs, Family, Wakes, LocksOk, PidsOk;
    RunningFacts(g, s, c, p);
    MoveTo(g, s, c, p, Drop(P(k)), WScan(k + 1, true), s');
  }

  /** Holding a zombie's lock means that its thread is off its CPU. */
  lemma ZombieIsOff(g: Config, s: State, c: nat, p: nat, k: nat)
    requires Running(g, s, c, p) && k < g.n && k != p && s.proc[k].state == ZOMBIE && P(k) in s.lock
             && s.lock[P(k)] == Cpu(c)
    ensures s.at[k] == -1
  {
    assert ProcOk(g, s, k);
    var c': nat := if s.at[k] >= 0 then s.at[k] else c;
    assert CpuHolds(g, s, c', P(k)) <==> s.lock[P(k)] == Cpu(c');
  }

  lemma ReapChild(g: Config, s: State, c: nat, p: nat, x: Choice, s': State, k: nat, have: bool)
    requires Running(g, s, c, p) && s.pc[p] == WL(k, have) && k < g.n && s.proc[k].state == ZOMBIE && x != Fail
    requires WaitStep(g, s, c, p, x) == Some(s')
    ensures Inv(g, s')
  {
    hide Cpus, Procs, Pcs, Family, Wakes, LocksOk, PidsOk;
    RunningFacts(g, s, c, p);
    assert Holds(g, s.pc[p], p, P(k));
    ZombieIsOff(g, s, c, p, k);
    var s1 := s.(pc := s.pc[p := WRel], lock := s.lock[P(k) := Nobody]);
    PlainMove(g, s, c, p, Drop(P(k)), WRel, s1);
    ReapKeeps(g, s1, k);
    assert s' == SetProc(s1, k, UNUSEDPROC).(reaped := s1.reaped + [s1.proc[k].pid]);
  }

  lemma KillKeeps(g: Config, s: State, c: nat, p: nat, s': State)
    requires Running(g, s, c, p) && PartOf(s.pc[p]) == AtKill && KillStep(g, s, c, p) == Some(s')
    ensures Inv(g, s')
  {
    hide Cpus, Procs, Pcs, Family, Wakes, LocksOk, PidsOk;
    RunningFacts(g, s, c, p);
    match s.pc[p] {
      case Kill(pid, k) =>
        if k < g.n {
          PlainMove(g, s, c, p, Take(P(k)), KillL(pid, k), s');
        } else {
          PlainMove(g, s, c, p, Stay, User, s');
        }
      case KillL(pid, k) => KillOne(g, s, c, p, s', pid, k);
      case _ =>
    }
  }

  lemma KillOne(g: Config, s: State, c: nat, p: nat, s': State, pid: nat, k: nat)
    requires Running(g, s, c, p) && s.pc[p] == KillL(pid, k) && KillStep(g, s, c, p) == Some(s')
    ensures Inv(g, s')
  {
    hide Cpus, Procs, Pcs, Family, Wakes, LocksOk, PidsOk;
    RunningFacts(g, s, c, p);
    if s.proc[k].pid == pid {
      KilledKeeps(g, s, k);
      PlainMove(g, SetProc(s, k, Killed(s.proc[k])), c, p, Drop(P(k)), User, s');
    } else {
      PlainMove(g, s, c, p, Drop(P(k)), Kill(pid, k + 1), s');
    }
  }

  lemma ThreadKeeps(g: Config, s: State, c: nat, p: nat, x: Choice, s': State)
    requires Running(g, s, c, p) && ThreadStep(g, s, c, p, x) == Some(s')
    ensures Inv(g, s')
  {
    if x == DoYield {
      YieldKeeps(g, s, c, p, s');
      return;
    }
    match PartOf(s.pc[p]) {
      case AtUser => UserKeeps(g, s, c, p, x, s');
      case AtSleep => SleepKeeps(g, s, c, p, x, s');
      case AtWake => WakeKeeps(g, s, c, p, s');
      case AtFork => ForkKeeps(g, s, c, p, x, s');
      case AtExit => ExitKeeps(g, s, c, p, s');
      case AtWait => WaitKeeps(g, s, c, p, x, s');
      case AtKill => KillKeeps(g, s, c, p, s');
    }
  }

  lemma DeviceKeeps(g: Config, s: State, e: nat, d: nat, s': State)
    requires Inv(g, s) && e < g.nintr && IntrStep(g, s, e, d) == Some(s')
    ensures Inv(g, s')
  {
    assert IntrOk(g, s, e);
    match s.ipc[e] {
      case User =>
        var lk := L(g.lockOf[d]);
        var s1 := IntrMoved(s, e, Take(lk), Wake(d, 0));
        IntrKeeps(g, s, e, Take(lk), Wake(d, 0));
        CondKeeps(g, s1, d, true);
        assert s' == s1.(cond := s1.cond[d := true]);
      case Wake(ch, k) =>
        if k < g.n {
          IntrKeeps(g, s, e, Take(P(k)), WakeL(ch, k));
        } else {
          IntrKeeps(g, s, e, Drop(L(g.lockOf[ch])), User);
        }
      case WakeL(ch, k) => DeviceWakes(g, s, e, s', ch, k);
      case _ =>
    }
  }

  lemma DeviceWakes(g: Config, s: State, e: nat, s': State, ch: nat, k: nat)
    requires Inv(g, s) && e < g.nintr && s.ipc[e] == WakeL(ch, k) && IntrStep(g, s, e, ch) == Some(s')
    ensures Inv(g, s')
  {
    assert IntrOk(g, s, e);
    var q := s.proc[k];
    var s1 := SetProc(s, k, Woken(q, Cond(ch)));
    if q.state == SLEEPING && q.chan == Cond(ch) { WokenKeeps(g, s, k); } else { assert s1 == s; }
    assert IntrHolds(g, s, e, P(k)) && IntrHolds(g, s, e, L(g.lockOf[ch]));
    NobodyDozes(g, s1, Intr(e), ch, k);
    IntrKeeps(g, s1, e, Drop(P(k)), Wake(ch, k + 1));
    assert s' == IntrMoved(s1, e, Drop(P(k)), Wake(ch, k + 1));
  }

  lemma StepKeeps(g: Config, s: State, a: Step, s': State)
    requires Inv(g, s) && Do(g, s, a) == Some(s')
    ensures Inv(g, s')
  {
    match a {
      case Sched(c) => SchedKeeps(g, s, c, s');
      case Thread(c, x) => ThreadKeeps(g, s, c, s.mode[c].p, x, s');
      case Device(e, ch) => DeviceKeeps(g, s, e, ch, s');
    }
  }

  lemma LocksFree(n: nat, nlocks: nat)
    ensures forall i: nat :: P(i) in FreeLocks(n, nlocks) <==> i < n
    ensures forall l: nat :: L(l) in FreeLocks(n, nlocks) <==> l < nlocks
    ensures forall lk :: lk in FreeLocks(n, nlocks) ==> FreeLocks(n, nlocks)[lk] == Nobody
  {
  }

  lemma BootInv(g: Config, cond: seq<bool>)
    requires g.Valid() && |cond| == |g.lockOf|
    ensures Inv(g, Boot(g, cond))
  {
    LocksFree(g.n, g.nlocks);
    var s := Boot(g, cond);
    assert Shape(g, s) by {
      forall lk ensures lk in s.lock <==> IsLock(g, lk) {
        match lk { case P(i) => case L(l) => }
      }
    }
    assert Procs(g, s) && Cpus(g, s);
    assert Pcs(g, s) && Family(g, s);
  }

  /** The state after a run of steps from s, each of which can be taken where it comes. */
  ghost function After(g: Config, s: State, run: seq<Step>): Option<State>
    decreases |run|
  {
    if !Shape(g, s) then None
    else if run == [] then Some(s)
    else
      var next := Do(g, s, run[0]);
      if next.Some? then After(g, next.value, run[1..]) else None
  }

  lemma {:induction false} RunKeeps(g: Config, s: State, run: seq<Step>)
    requires Inv(g, s) && After(g, s, run).Some?
    ensures Inv(g, After(g, s, run).value)
    decreases |run|
  {
    if run != [] {
      var next := Do(g, s, run[0]).value;
      StepKeeps(g, s, run[0], next);
      RunKeeps(g, next, run[1..]);
    }
  }

  /** States the machine can be in. */
  ghost predicate Reachable(g: Config, s: State) {
    g.Valid() && exists cond: seq<bool>, run: seq<Step> ::
        |cond| == |g.lockOf| && After(g, Boot(g, cond), run) == Some(s)
  }

  lemma ReachableInv(g: Config, s: State)
    requires Reachable(g, s)
    ensures Inv(g, s)
  {
    var cond: seq<bool>, run: seq<Step> :| |cond| == |g.lockOf| && After(g, Boot(g, cond), run) == Some(s);
    BootInv(g, cond);
    RunKeeps(g, Boot(g, cond), run);
  }
}
