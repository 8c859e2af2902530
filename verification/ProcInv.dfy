/** What every step of the process-table machine keeps. */
module ProcInv {
  import opened ProcMachine

  /** Which locks a thread holds at each point. */
  predicate Holds(g: Config, pc: Pc, p: nat, lk: Lock) {
    match pc
    case Forkret | Yielding(_) | Yielded(_) | Sleep3(_) | Asleep(_) | Exit4 | Exit9 => lk == P(p)
    case WScan(_, _) | WAcq(_, _) | WRel | WAsleep => lk == P(p)
    case Test(ch) => ch < |g.lockOf| && lk == L(g.lockOf[ch])
    case Sleep1(ch) => ch < |g.lockOf| && lk == L(g.lockOf[ch])
    case Sleep2(ch) => lk == P(p) || (ch < |g.lockOf| && lk == L(g.lockOf[ch]))
    case Wake(ch, _) => ch < |g.lockOf| && lk == L(g.lockOf[ch])
    case WakeL(ch, k) => lk == P(k) || (ch < |g.lockOf| && lk == L(g.lockOf[ch]))
    case ForkL(k) => lk == P(k)
    case Exit2 => lk == P(0)
    case Exit6(op) => lk == P(op)
    case Repar(op, _) => lk == P(op) || lk == P(p)
    case ReparA(op, _) => lk == P(op) || lk == P(p)
    case ReparL(op, k) => lk == P(op) || lk == P(p) || lk == P(k)
    case Exit8(op) => lk == P(op) || lk == P(p)
    case WL(k, _) => lk == P(p) || lk == P(k)
    case KillL(_, k) => lk == P(k)
    case _ => false
  }

  predicate CpuHolds(g: Config, s: State, c: nat, lk: Lock)
    requires c < |s.mode|
  {
    match s.mode[c]
    case Scan(_) => false
    case Locked(i) => lk == P(i)
    case Back(p) => lk == P(p)
    case Run(p) => p < |s.pc| && Holds(g, s.pc[p], p, lk)
  }

  predicate IntrHolds(g: Config, s: State, e: nat, lk: Lock)
    requires e < |s.ipc|
  {
    Holds(g, s.ipc[e], g.n, lk)
  }

  /** Locks are held exactly where the code says so. */
  ghost predicate LocksOk(g: Config, s: State)
    requires Shape(g, s)
  {
    && (forall c: nat, lk {:trigger CpuHolds(g, s, c, lk)} :: c < g.ncpu && lk in s.lock ==>
          (CpuHolds(g, s, c, lk) <==> s.lock[lk] == Cpu(c)))
    && (forall e: nat, lk {:trigger IntrHolds(g, s, e, lk)} :: e < g.nintr && lk in s.lock ==>
          (IntrHolds(g, s, e, lk) <==> s.lock[lk] == Intr(e)))
  }

  ghost predicate CpuOk(g: Config, s: State, c: nat)
    requires Shape(g, s) && c < g.ncpu
  {
    match s.mode[c]
    case Scan(i) => i < g.n && s.curr[c] == -1
    case Locked(i) => i < g.n && s.curr[c] == -1
    case Run(p) => p < g.n && s.curr[c] == p && s.at[p] == c
    case Back(p) => p < g.n && s.curr[c] == p && s.at[p] == -1
  }

  function ChanOf(pc: Pc, p: nat): Chan {
    match pc
    case Asleep(ch) => Cond(ch)
    case WAsleep => OfProc(p)
    case _ => NoChan
  }

  /** Points inside sched, and the start. */
  predicate Resumes(pc: Pc) { pc.Forkret? || pc.Yielded? || pc.Asleep? || pc.WAsleep? }

  /** A process's state says whether its thread is on a CPU, and where its thread is. */
  ghost predicate ProcOk(g: Config, s: State, p: nat)
    requires Shape(g, s) && p < g.n
  {
    StateFits(g, s, p) == true
  }

  ghost predicate StateFits(g: Config, s: State, p: nat)
    requires Shape(g, s) && p < g.n
  {
    var at, pc, q := s.at[p], s.pc[p], s.proc[p];
    && q.chan == ChanOf(pc, p)
    && (at == -1 || (0 <= at < g.ncpu && s.mode[at] == Run(p)))
    && match q.state
       case UNUSED => at == -1 && pc == Dead && q.parent == -1
       case SLEEPING => at == -1 && (pc.Asleep? || pc.WAsleep?)
       case RUNNABLE => at == -1 && Resumes(pc)
       case RUNNING => at >= 0 && pc != Dead && !pc.Exit8? && !pc.Exit9?
       case ZOMBIE => if at >= 0 then pc.Exit8? || pc.Exit9? else pc == Dead
  }

  /** q is p's child. */
  predicate ChildOf(s: State, q: nat, p: nat) {
    q < |s.proc| && s.proc[q].parent == p
  }

  /** original_parent is the parent, unless p has been given to init since. */
  predicate ParentIs(s: State, p: nat, op: nat) {
    p < |s.proc| && (s.proc[p].gave || s.proc[p].parent == op)
  }

  /** The same, for a point at which the thread was interrupted. */
  ghost predicate LocklessFits(g: Config, s: State, p: nat, pc: Pc)
    requires Shape(g, s) && p < g.n
  {
    match pc
    case Enter(ch) => ch < |g.lockOf|
    case Signal(ch) => ch < |g.lockOf|
    case Fork(k) => k <= g.n
    case Exit1 | Exit3 => p != 0
    case Exit5(op) => p != 0 && op < g.n && ParentIs(s, p, op)
    case Kill(_, k) => k <= g.n
    case _ => true
  }

  /** Where a thread is, its indices are in range and what it relies on is so. */
  ghost predicate PcOk(g: Config, s: State, p: nat)
    requires Shape(g, s) && p < g.n
  {
    PcFits(g, s, p) == true
  }

  ghost predicate PcFits(g: Config, s: State, p: nat)
    requires Shape(g, s) && p < g.n
  {
    match s.pc[p]
    case Yielding(to) => Lockless(to) && LocklessFits(g, s, p, to)
    case Yielded(to) => Lockless(to) && LocklessFits(g, s, p, to)
    case Enter(ch) => ch < |g.lockOf|
    case Test(ch) => ch < |g.lockOf|
    case Sleep1(ch) => ch < |g.lockOf|
    case Sleep2(ch) => ch < |g.lockOf|
    case Sleep3(ch) => ch < |g.lockOf|
    case Asleep(ch) => ch < |g.lockOf|
    case Signal(ch) => ch < |g.lockOf|
    case Wake(ch, k) => ch < |g.lockOf| && k <= g.n
    case WakeL(ch, k) => ch < |g.lockOf| && k < g.n
    case Fork(k) => k <= g.n
    case ForkL(k) => k < g.n
    case Exit1 | Exit2 | Exit3 | Exit4 => p != 0
    case Exit5(op) => p != 0 && op < g.n && ParentIs(s, p, op)
    case Exit6(op) => p != 0 && op < g.n && ParentIs(s, p, op)
    case Repar(op, k) => p != 0 && op < g.n && op != p && ParentIs(s, p, op) && k <= g.n
    case ReparA(op, k) => p != 0 && op < g.n && op != p && ParentIs(s, p, op) && ChildOf(s, k, p)
    case ReparL(op, k) =>
      p != 0 && op < g.n && op != p && ParentIs(s, p, op) && ChildOf(s, k, p) && k != op && k != p
    case Exit8(op) => p != 0 && op < g.n && op != p && ParentIs(s, p, op)
    case WScan(k, _) => k <= g.n
    case WAcq(k, _) => ChildOf(s, k, p)
    case WL(k, _) => ChildOf(s, k, p) && k != p
    case Kill(_, k) => k <= g.n
    case KillL(_, k) => k < g.n
    case _ => true
  }

  ghost predicate IntrOk(g: Config, s: State, e: nat)
    requires Shape(g, s) && e < g.nintr
  {
    match s.ipc[e]
    case User => true
    case Wake(ch, k) => ch < |g.lockOf| && k <= g.n
    case WakeL(ch, k) => ch < |g.lockOf| && k < g.n
    case _ => false
  }

  /** Parents are alive; one that exits has not passed over a child, and one that waits neither sleeps
      nor has passed over a child that is a zombie, if the child has always been its own. */
  ghost predicate FamilyOk(g: Config, s: State, q: nat)
    requires Shape(g, s) && q < g.n
  {
    var p := s.proc[q].parent;
    && -1 <= p < g.n && (q != 0 && s.proc[q].state != UNUSED ==> p >= 0)
    && (p >= 0 ==>
          && s.proc[p].state != UNUSED && s.proc[p].state != ZOMBIE
          && NotPassed(s.pc[p], q)
          && (s.proc[q].state == ZOMBIE && !s.proc[q].gave ==> SeesZombie(s.proc[p], s.pc[p], q)))
  }

  predicate NotPassed(pc: Pc, q: nat) {
    match pc
    case Repar(_, k) => k <= q
    case ReparA(_, k) => k <= q
    case ReparL(_, k) => k <= q
    case _ => true
  }

  predicate SeesZombie(parent: Proc, pc: Pc, q: nat) {
    match pc
    case WScan(k, _) => k <= q
    case WAcq(k, _) => k <= q
    case WL(k, _) => k <= q
    case WAsleep => parent.state != SLEEPING
    case _ => true
  }

  /** p has found the condition false and is asleep for it, or will be. */
  predicate Dozing(s: State, p: nat, ch: nat)
    requires p < |s.pc| && p < |s.proc|
  {
    match s.pc[p]
    case Sleep1(c) => c == ch
    case Sleep2(c) => c == ch
    case Sleep3(c) => c == ch
    case Asleep(c) => c == ch && s.proc[p].state == SLEEPING
    case _ => false
  }

  /** A wakeup for ch that has yet to come to p. */
  predicate WillWake(pc: Pc, ch: nat, p: nat) {
    match pc
    case Wake(c, k) => c == ch && k <= p
    case WakeL(c, k) => c == ch && k <= p
    case _ => false
  }

  /** Whoever holds the lock of ch is in such a wakeup. */
  predicate Coming(s: State, h: Holder, ch: nat, p: nat) {
    match h
    case Nobody => false
    case Cpu(c) => c < |s.mode| && s.mode[c].Run? && s.mode[c].p < |s.pc| && WillWake(s.pc[s.mode[c].p], ch, p)
    case Intr(e) => e < |s.ipc| && WillWake(s.ipc[e], ch, p)
  }

  /** Nobody sleeps through a condition that has become true. */
  ghost predicate WakeOk(g: Config, s: State, ch: nat, p: nat)
    requires Shape(g, s) && ch < |g.lockOf| && p < g.n
  {
    s.cond[ch] && Dozing(s, p, ch) ==> Coming(s, s.lock[L(g.lockOf[ch])], ch, p)
  }

  /** Pids are never used twice. */
  ghost predicate PidsOk(g: Config, s: State)
    requires Shape(g, s)
  {
    && s.nextpid > 0
    && (forall i: nat {:trigger s.proc[i]} :: i < g.n ==>
          s.proc[i].pid < s.nextpid && (s.proc[i].state != UNUSED ==> s.proc[i].pid > 0))
    && (forall i: nat, j: nat {:trigger s.proc[i], s.proc[j]} :: i < j < g.n && s.proc[i].pid > 0 ==>
          s.proc[i].pid != s.proc[j].pid)
    && (forall r: nat {:trigger s.reaped[r]} :: r < |s.reaped| ==> 0 < s.reaped[r] < s.nextpid)
    && (forall r: nat, i: nat {:trigger s.reaped[r], s.proc[i]} :: r < |s.reaped| && i < g.n ==>
        s.reaped[r] != s.proc[i].pid)
    && (forall r: nat, t: nat {:trigger s.reaped[r], s.reaped[t]} :: r < t < |s.reaped| ==> s.reaped[r] != s.reaped[t])
  }

  ghost predicate Cpus(g: Config, s: State)
    requires Shape(g, s)
  {
    forall c: nat {:trigger CpuOk(g, s, c)} :: c < g.ncpu ==> CpuOk(g, s, c)
  }

  ghost predicate Procs(g: Config, s: State)
    requires Shape(g, s)
  {
    forall p: nat {:trigger ProcOk(g, s, p)} :: p < g.n ==> ProcOk(g, s, p)
  }

  ghost predicate Pcs(g: Config, s: State)
    requires Shape(g, s)
  {
    && (forall p: nat {:trigger PcOk(g, s, p)} :: p < g.n ==> PcOk(g, s, p))
    && (forall e: nat {:trigger IntrOk(g, s, e)} :: e < g.nintr ==> IntrOk(g, s, e))
  }

  ghost predicate Family(g: Config, s: State)
    requires Shape(g, s)
  {
    && (forall q: nat {:trigger FamilyOk(g, s, q)} :: q < g.n ==> FamilyOk(g, s, q))
    && s.proc[0].state != UNUSED && s.proc[0].state != ZOMBIE
  }

  ghost predicate Wakes(g: Config, s: State)
    requires Shape(g, s)
  {
    forall ch: nat, p: nat {:trigger WakeOk(g, s, ch, p)} :: ch < |g.lockOf| && p < g.n ==> WakeOk(g, s, ch, p)
  }

  // Predicates with many cases are compared with true, so that they enter proofs as single facts.

  ghost predicate Everything(g: Config, s: State) {
    && Shape(g, s) && Cpus(g, s) && Procs(g, s) && Pcs(g, s)
    && Family(g, s) && Wakes(g, s) && LocksOk(g, s) && PidsOk(g, s)
  }

  ghost predicate Inv(g: Config, s: State) {
    Everything(g, s) == true
  }

  /** p's thread is running on CPU c. */
  ghost predicate Running(g: Config, s: State, c: nat, p: nat) {
    Inv(g, s) && c < g.ncpu && p < g.n && s.mode[c] == Run(p)
  }

  // ---------------------------------------------------------------------------------
  // Steps that only take or drop a lock and move on.

  datatype LockOp = Stay | Take(lk: Lock) | Drop(lk: Lock)

  function AfterOp(lock: map<Lock, Holder>, h: Holder, op: LockOp): map<Lock, Holder> {
    match op
    case Stay => lock
    case Take(lk) => lock[lk := h]
    case Drop(lk) => lock[lk := Nobody]
  }

  function Moved(s: State, c: nat, p: nat, op: LockOp, pc: Pc): State
    requires p < |s.pc| && p < |s.proc|
  {
    s.(pc := s.pc[p := pc], proc := s.proc[p := s.proc[p].(chan := NoChan)], lock := AfterOp(s.lock, Cpu(c), op))
  }

  /** The lock operation is what the two points in the code call for. */
  ghost predicate LockMove(g: Config, s: State, pc: Pc, p: nat, op: LockOp, pc': Pc) {
    OpFits(g, s, pc, p, op, pc') == true
  }

  ghost predicate OpFits(g: Config, s: State, pc: Pc, p: nat, op: LockOp, pc': Pc) {
    match op
    case Stay => forall lk :: Holds(g, pc', p, lk) <==> Holds(g, pc, p, lk)
    case Take(k) =>
      k in s.lock && s.lock[k] == Nobody && forall lk :: Holds(g, pc', p, lk) <==> Holds(g, pc, p, lk) || lk == k
    case Drop(k) =>
      k in s.lock && Holds(g, pc, p, k) && forall lk :: Holds(g, pc', p, lk) <==> Holds(g, pc, p, lk) && lk != k
  }

  lemma MovedLocks(g: Config, s: State, c: nat, p: nat, op: LockOp, pc: Pc)
    requires Shape(g, s) && Cpus(g, s) && LocksOk(g, s) && c < g.ncpu && p < g.n && s.mode[c] == Run(p)
    requires LockMove(g, s, s.pc[p], p, op, pc)
    ensures Shape(g, Moved(s, c, p, op, pc)) && LocksOk(g, Moved(s, c, p, op, pc))
  {
    var s' := Moved(s, c, p, op, pc);
    assert CpuOk(g, s, c);
    forall c': nat, lk | c' < g.ncpu && lk in s'.lock ensures CpuHolds(g, s', c', lk) <==> s'.lock[lk] == Cpu(c') {
      assert CpuHolds(g, s, c', lk) <==> s.lock[lk] == Cpu(c');
      assert CpuHolds(g, s, c, lk) <==> s.lock[lk] == Cpu(c);
      assert CpuOk(g, s, c');
    }
    forall e: nat, lk | e < g.nintr && lk in s'.lock ensures IntrHolds(g, s', e, lk) <==> s'.lock[lk] == Intr(e) {
      assert IntrHolds(g, s, e, lk) <==> s.lock[lk] == Intr(e);
      assert CpuHolds(g, s, c, lk) <==> s.lock[lk] == Cpu(c);
    }
  }

  /** What a thread relies on is still so, if parents are what they were. */
  lemma PcSame(g: Config, s: State, s': State, q: nat)
    requires Shape(g, s) && Shape(g, s') && q < g.n && PcOk(g, s, q) && s'.pc[q] == s.pc[q]
    requires forall j: nat {:trigger s'.proc[j]} :: j < g.n ==>
               s'.proc[j].parent == s.proc[j].parent && s'.proc[j].gave == s.proc[j].gave
    ensures PcOk(g, s', q)
  {
    var x := s'.proc[q];
    match s.pc[q] {
      case ReparA(_, k) => if k < g.n { x := s'.proc[k]; }
      case ReparL(_, k) => if k < g.n { x := s'.proc[k]; }
      case WAcq(k, _) => if k < g.n { x := s'.proc[k]; }
      case WL(k, _) => if k < g.n { x := s'.proc[k]; }
      case _ =>
    }
  }

  lemma MovedProcs(g: Config, s: State, c: nat, p: nat, op: LockOp, pc: Pc)
    requires Shape(g, s) && Cpus(g, s) && Procs(g, s) && Pcs(g, s) && c < g.ncpu && p < g.n && s.mode[c] == Run(p)
    requires Shape(g, Moved(s, c, p, op, pc))
    requires ProcOk(g, Moved(s, c, p, op, pc), p) && PcOk(g, Moved(s, c, p, op, pc), p)
    ensures Cpus(g, Moved(s, c, p, op, pc)) && Procs(g, Moved(s, c, p, op, pc)) && Pcs(g, Moved(s, c, p, op, pc))
  {
    hide PcFits;
    var s' := Moved(s, c, p, op, pc);
    forall c': nat | c' < g.ncpu ensures CpuOk(g, s', c') { assert CpuOk(g, s, c'); }
    forall q: nat | q < g.n ensures ProcOk(g, s', q) && PcOk(g, s', q) {
      assert ProcOk(g, s, q) && PcOk(g, s, q);
      if q != p { PcSame(g, s, s', q); }
    }
    forall e: nat | e < g.nintr ensures IntrOk(g, s', e) { assert IntrOk(g, s, e); }
  }

  /** The children of a moving parent are still ahead of it. */
  ghost predicate AheadOf(g: Config, s: State, p: nat, pc: Pc)
    requires Shape(g, s) && p < g.n
  {
    forall q: nat {:trigger s.proc[q]} :: q < g.n && s.proc[q].parent == p ==>
      && NotPassed(pc, q)
      && (s.proc[q].state == ZOMBIE && !s.proc[q].gave ==> SeesZombie(s.proc[p], pc, q))
  }

  lemma MovedFamily(g: Config, s: State, c: nat, p: nat, op: LockOp, pc: Pc)
    requires Shape(g, s) && Family(g, s) && p < g.n && Shape(g, Moved(s, c, p, op, pc)) && AheadOf(g, s, p, pc)
    ensures Family(g, Moved(s, c, p, op, pc))
  {
    var s' := Moved(s, c, p, op, pc);
    forall q: nat | q < g.n ensures FamilyOk(g, s', q) { assert FamilyOk(g, s, q); }
  }

  /** No sleeper is forgotten by a move: p does not set out to sleep on a condition that is true, and
      a wakeup neither steps over a sleeper nor lets go of the lock before it has come to all. */
  ghost predicate NoneMissed(g: Config, s: State, p: nat, op: LockOp, pc: Pc)
    requires Shape(g, s) && p < g.n
  {
    && (forall ch: nat {:trigger Dozing(s, p, ch)} ::
        ch < |g.lockOf| && s.cond[ch] && Dozing(SetPc(s, p, pc), p, ch) ==> Dozing(s, p, ch))
    && (forall ch: nat, q: nat {:trigger WillWake(s.pc[p], ch, q)} ::
          ch < |g.lockOf| && q < g.n && Dozing(s, q, ch) && WillWake(s.pc[p], ch, q) ==>
            WillWake(pc, ch, q) && op != Drop(L(g.lockOf[ch])))
  }

  lemma MovedWake(g: Config, s: State, c: nat, p: nat, op: LockOp, pc: Pc, ch: nat, q: nat)
    requires Shape(g, s) && Cpus(g, s) && Wakes(g, s) && LocksOk(g, s) && c < g.ncpu && p < g.n && s.mode[c] == Run(p)
    requires LockMove(g, s, s.pc[p], p, op, pc) && Shape(g, Moved(s, c, p, op, pc)) && NoneMissed(g, s, p, op, pc)
    requires ch < |g.lockOf| && q < g.n && s.cond[ch] && Dozing(Moved(s, c, p, op, pc), q, ch)
    ensures Coming(Moved(s, c, p, op, pc), Moved(s, c, p, op, pc).lock[L(g.lockOf[ch])], ch, q)
  {
    var s' := Moved(s, c, p, op, pc);
    var lk := L(g.lockOf[ch]);
    assert Dozing(s, q, ch);
    assert WakeOk(g, s, ch, q);
    assert CpuOk(g, s, c);
    assert CpuHolds(g, s, c, lk) <==> s.lock[lk] == Cpu(c);
    if s.lock[lk] == Cpu(c) {
      assert WillWake(s.pc[p], ch, q);
    } else {
      assert s'.lock[lk] == s.lock[lk];
      assert s.lock[lk].Cpu? ==> CpuOk(g, s, s.lock[lk].c);
    }
  }

  lemma MovedWakes(g: Config, s: State, c: nat, p: nat, op: LockOp, pc: Pc)
    requires Shape(g, s) && Cpus(g, s) && Wakes(g, s) && LocksOk(g, s) && c < g.ncpu && p < g.n && s.mode[c] == Run(p)
    requires LockMove(g, s, s.pc[p], p, op, pc) && Shape(g, Moved(s, c, p, op, pc)) && NoneMissed(g, s, p, op, pc)
    ensures Wakes(g, Moved(s, c, p, op, pc))
  {
    var s' := Moved(s, c, p, op, pc);
    forall ch: nat, q: nat | ch < |g.lockOf| && q < g.n ensures WakeOk(g, s', ch, q) {
      if s'.cond[ch] && Dozing(s', q, ch) { MovedWake(g, s, c, p, op, pc, ch, q); }
    }
  }

  lemma MovedPids(g: Config, s: State, c: nat, p: nat, op: LockOp, pc: Pc)
    requires Shape(g, s) && PidsOk(g, s) && p < g.n && Shape(g, Moved(s, c, p, op, pc))
    ensures PidsOk(g, Moved(s, c, p, op, pc))
  {
    var s' := Moved(s, c, p, op, pc);
    assert forall i: nat {:trigger s'.proc[i]} :: i < g.n ==>
             s'.proc[i].pid == s.proc[i].pid && s'.proc[i].state == s.proc[i].state;
  }

  lemma MoveKeeps(g: Config, s: State, c: nat, p: nat, op: LockOp, pc: Pc)
    requires Running(g, s, c, p) && LockMove(g, s, s.pc[p], p, op, pc)
    requires Shape(g, Moved(s, c, p, op, pc)) ==>
               ProcOk(g, Moved(s, c, p, op, pc), p) && PcOk(g, Moved(s, c, p, op, pc), p)
    requires AheadOf(g, s, p, pc) && NoneMissed(g, s, p, op, pc)
    ensures Inv(g, Moved(s, c, p, op, pc))
  {
    MovedLocks(g, s, c, p, op, pc);
    MovedProcs(g, s, c, p, op, pc);
    MovedFamily(g, s, c, p, op, pc);
    MovedWakes(g, s, c, p, op, pc);
    MovedPids(g, s, c, p, op, pc);
  }

  // ---------------------------------------------------------------------------------
  // Writes that need no move.

  /** wakeup, wakeup1 or kill changing a sleeper's state. */
  lemma WokenKeeps(g: Config, s: State, k: nat)
    requires Inv(g, s) && k < g.n && s.proc[k].state == SLEEPING
    ensures Inv(g, SetProc(s, k, s.proc[k].(state := RUNNABLE)))
  {
    var s' := SetProc(s, k, s.proc[k].(state := RUNNABLE));
    StateKeeps(g, s, s', k);
  }

  lemma KilledKeeps(g: Config, s: State, k: nat)
    requires Inv(g, s) && k < g.n
    ensures Inv(g, SetProc(s, k, Killed(s.proc[k])))
  {
    StateKeeps(g, s, SetProc(s, k, Killed(s.proc[k])), k);
  }

  /** Making a sleeper runnable, or setting killed, changes nothing that matters. */
  lemma StateKeeps(g: Config, s: State, s': State, k: nat)
    requires Inv(g, s) && k < g.n && |s'.proc| == |s.proc| && s' == SetProc(s, k, s'.proc[k])
    requires s'.proc[k] == s.proc[k].(state := s'.proc[k].state, killed := s'.proc[k].killed)
    requires s'.proc[k].state == s.proc[k].state || (s.proc[k].state == SLEEPING && s'.proc[k].state == RUNNABLE)
    ensures Inv(g, s')
  {
    assert ProcOk(g, s, k);
    StateLocks(g, s, s', k);
    StateProcs(g, s, s', k);
    StateFamily(g, s, s', k);
    StateWakes(g, s, s', k);
    assert forall i: nat {:trigger s'.proc[i]} :: i < g.n ==> s'.proc[i].pid == s.proc[i].pid;
    assert PidsOk(g, s');
  }

  lemma StateLocks(g: Config, s: State, s': State, k: nat)
    requires Shape(g, s) && LocksOk(g, s) && k < g.n && |s'.proc| == |s.proc| && s' == SetProc(s, k, s'.proc[k])
    ensures Shape(g, s') && LocksOk(g, s')
  {
    forall c: nat, lk | c < g.ncpu && lk in s'.lock ensures CpuHolds(g, s', c, lk) <==> s'.lock[lk] == Cpu(c) {
      assert CpuHolds(g, s, c, lk) <==> s.lock[lk] == Cpu(c);
    }
    forall e: nat, lk | e < g.nintr && lk in s'.lock ensures IntrHolds(g, s', e, lk) <==> s'.lock[lk] == Intr(e) {
      assert IntrHolds(g, s, e, lk) <==> s.lock[lk] == Intr(e);
    }
  }

  lemma StateProcs(g: Config, s: State, s': State, k: nat)
    requires Shape(g, s) && Cpus(g, s) && Procs(g, s) && Pcs(g, s) && Shape(g, s')
    requires k < g.n && s' == SetProc(s, k, s'.proc[k]) && ProcOk(g, s', k)
    requires s'.proc[k].parent == s.proc[k].parent && s'.proc[k].gave == s.proc[k].gave
    ensures Cpus(g, s') && Procs(g, s') && Pcs(g, s')
  {
    hide PcFits;
    forall c: nat | c < g.ncpu ensures CpuOk(g, s', c) { assert CpuOk(g, s, c); }
    forall q: nat | q < g.n ensures ProcOk(g, s', q) && PcOk(g, s', q) {
      assert ProcOk(g, s, q) && PcOk(g, s, q);
      PcSame(g, s, s', q);
    }
    forall e: nat | e < g.nintr ensures IntrOk(g, s', e) { assert IntrOk(g, s, e); }
  }

  lemma StateFamily(g: Config, s: State, s': State, k: nat)
    requires Shape(g, s) && Family(g, s) && k < g.n && |s'.proc| == |s.proc| && s' == SetProc(s, k, s'.proc[k])
             && Shape(g, s')
    requires s'.proc[k] == s.proc[k].(state := s'.proc[k].state, killed := s'.proc[k].killed)
    requires s'.proc[k].state == s.proc[k].state || (s.proc[k].state == SLEEPING && s'.proc[k].state == RUNNABLE)
    ensures Family(g, s')
  {
    forall q: nat | q < g.n ensures FamilyOk(g, s', q) { assert FamilyOk(g, s, q); }
  }

  lemma StateWakes(g: Config, s: State, s': State, k: nat)
    requires Shape(g, s) && Wakes(g, s) && k < g.n && |s'.proc| == |s.proc| && s' == SetProc(s, k, s'.proc[k])
             && Shape(g, s')
    requires s'.proc[k].state == SLEEPING ==> s.proc[k].state == SLEEPING
    ensures Wakes(g, s')
  {
    forall ch: nat, q: nat | ch < |g.lockOf| && q < g.n ensures WakeOk(g, s', ch, q) { assert WakeOk(g, s, ch, q); }
  }
}
