/** How the entries of the process table change: who may change one, what for, and under which lock
    (kernel/proc.c, and the notes on p->lock in kernel/proc.h). */
module ProcChanges {
  import opened ProcMachine
  import opened ProcInv
  import opened ProcRuns

  /** The process whose thread takes the step, if it is a thread's. */
  ghost function Actor(g: Config, s: State, a: Step): Option<nat> {
    if a.Thread? && a.c < |s.mode| && s.mode[a.c].Run? then Some(s.mode[a.c].p) else None
  }

  ghost predicate Awoken(q: Proc, q': Proc, chan: Chan) {
    q.state == SLEEPING && q.chan == chan && q' == Proc(RUNNABLE, chan, q.parent, q.pid, q.killed, q.gave)
  }

  /** In exit, once its own lock has been dropped with the parent read under it. */
  ghost predicate KnowsParent(pc: Pc) {
    || pc.Exit5? || pc.Exit6? || pc.Repar? || pc.ReparA? || pc.ReparL? || pc.Exit8?
    || ((pc.Yielding? || pc.Yielded?) && pc.to.Exit5?)
  }

  /** What a thread of process p does to slot i where it changes it. */
  ghost predicate ThreadChanges(g: Config, s: State, p: nat, x: Choice, s': State, i: nat)
    requires p < |s.pc| && i < |s.pc| && i < |s.proc| && i < |s'.proc|
  {
    var q, q' := s.proc[i], s'.proc[i];
    match s.pc[p]
    case Yielding(_) => i == p && q' == Proc(RUNNABLE, q.chan, q.parent, q.pid, q.killed, q.gave)
    case Sleep3(ch) => i == p && q' == Proc(SLEEPING, Cond(ch), q.parent, q.pid, q.killed, q.gave)
    case Asleep(_) => i == p && q' == Proc(q.state, NoChan, q.parent, q.pid, q.killed, q.gave)
    case WAsleep => i == p && q' == Proc(q.state, NoChan, q.parent, q.pid, q.killed, q.gave)
    case WakeL(ch, k) => i == k && Awoken(q, q', Cond(ch))
    case ForkL(k) =>
      && i == k && q.state == UNUSED && s'.nextpid == s.nextpid + 1
      && q' == if x == Fail then Proc(UNUSED, q.chan, q.parent, s.nextpid, q.killed, q.gave)
               else if x == Fail2 then Proc(UNUSED, NoChan, -1, 0, false, false)
               else Proc(RUNNABLE, q.chan, p, s.nextpid, q.killed, false)
    case Exit2 => i == 0 && Awoken(q, q', OfProc(0))
    case Repar(op, k) =>
      && k >= g.n
      && if i == p then q'.state == ZOMBIE && q'.(state := q.state) == q else i == op && Awoken(q, q', OfProc(op))
    case ReparL(_, k) =>
      && i == k && q' == Proc(q.state, q.chan, 0, q.pid, q.killed, q'.gave)
      && (q'.gave <==> q.gave || q.state == ZOMBIE || KnowsParent(s.pc[i]))
    case WScan(k, have) =>
      i == p && k >= g.n && have && !q.killed && q' == Proc(SLEEPING, OfProc(p), q.parent, q.pid, q.killed, q.gave)
    case WL(k, _) => i == k && q.state == ZOMBIE && q' == Proc(UNUSED, NoChan, -1, 0, false, false)
    case KillL(pid, k) =>
      && i == k && q.pid == pid && q'.killed && q'.(killed := q.killed, state := q.state) == q
      && q'.state == if q.state == SLEEPING then RUNNABLE else q.state
    case _ => false
  }

  /** What a step does to slot i where it changes it. */
  ghost predicate Changes(g: Config, s: State, a: Step, s': State, i: nat)
    requires Shape(g, s) && i < g.n && i < |s'.proc|
  {
    var q, q' := s.proc[i], s'.proc[i];
    match a
    case Sched(c) =>
      && c < g.ncpu && s.mode[c] == Locked(i) && q.state == RUNNABLE
      && q' == Proc(RUNNING, q.chan, q.parent, q.pid, q.killed, q.gave)
    case Device(e, _) => e < g.nintr && s.ipc[e].WakeL? && i == s.ipc[e].k && Awoken(q, q', Cond(s.ipc[e].ch))
    case Thread(c, x) =>
      c < g.ncpu && s.mode[c].Run? && s.mode[c].p < g.n && ThreadChanges(g, s, s.mode[c].p, x, s', i)
  }

  lemma SchedChanges(g: Config, s: State, c: nat, s': State, i: nat)
    requires Shape(g, s) && c < g.ncpu && SchedStep(g, s, c) == Some(s') && i < g.n
    ensures |s'.proc| == g.n && (s'.proc[i] == s.proc[i] || Changes(g, s, Sched(c), s', i))
  {
  }

  lemma DeviceChanges(g: Config, s: State, e: nat, ch: nat, s': State, i: nat)
    requires Shape(g, s) && e < g.nintr && IntrStep(g, s, e, ch) == Some(s') && i < g.n
    ensures |s'.proc| == g.n && (s'.proc[i] == s.proc[i] || Changes(g, s, Device(e, ch), s', i))
  {
  }

  /** A thread that is to take a step, and what can be said of slot i after it. */
  ghost predicate Changed(g: Config, s: State, p: nat, x: Choice, s': State, i: nat) {
    && p < |s.pc| && i < |s.pc| && i < |s.proc| == |s'.proc|
    && (s'.proc[i] == s.proc[i] || ThreadChanges(g, s, p, x, s', i))
  }

  lemma UserChanges(g: Config, s: State, c: nat, p: nat, x: Choice, s': State, i: nat)
    requires Shape(g, s) && c < g.ncpu && p < g.n && i < g.n && UserStep(g, s, c, p, x) == Some(s')
    ensures Changed(g, s, p, x, s', i)
  {
    hide ThreadChanges;
  }

  lemma SleepChanges(g: Config, s: State, c: nat, p: nat, x: Choice, s': State, i: nat)
    requires Shape(g, s) && c < g.ncpu && p < g.n && i < g.n && SleepStep(g, s, c, p, x) == Some(s')
    ensures Changed(g, s, p, x, s', i)
  {
  }

  lemma WakeChanges(g: Config, s: State, c: nat, p: nat, x: Choice, s': State, i: nat)
    requires Shape(g, s) && c < g.ncpu && p < g.n && i < g.n && WakeStep(g, s, c, p) == Some(s')
    ensures Changed(g, s, p, x, s', i)
  {
  }

  lemma ForkChanges(g: Config, s: State, c: nat, p: nat, x: Choice, s': State, i: nat)
    requires Shape(g, s) && c < g.ncpu && p < g.n && i < g.n && ForkStep(g, s, c, p, x) == Some(s')
    ensures Changed(g, s, p, x, s', i)
  {
  }

  lemma DeathChanges(g: Config, s: State, c: nat, p: nat, x: Choice, s': State, i: nat)
    requires Shape(g, s) && c < g.ncpu && p < g.n && i < g.n && ExitStep(g, s, c, p) == Some(s')
    requires s.pc[p].Exit2? || s.pc[p].Repar? || s.pc[p].Exit9?
    ensures Changed(g, s, p, x, s', i)
  {
    match s.pc[p]
    case Exit2 => assert s'.proc == s.proc[0 := Woken(s.proc[0], OfProc(0))];
    case Repar(op, k) =>
      if k >= g.n {
        var w := s.proc[op := Woken(s.proc[op], OfProc(op))];
        assert s'.proc == w[p := w[p].(state := ZOMBIE)];
      }
    case Exit9 => assert s'.proc == s.proc[p := s.proc[p]];
    case _ =>
  }

  lemma ExitChanges(g: Config, s: State, c: nat, p: nat, x: Choice, s': State, i: nat)
    requires Shape(g, s) && c < g.ncpu && p < g.n && i < g.n && ExitStep(g, s, c, p) == Some(s')
    ensures Changed(g, s, p, x, s', i)
  {
    if s.pc[p].Exit2? || s.pc[p].Repar? || s.pc[p].Exit9? {
      hide ExitStep, Changed;
      DeathChanges(g, s, c, p, x, s', i);
    } else {
      hide Woken;
      if s.pc[p].ReparL? { assert s'.proc == s.proc[s.pc[p].k := Given(s.proc[s.pc[p].k], s.pc[s.pc[p].k])]; }
    }
  }

  lemma WaitChanges(g: Config, s: State, c: nat, p: nat, x: Choice, s': State, i: nat)
    requires Shape(g, s) && c < g.ncpu && p < g.n && i < g.n && WaitStep(g, s, c, p, x) == Some(s')
    ensures Changed(g, s, p, x, s', i)
  {
  }

  lemma KillChanges(g: Config, s: State, c: nat, p: nat, x: Choice, s': State, i: nat)
    requires Shape(g, s) && c < g.ncpu && p < g.n && i < g.n && KillStep(g, s, c, p) == Some(s')
    ensures Changed(g, s, p, x, s', i)
  {
  }

  lemma AnyThreadChanges(g: Config, s: State, c: nat, p: nat, x: Choice, s': State, i: nat)
    requires Shape(g, s) && c < g.ncpu && p < g.n && i < g.n && ThreadStep(g, s, c, p, x) == Some(s')
    ensures Changed(g, s, p, x, s', i)
  {
    hide ThreadChanges;
    if x == DoYield { return; }
    hide Changed, UserStep, SleepStep, WakeStep, ForkStep, ExitStep, WaitStep, KillStep;
    match PartOf(s.pc[p])
    case AtUser => UserChanges(g, s, c, p, x, s', i);
    case AtSleep => SleepChanges(g, s, c, p, x, s', i);
    case AtWake => WakeChanges(g, s, c, p, x, s', i);
    case AtFork => ForkChanges(g, s, c, p, x, s', i);
    case AtExit => ExitChanges(g, s, c, p, x, s', i);
    case AtWait => WaitChanges(g, s, c, p, x, s', i);
    case AtKill => KillChanges(g, s, c, p, x, s', i);
  }

  /** A slot changes only for these reasons and in these ways. */
  lemma StepChanges(g: Config, s: State, a: Step, s': State, i: nat)
    requires Shape(g, s) && Do(g, s, a) == Some(s') && i < g.n
    ensures |s'.proc| == g.n && (s'.proc[i] == s.proc[i] || Changes(g, s, a, s', i))
  {
    hide SchedStep, ThreadStep, IntrStep, ThreadChanges;
    match a
    case Sched(c) => SchedChanges(g, s, c, s', i);
    case Thread(c, x) => AnyThreadChanges(g, s, c, s.mode[c].p, x, s', i);
    case Device(e, ch) => DeviceChanges(g, s, e, ch, s', i);
  }

  /** The lock's holder, if the step changes what the lock protects. */
  ghost function By(a: Step): Holder {
    match a
    case Sched(c) => Cpu(c)
    case Thread(c, _) => Cpu(c)
    case Device(e, _) => Intr(e)
  }

  /** Whatever changes a slot holds its lock. */
  lemma WriterHoldsLock(g: Config, s: State, a: Step, s': State, i: nat)
    requires Reachable(g, s) && Shape(g, s) && Do(g, s, a) == Some(s') && i < g.n
    ensures |s'.proc| == g.n && (s'.proc[i] != s.proc[i] ==> s.lock[P(i)] == By(a))
  {
    hide Do, Reachable;
    ReachableInv(g, s);
    StepChanges(g, s, a, s', i);
    if s'.proc[i] != s.proc[i] { ChangerHolds(g, s, a, s', i); }
  }

  lemma ChangerHolds(g: Config, s: State, a: Step, s': State, i: nat)
    requires Inv(g, s) && Shape(g, s) && i < g.n && |s'.proc| == g.n && Changes(g, s, a, s', i)
    ensures s.lock[P(i)] == By(a)
  {
    match a
    case Sched(c) => assert CpuHolds(g, s, c, P(i)) <==> s.lock[P(i)] == Cpu(c);
    case Device(e, _) => assert IntrHolds(g, s, e, P(i)) <==> s.lock[P(i)] == Intr(e);
    case Thread(c, x) => {
      var p := s.mode[c].p;
      assert CpuHolds(g, s, c, P(i)) <==> s.lock[P(i)] == Cpu(c);
      assert Holds(g, s.pc[p], p, P(i));
    }
  }

  /** A thread moves on only by its own step, or as that of a new process. */
  ghost predicate PcStays(g: Config, s: State, a: Step, s': State, p: nat) {
    && p < |s.pc| == |s'.pc|
    && (s'.pc[p] == s.pc[p] || Actor(g, s, a) == Some(p) || s'.pc[p] == Forkret)
  }

  lemma SleepPcs(g: Config, s: State, c: nat, p: nat, x: Choice, s': State, q: nat)
    requires Shape(g, s) && c < g.ncpu && p < g.n && SleepStep(g, s, c, p, x) == Some(s') && q < g.n
    ensures |s'.pc| == |s.pc| && (q != p ==> s'.pc[q] == s.pc[q])
  {
  }

  lemma ExitPcs(g: Config, s: State, c: nat, p: nat, s': State, q: nat)
    requires Shape(g, s) && c < g.ncpu && p < g.n && ExitStep(g, s, c, p) == Some(s') && q < g.n
    ensures |s'.pc| == |s.pc| && (q != p ==> s'.pc[q] == s.pc[q])
  {
    hide Given, Woken;
  }

  lemma WaitPcs(g: Config, s: State, c: nat, p: nat, x: Choice, s': State, q: nat)
    requires Shape(g, s) && c < g.ncpu && p < g.n && WaitStep(g, s, c, p, x) == Some(s') && q < g.n
    ensures |s'.pc| == |s.pc| && (q != p ==> s'.pc[q] == s.pc[q])
  {
  }

  lemma ForkPcs(g: Config, s: State, c: nat, p: nat, x: Choice, s': State, q: nat)
    requires Shape(g, s) && c < g.ncpu && p < g.n && ForkStep(g, s, c, p, x) == Some(s') && q < g.n
    ensures |s'.pc| == |s.pc| && (q != p ==> s'.pc[q] == s.pc[q] || s'.pc[q] == Forkret)
  {
  }

  lemma ThreadPcs(g: Config, s: State, c: nat, p: nat, x: Choice, s': State, q: nat)
    requires Shape(g, s) && c < g.ncpu && p < g.n && ThreadStep(g, s, c, p, x) == Some(s') && q < g.n
    ensures |s'.pc| == |s.pc| && (q != p ==> s'.pc[q] == s.pc[q] || s'.pc[q] == Forkret)
  {
    hide SleepStep, ForkStep, ExitStep, WaitStep, Lockless;
    if x == DoYield { return; }
    match PartOf(s.pc[p])
    case AtSleep => SleepPcs(g, s, c, p, x, s', q);
    case AtFork => ForkPcs(g, s, c, p, x, s', q);
    case AtExit => ExitPcs(g, s, c, p, s', q);
    case AtWait => WaitPcs(g, s, c, p, x, s', q);
    case _ =>
  }

  lemma StepPcs(g: Config, s: State, a: Step, s': State, q: nat)
    requires Shape(g, s) && Do(g, s, a) == Some(s') && q < g.n
    ensures PcStays(g, s, a, s', q)
  {
    hide ThreadStep;
    if a.Thread? { ThreadPcs(g, s, a.c, s.mode[a.c].p, a.x, s', q); }
  }

  // ---------------------------------------------------------------------------------
  // The scheduler.

  /** The slot that CPU c has come to. */
  ghost function Turn(m: Mode): nat {
    match m
    case Scan(i) => i
    case Locked(i) => i
    case Run(p) => p
    case Back(p) => p
  }

  /** CPU c goes on to the next slot, round about, only with the lock of its slot in hand, either because the
      process there is not RUNNABLE or because it has run and is off the CPU again; one that it finds RUNNABLE it
      runs; and otherwise it stays at its slot. */
  ghost predicate TurnOk(g: Config, s: State, a: Step, s': State, c: nat)
    requires Shape(g, s)
  {
    && c < g.ncpu && c < |s'.mode| && c < |s'.curr| && |s'.proc| == |s'.at| == g.n
    && var i, i' := Turn(s.mode[c]), Turn(s'.mode[c]);
    && i < g.n
    && (if s'.mode[c].Scan? && !s.mode[c].Scan? then
          && i' == (i + 1) % g.n && a == Sched(c) && s.lock[P(i)] == Cpu(c) && s'.lock == s.lock[P(i) := Nobody]
          && (if s.mode[c] == Locked(i) then s.proc[i].state != RUNNABLE else s.at[i] == -1)
        else i' == i)
    && (a == Sched(c) && s.mode[c] == Locked(i) && s.proc[i].state == RUNNABLE ==>
          && s'.mode[c] == Run(i) && s'.curr[c] == i && s'.at[i] == c && s'.proc[i].state == RUNNING
          && s'.lock == s.lock)
  }

  lemma SchedTurn(g: Config, s: State, d: nat, s': State, c: nat)
    requires Shape(g, s) && d < g.ncpu && SchedStep(g, s, d) == Some(s') && c < g.ncpu && CpuOk(g, s, c)
    requires !s.mode[c].Scan? && !s.mode[c].Run? ==> s.lock[P(Turn(s.mode[c]))] == Cpu(c)
    ensures TurnOk(g, s, Sched(d), s', c)
  {
    var i := Turn(s.mode[c]);
    assert Next(g, i) == (i + 1) % g.n;
  }

  lemma HandInHand(g: Config, s: State, c: nat)
    requires Inv(g, s) && c < g.ncpu
    ensures CpuOk(g, s, c) && (!s.mode[c].Scan? && !s.mode[c].Run? ==> s.lock[P(Turn(s.mode[c]))] == Cpu(c))
  {
    assert CpuOk(g, s, c);
    var lk := P(Turn(s.mode[c]));
    assert CpuHolds(g, s, c, lk) <==> s.lock[lk] == Cpu(c);
  }

  /** So it is, whatever step is taken. */
  lemma TakesTurns(g: Config, s: State, a: Step, s': State, c: nat)
    requires Reachable(g, s) && Shape(g, s) && Do(g, s, a) == Some(s') && c < g.ncpu
    ensures TurnOk(g, s, a, s', c)
  {
    hide Reachable, Inv, SchedStep, ThreadStep;
    ReachableInv(g, s);
    HandInHand(g, s, c);
    match a
    case Sched(d) => SchedTurn(g, s, d, s', c);
    case Thread(d, x) => {
      ThreadModes(g, s, d, s.mode[d].p, x, s', c);
      StepKeeps(g, s, a, s');
      ShapeOf(g, s');
    }
    case Device(e, ch) =>
  }

  lemma ShapeOf(g: Config, s: State)
    requires Inv(g, s)
    ensures Shape(g, s)
  {
  }

  /** A thread only ever leaves its own CPU, to the scheduler there. */
  lemma ThreadModes(g: Config, s: State, d: nat, p: nat, x: Choice, s': State, c: nat)
    requires Shape(g, s) && d < g.ncpu && p < g.n && s.mode[d] == Run(p) && ThreadStep(g, s, d, p, x) == Some(s')
    requires c < g.ncpu
    ensures |s'.mode| == g.ncpu && (s'.mode[c] == s.mode[c] || (c == d && s'.mode[c] == Back(p)))
  {
    hide SleepStep, ExitStep, WaitStep, ForkStep;
    if x == DoYield { return; }
    match PartOf(s.pc[p])
    case AtSleep => SleepModes(g, s, d, p, x, s');
    case AtExit => ExitModes(g, s, d, p, s');
    case AtWait => WaitModes(g, s, d, p, x, s');
    case AtFork => ForkModes(g, s, d, p, x, s');
    case _ =>
  }

  lemma SleepModes(g: Config, s: State, d: nat, p: nat, x: Choice, s': State)
    requires Shape(g, s) && d < g.ncpu && p < g.n && SleepStep(g, s, d, p, x) == Some(s')
    ensures s'.mode == s.mode || s'.mode == s.mode[d := Back(p)]
  {
  }

  lemma ExitModes(g: Config, s: State, d: nat, p: nat, s': State)
    requires Shape(g, s) && d < g.ncpu && p < g.n && ExitStep(g, s, d, p) == Some(s')
    ensures s'.mode == s.mode || s'.mode == s.mode[d := Back(p)]
  {
    hide Given, Woken;
  }

  lemma WaitModes(g: Config, s: State, d: nat, p: nat, x: Choice, s': State)
    requires Shape(g, s) && d < g.ncpu && p < g.n && WaitStep(g, s, d, p, x) == Some(s')
    ensures s'.mode == s.mode || s'.mode == s.mode[d := Back(p)]
  {
  }

  lemma ForkModes(g: Config, s: State, d: nat, p: nat, x: Choice, s': State)
    requires Shape(g, s) && d < g.ncpu && p < g.n && ForkStep(g, s, d, p, x) == Some(s')
    ensures s'.mode == s.mode
  {
  }
}
