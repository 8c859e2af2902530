/** The process table of kernel/proc.c as a machine of interleaved steps: any number of CPUs running
    schedulers and processes, and any number of interrupt handlers. A step ends wherever a lock is
    taken or dropped, or the CPU is handed over. */
module ProcMachine {

  datatype Option<T> = None | Some(value: T)

  datatype PState = UNUSED | SLEEPING | RUNNABLE | RUNNING | ZOMBIE

  /** Sleep channels: a process's own, for wait, or that of a condition protected by a lock. */
  datatype Chan = NoChan | OfProc(p: nat) | Cond(ch: nat)

  datatype Lock = P(i: nat) | L(l: nat)

  /** lk->cpu; an interrupt taken while its CPU has no process counts as a holder of its own. */
  datatype Holder = Nobody | Cpu(c: nat) | Intr(e: nat)

  /** `gave` records whether the process has been given to init too late for it to know. */
  datatype Proc = Proc(state: PState, chan: Chan, parent: int, pid: nat, killed: bool, gave: bool)

  /** Where a kernel thread is. `p` below is the thread's own process. */
  datatype Pc =
    | User                          // in none of the code modelled here, holding no lock
    | Forkret                       // about to run for the first time
    | Yielding(to: Pc)              // yield, on a timer interrupt: holds p->lock
    | Yielded(to: Pc)               // yield: inside sched
    | Enter(ch: nat)                // about to acquire the condition's lock lk
    | Test(ch: nat)                 // holds lk
    | Sleep1(ch: nat)               // sleep: holds lk, about to acquire p->lock
    | Sleep2(ch: nat)               // sleep: holds both, about to release lk
    | Sleep3(ch: nat)               // sleep: holds p->lock
    | Asleep(ch: nat)               // sleep: inside sched
    | Signal(ch: nat)               // about to acquire lk and make the condition true
    | Wake(ch: nat, k: nat)         // wakeup: holds lk, about to acquire proc[k].lock
    | WakeL(ch: nat, k: nat)        // wakeup: holds it
    | Fork(k: nat)                  // allocproc: about to acquire proc[k].lock
    | ForkL(k: nat)                 // allocproc, fork: holds it
    | Exit1                         // exit: about to acquire initproc->lock
    | Exit2                         // holds it
    | Exit3                         // about to acquire p->lock
    | Exit4                         // holds it
    | Exit5(op: nat)                // about to acquire original_parent->lock
    | Exit6(op: nat)                // holds it, about to acquire p->lock
    | Repar(op: nat, k: nat)        // holds both; reparent, about to look at proc[k].parent
    | ReparA(op: nat, k: nat)       // about to acquire the child's lock
    | ReparL(op: nat, k: nat)       // holds it
    | Exit8(op: nat)                // a zombie; about to release original_parent->lock
    | Exit9                         // a zombie; about to call sched
    | Dead                          // exit: inside sched; also the thread of an unused slot
    | Wait0                         // wait: about to acquire p->lock
    | WScan(k: nat, have: bool)     // holds it, about to look at proc[k].parent
    | WAcq(k: nat, have: bool)      // about to acquire the child's lock
    | WL(k: nat, have: bool)        // holds it
    | WRel                          // about to release p->lock and return
    | WAsleep                       // in sleep(p, &p->lock): inside sched
    | Kill(pid: nat, k: nat)        // kill: about to acquire proc[k].lock
    | KillL(pid: nat, k: nat)       // holds it

  /** Where a CPU is: in the scheduler's loop, or running process p's thread. */
  datatype Mode =
    | Scan(i: nat)                  // about to acquire proc[i].lock
    | Locked(i: nat)                // holds it
    | Run(p: nat)
    | Back(p: nat)                  // p's thread has switched back

  /** `curr` is c->proc. `at` and `reaped` only record: the CPU a thread is running on (-1 for none),
      and the pids that wait has returned. */
  datatype State = State(proc: seq<Proc>, pc: seq<Pc>, at: seq<int>, mode: seq<Mode>, curr: seq<int>,
                         ipc: seq<Pc>, lock: map<Lock, Holder>, cond: seq<bool>, nextpid: nat, reaped: seq<nat>)

  /** n processes, of which 0 is init; each condition's lock; numbers of locks, CPUs, interrupts. */
  datatype Config = Config(n: nat, lockOf: seq<nat>, nlocks: nat, ncpu: nat, nintr: nat) {
    ghost predicate Valid() {
      n > 0 && forall ch :: 0 <= ch < |lockOf| ==> lockOf[ch] < nlocks
    }
  }

  predicate IsLock(g: Config, lk: Lock) {
    match lk
    case P(i) => i < g.n
    case L(l) => l < g.nlocks
  }

  ghost predicate Shape(g: Config, s: State) {
    && g.Valid() && |s.proc| == |s.pc| == |s.at| == g.n
    && |s.mode| == |s.curr| == g.ncpu && |s.ipc| == g.nintr && |s.cond| == |g.lockOf|
    && (forall lk :: lk in s.lock <==> IsLock(g, lk))
  }

  const UNUSEDPROC: Proc := Proc(UNUSED, NoChan, -1, 0, false, false)

  /** All locks, free. */
  function FreeLocks(n: nat, nlocks: nat): map<Lock, Holder> {
    if n > 0 then FreeLocks(n - 1, nlocks)[P(n - 1) := Nobody]
    else if nlocks > 0 then FreeLocks(n, nlocks - 1)[L(nlocks - 1) := Nobody] else map[]
  }

  /** After userinit: only init exists, and waits to be scheduled. */
  function Boot(g: Config, cond: seq<bool>): State
    requires g.n > 0
  {
    State([Proc(RUNNABLE, NoChan, -1, 1, false, false)] + seq(g.n - 1, _ => UNUSEDPROC),
          [Forkret] + seq(g.n - 1, _ => Dead), seq(g.n, _ => -1),
          seq(g.ncpu, _ => Scan(0)), seq(g.ncpu, _ => -1), seq(g.nintr, _ => User),
          FreeLocks(g.n, g.nlocks), cond, 2, [])
  }

  // ---------------------------------------------------------------------------------
  // Parts of steps.

  function SetPc(s: State, p: nat, pc: Pc): State
    requires p < |s.pc|
  {
    s.(pc := s.pc[p := pc])
  }

  function SetProc(s: State, i: nat, q: Proc): State
    requires i < |s.proc|
  {
    s.(proc := s.proc[i := q])
  }

  /** acquire, which waits until the lock is free, and release. */
  function Acq(s: State, h: Holder, lk: Lock): Option<State> {
    if lk in s.lock && s.lock[lk] == Nobody then Some(s.(lock := s.lock[lk := h])) else None
  }

  function Rel(s: State, lk: Lock): State {
    s.(lock := s.lock[lk := Nobody])
  }

  /** acquire(lk) by p's thread, then on to pc. */
  function AcqTo(s: State, c: nat, p: nat, lk: Lock, pc: Pc): Option<State>
    requires p < |s.pc|
  {
    var a := Acq(s, Cpu(c), lk);
    if a.Some? then Some(SetPc(a.value, p, pc)) else None
  }

  /** if (p->state == SLEEPING && p->chan == chan) p->state = RUNNABLE */
  function Woken(q: Proc, chan: Chan): Proc {
    if q.state == SLEEPING && q.chan == chan then q.(state := RUNNABLE) else q
  }

  /** kill, of the process it has found. */
  function Killed(q: Proc): Proc {
    q.(killed := true, state := if q.state == SLEEPING then RUNNABLE else q.state)
  }

  /** sched, by p's thread on CPU c. */
  function SwitchOut(s: State, c: nat, p: nat, q: Proc, pc: Pc): State
    requires p < |s.proc| && p < |s.pc| && p < |s.at| && c < |s.mode|
  {
    s.(proc := s.proc[p := q], pc := s.pc[p := pc], at := s.at[p := -1], mode := s.mode[c := Back(p)])
  }

  // ---------------------------------------------------------------------------------
  // The scheduler.

  function Next(g: Config, i: nat): nat { if i + 1 < g.n then i + 1 else 0 }

  function SchedStep(g: Config, s: State, c: nat): Option<State>
    requires Shape(g, s) && c < g.ncpu
  {
    match s.mode[c]
    case Scan(i) =>
      var a := Acq(s, Cpu(c), P(i));
      if a.Some? then Some(a.value.(mode := s.mode[c := Locked(i)])) else None
    case Locked(i) =>
      if i >= g.n then None
      else if s.proc[i].state == RUNNABLE then
        Some(SetProc(s, i, s.proc[i].(state := RUNNING))
             .(mode := s.mode[c := Run(i)], curr := s.curr[c := i], at := s.at[i := c]))
      else Some(Rel(s, P(i)).(mode := s.mode[c := Scan(Next(g, i))]))
    case Back(p) =>
      if p >= g.n then None
      else Some(Rel(s, P(p)).(mode := s.mode[c := Scan(Next(g, p))], curr := s.curr[c := -1]))
    case Run(_) => None
  }

  // ---------------------------------------------------------------------------------
  // Threads.

  /** What a thread in no modelled code does next, and how its choices come out. */
  datatype Choice =
    | Go | Fail | Fail2
    | DoYield | DoEnter(ch: nat) | DoSignal(ch: nat) | DoFork | DoExit | DoWait | DoKill(pid: nat)

  function UserStep(g: Config, s: State, c: nat, p: nat, x: Choice): Option<State>
    requires Shape(g, s) && p < g.n
  {
    match x
    case DoEnter(ch) => if ch < |g.lockOf| then Some(SetPc(s, p, Enter(ch))) else None
    case DoSignal(ch) => if ch < |g.lockOf| then Some(SetPc(s, p, Signal(ch))) else None
    case DoFork => Some(SetPc(s, p, Fork(0)))
    case DoExit => if p != 0 then Some(SetPc(s, p, Exit1)) else None
    case DoWait => Some(SetPc(s, p, Wait0))
    case DoKill(pid) => Some(SetPc(s, p, Kill(pid, 0)))
    case _ => None
  }

  /** A process waiting for a condition (while (!cond) sleep(chan, lk)), yielding, or starting. The
      condition may be used up by the one that finds it true, and the wait may be given up. */
  function SleepStep(g: Config, s: State, c: nat, p: nat, x: Choice): Option<State>
    requires Shape(g, s) && p < g.n && c < g.ncpu
  {
    match s.pc[p]
    case Forkret => Some(SetPc(Rel(s, P(p)), p, User))
    case Yielding(to) => Some(SwitchOut(s, c, p, s.proc[p].(state := RUNNABLE), Yielded(to)))
    case Yielded(to) => Some(SetPc(Rel(s, P(p)), p, to))
    case Enter(ch) => if ch < |g.lockOf| then AcqTo(s, c, p, L(g.lockOf[ch]), Test(ch)) else None
    case Test(ch) =>
      if ch >= |g.lockOf| then None
      else if x == Fail then Some(SetPc(Rel(s, L(g.lockOf[ch])), p, User))
      else if !s.cond[ch] then Some(SetPc(s, p, Sleep1(ch)))
      else if x == Fail2 then Some(SetPc(Rel(s.(cond := s.cond[ch := false]), L(g.lockOf[ch])), p, User))
      else Some(SetPc(Rel(s, L(g.lockOf[ch])), p, User))
    case Sleep1(ch) => AcqTo(s, c, p, P(p), Sleep2(ch))
    case Sleep2(ch) => if ch < |g.lockOf| then Some(SetPc(Rel(s, L(g.lockOf[ch])), p, Sleep3(ch))) else None
    case Sleep3(ch) => Some(SwitchOut(s, c, p, s.proc[p].(state := SLEEPING, chan := Cond(ch)), Asleep(ch)))
    case Asleep(ch) => Some(SetPc(Rel(SetProc(s, p, s.proc[p].(chan := NoChan)), P(p)), p, Enter(ch)))
    case _ => None
  }

  /** Making a condition true under its lock, then wakeup(chan), then releasing the lock. */
  function WakeStep(g: Config, s: State, c: nat, p: nat): Option<State>
    requires Shape(g, s) && p < g.n
  {
    match s.pc[p]
    case Signal(ch) =>
      if ch < |g.lockOf| then AcqTo(s.(cond := s.cond[ch := true]), c, p, L(g.lockOf[ch]), Wake(ch, 0)) else None
    case Wake(ch, k) =>
      if k < g.n then AcqTo(s, c, p, P(k), WakeL(ch, k))
      else if ch < |g.lockOf| then Some(SetPc(Rel(s, L(g.lockOf[ch])), p, User)) else None
    case WakeL(ch, k) =>
      if k < g.n then Some(SetPc(Rel(SetProc(s, k, Woken(s.proc[k], Cond(ch))), P(k)), p, Wake(ch, k + 1))) else None
    case _ => None
  }

  /** fork, with allocproc. No page for a trapframe (Fail) leaves the new pid in the slot; a failure
      after that (Fail2) goes through freeproc. allocproc does not touch p->killed. */
  function ForkStep(g: Config, s: State, c: nat, p: nat, x: Choice): Option<State>
    requires Shape(g, s) && p < g.n
  {
    match s.pc[p]
    case Fork(k) =>
      if k < g.n then AcqTo(s, c, p, P(k), ForkL(k)) else Some(SetPc(s, p, User))
    case ForkL(k) =>
      if k >= g.n then None
      else if s.proc[k].state != UNUSED then Some(SetPc(Rel(s, P(k)), p, Fork(k + 1)))
      else
        var s1 := s.(nextpid := s.nextpid + 1);
        if x == Fail then Some(SetPc(Rel(SetProc(s1, k, s.proc[k].(pid := s.nextpid)), P(k)), p, User))
        else if x == Fail2 then Some(SetPc(Rel(SetProc(s1, k, UNUSEDPROC), P(k)), p, User))
        else
          var q := s.proc[k].(state := RUNNABLE, parent := p, pid := s.nextpid, gave := false);
          Some(SetPc(SetPc(Rel(SetProc(s1, k, q), P(k)), k, Forkret), p, User))
    case _ => None
  }

  /** The thread has looked up its parent, whom it will wake. */
  predicate LookedUp(pc: Pc) {
    match pc
    case Exit5(_) | Exit6(_) | Repar(_, _) | ReparA(_, _) | ReparL(_, _) | Exit8(_) => true
    case Yielding(to) => to.Exit5?
    case Yielded(to) => to.Exit5?
    case _ => false
  }

  /** A child given to init. */
  function Given(q: Proc, pc: Pc): Proc {
    q.(parent := 0, gave := q.gave || q.state == ZOMBIE || LookedUp(pc))
  }

  function ExitStep(g: Config, s: State, c: nat, p: nat): Option<State>
    requires Shape(g, s) && p < g.n && c < g.ncpu
  {
    match s.pc[p]
    case Exit1 => AcqTo(s, c, p, P(0), Exit2)
    case Exit2 => Some(SetPc(Rel(SetProc(s, 0, Woken(s.proc[0], OfProc(0))), P(0)), p, Exit3))
    case Exit3 => AcqTo(s, c, p, P(p), Exit4)
    case Exit4 => if s.proc[p].parent >= 0 then Some(SetPc(Rel(s, P(p)), p, Exit5(s.proc[p].parent))) else None
    case Exit5(op) => AcqTo(s, c, p, P(op), Exit6(op))
    case Exit6(op) => AcqTo(s, c, p, P(p), Repar(op, 0))
    case Repar(op, k) =>
      if k < g.n then Some(SetPc(s, p, if s.proc[k].parent == p then ReparA(op, k) else Repar(op, k + 1)))
      else if op < g.n then
        var s1 := SetProc(s, op, Woken(s.proc[op], OfProc(op)));
        Some(SetPc(SetProc(s1, p, s1.proc[p].(state := ZOMBIE)), p, Exit8(op)))
      else None
    case ReparA(op, k) => AcqTo(s, c, p, P(k), ReparL(op, k))
    case ReparL(op, k) =>
      if k < g.n then Some(SetPc(Rel(SetProc(s, k, Given(s.proc[k], s.pc[k])), P(k)), p, Repar(op, k + 1)))
      else None
    case Exit8(op) => Some(SetPc(Rel(s, P(op)), p, Exit9))
    case Exit9 => Some(SwitchOut(s, c, p, s.proc[p], Dead))
    case _ => None
  }

  /** wait. Fail stands for a copyout of the status that fails. */
  function WaitStep(g: Config, s: State, c: nat, p: nat, x: Choice): Option<State>
    requires Shape(g, s) && p < g.n && c < g.ncpu
  {
    match s.pc[p]
    case Wait0 => AcqTo(s, c, p, P(p), WScan(0, false))
    case WScan(k, have) =>
      if k < g.n then Some(SetPc(s, p, if s.proc[k].parent == p then WAcq(k, have) else WScan(k + 1, have)))
      else if !have || s.proc[p].killed then Some(SetPc(Rel(s, P(p)), p, User))
      else Some(SwitchOut(s, c, p, s.proc[p].(state := SLEEPING, chan := OfProc(p)), WAsleep))
    case WAcq(k, have) => AcqTo(s, c, p, P(k), WL(k, have))
    case WL(k, have) =>
      if k >= g.n then None
      else if s.proc[k].state != ZOMBIE then Some(SetPc(Rel(s, P(k)), p, WScan(k + 1, true)))
      else if x == Fail then Some(SetPc(Rel(s, P(k)), p, WRel))
      else
        var s1 := SetProc(s, k, UNUSEDPROC).(reaped := s.reaped + [s.proc[k].pid]);
        Some(SetPc(Rel(s1, P(k)), p, WRel))
    case WRel => Some(SetPc(Rel(s, P(p)), p, User))
    case WAsleep => Some(SetPc(SetProc(s, p, s.proc[p].(chan := NoChan)), p, WScan(0, false)))
    case _ => None
  }

  function KillStep(g: Config, s: State, c: nat, p: nat): Option<State>
    requires Shape(g, s) && p < g.n
  {
    match s.pc[p]
    case Kill(pid, k) => if k < g.n then AcqTo(s, c, p, P(k), KillL(pid, k)) else Some(SetPc(s, p, User))
    case KillL(pid, k) =>
      if k >= g.n then None
      else if s.proc[k].pid == pid then Some(SetPc(Rel(SetProc(s, k, Killed(s.proc[k])), P(k)), p, User))
      else Some(SetPc(Rel(s, P(k)), p, Kill(pid, k + 1)))
    case _ => None
  }

  /** The pieces of code a thread can be in. */
  datatype Part = AtUser | AtSleep | AtWake | AtFork | AtExit | AtWait | AtKill

  function PartOf(pc: Pc): Part {
    match pc
    case User => AtUser
    case Forkret | Yielding(_) | Yielded(_) => AtSleep
    case Enter(_) | Test(_) | Sleep1(_) | Sleep2(_) | Sleep3(_) | Asleep(_) => AtSleep
    case Signal(_) | Wake(_, _) | WakeL(_, _) => AtWake
    case Fork(_) | ForkL(_) => AtFork
    case Wait0 | WScan(_, _) | WAcq(_, _) | WL(_, _) | WRel | WAsleep => AtWait
    case Kill(_, _) | KillL(_, _) => AtKill
    case _ => AtExit
  }

  /** Where the thread holds no lock, and so runs with interrupts on. */
  predicate Lockless(pc: Pc) {
    match pc
    case User | Enter(_) | Signal(_) | Fork(_) | Exit1 | Exit3 | Exit5(_) | Wait0 | Kill(_, _) => true
    case _ => false
  }

  /** A timer interrupt makes the thread yield; otherwise it goes on with what it is doing. */
  function ThreadStep(g: Config, s: State, c: nat, p: nat, x: Choice): Option<State>
    requires Shape(g, s) && p < g.n && c < g.ncpu
  {
    if x == DoYield then (if Lockless(s.pc[p]) then AcqTo(s, c, p, P(p), Yielding(s.pc[p])) else None) else
    match PartOf(s.pc[p])
    case AtUser => UserStep(g, s, c, p, x)
    case AtSleep => SleepStep(g, s, c, p, x)
    case AtWake => WakeStep(g, s, c, p)
    case AtFork => ForkStep(g, s, c, p, x)
    case AtExit => ExitStep(g, s, c, p)
    case AtWait => WaitStep(g, s, c, p, x)
    case AtKill => KillStep(g, s, c, p)
  }

  /** An interrupt handler: makes a condition true under its lock and wakes its sleepers. */
  function IntrStep(g: Config, s: State, e: nat, ch: nat): Option<State>
    requires Shape(g, s) && e < g.nintr
  {
    match s.ipc[e]
    case User =>
      if ch >= |g.lockOf| then None else
      var a := Acq(s, Intr(e), L(g.lockOf[ch]));
      if a.Some? then Some(a.value.(cond := s.cond[ch := true], ipc := s.ipc[e := Wake(ch, 0)])) else None
    case Wake(ch, k) =>
      if k < g.n then
        var a := Acq(s, Intr(e), P(k));
        if a.Some? then Some(a.value.(ipc := s.ipc[e := WakeL(ch, k)])) else None
      else if ch < |g.lockOf| then Some(Rel(s, L(g.lockOf[ch])).(ipc := s.ipc[e := User])) else None
    case WakeL(ch, k) =>
      if k < g.n then Some(Rel(SetProc(s, k, Woken(s.proc[k], Cond(ch))), P(k)).(ipc := s.ipc[e := Wake(ch, k + 1)]))
      else None
    case _ => None
  }

  datatype Step = Sched(c: nat) | Thread(c: nat, x: Choice) | Device(e: nat, ch: nat)

  /** One step of the machine, where it can be taken. */
  function Do(g: Config, s: State, a: Step): Option<State>
    requires Shape(g, s)
  {
    match a
    case Sched(c) => if c < g.ncpu then SchedStep(g, s, c) else None
    case Thread(c, x) =>
      if c < g.ncpu && s.mode[c].Run? && s.mode[c].p < g.n then ThreadStep(g, s, c, s.mode[c].p, x) else None
    case Device(e, ch) => if e < g.nintr then IntrStep(g, s, e, ch) else None
  }
}
