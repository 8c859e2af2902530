/** What an unused slot of the process table keeps of the past (allocproc, freeproc, kill and fork in
    kernel/proc.c): freeproc clears the pid and the killed flag, but a slot can have both without having been
    in use. */
module ProcSlots {
  import opened ProcMachine
  import opened ProcInv
  import opened ProcRuns
  import opened ProcPaths
  import opened ProcChanges

  /** No unused slot is marked as killed. */
  ghost predicate Unkilled(s: State) {
    forall i: nat {:trigger s.proc[i]} :: i < |s.proc| && s.proc[i].state == UNUSED ==> !s.proc[i].killed
  }

  /** No unused slot has a pid. */
  ghost predicate Pidless(s: State) {
    forall i: nat {:trigger s.proc[i]} :: i < |s.proc| && s.proc[i].state == UNUSED ==> s.proc[i].pid == 0
  }

  /** The point that the thread on the step's CPU has come to. */
  ghost function PcOf(g: Config, s: State, a: Step): Option<Pc> {
    if a.Thread? && a.c < |s.mode| && s.mode[a.c].Run? && s.mode[a.c].p < |s.pc| then Some(s.pc[s.mode[a.c].p])
    else None
  }

  /** kill comes to an unused slot that has the pid it looks for. */
  ghost predicate KillsUnused(g: Config, s: State, a: Step) {
    var pc := PcOf(g, s, a);
    && pc.Some? && pc.value.KillL? && a.x != DoYield
    && pc.value.k < |s.proc| && s.proc[pc.value.k].state == UNUSED && s.proc[pc.value.k].pid == pc.value.pid
  }

  /** allocproc has a slot and a pid, and finds no page for the trapframe. */
  ghost predicate NoTrapframe(g: Config, s: State, a: Step) {
    var pc := PcOf(g, s, a);
    && pc.Some? && pc.value.ForkL? && a.x == Fail
    && pc.value.k < |s.proc| && s.proc[pc.value.k].state == UNUSED
  }

  /** How a step can change a slot: unless kill comes to it, it gains no killed flag; an unused one keeps its
      pid, unless allocproc comes to it; and what becomes unused is cleared. */
  ghost predicate SlotMoves(g: Config, s: State, a: Step, s': State, i: nat)
    requires i < |s.proc|
  {
    |s'.proc| == |s.proc| &&
    var q, q', pc := s.proc[i], s'.proc[i], PcOf(g, s, a);
    && (q'.killed ==> q.killed || (pc == Some(KillL(q.pid, i)) && a.x != DoYield))
    && (q'.state == UNUSED ==> q' == UNUSEDPROC || (q.state == UNUSED && (q'.pid == q.pid || NoTrapframe(g, s, a))))
    && (KillsUnused(g, s, a) && pc.value.k == i ==> q' == q.(killed := true))
    && (NoTrapframe(g, s, a) && pc.value.k == i ==> q' == q.(pid := s.nextpid))
  }

  lemma StepMoves(g: Config, s: State, a: Step, s': State, i: nat)
    requires Shape(g, s) && Do(g, s, a) == Some(s') && i < g.n
    ensures SlotMoves(g, s, a, s', i)
  {
    StepChanges(g, s, a, s', i);
    if KillsUnused(g, s, a) { FindsUnused(g, s, a.c, a.x, s', s.mode[a.c].p); }
    if NoTrapframe(g, s, a) { LeavesPid(g, s, a.c, a.x, s', s.mode[a.c].p); }
  }

  lemma FindsUnused(g: Config, s: State, c: nat, x: Choice, s': State, p: nat)
    requires Shape(g, s) && c < g.ncpu && p < g.n && ThreadStep(g, s, c, p, x) == Some(s') && s.pc[p].KillL?
    requires x != DoYield && s.pc[p].k < g.n && s.proc[s.pc[p].k].pid == s.pc[p].pid
             && s.proc[s.pc[p].k].state == UNUSED
    ensures s'.proc == s.proc[s.pc[p].k := s.proc[s.pc[p].k].(killed := true)]
  {
  }

  lemma LeavesPid(g: Config, s: State, c: nat, x: Choice, s': State, p: nat)
    requires Shape(g, s) && c < g.ncpu && p < g.n && ThreadStep(g, s, c, p, x) == Some(s') && s.pc[p].ForkL?
    requires x == Fail && s.pc[p].k < g.n && s.proc[s.pc[p].k].state == UNUSED
    ensures s'.proc == s.proc[s.pc[p].k := s.proc[s.pc[p].k].(pid := s.nextpid)]
  {
  }

  /** A step leaves a killed flag in an unused slot exactly if it is a kill that finds that slot. */
  lemma StepUnkilled(g: Config, s: State, a: Step, s': State)
    requires Shape(g, s) && Do(g, s, a) == Some(s') && Unkilled(s)
    ensures Unkilled(s') <==> !KillsUnused(g, s, a)
  {
    hide Do;
    StepMoves(g, s, a, s', 0);
    if KillsUnused(g, s, a) {
      StepMoves(g, s, a, s', PcOf(g, s, a).value.k);
    } else {
      forall i: nat | i < |s'.proc| && s'.proc[i].state == UNUSED ensures !s'.proc[i].killed {
        StepMoves(g, s, a, s', i);
      }
    }
  }

  /** And a pid exactly if it is a fork that finds no page for the trapframe. */
  lemma StepPidless(g: Config, s: State, a: Step, s': State)
    requires Shape(g, s) && Do(g, s, a) == Some(s') && Pidless(s) && s.nextpid > 0
    ensures Pidless(s') <==> !NoTrapframe(g, s, a)
  {
    hide Do;
    StepMoves(g, s, a, s', 0);
    if NoTrapframe(g, s, a) {
      StepMoves(g, s, a, s', PcOf(g, s, a).value.k);
    } else {
      forall i: nat | i < |s'.proc| && s'.proc[i].state == UNUSED ensures s'.proc[i].pid == 0 {
        StepMoves(g, s, a, s', i);
      }
    }
  }

  // ---------------------------------------------------------------------------------
  // Over whole runs.

  /** A property of states holds of s and of every state of the run from it. */
  ghost predicate Throughout(g: Config, s: State, run: seq<Step>, ok: State -> bool)
    decreases |run|
  {
    && ok(s) && Shape(g, s)
    && (run != [] ==> var next := Do(g, s, run[0]); next.Some? && Throughout(g, next.value, run[1..], ok))
  }

  /** No step of the run from s is of the bad kind. */
  ghost predicate Never(g: Config, s: State, run: seq<Step>, bad: (State, Step) -> bool)
    decreases |run|
  {
    Shape(g, s) && run != [] ==>
      !bad(s, run[0]) && var next := Do(g, s, run[0]); next.Some? ==> Never(g, next.value, run[1..], bad)
  }

  lemma {:induction false} UnkilledFrom(g: Config, s: State, run: seq<Step>)
    requires After(g, s, run).Some? && Unkilled(s)
    ensures Throughout(g, s, run, Unkilled) <==> Never(g, s, run, (t, a) => KillsUnused(g, t, a))
    decreases |run|
  {
    hide Do, Shape, Unkilled, KillsUnused;
    if run != [] {
      var next := Do(g, s, run[0]).value;
      StepUnkilled(g, s, run[0], next);
      if Unkilled(next) { UnkilledFrom(g, next, run[1..]); }
    }
  }

  lemma {:induction false} PidlessFrom(g: Config, s: State, run: seq<Step>)
    requires Inv(g, s) && After(g, s, run).Some? && Pidless(s)
    ensures Throughout(g, s, run, Pidless) <==> Never(g, s, run, (t, a) => NoTrapframe(g, t, a))
    decreases |run|
  {
    hide Do, Shape, Pidless, NoTrapframe;
    if run != [] {
      var next := Do(g, s, run[0]).value;
      StepPidless(g, s, run[0], next);
      StepKeeps(g, s, run[0], next);
      if Pidless(next) { PidlessFrom(g, next, run[1..]); }
    }
  }

  /** In a run from boot no unused slot ever has a killed flag, so that no process is born killed, if and only
      if no kill ever finds an unused slot. */
  lemma NoneBornKilled(g: Config, cond: seq<bool>, run: seq<Step>)
    requires g.Valid() && |cond| == |g.lockOf| && After(g, Boot(g, cond), run).Some?
    ensures Throughout(g, Boot(g, cond), run, Unkilled)
       <==> Never(g, Boot(g, cond), run, (t, a) => KillsUnused(g, t, a))
  {
    UnkilledFrom(g, Boot(g, cond), run);
  }

  /** And no unused slot ever has a pid if and only if no fork ever fails for want of a trapframe page. */
  lemma NoStalePid(g: Config, cond: seq<bool>, run: seq<Step>)
    requires g.Valid() && |cond| == |g.lockOf| && After(g, Boot(g, cond), run).Some?
    ensures Throughout(g, Boot(g, cond), run, Pidless)
       <==> Never(g, Boot(g, cond), run, (t, a) => NoTrapframe(g, t, a))
  {
    BootInv(g, cond);
    PidlessFrom(g, Boot(g, cond), run);
  }

  /** Without stale pids only kill(0) can find an unused slot. */
  lemma OnlyZeroFindsUnused(g: Config, s: State, a: Step)
    requires Pidless(s) && KillsUnused(g, s, a)
    ensures PcOf(g, s, a).value.pid == 0
  {
    var k := PcOf(g, s, a).value.k;
    assert s.proc[k].pid == 0;
  }

  /** A process is born with the killed flag that its slot had. */
  lemma BornAsTheSlotWas(g: Config, s: State, a: Step, s': State, k: nat)
    requires Shape(g, s) && Do(g, s, a) == Some(s') && k < g.n && PcOf(g, s, a) == Some(ForkL(k))
    requires s.proc[k].state == UNUSED && a.x != DoYield && a.x != Fail && a.x != Fail2
    ensures k < |s'.proc| && s'.proc[k].state == RUNNABLE && s'.proc[k].killed == s.proc[k].killed
  {
  }

  // ---------------------------------------------------------------------------------
  // Runs in which a process is born killed, on a machine with two slots and one CPU.

  function G(): Config { Config(2, [], 0, 1, 0) }

  /** init runs, in no system call, no lock is held, and the other slot is unused. */
  ghost predicate Calm(s: State) {
    && Shape(G(), s) && s.mode == [Run(0)] && s.pc[0] == User && s.proc[0].state == RUNNING && s.proc[0].pid > 0
    && s.lock[P(0)] == Nobody && s.lock[P(1)] == Nobody && s.proc[1].state == UNUSED && s.proc[1].pid != s.proc[0].pid
  }

  /** The next step of init's thread. */
  lemma Goes(s: State, x: Choice, s': State)
    requires Inv(G(), s) && Shape(G(), s) && s.mode == [Run(0)] && ThreadStep(G(), s, 0, 0, x) == Some(s')
    ensures Leads(G(), s, s') && Inv(G(), s') && Shape(G(), s')
  {
    hide ThreadStep, Inv, Shape;
    assert Do(G(), s, Thread(0, x)) == Some(s');
    One(G(), s, Thread(0, x), s');
  }

  /** fork, up to the point where it holds the lock of slot 1. */
  lemma ForkToSlot(s: State) returns (t: State)
    requires Inv(G(), s) && Calm(s)
    ensures Leads(G(), s, t) && Inv(G(), t) && Shape(G(), t)
    ensures t == s.(pc := s.pc[0 := ForkL(1)], lock := t.lock) && t.lock[P(0)] == Nobody && t.lock[P(1)] == Cpu(0)
  {
    hide Inv, Leads;
    var s1 := s.(pc := s.pc[0 := Fork(0)]);
    Goes(s, DoFork, s1);
    var s2 := s1.(pc := s1.pc[0 := ForkL(0)], lock := s1.lock[P(0) := Cpu(0)]);
    Goes(s1, Go, s2);
    var s3 := s2.(pc := s2.pc[0 := Fork(1)], lock := s2.lock[P(0) := Nobody]);
    Goes(s2, Go, s3);
    t := s3.(pc := s3.pc[0 := ForkL(1)], lock := s3.lock[P(1) := Cpu(0)]);
    Goes(s3, Go, t);
    Then(G(), s, s1, s2);
    Then(G(), s, s2, s3);
    Then(G(), s, s3, t);
  }

  /** allocproc's way out when there is no page for the trapframe. */
  lemma FailStep(s: State, t: State)
    requires Inv(G(), s) && Shape(G(), s) && s.mode == [Run(0)] && s.pc[0] == ForkL(1) && s.proc[1].state == UNUSED
    requires t == s.(proc := s.proc[1 := s.proc[1].(pid := s.nextpid)], nextpid := s.nextpid + 1,
                     pc := s.pc[0 := User], lock := s.lock[P(1) := Nobody])
    ensures Leads(G(), s, t) && Inv(G(), t) && Shape(G(), t)
  {
    hide Inv, Leads;
    assert ForkStep(G(), s, 0, 0, Fail) == Some(t);
    Goes(s, Fail, t);
  }

  /** allocproc finds no page for the trapframe. */
  lemma ForkFails(s: State) returns (t: State)
    requires Inv(G(), s) && Calm(s) && s.proc[0].pid < s.nextpid
    ensures Leads(G(), s, t) && Inv(G(), t) && Calm(t) && t.proc == s.proc[1 := s.proc[1].(pid := s.nextpid)]
    ensures t.nextpid == s.nextpid + 1
  {
    hide Inv, Leads, FreeLocks;
    var s1 := ForkToSlot(s);
    t := s1.(proc := s1.proc[1 := s1.proc[1].(pid := s1.nextpid)], nextpid := s1.nextpid + 1,
             pc := s1.pc[0 := User], lock := s1.lock[P(1) := Nobody]);
    FailStep(s1, t);
    Then(G(), s, s1, t);
  }

  lemma ForkMakes(s: State) returns (t: State)
    requires Inv(G(), s) && Calm(s)
    ensures Leads(G(), s, t) && |t.proc| == 2 && t.proc[1].state == RUNNABLE && t.proc[1].killed == s.proc[1].killed
    ensures t.proc[1].pid == s.nextpid
  {
    hide Inv, Leads;
    var s1 := ForkToSlot(s);
    t := s1.(proc := s1.proc[1 := s1.proc[1].(state := RUNNABLE, parent := 0, pid := s1.nextpid, gave := false)],
             nextpid := s1.nextpid + 1, pc := s1.pc[1 := Forkret][0 := User], lock := s1.lock[P(1) := Nobody]);
    Goes(s1, Go, t);
    Then(G(), s, s1, t);
  }

  /** kill, up to the point where it holds the lock of slot 1. */
  lemma KillToSlot(s: State, pid: nat) returns (t: State)
    requires Inv(G(), s) && Calm(s) && pid != s.proc[0].pid
    ensures Leads(G(), s, t) && Inv(G(), t) && Shape(G(), t)
    ensures t == s.(pc := s.pc[0 := KillL(pid, 1)], lock := t.lock) && t.lock[P(0)] == Nobody && t.lock[P(1)] == Cpu(0)
  {
    hide Inv, Leads;
    var s1 := s.(pc := s.pc[0 := Kill(pid, 0)]);
    Goes(s, DoKill(pid), s1);
    var s2 := s1.(pc := s1.pc[0 := KillL(pid, 0)], lock := s1.lock[P(0) := Cpu(0)]);
    Goes(s1, Go, s2);
    var s3 := s2.(pc := s2.pc[0 := Kill(pid, 1)], lock := s2.lock[P(0) := Nobody]);
    Goes(s2, Go, s3);
    t := s3.(pc := s3.pc[0 := KillL(pid, 1)], lock := s3.lock[P(1) := Cpu(0)]);
    Goes(s3, Go, t);
    Then(G(), s, s1, s2);
    Then(G(), s, s2, s3);
    Then(G(), s, s3, t);
  }

  /** kill of the pid that the unused slot has. */
  lemma KillFinds(s: State) returns (t: State)
    requires Inv(G(), s) && Calm(s)
    ensures Leads(G(), s, t) && Inv(G(), t) && Calm(t) && t.proc == s.proc[1 := s.proc[1].(killed := true)]
    ensures t.nextpid == s.nextpid
  {
    hide Inv, Leads;
    var s1 := KillToSlot(s, s.proc[1].pid);
    t := s1.(proc := s1.proc[1 := s1.proc[1].(killed := true)], pc := s1.pc[0 := User],
        lock := s1.lock[P(1) := Nobody]);
    Goes(s1, Go, t);
    Then(G(), s, s1, t);
  }

  lemma AtBoot(s: State)
    requires s == Boot(G(), [])
    ensures Inv(G(), s) && Shape(G(), s) && P(0) in s.lock && P(1) in s.lock && s.lock[P(0)] == s.lock[P(1)] == Nobody
    ensures s.proc == [Proc(RUNNABLE, NoChan, -1, 1, false, false), UNUSEDPROC] && s.pc == [Forkret, Dead]
    ensures s.mode == [Scan(0)] && s.nextpid == 2
  {
    BootInv(G(), []);
    LocksFree(2, 0);
  }

  lemma InitRuns(s: State) returns (t: State)
    requires s == Boot(G(), [])
    ensures Leads(G(), s, t) && Inv(G(), t) && Calm(t) && t.proc[0].pid < t.nextpid == 2 && t.proc[1].pid == 0
  {
    hide Inv, Leads, Boot;
    AtBoot(s);
    var s1 := s.(mode := s.mode[0 := Locked(0)], lock := s.lock[P(0) := Cpu(0)]);
    One(G(), s, Sched(0), s1);
    var s2 := s1.(proc := s1.proc[0 := s1.proc[0].(state := RUNNING)], mode := s1.mode[0 := Run(0)],
                  curr := s1.curr[0 := 0], at := s1.at[0 := 0]);
    One(G(), s1, Sched(0), s2);
    t := s2.(pc := s2.pc[0 := User], lock := s2.lock[P(0) := Nobody]);
    Goes(s2, Go, t);
    Then(G(), s, s1, s2);
    Then(G(), s, s2, t);
  }

  /** A process can be born killed, whether a fork has failed before and kill has been given the pid it left
      behind (stale), or kill has been given 0. */
  lemma BornKilled(stale: bool) returns (s: State)
    ensures Reachable(G(), s) && |s.proc| == 2 && s.proc[1].state == RUNNABLE && s.proc[1].killed
    ensures s.proc[1].pid == if stale then 3 else 2
  {
    hide Inv;
    var s0 := Boot(G(), []);
    var s1 := InitRuns(s0);
    var s2 := s1;
    if stale {
      s2 := ForkFails(s1);
      Then(G(), s0, s1, s2);
    }
    var s3 := KillFinds(s2);
    Then(G(), s0, s2, s3);
    s := ForkMakes(s3);
    Then(G(), s0, s3, s);
    var run: seq<Step> :| After(G(), s0, run) == Some(s);
    var cond: seq<bool> := [];
    assert |cond| == |G().lockOf| && After(G(), Boot(G(), cond), run) == Some(s);
  }
}
