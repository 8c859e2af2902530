/** The searches of kill and of allocproc through the process table, over whole calls (kernel/proc.c). */
module ProcSearch {
  import opened ProcMachine
  import opened ProcInv
  import opened ProcRuns
  import opened ProcChanges

  /** What is looked for: the pid that kill is given, or a slot for a new process. */
  datatype Search = ForPid(pid: nat) | ForSlot

  /** kill, at a slot with the pid it looks for: the process is killed, and RUNNABLE if it was asleep; nothing
      else of the table changes. */
  lemma KillTakes(g: Config, s: State, c: nat, x: Choice, s': State, p: nat, pid: nat, k: nat)
    requires Running(g, s, c, p) && Shape(g, s) && Do(g, s, Thread(c, x)) == Some(s') && x != DoYield
    requires s.pc[p] == KillL(pid, k) && k < g.n && s.proc[k].pid == pid
    ensures |s'.proc| == g.n && s'.proc[k].killed && s'.proc[k].state != SLEEPING
    ensures s'.proc[k].state == if s.proc[k].state == SLEEPING then RUNNABLE else s.proc[k].state
    ensures s'.proc[k].pid == pid && s'.proc[k].parent == s.proc[k].parent && s'.proc[k].chan == s.proc[k].chan
    ensures forall i: nat {:trigger s'.proc[i]} :: i < g.n && i != k ==> s'.proc[i] == s.proc[i]
    ensures s.lock[P(k)] == Cpu(c) && s'.lock == s.lock[P(k) := Nobody] && s'.pc == s.pc[p := User]
  {
    SearchHolds(g, s, c, p);
    hide Inv;
    assert KillStep(g, s, c, p) == Some(s');
  }

  /** fork, at an unused slot, with all the memory it needs: the slot is a process that can run, a child of the
      caller, with a pid that no process has or has had; nothing else of the table changes. */
  lemma ForkTakes(g: Config, s: State, c: nat, x: Choice, s': State, p: nat, k: nat)
    requires Running(g, s, c, p) && Shape(g, s) && Do(g, s, Thread(c, x)) == Some(s')
    requires x != DoYield && x != Fail && x != Fail2
    requires s.pc[p] == ForkL(k) && k < g.n && s.proc[k].state == UNUSED
    ensures |s'.proc| == g.n && s'.proc[k].state == RUNNABLE && s'.proc[k].parent == p && k != p
    ensures forall i: nat {:trigger s.proc[i]} :: i < g.n ==> s.proc[i].pid < s'.proc[k].pid
    ensures forall r: nat {:trigger s.reaped[r]} :: r < |s.reaped| ==> s.reaped[r] < s'.proc[k].pid
    ensures forall i: nat {:trigger s'.proc[i]} :: i < g.n && i != k ==> s'.proc[i] == s.proc[i]
    ensures s.lock[P(k)] == Cpu(c) && s'.lock == s.lock[P(k) := Nobody] && s'.pc == s.pc[k := Forkret][p := User]
  {
    SearchHolds(g, s, c, p);
    ForkerIsNot(g, s, p, k);
    assert PidsOk(g, s);
    hide Inv;
    assert ForkStep(g, s, c, p, x) == Some(s');
  }

  lemma ForkerIsNot(g: Config, s: State, p: nat, k: nat)
    requires Inv(g, s) && p < g.n && k < g.n && s.pc[p].ForkL? && s.proc[k].state == UNUSED
    ensures k != p
  {
    assert ProcOk(g, s, p);
  }

  lemma SearchHolds(g: Config, s: State, c: nat, p: nat)
    requires Running(g, s, c, p) && (s.pc[p].KillL? || s.pc[p].ForkL?)
    ensures s.pc[p].k < g.n && P(s.pc[p].k) in s.lock && s.lock[P(s.pc[p].k)] == Cpu(c)
  {
    assert PcOk(g, s, p);
    var lk := P(s.pc[p].k);
    assert CpuHolds(g, s, c, lk) <==> s.lock[lk] == Cpu(c);
  }

  // ---------------------------------------------------------------------------------
  // Whole calls.

  /** A run, with the states it goes through. */
  ghost predicate Trace(g: Config, ss: seq<State>, run: seq<Step>) {
    && |ss| == |run| + 1 && Reachable(g, ss[0])
    && forall t: nat {:trigger run[t]} :: t < |run| ==> Shape(g, ss[t]) && Do(g, ss[t], run[t]) == Some(ss[t + 1])
  }

  /** Where the search is about to take the lock of slot k, and where it has it. */
  ghost function Before(w: Search, k: nat): Pc { match w case ForPid(pid) => Kill(pid, k) case ForSlot => Fork(k) }

  ghost function With(w: Search, k: nat): Pc { match w case ForPid(pid) => KillL(pid, k) case ForSlot => ForkL(k) }

  /** In the search, having come to slot k. */
  ghost predicate At(pc: Pc, w: Search, k: nat) {
    pc == Before(w, k) || pc == With(w, k) || pc == Yielding(Before(w, k)) || pc == Yielded(Before(w, k))
  }

  ghost predicate Searching(s: State, p: nat, w: Search) {
    p < |s.pc| && exists k: nat :: At(s.pc[p], w, k)
  }

  ghost predicate Wanted(q: Proc, w: Search) {
    match w
    case ForPid(pid) => q.pid == pid
    case ForSlot => q.state == UNUSED
  }

  /** p's thread holds the lock of slot j, which is not what it looks for. */
  ghost predicate Passes(g: Config, s: State, p: nat, w: Search, j: nat) {
    && p < |s.pc| && s.pc[p] == With(w, j) && j < |s.proc| && !Wanted(s.proc[j], w) && P(j) in s.lock
    && exists c: nat :: c < |s.mode| && s.mode[c] == Run(p) && s.lock[P(j)] == Cpu(c)
  }

  /** At some time from b to before e. */
  ghost predicate Passed(g: Config, ss: seq<State>, p: nat, w: Search, b: nat, e: nat, j: nat) {
    exists t: nat {:trigger ss[t]} :: b <= t < e && t < |ss| && Passes(g, ss[t], p, w, j)
  }

  lemma AtOne(pc: Pc, w: Search, k: nat, k': nat)
    requires At(pc, w, k) && At(pc, w, k')
    ensures k == k'
  {
  }

  /** A step from a slot whose lock is held. */
  lemma FromSlot(g: Config, s: State, c: nat, x: Choice, s': State, p: nat, w: Search, k: nat)
    requires Shape(g, s) && c < g.ncpu && p < g.n && ThreadStep(g, s, c, p, x) == Some(s') && s.pc[p] == With(w, k)
    ensures p < |s'.pc| && k < g.n && x != DoYield
    ensures s'.pc[p] == if Wanted(s.proc[k], w) then User else Before(w, k + 1)
  {
  }

  /** A step from anywhere else. */
  lemma ToSlot(g: Config, s: State, c: nat, x: Choice, s': State, p: nat, w: Search, k: nat)
    requires Shape(g, s) && c < g.ncpu && p < g.n && ThreadStep(g, s, c, p, x) == Some(s')
    requires At(s.pc[p], w, k) && s.pc[p] != With(w, k)
    ensures p < |s'.pc| && (At(s'.pc[p], w, k) || (s'.pc[p] == User && k >= g.n && x != DoYield && s'.proc == s.proc))
  {
    if x == DoYield { return; }
    if s.pc[p] != Before(w, k) { assert ThreadStep(g, s, c, p, x) == SleepStep(g, s, c, p, x); }
  }

  lemma OwnStepOn(g: Config, s: State, c: nat, x: Choice, s': State, p: nat, w: Search, k: nat, k': nat)
    requires Running(g, s, c, p) && Shape(g, s) && ThreadStep(g, s, c, p, x) == Some(s')
    requires At(s.pc[p], w, k) && p < |s'.pc| && At(s'.pc[p], w, k')
    ensures k' == k || (k' == k + 1 && Passes(g, s, p, w, k))
  {
    hide ThreadStep;
    if s.pc[p] == With(w, k) {
      SearchHolds(g, s, c, p);
      FromSlot(g, s, c, x, s', p, w, k);
      AtOne(Before(w, k + 1), w, k + 1, k + 1);
      if !Wanted(s.proc[k], w) { AtOne(s'.pc[p], w, k + 1, k'); }
    } else {
      ToSlot(g, s, c, x, s', p, w, k);
      AtOne(s'.pc[p], w, k, k');
    }
  }

  /** The search goes on to the next slot only from one that is not what it looks for. */
  lemma StepOn(g: Config, s: State, a: Step, s': State, p: nat, w: Search, k: nat, k': nat)
    requires Inv(g, s) && Shape(g, s) && Do(g, s, a) == Some(s') && p < g.n
    requires At(s.pc[p], w, k) && p < |s'.pc| && At(s'.pc[p], w, k')
    ensures k' == k || (k' == k + 1 && Passes(g, s, p, w, k))
  {
    hide Inv, ThreadStep, SchedStep, IntrStep, Passes;
    StepPcs(g, s, a, s', p);
    if Actor(g, s, a) == Some(p) { OwnStepOn(g, s, a.c, a.x, s', p, w, k, k'); }
  }

  lemma {:induction false} TraceInv(g: Config, ss: seq<State>, run: seq<Step>, t: nat)
    requires Trace(g, ss, run) && t <= |run|
    ensures Inv(g, ss[t])
    decreases t
  {
    hide Do, Shape, Inv;
    if t == 0 {
      ReachableInv(g, ss[0]);
    } else {
      TraceInv(g, ss, run, t - 1);
      assert Do(g, ss[t - 1], run[t - 1]) == Some(ss[t]);
      StepKeeps(g, ss[t - 1], run[t - 1], ss[t]);
    }
  }

  /** A search by p from the first slot on, from time b to time e. */
  ghost predicate Call(g: Config, ss: seq<State>, run: seq<Step>, p: nat, w: Search, b: nat, e: nat) {
    && Trace(g, ss, run) && b <= e <= |run| && p < g.n && p < |ss[b].pc| && ss[b].pc[p] == Before(w, 0)
    && forall t: nat {:trigger ss[t]} :: b <= t <= e ==> Searching(ss[t], p, w)
  }

  lemma AtStart(w: Search, k: nat)
    ensures At(Before(w, 0), w, k) ==> k == 0
  {
  }

  /** By the time the search has come to slot k, it has held the lock of every slot before, and that was not what
      it looks for. */
  lemma {:induction false} AllPassed(g: Config, ss: seq<State>, run: seq<Step>, p: nat, w: Search, b: nat, e: nat,
                                     k: nat, j: nat)
    requires Call(g, ss, run, p, w, b, e) && p < |ss[e].pc| && At(ss[e].pc[p], w, k) && j < k
    ensures Passed(g, ss, p, w, b, e, j)
    decreases e
  {
    hide Do, Shape, Inv, Passes, At, Before;
    AtStart(w, k);
    assert Searching(ss[e - 1], p, w);
    var h: nat :| At(ss[e - 1].pc[p], w, h);
    TraceInv(g, ss, run, e - 1);
    assert Do(g, ss[e - 1], run[e - 1]) == Some(ss[e]);
    StepOn(g, ss[e - 1], run[e - 1], ss[e], p, w, h, k);
    if j < h { AllPassed(g, ss, run, p, w, b, e - 1, h, j); }
  }

  lemma InRange(g: Config, s: State, p: nat, w: Search, k: nat)
    requires Inv(g, s) && p < g.n && At(s.pc[p], w, k)
    ensures k <= g.n && (s.pc[p] == With(w, k) ==> k < g.n)
  {
    assert PcOk(g, s, p);
  }

  /** The step with which the search comes out. */
  lemma ComesOut(g: Config, s: State, a: Step, s': State, p: nat, w: Search, k: nat)
    requires Inv(g, s) && Shape(g, s) && Do(g, s, a) == Some(s') && p < g.n && At(s.pc[p], w, k)
    requires p < |s'.pc| && s'.pc[p] == User
    ensures Out(g, s, a, s', p, w, k)
  {
    StepPcs(g, s, a, s', p);
    InRange(g, s, p, w, k);
    hide Inv, ThreadStep, SchedStep, IntrStep;
    if s.pc[p] == With(w, k) { FromSlot(g, s, a.c, a.x, s', p, w, k); } else { ToSlot(g, s, a.c, a.x, s', p, w, k); }
  }

  /** The search has come to slot k, which is what it looks for and which it holds the lock of, or past the last
      slot, with nothing changed. */
  ghost predicate Out(g: Config, s: State, a: Step, s': State, p: nat, w: Search, k: nat) {
    && k <= g.n == |s.proc| && Actor(g, s, a) == Some(p) && a.x != DoYield && p < |s.pc|
    && if k < g.n then s.pc[p] == With(w, k) && Wanted(s.proc[k], w) else s'.proc == s.proc
  }

  /** A search comes out at a slot that is what it looks for, or past the last slot; and of every slot that it has
      passed it held the lock, during this call, when that was not what it looks for. */
  lemma SearchReturns(g: Config, ss: seq<State>, run: seq<Step>, p: nat, w: Search, b: nat, e: nat) returns (k: nat)
    requires Call(g, ss, run, p, w, b, e) && e < |run| && p < |ss[e + 1].pc| && ss[e + 1].pc[p] == User
    ensures Out(g, ss[e], run[e], ss[e + 1], p, w, k)
    ensures forall j: nat :: j < k ==> Passed(g, ss, p, w, b, e, j)
  {
    hide Do, Shape, Inv, Passed, Out;
    assert Searching(ss[e], p, w);
    k :| At(ss[e].pc[p], w, k);
    TraceInv(g, ss, run, e);
    assert Do(g, ss[e], run[e]) == Some(ss[e + 1]);
    ComesOut(g, ss[e], run[e], ss[e + 1], p, w, k);
    forall j: nat | j < k ensures Passed(g, ss, p, w, b, e, j) {
      AllPassed(g, ss, run, p, w, b, e, k, j);
    }
  }

  /** kill returns with the process of that pid killed and not asleep, or has found another pid in every slot. */
  lemma KillReturns(g: Config, ss: seq<State>, run: seq<Step>, p: nat, pid: nat, b: nat, e: nat) returns (k: nat)
    requires Call(g, ss, run, p, ForPid(pid), b, e) && e < |run| && p < |ss[e + 1].pc| && ss[e + 1].pc[p] == User
    ensures k <= g.n == |ss[e].proc| == |ss[e + 1].proc|
    ensures k < g.n ==> ss[e].proc[k].pid == pid && ss[e + 1].proc[k].killed && ss[e + 1].proc[k].state != SLEEPING
    ensures forall j: nat :: j < k ==> Passed(g, ss, p, ForPid(pid), b, e, j)
    ensures k == g.n ==> ss[e + 1].proc == ss[e].proc
  {
    hide Do, Shape, Inv, Passed, ThreadChanges;
    k := SearchReturns(g, ss, run, p, ForPid(pid), b, e);
    TraceInv(g, ss, run, e);
    assert Shape(g, ss[e]) && Do(g, ss[e], run[e]) == Some(ss[e + 1]);
    if k < g.n {
      OnCpu(g, ss[e], run[e], ss[e + 1], p);
      KillTakes(g, ss[e], run[e].c, run[e].x, ss[e + 1], p, pid, k);
    }
  }

  lemma OnCpu(g: Config, s: State, a: Step, s': State, p: nat)
    requires Inv(g, s) && Shape(g, s) && Do(g, s, a) == Some(s') && Actor(g, s, a) == Some(p)
    ensures Running(g, s, a.c, p) && a == Thread(a.c, a.x)
  {
    hide ThreadStep;
  }

  /** fork returns with a new child, unless memory has run out, or has found every slot in use. */
  lemma ForkReturns(g: Config, ss: seq<State>, run: seq<Step>, p: nat, b: nat, e: nat) returns (k: nat)
    requires Call(g, ss, run, p, ForSlot, b, e) && e < |run| && p < |ss[e + 1].pc| && ss[e + 1].pc[p] == User
    ensures k <= g.n == |ss[e].proc| == |ss[e + 1].proc| && run[e].Thread?
    ensures k < g.n ==> ss[e].proc[k].state == UNUSED
    ensures k < g.n && run[e].x != Fail && run[e].x != Fail2 ==>
              ss[e + 1].proc[k].state == RUNNABLE && ss[e + 1].proc[k].parent == p
    ensures k < g.n && (run[e].x == Fail || run[e].x == Fail2) ==> ss[e + 1].proc[k].state == UNUSED
    ensures forall j: nat :: j < k ==> Passed(g, ss, p, ForSlot, b, e, j)
    ensures k == g.n ==> ss[e + 1].proc == ss[e].proc
  {
    hide Do, Shape, Inv, Passed;
    k := SearchReturns(g, ss, run, p, ForSlot, b, e);
    TraceInv(g, ss, run, e);
    assert Shape(g, ss[e]) && Do(g, ss[e], run[e]) == Some(ss[e + 1]);
    OnCpu(g, ss[e], run[e], ss[e + 1], p);
    if k < g.n {
      if run[e].x == Fail || run[e].x == Fail2 {
        StepChanges(g, ss[e], run[e], ss[e + 1], k);
      } else {
        ForkTakes(g, ss[e], run[e].c, run[e].x, ss[e + 1], p, k);
      }
    }
  }
}
