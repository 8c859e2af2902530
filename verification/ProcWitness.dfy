/** A run in which init sleeps through the death of a child that was given to it. */
module ProcWitness {
  import opened ProcMachine
  import opened ProcInv
  import opened ProcRuns
  import opened ProcPaths

  /** Three processes, no conditions, three CPUs. */
  function G(): Config { Config(3, [], 0, 3, 0) }

  /** The parts of a process that matter here. */
  datatype Q = Q(state: PState, chan: Chan, parent: int, gave: bool)

  /** Where the processes, threads, CPUs and locks stand. */
  datatype View = View(proc: seq<Q>, pc: seq<Pc>, mode: seq<Mode>, lock: seq<Holder>)

  /** Slot i, its thread, its lock and CPU i are as in v. */
  ghost predicate IsAt(s: State, v: View, i: nat)
    requires |v.proc| == |v.pc| == |v.mode| == |v.lock| == |s.proc| == |s.pc| == |s.mode| == 3 && i < 3
  {
    && v.proc[i] == Q(s.proc[i].state, s.proc[i].chan, s.proc[i].parent, s.proc[i].gave) && !s.proc[i].killed
    && s.pc[i] == v.pc[i] && s.mode[i] == v.mode[i] && P(i) in s.lock && s.lock[P(i)] == v.lock[i]
  }

  ghost predicate Is(s: State, v: View) {
    && |v.proc| == |v.pc| == |v.mode| == |v.lock| == 3 && Shape(G(), s)
    && |s.proc| == |s.pc| == |s.mode| == |s.at| == |s.curr| == 3
    && IsAt(s, v, 0) && IsAt(s, v, 1) && IsAt(s, v, 2)
  }

  lemma SchedDo(s: State, c: nat, s': State)
    requires Inv(G(), s) && Shape(G(), s) && c < 3 && SchedStep(G(), s, c) == Some(s')
    ensures Leads(G(), s, s') && Inv(G(), s') && Shape(G(), s')
  {
    One(G(), s, Sched(c), s');
  }

  lemma UserDo(s: State, c: nat, p: nat, x: Choice, s': State)
    requires Inv(G(), s) && Shape(G(), s) && c < 3 && p < 3 && s.mode[c] == Run(p) && s.pc[p] == User && x != DoYield
    requires UserStep(G(), s, c, p, x) == Some(s')
    ensures Leads(G(), s, s') && Inv(G(), s') && Shape(G(), s')
  {
    One(G(), s, Thread(c, x), s');
  }

  lemma SleepDo(s: State, c: nat, p: nat, s': State)
    requires Inv(G(), s) && Shape(G(), s) && c < 3 && p < 3 && s.mode[c] == Run(p) && PartOf(s.pc[p]) == AtSleep
    requires SleepStep(G(), s, c, p, Go) == Some(s')
    ensures Leads(G(), s, s') && Inv(G(), s') && Shape(G(), s')
  {
    hide SleepStep, Inv;
    One(G(), s, Thread(c, Go), s');
  }

  lemma ForkDo(s: State, c: nat, p: nat, s': State)
    requires Inv(G(), s) && Shape(G(), s) && c < 3 && p < 3 && s.mode[c] == Run(p) && PartOf(s.pc[p]) == AtFork
    requires ForkStep(G(), s, c, p, Go) == Some(s')
    ensures Leads(G(), s, s') && Inv(G(), s') && Shape(G(), s')
  {
    hide ForkStep, Inv;
    One(G(), s, Thread(c, Go), s');
  }

  /** fork makes a process in slot k. */
  lemma ForkNew(s: State, c: nat, p: nat, k: nat, s': State)
    requires Inv(G(), s) && Shape(G(), s) && c < 3 && p < 3 && k < 3 && s.mode[c] == Run(p) && s.pc[p] == ForkL(k)
    requires s.proc[k].state == UNUSED
    requires s' == s.(proc := s.proc[k := s.proc[k].(state := RUNNABLE, parent := p, pid := s.nextpid, gave := false)],
                      pc := s.pc[k := Forkret][p := User], lock := s.lock[P(k) := Nobody], nextpid := s.nextpid + 1)
    ensures Leads(G(), s, s') && Inv(G(), s') && Shape(G(), s')
  {
    hide Inv, Leads;
    ForkDo(s, c, p, s');
  }

  lemma ExitDo(s: State, c: nat, p: nat, s': State)
    requires Inv(G(), s) && Shape(G(), s) && c < 3 && p < 3 && s.mode[c] == Run(p) && PartOf(s.pc[p]) == AtExit
    requires ExitStep(G(), s, c, p) == Some(s')
    ensures Leads(G(), s, s') && Inv(G(), s') && Shape(G(), s')
  {
    hide ExitStep, Inv;
    One(G(), s, Thread(c, Go), s');
  }

  lemma WaitDo(s: State, c: nat, p: nat, s': State)
    requires Inv(G(), s) && Shape(G(), s) && c < 3 && p < 3 && s.mode[c] == Run(p) && PartOf(s.pc[p]) == AtWait
    requires WaitStep(G(), s, c, p, Go) == Some(s')
    ensures Leads(G(), s, s') && Inv(G(), s') && Shape(G(), s')
  {
    hide WaitStep, Inv;
    One(G(), s, Thread(c, Go), s');
  }
  function V0(): View {
    View([Q(RUNNABLE, NoChan, -1, false), Q(UNUSED, NoChan, -1, false), Q(UNUSED, NoChan, -1, false)],
         [Forkret, Dead, Dead], [Scan(0), Scan(0), Scan(0)], [Nobody, Nobody, Nobody])
  }

  lemma Part0(s: State) returns (t: State)
    requires Inv(G(), s) && Is(s, V0())
    ensures Leads(G(), s, t) && Inv(G(), t) && Is(t, V1())
  {
    hide Inv, Shape, Leads;
    var s1 := s.(mode := s.mode[0 := Locked(0)], lock := s.lock[P(0) := Cpu(0)]);
    SchedDo(s, 0, s1);
    var s2 := s1.(proc := s1.proc[0 := s1.proc[0].(state := RUNNING)], at := s1.at[0 := 0],
                  mode := s1.mode[0 := Run(0)], curr := s1.curr[0 := 0]);
    SchedDo(s1, 0, s2);
    t := s2.(pc := s2.pc[0 := User], lock := s2.lock[P(0) := Nobody]);
    SleepDo(s2, 0, 0, t);
    Then(G(), s, s1, s2);
    Then(G(), s, s2, t);
  }

  function V1(): View {
    View([Q(RUNNING, NoChan, -1, false), Q(UNUSED, NoChan, -1, false), Q(UNUSED, NoChan, -1, false)],
         [User, Dead, Dead], [Run(0), Scan(0), Scan(0)], [Nobody, Nobody, Nobody])
  }

  lemma Part1(s: State) returns (t: State)
    requires Inv(G(), s) && Is(s, V1())
    ensures Leads(G(), s, t) && Inv(G(), t) && Is(t, V2())
  {
    hide Inv, Shape, Leads;
    var s1 := s.(pc := s.pc[0 := Fork(0)]);
    UserDo(s, 0, 0, DoFork, s1);
    var s2 := s1.(pc := s1.pc[0 := ForkL(0)], lock := s1.lock[P(0) := Cpu(0)]);
    ForkDo(s1, 0, 0, s2);
    t := s2.(pc := s2.pc[0 := Fork(1)], lock := s2.lock[P(0) := Nobody]);
    ForkDo(s2, 0, 0, t);
    Then(G(), s, s1, s2);
    Then(G(), s, s2, t);
  }

  function V2(): View {
    View([Q(RUNNING, NoChan, -1, false), Q(UNUSED, NoChan, -1, false), Q(UNUSED, NoChan, -1, false)],
         [Fork(1), Dead, Dead], [Run(0), Scan(0), Scan(0)], [Nobody, Nobody, Nobody])
  }

  lemma Part2(s: State) returns (t: State)
    requires Inv(G(), s) && Is(s, V2())
    ensures Leads(G(), s, t) && Inv(G(), t) && Is(t, V3())
  {
    hide Inv, Shape, Leads;
    var s1 := s.(pc := s.pc[0 := ForkL(1)], lock := s.lock[P(1) := Cpu(0)]);
    ForkDo(s, 0, 0, s1);
    var s2 := s1.(proc := s1.proc[1 := s1.proc[1].(state := RUNNABLE, parent := 0, pid := s1.nextpid,
                  gave := false)], pc := s1.pc[1 := Forkret][0 := User], lock := s1.lock[P(1) := Nobody],
                  nextpid := s1.nextpid + 1);
    ForkNew(s1, 0, 0, 1, s2);
    t := s2.(mode := s2.mode[1 := Locked(0)], lock := s2.lock[P(0) := Cpu(1)]);
    SchedDo(s2, 1, t);
    Then(G(), s, s1, s2);
    Then(G(), s, s2, t);
  }

  function V3(): View {
    View([Q(RUNNING, NoChan, -1, false), Q(RUNNABLE, NoChan, 0, false), Q(UNUSED, NoChan, -1, false)],
         [User, Forkret, Dead], [Run(0), Locked(0), Scan(0)], [Cpu(1), Nobody, Nobody])
  }

  lemma Part3(s: State) returns (t: State)
    requires Inv(G(), s) && Is(s, V3())
    ensures Leads(G(), s, t) && Inv(G(), t) && Is(t, V4())
  {
    hide Inv, Shape, Leads;
    var s1 := s.(mode := s.mode[1 := Scan(1)], lock := s.lock[P(0) := Nobody]);
    SchedDo(s, 1, s1);
    var s2 := s1.(mode := s1.mode[1 := Locked(1)], lock := s1.lock[P(1) := Cpu(1)]);
    SchedDo(s1, 1, s2);
    t := s2.(proc := s2.proc[1 := s2.proc[1].(state := RUNNING)], at := s2.at[1 := 1], mode := s2.mode[1 := Run(1)],
             curr := s2.curr[1 := 1]);
    SchedDo(s2, 1, t);
    Then(G(), s, s1, s2);
    Then(G(), s, s2, t);
  }

  function V4(): View {
    View([Q(RUNNING, NoChan, -1, false), Q(RUNNING, NoChan, 0, false), Q(UNUSED, NoChan, -1, false)],
         [User, Forkret, Dead], [Run(0), Run(1), Scan(0)], [Nobody, Cpu(1), Nobody])
  }

  lemma Part4(s: State) returns (t: State)
    requires Inv(G(), s) && Is(s, V4())
    ensures Leads(G(), s, t) && Inv(G(), t) && Is(t, V5())
  {
    hide Inv, Shape, Leads;
    var s1 := s.(pc := s.pc[1 := User], lock := s.lock[P(1) := Nobody]);
    SleepDo(s, 1, 1, s1);
    var s2 := s1.(pc := s1.pc[1 := Fork(0)]);
    UserDo(s1, 1, 1, DoFork, s2);
    t := s2.(pc := s2.pc[1 := ForkL(0)], lock := s2.lock[P(0) := Cpu(1)]);
    ForkDo(s2, 1, 1, t);
    Then(G(), s, s1, s2);
    Then(G(), s, s2, t);
  }

  function V5(): View {
    View([Q(RUNNING, NoChan, -1, false), Q(RUNNING, NoChan, 0, false), Q(UNUSED, NoChan, -1, false)],
         [User, ForkL(0), Dead], [Run(0), Run(1), Scan(0)], [Cpu(1), Nobody, Nobody])
  }

  lemma Part5(s: State) returns (t: State)
    requires Inv(G(), s) && Is(s, V5())
    ensures Leads(G(), s, t) && Inv(G(), t) && Is(t, V6())
  {
    hide Inv, Shape, Leads;
    var s1 := s.(pc := s.pc[1 := Fork(1)], lock := s.lock[P(0) := Nobody]);
    ForkDo(s, 1, 1, s1);
    var s2 := s1.(pc := s1.pc[1 := ForkL(1)], lock := s1.lock[P(1) := Cpu(1)]);
    ForkDo(s1, 1, 1, s2);
    t := s2.(pc := s2.pc[1 := Fork(2)], lock := s2.lock[P(1) := Nobody]);
    ForkDo(s2, 1, 1, t);
    Then(G(), s, s1, s2);
    Then(G(), s, s2, t);
  }

  function V6(): View {
    View([Q(RUNNING, NoChan, -1, false), Q(RUNNING, NoChan, 0, false), Q(UNUSED, NoChan, -1, false)],
         [User, Fork(2), Dead], [Run(0), Run(1), Scan(0)], [Nobody, Nobody, Nobody])
  }

  lemma Part6(s: State) returns (t: State)
    requires Inv(G(), s) && Is(s, V6())
    ensures Leads(G(), s, t) && Inv(G(), t) && Is(t, V7())
  {
    hide Inv, Shape, Leads;
    var s1 := s.(pc := s.pc[1 := ForkL(2)], lock := s.lock[P(2) := Cpu(1)]);
    ForkDo(s, 1, 1, s1);
    var s2 := s1.(proc := s1.proc[2 := s1.proc[2].(state := RUNNABLE, parent := 1, pid := s1.nextpid,
                  gave := false)], pc := s1.pc[2 := Forkret][1 := User], lock := s1.lock[P(2) := Nobody],
                  nextpid := s1.nextpid + 1);
    ForkNew(s1, 1, 1, 2, s2);
    t := s2.(mode := s2.mode[2 := Locked(0)], lock := s2.lock[P(0) := Cpu(2)]);
    SchedDo(s2, 2, t);
    Then(G(), s, s1, s2);
    Then(G(), s, s2, t);
  }

  function V7(): View {
    View([Q(RUNNING, NoChan, -1, false), Q(RUNNING, NoChan, 0, false), Q(RUNNABLE, NoChan, 1, false)],
         [User, User, Forkret], [Run(0), Run(1), Locked(0)], [Cpu(2), Nobody, Nobody])
  }

  lemma Part7(s: State) returns (t: State)
    requires Inv(G(), s) && Is(s, V7())
    ensures Leads(G(), s, t) && Inv(G(), t) && Is(t, V8())
  {
    hide Inv, Shape, Leads;
    var s1 := s.(mode := s.mode[2 := Scan(1)], lock := s.lock[P(0) := Nobody]);
    SchedDo(s, 2, s1);
    var s2 := s1.(mode := s1.mode[2 := Locked(1)], lock := s1.lock[P(1) := Cpu(2)]);
    SchedDo(s1, 2, s2);
    t := s2.(mode := s2.mode[2 := Scan(2)], lock := s2.lock[P(1) := Nobody]);
    SchedDo(s2, 2, t);
    Then(G(), s, s1, s2);
    Then(G(), s, s2, t);
  }

  function V8(): View {
    View([Q(RUNNING, NoChan, -1, false), Q(RUNNING, NoChan, 0, false), Q(RUNNABLE, NoChan, 1, false)],
         [User, User, Forkret], [Run(0), Run(1), Scan(2)], [Nobody, Nobody, Nobody])
  }

  lemma Part8(s: State) returns (t: State)
    requires Inv(G(), s) && Is(s, V8())
    ensures Leads(G(), s, t) && Inv(G(), t) && Is(t, V9())
  {
    hide Inv, Shape, Leads;
    var s1 := s.(mode := s.mode[2 := Locked(2)], lock := s.lock[P(2) := Cpu(2)]);
    SchedDo(s, 2, s1);
    var s2 := s1.(proc := s1.proc[2 := s1.proc[2].(state := RUNNING)], at := s1.at[2 := 2],
                  mode := s1.mode[2 := Run(2)], curr := s1.curr[2 := 2]);
    SchedDo(s1, 2, s2);
    t := s2.(pc := s2.pc[2 := User], lock := s2.lock[P(2) := Nobody]);
    SleepDo(s2, 2, 2, t);
    Then(G(), s, s1, s2);
    Then(G(), s, s2, t);
  }

  function V9(): View {
    View([Q(RUNNING, NoChan, -1, false), Q(RUNNING, NoChan, 0, false), Q(RUNNING, NoChan, 1, false)],
         [User, User, User], [Run(0), Run(1), Run(2)], [Nobody, Nobody, Nobody])
  }

  lemma Part9(s: State) returns (t: State)
    requires Inv(G(), s) && Is(s, V9())
    ensures Leads(G(), s, t) && Inv(G(), t) && Is(t, V10())
  {
    hide Inv, Shape, Leads;
    var s1 := s.(pc := s.pc[2 := Exit1]);
    UserDo(s, 2, 2, DoExit, s1);
    var s2 := s1.(pc := s1.pc[2 := Exit2], lock := s1.lock[P(0) := Cpu(2)]);
    ExitDo(s1, 2, 2, s2);
    t := s2.(proc := s2.proc[0 := s2.proc[0]], pc := s2.pc[2 := Exit3], lock := s2.lock[P(0) := Nobody]);
    ExitDo(s2, 2, 2, t);
    Then(G(), s, s1, s2);
    Then(G(), s, s2, t);
  }

  function V10(): View {
    View([Q(RUNNING, NoChan, -1, false), Q(RUNNING, NoChan, 0, false), Q(RUNNING, NoChan, 1, false)],
         [User, User, Exit3], [Run(0), Run(1), Run(2)], [Nobody, Nobody, Nobody])
  }

  lemma Part10(s: State) returns (t: State)
    requires Inv(G(), s) && Is(s, V10())
    ensures Leads(G(), s, t) && Inv(G(), t) && Is(t, V11())
  {
    hide Inv, Shape, Leads;
    var s1 := s.(pc := s.pc[2 := Exit4], lock := s.lock[P(2) := Cpu(2)]);
    ExitDo(s, 2, 2, s1);
    var s2 := s1.(pc := s1.pc[2 := Exit5(1)], lock := s1.lock[P(2) := Nobody]);
    ExitDo(s1, 2, 2, s2);
    t := s2.(pc := s2.pc[1 := Exit1]);
    UserDo(s2, 1, 1, DoExit, t);
    Then(G(), s, s1, s2);
    Then(G(), s, s2, t);
  }

  function V11(): View {
    View([Q(RUNNING, NoChan, -1, false), Q(RUNNING, NoChan, 0, false), Q(RUNNING, NoChan, 1, false)],
         [User, Exit1, Exit5(1)], [Run(0), Run(1), Run(2)], [Nobody, Nobody, Nobody])
  }

  lemma Part11(s: State) returns (t: State)
    requires Inv(G(), s) && Is(s, V11())
    ensures Leads(G(), s, t) && Inv(G(), t) && Is(t, V12())
  {
    hide Inv, Shape, Leads;
    var s1 := s.(pc := s.pc[1 := Exit2], lock := s.lock[P(0) := Cpu(1)]);
    ExitDo(s, 1, 1, s1);
    var s2 := s1.(proc := s1.proc[0 := s1.proc[0]], pc := s1.pc[1 := Exit3], lock := s1.lock[P(0) := Nobody]);
    ExitDo(s1, 1, 1, s2);
    t := s2.(pc := s2.pc[1 := Exit4], lock := s2.lock[P(1) := Cpu(1)]);
    ExitDo(s2, 1, 1, t);
    Then(G(), s, s1, s2);
    Then(G(), s, s2, t);
  }

  function V12(): View {
    View([Q(RUNNING, NoChan, -1, false), Q(RUNNING, NoChan, 0, false), Q(RUNNING, NoChan, 1, false)],
         [User, Exit4, Exit5(1)], [Run(0), Run(1), Run(2)], [Nobody, Cpu(1), Nobody])
  }

  lemma Part12(s: State) returns (t: State)
    requires Inv(G(), s) && Is(s, V12())
    ensures Leads(G(), s, t) && Inv(G(), t) && Is(t, V13())
  {
    hide Inv, Shape, Leads;
    var s1 := s.(pc := s.pc[1 := Exit5(0)], lock := s.lock[P(1) := Nobody]);
    ExitDo(s, 1, 1, s1);
    var s2 := s1.(pc := s1.pc[1 := Exit6(0)], lock := s1.lock[P(0) := Cpu(1)]);
    ExitDo(s1, 1, 1, s2);
    t := s2.(pc := s2.pc[1 := Repar(0, 0)], lock := s2.lock[P(1) := Cpu(1)]);
    ExitDo(s2, 1, 1, t);
    Then(G(), s, s1, s2);
    Then(G(), s, s2, t);
  }

  function V13(): View {
    View([Q(RUNNING, NoChan, -1, false), Q(RUNNING, NoChan, 0, false), Q(RUNNING, NoChan, 1, false)],
         [User, Repar(0, 0), Exit5(1)], [Run(0), Run(1), Run(2)], [Cpu(1), Cpu(1), Nobody])
  }

  lemma Part13(s: State) returns (t: State)
    requires Inv(G(), s) && Is(s, V13())
    ensures Leads(G(), s, t) && Inv(G(), t) && Is(t, V14())
  {
    hide Inv, Shape, Leads;
    var s1 := s.(pc := s.pc[1 := Repar(0, 1)]);
    ExitDo(s, 1, 1, s1);
    var s2 := s1.(pc := s1.pc[1 := Repar(0, 2)]);
    ExitDo(s1, 1, 1, s2);
    t := s2.(pc := s2.pc[1 := ReparA(0, 2)]);
    ExitDo(s2, 1, 1, t);
    Then(G(), s, s1, s2);
    Then(G(), s, s2, t);
  }

  function V14(): View {
    View([Q(RUNNING, NoChan, -1, false), Q(RUNNING, NoChan, 0, false), Q(RUNNING, NoChan, 1, false)],
         [User, ReparA(0, 2), Exit5(1)], [Run(0), Run(1), Run(2)], [Cpu(1), Cpu(1), Nobody])
  }

  lemma Part14(s: State) returns (t: State)
    requires Inv(G(), s) && Is(s, V14())
    ensures Leads(G(), s, t) && Inv(G(), t) && Is(t, V15())
  {
    hide Inv, Shape, Leads;
    var s1 := s.(pc := s.pc[1 := ReparL(0, 2)], lock := s.lock[P(2) := Cpu(1)]);
    ExitDo(s, 1, 1, s1);
    var s2 := s1.(proc := s1.proc[2 := s1.proc[2].(parent := 0, gave := true)], pc := s1.pc[1 := Repar(0, 3)],
                  lock := s1.lock[P(2) := Nobody]);
    ExitDo(s1, 1, 1, s2);
    t := s2.(proc := s2.proc[0 := s2.proc[0]][1 := s2.proc[1].(state := ZOMBIE)], pc := s2.pc[1 := Exit8(0)]);
    ExitDo(s2, 1, 1, t);
    Then(G(), s, s1, s2);
    Then(G(), s, s2, t);
  }

  function V15(): View {
    View([Q(RUNNING, NoChan, -1, false), Q(ZOMBIE, NoChan, 0, false), Q(RUNNING, NoChan, 0, true)],
         [User, Exit8(0), Exit5(1)], [Run(0), Run(1), Run(2)], [Cpu(1), Cpu(1), Nobody])
  }

  lemma Part15(s: State) returns (t: State)
    requires Inv(G(), s) && Is(s, V15())
    ensures Leads(G(), s, t) && Inv(G(), t) && Is(t, V16())
  {
    hide Inv, Shape, Leads;
    var s1 := s.(pc := s.pc[1 := Exit9], lock := s.lock[P(0) := Nobody]);
    ExitDo(s, 1, 1, s1);
    var s2 := s1.(proc := s1.proc[1 := s1.proc[1]], pc := s1.pc[1 := Dead], at := s1.at[1 := -1],
                  mode := s1.mode[1 := Back(1)]);
    ExitDo(s1, 1, 1, s2);
    t := s2.(mode := s2.mode[1 := Scan(2)], curr := s2.curr[1 := -1], lock := s2.lock[P(1) := Nobody]);
    SchedDo(s2, 1, t);
    Then(G(), s, s1, s2);
    Then(G(), s, s2, t);
  }

  function V16(): View {
    View([Q(RUNNING, NoChan, -1, false), Q(ZOMBIE, NoChan, 0, false), Q(RUNNING, NoChan, 0, true)],
         [User, Dead, Exit5(1)], [Run(0), Scan(2), Run(2)], [Nobody, Nobody, Nobody])
  }

  lemma Part16(s: State) returns (t: State)
    requires Inv(G(), s) && Is(s, V16())
    ensures Leads(G(), s, t) && Inv(G(), t) && Is(t, V17())
  {
    hide Inv, Shape, Leads;
    var s1 := s.(pc := s.pc[0 := Wait0]);
    UserDo(s, 0, 0, DoWait, s1);
    var s2 := s1.(pc := s1.pc[0 := WScan(0, false)], lock := s1.lock[P(0) := Cpu(0)]);
    WaitDo(s1, 0, 0, s2);
    t := s2.(pc := s2.pc[0 := WScan(1, false)]);
    WaitDo(s2, 0, 0, t);
    Then(G(), s, s1, s2);
    Then(G(), s, s2, t);
  }

  function V17(): View {
    View([Q(RUNNING, NoChan, -1, false), Q(ZOMBIE, NoChan, 0, false), Q(RUNNING, NoChan, 0, true)],
         [WScan(1, false), Dead, Exit5(1)], [Run(0), Scan(2), Run(2)], [Cpu(0), Nobody, Nobody])
  }

  lemma Part17(s: State) returns (t: State)
    requires Inv(G(), s) && Is(s, V17())
    ensures Leads(G(), s, t) && Inv(G(), t) && Is(t, V18())
  {
    hide Inv, Shape, Leads;
    var s1 := s.(pc := s.pc[0 := WAcq(1, false)]);
    WaitDo(s, 0, 0, s1);
    var s2 := s1.(pc := s1.pc[0 := WL(1, false)], lock := s1.lock[P(1) := Cpu(0)]);
    WaitDo(s1, 0, 0, s2);
    t := s2.(proc := s2.proc[1 := UNUSEDPROC], pc := s2.pc[0 := WRel], lock := s2.lock[P(1) := Nobody],
             reaped := s2.reaped + [s2.proc[1].pid]);
    WaitDo(s2, 0, 0, t);
    Then(G(), s, s1, s2);
    Then(G(), s, s2, t);
  }

  function V18(): View {
    View([Q(RUNNING, NoChan, -1, false), Q(UNUSED, NoChan, -1, false), Q(RUNNING, NoChan, 0, true)],
         [WRel, Dead, Exit5(1)], [Run(0), Scan(2), Run(2)], [Cpu(0), Nobody, Nobody])
  }

  lemma Part18(s: State) returns (t: State)
    requires Inv(G(), s) && Is(s, V18())
    ensures Leads(G(), s, t) && Inv(G(), t) && Is(t, V19())
  {
    hide Inv, Shape, Leads;
    var s1 := s.(pc := s.pc[0 := User], lock := s.lock[P(0) := Nobody]);
    WaitDo(s, 0, 0, s1);
    var s2 := s1.(pc := s1.pc[0 := Wait0]);
    UserDo(s1, 0, 0, DoWait, s2);
    t := s2.(pc := s2.pc[0 := WScan(0, false)], lock := s2.lock[P(0) := Cpu(0)]);
    WaitDo(s2, 0, 0, t);
    Then(G(), s, s1, s2);
    Then(G(), s, s2, t);
  }

  function V19(): View {
    View([Q(RUNNING, NoChan, -1, false), Q(UNUSED, NoChan, -1, false), Q(RUNNING, NoChan, 0, true)],
         [WScan(0, false), Dead, Exit5(1)], [Run(0), Scan(2), Run(2)], [Cpu(0), Nobody, Nobody])
  }

  lemma Part19(s: State) returns (t: State)
    requires Inv(G(), s) && Is(s, V19())
    ensures Leads(G(), s, t) && Inv(G(), t) && Is(t, V20())
  {
    hide Inv, Shape, Leads;
    var s1 := s.(pc := s.pc[0 := WScan(1, false)]);
    WaitDo(s, 0, 0, s1);
    var s2 := s1.(pc := s1.pc[0 := WScan(2, false)]);
    WaitDo(s1, 0, 0, s2);
    t := s2.(pc := s2.pc[0 := WAcq(2, false)]);
    WaitDo(s2, 0, 0, t);
    Then(G(), s, s1, s2);
    Then(G(), s, s2, t);
  }

  function V20(): View {
    View([Q(RUNNING, NoChan, -1, false), Q(UNUSED, NoChan, -1, false), Q(RUNNING, NoChan, 0, true)],
         [WAcq(2, false), Dead, Exit5(1)], [Run(0), Scan(2), Run(2)], [Cpu(0), Nobody, Nobody])
  }

  lemma Part20(s: State) returns (t: State)
    requires Inv(G(), s) && Is(s, V20())
    ensures Leads(G(), s, t) && Inv(G(), t) && Is(t, V21())
  {
    hide Inv, Shape, Leads;
    var s1 := s.(pc := s.pc[0 := WL(2, false)], lock := s.lock[P(2) := Cpu(0)]);
    WaitDo(s, 0, 0, s1);
    var s2 := s1.(pc := s1.pc[0 := WScan(3, true)], lock := s1.lock[P(2) := Nobody]);
    WaitDo(s1, 0, 0, s2);
    t := s2.(proc := s2.proc[0 := s2.proc[0].(state := SLEEPING, chan := OfProc(0))], pc := s2.pc[0 := WAsleep],
             at := s2.at[0 := -1], mode := s2.mode[0 := Back(0)]);
    WaitDo(s2, 0, 0, t);
    Then(G(), s, s1, s2);
    Then(G(), s, s2, t);
  }

  function V21(): View {
    View([Q(SLEEPING, OfProc(0), -1, false), Q(UNUSED, NoChan, -1, false), Q(RUNNING, NoChan, 0, true)],
         [WAsleep, Dead, Exit5(1)], [Back(0), Scan(2), Run(2)], [Cpu(0), Nobody, Nobody])
  }

  lemma Part21(s: State) returns (t: State)
    requires Inv(G(), s) && Is(s, V21())
    ensures Leads(G(), s, t) && Inv(G(), t) && Is(t, V22())
  {
    hide Inv, Shape, Leads;
    var s1 := s.(mode := s.mode[0 := Scan(1)], curr := s.curr[0 := -1], lock := s.lock[P(0) := Nobody]);
    SchedDo(s, 0, s1);
    var s2 := s1.(pc := s1.pc[2 := Exit6(1)], lock := s1.lock[P(1) := Cpu(2)]);
    ExitDo(s1, 2, 2, s2);
    t := s2.(pc := s2.pc[2 := Repar(1, 0)], lock := s2.lock[P(2) := Cpu(2)]);
    ExitDo(s2, 2, 2, t);
    Then(G(), s, s1, s2);
    Then(G(), s, s2, t);
  }

  function V22(): View {
    View([Q(SLEEPING, OfProc(0), -1, false), Q(UNUSED, NoChan, -1, false), Q(RUNNING, NoChan, 0, true)],
         [WAsleep, Dead, Repar(1, 0)], [Scan(1), Scan(2), Run(2)], [Nobody, Cpu(2), Cpu(2)])
  }

  lemma Part22(s: State) returns (t: State)
    requires Inv(G(), s) && Is(s, V22())
    ensures Leads(G(), s, t) && Inv(G(), t) && Is(t, V23())
  {
    hide Inv, Shape, Leads;
    var s1 := s.(pc := s.pc[2 := Repar(1, 1)]);
    ExitDo(s, 2, 2, s1);
    var s2 := s1.(pc := s1.pc[2 := Repar(1, 2)]);
    ExitDo(s1, 2, 2, s2);
    t := s2.(pc := s2.pc[2 := Repar(1, 3)]);
    ExitDo(s2, 2, 2, t);
    Then(G(), s, s1, s2);
    Then(G(), s, s2, t);
  }

  function V23(): View {
    View([Q(SLEEPING, OfProc(0), -1, false), Q(UNUSED, NoChan, -1, false), Q(RUNNING, NoChan, 0, true)],
         [WAsleep, Dead, Repar(1, 3)], [Scan(1), Scan(2), Run(2)], [Nobody, Cpu(2), Cpu(2)])
  }

  lemma Part23(s: State) returns (t: State)
    requires Inv(G(), s) && Is(s, V23())
    ensures Leads(G(), s, t) && Inv(G(), t) && Is(t, V24())
  {
    hide Inv, Shape, Leads;
    t := s.(proc := s.proc[1 := s.proc[1]][2 := s.proc[2].(state := ZOMBIE)], pc := s.pc[2 := Exit8(1)]);
    ExitDo(s, 2, 2, t);
  }

  function V24(): View {
    View([Q(SLEEPING, OfProc(0), -1, false), Q(UNUSED, NoChan, -1, false), Q(ZOMBIE, NoChan, 0, true)],
         [WAsleep, Dead, Exit8(1)], [Scan(1), Scan(2), Run(2)], [Nobody, Cpu(2), Cpu(2)])
  }

  lemma BootView()
    ensures Inv(G(), Boot(G(), [])) && Is(Boot(G(), []), V0())
  {
    BootInv(G(), []);
    var s := Boot(G(), []);
    LocksFree(3, 0);
    assert forall i: nat :: i < 3 ==> P(i) in s.lock && s.lock[P(i)] == Nobody;
  }

  /** Process 1, a child of init, has a child, 2, which exits and looks up its parent, 1. Then 1 exits: it
      gives 2 to init and dies, and init reaps it, finds that 2 is not a zombie, and sleeps. Now 2 goes on:
      it wakes slot 1, which is not in use any more, and is a zombie; its parent, init, sleeps in wait. */
  lemma MissedDeath() returns (s: State)
    ensures Reachable(G(), s) && |s.proc| == 3 && s.proc[2].state == ZOMBIE && s.proc[2].parent == 0
    ensures s.proc[0].state == SLEEPING && s.proc[0].chan == OfProc(0)
  {
    var s0 := Boot(G(), []);
    BootView();
    s := Missed(s0);
    assert Is(s, V24());
    var run: seq<Step> :| After(G(), s0, run) == Some(s);
    var cond: seq<bool> := [];
    assert |cond| == |G().lockOf| && After(G(), Boot(G(), cond), run) == Some(s);
    assert V24().proc[0].state == SLEEPING && V24().proc[2].state == ZOMBIE;
  }

  lemma Missed(s0: State) returns (s24: State)
    requires Inv(G(), s0) && Is(s0, V0())
    ensures Leads(G(), s0, s24) && Is(s24, V24())
  {
    hide Inv, Is, Leads;
    var s1 := Part0(s0);
    var s2 := Part1(s1);
    Then(G(), s0, s1, s2);
    var s3 := Part2(s2);
    Then(G(), s0, s2, s3);
    var s4 := Part3(s3);
    Then(G(), s0, s3, s4);
    var s5 := Part4(s4);
    Then(G(), s0, s4, s5);
    var s6 := Part5(s5);
    Then(G(), s0, s5, s6);
    var s7 := Part6(s6);
    Then(G(), s0, s6, s7);
    var s8 := Part7(s7);
    Then(G(), s0, s7, s8);
    var s9 := Part8(s8);
    Then(G(), s0, s8, s9);
    var s10 := Part9(s9);
    Then(G(), s0, s9, s10);
    var s11 := Part10(s10);
    Then(G(), s0, s10, s11);
    var s12 := Part11(s11);
    Then(G(), s0, s11, s12);
    var s13 := Part12(s12);
    Then(G(), s0, s12, s13);
    var s14 := Part13(s13);
    Then(G(), s0, s13, s14);
    var s15 := Part14(s14);
    Then(G(), s0, s14, s15);
    var s16 := Part15(s15);
    Then(G(), s0, s15, s16);
    var s17 := Part16(s16);
    Then(G(), s0, s16, s17);
    var s18 := Part17(s17);
    Then(G(), s0, s17, s18);
    var s19 := Part18(s18);
    Then(G(), s0, s18, s19);
    var s20 := Part19(s19);
    Then(G(), s0, s19, s20);
    var s21 := Part20(s20);
    Then(G(), s0, s20, s21);
    var s22 := Part21(s21);
    Then(G(), s0, s21, s22);
    var s23 := Part22(s22);
    Then(G(), s0, s22, s23);
    s24 := Part23(s23);
    Then(G(), s0, s23, s24);
  }
}
