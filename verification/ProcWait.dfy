/** Children, and what a wait has seen when it sleeps or comes out (wait in kernel/proc.c). */
module ProcWait {
  import opened ProcMachine
  import opened ProcInv
  import opened ProcRuns
  import opened ProcChanges

  /** Some process from slot k on is p's child. */
  ghost predicate HasChild(s: State, p: nat, k: nat) {
    exists q: nat {:trigger s.proc[q]} :: k <= q < |s.proc| && s.proc[q].parent == p
  }

  /** init has pid 1, and parents have smaller pids than their children. */
  ghost predicate Elders(s: State) {
    && |s.proc| > 0 && s.proc[0].pid == 1
    && forall q: nat {:trigger s.proc[q]} :: q < |s.proc| && 0 <= s.proc[q].parent < |s.proc| ==>
         s.proc[s.proc[q].parent].pid < s.proc[q].pid
  }

  /** While a wait has found no child, either one is still ahead or there is none at all; once it has found one,
      and while it sleeps, there is one; and it does not sleep on when killed. */
  ghost predicate KidsOk(s: State, p: nat) {
    p < |s.pc| && p < |s.proc| &&
    match s.pc[p]
    case WScan(k, have) => HasChild(s, p, 0) <==> have || HasChild(s, p, k)
    case WAsleep => HasChild(s, p, 0) && (s.proc[p].state == SLEEPING ==> !s.proc[p].killed)
    case _ => true
  }

  ghost predicate Kids(g: Config, s: State) {
    Elders(s) && forall p: nat {:trigger KidsOk(s, p)} :: p < g.n ==> KidsOk(s, p)
  }

  /** init has a child as long as there is any other process. */
  lemma {:induction false} InitHasChild(g: Config, s: State, r: nat)
    requires Inv(g, s) && Elders(s) && 0 < r < g.n && s.proc[r].state != UNUSED
    ensures HasChild(s, 0, 0)
    decreases s.proc[r].pid
  {
    assert FamilyOk(g, s, r);
    var p := s.proc[r].parent;
    if p == 0 {
      assert s.proc[r].parent == 0;
    } else {
      InitHasChild(g, s, p);
    }
  }

  /** A child is lost only to its parent's own step. */
  lemma ChildStays(g: Config, s: State, a: Step, s': State, p: nat, q: nat)
    requires Inv(g, s) && Shape(g, s) && Do(g, s, a) == Some(s') && p < g.n && q < g.n
    requires s.proc[q].parent == p && Actor(g, s, a) != Some(p)
    ensures |s'.proc| == g.n && s'.proc[q].parent == p
  {
    hide Do;
    StepChanges(g, s, a, s', q);
    assert ProcOk(g, s, q);
    if a.Thread? && s'.proc[q] != s.proc[q] { assert PcOk(g, s, s.mode[a.c].p); }
  }

  lemma ParentFrom(g: Config, s: State, a: Step, s': State, q: nat)
    requires Shape(g, s) && q < g.n && |s'.proc| == g.n && Changes(g, s, a, s', q)
    requires s'.proc[q].parent != s.proc[q].parent && s'.proc[q].parent >= 0
    ensures a.Thread? && (s'.proc[q].parent == s.mode[a.c].p ||
                          (s'.proc[q].parent == 0 && s.pc[s.mode[a.c].p].ReparL?))
  {
  }

  /** A process that is giving its children to init is neither init nor an unused slot. */
  lemma GiverInUse(g: Config, s: State, r: nat)
    requires Inv(g, s) && r < g.n && s.pc[r].ReparL?
    ensures r != 0 && s.proc[r].state != UNUSED
  {
    assert PcOk(g, s, r) && ProcOk(g, s, r);
  }

  /** And gained only by its own step, or by init where somebody else exits. */
  lemma ChildComes(g: Config, s: State, a: Step, s': State, p: nat, q: nat)
    requires Inv(g, s) && Shape(g, s) && Do(g, s, a) == Some(s') && p < g.n && q < g.n && |s'.proc| == g.n
    requires s'.proc[q].parent == p && s.proc[q].parent != p && Actor(g, s, a) != Some(p) && Elders(s)
    ensures p == 0 && HasChild(s, 0, 0)
  {
    hide Do, HasChild, Inv, Elders, ThreadChanges;
    StepChanges(g, s, a, s', q);
    ParentFrom(g, s, a, s', q);
    GiverInUse(g, s, s.mode[a.c].p);
    InitHasChild(g, s, s.mode[a.c].p);
  }

  /** Pids and parents stay in order. */
  lemma StepElders(g: Config, s: State, a: Step, s': State)
    requires Inv(g, s) && Shape(g, s) && Do(g, s, a) == Some(s') && Elders(s)
    ensures Elders(s')
  {
    hide Do, Changes;
    StepChanges(g, s, a, s', 0);
    assert s'.proc[0].pid == 1 by {
      if s'.proc[0] != s.proc[0] { SamePid(g, s, a, s', 0); }
    }
    forall q: nat | q < |s'.proc| && 0 <= s'.proc[q].parent < |s'.proc|
        ensures s'.proc[s'.proc[q].parent].pid < s'.proc[q].pid {
      StepChanges(g, s, a, s', q);
      StepElder(g, s, a, s', q, s'.proc[q].parent);
    }
  }

  /** A process keeps its pid until it is reaped. */
  lemma SamePid(g: Config, s: State, a: Step, s': State, i: nat)
    requires Inv(g, s) && Shape(g, s) && i < g.n && |s'.proc| == g.n && Changes(g, s, a, s', i)
    requires s.proc[i].state != UNUSED && (s.proc[i].state != ZOMBIE || s'.proc[i].state != UNUSED)
    ensures s'.proc[i].pid == s.proc[i].pid
  {
  }

  /** A slot that gets a parent is one that fork has just taken, with the next pid, or has been given to init. */
  lemma NewParent(g: Config, s: State, a: Step, s': State, q: nat)
    requires Shape(g, s) && q < g.n && |s'.proc| == g.n && Changes(g, s, a, s', q)
    requires s'.proc[q].parent != s.proc[q].parent && s'.proc[q].parent >= 0
    ensures a.Thread? && a.c < g.ncpu && s.mode[a.c].Run? && s.mode[a.c].p < g.n
    ensures || (s.proc[q].state == UNUSED && s'.proc[q].pid == s.nextpid
                && s'.proc[q].parent == s.mode[a.c].p && s.pc[s.mode[a.c].p].ForkL?)
            || (s'.proc[q].parent == 0 && s'.proc[q].pid == s.proc[q].pid && s.pc[s.mode[a.c].p].ReparL?
                && s.pc[s.mode[a.c].p].k == q)
    ensures s'.proc[q].parent < g.n
  {
  }

  lemma StepElder(g: Config, s: State, a: Step, s': State, q: nat, p: nat)
    requires Inv(g, s) && Shape(g, s) && Do(g, s, a) == Some(s') && Elders(s) && p < g.n && q < g.n
    requires |s'.proc| == g.n && s'.proc[q].parent == p
    ensures s'.proc[p].pid < s'.proc[q].pid
  {
    hide Do, Changes;
    StepChanges(g, s, a, s', p);
    StepChanges(g, s, a, s', q);
    StepKeeps(g, s, a, s');
    assert FamilyOk(g, s, q) && ProcOk(g, s, q) && FamilyOk(g, s', q) && ProcOk(g, s', q);
    if s'.proc[q].parent == s.proc[q].parent {
      if s'.proc[p] != s.proc[p] { SamePid(g, s, a, s', p); }
      if s'.proc[q] != s.proc[q] { SamePid(g, s, a, s', q); }
    } else {
      NewParent(g, s, a, s', q);
      var r := s.mode[a.c].p;
      if s.pc[r].ForkL? { ForkerInUse(g, s, r); } else { NotInit(g, s, r, q); }
      if s'.proc[p] != s.proc[p] { SamePid(g, s, a, s', p); }
    }
  }

  lemma ForkerInUse(g: Config, s: State, r: nat)
    requires Inv(g, s) && r < g.n && s.pc[r].ForkL?
    ensures s.proc[r].state == RUNNING && s.proc[r].pid < s.nextpid
  {
    assert ProcOk(g, s, r);
  }

  /** init is nobody's child. */
  lemma InitIsFirst(g: Config, s: State)
    requires Inv(g, s) && Elders(s)
    ensures s.proc[0].parent < 0 && s.proc[0].state != UNUSED && s.proc[0].state != ZOMBIE
  {
    assert FamilyOk(g, s, 0);
    if s.proc[0].parent >= 0 { assert false; }
  }

  lemma ChildInUse(g: Config, s: State, q: nat)
    requires Inv(g, s) && q < g.n && s.proc[q].parent >= 0
    ensures s.proc[q].state != UNUSED && s.proc[q].pid > 0
  {
    assert ProcOk(g, s, q);
  }

  lemma GivesOwn(g: Config, s: State, r: nat)
    requires Inv(g, s) && r < g.n && s.pc[r].ReparL?
    ensures s.pc[r].k < g.n && s.proc[s.pc[r].k].parent == r
  {
    assert PcOk(g, s, r);
  }

  /** And its pid is the least. */
  lemma NotInit(g: Config, s: State, r: nat, q: nat)
    requires Inv(g, s) && Elders(s) && r < g.n && s.pc[r].ReparL? && q == s.pc[r].k
    ensures q < g.n && s.proc[q].pid > 1 && s.proc[0].state != UNUSED && s.proc[0].state != ZOMBIE
  {
    InitIsFirst(g, s);
    GivesOwn(g, s, r);
    ChildInUse(g, s, q);
    hide Cpus, Procs, Pcs, Family, Wakes, LocksOk;
    assert q > 0 ==> s.proc[0].pid != s.proc[q].pid;
  }

  lemma OthersKids(g: Config, s: State, a: Step, s': State, p: nat, k: nat)
    requires Inv(g, s) && Shape(g, s) && Do(g, s, a) == Some(s') && p < g.n && Actor(g, s, a) != Some(p) && Elders(s)
    ensures HasChild(s, p, k) ==> HasChild(s', p, k)
    ensures HasChild(s', p, 0) ==> HasChild(s, p, 0)
  {
    hide Do, Inv, Elders;
    StepChanges(g, s, a, s', p);
    if HasChild(s, p, k) {
      var q: nat :| k <= q < |s.proc| && s.proc[q].parent == p;
      ChildStays(g, s, a, s', p, q);
    }
    if HasChild(s', p, 0) {
      var q: nat :| q < |s'.proc| && s'.proc[q].parent == p;
      if s.proc[q].parent != p { ChildComes(g, s, a, s', p, q); }
    }
  }

  /** Nobody falls asleep by another's step, and who is killed wakes up. */
  lemma OthersSleep(g: Config, s: State, a: Step, s': State, p: nat)
    requires Shape(g, s) && p < g.n && |s'.proc| == g.n && Changes(g, s, a, s', p) && Actor(g, s, a) != Some(p)
    requires s'.proc[p].state == SLEEPING
    ensures s.proc[p].state == SLEEPING && s'.proc[p].killed == s.proc[p].killed
  {
  }

  lemma OtherStep(g: Config, s: State, a: Step, s': State, p: nat)
    requires Inv(g, s) && Shape(g, s) && Do(g, s, a) == Some(s') && p < g.n && Actor(g, s, a) != Some(p)
    requires Elders(s) && KidsOk(s, p)
    ensures KidsOk(s', p)
  {
    hide Do, Inv, Elders, HasChild, Changes;
    StepPcs(g, s, a, s', p);
    StepChanges(g, s, a, s', p);
    if s'.proc[p] != s.proc[p] && s'.proc[p].state == SLEEPING { OthersSleep(g, s, a, s', p); }
    OthersKids(g, s, a, s', p, 0);
    if s.pc[p].WScan? { OthersKids(g, s, a, s', p, s.pc[p].k); FromAny(s', p, s.pc[p].k); }
  }

  lemma FromAny(s: State, p: nat, k: nat)
    ensures HasChild(s, p, k) ==> HasChild(s, p, 0)
  {
  }

  /** A look at slot k. */
  lemma NextChild(s: State, p: nat, k: nat)
    requires k < |s.proc|
    ensures HasChild(s, p, k) <==> s.proc[k].parent == p || HasChild(s, p, k + 1)
  {
    if HasChild(s, p, k) {
      var q: nat :| k <= q < |s.proc| && s.proc[q].parent == p;
      assert q != k ==> k + 1 <= q;
    }
    if s.proc[k].parent == p { assert k <= k; }
  }

  lemma SameChildren(s: State, s': State, p: nat, k: nat)
    requires |s'.proc| == |s.proc| && forall q: nat {:trigger s'.proc[q]} :: q < |s.proc| ==>
               s'.proc[q].parent == s.proc[q].parent
    ensures HasChild(s', p, k) <==> HasChild(s, p, k)
  {
    if HasChild(s, p, k) {
      var q: nat :| k <= q < |s.proc| && s.proc[q].parent == p;
      assert s'.proc[q].parent == p;
    }
  }

  lemma WaitKids(g: Config, s: State, c: nat, p: nat, x: Choice, s': State)
    requires Shape(g, s) && c < g.ncpu && p < g.n && WaitStep(g, s, c, p, x) == Some(s') && KidsOk(s, p)
    requires s.pc[p].WScan? ==> s.pc[p].k <= g.n
    requires s.pc[p].WL? ==> s.pc[p].k < g.n && s.proc[s.pc[p].k].parent == p
    ensures KidsOk(s', p)
  {
    hide HasChild;
    match s.pc[p]
    case WScan(k, have) =>
      SameChildren(s, s', p, 0);
      if k < g.n {
        NextChild(s, p, k);
        SameChildren(s, s', p, k + 1);
      } else {
        NoneLeft(s, p, k);
      }
    case WL(k, _) =>
      if s.proc[k].state != ZOMBIE {
        SameChildren(s, s', p, 0);
        NextChild(s, p, k);
        FromAny(s, p, k);
      }
    case WAsleep => FromAny(s', p, 0);
    case _ =>
  }

  lemma NoneLeft(s: State, p: nat, k: nat)
    requires k >= |s.proc|
    ensures !HasChild(s, p, k)
  {
  }

  /** Only wait gets to the points in question. */
  ghost predicate Elsewhere(s: State, p: nat) {
    p < |s.pc| && !s.pc[p].WScan? && !s.pc[p].WAsleep?
  }

  lemma SleepElsewhere(g: Config, s: State, c: nat, p: nat, x: Choice, s': State)
    requires Shape(g, s) && c < g.ncpu && p < g.n && SleepStep(g, s, c, p, x) == Some(s')
    requires s.pc[p].Yielded? ==> Lockless(s.pc[p].to)
    ensures Elsewhere(s', p)
  {
  }

  lemma ExitElsewhere(g: Config, s: State, c: nat, p: nat, s': State)
    requires Shape(g, s) && c < g.ncpu && p < g.n && ExitStep(g, s, c, p) == Some(s')
    ensures Elsewhere(s', p)
  {
    hide Given, Woken;
  }

  lemma UserElsewhere(g: Config, s: State, c: nat, p: nat, x: Choice, s': State)
    requires Shape(g, s) && c < g.ncpu && p < g.n
    requires UserStep(g, s, c, p, x) == Some(s') || KillStep(g, s, c, p) == Some(s')
    ensures Elsewhere(s', p)
  {
    hide Killed;
  }

  lemma ForkElsewhere(g: Config, s: State, c: nat, p: nat, x: Choice, s': State)
    requires Shape(g, s) && c < g.ncpu && p < g.n
    requires WakeStep(g, s, c, p) == Some(s') || ForkStep(g, s, c, p, x) == Some(s')
    ensures Elsewhere(s', p)
  {
    hide Woken;
  }

  lemma NotInWait(g: Config, s: State, c: nat, p: nat, x: Choice, s': State)
    requires Shape(g, s) && c < g.ncpu && p < g.n && ThreadStep(g, s, c, p, x) == Some(s')
    requires x == DoYield || PartOf(s.pc[p]) != AtWait
    requires s.pc[p].Yielded? ==> Lockless(s.pc[p].to)
    ensures Elsewhere(s', p)
  {
    if x == DoYield { return; }
    hide UserStep, SleepStep, WakeStep, ForkStep, ExitStep, WaitStep, KillStep;
    match PartOf(s.pc[p])
    case AtSleep => SleepElsewhere(g, s, c, p, x, s');
    case AtExit => ExitElsewhere(g, s, c, p, s');
    case AtUser => UserElsewhere(g, s, c, p, x, s');
    case AtKill => UserElsewhere(g, s, c, p, x, s');
    case _ => ForkElsewhere(g, s, c, p, x, s');
  }

  lemma OwnStep(g: Config, s: State, c: nat, p: nat, x: Choice, s': State)
    requires Inv(g, s) && Shape(g, s) && c < g.ncpu && p < g.n && ThreadStep(g, s, c, p, x) == Some(s') && KidsOk(s, p)
    ensures p < |s'.proc| ==> KidsOk(s', p)
  {
    assert PcOk(g, s, p);
    if x == DoYield || PartOf(s.pc[p]) != AtWait {
      hide ThreadStep;
      NotInWait(g, s, c, p, x, s');
    } else {
      hide HasChild, WaitStep;
      WaitKids(g, s, c, p, x, s');
    }
  }

  lemma StepKids(g: Config, s: State, a: Step, s': State)
    requires Inv(g, s) && Shape(g, s) && Do(g, s, a) == Some(s') && Kids(g, s)
    ensures Kids(g, s')
  {
    hide Inv, Elders, KidsOk, ThreadStep, SchedStep, IntrStep;
    StepElders(g, s, a, s');
    forall p: nat | p < g.n ensures KidsOk(s', p) {
      assert KidsOk(s, p);
      StepChanges(g, s, a, s', p);
      if Actor(g, s, a) == Some(p) { OwnStep(g, s, a.c, p, a.x, s'); } else { OtherStep(g, s, a, s', p); }
    }
  }

  lemma {:induction false} RunKids(g: Config, s: State, run: seq<Step>)
    requires Inv(g, s) && Kids(g, s) && After(g, s, run).Some?
    ensures Kids(g, After(g, s, run).value)
    decreases |run|
  {
    hide Do, Shape, Kids;
    if run != [] {
      var next := Do(g, s, run[0]).value;
      StepKids(g, s, run[0], next);
      StepKeeps(g, s, run[0], next);
      RunKids(g, next, run[1..]);
    }
  }

  lemma ReachableKids(g: Config, s: State)
    requires Reachable(g, s)
    ensures Inv(g, s) && Kids(g, s)
  {
    ReachableInv(g, s);
    hide Inv;
    var cond: seq<bool>, run: seq<Step> :| |cond| == |g.lockOf| && After(g, Boot(g, cond), run) == Some(s);
    BootInv(g, cond);
    assert Kids(g, Boot(g, cond));
    RunKids(g, Boot(g, cond), run);
  }

  /** Processes are a tree with init at its root: every other has a parent, with a smaller pid, and so init has a
      child as long as there is any other. */
  lemma FamilyTree(g: Config, s: State, r: nat)
    requires Reachable(g, s) && 0 < r < |s.proc| && s.proc[r].state != UNUSED
    ensures s.proc[0].pid == 1 && s.proc[0].parent < 0
    ensures 0 <= s.proc[r].parent < |s.proc| && s.proc[s.proc[r].parent].pid < s.proc[r].pid
    ensures exists q: nat :: q < |s.proc| && s.proc[q].parent == 0 && s.proc[q].state != UNUSED
  {
    hide Reachable;
    ReachableKids(g, s);
    InitIsFirst(g, s);
    InitHasChild(g, s, r);
    var q: nat :| q < |s.proc| && s.proc[q].parent == 0;
    ChildInUse(g, s, q);
    assert FamilyOk(g, s, r);
  }

  // ---------------------------------------------------------------------------------
  // wait.

  /** A process asleep in wait has a child in use to wait for, and has not been killed. */
  lemma WaitsForChild(g: Config, s: State, p: nat)
    requires Reachable(g, s) && p < |s.proc| && s.proc[p].state == SLEEPING && s.proc[p].chan == OfProc(p)
    ensures exists q: nat :: q < |s.proc| && s.proc[q].parent == p && s.proc[q].state != UNUSED
    ensures !s.proc[p].killed
  {
    hide Reachable;
    ReachableKids(g, s);
    assert KidsOk(s, p) && ProcOk(g, s, p);
    var q: nat :| q < |s.proc| && s.proc[q].parent == p;
    ChildInUse(g, s, q);
  }

  /** Where a wait comes out, it has reaped a child, or its copyout has failed (it is at WRel), or it has been
      killed, or the process has no child in use. */
  lemma WaitGivesUp(g: Config, s: State, c: nat, x: Choice, s': State, p: nat)
    requires Reachable(g, s) && Shape(g, s) && Do(g, s, Thread(c, x)) == Some(s') && x != DoYield
    requires c < g.ncpu && p < g.n && s.mode[c] == Run(p) && PartOf(s.pc[p]) == AtWait
    requires p < |s'.pc| && s'.pc[p] == User
    ensures s.pc[p] == WRel || s.proc[p].killed
            || forall q: nat :: q < g.n ==> s.proc[q].parent != p || s.proc[q].state == UNUSED
    ensures s'.proc == s.proc && s'.reaped == s.reaped
  {
    hide Reachable, Inv;
    ReachableKids(g, s);
    assert KidsOk(s, p);
    ScanInRange(g, s, p);
    assert WaitStep(g, s, c, p, x) == Some(s');
    if s.pc[p] != WRel && !s.proc[p].killed { NoneLeft(s, p, s.pc[p].k); }
  }

  lemma ScanInRange(g: Config, s: State, p: nat)
    requires Inv(g, s) && p < g.n
    ensures s.pc[p].WScan? ==> s.pc[p].k <= g.n
    ensures s.pc[p].WL? ==> s.pc[p].k < g.n && s.proc[s.pc[p].k].parent == p
  {
    assert PcOk(g, s, p);
  }

  /** And it gets to WRel only from a child of its own that is dead, which it has reaped unless the copyout
      failed. */
  lemma WaitReaps(g: Config, s: State, c: nat, x: Choice, s': State, p: nat)
    requires Reachable(g, s) && Shape(g, s) && Do(g, s, Thread(c, x)) == Some(s') && x != DoYield
    requires c < g.ncpu && p < g.n && s.mode[c] == Run(p) && PartOf(s.pc[p]) == AtWait
    requires p < |s'.pc| && s'.pc[p] == WRel
    ensures s.pc[p].WL? && s.pc[p].k < g.n
    ensures var k := s.pc[p].k;
            && s.proc[k].parent == p && s.proc[k].state == ZOMBIE
            && s'.proc == (if x == Fail then s.proc else s.proc[k := Proc(UNUSED, NoChan, -1, 0, false, false)])
            && s'.reaped == if x == Fail then s.reaped else s.reaped + [s.proc[k].pid]
  {
    hide Reachable, Inv;
    ReachableInv(g, s);
    ScanInRange(g, s, p);
    assert WaitStep(g, s, c, p, x) == Some(s');
  }

  // ---------------------------------------------------------------------------------
  // exit.

  /** When a process becomes a zombie it has no children left, and the parent that it looked up, which is its
      parent unless it has been given to init since, is not asleep in wait; nothing else changes. */
  lemma ExitLeaves(g: Config, s: State, c: nat, x: Choice, s': State, p: nat, op: nat, k: nat)
    requires Reachable(g, s) && Shape(g, s) && Do(g, s, Thread(c, x)) == Some(s') && x != DoYield
    requires c < g.ncpu && p < g.n && s.mode[c] == Run(p) && s.pc[p] == Repar(op, k) && k >= g.n
    ensures |s'.proc| == g.n && s'.proc[p].state == ZOMBIE && op < g.n && op != p
    ensures forall q: nat {:trigger s'.proc[q]} :: q < g.n ==> s'.proc[q].parent != p
    ensures s.proc[p].gave || s.proc[p].parent == op
    ensures !(s'.proc[op].state == SLEEPING && s'.proc[op].chan == OfProc(op))
    ensures forall q: nat {:trigger s'.proc[q]} :: q < g.n && q != p ==>
              s'.proc[q] == s.proc[q] || (q == op && s'.proc[q].state == RUNNABLE && s.proc[q].chan == OfProc(q))
  {
    hide Reachable, Inv;
    ReachableInv(g, s);
    assert ExitStep(g, s, c, p) == Some(s');
    LastStep(g, s, p, op, k);
    var w := s.proc[op := Woken(s.proc[op], OfProc(op))];
    assert s'.proc == w[p := w[p].(state := ZOMBIE)];
  }

  lemma LastStep(g: Config, s: State, p: nat, op: nat, k: nat)
    requires Inv(g, s) && p < g.n && s.pc[p] == Repar(op, k) && k >= g.n
    ensures op < g.n && op != p && (s.proc[p].gave || s.proc[p].parent == op)
    ensures forall q: nat {:trigger s.proc[q]} :: q < g.n ==> s.proc[q].parent != p
  {
    assert PcOk(g, s, p);
    forall q: nat | q < g.n ensures s.proc[q].parent != p { assert FamilyOk(g, s, q); }
  }

  /** Before it gives its children away, it has woken init from its wait. */
  lemma ExitWakesInit(g: Config, s: State, c: nat, x: Choice, s': State, p: nat)
    requires Reachable(g, s) && Shape(g, s) && Do(g, s, Thread(c, x)) == Some(s') && x != DoYield
    requires c < g.ncpu && p < g.n && s.mode[c] == Run(p) && s.pc[p] == Exit2
    ensures |s'.proc| == g.n && !(s'.proc[0].state == SLEEPING && s'.proc[0].chan == OfProc(0))
    ensures forall q: nat {:trigger s'.proc[q]} :: 0 < q < g.n ==> s'.proc[q] == s.proc[q]
    ensures s.lock[P(0)] == Cpu(c) && p != 0
  {
    hide Reachable, Inv;
    ReachableInv(g, s);
    HoldsInit(g, s, c, p);
    assert ExitStep(g, s, c, p) == Some(s');
  }

  lemma HoldsInit(g: Config, s: State, c: nat, p: nat)
    requires Running(g, s, c, p) && s.pc[p] == Exit2
    ensures P(0) in s.lock && s.lock[P(0)] == Cpu(c) && p != 0
  {
    assert PcOk(g, s, p) && CpuOk(g, s, c);
    assert CpuHolds(g, s, c, P(0)) <==> s.lock[P(0)] == Cpu(c);
  }
}
