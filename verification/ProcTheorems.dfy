/** What holds in every state the process table can reach. */
module ProcTheorems {
  import opened ProcMachine
  import opened ProcInv
  import opened ProcRuns

  /** With p->lock free, p is RUNNING exactly when some CPU has it as c->proc, and then only one. */
  lemma RunningOnOneCpu(g: Config, s: State, p: nat)
    requires Reachable(g, s) && p < |s.proc| && P(p) in s.lock && s.lock[P(p)] == Nobody
    ensures s.proc[p].state == RUNNING <==> exists c: nat :: c < |s.curr| && s.curr[c] == p
    ensures forall c: nat, d: nat :: c < |s.curr| && d < |s.curr| && s.curr[c] == s.curr[d] == p ==> c == d
  {
    ReachableInv(g, s);
    assert ProcOk(g, s, p);
    forall c: nat | c < |s.curr| && s.curr[c] == p ensures s.proc[p].state == RUNNING && s.at[p] == c {
      assert CpuOk(g, s, c);
      assert CpuHolds(g, s, c, P(p)) <==> s.lock[P(p)] == Cpu(c);
    }
    if s.proc[p].state == RUNNING {
      assert CpuOk(g, s, s.at[p]);
    }
  }

  /** A CPU that comes back to its scheduler holds the lock of the process it ran, and no other. */
  lemma SchedHoldsOne(g: Config, s: State, c: nat, p: nat, lk: Lock)
    requires Reachable(g, s) && c < |s.mode| && s.mode[c] == Back(p) && lk in s.lock
    ensures s.lock[lk] == Cpu(c) <==> lk == P(p)
  {
    ReachableInv(g, s);
    assert CpuHolds(g, s, c, lk) <==> s.lock[lk] == Cpu(c);
  }

  /** k's thread has found the condition of ch false under its lock and called sleep. */
  predicate CalledSleep(pc: Pc, ch: nat) {
    pc == Sleep1(ch) || pc == Sleep2(ch) || pc == Sleep3(ch) || pc == Asleep(ch)
  }

  /** A wakeup(ch) under that lock, when it comes to k, finds it SLEEPING on ch, unless something has
      made it RUNNABLE before. */
  lemma FoundSleeping(g: Config, s: State, c: nat, p: nat, ch: nat, k: nat)
    requires Reachable(g, s) && c < |s.mode| && s.mode[c] == Run(p) && p < |s.pc| && s.pc[p] == WakeL(ch, k)
    requires k < |s.pc| && k < |s.proc| && CalledSleep(s.pc[k], ch)
    ensures s.pc[k] == Asleep(ch) && s.proc[k].chan == Cond(ch)
    ensures s.proc[k].state == SLEEPING || s.proc[k].state == RUNNABLE
  {
    ReachableInv(g, s);
    RunningFacts(g, s, c, p);
    assert ProcOk(g, s, k);
    var lk := L(g.lockOf[ch]);
    assert Holds(g, s.pc[p], p, P(k)) && Holds(g, s.pc[p], p, lk);
    var c': nat := if s.at[k] >= 0 then s.at[k] else c;
    assert CpuHolds(g, s, c', P(k)) <==> s.lock[P(k)] == Cpu(c');
    assert CpuHolds(g, s, c', lk) <==> s.lock[lk] == Cpu(c');
  }

  /** The same of a wakeup by an interrupt handler. */
  lemma FoundByHandler(g: Config, s: State, e: nat, ch: nat, k: nat)
    requires Reachable(g, s) && e < |s.ipc| && s.ipc[e] == WakeL(ch, k)
    requires k < |s.pc| && k < |s.proc| && CalledSleep(s.pc[k], ch)
    ensures s.pc[k] == Asleep(ch) && s.proc[k].chan == Cond(ch)
    ensures s.proc[k].state == SLEEPING || s.proc[k].state == RUNNABLE
  {
    ReachableInv(g, s);
    assert IntrOk(g, s, e) && ProcOk(g, s, k);
    var lk := L(g.lockOf[ch]);
    assert IntrHolds(g, s, e, P(k)) && IntrHolds(g, s, e, lk);
    var c: nat := if s.at[k] >= 0 then s.at[k] else 0;
    assert c < g.ncpu ==> (CpuHolds(g, s, c, P(k)) <==> s.lock[P(k)] == Cpu(c));
    assert c < g.ncpu ==> (CpuHolds(g, s, c, lk) <==> s.lock[lk] == Cpu(c));
  }

  /** No lost wakeup: once a condition is true and its lock is free, nobody is asleep for it or on the
      way to it. */
  lemma NoLostWakeup(g: Config, s: State, ch: nat, p: nat)
    requires Reachable(g, s) && Shape(g, s) && p < g.n
    requires ch < |g.lockOf| && s.cond[ch] && s.lock[L(g.lockOf[ch])] == Nobody
    ensures !(s.proc[p].state == SLEEPING && s.proc[p].chan == Cond(ch)) && !Dozing(s, p, ch)
  {
    ReachableInv(g, s);
    assert ProcOk(g, s, p) && WakeOk(g, s, ch, p);
  }

  /** A parent is never asleep in wait while a child of its is a zombie, unless the child was given to it
      (to init) after the child had looked up its parent, or dead. */
  lemma ZombieNotMissed(g: Config, s: State, p: nat, q: nat)
    requires Reachable(g, s) && p < |s.proc| && q < |s.proc|
    requires s.proc[q].state == ZOMBIE && s.proc[q].parent == p && !s.proc[q].gave
    ensures !(s.proc[p].state == SLEEPING && s.proc[p].chan == OfProc(p))
  {
    ReachableInv(g, s);
    assert FamilyOk(g, s, q) && ProcOk(g, s, p);
  }

  /** Every process but init has a parent that is neither unused nor a zombie. */
  lemma ParentAlive(g: Config, s: State, q: nat)
    requires Reachable(g, s) && 0 < q < |s.proc| && s.proc[q].state != UNUSED
    ensures 0 <= s.proc[q].parent < |s.proc|
    ensures s.proc[s.proc[q].parent].state != UNUSED && s.proc[s.proc[q].parent].state != ZOMBIE
  {
    ReachableInv(g, s);
    assert FamilyOk(g, s, q);
  }

  /** Live pids are distinct. */
  lemma LivePidsDistinct(g: Config, s: State, i: nat, j: nat)
    requires Reachable(g, s) && i < |s.proc| && j < |s.proc| && i != j
    requires s.proc[i].state != UNUSED && s.proc[j].state != UNUSED
    ensures s.proc[i].pid != s.proc[j].pid && s.proc[i].pid > 0
  {
    ReachableInv(g, s);
    if i < j { var x, y := s.proc[i], s.proc[j]; } else { var x, y := s.proc[j], s.proc[i]; }
  }

  /** wait returns each child at most once, and no process bears the pid of one that is gone. */
  lemma ReapedOnce(g: Config, s: State)
    requires Reachable(g, s)
    ensures forall r: nat, t: nat :: r < t < |s.reaped| ==> s.reaped[r] != s.reaped[t]
    ensures forall r: nat, i: nat :: r < |s.reaped| && i < |s.proc| ==> s.reaped[r] != s.proc[i].pid
  {
    ReachableInv(g, s);
  }

  /** What wait reaps is a child of the process that waits, even though it looked at the child's
      parent without the child's lock. */
  lemma ReapsOwnChild(g: Config, s: State, c: nat, p: nat, k: nat, have: bool)
    requires Reachable(g, s) && Shape(g, s) && c < |s.mode| && s.mode[c] == Run(p) && p < |s.pc|
             && s.pc[p] == WL(k, have)
    ensures k < |s.proc| && s.proc[k].parent == p && k != p
    ensures s.proc[k].state == ZOMBIE ==> s.pc[k] == Dead && s.at[k] == -1
  {
    ReachableInv(g, s);
    RunningFacts(g, s, c, p);
    if s.proc[k].state == ZOMBIE {
      assert Holds(g, s.pc[p], p, P(k));
      ZombieIsOff(g, s, c, p, k);
      assert ProcOk(g, s, k);
    }
  }
}
