/** Log space reservation (begin_op and log_write in kernel/log.c): which per-operation
    budgets keep log_write's "too big a transaction" panic out of reach. */
module LogBudget {
  import opened Common
  import opened Replay
  import opened LogMachine

  /** A budget of MAXOPBLOCKS - 1 new blocks is what the reservation can honour. */
  const BUDGET: nat := MAXOPBLOCKS - 1

  /** What the operations in progress may still add, each within BUDGET. */
  ghost function Slack(ops: map<nat, Op>): int {
    if ops == map[] then 0 else
    var id :| id in ops;
    BUDGET - ops[id].added + Slack(ops - {id})
  }

  lemma {:induction false} SlackSplit(ops: map<nat, Op>, id: nat)
    requires id in ops
    ensures Slack(ops) == BUDGET - ops[id].added + Slack(ops - {id})
    decreases |ops|
  {
    var j :| j in ops && Slack(ops) == BUDGET - ops[j].added + Slack(ops - {j});
    if j != id {
      SlackSplit(ops - {j}, id);
      SlackSplit(ops - {id}, j);
      assert ops - {j} - {id} == ops - {id} - {j};
    }
  }

  lemma SlackSet(ops: map<nat, Op>, id: nat, op: Op)
    ensures Slack(ops[id := op]) == BUDGET - op.added + Slack(ops - {id})
  {
    SlackSplit(ops[id := op], id);
    assert ops[id := op] - {id} == ops - {id};
  }

  ghost predicate Within(ops: map<nat, Op>) {
    forall id :: id in ops ==> ops[id].added <= BUDGET
  }

  lemma {:induction false} SlackBounds(ops: map<nat, Op>)
    requires Within(ops)
    ensures 0 <= Slack(ops) <= BUDGET * |ops|
    decreases |ops|
  {
    if ops != map[] {
      var id :| id in ops && Slack(ops) == BUDGET - ops[id].added + Slack(ops - {id});
      SlackBounds(ops - {id});
      assert |(ops - {id}).Keys| == |ops.Keys| - 1 by { assert (ops - {id}).Keys == ops.Keys - {id}; }
    }
  }

  /** The log plus all unused budgets leaves two blocks of LOGSIZE free. */
  ghost predicate Reserved(s: State) {
    s.phase.Running? ==> Within(s.ops) && |s.lh| + Slack(s.ops) <= LOGSIZE - 2
  }

  /** The log is empty between transactions (a consequence of the machine's invariant). */
  ghost predicate Between(s: State) {
    && (s.ops != map[] ==> s.phase.Running?)
    && (s.ops == map[] && (s.phase.Running? || s.phase.Done?) ==> s.lh == [])
  }

  lemma TickKeepsReserved(L: Layout, s: State)
    requires Fits(L, s.disk) && Fits(L, s.mem) && Loggable(L, s.lh) && 0 <= s.disk[L.start][0] <= LOGSIZE
    requires !s.phase.Running? && Between(s)
    ensures Reserved(Ticked(L, s))
  {
  }

  lemma StepKeepsReserved(L: Layout, cap: nat, s: State, step: Step, s': State)
    requires Next(L, cap, s, step, s') && cap <= BUDGET
    requires Between(s) && Reserved(s)
    ensures Reserved(s')
  {
    hide Ticked, Entries, Headed, Loggable;
    match step
    case Begin(id) =>
      SlackBounds(s.ops);
      SlackSet(s.ops, id, Op(0, {}));
      assert s.ops - {id} == s.ops;
    case Modify(id, b, v) =>
      SlackSplit(s.ops, id);
      SlackSet(s.ops, id, s'.ops[id]);
    case LogWrite(id, b) =>
      SlackSplit(s.ops, id);
      SlackSet(s.ops, id, s'.ops[id]);
    case End(id) =>
      SlackSplit(s.ops, id);
    case Tick =>
      TickKeepsReserved(L, s);
    case _ =>
  }

  lemma {:induction false} RunKeepsReserved(L: Layout, cap: nat, run: seq<State>, steps: seq<Step>, k: nat)
    requires IsRun(L, cap, run, steps) && k < |run| && cap <= BUDGET
    ensures Reserved(run[k])
  {
    hide Next, Recovered, SameHome, Shown;
    if k > 0 {
      RunKeepsReserved(L, cap, run, steps, k - 1);
      var base, j := RunKeepsInv(L, cap, run, steps, k - 1);
      StepKeepsReserved(L, cap, run[k - 1], steps[k - 1], run[k]);
    }
  }

  /** The state is one log_write call away from the panic. */
  ghost predicate AboutToPanic(L: Layout, cap: nat, s: State) {
    s.phase.Running? && L.TooBig(|s.lh|) && exists id, b :: Calls(cap, s, id, b)
  }

  ghost predicate CanPanic(L: Layout, cap: nat) {
    exists run, steps :: IsRun(L, cap, run, steps) && AboutToPanic(L, cap, run[|steps|])
  }

  lemma BudgetKept(L: Layout, cap: nat, run: seq<State>, steps: seq<Step>, k: nat)
    requires IsRun(L, cap, run, steps) && k < |run| && cap <= BUDGET && L.size >= LOGSIZE
    ensures !AboutToPanic(L, cap, run[k])
  {
    RunKeepsReserved(L, cap, run, steps, k);
    if run[k].phase.Running? { SlackBounds(run[k].ops); }
  }

  // ---------------------------------------------------------------------------------
  // With one block more per operation the panic is reachable: three operations are
  // admitted into the empty log and fill it.

  function Clamp(k: int): nat {
    if k <= 0 then 0 else if k <= 10 then k else 10
  }

  /** Three operations in progress, k blocks logged, operation 0 first to fill its share. */
  function Filling(L: Layout, d: Disk, k: nat): State {
    State(d, d, seq(k, i => L.start + L.size + i),
          map[0 := Op(Clamp(k), {}), 1 := Op(Clamp(k - 10), {}), 2 := Op(Clamp(k - 20), {})], {}, Running)
  }

  /** The operation that logs the k-th block. */
  function Filler(k: nat): nat {
    if k < 10 then 0 else if k < 20 then 1 else 2
  }

  function Held(s: State, id: nat, b: int): State
    requires id in s.ops
  {
    s.(ops := s.ops[id := s.ops[id].(dirty := {b})])
  }

  ghost predicate Roomy(L: Layout) {
    L.Valid() && L.size >= LOGSIZE && L.start + L.size + LOGSIZE <= L.nblocks
  }

  lemma FillBegins(L: Layout, cap: nat, d: Disk) returns (run: seq<State>, steps: seq<Step>)
    requires Roomy(L) && HeaderEmpty(L, d) && cap >= MAXOPBLOCKS
    ensures IsRun(L, cap, run, steps) && run[|steps|] == Filling(L, d, 0)
  {
    var s0 := Booted(d);
    var s1 := s0.(phase := RecInstall(0));
    var s2 := s0.(phase := RecClear);
    var s3 := s0.(phase := Running);
    var s4 := s3.(ops := map[0 := Op(0, {})]);
    var s5 := s3.(ops := map[0 := Op(0, {}), 1 := Op(0, {})]);
    var s6 := s3.(ops := map[0 := Op(0, {}), 1 := Op(0, {}), 2 := Op(0, {})]);
    assert Headed(d[L.start], []) == d[L.start];
    assert d[L.start := d[L.start]] == d;
    assert |s4.ops.Keys| == 1 && |s5.ops.Keys| == 2;
    run, steps := [s0, s1, s2, s3, s4, s5, s6], [Tick, Tick, Tick, Begin(0), Begin(1), Begin(2)];
    assert s5.ops == s4.ops[1 := Op(0, {})] && s6.ops == s5.ops[2 := Op(0, {})];
    assert s6 == Filling(L, d, 0);
  }

  lemma FillOne(L: Layout, cap: nat, d: Disk, k: nat)
    requires Roomy(L) && HeaderEmpty(L, d) && cap >= MAXOPBLOCKS && k < LOGSIZE
    ensures var s, id, b := Filling(L, d, k), Filler(k), L.start + L.size + k;
            && Next(L, cap, s, Modify(id, b, d[b]), Held(s, id, b))
            && Calls(cap, Held(s, id, b), id, b)
            && (!L.TooBig(k) ==> Next(L, cap, Held(s, id, b), LogWrite(id, b), Filling(L, d, k + 1)))
  {
    var s, id, b := Filling(L, d, k), Filler(k), L.start + L.size + k;
    var h := Held(s, id, b);
    assert d[b := d[b]] == d;
    assert L.Home(b);
    assert {} + {b} == {b} && {b} - {b} == {};
    if !L.TooBig(k) {
      assert Absorbed(h.lh, b) == Filling(L, d, k + 1).lh;
      assert h.ops[id := Op(h.ops[id].added + 1, {b} - {b})] == Filling(L, d, k + 1).ops;
    }
  }

  lemma {:induction false} Fill(L: Layout, cap: nat, d: Disk, k: nat) returns (run: seq<State>, steps: seq<Step>)
    requires Roomy(L) && HeaderEmpty(L, d) && cap >= MAXOPBLOCKS
    requires k <= LOGSIZE && (k > 0 ==> !L.TooBig(k - 1))
    ensures IsRun(L, cap, run, steps) && run[|steps|] == Filling(L, d, k)
  {
    if k == 0 {
      run, steps := FillBegins(L, cap, d);
    } else {
      run, steps := Fill(L, cap, d, k - 1);
      var s, id, b := Filling(L, d, k - 1), Filler(k - 1), L.start + L.size + k - 1;
      FillOne(L, cap, d, k - 1);
      run := Extend(L, cap, run, steps, Modify(id, b, d[b]), Held(s, id, b));
      steps := steps + [Modify(id, b, d[b])];
      run := Extend(L, cap, run, steps, LogWrite(id, b), Filling(L, d, k));
      steps := steps + [LogWrite(id, b)];
    }
  }

  lemma Extend(L: Layout, cap: nat, run: seq<State>, steps: seq<Step>, step: Step, s: State) returns (run': seq<State>)
    requires IsRun(L, cap, run, steps) && Next(L, cap, run[|steps|], step, s)
    ensures run' == run + [s] && IsRun(L, cap, run', steps + [step])
  {
    run' := run + [s];
    var steps' := steps + [step];
    forall i | 0 <= i < |steps'| ensures Next(L, cap, run'[i], steps'[i], run'[i + 1]) {
      if i < |steps| { assert run'[i] == run[i] && run'[i + 1] == run[i + 1]; }
    }
  }

  lemma BudgetBroken(L: Layout, cap: nat, d: Disk)
    requires Roomy(L) && HeaderEmpty(L, d) && cap >= MAXOPBLOCKS
    ensures CanPanic(L, cap)
  {
    var k := if L.size == LOGSIZE then LOGSIZE - 1 else LOGSIZE;
    var run, steps := Fill(L, cap, d, k);
    var s := Filling(L, d, k);
    var id, b, step, h;
    if L.size == LOGSIZE {
      id, b := Filler(k), L.start + L.size + k;
      FillOne(L, cap, d, k);
      step, h := Modify(id, b, d[b]), Held(s, id, b);
    } else {  // an absorbed write trips the check too
      id, b := 0, L.start + L.size;
      step, h := Modify(id, b, d[b]), Held(s, id, b);
      assert s.lh[0] == b && L.Home(b);
      assert d[b := d[b]] == d && {} + {b} == {b};
    }
    assert Calls(cap, h, id, b);
    run := Extend(L, cap, run, steps, step, h);
    steps := steps + [step];
    assert AboutToPanic(L, cap, run[|steps|]);
  }

  /** For a log of at least LOGSIZE blocks (mkfs makes it exactly that) the panic is out of reach
      exactly when no operation adds more than MAXOPBLOCKS - 1 blocks, absorbed writes included. */
  lemma BudgetExact(L: Layout, cap: nat)
    requires Roomy(L)
    ensures CanPanic(L, cap) <==> cap > BUDGET
  {
    if cap > BUDGET {
      var d: Disk := seq(L.nblocks, _ => seq(WORDS, _ => 0));
      BudgetBroken(L, cap, d);
    } else {
      forall run, steps | IsRun(L, cap, run, steps) ensures !AboutToPanic(L, cap, run[|steps|]) {
        BudgetKept(L, cap, run, steps, |steps|);
      }
    }
  }
}
