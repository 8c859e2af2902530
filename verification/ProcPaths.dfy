/** Runs of the process machine put together from steps. */
module ProcPaths {
  import opened ProcMachine
  import opened ProcInv
  import opened ProcRuns

  /** A run leads from s to s'. */
  ghost predicate Leads(g: Config, s: State, s': State) {
    exists run: seq<Step> :: After(g, s, run) == Some(s')
  }

  lemma {:induction false} AfterTwo(g: Config, s: State, run: seq<Step>, s1: State, run1: seq<Step>, s2: State)
    requires After(g, s, run) == Some(s1) && After(g, s1, run1) == Some(s2)
    ensures After(g, s, run + run1) == Some(s2)
    decreases |run|
  {
    hide Do, Shape;
    if run == [] {
      assert run + run1 == run1;
    } else {
      assert (run + run1)[1..] == run[1..] + run1;
      AfterTwo(g, Do(g, s, run[0]).value, run[1..], s1, run1, s2);
    }
  }

  lemma Then(g: Config, s: State, s1: State, s2: State)
    requires Leads(g, s, s1) && Leads(g, s1, s2)
    ensures Leads(g, s, s2)
  {
    var run: seq<Step> :| After(g, s, run) == Some(s1);
    var run1: seq<Step> :| After(g, s1, run1) == Some(s2);
    AfterTwo(g, s, run, s1, run1, s2);
  }

  lemma One(g: Config, s: State, a: Step, s': State)
    requires Inv(g, s) && Shape(g, s) && Do(g, s, a) == Some(s')
    ensures Leads(g, s, s') && Inv(g, s') && Shape(g, s')
  {
    hide Do;
    StepKeeps(g, s, a, s');
    assert [a][1..] == [];
    assert After(g, s', []) == Some(s');
    assert After(g, s, [a]) == Some(s');
  }
}
