/** Whole runs of the agent, and how a property that every step decides lifts to them. */
module AgentRuns {
  import opened AgentModel

  /** The property holds at the start and after every turn. */
  ghost predicate Always(s: Agent, turns: seq<Turn>, good: Agent -> bool) {
    good(RunTurns(s, turns)) && (turns != [] ==> Always(s, turns[..|turns| - 1], good))
  }

  /** No turn was of this kind when it was taken. */
  ghost predicate Never(s: Agent, turns: seq<Turn>, bad: (Agent, Input, Outcome) -> bool) {
    turns != [] ==>
      var init, last := turns[..|turns| - 1], turns[|turns| - 1];
      Never(s, init, bad) && !bad(RunTurns(s, init), last.input, last.outcome)
  }

  /** Always and Never speak of every moment of the run. */
  lemma {:induction false} AlwaysMeans(s: Agent, turns: seq<Turn>, good: Agent -> bool)
    ensures Always(s, turns, good) <==> forall k | 0 <= k <= |turns| :: good(RunTurns(s, turns[..k]))
  {
    assert turns[..|turns|] == turns;
    if turns != [] {
      var init := turns[..|turns| - 1];
      AlwaysMeans(s, init, good);
      assert forall k | 0 <= k <= |init| :: init[..k] == turns[..k];
    }
  }

  /** Where each step keeps a property exactly unless it is of the bad kind, the property holds all
      along a run if and only if no bad turn occurs in it. */
  lemma {:induction false} StepwiseExact(s: Agent, turns: seq<Turn>, good: Agent -> bool, bad: (Agent, Input, Outcome) -> bool)
    requires good(s)
    requires forall t, i, o | good(t) :: good(Step(t, i, o)) <==> !bad(t, i, o)
    ensures Always(s, turns, good) <==> Never(s, turns, bad)
  {
    if turns != [] {
      StepwiseExact(s, turns[..|turns| - 1], good, bad);
    }
  }

  /** What every step keeps holds all along every run. */
  lemma {:induction false} StepwiseKept(s: Agent, turns: seq<Turn>, good: Agent -> bool)
    requires good(s)
    requires forall t, i, o | good(t) :: good(Step(t, i, o))
    ensures good(RunTurns(s, turns))
  {
    if turns != [] {
      StepwiseKept(s, turns[..|turns| - 1], good);
    }
  }

  lemma TwoTurns(s: Agent, a: Turn, b: Turn)
    ensures RunTurns(s, [a]) == Step(s, a.input, a.outcome)
    ensures RunTurns(s, [a, b]) == Step(Step(s, a.input, a.outcome), b.input, b.outcome)
  {
    assert [a][..0] == [] && [a, b][..1] == [a];
  }

  lemma ThreeTurns(s: Agent, a: Turn, b: Turn, c: Turn)
    ensures RunTurns(s, [a, b, c]) == Step(RunTurns(s, [a, b]), c.input, c.outcome)
  {
    assert [a, b, c][..2] == [a, b];
  }
}
