/** Passes that rewrite instructions one for one: they preserve runs when, under a fact that holds
    whenever control is at an index, the new instruction does there what the old one did. */
module Lockstep {
  import opened Word64
  import opened IR
  import opened Simulation
  import opened LoweredForm

  /** A fact about the data of a run whenever control is at an index. */
  type Fact = (nat, Data) -> bool

  ghost predicate KeepsStep(env: Env, p: Code, q: Code, fact: Fact, i: nat, d: Data)
    requires i < |p| && |p| == |q|
  {
    var o := Exec(env, p[i], d);
    || o.Stuck?
    || (&& Exec(env, q[i], d) == o
        && (o.Next? ==> fact(i + 1, o.data))
        && (o.Goto? ==> fact(Find(p, o.to) + 1, d)))
  }

  ghost function Together(fact: Fact): Relation {
    (s: State, t: State) => s.Run? && s == t && fact(s.pc, s.data)
  }

  lemma LockstepAdvances(env: Env, p: Code, q: Code, fact: Fact, s: State)
    requires SameControl(p, q)
    requires forall i: nat, d: Data :: i < |p| && fact(i, d) ==> KeepsStep(env, p, q, fact, i, d)
    requires s.Run? && fact(s.pc, s.data)
    ensures Advances(env, p, q, Together(fact), s, s)
  {
    if s.pc < |p| {
      assert KeepsStep(env, p, q, fact, s.pc, s.data);
      var o := Exec(env, p[s.pc], s.data);
      if o.Goto? { SameControlSameFind(p, q, o.to); }
    }
    assert Steps(env, p, s, 1) == Step(env, p, s) && Steps(env, q, s, 1) == Step(env, q, s);
    assert MatchedBy(env, p, q, Together(fact), s, s, 1, 1);
  }

  lemma LockstepPreserves(env: Env, p: Code, q: Code, fact: Fact)
    requires SameControl(p, q)
    requires forall i: nat, d: Data :: i < |p| && fact(i, d) ==> KeepsStep(env, p, q, fact, i, d)
    requires forall slots: Slots :: fact(0, Start(slots).data)
    ensures Preserves(env, p, q)
  {
    var r := Together(fact);
    forall s: State, t: State | s.Run? && t.Run? && s.data.trace == t.data.trace && r(s, t)
      ensures Advances(env, p, q, r, s, t)
    {
      LockstepAdvances(env, p, q, fact, s);
    }
    PreservesBySimulation(env, p, q, r);
  }
}
