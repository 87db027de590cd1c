/** What it means that one instruction list may replace another, and the simulation theorem by which
    every pass is proved.

    `Preserves(env, p, q)`: whatever the stack held at entry, if `p` returns then `q` returns the same
    value after the same stores and calls; and if `p` runs forever without trapping, so does `q`, and
    each performs every store and call the other performs, in the same order. A run of `p` that traps
    allows anything. */
module Simulation {
  import opened Word64
  import opened IR

  /** `s` leads to the stopped state `final`. */
  ghost predicate Reaches(env: Env, p: Code, s: State, final: State) {
    exists n: nat :: Steps(env, p, s, n) == final
  }

  /** Some running state reached from `s` has performed at least `trace`. */
  ghost predicate Performs(env: Env, p: Code, s: State, trace: Trace) {
    exists n: nat :: Steps(env, p, s, n).Run? && trace <= Steps(env, p, s, n).data.trace
  }

  ghost predicate Returns(env: Env, p: Code, q: Code, s: State) {
    forall final: State :: final.Done? && Reaches(env, p, s, final) ==> Reaches(env, q, s, final)
  }

  ghost predicate RunsForever(env: Env, p: Code, s: State) {
    forall n: nat :: Steps(env, p, s, n).Run?
  }

  ghost predicate Covers(env: Env, p: Code, q: Code, s: State) {
    forall trace: Trace :: Performs(env, p, s, trace) ==> Performs(env, q, s, trace)
  }

  ghost predicate PreservesFrom(env: Env, p: Code, q: Code, s: State) {
    && Returns(env, p, q, s)
    && (RunsForever(env, p, s) ==>
          RunsForever(env, q, s) && Covers(env, p, q, s) && Covers(env, q, p, s))
  }

  ghost predicate Preserves(env: Env, p: Code, q: Code) {
    forall slots: Slots :: PreservesFrom(env, p, q, Start(slots))
  }

  // ----- runs -----

  lemma {:induction false} StepsAdd(env: Env, p: Code, s: State, m: nat, n: nat)
    ensures Steps(env, p, s, m + n) == Steps(env, p, Steps(env, p, s, m), n)
    decreases m
  {
    if m > 0 { StepsAdd(env, p, Step(env, p, s), m - 1, n); }
  }

  lemma {:induction false} Stopped(env: Env, p: Code, s: State, n: nat)
    requires !s.Run?
    ensures Steps(env, p, s, n) == s
  {
    if n > 0 { Stopped(env, p, s, n - 1); }
  }

  lemma ZeroSteps(env: Env, code: Code, s: State)
    ensures Steps(env, code, s, 0) == s
  {
  }

  /** A stopped machine stays as it is. */
  lemma StaysStopped(env: Env, p: Code, s: State, m: nat, n: nat)
    requires m <= n && !Steps(env, p, s, m).Run?
    ensures Steps(env, p, s, n) == Steps(env, p, s, m)
  {
    StepsAdd(env, p, s, m, n - m);
    Stopped(env, p, Steps(env, p, s, m), n - m);
  }

  lemma StepGrows(env: Env, p: Code, s: State)
    requires s.Run? && Step(env, p, s).Run?
    ensures s.data.trace <= Step(env, p, s).data.trace
  {
  }

  lemma {:induction false} StepsGrow(env: Env, p: Code, s: State, n: nat)
    requires s.Run? && Steps(env, p, s, n).Run?
    ensures s.data.trace <= Steps(env, p, s, n).data.trace
    decreases n
  {
    if n > 0 {
      var t := Step(env, p, s);
      if !t.Run? { Stopped(env, p, t, n - 1); }
      StepGrows(env, p, s);
      StepsGrow(env, p, t, n - 1);
    }
  }

  lemma TraceGrows(env: Env, p: Code, s: State, m: nat, n: nat)
    requires m <= n && Steps(env, p, s, m).Run? && Steps(env, p, s, n).Run?
    ensures Steps(env, p, s, m).data.trace <= Steps(env, p, s, n).data.trace
  {
    StepsAdd(env, p, s, m, n - m);
    StepsGrow(env, p, Steps(env, p, s, m), n - m);
  }

  // ----- the simulation theorem -----

  type Relation = (State, State) -> bool

  /** The states reached on the two sides agree: the left one trapped, both returned alike, or both run on related. */
  ghost predicate Agree(r: Relation, s: State, t: State) {
    s.Trap? || (s.Done? && t == s) || (s.Run? && t.Run? && s.data.trace == t.data.trace && r(s, t))
  }

  /** How far the program counter is from the end of the list. */
  function Distance(p: Code, s: State): nat
    requires s.Run?
  {
    if s.pc <= |p| then |p| - s.pc else 0
  }

  /** Some steps on the left, at least one, are matched by some on the right; by none only while the
      left side moves toward the end of its list. */
  ghost predicate MatchedBy(env: Env, p: Code, q: Code, r: Relation, s: State, t: State, i: nat, j: nat) {
    var s', t' := Steps(env, p, s, i), Steps(env, q, t, j);
    && i >= 1
    && Agree(r, s', t')
    && (j >= 1 || (s.Run? && s'.Run? && Distance(p, s') < Distance(p, s)) || s'.Trap?)
  }

  ghost predicate Advances(env: Env, p: Code, q: Code, r: Relation, s: State, t: State) {
    exists i: nat, j: nat :: MatchedBy(env, p, q, r, s, t, i, j)
  }

  ghost predicate Simulates(env: Env, p: Code, q: Code, r: Relation) {
    forall s: State, t: State :: s.Run? && t.Run? && s.data.trace == t.data.trace && r(s, t) ==>
                                   Advances(env, p, q, r, s, t)
  }

  /** From related running states both sides make progress to states that agree. */
  lemma {:induction false} Progress(env: Env, p: Code, q: Code, r: Relation, s: State, t: State)
      returns (i: nat, j: nat)
    requires Simulates(env, p, q, r)
    requires s.Run? && Agree(r, s, t)
    ensures i >= 1 && j >= 1 && Agree(r, Steps(env, p, s, i), Steps(env, q, t, j))
    decreases Distance(p, s)
  {
    assert Advances(env, p, q, r, s, t);
    i, j :| MatchedBy(env, p, q, r, s, t, i, j);
    var s', t' := Steps(env, p, s, i), Steps(env, q, t, j);
    if s'.Trap? {
      j := j + 1;
    } else if j == 0 {
      var i', j' := Progress(env, p, q, r, s', t');
      StepsAdd(env, p, s, i, i');
      i, j := i + i', j';
    }
  }

  /** Both sides reach agreeing states after as many steps as wanted. */
  lemma {:induction false} Follow(env: Env, p: Code, q: Code, r: Relation, s: State, t: State, n: nat)
      returns (i: nat, j: nat)
    requires Simulates(env, p, q, r)
    requires Agree(r, s, t)
    ensures i >= n && j >= n && Agree(r, Steps(env, p, s, i), Steps(env, q, t, j))
  {
    if n == 0 {
      i, j := 0, 0;
    } else {
      i, j := Follow(env, p, q, r, s, t, n - 1);
      var s', t' := Steps(env, p, s, i), Steps(env, q, t, j);
      if s'.Run? {
        var i', j' := Progress(env, p, q, r, s', t');
        StepsAdd(env, p, s, i, i');
        StepsAdd(env, q, t, j, j');
        i, j := i + i', j + j';
      } else {
        StaysStopped(env, p, s, i, i + 1);
        if s'.Done? { StaysStopped(env, q, t, j, j + 1); }
        i, j := i + 1, j + 1;
      }
    }
  }

  lemma SimulatedReturn(env: Env, p: Code, q: Code, r: Relation, s: State, final: State)
    requires Simulates(env, p, q, r) && Agree(r, s, s)
    requires final.Done? && Reaches(env, p, s, final)
    ensures Reaches(env, q, s, final)
  {
    var n: nat :| Steps(env, p, s, n) == final;
    var i, j := Follow(env, p, q, r, s, s, n);
    StaysStopped(env, p, s, n, i);
    assert Steps(env, q, s, j) == final;
  }

  lemma SimulatedDivergence(env: Env, p: Code, q: Code, r: Relation, s: State)
    requires Simulates(env, p, q, r) && Agree(r, s, s) && RunsForever(env, p, s)
    ensures RunsForever(env, q, s)
  {
    forall m: nat ensures Steps(env, q, s, m).Run? {
      var i, j := Follow(env, p, q, r, s, s, m);
      assert Steps(env, p, s, i).Run?;
      if !Steps(env, q, s, m).Run? { StaysStopped(env, q, s, m, j); }
    }
  }

  lemma SimulatedTrace(env: Env, p: Code, q: Code, r: Relation, s: State, trace: Trace)
    requires Simulates(env, p, q, r) && Agree(r, s, s) && RunsForever(env, p, s)
    ensures Performs(env, p, s, trace) <==> Performs(env, q, s, trace)
  {
    if n: nat :| Steps(env, p, s, n).Run? && trace <= Steps(env, p, s, n).data.trace {
      var i, j := Follow(env, p, q, r, s, s, n);
      assert Steps(env, p, s, i).Run?;
      TraceGrows(env, p, s, n, i);
      assert trace <= Steps(env, q, s, j).data.trace;
    }
    if n: nat :| Steps(env, q, s, n).Run? && trace <= Steps(env, q, s, n).data.trace {
      var i, j := Follow(env, p, q, r, s, s, n);
      assert Steps(env, p, s, i).Run?;
      TraceGrows(env, q, s, n, j);
      assert trace <= Steps(env, p, s, i).data.trace;
    }
  }

  /** A simulation that relates the initial state to itself proves preservation from it. */
  lemma SimulationTheorem(env: Env, p: Code, q: Code, r: Relation, s: State)
    requires Simulates(env, p, q, r)
    requires s.Run? && r(s, s)
    ensures PreservesFrom(env, p, q, s)
  {
    forall final: State | final.Done? && Reaches(env, p, s, final) ensures Reaches(env, q, s, final) {
      SimulatedReturn(env, p, q, r, s, final);
    }
    if RunsForever(env, p, s) {
      SimulatedDivergence(env, p, q, r, s);
      forall trace: Trace ensures Performs(env, p, s, trace) <==> Performs(env, q, s, trace) {
        SimulatedTrace(env, p, q, r, s, trace);
      }
    }
  }

  /** The form in which passes use the theorem. */
  lemma PreservesBySimulation(env: Env, p: Code, q: Code, r: Relation)
    requires Simulates(env, p, q, r)
    requires forall slots: Slots :: r(Start(slots), Start(slots))
    ensures Preserves(env, p, q)
  {
    forall slots: Slots ensures PreservesFrom(env, p, q, Start(slots)) {
      SimulationTheorem(env, p, q, r, Start(slots));
    }
  }

  // ----- composing passes -----

  lemma PreservesItself(env: Env, p: Code)
    ensures Preserves(env, p, p)
  {
  }

  lemma PreservesTransitive(env: Env, p: Code, q: Code, r: Code)
    requires Preserves(env, p, q) && Preserves(env, q, r)
    ensures Preserves(env, p, r)
  {
    forall slots: Slots ensures PreservesFrom(env, p, r, Start(slots)) {
      var s := Start(slots);
      assert PreservesFrom(env, p, q, s) && PreservesFrom(env, q, r, s);
    }
  }
}
