/** The optimisation pipeline (`opt_run_pipeline`). */
module Pipeline {
  import opened Word64
  import opened IR
  import opened Simulation
  import opened LoweredForm
  import opened Function
  import Forwarding
  import DeadStores
  import ConstProp
  import CopyProp
  import Algebra
  import CfgOpt
  import CfgSimplify
  import Unreachable
  import DeadCode

  /** One iteration: the nine passes in order. From level 1 on every pass runs, whatever the switches say. */
  ghost function Iteration(code: Code): Code {
    DeadCode.WithoutDeadCode(
      Unreachable.OnlyReachable(
        CfgSimplify.CfgSimplified(
          CfgOpt.CfgOptimized(
            Algebra.Simplified(
              CopyProp.CopyPropagated(
                ConstProp.Propagated(
                  DeadStores.WithoutDeadStores(
                    Forwarding.Forwarded(code)))))))))
  }

  ghost function Iterate(code: Code, n: nat): Code
    decreases n
  {
    if n == 0 then code else Iterate(Iteration(code), n - 1)
  }

  function Rounds(level: int): nat {
    if level <= 0 then 0 else if level >= 2 then 10 else 4
  }

  method RunIteration(fn: IRFunction) returns (changed: bool)
    modifies fn
    ensures fn.insts == Iteration(old(fn.insts))
    ensures !changed ==> fn.insts == old(fn.insts)
  {
    var changed1 := Forwarding.StoreLoadForwarding(fn);
    var changed2 := DeadStores.DeadStoreElimination(fn);
    var changed3 := ConstProp.ConstantPropagation(fn);
    var changed4 := CopyProp.CopyPropagation(fn);
    var changed5 := Algebra.AlgebraicSimplification(fn);
    var changed6 := CfgOpt.CfgOptimization(fn);
    var changed7 := CfgSimplify.CfgSimplification(fn);
    var changed8 := Unreachable.UnreachableBlockRemoval(fn);
    var changed9 := DeadCode.DeadCodeElimination(fn);
    changed := changed1 || changed2 || changed3 || changed4 || changed5 || changed6 || changed7 || changed8 || changed9;
  }

  /** Once an iteration changes nothing, no later one does. */
  lemma {:induction false} FixedPoint(code: Code, n: nat)
    requires Iteration(code) == code
    ensures Iterate(code, n) == code
  {
    hide Iteration;
    if n > 0 { FixedPoint(code, n - 1); }
  }

  /** Running `left` more iterations gives what `n` iterations give from `code`. */
  ghost predicate OnCourse(code: Code, n: nat, insts: Code, left: nat) {
    Iterate(insts, left) == Iterate(code, n)
  }

  lemma CourseNext(code: Code, n: nat, insts: Code, left: nat)
    requires OnCourse(code, n, insts, left) && left > 0
    ensures OnCourse(code, n, Iteration(insts), left - 1)
    ensures Iteration(insts) == insts ==> insts == Iterate(code, n)
  {
    hide Iteration;
    if Iteration(insts) == insts { FixedPoint(insts, left); }
  }

  lemma CourseBounds(code: Code, n: nat, insts: Code)
    ensures OnCourse(code, n, code, n)
    ensures OnCourse(code, n, insts, 0) ==> insts == Iterate(code, n)
  {
  }

  /** Each list is one iteration of the list before it. */
  ghost predicate Rounded(runs: seq<Code>) {
    |runs| > 0 && forall k: nat :: k < |runs| - 1 ==> runs[k + 1] == Iteration(runs[k])
  }

  /** At level 1 four iterations, above it ten, below it none; or fewer, if the last one changed nothing. */
  ghost predicate Ends(runs: seq<Code>, level: int) {
    var most := if level <= 0 then 0 else if level == 1 then 4 else 10;
    && 0 < |runs| <= most + 1
    && (|runs| < most + 1 ==> |runs| > 1 && runs[|runs| - 1] == runs[|runs| - 2])
  }

  lemma OneMoreRound(runs: seq<Code>, next: Code)
    requires Rounded(runs) && next == Iteration(runs[|runs| - 1])
    ensures Rounded(runs + [next])
  {
    hide Iteration;
  }

  /** Stopping at the first iteration without a change gives what all iterations would have given. */
  method RunPipeline(fn: IRFunction, level: int)
    modifies fn
    ensures fn.insts == Iterate(old(fn.insts), Rounds(level))
    ensures exists runs: seq<Code> ::
              Rounded(runs) && Ends(runs, level) && runs[0] == old(fn.insts) && runs[|runs| - 1] == fn.insts
  {
    hide *;
    ghost var code, n := fn.insts, Rounds(level);
    var left := Rounds(level);
    CourseBounds(code, n, fn.insts);
    ghost var runs := [fn.insts];
    FirstRound(fn.insts);
    while left > 0
      invariant OnCourse(code, n, fn.insts, left)
      invariant Rounded(runs) && |runs| + left == n + 1 && |runs| > 0
      invariant runs[0] == code && runs[|runs| - 1] == fn.insts
    {
      CourseNext(code, n, fn.insts, left);
      OneMoreRound(runs, Iteration(fn.insts));
      var changed := RunIteration(fn);
      runs := runs + [fn.insts];
      left := left - 1;
      if !changed {
        RoundsEnd(runs, level);
        return;
      }
    }
    RoundsEnd(runs, level);
    CourseBounds(code, n, fn.insts);
  }

  lemma FirstRound(code: Code)
    ensures Rounded([code])
  {
  }

  lemma RoundsEnd(runs: seq<Code>, level: int)
    requires 0 < |runs| <= Rounds(level) + 1
    requires |runs| < Rounds(level) + 1 ==> |runs| > 1 && runs[|runs| - 1] == runs[|runs| - 2]
    ensures Ends(runs, level)
  {
  }

  // ----- preservation -----

  lemma DataFlowPreserves(env: Env, code: Code)
    requires Lowered(code) && AliasWithin(env, Taken(code))
    ensures var q :=
              CopyProp.CopyPropagated(ConstProp.Propagated(DeadStores.WithoutDeadStores(Forwarding.Forwarded(code))));
            Preserves(env, code, q)
  {
    hide *;
    var code1 := Forwarding.Forwarded(code);
    Forwarding.ForwardingPreserves(env, code);
    Forwarding.ForwardingKeepsForm(code);
    var code2 := DeadStores.WithoutDeadStores(code1);
    DeadStores.DeadStoresPreserves(env, code1);
    DeadStores.DeadStoresKeepsForm(code1);
    PreservesTransitive(env, code, code1, code2);
    var code3 := ConstProp.Propagated(code2);
    ConstProp.PropagationPreserves(env, code2);
    ConstProp.PropagationKeepsForm(code2);
    PreservesTransitive(env, code, code2, code3);
    var code4 := CopyProp.CopyPropagated(code3);
    CopyProp.CopyPropagationPreserves(env, code3);
    CopyProp.CopyPropagationKeepsForm(code3);
    PreservesTransitive(env, code, code3, code4);
  }

  lemma ControlFlowPreserves(env: Env, code: Code)
    requires Lowered(code)
    ensures var q := DeadCode.WithoutDeadCode(Unreachable.OnlyReachable(
              CfgSimplify.CfgSimplified(CfgOpt.CfgOptimized(Algebra.Simplified(code)))));
            Preserves(env, code, q) && Lowered(q) && NoNew(code, q) && Taken(q) <= Taken(code)
  {
    hide *;
    var code1 := Algebra.Simplified(code);
    Algebra.SimplificationPreserves(env, code);
    Algebra.SimplificationKeepsForm(code);
    var code2 := CfgOpt.CfgOptimized(code1);
    CfgOpt.CfgOptimizationPreserves(env, code1);
    PreservesTransitive(env, code, code1, code2);
    NoNewTransitive(code, code1, code2);
    var code3 := CfgSimplify.CfgSimplified(code2);
    CfgSimplify.CfgSimplificationPreserves(env, code2);
    PreservesTransitive(env, code, code2, code3);
    NoNewTransitive(code, code2, code3);
    var code4 := Unreachable.OnlyReachable(code3);
    Unreachable.OnlyReachablePreserves(env, code3);
    PreservesTransitive(env, code, code3, code4);
    NoNewTransitive(code, code3, code4);
    var code5 := DeadCode.WithoutDeadCode(code4);
    DeadCode.DeadCodePreserves(env, code4);
    PreservesTransitive(env, code, code4, code5);
    NoNewTransitive(code, code4, code5);
  }

  lemma IterationIs(code: Code)
    ensures Iteration(code) ==
      DeadCode.WithoutDeadCode(Unreachable.OnlyReachable(
        CfgSimplify.CfgSimplified(CfgOpt.CfgOptimized(Algebra.Simplified(
          CopyProp.CopyPropagated(ConstProp.Propagated(DeadStores.WithoutDeadStores(Forwarding.Forwarded(code)))))))))
  {
  }

  /** One iteration keeps the form, takes no new addresses, and preserves every run. */
  lemma IterationPreserves(env: Env, code: Code)
    requires Lowered(code)
    ensures Lowered(Iteration(code)) && NoNew(code, Iteration(code)) && Taken(Iteration(code)) <= Taken(code)
    ensures AliasWithin(env, Taken(code)) ==> Preserves(env, code, Iteration(code))
  {
    hide *;
    var q := CopyProp.CopyPropagated(ConstProp.Propagated(DeadStores.WithoutDeadStores(Forwarding.Forwarded(code))));
    IterationIs(code);
    DataFlowForm(code);
    ControlFlowPreserves(env, q);
    NoNewTransitive(code, q, Iteration(code));
    if AliasWithin(env, Taken(code)) {
      DataFlowPreserves(env, code);
      PreservesTransitive(env, code, q, Iteration(code));
    }
  }

  lemma DataFlowForm(code: Code)
    requires Lowered(code)
    ensures var q :=
              CopyProp.CopyPropagated(ConstProp.Propagated(DeadStores.WithoutDeadStores(Forwarding.Forwarded(code))));
            Lowered(q) && NoNew(code, q) && Taken(q) == Taken(code)
  {
    hide *;
    var code1 := Forwarding.Forwarded(code);
    Forwarding.ForwardingKeepsForm(code);
    var code2 := DeadStores.WithoutDeadStores(code1);
    DeadStores.DeadStoresKeepsForm(code1);
    NoNewTransitive(code, code1, code2);
    var code3 := ConstProp.Propagated(code2);
    ConstProp.PropagationKeepsForm(code2);
    NoNewTransitive(code, code2, code3);
    CopyProp.CopyPropagationKeepsForm(code3);
    NoNewTransitive(code, code3, CopyProp.CopyPropagated(code3));
  }

  lemma {:induction false} IterateKeepsForm(env: Env, code: Code, n: nat)
    requires Lowered(code)
    ensures Lowered(Iterate(code, n)) && NoNew(code, Iterate(code, n)) && Taken(Iterate(code, n)) <= Taken(code)
    decreases n
  {
    hide Lowered, Taken, Iteration, NoNew;
    if n > 0 {
      IterationPreserves(env, code);
      IterateKeepsForm(env, Iteration(code), n - 1);
      NoNewTransitive(code, Iteration(code), Iterate(code, n));
    } else {
      NoNewItself(code);
    }
  }
}
