/** A lowered function returns what its body means, traps where it traps and runs on where it runs on. */
module FunctionMeaning {
  import opened Word64
  import opened IR
  import opened Simulation
  import opened LoweredForm
  import opened Source
  import opened Lowering
  import opened ExprMeaning
  import opened StmtMeaning

  /** The locals with the incoming arguments in their parameters. */
  function Received(env: Env, params: seq<Param>, vars: Slots): Slots {
    if params == [] then vars
    else
      var n := |params| - 1;
      Received(env, params[..n], vars)[params[n].slot := env.incoming(params[n].arg)]
  }

  function Entry(env: Env, params: seq<Param>, vars: Slots): Store {
    Store.Store(Received(env, params, vars), [])
  }

  lemma {:induction false} ParamsRun(t: Site, params: seq<Param>, slots: Slots, k: nat)
    requires k <= |params| && Placed(t, 0, StoreParams(params))
    ensures Goes(t, 0, Data(map[], slots, []), k, k, Data(map[], Received(t.env, params[..k], slots), []))
  {
    var d := Data(map[], slots, []);
    if k == 0 {
      NoSteps(t, 0, d);
    } else {
      ParamsRun(t, params, slots, k - 1);
      var d1 := Data(map[], Received(t.env, params[..k - 1], slots), []);
      var d2 := Data(map[], Received(t.env, params[..k], slots), []);
      assert params[..k][..k - 1] == params[..k - 1];
      PlacedAt(t, 0, StoreParams(params), k - 1);
      Executes(t, k - 1, d1, d2);
      GoesThen(t, 0, d, k - 1, k - 1, d1, 1, k, d2);
    }
  }

  /** Control does not come to the end of a list that ends in a return. */
  lemma NoEndBehindReturn(t: Site, p: nat, d: Data, n: nat, d': Data)
    requires p < |t.code| && Goes(t, p, d, n, |t.code|, d')
    ensures !t.code[|t.code| - 1].Ret?
  {
    if n > 0 {
      StepsAdd(t.env, t.code, Run(p, d), n - 1, 1);
      var s := Steps(t.env, t.code, Run(p, d), n - 1);
      assert Steps(t.env, t.code, s, 1) == Steps(t.env, t.code, Step(t.env, t.code, s), 0);
      assert Step(t.env, t.code, s) == Run(|t.code|, d');
      EndStep(t.env, t.code, s);
    }
  }

  lemma EndStep(env: Env, code: Code, s: State)
    requires s.Run? && |code| > 0 && Step(env, code, s).Run? && Step(env, code, s).pc == |code|
    ensures !code[|code| - 1].Ret?
  {
  }

  /** What is asked of the source: locals in scope of the frame, pointers and callees that reach no others. */
  ghost predicate WellFormed(env: Env, params: seq<Param>, body: Stmt, size: nat) {
    && StmtInScope(body, size)
    && (forall p: Word :: env.alias(p).Some? ==> env.alias(p).value + size >= 0)
    && forall k: int :: env.shared(k) ==> k + size >= 0
  }

  ghost predicate FunctionEnds(env: Env, code: Code, slots: Slots, r: Ending, fuel: nat) {
    match r
    case Timeout(s) => exists n: nat :: n >= fuel && StandsWith(env, code, Start(slots), n, s.trace)
    case Fault => Reaches(env, code, Start(slots), Trap)
    case Returned(w, s) => Reaches(env, code, Start(slots), Done(w, s.trace))
    case _ => false
  }

  /** The lowered function does what its body does, for every limit on iterations. */
  lemma FunctionRuns(env: Env, params: seq<Param>, body: Stmt, size: nat, first: Label, slots: Slots, fuel: nat)
    requires WellFormed(env, params, body, size) && UniqueMarks(LowerFunction(params, body, size, first).code)
    ensures FunctionEnds(env, LowerFunction(params, body, size, first).code, slots,
                         AsResult(Source.Exec(env, body, Entry(env, params, slots), false, false, fuel)), fuel)
  {
    hide *;
    var c := Counters(1, first, size);
    var ps := StoreParams(params);
    var b := LowerStmt(body, c, None, None);
    var end := FinalReturn(ps + b.code);
    var t := Site(env, LowerFunction(params, body, size, first).code, size);
    var d0 := Data(map[], slots, []);
    var d1 := Data(map[], Received(env, params, slots), []);
    var s := Entry(env, params, slots);
    FunctionIs(t, params, body, first, slots);
    PlacedSplit(t, 0, ps + b.code, end);
    PlacedSplit(t, 0, ps, b.code);
    ParamsRun(t, params, slots, |params|);
    assert params[..|params|] == params;
    var r := Source.Exec(env, body, s, false, false, fuel);
    BeginsIs(t, |ps|, b.code, c, d1, s);
    var n, d2 := StmtRuns(t, |ps|, body, c, None, None, d1, s, fuel);
    var q := |ps| + |b.code|;
    EndsAfter(t, 0, d0, |ps|, |ps|, d1, q, None, None, r, fuel, n, d2);
    if r.Normal? {
      EndsMatch(t, |ps|, q, None, None, d1, r, fuel, n, d2);
      BodyEndsNormally(t, ps, b.code, slots, d1, n, d2, r.s, fuel);
    } else {
      FunctionEndsBy(t, slots, q, r, fuel, |ps| + n, d2);
    }
  }

  lemma FunctionIs(t: Site, params: seq<Param>, body: Stmt, first: Label, slots: Slots)
    requires WellFormed(t.env, params, body, t.base) && UniqueMarks(LowerFunction(params, body, t.base, first).code)
    requires t.code == LowerFunction(params, body, t.base, first).code
    ensures var c := Counters(1, first, t.base);
            var b := LowerStmt(body, c, None, None);
            t.code == StoreParams(params) + b.code + FinalReturn(StoreParams(params) + b.code) && c.stack >= t.base
    ensures Proper(t) && Placed(t, 0, t.code) && StmtInScope(body, t.base)
    ensures Matches(t.base, Entry(t.env, params, slots), Data(map[], Received(t.env, params, slots), []))
  {
    hide LowerStmt, UniqueMarks, StmtInScope, Received, Find;
  }

  /** A body that ends normally is followed by the final `return 0`. */
  lemma BodyEndsNormally(t: Site, ps: Code, b: Code, slots: Slots, d1: Data, n: nat, d2: Data, s: Store, fuel: nat)
    requires forall i :: 0 <= i < |ps| ==> ps[i].StoreArg?
    requires t.code == ps + b + FinalReturn(ps + b)
    requires Goes(t, 0, Data(map[], slots, []), |ps|, |ps|, d1)
    requires Goes(t, |ps|, d1, n, |ps| + |b|, d2) && Matches(t.base, s, d2)
    ensures FunctionEnds(t.env, t.code, slots, AsResult(Normal(s)), fuel)
  {
    var d0 := Data(map[], slots, []);
    var q := |ps| + |b|;
    hide *;
    MatchesTrace(t.base, s, d2);
    FinalIs(ps + b);
    StartIs(slots);
    if FinalReturn(ps + b) == [] {
      ReturnInBody(ps, b);
      NoEndBehindReturn(t, |ps|, d1, n, d2);
      assert false;
    } else {
      assert t.code[q] == Ret(Imm(0));
      ValImm(d2.regs, 0);
      RetRuns(t, q, Imm(0), 0, d2);
      GoesThen(t, 0, d0, |ps|, |ps|, d1, n, q, d2);
      GoesOn(t, 0, d0, |ps| + n, q, d2, 1);
      ReturnsZero(t, slots, |ps| + n + 1, s, fuel);
    }
  }

  lemma ValImm(regs: Regs, w: Word)
    ensures Val(regs, Imm(w)) == Some(w)
  {
  }

  lemma FinalIs(code: Code)
    ensures FinalReturn(code) == [] || FinalReturn(code) == [Ret(Imm(0))]
  {
  }

  lemma StartIs(slots: Slots)
    ensures Start(slots) == Run(0, Data(map[], slots, []))
  {
  }

  lemma ReturnsZero(t: Site, slots: Slots, n: nat, s: Store, fuel: nat)
    requires Steps(t.env, t.code, Start(slots), n) == Done(0, s.trace)
    ensures FunctionEnds(t.env, t.code, slots, AsResult(Normal(s)), fuel)
  {
  }

  lemma ReturnInBody(ps: Code, b: Code)
    requires forall i :: 0 <= i < |ps| ==> ps[i].StoreArg?
    requires FinalReturn(ps + b) == []
    ensures |b| > 0 && (ps + b)[|ps + b| - 1].Ret?
  {
  }

  lemma FunctionEndsBy(t: Site, slots: Slots, stop: nat, r: Ending, fuel: nat, n: nat, d': Data)
    requires Ends(t, 0, stop, None, None, Data(map[], slots, []), r, fuel, n, d') && !r.Normal?
    ensures FunctionEnds(t.env, t.code, slots, AsResult(r), fuel)
  {
    hide Step, Matches, Goes;
    assert Start(slots) == Run(0, Data(map[], slots, []));
    assert r.Timeout? ==> n >= fuel && StandsWith(t.env, t.code, Start(slots), n, r.s.trace);
    assert Steps(t.env, t.code, Start(slots), n) == Steps(t.env, t.code, Run(0, Data(map[], slots, [])), n);
  }

  /** Some limit lets the body perform at least `trace`. */
  ghost predicate BodyPerforms(env: Env, body: Stmt, s: Store, trace: Trace) {
    exists fuel: nat :: Source.Exec(env, body, s, false, false, fuel).Timeout?
                        && trace <= Source.Exec(env, body, s, false, false, fuel).s.trace
  }

  ghost predicate NeverEnds(env: Env, body: Stmt, s: Store) {
    forall fuel: nat :: Source.Exec(env, body, s, false, false, fuel).Timeout?
  }

  lemma TimeoutAt(env: Env, params: seq<Param>, body: Stmt, size: nat, first: Label, slots: Slots, fuel: nat)
      returns (n: nat)
    requires WellFormed(env, params, body, size) && UniqueMarks(LowerFunction(params, body, size, first).code)
    requires NeverEnds(env, body, Entry(env, params, slots))
    ensures var r := Source.Exec(env, body, Entry(env, params, slots), false, false, fuel);
            r.Timeout? && n >= fuel && StandsWith(env, LowerFunction(params, body, size, first).code, Start(slots), n,
                                                  r.s.trace)
  {
    hide WellFormed, UniqueMarks, LowerFunction, Source.Exec, StandsWith;
    var code := LowerFunction(params, body, size, first).code;
    FunctionRuns(env, params, body, size, first, slots, fuel);
    var r := Source.Exec(env, body, Entry(env, params, slots), false, false, fuel);
    assert r.Timeout?;
    n :| n >= fuel && StandsWith(env, code, Start(slots), n, r.s.trace);
  }

  /** A body that times out for every limit lowers to code that runs forever, and performs what the body
      performs and nothing else. */
  lemma FunctionRunsOn(env: Env, params: seq<Param>, body: Stmt, size: nat, first: Label, slots: Slots)
    requires WellFormed(env, params, body, size) && UniqueMarks(LowerFunction(params, body, size, first).code)
    requires NeverEnds(env, body, Entry(env, params, slots))
    ensures var code := LowerFunction(params, body, size, first).code;
            && RunsForever(env, code, Start(slots))
            && forall trace :: Performs(env, code, Start(slots), trace) <==>
                                 BodyPerforms(env, body, Entry(env, params, slots), trace)
  {
    hide WellFormed, UniqueMarks, LowerFunction, Source.Exec, Step, NeverEnds;
    var code, s := LowerFunction(params, body, size, first).code, Entry(env, params, slots);
    forall m: nat ensures Steps(env, code, Start(slots), m).Run? {
      var n := TimeoutAt(env, params, body, size, first, slots, m);
      if !Steps(env, code, Start(slots), m).Run? { StaysStopped(env, code, Start(slots), m, n); }
    }
    forall trace ensures Performs(env, code, Start(slots), trace) <==> BodyPerforms(env, body, s, trace) {
      if Performs(env, code, Start(slots), trace) {
        var m: nat :| Steps(env, code, Start(slots), m).Run? && trace <= Steps(env, code, Start(slots), m).data.trace;
        var n := TimeoutAt(env, params, body, size, first, slots, m);
        TraceGrows(env, code, Start(slots), m, n);
        assert trace <= Source.Exec(env, body, s, false, false, m).s.trace;
      }
      if BodyPerforms(env, body, s, trace) {
        var fuel: nat :| Source.Exec(env, body, s, false, false, fuel).Timeout?
          && trace <= Source.Exec(env, body, s, false, false, fuel).s.trace;
        var n := TimeoutAt(env, params, body, size, first, slots, fuel);
      }
    }
  }
}
