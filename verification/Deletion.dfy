/** Passes that delete instructions: they preserve runs when a deleted instruction does nothing the
    remaining ones could notice. The two sides may hold different data, related index by index. */
module Deletion {
  import opened Word64
  import opened IR
  import opened Simulation
  import opened LoweredForm
  import opened Function

  /** How the data of the original and of the shortened list are related when control is at an index
      of the original. */
  type DataRelation = (nat, Data, Data) -> bool

  ghost predicate SameEffect(env: Env, p: Code, rel: DataRelation, i: nat, d: Data, e: Data)
    requires i < |p|
  {
    var o, o' := Exec(env, p[i], d), Exec(env, p[i], e);
    || o.Stuck?
    || (o.Next? && o'.Next? && o.data.trace == o'.data.trace && rel(i + 1, o.data, o'.data))
    || (o.Goto? && o' == o && rel(Find(p, o.to) + 1, d, e))
    || (o.Halt? && o' == o)
  }

  ghost predicate Unnoticed(env: Env, p: Code, rel: DataRelation, i: nat, d: Data, e: Data)
    requires i < |p|
  {
    var o := Exec(env, p[i], d);
    || o.Stuck?
    || (o.Next? && o.data.trace == d.trace && rel(i + 1, o.data, e))
  }

  /** A deleted jump whose destination the next kept instruction, a mark or another jump, leads to as well. */
  ghost predicate Absorbed(env: Env, p: Code, keep: seq<bool>, rel: DataRelation, i: nat, d: Data, e: Data)
    requires |keep| == |p| && i < |p|
  {
    var o := Exec(env, p[i], d);
    && o.Goto? && i + 1 < |p| && keep[i + 1]
    && (p[i + 1] == Mark(o.to) || p[i + 1] == Jmp(o.to))
    && rel(Find(p, o.to) + 1, d, e)
  }

  ghost predicate Deletable(env: Env, p: Code, keep: seq<bool>, rel: DataRelation, i: nat, d: Data, e: Data)
    requires |keep| == |p| && i < |p|
  {
    if keep[i] then SameEffect(env, p, rel, i, d, e)
    else Unnoticed(env, p, rel, i, d, e) || Absorbed(env, p, keep, rel, i, d, e)
  }

  /** Jumps that remain name marks that remain. */
  ghost predicate KeepsTargets(p: Code, keep: seq<bool>)
    requires |keep| == |p|
  {
    forall i :: 0 <= i < |p| && keep[i] && IsJump(p[i]) ==> Find(p, p[i].to) < |p| && keep[Find(p, p[i].to)]
  }

  ghost function Shifted(p: Code, keep: seq<bool>, rel: DataRelation): Relation
    requires |keep| == |p|
  {
    (s: State, t: State) =>
      s.Run? && t.Run? && s.pc <= |p| && t.pc == Rank(keep, s.pc) && rel(s.pc, s.data, t.data)
  }

  lemma OneStep(env: Env, p: Code, s: State)
    ensures Steps(env, p, s, 1) == Step(env, p, s)
  {
    assert Steps(env, p, Step(env, p, s), 0) == Step(env, p, s);
  }

  lemma KeptAdvances(env: Env, p: Code, keep: seq<bool>, rel: DataRelation, s: State, t: State)
    requires |keep| == |p| && UniqueMarks(p) && KeepsTargets(p, keep)
    requires s.Run? && t.Run? && s.data.trace == t.data.trace && Shifted(p, keep, rel)(s, t)
    requires s.pc < |p| && keep[s.pc] && SameEffect(env, p, rel, s.pc, s.data, t.data)
    ensures Agree(Shifted(p, keep, rel), Step(env, p, s), Step(env, Filter(p, keep), t))
  {
    hide Exec, Filter, Rank;
    FilterAt(p, keep, s.pc);
    RankNext(keep, s.pc);
    var o := Exec(env, p[s.pc], s.data);
    if o.Goto? {
      GotoIsJump(env, p[s.pc], s.data);
      FindInFilter(p, keep, o.to);
    }
  }

  lemma ControlStep(env: Env, q: Code, t: State)
    requires t.Run? && t.pc < |q|
    ensures q[t.pc].Mark? ==> Step(env, q, t) == Run(t.pc + 1, t.data)
    ensures q[t.pc].Jmp? ==> Step(env, q, t) == Run(Find(q, q[t.pc].to) + 1, t.data)
  {
  }

  lemma AbsorbedTarget(env: Env, p: Code, keep: seq<bool>, i: nat, l: Label, t: State)
    requires |keep| == |p| && UniqueMarks(p) && KeepsTargets(p, keep)
    requires i + 1 < |p| && !keep[i] && keep[i + 1] && (p[i + 1] == Mark(l) || p[i + 1] == Jmp(l))
    requires t.Run? && t.pc == Rank(keep, i)
    ensures Find(p, l) < |p| && Step(env, Filter(p, keep), t) == Run(Rank(keep, Find(p, l) + 1), t.data)
  {
    hide Step, Filter, Rank;
    RankNext(keep, i);
    RankNext(keep, i + 1);
    FilterAt(p, keep, i + 1);
    ControlStep(env, Filter(p, keep), t);
    if p[i + 1] == Mark(l) {
      FindUnique(p, l, i + 1);
    } else {
      FindInFilter(p, keep, l);
    }
  }

  lemma AbsorbedAdvances(env: Env, p: Code, keep: seq<bool>, rel: DataRelation, s: State, t: State)
    requires |keep| == |p| && UniqueMarks(p) && KeepsTargets(p, keep)
    requires s.Run? && t.Run? && s.data.trace == t.data.trace && Shifted(p, keep, rel)(s, t)
    requires s.pc < |p| && !keep[s.pc] && Absorbed(env, p, keep, rel, s.pc, s.data, t.data)
    ensures Agree(Shifted(p, keep, rel), Step(env, p, s), Step(env, Filter(p, keep), t))
  {
    hide UniqueMarks, KeepsTargets, Rank, Filter, Exec;
    AbsorbedTarget(env, p, keep, s.pc, Exec(env, p[s.pc], s.data).to, t);
  }

  lemma DeletionAdvances(env: Env, p: Code, keep: seq<bool>, rel: DataRelation, s: State, t: State)
    requires |keep| == |p| && UniqueMarks(p) && KeepsTargets(p, keep)
    requires s.Run? && t.Run? && s.data.trace == t.data.trace && Shifted(p, keep, rel)(s, t)
    requires s.pc < |p| ==> Deletable(env, p, keep, rel, s.pc, s.data, t.data)
    ensures Advances(env, p, Filter(p, keep), Shifted(p, keep, rel), s, t)
  {
    var q, r, i := Filter(p, keep), Shifted(p, keep, rel), s.pc;
    OneStep(env, p, s);
    OneStep(env, q, t);
    if i == |p| {
      assert MatchedBy(env, p, q, r, s, t, 1, 1);
    } else if keep[i] {
      KeptAdvances(env, p, keep, rel, s, t);
      assert MatchedBy(env, p, q, r, s, t, 1, 1);
    } else if Absorbed(env, p, keep, rel, i, s.data, t.data) {
      AbsorbedAdvances(env, p, keep, rel, s, t);
      assert MatchedBy(env, p, q, r, s, t, 1, 1);
    } else {
      RankNext(keep, i);
      assert Steps(env, q, t, 0) == t;
      assert MatchedBy(env, p, q, r, s, t, 1, 0);
    }
  }

  lemma DeletionPreserves(env: Env, p: Code, keep: seq<bool>, rel: DataRelation)
    requires |keep| == |p| && UniqueMarks(p) && KeepsTargets(p, keep)
    requires forall i: nat, d: Data, e: Data :: i < |p| && d.trace == e.trace && rel(i, d, e) ==>
                                                  Deletable(env, p, keep, rel, i, d, e)
    requires forall slots: Slots :: rel(0, Start(slots).data, Start(slots).data)
    ensures Preserves(env, p, Filter(p, keep))
  {
    var r := Shifted(p, keep, rel);
    forall s: State, t: State | s.Run? && t.Run? && s.data.trace == t.data.trace && r(s, t)
      ensures Advances(env, p, Filter(p, keep), r, s, t)
    {
      DeletionAdvances(env, p, keep, rel, s, t);
    }
    PreservesBySimulation(env, p, Filter(p, keep), r);
  }

  /** Both sides hold the same data, and control is at no index outside `where`. */
  ghost function SameDataWhere(ok: nat -> bool): DataRelation {
    (i: nat, d: Data, e: Data) => d == e && ok(i)
  }

  ghost function Everywhere(): nat -> bool {
    (i: nat) => true
  }

  /** Deleting instructions that do nothing at all to the data. */
  lemma NoOpDeletionPreserves(env: Env, p: Code, keep: seq<bool>)
    requires |keep| == |p| && UniqueMarks(p) && KeepsTargets(p, keep)
    requires forall i: nat, d: Data :: i < |p| && !keep[i] ==>
               Unnoticed(env, p, SameDataWhere(Everywhere()), i, d, d)
                 || Absorbed(env, p, keep, SameDataWhere(Everywhere()), i, d, d)
    ensures Preserves(env, p, Filter(p, keep))
  {
    DeletionPreserves(env, p, keep, SameDataWhere(Everywhere()));
  }

  /** Deleting instructions that control never comes to. */
  lemma UnreachedDeletionPreserves(env: Env, p: Code, keep: seq<bool>, ok: nat -> bool)
    requires |keep| == |p| && UniqueMarks(p) && KeepsTargets(p, keep)
    requires ok(0) && forall i: nat :: i < |p| && ok(i) ==> keep[i]
    requires forall i: nat :: i < |p| && ok(i) && !p[i].Jmp? && !p[i].Ret? ==> ok(i + 1)
    requires forall i: nat :: i < |p| && ok(i) && IsJump(p[i]) ==> ok(Find(p, p[i].to) + 1)
    ensures Preserves(env, p, Filter(p, keep))
  {
    hide UniqueMarks, KeepsTargets, Exec;
    var rel := SameDataWhere(ok);
    forall i: nat, d: Data, e: Data | i < |p| && d.trace == e.trace && rel(i, d, e)
      ensures Deletable(env, p, keep, rel, i, d, e)
    {
      var o := Exec(env, p[i], d);
      NextFallsThrough(env, p[i], d);
      if o.Goto? { GotoIsJump(env, p[i], d); }
    }
    DeletionPreserves(env, p, keep, rel);
  }

  lemma NextFallsThrough(env: Env, inst: Inst, d: Data)
    ensures Exec(env, inst, d).Next? ==> !inst.Jmp? && !inst.Ret?
  {
  }

  lemma FilterKeepsForm(p: Code, keep: seq<bool>)
    requires Lowered(p) && |keep| == |p| && KeepsTargets(p, keep) && LosesConstants(p, keep)
    ensures Lowered(Filter(p, keep)) && NoNew(p, Filter(p, keep))
  {
    DeletingKeepsForm(p, keep);
  }

  /** A deleted list takes the same addresses if no address is deleted. */
  lemma FilterTaken(p: Code, keep: seq<bool>)
    requires |keep| == |p|
    ensures Taken(Filter(p, keep)) <= Taken(p)
    ensures (forall i :: 0 <= i < |p| && p[i].AddrStack? ==> keep[i]) ==> Taken(Filter(p, keep)) == Taken(p)
  {
    if forall i :: 0 <= i < |p| && p[i].AddrStack? ==> keep[i] {
      forall k | k in Taken(p) ensures k in Taken(Filter(p, keep)) {
        var i :| 0 <= i < |p| && p[i].AddrStack? && p[i].slot == k;
        FilterAt(p, keep, i);
      }
    }
  }
}
