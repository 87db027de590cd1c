/** Copy propagation (`opt_copy_propagation`). */
module CopyProp {
  import opened Word64
  import opened IR
  import opened Simulation
  import opened LoweredForm
  import opened Lockstep
  import opened Deletion
  import opened Editing
  import opened Function

  /** Which register each copied register stands for; a register not in the map stands for itself. */
  type Copies = map<nat, nat>

  // ----- finding the root of a copy -----

  /** No set of copied registers is closed under the map. */
  ghost predicate Acyclic(m: Copies) {
    forall xs: set<nat> :: xs <= m.Keys && xs != {} ==> exists x :: x in xs && m[x] !in xs
  }

  /** Follows the map as long as it leads on. */
  function Root(m: Copies, v: nat): nat
    decreases |m|
  {
    if v in m then
      assert (m - {v}).Keys == m.Keys - {v};
      assert |m| == |m.Keys| && |m - {v}| == |(m - {v}).Keys|;
      Root(m - {v}, m[v])
    else v
  }

  /** Pointing a register at a root that is neither itself nor a copied register creates no cycle. */
  lemma AcyclicUpdate(m: Copies, d: nat, root: nat)
    requires Acyclic(m) && root !in m && root != d
    ensures Acyclic(m[d := root])
  {
    var m' := m[d := root];
    forall xs: set<nat> | xs <= m'.Keys && xs != {} ensures exists x :: x in xs && m'[x] !in xs {
      if d in xs {
        assert m'[d] !in xs;
      } else {
        assert xs <= m.Keys;
        var x :| x in xs && m[x] !in xs;
        assert m'[x] !in xs;
      }
    }
  }

  /** The chain from a register never comes back to a register already passed. */
  method FindCopyRoot(m: Copies, v: nat) returns (root: nat)
    requires Acyclic(m)
    ensures root == Root(m, v) && root !in m
  {
    root := v;
    ghost var passed: set<nat> := {};
    assert m - {} == m;
    while root in m
      invariant passed <= m.Keys && root !in passed
      invariant forall x :: x in passed ==> m[x] in passed + {root}
      invariant Root(m - passed, root) == Root(m, v)
      decreases m.Keys - passed
    {
      ghost var xs := passed + {root};
      assert xs <= m.Keys && xs != {};
      assert m[root] !in xs by {
        var x :| x in xs && m[x] !in xs;
      }
      assert m - xs == (m - passed) - {root};
      root, passed := m[root], xs;
    }
    assert m - {} == m;
  }

  // ----- pass 1: the map, and the self-moves -----

  predicate IsSelfMove(inst: Inst) {
    inst.Mov? && inst.s == Reg(inst.d)
  }

  function Note(m: Copies, inst: Inst): Copies {
    if inst.Mov? && inst.s.Reg? && inst.s.v != inst.d && Root(m, inst.s.v) != inst.d
    then m[inst.d := Root(m, inst.s.v)]
    else m
  }

  ghost function CopiesAt(code: Code, i: nat): Copies
    requires i <= |code|
  {
    if i == 0 then map[] else Note(CopiesAt(code, i - 1), code[i - 1])
  }

  ghost function CopiesOf(code: Code): Copies {
    CopiesAt(code, |code|)
  }

  /** On every instruction list, well formed or not, the map stays free of cycles at every update. */
  lemma {:induction false} CopiesAcyclic(code: Code, i: nat)
    requires i <= |code|
    ensures Acyclic(CopiesAt(code, i))
  {
    if i > 0 {
      CopiesAcyclic(code, i - 1);
      var m, inst := CopiesAt(code, i - 1), code[i - 1];
      if inst.Mov? && inst.s.Reg? && inst.s.v != inst.d && Root(m, inst.s.v) != inst.d {
        RootIsUncopied(m, inst.s.v);
        AcyclicUpdate(m, inst.d, Root(m, inst.s.v));
      }
    }
  }

  lemma {:induction false} RootFrom(m: Copies, v: nat, passed: set<nat>)
    requires Acyclic(m) && passed <= m.Keys && v !in passed
    requires forall x :: x in passed ==> m[x] in passed + {v}
    ensures Root(m - passed, v) !in m
    decreases m.Keys - passed
  {
    if v in m {
      var xs := passed + {v};
      assert xs <= m.Keys && xs != {};
      var x :| x in xs && m[x] !in xs;
      assert m - xs == (m - passed) - {v};
      RootFrom(m, m[v], xs);
    }
  }

  lemma RootIsUncopied(m: Copies, v: nat)
    requires Acyclic(m)
    ensures Root(m, v) !in m
  {
    assert m - {} == m;
    RootFrom(m, v, {});
  }

  ghost function NoSelfMoves(code: Code): (keep: seq<bool>)
    ensures |keep| == |code|
  {
    seq(|code|, i requires 0 <= i < |code| => !IsSelfMove(code[i]))
  }

  // ----- pass 2: rewriting the uses -----

  function RootOf(m: Copies, o: Opnd): Opnd {
    if o.Reg? then Reg(Root(m, o.v)) else o
  }

  function RootsOf(m: Copies, os: seq<Opnd>): (r: seq<Opnd>)
    ensures |r| == |os|
    ensures forall i :: 0 <= i < |os| ==> r[i] == RootOf(m, os[i])
  {
    if os == [] then [] else [RootOf(m, os[0])] + RootsOf(m, os[1..])
  }

  /** The instruction with every register it reads replaced by the root. */
  function Redirect(m: Copies, inst: Inst): Inst {
    match inst
    case Mov(d, s) => Mov(d, RootOf(m, s))
    case Load(d, p, off, size, uns) => Load(d, RootOf(m, p), off, size, uns)
    case Store(p, off, s, size) => Store(RootOf(m, p), off, RootOf(m, s), size)
    case StoreStack(k, s) => StoreStack(k, RootOf(m, s))
    case Bin(op, d, a, b) => Bin(op, d, RootOf(m, a), RootOf(m, b))
    case JmpIf(nonzero, c, l) => JmpIf(nonzero, RootOf(m, c), l)
    case Call(d, callee, args, kinds) =>
      Call(d, if callee.Indirect? then Indirect(RootOf(m, callee.target)) else callee, RootsOf(m, args), kinds)
    case Ret(s) => Ret(RootOf(m, s))
    case StoreGlobal(sym, s, size) => StoreGlobal(sym, RootOf(m, s), size)
    case Cast(d, s, size, uns) => Cast(d, RootOf(m, s), size, uns)
    case _ => inst
  }

  ghost function Redirected(m: Copies, code: Code): (q: Code)
    ensures |q| == |code|
  {
    seq(|code|, i requires 0 <= i < |code| => Redirect(m, code[i]))
  }

  ghost function WithoutSelfMoves(code: Code): Code {
    Filter(code, NoSelfMoves(code))
  }

  ghost function CopyPropagated(code: Code): Code {
    Redirected(CopiesOf(code), WithoutSelfMoves(code))
  }

  // ----- the pass, editing the list in place -----

  /** `m` is the map as built from the instructions before `i`. */
  ghost predicate BuiltTo(code: Code, i: nat, m: Copies) {
    i <= |code| && m == CopiesAt(code, i)
  }

  lemma BuiltNext(code: Code, i: nat, m: Copies, inst: Inst, m': Copies)
    requires i < |code| && inst == code[i] && BuiltTo(code, i, m) && m' == Note(m, inst)
    ensures Acyclic(m) && BuiltTo(code, i + 1, m')
    ensures NoSelfMoves(code)[i] <==> !IsSelfMove(inst)
  {
    CopiesAcyclic(code, i);
  }

  lemma BuiltAcyclic(code: Code, i: nat, m: Copies)
    requires BuiltTo(code, i, m)
    ensures Acyclic(m)
  {
    CopiesAcyclic(code, i);
  }

  lemma BuiltStart(code: Code)
    ensures WithoutSelfMoves(code) == Filter(code, NoSelfMoves(code))
    ensures BuiltTo(code, 0, map[])
  {
  }

  lemma BuiltEnd(code: Code, i: nat, m: Copies)
    requires BuiltTo(code, i, m) && i >= |code|
    ensures m == CopiesOf(code)
  {
  }

  /** Records the copy that an instruction makes, if it makes one. */
  method NoteCopy(m: Copies, inst: Inst) returns (m': Copies)
    requires Acyclic(m)
    ensures m' == Note(m, inst)
  {
    m' := m;
    if inst.Mov? && inst.s.Reg? && inst.s.v != inst.d {
      var root := FindCopyRoot(m, inst.s.v);
      if root != inst.d { m' := m[inst.d := root]; }
    }
  }

  /** Looks at the instruction at the cursor: unlinks a self-move, notes a copy. */
  method VisitCopy(fn: IRFunction, pos: nat, m: Copies, ghost code: Code, ghost i: nat) returns (pos': nat, m': Copies)
    requires pos < |fn.insts| && Swept(code, code, NoSelfMoves(code), i, fn.insts, pos) && BuiltTo(code, i, m)
    modifies fn
    ensures Swept(code, code, NoSelfMoves(code), i + 1, fn.insts, pos') && BuiltTo(code, i + 1, m')
    ensures pos' >= pos && |fn.insts| - pos' < |old(fn.insts)| - pos
    ensures fn.insts != old(fn.insts) ==> |fn.insts| < |old(fn.insts)|
    ensures |fn.insts| <= |old(fn.insts)|
  {
    hide *;
    SweepAt(code, code, NoSelfMoves(code), i, fn.insts, pos);
    BuiltAcyclic(code, i, m);
    var inst := fn.insts[pos];
    m' := NoteCopy(m, inst);
    BuiltNext(code, i, m, inst, m');
    if IsSelfMove(inst) {
      SweepDrop(code, code, NoSelfMoves(code), i, fn.insts, pos);
      fn.Remove(pos);
      pos' := pos;
    } else {
      SweepPast(code, code, NoSelfMoves(code), i, fn.insts, pos);
      pos' := pos + 1;
    }
  }

  /** Pass 1: builds the map and unlinks self-moves. */
  method BuildCopies(fn: IRFunction) returns (m: Copies, changed: bool)
    modifies fn
    ensures fn.insts == WithoutSelfMoves(old(fn.insts)) && m == CopiesOf(old(fn.insts))
    ensures !changed ==> fn.insts == old(fn.insts)
  {
    hide *;
    ghost var code := fn.insts;
    ghost var i: nat := 0;
    BuiltStart(code);
    var pos, n := 0, |fn.insts|;
    m := map[];
    SweepStart(code, code, NoSelfMoves(code));
    while pos < |fn.insts|
      invariant Swept(code, code, NoSelfMoves(code), i, fn.insts, pos) && BuiltTo(code, i, m)
      invariant |fn.insts| <= n && (|fn.insts| == n ==> fn.insts == code)
      decreases |fn.insts| - pos
    {
      pos, m := VisitCopy(fn, pos, m, code, i);
      i := i + 1;
    }
    changed := |fn.insts| < n;
    SweepAt(code, code, NoSelfMoves(code), i, fn.insts, pos);
    SweepEnd(code, code, NoSelfMoves(code), i, fn.insts, pos);
    BuiltEnd(code, i, m);
  }

  lemma CopyPropagatedIs(code: Code)
    ensures CopyPropagated(code) == Redirected(CopiesOf(code), WithoutSelfMoves(code))
  {
  }

  /** Pass 2: reads the root of every copied register. */
  method RedirectAll(fn: IRFunction, m: Copies) returns (changed: bool)
    modifies fn
    ensures fn.insts == Redirected(m, old(fn.insts))
    ensures !changed ==> fn.insts == old(fn.insts)
  {
    hide Redirect, Root, RootOf;
    ghost var code := fn.insts;
    var n := |fn.insts|;
    changed := false;
    for i := 0 to n
      invariant |fn.insts| == n
      invariant forall j :: 0 <= j < i ==> fn.insts[j] == Redirect(m, code[j])
      invariant forall j :: i <= j < n ==> fn.insts[j] == code[j]
      invariant !changed ==> fn.insts == code
    {
      var inst := Redirect(m, fn.insts[i]);
      if inst != fn.insts[i] {
        fn.Replace(i, inst);
        changed := true;
      }
    }
  }

  method CopyPropagation(fn: IRFunction) returns (changed: bool)
    modifies fn
    ensures fn.insts == CopyPropagated(old(fn.insts))
    ensures Lowered(old(fn.insts)) ==> CopiesEnd(old(fn.insts), fn.insts)
    ensures !changed ==> fn.insts == old(fn.insts)
  {
    hide *;
    CopyPropagatedIs(fn.insts);
    if Lowered(fn.insts) { PropagatedEnd(fn.insts); }
    var m, changed1 := BuildCopies(fn);
    var changed2 := RedirectAll(fn, m);
    changed := changed1 || changed2;
  }

  // ----- the map under the lowered form -----

  /** `code[j]` moves into `v` a register that is, or is a copy of, `m[v]`, and `m[v]` may stand there as well. */
  ghost predicate CopyOrigin(code: Code, m: Copies, v: nat, j: nat)
    requires v in m
  {
    && j < |code|
    && code[j].Mov? && code[j].d == v && code[j].s.Reg?
    && (code[j].s.v == m[v] || (code[j].s.v in m && m[code[j].s.v] == m[v]))
    && UseOK(code, m[v], j)
  }

  ghost predicate FlatCopies(code: Code, i: nat, m: Copies) {
    forall v :: v in m ==> m[v] !in m && exists j: nat :: j < i && CopyOrigin(code, m, v, j)
  }

  lemma FlatRoot(m: Copies, v: nat)
    requires forall x :: x in m ==> m[x] !in m
    ensures Root(m, v) == (if v in m then m[v] else v)
  {
  }

  /** A register allowed at a copy is allowed wherever the copy is used. */
  lemma UseThroughCopy(code: Code, m: Copies, v: nat, j: nat, k: nat)
    requires Lowered(code) && v in m && CopyOrigin(code, m, v, j) && k < |code| && v in Uses(code[k])
    ensures j < k && UseOK(code, m[v], k)
  {
    assert UseOK(code, v, k);
    UseCarries(code, m[v], j, k);
  }

  lemma CopyNoted(code: Code, i: nat, m: Copies)
    requires Lowered(code) && i < |code| && FlatCopies(code, i, m) && Note(m, code[i]) != m
    ensures var d, r, m' := code[i].d, Root(m, code[i].s.v), Note(m, code[i]);
            && m' == m[d := r] && d !in m && r !in m && r != d && CopyOrigin(code, m', d, i)
  {
    var s := code[i].s.v;
    FlatRoot(m, s);
    assert s in Uses(code[i]);
    if s in m {
      var js: nat :| js < i && CopyOrigin(code, m, s, js);
      UseThroughCopy(code, m, s, js, i);
    }
  }

  lemma NotedIsFlat(code: Code, i: nat, m: Copies)
    requires Lowered(code) && i < |code| && FlatCopies(code, i, m)
    ensures FlatCopies(code, i + 1, Note(m, code[i]))
  {
    var m' := Note(m, code[i]);
    if m' != m {
      CopyNoted(code, i, m);
      forall v | v in m' ensures m'[v] !in m' && exists j: nat :: j < i + 1 && CopyOrigin(code, m', v, j) {
        if v != code[i].d {
          var j: nat :| j < i && CopyOrigin(code, m, v, j);
          assert CopyOrigin(code, m', v, j);
          if m[v] == code[i].d { assert false; }
        }
      }
    }
  }

  lemma {:induction false} CopiesFlat(code: Code, i: nat)
    requires Lowered(code) && i <= |code|
    ensures FlatCopies(code, i, CopiesAt(code, i))
  {
    if i > 0 {
      hide Lowered, FlatCopies, Note;
      CopiesFlat(code, i - 1);
      NotedIsFlat(code, i - 1, CopiesAt(code, i - 1));
    }
  }

  // ----- a copy equals its root wherever it is used -----

  ghost predicate EqualRegs(regs: Regs, a: nat, b: nat) {
    a in regs && b in regs && regs[a] == regs[b]
  }

  /** Control at `i` is behind the definition of `v`, on the way to a use. */
  ghost predicate OnTheWay(code: Code, v: nat, i: nat) {
    exists j, k :: 0 <= j < i <= k < |code| && Def(code[j]) == Some(v) && v in Uses(code[k])
  }

  ghost predicate CopiesHold(code: Code, m: Copies, i: nat, d: Data) {
    forall v :: v in m && OnTheWay(code, v, i) ==> EqualRegs(d.regs, v, m[v])
  }

  ghost function CopyFact(code: Code, m: Copies): Fact {
    (i: nat, d: Data) => CopiesHold(code, m, i, d)
  }

  lemma CopyMade(env: Env, code: Code, m: Copies, v: nat, i: nat, d: Data)
    requires Lowered(code) && FlatCopies(code, |code|, m) && CopiesHold(code, m, i, d)
    requires v in m && i < |code| && CopyOrigin(code, m, v, i) && Exec(env, code[i], d).Next?
    ensures EqualRegs(Exec(env, code[i], d).data.regs, v, m[v])
  {
    var s := code[i].s.v;
    assert s in Uses(code[i]);
    if s != m[v] {
      var js: nat :| js < |code| && CopyOrigin(code, m, s, js);
      UsedOK(code, s, i);
      hide Lowered, FlatCopies, UseOK, Alu;
      assert OnTheWay(code, s, i);
    }
  }

  lemma CopyKeptByStep(env: Env, code: Code, m: Copies, v: nat, i: nat, d: Data)
    requires Lowered(code) && FlatCopies(code, |code|, m) && CopiesHold(code, m, i, d)
    requires v in m && i < |code| && Exec(env, code[i], d).Next? && OnTheWay(code, v, i + 1)
    ensures EqualRegs(Exec(env, code[i], d).data.regs, v, m[v])
  {
    hide UseOK, Closed;
    var j0: nat :| j0 < |code| && CopyOrigin(code, m, v, j0);
    var j, k :| 0 <= j < i + 1 <= k < |code| && Def(code[j]) == Some(v) && v in Uses(code[k]);
    assert j == j0;
    if j == i {
      CopyMade(env, code, m, v, i, d);
    } else {
      assert OnTheWay(code, v, i);
      assert Def(code[i]) != Some(v);
      assert Def(code[i]) != Some(m[v]);
      OtherRegsUnchanged(env, code[i], d, v);
      OtherRegsUnchanged(env, code[i], d, m[v]);
    }
  }

  lemma OriginNoConst(code: Code, m: Copies, v: nat, j: nat)
    requires Lowered(code) && FlatCopies(code, |code|, m) && v in m && j < |code| && Def(code[j]) == Some(v)
    ensures !code[j].Const?
  {
    hide UsesFollowDefinitions, UniqueMarks, TargetsExist, ArgumentsFirst, UseOK, Uses;
    var j0: nat :| j0 < |code| && CopyOrigin(code, m, v, j0);
  }

  lemma UsedOK(code: Code, v: nat, k: nat)
    requires Lowered(code) && k < |code| && v in Uses(code[k])
    ensures UseOK(code, v, k)
  {
    hide UseOK, Uses, SingleDefinitions, UniqueMarks, TargetsExist, ArgumentsFirst;
  }

  /** A jump to a place between a definition and its use comes from there. */
  lemma JumpInside(code: Code, j: nat, k: nat, i: nat)
    requires j < |code| && i < |code| && Closed(code, j, k) && IsJump(code[i])
    requires Def(code[j]).Some? && j <= Find(code, code[i].to) < k && Find(code, code[i].to) < |code|
    ensures j < i <= k
  {
  }

  lemma WayThrough(code: Code, v: nat, i: nat) returns (j: nat, k: nat)
    requires OnTheWay(code, v, i)
    ensures j < i <= k < |code| && Def(code[j]) == Some(v) && v in Uses(code[k])
  {
    hide Uses;
    j, k :| 0 <= j < i <= k < |code| && Def(code[j]) == Some(v) && v in Uses(code[k]);
  }

  lemma CopyKeptByJump(code: Code, m: Copies, v: nat, i: nat)
    requires Lowered(code) && FlatCopies(code, |code|, m)
    requires v in m && i < |code| && IsJump(code[i]) && OnTheWay(code, v, Find(code, code[i].to) + 1)
    ensures OnTheWay(code, v, i)
  {
    hide Lowered, UseOK, FlatCopies, Closed, Uses, Def, Find;
    var j, k := WayThrough(code, v, Find(code, code[i].to) + 1);
    OriginNoConst(code, m, v, j);
    UsedOK(code, v, k);
    JumpInside(code, j, k, i);
  }

  lemma RootOfSame(code: Code, m: Copies, i: nat, d: Data, o: Opnd)
    requires Lowered(code) && FlatCopies(code, |code|, m) && CopiesHold(code, m, i, d)
    requires i < |code| && RegsOf(o) <= Uses(code[i])
    ensures Val(d.regs, RootOf(m, o)) == Val(d.regs, o)
  {
    if o.Reg? {
      FlatRoot(m, o.v);
      if o.v in m {
        var j: nat :| j < |code| && CopyOrigin(code, m, o.v, j);
        assert UseOK(code, o.v, i);
        assert OnTheWay(code, o.v, i);
      }
    }
  }

  lemma {:induction false} RootsOfSame(code: Code, m: Copies, i: nat, d: Data, os: seq<Opnd>)
    requires Lowered(code) && FlatCopies(code, |code|, m) && CopiesHold(code, m, i, d)
    requires i < |code| && RegsOfAll(os) <= Uses(code[i])
    ensures Vals(d.regs, RootsOf(m, os)) == Vals(d.regs, os)
  {
    if os != [] {
      assert os[0] in os;
      RootOfSame(code, m, i, d, os[0]);
      assert RegsOfAll(os[1..]) <= RegsOfAll(os);
      RootsOfSame(code, m, i, d, os[1..]);
      assert RootsOf(m, os)[1..] == RootsOf(m, os[1..]);
    }
  }

  /** Replacing operands by operands of the same value changes nothing. */
  lemma RedirectSameBy(env: Env, m: Copies, inst: Inst, d: Data)
    requires forall o: Opnd :: RegsOf(o) <= Uses(inst) ==> Val(d.regs, RootOf(m, o)) == Val(d.regs, o)
    requires inst.Call? ==> Vals(d.regs, RootsOf(m, inst.args)) == Vals(d.regs, inst.args)
    ensures Exec(env, Redirect(m, inst), d) == Exec(env, inst, d)
  {
    hide Alu, RootOf, RootsOf, RegsOf, RegsOfAll, Vals;
  }

  /** With the roots in place of the copies the instruction does the same. */
  lemma RedirectSame(env: Env, code: Code, m: Copies, i: nat, d: Data)
    requires Lowered(code) && FlatCopies(code, |code|, m) && CopiesHold(code, m, i, d) && i < |code|
    ensures Exec(env, Redirect(m, code[i]), d) == Exec(env, code[i], d)
  {
    forall o: Opnd | RegsOf(o) <= Uses(code[i]) ensures Val(d.regs, RootOf(m, o)) == Val(d.regs, o) {
      hide Exec, Redirect, RootOf, Val, Lowered, FlatCopies, CopiesHold, Uses;
      RootOfSame(code, m, i, d, o);
    }
    hide *;
    if code[i].Call? {
      ArgsAreUses(code[i]);
      RootsOfSame(code, m, i, d, code[i].args);
    }
    RedirectSameBy(env, m, code[i], d);
  }

  lemma ArgsAreUses(inst: Inst)
    requires inst.Call?
    ensures RegsOfAll(inst.args) <= Uses(inst)
  {
  }

  lemma CopyStep(env: Env, code: Code, m: Copies, i: nat, d: Data)
    requires Lowered(code) && FlatCopies(code, |code|, m) && CopiesHold(code, m, i, d) && i < |code|
    ensures KeepsStep(env, code, Redirected(m, code), CopyFact(code, m), i, d)
  {
    hide Lowered, FlatCopies, Exec, OnTheWay, EqualRegs;
    RedirectSame(env, code, m, i, d);
    var o := Exec(env, code[i], d);
    if o.Next? {
      forall v | v in m && OnTheWay(code, v, i + 1) ensures EqualRegs(o.data.regs, v, m[v]) {
        CopyKeptByStep(env, code, m, v, i, d);
      }
    } else if o.Goto? {
      GotoIsJump(env, code[i], d);
      forall v | v in m && OnTheWay(code, v, Find(code, o.to) + 1) ensures EqualRegs(d.regs, v, m[v]) {
        CopyKeptByJump(code, m, v, i);
      }
    }
  }

  lemma RedirectedControl(m: Copies, code: Code)
    ensures SameControl(code, Redirected(m, code))
  {
  }

  /** Reading the root instead of the copy changes no run. */
  lemma RedirectedPreserves(env: Env, code: Code, m: Copies)
    requires Lowered(code) && FlatCopies(code, |code|, m)
    ensures Preserves(env, code, Redirected(m, code))
  {
    RedirectedControl(m, code);
    forall i: nat, d: Data | i < |code| && CopyFact(code, m)(i, d)
      ensures KeepsStep(env, code, Redirected(m, code), CopyFact(code, m), i, d)
    {
      CopyStep(env, code, m, i, d);
    }
    LockstepPreserves(env, code, Redirected(m, code), CopyFact(code, m));
  }

  lemma RedirectUses(code: Code, m: Copies, i: nat, v: nat)
    requires Lowered(code) && FlatCopies(code, |code|, m) && i < |code|
    requires v in Uses(Redirect(m, code[i]))
    ensures UseOK(code, v, i)
  {
    var inst := code[i];
    var u := RedirectedFrom(m, inst, v);
    FlatRoot(m, u);
    if u in m {
      var j: nat :| j < |code| && CopyOrigin(code, m, u, j);
      UseThroughCopy(code, m, u, j, i);
    }
  }

  /** A register read after redirecting is the root of one read before. */
  lemma RedirectedFrom(m: Copies, inst: Inst, v: nat) returns (u: nat)
    requires v in Uses(Redirect(m, inst))
    ensures u in Uses(inst) && v == Root(m, u)
  {
    if inst.Call? && v in RegsOfAll(RootsOf(m, inst.args)) {
      var k :| 0 <= k < |inst.args| && RootsOf(m, inst.args)[k] == Reg(v);
      u := inst.args[k].v;
      assert inst.args[k] in inst.args;
    } else {
      u :| u in Uses(inst) && v == Root(m, u);
    }
  }

  lemma RedirectReshapes(m: Copies, inst: Inst)
    ensures Reshapes(inst, Redirect(m, inst))
  {
  }

  lemma RedirectedKeepsForm(code: Code, m: Copies)
    requires Lowered(code) && FlatCopies(code, |code|, m)
    ensures Lowered(Redirected(m, code)) && NoNew(code, Redirected(m, code))
  {
    hide Lowered, NoNew, UseOK, FlatCopies, Uses, Redirect;
    RedirectedControl(m, code);
    forall i, v | 0 <= i < |code| && v in Uses(Redirected(m, code)[i]) ensures UseOK(code, v, i) {
      RedirectUses(code, m, i, v);
    }
    forall i | 0 <= i < |code| ensures Reshapes(code[i], Redirected(m, code)[i]) {
      RedirectReshapes(m, code[i]);
    }
    RewritingKeepsForm(code, Redirected(m, code));
  }

  // ----- the whole pass -----

  ghost function SameData(): DataRelation {
    (i: nat, d: Data, e: Data) => d == e
  }

  lemma SelfMovesPreserves(env: Env, code: Code)
    requires Lowered(code)
    ensures Preserves(env, code, WithoutSelfMoves(code))
  {
    forall i: nat, d: Data, e: Data | i < |code| && d.trace == e.trace && SameData()(i, d, e)
      ensures Deletable(env, code, NoSelfMoves(code), SameData(), i, d, e)
    {
      if IsSelfMove(code[i]) && Exec(env, code[i], d).Next? {
        assert d.regs[code[i].d := d.regs[code[i].d]] == d.regs;
      }
    }
    DeletionPreserves(env, code, NoSelfMoves(code), SameData());
  }

  /** Self-moves leave no trace in the map. */
  lemma {:induction false} CopiesWithoutSelfMoves(code: Code, i: nat)
    requires i <= |code|
    ensures Rank(NoSelfMoves(code), i) <= |WithoutSelfMoves(code)|
    ensures CopiesAt(WithoutSelfMoves(code), Rank(NoSelfMoves(code), i)) == CopiesAt(code, i)
  {
    if i > 0 {
      CopiesWithoutSelfMoves(code, i - 1);
      RankNext(NoSelfMoves(code), i - 1);
      if !IsSelfMove(code[i - 1]) { FilterAt(code, NoSelfMoves(code), i - 1); }
    }
  }

  lemma CopiesOfRemaining(code: Code)
    requires Lowered(code)
    ensures Lowered(WithoutSelfMoves(code)) && NoNew(code, WithoutSelfMoves(code))
    ensures FlatCopies(WithoutSelfMoves(code), |WithoutSelfMoves(code)|, CopiesOf(code))
  {
    DeletingKeepsForm(code, NoSelfMoves(code));
    CopiesWithoutSelfMoves(code, |code|);
    CopiesFlat(WithoutSelfMoves(code), |WithoutSelfMoves(code)|);
  }

  /** At every rewritten use in every run the root holds what the copy held: the pass changes no run. */
  lemma CopyPropagationPreserves(env: Env, code: Code)
    requires Lowered(code)
    ensures Preserves(env, code, CopyPropagated(code))
  {
    CopiesOfRemaining(code);
    SelfMovesPreserves(env, code);
    RedirectedPreserves(env, WithoutSelfMoves(code), CopiesOf(code));
    PreservesTransitive(env, code, WithoutSelfMoves(code), CopyPropagated(code));
  }

  lemma CopyPropagationKeepsForm(code: Code)
    requires Lowered(code)
    ensures Lowered(CopyPropagated(code)) && NoNew(code, CopyPropagated(code))
        && Taken(CopyPropagated(code)) == Taken(code)
  {
    CopiesOfRemaining(code);
    var rest, m := WithoutSelfMoves(code), CopiesOf(code);
    RedirectedKeepsForm(rest, m);
    forall k | k in Taken(code) ensures k in Taken(CopyPropagated(code)) {
      var i :| 0 <= i < |code| && code[i].AddrStack? && code[i].slot == k;
      FilterAt(code, NoSelfMoves(code), i);
      assert CopyPropagated(code)[Rank(NoSelfMoves(code), i)] == code[i];
    }
  }

  // ----- no copy is read -----

  predicate IsCopy(code: Code, j: nat, v: nat, s: nat) {
    j < |code| && code[j] == Mov(v, Reg(s)) && s != v
  }

  ghost predicate Copied(code: Code, v: nat) {
    exists j: nat, s: nat :: IsCopy(code, j, v, s)
  }

  ghost predicate Links(code: Code, v: nat, s: nat) {
    exists j: nat :: IsCopy(code, j, v, s)
  }

  /** Each register of the chain is a copy of the next. */
  ghost predicate Linked(code: Code, chain: seq<nat>) {
    |chain| > 0 && forall a: nat :: a < |chain| - 1 ==> Links(code, chain[a], chain[a + 1])
  }

  /** By way of copies `v` has its value from `w`, which is no copy. */
  ghost predicate ComesFrom(code: Code, v: nat, w: nat) {
    !Copied(code, w) && exists chain: seq<nat> :: Linked(code, chain) && chain[0] == v && chain[|chain| - 1] == w
  }

  ghost predicate OperandEnds(code: Code, o: Opnd, o': Opnd) {
    if o.Imm? then o' == o else o'.Reg? && ComesFrom(code, o.v, o'.v)
  }

  /** The same instruction, each operand replaced by the register that its value comes from. */
  ghost predicate InstEnds(code: Code, inst: Inst, inst': Inst) {
    match inst
    case Mov(d, s) => inst'.Mov? && inst'.d == d && OperandEnds(code, s, inst'.s)
    case Load(d, p, off, size, uns) =>
      inst'.Load? && inst' == Load(d, inst'.p, off, size, uns) && OperandEnds(code, p, inst'.p)
    case Store(p, off, s, size) =>
      inst'.Store? && inst' == Store(inst'.p, off, inst'.s, size)
      && OperandEnds(code, p, inst'.p) && OperandEnds(code, s, inst'.s)
    case StoreStack(k, s) => inst'.StoreStack? && inst'.slot == k && OperandEnds(code, s, inst'.s)
    case Bin(op, d, a, b) =>
      inst'.Bin? && inst'.op == op && inst'.d == d && OperandEnds(code, a, inst'.a) && OperandEnds(code, b, inst'.b)
    case JmpIf(nonzero, c, l) =>
      inst'.JmpIf? && inst'.nonzero == nonzero && inst'.to == l && OperandEnds(code, c, inst'.cond)
    case Call(d, callee, args, kinds) =>
      && inst'.Call? && inst'.d == d && inst'.kinds == kinds && |inst'.args| == |args|
      && (forall j :: 0 <= j < |args| ==> OperandEnds(code, args[j], inst'.args[j]))
      && (if callee.Direct? then inst'.callee == callee
          else inst'.callee.Indirect? && OperandEnds(code, callee.target, inst'.callee.target))
    case Ret(s) => inst'.Ret? && OperandEnds(code, s, inst'.s)
    case StoreGlobal(sym, s, size) =>
      inst'.StoreGlobal? && inst' == StoreGlobal(sym, inst'.s, size) && OperandEnds(code, s, inst'.s)
    case Cast(d, s, size, uns) =>
      inst'.Cast? && inst' == Cast(d, inst'.s, size, uns) && OperandEnds(code, s, inst'.s)
    case _ => inst' == inst
  }

  ghost function SelfMovesIn(code: Code): set<nat> {
    set j: nat | j < |code| && code[j].Mov? && code[j].s == Reg(code[j].d)
  }

  /** The moves of a register to itself are left out, and of the rest no instruction reads a copy. */
  ghost predicate CopiesEnd(code: Code, q: Code) {
    exists mid: Code :: LeftOut(code, mid, SelfMovesIn(code)) && |mid| == |q|
                        && forall i :: 0 <= i < |q| ==> InstEnds(code, mid[i], q[i])
  }

  /** A copy of a register is never that register's source. */
  lemma NoCycle(code: Code, i: nat)
    requires Lowered(code) && i < |code| && code[i].Mov? && code[i].s.Reg? && code[i].s.v != code[i].d
    ensures Root(CopiesAt(code, i), code[i].s.v) != code[i].d
  {
    var m, d, s := CopiesAt(code, i), code[i].d, code[i].s.v;
    CopiesFlat(code, i);
    FlatRoot(m, s);
    if s in m { NotBefore(code, i, m, s); }
  }

  lemma NotBefore(code: Code, i: nat, m: Copies, s: nat)
    requires Lowered(code) && i < |code| && code[i].Mov? && s in m
    requires exists j: nat :: j < i && CopyOrigin(code, m, s, j)
    ensures m[s] != code[i].d
  {
    hide UseOK;
    var js: nat :| js < i && CopyOrigin(code, m, s, js);
    NoDefBehind(code, m[s], js, i);
  }

  lemma NoDefBehind(code: Code, v: nat, k: nat, i: nat)
    requires UseOK(code, v, k) && k <= i < |code|
    ensures Def(code[i]) != Some(v)
  {
  }

  lemma {:induction false} KeysExact(code: Code, i: nat, v: nat)
    requires Lowered(code) && i <= |code|
    ensures v in CopiesAt(code, i) <==> exists j: nat, s: nat :: j < i && IsCopy(code, j, v, s)
  {
    if i > 0 {
      KeysExact(code, i - 1, v);
      var inst, h := code[i - 1], i - 1;
      hide Lowered, Root;
      if inst.Mov? && inst.s.Reg? && inst.s.v != inst.d {
        assert IsCopy(code, h, inst.d, inst.s.v);
        NoCycle(code, h);
      }
      hide CopiesAt;
      KeysNext(code, h, v);
    }
  }

  lemma KeysNext(code: Code, h: nat, v: nat)
    requires h < |code|
    ensures (exists j: nat, s: nat :: j < h + 1 && IsCopy(code, j, v, s)) <==>
            (exists j: nat, s: nat :: j < h && IsCopy(code, j, v, s))
            || (code[h].Mov? && code[h].s.Reg? && code[h].d == v && code[h].s.v != v)
  {
    if code[h].Mov? && code[h].s.Reg? && code[h].d == v && code[h].s.v != v { assert IsCopy(code, h, v, code[h].s.v); }
  }

  lemma Chained(code: Code, chain: seq<nat>, j: nat, v: nat)
    requires Linked(code, chain) && IsCopy(code, j, v, chain[0])
    ensures Linked(code, [v] + chain)
  {
    var more := [v] + chain;
    hide IsCopy;
    forall a: nat | a < |more| - 1 ensures Links(code, more[a], more[a + 1]) {
      if a > 0 { assert Links(code, chain[a - 1], chain[a]); }
    }
  }

  lemma {:induction false} ChainOf(code: Code, i: nat, v: nat) returns (chain: seq<nat>)
    requires Lowered(code) && i <= |code|
    ensures Linked(code, chain) && chain[0] == v
    ensures chain[|chain| - 1] == if v in CopiesAt(code, i) then CopiesAt(code, i)[v] else v
  {
    chain := [v];
    if i > 0 {
      var m, inst := CopiesAt(code, i - 1), code[i - 1];
      CopiesFlat(code, i - 1);
      if inst.Mov? && inst.s.Reg? && inst.d == v && Note(m, inst) != m {
        var rest := ChainOf(code, i - 1, inst.s.v);
        FlatRoot(m, inst.s.v);
        assert IsCopy(code, i - 1, v, inst.s.v);
        hide Lowered, CopiesAt, IsCopy, Linked;
        Chained(code, rest, i - 1, v);
        chain := [v] + rest;
      } else {
        chain := ChainOf(code, i - 1, v);
      }
    }
  }

  lemma RootComes(code: Code, v: nat)
    requires Lowered(code)
    ensures ComesFrom(code, v, Root(CopiesOf(code), v))
  {
    var m := CopiesOf(code);
    CopiesFlat(code, |code|);
    FlatRoot(m, v);
    var chain := ChainOf(code, |code|, v);
    var w := Root(m, v);
    KeysExact(code, |code|, w);
  }

  lemma RedirectEnds(code: Code, inst: Inst)
    requires forall v: nat :: ComesFrom(code, v, Root(CopiesOf(code), v))
    ensures InstEnds(code, inst, Redirect(CopiesOf(code), inst))
  {
    hide ComesFrom, CopiesOf, Root;
  }

  lemma PropagatedEnd(code: Code)
    requires Lowered(code)
    ensures CopiesEnd(code, CopyPropagated(code))
  {
    var mid, q := WithoutSelfMoves(code), CopyPropagated(code);
    FilterLeaves(code, NoSelfMoves(code), SelfMovesIn(code));
    forall v: nat ensures ComesFrom(code, v, Root(CopiesOf(code), v)) { RootComes(code, v); }
    hide ComesFrom, CopiesOf, Root, Redirect, InstEnds, LeftOut, SelfMovesIn, Lowered, WithoutSelfMoves;
    forall i | 0 <= i < |q| ensures InstEnds(code, mid[i], q[i]) { RedirectEnds(code, mid[i]); }
  }
}
