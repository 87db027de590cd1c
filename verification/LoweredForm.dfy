/** The shape of instruction lists that lowering produces and that every pass relies on and keeps. */
module LoweredForm {
  import opened Word64
  import opened IR

  ghost predicate UniqueMarks(code: Code) {
    forall i, j :: 0 <= i < |code| && 0 <= j < |code| && code[i].Mark? && code[i] == code[j] ==> i == j
  }

  ghost predicate TargetsExist(code: Code) {
    forall i :: 0 <= i < |code| && IsJump(code[i]) ==> Find(code, code[i].to) < |code|
  }

  /** A register with more than one definition is only ever set to constants (the result of `&&` and `||`). */
  ghost predicate SingleDefinitions(code: Code) {
    forall i, j :: 0 <= i < j < |code| && Def(code[i]).Some? && Def(code[i]) == Def(code[j]) ==>
                     code[i].Const? && code[j].Const?
  }

  /** Control may go elsewhere from here than to the next instruction. */
  predicate Leaves(inst: Inst) {
    IsJump(inst) || inst.Ret?
  }

  /** Two ways of setting a register to a constant, the two arms of `&&` or `||`: from a mark between
      them control goes straight on to the second. A single definition is an arm by itself. */
  ghost predicate Arms(code: Code, j: int, l: int) {
    && 0 <= j <= l < |code|
    && (j < l ==>
          && code[j].Const? && code[l].Const? && code[j].d == code[l].d
          && forall m, x :: j < m < x < l && code[m].Mark? ==> !Leaves(code[x]))
  }

  /** No jump from outside the instructions behind `j` up to `k` enters those behind `l`. */
  ghost predicate Shut(code: Code, j: int, l: int, k: int) {
    forall a :: 0 <= a < |code| && IsJump(code[a]) && l < Find(code, code[a].to) < k ==> j < a <= k
  }

  /** No jump from outside enters the instructions behind `j` up to `k`. */
  ghost predicate Closed(code: Code, j: int, k: int) {
    Shut(code, j, j, k)
  }

  /** Control comes to `k` only by way of the definition at `j`, or of the other arm. */
  ghost predicate Way(code: Code, j: int, k: int)
    ensures Way(code, j, k) && 0 <= j < |code| && !code[j].Const? ==> Closed(code, j, k)
  {
    exists x, y :: (j == x || j == y) && Arms(code, x, y) && y < k && Shut(code, x, y, k)
  }

  ghost predicate Mentioned(code: Code, v: nat) {
    exists i :: 0 <= i < |code| && (v in Uses(code[i]) || Def(code[i]) == Some(v))
  }

  /** Every definition of `v` stands before `k`, and the way to `k` is by way of its definitions only. */
  ghost predicate UseOK(code: Code, v: nat, k: int)
    ensures UseOK(code, v, k) ==> forall j :: 0 <= j < |code| && Def(code[j]) == Some(v) ==>
                                                j < k && (code[j].Const? || Closed(code, j, k))
  {
    && Mentioned(code, v)
    && forall j :: 0 <= j < |code| && Def(code[j]) == Some(v) ==> j < k && Way(code, j, k)
  }

  ghost predicate UsesFollowDefinitions(code: Code) {
    forall k, v :: 0 <= k < |code| && v in Uses(code[k]) ==> UseOK(code, v, k)
  }

  /** Incoming arguments are stored before anything else happens. */
  ghost predicate ArgumentsFirst(code: Code) {
    forall i, j :: 0 <= i < j < |code| && code[j].StoreArg? ==> code[i].StoreArg?
  }

  ghost predicate Lowered(code: Code) {
    && UniqueMarks(code)
    && TargetsExist(code)
    && SingleDefinitions(code)
    && UsesFollowDefinitions(code)
    && ArgumentsFirst(code)
  }

  lemma FindUnique(code: Code, l: Label, i: nat)
    requires UniqueMarks(code) && i < |code| && code[i] == Mark(l)
    ensures Find(code, l) == i
  {
  }

  /** What may be used at `j` may be used at `k`, if `k` is reached by way of `j` only. */
  lemma UseCarries(code: Code, r: nat, j: nat, k: nat)
    requires UniqueMarks(code) && TargetsExist(code) && j < k < |code| && !code[j].Mark?
    requires UseOK(code, r, j) && Closed(code, j, k)
    ensures UseOK(code, r, k)
  {
    forall m | 0 <= m < |code| && Def(code[m]) == Some(r) ensures m < k && Way(code, m, k) {
      WayCarries(code, m, j, k);
    }
  }

  lemma WayCarries(code: Code, m: nat, j: nat, k: nat)
    requires UniqueMarks(code) && TargetsExist(code) && j < k < |code| && !code[j].Mark? && m < j
    requires Way(code, m, j) && Closed(code, j, k)
    ensures Way(code, m, k)
  {
    var x, y := WayArms(code, m, j);
    forall a | 0 <= a < |code| && IsJump(code[a]) && y < Find(code, code[a].to) < k ensures x < a <= k {
      assert code[Find(code, code[a].to)].Mark?;
    }
    EitherArm(code, x, y, k);
  }

  // ----- keeping the form -----

  ghost predicate Increasing(e: seq<nat>, n: nat) {
    && (forall i, j :: 0 <= i < j < |e| ==> e[i] < e[j])
    && (forall i :: 0 <= i < |e| ==> e[i] < n)
  }

  /** Whatever is shut against other jumps is shut against a jump at `x` to the mark at `y`. */
  ghost predicate Implied(code: Code, x: int, y: int) {
    forall j, l, k :: Arms(code, j, l) && Def(code[j]).Some? && l < k < |code| && !code[k].Mark? ==>
                        Shut(code, j, l, k) && l < y < k ==> j < x <= k
  }

  lemma OwnJumpsImplied(code: Code, x: int)
    requires 0 <= x < |code| && IsJump(code[x])
    ensures Implied(code, x, Find(code, code[x].to))
  {
  }

  /** A rewritten instruction may define and lead where the old one does, and no less constant. */
  predicate Reshapes(old_: Inst, new_: Inst) {
    && (Def(new_).Some? ==> Def(new_) == Def(old_)) && (old_.Const? ==> new_.Const? && new_.d == old_.d)
    && (new_.StoreArg? <==> old_.StoreArg?) && (new_.StoreArg? ==> new_ == old_)
    && (SlotOf(new_).Some? ==> SlotOf(new_) == SlotOf(old_)) && (Leaves(new_) ==> Leaves(old_))
    && (new_.Call? ==> old_.Call? && new_.kinds == old_.kinds)
  }

  /** `q[i]` stands for `p[e[i]]`: the same marks, definitions no less constant, uses that `p` would allow there. */
  ghost predicate Embeds(p: Code, q: Code, e: seq<nat>) {
    && |e| == |q| && Increasing(e, |p|)
    && (forall i :: 0 <= i < |q| ==> (q[i].Mark? <==> p[e[i]].Mark?) && (q[i].Mark? ==> q[i] == p[e[i]]))
    && (forall i :: 0 <= i < |q| ==> Reshapes(p[e[i]], q[i]))
    && (forall i, v :: 0 <= i < |q| && v in Uses(q[i]) ==> UseOK(p, v, e[i]))
  }

  ghost predicate JumpsImplied(p: Code, q: Code, e: seq<nat>)
    requires |e| == |q|
  {
    forall i :: 0 <= i < |q| && IsJump(q[i]) ==> Find(q, q[i].to) < |q| && Implied(p, e[i], e[Find(q, q[i].to)])
  }

  /** Where only one of two arms is left, nothing between them leads around it. */
  ghost predicate ArmsSurvive(p: Code, q: Code, e: seq<nat>)
    requires Increasing(e, |p|)
  {
    forall j, l :: Arms(p, j, l) && j < l && UsedIn(q, p[j].d) ==>
      && (j !in e && l in e ==> forall i :: 0 <= i < |e| && j < e[i] < l ==> !Leaves(p[e[i]]))
      && (j in e && l !in e ==> forall i :: 0 <= i < |e| && j < e[i] < l ==> !p[e[i]].Mark?)
  }

  /** The stack slot that an instruction names. */
  function SlotOf(inst: Inst): Option<int> {
    match inst
    case LoadStack(_, k) => Some(k)
    case StoreStack(k, _) => Some(k)
    case StoreArg(k, _) => Some(k)
    case AddrStack(_, k) => Some(k)
    case _ => None
  }

  ghost predicate NamesSlot(code: Code, k: int) {
    exists i :: 0 <= i < |code| && SlotOf(code[i]) == Some(k)
  }

  ghost predicate Receives(code: Code, inst: Inst) {
    exists i :: 0 <= i < |code| && code[i].StoreArg? && code[i] == inst
  }

  /** No register is mentioned, no slot named and no argument stored that was not before. */
  ghost predicate NoNew(p: Code, q: Code) {
    && (forall v :: Mentioned(q, v) ==> Mentioned(p, v))
    && (forall k :: NamesSlot(q, k) ==> NamesSlot(p, k))
    && (forall inst :: Receives(q, inst) ==> Receives(p, inst))
    && (forall kinds :: PassesKinds(q, kinds) ==> PassesKinds(p, kinds))
  }

  /** Some call passes arguments of these kinds. */
  ghost predicate PassesKinds(code: Code, kinds: seq<Arg>) {
    exists i :: 0 <= i < |code| && code[i].Call? && code[i].kinds == kinds
  }

  lemma NoNewTransitive(p: Code, q: Code, r: Code)
    requires NoNew(p, q) && NoNew(q, r)
    ensures NoNew(p, r)
  {
  }

  lemma NoNewItself(p: Code)
    ensures NoNew(p, p)
  {
  }

  lemma EmbeddedMentions(p: Code, q: Code, e: seq<nat>)
    requires Embeds(p, q, e)
    ensures NoNew(p, q)
  {
    forall v | Mentioned(q, v) ensures Mentioned(p, v) {
      var i :| 0 <= i < |q| && (v in Uses(q[i]) || Def(q[i]) == Some(v));
      if v in Uses(q[i]) { assert UseOK(p, v, e[i]); }
    }
    hide UseOK, Uses;
    forall k | NamesSlot(q, k) ensures NamesSlot(p, k) {
      var i :| 0 <= i < |q| && SlotOf(q[i]) == Some(k);
      assert SlotOf(p[e[i]]) == Some(k);
    }
    forall inst | Receives(q, inst) ensures Receives(p, inst) {
      var i :| 0 <= i < |q| && q[i].StoreArg? && q[i] == inst;
      assert p[e[i]] == inst;
    }
  }

  lemma JumpInto(p: Code, q: Code, e: seq<nat>, a: nat)
    requires Embeds(p, q, e) && JumpsImplied(p, q, e) && a < |q| && IsJump(q[a])
    ensures var b := Find(q, q[a].to); b < |q| && p[e[b]].Mark? && Leaves(p[e[a]]) && Implied(p, e[a], e[b])
  {
    var b := Find(q, q[a].to);
    assert q[b].Mark?;
  }

  lemma Between(e: seq<nat>, n: nat, i: nat, j: nat)
    requires Increasing(e, n) && i < |e| && j < |e|
    ensures i < j <==> e[i] < e[j]
  {
  }

  lemma ImpliedAt(p: Code, x: int, y: int, j: int, l: int, k: int)
    requires Implied(p, x, y) && Arms(p, j, l) && Def(p[j]).Some? && l < k < |p| && !p[k].Mark? && Shut(p, j, l, k)
        && l < y < k
    ensures j < x <= k
  {
  }

  lemma EmbeddedShut(p: Code, q: Code, e: seq<nat>, j: nat, l: nat, k: nat)
    requires Embeds(p, q, e) && JumpsImplied(p, q, e) && k < |q| && !p[e[k]].Mark? && j <= l < k
    requires Arms(p, e[j], e[l]) && Def(p[e[j]]).Some? && Shut(p, e[j], e[l], e[k])
    ensures Shut(q, j, l, k)
  {
    hide Embeds, JumpsImplied, ArmsSurvive, Arms, UsedIn;
    forall a | 0 <= a < |q| && IsJump(q[a]) && l < Find(q, q[a].to) < k ensures j < a <= k {
      hide *;
      var b := Find(q, q[a].to);
      JumpInto(p, q, e, a);
      EmbedsIncreasing(p, q, e);
      Between(e, |p|, l, b); Between(e, |p|, b, k); Between(e, |p|, j, a); Between(e, |p|, k, a); Between(e, |p|, l, k);
      ImpliedAt(p, e[a], e[b], e[j], e[l], e[k]);
    }
  }

  lemma EmbedsIncreasing(p: Code, q: Code, e: seq<nat>)
    requires Embeds(p, q, e)
    ensures |e| == |q| && Increasing(e, |p|) && forall i :: 0 <= i < |e| ==> e[i] < |p|
  {
  }

  lemma EmbeddedArms(p: Code, q: Code, e: seq<nat>, j: nat, l: nat)
    requires Embeds(p, q, e) && j <= l < |q| && Arms(p, e[j], e[l])
    ensures Arms(q, j, l)
  {
    if j < l {
      assert e[j] < e[l];
      forall m, x | j < m < x < l && q[m].Mark? ensures !Leaves(q[x]) {
        assert e[j] < e[m] < e[x] < e[l];
      }
    }
  }

  ghost predicate UsedIn(code: Code, v: nat) {
    exists k :: 0 <= k < |code| && v in Uses(code[k])
  }

  lemma SurvivorIs(p: Code, q: Code, e: seq<nat>, j: int, l: int)
    requires Increasing(e, |p|) && ArmsSurvive(p, q, e) && Arms(p, j, l) && j < l && UsedIn(q, p[j].d)
    ensures j !in e && l in e ==> forall i :: 0 <= i < |e| && j < e[i] < l ==> !Leaves(p[e[i]])
    ensures j in e && l !in e ==> forall i :: 0 <= i < |e| && j < e[i] < l ==> !p[e[i]].Mark?
  {
  }

  lemma ArmsApart(p: Code, j: int, l: int)
    requires Arms(p, j, l) && j < l
    ensures 0 <= j < l < |p| && Def(p[j]).Some? && !p[l].Mark? && !Leaves(p[l]) && !p[j].Mark? && !Leaves(p[j])
  {
  }

  /** The arm at `y` is gone: what is left of the other is a definition by itself. */
  lemma FirstArmLeft(p: Code, q: Code, e: seq<nat>, j: nat, k: nat, y: int)
    requires Embeds(p, q, e) && JumpsImplied(p, q, e) && ArmsSurvive(p, q, e) && k < |q| && !p[e[k]].Mark? && j < k
        && e[j] < y < e[k]
    requires Arms(p, e[j], y) && Shut(p, e[j], y, e[k]) && UsedIn(q, p[e[j]].d) && y !in e
    ensures Shut(q, j, j, k)
  {
    hide Embeds, JumpsImplied, ArmsSurvive, Arms, UsedIn;
    forall a | 0 <= a < |q| && IsJump(q[a]) && j < Find(q, q[a].to) < k ensures j < a <= k {
      hide *;
      var b := Find(q, q[a].to);
      JumpInto(p, q, e, a);
      EmbedsIncreasing(p, q, e);
      Between(e, |p|, j, b); Between(e, |p|, b, k); Between(e, |p|, j, a); Between(e, |p|, k, a);
      SurvivorIs(p, q, e, e[j], y);
      ArmsApart(p, e[j], y);
      assert e[j] in e;
      assert e[b] in e && e[b] > y;
      ImpliedAt(p, e[a], e[b], e[j], y, e[k]);
    }
  }

  /** The arm at `x` is gone. */
  lemma SecondArmLeft(p: Code, q: Code, e: seq<nat>, l: nat, k: nat, x: int)
    requires Embeds(p, q, e) && JumpsImplied(p, q, e) && ArmsSurvive(p, q, e) && k < |q| && !p[e[k]].Mark? && l < k
        && x < e[l]
    requires Arms(p, x, e[l]) && Shut(p, x, e[l], e[k]) && UsedIn(q, p[x].d) && x !in e
    ensures Shut(q, l, l, k)
  {
    hide Embeds, JumpsImplied, ArmsSurvive, Arms, UsedIn;
    forall a | 0 <= a < |q| && IsJump(q[a]) && l < Find(q, q[a].to) < k ensures l < a <= k {
      hide *;
      var b := Find(q, q[a].to);
      JumpInto(p, q, e, a);
      EmbedsIncreasing(p, q, e);
      Between(e, |p|, l, b); Between(e, |p|, b, k); Between(e, |p|, l, a);
      Between(e, |p|, a, l); Between(e, |p|, k, a); Between(e, |p|, l, k);
      SurvivorIs(p, q, e, x, e[l]);
      ArmsApart(p, x, e[l]);
      assert e[l] in e;
      ImpliedAt(p, e[a], e[b], x, e[l], e[k]);
      assert e[a] != e[l];
    }
  }

  lemma SingleArm(code: Code, j: nat, k: nat)
    requires j < k && j < |code| && Shut(code, j, j, k)
    ensures Way(code, j, k)
  {
    assert Arms(code, j, j);
  }

  lemma EitherArm(code: Code, x: int, y: int, k: nat)
    requires Arms(code, x, y) && y < k && Shut(code, x, y, k)
    ensures Way(code, x, k) && Way(code, y, k)
  {
  }

  lemma WayArms(code: Code, j: nat, k: int) returns (x: nat, y: nat)
    requires Way(code, j, k)
    ensures (j == x || j == y) && Arms(code, x, y) && x <= y < k && y < |code| && Shut(code, x, y, k)
    ensures x < y ==> Def(code[x]) == Def(code[y]) == Def(code[j]) == Some(code[x].d)
  {
    var a, b :| (j == a || j == b) && Arms(code, a, b) && b < k && Shut(code, a, b, k);
    x, y := a, b;
  }

  lemma EmbeddedWay(p: Code, q: Code, e: seq<nat>, j: nat, k: nat, v: nat)
    requires Embeds(p, q, e) && JumpsImplied(p, q, e) && ArmsSurvive(p, q, e) && k < |q| && j < k && UsedIn(q, v)
    requires Def(p[e[j]]) == Some(v) && !p[e[k]].Mark? && Way(p, e[j], e[k])
    ensures Way(q, j, k)
  {
    hide *;
    EmbedsIncreasing(p, q, e);
    var x, y := WayArms(p, e[j], e[k]);
    if x == y {
      EmbeddedShut(p, q, e, j, j, k);
      SingleArm(q, j, k);
    } else if x !in e {
      assert e[j] in e;
      SecondArmLeft(p, q, e, j, k, x);
      SingleArm(q, j, k);
    } else if y !in e {
      assert e[j] in e;
      FirstArmLeft(p, q, e, j, k, y);
      SingleArm(q, j, k);
    } else {
      var x' :| 0 <= x' < |e| && e[x'] == x;
      var y' :| 0 <= y' < |e| && e[y'] == y;
      Between(e, |p|, x', y'); Between(e, |p|, y', k); Between(e, |p|, x', j);
      Between(e, |p|, j, x'); Between(e, |p|, y', j); Between(e, |p|, j, y');
      EmbeddedArms(p, q, e, x', y');
      EmbeddedShut(p, q, e, x', y', k);
      EitherArm(q, x', y', k);
    }
  }

  lemma EmbeddedUse(p: Code, q: Code, e: seq<nat>, k: nat, v: nat)
    requires Embeds(p, q, e) && JumpsImplied(p, q, e) && ArmsSurvive(p, q, e)
    requires k < |q| && v in Uses(q[k])
    ensures UseOK(q, v, k)
  {
    assert UseOK(p, v, e[k]);
    assert UsedIn(q, v);
    forall j | 0 <= j < |q| && Def(q[j]) == Some(v) ensures j < k && Way(q, j, k) {
      Between(e, |p|, j, k);
      EmbeddedWay(p, q, e, j, k, v);
    }
  }

  /** An embedded list whose jumps respect what the original shuts has the form as well. */
  lemma EmbeddingKeepsForm(p: Code, q: Code, e: seq<nat>)
    requires Lowered(p) && Embeds(p, q, e) && JumpsImplied(p, q, e) && ArmsSurvive(p, q, e)
    ensures Lowered(q) && NoNew(p, q)
  {
    EmbeddedMentions(p, q, e);
    forall k, v | 0 <= k < |q| && v in Uses(q[k]) ensures UseOK(q, v, k) {
      EmbeddedUse(p, q, e, k, v);
    }
    forall i, j | 0 <= i < j < |q| && Def(q[i]).Some? && Def(q[i]) == Def(q[j])
      ensures q[i].Const? && q[j].Const?
    {
      assert e[i] < e[j];
    }
    forall i, j | 0 <= i < |q| && 0 <= j < |q| && q[i].Mark? && q[i] == q[j] ensures i == j {
      assert p[e[i]] == p[e[j]];
    }
  }

  /** Deleting no constant definition breaks no pair of arms. */
  lemma ArmsKept(p: Code, q: Code, e: seq<nat>)
    requires Increasing(e, |p|) && forall j :: 0 <= j < |p| && p[j].Const? ==> j in e
    ensures ArmsSurvive(p, q, e)
  {
  }

  // ----- rewriting in place -----

  function Identity(n: nat): seq<nat> {
    seq(n, i => i)
  }

  lemma SameMarksSameFind(p: Code, q: Code, l: Label)
    requires |p| == |q|
    requires forall i :: 0 <= i < |p| ==> (p[i] == Mark(l) <==> q[i] == Mark(l))
    ensures Find(p, l) == Find(q, l)
  {
  }

  /** A list of the same length with the same marks and jumps. */
  ghost predicate SameControl(p: Code, q: Code) {
    && |p| == |q|
    && (forall i :: 0 <= i < |p| ==>
          && (p[i].Mark? <==> q[i].Mark?) && (p[i].Mark? ==> p[i] == q[i])
          && (IsJump(p[i]) <==> IsJump(q[i])) && (IsJump(p[i]) ==> p[i].to == q[i].to))
  }

  lemma SameControlSameFind(p: Code, q: Code, l: Label)
    requires SameControl(p, q)
    ensures Find(p, l) == Find(q, l)
  {
    SameMarksSameFind(p, q, l);
  }

  /** Rewriting in place keeps the form when marks and jumps stay and every use is allowed. */
  lemma RewritingKeepsForm(p: Code, q: Code)
    requires Lowered(p) && SameControl(p, q)
    requires forall i :: 0 <= i < |p| ==> Reshapes(p[i], q[i])
    requires forall i, v :: 0 <= i < |p| && v in Uses(q[i]) ==> UseOK(p, v, i)
    ensures Lowered(q) && NoNew(p, q)
  {
    var e := Identity(|p|);
    forall i | 0 <= i < |q| && IsJump(q[i]) ensures Find(q, q[i].to) < |q| && Implied(p, e[i], e[Find(q, q[i].to)]) {
      SameControlSameFind(p, q, q[i].to);
      OwnJumpsImplied(p, i);
    }
    forall j | 0 <= j < |p| && p[j].Const? ensures j in e {
      assert e[j] == j;
    }
    ArmsKept(p, q, e);
    EmbeddingKeepsForm(p, q, e);
  }

  /** Rewriting in place without new uses. */
  lemma InPlaceEmbeds(p: Code, q: Code)
    requires UsesFollowDefinitions(p) && |p| == |q|
    requires forall i :: 0 <= i < |p| ==> Reshapes(p[i], q[i]) && (q[i].Mark? <==> p[i].Mark?)
                                          && (q[i].Mark? ==> q[i] == p[i])
    requires forall i :: 0 <= i < |p| ==> Uses(q[i]) <= Uses(p[i])
    ensures Embeds(p, q, Identity(|p|)) && ArmsSurvive(p, q, Identity(|p|))
  {
    hide UseOK, Uses, Reshapes;
    var e := Identity(|p|);
    forall j | 0 <= j < |p| && p[j].Const? ensures j in e {
      assert e[j] == j;
    }
    ArmsKept(p, q, e);
  }

  // ----- deleting instructions -----

  /** The indices below `n` marked to be kept, in order. */
  function Kept(keep: seq<bool>, n: nat): (e: seq<nat>)
    requires n <= |keep|
    ensures |e| <= n
    ensures Increasing(e, n)
    ensures forall i :: 0 <= i < |e| ==> keep[e[i]]
  {
    if n == 0 then [] else Kept(keep, n - 1) + (if keep[n - 1] then [n - 1] else [])
  }

  /** How many instructions before `i` are kept: where `i` moves to. */
  function Rank(keep: seq<bool>, i: nat): nat
    requires i <= |keep|
  {
    |Kept(keep, i)|
  }

  /** The list without the instructions not marked. */
  function Filter(code: Code, keep: seq<bool>): (q: Code)
    requires |keep| == |code|
    ensures |q| == Rank(keep, |code|)
    ensures forall i :: 0 <= i < |q| ==> q[i] == code[Kept(keep, |code|)[i]]
  {
    var e := Kept(keep, |code|);
    seq(|e|, i requires 0 <= i < |e| => code[e[i]])
  }

  lemma {:induction false} KeptPrefix(keep: seq<bool>, m: nat, n: nat)
    requires m <= n <= |keep|
    ensures Kept(keep, m) <= Kept(keep, n)
    decreases n
  {
    if m < n { KeptPrefix(keep, m, n - 1); }
  }

  lemma RankNext(keep: seq<bool>, i: nat)
    requires i < |keep|
    ensures Rank(keep, i + 1) == Rank(keep, i) + (if keep[i] then 1 else 0)
  {
  }

  /** A kept instruction is found at its rank. */
  lemma KeptAt(keep: seq<bool>, i: nat)
    requires i < |keep| && keep[i]
    ensures Rank(keep, i) < Rank(keep, |keep|)
    ensures Kept(keep, |keep|)[Rank(keep, i)] == i
  {
    KeptPrefix(keep, i + 1, |keep|);
    assert Kept(keep, i + 1)[Rank(keep, i)] == i;
  }

  lemma FilterAt(code: Code, keep: seq<bool>, i: nat)
    requires |keep| == |code| && i < |code| && keep[i]
    ensures Rank(keep, i) < |Filter(code, keep)|
    ensures Filter(code, keep)[Rank(keep, i)] == code[i]
  {
    KeptAt(keep, i);
  }

  /** A kept mark is found at its rank. */
  lemma FindInFilter(code: Code, keep: seq<bool>, l: Label)
    requires |keep| == |code| && UniqueMarks(code)
    requires Find(code, l) < |code| && keep[Find(code, l)]
    ensures Find(Filter(code, keep), l) == Rank(keep, Find(code, l))
    ensures Find(Filter(code, keep), l) + 1 == Rank(keep, Find(code, l) + 1)
  {
    var i := Find(code, l);
    FilterAt(code, keep, i);
    var q, e := Filter(code, keep), Kept(keep, |code|);
    forall j | 0 <= j < Rank(keep, i) ensures q[j] != Mark(l) {
      KeptAt(keep, i);
      assert e[j] < i;
    }
    RankNext(keep, i);
  }

  /** Control comes to `j` neither from the instruction before nor from a mark that is kept, and what
      follows it up to the next mark goes as well. */
  ghost predicate Lost(p: Code, keep: seq<bool>, j: nat)
    requires |keep| == |p|
  {
    && (forall x :: j < x < |p| && keep[x] ==> exists m :: j < m <= x && p[m].Mark?)
    && (forall m :: 0 <= m < j < |p| && p[m].Mark? && (forall x :: m < x < j ==> !Leaves(p[x])) ==> !keep[m])
  }

  /** A constant definition is deleted only if nothing reads the register, or control never comes there. */
  ghost predicate LosesConstants(p: Code, keep: seq<bool>)
    requires |keep| == |p|
  {
    forall j :: 0 <= j < |p| && p[j].Const? && !keep[j] ==> !UsedIn(p, p[j].d) || Lost(p, keep, j)
  }

  lemma KeepsConstants(p: Code, keep: seq<bool>)
    requires |keep| == |p| && forall j :: 0 <= j < |p| && p[j].Const? ==> keep[j]
    ensures LosesConstants(p, keep)
  {
  }

  lemma FilterUses(p: Code, keep: seq<bool>, v: nat)
    requires |keep| == |p| && UsedIn(Filter(p, keep), v)
    ensures UsedIn(p, v)
  {
    var q := Filter(p, keep);
    var k :| 0 <= k < |q| && v in Uses(q[k]);
    assert v in Uses(p[Kept(keep, |p|)[k]]);
  }

  lemma KeptIn(keep: seq<bool>, j: int)
    requires 0 <= j < |keep|
    ensures j in Kept(keep, |keep|) <==> keep[j]
  {
    if keep[j] { KeptAt(keep, j); }
  }

  lemma LossOfArm(p: Code, keep: seq<bool>, j: nat, l: nat)
    requires |keep| == |p| && LosesConstants(p, keep) && Arms(p, j, l) && j < l && UsedIn(p, p[j].d)
    ensures !keep[j] && keep[l] ==> forall x :: j < x < l && keep[x] ==> !Leaves(p[x])
    ensures keep[j] && !keep[l] ==> forall x :: j < x < l && keep[x] ==> !p[x].Mark?
  {
    hide *;
    LostArms(p, keep, j, l);
    if !keep[j] && keep[l] {
      forall x | j < x < l && keep[x] ensures !Leaves(p[x]) {
        if Leaves(p[x]) {
          var m := MarkBefore(p, keep, j, x);
          ArmsQuiet(p, j, l, m, x);
        }
      }
    }
    if keep[j] && !keep[l] {
      forall x | j < x < l && keep[x] ensures !p[x].Mark? {
        if p[x].Mark? { NoMarkLeads(p, keep, j, l, x); }
      }
    }
  }

  lemma LostArms(p: Code, keep: seq<bool>, j: nat, l: nat)
    requires |keep| == |p| && LosesConstants(p, keep) && Arms(p, j, l) && j < l && UsedIn(p, p[j].d)
    ensures l < |p|
    ensures !keep[j] ==> Lost(p, keep, j)
    ensures !keep[l] ==> Lost(p, keep, l)
  {
    hide UsedIn, Lost;
  }

  lemma MarkBefore(p: Code, keep: seq<bool>, j: nat, x: nat) returns (m: nat)
    requires |keep| == |p| && Lost(p, keep, j) && j < x < |p| && keep[x] && Leaves(p[x])
    ensures j < m < x && p[m].Mark?
  {
    var k :| j < k <= x && p[k].Mark?;
    m := k;
  }

  lemma ArmsQuiet(p: Code, j: nat, l: nat, m: nat, x: nat)
    requires Arms(p, j, l) && j < m < x < l && p[m].Mark?
    ensures !Leaves(p[x])
  {
  }

  lemma NoMarkLeads(p: Code, keep: seq<bool>, j: nat, l: nat, m: nat)
    requires |keep| == |p| && Arms(p, j, l) && j < m < l && p[m].Mark? && Lost(p, keep, l)
    ensures !keep[m]
  {
    hide Leaves;
  }

  lemma LossesSurvive(p: Code, keep: seq<bool>)
    requires |keep| == |p| && LosesConstants(p, keep)
    ensures ArmsSurvive(p, Filter(p, keep), Kept(keep, |p|))
  {
    var q, e := Filter(p, keep), Kept(keep, |p|);
    hide Uses, Filter, Kept, LosesConstants, UsedIn, Arms, Leaves;
    forall j: nat, l: nat | Arms(p, j, l) && j < l && UsedIn(q, p[j].d)
      ensures j !in e && l in e ==> forall i :: 0 <= i < |e| && j < e[i] < l ==> !Leaves(p[e[i]])
      ensures j in e && l !in e ==> forall i :: 0 <= i < |e| && j < e[i] < l ==> !p[e[i]].Mark?
    {
      FilterUses(p, keep, p[j].d);
      KeptIn(keep, j);
      KeptIn(keep, l);
      LossOfArm(p, keep, j, l);
    }
  }

  /** Deleting instructions keeps the form as long as the marks that remaining jumps name remain. */
  lemma DeletingKeepsForm(p: Code, keep: seq<bool>)
    requires Lowered(p) && |keep| == |p|
    requires forall i :: 0 <= i < |p| && keep[i] && IsJump(p[i]) ==> keep[Find(p, p[i].to)]
    requires LosesConstants(p, keep)
    ensures Lowered(Filter(p, keep)) && NoNew(p, Filter(p, keep))
  {
    var q, e := Filter(p, keep), Kept(keep, |p|);
    forall i | 0 <= i < |q| && IsJump(q[i]) ensures Find(q, q[i].to) < |q| && Implied(p, e[i], e[Find(q, q[i].to)]) {
      assert q[i] == p[e[i]] && keep[e[i]];
      var b := Find(p, q[i].to);
      FindInFilter(p, keep, q[i].to);
      FilterAt(p, keep, b);
      KeptAt(keep, b);
      OwnJumpsImplied(p, e[i]);
    }
    LossesSurvive(p, keep);
    FilterEmbeds(p, keep);
    JumpsImpliedIs(p, q, e);
    hide *;
    EmbeddingKeepsForm(p, q, e);
  }

  lemma JumpsImpliedIs(p: Code, q: Code, e: seq<nat>)
    requires |e| == |q| && forall i :: 0 <= i < |q| && IsJump(q[i]) ==>
                                         Find(q, q[i].to) < |q| && Implied(p, e[i], e[Find(q, q[i].to)])
    ensures JumpsImplied(p, q, e)
  {
  }

  lemma FilterEmbeds(p: Code, keep: seq<bool>)
    requires Lowered(p) && |keep| == |p|
    ensures Embeds(p, Filter(p, keep), Kept(keep, |p|))
  {
    hide UseOK, Uses, Def, Kept;
    assert UsesFollowDefinitions(p);
  }

  lemma LoweredMarks(p: Code)
    requires Lowered(p)
    ensures UniqueMarks(p) && TargetsExist(p)
  {
  }
}
