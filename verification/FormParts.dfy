/** How instruction lists of lowered form are put together from parts.

    The labels in `pub` are public: they belong to an enclosing construct. All other labels are private to
    the part between the counters `lo` and `hi`, which pairs up its marks and jumps. Registers from
    `lo.vreg` on belong to the part; it may use earlier ones, which other parts define. */
module FormParts {
  import opened Word64
  import opened IR
  import opened LoweredForm
  import opened Lowering

  ghost predicate MarksFrom(code: Code, pub: set<Label>, lo: Label, hi: Label) {
    && (forall i :: 0 <= i < |code| && code[i].Mark? && code[i].l !in pub ==> lo <= code[i].l < hi)
    && (forall i, j :: 0 <= i < |code| && 0 <= j < |code| && code[i].Mark? && code[i] == code[j]
                       && code[i].l !in pub ==>
                         i == j)
  }

  ghost predicate JumpsFrom(code: Code, pub: set<Label>, lo: Label, hi: Label) {
    forall i :: 0 <= i < |code| && IsJump(code[i]) && code[i].to !in pub ==>
                  lo <= code[i].to < hi && Mark(code[i].to) in code
  }

  ghost predicate DefsFrom(code: Code, lo: nat, hi: nat) {
    && (forall i :: 0 <= i < |code| && Def(code[i]).Some? ==> lo <= Def(code[i]).value < hi)
    && SingleDefinitions(code)
  }

  /** Between `l` and `k` all marks are private and reached from between `j` and `k` only. */
  ghost predicate Guarded(code: Code, pub: set<Label>, j: int, l: int, k: int) {
    && (forall m :: 0 <= m < |code| && l < m < k && code[m].Mark? ==> code[m].l !in pub)
    && (forall m, a :: 0 <= m < |code| && 0 <= a < |code| && l < m < k && code[m].Mark? ==>
                         IsJump(code[a]) && code[a].to == code[m].l ==> j < a <= k)
  }

  /** Control comes to `k` only by way of the definition at `j`, or of the other arm. */
  ghost predicate WayFrom(code: Code, pub: set<Label>, j: int, k: int) {
    exists x, y :: (j == x || j == y) && Arms(code, x, y) && y < k && Guarded(code, pub, x, y, k)
  }

  ghost predicate DefinedBefore(code: Code, pub: set<Label>, v: nat, k: int) {
    forall j :: 0 <= j < |code| && Def(code[j]) == Some(v) ==> j < k && WayFrom(code, pub, j, k)
  }

  ghost predicate UseFrom(code: Code, pub: set<Label>, lo: nat, v: nat, k: int) {
    if v < lo then Guarded(code, pub, -1, -1, k) else DefinedBefore(code, pub, v, k)
  }

  ghost predicate UsesFrom(code: Code, pub: set<Label>, lo: nat, hi: nat) {
    forall k, v :: 0 <= k < |code| && v in Uses(code[k]) ==> v < hi && UseFrom(code, pub, lo, v, k)
  }

  ghost predicate NoArgs(code: Code) {
    forall i :: 0 <= i < |code| ==> !code[i].StoreArg?
  }

  ghost predicate Sound(code: Code, pub: set<Label>, lo: Counters, hi: Counters) {
    && lo.lab <= hi.lab && lo.vreg <= hi.vreg
    && MarksFrom(code, pub, lo.lab, hi.lab)
    && JumpsFrom(code, pub, lo.lab, hi.lab)
    && DefsFrom(code, lo.vreg, hi.vreg)
    && UsesFrom(code, pub, lo.vreg, hi.vreg)
    && NoArgs(code)
  }

  /** No mark is public. */
  ghost predicate Private(code: Code, pub: set<Label>) {
    forall m :: 0 <= m < |code| && code[m].Mark? ==> code[m].l !in pub
  }

  /** `v` may be used behind the part: nothing enters the way from its definition to the end. */
  ghost predicate Export(code: Code, pub: set<Label>, v: nat) {
    forall j :: 0 <= j < |code| && Def(code[j]) == Some(v) ==> WayFrom(code, pub, j, |code|)
  }

  // ----- concatenation -----

  lemma ConcatAt(a: Code, b: Code)
    ensures forall i :: 0 <= i < |a| ==> (a + b)[i] == a[i]
    ensures forall i :: |a| <= i < |a + b| ==> (a + b)[i] == b[i - |a|]
  {
  }

  lemma GuardedLeft(a: Code, b: Code, pub: set<Label>, c0: Label, c1: Label, c2: Label, j: int, l: int, k: int)
    requires Guarded(a, pub, j, l, k) && k <= |a| && MarksFrom(a, pub, c0, c1) && JumpsFrom(b, pub, c1, c2)
    ensures Guarded(a + b, pub, j, l, k)
  {
  }

  lemma GuardedRight(a: Code, b: Code, pub: set<Label>, c0: Label, c1: Label, c2: Label, j: int, l: int, k: int)
    requires Guarded(b, pub, j, l, k) && -1 <= j <= l && JumpsFrom(a, pub, c0, c1) && MarksFrom(b, pub, c1, c2)
    ensures Guarded(a + b, pub, |a| + j, |a| + l, |a| + k)
  {
    var code := a + b;
    ConcatAt(a, b);
    forall m | 0 <= m < |code| && |a| + l < m < |a| + k && code[m].Mark? ensures code[m].l !in pub {
      assert code[m] == b[m - |a|];
    }
    forall m, i | 0 <= m < |code| && 0 <= i < |code| && |a| + l < m < |a| + k && code[m].Mark? && IsJump(code[i])
              && code[i].to == code[m].l
      ensures |a| + j < i <= |a| + k
    {
      assert code[m] == b[m - |a|];
    }
  }

  /** From a definition in the first part to a use in the second. */
  lemma GuardedAcross(a: Code, b: Code, pub: set<Label>, c0: Label, c1: Label, c2: Label, j: int, l: int, k: int)
    requires Guarded(a, pub, j, l, |a|) && -1 <= j <= l < |a| && Guarded(b, pub, -1, -1, k) && 0 <= k <= |b|
    requires MarksFrom(a, pub, c0, c1) && JumpsFrom(a, pub, c0, c1) && MarksFrom(b, pub, c1, c2)
        && JumpsFrom(b, pub, c1, c2)
    ensures Guarded(a + b, pub, j, l, |a| + k)
  {
    var code := a + b;
    forall m | 0 <= m < |code| && l < m < |a| + k && code[m].Mark? ensures code[m].l !in pub {
      if m >= |a| { assert code[m] == b[m - |a|]; }
    }
    forall m, i | 0 <= m < |code| && 0 <= i < |code| && l < m < |a| + k && code[m].Mark? && IsJump(code[i])
              && code[i].to == code[m].l
      ensures j < i <= |a| + k
    {
      if m >= |a| { assert code[m] == b[m - |a|]; } else { assert code[m] == a[m]; }
      if i < |a| { assert code[i] == a[i]; } else { assert code[i] == b[i - |a|]; }
    }
  }

  lemma PrivateGuarded(code: Code, pub: set<Label>)
    requires Private(code, pub)
    ensures Guarded(code, pub, -1, -1, |code|)
  {
  }

  lemma WayFromArms(code: Code, pub: set<Label>, j: int, k: int) returns (x: nat, y: nat)
    requires WayFrom(code, pub, j, k)
    ensures (j == x || j == y) && Arms(code, x, y) && x <= y < k && y < |code| && Guarded(code, pub, x, y, k)
  {
    var a, b :| (j == a || j == b) && Arms(code, a, b) && b < k && Guarded(code, pub, a, b, k);
    x, y := a, b;
  }

  lemma FromArms(code: Code, pub: set<Label>, x: int, y: int, k: int)
    requires Arms(code, x, y) && y < k && Guarded(code, pub, x, y, k)
    ensures WayFrom(code, pub, x, k) && WayFrom(code, pub, y, k)
  {
  }

  lemma ArmsLeft(a: Code, b: Code, x: nat, y: nat)
    requires Arms(a, x, y)
    ensures Arms(a + b, x, y)
  {
    ConcatAt(a, b);
  }

  lemma ArmsRight(a: Code, b: Code, x: nat, y: nat)
    requires Arms(b, x, y)
    ensures Arms(a + b, |a| + x, |a| + y)
  {
    var code := a + b;
    ConcatAt(a, b);
    if x < y {
      forall m, i | |a| + x < m < i < |a| + y && code[m].Mark? ensures !Leaves(code[i]) {
        assert code[m] == b[m - |a|] && code[i] == b[i - |a|];
      }
    }
  }

  lemma WayLeft(a: Code, b: Code, pub: set<Label>, c0: Label, c1: Label, c2: Label, j: int, k: int)
    requires WayFrom(a, pub, j, k) && k <= |a| && MarksFrom(a, pub, c0, c1) && JumpsFrom(b, pub, c1, c2)
    ensures WayFrom(a + b, pub, j, k)
  {
    hide *;
    var x, y := WayFromArms(a, pub, j, k);
    ArmsLeft(a, b, x, y);
    GuardedLeft(a, b, pub, c0, c1, c2, x, y, k);
    FromArms(a + b, pub, x, y, k);
  }

  lemma WayRight(a: Code, b: Code, pub: set<Label>, c0: Label, c1: Label, c2: Label, j: int, k: int)
    requires WayFrom(b, pub, j, k) && JumpsFrom(a, pub, c0, c1) && MarksFrom(b, pub, c1, c2)
    ensures WayFrom(a + b, pub, |a| + j, |a| + k)
  {
    hide *;
    var x, y := WayFromArms(b, pub, j, k);
    ArmsRight(a, b, x, y);
    GuardedRight(a, b, pub, c0, c1, c2, x, y, k);
    FromArms(a + b, pub, |a| + x, |a| + y, |a| + k);
  }

  lemma WayAcross(a: Code, b: Code, pub: set<Label>, c0: Label, c1: Label, c2: Label, j: int, k: int)
    requires WayFrom(a, pub, j, |a|) && Guarded(b, pub, -1, -1, k) && 0 <= k <= |b|
    requires MarksFrom(a, pub, c0, c1) && JumpsFrom(a, pub, c0, c1) && MarksFrom(b, pub, c1, c2)
        && JumpsFrom(b, pub, c1, c2)
    ensures WayFrom(a + b, pub, j, |a| + k)
  {
    hide *;
    var x, y := WayFromArms(a, pub, j, |a|);
    ArmsLeft(a, b, x, y);
    GuardedAcross(a, b, pub, c0, c1, c2, x, y, k);
    FromArms(a + b, pub, x, y, |a| + k);
  }

  lemma ConcatLabels(a: Code, b: Code, pub: set<Label>, c0: Label, c1: Label, c2: Label)
    requires c0 <= c1 <= c2
    requires MarksFrom(a, pub, c0, c1) && JumpsFrom(a, pub, c0, c1) && MarksFrom(b, pub, c1, c2)
        && JumpsFrom(b, pub, c1, c2)
    ensures MarksFrom(a + b, pub, c0, c2) && JumpsFrom(a + b, pub, c0, c2)
  {
    var code := a + b;
    ConcatAt(a, b);
    assert forall i, j :: 0 <= i < |a| && 0 <= j < |b| && a[i].Mark? && b[j].Mark? && a[i].l !in pub ==> a[i] != b[j];
    forall i, j | 0 <= i < |code| && 0 <= j < |code| && code[i].Mark? && code[i] == code[j] && code[i].l !in pub
              ensures i == j {
    }
    forall i | 0 <= i < |code| && IsJump(code[i]) && code[i].to !in pub
        ensures c0 <= code[i].to < c2 && Mark(code[i].to) in code {
      if i < |a| { assert code[i] == a[i]; } else { assert code[i] == b[i - |a|]; }
    }
  }

  lemma ConcatDefs(a: Code, b: Code, v0: nat, v1: nat, v2: nat)
    requires v0 <= v1 <= v2 && DefsFrom(a, v0, v1) && DefsFrom(b, v1, v2)
    ensures DefsFrom(a + b, v0, v2)
  {
    var code := a + b;
    ConcatAt(a, b);
    hide Def;
    assert forall i :: 0 <= i < |a| && Def(code[i]).Some? ==> v0 <= Def(code[i]).value < v1;
    assert forall i :: |a| <= i < |code| && Def(code[i]).Some? ==> v1 <= Def(code[i]).value < v2;
    forall i, j | 0 <= i < j < |code| && Def(code[i]).Some? && Def(code[i]) == Def(code[j])
              ensures code[i].Const? && code[j].Const? {
      assert i >= |a| ==> Def(b[i - |a|]) == Def(b[j - |a|]);
    }
  }

  /** Every use in the second part of a register of the first is one that the first exports. */
  ghost predicate Served(a: Code, b: Code, pub: set<Label>, v0: nat, v1: nat) {
    forall k, v :: 0 <= k < |b| && v in Uses(b[k]) && v < v1 ==> if v < v0 then Private(a, pub) else Export(a, pub, v)
  }

  lemma ServedAt(a: Code, b: Code, pub: set<Label>, v0: nat, v1: nat, k: nat, v: nat)
    requires Served(a, b, pub, v0, v1) && k < |b| && v in Uses(b[k]) && v < v1
    ensures if v < v0 then Private(a, pub) else Export(a, pub, v)
  {
    hide Uses, Private, Export;
  }

  lemma ConcatUse(a: Code, b: Code, pub: set<Label>, c0: Counters, c1: Counters, c2: Counters, k: nat, v: nat)
    requires Sound(a, pub, c0, c1) && Sound(b, pub, c1, c2) && Served(a, b, pub, c0.vreg, c1.vreg)
    requires k < |a + b| && v in Uses((a + b)[k])
    ensures v < c2.vreg && UseFrom(a + b, pub, c0.vreg, v, k)
  {
    var code := a + b;
    hide Uses, IsJump, Served, Guarded, WayFrom, Def, MarksFrom, JumpsFrom, DefsFrom, NoArgs;
    if k < |a| {
      assert code[k] == a[k] && v in Uses(a[k]);
      assert v < c1.vreg && UseFrom(a, pub, c0.vreg, v, k);
      if v < c0.vreg {
        GuardedLeft(a, b, pub, c0.lab, c1.lab, c2.lab, -1, -1, k);
        assert UseFrom(code, pub, c0.vreg, v, k);
      } else {
        forall j | 0 <= j < |code| && Def(code[j]) == Some(v) ensures j < k && WayFrom(code, pub, j, k) {
          InLeft(a, b, c1.vreg, c2.vreg, v, j);
          WayLeft(a, b, pub, c0.lab, c1.lab, c2.lab, j, k);
        }
        assert DefinedBefore(code, pub, v, k);
        assert UseFrom(code, pub, c0.vreg, v, k);
      }
    } else {
      var i := k - |a|;
      assert code[k] == b[i] && v in Uses(b[i]);
      assert v < c2.vreg && UseFrom(b, pub, c1.vreg, v, i);
      if v < c1.vreg { ServedAt(a, b, pub, c0.vreg, c1.vreg, i, v); }
      if v < c0.vreg {
        PrivateGuarded(a, pub);
        GuardedAcross(a, b, pub, c0.lab, c1.lab, c2.lab, -1, -1, i);
        assert UseFrom(code, pub, c0.vreg, v, k);
      } else {
        forall j | 0 <= j < |code| && Def(code[j]) == Some(v) ensures j < k && WayFrom(code, pub, j, k) {
          if v < c1.vreg {
            InLeft(a, b, c1.vreg, c2.vreg, v, j);
            WayAcross(a, b, pub, c0.lab, c1.lab, c2.lab, j, i);
          } else {
            InRight(a, b, c0.vreg, c1.vreg, v, j);
            WayRight(a, b, pub, c0.lab, c1.lab, c2.lab, j - |a|, i);
          }
        }
        assert DefinedBefore(code, pub, v, k);
        assert UseFrom(code, pub, c0.vreg, v, k);
      }
    }
  }

  lemma InLeft(a: Code, b: Code, v1: nat, v2: nat, v: nat, j: nat)
    requires DefsFrom(b, v1, v2) && v < v1 && j < |a + b| && Def((a + b)[j]) == Some(v)
    ensures j < |a| && a[j] == (a + b)[j]
  {
    ConcatAt(a, b);
  }

  lemma InRight(a: Code, b: Code, v0: nat, v1: nat, v: nat, j: nat)
    requires DefsFrom(a, v0, v1) && v >= v1 && j < |a + b| && Def((a + b)[j]) == Some(v)
    ensures j >= |a| && b[j - |a|] == (a + b)[j]
  {
    ConcatAt(a, b);
  }

  /** Two sound parts with adjoining counters, the second using only what the first exports, are sound together. */
  lemma Concat(a: Code, b: Code, pub: set<Label>, c0: Counters, c1: Counters, c2: Counters)
    requires Sound(a, pub, c0, c1) && Sound(b, pub, c1, c2) && Served(a, b, pub, c0.vreg, c1.vreg)
    ensures Sound(a + b, pub, c0, c2)
  {
    ConcatLabels(a, b, pub, c0.lab, c1.lab, c2.lab);
    ConcatDefs(a, b, c0.vreg, c1.vreg, c2.vreg);
    forall k, v | 0 <= k < |a + b| && v in Uses((a + b)[k]) ensures v < c2.vreg && UseFrom(a + b, pub, c0.vreg, v, k) {
      ConcatUse(a, b, pub, c0, c1, c2, k, v);
    }
    hide MarksFrom, JumpsFrom, DefsFrom, UseFrom, Uses;
  }

  lemma ConcatPrivate(a: Code, b: Code, pub: set<Label>)
    requires Private(a, pub) && Private(b, pub)
    ensures Private(a + b, pub)
  {
  }

  /** What the first part exports passes through a second part without public marks. */
  lemma ExportPast(a: Code, b: Code, pub: set<Label>, c0: Counters, c1: Counters, c2: Counters, v: nat)
    requires Sound(a, pub, c0, c1) && Sound(b, pub, c1, c2) && v < c1.vreg && Export(a, pub, v) && Private(b, pub)
    ensures Export(a + b, pub, v)
  {
    var code := a + b;
    PrivateGuarded(b, pub);
    forall j | 0 <= j < |code| && Def(code[j]) == Some(v) ensures WayFrom(code, pub, j, |code|) {
      InLeft(a, b, c1.vreg, c2.vreg, v, j);
      WayAcross(a, b, pub, c0.lab, c1.lab, c2.lab, j, |b|);
    }
  }

  lemma ExportLast(a: Code, b: Code, pub: set<Label>, c0: Counters, c1: Counters, c2: Counters, v: nat)
    requires Sound(a, pub, c0, c1) && Sound(b, pub, c1, c2) && v >= c1.vreg && Export(b, pub, v)
    ensures Export(a + b, pub, v)
  {
    var code := a + b;
    forall j | 0 <= j < |code| && Def(code[j]) == Some(v) ensures WayFrom(code, pub, j, |code|) {
      InRight(a, b, c0.vreg, c1.vreg, v, j);
      WayRight(a, b, pub, c0.lab, c1.lab, c2.lab, j - |a|, |b|);
    }
  }

  // ----- single instructions -----

  /** An instruction between `lo` and `hi`: its label is public, its registers come from before. */
  ghost predicate Plain(i: Inst, pub: set<Label>, lo: Counters, hi: Counters) {
    && (i.Mark? ==> i.l in pub) && (IsJump(i) ==> i.to in pub) && !i.StoreArg?
    && lo.lab <= hi.lab && lo.vreg <= hi.vreg
    && (Def(i).Some? ==> lo.vreg <= Def(i).value < hi.vreg)
    && (forall v :: v in Uses(i) ==> v < lo.vreg)
  }

  lemma Single(i: Inst, pub: set<Label>, lo: Counters, hi: Counters)
    requires Plain(i, pub, lo, hi)
    ensures Sound([i], pub, lo, hi)
    ensures Def(i).Some? ==> Export([i], pub, Def(i).value)
    ensures !i.Mark? ==> Private([i], pub)
  {
    if Def(i).Some? {
      assert Arms([i], 0, 0) && Guarded([i], pub, 0, 0, 1);
      FromArms([i], pub, 0, 0, 1);
    }
  }

  lemma Nothing(pub: set<Label>, c: Counters)
    ensures Sound([], pub, c, c) && Private([], pub)
  {
  }

  /** Appending an instruction that uses only what the part exports. */
  lemma Append(a: Code, i: Inst, pub: set<Label>, c0: Counters, c1: Counters, c2: Counters)
    requires Sound(a, pub, c0, c1) && Plain(i, pub, c1, c2)
    requires forall v :: v in Uses(i) ==> if v < c0.vreg then Private(a, pub) else Export(a, pub, v)
    ensures Sound(a + [i], pub, c0, c2)
    ensures !i.Mark? && Private(a, pub) ==> Private(a + [i], pub)
    ensures Def(i).Some? ==> Export(a + [i], pub, Def(i).value)
  {
    Single(i, pub, c1, c2);
    hide Sound, Plain, Export, Private, Uses;
    PlainIs(i, pub, c1, c2);
    assert Served(a, [i], pub, c0.vreg, c1.vreg);
    Concat(a, [i], pub, c0, c1, c2);
    if Def(i).Some? { ExportLast(a, [i], pub, c0, c1, c2, Def(i).value); }
    if !i.Mark? && Private(a, pub) { ConcatPrivate(a, [i], pub); }
  }

  lemma PlainIs(i: Inst, pub: set<Label>, lo: Counters, hi: Counters)
    requires Plain(i, pub, lo, hi)
    ensures Def(i).Some? ==> Def(i).value >= lo.vreg
    ensures forall v :: v in Uses(i) ==> v < lo.vreg
  {
  }

  lemma AppendPast(a: Code, i: Inst, pub: set<Label>, c0: Counters, c1: Counters, c2: Counters, v: nat)
    requires Sound(a, pub, c0, c1) && Plain(i, pub, c1, c2) && !i.Mark? && v < c1.vreg && Export(a, pub, v)
    ensures Export(a + [i], pub, v)
  {
    Single(i, pub, c1, c2);
    hide Sound, Plain, Export, Private, Uses;
    ExportPast(a, [i], pub, c0, c1, c2, v);
  }

  // ----- complete parts -----

  /** A complete part: all its marks are its own, and its jumps go to them or to the labels in `out`. */
  ghost predicate Whole(code: Code, lo: Counters, hi: Counters, out: set<Label>) {
    Sound(code, out, lo, hi) && Private(code, out)
  }

  /** No label of `pub` lies between the counters. */
  ghost predicate Outside(pub: set<Label>, lo: Counters, hi: Counters) {
    forall l :: l in pub ==> l < lo.lab || hi.lab <= l
  }

  lemma GuardedIn(code: Code, pub: set<Label>, pub': set<Label>, j: int, l: int, k: int)
    requires Guarded(code, pub, j, l, k) && Private(code, pub')
    ensures Guarded(code, pub', j, l, k)
  {
  }

  lemma WayIn(code: Code, pub: set<Label>, pub': set<Label>, j: int, k: int)
    requires WayFrom(code, pub, j, k) && Private(code, pub')
    ensures WayFrom(code, pub', j, k)
  {
    hide *;
    var x, y := WayFromArms(code, pub, j, k);
    GuardedIn(code, pub, pub', x, y, k);
    FromArms(code, pub', x, y, k);
  }

  lemma UseIn(code: Code, pub: set<Label>, pub': set<Label>, lo: nat, v: nat, k: int)
    requires UseFrom(code, pub, lo, v, k) && Private(code, pub')
    ensures UseFrom(code, pub', lo, v, k)
  {
    hide Guarded, WayFrom, Private;
    if v < lo {
      GuardedIn(code, pub, pub', -1, -1, k);
    } else {
      forall j | 0 <= j < |code| && Def(code[j]) == Some(v) ensures j < k && WayFrom(code, pub', j, k) {
        WayIn(code, pub, pub', j, k);
      }
    }
  }

  lemma ExportIn(code: Code, pub: set<Label>, pub': set<Label>, v: nat)
    requires Export(code, pub, v) && Private(code, pub')
    ensures Export(code, pub', v)
  {
    hide Guarded, WayFrom, Private;
    forall j | 0 <= j < |code| && Def(code[j]) == Some(v) ensures WayFrom(code, pub', j, |code|) {
      WayIn(code, pub, pub', j, |code|);
    }
  }

  /** A complete part inside a construct with other labels of its own. */
  lemma Inside(code: Code, lo: Counters, hi: Counters, out: set<Label>, pub: set<Label>)
    requires Whole(code, lo, hi, out) && out <= pub && Outside(pub, lo, hi)
    ensures Sound(code, pub, lo, hi) && Private(code, pub)
  {
    assert Private(code, pub);
    forall k, v | 0 <= k < |code| && v in Uses(code[k]) ensures v < hi.vreg && UseFrom(code, pub, lo.vreg, v, k) {
      UseIn(code, out, pub, lo.vreg, v, k);
    }
    hide UseFrom, Uses;
  }

  /** The public labels of a construct are marked once each, between the counters, and its jumps find them. */
  ghost predicate Paired(code: Code, pub: set<Label>, lo: Label, hi: Label, out: set<Label>) {
    && (forall i :: 0 <= i < |code| && code[i].Mark? && code[i].l in pub ==> lo <= code[i].l < hi && code[i].l !in out)
    && (forall i, j :: 0 <= i < |code| && 0 <= j < |code| && code[i].Mark? && code[i] == code[j] && code[i].l in pub ==>
                         i == j)
    && (forall i :: 0 <= i < |code| && IsJump(code[i]) && code[i].to in pub && code[i].to !in out ==>
                      lo <= code[i].to < hi && Mark(code[i].to) in code)
  }

  lemma GuardedComplete(code: Code, pub: set<Label>, out: set<Label>, j: int, l: int, k: int)
    requires Guarded(code, pub, j, l, k) && out <= pub
    ensures Guarded(code, out, j, l, k)
  {
  }

  lemma WayComplete(code: Code, pub: set<Label>, out: set<Label>, j: int, k: int)
    requires WayFrom(code, pub, j, k) && out <= pub
    ensures WayFrom(code, out, j, k)
  {
    hide *;
    var x, y := WayFromArms(code, pub, j, k);
    GuardedComplete(code, pub, out, x, y, k);
    FromArms(code, out, x, y, k);
  }

  lemma UseComplete(code: Code, pub: set<Label>, out: set<Label>, lo: nat, v: nat, k: int)
    requires UseFrom(code, pub, lo, v, k) && out <= pub
    ensures UseFrom(code, out, lo, v, k)
  {
    hide Guarded, WayFrom;
    if v < lo {
      GuardedComplete(code, pub, out, -1, -1, k);
    } else {
      forall j | 0 <= j < |code| && Def(code[j]) == Some(v) ensures j < k && WayFrom(code, out, j, k) {
        WayComplete(code, pub, out, j, k);
      }
    }
  }

  lemma ExportComplete(code: Code, pub: set<Label>, out: set<Label>, v: nat)
    requires Export(code, pub, v) && out <= pub
    ensures Export(code, out, v)
  {
    hide Guarded, WayFrom;
    forall j | 0 <= j < |code| && Def(code[j]) == Some(v) ensures WayFrom(code, out, j, |code|) {
      WayComplete(code, pub, out, j, |code|);
    }
  }

  /** Completing a construct: its own labels become private. */
  lemma Complete(code: Code, pub: set<Label>, lo: Counters, mid: Counters, hi: Counters, out: set<Label>)
    requires Sound(code, pub, mid, hi) && lo.lab <= mid.lab && lo.vreg == mid.vreg && out <= pub
    requires Paired(code, pub, lo.lab, hi.lab, out)
    ensures Whole(code, lo, hi, out)
  {
    CompleteLabels(code, pub, lo.lab, mid.lab, hi.lab, out);
    forall k, v | 0 <= k < |code| && v in Uses(code[k]) ensures v < hi.vreg && UseFrom(code, out, lo.vreg, v, k) {
      UseComplete(code, pub, out, lo.vreg, v, k);
    }
    hide UseFrom, Uses, MarksFrom, JumpsFrom, DefsFrom, NoArgs;
  }

  lemma CompleteLabels(code: Code, pub: set<Label>, lo: Label, mid: Label, hi: Label, out: set<Label>)
    requires MarksFrom(code, pub, mid, hi) && JumpsFrom(code, pub, mid, hi) && lo <= mid <= hi && out <= pub
        && Paired(code, pub, lo, hi, out)
    ensures MarksFrom(code, out, lo, hi) && JumpsFrom(code, out, lo, hi) && Private(code, out)
  {
  }

  // ----- the whole list -----

  /** A complete part without ways out, behind the stores of the parameters, has the lowered form. */
  lemma WholeIsLowered(ps: Code, code: Code, lo: Counters, hi: Counters)
    requires Whole(code, lo, hi, {}) && (forall i :: 0 <= i < |ps| ==> ps[i].StoreArg?)
    requires forall k, v :: 0 <= k < |code| && v in Uses(code[k]) ==> v >= lo.vreg
    ensures Lowered(ps + code)
  {
    var all := ps + code;
    forall i, j | 0 <= i < |all| && 0 <= j < |all| && all[i].Mark? && all[i] == all[j] ensures i == j {
      assert code[i - |ps|] == code[j - |ps|];
    }
    forall i | 0 <= i < |all| && IsJump(all[i]) ensures Find(all, all[i].to) < |all| {
      assert all[i] == code[i - |ps|];
      MarkFound(all, all[i].to);
    }
    forall k, v | 0 <= k < |all| && v in Uses(all[k]) ensures UseOK(all, v, k) {
      WholeUse(ps, code, lo, hi, k, v);
    }
    forall i, j | 0 <= i < j < |all| && Def(all[i]).Some? && Def(all[i]) == Def(all[j])
              ensures all[i].Const? && all[j].Const? {
      assert all[i] == code[i - |ps|] && all[j] == code[j - |ps|];
    }
    hide UseOK, Uses;
  }

  lemma MarkFound(code: Code, l: Label)
    requires Mark(l) in code
    ensures Find(code, l) < |code|
  {
  }

  lemma WholeUse(ps: Code, code: Code, lo: Counters, hi: Counters, k: nat, v: nat)
    requires Whole(code, lo, hi, {}) && (forall i :: 0 <= i < |ps| ==> ps[i].StoreArg?)
    requires forall k, v :: 0 <= k < |code| && v in Uses(code[k]) ==> v >= lo.vreg
    requires k < |ps + code| && v in Uses((ps + code)[k])
    ensures UseOK(ps + code, v, k)
  {
    var all := ps + code;
    var n := |ps|;
    assert v in Uses(code[k - n]) && UseFrom(code, {}, lo.vreg, v, k - n);
    forall j | 0 <= j < |all| && Def(all[j]) == Some(v) ensures j < k && Way(all, j, k) {
      assert all[j] == code[j - n];
      WholeWay(ps, code, lo, hi, j - n, k - n);
    }
    hide Way, Uses;
    assert Mentioned(all, v);
  }

  lemma WholeLabels(code: Code, lo: Counters, hi: Counters)
    requires Whole(code, lo, hi, {})
    ensures MarksFrom(code, {}, lo.lab, hi.lab) && JumpsFrom(code, {}, lo.lab, hi.lab)
  {
  }

  lemma WholeWay(ps: Code, code: Code, lo: Counters, hi: Counters, j: nat, k: nat)
    requires Whole(code, lo, hi, {}) && (forall i :: 0 <= i < |ps| ==> ps[i].StoreArg?) && k < |code|
    requires WayFrom(code, {}, j, k)
    ensures Way(ps + code, |ps| + j, |ps| + k)
  {
    hide Whole, WayFrom, Way, Arms, Shut;
    var x, y := WayFromArms(code, {}, j, k);
    ArmsRight(ps, code, x, y);
    WholeLabels(code, lo, hi);
    WholeShut(ps, code, lo.lab, hi.lab, x, y, k);
    EitherArm(ps + code, |ps| + x, |ps| + y, |ps| + k);
  }

  lemma WholeShut(ps: Code, code: Code, lo: Label, hi: Label, x: nat, y: nat, k: nat)
    requires MarksFrom(code, {}, lo, hi) && JumpsFrom(code, {}, lo, hi)
        && (forall i :: 0 <= i < |ps| ==> ps[i].StoreArg?) && k < |code|
    requires x <= y && Guarded(code, {}, x, y, k)
    ensures Shut(ps + code, |ps| + x, |ps| + y, |ps| + k)
  {
    var all, n := ps + code, |ps|;
    ConcatAt(ps, code);
    forall a | 0 <= a < |all| && IsJump(all[a]) && n + y < Find(all, all[a].to) < n + k ensures n + x < a <= n + k {
      var m := Find(all, all[a].to);
      assert all[m] == Mark(all[a].to);
      assert all[a] == code[a - n] && all[m] == code[m - n];
    }
  }
}
