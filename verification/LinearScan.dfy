/** Linear-scan register allocation (`regalloc_run`, pass 4, and the layout of save and spill slots). */
module LinearScan {
  import opened Word64
  import opened IR
  import opened LoweredForm
  import opened Liveness

  // Allocatable registers, numbered as in the allocator: rbx, r12, r13, r14, r15 are callee-saved,
  // r10 and r11 are not.
  const NONE: int := -1
  const RBX: int := 0
  const R15: int := 4
  const R10: int := 5
  const R11: int := 6
  const REG_COUNT: nat := 7

  predicate CalleeSaved(r: int) {
    RBX <= r <= R15
  }

  // ----- the specification: first register no overlapping earlier interval holds -----

  function Preference(crosses: bool): seq<int> {
    if crosses then [0, 1, 2, 3, 4] else [R10, R11, 0, 1, 2, 3, 4]
  }

  function FirstFree(pref: seq<int>, busy: set<int>): (r: int)
    ensures r == NONE || (r in pref && r !in busy)
    ensures NONE !in pref ==> (r == NONE <==> forall x :: x in pref ==> x in busy)
  {
    if pref == [] then NONE
    else if pref[0] !in busy then pref[0]
    else FirstFree(pref[1..], busy)
  }

  datatype Interval = Interval(start: int, end: int, crosses: bool)

  /** The registers of the intervals before `k` that reach to its start. */
  function Busy(ivs: seq<Interval>, regs: seq<int>, k: nat): set<int>
    requires |regs| <= k < |ivs|
  {
    set i | 0 <= i < |regs| && ivs[i].end >= ivs[k].start && regs[i] != NONE :: regs[i]
  }

  /** The registers given to the first `k` intervals. */
  function Assignment(ivs: seq<Interval>, k: nat): (regs: seq<int>)
    requires k <= |ivs|
    ensures |regs| == k
    ensures forall i :: 0 <= i < k ==> NONE <= regs[i] < REG_COUNT
  {
    if k == 0 then []
    else
      var regs := Assignment(ivs, k - 1);
      regs + [FirstFree(Preference(ivs[k - 1].crosses), Busy(ivs, regs, k - 1))]
  }

  ghost predicate SortedByStart(ivs: seq<Interval>) {
    forall i, j :: 0 <= i < j < |ivs| ==> ivs[i].start <= ivs[j].start
  }

  predicate Overlap(a: Interval, b: Interval) {
    a.start <= b.end && b.start <= a.end
  }

  lemma {:induction false} AssignmentPrefix(ivs: seq<Interval>, i: nat, k: nat)
    requires i <= k <= |ivs|
    ensures Assignment(ivs, k)[..i] == Assignment(ivs, i)
    decreases k
  {
    hide Busy, FirstFree, Preference;
    if i < k {
      AssignmentPrefix(ivs, i, k - 1);
      assert Assignment(ivs, k)[..i] == Assignment(ivs, k - 1)[..i];
    }
  }

  /** Overlapping intervals never share a register, and only callee-saved registers live across a call. */
  lemma AssignmentSafe(ivs: seq<Interval>, i: nat, j: nat)
    requires i < j < |ivs|
    ensures var regs := Assignment(ivs, |ivs|);
            regs[i] == regs[j] != NONE ==> ivs[i].end < ivs[j].start && !Overlap(ivs[i], ivs[j])
    ensures var regs := Assignment(ivs, |ivs|);
            ivs[j].crosses && regs[j] != NONE ==> CalleeSaved(regs[j])
  {
    var before := Assignment(ivs, j);
    AssignmentPrefix(ivs, j, |ivs|);
    AssignmentPrefix(ivs, j + 1, |ivs|);
    assert Assignment(ivs, |ivs|)[i] == Assignment(ivs, |ivs|)[..j][i];
    assert Assignment(ivs, |ivs|)[j] == Assignment(ivs, |ivs|)[..j + 1][j];
    assert before[i] != NONE && ivs[i].end >= ivs[j].start ==> before[i] in Busy(ivs, before, j);
  }

  lemma CrossingSafe(ivs: seq<Interval>, j: nat)
    requires j < |ivs|
    ensures ivs[j].crosses && Assignment(ivs, |ivs|)[j] != NONE ==> CalleeSaved(Assignment(ivs, |ivs|)[j])
  {
    AssignmentPrefix(ivs, j + 1, |ivs|);
    assert Assignment(ivs, |ivs|)[j] == Assignment(ivs, |ivs|)[..j + 1][j];
  }

  // ----- no register is left unused -----

  /** An interval that comes before `j` holds the register when `j` begins. */
  ghost predicate Held(ivs: seq<Interval>, regs: seq<int>, j: nat, r: int)
    requires j < |ivs| && |regs| == |ivs|
  {
    exists i :: 0 <= i < j && regs[i] == r && ivs[i].end >= ivs[j].start
  }

  /** What is expected of the register of interval `j`, numbers 0 to 4 being callee-saved, 5 and 6 r10 and r11: one
      that is free; a callee-saved one, the first, if the interval crosses a call; otherwise r10, then r11, then
      the callee-saved ones; and none at all only if there is none. */
  ghost predicate WellChosen(ivs: seq<Interval>, regs: seq<int>, j: nat)
    requires j < |ivs| && |regs| == |ivs|
  {
    var r := regs[j];
    && -1 <= r <= 6
    && (r != -1 ==> !Held(ivs, regs, j, r))
    && (ivs[j].crosses ==> r <= 4)
    && (r == 6 ==> Held(ivs, regs, j, 5))
    && (r <= 4 && !ivs[j].crosses ==> Held(ivs, regs, j, 5) && Held(ivs, regs, j, 6))
    && (forall s :: 0 <= s < r <= 4 ==> Held(ivs, regs, j, s))
    && (r == -1 ==> forall s :: 0 <= s <= 4 ==> Held(ivs, regs, j, s))
  }

  lemma HeldIsBusy(ivs: seq<Interval>, j: nat, r: int)
    requires j < |ivs| && r != NONE
    ensures Held(ivs, Assignment(ivs, |ivs|), j, r) <==> r in Busy(ivs, Assignment(ivs, j), j)
  {
    hide Assignment;
    AssignmentPrefix(ivs, j, |ivs|);
    var all, before := Assignment(ivs, |ivs|), Assignment(ivs, j);
    assert forall i :: 0 <= i < j ==> all[i] == all[..j][i] == before[i];
  }

  lemma {:induction false} FirstIsFirst(pref: seq<int>, busy: set<int>) returns (k: nat)
    ensures k <= |pref| && forall i :: 0 <= i < k ==> pref[i] in busy
    ensures FirstFree(pref, busy) == if k < |pref| then pref[k] else NONE
    ensures k < |pref| ==> pref[k] !in busy
  {
    k := 0;
    if pref != [] && pref[0] in busy {
      k := FirstIsFirst(pref[1..], busy);
      k := k + 1;
    }
  }

  lemma FirstOfAll(crosses: bool, busy: set<int>)
    ensures var r := FirstFree(Preference(crosses), busy);
            && -1 <= r <= 6 && (r != -1 ==> r !in busy) && (crosses ==> r <= 4)
            && (r == 6 ==> 5 in busy) && (r <= 4 && !crosses ==> 5 in busy && 6 in busy)
            && (forall s :: 0 <= s < r <= 4 ==> s in busy)
            && (r == -1 ==> forall s :: 0 <= s <= 4 ==> s in busy)
  {
    var pref := Preference(crosses);
    var k := FirstIsFirst(pref, busy);
    var shift := if crosses then 0 else 2;
    assert |pref| == 5 + shift && forall i :: shift <= i < 5 + shift ==> pref[i] == i - shift;
    assert !crosses ==> pref[0] == 5 && pref[1] == 6;
    hide FirstFree, Preference;
    if k >= shift {
      forall s | 0 <= s < k - shift ensures s in busy { assert pref[s + shift] == s; }
    }
  }

  /** Every interval gets the register that is expected. */
  lemma AssignmentFrugal(ivs: seq<Interval>, j: nat)
    requires j < |ivs|
    ensures WellChosen(ivs, Assignment(ivs, |ivs|), j)
  {
    hide Assignment, Busy, FirstFree, Preference, Held;
    AssignmentPrefix(ivs, j + 1, |ivs|);
    assert Assignment(ivs, |ivs|)[j] == Assignment(ivs, |ivs|)[..j + 1][j];
    AssignmentNext(ivs, j);
    FirstOfAll(ivs[j].crosses, Busy(ivs, Assignment(ivs, j), j));
    forall r: int | r != NONE
      ensures Held(ivs, Assignment(ivs, |ivs|), j, r) <==> r in Busy(ivs, Assignment(ivs, j), j) {
      HeldIsBusy(ivs, j, r);
    }
  }

  // ----- the scan with its active list -----

  datatype Entry = Entry(reg: int, end: int)

  function ActiveRegs(active: seq<Entry>): set<int> {
    set a | 0 <= a < |active| :: active[a].reg
  }

  /** The active list and the in-use flags describe the same registers, each once, at most seven. */
  ghost predicate Consistent(active: seq<Entry>, inUse: seq<bool>) {
    && |inUse| == REG_COUNT
    && |active| <= REG_COUNT
    && (forall a :: 0 <= a < |active| ==> 0 <= active[a].reg < REG_COUNT)
    && (forall a, b :: 0 <= a < b < |active| ==> active[a].reg != active[b].reg)
    && (forall r :: 0 <= r < REG_COUNT ==> (inUse[r] <==> r in ActiveRegs(active)))
  }

  /** The active entries are exactly the assigned earlier intervals that end no earlier than `bound`. */
  ghost predicate Tracks(ivs: seq<Interval>, regs: seq<int>, active: seq<Entry>, bound: int)
    requires |regs| <= |ivs|
  {
    && (forall e :: e in active ==>
          e.reg != NONE && (exists i :: 0 <= i < |regs| && regs[i] == e.reg && ivs[i].end == e.end))
    && (forall i :: 0 <= i < |regs| && regs[i] != NONE && ivs[i].end >= bound ==> Entry(regs[i], ivs[i].end) in active)
  }

  lemma RemovedConsistent(active: seq<Entry>, inUse: seq<bool>, a: nat)
    requires Consistent(active, inUse) && a < |active|
    ensures Consistent(active[..a] + active[a + 1..], inUse[active[a].reg := false])
  {
    var rest := active[..a] + active[a + 1..];
    assert forall b :: 0 <= b < |rest| ==> rest[b] == active[if b < a then b else b + 1];
    forall r | r in ActiveRegs(active) && r != active[a].reg ensures r in ActiveRegs(rest) {
      var b :| 0 <= b < |active| && active[b].reg == r;
      assert rest[if b < a then b else b - 1] == active[b];
    }
    assert ActiveRegs(rest) == ActiveRegs(active) - {active[a].reg};
  }

  /** Drops the entries that end before the current interval begins. */
  method Expire(active: seq<Entry>, inUse: array<bool>, start: int) returns (rest: seq<Entry>)
    requires Consistent(active, inUse[..])
    modifies inUse
    ensures Consistent(rest, inUse[..])
    ensures forall e :: e in rest <==> e in active && e.end >= start
  {
    rest := active;
    var a := 0;
    while a < |rest|
      invariant 0 <= a <= |rest| && Consistent(rest, inUse[..])
      invariant forall e :: e in rest ==> e in active
      invariant forall e :: e in active && e.end >= start ==> e in rest
      invariant forall b :: 0 <= b < a ==> rest[b].end >= start
      decreases |rest| - a
    {
      if rest[a].end < start {
        RemovedConsistent(rest, inUse[..], a);
        ghost var before := inUse[..];
        inUse[rest[a].reg] := false;
        assert inUse[..] == before[rest[a].reg := false];
        ghost var gone, longer := rest[a], rest;
        rest := rest[..a] + rest[a + 1..];
        assert forall e :: e in longer ==> e in rest || e == gone;
      } else {
        a := a + 1;
      }
    }
  }

  /** The first register of the preference order that is not in use. */
  method Choose(inUse: array<bool>, crosses: bool, ghost busy: set<int>) returns (chosen: int)
    requires inUse.Length == REG_COUNT
    requires forall r :: 0 <= r < REG_COUNT ==> (inUse[r] <==> r in busy)
    ensures chosen == FirstFree(Preference(crosses), busy)
  {
    chosen := NONE;
    var pref := Preference(crosses);
    var k := 0;
    while k < |pref|
      invariant 0 <= k <= |pref| && FirstFree(pref[k..], busy) == FirstFree(pref, busy)
    {
      if !inUse[pref[k]] { return pref[k]; }
      assert pref[k..][1..] == pref[k + 1..];
      k := k + 1;
    }
  }

  lemma {:induction false} DistinctBound(xs: seq<Entry>, n: nat)
    requires forall i :: 0 <= i < |xs| ==> 0 <= xs[i].reg < n
    requires forall i, j :: 0 <= i < j < |xs| ==> xs[i].reg != xs[j].reg
    ensures |xs| <= n
  {
    if xs != [] && xs[0].reg < n {
      if i :| 0 <= i < |xs| && xs[i].reg == n - 1 {
        DistinctBound(xs[..i] + xs[i + 1..], n - 1);
      } else {
        DistinctBound(xs, n - 1);
      }
    }
  }

  lemma AddedConsistent(active: seq<Entry>, inUse: seq<bool>, e: Entry)
    requires Consistent(active, inUse) && 0 <= e.reg < REG_COUNT && !inUse[e.reg]
    ensures Consistent(active + [e], inUse[e.reg := true])
  {
    var more := active + [e];
    assert forall a :: 0 <= a < |active| ==> active[a].reg in ActiveRegs(active);
    DistinctBound(more, REG_COUNT);
    assert more[|active|] == e;
    assert forall a :: 0 <= a < |active| ==> more[a] == active[a];
    assert ActiveRegs(more) == ActiveRegs(active) + {e.reg};
  }

  /** Recording the choice for interval `k` keeps track for the next one, which starts no earlier. */
  lemma TracksNext(ivs: seq<Interval>, regs: seq<int>, active: seq<Entry>, k: nat, chosen: int)
    requires SortedByStart(ivs) && |regs| == k && k + 1 < |ivs| && Tracks(ivs, regs, active, ivs[k].start)
    ensures Tracks(ivs, regs + [chosen], if chosen != NONE then active + [Entry(chosen, ivs[k].end)]
                else active, ivs[k + 1].start)
  {
    var regs', active' := regs + [chosen], if chosen != NONE then active + [Entry(chosen, ivs[k].end)] else active;
    forall e | e in active' ensures e.reg != NONE && exists i :: 0 <= i < |regs'| && regs'[i] == e.reg
                                                                 && ivs[i].end == e.end {
      if e in active {
        var i :| 0 <= i < |regs| && regs[i] == e.reg && ivs[i].end == e.end;
        assert regs'[i] == e.reg;
      } else {
        assert regs'[k] == e.reg;
      }
    }
  }

  /** After expiry the active registers are the busy ones. */
  lemma ActiveIsBusy(ivs: seq<Interval>, regs: seq<int>, active: seq<Entry>, k: nat)
    requires |regs| == k < |ivs| && Tracks(ivs, regs, active, ivs[k].start)
    requires forall e :: e in active ==> e.end >= ivs[k].start
    ensures ActiveRegs(active) == Busy(ivs, regs, k)
  {
    forall r | r in ActiveRegs(active) ensures r in Busy(ivs, regs, k) {
      var a :| 0 <= a < |active| && active[a].reg == r;
      assert active[a] in active;
    }
    forall r | r in Busy(ivs, regs, k) ensures r in ActiveRegs(active) {
      var i :| 0 <= i < |regs| && ivs[i].end >= ivs[k].start && regs[i] != NONE && regs[i] == r;
      assert Entry(regs[i], ivs[i].end) in active;
    }
  }

  /** Gives every interval, in order of its start, the register the specification gives it. */
  method Scan(ivs: seq<Interval>) returns (regs: seq<int>)
    requires SortedByStart(ivs)
    ensures regs == Assignment(ivs, |ivs|)
    ensures forall j :: 0 <= j < |ivs| ==> WellChosen(ivs, regs, j)
  {
    hide WellChosen;
    hide Consistent, Tracks, Assignment, FirstFree, Busy, ActiveRegs, SortedByStart;
    regs := [];
    var active: seq<Entry> := [];
    var inUse := new bool[REG_COUNT](i => false);
    ScanStart(ivs, inUse[..]);
    var k := 0;
    while k < |ivs|
      invariant 0 <= k <= |ivs| && regs == Assignment(ivs, k) && |regs| == k
      invariant Consistent(active, inUse[..]) && inUse.Length == REG_COUNT
      invariant k < |ivs| ==> Tracks(ivs, regs, active, ivs[k].start)
    {
      active := Place(ivs, regs, active, inUse, k);
      var chosen := Choose(inUse, ivs[k].crosses, ActiveRegs(active));
      AssignmentNext(ivs, k);
      if k + 1 < |ivs| { TracksNext(ivs, regs, active, k, chosen); }
      regs := regs + [chosen];
      if chosen != NONE {
        AddedConsistent(active, inUse[..], Entry(chosen, ivs[k].end));
        ghost var before := inUse[..];
        inUse[chosen] := true;
        assert inUse[..] == before[chosen := true];
        active := active + [Entry(chosen, ivs[k].end)];
      }
      k := k + 1;
    }
    forall j | 0 <= j < |ivs| ensures WellChosen(ivs, regs, j) { AssignmentFrugal(ivs, j); }
  }

  lemma ScanStart(ivs: seq<Interval>, inUse: seq<bool>)
    requires |inUse| == REG_COUNT && forall r :: 0 <= r < REG_COUNT ==> !inUse[r]
    ensures Consistent([], inUse) && Assignment(ivs, 0) == [] && (|ivs| > 0 ==> Tracks(ivs, [], [], ivs[0].start))
  {
  }

  lemma AssignmentNext(ivs: seq<Interval>, k: nat)
    requires k < |ivs|
    ensures var regs := Assignment(ivs, k);
            var r := FirstFree(Preference(ivs[k].crosses), Busy(ivs, regs, k));
            && Assignment(ivs, k + 1) == regs + [r]
            && (r != NONE ==> 0 <= r < REG_COUNT && r !in Busy(ivs, regs, k))
  {
  }

  /** Expires, and relates what is left to the specification. */
  method Place(ivs: seq<Interval>, ghost regs: seq<int>, active: seq<Entry>, inUse: array<bool>, k: nat)
      returns (rest: seq<Entry>)
    requires k < |ivs| && |regs| == k
    requires Consistent(active, inUse[..]) && Tracks(ivs, regs, active, ivs[k].start)
    modifies inUse
    ensures Consistent(rest, inUse[..]) && Tracks(ivs, regs, rest, ivs[k].start)
    ensures forall r :: 0 <= r < REG_COUNT ==> (inUse[r] <==> r in ActiveRegs(rest))
    ensures ActiveRegs(rest) == Busy(ivs, regs, k)
  {
    rest := Expire(active, inUse, ivs[k].start);
    assert Tracks(ivs, regs, rest, ivs[k].start);
    ActiveIsBusy(ivs, regs, rest, k);
    assert forall r :: 0 <= r < REG_COUNT ==> inUse[..][r] == inUse[r];
  }
}
