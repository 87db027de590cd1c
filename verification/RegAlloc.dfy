/** The register allocator as a whole (`regalloc_run`) and the frame it lays out. */
module RegAlloc {
  import opened Word64
  import opened IR
  import opened LoweredForm
  import opened Liveness
  import opened LinearScan

  /** For each register of the code its physical register or NONE, and its spill offset; which physical
      registers are used, and where the callee-saved ones are kept. Offsets are relative to rbp. */
  datatype Allocation = Allocation(reg: seq<int>, spill: seq<int>, used: seq<bool>, save: seq<int>, saveSpace: nat,
                                   spillSpace: nat)

  // ----- the layout of save and spill slots -----

  function SavesBefore(used: seq<bool>, r: nat): nat
    requires r <= |used|
  {
    if r == 0 then 0 else SavesBefore(used, r - 1) + (if used[r - 1] then 1 else 0)
  }

  predicate Spilled(reg: seq<int>, start: seq<int>, v: nat)
    requires |reg| == |start| && v < |reg|
  {
    reg[v] == NONE && start[v] >= 0
  }

  /** Spilled registers among 1 to v - 1. */
  function SpillsBefore(reg: seq<int>, start: seq<int>, v: nat): nat
    requires |reg| == |start| && 1 <= v <= |reg|
  {
    if v == 1 then 0 else SpillsBefore(reg, start, v - 1) + (if Spilled(reg, start, v - 1) then 1 else 0)
  }

  ghost predicate LaidOut(base: nat, start: seq<int>, a: Allocation) {
    && |a.used| == |a.save| == REG_COUNT && |a.reg| == |a.spill| == |start| && |start| >= 1
    && a.saveSpace == 8 * SavesBefore(a.used, 5)
    && a.spillSpace == 8 * SpillsBefore(a.reg, start, |start|)
    && (forall r :: 0 <= r < 5 && a.used[r] ==> a.save[r] == -(base + 8 * (SavesBefore(a.used, r) + 1)))
    && (forall v :: 1 <= v < |start| && Spilled(a.reg, start, v) ==>
          a.spill[v] == -(base + a.saveSpace + 8 * (SpillsBefore(a.reg, start, v) + 1)))
  }

  lemma {:induction false} SavesGrow(used: seq<bool>, r: nat, s: nat)
    requires r <= s <= |used|
    ensures SavesBefore(used, r) <= SavesBefore(used, s)
    ensures r < s && used[r] ==> SavesBefore(used, r) < SavesBefore(used, s)
    decreases s
  {
    if r < s { SavesGrow(used, r, s - 1); }
  }

  lemma {:induction false} SpillsGrow(reg: seq<int>, start: seq<int>, u: nat, v: nat)
    requires |reg| == |start| && 1 <= u <= v <= |reg|
    ensures SpillsBefore(reg, start, u) <= SpillsBefore(reg, start, v)
    ensures u < v && Spilled(reg, start, u) ==> SpillsBefore(reg, start, u) < SpillsBefore(reg, start, v)
    decreases v
  {
    if u < v { SpillsGrow(reg, start, u, v - 1); }
  }

  function Align16(x: nat): (y: nat)
    ensures x <= y < x + 16 && y % 16 == 0
  {
    (x + 15) / 16 * 16
  }

  /** The bytes the prologue reserves below rbp. */
  function FrameSize(base: nat, a: Allocation): nat {
    var total := Align16(base + a.saveSpace + a.spillSpace);
    if total < 32 then 32 else total
  }

  predicate CellInside(off: int, size: nat, base: nat) {
    0 <= size + off && off + 8 + base <= 0
  }

  predicate CellsApart(x: int, y: int) {
    x + 8 <= y || y + 8 <= x
  }

  /** Save and spill slots are 8-byte cells below the locals, inside the frame, pairwise disjoint. */
  lemma FrameDisjoint(base: nat, start: seq<int>, a: Allocation)
    requires LaidOut(base, start, a)
    ensures FrameSize(base, a) % 16 == 0
    ensures forall r :: 0 <= r < 5 && a.used[r] ==> CellInside(a.save[r], FrameSize(base, a), base)
    ensures forall v :: 1 <= v < |start| && Spilled(a.reg, start, v) ==>
                          CellInside(a.spill[v], FrameSize(base, a), base)
    ensures forall r, s :: 0 <= r < s < 5 && a.used[r] && a.used[s] ==> CellsApart(a.save[r], a.save[s])
    ensures forall u, v :: 1 <= u < v < |start| && Spilled(a.reg, start, u) && Spilled(a.reg, start, v) ==>
                             CellsApart(a.spill[u], a.spill[v])
    ensures forall r, v :: 0 <= r < 5 && a.used[r] && 1 <= v < |start| && Spilled(a.reg, start, v) ==>
                             CellsApart(a.save[r], a.spill[v])
  {
    forall r | 0 <= r < 5 && a.used[r] ensures SavesBefore(a.used, r) < SavesBefore(a.used, 5) {
      SavesGrow(a.used, r, 5);
    }
    forall v | 1 <= v < |start| && Spilled(a.reg, start, v)
      ensures SpillsBefore(a.reg, start, v) < SpillsBefore(a.reg, start, |start|)
    {
      SpillsGrow(a.reg, start, v, |start|);
    }
    forall r, s | 0 <= r < s < 5 && a.used[r] && a.used[s] ensures SavesBefore(a.used, r) < SavesBefore(a.used, s) {
      SavesGrow(a.used, r, s);
    }
    forall u, v | 1 <= u < v < |start| && Spilled(a.reg, start, u) && Spilled(a.reg, start, v)
      ensures SpillsBefore(a.reg, start, u) < SpillsBefore(a.reg, start, v)
    {
      SpillsGrow(a.reg, start, u, v);
    }
  }

  /** The frame is the least multiple of 16 that holds the locals, the saved registers and the spilled ones, and
      not less than 32. */
  lemma FrameLeast(base: nat, a: Allocation, size: nat)
    ensures var room := base + a.saveSpace + a.spillSpace;
            size >= FrameSize(base, a) <==> size >= 32 && size / 16 * 16 >= room
  {
  }

  lemma {:induction false} SavesCounted(used: seq<bool>, r: nat)
    requires r <= |used|
    ensures SavesBefore(used, r) == |set s | 0 <= s < r && used[s]|
  {
    var all := set s | 0 <= s < r && used[s];
    if r == 0 {
      assert all == {};
    } else {
      SavesCounted(used, r - 1);
      var less := set s | 0 <= s < r - 1 && used[s];
      assert all == if used[r - 1] then less + {r - 1} else less;
    }
  }

  lemma {:induction false} SpillsCounted(reg: seq<int>, start: seq<int>, v: nat)
    requires |reg| == |start| && 1 <= v <= |reg|
    ensures SpillsBefore(reg, start, v) == |set u | 1 <= u < v && reg[u] == -1 && start[u] >= 0|
    decreases v
  {
    var all := set u | 1 <= u < v && reg[u] == -1 && start[u] >= 0;
    if v == 1 {
      assert all == {};
    } else {
      SpillsCounted(reg, start, v - 1);
      var less := set u | 1 <= u < v - 1 && reg[u] == -1 && start[u] >= 0;
      assert all == if Spilled(reg, start, v - 1) then less + {v - 1} else less;
    }
  }

  /** Eight bytes for each callee-saved register in use, and for each register that occurs and got none. */
  lemma SpaceExact(base: nat, start: seq<int>, a: Allocation)
    requires LaidOut(base, start, a)
    ensures a.saveSpace == 8 * |set r | 0 <= r < 5 && a.used[r]|
    ensures a.spillSpace == 8 * |set v | 1 <= v < |start| && a.reg[v] == -1 && start[v] >= 0|
  {
    SavesCounted(a.used, 5);
    SpillsCounted(a.reg, start, |start|);
  }

  // ----- a good allocation -----

  predicate Overlapping(start: seq<int>, end: seq<int>, u: nat, v: nat)
    requires u < |start| == |end| && v < |start|
  {
    0 <= start[u] <= end[v] && 0 <= start[v] <= end[u]
  }

  ghost predicate Separated(start: seq<int>, end: seq<int>, reg: seq<int>) {
    && |reg| == |start| == |end|
    && forall u, v :: 1 <= u < |reg| && 1 <= v < |reg| && u != v && Overlapping(start, end, u, v) && reg[u] != NONE ==>
                        reg[u] != reg[v]
  }

  ghost predicate CallSafe(code: Code, start: seq<int>, end: seq<int>, reg: seq<int>)
    requires |reg| == |start| == |end|
  {
    forall v :: 1 <= v < |reg| && start[v] >= 0 && reg[v] != NONE && CrossesCall(code, start[v], end[v]) ==>
                  CalleeSaved(reg[v])
  }

  ghost predicate UsesMarked(start: seq<int>, a: Allocation)
    requires |a.reg| == |start| && |a.used| == REG_COUNT
  {
    && (forall v :: 1 <= v < |start| ==> NONE <= a.reg[v] < REG_COUNT)
    && (forall v :: 1 <= v < |start| && start[v] < 0 ==> a.reg[v] == NONE)
    && (forall v :: 1 <= v < |start| && a.reg[v] != NONE ==> a.used[a.reg[v]])
  }

  /** What the code generator relies on. */
  ghost predicate Allocates(code: Code, n: nat, base: nat, start: seq<int>, end: seq<int>, a: Allocation) {
    && |start| == |end| == |a.reg| == n + 1
    && LaidOut(base, start, a)
    && UsesMarked(start, a)
    && Separated(start, end, a.reg)
    && CallSafe(code, start, end, a.reg)
    && LoopClosed(code, n, start, end)
    && (forall v :: 1 <= v <= n ==> IsStart(code, v, start[v]))
    && (forall v, i :: 1 <= v <= n && 0 <= i < |code| && v in Occurring(code[i]) ==> i <= end[v])
  }

  // ----- a frugal allocation -----

  /** Another interval that begins no later, and reaches the start of `v`, has the register. */
  ghost predicate HeldBefore(start: seq<int>, end: seq<int>, reg: seq<int>, v: nat, r: int)
    requires v < |start| == |end| == |reg|
  {
    exists u :: 1 <= u < |start| && u != v && 0 <= start[u] <= start[v] <= end[u] && reg[u] == r
  }

  /** An interval goes without a register only if all that it could have are held: the five callee-saved ones, 0
      to 4, and if it crosses no call r10 and r11, 5 and 6. These two come first, then the lowest. */
  ghost predicate Frugal(code: Code, start: seq<int>, end: seq<int>, reg: seq<int>, v: nat)
    requires v < |start| == |end| == |reg|
  {
    var crosses := exists i :: start[v] <= i <= end[v] && 0 <= i < |code| && code[i].Call?;
    var r := reg[v];
    && -1 <= r <= 6
    && (crosses ==> r <= 4)
    && (r == 6 ==> HeldBefore(start, end, reg, v, 5))
    && (r <= 4 && !crosses ==> HeldBefore(start, end, reg, v, 5) && HeldBefore(start, end, reg, v, 6))
    && (forall s :: 0 <= s < r <= 4 ==> HeldBefore(start, end, reg, v, s))
    && (r == -1 ==> forall s :: 0 <= s <= 4 ==> HeldBefore(start, end, reg, v, s))
  }

  /** Every interval begins at the first and ends at the last occurrence, or where the least extension over loops
      ends; registers are used up before one is spilled; and only registers that some interval has are saved. */
  ghost predicate Economical(code: Code, n: nat, start: seq<int>, end: seq<int>, a: Allocation) {
    && |start| == |end| == |a.reg| == n + 1 && |a.used| == REG_COUNT
    && (exists last: seq<int> :: |last| == n + 1 && Least(code, n, start, last, end) && forall v :: 1 <= v <= n ==>
          IsEnd(code, v, last[v]))
    && (forall v :: 1 <= v <= n && start[v] >= 0 ==> Frugal(code, start, end, a.reg, v))
    && (forall r :: 0 <= r < REG_COUNT && a.used[r] ==> exists v :: 1 <= v <= n && a.reg[v] == r)
  }

  ghost predicate IsEnd(code: Code, v: nat, e: int) {
    && -1 <= e < |code|
    && (e >= 0 ==> v in Occurring(code[e]))
    && (forall i :: 0 <= i < |code| && v in Occurring(code[i]) ==> i <= e)
  }

  // ----- sorting the intervals -----

  ghost predicate IsOrder(order: seq<nat>, start: seq<int>) {
    && (forall v: nat :: v in order <==> 1 <= v < |start| && start[v] >= 0)
    && (forall i :: 0 <= i < |order| ==> order[i] < |start|)
    && (forall i, j :: 0 <= i < j < |order| ==> order[i] != order[j])
    && (forall i, j :: 0 <= i < j < |order| ==> start[order[i]] <= start[order[j]])
  }

  /** As IsOrder, for the registers below `v`. */
  ghost predicate IsOrderTo(order: seq<nat>, start: seq<int>, v: nat) {
    && v <= |start|
    && (forall u: nat :: u in order <==> 1 <= u < v && start[u] >= 0)
    && (forall i :: 0 <= i < |order| ==> order[i] < v)
    && (forall i, j :: 0 <= i < j < |order| ==> order[i] != order[j])
    && (forall i, j :: 0 <= i < j < |order| ==> start[order[i]] <= start[order[j]])
  }

  function Inserted(order: seq<nat>, v: nat, k: nat): (more: seq<nat>)
    requires k <= |order|
    ensures |more| == |order| + 1
    ensures forall i :: 0 <= i < |more| ==> more[i] == (if i < k then order[i] else if i == k then v else order[i - 1])
  {
    order[..k] + [v] + order[k..]
  }

  lemma InsertedMembers(order: seq<nat>, v: nat, k: nat)
    requires k <= |order|
    ensures forall u: nat :: u in Inserted(order, v, k) <==> u in order || u == v
  {
    var more := Inserted(order, v, k);
    forall u: nat | u in order ensures u in more {
      var i :| 0 <= i < |order| && order[i] == u;
      assert more[if i < k then i else i + 1] == u;
    }
    assert more[k] == v;
  }

  lemma InsertedSorted(order: seq<nat>, start: seq<int>, v: nat, k: nat)
    requires v < |start| && k <= |order| && forall i :: 0 <= i < |order| ==> order[i] < v
    requires forall i, j :: 0 <= i < j < |order| ==> order[i] != order[j] && start[order[i]] <= start[order[j]]
    requires forall i :: 0 <= i < k ==> start[order[i]] <= start[v]
    requires forall i :: k <= i < |order| ==> start[v] <= start[order[i]]
    ensures var more := Inserted(order, v, k);
            && (forall i :: 0 <= i < |more| ==> more[i] < v + 1)
            && (forall i, j :: 0 <= i < j < |more| ==> more[i] != more[j] && start[more[i]] <= start[more[j]])
  {
    var more := Inserted(order, v, k);
    hide Inserted;
    forall i, j | 0 <= i < j < |more| ensures more[i] != more[j] && start[more[i]] <= start[more[j]] {
      if j < k {
        assert order[i] != order[j];
      } else if i > k {
        assert order[i - 1] != order[j - 1];
      } else if i < k < j {
        assert order[i] != order[j - 1];
      }
    }
  }

  lemma InsertKeepsOrder(order: seq<nat>, start: seq<int>, v: nat, k: nat)
    requires IsOrderTo(order, start, v) && 1 <= v < |start| && start[v] >= 0 && k <= |order|
    requires forall i :: 0 <= i < k ==> start[order[i]] <= start[v]
    requires k < |order| ==> start[v] < start[order[k]]
    ensures IsOrderTo(Inserted(order, v, k), start, v + 1)
  {
    hide Inserted;
    forall i | k <= i < |order| ensures start[v] <= start[order[i]] {
      assert start[order[k]] <= start[order[i]];
    }
    InsertedSorted(order, start, v, k);
    InsertedMembers(order, v, k);
  }

  method InsertionPoint(order: seq<nat>, start: array<int>, v: nat) returns (k: nat)
    requires v < start.Length && forall i :: 0 <= i < |order| ==> order[i] < start.Length
    ensures k <= |order|
    ensures forall i :: 0 <= i < k ==> start[order[i]] <= start[v]
    ensures k < |order| ==> start[v] < start[order[k]]
  {
    k := 0;
    while k < |order| && start[order[k]] <= start[v]
      invariant k <= |order|
      invariant forall i :: 0 <= i < k ==> start[order[i]] <= start[v]
    {
      k := k + 1;
    }
  }

  /** The occurring registers in some order sorted by start. */
  method SortByStart(start: array<int>) returns (order: seq<nat>)
    requires start.Length >= 1
    ensures IsOrder(order, start[..])
  {
    order := [];
    for v := 1 to start.Length
      invariant IsOrderTo(order, start[..], v)
    {
      if start[v] >= 0 {
        var k := InsertionPoint(order, start, v);
        InsertKeepsOrder(order, start[..], v, k);
        order := Inserted(order, v, k);
      }
    }
  }

  /** The intervals in the given order. */
  function IntervalsIn(order: seq<nat>, start: seq<int>, end: seq<int>, crosses: seq<bool>): (ivs: seq<Interval>)
    requires |start| == |end| == |crosses| && forall i :: 0 <= i < |order| ==> order[i] < |start|
    ensures |ivs| == |order|
    ensures forall i :: 0 <= i < |order| ==> ivs[i] == Interval(start[order[i]], end[order[i]], crosses[order[i]])
  {
    seq(|order|, i requires 0 <= i < |order| => Interval(start[order[i]], end[order[i]], crosses[order[i]]))
  }

  ghost predicate Transferred(order: seq<nat>, regs: seq<int>, reg: seq<int>)
    requires |order| == |regs|
  {
    && (forall i :: 0 <= i < |order| ==> order[i] < |reg| && reg[order[i]] == regs[i])
    && (forall v: nat :: v < |reg| && v !in order ==> reg[v] == NONE)
  }

  lemma OrderIndex(order: seq<nat>, start: seq<int>, v: nat) returns (i: nat)
    requires IsOrder(order, start) && 1 <= v < |start| && start[v] >= 0
    ensures i < |order| && order[i] == v
  {
    assert v in order;
    i :| i < |order| && order[i] == v;
  }

  /** The scan's result, carried over to register numbers, separates overlapping intervals. */
  lemma ScanSeparates(code: Code, order: seq<nat>, start: seq<int>, end: seq<int>, crosses: seq<bool>, reg: seq<int>)
    requires |start| == |end| == |crosses| == |reg| && IsOrder(order, start)
    requires Transferred(order, Assignment(IntervalsIn(order, start, end, crosses), |order|), reg)
    requires forall v :: 1 <= v < |start| && start[v] >= 0 ==> (crosses[v] <==> CrossesCall(code, start[v], end[v]))
    ensures Separated(start, end, reg) && CallSafe(code, start, end, reg)
  {
    hide *;
    OverlapsSeparate(order, start, end, crosses, reg);
    CallsSafe(code, order, start, end, crosses, reg);
  }

  /** So does what is expected of each interval's register. */
  lemma ScanFrugal(code: Code, order: seq<nat>, start: seq<int>, end: seq<int>, crosses: seq<bool>, regs: seq<int>,
                   reg: seq<int>)
    requires |start| == |end| == |crosses| == |reg| && IsOrder(order, start) && |order| == |regs|
    requires Transferred(order, regs, reg)
    requires var ivs := IntervalsIn(order, start, end, crosses);
             forall j :: 0 <= j < |ivs| ==> WellChosen(ivs, regs, j)
    requires forall v :: 1 <= v < |start| && start[v] >= 0 ==> (crosses[v] <==> CrossesCall(code, start[v], end[v]))
    ensures forall v :: 1 <= v < |start| && start[v] >= 0 ==> Frugal(code, start, end, reg, v)
  {
    var ivs := IntervalsIn(order, start, end, crosses);
    hide IsOrder, HeldBefore, IntervalsIn, Transferred, WellChosen;
    forall v | 1 <= v < |start| && start[v] >= 0 ensures Frugal(code, start, end, reg, v) {
      var i := OrderIndex(order, start, v);
      IntervalIs(order, start, end, crosses, regs, reg, i);
      assert WellChosen(ivs, regs, i);
      forall r: int ensures Held(ivs, regs, i, r) ==> HeldBefore(start, end, reg, v, r) {
        if Held(ivs, regs, i, r) { HeldByRegister(order, start, end, crosses, regs, reg, i, r); }
      }
      ChosenIsFrugal(code, ivs, regs, i, start, end, reg, v);
    }
  }

  lemma IntervalIs(order: seq<nat>, start: seq<int>, end: seq<int>, crosses: seq<bool>, regs: seq<int>, reg: seq<int>,
                   i: nat)
    requires |start| == |end| == |crosses| == |reg| && IsOrder(order, start) && |order| == |regs| && i < |order|
    requires Transferred(order, regs, reg)
    ensures var v, ivs := order[i], IntervalsIn(order, start, end, crosses);
            |ivs| == |order| && v < |start| && ivs[i] == Interval(start[v], end[v], crosses[v]) && reg[v] == regs[i]
  {
  }

  lemma HeldByRegister(order: seq<nat>, start: seq<int>, end: seq<int>, crosses: seq<bool>, regs: seq<int>,
                       reg: seq<int>, j: nat, r: int)
    requires |start| == |end| == |crosses| == |reg| && IsOrder(order, start) && |order| == |regs| && j < |order|
    requires Transferred(order, regs, reg)
    requires var ivs := IntervalsIn(order, start, end, crosses); |ivs| == |regs| && Held(ivs, regs, j, r)
    ensures order[j] < |start| && HeldBefore(start, end, reg, order[j], r)
  {
    var ivs := IntervalsIn(order, start, end, crosses);
    var i :| 0 <= i < j && regs[i] == r && ivs[i].end >= ivs[j].start;
    assert order[i] in order && order[i] != order[j] && start[order[i]] <= start[order[j]];
  }

  lemma ChosenIsFrugal(code: Code, ivs: seq<Interval>, regs: seq<int>, i: nat, start: seq<int>, end: seq<int>,
                       reg: seq<int>, v: nat)
    requires i < |ivs| == |regs| && v < |start| == |end| == |reg| && reg[v] == regs[i] && WellChosen(ivs, regs, i)
    requires ivs[i].crosses <==> CrossesCall(code, start[v], end[v])
    requires forall r :: Held(ivs, regs, i, r) ==> HeldBefore(start, end, reg, v, r)
    ensures Frugal(code, start, end, reg, v)
  {
    hide Held, HeldBefore;
  }

  lemma OverlapsSeparate(order: seq<nat>, start: seq<int>, end: seq<int>, crosses: seq<bool>, reg: seq<int>)
    requires |start| == |end| == |crosses| == |reg| && IsOrder(order, start)
    requires Transferred(order, Assignment(IntervalsIn(order, start, end, crosses), |order|), reg)
    ensures Separated(start, end, reg)
  {
    var ivs := IntervalsIn(order, start, end, crosses);
    hide Assignment, IsOrder;
    forall u, v | 1 <= u < |reg| && 1 <= v < |reg| && u != v && Overlapping(start, end, u, v) && reg[u] != NONE
              ensures reg[u] != reg[v] {
      var i := OrderIndex(order, start, u);
      var j := OrderIndex(order, start, v);
      if i < j { AssignmentSafe(ivs, i, j); } else { AssignmentSafe(ivs, j, i); }
    }
  }

  lemma CallsSafe(code: Code, order: seq<nat>, start: seq<int>, end: seq<int>, crosses: seq<bool>, reg: seq<int>)
    requires |start| == |end| == |crosses| == |reg| && IsOrder(order, start)
    requires Transferred(order, Assignment(IntervalsIn(order, start, end, crosses), |order|), reg)
    requires forall v :: 1 <= v < |start| && start[v] >= 0 ==> (crosses[v] <==> CrossesCall(code, start[v], end[v]))
    ensures CallSafe(code, start, end, reg)
  {
    var ivs := IntervalsIn(order, start, end, crosses);
    hide Assignment, CrossesCall, IsOrder;
    forall v | 1 <= v < |reg| && start[v] >= 0 && reg[v] != NONE && CrossesCall(code, start[v], end[v])
        ensures CalleeSaved(reg[v]) {
      var i := OrderIndex(order, start, v);
      CrossingSafe(ivs, i);
    }
  }

  // ----- the allocator -----

  method Transfer(order: seq<nat>, regs: seq<int>, n: nat) returns (reg: array<int>, used: array<bool>)
    requires |order| == |regs| && forall i :: 0 <= i < |order| ==> order[i] <= n
    requires forall i, j :: 0 <= i < j < |order| ==> order[i] != order[j]
    requires forall i :: 0 <= i < |regs| ==> NONE <= regs[i] < REG_COUNT
    ensures fresh(reg) && fresh(used) && reg.Length == n + 1 && used.Length == REG_COUNT
    ensures Transferred(order, regs, reg[..])
    ensures forall v :: 0 <= v <= n ==> NONE <= reg[v] < REG_COUNT && (reg[v] != NONE ==> used[reg[v]])
    ensures forall r :: 0 <= r < REG_COUNT && used[r] ==> exists i :: 0 <= i < |order| && regs[i] == r
  {
    reg, used := new int[n + 1](i => NONE), new bool[REG_COUNT](i => false);
    for k := 0 to |order|
      invariant forall i :: 0 <= i < k ==> reg[order[i]] == regs[i]
      invariant forall v :: 0 <= v <= n && v !in order[..k] ==> reg[v] == NONE
      invariant forall v :: 0 <= v <= n ==> NONE <= reg[v] < REG_COUNT && (reg[v] != NONE ==> used[reg[v]])
      invariant forall r :: 0 <= r < REG_COUNT && used[r] ==> exists i :: 0 <= i < k && regs[i] == r
    {
      reg[order[k]] := regs[k];
      if regs[k] != NONE { used[regs[k]] := true; }
      assert order[..k + 1] == order[..k] + [order[k]];
    }
    assert order[..|order|] == order;
  }

  method Layout(base: nat, start: seq<int>, reg: seq<int>, used: seq<bool>) returns (a: Allocation)
    requires |start| == |reg| >= 1 && |used| == REG_COUNT
    ensures a.reg == reg && a.used == used && LaidOut(base, start, a)
  {
    var save := new int[REG_COUNT](i => 0);
    var saved := 0;
    for r := 0 to 5
      invariant saved == SavesBefore(used, r)
      invariant forall q :: 0 <= q < r && used[q] ==> save[q] == -(base + 8 * (SavesBefore(used, q) + 1))
    {
      if used[r] {
        saved := saved + 1;
        save[r] := -(base + saved * 8);
      }
    }
    var saveSpace := saved * 8;
    var spill := new int[|reg|](i => 0);
    var spills := 0;
    for v := 1 to |reg|
      invariant spills == SpillsBefore(reg, start, v)
      invariant forall q :: 0 <= q < 5 && used[q] ==> save[q] == -(base + 8 * (SavesBefore(used, q) + 1))
      invariant forall u :: 1 <= u < v && Spilled(reg, start, u) ==>
                              spill[u] == -(base + saveSpace + 8 * (SpillsBefore(reg, start, u) + 1))
    {
      if Spilled(reg, start, v) {
        spills := spills + 1;
        spill[v] := -(base + saveSpace + spills * 8);
      }
    }
    a := Allocation(reg, spill[..], used, save[..], saveSpace, spills * 8);
  }

  lemma {:induction false} StartsAndEnds(code: Code, v: nat)
    ensures IsStart(code, v, FirstBefore(code, |code|, v))
    ensures forall i :: 0 <= i < |code| && v in Occurring(code[i]) ==> i <= LastBefore(code, |code|, v)
    ensures -1 <= FirstBefore(code, |code|, v) <= LastBefore(code, |code|, v) < |code|
    ensures IsEnd(code, v, LastBefore(code, |code|, v))
  {
    BeforeMeans(code, |code|, v);
  }

  /** The whole allocation, with the intervals it is based on. */
  method Run(code: Code, n: nat, base: nat) returns (a: Allocation, ghost start: seq<int>, ghost end: seq<int>)
    ensures Allocates(code, n, base, start, end, a)
    ensures Economical(code, n, start, end, a)
  {
    hide *;
    var starts, ends := Occurrences(code, n);
    BoundsOfAll(code, n, starts[..], ends[..]);
    ghost var last := ends[..];
    ExtendLoops(code, n, starts, ends);
    var crosses := CallCrossings(code, n, starts, ends);
    var order := SortByStart(starts);
    OrderBounds(order, starts[..], ends[..], crosses[..]);
    var ivs := IntervalsIn(order, starts[..], ends[..], crosses[..]);
    var regs := Scan(ivs);
    AssignmentBounds(ivs);
    OrderFacts(order, starts[..]);
    var reg, used := Transfer(order, regs, n);
    var rs, us := reg[..], used[..];
    assert NONE == -1 by { NoneIs(); }
    assert forall v :: 0 <= v <= n ==> NONE <= rs[v] < REG_COUNT && (rs[v] != NONE ==> us[rs[v]]);
    start, end := starts[..], ends[..];
    ScanSeparates(code, order, start, end, crosses[..], rs);
    ScanFrugal(code, order, start, end, crosses[..], regs, rs);
    a := Layout(base, starts[..], rs, us);
    Assemble(code, n, base, start, end, order, regs, a);
    EconomyOf(code, n, start, last, end, order, regs, a);
  }

  lemma EconomyOf(code: Code, n: nat, start: seq<int>, last: seq<int>, end: seq<int>, order: seq<nat>, regs: seq<int>,
                  a: Allocation)
    requires |start| == |last| == |end| == |a.reg| == n + 1 && |a.used| == REG_COUNT && |order| == |regs|
    requires IsOrder(order, start) && Transferred(order, regs, a.reg) && Least(code, n, start, last, end)
    requires forall v :: 1 <= v <= n ==> IsEnd(code, v, last[v])
    requires forall v :: 1 <= v < |start| && start[v] >= 0 ==> Frugal(code, start, end, a.reg, v)
    requires forall r :: 0 <= r < REG_COUNT && a.used[r] ==> exists i :: 0 <= i < |order| && regs[i] == r
    ensures Economical(code, n, start, end, a)
  {
    hide Least, IsEnd, Frugal;
    forall r | 0 <= r < REG_COUNT && a.used[r] ensures exists v :: 1 <= v <= n && a.reg[v] == r {
      var i :| 0 <= i < |order| && regs[i] == r;
      assert order[i] in order && a.reg[order[i]] == r;
    }
  }

  lemma BoundsOfAll(code: Code, n: nat, start: seq<int>, end: seq<int>)
    requires |start| == |end| == n + 1
    requires forall v :: 1 <= v <= n ==> start[v] == FirstBefore(code, |code|, v)
                                         && end[v] == LastBefore(code, |code|, v)
    ensures forall v :: 1 <= v <= n ==> IsStart(code, v, start[v]) && -1 <= start[v] <= end[v] < |code|
    ensures forall v, i :: 1 <= v <= n && 0 <= i < |code| && v in Occurring(code[i]) ==> i <= end[v]
    ensures forall v :: 1 <= v <= n ==> IsEnd(code, v, end[v])
  {
    forall v | 1 <= v <= n
      ensures IsStart(code, v, start[v]) && -1 <= start[v] <= end[v] < |code| && IsEnd(code, v, end[v])
      ensures forall i :: 0 <= i < |code| && v in Occurring(code[i]) ==> i <= end[v]
    {
      StartsAndEnds(code, v);
    }
  }

  lemma NoneIs()
    ensures NONE == -1
  {
  }

  lemma OrderFacts(order: seq<nat>, start: seq<int>)
    requires IsOrder(order, start)
    ensures forall i :: 0 <= i < |order| ==> order[i] < |start|
    ensures forall i, j :: 0 <= i < j < |order| ==> order[i] != order[j]
  {
  }

  lemma OrderBounds(order: seq<nat>, start: seq<int>, end: seq<int>, crosses: seq<bool>)
    requires IsOrder(order, start) && |start| == |end| == |crosses|
    ensures forall i :: 0 <= i < |order| ==> order[i] < |start|
    ensures SortedByStart(IntervalsIn(order, start, end, crosses))
  {
  }

  lemma AssignmentBounds(ivs: seq<Interval>)
    ensures |Assignment(ivs, |ivs|)| == |ivs|
    ensures forall i :: 0 <= i < |ivs| ==> NONE <= Assignment(ivs, |ivs|)[i] < REG_COUNT
  {
  }

  lemma Assemble(code: Code, n: nat, base: nat, start: seq<int>, end: seq<int>, order: seq<nat>, regs: seq<int>,
                 a: Allocation)
    requires |start| == |end| == |a.reg| == n + 1 && |order| == |regs|
    requires LaidOut(base, start, a) && Separated(start, end, a.reg) && CallSafe(code, start, end, a.reg)
        && LoopClosed(code, n, start, end)
    requires forall v :: 1 <= v <= n ==> IsStart(code, v, start[v])
    requires forall v, i :: 1 <= v <= n && 0 <= i < |code| && v in Occurring(code[i]) ==> i <= end[v]
    requires IsOrder(order, start) && Transferred(order, regs, a.reg)
    requires forall v :: 0 <= v <= n ==> NONE <= a.reg[v] < REG_COUNT && (a.reg[v] != NONE ==> a.used[a.reg[v]])
    ensures Allocates(code, n, base, start, end, a)
  {
    hide Separated, CallSafe, LoopClosed, IsStart;
  }
}
