/** Dead store elimination (`opt_dead_store_elimination`). */
module DeadStores {
  import opened Word64
  import opened IR
  import opened Simulation
  import opened LoweredForm
  import opened Deletion
  import opened Editing
  import opened Function

  /** `last[k]`: the latest store to slot `k` that nothing has observed yet; `dead`: stores found overwritten. */
  datatype Scan = Scan(last: map<int, nat>, dead: set<nat>)

  predicate IsBarrier(inst: Inst) {
    inst.Mark? || IsJump(inst) || inst.Ret? || inst.Call?
  }

  predicate WritesSlot(inst: Inst) {
    inst.StoreStack? || inst.StoreArg?
  }

  function Visit(sc: Scan, taken: set<int>, inst: Inst, i: nat): Scan {
    if IsBarrier(inst) then sc.(last := map[])
    else if inst.Store? then sc.(last := sc.last - taken)
    else if inst.LoadStack? then sc.(last := sc.last - {inst.slot})
    else if WritesSlot(inst) then
      var k := inst.slot;
      Scan(sc.last[k := i], if k in sc.last && k !in taken then sc.dead + {sc.last[k]} else sc.dead)
    else sc
  }

  ghost function ScanAt(code: Code, i: nat): Scan
    requires i <= |code|
  {
    if i == 0 then Scan(map[], {}) else Visit(ScanAt(code, i - 1), Taken(code), code[i - 1], i - 1)
  }

  ghost function DeadAt(code: Code): set<nat> {
    ScanAt(code, |code|).dead
  }

  ghost function Alive(code: Code): seq<bool> {
    seq(|code|, i => i !in DeadAt(code))
  }

  ghost function WithoutDeadStores(code: Code): Code {
    Filter(code, Alive(code))
  }

  // ----- the pass, editing the list in place -----

  ghost function AliveAt(code: Code, i: nat): seq<bool>
    requires i <= |code|
  {
    seq(|code|, j => j !in ScanAt(code, i).dead)
  }

  /** Positions in the shortened list of the unobserved stores. */
  ghost predicate Located(code: Code, i: nat, last: map<int, nat>)
    requires i <= |code|
  {
    var sc := ScanAt(code, i);
    && last.Keys == sc.last.Keys
    && forall k :: k in last ==> sc.last[k] < i && last[k] == Rank(AliveAt(code, i), sc.last[k])
  }

  /** The positions left after unlinking position `p`. */
  function MoveUp(last: map<int, nat>, p: nat): map<int, nat> {
    map k | k in last :: if last[k] > p then last[k] - 1 else last[k]
  }

  function Next(last: map<int, nat>, taken: set<int>, inst: Inst, pos: nat): map<int, nat> {
    if IsBarrier(inst) then map[]
    else if inst.Store? then last - taken
    else if inst.LoadStack? then last - {inst.slot}
    else if WritesSlot(inst) then last[inst.slot := pos]
    else last
  }

  predicate Overwrites(inst: Inst, last: map<int, nat>, taken: set<int>) {
    WritesSlot(inst) && inst.slot in last && inst.slot !in taken
  }

  /** What holds when the pass, at position `pos`, is about to look at original index `i`. */
  ghost predicate Progressed(code: Code, i: nat, insts: Code, pos: nat, last: map<int, nat>) {
    && i <= |code|
    && insts == Filter(code, AliveAt(code, i))
    && pos == Rank(AliveAt(code, i), i)
    && Located(code, i, last)
  }

  lemma Positions(code: Code, i: nat, last: map<int, nat>, k: int, m: int)
    requires i <= |code| && Located(code, i, last) && k in last && m in last && k != m
    ensures last[k] != last[m] && (last[k] > last[m] <==> ScanAt(code, i).last[k] > ScanAt(code, i).last[m])
  {
    var keep, sc := AliveAt(code, i), ScanAt(code, i);
    LastStore(code, i);
    assert keep[sc.last[k]] && keep[sc.last[m]];
    if sc.last[k] > sc.last[m] {
      RankOrder(keep, sc.last[m], sc.last[k]);
    } else {
      RankOrder(keep, sc.last[k], sc.last[m]);
    }
  }

  lemma UnlinkLocated(code: Code, i: nat, last: map<int, nat>)
    requires i < |code| && Located(code, i, last) && Overwrites(code[i], last, Taken(code))
    requires var s := ScanAt(code, i).last[code[i].slot];
             forall m :: 0 <= m <= |code| ==>
               Rank(AliveAt(code, i + 1), m) == Rank(AliveAt(code, i), m) - (if m <= s then 0 else 1)
    ensures Located(code, i + 1, MoveUp(last, last[code[i].slot])[code[i].slot := Rank(AliveAt(code, i + 1), i)])
  {
    var slot := code[i].slot;
    forall k | k in last && k != slot
      ensures MoveUp(last, last[slot])[k] == Rank(AliveAt(code, i + 1), ScanAt(code, i).last[k])
    {
      Positions(code, i, last, k, slot);
    }
  }

  /** Unlinking the overwritten store moves every later position up by one. */
  lemma UnlinkProgress(code: Code, i: nat, insts: Code, pos: nat, last: map<int, nat>)
    requires i < |code| && Progressed(code, i, insts, pos, last) && Overwrites(code[i], last, Taken(code))
    ensures last[code[i].slot] < pos <= |insts|
    ensures var p := last[code[i].slot];
            Progressed(code, i + 1, insts[..p] + insts[p + 1..], pos, MoveUp(last, p)[code[i].slot := pos - 1])
  {
    var keep, j := AliveAt(code, i), ScanAt(code, i).last[code[i].slot];
    LastStore(code, i);
    assert keep[j] && keep[i];
    assert AliveAt(code, i + 1) == keep[j := false];
    FilterDropped(code, keep, j);
    RankOrder(keep, j, i);
    RankNext(keep, i);
    KeptPrefix(keep, i, |code|);
    UnlinkLocated(code, i, last);
  }

  lemma VisitProgress(code: Code, i: nat, insts: Code, pos: nat, last: map<int, nat>)
    requires i < |code| && Progressed(code, i, insts, pos, last) && !Overwrites(code[i], last, Taken(code))
    ensures Progressed(code, i + 1, insts, pos + 1, Next(last, Taken(code), code[i], pos))
  {
    LastStore(code, i);
    assert AliveAt(code, i + 1) == AliveAt(code, i);
    RankNext(AliveAt(code, i), i);
  }

  lemma AtCursor(code: Code, i: nat, insts: Code, pos: nat, last: map<int, nat>)
    requires Progressed(code, i, insts, pos, last)
    ensures i < |code| <==> pos < |insts|
    ensures i < |code| ==> insts[pos] == code[i]
  {
    LastStore(code, i);
    CursorInside(code, AliveAt(code, i), i);
  }

  lemma StartProgress(code: Code)
    ensures Progressed(code, 0, code, 0, map[])
  {
    FilterAll(code);
    assert AliveAt(code, 0) == AllKept(|code|);
  }

  lemma EndProgress(code: Code, i: nat, insts: Code, pos: nat, last: map<int, nat>)
    requires Progressed(code, i, insts, pos, last) && pos >= |insts|
    ensures insts == WithoutDeadStores(code)
  {
    AtCursor(code, i, insts, pos, last);
    assert AliveAt(code, |code|) == Alive(code);
  }

  method DeadStoreElimination(fn: IRFunction) returns (changed: bool)
    modifies fn
    ensures fn.insts == WithoutDeadStores(old(fn.insts))
    ensures LeftOut(old(fn.insts), fn.insts, OverwrittenIn(old(fn.insts)))
    ensures !changed ==> fn.insts == old(fn.insts)
  {
    hide Progressed, WithoutDeadStores;
    ghost var code, i := fn.insts, 0;
    var taken := TakenSlots(fn.insts);
    var last: map<int, nat>, pos := map[], 0;
    changed := false;
    StartProgress(code);
    while pos < |fn.insts|
      invariant Progressed(code, i, fn.insts, pos, last)
      invariant !changed ==> fn.insts == code
      decreases |fn.insts| - pos
    {
      AtCursor(code, i, fn.insts, pos, last);
      var inst := fn.insts[pos];
      if Overwrites(inst, last, taken) {
        UnlinkProgress(code, i, fn.insts, pos, last);
        var p := last[inst.slot];
        fn.Remove(p);
        last, changed := MoveUp(last, p)[inst.slot := pos - 1], true;
      } else {
        VisitProgress(code, i, fn.insts, pos, last);
        last, pos := Next(last, taken, inst, pos), pos + 1;
      }
      i := i + 1;
    }
    EndProgress(code, i, fn.insts, pos, last);
    hide LeftOut, OverwrittenIn;
    OverwrittenLeave(code);
  }

  // ----- what the scan knows -----

  /** An unobserved store is the latest to its slot, and is not dead yet. */
  lemma {:induction false} LastStore(code: Code, i: nat)
    requires i <= |code|
    ensures forall k :: k in ScanAt(code, i).last ==>
              var j := ScanAt(code, i).last[k];
              j < i && WritesSlot(code[j]) && code[j].slot == k && j !in ScanAt(code, i).dead
    ensures forall j :: j in ScanAt(code, i).dead ==> j < i && WritesSlot(code[j]) && code[j].slot !in Taken(code)
  {
    if i > 0 { LastStore(code, i - 1); }
  }

  /** A store found dead in the end was found dead before `i` or is still unobserved at `i`. */
  lemma {:induction false} DeadOrPending(code: Code, i: nat, n: nat, j: nat)
    requires i <= n <= |code| && j < i && j in ScanAt(code, n).dead
    ensures j in ScanAt(code, i).dead || (WritesSlot(code[j]) && code[j].slot in ScanAt(code, i).last
                                          && ScanAt(code, i).last[code[j].slot] == j)
    decreases n - i
  {
    LastStore(code, i);
    if i < n {
      LastStore(code, i + 1);
      DeadOrPending(code, i + 1, n, j);
    }
  }

  /** The content of slot `k` may differ at `i`: its latest store was deleted and nothing looks until it is
      overwritten. */
  ghost predicate Pending(code: Code, i: nat, k: int)
    requires i <= |code|
  {
    k in ScanAt(code, i).last && ScanAt(code, i).last[k] in DeadAt(code)
  }

  /** A slot that drops out of the scan at `i` was not pending. */
  lemma ObservedNotPending(code: Code, i: nat, k: int)
    requires i < |code| && k !in ScanAt(code, i + 1).last
    ensures !Pending(code, i, k)
  {
    LastStore(code, i);
    if Pending(code, i, k) {
      LastStore(code, i + 1);
      DeadOrPending(code, i + 1, |code|, ScanAt(code, i).last[k]);
    }
  }

  lemma TakenNotPending(code: Code, i: nat, k: int)
    requires i <= |code| && k in Taken(code)
    ensures !Pending(code, i, k)
  {
    LastStore(code, i);
    LastStore(code, |code|);
  }

  // ----- the two sides agree on every slot that can be observed -----

  ghost predicate SameSlot(a: Slots, b: Slots, k: int) {
    (k in a <==> k in b) && (k in a ==> a[k] == b[k])
  }

  lemma SameSlots(a: Slots, b: Slots)
    requires forall k :: SameSlot(a, b, k)
    ensures a == b
  {
    forall k | k in a ensures k in b && a[k] == b[k] { assert SameSlot(a, b, k); }
    forall k | k in b ensures k in a { assert SameSlot(a, b, k); }
  }

  ghost predicate AgreeBut(code: Code, i: nat, d: Data, e: Data) {
    && i <= |code| && d.regs == e.regs && d.trace == e.trace
    && forall k :: !Pending(code, i, k) ==> SameSlot(d.slots, e.slots, k)
  }

  ghost function AgreeAt(code: Code): DataRelation {
    (i: nat, d: Data, e: Data) => AgreeBut(code, i, d, e)
  }

  lemma NothingPendingAtBarrier(code: Code, i: nat, d: Data, e: Data)
    requires i < |code| && IsBarrier(code[i]) && AgreeBut(code, i, d, e)
    ensures d == e
  {
    forall k ensures SameSlot(d.slots, e.slots, k) { ObservedNotPending(code, i, k); }
    SameSlots(d.slots, e.slots);
  }

  lemma BehindBarrier(code: Code, i: nat, d: Data)
    requires i < |code| && IsBarrier(code[i])
    ensures AgreeBut(code, i + 1, d, d)
  {
  }

  /** The slots an instruction reads or changes through a pointer, or reads directly. */
  ghost predicate AgreeOnObserved(inst: Inst, taken: set<int>, d: Data, e: Data) {
    && d.regs == e.regs && d.trace == e.trace
    && (forall k :: k in taken ==> SameSlot(d.slots, e.slots, k))
    && (inst.LoadStack? ==> SameSlot(d.slots, e.slots, inst.slot))
  }

  /** An instruction that is no barrier does the same on data that agree on the slots it observes. */
  lemma StraightEffect(env: Env, taken: set<int>, inst: Inst, d: Data, e: Data)
    requires AliasWithin(env, taken) && !IsBarrier(inst) && AgreeOnObserved(inst, taken, d, e)
    requires Exec(env, inst, d).Next?
    ensures Exec(env, inst, e).Next?
    ensures var d', e' := Exec(env, inst, d).data, Exec(env, inst, e).data;
            && d'.regs == e'.regs && d'.trace == e'.trace
            && (forall k :: SameSlot(d.slots, e.slots, k) ==> SameSlot(d'.slots, e'.slots, k))
            && (WritesSlot(inst) ==> SameSlot(d'.slots, e'.slots, inst.slot))
  {
  }

  lemma StraightScan(code: Code, i: nat, k: int)
    requires i < |code| && !IsBarrier(code[i]) && i !in DeadAt(code)
    requires !Pending(code, i + 1, k)
    ensures !Pending(code, i, k) || (WritesSlot(code[i]) && code[i].slot == k)
  {
    if k !in ScanAt(code, i + 1).last { ObservedNotPending(code, i, k); }
  }

  /** Between barriers: what a kept instruction does on one side it does on the other. */
  lemma StraightStep(env: Env, code: Code, i: nat, d: Data, e: Data)
    requires AliasWithin(env, Taken(code)) && i < |code| && !IsBarrier(code[i]) && i !in DeadAt(code)
    requires AgreeBut(code, i, d, e)
    ensures SameEffect(env, code, AgreeAt(code), i, d, e)
  {
    var o := Exec(env, code[i], d);
    if o.Next? {
      forall k | k in Taken(code) ensures SameSlot(d.slots, e.slots, k) { TakenNotPending(code, i, k); }
      if code[i].LoadStack? { ObservedNotPending(code, i, code[i].slot); }
      StraightEffect(env, Taken(code), code[i], d, e);
      var o' := Exec(env, code[i], e);
      forall k | !Pending(code, i + 1, k) ensures SameSlot(o.data.slots, o'.data.slots, k) {
        StraightScan(code, i, k);
      }
    }
  }

  lemma DeadStep(env: Env, code: Code, i: nat, d: Data, e: Data)
    requires i < |code| && i in DeadAt(code) && AgreeBut(code, i, d, e)
    ensures Unnoticed(env, code, AgreeAt(code), i, d, e)
  {
    LastStore(code, |code|);
    var o := Exec(env, code[i], d);
    if o.Next? {
      forall k | !Pending(code, i + 1, k) ensures SameSlot(o.data.slots, e.slots, k) {
        assert k != code[i].slot;
        assert !Pending(code, i, k);
      }
    }
  }

  lemma DeadStoresStep(env: Env, code: Code, i: nat, d: Data, e: Data)
    requires AliasWithin(env, Taken(code)) && i < |code| && TargetsExist(code) && AgreeBut(code, i, d, e)
    ensures Deletable(env, code, Alive(code), AgreeAt(code), i, d, e)
  {
    if i in DeadAt(code) {
      DeadStep(env, code, i, d, e);
    } else if IsBarrier(code[i]) {
      NothingPendingAtBarrier(code, i, d, e);
      var o := Exec(env, code[i], d);
      if o.Next? { BehindBarrier(code, i, o.data); }
      if o.Goto? { BehindBarrier(code, Find(code, o.to), d); }
    } else {
      StraightStep(env, code, i, d, e);
    }
  }

  lemma TargetsAlive(code: Code)
    requires TargetsExist(code)
    ensures KeepsTargets(code, Alive(code))
  {
    LastStore(code, |code|);
  }

  /** Deleting overwritten stores changes no run. */
  lemma DeadStoresPreserves(env: Env, code: Code)
    requires Lowered(code) && AliasWithin(env, Taken(code))
    ensures Preserves(env, code, WithoutDeadStores(code))
  {
    TargetsAlive(code);
    forall i: nat, d: Data, e: Data | i < |code| && d.trace == e.trace && AgreeAt(code)(i, d, e)
      ensures Deletable(env, code, Alive(code), AgreeAt(code), i, d, e)
    {
      DeadStoresStep(env, code, i, d, e);
    }
    DeletionPreserves(env, code, Alive(code), AgreeAt(code));
  }

  lemma DeadStoresKeepsForm(code: Code)
    requires Lowered(code)
    ensures Lowered(WithoutDeadStores(code)) && NoNew(code, WithoutDeadStores(code))
        && Taken(WithoutDeadStores(code)) == Taken(code)
  {
    hide Lowered, UniqueMarks, TargetsExist, NoNew, LosesConstants;
    LoweredMarks(code);
    TargetsAlive(code);
    LastStore(code, |code|);
    KeepsConstants(code, Alive(code));
    DeletingKeepsForm(code, Alive(code));
    forall k | k in Taken(code) ensures k in Taken(WithoutDeadStores(code)) {
      var i :| 0 <= i < |code| && code[i].AddrStack? && code[i].slot == k;
      FilterAt(code, Alive(code), i);
    }
  }

  // ----- which stores go -----

  /** Between `j` and `i` nothing can look at slot `k`, nor store to it. */
  ghost predicate Unseen(code: Code, j: nat, i: nat, k: int)
    requires i <= |code|
  {
    forall m :: j < m < i ==>
      && !code[m].Mark? && !code[m].Jmp? && !code[m].JmpIf? && !code[m].Ret? && !code[m].Call?
      && !((code[m].LoadStack? || code[m].StoreStack? || code[m].StoreArg?) && code[m].slot == k)
  }

  /** A store to a slot whose address is not taken, stored to again with nothing between that could look. */
  ghost predicate Overwritten(code: Code, j: nat) {
    && j < |code| && (code[j].StoreStack? || code[j].StoreArg?)
    && (forall a :: 0 <= a < |code| && code[a].AddrStack? ==> code[a].slot != code[j].slot)
    && exists i: nat :: j < i < |code| && (code[i].StoreStack? || code[i].StoreArg?) && code[i].slot == code[j].slot
                        && Unseen(code, j, i, code[j].slot)
  }

  ghost function OverwrittenIn(code: Code): set<nat> {
    set j: nat | j < |code| && Overwritten(code, j)
  }

  lemma UnseenNext(code: Code, j: nat, i: nat, k: int)
    requires j < i < |code|
    ensures Unseen(code, j, i + 1, k) <==>
            Unseen(code, j, i, k) && !IsBarrier(code[i]) && !(code[i].LoadStack? && code[i].slot == k)
            && !(WritesSlot(code[i]) && code[i].slot == k)
  {
  }

  /** The latest store to a slot whose address is not taken is remembered as long as nothing looks. */
  lemma {:induction false} LastExact(code: Code, i: nat, j: nat, k: int)
    requires i <= |code| && k !in Taken(code)
    ensures k in ScanAt(code, i).last && ScanAt(code, i).last[k] == j
       <==> j < i && WritesSlot(code[j]) && code[j].slot == k && Unseen(code, j, i, k)
  {
    if i > 0 {
      LastExact(code, i - 1, j, k);
      if j < i - 1 { UnseenNext(code, j, i - 1, k); }
      hide Unseen, Taken;
      if j == i - 1 { NoneBetween(code, j, k); }
    }
  }

  lemma NoneBetween(code: Code, j: nat, k: int)
    requires j < |code|
    ensures Unseen(code, j, j + 1, k)
  {
  }

  /** Slot `k`, stored to at `j`, is stored to again before `i`. */
  ghost predicate AgainBefore(code: Code, j: nat, i: nat, k: int)
    requires i <= |code|
  {
    exists e: nat :: j < e < i && WritesSlot(code[e]) && code[e].slot == k && Unseen(code, j, e, k)
  }

  lemma AgainNext(code: Code, j: nat, i: nat, k: int)
    requires j <= i < |code|
    ensures AgainBefore(code, j, i + 1, k) <==>
            AgainBefore(code, j, i, k) || (j < i && WritesSlot(code[i]) && code[i].slot == k && Unseen(code, j, i, k))
  {
    hide Unseen;
  }

  lemma {:induction false} DeadExact(code: Code, i: nat, j: nat)
    requires i <= |code| && j < |code|
    ensures j in ScanAt(code, i).dead
       <==> j < i && WritesSlot(code[j]) && code[j].slot !in Taken(code) && AgainBefore(code, j, i, code[j].slot)
  {
    LastStore(code, i);
    if i > 0 && WritesSlot(code[j]) && code[j].slot !in Taken(code) {
      DeadExact(code, i - 1, j);
      var k := code[j].slot;
      if j <= i - 1 { AgainNext(code, j, i - 1, k); }
      if WritesSlot(code[i - 1]) && code[i - 1].slot == k { LastExact(code, i - 1, j, k); }
      LastStore(code, i - 1);
      hide AgainBefore, Unseen, Taken;
    }
  }

  lemma OverwrittenLeave(code: Code)
    ensures LeftOut(code, WithoutDeadStores(code), OverwrittenIn(code))
  {
    forall j: nat | j < |code| ensures Alive(code)[j] <==> j !in OverwrittenIn(code) {
      DeadExact(code, |code|, j);
      OverwrittenIs(code, j);
    }
    hide OverwrittenIn;
    FilterLeaves(code, Alive(code), OverwrittenIn(code));
  }

  lemma OverwrittenIs(code: Code, j: nat)
    requires j < |code|
    ensures Overwritten(code, j) <==>
            WritesSlot(code[j]) && code[j].slot !in Taken(code) && AgainBefore(code, j, |code|, code[j].slot)
  {
    hide Unseen;
    if WritesSlot(code[j]) {
      assert code[j].slot !in Taken(code) <==>
             forall a :: 0 <= a < |code| && code[a].AddrStack? ==> code[a].slot != code[j].slot;
    }
  }
}
