/** Unreachable block removal (`opt_unreachable_block_removal`). */
module Unreachable {
  import opened Word64
  import opened IR
  import opened Simulation
  import opened LoweredForm
  import opened Deletion
  import opened Editing
  import opened Function
  import CfgSimplify

  // ----- basic blocks -----

  /** A block begins at the first instruction and at every label. */
  predicate Begins(code: Code, i: nat) {
    i < |code| && (i == 0 || code[i].Mark?)
  }

  /** Where the block of instruction `i` begins. */
  function BlockOf(code: Code, i: nat): (b: nat)
    requires i < |code|
    ensures b <= i && Begins(code, b)
    ensures forall m :: b < m <= i ==> !Begins(code, m)
  {
    if Begins(code, i) then i else BlockOf(code, i - 1)
  }

  /** Control can pass from block `a` to block `b`: by a jump in `a`, or by falling through its end. */
  ghost predicate Edge(code: Code, a: nat, b: nat) {
    && Begins(code, a) && Begins(code, b)
    && exists i :: 0 <= i < |code| && BlockOf(code, i) == a && Leads(code, i, b)
  }

  predicate Leads(code: Code, i: nat, b: nat)
    requires i < |code|
  {
    || (IsJump(code[i]) && Find(code, code[i].to) == b)
    || (i + 1 == b && !code[i].Jmp? && !code[i].Ret?)
  }

  ghost predicate IsPath(code: Code, path: seq<nat>) {
    && |path| > 0 && path[0] == 0
    && (forall k :: 0 <= k < |path| ==> Begins(code, path[k]))
    && (forall k :: 0 < k < |path| ==> Edge(code, path[k - 1], path[k]))
  }

  /** Some path of edges leads from the entry block to the block at `b`. */
  ghost predicate Reachable(code: Code, b: nat) {
    exists path: seq<nat> :: IsPath(code, path) && path[|path| - 1] == b
  }

  lemma EntryReachable(code: Code)
    requires |code| > 0
    ensures Reachable(code, 0)
  {
    assert IsPath(code, [0]) && [0][|[0]| - 1] == 0;
  }

  lemma EdgeReachable(code: Code, a: nat, b: nat)
    requires Reachable(code, a) && Edge(code, a, b)
    ensures Reachable(code, b)
  {
    var path: seq<nat> :| IsPath(code, path) && path[|path| - 1] == a;
    var longer := path + [b];
    assert IsPath(code, longer) && longer[|longer| - 1] == b;
  }

  /** A set of blocks that holds the entry and is closed under edges holds every reachable block. */
  lemma {:induction false} ClosedCovers(code: Code, marked: set<nat>, path: seq<nat>)
    requires 0 in marked && IsPath(code, path)
    requires forall a, b :: a in marked && Edge(code, a, b) ==> b in marked
    ensures path[|path| - 1] in marked
    decreases |path|
  {
    if |path| > 1 {
      var shorter := path[..|path| - 1];
      assert IsPath(code, shorter);
      ClosedCovers(code, marked, shorter);
      assert Edge(code, path[|path| - 2], path[|path| - 1]);
    }
  }

  // ----- the reachability loop -----

  /** The blocks, in order. */
  method Blocks(code: Code) returns (starts: seq<nat>)
    ensures forall b: nat :: b in starts <==> Begins(code, b)
    ensures forall m, n :: 0 <= m < n < |starts| ==> starts[m] < starts[n]
    ensures |code| > 0 ==> |starts| > 0 && starts[0] == 0
  {
    starts := [];
    for i := 0 to |code|
      invariant forall b: nat :: b in starts <==> b < i && Begins(code, b)
      invariant forall m :: 0 <= m < |starts| ==> starts[m] < i
      invariant forall m, n :: 0 <= m < n < |starts| ==> starts[m] < starts[n]
      invariant i > 0 ==> |starts| > 0 && starts[0] == 0
    {
      if i == 0 || code[i].Mark? { starts := starts + [i]; }
    }
  }

  /** Where the block that begins at `b` ends: one behind its last instruction. */
  function EndOf(code: Code, b: nat): (e: nat)
    requires b < |code|
    ensures b < e <= |code|
    ensures forall m :: b < m < e ==> !Begins(code, m)
    ensures e < |code| ==> Begins(code, e)
    decreases |code| - b
  {
    if b + 1 == |code| || code[b + 1].Mark? then b + 1 else EndOf(code, b + 1)
  }

  lemma {:induction false} BlockBounds(code: Code, b: nat, i: nat)
    requires Begins(code, b) && i < |code|
    ensures BlockOf(code, i) == b <==> b <= i < EndOf(code, b)
  {
    var e := EndOf(code, b);
    if b <= i < e {
      assert Begins(code, b);
    } else if i >= e {
      assert Begins(code, e);
    }
  }

  /** Marks the blocks that the block at `b` leads to. */
  method MarkSuccessors(code: Code, b: nat, marked: set<nat>) returns (marked': set<nat>)
    requires Begins(code, b) && b in marked
    requires forall a :: a in marked ==> Begins(code, a)
    ensures marked <= marked' && forall a :: a in marked' ==> Begins(code, a)
    ensures forall a :: Edge(code, b, a) ==> a in marked'
    ensures forall a :: a in marked' ==> a in marked || Edge(code, b, a)
  {
    hide BlockOf;
    marked' := marked;
    var end := EndOf(code, b);
    var i := b;
    while i < end
      invariant b <= i <= end
      invariant marked <= marked'
      invariant forall a :: a in marked' ==> a in marked || Edge(code, b, a)
      invariant forall m, a :: b <= m < i && IsJump(code[m]) && Find(code, code[m].to) == a && Begins(code, a) ==>
                                 a in marked'
    {
      BlockBounds(code, b, i);
      if IsJump(code[i]) {
        var t := Find(code, code[i].to);
        if t < |code| {
          assert Begins(code, t) && Leads(code, i, t);
          marked' := marked' + {t};
        }
      }
      i := i + 1;
    }
    if end < |code| && !code[end - 1].Jmp? && !code[end - 1].Ret? {
      BlockBounds(code, b, end - 1);
      assert Begins(code, end) && Leads(code, end - 1, end);
      marked' := marked' + {end};
    }
    forall a | Edge(code, b, a) ensures a in marked' {
      var m :| 0 <= m < |code| && BlockOf(code, m) == b && Leads(code, m, a);
      BlockBounds(code, b, m);
    }
  }

  /** Propagates marks until nothing changes; exactly the reachable blocks end up marked. */
  method ReachableBlocks(code: Code) returns (marked: set<nat>)
    requires |code| > 0
    ensures forall b :: b in marked <==> Reachable(code, b)
  {
    var starts := Blocks(code);
    marked := {0};
    EntryReachable(code);
    ghost var all := set b | b in starts;
    var changed := true;
    while changed
      invariant 0 in marked && marked <= all
      invariant forall b :: b in marked ==> Begins(code, b) && Reachable(code, b)
      invariant !changed ==> forall a, b :: a in marked && Edge(code, a, b) ==> b in marked
      decreases all - marked, changed
    {
      changed := false;
      ghost var before := marked;
      var k := 0;
      while k < |starts|
        invariant k <= |starts| && 0 in marked && before <= marked <= all
        invariant forall b :: b in marked ==> Begins(code, b) && Reachable(code, b)
        invariant changed <==> marked != before
        invariant !changed ==> forall m, b :: 0 <= m < k && starts[m] in marked && Edge(code, starts[m], b) ==>
                                                b in marked
      {
        if starts[k] in marked {
          var more := MarkSuccessors(code, starts[k], marked);
          forall b | b in more ensures Reachable(code, b) {
            if b !in marked { EdgeReachable(code, starts[k], b); }
          }
          if more != marked { changed := true; }
          assert more != before ==> changed;
          marked := more;
        }
        k := k + 1;
      }
      if !changed {
        forall a, b | a in marked && Edge(code, a, b) ensures b in marked {
          assert a in starts;
        }
      }
    }
    forall b | Reachable(code, b) ensures b in marked {
      var path: seq<nat> :| IsPath(code, path) && path[|path| - 1] == b;
      ClosedCovers(code, marked, path);
    }
  }

  // ----- removing the other blocks -----

  ghost function ReachableInsts(code: Code): (keep: seq<bool>)
    ensures |keep| == |code|
  {
    seq(|code|, i requires 0 <= i < |code| => Reachable(code, BlockOf(code, i)))
  }

  ghost function WithoutUnreachable(code: Code): Code {
    Filter(code, ReachableInsts(code))
  }

  method RemoveBlocks(fn: IRFunction) returns (changed: bool)
    modifies fn
    ensures fn.insts == WithoutUnreachable(old(fn.insts))
    ensures !changed ==> fn.insts == old(fn.insts)
  {
    hide *;
    ghost var code := fn.insts;
    ghost var keep := ReachableInsts(code);
    ghost var i: nat := 0;
    WithoutUnreachableIs(code);
    changed := false;
    var list := fn.insts;
    var marked: set<nat> := {};
    if |list| > 0 { marked := ReachableBlocks(list); }
    var pos, at: nat := 0, 0;
    SweepStart(code, code, keep);
    while pos < |fn.insts|
      invariant at == i && list == code && Swept(code, code, keep, i, fn.insts, pos)
      invariant |list| > 0 ==> forall b :: b in marked <==> Reachable(code, b)
      invariant !changed ==> fn.insts == code
      decreases |fn.insts| - pos
    {
      SweepAt(code, code, keep, i, fn.insts, pos);
      ReachableInstsAt(code, i);
      if BlockOf(list, at) in marked {
        SweepPast(code, code, keep, i, fn.insts, pos);
        pos := pos + 1;
      } else {
        SweepDrop(code, code, keep, i, fn.insts, pos);
        fn.Remove(pos);
        changed := true;
      }
      i, at := i + 1, at + 1;
    }
    SweepEnd(code, code, keep, i, fn.insts, pos);
  }

  lemma WithoutUnreachableIs(code: Code)
    ensures WithoutUnreachable(code) == Filter(code, ReachableInsts(code))
  {
  }

  lemma ReachableInstsAt(code: Code, i: nat)
    requires i < |code|
    ensures ReachableInsts(code)[i] <==> Reachable(code, BlockOf(code, i))
  {
  }

  // ----- the whole pass -----

  ghost function OnlyReachable(code: Code): Code {
    WithoutUnreachable(CfgSimplify.WithoutCutOff(code))
  }

  method UnreachableBlockRemoval(fn: IRFunction) returns (changed: bool)
    modifies fn
    ensures fn.insts == OnlyReachable(old(fn.insts)) && OnlyReached(old(fn.insts), fn.insts)
    ensures !changed ==> fn.insts == old(fn.insts)
  {
    ReachableLeft(fn.insts);
    var changed1 := CfgSimplify.RemoveCutOff(fn);
    var changed2 := RemoveBlocks(fn);
    changed := changed1 || changed2;
  }

  ghost function InReachable(code: Code): nat -> bool {
    (i: nat) => i < |code| ==> Reachable(code, BlockOf(code, i))
  }

  /** The instruction behind the one at `i` is in the same block or in one it leads to. */
  lemma NextReachable(code: Code, i: nat)
    requires i < |code| && Reachable(code, BlockOf(code, i)) && !code[i].Jmp? && !code[i].Ret?
    ensures InReachable(code)(i + 1)
  {
    if i + 1 < |code| && Begins(code, i + 1) {
      assert Leads(code, i, i + 1);
      EdgeReachable(code, BlockOf(code, i), i + 1);
    }
  }

  lemma TargetReachable(code: Code, i: nat)
    requires i < |code| && Reachable(code, BlockOf(code, i)) && IsJump(code[i]) && Find(code, code[i].to) < |code|
    ensures Reachable(code, Find(code, code[i].to)) && InReachable(code)(Find(code, code[i].to) + 1)
  {
    var b := Find(code, code[i].to);
    assert Begins(code, b) && Leads(code, i, b);
    EdgeReachable(code, BlockOf(code, i), b);
    NextReachable(code, b);
  }

  /** Dropping unreachable blocks changes no run. */
  lemma UnreachablePreserves(env: Env, code: Code)
    requires Lowered(code)
    ensures Preserves(env, code, WithoutUnreachable(code)) && Lowered(WithoutUnreachable(code))
        && NoNew(code, WithoutUnreachable(code))
    ensures Taken(WithoutUnreachable(code)) <= Taken(code)
  {
    hide Lowered, Reachable, BlockOf, NoNew;
    LoweredMarks(code);
    var keep, ok := ReachableInsts(code), InReachable(code);
    if |code| > 0 { EntryReachable(code); EntryBlock(code); }
    forall i: nat | i < |code| && ok(i) && IsJump(code[i])
      ensures Find(code, code[i].to) < |code| && keep[Find(code, code[i].to)] && ok(Find(code, code[i].to) + 1)
    {
      TargetReachable(code, i);
      OwnBlock(code, Find(code, code[i].to));
    }
    forall i: nat | i < |code| && ok(i) && !code[i].Jmp? && !code[i].Ret? ensures ok(i + 1) {
      NextReachable(code, i);
    }
    UnreachedDeletionPreserves(env, code, keep, ok);
    UnreachableLoses(code);
    FilterKeepsForm(code, keep);
    FilterTaken(code, keep);
  }

  /** From a mark in a reachable block control goes straight on to reachable instructions. */
  lemma {:induction false} StraightReachable(code: Code, m: nat, j: nat)
    requires m <= j < |code| && Reachable(code, BlockOf(code, m)) && forall x :: m <= x < j ==> !Leaves(code[x])
    ensures Reachable(code, BlockOf(code, j))
    decreases j
  {
    if m < j {
      StraightReachable(code, m, j - 1);
      NextReachable(code, j - 1);
    }
  }

  /** What follows in the same block goes as well. */
  lemma {:induction false} SameBlock(code: Code, j: nat, x: nat)
    requires j <= x < |code| && forall m :: j < m <= x ==> !code[m].Mark?
    ensures BlockOf(code, x) == BlockOf(code, j)
    decreases x
  {
    if j < x { SameBlock(code, j, x - 1); }
  }

  lemma UnreachableLoses(code: Code)
    ensures LosesConstants(code, ReachableInsts(code))
  {
    hide Lost, ReachableInsts, UsedIn;
    forall j: nat | j < |code| && code[j].Const? && !ReachableInsts(code)[j]
        ensures Lost(code, ReachableInsts(code), j) {
      UnreachableIsLost(code, j);
    }
  }

  lemma UnreachableIsLost(code: Code, j: nat)
    requires j < |code| && code[j].Const? && !ReachableInsts(code)[j]
    ensures Lost(code, ReachableInsts(code), j)
  {
    hide Reachable, BlockOf;
    var keep := ReachableInsts(code);
    forall x | j < x < |code| && keep[x] ensures exists m :: j < m <= x && code[m].Mark? {
      if forall m :: j < m <= x ==> !code[m].Mark? { SameBlock(code, j, x); }
    }
    forall m | 0 <= m < j < |code| && code[m].Mark? && (forall x :: m < x < j ==> !Leaves(code[x])) ensures !keep[m] {
      if keep[m] { StraightReachable(code, m, j); }
    }
  }

  lemma EntryBlock(code: Code)
    requires |code| > 0
    ensures BlockOf(code, 0) == 0
  {
  }

  lemma OwnBlock(code: Code, b: nat)
    requires b < |code| && code[b].Mark?
    ensures BlockOf(code, b) == b
  {
  }

  lemma OnlyReachablePreserves(env: Env, code: Code)
    requires Lowered(code)
    ensures Preserves(env, code, OnlyReachable(code)) && Lowered(OnlyReachable(code))
        && NoNew(code, OnlyReachable(code))
    ensures Taken(OnlyReachable(code)) <= Taken(code)
  {
    hide Lowered, Preserves, Taken, CfgSimplify.WithoutCutOff, WithoutUnreachable, NoNew;
    var code1 := CfgSimplify.WithoutCutOff(code);
    CfgSimplify.CutOffPreserves(env, code);
    UnreachablePreserves(env, code1);
    PreservesTransitive(env, code, code1, OnlyReachable(code));
    NoNewTransitive(code, code1, OnlyReachable(code));
  }

  // ----- exactly what control can come to is left -----

  /** Control can go from instruction `a` to instruction `b`. */
  predicate GoesTo(code: Code, a: nat, b: nat)
    requires a < |code|
  {
    || (b == a + 1 && !code[a].Jmp? && !code[a].Ret?)
    || ((code[a].Jmp? || code[a].JmpIf?) && b == Find(code, code[a].to))
  }

  ghost predicate Walk(code: Code, walk: seq<nat>) {
    && |walk| > 0 && walk[0] == 0 && (forall k :: 0 <= k < |walk| ==> walk[k] < |code|)
    && forall k: nat :: k < |walk| - 1 ==> GoesTo(code, walk[k], walk[k + 1])
  }

  ghost predicate Reached(code: Code, j: nat) {
    exists walk: seq<nat> :: Walk(code, walk) && walk[|walk| - 1] == j
  }

  ghost function UnreachedIn(code: Code): set<nat> {
    set j: nat | j < |code| && !Reached(code, j)
  }

  /** First what stands behind a jump or return up to the next label is left out, then all that no walk from the
      first instruction comes to. */
  ghost predicate OnlyReached(code: Code, q: Code) {
    exists mid: Code :: LeftOut(code, mid, CfgSimplify.NeverReached(code)) && LeftOut(mid, q, UnreachedIn(mid))
  }

  /** Behind a jump or return there is a label. */
  ghost predicate NoneCut(code: Code) {
    forall i :: 0 <= i < |code| - 1 && (code[i].Jmp? || code[i].Ret?) ==> code[i + 1].Mark?
  }

  lemma WalkOn(code: Code, a: nat, b: nat)
    requires a < |code| && b < |code| && Reached(code, a) && GoesTo(code, a, b)
    ensures Reached(code, b)
  {
    hide GoesTo;
    var walk: seq<nat> :| Walk(code, walk) && walk[|walk| - 1] == a;
    assert Walk(code, walk + [b]);
    assert (walk + [b])[|walk|] == b;
  }

  lemma FirstReached(code: Code)
    requires |code| > 0
    ensures Reached(code, 0)
  {
    assert Walk(code, [0]);
    assert [0][|[0]| - 1] == 0;
  }

  /** A block is walked through from its beginning. */
  lemma {:induction false} BlockWalked(code: Code, i: nat)
    requires NoneCut(code) && i < |code| && Reached(code, BlockOf(code, i))
    ensures Reached(code, i)
    decreases i
  {
    hide Reached;
    if !Begins(code, i) {
      BlockWalked(code, i - 1);
      WalkOn(code, i - 1, i);
    }
  }

  lemma EdgeWalked(code: Code, a: nat, b: nat)
    requires NoneCut(code) && Edge(code, a, b) && Reached(code, a)
    ensures Reached(code, b)
  {
    hide Reached;
    var i :| 0 <= i < |code| && BlockOf(code, i) == a && Leads(code, i, b);
    BlockWalked(code, i);
    WalkOn(code, i, b);
  }

  lemma {:induction false} PathWalked(code: Code, path: seq<nat>)
    requires NoneCut(code) && IsPath(code, path)
    ensures Reached(code, path[|path| - 1])
    decreases |path|
  {
    hide Reached, Edge;
    var n := |path| - 1;
    if n == 0 {
      FirstReached(code);
    } else {
      assert path[..n][|path[..n]| - 1] == path[n - 1];
      PathWalked(code, path[..n]);
      assert Edge(code, path[n - 1], path[n]);
      EdgeWalked(code, path[n - 1], path[n]);
    }
  }

  /** One step of a walk stays in the block or leads to the beginning of another. */
  lemma StepReachable(code: Code, a: nat, b: nat)
    requires a < |code| && b < |code| && GoesTo(code, a, b) && Reachable(code, BlockOf(code, a))
    ensures Reachable(code, BlockOf(code, b))
  {
    hide Reachable;
    if Begins(code, b) {
      assert Leads(code, a, b);
      EdgeReachable(code, BlockOf(code, a), b);
      OwnBlock(code, b);
    }
  }

  lemma {:induction false} WalkReachable(code: Code, walk: seq<nat>)
    requires Walk(code, walk)
    ensures Reachable(code, BlockOf(code, walk[|walk| - 1]))
    decreases |walk|
  {
    hide Reachable, BlockOf, GoesTo;
    var n := |walk| - 1;
    if n == 0 {
      EntryReachable(code);
      EntryBlock(code);
    } else {
      assert walk[..n][|walk[..n]| - 1] == walk[n - 1];
      WalkReachable(code, walk[..n]);
      assert GoesTo(code, walk[n - 1], walk[n - 1 + 1]);
      StepReachable(code, walk[n - 1], walk[n]);
    }
  }

  lemma ReachedExactly(code: Code, j: nat)
    requires NoneCut(code) && j < |code|
    ensures Reached(code, j) <==> Reachable(code, BlockOf(code, j))
  {
    hide BlockOf, GoesTo, Edge;
    if Reached(code, j) {
      var walk: seq<nat> :| Walk(code, walk) && walk[|walk| - 1] == j;
      WalkReachable(code, walk);
    }
    if Reachable(code, BlockOf(code, j)) {
      var path: seq<nat> :| IsPath(code, path) && path[|path| - 1] == BlockOf(code, j);
      PathWalked(code, path);
      BlockWalked(code, j);
    }
  }

  lemma CutOffLeavesNone(code: Code)
    ensures NoneCut(CfgSimplify.WithoutCutOff(code))
  {
    CfgSimplify.CutOffLeave(code);
    var q, gone := CfgSimplify.WithoutCutOff(code), CfgSimplify.NeverReached(code);
    var at: seq<nat> :| Picks(code, q, gone, at);
    forall i | 0 <= i < |q| - 1 && (q[i].Jmp? || q[i].Ret?) ensures q[i + 1].Mark? {
      BetweenGone(code, q, gone, at, i);
    }
  }

  lemma BetweenGone(code: Code, q: Code, gone: set<nat>, at: seq<nat>, i: nat)
    requires Picks(code, q, gone, at) && gone == CfgSimplify.NeverReached(code)
    requires i + 1 < |q| && (q[i].Jmp? || q[i].Ret?)
    ensures q[i + 1].Mark?
  {
    var a, b := at[i], at[i + 1];
    assert !CfgSimplify.Follows(code, b);
    var m: nat :| a < m <= b && code[m].Mark?;
    assert m !in gone;
    var k :| 0 <= k < |at| && at[k] == m;
    assert k == i + 1;
  }

  lemma ReachableLeft(code: Code)
    ensures OnlyReached(code, OnlyReachable(code))
  {
    var mid := CfgSimplify.WithoutCutOff(code);
    CfgSimplify.CutOffLeave(code);
    CutOffLeavesNone(code);
    hide Reached, Reachable, LeftOut, NoneCut, CfgSimplify.WithoutCutOff;
    forall j: nat | j < |mid| ensures ReachableInsts(mid)[j] <==> j !in UnreachedIn(mid) { ReachedExactly(mid, j); }
    hide UnreachedIn, ReachableInsts;
    FilterLeaves(mid, ReachableInsts(mid), UnreachedIn(mid));
    WithoutUnreachableIs(mid);
  }
}
