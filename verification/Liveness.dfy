/** Live intervals (`regalloc_run`, passes 1 to 3): first and last occurrences, extension over backward
    jumps, and the intervals that cross calls. */
module Liveness {
  import opened Word64
  import opened IR
  import opened LoweredForm

  // ----- occurrences -----

  function Occurring(inst: Inst): set<nat> {
    Uses(inst) + (if Def(inst).Some? then {Def(inst).value} else {})
  }

  /** Every register is numbered from 1 to `n`. */
  ghost predicate Numbered(code: Code, n: nat) {
    forall i, v :: 0 <= i < |code| && v in Occurring(code[i]) ==> 1 <= v <= n
  }

  /** For each register, the index of its first occurrence, or -1. */
  ghost predicate IsStart(code: Code, v: nat, s: int) {
    && -1 <= s < |code|
    && (s >= 0 ==> v in Occurring(code[s]))
    && (forall i :: 0 <= i < |code| && v in Occurring(code[i]) ==> 0 <= s <= i)
  }

  function OperandRegs(os: seq<Opnd>): (r: seq<nat>)
    ensures forall v :: v in r <==> v in RegsOfAll(os)
  {
    if os == [] then []
    else
      assert RegsOfAll(os) == RegsOf(os[0]) + RegsOfAll(os[1..]) by {
        assert os == [os[0]] + os[1..];
      }
      (if os[0].Reg? then [os[0].v] else []) + OperandRegs(os[1..])
  }

  /** The registers an instruction reads, operand by operand. */
  function Reads(inst: Inst): (r: seq<nat>)
    ensures forall v :: v in r <==> v in Uses(inst)
  {
    match inst
    case Mov(_, s) => OperandRegs([s])
    case Load(_, p, _, _, _) => OperandRegs([p])
    case Store(p, _, s, _) => OperandRegs([p]) + OperandRegs([s])
    case StoreStack(_, s) => OperandRegs([s])
    case Bin(_, _, a, b) => OperandRegs([a]) + OperandRegs([b])
    case JmpIf(_, c, _) => OperandRegs([c])
    case Call(_, callee, args, _) => (if callee.Indirect? then OperandRegs([callee.target]) else []) + OperandRegs(args)
    case Ret(s) => OperandRegs([s])
    case StoreGlobal(_, s, _) => OperandRegs([s])
    case Cast(_, s, _, _) => OperandRegs([s])
    case _ => []
  }

  /** The registers an instruction mentions, its destination first. */
  function Mentions(inst: Inst): (r: seq<nat>)
    ensures forall v :: v in r <==> v in Occurring(inst)
  {
    (if Def(inst).Some? then [Def(inst).value] else []) + Reads(inst)
  }

  function FirstBefore(code: Code, i: nat, v: nat): int
    requires i <= |code|
  {
    if i == 0 then -1
    else if FirstBefore(code, i - 1, v) >= 0 then FirstBefore(code, i - 1, v)
    else if v in Occurring(code[i - 1]) then i - 1 else -1
  }

  function LastBefore(code: Code, i: nat, v: nat): int
    requires i <= |code|
  {
    if i == 0 then -1
    else if v in Occurring(code[i - 1]) then i - 1 else LastBefore(code, i - 1, v)
  }

  lemma {:induction false} BeforeMeans(code: Code, i: nat, v: nat)
    requires i <= |code|
    ensures var s, e := FirstBefore(code, i, v), LastBefore(code, i, v);
            && -1 <= s <= e < i
            && (s >= 0 ==> v in Occurring(code[s]) && v in Occurring(code[e]))
            && (e >= 0 ==> s >= 0)
            && (forall m :: 0 <= m < i && v in Occurring(code[m]) ==> 0 <= s <= m <= e)
  {
    if i > 0 { BeforeMeans(code, i - 1, v); }
  }

  /** Widens the interval of `v` to index `i`. */
  method UpdateRange(start: array<int>, end: array<int>, v: nat, n: nat, i: nat)
    requires start != end && start.Length == end.Length == n + 1
    modifies start, end
    ensures forall u :: 0 <= u <= n && u != v ==> start[u] == old(start[u]) && end[u] == old(end[u])
    ensures 1 <= v <= n ==> start[v] == (if old(start[v]) == -1 then i else old(start[v]))
    ensures 1 <= v <= n ==> end[v] == (if old(end[v]) < i then i else old(end[v]))
    ensures !(1 <= v <= n) ==> start[..] == old(start[..]) && end[..] == old(end[..])
  {
    if 1 <= v <= n {
      if start[v] == -1 { start[v] := i; }
      if end[v] < i { end[v] := i; }
    }
  }

  /** Pass 1: the first and last occurrence of every register. */
  method Occurrences(code: Code, n: nat) returns (start: array<int>, end: array<int>)
    ensures fresh(start) && fresh(end) && start != end && start.Length == end.Length == n + 1
    ensures forall v :: 1 <= v <= n ==> start[v] == FirstBefore(code, |code|, v)
                                        && end[v] == LastBefore(code, |code|, v)
    ensures start[0] == -1 && end[0] == -1
  {
    hide Mentions, Occurring;
    start, end := new int[n + 1](i => -1), new int[n + 1](i => -1);
    for i := 0 to |code|
      invariant forall v :: 1 <= v <= n ==> start[v] == FirstBefore(code, i, v) && end[v] == LastBefore(code, i, v)
      invariant start[0] == -1 && end[0] == -1
    {
      var regs := Mentions(code[i]);
      forall v: nat ensures -1 <= FirstBefore(code, i, v) && LastBefore(code, i, v) < i { BeforeMeans(code, i, v); }
      for k := 0 to |regs|
        invariant forall v :: 1 <= v <= n && v in regs[..k] ==>
                    start[v] == FirstBefore(code, i + 1, v) && end[v] == i
        invariant forall v :: 1 <= v <= n && v !in regs[..k] ==>
                    start[v] == FirstBefore(code, i, v) && end[v] == LastBefore(code, i, v)
        invariant start[0] == -1 && end[0] == -1
      {
        assert regs[..k + 1] == regs[..k] + [regs[k]];
        assert regs[k] in regs;
        UpdateRange(start, end, regs[k], n, i);
      }
      assert regs[..|regs|] == regs;
    }
  }

  // ----- backward jumps -----

  /** A jump at `j` back to the mark at `t`. */
  ghost predicate BackJump(code: Code, j: int, t: int) {
    0 <= t < j < |code| && IsJump(code[j]) && Find(code, code[j].to) == t
  }

  /** Intervals that reach into a loop and begin before its end cover all of it. */
  ghost predicate LoopClosed(code: Code, n: nat, start: seq<int>, end: seq<int>)
    requires |start| == |end| == n + 1
  {
    forall j, t, v :: BackJump(code, j, t) && 1 <= v <= n && 0 <= start[v] <= j && end[v] >= t ==> end[v] >= j
  }

  ghost predicate AtLeast(a: seq<int>, b: seq<int>)
  {
    |a| == |b| && forall v :: 0 <= v < |a| ==> a[v] >= b[v]
  }

  /** `end` is contained in every closed extension of `end0`. */
  ghost predicate Least(code: Code, n: nat, start: seq<int>, end0: seq<int>, end: seq<int>)
    requires |start| == |end0| == |end| == n + 1
  {
    forall e: seq<int> :: |e| == n + 1 && AtLeast(e, end0) && LoopClosed(code, n, start, e) ==> AtLeast(e, end)
  }

  function Slack(end: seq<int>, len: nat): nat
    requires forall v :: 0 <= v < |end| ==> end[v] < len
  {
    if end == [] then 0 else (len - end[|end| - 1]) + Slack(end[..|end| - 1], len)
  }

  lemma {:induction false} SlackUpdate(end: seq<int>, len: nat, v: nat, e: int)
    requires forall u :: 0 <= u < |end| ==> end[u] < len
    requires v < |end| && e < len
    ensures Slack(end[v := e], len) == Slack(end, len) + end[v] - e
  {
    if v == |end| - 1 {
      assert end[v := e][..v] == end[..v];
    } else {
      assert end[v := e][..|end| - 1] == end[..|end| - 1][v := e];
      SlackUpdate(end[..|end| - 1], len, v, e);
    }
  }

  lemma LeastStep(code: Code, n: nat, start: seq<int>, end0: seq<int>, end: seq<int>, j: int, t: int, v: nat)
    requires |start| == |end0| == |end| == n + 1
    requires Least(code, n, start, end0, end)
    requires BackJump(code, j, t) && 1 <= v <= n && 0 <= start[v] <= j && end[v] >= t
    ensures Least(code, n, start, end0, end[v := j])
  {
  }

  /** Extends the intervals over the loop that the jump at `j` closes. */
  method ExtendOver(code: Code, n: nat, start: array<int>, end: array<int>, j: nat, t: nat, ghost end0: seq<int>)
      returns (changed: bool)
    requires start != end && start.Length == end.Length == n + 1 == |end0|
    requires BackJump(code, j, t)
    requires forall v :: 0 <= v <= n ==> end[v] < |code|
    requires Least(code, n, start[..], end0, end[..]) && AtLeast(end[..], end0)
    modifies end
    ensures forall v :: 0 <= v <= n ==> end[v] < |code|
    ensures Least(code, n, start[..], end0, end[..]) && AtLeast(end[..], end0)
    ensures forall v :: 1 <= v <= n && 0 <= start[v] <= j && end[v] >= t ==> end[v] >= j
    ensures forall v :: 0 <= v <= n ==> end[v] >= old(end[v])
    ensures changed ==> Slack(end[..], |code|) < old(Slack(end[..], |code|))
    ensures !changed ==> end[..] == old(end[..])
  {
    hide Least, Find;
    changed := false;
    for v := 1 to n + 1
      invariant forall u :: 0 <= u <= n ==> old(end[u]) <= end[u] < |code|
      invariant Least(code, n, start[..], end0, end[..]) && AtLeast(end[..], end0)
      invariant forall u :: 1 <= u < v && 0 <= start[u] <= j && end[u] >= t ==> end[u] >= j
      invariant changed ==> Slack(end[..], |code|) < old(Slack(end[..], |code|))
      invariant !changed ==> end[..] == old(end[..])
    {
      if 0 <= start[v] <= j && end[v] >= t && end[v] < j {
        LeastStep(code, n, start[..], end0, end[..], j, t, v);
        SlackUpdate(end[..], |code|, v, j);
        ghost var before := end[..];
        end[v] := j;
        assert end[..] == before[v := j];
        changed := true;
      }
    }
  }

  /** One round over all jumps. */
  method ExtendOnce(code: Code, n: nat, start: array<int>, end: array<int>, ghost end0: seq<int>)
      returns (changed: bool)
    requires start != end && start.Length == end.Length == n + 1 == |end0|
    requires forall v :: 0 <= v <= n ==> end0[v] <= end[v] < |code|
    requires Least(code, n, start[..], end0, end[..]) && AtLeast(end[..], end0)
    modifies end
    ensures forall v :: 0 <= v <= n ==> end0[v] <= end[v] < |code|
    ensures Least(code, n, start[..], end0, end[..]) && AtLeast(end[..], end0)
    ensures changed ==> Slack(end[..], |code|) < old(Slack(end[..], |code|))
    ensures !changed ==> end[..] == old(end[..]) && LoopClosed(code, n, start[..], end[..])
  {
    hide Least, Find, Slack;
    changed := false;
    for j := 0 to |code|
      invariant forall v :: 0 <= v <= n ==> end0[v] <= end[v] < |code|
      invariant Least(code, n, start[..], end0, end[..]) && AtLeast(end[..], end0)
      invariant !changed ==> end[..] == old(end[..])
      invariant changed ==> Slack(end[..], |code|) < old(Slack(end[..], |code|))
      invariant !changed ==> forall i, t, v :: 0 <= i < j && BackJump(code, i, t) && 1 <= v <= n ==>
                                                 0 <= start[v] <= i && end[v] >= t ==> end[v] >= i
    {
      if IsJump(code[j]) {
        var t := Find(code, code[j].to);
        if t < j {
          var more := ExtendOver(code, n, start, end, j, t, end0);
          changed := changed || more;
        }
      }
    }
  }

  /** Pass 2: repeats until no interval grows; the result is the least closed extension. */
  method ExtendLoops(code: Code, n: nat, start: array<int>, end: array<int>)
    requires start != end && start.Length == end.Length == n + 1
    requires forall v :: 0 <= v <= n ==> end[v] < |code|
    modifies end
    ensures forall v :: 0 <= v <= n ==> old(end[v]) <= end[v] < |code|
    ensures LoopClosed(code, n, start[..], end[..])
    ensures Least(code, n, start[..], old(end[..]), end[..])
  {
    ghost var end0 := end[..];
    assert Least(code, n, start[..], end0, end[..]);
    hide Least, LoopClosed, Slack;
    var changed := true;
    while changed
      invariant forall v :: 0 <= v <= n ==> end0[v] <= end[v] < |code|
      invariant Least(code, n, start[..], end0, end[..]) && AtLeast(end[..], end0)
      invariant !changed ==> LoopClosed(code, n, start[..], end[..])
      decreases Slack(end[..], |code|), changed
    {
      changed := ExtendOnce(code, n, start, end, end0);
    }
  }

  // ----- calls -----

  function CallsBefore(code: Code, i: nat): nat
    requires i <= |code|
  {
    if i == 0 then 0 else CallsBefore(code, i - 1) + (if code[i - 1].Call? then 1 else 0)
  }

  lemma {:induction false} CallsBetween(code: Code, s: nat, e: nat)
    requires s <= e <= |code|
    ensures CallsBefore(code, s) <= CallsBefore(code, e)
    ensures CallsBefore(code, e) > CallsBefore(code, s) <==> exists i :: s <= i < e && code[i].Call?
    decreases e
  {
    if s < e { CallsBetween(code, s, e - 1); }
  }

  lemma CallsFrom(code: Code, i: nat)
    requires i <= |code|
    ensures CallsBefore(code, 0) == 0
    ensures i < |code| ==> CallsBefore(code, i + 1) == CallsBefore(code, i) + (if code[i].Call? then 1 else 0)
  {
  }

  ghost predicate CrossesCall(code: Code, s: int, e: int) {
    exists i :: 0 <= i < |code| && s <= i <= e && code[i].Call?
  }

  lemma CrossesByCount(code: Code, s: nat, e: nat)
    requires s <= e < |code|
    ensures CrossesCall(code, s, e) <==> CallsBefore(code, e + 1) > CallsBefore(code, s)
  {
    CallsBetween(code, s, e + 1);
  }

  /** Pass 3: by prefix sums, an interval crosses a call exactly when one lies in it, endpoints included. */
  method CallCrossings(code: Code, n: nat, start: array<int>, end: array<int>) returns (crosses: array<bool>)
    requires start.Length == end.Length == n + 1
    requires forall v :: 1 <= v <= n ==> -1 <= start[v] <= end[v] < |code|
    ensures fresh(crosses) && crosses.Length == n + 1
    ensures forall v :: 1 <= v <= n && start[v] >= 0 ==> (crosses[v] <==> CrossesCall(code, start[v], end[v]))
  {
    hide *;
    var prefix := new nat[|code| + 1](i => 0);
    CallsFrom(code, 0);
    for i := 0 to |code|
      invariant forall m :: 0 <= m <= i ==> prefix[m] == CallsBefore(code, m)
    {
      CallsFrom(code, i);
      prefix[i + 1] := prefix[i] + (if code[i].Call? then 1 else 0);
    }
    crosses := new bool[n + 1](i => false);
    for v := 1 to n + 1
      invariant forall m :: 0 <= m <= |code| ==> prefix[m] == CallsBefore(code, m)
      invariant forall u :: 1 <= u < v && start[u] >= 0 ==> (crosses[u] <==> CrossesCall(code, start[u], end[u]))
    {
      if start[v] >= 0 {
        crosses[v] := prefix[end[v] + 1] > prefix[start[v]];
        CrossesByCount(code, start[v], end[v]);
      }
    }
  }

  // ----- liveness -----

  predicate Follows(code: Code, i: nat, j: nat)
    requires i < |code|
  {
    (j == i + 1 && !code[i].Jmp? && !code[i].Ret?) || (IsJump(code[i]) && j == Find(code, code[i].to) + 1)
  }

  /** Along `path` control comes from its first index to a use of `v` without redefining `v`. */
  ghost predicate LiveAlong(code: Code, v: nat, path: seq<nat>) {
    && |path| > 0 && path[0] < |code|
    && if |path| == 1 then v in Uses(code[path[0]])
       else Def(code[path[0]]) != Some(v) && Follows(code, path[0], path[1]) && LiveAlong(code, v, path[1..])
  }

  ghost predicate LiveAt(code: Code, v: nat, i: nat) {
    exists path: seq<nat> :: LiveAlong(code, v, path) && path[0] == i
  }

  /** Only such a register can ever be read without a trap. */
  ghost predicate Defined(code: Code, v: nat) {
    exists j :: 0 <= j < |code| && Def(code[j]) == Some(v)
  }

  /** No register is live before it first occurs. */
  ghost predicate NeverEarly(code: Code) {
    forall v: nat, i: nat :: LiveAt(code, v, i) && Defined(code, v) ==>
                               exists m :: 0 <= m <= i < |code| && v in Occurring(code[m])
  }

  ghost predicate IntervalsCover(code: Code, n: nat, start: seq<int>, end: seq<int>)
    requires |start| == |end| == n + 1
  {
    forall v: nat, i: nat :: LiveAt(code, v, i) && Defined(code, v) ==> 1 <= v <= n && 0 <= start[v] <= i <= end[v]
  }

  lemma UsedIsLive(code: Code, v: nat, i: nat)
    requires i < |code| && v in Uses(code[i])
    ensures LiveAt(code, v, i)
  {
    assert LiveAlong(code, v, [i]);
  }

  lemma LiveBefore(code: Code, v: nat, i: nat, j: nat)
    requires i < |code| && Follows(code, i, j) && LiveAt(code, v, j) && Def(code[i]) != Some(v)
    ensures LiveAt(code, v, i)
  {
    var path: seq<nat> :| LiveAlong(code, v, path) && path[0] == j;
    assert ([i] + path)[1..] == path;
    assert LiveAlong(code, v, [i] + path);
  }

  lemma {:induction false} LiveWithin(code: Code, n: nat, start: seq<int>, end: seq<int>, v: nat, path: seq<nat>)
    requires |start| == |end| == n + 1 && Numbered(code, n) && TargetsExist(code) && NeverEarly(code)
    requires forall u :: 1 <= u <= n ==> IsStart(code, u, start[u])
    requires forall u, i :: 1 <= u <= n && 0 <= i < |code| && u in Occurring(code[i]) ==> i <= end[u]
    requires LoopClosed(code, n, start, end)
    requires LiveAlong(code, v, path) && Defined(code, v)
    ensures 1 <= v <= n && 0 <= start[v] <= path[0] <= end[v]
    decreases |path|
  {
    var i := path[0];
    assert LiveAt(code, v, i);
    var m :| 0 <= m <= i < |code| && v in Occurring(code[m]);
    assert IsStart(code, v, start[v]);
    if |path| == 1 {
      assert v in Occurring(code[i]);
    } else {
      LiveWithin(code, n, start, end, v, path[1..]);
      if IsJump(code[i]) && path[1] == Find(code, code[i].to) + 1 {
        var t := Find(code, code[i].to);
        if t < i { assert BackJump(code, i, t); }
      }
    }
  }

  /** At the fixpoint every index where a register is live lies inside its interval. */
  lemma IntervalsCoverLiveness(code: Code, n: nat, start: seq<int>, end: seq<int>)
    requires |start| == |end| == n + 1 && Numbered(code, n) && TargetsExist(code) && NeverEarly(code)
    requires forall u :: 1 <= u <= n ==> IsStart(code, u, start[u])
    requires forall u, i :: 1 <= u <= n && 0 <= i < |code| && u in Occurring(code[i]) ==> i <= end[u]
    requires LoopClosed(code, n, start, end)
    ensures IntervalsCover(code, n, start, end)
  {
    forall v: nat, i: nat | LiveAt(code, v, i) && Defined(code, v) ensures 1 <= v <= n && 0 <= start[v] <= i <= end[v] {
      var path: seq<nat> :| LiveAlong(code, v, path) && path[0] == i;
      LiveWithin(code, n, start, end, v, path);
    }
  }

  // ----- in lowered form no register is live too early -----

  /** Going straight on from a mark between two arms control comes to the second arm. */
  lemma {:induction false} StraightToArm(code: Code, v: nat, path: seq<nat>, y: nat)
    requires LiveAlong(code, v, path) && path[0] <= y < path[|path| - 1] && y < |code| && Def(code[y]) == Some(v)
    requires forall x :: path[0] <= x < y ==> !Leaves(code[x])
    ensures false
    decreases |path|
  {
    if path[0] < y { StraightToArm(code, v, path[1..], y); }
  }

  /** No path comes to a use from outside the instructions behind the arms that lead there. */
  lemma {:induction false} EntersByArms(code: Code, v: nat, path: seq<nat>, x: nat, y: nat)
    requires TargetsExist(code) && LiveAlong(code, v, path)
    requires x < |code| && y < |code| && Def(code[x]) == Some(v) && Def(code[y]) == Some(v)
    requires var k := path[|path| - 1];
            x <= y < k && Arms(code, x, y) && Shut(code, x, y, k) && (path[0] <= x || k < path[0])
    ensures false
    decreases |path|
  {
    var k, i := path[|path| - 1], path[0];
    var next := path[1];
    if next <= x || k < next {
      EntersByArms(code, v, path[1..], x, y);
    } else {
      var b := Find(code, code[i].to);
      assert IsJump(code[i]) && next == b + 1 && code[b].Mark?;
      assert x < b < y;
      StraightToArm(code, v, path[1..], y);
    }
  }

  lemma FirstDefinition(code: Code, v: nat) returns (f: nat)
    requires Defined(code, v)
    ensures f < |code| && Def(code[f]) == Some(v) && forall j :: 0 <= j < f ==> Def(code[j]) != Some(v)
  {
    f := 0;
    while Def(code[f]) != Some(v)
      invariant f < |code| && forall j :: 0 <= j < f ==> Def(code[j]) != Some(v)
      decreases |code| - f
    {
      f := f + 1;
    }
  }

  lemma {:induction false} PathEnds(code: Code, v: nat, path: seq<nat>)
    requires LiveAlong(code, v, path)
    ensures path[|path| - 1] < |code| && v in Uses(code[path[|path| - 1]])
    decreases |path|
  {
    if |path| > 1 { PathEnds(code, v, path[1..]); }
  }

  /** In code of lowered form no register is live before it first occurs. */
  lemma LoweredNeverEarly(code: Code)
    requires Lowered(code)
    ensures NeverEarly(code)
  {
    forall v: nat, i: nat | LiveAt(code, v, i) && Defined(code, v)
      ensures exists m :: 0 <= m <= i < |code| && v in Occurring(code[m])
    {
      var path: seq<nat> :| LiveAlong(code, v, path) && path[0] == i;
      var f := FirstDefinition(code, v);
      if f > i {
        var k := path[|path| - 1];
        PathEnds(code, v, path);
        assert UseOK(code, v, k);
        var x, y := WayArms(code, f, k);
        assert x == f;
        EntersByArms(code, v, path, x, y);
      }
      assert v in Occurring(code[f]);
    }
  }

  lemma MentionedNumbered(code: Code, n: nat)
    requires forall v: nat :: Mentioned(code, v) ==> 1 <= v <= n
    ensures Numbered(code, n)
  {
    forall i, v: nat | 0 <= i < |code| && v in Occurring(code[i]) ensures 1 <= v <= n {
      assert Mentioned(code, v);
    }
  }

  lemma NumberedKept(p: Code, q: Code, n: nat)
    requires Numbered(p, n) && NoNew(p, q)
    ensures Numbered(q, n)
  {
    forall v: nat | Mentioned(q, v) ensures 1 <= v <= n {
      var i :| 0 <= i < |p| && (v in Uses(p[i]) || Def(p[i]) == Some(v));
      assert v in Occurring(p[i]);
    }
    MentionedNumbered(q, n);
  }
}
