/** Conditional directives: the stack of levels shared by a file and the files it includes
    (`handle_preprocessor`, end of buffer in `skip_whitespace_and_comments`), against the meaning of
    nested groups. A line of the input is one directive or one piece of ordinary text. */
module Conditionals {
  import opened Word64

  type Cond = nat
  type Id = nat

  const MAX_COND_DEPTH: nat := 128
  const MAX_INCLUDE_DEPTH: nat := 128

  datatype Test = Defined(id: Id) | NotDefined(id: Id) | Value(cond: Cond)

  /** `Text` is a run of ordinary text or any directive that is ignored in a skipped branch. */
  datatype Line =
    | Text(n: nat)
    | If(test: Test)
    | Elif(cond: Cond)
    | Else
    | Endif
    | Include(file: seq<Line>)

  datatype Error = StrayElif | StrayElse | StrayEndif | Unterminated | TooDeep | TooManyFiles

  /** What the preprocessor does that can be seen: text kept, conditions evaluated, errors reported. */
  datatype Event = Kept(n: nat) | Asked(cond: Cond) | Failed(error: Error)

  /** Macro lookups and condition values may depend on everything kept so far. */
  datatype World = World(defined: (Id, seq<Event>) -> bool, value: (Cond, seq<Event>) -> bool)

  function Holds(w: World, test: Test, events: seq<Event>): bool {
    match test
    case Defined(id) => w.defined(id, events)
    case NotDefined(id) => !w.defined(id, events)
    case Value(c) => w.value(c, events)
  }

  /** Only `#if` evaluates an expression. */
  function Asking(test: Test, events: seq<Event>): seq<Event> {
    if test.Value? then events + [Asked(test.cond)] else events
  }

  // ----- nested groups -----

  datatype Items = Nil | Cons(head: Item, tail: Items)

  /** A group that is not closed extends to the end of its file. */
  datatype Item =
    | Plain(n: nat)
    | Stray(line: Line)
    | Inc(file: Items)
    | Group(test: Test, body: Items, others: Branches, closed: bool)

  /** The `#elif` branches, with their conditions, and the `#else` branches, with none. */
  datatype Branches = NoMore | Branch(cond: Option<Cond>, body: Items, more: Branches)

  function Flatten(items: Items): seq<Line> {
    if items.Nil? then [] else FlattenItem(items.head) + Flatten(items.tail)
  }

  function FlattenItem(item: Item): seq<Line> {
    match item
    case Plain(n) => [Text(n)]
    case Stray(line) => [line]
    case Inc(file) => [Include(Flatten(file))]
    case Group(test, body, others, closed) => [If(test)] + (Flatten(body) + FlattenBranches(others, closed))
  }

  function FlattenBranches(branches: Branches, closed: bool): seq<Line> {
    match branches
    case NoMore => if closed then [Endif] else []
    case Branch(cond, body, more) => [BranchLine(cond)] + (Flatten(body) + FlattenBranches(more, closed))
  }

  function BranchLine(cond: Option<Cond>): Line {
    if cond.Some? then Elif(cond.value) else Else
  }

  /** A group is still open at the end. */
  predicate Open(items: Items) {
    items.Cons? && ((items.head.Group? && !items.head.closed) || Open(items.tail))
  }

  predicate BranchLike(line: Line) {
    line.Elif? || line.Else? || line.Endif?
  }

  predicate WellFormed(items: Items, inGroup: bool) {
    items.Cons? ==>
      && (items.head.Group? && !items.head.closed ==> items.tail.Nil?)
      && WellFormed(items.tail, inGroup)
      && match items.head
         case Plain(_) => true
         case Stray(line) => !inGroup && BranchLike(line)
         case Inc(file) => WellFormed(file, false)
         case Group(test, body, others, closed) =>
           && WellFormed(body, true) && WellFormedBranches(others, closed)
           && (Open(body) ==> others.NoMore? && !closed)
  }

  predicate WellFormedBranches(branches: Branches, closed: bool) {
    branches.Branch? ==>
      && WellFormed(branches.body, true) && WellFormedBranches(branches.more, closed)
      && (Open(branches.body) ==> branches.more.NoMore? && !closed)
  }

  // ----- what nested groups mean -----

  /** What a run of items does where text is kept. Of a group only the first branch whose condition
      holds has any effect; the conditions before it are evaluated, those after it are not. */
  function Meaning(w: World, items: Items, events: seq<Event>): seq<Event>
    decreases items, 0
  {
    if items.Nil? then events else Meaning(w, items.tail, ItemMeaning(w, items.head, events))
  }

  function ItemMeaning(w: World, item: Item, events: seq<Event>): seq<Event>
    decreases item, 0
  {
    match item
    case Plain(n) => events + [Kept(n)]
    case Stray(line) => events + [Failed(StrayError(line))]
    case Inc(file) => FileMeaning(w, file, events)
    case Group(test, body, others, _) =>
      if Holds(w, test, events) then Meaning(w, body, Asking(test, events))
      else BranchMeaning(w, others, Asking(test, events))
  }

  function BranchMeaning(w: World, branches: Branches, events: seq<Event>): seq<Event>
    decreases branches, 0
  {
    match branches
    case NoMore => events
    case Branch(None, body, _) => Meaning(w, body, events)
    case Branch(Some(c), body, more) =>
      if w.value(c, events) then Meaning(w, body, events + [Asked(c)])
      else BranchMeaning(w, more, events + [Asked(c)])
  }

  /** A file with an open group is reported at its end; its groups reach no further. */
  function FileMeaning(w: World, file: Items, events: seq<Event>): seq<Event>
    decreases file, 1
  {
    Meaning(w, file, events) + if Open(file) then [Failed(Unterminated)] else []
  }

  function StrayError(line: Line): Error {
    if line.Elif? then StrayElif else if line.Else? then StrayElse else StrayEndif
  }

  // ----- the stack machine -----

  datatype Level = Level(parentActive: bool, taken: bool, active: bool)

  /** A file being read: the lines left, and how many levels were open where it was entered. */
  datatype Buffer = Buffer(lines: seq<Line>, entry: nat)

  datatype State = State(buffers: seq<Buffer>, levels: seq<Level>, events: seq<Event>)

  predicate Skipping(levels: seq<Level>) {
    |levels| > 0 && !levels[|levels| - 1].active
  }

  function Report(s: State, e: Error): State {
    s.(events := s.events + [Failed(e)])
  }

  function OpenLevel(w: World, s: State, test: Test): State {
    var parent := !Skipping(s.levels);
    var holds := parent && Holds(w, test, s.events);
    var asked := s.(events := if parent then Asking(test, s.events) else s.events);
    if |s.levels| < MAX_COND_DEPTH then asked.(levels := s.levels + [Level(parent, holds, holds)])
    else Report(asked, TooDeep)
  }

  /** `#elif` and `#else` of the innermost level. */
  function NextBranch(w: World, s: State, cond: Option<Cond>): State
    requires |s.levels| > 0
  {
    var n := |s.levels| - 1;
    var top := s.levels[n];
    if top.parentActive && !top.taken then
      var holds := cond.None? || w.value(cond.value, s.events);
      State(s.buffers, s.levels[n := Level(true, holds, holds)], if cond.Some? then s.events + [Asked(cond.value)]
                  else s.events)
    else s.(levels := s.levels[n := top.(active := false)])
  }

  function Directive(w: World, s: State, line: Line, entry: nat): State {
    match line
    case Text(n) => if Skipping(s.levels) then s else s.(events := s.events + [Kept(n)])
    case If(test) => OpenLevel(w, s, test)
    case Elif(c) => if |s.levels| > entry then NextBranch(w, s, Some(c)) else Report(s, StrayElif)
    case Else => if |s.levels| > entry then NextBranch(w, s, None) else Report(s, StrayElse)
    case Endif => if |s.levels| > entry then s.(levels := s.levels[..|s.levels| - 1]) else Report(s, StrayEndif)
    case Include(file) =>
      if Skipping(s.levels) then s
      else if |s.buffers| >= MAX_INCLUDE_DEPTH then Report(s, TooManyFiles).(buffers := [])
      else s.(buffers := s.buffers + [Buffer(file, |s.levels|)])
  }

  /** The end of a file: levels it left open are dropped, and its includer goes on. */
  function EndOfFile(s: State): State
    requires |s.buffers| > 0
  {
    var n := |s.buffers| - 1;
    var entry := s.buffers[n].entry;
    if |s.levels| > entry then State(s.buffers[..n], s.levels[..entry], s.events + [Failed(Unterminated)])
    else s.(buffers := s.buffers[..n])
  }

  function Step(w: World, s: State): State
    requires |s.buffers| > 0
  {
    var n := |s.buffers| - 1;
    var b := s.buffers[n];
    if b.lines == [] then EndOfFile(s)
    else Directive(w, s.(buffers := s.buffers[n := Buffer(b.lines[1..], b.entry)]), b.lines[0], b.entry)
  }

  function Size(lines: seq<Line>): nat {
    if lines == [] then 0
    else 1 + (if lines[0].Include? then 1 + Size(lines[0].file) else 0) + Size(lines[1..])
  }

  function Todo(buffers: seq<Buffer>): nat {
    if buffers == [] then 0 else 1 + Size(buffers[|buffers| - 1].lines) + Todo(buffers[..|buffers| - 1])
  }

  lemma TodoPush(buffers: seq<Buffer>, b: Buffer)
    ensures Todo(buffers + [b]) == 1 + Size(b.lines) + Todo(buffers)
  {
    assert (buffers + [b])[..|buffers|] == buffers;
  }

  lemma TodoTop(buffers: seq<Buffer>, b: Buffer)
    requires |buffers| > 0
    ensures var n := |buffers| - 1;
            && Todo(buffers) == 1 + Size(buffers[n].lines) + Todo(buffers[..n])
            && Todo(buffers[n := b]) == 1 + Size(b.lines) + Todo(buffers[..n])
  {
    var n := |buffers| - 1;
    assert buffers[n := b] == buffers[..n] + [b];
    TodoPush(buffers[..n], b);
  }

  lemma DirectiveBuffers(w: World, s: State, line: Line, entry: nat)
    ensures var after := Directive(w, s, line, entry).buffers;
            || after == s.buffers || after == []
            || (line.Include? && after == s.buffers + [Buffer(line.file, |s.levels|)])
  {
  }

  lemma StepsDown(w: World, s: State)
    requires |s.buffers| > 0
    ensures Todo(Step(w, s).buffers) < Todo(s.buffers)
  {
    hide Todo, Size, Directive;
    var n := |s.buffers| - 1;
    var b := s.buffers[n];
    if b.lines == [] {
      TodoTop(s.buffers, b);
    } else {
      var next := Buffer(b.lines[1..], b.entry);
      var taken := s.(buffers := s.buffers[n := next]);
      TodoTop(s.buffers, next);
      DirectiveBuffers(w, taken, b.lines[0], b.entry);
      SizeFirst(b.lines);
      if b.lines[0].Include? { TodoPush(taken.buffers, Buffer(b.lines[0].file, |s.levels|)); }
      NothingToDo();
    }
  }

  lemma SizeFirst(lines: seq<Line>)
    requires lines != []
    ensures Size(lines) == 1 + (if lines[0].Include? then 1 + Size(lines[0].file) else 0) + Size(lines[1..])
  {
  }

  lemma NothingToDo()
    ensures Todo([]) == 0
  {
  }

  /** The run to the end of the outermost file, or to the fatal error. */
  function Finish(w: World, s: State): State
    decreases Todo(s.buffers)
  {
    if |s.buffers| == 0 then s
    else
      StepsDown(w, s);
      Finish(w, Step(w, s))
  }

  /** A nesting limit was hit. */
  predicate Overflow(events: seq<Event>) {
    Failed(TooDeep) in events || Failed(TooManyFiles) in events
  }

  lemma {:induction false} EventsGrow(w: World, s: State)
    requires Overflow(s.events)
    ensures Overflow(Finish(w, s).events)
    decreases Todo(s.buffers)
  {
    if |s.buffers| > 0 {
      StepsDown(w, s);
      EventsGrow(w, Step(w, s));
    }
  }

  // ----- every step keeps the levels coherent -----

  /** Text is kept inside the first `i` levels. */
  predicate Within(levels: seq<Level>, i: nat)
    requires i <= |levels|
  {
    i == 0 || levels[i - 1].active
  }

  /** Each level was opened in the state of the one around it, and at most one of its branches so far was taken. */
  ghost predicate Coherent(levels: seq<Level>) {
    forall i :: 0 <= i < |levels| ==>
      && levels[i].parentActive == Within(levels, i)
      && (levels[i].active ==> levels[i].taken) && (levels[i].taken ==> levels[i].parentActive)
  }

  ghost predicate Consistent(s: State) {
    && Coherent(s.levels)
    && (forall i :: 0 <= i < |s.buffers| ==> s.buffers[i].entry <= |s.levels|)
    && (forall i, j :: 0 <= i <= j < |s.buffers| ==> s.buffers[i].entry <= s.buffers[j].entry)
  }

  lemma DirectiveConsistent(w: World, s: State, line: Line, entry: nat)
    requires Consistent(s) && forall i :: 0 <= i < |s.buffers| ==> s.buffers[i].entry <= entry
    ensures Consistent(Directive(w, s, line, entry))
  {
    match line
    case If(test) => OpenConsistent(w, s, test);
    case Elif(c) => if |s.levels| > entry { BranchConsistent(w, s, Some(c)); }
    case Else => if |s.levels| > entry { BranchConsistent(w, s, None); }
    case _ =>
  }

  lemma OpenConsistent(w: World, s: State, test: Test)
    requires Consistent(s)
    ensures Consistent(OpenLevel(w, s, test))
  {
    var after := OpenLevel(w, s, test).levels;
    if |s.levels| < MAX_COND_DEPTH {
      forall i | 0 <= i < |after|
        ensures after[i].parentActive == Within(after, i)
        ensures (after[i].active ==> after[i].taken) && (after[i].taken ==> after[i].parentActive)
      {
        assert Within(after, i) == Within(s.levels, i);
      }
    }
  }

  lemma BranchConsistent(w: World, s: State, cond: Option<Cond>)
    requires Consistent(s) && |s.levels| > 0
    ensures Consistent(NextBranch(w, s, cond))
  {
    var n, after := |s.levels| - 1, NextBranch(w, s, cond).levels;
    assert after[n].parentActive == s.levels[n].parentActive;
    forall i | 0 <= i < |after|
      ensures after[i].parentActive == Within(after, i)
      ensures (after[i].active ==> after[i].taken) && (after[i].taken ==> after[i].parentActive)
    {
      assert Within(after, i) == Within(s.levels, i);
    }
  }

  lemma EndConsistent(s: State)
    requires Consistent(s) && |s.buffers| > 0
    ensures Consistent(EndOfFile(s))
  {
    var entry := s.buffers[|s.buffers| - 1].entry;
    assert forall i :: 0 <= i < entry ==> Within(s.levels[..entry], i) == Within(s.levels, i);
  }

  lemma TakenConsistent(s: State, b: Buffer)
    requires Consistent(s) && |s.buffers| > 0 && b.entry == s.buffers[|s.buffers| - 1].entry
    ensures var next := s.(buffers := s.buffers[|s.buffers| - 1 := b]);
            Consistent(next) && forall i :: 0 <= i < |next.buffers| ==> next.buffers[i].entry <= b.entry
  {
    hide Coherent;
    var n := |s.buffers| - 1;
    assert forall i :: 0 <= i <= n ==> s.buffers[n := b][i].entry == s.buffers[i].entry;
  }

  /** Every step keeps the levels coherent. */
  lemma StepConsistent(w: World, s: State)
    requires Consistent(s) && |s.buffers| > 0
    ensures Consistent(Step(w, s))
  {
    hide Consistent, Directive, EndOfFile;
    var n := |s.buffers| - 1;
    var b := s.buffers[n];
    if b.lines == [] {
      EndConsistent(s);
    } else {
      var next := Buffer(b.lines[1..], b.entry);
      TakenConsistent(s, next);
      DirectiveConsistent(w, s.(buffers := s.buffers[n := next]), b.lines[0], b.entry);
    }
  }

  lemma {:induction false} ActiveBelow(levels: seq<Level>, k: nat)
    requires Coherent(levels) && k < |levels| && levels[k].active
    ensures forall i :: 0 <= i <= k ==> levels[i].active
  {
    if k > 0 { ActiveBelow(levels, k - 1); }
  }

  /** Text is kept exactly where every open level, the includers' too, has its current branch selected. */
  lemma KeptWhereAllActive(levels: seq<Level>)
    requires Coherent(levels)
    ensures !Skipping(levels) <==> forall i :: 0 <= i < |levels| ==> levels[i].active
  {
    if |levels| > 0 && !Skipping(levels) { ActiveBelow(levels, |levels| - 1); }
  }

  /** A level activates at most one branch: once taken, no later branch of it is active. */
  lemma TakenOnce(w: World, s: State, cond: Option<Cond>)
    requires |s.levels| > 0 && s.levels[|s.levels| - 1].taken
    ensures var top := NextBranch(w, s, cond).levels[|s.levels| - 1]; top.taken && !top.active
    ensures NextBranch(w, s, cond).events == s.events
  {
  }

  /** A step in a file leaves the levels of its includers as they were. */
  lemma IncluderUntouched(w: World, s: State)
    requires Consistent(s) && |s.buffers| > 0
    ensures var entry := s.buffers[|s.buffers| - 1].entry;
            entry <= |Step(w, s).levels| && Step(w, s).levels[..entry] == s.levels[..entry]
  {
    hide Coherent, Directive;
    var n := |s.buffers| - 1;
    var b := s.buffers[n];
    if b.lines != [] {
      DirectiveLevels(w, s.(buffers := s.buffers[n := Buffer(b.lines[1..], b.entry)]), b.lines[0], b.entry);
    }
  }

  lemma DirectiveLevels(w: World, s: State, line: Line, entry: nat)
    requires entry <= |s.levels|
    ensures var after := Directive(w, s, line, entry).levels; entry <= |after| && after[..entry] == s.levels[..entry]
  {
  }

  // ----- the stack machine does what the nested groups mean -----

  /** The top file with these lines left, above the files `below`. */
  function At(below: seq<Buffer>, lines: seq<Line>, entry: nat, levels: seq<Level>, events: seq<Event>): State {
    State(below + [Buffer(lines, entry)], levels, events)
  }

  /** After a run of items: the rest of the file, or past its end when a group was left open. */
  function Ended(open: bool, below: seq<Buffer>, rest: seq<Line>, entry: nat, levels: seq<Level>,
                 events: seq<Event>): State
    requires entry <= |levels|
  {
    if open then State(below, levels[..entry], events + [Failed(Unterminated)])
                else At(below, rest, entry, levels, events)
  }

  /** The nesting stays within the limits, skipped branches included. */
  predicate Room(items: Items, depth: nat, files: nat) {
    items.Cons? ==> RoomItem(items.head, depth, files) && Room(items.tail, depth, files)
  }

  predicate RoomItem(item: Item, depth: nat, files: nat) {
    match item
    case Inc(file) => files < MAX_INCLUDE_DEPTH && Room(file, depth, files + 1)
    case Group(_, body, others, _) => depth < MAX_COND_DEPTH && Room(body, depth + 1, files)
        && RoomBranches(others, depth + 1, files)
    case _ => true
  }

  predicate RoomBranches(branches: Branches, depth: nat, files: nat) {
    branches.Branch? ==> Room(branches.body, depth, files) && RoomBranches(branches.more, depth, files)
  }

  lemma OneStep(w: World, below: seq<Buffer>, line: Line, lines: seq<Line>, entry: nat, levels: seq<Level>,
                events: seq<Event>)
    ensures Finish(w, At(below, [line] + lines, entry, levels, events)) ==
            Finish(w, Directive(w, At(below, lines, entry, levels, events), line, entry))
  {
    var s := At(below, [line] + lines, entry, levels, events);
    assert s.buffers[|below| := Buffer(lines, entry)] == below + [Buffer(lines, entry)];
    assert ([line] + lines)[1..] == lines;
  }

  lemma LastStep(w: World, below: seq<Buffer>, entry: nat, levels: seq<Level>, events: seq<Event>)
    requires entry <= |levels|
    ensures Finish(w, At(below, [], entry, levels, events)) ==
            Finish(w, if |levels| > entry then State(below, levels[..entry], events + [Failed(Unterminated)])
                        else State(below, levels, events))
  {
    assert (below + [Buffer([], entry)])[..|below|] == below;
  }

  /** The items' effect when text is kept, and none when it is not. */
  function Effect(w: World, active: bool, items: Items, events: seq<Event>): seq<Event> {
    if active then Meaning(w, items, events) else events
  }

  lemma {:induction false} ItemsRun(w: World, items: Items, inGroup: bool, rest: seq<Line>, below: seq<Buffer>,
                                    entry: nat, levels: seq<Level>, events: seq<Event>)
    requires WellFormed(items, inGroup) && (Open(items) ==> rest == [])
    requires if inGroup then entry < |levels| else entry == |levels| && !Skipping(levels)
    requires Room(items, |levels|, |below| + 1)
        || !Overflow(Finish(w, At(below, Flatten(items) + rest, entry, levels, events)).events)
    ensures Finish(w, At(below, Flatten(items) + rest, entry, levels, events)) ==
            Finish(w, Ended(Open(items), below, rest, entry, levels, Effect(w, !Skipping(levels), items, events)))
    decreases items, 1
  {
    hide Finish, Directive, Overflow;
    if items.Cons? {
      var head, tail := items.head, items.tail;
      var after := if Skipping(levels) then events else ItemMeaning(w, head, events);
      assert Flatten(items) + rest == FlattenItem(head) + (Flatten(tail) + rest);
      assert head.Group? && !head.closed ==> Flatten(tail) + rest == [];
      ItemRuns(w, head, inGroup, Flatten(tail) + rest, below, entry, levels, events);
      if !(head.Group? && !head.closed) {
        ItemsRun(w, tail, inGroup, rest, below, entry, levels, after);
      } else {
        assert tail.Nil? && Meaning(w, tail, ItemMeaning(w, head, events)) == ItemMeaning(w, head, events);
      }
    } else {
      assert Flatten(items) + rest == rest;
    }
  }

  lemma {:induction false} ItemRuns(w: World, item: Item, inGroup: bool, rest: seq<Line>, below: seq<Buffer>,
                                    entry: nat, levels: seq<Level>, events: seq<Event>)
    requires WellFormed(Cons(item, Nil), inGroup) && (item.Group? && !item.closed ==> rest == [])
    requires if inGroup then entry < |levels| else entry == |levels| && !Skipping(levels)
    requires RoomItem(item, |levels|, |below| + 1)
        || !Overflow(Finish(w, At(below, FlattenItem(item) + rest, entry, levels, events)).events)
    ensures Finish(w, At(below, FlattenItem(item) + rest, entry, levels, events)) ==
            Finish(w, Ended(item.Group? && !item.closed, below, rest, entry, levels, if Skipping(levels) then events
                        else ItemMeaning(w, item, events)))
    decreases item, 2
  {
    hide Finish, Overflow;
    match item
    case Plain(n) => OneStep(w, below, Text(n), rest, entry, levels, events);
    case Stray(line) => OneStep(w, below, line, rest, entry, levels, events);
    case Inc(file) => IncludeRuns(w, file, rest, below, entry, levels, events);
    case Group(test, body, others, closed) => GroupRuns(w, item, rest, below, entry, levels, events);
  }

  lemma {:induction false} IncludeRuns(w: World, file: Items, rest: seq<Line>, below: seq<Buffer>, entry: nat,
                                       levels: seq<Level>, events: seq<Event>)
    requires WellFormed(file, false)
    requires RoomItem(Inc(file), |levels|, |below| + 1)
        || !Overflow(Finish(w, At(below, [Include(Flatten(file))] + rest, entry, levels, events)).events)
    ensures Finish(w, At(below, [Include(Flatten(file))] + rest, entry, levels, events)) ==
            Finish(w, At(below, rest, entry, levels, if Skipping(levels) then events else FileMeaning(w, file, events)))
    decreases file, 3
  {
    hide Finish, Overflow;
    OneStep(w, below, Include(Flatten(file)), rest, entry, levels, events);
    if !Skipping(levels) {
      if |below| + 1 >= MAX_INCLUDE_DEPTH {
        StopsAtLimit(w, State([], levels, events + [Failed(TooManyFiles)]));
      }
      var outer := below + [Buffer(rest, entry)];
      assert Flatten(file) + [] == Flatten(file);
      ItemsRun(w, file, false, [], outer, |levels|, levels, events);
      assert levels[..|levels|] == levels;
      if !Open(file) {
        LastStep(w, outer, |levels|, levels, Meaning(w, file, events));
        assert FileMeaning(w, file, events) == Meaning(w, file, events);
      }
    }
  }

  lemma StopsAtLimit(w: World, s: State)
    requires exists e :: (e == TooDeep || e == TooManyFiles) && Failed(e) in s.events
    ensures Overflow(Finish(w, s).events)
  {
    EventsGrow(w, s);
  }

  lemma {:induction false} GroupRuns(w: World, group: Item, rest: seq<Line>, below: seq<Buffer>, entry: nat,
                                     levels: seq<Level>, events: seq<Event>)
    requires group.Group? && WellFormed(Cons(group, Nil), true) && (!group.closed ==> rest == []) && entry <= |levels|
    requires RoomItem(group, |levels|, |below| + 1)
        || !Overflow(Finish(w, At(below, FlattenItem(group) + rest, entry, levels, events)).events)
    ensures Finish(w, At(below, FlattenItem(group) + rest, entry, levels, events)) ==
            Finish(w, Ended(!group.closed, below, rest, entry, levels, if Skipping(levels) then events
                        else ItemMeaning(w, group, events)))
    decreases group, 1
  {
    hide Finish, Overflow, NextBranch;
    var Group(test, body, others, closed) := group;
    var tail := FlattenBranches(others, closed) + rest;
    assert FlattenItem(group) + rest == [If(test)] + (Flatten(body) + tail);
    OneStep(w, below, If(test), Flatten(body) + tail, entry, levels, events);
    var parent := !Skipping(levels);
    var holds := parent && Holds(w, test, events);
    var asked := if parent then Asking(test, events) else events;
    if |levels| >= MAX_COND_DEPTH {
      StopsAtLimit(w, Report(At(below, Flatten(body) + tail, entry, levels, asked), TooDeep));
    }
    var level := Level(parent, holds, holds);
    ItemsRun(w, body, true, tail, below, entry, levels + [level], asked);
    var then_ := Effect(w, holds, body, asked);
    if Open(body) {
      assert (levels + [level])[..entry] == levels[..entry];
    } else {
      BranchesRun(w, others, closed, level, rest, below, entry, levels, then_);
    }
  }

  lemma {:induction false} BranchesRun(w: World, branches: Branches, closed: bool, level: Level, rest: seq<Line>,
                                       below: seq<Buffer>, entry: nat, levels: seq<Level>, events: seq<Event>)
    requires WellFormedBranches(branches, closed) && (!closed ==> rest == []) && entry <= |levels|
    requires level.taken ==> level.parentActive
    requires || RoomBranches(branches, |levels| + 1, |below| + 1)
             || !Overflow(Finish(w, At(below, FlattenBranches(branches, closed) + rest, entry, levels + [level],
                                       events)).events)
    ensures Finish(w, At(below, FlattenBranches(branches, closed) + rest, entry, levels + [level], events)) ==
            Finish(w, Ended(!closed, below, rest, entry, levels,
                            if level.parentActive && !level.taken then BranchMeaning(w, branches, events) else events))
    decreases branches, 1
  {
    hide Finish, Overflow;
    var open := levels + [level];
    match branches
    case NoMore =>
      if closed {
        OneStep(w, below, Endif, rest, entry, open, events);
        assert open[..|open| - 1] == levels;
      } else {
        assert FlattenBranches(branches, closed) + rest == [];
        LastStep(w, below, entry, open, events);
        assert open[..entry] == levels[..entry];
      }
    case Branch(cond, body, more) =>
      var tail := FlattenBranches(more, closed) + rest;
      assert FlattenBranches(branches, closed) + rest == [BranchLine(cond)] + (Flatten(body) + tail);
      OneStep(w, below, BranchLine(cond), Flatten(body) + tail, entry, open, events);
      var selecting := level.parentActive && !level.taken;
      var holds := selecting && (cond.None? || w.value(cond.value, events));
      var asked := if selecting && cond.Some? then events + [Asked(cond.value)] else events;
      var next := if selecting then Level(true, holds, holds) else level.(active := false);
      assert open[|levels| := next] == levels + [next];
      ItemsRun(w, body, true, tail, below, entry, levels + [next], asked);
      if Open(body) {
        assert (levels + [next])[..entry] == levels[..entry];
      } else {
        BranchesRun(w, more, closed, next, rest, below, entry, levels, Effect(w, holds, body, asked));
      }
  }

  // ----- every sequence of lines has a nesting -----

  lemma OneLine(lines: seq<Line>, from: nat)
    requires from < |lines|
    ensures lines[from..from + 1] == [lines[from]]
  {
  }

  lemma ThreeParts(lines: seq<Line>, from: nat, middle: nat, to: nat)
    requires from < middle <= to <= |lines|
    ensures lines[from..to] == [lines[from]] + (lines[from + 1..middle] + lines[middle..to])
  {
  }

  /** The items from line `from` on: to the end of the file, or within a group to the next `#elif`,
      `#else` or `#endif` of that group. */
  function ParseItems(lines: seq<Line>, from: nat, inGroup: bool): (r: (Items, nat))
    requires from <= |lines|
    ensures from <= r.1 <= |lines| && Flatten(r.0) == lines[from..r.1] && WellFormed(r.0, inGroup)
    ensures r.1 < |lines| ==> inGroup && BranchLike(lines[r.1]) && !Open(r.0)
    decreases lines, |lines| - from, 1
  {
    if from == |lines| then (Nil, from)
    else if inGroup && BranchLike(lines[from]) then (Nil, from)
    else
      var (head, middle) := ParseItem(lines, from, inGroup);
      var (tail, to) := ParseItems(lines, middle, inGroup);
      assert lines[from..to] == lines[from..middle] + lines[middle..to];
      (Cons(head, tail), to)
  }

  function ParseItem(lines: seq<Line>, from: nat, inGroup: bool): (r: (Item, nat))
    requires from < |lines| && !(inGroup && BranchLike(lines[from]))
    ensures from < r.1 <= |lines| && FlattenItem(r.0) == lines[from..r.1] && WellFormed(Cons(r.0, Nil), inGroup)
    ensures r.0.Group? && !r.0.closed ==> r.1 == |lines|
    decreases lines, |lines| - from, 0
  {
    var line := lines[from];
    OneLine(lines, from);
    match line
    case Text(n) => (Plain(n), from + 1)
    case Include(file) =>
      assert lines[from] == line;
      var (items, to) := ParseItems(file, 0, false);
      assert to == |file|;
      assert file[0..to] == file;
      (Inc(items), from + 1)
    case If(test) =>
      var (body, middle) := ParseItems(lines, from + 1, true);
      var (others, closed, to) := ParseBranches(lines, middle);
      ThreeParts(lines, from, middle, to);
      (Group(test, body, others, closed), to)
    case _ => (Stray(line), from + 1)
  }

  function ParseBranches(lines: seq<Line>, from: nat): (r: (Branches, bool, nat))
    requires from <= |lines| && (from < |lines| ==> BranchLike(lines[from]))
    ensures from <= r.2 <= |lines| && FlattenBranches(r.0, r.1) == lines[from..r.2] && WellFormedBranches(r.0, r.1)
    ensures (!r.1 ==> r.2 == |lines|) && (from == |lines| ==> r.0.NoMore? && !r.1)
    decreases lines, |lines| - from, 0
  {
    if from == |lines| then (NoMore, false, from)
    else
      var line := lines[from];
      OneLine(lines, from);
      if line.Endif? then (NoMore, true, from + 1)
      else
        var (body, middle) := ParseItems(lines, from + 1, true);
        var (more, closed, to) := ParseBranches(lines, middle);
        ThreeParts(lines, from, middle, to);
        (Branch(if line.Elif? then Some(line.cond) else None, body, more), closed, to)
  }

  function Parse(lines: seq<Line>): Items {
    ParseItems(lines, 0, false).0
  }

  /** Every sequence of lines, balanced or not, is the text of exactly the nesting that is parsed from it. */
  lemma ParseComplete(lines: seq<Line>)
    ensures Flatten(Parse(lines)) == lines && WellFormed(Parse(lines), false)
  {
    var (items, to) := ParseItems(lines, 0, false);
    assert lines[0..to] == lines;
  }

  // ----- the main theorem -----

  function Start(lines: seq<Line>): State {
    State([Buffer(lines, 0)], [], [])
  }

  lemma {:induction false} MeaningFits(w: World, items: Items, events: seq<Event>)
    requires !Overflow(events)
    ensures !Overflow(Meaning(w, items, events))
  {
    if items.Cons? {
      ItemMeaningFits(w, items.head, events);
      MeaningFits(w, items.tail, ItemMeaning(w, items.head, events));
    }
  }

  lemma {:induction false} ItemMeaningFits(w: World, item: Item, events: seq<Event>)
    requires !Overflow(events)
    ensures !Overflow(ItemMeaning(w, item, events))
  {
    match item
    case Plain(_) =>
    case Stray(_) =>
    case Inc(file) => MeaningFits(w, file, events);
    case Group(test, body, others, _) =>
      if Holds(w, test, events) { MeaningFits(w, body, Asking(test, events)); }
      else { BranchMeaningFits(w, others, Asking(test, events)); }
  }

  lemma {:induction false} BranchMeaningFits(w: World, branches: Branches, events: seq<Event>)
    requires !Overflow(events)
    ensures !Overflow(BranchMeaning(w, branches, events))
  {
    match branches
    case NoMore =>
    case Branch(None, body, _) => MeaningFits(w, body, events);
    case Branch(Some(c), body, more) =>
      if w.value(c, events) { MeaningFits(w, body, events + [Asked(c)]); }
      else { BranchMeaningFits(w, more, events + [Asked(c)]); }
  }

  /** Whatever the directives, the run keeps the same text, evaluates the same conditions and reports
      the same errors, in the same order, as the nested groups mean, with all levels closed again at the
      end, if and only if it never reports that a nesting limit was exceeded. */
  lemma DirectivesMatchNesting(w: World, lines: seq<Line>)
    ensures Finish(w, Start(lines)) == State([], [], FileMeaning(w, Parse(lines), [])) <==>
              !Overflow(Finish(w, Start(lines)).events)
    ensures Room(Parse(lines), 0, 1) ==> !Overflow(Finish(w, Start(lines)).events)
  {
    hide Finish, Meaning;
    ParseComplete(lines);
    var items := Parse(lines);
    assert Flatten(items) + [] == lines;
    assert [] + [Buffer(lines, 0)] == [Buffer(lines, 0)];
    assert Start(lines) == At([], Flatten(items) + [], 0, [], []);
    MeaningFits(w, items, []);
    var meant := FileMeaning(w, items, []);
    assert !Overflow(meant);
    if Room(items, 0, 1) || !Overflow(Finish(w, Start(lines)).events) {
      ItemsRun(w, items, false, [], [], 0, [], []);
      if Open(items) {
        assert Ended(true, [], [], 0, [], Meaning(w, items, [])) == State([], [], meant);
      } else {
        LastStep(w, [], 0, [], Meaning(w, items, []));
        assert meant == Meaning(w, items, []);
      }
      Finished(w, State([], [], meant));
    }
  }

  lemma Finished(w: World, s: State)
    requires s.buffers == []
    ensures Finish(w, s) == s
  {
  }

  // ----- which text is kept -----

  /** The state after `m` steps. */
  function After(w: World, s: State, m: nat): State
    decreases m
  {
    if m == 0 || s.buffers == [] then s else After(w, Step(w, s), m - 1)
  }

  /** After `m` steps the run stands before the lines `ahead` of some file, having done `events`. */
  ghost predicate ComesTo(w: World, lines: seq<Line>, m: nat, ahead: seq<Line>, events: seq<Event>) {
    var s := After(w, Start(lines), m);
    && s.buffers != [] && s.buffers[|s.buffers| - 1].lines == ahead
    && s.events == events && |s.levels| < 128
  }

  /** It stands there in text that is kept. */
  ghost predicate Keeping(w: World, lines: seq<Line>, m: nat) {
    var s := After(w, Start(lines), m);
    s.levels != [] ==> s.levels[|s.levels| - 1].active
  }

  /** A group with one line of text in each branch. */
  function Choice(test: Test, n: nat, o: nat, rest: seq<Line>): seq<Line> {
    [If(test), Text(n), Else, Text(o), Endif] + rest
  }

  function Chain(b: Cond, n: nat, c: Cond, o: nat, q: nat, rest: seq<Line>): seq<Line> {
    [If(Value(b)), Text(n), Elif(c), Text(o), Else, Text(q), Endif] + rest
  }

  /** The run stands, in kept text, before an `#ifdef` of this macro with one line of text in each branch. */
  ghost predicate AtIfdef(w: World, lines: seq<Line>, m: nat, id: Id, n: nat, o: nat, rest: seq<Line>,
                          events: seq<Event>) {
    ComesTo(w, lines, m, Choice(Defined(id), n, o, rest), events) && Keeping(w, lines, m)
  }

  ghost predicate AtIfndef(w: World, lines: seq<Line>, m: nat, id: Id, n: nat, o: nat, rest: seq<Line>,
                           events: seq<Event>) {
    ComesTo(w, lines, m, Choice(NotDefined(id), n, o, rest), events) && Keeping(w, lines, m)
  }

  ghost predicate AtIf(w: World, lines: seq<Line>, m: nat, c: Cond, n: nat, o: nat, rest: seq<Line>,
                       events: seq<Event>) {
    ComesTo(w, lines, m, Choice(Value(c), n, o, rest), events) && Keeping(w, lines, m)
  }

  lemma StepAdds(w: World, s: State)
    requires s.buffers != []
    ensures s.events <= Step(w, s).events
  {
  }

  lemma {:induction false} AfterGrows(w: World, s: State, m: nat)
    ensures s.events <= Finish(w, s).events
    ensures After(w, s, m).events <= Finish(w, s).events && Finish(w, After(w, s, m)) == Finish(w, s)
    decreases Todo(s.buffers)
  {
    hide Step;
    if s.buffers != [] {
      StepsDown(w, s);
      StepAdds(w, s);
      FinishNext(w, s);
      AfterGrows(w, Step(w, s), if m > 0 then m - 1 else 0);
    }
  }

  lemma AfterLine(w: World, below: seq<Buffer>, line: Line, rest: seq<Line>, entry: nat, levels: seq<Level>,
                  events: seq<Event>, k: nat)
    ensures After(w, At(below, [line] + rest, entry, levels, events), k + 1)
        == After(w, Directive(w, At(below, rest, entry, levels, events), line, entry), k)
  {
    var s := At(below, [line] + rest, entry, levels, events);
    assert ([line] + rest)[1..] == rest;
    assert s.buffers[|s.buffers| - 1 := Buffer(rest, entry)] == below + [Buffer(rest, entry)];
    hide Directive;
    assert Step(w, s) == Directive(w, At(below, rest, entry, levels, events), line, entry);
  }

  /** The branch of a group that is read, with its one line of text, when the next directive is `line`. */
  lemma AfterText(w: World, below: seq<Buffer>, n: nat, rest: seq<Line>, entry: nat, levels: seq<Level>,
                  events: seq<Event>, k: nat)
    requires levels != []
    ensures After(w, At(below, [Text(n)] + rest, entry, levels, events), k + 1)
        == After(w, At(below, rest, entry, levels,
                       if levels[|levels| - 1].active then events + [Kept(n)] else events), k)
  {
    hide After;
    AfterLine(w, below, Text(n), rest, entry, levels, events, k);
  }

  lemma AfterElse(w: World, below: seq<Buffer>, rest: seq<Line>, entry: nat, levels: seq<Level>, top: Level,
                  events: seq<Event>, k: nat)
    requires entry <= |levels|
    ensures var chosen := top.parentActive && !top.taken;
            var next := if chosen then Level(true, true, true) else top.(active := false);
            After(w, At(below, [Else] + rest, entry, levels + [top], events), k + 1)
            == After(w, At(below, rest, entry, levels + [next], events), k)
  {
    hide After;
    AfterLine(w, below, Else, rest, entry, levels + [top], events, k);
    assert forall next :: (levels + [top])[|levels| := next] == levels + [next];
  }

  lemma AfterEndif(w: World, below: seq<Buffer>, rest: seq<Line>, entry: nat, levels: seq<Level>, top: Level,
                   events: seq<Event>, k: nat)
    requires entry <= |levels|
    ensures After(w, At(below, [Endif] + rest, entry, levels + [top], events), k + 1)
        == After(w, At(below, rest, entry, levels, events), k)
  {
    hide After;
    AfterLine(w, below, Endif, rest, entry, levels + [top], events, k);
    assert (levels + [top])[..|levels|] == levels;
  }

  /** A test in kept text holds: the macro is defined, or is not, or the condition is true; it is written out here
      for what follows. */
  lemma AfterIf(w: World, below: seq<Buffer>, test: Test, rest: seq<Line>, entry: nat, levels: seq<Level>,
                events: seq<Event>, k: nat)
    requires |levels| < 128
    ensures var active := levels != [] ==> levels[|levels| - 1].active;
            var holds := active && match test
                                   case Defined(id) => w.defined(id, events)
                                   case NotDefined(id) => !w.defined(id, events)
                                   case Value(c) => w.value(c, events);
            After(w, At(below, [If(test)] + rest, entry, levels, events), k + 1)
            == After(w, At(below, rest, entry, levels + [Level(active, holds, holds)],
                           if active && test.Value? then events + [Asked(test.cond)] else events), k)
  {
    hide After;
    AfterLine(w, below, If(test), rest, entry, levels, events, k);
  }

  lemma AfterNone(w: World, s: State)
    ensures After(w, s, 0) == s
  {
  }

  /** A group with one line of text in each branch, in any place. Where text is kept one of the two is: for `#ifdef`
      the first if the macro is defined, for `#ifndef` if it is not, for `#if` if the condition, which is asked
      then, holds. Elsewhere nothing is kept and nothing asked. Behind it the levels are as before. */
  lemma ChoiceRuns(w: World, below: seq<Buffer>, test: Test, n: nat, o: nat, rest: seq<Line>, entry: nat,
                   levels: seq<Level>, events: seq<Event>)
    requires |levels| < 128 && entry <= |levels|
    ensures var active := levels != [] ==> levels[|levels| - 1].active;
            var kept := if !active then []
                        else match test
                             case Defined(id) => [Kept(if w.defined(id, events) then n else o)]
                             case NotDefined(id) => [Kept(if w.defined(id, events) then o else n)]
                             case Value(c) => [Asked(c), Kept(if w.value(c, events) then n else o)];
            After(w, At(below, Choice(test, n, o, rest), entry, levels, events), 5)
            == At(below, rest, entry, levels, events + kept)
  {
    hide After;
    var active := levels != [] ==> levels[|levels| - 1].active;
    var holds := active && match test
                           case Defined(id) => w.defined(id, events)
                           case NotDefined(id) => !w.defined(id, events)
                           case Value(c) => w.value(c, events);
    var l1 := [Text(n)] + ([Else] + ([Text(o)] + ([Endif] + rest)));
    assert Choice(test, n, o, rest) == [If(test)] + l1;
    hide Choice, At;
    var asked := if active && test.Value? then events + [Asked(test.cond)] else events;
    var top := Level(active, holds, holds);
    AfterIf(w, below, test, l1, entry, levels, events, 4);
    AfterText(w, below, n, [Else] + ([Text(o)] + ([Endif] + rest)), entry, levels + [top], asked, 3);
    var first := if holds then asked + [Kept(n)] else asked;
    AfterElse(w, below, [Text(o)] + ([Endif] + rest), entry, levels, top, first, 2);
    var next := if active && !holds then Level(true, true, true) else top.(active := false);
    AfterText(w, below, o, [Endif] + rest, entry, levels + [next], first, 1);
    var second := if next.active then first + [Kept(o)] else first;
    AfterEndif(w, below, rest, entry, levels, next, second, 0);
    AfterNone(w, At(below, rest, entry, levels, second));
  }

  lemma AfterElif(w: World, below: seq<Buffer>, c: Cond, rest: seq<Line>, entry: nat, levels: seq<Level>, top: Level,
                  events: seq<Event>, k: nat)
    requires entry <= |levels|
    ensures var open := top.parentActive && !top.taken;
            var holds := open && w.value(c, events);
            After(w, At(below, [Elif(c)] + rest, entry, levels + [top], events), k + 1)
            == After(w, At(below, rest, entry, levels + [if open then Level(true, holds, holds)
                                                         else top.(active := false)],
                           if open then events + [Asked(c)] else events), k)
  {
    hide After;
    AfterLine(w, below, Elif(c), rest, entry, levels + [top], events, k);
    assert forall next :: (levels + [top])[|levels| := next] == levels + [next];
  }

  /** Three branches: the first is kept whose condition holds, conditions behind it are not asked. */
  lemma ChainRuns(w: World, below: seq<Buffer>, b: Cond, n: nat, c: Cond, o: nat, q: nat, rest: seq<Line>,
                  entry: nat, levels: seq<Level>, events: seq<Event>)
    requires |levels| < 128 && entry <= |levels|
    ensures var active := levels != [] ==> levels[|levels| - 1].active;
            var asked := events + [Asked(b)];
            After(w, At(below, Chain(b, n, c, o, q, rest), entry, levels, events), 7)
            == At(below, rest, entry, levels,
                  if !active then events
                  else if w.value(b, events) then asked + [Kept(n)]
                  else if w.value(c, asked) then asked + [Asked(c)] + [Kept(o)]
                  else asked + [Asked(c)] + [Kept(q)])
  {
    hide After;
    var active := levels != [] ==> levels[|levels| - 1].active;
    var holds := active && w.value(b, events);
    var l5 := [Text(q)] + ([Endif] + rest);
    var l3 := [Text(o)] + ([Else] + l5);
    var l1 := [Text(n)] + ([Elif(c)] + l3);
    assert Chain(b, n, c, o, q, rest) == [If(Value(b))] + l1;
    hide Chain, At;
    var top := Level(active, holds, holds);
    var e1 := if active then events + [Asked(b)] else events;
    var e2 := if holds then e1 + [Kept(n)] else e1;
    AfterIf(w, below, Value(b), l1, entry, levels, events, 6);
    AfterText(w, below, n, [Elif(c)] + l3, entry, levels + [top], e1, 5);
    AfterElif(w, below, c, l3, entry, levels, top, e2, 4);
    var open := active && !holds;
    var second := open && w.value(c, e2);
    var mid := if open then Level(true, second, second) else top.(active := false);
    var e3 := if open then e2 + [Asked(c)] else e2;
    var e4 := if second then e3 + [Kept(o)] else e3;
    AfterText(w, below, o, [Else] + l5, entry, levels + [mid], e3, 3);
    AfterElse(w, below, l5, entry, levels, mid, e4, 2);
    var last := if open && !second then Level(true, true, true) else mid.(active := false);
    var e5 := if last.active then e4 + [Kept(q)] else e4;
    AfterText(w, below, q, [Endif] + rest, entry, levels + [last], e4, 1);
    AfterEndif(w, below, rest, entry, levels, last, e5, 0);
    AfterNone(w, At(below, rest, entry, levels, e5));
  }

  /** The limits: the 129th open level is an error, and the run goes on without it; the 129th file ends the run.
      Below them a file that is included in kept text is read before anything else, at the levels that are open. */
  lemma Limits(w: World, below: seq<Buffer>, file: seq<Line>, test: Test, rest: seq<Line>, entry: nat,
               levels: seq<Level>, events: seq<Event>)
    requires levels != [] ==> levels[|levels| - 1].active
    ensures |below| < 127 ==>
              After(w, At(below, [Include(file)] + rest, entry, levels, events), 1)
              == At(below + [Buffer(rest, entry)], file, |levels|, levels, events)
    ensures |below| >= 127 ==>
              After(w, At(below, [Include(file)] + rest, entry, levels, events), 1)
              == State([], levels, events + [Failed(TooManyFiles)])
    ensures |levels| >= 128 && !test.Value? ==>
              After(w, At(below, [If(test)] + rest, entry, levels, events), 1)
              == At(below, rest, entry, levels, events + [Failed(TooDeep)])
  {
    AfterLine(w, below, Include(file), rest, entry, levels, events, 0);
    AfterLine(w, below, If(test), rest, entry, levels, events, 0);
    AfterNone(w, At(below + [Buffer(rest, entry)], file, |levels|, levels, events));
    AfterNone(w, State([], levels, events + [Failed(TooManyFiles)]));
    AfterNone(w, At(below, rest, entry, levels, events + [Failed(TooDeep)]));
  }

  lemma {:induction false} AfterConsistent(w: World, s: State, m: nat)
    requires Consistent(s)
    ensures Consistent(After(w, s, m))
    decreases m
  {
    hide Step, Consistent;
    if m > 0 && s.buffers != [] {
      StepConsistent(w, s);
      AfterConsistent(w, Step(w, s), m - 1);
    }
  }

  lemma StartConsistent(lines: seq<Line>)
    ensures Consistent(Start(lines))
  {
  }

  /** Where the run comes to such a group, the events go on as the group says. */
  lemma ChoiceMade(w: World, lines: seq<Line>, m: nat, test: Test, n: nat, o: nat, rest: seq<Line>,
                   events: seq<Event>)
    requires ComesTo(w, lines, m, Choice(test, n, o, rest), events) && Keeping(w, lines, m)
    ensures var all := Finish(w, Start(lines)).events;
            match test
            case Defined(id) => events + [Kept(if w.defined(id, events) then n else o)] <= all
            case NotDefined(id) => events + [Kept(if w.defined(id, events) then o else n)] <= all
            case Value(c) => events + [Asked(c), Kept(if w.value(c, events) then n else o)] <= all
  {
    var s := After(w, Start(lines), m);
    StartConsistent(lines);
    AfterConsistent(w, Start(lines), m);
    var k := |s.buffers| - 1;
    assert s == At(s.buffers[..k], Choice(test, n, o, rest), s.buffers[k].entry, s.levels, events);
    AfterGrows(w, s, 5);
    AfterGrows(w, Start(lines), m);
    hide Finish, After, Choice, Consistent;
    ChoiceRuns(w, s.buffers[..k], test, n, o, rest, s.buffers[k].entry, s.levels, events);
  }

  lemma ChoicesMade(w: World, lines: seq<Line>)
    ensures var all := Finish(w, Start(lines)).events;
            && (forall m: nat, id: Id, n: nat, o: nat, rest, done :: AtIfdef(w, lines, m, id, n, o, rest, done) ==>
                  done + [Kept(if w.defined(id, done) then n else o)] <= all)
            && (forall m: nat, id: Id, n: nat, o: nat, rest, done :: AtIfndef(w, lines, m, id, n, o, rest, done) ==>
                  done + [Kept(if w.defined(id, done) then o else n)] <= all)
            && (forall m: nat, c: Cond, n: nat, o: nat, rest, done :: AtIf(w, lines, m, c, n, o, rest, done) ==>
                  done + [Asked(c), Kept(if w.value(c, done) then n else o)] <= all)
  {
    hide ComesTo, Keeping, Finish, Choice;
    var all := Finish(w, Start(lines)).events;
    forall m: nat, id: Id, n: nat, o: nat, rest, done | AtIfdef(w, lines, m, id, n, o, rest, done)
      ensures done + [Kept(if w.defined(id, done) then n else o)] <= all
    {
      ChoiceMade(w, lines, m, Defined(id), n, o, rest, done);
    }
    forall m: nat, id: Id, n: nat, o: nat, rest, done | AtIfndef(w, lines, m, id, n, o, rest, done)
      ensures done + [Kept(if w.defined(id, done) then o else n)] <= all
    {
      ChoiceMade(w, lines, m, NotDefined(id), n, o, rest, done);
    }
    forall m: nat, c: Cond, n: nat, o: nat, rest, done | AtIf(w, lines, m, c, n, o, rest, done)
      ensures done + [Asked(c), Kept(if w.value(c, done) then n else o)] <= all
    {
      ChoiceMade(w, lines, m, Value(c), n, o, rest, done);
    }
  }

  /** A group of any content means its first part where the macro is defined (`#ifdef`) or is not (`#ifndef`), and
      otherwise its `#else` part. */
  lemma MacroGroupMeans(w: World, id: Id, body: Items, other: Items, closed: bool, events: seq<Event>)
    ensures ItemMeaning(w, Group(Defined(id), body, Branch(None, other, NoMore), closed), events)
         == Meaning(w, if w.defined(id, events) then body else other, events)
    ensures ItemMeaning(w, Group(NotDefined(id), body, Branch(None, other, NoMore), closed), events)
         == Meaning(w, if w.defined(id, events) then other else body, events)
  {
  }

  // ----- the preprocessor -----

  class Preprocessor {
    const w: World
    var buffers: seq<Buffer>
    var levels: seq<Level>
    var events: seq<Event>

    constructor (w: World, lines: seq<Line>)
      ensures this.w == w && Now() == Start(lines)
    {
      this.w := w;
      buffers, levels, events := [Buffer(lines, 0)], [], [];
    }

    ghost function Now(): State
      reads this
    {
      State(buffers, levels, events)
    }

    method Push(parent: bool, holds: bool)
      modifies this`levels, this`events
      ensures Now() == if |old(levels)| < MAX_COND_DEPTH
          then old(Now()).(levels := old(levels) + [Level(parent, parent && holds, parent && holds)])
                       else Report(old(Now()), TooDeep)
    {
      if |levels| < MAX_COND_DEPTH {
        levels := levels + [Level(parent, parent && holds, parent && holds)];
      } else {
        events := events + [Failed(TooDeep)];
      }
    }

    method Evaluate(c: Cond) returns (holds: bool)
      modifies this`events
      ensures events == old(events) + [Asked(c)] && holds == w.value(c, old(events))
    {
      holds := w.value(c, events);
      events := events + [Asked(c)];
    }

    method HandleIf(test: Test)
      modifies this`levels, this`events
      ensures Now() == OpenLevel(w, old(Now()), test)
    {
      var parent := true;
      if |levels| > 0 { parent := levels[|levels| - 1].active; }
      match test
      case NotDefined(id) => Push(parent, !w.defined(id, events));
      case Defined(id) => Push(parent, w.defined(id, events));
      case Value(c) =>
        var holds := false;
        if parent { holds := Evaluate(c); }
        Push(parent, holds);
    }

    method HandleElif(c: Cond)
      requires |levels| > 0
      modifies this`levels, this`events
      ensures Now() == NextBranch(w, old(Now()), Some(c))
    {
      var n := |levels| - 1;
      var top := levels[n];
      if top.parentActive && !top.taken {
        var holds := Evaluate(c);
        if holds {
          levels := levels[n := top.(taken := true, active := true)];
        } else {
          levels := levels[n := top.(active := false)];
        }
      } else {
        levels := levels[n := top.(active := false)];
      }
    }

    method HandleElse()
      requires |levels| > 0
      modifies this`levels
      ensures Now() == NextBranch(w, old(Now()), None)
    {
      var n := |levels| - 1;
      var top := levels[n];
      if top.parentActive && !top.taken {
        levels := levels[n := top.(taken := true, active := true)];
      } else {
        levels := levels[n := top.(active := false)];
      }
    }

    /** One directive, or one piece of text, of a file that was entered with `entry` levels open. */
    method Handle(line: Line, entry: nat)
      modifies this
      ensures Now() == Directive(w, old(Now()), line, entry)
    {
      match line
      case Text(n) => if !Skipping(levels) { events := events + [Kept(n)]; }
      case If(test) => HandleIf(test);
      case Elif(c) => if |levels| > entry { HandleElif(c); } else { events := events + [Failed(StrayElif)]; }
      case Else => if |levels| > entry { HandleElse(); } else { events := events + [Failed(StrayElse)]; }
      case Endif =>
        if |levels| > entry { levels := levels[..|levels| - 1]; } else { events := events + [Failed(StrayEndif)]; }
      case Include(file) =>
        if !Skipping(levels) {
          if |buffers| >= MAX_INCLUDE_DEPTH {
            events := events + [Failed(TooManyFiles)];
            buffers := [];
          } else {
            buffers := buffers + [Buffer(file, |levels|)];
          }
        }
    }

    method EndBuffer()
      requires |buffers| > 0
      modifies this
      ensures Now() == EndOfFile(old(Now()))
    {
      var n := |buffers| - 1;
      if |levels| > buffers[n].entry {
        events := events + [Failed(Unterminated)];
        levels := levels[..buffers[n].entry];
      }
      buffers := buffers[..n];
    }

    method Run()
      modifies this
      ensures Now() == Finish(w, old(Now()))
    {
      hide Finish, Directive, EndOfFile, Todo;
      while |buffers| > 0
        invariant Finish(w, Now()) == Finish(w, old(Now()))
        decreases Todo(buffers)
      {
        var n := |buffers| - 1;
        StepsDown(w, Now());
        FinishNext(w, Now());
        if buffers[n].lines == [] {
          EndBuffer();
        } else {
          var line, entry := buffers[n].lines[0], buffers[n].entry;
          buffers := buffers[n := Buffer(buffers[n].lines[1..], entry)];
          Handle(line, entry);
        }
      }
      Finished(w, Now());
    }
  }

  lemma FinishNext(w: World, s: State)
    requires |s.buffers| > 0
    ensures Finish(w, s) == Finish(w, Step(w, s))
  {
    StepsDown(w, s);
  }

  /** Preprocessing a file; what it does is what its nested groups mean, unless a nesting limit is reported. After
      any number of steps in kept text, `#ifdef` keeps its first line if the macro is defined then and the `#else`
      line if not, `#ifndef` the other way round, and `#if` goes by the condition. */
  method Preprocess(w: World, lines: seq<Line>) returns (events: seq<Event>)
    ensures !Overflow(events) ==> events == FileMeaning(w, Parse(lines), [])
    ensures Room(Parse(lines), 0, 1) ==> !Overflow(events)
    ensures forall m: nat, id: Id, n: nat, o: nat, rest, done :: AtIfdef(w, lines, m, id, n, o, rest, done) ==>
                                                     done + [Kept(if w.defined(id, done) then n else o)] <= events
    ensures forall m: nat, id: Id, n: nat, o: nat, rest, done :: AtIfndef(w, lines, m, id, n, o, rest, done) ==>
                                                     done + [Kept(if w.defined(id, done) then o else n)] <= events
    ensures forall m: nat, c: Cond, n: nat, o: nat, rest, done :: AtIf(w, lines, m, c, n, o, rest, done) ==>
                                                    done + [Asked(c), Kept(if w.value(c, done) then n else o)] <= events
  {
    hide AtIfdef, AtIfndef, AtIf, Finish, FileMeaning, Room, Overflow;
    var p := new Preprocessor(w, lines);
    p.Run();
    events := p.events;
    DirectivesMatchNesting(w, lines);
    ChoicesMade(w, lines);
  }
}
