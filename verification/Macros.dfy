/** Expansion of object-like macros by a stack of buffers (`push_macro_buffer`, `is_macro_active`,
    `try_expand_macro`), against recursive rescanning with the enclosing macros disabled. */
module Macros {
  import opened Word64

  type Id = nat

  /** A piece of text: an identifier, or a token of any other kind. */
  datatype Piece = Name(id: Id) | Other(n: nat)

  type Text = seq<Piece>

  /** The object-like macros with their bodies. */
  type Table = map<Id, Text>

  const MAX_INCLUDE_DEPTH: nat := 128

  // ----- recursive rescanning -----

  /** A name is replaced when it is a macro that is not being replaced already. */
  predicate Expands(table: Table, p: Piece, disabled: set<Id>) {
    p.Name? && p.id in table && p.id !in disabled
  }

  /** How many macros may still be replaced. */
  function Enabled(table: Table, disabled: set<Id>): nat {
    |table.Keys - disabled|
  }

  lemma FewerEnabled(table: Table, disabled: set<Id>, id: Id)
    requires id in table && id !in disabled
    ensures Enabled(table, disabled + {id}) < Enabled(table, disabled)
  {
    var before, after := table.Keys - disabled, table.Keys - (disabled + {id});
    assert after == before - {id};
  }

  /** The text with every macro replaced; the body of a macro is rescanned with that macro disabled. */
  function Expand(table: Table, text: Text, disabled: set<Id>): Text
    decreases Enabled(table, disabled), |text|
  {
    if text == [] then []
    else if Expands(table, text[0], disabled) then
      FewerEnabled(table, disabled, text[0].id);
      Expand(table, table[text[0].id], disabled + {text[0].id}) + Expand(table, text[1..], disabled)
    else [text[0]] + Expand(table, text[1..], disabled)
  }

  /** How many steps the scanner takes over the text, buffers pushed and popped included. */
  function Work(table: Table, text: Text, disabled: set<Id>): nat
    decreases Enabled(table, disabled), |text|
  {
    if text == [] then 1
    else if Expands(table, text[0], disabled) then
      FewerEnabled(table, disabled, text[0].id);
      1 + Work(table, table[text[0].id], disabled + {text[0].id}) + Work(table, text[1..], disabled)
    else 1 + Work(table, text[1..], disabled)
  }

  // ----- what expansion means -----

  /** A table in which every body mentions only macros of lower rank. */
  ghost predicate Ranked(table: Table, rank: Id -> nat) {
    forall m, p :: m in table && p in table[m] && p.Name? && p.id in table ==> rank(p.id) < rank(m)
  }

  ghost predicate NamesBelow(table: Table, text: Text, rank: Id -> nat, n: nat) {
    forall p :: p in text && p.Name? && p.id in table ==> rank(p.id) < n
  }

  ghost predicate NoMacros(table: Table, text: Text) {
    forall p :: p in text && p.Name? ==> p.id !in table
  }

  /** Without recursion nothing is left unexpanded: disabling a macro in its own body never matters. */
  lemma {:induction false} RankedExpandsFully(table: Table, text: Text, disabled: set<Id>, rank: Id -> nat, n: nat)
    requires Ranked(table, rank) && NamesBelow(table, text, rank, n)
    requires forall m :: m in disabled && m in table ==> rank(m) >= n
    ensures NoMacros(table, Expand(table, text, disabled))
    decreases Enabled(table, disabled), |text|
  {
    if text != [] {
      assert NamesBelow(table, text[1..], rank, n);
      RankedExpandsFully(table, text[1..], disabled, rank, n);
      if text[0].Name? && text[0].id in table {
        var m := text[0].id;
        assert rank(m) < n by { assert text[0] in text; }
        FewerEnabled(table, disabled, m);
        assert NamesBelow(table, table[m], rank, rank(m));
        RankedExpandsFully(table, table[m], disabled + {m}, rank, rank(m));
      }
    }
  }

  /** Each of the chain occurs in the body of the one before. */
  ghost predicate Linked(table: Table, chain: seq<Id>) {
    && |chain| > 0 && (forall i :: 0 <= i < |chain| ==> chain[i] in table)
    && forall i :: 0 < i < |chain| ==> Name(chain[i]) in table[chain[i - 1]]
  }

  /** Replacing `m`, and then names in its expansion, leads to a body that has all the pieces of `text`. */
  ghost predicate LeadsTo(table: Table, m: Id, text: Text) {
    exists chain: seq<Id> :: Linked(table, chain) && chain[0] == m
                             && forall p :: p in text ==> p in table[chain[|chain| - 1]]
  }

  /** `m` stands in its own expansion. */
  ghost predicate Recursive(table: Table, m: Id) {
    LeadsTo(table, m, [Name(m)])
  }

  lemma LeadsToPart(table: Table, m: Id, text: Text, part: Text)
    requires LeadsTo(table, m, text) && forall p :: p in part ==> p in text
    ensures LeadsTo(table, m, part)
  {
    var chain: seq<Id> :| Linked(table, chain) && chain[0] == m
                          && forall p :: p in text ==> p in table[chain[|chain| - 1]];
    assert forall p :: p in part ==> p in table[chain[|chain| - 1]];
  }

  lemma LeadsOn(table: Table, m: Id, text: Text, next: Id)
    requires LeadsTo(table, m, text) && Name(next) in text && next in table
    ensures LeadsTo(table, m, table[next])
  {
    var chain: seq<Id> :| Linked(table, chain) && chain[0] == m
                          && forall p :: p in text ==> p in table[chain[|chain| - 1]];
    var longer := chain + [next];
    assert Linked(table, longer);
    assert longer[0] == m && longer[|longer| - 1] == next;
  }

  lemma LeadsToBody(table: Table, m: Id)
    requires m in table
    ensures LeadsTo(table, m, table[m])
  {
    assert Linked(table, [m]);
  }

  /** A macro name that is left in the result was disabled from the start, or stands in its own expansion. */
  lemma {:induction false} OnlyRecursiveLeft(table: Table, text: Text, disabled: set<Id>, start: set<Id>, m: Id)
    requires Name(m) in Expand(table, text, disabled) && m in table
    requires forall d :: d in disabled && d !in start && d in table ==> LeadsTo(table, d, text)
    ensures m in start || Recursive(table, m)
    decreases Enabled(table, disabled), |text|
  {
    var first := text[0];
    var rest := text[1..];
    forall d | d in disabled && d !in start && d in table ensures LeadsTo(table, d, rest) {
      LeadsToPart(table, d, text, rest);
    }
    if Name(m) in Expand(table, rest, disabled) {
      OnlyRecursiveLeft(table, rest, disabled, start, m);
    } else if Expands(table, first, disabled) {
      FewerEnabled(table, disabled, first.id);
      forall d | d in disabled + {first.id} && d !in start && d in table ensures LeadsTo(table, d, table[first.id]) {
        if d == first.id { LeadsToBody(table, d); } else { LeadsOn(table, d, text, first.id); }
      }
      OnlyRecursiveLeft(table, table[first.id], disabled + {first.id}, start, m);
    } else {
      assert first == Name(m) && m in disabled;
      if m !in start { LeadsToPart(table, m, text, [Name(m)]); }
    }
  }

  // ----- the stack of buffers -----

  /** What is left of a text, and the macro whose body it is; a file has none. */
  datatype Buffer = Buffer(text: Text, macro: Option<Id>)

  /** The macros being replaced: those of all buffers but the first, exhausted or not. */
  function ActiveIn(buffers: seq<Buffer>): set<Id> {
    set d | 1 <= d < |buffers| && buffers[d].macro.Some? :: buffers[d].macro.value
  }

  /** What the buffers still stand for: the top one first, each with the macros of those below it disabled. */
  function Pending(table: Table, buffers: seq<Buffer>, extra: set<Id>): Text {
    if buffers == [] then []
    else
      var n := |buffers| - 1;
      Expand(table, buffers[n].text, extra + ActiveIn(buffers)) + Pending(table, buffers[..n], extra)
  }

  /** Steps still to be taken; a real measure, since a replaced macro is disabled in its body. */
  function WorkLeft(table: Table, buffers: seq<Buffer>, extra: set<Id>): nat {
    if buffers == [] then 0
    else
      var n := |buffers| - 1;
      Work(table, buffers[n].text, extra + ActiveIn(buffers)) + WorkLeft(table, buffers[..n], extra)
  }

  /** How many of the buffers are files. */
  function Files(buffers: seq<Buffer>): nat {
    if buffers == [] then 0
    else Files(buffers[..|buffers| - 1]) + if buffers[|buffers| - 1].macro.None? then 1 else 0
  }

  /** A file at the bottom; above it bodies of macros, no macro twice, and files in any order. */
  ghost predicate Stacked(table: Table, buffers: seq<Buffer>, extra: set<Id>) {
    && |buffers| > 0 && buffers[0].macro.None?
    && (forall d :: 1 <= d < |buffers| && buffers[d].macro.Some? ==>
                      buffers[d].macro.value in table && buffers[d].macro.value !in extra)
    && (forall c, d :: 1 <= c < d < |buffers| && buffers[c].macro.Some? ==> buffers[c].macro != buffers[d].macro)
  }

  lemma {:induction false} NamesDistinct(table: Table, buffers: seq<Buffer>, extra: set<Id>)
    requires Stacked(table, buffers, extra)
    ensures |ActiveIn(buffers)| == |buffers| - Files(buffers) && ActiveIn(buffers) <= table.Keys
    decreases |buffers|
  {
    var n := |buffers| - 1;
    if n > 0 {
      NamesDistinct(table, buffers[..n], extra);
      if buffers[n].macro.Some? {
        var m := buffers[n].macro.value;
        assert ActiveIn(buffers) == ActiveIn(buffers[..n]) + {m};
      } else {
        assert ActiveIn(buffers) == ActiveIn(buffers[..n]);
      }
    } else {
      assert ActiveIn(buffers) == {} && buffers[..0] == [];
    }
  }

  lemma {:induction false} SubsetSize(a: set<Id>, b: set<Id>)
    requires a <= b
    ensures |a| <= |b|
  {
    if a != {} {
      var x :| x in a;
      SubsetSize(a - {x}, b - {x});
    }
  }

  /** There are never more buffers than macros and files. */
  lemma DepthBound(table: Table, buffers: seq<Buffer>, extra: set<Id>)
    requires Stacked(table, buffers, extra)
    ensures |buffers| <= |table.Keys| + Files(buffers)
  {
    NamesDistinct(table, buffers, extra);
    SubsetSize(ActiveIn(buffers), table.Keys);
  }

  // How the measures change when the scanner takes a piece, pushes a body or pops a buffer.

  /** The stack without the first piece of its top buffer. */
  function Taken(buffers: seq<Buffer>): (after: seq<Buffer>)
    requires |buffers| > 0 && buffers[|buffers| - 1].text != []
    ensures |after| == |buffers| && ActiveIn(after) == ActiveIn(buffers) && Files(after) == Files(buffers)
  {
    var n := |buffers| - 1;
    var after := buffers[n := Buffer(buffers[n].text[1..], buffers[n].macro)];
    assert forall d :: 0 <= d < |buffers| ==> after[d].macro == buffers[d].macro;
    assert after[..n] == buffers[..n];
    after
  }

  lemma TopOf(table: Table, buffers: seq<Buffer>, b: Buffer, extra: set<Id>)
    ensures var disabled := extra + ActiveIn(buffers + [b]);
            && Pending(table, buffers + [b], extra) == Expand(table, b.text, disabled) + Pending(table, buffers, extra)
            && WorkLeft(table, buffers + [b], extra) == Work(table, b.text, disabled) + WorkLeft(table, buffers, extra)
  {
    assert (buffers + [b])[..|buffers|] == buffers;
  }

  lemma FirstPiece(table: Table, text: Text, disabled: set<Id>)
    requires text != []
    ensures !Expands(table, text[0], disabled) ==>
              Expand(table, text, disabled) == [text[0]] + Expand(table, text[1..], disabled)
                && Work(table, text, disabled) == 1 + Work(table, text[1..], disabled)
    ensures Expands(table, text[0], disabled) ==>
              && Expand(table, text, disabled) == Expand(table, table[text[0].id], disabled + {text[0].id})
                  + Expand(table, text[1..], disabled)
              && Work(table, text, disabled) == 1 + Work(table, table[text[0].id], disabled + {text[0].id})
                  + Work(table, text[1..], disabled)
  {
  }

  lemma TakesPiece(table: Table, buffers: seq<Buffer>, extra: set<Id>)
    requires |buffers| > 0 && buffers[|buffers| - 1].text != []
    ensures var p := buffers[|buffers| - 1].text[0];
            var after := Taken(buffers);
            && (!Expands(table, p, extra + ActiveIn(buffers)) ==>
                  && Pending(table, buffers, extra) == [p] + Pending(table, after, extra)
                  && WorkLeft(table, buffers, extra) > WorkLeft(table, after, extra))
            && (Expands(table, p, extra + ActiveIn(buffers)) ==>
                  var pushed := after + [Buffer(table[p.id], Some(p.id))];
                  && Pending(table, pushed, extra) == Pending(table, buffers, extra)
                  && WorkLeft(table, buffers, extra) > WorkLeft(table, pushed, extra))
  {
    hide Expand, Work, Pending, WorkLeft, ActiveIn;
    var n := |buffers| - 1;
    var text := buffers[n].text;
    var after := Taken(buffers);
    var below := buffers[..n];
    assert buffers == below + [buffers[n]] && after == below + [Buffer(text[1..], buffers[n].macro)];
    TopOf(table, below, buffers[n], extra);
    TopOf(table, below, after[n], extra);
    FirstPiece(table, text, extra + ActiveIn(buffers));
    if Expands(table, text[0], extra + ActiveIn(buffers)) {
      var m := text[0].id;
      TopOf(table, after, Buffer(table[m], Some(m)), extra);
      ActivePush(after, Buffer(table[m], Some(m)));
      assert extra + ActiveIn(after) + {m} == extra + (ActiveIn(after) + {m});
    }
  }

  lemma ActivePush(buffers: seq<Buffer>, b: Buffer)
    requires |buffers| > 0 && b.macro.Some?
    ensures ActiveIn(buffers + [b]) == ActiveIn(buffers) + {b.macro.value}
  {
    var all := buffers + [b];
    assert all[|buffers|] == b;
    assert forall d :: 1 <= d < |buffers| ==> all[d] == buffers[d];
    forall m | m in ActiveIn(buffers) ensures m in ActiveIn(all) {
      var d :| 1 <= d < |buffers| && buffers[d].macro.Some? && buffers[d].macro.value == m;
      assert all[d].macro.value == m;
    }
  }

  lemma FileOnTop(buffers: seq<Buffer>, text: Text)
    requires |buffers| > 0
    ensures ActiveIn(buffers + [Buffer(text, None)]) == ActiveIn(buffers)
    ensures Files(buffers + [Buffer(text, None)]) == Files(buffers) + 1
  {
    var all := buffers + [Buffer(text, None)];
    assert all[..|buffers|] == buffers;
    assert forall d :: 1 <= d < |buffers| ==> all[d] == buffers[d];
  }

  lemma Pops(table: Table, buffers: seq<Buffer>, extra: set<Id>)
    requires |buffers| > 0 && buffers[|buffers| - 1].text == []
    ensures var below := buffers[..|buffers| - 1];
            && Pending(table, buffers, extra) == Pending(table, below, extra)
            && WorkLeft(table, buffers, extra) > WorkLeft(table, below, extra)
            && Files(below) <= Files(buffers)
  {
  }

  /** The scanner. `extra` holds macros disabled from outside (`disabled_macros`). */
  class Scanner {
    const table: Table
    const extra: set<Id>
    var buffers: seq<Buffer>
    var fatal: bool

    constructor (table: Table, extra: set<Id>, text: Text)
      ensures this.table == table && this.extra == extra && !fatal && Valid() && Left() == Expand(table, text, extra)
      ensures Files(buffers) == 1
    {
      this.table, this.extra := table, extra;
      buffers := [Buffer(text, None)];
      fatal := false;
      new;
      TopOf(table, [], Buffer(text, None), extra);
      assert [] + [Buffer(text, None)] == buffers && buffers[..0] == [];
      assert extra + ActiveIn(buffers) == extra;
    }

    ghost predicate Valid()
      reads this
    {
      Stacked(table, buffers, extra)
    }

    ghost function Left(): Text
      reads this
    {
      Pending(table, buffers, extra)
    }

    /** is_macro_active: disabled from outside, or the macro of a buffer on the stack. */
    method IsActive(m: Id) returns (active: bool)
      requires Valid()
      ensures active <==> m in extra + ActiveIn(buffers)
    {
      if m in extra { return true; }
      for d := 1 to |buffers|
        invariant forall c :: 1 <= c < d ==> buffers[c].macro != Some(m)
      {
        if buffers[d].macro == Some(m) { return true; }
      }
      return false;
    }

    /** Beyond the limit of 128 buffers the body is not pushed, and the error is fatal. */
    method Push(m: Id, body: Text)
      modifies this
      ensures if |old(buffers)| >= 128 then fatal && buffers == old(buffers)
              else fatal == old(fatal) && buffers == old(buffers) + [Buffer(body, Some(m))]
    {
      if |buffers| >= MAX_INCLUDE_DEPTH {
        fatal := true;
      } else {
        buffers := buffers + [Buffer(body, Some(m))];
      }
    }

    /** The scanner comes to an included file: its text is scanned first, with the same macros disabled. */
    method Include(text: Text)
      requires Valid() && !fatal
      modifies this
      ensures fatal <==> |old(buffers)| >= 128
      ensures !fatal ==>
                && Valid() && Left() == Expand(table, text, extra + ActiveIn(old(buffers))) + old(Left())
                && Files(buffers) == Files(old(buffers)) + 1
    {
      hide Pending, Expand, ActiveIn, Files;
      if |buffers| >= MAX_INCLUDE_DEPTH {
        fatal := true;
      } else {
        TopOf(table, buffers, Buffer(text, None), extra);
        FileOnTop(buffers, text);
        buffers := buffers + [Buffer(text, None)];
      }
    }

    method TryExpand(p: Piece) returns (expanded: bool)
      requires Valid()
      modifies this
      ensures expanded <==> Expands(table, p, extra + ActiveIn(old(buffers)))
      ensures expanded && |old(buffers)| < 128 ==>
                fatal == old(fatal) && buffers == old(buffers) + [Buffer(table[p.id], Some(p.id))]
      ensures expanded && |old(buffers)| >= 128 ==> fatal && buffers == old(buffers)
      ensures !expanded ==> fatal == old(fatal) && buffers == old(buffers)
    {
      expanded := false;
      if p.Name? && p.id in table {
        var active := IsActive(p.id);
        if !active {
          Push(p.id, table[p.id]);
          expanded := true;
        }
      }
    }

    /** The next token: the first of the expansion of what is left, or None at the end or after the fatal error. */
    method Next() returns (t: Option<Piece>)
      requires Valid() && !fatal
      modifies this
      ensures |table.Keys| + Files(old(buffers)) <= MAX_INCLUDE_DEPTH ==> !fatal
      ensures !fatal ==> Valid() && Files(buffers) <= Files(old(buffers))
      ensures !fatal && t.None? ==> old(Left()) == [] && Left() == []
      ensures !fatal && t.Some? ==> old(Left()) == [t.value] + Left()
                                    && WorkLeft(table, buffers, extra) < old(WorkLeft(table, buffers, extra))
    {
      hide Pending, WorkLeft, Expand, Work, ActiveIn, Files;
      t := None;
      while true
        invariant Valid() && !fatal && Left() == old(Left()) && Files(buffers) <= Files(old(buffers))
        invariant WorkLeft(table, buffers, extra) <= old(WorkLeft(table, buffers, extra))
        decreases WorkLeft(table, buffers, extra)
      {
        var n := |buffers| - 1;
        if buffers[n].text == [] {
          Pops(table, buffers, extra);
          if n == 0 {
            NothingLeft(table, buffers, extra);
            return;
          }
          buffers := buffers[..n];
        } else {
          var p := buffers[n].text[0];
          TakesPiece(table, buffers, extra);
          StackedNext(table, buffers, extra);
          buffers := Taken(buffers);
          var expanded := TryExpand(p);
          if fatal { return; }
          if !expanded { return Some(p); }
        }
      }
    }

    /** The whole text is scanned to exactly its recursive expansion, unless the buffers run out. */
    method ScanAll() returns (out: Text)
      requires Valid() && !fatal
      modifies this
      ensures |table.Keys| + Files(old(buffers)) <= MAX_INCLUDE_DEPTH ==> !fatal
      ensures !fatal ==> out == old(Left())
    {
      hide Pending, Expand, Work, WorkLeft, ActiveIn, Files, Stacked;
      out := [];
      while true
        invariant Valid() && !fatal && out + Left() == old(Left()) && Files(buffers) <= Files(old(buffers))
        decreases WorkLeft(table, buffers, extra)
      {
        var t := Next();
        if fatal || t.None? { return; }
        out := out + [t.value];
      }
    }
  }

  lemma NothingLeft(table: Table, buffers: seq<Buffer>, extra: set<Id>)
    requires |buffers| == 1 && buffers[0].text == []
    ensures Pending(table, buffers, extra) == []
  {
    assert buffers[..0] == [];
  }

  /** The stack stays well formed: taking a piece, pushing an inactive macro. It is never deeper than there
      are macros. */
  lemma {:induction false} StackedNext(table: Table, buffers: seq<Buffer>, extra: set<Id>)
    requires Stacked(table, buffers, extra) && buffers[|buffers| - 1].text != []
    ensures var p := buffers[|buffers| - 1].text[0];
            && Stacked(table, Taken(buffers), extra)
            && (Expands(table, p, extra + ActiveIn(buffers)) ==>
                  && Stacked(table, Taken(buffers) + [Buffer(table[p.id], Some(p.id))], extra)
                  && Files(Taken(buffers) + [Buffer(table[p.id], Some(p.id))]) == Files(buffers)
                  && |buffers| < |table.Keys| + Files(buffers))
  {
    var p := buffers[|buffers| - 1].text[0];
    var after := Taken(buffers);
    assert forall d :: 0 <= d < |buffers| ==> after[d].macro == buffers[d].macro;
    assert Stacked(table, after, extra);
    if Expands(table, p, extra + ActiveIn(buffers)) {
      hide Taken, Files;
      StackedPush(table, after, extra, p.id);
      DepthBound(table, after + [Buffer(table[p.id], Some(p.id))], extra);
    }
  }

  lemma {:induction false} StackedPush(table: Table, buffers: seq<Buffer>, extra: set<Id>, m: Id)
    requires Stacked(table, buffers, extra) && m in table && m !in extra + ActiveIn(buffers)
    ensures var all := buffers + [Buffer(table[m], Some(m))];
            Stacked(table, all, extra) && Files(all) == Files(buffers)
  {
    var all := buffers + [Buffer(table[m], Some(m))];
    assert all[..|buffers|] == buffers;
    assert forall d :: 1 <= d < |buffers| && buffers[d].macro.Some? ==> buffers[d].macro.value in ActiveIn(buffers);
    hide ActiveIn, Files;
    assert forall d :: 0 <= d < |buffers| ==> all[d] == buffers[d];
  }

  /** Scanning a text yields its recursive expansion; only a table of 128 macros or more can exhaust the
      buffers. */
  method Scan(table: Table, text: Text) returns (out: Option<Text>)
    ensures out.Some? ==> out.value == Expand(table, text, {})
    ensures |table.Keys| < 128 ==> out.Some?
  {
    var s := new Scanner(table, {}, text);
    var all := s.ScanAll();
    out := if s.fatal then None else Some(all);
  }
}
