/** The expression parser as it runs: `advance` moves through the tokens and `parse_binary_expr` rebuilds its
    left operand in a loop. It fails where the compiler reports an error or builds a call. */
module ClimbingParser {
  import opened Word64
  import opened ConstantTrees
  import opened TwoParsers

  class Parser {
    const tokens: Tokens
    var pos: nat

    constructor (tokens: Tokens)
      ensures this.tokens == tokens && pos == 0
    {
      this.tokens := tokens;
      pos := 0;
    }

    /** What is left to parse. */
    ghost function Rest(): Tokens
      requires pos <= |tokens|
      reads this
    {
      tokens[pos..]
    }

    /** `r` and the new position are what climbing the tokens `ts` gives. */
    ghost predicate Yields(c: Option<Parsed>, r: Option<Tree>)
      reads this
    {
      && pos <= |tokens|
      && (r.Some? <==> c.Some?)
      && (r.Some? ==> r.value == c.value.tree && Rest() == c.value.rest)
    }

    method ParseUnary() returns (r: Option<Tree>)
      requires pos <= |tokens|
      modifies this`pos
      decreases |tokens| - pos, 0
      ensures old(pos) <= pos && Yields(ClimbUnary(old(Rest())), r)
      ensures r.Some? ==> pos > old(pos)
    {
      r := None;
      if pos < |tokens| {
        var t := tokens[pos];
        ghost var ts := Rest();
        assert ts[1..] == tokens[pos + 1..];
        pos := pos + 1;
        if IsPrefix(t) {
          var e := ParseUnary();
          if e.Some? { r := Some(Prefix(t, e.value)); }
        } else if t.Lit? {
          r := Some(Leaf(t.lit));
        } else if t.LParen? {
          r := ParseBinary(0);
          if r.Some? && pos < |tokens| && tokens[pos] == RParen {
            pos := pos + 1;
          } else {
            r := None;
          }
        }
        if !IsPrefix(t) && r.Some? && pos < |tokens| && tokens[pos] == LParen { r := None; }
      }
    }

    method ParseBinary(min: nat) returns (r: Option<Tree>)
      requires pos <= |tokens|
      modifies this`pos
      decreases |tokens| - pos, 1
      ensures old(pos) <= pos && Yields(Climb(old(Rest()), min), r)
      ensures r.Some? ==> pos > old(pos)
    {
      ghost var all := Climb(Rest(), min);
      r := ParseUnary();
      if r.None? { return; }
      var left := r.value;
      while true
        invariant old(pos) < pos <= |tokens| && ClimbOn(left, Rest(), min) == all
        decreases |tokens| - pos
      {
        var prec := if pos < |tokens| then Precedence(tokens[pos]) else -1;
        if prec < min { break; }
        var op := tokens[pos];
        ghost var ts := Rest();
        assert ts[1..] == tokens[pos + 1..];
        pos := pos + 1;
        var right := ParseBinary(prec + 1);
        if right.None? { return None; }
        left := Infix(op, left, right.value);
      }
      r := Some(left);
    }
  }
}
