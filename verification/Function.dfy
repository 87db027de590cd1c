/** The function under compilation: its instruction list, edited in place by the passes. */
module Function {
  import opened IR

  class IRFunction {
    var insts: Code

    constructor (code: Code)
      ensures insts == code
    {
      insts := code;
    }

    /** Replaces the instruction at `i`. */
    method Replace(i: nat, inst: Inst)
      requires i < |insts|
      modifies this
      ensures insts == old(insts)[i := inst]
    {
      insts := insts[i := inst];
    }

    /** Unlinks the instruction at `i`. */
    method Remove(i: nat)
      requires i < |insts|
      modifies this
      ensures insts == old(insts)[..i] + old(insts)[i + 1..]
    {
      insts := insts[..i] + insts[i + 1..];
    }
  }

  /** The stack slots whose address the code takes. */
  ghost function Taken(code: Code): set<int> {
    set i | 0 <= i < |code| && code[i].AddrStack? :: code[i].slot
  }

  /** Escape analysis: one scan for the instructions that take an address. */
  method TakenSlots(code: Code) returns (taken: set<int>)
    ensures taken == Taken(code)
  {
    taken := {};
    for i := 0 to |code|
      invariant taken == set j | 0 <= j < i && code[j].AddrStack? :: code[j].slot
    {
      if code[i].AddrStack? { taken := taken + {code[i].slot}; }
    }
  }

  /** Pointer accesses reach no stack slot outside `taken`. */
  ghost predicate AliasWithin(env: Env, taken: set<int>) {
    forall a :: env.alias(a).Some? ==> env.alias(a).value in taken
  }
}
