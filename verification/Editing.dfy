/** Unlinking instructions one at a time, seen as unmarking them in the original list. */
module Editing {
  import opened IR
  import opened LoweredForm

  function AllKept(n: nat): seq<bool> {
    seq(n, i => true)
  }

  lemma {:induction false} KeptDropped(keep: seq<bool>, j: nat, n: nat)
    requires n <= |keep| && j < |keep| && keep[j]
    ensures var r := Rank(keep, j);
            if n <= j then Kept(keep[j := false], n) == Kept(keep, n)
            else r < |Kept(keep, n)| && Kept(keep[j := false], n) == Kept(keep, n)[..r] + Kept(keep, n)[r + 1..]
  {
    if n > 0 {
      KeptDropped(keep, j, n - 1);
      if n - 1 == j {
        KeptDropped(keep, j, j);
      }
    }
  }

  /** Unmarking a kept instruction is unlinking it at its rank; what stands behind moves up by one. */
  lemma FilterDropped(code: Code, keep: seq<bool>, j: nat)
    requires |keep| == |code| && j < |code| && keep[j]
    ensures var r, q := Rank(keep, j), Filter(code, keep);
            r < |q| && Filter(code, keep[j := false]) == q[..r] + q[r + 1..]
    ensures forall m :: 0 <= m <= |code| ==> Rank(keep[j := false], m) == Rank(keep, m) - (if m <= j then 0 else 1)
  {
    forall m | 0 <= m <= |code|
      ensures Rank(keep[j := false], m) == Rank(keep, m) - (if m <= j then 0 else 1)
    {
      KeptDropped(keep, j, m);
    }
    KeptDropped(keep, j, |code|);
    KeptAt(keep, j);
  }

  lemma {:induction false} KeptAll(n: nat, m: nat)
    requires m <= n
    ensures Kept(AllKept(n), m) == Identity(m)
  {
    if m > 0 { KeptAll(n, m - 1); }
  }

  lemma FilterAll(code: Code)
    ensures Filter(code, AllKept(|code|)) == code
    ensures forall i :: 0 <= i <= |code| ==> Rank(AllKept(|code|), i) == i
  {
    forall i | 0 <= i <= |code| ensures Rank(AllKept(|code|), i) == i {
      KeptAll(|code|, i);
    }
    KeptAll(|code|, |code|);
  }

  /** A cursor inside the shortened list stands at the rank of an original index. */
  lemma CursorInside(code: Code, keep: seq<bool>, i: nat)
    requires |keep| == |code| && i <= |code|
    requires forall j :: i <= j < |code| ==> keep[j]
    ensures i < |code| <==> Rank(keep, i) < |Filter(code, keep)|
    ensures i < |code| ==> Filter(code, keep)[Rank(keep, i)] == code[i] && Rank(keep, i + 1) == Rank(keep, i) + 1
  {
    if i < |code| {
      FilterAt(code, keep, i);
      RankNext(keep, i);
    }
  }

  lemma {:induction false} RankOrder(keep: seq<bool>, i: nat, j: nat)
    requires i < j <= |keep| && keep[i]
    ensures Rank(keep, i) < Rank(keep, j)
  {
    RankNext(keep, i);
    KeptPrefix(keep, i + 1, j);
  }

  /** Deletion happened exactly when the shortened list is shorter. */
  lemma {:induction false} FilterShorter(keep: seq<bool>, n: nat)
    requires n <= |keep|
    ensures Rank(keep, n) == n <==> forall i :: 0 <= i < n ==> keep[i]
    ensures Rank(keep, n) <= n
  {
    if n > 0 { FilterShorter(keep, n - 1); }
  }

  // ----- a sweep: one cursor, replacing and unlinking as it goes -----

  /** Nothing at or behind `i` is unmarked yet. */
  function KeepTo(keep: seq<bool>, i: nat): seq<bool>
    requires i <= |keep|
  {
    keep[..i] + AllKept(|keep| - i)
  }

  /** The sweep has brought the list `p` to `q` without the unmarked instructions, as far as index `i`;
      the cursor stands at `pos` of the shortened list `insts`. */
  ghost predicate Swept(p: Code, q: Code, keep: seq<bool>, i: nat, insts: Code, pos: nat) {
    && |p| == |q| == |keep| && i <= |p|
    && insts == Filter(q[..i] + p[i..], KeepTo(keep, i))
    && pos == Rank(keep, i)
  }

  lemma {:induction false} KeptSame(a: seq<bool>, b: seq<bool>, n: nat)
    requires n <= |a| && n <= |b| && a[..n] == b[..n]
    ensures Kept(a, n) == Kept(b, n)
  {
    if n > 0 {
      assert a[..n - 1] == a[..n][..n - 1] && b[..n - 1] == b[..n][..n - 1];
      assert a[n - 1] == a[..n][n - 1] && b[n - 1] == b[..n][n - 1];
      KeptSame(a, b, n - 1);
    }
  }

  lemma SweepStart(p: Code, q: Code, keep: seq<bool>)
    requires |p| == |q| == |keep|
    ensures Swept(p, q, keep, 0, p, 0)
  {
    assert q[..0] + p[0..] == p;
    assert KeepTo(keep, 0) == AllKept(|p|);
    FilterAll(p);
  }

  lemma {:induction false} RankAhead(keep: seq<bool>, i: nat, n: nat)
    requires i + n <= |keep| && forall j :: i <= j < |keep| ==> keep[j]
    ensures Rank(keep, i + n) == Rank(keep, i) + n
  {
    if n > 0 {
      RankAhead(keep, i, n - 1);
      RankNext(keep, i + n - 1);
    }
  }

  /** Looking `n` instructions ahead of the cursor sees the original list. */
  lemma SweepAhead(p: Code, q: Code, keep: seq<bool>, i: nat, insts: Code, pos: nat, n: nat)
    requires Swept(p, q, keep, i, insts, pos)
    ensures i + n < |p| <==> pos + n < |insts|
    ensures i + n < |p| ==> insts[pos + n] == p[i + n]
    ensures pos <= i
  {
    var cur, k := q[..i] + p[i..], KeepTo(keep, i);
    KeptSame(k, keep, i);
    RankAhead(k, i, |p| - i);
    if i + n < |p| {
      RankAhead(k, i, n);
      FilterAt(cur, k, i + n);
    }
  }

  lemma CursorInList(p: Code, q: Code, keep: seq<bool>, i: nat, insts: Code, pos: nat)
    requires Swept(p, q, keep, i, insts, pos)
    ensures pos <= |insts|
  {
    var k := KeepTo(keep, i);
    KeptSame(k, keep, i);
    KeptPrefix(k, i, |p|);
  }

  lemma SweepAt(p: Code, q: Code, keep: seq<bool>, i: nat, insts: Code, pos: nat)
    requires Swept(p, q, keep, i, insts, pos)
    ensures i < |p| <==> pos < |insts|
    ensures i < |p| ==> insts[pos] == p[i]
    ensures pos <= i
  {
    SweepAhead(p, q, keep, i, insts, pos, 0);
  }

  /** The instruction at the cursor stays, as it is in `q`. */
  lemma SweepKeep(p: Code, q: Code, keep: seq<bool>, i: nat, insts: Code, pos: nat)
    requires Swept(p, q, keep, i, insts, pos) && i < |p| && keep[i]
    ensures pos < |insts| && Swept(p, q, keep, i + 1, insts[pos := q[i]], pos + 1)
  {
    SweepAt(p, q, keep, i, insts, pos);
    var k := KeepTo(keep, i);
    assert KeepTo(keep, i + 1) == k;
    RankNext(keep, i);
    KeptSame(k, keep, i);
    KeptAt(k, i);
    var cur, next := q[..i] + p[i..], q[..i + 1] + p[i + 1..];
    assert next == cur[i := q[i]];
    assert Filter(next, k) == Filter(cur, k)[pos := q[i]];
  }

  /** The instruction at the cursor stays as it is. */
  lemma SweepPast(p: Code, q: Code, keep: seq<bool>, i: nat, insts: Code, pos: nat)
    requires Swept(p, q, keep, i, insts, pos) && i < |p| && keep[i] && q[i] == p[i]
    ensures pos < |insts| && Swept(p, q, keep, i + 1, insts, pos + 1)
  {
    SweepAt(p, q, keep, i, insts, pos);
    SweepKeep(p, q, keep, i, insts, pos);
    assert insts[pos := q[i]] == insts;
  }

  /** The instruction at the cursor is unlinked. */
  lemma SweepDrop(p: Code, q: Code, keep: seq<bool>, i: nat, insts: Code, pos: nat)
    requires Swept(p, q, keep, i, insts, pos) && i < |p| && !keep[i]
    ensures pos < |insts| && Swept(p, q, keep, i + 1, insts[..pos] + insts[pos + 1..], pos)
  {
    SweepAt(p, q, keep, i, insts, pos);
    var k := KeepTo(keep, i);
    KeptSame(k, keep, i);
    assert KeepTo(keep, i + 1) == k[i := false];
    RankNext(keep, i);
    var cur, next := q[..i] + p[i..], q[..i + 1] + p[i + 1..];
    FilterDropped(cur, k, i);
    assert next == cur[i := q[i]];
    assert Filter(next, k[i := false]) == Filter(cur, k[i := false]);
  }

  lemma SweepEnd(p: Code, q: Code, keep: seq<bool>, i: nat, insts: Code, pos: nat)
    requires Swept(p, q, keep, i, insts, pos) && pos >= |insts|
    ensures insts == Filter(q, keep)
  {
    SweepAt(p, q, keep, i, insts, pos);
    assert q[..i] + p[i..] == q;
    assert KeepTo(keep, i) == keep;
  }

  // ----- what is left out -----

  /** `q` is `p` without the instructions `gone`, all others in their order. */
  ghost predicate LeftOut(p: Code, q: Code, gone: set<nat>) {
    exists at: seq<nat> :: Picks(p, q, gone, at)
  }

  /** `at` says where each instruction of `q` stood. */
  ghost predicate Picks(p: Code, q: Code, gone: set<nat>, at: seq<nat>) {
    && |at| == |q|
    && (forall a, b :: 0 <= a < b < |at| ==> at[a] < at[b])
    && (forall a :: 0 <= a < |at| ==> at[a] < |p| && at[a] !in gone && q[a] == p[at[a]])
    && (forall j: nat :: j < |p| && j !in gone ==> j in at)
  }

  lemma FilterLeaves(p: Code, keep: seq<bool>, gone: set<nat>)
    requires |keep| == |p| && forall j: nat :: j < |p| ==> (keep[j] <==> j !in gone)
    ensures LeftOut(p, Filter(p, keep), gone)
  {
    var at := Kept(keep, |p|);
    forall j: nat | j < |p| && j !in gone ensures j in at { KeptIn(keep, j); }
    assert Picks(p, Filter(p, keep), gone, at);
  }
}
