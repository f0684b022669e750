/** Finite sums, and the law behind every GROUP BY: summing group by group is summing. */
module Sums {

  /** f(0) + ... + f(n - 1) */
  function Sum(n: nat, f: int -> int): int {
    if n == 0 then 0 else Sum(n - 1, f) + f(n - 1)
  }

  lemma {:induction false} SumSame(n: nat, f: int -> int, g: int -> int)
    requires forall i | 0 <= i < n :: f(i) == g(i)
    ensures Sum(n, f) == Sum(n, g)
  {
    if n > 0 {
      SumSame(n - 1, f, g);
    }
  }

  lemma {:induction false} SumPlus(n: nat, f: int -> int, g: int -> int, h: int -> int)
    requires forall i | 0 <= i < n :: h(i) == f(i) + g(i)
    ensures Sum(n, h) == Sum(n, f) + Sum(n, g)
  {
    if n > 0 {
      SumPlus(n - 1, f, g, h);
    }
  }

  lemma {:induction false} SumZero(n: nat, f: int -> int)
    requires forall i | 0 <= i < n :: f(i) == 0
    ensures Sum(n, f) == 0
  {
    if n > 0 {
      SumZero(n - 1, f);
    }
  }

  lemma {:induction false} SumPoint(n: nat, k: nat, f: int -> int)
    requires k < n && forall i | 0 <= i < n && i != k :: f(i) == 0
    ensures Sum(n, f) == f(k)
  {
    if k == n - 1 {
      SumZero(n - 1, f);
    } else {
      SumPoint(n - 1, k, f);
    }
  }

  /** The part of the sum with `key(j) == i`. */
  function Part(m: nat, key: int -> int, f: int -> int, i: int): int {
    Sum(m, (j: int) => if key(j) == i then f(j) else 0)
  }

  lemma PartOneMore(m: nat, key: int -> int, f: int -> int, i: int)
    ensures Part(m + 1, key, f, i) == Part(m, key, f, i) + (if key(m) == i then f(m) else 0)
  {
  }

  lemma PartIsSum(m: nat, key: int -> int, f: int -> int, i: int, g: int -> int)
    requires forall j | 0 <= j < m :: g(j) == (if key(j) == i then f(j) else 0)
    ensures Part(m, key, f, i) == Sum(m, g)
  {
    SumSame(m, g, (j: int) => if key(j) == i then f(j) else 0);
  }

  lemma PartZero(m: nat, key: int -> int, f: int -> int, i: int)
    requires forall j | 0 <= j < m && key(j) == i :: f(j) == 0
    ensures Part(m, key, f, i) == 0
  {
    SumZero(m, (j: int) => if key(j) == i then f(j) else 0);
  }

  /** Summing the parts is summing the whole, when every nonzero term belongs to a part. */
  lemma {:induction false} Parts(n: nat, m: nat, key: int -> int, f: int -> int)
    requires forall j | 0 <= j < m :: 0 <= key(j) < n || f(j) == 0
    ensures Sum(n, i => Part(m, key, f, i)) == Sum(m, f)
  {
    if m == 0 {
      SumZero(n, i => Part(m, key, f, i));
    } else {
      Parts(n, m - 1, key, f);
      var point := (i: int) => if key(m - 1) == i then f(m - 1) else 0;
      forall i | 0 <= i < n ensures Part(m, key, f, i) == Part(m - 1, key, f, i) + point(i) {
        PartOneMore(m - 1, key, f, i);
      }
      SumPlus(n, i => Part(m - 1, key, f, i), point, i => Part(m, key, f, i));
      if 0 <= key(m - 1) < n {
        SumPoint(n, key(m - 1), point);
      } else {
        SumZero(n, point);
      }
    }
  }

  lemma GroupsAdd(n: nat, m: nat, key: int -> int, f: int -> int, total: int -> int)
    requires forall j | 0 <= j < m :: 0 <= key(j) < n || f(j) == 0
    requires forall i | 0 <= i < n :: total(i) == Part(m, key, f, i)
    ensures Sum(n, total) == Sum(m, f)
  {
    Parts(n, m, key, f);
    SumSame(n, total, i => Part(m, key, f, i));
  }

  /** A part of parts is a part by the composed key. */
  lemma PartOfParts(n: nat, m: nat, inner: int -> int, outer: int -> int, both: int -> int, f: int -> int, t: int -> int, x: int)
    requires forall j | 0 <= j < m :: 0 <= inner(j) < n && both(j) == outer(inner(j))
    requires forall a | 0 <= a < n :: t(a) == Part(m, inner, f, a)
    ensures Part(n, outer, t, x) == Part(m, both, f, x)
  {
    var chosen := (j: int) => if both(j) == x then f(j) else 0;
    var total := (a: int) => if outer(a) == x then t(a) else 0;
    forall a | 0 <= a < n ensures total(a) == Part(m, inner, chosen, a) {
      if outer(a) == x {
        SumSame(m, (j: int) => if inner(j) == a then f(j) else 0, (j: int) => if inner(j) == a then chosen(j) else 0);
      } else {
        PartZero(m, inner, chosen, a);
      }
    }
    GroupsAdd(n, m, inner, chosen, total);
    PartIsSum(n, outer, t, x, total);
    PartIsSum(m, both, f, x, chosen);
  }

  lemma PartRekey(m: nat, key: int -> int, key': int -> int, f: int -> int, i: int, i': int)
    requires forall j | 0 <= j < m :: key(j) == i <==> key'(j) == i'
    ensures Part(m, key, f, i) == Part(m, key', f, i')
  {
    SumSame(m, (j: int) => if key(j) == i then f(j) else 0, (j: int) => if key'(j) == i' then f(j) else 0);
  }

  /** The rows of a grouped query: one for each `i` below `n` that has any data. */
  function Rows<R>(n: nat, has: int -> bool, row: int -> R): seq<R> {
    if n == 0 then [] else Rows(n - 1, has, row) + (if has(n - 1) then [row(n - 1)] else [])
  }

  function SumRows<R>(rows: seq<R>, value: R -> int): int {
    if rows == [] then 0 else SumRows(rows[..|rows| - 1], value) + value(rows[|rows| - 1])
  }

  /** Leaving out groups without data does not change the sum. */
  lemma {:induction false} RowsSum<R>(n: nat, has: int -> bool, row: int -> R, value: R -> int, total: int -> int)
    requires forall i | 0 <= i < n :: total(i) == (if has(i) then value(row(i)) else 0)
    ensures SumRows(Rows(n, has, row), value) == Sum(n, total)
  {
    if n > 0 {
      RowsSum(n - 1, has, row, value, total);
      var before := Rows(n - 1, has, row);
      if has(n - 1) {
        assert (before + [row(n - 1)])[..|before|] == before;
      } else {
        assert before + [] == before;
      }
    }
  }

  /** The lines are those of the numbers below `n` that `has` a line, in order, each as `line` says. */
  ghost predicate Listing<R(!new)>(lines: seq<R>, n: nat, has: int -> bool, line: int -> R) {
    exists at: seq<int> :: ListedAt(lines, n, has, line, at)
  }

  ghost predicate ListedAt<R(!new)>(lines: seq<R>, n: nat, has: int -> bool, line: int -> R, at: seq<int>) {
    && |at| == |lines|
    && (forall k, l | 0 <= k < l < |at| :: at[k] < at[l])
    && (forall k | 0 <= k < |at| :: 0 <= at[k] < n && has(at[k]) && lines[k] == line(at[k]))
    && (forall i | 0 <= i < n && has(i) :: i in at)
  }

  lemma ListedOneMore<R(!new)>(lines: seq<R>, n: nat, has: int -> bool, line: int -> R, at: seq<int>)
    requires ListedAt(lines, n, has, line, at)
    ensures has(n) ==> ListedAt(lines + [line(n)], n + 1, has, line, at + [n])
    ensures !has(n) ==> ListedAt(lines, n + 1, has, line, at)
  {
    assert forall i | i in at :: i in at + [n];
    assert n in at + [n];
  }

  lemma {:induction false} RowsAreListedAt<R(!new)>(n: nat, has: int -> bool, row: int -> R) returns (at: seq<int>)
    ensures ListedAt(Rows(n, has, row), n, has, row, at)
  {
    at := [];
    if n > 0 {
      var before := Rows(n - 1, has, row);
      at := RowsAreListedAt(n - 1, has, row);
      ListedOneMore(before, n - 1, has, row, at);
      assert before + [] == before;
      at := if has(n - 1) then at + [n - 1] else at;
    }
  }

  lemma {:induction false} RowsSame<R(!new)>(n: nat, has: int -> bool, row: int -> R, has': int -> bool, line: int -> R)
    requires forall i | 0 <= i < n :: has(i) == has'(i) && (has(i) ==> row(i) == line(i))
    ensures Rows(n, has, row) == Rows(n, has', line)
  {
    if n > 0 {
      RowsSame(n - 1, has, row, has', line);
    }
  }

  lemma RowsAreListed<R(!new)>(n: nat, has: int -> bool, row: int -> R, has': int -> bool, line: int -> R)
    requires forall i | 0 <= i < n :: has(i) == has'(i) && (has(i) ==> row(i) == line(i))
    ensures Listing(Rows(n, has, row), n, has', line)
  {
    RowsSame(n, has, row, has', line);
    var at := RowsAreListedAt(n, has', line);
  }
}
