/** Sums, selections and permutations of table rows.

    Every total of the program (a balance, a drawer, a stock quantity, a pending
    counter) is an aggregate over the rows of a table, so every proof about totals
    comes down to the lemmas of this module. */
module Sums {

  datatype Option<+T> = None | Some(value: T)

  datatype Result<+T, +E> = Ok(value: T) | Err(error: E)

  function Max(a: int, b: int): int {
    if a < b then b else a
  }

  function Min(a: int, b: int): int {
    if a < b then a else b
  }

  // ---------- Rows in insertion order ----------

  function Sum<T>(rows: seq<T>, f: T -> int): int {
    if |rows| == 0 then 0 else Sum(rows[..|rows| - 1], f) + f(rows[|rows| - 1])
  }

  lemma {:induction false} SumPush<T>(rows: seq<T>, row: T, f: T -> int)
    ensures Sum(rows + [row], f) == Sum(rows, f) + f(row)
  {
    assert (rows + [row])[..|rows|] == rows;
  }

  lemma {:induction false} SumOne<T>(row: T, f: T -> int)
    ensures Sum([row], f) == f(row)
  {
    assert [row][..0] == [];
  }

  lemma {:induction false} SumConcat<T>(a: seq<T>, b: seq<T>, f: T -> int)
    ensures Sum(a + b, f) == Sum(a, f) + Sum(b, f)
  {
    if |b| == 0 {
      assert a + b == a;
    } else {
      var front, last := b[..|b| - 1], b[|b| - 1];
      SumConcat(a, front, f);
      assert a + b == (a + front) + [last];
      SumPush(a + front, last, f);
    }
  }

  lemma {:induction false} SumReplace<T>(rows: seq<T>, i: nat, row: T, f: T -> int)
    requires i < |rows|
    ensures Sum(rows[i := row], f) == Sum(rows, f) - f(rows[i]) + f(row)
  {
    var last := |rows| - 1;
    if i == last {
      assert rows[i := row][..last] == rows[..last];
    } else {
      assert rows[i := row][..last] == rows[..last][i := row];
      SumReplace(rows[..last], i, row, f);
    }
  }

  lemma {:induction false} SumPointwise<S, T>(a: seq<S>, b: seq<T>, f: S -> int, g: T -> int)
    requires |a| == |b| && forall i :: 0 <= i < |a| ==> f(a[i]) == g(b[i])
    ensures Sum(a, f) == Sum(b, g)
  {
    if |a| > 0 {
      SumPointwise(a[..|a| - 1], b[..|b| - 1], f, g);
    }
  }

  lemma {:induction false} SumSplit<T>(rows: seq<T>, whole: T -> int, f: T -> int, g: T -> int)
    requires forall i :: 0 <= i < |rows| ==> whole(rows[i]) == f(rows[i]) + g(rows[i])
    ensures Sum(rows, whole) == Sum(rows, f) + Sum(rows, g)
  {
    if |rows| > 0 {
      SumSplit(rows[..|rows| - 1], whole, f, g);
    }
  }

  lemma {:induction false} SumNonneg<T>(rows: seq<T>, f: T -> int)
    requires forall i :: 0 <= i < |rows| ==> f(rows[i]) >= 0
    ensures Sum(rows, f) >= 0
    ensures forall i :: 0 <= i < |rows| ==> f(rows[i]) <= Sum(rows, f)
  {
    if |rows| > 0 {
      SumNonneg(rows[..|rows| - 1], f);
      assert forall i :: 0 <= i < |rows| - 1 ==> rows[..|rows| - 1][i] == rows[i];
    }
  }

  lemma {:induction false} SumZero<T>(rows: seq<T>, f: T -> int)
    requires forall i :: 0 <= i < |rows| ==> f(rows[i]) == 0
    ensures Sum(rows, f) == 0
  {
    if |rows| > 0 {
      SumZero(rows[..|rows| - 1], f);
    }
  }

  lemma {:induction false} SumShift<T>(a: seq<T>, row: T, b: seq<T>, f: T -> int)
    ensures Sum((a + [row]) + b, f) == Sum(a + b, f) + f(row)
  {
    SumConcat(a + [row], b, f);
    SumPush(a, row, f);
    SumConcat(a, b, f);
  }

  lemma {:induction false} SplitAt<T>(rows: seq<T>, i: nat)
    requires i < |rows|
    ensures rows == (rows[..i] + [rows[i]]) + rows[i + 1..]
  {
  }

  /** Dropping row `i` from anywhere. */
  lemma {:induction false} SumRemove<T>(rows: seq<T>, i: nat, f: T -> int)
    requires i < |rows|
    ensures Sum(rows, f) == f(rows[i]) + Sum(rows[..i] + rows[i + 1..], f)
  {
    SplitAt(rows, i);
    SumShift(rows[..i], rows[i], rows[i + 1..], f);
  }

  /** A total does not depend on the order of the rows. */
  lemma {:induction false} SumPermuted<T>(a: seq<T>, b: seq<T>, f: T -> int)
    requires multiset(a) == multiset(b)
    ensures Sum(a, f) == Sum(b, f)
    decreases |a|
  {
    if |a| == 0 {
      assert |multiset(b)| == 0;
    } else {
      var last := a[|a| - 1];
      var front := a[..|a| - 1];
      assert a == front + [last];
      assert last in multiset(b);
      var i :| 0 <= i < |b| && b[i] == last;
      var rest := b[..i] + b[i + 1..];
      assert multiset(rest) == multiset(b) - multiset{last} by {
        assert b == b[..i] + [last] + b[i + 1..];
      }
      assert multiset(front) == multiset(a) - multiset{last};
      SumPermuted(front, rest, f);
      SumRemove(b, i, f);
    }
  }

  // ---------- Selections ----------

  function Filter<T>(rows: seq<T>, p: T -> bool): seq<T> {
    if |rows| == 0 then []
    else
      var rest := Filter(rows[..|rows| - 1], p);
      if p(rows[|rows| - 1]) then rest + [rows[|rows| - 1]] else rest
  }

  lemma {:induction false} FilterPush<T>(rows: seq<T>, row: T, p: T -> bool)
    ensures Filter(rows + [row], p) == Filter(rows, p) + if p(row) then [row] else []
  {
    assert (rows + [row])[..|rows|] == rows;
    assert Filter(rows, p) + [] == Filter(rows, p);
  }

  lemma {:induction false} FilterConcat<T>(a: seq<T>, b: seq<T>, p: T -> bool)
    ensures Filter(a + b, p) == Filter(a, p) + Filter(b, p)
  {
    if |b| == 0 {
      assert a + b == a;
    } else {
      var front, last := b[..|b| - 1], b[|b| - 1];
      FilterConcat(a, front, p);
      assert a + b == (a + front) + [last];
      FilterPush(a + front, last, p);
    }
  }

  lemma {:induction false} FilterNone<T>(rows: seq<T>, p: T -> bool)
    requires forall i :: 0 <= i < |rows| ==> !p(rows[i])
    ensures Filter(rows, p) == []
  {
    if |rows| > 0 {
      FilterNone(rows[..|rows| - 1], p);
    }
  }

  lemma {:induction false} FilterAll<T>(rows: seq<T>, p: T -> bool)
    requires forall i :: 0 <= i < |rows| ==> p(rows[i])
    ensures Filter(rows, p) == rows
  {
    if |rows| > 0 {
      FilterAll(rows[..|rows| - 1], p);
      assert rows == rows[..|rows| - 1] + [rows[|rows| - 1]];
    }
  }

  // ---------- Rows gathered from other rows ----------

  function Gather<S, T>(rows: seq<S>, g: S -> seq<T>): seq<T> {
    if |rows| == 0 then [] else Gather(rows[..|rows| - 1], g) + g(rows[|rows| - 1])
  }

  lemma {:induction false} GatherPush<S, T>(rows: seq<S>, row: S, g: S -> seq<T>)
    ensures Gather(rows + [row], g) == Gather(rows, g) + g(row)
  {
    assert (rows + [row])[..|rows|] == rows;
  }

  lemma {:induction false} GatherConcat<S, T>(a: seq<S>, b: seq<S>, g: S -> seq<T>)
    ensures Gather(a + b, g) == Gather(a, g) + Gather(b, g)
  {
    if |b| == 0 {
      assert a + b == a;
    } else {
      var front, last := b[..|b| - 1], b[|b| - 1];
      GatherConcat(a, front, g);
      assert a + b == (a + front) + [last];
      GatherPush(a + front, last, g);
    }
  }

  lemma {:induction false} GatherRemove<S, T>(rows: seq<S>, i: nat, g: S -> seq<T>)
    requires i < |rows|
    ensures multiset(Gather(rows, g)) == multiset(Gather(rows[..i] + rows[i + 1..], g)) + multiset(g(rows[i]))
  {
    SplitAt(rows, i);
    var before, row, after := rows[..i], rows[i], rows[i + 1..];
    GatherConcat(before + [row], after, g);
    GatherPush(before, row, g);
    GatherConcat(before, after, g);
    MultisetShuffle(Gather(before, g), g(row), Gather(after, g));
  }

  lemma {:induction false} MultisetShuffle<T>(a: seq<T>, b: seq<T>, c: seq<T>)
    ensures multiset((a + b) + c) == multiset(a + c) + multiset(b)
  {
  }

  /** What is gathered does not depend on the order of the rows, up to order. */
  lemma {:induction false} GatherPermuted<S, T>(a: seq<S>, b: seq<S>, g: S -> seq<T>)
    requires multiset(a) == multiset(b)
    ensures multiset(Gather(a, g)) == multiset(Gather(b, g))
    decreases |a|
  {
    if |a| == 0 {
      assert |multiset(b)| == 0;
    } else {
      var last, front := a[|a| - 1], a[..|a| - 1];
      assert a == front + [last];
      assert last in multiset(b);
      var i :| 0 <= i < |b| && b[i] == last;
      var rest := b[..i] + b[i + 1..];
      assert multiset(rest) == multiset(b) - multiset{last} by {
        assert b == b[..i] + [last] + b[i + 1..];
      }
      assert multiset(front) == multiset(a) - multiset{last};
      GatherPermuted(front, rest, g);
      GatherRemove(b, i, g);
    }
  }

  /** Two lists without repetition and with the same elements are permutations. */
  lemma {:induction false} SameElementsPermuted<T>(a: seq<T>, b: seq<T>)
    requires forall i, j :: 0 <= i < j < |a| ==> a[i] != a[j]
    requires forall i, j :: 0 <= i < j < |b| ==> b[i] != b[j]
    requires forall x :: x in a <==> x in b
    ensures multiset(a) == multiset(b)
  {
    forall x ensures multiset(a)[x] == multiset(b)[x] {
      CountDistinct(a, x);
      CountDistinct(b, x);
    }
  }

  lemma {:induction false} CountDistinct<T>(a: seq<T>, x: T)
    requires forall i, j :: 0 <= i < j < |a| ==> a[i] != a[j]
    ensures multiset(a)[x] == if x in a then 1 else 0
  {
    if |a| > 0 {
      var last := |a| - 1;
      CountDistinct(a[..last], x);
      assert a == a[..last] + [a[last]];
    }
  }

  /** The position of the first row that satisfies `p`, or the number of rows. */
  function FirstWhere<T>(rows: seq<T>, p: T -> bool): (at: nat)
    ensures at <= |rows|
    ensures at < |rows| ==> p(rows[at])
    ensures forall i :: 0 <= i < at ==> !p(rows[i])
  {
    if |rows| == 0 then 0
    else
      var at := FirstWhere(rows[..|rows| - 1], p);
      if at < |rows| - 1 || p(rows[|rows| - 1]) then at else |rows|
  }

  lemma {:induction false} FirstWherePush<T>(rows: seq<T>, row: T, p: T -> bool)
    ensures FirstWhere(rows + [row], p) == if FirstWhere(rows, p) < |rows| || p(row) then FirstWhere(rows, p)
              else |rows| + 1
  {
    assert (rows + [row])[..|rows|] == rows;
  }

  // ---------- Rows under a key ----------

  ghost function SomeKey<K, V>(table: map<K, V>): (key: K)
    requires |table| > 0
    ensures key in table
  {
    assert table.Keys != {};
    var key :| key in table;
    key
  }

  /** The total of `f` over the rows of a keyed table. */
  ghost function Total<K, V>(table: map<K, V>, f: V -> int): int
    decreases |table|
  {
    if |table| == 0 then 0
    else
      var key := SomeKey(table);
      f(table[key]) + Total(table - {key}, f)
  }

  /** Any key may be counted first. */
  lemma {:induction false} TotalPick<K, V>(table: map<K, V>, key: K, f: V -> int)
    requires key in table
    ensures Total(table, f) == f(table[key]) + Total(table - {key}, f)
    decreases |table|
  {
    var first := SomeKey(table);
    if first != key {
      TotalPick(table - {first}, key, f);
      TotalPick(table - {key}, first, f);
      assert table - {first} - {key} == table - {key} - {first};
    }
  }

  lemma {:induction false} TotalAdd<K, V>(table: map<K, V>, key: K, row: V, f: V -> int)
    requires key !in table
    ensures Total(table[key := row], f) == Total(table, f) + f(row)
  {
    TotalPick(table[key := row], key, f);
    assert table[key := row] - {key} == table;
  }

  lemma {:induction false} TotalReplace<K, V>(table: map<K, V>, key: K, row: V, f: V -> int)
    requires key in table
    ensures Total(table[key := row], f) == Total(table, f) - f(table[key]) + f(row)
  {
    TotalPick(table[key := row], key, f);
    TotalPick(table, key, f);
    assert table[key := row] - {key} == table - {key};
  }

  lemma {:induction false} TotalSame<K, V>(a: map<K, V>, b: map<K, V>, f: V -> int)
    requires a.Keys == b.Keys
    requires forall key :: key in a ==> f(a[key]) == f(b[key])
    ensures Total(a, f) == Total(b, f)
    decreases |a|
  {
    assert |a| == |a.Keys| == |b.Keys| == |b|;
    if |a| > 0 {
      var key :| key in a;
      TotalPick(a, key, f);
      TotalPick(b, key, f);
      assert (a - {key}).Keys == a.Keys - {key} == (b - {key}).Keys;
      TotalSame(a - {key}, b - {key}, f);
    }
  }

  lemma {:induction false} TotalAgree<K, V>(table: map<K, V>, f: V -> int, g: V -> int)
    requires forall key :: key in table ==> f(table[key]) == g(table[key])
    ensures Total(table, f) == Total(table, g)
    decreases |table|
  {
    if |table| > 0 {
      TotalAgree(table - {SomeKey(table)}, f, g);
    }
  }

  lemma {:induction false} TotalSplit<K, V>(table: map<K, V>, whole: V -> int, f: V -> int, g: V -> int)
    requires forall key :: key in table ==> whole(table[key]) == f(table[key]) + g(table[key])
    ensures Total(table, whole) == Total(table, f) + Total(table, g)
    decreases |table|
  {
    if |table| > 0 {
      TotalSplit(table - {SomeKey(table)}, whole, f, g);
    }
  }

  /** Two measures that differ on one row only. */
  lemma {:induction false} TotalExcept<K, V>(table: map<K, V>, key: K, f: V -> int, g: V -> int)
    requires key in table && forall other :: other in table && other != key ==> f(table[other]) == g(table[other])
    ensures Total(table, g) - g(table[key]) == Total(table, f) - f(table[key])
  {
    TotalPick(table, key, f);
    TotalPick(table, key, g);
    TotalAgree(table - {key}, f, g);
  }

  lemma {:induction false} TotalZero<K, V>(table: map<K, V>, f: V -> int)
    requires forall key :: key in table ==> f(table[key]) == 0
    ensures Total(table, f) == 0
    decreases |table|
  {
    if |table| > 0 {
      TotalZero(table - {SomeKey(table)}, f);
    }
  }

  lemma {:induction false} TotalNonneg<K, V>(table: map<K, V>, f: V -> int)
    requires forall key :: key in table ==> f(table[key]) >= 0
    ensures Total(table, f) >= 0
    ensures forall key :: key in table ==> f(table[key]) <= Total(table, f)
    decreases |table|
  {
    if |table| > 0 {
      forall key | key in table
        ensures 0 <= f(table[key]) <= Total(table, f)
      {
        TotalPick(table, key, f);
        TotalNonneg(table - {key}, f);
      }
      var some :| some in table;
    }
  }

  // ---------- Sorted identifiers ----------

  lemma {:induction false} LeastExists(s: set<nat>) returns (least: nat)
    requires s != {}
    ensures least in s && forall x :: x in s ==> least <= x
    decreases |s|
  {
    var first :| first in s;
    var rest := s - {first};
    least := first;
    if rest != {} {
      var other := LeastExists(rest);
      least := Min(first, other);
    }
    assert forall x :: x in s ==> x == first || x in rest;
  }

  function Least(s: set<nat>): (least: nat)
    requires s != {}
    ensures least in s && forall x :: x in s ==> least <= x
  {
    assert exists least: nat :: least in s && forall x :: x in s ==> least <= x by {
      var least := LeastExists(s);
    }
    var least: nat :| least in s && forall x :: x in s ==> least <= x;
    least
  }

  /** Python's `sorted` on a set of identifiers. */
  function Sorted(s: set<nat>): (ids: seq<nat>)
    ensures forall x :: x in ids <==> x in s
    ensures forall i, j :: 0 <= i < j < |ids| ==> ids[i] < ids[j]
    decreases |s|
  {
    if s == {} then []
    else
      var least := Least(s);
      [least] + Sorted(s - {least})
  }
}
