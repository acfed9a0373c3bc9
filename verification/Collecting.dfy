/** Selecting and transforming rows in one pass, and summing over them: what does not depend on their order. */
module Collecting {
  import opened Options

  function Collect<T, R>(f: T -> Option<R>, rows: seq<T>): seq<R> {
    if rows == [] then []
    else
      var rest := Collect(f, rows[..|rows| - 1]);
      match f(rows[|rows| - 1])
      case None => rest
      case Some(r) => rest + [r]
  }

  function Sum<T>(f: T -> nat, rows: seq<T>): nat {
    if rows == [] then 0 else Sum(f, rows[..|rows| - 1]) + f(rows[|rows| - 1])
  }

  function MapAll<T, R>(f: T -> R, rows: seq<T>): (r: seq<R>)
    ensures |r| == |rows| && forall i :: 0 <= i < |r| ==> r[i] == f(rows[i])
  {
    seq(|rows|, i requires 0 <= i < |rows| => f(rows[i]))
  }

  function Build<R>(f: nat -> R, n: nat): (r: seq<R>)
    ensures |r| == n && forall i :: 0 <= i < n ==> r[i] == f(i)
  {
    seq(n, i requires 0 <= i => f(i))
  }

  lemma MapOne<T, R>(f: T -> R, rows: seq<T>, row: T)
    ensures MapAll(f, rows + [row]) == MapAll(f, rows) + [f(row)]
  {
  }

  lemma BuildOne<R>(f: nat -> R, n: nat)
    ensures Build(f, n + 1) == Build(f, n) + [f(n)]
  {
  }

  lemma CollectOne<T, R>(f: T -> Option<R>, rows: seq<T>, row: T)
    ensures Collect(f, rows + [row]) == match f(row) case None => Collect(f, rows) case Some(r) => Collect(f, rows) + [r]
  {
    assert (rows + [row])[..|rows|] == rows;
  }

  lemma SumOne<T>(f: T -> nat, rows: seq<T>, row: T)
    ensures Sum(f, rows + [row]) == Sum(f, rows) + f(row)
  {
    assert (rows + [row])[..|rows|] == rows;
  }

  lemma CollectStep<T, R>(f: T -> Option<R>, rows: seq<T>, i: nat, r: R)
    requires i < |rows| && f(rows[i]) == Some(r)
    ensures Collect(f, rows[..i + 1]) == Collect(f, rows[..i]) + [r]
  {
    assert rows[..i + 1][..i] == rows[..i];
  }

  lemma SumStep<T>(f: T -> nat, rows: seq<T>, i: nat)
    requires i < |rows|
    ensures Sum(f, rows[..i + 1]) == Sum(f, rows[..i]) + f(rows[i])
  {
    assert rows[..i + 1][..i] == rows[..i];
  }

  lemma {:induction false} CollectBoth<T, R>(f: T -> Option<R>, a: seq<T>, b: seq<T>)
    ensures Collect(f, a + b) == Collect(f, a) + Collect(f, b)
  {
    if b == [] {
      assert a + b == a;
    } else {
      CollectBoth(f, a, b[..|b| - 1]);
      assert (a + b)[..|a + b| - 1] == a + b[..|b| - 1];
    }
  }

  lemma {:induction false} SumBoth<T>(f: T -> nat, a: seq<T>, b: seq<T>)
    ensures Sum(f, a + b) == Sum(f, a) + Sum(f, b)
  {
    if b == [] {
      assert a + b == a;
    } else {
      SumBoth(f, a, b[..|b| - 1]);
      assert (a + b)[..|a + b| - 1] == a + b[..|b| - 1];
    }
  }

  /** What is collected comes from some row, and every row that yields something is collected. */
  lemma {:induction false} CollectedFrom<T, R>(f: T -> Option<R>, rows: seq<T>, r: R)
    ensures r in Collect(f, rows) <==> exists row :: row in rows && f(row) == Some(r)
  {
    if rows == [] {
    } else {
      var init, last := rows[..|rows| - 1], rows[|rows| - 1];
      CollectedFrom(f, init, r);
      CollectOne(f, init, last);
      assert rows == init + [last];
      assert forall row :: row in rows <==> row in init || row == last;
    }
  }

  /** The rows without one occurrence of `row`. */
  lemma TakeOut<T>(rows: seq<T>, row: T) returns (front: seq<T>, back: seq<T>)
    requires row in multiset(rows)
    ensures rows == front + [row] + back
    ensures multiset(front + back) == multiset(rows) - multiset{row}
  {
    var j :| 0 <= j < |rows| && rows[j] == row;
    front, back := rows[..j], rows[j + 1..];
    assert rows == front + [row] + back;
    assert multiset(rows) == multiset(front) + multiset{row} + multiset(back);
    assert multiset(front + back) == multiset(front) + multiset(back);
  }

  function Yield<R>(r: Option<R>): multiset<R> {
    match r case None => multiset{} case Some(v) => multiset{v}
  }

  lemma CollectAround<T, R>(f: T -> Option<R>, front: seq<T>, row: T, back: seq<T>)
    ensures multiset(Collect(f, front + [row] + back)) == multiset(Collect(f, front + back)) + Yield(f(row))
  {
    CollectBoth(f, front + [row], back);
    CollectOne(f, front, row);
    CollectBoth(f, front, back);
  }

  lemma {:induction false} CollectAnyOrder<T, R>(f: T -> Option<R>, a: seq<T>, b: seq<T>)
    requires multiset(a) == multiset(b)
    ensures multiset(Collect(f, a)) == multiset(Collect(f, b))
    decreases |a|
  {
    if a == [] {
      assert |multiset(b)| == 0;
    } else {
      var init, last := a[..|a| - 1], a[|a| - 1];
      assert a == init + [last];
      var front, back := TakeOut(b, last);
      CollectAnyOrder(f, init, front + back);
      CollectOne(f, init, last);
      CollectAround(f, front, last, back);
    }
  }

  lemma SumAround<T>(f: T -> nat, front: seq<T>, row: T, back: seq<T>)
    ensures Sum(f, front + [row] + back) == Sum(f, front + back) + f(row)
  {
    SumBoth(f, front + [row], back);
    SumOne(f, front, row);
    SumBoth(f, front, back);
  }

  lemma {:induction false} SumAnyOrder<T>(f: T -> nat, a: seq<T>, b: seq<T>)
    requires multiset(a) == multiset(b)
    ensures Sum(f, a) == Sum(f, b)
    decreases |a|
  {
    if a == [] {
      assert |multiset(b)| == 0;
    } else {
      var init, last := a[..|a| - 1], a[|a| - 1];
      assert a == init + [last];
      var front, back := TakeOut(b, last);
      SumAnyOrder(f, init, front + back);
      SumOne(f, init, last);
      SumAround(f, front, last, back);
    }
  }

  /** Collecting only from the rows a filter passes, when the others yield nothing. */
  lemma {:induction false} CollectFiltered<T, R>(f: T -> Option<R>, keep: T -> Option<T>, rows: seq<T>)
    requires forall row :: row in rows ==> keep(row) == Some(row) || (keep(row) == None && f(row) == None)
    ensures Collect(f, Collect(keep, rows)) == Collect(f, rows)
  {
    if rows == [] {
    } else {
      var init, last := rows[..|rows| - 1], rows[|rows| - 1];
      assert forall row :: row in init ==> row in rows;
      CollectFiltered(f, keep, init);
      CollectOne(f, Collect(keep, init), last);
    }
  }

  lemma {:induction false} SumFiltered<T>(f: T -> nat, keep: T -> Option<T>, rows: seq<T>)
    requires forall row :: row in rows ==> keep(row) == Some(row) || (keep(row) == None && f(row) == 0)
    ensures Sum(f, Collect(keep, rows)) == Sum(f, rows)
  {
    if rows == [] {
    } else {
      var init, last := rows[..|rows| - 1], rows[|rows| - 1];
      assert forall row :: row in init ==> row in rows;
      SumFiltered(f, keep, init);
      SumOne(f, Collect(keep, init), last);
    }
  }

  /** Two selections of which exactly one takes each row. */
  lemma {:induction false} CollectsShareOut<T, R, S>(f: T -> Option<R>, g: T -> Option<S>, rows: seq<T>)
    requires forall row :: row in rows ==> (f(row).None? <==> g(row).Some?)
    ensures |Collect(f, rows)| + |Collect(g, rows)| == |rows|
  {
    if rows == [] {
    } else {
      assert forall row :: row in rows[..|rows| - 1] ==> row in rows;
      CollectsShareOut(f, g, rows[..|rows| - 1]);
    }
  }

  function TotalTo(f: nat -> nat, n: nat): nat {
    if n == 0 then 0 else TotalTo(f, n - 1) + f(n - 1)
  }

  function UnionTo<T>(g: nat -> set<T>, n: nat): set<T> {
    if n == 0 then {} else UnionTo(g, n - 1) + g(n - 1)
  }

  lemma {:induction false} UnionHas<T>(g: nat -> set<T>, n: nat, x: T)
    ensures x in UnionTo(g, n) <==> exists i: nat :: i < n && x in g(i)
  {
    if n == 0 {
    } else {
      UnionHas(g, n - 1, x);
    }
  }

  lemma {:induction false} ApartFromAll<T>(g: nat -> set<T>, n: nat, last: set<T>)
    requires forall i: nat :: i < n ==> g(i) !! last
    ensures UnionTo(g, n) !! last
  {
    if n == 0 {
    } else {
      ApartFromAll(g, n - 1, last);
    }
  }

  /** Adding up the sizes of sets that share nothing counts every element once. */
  lemma {:induction false} CountedOnce<T>(f: nat -> nat, g: nat -> set<T>, n: nat)
    requires forall i: nat :: i < n ==> f(i) == |g(i)|
    requires forall i: nat, j: nat :: i < j < n ==> g(i) !! g(j)
    ensures TotalTo(f, n) == |UnionTo(g, n)|
  {
    if n == 0 {
    } else {
      CountedOnce(f, g, n - 1);
      ApartFromAll(g, n - 1, g(n - 1));
    }
  }
}
