/** Small shared vocabulary: optional values and the row an ordered query returns first. */
module Common {

  type Id = nat

  datatype Option<+T> = None | Some(value: T)

  function Min(a: int, b: int): int { if a <= b then a else b }

  function Max(a: int, b: int): int { if a >= b then a else b }

  /** `x` sorts no later than `y` under `ORDER BY rank, id`. */
  predicate NotAfter(ranks: map<Id, int>, x: Id, y: Id)
    requires x in ranks && y in ranks
  {
    ranks[x] < ranks[y] || (ranks[x] == ranks[y] && x <= y)
  }

  predicate IsFirst(ranks: map<Id, int>, ids: set<Id>, x: Id)
    requires ids <= ranks.Keys
  {
    x in ids && forall y | y in ids :: NotAfter(ranks, x, y)
  }

  lemma {:induction false} FirstExists(ranks: map<Id, int>, ids: set<Id>)
    requires ids != {} && ids <= ranks.Keys
    ensures exists x :: x in ids && IsFirst(ranks, ids, x)
  {
    var z :| z in ids;
    if ids == {z} {
      assert IsFirst(ranks, ids, z);
    } else {
      FirstExists(ranks, ids - {z});
      var x :| x in ids - {z} && IsFirst(ranks, ids - {z}, x);
      var first := if NotAfter(ranks, x, z) then x else z;
      forall y | y in ids ensures NotAfter(ranks, first, y) {
        assert y == z || y in ids - {z};
      }
      assert IsFirst(ranks, ids, first);
    }
  }

  /** The first row of a query ordered by (rank, id), if the query matches any row. */
  function First(ranks: map<Id, int>): (r: Option<Id>)
    ensures r.None? <==> ranks == map[]
    ensures r.Some? ==> r.value in ranks && forall y | y in ranks :: NotAfter(ranks, r.value, y)
  {
    if ranks == map[] then None
    else
      FirstExists(ranks, ranks.Keys);
      var x :| x in ranks.Keys && IsFirst(ranks, ranks.Keys, x);
      Some(x)
  }

  // ---------------------------------------------------------------- sums over rows

  function Sum<T>(rows: seq<T>, f: T -> nat): nat {
    if rows == [] then 0 else Sum(rows[..|rows| - 1], f) + f(rows[|rows| - 1])
  }

  lemma {:induction false} SumAppend<T>(a: seq<T>, b: seq<T>, f: T -> nat)
    ensures Sum(a + b, f) == Sum(a, f) + Sum(b, f)
    decreases |b|
  {
    if b == [] {
      assert a + b == a;
    } else {
      SumAppend(a, b[..|b| - 1], f);
      assert (a + b)[..|a + b| - 1] == a + b[..|b| - 1];
    }
  }

  lemma {:induction false} SumUpdate<T>(rows: seq<T>, i: nat, row: T, f: T -> nat)
    requires i < |rows|
    ensures Sum(rows[i := row], f) == Sum(rows, f) - f(rows[i]) + f(row)
    ensures f(rows[i]) <= Sum(rows, f)
  {
    var n := |rows| - 1;
    if i == n {
      assert rows[i := row][..n] == rows[..n];
    } else {
      SumUpdate(rows[..n], i, row, f);
      assert rows[i := row][..n] == rows[..n][i := row];
    }
  }

  lemma {:induction false} SumBounded<T>(rows: seq<T>, f: T -> nat, g: T -> nat)
    requires forall row | row in rows :: f(row) <= g(row)
    ensures Sum(rows, f) <= Sum(rows, g)
  {
    if rows != [] {
      SumBounded(rows[..|rows| - 1], f, g);
    }
  }

  lemma {:induction false} SumsAdd<T>(rows: seq<T>, f: T -> nat, g: T -> nat, h: T -> nat)
    requires forall row | row in rows :: h(row) == f(row) + g(row)
    ensures Sum(rows, h) == Sum(rows, f) + Sum(rows, g)
  {
    if rows != [] {
      SumsAdd(rows[..|rows| - 1], f, g, h);
    }
  }

  lemma {:induction false} SumZero<T>(rows: seq<T>, f: T -> nat)
    requires forall row | row in rows :: f(row) == 0
    ensures Sum(rows, f) == 0
  {
    if rows != [] {
      SumZero(rows[..|rows| - 1], f);
    }
  }
}
