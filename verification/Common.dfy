/** Shared datatypes, and database tables as sequences of rows with the queries run on them. */
module Common {

  datatype Option<+T> = None | Some(value: T)

  datatype Result<+T, +E> = Success(value: T) | Failure(error: E)

  function Max(a: int, b: int): int { if a < b then b else a }

  function Min(a: int, b: int): int { if a < b then a else b }

  /** The number of rows of a table that satisfy a condition. */
  function Count<T>(rows: seq<T>, p: T -> bool): nat {
    if rows == [] then 0
    else Count(rows[..|rows| - 1], p) + if p(rows[|rows| - 1]) then 1 else 0
  }

  /** The first row at or after `from` that satisfies a condition. */
  function FindFrom<T>(rows: seq<T>, p: T -> bool, from: nat): (r: Option<nat>)
    requires from <= |rows|
    ensures r.Some? ==> from <= r.value < |rows| && p(rows[r.value])
    ensures r.Some? ==> forall i :: from <= i < r.value ==> !p(rows[i])
    ensures r.None? ==> forall i :: from <= i < |rows| ==> !p(rows[i])
    decreases |rows| - from
  {
    if from == |rows| then None
    else if p(rows[from]) then Some(from)
    else FindFrom(rows, p, from + 1)
  }

  function First<T>(rows: seq<T>, p: T -> bool): (r: Option<nat>)
    ensures r.Some? ==> r.value < |rows| && p(rows[r.value])
    ensures r.Some? ==> forall i :: 0 <= i < r.value ==> !p(rows[i])
    ensures r.None? ==> forall i :: 0 <= i < |rows| ==> !p(rows[i])
  {
    FindFrom(rows, p, 0)
  }

  lemma CountAppend<T>(rows: seq<T>, p: T -> bool, x: T)
    ensures Count(rows + [x], p) == Count(rows, p) + if p(x) then 1 else 0
  {
    assert (rows + [x])[..|rows|] == rows;
  }

  lemma {:induction false} CountUpdate<T>(rows: seq<T>, p: T -> bool, i: nat, x: T)
    requires i < |rows|
    ensures Count(rows[i := x], p) + (if p(rows[i]) then 1 else 0)
         == Count(rows, p) + if p(x) then 1 else 0
  {
    var n := |rows| - 1;
    if i < n {
      CountUpdate(rows[..n], p, i, x);
      assert rows[i := x][..n] == rows[..n][i := x];
    } else {
      assert rows[i := x][..n] == rows[..n];
    }
  }

  /** A row that satisfies the condition is counted. */
  lemma {:induction false} CountPositive<T>(rows: seq<T>, p: T -> bool, i: nat)
    requires i < |rows| && p(rows[i])
    ensures Count(rows, p) >= 1
  {
    if i < |rows| - 1 {
      CountPositive(rows[..|rows| - 1], p, i);
    }
  }

  /** A positive count has a witness. */
  lemma {:induction false} CountWitness<T>(rows: seq<T>, p: T -> bool) returns (i: nat)
    requires Count(rows, p) >= 1
    ensures i < |rows| && p(rows[i])
  {
    var n := |rows| - 1;
    if p(rows[n]) {
      i := n;
    } else {
      i := CountWitness(rows[..n], p);
    }
  }

  /** A condition that is the disjoint union of two others is counted by their sum. */
  lemma {:induction false} CountSplit<T>(rows: seq<T>, p: T -> bool, q: T -> bool, r: T -> bool)
    requires forall i :: 0 <= i < |rows| ==> (p(rows[i]) <==> q(rows[i]) || r(rows[i]))
    requires forall i :: 0 <= i < |rows| ==> !(q(rows[i]) && r(rows[i]))
    ensures Count(rows, p) == Count(rows, q) + Count(rows, r)
  {
    if rows != [] {
      CountSplit(rows[..|rows| - 1], p, q, r);
    }
  }

  /** A condition that no row satisfies counts nothing. */
  lemma {:induction false} NoneCounted<T>(rows: seq<T>, p: T -> bool)
    requires forall i :: 0 <= i < |rows| ==> !p(rows[i])
    ensures Count(rows, p) == 0
  {
    if rows != [] {
      NoneCounted(rows[..|rows| - 1], p);
    }
  }

  /** A condition that no two rows satisfy counts at most one. */
  lemma {:induction false} AtMostOneCounted<T>(rows: seq<T>, p: T -> bool)
    requires forall i, j :: 0 <= i < j < |rows| ==> !(p(rows[i]) && p(rows[j]))
    ensures Count(rows, p) <= 1
  {
    if rows != [] {
      var n := |rows| - 1;
      AtMostOneCounted(rows[..n], p);
      if p(rows[n]) {
        NoneCounted(rows[..n], p);
      }
    }
  }
}
