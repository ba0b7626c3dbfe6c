/** Values shared by every part of the model: the trade side, optional values,
    results that carry an error, and sums of exact decimals. */
module Common {

  datatype Side = Long | Short

  datatype Option<+T> = None | Some(value: T)

  datatype Result<+T, +E> = Success(value: T) | Failure(error: E) {
    predicate IsFailure() {
      Failure?
    }

    function PropagateFailure<U>(): Result<U, E>
      requires Failure?
    {
      Failure(error)
    }

    function Extract(): T
      requires Success?
    {
      value
    }
  }

  function Max(a: real, b: real): real {
    if a >= b then a else b
  }

  function Min(a: real, b: real): real {
    if a <= b then a else b
  }

  /** A product kept under a name, so that proofs about it stay linear. */
  function Product(a: real, b: real): real {
    a * b
  }

  /** A quotient kept under a name; callers have excluded a zero divisor. */
  function Quotient(a: real, b: real): real {
    if b == 0.0 then 0.0 else a / b
  }

  lemma ProductLaws(m: real, a: real, b: real)
    ensures Product(m, a + b) == Product(m, a) + Product(m, b)
    ensures Product(m, 0.0) == 0.0 && Product(m, 1.0) == m && Product(1.0, a) == a
    ensures Product(m, -1.0) == -m
  {
  }

  /** Sum of a list of decimals, taken from the left as a running total. */
  function Sum(s: seq<real>): real {
    if s == [] then 0.0 else Sum(s[..|s| - 1]) + s[|s| - 1]
  }

  lemma EmptySum()
    ensures Sum([]) == 0.0
  {
  }

  lemma SumAppend(s: seq<real>, x: real)
    ensures Sum(s + [x]) == Sum(s) + x
  {
    assert (s + [x])[..|s|] == s;
  }

  lemma {:induction false} SumConcat(a: seq<real>, b: seq<real>)
    ensures Sum(a + b) == Sum(a) + Sum(b)
  {
    if b == [] {
      assert a + b == a;
    } else {
      SumConcat(a, b[..|b| - 1]);
      assert (a + b)[..|a + b| - 1] == a + b[..|b| - 1];
    }
  }

  lemma {:induction false} SumNonNegative(s: seq<real>)
    requires forall i :: 0 <= i < |s| ==> s[i] >= 0.0
    ensures Sum(s) >= 0.0
  {
    if s != [] {
      SumNonNegative(s[..|s| - 1]);
    }
  }

  /** Replacing one summand moves the sum by the difference. */
  lemma {:induction false} SumUpdate(s: seq<real>, k: nat, x: real)
    requires k < |s|
    ensures Sum(s[k := x]) == Sum(s) - s[k] + x
  {
    if k == |s| - 1 {
      assert s[k := x][..|s| - 1] == s[..|s| - 1];
    } else {
      SumUpdate(s[..|s| - 1], k, x);
      assert s[k := x][..|s| - 1] == s[..|s| - 1][k := x];
    }
  }

  /** A block of non-negative summands is at most the whole. */
  lemma SumBlock(s: seq<real>, i: nat, j: nat)
    requires i <= j <= |s|
    requires forall k :: 0 <= k < |s| ==> s[k] >= 0.0
    ensures 0.0 <= Sum(s[i..j]) <= Sum(s)
  {
    hide Sum;
    assert s == s[..i] + s[i..j] + s[j..];
    SumConcat(s[..i] + s[i..j], s[j..]);
    SumConcat(s[..i], s[i..j]);
    SumNonNegative(s[..i]);
    SumNonNegative(s[i..j]);
    SumNonNegative(s[j..]);
  }

  /** Indices listed in strictly increasing order. */
  predicate Increasing(s: seq<nat>) {
    forall i, j :: 0 <= i < j < |s| ==> s[i] < s[j]
  }

  function ToSet<T>(s: seq<T>): set<T> {
    set x | x in s
  }
}
