/** Small datatypes and counting facts shared by the other modules. */
module Prelude {

  datatype Option<+T> = None | Some(value: T)

  datatype Result<+T, +E> = Ok(value: T) | Err(error: E)

  function MaxReal(x: real, y: real): real {
    if x < y then y else x
  }

  function MinInt(x: int, y: int): int {
    if x < y then x else y
  }

  function MaxInt(x: int, y: int): int {
    if x < y then y else x
  }

  /** The first `n` natural numbers. */
  function Below(n: nat): (s: set<nat>)
    ensures |s| == n
    ensures forall x: nat :: x in s <==> x < n
  {
    if n == 0 then {} else Below(n - 1) + {n - 1}
  }

  /** Distinct numbers below a bound are at most that many. */
  lemma {:induction false} DistinctBelow(s: seq<nat>, bound: nat)
    requires forall i :: 0 <= i < |s| ==> s[i] < bound
    requires forall i, j :: 0 <= i < j < |s| ==> s[i] != s[j]
    ensures |s| <= bound
  {
    DistinctImage(s);
    SubsetCardinality(Image(s), Below(bound));
  }

  function Image<T>(s: seq<T>): set<T> {
    set x | x in s
  }

  lemma {:induction false} DistinctImage<T>(s: seq<T>)
    requires forall i, j :: 0 <= i < j < |s| ==> s[i] != s[j]
    ensures |Image(s)| == |s|
  {
    if s != [] {
      var n := |s| - 1;
      DistinctImage(s[..n]);
      assert Image(s) == Image(s[..n]) + {s[n]};
      assert s[n] !in Image(s[..n]);
    }
  }

  lemma {:induction false} SubsetCardinality<T>(a: set<T>, b: set<T>)
    requires a <= b
    ensures |a| <= |b|
    ensures |a| == |b| ==> a == b
  {
    assert b == a + (b - a);
  }
}
