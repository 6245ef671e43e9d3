// Shared value types and small helpers used by every other module.

module Wrappers {
  /** A value that may be missing (Python's None). */
  datatype Option<T> = None | Some(value: T)

  /** The outcome of an operation that can raise: a value or the exception's message. */
  datatype Result<T, E> = Success(value: T) | Failure(error: E)
}

module Numeric {
  /** Python's int() applied to a float: truncation toward zero. */
  function Trunc(x: real): (n: int)
    ensures 0.0 <= x ==> 0 <= n && n as real <= x < n as real + 1.0
    ensures x < 0.0 ==> n <= 0 && n as real - 1.0 < x <= n as real
  {
    if x >= 0.0 then x.Floor else -((-x).Floor)
  }

  function Min(a: real, b: real): real { if a <= b then a else b }

  function Max(a: real, b: real): real { if a >= b then a else b }

  function Abs(x: real): real { if x < 0.0 then -x else x }

  /** Sum of a list of Python ints. */
  function SumInts(xs: seq<int>): int
  {
    if |xs| == 0 then 0 else SumInts(xs[..|xs| - 1]) + xs[|xs| - 1]
  }

  /** Sum of a list of Python floats (exact, no rounding). */
  function SumReals(xs: seq<real>): real
  {
    if |xs| == 0 then 0.0 else SumReals(xs[..|xs| - 1]) + xs[|xs| - 1]
  }

  /** A sum of ints each within [lo, hi] lies within [n*lo, n*hi]. */
  lemma {:induction false} SumIntsBounds(xs: seq<int>, lo: int, hi: int)
    requires forall i :: 0 <= i < |xs| ==> lo <= xs[i] <= hi
    ensures |xs| * lo <= SumInts(xs) <= |xs| * hi
  {
    if |xs| > 0 {
      SumIntsBounds(xs[..|xs| - 1], lo, hi);
    }
  }

  /** A sum of reals each within [lo, hi] lies within [n*lo, n*hi]. */
  lemma {:induction false} SumRealsBounds(xs: seq<real>, lo: real, hi: real)
    requires forall i :: 0 <= i < |xs| ==> lo <= xs[i] <= hi
    ensures (|xs| as real) * lo <= SumReals(xs) <= (|xs| as real) * hi
  {
    if |xs| > 0 {
      SumRealsBounds(xs[..|xs| - 1], lo, hi);
      assert (|xs| as real) * lo == ((|xs| - 1) as real) * lo + lo;
      assert (|xs| as real) * hi == ((|xs| - 1) as real) * hi + hi;
    }
  }

  /** Decimal rendering of a non-negative int, as Python's str() gives it. */
  function NatToString(n: nat): (s: string)
    ensures |s| > 0
    ensures forall i :: 0 <= i < |s| ==> '0' <= s[i] <= '9'
  {
    if n < 10 then [Digit(n)] else NatToString(n / 10) + [Digit(n % 10)]
  }

  function Digit(d: nat): (c: char)
    requires d < 10
    ensures '0' <= c <= '9'
  {
    ['0', '1', '2', '3', '4', '5', '6', '7', '8', '9'][d]
  }

  /** Value of a string of decimal digits; the inverse of NatToString. */
  function DecimalValue(s: string): nat
    requires forall i :: 0 <= i < |s| ==> '0' <= s[i] <= '9'
  {
    if |s| == 0 then 0 else 10 * DecimalValue(s[..|s| - 1]) + (s[|s| - 1] as int - '0' as int)
  }

  lemma {:induction false} NatToStringRoundTrip(n: nat)
    ensures DecimalValue(NatToString(n)) == n
  {
    var s := NatToString(n);
    if n >= 10 {
      NatToStringRoundTrip(n / 10);
      assert s[..|s| - 1] == NatToString(n / 10);
    }
  }
}

module SeqUtil {
  /** No element occurs twice. */
  predicate NoDuplicates<T(==)>(xs: seq<T>)
  {
    forall i, j :: 0 <= i < j < |xs| ==> xs[i] != xs[j]
  }

  /** The distinct elements of xs, each kept at its first occurrence. */
  function Dedup<T(==, !new)>(xs: seq<T>): (r: seq<T>)
    ensures NoDuplicates(r)
    ensures forall x :: x in r <==> x in xs
    ensures |r| <= |xs|
  {
    if |xs| == 0 then []
    else
      var d := Dedup(xs[..|xs| - 1]);
      assert forall x :: x in xs <==> x in xs[..|xs| - 1] || x == xs[|xs| - 1];
      if xs[|xs| - 1] in d then d else d + [xs[|xs| - 1]]
  }

  /** xs is obtained from ys by deleting elements (order kept). */
  predicate IsSubsequence<T(==)>(xs: seq<T>, ys: seq<T>)
    decreases |ys|
  {
    if |xs| == 0 then true
    else if |ys| == 0 then false
    else if xs[0] == ys[0] then IsSubsequence(xs[1..], ys[1..])
    else IsSubsequence(xs, ys[1..])
  }

  /** Every element of a subsequence occurs in the list. */
  lemma {:induction false} SubsequenceMembers<T>(xs: seq<T>, ys: seq<T>)
    requires IsSubsequence(xs, ys)
    ensures forall x :: x in xs ==> x in ys
    decreases |ys|
  {
    if |xs| > 0 {
      if xs[0] == ys[0] {
        SubsequenceMembers(xs[1..], ys[1..]);
        assert forall x :: x in xs ==> x == xs[0] || x in xs[1..];
      } else {
        SubsequenceMembers(xs, ys[1..]);
      }
    }
  }

  /** The elements ys[i] whose flag flags[i] is set, in order. */
  function Select<T>(flags: seq<bool>, ys: seq<T>): (r: seq<T>)
    requires |flags| == |ys|
    ensures |r| <= |ys|
  {
    if |ys| == 0 then []
    else (if flags[0] then [ys[0]] else []) + Select(flags[1..], ys[1..])
  }

  lemma {:induction false} SelectIsSubsequence<T>(flags: seq<bool>, ys: seq<T>)
    requires |flags| == |ys|
    ensures IsSubsequence(Select(flags, ys), ys)
  {
    if |ys| > 0 {
      SelectIsSubsequence(flags[1..], ys[1..]);
      var rest := Select(flags[1..], ys[1..]);
      if flags[0] {
        assert ([ys[0]] + rest)[1..] == rest;
      } else {
        assert Select(flags, ys) == rest;
        SubsequenceOfTail(rest, ys);
      }
    }
  }

  /** A subsequence of the tail is a subsequence of the whole list. */
  lemma {:induction false} SubsequenceOfTail<T>(xs: seq<T>, ys: seq<T>)
    requires |ys| > 0 && IsSubsequence(xs, ys[1..])
    ensures IsSubsequence(xs, ys)
    decreases |ys|, 0
  {
    if |xs| > 0 && xs[0] == ys[0] {
      SubsequenceDrop(xs, ys[1..]);
    }
  }

  /** Dropping the first element keeps a subsequence. */
  lemma {:induction false} SubsequenceDrop<T>(xs: seq<T>, ys: seq<T>)
    requires |xs| > 0 && IsSubsequence(xs, ys)
    ensures IsSubsequence(xs[1..], ys)
    decreases |ys|, 1
  {
    if xs[0] == ys[0] {
      SubsequenceOfTail(xs[1..], ys);
    } else {
      SubsequenceDrop(xs, ys[1..]);
      SubsequenceOfTail(xs[1..], ys);
    }
  }

  /** When ys has no duplicates, ys[i] is selected exactly when its flag is set. */
  lemma {:induction false} SelectMembership<T>(flags: seq<bool>, ys: seq<T>, i: nat)
    requires |flags| == |ys| && NoDuplicates(ys) && i < |ys|
    ensures ys[i] in Select(flags, ys) <==> flags[i]
  {
    if i == 0 {
      if !flags[0] {
        assert ys[0] !in ys[1..];
        SelectSubset(flags[1..], ys[1..]);
      }
    } else {
      SelectMembership(flags[1..], ys[1..], i - 1);
      assert ys[i] != ys[0];
    }
  }

  lemma {:induction false} SelectSubset<T>(flags: seq<bool>, ys: seq<T>)
    requires |flags| == |ys|
    ensures forall x :: x in Select(flags, ys) ==> x in ys
  {
    if |ys| > 0 {
      SelectSubset(flags[1..], ys[1..]);
    }
  }

  /** Selecting from a list without duplicates gives a list without duplicates. */
  lemma {:induction false} SelectNoDuplicates<T>(flags: seq<bool>, ys: seq<T>)
    requires |flags| == |ys| && NoDuplicates(ys)
    ensures NoDuplicates(Select(flags, ys))
  {
    if |ys| > 0 {
      SelectNoDuplicates(flags[1..], ys[1..]);
      SelectSubset(flags[1..], ys[1..]);
      assert ys[0] !in ys[1..];
    }
  }
}
