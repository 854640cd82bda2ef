// Shared vocabulary of the RedXe model: results, options, and three operations on sequences.
module Basics {

  /** An opaque COM identity: a unit of work submitted to a lane. */
  type Work = nat

  datatype Option<+T> = None | Some(value: T)

  /** A Win32 RECT: half-open, in pixels. */
  datatype Rect = Rect(left: int, top: int, right: int, bottom: int)
  {
    predicate Ordered() { left <= right && top <= bottom }
    predicate Inside(outer: Rect) {
      outer.left <= left <= right <= outer.right && outer.top <= top <= bottom <= outer.bottom
    }
    predicate Contains(x: int, y: int) { left <= x < right && top <= y < bottom }
    function Transposed(): (r: Rect) { Rect(top, left, bottom, right) }
  }

  /** The HRESULT values the modelled code tells apart; `Failed` stands for any other failure. */
  datatype HResult =
    | Ok
    | False
    | Pointer
    | Unexpected
    | InvalidArg
    | Overflow
    | NotFound
    | Busy
    | Timeout
    | OutOfMemory
    | Failed(code: nat)
  {
    predicate Succeeded() { Ok? || False? }
  }

  /** Index of the first element satisfying `p`, or `|s|`: the result of a search loop over `s`. */
  function First<T>(s: seq<T>, p: T -> bool): (i: nat)
    ensures i <= |s|
    ensures i < |s| ==> p(s[i])
    ensures forall j :: 0 <= j < i ==> !p(s[j])
  {
    if s == [] || p(s[0]) then 0 else
    var i := First(s[1..], p);
    assert forall j :: 0 < j < i + 1 ==> s[j] == s[1..][j - 1];
    i + 1
  }

  lemma FirstIs<T>(s: seq<T>, p: T -> bool, i: nat)
    requires i < |s| ==> p(s[i])
    requires i <= |s| && forall j :: 0 <= j < i ==> !p(s[j])
    ensures First(s, p) == i
  {
  }

  /** The elements satisfying `p`, in order. */
  function Filter<T>(s: seq<T>, p: T -> bool): (r: seq<T>)
    ensures |r| <= |s|
  {
    if s == [] then [] else
    (if p(s[0]) then [s[0]] else []) + Filter(s[1..], p)
  }

  lemma {:induction false} FilterMembers<T>(s: seq<T>, p: T -> bool)
    ensures forall x :: x in Filter(s, p) <==> x in s && p(x)
  {
    if s != [] {
      FilterMembers(s[1..], p);
      assert s == [s[0]] + s[1..];
    }
  }

  lemma {:induction false} FilterSnoc<T>(s: seq<T>, x: T, p: T -> bool)
    ensures Filter(s + [x], p) == Filter(s, p) + if p(x) then [x] else []
  {
    if s == [] {
      assert s + [x] == [x];
    } else {
      FilterSnoc(s[1..], x, p);
      assert (s + [x])[1..] == s[1..] + [x];
    }
  }

  /** The total weight of a sequence; a count is the sum of a 0/1 weight. */
  function Sum<T>(s: seq<T>, f: T -> nat): (n: nat)
  {
    if s == [] then 0 else f(s[0]) + Sum(s[1..], f)
  }

  lemma {:induction false} SumUpdate<T>(s: seq<T>, i: nat, v: T, f: T -> nat)
    requires i < |s|
    ensures Sum(s[i := v], f) + f(s[i]) == Sum(s, f) + f(v)
  {
    if i == 0 {
      assert s[0 := v][1..] == s[1..];
    } else {
      SumUpdate(s[1..], i - 1, v, f);
      assert s[i := v][1..] == s[1..][i - 1 := v];
    }
  }

  lemma {:induction false} SumAtLeast<T>(s: seq<T>, i: nat, f: T -> nat)
    requires i < |s|
    ensures f(s[i]) <= Sum(s, f)
  {
    if i > 0 {
      SumAtLeast(s[1..], i - 1, f);
    }
  }

  lemma {:induction false} SumZero<T>(s: seq<T>, f: T -> nat)
    requires forall i :: 0 <= i < |s| ==> f(s[i]) == 0
    ensures Sum(s, f) == 0
  {
    if s != [] {
      forall i | 0 <= i < |s[1..]|
        ensures f(s[1..][i]) == 0
      {
        assert s[1..][i] == s[i + 1];
      }
      SumZero(s[1..], f);
    }
  }

  lemma {:induction false} SumConcat<T>(a: seq<T>, b: seq<T>, f: T -> nat)
    ensures Sum(a + b, f) == Sum(a, f) + Sum(b, f)
  {
    if a == [] {
      assert a + b == b;
    } else {
      SumConcat(a[1..], b, f);
      assert (a + b)[1..] == a[1..] + b;
    }
  }

  // Division and monotonicity

  lemma MulMonotone(a: nat, b: nat, c: nat)
    requires a <= b
    ensures c * a <= c * b
  {
    assert c * b - c * a == c * (b - a);
  }

  /** Division with remainder is unique. */
  lemma QuotientIs(x: nat, d: nat, q: nat)
    requires 0 < d && d * q <= x < d * q + d
    ensures x / d == q
  {
    var p := x / d;
    assert d * (q + 1) == d * q + d && d * (p + 1) == d * p + d;
    if p < q {
      MulMonotone(p + 1, q, d);
    }
    if q < p {
      MulMonotone(q + 1, p, d);
    }
  }

  lemma DivMonotone(x: nat, y: nat, d: nat)
    requires d > 0 && x <= y
    ensures x / d <= y / d
  {
    var p, q := x / d, y / d;
    assert d * (q + 1) == d * q + d;
    if q < p {
      MulMonotone(q + 1, p, d);
    }
  }
}
