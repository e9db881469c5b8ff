/**
 Real-valued helpers shared by the detector, the classifier and the measurement code:
 Python's two-argument `min`/`max`, clamping, and numpy's `max`/`argmax` over a vector.
 */
module Vectors {

  function Min(a: real, b: real): real { if b < a then b else a }

  function Max(a: real, b: real): real { if b > a then b else a }

  function Abs(x: real): (r: real)
    ensures r >= 0.0
    ensures r == x || r == -x
  {
    if x < 0.0 then -x else x
  }

  /** `max(lo, min(v, hi))`, the clamping idiom of the source. */
  function Clamp(v: real, lo: real, hi: real): (r: real)
    ensures lo <= hi ==> lo <= r <= hi
    ensures lo <= v <= hi ==> r == v
    ensures v < lo ==> r == lo
    ensures lo <= hi && hi < v ==> r == hi
  {
    Max(lo, Min(v, hi))
  }

  lemma ClampMonotone(v: real, w: real, lo: real, hi: real)
    requires v <= w
    ensures Clamp(v, lo, hi) <= Clamp(w, lo, hi)
  {
  }

  /** True when `x` lies between `a` and `b`, in either order. */
  predicate Between(x: real, a: real, b: real) {
    Min(a, b) <= x <= Max(a, b)
  }

  /**
   numpy's `argmax` on a non-empty vector: an index of a maximal entry, and the FIRST such
   index when the maximum occurs more than once.
   */
  function ArgMax(s: seq<real>): (k: nat)
    requires |s| > 0
    ensures k < |s|
    ensures forall j :: 0 <= j < |s| ==> s[j] <= s[k]
    ensures forall j :: 0 <= j < k ==> s[j] < s[k]
    decreases |s|
  {
    if |s| == 1 then 0
    else
      var k := ArgMax(s[..|s| - 1]);
      if s[|s| - 1] > s[k] then |s| - 1 else k
  }

  /** numpy's `max` on a non-empty vector. */
  function MaxOf(s: seq<real>): (m: real)
    requires |s| > 0
    ensures m in s
    ensures forall j :: 0 <= j < |s| ==> s[j] <= m
  {
    s[ArgMax(s)]
  }

  /** The maximum is attained at the first-occurrence argmax, and nowhere earlier. */
  lemma ArgMaxIsFirstMaximum(s: seq<real>, j: nat)
    requires j < |s| && s[j] == MaxOf(s)
    ensures ArgMax(s) <= j
  {
  }
}
