/**
 Greedy non-maximum suppression over boxes visited in descending score order: take the
 best remaining box, keep it, and drop every remaining box that overlaps it too much.
 */
module Nms {
  import opened Geometry

  /** Every entry of `o` is an index into a list of length `n`. */
  predicate Indices(o: seq<nat>, n: nat) {
    forall k :: 0 <= k < |o| ==> o[k] < n
  }

  predicate Distinct(o: seq<nat>) {
    forall a, b :: 0 <= a < b < |o| ==> o[a] != o[b]
  }

  /** The indices of `o` are visited in non-increasing score order. */
  predicate SortedByScore(o: seq<nat>, scores: seq<real>)
    requires Indices(o, |scores|)
  {
    forall a, b :: 0 <= a < b < |o| ==> scores[o[a]] >= scores[o[b]]
  }

  /**
   What `scores.argsort()[::-1]` produces: every index exactly once, highest score first.
   numpy does not fix the order among equal scores, so any such order is admitted.
   */
  predicate IsScoreOrder(o: seq<nat>, scores: seq<real>) {
    && Indices(o, |scores|)
    && Distinct(o)
    && SortedByScore(o, scores)
    && forall j :: 0 <= j < |scores| ==> j in o
  }

  /** Inserts index `i` into a score-sorted list, before the first lower-scored entry. */
  function InsertByScore(scores: seq<real>, i: nat, o: seq<nat>): (r: seq<nat>)
    requires i < |scores| && Indices(o, |scores|) && SortedByScore(o, scores)
    ensures |r| == |o| + 1
    ensures Indices(r, |scores|) && SortedByScore(r, scores)
    ensures forall x :: x in r <==> x == i || x in o
    decreases |o|
  {
    if |o| == 0 then [i]
    else if scores[i] >= scores[o[0]] then [i] + o
    else
      var t := InsertByScore(scores, i, o[1..]);
      forall b | 0 <= b < |t|
        ensures scores[o[0]] >= scores[t[b]]
      {
        assert t[b] in t;
        if t[b] != i {
          var a :| 0 <= a < |o[1..]| && o[1..][a] == t[b];
          assert o[a + 1] == t[b];
        }
      }
      [o[0]] + t
  }

  /** Inserting a new index into a list without repeats gives a list without repeats. */
  lemma {:induction false} InsertByScoreDistinct(scores: seq<real>, i: nat, o: seq<nat>)
    requires i < |scores| && Indices(o, |scores|) && SortedByScore(o, scores)
    requires Distinct(o) && i !in o
    ensures Distinct(InsertByScore(scores, i, o))
    decreases |o|
  {
    if |o| > 0 && scores[i] < scores[o[0]] {
      assert Distinct(o[1..]) && o[0] !in o[1..];
      InsertByScoreDistinct(scores, i, o[1..]);
    }
  }

  /** Insertion sort of the first `m` indices by descending score. */
  function SortPrefix(scores: seq<real>, m: nat): (r: seq<nat>)
    requires m <= |scores|
    ensures Indices(r, |scores|) && SortedByScore(r, scores) && Distinct(r)
    ensures forall x: nat :: x in r <==> x < m
    decreases m
  {
    if m == 0 then []
    else
      var o := SortPrefix(scores, m - 1);
      var r := InsertByScore(scores, m - 1, o);
      InsertByScoreDistinct(scores, m - 1, o);
      assert forall x: nat :: x in r <==> x == m - 1 || x < m - 1;
      r
  }

  /** One concrete descending-score order of all indices. */
  function ByScore(scores: seq<real>): (r: seq<nat>)
    ensures IsScoreOrder(r, scores)
  {
    SortPrefix(scores, |scores|)
  }

  /**
   The boxes of `rest` that survive comparison with the kept box `i`, in their original
   order: `order[1:][iou <= threshold]`.
   */
  function Survivors(boxes: seq<Box>, pass: (Box, Box) -> bool, i: nat, rest: seq<nat>): (r: seq<nat>)
    requires i < |boxes| && Indices(rest, |boxes|)
    ensures |r| <= |rest|
    ensures Indices(r, |boxes|)
    decreases |rest|
  {
    if |rest| == 0 then []
    else
      var tail := Survivors(boxes, pass, i, rest[1..]);
      if pass(boxes[i], boxes[rest[0]]) then [rest[0]] + tail else tail
  }

  /** The survivors are exactly the entries of `rest` that pass against `i`, without repeats. */
  lemma {:induction false} SurvivorsMembers(boxes: seq<Box>, pass: (Box, Box) -> bool, i: nat, rest: seq<nat>)
    requires i < |boxes| && Indices(rest, |boxes|)
    ensures forall k :: k in Survivors(boxes, pass, i, rest) <==> k in rest && pass(boxes[i], boxes[k])
    ensures Distinct(rest) ==> Distinct(Survivors(boxes, pass, i, rest))
    decreases |rest|
  {
    if |rest| > 0 {
      SurvivorsMembers(boxes, pass, i, rest[1..]);
      assert forall k :: k in rest <==> k == rest[0] || k in rest[1..];
      if Distinct(rest) {
        assert Distinct(rest[1..]);
        assert rest[0] !in rest[1..];
      }
    }
  }

  /**
   The `while order.size > 0` loop: the head of `order` is kept and the loop continues on
   its survivors. `order` strictly shrinks each round, which is the termination argument.
   */
  function Suppress(boxes: seq<Box>, pass: (Box, Box) -> bool, order: seq<nat>): (keep: seq<nat>)
    requires Indices(order, |boxes|)
    ensures Indices(keep, |boxes|)
    ensures |order| > 0 ==> |keep| > 0 && keep[0] == order[0]
    decreases |order|
  {
    if |order| == 0 then []
    else
      var rest := Survivors(boxes, pass, order[0], order[1..]);
      [order[0]] + Suppress(boxes, pass, rest)
  }

  /** Every kept index comes from `order`, and kept indices do not repeat when `order` does not. */
  lemma {:induction false} SuppressMembers(boxes: seq<Box>, pass: (Box, Box) -> bool, order: seq<nat>)
    requires Indices(order, |boxes|)
    ensures forall k :: k in Suppress(boxes, pass, order) ==> k in order
    ensures Distinct(order) ==> Distinct(Suppress(boxes, pass, order))
    decreases |order|
  {
    if |order| > 0 {
      var rest := Survivors(boxes, pass, order[0], order[1..]);
      var tail := Suppress(boxes, pass, rest);
      SurvivorsMembers(boxes, pass, order[0], order[1..]);
      SuppressMembers(boxes, pass, rest);
      assert Suppress(boxes, pass, order) == [order[0]] + tail;
      if Distinct(order) {
        assert Distinct(order[1..]);
        assert order[0] !in order[1..];
        assert order[0] !in tail;
      }
    }
  }

  /** Every earlier kept box passes the test against every later one. */
  predicate PairwisePass(boxes: seq<Box>, pass: (Box, Box) -> bool, keep: seq<nat>)
    requires Indices(keep, |boxes|)
  {
    forall a, b :: 0 <= a < b < |keep| ==> pass(boxes[keep[a]], boxes[keep[b]])
  }

  /** Any two kept boxes pass the overlap test, the earlier one against the later one. */
  lemma {:induction false} SuppressPairwise(boxes: seq<Box>, pass: (Box, Box) -> bool, order: seq<nat>)
    requires Indices(order, |boxes|)
    ensures PairwisePass(boxes, pass, Suppress(boxes, pass, order))
    decreases |order|
  {
    if |order| > 0 {
      var rest := Survivors(boxes, pass, order[0], order[1..]);
      var tail := Suppress(boxes, pass, rest);
      var keep := [order[0]] + tail;
      assert keep == Suppress(boxes, pass, order);
      assert PairwisePass(boxes, pass, tail) by {
        SuppressPairwise(boxes, pass, rest);
      }
      assert forall b :: 0 <= b < |tail| ==> pass(boxes[order[0]], boxes[tail[b]]) by {
        SuppressMembers(boxes, pass, rest);
        SurvivorsMembers(boxes, pass, order[0], order[1..]);
        forall b | 0 <= b < |tail|
          ensures pass(boxes[order[0]], boxes[tail[b]])
        {
          assert tail[b] in rest;
        }
      }
      forall a, b | 0 <= a < b < |keep|
        ensures pass(boxes[keep[a]], boxes[keep[b]])
      {
        assert keep[b] == tail[b - 1];
        if a > 0 {
          assert keep[a] == tail[a - 1];
        }
      }
    }
  }

  lemma {:induction false} SurvivorsSorted(boxes: seq<Box>, scores: seq<real>, pass: (Box, Box) -> bool, i: nat, rest: seq<nat>)
    requires i < |boxes| && |scores| == |boxes| && Indices(rest, |boxes|)
    requires SortedByScore(rest, scores)
    ensures SortedByScore(Survivors(boxes, pass, i, rest), scores)
    decreases |rest|
  {
    if |rest| > 0 {
      SurvivorsSorted(boxes, scores, pass, i, rest[1..]);
      var tail := Survivors(boxes, pass, i, rest[1..]);
      assert forall b :: 0 <= b < |tail| ==> scores[rest[0]] >= scores[tail[b]] by {
        SurvivorsMembers(boxes, pass, i, rest[1..]);
        forall b | 0 <= b < |tail|
          ensures scores[rest[0]] >= scores[tail[b]]
        {
          assert tail[b] in rest[1..];
        }
      }
    }
  }

  /** Kept indices come out in non-increasing score order. */
  lemma {:induction false} SuppressSorted(boxes: seq<Box>, scores: seq<real>, pass: (Box, Box) -> bool, order: seq<nat>)
    requires |scores| == |boxes| && Indices(order, |boxes|)
    requires SortedByScore(order, scores)
    ensures SortedByScore(Suppress(boxes, pass, order), scores)
    decreases |order|
  {
    if |order| > 0 {
      var rest := Survivors(boxes, pass, order[0], order[1..]);
      var tail := Suppress(boxes, pass, rest);
      assert SortedByScore(tail, scores) by {
        SurvivorsSorted(boxes, scores, pass, order[0], order[1..]);
        SuppressSorted(boxes, scores, pass, rest);
      }
      assert forall b :: 0 <= b < |tail| ==> scores[order[0]] >= scores[tail[b]] by {
        SurvivorsMembers(boxes, pass, order[0], order[1..]);
        SuppressMembers(boxes, pass, rest);
        forall b | 0 <= b < |tail|
          ensures scores[order[0]] >= scores[tail[b]]
        {
          assert tail[b] in order[1..];
        }
      }
      assert Suppress(boxes, pass, order) == [order[0]] + tail;
    }
  }

  /** `a` is a kept index that suppressed `j` and scores at least as high. */
  predicate SuppressedBy(boxes: seq<Box>, scores: seq<real>, keep: seq<nat>, pass: (Box, Box) -> bool, j: nat)
    requires |scores| == |boxes| && Indices(keep, |boxes|) && j < |boxes|
  {
    exists a :: 0 <= a < |keep| && !pass(boxes[keep[a]], boxes[j]) && scores[keep[a]] >= scores[j]
  }

  /**
   Every visited box that is not kept was suppressed by a kept box that came earlier in
   the order, hence one whose score is at least its own.
   */
  lemma {:induction false} SuppressCovers(boxes: seq<Box>, scores: seq<real>, pass: (Box, Box) -> bool, order: seq<nat>, j: nat)
    requires |scores| == |boxes| && Indices(order, |boxes|)
    requires SortedByScore(order, scores)
    requires j in order && j !in Suppress(boxes, pass, order)
    ensures j < |boxes| && SuppressedBy(boxes, scores, Suppress(boxes, pass, order), pass, j)
    decreases |order|
  {
    var rest := Survivors(boxes, pass, order[0], order[1..]);
    var tail := Suppress(boxes, pass, rest);
    var keep := [order[0]] + tail;
    assert keep == Suppress(boxes, pass, order);
    var b :| 0 <= b < |order| && order[b] == j;
    assert b > 0 by {
      assert keep[0] == order[0];
    }
    if pass(boxes[order[0]], boxes[j]) {
      assert SuppressedBy(boxes, scores, tail, pass, j) by {
        assert j in rest by {
          assert order[1..][b - 1] == j;
          SurvivorsMembers(boxes, pass, order[0], order[1..]);
        }
        assert j !in tail;
        SurvivorsSorted(boxes, scores, pass, order[0], order[1..]);
        SuppressCovers(boxes, scores, pass, rest, j);
      }
      var a :| 0 <= a < |tail| && !pass(boxes[tail[a]], boxes[j]) && scores[tail[a]] >= scores[j];
      assert keep[a + 1] == tail[a];
    } else {
      assert keep[0] == order[0] && scores[order[0]] >= scores[j];
    }
  }

  /** The source's keep test for a fixed IoU threshold. */
  function IoUTest(threshold: real): (pass: (Box, Box) -> bool)
    ensures forall a, b :: pass(a, b) == Survives(a, b, threshold)
  {
    (a: Box, b: Box) => Survives(a, b, threshold)
  }

  /**
   `_apply_nms`: empty input gives no indices; otherwise the kept indices are distinct
   input indices in non-increasing score order, the first has the highest score, every two
   kept boxes pass the overlap test against each other, and every dropped box was
   suppressed by a kept box scoring at least as high.
   */
  function ApplyNms(boxes: seq<Box>, scores: seq<real>, order: seq<nat>, threshold: real): (keep: seq<nat>)
    requires |scores| == |boxes| && IsScoreOrder(order, scores)
    ensures |boxes| == 0 ==> keep == []
    ensures Indices(keep, |boxes|) && Distinct(keep)
    ensures SortedByScore(keep, scores)
    ensures |boxes| > 0 ==> |keep| > 0 && forall j :: 0 <= j < |scores| ==> scores[j] <= scores[keep[0]]
    ensures PairwisePass(boxes, IoUTest(threshold), keep)
    ensures forall j :: 0 <= j < |boxes| && j !in keep ==> SuppressedBy(boxes, scores, keep, IoUTest(threshold), j)
  {
    if |boxes| == 0 then []
    else
      var pass := IoUTest(threshold);
      var keep := Suppress(boxes, pass, order);
      SuppressMembers(boxes, pass, order);
      SuppressSorted(boxes, scores, pass, order);
      SuppressPairwise(boxes, pass, order);
      assert forall j :: 0 <= j < |boxes| && j !in keep ==> SuppressedBy(boxes, scores, keep, pass, j) by {
        forall j | 0 <= j < |boxes| && j !in keep
          ensures SuppressedBy(boxes, scores, keep, pass, j)
        {
          SuppressCovers(boxes, scores, pass, order, j);
        }
      }
      assert 0 in order;
      forall j | 0 <= j < |scores|
        ensures scores[j] <= scores[order[0]]
      {
        assert j in order;
        var at :| 0 <= at < |order| && order[at] == j;
        if at > 0 {
          assert scores[order[0]] >= scores[order[at]];
        }
      }
      keep
  }
}
