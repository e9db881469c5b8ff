/**
 `get_stats`: `SELECT road_class, COUNT(*), AVG(confidence), AVG(width_cm), AVG(depth_cm)
 ... GROUP BY road_class`. The aggregates are accumulated row by row in id order; `AVG`
 skips NULLs and is NULL when every value of the group is NULL.
 */
module Stats {
  import opened Optional
  import opened Tally
  import opened Ledger

  /** Running aggregates of one group. */
  datatype Acc = Acc(count: nat, confSum: real, widthSum: real, widthN: nat, depthSum: real, depthN: nat)

  /** One entry of the returned dictionary. */
  datatype ClassStats = ClassStats(count: nat, avgConfidence: real, avgWidth: Option<real>, avgDepth: Option<real>)

  const NoRows := Acc(0, 0.0, 0.0, 0, 0.0, 0)

  /** Rows whose confidence is a probability. */
  predicate ConfidencesInUnit(rows: map<nat, Row>) {
    forall id :: id in rows ==> 0.0 <= rows[id].confidence <= 1.0
  }

  /** What a group counts: all its rows, or those with a non-NULL width or depth. */
  datatype Column = AnyColumn | WidthColumn | DepthColumn

  predicate Filled(r: Row, col: Column) {
    match col
    case AnyColumn => true
    case WidthColumn => r.widthCm.Some?
    case DepthColumn => r.depthCm.Some?
  }

  /** The number of rows of a group that `col` counts. */
  function Counted(a: Acc, col: Column): nat {
    match col
    case AnyColumn => a.count
    case WidthColumn => a.widthN
    case DepthColumn => a.depthN
  }

  predicate Listed(rows: map<nat, Row>, ids: seq<nat>) {
    forall i :: 0 <= i < |ids| ==> ids[i] in rows
  }

  /** Some row listed in `ids` belongs to group `c` and is counted by `col`. */
  ghost predicate Occurs(rows: map<nat, Row>, ids: seq<nat>, c: string, col: Column)
    requires Listed(rows, ids)
  {
    exists i :: 0 <= i < |ids| && rows[ids[i]].roadClass == c && Filled(rows[ids[i]], col)
  }

  lemma OccursSnoc(rows: map<nat, Row>, ids: seq<nat>, c: string, col: Column)
    requires Listed(rows, ids) && |ids| > 0
    ensures var r := rows[ids[|ids| - 1]];
      Occurs(rows, ids, c, col) <==> Occurs(rows, ids[..|ids| - 1], c, col) || (r.roadClass == c && Filled(r, col))
  {
    var init := ids[..|ids| - 1];
    if Occurs(rows, ids, c, col) {
      var i :| 0 <= i < |ids| && rows[ids[i]].roadClass == c && Filled(rows[ids[i]], col);
      if i < |init| { assert init[i] == ids[i]; }
    }
    if Occurs(rows, init, c, col) {
      var i :| 0 <= i < |init| && rows[init[i]].roadClass == c && Filled(rows[init[i]], col);
      assert ids[i] == init[i];
    }
  }

  /** Folding one row into its group's aggregates. */
  function Add(a: Acc, r: Row): (b: Acc)
    ensures forall col :: Counted(b, col) == Counted(a, col) + (if Filled(r, col) then 1 else 0)
  {
    Acc(a.count + 1,
        a.confSum + r.confidence,
        a.widthSum + r.widthCm.GetOr(0.0), a.widthN + (if r.widthCm.Some? then 1 else 0),
        a.depthSum + r.depthCm.GetOr(0.0), a.depthN + (if r.depthCm.Some? then 1 else 0))
  }

  ghost function CountsOf(acc: map<string, Acc>): map<string, nat> {
    map c | c in acc :: acc[c].count
  }

  /** `acc` with the row `r` folded into its group. */
  function AddRow(acc: map<string, Acc>, r: Row): map<string, Acc> {
    acc[r.roadClass := Add(if r.roadClass in acc then acc[r.roadClass] else NoRows, r)]
  }

  /** A group is present exactly when some row of it is counted, and the counters say how many. */
  ghost predicate GroupsMatch(rows: map<nat, Row>, ids: seq<nat>, acc: map<string, Acc>)
    requires Listed(rows, ids)
  {
    && (forall c :: c in acc <==> Occurs(rows, ids, c, AnyColumn))
    && (forall c, col :: c in acc ==> (Counted(acc[c], col) > 0 <==> Occurs(rows, ids, c, col)))
  }

  predicate ConfidenceSumsBounded(acc: map<string, Acc>) {
    forall c :: c in acc ==> 0.0 <= acc[c].confSum <= acc[c].count as real
  }

  /**
   The aggregates of the rows listed in `ids`: every group counts at least one row, the
   counts add up to the number of rows, and with probabilities as confidences each
   confidence sum stays between 0 and the group's count.
   */
  function Accumulate(rows: map<nat, Row>, ids: seq<nat>): (acc: map<string, Acc>)
    requires Listed(rows, ids)
    ensures forall c :: c in acc ==> acc[c].count > 0
    ensures ConfidencesInUnit(rows) ==> ConfidenceSumsBounded(acc)
    ensures SumCounts(CountsOf(acc)) == |ids|
    decreases |ids|
  {
    if |ids| == 0 then map[]
    else
      var init := ids[..|ids| - 1];
      var prev := Accumulate(rows, init);
      var r := rows[ids[|ids| - 1]];
      var acc := AddRow(prev, r);
      ConfidenceStep(prev, r);
      assert CountsOf(acc) == Bump(CountsOf(prev), r.roadClass);
      SumCountsBump(CountsOf(prev), r.roadClass);
      acc
  }

  /**
   A group exists exactly for the classes that occur among the rows, and its width (depth)
   counter is zero exactly when none of its rows has a width (depth).
   */
  lemma {:induction false} AccumulateGroups(rows: map<nat, Row>, ids: seq<nat>)
    requires Listed(rows, ids)
    ensures GroupsMatch(rows, ids, Accumulate(rows, ids))
    decreases |ids|
  {
    if |ids| > 0 {
      AccumulateGroups(rows, ids[..|ids| - 1]);
      GroupsStep(rows, ids, Accumulate(rows, ids[..|ids| - 1]));
    }
  }

  lemma GroupsStep(rows: map<nat, Row>, ids: seq<nat>, prev: map<string, Acc>)
    requires Listed(rows, ids) && |ids| > 0
    requires GroupsMatch(rows, ids[..|ids| - 1], prev)
    ensures GroupsMatch(rows, ids, AddRow(prev, rows[ids[|ids| - 1]]))
  {
    var r := rows[ids[|ids| - 1]];
    var acc := AddRow(prev, r);
    forall c, col
      ensures c in acc <==> Occurs(rows, ids, c, AnyColumn)
      ensures c in acc ==> (Counted(acc[c], col) > 0 <==> Occurs(rows, ids, c, col))
    {
      OccursSnoc(rows, ids, c, col);
      OccursSnoc(rows, ids, c, AnyColumn);
    }
  }

  lemma ConfidenceStep(prev: map<string, Acc>, r: Row)
    ensures ConfidenceSumsBounded(prev) && 0.0 <= r.confidence <= 1.0 ==> ConfidenceSumsBounded(AddRow(prev, r))
  {
  }

  /** An average of values in [0, 1] is in [0, 1]. */
  lemma MeanInUnit(sum: real, n: nat)
    requires n > 0 && 0.0 <= sum <= n as real
    ensures 0.0 <= sum / n as real <= 1.0
  {
    assert sum / n as real * n as real == sum;
  }

  /** SQL `AVG` over the non-NULL values: NULL when there are none. */
  function Mean(sum: real, n: nat): (m: Option<real>)
    ensures m.None? <==> n == 0
  {
    if n == 0 then None else Some(sum / n as real)
  }

  function Finish(a: Acc): ClassStats
    requires a.count > 0
  {
    ClassStats(a.count, a.confSum / a.count as real, Mean(a.widthSum, a.widthN), Mean(a.depthSum, a.depthN))
  }

  ghost function StatCounts(s: map<string, ClassStats>): map<string, nat> {
    map c | c in s :: s[c].count
  }

  /** Some row of the ledger belongs to group `c` and is counted by `col`. */
  ghost predicate ClassHas(l: Ledger, c: string, col: Column) {
    exists id :: id in l.rows && l.rows[id].roadClass == c && Filled(l.rows[id], col)
  }

  /** Listing every id of a valid ledger loses no group and invents none. */
  lemma OccursInLedger(l: Ledger, c: string, col: Column)
    requires Valid(l)
    ensures Occurs(l.rows, OrderedIds(l, false), c, col) <==> ClassHas(l, c, col)
  {
    var ids := OrderedIds(l, false);
    if ClassHas(l, c, col) {
      var id :| id in l.rows && l.rows[id].roadClass == c && Filled(l.rows[id], col);
      assert id in Elems(ids);
      var i :| 0 <= i < |ids| && ids[i] == id;
    }
  }

  /**
   `get_stats`: one entry per class that occurs in the table, and the per-class counts add
   up to `get_total_count`.
   */
  function GetStats(l: Ledger): (s: map<string, ClassStats>)
    requires Valid(l)
    ensures forall c :: c in s <==> ClassHas(l, c, AnyColumn)
    ensures SumCounts(StatCounts(s)) == TotalCount(l)
  {
    var ids := OrderedIds(l, false);
    AscendingCard(ids);
    var acc := Accumulate(l.rows, ids);
    var s := FinishAll(acc);
    assert StatCounts(s) == CountsOf(acc);
    AccumulateGroups(l.rows, ids);
    forall c
      ensures Occurs(l.rows, ids, c, AnyColumn) <==> ClassHas(l, c, AnyColumn)
    {
      OccursInLedger(l, c, AnyColumn);
    }
    s
  }

  /** The dictionary is the finished aggregates of every row in id order. */
  lemma GetStatsFinishes(l: Ledger)
    requires Valid(l)
    ensures GetStats(l) == FinishAll(Accumulate(l.rows, OrderedIds(l, false)))
  {
  }

  /** A group's counter for `col` is positive exactly when some row of the class is counted by `col`. */
  lemma GroupCounted(l: Ledger, c: string, col: Column)
    requires Valid(l) && c in Accumulate(l.rows, OrderedIds(l, false))
    ensures Counted(Accumulate(l.rows, OrderedIds(l, false))[c], col) > 0 <==> ClassHas(l, c, col)
  {
    AccumulateGroups(l.rows, OrderedIds(l, false));
    OccursInLedger(l, c, col);
  }

  /** A class with a row in the ledger has a group, both before and after finishing. */
  lemma GroupOfClass(l: Ledger, c: string)
    requires Valid(l) && ClassHas(l, c, AnyColumn)
    ensures c in Accumulate(l.rows, OrderedIds(l, false))
    ensures c in GetStats(l)
  {
    GetStatsFinishes(l);
  }

  /** A group's average width or depth is NULL exactly when the group counted no such value. */
  lemma GroupAverages(l: Ledger, c: string)
    requires Valid(l) && c in Accumulate(l.rows, OrderedIds(l, false))
    ensures c in GetStats(l)
    ensures var a := Accumulate(l.rows, OrderedIds(l, false))[c];
      && (GetStats(l)[c].avgWidth.None? <==> Counted(a, WidthColumn) == 0)
      && (GetStats(l)[c].avgDepth.None? <==> Counted(a, DepthColumn) == 0)
  {
    GetStatsFinishes(l);
  }

  /** An average width is NULL exactly when no row of the class has a width. */
  lemma StatsNullWidth(l: Ledger, c: string)
    requires Valid(l) && ClassHas(l, c, AnyColumn)
    ensures c in GetStats(l) && (GetStats(l)[c].avgWidth.None? <==> !ClassHas(l, c, WidthColumn))
  {
    GroupOfClass(l, c);
    GroupAverages(l, c);
    GroupCounted(l, c, WidthColumn);
  }

  /** An average depth is NULL exactly when no row of the class has a depth. */
  lemma StatsNullDepth(l: Ledger, c: string)
    requires Valid(l) && ClassHas(l, c, AnyColumn)
    ensures c in GetStats(l) && (GetStats(l)[c].avgDepth.None? <==> !ClassHas(l, c, DepthColumn))
  {
    GroupOfClass(l, c);
    GroupAverages(l, c);
    GroupCounted(l, c, DepthColumn);
  }

  /** When every confidence is a probability, so is every class's average confidence. */
  lemma StatsConfidenceInUnit(l: Ledger, c: string)
    requires Valid(l) && ConfidencesInUnit(l.rows) && ClassHas(l, c, AnyColumn)
    ensures c in GetStats(l) && 0.0 <= GetStats(l)[c].avgConfidence <= 1.0
  {
    GroupOfClass(l, c);
    GetStatsFinishes(l);
  }

  /**
   The value `AVG` reads from a row for `col`: its confidence for the group as a whole,
   its width or depth (NULL counted as nothing) for those columns.
   */
  function Value(r: Row, col: Column): real {
    match col
    case AnyColumn => r.confidence
    case WidthColumn => r.widthCm.GetOr(0.0)
    case DepthColumn => r.depthCm.GetOr(0.0)
  }

  /** How many of the listed rows are of class `c` and counted by `col`. */
  function ClassCount(rows: map<nat, Row>, ids: seq<nat>, c: string, col: Column): nat
    requires Listed(rows, ids)
    decreases |ids|
  {
    if |ids| == 0 then 0
    else
      var r := rows[ids[|ids| - 1]];
      ClassCount(rows, ids[..|ids| - 1], c, col) + (if r.roadClass == c && Filled(r, col) then 1 else 0)
  }

  /** The sum of `col`'s values over the listed rows of class `c` that `col` counts. */
  function ClassSum(rows: map<nat, Row>, ids: seq<nat>, c: string, col: Column): real
    requires Listed(rows, ids)
    decreases |ids|
  {
    if |ids| == 0 then 0.0
    else
      var r := rows[ids[|ids| - 1]];
      ClassSum(rows, ids[..|ids| - 1], c, col) + (if r.roadClass == c && Filled(r, col) then Value(r, col) else 0.0)
  }

  /** The group of `c` holds, per column, the count and the sum of that class's rows. */
  predicate GroupIs(a: Acc, rows: map<nat, Row>, ids: seq<nat>, c: string)
    requires Listed(rows, ids)
  {
    && a.count == ClassCount(rows, ids, c, AnyColumn) && a.confSum == ClassSum(rows, ids, c, AnyColumn)
    && a.widthN == ClassCount(rows, ids, c, WidthColumn) && a.widthSum == ClassSum(rows, ids, c, WidthColumn)
    && a.depthN == ClassCount(rows, ids, c, DepthColumn) && a.depthSum == ClassSum(rows, ids, c, DepthColumn)
  }

  /**
   Each group's running aggregates are that class's count and sums over the listed rows,
   and a class with no group has no listed row.
   */
  lemma {:induction false} AccumulateSums(rows: map<nat, Row>, ids: seq<nat>, c: string)
    requires Listed(rows, ids)
    ensures c in Accumulate(rows, ids) ==> GroupIs(Accumulate(rows, ids)[c], rows, ids, c)
    ensures c !in Accumulate(rows, ids) ==> ClassCount(rows, ids, c, AnyColumn) == 0
    decreases |ids|
  {
    if |ids| > 0 {
      var init := ids[..|ids| - 1];
      AccumulateSums(rows, init, c);
      var prev := Accumulate(rows, init);
      var r := rows[ids[|ids| - 1]];
      assert Accumulate(rows, ids) == AddRow(prev, r);
      if r.roadClass == c && c !in prev {
        assert ClassCount(rows, init, c, WidthColumn) == 0 && ClassCount(rows, init, c, DepthColumn) == 0 by {
          ClassCountBelowAll(rows, init, c, WidthColumn);
          ClassCountBelowAll(rows, init, c, DepthColumn);
        }
        ClassSumZero(rows, init, c, AnyColumn);
        ClassSumZero(rows, init, c, WidthColumn);
        ClassSumZero(rows, init, c, DepthColumn);
      }
    }
  }

  /** A column never counts more rows of a class than the class has. */
  lemma {:induction false} ClassCountBelowAll(rows: map<nat, Row>, ids: seq<nat>, c: string, col: Column)
    requires Listed(rows, ids)
    ensures ClassCount(rows, ids, c, col) <= ClassCount(rows, ids, c, AnyColumn)
    decreases |ids|
  {
    if |ids| > 0 {
      ClassCountBelowAll(rows, ids[..|ids| - 1], c, col);
    }
  }

  /** With no counted row the sum is zero. */
  lemma {:induction false} ClassSumZero(rows: map<nat, Row>, ids: seq<nat>, c: string, col: Column)
    requires Listed(rows, ids) && ClassCount(rows, ids, c, col) == 0
    ensures ClassSum(rows, ids, c, col) == 0.0
    decreases |ids|
  {
    if |ids| > 0 {
      ClassSumZero(rows, ids[..|ids| - 1], c, col);
    }
  }

  /** The ids among `xs` whose row is of class `c` and counted by `col`. */
  ghost function ClassIds(rows: map<nat, Row>, xs: set<nat>, c: string, col: Column): set<nat> {
    set id | id in xs && id in rows && rows[id].roadClass == c && Filled(rows[id], col)
  }

  /** Adding one id outside `xs` adds it to the class's ids exactly when its row matches. */
  lemma ClassIdsAdd(rows: map<nat, Row>, xs: set<nat>, x: nat, c: string, col: Column)
    requires x in rows && x !in xs
    ensures |ClassIds(rows, xs + {x}, c, col)| ==
      |ClassIds(rows, xs, c, col)| + (if rows[x].roadClass == c && Filled(rows[x], col) then 1 else 0)
  {
    if rows[x].roadClass == c && Filled(rows[x], col) {
      assert ClassIds(rows, xs + {x}, c, col) == ClassIds(rows, xs, c, col) + {x};
    } else {
      assert ClassIds(rows, xs + {x}, c, col) == ClassIds(rows, xs, c, col);
    }
  }

  /** Counting along an ascending listing counts each matching id exactly once. */
  lemma {:induction false} ClassCountIsCard(rows: map<nat, Row>, ids: seq<nat>, c: string, col: Column)
    requires Listed(rows, ids) && Ascending(ids)
    ensures ClassCount(rows, ids, c, col) == |ClassIds(rows, Elems(ids), c, col)|
    decreases |ids|
  {
    if |ids| > 0 {
      var init := ids[..|ids| - 1];
      var last := ids[|ids| - 1];
      ClassCountIsCard(rows, init, c, col);
      assert Elems(ids) == Elems(init) + {last};
      ClassIdsAdd(rows, Elems(init), last, c, col);
    }
  }

  /** Along the id-ordered listing, a class's count is the number of its rows in the table. */
  lemma ClassCountInLedger(l: Ledger, c: string, col: Column)
    requires Valid(l)
    ensures ClassCount(l.rows, OrderedIds(l, false), c, col) == |ClassIds(l.rows, l.rows.Keys, c, col)|
  {
    ClassCountIsCard(l.rows, OrderedIds(l, false), c, col);
  }

  /** The group of a class in the ledger is that class's count and sums in id order. */
  lemma GroupOfClassIs(l: Ledger, c: string)
    requires Valid(l) && ClassHas(l, c, AnyColumn)
    ensures c in Accumulate(l.rows, OrderedIds(l, false))
    ensures GroupIs(Accumulate(l.rows, OrderedIds(l, false))[c], l.rows, OrderedIds(l, false), c)
  {
    GroupOfClass(l, c);
    AccumulateSums(l.rows, OrderedIds(l, false), c);
  }

  /**
   `COUNT(*)` and `AVG(confidence)` of a class: the number of its rows in the table, and
   the sum of their confidences divided by that number.
   */
  lemma StatsCountAndConfidence(l: Ledger, c: string)
    requires Valid(l) && ClassHas(l, c, AnyColumn)
    ensures var ids := OrderedIds(l, false);
      && c in GetStats(l)
      && GetStats(l)[c].count == ClassCount(l.rows, ids, c, AnyColumn) > 0
      && GetStats(l)[c].count == |ClassIds(l.rows, l.rows.Keys, c, AnyColumn)|
      && GetStats(l)[c].avgConfidence == ClassSum(l.rows, ids, c, AnyColumn) / ClassCount(l.rows, ids, c, AnyColumn) as real
  {
    GroupOfClassIs(l, c);
    GetStatsFinishes(l);
    ClassCountInLedger(l, c, AnyColumn);
  }

  /**
   `AVG(width_cm)` and `AVG(depth_cm)` of a class: NULL when none of its rows has the
   value, otherwise the sum of the non-NULL values divided by how many there are.
   */
  lemma StatsAverages(l: Ledger, c: string)
    requires Valid(l) && ClassHas(l, c, AnyColumn)
    ensures var ids := OrderedIds(l, false);
      var nw, nd := ClassCount(l.rows, ids, c, WidthColumn), ClassCount(l.rows, ids, c, DepthColumn);
      && c in GetStats(l)
      && GetStats(l)[c].avgWidth == (if nw == 0 then None else Some(ClassSum(l.rows, ids, c, WidthColumn) / nw as real))
      && GetStats(l)[c].avgDepth == (if nd == 0 then None else Some(ClassSum(l.rows, ids, c, DepthColumn) / nd as real))
  {
    GroupOfClassIs(l, c);
    GetStatsFinishes(l);
  }

  /** Turning every group's running sums into averages. */
  function FinishAll(acc: map<string, Acc>): (s: map<string, ClassStats>)
    requires forall c :: c in acc ==> acc[c].count > 0
    ensures s.Keys == acc.Keys
    ensures forall c :: c in s ==> s[c].count == acc[c].count
    ensures forall c :: c in s ==> (s[c].avgWidth.None? <==> acc[c].widthN == 0)
    ensures forall c :: c in s ==> (s[c].avgDepth.None? <==> acc[c].depthN == 0)
    ensures ConfidenceSumsBounded(acc) ==> forall c :: c in s ==> 0.0 <= s[c].avgConfidence <= 1.0
  {
    var s := map c | c in acc :: Finish(acc[c]);
    forall c | c in s && ConfidenceSumsBounded(acc)
      ensures 0.0 <= s[c].avgConfidence <= 1.0
    {
      MeanInUnit(acc[c].confSum, acc[c].count);
    }
    s
  }
}
