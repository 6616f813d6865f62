/**
 InterpolationTransform: windowed averages on a grid of instants, computed as records arrive from a
 cache that is pruned and into which late records are inserted. Times and values are real numbers;
 field values are single numbers, and the polar average is not modelled.
 */
module Interpolation {
  import opened Common

  /** A (timestamp, value) pair. */
  datatype Point = Point(time: real, value: real)

  /** A timestamp that may be float('inf'). */
  datatype Time = Fin(t: real) | Inf

  datatype Algorithm = Boxcar(window: real) | Nearest | Unrecognized

  /** How one result field is computed. */
  datatype Spec = Spec(source: string, algorithm: Algorithm)

  datatype Record = Record(time: real, fields: map<string, real>)

  /** {'timestamp': time, 'fields': fields} */
  datatype Emission = Emission(time: real, fields: map<string, real>)

  // ---- Sorted lists of points ----

  predicate Sorted(list: seq<Point>) {
    forall i, j :: 0 <= i < j < |list| ==> list[i].time <= list[j].time
  }

  /** bisect_left on the timestamps: how many points are before time t. */
  function Bisect(list: seq<Point>, t: real): (k: nat)
    ensures k <= |list|
  {
    if list == [] || list[|list| - 1].time < t then |list| else Bisect(list[..|list| - 1], t)
  }

  lemma {:induction false} BisectSplits(list: seq<Point>, t: real)
    requires Sorted(list)
    ensures forall j :: 0 <= j < Bisect(list, t) ==> list[j].time < t
    ensures forall j :: Bisect(list, t) <= j < |list| ==> list[j].time >= t
  {
    if list != [] {
      if list[|list| - 1].time >= t { BisectSplits(list[..|list| - 1], t); }
    }
  }

  lemma {:induction false} BisectGrows(list: seq<Point>, s: real, t: real)
    requires s <= t
    ensures Bisect(list, s) <= Bisect(list, t)
  {
    if list != [] && list[|list| - 1].time >= t { BisectGrows(list[..|list| - 1], s, t); }
  }

  /** The only split of a sorted list into points before t and points not before t. */
  lemma {:induction false} BisectIs(list: seq<Point>, t: real, k: nat)
    requires Sorted(list) && k <= |list|
    requires (k > 0 ==> list[k - 1].time < t) && (k < |list| ==> list[k].time >= t)
    ensures Bisect(list, t) == k
  {
    BisectSplits(list, t);
  }

  /** cache.insert(bisect_left(...), point) */
  function Insert(list: seq<Point>, p: Point): seq<Point> {
    list[..Bisect(list, p.time)] + [p] + list[Bisect(list, p.time)..]
  }

  lemma InsertSorts(list: seq<Point>, p: Point)
    requires Sorted(list)
    ensures Sorted(Insert(list, p))
  {
    BisectSplits(list, p.time);
  }

  /** A point goes after all that are earlier and before all others, those of the same time included. */
  lemma InsertIs(list: seq<Point>, p: Point) returns (k: nat)
    requires Sorted(list)
    ensures k <= |list| && Insert(list, p) == list[..k] + [p] + list[k..]
    ensures (forall j :: 0 <= j < k ==> list[j].time < p.time) && (forall j :: k <= j < |list| ==> list[j].time >= p.time)
  {
    BisectSplits(list, p.time);
    k := Bisect(list, p.time);
  }

  /** The points not before time t. */
  function Since(list: seq<Point>, t: real): seq<Point> { list[Bisect(list, t)..] }

  lemma SinceSorted(list: seq<Point>, t: real)
    requires Sorted(list)
    ensures Sorted(Since(list, t))
  {
  }

  lemma PutAfter(list: seq<Point>, p: Point, m: nat, k: nat)
    requires m <= k <= |list|
    ensures (list[..k] + [p] + list[k..])[m..] == list[m..][..k - m] + [p] + list[m..][k - m..]
  {
  }

  lemma InsertInSince(list: seq<Point>, p: Point, t: real)
    requires Sorted(list) && p.time >= t
    ensures Since(Insert(list, p), t) == Insert(Since(list, t), p)
  {
    var k, m := Bisect(list, p.time), Bisect(list, t);
    BisectGrows(list, t, p.time);
    BisectSplits(list, p.time);
    BisectSplits(list, t);
    InsertSorts(list, p);
    BisectIs(Insert(list, p), t, m);
    BisectIs(list[m..], p.time, k - m);
    PutAfter(list, p, m, k);
  }

  lemma InsertBeforeSince(list: seq<Point>, p: Point, t: real)
    requires Sorted(list) && p.time < t
    ensures Since(Insert(list, p), t) == Since(list, t)
  {
    var k, m := Bisect(list, p.time), Bisect(list, t);
    BisectGrows(list, p.time, t);
    BisectSplits(list, t);
    InsertSorts(list, p);
    BisectIs(Insert(list, p), t, m + 1);
    assert Insert(list, p)[m + 1..] == list[m..];
  }

  /** Two lists that agree since t still do after the same point is inserted into both. */
  lemma AgreeAfterInsert(a: seq<Point>, b: seq<Point>, p: Point, t: real)
    requires Sorted(a) && Sorted(b) && Since(a, t) == Since(b, t)
    ensures Since(Insert(a, p), t) == Since(Insert(b, p), t)
  {
    if p.time >= t {
      InsertInSince(a, p, t);
      InsertInSince(b, p, t);
    } else {
      InsertBeforeSince(a, p, t);
      InsertBeforeSince(b, p, t);
    }
  }

  /** Dropping more after dropping less is dropping more. */
  lemma SinceTwice(list: seq<Point>, s: real, t: real)
    requires Sorted(list) && s <= t
    ensures Since(Since(list, s), t) == Since(list, t)
  {
    var k, m := Bisect(list, s), Bisect(list, t);
    BisectGrows(list, s, t);
    BisectSplits(list, t);
    BisectIs(list[k..], t, m - k);
    assert list[k..][m - k..] == list[m..];
  }

  // ---- Interpolation at one instant ----

  /** The values of the points between lo and hi, both included. */
  function Window(list: seq<Point>, lo: real, hi: real): seq<real> {
    if list == [] then []
    else
      var p := list[|list| - 1];
      Window(list[..|list| - 1], lo, hi) + (if lo <= p.time <= hi then [p.value] else [])
  }

  lemma {:induction false} WindowConcat(a: seq<Point>, b: seq<Point>, lo: real, hi: real)
    ensures Window(a + b, lo, hi) == Window(a, lo, hi) + Window(b, lo, hi)
  {
    if b == [] {
      assert a + b == a;
    } else {
      assert (a + b)[..|a + b| - 1] == a + b[..|b| - 1];
      WindowConcat(a, b[..|b| - 1], lo, hi);
    }
  }

  lemma {:induction false} WindowOutside(list: seq<Point>, lo: real, hi: real)
    requires forall j :: 0 <= j < |list| ==> list[j].time < lo || list[j].time > hi
    ensures Window(list, lo, hi) == []
  {
    if list != [] { WindowOutside(list[..|list| - 1], lo, hi); }
  }

  /** Points before a window do not matter for it. */
  lemma WindowSince(list: seq<Point>, t: real, lo: real, hi: real)
    requires Sorted(list) && t <= lo
    ensures Window(Since(list, t), lo, hi) == Window(list, lo, hi)
  {
    var k := Bisect(list, t);
    BisectSplits(list, t);
    assert list == list[..k] + list[k..];
    WindowConcat(list[..k], list[k..], lo, hi);
    WindowOutside(list[..k], lo, hi);
  }

  /** Nor do points that arrive after it. */
  lemma WindowInsertLater(list: seq<Point>, p: Point, lo: real, hi: real)
    requires p.time > hi
    ensures Window(Insert(list, p), lo, hi) == Window(list, lo, hi)
  {
    var k := Bisect(list, p.time);
    assert list == list[..k] + list[k..];
    WindowConcat(list[..k], list[k..], lo, hi);
    WindowConcat(list[..k], [p], lo, hi);
    WindowConcat(list[..k] + [p], list[k..], lo, hi);
    WindowOutside([p], lo, hi);
  }

  function Sum(values: seq<real>): real {
    if values == [] then 0.0 else Sum(values[..|values| - 1]) + values[|values| - 1]
  }

  function Mean(values: seq<real>): real
    requires values != []
  {
    Sum(values) / |values| as real
  }

  function MeanIfAny(values: seq<real>): Option<real> {
    if values == [] then None else Some(Mean(values))
  }

  // ---- What a mean is ----

  lemma {:induction false} SumConcat(a: seq<real>, b: seq<real>)
    ensures Sum(a + b) == Sum(a) + Sum(b)
  {
    if b == [] {
      assert a + b == a;
    } else {
      assert (a + b)[..|a + b| - 1] == a + b[..|b| - 1];
      SumConcat(a, b[..|b| - 1]);
    }
  }

  lemma SumOne(x: real)
    ensures Sum([x]) == x
  {
    assert [x][..0] == [];
  }

  /** Running totals: each is one value more than the one before. */
  ghost predicate Totals(values: seq<real>, totals: seq<real>) {
    && |totals| == |values| + 1 && totals[0] == 0.0
    && forall k :: 0 <= k < |values| ==> totals[k + 1] == totals[k] + values[k]
  }

  /** Taken once for every value, m comes to what the values come to. */
  ghost predicate IsMean(values: seq<real>, m: real) {
    values != [] && exists totals :: Totals(values, totals) && totals[|values|] == m * |values| as real
  }

  lemma {:induction false} TotalsAre(values: seq<real>, totals: seq<real>)
    requires Totals(values, totals)
    ensures totals[|values|] == Sum(values)
  {
    if values != [] { TotalsAre(values[..|values| - 1], totals[..|values|]); }
  }

  lemma {:induction false} TotalsExist(values: seq<real>) returns (totals: seq<real>)
    ensures Totals(values, totals)
  {
    if values == [] {
      totals := [0.0];
    } else {
      var before := TotalsExist(values[..|values| - 1]);
      totals := before + [before[|values| - 1] + values[|values| - 1]];
    }
  }

  /** Mean is the mean, and there is no other. */
  lemma MeanIs(values: seq<real>, m: real)
    requires values != []
    ensures IsMean(values, m) <==> m == Mean(values)
  {
    var n := |values| as real;
    hide Sum;
    if IsMean(values, m) {
      var other :| Totals(values, other) && other[|values|] == m * n;
      TotalsAre(values, other);
      Quotient(Sum(values), m, n);
    } else {
      var totals := TotalsExist(values);
      TotalsAre(values, totals);
      TimesQuotient(Sum(values), n);
    }
  }

  lemma TimesQuotient(x: real, d: real)
    requires d > 0.0
    ensures x / d * d == x
  {
  }

  lemma Quotient(x: real, q: real, d: real)
    requires d > 0.0 && x == q * d
    ensures x / d == q
  {
  }

  lemma {:induction false} SumWithin(values: seq<real>, lo: real, hi: real)
    requires forall k :: 0 <= k < |values| ==> lo <= values[k] <= hi
    ensures lo * |values| as real <= Sum(values) <= hi * |values| as real
  {
    if values != [] {
      var n := |values| - 1;
      SumWithin(values[..n], lo, hi);
      assert lo * |values| as real == lo * n as real + lo && hi * |values| as real == hi * n as real + hi;
    }
  }

  /** It lies between the least and the greatest value. */
  lemma MeanWithin(values: seq<real>, m: real, lo: real, hi: real)
    requires IsMean(values, m) && forall k :: 0 <= k < |values| ==> lo <= values[k] <= hi
    ensures lo <= m <= hi
  {
    hide Sum;
    MeanIs(values, m);
    SumWithin(values, lo, hi);
    Quotient(lo * |values| as real, lo, |values| as real);
    Quotient(hi * |values| as real, hi, |values| as real);
    QuotientGrows(lo * |values| as real, Sum(values), |values| as real);
    QuotientGrows(Sum(values), hi * |values| as real, |values| as real);
  }

  lemma QuotientGrows(x: real, y: real, d: real)
    requires d > 0.0 && x <= y
    ensures x / d <= y / d
  {
    assert y / d - x / d == (y - x) / d;
  }

  function Deviations(values: seq<real>, m: real): seq<real> { seq(|values|, k requires 0 <= k < |values| => values[k] - m) }

  lemma {:induction false} DeviationsSum(values: seq<real>, m: real)
    ensures Sum(Deviations(values, m)) == Sum(values) - m * |values| as real
  {
    if values != [] {
      var n := |values| - 1;
      DeviationsSum(values[..n], m);
      assert Deviations(values, m)[..n] == Deviations(values[..n], m);
      assert m * |values| as real == m * n as real + m;
    }
  }

  /** The deviations from it, and from it alone, cancel out. */
  lemma DeviationsCancel(values: seq<real>, m: real)
    requires values != []
    ensures IsMean(values, m) <==> Sum(Deviations(values, m)) == 0.0
  {
    DeviationsSum(values, m);
    MeanIs(values, m);
    if Sum(Deviations(values, m)) == 0.0 { Quotient(Sum(values), m, |values| as real); }
  }

  function Values(points: seq<Point>): seq<real> { seq(|points|, k requires 0 <= k < |points| => points[k].value) }

  /** The points from a to b, and no others, are within lo and hi. */
  ghost predicate Covers(list: seq<Point>, lo: real, hi: real, a: nat, b: nat) {
    a <= b <= |list| && forall j :: 0 <= j < |list| ==> (a <= j < b <==> lo <= list[j].time <= hi)
  }

  ghost predicate Average(values: seq<real>, value: Option<real>) {
    if values == [] then value.None? else value.Some? && IsMean(values, value.value)
  }

  /** The mean of the values of the points within lo and hi, or none if there are no such points. */
  ghost predicate Averages(list: seq<Point>, lo: real, hi: real, value: Option<real>) {
    exists a: nat, b: nat :: Covers(list, lo, hi, a, b) && Average(Values(list[a..b]), value)
  }

  lemma {:induction false} WindowInside(list: seq<Point>, lo: real, hi: real)
    requires forall j :: 0 <= j < |list| ==> lo <= list[j].time <= hi
    ensures Window(list, lo, hi) == Values(list)
  {
    if list != [] { WindowInside(list[..|list| - 1], lo, hi); }
  }

  lemma WindowIs(list: seq<Point>, lo: real, hi: real, a: nat, b: nat)
    requires Covers(list, lo, hi, a, b)
    ensures Window(list, lo, hi) == Values(list[a..b])
  {
    assert list == list[..b] + list[b..] && list[..b] == list[..a] + list[a..b];
    WindowOutside(list[..a], lo, hi);
    WindowInside(list[a..b], lo, hi);
    WindowOutside(list[b..], lo, hi);
    hide Window, Values, Covers;
    WindowConcat(list[..b], list[b..], lo, hi);
    WindowConcat(list[..a], list[a..b], lo, hi);
  }

  /** A point of the window after others of it directly follows them. */
  lemma CoverEnds(list: seq<Point>, lo: real, hi: real, a: nat, b: nat)
    requires Sorted(list) && list != [] && lo <= list[|list| - 1].time <= hi
    requires Covers(list[..|list| - 1], lo, hi, a, b)
    ensures a < b ==> b == |list| - 1
  {
    var n := |list| - 1;
    assert forall j :: 0 <= j < n ==> list[..n][j] == list[j];
    assert a < b ==> lo <= list[a].time <= hi;
    assert a < b ==> lo <= list[b].time <= hi;
  }

  lemma {:induction false} SomeCover(list: seq<Point>, lo: real, hi: real) returns (a: nat, b: nat)
    requires Sorted(list)
    ensures Covers(list, lo, hi, a, b)
  {
    if list == [] {
      a, b := 0, 0;
    } else {
      var n := |list| - 1;
      a, b := SomeCover(list[..n], lo, hi);
      assert forall j :: 0 <= j < n ==> list[..n][j] == list[j];
      if lo <= list[n].time <= hi {
        CoverEnds(list, lo, hi, a, b);
        if a == b { a := n; }
        b := |list|;
      }
    }
  }

  lemma AverageIs(values: seq<real>, value: Option<real>)
    ensures Average(values, value) <==> value == MeanIfAny(values)
  {
    hide Mean, IsMean;
    if values != [] && value.Some? { MeanIs(values, value.value); }
  }

  /** The mean over a window, both ends included. */
  lemma WindowAverages(list: seq<Point>, lo: real, hi: real, value: Option<real>)
    requires Sorted(list)
    ensures Averages(list, lo, hi, value) <==> value == MeanIfAny(Window(list, lo, hi))
  {
    hide Window, Average, MeanIfAny, Sorted;
    var a, b := SomeCover(list, lo, hi);
    WindowIs(list, lo, hi, a, b);
    AverageIs(Window(list, lo, hi), value);
    if Averages(list, lo, hi, value) {
      var c: nat, d: nat :| Covers(list, lo, hi, c, d) && Average(Values(list[c..d]), value);
      WindowIs(list, lo, hi, c, d);
    }
  }

  function Distance(p: Point, t: real): real { if p.time >= t then p.time - t else t - p.time }

  lemma DistanceIs(p: Point, t: real)
    ensures Distance(p, t) >= 0.0 && (p.time == t + Distance(p, t) || p.time == t - Distance(p, t))
  {
  }

  /** The last of the points closest to t. */
  ghost predicate IsClosest(list: seq<Point>, t: real, k: nat) {
    && k < |list|
    && (forall j :: 0 <= j < |list| ==> Distance(list[k], t) <= Distance(list[j], t))
    && (forall j :: k < j < |list| ==> Distance(list[k], t) < Distance(list[j], t))
  }

  function Closest(list: seq<Point>, t: real): (k: nat)
    requires list != []
    ensures IsClosest(list, t, k)
  {
    if |list| == 1 then 0
    else
      var k := Closest(list[..|list| - 1], t);
      if Distance(list[|list| - 1], t) <= Distance(list[k], t) then |list| - 1 else k
  }

  function Interpolate(algorithm: Algorithm, list: seq<Point>, t: real): Option<real> {
    if list == [] then None
    else match algorithm
      case Boxcar(window) => MeanIfAny(Window(list, t - window / 2.0, t + window / 2.0))
      case Nearest => Some(list[Closest(list, t)].value)
      case Unrecognized => None
  }

  /** interpolate's loop for 'nearest', which stops as soon as the distance grows. */
  method FindNearest(list: seq<Point>, t: real) returns (value: Option<real>)
    requires Sorted(list)
    ensures value == Interpolate(Nearest, list, t)
  {
    value := None;
    var i, best := 0, 0.0;
    while i < |list|
      invariant 0 <= i <= |list|
      invariant i == 0 ==> value == None
      invariant i > 0 ==> value == Some(list[i - 1].value) && best == Distance(list[i - 1], t)
      invariant i > 0 ==> IsClosest(list[..i], t, i - 1)
    {
      var distance := Distance(list[i], t);
      if i > 0 && distance > best {
        assert list[i].time > t;
        assert IsClosest(list, t, i - 1);
        return;
      }
      best, value := distance, Some(list[i].value);
      i := i + 1;
    }
    assert list[..|list|] == list;
  }

  /** The value of a point that no other is nearer than, and no later one as near. */
  lemma NearestIs(list: seq<Point>, t: real) returns (k: nat)
    requires list != []
    ensures k < |list| && Interpolate(Nearest, list, t) == Some(list[k].value)
    ensures forall j :: 0 <= j < |list| ==>
              var (near, far) := (list[k].time - t, list[j].time - t);
              (-far <= near <= far || far <= near <= -far) && (k < j ==> near != far && near != -far)
  {
    k := Closest(list, t);
    DistanceIs(list[k], t);
    forall j | 0 <= j < |list|
      ensures var (near, far) := (list[k].time - t, list[j].time - t);
              (-far <= near <= far || far <= near <= -far) && (k < j ==> near != far && near != -far)
    {
      DistanceIs(list[j], t);
    }
  }

  lemma BoxcarIsMean(list: seq<Point>, window: real, t: real)
    ensures Interpolate(Boxcar(window), list, t) == MeanIfAny(Window(list, t - window / 2.0, t + window / 2.0))
  {
  }

  /** Evicting what is before a boxcar's window does not change its average. */
  lemma BoxcarSince(list: seq<Point>, limit: real, window: real, t: real)
    requires Sorted(list) && limit <= t - window / 2.0
    ensures Interpolate(Boxcar(window), Since(list, limit), t) == Interpolate(Boxcar(window), list, t)
  {
    hide Window, Interpolate, Since, MeanIfAny;
    BoxcarIsMean(list, window, t);
    BoxcarIsMean(Since(list, limit), window, t);
    WindowSince(list, limit, t - window / 2.0, t + window / 2.0);
  }

  /** Evicting what is inside it shortens the window. */
  lemma BoxcarCutShort(list: seq<Point>, limit: real, window: real, t: real)
    requires Sorted(list) && limit >= t - window / 2.0
    ensures Interpolate(Boxcar(window), Since(list, limit), t) == MeanIfAny(Window(list, limit, t + window / 2.0))
  {
    hide Window, Interpolate, MeanIfAny;
    var kept := Since(list, limit);
    BoxcarIsMean(kept, window, t);
    WindowSince(list, limit, limit, t + window / 2.0);
    BisectSplits(list, limit);
    WindowFrom(kept, t - window / 2.0, limit, t + window / 2.0);
  }

  lemma {:induction false} WindowFrom(list: seq<Point>, lo: real, first: real, hi: real)
    requires lo <= first && forall j :: 0 <= j < |list| ==> list[j].time >= first
    ensures Window(list, lo, hi) == Window(list, first, hi)
  {
    if list != [] { WindowFrom(list[..|list| - 1], lo, first, hi); }
  }

  /** Evicting what is further than reach before t does not change the nearest point if some point is
      within reach of t. */
  lemma NearestSince(list: seq<Point>, reach: real, t: real, j: nat)
    requires Sorted(list) && j < |list| && Distance(list[j], t) <= reach
    ensures Interpolate(Nearest, Since(list, t - reach), t) == Interpolate(Nearest, list, t)
  {
    var m, k := Bisect(list, t - reach), Closest(list, t);
    BisectSplits(list, t - reach);
    assert Distance(list[k], t) <= Distance(list[j], t);
    var kept := list[m..];
    assert kept[k - m] == list[k];
    var c := Closest(kept, t);
    assert kept[c] == list[c + m];
  }
}
