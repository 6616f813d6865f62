/**
 Whole runs of InterpolationTransform: which instants are visited, and what their values are averages
 of, told from the records alone.
 */
module InterpolationRuns {
  import opened Common
  import opened Interpolation
  import opened InterpolationTransforms

  function Init<T>(s: seq<T>): seq<T>
    requires s != []
  {
    s[..|s| - 1]
  }

  function Last<T>(s: seq<T>): T
    requires s != []
  {
    s[|s| - 1]
  }

  // ---- What has arrived ----

  /** Every point of field f in the records so far, in order of time. */
  function Arrivals(history: seq<Record>, f: string): (list: seq<Point>)
    ensures Sorted(list)
  {
    if history == [] then []
    else
      var before := Arrivals(history[..|history| - 1], f);
      InsertSortsAll(before);
      Absorb(before, history[|history| - 1], f)
  }

  lemma InsertSortsAll(list: seq<Point>)
    requires Sorted(list)
    ensures forall p: Point :: Sorted(Insert(list, p))
  {
    forall p: Point ensures Sorted(Insert(list, p)) { InsertSorts(list, p); }
  }

  /** The points that count after evictions up to a limit. */
  function Live(limit: Option<real>, list: seq<Point>): seq<Point> {
    if limit.None? then list else Since(list, limit.value)
  }

  lemma AgreeAfterAbsorb(limit: Option<real>, a: seq<Point>, b: seq<Point>, r: Record, f: string)
    requires Sorted(a) && Sorted(b) && Live(limit, a) == Live(limit, b)
    ensures Sorted(Absorb(a, r, f)) && Live(limit, Absorb(a, r, f)) == Live(limit, Absorb(b, r, f))
  {
    if f in r.fields && r.time != 0.0 {
      InsertSorts(a, Point(r.time, r.fields[f]));
      if limit.Some? { AgreeAfterInsert(a, b, Point(r.time, r.fields[f]), limit.value); }
    }
  }

  function MaxLimit(limit: Option<real>, t: real): Option<real> {
    if limit.Some? && limit.value > t then limit else Some(t)
  }

  lemma AgreeAfterEviction(limit: Option<real>, a: seq<Point>, b: seq<Point>, t: real)
    requires Sorted(a) && Sorted(b) && Live(limit, a) == Live(limit, b)
    ensures Sorted(Since(a, t)) && Live(MaxLimit(limit, t), Since(a, t)) == Live(MaxLimit(limit, t), b)
    ensures MaxLimit(limit, t) == Some(t) ==> Since(a, t) == Since(b, t)
  {
    hide Bisect;
    var m := MaxLimit(limit, t).value;
    SinceSorted(a, t);
    SinceTwice(a, t, m);
    if limit.Some? {
      SinceTwice(a, limit.value, m);
      SinceTwice(b, limit.value, m);
    }
  }

  /** The points of field f, in the order the records arrived. */
  function Points(history: seq<Record>, f: string): seq<Point> {
    if history == [] then []
    else
      var r := Last(history);
      Points(Init(history), f) + (if f in r.fields && r.time != 0.0 then [Point(r.time, r.fields[f])] else [])
  }

  lemma InsertAddsOne(list: seq<Point>, p: Point)
    ensures multiset(Insert(list, p)) == multiset(list) + multiset{p}
  {
    var k := Bisect(list, p.time);
    assert list == list[..k] + list[k..];
  }

  /** Arrivals is every point received for the field, sorted by time. */
  lemma {:induction false} ArrivalsSortPoints(history: seq<Record>, f: string)
    ensures Sorted(Arrivals(history, f))
    ensures multiset(Arrivals(history, f)) == multiset(Points(history, f))
  {
    if history != [] {
      var r := Last(history);
      ArrivalsSortPoints(Init(history), f);
      if f in r.fields && r.time != 0.0 {
        InsertAddsOne(Arrivals(Init(history), f), Point(r.time, r.fields[f]));
      }
    }
  }

  // ---- Eviction does not show ----

  /** Caches that nothing was ever evicted from. */
  function AllArrivals(cfg: Config, history: seq<Record>): (caches: Caches)
    ensures Complete(cfg, caches)
  {
    map f | f in Sources(cfg) :: Arrivals(history, f)
  }

  /** The value of one result field at t, from the arrivals that are not half a cache window old. */
  function ValueNow(cfg: Config, history: seq<Record>, d: string, t: real): Option<real>
    requires d in cfg.specs
  {
    ValueAt(cfg, Evicted(AllArrivals(cfg, history), t - cfg.window / 2.0), d, t)
  }

  lemma ValueNowIs(cfg: Config, history: seq<Record>, d: string, t: real)
    requires d in cfg.specs
    ensures var spec := cfg.specs[d];
            ValueNow(cfg, history, d, t) ==
            Interpolate(spec.algorithm, Since(Arrivals(history, spec.source), t - cfg.window / 2.0), t)
  {
    hide Arrivals, Since, Interpolate;
    assert cfg.specs[d].source in Sources(cfg);
  }

  /** A boxcar no wider than the cache window is the mean of all arrivals within its window, whatever was
      evicted. */
  lemma BoxcarSeesAll(cfg: Config, history: seq<Record>, d: string, t: real)
    requires d in cfg.specs && cfg.specs[d].algorithm.Boxcar? && cfg.specs[d].algorithm.window <= cfg.window
    ensures var half := cfg.specs[d].algorithm.window / 2.0;
            ValueNow(cfg, history, d, t) ==
            MeanIfAny(Window(Arrivals(history, cfg.specs[d].source), t - half, t + half))
    ensures var half := cfg.specs[d].algorithm.window / 2.0;
            Averages(Arrivals(history, cfg.specs[d].source), t - half, t + half, ValueNow(cfg, history, d, t))
  {
    hide Arrivals, Window, Since, MeanIfAny, ValueNow, Averages;
    ValueNowIs(cfg, history, d, t);
    var spec, list := cfg.specs[d], Arrivals(history, cfg.specs[d].source);
    var half := spec.algorithm.window / 2.0;
    WindowAverages(list, t - half, t + half, ValueNow(cfg, history, d, t));
    BoxcarSince(list, t - cfg.window / 2.0, spec.algorithm.window, t);
    BoxcarIsMean(list, spec.algorithm.window, t);
  }

  /** A wider one averages only what is at most half a cache window old. */
  lemma WideBoxcarSeesLess(cfg: Config, history: seq<Record>, d: string, t: real)
    requires d in cfg.specs && cfg.specs[d].algorithm.Boxcar? && cfg.specs[d].algorithm.window >= cfg.window
    ensures var half := cfg.specs[d].algorithm.window / 2.0;
            ValueNow(cfg, history, d, t) ==
            MeanIfAny(Window(Arrivals(history, cfg.specs[d].source), t - cfg.window / 2.0, t + half))
    ensures var half := cfg.specs[d].algorithm.window / 2.0;
            Averages(Arrivals(history, cfg.specs[d].source), t - cfg.window / 2.0, t + half,
                     ValueNow(cfg, history, d, t))
  {
    hide Arrivals, Window, Since, MeanIfAny, ValueNow, Averages;
    ValueNowIs(cfg, history, d, t);
    var spec, list := cfg.specs[d], Arrivals(history, cfg.specs[d].source);
    WindowAverages(list, t - cfg.window / 2.0, t + spec.algorithm.window / 2.0, ValueNow(cfg, history, d, t));
    BoxcarCutShort(list, t - cfg.window / 2.0, spec.algorithm.window, t);
  }

  /** The nearest value is that of the nearest arrival if some arrival is within half a cache window. */
  lemma NearestSeesAll(cfg: Config, history: seq<Record>, d: string, t: real, j: nat)
    requires d in cfg.specs && cfg.specs[d].algorithm.Nearest?
    requires j < |Arrivals(history, cfg.specs[d].source)|
    requires Distance(Arrivals(history, cfg.specs[d].source)[j], t) <= cfg.window / 2.0
    ensures var list := Arrivals(history, cfg.specs[d].source);
            ValueNow(cfg, history, d, t) == Some(list[Closest(list, t)].value)
  {
    hide Arrivals, Sorted, Since, Closest, ValueNow;
    ValueNowIs(cfg, history, d, t);
    NearestSince(Arrivals(history, cfg.specs[d].source), cfg.window / 2.0, t, j);
  }

  /** Everything before it may have been evicted by now. */
  function Floor(cfg: Config, history: seq<Record>): Option<real>
    requires cfg.interval > 0.0
  {
    if history == [] then None
    else
      var due := Due(cfg, Init(history), Last(history));
      if due == [] then Floor(cfg, Init(history))
      else MaxLimit(Floor(cfg, Init(history)), Last(due) - cfg.window / 2.0)
  }

  lemma FloorNext(cfg: Config, history: seq<Record>, r: Record)
    requires cfg.interval > 0.0
    ensures var due := Due(cfg, history, r);
            Floor(cfg, history + [r]) ==
            if due == [] then Floor(cfg, history) else MaxLimit(Floor(cfg, history), Last(due) - cfg.window / 2.0)
  {
    assert Init(history + [r]) == history;
  }

  lemma KeptFieldNext(cfg: Config, history: seq<Record>, r: Record, f: string)
    requires cfg.interval > 0.0 && f in Sources(cfg)
    ensures var (due, list) := (Due(cfg, history, r), Absorb(Kept(cfg, history)[f], r, f));
            Kept(cfg, history + [r])[f] == if due == [] then list else Since(list, Last(due) - cfg.window / 2.0)
  {
    hide Kept, Due, Absorb, Since, Sorted;
    KeptNext(cfg, history, r);
  }

  lemma StillAgrees(cfg: Config, history: seq<Record>, r: Record, f: string)
    requires cfg.interval > 0.0 && f in Sources(cfg)
    requires Live(Floor(cfg, history), Kept(cfg, history)[f]) == Live(Floor(cfg, history), Arrivals(history, f))
    ensures var h := history + [r]; Live(Floor(cfg, h), Kept(cfg, h)[f]) == Live(Floor(cfg, h), Arrivals(h, f))
  {
    hide Kept, Due, Absorb, Since, Sorted, Arrivals, Floor, Live, MaxLimit;
    FloorNext(cfg, history, r);
    KeptFieldNext(cfg, history, r, f);
    ArrivalsNext(history, r, f);
    var due, list := Due(cfg, history, r), Absorb(Kept(cfg, history)[f], r, f);
    AgreeAfterAbsorb(Floor(cfg, history), Kept(cfg, history)[f], Arrivals(history, f), r, f);
    if due != [] {
      AgreeAfterEviction(Floor(cfg, history), list, Arrivals(history + [r], f), Last(due) - cfg.window / 2.0);
    }
  }

  /** The caches hold what has arrived, but for what was evicted; late arrivals included. */
  lemma {:induction false} KeptAgrees(cfg: Config, history: seq<Record>, f: string)
    requires cfg.interval > 0.0 && f in Sources(cfg)
    ensures Live(Floor(cfg, history), Kept(cfg, history)[f]) == Live(Floor(cfg, history), Arrivals(history, f))
  {
    if history == [] {
      NothingKept(cfg, f);
    } else {
      var before, r := Init(history), Last(history);
      assert before + [r] == history;
      hide *;
      KeptAgrees(cfg, before, f);
      StillAgrees(cfg, before, r, f);
    }
  }

  lemma NothingKept(cfg: Config, f: string)
    requires cfg.interval > 0.0 && f in Sources(cfg)
    ensures Kept(cfg, [])[f] == Arrivals([], f)
  {
  }

  /** No record that carries fields has a negative time. */
  predicate NonNegative(history: seq<Record>) {
    forall k :: 0 <= k < |history| && history[k].fields != map[] ==> history[k].time >= 0.0
  }

  /** The first record sets the clock for good: to a positive time, or to infinity. */
  predicate FirstSets(history: seq<Record>) {
    history != [] ==> history[0].fields == map[] || history[0].time > 0.0
  }

  /** The clock never comes back to zero, where it starts again at the earliest record, with that record before
      it. */
  predicate Steady(history: seq<Record>) { NonNegative(history) || FirstSets(history) }

  predicate AtLeast(x: Time, t: real) { x.Inf? || x.t >= t }

  /** Evictions stay half a window behind the next instant. */
  predicate Behind(cfg: Config, c: Clock, floor: Option<real>) {
    floor.Some? ==> AtLeast(c.next, floor.value + cfg.window / 2.0)
  }

  predicate Running(c: Clock) { c.next.Inf? || c.next.t > 0.0 }

  predicate NotNegative(c: Clock) { AtLeast(c.earliest, 0.0) && AtLeast(c.next, 0.0) }

  lemma StartedBehind(cfg: Config, c: Clock, r: Record, floor: Option<real>)
    requires Behind(cfg, c, floor)
    requires floor.None? || Running(c) || (NotNegative(c) && NonNegative([r]))
    ensures var s := Started(Seen(c, r));
            && Behind(cfg, s, floor)
            && (Running(c) ==> Running(s))
            && (NotNegative(c) && NonNegative([r]) ==> NotNegative(s))
  {
    assert NonNegative([r]) ==> r.fields == map[] || r.time >= 0.0 by {
      assert [r][0] == r;
    }
  }

  lemma TickedBehind(cfg: Config, c: Clock, floor: Option<real>)
    requires cfg.interval > 0.0 && Behind(cfg, c, floor)
    ensures var (due, d) := (Instants(cfg, c), Ticked(cfg, c));
            && Behind(cfg, d, if due == [] then floor else MaxLimit(floor, Last(due) - cfg.window / 2.0))
            && (Running(c) ==> Running(d))
            && (NotNegative(c) ==> NotNegative(d))
  {
    if c.next.Fin? {
      var due := Instants(cfg, c);
      GridAt(c.next.t, Bound(cfg, c), cfg.interval);
      GridEndNotBefore(c.next.t, Bound(cfg, c), cfg.interval);
      if due != [] { NextInstant(c.next.t, |due| - 1, cfg.interval); }
      hide Grid, Instant;
    }
  }

  lemma SteadyBefore(history: seq<Record>, r: Record)
    requires Steady(history + [r])
    ensures Steady(history)
    ensures NonNegative(history + [r]) <==> NonNegative(history) && NonNegative([r])
    ensures history != [] ==> (FirstSets(history + [r]) <==> FirstSets(history))
  {
    var h := history + [r];
    assert h[|history|] == r && [r][0] == r;
    assert forall k :: 0 <= k < |history| ==> history[k] == h[k];
  }

  predicate OnCourse(cfg: Config, history: seq<Record>)
    requires cfg.interval > 0.0
  {
    var c := ClockAfter(cfg, history);
    && Behind(cfg, c, Floor(cfg, history))
    && (NonNegative(history) ==> NotNegative(c))
    && (history != [] && FirstSets(history) ==> Running(c))
  }

  lemma FirstStarts(cfg: Config, r: Record)
    requires cfg.interval > 0.0 && FirstSets([r])
    ensures Running(Started(Seen(ClockAfter(cfg, []), r)))
  {
    assert [r][0] == r;
  }

  lemma StaysOnCourse(cfg: Config, history: seq<Record>, r: Record)
    requires cfg.interval > 0.0 && Steady(history + [r]) && OnCourse(cfg, history)
    ensures OnCourse(cfg, history + [r])
  {
    SteadyBefore(history, r);
    if history == [] && FirstSets(history + [r]) {
      assert history + [r] == [r];
      FirstStarts(cfg, r);
    }
    var (c, floor) := (ClockAfter(cfg, history), Floor(cfg, history));
    assert history == [] ==> floor.None?;
    hide Behind, Started, Seen, Ticked, Running, NotNegative, NonNegative, FirstSets, ClockAfter, Floor, Kept;
    StartedBehind(cfg, c, r, floor);
    TickedBehind(cfg, Started(Seen(c, r)), floor);
    KeptNext(cfg, history, r);
    FloorNext(cfg, history, r);
  }

  lemma {:induction false} FloorStaysBehind(cfg: Config, history: seq<Record>)
    requires cfg.interval > 0.0 && Steady(history)
    ensures OnCourse(cfg, history)
  {
    if history != [] {
      var before, r := Init(history), Last(history);
      assert before + [r] == history;
      hide *;
      SteadyBefore(before, r);
      FloorStaysBehind(cfg, before);
      StaysOnCourse(cfg, before, r);
    }
  }

  lemma {:induction false} RowsAgree(cfg: Config, a: Caches, b: Caches, instants: seq<real>, n: nat)
    requires Complete(cfg, a) && Complete(cfg, b) && n <= |instants|
    requires forall k :: 0 <= k < n ==>
               Evicted(a, instants[k] - cfg.window / 2.0) == Evicted(b, instants[k] - cfg.window / 2.0)
    ensures Rows(cfg, a, instants, n) == Rows(cfg, b, instants, n)
  {
    hide Row, Evicted, Sorted;
    if n > 0 {
      RowsAgree(cfg, a, b, instants, n - 1);
      assert Evicted(a, instants[n - 1] - cfg.window / 2.0) == Evicted(b, instants[n - 1] - cfg.window / 2.0);
    }
  }

  lemma NextAgrees(cfg: Config, history: seq<Record>, r: Record, x: real)
    requires cfg.interval > 0.0
    requires Floor(cfg, history).Some? ==> Floor(cfg, history).value <= x
    ensures Evicted(Absorbed(Kept(cfg, history), r), x) == Evicted(AllArrivals(cfg, history + [r]), x)
  {
    hide Kept, Arrivals, Since, Sorted, Absorb, Live, Floor;
    var a, b := Absorbed(Kept(cfg, history), r), AllArrivals(cfg, history + [r]);
    forall f | f in Sources(cfg) ensures Since(a[f], x) == Since(b[f], x) {
      KeptAgrees(cfg, history, f);
      ArrivalsNext(history, r, f);
      AgreeAfterAbsorb(Floor(cfg, history), Kept(cfg, history)[f], Arrivals(history, f), r, f);
      AgreeAfterEviction(Floor(cfg, history), a[f], b[f], x);
    }
  }

  lemma ArrivalsNext(history: seq<Record>, r: Record, f: string)
    ensures Arrivals(history + [r], f) == Absorb(Arrivals(history, f), r, f)
  {
    assert Init(history + [r]) == history;
  }

  lemma DueBehind(cfg: Config, history: seq<Record>, r: Record)
    requires cfg.interval > 0.0 && Steady(history + [r])
    ensures Behind(cfg, Started(Seen(ClockAfter(cfg, history), r)), Floor(cfg, history))
  {
    assert history == [] ==> Floor(cfg, history).None?;
    SteadyBefore(history, r);
    FloorStaysBehind(cfg, history);
    assert Steady(history + [r]) ==> NonNegative(history + [r]) || FirstSets(history + [r]);
    hide *;
    StartedBehind(cfg, ClockAfter(cfg, history), r, Floor(cfg, history));
  }

  lemma DueAfterFloor(cfg: Config, history: seq<Record>, r: Record, k: nat)
    requires cfg.interval > 0.0 && Steady(history + [r]) && k < |Due(cfg, history, r)|
    ensures var floor := Floor(cfg, history);
            floor.Some? ==> floor.value <= Due(cfg, history, r)[k] - cfg.window / 2.0
  {
    hide ClockAfter, Floor, Started, Seen, Steady, Behind, Instants;
    DueBehind(cfg, history, r);
    DueIsLater(cfg, Started(Seen(ClockAfter(cfg, history), r)), Floor(cfg, history));
  }

  lemma DueAgrees(cfg: Config, history: seq<Record>, r: Record, k: nat)
    requires cfg.interval > 0.0 && Steady(history + [r]) && k < |Due(cfg, history, r)|
    ensures var x := Due(cfg, history, r)[k] - cfg.window / 2.0;
            Evicted(Absorbed(Kept(cfg, history), r), x) == Evicted(AllArrivals(cfg, history + [r]), x)
  {
    hide *;
    DueAfterFloor(cfg, history, r, k);
    NextAgrees(cfg, history, r, Due(cfg, history, r)[k] - cfg.window / 2.0);
  }

  /** When the first record sets the clock, or no time is negative, what transform returns is what it would if
      nothing had ever been evicted but what is half a cache window old. */
  lemma EvictionNeverShows(cfg: Config, history: seq<Record>, r: Record)
    requires cfg.interval > 0.0 && Steady(history + [r])
    ensures var due := Due(cfg, history, r);
            Output(cfg, history, r) == Rows(cfg, AllArrivals(cfg, history + [r]), due, |due|)
  {
    hide Due, Rows, Kept, AllArrivals, Sorted, Evicted, Steady, Absorbed;
    var due, caches := Due(cfg, history, r), Absorbed(Kept(cfg, history), r);
    AbsorbedComplete(cfg, Kept(cfg, history), r);
    forall k | 0 <= k < |due|
      ensures Evicted(caches, due[k] - cfg.window / 2.0) ==
              Evicted(AllArrivals(cfg, history + [r]), due[k] - cfg.window / 2.0)
    {
      DueAgrees(cfg, history, r, k);
    }
    RowsAgree(cfg, caches, AllArrivals(cfg, history + [r]), due, |due|);
  }

  /** The emission shows every field that has a value at its time, with that value, and no others. */
  predicate ShowsValues(cfg: Config, history: seq<Record>, e: Emission) {
    && e.fields.Keys <= cfg.specs.Keys
    && forall d :: d in cfg.specs ==>
         ValueNow(cfg, history, d, e.time) == if d in e.fields then Some(e.fields[d]) else None
  }

  lemma RowAtShows(cfg: Config, history: seq<Record>, t: real)
    ensures var out := RowAt(cfg, AllArrivals(cfg, history), t);
            if forall d :: d in cfg.specs ==> ValueNow(cfg, history, d, t) == None then out == []
            else |out| == 1 && out[0].time == t && out[0].fields != map[] && ShowsValues(cfg, history, out[0])
  {
    hide AllArrivals, ValueAt, Sorted, Since;
    var row := Row(cfg, Evicted(AllArrivals(cfg, history), t - cfg.window / 2.0), t);
    forall d | d in cfg.specs ensures d in row <==> ValueNow(cfg, history, d, t).Some? { }
  }

  lemma {:induction false} RowsShow(cfg: Config, history: seq<Record>, instants: seq<real>, n: nat)
    requires n <= |instants|
    ensures forall e :: e in Rows(cfg, AllArrivals(cfg, history), instants, n) ==>
              e.time in instants && ShowsValues(cfg, history, e)
    ensures forall k, d :: 0 <= k < n && d in cfg.specs && ValueNow(cfg, history, d, instants[k]).Some? ==>
              exists e :: e in Rows(cfg, AllArrivals(cfg, history), instants, n) && e.time == instants[k]
  {
    hide AllArrivals, RowAt, ValueNow, ShowsValues;
    if n > 0 {
      RowsShow(cfg, history, instants, n - 1);
      RowAtShows(cfg, history, instants[n - 1]);
    }
  }

  /** Whatever the algorithms, a call returns an emission for each instant due at which some field has a value,
      and it shows exactly these fields with their values. */
  lemma OutputShows(cfg: Config, history: seq<Record>, r: Record)
    requires cfg.interval > 0.0 && Steady(history + [r])
    ensures var (due, out) := (Due(cfg, history, r), Output(cfg, history, r));
            && (forall e :: e in out ==> e.time in due && ShowsValues(cfg, history + [r], e))
            && (forall k, d :: 0 <= k < |due| && d in cfg.specs && ValueNow(cfg, history + [r], d, due[k]).Some? ==>
                  exists e :: e in out && e.time == due[k])
  {
    hide *;
    EvictionNeverShows(cfg, history, r);
    RowsShow(cfg, history + [r], Due(cfg, history, r), |Due(cfg, history, r)|);
  }

  lemma DueIsLater(cfg: Config, c: Clock, floor: Option<real>)
    requires cfg.interval > 0.0 && Behind(cfg, c, floor)
    ensures floor.Some? ==>
              forall k :: 0 <= k < |Instants(cfg, c)| ==> floor.value <= Instants(cfg, c)[k] - cfg.window / 2.0
  {
    if c.next.Fin? {
      GridAt(c.next.t, Bound(cfg, c), cfg.interval);
      hide Grid;
      forall k | 0 <= k < |Instants(cfg, c)| ensures Instants(cfg, c)[k] >= c.next.t {
        assert k as real * cfg.interval >= 0.0;
      }
    }
  }

  // ---- The instants of a run ----

  /** All the instants that the calls of transform for these records visited. */
  function Visited(cfg: Config, history: seq<Record>): seq<real>
    requires cfg.interval > 0.0
  {
    if history == [] then []
    else Visited(cfg, Init(history)) + Instants(cfg, Started(Seen(ClockAfter(cfg, Init(history)), Last(history))))
  }

  /** The clock of a run whose first record has fields and a positive time. */
  predicate ClockOnGrid(cfg: Config, c: Clock, first: real, visited: seq<real>)
    requires cfg.interval > 0.0
  {
    && c.earliest.Fin?
    && c.next == Fin(GridEnd(first, Bound(cfg, c), cfg.interval))
    && visited == Grid(first, Bound(cfg, c), cfg.interval)
  }

  lemma GridEndNotBefore(t: real, bound: real, interval: real)
    requires interval > 0.0
    ensures GridEnd(t, bound, interval) >= t
  {
    assert |Grid(t, bound, interval)| as real * interval >= 0.0;
  }

  lemma TickOnGrid(cfg: Config, c: Clock, first: real, visited: seq<real>, r: Record)
    requires cfg.interval > 0.0 && first > 0.0
    requires ClockOnGrid(cfg, c, first, visited)
    ensures var s := Started(Seen(c, r));
            ClockOnGrid(cfg, Ticked(cfg, s), first, visited + Instants(cfg, s))
  {
    hide Grid, GridEnd;
    GridEndNotBefore(first, Bound(cfg, c), cfg.interval);
    GridSplits(first, Bound(cfg, c), Bound(cfg, Seen(c, r)), cfg.interval);
  }

  /** Over any run whose first record has fields and a positive time, late records included, each grid
      instant from that time to half a window before the latest is visited exactly once, in order. */
  lemma {:induction false} EachInstantOnce(cfg: Config, history: seq<Record>)
    requires cfg.interval > 0.0 && history != []
    requires history[0].fields != map[] && history[0].time > 0.0
    ensures ClockOnGrid(cfg, ClockAfter(cfg, history), history[0].time, Visited(cfg, history))
  {
    hide Grid, GridEnd;
    var first, r := history[0].time, Last(history);
    if |history| == 1 {
      assert Init(history) == [];
      assert Visited(cfg, history) == Instants(cfg, Started(Seen(CLOCK_AT_START, r)));
    } else {
      EachInstantOnce(cfg, Init(history));
      TickOnGrid(cfg, ClockAfter(cfg, Init(history)), first, Visited(cfg, Init(history)), r);
    }
  }

  /** The next instant is infinite, and nothing is ever emitted, exactly when the first record of all
      had no fields. */
  lemma {:induction false} NoFieldsFirstStopsTheClock(cfg: Config, history: seq<Record>)
    requires cfg.interval > 0.0 && history != []
    ensures history[0].fields != map[] ==> ClockAfter(cfg, history).earliest.Fin?
    ensures ClockAfter(cfg, history).next.Inf? <==> history[0].fields == map[]
  {
    if |history| == 1 {
      assert Init(history) == [];
    } else {
      NoFieldsFirstStopsTheClock(cfg, Init(history));
    }
  }

  lemma NeverEmits(cfg: Config, history: seq<Record>, r: Record)
    requires cfg.interval > 0.0 && history != [] && history[0].fields == map[]
    ensures Output(cfg, history, r) == []
  {
    NoFieldsFirstStopsTheClock(cfg, history);
  }

  // ---- In-order input ----

  /** Everything emitted for a run. */
  function AllOutput(cfg: Config, history: seq<Record>): seq<Emission>
    requires cfg.interval > 0.0
  {
    if history == [] then []
    else AllOutput(cfg, Init(history)) + Output(cfg, Init(history), Last(history))
  }

  /** The first record carries fields and a positive time, and those that carry fields come in order of time. */
  predicate InOrder(history: seq<Record>) {
    && (history != [] ==> history[0].time > 0.0 && history[0].fields != map[])
    && (forall j, k :: 0 <= j < k < |history| && history[j].fields != map[] && history[k].fields != map[] ==>
         history[j].time <= history[k].time)
  }

  /** The latest time of the records that carry fields, or 0. */
  function Latest(history: seq<Record>): real {
    if history == [] then 0.0
    else
      var (before, r) := (Latest(Init(history)), Last(history));
      if r.fields != map[] && r.time > before then r.time else before
  }

  lemma {:induction false} LatestIs(cfg: Config, history: seq<Record>)
    requires cfg.interval > 0.0
    ensures ClockAfter(cfg, history).latest == Latest(history)
  {
    hide Grid, GridEnd;
    if history != [] { LatestIs(cfg, Init(history)); }
  }

  /** The earliest time of the records that carry fields, or infinity. */
  lemma {:induction false} EarliestIs(cfg: Config, history: seq<Record>)
    requires cfg.interval > 0.0
    ensures var e := ClockAfter(cfg, history).earliest;
            && (forall k :: 0 <= k < |history| && history[k].fields != map[] ==> e.Fin? && e.t <= history[k].time)
            && (e.Fin? ==> exists k :: 0 <= k < |history| && history[k].fields != map[] && history[k].time == e.t)
  {
    hide Grid, GridEnd;
    if history != [] { EarliestIs(cfg, Init(history)); }
  }

  lemma {:induction false} LatestAtMost(history: seq<Record>, x: real)
    requires x >= 0.0 && forall k :: 0 <= k < |history| && history[k].fields != map[] ==> history[k].time <= x
    ensures Latest(history) <= x
  {
    if history != [] { LatestAtMost(Init(history), x); }
  }

  lemma InOrderBefore(h: seq<Record>, r: Record)
    requires InOrder(h + [r])
    ensures InOrder(h) && Steady(h + [r])
    ensures h != [] && r.fields != map[] ==> Latest(h) <= r.time
  {
    var all := h + [r];
    assert all[|h|] == r && forall k :: 0 <= k < |h| ==> all[k] == h[k];
    if h != [] && r.fields != map[] {
      assert all[0].time <= r.time;
      LatestAtMost(h, r.time);
    }
  }

  /** Every field is a boxcar average no wider than the cache window. */
  predicate AllBoxcar(cfg: Config) {
    forall d :: d in cfg.specs ==>
      cfg.specs[d].algorithm.Boxcar? && cfg.specs[d].algorithm.window <= cfg.window
  }

  /** The result at t when all the arrivals are there and nothing is evicted. */
  function OfflineAt(cfg: Config, history: seq<Record>, t: real): seq<Emission> {
    var row := Row(cfg, AllArrivals(cfg, history), t);
    if row == map[] then [] else [Emission(t, row)]
  }

  /** The results at the first n of some instants. */
  function Offline(cfg: Config, history: seq<Record>, instants: seq<real>, n: nat): seq<Emission>
    requires n <= |instants|
  {
    if n == 0 then []
    else Offline(cfg, history, instants, n - 1) + OfflineAt(cfg, history, instants[n - 1])
  }

  /** The mean of all the values of field d within its window around t, or none if there are none. */
  ghost predicate MeansAt(cfg: Config, history: seq<Record>, d: string, t: real, value: Option<real>)
    requires d in cfg.specs && cfg.specs[d].algorithm.Boxcar?
  {
    var half := cfg.specs[d].algorithm.window / 2.0;
    Averages(Arrivals(history, cfg.specs[d].source), t - half, t + half, value)
  }

  /** A boxcar's offline value is the mean over its window. */
  lemma OfflineValueIs(cfg: Config, history: seq<Record>, d: string, t: real)
    requires d in cfg.specs && cfg.specs[d].algorithm.Boxcar?
    ensures var half := cfg.specs[d].algorithm.window / 2.0;
            ValueAt(cfg, AllArrivals(cfg, history), d, t) ==
            MeanIfAny(Window(Arrivals(history, cfg.specs[d].source), t - half, t + half))
    ensures MeansAt(cfg, history, d, t, ValueAt(cfg, AllArrivals(cfg, history), d, t))
  {
    hide Arrivals, Window, MeanIfAny, Interpolate, Averages;
    assert cfg.specs[d].source in Sources(cfg);
    var half := cfg.specs[d].algorithm.window / 2.0;
    WindowAverages(Arrivals(history, cfg.specs[d].source), t - half, t + half,
                   ValueAt(cfg, AllArrivals(cfg, history), d, t));
    BoxcarIsMean(Arrivals(history, cfg.specs[d].source), cfg.specs[d].algorithm.window, t);
  }

  lemma RowIsOffline(cfg: Config, history: seq<Record>, t: real)
    requires AllBoxcar(cfg)
    ensures RowAt(cfg, AllArrivals(cfg, history), t) == OfflineAt(cfg, history, t)
  {
    hide ValueAt, AllArrivals, Evicted, Sorted, Arrivals, Window, MeanIfAny;
    var a, b := Evicted(AllArrivals(cfg, history), t - cfg.window / 2.0), AllArrivals(cfg, history);
    EvictedComplete(cfg, b, t - cfg.window / 2.0);
    forall d | d in cfg.specs ensures ValueAt(cfg, a, d, t) == ValueAt(cfg, b, d, t) {
      BoxcarSeesAll(cfg, history, d, t);
      OfflineValueIs(cfg, history, d, t);
    }
    assert Row(cfg, a, t) == Row(cfg, b, t);
  }

  lemma {:induction false} RowsAreOffline(cfg: Config, history: seq<Record>, instants: seq<real>, n: nat)
    requires AllBoxcar(cfg) && n <= |instants|
    ensures Rows(cfg, AllArrivals(cfg, history), instants, n) == Offline(cfg, history, instants, n)
  {
    hide RowAt, OfflineAt, AllArrivals, AllBoxcar;
    if n > 0 {
      RowsAreOffline(cfg, history, instants, n - 1);
      RowIsOffline(cfg, history, instants[n - 1]);
    }
  }

  lemma ValueIsFinal(cfg: Config, history: seq<Record>, r: Record, d: string, t: real)
    requires AllBoxcar(cfg) && d in cfg.specs && (r.fields != map[] ==> t + cfg.window / 2.0 < r.time)
    ensures ValueAt(cfg, AllArrivals(cfg, history + [r]), d, t) == ValueAt(cfg, AllArrivals(cfg, history), d, t)
  {
    hide Window, Insert, Arrivals, AllArrivals, ValueAt, MeanIfAny;
    var f, window := cfg.specs[d].source, cfg.specs[d].algorithm.window;
    ArrivalsNext(history, r, f);
    OfflineValueIs(cfg, history, d, t);
    OfflineValueIs(cfg, history + [r], d, t);
    if f in r.fields && r.time != 0.0 {
      WindowInsertLater(Arrivals(history, f), Point(r.time, r.fields[f]), t - window / 2.0, t + window / 2.0);
    }
  }

  lemma RowIsFinal(cfg: Config, history: seq<Record>, r: Record, t: real)
    requires AllBoxcar(cfg) && (r.fields != map[] ==> t + cfg.window / 2.0 < r.time)
    ensures OfflineAt(cfg, history + [r], t) == OfflineAt(cfg, history, t)
  {
    hide ValueAt, AllArrivals, Sorted;
    var a, b := AllArrivals(cfg, history + [r]), AllArrivals(cfg, history);
    forall d | d in cfg.specs ensures ValueAt(cfg, a, d, t) == ValueAt(cfg, b, d, t) {
      ValueIsFinal(cfg, history, r, d, t);
    }
    assert Row(cfg, a, t) == Row(cfg, b, t);
  }

  lemma {:induction false} RowsAreFinal(cfg: Config, history: seq<Record>, r: Record, instants: seq<real>, n: nat)
    requires AllBoxcar(cfg) && n <= |instants|
    requires r.fields != map[] ==> forall k :: 0 <= k < n ==> instants[k] + cfg.window / 2.0 < r.time
    ensures Offline(cfg, history + [r], instants, n) == Offline(cfg, history, instants, n)
  {
    hide OfflineAt;
    if n > 0 {
      RowsAreFinal(cfg, history, r, instants, n - 1);
      RowIsFinal(cfg, history, r, instants[n - 1]);
    }
  }

  lemma {:induction false} OfflineConcat(cfg: Config, history: seq<Record>, a: seq<real>, b: seq<real>, n: nat)
    requires n <= |b|
    ensures Offline(cfg, history, a + b, |a| + n) == Offline(cfg, history, a, |a|) + Offline(cfg, history, b, n)
  {
    hide OfflineAt;
    if n > 0 {
      OfflineConcat(cfg, history, a, b, n - 1);
    } else {
      OfflinePrefix(cfg, history, a, b, |a|);
    }
  }

  lemma {:induction false} OfflinePrefix(cfg: Config, history: seq<Record>, a: seq<real>, b: seq<real>, n: nat)
    requires n <= |a|
    ensures Offline(cfg, history, a + b, n) == Offline(cfg, history, a, n)
  {
    hide OfflineAt;
    if n > 0 { OfflinePrefix(cfg, history, a, b, n - 1); }
  }

  /** What was emitted while the records came in, by calls that saw only the records so far, is what
      averaging over the finished stream gives, at every grid instant from the first record's time to
      half a window before the latest. */
  lemma OnlineEqualsOffline(cfg: Config, history: seq<Record>)
    requires cfg.interval > 0.0 && AllBoxcar(cfg)
    requires history != [] && InOrder(history)
    ensures var g := Grid(history[0].time, Latest(history) - cfg.window / 2.0, cfg.interval);
            AllOutput(cfg, history) == Offline(cfg, history, g, |g|)
  {
    assert history[0].fields != map[] && history[0].time > 0.0;
    hide Offline, AllOutput, AllBoxcar, Visited, ClockAfter, Grid, GridEnd, Latest, InOrder;
    EachInstantOnce(cfg, history);
    LatestIs(cfg, history);
    OutputIsOffline(cfg, history);
  }

  // ---- What the emissions are ----

  /** Each field shows the mean of all its values around the emission's time, and those that have none are
      left out. */
  ghost predicate ShowsMeans(cfg: Config, history: seq<Record>, e: Emission)
    requires AllBoxcar(cfg)
  {
    && e.fields != map[] && e.fields.Keys <= cfg.specs.Keys
    && forall d :: d in cfg.specs ==>
         MeansAt(cfg, history, d, e.time, if d in e.fields then Some(e.fields[d]) else None)
  }

  /** No field has a value around t. */
  ghost predicate NothingAt(cfg: Config, history: seq<Record>, t: real)
    requires AllBoxcar(cfg)
  {
    forall d :: d in cfg.specs ==> MeansAt(cfg, history, d, t, None)
  }

  lemma OfflineAtIs(cfg: Config, history: seq<Record>, t: real)
    requires AllBoxcar(cfg)
    ensures var out := OfflineAt(cfg, history, t);
            if NothingAt(cfg, history, t) then out == []
            else |out| == 1 && out[0].time == t && ShowsMeans(cfg, history, out[0])
  {
    hide ValueAt, AllArrivals, MeansAt;
    var row := Row(cfg, AllArrivals(cfg, history), t);
    forall d | d in cfg.specs
      ensures MeansAt(cfg, history, d, t, if d in row then Some(row[d]) else None)
      ensures d !in row <==> MeansAt(cfg, history, d, t, None)
    {
      OfflineValueIs(cfg, history, d, t);
      OneMean(cfg, history, d, t, ValueAt(cfg, AllArrivals(cfg, history), d, t), None);
    }
  }

  /** There is one mean. */
  lemma OneMean(cfg: Config, history: seq<Record>, d: string, t: real, u: Option<real>, v: Option<real>)
    requires d in cfg.specs && cfg.specs[d].algorithm.Boxcar? && MeansAt(cfg, history, d, t, u)
    ensures MeansAt(cfg, history, d, t, v) <==> u == v
  {
    hide Averages, Arrivals, Window, MeanIfAny;
    var half := cfg.specs[d].algorithm.window / 2.0;
    WindowAverages(Arrivals(history, cfg.specs[d].source), t - half, t + half, u);
    WindowAverages(Arrivals(history, cfg.specs[d].source), t - half, t + half, v);
  }

  predicate Increasing(times: seq<real>) { forall j, k :: 0 <= j < k < |times| ==> times[j] < times[k] }

  /** These are the emissions for the instants at which some field has a value, in their order. */
  ghost predicate EmittedFor(cfg: Config, history: seq<Record>, instants: seq<real>, out: seq<Emission>)
    requires AllBoxcar(cfg)
  {
    && (forall j :: 0 <= j < |out| ==> out[j].time in instants && ShowsMeans(cfg, history, out[j]))
    && (forall j, k :: 0 <= j < k < |out| ==> out[j].time < out[k].time)
    && (forall k :: 0 <= k < |instants| && !NothingAt(cfg, history, instants[k]) ==>
          exists j :: 0 <= j < |out| && out[j].time == instants[k])
  }

  lemma {:induction false} OfflineIs(cfg: Config, history: seq<Record>, instants: seq<real>, n: nat)
    requires AllBoxcar(cfg) && n <= |instants| && Increasing(instants)
    ensures EmittedFor(cfg, history, instants[..n], Offline(cfg, history, instants, n))
  {
    hide OfflineAt, NothingAt, ShowsMeans, AllBoxcar;
    if n > 0 {
      OfflineIs(cfg, history, instants, n - 1);
      OfflineAtIs(cfg, history, instants[n - 1]);
      EmittedNext(cfg, history, instants[..n - 1], Offline(cfg, history, instants, n - 1), instants[n - 1],
                  OfflineAt(cfg, history, instants[n - 1]));
      assert instants[..n - 1] + [instants[n - 1]] == instants[..n];
    }
  }

  lemma EmittedNext(cfg: Config, history: seq<Record>, instants: seq<real>, out: seq<Emission>, t: real,
                    more: seq<Emission>)
    requires AllBoxcar(cfg) && EmittedFor(cfg, history, instants, out)
    requires forall k :: 0 <= k < |instants| ==> instants[k] < t
    requires if NothingAt(cfg, history, t) then more == []
             else |more| == 1 && more[0].time == t && ShowsMeans(cfg, history, more[0])
    ensures EmittedFor(cfg, history, instants + [t], out + more)
  {
    hide NothingAt, ShowsMeans, AllBoxcar;
    var all := out + more;
    forall k | 0 <= k < |instants + [t]| && !NothingAt(cfg, history, (instants + [t])[k])
      ensures exists j :: 0 <= j < |all| && all[j].time == (instants + [t])[k]
    {
      if k < |instants| {
        var j :| 0 <= j < |out| && out[j].time == instants[k];
        assert all[j].time == instants[k];
      } else {
        assert all[|out|].time == t;
      }
    }
  }

  /** first, first + interval, ... as far as they are before bound. */
  predicate AreAll(instants: seq<real>, first: real, bound: real, interval: real) {
    && (forall k :: 0 <= k < |instants| ==> instants[k] == Instant(first, k, interval) && instants[k] < bound)
    && Instant(first, |instants|, interval) >= bound
  }

  /** So in order, at each instant first, first + interval, ... earlier than half a cache window before the
      latest record, and nowhere else, a record comes out with the means of all the values around it, if
      there are any. */
  lemma EmittedAreMeans(cfg: Config, history: seq<Record>)
    requires cfg.interval > 0.0 && AllBoxcar(cfg)
    requires history != [] && InOrder(history)
    ensures var bound := Latest(history) - cfg.window / 2.0;
            exists instants :: AreAll(instants, history[0].time, bound, cfg.interval) &&
                               EmittedFor(cfg, history, instants, AllOutput(cfg, history))
  {
    hide *;
    var g := Grid(history[0].time, Latest(history) - cfg.window / 2.0, cfg.interval);
    GridIsAll(history[0].time, Latest(history) - cfg.window / 2.0, cfg.interval);
    EmittedOnGrid(cfg, history, g);
  }

  lemma EmittedOnGrid(cfg: Config, history: seq<Record>, g: seq<real>)
    requires cfg.interval > 0.0 && AllBoxcar(cfg) && history != [] && InOrder(history) && Increasing(g)
    requires g == Grid(history[0].time, Latest(history) - cfg.window / 2.0, cfg.interval)
    ensures EmittedFor(cfg, history, g, AllOutput(cfg, history))
  {
    hide *;
    OnlineEqualsOffline(cfg, history);
    OfflineIs(cfg, history, g, |g|);
    assert g[..|g|] == g;
  }

  lemma GridIsAll(first: real, bound: real, interval: real)
    requires interval > 0.0
    ensures AreAll(Grid(first, bound, interval), first, bound, interval) && Increasing(Grid(first, bound, interval))
  {
    hide Grid, Instant, Increasing;
    GridAt(first, bound, interval);
    GridIncreases(interval, first, Grid(first, bound, interval));
  }

  lemma GridIncreases(interval: real, first: real, g: seq<real>)
    requires interval > 0.0 && forall k :: 0 <= k < |g| ==> g[k] == Instant(first, k, interval)
    ensures Increasing(g)
  {
    forall j, k | 0 <= j < k < |g| ensures g[j] < g[k] {
      assert (k - j) as real * interval > 0.0;
      assert k as real * interval == j as real * interval + (k - j) as real * interval;
    }
  }

  /** Every instant visited so far is more than half a cache window before the latest record. */
  lemma VisitedIsPast(cfg: Config, history: seq<Record>)
    requires cfg.interval > 0.0 && InOrder(history)
    ensures forall k :: 0 <= k < |Visited(cfg, history)| ==>
              history != [] && Visited(cfg, history)[k] + cfg.window / 2.0 < Latest(history)
  {
    if history == [] {
      NothingVisited(cfg);
    } else {
      assert history[0].fields != map[] && history[0].time > 0.0;
      hide ClockAfter, Latest, Grid, GridEnd, Instant, Visited, InOrder;
      EachInstantOnce(cfg, history);
      LatestIs(cfg, history);
      GridAt(history[0].time, Bound(cfg, ClockAfter(cfg, history)), cfg.interval);
    }
  }

  lemma {:induction false} OutputIsOffline(cfg: Config, history: seq<Record>)
    requires cfg.interval > 0.0 && AllBoxcar(cfg) && InOrder(history)
    ensures AllOutput(cfg, history) == Offline(cfg, history, Visited(cfg, history), |Visited(cfg, history)|)
  {
    if history == [] {
      assert AllOutput(cfg, history) == [] && Visited(cfg, history) == [];
    } else {
      var h, r := Init(history), Last(history);
      assert h + [r] == history;
      hide *;
      InOrderBefore(h, r);
      OutputIsOffline(cfg, h);
      VisitedIsPast(cfg, h);
      NothingVisited(cfg);
      OutputStep(cfg, h, r);
    }
  }

  lemma NothingVisited(cfg: Config)
    requires cfg.interval > 0.0
    ensures Visited(cfg, []) == []
  {
  }

  lemma OutputStep(cfg: Config, h: seq<Record>, r: Record)
    requires cfg.interval > 0.0 && AllBoxcar(cfg) && Steady(h + [r])
    requires AllOutput(cfg, h) == Offline(cfg, h, Visited(cfg, h), |Visited(cfg, h)|)
    requires r.fields != map[] ==>
               forall k :: 0 <= k < |Visited(cfg, h)| ==> Visited(cfg, h)[k] + cfg.window / 2.0 < r.time
    ensures var all := Visited(cfg, h + [r]);
            AllOutput(cfg, h + [r]) == Offline(cfg, h + [r], all, |all|)
  {
    hide Offline, Rows, Output, ClockAfter, Instants, AllBoxcar, AllArrivals, Steady;
    var before, now := Visited(cfg, h), Due(cfg, h, r);
    assert Init(h + [r]) == h;
    assert Visited(cfg, h + [r]) == before + now;
    EvictionNeverShows(cfg, h, r);
    RowsAreOffline(cfg, h + [r], now, |now|);
    assert AllOutput(cfg, h + [r]) == Offline(cfg, h, before, |before|) + Offline(cfg, h + [r], now, |now|);
    hide *;
    RowsAreFinal(cfg, h, r, before, |before|);
    OfflineConcat(cfg, h + [r], before, now, |now|);
  }

  // ---- Eviction can show when the clock comes back to zero ----

  const SECONDS := Config(map["AvgX" := Spec("X", Boxcar(1.0))], 1.0, 1.0)
  const EARLY := Record(-2.0, map["X" := 10.0])
  const LATE := Record(1.0, map["X" := 20.0])

  lemma ShortGrids()
    ensures Grid(-2.0, -0.5, 1.0) == [-2.0, -1.0] && Grid(-2.0, 0.5, 1.0) == [-2.0, -1.0, 0.0]
  {
    assert Grid(0.0, -0.5, 1.0) == [] && Grid(1.0, 0.5, 1.0) == [];
    assert Grid(-1.0, -0.5, 1.0) == [-1.0] && Grid(0.0, 0.5, 1.0) == [0.0];
    assert Grid(-1.0, 0.5, 1.0) == [-1.0, 0.0];
  }

  lemma EarlyClock()
    ensures ClockAfter(SECONDS, [EARLY]) == Clock(Fin(0.0), Fin(-2.0), 0.0)
    ensures Due(SECONDS, [], EARLY) == [-2.0, -1.0]
    ensures Due(SECONDS, [EARLY], LATE) == [-2.0, -1.0, 0.0]
  {
    ShortGrids();
    hide Grid;
    assert [EARLY][..0] == [];
    assert ClockAfter(SECONDS, []) == CLOCK_AT_START;
    var s := Started(Seen(CLOCK_AT_START, EARLY));
    assert "X" in EARLY.fields;
    assert s == Clock(Fin(-2.0), Fin(-2.0), 0.0) && Bound(SECONDS, s) == -0.5;
    assert "X" in LATE.fields;
  }

  lemma OneSource()
    ensures "X" in Sources(SECONDS)
  {
    assert SECONDS.specs["AvgX"].source == "X";
  }

  lemma EarlyIsGone()
    ensures "X" in Sources(SECONDS) && Kept(SECONDS, [EARLY])["X"] == []
  {
    OneSource();
    EarlyClock();
    NothingKept(SECONDS, "X");
    KeptFieldNext(SECONDS, [], EARLY, "X");
    assert [] + [EARLY] == [EARLY];
    hide ClockAfter, Due, Kept;
    var points := [Point(-2.0, 10.0)];
    assert Absorb([], EARLY, "X") == points;
    BisectIs(points, -1.5, 1);
  }

  lemma BothArrived()
    ensures Arrivals([EARLY, LATE], "X") == [Point(-2.0, 10.0), Point(1.0, 20.0)]
  {
    ArrivalsNext([], EARLY, "X");
    ArrivalsNext([EARLY], LATE, "X");
    assert [] + [EARLY] == [EARLY] && [EARLY] + [LATE] == [EARLY, LATE];
    BisectIs([Point(-2.0, 10.0)], 1.0, 1);
  }

  lemma OnePointBefore()
    ensures Interpolate(Boxcar(1.0), Since([Point(-2.0, 10.0), Point(1.0, 20.0)], -2.5), -2.0) == Some(10.0)
    ensures Interpolate(Boxcar(1.0), Since([Point(1.0, 20.0)], -2.5), -2.0) == None
  {
    var (both, one) := ([Point(-2.0, 10.0), Point(1.0, 20.0)], [Point(1.0, 20.0)]);
    BisectIs(both, -2.5, 0);
    BisectIs(one, -2.5, 0);
    assert both[..1] == [Point(-2.0, 10.0)] && one[..0] == [] && both[..1][..0] == [];
    assert Window(both, -2.5, -1.5) == [10.0] && Window(one, -2.5, -1.5) == [];
    assert [10.0][..0] == [];
    assert Mean([10.0]) == 10.0;
  }

  /** The first record is evicted while the clock goes from -2 to 0; the second makes it start again at -2,
      where what is left of the cache has no value and all the arrivals have one. */
  lemma EvictionCanShow()
    ensures !Steady([EARLY, LATE])
    ensures -2.0 in Due(SECONDS, [EARLY], LATE)
    ensures ValueAt(SECONDS, Evicted(Absorbed(Kept(SECONDS, [EARLY]), LATE), -2.5), "AvgX", -2.0) == None
    ensures ValueAt(SECONDS, Evicted(AllArrivals(SECONDS, [EARLY, LATE]), -2.5), "AvgX", -2.0) == Some(10.0)
  {
    hide *;
    NotSteady();
    EarlyClock();
    KeptShowsNone();
    ArrivedShowsOne();
  }

  lemma NotSteady()
    ensures !Steady([EARLY, LATE])
  {
    assert [EARLY, LATE][0] == EARLY && "X" in EARLY.fields;
  }

  lemma KeptShowsNone()
    ensures ValueAt(SECONDS, Evicted(Absorbed(Kept(SECONDS, [EARLY]), LATE), -2.5), "AvgX", -2.0) == None
  {
    EarlyIsGone();
    OnePointBefore();
    hide ClockAfter, Kept, Interpolate, Since;
    assert Absorb([], LATE, "X") == [Point(1.0, 20.0)];
  }

  lemma ArrivedShowsOne()
    ensures ValueAt(SECONDS, Evicted(AllArrivals(SECONDS, [EARLY, LATE]), -2.5), "AvgX", -2.0) == Some(10.0)
  {
    OneSource();
    BothArrived();
    OnePointBefore();
    hide Arrivals, Interpolate, Since;
  }
}
