/**
 InterpolationTransform: each record is inserted into the per-field caches, and every grid instant
 that the latest timestamp has left half a window behind is interpolated and emitted, once.
 */
module InterpolationTransforms {
  import opened Common
  import opened Interpolation

  /** The constructor's arguments: result field to source and algorithm, seconds between instants, and
      seconds of data to keep around an instant. */
  datatype Config = Config(specs: map<string, Spec>, interval: real, window: real)

  function Sources(cfg: Config): set<string> { set d | d in cfg.specs.Keys :: cfg.specs[d].source }

  /** next_timestamp, earliest_timestamp and latest_timestamp. */
  datatype Clock = Clock(next: Time, earliest: Time, latest: real)

  const CLOCK_AT_START := Clock(Fin(0.0), Inf, 0.0)

  /** A record's effect on one field's points; a timestamp of zero counts as missing. */
  function Absorb(list: seq<Point>, r: Record, f: string): seq<Point> {
    if f in r.fields && r.time != 0.0 then Insert(list, Point(r.time, r.fields[f])) else list
  }

  // ---- The clock ----

  function Seen(c: Clock, r: Record): Clock {
    if r.fields == map[] then c
    else c.(earliest := if c.earliest.Inf? || r.time < c.earliest.t then Fin(r.time) else c.earliest,
            latest := if r.time > c.latest then r.time else c.latest)
  }

  /** if not self.next_timestamp: self.next_timestamp = self.earliest_timestamp */
  function Started(c: Clock): Clock { if c.next == Fin(0.0) then c.(next := c.earliest) else c }

  function Bound(cfg: Config, c: Clock): real { c.latest - cfg.window / 2.0 }

  /** How many instants from t on are before bound. */
  function Steps(t: real, bound: real, interval: real): nat
    requires interval > 0.0
  {
    if t < bound then ((bound - t) / interval).Floor + 1 else 0
  }

  lemma StepsDrop(t: real, bound: real, interval: real)
    requires interval > 0.0 && t < bound
    ensures Steps(t + interval, bound, interval) < Steps(t, bound, interval)
  {
    var q := (bound - t) / interval;
    Quotient(bound - (t + interval), q - 1.0, interval);
  }

  /** The n-th instant after t. */
  function Instant(t: real, n: nat, interval: real): real { t + n as real * interval }

  lemma NextInstant(t: real, n: nat, interval: real)
    ensures Instant(t, 0, interval) == t
    ensures Instant(t + interval, n, interval) == Instant(t, n + 1, interval) == Instant(t, n, interval) + interval
  {
    assert (n + 1) as real * interval == n as real * interval + interval;
  }

  /** The grid instants from t on that are before bound. */
  function Grid(t: real, bound: real, interval: real): seq<real>
    requires interval > 0.0
    decreases Steps(t, bound, interval)
  {
    if t < bound then
      StepsDrop(t, bound, interval);
      [t] + Grid(t + interval, bound, interval)
    else []
  }

  function GridEnd(t: real, bound: real, interval: real): real
    requires interval > 0.0
  {
    Instant(t, |Grid(t, bound, interval)|, interval)
  }

  /** The grid visits t, t + interval, t + 2 interval, ... once each, and stops at the first instant not
      before bound. */
  lemma {:induction false} GridAt(t: real, bound: real, interval: real)
    requires interval > 0.0
    ensures var g := Grid(t, bound, interval);
            && (forall k :: 0 <= k < |g| ==> g[k] == Instant(t, k, interval) && g[k] < bound)
            && GridEnd(t, bound, interval) >= bound
    decreases Steps(t, bound, interval)
  {
    hide Instant;
    NextInstant(t, |Grid(t + interval, bound, interval)|, interval);
    if t < bound {
      StepsDrop(t, bound, interval);
      GridAt(t + interval, bound, interval);
      var g, h := Grid(t, bound, interval), Grid(t + interval, bound, interval);
      forall k | 0 <= k < |g| ensures g[k] == Instant(t, k, interval) && g[k] < bound {
        if k > 0 {
          assert g[k] == h[k - 1];
          NextInstant(t, k - 1, interval);
        }
      }
    }
  }

  /** A grid from t and its end, seen from its second instant. */
  lemma GridNext(t: real, bound: real, interval: real)
    requires interval > 0.0
    ensures Grid(t, bound, interval) == if t < bound then [t] + Grid(t + interval, bound, interval) else []
    ensures GridEnd(t, bound, interval) == if t < bound then GridEnd(t + interval, bound, interval) else t
  {
    hide Instant;
    NextInstant(t, |Grid(t + interval, bound, interval)|, interval);
  }

  /** Going on to a later bound from where an earlier one stopped visits the same instants as going
      there at once. */
  lemma {:induction false} GridSplits(t: real, b: real, bound: real, interval: real)
    requires interval > 0.0 && b <= bound
    ensures Grid(t, bound, interval) == Grid(t, b, interval) + Grid(GridEnd(t, b, interval), bound, interval)
    ensures GridEnd(t, bound, interval) == GridEnd(GridEnd(t, b, interval), bound, interval)
    decreases Steps(t, b, interval)
  {
    hide Grid, GridEnd;
    GridNext(t, b, interval);
    if t < b {
      StepsDrop(t, b, interval);
      hide *;
      GridSplits(t + interval, b, bound, interval);
      GridNext(t, bound, interval);
    }
  }

  /** The instants one call of transform visits, and where it leaves the clock. */
  function Instants(cfg: Config, c: Clock): seq<real>
    requires cfg.interval > 0.0
  {
    if c.next.Inf? then [] else Grid(c.next.t, Bound(cfg, c), cfg.interval)
  }

  function Ticked(cfg: Config, c: Clock): Clock
    requires cfg.interval > 0.0
  {
    if c.next.Inf? then c else c.(next := Fin(GridEnd(c.next.t, Bound(cfg, c), cfg.interval)))
  }

  function ClockAfter(cfg: Config, history: seq<Record>): Clock
    requires cfg.interval > 0.0
  {
    if history == [] then CLOCK_AT_START
    else Ticked(cfg, Started(Seen(ClockAfter(cfg, history[..|history| - 1]), history[|history| - 1])))
  }

  // ---- What is emitted ----

  type Caches = map<string, seq<Point>>

  predicate Complete(cfg: Config, caches: Caches) {
    caches.Keys == Sources(cfg) && forall f :: f in caches.Keys ==> Sorted(caches[f])
  }

  /** _clean_cache, for all caches: what is before the limit is gone. */
  function Evicted(caches: Caches, lower: real): Caches { map f | f in caches.Keys :: Since(caches[f], lower) }

  /** _add_record, for all caches. */
  function Absorbed(caches: Caches, r: Record): Caches { map f | f in caches.Keys :: Absorb(caches[f], r, f) }

  /** The value of one result field at t. */
  function ValueAt(cfg: Config, caches: Caches, d: string, t: real): Option<real>
    requires d in cfg.specs && caches.Keys == Sources(cfg)
  {
    Interpolate(cfg.specs[d].algorithm, caches[cfg.specs[d].source], t)
  }

  function Row(cfg: Config, caches: Caches, t: real): map<string, real>
    requires caches.Keys == Sources(cfg)
  {
    map d | d in cfg.specs.Keys && ValueAt(cfg, caches, d, t).Some? :: ValueAt(cfg, caches, d, t).value
  }

  /** What is emitted at t, once what is half a window old is gone: nothing when no field has a value. */
  function RowAt(cfg: Config, caches: Caches, t: real): seq<Emission>
    requires caches.Keys == Sources(cfg)
  {
    var row := Row(cfg, Evicted(caches, t - cfg.window / 2.0), t);
    if row == map[] then [] else [Emission(t, row)]
  }

  /** What is emitted for the first n of some instants. */
  function Rows(cfg: Config, caches: Caches, instants: seq<real>, n: nat): seq<Emission>
    requires n <= |instants| && caches.Keys == Sources(cfg)
  {
    if n == 0 then []
    else Rows(cfg, caches, instants, n - 1) + RowAt(cfg, caches, instants[n - 1])
  }

  /** The caches once the first n instants have been visited. */
  function Left(cfg: Config, caches: Caches, instants: seq<real>, n: nat): Caches
    requires n <= |instants|
  {
    if n == 0 then caches else Evicted(caches, instants[n - 1] - cfg.window / 2.0)
  }

  /** Where transform(r) starts after a history of records, and the instants it visits. */
  function Due(cfg: Config, history: seq<Record>, r: Record): seq<real>
    requires cfg.interval > 0.0
  {
    Instants(cfg, Started(Seen(ClockAfter(cfg, history), r)))
  }

  /** The caches that a history of records leaves. */
  function Kept(cfg: Config, history: seq<Record>): (caches: Caches)
    requires cfg.interval > 0.0
    ensures Complete(cfg, caches)
  {
    if history == [] then map f | f in Sources(cfg) :: []
    else
      var (before, r) := (history[..|history| - 1], history[|history| - 1]);
      var caches := Absorbed(Kept(cfg, before), r);
      AbsorbedComplete(cfg, Kept(cfg, before), r);
      var due := Due(cfg, before, r);
      LeftComplete(cfg, caches, due, |due|);
      Left(cfg, caches, due, |due|)
  }

  lemma AbsorbedComplete(cfg: Config, caches: Caches, r: Record)
    requires Complete(cfg, caches)
    ensures Complete(cfg, Absorbed(caches, r))
  {
    hide Insert;
    forall f | f in caches.Keys ensures Sorted(Absorb(caches[f], r, f)) {
      if f in r.fields { InsertSorts(caches[f], Point(r.time, r.fields[f])); }
    }
  }

  lemma EvictedComplete(cfg: Config, caches: Caches, lower: real)
    requires Complete(cfg, caches)
    ensures Complete(cfg, Evicted(caches, lower))
  {
    hide Since;
    forall f | f in caches.Keys ensures Sorted(Since(caches[f], lower)) { SinceSorted(caches[f], lower); }
  }

  lemma LeftComplete(cfg: Config, caches: Caches, instants: seq<real>, n: nat)
    requires Complete(cfg, caches) && n <= |instants|
    ensures Complete(cfg, Left(cfg, caches, instants, n))
  {
    if n > 0 { EvictedComplete(cfg, caches, instants[n - 1] - cfg.window / 2.0); }
  }

  /** Evicting more after evicting less is evicting more. */
  lemma EvictedTwice(cfg: Config, caches: Caches, s: real, t: real)
    requires Complete(cfg, caches) && s <= t
    ensures Evicted(Evicted(caches, s), t) == Evicted(caches, t)
  {
    hide Since, Sorted;
    forall f | f in caches.Keys ensures Since(Since(caches[f], s), t) == Since(caches[f], t) {
      SinceTwice(caches[f], s, t);
    }
  }

  /** What transform(r) returns after a history of records. */
  function Output(cfg: Config, history: seq<Record>, r: Record): seq<Emission>
    requires cfg.interval > 0.0
  {
    var due := Due(cfg, history, r);
    Rows(cfg, Absorbed(Kept(cfg, history), r), due, |due|)
  }

  class InterpolationTransform {
    const cfg: Config
    var cached: Caches
    var clock: Clock
    ghost var history: seq<Record>

    ghost predicate Valid()
      reads this
    {
      && cfg.interval > 0.0
      && cached == Kept(cfg, history)
      && clock == ClockAfter(cfg, history)
    }

    constructor (cfg: Config)
      requires cfg.interval > 0.0
      ensures Valid() && this.cfg == cfg && history == []
    {
      this.cfg := cfg;
      cached := map f | f in Sources(cfg) :: [];
      clock := CLOCK_AT_START;
      history := [];
    }

    /** _add_record */
    method AddRecord(r: Record)
      requires Complete(cfg, cached)
      modifies this
      ensures Complete(cfg, cached) && cached == Absorbed(old(cached), r)
      ensures clock == Seen(old(clock), r) && history == old(history)
    {
      hide Insert, Sorted;
      AbsorbedComplete(cfg, cached, r);
      ghost var before := cached;
      var todo := r.fields.Keys;
      while todo != {}
        invariant todo <= r.fields.Keys && cached.Keys == before.Keys
        invariant clock == old(clock) && history == old(history)
        invariant forall f :: f in cached.Keys ==>
                    cached[f] == if f in todo then before[f] else Absorb(before[f], r, f)
      {
        var f :| f in todo;
        todo := todo - {f};
        if f in cached && r.time != 0.0 {
          cached := cached[f := Insert(cached[f], Point(r.time, r.fields[f]))];
        }
      }
      assert cached == Absorbed(before, r);
      if r.fields != map[] {
        var earliest := if clock.earliest.Inf? || r.time < clock.earliest.t then Fin(r.time) else clock.earliest;
        var latest := if r.time > clock.latest then r.time else clock.latest;
        clock := clock.(earliest := earliest, latest := latest);
      }
    }

    /** _clean_cache, for a next timestamp of t. */
    method CleanCache(t: real)
      requires Complete(cfg, cached)
      modifies this`cached
      ensures Complete(cfg, cached) && cached == Evicted(old(cached), t - cfg.window / 2.0)
    {
      hide Sorted, Since;
      var lower := t - cfg.window / 2.0;
      EvictedComplete(cfg, cached, lower);
      ghost var before := cached;
      var todo := cached.Keys;
      while todo != {}
        invariant todo <= cached.Keys == before.Keys
        invariant forall f :: f in cached.Keys ==>
                    cached[f] == if f in todo then before[f] else Since(before[f], lower)
      {
        var f :| f in todo;
        todo := todo - {f};
        var kept := Evict(cached[f], lower);
        cached := cached[f := kept];
      }
      assert cached == Evicted(before, lower);
    }

    /** One instant's result: the body of transform's loop, without the clock. */
    method ComputeRow(t: real) returns (result: map<string, real>)
      requires Complete(cfg, cached)
      ensures result == Row(cfg, cached, t)
    {
      hide Interpolate, Sorted;
      result := map[];
      var todo := cfg.specs.Keys;
      while todo != {}
        invariant todo <= cfg.specs.Keys && result.Keys <= cfg.specs.Keys - todo
        invariant forall d :: d in cfg.specs.Keys - todo ==>
                    (d in result.Keys <==> ValueAt(cfg, cached, d, t).Some?)
        invariant forall d :: d in result.Keys ==> ValueAt(cfg, cached, d, t) == Some(result[d])
      {
        var d :| d in todo;
        todo := todo - {d};
        assert cfg.specs[d].source in Sources(cfg);
        var value := InterpolateAt(cfg.specs[d].algorithm, cached[cfg.specs[d].source], t);
        if value.Some? {
          result := result[d := value.value];
        }
      }
    }

    /** transform */
    method Transform(r: Record) returns (results: seq<Emission>)
      requires Valid()
      modifies this
      ensures Valid() && history == old(history) + [r]
      ensures results == Output(cfg, old(history), r)
    {
      hide Absorbed, Seen, Started, Instants, Ticked, Rows, Left, Complete;
      ghost var before := history;
      AddRecord(r);
      if clock.next == Fin(0.0) {
        clock := clock.(next := clock.earliest);
      }
      StartedIs(Seen(old(clock), r), clock);
      results := EmitDue();
      history := history + [r];
      KeptNext(cfg, before, r);
    }

    /** transform's loop */
    method EmitDue() returns (results: seq<Emission>)
      requires cfg.interval > 0.0 && Complete(cfg, cached)
      modifies this`cached, this`clock
      ensures clock == Ticked(cfg, old(clock))
      ensures var due := Instants(cfg, old(clock));
              cached == Left(cfg, old(cached), due, |due|) && results == Rows(cfg, old(cached), due, |due|)
    {
      hide RowAt, Instant, Steps, Sorted, Evicted;
      results := [];
      ghost var instants, done, caches, first := Instants(cfg, clock), 0, cached, clock;
      if clock.next.Fin? { NextInstant(clock.next.t, 0, cfg.interval); }
      while clock.next.Fin? && clock.next.t < clock.latest - cfg.window / 2.0
        invariant Complete(cfg, cached) && done <= |instants|
        invariant clock == if first.next.Inf? then first
                           else first.(next := Fin(Instant(first.next.t, done, cfg.interval)))
        invariant done > 0 ==> clock.next.Fin? && instants[done - 1] <= clock.next.t
        invariant instants[done..] == Instants(cfg, clock)
        invariant cached == Left(cfg, caches, instants, done) && results == Rows(cfg, caches, instants, done)
        decreases if clock.next.Inf? then 0 else Steps(clock.next.t, Bound(cfg, clock), cfg.interval)
      {
        StepsDrop(clock.next.t, Bound(cfg, clock), cfg.interval);
        NextInstant(first.next.t, done, cfg.interval);
        assert instants[done] == instants[done..][0];
        SameRow(cfg, caches, instants, done);
        var emission := EmitOne();
        results := results + emission;
        done := done + 1;
      }
    }

    /** The body of transform's loop. */
    method EmitOne() returns (emission: seq<Emission>)
      requires clock.next.Fin? && cfg.interval > 0.0 && Complete(cfg, cached)
      modifies this`cached, this`clock
      ensures Complete(cfg, cached)
      ensures cached == Evicted(old(cached), old(clock).next.t - cfg.window / 2.0)
      ensures clock == old(clock).(next := Fin(old(clock).next.t + cfg.interval))
      ensures emission == RowAt(cfg, old(cached), old(clock).next.t)
    {
      hide Row, Evicted;
      CleanCache(clock.next.t);
      var row := ComputeRow(clock.next.t);
      emission := if row == map[] then [] else [Emission(clock.next.t, row)];
      clock := clock.(next := Fin(clock.next.t + cfg.interval));
    }
  }

  lemma StartedIs(c: Clock, d: Clock)
    requires d == if c.next == Fin(0.0) then c.(next := c.earliest) else c
    ensures d == Started(c)
  {
  }

  lemma KeptNext(cfg: Config, history: seq<Record>, r: Record)
    requires cfg.interval > 0.0
    ensures var (caches, due) := (Absorbed(Kept(cfg, history), r), Due(cfg, history, r));
            && Kept(cfg, history + [r]) == Left(cfg, caches, due, |due|)
            && ClockAfter(cfg, history + [r]) == Ticked(cfg, Started(Seen(ClockAfter(cfg, history), r)))
  {
    assert (history + [r])[..|history|] == history;
  }

  /** What was evicted for earlier instants is not missed at the next one. */
  lemma SameRow(cfg: Config, caches: Caches, instants: seq<real>, n: nat)
    requires Complete(cfg, caches) && n < |instants| && (n > 0 ==> instants[n - 1] <= instants[n])
    ensures Left(cfg, caches, instants, n).Keys == Sources(cfg)
    ensures RowAt(cfg, Left(cfg, caches, instants, n), instants[n]) == RowAt(cfg, caches, instants[n])
    ensures Evicted(Left(cfg, caches, instants, n), instants[n] - cfg.window / 2.0) ==
            Left(cfg, caches, instants, n + 1)
  {
    hide Row, Evicted, Sorted;
    LeftComplete(cfg, caches, instants, n);
    if n > 0 { EvictedTwice(cfg, caches, instants[n - 1] - cfg.window / 2.0, instants[n] - cfg.window / 2.0); }
  }

  /** cache[keep_index:] once everything before the limit is skipped. */
  method Evict(cache: seq<Point>, lower: real) returns (kept: seq<Point>)
    requires Sorted(cache)
    ensures kept == Since(cache, lower)
  {
    var k := 0;
    while k < |cache| && cache[k].time < lower
      invariant k <= |cache| && (k > 0 ==> cache[k - 1].time < lower)
    {
      k := k + 1;
    }
    BisectIs(cache, lower, k);
    kept := cache[k..];
  }

  /** interpolate */
  method InterpolateAt(algorithm: Algorithm, list: seq<Point>, t: real) returns (value: Option<real>)
    requires Sorted(list)
    ensures value == Interpolate(algorithm, list, t)
  {
    if list != [] && algorithm.Nearest? {
      value := FindNearest(list, t);
    } else {
      value := Interpolate(algorithm, list, t);
    }
  }
}
