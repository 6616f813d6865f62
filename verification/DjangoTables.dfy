/**
 What each update of DjangoServerAPI by itself does, told from the tables before and after.
 */
module DjangoTables {
  import opened Common
  import opened DjangoCaches
  import opened DjangoUpdates

  /** The mode names a configuration for the logger, and that exists and is the logger's own. */
  predicate MayRun(db: Database, mode: string, l: string) {
    && mode in db.assignments && l in db.assignments[mode]
    && db.assignments[mode][l] in db.configs && db.configs[db.assignments[mode][l]].logger == l
  }

  /** The configuration that a change of mode makes current for a logger, if any. */
  function MadeCurrent(db: Database, mode: string, l: string): Option<string> {
    if MayRun(db, mode, l) then Some(db.assignments[mode][l])
    else if MayRun(db, "off", l) then Some(db.assignments["off"][l])
    else None
  }

  /** Where a change of mode puts a logger: in the mode's configuration, else in that of mode off, else it
      stays where it was. */
  predicate Lands(db: Database, mode: string, l: string, now: Option<string>)
    requires l in db.loggers
  {
    now == if MadeCurrent(db, mode, l).Some? then MadeCurrent(db, mode, l) else db.loggers[l]
  }

  /** A change of mode cannot handle this logger: the configuration it had is gone, or it may not run in the mode
      and there is no mode off. */
  predicate Halts(db: Database, mode: string, l: string)
    requires l in db.loggers
  {
    (db.loggers[l].Some? && db.loggers[l].value !in db.configs) || (!MayRun(db, mode, l) && "off" !in db.assignments)
  }

  /** The same rows, but for which are current. */
  predicate SameButFlags(a: map<string, Row>, b: map<string, Row>) {
    a.Keys == b.Keys && forall n :: n in a.Keys ==> a[n].(current := false) == b[n].(current := false)
  }

  // ---- set_active_mode ----

  lemma ChoiceIs(db: Database, mode: string, l: string)
    requires db.cruise && mode in db.assignments && l in db.loggers
    ensures var c := Choice(db, SetMode(mode), l);
            && (c.Raised? <==> !MayRun(db, mode, l) && "off" !in db.assignments)
            && (c.Ok? ==> (c.value.Some? <==> MayRun(db, mode, l) || MayRun(db, "off", l)))
            && (c.Ok? ==> Lands(db, mode, l, if c.value.Some? then c.value else db.loggers[l]))
  {
  }

  lemma HandledRows(db: Database, op: Op, task: Task)
    ensures SameButFlags(Handled(db, op, task).configs, db.configs)
  {
    hide Choice;
    assert !Bad(db, op, task) && Choice(db, op, task.logger).value.Some? ==> Choice(db, op, task.logger).value.value in db.configs by {
      if !Bad(db, op, task) && Choice(db, op, task.logger).value.Some? { ChoiceExists(db, op, task.logger); }
    }
  }

  /** Where handling this logger leaves it. */
  function Landing(db: Database, op: Op, task: Task): Option<string> {
    if !Bad(db, op, task) && Choice(db, op, task.logger).value.Some? then Choice(db, op, task.logger).value else task.had
  }

  lemma HandledLoggers(db: Database, op: Op, task: Task)
    requires task.logger in db.loggers && task.had == db.loggers[task.logger]
    ensures var d := Handled(db, op, task);
            && d.(loggers := db.loggers, configs := db.configs) == db
            && d.loggers == db.loggers[task.logger := Landing(db, op, task)]
  {
    hide Choice;
    if !Bad(db, op, task) && Choice(db, op, task.logger).value.Some? { ChoiceExists(db, op, task.logger); }
  }

  lemma SameFlagsTwice(a: map<string, Row>, b: map<string, Row>, c: map<string, Row>)
    requires SameButFlags(a, b) && SameButFlags(b, c)
    ensures SameButFlags(a, c)
  {
  }

  /** No row but for its flag, no mode and no logger comes or goes. */
  lemma {:induction false} LoopFrame(db: Database, op: Op, todo: seq<Task>)
    requires AsListed(db, todo)
    ensures var d := AfterLoop(db, op, todo);
            && d.(loggers := db.loggers, configs := db.configs) == db
            && d.loggers.Keys == db.loggers.Keys && SameButFlags(d.configs, db.configs)
    decreases |todo|
  {
    if todo != [] {
      var d := Handled(db, op, todo[0]);
      assert todo[0].logger in db.loggers;
      HandledLoggers(db, op, todo[0]);
      HandledRows(db, op, todo[0]);
      if !Bad(db, op, todo[0]) {
        StillListed(db, op, todo);
        hide Handled, Bad, Choice, SameButFlags, AsListed, Landing;
        LoopFrame(d, op, todo[1..]);
        SameFlagsTwice(AfterLoop(d, op, todo[1..]).configs, d.configs, db.configs);
      }
    } else {
      assert SameButFlags(db.configs, db.configs);
    }
  }

  lemma StillListed(db: Database, op: Op, todo: seq<Task>)
    requires AsListed(db, todo) && todo != []
    ensures AsListed(Handled(db, op, todo[0]), todo[1..])
  {
    HandledLoggers(db, op, todo[0]);
    hide Handled, Landing;
  }

  lemma {:induction false} LoopLeavesLogger(db: Database, op: Op, todo: seq<Task>, l: string)
    requires AsListed(db, todo) && l in db.loggers && forall i :: 0 <= i < |todo| ==> todo[i].logger != l
    ensures l in AfterLoop(db, op, todo).loggers && AfterLoop(db, op, todo).loggers[l] == db.loggers[l]
    decreases |todo|
  {
    if todo != [] {
      HandledLoggers(db, op, todo[0]);
      if !Bad(db, op, todo[0]) {
        StillListed(db, op, todo);
        hide Handled, Bad, Choice, AsListed, Landing;
        LoopLeavesLogger(Handled(db, op, todo[0]), op, todo[1..], l);
      }
    }
  }

  /** The loggers before the first bad one are moved or skipped, and the others are where they were. */
  lemma {:induction false} LoopLandsLogger(db: Database, op: Op, todo: seq<Task>, i: nat)
    requires AsListed(db, todo) && i < |todo|
    ensures var d := AfterLoop(db, op, todo);
            todo[i].logger in d.loggers &&
            d.loggers[todo[i].logger] == if i < FirstBad(db, op, todo) then Landing(db, op, todo[i]) else todo[i].had
    decreases |todo|
  {
    var d, l := Handled(db, op, todo[0]), todo[i].logger;
    assert todo[0].logger in db.loggers;
    HandledLoggers(db, op, todo[0]);
    assert i > 0 ==> todo[0].logger != l;
    if Bad(db, op, todo[0]) {
      LandsBad(db, op, todo);
    } else {
      StillListed(db, op, todo);
      if i == 0 {
        assert forall j :: 0 <= j < |todo[1..]| ==> todo[1..][j].logger != l;
        hide Handled, Bad, Choice, AsListed, Landing;
        LoopLeavesLogger(d, op, todo[1..], l);
      } else {
        hide Handled, Bad, Choice, AsListed;
        BadIsSettled(db, op, todo[0], todo[1..]);
        LoopLandsLogger(d, op, todo[1..], i - 1);
      }
    }
  }

  lemma LandsBad(db: Database, op: Op, todo: seq<Task>)
    requires todo != [] && Bad(db, op, todo[0])
    ensures FirstBad(db, op, todo) == 0 && Landing(db, op, todo[0]) == todo[0].had
    ensures AfterLoop(db, op, todo) == Handled(db, op, todo[0])
  {
  }

  lemma HaltsIfBad(db: Database, mode: string, task: Task)
    requires db.cruise && mode in db.assignments && task.logger in db.loggers && task.had == db.loggers[task.logger]
    ensures Bad(db, SetMode(mode), task) <==> Halts(db, mode, task.logger)
    ensures !Bad(db, SetMode(mode), task) ==> Lands(db, mode, task.logger, Landing(db, SetMode(mode), task))
  {
    ChoiceIs(db, mode, task.logger);
    hide Choice;
  }

  /** The change came to logger k, which it cannot handle, or to the end. The loggers before k land where the mode
      puts them, and the others stay. */
  predicate CameTo(db: Database, mode: string, order: seq<Task>, k: nat, loggers: map<string, Option<string>>) {
    && k <= |order| && loggers.Keys == db.loggers.Keys
    && (forall i :: 0 <= i < |order| ==> order[i].logger in db.loggers)
    && (forall i :: 0 <= i < k ==>
          !Halts(db, mode, order[i].logger) && Lands(db, mode, order[i].logger, loggers[order[i].logger]))
    && (k < |order| ==> Halts(db, mode, order[k].logger))
    && (forall i :: k <= i < |order| ==> loggers[order[i].logger] == db.loggers[order[i].logger])
  }

  lemma LoopComesTo(db: Database, mode: string, order: seq<Task>)
    requires db.cruise && mode in db.assignments && AsListed(db, order)
    ensures CameTo(db, mode, order, FirstBad(db, SetMode(mode), order), AfterLoop(db, SetMode(mode), order).loggers)
  {
    var (op, k) := (SetMode(mode), FirstBad(db, SetMode(mode), order));
    LoopFrame(db, op, order);
    hide AfterLoop, Bad, Choice, Halts, Lands, Landing, SameButFlags;
    forall i | 0 <= i < |order|
      ensures Bad(db, op, order[i]) <==> Halts(db, mode, order[i].logger)
      ensures i < k ==> Lands(db, mode, order[i].logger, AfterLoop(db, op, order).loggers[order[i].logger])
      ensures i >= k ==> AfterLoop(db, op, order).loggers[order[i].logger] == db.loggers[order[i].logger]
    {
      HaltsIfBad(db, mode, order[i]);
      LoopLandsLogger(db, op, order, i);
    }
  }

  /** Of the logger's own rows the one it has is no longer current, and this one, if any, is. */
  predicate FlagsMove(db: Database, d: Database, l: string, to: Option<string>)
    requires l in db.loggers && db.configs.Keys == d.configs.Keys
  {
    forall n :: n in db.configs.Keys && db.configs[n].logger == l ==>
      (d.configs[n].current <==> to == Some(n) || (db.configs[n].current && db.loggers[l] != Some(n)))
  }

  predicate FlagsStay(db: Database, d: Database, l: string)
    requires db.configs.Keys == d.configs.Keys
  {
    forall n :: n in db.configs.Keys && db.configs[n].logger == l ==> (d.configs[n].current <==> db.configs[n].current)
  }

  lemma HandledFlags(db: Database, mode: string, task: Task)
    requires db.cruise && mode in db.assignments && Stands(db, task)
    ensures var (l, d) := (task.logger, Handled(db, SetMode(mode), task));
            && d.configs.Keys == db.configs.Keys
            && FlagsMove(db, d, l, if Halts(db, mode, l) then None else MadeCurrent(db, mode, l))
  {
    var op := SetMode(mode);
    ChoiceIs(db, mode, task.logger);
    HaltsIfBad(db, mode, task);
    if !Bad(db, op, task) && Choice(db, op, task.logger).value.Some? { ChoiceExists(db, op, task.logger); }
    hide Choice;
  }

  lemma SameFlagsMove(db: Database, a: Database, b: Database, l: string, to: Option<string>)
    requires l in db.loggers && SameLogger(a, b, l) && SameButFlags(a.configs, db.configs) && SameButFlags(b.configs, db.configs)
    ensures FlagsMove(db, a, l, to) <==> FlagsMove(db, b, l, to)
  {
    assert forall n :: n in db.configs.Keys && db.configs[n].logger == l ==>
      Owns(a, l, n) && Owns(b, l, n) && a.configs[n] == b.configs[n] by {
      forall n | n in db.configs.Keys && db.configs[n].logger == l ensures Owns(a, l, n) && Owns(b, l, n) {
        assert a.configs[n].(current := false) == db.configs[n].(current := false);
        assert b.configs[n].(current := false) == db.configs[n].(current := false);
      }
    }
  }

  lemma SameFlagsStay(db: Database, d: Database, l: string)
    requires SameLogger(db, d, l) && SameButFlags(d.configs, db.configs)
    ensures FlagsStay(db, d, l)
  {
    forall n | n in db.configs.Keys && db.configs[n].logger == l ensures d.configs[n].current <==> db.configs[n].current {
      assert d.configs[n].(current := false) == db.configs[n].(current := false);
      assert Owns(db, l, n) && Owns(d, l, n);
    }
  }

  /** What a change of mode that came to logger k does to the flags of a logger's rows: of one before k, its old
      row is no longer current and its new one is; of k, the old row is no longer current; of all other loggers
      nothing changes. */
  predicate FlagsCame(db: Database, mode: string, order: seq<Task>, k: nat, d: Database, l: string)
    requires k <= |order| && db.configs.Keys == d.configs.Keys
    requires forall i :: 0 <= i < |order| ==> order[i].logger in db.loggers
  {
    && (forall i :: 0 <= i < k && order[i].logger == l ==> FlagsMove(db, d, l, MadeCurrent(db, mode, l)))
    && (k < |order| && order[k].logger == l ==> FlagsMove(db, d, l, None))
    && ((forall i :: 0 <= i < |order| && i <= k ==> order[i].logger != l) ==> FlagsStay(db, d, l))
  }

  lemma LoopFlags(db: Database, mode: string, order: seq<Task>, l: string)
    requires db.cruise && mode in db.assignments && OwnConfigs(db) && AsListed(db, order)
    ensures var (d, k) := (AfterLoop(db, SetMode(mode), order), FirstBad(db, SetMode(mode), order));
            d.configs.Keys == db.configs.Keys && FlagsCame(db, mode, order, k, d, l)
  {
    var (op, d, k) := (SetMode(mode), AfterLoop(db, SetMode(mode), order), FirstBad(db, SetMode(mode), order));
    LoopFrame(db, op, order);
    hide AfterLoop, Bad, Choice, Halts, FlagsMove, FlagsStay, SameLogger, SameButFlags, MadeCurrent, OwnConfigs, Handled;
    forall i | 0 <= i < |order| && i <= k && order[i].logger == l
      ensures FlagsMove(db, d, l, if i == k then None else MadeCurrent(db, mode, l))
    {
      LoopHandles(db, op, order, i);
      HandledFlags(db, mode, order[i]);
      HaltsIfBad(db, mode, order[i]);
      HandledRows(db, op, order[i]);
      SameFlagsMove(db, Handled(db, op, order[i]), d, l, if i == k then None else MadeCurrent(db, mode, l));
    }
    if forall i :: 0 <= i < |order| && i <= k ==> order[i].logger != l {
      LoopLeaves(db, op, order, l);
      SameFlagsStay(db, d, l);
    }
  }

  /** A change to a mode that exists puts the loggers, one after the other, where the mode says, up to one that it
      cannot handle, and is stamped if and only if there is none. Nothing else changes but the active mode and
      current flags; these follow the loggers where each logger's configuration is one of its own. */
  lemma ModeChangeIs(s: State, p: nat, mode: string, order: seq<Task>)
    requires At(s, p, Update(SetMode(mode), Begin)) && !s.shared.dirty && Lists(order, s.shared.db)
    requires s.shared.db.cruise && mode in s.shared.db.assignments
    ensures var (db, t) := (s.shared.db, Finish(s, p, order).shared);
            && t.db.(loggers := db.loggers, configs := db.configs) == db.(activeMode := mode)
            && SameButFlags(t.db.configs, db.configs)
            && exists k: nat :: CameTo(db, mode, order, k, t.db.loggers) &&
                                (OwnConfigs(db) ==> forall l :: FlagsCame(db, mode, order, k, t.db, l)) &&
                                if k == |order| then t.stamp > s.shared.now else t.stamp == s.shared.stamp
  {
    var (was, op, t) := (s.shared.db, SetMode(mode), Finish(s, p, order).shared);
    var db := was.(activeMode := mode);
    hide Finish, AfterLoop, Writes, FirstBad, SameButFlags;
    SetModeAlone(s, p, mode, order);
    assert AsListed(db, order);
    LoopFrame(db, op, order);
    LoopComesTo(db, mode, order);
    var k := FirstBad(db, op, order);
    ModeIgnored(was, mode, order, k, t.db.loggers);
    assert CameTo(was, mode, order, k, t.db.loggers);
    if OwnConfigs(was) {
      forall l ensures FlagsCame(was, mode, order, k, t.db, l) {
        LoopFlags(db, mode, order, l);
        FlagsIgnoreMode(was, mode, order, k, t.db, l);
      }
    }
  }

  lemma FlagsIgnoreMode(db: Database, mode: string, order: seq<Task>, k: nat, d: Database, l: string)
    requires k <= |order| && db.configs.Keys == d.configs.Keys
    requires forall i :: 0 <= i < |order| ==> order[i].logger in db.loggers
    ensures FlagsCame(db.(activeMode := mode), mode, order, k, d, l) <==> FlagsCame(db, mode, order, k, d, l)
  {
    assert MadeCurrent(db.(activeMode := mode), mode, l) == MadeCurrent(db, mode, l);
    hide MadeCurrent;
  }

  lemma ModeIgnored(db: Database, mode: string, order: seq<Task>, k: nat, loggers: map<string, Option<string>>)
    ensures CameTo(db.(activeMode := mode), mode, order, k, loggers) <==> CameTo(db, mode, order, k, loggers)
  {
    var a := db.(activeMode := mode);
    assert forall l :: l in db.loggers ==> (Halts(a, mode, l) <==> Halts(db, mode, l));
    assert forall l, now :: l in db.loggers ==> (Lands(a, mode, l, now) <==> Lands(db, mode, l, now));
    hide Halts, Lands;
  }

  /** As many different names as there are keys are all of them. */
  lemma {:induction false} AllNamed(names: seq<string>, keys: set<string>)
    requires |names| == |keys| && (forall i :: 0 <= i < |names| ==> names[i] in keys)
    requires forall i, j :: 0 <= i < j < |names| ==> names[i] != names[j]
    ensures forall l :: l in keys ==> l in names
  {
    if names != [] {
      var n := |names| - 1;
      AllNamed(names[..n], keys - {names[n]});
      forall l | l in keys && l != names[n] ensures l in names { assert l in keys - {names[n]} && l in names[..n]; }
    }
  }

  lemma ListsAll(db: Database, order: seq<Task>)
    requires Lists(order, db)
    ensures forall l :: l in db.loggers ==> exists i :: 0 <= i < |order| && order[i].logger == l
  {
    var names := seq(|order|, i requires 0 <= i < |order| => order[i].logger);
    AllNamed(names, db.loggers.Keys);
    forall l | l in db.loggers ensures exists i :: 0 <= i < |order| && order[i].logger == l {
      var i :| 0 <= i < |names| && names[i] == l;
      assert order[i].logger == l;
    }
  }

  /** So it is stamped if and only if it can handle every logger, and then every logger is where the mode says. */
  lemma ModeChangeIsStampedIff(s: State, p: nat, mode: string, order: seq<Task>)
    requires At(s, p, Update(SetMode(mode), Begin)) && !s.shared.dirty && Lists(order, s.shared.db)
    requires s.shared.db.cruise && mode in s.shared.db.assignments && s.shared.stamp <= s.shared.now
    ensures var (db, t) := (s.shared.db, Finish(s, p, order).shared);
            && t.db.loggers.Keys == db.loggers.Keys
            && (t.stamp > s.shared.now <==> forall l :: l in db.loggers ==> !Halts(db, mode, l))
            && (t.stamp > s.shared.now ==> forall l :: l in db.loggers ==> Lands(db, mode, l, t.db.loggers[l]))
  {
    var (db, t) := (s.shared.db, Finish(s, p, order).shared);
    ListsAll(db, order);
    hide Finish, Halts, Lands, SameButFlags, Lists;
    ModeChangeIs(s, p, mode, order);
    var k: nat :| CameTo(db, mode, order, k, t.db.loggers) &&
             if k == |order| then t.stamp > s.shared.now else t.stamp == s.shared.stamp;
    if k == |order| {
      forall l | l in db.loggers ensures !Halts(db, mode, l) && Lands(db, mode, l, t.db.loggers[l]) {
        var i :| 0 <= i < |order| && order[i].logger == l;
        assert !Halts(db, mode, order[i].logger);
      }
    }
  }

  // ---- The other two updates ----

  /** set_active_logger_config moves the logger and stamps that if and only if the logger exists, the
      configuration it had still does, and the new one exists and is its own. Otherwise it raises; then at most
      the flag of the configuration it had is gone. */
  lemma SetLoggerIs(s: State, p: nat, logger: string, name: string)
    requires At(s, p, Update(SetLogger(logger, name), Begin)) && !s.shared.dirty && s.shared.stamp <= s.shared.now
    ensures var (db, t) := (s.shared.db, Finish(s, p, []).shared);
            var had := if logger in db.loggers then db.loggers[logger] else None;
            var moved := logger in db.loggers && (had.Some? ==> had.value in db.configs) &&
                         name in db.configs && db.configs[name].logger == logger;
            && (t.stamp > s.shared.now <==> moved)
            && t.db.(loggers := db.loggers, configs := db.configs) == db
            && t.db.loggers == (if moved then db.loggers[logger := Some(name)] else db.loggers)
            && SameButFlags(t.db.configs, db.configs)
            && forall n :: n in db.configs.Keys ==>
                 (t.db.configs[n].current <==> (moved && n == name) || (db.configs[n].current && had != Some(n)))
  {
    hide Finish;
    SetLoggerAlone(s, p, logger, name);
  }

  /** delete_configuration leaves nothing and stamps that. */
  lemma DeleteIs(s: State, p: nat)
    requires At(s, p, Update(Delete, Begin))
    ensures var t := Finish(s, p, []);
            && At(t, p, Idle) && t.shared.stamp > s.shared.now && !t.shared.dirty
            && !t.shared.db.cruise && t.shared.db.loggers == map[] && t.shared.db.configs == map[]
            && t.shared.db.assignments == map[]
            && Current(t.shared.db) == map[]
  {
    hide Finish, Next;
    FinishStep(s, p, Delete, Begin, []);
    FinishStep(Next(s, Go(p)), p, Delete, Stamp, []);
    NothingCurrent(Finish(s, p, []).shared.db, |s.shared.db.table|);
  }

  lemma {:induction false} NothingCurrent(db: Database, n: nat)
    requires db.configs == map[] && n <= |db.table|
    ensures Collected(db, n) == map[]
  {
    if n > 0 { NothingCurrent(db, n - 1); }
  }
}
