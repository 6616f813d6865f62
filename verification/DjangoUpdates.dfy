/**
 One update of DjangoServerAPI running by itself: what it leaves in the tables, when it leaves them
 written and unstamped, and when that makes another process's cache wrong.
 */
module DjangoUpdates {
  import opened Common
  import opened DjangoCaches

  // ---- One update by itself ----

  /** At most this many steps are left. */
  function Left(pc: Pc, n: nat): nat {
    if !pc.Update? then 0
    else match pc.stage
      case Begin => 5 * n + 10
      case SaveCruise => 5 * n + 4
      case ListLoggers => 5 * n + 3
      case ClearOld(todo) => 5 * |todo| + 2
      case FindNew(_, todo) => 5 * |todo| + 6
      case FindOff(_, todo) => 5 * |todo| + 5
      case SaveLogger(_, todo, _, _) => 5 * |todo| + 4
      case SetFlag(todo, _, _) => 5 * |todo| + 3
      case Stamp => 1
  }

  /** What process p does next when it runs alone; order is how the loggers come when it lists them. */
  function NextAlone(s: State, p: nat, order: seq<Task>): State
    requires p < |s.procs| && s.procs[p].pc.Update?
  {
    Next(s, if s.procs[p].pc.stage == ListLoggers then List(p, order) else Go(p))
  }

  predicate CanMove(s: State, p: nat, order: seq<Task>)
    requires p < |s.procs|
  {
    s.procs[p].pc.Update? && (s.procs[p].pc.stage == ListLoggers ==> Lists(order, s.shared.db))
  }

  lemma FewerLeft(s: State, p: nat, order: seq<Task>)
    requires p < |s.procs| && CanMove(s, p, order)
    ensures var t := NextAlone(s, p, order);
            |t.procs| == |s.procs| && Left(t.procs[p].pc, |order|) < Left(s.procs[p].pc, |order|)
  {
  }

  /** Runs process p alone until its update has ended. */
  function Finish(s: State, p: nat, order: seq<Task>): State
    requires p < |s.procs|
    decreases Left(s.procs[p].pc, |order|)
  {
    if !CanMove(s, p, order) then s
    else
      FewerLeft(s, p, order);
      Finish(NextAlone(s, p, order), p, order)
  }

  predicate At(s: State, p: nat, pc: Pc) { p < |s.procs| && s.procs[p].pc == pc }

  /** Going on by one step. */
  lemma FinishStep(s: State, p: nat, op: Op, stage: Stage, order: seq<Task>)
    requires At(s, p, Update(op, stage)) && stage != ListLoggers
    ensures var t := Next(s, Go(p));
            && At(t, p, UpdatePc(s.shared, op, stage))
            && t.shared == UpdateShared(s.shared, op, stage).(now := s.shared.now + 1)
            && Finish(s, p, order) == Finish(t, p, order)
            && (!t.procs[p].pc.Update? ==> Finish(s, p, order) == t)
  {
    hide Effects, OtherTables;
  }

  /** The configuration an update moves a logger to, None if it has none for it and skips it, or an error.
      A mode without a configuration for the logger falls back on mode off. */
  function Choice(db: Database, op: Op, logger: string): Result<Option<string>> {
    match op
    case SetLogger(_, name) =>
      if Owns(db, logger, name) then Ok(Some(name)) else Raised(ValueError)
    case SetMode(mode) =>
      var found := InMode(db, logger, mode);
      if found == Ok(None) then InMode(db, logger, "off") else found
    case Delete => Ok(None)
  }

  predicate Clears(db: Database, task: Task) { task.had.Some? && task.had.value in db.configs }

  /** An update stops at this logger: the configuration it had is gone, or its new one is refused. */
  predicate Bad(db: Database, op: Op, task: Task) {
    (task.had.Some? && task.had.value !in db.configs) || Choice(db, op, task.logger).Raised?
  }

  function Cleared(db: Database, task: Task): Database {
    if Clears(db, task) then
      db.(configs := db.configs[task.had.value := db.configs[task.had.value].(current := false)])
    else db
  }

  /** The tables once one logger has been moved from the configuration it had to the chosen one. */
  function Moved(db: Database, task: Task, choice: Option<string>): Database
    requires choice.Some? ==> choice.value in db.configs
  {
    match choice
    case None => Cleared(db, task)
    case Some(n) => WithCurrent(Cleared(db, task), task.logger, n)
  }

  function WithCurrent(db: Database, logger: string, n: string): Database
    requires n in db.configs
  {
    db.(configs := db.configs[n := db.configs[n].(current := true)], loggers := db.loggers[logger := Some(n)])
  }

  lemma ChoiceExists(db: Database, op: Op, logger: string)
    requires Choice(db, op, logger).Ok? && Choice(db, op, logger).value.Some?
    ensures Owns(db, logger, Choice(db, op, logger).value.value)
  {
  }

  /** t is s some steps of process p later. */
  predicate Later(s: State, t: State, p: nat, order: seq<Task>, pc: Pc, db: Database, dirty: bool) {
    && At(t, p, pc) && p < |s.procs|
    && Finish(s, p, order) == Finish(t, p, order)
    && t.shared.stamp == s.shared.stamp && t.shared.now >= s.shared.now
    && t.shared.db == db && t.shared.dirty == dirty
  }

  lemma ClearAlone(s: State, p: nat, op: Op, todo: seq<Task>, order: seq<Task>) returns (t: State)
    requires !op.Delete? && todo != [] && At(s, p, Update(op, ClearOld(todo)))
    ensures var db := s.shared.db;
            Later(s, t, p, order,
                  if todo[0].had.Some? && todo[0].had.value !in db.configs then Idle
                  else Update(op, FindNew(todo[0], todo[1..])),
                  Cleared(db, todo[0]), s.shared.dirty || Clears(db, todo[0]))
  {
    hide Finish, Next;
    t := Next(s, Go(p));
    FinishStep(s, p, op, ClearOld(todo), order);
  }

  lemma FindAlone(s: State, p: nat, op: Op, task: Task, todo: seq<Task>, order: seq<Task>) returns (t: State)
    requires !op.Delete? && At(s, p, Update(op, FindNew(task, todo)))
    ensures var (db, choice) := (s.shared.db, Choice(s.shared.db, op, task.logger));
            Later(s, t, p, order,
                  if choice.Raised? then Idle
                  else if choice.value.None? then Update(op, ClearOld(todo))
                  else
                    ChoiceExists(db, op, task.logger);
                    Update(op, SaveLogger(task, todo, choice.value.value, db.configs[choice.value.value])),
                  db, s.shared.dirty)
  {
    hide Finish, Next;
    t := Next(s, Go(p));
    FinishStep(s, p, op, FindNew(task, todo), order);
    if t.procs[p].pc == Update(op, FindOff(task, todo)) {
      FinishStep(t, p, op, FindOff(task, todo), order);
      t := Next(t, Go(p));
    }
  }

  lemma SaveAlone(s: State, p: nat, op: Op, task: Task, todo: seq<Task>, name: string, row: Row, order: seq<Task>)
    returns (t: State)
    requires !op.Delete? && At(s, p, Update(op, SaveLogger(task, todo, name, row)))
    ensures var db := s.shared.db;
            Later(s, t, p, order, Update(op, ClearOld(todo)),
                  db.(configs := db.configs[name := row.(current := true)], loggers := db.loggers[task.logger := Some(name)]),
                  true)
  {
    hide Finish, Next;
    t := Next(s, Go(p));
    FinishStep(s, p, op, SaveLogger(task, todo, name, row), order);
    FinishStep(t, p, op, SetFlag(todo, name, row), order);
    t := Next(t, Go(p));
  }

  /** Whose configurations there are does not depend on which are current. */
  lemma ChoiceIgnoresFlags(db: Database, op: Op, task: Task, logger: string)
    ensures Choice(Cleared(db, task), op, logger) == Choice(db, op, logger)
  {
  }

  /** The tables once an update has handled one logger. */
  function Handled(db: Database, op: Op, task: Task): Database {
    if Bad(db, op, task) then Cleared(db, task)
    else
      var choice := Choice(db, op, task.logger).value;
      assert choice.Some? ==> choice.value in db.configs by {
        if choice.Some? { ChoiceExists(db, op, task.logger); }
      }
      Moved(db, task, choice)
  }

  /** Does handling this logger write a configuration row? */
  predicate Writes(db: Database, op: Op, task: Task) {
    Clears(db, task) || (!Bad(db, op, task) && Choice(db, op, task.logger).value.Some?)
  }

  /** How an update by itself handles the next logger. */
  lemma TaskAlone(s: State, p: nat, op: Op, todo: seq<Task>, order: seq<Task>) returns (t: State)
    requires !op.Delete? && todo != [] && At(s, p, Update(op, ClearOld(todo)))
    ensures var (db, task) := (s.shared.db, todo[0]);
            Later(s, t, p, order, if Bad(db, op, task) then Idle else Update(op, ClearOld(todo[1..])),
                  Handled(db, op, task), s.shared.dirty || Writes(db, op, task))
  {
    hide Finish, Next, InMode;
    var task := todo[0];
    ChoiceIgnoresFlags(s.shared.db, op, task, task.logger);
    var choice := Choice(s.shared.db, op, task.logger);
    t := ClearAlone(s, p, op, todo, order);
    if t.procs[p].pc.Update? {
      t := FindAlone(t, p, op, task, todo[1..], order);
      if choice.Ok? && choice.value.Some? {
        ChoiceExists(s.shared.db, op, task.logger);
        var name := choice.value.value;
        t := SaveAlone(t, p, op, task, todo[1..], name, t.shared.db.configs[name], order);
      }
    }
  }

  /** Nothing left to handle: the update is stamped. */
  lemma StampAlone(s: State, p: nat, op: Op, order: seq<Task>)
    requires At(s, p, Update(op, ClearOld([])))
    ensures var t := Finish(s, p, order);
            && At(t, p, Idle) && t.shared.db == s.shared.db && !t.shared.dirty
            && s.shared.now < t.shared.stamp <= t.shared.now
  {
    hide Finish, Next;
    FinishStep(s, p, op, ClearOld([]), order);
    FinishStep(Next(s, Go(p)), p, op, Stamp, order);
  }

  lemma FinishIdle(s: State, p: nat, order: seq<Task>)
    requires At(s, p, Idle)
    ensures Finish(s, p, order) == s
  {
  }

  // ---- set_active_logger_config ----

  /** It leaves rows written and no stamp in one way only: the logger had a configuration, and the new one
      does not exist or is not that logger's. */
  predicate Refused(db: Database, logger: string, name: string) {
    logger in db.loggers && Clears(db, Task(logger, db.loggers[logger])) && !Owns(db, logger, name)
  }

  /** set_active_logger_config by itself: it moves the logger and stamps that, or it raises; and it leaves
      rows unstamped exactly when it is refused. */
  lemma SetLoggerAlone(s: State, p: nat, logger: string, name: string)
    requires At(s, p, Update(SetLogger(logger, name), Begin)) && !s.shared.dirty
    ensures var (db, t) := (s.shared.db, Finish(s, p, []));
            && At(t, p, Idle)
            && (t.shared.dirty <==> Refused(db, logger, name))
            && if logger in db.loggers && !Bad(db, SetLogger(logger, name), Task(logger, db.loggers[logger])) then
                 && t.shared.db == Moved(db, Task(logger, db.loggers[logger]), Some(name))
                 && s.shared.now < t.shared.stamp <= t.shared.now
               else
                 && t.shared.db == (if Refused(db, logger, name) then Cleared(db, Task(logger, db.loggers[logger])) else db)
                 && t.shared.stamp == s.shared.stamp
  {
    hide Finish, Next;
    var op := SetLogger(logger, name);
    FinishStep(s, p, op, Begin, []);
    var t := Next(s, Go(p));
    if t.procs[p].pc.Update? {
      var task := Task(logger, s.shared.db.loggers[logger]);
      assert [task][1..] == [];
      t := TaskAlone(t, p, op, [task], []);
      if t.procs[p].pc.Update? { StampAlone(t, p, op, []); } else { FinishIdle(t, p, []); }
    }
  }

  // ---- set_active_mode ----

  /** The first of the loggers at which a mode change stops, or how many there are. */
  function FirstBad(db: Database, op: Op, todo: seq<Task>): (k: nat)
    ensures k <= |todo|
    ensures k < |todo| ==> Bad(db, op, todo[k])
    ensures forall j :: 0 <= j < k ==> !Bad(db, op, todo[j])
  {
    if todo == [] || Bad(db, op, todo[0]) then 0 else FirstBad(db, op, todo[1..]) + 1
  }

  /** The tables once an update has gone through these loggers, up to the first bad one. */
  function AfterLoop(db: Database, op: Op, todo: seq<Task>): Database
    decreases |todo|
  {
    if todo == [] then db
    else if Bad(db, op, todo[0]) then Handled(db, op, todo[0])
    else AfterLoop(Handled(db, op, todo[0]), op, todo[1..])
  }

  /** The same rows and assignments, but for flags and for which configuration each logger has. */
  predicate SameRows(a: Database, b: Database) {
    && a.loggers.Keys == b.loggers.Keys && a.configs.Keys == b.configs.Keys
    && (forall n :: n in a.configs.Keys ==> a.configs[n].logger == b.configs[n].logger)
    && a.assignments == b.assignments && a.cruise == b.cruise
  }

  lemma HandledKeepsRows(db: Database, op: Op, task: Task)
    requires task.logger in db.loggers
    ensures SameRows(db, Handled(db, op, task))
  {
    if !Bad(db, op, task) && Choice(db, op, task.logger).value.Some? { ChoiceExists(db, op, task.logger); }
  }

  lemma SameChoices(a: Database, b: Database, op: Op, task: Task)
    requires SameRows(a, b)
    ensures Choice(a, op, task.logger) == Choice(b, op, task.logger)
    ensures Bad(a, op, task) == Bad(b, op, task) && Writes(a, op, task) == Writes(b, op, task)
  {
  }

  lemma {:induction false} SameFirstBad(a: Database, b: Database, op: Op, todo: seq<Task>)
    requires SameRows(a, b)
    ensures FirstBad(a, op, todo) == FirstBad(b, op, todo)
    decreases |todo|
  {
    hide SameRows, Bad;
    if todo != [] {
      SameChoices(a, b, op, todo[0]);
      SameFirstBad(a, b, op, todo[1..]);
    }
  }

  /** Handling one logger changes no other logger's choice. */
  lemma BadIsSettled(db: Database, op: Op, task: Task, todo: seq<Task>)
    requires task.logger in db.loggers
    ensures var d := Handled(db, op, task);
            && FirstBad(d, op, todo) == FirstBad(db, op, todo)
            && forall t :: Writes(d, op, t) == Writes(db, op, t) && Choice(d, op, t.logger) == Choice(db, op, t.logger)
                           && Bad(d, op, t) == Bad(db, op, t)
  {
    hide Choice, Writes, SameRows, Handled, FirstBad, Bad;
    HandledKeepsRows(db, op, task);
    var d := Handled(db, op, task);
    SameFirstBad(db, d, op, todo);
    forall t
      ensures Writes(d, op, t) == Writes(db, op, t) && Choice(d, op, t.logger) == Choice(db, op, t.logger)
              && Bad(d, op, t) == Bad(db, op, t)
    {
      SameChoices(db, d, op, t);
    }
  }

  lemma SameLoggers(a: Database, b: Database)
    requires SameRows(a, b)
    ensures a.loggers.Keys == b.loggers.Keys
  {
  }

  lemma {:induction false} NoneBadBefore(db: Database, op: Op, todo: seq<Task>, k: nat)
    requires k <= FirstBad(db, op, todo)
    ensures FirstBad(db, op, todo[..k]) == k
  {
    if k > 0 {
      assert todo[..k][1..] == todo[1..][..k - 1];
      NoneBadBefore(db, op, todo[1..], k - 1);
    }
  }

  lemma AfterLoopNext(db: Database, op: Op, todo: seq<Task>, k: nat)
    requires 0 < k <= |todo| && !Bad(db, op, todo[0])
    ensures AfterLoop(db, op, todo[..k]) == AfterLoop(Handled(db, op, todo[0]), op, todo[1..][..k - 1])
    ensures AfterLoop(db, op, todo) == AfterLoop(Handled(db, op, todo[0]), op, todo[1..])
  {
    hide Handled;
    assert todo[..k][0] == todo[0] && todo[..k][1..] == todo[1..][..k - 1];
  }

  /** Where the loop stops at a bad logger, all before it have been handled and its flag is cleared. */
  lemma {:induction false} AfterLoopStops(db: Database, op: Op, todo: seq<Task>)
    requires forall k :: 0 <= k < |todo| ==> todo[k].logger in db.loggers
    requires FirstBad(db, op, todo) < |todo|
    ensures var k := FirstBad(db, op, todo);
            && FirstBad(db, op, todo[..k]) == k
            && AfterLoop(db, op, todo) == Cleared(AfterLoop(db, op, todo[..k]), todo[k])
    decreases |todo|
  {
    var k := FirstBad(db, op, todo);
    NoneBadBefore(db, op, todo, k);
    if Bad(db, op, todo[0]) {
      assert todo[..k] == [];
    } else {
      hide SameRows, Handled, Bad, Choice, Cleared, AfterLoop;
      HandledKeepsRows(db, op, todo[0]);
      SameLoggers(db, Handled(db, op, todo[0]));
      BadIsSettled(db, op, todo[0], todo[1..]);
      AfterLoopNext(db, op, todo, k);
      AfterLoopStops(Handled(db, op, todo[0]), op, todo[1..]);
    }
  }

  /** The loop of set_active_mode by itself: it stops at the first bad logger without a stamp, or moves
      every logger and stamps. */
  lemma {:induction false} ModeLoopAlone(s: State, p: nat, op: Op, todo: seq<Task>, order: seq<Task>)
    requires !op.Delete? && At(s, p, Update(op, ClearOld(todo)))
    requires forall k :: 0 <= k < |todo| ==> todo[k].logger in s.shared.db.loggers
    ensures var (db, t) := (s.shared.db, Finish(s, p, order));
            var k := FirstBad(db, op, todo);
            && At(t, p, Idle) && t.shared.db == AfterLoop(db, op, todo)
            && (t.shared.dirty <==>
                 k < |todo| && (s.shared.dirty || exists i :: 0 <= i <= k && Writes(db, op, todo[i])))
            && (if k < |todo| then t.shared.stamp == s.shared.stamp else t.shared.stamp > s.shared.now)
    decreases |todo|
  {
    hide Finish, Next, Choice, Handled;
    if todo == [] {
      StampAlone(s, p, op, order);
    } else {
      var db := s.shared.db;
      var t := TaskAlone(s, p, op, todo, order);
      if Bad(db, op, todo[0]) {
        FinishIdle(t, p, order);
        assert FirstBad(db, op, todo) == 0;
      } else {
        HandledKeepsRows(db, op, todo[0]);
        BadIsSettled(db, op, todo[0], todo[1..]);
        ModeLoopAlone(t, p, op, todo[1..], order);
      }
    }
  }

  /** set_active_mode by itself, for the loggers in the order the database lists them. */
  lemma SetModeAlone(s: State, p: nat, mode: string, order: seq<Task>)
    requires At(s, p, Update(SetMode(mode), Begin)) && !s.shared.dirty && Lists(order, s.shared.db)
    ensures var (op, t) := (SetMode(mode), Finish(s, p, order));
            var db := s.shared.db.(activeMode := mode);
            var k := FirstBad(db, op, order);
            && At(t, p, Idle)
            && if s.shared.db.cruise && mode in db.assignments then
                 && t.shared.db == AfterLoop(db, op, order)
                 && (t.shared.dirty <==> k < |order| && exists i :: 0 <= i <= k && Writes(db, op, order[i]))
                 && (if k < |order| then t.shared.stamp == s.shared.stamp else t.shared.stamp > s.shared.now)
               else t.shared.db == s.shared.db && t.shared.stamp == s.shared.stamp && !t.shared.dirty
  {
    hide Finish, Next, AfterLoop, FirstBad, Writes;
    var op := SetMode(mode);
    FinishStep(s, p, op, Begin, order);
    var t := Next(s, Go(p));
    if t.procs[p].pc.Update? {
      FinishStep(t, p, op, SaveCruise, order);
      t := Next(t, Go(p));
      ListAlone(t, p, op, order);
      t := Next(t, List(p, order));
      ModeLoopAlone(t, p, op, order, order);
    }
  }

  lemma ListAlone(s: State, p: nat, op: Op, order: seq<Task>)
    requires At(s, p, Update(op, ListLoggers)) && Lists(order, s.shared.db)
    ensures var t := Next(s, List(p, order));
            && At(t, p, Update(op, ClearOld(order)))
            && t.shared == s.shared.(now := s.shared.now + 1)
            && Finish(s, p, order) == Finish(t, p, order)
  {
  }

  /** A mode change stops at a logger exactly when the configuration it had is gone, or it has none in the
      mode and there is no mode off to fall back on. */
  lemma BadInMode(db: Database, mode: string, task: Task)
    requires db.cruise && mode in db.assignments && task.logger in db.loggers
    ensures Bad(db, SetMode(mode), task) <==>
            || (task.had.Some? && task.had.value !in db.configs)
            || (InMode(db, task.logger, mode) == Ok(None) && "off" !in db.assignments)
  {
  }

  // ---- Which configurations are current ----

  /** The current flags of a logger's rows say the same as the logger's own row. */
  predicate FlagsAgree(db: Database, logger: string) {
    forall n :: n in db.configs.Keys && Owns(db, logger, n) ==>
      (db.configs[n].current <==> logger in db.loggers && db.loggers[logger] == Some(n))
  }

  /** Each logger's configuration is one of its own. */
  predicate OwnConfigs(db: Database) {
    forall l :: l in db.loggers.Keys && db.loggers[l].Some? ==> Owns(db, l, db.loggers[l].value)
  }

  /** The tasks are loggers as they stand in the database, each once. */
  predicate AsListed(db: Database, todo: seq<Task>) {
    && (forall k :: 0 <= k < |todo| ==> todo[k].logger in db.loggers && todo[k].had == db.loggers[todo[k].logger])
    && (forall j, k :: 0 <= j < k < |todo| ==> todo[j].logger != todo[k].logger)
  }

  /** Nothing about a logger or its rows differs. */
  predicate SameLogger(a: Database, b: Database, l: string) {
    && a.table == b.table
    && (l in a.loggers <==> l in b.loggers) && (l in a.loggers ==> a.loggers[l] == b.loggers[l])
    && (forall n :: n in a.configs.Keys + b.configs.Keys ==> (Owns(a, l, n) <==> Owns(b, l, n)))
    && (forall n :: n in a.configs.Keys && Owns(a, l, n) && Owns(b, l, n) ==> a.configs[n] == b.configs[n])
  }

  /** An update may handle this logger next: it is listed as it stands. */
  predicate Stands(db: Database, task: Task) { task.logger in db.loggers && task.had == db.loggers[task.logger] }

  /** Moving a logger to a configuration of its own makes its flags agree; skipping it leaves the flag
      cleared of a configuration that its own row still names. */
  lemma MoveSetsFlags(db: Database, op: Op, task: Task)
    requires OwnConfigs(db) && Stands(db, task) && FlagsAgree(db, task.logger) && !Bad(db, op, task)
    ensures var (d, choice) := (Handled(db, op, task), Choice(db, op, task.logger).value);
            && (FlagsAgree(d, task.logger) <==> choice.Some? || task.had.None?)
            && task.logger in d.loggers && d.loggers[task.logger] == if choice.Some? then choice else task.had
  {
    var choice := Choice(db, op, task.logger).value;
    if choice.Some? { ChoiceExists(db, op, task.logger); }
    var d := Handled(db, op, task);
    if choice.None? && task.had.Some? { assert Owns(d, task.logger, task.had.value); }
  }

  lemma HandledLeavesOthers(db: Database, op: Op, task: Task, l: string)
    requires OwnConfigs(db) && Stands(db, task) && l != task.logger
    ensures SameLogger(db, Handled(db, op, task), l)
  {
    if !Bad(db, op, task) && Choice(db, op, task.logger).value.Some? { ChoiceExists(db, op, task.logger); }
  }

  lemma ClearedAlike(a: Database, b: Database, task: Task)
    requires SameLogger(a, b, task.logger)
    requires task.had.Some? ==> Owns(a, task.logger, task.had.value) || (task.had.value !in a.configs && task.had.value !in b.configs)
    ensures SameLogger(Cleared(a, task), Cleared(b, task), task.logger)
  {
    if task.had.Some? && Owns(a, task.logger, task.had.value) { assert Owns(b, task.logger, task.had.value); }
  }

  lemma MovedAlike(a: Database, b: Database, task: Task, choice: Option<string>)
    requires SameLogger(a, b, task.logger)
    requires task.had.Some? ==> Owns(a, task.logger, task.had.value)
    requires choice.Some? ==> Owns(a, task.logger, choice.value) && Owns(b, task.logger, choice.value)
    ensures SameLogger(Moved(a, task, choice), Moved(b, task, choice), task.logger)
  {
    ClearedAlike(a, b, task);
    var (a', b') := (Cleared(a, task), Cleared(b, task));
    assert a'.loggers == a.loggers && b'.loggers == b.loggers;
    if choice.Some? {
      assert Owns(a', task.logger, choice.value) && Owns(b', task.logger, choice.value);
      hide Cleared;
      SetAlike(a', b', task.logger, choice.value);
    }
  }

  lemma SetAlike(a: Database, b: Database, l: string, n: string)
    requires SameLogger(a, b, l) && Owns(a, l, n) && Owns(b, l, n)
    ensures SameLogger(WithCurrent(a, l, n), WithCurrent(b, l, n), l)
  {
    var (a', b') := (WithCurrent(a, l, n), WithCurrent(b, l, n));
    assert forall m :: Owns(a', l, m) <==> Owns(a, l, m);
    assert forall m :: Owns(b', l, m) <==> Owns(b, l, m);
  }

  /** What an update does to a logger depends on nothing but that logger and its rows. */
  lemma HandledAlike(a: Database, b: Database, op: Op, task: Task)
    requires OwnConfigs(a) && Stands(a, task) && SameRows(a, b) && SameLogger(a, b, task.logger)
    ensures SameLogger(Handled(a, op, task), Handled(b, op, task), task.logger)
  {
    SameChoices(a, b, op, task);
    assert task.had.Some? ==> Owns(a, task.logger, task.had.value);
    hide OwnConfigs, SameRows, SameLogger, Cleared, Moved, Choice;
    if Bad(a, op, task) {
      ClearedAlike(a, b, task);
    } else {
      var choice := Choice(a, op, task.logger).value;
      if choice.Some? {
        ChoiceExists(a, op, task.logger);
        ChoiceExists(b, op, task.logger);
      }
      MovedAlike(a, b, task, choice);
    }
  }

  lemma HandledKeepsOwn(db: Database, op: Op, task: Task)
    requires OwnConfigs(db) && Stands(db, task)
    ensures OwnConfigs(Handled(db, op, task))
  {
    if !Bad(db, op, task) && Choice(db, op, task.logger).value.Some? { ChoiceExists(db, op, task.logger); }
    var d := Handled(db, op, task);
    forall l | l in d.loggers.Keys && d.loggers[l].Some? ensures Owns(d, l, d.loggers[l].value) {
      if l != task.logger { assert Owns(db, l, db.loggers[l].value); }
    }
  }

  lemma AsListedAfter(db: Database, op: Op, todo: seq<Task>)
    requires OwnConfigs(db) && AsListed(db, todo) && todo != []
    ensures var d := Handled(db, op, todo[0]); OwnConfigs(d) && AsListed(d, todo[1..])
  {
    hide Handled, OwnConfigs;
    HandledKeepsOwn(db, op, todo[0]);
    forall k | 1 <= k < |todo| ensures Stands(Handled(db, op, todo[0]), todo[k]) {
      HandledLeavesOthers(db, op, todo[0], todo[k].logger);
    }
  }

  lemma SameLoggerTwice(a: Database, b: Database, c: Database, l: string)
    requires SameLogger(a, b, l) && SameLogger(b, c, l)
    ensures SameLogger(a, c, l)
  {
    assert forall n :: n in a.configs.Keys && Owns(a, l, n) ==> n in b.configs.Keys && Owns(b, l, n) && Owns(c, l, n);
    assert forall n :: n in c.configs.Keys && Owns(c, l, n) ==> n in b.configs.Keys && Owns(b, l, n) && Owns(a, l, n);
  }

  /** The loop leaves alone every logger that it does not come to. */
  lemma {:induction false} LoopLeaves(db: Database, op: Op, todo: seq<Task>, l: string)
    requires OwnConfigs(db) && AsListed(db, todo)
    requires forall i :: 0 <= i < |todo| && i <= FirstBad(db, op, todo) ==> todo[i].logger != l
    ensures SameLogger(db, AfterLoop(db, op, todo), l)
    decreases |todo|
  {
    if todo != [] {
      var d := Handled(db, op, todo[0]);
      HandledLeavesOthers(db, op, todo[0], l);
      if !Bad(db, op, todo[0]) {
        AsListedAfter(db, op, todo);
        BadIsSettled(db, op, todo[0], todo[1..]);
        assert forall i :: 0 <= i < |todo[1..]| ==> todo[1..][i] == todo[i + 1];
        hide Handled, OwnConfigs, Bad, SameLogger;
        LoopLeaves(d, op, todo[1..], l);
        SameLoggerTwice(db, d, AfterLoop(d, op, todo[1..]), l);
      }
    }
  }

  lemma LoopHandlesFirst(db: Database, op: Op, todo: seq<Task>)
    requires OwnConfigs(db) && AsListed(db, todo) && todo != []
    ensures SameLogger(Handled(db, op, todo[0]), AfterLoop(db, op, todo), todo[0].logger)
  {
    if !Bad(db, op, todo[0]) {
      AsListedAfter(db, op, todo);
      assert forall i :: 0 <= i < |todo[1..]| ==> todo[1..][i].logger != todo[0].logger;
      hide Handled, OwnConfigs, Bad, SameLogger, SameRows, FirstBad;
      LoopLeaves(Handled(db, op, todo[0]), op, todo[1..], todo[0].logger);
    }
  }

  /** Every logger that it comes to ends up as if it alone had been handled. */
  lemma {:induction false} LoopHandles(db: Database, op: Op, todo: seq<Task>, i: nat)
    requires OwnConfigs(db) && AsListed(db, todo) && i < |todo| && i <= FirstBad(db, op, todo)
    ensures SameLogger(Handled(db, op, todo[i]), AfterLoop(db, op, todo), todo[i].logger)
    decreases |todo|
  {
    if i == 0 {
      hide *;
      LoopHandlesFirst(db, op, todo);
    } else {
      var d, l := Handled(db, op, todo[0]), todo[i].logger;
      assert Stands(db, todo[0]) && Stands(db, todo[i]) && todo[0].logger != l && !Bad(db, op, todo[0]);
      AsListedAfter(db, op, todo);
      hide Handled, OwnConfigs, Bad, SameLogger, SameRows, AsListed, Stands;
      BadIsSettled(db, op, todo[0], todo[1..]);
      LoopHandles(d, op, todo[1..], i - 1);
      HandledKeepsRows(db, op, todo[0]);
      HandledLeavesOthers(db, op, todo[0], l);
      HandledAlike(db, d, op, todo[i]);
      SameLoggerTwice(Handled(db, op, todo[i]), Handled(d, op, todo[i]), AfterLoop(db, op, todo), l);
    }
  }

  /** After a mode change each logger that it moved or skipped is in the configuration the mode gives it and
      that one alone is current, exactly when it was not skipped (or had no configuration at all). */
  lemma ModeSetsFlags(db: Database, op: Op, todo: seq<Task>, i: nat)
    requires OwnConfigs(db) && AsListed(db, todo) && i < FirstBad(db, op, todo)
    requires FlagsAgree(db, todo[i].logger)
    ensures var (d, l, choice) := (AfterLoop(db, op, todo), todo[i].logger, Choice(db, op, todo[i].logger).value);
            && (FlagsAgree(d, l) <==> choice.Some? || todo[i].had.None?)
            && l in d.loggers && d.loggers[l] == if choice.Some? then choice else todo[i].had
  {
    hide Handled, AfterLoop;
    LoopHandles(db, op, todo, i);
    MoveSetsFlags(db, op, todo[i]);
    SameFlags(Handled(db, op, todo[i]), AfterLoop(db, op, todo), todo[i].logger);
  }

  lemma SameFlags(a: Database, b: Database, l: string)
    requires SameLogger(a, b, l)
    ensures FlagsAgree(a, l) <==> FlagsAgree(b, l)
  {
  }
}
