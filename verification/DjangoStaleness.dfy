/**
 When an update of DjangoServerAPI makes the cache of another process wrong.
 */
module DjangoStaleness {
  import opened Common
  import opened DjangoCaches
  import opened DjangoUpdates

  // ---- What a query shows of one logger ----

  /** The table lists every row, and each name once. */
  predicate TableOk(db: Database) {
    && (forall n :: n in db.configs.Keys ==> n in db.table)
    && (forall i, j :: 0 <= i < j < |db.table| ==> db.table[i] != db.table[j])
  }

  /** Row i is a current one of this logger. */
  predicate Counts(db: Database, l: string, i: nat)
    requires i < |db.table|
  {
    IsCurrent(db.configs, db.table[i]) && db.configs[db.table[i]].logger == l
  }

  /** The text of the last of the first n rows that is a current one of this logger. */
  function ShownTo(db: Database, l: string, n: nat): Option<string>
    requires n <= |db.table|
  {
    if n == 0 then None
    else if Counts(db, l, n - 1) then Some(db.configs[db.table[n - 1]].text)
    else ShownTo(db, l, n - 1)
  }

  function Shown(db: Database, l: string): Option<string> { ShownTo(db, l, |db.table|) }

  lemma {:induction false} CollectedShows(db: Database, l: string, n: nat)
    requires n <= |db.table|
    ensures ShownTo(db, l, n) == if l in Collected(db, n) then Some(Collected(db, n)[l]) else None
  {
    if n > 0 { CollectedShows(db, l, n - 1); }
  }

  /** A query finds the same exactly when it shows the same of every logger. */
  lemma CurrentIsAllShown(a: Database, b: Database)
    ensures Current(a) == Current(b) <==> forall l :: Shown(a, l) == Shown(b, l)
  {
    forall l
      ensures Shown(a, l) == if l in Current(a) then Some(Current(a)[l]) else None
      ensures Shown(b, l) == if l in Current(b) then Some(Current(b)[l]) else None
    {
      CollectedShows(a, l, |a.table|);
      CollectedShows(b, l, |b.table|);
    }
    hide Shown, Current;
    if forall l :: Shown(a, l) == Shown(b, l) {
      forall l ensures l in Current(a) <==> l in Current(b) {
        assert Shown(a, l) == Shown(b, l);
      }
      forall l | l in Current(a) ensures Current(a)[l] == Current(b)[l] {
        assert Shown(a, l) == Shown(b, l);
      }
    }
  }

  /** The row says the same of this logger in both. */
  predicate SameRow(a: Database, b: Database, l: string, i: nat)
    requires i < |a.table| && a.table == b.table
  {
    && (Counts(a, l, i) <==> Counts(b, l, i))
    && (Counts(a, l, i) ==> a.configs[a.table[i]].text == b.configs[a.table[i]].text)
  }

  /** Rows that say the same leave the same shown. */
  lemma {:induction false} SameRowsShow(a: Database, b: Database, l: string, m: nat, n: nat)
    requires m <= n <= |a.table| && a.table == b.table && ShownTo(a, l, m) == ShownTo(b, l, m)
    requires forall i :: m <= i < n ==> SameRow(a, b, l, i)
    ensures ShownTo(a, l, n) == ShownTo(b, l, n)
  {
    if m < n {
      SameRowsShow(a, b, l, m, n - 1);
      assert SameRow(a, b, l, n - 1);
    }
  }

  lemma SameShown(a: Database, b: Database, l: string)
    requires SameLogger(a, b, l)
    ensures Shown(a, l) == Shown(b, l)
  {
    forall i | 0 <= i < |a.table| ensures SameRow(a, b, l, i) {
      var n := a.table[i];
      assert n in a.configs.Keys + b.configs.Keys ==> (Owns(a, l, n) <==> Owns(b, l, n));
    }
    SameRowsShow(a, b, l, 0, |a.table|);
  }

  /** Rows that are not current ones of the logger leave what is shown of it. */
  lemma {:induction false} NothingMore(db: Database, l: string, m: nat, n: nat)
    requires m <= n <= |db.table| && forall i :: m <= i < n ==> !Counts(db, l, i)
    ensures ShownTo(db, l, n) == ShownTo(db, l, m)
  {
    if m < n { NothingMore(db, l, m, n - 1); }
  }

  /** Handling this logger changes what a query shows of it. */
  predicate Visible(db: Database, op: Op, task: Task) {
    Shown(Handled(db, op, task), task.logger) != Shown(db, task.logger)
  }

  /** A stop at this logger clears the flag it had; skipping it does so too; moving it shows if it had none or
      one with another text. */
  predicate Shifts(db: Database, op: Op, task: Task) {
    if Bad(db, op, task) then Clears(db, task)
    else match Choice(db, op, task.logger).value
      case None => task.had.Some?
      case Some(n) =>
        ChoiceExists(db, op, task.logger);
        task.had.None? || db.configs[task.had.value].text != db.configs[n].text
  }

  /** Of a logger whose flags agree with its row, a query shows the configuration that the row names. */
  lemma ShownOfAgreeing(db: Database, l: string)
    requires TableOk(db) && OwnConfigs(db) && FlagsAgree(db, l) && l in db.loggers
    ensures db.loggers[l].Some? ==> db.loggers[l].value in db.configs
    ensures Shown(db, l) == if db.loggers[l].None? then None else Some(db.configs[db.loggers[l].value].text)
  {
    forall i | 0 <= i < |db.table| ensures Counts(db, l, i) <==> db.loggers[l] == Some(db.table[i]) {
      CountsIfNamed(db, l, i);
    }
    if db.loggers[l].Some? {
      var n := db.loggers[l].value;
      assert Owns(db, l, n);
      var i :| 0 <= i < |db.table| && db.table[i] == n;
      hide FlagsAgree, OwnConfigs;
      NothingMore(db, l, i + 1, |db.table|);
    } else {
      NothingMore(db, l, 0, |db.table|);
    }
  }

  lemma CountsIfNamed(db: Database, l: string, i: nat)
    requires OwnConfigs(db) && FlagsAgree(db, l) && l in db.loggers && i < |db.table|
    ensures Counts(db, l, i) <==> db.loggers[l] == Some(db.table[i])
  {
    var n := db.table[i];
    if n in db.configs.Keys { assert Owns(db, l, n) <==> db.configs[n].logger == l; }
  }

  /** Where a logger's flags agree with its row, that says what changes what a query shows of it. */
  lemma VisibleIffShifts(db: Database, op: Op, task: Task)
    requires TableOk(db) && OwnConfigs(db) && Stands(db, task) && FlagsAgree(db, task.logger)
    ensures Visible(db, op, task) <==> Shifts(db, op, task)
  {
    hide Shown, FlagsAgree, OwnConfigs;
    ShownOfAgreeing(db, task.logger);
    var l, d := task.logger, Handled(db, op, task);
    HandledKeepsRows(db, op, task);
    if !Bad(db, op, task) && Choice(db, op, l).value.Some? {
      ChoiceExists(db, op, l);
      MoveSetsFlags(db, op, task);
      HandledKeepsOwn(db, op, task);
      ShownOfAgreeing(d, l);
    } else {
      NoneShown(db, op, task);
    }
  }

  lemma NoneShown(db: Database, op: Op, task: Task)
    requires OwnConfigs(db) && Stands(db, task) && FlagsAgree(db, task.logger)
    ensures Shown(Cleared(db, task), task.logger) == None
  {
    var l, d := task.logger, Cleared(db, task);
    forall i | 0 <= i < |d.table| ensures !Counts(d, l, i) {
      ClearedCountsNot(db, op, task, i);
    }
    NothingMore(d, l, 0, |d.table|);
  }

  lemma ClearedCountsNot(db: Database, op: Op, task: Task, i: nat)
    requires OwnConfigs(db) && Stands(db, task) && FlagsAgree(db, task.logger) && i < |db.table|
    ensures !Counts(Cleared(db, task), task.logger, i)
  {
    CountsIfNamed(db, task.logger, i);
  }

  /** What a mode change has done to the tables shows exactly when it shows of some logger it came to. */
  lemma LoopShows(db: Database, op: Op, todo: seq<Task>)
    requires OwnConfigs(db) && AsListed(db, todo)
    ensures Current(AfterLoop(db, op, todo)) != Current(db) <==>
            exists i :: 0 <= i < |todo| && i <= FirstBad(db, op, todo) && Visible(db, op, todo[i])
  {
    hide Current, Shown, AfterLoop, Handled, OwnConfigs, AsListed, FirstBad, SameLogger;
    var d, k := AfterLoop(db, op, todo), FirstBad(db, op, todo);
    CurrentIsAllShown(db, d);
    forall i | 0 <= i < |todo| && i <= k ensures Visible(db, op, todo[i]) <==> Shown(d, todo[i].logger) != Shown(db, todo[i].logger) {
      LoopHandles(db, op, todo, i);
      SameShown(Handled(db, op, todo[i]), d, todo[i].logger);
    }
    forall l | forall i :: 0 <= i < |todo| && i <= k ==> todo[i].logger != l ensures Shown(d, l) == Shown(db, l) {
      LoopLeaves(db, op, todo, l);
      SameShown(db, d, l);
    }
  }

  // ---- When a cache goes stale ----

  lemma {:induction false} FinishLeavesOthers(s: State, p: nat, q: nat, order: seq<Task>)
    requires p < |s.procs| && q < |s.procs| && q != p
    ensures var t := Finish(s, p, order);
            |t.procs| == |s.procs| && t.procs[q] == s.procs[q] && t.log == s.log
    decreases Left(s.procs[p].pc, |order|)
  {
    hide Effects, OtherTables, Current, Lists, Left;
    if CanMove(s, p, order) {
      FewerLeft(s, p, order);
      FinishLeavesOthers(NextAlone(s, p, order), p, q, order);
    }
  }

  /** A process whose cache is filled, right and newer than the last stamp. */
  predicate Trusting(s: State, q: nat) {
    && q < |s.procs| && s.procs[q].pc == Idle
    && s.procs[q].cache != map[] && s.procs[q].cache == Current(s.shared.db)
    && s.shared.stamp <= s.procs[q].time < s.shared.now
  }

  /** The answer that q's next call gives from its cache, if it does. */
  function CachedAnswer(s: State, q: nat): Option<Configs>
    requires q < |s.procs| && s.procs[q].pc == Idle
  {
    var t := Next(Next(s, Ask(q)), Go(q));
    if |t.log| > |s.log| then Some(t.log[|s.log|].value) else None
  }

  lemma AnswersFromCache(s: State, q: nat)
    requires q < |s.procs| && s.procs[q].pc == Idle
    ensures CachedAnswer(s, q) ==
            if s.procs[q].cache != map[] && s.procs[q].time >= s.shared.stamp then Some(s.procs[q].cache) else None
  {
    hide Current, Effects, OtherTables;
  }

  /** Its next call answers something else than the database holds. */
  predicate Stale(s: State, q: nat)
    requires q < |s.procs| && s.procs[q].pc == Idle
  {
    CachedAnswer(s, q).Some? && CachedAnswer(s, q).value != Current(s.shared.db)
  }

  /** This row decides what a query shows of its logger: it is the last current one of it, and without it a
      query would show another text, or none. */
  predicate Decides(db: Database, n: string)
    requires n in db.configs
  {
    var l := db.configs[n].logger;
    db.configs[n].current &&
    exists i :: 0 <= i < |db.table| && db.table[i] == n && ShownTo(db, l, i) != Some(db.configs[n].text) &&
                forall j :: i < j < |db.table| ==> !Counts(db, l, j)
  }

  /** Clearing a flag changes what a query finds exactly when the row decided what it showed. */
  lemma ClearingShows(db: Database, task: Task)
    requires TableOk(db) && Clears(db, task)
    ensures Current(Cleared(db, task)) != Current(db) <==> Decides(db, task.had.value)
  {
    var d, n := Cleared(db, task), task.had.value;
    var l := db.configs[n].logger;
    forall k | k != l ensures Shown(d, k) == Shown(db, k) {
      SameRowsShow(d, db, k, 0, |db.table|);
    }
    CurrentIsAllShown(d, db);
    var i :| 0 <= i < |db.table| && db.table[i] == n;
    forall j | 0 <= j < |db.table| && j != i ensures SameRow(d, db, l, j) { assert db.table[j] != n; }
    hide Current;
    ClearedShown(db, task, i);
  }

  lemma ClearedShown(db: Database, task: Task, i: nat)
    requires TableOk(db) && Clears(db, task) && i < |db.table| && db.table[i] == task.had.value
    requires forall j :: 0 <= j < |db.table| && j != i ==>
               SameRow(Cleared(db, task), db, db.configs[task.had.value].logger, j)
    ensures var l := db.configs[task.had.value].logger;
            Shown(Cleared(db, task), l) != Shown(db, l) <==> Decides(db, task.had.value)
  {
    var d, n := Cleared(db, task), task.had.value;
    var l := db.configs[n].logger;
    assert !Counts(d, l, i) && (Counts(db, l, i) <==> db.configs[n].current);
    assert forall k :: 0 <= k < |db.table| && db.table[k] == n ==> k == i;
    hide Cleared, TableOk, Counts;
    OneRowLess(d, db, l, i);
  }

  /** A row that no longer counts matters exactly when it was the last to count and told something else than
      those before it. */
  lemma OneRowLess(a: Database, b: Database, l: string, i: nat)
    requires a.table == b.table && i < |a.table| && !Counts(a, l, i) && b.table[i] in b.configs
    requires forall j :: 0 <= j < |a.table| && j != i ==> SameRow(a, b, l, j)
    ensures Shown(a, l) != Shown(b, l) <==>
            Counts(b, l, i) && ShownTo(b, l, i) != Some(b.configs[b.table[i]].text) &&
            forall j :: i < j < |b.table| ==> !Counts(b, l, j)
  {
    var end := |a.table|;
    SameRowsShow(a, b, l, 0, i);
    if !Counts(b, l, i) {
      SameRowsShow(a, b, l, i + 1, end);
    } else if j :| i < j < end && Counts(b, l, j) {
      assert SameRow(a, b, l, j);
      SameRowsShow(a, b, l, j + 1, end);
    } else {
      forall j | i < j < end ensures !Counts(a, l, j) { assert SameRow(a, b, l, j); }
      NothingMore(b, l, i + 1, end);
      NothingMore(a, l, i + 1, end);
    }
  }

  /** Where flags and rows agree that is so of every configuration that a logger has. */
  lemma AgreeingDecides(db: Database, logger: string)
    requires TableOk(db) && OwnConfigs(db) && FlagsAgree(db, logger) && logger in db.loggers && db.loggers[logger].Some?
    ensures db.loggers[logger].value in db.configs && Decides(db, db.loggers[logger].value)
  {
    var n := db.loggers[logger].value;
    assert Owns(db, logger, n);
    var i :| 0 <= i < |db.table| && db.table[i] == n;
    forall j | 0 <= j < |db.table| && j != i ensures !Counts(db, logger, j) {
      CountsIfNamed(db, logger, j);
    }
    NothingMore(db, logger, 0, i);
  }

  /** One process has a good cache; another sets a logger's configuration by itself. The first one's cache is
      then stale exactly when the update was refused and the row whose flag it cleared decided what a query
      showed of its logger. */
  lemma StaleIffRefused(s: State, p: nat, q: nat, logger: string, name: string)
    requires At(s, p, Update(SetLogger(logger, name), Begin)) && !s.shared.dirty && Trusting(s, q) && p != q
    requires TableOk(s.shared.db)
    ensures var (db, t) := (s.shared.db, Finish(s, p, []));
            && q < |t.procs| && t.procs[q].pc == Idle
            && (Stale(t, q) <==> Refused(db, logger, name) && Decides(db, db.loggers[logger].value))
  {
    hide Finish, Next, Current, CachedAnswer, Decides;
    var (db, t) := (s.shared.db, Finish(s, p, []));
    SetLoggerAlone(s, p, logger, name);
    FinishLeavesOthers(s, p, q, []);
    AnswersFromCache(t, q);
    if Refused(db, logger, name) { ClearingShows(db, Task(logger, db.loggers[logger])); }
  }

  /** The same for a change of mode: the cache is stale exactly when the change stops at a logger, and by then
      handling some logger has changed what a query shows of it. */
  lemma StaleIffStopped(s: State, p: nat, q: nat, mode: string, order: seq<Task>)
    requires At(s, p, Update(SetMode(mode), Begin)) && !s.shared.dirty && Trusting(s, q) && p != q
    requires Lists(order, s.shared.db) && OwnConfigs(s.shared.db)
    ensures var (op, t) := (SetMode(mode), Finish(s, p, order));
            var db := s.shared.db.(activeMode := mode);
            var k := FirstBad(db, op, order);
            && q < |t.procs| && t.procs[q].pc == Idle
            && (Stale(t, q) <==>
                 && db.cruise && mode in db.assignments && k < |order|
                 && exists i :: 0 <= i <= k && Visible(db, op, order[i]))
  {
    var t, db := Finish(s, p, order), s.shared.db.(activeMode := mode);
    SameCollected(s.shared.db, db, |db.table|);
    assert Current(s.shared.db) == Current(db);
    hide Finish, Next, Current, CachedAnswer, AfterLoop, FirstBad, Visible;
    SetModeAlone(s, p, mode, order);
    FinishLeavesOthers(s, p, q, order);
    AnswersFromCache(t, q);
    LoopShows(db, SetMode(mode), order);
  }

  /** With flags that agree, a logger that the change came to shows that if it was skipped with a
      configuration, gained one, moved to one with another text, or is the one it stopped at and had one. */
  lemma StaleIffStoppedAgreeing(s: State, p: nat, q: nat, mode: string, order: seq<Task>)
    requires At(s, p, Update(SetMode(mode), Begin)) && !s.shared.dirty && Trusting(s, q) && p != q
    requires Lists(order, s.shared.db) && OwnConfigs(s.shared.db)
    requires TableOk(s.shared.db)
    requires forall i :: 0 <= i < |order| ==> FlagsAgree(s.shared.db, order[i].logger)
    ensures var (op, t) := (SetMode(mode), Finish(s, p, order));
            var db := s.shared.db.(activeMode := mode);
            var k := FirstBad(db, op, order);
            && q < |t.procs| && t.procs[q].pc == Idle
            && (Stale(t, q) <==>
                 && db.cruise && mode in db.assignments && k < |order|
                 && exists i :: 0 <= i <= k && Shifts(db, op, order[i]))
  {
    hide Finish, Next, Current, Stale, AfterLoop, FirstBad, Visible, Shifts;
    var db := s.shared.db.(activeMode := mode);
    StaleIffStopped(s, p, q, mode, order);
    forall i | 0 <= i < |order| ensures Visible(db, SetMode(mode), order[i]) <==> Shifts(db, SetMode(mode), order[i]) {
      assert Stands(db, order[i]) && FlagsAgree(s.shared.db, order[i].logger);
      VisibleIffShifts(db, SetMode(mode), order[i]);
    }
  }

  /** A query that fails after its time was marked leaves the old answer with a new time. It is then stale
      exactly when there is one, it differs from what the query would have found, and the time marked is not
      before the last stamp. */
  lemma FailedQueryIsTrusted(s: State, q: nat)
    requires q < |s.procs| && s.procs[q].pc == Fetch
    ensures var (t, proc) := (Next(s, Abort(q)), s.procs[q]);
            && q < |t.procs| && t.procs[q].pc == Idle
            && (Stale(t, q) <==>
                proc.cache != map[] && proc.cache != Current(s.shared.db) && proc.time >= s.shared.stamp)
  {
    hide Current;
    AnswersFromCache(Next(s, Abort(q)), q);
  }

  // ---- Such caches exist ----

  /** Process 0 has asked and cached the answer, and process 1 is about to begin an update. */
  function Prepared(db: Database, op: Op): State { Run(Init(db, 0, 1, 2), [Ask(0), Go(0), Go(0), Start(1, op)]) }

  /** From any database with a current configuration the processes come to where StaleIffRefused and
      StaleIffStopped begin. */
  lemma PreparedIsTrusting(db: Database, op: Op)
    requires Current(db) != map[]
    ensures var s := Prepared(db, op);
            At(s, 1, Update(op, Begin)) && Trusting(s, 0) && !s.shared.dirty && s.shared.db == db
  {
    hide Current, Effects, OtherTables, Lists;
    var s0 := Init(db, 0, 1, 2);
    var s1 := Next(s0, Ask(0));
    var s2 := Next(s1, Go(0));
    var s3 := Next(s2, Go(0));
    var s4 := Next(s3, Start(1, op));
    RunFour(s0, Ask(0), Go(0), Go(0), Start(1, op));
  }

  lemma RunFour(s: State, a: Action, b: Action, c: Action, d: Action)
    ensures Run(s, [a, b, c, d]) == Next(Next(Next(Next(s, a), b), c), d)
  {
    hide Next;
    assert [a, b, c, d][1..] == [b, c, d] && [b, c, d][1..] == [c, d] && [c, d][1..] == [d] && [d][1..] == [];
    assert Run(s, [a, b, c, d]) == Run(Next(s, a), [b, c, d]);
    assert Run(Next(s, a), [b, c, d]) == Run(Next(Next(s, a), b), [c, d]);
    assert Run(Next(Next(s, a), b), [c, d]) == Run(Next(Next(Next(s, a), b), c), [d]);
  }

  /** One logger with two configurations, in the first of them; mode survey has none for it, and there is no
      mode off. */
  const GYRO_ON := Database(true, "port", map["port" := map["gyro" := "gyro->net"], "survey" := map[]],
                            map["gyro" := Some("gyro->net")],
                            map["gyro->net" := Row("gyro", "net", true), "gyro->file" := Row("gyro", "file", false)],
                            ["gyro->net", "gyro->file"])

  lemma GyroAgrees()
    ensures Current(GYRO_ON) == map["gyro" := "net"]
    ensures TableOk(GYRO_ON) && OwnConfigs(GYRO_ON) && FlagsAgree(GYRO_ON, "gyro")
    ensures Lists([Task("gyro", Some("gyro->net"))], GYRO_ON)
  {
    var db := GYRO_ON;
    assert Collected(db, 1) == map["gyro" := "net"] && Collected(db, 2) == map["gyro" := "net"];
    assert db.table[0] == "gyro->net" && db.table[1] == "gyro->file";
    assert db.loggers.Keys == {"gyro"};
    assert |db.loggers| == |db.loggers.Keys|;
  }

  /** Once process 1 has made its update by itself, the cache of process 0 is stale. */
  predicate GoesStale(db: Database, op: Op, order: seq<Task>) {
    var s := Prepared(db, op);
    && 1 < |s.procs|
    && var t := Finish(s, 1, order);
       0 < |t.procs| && t.procs[0].pc == Idle && Stale(t, 0)
  }

  /** From any database in which that is so, a run comes to where a refused update makes a cache stale. */
  lemma RefusalCanGoStale(db: Database, logger: string, name: string)
    requires TableOk(db) && Current(db) != map[]
    requires Refused(db, logger, name) && Decides(db, db.loggers[logger].value)
    ensures GoesStale(db, SetLogger(logger, name), [])
  {
    hide Finish, Stale, Prepared, Decides, Refused, TableOk, Current;
    PreparedIsTrusting(db, SetLogger(logger, name));
    StaleIffRefused(Prepared(db, SetLogger(logger, name)), 1, 0, logger, name);
  }

  lemma StopCanGoStale(was: Database, mode: string, order: seq<Task>, i: nat)
    requires TableOk(was) && Current(was) != map[] && OwnConfigs(was) && Lists(order, was)
    requires was.cruise && mode in was.assignments
    requires var (db, op) := (was.(activeMode := mode), SetMode(mode));
             FirstBad(db, op, order) < |order| && i <= FirstBad(db, op, order) && Visible(db, op, order[i])
    ensures GoesStale(was, SetMode(mode), order)
  {
    hide Finish, Stale, Prepared, Visible, FirstBad, OwnConfigs, Lists, TableOk, Current;
    PreparedIsTrusting(was, SetMode(mode));
    StaleIffStopped(Prepared(was, SetMode(mode)), 1, 0, mode, order);
  }

  /** Asked for a configuration that does not exist, the update leaves the other process's cache stale. */
  lemma RefusalGoesStale()
    ensures GoesStale(GYRO_ON, SetLogger("gyro", "gyro->disk"), [])
  {
    GyroAgrees();
    AgreeingDecides(GYRO_ON, "gyro");
    assert Refused(GYRO_ON, "gyro", "gyro->disk");
    hide GoesStale, Decides, TableOk, Current;
    RefusalCanGoStale(GYRO_ON, "gyro", "gyro->disk");
  }

  /** So does a change to the mode that the logger has no configuration in. */
  lemma StopGoesStale()
    ensures GoesStale(GYRO_ON, SetMode("survey"), [Task("gyro", Some("gyro->net"))])
  {
    var was, op := GYRO_ON, SetMode("survey");
    var task := Task("gyro", Some("gyro->net"));
    var db := was.(activeMode := "survey");
    GyroAgrees();
    BadInMode(db, "survey", task);
    assert Bad(db, op, [task][0]) && Shifts(db, op, task);
    assert FirstBad(db, op, [task]) == 0;
    assert TableOk(db) && OwnConfigs(db) && FlagsAgree(db, "gyro") && Stands(db, task);
    VisibleIffShifts(db, op, task);
    hide GoesStale, TableOk, Current, OwnConfigs, FlagsAgree, Visible, Shifts, FirstBad, Lists;
    StopCanGoStale(was, "survey", [task], 0);
  }

  /** Process 0 finds its cache older than the stamp of an update that process 1 has made, and its query
      fails: what it has cached is stale. */
  predicate FailureGoesStale(db: Database, logger: string, name: string) {
    var s := Prepared(db, SetLogger(logger, name));
    && 1 < |s.procs|
    && var t := Next(Next(Next(Finish(s, 1, []), Ask(0)), Go(0)), Abort(0));
       0 < |t.procs| && t.procs[0].pc == Idle && Stale(t, 0)
  }

  /** That is so whenever the update moves the logger and a query then finds something else. */
  lemma FailedQueryCanGoStale(db: Database, logger: string, name: string)
    requires logger in db.loggers && Current(db) != map[]
    requires var task := Task(logger, db.loggers[logger]);
             !Bad(db, SetLogger(logger, name), task) && name in db.configs && Current(Moved(db, task, Some(name))) != Current(db)
    ensures FailureGoesStale(db, logger, name)
  {
    var op := SetLogger(logger, name);
    hide Current, Finish, Prepared, Next, Bad, Moved, Refused, Stale;
    PreparedIsTrusting(db, op);
    var s := Prepared(db, op);
    SetLoggerAlone(s, 1, logger, name);
    FinishLeavesOthers(s, 1, 0, []);
    QueryFails(Finish(s, 1, []), 0);
  }

  lemma FailedQueryGoesStale()
    ensures FailureGoesStale(GYRO_ON, "gyro", "gyro->file")
  {
    GyroAgrees();
    GyroMoved();
    assert GYRO_ON.loggers["gyro"] == Some("gyro->net");
    hide Current, FailureGoesStale, Bad, Moved;
    FailedQueryCanGoStale(GYRO_ON, "gyro", "gyro->file");
  }

  lemma GyroMoved()
    ensures var task := Task("gyro", Some("gyro->net"));
            && !Bad(GYRO_ON, SetLogger("gyro", "gyro->file"), task)
            && Current(Moved(GYRO_ON, task, Some("gyro->file"))) == map["gyro" := "file"]
  {
    var db := Moved(GYRO_ON, Task("gyro", Some("gyro->net")), Some("gyro->file"));
    assert db.table[0] == "gyro->net" && db.table[1] == "gyro->file";
    assert Collected(db, 1) == map[] && Collected(db, 2) == map["gyro" := "file"];
  }

  /** A process with an outdated cache asks, and its query fails. */
  lemma QueryFails(s: State, q: nat)
    requires q < |s.procs| && s.procs[q].pc == Idle && s.shared.stamp <= s.shared.now
    requires s.procs[q].cache != map[] && s.procs[q].time < s.shared.stamp
    requires s.procs[q].cache != Current(s.shared.db)
    ensures var t := Next(Next(Next(s, Ask(q)), Go(q)), Abort(q));
            q < |t.procs| && t.procs[q].pc == Idle && Stale(t, q)
  {
    hide Current;
    FailedQueryIsTrusted(Next(Next(s, Ask(q)), Go(q)), q);
  }
}
