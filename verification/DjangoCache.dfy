/**
 The configuration cache of DjangoServerAPI. Several processes share a database; each keeps the answer
 of its last query for the current configurations and trusts it while no update has been stamped since.
 A step is one access to the database or to the clock by one process, and a process runs one operation
 at a time. Every step has its own time, as on a strictly increasing clock.
 */
module DjangoCaches {
  import opened Common

  // ---- The database ----

  /** A LoggerConfig row: whose configuration it is, what it says, and whether it is the current one. */
  datatype Row = Row(logger: string, text: string, current: bool)

  /** configs: the LoggerConfig rows by name. loggers: each Logger row's config. assignments: for each mode,
      which configuration each logger has in it. table: the names of configurations in the order in which the
      database lists the rows, if it has them. */
  datatype Database = Database(
    cruise: bool,
    activeMode: string,
    assignments: map<string, map<string, string>>,
    loggers: map<string, Option<string>>,
    configs: map<string, Row>,
    table: seq<string>)

  /** The text of each logger's current configuration. */
  type Configs = map<string, string>

  predicate IsCurrent(configs: map<string, Row>, name: string) { name in configs && configs[name].current }

  /** The loop of get_logger_configs over the first n rows: of several current rows of a logger the last one
      counts. */
  function Collected(db: Database, n: nat): Configs
    requires n <= |db.table|
  {
    if n == 0 then map[]
    else
      var (found, name) := (Collected(db, n - 1), db.table[n - 1]);
      if IsCurrent(db.configs, name) then found[db.configs[name].logger := db.configs[name].text] else found
  }

  /** What a query for the current configurations finds. */
  function Current(db: Database): Configs { Collected(db, |db.table|) }

  lemma {:induction false} SameCollected(a: Database, b: Database, n: nat)
    requires a.configs == b.configs && a.table == b.table && n <= |a.table|
    ensures Collected(a, n) == Collected(b, n)
  {
    if n > 0 { SameCollected(a, b, n - 1); }
  }

  // ---- Processes ----

  datatype Op = SetMode(mode: string) | SetLogger(logger: string, name: string) | Delete

  /** A logger that an update still has to handle, and its configuration as it was read. */
  datatype Task = Task(logger: string, had: Option<string>)

  /** Where an update is. */
  datatype Stage =
    | Begin
    | SaveCruise
    | ListLoggers
    | ClearOld(todo: seq<Task>)
    | FindNew(task: Task, todo: seq<Task>)
    | FindOff(task: Task, todo: seq<Task>)
    | SaveLogger(task: Task, todo: seq<Task>, name: string, row: Row)
    | SetFlag(todo: seq<Task>, name: string, row: Row)
    | Stamp

  /** Compare: get_logger_configs has read the last stamp; the model notes what a query would have found
      at that moment, and whether all was quiet. Fetch: it has marked its time and is about to query. */
  datatype Pc =
    | Idle
    | Compare(stamp: int, found: Configs, quiet: bool)
    | Fetch
    | Update(op: Op, stage: Stage)

  /** suspect: the last query failed after its time was marked. */
  datatype Process = Process(pc: Pc, cache: Configs, time: int, suspect: bool)

  /** A returned answer, and what the database held when it was decided. */
  datatype Answer = Answer(value: Configs, found: Configs, quiet: bool)

  /** dirty: configuration rows were written since the last stamp. aborted: since then an update ended
      without a stamp of its own, by returning early, raising or dying. */
  datatype Shared = Shared(db: Database, stamp: int, now: int, dirty: bool, aborted: bool)

  datatype State = State(shared: Shared, procs: seq<Process>, log: seq<Answer>)

  datatype Action =
    | Ask(p: nat)
    | Start(p: nat, op: Op)
    | Go(p: nat)
    | List(p: nat, order: seq<Task>)
    | Retry(p: nat)
    | Abort(p: nat)

  // ---- Steps of an update ----

  datatype Effect = Goto(stage: Stage) | Wrote(configs: map<string, Row>, stage: Stage) | Stamped | Returned | Failed

  predicate Owns(db: Database, logger: string, name: string) {
    name in db.configs && db.configs[name].logger == logger
  }

  /** _get_logger_config_object with a mode: a configuration, None, or an error. */
  function InMode(db: Database, logger: string, mode: string): Result<Option<string>> {
    if mode in db.assignments && logger in db.assignments[mode] && Owns(db, logger, db.assignments[mode][logger]) then
      Ok(Some(db.assignments[mode][logger]))
    else if db.cruise && logger in db.loggers && mode in db.assignments then Ok(None)
    else Raised(ValueError)
  }

  /** What the next database access of an update does to the configuration rows, and what comes next. */
  function Effects(db: Database, op: Op, stage: Stage): Effect {
    match stage
    case Begin =>
      (match op
       case SetMode(mode) => if !db.cruise then Returned else if mode in db.assignments then Goto(SaveCruise) else Failed
       case SetLogger(l, _) => if l in db.loggers then Goto(ClearOld([Task(l, db.loggers[l])])) else Failed
       case Delete => Wrote(map[], Stamp))
    case SaveCruise => Goto(ListLoggers)
    case ListLoggers => Goto(ListLoggers)
    case ClearOld(todo) =>
      if todo == [] then Goto(Stamp)
      else if todo[0].had.None? then Goto(FindNew(todo[0], todo[1..]))
      else
        var had := todo[0].had.value;
        if had in db.configs then
          Wrote(db.configs[had := db.configs[had].(current := false)], FindNew(todo[0], todo[1..]))
        else Failed
    case FindNew(task, todo) =>
      (match op
       case SetLogger(_, name) =>
         if Owns(db, task.logger, name) then
           Goto(SaveLogger(task, todo, name, db.configs[name]))
         else Failed
       case Delete => Returned
       case SetMode(mode) =>
         var found := InMode(db, task.logger, mode);
         if found.Raised? then Failed
         else if found.value.None? then Goto(FindOff(task, todo))
         else Goto(SaveLogger(task, todo, found.value.value, db.configs[found.value.value])))
    case FindOff(task, todo) =>
      var found := InMode(db, task.logger, "off");
      if found.Raised? then Failed
      else if found.value.None? then Goto(ClearOld(todo))
      else Goto(SaveLogger(task, todo, found.value.value, db.configs[found.value.value]))
    case SaveLogger(task, todo, name, row) => Goto(SetFlag(todo, name, row))
    case SetFlag(todo, name, row) => Wrote(db.configs[name := row.(current := true)], ClearOld(todo))
    case Stamp => Stamped
  }

  /** The same access's effect on the other tables. */
  function OtherTables(db: Database, op: Op, stage: Stage): Database {
    match stage
    case Begin => if op.Delete? then Database(false, "", map[], map[], db.configs, db.table) else db
    case SaveCruise => if op.SetMode? then db.(cruise := true, activeMode := op.mode) else db
    case SaveLogger(task, _, name, _) => db.(loggers := db.loggers[task.logger := Some(name)])
    case _ => db
  }

  predicate Lists(order: seq<Task>, db: Database) {
    && |order| == |db.loggers|
    && (forall k :: 0 <= k < |order| ==> order[k].logger in db.loggers && order[k].had == db.loggers[order[k].logger])
    && (forall j, k :: 0 <= j < k < |order| ==> order[j].logger != order[k].logger)
  }

  function UpdateShared(s: Shared, op: Op, stage: Stage): Shared {
    var db := OtherTables(s.db, op, stage);
    match Effects(s.db, op, stage)
    case Goto(_) => s.(db := db)
    case Wrote(configs, _) => s.(db := db.(configs := configs), dirty := true)
    case Stamped => s.(stamp := s.now, dirty := false, aborted := false)
    case _ => s.(aborted := s.aborted || s.dirty)
  }

  function UpdatePc(s: Shared, op: Op, stage: Stage): Pc {
    match Effects(s.db, op, stage)
    case Goto(next) => Update(op, next)
    case Wrote(_, next) => Update(op, next)
    case _ => Idle
  }

  // ---- Steps of the whole ----

  /** No update is under way, and none has ended without a stamp. */
  predicate Quiet(s: State) {
    !s.shared.aborted && forall q :: 0 <= q < |s.procs| ==> !s.procs[q].pc.Update?
  }

  /** get_logger_configs: read the stamp; compare it with the cache's time; if the cache is empty or older,
      mark the time, query and cache the answer. */
  function Query(s: State, p: nat): State
    requires p < |s.procs|
  {
    var proc, now := s.procs[p], s.shared.now;
    match proc.pc
    case Compare(stamp, found, quiet) =>
      if proc.cache != map[] && proc.time >= stamp then
        State(s.shared, s.procs[p := proc.(pc := Idle)], s.log + [Answer(proc.cache, found, quiet)])
      else s.(procs := s.procs[p := proc.(pc := Fetch, time := now)])
    case Fetch =>
      var answer := Current(s.shared.db);
      State(s.shared, s.procs[p := proc.(pc := Idle, cache := answer, suspect := false)],
            s.log + [Answer(answer, answer, true)])
    case _ => s
  }

  function Act(s: State, a: Action): State {
    if a.p >= |s.procs| then s
    else
      var proc, shared := s.procs[a.p], s.shared;
      match a
      case Ask(p) =>
        if proc.pc != Idle then s
        else s.(procs := s.procs[p := proc.(
          pc := Compare(shared.stamp, Current(shared.db), Quiet(s) && !proc.suspect))])
      case Start(p, op) =>
        if proc.pc != Idle then s else s.(procs := s.procs[p := proc.(pc := Update(op, Begin))])
      case Go(p) =>
        if proc.pc.Update? then
          State(UpdateShared(shared, proc.pc.op, proc.pc.stage),
                s.procs[p := proc.(pc := UpdatePc(shared, proc.pc.op, proc.pc.stage))], s.log)
        else Query(s, p)
      case List(p, order) =>
        if proc.pc.Update? && proc.pc.stage == ListLoggers && Lists(order, shared.db) then
          s.(procs := s.procs[p := proc.(pc := Update(proc.pc.op, ClearOld(order)))])
        else s
      // The database balks: an update other than delete_configuration starts over.
      case Retry(p) =>
        if proc.pc.Update? && !proc.pc.op.Delete? then
          s.(procs := s.procs[p := proc.(pc := Update(proc.pc.op, Begin))])
        else s
      // Something else goes wrong, or the process dies.
      case Abort(p) =>
        State(if proc.pc.Update? then shared.(aborted := shared.aborted || shared.dirty) else shared,
              s.procs[p := proc.(pc := Idle, suspect := proc.suspect || proc.pc.Fetch?)], s.log)
  }

  /** One step, and the clock goes on. */
  function Next(s: State, a: Action): State {
    var t := Act(s, a);
    t.(shared := t.shared.(now := t.shared.now + 1))
  }

  function Run(s: State, actions: seq<Action>): State
    decreases |actions|
  {
    if actions == [] then s else Run(Next(s, actions[0]), actions[1..])
  }

  /** n processes with empty caches share a database that nobody is changing. */
  function Init(db: Database, stamp: int, now: int, n: nat): State {
    State(Shared(db, stamp, now, false, false), seq(n, _ => Process(Idle, map[], 0, false)), [])
  }

  // ---- What every step keeps ----

  /** A cache that may still be trusted is empty, or right, or older than the last stamp, unless rows were
      written that nobody has stamped yet. */
  predicate ProcessOk(proc: Process, s: Shared) {
    && (proc.pc.Compare? && proc.pc.quiet ==>
         proc.cache == map[] || proc.cache == proc.pc.found || proc.time < proc.pc.stamp)
    && (!proc.pc.Fetch? && !proc.suspect ==>
         proc.cache == map[] || proc.cache == Current(s.db) || proc.time < s.stamp || s.dirty)
    && proc.time < s.now
  }

  predicate UnderWay(procs: seq<Process>) { exists q :: 0 <= q < |procs| && procs[q].pc.Update? }

  predicate Inv(s: State) {
    && (forall q :: 0 <= q < |s.procs| ==> ProcessOk(s.procs[q], s.shared))
    && (s.shared.dirty && !s.shared.aborted ==> UnderWay(s.procs))
    && (forall k :: 0 <= k < |s.log| && s.log[k].quiet ==> s.log[k].value == s.log[k].found)
  }

  lemma InitOk(db: Database, stamp: int, now: int, n: nat)
    requires 0 < now && stamp <= now
    ensures Inv(Init(db, stamp, now, n))
  {
  }

  /** A process that does not move stays all right whatever the others do to the shared state. */
  lemma OtherStaysOk(proc: Process, s: Shared, op: Op, stage: Stage)
    requires ProcessOk(proc, s)
    ensures ProcessOk(proc, UpdateShared(s, op, stage).(now := s.now + 1))
  {
    hide Effects, OtherTables, Current;
    TablesApart(s.db, op, stage);
  }

  /** Only what a step does to the configuration rows can show. */
  lemma TablesApart(db: Database, op: Op, stage: Stage)
    ensures Current(OtherTables(db, op, stage)) == Current(db)
  {
    SameCollected(OtherTables(db, op, stage), db, |db.table|);
  }

  /** Rows stay unstamped only while an update is under way, or after one has ended without a stamp. */
  lemma DirtIsAccountedFor(s: State, a: Action)
    requires s.shared.dirty && !s.shared.aborted ==> UnderWay(s.procs)
    ensures var t := Next(s, a); t.shared.dirty && !t.shared.aborted ==> UnderWay(t.procs)
  {
    hide Effects, OtherTables, Current, Lists;
    var t := Next(s, a);
    if t.shared.dirty && !t.shared.aborted {
      if a.p < |s.procs| && t.procs[a.p].pc.Update? {
        assert UnderWay(t.procs);
      } else {
        var q :| 0 <= q < |s.procs| && s.procs[q].pc.Update?;
        assert t.procs[q] == s.procs[q];
      }
    }
  }

  lemma StepKeepsProcesses(s: State, a: Action)
    requires Inv(s)
    ensures var t := Next(s, a);
            forall q :: 0 <= q < |t.procs| ==> ProcessOk(t.procs[q], t.shared)
  {
    hide Effects, OtherTables, Current, Lists;
    var t := Next(s, a);
    forall q | 0 <= q < |t.procs| ensures ProcessOk(t.procs[q], t.shared) {
      assert ProcessOk(s.procs[q], s.shared);
      if a.p < |s.procs| && s.procs[a.p].pc.Update? { OtherStaysOk(s.procs[q], s.shared, s.procs[a.p].pc.op, s.procs[a.p].pc.stage); }
      assert q != a.p ==> t.procs[q] == s.procs[q];
    }
  }

  lemma StepKeepsLog(s: State, a: Action)
    requires Inv(s)
    ensures var t := Next(s, a);
            && |s.log| <= |t.log| && t.log[..|s.log|] == s.log
            && forall k :: 0 <= k < |t.log| && t.log[k].quiet ==> t.log[k].value == t.log[k].found
  {
    hide Effects, OtherTables, Current, Lists;
    if a.p < |s.procs| { assert ProcessOk(s.procs[a.p], s.shared); }
  }

  lemma StepKeepsInv(s: State, a: Action)
    requires Inv(s)
    ensures Inv(Next(s, a))
  {
    DirtIsAccountedFor(s, a);
    StepKeepsProcesses(s, a);
    StepKeepsLog(s, a);
  }

  lemma {:induction false} RunKeepsInv(s: State, actions: seq<Action>)
    requires Inv(s)
    ensures Inv(Run(s, actions))
    decreases |actions|
  {
    if actions != [] {
      StepKeepsInv(s, actions[0]);
      RunKeepsInv(Next(s, actions[0]), actions[1..]);
    }
  }

  /** Over every run of any number of processes: an answer given from a cache is what the database held
      when the stamp was read, if no update was under way then, none had ended without a stamp, and the
      process had not had a query fail. */
  lemma CachedAnswersAreFresh(db: Database, stamp: int, now: int, n: nat, actions: seq<Action>)
    requires 0 < now && stamp <= now
    ensures var log := Run(Init(db, stamp, now, n), actions).log;
            forall k :: 0 <= k < |log| && log[k].quiet ==> log[k].value == log[k].found
  {
    InitOk(db, stamp, now, n);
    RunKeepsInv(Init(db, stamp, now, n), actions);
  }

  predicate NotBy(p: nat, actions: seq<Action>) { forall k :: 0 <= k < |actions| ==> actions[k].p != p }

  lemma {:induction false} OthersLeaveIt(s: State, p: nat, actions: seq<Action>)
    requires p < |s.procs| && NotBy(p, actions)
    ensures |Run(s, actions).procs| == |s.procs| && Run(s, actions).procs[p] == s.procs[p]
    decreases |actions|
  {
    if actions != [] {
      hide Effects, OtherTables, Current, Lists;
      assert actions[0].p != p;
      OthersLeaveIt(Next(s, actions[0]), p, actions[1..]);
    }
  }

  /** One call of get_logger_configs that begins when all is quiet, whatever the other processes do before
      it is answered: it either answers at once what a query would have found at its beginning, or goes on
      to query. */
  lemma OneCall(s: State, p: nat, others: seq<Action>)
    requires Inv(s) && p < |s.procs| && s.procs[p].pc == Idle
    requires Quiet(s) && !s.procs[p].suspect && NotBy(p, others)
    ensures var u := Run(Next(s, Ask(p)), others);
            var t := Next(u, Go(p));
            && |t.procs| == |s.procs|
            && ((t.log == u.log && t.procs[p].pc == Fetch) ||
             (|t.log| == |u.log| + 1 && t.log[|u.log|].value == Current(s.shared.db) && t.procs[p].pc == Idle))
  {
    var r := Next(s, Ask(p));
    StepKeepsInv(s, Ask(p));
    OthersLeaveIt(r, p, others);
    RunKeepsInv(r, others);
    var u := Run(r, others);
    assert ProcessOk(u.procs[p], u.shared);
    hide Current, Run;
  }
}
