/**
 LoggerRunner and LoggerSupervisor: a map of running loggers that is reconciled with a map of desired
 configurations, and a periodic check that restarts dead loggers until they have died too often. The
 operations run under the supervisor's lock, so each is one atomic step.
 */
module LoggerSupervisors {
  import opened Common

  /** A logger configuration: the keys matter to this code, the values only when compared. */
  datatype Config = Config(entries: map<string, string>)

  function Name(config: Config, default: string): string {
    if "name" in config.entries then config.entries["name"] else default
  }

  // ---- Runners ----

  class LoggerRunner {
    const config: Config
    var process: bool  // is there a process object?
    var failed: bool
    var quitFlag: bool

    constructor (config: Config)
      ensures this.config == config && !process && !failed && !quitFlag
    {
      this.config := config;
      process, failed, quitFlag := false, false, false;
    }

    predicate IsRunnable() { "readers" in config.entries || "writers" in config.entries }

    /** is_alive, where the operating system says whether the process lives, if there is one. */
    predicate IsAlive(lives: bool)
      reads this
    {
      process && lives
    }

    method Start()
      modifies this
      ensures process && !failed && !quitFlag
    {
      quitFlag, failed := false, false;
      process := true;
    }

    method Quit()
      modifies this
      ensures quitFlag && !process && !failed
    {
      quitFlag := true;
      process := false;
      failed := false;
    }
  }

  // ---- The restart policy of one logger ----

  /** What the outside world shows a check of one logger: whether its process lives, and the clock when
      the check compares times and when it notes the restart. */
  datatype Observation = Observation(lives: bool, checked: real, stamped: real)

  /** A restart: the clock readings of the check that made it. */
  datatype Restart = Restart(checked: real, stamped: real)

  datatype Policy = Policy(maxTries: int, minUptime: real)

  /** logger_last_started and logger_restart_counts of one logger, with their defaults. */
  datatype Tally = Tally(lastStarted: real, count: int)

  datatype Verdict = GiveUp(count: int) | StartAgain(count: int)

  /** What a check decides about a runnable logger that is neither alive nor failed. */
  function Decide(policy: Policy, tally: Tally, checked: real): Verdict {
    var count := if checked - tally.lastStarted < policy.minUptime then tally.count + 1 else 0;
    if count >= policy.maxTries then GiveUp(count) else StartAgain(count)
  }

  /** The time of the restart before the n-th, or 0 if there is none. */
  function LastStart(restarts: seq<Restart>, n: nat): real
    requires n <= |restarts|
  {
    if n == 0 then 0.0 else restarts[n - 1].stamped
  }

  /** Of the first n restarts, how many at the end each came too soon after the one before. */
  function Hasty(policy: Policy, restarts: seq<Restart>, n: nat): (count: nat)
    requires n <= |restarts|
    ensures count <= n
  {
    if n == 0 || restarts[n - 1].checked - LastStart(restarts, n - 1) >= policy.minUptime then 0
    else Hasty(policy, restarts, n - 1) + 1
  }

  /** The tally covers the restarts made, and none of them was made after too many hasty ones. */
  predicate RateOk(policy: Policy, tally: Tally, restarts: seq<Restart>) {
    && tally.count >= 0
    && tally.lastStarted == LastStart(restarts, |restarts|)
    && tally.count >= Hasty(policy, restarts, |restarts|)
    && forall n :: 0 < n <= |restarts| ==> Hasty(policy, restarts, n) < policy.maxTries
  }

  lemma {:induction false} HastyPrefix(policy: Policy, restarts: seq<Restart>, r: Restart, n: nat)
    requires n <= |restarts|
    ensures Hasty(policy, restarts + [r], n) == Hasty(policy, restarts, n)
  {
    if n > 0 { HastyPrefix(policy, restarts, r, n - 1); }
  }

  lemma RestartKeepsRate(policy: Policy, tally: Tally, restarts: seq<Restart>, o: Observation)
    requires RateOk(policy, tally, restarts)
    requires Decide(policy, tally, o.checked).StartAgain?
    ensures RateOk(policy, Tally(o.stamped, Decide(policy, tally, o.checked).count),
                   restarts + [Restart(o.checked, o.stamped)])
  {
    var r := Restart(o.checked, o.stamped);
    forall n | 0 <= n <= |restarts|
      ensures Hasty(policy, restarts + [r], n) == Hasty(policy, restarts, n)
    {
      HastyPrefix(policy, restarts, r, n);
    }
  }

  lemma GiveUpKeepsRate(policy: Policy, tally: Tally, restarts: seq<Restart>, checked: real)
    requires RateOk(policy, tally, restarts) && Decide(policy, tally, checked).GiveUp?
    ensures RateOk(policy, tally.(count := Decide(policy, tally, checked).count), restarts)
  {
    if restarts != [] { RestartsNeedTries(policy, tally, restarts); }
  }

  /** Among any maxTries + 1 successive restarts some two consecutive ones are at least minUptime apart:
      the check that made the later one came that long after the earlier one. */
  lemma {:induction false} SomeGapIsLong(policy: Policy, tally: Tally, restarts: seq<Restart>, i: nat)
    requires RateOk(policy, tally, restarts)
    requires policy.maxTries >= 1 && i + policy.maxTries < |restarts|
    ensures exists k :: i < k <= i + policy.maxTries &&
                        restarts[k].checked - restarts[k - 1].stamped >= policy.minUptime
  {
    if forall k :: i < k <= i + policy.maxTries ==> restarts[k].checked - restarts[k - 1].stamped < policy.minUptime {
      HastyRun(policy, restarts, i, i + policy.maxTries + 1);
    }
  }

  lemma {:induction false} HastyRun(policy: Policy, restarts: seq<Restart>, i: nat, n: nat)
    requires i < n <= |restarts|
    requires forall k :: i < k < n ==> restarts[k].checked - restarts[k - 1].stamped < policy.minUptime
    ensures Hasty(policy, restarts, n) >= n - i - 1
  {
    if i + 1 < n { HastyRun(policy, restarts, i, n - 1); }
  }

  /** The clock never goes back while the restarts are made. */
  predicate Monotone(restarts: seq<Restart>) {
    && (forall k :: 0 <= k < |restarts| ==> restarts[k].checked <= restarts[k].stamped)
    && (forall j, k :: 0 <= j < k < |restarts| ==> restarts[j].stamped <= restarts[k].checked)
  }

  lemma LongGapSpans(policy: Policy, restarts: seq<Restart>, i: nat, k: nat, j: nat)
    requires Monotone(restarts) && i < k <= j < |restarts|
    requires restarts[k].checked - restarts[k - 1].stamped >= policy.minUptime
    ensures restarts[j].stamped - restarts[i].stamped >= policy.minUptime
  {
    assert restarts[i].stamped <= restarts[k].checked;
    if i < k - 1 {
      assert restarts[i].stamped <= restarts[k - 1].checked <= restarts[k - 1].stamped;
    }
    if k < j {
      assert restarts[k].stamped <= restarts[j].checked;
    }
  }

  /** Under such a clock maxTries + 1 restarts span at least minUptime, so that no shorter window holds
      that many. */
  lemma ManyRestartsTakeTime(policy: Policy, tally: Tally, restarts: seq<Restart>, i: nat, j: nat)
    requires RateOk(policy, tally, restarts) && Monotone(restarts)
    requires j < |restarts| && j - i + 1 > policy.maxTries && i < j
    ensures restarts[j].stamped - restarts[i].stamped >= policy.minUptime
  {
    hide Monotone, RateOk;
    RestartsNeedTries(policy, tally, restarts);
    SomeGapIsLong(policy, tally, restarts, i);
    var k :| i < k <= i + policy.maxTries && restarts[k].checked - restarts[k - 1].stamped >= policy.minUptime;
    LongGapSpans(policy, restarts, i, k, j);
  }

  /** With maxTries of zero a dead logger is not restarted even once. */
  lemma RestartsNeedTries(policy: Policy, tally: Tally, restarts: seq<Restart>)
    requires RateOk(policy, tally, restarts) && restarts != []
    ensures policy.maxTries >= 1
  {
    assert Hasty(policy, restarts, |restarts|) < policy.maxTries;
  }

  // ---- When a dead logger is restarted ----

  /** A check found the logger dead, and started it again at some time or gave it up. */
  datatype Death = Death(checked: real, started: Option<real>)

  /** When the logger was last started again after one of its first n deaths, or 0. */
  function StartBefore(deaths: seq<Death>, n: nat): real
    requires n <= |deaths|
  {
    if n == 0 then 0.0
    else if deaths[n - 1].started.Some? then deaths[n - 1].started.value
    else StartBefore(deaths, n - 1)
  }

  /** Death n came too soon after the last restart. */
  predicate Quick(policy: Policy, deaths: seq<Death>, n: nat)
    requires n < |deaths|
  {
    deaths[n].checked - StartBefore(deaths, n) < policy.minUptime
  }

  /** Not all of the last maxTries deaths, death n being the last, were quick. */
  ghost predicate Deserves(policy: Policy, deaths: seq<Death>, n: nat)
    requires n < |deaths|
  {
    policy.maxTries >= 1 &&
    (n + 1 < policy.maxTries || exists k :: 0 <= k && n - policy.maxTries < k <= n && !Quick(policy, deaths, k))
  }

  /** How many of the first n deaths, from the last one back, were quick. */
  function Trailing(policy: Policy, deaths: seq<Death>, n: nat): (count: nat)
    requires n <= |deaths|
    ensures count <= n
  {
    if n == 0 || !Quick(policy, deaths, n - 1) then 0 else Trailing(policy, deaths, n - 1) + 1
  }

  /** The tally tells the deaths, and the logger was started again after exactly those that deserved it. */
  ghost predicate Accounts(policy: Policy, tally: Tally, deaths: seq<Death>) {
    && tally == Tally(StartBefore(deaths, |deaths|), Trailing(policy, deaths, |deaths|))
    && forall n :: 0 <= n < |deaths| ==> (deaths[n].started.Some? <==> Deserves(policy, deaths, n))
  }

  lemma {:induction false} TrailingAre(policy: Policy, deaths: seq<Death>, n: nat)
    requires n <= |deaths|
    ensures var m := n - Trailing(policy, deaths, n);
            && (forall k :: m <= k < n ==> Quick(policy, deaths, k))
            && (m > 0 ==> !Quick(policy, deaths, m - 1))
  {
    if n > 0 && Quick(policy, deaths, n - 1) { TrailingAre(policy, deaths, n - 1); }
  }

  lemma DeservesIs(policy: Policy, deaths: seq<Death>, n: nat)
    requires n < |deaths|
    ensures Deserves(policy, deaths, n) <==> Trailing(policy, deaths, n + 1) < policy.maxTries
  {
    TrailingAre(policy, deaths, n + 1);
    hide Quick, Trailing;
    var m := n + 1 - Trailing(policy, deaths, n + 1);
    if m > 0 && Trailing(policy, deaths, n + 1) < policy.maxTries {
      assert !Quick(policy, deaths, m - 1) && n - policy.maxTries < m - 1;
    }
  }

  /** What happened before does not depend on what comes after. */
  lemma {:induction false} SameStartBefore(a: seq<Death>, b: seq<Death>, n: nat)
    requires n <= |a| && n <= |b| && forall k :: 0 <= k < n ==> a[k] == b[k]
    ensures StartBefore(a, n) == StartBefore(b, n)
  {
    if n > 0 { SameStartBefore(a, b, n - 1); }
  }

  lemma SameQuick(policy: Policy, a: seq<Death>, b: seq<Death>, n: nat)
    requires n < |a| && n < |b| && a[n].checked == b[n].checked && forall k :: 0 <= k < n ==> a[k] == b[k]
    ensures Quick(policy, a, n) == Quick(policy, b, n)
  {
    SameStartBefore(a, b, n);
  }

  lemma {:induction false} SameTrailing(policy: Policy, a: seq<Death>, b: seq<Death>, n: nat)
    requires n <= |a| && n <= |b| && forall k :: 0 <= k < n ==> a[k] == b[k]
    ensures Trailing(policy, a, n) == Trailing(policy, b, n)
  {
    hide Quick;
    if n > 0 {
      SameQuick(policy, a, b, n - 1);
      SameTrailing(policy, a, b, n - 1);
    }
  }

  lemma SameDeserves(policy: Policy, a: seq<Death>, b: seq<Death>, n: nat)
    requires n < |a| && n < |b| && forall k :: 0 <= k <= n ==> a[k] == b[k]
    ensures Deserves(policy, a, n) == Deserves(policy, b, n)
  {
    hide Quick;
    forall k | 0 <= k <= n ensures Quick(policy, a, k) == Quick(policy, b, k) { SameQuick(policy, a, b, k); }
  }

  /** What a check decides about a death is what that death deserves, and what it counts are the quick deaths
      up to it. */
  lemma DecideIs(policy: Policy, tally: Tally, deaths: seq<Death>, d: Death)
    requires Accounts(policy, tally, deaths)
    ensures var v := Decide(policy, tally, d.checked);
            && (v.StartAgain? <==> Deserves(policy, deaths + [d], |deaths|))
            && v.count == Trailing(policy, deaths + [d], |deaths| + 1)
  {
    var all := deaths + [d];
    hide Deserves;
    SameStartBefore(all, deaths, |deaths|);
    SameTrailing(policy, all, deaths, |deaths|);
    DeservesIs(policy, all, |deaths|);
  }

  /** The death that a check notes. */
  function Noted(verdict: Verdict, o: Observation): Death {
    Death(o.checked, if verdict.StartAgain? then Some(o.stamped) else None)
  }

  lemma DeathKeepsAccounts(policy: Policy, tally: Tally, deaths: seq<Death>, o: Observation)
    requires Accounts(policy, tally, deaths)
    ensures var v := Decide(policy, tally, o.checked);
            Accounts(policy, Tally(if v.StartAgain? then o.stamped else tally.lastStarted, v.count),
                     deaths + [Noted(v, o)])
  {
    var v := Decide(policy, tally, o.checked);
    var all := deaths + [Noted(v, o)];
    DecideIs(policy, tally, deaths, Noted(v, o));
    SameStartBefore(all, deaths, |deaths|);
    hide Decide, Deserves, Trailing;
    forall n | 0 <= n < |deaths| ensures all[n].started.Some? <==> Deserves(policy, all, n) {
      SameDeserves(policy, all, deaths, n);
    }
  }

  /** What a check can see and change of one logger, and the deaths and restarts it has had so far. */
  datatype LoggerState =
    LoggerState(runnable: bool, failed: bool, tally: Tally, restarts: seq<Restart>, deaths: seq<Death>)

  /** A check leaves alone what is not runnable, is alive or was given up; the rest it gives up, or starts
      again and notes the time. */
  function AfterCheck(policy: Policy, s: LoggerState, o: Observation): LoggerState {
    if !s.runnable || o.lives || s.failed then s
    else
      var verdict := Decide(policy, s.tally, o.checked);
      var t := s.(deaths := s.deaths + [Noted(verdict, o)]);
      match verdict
      case GiveUp(count) => t.(failed := true, tally := s.tally.(count := count))
      case StartAgain(count) =>
        t.(tally := Tally(o.stamped, count), restarts := s.restarts + [Restart(o.checked, o.stamped)])
  }

  /** A check of a logger that is runnable, dead and not given up notes its death, starts it again if it
      deserves that, and gives it up otherwise; so one that has lived for minUptime is started again if
      maxTries is at least one. Any other logger is left alone. */
  lemma CheckIs(policy: Policy, s: LoggerState, o: Observation)
    requires Accounts(policy, s.tally, s.deaths)
    ensures var t := AfterCheck(policy, s, o);
            if !s.runnable || o.lives || s.failed then t == s
            else
              && t.runnable && |t.deaths| == |s.deaths| + 1 && t.deaths[..|s.deaths|] == s.deaths
              && t.deaths[|s.deaths|].checked == o.checked
              && (t.failed <==> !Deserves(policy, t.deaths, |s.deaths|))
              && t.deaths[|s.deaths|].started == (if t.failed then None else Some(o.stamped))
              && t.restarts == s.restarts + (if t.failed then [] else [Restart(o.checked, o.stamped)])
              && (policy.maxTries >= 1 && o.checked - StartBefore(s.deaths, |s.deaths|) >= policy.minUptime ==> !t.failed)
    ensures Accounts(policy, AfterCheck(policy, s, o).tally, AfterCheck(policy, s, o).deaths)
  {
    if s.runnable && !o.lives && !s.failed {
      var v := Decide(policy, s.tally, o.checked);
      DecideIs(policy, s.tally, s.deaths, Noted(v, o));
      DeathKeepsAccounts(policy, s.tally, s.deaths, o);
      hide Deserves, Trailing, Accounts;
    }
  }

  /** All restarts so far were made by time t, by a clock that did not go back. */
  predicate MadeBy(restarts: seq<Restart>, t: real) {
    Monotone(restarts) && forall k :: 0 <= k < |restarts| ==> restarts[k].stamped <= t
  }

  /** Readings of the clock between two times, in the order they are taken. */
  predicate Between(o: Observation, from: real, to: real) { from <= o.checked <= o.stamped <= to }

  predicate AllBetween(seen: map<string, Observation>, from: real, to: real) {
    from <= to && forall l :: l in seen.Keys ==> Between(seen[l], from, to)
  }

  lemma Later(restarts: seq<Restart>, from: real, to: real)
    ensures MadeBy(restarts, from) && from <= to ==> MadeBy(restarts, to)
  {
  }

  lemma RestartInTime(restarts: seq<Restart>, o: Observation, from: real, to: real)
    ensures MadeBy(restarts, from) && Between(o, from, to) ==>
              MadeBy(restarts + [Restart(o.checked, o.stamped)], to)
  {
  }

  // ---- The supervisor ----

  datatype Status = Exited | Running | Failed | Starting

  class LoggerSupervisor {
    const configs: map<string, Config>
    const policy: Policy
    var configMap: map<string, Config>
    var runnerMap: map<string, LoggerRunner>
    var lastStarted: map<string, real>
    var restartCounts: map<string, int>
    var quitFlag: bool
    ghost var restarts: map<string, seq<Restart>>  // every restart that a check ever made
    ghost var deaths: map<string, seq<Death>>      // every death that one ever noted

    function TallyOf(logger: string): Tally
      reads this`lastStarted, this`restartCounts
    {
      Tally(if logger in lastStarted then lastStarted[logger] else 0.0,
            if logger in restartCounts then restartCounts[logger] else 0)
    }

    ghost function RestartsOf(logger: string): seq<Restart>
      reads this`restarts
    {
      if logger in restarts then restarts[logger] else []
    }

    ghost function DeathsOf(logger: string): seq<Death>
      reads this`deaths
    {
      if logger in deaths then deaths[logger] else []
    }

    /** The two maps describe the same loggers, and each runner runs its logger's configuration. */
    ghost predicate MapsAgree()
      reads this`configMap, this`runnerMap, runnerMap.Values
    {
      && configMap.Keys == runnerMap.Keys
      && (forall l :: l in runnerMap.Keys ==>
           runnerMap[l].config == configMap[l] && runnerMap[l].process && !runnerMap[l].quitFlag)
      && (forall l, m :: l in runnerMap.Keys && m in runnerMap.Keys && l != m ==> runnerMap[l] != runnerMap[m])
    }

    lemma OwnRunners(logger: string)
      requires MapsAgree() && logger in runnerMap.Keys
      ensures forall l :: l in runnerMap.Keys && l != logger ==> runnerMap[l] != runnerMap[logger]
      ensures runnerMap[logger].process
    {
    }

    ghost predicate RatesOk()
      reads this`lastStarted, this`restartCounts, this`restarts, this`deaths
    {
      forall l :: RateOk(policy, TallyOf(l), RestartsOf(l)) && Accounts(policy, TallyOf(l), DeathsOf(l))
    }

    ghost predicate Valid()
      reads this, runnerMap.Values
    {
      && MapsAgree()
      && RatesOk()
      && (quitFlag ==> runnerMap == map[])
    }

    constructor (configs: map<string, Config>, policy: Policy)
      ensures Valid() && !quitFlag && configMap == map[] && runnerMap == map[]
      ensures this.configs == configs && this.policy == policy && restarts == map[] && deaths == map[]
    {
      this.configs, this.policy := configs, policy;
      configMap, runnerMap, lastStarted, restartCounts := map[], map[], map[], map[];
      quitFlag := false;
      restarts, deaths := map[], map[];
    }

    /** _start_logger */
    method StartLogger(logger: string, config: Config)
      requires MapsAgree()
      modifies this`configMap, this`runnerMap
      ensures MapsAgree()
      ensures configMap == old(configMap)[logger := config]
      ensures logger in runnerMap && runnerMap == old(runnerMap)[logger := runnerMap[logger]]
      ensures fresh(runnerMap[logger])
    {
      configMap := configMap[logger := config];
      var runner := new LoggerRunner(config);
      runnerMap := runnerMap[logger := runner];
      runner.Start();
    }

    /** _delete_logger */
    method DeleteLogger(logger: string)
      requires MapsAgree()
      modifies this`configMap, this`runnerMap, if logger in runnerMap then {runnerMap[logger]} else {}
      ensures MapsAgree()
      ensures configMap == old(configMap) - {logger} && runnerMap == old(runnerMap) - {logger}
      ensures logger in old(runnerMap) ==> !old(runnerMap)[logger].process && old(runnerMap)[logger].quitFlag
    {
      if logger !in runnerMap { return; }
      runnerMap[logger].Quit();
      configMap := configMap - {logger};
      runnerMap := runnerMap - {logger};
    }

    ghost function StateOf(logger: string): LoggerState
      reads this, runnerMap.Values
    {
      if logger in runnerMap.Keys then
        LoggerState(runnerMap[logger].IsRunnable(), runnerMap[logger].failed, TallyOf(logger), RestartsOf(logger),
                    DeathsOf(logger))
      else LoggerState(false, false, TallyOf(logger), RestartsOf(logger), DeathsOf(logger))
    }

    /** Every restart that a check ever made was made by time t, by a clock that did not go back. */
    ghost predicate ClockAt(t: real)
      reads this`restarts
    {
      forall l :: MadeBy(RestartsOf(l), t)
    }

    /** _check_loggers, where each logger may be observed to be alive or dead, and all readings of the clock
        are taken between two times. */
    method CheckLoggers(seen: map<string, Observation>, ghost from: real, ghost to: real)
      requires Valid() && runnerMap.Keys <= seen.Keys
      modifies this`lastStarted, this`restartCounts, this`restarts, this`deaths, runnerMap.Values
      ensures Valid()
      ensures forall l :: StateOf(l) == if l in runnerMap.Keys then AfterCheck(policy, old(StateOf(l)), seen[l])
                                        else old(StateOf(l))
      ensures old(ClockAt(from)) && AllBetween(seen, from, to) ==> ClockAt(to)
    {
      hide AfterCheck, StateOf, RatesOk, MapsAgree, MadeBy, RestartsOf, Between;
      ghost var inTime := ClockAt(from) && AllBetween(seen, from, to);
      var todo := runnerMap.Keys;
      while todo != {}
        invariant Valid() && todo <= runnerMap.Keys
        invariant forall l :: StateOf(l) == if l in runnerMap.Keys - todo
                                            then AfterCheck(policy, old(StateOf(l)), seen[l]) else old(StateOf(l))
        invariant inTime ==> forall l :: MadeBy(RestartsOf(l), if l in runnerMap.Keys - todo then to else from)
      {
        var logger :| logger in todo;
        todo := todo - {logger};
        CheckLogger(logger, seen[logger], from, to);
      }
      if inTime {
        forall l ensures MadeBy(RestartsOf(l), to) { Later(RestartsOf(l), from, to); }
      }
    }

    /** So over every run by such a clock, whatever the checks found and however configurations changed, more
        than maxTries restarts of a logger span at least minUptime. */
    lemma RestartsTakeTime(logger: string, t: real, i: nat, j: nat)
      requires Valid() && ClockAt(t)
      requires i < j < |RestartsOf(logger)| && j - i + 1 > policy.maxTries
      ensures RestartsOf(logger)[j].stamped - RestartsOf(logger)[i].stamped >= policy.minUptime
    {
      assert MadeBy(RestartsOf(logger), t);
      assert RateOk(policy, TallyOf(logger), RestartsOf(logger));
      ManyRestartsTakeTime(policy, TallyOf(logger), RestartsOf(logger), i, j);
    }

    /** The body of _check_loggers' loop. */
    method CheckLogger(logger: string, o: Observation, ghost from: real, ghost to: real)
      requires Valid() && logger in runnerMap
      modifies this`lastStarted, this`restartCounts, this`restarts, this`deaths, runnerMap[logger]
      ensures Valid()
      ensures forall l :: StateOf(l) == if l == logger then AfterCheck(policy, old(StateOf(l)), o)
                                        else old(StateOf(l))
      ensures forall l :: l != logger ==> RestartsOf(l) == old(RestartsOf(l))
      ensures old(MadeBy(RestartsOf(logger), from)) && from <= to && Between(o, from, to) ==>
                MadeBy(RestartsOf(logger), to)
    {
      hide RateOk, Accounts, Deserves, TallyOf, RestartsOf, DeathsOf, MadeBy;
      OwnRunners(logger);
      Later(RestartsOf(logger), from, to);
      RestartInTime(RestartsOf(logger), o, from, to);
      var runner := runnerMap[logger];
      if !runner.IsRunnable() || runner.IsAlive(o.lives) || runner.failed { return; }
      var again := NoteDeath(logger, o);
      if again {
        runner.Start();
      } else {
        runner.failed := true;
      }
    }

    /** A logger is dead: counts how often it has died in quick succession, and decides whether to start
        it again. */
    method NoteDeath(logger: string, o: Observation) returns (again: bool)
      requires RatesOk()
      modifies this`lastStarted, this`restartCounts, this`restarts, this`deaths
      ensures RatesOk()
      ensures var d := Decide(policy, old(TallyOf(logger)), o.checked);
              && again == d.StartAgain?
              && TallyOf(logger) == Tally(if again then o.stamped else old(TallyOf(logger)).lastStarted, d.count)
      ensures RestartsOf(logger) ==
              if again then old(RestartsOf(logger)) + [Restart(o.checked, o.stamped)] else old(RestartsOf(logger))
      ensures DeathsOf(logger) == old(DeathsOf(logger)) + [Death(o.checked, if again then Some(o.stamped) else None)]
      ensures again <==> Deserves(policy, DeathsOf(logger), |old(DeathsOf(logger))|)
      ensures forall l :: l != logger ==>
                TallyOf(l) == old(TallyOf(l)) && RestartsOf(l) == old(RestartsOf(l)) && DeathsOf(l) == old(DeathsOf(l))
    {
      hide RateOk, Accounts, Deserves;
      var tally := TallyOf(logger);
      DeathKeepsAccounts(policy, tally, DeathsOf(logger), o);
      ghost var noted := Noted(Decide(policy, tally, o.checked), o);
      DecideIs(policy, tally, DeathsOf(logger), noted);
      var count := if o.checked - tally.lastStarted < policy.minUptime then tally.count + 1 else 0;
      restartCounts := restartCounts[logger := count];
      again := count < policy.maxTries;
      if again {
        RestartKeepsRate(policy, tally, RestartsOf(logger), o);
        restarts := restarts[logger := RestartsOf(logger) + [Restart(o.checked, o.stamped)]];
        lastStarted := lastStarted[logger := o.stamped];
      } else {
        GiveUpKeepsRate(policy, tally, RestartsOf(logger), o.checked);
      }
      deaths := deaths[logger := DeathsOf(logger) + [noted]];
      forall l ensures RateOk(policy, TallyOf(l), RestartsOf(l)) && Accounts(policy, TallyOf(l), DeathsOf(l)) {
        if l != logger {
          assert RateOk(policy, old(TallyOf(l)), old(RestartsOf(l))) && Accounts(policy, old(TallyOf(l)), old(DeathsOf(l)));
          assert TallyOf(l) == old(TallyOf(l)) && RestartsOf(l) == old(RestartsOf(l)) && DeathsOf(l) == old(DeathsOf(l));
        }
      }
    }

    // -- Reconciling --

    /** update_configs, where no argument and an empty one both mean the supervisor's own configs. */
    method UpdateConfigs(given: map<string, Config>)
      requires Valid()
      modifies this`configMap, this`runnerMap, runnerMap.Values
      ensures Valid()
      ensures old(quitFlag) ==> configMap == old(configMap) && runnerMap == old(runnerMap)
      ensures !old(quitFlag) ==> Reconciled(if given == map[] then configs else given)
      ensures fresh(runnerMap.Values - old(runnerMap.Values))
      ensures old(quitFlag) || (given != map[] && given == old(configMap)) ==>
                unchanged(this) && unchanged(runnerMap.Values)
    {
      if quitFlag { return; }
      hide Reconciled, MapsAgree, RatesOk;
      Reconcile(if given == map[] then configs else given);
      ReconciledFrame(if given == map[] then configs else given);
    }

    twostate lemma ReconciledFrame(wanted: map<string, Config>)
      requires old(MapsAgree()) && Reconciled(wanted)
      ensures forall l :: l in runnerMap.Keys && l !in old(runnerMap) ==> fresh(runnerMap[l])
      ensures fresh(runnerMap.Values - old(runnerMap.Values))
      ensures wanted == old(configMap) ==> runnerMap == old(runnerMap) && unchanged(runnerMap.Values)
    {
    }

    /** The loggers are those wanted, with the configurations wanted; a logger whose configuration did not
        change keeps its runner untouched, and every other runner is new. */
    twostate predicate Reconciled(wanted: map<string, Config>)
      reads this, runnerMap.Values
    {
      && configMap == wanted
      && runnerMap.Keys == wanted.Keys
      && (forall l :: l in runnerMap.Keys ==>
           if l in old(configMap) && old(configMap)[l] == wanted[l]
           then l in old(runnerMap) && runnerMap[l] == old(runnerMap)[l] && unchanged(runnerMap[l])
           else fresh(runnerMap[l]))
    }

    ghost function StaleRunners(wanted: map<string, Config>): set<LoggerRunner>
      reads this`runnerMap
    {
      set l | l in runnerMap.Keys && l !in wanted.Keys :: runnerMap[l]
    }

    ghost function ChangedRunners(wanted: map<string, Config>): set<LoggerRunner>
      reads this`runnerMap
    {
      set l | l in runnerMap.Keys && l in wanted.Keys && runnerMap[l].config != wanted[l] :: runnerMap[l]
    }

    lemma KeptRunners(wanted: map<string, Config>)
      requires MapsAgree()
      ensures StaleRunners(wanted) <= runnerMap.Values && ChangedRunners(wanted) <= runnerMap.Values
      ensures forall l :: l in runnerMap.Keys && l !in wanted.Keys ==> runnerMap[l] in StaleRunners(wanted)
      ensures forall l :: l in runnerMap.Keys && l in wanted.Keys && configMap[l] != wanted[l] ==>
                runnerMap[l] in ChangedRunners(wanted)
      ensures forall l :: l in runnerMap.Keys && l in wanted.Keys ==> runnerMap[l] !in StaleRunners(wanted)
      ensures forall l :: l in runnerMap.Keys && l in wanted.Keys && configMap[l] == wanted[l] ==>
                runnerMap[l] !in ChangedRunners(wanted)
    {
    }

    /** The part of update_configs that shuts down, adds and replaces loggers. */
    method Reconcile(wanted: map<string, Config>)
      requires MapsAgree()
      modifies this`configMap, this`runnerMap, runnerMap.Values
      ensures MapsAgree() && Reconciled(wanted)
    {
      hide MapsAgree, StaleRunners, ChangedRunners;
      SameKeys();
      DropAndAdd(wanted);
      SameKeys();
      ReplaceChanged(wanted);
    }

    method ReplaceChanged(wanted: map<string, Config>)
      requires MapsAgree() && configMap.Keys == wanted.Keys
      modifies this`configMap, this`runnerMap, runnerMap.Values
      ensures MapsAgree() && configMap == wanted && runnerMap.Keys == wanted.Keys
      ensures forall l :: l in wanted.Keys && l in old(runnerMap) ==>
                if old(configMap)[l] == wanted[l] then runnerMap[l] == old(runnerMap)[l] && unchanged(runnerMap[l])
                else fresh(runnerMap[l])
    {
      hide MapsAgree, StaleRunners, ChangedRunners;
      SameKeys();
      KeptRunners(wanted);
      ReplaceAmong(wanted, ChangedRunners(wanted));
    }

    method DropAndAdd(wanted: map<string, Config>)
      requires MapsAgree()
      modifies this`configMap, this`runnerMap, runnerMap.Values
      ensures MapsAgree() && configMap.Keys == wanted.Keys
      ensures forall l :: l in wanted.Keys ==>
                configMap[l] == if l in old(configMap) then old(configMap)[l] else wanted[l]
      ensures forall l :: l in wanted.Keys && l in runnerMap ==>
                if l in old(runnerMap) then runnerMap[l] == old(runnerMap)[l] && unchanged(runnerMap[l])
                else fresh(runnerMap[l])
    {
      hide MapsAgree, StaleRunners, ChangedRunners;
      SameKeys();
      KeptRunners(wanted);
      DropStale(wanted, StaleRunners(wanted));
      AddNew(wanted);
    }

    method DropStale(wanted: map<string, Config>, ghost runners: set<LoggerRunner>)
      requires MapsAgree() && configMap.Keys == runnerMap.Keys
      requires forall l :: l in runnerMap.Keys && l !in wanted.Keys ==> runnerMap[l] in runners
      modifies this`configMap, this`runnerMap, runners
      ensures MapsAgree()
      ensures configMap == old(configMap) - (old(configMap).Keys - wanted.Keys)
      ensures runnerMap == old(runnerMap) - (old(configMap).Keys - wanted.Keys)
    {
      hide MapsAgree;
      ghost var c, r := configMap, runnerMap;
      var stale := configMap.Keys - wanted.Keys;
      var todo := stale;
      while todo != {}
        invariant MapsAgree() && todo <= stale
        invariant configMap == c - (stale - todo) && runnerMap == r - (stale - todo)
      {
        var l :| l in todo;
        todo := todo - {l};
        assert runnerMap[l] == r[l];
        DeleteLogger(l);
      }
    }

    lemma SameKeys()
      requires MapsAgree()
      ensures configMap.Keys == runnerMap.Keys
      ensures forall l :: l in runnerMap.Keys ==> runnerMap[l].config == configMap[l]
    {
    }

    method AddNew(wanted: map<string, Config>)
      requires MapsAgree()
      modifies this`configMap, this`runnerMap
      ensures MapsAgree()
      ensures configMap == wanted + old(configMap)
      ensures runnerMap.Keys == wanted.Keys + old(runnerMap.Keys)
      ensures forall l :: l in runnerMap.Keys ==>
                if l in old(runnerMap) then runnerMap[l] == old(runnerMap[l]) else fresh(runnerMap[l])
    {
      hide MapsAgree;
      SameKeys();
      var added := wanted.Keys - configMap.Keys;
      var todo := added;
      while todo != {}
        invariant MapsAgree() && todo <= added
        invariant configMap.Keys == runnerMap.Keys == old(configMap.Keys) + (added - todo)
        invariant forall l :: l in configMap.Keys ==>
                    configMap[l] == if l in old(configMap) then old(configMap[l]) else wanted[l]
        invariant forall l :: l in runnerMap.Keys ==>
                    if l in old(runnerMap) then runnerMap[l] == old(runnerMap[l]) else fresh(runnerMap[l])
      {
        var l :| l in todo;
        todo := todo - {l};
        StartLogger(l, wanted[l]);
      }
    }

    method ReplaceAmong(wanted: map<string, Config>, ghost runners: set<LoggerRunner>)
      requires MapsAgree() && configMap.Keys == runnerMap.Keys == wanted.Keys
      requires forall l :: l in runnerMap.Keys && configMap[l] != wanted[l] ==> runnerMap[l] in runners
      modifies this`configMap, this`runnerMap, runners
      ensures MapsAgree()
      ensures configMap == wanted && runnerMap.Keys == wanted.Keys
      ensures forall l :: l in runnerMap.Keys ==>
                if old(configMap)[l] == wanted[l] then runnerMap[l] == old(runnerMap)[l] else fresh(runnerMap[l])
    {
      hide MapsAgree;
      ghost var c, r := configMap, runnerMap;
      var todo := wanted.Keys;
      while todo != {}
        invariant MapsAgree() && todo <= wanted.Keys == configMap.Keys == runnerMap.Keys
        invariant forall l :: l in todo ==> configMap[l] == c[l] && runnerMap[l] == r[l]
        invariant forall l :: l in wanted.Keys - todo ==> configMap[l] == wanted[l]
        invariant forall l :: l in wanted.Keys - todo ==>
                    if c[l] == wanted[l] then runnerMap[l] == r[l] else fresh(runnerMap[l])
      {
        var l :| l in todo;
        todo := todo - {l};
        if wanted[l] != configMap[l] {
          Replace(l, wanted[l]);
        }
      }
    }

    /** A logger's old runner is shut down and one with the new configuration takes its place. */
    method Replace(logger: string, config: Config)
      requires MapsAgree() && logger in runnerMap
      modifies this`configMap, this`runnerMap, runnerMap[logger]
      ensures MapsAgree()
      ensures configMap == old(configMap)[logger := config]
      ensures logger in runnerMap && runnerMap == old(runnerMap)[logger := runnerMap[logger]]
      ensures fresh(runnerMap[logger])
      ensures !old(runnerMap[logger]).process && old(runnerMap[logger]).quitFlag
    {
      hide MapsAgree;
      SameKeys();
      DeleteLogger(logger);
      StartLogger(logger, config);
    }

    /** quit */
    method Quit()
      requires Valid()
      modifies this`configMap, this`runnerMap, this`quitFlag, runnerMap.Values
      ensures Valid() && quitFlag && configMap == map[] && runnerMap == map[]
      ensures forall l :: l in old(runnerMap.Keys) ==> !old(runnerMap[l]).process && old(runnerMap[l]).quitFlag
    {
      hide MapsAgree, RatesOk;
      quitFlag := true;
      var loggers := runnerMap.Keys;
      var todo := loggers;
      while todo != {}
        invariant quitFlag && MapsAgree() && RatesOk() && todo <= loggers
        invariant runnerMap == old(runnerMap) - (loggers - todo)
        invariant forall l :: l in loggers - todo ==> !old(runnerMap[l]).process && old(runnerMap[l]).quitFlag
      {
        var l :| l in todo;
        todo := todo - {l};
        OwnRunners(l);
        DeleteLogger(l);
      }
      SameKeys();
      assert runnerMap.Keys == {};
    }

    function StatusOf(runner: LoggerRunner, lives: bool): Status
      reads runner
    {
      if !runner.IsRunnable() then Exited
      else if runner.IsAlive(lives) then Running
      else if runner.failed then Failed
      else Starting
    }

    /** What a logger's configuration, the operating system and the checks so far say of it. */
    ghost predicate StatusIs(logger: string, lives: bool)
      requires MapsAgree() && logger in runnerMap.Keys
      reads this`configMap, this`runnerMap, runnerMap.Values
    {
      StatusOf(runnerMap[logger], lives) ==
      if "readers" !in configMap[logger].entries && "writers" !in configMap[logger].entries then Exited
      else if lives then Running
      else if runnerMap[logger].failed then Failed
      else Starting
    }

    /** get_status */
    method GetStatus(lives: map<string, bool>) returns (status: map<string, (string, Status)>)
      requires Valid() && runnerMap.Keys <= lives.Keys
      ensures status.Keys == configMap.Keys
      ensures forall l :: l in status.Keys ==>
                status[l] == (Name(configMap[l], "no name"), StatusOf(runnerMap[l], lives[l]))
      ensures forall l :: l in status.Keys ==>
                status[l].0 == if "name" in configMap[l].entries then configMap[l].entries["name"] else "no name"
      ensures forall l :: l in status.Keys ==>
                if "readers" !in configMap[l].entries && "writers" !in configMap[l].entries then status[l].1 == Exited
                else if lives[l] then status[l].1 == Running
                else status[l].1 == if runnerMap[l].failed then Failed else Starting
    {
      assert forall l :: l in runnerMap.Keys ==> StatusIs(l, lives[l]);
      hide StatusOf, MapsAgree;
      SameKeys();
      status := map[];
      var todo := runnerMap.Keys;
      while todo != {}
        invariant todo <= runnerMap.Keys && status.Keys == runnerMap.Keys - todo
        invariant forall l :: l in status.Keys ==>
                    status[l] == (Name(configMap[l], "no name"), StatusOf(runnerMap[l], lives[l]))
      {
        var l :| l in todo;
        todo := todo - {l};
        status := status[l := (Name(configMap[l], "no name"), StatusOf(runnerMap[l], lives[l]))];
      }
    }
  }
}
