/**
 InMemoryServerAPI and LoggerManager: the store of the cruise definition and of the configuration each
 logger should be in, and the callback that hands changes on to the supervisor. The supervisor is a
 global of the manager's program; here it is a parameter.
 */
module ServerApi {
  import opened Common
  import opened LoggerSupervisors

  datatype LoggerSpec = LoggerSpec(configs: seq<string>, active: Option<string>)

  /** A cruise definition; a section that may be missing from the file is an option, and so is a
      configuration, which the file may name and leave empty. */
  datatype Cruise = Cruise(
    modes: Option<map<string, map<string, string>>>,
    loggers: Option<map<string, LoggerSpec>>,
    configs: Option<map<string, Option<Config>>>,
    activeMode: Option<string>,
    defaultMode: Option<string>)

  // ---- What the store says ----

  /** get_logger_config_name */
  function ConfigName(cruise: Option<Cruise>, current: map<string, string>, logger: string, mode: Option<string>)
    : Result<string>
  {
    if cruise.None? then Raised(ValueError)
    else if mode.None? then
      if logger in current then Ok(current[logger]) else Raised(ValueError)
    else if cruise.value.modes.None? then Raised(AttributeError)
    else if mode.value !in cruise.value.modes.value then Raised(ValueError)
    else
      var names := cruise.value.modes.value[mode.value];
      if logger in names then Ok(names[logger]) else Raised(ValueError)
  }

  /** get_logger_config */
  function ConfigNamed(cruise: Option<Cruise>, name: string): Result<Config> {
    if cruise.None? then Ok(Config(map[]))
    else if cruise.value.configs.None? then Raised(ValueError)
    else if name in cruise.value.configs.value && cruise.value.configs.value[name].Some? then
      Ok(cruise.value.configs.value[name].value)
    else Raised(ValueError)
  }

  /** The configuration of one logger, found by name. */
  function ConfigOf(cruise: Option<Cruise>, current: map<string, string>, logger: string, mode: Option<string>)
    : Result<Config>
  {
    var name := ConfigName(cruise, current, logger, mode);
    if name.Raised? then Raised(name.error) else ConfigNamed(cruise, name.value)
  }

  function LoggerNames(cruise: Cruise): set<string> {
    if cruise.loggers.Some? then cruise.loggers.value.Keys else {}
  }

  /** Can every logger be looked up? */
  predicate AllFound(cruise: Cruise, current: map<string, string>, mode: Option<string>) {
    && LoggerNames(cruise) != {}
    && (forall l :: l in LoggerNames(cruise) ==> ConfigName(Some(cruise), current, l, None).Ok?)
    && (forall l :: l in LoggerNames(cruise) ==> ConfigOf(Some(cruise), current, l, mode).Ok?)
  }

  function ConfigsFor(cruise: Cruise, current: map<string, string>, mode: Option<string>): map<string, Config>
    requires AllFound(cruise, current, mode)
  {
    map l | l in LoggerNames(cruise) :: ConfigOf(Some(cruise), current, l, mode).value
  }

  /** A mode that names, for every logger there is, a configuration that exists. */
  predicate ModeComplete(cruise: Cruise, mode: string) {
    && cruise.modes.Some? && mode in cruise.modes.value && cruise.configs.Some?
    && LoggerNames(cruise) != {}
    && forall l :: l in LoggerNames(cruise) ==>
         var names := cruise.modes.value[mode];
         l in names && names[l] in cruise.configs.value && cruise.configs.value[names[l]].Some?
  }

  /** All loggers are found if and only if there are any and each has a current name, of a configuration that
      exists; and each is found in that. So a new name for one logger changes what is found for it alone. */
  lemma CurrentIsFound(cruise: Cruise, current: map<string, string>)
    ensures AllFound(cruise, current, None) <==>
            LoggerNames(cruise) != {} && cruise.configs.Some? &&
            forall l :: l in LoggerNames(cruise) ==>
              l in current && current[l] in cruise.configs.value && cruise.configs.value[current[l]].Some?
    ensures AllFound(cruise, current, None) ==>
              && ConfigsFor(cruise, current, None).Keys == LoggerNames(cruise)
              && forall l :: l in LoggerNames(cruise) ==>
                   cruise.configs.value[current[l]] == Some(ConfigsFor(cruise, current, None)[l])
  {
    forall l
      ensures ConfigOf(Some(cruise), current, l, None).Ok? <==>
              l in current && cruise.configs.Some? && current[l] in cruise.configs.value &&
              cruise.configs.value[current[l]].Some?
    {
    }
    if LoggerNames(cruise) != {} && AllFound(cruise, current, None) {
      var l :| l in LoggerNames(cruise);
      assert ConfigOf(Some(cruise), current, l, None).Ok?;
    }
  }

  /** Once a mode is active, all loggers are found if and only if the mode is complete, and each is
      found in the configuration that the mode names for it. */
  lemma ActiveModeIsFound(cruise: Cruise, mode: string)
    requires cruise.modes.Some? && mode in cruise.modes.value
    ensures var current := cruise.modes.value[mode];
            && (AllFound(cruise, current, None) <==> ModeComplete(cruise, mode))
            && (ModeComplete(cruise, mode) ==>
                 forall l :: l in LoggerNames(cruise) ==>
                   Some(ConfigsFor(cruise, current, None)[l]) == cruise.configs.value[current[l]])
  {
    CurrentIsFound(cruise, cruise.modes.value[mode]);
    hide AllFound, ConfigsFor;
  }

  /** A mode's configuration for each logger. */
  function ModeConfigs(cruise: Cruise, mode: string): map<string, Config>
    requires ModeComplete(cruise, mode)
  {
    map l | l in LoggerNames(cruise) :: cruise.configs.value[cruise.modes.value[mode][l]].value
  }

  lemma ModeConfigsAreFound(cruise: Cruise, mode: string)
    requires cruise.modes.Some? && mode in cruise.modes.value
    ensures var now := cruise.(activeMode := Some(mode));
            && (ModeComplete(cruise, mode) <==> AllFound(now, cruise.modes.value[mode], None))
            && (ModeComplete(cruise, mode) ==>
                 ConfigsFor(now, cruise.modes.value[mode], None) == ModeConfigs(cruise, mode))
  {
    var now := cruise.(activeMode := Some(mode));
    ActiveModeIsFound(now, mode);
    if ModeComplete(cruise, mode) {
      var found := ConfigsFor(now, cruise.modes.value[mode], None);
      forall l | l in LoggerNames(cruise) ensures found[l] == ModeConfigs(cruise, mode)[l] {
        assert Some(found[l]) == cruise.configs.value[cruise.modes.value[mode][l]];
      }
    }
  }

  function WithName(config: Config, name: string): Config {
    if "name" in config.entries then config else Config(config.entries["name" := name])
  }

  predicate NoneEmpty(configs: map<string, Option<Config>>) {
    forall n :: n in configs.Keys ==> configs[n].Some?
  }

  /** The configurations once each has a name: the one it goes by, unless it has its own. */
  function Named(configs: map<string, Option<Config>>): map<string, Option<Config>>
    requires NoneEmpty(configs)
  {
    map n | n in configs.Keys :: Some(WithName(configs[n].value, n))
  }

  /** A configuration keeps its own name if it has one, and all its other entries in any case. */
  lemma NamedIs(configs: map<string, Option<Config>>, n: string)
    requires NoneEmpty(configs) && n in configs
    ensures n in Named(configs) && Named(configs)[n].Some?
    ensures var (was, now) := (configs[n].value.entries, Named(configs)[n].value.entries);
            && "name" in now && now["name"] == (if "name" in was then was["name"] else n)
            && now - {"name"} == was - {"name"}
  {
  }

  /** Asking for the active mode by name and asking for what is current is the same. */
  lemma ByNameOrCurrent(cruise: Cruise, mode: string)
    requires cruise.modes.Some? && mode in cruise.modes.value
    ensures var current := cruise.modes.value[mode];
            && (AllFound(cruise, current, Some(mode)) <==> AllFound(cruise, current, None))
            && (AllFound(cruise, current, None) ==>
                 ConfigsFor(cruise, current, Some(mode)) == ConfigsFor(cruise, current, None))
  {
    var current := cruise.modes.value[mode];
    forall l ensures ConfigOf(Some(cruise), current, l, Some(mode)) == ConfigOf(Some(cruise), current, l, None) {
    }
  }

  /** Two definitions that differ at most in which configurations are noted as active. */
  predicate SameButActive(a: Option<Cruise>, b: Option<Cruise>) {
    && (a.None? <==> b.None?)
    && (a.Some? ==>
         && b.value == a.value.(loggers := b.value.loggers)
         && (a.value.loggers.Some? <==> b.value.loggers.Some?)
         && LoggerNames(a.value) == LoggerNames(b.value)
         && forall l :: l in LoggerNames(a.value) ==>
              a.value.loggers.value[l].configs == b.value.loggers.value[l].configs)
  }

  lemma SameButActiveIsTransitive(a: Option<Cruise>, b: Option<Cruise>, c: Option<Cruise>)
    ensures SameButActive(a, a)
    ensures SameButActive(a, b) && SameButActive(b, c) ==> SameButActive(a, c)
  {
  }

  /** What is noted as active does not matter for what the loggers should run. */
  lemma ActiveDoesNotMatter(a: Cruise, b: Cruise, current: map<string, string>, mode: Option<string>)
    requires SameButActive(Some(a), Some(b))
    ensures AllFound(a, current, mode) <==> AllFound(b, current, mode)
    ensures AllFound(a, current, mode) ==> ConfigsFor(a, current, mode) == ConfigsFor(b, current, mode)
  {
    forall l
      ensures ConfigOf(Some(a), current, l, mode) == ConfigOf(Some(b), current, l, mode)
      ensures ConfigName(Some(a), current, l, None) == ConfigName(Some(b), current, l, None)
    {
    }
  }

  lemma ActiveDoesNotMatterAtAll(a: Option<Cruise>, b: Option<Cruise>, current: map<string, string>)
    requires SameButActive(a, b)
    ensures a.None? <==> b.None?
    ensures a.Some? ==>
              && (AllFound(a.value, current, None) <==> AllFound(b.value, current, None))
              && (AllFound(a.value, current, None) ==>
                   ConfigsFor(a.value, current, None) == ConfigsFor(b.value, current, None))
  {
    if a.Some? { ActiveDoesNotMatter(a.value, b.value, current, None); }
  }

  // ---- The store ----

  class InMemoryServerAPI {
    var cruise: Option<Cruise>
    var loggerConfig: map<string, string>
    var updateCallbacks: seq<LoggerManager>

    constructor ()
      ensures cruise == None && loggerConfig == map[] && updateCallbacks == []
    {
      cruise, loggerConfig, updateCallbacks := None, map[], [];
    }

    /** get_loggers, which notes in the definition what is active. */
    method GetLoggers() returns (r: Result<map<string, LoggerSpec>>)
      modifies this`cruise
      ensures SameButActive(old(cruise), cruise)
      ensures r.Ok? <==> cruise.None? || (LoggerNames(cruise.value) != {} && LoggerNames(cruise.value) <= loggerConfig.Keys)
      ensures r.Raised? ==> r.error == ValueError
      ensures r.Ok? ==> r.value.Keys == if cruise.None? then {} else LoggerNames(cruise.value)
      ensures r.Ok? && cruise.Some? ==> r.value == cruise.value.loggers.value
      ensures r.Ok? ==> forall l :: l in r.value.Keys ==> r.value[l].active == Some(loggerConfig[l])
    {
      if cruise.None? { return Ok(map[]); }
      if cruise.value.loggers.None? || cruise.value.loggers.value == map[] { return Raised(ValueError); }
      var todo := LoggerNames(cruise.value);
      while todo != {}
        invariant SameButActive(old(cruise), cruise)
        invariant cruise.Some? && cruise.value.loggers.Some? && todo <= LoggerNames(cruise.value)
        invariant LoggerNames(cruise.value) - todo <= loggerConfig.Keys
        invariant forall l :: l in LoggerNames(cruise.value) - todo ==>
                    cruise.value.loggers.value[l].active == Some(loggerConfig[l])
      {
        var l :| l in todo;
        todo := todo - {l};
        var name := ConfigName(cruise, loggerConfig, l, None);
        if name.Raised? { return Raised(name.error); }
        var specs := cruise.value.loggers.value;
        cruise := Some(cruise.value.(loggers := Some(specs[l := specs[l].(active := Some(name.value))])));
      }
      return Ok(cruise.value.loggers.value);
    }

    /** get_logger_configs: every logger's configuration in a mode, or the one it should be in now. */
    method GetLoggerConfigs(mode: Option<string>) returns (r: Result<Option<map<string, Config>>>)
      modifies this`cruise
      ensures SameButActive(old(cruise), cruise)
      ensures cruise.None? ==> r == Ok(None)
      ensures cruise.Some? ==> (r.Ok? <==> AllFound(cruise.value, loggerConfig, mode))
      ensures cruise.Some? && r.Ok? ==> r.value == Some(ConfigsFor(cruise.value, loggerConfig, mode))
      ensures r.Ok? && cruise.Some? ==> r.value.value != map[]
      ensures r.Raised? && mode.None? ==> r.error == ValueError
    {
      var loggers := GetLoggers();
      if loggers.Raised? { return Raised(loggers.error); }
      if loggers.value == map[] { return Ok(None); }
      var output := map[];
      var todo := loggers.value.Keys;
      while todo != {}
        invariant todo <= loggers.value.Keys && output.Keys == loggers.value.Keys - todo
        invariant forall l :: l in output.Keys ==> ConfigOf(cruise, loggerConfig, l, mode) == Ok(output[l])
      {
        var l :| l in todo;
        todo := todo - {l};
        var name := ConfigName(cruise, loggerConfig, l, mode);
        if name.Raised? { return Raised(name.error); }
        var config := ConfigNamed(cruise, name.value);
        if config.Raised? { return Raised(config.error); }
        output := output[l := config.value];
      }
      assert output == ConfigsFor(cruise.value, loggerConfig, mode);
      return Ok(Some(output));
    }

    // -- Callbacks --

    /** Every registered callback is the update method of a manager of this store. */
    ghost predicate Wired()
      reads this`updateCallbacks
    {
      forall k :: 0 <= k < |updateCallbacks| ==> updateCallbacks[k].api == this
    }

    /** on_update */
    method OnUpdate(manager: LoggerManager)
      requires Wired() && manager.api == this
      modifies this`updateCallbacks
      ensures Wired() && updateCallbacks == old(updateCallbacks) + [manager]
    {
      updateCallbacks := updateCallbacks + [manager];
    }

    // -- Changing what should run --

    /** set_active_mode: the store switches to the mode, and so does the supervisor. */
    method SetActiveMode(mode: string, supervisor: LoggerSupervisor) returns (r: Result<()>)
      requires Wired() && supervisor.Valid()
      modifies this`cruise, this`loggerConfig, (set m | m in updateCallbacks)`activeConfigs
      modifies supervisor`configMap, supervisor`runnerMap, supervisor.runnerMap.Values
      ensures supervisor.Valid()
      ensures ModeSet(old(cruise), mode, supervisor, r)
      ensures old(cruise).Some? ==> cruise.Some?
    {
      hide AllFound, ConfigsFor, ModeComplete, LoggerSupervisor.Valid;
      if cruise.None? || cruise.value.modes.None? || mode !in cruise.value.modes.value { return Raised(ValueError); }
      ghost var before := cruise.value;
      cruise := Some(cruise.value.(activeMode := Some(mode)));
      loggerConfig := cruise.value.modes.value[mode];
      ghost var switched := cruise;
      r := SignalUpdate(supervisor);
      ActiveDoesNotMatterAtAll(switched, cruise, loggerConfig);
      ModeConfigsAreFound(before, mode);
    }

    /** What switching a definition's mode comes to: an unknown mode raises and changes nothing; a known one
        is noted, and if there is anyone to tell, either it is complete and the supervisor runs exactly its
        configurations, or an error is raised and the supervisor goes on as before. */
    twostate predicate ModeSet(new was: Option<Cruise>, mode: string, supervisor: LoggerSupervisor, new r: Result<()>)
      reads this, supervisor, supervisor.runnerMap.Values
    {
      if was.None? || was.value.modes.None? || mode !in was.value.modes.value then
        r == Raised(ValueError) && cruise == was && loggerConfig == old(loggerConfig) && StoodStill(supervisor)
      else
        && SameButActive(Some(was.value.(activeMode := Some(mode))), cruise)
        && loggerConfig == was.value.modes.value[mode]
        && (r.Ok? <==> updateCallbacks == [] || ModeComplete(was.value, mode))
        && (r.Raised? ==> r.error == ValueError)
        && if updateCallbacks != [] && r.Ok? && !old(supervisor.quitFlag)
           then supervisor.Reconciled(ModeConfigs(was.value, mode))
           else StoodStill(supervisor)
    }

    /** set_active_logger_config, which trusts its caller that the logger and the name go together. */
    method SetActiveLoggerConfig(logger: string, name: string, supervisor: LoggerSupervisor) returns (r: Result<()>)
      requires Wired() && supervisor.Valid()
      modifies this`cruise, this`loggerConfig, (set m | m in updateCallbacks)`activeConfigs
      modifies supervisor`configMap, supervisor`runnerMap, supervisor.runnerMap.Values
      ensures supervisor.Valid() && SameButActive(old(cruise), cruise)
      ensures loggerConfig == old(loggerConfig)[logger := name]
      ensures updateCallbacks == [] ==> r.Ok? && StoodStill(supervisor)
      ensures updateCallbacks != [] ==> Followed(supervisor, r)
    {
      hide AllFound, ConfigsFor, SameButActive, LoggerSupervisor.Valid;
      loggerConfig := loggerConfig[logger := name];
      r := SignalUpdate(supervisor);
    }

    /** load_configuration: names the configurations that have no name, and switches to the default mode. */
    method LoadConfiguration(definition: Cruise, supervisor: LoggerSupervisor) returns (r: Result<()>)
      requires Wired() && supervisor.Valid()
      modifies this`cruise, this`loggerConfig, (set m | m in updateCallbacks)`activeConfigs
      modifies supervisor`configMap, supervisor`runnerMap, supervisor.runnerMap.Values
      ensures supervisor.Valid() && cruise.Some?
      ensures definition.configs.None? ==> r == Raised(AttributeError)
      ensures definition.configs.Some? && !NoneEmpty(definition.configs.value) ==> r == Raised(ValueError)
      ensures definition.configs.None? || !NoneEmpty(definition.configs.value) ==>
                loggerConfig == old(loggerConfig) && StoodStill(supervisor)
      ensures definition.configs.Some? && NoneEmpty(definition.configs.value) ==>
                var named := Some(definition.(configs := Some(Named(definition.configs.value))));
                if definition.defaultMode.Some? then ModeSet(named, definition.defaultMode.value, supervisor, r)
                else r.Ok? && cruise == named && loggerConfig == old(loggerConfig) && StoodStill(supervisor)
    {
      cruise := Some(definition);
      if definition.configs.None? { return Raised(AttributeError); }
      r := NameConfigs();
      if r.Raised? { return; }
      if definition.defaultMode.Some? {
        r := SetActiveMode(definition.defaultMode.value, supervisor);
      }
    }

    /** The loop of load_configuration. */
    method NameConfigs() returns (r: Result<()>)
      requires cruise.Some? && cruise.value.configs.Some?
      modifies this`cruise
      ensures cruise.Some?
      ensures r == if NoneEmpty(old(cruise).value.configs.value) then Ok(()) else Raised(ValueError)
      ensures r.Ok? ==> cruise == Some(old(cruise).value.(configs := Some(Named(old(cruise).value.configs.value))))
    {
      var configs := cruise.value.configs.value;
      var named := configs;
      var todo := configs.Keys;
      while todo != {}
        invariant todo <= configs.Keys == named.Keys
        invariant forall n :: n in configs.Keys - todo ==> configs[n].Some? && named[n] == Some(WithName(configs[n].value, n))
        invariant forall n :: n in todo ==> named[n] == configs[n]
      {
        var n :| n in todo;
        todo := todo - {n};
        if configs[n].None? {
          cruise := Some(cruise.value.(configs := Some(named)));
          return Raised(ValueError);
        }
        named := named[n := Some(WithName(configs[n].value, n))];
      }
      assert named == Named(configs);
      cruise := Some(cruise.value.(configs := Some(named)));
      r := Ok(());
    }

    /** delete_configuration */
    method DeleteConfiguration()
      modifies this`cruise, this`loggerConfig
      ensures cruise == None && loggerConfig == map[]
    {
      cruise, loggerConfig := None, map[];
    }

    /** signal_update: a callback that raises keeps the later ones from being called. */
    method SignalUpdate(supervisor: LoggerSupervisor) returns (r: Result<()>)
      requires Wired() && supervisor.Valid()
      modifies this`cruise, (set m | m in updateCallbacks)`activeConfigs
      modifies supervisor`configMap, supervisor`runnerMap, supervisor.runnerMap.Values
      ensures supervisor.Valid() && SameButActive(old(cruise), cruise)
      ensures updateCallbacks == [] ==> r.Ok? && StoodStill(supervisor)
      ensures updateCallbacks != [] ==> Followed(supervisor, r)
    {
      hide SameButActive, AllFound, ConfigsFor, LoggerSupervisor.Valid;
      r := Ok(());
      SameButActiveIsTransitive(cruise, cruise, cruise);
      var i := 0;
      while i < |updateCallbacks| && r.Ok?
        invariant 0 <= i <= |updateCallbacks|
        invariant supervisor.Valid() && SameButActive(old(cruise), cruise)
        invariant i == 0 ==> r.Ok? && unchanged(this) && unchanged(supervisor) && unchanged(supervisor.runnerMap.Values)
        invariant i > 0 ==> Followed(supervisor, r)
        invariant fresh(supervisor.runnerMap.Values - old(supervisor.runnerMap.Values))
      {
        ghost var before := cruise;
        r := updateCallbacks[i].UpdateConfigs(supervisor);
        SameButActiveIsTransitive(old(cruise), before, cruise);
        assert SameButActive(before, cruise);
        ActiveDoesNotMatterAtAll(before, cruise, loggerConfig);
        i := i + 1;
      }
    }

    /** The supervisor runs exactly what the store says, each logger in its current configuration, unless
        it is quitting or nothing is loaded, and then it is as before; when some logger cannot be looked up
        it is as before too, and an error is raised. */
    twostate predicate Followed(supervisor: LoggerSupervisor, new r: Result<()>)
      reads this, supervisor, supervisor.runnerMap.Values
    {
      && (r.Ok? <==> cruise.None? || AllFound(cruise.value, loggerConfig, None))
      && (r.Raised? ==> r.error == ValueError)
      && if r.Ok? && cruise.Some? && !old(supervisor.quitFlag)
         then supervisor.Reconciled(ConfigsFor(cruise.value, loggerConfig, None))
         else StoodStill(supervisor)
    }

    ghost predicate UpToDate(supervisor: LoggerSupervisor)
      reads this, supervisor
    {
      || cruise.None?
      || (AllFound(cruise.value, loggerConfig, None) &&
          supervisor.configMap == ConfigsFor(cruise.value, loggerConfig, None))
    }

    twostate predicate StoodStill(supervisor: LoggerSupervisor)
      reads supervisor
    {
      supervisor.configMap == old(supervisor.configMap) && supervisor.runnerMap == old(supervisor.runnerMap)
    }
  }

  class LoggerManager {
    const api: InMemoryServerAPI
    var activeConfigs: map<string, Config>

    constructor (api: InMemoryServerAPI)
      ensures this.api == api && activeConfigs == map[]
    {
      this.api := api;
      activeConfigs := map[];
    }

    /** _update_configs */
    method UpdateConfigs(supervisor: LoggerSupervisor) returns (r: Result<()>)
      requires supervisor.Valid()
      modifies this`activeConfigs, api`cruise
      modifies supervisor`configMap, supervisor`runnerMap, supervisor.runnerMap.Values
      ensures supervisor.Valid() && SameButActive(old(api.cruise), api.cruise)
      ensures api.Followed(supervisor, r)
      ensures r.Raised? || api.cruise.None? ==> activeConfigs == old(activeConfigs)
      ensures r.Ok? && api.cruise.Some? ==> activeConfigs == ConfigsFor(api.cruise.value, api.loggerConfig, None)
      ensures old(supervisor.quitFlag || api.UpToDate(supervisor)) ==> unchanged(supervisor) && unchanged(supervisor.runnerMap.Values)
      ensures fresh(supervisor.runnerMap.Values - old(supervisor.runnerMap.Values))
    {
      hide AllFound, ConfigsFor, LoggerSupervisor.Valid;
      ghost var before := api.cruise;
      var configs := api.GetLoggerConfigs(None);
      ActiveDoesNotMatterAtAll(before, api.cruise, api.loggerConfig);
      if configs.Raised? { return Raised(configs.error); }
      if configs.value.Some? && configs.value.value != map[] {
        supervisor.UpdateConfigs(configs.value.value);
        activeConfigs := configs.value.value;
      }
      r := Ok(());
    }
  }
}
