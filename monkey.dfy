/**
 * Start-up of the server (src/monkey.c, `main`): the command-line options
 * getopt_long reports are collected into local settings, then each
 * configuration field gets either the option's value or its compiled-in
 * default, and a REUSEPORT server whose listen address is busy aborts
 * unless shared sockets were allowed.
 *
 * getopt_long and atoi are foreign calls: the sequence of options they
 * report and the conversion of an argument to a number are inputs.
 */
module Monkey {
  import opened Common

  /**
   * One option as getopt_long reports it: the option character and optarg
   * (None for NULL). An unrecognised option or a missing argument is '?'.
   * Because the short-option string lists `S` twice, first without `:`,
   * `-S` is reported without an argument and only `--sites-conf-dir=DIR`
   * carries one.
   */
  datatype Opt = Opt(name: char, arg: Option<string>)

  /** The compiled-in defaults (MONKEY_PATH_CONF, MK_DEFAULT_CONFIG_FILE, ...). */
  datatype Defaults = Defaults(pathConf: string, serverConfFile: string, mimesConfFile: string,
                               pluginLoadConfFile: string, sitesConfDir: string,
                               pluginsConfDir: string)

  /** The locals `main` sets while reading the options. */
  datatype CmdLine = CmdLine(
    portOverride: Option<string>,
    workersOverride: int,
    runDaemon: bool,
    balancingMode: bool,
    allowSharedSockets: bool,
    oneShot: Option<string>,
    pidFile: Option<string>,
    transportLayer: Option<string>,
    pathConfig: Option<string>,
    serverConfFile: Option<string>,
    pluginLoadConfFile: Option<string>,
    sitesConfDir: Option<string>,
    pluginsConfDir: Option<string>,
    mimesConfFile: Option<string>)

  /** The locals as declared, before any option is read. */
  const Unset: CmdLine :=
    CmdLine(None, -1, false, false, false, None, None, None, None, None, None, None, None, None)

  /** The result of the option loop: the process ends, or goes on with the settings. */
  datatype Parsed = Terminate(status: int) | Options(cmd: CmdLine)

  /** The fields of the global configuration `main` sets from the command line. */
  datatype Config = Config(
    pathConfig: string,
    serverConfFile: string,
    pidFilePath: Option<string>,
    isDaemon: bool,
    mimesConfFile: string,
    pluginLoadConfFile: string,
    sitesConfDir: string,
    pluginsConfDir: string,
    oneShot: Option<string>,
    portOverride: Option<string>,
    transportLayer: Option<string>,
    workers: int,
    schedulerMode: SchedulerMode)

  /** How start-up ends: the process exits, or the server starts with `config`. */
  datatype Outcome = Exit(status: int) | Serve(config: Config)

  // ---------------------------------------------------------------------
  // Reference definitions over the reported options
  // ---------------------------------------------------------------------

  /** Option `c` was given. */
  predicate Occurs(opts: seq<Opt>, c: char) {
    exists i :: 0 <= i < |opts| && opts[i].name == c
  }

  /** Position `i` holds the last occurrence of option `c`. */
  predicate LastAt(opts: seq<Opt>, c: char, i: int) {
    0 <= i < |opts| && opts[i].name == c && forall j :: i < j < |opts| ==> opts[j].name != c
  }

  /** The argument of the last occurrence of `c`; None if `c` was not given. */
  function LastArg(opts: seq<Opt>, c: char): (r: Option<string>)
    ensures !Occurs(opts, c) ==> r == None
    ensures forall i :: LastAt(opts, c, i) ==> r == opts[i].arg
  {
    if opts == [] then None
    else if opts[|opts| - 1].name == c then opts[|opts| - 1].arg
    else
      var init := opts[..|opts| - 1];
      assert forall i :: LastAt(opts, c, i) ==> LastAt(init, c, i);
      assert Occurs(opts, c) ==> Occurs(init, c);
      LastArg(init, c)
  }

  /** getopt_long reports `-w` with its argument (it is declared required). */
  predicate WorkersArgGiven(opts: seq<Opt>) {
    forall i :: 0 <= i < |opts| && opts[i].name == 'w' ==> opts[i].arg.Some?
  }

  /** The options that end the process at once: build info, version, help, and an unknown one. */
  predicate IsTerminal(c: char) {
    c == 'b' || c == 'v' || c == 'h' || c == '?'
  }

  function TerminalStatus(c: char): int {
    if c == '?' then ExitFailure else ExitSuccess
  }

  /** The exit status of the first terminal option; None if there is none. */
  function Terminal(opts: seq<Opt>): (r: Option<int>)
    ensures r.None? <==> forall i :: 0 <= i < |opts| ==> !IsTerminal(opts[i].name)
    ensures r.Some? ==>
              exists i :: 0 <= i < |opts| && IsTerminal(opts[i].name) &&
                r.value == TerminalStatus(opts[i].name) &&
                forall j :: 0 <= j < i ==> !IsTerminal(opts[j].name)
  {
    if opts == [] then None
    else if IsTerminal(opts[0].name) then Some(TerminalStatus(opts[0].name))
    else
      var r := Terminal(opts[1..]);
      assert r.Some? ==>
               exists i :: 1 <= i < |opts| && IsTerminal(opts[i].name) &&
                 r.value == TerminalStatus(opts[i].name) &&
                 forall j :: 0 <= j < i ==> !IsTerminal(opts[j].name) by {
        if r.Some? {
          var i :| 0 <= i < |opts[1..]| && IsTerminal(opts[1..][i].name) &&
                r.value == TerminalStatus(opts[1..][i].name) &&
                forall j :: 0 <= j < i ==> !IsTerminal(opts[1..][j].name);
          assert forall j :: 1 <= j < i + 1 ==> opts[j] == opts[1..][j - 1];
        }
      }
      r
  }

  /** The settings the option loop arrives at: for each option, its last occurrence. */
  function CmdLineOf(opts: seq<Opt>, atoi: string -> int): CmdLine {
    CmdLine(
      portOverride := LastArg(opts, 'p'),
      workersOverride := (match LastArg(opts, 'w') case Some(a) => atoi(a) case None => -1),
      runDaemon := Occurs(opts, 'D'),
      balancingMode := Occurs(opts, 'B'),
      allowSharedSockets := Occurs(opts, 'T'),
      oneShot := LastArg(opts, 'o'),
      pidFile := LastArg(opts, 'I'),
      transportLayer := LastArg(opts, 't'),
      pathConfig := LastArg(opts, 'c'),
      serverConfFile := LastArg(opts, 's'),
      pluginLoadConfFile := LastArg(opts, 'l'),
      sitesConfDir := LastArg(opts, 'S'),
      pluginsConfDir := LastArg(opts, 'P'),
      mimesConfFile := LastArg(opts, 'm'))
  }

  /** One more option changes only what it names, and wins over earlier ones. */
  lemma {:induction false} LastArgSnoc(opts: seq<Opt>, o: Opt)
    ensures forall c :: LastArg(opts + [o], c) == (if o.name == c then o.arg else LastArg(opts, c))
    ensures forall c :: Occurs(opts + [o], c) <==> o.name == c || Occurs(opts, c)
  {
    var s := opts + [o];
    assert s[..|s| - 1] == opts;
    forall c
      ensures Occurs(s, c) <==> o.name == c || Occurs(opts, c)
    {
      if Occurs(opts, c) {
        var i :| 0 <= i < |opts| && opts[i].name == c;
        assert s[i].name == c;
      }
      if Occurs(s, c) && o.name != c {
        var i :| 0 <= i < |s| && s[i].name == c;
        assert i < |opts| && opts[i].name == c;
      }
      assert o.name == c ==> s[|s| - 1].name == c;
    }
  }

  /** The effect of one non-terminal option on the settings: it overwrites the one it names. */
  function Apply(cmd: CmdLine, o: Opt, atoi: string -> int): CmdLine
    requires o.name == 'w' ==> o.arg.Some?
  {
    CmdLine(
      portOverride := if o.name == 'p' then o.arg else cmd.portOverride,
      workersOverride := if o.name == 'w' then atoi(o.arg.value) else cmd.workersOverride,
      runDaemon := o.name == 'D' || cmd.runDaemon,
      balancingMode := o.name == 'B' || cmd.balancingMode,
      allowSharedSockets := o.name == 'T' || cmd.allowSharedSockets,
      oneShot := if o.name == 'o' then o.arg else cmd.oneShot,
      pidFile := if o.name == 'I' then o.arg else cmd.pidFile,
      transportLayer := if o.name == 't' then o.arg else cmd.transportLayer,
      pathConfig := if o.name == 'c' then o.arg else cmd.pathConfig,
      serverConfFile := if o.name == 's' then o.arg else cmd.serverConfFile,
      pluginLoadConfFile := if o.name == 'l' then o.arg else cmd.pluginLoadConfFile,
      sitesConfDir := if o.name == 'S' then o.arg else cmd.sitesConfDir,
      pluginsConfDir := if o.name == 'P' then o.arg else cmd.pluginsConfDir,
      mimesConfFile := if o.name == 'm' then o.arg else cmd.mimesConfFile)
  }

  /**
   * Overwriting settings option by option from the first to the last ends
   * where taking each option's last occurrence does: the last option
   * applied to what the earlier ones give.
   */
  lemma CmdLineOfSnoc(opts: seq<Opt>, atoi: string -> int)
    requires opts != [] && (opts[|opts| - 1].name == 'w' ==> opts[|opts| - 1].arg.Some?)
    ensures CmdLineOf(opts, atoi) == Apply(CmdLineOf(opts[..|opts| - 1], atoi), opts[|opts| - 1], atoi)
  {
    assert opts == opts[..|opts| - 1] + [opts[|opts| - 1]];
    LastArgSnoc(opts[..|opts| - 1], opts[|opts| - 1]);
  }

  /** The settings after applying `opts` one by one to the unset locals. */
  function Replay(opts: seq<Opt>, atoi: string -> int): CmdLine
    requires WorkersArgGiven(opts)
  {
    if opts == [] then Unset
    else
      assert WorkersArgGiven(opts[..|opts| - 1]) by {
        assert forall i :: 0 <= i < |opts| - 1 ==> opts[..|opts| - 1][i] == opts[i];
      }
      Apply(Replay(opts[..|opts| - 1], atoi), opts[|opts| - 1], atoi)
  }

  /** With no options every setting keeps its declared value. */
  lemma CmdLineOfNone(atoi: string -> int)
    ensures CmdLineOf([], atoi) == Unset
  {
    assert !Occurs([], 'D') && !Occurs([], 'B') && !Occurs([], 'T');
  }

  /** Replaying the options one by one agrees with taking each one's last occurrence. */
  lemma {:induction false} ReplayIsLastOccurrence(opts: seq<Opt>, atoi: string -> int)
    requires WorkersArgGiven(opts)
    ensures Replay(opts, atoi) == CmdLineOf(opts, atoi)
  {
    if opts == [] {
      CmdLineOfNone(atoi);
    }
    if opts != [] {
      var init := opts[..|opts| - 1];
      assert WorkersArgGiven(init) by {
        assert forall i :: 0 <= i < |init| ==> init[i] == opts[i];
      }
      ReplayIsLastOccurrence(init, atoi);
      CmdLineOfSnoc(opts, atoi);
    }
  }

  /** One non-terminal option (one pass of the `switch`): it overwrites the setting it names. */
  method ApplyOption(cmd: CmdLine, o: Opt, atoi: string -> int) returns (next: CmdLine)
    requires !IsTerminal(o.name)
    requires o.name == 'w' ==> o.arg.Some?
    ensures next == Apply(cmd, o, atoi)
  {
    next := cmd;
    match o.name {
      case 'D' => next := cmd.(runDaemon := true);
      case 'I' => next := cmd.(pidFile := o.arg);
      case 'p' => next := cmd.(portOverride := o.arg);
      case 'o' => next := cmd.(oneShot := o.arg);
      case 't' => next := cmd.(transportLayer := o.arg);
      case 'w' => next := cmd.(workersOverride := atoi(o.arg.value));
      case 'c' => next := cmd.(pathConfig := o.arg);
      case 's' => next := cmd.(serverConfFile := o.arg);
      case 'm' => next := cmd.(mimesConfFile := o.arg);
      case 'P' => next := cmd.(pluginsConfDir := o.arg);
      case 'S' => next := cmd.(sitesConfDir := o.arg);
      case 'B' => next := cmd.(balancingMode := true);
      case 'T' => next := cmd.(allowSharedSockets := true);
      case 'l' => next := cmd.(pluginLoadConfFile := o.arg);
      case _ =>
    }
  }

  /**
   * The option loop (`while getopt_long ...`): `-b`, `-v`, `-h` end the
   * process with success and an unknown option with failure; every other
   * option overwrites its setting.
   */
  method ParseOptions(opts: seq<Opt>, atoi: string -> int) returns (r: Parsed)
    requires WorkersArgGiven(opts)
    ensures r.Terminate? <==> Terminal(opts).Some?
    ensures r.Terminate? ==> r.status == Terminal(opts).value
    ensures r.Options? ==> r.cmd == CmdLineOf(opts, atoi)
  {
    var cmd := Unset;
    var i := 0;
    while i < |opts|
      invariant 0 <= i <= |opts|
      invariant forall j :: 0 <= j < i ==> !IsTerminal(opts[j].name)
      invariant WorkersArgGiven(opts[..i]) && cmd == Replay(opts[..i], atoi)
    {
      var o := opts[i];
      if o.name == 'b' || o.name == 'v' || o.name == 'h' {
        return Terminate(ExitSuccess);
      } else if o.name == '?' {
        return Terminate(ExitFailure);
      }
      cmd := ApplyOption(cmd, o, atoi);
      assert opts[..i + 1][..i] == opts[..i];
      i := i + 1;
    }
    assert opts[..i] == opts;
    ReplayIsLastOccurrence(opts, atoi);
    return Options(cmd);
  }

  /** The scheduler mode in force: `-B` forces fair balancing over the configured mode. */
  function EffectiveMode(opts: seq<Opt>, configuredMode: SchedulerMode): SchedulerMode {
    if Occurs(opts, 'B') then FairBalancing else configuredMode
  }

  /** A REUSEPORT server with a busy listen address and no `-T` aborts. */
  predicate Aborts(opts: seq<Opt>, configuredMode: SchedulerMode, listenBusy: bool) {
    EffectiveMode(opts, configuredMode) == ReusePort && listenBusy && !Occurs(opts, 'T')
  }

  /**
   * `main` from the option loop up to the busy-listener check.
   * `configuredMode` is the scheduler mode the configuration files set
   * (mk_config_start_configure) and `listenBusy` what
   * mk_config_listen_check_busy reports.
   */
  method Launch(opts: seq<Opt>, atoi: string -> int, defaults: Defaults,
                configuredMode: SchedulerMode, listenBusy: bool) returns (outcome: Outcome)
    requires WorkersArgGiven(opts)
    // -b, -v, -h and an unknown option end the process before any configuration
    ensures Terminal(opts).Some? ==> outcome == Exit(Terminal(opts).value)
    // otherwise the only exit is the busy-listener abort, with failure
    ensures Terminal(opts).None? ==> (outcome.Exit? <==> Aborts(opts, configuredMode, listenBusy))
    ensures Terminal(opts).None? && outcome.Exit? ==> outcome.status == ExitFailure
    // paths: the last value given, else the compiled-in default
    ensures outcome.Serve? ==> outcome.config.pathConfig == LastArg(opts, 'c').GetOr(defaults.pathConf)
    ensures outcome.Serve? ==> outcome.config.serverConfFile == LastArg(opts, 's').GetOr(defaults.serverConfFile)
    ensures outcome.Serve? ==> outcome.config.mimesConfFile == LastArg(opts, 'm').GetOr(defaults.mimesConfFile)
    ensures outcome.Serve? ==>
              outcome.config.pluginLoadConfFile == LastArg(opts, 'l').GetOr(defaults.pluginLoadConfFile)
    ensures outcome.Serve? ==> outcome.config.sitesConfDir == LastArg(opts, 'S').GetOr(defaults.sitesConfDir)
    ensures outcome.Serve? ==> outcome.config.pluginsConfDir == LastArg(opts, 'P').GetOr(defaults.pluginsConfDir)
    // overrides: NULL unless given
    ensures outcome.Serve? ==> outcome.config.pidFilePath == LastArg(opts, 'I')
    ensures outcome.Serve? ==> outcome.config.oneShot == LastArg(opts, 'o')
    ensures outcome.Serve? ==> outcome.config.portOverride == LastArg(opts, 'p')
    ensures outcome.Serve? ==> outcome.config.transportLayer == LastArg(opts, 't')
    ensures outcome.Serve? ==> (outcome.config.isDaemon <==> Occurs(opts, 'D'))
    // workers: the last -w value if it is not negative, -1 otherwise
    ensures outcome.Serve? ==>
              outcome.config.workers ==
              (match LastArg(opts, 'w') case Some(a) => (if atoi(a) >= 0 then atoi(a) else -1) case None => -1)
    ensures outcome.Serve? ==> outcome.config.schedulerMode == EffectiveMode(opts, configuredMode)
  {
    var parsed := ParseOptions(opts, atoi);
    if parsed.Terminate? {
      return Exit(parsed.status);
    }
    var cmd := parsed.cmd;

    var pathConfig := if cmd.pathConfig.None? then defaults.pathConf else cmd.pathConfig.value;
    var serverConfFile := if cmd.serverConfFile.None? then defaults.serverConfFile else cmd.serverConfFile.value;
    var pidFilePath := if cmd.pidFile.None? then None else cmd.pidFile;
    var isDaemon := if cmd.runDaemon then true else false;
    var mimesConfFile := if cmd.mimesConfFile.None? then defaults.mimesConfFile else cmd.mimesConfFile.value;
    var pluginLoadConfFile :=
      if cmd.pluginLoadConfFile.None? then defaults.pluginLoadConfFile else cmd.pluginLoadConfFile.value;
    var sitesConfDir := if cmd.sitesConfDir.None? then defaults.sitesConfDir else cmd.sitesConfDir.value;
    var pluginsConfDir := if cmd.pluginsConfDir.None? then defaults.pluginsConfDir else cmd.pluginsConfDir.value;

    var workers := if cmd.workersOverride >= 0 then cmd.workersOverride else -1;

    var schedulerMode := configuredMode;
    if cmd.balancingMode {
      schedulerMode := FairBalancing;
    }

    if schedulerMode == ReusePort && listenBusy && !cmd.allowSharedSockets {
      return Exit(ExitFailure);
    }
    return Serve(Config(pathConfig, serverConfFile, pidFilePath, isDaemon, mimesConfFile,
                        pluginLoadConfFile, sitesConfDir, pluginsConfDir, cmd.oneShot,
                        cmd.portOverride, cmd.transportLayer, workers, schedulerMode));
  }

  /** With `-B` the busy-listener abort cannot happen. */
  lemma BalancingNeverAborts(opts: seq<Opt>, configuredMode: SchedulerMode, listenBusy: bool)
    requires Occurs(opts, 'B')
    ensures !Aborts(opts, configuredMode, listenBusy)
  {
  }

  /**
   * A trailing short `-S` (reported without an argument) resets the sites
   * directory to its default, whatever `--sites-conf-dir` said before.
   */
  lemma ShortSitesOptionResets(opts: seq<Opt>, default: string)
    ensures LastArg(opts + [Opt('S', None)], 'S').GetOr(default) == default
  {
    LastArgSnoc(opts, Opt('S', None));
  }
}
