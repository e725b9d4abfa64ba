/**
 * The configuration dictionary of `ConfluencePage2Dashboard`: built-in defaults
 * set by the constructor, overwritten by the command-line options in
 * `get_arguments`, overwritten in turn by the YAML configuration file in `run`.
 */
module Dashboard {
  import opened Results
  import opened PyText

  /** The values the dictionary holds: booleans, strings, integers and YAML's null. */
  datatype Value = Flag(b: bool) | Text(s: string) | Number(n: int) | Null

  type Conf = map<string, Value>

  /** `base.update(update)`: every key of `update` is set to its value there; the other keys keep theirs. */
  function Override(base: Conf, update: Conf): (r: Conf)
    ensures r.Keys == base.Keys + update.Keys
    ensures forall k :: k in update ==> r[k] == update[k]
    ensures forall k :: k in base && k !in update ==> r[k] == base[k]
  {
    base + update
  }

  /** `$HOME + "/." + os.path.basename(__file__).replace(".py", ".conf")` */
  function DefaultConfigFile(home: string, scriptPath: string): string
  {
    home + "/." + ReplaceAll(Basename(scriptPath), ".py", ".conf")
  }

  /** The dictionary the constructor starts from, given the default configuration file. */
  function Defaults(configFile: string): Conf
  {
    map["verbose" := Flag(false), "configfile" := Text(configFile)]
  }

  /** What `OptionParser` found on the command line: `-c/--configfile PATH` and `-q/--quiet`. */
  datatype CommandLine = CommandLine(configFile: Option<string>, quiet: bool)

  /**
   * `vars(options)`: both destinations are always present, each taken from the
   * command line or else from its default (`-c` defaults to the current
   * `configfile`, `verbose` to True).
   */
  function OptionValues(cl: CommandLine, configFileDefault: Value): Conf
  {
    map[
      "configfile" := (if cl.configFile.Some? then Text(cl.configFile.value) else configFileDefault),
      "verbose" := Flag(!cl.quiet)]
  }

  /** The three sources merged in the order the script applies them. */
  function Effective(defaults: Conf, options: Conf, file: Conf): Conf
  {
    Override(Override(defaults, options), file)
  }

  /** `conf['verbose'] == True`; in Python the integer 1 also compares equal to True. */
  predicate IsVerbose(conf: Conf)
    requires "verbose" in conf
  {
    conf["verbose"] == Flag(true) || conf["verbose"] == Number(1)
  }

  /** The contents of a configuration file, as far as `yaml.load` gets with it. */
  datatype ConfigFile =
    | Unscannable             // yaml.scanner.ScannerError
    | Document(doc: Option<Conf>) // the loaded mapping; None for an empty document

  /** How `run` gets past (or not) the configuration step. */
  datatype RunOutcome =
    | Exited(code: int)        // message on stderr, then exit(1)
    | UpdateRaised             // `self.conf.update(None)` raises TypeError
    | Configured(verbose: bool) // configuration merged; `verbose` decides whether it is printed

  class ConfluencePage2Dashboard {
    var conf: Conf

    /** The keys the script reads back are always there. */
    predicate Valid()
      reads this
    {
      "verbose" in conf && "configfile" in conf
    }

    /** `__init__`: the defaults. `$HOME` and the script's path are parameters. */
    constructor (home: string, scriptPath: string)
      ensures Valid()
      ensures conf == Defaults(DefaultConfigFile(home, scriptPath))
    {
      conf := Defaults(DefaultConfigFile(home, scriptPath));
    }

    /** `get_arguments`: `self.conf.update(vars(options))`. */
    method GetArguments(cl: CommandLine)
      requires Valid()
      modifies this
      ensures Valid()
      ensures conf == Override(old(conf), OptionValues(cl, old(conf)["configfile"]))
    {
      var options := OptionValues(cl, conf["configfile"]);
      conf := Override(conf, options);
    }

    /**
     * `run` up to the merge: load the file named by `configfile` from `files`
     * (a missing key is FileNotFoundError) and merge it over the dictionary.
     */
    method Run(files: map<string, ConfigFile>) returns (outcome: RunOutcome)
      requires Valid() && conf["configfile"].Text?
      modifies this
      ensures Valid()
      ensures var path := old(conf)["configfile"].s;
        && (path !in files || files[path] == Unscannable ==> outcome == Exited(1) && conf == old(conf))
        && (path in files && files[path] == Document(None) ==> outcome == UpdateRaised && conf == old(conf))
        && (path in files && files[path].Document? && files[path].doc.Some? ==>
              conf == Override(old(conf), files[path].doc.value) && outcome == Configured(IsVerbose(conf)))
    {
      var path := conf["configfile"].s;
      if path !in files || files[path] == Unscannable {
        return Exited(1);
      }
      var doc := files[path].doc;
      if doc.None? {
        return UpdateRaised;
      }
      conf := Override(conf, doc.value);
      outcome := Configured(IsVerbose(conf));
    }
  }

  /**
   * The script's entry point up to the configuration step: construct, read the
   * command line, then read and merge the configuration file.
   */
  method Configure(home: string, scriptPath: string, cl: CommandLine, files: map<string, ConfigFile>)
    returns (outcome: RunOutcome, conf: Conf)
    ensures var path := if cl.configFile.Some? then cl.configFile.value else DefaultConfigFile(home, scriptPath);
      && (path !in files || files[path] == Unscannable ==> outcome == Exited(1))
      && (path in files && files[path] == Document(None) ==> outcome == UpdateRaised)
      && (path in files && files[path].Document? && files[path].doc.Some? ==>
            && conf == Effective(Defaults(DefaultConfigFile(home, scriptPath)),
                                 OptionValues(cl, Text(DefaultConfigFile(home, scriptPath))),
                                 files[path].doc.value)
            && "verbose" in conf
            && outcome == Configured(IsVerbose(conf)))
  {
    var app := new ConfluencePage2Dashboard(home, scriptPath);
    ghost var defaultFile := DefaultConfigFile(home, scriptPath);
    app.GetArguments(cl);
    ghost var options := OptionValues(cl, Text(defaultFile));
    assert app.conf == Override(Defaults(defaultFile), options);
    ConfigFileRead(defaultFile, cl);
    outcome := app.Run(files);
    conf := app.conf;
  }

  /**
   * Precedence: a key set in the configuration file wins, then a key set by
   * the command line, then the built-in default.
   */
  lemma Precedence(defaults: Conf, options: Conf, file: Conf, k: string)
    ensures k in Effective(defaults, options, file) <==> k in defaults || k in options || k in file
    ensures k in file ==> Effective(defaults, options, file)[k] == file[k]
    ensures k !in file && k in options ==> Effective(defaults, options, file)[k] == options[k]
    ensures k !in file && k !in options && k in defaults ==> Effective(defaults, options, file)[k] == defaults[k]
  {
  }

  /**
   * The constructor's `verbose=False` never decides anything: the command line
   * always sets `verbose`, so verbosity comes from the file if it sets the key
   * and otherwise from the absence of `-q`.
   */
  lemma VerboseSource(defaultFile: string, cl: CommandLine, file: Conf)
    ensures "verbose" in Effective(Defaults(defaultFile), OptionValues(cl, Text(defaultFile)), file)
    ensures IsVerbose(Effective(Defaults(defaultFile), OptionValues(cl, Text(defaultFile)), file)) ==
      if "verbose" in file then file["verbose"] == Flag(true) || file["verbose"] == Number(1) else !cl.quiet
  {
  }

  /** The file read is the one named by `-c`, or else the default dotfile in the home directory. */
  lemma ConfigFileRead(defaultFile: string, cl: CommandLine)
    ensures Override(Defaults(defaultFile), OptionValues(cl, Text(defaultFile)))["configfile"] ==
      Text(if cl.configFile.Some? then cl.configFile.value else defaultFile)
  {
  }

  /**
   * For a script `DIR/NAME.py` whose NAME does not itself contain `.py`, the
   * default configuration file is `HOME/.NAME.conf`.
   */
  lemma DefaultConfigFileOfScript(home: string, dir: string, name: string)
    requires '/' !in name
    requires forall i :: 0 <= i < |name| ==> !OccursAt(name + ".py", ".py", i)
    ensures DefaultConfigFile(home, dir + "/" + name + ".py") == home + "/." + name + ".conf"
  {
    assert '/' !in name + ".py" by {
      forall i | 0 <= i < |name + ".py"| ensures (name + ".py")[i] != '/' {
        if i < |name| { assert (name + ".py")[i] == name[i]; }
      }
    }
    assert dir + "/" + name + ".py" == dir + "/" + (name + ".py");
    BasenameAfterSlash(dir, name + ".py");
    ReplaceSuffix(name, ".py", ".conf");
  }

  /** A name without a dot has no `.py` in it before the suffix. */
  lemma NoDotNoPy(name: string)
    requires '.' !in name
    ensures forall i :: 0 <= i < |name| ==> !OccursAt(name + ".py", ".py", i)
  {
    forall i | 0 <= i < |name| ensures !OccursAt(name + ".py", ".py", i) {
      assert (name + ".py")[i] == name[i];
    }
  }

  /** The name the script is shipped under, without its `.py` suffix. */
  const ScriptName := "confluence_page2dashboard"

  /** The script as shipped reads `~/.confluence_page2dashboard.conf` unless told otherwise. */
  lemma ShippedScriptConfigFile(home: string, dir: string)
    ensures DefaultConfigFile(home, dir + "/" + ScriptName + ".py") == home + "/." + ScriptName + ".conf"
  {
    assert '.' !in ScriptName && '/' !in ScriptName;
    NoDotNoPy(ScriptName);
    DefaultConfigFileOfScript(home, dir, ScriptName);
  }
}
