/**
 * set_debug_mode.py: the three setters, each a load-modify-save of `runtime_config.env`, and the
 * mapping from command-line words to what is set.
 */
module RuntimeSettings {
  import opened Common
  import PyDict
  import opened PyText
  import opened ConfigFormat
  import opened ConfigSave
  import opened ConfigFile

  const Environments: seq<string> := ["DEV", "PROD"]
  const LogLevels: seq<string> := ["DEBUG", "INFO", "WARNING", "ERROR"]
  const EnableWords: seq<string> := ["on", "true", "1", "enable"]
  const DisableWords: seq<string> := ["off", "false", "0", "disable"]

  /** The value `set_debug_mode(enabled)` stores. */
  function DebugValue(enabled: bool): string
  {
    if enabled then "true" else "false"
  }

  /** The keys written by the setters are clean keys. */
  lemma KeysClean()
    ensures CleanKey("DEBUG_MODE") && CleanKey("ENVIRONMENT") && CleanKey("LOG_LEVEL")
  {
    WordClean("DEBUG_MODE");
    WordClean("ENVIRONMENT");
    WordClean("LOG_LEVEL");
  }

  /** Every value a setter can store is a clean value. */
  lemma ValuesClean(v: string)
    requires v in [DebugValue(true), DebugValue(false)] + Environments + LogLevels
    ensures CleanValue(v)
  {
    WordClean(v);
  }

  /**
   * A save of a dict reads back its new value once loaded again: the condition under which the
   * setters' writes survive a reload.
   */
  ghost predicate ReadsBack(mode: SaveMode, before: string, key: string)
  {
    AtMostOnce(Rows(Lines(before)), key) && (mode == Intended || before == [] || before[|before| - 1] == '\n')
  }

  /** The text the setters leave: the old file saved with `key` set to `value`. */
  function SetText(mode: SaveMode, before: string, key: string, value: string): string
  {
    Concat(Saved(mode, PyDict.Set(Parsed(Lines(before)), key, value), Lines(before)))
  }

  /** `load_config`, set one key, `save_config`. */
  method SetKey(file: SettingsFile, mode: SaveMode, key: string, value: string)
    requires CleanKey(key) && CleanValue(value)
    modifies file
    ensures file.text == Some(SetText(mode, old(file.Contents()), key, value))
    ensures ReadsBack(mode, old(file.Contents()), key) ==> PyDict.Get(Parsed(Lines(file.Contents())), key) == Some(value)
  {
    ghost var before := file.Contents();
    var config := file.Load();
    config := PyDict.Set(config, key, value);
    var _ := file.Save(mode, config);
    if ReadsBack(mode, before, key) {
      SetThenLoad(mode, before, key, value);
    }
  }

  /** `set_debug_mode(enabled)`: DEBUG_MODE becomes "true" or "false". */
  method SetDebugMode(file: SettingsFile, mode: SaveMode, enabled: bool)
    modifies file
    ensures file.text == Some(SetText(mode, old(file.Contents()), "DEBUG_MODE", DebugValue(enabled)))
    ensures ReadsBack(mode, old(file.Contents()), "DEBUG_MODE") ==>
      PyDict.Get(Parsed(Lines(file.Contents())), "DEBUG_MODE") == Some(DebugValue(enabled))
  {
    KeysClean();
    ValuesClean(DebugValue(enabled));
    SetKey(file, mode, "DEBUG_MODE", DebugValue(enabled));
  }

  /**
   * `set_environment(env)`: the upper-cased argument is stored under ENVIRONMENT when it is DEV
   * or PROD; any other argument is refused and nothing is written.
   */
  method SetEnvironment(file: SettingsFile, mode: SaveMode, env: string) returns (accepted: bool)
    modifies file
    ensures accepted <==> Upper(env) in Environments
    ensures !accepted ==> file.text == old(file.text)
    ensures accepted ==> file.text == Some(SetText(mode, old(file.Contents()), "ENVIRONMENT", Upper(env)))
    ensures accepted && ReadsBack(mode, old(file.Contents()), "ENVIRONMENT") ==>
      PyDict.Get(Parsed(Lines(file.Contents())), "ENVIRONMENT") == Some(Upper(env))
  {
    var value := Upper(env);
    if value !in Environments {
      return false;
    }
    KeysClean();
    ValuesClean(value);
    SetKey(file, mode, "ENVIRONMENT", value);
    return true;
  }

  /**
   * `set_log_level(level)`: the upper-cased argument is stored under LOG_LEVEL when it is DEBUG,
   * INFO, WARNING or ERROR; any other argument is refused and nothing is written.
   */
  method SetLogLevel(file: SettingsFile, mode: SaveMode, level: string) returns (accepted: bool)
    modifies file
    ensures accepted <==> Upper(level) in LogLevels
    ensures !accepted ==> file.text == old(file.text)
    ensures accepted ==> file.text == Some(SetText(mode, old(file.Contents()), "LOG_LEVEL", Upper(level)))
    ensures accepted && ReadsBack(mode, old(file.Contents()), "LOG_LEVEL") ==>
      PyDict.Get(Parsed(Lines(file.Contents())), "LOG_LEVEL") == Some(Upper(level))
  {
    var value := Upper(level);
    if value !in LogLevels {
      return false;
    }
    KeysClean();
    ValuesClean(value);
    SetKey(file, mode, "LOG_LEVEL", value);
    return true;
  }

  // ---------------------------------------------------------------- the command line

  /** What `main` does for a command line (`sys.argv`, the script name first). */
  datatype Command =
    | Usage                   // no command, or help / --help / -h
    | MissingArgument         // debug, env or log without its argument
    | SetDebug(enabled: bool)
    | BadDebugWord            // debug with a word that is neither on nor off
    | SetEnv(env: string)
    | SetLog(level: string)
    | Show
    | Unknown(command: string)

  /** The debug-mode word: on/true/1/enable and off/false/0/disable, in any case. */
  function DebugWord(word: string): Option<bool>
  {
    var w := Lower(word);
    if w in EnableWords then Some(true) else if w in DisableWords then Some(false) else None
  }

  /** The argument mapping of `main`. */
  function ParseCommand(argv: seq<string>): Command
  {
    if |argv| < 2 then Usage
    else
      var command := Lower(argv[1]);
      if command == "debug" then
        if |argv| < 3 then MissingArgument
        else match DebugWord(argv[2])
          case Some(enabled) => SetDebug(enabled)
          case None => BadDebugWord
      else if command == "env" then
        if |argv| < 3 then MissingArgument else SetEnv(argv[2])
      else if command == "log" then
        if |argv| < 3 then MissingArgument else SetLog(argv[2])
      else if command == "show" then Show
      else if command in ["help", "--help", "-h"] then Usage
      else Unknown(command)
  }

  /** The debug word is read without regard to case. */
  lemma DebugWordIgnoresCase(word: string)
    ensures DebugWord(Upper(word)) == DebugWord(word)
    ensures DebugWord(Lower(word)) == DebugWord(word)
  {
    LowerUpper(word);
    LowerIdempotent(word);
  }

  /** The command word is read without regard to case. */
  lemma CommandIgnoresCase(argv: seq<string>)
    requires |argv| >= 2
    ensures ParseCommand(argv[1 := Upper(argv[1])]) == ParseCommand(argv)
  {
    LowerUpper(argv[1]);
  }

  /**
   * `main`: runs the setter the command line names. Nothing is written for usage, help, show,
   * a missing argument, an unknown command or a debug word that is neither on nor off.
   */
  method Run(file: SettingsFile, mode: SaveMode, argv: seq<string>)
    modifies file
    ensures match ParseCommand(argv)
      case SetDebug(enabled) => file.text == Some(SetText(mode, old(file.Contents()), "DEBUG_MODE", DebugValue(enabled)))
      case SetEnv(env) =>
        file.text == if Upper(env) in Environments then Some(SetText(mode, old(file.Contents()), "ENVIRONMENT", Upper(env))) else old(file.text)
      case SetLog(level) =>
        file.text == if Upper(level) in LogLevels then Some(SetText(mode, old(file.Contents()), "LOG_LEVEL", Upper(level))) else old(file.text)
      case _ => file.text == old(file.text)
  {
    match ParseCommand(argv) {
      case SetDebug(enabled) =>
        SetDebugMode(file, mode, enabled);
      case SetEnv(env) =>
        var _ := SetEnvironment(file, mode, env);
      case SetLog(level) =>
        var _ := SetLogLevel(file, mode, level);
      case _ =>
    }
  }
}
