/**
 * `get_config_filename_from_cmd`: the argument that follows the first
 * `--config` on the command line, if there is one.
 */
module CommandLine {
  import opened PyText

  const ConfigFlag := "--config"

  /** `args.index(flag)`: the position of the first occurrence. */
  function IndexOf(args: seq<string>, flag: string): (k: nat)
    requires flag in args
    ensures k < |args| && args[k] == flag && flag !in args[..k]
  {
    if args[0] == flag then 0
    else
      var k := 1 + IndexOf(args[1..], flag);
      assert args[..k] == [args[0]] + args[1..][..k - 1];
      k
  }

  /**
   * `get_config_filename_from_cmd(cmd_args)`: `None` for `None`, an empty
   * list, no `--config`, or a first `--config` that ends the list;
   * otherwise the argument after the first `--config`.
   */
  function ConfigFilenameFromCmd(cmdArgs: Option<seq<string>>): Option<string>
  {
    if cmdArgs.Some? && cmdArgs.value != [] && ConfigFlag in cmdArgs.value
       && IndexOf(cmdArgs.value, ConfigFlag) < |cmdArgs.value| - 1
    then Some(cmdArgs.value[IndexOf(cmdArgs.value, ConfigFlag) + 1])
    else None
  }

  /**
   * A file name is found exactly when some `--config` is followed by an
   * argument; it is the argument right after the first `--config`, and
   * whatever precedes that flag or follows the name does not matter.
   */
  lemma ConfigFilenameSpec(cmdArgs: Option<seq<string>>)
    ensures ConfigFilenameFromCmd(cmdArgs).Some? <==>
      cmdArgs.Some? && (exists i :: 0 <= i < |cmdArgs.value| - 1 && cmdArgs.value[i] == ConfigFlag
                                   && ConfigFlag !in cmdArgs.value[..i])
    ensures ConfigFilenameFromCmd(cmdArgs).Some? ==>
      exists i :: && 0 <= i < |cmdArgs.value| - 1
                  && cmdArgs.value[i] == ConfigFlag && ConfigFlag !in cmdArgs.value[..i]
                  && ConfigFilenameFromCmd(cmdArgs).value == cmdArgs.value[i + 1]
  {
    if cmdArgs.Some? && ConfigFlag in cmdArgs.value {
      var k := IndexOf(cmdArgs.value, ConfigFlag);
    }
  }

  /** A command line `before --config name after`, with no flag before, yields `name`. */
  lemma ConfigAfterFlag(before: seq<string>, name: string, after: seq<string>)
    requires ConfigFlag !in before
    ensures ConfigFilenameFromCmd(Some(before + [ConfigFlag, name] + after)) == Some(name)
  {
    var args := before + [ConfigFlag, name] + after;
    assert args[|before|] == ConfigFlag && args[..|before|] == before;
    ConfigFilenameSpec(Some(args));
  }

  /** A `--config` at the end of a command line without another one gives nothing. */
  lemma ConfigFlagLast(before: seq<string>)
    requires ConfigFlag !in before
    ensures ConfigFilenameFromCmd(Some(before + [ConfigFlag])) == None
  {
    var args := before + [ConfigFlag];
    assert args[|before|] == ConfigFlag && args[..|before|] == before;
    ConfigFilenameSpec(Some(args));
  }

  lemma ConfigFilenameExamples()
    ensures ConfigFilenameFromCmd(None) == None
    ensures ConfigFilenameFromCmd(Some([])) == None
    ensures ConfigFilenameFromCmd(Some(["log_analyzer.py", "--config", "null.ini"])) == Some("null.ini")
    ensures ConfigFilenameFromCmd(Some(["log_analyzer.py", "--config"])) == None
    ensures ConfigFilenameFromCmd(Some(["--config", "a.ini", "--config", "b.ini"])) == Some("a.ini")
  {
    ConfigAfterFlag(["log_analyzer.py"], "null.ini", []);
    assert ["log_analyzer.py"] + [ConfigFlag, "null.ini"] + [] == ["log_analyzer.py", "--config", "null.ini"];
    ConfigFlagLast(["log_analyzer.py"]);
    assert ["log_analyzer.py"] + [ConfigFlag] == ["log_analyzer.py", "--config"];
    ConfigAfterFlag([], "a.ini", ["--config", "b.ini"]);
    assert [] + [ConfigFlag, "a.ini"] + ["--config", "b.ini"] == ["--config", "a.ini", "--config", "b.ini"];
  }
}
