/**
 * The front-end runner: the shell line it builds to run a script, the
 * argument checks of the shell commands, the parsing of the backend
 * configuration option and of a virtual environment's `pyvenv.cfg`, and the
 * loop that drains the proxy's queue and dispatches each message.
 */
module Runner {
  import opened Wrappers
  import opened PyStr
  import opened ShellQuote
  import opened Messages
  import opened Backend

  // ---------------------------------------------------------------------
  // execute_script

  /** A `%cd` is needed when a working directory is requested and the backend is elsewhere. */
  predicate ChangesDirectory(proxyCwd: string, workingDirectory: Option<string>) {
    workingDirectory.Some? && workingDirectory.value != proxyCwd
  }

  /** The directory the script path is made relative to: the one the backend will be in. */
  function NextCwd(proxyCwd: string, workingDirectory: Option<string>): string {
    if ChangesDirectory(proxyCwd, workingDirectory) then workingDirectory.value else proxyCwd
  }

  /** The `%cd` line, or nothing. */
  function CdPrefix(proxyCwd: string, workingDirectory: Option<string>): string {
    if ChangesDirectory(proxyCwd, workingDirectory) then "%cd " + Quote(workingDirectory.value) + "\n" else ""
  }

  /** The main command line: `%<command> <quoted path>`, a quoted token per argument, and a newline. */
  function MainCommand(commandName: string, relFilename: string, args: seq<string>): string {
    ("%" + commandName + " " + Quote(relFilename)) + QuotedTail(args) + "\n"
  }

  /**
   * The text `execute_script` submits to the shell: the optional `%cd` line,
   * then the main command line for the script path made relative to the
   * directory the backend will be in. `relPath` is `os.path.relpath`.
   */
  function ScriptCommandLine(proxyCwd: string, scriptPath: string, args: seq<string>,
                             workingDirectory: Option<string>, commandName: string,
                             relPath: (string, string) -> string): string
  {
    CdPrefix(proxyCwd, workingDirectory) +
    MainCommand(commandName, relPath(scriptPath, NextCwd(proxyCwd, workingDirectory)), args)
  }

  /** The shell line for running `scriptPath` with `args`, built the way the source accumulates it. */
  method ExecuteScript(proxyCwd: string, scriptPath: string, args: seq<string>,
                       workingDirectory: Option<string>, commandName: string,
                       relPath: (string, string) -> string) returns (cmdLine: string)
    ensures cmdLine == ScriptCommandLine(proxyCwd, scriptPath, args, workingDirectory, commandName, relPath)
  {
    var nextCwd: string;
    if workingDirectory.Some? && proxyCwd != workingDirectory.value {
      cmdLine := "%cd " + Quote(workingDirectory.value) + "\n";
      nextCwd := workingDirectory.value;
    } else {
      cmdLine := "";
      nextCwd := proxyCwd;
    }
    ghost var prefix := cmdLine;
    assert prefix == CdPrefix(proxyCwd, workingDirectory) && nextCwd == NextCwd(proxyCwd, workingDirectory);
    var relFilename := relPath(scriptPath, nextCwd);
    ghost var command := "%" + commandName + " " + Quote(relFilename);
    cmdLine := cmdLine + ("%" + commandName + " " + Quote(relFilename));
    for i := 0 to |args|
      invariant cmdLine == prefix + (command + QuotedTail(args[..i]))
    {
      QuotedTailStep(args, i);
      AppendAssoc(prefix, command + QuotedTail(args[..i]), " " + Quote(args[i]));
      AppendAssoc(command, QuotedTail(args[..i]), " " + Quote(args[i]));
      cmdLine := cmdLine + (" " + Quote(args[i]));
    }
    assert args[..|args|] == args;
    AppendAssoc(prefix, command + QuotedTail(args), "\n");
    cmdLine := cmdLine + "\n";
  }

  /** The main command line reads back as the command word, the path and the arguments. */
  lemma MainCommandWords(commandName: string, relFilename: string, args: seq<string>)
    requires IsSafe(commandName)
    ensures SplitWords(MainCommand(commandName, relFilename, args)) == Some(["%" + commandName, relFilename] + args)
  {
    var word := "%" + commandName;
    var main := [word, relFilename] + args;
    assert IsSafe(word) by {
      forall i | 0 <= i < |word| ensures IsSafeChar(word[i]) {
        if i > 0 { assert word[i] == commandName[i - 1]; }
      }
    }
    assert main[1..] == [relFilename] + args;
    assert main[1..][1..] == args;
    assert QuotedTail(main[1..]) == " " + Quote(relFilename) + QuotedTail(args);
    calc {
      QuotedLine(main);
      Quote(word) + QuotedTail(main[1..]);
      word + ((" " + Quote(relFilename)) + QuotedTail(args));
      { AppendAssoc(word, " " + Quote(relFilename), QuotedTail(args)); }
      (word + (" " + Quote(relFilename))) + QuotedTail(args);
      { AppendAssoc(word, " ", Quote(relFilename)); }
      word + " " + Quote(relFilename) + QuotedTail(args);
    }
    assert SplitWords("\n") == Some([]) by { assert "\n"[1..] == ""; }
    QuotedLineRoundTrip(main, "\n");
    assert main + [] == main;
  }

  /** The `%cd` line reads back as `%cd` and the directory, and is followed by the rest of the text. */
  lemma CdLineWords(dir: string, rest: string)
    ensures SplitWords("%cd " + Quote(dir) + "\n" + rest) == Prepend(["%cd", dir], SplitWords(rest))
  {
    var cd := ["%cd", dir];
    assert cd[1..] == [dir];
    assert QuotedTail([dir]) == " " + Quote(dir) + QuotedTail([]);
    assert QuotedLine(cd) == "%cd " + Quote(dir);
    assert "%cd " + Quote(dir) + "\n" + rest == QuotedLine(cd) + ("\n" + rest);
    QuotedLineRoundTrip(cd, "\n" + rest);
    assert "\n" + rest == ['\n'] + rest;
    SplitSkipsBlank('\n', rest);
  }

  /**
   * Read back by the shell, the line is exactly the `%cd` command and its
   * directory when one was needed, then the command, the relative script
   * path and every argument unchanged, whatever characters they hold.
   */
  lemma ScriptLineWords(proxyCwd: string, scriptPath: string, args: seq<string>,
                        workingDirectory: Option<string>, commandName: string,
                        relPath: (string, string) -> string)
    requires IsSafe(commandName)
    ensures SplitWords(ScriptCommandLine(proxyCwd, scriptPath, args, workingDirectory, commandName, relPath)) ==
      Some((if ChangesDirectory(proxyCwd, workingDirectory) then ["%cd", workingDirectory.value] else []) +
           ["%" + commandName, relPath(scriptPath, NextCwd(proxyCwd, workingDirectory))] + args)
  {
    var rel := relPath(scriptPath, NextCwd(proxyCwd, workingDirectory));
    var main := MainCommand(commandName, rel, args);
    var words := ["%" + commandName, rel] + args;
    assert ScriptCommandLine(proxyCwd, scriptPath, args, workingDirectory, commandName, relPath)
      == CdPrefix(proxyCwd, workingDirectory) + main;
    MainCommandWords(commandName, rel, args);
    if ChangesDirectory(proxyCwd, workingDirectory) {
      var dir := workingDirectory.value;
      assert CdPrefix(proxyCwd, workingDirectory) == "%cd " + Quote(dir) + "\n";
      CdLineWords(dir, main);
      AppendAssoc(["%cd", dir], ["%" + commandName, rel], args);
    } else {
      assert CdPrefix(proxyCwd, workingDirectory) + main == main;
      assert ([] + ["%" + commandName, rel]) + args == words;
    }
  }

  /** The main command line starts with `%` and the command name and ends with a newline. */
  lemma MainCommandShape(commandName: string, relFilename: string, args: seq<string>)
    ensures var main := MainCommand(commandName, relFilename, args);
      && |main| > 1 + |commandName|
      && main[|main| - 1] == '\n'
      && main[..1 + |commandName|] == "%" + commandName
  {
    var word := "%" + commandName;
    var body := word + " " + Quote(relFilename) + QuotedTail(args);
    assert MainCommand(commandName, relFilename, args) == body + "\n";
    assert body[..|word|] == word;
  }

  /** The line always ends with a newline, and starts with the `%cd` line exactly when a directory change is needed. */
  lemma ScriptLineShape(proxyCwd: string, scriptPath: string, args: seq<string>,
                        workingDirectory: Option<string>, commandName: string,
                        relPath: (string, string) -> string)
    ensures var line := ScriptCommandLine(proxyCwd, scriptPath, args, workingDirectory, commandName, relPath);
      && line[|line| - 1] == '\n'
      && (ChangesDirectory(proxyCwd, workingDirectory) ==>
            line[..|CdPrefix(proxyCwd, workingDirectory)|] == "%cd " + Quote(workingDirectory.value) + "\n")
      && (!ChangesDirectory(proxyCwd, workingDirectory) ==> line[..1 + |commandName|] == "%" + commandName)
  {
    var cd := CdPrefix(proxyCwd, workingDirectory);
    var main := MainCommand(commandName, relPath(scriptPath, NextCwd(proxyCwd, workingDirectory)), args);
    MainCommandShape(commandName, relPath(scriptPath, NextCwd(proxyCwd, workingDirectory)), args);
    assert (cd + main)[..|cd|] == cd;
    if !ChangesDirectory(proxyCwd, workingDirectory) {
      assert cd + main == main;
    }
  }

  // ---------------------------------------------------------------------
  // Shell commands

  /** A shell command line that the handler rejects, with the source's message template. */
  datatype ShellOutcome = Accepted(cmd: Command) | CommandSyntaxError(message: string)

  /** `handle_execute_from_shell`: the first argument is the script, the rest its arguments. */
  function ExecuteFromShell(command: string, args: seq<string>): (r: ShellOutcome)
    ensures r.Accepted? <==> |args| >= 1
    ensures r.Accepted? ==> r.cmd == ToplevelCommand(command, Some(args[0]), Some(args[1..]), None, None)
  {
    if |args| >= 1 then Accepted(ToplevelCommand(command, Some(args[0]), Some(args[1..]), None, None))
    else CommandSyntaxError("Command '%s' takes at least one argument")
  }

  /** `_handle_reset_from_shell`: Reset takes no arguments. */
  function ResetFromShell(command: string, args: seq<string>): (r: ShellOutcome)
    requires command == "Reset"
    ensures r.Accepted? <==> args == []
    ensures r.Accepted? ==> r.cmd == ToplevelCommand("Reset", None, None, None, None)
  {
    if |args| == 0 then Accepted(ToplevelCommand("Reset", None, None, None, None))
    else CommandSyntaxError("Command 'Reset' doesn't take arguments")
  }

  /** `_handle_cd_from_shell`: cd takes exactly one argument, the path. */
  function CdFromShell(command: string, args: seq<string>): (r: ShellOutcome)
    requires command == "cd"
    ensures r.Accepted? <==> |args| == 1
    ensures r.Accepted? ==> r.cmd == ToplevelCommand("cd", None, None, Some(args[0]), None)
  {
    if |args| == 1 then Accepted(ToplevelCommand("cd", None, None, Some(args[0]), None))
    else CommandSyntaxError("Command 'cd' takes one argument")
  }

  /**
   * A `%Run` or `%Debug` accepted from the shell restarts the backend with
   * the script and its arguments on the child's command line, in their
   * order, and writes the command to the new child.
   */
  lemma ShellRunLaunchesScript(s: ProxyState, command: string, args: seq<string>, host: Host)
    requires command == "Run" || command == "Debug"
    requires |args| >= 1 && host.executableExists && host.handshake.Ready?
    ensures ExecuteFromShell(command, args).Accepted?
    ensures var cmd := ExecuteFromShell(command, args).cmd;
      var (s', err) := SendStep(s, cmd, host);
      && err.None?
      && s'.proc.Some?
      && s'.proc.value.argv == [s.executable, "-u", "-B", host.launcher] + args
      && s'.proc.value.stdin == [cmd]
      && s'.state == Some(Running)
  {
    var cmd := ExecuteFromShell(command, args).cmd;
    RestartStartsFresh(s, cmd, host);
    var argv := LaunchArgv(s.executable, host.launcher, cmd);
    assert argv == argv[..4] + argv[4..];
    assert [args[0]] + args[1..] == args;
  }

  // ---------------------------------------------------------------------
  // parse_configuration

  /**
   * `parse_configuration`: `"Name (option)"` becomes the stripped name and
   * the option without surrounding spaces and closing parentheses; text with
   * no parenthesis is a name without option.
   */
  function ParseConfiguration(configuration: string): (r: (string, string))
    ensures '(' !in configuration ==> r == (configuration, "")
    ensures '(' in configuration ==> '(' !in r.0 && (r.0 == [] || (!IsSpace(r.0[0]) && !IsSpace(r.0[|r.0| - 1])))
    ensures '(' in configuration ==> r.1 == [] || (r.1[0] !in OptionPadding && r.1[|r.1| - 1] !in OptionPadding)
  {
    match SplitOnce(configuration, '(')
    case None => (configuration, "")
    case Some((name, option)) =>
      TrimBothSpec(name, Whitespace);
      TrimBothSpec(option, OptionPadding);
      (Strip(name), StripChars(option, OptionPadding))
  }

  /** The characters stripped from around the option. */
  const OptionPadding: set<char> := {' ', ')'}

  /**
   * With a parenthesis, the configuration is split at the first one; the name
   * is the text before it without its maximal runs of whitespace at either
   * end, and the option is the text after it without its maximal runs of
   * spaces and `)` at either end.
   */
  lemma ParseConfigurationSplits(configuration: string)
    ensures '(' in configuration ==>
      var i, r := IndexOf(configuration, '('), ParseConfiguration(configuration);
      && configuration == configuration[..i] + "(" + configuration[i + 1..]
      && '(' !in configuration[..i]
      && StrippedOf(configuration[..i], r.0, Whitespace)
      && StrippedOf(configuration[i + 1..], r.1, OptionPadding)
  {
    if '(' in configuration {
      var i := IndexOf(configuration, '(');
      var name, option := configuration[..i], configuration[i + 1..];
      assert configuration == name + "(" + option;
      assert SplitOnce(configuration, '(') == Some((name, option));
      var r := ParseConfiguration(configuration);
      assert r == (StripChars(name, Whitespace), StripChars(option, OptionPadding));
      StripCharsPadded(name, Whitespace);
      StripCharsPadded(option, OptionPadding);
    }
  }

  /** The configuration text for a backend name and option. */
  function ConfigurationText(name: string, option: string): string {
    name + " (" + option + ")"
  }

  /** A clean name and option survive being written as `"Name (option)"` and parsed back. */
  lemma ConfigurationRoundTrip(name: string, option: string)
    requires '(' !in name && (name == [] || (!IsSpace(name[0]) && !IsSpace(name[|name| - 1])))
    requires option == [] || (option[0] !in OptionPadding && option[|option| - 1] !in OptionPadding)
    ensures ParseConfiguration(ConfigurationText(name, option)) == (name, option)
  {
    var left := name + " ";
    calc {
      ConfigurationText(name, option);
      ((name + " (") + option) + ")";
      { assert name + " (" == left + ['(']; }
      ((left + ['(']) + option) + ")";
      { AppendAssoc(left + ['('], option, ")"); }
      (left + ['(']) + (option + ")");
    }
    assert '(' !in left;
    SplitOnceAt(name + " ", option + ")", '(');
    TrimPadded("", name, " ", Whitespace);
    assert "" + name + " " == name + " ";
    TrimPadded("", option, ")", OptionPadding);
    assert "" + option + ")" == option + ")";
  }

  /** A name with no parenthesis is a configuration without an option. */
  lemma ConfigurationWithoutOption(name: string)
    requires '(' !in name
    ensures ParseConfiguration(name) == (name, "")
  {
  }

  // ---------------------------------------------------------------------
  // _get_venv_info

  /** The stripped key and value of a `key = value` line. */
  function Entry(line: string): (string, string)
    requires '=' in line
  {
    var (key, val) := SplitOnce(line, '=').value;
    (Strip(key), Strip(val))
  }

  /** The settings read from the lines of `pyvenv.cfg`: lines holding `=` define a key, later lines win, the rest are ignored. */
  function VenvSettings(lines: seq<string>): map<string, string>
    decreases |lines|
  {
    if lines == [] then map[]
    else
      var m := VenvSettings(lines[..|lines| - 1]);
      var line := lines[|lines| - 1];
      if '=' in line then m[Entry(line).0 := Entry(line).1] else m
  }

  /** `_get_venv_info` on the file's lines, filling the dictionary one line at a time. */
  method VenvInfo(lines: seq<string>) returns (result: map<string, string>)
    ensures result == VenvSettings(lines)
  {
    result := map[];
    for i := 0 to |lines|
      invariant result == VenvSettings(lines[..i])
    {
      var line := lines[i];
      assert lines[..i + 1][..i] == lines[..i];
      if '=' in line {
        var entry := Entry(line);
        result := result[entry.0 := entry.1];
      }
    }
    assert lines[..|lines|] == lines;
  }

  predicate Defines(line: string, key: string) {
    '=' in line && Entry(line).0 == key
  }

  /** The index of the last line defining `key`, or -1. */
  function LastDefinition(lines: seq<string>, key: string): (i: int)
    ensures -1 <= i < |lines|
    ensures i >= 0 ==> Defines(lines[i], key)
    ensures forall j :: i < j < |lines| ==> !Defines(lines[j], key)
    decreases |lines|
  {
    if lines == [] then -1
    else if Defines(lines[|lines| - 1], key) then |lines| - 1
    else LastDefinition(lines[..|lines| - 1], key)
  }

  /** A key is present exactly when some line defines it, and its value is the one on the last such line. */
  lemma {:induction false} VenvLookup(lines: seq<string>, key: string)
    ensures key in VenvSettings(lines) <==> LastDefinition(lines, key) >= 0
    ensures key in VenvSettings(lines) ==> VenvSettings(lines)[key] == Entry(lines[LastDefinition(lines, key)]).1
    decreases |lines|
  {
    if lines != [] {
      var init := lines[..|lines| - 1];
      VenvLookup(init, key);
      var i := LastDefinition(init, key);
      if i >= 0 { assert init[i] == lines[i]; }
    }
  }

  /** The entry of a `key = value` line is the key and the value, with their padding stripped. */
  lemma EntryOfLine(key: string, value: string)
    requires '=' !in key
    requires key == [] || (!IsSpace(key[0]) && !IsSpace(key[|key| - 1]))
    requires value == [] || (!IsSpace(value[0]) && !IsSpace(value[|value| - 1]))
    ensures '=' in key + " = " + value + "\n"
    ensures Entry(key + " = " + value + "\n") == (key, value)
  {
    var left, right := key + " ", " " + value + "\n";
    var line := key + " = " + value + "\n";
    calc {
      line;
      ((key + " = ") + value) + "\n";
      { assert key + " = " == left + ['='] + " "; }
      ((left + ['='] + " ") + value) + "\n";
      { AppendAssoc(left + ['='], " ", value); }
      ((left + ['=']) + (" " + value)) + "\n";
      { AppendAssoc(left + ['='], " " + value, "\n"); }
      left + ['='] + right;
    }
    assert '=' !in left;
    SplitOnceAt(left, right, '=');
    assert line[|left|] == '=';
    TrimPadded("", key, " ", Whitespace);
    assert "" + key + " " == left;
    TrimPadded(" ", value, "\n", Whitespace);
  }

  /** A `key = value` line as Python writes it into `pyvenv.cfg` is read back as that key and value. */
  lemma VenvLine(key: string, value: string)
    requires '=' !in key
    requires key == [] || (!IsSpace(key[0]) && !IsSpace(key[|key| - 1]))
    requires value == [] || (!IsSpace(value[0]) && !IsSpace(value[|value| - 1]))
    ensures VenvSettings([key + " = " + value + "\n"]) == map[key := value]
  {
    var line := key + " = " + value + "\n";
    EntryOfLine(key, value);
    assert [line][..0] == [];
  }

  // ---------------------------------------------------------------------
  // _poll_vm_messages

  /**
   * One round of `_poll_vm_messages`: fetch and dispatch messages until the
   * queue yields nothing. The dispatched messages are the drained queue and
   * the proxy ends in the state the raw queue would have led to.
   */
  method PollMessages(p: CPythonProxy) returns (events: seq<Message>)
    requires p.Valid()
    modifies p
    ensures p.Valid()
    ensures old(p.messageQueue).None? ==> events == [] && p.Snapshot() == old(p.Snapshot())
    ensures old(p.messageQueue).Some? ==>
      && events == Drain(old(p.messageQueue.value))
      && p.messageQueue == Some([])
      && p.state == StateAfter(old(p.state), old(p.messageQueue.value))
    ensures p.proc == old(p.proc) && p.cwd == old(p.cwd) && p.sysPath == old(p.sysPath)
    ensures p.executable == old(p.executable)
  {
    events := [];
    if p.messageQueue.None? {
      var msg := p.FetchNextMessage();
      return;
    }
    ghost var q0 := p.messageQueue.value;
    ghost var st0 := p.state;
    while true
      invariant p.Valid() && p.messageQueue.Some?
      invariant events + Drain(p.messageQueue.value) == Drain(q0)
      invariant p.state == StateAfter(st0, events)
      invariant p.proc == old(p.proc) && p.cwd == old(p.cwd) && p.sysPath == old(p.sysPath)
      invariant p.executable == old(p.executable)
      decreases |p.messageQueue.value|
    {
      FetchDrains(p.Snapshot());
      var msg := p.FetchNextMessage();
      if msg.None? {
        break;
      }
      StateAfterSnoc(st0, events, msg.value);
      AppendAssoc(events, [msg.value], Drain(p.messageQueue.value));
      events := events + [msg.value];
    }
    assert Drain(p.messageQueue.value) == [];
    assert events + [] == events;
    DrainKeepsState(st0, q0);
  }
}
