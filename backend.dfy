/**
 * The backend proxy that owns the child interpreter: its execution state,
 * the process handle, the queue of decoded messages and the working
 * directory. The child process, its pipes and the launcher are abstracted:
 * a process is a value recording how it was launched, whether it is still
 * alive and the commands written to its standard input; what the operating
 * system answers when a process is started is passed in as a `Host`.
 *
 * The pure step functions (`SendStep`, `Killed`, `FetchStep`, ...) state
 * what each operation does to the whole proxy; the class `CPythonProxy`
 * performs the operations on its fields and is proved against them.
 */
module Backend {
  import opened Wrappers
  import opened PyStr
  import opened Messages

  datatype Command =
    | ToplevelCommand(command: string, filename: Option<string>, args: Option<seq<string>>,
                      path: Option<string>, environment: Option<map<string, string>>)
    | InlineCommand(command: string)
    | DebuggerCommand(command: string)
    | InputSubmission(data: string)

  /** A launched child interpreter: how it was started, whether it still runs, what it was sent. */
  datatype Process = Process(argv: seq<string>, env: map<string, string>, cwd: string,
                             alive: bool, stdin: seq<Command>)

  /** The first line the child writes: a ready message with its module search path, or end of file. */
  datatype Handshake = Ready(path: seq<string>) | Eof(stderr: string, stillAlive: bool)

  /** What the operating system answers when a backend is started. */
  datatype Host = Host(environ: map<string, string>, executableExists: bool,
                       launcher: string, handshake: Handshake)

  /** The errors `send_command` can raise. */
  datatype BackendError =
    | InterpreterNotFound(executable: string)
    | BackendStartupFailed(stderr: string)
    | ChildProcessUnavailable

  /** Everything the proxy holds. */
  datatype ProxyState = ProxyState(state: Option<State>, proc: Option<Process>,
                                   queue: Option<seq<Message>>, cwd: string,
                                   sysPath: seq<string>, executable: string)

  /** The configuration option that selects the private virtual environment's interpreter. */
  const DefaultInterpreter := "default"

  /** Commands after which the backend is running until it replies. */
  predicate SetsRunning(cmd: Command) {
    cmd.ToplevelCommand? || cmd.DebuggerCommand? || cmd.InputSubmission?
  }

  /** Commands that replace the child process before being written. */
  predicate RestartsProcess(cmd: Command) {
    cmd.ToplevelCommand? && (cmd.command == "Run" || cmd.command == "Debug" || cmd.command == "Reset")
  }

  /** A host variable passed on to the child: nothing naming Python in any case, and not the Tcl/Tk library paths. */
  predicate KeepVariable(name: string) {
    !Contains(LowerAscii(name), "python") && name != "TK_LIBRARY" && name != "TCL_LIBRARY"
  }

  /** The host variables passed on to the child. */
  function InheritedEnvironment(environ: map<string, string>): (r: map<string, string>)
    ensures forall k :: k in r <==> k in environ && KeepVariable(k)
    ensures forall k :: k in r ==> r[k] == environ[k]
  {
    map k | k in environ && KeepVariable(k) :: environ[k]
  }

  /** The per-command environment additions, if the command has any. */
  function Overrides(cmd: Command): map<string, string> {
    if cmd.ToplevelCommand? && cmd.environment.Some? then cmd.environment.value else map[]
  }

  /**
   * The child's environment: the inherited variables, ASCII I/O encoding and
   * unbuffered output, then the command's own additions on top.
   */
  function ChildEnvironment(environ: map<string, string>, cmd: Command): (r: map<string, string>)
    ensures forall k :: k in Overrides(cmd) ==> k in r && r[k] == Overrides(cmd)[k]
    ensures "PYTHONUNBUFFERED" !in Overrides(cmd) ==> "PYTHONUNBUFFERED" in r && r["PYTHONUNBUFFERED"] == "1"
    ensures "PYTHONIOENCODING" !in Overrides(cmd) ==> "PYTHONIOENCODING" in r && r["PYTHONIOENCODING"] == "ASCII"
  {
    InheritedEnvironment(environ)["PYTHONIOENCODING" := "ASCII"]["PYTHONUNBUFFERED" := "1"] + Overrides(cmd)
  }

  /**
   * The child sees exactly the command's additions, the two fixed variables
   * and the kept host variables; any other key it sees is a host variable
   * with the host's value.
   */
  lemma ChildEnvironmentKeys(environ: map<string, string>, cmd: Command)
    ensures forall k :: k in ChildEnvironment(environ, cmd) <==>
      k in Overrides(cmd) || k == "PYTHONIOENCODING" || k == "PYTHONUNBUFFERED" || (k in environ && KeepVariable(k))
    ensures forall k :: k in ChildEnvironment(environ, cmd) && k !in Overrides(cmd) && k != "PYTHONIOENCODING" && k != "PYTHONUNBUFFERED" ==>
      k in environ && KeepVariable(k) && ChildEnvironment(environ, cmd)[k] == environ[k]
  {
    var inherited := InheritedEnvironment(environ);
    var base := inherited["PYTHONIOENCODING" := "ASCII"]["PYTHONUNBUFFERED" := "1"];
    assert ChildEnvironment(environ, cmd) == base + Overrides(cmd);
    assert forall k :: k in base && k != "PYTHONIOENCODING" && k != "PYTHONUNBUFFERED" ==> k in inherited && base[k] == inherited[k];
  }

  /** The child's command line: interpreter, `-u`, `-B`, launcher, then the script and its arguments when the command names one. */
  function LaunchArgv(executable: string, launcher: string, cmd: Command): (r: seq<string>)
    ensures |r| >= 4 && r[..4] == [executable, "-u", "-B", launcher]
    ensures cmd.ToplevelCommand? && cmd.filename.Some? ==>
      r[4..] == [cmd.filename.value] + (if cmd.args.Some? then cmd.args.value else [])
    ensures !(cmd.ToplevelCommand? && cmd.filename.Some?) ==> |r| == 4
  {
    [executable, "-u", "-B", launcher] +
    (if cmd.ToplevelCommand? && cmd.filename.Some?
     then [cmd.filename.value] + (if cmd.args.Some? then cmd.args.value else [])
     else [])
  }

  /** `kill_current_process`: a live child is killed and its queue discarded; otherwise nothing happens. */
  function Killed(s: ProxyState): ProxyState {
    if s.proc.Some? && s.proc.value.alive then s.(proc := None, queue := None) else s
  }

  /** `_start_new_process`: a fresh empty queue, then the launch, which can fail in two ways. */
  function Started(s: ProxyState, cmd: Command, host: Host): (ProxyState, Option<BackendError>) {
    var s1 := s.(queue := Some([]));
    if !host.executableExists then (s1, Some(InterpreterNotFound(s.executable)))
    else
      var p := Process(LaunchArgv(s.executable, host.launcher, cmd),
                       ChildEnvironment(host.environ, cmd), s.cwd, true, []);
      match host.handshake
      case Eof(stderr, stillAlive) => (s1.(proc := Some(p.(alive := stillAlive))), Some(BackendStartupFailed(stderr)))
      case Ready(path) => (s1.(proc := Some(p), sysPath := path), None)
  }

  /** Writing a command to the child's standard input; without a child there is nothing to write to. */
  function Written(s: ProxyState, cmd: Command): (ProxyState, Option<BackendError>) {
    if s.proc.None? then (s, Some(ChildProcessUnavailable))
    else (s.(proc := Some(s.proc.value.(stdin := s.proc.value.stdin + [cmd]))), None)
  }

  /** `send_command`: the state first, then a restart when the command asks for one, then the write. */
  function SendStep(s: ProxyState, cmd: Command, host: Host): (ProxyState, Option<BackendError>) {
    var s1 := if SetsRunning(cmd) then s.(state := Some(Running)) else s;
    if RestartsProcess(cmd) then
      var (s2, err) := Started(Killed(s1), cmd, host);
      if err.Some? then (s2, err) else Written(s2, cmd)
    else Written(s1, cmd)
  }

  /** Taking a message off an absent, empty or non-empty queue. */
  function TakeMessage(q: Option<seq<Message>>): (r: (Option<Message>, Option<seq<Message>>))
    requires q.Some? ==> AllWellFormed(q.value)
  {
    if q.None? || q.value == [] then (None, q)
    else (Some(Coalesce(q.value).0), Some(Coalesce(q.value).1))
  }

  predicate QueueWellFormed(s: ProxyState) {
    s.queue.Some? ==> AllWellFormed(s.queue.value)
  }

  /** `fetch_next_message`: take a coalesced message, then let it move the state. */
  function FetchStep(s: ProxyState): (ProxyState, Option<Message>)
    requires QueueWellFormed(s)
  {
    var (m, q) := TakeMessage(s.queue);
    (s.(queue := q, state := if m.Some? then NextState(s.state, m.value) else s.state), m)
  }

  /** One message read by the stdout listener: it may carry a new working directory; it is queued if there is a queue. */
  function ReceiveStep(s: ProxyState, msg: Message): ProxyState {
    var s1 := if "cwd" in msg.fields then s.(cwd := msg.fields["cwd"]) else s;
    if s1.queue.None? then s1 else s1.(queue := Some(s1.queue.value + [msg]))
  }

  /** The child ending on its own. */
  function ExitStep(s: ProxyState): ProxyState {
    if s.proc.None? then s else s.(proc := Some(s.proc.value.(alive := false)))
  }

  // ---------------------------------------------------------------------
  // Properties of the step functions.

  /** Sending a toplevel, debugger or input command leaves the proxy running, whatever else happens. */
  lemma SendSetsRunning(s: ProxyState, cmd: Command, host: Host)
    requires SetsRunning(cmd)
    ensures SendStep(s, cmd, host).0.state == Some(Running)
  {
  }

  /**
   * An inline command changes nothing but the current child's input, and
   * fails when there is no child.
   */
  lemma InlineCommandOnlyWrites(s: ProxyState, cmd: Command, host: Host)
    requires cmd.InlineCommand?
    ensures var (s', err) := SendStep(s, cmd, host);
      && (s.proc.None? <==> err == Some(ChildProcessUnavailable))
      && (s.proc.None? ==> s' == s)
      && (s.proc.Some? ==> err.None? && s' == s.(proc := Some(s.proc.value.(stdin := s.proc.value.stdin + [cmd]))))
  {
  }

  /**
   * A successful Run, Debug or Reset starts a new child in the proxy's
   * working directory, launched for this command, with an empty queue,
   * the command as the only thing on its input, and the search path it
   * reported.
   */
  lemma RestartStartsFresh(s: ProxyState, cmd: Command, host: Host)
    requires RestartsProcess(cmd) && host.executableExists && host.handshake.Ready?
    ensures var (s', err) := SendStep(s, cmd, host);
      && err.None?
      && s'.state == Some(Running)
      && s'.queue == Some([])
      && s'.proc == Some(Process(LaunchArgv(s.executable, host.launcher, cmd),
                                 ChildEnvironment(host.environ, cmd), s.cwd, true, [cmd]))
      && s'.sysPath == host.handshake.path
      && s'.cwd == s.cwd && s'.executable == s.executable
  {
    var s1 := s.(state := Some(Running));
    var (s2, err) := Started(Killed(s1), cmd, host);
    assert s2.proc == Some(Process(LaunchArgv(s.executable, host.launcher, cmd),
                                   ChildEnvironment(host.environ, cmd), s.cwd, true, []));
    assert [] + [cmd] == [cmd];
  }

  /**
   * Whatever its outcome, a Run, Debug or Reset discards every queued
   * message: the next fetch yields nothing. A failed start writes nothing,
   * and a missing interpreter leaves behind only what the kill left.
   */
  lemma RestartDiscardsQueue(s: ProxyState, cmd: Command, host: Host)
    requires RestartsProcess(cmd)
    ensures var (s', err) := SendStep(s, cmd, host);
      && s'.queue == Some([])
      && FetchStep(s').1.None? && FetchStep(s').0 == s'
      && (!host.executableExists ==> err == Some(InterpreterNotFound(s.executable)) && s'.proc == Killed(s).proc)
      && (host.executableExists && host.handshake.Eof? ==>
            err == Some(BackendStartupFailed(host.handshake.stderr)) && s'.proc.Some? && s'.proc.value.stdin == [])
  {
  }

  /** Killing is idempotent, and a dead or absent child is left exactly as it was. */
  lemma KillProperties(s: ProxyState)
    ensures Killed(Killed(s)) == Killed(s)
    ensures (s.proc.None? || !s.proc.value.alive) ==> Killed(s) == s
    ensures s.proc.Some? && s.proc.value.alive ==> Killed(s).proc.None? && Killed(s).queue.None?
    ensures Killed(s).state == s.state && Killed(s).cwd == s.cwd
  {
  }

  /** Fetching from an absent or empty queue yields nothing and changes nothing. */
  lemma FetchFromEmpty(s: ProxyState)
    requires s.queue.None? || s.queue == Some([])
    ensures FetchStep(s) == (s, None)
  {
  }

  /** Fetching from a non-empty queue yields its coalesced front and moves the state by that message. */
  lemma FetchFromNonEmpty(s: ProxyState)
    requires s.queue.Some? && s.queue.value != [] && QueueWellFormed(s)
    ensures var (s', m) := FetchStep(s);
      && m == Some(Coalesce(s.queue.value).0)
      && s'.queue == Some(Coalesce(s.queue.value).1)
      && s'.state == NextState(s.state, s.queue.value[0])
      && s'.proc == s.proc && s'.cwd == s.cwd
  {
  }

  /**
   * Fetching from a queue takes the next message of its drain: nothing only
   * when it is empty, otherwise the first drained message, leaving a shorter
   * queue that drains to the rest and moving the state by that message.
   */
  lemma FetchDrains(s: ProxyState)
    requires s.queue.Some? && QueueWellFormed(s)
    ensures var (s', m) := FetchStep(s);
      && s'.queue.Some? && QueueWellFormed(s')
      && s'.proc == s.proc && s'.cwd == s.cwd && s'.sysPath == s.sysPath
      && (m.None? ==> s.queue.value == [] && s' == s)
      && (m.Some? ==>
            && Drain(s.queue.value) == [m.value] + Drain(s'.queue.value)
            && |s'.queue.value| < |s.queue.value|
            && s'.state == NextState(s.state, m.value))
  {
  }

  /** A received message lands at the back of the queue, behind everything already there. */
  lemma ReceiveAppends(s: ProxyState, msg: Message)
    requires s.queue.Some?
    ensures ReceiveStep(s, msg).queue == Some(s.queue.value + [msg])
    ensures ReceiveStep(s, msg).cwd == if "cwd" in msg.fields then msg.fields["cwd"] else s.cwd
  {
  }

  // ---------------------------------------------------------------------
  // The proxy object.

  class CPythonProxy {
    var state: Option<State>
    var proc: Option<Process>
    var messageQueue: Option<seq<Message>>
    var cwd: string
    var sysPath: seq<string>
    var executable: string

    function Snapshot(): ProxyState
      reads this
    {
      ProxyState(state, proc, messageQueue, cwd, sysPath, executable)
    }

    predicate Valid()
      reads this
    {
      QueueWellFormed(Snapshot())
    }

    /**
     * A proxy for `configurationOption` ("default" selects the private
     * environment's interpreter), starting in the configured working
     * directory when it exists and in the home directory otherwise.
     */
    constructor (configurationOption: string, privateExecutable: string,
                 workingDirectory: string, workingDirectoryExists: bool, home: string)
      ensures Valid()
      ensures Snapshot() == ProxyState(None, None, None,
        if workingDirectoryExists then workingDirectory else home, [],
        if configurationOption == DefaultInterpreter then privateExecutable else configurationOption)
    {
      if configurationOption == DefaultInterpreter {
        executable := privateExecutable;
      } else {
        executable := configurationOption;
      }
      if workingDirectoryExists {
        cwd := workingDirectory;
      } else {
        cwd := home;
      }
      proc := None;
      state := None;
      messageQueue := None;
      sysPath := [];
    }

    function GetState(): Option<State>
      reads this
    {
      state
    }

    function GetSysPath(): seq<string>
      reads this
    {
      sysPath
    }

    method SetState(st: State)
      modifies this`state
      ensures state == Some(st)
    {
      if state != Some(st) {
        state := Some(st);
      }
    }

    method KillCurrentProcess()
      requires Valid()
      modifies this`proc, this`messageQueue
      ensures Valid()
      ensures Snapshot() == Killed(old(Snapshot()))
    {
      if proc.Some? && proc.value.alive {
        proc := None;
        messageQueue := None;
      }
    }

    method StartNewProcess(cmd: Command, host: Host) returns (err: Option<BackendError>)
      requires Valid()
      modifies this`proc, this`messageQueue, this`sysPath
      ensures Valid()
      ensures (Snapshot(), err) == Started(old(Snapshot()), cmd, host)
    {
      messageQueue := Some([]);
      var env := FilterEnvironment(host.environ);
      env := env["PYTHONIOENCODING" := "ASCII"];
      env := env["PYTHONUNBUFFERED" := "1"];
      if !host.executableExists {
        return Some(InterpreterNotFound(executable));
      }
      var argv := [executable, "-u", "-B", host.launcher];
      if cmd.ToplevelCommand? && cmd.filename.Some? {
        argv := argv + [cmd.filename.value];
        if cmd.args.Some? {
          argv := argv + cmd.args.value;
        }
      }
      if cmd.ToplevelCommand? && cmd.environment.Some? {
        env := env + cmd.environment.value;
      } else {
        env := env + map[];
      }
      assert argv == LaunchArgv(executable, host.launcher, cmd);
      assert env == ChildEnvironment(host.environ, cmd);
      var p := Process(argv, env, cwd, true, []);
      match host.handshake {
        case Eof(stderr, stillAlive) =>
          proc := Some(p.(alive := stillAlive));
          return Some(BackendStartupFailed(stderr));
        case Ready(path) =>
          proc := Some(p);
          sysPath := path;
          return None;
      }
    }

    method SendCommand(cmd: Command, host: Host) returns (err: Option<BackendError>)
      requires Valid()
      modifies this
      ensures Valid()
      ensures (Snapshot(), err) == SendStep(old(Snapshot()), cmd, host)
    {
      if SetsRunning(cmd) {
        SetState(Running);
      }
      if RestartsProcess(cmd) {
        KillCurrentProcess();
        err := StartNewProcess(cmd, host);
        if err.Some? {
          return;
        }
      }
      if proc.None? {
        return Some(ChildProcessUnavailable);
      }
      proc := Some(proc.value.(stdin := proc.value.stdin + [cmd]));
      return None;
    }

    /** `send_program_input`: the data as an input submission. */
    method SendProgramInput(data: string, host: Host) returns (err: Option<BackendError>)
      requires Valid()
      modifies this
      ensures Valid()
      ensures (Snapshot(), err) == SendStep(old(Snapshot()), InputSubmission(data), host)
    {
      err := SendCommand(InputSubmission(data), host);
    }

    /** `_fetch_next_message`: nothing when there is no queue or it is empty, else the coalesced front message. */
    method FetchRaw() returns (msg: Option<Message>)
      requires Valid()
      modifies this`messageQueue
      ensures Valid()
      ensures (msg, messageQueue) == TakeMessage(old(messageQueue))
    {
      if messageQueue.None? || |messageQueue.value| == 0 {
        return None;
      }
      var m, q := CoalesceFront(messageQueue.value);
      messageQueue := Some(q);
      return Some(m);
    }

    method FetchNextMessage() returns (msg: Option<Message>)
      requires Valid()
      modifies this`messageQueue, this`state
      ensures Valid()
      ensures (Snapshot(), msg) == FetchStep(old(Snapshot()))
    {
      msg := FetchRaw();
      if msg.Some? {
        if msg.value.messageType == "ToplevelResult" {
          SetState(WaitingToplevelCommand);
        } else if msg.value.messageType == "DebuggerProgress" {
          SetState(WaitingDebugCommand);
        } else if msg.value.messageType == "InputRequest" {
          SetState(WaitingInput);
        }
      }
    }

    /** One iteration of the stdout listener, for a line the codec decoded into `msg`; false when there is no queue to append to. */
    method ReceiveMessage(msg: Message) returns (queued: bool)
      requires Valid() && WellFormed(msg)
      modifies this`cwd, this`messageQueue
      ensures Valid()
      ensures Snapshot() == ReceiveStep(old(Snapshot()), msg)
      ensures queued == old(messageQueue).Some?
    {
      if "cwd" in msg.fields {
        cwd := msg.fields["cwd"];
      }
      if messageQueue.None? {
        return false;
      }
      messageQueue := Some(messageQueue.value + [msg]);
      return true;
    }

    /** The child process ending by itself, as `poll()` later reports. */
    method ChildExited()
      requires Valid()
      modifies this`proc
      ensures Valid()
      ensures Snapshot() == ExitStep(old(Snapshot()))
    {
      if proc.Some? {
        proc := Some(proc.value.(alive := false));
      }
    }
  }

  /** The host environment without the variables the child must not inherit, built one variable at a time. */
  method FilterEnvironment(environ: map<string, string>) returns (env: map<string, string>)
    ensures env == InheritedEnvironment(environ)
  {
    env := map[];
    var names := environ.Keys;
    while names != {}
      invariant names <= environ.Keys
      invariant forall k :: k in env <==> k in environ && k !in names && KeepVariable(k)
      invariant forall k :: k in env ==> env[k] == environ[k]
      decreases names
    {
      var name :| name in names;
      if KeepVariable(name) {
        env := env[name := environ[name]];
      }
      names := names - {name};
    }
  }
}
