/**
 The shared executor `runDocker` (index.js:6-21): it prefixes the arguments
 with `docker `, with `sudo ` in front when the `sudo` switch is on, hands
 the line to the shell with output suppressed unless the run is verbose and
 not under sudo, and throws when the exit status is not zero.

 The shell itself is not modelled: its exit status is a parameter, so every
 statement here holds whatever the shell returns.
 */
module Executor {
  import opened Text
  import opened Decimal
  import opened Shell

  /**
   The library's process-wide switches (index.js:47-50). `extraVerbose` only
   adds log lines and is not part of the model.
   */
  datatype Flags = Flags(verbose: bool, sudo: bool, enableVolumeInterpolation: bool)

  /** The switches as index.js:47-50 sets them when the module loads. */
  const InitialFlags := Flags(verbose := false, sudo := false, enableVolumeInterpolation := true)

  /** One call of the shell: the command line and whether its output is suppressed. */
  datatype Invocation = Invocation(cmdline: string, silent: bool)

  /** The errors the command layer throws. */
  datatype Failure =
    | CommandFailed(cmdline: string, code: int)
    | VolumePathMissing(hostPath: string, volume: string)
  {
    /** The message of the thrown `Error`. */
    function Message(): string
    {
      match this
      case CommandFailed(cmdline, code) =>
        "Command [" + cmdline + "] returned code " + IntToString(code)
      case VolumePathMissing(hostPath, volume) =>
        "Local volume path '" + hostPath + "' does not exist (" + volume + ")"
    }
  }

  /** How a call ended: it returned a value or threw. */
  datatype Result<T> = Returned(value: T) | Threw(failure: Failure)

  /** What an operation did: the shell call it made, if it got that far, and how it ended. */
  datatype Outcome<T> = Outcome(issued: Option<Invocation>, result: Result<T>)
  {
    /** The same run, returning `value` instead when it did not throw. */
    function Then<U>(value: U): (o: Outcome<U>)
      ensures o.issued == issued
      ensures o.result.Returned? <==> result.Returned?
      ensures o.result.Returned? ==> o.result.value == value
      ensures o.result.Threw? ==> o.result.failure == result.failure
    {
      Outcome(issued, if result.Returned? then Returned(value) else Threw(result.failure))
    }
  }

  /** A command line read back: whether it runs under sudo, and the docker arguments. */
  datatype Command = Command(sudo: bool, args: string)

  function ParseCommandLine(cmdline: string): Option<Command>
  {
    if |cmdline| >= 12 && cmdline[..12] == "sudo docker " then Some(Command(true, cmdline[12..]))
    else if |cmdline| >= 7 && cmdline[..7] == "docker " then Some(Command(false, cmdline[7..]))
    else None
  }

  /** The line handed to the shell; reading it back recovers the sudo switch and the arguments. */
  function CommandLine(flags: Flags, args: string): (cmdline: string)
    ensures ParseCommandLine(cmdline) == Some(Command(flags.sudo, args))
  {
    var line := "docker " + args;
    if flags.sudo then
      var full := "sudo " + line;
      assert full[..12] == "sudo docker ";
      assert full[12..] == args;
      full
    else
      assert line[..7] == "docker ";
      assert line[7..] == args;
      assert line[0] == 'd';
      line
  }

  /** The words in front of the docker arguments: `docker`, after `sudo` when the switch is on. */
  function DockerWords(flags: Flags): seq<string>
  {
    if flags.sudo then ["sudo", "docker"] else ["docker"]
  }

  /** The shell reads the command line as `[sudo] docker` followed by the words of the arguments. */
  lemma CommandLineWords(flags: Flags, args: string)
    ensures ShellWords(CommandLine(flags, args)) == DockerWords(flags) + ShellWords(args)
  {
    ReadBareWord("docker", args);
    if flags.sudo {
      assert CommandLine(flags, args) == "sudo" + " " + ("docker" + " " + args);
      ReadBareWord("sudo", "docker" + " " + args);
    } else {
      assert CommandLine(flags, args) == "docker" + " " + args;
    }
  }

  function Silent(flags: Flags): bool
  {
    !flags.verbose || flags.sudo
  }

  /** Runs `docker <args>` through a shell that exits with `code`. */
  function RunDocker(flags: Flags, args: string, code: int): (o: Outcome<()>)
    ensures o.issued.Some?
    ensures ParseCommandLine(o.issued.value.cmdline) == Some(Command(flags.sudo, args))
    ensures !o.issued.value.silent <==> flags.verbose && !flags.sudo
    ensures o.result.Returned? <==> code == 0
    ensures o.result.Threw? ==> o.result.failure == CommandFailed(o.issued.value.cmdline, code)
  {
    var cmdline := CommandLine(flags, args);
    Outcome(
      Some(Invocation(cmdline, Silent(flags))),
      if code != 0 then Threw(CommandFailed(cmdline, code)) else Returned(()))
  }

  /** Until a caller changes the switches, commands run as `docker <args>`, without sudo and silently. */
  lemma InitialFlagsRunSilently(args: string, code: int)
    ensures ShellWords(RunDocker(InitialFlags, args, code).issued.value.cmdline) == ["docker"] + ShellWords(args)
    ensures RunDocker(InitialFlags, args, code).issued.value.silent
  {
    CommandLineWords(InitialFlags, args);
  }

  /** `o` is the run of `docker <args>` under `flags` through a shell that exits with `code`. */
  ghost predicate Ran<T>(o: Outcome<T>, flags: Flags, args: string, code: int)
  {
    && o.issued == RunDocker(flags, args, code).issued
    && (o.result.Returned? <==> code == 0)
    && (o.result.Threw? ==> o.result.failure == CommandFailed(CommandLine(flags, args), code))
  }

  /** Reads the command line and exit status back out of a `CommandFailed` message. */
  function DecodeCommandFailed(msg: string): Option<(string, int)>
  {
    match LastIndexOf(msg, ' ')
    case None => None
    case Some(k) =>
      var head := msg[..k];
      if |head| >= 24 && head[..9] == "Command [" && head[|head| - 15..] == "] returned code" then
        match ParseInt(msg[k + 1..])
        case Some(code) => Some((head[9..|head| - 15], code))
        case None => None
      else None
  }

  /** A `CommandFailed` message carries the exact command line and exit status. */
  lemma CommandFailedMessage(cmdline: string, code: int)
    ensures DecodeCommandFailed(CommandFailed(cmdline, code).Message()) == Some((cmdline, code))
  {
    var digits := IntToString(code);
    IntToStringRoundTrip(code);
    DecodeMessage(cmdline, digits);
  }

  /** Decoding finds the command line before the last blank and reads the status after it. */
  lemma DecodeMessage(cmdline: string, digits: string)
    requires ' ' !in digits
    ensures DecodeCommandFailed("Command [" + cmdline + "] returned code " + digits)
      == if ParseInt(digits).Some? then Some((cmdline, ParseInt(digits).value)) else None
  {
    var head := "Command [" + cmdline + "] returned code";
    var msg := "Command [" + cmdline + "] returned code " + digits;
    assert msg == head + [' '] + digits;
    LastIndexOfJoined(head, ' ', digits);
    assert msg[..|head|] == head;
    assert msg[|head| + 1..] == digits;
    assert head[..9] == "Command [";
    assert head[|head| - 15..] == "] returned code";
    assert head[9..|head| - 15] == cmdline;
  }
}
