/**
 Starting the child (`spawn_process`): the command is split into program and
 arguments, a log file named after the program and the start time is created,
 and both output streams of the child go to it. The filesystem and process
 calls are replaced by their success or failure, given as input; the
 formatted local time is an opaque string.
 */
module Spawn {
  import opened Results

  /** What every log file name of a run started at `timestamp` ends with. */
  function LogSuffix(timestamp: string): string
  {
    "_" + timestamp + ".log"
  }

  /** The log file of one run: program name, underscore, timestamp, `.log`. */
  function LogFileName(program: string, timestamp: string): (name: string)
    ensures |name| == |program| + |timestamp| + 5
    ensures name[..|program|] == program
    ensures name[|program|..] == LogSuffix(timestamp)
  {
    program + LogSuffix(timestamp)
  }

  /** Every log file name of a run started at `timestamp` ends with that run's suffix. */
  lemma LogFileNamesEndWithSuffix(timestamp: string)
    ensures forall program :: var name := LogFileName(program, timestamp);
              |LogSuffix(timestamp)| <= |name| && name[|name| - |LogSuffix(timestamp)|..] == LogSuffix(timestamp)
  {
  }

  /** Recovers the program name from the name of a log file created at `timestamp`. */
  function ProgramOfLogFile(name: string, timestamp: string): (r: Option<string>)
    ensures r.Some? ==> LogFileName(r.value, timestamp) == name
    ensures r.None? ==> forall program :: LogFileName(program, timestamp) != name
  {
    var suffix := LogSuffix(timestamp);
    if |suffix| <= |name| && name[|name| - |suffix|..] == suffix then
      assert name == name[..|name| - |suffix|] + suffix;
      Some(name[..|name| - |suffix|])
    else
      LogFileNamesEndWithSuffix(timestamp);
      None
  }

  /** The program string can be read back from its log file name, so different program strings started at the same time give different names. */
  lemma LogFileNameRoundTrip(program: string, timestamp: string)
    ensures ProgramOfLogFile(LogFileName(program, timestamp), timestamp) == Some(program)
  {
    var suffix := LogSuffix(timestamp);
    var name := LogFileName(program, timestamp);
    assert name == program + suffix;
    assert name[..|name| - |suffix|] == program;
  }

  /** The outcomes of the calls `spawn_process` makes, in order. */
  datatype SpawnEnv = SpawnEnv(logsDirReady: bool, logFileOpens: bool, handleClones: bool, commandStarts: bool)

  datatype SpawnError = LogsDirUnavailable | LogFileOpenFailed | HandleCloneFailed | CommandStartFailed

  /** A started child: what was run, and the files its standard output and standard error go to. */
  datatype Child = Child(program: string, args: seq<string>, stdoutLog: string, stderrLog: string)

  /**
   `spawn_process`. The first word of the command is the program and the rest
   its arguments; stdout and stderr both go to the run's log file. Each failing
   call stops the spawn with its own error, in the order the calls are made.
   */
  function SpawnProcess(cmd: seq<string>, timestamp: string, env: SpawnEnv): (r: Result<Child, SpawnError>)
    requires |cmd| > 0
    ensures r.Ok? <==> env.logsDirReady && env.logFileOpens && env.handleClones && env.commandStarts
    ensures r.Ok? ==> [r.value.program] + r.value.args == cmd
    ensures r.Ok? ==> ProgramOfLogFile(r.value.stdoutLog, timestamp) == Some(r.value.program)
    ensures r.Ok? ==> r.value.stderrLog == r.value.stdoutLog
    ensures !env.logsDirReady ==> r == Err(LogsDirUnavailable)
    ensures env.logsDirReady && !env.logFileOpens ==> r == Err(LogFileOpenFailed)
    ensures env.logsDirReady && env.logFileOpens && !env.handleClones ==> r == Err(HandleCloneFailed)
    ensures env.logsDirReady && env.logFileOpens && env.handleClones && !env.commandStarts ==> r == Err(CommandStartFailed)
  {
    var program := cmd[0];
    var logFile := LogFileName(program, timestamp);
    if !env.logsDirReady then Err(LogsDirUnavailable)
    else if !env.logFileOpens then Err(LogFileOpenFailed)
    else if !env.handleClones then Err(HandleCloneFailed)
    else
      var args := cmd[1..];
      if !env.commandStarts then Err(CommandStartFailed)
      else
        LogFileNameRoundTrip(program, timestamp);
        assert [program] + args == cmd;
        Ok(Child(program, args, logFile, logFile))
  }
}
