/**
 Start-up in `main`: logging, the tray (tooltip and menu), the child, and the
 start notification, in that order; any failure before the event loop starts
 ends the program with that error.
 */
module Startup {
  import opened Results
  import opened Strings
  import opened Spawn
  import opened Supervision
  import opened EventLoop

  /** The outcomes of the start-up calls and the formatted start time. */
  datatype LaunchEnv = LaunchEnv(loggingReady: bool, trayBuilds: bool, timestamp: string, spawn: SpawnEnv)

  datatype LaunchError = LoggingFailed | TrayBuildFailed | SpawnFailed(cause: SpawnError)

  /** Everything the event loop starts with. */
  datatype Launched = Launched(tooltip: string, child: Child, effects: seq<Effect>, state: Loop)

  const StartTitle: string := "Process started!"

  /** The whole command as one line: its words joined by single spaces. */
  function CommandLine(cmd: seq<string>): (line: string)
    requires |cmd| > 0
    ensures |line| == TotalLength(cmd) + |cmd| - 1
    ensures (forall i :: 0 <= i < |cmd| ==> ' ' !in cmd[i]) ==> SplitOn(line, ' ') == cmd
  {
    assert (forall i :: 0 <= i < |cmd| ==> ' ' !in cmd[i]) ==> SplitOn(Join(cmd, " "), ' ') == cmd by {
      if forall i :: 0 <= i < |cmd| ==> ' ' !in cmd[i] {
        SplitJoin(cmd, ' ');
      }
    }
    Join(cmd, " ")
  }

  /**
   The start-up sequence. On success the tray's tooltip is the command line,
   the child runs the command, one "Process started!" notification carrying
   the command line has been sent, and the loop starts polling with the tray
   owned.
   */
  function Launch(cmd: seq<string>, env: LaunchEnv): (r: Result<Launched, LaunchError>)
    requires |cmd| > 0
    ensures !env.loggingReady ==> r == Err(LoggingFailed)
    ensures env.loggingReady && !env.trayBuilds ==> r == Err(TrayBuildFailed)
    ensures env.loggingReady && env.trayBuilds ==>
              match SpawnProcess(cmd, env.timestamp, env.spawn)
              case Err(e) => r == Err(SpawnFailed(e))
              case Ok(child) => r.Ok? && r.value.child == child
    ensures r.Ok? ==> [r.value.child.program] + r.value.child.args == cmd
    ensures r.Ok? ==> r.value.tooltip == CommandLine(cmd)
    ensures r.Ok? ==> r.value.effects == [Notify(StartTitle, r.value.tooltip)]
    ensures r.Ok? ==> r.value.state == Initial && Valid(r.value.state)
  {
    if !env.loggingReady then Err(LoggingFailed)
    else
      var line := CommandLine(cmd);
      if !env.trayBuilds then Err(TrayBuildFailed)
      else
        match SpawnProcess(cmd, env.timestamp, env.spawn)
        case Err(e) => Err(SpawnFailed(e))
        case Ok(child) => Ok(Launched(line, child, [Notify(StartTitle, line)], Initial))
  }
}
