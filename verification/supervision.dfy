/**
 One tick of the supervision loop (`run_event_loop`). Every OS call the tick makes is replaced by an
 observation or an outcome given as input; every side effect it causes is
 returned as an `Effect` value, in the order it happens.
 */
module Supervision {
  import opened Results
  import opened TrayMessages

  /** What `try_wait` reports for an exited child; `text` is the platform's rendering of the status. */
  datatype ExitStatus = ExitStatus(success: bool, text: string)

  /** The three answers `try_wait` can give. */
  datatype WaitObservation = WaitFailed | Running | Exited(status: ExitStatus)

  /** The two control-flow values the program ever sets on the event loop. */
  datatype ControlFlow = Poll | Exit

  /**
   Side effects, in the order they happen. `KillChild` and `OpenLogsDir` record
   attempts: a kill that fails is still recorded, and so is an opening of the
   logs directory that fails, whether the directory could not be found (so the
   opener is never called) or the opener itself failed.
   */
  datatype Effect =
    | Notify(title: string, body: string)
    | KillChild
    | OpenLogsDir
    | ReleaseTray

  /** Why a tick returned `Err`. */
  datatype TickError =
    | QueryFailed
    | UnknownMenuId(id: string, cause: ParseError)
    | KillFailed
    | OpenLogsFailed

  /** The outcomes of the OS calls a tick may make: `try_wait`, `kill`, and finding and opening the logs directory. */
  datatype Probe = Probe(wait: WaitObservation, killSucceeds: bool, openLogsSucceeds: bool)

  /** What a tick returns, the effects it caused, and the menu events still queued after it. */
  datatype TickResult = TickResult(outcome: Result<ControlFlow, TickError>, effects: seq<Effect>, queue: seq<string>)

  const ExitTitle: string := "Process exited"

  /** The notification sent when the child is seen to have exited. */
  function ExitNotice(status: ExitStatus): (e: Effect)
    ensures IsExitNotice(e)
    ensures |e.body| >= |status.text| && e.body[|e.body| - |status.text|..] == status.text
  {
    Notify(ExitTitle, "Exit code: " + status.text)
  }

  predicate IsExitNotice(e: Effect)
  {
    e.Notify? && e.title == ExitTitle
  }

  /** The effects after which the child is no longer supervised: its exit was announced, or it was killed. */
  predicate IsTerminal(e: Effect)
  {
    e == KillChild || IsExitNotice(e)
  }

  predicate IsKill(e: Effect)
  {
    e == KillChild
  }

  predicate IsRelease(e: Effect)
  {
    e == ReleaseTray
  }

  /** The number of effects in `effects` that satisfy `p`. */
  function Count(effects: seq<Effect>, p: Effect -> bool): (n: nat)
    ensures n <= |effects|
    ensures n == 0 <==> forall i :: 0 <= i < |effects| ==> !p(effects[i])
    decreases |effects|
  {
    if |effects| == 0 then 0
    else (if p(effects[0]) then 1 else 0) + Count(effects[1..], p)
  }

  lemma {:induction false} CountAppend(a: seq<Effect>, b: seq<Effect>, p: Effect -> bool)
    ensures Count(a + b, p) == Count(a, p) + Count(b, p)
    decreases |a|
  {
    if |a| == 0 {
      assert a + b == b;
    } else {
      assert (a + b)[0] == a[0];
      assert (a + b)[1..] == a[1..] + b;
      CountAppend(a[1..], b, p);
    }
  }

  /** The pending menu event, if the child is still running and one is queued, and what it decodes to. */
  predicate Requested(probe: Probe, queue: seq<string>, m: TrayMessage)
  {
    probe.wait.Running? && |queue| > 0 && queue[0] == Display(m)
  }

  /**
   One tick. The exit check comes first: a query error or an exited child
   ends the tick before the menu channel is looked at. Otherwise at most one
   queued menu id is consumed and decoded; `Kill` kills the child and exits,
   `ShowLogs` opens the logs directory and keeps polling, and a failure of
   any of these calls, or an id that does not decode, is an `Err`.
   */
  function Tick(probe: Probe, queue: seq<string>): (r: TickResult)
    // the exit check has priority
    ensures probe.wait.WaitFailed? ==> r == TickResult(Err(QueryFailed), [], queue)
    ensures probe.wait.Exited? ==> r == TickResult(Ok(Exit), [ExitNotice(probe.wait.status)], queue)
    // at most one menu event is consumed, and only while the child runs
    ensures r.queue == queue || (probe.wait.Running? && |queue| > 0 && r.queue == queue[1..])
    ensures probe.wait.Running? && |queue| > 0 ==> r.queue == queue[1..]
    ensures probe.wait.Running? && |queue| == 0 ==> r == TickResult(Ok(Poll), [], queue)
    // at most one effect, and each only for its own message
    ensures |r.effects| <= 1
    ensures KillChild in r.effects <==> Requested(probe, queue, Kill)
    ensures OpenLogsDir in r.effects <==> Requested(probe, queue, ShowLogs)
    ensures forall i :: 0 <= i < |r.effects| ==> (IsExitNotice(r.effects[i]) <==> probe.wait.Exited?)
    ensures ReleaseTray !in r.effects
    ensures r.outcome == Ok(Poll) ==> forall i :: 0 <= i < |r.effects| ==> r.effects[i] == OpenLogsDir
    // how the tick ends
    ensures r.outcome == Ok(Exit) <==>
              probe.wait.Exited? || (Requested(probe, queue, Kill) && probe.killSucceeds)
    ensures r.outcome == Ok(Poll) <==>
              probe.wait.Running? && (|queue| == 0 || (Requested(probe, queue, ShowLogs) && probe.openLogsSucceeds))
    ensures probe.wait.Running? && |queue| > 0 && FromStr(queue[0]).Err? ==>
              r.outcome == Err(UnknownMenuId(queue[0], VariantNotFound)) && r.effects == []
    ensures r.outcome.Err? && r.outcome.error.UnknownMenuId? ==>
              probe.wait.Running? && |queue| > 0 && r.outcome.error.id == queue[0] &&
              (forall m :: Display(m) != queue[0]) && r.effects == []
  {
    match probe.wait
    case WaitFailed => TickResult(Err(QueryFailed), [], queue)
    case Exited(status) => TickResult(Ok(Exit), [ExitNotice(status)], queue)
    case Running =>
      if |queue| == 0 then TickResult(Ok(Poll), [], queue)
      else
        var id := queue[0];
        var rest := queue[1..];
        match FromStr(id)
        case Err(e) => TickResult(Err(UnknownMenuId(id, e)), [], rest)
        case Ok(Kill) =>
          TickResult(if probe.killSucceeds then Ok(Exit) else Err(KillFailed), [KillChild], rest)
        case Ok(ShowLogs) =>
          TickResult(if probe.openLogsSucceeds then Ok(Poll) else Err(OpenLogsFailed), [OpenLogsDir], rest)
  }
}
