/**
 The closure the event loop calls over and over: a guard that makes every call
 after `Exit` a no-op, and the error path that releases the tray icon. Runs of
 many calls are folded over the inputs each call sees.
 */
module EventLoop {
  import opened Results
  import opened TrayMessages
  import opened Supervision

  /** The closure's state: the event loop's control flow and whether the tray icon is still owned. */
  datatype Loop = Loop(controlFlow: ControlFlow, trayPresent: bool)

  /** The state when the event loop first calls the closure: polling, with the tray built. */
  const Initial: Loop := Loop(Poll, true)

  datatype StepResult = StepResult(state: Loop, effects: seq<Effect>, queue: seq<string>)

  /** The tray icon is owned for as long as the loop keeps polling. */
  predicate Valid(s: Loop)
  {
    s.controlFlow == Poll ==> s.trayPresent
  }

  /**
   One call of the closure. Once the control flow is `Exit` nothing happens:
   no tick, no effect, no event consumed. Otherwise the tick runs; `Ok(cf)`
   becomes the new control flow and leaves the tray alone, and `Err` takes the
   tray and forces `Exit`.
   */
  function Step(s: Loop, probe: Probe, queue: seq<string>): (r: StepResult)
    ensures s.controlFlow == Exit ==> r == StepResult(s, [], queue)
    ensures s.controlFlow == Poll ==>
              var t := Tick(probe, queue);
              && r.queue == t.queue
              && (t.outcome.Ok? ==> r.state == Loop(t.outcome.value, s.trayPresent) && r.effects == t.effects)
              && (t.outcome.Err? ==> r.state == Loop(Exit, false) && r.effects == t.effects + [ReleaseTray])
    // the tray is only ever given up, by an explicit release that ends the loop
    ensures r.state.trayPresent ==> s.trayPresent
    ensures Count(r.effects, IsRelease) <= 1
    ensures Valid(s) ==> (Count(r.effects, IsRelease) > 0 <==> s.trayPresent && !r.state.trayPresent)
    ensures Count(r.effects, IsRelease) > 0 ==> s.controlFlow == Poll
    ensures Count(r.effects, IsRelease) > 0 ==> r.state == Loop(Exit, false)
    ensures Valid(s) ==> Valid(r.state)
    // at most one terminal effect, and it ends the loop
    ensures Count(r.effects, IsTerminal) <= 1
    ensures Count(r.effects, IsTerminal) > 0 ==> s.controlFlow == Poll && r.state.controlFlow == Exit
  {
    if s.controlFlow == Exit then StepResult(s, [], queue)
    else
      assert s.controlFlow == Poll;
      var t := Tick(probe, queue);
      match t.outcome
      case Ok(cf) =>
        assert cf == Poll ==> Count(t.effects, IsTerminal) == 0;
        StepResult(Loop(cf, s.trayPresent), t.effects, t.queue)
      case Err(_) =>
        CountAppend(t.effects, [ReleaseTray], IsRelease);
        CountAppend(t.effects, [ReleaseTray], IsTerminal);
        StepResult(Loop(Exit, false), t.effects + [ReleaseTray], t.queue)
  }

  /**
   Any failed tick ends supervision and gives up the tray. A kill was
   attempted only if the failure was that kill failing; after an unreadable
   status, an unknown menu id or a logs directory that will not open, no kill
   is attempted and the child is left running.
   */
  lemma ErrorStopsSupervising(s: Loop, probe: Probe, queue: seq<string>)
    requires s.controlFlow == Poll
    requires Tick(probe, queue).outcome.Err?
    ensures Step(s, probe, queue).state == Loop(Exit, false)
    ensures KillChild in Step(s, probe, queue).effects <==> Requested(probe, queue, Kill)
    ensures Step(s, probe, queue).effects[|Step(s, probe, queue).effects| - 1] == ReleaseTray
  {
  }
}
