/**
 Runs: the closure called once per event-loop wake-up, over a sequence of
 moments. Between two calls the tray may deliver more menu ids; they join the
 back of the channel's queue before the next call.
 */
module Runs {
  import opened Supervision
  import opened EventLoop

  /** What one call of the closure sees: the menu ids that arrived since the previous call, and the outcomes of its OS calls. */
  datatype Moment = Moment(arrivals: seq<string>, probe: Probe)

  datatype RunResult = RunResult(state: Loop, effects: seq<Effect>, queue: seq<string>)

  /** All menu ids delivered over the moments, in order. */
  function Arrivals(moments: seq<Moment>): seq<string>
    decreases |moments|
  {
    if |moments| == 0 then [] else moments[0].arrivals + Arrivals(moments[1..])
  }

  /** The closure called once per moment, starting from `s` with `queue` pending. */
  function Run(s: Loop, moments: seq<Moment>, queue: seq<string>): (r: RunResult)
    ensures r.state.controlFlow == Poll ==> s.controlFlow == Poll
    ensures r.state.trayPresent ==> s.trayPresent
    ensures Valid(s) ==> Valid(r.state)
    decreases |moments|
  {
    if |moments| == 0 then RunResult(s, [], queue)
    else
      var st := Step(s, moments[0].probe, queue + moments[0].arrivals);
      var rest := Run(st.state, moments[1..], st.queue);
      RunResult(rest.state, st.effects + rest.effects, rest.queue)
  }

  /** Running two stretches of moments one after the other is running their concatenation. */
  lemma {:induction false} RunAppend(s: Loop, a: seq<Moment>, b: seq<Moment>, queue: seq<string>)
    ensures var r1 := Run(s, a, queue);
            var r2 := Run(r1.state, b, r1.queue);
            Run(s, a + b, queue) == RunResult(r2.state, r1.effects + r2.effects, r2.queue)
    decreases |a|
  {
    if |a| == 0 {
      assert a + b == b;
    } else {
      var ab := a + b;
      assert ab[0] == a[0];
      assert ab[1..] == a[1..] + b;
      var st := Step(s, a[0].probe, queue + a[0].arrivals);
      RunAppend(st.state, a[1..], b, st.queue);
      var tail1 := Run(st.state, a[1..], st.queue);
      var r2 := Run(tail1.state, b, tail1.queue);
      calc {
        Run(s, ab, queue);
        RunResult(Run(st.state, ab[1..], st.queue).state,
                  st.effects + Run(st.state, ab[1..], st.queue).effects,
                  Run(st.state, ab[1..], st.queue).queue);
        RunResult(r2.state, st.effects + (tail1.effects + r2.effects), r2.queue);
        { assert st.effects + (tail1.effects + r2.effects) == (st.effects + tail1.effects) + r2.effects; }
        RunResult(r2.state, Run(s, a, queue).effects + r2.effects, r2.queue);
      }
    }
  }

  /**
   Once the control flow is `Exit`, every later call is a no-op: the state
   stays as it is, no effect happens, and stale menu ids are never consumed.
   */
  lemma {:induction false} ExitIsAbsorbing(s: Loop, moments: seq<Moment>, queue: seq<string>)
    requires s.controlFlow == Exit
    ensures Run(s, moments, queue) == RunResult(s, [], queue + Arrivals(moments))
    decreases |moments|
  {
    if |moments| == 0 {
      assert queue + [] == queue;
    } else {
      var q := queue + moments[0].arrivals;
      ExitIsAbsorbing(s, moments[1..], q);
      assert q + Arrivals(moments[1..]) == queue + Arrivals(moments);
    }
  }

  /** A pointwise weaker property is satisfied at least as often. */
  lemma {:induction false} CountMonotonic(effects: seq<Effect>, p: Effect -> bool, q: Effect -> bool)
    requires forall e :: p(e) ==> q(e)
    ensures Count(effects, p) <= Count(effects, q)
    decreases |effects|
  {
    if |effects| > 0 {
      CountMonotonic(effects[1..], p, q);
    }
  }

  /**
   Over any run, the child is killed or its exit announced at most once in
   all, and only if the loop was still polling; after either the loop has
   exited.
   */
  lemma {:induction false} AtMostOneTerminal(s: Loop, moments: seq<Moment>, queue: seq<string>)
    ensures var r := Run(s, moments, queue);
            && Count(r.effects, IsTerminal) <= (if s.controlFlow == Poll then 1 else 0)
            && (Count(r.effects, IsTerminal) > 0 ==> r.state.controlFlow == Exit)
    decreases |moments|
  {
    if |moments| > 0 {
      var st := Step(s, moments[0].probe, queue + moments[0].arrivals);
      var rest := Run(st.state, moments[1..], st.queue);
      AtMostOneTerminal(st.state, moments[1..], st.queue);
      CountAppend(st.effects, rest.effects, IsTerminal);
    }
  }

  /** In particular, the effects of any run hold at most one kill and at most one exit notification. */
  lemma AtMostOneKillAndNotice(s: Loop, moments: seq<Moment>, queue: seq<string>, effects: seq<Effect>)
    requires effects == Run(s, moments, queue).effects
    ensures Count(effects, IsKill) <= 1
    ensures Count(effects, IsExitNotice) <= 1
  {
    AtMostOneTerminal(s, moments, queue);
    CountMonotonic(effects, IsKill, IsTerminal);
    CountMonotonic(effects, IsExitNotice, IsTerminal);
  }

  /**
   From a valid state the tray is released exactly when a run ends without
   it, so at most once, and never when it is already gone.
   */
  lemma {:induction false} TrayReleasedOnce(s: Loop, moments: seq<Moment>, queue: seq<string>)
    requires Valid(s)
    ensures var r := Run(s, moments, queue);
            Count(r.effects, IsRelease) == (if s.trayPresent && !r.state.trayPresent then 1 else 0)
    decreases |moments|
  {
    if |moments| > 0 {
      var st := Step(s, moments[0].probe, queue + moments[0].arrivals);
      var rest := Run(st.state, moments[1..], st.queue);
      TrayReleasedOnce(st.state, moments[1..], st.queue);
      CountAppend(st.effects, rest.effects, IsRelease);
    }
  }

  /** A moment with nothing new on the menu and a child that is still running. */
  predicate Quiet(m: Moment)
  {
    m.arrivals == [] && m.probe.wait.Running?
  }

  /** While nothing is clicked and the child keeps running, the loop just polls. */
  lemma {:induction false} QuietRunPolls(s: Loop, moments: seq<Moment>)
    requires s.controlFlow == Poll
    requires forall i :: 0 <= i < |moments| ==> Quiet(moments[i])
    ensures Run(s, moments, []) == RunResult(s, [], [])
    decreases |moments|
  {
    if |moments| > 0 {
      assert Quiet(moments[0]);
      assert forall i :: 0 <= i < |moments[1..]| ==> Quiet(moments[1..][i]) by {
        forall i | 0 <= i < |moments[1..]|
          ensures Quiet(moments[1..][i])
        {
          assert moments[1..][i] == moments[i + 1];
        }
      }
      QuietRunPolls(s, moments[1..]);
    }
  }

  /**
   A child that runs undisturbed and then exits: the run ends in `Exit` with
   exactly one notification, carrying the exit status, and keeps the tray
   (normal exit does not release it).
   */
  lemma ExitAfterQuietRun(quiet: seq<Moment>, last: Moment, later: seq<Moment>, status: ExitStatus)
    requires forall i :: 0 <= i < |quiet| ==> Quiet(quiet[i])
    requires last.arrivals == [] && last.probe.wait == Exited(status)
    ensures var r := Run(Initial, quiet + [last] + later, []);
            r.state == Loop(Exit, true) && r.effects == [ExitNotice(status)]
  {
    QuietRunPolls(Initial, quiet);
    RunAppend(Initial, quiet, [last], []);
    var r1 := Run(Initial, quiet + [last], []);
    assert [] + last.arrivals == [];
    assert r1.state == Loop(Exit, true) && r1.effects == [ExitNotice(status)];
    RunAppend(Initial, quiet + [last], later, []);
    ExitIsAbsorbing(r1.state, later, r1.queue);
  }

  /**
   A `Kill` click reaching a running child: exactly one kill, whatever else
   is queued behind it or arrives later, and the loop ends; a failed kill also
   gives up the tray.
   */
  lemma KillEndsRun(s: Loop, first: Moment, later: seq<Moment>, queue: seq<string>)
    requires s.controlFlow == Poll
    requires first.probe.wait.Running?
    requires |queue + first.arrivals| > 0 && (queue + first.arrivals)[0] == "Kill"
    ensures var r := Run(s, [first] + later, queue);
            && r.effects == [KillChild] + (if first.probe.killSucceeds then [] else [ReleaseTray])
            && r.state == (if first.probe.killSucceeds then Loop(Exit, s.trayPresent) else Loop(Exit, false))
  {
    var moments := [first] + later;
    assert moments[0] == first && moments[1..] == later;
    var st := Step(s, first.probe, queue + first.arrivals);
    ExitIsAbsorbing(st.state, later, st.queue);
  }
}
