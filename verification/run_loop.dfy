/**
  The main loop of `src/engine/engine.cpp` (`Engine::run`): each iteration
  drains the pending window events, sleeps while the window is minimised,
  recreates the swapchain after a resize, and draws one frame; once a quit
  event has been seen the loop ends, waits for the device to go idle and
  cleans up.

  The event queue, the surface reported at each recreation and the device's
  answers during each frame are inputs, one `Iteration` per pass of the loop.
  A finite sequence of iterations describes a prefix of a run: a run that has
  not exited after it may go on.
 */
module RunLoop {
  import opened Common
  import E = Engine
  import Sc = Swapchain

  /** How long an iteration sleeps while rendering is stopped, in milliseconds. */
  const STOPPED_SLEEP_MS: nat := 100

  // ---------------------------------------------------------------------------
  // Window events

  /** The `SDL_WINDOWEVENT` sub-kinds the loop distinguishes. */
  datatype WindowEvent = Minimized | Restored | Resized | SizeChanged | OtherWindowEvent

  /** An event returned by `SDL_PollEvent`. */
  datatype SdlEvent = Quit | Window(kind: WindowEvent) | OtherEvent

  /** The loop's flags: the local `shouldQuit` and the engine's two flags. */
  datatype Flags = Flags(shouldQuit: bool, stopRendering: bool, framebufferResized: bool)

  /** The effect of one event on the flags. */
  function HandleEvent(f: Flags, ev: SdlEvent): Flags {
    match ev
    case Quit => f.(shouldQuit := true)
    case Window(Minimized) => f.(stopRendering := true)
    case Window(Restored) => f.(stopRendering := false)
    case Window(Resized) => f.(framebufferResized := true)
    case Window(SizeChanged) => f.(framebufferResized := true)
    case _ => f
  }

  /** The flags after polling `events`, in order. */
  function HandleEvents(f: Flags, events: seq<SdlEvent>): Flags
    decreases |events|
  {
    if |events| == 0 then f else HandleEvent(HandleEvents(f, events[..|events| - 1]), events[|events| - 1])
  }

  /** The event decides whether rendering stops. */
  predicate Toggles(ev: SdlEvent) {
    ev == Window(Minimized) || ev == Window(Restored)
  }

  /** The event marks the framebuffer resized. */
  predicate Resizes(ev: SdlEvent) {
    ev == Window(Resized) || ev == Window(SizeChanged)
  }

  /** The loop is to end exactly when it already was or some event is a quit. */
  lemma {:induction false} HandleEventsQuit(f: Flags, events: seq<SdlEvent>)
    decreases |events|
    ensures HandleEvents(f, events).shouldQuit <==> f.shouldQuit || Quit in events
  {
    if |events| > 0 {
      var init := events[..|events| - 1];
      HandleEventsQuit(f, init);
      assert events == init + [events[|events| - 1]];
    }
  }

  /** The framebuffer is marked resized exactly when it already was or some event resizes. */
  lemma {:induction false} HandleEventsResized(f: Flags, events: seq<SdlEvent>)
    decreases |events|
    ensures HandleEvents(f, events).framebufferResized <==>
      f.framebufferResized || exists i :: 0 <= i < |events| && Resizes(events[i])
  {
    if |events| > 0 {
      var n := |events| - 1;
      var init := events[..n];
      HandleEventsResized(f, init);
      if exists i :: 0 <= i < n && Resizes(init[i]) {
        var i :| 0 <= i < n && Resizes(init[i]);
        assert Resizes(events[i]);
      }
      if exists i :: 0 <= i < |events| && Resizes(events[i]) {
        var i :| 0 <= i < |events| && Resizes(events[i]);
        if i < n {
          assert Resizes(init[i]);
        }
      }
    }
  }

  /** Without a minimise or restore event, whether rendering stops stays as it was. */
  lemma {:induction false} HandleEventsKeepStop(f: Flags, events: seq<SdlEvent>)
    decreases |events|
    requires forall i :: 0 <= i < |events| ==> !Toggles(events[i])
    ensures HandleEvents(f, events).stopRendering == f.stopRendering
  {
    if |events| > 0 {
      var n := |events| - 1;
      assert !Toggles(events[n]);
      assert forall i :: 0 <= i < n ==> events[..n][i] == events[i];
      HandleEventsKeepStop(f, events[..n]);
    }
  }

  /** Whether rendering stops is decided by the last minimise or restore event. */
  lemma {:induction false} HandleEventsStop(f: Flags, events: seq<SdlEvent>, i: nat)
    decreases |events|
    requires i < |events| && Toggles(events[i])
    requires forall j :: i < j < |events| ==> !Toggles(events[j])
    ensures HandleEvents(f, events).stopRendering == (events[i] == Window(Minimized))
  {
    var n := |events| - 1;
    var init := events[..n];
    if i < n {
      assert !Toggles(events[n]);
      assert init[i] == events[i];
      assert forall j :: i < j < n ==> init[j] == events[j];
      HandleEventsStop(f, init, i);
    }
  }

  /** Events other than the quit, and the resize and rendering flags, are untouched by quitting. */
  lemma HandleEventsThenQuit(f: Flags, events: seq<SdlEvent>)
    ensures HandleEvents(f, events + [Quit]) == HandleEvents(f, events).(shouldQuit := true)
  {
    assert (events + [Quit])[..|events|] == events;
  }

  // ---------------------------------------------------------------------------
  // One iteration

  /** What the outside world supplies to one pass of the loop. */
  datatype Iteration = Iteration(events: seq<SdlEvent>, surface: Sc.Surface, frame: E.FrameInput)

  /** One pass: its outcome and whether the loop is to end. */
  datatype Step = Step(outcome: E.Outcome, quit: bool)

  /** The flags after the iteration's events, starting from a cleared `shouldQuit`. */
  function IterationFlags(e: E.Engine, it: Iteration): Flags {
    HandleEvents(Flags(false, e.stopRendering, e.framebufferResized), it.events)
  }

  /**
    One pass of the loop: poll the events; while stopped, sleep and skip the
    frame; after a resize, recreate the swapchain (a failure throws) and clear
    the flag; then draw.
   */
  function RunIteration(e: E.Engine, it: Iteration): (r: Step)
    requires E.Valid(e)
    ensures E.Valid(r.outcome.engine)
  {
    var fl := IterationFlags(e, it);
    var e1 := PolledEngine(e, it);
    if fl.stopRendering then Step(E.Outcome(e1, [E.Sleep(STOPPED_SLEEP_MS)], None), fl.shouldQuit)
    else
      var swapchain := FrameSwapchain(e1, it.surface);
      var e2 := RecreatedEngine(e1);
      if swapchain.Err? then Step(E.Outcome(e2, [E.RecreateSwapchain], Some(swapchain.error)), fl.shouldQuit)
      else
        var o := E.DrawFrame(e2.(swapchain := swapchain.value, framebufferResized := false), it.frame);
        Step(E.Outcome(o.engine, RecreateCalls(e1) + o.trace, o.failure), fl.shouldQuit)
  }

  /**
    The engine once a recreation, if the framebuffer is marked resized, has
    waited for the device to go idle (`recreate` begins with
    `vkDeviceWaitIdle`): no fence is pending any more.
   */
  function RecreatedEngine(e: E.Engine): (r: E.Engine)
    requires E.Valid(e)
    ensures E.Valid(r) && r.currentFrame == e.currentFrame && r.swapchain == e.swapchain
    ensures e.framebufferResized ==>
      (forall k :: 0 <= k < E.FRAME_COUNT ==> r.fences[k] != E.Pending) && r.uploadFence != E.Pending
    ensures !e.framebufferResized ==> r == e
  {
    if e.framebufferResized then E.DeviceIdle(e) else e
  }

  /** The swapchain the frame is drawn with: after a resize, the one `recreate` builds from `surface`. */
  function FrameSwapchain(e: E.Engine, surface: Sc.Surface): Result<Sc.Swapchain> {
    if e.framebufferResized then Sc.Recreate(e.swapchain, surface).result else Ok(e.swapchain)
  }

  /** The recreation call an iteration makes before drawing. */
  function RecreateCalls(e: E.Engine): seq<E.Event> {
    if e.framebufferResized then [E.RecreateSwapchain] else []
  }

  /** The engine an iteration draws with, once the flags are polled and the swapchain is recreated. */
  function FrameEngine(e: E.Engine, it: Iteration): E.Engine
    requires E.Valid(e)
    requires !IterationFlags(e, it).stopRendering && FrameSwapchain(PolledEngine(e, it), it.surface).Ok?
  {
    RecreatedEngine(PolledEngine(e, it)).(swapchain := FrameSwapchain(PolledEngine(e, it), it.surface).value, framebufferResized := false)
  }

  /** The engine after its flags are updated by the iteration's events. */
  function PolledEngine(e: E.Engine, it: Iteration): E.Engine {
    var fl := IterationFlags(e, it);
    e.(stopRendering := fl.stopRendering, framebufferResized := fl.framebufferResized)
  }

  /** The shape of an iteration that draws: the recreation call, if any, then the frame. */
  lemma DrawingIteration(e: E.Engine, it: Iteration)
    requires E.Valid(e)
    requires !IterationFlags(e, it).stopRendering && FrameSwapchain(PolledEngine(e, it), it.surface).Ok?
    ensures var o := E.DrawFrame(FrameEngine(e, it), it.frame); var r := RunIteration(e, it).outcome;
      && E.Valid(FrameEngine(e, it))
      && r.engine == o.engine
      && r.trace == RecreateCalls(PolledEngine(e, it)) + o.trace
      && r.failure == o.failure
  {
  }

  /**
    While rendering is stopped the iteration only sleeps: no frame is drawn,
    no swapchain is recreated, and a pending resize waits for the restore.
   */
  lemma StoppedIterationSleeps(e: E.Engine, it: Iteration)
    requires E.Valid(e)
    requires IterationFlags(e, it).stopRendering
    ensures var fl := IterationFlags(e, it); var r := RunIteration(e, it);
      && r.outcome.trace == [E.Sleep(STOPPED_SLEEP_MS)]
      && r.outcome.failure.None?
      && r.outcome.engine == e.(stopRendering := true, framebufferResized := fl.framebufferResized)
  {
  }

  /**
    An iteration recreates the swapchain at most once, and does so exactly
    when it is not stopped and the framebuffer is marked resized; a failed
    recreation ends the iteration, a successful one installs the new
    swapchain, which the frame keeps.
   */
  lemma IterationRecreates(e: E.Engine, it: Iteration)
    requires E.Valid(e)
    ensures var fl := IterationFlags(e, it); var r := RunIteration(e, it);
      && Count(r.outcome.trace, E.RecreateSwapchain) == (if !fl.stopRendering && fl.framebufferResized then 1 else 0)
      && (!fl.stopRendering && fl.framebufferResized ==>
            var rebuilt := Sc.Recreate(e.swapchain, it.surface);
            && (rebuilt.result.Err? ==> r.outcome.failure == Some(rebuilt.result.error) && r.outcome.trace == [E.RecreateSwapchain])
            && (rebuilt.result.Ok? ==> r.outcome.engine.swapchain == rebuilt.result.value))
  {
    var e1 := PolledEngine(e, it);
    if IterationFlags(e, it).stopRendering {
      assert [E.Sleep(STOPPED_SLEEP_MS)][1..] == [];
    } else if FrameSwapchain(e1, it.surface).Err? {
      assert [E.RecreateSwapchain][1..] == [];
    } else {
      var e2 := FrameEngine(e, it);
      DrawingIteration(e, it);
      E.FrameUsesOneSlot(e2, it.frame);
      E.FrameKeeps(e2, it.frame);
      assert E.RecreateSwapchain !in E.DrawFrame(e2, it.frame).trace;
      CountAppend(RecreateCalls(e1), E.DrawFrame(e2, it.frame).trace, E.RecreateSwapchain);
      assert [E.RecreateSwapchain][1..] == [];
    }
  }

  /**
    A quit event does not cut the iteration short: the frame is still drawn
    (or the sleep still taken) exactly as without it, and only then does the
    loop end.
   */
  lemma QuitFinishesIteration(e: E.Engine, it: Iteration)
    requires E.Valid(e)
    ensures var q := RunIteration(e, it.(events := it.events + [Quit]));
      q.quit && q.outcome == RunIteration(e, it).outcome
  {
    HandleEventsThenQuit(Flags(false, e.stopRendering, e.framebufferResized), it.events);
  }

  // ---------------------------------------------------------------------------
  // The whole loop

  /** The state and calls after some iterations, the exception if one was thrown, and whether the loop exited. */
  datatype RunOutcome = RunOutcome(engine: E.Engine, trace: seq<E.Event>, failure: Option<Error>, exited: bool)

  /** The calls after the loop: wait for the device to go idle, then `cleanup`. */
  const Shutdown: seq<E.Event> := [E.DeviceWaitIdle, E.Cleanup]

  /**
    `run`: iterate until an iteration has seen a quit, then shut down. An
    exception ends the run where it is thrown.
   */
  function Run(e: E.Engine, its: seq<Iteration>): (r: RunOutcome)
    requires E.Valid(e)
    ensures E.Valid(r.engine)
    decreases |its|
  {
    if |its| == 0 then RunOutcome(e, [], None, false)
    else
      var s := RunIteration(e, its[0]);
      if s.outcome.failure.Some? then RunOutcome(s.outcome.engine, s.outcome.trace, s.outcome.failure, false)
      else if s.quit then RunOutcome(s.outcome.engine, s.outcome.trace + Shutdown, None, true)
      else
        var rest := Run(s.outcome.engine, its[1..]);
        RunOutcome(rest.engine, s.outcome.trace + rest.trace, rest.failure, rest.exited)
  }

  /** A run that throws nothing has a first iteration that throws nothing. */
  lemma RunFirstNoFailure(e: E.Engine, its: seq<Iteration>)
    requires E.Valid(e) && |its| > 0 && Run(e, its).failure.None?
    ensures RunIteration(e, its[0]).outcome.failure.None?
  {
  }

  /** A first iteration that throws ends the run with its calls and its exception. */
  lemma RunStops(e: E.Engine, its: seq<Iteration>)
    requires E.Valid(e) && |its| > 0 && RunIteration(e, its[0]).outcome.failure.Some?
    ensures var st := RunIteration(e, its[0]);
      && Run(e, its).trace == st.outcome.trace
      && Run(e, its).failure == st.outcome.failure
      && !Run(e, its).exited
  {
  }

  /** After a first iteration that throws nothing and does not quit, the run goes on with the rest. */
  lemma RunContinues(e: E.Engine, its: seq<Iteration>)
    requires E.Valid(e) && |its| > 0
    requires RunIteration(e, its[0]).outcome.failure.None? && !RunIteration(e, its[0]).quit
    ensures var st := RunIteration(e, its[0]); var rest := Run(st.outcome.engine, its[1..]);
      && Run(e, its).failure == rest.failure
      && Run(e, its).trace == st.outcome.trace + rest.trace
      && Run(e, its).engine == rest.engine
      && Run(e, its).exited == rest.exited
  {
  }

  /** After a first iteration that throws nothing and quits, the run shuts down. */
  lemma RunQuits(e: E.Engine, its: seq<Iteration>)
    requires E.Valid(e) && |its| > 0
    requires RunIteration(e, its[0]).outcome.failure.None? && RunIteration(e, its[0]).quit
    ensures var st := RunIteration(e, its[0]);
      && Run(e, its).trace == st.outcome.trace + Shutdown
      && Run(e, its).engine == st.outcome.engine
      && Run(e, its).failure.None? && Run(e, its).exited
  {
  }

  /** A loop call made by one iteration. */
  lemma IterationLoopCalls(e: E.Engine, it: Iteration)
    requires E.Valid(e)
    ensures var t := RunIteration(e, it).outcome.trace;
      forall i :: 0 <= i < |t| ==> t[i] == E.Sleep(STOPPED_SLEEP_MS) || t[i] == E.RecreateSwapchain || !E.LoopCall(t[i])
  {
    var e1 := PolledEngine(e, it);
    if !IterationFlags(e, it).stopRendering && FrameSwapchain(e1, it.surface).Ok? {
      var e2 := FrameEngine(e, it);
      DrawingIteration(e, it);
      E.FrameUsesOneSlot(e2, it.frame);
      RecreateThenFrame(RecreateCalls(e1), E.DrawFrame(e2, it.frame).trace, e2.currentFrame);
    }
  }

  /** The recreation call followed by a frame's calls makes no other loop call. */
  lemma RecreateThenFrame(pre: seq<E.Event>, u: seq<E.Event>, f: nat)
    requires forall i :: 0 <= i < |pre| ==> pre[i] == E.RecreateSwapchain
    requires E.WithinSlot(u, f)
    ensures forall i :: 0 <= i < |pre + u| ==>
      (pre + u)[i] == E.Sleep(STOPPED_SLEEP_MS) || (pre + u)[i] == E.RecreateSwapchain || !E.LoopCall((pre + u)[i])
  {
    forall i | |pre| <= i < |pre + u|
      ensures !E.LoopCall((pre + u)[i])
    {
      assert (pre + u)[i] == u[i - |pre|];
    }
  }

  /**
    The device is waited on and cleaned up exactly once, at the very end, and
    exactly when the loop exits; a run exits without an exception.
   */
  lemma {:induction false} RunShutdown(e: E.Engine, its: seq<Iteration>)
    requires E.Valid(e)
    decreases |its|
    ensures var r := Run(e, its);
      && (r.exited ==> r.failure.None?)
      && ShutsDownAtEnd(r.trace, r.exited)
  {
    if |its| > 0 {
      var s := RunIteration(e, its[0]);
      IterationNoShutdown(e, its[0]);
      if s.outcome.failure.Some? {
        RunStops(e, its);
        ShutdownAppend(s.outcome.trace, [], false);
      } else if s.quit {
        RunQuits(e, its);
        ShutdownAppend(s.outcome.trace, Shutdown, true);
      } else {
        var rest := Run(s.outcome.engine, its[1..]);
        RunContinues(e, its);
        RunShutdown(s.outcome.engine, its[1..]);
        ShutdownAppend(s.outcome.trace, rest.trace, rest.exited);
      }
    }
  }

  /** Waiting for the device to go idle or cleaning up. */
  predicate ShutdownCall(ev: E.Event) {
    ev == E.DeviceWaitIdle || ev == E.Cleanup
  }

  /** `t` ends with the shutdown exactly when `exited`, and has no shutdown call anywhere else. */
  predicate ShutsDownAtEnd(t: seq<E.Event>, exited: bool) {
    && (exited ==> |t| >= 2 && t[|t| - 2..] == Shutdown)
    && (forall i :: 0 <= i < |t| && ShutdownCall(t[i]) ==> exited && i >= |t| - 2)
  }

  /** An iteration makes no shutdown call. */
  lemma IterationNoShutdown(e: E.Engine, it: Iteration)
    requires E.Valid(e)
    ensures var t := RunIteration(e, it).outcome.trace; forall i :: 0 <= i < |t| ==> !ShutdownCall(t[i])
  {
    IterationLoopCalls(e, it);
  }

  /** An iteration's calls followed by a tail that shuts down only at its end, if at all. */
  lemma ShutdownAppend(t: seq<E.Event>, u: seq<E.Event>, exited: bool)
    requires forall i :: 0 <= i < |t| ==> !ShutdownCall(t[i])
    requires ShutsDownAtEnd(u, exited)
    ensures ShutsDownAtEnd(t + u, exited)
  {
    if exited {
      assert (t + u)[|t + u| - 2..] == u[|u| - 2..];
    }
    forall i | 0 <= i < |t + u| && ShutdownCall((t + u)[i])
      ensures exited && i >= |t + u| - 2
    {
      if i >= |t| {
        assert (t + u)[i] == u[i - |t|];
      }
    }
  }

  /** Without a quit event the loop never exits. */
  lemma {:induction false} NoQuitNoExit(e: E.Engine, its: seq<Iteration>)
    requires E.Valid(e)
    requires forall k :: 0 <= k < |its| ==> Quit !in its[k].events
    decreases |its|
    ensures !Run(e, its).exited
  {
    if |its| > 0 {
      HandleEventsQuit(Flags(false, e.stopRendering, e.framebufferResized), its[0].events);
      var s := RunIteration(e, its[0]);
      assert !s.quit;
      if s.outcome.failure.None? {
        assert forall k :: 0 <= k < |its[1..]| ==> its[1..][k] == its[k + 1];
        NoQuitNoExit(s.outcome.engine, its[1..]);
      }
    }
  }

  // ---------------------------------------------------------------------------
  // Frame slots are used round-robin

  /** The frame slots of the in-flight fences the calls of `t` submit with, in order. */
  function SubmittedSlots(t: seq<E.Event>): seq<nat>
    decreases |t|
  {
    if |t| == 0 then []
    else
      var last := t[|t| - 1];
      SubmittedSlots(t[..|t| - 1]) + (if last.QueueSubmit? && last.fence.InFlight? then [last.fence.slot] else [])
  }

  lemma {:induction false} SubmittedSlotsAppend(t: seq<E.Event>, u: seq<E.Event>)
    decreases |u|
    ensures SubmittedSlots(t + u) == SubmittedSlots(t) + SubmittedSlots(u)
  {
    if |u| == 0 {
      assert t + u == t;
    } else {
      var n := |u| - 1;
      assert (t + u)[..|t + u| - 1] == t + u[..n];
      assert (t + u)[|t + u| - 1] == u[n];
      SubmittedSlotsAppend(t, u[..n]);
    }
  }

  /** Calls that contain no submission submit with no fence. */
  lemma {:induction false} NoSubmissions(t: seq<E.Event>)
    decreases |t|
    requires forall i :: 0 <= i < |t| ==> !t[i].QueueSubmit?
    ensures SubmittedSlots(t) == []
  {
    if |t| > 0 {
      NoSubmissions(t[..|t| - 1]);
    }
  }

  /** A successful submit submits once, with the slot's fence. */
  lemma SubmitSubmitsOnce(f: nat, imageIndex: nat, presentResult: VkResult)
    ensures SubmittedSlots(E.SubmitFrame(f, imageIndex, Success, presentResult).trace) == [f]
  {
    var t := E.SubmitFrame(f, imageIndex, Success, presentResult).trace;
    var first := t[..1];
    assert first == [E.FrameSubmit(f)] && E.FrameSubmit(f).fence == E.InFlight(f);
    assert first[..0] == [];
    assert SubmittedSlots(first) == [f];
    assert !t[1].QueueSubmit? && t[..|t| - 1] == first;
  }

  /**
    A frame that throws no exception submits once, in the current slot, when
    it completes, and not at all when the acquire reported out-of-date.
   */
  lemma FrameSubmissions(e: E.Engine, input: E.FrameInput)
    requires E.Valid(e) && E.DrawFrame(e, input).failure.None?
    ensures SubmittedSlots(E.DrawFrame(e, input).trace) == (if E.Completes(input) then [e.currentFrame] else [])
    ensures E.DrawFrame(e, input).engine.currentFrame
              == (e.currentFrame + |SubmittedSlots(E.DrawFrame(e, input).trace)|) % E.FRAME_COUNT
  {
    var f := e.currentFrame;
    var pre := E.FrameStart(f, E.Wait(e.fences[f], input.gpuDone).1);
    E.FrameAdvance(e, input);
    if E.Completes(input) {
      E.AcquiredFrameTrace(e, input);
      var rec := E.RecordCommandBuffer(e, input.imageIndex, input.beginResult, input.endResult);
      var sub := E.SubmitFrame(f, input.imageIndex, input.submitResult, input.presentResult);
      NoSubmissions(pre);
      NoSubmissions(E.FrameResets(f));
      E.RecordingCalls(e, input.imageIndex, input.beginResult, input.endResult);
      NoSubmissions(rec.trace);
      SubmitSubmitsOnce(f, input.imageIndex, input.presentResult);
      SubmittedSlotsAppend(pre, E.FrameResets(f));
      SubmittedSlotsAppend(pre + E.FrameResets(f), rec.trace);
      SubmittedSlotsAppend(pre + E.FrameResets(f) + rec.trace, sub.trace);
    } else {
      E.OutOfDateAcquireSkipsFrame(e, input);
      E.FrameBegins(e, input);
      NoSubmissions(E.DrawFrame(e, input).trace);
    }
  }

  /**
    An iteration that throws nothing submits at most once, in the current
    slot, and moves the frame index on exactly when it submits.
   */
  lemma IterationSubmissions(e: E.Engine, it: Iteration)
    requires E.Valid(e) && RunIteration(e, it).outcome.failure.None?
    ensures var r := RunIteration(e, it).outcome;
      SlotStep(e.currentFrame, SubmittedSlots(r.trace), r.engine.currentFrame)
  {
    if IterationFlags(e, it).stopRendering {
      StoppedIterationSleeps(e, it);
      NoSubmissions([E.Sleep(STOPPED_SLEEP_MS)]);
    } else {
      RecreatedWhenNoFailure(e, it);
      DrawingSubmissions(e, it);
    }
  }

  /** An iteration that throws nothing and is not stopped has its swapchain. */
  lemma RecreatedWhenNoFailure(e: E.Engine, it: Iteration)
    requires E.Valid(e) && RunIteration(e, it).outcome.failure.None? && !IterationFlags(e, it).stopRendering
    ensures FrameSwapchain(PolledEngine(e, it), it.surface).Ok?
  {
  }

  lemma DrawingSubmissions(e: E.Engine, it: Iteration)
    requires E.Valid(e) && RunIteration(e, it).outcome.failure.None? && !IterationFlags(e, it).stopRendering
    requires FrameSwapchain(PolledEngine(e, it), it.surface).Ok?
    ensures var r := RunIteration(e, it).outcome;
      SlotStep(e.currentFrame, SubmittedSlots(r.trace), r.engine.currentFrame)
  {
    DrawingSlots(e, it);
    FrameSlotStep(FrameEngine(e, it), it.frame);
  }

  /** A frame's submissions and frame index, as one step of the round robin. */
  lemma FrameSlotStep(e: E.Engine, input: E.FrameInput)
    requires E.Valid(e) && E.DrawFrame(e, input).failure.None?
    ensures var o := E.DrawFrame(e, input); SlotStep(e.currentFrame, SubmittedSlots(o.trace), o.engine.currentFrame)
  {
    FrameSubmissions(e, input);
  }

  /** What a drawing iteration submits is what its frame submits. */
  lemma DrawingSlots(e: E.Engine, it: Iteration)
    requires E.Valid(e) && !IterationFlags(e, it).stopRendering && FrameSwapchain(PolledEngine(e, it), it.surface).Ok?
    ensures E.Valid(FrameEngine(e, it))
    ensures var o := E.DrawFrame(FrameEngine(e, it), it.frame); var r := RunIteration(e, it).outcome;
      && SubmittedSlots(r.trace) == SubmittedSlots(o.trace)
      && r.engine.currentFrame == o.engine.currentFrame && r.failure == o.failure
  {
    var e1 := PolledEngine(e, it);
    DrawingIteration(e, it);
    NoSubmissions(RecreateCalls(e1));
    SubmittedSlotsAppend(RecreateCalls(e1), E.DrawFrame(FrameEngine(e, it), it.frame).trace);
  }

  /**
    In a run without an exception the k-th submission uses slot
    `(c + k) % FRAME_COUNT`, where `c` is the slot the run started on, and the
    frame index has moved on once per submission.
   */
  lemma {:induction false} RoundRobin(e: E.Engine, its: seq<Iteration>)
    requires E.Valid(e) && Run(e, its).failure.None?
    decreases |its|
    ensures RoundRobinFrom(e.currentFrame, SubmittedSlots(Run(e, its).trace), Run(e, its).engine.currentFrame)
  {
    if |its| > 0 {
      RunFirstNoFailure(e, its);
      var st := RunIteration(e, its[0]);
      if st.quit {
        RoundRobinQuit(e, its);
      } else {
        RunContinues(e, its);
        RoundRobin(st.outcome.engine, its[1..]);
        RoundRobinContinue(e, its);
      }
    }
  }

  lemma RoundRobinQuit(e: E.Engine, its: seq<Iteration>)
    requires E.Valid(e) && |its| > 0
    requires RunIteration(e, its[0]).outcome.failure.None? && RunIteration(e, its[0]).quit
    ensures RoundRobinFrom(e.currentFrame, SubmittedSlots(Run(e, its).trace), Run(e, its).engine.currentFrame)
  {
    var st := RunIteration(e, its[0]);
    var t := st.outcome.trace;
    IterationSubmissions(e, its[0]);
    RunQuits(e, its);
    SlotsThenShutdown(e.currentFrame, t, st.outcome.engine.currentFrame);
  }

  lemma RoundRobinContinue(e: E.Engine, its: seq<Iteration>)
    requires E.Valid(e) && |its| > 0
    requires RunIteration(e, its[0]).outcome.failure.None? && !RunIteration(e, its[0]).quit
    requires var e1 := RunIteration(e, its[0]).outcome.engine;
      RoundRobinFrom(e1.currentFrame, SubmittedSlots(Run(e1, its[1..]).trace), Run(e1, its[1..]).engine.currentFrame)
    ensures RoundRobinFrom(e.currentFrame, SubmittedSlots(Run(e, its).trace), Run(e, its).engine.currentFrame)
  {
    var st := RunIteration(e, its[0]);
    var t := st.outcome.trace;
    var e1 := st.outcome.engine;
    var rest := Run(e1, its[1..]);
    IterationSubmissions(e, its[0]);
    RunContinues(e, its);
    SlotsThenRest(e.currentFrame, t, e1.currentFrame, rest.trace, rest.engine.currentFrame);
  }

  /** The slot arithmetic of a quitting iteration: the shutdown submits nothing. */
  lemma SlotsThenShutdown(c0: nat, t: seq<E.Event>, c1: nat)
    requires c0 < E.FRAME_COUNT
    requires SlotStep(c0, SubmittedSlots(t), c1)
    ensures RoundRobinFrom(c0, SubmittedSlots(t + Shutdown), c1)
  {
    NoSubmissions(Shutdown);
    SubmittedSlotsAppend(t, Shutdown);
    RoundRobinStep(c0, SubmittedSlots(t), c1, [], c1);
  }

  /** The slot arithmetic of an iteration followed by the rest of the run. */
  lemma SlotsThenRest(c0: nat, t: seq<E.Event>, c1: nat, u: seq<E.Event>, c2: nat)
    requires c0 < E.FRAME_COUNT
    requires SlotStep(c0, SubmittedSlots(t), c1)
    requires RoundRobinFrom(c1, SubmittedSlots(u), c2)
    ensures RoundRobinFrom(c0, SubmittedSlots(t + u), c2)
  {
    SubmittedSlotsAppend(t, u);
    RoundRobinStep(c0, SubmittedSlots(t), c1, SubmittedSlots(u), c2);
  }

  /**
    Starting from slot `c`, the k-th submission of `s` uses slot
    `(c + k) % FRAME_COUNT`, and the frame index ends at `last`, one slot on
    per submission.
   */
  predicate RoundRobinFrom(c: nat, s: seq<nat>, last: nat) {
    && (forall k :: 0 <= k < |s| ==> s[k] == (c + k) % E.FRAME_COUNT)
    && last == (c + |s|) % E.FRAME_COUNT
  }

  /** One iteration's submissions `s`: none or one in slot `c0`, and the frame index moved on to `c1` once per submission. */
  predicate SlotStep(c0: nat, s: seq<nat>, c1: nat) {
    (s == [] || s == [c0]) && c1 == (c0 + |s|) % E.FRAME_COUNT
  }

  /** Slot arithmetic for `RoundRobin`: one iteration's submissions followed by the rest's. */
  lemma RoundRobinStep(c0: nat, s0: seq<nat>, c1: nat, s1: seq<nat>, c2: nat)
    requires c0 < E.FRAME_COUNT
    requires SlotStep(c0, s0, c1)
    requires RoundRobinFrom(c1, s1, c2)
    ensures RoundRobinFrom(c0, s0 + s1, c2)
  {
    forall k | 0 <= k < |s0 + s1|
      ensures (s0 + s1)[k] == (c0 + k) % E.FRAME_COUNT
    {
      if k >= |s0| {
        assert (s0 + s1)[k] == s1[k - |s0|];
      }
    }
  }

  // ---------------------------------------------------------------------------
  // Command buffer lifecycle over the run

  /** The iteration draws a frame that resets `b` while `b`'s previous submission is still pending. */
  predicate IterationResetsPending(e: E.Engine, it: Iteration, b: E.CommandBufferId)
    requires E.Valid(e)
  {
    && !IterationFlags(e, it).stopRendering
    && FrameSwapchain(PolledEngine(e, it), it.surface).Ok?
    && b == E.FrameCommandBuffer(e.currentFrame)
    && E.ResetsPending(FrameEngine(e, it), it.frame)
  }

  /** Some frame of the run, before it throws or exits, resets `b` while it is still pending. */
  predicate RunResetsPending(e: E.Engine, its: seq<Iteration>, b: E.CommandBufferId)
    requires E.Valid(e)
    decreases |its|
  {
    && |its| > 0
    && (|| IterationResetsPending(e, its[0], b)
        || (var st := RunIteration(e, its[0]);
            st.outcome.failure.None? && !st.quit && RunResetsPending(st.outcome.engine, its[1..], b)))
  }

  /**
    An iteration misuses a command buffer exactly when its frame resets the
    buffer while it is still pending; otherwise it keeps the buffer's state
    in agreement with its fence's, and leaves the upload buffer, unless it
    is pending, as it was.
   */
  lemma IterationLifecycle(e: E.Engine, it: Iteration, b: E.CommandBufferId, s: E.BufferState)
    requires E.Valid(e) && E.Tracked(e, b, s)
    ensures var st := RunIteration(e, it); var l := E.Lifecycle(b, s, st.outcome.trace);
      && (l.None? <==> IterationResetsPending(e, it, b))
      && (l.Some? && st.outcome.failure.None? ==> E.Tracked(st.outcome.engine, b, l.value))
      && (b == E.UploadCommandBuffer && !s.PendingOn? ==> l == Some(s))
  {
    var e1 := PolledEngine(e, it);
    if IterationFlags(e, it).stopRendering {
      E.LifecycleSingle(b, s, E.Sleep(STOPPED_SLEEP_MS));
    } else if FrameSwapchain(e1, it.surface).Err? {
      E.LifecycleSingle(b, s, E.RecreateSwapchain);
    } else {
      var e2 := FrameEngine(e, it);
      var s1 := if e1.framebufferResized then E.Completed(s) else s;
      DrawingIteration(e, it);
      if e1.framebufferResized {
        E.IdleTracked(e1, b, s);
        E.LifecycleSingle(b, s, E.RecreateSwapchain);
      }
      assert E.Tracked(e2, b, s1);
      assert E.Lifecycle(b, s, RecreateCalls(e1)) == Some(s1);
      E.FrameLifecycle(e2, it.frame, b, s1);
      E.LifecycleAppend(b, s, RecreateCalls(e1), E.DrawFrame(e2, it.frame).trace);
    }
  }

  /** The shutdown is never a misuse: waiting for the device to go idle finishes every pending buffer. */
  lemma ShutdownLifecycle(b: E.CommandBufferId, s: E.BufferState)
    ensures E.Lifecycle(b, s, Shutdown) == Some(E.Completed(s))
  {
    E.LifecycleSingle(b, s, E.DeviceWaitIdle);
    E.LifecycleSnoc(b, s, [E.DeviceWaitIdle], E.Cleanup);
    assert Shutdown == [E.DeviceWaitIdle] + [E.Cleanup];
  }

  /**
    A run misuses a command buffer exactly when one of its frames resets
    the buffer while the buffer's previous submission is still pending (the
    one-second wait timed out on a pending fence and the acquire succeeded);
    no other begin, record, end, submit or reset of a run is ever a misuse.
    A run leaves the upload buffer, unless it is pending, as it was.
   */
  lemma {:induction false} RunLifecycle(e: E.Engine, its: seq<Iteration>, b: E.CommandBufferId, s: E.BufferState)
    requires E.Valid(e) && E.Tracked(e, b, s)
    decreases |its|
    ensures E.Lifecycle(b, s, Run(e, its).trace).None? <==> RunResetsPending(e, its, b)
    ensures b == E.UploadCommandBuffer && !s.PendingOn? ==> E.Lifecycle(b, s, Run(e, its).trace) == Some(s)
  {
    if |its| > 0 {
      var st := RunIteration(e, its[0]);
      var t := st.outcome.trace;
      IterationLifecycle(e, its[0], b, s);
      if E.Lifecycle(b, s, t).None? {
        if st.outcome.failure.None? {
          if st.quit {
            E.LifecycleAppend(b, s, t, Shutdown);
          } else {
            E.LifecycleAppend(b, s, t, Run(st.outcome.engine, its[1..]).trace);
          }
        }
      } else {
        var s1 := E.Lifecycle(b, s, t).value;
        if st.outcome.failure.None? {
          if st.quit {
            ShutdownLifecycle(b, s1);
            E.LifecycleAppend(b, s, t, Shutdown);
          } else {
            RunLifecycle(st.outcome.engine, its[1..], b, s1);
            E.LifecycleAppend(b, s, t, Run(st.outcome.engine, its[1..]).trace);
          }
        }
      }
    }
  }

  /**
    From a new engine, whose command buffers are all initial, a run misuses
    one of them exactly when one of its frames resets it while it is still
    pending.
   */
  lemma NewEngineRunLifecycle(swapchain: Sc.Swapchain, pipeline: nat, pipelineLayout: nat, mesh: E.Mesh,
                              its: seq<Iteration>, b: E.CommandBufferId)
    requires b.FrameCommandBuffer? ==> b.slot < E.FRAME_COUNT
    ensures var e := E.NewEngine(swapchain, pipeline, pipelineLayout, mesh);
      E.Lifecycle(b, E.Initial, Run(e, its).trace).None? <==> RunResetsPending(e, its, b)
  {
    E.NewEngineTracked(swapchain, pipeline, pipelineLayout, mesh, b);
    RunLifecycle(E.NewEngine(swapchain, pipeline, pipelineLayout, mesh), its, b, E.Initial);
  }
}
