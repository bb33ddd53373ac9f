/**
  The frame loop of `src/engine/engine.cpp`: the per-frame resources indexed
  by the frame slot, `drawFrame` (fence wait, image acquisition, command
  recording, submission, presentation), `immediateSubmit`, and the basic
  pipeline `initPipelines` builds.

  The device is observed through the calls the engine makes, recorded as a
  trace of events, and through the host-visible state of its fences. What
  the device answers (acquire, begin, end, submit and present results, and
  whether the GPU finishes a submission before a fence wait gives up) is an
  input of each operation.
 */
module Engine {
  import opened Common
  import opened Types
  import Sc = Swapchain
  import PB = PipelineBuilder

  /** `FRAME_COUNT`: frames in flight, each with its own slot of resources. */
  const FRAME_COUNT: nat := 2
  /** Timeout of the in-flight fence wait in `drawFrame`, in nanoseconds. */
  const FRAME_FENCE_TIMEOUT: nat := 1_000_000_000
  /** Timeout of the upload fence wait in `immediateSubmit`, in nanoseconds. */
  const UPLOAD_FENCE_TIMEOUT: nat := 9_999_999_999
  /** `VK_CULL_MODE_BACK_BIT` */
  const CULL_MODE_BACK: nat := 2

  // ---------------------------------------------------------------------------
  // Objects and calls

  /** The fence of frame slot `slot`, or the upload context's fence. */
  datatype FenceId = InFlight(slot: nat) | UploadFence
  datatype SemaphoreId = ImageAvailable(slot: nat) | RenderFinished(slot: nat)
  /** The command buffer of frame slot `slot`, or the upload context's. */
  datatype CommandBufferId = FrameCommandBuffer(slot: nat) | UploadCommandBuffer
  datatype Queue = GraphicsQueue | PresentQueue
  datatype PipelineStage = ColorAttachmentOutput

  /** `VkSubmitInfo` */
  datatype SubmitInfo = SubmitInfo(
    waitSemaphores: seq<SemaphoreId>,
    waitStages: seq<PipelineStage>,
    commandBuffers: seq<CommandBufferId>,
    signalSemaphores: seq<SemaphoreId>)

  /**
    Host-visible state of a fence. `Pending`: a submission that will signal
    it has been made and the GPU has not finished it yet.
   */
  datatype FenceState = Unsignaled | Pending | Signaled

  /** What `vkWaitForFences` returns: `VK_SUCCESS` or `VK_TIMEOUT`. */
  datatype WaitResult = WaitSuccess | WaitTimeout

  /** Commands recorded into a command buffer. */
  datatype Command =
    | BeginRenderPass(renderPass: nat, framebuffer: nat, renderArea: Extent, clearValueCount: nat)
    | BindPipeline(pipeline: nat)
    | SetViewport(width: u32, height: u32)
    | SetScissor(extent: Extent)
    | BindVertexBuffers(buffer: nat)
    | BindIndexBuffer(buffer: nat)
    | BindDescriptorSets(layout: nat, slot: nat)
    | DrawIndexed(indexCount: nat, instanceCount: nat)
    | EndRenderPass
    | CopyBuffer(source: nat, destination: nat, size: nat)

  /** The calls the engine makes, in the order it makes them. */
  datatype Event =
    | WaitForFence(fence: FenceId, timeout: nat, result: WaitResult)
    | AcquireNextImage(signal: SemaphoreId)
    | ResetFence(fence: FenceId)
    | ResetCommandBuffer(buffer: CommandBufferId)
    | UpdateUniformBuffer(slot: nat)
    | BeginCommandBuffer(buffer: CommandBufferId, oneTimeSubmit: bool)
    | Record(buffer: CommandBufferId, command: Command)
    | EndCommandBuffer(buffer: CommandBufferId)
    | QueueSubmit(queue: Queue, submit: SubmitInfo, fence: FenceId)
    | QueuePresent(queue: Queue, waitSemaphores: seq<SemaphoreId>, imageIndex: nat)
    | ResetCommandPool
    | RecreateSwapchain
    | Sleep(milliseconds: nat)
    | DeviceWaitIdle
    | Cleanup

  // ---------------------------------------------------------------------------
  // Engine state

  /** The mesh that is drawn: its buffers and its index count. */
  datatype Mesh = Mesh(vertexBuffer: nat, indexBuffer: nat, indexCount: nat)

  /** The members of `Engine` that the frame loop reads or writes. */
  datatype Engine = Engine(
    currentFrame: nat,
    framebufferResized: bool,
    stopRendering: bool,
    fences: seq<FenceState>,
    uploadFence: FenceState,
    swapchain: Sc.Swapchain,
    pipeline: nat,
    pipelineLayout: nat,
    mesh: Mesh)

  /** The frame index names a slot and there is one fence per slot. */
  predicate Valid(e: Engine) {
    e.currentFrame < FRAME_COUNT && |e.fences| == FRAME_COUNT
  }

  /**
    The engine after construction: frame 0, both flags clear, and every fence
    created without `VK_FENCE_CREATE_SIGNALED_BIT`.
   */
  function NewEngine(swapchain: Sc.Swapchain, pipeline: nat, pipelineLayout: nat, mesh: Mesh): (e: Engine)
    ensures Valid(e) && e.currentFrame == 0
    ensures !e.framebufferResized && !e.stopRendering
    ensures forall k :: 0 <= k < FRAME_COUNT ==> e.fences[k] == Unsignaled
    ensures e.uploadFence == Unsignaled
  {
    Engine(0, false, false, [Unsignaled, Unsignaled], Unsignaled, swapchain, pipeline, pipelineLayout, mesh)
  }

  /**
    `vkWaitForFences` on one fence. A pending fence is signalled if the GPU
    finishes within the timeout (`gpuDone`); an unsignalled fence with
    nothing pending on it can only time out.
   */
  function Wait(s: FenceState, gpuDone: bool): (r: (FenceState, WaitResult))
    ensures r.1 == WaitSuccess <==> r.0 == Signaled
    ensures s == Unsignaled ==> r == (Unsignaled, WaitTimeout)
    ensures s == Signaled ==> r == (Signaled, WaitSuccess)
    ensures s == Pending ==> (r.1 == WaitSuccess <==> gpuDone)
  {
    match s
    case Signaled => (Signaled, WaitSuccess)
    case Pending => if gpuDone then (Signaled, WaitSuccess) else (Pending, WaitTimeout)
    case Unsignaled => (Unsignaled, WaitTimeout)
  }

  /** A fence once every submission has finished: a pending fence is signalled. */
  function Settle(s: FenceState): (r: FenceState)
    ensures r != Pending
    ensures s != Pending ==> r == s
  {
    if s == Pending then Signaled else s
  }

  /**
    The engine after `vkDeviceWaitIdle`: every submission has finished, so
    no fence is pending any more and a pending fence is now signalled;
    nothing else changes.
   */
  function DeviceIdle(e: Engine): (r: Engine)
    requires Valid(e)
    ensures Valid(r)
    ensures r == e.(fences := r.fences, uploadFence := r.uploadFence)
    ensures forall k :: 0 <= k < FRAME_COUNT ==> r.fences[k] == Settle(e.fences[k])
    ensures r.uploadFence == Settle(e.uploadFence)
  {
    e.(fences := [Settle(e.fences[0]), Settle(e.fences[1])], uploadFence := Settle(e.uploadFence))
  }

  /** The result of a step: the new state, the calls made, and the exception thrown, if any. */
  datatype Outcome = Outcome(engine: Engine, trace: seq<Event>, failure: Option<Error>)

  /** What the device answers during one `drawFrame`. */
  datatype FrameInput = FrameInput(
    gpuDone: bool,
    acquireResult: VkResult,
    imageIndex: nat,
    beginResult: VkResult,
    endResult: VkResult,
    submitResult: VkResult,
    presentResult: VkResult)

  // ---------------------------------------------------------------------------
  // recordCommandBuffer

  /** `n` recording calls on `buffer`, one per command. */
  function RecordAll(buffer: CommandBufferId, commands: seq<Command>): (t: seq<Event>)
    ensures |t| == |commands|
    ensures forall i :: 0 <= i < |t| ==> t[i] == Record(buffer, commands[i])
  {
    if |commands| == 0 then [] else [Record(buffer, commands[0])] + RecordAll(buffer, commands[1..])
  }

  /** The commands `recordCommandBuffer` records for swapchain image `imageIndex`. */
  function FrameCommands(e: Engine, imageIndex: nat): seq<Command> {
    var extent := e.swapchain.settings.extent;
    [ BeginRenderPass(e.swapchain.renderPass.handle, imageIndex, extent, 1),
      BindPipeline(e.pipeline),
      SetViewport(extent.width, extent.height),
      SetScissor(extent),
      BindVertexBuffers(e.mesh.vertexBuffer),
      BindIndexBuffer(e.mesh.indexBuffer),
      BindDescriptorSets(e.pipelineLayout, e.currentFrame),
      DrawIndexed(e.mesh.indexCount, 1),
      EndRenderPass ]
  }

  /** `c` is preceded in `cmds`, before position `i`, by exactly the command `d`. */
  predicate Precedes(cmds: seq<Command>, d: Command, i: nat)
    requires i <= |cmds|
  {
    exists j :: 0 <= j < i && cmds[j] == d
  }

  /** `c` sets the dynamic pipeline state `ds`. */
  predicate SetsDynamicState(c: Command, ds: PB.DynamicState) {
    match ds
    case Viewport => c.SetViewport?
    case Scissor => c.SetScissor?
  }

  /** Some command of `cmds` before position `i` sets `ds`. */
  predicate DynamicStateSetBefore(cmds: seq<Command>, ds: PB.DynamicState, i: nat)
    requires i <= |cmds|
  {
    exists j :: 0 <= j < i && SetsDynamicState(cmds[j], ds)
  }

  /**
    A well-formed draw: every draw lies inside a render pass that is ended
    afterwards, and is preceded by the pipeline, both dynamic states, both
    mesh buffers and the descriptor set of `slot`.
   */
  predicate DrawReady(cmds: seq<Command>, pipeline: nat, layout: nat, slot: nat, extent: Extent) {
    forall i :: 0 <= i < |cmds| && cmds[i].DrawIndexed? ==>
      && (exists b :: 0 <= b < i && cmds[b].BeginRenderPass? && cmds[b].renderArea == extent)
      && (exists k :: i < k < |cmds| && cmds[k] == EndRenderPass)
      && Precedes(cmds, BindPipeline(pipeline), i)
      && Precedes(cmds, SetViewport(extent.width, extent.height), i)
      && Precedes(cmds, SetScissor(extent), i)
      && Precedes(cmds, BindDescriptorSets(layout, slot), i)
      && (exists j :: 0 <= j < i && cmds[j].BindVertexBuffers?)
      && (exists j :: 0 <= j < i && cmds[j].BindIndexBuffer?)
  }

  /** The recorded commands draw exactly once, and the draw is well formed. */
  lemma FrameCommandsDrawReady(e: Engine, imageIndex: nat)
    ensures var cmds := FrameCommands(e, imageIndex);
      && DrawReady(cmds, e.pipeline, e.pipelineLayout, e.currentFrame, e.swapchain.settings.extent)
      && (forall i :: 0 <= i < |cmds| && cmds[i].DrawIndexed? ==> i == 7)
      && cmds[7] == DrawIndexed(e.mesh.indexCount, 1)
      && cmds[0].framebuffer == imageIndex
  {
    var cmds := FrameCommands(e, imageIndex);
    var extent := e.swapchain.settings.extent;
    forall i | 0 <= i < |cmds| && cmds[i].DrawIndexed?
      ensures i == 7
    {
    }
    assert cmds[0].BeginRenderPass? && cmds[0].renderArea == extent;
    assert cmds[8] == EndRenderPass;
    assert cmds[1] == BindPipeline(e.pipeline);
    assert cmds[2] == SetViewport(extent.width, extent.height);
    assert cmds[3] == SetScissor(extent);
    assert cmds[4].BindVertexBuffers? && cmds[5].BindIndexBuffer?;
    assert cmds[6] == BindDescriptorSets(e.pipelineLayout, e.currentFrame);
  }

  /** A recording: the calls made and the exception thrown, if any. */
  datatype Recorded = Recorded(trace: seq<Event>, failure: Option<Error>)

  /**
    `recordCommandBuffer` on the command buffer of the current slot: begin
    (no flags), the frame's commands, end. Failing to begin or to end throws.
   */
  function RecordCommandBuffer(e: Engine, imageIndex: nat, beginResult: VkResult, endResult: VkResult): (r: Recorded)
    ensures r.failure.None? <==> beginResult == Success && endResult == Success
    ensures beginResult != Success ==> r.failure == Some(BeginCommandBufferFailed)
    ensures beginResult == Success && endResult != Success ==> r.failure == Some(EndCommandBufferFailed)
    ensures |r.trace| > 0 && r.trace[0] == BeginCommandBuffer(FrameCommandBuffer(e.currentFrame), false)
    ensures beginResult == Success ==>
      && |r.trace| == |FrameCommands(e, imageIndex)| + 2
      && r.trace[1..|r.trace| - 1] == RecordAll(FrameCommandBuffer(e.currentFrame), FrameCommands(e, imageIndex))
      && r.trace[|r.trace| - 1] == EndCommandBuffer(FrameCommandBuffer(e.currentFrame))
  {
    var buffer := FrameCommandBuffer(e.currentFrame);
    var begin := [BeginCommandBuffer(buffer, false)];
    if beginResult != Success then Recorded(begin, Some(BeginCommandBufferFailed))
    else
      var t := begin + RecordAll(buffer, FrameCommands(e, imageIndex)) + [EndCommandBuffer(buffer)];
      assert t[1..|t| - 1] == RecordAll(buffer, FrameCommands(e, imageIndex));
      if endResult != Success then Recorded(t, Some(EndCommandBufferFailed)) else Recorded(t, None)
  }

  /** Recording calls only begin, record into and end the slot's command buffer. */
  lemma RecordingCalls(e: Engine, imageIndex: nat, beginResult: VkResult, endResult: VkResult)
    ensures var t := RecordCommandBuffer(e, imageIndex, beginResult, endResult).trace;
      forall i :: 0 <= i < |t| ==> t[i].BeginCommandBuffer? || t[i].Record? || t[i].EndCommandBuffer?
  {
    var t := RecordCommandBuffer(e, imageIndex, beginResult, endResult).trace;
    forall i | 0 < i < |t| - 1
      ensures t[i].Record?
    {
      assert t[i] == t[1..|t| - 1][i - 1];
    }
  }

  // ---------------------------------------------------------------------------
  // submitFrame

  /** A submission: the calls made, and the present result or the exception. */
  datatype Submission = Submission(trace: seq<Event>, result: Result<VkResult>)

  /** The submit `submitFrame` makes for `slot`. */
  function FrameSubmit(slot: nat): Event {
    QueueSubmit(GraphicsQueue,
                SubmitInfo([ImageAvailable(slot)], [ColorAttachmentOutput], [FrameCommandBuffer(slot)], [RenderFinished(slot)]),
                InFlight(slot))
  }

  /**
    `submitFrame`: submit the slot's command buffer to the graphics queue,
    then present `imageIndex`; a failed submit throws, the present result is
    returned to the caller.
   */
  function SubmitFrame(slot: nat, imageIndex: nat, submitResult: VkResult, presentResult: VkResult): (r: Submission)
    ensures r.result.Ok? <==> submitResult == Success
    ensures r.result.Err? ==> r.result.error == SubmitFailed && r.trace == [FrameSubmit(slot)]
    ensures r.result.Ok? ==> r.result.value == presentResult && |r.trace| == 2 && r.trace[0] == FrameSubmit(slot)
    ensures r.result.Ok? ==>
      && r.trace[1].QueuePresent? && r.trace[1].queue == PresentQueue
      && r.trace[1].waitSemaphores == r.trace[0].submit.signalSemaphores
      && r.trace[1].imageIndex == imageIndex
  {
    var submit := FrameSubmit(slot);
    if submitResult != Success then Submission([submit], Err(SubmitFailed))
    else Submission([submit, QueuePresent(PresentQueue, [RenderFinished(slot)], imageIndex)], Ok(presentResult))
  }

  // ---------------------------------------------------------------------------
  // drawFrame

  /** The acquire call succeeded (`VK_SUCCESS` or `VK_SUBOPTIMAL_KHR`). */
  predicate Acquired(input: FrameInput) {
    input.acquireResult == Success || input.acquireResult == Suboptimal
  }

  /** Every device call of the frame succeeded and presentation did not report an error other than out-of-date. */
  predicate Completes(input: FrameInput) {
    && Acquired(input)
    && input.beginResult == Success && input.endResult == Success && input.submitResult == Success
    && (input.presentResult == Success || input.presentResult == OutOfDate)
  }

  /**
    `drawFrame`: wait on the slot's fence (the result is ignored), acquire an
    image; on out-of-date mark the framebuffer resized and return; otherwise
    reset the fence and command buffer, update the uniform buffer, record,
    submit and present, and move to the next slot.
   */
  function DrawFrame(e: Engine, input: FrameInput): (o: Outcome)
    requires Valid(e)
    ensures Valid(o.engine)
  {
    var f := e.currentFrame;
    var waited := Wait(e.fences[f], input.gpuDone);
    var e1 := e.(fences := e.fences[f := waited.0]);
    var t1 := FrameStart(f, waited.1);
    if input.acquireResult == OutOfDate then Outcome(e1.(framebufferResized := true), t1, None)
    else if !Acquired(input) then Outcome(e1, t1, Some(AcquireFailed))
    else RenderAcquired(e1.(fences := e1.fences[f := Unsignaled]), input, t1 + FrameResets(f))
  }

  /** The wait on the slot's fence and the image acquisition. */
  function FrameStart(f: nat, waited: WaitResult): seq<Event> {
    [WaitForFence(InFlight(f), FRAME_FENCE_TIMEOUT, waited), AcquireNextImage(ImageAvailable(f))]
  }

  /** The resets and the uniform update between acquisition and recording. */
  function FrameResets(f: nat): seq<Event> {
    [ResetFence(InFlight(f)), ResetCommandBuffer(FrameCommandBuffer(f)), UpdateUniformBuffer(f)]
  }

  /** The part of `drawFrame` after the fence and command buffer are reset, appending to `prefix`. */
  function RenderAcquired(e: Engine, input: FrameInput, prefix: seq<Event>): (o: Outcome)
    requires Valid(e)
    ensures Valid(o.engine)
    ensures var rec := RecordCommandBuffer(e, input.imageIndex, input.beginResult, input.endResult);
      o.trace == prefix + rec.trace
                 + (if rec.failure.None? then SubmitFrame(e.currentFrame, input.imageIndex, input.submitResult, input.presentResult).trace else [])
  {
    var f := e.currentFrame;
    var rec := RecordCommandBuffer(e, input.imageIndex, input.beginResult, input.endResult);
    if rec.failure.Some? then
      assert prefix + rec.trace == prefix + rec.trace + [];
      Outcome(e, prefix + rec.trace, rec.failure)
    else
      var sub := SubmitFrame(f, input.imageIndex, input.submitResult, input.presentResult);
      var t := prefix + rec.trace + sub.trace;
      if sub.result.Err? then Outcome(e, t, Some(sub.result.error))
      else
        var e1 := e.(fences := e.fences[f := Pending]);
        if sub.result.value == OutOfDate then
          Outcome(e1.(framebufferResized := true, currentFrame := (f + 1) % FRAME_COUNT), t, None)
        else if sub.result.value != Success then Outcome(e1, t, Some(PresentFailed))
        else Outcome(e1.(currentFrame := (f + 1) % FRAME_COUNT), t, None)
  }

  // ---------------------------------------------------------------------------
  // Properties of drawFrame

  /** The calls of `drawFrame` after a successful acquire. */
  function AcquiredRest(e: Engine, input: FrameInput): seq<Event>
    requires Valid(e)
  {
    var rec := RecordCommandBuffer(e, input.imageIndex, input.beginResult, input.endResult);
    FrameResets(e.currentFrame) + rec.trace
      + (if rec.failure.None? then SubmitFrame(e.currentFrame, input.imageIndex, input.submitResult, input.presentResult).trace else [])
  }

  /**
    The calls of a frame whose acquire succeeded: wait and acquire, the
    resets, the recording, and, when recording succeeded, submit and present.
   */

  lemma AcquiredFrameTrace(e: Engine, input: FrameInput)
    requires Valid(e) && Acquired(input)
    ensures var f := e.currentFrame;
      var rec := RecordCommandBuffer(e, input.imageIndex, input.beginResult, input.endResult);
      && DrawFrame(e, input).trace == FrameStart(f, Wait(e.fences[f], input.gpuDone).1) + AcquiredRest(e, input)
      && AcquiredRest(e, input) == FrameResets(f) + rec.trace
           + (if rec.failure.None? then SubmitFrame(f, input.imageIndex, input.submitResult, input.presentResult).trace else [])
  {
    var f := e.currentFrame;
    RecordingIgnoresFences(e, e.fences[f := Wait(e.fences[f], input.gpuDone).0][f := Unsignaled],
                           input.imageIndex, input.beginResult, input.endResult);
  }

  /** The recording does not depend on the fences. */
  lemma RecordingIgnoresFences(e: Engine, fences: seq<FenceState>, imageIndex: nat, beginResult: VkResult, endResult: VkResult)
    ensures RecordCommandBuffer(e.(fences := fences), imageIndex, beginResult, endResult)
         == RecordCommandBuffer(e, imageIndex, beginResult, endResult)
  {
    assert FrameCommands(e.(fences := fences), imageIndex) == FrameCommands(e, imageIndex);
  }

  /**
    `drawFrame` changes only the frame index, the fence of the current slot
    and the resize flag, which it may set but never clears.
   */
  lemma FrameKeeps(e: Engine, input: FrameInput)
    requires Valid(e)
    ensures var o := DrawFrame(e, input);
      && o.engine == e.(currentFrame := o.engine.currentFrame, fences := o.engine.fences,
                        framebufferResized := o.engine.framebufferResized)
      && (forall k :: 0 <= k < FRAME_COUNT && k != e.currentFrame ==> o.engine.fences[k] == e.fences[k])
      && (e.framebufferResized ==> o.engine.framebufferResized)
  {
    var f := e.currentFrame;
    if Acquired(input) {
      var e1 := e.(fences := e.fences[f := Wait(e.fences[f], input.gpuDone).0][f := Unsignaled]);
      RenderKeeps(e1, input, FrameStart(f, Wait(e.fences[f], input.gpuDone).1) + FrameResets(f));
    }
  }

  /** After the acquire, only the frame index, the slot's fence and the resize flag change. */
  lemma RenderKeeps(e: Engine, input: FrameInput, prefix: seq<Event>)
    requires Valid(e)
    ensures var o := RenderAcquired(e, input, prefix);
      && o.engine == e.(currentFrame := o.engine.currentFrame, fences := e.fences[e.currentFrame := o.engine.fences[e.currentFrame]],
                        framebufferResized := o.engine.framebufferResized)
      && (e.framebufferResized ==> o.engine.framebufferResized)
  {
  }

  /** `drawFrame` always starts by waiting on the slot's fence and acquiring with the slot's semaphore. */
  lemma FrameBegins(e: Engine, input: FrameInput)
    requires Valid(e)
    ensures var t := DrawFrame(e, input).trace;
      && |t| >= 2
      && t[0] == WaitForFence(InFlight(e.currentFrame), FRAME_FENCE_TIMEOUT, Wait(e.fences[e.currentFrame], input.gpuDone).1)
      && t[1] == AcquireNextImage(ImageAvailable(e.currentFrame))
  {
    var f := e.currentFrame;
    var start := FrameStart(f, Wait(e.fences[f], input.gpuDone).1);
    if Acquired(input) {
      AcquiredFrameTrace(e, input);
      assert DrawFrame(e, input).trace[..2] == start;
    } else {
      assert DrawFrame(e, input).trace == start;
    }
  }

  /**
    The frame index moves to the next slot exactly when the frame reached
    presentation without an exception; a frame ends without an exception
    exactly when the acquire reported out-of-date or the frame completed.
   */
  lemma FrameAdvance(e: Engine, input: FrameInput)
    requires Valid(e)
    ensures var o := DrawFrame(e, input);
      && (o.failure.None? <==> input.acquireResult == OutOfDate || Completes(input))
      && (o.engine.currentFrame == (e.currentFrame + 1) % FRAME_COUNT <==> Completes(input))
      && (!Completes(input) ==> o.engine.currentFrame == e.currentFrame)
  {
  }

  /** Which exception `drawFrame` throws for each failing call. */
  lemma FrameErrors(e: Engine, input: FrameInput)
    requires Valid(e)
    ensures var o := DrawFrame(e, input);
      && (input.acquireResult == OtherFailure ==> o.failure == Some(AcquireFailed))
      && (Acquired(input) && input.beginResult != Success ==> o.failure == Some(BeginCommandBufferFailed))
      && (Acquired(input) && input.beginResult == Success && input.endResult != Success ==>
            o.failure == Some(EndCommandBufferFailed))
      && (Acquired(input) && input.beginResult == Success && input.endResult == Success && input.submitResult != Success ==>
            o.failure == Some(SubmitFailed))
      && ((Acquired(input) && input.beginResult == Success && input.endResult == Success && input.submitResult == Success &&
           input.presentResult != Success && input.presentResult != OutOfDate) ==> o.failure == Some(PresentFailed))
  {
  }

  /**
    An out-of-date acquire marks the framebuffer resized and stops the frame
    right after the acquire: the fence is waited on but not reset (so a
    fence the GPU has finished stays signalled for the next wait), nothing
    is recorded, submitted or presented, and the slot is kept.
   */
  lemma OutOfDateAcquireSkipsFrame(e: Engine, input: FrameInput)
    requires Valid(e) && input.acquireResult == OutOfDate
    ensures var o := DrawFrame(e, input); var f := e.currentFrame;
      && o.failure.None? && o.engine.framebufferResized
      && o.engine.currentFrame == f
      && |o.trace| == 2
      && (o.engine.fences[f] == Unsignaled <==> e.fences[f] == Unsignaled)
      && (e.fences[f] == Pending && input.gpuDone ==> o.engine.fences[f] == Signaled)
  {
  }

  /**
    A completed frame leaves the slot's fence pending on its submission and
    marks the framebuffer resized exactly when it was already marked or the
    present reported out-of-date.
   */
  lemma CompletedFrameState(e: Engine, input: FrameInput)
    requires Valid(e) && Completes(input)
    ensures var o := DrawFrame(e, input);
      && o.engine.fences[e.currentFrame] == Pending
      && (o.engine.framebufferResized <==> e.framebufferResized || input.presentResult == OutOfDate)
  {
  }

  /**
    The order of calls in a completed frame: wait, acquire, reset the fence,
    reset the command buffer, update the uniform buffer, begin, the recorded
    commands, end, submit, present, each on the current slot's objects.
   */
  lemma CompletedFrameOrder(e: Engine, input: FrameInput)
    requires Valid(e) && Completes(input)
    ensures var o := DrawFrame(e, input); var f := e.currentFrame; var t := o.trace;
      var cmds := FrameCommands(e, input.imageIndex);
      && |t| == 9 + |cmds|
      && t[2] == ResetFence(InFlight(f))
      && t[3] == ResetCommandBuffer(FrameCommandBuffer(f))
      && t[4] == UpdateUniformBuffer(f)
      && t[5] == BeginCommandBuffer(FrameCommandBuffer(f), false)
      && (forall i :: 0 <= i < |cmds| ==> t[6 + i] == Record(FrameCommandBuffer(f), cmds[i]))
      && t[|t| - 3] == EndCommandBuffer(FrameCommandBuffer(f))
      && t[|t| - 2] == FrameSubmit(f)
      && t[|t| - 1] == QueuePresent(PresentQueue, [RenderFinished(f)], input.imageIndex)
  {
    var f := e.currentFrame;
    AcquiredFrameTrace(e, input);
    var rec := RecordCommandBuffer(e, input.imageIndex, input.beginResult, input.endResult);
    var sub := SubmitFrame(f, input.imageIndex, input.submitResult, input.presentResult);
    var pre := FrameStart(f, Wait(e.fences[f], input.gpuDone).1) + FrameResets(f);
    var t := DrawFrame(e, input).trace;
    assert t == pre + rec.trace + sub.trace;
    var cmds := FrameCommands(e, input.imageIndex);
    var body := rec.trace[1..|rec.trace| - 1];
    assert |pre| == 5;
    assert t[2] == pre[2] && t[3] == pre[3] && t[4] == pre[4];
    assert t[5] == rec.trace[0];
    forall i | 0 <= i < |cmds|
      ensures t[6 + i] == Record(FrameCommandBuffer(f), cmds[i])
    {
      assert t[6 + i] == rec.trace[1 + i];
      assert body[i] == rec.trace[1 + i];
    }
    assert t[|t| - 3] == rec.trace[|rec.trace| - 1];
    assert t[|t| - 2] == sub.trace[0];
    assert t[|t| - 1] == sub.trace[1];
  }

  /**
    The semaphore chain of a frame that reaches presentation: the submit
    waits, at the colour-attachment-output stage, on the semaphore the
    acquire signals, and signals the semaphore the present waits on; the
    submit carries the fence that was waited on and the present the image
    that was acquired.
   */
  lemma SemaphoreChain(e: Engine, input: FrameInput)
    requires Valid(e) && Completes(input)
    ensures var t := DrawFrame(e, input).trace;
      var submit := t[|t| - 2]; var present := t[|t| - 1];
      && submit.QueueSubmit? && present.QueuePresent?
      && submit.queue == GraphicsQueue && present.queue == PresentQueue
      && submit.submit.waitSemaphores == [t[1].signal]
      && submit.submit.waitStages == [ColorAttachmentOutput]
      && submit.submit.commandBuffers == [t[5].buffer]
      && present.waitSemaphores == submit.submit.signalSemaphores
      && t[1].signal !in submit.submit.signalSemaphores
      && submit.fence == t[0].fence
      && present.imageIndex == input.imageIndex
  {
    CompletedFrameOrder(e, input);
  }

  /**
    The frame resets the slot's fence and command buffer while the slot's
    previous submission is still pending: the acquire succeeded after the
    one-second wait timed out on a pending fence.
   */
  predicate ResetsPending(e: Engine, input: FrameInput)
    requires Valid(e)
  {
    Acquired(input) && e.fences[e.currentFrame] == Pending && !input.gpuDone
  }

  /**
    The fence is reset while a submission is still pending on it exactly
    when the one-second wait reported a timeout on a pending fence and the
    acquire succeeded: the wait's result is ignored.
   */
  lemma ResetWhilePending(e: Engine, input: FrameInput)
    requires Valid(e)
    ensures var f := e.currentFrame; var t := DrawFrame(e, input).trace;
      ResetsPending(e, input)
      <==> (Acquired(input) && e.fences[f] == Pending && t[0].result == WaitTimeout
            && t[2] == ResetFence(InFlight(f)))
  {
    FrameBegins(e, input);
    if Acquired(input) {
      AcquiredFrameTrace(e, input);
      var f := e.currentFrame;
      var pre := FrameStart(f, Wait(e.fences[f], input.gpuDone).1);
      var rest := AcquiredRest(e, input);
      assert DrawFrame(e, input).trace[2] == rest[0];
    }
  }

  /**
    The fences are created unsignalled, so the first wait on each slot
    cannot succeed: it always runs into the one-second timeout, whatever the
    GPU does.
   */
  lemma FirstWaitsTimeOut(swapchain: Sc.Swapchain, pipeline: nat, layout: nat, mesh: Mesh, first: FrameInput, second: FrameInput)
    ensures var e := NewEngine(swapchain, pipeline, layout, mesh);
      var o := DrawFrame(e, first);
      && o.trace[0] == WaitForFence(InFlight(0), FRAME_FENCE_TIMEOUT, WaitTimeout)
      && (o.failure.None? ==> DrawFrame(o.engine, second).trace[0].result == WaitTimeout)
  {
    var e := NewEngine(swapchain, pipeline, layout, mesh);
    var o := DrawFrame(e, first);
    FrameBegins(e, first);
    if o.failure.None? {
      NextSlotUnsignaled(e, first);
      FrameBegins(o.engine, second);
    }
  }

  /** While no fence has been submitted, the slot of the next frame still has an unsignalled fence. */
  lemma NextSlotUnsignaled(e: Engine, input: FrameInput)
    requires Valid(e) && forall k :: 0 <= k < FRAME_COUNT ==> e.fences[k] == Unsignaled
    requires DrawFrame(e, input).failure.None?
    ensures var o := DrawFrame(e, input); o.engine.fences[o.engine.currentFrame] == Unsignaled
  {
    FrameAdvance(e, input);
    if Completes(input) {
      FrameKeeps(e, input);
    } else {
      OutOfDateAcquireSkipsFrame(e, input);
    }
  }

  // ---------------------------------------------------------------------------
  // Per-slot resources

  function FenceSlots(x: FenceId): set<nat> {
    if x.InFlight? then {x.slot} else {}
  }

  function BufferSlots(b: CommandBufferId): set<nat> {
    if b.FrameCommandBuffer? then {b.slot} else {}
  }

  function SemaphoreSlots(s: seq<SemaphoreId>): set<nat> {
    set i | 0 <= i < |s| :: s[i].slot
  }

  function CommandBufferSlots(s: seq<CommandBufferId>): set<nat> {
    set i | 0 <= i < |s| && s[i].FrameCommandBuffer? :: s[i].slot
  }

  /** The frame slots whose objects an event uses. */
  function Slots(ev: Event): set<nat> {
    match ev
    case WaitForFence(fence, _, _) => FenceSlots(fence)
    case AcquireNextImage(signal) => {signal.slot}
    case ResetFence(fence) => FenceSlots(fence)
    case ResetCommandBuffer(buffer) => BufferSlots(buffer)
    case UpdateUniformBuffer(slot) => {slot}
    case BeginCommandBuffer(buffer, _) => BufferSlots(buffer)
    case Record(buffer, command) => BufferSlots(buffer) + (if command.BindDescriptorSets? then {command.slot} else {})
    case EndCommandBuffer(buffer) => BufferSlots(buffer)
    case QueueSubmit(_, info, fence) =>
      SemaphoreSlots(info.waitSemaphores) + CommandBufferSlots(info.commandBuffers)
      + SemaphoreSlots(info.signalSemaphores) + FenceSlots(fence)
    case QueuePresent(_, waitSemaphores, _) => SemaphoreSlots(waitSemaphores)
    case _ => {}
  }

  lemma SemaphoreSlotsSingle(x: SemaphoreId)
    ensures SemaphoreSlots([x]) == {x.slot}
  {
    assert [x][0] == x;
    forall y | y in SemaphoreSlots([x])
      ensures y == x.slot
    {
    }
  }

  /** The calls `run` makes itself, never `drawFrame`. */
  predicate LoopCall(ev: Event) {
    ev.RecreateSwapchain? || ev.Sleep? || ev.DeviceWaitIdle? || ev.Cleanup?
  }

  /** Every call of `t` is a frame call using the objects of slot `f` and of no other. */
  predicate WithinSlot(t: seq<Event>, f: nat) {
    forall i :: 0 <= i < |t| ==> Slots(t[i]) <= {f} && !LoopCall(t[i])
  }

  lemma WithinSlotAppend(t: seq<Event>, u: seq<Event>, f: nat)
    requires WithinSlot(t, f) && WithinSlot(u, f)
    ensures WithinSlot(t + u, f)
  {
    forall i | 0 <= i < |t + u|
      ensures Slots((t + u)[i]) <= {f} && !LoopCall((t + u)[i])
    {
      if i >= |t| {
        assert (t + u)[i] == u[i - |t|];
      }
    }
  }

  lemma RecordingWithinSlot(e: Engine, imageIndex: nat, beginResult: VkResult, endResult: VkResult)
    ensures WithinSlot(RecordCommandBuffer(e, imageIndex, beginResult, endResult).trace, e.currentFrame)
  {
    var r := RecordCommandBuffer(e, imageIndex, beginResult, endResult);
    var cmds := FrameCommands(e, imageIndex);
    forall i | 0 <= i < |r.trace|
      ensures Slots(r.trace[i]) <= {e.currentFrame} && !LoopCall(r.trace[i])
    {
      if 0 < i < |r.trace| - 1 {
        assert r.trace[i] == r.trace[1..|r.trace| - 1][i - 1];
        assert r.trace[i] == Record(FrameCommandBuffer(e.currentFrame), cmds[i - 1]);
      }
    }
  }

  lemma SubmissionWithinSlot(f: nat, imageIndex: nat, submitResult: VkResult, presentResult: VkResult)
    ensures WithinSlot(SubmitFrame(f, imageIndex, submitResult, presentResult).trace, f)
  {
    SemaphoreSlotsSingle(ImageAvailable(f));
    SemaphoreSlotsSingle(RenderFinished(f));
    assert [FrameCommandBuffer(f)][0] == FrameCommandBuffer(f);
    assert CommandBufferSlots([FrameCommandBuffer(f)]) == {f};
  }

  /**
    Every call of `drawFrame` uses the objects of the current slot and of no
    other, and none is one of the calls `run` makes itself.
   */
  lemma FrameUsesOneSlot(e: Engine, input: FrameInput)
    requires Valid(e)
    ensures var t := DrawFrame(e, input).trace;
      forall i :: 0 <= i < |t| ==> Slots(t[i]) <= {e.currentFrame} && !LoopCall(t[i])
  {
    var f := e.currentFrame;
    var pre := FrameStart(f, Wait(e.fences[f], input.gpuDone).1);
    assert WithinSlot(pre, f);
    if Acquired(input) {
      AcquiredFrameTrace(e, input);
      AcquiredRestWithinSlot(e, input);
      WithinSlotAppend(pre, AcquiredRest(e, input), f);
    }
  }

  /** The calls after a successful acquire use only the current slot. */
  lemma AcquiredRestWithinSlot(e: Engine, input: FrameInput)
    requires Valid(e)
    ensures WithinSlot(AcquiredRest(e, input), e.currentFrame)
  {
    var f := e.currentFrame;
    var rec := RecordCommandBuffer(e, input.imageIndex, input.beginResult, input.endResult);
    var sub := SubmitFrame(f, input.imageIndex, input.submitResult, input.presentResult);
    var rest := if rec.failure.None? then sub.trace else [];
    assert WithinSlot(FrameResets(f), f);
    RecordingWithinSlot(e, input.imageIndex, input.beginResult, input.endResult);
    SubmissionWithinSlot(f, input.imageIndex, input.submitResult, input.presentResult);
    assert WithinSlot(rest, f);
    WithinSlotAppend(FrameResets(f), rec.trace, f);
    WithinSlotAppend(FrameResets(f) + rec.trace, rest, f);
  }

  // ---------------------------------------------------------------------------
  // Command buffer lifecycle

  /**
    The command buffer lifecycle of section 6.1 of the Vulkan specification,
    as far as the engine drives it: begin only from the initial state,
    record and end only while recording, submit only when executable. A
    submitted buffer is pending until the host sees its submission finish:
    a successful wait on the fence the submission signals, or the device
    going idle. Resetting the buffer (or, for the upload buffer, its pool)
    returns it to the initial state, and is not allowed while it is pending.

    A buffer begun with `VK_COMMAND_BUFFER_USAGE_ONE_TIME_SUBMIT_BIT` becomes
    invalid rather than executable when its submission finishes; the engine
    only ever resets it afterwards, which both states allow, so the model
    keeps one state for both.
   */
  datatype BufferState = Initial | Recording | Executable | PendingOn(fence: FenceId)

  /** The effect on a buffer in state `s` of a wait on `fence` that returned `result`. */
  function AfterWait(s: BufferState, fence: FenceId, result: WaitResult): BufferState {
    if s == PendingOn(fence) && result == WaitSuccess then Executable else s
  }

  /** The effect on a buffer in state `s` of the device going idle: every submission has finished. */
  function Completed(s: BufferState): BufferState {
    if s.PendingOn? then Executable else s
  }

  /** One call's effect on `b`, or `None` when the call is not allowed in state `s`. */
  function BufferStep(b: CommandBufferId, s: BufferState, ev: Event): Option<BufferState> {
    match ev
    case ResetCommandBuffer(x) => if x != b then Some(s) else if s.PendingOn? then None else Some(Initial)
    case ResetCommandPool => if b != UploadCommandBuffer then Some(s) else if s.PendingOn? then None else Some(Initial)
    case BeginCommandBuffer(x, _) => if x != b then Some(s) else if s == Initial then Some(Recording) else None
    case Record(x, _) => if x != b || s == Recording then Some(s) else None
    case EndCommandBuffer(x) => if x != b then Some(s) else if s == Recording then Some(Executable) else None
    case QueueSubmit(_, info, fence) =>
      if b !in info.commandBuffers then Some(s) else if s == Executable then Some(PendingOn(fence)) else None
    case WaitForFence(fence, _, result) => Some(AfterWait(s, fence, result))
    case DeviceWaitIdle => Some(Completed(s))
    case RecreateSwapchain => Some(Completed(s))
    case _ => Some(s)
  }

  /** The state of `b` after the calls of `t`, or `None` if one of them misuses it. */
  function Lifecycle(b: CommandBufferId, s: BufferState, t: seq<Event>): Option<BufferState>
    decreases |t|
  {
    if |t| == 0 then Some(s)
    else
      match BufferStep(b, s, t[0])
      case None => None
      case Some(s1) => Lifecycle(b, s1, t[1..])
  }

  lemma {:induction false} LifecycleAppend(b: CommandBufferId, s: BufferState, t: seq<Event>, u: seq<Event>)
    decreases |t|
    ensures Lifecycle(b, s, t + u) == (if Lifecycle(b, s, t).None? then None else Lifecycle(b, Lifecycle(b, s, t).value, u))
  {
    if |t| == 0 {
      assert t + u == u;
    } else {
      assert (t + u)[0] == t[0];
      assert (t + u)[1..] == t[1..] + u;
      match BufferStep(b, s, t[0])
      case None =>
      case Some(s1) => LifecycleAppend(b, s1, t[1..], u);
    }
  }

  lemma LifecycleSingle(b: CommandBufferId, s: BufferState, ev: Event)
    ensures Lifecycle(b, s, [ev]) == BufferStep(b, s, ev)
  {
    assert [ev][1..] == [];
  }

  lemma LifecycleSnoc(b: CommandBufferId, s: BufferState, t: seq<Event>, ev: Event)
    ensures Lifecycle(b, s, t + [ev]) == (if Lifecycle(b, s, t).None? then None else BufferStep(b, Lifecycle(b, s, t).value, ev))
  {
    LifecycleAppend(b, s, t, [ev]);
    if Lifecycle(b, s, t).Some? {
      LifecycleSingle(b, Lifecycle(b, s, t).value, ev);
    }
  }

  /** Recording calls keep a recording buffer recording. */
  lemma {:induction false} LifecycleRecords(b: CommandBufferId, cmds: seq<Command>)
    decreases |cmds|
    ensures Lifecycle(b, Recording, RecordAll(b, cmds)) == Some(Recording)
  {
    if |cmds| > 0 {
      assert RecordAll(b, cmds)[1..] == RecordAll(b, cmds[1..]);
      LifecycleRecords(b, cmds[1..]);
    }
  }

  /** A trace that never uses `b` leaves it as it was. */
  lemma {:induction false} LifecycleUntouched(b: CommandBufferId, s: BufferState, t: seq<Event>)
    decreases |t|
    requires forall i :: 0 <= i < |t| ==> BufferStep(b, s, t[i]) == Some(s)
    ensures Lifecycle(b, s, t) == Some(s)
  {
    if |t| > 0 {
      LifecycleUntouched(b, s, t[1..]);
    }
  }

  /**
    The fence wait and the acquire: a pending buffer whose fence the wait
    finds signalled is executable again; nothing else changes.
   */
  lemma FrameStartLifecycle(f: nat, waited: WaitResult, b: CommandBufferId, s: BufferState)
    ensures Lifecycle(b, s, FrameStart(f, waited)) == Some(AfterWait(s, InFlight(f), waited))
  {
    var x := WaitForFence(InFlight(f), FRAME_FENCE_TIMEOUT, waited);
    var y := AcquireNextImage(ImageAvailable(f));
    assert FrameStart(f, waited) == [x] + [y];
    LifecycleSingle(b, s, x);
    LifecycleSnoc(b, s, [x], y);
  }

  /**
    The resets return the slot's command buffer to the initial state, and
    are a misuse exactly when that buffer is still pending.
   */
  lemma ResetsLifecycle(f: nat, b: CommandBufferId, s: BufferState)
    ensures Lifecycle(b, s, FrameResets(f))
         == if b != FrameCommandBuffer(f) then Some(s) else if s.PendingOn? then None else Some(Initial)
  {
    var x := ResetFence(InFlight(f));
    var y := ResetCommandBuffer(FrameCommandBuffer(f));
    var z := UpdateUniformBuffer(f);
    assert FrameResets(f) == [x] + [y] + [z];
    LifecycleSingle(b, s, x);
    LifecycleSnoc(b, s, [x], y);
    LifecycleSnoc(b, s, [x] + [y], z);
  }

  /**
    Recording from the initial state: begin, record and end are all allowed,
    and the buffer ends executable once begun; other buffers are untouched.
    After a failed `vkBeginCommandBuffer` the model leaves the buffer
    recording; that state is an arbitrary choice of the model, not Vulkan's,
    and never matters because the failure throws.
   */
  lemma RecordingLifecycle(e: Engine, imageIndex: nat, beginResult: VkResult, endResult: VkResult, b: CommandBufferId, s: BufferState)
    requires b == FrameCommandBuffer(e.currentFrame) ==> s == Initial
    ensures var t := RecordCommandBuffer(e, imageIndex, beginResult, endResult).trace;
      && (b == FrameCommandBuffer(e.currentFrame) ==>
            Lifecycle(b, s, t) == Some(if beginResult == Success then Executable else Recording))
      && (b != FrameCommandBuffer(e.currentFrame) ==> Lifecycle(b, s, t) == Some(s))
  {
    var mine := b == FrameCommandBuffer(e.currentFrame);
    var t := RecordCommandBuffer(e, imageIndex, beginResult, endResult).trace;
    var begin := [BeginCommandBuffer(FrameCommandBuffer(e.currentFrame), false)];
    var body := RecordAll(FrameCommandBuffer(e.currentFrame), FrameCommands(e, imageIndex));
    var end := [EndCommandBuffer(FrameCommandBuffer(e.currentFrame))];
    var s3 := if mine then Recording else s;
    LifecycleSingle(b, s, begin[0]);
    if beginResult == Success {
      assert t == begin + body + end;
      if mine {
        LifecycleRecords(b, FrameCommands(e, imageIndex));
      } else {
        LifecycleUntouched(b, s3, body);
      }
      LifecycleSingle(b, s3, end[0]);
      LifecycleAppend(b, s, begin, body);
      LifecycleAppend(b, s, begin + body, end);
    } else {
      assert t == begin;
    }
  }

  /**
    Submitting and presenting: the slot's buffer goes from executable to
    pending on the slot's fence, and submitting it in any other state is a
    misuse; other buffers are untouched.
   */
  lemma SubmissionLifecycle(f: nat, imageIndex: nat, submitResult: VkResult, presentResult: VkResult, b: CommandBufferId, s: BufferState)
    ensures Lifecycle(b, s, SubmitFrame(f, imageIndex, submitResult, presentResult).trace)
         == if b != FrameCommandBuffer(f) then Some(s)
            else if s == Executable then Some(PendingOn(InFlight(f))) else None
  {
    var t := SubmitFrame(f, imageIndex, submitResult, presentResult).trace;
    var x := FrameSubmit(f);
    assert x.submit.commandBuffers == [FrameCommandBuffer(f)];
    LifecycleSingle(b, s, x);
    if |t| == 2 {
      assert t == [x] + [t[1]];
      LifecycleSnoc(b, s, [x], t[1]);
    }
  }

  /** The calls of `drawFrame` after a successful acquire, and their effect on `b`. */
  lemma AcquiredLifecycle(e: Engine, input: FrameInput, b: CommandBufferId, s: BufferState)
    requires Valid(e)
    ensures Lifecycle(b, s, AcquiredRest(e, input))
         == if b != FrameCommandBuffer(e.currentFrame) then Some(s)
            else if s.PendingOn? then None
            else if input.beginResult != Success then Some(Recording)
            else if input.endResult != Success then Some(Executable)
            else Some(PendingOn(InFlight(e.currentFrame)))
  {
    var f := e.currentFrame;
    var mine := b == FrameCommandBuffer(f);
    var rec := RecordCommandBuffer(e, input.imageIndex, input.beginResult, input.endResult);
    var sub := SubmitFrame(f, input.imageIndex, input.submitResult, input.presentResult);
    var rest := if rec.failure.None? then sub.trace else [];
    ResetsLifecycle(f, b, s);
    LifecycleAppend(b, s, FrameResets(f), rec.trace);
    LifecycleAppend(b, s, FrameResets(f) + rec.trace, rest);
    if !(mine && s.PendingOn?) {
      var s2 := if mine then Initial else s;
      var s4 := if mine && input.beginResult == Success then Executable else if mine then Recording else s;
      RecordingLifecycle(e, input.imageIndex, input.beginResult, input.endResult, b, s2);
      if rec.failure.None? {
        SubmissionLifecycle(f, input.imageIndex, input.submitResult, input.presentResult, b, s4);
      }
    }
  }

  /** A frame that acquires nothing only waits: a buffer pending on the slot's fence finishes if the wait succeeds. */
  lemma SkippedFrameLifecycle(e: Engine, input: FrameInput, b: CommandBufferId, s: BufferState)
    requires Valid(e) && !Acquired(input)
    ensures Lifecycle(b, s, DrawFrame(e, input).trace)
         == Some(AfterWait(s, InFlight(e.currentFrame), Wait(e.fences[e.currentFrame], input.gpuDone).1))
  {
    var f := e.currentFrame;
    assert DrawFrame(e, input).trace == FrameStart(f, Wait(e.fences[f], input.gpuDone).1);
    FrameStartLifecycle(f, Wait(e.fences[f], input.gpuDone).1, b, s);
  }

  /**
    The buffer state `s` agrees with the host-visible state `fs` of `fence`:
    the buffer is pending, on `fence`, exactly when the fence is.
   */
  predicate Agrees(s: BufferState, fs: FenceState, fence: FenceId) {
    (s.PendingOn? <==> fs == Pending) && (s.PendingOn? ==> s.fence == fence)
  }

  /**
    `s`, the lifecycle state of one of the engine's command buffers, agrees
    with the state `e` records for the fence that buffer's submissions
    signal.
   */
  predicate Tracked(e: Engine, b: CommandBufferId, s: BufferState)
    requires Valid(e)
  {
    match b
    case FrameCommandBuffer(k) => k < FRAME_COUNT && Agrees(s, e.fences[k], InFlight(k))
    case UploadCommandBuffer => Agrees(s, e.uploadFence, UploadFence)
  }

  /** A new engine's command buffers, all in the initial state, agree with its unsignalled fences. */
  lemma NewEngineTracked(swapchain: Sc.Swapchain, pipeline: nat, pipelineLayout: nat, mesh: Mesh, b: CommandBufferId)
    requires b.FrameCommandBuffer? ==> b.slot < FRAME_COUNT
    ensures Tracked(NewEngine(swapchain, pipeline, pipelineLayout, mesh), b, Initial)
  {
  }

  /** A wait keeps a buffer's state in agreement with its fence's. */
  lemma WaitAgrees(s: BufferState, fs: FenceState, fence: FenceId, gpuDone: bool)
    requires Agrees(s, fs, fence)
    ensures Agrees(AfterWait(s, fence, Wait(fs, gpuDone).1), Wait(fs, gpuDone).0, fence)
  {
  }

  /** Once the device is idle, no buffer is pending and no fence is. */
  lemma IdleTracked(e: Engine, b: CommandBufferId, s: BufferState)
    requires Valid(e) && Tracked(e, b, s)
    ensures Tracked(DeviceIdle(e), b, Completed(s))
  {
  }

  /**
    `drawFrame` misuses a command buffer exactly when it resets the slot's
    buffer while that buffer's previous submission is still pending, that
    is, when the acquire succeeded after the wait timed out on a pending
    fence. Otherwise it leaves every other buffer as it was, leaves the
    slot's buffer pending on the slot's fence when the frame completes, and
    keeps every buffer's state in agreement with its fence's.
   */
  lemma FrameLifecycle(e: Engine, input: FrameInput, b: CommandBufferId, s: BufferState)
    requires Valid(e) && Tracked(e, b, s)
    ensures var o := DrawFrame(e, input); var l := Lifecycle(b, s, o.trace);
      var mine := b == FrameCommandBuffer(e.currentFrame);
      && (l.None? <==> mine && ResetsPending(e, input))
      && (!mine ==> l == Some(s))
      && (mine && Completes(input) && !ResetsPending(e, input) ==> l == Some(PendingOn(InFlight(e.currentFrame))))
      && (l.Some? && o.failure.None? ==> Tracked(o.engine, b, l.value))
  {
    FrameKeeps(e, input);
    if b == FrameCommandBuffer(e.currentFrame) {
      OwnFrameLifecycle(e, input, s);
    } else {
      OtherFrameLifecycle(e, input, b, s);
    }
  }

  /** `FrameLifecycle` for the slot's own buffer. */
  lemma OwnFrameLifecycle(e: Engine, input: FrameInput, s: BufferState)
    requires Valid(e) && Tracked(e, FrameCommandBuffer(e.currentFrame), s)
    ensures var o := DrawFrame(e, input); var b := FrameCommandBuffer(e.currentFrame); var l := Lifecycle(b, s, o.trace);
      && (l.None? <==> ResetsPending(e, input))
      && (Completes(input) && !ResetsPending(e, input) ==> l == Some(PendingOn(InFlight(e.currentFrame))))
      && (l.Some? && o.failure.None? ==> Tracked(o.engine, b, l.value))
  {
    var f := e.currentFrame;
    var b := FrameCommandBuffer(f);
    var waited := Wait(e.fences[f], input.gpuDone);
    var s1 := AfterWait(s, InFlight(f), waited.1);
    WaitAgrees(s, e.fences[f], InFlight(f), input.gpuDone);
    FrameAdvance(e, input);
    if Acquired(input) {
      AcquiredFrameTrace(e, input);
      FrameStartLifecycle(f, waited.1, b, s);
      AcquiredLifecycle(e, input, b, s1);
      LifecycleAppend(b, s, FrameStart(f, waited.1), AcquiredRest(e, input));
      if Completes(input) {
        CompletedFrameState(e, input);
      }
    } else {
      SkippedFrameLifecycle(e, input, b, s);
    }
  }

  /** `FrameLifecycle` for every other buffer. */
  lemma OtherFrameLifecycle(e: Engine, input: FrameInput, b: CommandBufferId, s: BufferState)
    requires Valid(e) && Tracked(e, b, s) && b != FrameCommandBuffer(e.currentFrame)
    ensures Lifecycle(b, s, DrawFrame(e, input).trace) == Some(s)
  {
    var f := e.currentFrame;
    var waited := Wait(e.fences[f], input.gpuDone).1;
    assert s != PendingOn(InFlight(f));
    if Acquired(input) {
      AcquiredFrameTrace(e, input);
      FrameStartLifecycle(f, waited, b, s);
      AcquiredLifecycle(e, input, b, s);
      LifecycleAppend(b, s, FrameStart(f, waited), AcquiredRest(e, input));
    } else {
      SkippedFrameLifecycle(e, input, b, s);
    }
  }

  // ---------------------------------------------------------------------------
  // immediateSubmit

  /** What the device answers during one `immediateSubmit`. */
  datatype UploadInput = UploadInput(beginResult: VkResult, endResult: VkResult, submitResult: VkResult, gpuDone: bool)

  /** The submit `immediateSubmit` makes: no semaphores, the upload buffer, the upload fence. */
  const UploadSubmit: Event := QueueSubmit(GraphicsQueue, SubmitInfo([], [], [UploadCommandBuffer], []), UploadFence)

  /**
    `immediateSubmit`: begin the upload buffer for one submission, record the
    callback's `commands`, end, submit with the upload fence, wait for it
    (the result is ignored), reset the fence and the upload command pool.
    Failing to begin, end or submit throws.
   */
  function ImmediateSubmit(e: Engine, commands: seq<Command>, input: UploadInput): (o: Outcome)
    ensures o.engine == e.(uploadFence := o.engine.uploadFence)
    ensures o.failure.None? <==> input.beginResult == Success && input.endResult == Success && input.submitResult == Success
    ensures input.beginResult != Success ==> o.failure == Some(BeginCommandBufferFailed)
    ensures input.beginResult == Success && input.endResult != Success ==> o.failure == Some(EndCommandBufferFailed)
    ensures input.beginResult == Success && input.endResult == Success && input.submitResult != Success ==>
              o.failure == Some(SubmitFailed)
    ensures o.failure.Some? ==> o.engine == e
    ensures o.failure.None? ==> o.engine.uploadFence == Unsignaled
  {
    var begin := [BeginCommandBuffer(UploadCommandBuffer, true)];
    if input.beginResult != Success then Outcome(e, begin, Some(BeginCommandBufferFailed))
    else
      var recorded := UploadRecording(commands);
      if input.endResult != Success then Outcome(e, recorded, Some(EndCommandBufferFailed))
      else if input.submitResult != Success then Outcome(e, recorded + [UploadSubmit], Some(SubmitFailed))
      else Outcome(e.(uploadFence := Unsignaled), recorded + UploadCompletion(Wait(Pending, input.gpuDone).1), None)
  }

  /** Begin the upload buffer for one submission, record `commands`, end. */
  function UploadRecording(commands: seq<Command>): seq<Event> {
    [BeginCommandBuffer(UploadCommandBuffer, true)] + RecordAll(UploadCommandBuffer, commands) + [EndCommandBuffer(UploadCommandBuffer)]
  }

  /** Submit, wait with the upload timeout, reset the fence and the pool. */
  function UploadCompletion(waited: WaitResult): seq<Event> {
    [UploadSubmit, WaitForFence(UploadFence, UPLOAD_FENCE_TIMEOUT, waited), ResetFence(UploadFence), ResetCommandPool]
  }

  /**
    A successful upload records exactly the callback's commands between
    begin and end, submits without semaphores, and waits on the fence it
    submitted with, succeeding exactly when the GPU finishes in time.
   */
  lemma UploadOrder(e: Engine, commands: seq<Command>, input: UploadInput)
    requires input.beginResult == Success && input.endResult == Success && input.submitResult == Success
    ensures var t := ImmediateSubmit(e, commands, input).trace; var n := |commands|;
      && |t| == n + 6
      && t[0] == BeginCommandBuffer(UploadCommandBuffer, true)
      && (forall i :: 0 <= i < n ==> t[1 + i] == Record(UploadCommandBuffer, commands[i]))
      && t[n + 1] == EndCommandBuffer(UploadCommandBuffer)
      && t[n + 2] == UploadSubmit
      && t[n + 3].WaitForFence? && t[n + 3].fence == UploadSubmit.fence
      && (t[n + 3].result == WaitSuccess <==> input.gpuDone)
      && t[n + 4] == ResetFence(UploadFence)
  {
    var n := |commands|;
    var rec := UploadRecording(commands);
    var done := UploadCompletion(Wait(Pending, input.gpuDone).1);
    var t := ImmediateSubmit(e, commands, input).trace;
    assert t == rec + done;
    forall i | 0 <= i < n
      ensures t[1 + i] == Record(UploadCommandBuffer, commands[i])
    {
      assert t[1 + i] == rec[1 + i];
    }
    assert t[n + 1] == rec[n + 1];
    assert t[n + 2] == done[0] && t[n + 3] == done[1] && t[n + 4] == done[2];
  }

  /**
    The recording and the completion of an upload, and their effect on the
    upload buffer: submitting leaves it pending on the upload fence, and
    resetting the pool is a misuse unless the wait saw the fence signalled.
   */
  lemma UploadPiecesLifecycle(commands: seq<Command>, waited: WaitResult)
    ensures Lifecycle(UploadCommandBuffer, Initial, UploadRecording(commands)) == Some(Executable)
    ensures Lifecycle(UploadCommandBuffer, Executable, UploadCompletion(waited))
         == if waited == WaitSuccess then Some(Initial) else None
  {
    var b := UploadCommandBuffer;
    var begin := [BeginCommandBuffer(b, true)];
    var body := RecordAll(b, commands);
    var end := [EndCommandBuffer(b)];
    LifecycleSingle(b, Initial, begin[0]);
    LifecycleRecords(b, commands);
    LifecycleSingle(b, Recording, end[0]);
    LifecycleAppend(b, Initial, begin, body);
    LifecycleAppend(b, Initial, begin + body, end);
    var w := WaitForFence(UploadFence, UPLOAD_FENCE_TIMEOUT, waited);
    assert UploadSubmit.submit.commandBuffers == [b];
    assert UploadCompletion(waited) == [UploadSubmit] + [w] + [ResetFence(UploadFence)] + [ResetCommandPool];
    LifecycleSingle(b, Executable, UploadSubmit);
    LifecycleSnoc(b, Executable, [UploadSubmit], w);
    LifecycleSnoc(b, Executable, [UploadSubmit] + [w], ResetFence(UploadFence));
    LifecycleSnoc(b, Executable, [UploadSubmit] + [w] + [ResetFence(UploadFence)], ResetCommandPool);
  }

  /**
    A successful upload respects the upload buffer's lifecycle exactly when
    the GPU finishes before the wait gives up: then resetting the pool
    leaves the buffer back in the initial state, ready for the next upload;
    otherwise the pool is reset while the buffer is still pending.
   */
  lemma UploadLifecycle(e: Engine, commands: seq<Command>, input: UploadInput)
    requires input.beginResult == Success && input.endResult == Success && input.submitResult == Success
    ensures Lifecycle(UploadCommandBuffer, Initial, ImmediateSubmit(e, commands, input).trace)
         == if input.gpuDone then Some(Initial) else None
  {
    var waited := Wait(Pending, input.gpuDone).1;
    assert ImmediateSubmit(e, commands, input).trace == UploadRecording(commands) + UploadCompletion(waited);
    UploadPiecesLifecycle(commands, waited);
    LifecycleAppend(UploadCommandBuffer, Initial, UploadRecording(commands), UploadCompletion(waited));
  }

  /** An upload uses no frame slot's fence, semaphore or command buffer. */
  lemma UploadUsesNoSlot(e: Engine, commands: seq<Command>, input: UploadInput)
    ensures var t := ImmediateSubmit(e, commands, input).trace;
      forall i :: 0 <= i < |t| && !t[i].Record? ==> Slots(t[i]) == {}
  {
    assert [UploadCommandBuffer][0] == UploadCommandBuffer;
    assert CommandBufferSlots([UploadCommandBuffer]) == {};
    assert SemaphoreSlots([]) == {};
    var t := ImmediateSubmit(e, commands, input).trace;
    forall i | 0 <= i < |t| && !t[i].Record?
      ensures Slots(t[i]) == {}
    {
    }
  }

  // ---------------------------------------------------------------------------
  // initPipelines

  /**
    The builder calls `initPipelines` makes: layout, the two shaders, the
    vertex layout of `Vertex`, a triangle list, filled back-face-culled
    counter-clockwise polygons, one sample, no blending.
   */
  function BasicPipelineBuilder(layout: nat, vertShader: nat, fragShader: nat): PB.Builder {
    var b0 := PB.SetPipelineLayout(PB.NewBuilder(), layout);
    var b1 := PB.AddShaders(b0, vertShader, fragShader);
    var b2 := PB.SetVertexInputState(b1, BindingDescriptions(), AttributeDescriptions());
    var b3 := PB.SetInputAssemblyState(b2, PB.TriangleList, 0, false);
    var b4 := PB.SetRasterizationState(b3, PB.Fill, CULL_MODE_BACK, PB.CounterClockwise, 0);
    var b5 := PB.SetMultisampleState(b4, PB.SAMPLE_COUNT_1, 0);
    PB.DisableColorBlending(b5)
  }

  /**
    `initPipelines`: create the pipeline layout (throwing if that fails),
    then build the basic pipeline on the swapchain's render pass.
    `layoutResult` and `created` are what the device answers.
   */
  function InitPipelines(layoutResult: VkResult, layout: nat, vertShader: nat, fragShader: nat,
                         renderPass: nat, created: VkResult): (r: Result<PB.GraphicsPipelineCreateInfo>)
    ensures r.Ok? <==> layoutResult == Success && created == Success
    ensures layoutResult != Success ==> r == Err(PipelineLayoutCreationFailed)
    ensures layoutResult == Success && created != Success ==> r == Err(PipelineCreationFailed)
    ensures r.Ok? ==>
      var info := r.value;
      && info.stageCount == 2
      && info.stages == [PB.ShaderStage(PB.VertexStage, vertShader, "main"), PB.ShaderStage(PB.FragmentStage, fragShader, "main")]
      && info.vertexInput.bindingCount == 1 && info.vertexInput.attributeCount == 3
      && info.vertexInput.bindings == Some(BindingDescriptions())
      && info.vertexInput.attributes == Some(AttributeDescriptions())
      && info.inputAssembly.topology == PB.TriangleList && !info.inputAssembly.primitiveRestartEnable
      && info.rasterization.polygonMode == PB.Fill && info.rasterization.cullMode == CULL_MODE_BACK
      && info.rasterization.frontFace == PB.CounterClockwise && info.rasterization.lineWidth == 1.0
      && info.multisample.rasterizationSamples == PB.SAMPLE_COUNT_1 && !info.multisample.sampleShadingEnable
      && info.colorBlend.attachments == [PB.EmptyColorBlendAttachment.(colorWriteMask := PB.COLOR_COMPONENT_RGBA)]
      && info.depthStencil.None?
      && info.layout == Some(layout) && info.renderPass == renderPass
  {
    if layoutResult != Success then Err(PipelineLayoutCreationFailed)
    else
      var b := BasicPipelineBuilder(layout, vertShader, fragShader);
      assert b.shaderStages == [PB.ShaderStage(PB.VertexStage, vertShader, "main"), PB.ShaderStage(PB.FragmentStage, fragShader, "main")];
      PB.Build(b, renderPass, created)
  }

  /**
    The basic pipeline declares viewport and scissor dynamic, and the frame's
    commands set each of them, to the swapchain extent, before the draw.
   */
  lemma DynamicStatesSetBeforeDraw(e: Engine, imageIndex: nat, layoutResult: VkResult, vertShader: nat, fragShader: nat, created: VkResult)
    requires InitPipelines(layoutResult, e.pipelineLayout, vertShader, fragShader, e.swapchain.renderPass.handle, created).Ok?
    ensures var info := InitPipelines(layoutResult, e.pipelineLayout, vertShader, fragShader, e.swapchain.renderPass.handle, created).value;
      var cmds := FrameCommands(e, imageIndex);
      && |info.dynamicStates| > 0
      && forall i, k :: 0 <= i < |cmds| && cmds[i].DrawIndexed? && 0 <= k < |info.dynamicStates| ==>
           DynamicStateSetBefore(cmds, info.dynamicStates[k], i)
  {
    var info := InitPipelines(layoutResult, e.pipelineLayout, vertShader, fragShader, e.swapchain.renderPass.handle, created).value;
    assert info.dynamicStates == [PB.Scissor, PB.Viewport];
    FrameCommandsSetDynamicStates(e, imageIndex);
  }

  /** Every dynamic state there is, viewport and scissor, is set before the frame's draw. */
  lemma FrameCommandsSetDynamicStates(e: Engine, imageIndex: nat)
    ensures var cmds := FrameCommands(e, imageIndex);
      forall i, ds :: 0 <= i < |cmds| && cmds[i].DrawIndexed? ==> DynamicStateSetBefore(cmds, ds, i)
  {
    var cmds := FrameCommands(e, imageIndex);
    FrameCommandsDrawReady(e, imageIndex);
    forall i, ds | 0 <= i < |cmds| && cmds[i].DrawIndexed?
      ensures DynamicStateSetBefore(cmds, ds, i)
    {
      assert i == 7;
      if ds == PB.Scissor {
        assert SetsDynamicState(cmds[3], ds);
      } else {
        assert SetsDynamicState(cmds[2], ds);
      }
    }
  }
}
