# Manaburn renderer core, modelled in Dafny

Manaburn is a small Vulkan/SDL renderer. Most of its code passes structures
to the GPU API, but several parts are host-side logic with a precise
meaning. This project models those parts and proves properties of them:

- **Frame loop and upload protocol** (`Engine`, `RunLoop`).
  - `Engine::run` polls window events, sleeps while minimised, recreates the
    swapchain after a resize, and draws.
  - `drawFrame`, `recordCommandBuffer` and `submitFrame` drive the per-slot
    sequence: wait on the slot's fence, acquire an image, reset the fence
    and the command buffer, update the uniform buffer, record, submit,
    present, and advance `currentFrame` modulo `FRAME_COUNT = 2`.
  - `immediateSubmit` is the blocking one-shot upload.
  - Every Vulkan call is an event in a trace. What the device answers
    (acquire, begin, end, submit and present results, and whether the GPU
    finishes before a fence wait gives up) is an input.
  - Fences have a host-visible state: unsignalled, pending or signalled.
  - A command buffer state machine (initial, recording, executable, and
    pending on a fence) checks the traces for misuse: resetting a buffer
    whose submission may still be running is the one misuse a frame can
    make.
- **Swapchain** (`Swapchain`).
  - `getSwapchainDetails` errors and `chooseSwapchainSettings`: preferred
    format with fallback, mailbox-or-FIFO, and the extent clamp.
  - `createSwapchain`: the image count (with its 32-bit arithmetic) and the
    sharing mode.
  - One view per image and one framebuffer per view.
  - The constructor, `recreate`, `cleanup` and destructor, as a trace of
    object creations and destructions. Only the constructor creates the
    render pass, and only the destructor destroys it.
- **Device selection** (`Device`).
  - The first suitable physical device is chosen.
  - The queue-family scan stops once both families are found.
  - There is one queue-create-info per distinct family, the swapchain
    extension is enabled, and queue 0 of each family is fetched.
- **Instance setup** (`InstanceSetup`, `VkInterface`, `VkStatic`).
  - The validation-layer subset check and the required-extension list.
  - The validation branch of `createInstance`.
  - `init`, where an exception leaves the later steps undone.
  - `terminate`, in reverse dependency order.
  - The destructor, which terminates only an initialised front end, and
    the smart-pointer members' destructors that run after it. The device
    is shared with the engine's command objects, so it is destroyed only
    when its last owner lets go.
  - `VkInterface` is `src/vulkan/vk_interface.cpp`. `VkStatic` is the older
    `src/vulkan/vk.cpp`, which has two debug extensions and no
    descriptors.
- **Pipeline builder** (`PipelineBuilder`): the configuration record, its
  setters, `clear`, `addShaders`, and the create-info `build` assembles.
- **Vertex and queue-family descriptors** (`Types`): `isComplete` and the
  vertex binding and attribute tables.

`Common` holds the shared result, option, 32-bit and format types.

Each module follows the code where it differs from what the code's
comments and surrounding design suggest:

- An out-of-date acquire returns before the fence reset, so `currentFrame`
  does not advance for that frame.
- A suboptimal present is fatal.
- The in-flight fence wait ignores its result.
- Fences are created unsignalled, so the first wait on each slot times out.
- The fence is reset even when the wait timed out with work still pending.

## Model

| member | source | states |
|---|---|---|
| Common.ToU32 | src/vulkan/swapchain.cpp:116-119 | `static_cast<uint32_t>` of an `int` is the identity on values that fit and adds 2^32 to negative values |
| Types.FamilyValues | src/vulkan/swapchain.cpp:148-151 | reading both optional family indices yields exactly the stored values, or a bad-optional-access error |
| Types.CompleteIffValuesReadable | src/util/types.h:20-22 | `isComplete` holds exactly when both family values can be read |
| Types.BindingDescriptions | src/util/types.h:30-37 | one binding: binding 0, per-vertex, stride 36 = `sizeof(Vertex)` |
| Types.AttributeDescriptions | src/util/types.h:39-57 | three attributes at locations 0, 1, 2 on binding 0, all R32G32B32_SFLOAT, at the offsets of pos, normal and color, strictly increasing |
| Types.AttributesTileVertex | src/util/types.h:25-57 | the attributes tile the vertex: the first starts at 0, each starts where the previous one ends, the last ends at the stride, and each uses a declared binding |
| Swapchain.GetSwapchainDetails | src/vulkan/swapchain.cpp:52-74 | succeeds exactly when formats and present modes are both non-empty, returning what the surface reported; zero formats and zero present modes give their own errors, formats checked first |
| Swapchain.ChooseSurfaceFormat | src/vulkan/swapchain.cpp:82-92 | the choice is one of the offered formats: B8G8R8_SRGB with sRGB non-linear if offered, otherwise the first |
| Swapchain.ChoosePresentMode | src/vulkan/swapchain.cpp:95-105 | mailbox if offered, FIFO otherwise |
| Swapchain.Clamp | src/vulkan/swapchain.cpp:121-122 | with ordered bounds, the result lies within them and is the closest such value to the input |
| Swapchain.ChooseExtent | src/vulkan/swapchain.cpp:107-125 | the current extent unless its width is UINT32_MAX; otherwise a size within the min/max image extents, equal to the drawable size whenever that already fits |
| Swapchain.ChooseSettings | src/vulkan/swapchain.cpp:80-126 | the settings combine the format, present-mode and extent choices, and the format is one the surface offers |
| Swapchain.RequestedImageCount | src/vulkan/swapchain.cpp:133-136 | at most `minImageCount + 1` and at most a non-zero maximum; exactly `minImageCount + 1` when that fits under the maximum; never below the minimum when the capabilities are consistent |
| Swapchain.ChooseSharing | src/vulkan/swapchain.cpp:148-162 | concurrent with both family indices exactly when the families differ, exclusive with no indices otherwise; incomplete families are a bad optional access |
| Swapchain.CreateSwapchain | src/vulkan/swapchain.cpp:132-173 | succeeds exactly when the families are complete and creation succeeds; the create-info carries the image count, chosen format, colour space, extent, present mode, one layer, the current transform, no old swapchain and the sharing choice |
| Swapchain.Attempts | src/vulkan/swapchain.cpp:190-214 | a creation loop gets through every index before the first one the device rejects, and stops there |
| Swapchain.ViewsOf | src/vulkan/swapchain.cpp:190-214 | one view per image, in image order, with the chosen format |
| Swapchain.FramebuffersOf | src/vulkan/swapchain.cpp:266-286 | one framebuffer per view, on the render pass, sized to the extent, one layer |
| Swapchain.Build | src/vulkan/swapchain.cpp:14-24 | a successful build is valid (one view per image, one framebuffer per view, each on the render pass at the chosen extent), keeps the queue families, and reuses the given render pass or creates a new one |
| Swapchain.Construct | src/vulkan/swapchain.cpp:14-24 | the constructor creates exactly one render pass, and the objects it leaves alive are exactly those the swapchain holds |
| Swapchain.Cleanup | src/vulkan/swapchain.cpp:292-300 | `cleanup` never destroys the render pass |
| Swapchain.CleanupCounts | src/vulkan/swapchain.cpp:292-300 | `cleanup` destroys every framebuffer, view and the swapchain the object holds, and nothing else |
| Swapchain.Recreate | src/vulkan/swapchain.cpp:35-46 | `recreate` waits for the device first and rebuilds a valid swapchain on the same render pass and queue families |
| Swapchain.RecreateLive | src/vulkan/swapchain.cpp:35-46 | across a `recreate`, the objects alive change by exactly the difference between the new and old holdings, the render pass untouched |
| Swapchain.RecreateKeepsRenderPass | src/vulkan/swapchain.cpp:35-46 | `recreate` neither creates nor destroys a render pass |
| Swapchain.Destruct | src/vulkan/swapchain.cpp:26-29 | the destructor destroys the render pass exactly once |
| Swapchain.DestructLive | src/vulkan/swapchain.cpp:26-29 | the destructor destroys exactly what the swapchain holds and creates nothing |
| Swapchain.BuildCounts | src/vulkan/swapchain.cpp:14-24 | a successful build creates exactly the objects the swapchain then holds, the render pass only when it is new |
| Swapchain.BuildShape | src/vulkan/swapchain.cpp:190-286 | a successful build creates the swapchain, one view per image, the render pass if new, then one framebuffer per image, in that order |
| Swapchain.SuccessCallCounts | src/vulkan/swapchain.cpp:14-24 | that creation sequence leaves alive one swapchain, n views, n framebuffers and the render pass only if new |
| Swapchain.RecreateAll | src/vulkan/swapchain.cpp:35-46 | any number of successive `recreate` calls keep the original render pass |
| Swapchain.RecreateAllLive | src/vulkan/swapchain.cpp:35-46 | across successive recreations, live objects change by the difference between final and initial holdings |
| Swapchain.RecreateAllNoRenderPass | src/vulkan/swapchain.cpp:35-46 | no sequence of recreations creates a render pass |
| Swapchain.LifetimeBalanced | src/vulkan/swapchain.cpp:14-46 | construct, any recreations, then destroy: every kind of object is destroyed as often as it is created, and the render pass is created exactly once |
| Swapchain.RecreateIdempotent | src/vulkan/swapchain.cpp:35-46 | recreating again against the same surface answers yields the same swapchain |
| Device.PickPhysicalDevice | src/vulkan/device.cpp:28-49 | no devices is "no Vulkan GPUs"; otherwise the first device passing the test, and "no suitable GPU" exactly when none passes |
| Device.PickFirstDevice | src/vulkan/device.cpp:58-60 | since `isDeviceSuitable` accepts everything, the choice is the first enumerated device |
| Device.GetQueueFamilies | src/vulkan/device.cpp:66-96 | the indices are complete exactly when some prefix holds both families; the scan stops at the shortest such prefix; each recorded index is the last family so far with its capability |
| Device.UniqueFamilies | src/vulkan/device.cpp:105-108 | the distinct families of {graphics, present}, each once, in increasing order |
| Device.CreateLogicalDevice | src/vulkan/device.cpp:102-138 | succeeds exactly when the families are complete and creation succeeds; one queue-create-info per distinct family, each with one queue; the only enabled extension is the swapchain one |
| Device.GetQueues | src/vulkan/device.cpp:154-157 | queue 0 of the graphics family and of the present family, the same queue exactly when the families coincide |
| Device.CreateDevice | src/vulkan/device.cpp:12-18 | no devices, families not found and a failed creation each give their error; otherwise the first device, with the queue indices its family scan produces (`ScannedFamilies`), matching queues and the logical-device create-info |
| Device.ScanStopFirstBoth | src/vulkan/device.cpp:75-92 | the index at which the scan stops is the first one by which both a graphics and a presenting family have been seen |
| Device.ScanStopsAtLater | src/vulkan/device.cpp:75-92 | a scan that finds both families stops at the later of the two indices it records, and its result satisfies `ScannedFamilies` |
| Device.ScannedFamiliesUnique | src/vulkan/device.cpp:75-92 | at most one pair of indices is the result of scanning a given family list, so `ScannedFamilies` determines the queue indices |
| InstanceSetup.CheckValidationLayerSupport | src/vulkan/vk_interface.cpp:130-153 | true exactly when every requested layer is among the available ones |
| InstanceSetup.RequiredExtensions | src/vulkan/vk_interface.cpp:109-122 | the SDL extensions in order, followed by the debug extensions only with validation, and nothing else |
| InstanceSetup.CreateInstance | src/vulkan/vk_interface.cpp:68-102 | unsupported validation layers and a failed creation are each their own error; on success the extensions are the required list, the layers are the validation layers exactly when validation is on, and the app name and API version are fixed |
| InstanceSetup.RunPlan | src/vulkan/vk_interface.cpp:26-42 | init creates a prefix of its plan, stopping at the first failing step with that step's error, and is initialised exactly when the whole plan ran |
| InstanceSetup.RunPlanOutcome | src/vulkan/vk_interface.cpp:26-42 | init completes exactly when no step fails, and what it created keeps dependencies first |
| InstanceSetup.Release | src/vulkan/vk_interface.cpp:48-62 | teardown destroys each held handle as often as the teardown order lists it, and nothing unheld |
| InstanceSetup.ReleaseKeepsOrder | src/vulkan/vk_interface.cpp:48-62 | dropping unheld handles keeps dependents before what they depend on |
| InstanceSetup.Destruct | src/vulkan/vk_interface.cpp:16-18 | after a complete init the destructor releases, in terminate order, the created handles not still owned elsewhere; after a failed init only the smart-pointer members release theirs, and raw handles leak |
| InstanceSetup.DestructBalanced | src/vulkan/vk_interface.cpp:16-62 | with well-ordered plans, an initialised front end destroys each created handle it alone owns exactly once, dependents first; a failed one destroys each created member handle once |
| InstanceSetup.InitOrdered | src/vulkan/vk_interface.cpp:26-42 | for any extra device children, init creates each handle once, after every handle it depends on |
| InstanceSetup.TerminateOrdered | src/vulkan/vk_interface.cpp:48-62 | for any extra device children, terminate destroys each handle once, before every handle it depends on |
| InstanceSetup.PlansWellOrdered | src/vulkan/vk_interface.cpp:26-62 | when terminate releases every extra that init creates, terminate covers what init creates, in dependency-respecting orders |
| InstanceSetup.DestructorReleases | src/vulkan/vk_interface.cpp:16-62 | destruction after a complete init destroys each created handle not shared exactly once and after a failed one each created member handle once, always dependents first |
| InstanceSetup.SwapchainStep | src/vulkan/vk_interface.cpp:36-38 | the swapchain step needs a device, and a built swapchain is valid on the device's queue families |
| InstanceSetup.StepFailures | src/vulkan/vk_interface.cpp:29-39 | the instance, device and swapchain steps fail exactly when their calls do, the swapchain only after a device exists; other steps fail as the environment says |
| InstanceSetup.EarlyFailure | src/vulkan/vk_interface.cpp:29-33 | a failing window creates nothing; a failing instance leaves only the window |
| InstanceSetup.Initialize | src/vulkan/vk_interface.cpp:26-42 | init creates a prefix of the plan; when complete, the instance, device and swapchain exist with the required extensions and layers and matching queue families; unsupported layers stop init after the window |
| VkInterface.InitPlan | src/vulkan/vk_interface.cpp:26-42 | window first, then instance; device, swapchain and descriptors included; the debug messenger exactly with validation |
| VkInterface.TerminatePlan | src/vulkan/vk_interface.cpp:48-62 | the window is destroyed last; the debug messenger exactly with validation |
| VkInterface.PlansWellOrdered | src/vulkan/vk_interface.cpp:26-62 | terminate covers exactly what init creates, each once, in dependency-respecting orders |
| VkInterface.Init | src/vulkan/vk_interface.cpp:26-42 | init creates a prefix of its plan; once complete, the instance carries the SDL extensions plus debug utils with validation, and the validation layers |
| VkInterface.DestructorReleasesInit | src/vulkan/vk_interface.cpp:16-18 | with the interface as the device's only owner, destruction after a complete init destroys every created handle exactly once, dependents first; after a failed init exactly the created pipeline builder, descriptors, swapchain, device and window, once each |
| VkInterface.MembersOrdered | src/vulkan/vk_interface.h:36-43 | the smart-pointer members, destroyed in reverse declaration order, are distinct and go dependents first |
| VkInterface.EngineTeardown | src/engine/engine.cpp:96-117 | while the upload command still shares the device, the device is destroyed last, after `vk.reset()`; otherwise the teardown is the destructor alone |
| VkInterface.CleanupKeepsUploadDevice | src/engine/engine.cpp:96-117 | as written, cleanup keeps the upload command, so the device is destroyed after the surface and the instance: every handle once, but not dependents first |
| VkStatic.InitPlan | src/vulkan/vk.cpp:27-42 | window first, then instance; device and swapchain included, no descriptors; the debug messenger exactly with validation |
| VkStatic.TerminatePlan | src/vulkan/vk.cpp:48-60 | the window is destroyed last; the debug messenger exactly with validation |
| VkStatic.PlansWellOrdered | src/vulkan/vk.cpp:27-60 | terminate covers exactly what init creates, each once, in dependency-respecting orders |
| VkStatic.Init | src/vulkan/vk.cpp:27-42 | as for the interface, with debug utils followed by debug report appended under validation |
| VkStatic.DestructorReleasesInit | src/vulkan/vk.cpp:17-19 | the destructor destroys nothing after a failed init and, after a complete one, every created handle exactly once, dependents first |
| PipelineBuilder.Clear | src/vulkan/pipeline_builder.cpp:22-30 | `clear` empties the shader stages and resets every state record to its empty value, keeping only the layout |
| PipelineBuilder.NewBuilder | src/vulkan/pipeline_builder.cpp:10-12 | a new builder is cleared and has no layout |
| PipelineBuilder.ClearForgets | src/vulkan/pipeline_builder.cpp:22-30 | `clear` is idempotent, two builders clear alike exactly when their layouts agree, and a new builder is already clear |
| PipelineBuilder.ClearUndoesSetters | src/vulkan/pipeline_builder.cpp:22-30 | clearing after any setter other than the layout gives the same builder as clearing before it |
| PipelineBuilder.AddShaders | src/vulkan/pipeline_builder.cpp:101-115 | exactly two stages are appended, vertex then fragment, both with entry point "main"; earlier stages and all other fields are unchanged |
| PipelineBuilder.AddShaderPairsStages | src/vulkan/pipeline_builder.cpp:101-115 | repeated `addShaders` calls append their pairs in call order, nothing else changing |
| PipelineBuilder.SetVertexInputStateEmpty | src/vulkan/pipeline_builder.cpp:117-122 | no bindings and no attributes; nothing else changes |
| PipelineBuilder.SetVertexInputState | src/vulkan/pipeline_builder.cpp:130-138 | the counts equal the input lengths and the descriptions are the inputs; nothing else changes |
| PipelineBuilder.SetInputAssemblyState | src/vulkan/pipeline_builder.cpp:147-155 | topology, flags and primitive restart are the arguments; nothing else changes |
| PipelineBuilder.SetRasterizationState | src/vulkan/pipeline_builder.cpp:165-177 | mode, cull mode, front face and flags are the arguments; depth bias is always off and line width 1; depth clamp and discard keep their values |
| PipelineBuilder.SetMultisampleState | src/vulkan/pipeline_builder.cpp:185-191 | only the sample count and flags change |
| PipelineBuilder.SetMultisamplingNone | src/vulkan/pipeline_builder.cpp:193-202 | one sample, no sample shading (minimum 1), no alpha-to-coverage or alpha-to-one; the flags keep their value |
| PipelineBuilder.SetDepthStencilState | src/vulkan/pipeline_builder.cpp:211-220 | the write flag goes to both depth write and depth-bounds test, the compare op is set and the back op compares always; the depth-test flag is left as it was |
| PipelineBuilder.DepthTestArgumentIgnored | src/vulkan/pipeline_builder.cpp:211-220 | the depth-test argument has no effect, so after `clear` depth testing stays off whatever is passed |
| PipelineBuilder.DisableDepthtest | src/vulkan/pipeline_builder.cpp:222-232 | every depth and stencil test is off, compare op never, empty stencil ops, depth bounds 0 to 1 |
| PipelineBuilder.SetPipelineLayout | src/vulkan/pipeline_builder.cpp:239-241 | only the layout changes, to the argument |
| PipelineBuilder.DisableColorBlending | src/vulkan/pipeline_builder.cpp:247-250 | full RGBA write mask with blending off; the blend factors and ops are left as they were |
| PipelineBuilder.EnableBlendingAdditive | src/vulkan/pipeline_builder.cpp:256-265 | blending on, RGBA mask, colour SRC_ALPHA + ONE, alpha ONE + ZERO, both ops ADD |
| PipelineBuilder.EnableAlphaBlend | src/vulkan/pipeline_builder.cpp:271-280 | blending on, RGBA mask, colour SRC_ALPHA + ONE_MINUS_SRC_ALPHA, alpha ONE + ZERO, both ops ADD |
| PipelineBuilder.BlendPresetsDiffer | src/vulkan/pipeline_builder.cpp:256-280 | the two presets differ only in the destination colour factor, each overrides the other, and the result does not depend on the previous attachment |
| PipelineBuilder.DisableKeepsPresetFactors | src/vulkan/pipeline_builder.cpp:247-280 | disabling blending after a preset keeps that preset's factors, so it differs from disabling on a cleared builder |
| PipelineBuilder.Build | src/vulkan/pipeline_builder.cpp:49-93 | a failed creation is an error; otherwise the create-info has the stages and their count, dynamic scissor and viewport, one viewport and one scissor, no depth-stencil state, the single blend attachment, and the builder's other states, layout and render pass |
| PipelineBuilder.DepthStencilIgnoredByBuild | src/vulkan/pipeline_builder.cpp:49-93 | neither depth-stencil setter changes what `build` produces |
| Engine.NewEngine | src/engine/engine.cpp:162-172 | a new engine is on frame 0 with both flags clear and every fence unsignalled |
| Engine.DeviceIdle | src/vulkan/swapchain.cpp:35-36 | waiting for the device to go idle completes every pending fence and changes nothing else |
| Engine.Wait | src/engine/engine.cpp:226 | a wait succeeds exactly when the fence ends signalled: an unsignalled fence times out, a signalled one succeeds, a pending one succeeds exactly when the GPU finishes in time |
| Engine.FrameCommandsDrawReady | src/engine/engine.cpp:302-328 | the one indexed draw, of the mesh's index count, sits inside the render pass on the acquired framebuffer, after the pipeline, viewport, scissor, both buffers and this slot's descriptor set are bound |
| Engine.RecordCommandBuffer | src/engine/engine.cpp:281-333 | recording succeeds exactly when begin and end both do, each failure with its own error; it begins the slot's buffer and, once begun, records the frame commands and ends |
| Engine.RecordingCalls | src/engine/engine.cpp:281-333 | recording makes only begin, record and end calls |
| Engine.SubmitFrame | src/engine/engine.cpp:335-368 | a failed submit throws after the submit alone; otherwise the present follows on the present queue, waiting on what the submit signals, for the given image, and its result is returned |
| Engine.DrawFrame | src/engine/engine.cpp:224-258 | the frame index stays below `FRAME_COUNT` and there stays one fence per slot |
| Engine.RenderAcquired | src/engine/engine.cpp:239-257 | after the resets, the frame records and, only if recording succeeded, submits and presents |
| Engine.AcquiredFrameTrace | src/engine/engine.cpp:226-257 | an acquired frame waits, acquires, resets the fence and buffer, updates the uniform buffer, records, then submits and presents only if recording succeeded |
| Engine.RecordingIgnoresFences | src/engine/engine.cpp:281-333 | recording does not depend on any fence's state |
| Engine.FrameKeeps | src/engine/engine.cpp:224-258 | a frame changes only the frame index, its own slot's fence and the resize flag, and never clears that flag |
| Engine.RenderKeeps | src/engine/engine.cpp:239-257 | the rendering part changes only the frame index, this slot's fence and the resize flag, and never clears that flag |
| Engine.FrameBegins | src/engine/engine.cpp:226-229 | every frame starts by waiting on its slot's fence with the one-second timeout and then acquiring with its slot's image-available semaphore |
| Engine.FrameAdvance | src/engine/engine.cpp:229-257 | a frame ends without error exactly when the acquire was out of date or the frame completed, and the index moves to the next slot exactly when it completed |
| Engine.FrameErrors | src/engine/engine.cpp:235-255 | each failing call is fatal with its own error: acquire, begin, end, submit, and any present result other than success or out-of-date (suboptimal included) |
| Engine.OutOfDateAcquireSkipsFrame | src/engine/engine.cpp:229-234 | an out-of-date acquire sets the resize flag and returns after the wait and acquire, with no reset, record, submit, present or advance |
| Engine.CompletedFrameState | src/engine/engine.cpp:249-257 | a completed frame leaves its fence pending, and the resize flag set exactly when it was set before or the present was out of date |
| Engine.CompletedFrameOrder | src/engine/engine.cpp:226-257 | a completed frame calls, in order: wait, acquire, reset fence, reset buffer, update uniforms, begin, the frame commands, end, submit, present |
| Engine.SemaphoreChain | src/engine/engine.cpp:339-367 | the submit waits on the acquired semaphore at colour output, runs the recorded buffer, signals the fence that was waited on; the present waits on what the submit signals, for the acquired image |
| Engine.ResetWhilePending | src/engine/engine.cpp:226-239 | an acquired frame resets its fence while work is still pending exactly when the wait timed out on a pending fence |
| Engine.FirstWaitsTimeOut | src/vulkan/fence.h:11-16 | fences start unsignalled, so on a new engine the first frame's wait times out, and so does the second frame's wait after a first frame without error |
| Engine.NextSlotUnsignaled | src/engine/engine.cpp:224-258 | when every fence is unsignalled, the slot a frame without error moves to is still unsignalled |
| Engine.RecordingWithinSlot | src/engine/engine.cpp:281-333 | recording touches only the current slot's objects |
| Engine.SubmissionWithinSlot | src/engine/engine.cpp:335-368 | submit and present touch only the given slot's objects |
| Engine.FrameUsesOneSlot | src/engine/engine.cpp:224-258 | every call of a frame touches only the current slot's fence, semaphores, command buffer and uniform buffer, and none is a loop-level call |
| Engine.AcquiredRestWithinSlot | src/engine/engine.cpp:239-257 | everything after the acquire touches only the current slot |
| Engine.ResetsLifecycle | src/engine/engine.cpp:239-245 | the resets return the slot's command buffer to initial, are a misuse exactly when that buffer is pending, and leave every other buffer alone |
| Engine.FrameStartLifecycle | src/engine/engine.cpp:226-229 | the wait completes the slot's pending buffer exactly when it succeeds; the acquire changes no buffer |
| Engine.SubmissionLifecycle | src/engine/engine.cpp:335-368 | the submit makes the slot's executable buffer pending on the slot's fence and is a misuse from any other state; other buffers are untouched |
| Engine.RecordingLifecycle | src/engine/engine.cpp:281-333 | recording from initial leaves the slot's buffer executable, or recording if begin failed, and no other buffer changes |
| Engine.AcquiredLifecycle | src/engine/engine.cpp:239-257 | after an acquire, the slot's buffer is misused exactly when it is still pending; otherwise it ends recording after a failed begin, executable after a failed end, and pending on the slot's fence after the submit; other buffers are untouched |
| Engine.SkippedFrameLifecycle | src/engine/engine.cpp:229-237 | a frame that acquires nothing changes a buffer only by completing the one pending on the slot's fence when the wait succeeds |
| Engine.FrameLifecycle | src/engine/engine.cpp:224-258 | a frame misuses a command buffer exactly when it resets the slot's buffer after the wait timed out on a still-pending fence; a completed frame otherwise leaves that buffer pending on the slot's fence, other buffers are untouched, and buffer and fence states keep agreeing |
| Engine.NewEngineTracked | src/engine/engine.cpp:162-172 | on a new engine, no fence is pending and every buffer is initial, so buffer and fence states agree |
| Engine.IdleTracked | src/vulkan/swapchain.cpp:35-36 | once the device is idle, no buffer and no fence is pending, and the states still agree |
| Engine.ImmediateSubmit | src/engine/engine.cpp:370-409 | begin, end and submit failures are each fatal with their own error and leave the engine unchanged; on success only the upload fence changes, ending unsignalled |
| Engine.UploadOrder | src/engine/engine.cpp:370-409 | a successful upload begins one-time, records exactly the callback's commands, ends, submits, waits on that fence (succeeding exactly when the GPU finishes in time), then resets it |
| Engine.UploadPiecesLifecycle | src/engine/engine.cpp:379-408 | the upload recording takes its buffer from initial to executable; after the submit, the pool reset is legal exactly when the wait succeeded, and then the buffer is initial again |
| Engine.UploadLifecycle | src/engine/engine.cpp:370-409 | a successful upload uses its command buffer legally exactly when the GPU finishes before the wait gives up, and then leaves it initial |
| Engine.UploadUsesNoSlot | src/engine/engine.cpp:370-409 | the upload touches no frame slot's objects |
| Engine.InitPipelines | src/engine/engine.cpp:123-156 | layout and pipeline failures are each fatal; the basic pipeline has the vertex and fragment stages, the vertex tables, triangle lists, fill, back-face culling, counter-clockwise fronts, one sample, blending off, no depth-stencil state, on the layout and render pass |
| Engine.DynamicStatesSetBeforeDraw | src/engine/engine.cpp:306-326 | every dynamic state the basic pipeline declares is set by a command before the draw |
| Engine.FrameCommandsSetDynamicStates | src/engine/engine.cpp:306-318 | the viewport and scissor are both set before the draw |
| RunLoop.HandleEventsQuit | src/engine/engine.cpp:48-52 | after polling, the loop ends exactly when some event was a quit (or it was already ending) |
| RunLoop.HandleEventsResized | src/engine/engine.cpp:61-64 | the resize flag is set exactly when it was set or some event was a resize or size change |
| RunLoop.HandleEventsKeepStop | src/engine/engine.cpp:55-60 | with no minimise or restore event, the stop flag is unchanged |
| RunLoop.HandleEventsStop | src/engine/engine.cpp:55-60 | the last minimise or restore decides the stop flag: set after minimise, clear after restore |
| RunLoop.HandleEventsThenQuit | src/engine/engine.cpp:48-71 | a trailing quit only sets the quit flag |
| RunLoop.RunIteration | src/engine/engine.cpp:46-86 | an iteration keeps the frame index a slot and one fence per slot |
| RunLoop.DrawingIteration | src/engine/engine.cpp:79-85 | when not stopped, an iteration is the optional recreation followed by one frame on the recreated swapchain, with that frame's result |
| RunLoop.StoppedIterationSleeps | src/engine/engine.cpp:74-77 | while stopped, an iteration only sleeps 100 ms; it neither recreates nor draws and keeps a pending resize |
| RunLoop.IterationRecreates | src/engine/engine.cpp:79-82 | an iteration recreates once exactly when it is not stopped and a resize is pending; a failing recreation is fatal, a successful one installs the new swapchain |
| RunLoop.QuitFinishesIteration | src/engine/engine.cpp:46-86 | a quit among the events still lets the iteration sleep or draw as it would have, and then ends the loop |
| RunLoop.Run | src/engine/engine.cpp:42-90 | the loop keeps the frame index a slot and one fence per slot |
| RunLoop.RunFirstNoFailure | src/engine/engine.cpp:42-90 | a run without failure had a first iteration without failure |
| RunLoop.RunStops | src/engine/engine.cpp:42-90 | a failing iteration ends the run with its error and no shutdown |
| RunLoop.RunContinues | src/engine/engine.cpp:46-86 | without a quit, the run is this iteration followed by the rest of the run |
| RunLoop.RunQuits | src/engine/engine.cpp:46-89 | after the iteration that sees a quit, the run waits for the device to go idle, cleans up and exits without error |
| RunLoop.IterationLoopCalls | src/engine/engine.cpp:46-86 | the only loop-level calls an iteration makes are the sleep and the recreation |
| RunLoop.IterationNoShutdown | src/engine/engine.cpp:46-86 | no iteration waits for idle or cleans up |
| RunLoop.RunShutdown | src/engine/engine.cpp:86-89 | a run that exits has no error and ends with device-idle then cleanup, and neither call occurs anywhere else |
| RunLoop.NoQuitNoExit | src/engine/engine.cpp:44-51 | without a quit event the loop never exits |
| RunLoop.SubmitSubmitsOnce | src/engine/engine.cpp:352 | a successful submit is one queue submission for its slot |
| RunLoop.FrameSubmissions | src/engine/engine.cpp:224-258 | a frame without error submits once for its slot exactly when it completes, and the index moves once per submission |
| RunLoop.FrameSlotStep | src/engine/engine.cpp:249-257 | a frame submits at most once, in the current slot, and the index moves once per submission |
| RunLoop.IterationSubmissions | src/engine/engine.cpp:46-86 | an iteration without error submits at most once, in the current slot, and the index moves once per submission |
| RunLoop.RecreatedWhenNoFailure | src/engine/engine.cpp:79-82 | an iteration that draws without error had a successful recreation, if any |
| RunLoop.DrawingSubmissions | src/engine/engine.cpp:79-85 | a drawing iteration without error submits at most once, in the current slot, and the index moves with it |
| RunLoop.DrawingSlots | src/engine/engine.cpp:79-85 | a drawing iteration submits what its frame submits and ends on its frame's index and result |
| RunLoop.RoundRobin | src/engine/engine.cpp:42-90 | across a run without error, the k-th submission uses slot (start + k) mod 2 and the final index is (start + submissions) mod 2 |
| RunLoop.RoundRobinQuit | src/engine/engine.cpp:46-89 | the round-robin order holds for a run that quits after its first iteration |
| RunLoop.RoundRobinContinue | src/engine/engine.cpp:46-86 | the round-robin order of the rest of a run extends to the run |
| RunLoop.IterationLifecycle | src/engine/engine.cpp:46-86 | an iteration misuses a command buffer exactly when its frame resets the slot's still-pending buffer; without failure it keeps buffer and fence states agreeing, and it never touches the upload buffer |
| RunLoop.RunLifecycle | src/engine/engine.cpp:42-90 | a run misuses a command buffer exactly when one of its iterations, up to the first that fails or quits, resets a still-pending buffer; the loop never touches the upload buffer |
| RunLoop.RecreatedEngine | src/engine/engine.cpp:79-82 | recreating the swapchain keeps the frame index and the swapchain record, and keeps the engine well formed |
| RunLoop.ShutdownLifecycle | src/engine/engine.cpp:86-89 | the shutdown's device-idle wait completes any pending buffer |
| RunLoop.NewEngineRunLifecycle | src/engine/engine.cpp:42-90 | from a new engine, a run misuses a command buffer exactly when some iteration resets a still-pending buffer |

## Findings

| source | as written | input that shows it | evidently intended | confidence | as-written member | corrected member |
|---|---|---|---|---|---|---|
| src/engine/engine.cpp:96-117 | `cleanup` releases the frame command objects but not `uploadContext.cmd`, which holds a `shared_ptr` to the device (src/engine/engine.cpp:172, src/vulkan/command.h:19); so `device.reset()` inside `terminate` (src/vulkan/vk_interface.cpp:58) only drops a reference, the surface and instance are destroyed, and `vkDestroyDevice` (src/vulkan/device.cpp:20-22) runs later, when the engine itself is destroyed | any complete init followed by a run that quits: the teardown ends with the device, after the surface and the instance | the device destroyed before the surface and the instance, as the comment on `terminate` says ("in the correct order"), by releasing the upload context before `vk.reset()` | high, not executed | VkInterface.CleanupKeepsUploadDevice | VkInterface.DestructorReleasesInit |

## Left out

- Engine.DrawFrame: its own contract states only that the engine stays well formed. Its behaviour is stated by the Engine lemmas listed above.
- RunLoop.RunIteration: its own contract states only that the engine stays well formed. Its behaviour is stated by the RunLoop iteration lemmas.
- RunLoop.Run: its own contract states only that the engine stays well formed. Its behaviour is stated by `RunShutdown`, `RoundRobin`, `RunLifecycle` and the `Run*` step lemmas.
- Swapchain.Cleanup: the contract states only that the render pass survives. The full count is `CleanupCounts`.
- Swapchain.Destruct: the contract states only that the render pass is destroyed once. The full count is `DestructLive`.
- Swapchain.Clamp: says nothing when the bounds are reversed, because `std::clamp` leaves that case undefined. `ChooseExtent` promises the range only when the reported bounds are ordered.
- Swapchain.RequestedImageCount: `minImageCount + 1` wraps modulo 2^32 as the `uint32_t` addition does. The lower bound is promised only when no wrap occurs and the bounds are consistent.
- PipelineBuilder.SetVertexInputState: the counts are `uint32_t` casts of the vector sizes. Their equality to the lengths is promised only for lengths that fit in 32 bits.
- PipelineBuilder.Build: `stageCount` is promised to equal the number of stages only when that number fits in 32 bits.
- Device.GetQueueFamilies: requires at most 2^32 - 1 families, because the source counts them in a `uint32_t`.
- GPU execution and asynchrony: fences and semaphores exist only as host-visible state and trace events.
- Wall-clock time: `updateUniformBuffer` (src/engine/engine.cpp:260-273) computes floating-point glm matrices from the clock. It appears only as an event naming its slot. Its aspect ratio divides the height by itself.
- `uploadMesh` (src/engine/engine.cpp:411-435): unfinished staging code with no transfer and no release.
- `Engine::init`, `initFrames` and `initMeshes`: only the starting state they produce is modelled (`NewEngine`).
  - The mesh is reduced to its two buffer handles and its index count.
  - `mesh.h` and the `Mesh`, `Semaphore`, `PipelineBuilder` and `Fence` constructor signatures disagree between files (for instance `Fence()` at src/vulkan/fence.h:11 against `Fence(vk->device->logical)` at src/engine/engine.cpp:167 and 171), so the compile-level API is not modelled.
- `Engine::cleanup` (src/engine/engine.cpp:96-117) is a single trace event in the run loop. Which front-end handles its final `vk.reset()` destroys, and in what order, is `VkInterface.EngineTeardown`; the frame objects, pipelines and layouts it destroys before that are not modelled.
- `Command::~Command` (src/vulkan/command.cpp:9-11) destroys its pool through the static front end's device handle rather than the device it holds. Command pools are not part of the teardown model.
- The static front end's window and swapchain are `inline static` members (src/vulkan/vk.h:42-46), destroyed at program exit after every destructor has run. That exit-time destruction is not modelled, so `VkStatic` has no member destructors.
- An exception from `init` leaves `main` uncaught, and whether destructors run then is up to the implementation. The model states what they destroy when they do run.
- A failed `vkQueueSubmit` still counts as a submission in the command-buffer state machine: the buffer is marked pending although nothing was queued. The run ends with that failure, so no later step depends on it.
- One-time-submit buffers move to the invalid state after execution (section 6.1 of the Vulkan specification); the model merges that state with executable, since the only later use of the upload buffer is a pool reset, which is legal from both.
- Window events other than minimise, restore, resize and size-change are no-ops. `SDL_WINDOWEVENT` falls through to `default`, which does nothing.
- Inside the run loop, the swapchain's own calls during `recreate` are one `RecreateSwapchain` event. The `Swapchain` module models those calls.
- A recreation that fails throws, and so ends the run.
- A run is modelled as a finite sequence of iterations: any prefix of a real run.
- File and shader I/O: `readFile`, `createShader` and `createShaderModule` return opaque handles.
- Texture loading, SDL window creation, surface creation, allocator creation, debug-messenger callbacks and `vkGetInstanceProcAddr` lookups: each is one init step that succeeds or fails.
- Descriptor set layout and pool creation: constant create-info filling. `Descriptors` is one init step.
- Thin wrappers over buffers, images, commands, fences and semaphores: no logic of their own.
- The device functions of `src/vulkan/vk.cpp` (`pickPhysicalDevice`, `getQueueFamilies`, `createLogicalDevice`, `getQueues`) are the same code as `src/vulkan/device.cpp`. They are modelled once, in `Device`.
- Floating-point values (line width, depth bounds, minimum sample shading, clear colour, viewport size) are kept as opaque constants, with no arithmetic.
- The framebuffer bound for a frame is named by the acquired image index rather than by its handle.
- The pipeline layout is created with the single "ubo-object" set layout. The layout is modelled as one handle.
