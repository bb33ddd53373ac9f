/**
  The `VKInterface` front end of `src/vulkan/vk_interface.cpp`: which
  handles `init` creates and in what order, which `terminate` destroys and
  in what order, and the destructor that terminates only an initialised
  interface. Validation is a build-time switch (`NDEBUG`), a parameter here.

  The device is held through a `std::shared_ptr`, which the engine also
  hands to every `Command` it makes; resetting the interface's pointer
  destroys the device only when no command still holds it.
 */
module VkInterface {
  import opened Common
  import opened InstanceSetup

  /** The debug extensions this front end enables with validation. */
  const DebugExtensions: seq<string> := [DEBUG_UTILS_EXTENSION]

  /** What `init` creates after the swapchain: the descriptors. */
  const InitExtras: seq<Component> := [Descriptors]

  /** What `terminate` releases before the swapchain: the pipeline builder and the descriptors. */
  const TerminateExtras: seq<Component> := [PipelineBuilder, Descriptors]

  /**
    The smart-pointer members, in reverse declaration order, the order
    their implicit destructors run in: pipeline builder, descriptors,
    swapchain, device, window. The instance, surface and allocator are raw
    handles.
   */
  const Members: seq<Component> := [PipelineBuilder, Descriptors, Swapchain, Device, Window]

  /** The members are distinct and declared dependencies first, so they are destroyed dependents first. */
  lemma MembersOrdered()
    ensures Distinct(Members) && DependentsFirst(Members)
  {
    assert forall c :: c in Members ==> c == PipelineBuilder || c == Descriptors || c == Swapchain || c == Device || c == Window;
  }

  /** `init`: window, instance, debug messenger with validation, surface, device, allocator, swapchain, descriptors. */
  function InitPlan(validation: bool): (plan: seq<Component>)
    ensures |plan| >= 2 && plan[0] == Window && plan[1] == Instance
    ensures Device in plan && Swapchain in plan && Descriptors in plan && PipelineBuilder !in plan
    ensures DebugMessenger in plan <==> validation
  {
    InitPlanWith(validation, InitExtras)
  }

  /**
    `terminate`: the debug messenger with validation, then pipeline builder,
    descriptors, swapchain, allocator, device, surface, instance, window.
   */
  function TerminatePlan(validation: bool): (order: seq<Component>)
    ensures |order| > 0 && order[|order| - 1] == Window
    ensures DebugMessenger in order <==> validation
  {
    TerminatePlanWith(validation, TerminateExtras)
  }

  /**
    Both orders respect the handles' dependencies, each lists a handle once,
    and every handle `init` creates is one `terminate` destroys.
   */
  lemma PlansWellOrdered(validation: bool)
    ensures WellOrdered(InitPlan(validation), TerminatePlan(validation))
  {
    InstanceSetup.PlansWellOrdered(validation, InitExtras, TerminateExtras);
  }

  /** `init`, with the instance extensions of this front end. */
  method Init(validation: bool, env: Environment) returns (fe: FrontEnd)
    requires forall d :: d in env.devices ==> |d.queueFamilies| <= U32_MAX
    ensures |fe.outcome.created| <= |InitPlan(validation)|
    ensures fe.outcome.created == InitPlan(validation)[..|fe.outcome.created|]
    ensures fe.outcome.initialized <==> fe.outcome.created == InitPlan(validation)
    ensures fe.outcome.initialized ==>
      && fe.instance.Ok? && fe.device.Ok? && fe.swapchain.Ok?
      && fe.instance.value.enabledExtensions == RequiredExtensions(env.sdlExtensions, validation, DebugExtensions)
      && (validation ==> fe.instance.value.enabledLayers == ValidationLayers)
  {
    fe := Initialize(validation, DebugExtensions, InitPlan(validation), env);
  }

  /**
    What the engine's teardown destroys of this front end's handles:
    `vk.reset()` at the end of `Engine::cleanup` runs the destructor. When
    `uploadOwnsDevice`, the engine's upload command still shares the device
    at that point, so the destructor only drops its reference, and the
    device is destroyed afterwards, when the engine itself is destroyed and
    the upload command releases the last reference.
   */
  function EngineTeardown(validation: bool, o: InitOutcome, uploadOwnsDevice: bool): (destroyed: seq<Component>)
    ensures uploadOwnsDevice && Device in o.created ==> |destroyed| > 0 && destroyed[|destroyed| - 1] == Device
    ensures !uploadOwnsDevice ==> destroyed == Destruct(o, TerminatePlan(validation), Members, {})
  {
    var shared := if uploadOwnsDevice then {Device} else {};
    Destruct(o, TerminatePlan(validation), Members, shared) + (if uploadOwnsDevice && Device in o.created then [Device] else [])
  }

  /**
    As written, `Engine::cleanup` releases the frame command buffers but
    not the upload context, whose command still holds the device. After a
    complete init every handle is still destroyed exactly once, but the
    device is destroyed last, after the surface and the instance it was
    created from, against the order `terminate` is written in.
   */
  lemma CleanupKeepsUploadDevice(validation: bool, o: InitOutcome)
    requires o.initialized && o.created == InitPlan(validation)
    ensures var d := EngineTeardown(validation, o, true);
      && |d| > 0 && d[|d| - 1] == Device
      && Instance in d[..|d| - 1] && Surface in d[..|d| - 1]
      && (forall c :: Count(d, c) == Count(o.created, c))
      && !DependentsFirst(d)
  {
    var body := Destruct(o, TerminatePlan(validation), Members, {Device});
    var d := body + [Device];
    assert EngineTeardown(validation, o, true) == d;
    SharedDeviceBody(validation, o);
    InitCreatesDeviceOnce(validation);
    assert d[..|d| - 1] == body;
    forall c
      ensures Count(d, c) == Count(o.created, c)
    {
      CountAppend(body, [Device], c);
      assert Count([Device], c) == if c == Device then 1 else 0;
    }
    var j :| 0 <= j < |body| && body[j] == Instance;
    assert d[j] == Instance && d[|d| - 1] == Device && DependsOn(d[|d| - 1], d[j]);
  }

  /** A complete init creates one device. */
  lemma InitCreatesDeviceOnce(validation: bool)
    ensures Count(InitPlan(validation), Device) == 1
  {
    InitOrdered(validation, InitExtras);
    DistinctCount(InitPlan(validation), Device);
  }

  /** The destructor's part when the device is shared: everything created but the device, once each. */
  lemma SharedDeviceBody(validation: bool, o: InitOutcome)
    requires o.initialized && o.created == InitPlan(validation)
    ensures var body := Destruct(o, TerminatePlan(validation), Members, {Device});
      && Instance in body && Surface in body
      && forall c :: Count(body, c) == (if c == Device then 0 else Count(o.created, c))
  {
    var body := Destruct(o, TerminatePlan(validation), Members, {Device});
    SharedDeviceCounts(validation, o);
    InitCreatesInstanceAndSurface(validation);
    assert Count(body, Instance) == Count(o.created, Instance) > 0;
    assert Count(body, Surface) == Count(o.created, Surface) > 0;
  }

  /** What the destructor releases when the device is shared. */
  lemma SharedDeviceCounts(validation: bool, o: InitOutcome)
    requires o.initialized && o.created == InitPlan(validation)
    ensures var body := Destruct(o, TerminatePlan(validation), Members, {Device});
      forall c :: Count(body, c) == (if c == Device then 0 else Count(o.created, c))
  {
    MembersOrdered();
    DestructorReleases(validation, InitExtras, TerminateExtras, Members, {Device}, o);
  }

  /** A complete init creates the instance and the surface. */
  lemma InitCreatesInstanceAndSurface(validation: bool)
    ensures Instance in InitPlan(validation) && Surface in InitPlan(validation)
  {
    var plan := InitPlan(validation);
    assert plan[1] == Instance;
    assert plan[if validation then 3 else 2] == Surface;
  }

  /**
    With the upload context released before `vk.reset()`, so that the
    interface is the device's only owner, the teardown is the destructor
    alone. It destroys every handle a complete init created exactly once,
    each before the handles it depends on. After a failed init it destroys
    exactly the created handles held by smart-pointer members, once each,
    and never the instance, surface or allocator.
   */
  lemma DestructorReleasesInit(validation: bool, o: InitOutcome)
    requires o.initialized ==> o.created == InitPlan(validation)
    ensures var d := EngineTeardown(validation, o, false);
      && DependentsFirst(d)
      && (o.initialized ==> forall c :: Count(d, c) == Count(o.created, c))
      && (!o.initialized ==> forall c :: Count(d, c) == (if c in o.created && c in Members then 1 else 0))
  {
    MembersOrdered();
    DestructorReleases(validation, InitExtras, TerminateExtras, Members, {}, o);
  }
}
