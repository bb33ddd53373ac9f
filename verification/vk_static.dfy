/**
  The older static `vk` front end of `src/vulkan/vk.cpp`: the same
  instance, device and swapchain steps as `VKInterface`, two debug
  extensions instead of one, no descriptors and no pipeline builder. The
  device is a raw `VkDevice` that `terminate` destroys itself, and every
  member is static, so destroying a `vk` object runs only its destructor's
  body.
 */
module VkStatic {
  import opened Common
  import opened InstanceSetup

  /** The debug extensions this front end enables with validation, in order. */
  const DebugExtensions: seq<string> := [DEBUG_UTILS_EXTENSION, DEBUG_REPORT_EXTENSION]

  /** `init`: window, instance, debug messenger with validation, surface, device, allocator, swapchain. */
  function InitPlan(validation: bool): (plan: seq<Component>)
    ensures |plan| >= 2 && plan[0] == Window && plan[1] == Instance
    ensures Device in plan && Swapchain in plan && Descriptors !in plan && PipelineBuilder !in plan
    ensures DebugMessenger in plan <==> validation
  {
    InitPlanWith(validation, [])
  }

  /** `terminate`: the debug messenger with validation, then swapchain, allocator, device, surface, instance, window. */
  function TerminatePlan(validation: bool): (order: seq<Component>)
    ensures |order| > 0 && order[|order| - 1] == Window
    ensures DebugMessenger in order <==> validation
  {
    TerminatePlanWith(validation, [])
  }

  /**
    Both orders respect the handles' dependencies, each lists a handle once,
    and every handle `init` creates is one `terminate` destroys.
   */
  lemma PlansWellOrdered(validation: bool)
    ensures WellOrdered(InitPlan(validation), TerminatePlan(validation))
  {
    InstanceSetup.PlansWellOrdered(validation, [], []);
  }

  /** `init`, with the instance extensions of this front end. */
  method Init(validation: bool, env: Environment) returns (fe: FrontEnd)
    requires forall d :: d in env.devices ==> |d.queueFamilies| <= U32_MAX
    ensures |fe.outcome.created| <= |InitPlan(validation)|
    ensures fe.outcome.created == InitPlan(validation)[..|fe.outcome.created|]
    ensures fe.outcome.initialized <==> fe.outcome.created == InitPlan(validation)
    ensures fe.outcome.initialized ==>
      && fe.instance.Ok? && fe.device.Ok? && fe.swapchain.Ok?
      && fe.instance.value.enabledExtensions == RequiredExtensions(env.sdlExtensions, validation, DebugExtensions)
      && (validation ==> fe.instance.value.enabledLayers == ValidationLayers)
  {
    fe := Initialize(validation, DebugExtensions, InitPlan(validation), env);
  }

  /**
    The destructor: nothing when `init` did not complete; otherwise every
    created handle exactly once, each before the handles it depends on.
   */
  lemma DestructorReleasesInit(validation: bool, o: InitOutcome)
    requires o.initialized ==> o.created == InitPlan(validation)
    ensures !o.initialized ==> Destruct(o, TerminatePlan(validation), [], {}) == []
    ensures o.initialized ==>
      && (forall c :: Count(Destruct(o, TerminatePlan(validation), [], {}), c) == Count(o.created, c))
      && DependentsFirst(Destruct(o, TerminatePlan(validation), [], {}))
  {
    DestructorReleases(validation, [], [], [], {}, o);
  }
}
