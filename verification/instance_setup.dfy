/**
  The instance-level setup shared by the two Vulkan front ends,
  `src/vulkan/vk_interface.cpp` and its older static variant
  `src/vulkan/vk.cpp`: the validation-layer support check, the list of
  enabled instance extensions, the instance create-info, and the ordered
  creation and destruction of the handles the front ends own.
 */
module InstanceSetup {
  import opened Common
  import opened Types
  import Dev = Device
  import Sc = Swapchain

  /** `validationLayers` */
  const ValidationLayers: seq<string> := ["VK_LAYER_KHRONOS_validation"]

  /** `VK_EXT_DEBUG_UTILS_EXTENSION_NAME` */
  const DEBUG_UTILS_EXTENSION: string := "VK_EXT_debug_utils"
  /** `VK_EXT_DEBUG_REPORT_EXTENSION_NAME` */
  const DEBUG_REPORT_EXTENSION: string := "VK_EXT_debug_report"

  const APPLICATION_NAME: string := "Manaburn"
  const ENGINE_NAME: string := "No Engine"

  // ---------------------------------------------------------------------------
  // Validation layers

  /** Every requested layer name occurs among the available ones. */
  predicate LayersSupported(requested: seq<string>, available: seq<string>) {
    forall i :: 0 <= i < |requested| ==> requested[i] in available
  }

  /**
    `checkValidationLayerSupport`: for each requested name, scan the
    available layers for an equal name (`strcmp`), and give up at the first
    name that is not found.
   */
  method CheckValidationLayerSupport(requested: seq<string>, available: seq<string>) returns (supported: bool)
    ensures supported <==> LayersSupported(requested, available)
  {
    var i := 0;
    while i < |requested|
      invariant 0 <= i <= |requested|
      invariant forall k :: 0 <= k < i ==> requested[k] in available
    {
      var layerFound := false;
      var j := 0;
      while j < |available| && !layerFound
        invariant 0 <= j <= |available|
        invariant layerFound ==> requested[i] in available
        invariant !layerFound ==> requested[i] !in available[..j]
        decreases |available| - j, !layerFound
      {
        if requested[i] == available[j] {
          layerFound := true;
        } else {
          j := j + 1;
        }
      }
      if !layerFound {
        assert available[..j] == available;
        return false;
      }
      i := i + 1;
    }
    return true;
  }

  // ---------------------------------------------------------------------------
  // Instance extensions

  /**
    `getRequiredExtensions`: the extensions SDL asks for, in SDL's order,
    followed by the debug extensions when validation is enabled.
   */
  function RequiredExtensions(sdl: seq<string>, validation: bool, debug: seq<string>): (r: seq<string>)
    ensures |r| == |sdl| + (if validation then |debug| else 0)
    ensures r[..|sdl|] == sdl
    ensures validation ==> r[|sdl|..] == debug
    ensures forall e :: e in r <==> e in sdl || (validation && e in debug)
  {
    if validation then sdl + debug else sdl
  }

  // ---------------------------------------------------------------------------
  // Instance

  /** The parts of `VkInstanceCreateInfo` and its `VkApplicationInfo` the source fills in. */
  datatype InstanceCreateInfo = InstanceCreateInfo(
    applicationName: string,
    engineName: string,
    apiVersion: (nat, nat),
    enabledExtensions: seq<string>,
    enabledLayers: seq<string>)

  /**
    `createInstance`: assemble the create-info; with validation enabled the
    validation layers must all be available, and are then the enabled
    layers; without it no layer is enabled. `created` is what
    `vkCreateInstance` returns.
   */
  function CreateInstance(validation: bool, sdl: seq<string>, debug: seq<string>,
                          available: seq<string>, created: VkResult): (r: Result<InstanceCreateInfo>)
    ensures r == Err(ValidationLayersUnavailable) <==> validation && !LayersSupported(ValidationLayers, available)
    ensures r == Err(InstanceCreationFailed) <==>
              (!validation || LayersSupported(ValidationLayers, available)) && created != Success
    ensures r.Ok? ==>
      && created == Success
      && r.value.enabledExtensions == RequiredExtensions(sdl, validation, debug)
      && |r.value.enabledLayers| == (if validation then |ValidationLayers| else 0)
      && (validation ==> r.value.enabledLayers == ValidationLayers)
      && r.value.applicationName == APPLICATION_NAME && r.value.apiVersion == (1, 0)
  {
    var extensions := RequiredExtensions(sdl, validation, debug);
    if validation && !LayersSupported(ValidationLayers, available) then Err(ValidationLayersUnavailable)
    else
      var layers := if validation then ValidationLayers else [];
      if created != Success then Err(InstanceCreationFailed)
      else Ok(InstanceCreateInfo(APPLICATION_NAME, ENGINE_NAME, (1, 0), extensions, layers))
  }

  // ---------------------------------------------------------------------------
  // Owned handles and their order

  /** The handles a front end owns. */
  datatype Component =
    | Window | Instance | DebugMessenger | Surface | Device | Allocator | Swapchain | Descriptors | PipelineBuilder

  /**
    `a` is made from, or destroyed through, `b`, so `b` must exist for the
    whole lifetime of `a`.
   */
  predicate DependsOn(a: Component, b: Component) {
    match a
    case Window => false
    case Instance => false
    case DebugMessenger => b == Instance
    case Surface => b == Instance || b == Window
    case Device => b == Instance || b == Surface
    case Allocator => b == Instance || b == Device
    case Swapchain => b == Instance || b == Device || b == Surface || b == Window
    case Descriptors => b == Device
    case PipelineBuilder => b == Device
  }

  /** Every component of `plan` is created after everything it depends on. */
  predicate DependenciesFirst(plan: seq<Component>) {
    forall i, b :: 0 <= i < |plan| && DependsOn(plan[i], b) ==> b in plan[..i]
  }

  /** Every component of `order` is destroyed before everything it depends on. */
  predicate DependentsFirst(order: seq<Component>) {
    forall i, j :: 0 <= i < |order| && 0 <= j < |order| && DependsOn(order[i], order[j]) ==> i < j
  }

  /** The outcome of running an init plan. */
  datatype InitOutcome = InitOutcome(created: seq<Component>, initialized: bool, failure: Option<Error>)

  /**
    Create the components of `plan` in order; the first one that fails
    throws, which leaves the ones before it created and `initialized`
    unset. `failures` says which components fail and with what error.
   */
  function RunPlan(plan: seq<Component>, failures: map<Component, Error>): (o: InitOutcome)
    ensures o.initialized <==> o.failure.None?
    ensures |o.created| <= |plan| && o.created == plan[..|o.created|]
    ensures forall i :: 0 <= i < |o.created| ==> o.created[i] !in failures
    ensures o.initialized <==> o.created == plan
    ensures !o.initialized ==>
              && |o.created| < |plan|
              && plan[|o.created|] in failures
              && o.failure == Some(failures[plan[|o.created|]])
    decreases |plan|
  {
    if |plan| == 0 then InitOutcome([], true, None)
    else if plan[0] in failures then InitOutcome([], false, Some(failures[plan[0]]))
    else
      var rest := RunPlan(plan[1..], failures);
      InitOutcome([plan[0]] + rest.created, rest.initialized, rest.failure)
  }

  /**
    A plan succeeds exactly when none of its components fails, and a
    partial run of a well-ordered plan never holds a component without
    what it depends on.
   */
  lemma RunPlanOutcome(plan: seq<Component>, failures: map<Component, Error>)
    ensures RunPlan(plan, failures).initialized <==> forall i :: 0 <= i < |plan| ==> plan[i] !in failures
    ensures DependenciesFirst(plan) ==> DependenciesFirst(RunPlan(plan, failures).created)
  {
    var o := RunPlan(plan, failures);
    if DependenciesFirst(plan) {
      forall i, b | 0 <= i < |o.created| && DependsOn(o.created[i], b)
        ensures b in o.created[..i]
      {
        assert o.created[i] == plan[i];
        assert o.created[..i] == plan[..i];
      }
    }
  }

  /**
    Teardown in `order`, skipping what is not held: resetting an empty
    `std::unique_ptr` destroys nothing.
   */
  function Release(order: seq<Component>, held: set<Component>): (destroyed: seq<Component>)
    ensures forall c :: Count(destroyed, c) == (if c in held then Count(order, c) else 0)
  {
    if |order| == 0 then []
    else
      var rest := Release(order[1..], held);
      if order[0] in held then
        assert ([order[0]] + rest)[1..] == rest;
        [order[0]] + rest
      else rest
  }

  /** Skipping components keeps a dependents-first order dependents-first. */
  lemma {:induction false} ReleaseKeepsOrder(order: seq<Component>, held: set<Component>)
    requires DependentsFirst(order)
    ensures DependentsFirst(Release(order, held))
  {
    if |order| > 0 {
      var tail := order[1..];
      assert DependentsFirst(tail) by {
        forall i, j | 0 <= i < |tail| && 0 <= j < |tail| && DependsOn(tail[i], tail[j])
          ensures i < j
        {
          assert order[i + 1] == tail[i] && order[j + 1] == tail[j];
        }
      }
      ReleaseKeepsOrder(tail, held);
      var rest := Release(tail, held);
      if order[0] in held {
        forall x | x in rest
          ensures !DependsOn(x, order[0])
        {
          assert Count(tail, x) > 0;
          var k :| 0 <= k < |tail| && tail[k] == x;
          assert order[k + 1] == x;
        }
        DependsOnIrreflexive(order[0]);
        var s := [order[0]] + rest;
        forall i, j | 0 <= i < |s| && 0 <= j < |s| && DependsOn(s[i], s[j])
          ensures i < j
        {
          if i > 0 && j > 0 {
            assert rest[i - 1] == s[i] && rest[j - 1] == s[j];
          }
        }
      }
    }
  }

  /** No component depends on itself, so a dependency is always a different handle. */
  lemma DependsOnIrreflexive(c: Component)
    ensures !DependsOn(c, c)
  {
  }

  /** No component occurs twice. */
  predicate Distinct(s: seq<Component>) {
    forall i, j :: 0 <= i < j < |s| ==> s[i] != s[j]
  }

  /** In a sequence without repetitions everything occurs at most once. */
  lemma {:induction false} DistinctCount(s: seq<Component>, c: Component)
    requires Distinct(s)
    ensures Count(s, c) == if c in s then 1 else 0
  {
    if |s| > 0 {
      var tail := s[1..];
      assert Distinct(tail) by {
        forall i, j | 0 <= i < j < |tail|
          ensures tail[i] != tail[j]
        {
          assert s[i + 1] == tail[i] && s[j + 1] == tail[j];
        }
      }
      DistinctCount(tail, c);
      if s[0] == c {
        forall k | 0 <= k < |tail|
          ensures tail[k] != c
        {
          assert s[k + 1] == tail[k];
        }
      }
    }
  }

  /**
    The lifetime obligations of one front end: each order lists a handle at
    most once and respects the dependencies, and terminate covers what init
    creates.
   */
  predicate WellOrdered(init: seq<Component>, terminate: seq<Component>) {
    && Distinct(init)
    && Distinct(terminate)
    && DependenciesFirst(init)
    && DependentsFirst(terminate)
    && (forall i :: 0 <= i < |init| ==> init[i] in terminate)
  }

  /**
    The handles a front end owns when its destructor runs: what init
    created, less the handles in `shared`, which another owner still holds,
    so that releasing this front end's reference destroys nothing.
   */
  function Owned(o: InitOutcome, shared: set<Component>): set<Component> {
    (set c | c in o.created) - shared
  }

  /**
    The destructor: its body terminates, releasing in `terminate` order,
    when and only when init completed; then the implicit destructors of the
    smart-pointer members run in `members` order and release what they
    still hold, which after a terminate is nothing. Raw handles are only
    ever destroyed by terminate.
   */
  function Destruct(o: InitOutcome, terminate: seq<Component>, members: seq<Component>, shared: set<Component>)
    : (destroyed: seq<Component>)
    ensures o.initialized ==>
      forall c :: Count(destroyed, c) == (if c in o.created && c !in shared then Count(terminate, c) else 0)
    ensures !o.initialized ==>
      forall c :: Count(destroyed, c) == (if c in o.created && c !in shared then Count(members, c) else 0)
  {
    if o.initialized then Release(terminate, Owned(o, shared)) else Release(members, Owned(o, shared))
  }

  /**
    For well-ordered plans and members destroyed dependents first, the
    destructor never destroys a handle before one that depends on it. After
    a complete init it destroys every created handle that it alone owns
    exactly once; after a failed init it destroys exactly the created
    handles held by smart-pointer members that it alone owns, once each,
    and the raw handles created before the throw are never destroyed.
   */
  lemma DestructBalanced(init: seq<Component>, terminate: seq<Component>, members: seq<Component>,
                         failures: map<Component, Error>, shared: set<Component>)
    requires WellOrdered(init, terminate)
    requires Distinct(members) && DependentsFirst(members)
    ensures var o := RunPlan(init, failures); var d := Destruct(o, terminate, members, shared);
      && DependentsFirst(d)
      && (o.initialized ==> forall c :: Count(d, c) == (if c in shared then 0 else Count(o.created, c)))
      && (!o.initialized ==> forall c :: Count(d, c) == (if c in o.created && c in members && c !in shared then 1 else 0))
  {
    var o := RunPlan(init, failures);
    var owned := Owned(o, shared);
    ReleaseKeepsOrder(terminate, owned);
    ReleaseKeepsOrder(members, owned);
    forall c
      ensures o.initialized ==> Count(Destruct(o, terminate, members, shared), c) == (if c in shared then 0 else Count(o.created, c))
      ensures !o.initialized ==>
        Count(Destruct(o, terminate, members, shared), c) == (if c in o.created && c in members && c !in shared then 1 else 0)
    {
      DistinctCount(init, c);
      DistinctCount(terminate, c);
      DistinctCount(members, c);
      if c in o.created {
        assert c in init;
      }
    }
  }

  // ---------------------------------------------------------------------------
  // The two front ends' plans

  /**
    The init order both front ends share: window, instance, the debug
    messenger with validation, surface, device, allocator, swapchain, then
    the front end's `extras`.
   */
  function InitPlanWith(validation: bool, extras: seq<Component>): (plan: seq<Component>)
    ensures |plan| >= 2 && plan[0] == Window && plan[1] == Instance
    ensures Device in plan && Swapchain in plan
    ensures DebugMessenger in plan <==> validation || DebugMessenger in extras
  {
    [Window, Instance] + (if validation then [DebugMessenger] else []) + [Surface, Device, Allocator, Swapchain] + extras
  }

  /**
    The terminate order both front ends share: the debug messenger with
    validation, the front end's `extras`, then swapchain, allocator, device,
    surface, instance, and the window last.
   */
  function TerminatePlanWith(validation: bool, extras: seq<Component>): (order: seq<Component>)
    ensures |order| > 0 && order[|order| - 1] == Window
    ensures DebugMessenger in order <==> validation || DebugMessenger in extras
  {
    (if validation then [DebugMessenger] else []) + extras + [Swapchain, Allocator, Device, Surface, Instance, Window]
  }

  /** Extra handles made from the device alone, each listed once. */
  predicate DeviceChildren(extras: seq<Component>) {
    Distinct(extras) && forall i :: 0 <= i < |extras| ==> extras[i] == Descriptors || extras[i] == PipelineBuilder
  }

  /** `init` creates each handle once, after the handles it depends on. */
  lemma InitOrdered(validation: bool, extras: seq<Component>)
    requires DeviceChildren(extras)
    ensures Distinct(InitPlanWith(validation, extras))
    ensures DependenciesFirst(InitPlanWith(validation, extras))
  {
    var plan := InitPlanWith(validation, extras);
    var off := if validation then 1 else 0;
    assert forall i :: off + 6 <= i < |plan| ==> plan[i] == extras[i - off - 6];
    forall i, b | 0 <= i < |plan| && DependsOn(plan[i], b)
      ensures b in plan[..i]
    {
      // only the window, the instance, the surface and the device are depended on
      var k := if b == Window then 0 else if b == Instance then 1 else if b == Surface then off + 2 else off + 3;
      assert plan[..i][k] == b;
    }
  }

  /** Where each handle sits in the shared terminate order: the debug messenger and the extras come first. */
  lemma TerminatePositions(validation: bool, extras: seq<Component>, j: nat)
    requires DeviceChildren(extras) && j < |TerminatePlanWith(validation, extras)|
    ensures var order := TerminatePlanWith(validation, extras); var n := (if validation then 1 else 0) + |extras|;
      && |order| == n + 6
      && (j < n ==> order[j] == DebugMessenger || order[j] == Descriptors || order[j] == PipelineBuilder)
      && (j < n && order[j] == DebugMessenger ==> j == 0 && validation)
      && (order[j] == Swapchain ==> j == n)
      && (order[j] == Allocator ==> j == n + 1)
      && (order[j] == Device ==> j == n + 2)
      && (order[j] == Surface ==> j == n + 3)
      && (order[j] == Instance ==> j == n + 4)
      && (order[j] == Window ==> j == n + 5)
  {
    var order := TerminatePlanWith(validation, extras);
    var off := if validation then 1 else 0;
    if off <= j < off + |extras| {
      assert order[j] == extras[j - off];
    }
  }

  /** `terminate` destroys each handle once, before the handles it depends on. */
  lemma TerminateOrdered(validation: bool, extras: seq<Component>)
    requires DeviceChildren(extras)
    ensures Distinct(TerminatePlanWith(validation, extras))
    ensures DependentsFirst(TerminatePlanWith(validation, extras))
  {
    var order := TerminatePlanWith(validation, extras);
    var off := if validation then 1 else 0;
    forall i, j | 0 <= i < j < |order|
      ensures order[i] != order[j]
    {
      TerminatePositions(validation, extras, i);
      TerminatePositions(validation, extras, j);
      if off <= i && j < off + |extras| {
        assert order[i] == extras[i - off] && order[j] == extras[j - off];
      }
    }
    forall i, j | 0 <= i < |order| && 0 <= j < |order| && DependsOn(order[i], order[j])
      ensures i < j
    {
      TerminatePositions(validation, extras, i);
      TerminatePositions(validation, extras, j);
    }
  }

  /**
    Both orders respect the handles' dependencies, and every handle `init`
    creates is one `terminate` destroys, when the init extras are among the
    terminate extras.
   */
  lemma PlansWellOrdered(validation: bool, initExtras: seq<Component>, terminateExtras: seq<Component>)
    requires DeviceChildren(initExtras) && DeviceChildren(terminateExtras)
    requires forall x :: x in initExtras ==> x in terminateExtras
    ensures WellOrdered(InitPlanWith(validation, initExtras), TerminatePlanWith(validation, terminateExtras))
  {
    InitOrdered(validation, initExtras);
    TerminateOrdered(validation, terminateExtras);
  }

  /**
    The destructor of a front end with these plans: nothing when init did
    not complete and no member holds a handle; otherwise every created
    handle it alone owns exactly once, each before the handles it depends
    on.
   */
  lemma DestructorReleases(validation: bool, initExtras: seq<Component>, terminateExtras: seq<Component>,
                           members: seq<Component>, shared: set<Component>, o: InitOutcome)
    requires DeviceChildren(initExtras) && DeviceChildren(terminateExtras)
    requires forall x :: x in initExtras ==> x in terminateExtras
    requires Distinct(members) && DependentsFirst(members)
    requires o.initialized ==> o.created == InitPlanWith(validation, initExtras)
    ensures !o.initialized && members == [] ==> Destruct(o, TerminatePlanWith(validation, terminateExtras), members, shared) == []
    ensures var d := Destruct(o, TerminatePlanWith(validation, terminateExtras), members, shared);
      && DependentsFirst(d)
      && (o.initialized ==> forall c :: Count(d, c) == (if c in shared then 0 else Count(o.created, c)))
      && (!o.initialized ==> forall c :: Count(d, c) == (if c in o.created && c in members && c !in shared then 1 else 0))
  {
    forall c | !o.initialized
      ensures Count(Destruct(o, TerminatePlanWith(validation, terminateExtras), members, shared), c)
           == (if c in o.created && c in members && c !in shared then 1 else 0)
    {
      DistinctCount(members, c);
    }
    var init := InitPlanWith(validation, initExtras);
    var terminate := TerminatePlanWith(validation, terminateExtras);
    PlansWellOrdered(validation, initExtras, terminateExtras);
    var owned := Owned(o, shared);
    ReleaseKeepsOrder(members, owned);
    if o.initialized {
      var failures: map<Component, Error> := map[];
      RunPlanOutcome(init, failures);
      var r := RunPlan(init, failures);
      assert r.created == o.created && r.initialized;
      assert Destruct(r, terminate, members, shared) == Destruct(o, terminate, members, shared);
      DestructBalanced(init, terminate, members, failures, shared);
    }
  }

  // ---------------------------------------------------------------------------
  // Init

  /**
    What the platform reports while a front end initialises: which of the
    window, debug messenger, surface, allocator and descriptor creations
    fail, the SDL extension list, the available layers, the result of
    `vkCreateInstance`, the enumerated devices, the result of
    `vkCreateDevice`, and what the swapchain constructor sees.
   */
  datatype Environment = Environment(
    failures: map<Component, Error>,
    sdlExtensions: seq<string>,
    availableLayers: seq<string>,
    instanceResult: VkResult,
    devices: seq<Dev.PhysicalDevice>,
    deviceResult: VkResult,
    surface: Sc.Surface)

  /** A front end after `init`: how far it got, and the objects it built. */
  datatype FrontEnd = FrontEnd(
    outcome: InitOutcome,
    instance: Result<InstanceCreateInfo>,
    device: Result<Dev.DeviceState>,
    swapchain: Result<Sc.Swapchain>)

  /** The device the front end would pick has both queue families. */
  predicate DeviceUsable(env: Environment) {
    |env.devices| > 0 && Dev.HasBoth(env.devices[0].queueFamilies, |env.devices[0].queueFamilies|)
  }

  /** The swapchain step: constructed on the device's queue families, or never reached. */
  function SwapchainStep(device: Result<Dev.DeviceState>, env: Environment): (r: Result<Sc.Swapchain>)
    ensures device.Err? ==> r.Err?
    ensures r.Ok? ==> Sc.Valid(r.value) && r.value.queueIndices == device.value.queueIndices
  {
    if device.Err? then Err(device.error)
    else Sc.Construct(device.value.queueIndices, env.surface).result
  }

  /**
    Which init steps throw: the instance, device and swapchain steps as
    their models decide (the swapchain only once a device exists), the
    others as the environment says.
   */
  function StepFailures(env: Environment, instance: Result<InstanceCreateInfo>, device: Result<Dev.DeviceState>,
                        swapchain: Result<Sc.Swapchain>): (f: map<Component, Error>)
    ensures Instance in f <==> instance.Err?
    ensures instance.Err? ==> f[Instance] == instance.error
    ensures Device in f <==> device.Err?
    ensures Swapchain in f <==> device.Ok? && swapchain.Err?
    ensures forall c :: c != Instance && c != Device && c != Swapchain ==>
              (c in f <==> c in env.failures) && (c in f ==> f[c] == env.failures[c])
  {
    var f0 := env.failures - {Instance, Device, Swapchain};
    var f1 := if instance.Err? then f0[Instance := instance.error] else f0;
    var f2 := if device.Err? then f1[Device := device.error] else f1;
    if device.Ok? && swapchain.Err? then f2[Swapchain := swapchain.error] else f2
  }

  /** How far a plan gets when its first or second step throws. */
  lemma EarlyFailure(plan: seq<Component>, failures: map<Component, Error>)
    requires |plan| >= 2
    ensures plan[0] in failures ==>
              RunPlan(plan, failures).created == [] && RunPlan(plan, failures).failure == Some(failures[plan[0]])
    ensures (plan[0] !in failures && plan[1] in failures) ==>
              RunPlan(plan, failures).created == [plan[0]] && RunPlan(plan, failures).failure == Some(failures[plan[1]])
  {
  }

  /**
    `init`: run `plan` (which lists the window first, then the instance,
    and later the device and the swapchain), where the instance, device and
    swapchain steps fail exactly as their own models say and the other
    steps as `env.failures` says.
   */
  method Initialize(validation: bool, debug: seq<string>, plan: seq<Component>, env: Environment) returns (fe: FrontEnd)
    requires forall d :: d in env.devices ==> |d.queueFamilies| <= U32_MAX
    requires |plan| >= 2 && plan[0] == Window && plan[1] == Instance
    requires Device in plan && Swapchain in plan
    ensures |fe.outcome.created| <= |plan| && fe.outcome.created == plan[..|fe.outcome.created|]
    ensures fe.outcome.initialized <==> fe.outcome.created == plan
    ensures fe.outcome.initialized ==>
      && fe.instance.Ok? && fe.device.Ok? && fe.swapchain.Ok?
      && fe.instance.value.enabledExtensions == RequiredExtensions(env.sdlExtensions, validation, debug)
      && (validation ==> fe.instance.value.enabledLayers == ValidationLayers)
      && Sc.Valid(fe.swapchain.value)
      && fe.swapchain.value.queueIndices == fe.device.value.queueIndices
    ensures Device in fe.outcome.created ==> fe.device.Ok? && DeviceUsable(env) && env.deviceResult == Success
    ensures (Window !in env.failures && validation && !LayersSupported(ValidationLayers, env.availableLayers))
              ==> fe.outcome.created == [Window] && fe.outcome.failure == Some(ValidationLayersUnavailable)
    ensures Window in env.failures ==> fe.outcome.created == [] && fe.outcome.failure == Some(env.failures[Window])
  {
    var instance := CreateInstance(validation, env.sdlExtensions, debug, env.availableLayers, env.instanceResult);
    var device := Dev.CreateDevice(env.devices, env.deviceResult);
    var swapchain := SwapchainStep(device, env);
    var failures := StepFailures(env, instance, device, swapchain);
    var outcome := RunPlan(plan, failures);
    RunPlanOutcome(plan, failures);
    EarlyFailure(plan, failures);
    fe := FrontEnd(outcome, instance, device, swapchain);
  }
}
