/**
  The swapchain manager of `src/vulkan/swapchain.cpp`: querying the surface,
  choosing format, present mode and extent, the create-info it fills, one
  image view and one framebuffer per swapchain image, and the lifecycle in
  which the constructor creates the render pass, `recreate` rebuilds
  everything except the render pass, and the destructor destroys it.

  The device is abstract: a `Surface` value carries what each query returns
  and which creation calls the device rejects. Every object created or
  destroyed is recorded as a `Call`, so the lifecycle can be counted.
 */
module Swapchain {
  import opened Common
  import opened Types

  /** `VkPresentModeKHR` */
  datatype PresentMode = Immediate | Mailbox | Fifo | FifoRelaxed

  /** `VkSurfaceFormatKHR` */
  datatype SurfaceFormat = SurfaceFormat(format: Format, colorSpace: ColorSpace)

  /** The fields of `VkSurfaceCapabilitiesKHR` the swapchain reads. */
  datatype SurfaceCapabilities = SurfaceCapabilities(
    minImageCount: u32,
    maxImageCount: u32,      // 0 means "no maximum"
    currentExtent: Extent,   // width U32_MAX means "decided by the swapchain"
    minImageExtent: Extent,
    maxImageExtent: Extent,
    currentTransform: nat)

  /** The capabilities, formats and present modes of the surface. */
  datatype Details = Details(capabilities: SurfaceCapabilities, formats: seq<SurfaceFormat>, presentModes: seq<PresentMode>)

  /** The one format/colour-space pair the swapchain asks for. */
  const PreferredFormat: SurfaceFormat := SurfaceFormat(B8G8R8_SRGB, SrgbNonlinear)

  // ---------------------------------------------------------------------------
  // Surface query

  predicate Usable(d: Details) {
    |d.formats| > 0 && |d.presentModes| > 0
  }

  /** `getSwapchainDetails`: an empty format list or present-mode list is fatal, formats checked first. */
  function GetSwapchainDetails(reported: Details): (r: Result<Details>)
    ensures r.Ok? <==> Usable(reported)
    ensures r.Ok? ==> r.value == reported
    ensures |reported.formats| == 0 ==> r == Err(NoSwapchainFormats)
    ensures |reported.formats| > 0 && |reported.presentModes| == 0 ==> r == Err(NoSwapchainPresentModes)
  {
    if |reported.formats| == 0 then Err(NoSwapchainFormats)
    else if |reported.presentModes| == 0 then Err(NoSwapchainPresentModes)
    else Ok(reported)
  }

  // ---------------------------------------------------------------------------
  // Settings selection

  /** The preferred format when the surface offers it, else the first format offered. */
  function SelectFormat(formats: seq<SurfaceFormat>): SurfaceFormat
    requires |formats| > 0
  {
    if PreferredFormat in formats then PreferredFormat else formats[0]
  }

  /** The format loop of `chooseSwapchainSettings`. */
  method ChooseSurfaceFormat(formats: seq<SurfaceFormat>) returns (chosen: SurfaceFormat)
    requires |formats| > 0
    ensures chosen in formats
    ensures PreferredFormat in formats ==> chosen == PreferredFormat
    ensures PreferredFormat !in formats ==> chosen == formats[0]
    ensures chosen == SelectFormat(formats)
  {
    chosen := formats[0];
    var formatChosen := false;
    var i := 0;
    while i < |formats|
      invariant 0 <= i <= |formats|
      invariant formatChosen <==> PreferredFormat in formats[..i]
      invariant formatChosen ==> chosen == PreferredFormat
    {
      if formats[i].format == B8G8R8_SRGB && formats[i].colorSpace == SrgbNonlinear {
        chosen := formats[i];
        formatChosen := true;
      }
      assert formats[..i + 1] == formats[..i] + [formats[i]];
      i := i + 1;
    }
    assert formats[..i] == formats;
    if !formatChosen {
      chosen := formats[0];
    }
  }

  /** MAILBOX when the surface lists it, else FIFO (which every surface supports). */
  function SelectPresentMode(modes: seq<PresentMode>): PresentMode {
    if Mailbox in modes then Mailbox else Fifo
  }

  /** The present-mode loop of `chooseSwapchainSettings`. */
  method ChoosePresentMode(modes: seq<PresentMode>) returns (chosen: PresentMode)
    ensures Mailbox in modes ==> chosen == Mailbox
    ensures Mailbox !in modes ==> chosen == Fifo
    ensures chosen == SelectPresentMode(modes)
  {
    chosen := Fifo;
    var presentModeChosen := false;
    var i := 0;
    while i < |modes|
      invariant 0 <= i <= |modes|
      invariant presentModeChosen <==> Mailbox in modes[..i]
      invariant presentModeChosen ==> chosen == Mailbox
    {
      if modes[i] == Mailbox {
        chosen := modes[i];
        presentModeChosen := true;
      }
      assert modes[..i + 1] == modes[..i] + [modes[i]];
      i := i + 1;
    }
    assert modes[..i] == modes;
    if !presentModeChosen {
      chosen := Fifo;
    }
  }

  function Distance(a: int, b: int): nat {
    if a <= b then b - a else a - b
  }

  /**
    `std::clamp(v, lo, hi)`. Calling it with `hi < lo` is undefined
    behaviour; for that case the value this formula gives is an arbitrary
    choice of the model, and nothing else relies on it.
   */
  function Clamp(v: int, lo: int, hi: int): (r: int)
    ensures lo <= hi ==> lo <= r <= hi
    ensures lo <= hi ==> forall x :: lo <= x <= hi ==> Distance(r, v) <= Distance(x, v)
  {
    if v < lo then lo else if hi < v then hi else v
  }

  predicate ExtentRangeOrdered(c: SurfaceCapabilities) {
    c.minImageExtent.width <= c.maxImageExtent.width && c.minImageExtent.height <= c.maxImageExtent.height
  }

  predicate WithinImageExtents(e: Extent, c: SurfaceCapabilities) {
    && c.minImageExtent.width <= e.width <= c.maxImageExtent.width
    && c.minImageExtent.height <= e.height <= c.maxImageExtent.height
  }

  /**
    The swap extent: the surface's current extent unless its width is the
    special value `UINT32_MAX`; then the window's drawable size, cast to
    `uint32_t` and clamped per component into the allowed image extents.
   */
  function ChooseExtent(c: SurfaceCapabilities, drawableWidth: int, drawableHeight: int): (r: Extent)
    ensures c.currentExtent.width != U32_MAX ==> r == c.currentExtent
    ensures c.currentExtent.width == U32_MAX && ExtentRangeOrdered(c) ==> WithinImageExtents(r, c)
    ensures (c.currentExtent.width == U32_MAX && WithinImageExtents(Extent(ToU32(drawableWidth), ToU32(drawableHeight)), c))
              ==> r == Extent(ToU32(drawableWidth), ToU32(drawableHeight))
  {
    if c.currentExtent.width != U32_MAX then c.currentExtent
    else
      var width := ToU32(drawableWidth);
      var height := ToU32(drawableHeight);
      Extent(Clamp(width, c.minImageExtent.width, c.maxImageExtent.width) as u32,
             Clamp(height, c.minImageExtent.height, c.maxImageExtent.height) as u32)
  }

  /** The settings fixed between two builds. */
  datatype Settings = Settings(surfaceFormat: SurfaceFormat, presentMode: PresentMode, extent: Extent)

  /** `chooseSwapchainSettings` */
  function ChooseSettings(d: Details, drawableWidth: int, drawableHeight: int): (s: Settings)
    requires Usable(d)
    ensures s.surfaceFormat in d.formats
    ensures s.surfaceFormat == SelectFormat(d.formats)
    ensures s.presentMode == SelectPresentMode(d.presentModes)
    ensures s.extent == ChooseExtent(d.capabilities, drawableWidth, drawableHeight)
  {
    Settings(SelectFormat(d.formats), SelectPresentMode(d.presentModes),
             ChooseExtent(d.capabilities, drawableWidth, drawableHeight))
  }

  // ---------------------------------------------------------------------------
  // Swapchain creation

  /**
    The image count requested: one more than the minimum, in `uint32_t`
    arithmetic, lowered to the maximum when a maximum is reported.
   */
  function RequestedImageCount(c: SurfaceCapabilities): (n: u32)
    ensures n <= c.minImageCount + 1
    ensures c.maxImageCount > 0 ==> n <= c.maxImageCount
    ensures (c.minImageCount < U32_MAX && (c.maxImageCount == 0 || c.minImageCount < c.maxImageCount))
              ==> n == c.minImageCount + 1
    ensures (c.minImageCount < U32_MAX && (c.maxImageCount == 0 || c.minImageCount <= c.maxImageCount))
              ==> n >= c.minImageCount
  {
    var imageCount := ToU32(c.minImageCount + 1);
    if c.maxImageCount > 0 && imageCount > c.maxImageCount then c.maxImageCount else imageCount
  }

  datatype SharingMode = Exclusive | Concurrent

  /** `imageSharingMode` with `pQueueFamilyIndices` (its length is `queueFamilyIndexCount`). */
  datatype Sharing = Sharing(mode: SharingMode, queueFamilyIndices: seq<u32>)

  /**
    Concurrent sharing between the two families when they differ, exclusive
    ownership otherwise; both family values are read first.
   */
  function ChooseSharing(q: QueueFamilyIndices): (r: Result<Sharing>)
    ensures r.Ok? <==> q.IsComplete()
    ensures r.Err? ==> r.error == BadOptionalAccess
    ensures r.Ok? ==> (r.value.mode == Concurrent <==> q.graphicsFamily != q.presentFamily)
    ensures r.Ok? && r.value.mode == Concurrent ==>
              |r.value.queueFamilyIndices| == 2
              && r.value.queueFamilyIndices == [q.graphicsFamily.value, q.presentFamily.value]
    ensures r.Ok? && r.value.mode == Exclusive ==> r.value.queueFamilyIndices == []
  {
    var families :- FamilyValues(q);
    if q.graphicsFamily != q.presentFamily then Ok(Sharing(Concurrent, [families.0, families.1]))
    else Ok(Sharing(Exclusive, []))
  }

  /** The fields of `VkSwapchainCreateInfoKHR` the source fills from the settings. */
  datatype SwapchainCreateInfo = SwapchainCreateInfo(
    minImageCount: u32,
    imageFormat: Format,
    imageColorSpace: ColorSpace,
    imageExtent: Extent,
    imageArrayLayers: nat,
    sharing: Sharing,
    preTransform: nat,
    presentMode: PresentMode,
    clipped: bool,
    oldSwapchain: Option<nat>)

  /** `createSwapchain`, with `created` the result of `vkCreateSwapchainKHR`. */
  function CreateSwapchain(d: Details, s: Settings, q: QueueFamilyIndices, created: VkResult): (r: Result<SwapchainCreateInfo>)
    ensures r.Ok? <==> q.IsComplete() && created == Success
    ensures !q.IsComplete() ==> r == Err(BadOptionalAccess)
    ensures q.IsComplete() && created != Success ==> r == Err(SwapchainCreationFailed)
    ensures r.Ok? ==>
              && r.value.minImageCount == RequestedImageCount(d.capabilities)
              && r.value.imageFormat == s.surfaceFormat.format
              && r.value.imageColorSpace == s.surfaceFormat.colorSpace
              && r.value.imageExtent == s.extent
              && r.value.presentMode == s.presentMode
              && r.value.imageArrayLayers == 1
              && r.value.preTransform == d.capabilities.currentTransform
              && r.value.oldSwapchain == None
              && Ok(r.value.sharing) == ChooseSharing(q)
  {
    var sharing :- ChooseSharing(q);
    var info := SwapchainCreateInfo(
      RequestedImageCount(d.capabilities), s.surfaceFormat.format, s.surfaceFormat.colorSpace, s.extent,
      1, sharing, d.capabilities.currentTransform, s.presentMode, true, None);
    if created != Success then Err(SwapchainCreationFailed) else Ok(info)
  }

  // ---------------------------------------------------------------------------
  // Views, render pass, framebuffers

  /** A `VkImageView` of one swapchain image (2D, colour aspect, identity swizzle). */
  datatype ImageView = ImageView(image: nat, format: Format)

  /**
    The render pass: one colour attachment in the swapchain format, cleared
    on load and stored, one subpass.
   */
  datatype RenderPass = RenderPass(handle: nat, colorFormat: Format)

  /** A `VkFramebuffer`: one attachment, one layer. */
  datatype Framebuffer = Framebuffer(renderPass: nat, attachment: ImageView, width: u32, height: u32, layers: nat)

  /**
    How many calls of a creation loop over indices `i..n` succeed before the
    first one the device rejects (`failing` holds the rejected indices).
   */
  function Attempts(i: nat, n: nat, failing: set<nat>): (k: nat)
    requires i <= n
    ensures i <= k <= n
    ensures forall j :: i <= j < k ==> j !in failing
    ensures k < n ==> k in failing
    decreases n - i
  {
    if i == n then n else if i in failing then i else Attempts(i + 1, n, failing)
  }

  function ViewsOf(images: seq<nat>, format: Format): (views: seq<ImageView>)
    ensures |views| == |images|
    ensures forall i :: 0 <= i < |images| ==> views[i] == ImageView(images[i], format)
  {
    seq(|images|, i requires 0 <= i < |images| => ImageView(images[i], format))
  }

  function FramebuffersOf(renderPass: RenderPass, views: seq<ImageView>, extent: Extent): (fbs: seq<Framebuffer>)
    ensures |fbs| == |views|
    ensures forall i :: 0 <= i < |views| ==>
              fbs[i] == Framebuffer(renderPass.handle, views[i], extent.width, extent.height, 1)
  {
    seq(|views|, i requires 0 <= i < |views| => Framebuffer(renderPass.handle, views[i], extent.width, extent.height, 1))
  }

  // ---------------------------------------------------------------------------
  // Lifecycle

  /** What the surface and the device report during one build. */
  datatype Surface = Surface(
    reported: Details,
    drawableWidth: int,
    drawableHeight: int,
    swapchainResult: VkResult,
    images: seq<nat>,             // handles from vkGetSwapchainImagesKHR
    failingViews: set<nat>,       // image indices whose view creation is rejected
    renderPassResult: VkResult,
    renderPassHandle: nat,
    failingFramebuffers: set<nat>) // view indices whose framebuffer creation is rejected

  /** The state of a `Swapchain` object between calls. */
  datatype Swapchain = Swapchain(
    queueIndices: QueueFamilyIndices,
    details: Details,
    settings: Settings,
    createInfo: SwapchainCreateInfo,
    images: seq<nat>,
    imageViews: seq<ImageView>,
    renderPass: RenderPass,
    framebuffers: seq<Framebuffer>)

  datatype ObjectKind = SwapchainObject | ImageViewObject | RenderPassObject | FramebufferObject

  /** The device calls of the lifecycle that create or destroy an object, or wait. */
  datatype Call = WaitIdle | Create(kind: ObjectKind) | Destroy(kind: ObjectKind)

  /** A build: its result and the objects it created, in order. */
  datatype Built = Built(result: Result<Swapchain>, calls: seq<Call>)

  /** `n` copies of `c` */
  function Rep(c: Call, n: nat): (s: seq<Call>)
    ensures |s| == n
    ensures forall i :: 0 <= i < n ==> s[i] == c
  {
    seq(n, _ => c)
  }

  /**
    One image view per image, one framebuffer per view, every framebuffer on
    the single render pass and sized to the chosen extent.
   */
  predicate Valid(s: Swapchain) {
    && |s.imageViews| == |s.images|
    && |s.framebuffers| == |s.imageViews|
    && (forall i :: 0 <= i < |s.images| ==> s.imageViews[i] == ImageView(s.images[i], s.settings.surfaceFormat.format))
    && (forall i :: 0 <= i < |s.framebuffers| ==>
          && s.framebuffers[i].renderPass == s.renderPass.handle
          && s.framebuffers[i].attachment == s.imageViews[i]
          && s.framebuffers[i].width == s.settings.extent.width
          && s.framebuffers[i].height == s.settings.extent.height
          && s.framebuffers[i].layers == 1)
  }

  /**
    Everything from the surface query to the framebuffers. `existing` is the
    render pass to reuse; when it is `None` a render pass is created between
    the image views and the framebuffers, as the constructor does.
   */
  function Build(q: QueueFamilyIndices, env: Surface, existing: Option<RenderPass>): (b: Built)
    ensures b.result.Ok? ==> Valid(b.result.value)
    ensures b.result.Ok? ==> b.result.value.queueIndices == q && |b.result.value.images| == |env.images|
    ensures b.result.Ok? && existing.Some? ==> b.result.value.renderPass == existing.value
    ensures b.result.Ok? && existing.None? ==> b.result.value.renderPass.handle == env.renderPassHandle
  {
    var details := GetSwapchainDetails(env.reported);
    if details.Err? then Built(Err(details.error), [])
    else
      var settings := ChooseSettings(details.value, env.drawableWidth, env.drawableHeight);
      var info := CreateSwapchain(details.value, settings, q, env.swapchainResult);
      if info.Err? then Built(Err(info.error), [])
      else
        var c0 := [Create(SwapchainObject)];
        var nv := Attempts(0, |env.images|, env.failingViews);
        var c1 := c0 + Rep(Create(ImageViewObject), nv);
        if nv < |env.images| then Built(Err(ImageViewCreationFailed), c1)
        else
          var views := ViewsOf(env.images, settings.surfaceFormat.format);
          if existing.None? && env.renderPassResult != Success then Built(Err(RenderPassCreationFailed), c1)
          else
            var renderPass := if existing.Some? then existing.value
                              else RenderPass(env.renderPassHandle, settings.surfaceFormat.format);
            var c2 := c1 + (if existing.None? then [Create(RenderPassObject)] else []);
            var nf := Attempts(0, |views|, env.failingFramebuffers);
            var c3 := c2 + Rep(Create(FramebufferObject), nf);
            if nf < |views| then Built(Err(FramebufferCreationFailed), c3)
            else
              Built(Ok(Swapchain(q, details.value, settings, info.value, env.images, views, renderPass,
                                 FramebuffersOf(renderPass, views, settings.extent))), c3)
  }

  /** The constructor. */
  function Construct(q: QueueFamilyIndices, env: Surface): (b: Built)
    ensures b.result.Ok? ==> Valid(b.result.value) && b.result.value.renderPass == RenderPass(env.renderPassHandle, b.result.value.settings.surfaceFormat.format)
    ensures b.result.Ok? ==> Count(b.calls, Create(RenderPassObject)) == 1
    ensures b.result.Ok? ==> forall k :: Live(b.calls, k) == Held(b.result.value, k)
  {
    BuildCounts(q, env, None);
    Build(q, env, None)
  }

  /** `cleanup`: destroy every framebuffer, then every view, then the swapchain. */
  function Cleanup(s: Swapchain): (calls: seq<Call>)
    ensures Count(calls, Destroy(RenderPassObject)) == 0
  {
    Rep(Destroy(FramebufferObject), |s.framebuffers|) + Rep(Destroy(ImageViewObject), |s.imageViews|) + [Destroy(SwapchainObject)]
  }

  /** `recreate`: wait for the device to go idle, clean up, rebuild on the same render pass. */
  function Recreate(s: Swapchain, env: Surface): (b: Built)
    ensures |b.calls| > 0 && b.calls[0] == WaitIdle
    ensures b.result.Ok? ==> Valid(b.result.value) && b.result.value.renderPass == s.renderPass
    ensures b.result.Ok? ==> b.result.value.queueIndices == s.queueIndices
  {
    var rebuilt := Build(s.queueIndices, env, Some(s.renderPass));
    Built(rebuilt.result, [WaitIdle] + Cleanup(s) + rebuilt.calls)
  }

  /** The destructor: `cleanup`, then the render pass. */
  function Destruct(s: Swapchain): (calls: seq<Call>)
    ensures Count(calls, Destroy(RenderPassObject)) == 1
  {
    CountAppend(Cleanup(s), [Destroy(RenderPassObject)], Destroy(RenderPassObject));
    Cleanup(s) + [Destroy(RenderPassObject)]
  }

  // ---------------------------------------------------------------------------
  // Properties

  lemma {:induction false} CountRep(c: Call, n: nat, d: Call)
    ensures Count(Rep(c, n), d) == if c == d then n else 0
  {
    if n > 0 {
      assert Rep(c, n)[1..] == Rep(c, n - 1);
      CountRep(c, n - 1, d);
    }
  }

  /** Objects of kind `k` created minus those destroyed by `calls`. */
  function Live(calls: seq<Call>, k: ObjectKind): int {
    Count(calls, Create(k)) - Count(calls, Destroy(k))
  }

  lemma LiveAppend(a: seq<Call>, b: seq<Call>, k: ObjectKind)
    ensures Live(a + b, k) == Live(a, k) + Live(b, k)
  {
    CountAppend(a, b, Create(k));
    CountAppend(a, b, Destroy(k));
  }

  /** The number of objects of kind `k` a swapchain holds. */
  function Held(s: Swapchain, k: ObjectKind): nat {
    match k
    case SwapchainObject => 1
    case ImageViewObject => |s.imageViews|
    case RenderPassObject => 1
    case FramebufferObject => |s.framebuffers|
  }

  /** A successful build creates exactly the objects the swapchain then holds (the render pass only when new). */
  lemma BuildCounts(q: QueueFamilyIndices, env: Surface, existing: Option<RenderPass>)
    ensures var b := Build(q, env, existing); b.result.Ok? ==> var s := b.result.value;
      && Count(b.calls, Create(RenderPassObject)) == (if existing.None? then 1 else 0)
      && forall k :: Live(b.calls, k) == if k == RenderPassObject && existing.Some? then 0 else Held(s, k)
  {
    var b := Build(q, env, existing);
    if b.result.Ok? {
      BuildShape(q, env, existing);
      SuccessCallCounts(|env.images|, existing.None?);
    }
  }

  /** The calls of a successful build with `n` images: the swapchain, the views, the render pass when new, the framebuffers. */
  function SuccessCalls(n: nat, newPass: bool): seq<Call> {
    [Create(SwapchainObject)] + Rep(Create(ImageViewObject), n)
    + (if newPass then [Create(RenderPassObject)] else []) + Rep(Create(FramebufferObject), n)
  }

  /** A successful build makes the success calls and holds one view and one framebuffer per image. */
  lemma BuildShape(q: QueueFamilyIndices, env: Surface, existing: Option<RenderPass>)
    ensures var b := Build(q, env, existing); b.result.Ok? ==>
      && b.calls == SuccessCalls(|env.images|, existing.None?)
      && |b.result.value.imageViews| == |env.images| && |b.result.value.framebuffers| == |env.images|
  {
  }

  /** The objects of kind `k` a build over `n` images holds afterwards, counting the render pass only when it made it. */
  function SuccessHeld(n: nat, newPass: bool, k: ObjectKind): nat {
    match k
    case SwapchainObject => 1
    case ImageViewObject => n
    case RenderPassObject => if newPass then 1 else 0
    case FramebufferObject => n
  }

  /** What the success calls leave alive, kind by kind. */
  lemma SuccessCallCounts(n: nat, newPass: bool)
    ensures Count(SuccessCalls(n, newPass), Create(RenderPassObject)) == (if newPass then 1 else 0)
    ensures forall k :: Live(SuccessCalls(n, newPass), k) == SuccessHeld(n, newPass, k)
  {
    var rp: seq<Call> := if newPass then [Create(RenderPassObject)] else [];
    var c0: seq<Call> := [Create(SwapchainObject)];
    var c1 := c0 + Rep(Create(ImageViewObject), n);
    var c2 := c1 + rp;
    forall k
      ensures Live(SuccessCalls(n, newPass), k) == SuccessHeld(n, newPass, k)
    {
      LiveAppend(c0, Rep(Create(ImageViewObject), n), k);
      LiveAppend(c1, rp, k);
      LiveAppend(c2, Rep(Create(FramebufferObject), n), k);
      RepLive(ImageViewObject, n, k);
      RepLive(FramebufferObject, n, k);
    }
    CountAppend(c0, Rep(Create(ImageViewObject), n), Create(RenderPassObject));
    CountAppend(c1, rp, Create(RenderPassObject));
    CountAppend(c2, Rep(Create(FramebufferObject), n), Create(RenderPassObject));
    CountRep(Create(ImageViewObject), n, Create(RenderPassObject));
    CountRep(Create(FramebufferObject), n, Create(RenderPassObject));
  }

  /** `n` creations of kind `x` leave `n` objects of kind `x` alive and none of any other. */
  lemma RepLive(x: ObjectKind, n: nat, k: ObjectKind)
    ensures Live(Rep(Create(x), n), k) == if k == x then n else 0
  {
    CountRep(Create(x), n, Create(k));
    CountRep(Create(x), n, Destroy(k));
  }

  /** `cleanup` destroys exactly the views, framebuffers and swapchain handle a valid swapchain holds. */
  lemma CleanupCounts(s: Swapchain)
    ensures forall k :: Live(Cleanup(s), k) == if k == RenderPassObject then 0 else -(Held(s, k) as int)
  {
    var a := Rep(Destroy(FramebufferObject), |s.framebuffers|);
    var b := Rep(Destroy(ImageViewObject), |s.imageViews|);
    forall k
      ensures Live(Cleanup(s), k) == if k == RenderPassObject then 0 else -(Held(s, k) as int)
    {
      LiveAppend(a, b, k);
      LiveAppend(a + b, [Destroy(SwapchainObject)], k);
      CountRep(Destroy(FramebufferObject), |s.framebuffers|, Create(k));
      CountRep(Destroy(FramebufferObject), |s.framebuffers|, Destroy(k));
      CountRep(Destroy(ImageViewObject), |s.imageViews|, Create(k));
      CountRep(Destroy(ImageViewObject), |s.imageViews|, Destroy(k));
    }
  }

  /** Apply `recreate` once per surface report, stopping at the first failure. */
  function RecreateAll(s: Swapchain, envs: seq<Surface>): (b: Built)
    ensures b.result.Ok? ==> b.result.value.renderPass == s.renderPass
    decreases |envs|
  {
    if |envs| == 0 then Built(Ok(s), [])
    else
      var first := Recreate(s, envs[0]);
      if first.result.Err? then first
      else
        var rest := RecreateAll(first.result.value, envs[1..]);
        Built(rest.result, first.calls + rest.calls)
  }

  /** One `recreate` destroys what the old swapchain held and creates what the new one holds, render pass aside. */
  lemma RecreateLive(s: Swapchain, env: Surface)
    requires Recreate(s, env).result.Ok?
    ensures var b := Recreate(s, env);
      forall k :: Live(b.calls, k) == if k == RenderPassObject then 0 else Held(b.result.value, k) - Held(s, k)
  {
    var rebuilt := Build(s.queueIndices, env, Some(s.renderPass));
    BuildCounts(s.queueIndices, env, Some(s.renderPass));
    CleanupCounts(s);
    forall k
      ensures Live([WaitIdle] + Cleanup(s) + rebuilt.calls, k)
              == if k == RenderPassObject then 0 else Held(rebuilt.result.value, k) - Held(s, k)
    {
      LiveAppend([WaitIdle], Cleanup(s), k);
      LiveAppend([WaitIdle] + Cleanup(s), rebuilt.calls, k);
    }
  }

  /** `recreate` neither creates nor destroys a render pass, whether it succeeds or not. */
  lemma RecreateKeepsRenderPass(s: Swapchain, env: Surface)
    ensures Count(Recreate(s, env).calls, Create(RenderPassObject)) == 0
    ensures Count(Recreate(s, env).calls, Destroy(RenderPassObject)) == 0
  {
    var rebuilt := Build(s.queueIndices, env, Some(s.renderPass));
    assert Create(RenderPassObject) !in rebuilt.calls && Destroy(RenderPassObject) !in rebuilt.calls;
    assert Create(RenderPassObject) !in Cleanup(s);
    assert Create(RenderPassObject) !in [WaitIdle] + Cleanup(s) + rebuilt.calls;
    assert Destroy(RenderPassObject) !in [WaitIdle] + Cleanup(s) + rebuilt.calls;
  }

  lemma {:induction false} RecreateAllLive(s: Swapchain, envs: seq<Surface>)
    requires RecreateAll(s, envs).result.Ok?
    ensures var b := RecreateAll(s, envs);
      forall k :: Live(b.calls, k) == if k == RenderPassObject then 0 else Held(b.result.value, k) - Held(s, k)
    decreases |envs|
  {
    if |envs| > 0 {
      var first := Recreate(s, envs[0]);
      var s1 := first.result.value;
      RecreateLive(s, envs[0]);
      RecreateAllLive(s1, envs[1..]);
      var rest := RecreateAll(s1, envs[1..]);
      forall k
        ensures Live(first.calls + rest.calls, k) == if k == RenderPassObject then 0 else Held(rest.result.value, k) - Held(s, k)
      {
        LiveAppend(first.calls, rest.calls, k);
      }
    }
  }

  lemma {:induction false} RecreateAllNoRenderPass(s: Swapchain, envs: seq<Surface>)
    ensures Count(RecreateAll(s, envs).calls, Create(RenderPassObject)) == 0
    decreases |envs|
  {
    if |envs| > 0 {
      var first := Recreate(s, envs[0]);
      RecreateKeepsRenderPass(s, envs[0]);
      if first.result.Ok? {
        RecreateAllNoRenderPass(first.result.value, envs[1..]);
        CountAppend(first.calls, RecreateAll(first.result.value, envs[1..]).calls, Create(RenderPassObject));
      }
    }
  }

  /**
    Over a whole lifetime -- construction, any number of successful
    `recreate` calls and destruction -- every swapchain, image view,
    framebuffer and render pass that is created is destroyed exactly once,
    and exactly one render pass is created.
   */
  lemma LifetimeBalanced(q: QueueFamilyIndices, first: Surface, rebuilds: seq<Surface>)
    requires Construct(q, first).result.Ok?
    requires RecreateAll(Construct(q, first).result.value, rebuilds).result.Ok?
    ensures var c := Construct(q, first);
      var r := RecreateAll(c.result.value, rebuilds);
      var calls := c.calls + r.calls + Destruct(r.result.value);
      && (forall k :: Count(calls, Create(k)) == Count(calls, Destroy(k)))
      && Count(calls, Create(RenderPassObject)) == 1
  {
    var c := Construct(q, first);
    var r := RecreateAll(c.result.value, rebuilds);
    RecreateAllLive(c.result.value, rebuilds);
    RecreateAllNoRenderPass(c.result.value, rebuilds);
    DestructLive(r.result.value);
    SumBalanced(c.calls, r.calls, Destruct(r.result.value), c.result.value, r.result.value);
  }

  lemma SumBalanced(a: seq<Call>, b: seq<Call>, d: seq<Call>, s0: Swapchain, s: Swapchain)
    requires forall k :: Live(a, k) == Held(s0, k)
    requires forall k :: Live(b, k) == if k == RenderPassObject then 0 else Held(s, k) - Held(s0, k)
    requires forall k :: Live(d, k) == -(Held(s, k) as int)
    requires Count(a, Create(RenderPassObject)) == 1
    requires Count(b, Create(RenderPassObject)) == 0 && Count(d, Create(RenderPassObject)) == 0
    ensures forall k :: Count(a + b + d, Create(k)) == Count(a + b + d, Destroy(k))
    ensures Count(a + b + d, Create(RenderPassObject)) == 1
  {
    forall k
      ensures Count(a + b + d, Create(k)) == Count(a + b + d, Destroy(k))
    {
      LiveAppend(a, b, k);
      LiveAppend(a + b, d, k);
    }
    CountAppend(a, b, Create(RenderPassObject));
    CountAppend(a + b, d, Create(RenderPassObject));
  }

  /** The destructor destroys everything a swapchain holds, the render pass included. */
  lemma DestructLive(s: Swapchain)
    ensures forall k :: Live(Destruct(s), k) == -(Held(s, k) as int)
    ensures Count(Destruct(s), Create(RenderPassObject)) == 0
  {
    CleanupCounts(s);
    forall k
      ensures Live(Destruct(s), k) == -(Held(s, k) as int)
    {
      LiveAppend(Cleanup(s), [Destroy(RenderPassObject)], k);
    }
    assert Create(RenderPassObject) !in Cleanup(s);
    assert Create(RenderPassObject) !in Destruct(s);
  }

  /**
    A rebuild depends only on the surface report and on the render pass and
    queue families it keeps: rebuilding twice in a row against the same
    surface gives the same swapchain as rebuilding once.
   */
  lemma RecreateIdempotent(s: Swapchain, env: Surface)
    requires Recreate(s, env).result.Ok?
    ensures var once := Recreate(s, env).result.value;
      Recreate(once, env).result == Ok(once)
  {
  }
}
