/**
  Vocabulary shared by every component of the renderer model: the abstract
  outcome of a Vulkan call, the fatal errors the C++ code throws as
  `std::runtime_error`, optional values, 32-bit unsigned integers and the
  small Vulkan enumerations that more than one component mentions.
 */
module Common {

  const U32_MAX: int := 0xFFFF_FFFF
  const U32_MODULUS: int := 0x1_0000_0000

  /** `uint32_t` */
  type u32 = x: int | 0 <= x <= U32_MAX

  /** The value of `static_cast<uint32_t>(x)`: reduction modulo 2^32. */
  function ToU32(x: int): (r: u32)
    ensures 0 <= x <= U32_MAX ==> r == x
    ensures -U32_MODULUS <= x < 0 ==> r == x + U32_MODULUS
  {
    x % U32_MODULUS
  }

  /** `std::optional` */
  datatype Option<+T> = None | Some(value: T)

  /**
    Every failure the source reports by throwing; the process terminates on
    each of them, so none is recovered from.
   */
  datatype Error =
    // device selection and creation
    | NoVulkanGpus
    | NoSuitableGpu
    | BadOptionalAccess
    | LogicalDeviceCreationFailed
    // swapchain
    | NoSwapchainFormats
    | NoSwapchainPresentModes
    | SwapchainCreationFailed
    | ImageViewCreationFailed
    | RenderPassCreationFailed
    | FramebufferCreationFailed
    // instance setup
    | ValidationLayersUnavailable
    | InstanceCreationFailed
    | ComponentCreationFailed
    // pipeline
    | PipelineLayoutCreationFailed
    | PipelineCreationFailed
    // frame loop and upload
    | AcquireFailed
    | BeginCommandBufferFailed
    | EndCommandBufferFailed
    | SubmitFailed
    | PresentFailed

  /** A value or the error that was thrown instead. */
  datatype Result<+T> = Ok(value: T) | Err(error: Error) {
    predicate IsFailure() {
      Err?
    }

    function PropagateFailure<U>(): Result<U>
      requires Err?
    {
      Err(error)
    }

    function Extract(): T
      requires Ok?
    {
      value
    }
  }

  /**
    The outcome of a Vulkan call that the model cannot see into. Creation
    calls only ever compare against `Success`; acquire and present also
    distinguish `Suboptimal` and `OutOfDate`.
   */
  datatype VkResult = Success | Suboptimal | OutOfDate | OtherFailure

  /** `VkExtent2D` */
  datatype Extent = Extent(width: u32, height: u32)

  /** The `VkFormat` values the core names, and every other one. */
  datatype Format = Undefined | B8G8R8_SRGB | B8G8R8A8_SRGB | R32G32B32_SFLOAT | OtherFormat(code: nat)

  /** `VkColorSpaceKHR` */
  datatype ColorSpace = SrgbNonlinear | OtherColorSpace(code: nat)

  /** Number of occurrences of `x` in `s`. */
  function Count<T(==)>(s: seq<T>, x: T): (n: nat)
    ensures n <= |s|
    ensures n == 0 <==> x !in s
  {
    if |s| == 0 then 0 else (if s[0] == x then 1 else 0) + Count(s[1..], x)
  }

  lemma {:induction false} CountAppend<T>(a: seq<T>, b: seq<T>, x: T)
    ensures Count(a + b, x) == Count(a, x) + Count(b, x)
  {
    if |a| == 0 {
      assert a + b == b;
    } else {
      assert (a + b)[1..] == a[1..] + b;
      CountAppend(a[1..], b, x);
    }
  }
}
