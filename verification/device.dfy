/**
  Device selection and creation of `src/vulkan/device.cpp`: the first
  suitable physical device, the queue-family scan, one queue create-info per
  distinct family, the enabled device extensions, and the two queues fetched
  afterwards. The static variant in `src/vulkan/vk.cpp` repeats these
  functions word for word; this module models both.
 */
module Device {
  import opened Common
  import opened Types

  /** `VK_QUEUE_GRAPHICS_BIT` */
  const GRAPHICS_BIT: bv32 := 1

  /** `VK_KHR_SWAPCHAIN_EXTENSION_NAME` */
  const SWAPCHAIN_EXTENSION: string := "VK_KHR_swapchain"

  /** `deviceExtensions` */
  const DeviceExtensions: seq<string> := [SWAPCHAIN_EXTENSION]

  /**
    One queue family of a physical device: its `queueFlags` and whether
    `vkGetPhysicalDeviceSurfaceSupportKHR` reports presentation support for
    the window surface at its index.
   */
  datatype QueueFamily = QueueFamily(queueFlags: bv32, presentSupport: bool)

  /** A physical device as enumerated, with its queue families. */
  datatype PhysicalDevice = PhysicalDevice(id: nat, queueFamilies: seq<QueueFamily>)

  predicate SupportsGraphics(f: QueueFamily) {
    f.queueFlags & GRAPHICS_BIT != 0
  }

  /** `isDeviceSuitable` accepts every device. */
  predicate IsDeviceSuitable(d: PhysicalDevice) {
    true
  }

  // ---------------------------------------------------------------------------
  // Physical device

  /**
    `pickPhysicalDevice`: no enumerated device is fatal; otherwise the first
    device that passes the suitability test, and no such device is fatal.
    The test is a parameter; the source's is `IsDeviceSuitable`.
   */
  method PickPhysicalDevice(devices: seq<PhysicalDevice>, suitable: PhysicalDevice -> bool) returns (r: Result<PhysicalDevice>)
    ensures |devices| == 0 <==> r == Err(NoVulkanGpus)
    ensures r == Err(NoSuitableGpu) <==> |devices| > 0 && forall j :: 0 <= j < |devices| ==> !suitable(devices[j])
    ensures r.Ok? <==> exists j :: 0 <= j < |devices| && suitable(devices[j])
    ensures r.Ok? ==> exists k :: 0 <= k < |devices| && devices[k] == r.value && suitable(devices[k])
                         && forall j :: 0 <= j < k ==> !suitable(devices[j])
  {
    if |devices| == 0 {
      return Err(NoVulkanGpus);
    }
    var physical: Option<PhysicalDevice> := None;
    var i := 0;
    while i < |devices|
      invariant 0 <= i <= |devices|
      invariant forall j :: 0 <= j < i ==> !suitable(devices[j])
      invariant physical.Some? ==> i < |devices| && physical.value == devices[i] && suitable(devices[i])
    {
      if suitable(devices[i]) {
        physical := Some(devices[i]);
        break;
      }
      i := i + 1;
    }
    if physical.None? {
      return Err(NoSuitableGpu);
    }
    return Ok(physical.value);
  }

  /** With the source's suitability test, the first enumerated device is chosen whenever there is one. */
  method PickFirstDevice(devices: seq<PhysicalDevice>) returns (r: Result<PhysicalDevice>)
    ensures |devices| == 0 ==> r == Err(NoVulkanGpus)
    ensures |devices| > 0 ==> r == Ok(devices[0])
  {
    var suitable := IsDeviceSuitable;
    r := PickPhysicalDevice(devices, suitable);
    if |devices| > 0 {
      assert suitable(devices[0]);
      var k :| 0 <= k < |devices| && devices[k] == r.value && suitable(devices[k])
               && forall j :: 0 <= j < k ==> !suitable(devices[j]);
      assert k == 0;
    }
  }

  // ---------------------------------------------------------------------------
  // Queue families

  /** Some family among the first `n` supports graphics. */
  predicate HasGraphics(fams: seq<QueueFamily>, n: nat)
    requires n <= |fams|
  {
    exists j :: 0 <= j < n && SupportsGraphics(fams[j])
  }

  /** Some family among the first `n` supports presentation. */
  predicate HasPresent(fams: seq<QueueFamily>, n: nat)
    requires n <= |fams|
  {
    exists j :: 0 <= j < n && fams[j].presentSupport
  }

  predicate HasBoth(fams: seq<QueueFamily>, n: nat)
    requires n <= |fams|
  {
    HasGraphics(fams, n) && HasPresent(fams, n)
  }

  /**
    `g` is what a scan of the first `n` families records for graphics: the
    last graphics-capable index, or nothing when there is none.
   */
  predicate RecordsLastGraphics(fams: seq<QueueFamily>, n: nat, g: Option<u32>)
    requires n <= |fams|
  {
    && (g.Some? <==> HasGraphics(fams, n))
    && (g.Some? ==> g.value < n && SupportsGraphics(fams[g.value])
                    && forall j :: g.value < j < n ==> !SupportsGraphics(fams[j]))
  }

  /** Likewise for presentation. */
  predicate RecordsLastPresent(fams: seq<QueueFamily>, n: nat, p: Option<u32>)
    requires n <= |fams|
  {
    && (p.Some? <==> HasPresent(fams, n))
    && (p.Some? ==> p.value < n && fams[p.value].presentSupport
                    && forall j :: p.value < j < n ==> !fams[j].presentSupport)
  }

  /**
    `getQueueFamilies`: visit the families in index order, record an index
    as the graphics family when it has the graphics bit and as the present
    family when it can present, and stop at the first index after which
    both are recorded. `stop` is that index, or the family count when the
    scan runs off the end.
   */
  method GetQueueFamilies(fams: seq<QueueFamily>) returns (indices: QueueFamilyIndices, stop: nat)
    requires |fams| <= U32_MAX
    ensures stop <= |fams|
    ensures indices.IsComplete() <==> stop < |fams|
    ensures indices.IsComplete() ==> HasBoth(fams, stop + 1) && !HasBoth(fams, stop)
    ensures !indices.IsComplete() ==> !HasBoth(fams, |fams|)
    ensures var scanned := if stop < |fams| then stop + 1 else |fams|;
      && RecordsLastGraphics(fams, scanned, indices.graphicsFamily)
      && RecordsLastPresent(fams, scanned, indices.presentFamily)
  {
    indices := NoFamilies;
    var i := 0;
    while i < |fams|
      invariant 0 <= i <= |fams|
      invariant !HasBoth(fams, i)
      invariant RecordsLastGraphics(fams, i, indices.graphicsFamily)
      invariant RecordsLastPresent(fams, i, indices.presentFamily)
    {
      if SupportsGraphics(fams[i]) {
        indices := indices.(graphicsFamily := Some(i));
      }
      if fams[i].presentSupport {
        indices := indices.(presentFamily := Some(i));
      }
      if indices.IsComplete() {
        stop := i;
        return;
      }
      i := i + 1;
    }
    stop := |fams|;
  }

  /**
    `q` is the complete result of scanning `fams`: the scan stopped at the
    later of the two recorded indices, both capabilities were not yet found
    before it, and each recorded index is the last one with its capability
    up to it.
   */
  predicate ScannedFamilies(fams: seq<QueueFamily>, q: QueueFamilyIndices) {
    && q.IsComplete()
    && ScanStop(q) < |fams|
    && !HasBoth(fams, ScanStop(q))
    && RecordsLastGraphics(fams, ScanStop(q) + 1, q.graphicsFamily)
    && RecordsLastPresent(fams, ScanStop(q) + 1, q.presentFamily)
  }

  /** The later of the two indices of a complete list: where the scan that found them stopped. */
  function ScanStop(q: QueueFamilyIndices): (stop: nat)
    requires q.IsComplete()
    ensures stop == q.graphicsFamily.value || stop == q.presentFamily.value
    ensures q.graphicsFamily.value <= stop && q.presentFamily.value <= stop
  {
    if q.graphicsFamily.value < q.presentFamily.value then q.presentFamily.value else q.graphicsFamily.value
  }

  /** The scan's stop is the first index by which both capabilities have been seen. */
  lemma ScanStopFirstBoth(fams: seq<QueueFamily>, q: QueueFamilyIndices, n: nat)
    requires ScannedFamilies(fams, q) && n <= |fams|
    ensures HasBoth(fams, n) <==> ScanStop(q) < n
  {
    var g := q.graphicsFamily.value;
    var p := q.presentFamily.value;
    var stop := ScanStop(q);
    assert SupportsGraphics(fams[g]) && fams[p].presentSupport;
    assert stop < n ==> HasGraphics(fams, n) && HasPresent(fams, n);
    assert n <= stop && HasGraphics(fams, n) ==> HasGraphics(fams, stop);
    assert n <= stop && HasPresent(fams, n) ==> HasPresent(fams, stop);
  }

  /** A complete scan stops at the later of the two indices it records. */
  lemma ScanStopsAtLater(fams: seq<QueueFamily>, q: QueueFamilyIndices, stop: nat)
    requires q.IsComplete() && stop < |fams| && !HasBoth(fams, stop)
    requires RecordsLastGraphics(fams, stop + 1, q.graphicsFamily)
    requires RecordsLastPresent(fams, stop + 1, q.presentFamily)
    ensures ScannedFamilies(fams, q)
  {
    var g := q.graphicsFamily.value;
    var p := q.presentFamily.value;
    assert g < stop ==> HasGraphics(fams, stop);
    assert p < stop ==> HasPresent(fams, stop);
  }

  /** At most one family index list is the result of scanning `fams`. */
  lemma ScannedFamiliesUnique(fams: seq<QueueFamily>, q1: QueueFamilyIndices, q2: QueueFamilyIndices)
    requires ScannedFamilies(fams, q1) && ScannedFamilies(fams, q2)
    ensures q1 == q2
  {
    var s1 := ScanStop(q1);
    var s2 := ScanStop(q2);
    ScanStopFirstBoth(fams, q1, s2 + 1);
    ScanStopFirstBoth(fams, q2, s2 + 1);
    ScanStopFirstBoth(fams, q1, s1 + 1);
    ScanStopFirstBoth(fams, q2, s1 + 1);
  }

  // ---------------------------------------------------------------------------
  // Logical device

  /** `VkDeviceQueueCreateInfo` (the priority is always 1.0). */
  datatype QueueCreateInfo = QueueCreateInfo(queueFamilyIndex: u32, queueCount: nat)

  /** The fields of `VkDeviceCreateInfo` the source fills (features are all defaulted). */
  datatype DeviceCreateInfo = DeviceCreateInfo(queueCreateInfos: seq<QueueCreateInfo>, enabledExtensions: seq<string>)

  /** The elements of the `std::set` `{g, p}` in its iteration order, ascending. */
  function UniqueFamilies(g: u32, p: u32): (r: seq<u32>)
    ensures |r| == |{g, p}|
    ensures forall x :: x in r <==> x in {g, p}
    ensures forall i, j :: 0 <= i < j < |r| ==> r[i] < r[j]
  {
    if g == p then [g] else if g < p then [g, p] else [p, g]
  }

  /**
    `createLogicalDevice`: one queue create-info with one queue per distinct
    family, the swapchain extension enabled; `created` is the result of
    `vkCreateDevice`.
   */
  function CreateLogicalDevice(q: QueueFamilyIndices, created: VkResult): (r: Result<DeviceCreateInfo>)
    ensures r.Ok? <==> q.IsComplete() && created == Success
    ensures !q.IsComplete() ==> r == Err(BadOptionalAccess)
    ensures q.IsComplete() && created != Success ==> r == Err(LogicalDeviceCreationFailed)
    ensures r.Ok? ==>
      var infos := r.value.queueCreateInfos;
      && |infos| == (if q.graphicsFamily == q.presentFamily then 1 else 2)
      && (forall i :: 0 <= i < |infos| ==> infos[i].queueCount == 1)
      && (forall x :: (exists i :: 0 <= i < |infos| && infos[i].queueFamilyIndex == x)
                      <==> Some(x) == q.graphicsFamily || Some(x) == q.presentFamily)
      && (forall i, j :: 0 <= i < j < |infos| ==> infos[i].queueFamilyIndex < infos[j].queueFamilyIndex)
      && r.value.enabledExtensions == [SWAPCHAIN_EXTENSION]
  {
    var families :- FamilyValues(q);
    var unique := UniqueFamilies(families.0, families.1);
    var infos := seq(|unique|, i requires 0 <= i < |unique| => QueueCreateInfo(unique[i], 1));
    assert forall x :: (exists i :: 0 <= i < |infos| && infos[i].queueFamilyIndex == x)
                       <==> Some(x) == q.graphicsFamily || Some(x) == q.presentFamily by {
      forall x
        ensures (exists i :: 0 <= i < |infos| && infos[i].queueFamilyIndex == x)
                <==> Some(x) == q.graphicsFamily || Some(x) == q.presentFamily
      {
        assert Some(x) == q.graphicsFamily || Some(x) == q.presentFamily <==> x in {families.0, families.1};
        if x in unique {
          var i :| 0 <= i < |unique| && unique[i] == x;
          assert infos[i].queueFamilyIndex == x;
        }
      }
    }
    if created != Success then Err(LogicalDeviceCreationFailed)
    else Ok(DeviceCreateInfo(infos, DeviceExtensions))
  }

  /** A device queue: queue `index` of family `family`. */
  datatype Queue = Queue(family: u32, index: nat)

  /** `getQueues`: queue 0 of the graphics family and queue 0 of the present family. */
  function GetQueues(q: QueueFamilyIndices): (r: Result<(Queue, Queue)>)
    ensures r.Ok? <==> q.IsComplete()
    ensures r.Ok? ==> Some(r.value.0.family) == q.graphicsFamily && Some(r.value.1.family) == q.presentFamily
    ensures r.Ok? ==> r.value.0.index == 0 && r.value.1.index == 0
    ensures r.Ok? ==> (r.value.0 == r.value.1 <==> q.graphicsFamily == q.presentFamily)
  {
    var families :- FamilyValues(q);
    Ok((Queue(families.0, 0), Queue(families.1, 0)))
  }

  // ---------------------------------------------------------------------------
  // Constructor

  /** The state of a constructed `Device`. */
  datatype DeviceState = DeviceState(
    physical: PhysicalDevice,
    queueIndices: QueueFamilyIndices,
    createInfo: DeviceCreateInfo,
    graphicsQueue: Queue,
    presentQueue: Queue)

  /**
    The `Device` constructor (and `vk::createDevice`): pick, scan, create,
    fetch queues. A device whose families cannot both be found fails when
    the logical device reads the missing family.
   */
  method CreateDevice(devices: seq<PhysicalDevice>, created: VkResult) returns (r: Result<DeviceState>)
    requires forall d :: d in devices ==> |d.queueFamilies| <= U32_MAX
    ensures |devices| == 0 ==> r == Err(NoVulkanGpus)
    ensures |devices| > 0 && !HasBoth(devices[0].queueFamilies, |devices[0].queueFamilies|) ==> r == Err(BadOptionalAccess)
    ensures (|devices| > 0 && HasBoth(devices[0].queueFamilies, |devices[0].queueFamilies|) && created != Success)
              ==> r == Err(LogicalDeviceCreationFailed)
    ensures (|devices| > 0 && HasBoth(devices[0].queueFamilies, |devices[0].queueFamilies|) && created == Success)
              ==> r.Ok?
    ensures r.Ok? ==>
      && |devices| > 0
      && r.value.physical == devices[0]
      && r.value.queueIndices.IsComplete()
      && ScannedFamilies(devices[0].queueFamilies, r.value.queueIndices)
      && Some(r.value.graphicsQueue.family) == r.value.queueIndices.graphicsFamily
      && Some(r.value.presentQueue.family) == r.value.queueIndices.presentFamily
      && CreateLogicalDevice(r.value.queueIndices, created) == Ok(r.value.createInfo)
  {
    var physical :- PickFirstDevice(devices);
    var indices, stop := GetQueueFamilies(physical.queueFamilies);
    if indices.IsComplete() {
      ScanStopsAtLater(physical.queueFamilies, indices, stop);
    }
    var info :- CreateLogicalDevice(indices, created);
    var queues := GetQueues(indices).value;
    return Ok(DeviceState(physical, indices, info, queues.0, queues.1));
  }
}
