/**
  Physical-device suitability and selection (Core/src/Vulkan/Device.cpp):
  the queue-family scan, the required-extension check, the uint16_t device
  score, the first-suitable-device selection loop, and the per-family
  queue-create entries of Device::Create.

  Every Vulkan query is input data: a physical device is the
  PhysicalDeviceInfo its queries report, and the surface is its handle.
 */
module DeviceSelection {
  import opened Common
  import opened DeviceTypes
  import opened InstanceSetup

  /** VK_QUEUE_GRAPHICS_BIT */
  const QueueGraphicsBit: bv32 := 0x1

  predicate HasGraphics(family: QueueFamily) {
    family.queueFlags & QueueGraphicsBit != 0
  }

  /** The capability one slot of QueueFamilyIndices records: graphics (true) or presentation (false). */
  predicate Capable(family: QueueFamily, graphics: bool) {
    if graphics then HasGraphics(family) else family.presentSupport
  }

  function Max(a: nat, b: nat): nat {
    if a < b then b else a
  }

  // ---------------------------------------------------------------------------
  // The queue-family scan

  /** The loop body of the scan at family index `i`: a capable family overwrites its slot. */
  function ExamineFamily(indices: QueueFamilyIndices, family: QueueFamily, i: nat): QueueFamilyIndices {
    var afterGraphics := if HasGraphics(family) then indices.(graphicsFamily := Some(i)) else indices;
    if family.presentSupport then afterGraphics.(presentFamily := Some(i)) else afterGraphics
  }

  /** The scan from family `i` on: it stops at the end or as soon as the indices are valid. */
  function ScanFrom(families: seq<QueueFamily>, i: nat, indices: QueueFamilyIndices): QueueFamilyIndices
    requires i <= |families|
    decreases |families| - i
  {
    if i == |families| || indices.IsValid() then indices
    else ScanFrom(families, i + 1, ExamineFamily(indices, families[i], i))
  }

  /** What FindQueueFamilies returns for a non-null surface. */
  function QueueFamiliesOf(families: seq<QueueFamily>): QueueFamilyIndices {
    ScanFrom(families, 0, DefaultQueueFamilyIndices())
  }

  /** Some family does graphics and some family (maybe another) can present. */
  predicate HasGraphicsAndPresent(families: seq<QueueFamily>) {
    && (exists j | 0 <= j < |families| :: HasGraphics(families[j]))
    && (exists j | 0 <= j < |families| :: families[j].presentSupport)
  }

  /** `slot` is the LAST index below `bound` whose family has the capability, or None when there is none. */
  ghost predicate LastCapableBelow(families: seq<QueueFamily>, bound: nat, graphics: bool, slot: Option<nat>)
    requires bound <= |families|
  {
    match slot
    case None => forall j :: 0 <= j < bound ==> !Capable(families[j], graphics)
    case Some(x) =>
      && x < bound
      && Capable(families[x], graphics)
      && forall j :: x < j < bound ==> !Capable(families[j], graphics)
  }

  /**
    `indices` is what the scan holds after examining the first `examined`
    families: each slot is the last capable index so far, and once both slots
    are filled, the family just examined is the first one at which both
    capabilities had been seen.
   */
  ghost predicate ScanStateAt(families: seq<QueueFamily>, examined: nat, indices: QueueFamilyIndices)
    requires examined <= |families|
  {
    && LastCapableBelow(families, examined, true, indices.graphicsFamily)
    && LastCapableBelow(families, examined, false, indices.presentFamily)
    && (indices.IsValid() ==>
          && 0 < examined
          && Max(indices.graphicsFamily.value, indices.presentFamily.value) == examined - 1
          && ((forall j :: 0 <= j < examined - 1 ==> !Capable(families[j], true))
              || (forall j :: 0 <= j < examined - 1 ==> !Capable(families[j], false))))
  }

  /**
    Independent description of the scan's result: the scan examined every
    family up to max(graphics, present) when it found both, and all families
    otherwise.
   */
  ghost predicate IsScanResult(families: seq<QueueFamily>, indices: QueueFamilyIndices) {
    var examined :=
      if indices.IsValid() then Max(indices.graphicsFamily.value, indices.presentFamily.value) + 1
      else |families|;
    examined <= |families| && ScanStateAt(families, examined, indices)
  }

  lemma ExamineFamilyAdvancesScanState(families: seq<QueueFamily>, i: nat, indices: QueueFamilyIndices)
    requires i < |families| && ScanStateAt(families, i, indices) && !indices.IsValid()
    ensures ScanStateAt(families, i + 1, ExamineFamily(indices, families[i], i))
  {
  }

  lemma {:induction false} ScanFromIsScanResult(families: seq<QueueFamily>, i: nat, indices: QueueFamilyIndices)
    requires i <= |families| && ScanStateAt(families, i, indices)
    ensures IsScanResult(families, ScanFrom(families, i, indices))
    decreases |families| - i
  {
    if i < |families| && !indices.IsValid() {
      ExamineFamilyAdvancesScanState(families, i, indices);
      ScanFromIsScanResult(families, i + 1, ExamineFamily(indices, families[i], i));
    }
  }

  /** The scan's result meets the independent description. */
  lemma QueueFamiliesOfIsScanResult(families: seq<QueueFamily>)
    ensures IsScanResult(families, QueueFamiliesOf(families))
  {
    ScanFromIsScanResult(families, 0, DefaultQueueFamilyIndices());
  }

  /** The scan's result is valid exactly when a graphics family and a present family exist. */
  lemma ScanResultValidIff(families: seq<QueueFamily>, indices: QueueFamilyIndices)
    requires IsScanResult(families, indices)
    ensures indices.IsValid() <==> HasGraphicsAndPresent(families)
  {
  }

  /** The scan stops at the first index by which both capabilities have been seen. */
  lemma ScanStopsAtFirstIndexWithBoth(families: seq<QueueFamily>, indices: QueueFamilyIndices, g: nat, p: nat)
    requires IsScanResult(families, indices) && indices.IsValid()
    requires g < |families| && HasGraphics(families[g])
    requires p < |families| && families[p].presentSupport
    ensures Max(indices.graphicsFamily.value, indices.presentFamily.value) <= Max(g, p)
  {
  }

  /** The description determines the result: there is exactly one scan result. */
  lemma ScanResultUnique(families: seq<QueueFamily>, a: QueueFamilyIndices, b: QueueFamilyIndices)
    requires IsScanResult(families, a) && IsScanResult(families, b)
    ensures a == b
  {
  }

  /**
    A later graphics family overwrites an earlier one until the present slot
    is filled too: with two graphics-only families followed by a present-only
    family the scan reports graphics family 1, not the first one (0).
   */
  lemma LaterGraphicsFamilyOverwritesEarlier()
    ensures var families := [QueueFamily(QueueGraphicsBit, false), QueueFamily(QueueGraphicsBit, false), QueueFamily(0, true)];
            QueueFamiliesOf(families) == QueueFamilyIndices(Some(1), Some(2))
  {
    var families := [QueueFamily(QueueGraphicsBit, false), QueueFamily(QueueGraphicsBit, false), QueueFamily(0, true)];
    var expected := QueueFamilyIndices(Some(1), Some(2));
    assert !Capable(families[2], true) && !Capable(families[0], false) && !Capable(families[1], false);
    assert IsScanResult(families, expected);
    QueueFamiliesOfIsScanResult(families);
    ScanResultUnique(families, expected, QueueFamiliesOf(families));
  }

  /** Device::FindQueueFamilies: the loop with its early break. */
  method FindQueueFamilies(surface: Handle, families: seq<QueueFamily>) returns (r: Result<QueueFamilyIndices, Error>)
    ensures surface == Null ==> r == Failure(SurfaceNotInitialized)
    ensures surface != Null ==> r == Success(QueueFamiliesOf(families))
    ensures r.Success? ==> IsScanResult(families, r.value)
    ensures r.Success? ==> (r.value.IsValid() <==> HasGraphicsAndPresent(families))
  {
    if surface == Null {
      return Failure(SurfaceNotInitialized);
    }
    var indices := DefaultQueueFamilyIndices();
    var i := 0;
    while i < |families|
      invariant 0 <= i <= |families|
      invariant ScanFrom(families, i, indices) == QueueFamiliesOf(families)
    {
      if indices.IsValid() {
        break;
      }
      if families[i].queueFlags & QueueGraphicsBit != 0 {
        indices := indices.(graphicsFamily := Some(i));
      }
      if families[i].presentSupport {
        indices := indices.(presentFamily := Some(i));
      }
      i := i + 1;
    }
    QueueFamiliesOfIsScanResult(families);
    ScanResultValidIff(families, indices);
    return Success(indices);
  }

  // ---------------------------------------------------------------------------
  // Required device extensions

  /** Every name of g_DeviceExtensions occurs among the available extension names. */
  predicate DeviceExtensionsSupported(availableExtensions: seq<string>) {
    forall e | e in DeviceExtensions :: e in availableExtensions
  }

  /** Device::AreDeviceExtensionsSupported: erase every available name from the required set. */
  method AreDeviceExtensionsSupported(availableExtensions: seq<string>) returns (supported: bool)
    ensures supported <==> DeviceExtensionsSupported(availableExtensions)
  {
    var requiredExtensions := set e | e in DeviceExtensions;
    for i := 0 to |availableExtensions|
      invariant requiredExtensions == set e | e in DeviceExtensions && e !in availableExtensions[..i]
    {
      assert availableExtensions[..i + 1] == availableExtensions[..i] + [availableExtensions[i]];
      requiredExtensions := requiredExtensions - {availableExtensions[i]};
    }
    assert availableExtensions[..|availableExtensions|] == availableExtensions;
    supported := requiredExtensions == {};
    if !supported {
      var missing :| missing in requiredExtensions;
      assert missing in DeviceExtensions && missing !in availableExtensions;
    }
  }

  // ---------------------------------------------------------------------------
  // Rating

  /** The three guards of RateDevice all pass. */
  predicate IsSuitable(device: PhysicalDeviceInfo) {
    && QueueFamiliesOf(device.queueFamilies).IsValid()
    && DeviceExtensionsSupported(device.extensionNames)
    && |device.support.formats| > 0
    && |device.support.presentModes| > 0
  }

  function TypeBonus(deviceType: PhysicalDeviceType): nat {
    match deviceType
    case DiscreteGpu => 32
    case IntegratedGpu => 1
    case _ => 0
  }

  /**
    Device::RateDevice. The score is a uint16_t, so each `+=` wraps modulo
    2^16. A null surface makes the embedded FindQueueFamilies throw.
   */
  function RateDevice(surface: Handle, device: PhysicalDeviceInfo): (rating: Result<u16, Error>)
    ensures rating.Failure? <==> surface == Null
    ensures rating.Failure? ==> rating.error == SurfaceNotInitialized
    ensures rating.Success? && !IsSuitable(device) ==> rating.value == 0
    ensures rating.Success? && IsSuitable(device) ==>
              rating.value == (TypeBonus(device.deviceType) + device.maxImageDimension2D / 1024) % U16Modulus
  {
    if surface == Null then Failure(SurfaceNotInitialized)
    else if !QueueFamiliesOf(device.queueFamilies).IsValid() then Success(0)
    else if !DeviceExtensionsSupported(device.extensionNames) then Success(0)
    else if |device.support.formats| == 0 || |device.support.presentModes| == 0 then Success(0)
    else
      var score: u16 := 0;
      var score: u16 := (score + TypeBonus(device.deviceType)) % U16Modulus;
      var score: u16 := (score + device.maxImageDimension2D / 1024) % U16Modulus;
      Success(score)
  }

  /** A non-zero rating certifies every capability later code relies on. */
  lemma NonZeroRatingMeansSuitable(surface: Handle, device: PhysicalDeviceInfo)
    requires RateDevice(surface, device).Success? && RateDevice(surface, device).value != 0
    ensures surface != Null
    ensures HasGraphicsAndPresent(device.queueFamilies)
    ensures DeviceExtensionsSupported(device.extensionNames)
    ensures |device.support.formats| > 0 && |device.support.presentModes| > 0
  {
    QueueFamiliesOfIsScanResult(device.queueFamilies);
    ScanResultValidIff(device.queueFamilies, QueueFamiliesOf(device.queueFamilies));
  }

  /** Without wrap-around the score is the type bonus plus maxImageDimension2D / 1024. */
  lemma RatingOfSuitableDevice(surface: Handle, device: PhysicalDeviceInfo)
    requires surface != Null && IsSuitable(device)
    requires TypeBonus(device.deviceType) + device.maxImageDimension2D / 1024 < U16Modulus
    ensures RateDevice(surface, device) == Success(TypeBonus(device.deviceType) + device.maxImageDimension2D / 1024)
    ensures device.deviceType in {DiscreteGpu, IntegratedGpu} ==> RateDevice(surface, device).value > 0
  {
  }

  /** A suitable discrete GPU is rated 0, and so rejected, when its score wraps to 2^16. */
  lemma DiscreteRatingCanWrapToZero(surface: Handle, device: PhysicalDeviceInfo)
    requires surface != Null && IsSuitable(device) && device.deviceType == DiscreteGpu
    requires device.maxImageDimension2D == 65504 * 1024
    ensures RateDevice(surface, device) == Success(0)
  {
  }

  /**
    A suitable device of another type with maxImageDimension2D below 1024 is
    rated 0 too, so the selection loop never takes it.
   */
  lemma SmallOtherDeviceRatesZero(surface: Handle, device: PhysicalDeviceInfo)
    requires surface != Null && IsSuitable(device)
    requires device.deviceType !in {DiscreteGpu, IntegratedGpu} && device.maxImageDimension2D < 1024
    ensures RateDevice(surface, device) == Success(0)
    ensures forall current :: !Accepts(surface, current, device)
  {
  }

  // ---------------------------------------------------------------------------
  // Selection

  /**
    The selection loop takes `candidate` while `current` is held: a non-zero
    rating that also beats the held device's rating.
   */
  ghost predicate Accepts(surface: Handle, current: Option<PhysicalDeviceInfo>, candidate: PhysicalDeviceInfo) {
    var rating := RateDevice(surface, candidate);
    && rating.Success?
    && rating.value != 0
    && (current.None? || rating.value > RateDevice(surface, current.value).value)
  }

  /** devices[k] is the first device in enumeration order the loop takes. */
  ghost predicate IsFirstAccepted(surface: Handle, current: Option<PhysicalDeviceInfo>, devices: seq<PhysicalDeviceInfo>, k: nat) {
    && k < |devices|
    && Accepts(surface, current, devices[k])
    && forall j | 0 <= j < k :: !Accepts(surface, current, devices[j])
  }

  /** From a null device the loop takes the first non-zero-rated device, and every earlier one rates 0. */
  lemma FirstAcceptedFromNullIsFirstNonZero(surface: Handle, devices: seq<PhysicalDeviceInfo>, k: nat)
    requires surface != Null && k < |devices|
    ensures IsFirstAccepted(surface, None, devices, k) <==>
              RateDevice(surface, devices[k]).value != 0 &&
              forall j | 0 <= j < k :: RateDevice(surface, devices[j]) == Success(0)
  {
  }

  /** An accepted device has valid queue families and non-empty format and present-mode lists. */
  lemma AcceptedDeviceIsSuitable(surface: Handle, current: Option<PhysicalDeviceInfo>, candidate: PhysicalDeviceInfo)
    requires Accepts(surface, current, candidate)
    ensures surface != Null && IsSuitable(candidate)
    ensures HasGraphicsAndPresent(candidate.queueFamilies)
  {
    NonZeroRatingMeansSuitable(surface, candidate);
  }

  function ExampleDevice(deviceType: PhysicalDeviceType): PhysicalDeviceInfo {
    PhysicalDeviceInfo(
      [QueueFamily(QueueGraphicsBit, true)],
      DeviceExtensions,
      DefaultSwapChainSupportInfo().(formats := [SurfaceFormat(50, 0)], presentModes := [2]),
      deviceType,
      16384)
  }

  /**
    Selection is not a search for the maximum: an integrated GPU listed first
    is taken although a discrete GPU listed after it rates higher.
   */
  lemma SelectionIsNotAMaximumSearch(surface: Handle)
    requires surface != Null
    ensures var devices := [ExampleDevice(IntegratedGpu), ExampleDevice(DiscreteGpu)];
            && IsFirstAccepted(surface, None, devices, 0)
            && RateDevice(surface, devices[1]).value > RateDevice(surface, devices[0]).value
  {
  }

  // ---------------------------------------------------------------------------
  // Logical-device creation

  datatype DeviceQueueCreateInfo = DeviceQueueCreateInfo(queueFamilyIndex: nat, queueCount: nat)

  /** The parts of VkDeviceCreateInfo the model keeps. */
  datatype DeviceCreateInfo = DeviceCreateInfo(
    queueCreateInfos: seq<DeviceQueueCreateInfo>,
    enabledExtensionNames: seq<string>,
    enabledLayerNames: seq<string>)

  /**
    The queue-create entries of Device::Create: one per element of the
    std::set {graphics, present}, visited in ascending order.
   */
  method QueueCreateInfos(graphicsFamily: nat, presentFamily: nat) returns (infos: seq<DeviceQueueCreateInfo>)
    ensures |infos| == if graphicsFamily == presentFamily then 1 else 2
    ensures (set q | q in infos :: q.queueFamilyIndex) == {graphicsFamily, presentFamily}
    ensures forall k | 0 <= k < |infos| :: infos[k].queueCount == 1
    ensures forall k, l | 0 <= k < l < |infos| :: infos[k].queueFamilyIndex < infos[l].queueFamilyIndex
  {
    var uniqueQueueFamilies :=
      if graphicsFamily == presentFamily then [graphicsFamily]
      else if graphicsFamily < presentFamily then [graphicsFamily, presentFamily]
      else [presentFamily, graphicsFamily];
    infos := [];
    for k := 0 to |uniqueQueueFamilies|
      invariant |infos| == k
      invariant forall m | 0 <= m < k :: infos[m] == DeviceQueueCreateInfo(uniqueQueueFamilies[m], 1)
    {
      infos := infos + [DeviceQueueCreateInfo(uniqueQueueFamilies[k], 1)];
    }
    if graphicsFamily == presentFamily {
      assert infos == [DeviceQueueCreateInfo(graphicsFamily, 1)];
    } else if graphicsFamily < presentFamily {
      assert infos == [DeviceQueueCreateInfo(graphicsFamily, 1), DeviceQueueCreateInfo(presentFamily, 1)];
    } else {
      assert infos == [DeviceQueueCreateInfo(presentFamily, 1), DeviceQueueCreateInfo(graphicsFamily, 1)];
    }
  }

  /** What Device::Create hands to vkCreateDevice for `device`. */
  ghost predicate DescribesDevice(createInfo: DeviceCreateInfo, device: PhysicalDeviceInfo, validationEnabled: bool) {
    var indices := QueueFamiliesOf(device.queueFamilies);
    && indices.IsValid()
    && (var graphicsFamily := indices.graphicsFamily.value;
        var presentFamily := indices.presentFamily.value;
        && |createInfo.queueCreateInfos| == (if graphicsFamily == presentFamily then 1 else 2)
        && (set q | q in createInfo.queueCreateInfos :: q.queueFamilyIndex) == {graphicsFamily, presentFamily}
        && (forall q | q in createInfo.queueCreateInfos :: q.queueCount == 1))
    && createInfo.enabledExtensionNames == DeviceExtensions
    && createInfo.enabledLayerNames == (if validationEnabled then ValidationLayers else [])
  }

  /**
    The queue lookup and the VkDeviceCreateInfo of Device::Create for the
    selected physical device; also yields the two family indices the queues
    are fetched from.
   */
  method DeviceCreateInfoFor(surface: Handle, physical: PhysicalDeviceInfo, validationEnabled: bool)
    returns (info: DeviceCreateInfo, graphicsFamily: nat, presentFamily: nat)
    requires surface != Null && IsSuitable(physical)
    ensures DescribesDevice(info, physical, validationEnabled)
    ensures Some(graphicsFamily) == QueueFamiliesOf(physical.queueFamilies).graphicsFamily
    ensures Some(presentFamily) == QueueFamiliesOf(physical.queueFamilies).presentFamily
  {
    var layers := if validationEnabled then ValidationLayers else [];
    var families := FindQueueFamilies(surface, physical.queueFamilies);
    graphicsFamily := families.value.graphicsFamily.value;
    presentFamily := families.value.presentFamily.value;
    var queueCreateInfos := QueueCreateInfos(graphicsFamily, presentFamily);
    info := DeviceCreateInfo(queueCreateInfos, DeviceExtensions, layers);
  }

  /** `device` holds `physical` and the two queues vkGetDeviceQueue gives for its queue families. */
  ghost predicate HoldsDevice(device: Device, physical: PhysicalDeviceInfo, deviceQueue: (Handle, nat) -> Handle)
    reads device
  {
    var indices := QueueFamiliesOf(physical.queueFamilies);
    && indices.IsValid()
    && device.physicalDevice == Some(physical)
    && device.graphicsQueue == deviceQueue(device.logicalDevice, indices.graphicsFamily.value)
    && device.presentQueue == deviceQueue(device.logicalDevice, indices.presentFamily.value)
  }

  /** Device (the RAII wrapper of the logical device and its queues). */
  class Device {
    var physicalDevice: Option<PhysicalDeviceInfo>
    var logicalDevice: Handle
    var graphicsQueue: Handle
    var presentQueue: Handle
    var instance: Instance?
    /** The VkSurfaceKHR of the Surface the device points at. */
    var surface: Handle

    /** The private default constructor: every handle and back-pointer is null. */
    constructor ()
      ensures physicalDevice == None
      ensures logicalDevice == Null && graphicsQueue == Null && presentQueue == Null
      ensures instance == null && surface == Null
    {
      physicalDevice := None;
      logicalDevice, graphicsQueue, presentQueue := Null, Null, Null;
      instance := null;
      surface := Null;
    }

    /** Device::SelectPhysicalDevice over the enumerated devices. */
    method SelectPhysicalDevice(devices: seq<PhysicalDeviceInfo>) returns (outcome: Outcome<Error>)
      modifies this`physicalDevice
      ensures |devices| == 0 ==> outcome == Fail(NoVulkanDevice) && physicalDevice == old(physicalDevice)
      ensures |devices| > 0 && surface == Null ==>
                outcome == Fail(SurfaceNotInitialized) && physicalDevice == old(physicalDevice)
      ensures |devices| > 0 && surface != Null && (exists k | 0 <= k < |devices| :: Accepts(surface, old(physicalDevice), devices[k])) ==>
                && outcome == Pass
                && exists k | 0 <= k < |devices| :: physicalDevice == Some(devices[k]) && IsFirstAccepted(surface, old(physicalDevice), devices, k)
      ensures |devices| > 0 && surface != Null && !(exists k | 0 <= k < |devices| :: Accepts(surface, old(physicalDevice), devices[k])) ==>
                && physicalDevice == old(physicalDevice)
                && outcome == (if physicalDevice.None? then Fail(NoSuitableDevice) else Pass)
    {
      if |devices| == 0 {
        return Fail(NoVulkanDevice);
      }
      ghost var initial := physicalDevice;
      var i := 0;
      while i < |devices|
        invariant 0 <= i <= |devices|
        invariant physicalDevice == initial
        invariant i > 0 ==> surface != Null
        invariant surface != Null ==> forall j | 0 <= j < i :: !Accepts(surface, initial, devices[j])
      {
        var rating := RateDevice(surface, devices[i]);
        if rating.Failure? {
          return Fail(rating.error);
        }
        if rating.value != 0 && (physicalDevice.None? || rating.value > RateDevice(surface, physicalDevice.value).value) {
          physicalDevice := Some(devices[i]);
          assert IsFirstAccepted(surface, initial, devices, i);
          break;
        }
        i := i + 1;
      }
      if physicalDevice.None? {
        return Fail(NoSuitableDevice);
      }
      return Pass;
    }

    /**
      Device::Create. `created` is what vkCreateDevice yields (None for a
      result other than VK_SUCCESS) and `deviceQueue` stands for
      vkGetDeviceQueue. `createInfo` is the structure handed to
      vkCreateDevice, None when Create throws before building it.
     */
    static method Create(instance: Instance, surface: Handle, devices: seq<PhysicalDeviceInfo>, validationEnabled: bool,
                         created: Option<Handle>, deviceQueue: (Handle, nat) -> Handle)
      returns (r: Result<Device, Error>, createInfo: Option<DeviceCreateInfo>)
      ensures |devices| == 0 ==> r == Failure(NoVulkanDevice) && createInfo == None
      ensures |devices| > 0 && surface == Null ==> r == Failure(SurfaceNotInitialized) && createInfo == None
      ensures |devices| > 0 && surface != Null && !(exists k | 0 <= k < |devices| :: Accepts(surface, None, devices[k])) ==>
                r == Failure(NoSuitableDevice) && createInfo == None
      ensures |devices| > 0 && surface != Null && (exists k | 0 <= k < |devices| :: Accepts(surface, None, devices[k])) ==>
                && createInfo.Some?
                && (created.None? <==> r.Failure?)
                && (r.Failure? ==> r.error == LogicalDeviceCreationFailed)
                && exists k | 0 <= k < |devices| ::
                     && IsFirstAccepted(surface, None, devices, k)
                     && DescribesDevice(createInfo.value, devices[k], validationEnabled)
                     && (r.Success? ==> r.value.physicalDevice == Some(devices[k]))
      ensures r.Success? ==>
                && fresh(r.value)
                && r.value.instance == instance && r.value.surface == surface
                && r.value.logicalDevice == created.value
                && r.value.physicalDevice.Some?
                && HoldsDevice(r.value, r.value.physicalDevice.value, deviceQueue)
    {
      var device := new Device();
      device.instance := instance;
      device.surface := surface;

      var selected := device.SelectPhysicalDevice(devices);
      if selected.Fail? {
        return Failure(selected.error), None;
      }
      ghost var k :| 0 <= k < |devices| && device.physicalDevice == Some(devices[k]) && IsFirstAccepted(surface, None, devices, k);
      AcceptedDeviceIsSuitable(surface, None, devices[k]);

      var info, graphicsFamily, presentFamily := DeviceCreateInfoFor(surface, device.physicalDevice.value, validationEnabled);

      if created.None? {
        return Failure(LogicalDeviceCreationFailed), Some(info);
      }
      device.logicalDevice := created.value;
      device.graphicsQueue := deviceQueue(device.logicalDevice, graphicsFamily);
      device.presentQueue := deviceQueue(device.logicalDevice, presentFamily);
      assert HoldsDevice(device, device.physicalDevice.value, deviceQueue);
      return Success(device), Some(info);
    }

    /** Device::~Device: destroys the logical device if there is one. */
    method Destroy() returns (released: seq<Release>)
      modifies this`logicalDevice
      ensures released == if old(logicalDevice) != Null then [DestroyDevice(old(logicalDevice))] else []
      ensures logicalDevice == Null
    {
      released := [];
      if logicalDevice != Null {
        released := [DestroyDevice(logicalDevice)];
        logicalDevice := Null;
      }
    }
  }
}
