/**
  The value types of Core/src/Vulkan/Device.hpp (QueueFamilyIndices,
  SwapChainSupportInfo), the Vulkan structures they hold, and the per-device
  query results the rating reads, gathered as plain input data.
 */
module DeviceTypes {
  import opened Common

  /** Which queue family does graphics and which presents; both start empty. */
  datatype QueueFamilyIndices = QueueFamilyIndices(graphicsFamily: Option<nat>, presentFamily: Option<nat>)
  {
    predicate IsValid() {
      graphicsFamily.Some? && presentFamily.Some?
    }
  }

  /** A default-constructed QueueFamilyIndices. */
  function DefaultQueueFamilyIndices(): (indices: QueueFamilyIndices)
    ensures indices.graphicsFamily == None && indices.presentFamily == None
    ensures !indices.IsValid()
  {
    QueueFamilyIndices(None, None)
  }

  /** Filling in only one of the two optionals never makes the indices valid. */
  lemma OneFamilyIsNotValid(index: nat)
    ensures !DefaultQueueFamilyIndices().(graphicsFamily := Some(index)).IsValid()
    ensures !DefaultQueueFamilyIndices().(presentFamily := Some(index)).IsValid()
    ensures DefaultQueueFamilyIndices().(graphicsFamily := Some(index), presentFamily := Some(index)).IsValid()
  {
  }

  /** VkExtent2D */
  datatype Extent2D = Extent2D(width: u32, height: u32)

  /** The part of VkSurfaceCapabilitiesKHR that SwapChain::Create reads. */
  datatype SurfaceCapabilities = SurfaceCapabilities(
    minImageCount: u32,
    maxImageCount: u32,       // 0 means "no limit"
    currentExtent: Extent2D,  // width U32Max means "the application chooses"
    minImageExtent: Extent2D,
    maxImageExtent: Extent2D,
    currentTransform: nat)

  /** VkSurfaceFormatKHR: a VkFormat and a VkColorSpaceKHR enumerant. */
  datatype SurfaceFormat = SurfaceFormat(format: nat, colorSpace: nat)

  /** VkPresentModeKHR enumerant. */
  type PresentMode = nat

  datatype SwapChainSupportInfo = SwapChainSupportInfo(
    capabilities: SurfaceCapabilities,
    formats: seq<SurfaceFormat>,
    presentModes: seq<PresentMode>)

  /** A default-constructed SwapChainSupportInfo (`{}` initialisers throughout). */
  function DefaultSwapChainSupportInfo(): (info: SwapChainSupportInfo)
    ensures info.formats == [] && info.presentModes == []
    ensures info.capabilities.minImageCount == 0 && info.capabilities.maxImageCount == 0
  {
    var zero := Extent2D(0, 0);
    SwapChainSupportInfo(SurfaceCapabilities(0, 0, zero, zero, zero, 0), [], [])
  }

  /** VkPhysicalDeviceType */
  datatype PhysicalDeviceType = Other | IntegratedGpu | DiscreteGpu | VirtualGpu | Cpu

  /**
    One entry of vkGetPhysicalDeviceQueueFamilyProperties (its queueFlags) with
    the answer of vkGetPhysicalDeviceSurfaceSupportKHR for that family index
    and the surface in use.
   */
  datatype QueueFamily = QueueFamily(queueFlags: bv32, presentSupport: bool)

  /** Everything the Vulkan queries report about one physical device for the surface in use. */
  datatype PhysicalDeviceInfo = PhysicalDeviceInfo(
    queueFamilies: seq<QueueFamily>,
    extensionNames: seq<string>,
    support: SwapChainSupportInfo,
    deviceType: PhysicalDeviceType,
    maxImageDimension2D: u32)
}
