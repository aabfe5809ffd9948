/**
  Swap-chain parameter negotiation (Core/src/Vulkan/SwapChain.cpp): the
  surface-format and present-mode choices, the extent rule with the
  "application chooses" sentinel, the image-count clamp, the sharing-mode
  choice, and the SwapChain object that Create fills in.

  What the Vulkan queries report for the device arrives in its
  PhysicalDeviceInfo; glfwGetFramebufferSize, vkCreateSwapchainKHR and
  vkGetSwapchainImagesKHR are parameters.
 */
module SwapChainSetup {
  import opened Common
  import opened DeviceTypes
  import opened DeviceSelection

  /** VK_FORMAT_B8G8R8A8_SRGB */
  const FormatB8G8R8A8Srgb: nat := 50
  /** VK_COLOR_SPACE_SRGB_NONLINEAR_KHR */
  const ColorSpaceSrgbNonlinear: nat := 0
  /** VK_PRESENT_MODE_FIFO_KHR */
  const PresentModeFifo: PresentMode := 2
  /** VK_IMAGE_USAGE_COLOR_ATTACHMENT_BIT */
  const ImageUsageColorAttachment: bv32 := 0x10
  /** VK_COMPOSITE_ALPHA_OPAQUE_BIT_KHR */
  const CompositeAlphaOpaque: bv32 := 0x1

  /** A C++ `int`, as glfwGetFramebufferSize reports it. */
  type i32 = x: int | -0x8000_0000 <= x < 0x8000_0000

  /** The framebuffer size of the window, in pixels. */
  datatype FramebufferSize = FramebufferSize(width: i32, height: i32)

  // ---------------------------------------------------------------------------
  // Linear searches that return early

  /**
    The index of the first element of xs[from..] that `matches` accepts, as
    a range-for loop with an early return finds it.
   */
  function FindFirst<T>(xs: seq<T>, matches: T -> bool, from: nat): (k: Option<nat>)
    requires from <= |xs|
    decreases |xs| - from
    ensures k.Some? ==> from <= k.value < |xs| && matches(xs[k.value])
    ensures k.Some? ==> forall j | from <= j < k.value :: !matches(xs[j])
    ensures k.None? ==> forall j | from <= j < |xs| :: !matches(xs[j])
  {
    if from == |xs| then None
    else if matches(xs[from]) then Some(from)
    else FindFirst(xs, matches, from + 1)
  }

  /** The format SwapChain::SelectSwapSurfaceFormat looks for. */
  predicate IsPreferredFormat(format: SurfaceFormat) {
    format.format == FormatB8G8R8A8Srgb && format.colorSpace == ColorSpaceSrgbNonlinear
  }

  /**
    SwapChain::SelectSwapSurfaceFormat: the first B8G8R8A8_SRGB /
    SRGB_NONLINEAR entry, else the first entry. Indexing the first entry
    needs a non-empty list.
   */
  function SelectSwapSurfaceFormat(availableFormats: seq<SurfaceFormat>): (format: SurfaceFormat)
    requires |availableFormats| > 0
    ensures format in availableFormats
    ensures IsPreferredFormat(format) <==> exists j | 0 <= j < |availableFormats| :: IsPreferredFormat(availableFormats[j])
    ensures !IsPreferredFormat(format) ==> format == availableFormats[0]
  {
    match FindFirst(availableFormats, IsPreferredFormat, 0)
    case Some(k) => availableFormats[k]
    case None => availableFormats[0]
  }

  /**
    SwapChain::SelectSwapPresentMode: FIFO when offered, else the first
    entry. Indexing the first entry needs a non-empty list.
   */
  function SelectSwapPresentMode(availablePresentModes: seq<PresentMode>): (presentMode: PresentMode)
    requires |availablePresentModes| > 0
    ensures presentMode in availablePresentModes
    ensures presentMode == PresentModeFifo <==> PresentModeFifo in availablePresentModes
    ensures presentMode != PresentModeFifo ==> presentMode == availablePresentModes[0]
  {
    match FindFirst(availablePresentModes, (mode: PresentMode) => mode == PresentModeFifo, 0)
    case Some(k) => availablePresentModes[k]
    case None => availablePresentModes[0]
  }

  // ---------------------------------------------------------------------------
  // Extent

  function Distance(a: int, b: int): nat {
    if a <= b then b - a else a - b
  }

  /** std::clamp(value, lo, hi), which needs lo <= hi. */
  function Clamp(value: u32, lo: u32, hi: u32): (r: u32)
    requires lo <= hi
    ensures lo <= r <= hi
    ensures lo <= value <= hi ==> r == value
    ensures forall x | lo <= x <= hi :: Distance(r, value) <= Distance(x, value)
  {
    if value < lo then lo else if hi < value then hi else value
  }

  /** `extent` lies within the surface's minimum and maximum image extent. */
  predicate WithinImageExtentLimits(extent: Extent2D, capabilities: SurfaceCapabilities) {
    && capabilities.minImageExtent.width <= extent.width <= capabilities.maxImageExtent.width
    && capabilities.minImageExtent.height <= extent.height <= capabilities.maxImageExtent.height
  }

  /** The width U32Max in currentExtent means the application picks the extent. */
  predicate ApplicationChoosesExtent(capabilities: SurfaceCapabilities) {
    capabilities.currentExtent.width == U32Max
  }

  /**
    SwapChain::SelectSwapExtent. Under the sentinel each framebuffer
    dimension is cast to uint32_t and clamped into the surface's limits;
    std::clamp needs each minimum to be at most its maximum.
   */
  function SelectSwapExtent(capabilities: SurfaceCapabilities, framebuffer: FramebufferSize): (extent: Extent2D)
    requires ApplicationChoosesExtent(capabilities) ==>
               && capabilities.minImageExtent.width <= capabilities.maxImageExtent.width
               && capabilities.minImageExtent.height <= capabilities.maxImageExtent.height
    ensures !ApplicationChoosesExtent(capabilities) ==> extent == capabilities.currentExtent
    ensures ApplicationChoosesExtent(capabilities) ==> WithinImageExtentLimits(extent, capabilities)
    ensures ApplicationChoosesExtent(capabilities) && 0 <= framebuffer.width && 0 <= framebuffer.height
            && WithinImageExtentLimits(Extent2D(framebuffer.width, framebuffer.height), capabilities) ==>
              extent == Extent2D(framebuffer.width, framebuffer.height)
  {
    if !ApplicationChoosesExtent(capabilities) then
      capabilities.currentExtent
    else
      var actualExtent := Extent2D(ToU32(framebuffer.width), ToU32(framebuffer.height));
      Extent2D(Clamp(actualExtent.width, capabilities.minImageExtent.width, capabilities.maxImageExtent.width),
               Clamp(actualExtent.height, capabilities.minImageExtent.height, capabilities.maxImageExtent.height))
  }

  /**
    Under the sentinel, no extent within the limits is closer, dimension by
    dimension, to the framebuffer size read as uint32_t.
   */
  lemma SelectedExtentIsNearestAllowed(capabilities: SurfaceCapabilities, framebuffer: FramebufferSize, other: Extent2D)
    requires ApplicationChoosesExtent(capabilities)
    requires capabilities.minImageExtent.width <= capabilities.maxImageExtent.width
    requires capabilities.minImageExtent.height <= capabilities.maxImageExtent.height
    requires WithinImageExtentLimits(other, capabilities)
    ensures var extent := SelectSwapExtent(capabilities, framebuffer);
            && Distance(extent.width, ToU32(framebuffer.width)) <= Distance(other.width, ToU32(framebuffer.width))
            && Distance(extent.height, ToU32(framebuffer.height)) <= Distance(other.height, ToU32(framebuffer.height))
  {
  }

  /** A negative framebuffer width wraps to a huge uint32_t and is clamped to the maximum width. */
  lemma NegativeWidthClampsToMaximum(capabilities: SurfaceCapabilities, framebuffer: FramebufferSize)
    requires ApplicationChoosesExtent(capabilities)
    requires capabilities.minImageExtent.width <= capabilities.maxImageExtent.width
    requires capabilities.minImageExtent.height <= capabilities.maxImageExtent.height
    requires framebuffer.width < 0 && capabilities.maxImageExtent.width < 0x8000_0000
    ensures SelectSwapExtent(capabilities, framebuffer).width == capabilities.maxImageExtent.width
  {
  }

  // ---------------------------------------------------------------------------
  // Image count and sharing mode

  /**
    The image count of SwapChain::Create: minImageCount + 1 in uint32_t
    arithmetic, lowered to maxImageCount when that is non-zero and smaller.
   */
  function ImageCount(capabilities: SurfaceCapabilities): (imageCount: u32)
    ensures capabilities.maxImageCount > 0 ==> imageCount <= capabilities.maxImageCount
    ensures capabilities.minImageCount < U32Max && (capabilities.maxImageCount == 0 || capabilities.minImageCount < capabilities.maxImageCount) ==>
              imageCount == capabilities.minImageCount + 1
    ensures capabilities.maxImageCount > 0 && capabilities.minImageCount >= capabilities.maxImageCount && capabilities.minImageCount < U32Max ==>
              imageCount == capabilities.maxImageCount
  {
    var imageCount := (capabilities.minImageCount + 1) % U32Modulus;
    if capabilities.maxImageCount > 0 && imageCount > capabilities.maxImageCount then capabilities.maxImageCount else imageCount
  }

  /**
    For the limits a surface reports (at least one image, a maximum of 0 or
    at least the minimum), the count lies in [minImageCount, maxImageCount]
    and asks for one image more than the minimum whenever the maximum allows.
   */
  lemma ImageCountWithinSurfaceLimits(capabilities: SurfaceCapabilities)
    requires 1 <= capabilities.minImageCount < U32Max
    requires capabilities.maxImageCount == 0 || capabilities.minImageCount <= capabilities.maxImageCount
    ensures capabilities.minImageCount <= ImageCount(capabilities)
    ensures capabilities.maxImageCount > 0 ==> ImageCount(capabilities) <= capabilities.maxImageCount
    ensures ImageCount(capabilities) == capabilities.minImageCount + 1 <==>
              capabilities.maxImageCount == 0 || capabilities.minImageCount < capabilities.maxImageCount
  {
  }

  /** minImageCount + 1 wraps to 0 when the minimum is UINT32_MAX, and no clamp undoes it. */
  lemma ImageCountWrapsAtMaximumMinimum(capabilities: SurfaceCapabilities)
    requires capabilities.minImageCount == U32Max
    ensures ImageCount(capabilities) == 0
  {
  }

  /** VkSharingMode */
  datatype SharingMode = Exclusive | Concurrent

  /**
    The sharing part of the create info: CONCURRENT with the graphics and the
    present family when they differ, EXCLUSIVE with no index list otherwise.
   */
  function ImageSharing(graphicsFamily: nat, presentFamily: nat): (sharing: (SharingMode, seq<nat>))
    ensures sharing.0 == Concurrent <==> graphicsFamily != presentFamily
    ensures sharing.0 == Concurrent ==> sharing.1 == [graphicsFamily, presentFamily]
    ensures sharing.0 == Exclusive ==> sharing.1 == []
  {
    if graphicsFamily != presentFamily then (Concurrent, [graphicsFamily, presentFamily])
    else (Exclusive, [])
  }

  /**
    The choice meets the resource-sharing rules of the Vulkan specification:
    a concurrent image lists more than one queue family, all of them
    distinct, and between the listed families and the exclusive owner both
    queues that touch the images are covered.
   */
  lemma ImageSharingFollowsSharingRules(graphicsFamily: nat, presentFamily: nat)
    ensures var (mode, indices) := ImageSharing(graphicsFamily, presentFamily);
            && (mode == Concurrent ==> |indices| >= 2 && forall i, j | 0 <= i < j < |indices| :: indices[i] != indices[j])
            && (mode == Concurrent ==> graphicsFamily in indices && presentFamily in indices)
            && (mode == Exclusive ==> indices == [] && graphicsFamily == presentFamily)
  {
  }

  // ---------------------------------------------------------------------------
  // SwapChain::Create

  /** The parts of VkSwapchainCreateInfoKHR the model keeps. */
  datatype SwapchainCreateInfo = SwapchainCreateInfo(
    surface: Handle,
    minImageCount: u32,
    imageFormat: nat,
    imageColorSpace: nat,
    imageExtent: Extent2D,
    imageArrayLayers: nat,
    imageUsage: bv32,
    imageSharingMode: SharingMode,
    queueFamilyIndices: seq<nat>,   // queueFamilyIndexCount entries of pQueueFamilyIndices
    preTransform: nat,
    compositeAlpha: bv32,
    presentMode: PresentMode,
    clipped: bool,
    oldSwapchain: Handle)

  /**
    What SwapChain::Create hands to vkCreateSwapchainKHR for `surface`, the
    negotiated parameters of `support` and `framebuffer`, and the queue
    families `indices`.
   */
  ghost predicate DescribesSwapChain(createInfo: SwapchainCreateInfo, surface: Handle, support: SwapChainSupportInfo,
                                     framebuffer: FramebufferSize, indices: QueueFamilyIndices)
    requires |support.formats| > 0 && |support.presentModes| > 0 && indices.IsValid()
    requires ApplicationChoosesExtent(support.capabilities) ==>
               && support.capabilities.minImageExtent.width <= support.capabilities.maxImageExtent.width
               && support.capabilities.minImageExtent.height <= support.capabilities.maxImageExtent.height
  {
    var surfaceFormat := SelectSwapSurfaceFormat(support.formats);
    var sharing := ImageSharing(indices.graphicsFamily.value, indices.presentFamily.value);
    && createInfo.surface == surface
    && createInfo.minImageCount == ImageCount(support.capabilities)
    && createInfo.imageFormat == surfaceFormat.format
    && createInfo.imageColorSpace == surfaceFormat.colorSpace
    && createInfo.imageExtent == SelectSwapExtent(support.capabilities, framebuffer)
    && createInfo.imageArrayLayers == 1
    && createInfo.imageUsage == ImageUsageColorAttachment
    && createInfo.imageSharingMode == sharing.0
    && createInfo.queueFamilyIndices == sharing.1
    && createInfo.preTransform == support.capabilities.currentTransform
    && createInfo.compositeAlpha == CompositeAlphaOpaque
    && createInfo.presentMode == SelectSwapPresentMode(support.presentModes)
    && createInfo.clipped
    && createInfo.oldSwapchain == Null
  }

  /** SwapChain: owns a VkSwapchainKHR and records its images, format and extent. */
  class SwapChain {
    var swapChain: Handle
    var images: seq<Handle>
    var imageFormat: nat
    var swapChainExtent: Extent2D
    var device: Device?

    /** The private defaulted constructor, value-initialised by `SwapChain swapChain{}`. */
    constructor ()
      ensures swapChain == Null && images == [] && imageFormat == 0
      ensures swapChainExtent == Extent2D(0, 0) && device == null
    {
      swapChain, images, imageFormat := Null, [], 0;
      swapChainExtent := Extent2D(0, 0);
      device := null;
    }

    /**
      SwapChain::Create. `surface` is the VkSurfaceKHR of the Surface
      argument; the support queries and the queue-family lookup go through
      the device's own surface, which must be set, and its selected physical
      device, whose format and present-mode lists must be non-empty.
      `created` is what vkCreateSwapchainKHR yields (None for a result other
      than VK_SUCCESS), `swapchainImages` what vkGetSwapchainImagesKHR
      reports. `createInfo` is None when Create throws before finishing it.
     */
    static method Create(surface: Handle, device: Device, framebuffer: FramebufferSize,
                         created: Option<Handle>, swapchainImages: seq<Handle>)
      returns (r: Result<SwapChain, Error>, createInfo: Option<SwapchainCreateInfo>)
      requires device.surface != Null && device.physicalDevice.Some?
      requires |device.physicalDevice.value.support.formats| > 0
      requires |device.physicalDevice.value.support.presentModes| > 0
      requires var capabilities := device.physicalDevice.value.support.capabilities;
               ApplicationChoosesExtent(capabilities) ==>
                 && capabilities.minImageExtent.width <= capabilities.maxImageExtent.width
                 && capabilities.minImageExtent.height <= capabilities.maxImageExtent.height
      ensures var indices := QueueFamiliesOf(device.physicalDevice.value.queueFamilies);
              !indices.IsValid() ==> r == Failure(BadOptionalAccess) && createInfo == None
      ensures var physical := device.physicalDevice.value;
              var indices := QueueFamiliesOf(physical.queueFamilies);
              indices.IsValid() ==>
                && createInfo.Some?
                && DescribesSwapChain(createInfo.value, surface, physical.support, framebuffer, indices)
                && (created.None? <==> r.Failure?)
                && (r.Failure? ==> r.error == SwapChainCreationFailed)
      ensures r.Success? ==>
                && fresh(r.value)
                && createInfo.Some?
                && r.value.swapChain == created.value
                && r.value.device == device
                && r.value.images == swapchainImages
                && r.value.swapChainExtent == createInfo.value.imageExtent
                && r.value.imageFormat == createInfo.value.imageFormat
    {
      var support := device.physicalDevice.value.support;
      var capabilities := support.capabilities;

      var surfaceFormat := SelectSwapSurfaceFormat(support.formats);
      var presentMode := SelectSwapPresentMode(support.presentModes);
      var extent := SelectSwapExtent(capabilities, framebuffer);

      var imageCount: u32 := (capabilities.minImageCount + 1) % U32Modulus;
      if capabilities.maxImageCount > 0 && imageCount > capabilities.maxImageCount {
        imageCount := capabilities.maxImageCount;
      }

      var info := SwapchainCreateInfo(surface, imageCount, surfaceFormat.format, surfaceFormat.colorSpace, extent,
                                       1, ImageUsageColorAttachment, Exclusive, [], 0, 0, 0, false, Null);

      var families := FindQueueFamilies(device.surface, device.physicalDevice.value.queueFamilies);
      if !families.value.IsValid() {
        return Failure(BadOptionalAccess), None;
      }
      var graphicsFamily := families.value.graphicsFamily.value;
      var presentFamily := families.value.presentFamily.value;

      if graphicsFamily != presentFamily {
        info := info.(imageSharingMode := Concurrent, queueFamilyIndices := [graphicsFamily, presentFamily]);
      } else {
        info := info.(imageSharingMode := Exclusive);
      }

      info := info.(preTransform := capabilities.currentTransform, compositeAlpha := CompositeAlphaOpaque,
                    presentMode := presentMode, clipped := true, oldSwapchain := Null);

      var chain := new SwapChain();
      chain.device := device;

      if created.None? {
        return Failure(SwapChainCreationFailed), Some(info);
      }
      chain.swapChain := created.value;
      chain.images := swapchainImages;
      chain.swapChainExtent := extent;
      chain.imageFormat := surfaceFormat.format;
      return Success(chain), Some(info);
    }

    /** SwapChain::~SwapChain: destroys the swap chain through its device's logical device. */
    method Destroy() returns (released: seq<Release>)
      requires swapChain != Null ==> device != null
      modifies this`swapChain
      ensures old(swapChain) == Null ==> released == []
      ensures old(swapChain) != Null ==> released == [DestroySwapchain(device.logicalDevice, old(swapChain))]
      ensures swapChain == Null
    {
      released := [];
      if swapChain != Null {
        released := [DestroySwapchain(device.logicalDevice, swapChain)];
        swapChain := Null;
      }
    }
  }
}
