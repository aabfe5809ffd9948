# Pulsar Vulkan bootstrap: device selection and swap-chain negotiation

This project models the decision logic of the Pulsar engine's Vulkan/GLFW
bootstrap and proves properties of it in Dafny. It covers four parts:

- **Queue-family scan and device rating** (`Device.dfy`, module `DeviceSelection`).
  `FindQueueFamilies` walks a device's queue families and stops once both a
  graphics and a present family are known. `AreDeviceExtensionsSupported`
  erases the available names from the required set. `RateDevice` scores a
  device as a `uint16_t`. `SelectPhysicalDevice` takes the first device the
  loop accepts. `Device::Create` builds one queue-create entry per distinct
  family and fetches the two queues.
- **Device data** (`DeviceTypes.dfy`). `QueueFamilyIndices` and its
  `IsValid`, the defaults of `SwapChainSupportInfo`, and the query results
  of one physical device.
- **Swap-chain negotiation** (`SwapChain.dfy`, module `SwapChainSetup`).
  The preferred surface format and present mode with their fallbacks, the
  extent rule with the `0xFFFFFFFF` "application chooses" sentinel, the
  image-count clamp, the exclusive/concurrent sharing choice, and the fields
  `SwapChain::Create` stores.
- **Instance setup** (`Instance.dfy`, module `InstanceSetup`). The
  validation-layer check, the required-extension list, the guards and
  create-info of `Instance::Create`, the debug callback's answer, and the
  move and destroy rules of the owned `VkInstance` and debug messenger.

`Common.dfy` holds the shared vocabulary. It defines `Option`/`Result`,
the `uint16_t`/`uint32_t` ranges, opaque handles, the thrown errors, the
native destroy calls, and the name lists of `Common.hpp`.

Every Vulkan or GLFW call is a parameter or input data:

- A physical device is the `PhysicalDeviceInfo` its queries report: its
  queue families with their present support, its extension names, its
  swap-chain support, its type and `maxImageDimension2D`.
- A `vkCreate*` call is an `Option<Handle>`, where `None` stands for a
  result other than `VK_SUCCESS`.
- `vkGetDeviceQueue` is a function parameter.
- `glfwGetFramebufferSize` is a `FramebufferSize` of two C `int`s.
- `vkGetSwapchainImagesKHR` is the sequence of images it reports.
- The compile-time `g_ValidationLayerEnabled` is the parameter `validationEnabled`.
- `__APPLE__` is the `apple` field of the environment.

Destructors return the sequence of native destroy calls they issue.

`Device`, `Instance` and `SwapChain` are classes whose methods update their
fields. The queue-family scan, the extension check, the validation-layer
check, the selection loop and the queue-create loop are methods with loops.
Each of these is proved against a specification function or predicate. The
format, present-mode and extent choices are pure functions. Their linear
searches with early return are one recursive search, `FindFirst`.

Integer widths are explicit:

- The device score wraps modulo 2^16 at each `+=`.
- `minImageCount + 1` wraps modulo 2^32.
- The cast of the framebuffer's `int` size to `uint32_t` is reduction
  modulo 2^32 (`ToU32`).

### Two behaviours of the code worth knowing

- **The scan keeps the last capable index, not the first.** In
  `Device.cpp:119-128` a later capable family overwrites its slot until both
  slots are filled. So each slot holds the *last* capable index before the
  stop point. `LaterGraphicsFamilyOverwritesEarlier` shows `[graphics,
  graphics, present]` giving graphics family 1. `IsScanResult` describes the
  result exactly, and `ScanResultUnique` proves that description has only
  one solution.
- **Selection is not a maximum search.** The loop in `Device.cpp:221-228`
  starts from a null device and breaks at the first device it accepts. So it
  takes the first device with a non-zero rating.
  `SelectionIsNotAMaximumSearch` shows an integrated GPU listed first being
  taken over a higher-rated discrete GPU listed after it.

## Model

| member | source | states |
|---|---|---|
| Common.ToU32 | Core/src/Vulkan/SwapChain.cpp:110-113 | `static_cast<uint32_t>` of an `int` keeps values in [0, 2^32) and adds 2^32 to negative ones |
| DeviceTypes.DefaultQueueFamilyIndices | Core/src/Vulkan/Device.hpp:8-14 | both optionals start empty, and the default indices are not valid |
| DeviceTypes.OneFamilyIsNotValid | Core/src/Vulkan/Device.hpp:12-14 | `IsValid` needs both families: filling one slot is not enough, filling both is |
| DeviceTypes.DefaultSwapChainSupportInfo | Core/src/Vulkan/Device.hpp:17-21 | a default `SwapChainSupportInfo` has empty format and present-mode lists and zero image counts |
| DeviceSelection.ExamineFamilyAdvancesScanState | Core/src/Vulkan/Device.cpp:115-130 | one loop iteration turns "each slot is the last capable index among the first i families" into the same statement for i + 1 |
| DeviceSelection.ScanFromIsScanResult | Core/src/Vulkan/Device.cpp:113-131 | from any consistent partial state, the rest of the scan ends in a state that meets the independent description `IsScanResult` |
| DeviceSelection.QueueFamiliesOfIsScanResult | Core/src/Vulkan/Device.cpp:100-134 | the scan's result is the last graphics index and the last present index up to the stop point, where the stop point is max(graphics, present) + 1 when both exist and the end otherwise |
| DeviceSelection.ScanResultValidIff | Core/src/Vulkan/Device.cpp:113-131 | the result is valid exactly when some family does graphics and some family can present |
| DeviceSelection.ScanStopsAtFirstIndexWithBoth | Core/src/Vulkan/Device.cpp:115-117 | the scan stops no later than any pair of a graphics family and a present family |
| DeviceSelection.ScanResultUnique | Core/src/Vulkan/Device.cpp:113-131 | the independent description determines the indices: two results that meet it are equal |
| DeviceSelection.LaterGraphicsFamilyOverwritesEarlier | Core/src/Vulkan/Device.cpp:119-128 | for families [graphics, graphics, present] the scan reports graphics 1 and present 2 |
| DeviceSelection.FindQueueFamilies | Core/src/Vulkan/Device.cpp:100-134 | throws "Surface not initialized" on a null surface; otherwise returns the scan result, which meets `IsScanResult` and is valid iff graphics and present families exist |
| DeviceSelection.AreDeviceExtensionsSupported | Core/src/Vulkan/Device.cpp:194-208 | true exactly when every name of `g_DeviceExtensions` is among the available extension names |
| DeviceSelection.RateDevice | Core/src/Vulkan/Device.cpp:161-192 | fails exactly on a null surface; 0 when the families are invalid, an extension is missing, or a list is empty; otherwise the type bonus (32 discrete, 1 integrated) plus maxImageDimension2D / 1024, modulo 2^16 |
| DeviceSelection.NonZeroRatingMeansSuitable | Core/src/Vulkan/Device.cpp:161-173 | a non-zero rating implies a non-null surface, a graphics and a present family, the swapchain extension, and non-empty format and present-mode lists |
| DeviceSelection.RatingOfSuitableDevice | Core/src/Vulkan/Device.cpp:181-191 | without wrap-around a suitable device scores bonus + maxImageDimension2D / 1024, which is positive for discrete and integrated GPUs |
| DeviceSelection.DiscreteRatingCanWrapToZero | Core/src/Vulkan/Device.cpp:181-191 | a suitable discrete GPU with maxImageDimension2D = 65504 * 1024 scores 0, because 32 + 65504 wraps the `uint16_t` |
| DeviceSelection.SmallOtherDeviceRatesZero | Core/src/Vulkan/Device.cpp:183-224 | a suitable device that is neither discrete nor integrated and has maxImageDimension2D < 1024 scores 0, and the selection loop never accepts it, whatever device is held |
| DeviceSelection.FirstAcceptedFromNullIsFirstNonZero | Core/src/Vulkan/Device.cpp:221-228 | starting from no device, the loop takes device k iff k is rated non-zero and every earlier device is rated 0 |
| DeviceSelection.AcceptedDeviceIsSuitable | Core/src/Vulkan/Device.cpp:161-173 | a device the loop accepts passes all three guards of `RateDevice` |
| DeviceSelection.SelectionIsNotAMaximumSearch | Core/src/Vulkan/Device.cpp:221-228 | with an integrated GPU (17) listed before a discrete GPU (48), the integrated GPU is taken |
| DeviceSelection.QueueCreateInfos | Core/src/Vulkan/Device.cpp:32-43 | one entry per distinct family (1 when graphics = present, else 2), covering exactly {graphics, present}, in ascending order, each with queueCount 1 |
| DeviceSelection.DeviceCreateInfoFor | Core/src/Vulkan/Device.cpp:13-46 | the device create info lists one queue entry per distinct family of the selected device, the swapchain extension, and the validation layers exactly when validating |
| DeviceSelection.Device.constructor | Core/src/Vulkan/Device.hpp:53-60 | a fresh Device holds no physical device, null logical device and queues, and no instance or surface |
| DeviceSelection.Device.SelectPhysicalDevice | Core/src/Vulkan/Device.cpp:210-233 | no devices throws "No device found"; a null surface throws; otherwise the first accepted device is stored, and with none accepted the state is unchanged and "No suitable device" is thrown if no device was held |
| DeviceSelection.Device.Create | Core/src/Vulkan/Device.cpp:6-59 | the selection errors propagate; for an accepted device the create info describes the first accepted device, a failed vkCreateDevice throws, and success stores the logical device and the queues of the graphics and present families |
| DeviceSelection.Device.Destroy | Core/src/Vulkan/Device.cpp:61-66 | destroys the logical device exactly when it is non-null, then nulls it |
| InstanceSetup.AreValidationLayersSupported | Core/src/Vulkan/Instance.cpp:139-162 | true exactly when every name of `g_ValidationLayers` is among the available layers |
| InstanceSetup.GetRequiredExtensions | Core/src/Vulkan/Instance.cpp:126-137 | GLFW's extensions in order, followed by VK_EXT_debug_utils exactly when validating |
| InstanceSetup.InstanceCreateInfoFor | Core/src/Vulkan/Instance.cpp:34-68 | throws when Vulkan is unsupported, or when validating without the layers; otherwise the create info carries the required extensions (plus portability enumeration on Apple), the layer names when validating, a chained debug-messenger info when validating, and an enabled layer count reset to 0 |
| InstanceSetup.DebugCallback | Core/src/Vulkan/Instance.cpp:113-124 | always answers VK_FALSE; forwards the message iff a callback is set, otherwise prints it with the "[VK] " prefix |
| InstanceSetup.Instance.constructor | Core/src/Vulkan/Instance.hpp:36-40 | a fresh Instance holds null instance and messenger handles |
| InstanceSetup.Instance.MoveFrom | Core/src/Vulkan/Instance.cpp:93-96 | the move constructor takes the VkInstance and nulls the source's, while the messenger stays with the source |
| InstanceSetup.Instance.MoveAssign | Core/src/Vulkan/Instance.cpp:98-107 | move assignment destroys the target's non-null VkInstance, takes the source's handle and nulls the source; a self-move ends null; messengers are untouched |
| InstanceSetup.Instance.InitDebugMessenger | Core/src/Vulkan/Instance.cpp:176-187 | does nothing unless validating; when validating, a failed creation throws, and success stores the messenger |
| InstanceSetup.Instance.DeinitDebugMessenger | Core/src/Vulkan/Instance.cpp:189-194 | destroys a non-null messenger with its instance, then nulls it |
| InstanceSetup.Instance.Destroy | Core/src/Vulkan/Instance.cpp:86-91 | with a non-null instance, destroys the messenger (if any) and then the instance; with a null instance, releases nothing |
| InstanceSetup.Instance.Create | Core/src/Vulkan/Instance.cpp:8-80 | the two guard errors, then "Unknown error" on a failed vkCreateInstance, then the messenger error; on success the new Instance holds the created handle and, when validating, the messenger |
| InstanceSetup.MoveThenDestroyLeaksMessenger | Core/src/Vulkan/Instance.cpp:86-96 | moving an Instance that owns a messenger and destroying both objects destroys the VkInstance once and the messenger never |
| SwapChainSetup.FindFirst | Core/src/Vulkan/SwapChain.cpp:82-87 | the early-return search yields the first matching index from its start, or none when no element matches |
| SwapChainSetup.SelectSwapSurfaceFormat | Core/src/Vulkan/SwapChain.cpp:81-90 | the result is in the list; it is B8G8R8A8_SRGB / SRGB_NONLINEAR iff such an entry exists, and otherwise it is the first entry |
| SwapChainSetup.SelectSwapPresentMode | Core/src/Vulkan/SwapChain.cpp:92-100 | the result is in the list; it is FIFO iff FIFO is offered, and otherwise it is the first entry |
| SwapChainSetup.Clamp | Core/src/Vulkan/SwapChain.cpp:115-118 | `std::clamp` gives a value within [lo, hi], the value itself when it is already inside, and the point of [lo, hi] nearest to it |
| SwapChainSetup.SelectSwapExtent | Core/src/Vulkan/SwapChain.cpp:102-121 | without the sentinel, returns currentExtent; with it, the result is within the image-extent limits and equals the framebuffer size whenever that fits |
| SwapChainSetup.SelectedExtentIsNearestAllowed | Core/src/Vulkan/SwapChain.cpp:107-120 | under the sentinel no extent within the limits is closer, per dimension, to the framebuffer size cast to `uint32_t` |
| SwapChainSetup.NegativeWidthClampsToMaximum | Core/src/Vulkan/SwapChain.cpp:107-116 | a negative framebuffer width wraps in the cast and is clamped to the maximum width |
| SwapChainSetup.ImageCount | Core/src/Vulkan/SwapChain.cpp:11-14 | never above a non-zero maxImageCount; minImageCount + 1 when the maximum is 0 or larger than the minimum; maxImageCount when it is non-zero and not larger |
| SwapChainSetup.ImageCountWithinSurfaceLimits | Core/src/Vulkan/SwapChain.cpp:11-14 | for surface limits (minimum >= 1, maximum 0 or >= minimum) the count lies in [min, max], and it is min + 1 exactly when the maximum allows |
| SwapChainSetup.ImageCountWrapsAtMaximumMinimum | Core/src/Vulkan/SwapChain.cpp:11-14 | a minImageCount of UINT32_MAX yields an image count of 0 |
| SwapChainSetup.ImageSharing | Core/src/Vulkan/SwapChain.cpp:26-35 | CONCURRENT iff the families differ, with exactly [graphics, present]; EXCLUSIVE with no index list otherwise |
| SwapChainSetup.ImageSharingFollowsSharingRules | Core/src/Vulkan/SwapChain.cpp:26-35 | a concurrent choice lists at least two distinct families including both; an exclusive one lists none and needs graphics = present |
| SwapChainSetup.SwapChain.constructor | Core/src/Vulkan/SwapChain.hpp:24-38 | a value-initialised SwapChain holds a null handle, no images, format 0, extent 0x0 and no device |
| SwapChainSetup.SwapChain.Create | Core/src/Vulkan/SwapChain.cpp:4-60 | invalid indices throw; otherwise the create info carries the negotiated format, present mode, extent, image count and sharing, a failed vkCreateSwapchainKHR throws, and success stores the handle, the images, the extent and the format |
| SwapChainSetup.SwapChain.Destroy | Core/src/Vulkan/SwapChain.cpp:62-67 | destroys a non-null swap chain through its device's logical device, then nulls it |

## Left out

- Vulkan and GLFW calls are not modelled. Their answers are parameters or
  input data, as described above. This covers enumeration counts, the two
  call pattern of count and fill, and `VkResult` codes other than success
  and failure.
- `Device::QuerySwapChainSupport` is not modelled as a query. Its result is
  the `support` field of `PhysicalDeviceInfo`.
- `vkGetPhysicalDeviceProperties` is reduced to the device type and
  `maxImageDimension2D`. `vkGetPhysicalDeviceFeatures` is left out; the
  rating ignores its result.
- Logging is left out: `std::cout` lines and the `#ifndef NDEBUG`
  extension listing in `Instance::Create`.
- `PopulateDebugMessengerCreateInfo` is reduced to a flag saying the create
  info chains a debug-messenger info. The severity and type masks are not
  modelled.
- The queue priority `1.0F` is a float and is not modelled.
- `VkApplicationInfo` is not modelled: the application and engine names,
  and the versions built with `VK_MAKE_VERSION`.
- `Instance::SetMessageCallback` is not modelled. `s_MessageCallback` is
  the boolean `messageCallbackSet`, and the callback's own effect is left
  out.
- Some files are not part of this model: Window, Surface, Extensions,
  Pipeline, Shader, ImageViews, File and main. The defaulted move
  operations of `Device` and `SwapChain` are not part of it either.
- Queue-family indices are `nat`, not `uint32_t` or the C `int` counter
  `i`. This is exact for fewer than 2^31 families.
- Name comparison (`strcmp`, `std::string` erase) is equality of Dafny
  strings.
- The unwinding after a `Create` throws is not modelled. This covers
  `InstanceSetup.Instance.Create`, `DeviceSelection.Device.Create` and
  `SwapChainSetup.SwapChain.Create`. When one of them throws after its
  local object holds a handle, that local's destructor runs. For example, a
  failed `InitDebugMessenger` (`Instance.cpp:77`) leads `~Instance` to call
  `vkDestroyInstance` (`Instance.cpp:86-90`). The same happens after a
  failed `vkCreateDevice` or `vkCreateSwapchainKHR`. These methods return
  only the error, not the releases those destructors issue.
- InstanceSetup.Instance.Create: assumes `return instance;`
  (`Instance.cpp:79`) is elided (NRVO), so the caller receives the local
  object itself. C++ allows this elision but does not require it. Without
  it, the hand-written move constructor (`Instance.cpp:93-96`, modelled by
  `InstanceSetup.Instance.MoveFrom`) runs. The returned Instance then holds
  a null messenger. The local keeps the messenger, but its destructor skips
  the messenger because its `m_Instance` is now null, so the messenger
  leaks. `InstanceSetup.MoveThenDestroyLeaksMessenger` proves this outcome
  for a moved Instance.
- DeviceSelection.Device.Create: the physical devices are the list passed
  in, and the device's surface is the single surface handle given.
- SwapChainSetup.SwapChain.Create: requires the device's surface to be set,
  a physical device to be selected, and non-empty format and present-mode
  lists. The C++ code checks none of them:
  - `QuerySwapChainSupport` (`SwapChain.cpp:5`, via `Device.cpp:73` and
    `Device.cpp:139`) passes the device's VkSurfaceKHR to
    `vkGetPhysicalDeviceSurfaceCapabilitiesKHR`, and Vulkan does not allow
    a null surface there;
  - the selectors index `[0]` of the format and present-mode lists.

  So these are requirements on its callers. Under that
  requirement the "Surface not initialized" throw of `FindQueueFamilies`
  cannot occur.
- SwapChainSetup.SelectSwapExtent: requires min <= max per dimension under
  the sentinel, because `std::clamp` is undefined otherwise.
- Instance.hpp is not modelled as written. It declares
  `IsValidationLayerSupported` and a `const` `DeinitDebugMessenger`, while
  Instance.cpp defines `AreValidationLayersSupported` and a
  `DeinitDebugMessenger` that writes a field. The model follows Instance.cpp.
