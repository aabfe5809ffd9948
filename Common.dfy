/**
  Shared vocabulary of the model: failure-carrying results, the fixed-width
  integers the C++ code computes with, opaque native handles, the errors the
  code throws, the releases its destructors perform, and the constant name
  lists of Core/src/Vulkan/Common.hpp.
 */
module Common {

  datatype Option<+T> = None | Some(value: T)

  /** A C++ function either returns a value or throws one of the errors below. */
  datatype Result<+R, +E> = Success(value: R) | Failure(error: E)

  /** A C++ `void` function either returns or throws. */
  datatype Outcome<+E> = Pass | Fail(error: E)

  const U16Modulus: int := 0x1_0000
  const U32Modulus: int := 0x1_0000_0000
  /** std::numeric_limits<uint32_t>::max() */
  const U32Max: int := 0xFFFF_FFFF

  type u16 = x: int | 0 <= x < 0x1_0000
  type u32 = x: int | 0 <= x < 0x1_0000_0000

  /** `static_cast<uint32_t>` applied to a C++ `int`: reduction modulo 2^32. */
  function ToU32(x: int): (r: u32)
    ensures 0 <= x < U32Modulus ==> r == x
    ensures -U32Modulus <= x < 0 ==> r == x + U32Modulus
  {
    x % U32Modulus
  }

  /** A Vulkan handle (VkInstance, VkDevice, VkQueue, ...): null or some opaque value. */
  datatype Handle = Null | NonNull(id: nat)

  /** The `std::runtime_error`s (and the one `std::bad_optional_access`) of Device.cpp, SwapChain.cpp and Instance.cpp. */
  datatype Error =
    | SurfaceNotInitialized         // "Failed to find queue families: Surface not initialized"
    | NoVulkanDevice                // "No device found with vulkan support"
    | NoSuitableDevice              // "No suitable device found"
    | LogicalDeviceCreationFailed   // "Failed to create logical device: Unknown error"
    | SwapChainCreationFailed       // "Failed to initialize swap chain: Unknown error"
    | VulkanUnsupported             // "Vulkan unsupported on this machine"
    | ValidationLayersUnsupported   // "Validation layers not supported"
    | InstanceCreationFailed        // "Failed to create Vulkan instance: Unknown error"
    | DebugMessengerCreationFailed  // "Failed to initialize debug messenger: Unknown error"
    | BadOptionalAccess             // std::optional::value() on an empty optional

  /** A native destroy call issued by a destructor or a move assignment. */
  datatype Release =
    | DestroyInstance(instance: Handle)
    | DestroyDebugMessenger(owner: Handle, messenger: Handle)
    | DestroyDevice(device: Handle)
    | DestroySwapchain(device: Handle, swapchain: Handle)

  /** g_DeviceExtensions: VK_KHR_SWAPCHAIN_EXTENSION_NAME. */
  const DeviceExtensions: seq<string> := ["VK_KHR_swapchain"]

  /** g_ValidationLayers. */
  const ValidationLayers: seq<string> := ["VK_LAYER_KHRONOS_validation"]

  /** VK_EXT_DEBUG_UTILS_EXTENSION_NAME */
  const DebugUtilsExtension: string := "VK_EXT_debug_utils"

  /** VK_KHR_PORTABILITY_ENUMERATION_EXTENSION_NAME */
  const PortabilityEnumerationExtension: string := "VK_KHR_portability_enumeration"
}
