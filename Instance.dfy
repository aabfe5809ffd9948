/**
  Instance-level list checks and handle ownership (Core/src/Vulkan/Instance.cpp):
  the validation-layer check, the required-extension list, the guards and
  the create-info of Instance::Create, the debug callback's answer, and the
  move/destroy rules of the owned VkInstance.

  g_ValidationLayerEnabled is the boolean parameter `validationEnabled`;
  what GLFW and the Vulkan loader report is the InstanceEnvironment.
 */
module InstanceSetup {
  import opened Common

  /** The answers of the platform queries Instance::Create makes. */
  datatype InstanceEnvironment = InstanceEnvironment(
    vulkanSupported: bool,         // glfwVulkanSupported() != GL_FALSE
    availableLayers: seq<string>,  // layer names from vkEnumerateInstanceLayerProperties
    glfwExtensions: seq<string>,   // glfwGetRequiredInstanceExtensions, in order
    apple: bool)                   // built with __APPLE__ defined

  /** The parts of VkInstanceCreateInfo the model keeps. */
  datatype InstanceCreateInfo = InstanceCreateInfo(
    enabledLayerCount: nat,
    enabledLayerNames: seq<string>,      // what ppEnabledLayerNames points at
    enabledExtensionNames: seq<string>,
    debugMessengerChained: bool,         // pNext points at a debug-messenger create info
    enumeratePortability: bool)          // VK_INSTANCE_CREATE_ENUMERATE_PORTABILITY_BIT_KHR is set

  /** Every name of g_ValidationLayers equals (strcmp) some available layer name. */
  predicate ValidationLayersAvailable(availableLayers: seq<string>) {
    forall layer | layer in ValidationLayers :: layer in availableLayers
  }

  /** Instance::AreValidationLayersSupported: a nested search with a `layerFound` flag. */
  method AreValidationLayersSupported(availableLayers: seq<string>) returns (supported: bool)
    ensures supported <==> ValidationLayersAvailable(availableLayers)
  {
    for i := 0 to |ValidationLayers|
      invariant forall m | 0 <= m < i :: ValidationLayers[m] in availableLayers
    {
      var layerName := ValidationLayers[i];
      var layerFound := false;
      for j := 0 to |availableLayers|
        invariant !layerFound
        invariant forall m | 0 <= m < j :: availableLayers[m] != layerName
      {
        if layerName == availableLayers[j] {
          layerFound := true;
          break;
        }
      }
      if !layerFound {
        assert layerName !in availableLayers;
        return false;
      }
    }
    return true;
  }

  /** Instance::GetRequiredExtensions: GLFW's list, then VK_EXT_debug_utils when validating. */
  function GetRequiredExtensions(glfwExtensions: seq<string>, validationEnabled: bool): (extensions: seq<string>)
    ensures |extensions| == |glfwExtensions| + (if validationEnabled then 1 else 0)
    ensures extensions[..|glfwExtensions|] == glfwExtensions
    ensures validationEnabled ==> extensions[|glfwExtensions|] == DebugUtilsExtension
  {
    var extensions := glfwExtensions;
    if validationEnabled then extensions + [DebugUtilsExtension] else extensions
  }

  /**
    The checks and the create-info of Instance::Create up to vkCreateInstance.
    The layer count set for validation is cleared again before the call.
   */
  method InstanceCreateInfoFor(env: InstanceEnvironment, validationEnabled: bool) returns (r: Result<InstanceCreateInfo, Error>)
    ensures !env.vulkanSupported ==> r == Failure(VulkanUnsupported)
    ensures env.vulkanSupported && validationEnabled && !ValidationLayersAvailable(env.availableLayers) ==>
              r == Failure(ValidationLayersUnsupported)
    ensures env.vulkanSupported && (!validationEnabled || ValidationLayersAvailable(env.availableLayers)) ==> r.Success?
    ensures r.Success? ==>
              && r.value.enabledLayerCount == 0
              && r.value.enabledLayerNames == (if validationEnabled then ValidationLayers else [])
              && r.value.debugMessengerChained == validationEnabled
              && r.value.enabledExtensionNames ==
                   GetRequiredExtensions(env.glfwExtensions, validationEnabled)
                   + (if env.apple then [PortabilityEnumerationExtension] else [])
              && r.value.enumeratePortability == env.apple
  {
    var createInfo := InstanceCreateInfo(0, [], [], false, false);
    if !env.vulkanSupported {
      return Failure(VulkanUnsupported);
    }
    if validationEnabled {
      var supported := AreValidationLayersSupported(env.availableLayers);
      if !supported {
        return Failure(ValidationLayersUnsupported);
      }
      createInfo := createInfo.(enabledLayerCount := |ValidationLayers|, enabledLayerNames := ValidationLayers);
      createInfo := createInfo.(debugMessengerChained := true);
    } else {
      createInfo := createInfo.(enabledLayerCount := 0, debugMessengerChained := false);
    }
    var requiredExtensions := GetRequiredExtensions(env.glfwExtensions, validationEnabled);
    if env.apple {
      requiredExtensions := requiredExtensions + [PortabilityEnumerationExtension];
      createInfo := createInfo.(enumeratePortability := true);
    }
    createInfo := createInfo.(enabledExtensionNames := requiredExtensions);
    createInfo := createInfo.(enabledLayerCount := 0);
    return Success(createInfo);
  }

  /** Where the debug callback sends a message. */
  datatype DebugOutput = Forwarded(message: string) | Printed(line: string)

  /** VK_FALSE */
  const VkFalse: nat := 0

  /**
    Instance::debugCallback: forwards the message to the process-wide message
    callback when one is set, prints it otherwise, and never asks Vulkan to
    abort the call.
   */
  function DebugCallback(messageCallbackSet: bool, message: string): (r: (nat, DebugOutput))
    ensures r.0 == VkFalse
    ensures r.1.Forwarded? <==> messageCallbackSet
    ensures r.1 == Forwarded(message) || r.1 == Printed("[VK] " + message + "\n")
  {
    if messageCallbackSet then (VkFalse, Forwarded(message))
    else (VkFalse, Printed("[VK] " + message + "\n"))
  }

  /** Instance: owns a VkInstance and, when validating, a debug messenger. */
  class Instance {
    var instance: Handle
    var debugMessenger: Handle

    /** The private default constructor. */
    constructor ()
      ensures instance == Null && debugMessenger == Null
    {
      instance, debugMessenger := Null, Null;
    }

    /** Instance::Instance(Instance &&): takes the VkInstance only; the messenger stays behind. */
    constructor MoveFrom(other: Instance)
      modifies other
      ensures instance == old(other.instance) && debugMessenger == Null
      ensures other.instance == Null && other.debugMessenger == old(other.debugMessenger)
    {
      instance := other.instance;
      debugMessenger := Null;
      new;
      other.instance := Null;
    }

    /**
      Instance::operator=(Instance &&): destroys the target's own VkInstance
      (not its messenger), then takes the source's handle and nulls the
      source. A self-move ends with a null handle.
     */
    method MoveAssign(other: Instance) returns (released: seq<Release>)
      modifies this`instance, other`instance
      ensures released == if old(instance) != Null then [DestroyInstance(old(instance))] else []
      ensures other != this ==> instance == old(other.instance) && other.instance == Null
      ensures other == this ==> instance == Null
      ensures debugMessenger == old(debugMessenger) && other.debugMessenger == old(other.debugMessenger)
    {
      released := [];
      if instance != Null {
        released := [DestroyInstance(instance)];
      }
      instance := other.instance;
      other.instance := Null;
    }

    /** Instance::InitDebugMessenger; `created` is what CreateDebugUtilsMessengerEXT yields. */
    method InitDebugMessenger(validationEnabled: bool, created: Option<Handle>) returns (outcome: Outcome<Error>)
      modifies this`debugMessenger
      ensures !validationEnabled ==> outcome == Pass && debugMessenger == old(debugMessenger)
      ensures validationEnabled && created.Some? ==> outcome == Pass && debugMessenger == created.value
      ensures validationEnabled && created.None? ==>
                outcome == Fail(DebugMessengerCreationFailed) && debugMessenger == old(debugMessenger)
    {
      if !validationEnabled {
        return Pass;
      }
      if created.None? {
        return Fail(DebugMessengerCreationFailed);
      }
      debugMessenger := created.value;
      return Pass;
    }

    /** Instance::DeinitDebugMessenger */
    method DeinitDebugMessenger() returns (released: seq<Release>)
      modifies this`debugMessenger
      ensures released == if old(debugMessenger) != Null then [DestroyDebugMessenger(instance, old(debugMessenger))] else []
      ensures debugMessenger == Null
    {
      released := [];
      if debugMessenger != Null {
        released := [DestroyDebugMessenger(instance, debugMessenger)];
        debugMessenger := Null;
      }
    }

    /** Instance::~Instance: releases anything only when it still holds a VkInstance. */
    method Destroy() returns (released: seq<Release>)
      modifies this`debugMessenger
      ensures old(instance) == Null ==> released == [] && debugMessenger == old(debugMessenger)
      ensures old(instance) != Null ==>
                && released == (if old(debugMessenger) != Null then [DestroyDebugMessenger(instance, old(debugMessenger))] else [])
                                + [DestroyInstance(instance)]
                && debugMessenger == Null
    {
      released := [];
      if instance != Null {
        released := DeinitDebugMessenger();
        released := released + [DestroyInstance(instance)];
      }
    }

    /**
      Instance::Create. `created` is what vkCreateInstance yields (None for a
      result other than VK_SUCCESS), `messengerCreated` what
      CreateDebugUtilsMessengerEXT yields.
     */
    static method Create(env: InstanceEnvironment, validationEnabled: bool, created: Option<Handle>, messengerCreated: Option<Handle>)
      returns (r: Result<Instance, Error>)
      ensures !env.vulkanSupported ==> r == Failure(VulkanUnsupported)
      ensures env.vulkanSupported && validationEnabled && !ValidationLayersAvailable(env.availableLayers) ==>
                r == Failure(ValidationLayersUnsupported)
      ensures env.vulkanSupported && (!validationEnabled || ValidationLayersAvailable(env.availableLayers)) ==>
                if created.None? then r == Failure(InstanceCreationFailed)
                else if validationEnabled && messengerCreated.None? then r == Failure(DebugMessengerCreationFailed)
                else
                  && r.Success? && fresh(r.value)
                  && r.value.instance == created.value
                  && r.value.debugMessenger == (if validationEnabled then messengerCreated.value else Null)
    {
      var createInfo := InstanceCreateInfoFor(env, validationEnabled);
      if createInfo.Failure? {
        return Failure(createInfo.error);
      }
      var instance := new Instance();
      if created.None? {
        return Failure(InstanceCreationFailed);
      }
      instance.instance := created.value;
      var initialized := instance.InitDebugMessenger(validationEnabled, messengerCreated);
      if initialized.Fail? {
        return Failure(initialized.error);
      }
      return Success(instance);
    }
  }

  /**
    Because the move constructor leaves the messenger behind, moving an
    Instance that owns a debug messenger and then destroying both objects
    destroys the VkInstance once and the messenger never.
   */
  method MoveThenDestroyLeaksMessenger(source: Instance) returns (released: seq<Release>)
    requires source.instance != Null && source.debugMessenger != Null
    modifies source
    ensures released == [DestroyInstance(old(source.instance))]
  {
    var target := new Instance.MoveFrom(source);
    var fromTarget := target.Destroy();
    var fromSource := source.Destroy();
    released := fromTarget + fromSource;
  }
}
