/**
 * The Vulkan back end's choices and bookkeeping
 * (neo/renderer/Vulkan/RenderBackend_VK.cpp): device-extension checks,
 * physical-device and queue-family selection, the surface format, present
 * mode, extent, sample count and depth format, the frame-slot rotation of
 * BlockingSwapBuffers, and the state-bit cache kept by GL_State and
 * GL_DepthBoundsTest.  Everything the driver reports is an input.
 */
module RenderBackendVK {
  import opened Bits
  import opened GLState
  import RenderSystem
  import ImageVK

  // ---------------------------------------------------------------------
  // Device extensions
  // ---------------------------------------------------------------------

  /** Some device extension matches name, ignoring case. */
  predicate HasExtension(available: seq<string>, name: string)
  {
    exists j :: 0 <= j < |available| && RenderSystem.EqualsNoCase(name, available[j])
  }

  /** Every required extension is offered by the device. */
  predicate AllExtensions(available: seq<string>, required: seq<string>)
  {
    forall i :: 0 <= i < |required| ==> HasExtension(available, required[i])
  }

  /**
   * CheckPhysicalDeviceExtensionSupport: counts the required names that some
   * device extension matches and compares the count with the number required.
   */
  method CheckPhysicalDeviceExtensionSupport(available: seq<string>, required: seq<string>) returns (ok: bool)
    ensures ok <==> AllExtensions(available, required)
  {
    var count := 0;
    for i := 0 to |required|
      invariant count <= i
      invariant count == i <==> forall k :: 0 <= k < i ==> HasExtension(available, required[k])
    {
      var found := false;
      for j := 0 to |available|
        invariant found <==> exists m :: 0 <= m < j && RenderSystem.EqualsNoCase(required[i], available[m])
      {
        if RenderSystem.EqualsNoCase(required[i], available[j]) {
          found := true;
          break;
        }
      }
      if found {
        count := count + 1;
      }
    }
    ok := count == |required|;
  }

  // ---------------------------------------------------------------------
  // Physical device selection
  // ---------------------------------------------------------------------

  /**
   * A queue family as the driver reports it: its queue count, whether it has
   * the graphics bit, and whether it can present to the window's surface.
   */
  datatype QueueFamily = QueueFamily(queueCount: nat, graphics: bool, supportsPresent: bool)

  /** What the renderer gathers about one GPU before choosing. */
  datatype GPUInfo = GPUInfo(
    extensions: seq<string>,
    surfaceFormats: seq<SurfaceFormat>,
    presentModes: seq<PresentMode>,
    queueFamilies: seq<QueueFamily>)

  predicate IsGraphicsFamily(f: QueueFamily) { f.queueCount > 0 && f.graphics }

  predicate IsPresentFamily(f: QueueFamily) { f.queueCount > 0 && f.supportsPresent }

  /** The index of the first family satisfying the graphics (or present) test, or -1. */
  method FindFamily(families: seq<QueueFamily>, graphics: bool) returns (idx: int)
    ensures -1 <= idx < |families|
    ensures idx == -1 <==> forall j :: 0 <= j < |families| ==> !FamilyFits(families[j], graphics)
    ensures idx >= 0 ==> FamilyFits(families[idx], graphics)
    ensures idx >= 0 ==> forall j :: 0 <= j < idx ==> !FamilyFits(families[j], graphics)
  {
    idx := -1;
    for j := 0 to |families|
      invariant forall m :: 0 <= m < j ==> !FamilyFits(families[m], graphics)
    {
      if families[j].queueCount == 0 {
        continue;
      }
      if (if graphics then families[j].graphics else families[j].supportsPresent) {
        idx := j;
        return;
      }
    }
  }

  predicate FamilyFits(f: QueueFamily, graphics: bool)
  {
    if graphics then IsGraphicsFamily(f) else IsPresentFamily(f)
  }

  /** A GPU the renderer can use. */
  predicate Suitable(gpu: GPUInfo, required: seq<string>)
  {
    AllExtensions(gpu.extensions, required) && |gpu.surfaceFormats| > 0 && |gpu.presentModes| > 0 &&
    (exists j :: 0 <= j < |gpu.queueFamilies| && IsGraphicsFamily(gpu.queueFamilies[j])) &&
    (exists j :: 0 <= j < |gpu.queueFamilies| && IsPresentFamily(gpu.queueFamilies[j]))
  }

  /** The first family index passing a test, for a list where one does. */
  function FirstFamily(families: seq<QueueFamily>, graphics: bool): (r: nat)
    requires exists j :: 0 <= j < |families| && FamilyFits(families[j], graphics)
    ensures r < |families| && FamilyFits(families[r], graphics)
    ensures forall j :: 0 <= j < r ==> !FamilyFits(families[j], graphics)
  {
    if FamilyFits(families[0], graphics) then 0
    else
      assert exists j :: 0 <= j < |families[1..]| && FamilyFits(families[1..][j], graphics) by {
        var j :| 0 <= j < |families| && FamilyFits(families[j], graphics);
        assert families[1..][j - 1] == families[j];
      }
      1 + FirstFamily(families[1..], graphics)
  }

  // ---------------------------------------------------------------------
  // Surface format, present mode, extent
  // ---------------------------------------------------------------------

  /** Vulkan's numbering of the format and colour-space codes used here. */
  const VK_FORMAT_UNDEFINED_CODE: nat := 0
  const VK_FORMAT_B8G8R8A8_UNORM: nat := 44
  const VK_COLOR_SPACE_SRGB_NONLINEAR_KHR: nat := 0

  datatype SurfaceFormat = SurfaceFormat(format: nat, colorSpace: nat)

  const PREFERRED_SURFACE_FORMAT := SurfaceFormat(VK_FORMAT_B8G8R8A8_UNORM, VK_COLOR_SPACE_SRGB_NONLINEAR_KHR)

  /**
   * ChooseSurfaceFormat: the preferred BGRA/sRGB pair when the surface leaves
   * the choice open (one UNDEFINED entry) or offers it; else the first format.
   */
  method ChooseSurfaceFormat(formats: seq<SurfaceFormat>) returns (r: SurfaceFormat)
    requires |formats| > 0
    ensures |formats| == 1 && formats[0].format == VK_FORMAT_UNDEFINED_CODE ==> r == PREFERRED_SURFACE_FORMAT
    ensures PREFERRED_SURFACE_FORMAT in formats ==> r == PREFERRED_SURFACE_FORMAT
    ensures !(|formats| == 1 && formats[0].format == VK_FORMAT_UNDEFINED_CODE) && PREFERRED_SURFACE_FORMAT !in formats ==>
      r == formats[0]
  {
    if |formats| == 1 && formats[0].format == VK_FORMAT_UNDEFINED_CODE {
      return PREFERRED_SURFACE_FORMAT;
    }
    for i := 0 to |formats|
      invariant PREFERRED_SURFACE_FORMAT !in formats[..i]
    {
      if formats[i].format == VK_FORMAT_B8G8R8A8_UNORM && formats[i].colorSpace == VK_COLOR_SPACE_SRGB_NONLINEAR_KHR {
        return formats[i];
      }
      assert formats[..i + 1] == formats[..i] + [formats[i]];
    }
    assert formats[..|formats|] == formats;
    r := formats[0];
  }

  datatype PresentMode = PRESENT_MODE_IMMEDIATE | PRESENT_MODE_MAILBOX | PRESENT_MODE_FIFO | PRESENT_MODE_FIFO_RELAXED

  predicate Unsynced(m: PresentMode) { m == PRESENT_MODE_MAILBOX || m == PRESENT_MODE_IMMEDIATE }

  /**
   * ChoosePresentMode: with a swap interval below 1, the first of MAILBOX or
   * IMMEDIATE in the surface's list; otherwise, or when neither is offered,
   * FIFO, which every surface supports.
   */
  method ChoosePresentMode(modes: seq<PresentMode>, swapInterval: int) returns (r: PresentMode)
    ensures swapInterval < 1 && (exists i :: 0 <= i < |modes| && Unsynced(modes[i])) ==>
      exists i :: 0 <= i < |modes| && r == modes[i] && Unsynced(r) && forall j :: 0 <= j < i ==> !Unsynced(modes[j])
    ensures !(swapInterval < 1 && exists i :: 0 <= i < |modes| && Unsynced(modes[i])) ==> r == PRESENT_MODE_FIFO
  {
    if swapInterval < 1 {
      for i := 0 to |modes|
        invariant forall j :: 0 <= j < i ==> !Unsynced(modes[j])
      {
        if modes[i] == PRESENT_MODE_MAILBOX {
          return PRESENT_MODE_MAILBOX;
        }
        if modes[i] != PRESENT_MODE_MAILBOX && modes[i] == PRESENT_MODE_IMMEDIATE {
          return PRESENT_MODE_IMMEDIATE;
        }
      }
    }
    for i := 0 to |modes| {
      if modes[i] == PRESENT_MODE_FIFO {
        return PRESENT_MODE_FIFO;
      }
    }
    r := PRESENT_MODE_FIFO;
  }

  datatype Extent = Extent(width: nat, height: nat)

  /** The width a surface reports when the swap chain decides its own size: (uint32)-1. */
  const SPECIAL_EXTENT_WIDTH: nat := 0xFFFF_FFFF

  /** ChooseSurfaceExtent: the native screen size when the surface leaves it open, else the surface's size. */
  function ChooseSurfaceExtent(current: Extent, nativeWidth: nat, nativeHeight: nat): (r: Extent)
    ensures current.width != SPECIAL_EXTENT_WIDTH ==> r == current
    ensures current.width == SPECIAL_EXTENT_WIDTH ==> r.width == nativeWidth && r.height == nativeHeight
  {
    if current.width == SPECIAL_EXTENT_WIDTH then Extent(nativeWidth, nativeHeight) else current
  }

  // ---------------------------------------------------------------------
  // Sample count and depth format
  // ---------------------------------------------------------------------

  /** A multisample count c (16, 8, 4 or 2) is wanted and its VK_SAMPLE_COUNT bit is supported. */
  predicate SampleCountFits(c: nat, samples: int, supported: bv32)
  {
    (c == 16 || c == 8 || c == 4 || c == 2) && samples >= c && SampleBitSet(supported, c)
  }

  /** The VK_SAMPLE_COUNT bit of count c, which is the value c itself, is set. */
  predicate SampleBitSet(supported: bv32, c: nat)
  {
    if c == 16 then supported & 16 != 0
    else if c == 8 then supported & 8 != 0
    else if c == 4 then supported & 4 != 0
    else c == 2 && supported & 2 != 0
  }

  /**
   * The sample-count choice in CreateRenderTargets: the largest of 16, 8, 4
   * and 2 that r_multiSamples allows and the format supports; when none
   * does, the previous count stays.
   */
  function ChooseSampleCount(samples: int, supported: bv32, previous: nat): (r: nat)
    ensures (exists c: nat :: SampleCountFits(c, samples, supported)) ==>
      SampleCountFits(r, samples, supported) && forall c: nat :: SampleCountFits(c, samples, supported) ==> c <= r
    ensures (forall c: nat :: !SampleCountFits(c, samples, supported)) ==> r == previous
  {
    if samples >= 16 && supported & 16 != 0 then
      assert forall c: nat :: SampleCountFits(c, samples, supported) ==> c <= 16;
      assert SampleCountFits(16, samples, supported);
      16
    else
      assert !SampleCountFits(16, samples, supported);
      if samples >= 8 && supported & 8 != 0 then
        assert forall c: nat :: SampleCountFits(c, samples, supported) ==> c <= 8;
        assert SampleCountFits(8, samples, supported);
        8
      else
        assert !SampleCountFits(8, samples, supported);
        if samples >= 4 && supported & 4 != 0 then
          assert forall c: nat :: SampleCountFits(c, samples, supported) ==> c <= 4;
          assert SampleCountFits(4, samples, supported);
          4
        else
          assert !SampleCountFits(4, samples, supported);
          if samples >= 2 && supported & 2 != 0 then
            assert forall c: nat :: SampleCountFits(c, samples, supported) ==> c <= 2;
            assert SampleCountFits(2, samples, supported);
            2
          else
            assert !SampleCountFits(2, samples, supported);
            previous
  }

  /** The depth-stencil formats CreateRenderTargets offers, in order of preference. */
  const DEPTH_FORMATS: seq<ImageVK.VkFormat> := [ImageVK.VK_FORMAT_D32_SFLOAT_S8_UINT, ImageVK.VK_FORMAT_D24_UNORM_S8_UINT]

  /** The count CreateRenderTargets passes along with DEPTH_FORMATS. */
  const DEPTH_FORMAT_COUNT_AS_WRITTEN: nat := 3

  /**
   * ChooseSupportedFormat's scan as written: it tries formats 0, 1, ... up to
   * the count it is given and stops at the first the device supports.  The
   * result is the number of entries it reads.  supported[i] stands for the
   * driver's answer about entry i.
   */
  function FormatsReadAsWritten(count: nat, supported: seq<bool>): (r: nat)
    requires |supported| >= count
    ensures r <= count
    ensures r < count ==> supported[r] && forall i :: 0 <= i < r ==> !supported[i]
    ensures r == count ==> forall i :: 0 <= i < count ==> !supported[i]
  {
    if count == 0 then 0
    else
      var p := FormatsReadAsWritten(count - 1, supported);
      if p < count - 1 then p
      else if supported[count - 1] then count - 1
      else count
  }

  /**
   * When the device supports neither depth format, the scan, told there are
   * three entries, reads a third one past the end of the two-entry array.
   */
  lemma DepthFormatScanOverruns(third: bool)
    ensures var supported := [false, false, third];
      FormatsReadAsWritten(DEPTH_FORMAT_COUNT_AS_WRITTEN, supported) > |DEPTH_FORMATS| - 1 &&
      |DEPTH_FORMATS| <= 2 < DEPTH_FORMAT_COUNT_AS_WRITTEN
  {
    var supported := [false, false, third];
    assert FormatsReadAsWritten(1, supported) == 1;
    assert FormatsReadAsWritten(2, supported) == 2;
  }

  /**
   * ChooseSupportedFormat, with the count taken from the list itself: the
   * first supported format, or None where the source raises a fatal error.
   */
  method ChooseSupportedFormat(formats: seq<ImageVK.VkFormat>, supported: seq<bool>) returns (r: Option<ImageVK.VkFormat>)
    requires |supported| == |formats|
    ensures r.None? <==> forall i :: 0 <= i < |formats| ==> !supported[i]
    ensures r.Some? ==> exists i :: 0 <= i < |formats| && supported[i] && r.value == formats[i] &&
                                   (forall j :: 0 <= j < i ==> !supported[j])
  {
    for i := 0 to |formats|
      invariant forall j :: 0 <= j < i ==> !supported[j]
    {
      if supported[i] {
        return Some(formats[i]);
      }
    }
    r := None;
  }

  // ---------------------------------------------------------------------
  // The back end's state
  // ---------------------------------------------------------------------

  /**
   * The device chosen by SelectSuitablePhysicalDevice together with its two
   * queue families.
   */
  datatype Selection = Selection(gpu: nat, graphicsFamily: nat, presentFamily: nat)

  /** The first suitable GPU, with the first graphics and the first present family. */
  predicate IsFirstSuitable(gpus: seq<GPUInfo>, required: seq<string>, s: Selection)
  {
    s.gpu < |gpus| && Suitable(gpus[s.gpu], required) &&
    (forall i :: 0 <= i < s.gpu ==> !Suitable(gpus[i], required)) &&
    s.graphicsFamily == FirstFamily(gpus[s.gpu].queueFamilies, true) &&
    s.presentFamily == FirstFamily(gpus[s.gpu].queueFamilies, false)
  }

  /** The GL_State cache: the new bits, the kept bits of the old cache, and the mirror bit for mirrored views. */
  function StateCache(old_: bv64, stateBits: bv64, mirror: bool): (r: bv64)
    ensures r & GLS_KEEP == (stateBits | old_) & GLS_KEEP
    ensures r & !(GLS_KEEP | GLS_MIRROR_VIEW) == stateBits & !(GLS_KEEP | GLS_MIRROR_VIEW)
    ensures mirror ==> r & GLS_MIRROR_VIEW != 0
  {
    var r := stateBits | (old_ & GLS_KEEP);
    if mirror then r | GLS_MIRROR_VIEW else r
  }

  /** Setting the same state twice leaves the cache as the first call did. */
  lemma StateCacheIdempotent(old_: bv64, stateBits: bv64, mirror: bool)
    ensures StateCache(StateCache(old_, stateBits, mirror), stateBits, mirror) == StateCache(old_, stateBits, mirror)
  {
  }

  /** The depth-bounds bit survives a later GL_State: it is one of the kept bits. */
  lemma DepthBoundsSurvivesState(bits: bv64, stateBits: bv64, mirror: bool)
    ensures StateCache(DepthBoundsCache(bits, true, false, false), stateBits, mirror) & GLS_DEPTH_TEST_MASK != 0
  {
  }

  class VulkanBackend {
    /** The chosen device and queue families, once selected. */
    var selection: Option<Selection>
    var sampleCount: nat
    var depthFormat: Option<ImageVK.VkFormat>
    /** m_counter and m_currentFrameData. */
    var counter: nat
    var currentFrameData: nat
    /** m_commandBufferRecorded, one flag per frame slot. */
    var commandBufferRecorded: seq<bool>
    /** Fence waits issued so far (each followed by a fence reset). */
    var fenceWaits: nat
    /** m_glStateBits, and whether the device has depth-bounds support. */
    var glStateBits: bv64
    var depthBoundsSupported: bool

    predicate Valid()
      reads this
    {
      |commandBufferRecorded| == NUM_FRAME_DATA && currentFrameData < NUM_FRAME_DATA
    }

    constructor (depthBounds: bool)
      ensures Valid() && fresh(this)
      ensures selection == None && sampleCount == 1 && depthFormat == None
      ensures counter == 0 && currentFrameData == 0 && fenceWaits == 0
      ensures commandBufferRecorded == seq(NUM_FRAME_DATA, _ => false)
      ensures glStateBits == 0 && depthBoundsSupported == depthBounds
    {
      selection := None;
      sampleCount := 1;
      depthFormat := None;
      counter := 0;
      currentFrameData := 0;
      commandBufferRecorded := seq(NUM_FRAME_DATA, _ => false);
      fenceWaits := 0;
      glStateBits := 0;
      depthBoundsSupported := depthBounds;
    }

    /**
     * SelectSuitablePhysicalDevice: the first GPU with the required
     * extensions, some surface format and present mode, and a graphics and a
     * present family.  ok is false where the source raises a fatal error.
     */
    method SelectSuitablePhysicalDevice(gpus: seq<GPUInfo>, required: seq<string>) returns (ok: bool)
      modifies this
      ensures ok <==> exists i :: 0 <= i < |gpus| && Suitable(gpus[i], required)
      ensures ok ==> selection.Some? && IsFirstSuitable(gpus, required, selection.value)
      ensures !ok ==> selection == old(selection)
      ensures sampleCount == old(sampleCount) && depthFormat == old(depthFormat)
      ensures counter == old(counter) && currentFrameData == old(currentFrameData)
      ensures commandBufferRecorded == old(commandBufferRecorded) && fenceWaits == old(fenceWaits)
      ensures glStateBits == old(glStateBits) && depthBoundsSupported == old(depthBoundsSupported)
    {
      for i := 0 to |gpus|
        invariant forall k :: 0 <= k < i ==> !Suitable(gpus[k], required)
        invariant unchanged(this)
      {
        var gpu := gpus[i];
        var hasExt := CheckPhysicalDeviceExtensionSupport(gpu.extensions, required);
        if !hasExt || |gpu.surfaceFormats| == 0 || |gpu.presentModes| == 0 {
          continue;
        }
        var graphicsIdx := FindFamily(gpu.queueFamilies, true);
        var presentIdx := FindFamily(gpu.queueFamilies, false);
        if graphicsIdx >= 0 && presentIdx >= 0 {
          assert IsGraphicsFamily(gpu.queueFamilies[graphicsIdx]);
          assert IsPresentFamily(gpu.queueFamilies[presentIdx]);
          assert Suitable(gpus[i], required);
          FirstFamilyIs(gpu.queueFamilies, true, graphicsIdx);
          FirstFamilyIs(gpu.queueFamilies, false, presentIdx);
          selection := Some(Selection(i, graphicsIdx, presentIdx));
          return true;
        }
        assert !Suitable(gpu, required) by {
          if graphicsIdx < 0 {
            assert forall j :: 0 <= j < |gpu.queueFamilies| ==> !FamilyFits(gpu.queueFamilies[j], true);
          } else {
            assert forall j :: 0 <= j < |gpu.queueFamilies| ==> !FamilyFits(gpu.queueFamilies[j], false);
          }
        }
      }
      ok := false;
    }

    /**
     * The sample-count and depth-format choices of CreateRenderTargets, the
     * depth scan bounded by the list's own length.  ok is false where the
     * source raises a fatal error for a device with no depth format.
     */
    method ChooseRenderTargetFormats(samples: int, supportedCounts: bv32, depthSupported: seq<bool>) returns (ok: bool)
      requires |depthSupported| == |DEPTH_FORMATS|
      modifies this
      ensures sampleCount == ChooseSampleCount(samples, supportedCounts, old(sampleCount))
      ensures ok <==> depthSupported[0] || depthSupported[1]
      ensures depthFormat == if depthSupported[0] then Some(ImageVK.VK_FORMAT_D32_SFLOAT_S8_UINT)
        else if depthSupported[1] then Some(ImageVK.VK_FORMAT_D24_UNORM_S8_UINT) else None
      ensures selection == old(selection) && counter == old(counter) && currentFrameData == old(currentFrameData)
      ensures commandBufferRecorded == old(commandBufferRecorded) && fenceWaits == old(fenceWaits)
      ensures glStateBits == old(glStateBits) && depthBoundsSupported == old(depthBoundsSupported)
    {
      sampleCount := ChooseSampleCount(samples, supportedCounts, sampleCount);
      depthFormat := ChooseSupportedFormat(DEPTH_FORMATS, depthSupported);
      ok := depthFormat.Some?;
    }

    /**
     * BlockingSwapBuffers: moves to the next frame slot and, only when that
     * slot's command buffer was recorded, waits on its fence, resets it and
     * clears the recorded flag.
     */
    method BlockingSwapBuffers() returns (waited: bool)
      requires Valid()
      modifies this
      ensures Valid()
      ensures counter == old(counter) + 1 && currentFrameData == counter % NUM_FRAME_DATA
      ensures waited == old(commandBufferRecorded)[currentFrameData]
      ensures commandBufferRecorded == old(commandBufferRecorded)[currentFrameData := false]
      ensures !commandBufferRecorded[currentFrameData]
      ensures fenceWaits == old(fenceWaits) + (if waited then 1 else 0)
      ensures selection == old(selection) && sampleCount == old(sampleCount) && depthFormat == old(depthFormat)
      ensures glStateBits == old(glStateBits) && depthBoundsSupported == old(depthBoundsSupported)
    {
      counter := counter + 1;
      currentFrameData := counter % NUM_FRAME_DATA;
      if !commandBufferRecorded[currentFrameData] {
        waited := false;
        return;
      }
      fenceWaits := fenceWaits + 1;
      commandBufferRecorded := commandBufferRecorded[currentFrameData := false];
      waited := true;
    }

    /** GL_State: records the new state; the Vulkan pipelines read it when drawing. */
    method GL_State(stateBits: bv64, mirror: bool)
      modifies this
      ensures glStateBits == StateCache(old(glStateBits), stateBits, mirror)
      ensures selection == old(selection) && sampleCount == old(sampleCount) && depthFormat == old(depthFormat)
      ensures counter == old(counter) && currentFrameData == old(currentFrameData)
      ensures commandBufferRecorded == old(commandBufferRecorded) && fenceWaits == old(fenceWaits)
      ensures depthBoundsSupported == old(depthBoundsSupported)
    {
      glStateBits := StateCache(glStateBits, stateBits, mirror);
    }

    /** GL_DepthBoundsTest: sets or clears the depth-bounds bit of the cache. */
    method GL_DepthBoundsTest(zmin: real, zmax: real)
      modifies this
      ensures glStateBits == DepthBoundsCache(old(glStateBits), depthBoundsSupported, zmin > zmax, zmin == 0.0 && zmax == 0.0)
      ensures selection == old(selection) && sampleCount == old(sampleCount) && depthFormat == old(depthFormat)
      ensures counter == old(counter) && currentFrameData == old(currentFrameData)
      ensures commandBufferRecorded == old(commandBufferRecorded) && fenceWaits == old(fenceWaits)
      ensures depthBoundsSupported == old(depthBoundsSupported)
    {
      glStateBits := DepthBoundsCache(glStateBits, depthBoundsSupported, zmin > zmax, zmin == 0.0 && zmax == 0.0);
    }
  }

  /** FindFamily's index is the first family passing the test. */
  lemma FirstFamilyIs(families: seq<QueueFamily>, graphics: bool, idx: int)
    requires 0 <= idx < |families| && FamilyFits(families[idx], graphics)
    requires forall j :: 0 <= j < idx ==> !FamilyFits(families[j], graphics)
    ensures FirstFamily(families, graphics) == idx
  {
  }
}
