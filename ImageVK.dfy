/**
 * The Vulkan side of images: the Vulkan format and component swizzle of
 * each texture format, the sampler and image create-infos, the upload
 * staging (size and RGB565 byte order), and the per-frame garbage ring
 * that holds purged Vulkan objects until the GPU can no longer use them.
 * Vulkan objects are numbers, 0 standing for VK_NULL_HANDLE; the driver
 * calls that create them become parameters that supply the new handles.
 */
module ImageVK {
  import opened Bits
  import opened ImageLoad

  // ---------------------------------------------------------------------
  // Formats and component mappings
  // ---------------------------------------------------------------------

  datatype VkFormat =
    | VK_FORMAT_UNDEFINED
    | VK_FORMAT_R8G8B8A8_UNORM
    | VK_FORMAT_R8G8B8_UNORM
    | VK_FORMAT_R8_UNORM
    | VK_FORMAT_R8G8_UNORM
    | VK_FORMAT_BC1_RGB_UNORM_BLOCK
    | VK_FORMAT_BC3_UNORM_BLOCK
    | VK_FORMAT_R16_UNORM
    | VK_FORMAT_R16G16_UNORM
    | VK_FORMAT_R5G6B5_UNORM_PACK16
    /** One of the depth-stencil formats the device is set up with. */
    | VK_FORMAT_D32_SFLOAT_S8_UINT
    | VK_FORMAT_D24_UNORM_S8_UINT

  /**
   * Bits per texel of the colour formats, as the Vulkan specification lays
   * them out (a BC1 block holds 16 texels in 8 bytes, a BC3 block in 16).
   */
  function VkTexelBits(f: VkFormat): nat {
    match f
    case VK_FORMAT_R8G8B8A8_UNORM => 32
    case VK_FORMAT_R8G8B8_UNORM => 24
    case VK_FORMAT_R8_UNORM => 8
    case VK_FORMAT_R8G8_UNORM => 16
    case VK_FORMAT_BC1_RGB_UNORM_BLOCK => 4
    case VK_FORMAT_BC3_UNORM_BLOCK => 8
    case VK_FORMAT_R16_UNORM => 16
    case VK_FORMAT_R16G16_UNORM => 32
    case VK_FORMAT_R5G6B5_UNORM_PACK16 => 16
    case _ => 0
  }

  /** The number of colour channels each colour format stores. */
  function ChannelCount(f: VkFormat): nat {
    match f
    case VK_FORMAT_R8G8B8A8_UNORM => 4
    case VK_FORMAT_R8G8B8_UNORM => 3
    case VK_FORMAT_R8_UNORM => 1
    case VK_FORMAT_R8G8_UNORM => 2
    case VK_FORMAT_BC1_RGB_UNORM_BLOCK => 3
    case VK_FORMAT_BC3_UNORM_BLOCK => 4
    case VK_FORMAT_R16_UNORM => 1
    case VK_FORMAT_R16G16_UNORM => 2
    case VK_FORMAT_R5G6B5_UNORM_PACK16 => 3
    case _ => 0
  }

  /**
   * VK_GetFormatFromTextureFormat as written: FMT_XRGB8 becomes the
   * three-byte VK_FORMAT_R8G8B8_UNORM.
   */
  function FormatFromTextureFormatAsWritten(format: TextureFormat, depthFormat: VkFormat): (r: VkFormat)
    ensures format != FMT_XRGB8 ==> r == FormatFromTextureFormat(format, depthFormat)
    ensures format == FMT_XRGB8 ==> r == VK_FORMAT_R8G8B8_UNORM
  {
    if format == FMT_XRGB8 then VK_FORMAT_R8G8B8_UNORM else FormatFromTextureFormat(format, depthFormat)
  }

  /**
   * The texels staged for an FMT_XRGB8 image are 32 bits wide
   * (BitsForFormat), but the format as written reads 24-bit texels, so
   * every texel after the first is read from the wrong bytes.
   */
  lemma XRGB8StagingMismatch(depthFormat: VkFormat)
    ensures VkTexelBits(FormatFromTextureFormatAsWritten(FMT_XRGB8, depthFormat)) == 24
    ensures BitsForFormat(FMT_XRGB8) == 32
  {
  }

  /**
   * The Vulkan format an image of each texture format is created with:
   * FMT_DEPTH takes the device's depth format, FMT_NONE has none, and
   * FMT_XRGB8 is stored as four bytes per texel like FMT_RGBA8.
   */
  function FormatFromTextureFormat(format: TextureFormat, depthFormat: VkFormat): (r: VkFormat)
    ensures format == FMT_NONE ==> r == VK_FORMAT_UNDEFINED
    ensures format == FMT_DEPTH ==> r == depthFormat
    ensures format != FMT_NONE && format != FMT_DEPTH ==> r != VK_FORMAT_UNDEFINED
  {
    match format
    case FMT_RGBA8 => VK_FORMAT_R8G8B8A8_UNORM
    case FMT_XRGB8 => VK_FORMAT_R8G8B8A8_UNORM
    case FMT_ALPHA => VK_FORMAT_R8_UNORM
    case FMT_L8A8 => VK_FORMAT_R8G8_UNORM
    case FMT_LUM8 => VK_FORMAT_R8_UNORM
    case FMT_INT8 => VK_FORMAT_R8_UNORM
    case FMT_DXT1 => VK_FORMAT_BC1_RGB_UNORM_BLOCK
    case FMT_DXT5 => VK_FORMAT_BC3_UNORM_BLOCK
    case FMT_DEPTH => depthFormat
    case FMT_X16 => VK_FORMAT_R16_UNORM
    case FMT_Y16_X16 => VK_FORMAT_R16G16_UNORM
    case FMT_RGB565 => VK_FORMAT_R5G6B5_UNORM_PACK16
    case FMT_NONE => VK_FORMAT_UNDEFINED
  }

  /** Every colour format is created with texels exactly as wide as the staged ones. */
  lemma FormatBitsAgree(format: TextureFormat, depthFormat: VkFormat)
    requires format != FMT_NONE && format != FMT_DEPTH
    ensures VkTexelBits(FormatFromTextureFormat(format, depthFormat)) == BitsForFormat(format)
  {
  }

  datatype Swizzle = SWIZZLE_ZERO | SWIZZLE_ONE | SWIZZLE_R | SWIZZLE_G | SWIZZLE_B | SWIZZLE_A
  datatype ComponentMapping = ComponentMapping(r: Swizzle, g: Swizzle, b: Swizzle, a: Swizzle)

  /** The channel a swizzle reads, if it reads one (R is 0 … A is 3). */
  function ChannelOf(s: Swizzle): Option<nat> {
    match s
    case SWIZZLE_R => Some(0)
    case SWIZZLE_G => Some(1)
    case SWIZZLE_B => Some(2)
    case SWIZZLE_A => Some(3)
    case _ => None
  }

  /** A swizzle that reads nothing beyond the first n channels. */
  predicate WithinChannels(s: Swizzle, n: nat) {
    ChannelOf(s).None? || ChannelOf(s).value < n
  }

  /**
   * VK_GetComponentMappingFromTextureFormat: alpha-in-green colour data
   * reads as white with green for alpha whatever the format; luminance
   * replicates red; alpha-only puts red in alpha; intensity replicates
   * red into all four; everything else is the identity.
   */
  function ComponentMappingFor(format: TextureFormat, color: TextureColor): (m: ComponentMapping)
    ensures color == CFM_GREEN_ALPHA ==> m == ComponentMapping(SWIZZLE_ONE, SWIZZLE_ONE, SWIZZLE_ONE, SWIZZLE_G)
    ensures m.r != SWIZZLE_ZERO && m.g != SWIZZLE_ZERO && m.b != SWIZZLE_ZERO && m.a != SWIZZLE_ZERO
    ensures color != CFM_GREEN_ALPHA && format !in {FMT_LUM8, FMT_L8A8, FMT_ALPHA, FMT_INT8} ==>
              m == ComponentMapping(SWIZZLE_R, SWIZZLE_G, SWIZZLE_B, SWIZZLE_A)
  {
    if color == CFM_GREEN_ALPHA then ComponentMapping(SWIZZLE_ONE, SWIZZLE_ONE, SWIZZLE_ONE, SWIZZLE_G)
    else match format
      case FMT_LUM8 => ComponentMapping(SWIZZLE_R, SWIZZLE_R, SWIZZLE_R, SWIZZLE_ONE)
      case FMT_L8A8 => ComponentMapping(SWIZZLE_R, SWIZZLE_R, SWIZZLE_R, SWIZZLE_G)
      case FMT_ALPHA => ComponentMapping(SWIZZLE_ONE, SWIZZLE_ONE, SWIZZLE_ONE, SWIZZLE_R)
      case FMT_INT8 => ComponentMapping(SWIZZLE_R, SWIZZLE_R, SWIZZLE_R, SWIZZLE_R)
      case _ => ComponentMapping(SWIZZLE_R, SWIZZLE_G, SWIZZLE_B, SWIZZLE_A)
  }

  /**
   * The one- and two-channel formats are swizzled so that no component
   * reads a channel their Vulkan format does not store.
   */
  lemma SwizzleWithinChannels(format: TextureFormat, color: TextureColor, depthFormat: VkFormat)
    requires format in {FMT_LUM8, FMT_L8A8, FMT_ALPHA, FMT_INT8}
    requires color != CFM_GREEN_ALPHA || format == FMT_L8A8
    ensures var m := ComponentMappingFor(format, color);
            var n := ChannelCount(FormatFromTextureFormat(format, depthFormat));
            WithinChannels(m.r, n) && WithinChannels(m.g, n) && WithinChannels(m.b, n) && WithinChannels(m.a, n)
  {
  }

  // ---------------------------------------------------------------------
  // Sampler
  // ---------------------------------------------------------------------

  datatype VkFilter = VK_FILTER_LINEAR | VK_FILTER_NEAREST
  datatype CompareOp = VK_COMPARE_OP_NEVER | VK_COMPARE_OP_LESS_OR_EQUAL
  datatype AddressMode = VK_SAMPLER_ADDRESS_MODE_REPEAT | VK_SAMPLER_ADDRESS_MODE_CLAMP_TO_EDGE | VK_SAMPLER_ADDRESS_MODE_CLAMP_TO_BORDER
  /** The zero-initialised border colour is transparent black. */
  datatype BorderColor = VK_BORDER_COLOR_FLOAT_TRANSPARENT_BLACK | VK_BORDER_COLOR_FLOAT_OPAQUE_BLACK

  /** The parts of VkSamplerCreateInfo CreateSampler decides (min and mag filters are equal, as are the U, V, W modes). */
  datatype SamplerInfo = SamplerInfo(
    compareEnable: bool,
    compareOp: CompareOp,
    filter: VkFilter,
    mipmapLinear: bool,
    addressMode: AddressMode,
    borderColor: BorderColor)

  datatype SamplerResult =
    | Sampler(info: SamplerInfo)
    /** FatalError: the filter is not one CreateSampler knows. */
    | FatalFilter(filterCode: int)
    /** FatalError: the repeat mode is not one CreateSampler knows. */
    | FatalRepeat(repeatCode: int)

  /**
   * CreateSampler: depth images compare (less-or-equal), all others never;
   * default and linear filtering are linear; an unknown filter, and then
   * an unknown repeat mode, is a fatal error.
   */
  function SamplerCreateInfo(format: TextureFormat, filter: TextureFilter, repeat: TextureRepeat): (r: SamplerResult)
    ensures r.Sampler? <==> !filter.UnknownFilter? && !repeat.UnknownRepeat?
    ensures filter.UnknownFilter? ==> r == FatalFilter(filter.code)
    ensures !filter.UnknownFilter? && repeat.UnknownRepeat? ==> r == FatalRepeat(repeat.code)
    ensures r.Sampler? ==> (r.info.compareEnable <==> format == FMT_DEPTH)
    ensures r.Sampler? ==> (r.info.compareOp == VK_COMPARE_OP_LESS_OR_EQUAL <==> r.info.compareEnable)
    ensures r.Sampler? ==> (r.info.filter == VK_FILTER_NEAREST <==> filter == TF_NEAREST) && (r.info.mipmapLinear <==> filter != TF_NEAREST)
    ensures r.Sampler? ==> (r.info.addressMode == VK_SAMPLER_ADDRESS_MODE_CLAMP_TO_BORDER <==> repeat in {TR_CLAMP_TO_ZERO, TR_CLAMP_TO_ZERO_ALPHA})
    ensures r.Sampler? ==> (r.info.borderColor == VK_BORDER_COLOR_FLOAT_OPAQUE_BLACK <==> repeat == TR_CLAMP_TO_ZERO)
  {
    var depth := format == FMT_DEPTH;
    var compareOp := if depth then VK_COMPARE_OP_LESS_OR_EQUAL else VK_COMPARE_OP_NEVER;
    match filter
    case UnknownFilter(code) => FatalFilter(code)
    case _ =>
      var linear := filter != TF_NEAREST;
      var vkFilter := if linear then VK_FILTER_LINEAR else VK_FILTER_NEAREST;
      match repeat
      case UnknownRepeat(code) => FatalRepeat(code)
      case TR_REPEAT => Sampler(SamplerInfo(depth, compareOp, vkFilter, linear, VK_SAMPLER_ADDRESS_MODE_REPEAT, VK_BORDER_COLOR_FLOAT_TRANSPARENT_BLACK))
      case TR_CLAMP => Sampler(SamplerInfo(depth, compareOp, vkFilter, linear, VK_SAMPLER_ADDRESS_MODE_CLAMP_TO_EDGE, VK_BORDER_COLOR_FLOAT_TRANSPARENT_BLACK))
      case TR_CLAMP_TO_ZERO_ALPHA => Sampler(SamplerInfo(depth, compareOp, vkFilter, linear, VK_SAMPLER_ADDRESS_MODE_CLAMP_TO_BORDER, VK_BORDER_COLOR_FLOAT_TRANSPARENT_BLACK))
      case TR_CLAMP_TO_ZERO => Sampler(SamplerInfo(depth, compareOp, vkFilter, linear, VK_SAMPLER_ADDRESS_MODE_CLAMP_TO_BORDER, VK_BORDER_COLOR_FLOAT_OPAQUE_BLACK))
  }

  // ---------------------------------------------------------------------
  // Image and view create-infos
  // ---------------------------------------------------------------------

  datatype ImageUsage = USAGE_SAMPLED | USAGE_DEPTH_STENCIL_ATTACHMENT | USAGE_TRANSFER_DST
  datatype Aspect = ASPECT_COLOR | ASPECT_DEPTH | ASPECT_STENCIL
  datatype ViewType = VIEW_TYPE_2D | VIEW_TYPE_CUBE

  /** The parts of VkImageCreateInfo AllocImage decides (always a 2D, optimally tiled, one-deep image). */
  datatype ImageInfo = ImageInfo(
    cubeCompatible: bool,
    format: VkFormat,
    width: int,
    height: int,
    mipLevels: int,
    arrayLayers: nat,
    samples: nat,
    usage: set<ImageUsage>)

  /** The parts of VkImageViewCreateInfo AllocImage decides. */
  datatype ViewInfo = ViewInfo(
    viewType: ViewType,
    format: VkFormat,
    components: ComponentMapping,
    aspect: set<Aspect>,
    levelCount: int,
    layerCount: nat)

  /**
   * The image AllocImage creates: cube maps have six layers and are cube
   * compatible; depth images are depth-stencil attachments, all others
   * transfer destinations; every image can be sampled.
   */
  function ImageInfoFor(opts: ImageOpts, depthFormat: VkFormat): (r: ImageInfo)
    ensures r.arrayLayers == (if opts.textureType == TT_CUBIC then 6 else 1)
    ensures r.cubeCompatible <==> opts.textureType == TT_CUBIC
    ensures USAGE_SAMPLED in r.usage
    ensures USAGE_DEPTH_STENCIL_ATTACHMENT in r.usage <==> opts.format == FMT_DEPTH
    ensures USAGE_TRANSFER_DST in r.usage <==> opts.format != FMT_DEPTH
    ensures r.width == opts.width && r.height == opts.height && r.mipLevels == opts.numLevels && r.samples == opts.samples
  {
    var cube := opts.textureType == TT_CUBIC;
    ImageInfo(
      cube,
      FormatFromTextureFormat(opts.format, depthFormat),
      opts.width, opts.height, opts.numLevels,
      if cube then 6 else 1,
      opts.samples,
      {USAGE_SAMPLED} + if opts.format == FMT_DEPTH then {USAGE_DEPTH_STENCIL_ATTACHMENT} else {USAGE_TRANSFER_DST})
  }

  /** The view AllocImage creates over that image. */
  function ViewInfoFor(opts: ImageOpts, depthFormat: VkFormat): (r: ViewInfo)
    ensures r.viewType == VIEW_TYPE_CUBE <==> opts.textureType == TT_CUBIC
    ensures r.aspect == (if opts.format == FMT_DEPTH then {ASPECT_DEPTH, ASPECT_STENCIL} else {ASPECT_COLOR})
    ensures r.components == ComponentMappingFor(opts.format, opts.colorFormat)
  {
    var cube := opts.textureType == TT_CUBIC;
    ViewInfo(
      if cube then VIEW_TYPE_CUBE else VIEW_TYPE_2D,
      FormatFromTextureFormat(opts.format, depthFormat),
      ComponentMappingFor(opts.format, opts.colorFormat),
      if opts.format == FMT_DEPTH then {ASPECT_DEPTH, ASPECT_STENCIL} else {ASPECT_COLOR},
      opts.numLevels,
      if cube then 6 else 1)
  }

  /** The view covers the whole image: same format, every level and every layer. */
  lemma ViewCoversImage(opts: ImageOpts, depthFormat: VkFormat)
    ensures ViewInfoFor(opts, depthFormat).format == ImageInfoFor(opts, depthFormat).format
    ensures ViewInfoFor(opts, depthFormat).levelCount == ImageInfoFor(opts, depthFormat).mipLevels
    ensures ViewInfoFor(opts, depthFormat).layerCount == ImageInfoFor(opts, depthFormat).arrayLayers
  {
  }

  // ---------------------------------------------------------------------
  // Garbage ring
  // ---------------------------------------------------------------------

  /** The Vulkan objects queued for destruction in one frame slot. */
  datatype GarbageSlot = GarbageSlot(allocations: seq<nat>, images: seq<nat>, views: seq<nat>, samplers: seq<nat>)

  const EMPTY_SLOT: GarbageSlot := GarbageSlot([], [], [], [])

  /** The garbage ring: the current slot index and one slot per frame in flight. */
  datatype Ring = Ring(index: nat, slots: seq<GarbageSlot>)

  predicate ValidRing(r: Ring) {
    |r.slots| == NUM_FRAME_DATA && r.index < NUM_FRAME_DATA
  }

  /** The slot the next EmptyGarbage moves to, and frees. */
  function NextIndex(r: Ring): nat {
    (r.index + 1) % NUM_FRAME_DATA
  }

  /** PurgeImage on the ring: a live sampler, then a live image with its allocation and view, join the current slot. */
  function Purged(r: Ring, sampler: nat, image: nat, view: nat, allocation: nat): (r': Ring)
    requires ValidRing(r)
    ensures ValidRing(r') && r'.index == r.index
    ensures forall k :: 0 <= k < NUM_FRAME_DATA && k != r.index ==> r'.slots[k] == r.slots[k]
    ensures sampler == 0 && image == 0 ==> r' == r
    ensures var s, s' := r.slots[r.index], r'.slots[r.index];
            s'.samplers == s.samplers + (if sampler != 0 then [sampler] else []) &&
            s'.images == s.images + (if image != 0 then [image] else []) &&
            s'.views == s.views + (if image != 0 then [view] else []) &&
            s'.allocations == s.allocations + (if image != 0 then [allocation] else [])
  {
    var s := r.slots[r.index];
    var s1 := if sampler != 0 then s.(samplers := s.samplers + [sampler]) else s;
    var s2 := if image != 0 then s1.(allocations := s1.allocations + [allocation], views := s1.views + [view], images := s1.images + [image]) else s1;
    assert sampler == 0 && image == 0 ==> r.slots[r.index := s2] == r.slots;
    r.(slots := r.slots[r.index := s2])
  }

  /** EmptyGarbage on the ring: move to the next slot and empty it. */
  function Emptied(r: Ring): (r': Ring)
    requires ValidRing(r)
    ensures ValidRing(r') && r'.index == NextIndex(r)
    ensures r'.slots[r'.index] == EMPTY_SLOT
    ensures forall k :: 0 <= k < NUM_FRAME_DATA && k != r'.index ==> r'.slots[k] == r.slots[k]
  {
    Ring(NextIndex(r), r.slots[NextIndex(r) := EMPTY_SLOT])
  }

  /** The ring after n calls of EmptyGarbage. */
  function EmptiedTimes(r: Ring, n: nat): (r': Ring)
    requires ValidRing(r)
    ensures ValidRing(r')
  {
    if n == 0 then r else Emptied(EmptiedTimes(r, n - 1))
  }

  /**
   * After n < NUM_FRAME_DATA calls the ring is n slots further on and the
   * slot it started in has not been touched.
   */
  lemma {:induction false} EmptiedTimesKeepsSlot(r: Ring, n: nat)
    requires ValidRing(r) && n < NUM_FRAME_DATA
    ensures EmptiedTimes(r, n).index == (r.index + n) % NUM_FRAME_DATA
    ensures EmptiedTimes(r, n).slots[r.index] == r.slots[r.index]
  {
    if n > 0 {
      EmptiedTimesKeepsSlot(r, n - 1);
      var p := EmptiedTimes(r, n - 1);
      assert NextIndex(p) == (r.index + n) % NUM_FRAME_DATA;
      assert NextIndex(p) != r.index;
    }
  }

  /**
   * Whatever is queued in the current slot survives the next
   * NUM_FRAME_DATA - 1 calls of EmptyGarbage and is exactly what the
   * NUM_FRAME_DATA-th call frees.
   */
  lemma ReleasedAfterFullRing(r: Ring)
    requires ValidRing(r)
    ensures forall n :: 0 <= n < NUM_FRAME_DATA ==> EmptiedTimes(r, n).slots[r.index] == r.slots[r.index]
    ensures var p := EmptiedTimes(r, NUM_FRAME_DATA - 1);
            NextIndex(p) == r.index && p.slots[NextIndex(p)] == r.slots[r.index]
  {
    forall n | 0 <= n < NUM_FRAME_DATA
      ensures EmptiedTimes(r, n).slots[r.index] == r.slots[r.index]
    {
      EmptiedTimesKeepsSlot(r, n);
    }
    EmptiedTimesKeepsSlot(r, NUM_FRAME_DATA - 1);
  }

  /** idImage's static garbage lists and their slot index. */
  class GarbageRing {
    var index: nat
    var slots: seq<GarbageSlot>

    function State(): Ring
      reads this
    {
      Ring(index, slots)
    }

    /** All slots start empty, at slot 0. */
    constructor()
      ensures State() == Ring(0, seq(NUM_FRAME_DATA, _ => EMPTY_SLOT)) && ValidRing(State())
    {
      index := 0;
      slots := seq(NUM_FRAME_DATA, _ => EMPTY_SLOT);
    }

    /**
     * Advances to the next slot and destroys everything queued there; the
     * destroyed objects are returned for the driver calls that free them.
     */
    method EmptyGarbage() returns (freed: GarbageSlot)
      requires ValidRing(State())
      modifies this
      ensures State() == Emptied(old(State()))
      ensures freed == old(slots)[NextIndex(old(State()))]
    {
      index := (index + 1) % NUM_FRAME_DATA;
      freed := slots[index];
      slots := slots[index := EMPTY_SLOT];
    }
  }

  /**
   * PurgeImage: queues the image's live Vulkan objects in the current
   * garbage slot and forgets them; the image is no longer loaded, and
   * purging it again changes nothing.
   */
  method PurgeImage(img: Image, garbage: GarbageRing)
    requires ValidRing(garbage.State())
    modifies img, garbage
    ensures garbage.State() == Purged(old(garbage.State()), old(img.sampler), old(img.image), old(img.view), old(img.allocation))
    ensures !img.IsLoaded() && img.sampler == 0
    ensures img.view == (if old(img.image) != 0 then 0 else old(img.view))
    ensures img.allocation == (if old(img.image) != 0 then 0 else old(img.allocation))
    ensures img.opts == old(img.opts) && img.filter == old(img.filter) && img.repeat == old(img.repeat) && img.layout == old(img.layout)
  {
    var r := garbage.State();
    var s := r.slots[r.index];
    if img.sampler != 0 {
      s := s.(samplers := s.samplers + [img.sampler]);
      img.sampler := 0;
    }
    if img.image != 0 {
      s := s.(allocations := s.allocations + [img.allocation], views := s.views + [img.view], images := s.images + [img.image]);
      img.allocation := 0;
      img.view := 0;
      img.image := 0;
    }
    garbage.slots := garbage.slots[garbage.index := s];
  }

  /** The objects the driver hands back when AllocImage creates them. */
  datatype NewObjects = NewObjects(sampler: nat, image: nat, view: nat, allocation: nat)

  datatype AllocResult =
    | Allocated(sampler: SamplerInfo, image: ImageInfo, view: ViewInfo)
    /** CreateSampler's fatal error, after the old objects were purged. */
    | AllocFatal(error: SamplerResult)

  /**
   * AllocImage: purges the old objects, creates the sampler (which may
   * fail fatally), then the image, its memory and its view, and installs
   * the new objects.
   */
  method AllocImage(img: Image, garbage: GarbageRing, depthFormat: VkFormat, created: NewObjects) returns (r: AllocResult)
    requires ValidRing(garbage.State())
    requires created.sampler != 0 && created.image != 0 && created.view != 0
    modifies img, garbage
    ensures garbage.State() == Purged(old(garbage.State()), old(img.sampler), old(img.image), old(img.view), old(img.allocation))
    ensures img.opts == old(img.opts) && img.filter == old(img.filter) && img.repeat == old(img.repeat) && img.layout == old(img.layout)
    ensures r.Allocated? <==> SamplerCreateInfo(img.opts.format, img.filter, img.repeat).Sampler?
    ensures r.AllocFatal? ==> r.error == SamplerCreateInfo(img.opts.format, img.filter, img.repeat) && !img.IsLoaded() && img.sampler == 0
    ensures r.Allocated? ==>
              r.sampler == SamplerCreateInfo(img.opts.format, img.filter, img.repeat).info &&
              r.image == ImageInfoFor(img.opts, depthFormat) && r.view == ViewInfoFor(img.opts, depthFormat) &&
              img.IsLoaded() && img.sampler == created.sampler && img.image == created.image &&
              img.view == created.view && img.allocation == created.allocation
  {
    PurgeImage(img, garbage);
    var sampler := SamplerCreateInfo(img.opts.format, img.filter, img.repeat);
    if !sampler.Sampler? {
      return AllocFatal(sampler);
    }
    img.sampler := created.sampler;
    img.image := created.image;
    img.allocation := created.allocation;
    img.view := created.view;
    r := Allocated(sampler.info, ImageInfoFor(img.opts, depthFormat), ViewInfoFor(img.opts, depthFormat));
  }

  // ---------------------------------------------------------------------
  // SubImageUpload
  // ---------------------------------------------------------------------

  /** The extent SubImageUpload copies: compressed images round each side up to whole 4x4 blocks (`(x + 3) & ~3`). */
  function UploadExtent(format: TextureFormat, width: nat, height: nat): (e: (nat, nat))
    ensures IsCompressed(format) ==> e.0 % 4 == 0 && e.1 % 4 == 0 && width <= e.0 < width + 4 && height <= e.1 < height + 4
    ensures !IsCompressed(format) ==> e == (width, height)
  {
    if IsCompressed(format) then (AlignUp(width, 4), AlignUp(height, 4)) else (width, height)
  }

  /** The bytes staged for an upload: texels of the copied extent at the format's bits per texel. */
  function UploadSize(format: TextureFormat, width: nat, height: nat): (size: nat)
    ensures var e := UploadExtent(format, width, height);
            size * 8 == e.0 * e.1 * BitsForFormat(format)
  {
    var e := UploadExtent(format, width, height);
    var bits := BitsForFormat(format);
    if IsCompressed(format) && bits == 4 then
      assert e.0 * e.1 * 4 == (e.0 / 2) * e.1 * 8 by { DivModUnique(e.0, 2, e.0 / 2, 0); }
      e.0 * e.1 * bits / 8
    else
      assert bits % 8 == 0;
      assert e.0 * e.1 * bits == e.0 * e.1 * (bits / 8) * 8;
      e.0 * e.1 * bits / 8
  }

  /** The byte whose place another byte takes when neighbouring pairs are swapped. */
  function PairPartner(i: nat): nat {
    if i % 2 == 0 then i + 1 else i - 1
  }

  /** The bytes with each pair swapped (RGB565 texels staged in the other byte order). */
  function SwapPairs(s: seq<bv8>): (r: seq<bv8>)
    requires |s| % 2 == 0
    ensures |r| == |s|
    ensures forall i :: 0 <= i < |s| ==> PairPartner(i) < |s| && r[i] == s[PairPartner(i)]
  {
    seq(|s|, i requires 0 <= i < |s| => PairPartnerInRange(i, |s|); s[PairPartner(i)])
  }

  /** Within an even length, partners stay in range and pair back. */
  lemma PairPartnerInRange(i: nat, n: nat)
    requires n % 2 == 0 && i < n
    ensures PairPartner(i) < n && PairPartner(PairPartner(i)) == i
  {
  }

  /** Swapping twice restores the bytes. */
  lemma SwapPairsInvolution(s: seq<bv8>)
    requires |s| % 2 == 0
    ensures SwapPairs(SwapPairs(s)) == s
  {
    var once := SwapPairs(s);
    var twice := SwapPairs(once);
    forall i | 0 <= i < |s|
      ensures twice[i] == s[i]
    {
      PairPartnerInRange(i, |s|);
    }
  }

  /** The staging copy of RGB565 data: the first size bytes with each pair swapped. */
  method StageSwapped(pic: seq<bv8>, size: nat) returns (staged: seq<bv8>)
    requires size % 2 == 0 && size <= |pic|
    ensures staged == SwapPairs(pic[..size])
  {
    var data := new bv8[size];
    var i := 0;
    while i < size
      invariant 0 <= i <= size && i % 2 == 0
      invariant forall j :: 0 <= j < i ==> PairPartner(j) < size && data[j] == pic[PairPartner(j)]
    {
      assert PairPartner(i) == i + 1 && PairPartner(i + 1) == i;
      data[i] := pic[i + 1];
      data[i + 1] := pic[i];
      i := i + 2;
    }
    staged := data[..];
    var swapped := SwapPairs(pic[..size]);
    forall j | 0 <= j < size
      ensures staged[j] == swapped[j]
    {
      PairPartnerInRange(j, size);
    }
  }

  /** The parts of VkBufferImageCopy SubImageUpload fills in. */
  datatype CopyRegion = CopyRegion(mipLevel: nat, layer: int, x: nat, y: nat, width: nat, height: nat, rowLength: int)

  /**
   * SubImageUpload: stages the texels of a width by height region
   * (rounded up to blocks for compressed formats), with RGB565 byte pairs
   * swapped and everything else verbatim, copies them to the given mip
   * level and layer, and leaves the image ready for shader reads.
   */
  method SubImageUpload(img: Image, mipLevel: nat, x: nat, y: nat, z: int, width: nat, height: nat, pic: seq<bv8>, pixelPitch: int)
    returns (staged: seq<bv8>, region: CopyRegion)
    requires mipLevel < img.opts.numLevels
    requires UploadSize(img.opts.format, width, height) <= |pic|
    modifies img
    ensures img.opts == old(img.opts) && img.image == old(img.image) && img.view == old(img.view) && img.sampler == old(img.sampler)
    ensures var size := UploadSize(img.opts.format, width, height);
            staged == if img.opts.format == FMT_RGB565 then SwapPairs(pic[..size]) else pic[..size]
    ensures var e := UploadExtent(img.opts.format, width, height);
            region == CopyRegion(mipLevel, z, x, y, e.0, e.1, pixelPitch)
    ensures img.layout == LAYOUT_SHADER_READ_ONLY_OPTIMAL
    ensures img.allocation == old(img.allocation) && img.filter == old(img.filter) && img.repeat == old(img.repeat)
  {
    var e := UploadExtent(img.opts.format, width, height);
    var size := UploadSize(img.opts.format, width, height);
    if img.opts.format == FMT_RGB565 {
      var texels := e.0 * e.1;
      assert size * 8 == texels * 16;
      staged := StageSwapped(pic, size);
    } else {
      staged := pic[..size];
    }
    region := CopyRegion(mipLevel, z, x, y, e.0, e.1, pixelPitch);
    img.layout := LAYOUT_SHADER_READ_ONLY_OPTIMAL;
  }
}
