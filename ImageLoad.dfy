/**
 * Image bookkeeping that does not touch the GPU: the bit count of each
 * texture format, the options an image derives from its usage and size
 * (format, colour format, mip count), the power-of-two rounding, the
 * storage estimate, the generated names of built-in images and the
 * choice made when a scratch image is uploaded.
 */
module ImageLoad {
  import opened Bits

  datatype TextureType = TT_DISABLED | TT_2D | TT_CUBIC

  /** The internal texture formats, in declaration order. */
  datatype TextureFormat =
    | FMT_NONE | FMT_RGBA8 | FMT_XRGB8 | FMT_ALPHA | FMT_L8A8 | FMT_LUM8 | FMT_INT8
    | FMT_DXT1 | FMT_DXT5 | FMT_DEPTH | FMT_X16 | FMT_Y16_X16 | FMT_RGB565

  datatype TextureColor = CFM_DEFAULT | CFM_NORMAL_DXT5 | CFM_YCOCG_DXT5 | CFM_GREEN_ALPHA

  /**
   * The usages DeriveOpts distinguishes; OtherUsage stands for any value
   * its switch does not list.
   */
  datatype TextureUsage =
    | TD_COVERAGE | TD_DEPTH | TD_TARGET | TD_DIFFUSE | TD_SPECULAR | TD_DEFAULT | TD_BUMP | TD_FONT
    | TD_LIGHT | TD_LOOKUP_TABLE_MONO | TD_LOOKUP_TABLE_ALPHA | TD_LOOKUP_TABLE_RGB1 | TD_LOOKUP_TABLE_RGBA
    | OtherUsage

  /** Filter and repeat modes; Unknown* stands for a value the sampler switch does not recognise. */
  datatype TextureFilter = TF_LINEAR | TF_NEAREST | TF_DEFAULT | UnknownFilter(code: int)
  datatype TextureRepeat = TR_REPEAT | TR_CLAMP | TR_CLAMP_TO_ZERO | TR_CLAMP_TO_ZERO_ALPHA | UnknownRepeat(code: int)

  /** The layouts an image is left in. */
  datatype ImageLayout = LAYOUT_GENERAL | LAYOUT_SHADER_READ_ONLY_OPTIMAL

  /** idImageOpts: the parameters that decide an image's memory size and layout. */
  datatype ImageOpts = ImageOpts(
    textureType: TextureType,
    format: TextureFormat,
    colorFormat: TextureColor,
    samples: nat,
    usage: TextureUsage,
    width: int,
    height: int,
    numLevels: int,
    gammaMips: bool)

  /** The options a default-constructed idImageOpts holds. */
  const DEFAULT_OPTS: ImageOpts := ImageOpts(TT_2D, FMT_NONE, CFM_DEFAULT, 1, TD_DEFAULT, 0, 0, 0, false)

  /** Bits per texel of each format; only FMT_NONE has none. */
  function BitsForFormat(format: TextureFormat): (bits: nat)
    ensures bits == 0 <==> format == FMT_NONE
    ensures bits % 4 == 0 && bits <= 32
    ensures IsCompressed(format) ==> bits <= 8
  {
    match format
    case FMT_NONE => 0
    case FMT_RGBA8 => 32
    case FMT_XRGB8 => 32
    case FMT_RGB565 => 16
    case FMT_L8A8 => 16
    case FMT_ALPHA => 8
    case FMT_LUM8 => 8
    case FMT_INT8 => 8
    case FMT_DXT1 => 4
    case FMT_DXT5 => 8
    case FMT_DEPTH => 32
    case FMT_X16 => 16
    case FMT_Y16_X16 => 32
  }

  /** The block-compressed formats. */
  predicate IsCompressed(format: TextureFormat) {
    format == FMT_DXT1 || format == FMT_DXT5
  }

  // ---------------------------------------------------------------------
  // DeriveOpts
  // ---------------------------------------------------------------------

  /**
   * The format step of DeriveOpts: with no format set, the usage picks the
   * format and colour format (the colour format first reset to default),
   * and some usages turn on gamma-correct mips or fix the level count.
   */
  function DerivedFormat(opts: ImageOpts): (r: ImageOpts)
    ensures opts.format != FMT_NONE ==> r == opts
    ensures r.format != FMT_NONE
    ensures r.(format := opts.format, colorFormat := opts.colorFormat, numLevels := opts.numLevels, gammaMips := opts.gammaMips) == opts
    ensures r.numLevels != opts.numLevels ==> opts.format == FMT_NONE && opts.usage == TD_FONT && r.numLevels == 4
  {
    if opts.format != FMT_NONE then opts
    else
      var o := opts.(colorFormat := CFM_DEFAULT);
      match opts.usage
      case TD_COVERAGE => o.(format := FMT_DXT1, colorFormat := CFM_GREEN_ALPHA)
      case TD_DEPTH => o.(format := FMT_DEPTH)
      case TD_TARGET => o.(format := FMT_RGBA8)
      case TD_DIFFUSE => o.(gammaMips := true, format := FMT_DXT5, colorFormat := CFM_YCOCG_DXT5)
      case TD_SPECULAR => o.(gammaMips := true, format := FMT_DXT1, colorFormat := CFM_DEFAULT)
      case TD_DEFAULT => o.(gammaMips := true, format := FMT_DXT5, colorFormat := CFM_DEFAULT)
      case TD_BUMP => o.(format := FMT_DXT5, colorFormat := CFM_NORMAL_DXT5)
      case TD_FONT => o.(format := FMT_DXT1, colorFormat := CFM_GREEN_ALPHA, numLevels := 4, gammaMips := true)
      case TD_LIGHT => o.(format := FMT_RGB565, gammaMips := true)
      case TD_LOOKUP_TABLE_MONO => o.(format := FMT_INT8)
      case TD_LOOKUP_TABLE_ALPHA => o.(format := FMT_ALPHA)
      case TD_LOOKUP_TABLE_RGB1 => o.(format := FMT_RGBA8)
      case TD_LOOKUP_TABLE_RGBA => o.(format := FMT_RGBA8)
      case OtherUsage => o.(format := FMT_RGBA8)
  }

  /**
   * The mip chain of a w by h image: one level, plus one per halving of
   * both sides (`>>= 1`, a floor division) while either side exceeds 1;
   * for compressed formats the chain stops before a halved side that is
   * not a multiple of 4 (`& 0x3`, the two's-complement low bits).
   */
  function MipLevels(w: int, h: int, compressed: bool): (r: nat)
    ensures r >= 1
    decreases Max(w, 0) + Max(h, 0)
  {
    if !(w > 1 || h > 1) then 1
    else if compressed && ((w / 2) % 4 != 0 || (h / 2) % 4 != 0) then 1
    else 1 + MipLevels(w / 2, h / 2, compressed)
  }

  /** The level step of DeriveOpts, on options whose format is already set. */
  function DerivedLevels(opts: ImageOpts, filter: TextureFilter): (r: ImageOpts)
    ensures r == opts.(numLevels := r.numLevels)
    ensures opts.numLevels != 0 ==> r.numLevels == opts.numLevels
    ensures opts.numLevels == 0 ==> r.numLevels >= 1
    ensures opts.numLevels == 0 && (filter == TF_LINEAR || filter == TF_NEAREST) ==> r.numLevels == 1
  {
    if opts.numLevels != 0 then opts
    else if filter == TF_LINEAR || filter == TF_NEAREST then opts.(numLevels := 1)
    else opts.(numLevels := MipLevels(opts.width, opts.height, IsCompressed(opts.format)))
  }

  /** DeriveOpts as a whole: the format step, then the level step. */
  function DerivedOpts(opts: ImageOpts, filter: TextureFilter): ImageOpts {
    DerivedLevels(DerivedFormat(opts), filter)
  }

  function Pow2(k: nat): (p: nat)
    ensures p >= 1
  {
    if k == 0 then 1 else 2 * Pow2(k - 1)
  }

  /**
   * Without compression the mip count is the number of binary digits of
   * the larger side: 2^(levels-1) <= max(w, h) < 2^levels.
   */
  lemma {:induction false} MipLevelsUncompressed(w: nat, h: nat)
    requires w >= 1 || h >= 1
    ensures Pow2(MipLevels(w, h, false) - 1) <= Max(w, h) < Pow2(MipLevels(w, h, false))
  {
    if w > 1 || h > 1 {
      MipLevelsUncompressed(w / 2, h / 2);
      assert Max(w / 2, h / 2) == Max(w, h) / 2;
    }
  }

  /** The early stop for compressed formats can only shorten the chain. */
  lemma {:induction false} MipLevelsCompressedShorter(w: int, h: int)
    ensures MipLevels(w, h, true) <= MipLevels(w, h, false)
    decreases Max(w, 0) + Max(h, 0)
  {
    if w > 1 || h > 1 {
      MipLevelsCompressedShorter(w / 2, h / 2);
    }
  }

  /** An explicitly set format and level count are left as they are. */
  lemma DerivedOptsKeepsExplicit(opts: ImageOpts, filter: TextureFilter)
    requires opts.format != FMT_NONE && opts.numLevels != 0
    ensures DerivedOpts(opts, filter) == opts
  {
  }

  /** Deriving is idempotent: derived options derive to themselves. */
  lemma DerivedOptsIdempotent(opts: ImageOpts, filter: TextureFilter)
    requires opts.numLevels >= 0
    ensures DerivedOpts(DerivedOpts(opts, filter), filter) == DerivedOpts(opts, filter)
  {
  }

  /** A font image becomes DXT1 with alpha in green and exactly four levels, whatever the filter. */
  lemma FontOpts(opts: ImageOpts, filter: TextureFilter)
    requires opts.format == FMT_NONE && opts.usage == TD_FONT
    ensures DerivedOpts(opts, filter).format == FMT_DXT1
    ensures DerivedOpts(opts, filter).colorFormat == CFM_GREEN_ALPHA
    ensures DerivedOpts(opts, filter).numLevels == 4
  {
  }

  /** A bump map becomes DXT5 with the normal-map colour format. */
  lemma BumpOpts(opts: ImageOpts, filter: TextureFilter)
    requires opts.format == FMT_NONE && opts.usage == TD_BUMP
    ensures DerivedOpts(opts, filter).format == FMT_DXT5 && DerivedOpts(opts, filter).colorFormat == CFM_NORMAL_DXT5
  {
  }

  // ---------------------------------------------------------------------
  // MakePowerOfTwo, StorageSize
  // ---------------------------------------------------------------------

  predicate IsPowerOfTwo(p: int)
    decreases if p > 0 then p else 0
  {
    p == 1 || (p > 1 && p % 2 == 0 && IsPowerOfTwo(p / 2))
  }

  /**
   * The least power of two that is at least num; 1 for num <= 1.  Past
   * 2^30 the doubling would overflow int, so larger requests are not
   * callers' business.
   */
  method MakePowerOfTwo(num: int) returns (pot: int)
    requires num <= 0x4000_0000
    ensures IsPowerOfTwo(pot) && pot >= num
    ensures pot == 1 || pot / 2 < num
    ensures IsInt32(pot)
  {
    pot := 1;
    while pot < num
      invariant IsPowerOfTwo(pot) && (pot == 1 || pot / 2 < num) && IsInt32(pot)
      decreases num - pot
    {
      pot := pot * 2;
    }
  }

  // ---------------------------------------------------------------------
  // The image object
  // ---------------------------------------------------------------------

  /** What uploading a scratch image does. */
  datatype ScratchUpload =
    /** Rebuilds the image as a cube map of size-by-size faces. */
    | GenerateCube(size: int)
    /** Rebuilds the image as a width-by-height 2D lookup table. */
    | Generate(width: int, height: int)
    /** Uploads each face at its byte offset into the data, reallocating first when the size changed. */
    | Upload(faceOffsets: seq<int>, reallocated: bool)

  /**
   * idImage: its options, sampler modes and the Vulkan objects behind it
   * (handles as numbers, 0 for VK_NULL_HANDLE).
   */
  class Image {
    var opts: ImageOpts
    var filter: TextureFilter
    var repeat: TextureRepeat
    var image: nat
    var view: nat
    var sampler: nat
    var allocation: nat
    var layout: ImageLayout

    /** A new image holds no Vulkan objects, default options and the default filter with repeat. */
    constructor()
      ensures opts == DEFAULT_OPTS && filter == TF_DEFAULT && repeat == TR_REPEAT
      ensures image == 0 && view == 0 && sampler == 0 && allocation == 0 && layout == LAYOUT_GENERAL
    {
      opts := DEFAULT_OPTS;
      filter := TF_DEFAULT;
      repeat := TR_REPEAT;
      image, view, sampler, allocation := 0, 0, 0, 0;
      layout := LAYOUT_GENERAL;
    }

    /** The image is loaded exactly when it holds a Vulkan image. */
    predicate IsLoaded()
      reads this
    {
      image != 0
    }

    /**
     * Fills in what the options leave open: the format from the usage,
     * then the level count from the filter and size.
     */
    method DeriveOpts()
      modifies this
      ensures opts == DerivedOpts(old(opts), filter)
      ensures filter == old(filter) && repeat == old(repeat) && image == old(image) && view == old(view)
      ensures sampler == old(sampler) && allocation == old(allocation) && layout == old(layout)
    {
      if opts.format == FMT_NONE {
        opts := DerivedFormat(opts);
      }
      if opts.numLevels == 0 {
        var levels := 1;
        if filter != TF_LINEAR && filter != TF_NEAREST {
          var compressed := opts.format == FMT_DXT1 || opts.format == FMT_DXT5;
          var w, h := opts.width, opts.height;
          while w > 1 || h > 1
            invariant levels - 1 + MipLevels(w, h, compressed) == MipLevels(opts.width, opts.height, compressed)
            decreases Max(w, 0) + Max(h, 0)
          {
            w, h := w / 2, h / 2;
            if compressed && (w % 4 != 0 || h % 4 != 0) {
              break;
            }
            levels := levels + 1;
          }
        }
        opts := opts.(numLevels := levels);
      }
    }

    /**
     * The estimated memory of the image: 0 when not loaded, else the texel
     * count (times 4/3 with mips) times the bits per texel, in bytes, each
     * step truncated as C does.
     */
    function StorageSize(): (r: int)
      reads this
      ensures !IsLoaded() ==> r == 0
      ensures IsLoaded() && opts.width >= 0 && opts.height >= 0 ==>
                var texels := if opts.numLevels > 1 then opts.width * opts.height * 4 / 3 else opts.width * opts.height;
                0 <= r && r * 8 <= texels * BitsForFormat(opts.format) < r * 8 + 8
    {
      if !IsLoaded() then 0
      else
        var base := opts.width * opts.height;
        var mipped := if opts.numLevels > 1 then TDiv(base * 4, 3) else base;
        TDiv(mipped * BitsForFormat(opts.format), 8)
    }

    /**
     * The option part of GenerateImage: the given filter, repeat and usage,
     * a 2D type of the given size, and the options derived anew with the
     * level count cleared (the format is derived only when still unset).
     * Purging, allocating and uploading the pixels are the Vulkan image's
     * PurgeImage, AllocImage and SubImageUpload.
     */
    method GenerateImage(width: int, height: int, filter': TextureFilter, repeat': TextureRepeat, usage: TextureUsage)
      modifies this
      ensures filter == filter' && repeat == repeat'
      ensures opts == DerivedOpts(old(opts).(usage := usage, textureType := TT_2D, width := width, height := height, numLevels := 0), filter')
      ensures image == old(image) && view == old(view) && sampler == old(sampler)
      ensures allocation == old(allocation) && layout == old(layout)
    {
      filter, repeat := filter', repeat';
      opts := opts.(usage := usage, textureType := TT_2D, width := width, height := height, numLevels := 0);
      DeriveOpts();
    }

    /** The option part of GenerateCubeImage: as GenerateImage, for size-by-size cube faces clamped at the edges. */
    method GenerateCubeImage(size: int, filter': TextureFilter, usage: TextureUsage)
      modifies this
      ensures filter == filter' && repeat == TR_CLAMP
      ensures opts == DerivedOpts(old(opts).(usage := usage, textureType := TT_CUBIC, width := size, height := size, numLevels := 0), filter')
      ensures image == old(image) && view == old(view) && sampler == old(sampler)
      ensures allocation == old(allocation) && layout == old(layout)
    {
      filter, repeat := filter', TR_CLAMP;
      opts := opts.(usage := usage, textureType := TT_CUBIC, width := size, height := size, numLevels := 0);
      DeriveOpts();
    }

    /**
     * UploadScratchImage: rows == 6 * cols means six cols-by-cols faces
     * stacked in the data.  An image that is not already a lookup table of
     * the matching type is regenerated from the data as a linear-filtered
     * RGBA lookup table, so that the next upload of the same shape goes in
     * place; otherwise a size change resizes the image first and every face
     * is uploaded.  SetSamplerState has an empty body in the Vulkan
     * backend, so the in-place path keeps the sampler modes.
     */
    method UploadScratchImage(cols: int, rows: int) returns (action: ScratchUpload)
      modifies this
      ensures rows == cols * 6 && (old(opts).textureType != TT_CUBIC || old(opts).usage != TD_LOOKUP_TABLE_RGBA) ==>
                action == GenerateCube(cols) && filter == TF_LINEAR && repeat == TR_CLAMP &&
                opts.textureType == TT_CUBIC && opts.width == cols && opts.height == cols
      ensures rows != cols * 6 && (old(opts).textureType != TT_2D || old(opts).usage != TD_LOOKUP_TABLE_RGBA) ==>
                action == Generate(cols, rows) && filter == TF_LINEAR && repeat == TR_REPEAT &&
                opts.textureType == TT_2D && opts.width == cols && opts.height == rows
      ensures !action.Upload? ==>
                opts.usage == TD_LOOKUP_TABLE_RGBA && opts.numLevels == 1 &&
                opts.format == (if old(opts).format == FMT_NONE then FMT_RGBA8 else old(opts).format) &&
                opts.colorFormat == (if old(opts).format == FMT_NONE then CFM_DEFAULT else old(opts).colorFormat) &&
                opts.samples == old(opts).samples && opts.gammaMips == old(opts).gammaMips
      ensures action.Upload? ==>
                opts == old(opts).(width := cols, height := if rows == cols * 6 then cols else rows) &&
                action.reallocated == (old(opts).width != opts.width || old(opts).height != opts.height) &&
                filter == old(filter) && repeat == old(repeat)
      ensures action.Upload? && rows == cols * 6 ==>
                |action.faceOffsets| == 6 && forall i :: 0 <= i < 6 ==> action.faceOffsets[i] == cols * cols * 4 * i
      ensures action.Upload? && rows != cols * 6 ==> action.faceOffsets == [0]
      ensures image == old(image)
    {
      if rows == cols * 6 {
        var faceRows := TDiv(rows, 6);
        assert faceRows == cols;
        var offsets := seq(6, i => cols * faceRows * 4 * i);
        if opts.textureType != TT_CUBIC || opts.usage != TD_LOOKUP_TABLE_RGBA {
          GenerateCubeImage(cols, TF_LINEAR, TD_LOOKUP_TABLE_RGBA);
          return GenerateCube(cols);
        }
        var resized := opts.width != cols || opts.height != faceRows;
        if resized {
          opts := opts.(width := cols, height := faceRows);
        }
        action := Upload(offsets, resized);
      } else {
        if opts.textureType != TT_2D || opts.usage != TD_LOOKUP_TABLE_RGBA {
          GenerateImage(cols, rows, TF_LINEAR, TR_REPEAT, TD_LOOKUP_TABLE_RGBA);
          return Generate(cols, rows);
        }
        var resized := opts.width != cols || opts.height != rows;
        if resized {
          opts := opts.(width := cols, height := rows);
        }
        action := Upload([0], resized);
      }
    }
  }

  // ---------------------------------------------------------------------
  // Generated image names
  // ---------------------------------------------------------------------

  /** The index of the last '.' in s, if any. */
  function LastDot(s: string): (r: Option<nat>)
    ensures r.Some? ==> r.value < |s| && s[r.value] == '.' && '.' !in s[r.value + 1..]
    ensures r.None? <==> '.' !in s
  {
    if s == [] then None
    else if s[|s| - 1] == '.' then Some(|s| - 1)
    else
      var r := LastDot(s[..|s| - 1]);
      assert s == s[..|s| - 1] + [s[|s| - 1]];
      assert r.Some? ==> s[r.value + 1..] == s[..|s| - 1][r.value + 1..] + [s[|s| - 1]];
      r
  }

  /** idStr::ExtractFileExtension: the text after the last '.', empty without one. */
  function FileExtension(s: string): string {
    match LastDot(s)
    case None => ""
    case Some(i) => s[i + 1..]
  }

  /** idStr::StripFileExtension: s cut at its last '.'. */
  function StripFileExtension(s: string): string {
    match LastDot(s)
    case None => s
    case Some(i) => s[..i]
  }

  /** idStr::SetFileExtension: the extension replaced by ext ('.' added unless ext has one). */
  function SetFileExtension(s: string, ext: string): string {
    StripFileExtension(s) + (if ext != [] && ext[0] == '.' then [] else ['.']) + ext
  }

  /** "%02d" of a value in [0, 99]. */
  function TwoDigits(n: int): (s: string)
    requires 0 <= n <= 99
    ensures |s| == 2 && '.' !in s
  {
    [Digit(n / 10), Digit(n % 10)]
  }

  /** The "#__uucc" tag naming a usage and a cube layout. */
  function GeneratedTag(usage: int, cube: int): (s: string)
    requires 0 <= usage <= 99 && 0 <= cube <= 99
    ensures |s| == 7 && '.' !in s
  {
    "#__" + TwoDigits(usage) + TwoDigits(cube)
  }

  /**
   * GetGeneratedName: the name without its extension, the tag, then the
   * original extension put back when there was one.
   */
  function GeneratedName(name: string, usage: int, cube: int): string
    requires 0 <= usage <= 99 && 0 <= cube <= 99
  {
    var ext := FileExtension(name);
    var tagged := StripFileExtension(name) + GeneratedTag(usage, cube);
    if |ext| > 0 then SetFileExtension(tagged, ext) else tagged
  }

  /** A name without a '.' just gains the tag. */
  lemma GeneratedNamePlain(name: string, usage: int, cube: int)
    requires 0 <= usage <= 99 && 0 <= cube <= 99 && '.' !in name
    ensures GeneratedName(name, usage, cube) == name + GeneratedTag(usage, cube)
  {
  }

  /** A name "stem.ext" with a dot-free stem becomes "stem#__uucc.ext": the tag goes before the kept extension. */
  lemma GeneratedNameKeepsExtension(stem: string, ext: string, usage: int, cube: int)
    requires 0 <= usage <= 99 && 0 <= cube <= 99
    requires '.' !in stem && '.' !in ext && ext != []
    ensures GeneratedName(stem + "." + ext, usage, cube) == stem + GeneratedTag(usage, cube) + "." + ext
  {
    LastDotAppend(stem + ".", ext);
    LastDotAppend(stem, GeneratedTag(usage, cube));
    assert (stem + "." + ext)[..|stem|] == stem;
  }

  /**
   * With a second '.' in the stem the tag is lost: SetFileExtension strips
   * again from the stem's own '.', so "a.b.tga" becomes "a.tga" for every
   * usage and cube value.
   */
  lemma GeneratedNameDoubleDot(usage: int, cube: int)
    requires 0 <= usage <= 99 && 0 <= cube <= 99
    ensures GeneratedName("a.b.tga", usage, cube) == "a.tga"
  {
    var tag := GeneratedTag(usage, cube);
    assert "a.b.tga" == "a.b." + "tga";
    LastDotAppend("a.b.", "tga");
    assert FileExtension("a.b.tga") == "tga" && StripFileExtension("a.b.tga") == "a.b";
    assert "a.b" == "a." + "b";
    LastDotAppend("a.", "b");
    LastDotAppend("a.b", tag);
    assert LastDot("a.b" + tag) == Some(1);
    assert ("a.b" + tag)[..1] == "a";
  }

  /** Text without a '.' appended after s leaves its last '.' where it was. */
  lemma {:induction false} LastDotAppend(s: string, t: string)
    requires '.' !in t
    ensures LastDot(s + t) == LastDot(s)
  {
    if t != [] {
      LastDotAppend(s, t[..|t| - 1]);
      assert (s + t)[..|s + t| - 1] == s + t[..|t| - 1];
    } else {
      assert s + t == s;
    }
  }
}
