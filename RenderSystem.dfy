/**
 * idRenderSystemLocal: the per-frame bump allocator and its render-command
 * chain, the render-crop stack, small-character text drawing and font
 * registration.
 *
 * The mask expression `(x + a - 1) & ~(a - 1)` used for the power-of-two
 * roundings is modelled by `AlignUp`, its value for non-negative `x`.
 */
module RenderSystem {
  import opened Bits

  const FRAME_ALLOC_ALIGNMENT: nat := 128
  const MAX_FRAME_MEMORY: nat := 64 * 1024 * 1024
  /** The size ZeroCacheLine clears; its definition is not part of this model. */
  const CACHE_LINE_SIZE: nat := 128
  /** sizeof( renderCommand_t ): an enum and a pointer on a 64-bit target. */
  const RENDER_COMMAND_SIZE: nat := 16
  const MAX_RENDER_CROPS: nat := 8
  const SMALLCHAR_WIDTH: int := 8
  const SMALLCHAR_HEIGHT: int := 16

  // ------------------------------------------------------------------
  // Frame memory
  // ------------------------------------------------------------------

  /** The request size FrameAlloc actually reserves. */
  function FrameAllocSize(bytes: nat): (r: nat)
    ensures r % FRAME_ALLOC_ALIGNMENT == 0
    ensures bytes <= r < bytes + FRAME_ALLOC_ALIGNMENT
  {
    AlignUp(bytes, FRAME_ALLOC_ALIGNMENT)
  }

  /**
   * The bytes ToggleSmpFrame skips so that the first allocation of a frame
   * starts on a 128-byte address: always 1..128, a full 128 when the buffer
   * is already aligned.
   */
  function BytesNeededForAlignment(baseAddress: nat): (r: nat)
    ensures 1 <= r <= FRAME_ALLOC_ALIGNMENT
    ensures (baseAddress + r) % FRAME_ALLOC_ALIGNMENT == 0
  {
    var r := FRAME_ALLOC_ALIGNMENT - baseAddress % FRAME_ALLOC_ALIGNMENT;
    assert baseAddress == baseAddress / 128 * 128 + baseAddress % 128;
    assert baseAddress + r == (baseAddress / 128 + 1) * 128;
    MulMod(baseAddress / 128 + 1, 128);
    r
  }

  datatype CommandId = RC_NOP | RC_DRAW_VIEW | RC_COPY_RENDER

  /** A command in the chain: where FrameAlloc put it, and its id. */
  datatype RenderCommand = RenderCommand(offset: nat, commandId: CommandId)

  /** One of the NUM_FRAME_DATA idFrameData buffers. */
  class FrameData {
    /** The MAX_FRAME_MEMORY bytes of frameMemory, and the address they start at. */
    const frameMemory: array<bv8>
    const baseAddress: nat
    var frameMemoryAllocated: int
    var highWaterAllocated: int
    /** The chain cmdHead .. cmdTail, in link order. */
    var commands: seq<RenderCommand>

    ghost predicate Valid()
      reads this
    {
      frameMemory.Length == MAX_FRAME_MEMORY &&
      0 <= frameMemoryAllocated &&
      (baseAddress + frameMemoryAllocated) % FRAME_ALLOC_ALIGNMENT == 0
    }

    constructor (baseAddress: nat)
      ensures Valid() && fresh(frameMemory)
      ensures this.baseAddress == baseAddress
      ensures frameMemoryAllocated == BytesNeededForAlignment(baseAddress)
      ensures highWaterAllocated == 0 && commands == []
    {
      frameMemory := new bv8[MAX_FRAME_MEMORY];
      this.baseAddress := baseAddress;
      frameMemoryAllocated := BytesNeededForAlignment(baseAddress);
      highWaterAllocated := 0;
      commands := [];
    }

    /** ZeroCacheLine: clears the CACHE_LINE_SIZE bytes at `at`. */
    method ZeroCacheLine(at: nat)
      requires at + CACHE_LINE_SIZE <= frameMemory.Length
      modifies frameMemory
      ensures forall i :: at <= i < at + CACHE_LINE_SIZE ==> frameMemory[i] == 0
      ensures forall i :: 0 <= i < frameMemory.Length && !(at <= i < at + CACHE_LINE_SIZE) ==>
        frameMemory[i] == old(frameMemory[i])
    {
      var k := 0;
      while k < CACHE_LINE_SIZE
        invariant k <= CACHE_LINE_SIZE
        invariant forall i :: at <= i < at + k ==> frameMemory[i] == 0
        invariant forall i :: 0 <= i < frameMemory.Length && !(at <= i < at + k) ==>
          frameMemory[i] == old(frameMemory[i])
      {
        frameMemory[at + k] := 0;
        k := k + 1;
      }
    }

    /**
     * FrameAlloc: the request is rounded up to 128 bytes and the counter
     * bumped first. Past MAX_FRAME_MEMORY it is an Error (`ok` false, the
     * bump stays and no memory is touched). Otherwise the block is the one
     * that ends at the new counter, directly after the previous allocation,
     * on a 128-byte address, and it is cleared one cache line at a time.
     */
    method FrameAlloc(bytes: nat) returns (ok: bool, ptr: nat)
      requires Valid()
      modifies this, frameMemory
      ensures Valid()
      ensures frameMemoryAllocated == old(frameMemoryAllocated) + FrameAllocSize(bytes)
      ensures highWaterAllocated == old(highWaterAllocated) && commands == old(commands)
      ensures ok <==> frameMemoryAllocated <= MAX_FRAME_MEMORY
      ensures ok ==> ptr == old(frameMemoryAllocated) && ptr + FrameAllocSize(bytes) == frameMemoryAllocated
      ensures ok ==> (baseAddress + ptr) % FRAME_ALLOC_ALIGNMENT == 0
      ensures ok ==> forall i :: ptr <= i < frameMemoryAllocated ==> frameMemory[i] == 0
      ensures ok ==> forall i :: 0 <= i < frameMemory.Length && !(ptr <= i < frameMemoryAllocated) ==>
        frameMemory[i] == old(frameMemory[i])
      ensures !ok ==> frameMemory[..] == old(frameMemory[..])
    {
      var size := FrameAllocSize(bytes);
      AlignedAdvance(baseAddress + frameMemoryAllocated, size);
      frameMemoryAllocated := frameMemoryAllocated + size;
      var end := frameMemoryAllocated;
      if end > MAX_FRAME_MEMORY {
        return false, 0;
      }
      ptr := end - size;
      var lines := size / CACHE_LINE_SIZE;
      assert size == lines * CACHE_LINE_SIZE;
      var line := 0;
      while line < lines
        modifies frameMemory
        invariant line <= lines
        invariant forall i :: ptr <= i < ptr + line * CACHE_LINE_SIZE ==> frameMemory[i] == 0
        invariant forall i :: 0 <= i < frameMemory.Length && !(ptr <= i < ptr + line * CACHE_LINE_SIZE) ==>
          frameMemory[i] == old(frameMemory[i])
      {
        ZeroCacheLine(ptr + line * CACHE_LINE_SIZE);
        line := line + 1;
      }
      ok := true;
    }

    /** The high-water mark becomes the max of itself and what this frame allocated. */
    method RecordHighWater()
      requires Valid()
      modifies this
      ensures Valid()
      ensures highWaterAllocated == Max(old(highWaterAllocated), frameMemoryAllocated)
      ensures frameMemoryAllocated == old(frameMemoryAllocated) && commands == old(commands)
    {
      if frameMemoryAllocated > highWaterAllocated {
        highWaterAllocated := frameMemoryAllocated;
      }
    }

    /**
     * The start of a frame in this buffer: the counter restarts after the
     * alignment padding and the chain is a single RC_NOP placed there.
     */
    method Restart()
      requires Valid()
      modifies this, frameMemory
      ensures Valid()
      ensures frameMemoryAllocated == BytesNeededForAlignment(baseAddress) + FrameAllocSize(RENDER_COMMAND_SIZE)
      ensures commands == [RenderCommand(BytesNeededForAlignment(baseAddress), RC_NOP)]
      ensures highWaterAllocated == old(highWaterAllocated)
    {
      frameMemoryAllocated := BytesNeededForAlignment(baseAddress);
      var ok, ptr := FrameAlloc(RENDER_COMMAND_SIZE);
      assert ok;
      commands := [RenderCommand(ptr, RC_NOP)];
    }
  }

  /** Advancing an aligned address by an aligned size keeps it aligned. */
  lemma AlignedAdvance(address: nat, size: nat)
    requires address % FRAME_ALLOC_ALIGNMENT == 0 && size % FRAME_ALLOC_ALIGNMENT == 0
    ensures (address + size) % FRAME_ALLOC_ALIGNMENT == 0
  {
    var q1, q2 := address / 128, size / 128;
    assert address + size == (q1 + q2) * 128;
    MulMod(q1 + q2, 128);
  }

  // ------------------------------------------------------------------
  // Render crops
  // ------------------------------------------------------------------

  datatype ScreenRect = ScreenRect(x1: int, y1: int, x2: int, y2: int)

  function RectWidth(r: ScreenRect): int { r.x2 - r.x1 + 1 }
  function RectHeight(r: ScreenRect): int { r.y2 - r.y1 + 1 }

  /** The crop CropRenderSize pushes over `prev`: the bottom-left corner of `prev`, sized width x height. */
  function CropOf(prev: ScreenRect, width: int, height: int): (r: ScreenRect)
    ensures r.x1 == prev.x1 && r.y2 == prev.y2
    ensures RectWidth(r) == width && RectHeight(r) == height
  {
    ScreenRect(prev.x1, prev.y2 - height + 1, prev.x1 + width - 1, prev.y2)
  }

  /** What a call did: nothing (renderer not initialised), an Error, or its work. */
  datatype Status = Ignored | Failed | Done

  /**
   * The crop push as written: the index written is one past the current
   * one, with no check against the MAX_RENDER_CROPS entries of
   * m_renderCrops. None stands for the "bad sizes" Error.
   */
  function CropIndexAsWritten(current: int, width: int, height: int): (r: Option<int>)
    ensures r.Some? <==> width >= 1 && height >= 1
    ensures r.Some? ==> r.value == current + 1
  {
    if width < 1 || height < 1 then None else Some(current + 1)
  }

  /** The crop index after `n` successful 1x1 crops as written. */
  function RepeatCropAsWritten(current: int, n: nat): int
    decreases n
  {
    if n == 0 then current else RepeatCropAsWritten(CropIndexAsWritten(current, 1, 1).value, n - 1)
  }

  lemma {:induction false} RepeatCropAsWrittenAdds(current: int, n: nat)
    ensures RepeatCropAsWritten(current, n) == current + n
    decreases n
  {
    if n > 0 {
      RepeatCropAsWrittenAdds(current + 1, n - 1);
    }
  }

  /**
   * From the full-screen crop, MAX_RENDER_CROPS nested crops as written
   * write entry MAX_RENDER_CROPS, one past the end of m_renderCrops.
   */
  lemma CropOverrunsAsWritten()
    ensures RepeatCropAsWritten(0, MAX_RENDER_CROPS) == MAX_RENDER_CROPS
  {
    RepeatCropAsWrittenAdds(0, MAX_RENDER_CROPS);
  }

  // ------------------------------------------------------------------
  // Small characters and strings
  // ------------------------------------------------------------------

  /** The 16 x 16 cell of the character sheet a small character is drawn from. */
  datatype CharQuad = CharQuad(x: int, y: int, w: int, h: int, row: int, col: int)

  /** `ch & 255` on a two's-complement int. */
  function Byte(ch: int): (r: int)
    ensures 0 <= r < 256 && (ch - r) % 256 == 0
  {
    ch % 256
  }

  /**
   * DrawSmallChar: nothing for a space or for a character entirely above
   * the screen; otherwise an 8 x 16 quad textured with cell (row, col),
   * each 1/16 of the sheet, whose number row*16+col is the masked char.
   */
  function SmallChar(x: int, y: int, ch: int): (r: Option<CharQuad>)
    ensures r.None? <==> Byte(ch) == ' ' as int || y < -SMALLCHAR_HEIGHT
    ensures r.Some? ==> r.value.x == x && r.value.y == y
    ensures r.Some? ==> r.value.w == SMALLCHAR_WIDTH && r.value.h == SMALLCHAR_HEIGHT
    ensures r.Some? ==> 0 <= r.value.row < 16 && 0 <= r.value.col < 16
    ensures r.Some? ==> r.value.row * 16 + r.value.col == Byte(ch)
  {
    var c := Byte(ch);
    if c == ' ' as int || y < -SMALLCHAR_HEIGHT then None
    else Some(CharQuad(x, y, SMALLCHAR_WIDTH, SMALLCHAR_HEIGHT, c / 16, c % 16))
  }

  const C_COLOR_ESCAPE: char := '^'
  const C_COLOR_DEFAULT: char := '0'

  /**
   * idStr::IsColor at position i: an escape followed by a character that is
   * neither the terminator nor a space (idStr is not part of this model).
   */
  predicate IsColorAt(s: seq<char>, i: nat)
  {
    i + 1 < |s| && s[i] == C_COLOR_ESCAPE && s[i + 1] != ' '
  }

  /** The colour SetColor receives: the caller's, a palette entry with the caller's alpha, or white. */
  datatype ColorChoice = GivenColor | PaletteColor(code: char) | White

  datatype DrawOp = SetColorOp(color: ColorChoice) | CharOp(quad: CharQuad)

  /** The draw calls the text loop makes from position i, drawing at xx. */
  function StringOps(s: seq<char>, i: nat, xx: int, y: int, forceColor: bool): seq<DrawOp>
    requires i <= |s|
    decreases |s| - i
  {
    if i == |s| then []
    else if IsColorAt(s, i) then
      (if forceColor then []
       else if s[i + 1] == C_COLOR_DEFAULT then [SetColorOp(GivenColor)]
       else [SetColorOp(PaletteColor(s[i + 1]))]) + StringOps(s, i + 2, xx, y, forceColor)
    else
      (match SmallChar(xx, y, s[i] as int) case Some(q) => [CharOp(q)] case None => [])
      + StringOps(s, i + 1, xx + SMALLCHAR_WIDTH, y, forceColor)
  }

  /**
   * DrawSmallStringExt: the caller's colour, then the string drawn with
   * colour escapes applied (unless the colour is forced) and skipped, and
   * finally white.
   */
  method DrawSmallStringExt(x: int, y: int, s: seq<char>, forceColor: bool) returns (ops: seq<DrawOp>)
    ensures ops == [SetColorOp(GivenColor)] + StringOps(s, 0, x, y, forceColor) + [SetColorOp(White)]
  {
    ops := [SetColorOp(GivenColor)];
    var i := 0;
    var xx := x;
    while i < |s|
      invariant i <= |s|
      invariant ops + StringOps(s, i, xx, y, forceColor) ==
        [SetColorOp(GivenColor)] + StringOps(s, 0, x, y, forceColor)
      decreases |s| - i
    {
      var emitted: seq<DrawOp> := [];
      if IsColorAt(s, i) {
        if !forceColor {
          if s[i + 1] == C_COLOR_DEFAULT {
            emitted := [SetColorOp(GivenColor)];
          } else {
            emitted := [SetColorOp(PaletteColor(s[i + 1]))];
          }
        }
        assert StringOps(s, i, xx, y, forceColor) == emitted + StringOps(s, i + 2, xx, y, forceColor);
        assert ops + emitted + StringOps(s, i + 2, xx, y, forceColor) == ops + (emitted + StringOps(s, i + 2, xx, y, forceColor));
        ops := ops + emitted;
        i := i + 2;
        continue;
      }
      var q := SmallChar(xx, y, s[i] as int);
      if q.Some? {
        emitted := [CharOp(q.value)];
      }
      assert StringOps(s, i, xx, y, forceColor) == emitted + StringOps(s, i + 1, xx + SMALLCHAR_WIDTH, y, forceColor);
      assert ops + emitted + StringOps(s, i + 1, xx + SMALLCHAR_WIDTH, y, forceColor)
        == ops + (emitted + StringOps(s, i + 1, xx + SMALLCHAR_WIDTH, y, forceColor));
      ops := ops + emitted;
      xx := xx + SMALLCHAR_WIDTH;
      i := i + 1;
    }
    ops := ops + [SetColorOp(White)];
  }

  function CountColorOps(ops: seq<DrawOp>): nat
  {
    if ops == [] then 0 else (if ops[0].SetColorOp? then 1 else 0) + CountColorOps(ops[1..])
  }

  lemma CountColorOpsConcat(a: seq<DrawOp>, b: seq<DrawOp>)
    ensures CountColorOps(a + b) == CountColorOps(a) + CountColorOps(b)
  {
    if a != [] {
      assert (a + b)[1..] == a[1..] + b;
      CountColorOpsConcat(a[1..], b);
    } else {
      assert a + b == b;
    }
  }

  /** With the colour forced, escapes change nothing: the text loop sets no colour. */
  lemma {:induction false} ForcedStringSetsNoColor(s: seq<char>, i: nat, xx: int, y: int)
    requires i <= |s|
    ensures CountColorOps(StringOps(s, i, xx, y, true)) == 0
    decreases |s| - i
  {
    if i < |s| {
      if IsColorAt(s, i) {
        ForcedStringSetsNoColor(s, i + 2, xx, y);
        assert StringOps(s, i, xx, y, true) == StringOps(s, i + 2, xx, y, true);
      } else {
        ForcedStringSetsNoColor(s, i + 1, xx + SMALLCHAR_WIDTH, y);
        var head := match SmallChar(xx, y, s[i] as int) case Some(q) => [CharOp(q)] case None => [];
        CountColorOpsConcat(head, StringOps(s, i + 1, xx + SMALLCHAR_WIDTH, y, true));
      }
    }
  }

  /**
   * Every character drawn from position i sits on the 8-pixel grid that
   * starts at xx, inside the run of cells the remaining characters span,
   * and on row y.
   */
  lemma {:induction false} StringOpsOnGrid(s: seq<char>, i: nat, xx: int, y: int, forceColor: bool)
    requires i <= |s|
    ensures forall op :: op in StringOps(s, i, xx, y, forceColor) && op.CharOp? ==>
      op.quad.y == y && (op.quad.x - xx) % SMALLCHAR_WIDTH == 0 &&
      xx <= op.quad.x < xx + SMALLCHAR_WIDTH * (|s| - i)
    decreases |s| - i
  {
    if i < |s| {
      if IsColorAt(s, i) {
        StringOpsOnGrid(s, i + 2, xx, y, forceColor);
      } else {
        StringOpsOnGrid(s, i + 1, xx + SMALLCHAR_WIDTH, y, forceColor);
        forall op | op in StringOps(s, i + 1, xx + SMALLCHAR_WIDTH, y, forceColor) && op.CharOp?
          ensures (op.quad.x - xx) % SMALLCHAR_WIDTH == 0
        {
          var k := (op.quad.x - xx - SMALLCHAR_WIDTH) / SMALLCHAR_WIDTH;
          assert op.quad.x - xx == (k + 1) * SMALLCHAR_WIDTH;
          MulMod(k + 1, SMALLCHAR_WIDTH);
        }
      }
    }
  }

  // ------------------------------------------------------------------
  // Fonts
  // ------------------------------------------------------------------

  /** idStr::Replace( "fonts/", "" ): every occurrence removed in one left-to-right pass. */
  function StripFontsDir(s: seq<char>): (r: seq<char>)
    ensures |r| <= |s|
    decreases |s|
  {
    if |s| >= 6 && s[..6] == "fonts/" then StripFontsDir(s[6..])
    else if s == [] then []
    else [s[0]] + StripFontsDir(s[1..])
  }

  predicate FontsDirAt(s: seq<char>, i: nat)
  {
    i + 6 <= |s| && s[i..i + 6] == "fonts/"
  }

  /** A name that does not contain "fonts/" is kept as it is. */
  lemma {:induction false} StripFontsDirKeepsPlainNames(s: seq<char>)
    requires forall i: nat :: !FontsDirAt(s, i)
    ensures StripFontsDir(s) == s
    decreases |s|
  {
    if s != [] {
      assert !(|s| >= 6 && s[..6] == "fonts/") by {
        assert !FontsDirAt(s, 0);
        if |s| >= 6 { assert s[0..6] == s[..6]; }
      }
      forall i: nat
        ensures !FontsDirAt(s[1..], i)
      {
        assert !FontsDirAt(s, i + 1);
        if i + 6 <= |s[1..]| {
          assert s[1..][i..i + 6] == s[i + 1..i + 7];
        }
      }
      StripFontsDirKeepsPlainNames(s[1..]);
    }
  }

  /** idStr::Icmp's folding: ASCII upper case to lower case. */
  function ToLower(c: char): char
  {
    if 'A' <= c <= 'Z' then (c as int - 'A' as int + 'a' as int) as char else c
  }

  predicate EqualsNoCase(a: seq<char>, b: seq<char>)
  {
    |a| == |b| && forall i :: 0 <= i < |a| ==> ToLower(a[i]) == ToLower(b[i])
  }

  /** The first registered font whose name matches case-insensitively. */
  function FindFont(fonts: seq<string>, name: string): (r: Option<nat>)
    ensures r.Some? ==> r.value < |fonts| && EqualsNoCase(fonts[r.value], name)
    ensures r.Some? ==> forall j :: 0 <= j < r.value ==> !EqualsNoCase(fonts[j], name)
    ensures r.None? <==> forall j :: 0 <= j < |fonts| ==> !EqualsNoCase(fonts[j], name)
  {
    if fonts == [] then None
    else if EqualsNoCase(fonts[0], name) then Some(0)
    else match FindFont(fonts[1..], name)
      case None => None
      case Some(k) => Some(k + 1)
  }

  /** A name just appended is found at its own index from then on. */
  lemma FindFontAfterAppend(fonts: seq<string>, name: string, other: string)
    requires FindFont(fonts, name).None?
    requires EqualsNoCase(other, name)
    ensures FindFont(fonts + [name], other) == Some(|fonts|)
  {
    var all := fonts + [name];
    forall j | 0 <= j < |fonts|
      ensures !EqualsNoCase(all[j], other)
    {
      assert all[j] == fonts[j];
      if EqualsNoCase(fonts[j], other) {
        EqualsNoCaseTrans(fonts[j], other, name);
      }
    }
    assert EqualsNoCase(all[|fonts|], other) by {
      forall i | 0 <= i < |name| ensures ToLower(name[i]) == ToLower(other[i]) { }
    }
  }

  lemma EqualsNoCaseTrans(a: seq<char>, b: seq<char>, c: seq<char>)
    requires EqualsNoCase(a, b) && EqualsNoCase(b, c)
    ensures EqualsNoCase(a, c)
  {
  }

  // ------------------------------------------------------------------
  // The render system
  // ------------------------------------------------------------------

  class RenderSystemLocal {
    const smpFrameData: seq<FrameData>
    var smpFrame: nat
    var frameData: FrameData
    const renderCrops: array<ScreenRect>
    var currentRenderCrop: int
    var frameCount: int
    var initialized: bool
    /** m_fonts, by name. */
    var fonts: seq<string>

    /**
     * The render system with its frame buffers at the given addresses, after
     * InitFrameData: buffer 0 is made current and toggled once, and the crop
     * stack holds one entry.
     */
    constructor (baseAddresses: seq<nat>)
      requires |baseAddresses| == NUM_FRAME_DATA
      ensures Valid() && !initialized && fonts == [] && frameCount == 0
      ensures smpFrame == 1 && currentRenderCrop == 0
      ensures Commands() == [RenderCommand(BytesNeededForAlignment(frameData.baseAddress), RC_NOP)]
    {
      var f0 := new FrameData(baseAddresses[0]);
      var f1 := new FrameData(baseAddresses[1]);
      smpFrameData := [f0, f1];
      smpFrame := 0;
      frameData := f0;
      renderCrops := new ScreenRect[MAX_RENDER_CROPS](_ => ScreenRect(0, 0, 0, 0));
      currentRenderCrop := 0;
      frameCount := 0;
      initialized := false;
      fonts := [];
      new;
      ToggleSmpFrame();
    }

    ghost predicate Valid()
      reads this, smpFrameData, frameData
    {
      |smpFrameData| == NUM_FRAME_DATA &&
      smpFrame <= UINT32_MAX &&
      frameData == smpFrameData[smpFrame % NUM_FRAME_DATA] &&
      (forall k :: 0 <= k < |smpFrameData| ==> smpFrameData[k].Valid()) &&
      renderCrops.Length == MAX_RENDER_CROPS &&
      0 <= currentRenderCrop < MAX_RENDER_CROPS
    }

    /** The current cropped viewport (GetCroppedViewport). */
    function CroppedViewport(): ScreenRect
      reads this, renderCrops
      requires 0 <= currentRenderCrop < renderCrops.Length
    {
      renderCrops[currentRenderCrop]
    }

    /** The command chain of the current frame. */
    function Commands(): seq<RenderCommand>
      reads this, frameData
    {
      frameData.commands
    }

    /**
     * ToggleSmpFrame: the finished frame's high-water mark becomes the max of
     * itself and what it allocated; the frame counter (a uint32) moves on
     * and selects buffer smpFrame mod NUM_FRAME_DATA, whose counter restarts
     * after the alignment padding and whose chain is a single RC_NOP, placed
     * directly after that padding.
     */
    method ToggleSmpFrame()
      requires Valid()
      modifies smpFrameData, smpFrameData[0].frameMemory, smpFrameData[1].frameMemory, this
      ensures Valid()
      ensures old(frameData).highWaterAllocated ==
        Max(old(frameData.highWaterAllocated), old(frameData.frameMemoryAllocated))
      ensures smpFrame == (old(smpFrame) + 1) % (UINT32_MAX + 1)
      ensures frameData == smpFrameData[smpFrame % NUM_FRAME_DATA]
      ensures frameData.frameMemoryAllocated ==
        BytesNeededForAlignment(frameData.baseAddress) + FrameAllocSize(RENDER_COMMAND_SIZE)
      ensures Commands() == [RenderCommand(BytesNeededForAlignment(frameData.baseAddress), RC_NOP)]
      ensures currentRenderCrop == old(currentRenderCrop) && frameCount == old(frameCount)
      ensures fonts == old(fonts) && initialized == old(initialized)
      ensures renderCrops[..] == old(renderCrops[..])
    {
      frameData.RecordHighWater();
      smpFrame := (smpFrame + 1) % (UINT32_MAX + 1);
      frameData := smpFrameData[smpFrame % NUM_FRAME_DATA];
      frameData.Restart();
    }

    /**
     * GetCommandBuffer: a cleared block of frame memory linked after the
     * tail of the chain, so the chain keeps insertion order. Its id reads
     * RC_NOP until the caller fills it in. Running out of frame memory is
     * the FrameAlloc Error and links nothing.
     */
    method GetCommandBuffer(bytes: nat) returns (ok: bool, cmd: RenderCommand)
      requires Valid()
      modifies frameData, frameData.frameMemory
      ensures Valid()
      ensures ok <==> old(frameData.frameMemoryAllocated) + FrameAllocSize(bytes) <= MAX_FRAME_MEMORY
      ensures ok ==> cmd == RenderCommand(old(frameData.frameMemoryAllocated), RC_NOP) &&
                     Commands() == old(Commands()) + [cmd]
      ensures !ok ==> Commands() == old(Commands())
      ensures frameData.frameMemoryAllocated == old(frameData.frameMemoryAllocated) + FrameAllocSize(bytes)
    {
      var ptr;
      ok, ptr := frameData.FrameAlloc(bytes);
      cmd := RenderCommand(ptr, RC_NOP);
      if ok {
        frameData.commands := frameData.commands + [cmd];
      }
    }

    /**
     * CropRenderSize: ignored before initialisation, an Error for a width or
     * height below 1, and otherwise a push of the crop of the given size
     * anchored at the current crop's bottom-left corner. Pushing past the
     * last entry of m_renderCrops is an Error here (see CropOverrunsAsWritten).
     */
    method CropRenderSize(width: int, height: int) returns (status: Status)
      requires Valid()
      modifies this, renderCrops
      ensures Valid()
      ensures !old(initialized) ==> status == Ignored
      ensures (old(initialized) && (width < 1 || height < 1 ||
                                    old(currentRenderCrop) + 1 >= MAX_RENDER_CROPS)) ==> status == Failed
      ensures status == Done <==> (old(initialized) && width >= 1 && height >= 1 &&
                                   old(currentRenderCrop) + 1 < MAX_RENDER_CROPS)
      ensures status != Done ==> (currentRenderCrop == old(currentRenderCrop) &&
                                  renderCrops[..] == old(renderCrops[..]))
      ensures status == Done ==> (currentRenderCrop == old(currentRenderCrop) + 1 &&
                                  renderCrops[..] == old(renderCrops[..])[currentRenderCrop :=
                                    CropOf(old(renderCrops[currentRenderCrop]), width, height)])
      ensures smpFrame == old(smpFrame) && frameData == old(frameData) && frameCount == old(frameCount)
      ensures fonts == old(fonts) && initialized == old(initialized)
    {
      if !initialized {
        return Ignored;
      }
      if width < 1 || height < 1 || currentRenderCrop + 1 >= MAX_RENDER_CROPS {
        return Failed;
      }
      var previous := renderCrops[currentRenderCrop];
      currentRenderCrop := currentRenderCrop + 1;
      renderCrops[currentRenderCrop] := CropOf(previous, width, height);
      status := Done;
    }

    /** UnCrop: ignored before initialisation, an Error at depth 0, else one level popped. */
    method UnCrop() returns (status: Status)
      requires Valid()
      modifies this
      ensures Valid()
      ensures !old(initialized) ==> status == Ignored
      ensures old(initialized) && old(currentRenderCrop) < 1 ==> status == Failed
      ensures status == Done <==> old(initialized) && old(currentRenderCrop) >= 1
      ensures currentRenderCrop == old(currentRenderCrop) - (if status == Done then 1 else 0)
      ensures smpFrame == old(smpFrame) && frameData == old(frameData) && frameCount == old(frameCount)
      ensures fonts == old(fonts) && initialized == old(initialized)
    {
      if !initialized {
        return Ignored;
      }
      if currentRenderCrop < 1 {
        return Failed;
      }
      currentRenderCrop := currentRenderCrop - 1;
      status := Done;
    }

    /**
     * SwapCommandBuffers_FinishCommandBuffers: nothing (NULL) before
     * initialisation; otherwise the finished frame's command chain is handed
     * back, the frame buffers toggle, the crop stack is reset to the whole
     * screen and the frame counter moves on.
     */
    method FinishCommandBuffers(screenWidth: int, screenHeight: int) returns (head: Option<seq<RenderCommand>>)
      requires Valid()
      modifies smpFrameData, smpFrameData[0].frameMemory, smpFrameData[1].frameMemory, this, renderCrops
      ensures Valid()
      ensures !old(initialized) ==> head.None? && smpFrame == old(smpFrame) && frameData == old(frameData) &&
                                    Commands() == old(Commands()) && frameCount == old(frameCount) &&
                                    currentRenderCrop == old(currentRenderCrop) && renderCrops[..] == old(renderCrops[..])
      ensures old(initialized) ==> head == Some(old(Commands()))
      ensures old(initialized) ==> currentRenderCrop == 0 &&
                                   CroppedViewport() == ScreenRect(0, 0, screenWidth - 1, screenHeight - 1) &&
                                   RectWidth(CroppedViewport()) == screenWidth && RectHeight(CroppedViewport()) == screenHeight
      ensures old(initialized) ==> frameCount == old(frameCount) + 1 && smpFrame == (old(smpFrame) + 1) % (UINT32_MAX + 1)
      ensures old(initialized) ==> Commands() == [RenderCommand(BytesNeededForAlignment(frameData.baseAddress), RC_NOP)]
      ensures fonts == old(fonts) && initialized == old(initialized)
    {
      if !initialized {
        return None;
      }
      head := Some(frameData.commands);
      ToggleSmpFrame();
      renderCrops[0] := ScreenRect(0, 0, screenWidth - 1, screenHeight - 1);
      currentRenderCrop := 0;
      frameCount := frameCount + 1;
    }

    /**
     * RegisterFont: the name without "fonts/"; an already registered font
     * with that name in any letter case is returned, else a new one is
     * appended and returned.
     */
    method RegisterFont(fontName: string) returns (index: nat)
      modifies this
      ensures var base := StripFontsDir(fontName);
        match FindFont(old(fonts), base)
        case Some(k) => index == k && fonts == old(fonts)
        case None => index == |old(fonts)| && fonts == old(fonts) + [base]
      ensures index < |fonts| && EqualsNoCase(fonts[index], StripFontsDir(fontName))
      ensures smpFrame == old(smpFrame) && frameData == old(frameData) && frameCount == old(frameCount)
      ensures currentRenderCrop == old(currentRenderCrop) && initialized == old(initialized)
    {
      var base := StripFontsDir(fontName);
      var i := 0;
      while i < |fonts|
        invariant i <= |fonts|
        invariant forall j :: 0 <= j < i ==> !EqualsNoCase(fonts[j], base)
      {
        if EqualsNoCase(fonts[i], base) {
          return i;
        }
        i := i + 1;
      }
      index := |fonts|;
      fonts := fonts + [base];
    }
  }
}
