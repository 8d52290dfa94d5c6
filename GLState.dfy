/**
 * The 64-bit render state word ("GLS_" bits) that both backends decode into
 * pipeline or GL state.  The header that fixes the bit positions is not part
 * of this model; the layout below is one concrete choice of disjoint fields
 * that agrees with every use the renderer makes of them: code 0 of each
 * field is its default, the back-face stencil operations sit 12 bits above
 * the front ones, and a non-KEEP back operation makes the stencil two-sided.
 */
module GLState {

  // Blend factors: source in bits 0-2, destination in bits 3-5.  The code
  // 0 is ONE for the source and ZERO for the destination, so a state of 0
  // means "no blending".
  const GLS_SRCBLEND_ONE: bv64 := 0x0
  const GLS_SRCBLEND_ZERO: bv64 := 0x1
  const GLS_SRCBLEND_DST_COLOR: bv64 := 0x2
  const GLS_SRCBLEND_ONE_MINUS_DST_COLOR: bv64 := 0x3
  const GLS_SRCBLEND_SRC_ALPHA: bv64 := 0x4
  const GLS_SRCBLEND_ONE_MINUS_SRC_ALPHA: bv64 := 0x5
  const GLS_SRCBLEND_DST_ALPHA: bv64 := 0x6
  const GLS_SRCBLEND_ONE_MINUS_DST_ALPHA: bv64 := 0x7
  const GLS_SRCBLEND_BITS: bv64 := 0x7
  const GLS_DSTBLEND_ZERO: bv64 := 0x0
  const GLS_DSTBLEND_ONE: bv64 := 0x8
  const GLS_DSTBLEND_SRC_COLOR: bv64 := 0x10
  const GLS_DSTBLEND_ONE_MINUS_SRC_COLOR: bv64 := 0x18
  const GLS_DSTBLEND_SRC_ALPHA: bv64 := 0x20
  const GLS_DSTBLEND_ONE_MINUS_SRC_ALPHA: bv64 := 0x28
  const GLS_DSTBLEND_DST_ALPHA: bv64 := 0x30
  const GLS_DSTBLEND_ONE_MINUS_DST_ALPHA: bv64 := 0x38
  const GLS_DSTBLEND_BITS: bv64 := 0x38

  // Single-bit switches.  A set colour-mask bit stops writes to that channel.
  const GLS_DEPTHMASK: bv64 := 0x40
  const GLS_REDMASK: bv64 := 0x80
  const GLS_GREENMASK: bv64 := 0x100
  const GLS_BLUEMASK: bv64 := 0x200
  const GLS_ALPHAMASK: bv64 := 0x400
  const GLS_POLYMODE_LINE: bv64 := 0x800
  const GLS_POLYGON_OFFSET: bv64 := 0x1000
  const GLS_COLORMASK: bv64 := GLS_REDMASK | GLS_GREENMASK | GLS_BLUEMASK

  // Depth function, bits 13-14.
  const GLS_DEPTHFUNC_LESS: bv64 := 0x0
  const GLS_DEPTHFUNC_ALWAYS: bv64 := 0x2000
  const GLS_DEPTHFUNC_GREATER: bv64 := 0x4000
  const GLS_DEPTHFUNC_EQUAL: bv64 := 0x6000
  const GLS_DEPTHFUNC_BITS: bv64 := 0x6000

  // Face culling, bits 15-16, and the mirror flag the backends add, bit 17.
  const GLS_CULL_FRONTSIDED: bv64 := 0x0
  const GLS_CULL_BACKSIDED: bv64 := 0x8000
  const GLS_CULL_TWOSIDED: bv64 := 0x10000
  const GLS_CULL_BITS: bv64 := 0x18000
  const GLS_CULL_MASK: bv64 := GLS_CULL_BITS
  const GLS_MIRROR_VIEW: bv64 := 0x20000

  // Blend equation, bits 18-19.
  const GLS_BLENDOP_ADD: bv64 := 0x0
  const GLS_BLENDOP_SUB: bv64 := 0x40000
  const GLS_BLENDOP_MIN: bv64 := 0x80000
  const GLS_BLENDOP_MAX: bv64 := 0xC0000
  const GLS_BLENDOP_BITS: bv64 := 0xC0000

  // Stencil reference (bits 20-27), compare mask (bits 28-35) and
  // compare function (bits 36-38).
  const GLS_STENCIL_FUNC_REF_SHIFT: bv64 := 20
  const GLS_STENCIL_FUNC_REF_BITS: bv64 := 0xFF00000
  const GLS_STENCIL_FUNC_MASK_SHIFT: bv64 := 28
  const GLS_STENCIL_FUNC_MASK_BITS: bv64 := 0xFF0000000
  const GLS_STENCIL_FUNC_ALWAYS: bv64 := 0x0
  const GLS_STENCIL_FUNC_LESS: bv64 := 0x1000000000
  const GLS_STENCIL_FUNC_LEQUAL: bv64 := 0x2000000000
  const GLS_STENCIL_FUNC_GREATER: bv64 := 0x3000000000
  const GLS_STENCIL_FUNC_GEQUAL: bv64 := 0x4000000000
  const GLS_STENCIL_FUNC_EQUAL: bv64 := 0x5000000000
  const GLS_STENCIL_FUNC_NOTEQUAL: bv64 := 0x6000000000
  const GLS_STENCIL_FUNC_NEVER: bv64 := 0x7000000000
  const GLS_STENCIL_FUNC_BITS: bv64 := 0x7000000000

  // Front (or both-face) stencil operations: fail in bits 39-41, depth
  // fail in bits 42-44, pass in bits 45-47.
  const GLS_STENCIL_OP_FAIL_KEEP: bv64 := 0x0
  const GLS_STENCIL_OP_FAIL_ZERO: bv64 := 0x8000000000
  const GLS_STENCIL_OP_FAIL_REPLACE: bv64 := 0x10000000000
  const GLS_STENCIL_OP_FAIL_INCR: bv64 := 0x18000000000
  const GLS_STENCIL_OP_FAIL_DECR: bv64 := 0x20000000000
  const GLS_STENCIL_OP_FAIL_INVERT: bv64 := 0x28000000000
  const GLS_STENCIL_OP_FAIL_INCR_WRAP: bv64 := 0x30000000000
  const GLS_STENCIL_OP_FAIL_DECR_WRAP: bv64 := 0x38000000000
  const GLS_STENCIL_OP_FAIL_BITS: bv64 := 0x38000000000
  const GLS_STENCIL_OP_ZFAIL_KEEP: bv64 := 0x0
  const GLS_STENCIL_OP_ZFAIL_ZERO: bv64 := 0x40000000000
  const GLS_STENCIL_OP_ZFAIL_REPLACE: bv64 := 0x80000000000
  const GLS_STENCIL_OP_ZFAIL_INCR: bv64 := 0xC0000000000
  const GLS_STENCIL_OP_ZFAIL_DECR: bv64 := 0x100000000000
  const GLS_STENCIL_OP_ZFAIL_INVERT: bv64 := 0x140000000000
  const GLS_STENCIL_OP_ZFAIL_INCR_WRAP: bv64 := 0x180000000000
  const GLS_STENCIL_OP_ZFAIL_DECR_WRAP: bv64 := 0x1C0000000000
  const GLS_STENCIL_OP_ZFAIL_BITS: bv64 := 0x1C0000000000
  const GLS_STENCIL_OP_PASS_KEEP: bv64 := 0x0
  const GLS_STENCIL_OP_PASS_ZERO: bv64 := 0x200000000000
  const GLS_STENCIL_OP_PASS_REPLACE: bv64 := 0x400000000000
  const GLS_STENCIL_OP_PASS_INCR: bv64 := 0x600000000000
  const GLS_STENCIL_OP_PASS_DECR: bv64 := 0x800000000000
  const GLS_STENCIL_OP_PASS_INVERT: bv64 := 0xA00000000000
  const GLS_STENCIL_OP_PASS_INCR_WRAP: bv64 := 0xC00000000000
  const GLS_STENCIL_OP_PASS_DECR_WRAP: bv64 := 0xE00000000000
  const GLS_STENCIL_OP_PASS_BITS: bv64 := 0xE00000000000
  const GLS_STENCIL_OP_BITS: bv64 := GLS_STENCIL_OP_FAIL_BITS | GLS_STENCIL_OP_ZFAIL_BITS | GLS_STENCIL_OP_PASS_BITS
  const GLS_STENCIL_FRONT_OPS: bv64 := GLS_STENCIL_OP_BITS

  // Depth-bounds test and winding order.
  const GLS_DEPTH_TEST_MASK: bv64 := 0x1000000000000
  const GLS_CLOCKWISE: bv64 := 0x2000000000000

  // Back-face stencil operations, exactly 12 bits above the front ones
  // (bits 51-59), so that shifting them right by 12 lines them up with the
  // front fields.  Any non-KEEP back operation makes the stencil two-sided.
  const GLS_BACK_STENCIL_OP_FAIL_KEEP: bv64 := 0x0
  const GLS_BACK_STENCIL_OP_FAIL_ZERO: bv64 := 0x8000000000000
  const GLS_BACK_STENCIL_OP_FAIL_REPLACE: bv64 := 0x10000000000000
  const GLS_BACK_STENCIL_OP_FAIL_INCR: bv64 := 0x18000000000000
  const GLS_BACK_STENCIL_OP_FAIL_DECR: bv64 := 0x20000000000000
  const GLS_BACK_STENCIL_OP_FAIL_INVERT: bv64 := 0x28000000000000
  const GLS_BACK_STENCIL_OP_FAIL_INCR_WRAP: bv64 := 0x30000000000000
  const GLS_BACK_STENCIL_OP_FAIL_DECR_WRAP: bv64 := 0x38000000000000
  const GLS_BACK_STENCIL_OP_FAIL_BITS: bv64 := 0x38000000000000
  const GLS_BACK_STENCIL_OP_ZFAIL_KEEP: bv64 := 0x0
  const GLS_BACK_STENCIL_OP_ZFAIL_ZERO: bv64 := 0x40000000000000
  const GLS_BACK_STENCIL_OP_ZFAIL_REPLACE: bv64 := 0x80000000000000
  const GLS_BACK_STENCIL_OP_ZFAIL_INCR: bv64 := 0xC0000000000000
  const GLS_BACK_STENCIL_OP_ZFAIL_DECR: bv64 := 0x100000000000000
  const GLS_BACK_STENCIL_OP_ZFAIL_INVERT: bv64 := 0x140000000000000
  const GLS_BACK_STENCIL_OP_ZFAIL_INCR_WRAP: bv64 := 0x180000000000000
  const GLS_BACK_STENCIL_OP_ZFAIL_DECR_WRAP: bv64 := 0x1C0000000000000
  const GLS_BACK_STENCIL_OP_ZFAIL_BITS: bv64 := 0x1C0000000000000
  const GLS_BACK_STENCIL_OP_PASS_KEEP: bv64 := 0x0
  const GLS_BACK_STENCIL_OP_PASS_ZERO: bv64 := 0x200000000000000
  const GLS_BACK_STENCIL_OP_PASS_REPLACE: bv64 := 0x400000000000000
  const GLS_BACK_STENCIL_OP_PASS_INCR: bv64 := 0x600000000000000
  const GLS_BACK_STENCIL_OP_PASS_DECR: bv64 := 0x800000000000000
  const GLS_BACK_STENCIL_OP_PASS_INVERT: bv64 := 0xA00000000000000
  const GLS_BACK_STENCIL_OP_PASS_INCR_WRAP: bv64 := 0xC00000000000000
  const GLS_BACK_STENCIL_OP_PASS_DECR_WRAP: bv64 := 0xE00000000000000
  const GLS_BACK_STENCIL_OP_PASS_BITS: bv64 := 0xE00000000000000
  const GLS_STENCIL_BACK_OPS: bv64 := GLS_BACK_STENCIL_OP_FAIL_BITS | GLS_BACK_STENCIL_OP_ZFAIL_BITS | GLS_BACK_STENCIL_OP_PASS_BITS
  const GLS_SEPARATE_STENCIL: bv64 := GLS_STENCIL_BACK_OPS

  // Bits that survive a state change, the material override flag and the
  // default state.
  const GLS_KEEP: bv64 := GLS_DEPTH_TEST_MASK
  const GLS_OVERRIDE: bv64 := 0x8000000000000000
  const GLS_DEFAULT: bv64 := 0

  /** API-neutral meaning of the fields, shared by both backends. */
  datatype BlendFactor =
    | BF_ZERO | BF_ONE | BF_SRC_COLOR | BF_ONE_MINUS_SRC_COLOR | BF_DST_COLOR
    | BF_ONE_MINUS_DST_COLOR | BF_SRC_ALPHA | BF_ONE_MINUS_SRC_ALPHA
    | BF_DST_ALPHA | BF_ONE_MINUS_DST_ALPHA
  datatype BlendOp = BLEND_ADD | BLEND_SUBTRACT | BLEND_MIN | BLEND_MAX
  datatype CompareOp =
    | NEVER | LESS | EQUAL | LESS_OR_EQUAL | GREATER | NOT_EQUAL
    | GREATER_OR_EQUAL | ALWAYS
  datatype StencilOp =
    | KEEP | ZERO | REPLACE | INCREMENT_AND_CLAMP | DECREMENT_AND_CLAMP
    | INVERT | INCREMENT_AND_WRAP | DECREMENT_AND_WRAP
  datatype StencilOps = StencilOps(failOp: StencilOp, depthFailOp: StencilOp, passOp: StencilOp)
  datatype CullMode = CULL_NONE | CULL_FRONT | CULL_BACK

  /** Source blend factor; a code outside the table leaves the default ONE. */
  function SrcBlend(s: bv64): (r: BlendFactor)
    ensures r == BF_ONE <==> s & GLS_SRCBLEND_BITS == GLS_SRCBLEND_ONE
    ensures r != BF_SRC_COLOR && r != BF_ONE_MINUS_SRC_COLOR
  {
    var f := s & GLS_SRCBLEND_BITS;
    if f == GLS_SRCBLEND_ZERO then BF_ZERO
    else if f == GLS_SRCBLEND_ONE then BF_ONE
    else if f == GLS_SRCBLEND_DST_COLOR then BF_DST_COLOR
    else if f == GLS_SRCBLEND_ONE_MINUS_DST_COLOR then BF_ONE_MINUS_DST_COLOR
    else if f == GLS_SRCBLEND_SRC_ALPHA then BF_SRC_ALPHA
    else if f == GLS_SRCBLEND_ONE_MINUS_SRC_ALPHA then BF_ONE_MINUS_SRC_ALPHA
    else if f == GLS_SRCBLEND_DST_ALPHA then BF_DST_ALPHA
    else if f == GLS_SRCBLEND_ONE_MINUS_DST_ALPHA then BF_ONE_MINUS_DST_ALPHA
    else BF_ONE
  }

  /** Destination blend factor; a code outside the table leaves the default ZERO. */
  function DstBlend(s: bv64): (r: BlendFactor)
    ensures r == BF_ZERO <==> s & GLS_DSTBLEND_BITS == GLS_DSTBLEND_ZERO
    ensures r != BF_DST_COLOR && r != BF_ONE_MINUS_DST_COLOR
  {
    var f := s & GLS_DSTBLEND_BITS;
    if f == GLS_DSTBLEND_ZERO then BF_ZERO
    else if f == GLS_DSTBLEND_ONE then BF_ONE
    else if f == GLS_DSTBLEND_SRC_COLOR then BF_SRC_COLOR
    else if f == GLS_DSTBLEND_ONE_MINUS_SRC_COLOR then BF_ONE_MINUS_SRC_COLOR
    else if f == GLS_DSTBLEND_SRC_ALPHA then BF_SRC_ALPHA
    else if f == GLS_DSTBLEND_ONE_MINUS_SRC_ALPHA then BF_ONE_MINUS_SRC_ALPHA
    else if f == GLS_DSTBLEND_DST_ALPHA then BF_DST_ALPHA
    else if f == GLS_DSTBLEND_ONE_MINUS_DST_ALPHA then BF_ONE_MINUS_DST_ALPHA
    else BF_ZERO
  }

  /** Blending is switched on unless the factors are the pass-through pair. */
  predicate BlendEnabled(s: bv64)
  {
    SrcBlend(s) != BF_ONE || DstBlend(s) != BF_ZERO
  }

  /** Blending is off exactly for the state whose two blend fields are 0. */
  lemma BlendDisabledIffDefaultFactors(s: bv64)
    ensures !BlendEnabled(s) <==> s & (GLS_SRCBLEND_BITS | GLS_DSTBLEND_BITS) == 0
  {
    assert s & (GLS_SRCBLEND_BITS | GLS_DSTBLEND_BITS)
      == (s & GLS_SRCBLEND_BITS) | (s & GLS_DSTBLEND_BITS);
  }

  /** Blend equation; every code of the two-bit field is in the table. */
  function BlendOpOf(s: bv64): (r: BlendOp)
    ensures r == BLEND_ADD <==> s & GLS_BLENDOP_BITS == GLS_BLENDOP_ADD
  {
    var f := s & GLS_BLENDOP_BITS;
    if f == GLS_BLENDOP_MIN then BLEND_MIN
    else if f == GLS_BLENDOP_MAX then BLEND_MAX
    else if f == GLS_BLENDOP_ADD then BLEND_ADD
    else if f == GLS_BLENDOP_SUB then BLEND_SUBTRACT
    else BLEND_ADD
  }

  /**
   * Depth comparison: LESS and GREATER are widened to their "or equal"
   * forms, so surfaces drawn twice at the same depth still pass.
   */
  function DepthFunc(s: bv64): (r: CompareOp)
    ensures r in {EQUAL, ALWAYS, LESS_OR_EQUAL, GREATER_OR_EQUAL}
    ensures r == ALWAYS <==> s & GLS_DEPTHFUNC_BITS == GLS_DEPTHFUNC_ALWAYS
  {
    var f := s & GLS_DEPTHFUNC_BITS;
    if f == GLS_DEPTHFUNC_EQUAL then EQUAL
    else if f == GLS_DEPTHFUNC_ALWAYS then ALWAYS
    else if f == GLS_DEPTHFUNC_LESS then LESS_OR_EQUAL
    else if f == GLS_DEPTHFUNC_GREATER then GREATER_OR_EQUAL
    else ALWAYS
  }

  /** Stencil comparison function; the field's code 0 is ALWAYS. */
  function StencilFunc(s: bv64): (r: CompareOp)
    ensures r == ALWAYS <==> s & GLS_STENCIL_FUNC_BITS == GLS_STENCIL_FUNC_ALWAYS
    ensures r == StencilFuncOfCode((s & GLS_STENCIL_FUNC_BITS) >> 36)
  {
    var f := s & GLS_STENCIL_FUNC_BITS;
    if f == GLS_STENCIL_FUNC_NEVER then NEVER
    else if f == GLS_STENCIL_FUNC_LESS then LESS
    else if f == GLS_STENCIL_FUNC_EQUAL then EQUAL
    else if f == GLS_STENCIL_FUNC_LEQUAL then LESS_OR_EQUAL
    else if f == GLS_STENCIL_FUNC_GREATER then GREATER
    else if f == GLS_STENCIL_FUNC_NOTEQUAL then NOT_EQUAL
    else if f == GLS_STENCIL_FUNC_GEQUAL then GREATER_OR_EQUAL
    else ALWAYS
  }

  /** The table of stencil functions by code (the field shifted down). */
  function StencilFuncOfCode(c: bv64): CompareOp
  {
    if c == 1 then LESS else if c == 2 then LESS_OR_EQUAL
    else if c == 3 then GREATER else if c == 4 then GREATER_OR_EQUAL
    else if c == 5 then EQUAL else if c == 6 then NOT_EQUAL
    else if c == 7 then NEVER else ALWAYS
  }

  /** The code of each stencil function. */
  function StencilFuncCode(op: CompareOp): (c: bv64)
    ensures c < 8
    ensures StencilFuncOfCode(c) == op
  {
    match op
    case ALWAYS => 0
    case LESS => 1
    case LESS_OR_EQUAL => 2
    case GREATER => 3
    case GREATER_OR_EQUAL => 4
    case EQUAL => 5
    case NOT_EQUAL => 6
    case NEVER => 7
  }

  /** Every stencil function is expressible and no two share a code. */
  lemma StencilFuncCodeRoundTrip(c: bv64)
    requires c < 8
    ensures StencilFuncCode(StencilFuncOfCode(c)) == c
  {
  }

  /** The table of stencil operations by code. */
  function StencilOpOfCode(c: bv64): StencilOp
  {
    if c == 1 then ZERO else if c == 2 then REPLACE
    else if c == 3 then INCREMENT_AND_CLAMP else if c == 4 then DECREMENT_AND_CLAMP
    else if c == 5 then INVERT else if c == 6 then INCREMENT_AND_WRAP
    else if c == 7 then DECREMENT_AND_WRAP else KEEP
  }

  /** The code of each stencil operation. */
  function StencilOpCode(op: StencilOp): (c: bv64)
    ensures c < 8
    ensures StencilOpOfCode(c) == op
  {
    match op
    case KEEP => 0
    case ZERO => 1
    case REPLACE => 2
    case INCREMENT_AND_CLAMP => 3
    case DECREMENT_AND_CLAMP => 4
    case INVERT => 5
    case INCREMENT_AND_WRAP => 6
    case DECREMENT_AND_WRAP => 7
  }

  lemma StencilOpCodeRoundTrip(c: bv64)
    requires c < 8
    ensures StencilOpCode(StencilOpOfCode(c)) == c
  {
  }

  /**
   * The three front stencil operations of a state word: each field is
   * looked up in the eight-entry operation table.
   */
  function GetStencilOpState(bits: bv64): (r: StencilOps)
    ensures r.failOp == StencilOpOfCode((bits & GLS_STENCIL_OP_FAIL_BITS) >> 39)
    ensures r.depthFailOp == StencilOpOfCode((bits & GLS_STENCIL_OP_ZFAIL_BITS) >> 42)
    ensures r.passOp == StencilOpOfCode((bits & GLS_STENCIL_OP_PASS_BITS) >> 45)
  {
    StencilOps(StencilOpOfCode((bits & GLS_STENCIL_OP_FAIL_BITS) >> 39),
               StencilOpOfCode((bits & GLS_STENCIL_OP_ZFAIL_BITS) >> 42),
               StencilOpOfCode((bits & GLS_STENCIL_OP_PASS_BITS) >> 45))
  }

  /** The state word that sets exactly the given front stencil operations. */
  function StencilOpBits(ops: StencilOps): (r: bv64)
    ensures r & GLS_STENCIL_OP_BITS == r
  {
    (StencilOpCode(ops.failOp) << 39) | (StencilOpCode(ops.depthFailOp) << 42)
      | (StencilOpCode(ops.passOp) << 45)
  }

  /** Decoding the encoded front operations gives them back. */
  lemma StencilOpsRoundTrip(ops: StencilOps)
    ensures GetStencilOpState(StencilOpBits(ops)) == ops
  {
    var f, z, p := StencilOpCode(ops.failOp), StencilOpCode(ops.depthFailOp), StencilOpCode(ops.passOp);
    var r := StencilOpBits(ops);
    assert (r & GLS_STENCIL_OP_FAIL_BITS) >> 39 == f;
    assert (r & GLS_STENCIL_OP_ZFAIL_BITS) >> 42 == z;
    assert (r & GLS_STENCIL_OP_PASS_BITS) >> 45 == p;
  }

  /**
   * Back-face operations are stored 12 bits above the front ones: moving a
   * front encoding into the back fields and shifting it down again, as the
   * pipeline decoder does, decodes to the same operations.
   */
  lemma BackStencilOpsRoundTrip(ops: StencilOps)
    ensures GetStencilOpState((StencilOpBits(ops) << 12) >> 12) == ops
    ensures (StencilOpBits(ops) << 12) & GLS_STENCIL_BACK_OPS == StencilOpBits(ops) << 12
  {
    var r := StencilOpBits(ops);
    assert (r << 12) >> 12 == r;
    StencilOpsRoundTrip(ops);
  }

  /** Stencil reference value, an 8-bit field. */
  function StencilRef(s: bv64): (r: nat)
    ensures r < 256
  {
    ((s & GLS_STENCIL_FUNC_REF_BITS) >> GLS_STENCIL_FUNC_REF_SHIFT) as nat
  }

  /** Stencil compare mask, an 8-bit field. */
  function StencilMask(s: bv64): (r: nat)
    ensures r < 256
  {
    ((s & GLS_STENCIL_FUNC_MASK_BITS) >> GLS_STENCIL_FUNC_MASK_SHIFT) as nat
  }

  /** GLS_STENCIL_MAKE_REF: place a value in the reference field. */
  function StencilMakeRef(x: bv64): (r: bv64)
    ensures r & GLS_STENCIL_FUNC_REF_BITS == r
  {
    (x << GLS_STENCIL_FUNC_REF_SHIFT) & GLS_STENCIL_FUNC_REF_BITS
  }

  /** GLS_STENCIL_MAKE_MASK: place a value in the compare-mask field. */
  function StencilMakeMask(x: bv64): (r: bv64)
    ensures r & GLS_STENCIL_FUNC_MASK_BITS == r
  {
    (x << GLS_STENCIL_FUNC_MASK_SHIFT) & GLS_STENCIL_FUNC_MASK_BITS
  }

  /** An 8-bit reference or mask value survives the trip through its field. */
  lemma StencilRefMaskRoundTrip(x: bv64)
    requires x < 256
    ensures StencilRef(StencilMakeRef(x)) == x as nat
    ensures StencilMask(StencilMakeMask(x)) == x as nat
  {
  }

  /**
   * Face culling.  Two-sided surfaces are not culled; otherwise the culled
   * face is the one the state names, swapped when the view is mirrored.
   * The default branch treats any other code as front-sided.
   */
  function Cull(s: bv64, mirror: bool): (r: CullMode)
    ensures r == CULL_NONE <==> s & GLS_CULL_BITS == GLS_CULL_TWOSIDED
  {
    var f := s & GLS_CULL_BITS;
    if f == GLS_CULL_TWOSIDED then CULL_NONE
    else if f == GLS_CULL_BACKSIDED then (if mirror then CULL_FRONT else CULL_BACK)
    else (if mirror then CULL_BACK else CULL_FRONT)
  }

  /** A mirrored view culls the opposite face of an unmirrored one. */
  lemma CullMirrorSwaps(s: bv64)
    ensures Cull(s, true) == CULL_FRONT <==> Cull(s, false) == CULL_BACK
    ensures Cull(s, true) == CULL_BACK <==> Cull(s, false) == CULL_FRONT
  {
  }

  /** The stencil test runs exactly when a stencil function or front operation is set. */
  predicate StencilTestEnabled(s: bv64)
  {
    s & (GLS_STENCIL_FUNC_BITS | GLS_STENCIL_OP_BITS) != 0
  }

  /** The stencil fields: front operations, function, reference and mask. */
  const STENCIL_STATE_BITS: bv64 :=
    GLS_STENCIL_OP_BITS | GLS_STENCIL_FUNC_BITS | GLS_STENCIL_FUNC_REF_BITS | GLS_STENCIL_FUNC_MASK_BITS

  /**
   * GL_GetCurrentStateMinusStencil: the state with the stencil operation,
   * function, reference and mask fields cleared and every other bit kept.
   */
  function StateMinusStencil(s: bv64): (r: bv64)
    ensures r & STENCIL_STATE_BITS == 0
    ensures r & !STENCIL_STATE_BITS == s & !STENCIL_STATE_BITS
  {
    s & !STENCIL_STATE_BITS
  }

  /**
   * Clearing the stencil fields disables the stencil test and resets the
   * stencil function, reference and mask to their defaults.
   */
  lemma StateMinusStencilDisablesTest(s: bv64)
    ensures !StencilTestEnabled(StateMinusStencil(s))
    ensures StencilFunc(StateMinusStencil(s)) == ALWAYS
    ensures StencilRef(StateMinusStencil(s)) == 0 && StencilMask(StateMinusStencil(s)) == 0
  {
  }

  /** Clearing the stencil fields resets the stencil operations to KEEP; a second clear changes nothing. */
  lemma StateMinusStencilResetsOps(s: bv64)
    ensures GetStencilOpState(StateMinusStencil(s)) == StencilOps(KEEP, KEEP, KEEP)
    ensures StateMinusStencil(StateMinusStencil(s)) == StateMinusStencil(s)
  {
  }

  /** Blending, depth and culling decode as before the stencil fields were cleared. */
  lemma StateMinusStencilKeeps(s: bv64)
    ensures SrcBlend(StateMinusStencil(s)) == SrcBlend(s)
    ensures DstBlend(StateMinusStencil(s)) == DstBlend(s)
    ensures BlendOpOf(StateMinusStencil(s)) == BlendOpOf(s)
    ensures DepthFunc(StateMinusStencil(s)) == DepthFunc(s)
    ensures forall m :: Cull(StateMinusStencil(s), m) == Cull(s, m)
  {
    var r := StateMinusStencil(s);
    assert r & GLS_SRCBLEND_BITS == s & GLS_SRCBLEND_BITS;
    assert r & GLS_DSTBLEND_BITS == s & GLS_DSTBLEND_BITS;
    assert r & GLS_BLENDOP_BITS == s & GLS_BLENDOP_BITS;
    assert r & GLS_DEPTHFUNC_BITS == s & GLS_DEPTHFUNC_BITS;
    assert r & GLS_CULL_BITS == s & GLS_CULL_BITS;
  }

  /**
   * GL_DepthBoundsTest's effect on the cache, given the outcomes of its two
   * float tests (zmin > zmax, and zmin == zmax == 0): none without device
   * support or for an inverted range; the bounds bit cleared for (0, 0) and
   * set otherwise.  No other bit changes.
   */
  function DepthBoundsCache(bits: bv64, supported: bool, inverted: bool, zero: bool): (r: bv64)
    ensures r & !GLS_DEPTH_TEST_MASK == bits & !GLS_DEPTH_TEST_MASK
    ensures !supported || inverted ==> r == bits
    ensures supported && !inverted ==> (r & GLS_DEPTH_TEST_MASK != 0 <==> !zero)
  {
    if DepthBoundsIgnored(supported, inverted) then bits else WithDepthBounds(bits, !zero)
  }

  /** The call changes nothing without device support or for an inverted range. */
  predicate DepthBoundsIgnored(supported: bool, inverted: bool)
  {
    !supported || inverted
  }

  /** The cache with only the depth-bounds bit changed, to on. */
  function WithDepthBounds(bits: bv64, on: bool): (r: bv64)
    ensures r & !GLS_DEPTH_TEST_MASK == bits & !GLS_DEPTH_TEST_MASK
    ensures r & GLS_DEPTH_TEST_MASK != 0 <==> on
  {
    if on then bits | GLS_DEPTH_TEST_MASK else bits & !GLS_DEPTH_TEST_MASK
  }
}
