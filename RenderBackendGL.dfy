/**
 * The OpenGL back end's state bookkeeping
 * (neo/renderer/OpenGL/RenderBackend_GL.cpp): GL_State's delta against the
 * cached state word and the GL calls it issues, the texture-unit and bound
 * texture caches, the polygon-offset record, the swap-interval mapping, the
 * context-creation fallback and the bounded error drain.  The GL calls are
 * recorded as commands; what the driver answers is an input.
 */
module RenderBackendGL {
  import opened Bits
  import opened GLState

  /** The GL calls GL_State and its neighbours make, one per state group. */
  datatype GLCommand =
    | CullFace(mode: CullMode)
    | DepthFuncCmd(op: CompareOp)
    | BlendOff
    | BlendFunc(src: BlendFactor, dst: BlendFactor)
    | DepthMask(write: bool)
    | ColorMask(r: bool, g: bool, b: bool, a: bool)
    | PolygonMode(lines: bool)
    | PolygonOffsetOff
    | PolygonOffsetOn(scale: real, bias: real)
    | StencilTest(enabled: bool)
    | StencilFuncCmd(func: CompareOp, ref: nat, mask: nat)
    | StencilOpCmd(ops: StencilOps)

  /** GL_State handles the state word in ten groups, each re-issued when one of its bits changes. */
  const GROUP_COUNT: nat := 10

  /** The call group g makes for the state s. */
  function GroupCommand(g: nat, s: bv64, mirror: bool, scale: real, bias: real): GLCommand
    requires g < GROUP_COUNT
  {
    if g == 0 then CullFace(Cull(s, mirror))
    else if g == 1 then DepthFuncCmd(DepthFunc(s))
    else if g == 2 then (if BlendEnabled(s) then BlendFunc(SrcBlend(s), DstBlend(s)) else BlendOff)
    else if g == 3 then DepthMask(s & GLS_DEPTHMASK == 0)
    else if g == 4 then
      ColorMask(s & GLS_REDMASK == 0, s & GLS_GREENMASK == 0, s & GLS_BLUEMASK == 0, s & GLS_ALPHAMASK == 0)
    else if g == 5 then PolygonMode(s & GLS_POLYMODE_LINE != 0)
    else if g == 6 then (if s & GLS_POLYGON_OFFSET != 0 then PolygonOffsetOn(scale, bias) else PolygonOffsetOff)
    else if g == 7 then StencilTest(StencilTestEnabled(s))
    else if g == 8 then StencilFuncCmd(StencilFunc(s), StencilRef(s), StencilMask(s))
    else StencilOpCmd(GetStencilOpState(s))
  }

  /** For each group, in the order GL_State visits them, whether diff touches its bits. */
  function GroupFlags(diff: bv64): (r: seq<bool>)
    ensures |r| == GROUP_COUNT
  {
    [diff & GLS_CULL_BITS != 0,
     diff & GLS_DEPTHFUNC_BITS != 0,
     diff & (GLS_SRCBLEND_BITS | GLS_DSTBLEND_BITS) != 0,
     diff & GLS_DEPTHMASK != 0,
     diff & (GLS_REDMASK | GLS_GREENMASK | GLS_BLUEMASK | GLS_ALPHAMASK) != 0,
     diff & GLS_POLYMODE_LINE != 0,
     diff & GLS_POLYGON_OFFSET != 0,
     diff & (GLS_STENCIL_FUNC_BITS | GLS_STENCIL_OP_BITS) != 0,
     diff & (GLS_STENCIL_FUNC_BITS | GLS_STENCIL_FUNC_REF_BITS | GLS_STENCIL_FUNC_MASK_BITS) != 0,
     diff & (GLS_STENCIL_OP_FAIL_BITS | GLS_STENCIL_OP_ZFAIL_BITS | GLS_STENCIL_OP_PASS_BITS) != 0]
  }

  /** The flagged groups from g on, in order. */
  function Flagged(flags: seq<bool>, g: nat): (r: seq<nat>)
    requires g <= |flags|
    ensures forall k :: 0 <= k < |r| ==> g <= r[k] < |flags| && flags[r[k]]
    ensures forall h :: g <= h < |flags| && flags[h] ==> h in r
    ensures forall k, m :: 0 <= k < m < |r| ==> r[k] < r[m]
    decreases |flags| - g
  {
    if g == |flags| then []
    else (if flags[g] then [g] else []) + Flagged(flags, g + 1)
  }

  /** The calls GL_State makes for the new state s when diff marks the changed bits. */
  function StateCommands(s: bv64, diff: bv64, mirror: bool, scale: real, bias: real): (r: seq<GLCommand>)
  {
    var groups := Flagged(GroupFlags(diff), 0);
    seq(|groups|, k requires 0 <= k < |groups| => GroupCommand(groups[k], s, mirror, scale, bias))
  }

  /** Every bit counts as changed when the state is forced. */
  const ALL_BITS: bv64 := 0xFFFF_FFFF_FFFF_FFFF

  function StateDiff(cache: bv64, s: bv64, force: bool): bv64
  {
    if force then ALL_BITS else s ^ cache
  }

  /** Whether GL_State returns at once: nothing changed and nothing is forced. */
  predicate StateUnchanged(cache: bv64, s: bv64, force: bool)
  {
    !force && s == cache
  }

  /**
   * The cache GL_State leaves: the new state with the mirror flag when it
   * re-set culling for a mirrored view (on anything but a two-sided
   * surface), plus the kept bits of the old cache.
   */
  function StateAfter(cache: bv64, s: bv64, force: bool, mirror: bool): (r: bv64)
    ensures r & !(GLS_KEEP | GLS_MIRROR_VIEW) == s & !(GLS_KEEP | GLS_MIRROR_VIEW)
    ensures r & GLS_KEEP == (s | cache) & GLS_KEEP
    ensures r & GLS_MIRROR_VIEW != 0 <==>
      s & GLS_MIRROR_VIEW != 0 ||
      (StateDiff(cache, s, force) & GLS_CULL_BITS != 0 && mirror && s & GLS_CULL_BITS != GLS_CULL_TWOSIDED)
  {
    var marked := if StateDiff(cache, s, force) & GLS_CULL_BITS != 0 && mirror && s & GLS_CULL_BITS != GLS_CULL_TWOSIDED
      then s | GLS_MIRROR_VIEW else s;
    marked | (cache & GLS_KEEP)
  }

  /** A forced state issues all ten groups, in order. */
  lemma ForcedStateIssuesEveryGroup(s: bv64, mirror: bool, scale: real, bias: real)
    ensures Flagged(GroupFlags(ALL_BITS), 0) == [0, 1, 2, 3, 4, 5, 6, 7, 8, 9]
    ensures StateCommands(s, ALL_BITS, mirror, scale, bias) ==
      seq(GROUP_COUNT, g requires 0 <= g < GROUP_COUNT => GroupCommand(g, s, mirror, scale, bias))
  {
    var flags := GroupFlags(ALL_BITS);
    assert flags == seq(GROUP_COUNT, _ => true);
    AllFlagged(flags, 0);
  }

  /** When every flag is set, every group from g on is issued. */
  lemma {:induction false} AllFlagged(flags: seq<bool>, g: nat)
    requires g <= |flags|
    requires forall h :: 0 <= h < |flags| ==> flags[h]
    ensures |Flagged(flags, g)| == |flags| - g
    ensures forall k :: 0 <= k < |flags| - g ==> Flagged(flags, g)[k] == g + k
    decreases |flags| - g
  {
    if g < |flags| {
      AllFlagged(flags, g + 1);
      var rest := Flagged(flags, g + 1);
      assert Flagged(flags, g) == [g] + rest;
      forall k | 0 < k < |flags| - g
        ensures Flagged(flags, g)[k] == g + k
      {
        assert Flagged(flags, g)[k] == rest[k - 1];
      }
    }
  }

  /** When no flag is set, no group from g on is issued. */
  lemma {:induction false} NoneFlagged(flags: seq<bool>, g: nat)
    requires g <= |flags|
    requires forall h :: 0 <= h < |flags| ==> !flags[h]
    ensures Flagged(flags, g) == []
    decreases |flags| - g
  {
    if g < |flags| {
      NoneFlagged(flags, g + 1);
    }
  }

  /** No group is re-issued when only kept or mirror bits differ. */
  lemma CacheOnlyDiffFlagsNothing(diff: bv64)
    requires diff & !(GLS_KEEP | GLS_MIRROR_VIEW) == 0
    ensures forall h :: 0 <= h < GROUP_COUNT ==> !GroupFlags(diff)[h]
  {
    assert diff & !(GLS_KEEP | GLS_MIRROR_VIEW) == 0;
  }

  /** Setting a state a second time, unforced, makes no GL call. */
  lemma RepeatedStateIssuesNothing(cache: bv64, s: bv64, force: bool, mirror: bool, scale: real, bias: real)
    ensures var after := StateAfter(cache, s, force, mirror);
      StateUnchanged(after, s, false) || StateCommands(s, StateDiff(after, s, false), mirror, scale, bias) == []
  {
    var after := StateAfter(cache, s, force, mirror);
    var d := StateDiff(after, s, false);
    assert d & !(GLS_KEEP | GLS_MIRROR_VIEW) == 0;
    CacheOnlyDiffFlagsNothing(d);
    NoneFlagged(GroupFlags(d), 0);
  }

  /** Blending is switched off exactly for (ONE, ZERO); the stencil test is on exactly when a stencil function or operation bit is set. */
  lemma StateGroupMeanings(s: bv64, mirror: bool, scale: real, bias: real)
    ensures GroupCommand(2, s, mirror, scale, bias) == BlendOff <==>
      SrcBlend(s) == BF_ONE && DstBlend(s) == BF_ZERO
    ensures GroupCommand(7, s, mirror, scale, bias) == StencilTest(true) <==>
      s & (GLS_STENCIL_FUNC_BITS | GLS_STENCIL_OP_BITS) != 0
  {
  }

  // ---------------------------------------------------------------------
  // Swap interval, context creation, error drain
  // ---------------------------------------------------------------------

  /**
   * The swap interval for r_swapInterval: 1 asks for adaptive vsync (-1)
   * where tear control is available, 2 for plain vsync, anything else none.
   */
  function SwapInterval(cvar: int, tearControl: bool): (r: int)
    ensures -1 <= r <= 1
    ensures r == -1 <==> cvar == 1 && tearControl
    ensures r == 0 <==> cvar != 1 && cvar != 2
  {
    if cvar == 1 then (if tearControl then -1 else 1)
    else if cvar == 2 then 1
    else 0
  }

  datatype Profile = NO_PROFILE | COMPATIBILITY_PROFILE | CORE_PROFILE

  /** The attributes one context-creation attempt asks for. */
  datatype ContextAttribs = ContextAttribs(major: nat, minor: nat, debug: bool, profileMask: bool, profile: Profile)

  /**
   * The attributes for r_useOpenGL32: 3.2 with a profile mask (compatibility
   * for 1, core for 2, none otherwise) when it is nonzero, else 2.0.
   */
  function AttribsFor(useOpenGL32: int, debug: bool): (r: ContextAttribs)
    ensures (r.major, r.minor) == (if useOpenGL32 != 0 then (3, 2) else (2, 0))
    ensures r.profileMask <==> useOpenGL32 != 0
    ensures r.profile == CORE_PROFILE <==> useOpenGL32 == 2
    ensures r.debug == debug
  {
    ContextAttribs(
      if useOpenGL32 != 0 then 3 else 2,
      if useOpenGL32 != 0 then 2 else 0,
      debug,
      useOpenGL32 != 0,
      if useOpenGL32 == 1 then COMPATIBILITY_PROFILE else if useOpenGL32 == 2 then CORE_PROFILE else NO_PROFILE)
  }

  /**
   * CreateOpenGLContextOnDC: at most two attempts, the second falling back
   * to OpenGL 2.0.  accepts[i] is whether the driver creates a context on
   * attempt i; attempts lists what was asked for.
   */
  method CreateOpenGLContext(useOpenGL32: int, debug: bool, accepts: seq<bool>)
    returns (context: Option<ContextAttribs>, attempts: seq<ContextAttribs>)
    requires |accepts| == 2
    ensures 1 <= |attempts| <= 2 && attempts[0] == AttribsFor(useOpenGL32, debug)
    ensures |attempts| == 1 <==> accepts[0]
    ensures |attempts| == 2 ==> attempts[1] == AttribsFor(0, debug)
    ensures context.Some? <==> accepts[|attempts| - 1]
    ensures context.Some? ==> context.value == attempts[|attempts| - 1]
  {
    var use32 := useOpenGL32;
    context := None;
    attempts := [];
    for i := 0 to 2
      invariant |attempts| == i && context == None
      invariant i >= 1 ==> attempts[0] == AttribsFor(useOpenGL32, debug) && !accepts[0] && use32 == 0
      invariant i == 0 ==> use32 == useOpenGL32
      invariant i == 2 ==> attempts[1] == AttribsFor(0, debug) && !accepts[1]
    {
      var a := AttribsFor(use32, debug);
      attempts := attempts + [a];
      if accepts[i] {
        context := Some(a);
        return;
      }
      use32 := 0;
    }
  }

  const GL_NO_ERROR: nat := 0
  const GL_INVALID_ENUM: nat := 0x0500
  const GL_INVALID_VALUE: nat := 0x0501
  const GL_INVALID_OPERATION: nat := 0x0502
  const GL_STACK_OVERFLOW: nat := 0x0503
  const GL_STACK_UNDERFLOW: nat := 0x0504
  const GL_OUT_OF_MEMORY: nat := 0x0505

  /** GL_CheckErrors reads at most this many pending errors per call. */
  const MAX_ERRORS_DRAINED: nat := 10

  /** The report for one error: the enum's name for the six known codes, else the number. */
  function ErrorName(err: nat): string
  {
    if err == GL_INVALID_ENUM then "GL_INVALID_ENUM"
    else if err == GL_INVALID_VALUE then "GL_INVALID_VALUE"
    else if err == GL_INVALID_OPERATION then "GL_INVALID_OPERATION"
    else if err == GL_STACK_OVERFLOW then "GL_STACK_OVERFLOW"
    else if err == GL_STACK_UNDERFLOW then "GL_STACK_UNDERFLOW"
    else if err == GL_OUT_OF_MEMORY then "GL_OUT_OF_MEMORY"
    else DecimalString(err)
  }

  /**
   * GL_CheckErrors: reads pending errors (an exhausted queue reads as
   * GL_NO_ERROR) until GL_NO_ERROR or ten reads, reporting each unless
   * errors are ignored.  consumed is how many errors were taken off the queue.
   */
  method CheckErrors(pending: seq<nat>, ignore: bool) returns (consumed: nat, reports: seq<string>)
    ensures consumed <= MAX_ERRORS_DRAINED && consumed <= |pending|
    ensures forall k :: 0 <= k < consumed ==> pending[k] != GL_NO_ERROR
    ensures consumed < MAX_ERRORS_DRAINED ==> consumed == |pending| || pending[consumed] == GL_NO_ERROR
    ensures reports == if ignore then [] else seq(consumed, k requires 0 <= k < consumed && k < |pending| => ErrorName(pending[k]))
  {
    consumed := 0;
    reports := [];
    for i := 0 to MAX_ERRORS_DRAINED
      invariant consumed == i && i <= |pending|
      invariant forall k :: 0 <= k < i ==> pending[k] != GL_NO_ERROR
      invariant reports == if ignore then [] else seq(i, k requires 0 <= k < i && k < |pending| => ErrorName(pending[k]))
    {
      var err := if i < |pending| then pending[i] else GL_NO_ERROR;
      if err == GL_NO_ERROR {
        return;
      }
      consumed := consumed + 1;
      if !ignore {
        reports := reports + [ErrorName(err)];
      }
    }
  }

  // ---------------------------------------------------------------------
  // The back end's cached GL state
  // ---------------------------------------------------------------------

  /** The textures bound on one unit. */
  datatype Tmu = Tmu(current2DMap: nat, currentCubeMap: nat)

  /** The number of texture units whose bindings glcontext caches. */
  const MAX_MULTITEXTURE_UNITS: nat := 8

  /**
   * The unit GL_SelectTexture leaves current when asked for `unit`: the
   * current one when it is already asked for, or when `unit` falls outside
   * [0, limit) (a warning); otherwise `unit`.
   */
  function SelectedUnit(current: int, unit: int, limit: int): (r: int)
    ensures r == current || (r == unit && 0 <= unit < limit)
    ensures r != current <==> unit != current && 0 <= unit < limit
  {
    if current == unit || unit < 0 || unit >= limit then current else unit
  }

  /**
   * GL_SelectTexture as written bounds the unit by the driver's
   * GL_MAX_TEXTURE_IMAGE_UNITS alone.  With a driver that reports 16 image
   * units, unit 8 is accepted, and the next GL_BindTexture indexes the
   * eight-entry cache one past its end.
   */
  lemma SelectTextureOverrunsAsWritten()
    ensures SelectedUnit(0, MAX_MULTITEXTURE_UNITS, 16) == MAX_MULTITEXTURE_UNITS
  {
  }

  /** Bounding the unit by both limits agrees with the source whenever the driver reports at most eight units. */
  lemma SelectTextureAgreesWithinCache(current: int, unit: int, maxTextureImageUnits: int)
    requires maxTextureImageUnits <= MAX_MULTITEXTURE_UNITS
    ensures SelectedUnit(current, unit, Min(maxTextureImageUnits, MAX_MULTITEXTURE_UNITS)) ==
            SelectedUnit(current, unit, maxTextureImageUnits)
  {
  }

  datatype TextureType = TT_2D | TT_CUBIC | TT_DISABLED

  /** An image as GL_BindTexture sees it: its GL name and its type. */
  datatype BoundImage = BoundImage(texnum: nat, textureType: TextureType)

  class GLBackend {
    var glStateBits: bv64
    var polyOfsScale: real
    var polyOfsBias: real
    var currenttmu: int
    var maxTextureImageUnits: int
    var tmu: seq<Tmu>
    var swapIndex: nat
    var depthBoundsTestAvailable: bool

    /** The current unit indexes the per-unit cache, which holds MAX_MULTITEXTURE_UNITS entries. */
    predicate Valid()
      reads this
    {
      |tmu| == MAX_MULTITEXTURE_UNITS && 0 <= currenttmu < |tmu|
    }

    /**
     * The cache as the GL initialisation leaves it: every unit cleared,
     * unit 0 current, no state bits, and the unit limit the driver
     * reports.
     */
    constructor(maxTextureImageUnits: int, depthBoundsTestAvailable: bool)
      ensures Valid()
      ensures tmu == seq(MAX_MULTITEXTURE_UNITS, _ => Tmu(0, 0)) && currenttmu == 0 && glStateBits == 0
      ensures this.maxTextureImageUnits == maxTextureImageUnits && this.depthBoundsTestAvailable == depthBoundsTestAvailable
      ensures polyOfsScale == 0.0 && polyOfsBias == 0.0 && swapIndex == 0
    {
      glStateBits := 0;
      polyOfsScale, polyOfsBias := 0.0, 0.0;
      currenttmu := 0;
      this.maxTextureImageUnits := maxTextureImageUnits;
      tmu := seq(MAX_MULTITEXTURE_UNITS, _ => Tmu(0, 0));
      swapIndex := 0;
      this.depthBoundsTestAvailable := depthBoundsTestAvailable;
    }

    /**
     * GL_SetDefaultState's reset of the caches and its forced GL_State(0):
     * every group is issued for the all-default state.
     */
    method SetDefaultState(mirror: bool) returns (cmds: seq<GLCommand>)
      requires Valid()
      modifies this
      ensures Valid()
      ensures cmds == seq(GROUP_COUNT, g requires 0 <= g < GROUP_COUNT => GroupCommand(g, 0, mirror, 0.0, 0.0))
      ensures tmu == seq(|old(tmu)|, _ => Tmu(0, 0)) && currenttmu == 0
      ensures polyOfsScale == 0.0 && polyOfsBias == 0.0
      ensures glStateBits == StateAfter(0, 0, true, mirror)
      ensures maxTextureImageUnits == old(maxTextureImageUnits) && swapIndex == old(swapIndex)
      ensures depthBoundsTestAvailable == old(depthBoundsTestAvailable)
    {
      tmu := seq(|tmu|, _ => Tmu(0, 0));
      currenttmu := 0;
      polyOfsScale := 0.0;
      polyOfsBias := 0.0;
      glStateBits := 0;
      cmds := GL_State(0, true, mirror);
      ForcedStateIssuesEveryGroup(0, mirror, 0.0, 0.0);
    }

    /**
     * GL_State: returns at once when nothing changed and nothing is forced;
     * otherwise issues the calls of every changed group and caches the state.
     * mirror says whether the current view is a mirror.
     */
    method GL_State(stateBits: bv64, force: bool, mirror: bool) returns (cmds: seq<GLCommand>)
      modifies this
      ensures StateUnchanged(old(glStateBits), stateBits, force) ==> cmds == [] && glStateBits == old(glStateBits)
      ensures !StateUnchanged(old(glStateBits), stateBits, force) ==>
        cmds == StateCommands(stateBits, StateDiff(old(glStateBits), stateBits, force), mirror, polyOfsScale, polyOfsBias) &&
        glStateBits == StateAfter(old(glStateBits), stateBits, force, mirror)
      ensures polyOfsScale == old(polyOfsScale) && polyOfsBias == old(polyOfsBias)
      ensures currenttmu == old(currenttmu) && maxTextureImageUnits == old(maxTextureImageUnits) && tmu == old(tmu)
      ensures swapIndex == old(swapIndex) && depthBoundsTestAvailable == old(depthBoundsTestAvailable)
    {
      if StateUnchanged(glStateBits, stateBits, force) {
        return [];
      }
      cmds := StateCommands(stateBits, StateDiff(glStateBits, stateBits, force), mirror, polyOfsScale, polyOfsBias);
      glStateBits := StateAfter(glStateBits, stateBits, force, mirror);
    }

    /**
     * GL_SelectTexture: only a unit other than the current one, below the
     * driver's limit and below the number of cached units, is selected;
     * any other unit draws a warning.
     */
    method GL_SelectTexture(unit: int) returns (warned: bool)
      requires Valid()
      modifies this
      ensures Valid()
      ensures currenttmu == SelectedUnit(old(currenttmu), unit, Min(maxTextureImageUnits, MAX_MULTITEXTURE_UNITS))
      ensures warned <==> old(currenttmu) != unit && !(0 <= unit < Min(maxTextureImageUnits, MAX_MULTITEXTURE_UNITS))
      ensures glStateBits == old(glStateBits) && polyOfsScale == old(polyOfsScale) && polyOfsBias == old(polyOfsBias)
      ensures maxTextureImageUnits == old(maxTextureImageUnits) && tmu == old(tmu)
      ensures swapIndex == old(swapIndex) && depthBoundsTestAvailable == old(depthBoundsTestAvailable)
    {
      warned := false;
      if currenttmu == unit {
        return;
      }
      if unit < 0 || unit >= maxTextureImageUnits || unit >= |tmu| {
        warned := true;
        return;
      }
      currenttmu := unit;
    }

    /**
     * GL_BindTexture: binds the image on the current unit only when the
     * unit's cached 2D (or cube) texture differs, then records it.
     */
    method GL_BindTexture(image: BoundImage) returns (bound: bool)
      requires Valid()
      modifies this
      ensures Valid()
      ensures bound <==>
        (image.textureType == TT_2D && old(tmu[currenttmu].current2DMap) != image.texnum) ||
        (image.textureType == TT_CUBIC && old(tmu[currenttmu].currentCubeMap) != image.texnum)
      ensures currenttmu == old(currenttmu) && glStateBits == old(glStateBits)
      ensures tmu == old(tmu)[currenttmu :=
        if image.textureType == TT_2D then old(tmu[currenttmu]).(current2DMap := image.texnum)
        else if image.textureType == TT_CUBIC then old(tmu[currenttmu]).(currentCubeMap := image.texnum)
        else old(tmu[currenttmu])]
      ensures polyOfsScale == old(polyOfsScale) && polyOfsBias == old(polyOfsBias)
      ensures maxTextureImageUnits == old(maxTextureImageUnits)
      ensures swapIndex == old(swapIndex) && depthBoundsTestAvailable == old(depthBoundsTestAvailable)
    {
      var unit := tmu[currenttmu];
      bound := false;
      if image.textureType == TT_2D {
        if unit.current2DMap != image.texnum {
          tmu := tmu[currenttmu := unit.(current2DMap := image.texnum)];
          bound := true;
        }
      } else if image.textureType == TT_CUBIC {
        if unit.currentCubeMap != image.texnum {
          tmu := tmu[currenttmu := unit.(currentCubeMap := image.texnum)];
          bound := true;
        }
      }
    }

    /** GL_PolygonOffset: always records scale and bias; applies them only while polygon offset is on. */
    method GL_PolygonOffset(scale: real, bias: real) returns (applied: bool)
      modifies this
      ensures polyOfsScale == scale && polyOfsBias == bias
      ensures applied <==> glStateBits & GLS_POLYGON_OFFSET != 0
      ensures glStateBits == old(glStateBits) && currenttmu == old(currenttmu) && tmu == old(tmu)
      ensures maxTextureImageUnits == old(maxTextureImageUnits)
      ensures swapIndex == old(swapIndex) && depthBoundsTestAvailable == old(depthBoundsTestAvailable)
    {
      polyOfsScale := scale;
      polyOfsBias := bias;
      applied := glStateBits & GLS_POLYGON_OFFSET != 0;
    }

    /** GL_DepthBoundsTest: sets or clears the depth-bounds bit of the cache. */
    method GL_DepthBoundsTest(zmin: real, zmax: real)
      modifies this
      ensures glStateBits == DepthBoundsCache(old(glStateBits), depthBoundsTestAvailable, zmin > zmax, zmin == 0.0 && zmax == 0.0)
      ensures polyOfsScale == old(polyOfsScale) && polyOfsBias == old(polyOfsBias)
      ensures currenttmu == old(currenttmu) && tmu == old(tmu) && maxTextureImageUnits == old(maxTextureImageUnits)
      ensures swapIndex == old(swapIndex) && depthBoundsTestAvailable == old(depthBoundsTestAvailable)
    {
      glStateBits := DepthBoundsCache(glStateBits, depthBoundsTestAvailable, zmin > zmax, zmin == 0.0 && zmax == 0.0);
    }

    /**
     * The bookkeeping of BlockingSwapBuffers: a modified r_swapInterval is
     * mapped and handed to the driver when it has swap control, and the
     * sync-object index alternates.
     */
    method SwapBuffers(cvar: int, modified: bool, tearControl: bool, hasSwapControl: bool) returns (interval: Option<int>)
      requires swapIndex < 2
      modifies this
      ensures interval == if modified && hasSwapControl then Some(SwapInterval(cvar, tearControl)) else None
      ensures swapIndex < 2 && swapIndex != old(swapIndex)
      ensures glStateBits == old(glStateBits) && polyOfsScale == old(polyOfsScale) && polyOfsBias == old(polyOfsBias)
      ensures currenttmu == old(currenttmu) && tmu == old(tmu) && maxTextureImageUnits == old(maxTextureImageUnits)
      ensures depthBoundsTestAvailable == old(depthBoundsTestAvailable)
    {
      interval := None;
      if modified {
        var i := SwapInterval(cvar, tearControl);
        if hasSwapControl {
          interval := Some(i);
        }
      }
      swapIndex := 1 - swapIndex;
    }
  }
}
