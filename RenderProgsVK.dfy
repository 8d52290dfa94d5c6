/**
 * The Vulkan side of the render-program manager: descriptor-set layouts
 * built from a program's two shaders, the pipeline description decoded
 * from a 64-bit render state, the per-program pipeline cache, the program
 * table, and the per-frame uniform-block bookkeeping.
 */
module RenderProgsVK {
  import opened Bits
  import opened GLState
  import opened RenderProgs
  import RenderSystem

  // ---------------------------------------------------------------------
  // Descriptor-set layout
  // ---------------------------------------------------------------------

  datatype DescriptorType = DESCRIPTOR_TYPE_UNIFORM_BUFFER | DESCRIPTOR_TYPE_COMBINED_IMAGE_SAMPLER

  datatype ShaderStageBit = SHADER_STAGE_VERTEX_BIT | SHADER_STAGE_FRAGMENT_BIT

  /** One VkDescriptorSetLayoutBinding (descriptorCount is always 1). */
  datatype LayoutBinding = LayoutBinding(binding: nat, descriptorType: DescriptorType, stageFlags: ShaderStageBit)

  /** GetDescriptorType: uniform buffers and combined image samplers. */
  function GetDescriptorType(b: Binding): (t: DescriptorType)
    ensures t == DESCRIPTOR_TYPE_UNIFORM_BUFFER <==> b == BINDING_TYPE_UNIFORM_BUFFER
  {
    match b
    case BINDING_TYPE_UNIFORM_BUFFER => DESCRIPTOR_TYPE_UNIFORM_BUFFER
    case BINDING_TYPE_SAMPLER => DESCRIPTOR_TYPE_COMBINED_IMAGE_SAMPLER
  }

  /**
   * CreateDescriptorSetLayout: the vertex shader's bindings, then the
   * fragment shader's, numbered consecutively from 0; the program's own
   * binding list receives the same bindings in the same order.
   */
  method CreateDescriptorSetLayout(vertexBindings: seq<Binding>, fragmentBindings: seq<Binding>, progBindings: seq<Binding>)
    returns (layout: seq<LayoutBinding>, newProgBindings: seq<Binding>)
    ensures newProgBindings == progBindings + vertexBindings + fragmentBindings
    ensures |layout| == |vertexBindings| + |fragmentBindings|
    ensures forall i :: 0 <= i < |layout| ==> layout[i].binding == i
    ensures forall i :: 0 <= i < |layout| ==>
      layout[i].descriptorType == GetDescriptorType((vertexBindings + fragmentBindings)[i])
    ensures forall i :: 0 <= i < |layout| ==>
      (layout[i].stageFlags == SHADER_STAGE_VERTEX_BIT <==> i < |vertexBindings|)
  {
    var all := vertexBindings + fragmentBindings;
    layout := [];
    newProgBindings := progBindings;
    var bindingId := 0;
    for i := 0 to |vertexBindings|
      invariant bindingId == i == |layout|
      invariant newProgBindings == progBindings + vertexBindings[..i]
      invariant forall k :: 0 <= k < |layout| ==>
        layout[k] == LayoutBinding(k, GetDescriptorType(all[k]), SHADER_STAGE_VERTEX_BIT)
    {
      layout := layout + [LayoutBinding(bindingId, GetDescriptorType(vertexBindings[i]), SHADER_STAGE_VERTEX_BIT)];
      bindingId := bindingId + 1;
      newProgBindings := newProgBindings + [vertexBindings[i]];
      assert vertexBindings[..i + 1] == vertexBindings[..i] + [vertexBindings[i]];
    }
    assert vertexBindings[..|vertexBindings|] == vertexBindings;
    for i := 0 to |fragmentBindings|
      invariant bindingId == |vertexBindings| + i == |layout|
      invariant newProgBindings == progBindings + vertexBindings + fragmentBindings[..i]
      invariant forall k :: 0 <= k < |layout| ==>
        layout[k] == LayoutBinding(k, GetDescriptorType(all[k]),
          if k < |vertexBindings| then SHADER_STAGE_VERTEX_BIT else SHADER_STAGE_FRAGMENT_BIT)
    {
      layout := layout + [LayoutBinding(bindingId, GetDescriptorType(fragmentBindings[i]), SHADER_STAGE_FRAGMENT_BIT)];
      bindingId := bindingId + 1;
      newProgBindings := newProgBindings + [fragmentBindings[i]];
      assert fragmentBindings[..i + 1] == fragmentBindings[..i] + [fragmentBindings[i]];
    }
    assert fragmentBindings[..|fragmentBindings|] == fragmentBindings;
  }

  // ---------------------------------------------------------------------
  // Pipeline description
  // ---------------------------------------------------------------------

  /** One face of VkPipelineDepthStencilStateCreateInfo. */
  datatype StencilFace = StencilFace(ops: StencilOps, compareOp: CompareOp, compareMask: nat, reference: nat, writeMask: nat)

  datatype DynamicState = DYNAMIC_STATE_SCISSOR | DYNAMIC_STATE_VIEWPORT | DYNAMIC_STATE_DEPTH_BIAS | DYNAMIC_STATE_DEPTH_BOUNDS

  datatype StageDesc = StageDesc(stage: ShaderStageBit, shaderModule: nat)

  /** The parts of a graphics pipeline that the render state decides. */
  datatype PipelineDesc = PipelineDesc(
    depthBiasEnable: bool,
    frontFaceClockwise: bool,
    polygonModeLine: bool,
    cullMode: CullMode,
    blendEnable: bool,
    blendOp: BlendOp,
    srcFactor: BlendFactor,
    dstFactor: BlendFactor,
    writeRed: bool, writeGreen: bool, writeBlue: bool, writeAlpha: bool,
    depthWriteEnable: bool,
    depthCompareOp: CompareOp,
    depthBoundsTestEnable: bool,
    stencilTestEnable: bool,
    front: StencilFace,
    back: StencilFace,
    stages: seq<StageDesc>,
    dynamicStates: seq<DynamicState>)

  /** The write mask every stencil face gets. */
  const STENCIL_WRITE_ALL: nat := 0xFFFF_FFFF

  /** A stencil face with the state's function, reference and compare mask. */
  function FaceOf(ops: StencilOps, s: bv64): StencilFace
  {
    StencilFace(ops, StencilFunc(s), StencilMask(s), StencilRef(s), STENCIL_WRITE_ALL)
  }

  /** The front operations decode the same from the whole word and from its front-op field. */
  lemma FrontOpsIgnoreOtherBits(s: bv64)
    ensures GetStencilOpState(s & GLS_STENCIL_FRONT_OPS) == GetStencilOpState(s)
  {
    assert (s & GLS_STENCIL_FRONT_OPS) & GLS_STENCIL_OP_FAIL_BITS == s & GLS_STENCIL_OP_FAIL_BITS;
    assert (s & GLS_STENCIL_FRONT_OPS) & GLS_STENCIL_OP_ZFAIL_BITS == s & GLS_STENCIL_OP_ZFAIL_BITS;
    assert (s & GLS_STENCIL_FRONT_OPS) & GLS_STENCIL_OP_PASS_BITS == s & GLS_STENCIL_OP_PASS_BITS;
  }

  /** The dynamic states: scissor and viewport always, then depth bias and depth bounds on demand. */
  function DynamicStates(depthBias: bool, depthBounds: bool): (r: seq<DynamicState>)
    ensures |r| >= 2 && r[..2] == [DYNAMIC_STATE_SCISSOR, DYNAMIC_STATE_VIEWPORT]
    ensures DYNAMIC_STATE_DEPTH_BIAS in r <==> depthBias
    ensures DYNAMIC_STATE_DEPTH_BOUNDS in r <==> depthBounds
  {
    [DYNAMIC_STATE_SCISSOR, DYNAMIC_STATE_VIEWPORT]
      + (if depthBias then [DYNAMIC_STATE_DEPTH_BIAS] else [])
      + (if depthBounds then [DYNAMIC_STATE_DEPTH_BOUNDS] else [])
  }

  /** The front and back stencil faces of the depth/stencil state. */
  function StencilFaces(stateBits: bv64): (faces: (StencilFace, StencilFace))
  {
    var front := FaceOf(GetStencilOpState(stateBits & GLS_STENCIL_FRONT_OPS), stateBits);
    if stateBits & GLS_SEPARATE_STENCIL != 0
    then (front, FaceOf(GetStencilOpState((stateBits & GLS_STENCIL_BACK_OPS) >> 12), stateBits))
    else (front, front)
  }

  /**
   * CreateGraphicsPipeline's decoding of a render state.  fragmentModule 0
   * stands for VK_NULL_HANDLE (a vertex-only program); depthBoundsFeature
   * is the device's depthBounds feature.
   */
  function CreateGraphicsPipeline(stateBits: bv64, vertexModule: nat, fragmentModule: nat, depthBoundsFeature: bool): PipelineDesc
  {
    var depthBias := stateBits & GLS_POLYGON_OFFSET != 0;
    var depthBounds := depthBoundsFeature && stateBits & GLS_DEPTH_TEST_MASK != 0;
    var faces := StencilFaces(stateBits);
    PipelineDesc(
      depthBias,
      stateBits & GLS_CLOCKWISE != 0,
      stateBits & GLS_POLYMODE_LINE != 0,
      Cull(stateBits, stateBits & GLS_MIRROR_VIEW != 0),
      BlendEnabled(stateBits),
      BlendOpOf(stateBits),
      SrcBlend(stateBits),
      DstBlend(stateBits),
      stateBits & GLS_REDMASK == 0, stateBits & GLS_GREENMASK == 0,
      stateBits & GLS_BLUEMASK == 0, stateBits & GLS_ALPHAMASK == 0,
      stateBits & GLS_DEPTHMASK == 0,
      DepthFunc(stateBits),
      depthBounds,
      StencilTestEnabled(stateBits),
      faces.0,
      faces.1,
      [StageDesc(SHADER_STAGE_VERTEX_BIT, vertexModule)]
        + (if fragmentModule != 0 then [StageDesc(SHADER_STAGE_FRAGMENT_BIT, fragmentModule)] else []),
      DynamicStates(depthBias, depthBounds))
  }

  /**
   * The vertex stage always, the fragment stage when there is a fragment
   * module; depth bias and depth bounds are dynamic exactly when enabled.
   */
  lemma PipelineStagesAndDynamic(stateBits: bv64, vertexModule: nat, fragmentModule: nat, depthBoundsFeature: bool)
    ensures var d := CreateGraphicsPipeline(stateBits, vertexModule, fragmentModule, depthBoundsFeature);
      |d.stages| == (if fragmentModule == 0 then 1 else 2) &&
      d.stages[0] == StageDesc(SHADER_STAGE_VERTEX_BIT, vertexModule) &&
      (fragmentModule != 0 ==> d.stages[1] == StageDesc(SHADER_STAGE_FRAGMENT_BIT, fragmentModule)) &&
      (DYNAMIC_STATE_DEPTH_BIAS in d.dynamicStates <==> d.depthBiasEnable) &&
      (DYNAMIC_STATE_DEPTH_BOUNDS in d.dynamicStates <==> d.depthBoundsTestEnable)
  {
  }

  /** Blending is on unless both blend fields hold their defaults; depth writes follow the depth mask. */
  lemma PipelineBlendAndDepth(stateBits: bv64, vertexModule: nat, fragmentModule: nat, depthBoundsFeature: bool)
    ensures var d := CreateGraphicsPipeline(stateBits, vertexModule, fragmentModule, depthBoundsFeature);
      (d.blendEnable <==> stateBits & (GLS_SRCBLEND_BITS | GLS_DSTBLEND_BITS) != 0) &&
      (d.depthWriteEnable <==> stateBits & GLS_DEPTHMASK == 0) &&
      (d.depthBoundsTestEnable <==> depthBoundsFeature && stateBits & GLS_DEPTH_TEST_MASK != 0) &&
      (d.cullMode == CULL_NONE <==> stateBits & GLS_CULL_BITS == GLS_CULL_TWOSIDED)
  {
    BlendDisabledIffDefaultFactors(stateBits);
  }

  /**
   * The stencil test runs when a stencil function or front operation is
   * set; the back face repeats the front unless back operations are given.
   */
  lemma PipelineStencil(stateBits: bv64, vertexModule: nat, fragmentModule: nat, depthBoundsFeature: bool)
    ensures var d := CreateGraphicsPipeline(stateBits, vertexModule, fragmentModule, depthBoundsFeature);
      (d.stencilTestEnable <==> StencilTestEnabled(stateBits)) &&
      d.front == FaceOf(GetStencilOpState(stateBits), stateBits) &&
      (stateBits & GLS_SEPARATE_STENCIL == 0 ==> d.back == d.front) &&
      (stateBits & GLS_SEPARATE_STENCIL != 0 ==>
        d.back == FaceOf(GetStencilOpState((stateBits & GLS_STENCIL_BACK_OPS) >> 12), stateBits))
  {
    FrontOpsIgnoreOtherBits(stateBits);
  }

  /** The state word that requests the given stencil configuration and nothing else. */
  function StencilState(front: StencilOps, back: StencilOps, func: CompareOp, reference: bv64, mask: bv64): bv64
  {
    StencilOpBits(front) | (StencilOpBits(back) << 12) | (StencilFuncCode(func) << 36)
      | StencilMakeRef(reference) | StencilMakeMask(mask)
  }

  /** The fields of a stencil state word, each read back on its own. */
  lemma StencilStateFields(front: StencilOps, back: StencilOps, func: CompareOp, reference: bv64, mask: bv64)
    ensures StencilState(front, back, func, reference, mask) & GLS_STENCIL_FRONT_OPS == StencilOpBits(front)
    ensures StencilState(front, back, func, reference, mask) & GLS_STENCIL_BACK_OPS == StencilOpBits(back) << 12
  {
    BackStencilOpsRoundTrip(back);
  }

  lemma StencilStateFuncFields(front: StencilOps, back: StencilOps, func: CompareOp, reference: bv64, mask: bv64)
    requires reference < 256 && mask < 256
    ensures StencilFunc(StencilState(front, back, func, reference, mask)) == func
    ensures StencilRef(StencilState(front, back, func, reference, mask)) == reference as nat
    ensures StencilMask(StencilState(front, back, func, reference, mask)) == mask as nat
  {
    var s := StencilState(front, back, func, reference, mask);
    var c := StencilFuncCode(func);
    assert (s & GLS_STENCIL_FUNC_BITS) >> 36 == c;
    assert s & GLS_STENCIL_FUNC_REF_BITS == StencilMakeRef(reference);
    assert s & GLS_STENCIL_FUNC_MASK_BITS == StencilMakeMask(mask);
    StencilRefMaskRoundTrip(reference);
    StencilRefMaskRoundTrip(mask);
  }

  /**
   * Any stencil configuration encoded into a state word comes back out of
   * the face decoder: the front face exactly, and the back face too,
   * except that an all-KEEP back face cannot be told apart from "same as
   * front".
   */
  lemma StencilFacesRoundTrip(front: StencilOps, back: StencilOps, func: CompareOp, reference: bv64, mask: bv64)
    requires reference < 256 && mask < 256
    ensures var faces := StencilFaces(StencilState(front, back, func, reference, mask));
      faces.0 == StencilFace(front, func, mask as nat, reference as nat, STENCIL_WRITE_ALL) &&
      faces.1 == StencilFace(if back == StencilOps(KEEP, KEEP, KEEP) then front else back,
                             func, mask as nat, reference as nat, STENCIL_WRITE_ALL)
  {
    StencilStateFields(front, back, func, reference, mask);
    StencilStateFuncFields(front, back, func, reference, mask);
    StencilOpsRoundTrip(front);
    BackStencilOpsRoundTrip(back);
    KeepOpsEncodeToZero(back);
  }

  /** The same round trip, read from the whole pipeline description. */
  lemma PipelineStencilRoundTrip(front: StencilOps, back: StencilOps, func: CompareOp, reference: bv64, mask: bv64,
                                 vertexModule: nat, fragmentModule: nat, depthBoundsFeature: bool)
    requires reference < 256 && mask < 256
    ensures var d := CreateGraphicsPipeline(StencilState(front, back, func, reference, mask), vertexModule, fragmentModule, depthBoundsFeature);
      d.front == StencilFace(front, func, mask as nat, reference as nat, STENCIL_WRITE_ALL) &&
      d.back == StencilFace(if back == StencilOps(KEEP, KEEP, KEEP) then front else back,
                            func, mask as nat, reference as nat, STENCIL_WRITE_ALL)
  {
    var s := StencilState(front, back, func, reference, mask);
    StencilFacesRoundTrip(front, back, func, reference, mask);
    var d := CreateGraphicsPipeline(s, vertexModule, fragmentModule, depthBoundsFeature);
    assert d.front == StencilFaces(s).0 && d.back == StencilFaces(s).1;
  }

  /** Only the all-KEEP operations encode to an empty field. */
  lemma KeepOpsEncodeToZero(ops: StencilOps)
    ensures StencilOpBits(ops) << 12 == 0 <==> ops == StencilOps(KEEP, KEEP, KEEP)
  {
    BackStencilOpsRoundTrip(ops);
    if StencilOpBits(ops) << 12 == 0 {
      assert GetStencilOpState(0) == StencilOps(KEEP, KEEP, KEEP);
    }
  }

  /**
   * The pipeline of GL_GetCurrentStateMinusStencil's state has the stencil
   * test off and blends, tests depth and culls as the full state does.
   */
  lemma StateMinusStencilPipeline(s: bv64, vertexModule: nat, fragmentModule: nat, depthBoundsFeature: bool)
    ensures var d := CreateGraphicsPipeline(StateMinusStencil(s), vertexModule, fragmentModule, depthBoundsFeature);
      var e := CreateGraphicsPipeline(s, vertexModule, fragmentModule, depthBoundsFeature);
      !d.stencilTestEnable && d.front.ops == StencilOps(KEEP, KEEP, KEEP) &&
      d.srcFactor == e.srcFactor && d.dstFactor == e.dstFactor && d.blendOp == e.blendOp &&
      d.depthCompareOp == e.depthCompareOp && d.cullMode == e.cullMode
  {
    StateMinusStencilDisablesTest(s);
    StateMinusStencilResetsOps(s);
    PipelineStencil(StateMinusStencil(s), vertexModule, fragmentModule, depthBoundsFeature);
    StateMinusStencilKeeps(s);
    var r := StateMinusStencil(s);
    assert r & GLS_MIRROR_VIEW == s & GLS_MIRROR_VIEW;
  }

  // ---------------------------------------------------------------------
  // The pipeline cache of a program
  // ---------------------------------------------------------------------

  /** The pipeline cached for stateBits: the first entry built for exactly those bits. */
  function CachedPipeline(pipelines: seq<PipelineEntry>, stateBits: bv64): (r: Option<nat>)
    ensures r.Some? <==> exists i :: 0 <= i < |pipelines| && pipelines[i].stateBits == stateBits
    ensures r.Some? ==> exists i :: 0 <= i < |pipelines| && pipelines[i] == PipelineEntry(stateBits, r.value)
  {
    if |pipelines| == 0 then None
    else if pipelines[0].stateBits == stateBits then Some(pipelines[0].pipeline)
    else
      var r := CachedPipeline(pipelines[1..], stateBits);
      assert forall i :: 1 <= i < |pipelines| ==> pipelines[i] == pipelines[1..][i - 1];
      r
  }

  /** No two cache entries were built for the same state. */
  predicate DistinctStateBits(pipelines: seq<PipelineEntry>)
  {
    forall i, j :: 0 <= i < j < |pipelines| ==> pipelines[i].stateBits != pipelines[j].stateBits
  }

  /** Appending an entry for new bits makes the next lookup of those bits hit it. */
  lemma {:induction false} CachedAfterAppend(pipelines: seq<PipelineEntry>, e: PipelineEntry, stateBits: bv64)
    ensures CachedPipeline(pipelines + [e], stateBits) ==
      if CachedPipeline(pipelines, stateBits).Some? then CachedPipeline(pipelines, stateBits)
      else if e.stateBits == stateBits then Some(e.pipeline)
      else None
    decreases |pipelines|
  {
    if |pipelines| > 0 {
      assert (pipelines + [e])[1..] == pipelines[1..] + [e];
      CachedAfterAppend(pipelines[1..], e, stateBits);
    }
  }

  /** The lookup over the entries from i on equals the lookup over the whole list when none before i match. */
  lemma {:induction false} CachedFromIndex(pipelines: seq<PipelineEntry>, i: nat, stateBits: bv64)
    requires i < |pipelines|
    requires forall k :: 0 <= k < i ==> pipelines[k].stateBits != stateBits
    ensures CachedPipeline(pipelines, stateBits) == CachedPipeline(pipelines[i..], stateBits)
    decreases i
  {
    if i > 0 {
      assert pipelines[1..][i - 1..] == pipelines[i..];
      CachedFromIndex(pipelines[1..], i - 1, stateBits);
    }
  }

  /**
   * renderProg_t::GetPipeline: the cached pipeline for the state if there
   * is one; otherwise created (the handle the driver returns for
   * CreateGraphicsPipeline) is appended to the cache and returned.
   */
  method GetPipeline(prog: RenderProg, stateBits: bv64, created: nat) returns (updated: RenderProg, pipeline: nat)
    ensures CachedPipeline(prog.pipelines, stateBits).Some? ==>
      updated == prog && pipeline == CachedPipeline(prog.pipelines, stateBits).value
    ensures CachedPipeline(prog.pipelines, stateBits).None? ==>
      updated == prog.(pipelines := prog.pipelines + [PipelineEntry(stateBits, created)]) && pipeline == created
    ensures CachedPipeline(updated.pipelines, stateBits) == Some(pipeline)
    ensures DistinctStateBits(prog.pipelines) ==> DistinctStateBits(updated.pipelines)
  {
    var i := 0;
    while i < |prog.pipelines|
      invariant 0 <= i <= |prog.pipelines|
      invariant forall k :: 0 <= k < i ==> prog.pipelines[k].stateBits != stateBits
    {
      if stateBits == prog.pipelines[i].stateBits {
        CachedFromIndex(prog.pipelines, i, stateBits);
        return prog, prog.pipelines[i].pipeline;
      }
      i := i + 1;
    }
    updated := prog.(pipelines := prog.pipelines + [PipelineEntry(stateBits, created)]);
    pipeline := created;
    CachedAfterAppend(prog.pipelines, PipelineEntry(stateBits, created), stateBits);
  }

  // ---------------------------------------------------------------------
  // The manager's Vulkan operations
  // ---------------------------------------------------------------------

  /** The index of the program built from shaders vIndex and fIndex, if any. */
  function ProgramFor(progs: seq<RenderProg>, vIndex: int, fIndex: int): (r: Option<nat>)
    ensures r.Some? ==> r.value < |progs| && progs[r.value].vertexShaderIndex == vIndex && progs[r.value].fragmentShaderIndex == fIndex
    ensures r.Some? ==> forall k :: 0 <= k < r.value ==> !(progs[k].vertexShaderIndex == vIndex && progs[k].fragmentShaderIndex == fIndex)
    ensures r.None? ==> forall k :: 0 <= k < |progs| ==> !(progs[k].vertexShaderIndex == vIndex && progs[k].fragmentShaderIndex == fIndex)
  {
    if |progs| == 0 then None
    else if progs[|progs| - 1].vertexShaderIndex == vIndex && progs[|progs| - 1].fragmentShaderIndex == fIndex
      && ProgramFor(progs[..|progs| - 1], vIndex, fIndex).None?
    then Some(|progs| - 1)
    else ProgramFor(progs[..|progs| - 1], vIndex, fIndex)
  }

  /**
   * FindProgram: the first program built from this shader pair, or a new
   * program (descriptor layout from both shaders, joints and optional
   * skinning when the vertex shader is a heat-haze shader) appended to the
   * table.
   */
  method FindProgram(m: RenderProgManager, name: string, vIndex: nat, fIndex: nat) returns (index: nat)
    requires vIndex < |m.shaders| && fIndex < |m.shaders|
    modifies m
    ensures ProgramFor(old(m.renderProgs), vIndex, fIndex).Some? ==>
      index == ProgramFor(old(m.renderProgs), vIndex, fIndex).value && m.renderProgs == old(m.renderProgs)
    ensures ProgramFor(old(m.renderProgs), vIndex, fIndex).None? ==>
      index == |old(m.renderProgs)| &&
      m.renderProgs == old(m.renderProgs) + [RenderProg(name,
        IsHeatHazeShader(old(m.shaders)[vIndex].name), IsHeatHazeShader(old(m.shaders)[vIndex].name),
        vIndex, fIndex, LAYOUT_DRAW_VERT,
        old(m.shaders)[vIndex].bindings + old(m.shaders)[fIndex].bindings, [])]
    ensures ProgramFor(m.renderProgs, vIndex, fIndex) == Some(index)
    ensures m.shaders == old(m.shaders) && m.uniforms == old(m.uniforms) && m.current == old(m.current)
    ensures m.counter == old(m.counter) && m.currentData == old(m.currentData)
    ensures m.currentDescSet == old(m.currentDescSet) && m.currentParmBufferOffset == old(m.currentParmBufferOffset)
  {
    var i := 0;
    while i < |m.renderProgs|
      invariant 0 <= i <= |m.renderProgs|
      invariant forall k :: 0 <= k < i ==> !(m.renderProgs[k].vertexShaderIndex == vIndex && m.renderProgs[k].fragmentShaderIndex == fIndex)
    {
      if m.renderProgs[i].vertexShaderIndex == vIndex && m.renderProgs[i].fragmentShaderIndex == fIndex {
        ProgramForFirst(m.renderProgs, vIndex, fIndex, i);
        return i;
      }
      i := i + 1;
    }
    var _, bindings := CreateDescriptorSetLayout(m.shaders[vIndex].bindings, m.shaders[fIndex].bindings, []);
    assert bindings == m.shaders[vIndex].bindings + m.shaders[fIndex].bindings;
    var vName := m.shaders[vIndex].name;
    var heatHaze := false;
    var k := 0;
    while k < 3
      invariant 0 <= k <= 3
      invariant heatHaze ==> IsHeatHazeShader(vName)
      invariant !heatHaze ==> forall j :: 0 <= j < k ==> !RenderSystem.EqualsNoCase(vName, HeatHazeName(j))
    {
      if RenderSystem.EqualsNoCase(vName, HeatHazeName(k)) {
        heatHaze := true;
        break;
      }
      k := k + 1;
    }
    if !heatHaze {
      assert !RenderSystem.EqualsNoCase(vName, HeatHazeName(0));
      assert !RenderSystem.EqualsNoCase(vName, HeatHazeName(1));
      assert !RenderSystem.EqualsNoCase(vName, HeatHazeName(2));
    }
    var program := RenderProg(name, heatHaze, heatHaze, vIndex, fIndex, LAYOUT_DRAW_VERT, bindings, []);
    index := |m.renderProgs|;
    m.renderProgs := m.renderProgs + [program];
    assert m.renderProgs[..|m.renderProgs| - 1] == old(m.renderProgs);
  }

  /** The first matching index is the one ProgramFor finds. */
  lemma {:induction false} ProgramForFirst(progs: seq<RenderProg>, vIndex: int, fIndex: int, i: nat)
    requires i < |progs| && progs[i].vertexShaderIndex == vIndex && progs[i].fragmentShaderIndex == fIndex
    requires forall k :: 0 <= k < i ==> !(progs[k].vertexShaderIndex == vIndex && progs[k].fragmentShaderIndex == fIndex)
    ensures ProgramFor(progs, vIndex, fIndex) == Some(i)
  {
    var r := ProgramFor(progs, vIndex, fIndex);
    assert r.Some?;
  }

  /** BindProgram: makes index the current program; rebinding the current one changes nothing. */
  method BindProgram(m: RenderProgManager, index: int)
    modifies m
    ensures m.current == index
    ensures m.renderProgs == old(m.renderProgs) && m.shaders == old(m.shaders) && m.uniforms == old(m.uniforms)
    ensures m.counter == old(m.counter) && m.currentData == old(m.currentData)
    ensures m.currentDescSet == old(m.currentDescSet) && m.currentParmBufferOffset == old(m.currentParmBufferOffset)
  {
    if m.current == index {
      return;
    }
    m.current := index;
  }

  /** The frame slot always follows the frame counter. */
  predicate FrameSlotValid(m: RenderProgManager)
    reads m
  {
    m.counter >= 0 && m.currentData == m.counter % NUM_FRAME_DATA
  }

  /**
   * StartFrame: advances the frame counter, selects the next frame's slot
   * and starts its descriptor sets and parameter buffer from the beginning.
   */
  method StartFrame(m: RenderProgManager)
    requires FrameSlotValid(m)
    modifies m
    ensures FrameSlotValid(m)
    ensures m.counter == old(m.counter) + 1
    ensures m.currentData != old(m.currentData)
    ensures m.currentDescSet == 0 && m.currentParmBufferOffset == 0
    ensures m.renderProgs == old(m.renderProgs) && m.shaders == old(m.shaders) && m.uniforms == old(m.uniforms)
    ensures m.current == old(m.current)
  {
    m.counter := m.counter + 1;
    m.currentData := m.counter % NUM_FRAME_DATA;
    m.currentDescSet := 0;
    m.currentParmBufferOffset := 0;
    ConsecutiveSlotsDiffer(m.counter - 1);
  }

  /** Two consecutive frames never share a slot. */
  lemma ConsecutiveSlotsDiffer(c: nat)
    ensures (c + 1) % NUM_FRAME_DATA != c % NUM_FRAME_DATA
  {
  }

  /** A parameter block: where it starts in the frame's buffer, its size, and its values. */
  datatype ParmBlock = ParmBlock(offset: nat, size: nat, values: seq<seq<real>>)

  /**
   * AllocParmBlockBuffer: reserves the next aligned block of the current
   * frame's parameter buffer (16 bytes per parameter, rounded up to the
   * device's uniform-buffer offset alignment) and fills it with the
   * current values of the listed parameters.
   */
  method AllocParmBlockBuffer(m: RenderProgManager, parmIndices: seq<nat>, minAlignment: nat) returns (block: ParmBlock)
    requires m.Valid() && minAlignment > 0 && m.currentParmBufferOffset >= 0
    requires forall i :: 0 <= i < |parmIndices| ==> parmIndices[i] < RENDERPARM_TOTAL
    modifies m
    ensures m.Valid() && m.uniforms == old(m.uniforms)
    ensures block.offset == old(m.currentParmBufferOffset)
    ensures block.size == AlignUp(16 * |parmIndices|, minAlignment)
    ensures 16 * |parmIndices| <= block.size && block.size % minAlignment == 0
    ensures m.currentParmBufferOffset == block.offset + block.size
    ensures old(m.currentParmBufferOffset) % minAlignment == 0 ==> m.currentParmBufferOffset % minAlignment == 0
    ensures |block.values| == |parmIndices|
    ensures forall i :: 0 <= i < |parmIndices| ==> block.values[i] == m.GetRenderParm(parmIndices[i])
    ensures m.renderProgs == old(m.renderProgs) && m.shaders == old(m.shaders) && m.current == old(m.current)
    ensures m.counter == old(m.counter) && m.currentData == old(m.currentData) && m.currentDescSet == old(m.currentDescSet)
  {
    var numParms := |parmIndices|;
    var bytes := AlignUp(numParms * 16, minAlignment);
    var values := [];
    for i := 0 to numParms
      invariant |values| == i
      invariant forall k :: 0 <= k < i ==> values[k] == m.GetRenderParm(parmIndices[k])
    {
      values := values + [m.GetRenderParm(parmIndices[i])];
    }
    block := ParmBlock(m.currentParmBufferOffset, bytes, values);
    m.currentParmBufferOffset := m.currentParmBufferOffset + bytes;
    AlignedSum(block.offset, bytes, minAlignment);
  }

  lemma AlignedSum(a: nat, b: nat, n: nat)
    requires n > 0 && b % n == 0
    ensures a % n == 0 ==> (a + b) % n == 0
  {
    if a % n == 0 {
      var p, q := a / n, b / n;
      assert a == p * n;
      assert b == q * n;
      assert (p + q) * n == p * n + q * n;
      DivModUnique(a + b, n, p + q, 0);
    }
  }

  // ---------------------------------------------------------------------
  // Init: the built-in programs
  // ---------------------------------------------------------------------

  /** renderProg_t's default constructor. */
  const DEFAULT_PROG := RenderProg("", false, false, -1, -1, LAYOUT_DRAW_VERT, [], [])

  /** Shader index refers to a shader of this stage named after built-in program i. */
  predicate BuiltinShaderAt(shaders: seq<Shader>, index: int, i: nat, stage: Stage)
    requires i < MAX_BUILTINS
  {
    0 <= index < |shaders| && shaders[index].stage == stage &&
    RenderSystem.EqualsNoCase(shaders[index].name, ImageLoad.StripFileExtension(BuiltinName(i)))
  }

  /**
   * Entry i of the program table as Init's loop leaves it: the built-in's
   * name and vertex layout, its vertex shader, and its fragment shader
   * unless the built-in has only a vertex stage.
   */
  predicate BuiltinProgSet(shaders: seq<Shader>, prog: RenderProg, i: nat)
    requires i < MAX_BUILTINS
  {
    prog.name == BuiltinName(i) && prog.vertexLayoutType == BuiltinLayout(i) &&
    !prog.optionalSkinning && prog.pipelines == [] &&
    BuiltinShaderAt(shaders, prog.vertexShaderIndex, i, SHADER_STAGE_VERTEX) &&
    (BuiltinStages(i) == SHADER_STAGE_VERTEX <==> prog.fragmentShaderIndex == -1) &&
    (prog.fragmentShaderIndex != -1 ==> BuiltinShaderAt(shaders, prog.fragmentShaderIndex, i, SHADER_STAGE_FRAGMENT))
  }

  /** A shader list that only grew, keeping names and stages, keeps every built-in entry valid. */
  lemma BuiltinProgSetGrows(a: seq<Shader>, b: seq<Shader>, prog: RenderProg, i: nat)
    requires i < MAX_BUILTINS && BuiltinProgSet(a, prog, i)
    requires |a| <= |b| && forall j :: 0 <= j < |a| ==> b[j].name == a[j].name && b[j].stage == a[j].stage
    ensures BuiltinProgSet(b, prog, i)
  {
  }

  /**
   * One pass of Init's loop: the shaders of built-in program i are found
   * (and loaded) for each of its stages, and the program entry is built
   * with the descriptor layout of its vertex shader and its fragment
   * shader (none for a vertex-only program).
   */
  method BuildBuiltin(m: RenderProgManager, i: nat, layoutOf: (string, Stage) -> seq<string>, moduleOf: (string, Stage) -> nat)
    returns (prog: RenderProg, err: Option<LayoutError>)
    requires i < MAX_BUILTINS && UniqueShaders(m.shaders)
    requires forall name, stage :: moduleOf(name, stage) != 0
    modifies m
    ensures UniqueShaders(m.shaders)
    ensures |old(m.shaders)| <= |m.shaders|
    ensures forall j :: 0 <= j < |old(m.shaders)| ==> m.shaders[j].name == old(m.shaders)[j].name && m.shaders[j].stage == old(m.shaders)[j].stage
    ensures err.None? ==> BuiltinProgSet(m.shaders, prog, i) && !prog.usesJoints
    ensures m.uniforms == old(m.uniforms) && m.renderProgs == old(m.renderProgs)
  {
    var name := BuiltinName(i);
    prog := DEFAULT_PROG;
    var vIndex;
    vIndex, err := m.FindShader(name, SHADER_STAGE_VERTEX,
      layoutOf(name, SHADER_STAGE_VERTEX), moduleOf(name, SHADER_STAGE_VERTEX));
    if err.Some? {
      return;
    }
    var fIndex: int := -1;
    var fragmentBindings := [];
    if BuiltinStages(i) == SHADER_STAGE_ALL {
      var fi;
      fi, err := m.FindShader(name, SHADER_STAGE_FRAGMENT,
        layoutOf(name, SHADER_STAGE_FRAGMENT), moduleOf(name, SHADER_STAGE_FRAGMENT));
      if err.Some? {
        return;
      }
      fIndex := fi;
      fragmentBindings := m.shaders[fi].bindings;
    }
    var _, bindings := CreateDescriptorSetLayout(m.shaders[vIndex].bindings, fragmentBindings, []);
    prog := RenderProg(name, false, false, vIndex, fIndex, BuiltinLayout(i), bindings, []);
  }

  /** The close of Init: the skinned built-in programs use joints. */
  method MarkSkinnedPrograms(m: RenderProgManager)
    requires |m.renderProgs| == MAX_BUILTINS
    modifies m
    ensures |m.renderProgs| == MAX_BUILTINS
    ensures forall k :: 0 <= k < MAX_BUILTINS && BuiltinUsesJoints(k) ==>
      m.renderProgs[k] == old(m.renderProgs)[k].(usesJoints := true)
    ensures forall k :: 0 <= k < MAX_BUILTINS && !BuiltinUsesJoints(k) ==> m.renderProgs[k] == old(m.renderProgs)[k]
    ensures m.uniforms == old(m.uniforms) && m.shaders == old(m.shaders)
  {
    var progs := m.renderProgs;
    progs := progs[BUILTIN_TEXTURE_VERTEXCOLOR_SKINNED := progs[BUILTIN_TEXTURE_VERTEXCOLOR_SKINNED].(usesJoints := true)];
    progs := progs[BUILTIN_INTERACTION_SKINNED := progs[BUILTIN_INTERACTION_SKINNED].(usesJoints := true)];
    progs := progs[BUILTIN_INTERACTION_AMBIENT_SKINNED := progs[BUILTIN_INTERACTION_AMBIENT_SKINNED].(usesJoints := true)];
    progs := progs[BUILTIN_ENVIRONMENT_SKINNED := progs[BUILTIN_ENVIRONMENT_SKINNED].(usesJoints := true)];
    progs := progs[BUILTIN_BUMPY_ENVIRONMENT_SKINNED := progs[BUILTIN_BUMPY_ENVIRONMENT_SKINNED].(usesJoints := true)];
    progs := progs[BUILTIN_DEPTH_SKINNED := progs[BUILTIN_DEPTH_SKINNED].(usesJoints := true)];
    progs := progs[BUILTIN_SHADOW_SKINNED := progs[BUILTIN_SHADOW_SKINNED].(usesJoints := true)];
    progs := progs[BUILTIN_SHADOW_DEBUG_SKINNED := progs[BUILTIN_SHADOW_DEBUG_SKINNED].(usesJoints := true)];
    progs := progs[BUILTIN_FOG_SKINNED := progs[BUILTIN_FOG_SKINNED].(usesJoints := true)];
    m.renderProgs := progs;
  }

  /**
   * Init: the MAX_BUILTINS built-in programs, in rpBuiltIn_t order, each
   * with the shaders FindShader returns for its stages and the descriptor
   * layout of its vertex shader and its fragment shader (none for a
   * vertex-only program); the skinned ones then use joints.  layoutOf and
   * moduleOf stand for the layout file and the compiled module of a
   * shader; a layout that fails to parse stops Init with its error.
   */
  method Init(m: RenderProgManager, layoutOf: (string, Stage) -> seq<string>, moduleOf: (string, Stage) -> nat)
    returns (err: Option<LayoutError>)
    requires m.Valid() && UniqueShaders(m.shaders) && m.renderProgs == []
    requires forall name, stage :: moduleOf(name, stage) != 0
    modifies m
    ensures m.Valid() && m.uniforms == old(m.uniforms) && UniqueShaders(m.shaders)
    ensures err.None? ==> |m.renderProgs| == MAX_BUILTINS
    ensures err.None? ==> forall i :: 0 <= i < MAX_BUILTINS ==>
      BuiltinProgSet(m.shaders, m.renderProgs[i], i) && (m.renderProgs[i].usesJoints <==> BuiltinUsesJoints(i))
  {
    m.renderProgs := seq(MAX_BUILTINS, _ => DEFAULT_PROG);
    for i := 0 to MAX_BUILTINS
      invariant m.Valid() && m.uniforms == old(m.uniforms) && UniqueShaders(m.shaders)
      invariant |m.renderProgs| == MAX_BUILTINS
      invariant forall k :: 0 <= k < i ==> BuiltinProgSet(m.shaders, m.renderProgs[k], k) && !m.renderProgs[k].usesJoints
      invariant forall k :: i <= k < MAX_BUILTINS ==> m.renderProgs[k] == DEFAULT_PROG
    {
      ghost var before := m.shaders;
      var prog, progErr := BuildBuiltin(m, i, layoutOf, moduleOf);
      if progErr.Some? {
        return progErr;
      }
      forall k | 0 <= k < i
        ensures BuiltinProgSet(m.shaders, m.renderProgs[k], k)
      {
        BuiltinProgSetGrows(before, m.shaders, m.renderProgs[k], k);
      }
      m.renderProgs := m.renderProgs[i := prog];
    }
    err := None;
    MarkSkinnedPrograms(m);
  }
}
