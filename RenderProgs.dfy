/**
 * The render-program manager's shader-independent side: the table of
 * uniform ("render parameter") values, the GLSL names of those parameters,
 * the list of loaded shaders with their case-insensitive name lookup, and
 * the layout description that accompanies each compiled shader.
 */
module RenderProgs {
  import opened Bits
  import ImageLoad
  import RenderSystem

  /** The number of render parameters (renderParm_t). */
  const RENDERPARM_TOTAL: nat := 61

  /** GLSLParmNames: the GLSL name of each render parameter, in renderParm_t order. */
  function GLSLParmName(p: nat): string
    requires p < RENDERPARM_TOTAL
  {
    if p == 0 then "rpScreenCorrectionFactor" else
    if p == 1 then "rpWindowCoord" else
    if p == 2 then "rpDiffuseModifier" else
    if p == 3 then "rpSpecularModifier" else
    if p == 4 then "rpLocalLightOrigin" else
    if p == 5 then "rpLocalViewOrigin" else
    if p == 6 then "rpLightProjectionS" else
    if p == 7 then "rpLightProjectionT" else
    if p == 8 then "rpLightProjectionQ" else
    if p == 9 then "rpLightFalloffS" else
    if p == 10 then "rpBumpMatrixS" else
    if p == 11 then "rpBumpMatrixT" else
    if p == 12 then "rpDiffuseMatrixS" else
    if p == 13 then "rpDiffuseMatrixT" else
    if p == 14 then "rpSpecularMatrixS" else
    if p == 15 then "rpSpecularMatrixT" else
    if p == 16 then "rpVertexColorModulate" else
    if p == 17 then "rpVertexColorAdd" else
    if p == 18 then "rpColor" else
    if p == 19 then "rpViewOrigin" else
    if p == 20 then "rpGlobalEyePos" else
    if p == 21 then "rpMVPmatrixX" else
    if p == 22 then "rpMVPmatrixY" else
    if p == 23 then "rpMVPmatrixZ" else
    if p == 24 then "rpMVPmatrixW" else
    if p == 25 then "rpModelMatrixX" else
    if p == 26 then "rpModelMatrixY" else
    if p == 27 then "rpModelMatrixZ" else
    if p == 28 then "rpModelMatrixW" else
    if p == 29 then "rpProjectionMatrixX" else
    if p == 30 then "rpProjectionMatrixY" else
    if p == 31 then "rpProjectionMatrixZ" else
    if p == 32 then "rpProjectionMatrixW" else
    if p == 33 then "rpModelViewMatrixX" else
    if p == 34 then "rpModelViewMatrixY" else
    if p == 35 then "rpModelViewMatrixZ" else
    if p == 36 then "rpModelViewMatrixW" else
    if p == 37 then "rpTextureMatrixS" else
    if p == 38 then "rpTextureMatrixT" else
    if p == 39 then "rpTexGen0S" else
    if p == 40 then "rpTexGen0T" else
    if p == 41 then "rpTexGen0Q" else
    if p == 42 then "rpTexGen0Enabled" else
    if p == 43 then "rpTexGen1S" else
    if p == 44 then "rpTexGen1T" else
    if p == 45 then "rpTexGen1Q" else
    if p == 46 then "rpTexGen1Enabled" else
    if p == 47 then "rpWobbleSkyX" else
    if p == 48 then "rpWobbleSkyY" else
    if p == 49 then "rpWobbleSkyZ" else
    if p == 50 then "rpOverbright" else
    if p == 51 then "rpEnableSkinning" else
    if p == 52 then "rpAlphaTest" else
    if p == 53 then "rpUser0" else
    if p == 54 then "rpUser1" else
    if p == 55 then "rpUser2" else
    if p == 56 then "rpUser3" else
    if p == 57 then "rpUser4" else
    if p == 58 then "rpUser5" else
    if p == 59 then "rpUser6" else
    "rpUser7"
  }

  /** Every name is at least "rp" long, so none is a bracket token. */
  lemma ParmNameNotBracket(p: nat)
    requires p < RENDERPARM_TOTAL
    ensures |GLSLParmName(p)| >= 2
  {
  }

  // ParmNamesDistinct0 through the last ParmNamesDistinct lemma split the
  // pairwise comparison of the long name table into bands of ten values
  // of q: one lemma over the whole table asks the solver to compare every
  // pair of literal strings at once, which costs more than it allows.
  lemma ParmNamesDistinct0(p: nat, q: nat)
    requires p < q && 0 <= q < 10
    ensures GLSLParmName(p) != GLSLParmName(q)
  {
  }

  lemma ParmNamesDistinct10(p: nat, q: nat)
    requires p < q && 10 <= q < 20
    ensures GLSLParmName(p) != GLSLParmName(q)
  {
  }

  lemma ParmNamesDistinct20(p: nat, q: nat)
    requires p < q && 20 <= q < 30
    ensures GLSLParmName(p) != GLSLParmName(q)
  {
  }

  lemma ParmNamesDistinct30(p: nat, q: nat)
    requires p < q && 30 <= q < 40
    ensures GLSLParmName(p) != GLSLParmName(q)
  {
  }

  lemma ParmNamesDistinct40(p: nat, q: nat)
    requires p < q && 40 <= q < 50
    ensures GLSLParmName(p) != GLSLParmName(q)
  {
  }

  lemma ParmNamesDistinct50(p: nat, q: nat)
    requires p < q && 50 <= q < 61
    ensures GLSLParmName(p) != GLSLParmName(q)
  {
  }

  /** The table gives every parameter its own name. */
  lemma ParmNamesDistinct(p: nat, q: nat)
    requires p < RENDERPARM_TOTAL && q < RENDERPARM_TOTAL && p != q
    ensures GLSLParmName(p) != GLSLParmName(q)
  {
    var lo, hi := if p < q then p else q, if p < q then q else p;
    if hi < 10 { ParmNamesDistinct0(lo, hi); }
    else if hi < 20 { ParmNamesDistinct10(lo, hi); }
    else if hi < 30 { ParmNamesDistinct20(lo, hi); }
    else if hi < 40 { ParmNamesDistinct30(lo, hi); }
    else if hi < 50 { ParmNamesDistinct40(lo, hi); }
    else { ParmNamesDistinct50(lo, hi); }
  }

  /** The first parameter at or after p whose name is exactly token. */
  function ParmIndexFrom(token: string, p: nat): (r: Option<nat>)
    requires p <= RENDERPARM_TOTAL
    ensures r.Some? ==> p <= r.value < RENDERPARM_TOTAL && GLSLParmName(r.value) == token
    ensures r.None? ==> forall j :: p <= j < RENDERPARM_TOTAL ==> GLSLParmName(j) != token
    decreases RENDERPARM_TOTAL - p
  {
    if p == RENDERPARM_TOTAL then None
    else if GLSLParmName(p) == token then Some(p)
    else ParmIndexFrom(token, p + 1)
  }

  /**
   * The render parameter a layout token names: the first parameter whose
   * GLSL name equals the token exactly (the comparison is case-sensitive).
   */
  function ParmIndex(token: string): (r: Option<nat>)
    ensures r.Some? ==> r.value < RENDERPARM_TOTAL && GLSLParmName(r.value) == token
    ensures r.None? ==> forall j :: 0 <= j < RENDERPARM_TOTAL ==> GLSLParmName(j) != token
  {
    ParmIndexFrom(token, 0)
  }

  /** Looking up a parameter's own name finds that parameter. */
  lemma ParmIndexOfName(p: nat)
    requires p < RENDERPARM_TOTAL
    ensures ParmIndex(GLSLParmName(p)) == Some(p)
  {
    var r := ParmIndex(GLSLParmName(p));
    if r != Some(p) {
      ParmNamesDistinct(r.value, p);
    }
  }

  /** rpStage_t. */
  datatype Stage = SHADER_STAGE_VERTEX | SHADER_STAGE_FRAGMENT | SHADER_STAGE_ALL

  /** rpBinding_t: what a shader's descriptor binding holds. */
  datatype Binding = BINDING_TYPE_UNIFORM_BUFFER | BINDING_TYPE_SAMPLER

  /** The layout-file spelling of each binding type. */
  function BindingName(b: Binding): string
  {
    match b
    case BINDING_TYPE_UNIFORM_BUFFER => "ubo"
    case BINDING_TYPE_SAMPLER => "sampler"
  }

  /** The binding a layout token names, if any. */
  function BindingOf(token: string): (r: Option<Binding>)
    ensures r.Some? ==> BindingName(r.value) == token
    ensures r.None? ==> token != "ubo" && token != "sampler"
  {
    if token == "ubo" then Some(BINDING_TYPE_UNIFORM_BUFFER)
    else if token == "sampler" then Some(BINDING_TYPE_SAMPLER)
    else None
  }

  /**
   * shader_t: a shader stage of a program, its module handle (0 until it
   * is loaded), its descriptor bindings and the render parameters its
   * uniform block reads, in block order.
   */
  datatype Shader = Shader(name: string, stage: Stage, shaderModule: nat,
                           bindings: seq<Binding>, parmIndices: seq<nat>)

  /** A cached pipeline and the state bits it was built for. */
  datatype PipelineEntry = PipelineEntry(stateBits: bv64, pipeline: nat)

  /** renderProg_t: a vertex/fragment shader pair and its pipeline cache. */
  datatype RenderProg = RenderProg(
    name: string,
    usesJoints: bool,
    optionalSkinning: bool,
    vertexShaderIndex: int,
    fragmentShaderIndex: int,
    vertexLayoutType: VertexLayout,
    bindings: seq<Binding>,
    pipelines: seq<PipelineEntry>)

  /** vertexLayoutType_t: the vertex format a program reads. */
  datatype VertexLayout = LAYOUT_DRAW_VERT | LAYOUT_DRAW_SHADOW_VERT | LAYOUT_DRAW_SHADOW_VERT_SKINNED

  // ---------------------------------------------------------------------
  // The built-in programs (rpBuiltIn_t and the table both back ends' Init use)
  // ---------------------------------------------------------------------

  const MAX_BUILTINS: nat := 28

  const BUILTIN_TEXTURE_VERTEXCOLOR_SKINNED: nat := 5
  const BUILTIN_INTERACTION_SKINNED: nat := 8
  const BUILTIN_INTERACTION_AMBIENT_SKINNED: nat := 10
  const BUILTIN_ENVIRONMENT_SKINNED: nat := 12
  const BUILTIN_BUMPY_ENVIRONMENT_SKINNED: nat := 14
  const BUILTIN_DEPTH_SKINNED: nat := 16
  const BUILTIN_SHADOW: nat := 17
  const BUILTIN_SHADOW_SKINNED: nat := 18
  const BUILTIN_SHADOW_DEBUG: nat := 19
  const BUILTIN_SHADOW_DEBUG_SKINNED: nat := 20
  const BUILTIN_FOG_SKINNED: nat := 23

  /** The shader file name of built-in program i. */
  function BuiltinName(i: nat): string
    requires i < MAX_BUILTINS
  {
    if i == 0 then "gui" else
    if i == 1 then "color" else
    if i == 2 then "simpleshade" else
    if i == 3 then "texture" else
    if i == 4 then "texture_color" else
    if i == 5 then "texture_color_skinned" else
    if i == 6 then "texture_color_texgen" else
    if i == 7 then "interaction" else
    if i == 8 then "interaction_skinned" else
    if i == 9 then "interactionAmbient" else
    if i == 10 then "interactionAmbient_skinned" else
    if i == 11 then "environment" else
    if i == 12 then "environment_skinned" else
    if i == 13 then "bumpyEnvironment" else
    if i == 14 then "bumpyEnvironment_skinned" else
    if i == 15 then "depth" else
    if i == 16 then "depth_skinned" else
    if i == 17 then "shadow" else
    if i == 18 then "shadow_skinned" else
    if i == 19 then "shadowDebug" else
    if i == 20 then "shadowDebug_skinned" else
    if i == 21 then "blendlight" else
    if i == 22 then "fog" else
    if i == 23 then "fog_skinned" else
    if i == 24 then "skybox" else
    if i == 25 then "wobblesky" else
    if i == 26 then "bink" else
    "bink_gui"
  }

  /** The stages of built-in program i: the two shadow programs have no fragment shader. */
  function BuiltinStages(i: nat): Stage
    requires i < MAX_BUILTINS
  {
    if i == BUILTIN_SHADOW || i == BUILTIN_SHADOW_SKINNED then SHADER_STAGE_VERTEX else SHADER_STAGE_ALL
  }

  /** The vertex layout of built-in program i. */
  function BuiltinLayout(i: nat): VertexLayout
    requires i < MAX_BUILTINS
  {
    if i == BUILTIN_SHADOW || i == BUILTIN_SHADOW_DEBUG then LAYOUT_DRAW_SHADOW_VERT
    else if i == BUILTIN_SHADOW_SKINNED || i == BUILTIN_SHADOW_DEBUG_SKINNED then LAYOUT_DRAW_SHADOW_VERT_SKINNED
    else LAYOUT_DRAW_VERT
  }

  /** The built-in programs Init marks as reading joint matrices. */
  predicate BuiltinUsesJoints(i: nat)
  {
    i == BUILTIN_TEXTURE_VERTEXCOLOR_SKINNED || i == BUILTIN_INTERACTION_SKINNED ||
    i == BUILTIN_INTERACTION_AMBIENT_SKINNED || i == BUILTIN_ENVIRONMENT_SKINNED ||
    i == BUILTIN_BUMPY_ENVIRONMENT_SKINNED || i == BUILTIN_DEPTH_SKINNED ||
    i == BUILTIN_SHADOW_SKINNED || i == BUILTIN_SHADOW_DEBUG_SKINNED || i == BUILTIN_FOG_SKINNED
  }

  /** The vertex-shader names whose programs get joints and optional skinning. */
  predicate IsHeatHazeShader(name: string)
  {
    RenderSystem.EqualsNoCase(name, "heatHaze") || RenderSystem.EqualsNoCase(name, "heatHazeWithMask")
      || RenderSystem.EqualsNoCase(name, "heatHazeWithMaskAndVertex")
  }

  /** The heat-haze names, in the order the back ends test them. */
  function HeatHazeName(k: nat): string
    requires k < 3
  {
    if k == 0 then "heatHaze" else if k == 1 then "heatHazeWithMask" else "heatHazeWithMaskAndVertex"
  }

  /** s ends with suffix. */
  predicate HasSuffix(s: string, suffix: string)
  {
    |suffix| <= |s| && s[|s| - |suffix|..] == suffix
  }

  lemma BuiltinSkinned0(i: nat)
    requires 0 <= i < 7
    ensures BuiltinUsesJoints(i) <==> HasSuffix(BuiltinName(i), "_skinned")
  {
    if i == 0 {
      assert BuiltinName(0) == "gui";
    } else if i == 1 {
      assert BuiltinName(1) == "color";
    } else if i == 2 {
      assert BuiltinName(2) == "simpleshade";
    } else if i == 3 {
      assert BuiltinName(3) == "texture";
    } else if i == 4 {
      assert BuiltinName(4) == "texture_color";
    } else if i == 5 {
      assert BuiltinName(5) == "texture_color_skinned";
    } else if i == 6 {
      assert BuiltinName(6) == "texture_color_texgen";
    }
  }

  lemma BuiltinSkinned7(i: nat)
    requires 7 <= i < 14
    ensures BuiltinUsesJoints(i) <==> HasSuffix(BuiltinName(i), "_skinned")
  {
    if i == 7 {
      assert BuiltinName(7) == "interaction";
    } else if i == 8 {
      assert BuiltinName(8) == "interaction_skinned";
    } else if i == 9 {
      assert BuiltinName(9) == "interactionAmbient";
    } else if i == 10 {
      assert BuiltinName(10) == "interactionAmbient_skinned";
    } else if i == 11 {
      assert BuiltinName(11) == "environment";
    } else if i == 12 {
      assert BuiltinName(12) == "environment_skinned";
    } else if i == 13 {
      assert BuiltinName(13) == "bumpyEnvironment";
    }
  }

  lemma BuiltinSkinned14(i: nat)
    requires 14 <= i < 21
    ensures BuiltinUsesJoints(i) <==> HasSuffix(BuiltinName(i), "_skinned")
  {
    if i == 14 {
      assert BuiltinName(14) == "bumpyEnvironment_skinned";
    } else if i == 15 {
      assert BuiltinName(15) == "depth";
    } else if i == 16 {
      assert BuiltinName(16) == "depth_skinned";
    } else if i == 17 {
      assert BuiltinName(17) == "shadow";
    } else if i == 18 {
      assert BuiltinName(18) == "shadow_skinned";
    } else if i == 19 {
      assert BuiltinName(19) == "shadowDebug";
    } else if i == 20 {
      assert BuiltinName(20) == "shadowDebug_skinned";
    }
  }

  lemma BuiltinSkinned21(i: nat)
    requires 21 <= i < 28
    ensures BuiltinUsesJoints(i) <==> HasSuffix(BuiltinName(i), "_skinned")
  {
    if i == 21 {
      assert BuiltinName(21) == "blendlight";
    } else if i == 22 {
      assert BuiltinName(22) == "fog";
    } else if i == 23 {
      assert BuiltinName(23) == "fog_skinned";
    } else if i == 24 {
      assert BuiltinName(24) == "skybox";
    } else if i == 25 {
      assert BuiltinName(25) == "wobblesky";
    } else if i == 26 {
      assert BuiltinName(26) == "bink";
    } else if i == 27 {
      assert BuiltinName(27) == "bink_gui";
    }
  }

  /**
   * The programs flagged as using joints are exactly the built-ins whose
   * shader name ends in "_skinned".
   */
  lemma BuiltinUsesJointsIffSkinned(i: nat)
    requires i < MAX_BUILTINS
    ensures BuiltinUsesJoints(i) <==> HasSuffix(BuiltinName(i), "_skinned")
  {
    if i < 7 { BuiltinSkinned0(i); }
    else if i < 14 { BuiltinSkinned7(i); }
    else if i < 21 { BuiltinSkinned14(i); }
    else { BuiltinSkinned21(i); }
  }

  // ---------------------------------------------------------------------
  // Shader layout description
  // ---------------------------------------------------------------------

  /**
   * Why a layout description is refused; each case is a fatal error in the
   * renderer.  ExpectedToken also covers running out of input where a
   * keyword or bracket is required.
   */
  datatype LayoutError =
    | ExpectedToken(expected: string)
    | InvalidUniform(token: string)
    | InvalidBinding(token: string)
    | UnexpectedEnd

  datatype Layout = Layout(parmIndices: seq<nat>, bindings: seq<Binding>)

  datatype LayoutResult = LayoutOk(layout: Layout) | LayoutFailed(error: LayoutError)

  datatype UniformsResult = UniformsOk(parms: seq<nat>, rest: seq<string>) | UniformsFailed(error: LayoutError)

  datatype BindingsResult = BindingsOk(bindings: seq<Binding>, rest: seq<string>) | BindingsFailed(error: LayoutError)

  /** The uniform names up to the closing "]", which is consumed. */
  function ParseUniforms(toks: seq<string>): (r: UniformsResult)
    ensures r.UniformsOk? ==> |r.rest| < |toks| && r.rest == toks[|toks| - |r.rest|..]
    ensures r.UniformsOk? ==> forall k :: 0 <= k < |r.parms| ==> r.parms[k] < RENDERPARM_TOTAL
    decreases |toks|
  {
    if |toks| == 0 then UniformsFailed(UnexpectedEnd)
    else if toks[0] == "]" then UniformsOk([], toks[1..])
    else match ParmIndex(toks[0])
      case None => UniformsFailed(InvalidUniform(toks[0]))
      case Some(p) =>
        match ParseUniforms(toks[1..])
        case UniformsFailed(e) => UniformsFailed(e)
        case UniformsOk(ps, rest) => UniformsOk([p] + ps, rest)
  }

  /** The binding names up to the closing "]", which is consumed. */
  function ParseBindings(toks: seq<string>): (r: BindingsResult)
    ensures r.BindingsOk? ==> |r.rest| < |toks| && r.rest == toks[|toks| - |r.rest|..]
    decreases |toks|
  {
    if |toks| == 0 then BindingsFailed(UnexpectedEnd)
    else if toks[0] == "]" then BindingsOk([], toks[1..])
    else match BindingOf(toks[0])
      case None => BindingsFailed(InvalidBinding(toks[0]))
      case Some(b) =>
        match ParseBindings(toks[1..])
        case BindingsFailed(e) => BindingsFailed(e)
        case BindingsOk(bs, rest) => BindingsOk([b] + bs, rest)
  }

  /** The next token must be t. */
  predicate Expect(toks: seq<string>, t: string)
  {
    |toks| > 0 && toks[0] == t
  }

  /**
   * A shader layout: "uniforms [ <parameter names> ] bindings [ <binding
   * names> ]".  Tokens after the final "]" are ignored.
   */
  function ParseLayout(toks: seq<string>): (r: LayoutResult)
    ensures r.LayoutOk? ==> Expect(toks, "uniforms")
    ensures r.LayoutOk? ==> forall k :: 0 <= k < |r.layout.parmIndices| ==> r.layout.parmIndices[k] < RENDERPARM_TOTAL
  {
    if !Expect(toks, "uniforms") then LayoutFailed(ExpectedToken("uniforms"))
    else if !Expect(toks[1..], "[") then LayoutFailed(ExpectedToken("["))
    else match ParseUniforms(toks[2..])
      case UniformsFailed(e) => LayoutFailed(e)
      case UniformsOk(parms, rest) =>
        if !Expect(rest, "bindings") then LayoutFailed(ExpectedToken("bindings"))
        else if !Expect(rest[1..], "[") then LayoutFailed(ExpectedToken("["))
        else match ParseBindings(rest[2..])
          case BindingsFailed(e) => LayoutFailed(e)
          case BindingsOk(bindings, _) => LayoutOk(Layout(parms, bindings))
  }

  /** The GLSL names of a list of render parameters. */
  function ParmNames(parms: seq<nat>): (r: seq<string>)
    requires forall k :: 0 <= k < |parms| ==> parms[k] < RENDERPARM_TOTAL
    ensures |r| == |parms|
  {
    if |parms| == 0 then [] else [GLSLParmName(parms[0])] + ParmNames(parms[1..])
  }

  /** The layout-file names of a list of bindings. */
  function BindingNames(bs: seq<Binding>): (r: seq<string>)
    ensures |r| == |bs|
    ensures forall k :: 0 <= k < |bs| ==> r[k] == BindingName(bs[k])
  {
    if |bs| == 0 then [] else [BindingName(bs[0])] + BindingNames(bs[1..])
  }

  /** The layout description of a shader, as the shader compiler writes it. */
  function LayoutText(parms: seq<nat>, bs: seq<Binding>): seq<string>
    requires forall k :: 0 <= k < |parms| ==> parms[k] < RENDERPARM_TOTAL
  {
    ["uniforms", "["] + ParmNames(parms) + ["]", "bindings", "["] + BindingNames(bs) + ["]"]
  }

  /** One step of ParseUniforms: a parameter name followed by a list that parses. */
  lemma ParseUniformsCons(t: string, p: nat, more: seq<string>, parms: seq<nat>, after: seq<string>)
    requires t != "]" && ParmIndex(t) == Some(p)
    requires ParseUniforms(more) == UniformsOk(parms, after)
    ensures ParseUniforms([t] + more) == UniformsOk([p] + parms, after)
  {
    assert ([t] + more)[1..] == more;
  }

  /** One step of ParseUniforms: a token that names no parameter. */
  lemma ParseUniformsBad(t: string, more: seq<string>)
    requires t != "]" && ParmIndex(t).None?
    ensures ParseUniforms([t] + more) == UniformsFailed(InvalidUniform(t))
  {
  }

  /** ParmNames on a non-empty list, followed by more tokens. */
  lemma ParmNamesCons(parms: seq<nat>, rest: seq<string>)
    requires |parms| > 0
    requires forall k :: 0 <= k < |parms| ==> parms[k] < RENDERPARM_TOTAL
    ensures ParmNames(parms) + rest == [GLSLParmName(parms[0])] + (ParmNames(parms[1..]) + rest)
  {
  }

  lemma {:induction false} ParseUniformsOfNames(parms: seq<nat>, after: seq<string>)
    requires forall k :: 0 <= k < |parms| ==> parms[k] < RENDERPARM_TOTAL
    ensures ParseUniforms(ParmNames(parms) + (["]"] + after)) == UniformsOk(parms, after)
    decreases |parms|
  {
    var rest := ["]"] + after;
    if |parms| == 0 {
      assert rest[1..] == after;
    } else {
      ParmNameNotBracket(parms[0]);
      ParmIndexOfName(parms[0]);
      ParmNamesCons(parms, rest);
      ParseUniformsOfNames(parms[1..], after);
      ParseUniformsCons(GLSLParmName(parms[0]), parms[0], ParmNames(parms[1..]) + rest, parms[1..], after);
      assert [parms[0]] + parms[1..] == parms;
    }
  }

  lemma {:induction false} ParseBindingsOfNames(bs: seq<Binding>, after: seq<string>)
    ensures ParseBindings(BindingNames(bs) + (["]"] + after)) == BindingsOk(bs, after)
    decreases |bs|
  {
    var rest := ["]"] + after;
    if |bs| == 0 {
      assert rest[1..] == after;
    } else {
      assert BindingNames(bs) + rest == [BindingName(bs[0])] + (BindingNames(bs[1..]) + rest);
      ParseBindingsOfNames(bs[1..], after);
      assert [bs[0]] + bs[1..] == bs;
    }
  }

  /** ParseLayout read as the composition of its two list parsers. */
  lemma ParseLayoutSteps(uniformToks: seq<string>, bindingToks: seq<string>, parms: seq<nat>, bs: seq<Binding>, tail: seq<string>)
    requires ParseUniforms(uniformToks) == UniformsOk(parms, ["bindings", "["] + bindingToks)
    requires ParseBindings(bindingToks) == BindingsOk(bs, tail)
    ensures ParseLayout(["uniforms", "["] + uniformToks) == LayoutOk(Layout(parms, bs))
  {
    var toks := ["uniforms", "["] + uniformToks;
    assert toks[2..] == uniformToks;
    var rest := ["bindings", "["] + bindingToks;
    assert rest[2..] == bindingToks;
  }

  /** How a written layout followed by other tokens splits into the parsers' inputs. */
  lemma LayoutTextShape(names: seq<string>, bindingNames: seq<string>, tail: seq<string>)
    ensures ["uniforms", "["] + names + ["]", "bindings", "["] + bindingNames + ["]"] + tail
         == ["uniforms", "["] + (names + (["]"] + (["bindings", "["] + (bindingNames + (["]"] + tail)))))
  {
  }

  /** Reading back a written layout gives the same uniforms and bindings, in order. */
  lemma LayoutRoundTrip(parms: seq<nat>, bs: seq<Binding>, tail: seq<string>)
    requires forall k :: 0 <= k < |parms| ==> parms[k] < RENDERPARM_TOTAL
    ensures ParseLayout(LayoutText(parms, bs) + tail) == LayoutOk(Layout(parms, bs))
  {
    var bindingToks := BindingNames(bs) + (["]"] + tail);
    var uniformToks := ParmNames(parms) + (["]"] + (["bindings", "["] + bindingToks));
    LayoutTextShape(ParmNames(parms), BindingNames(bs), tail);
    ParseUniformsOfNames(parms, ["bindings", "["] + bindingToks);
    ParseBindingsOfNames(bs, tail);
    ParseLayoutSteps(uniformToks, bindingToks, parms, bs, tail);
  }

  /** ParseLayout fails with the uniform list's own error. */
  lemma ParseLayoutUniformsFail(uniformToks: seq<string>, e: LayoutError)
    requires ParseUniforms(uniformToks) == UniformsFailed(e)
    ensures ParseLayout(["uniforms", "["] + uniformToks) == LayoutFailed(e)
  {
    assert (["uniforms", "["] + uniformToks)[2..] == uniformToks;
  }

  /** A token that names no parameter stops the layout with InvalidUniform. */
  lemma InvalidUniformRejected(parms: seq<nat>, bad: string, tail: seq<string>)
    requires forall k :: 0 <= k < |parms| ==> parms[k] < RENDERPARM_TOTAL
    requires ParmIndex(bad).None? && bad != "]"
    ensures ParseLayout(["uniforms", "["] + (ParmNames(parms) + ([bad] + tail))) == LayoutFailed(InvalidUniform(bad))
  {
    InvalidUniformStops(parms, bad, tail);
    ParseLayoutUniformsFail(ParmNames(parms) + ([bad] + tail), InvalidUniform(bad));
  }

  lemma {:induction false} InvalidUniformStops(parms: seq<nat>, bad: string, tail: seq<string>)
    requires forall k :: 0 <= k < |parms| ==> parms[k] < RENDERPARM_TOTAL
    requires ParmIndex(bad).None? && bad != "]"
    ensures ParseUniforms(ParmNames(parms) + ([bad] + tail)) == UniformsFailed(InvalidUniform(bad))
    decreases |parms|
  {
    var rest := [bad] + tail;
    if |parms| == 0 {
      ParseUniformsBad(bad, tail);
    } else {
      ParmNameNotBracket(parms[0]);
      ParmIndexOfName(parms[0]);
      ParmNamesCons(parms, rest);
      InvalidUniformStops(parms[1..], bad, tail);
    }
  }

  // ---------------------------------------------------------------------
  // The manager
  // ---------------------------------------------------------------------

  /** Group k of four consecutive floats. */
  function Group(values: seq<real>, k: nat): (r: seq<real>)
    requires 4 * k + 4 <= |values|
    ensures |r| == 4
  {
    values[4 * k..4 * k + 4]
  }

  /** No two shaders share a stage and a case-insensitively equal name. */
  predicate UniqueShaders(shaders: seq<Shader>)
  {
    forall i, j :: 0 <= i < j < |shaders| ==>
      !(RenderSystem.EqualsNoCase(shaders[i].name, shaders[j].name) && shaders[i].stage == shaders[j].stage)
  }

  /** idRenderProgManager. */
  class RenderProgManager {
    var current: int
    var uniforms: seq<seq<real>>
    var shaders: seq<Shader>
    var renderProgs: seq<RenderProg>
    var counter: int
    var currentData: int
    var currentDescSet: int
    var currentParmBufferOffset: int

    /** One four-component value per render parameter. */
    predicate Valid()
      reads this
    {
      |uniforms| == RENDERPARM_TOTAL && forall i :: 0 <= i < |uniforms| ==> |uniforms[i]| == 4
    }

    /**
     * The constructor zeroes the bookkeeping; Init then sizes the parameter
     * table with every value zero.  No shader or program exists yet.
     */
    constructor()
      ensures Valid()
      ensures forall i :: 0 <= i < RENDERPARM_TOTAL ==> uniforms[i] == [0.0, 0.0, 0.0, 0.0]
      ensures shaders == [] && renderProgs == []
      ensures current == 0 && counter == 0 && currentData == 0
      ensures currentDescSet == 0 && currentParmBufferOffset == 0
    {
      current := 0;
      counter := 0;
      currentData := 0;
      currentDescSet := 0;
      currentParmBufferOffset := 0;
      uniforms := seq(RENDERPARM_TOTAL, _ => [0.0, 0.0, 0.0, 0.0]);
      shaders := [];
      renderProgs := [];
    }

    /** The value last stored for parameter rp. */
    function GetRenderParm(rp: nat): (r: seq<real>)
      reads this
      requires Valid() && rp < RENDERPARM_TOTAL
      ensures |r| == 4
    {
      uniforms[rp]
    }

    /** Copies the four components of value into parameter rp, one by one. */
    method SetRenderParm(rp: nat, value: seq<real>)
      requires Valid() && rp < RENDERPARM_TOTAL && |value| >= 4
      modifies this
      ensures Valid()
      ensures uniforms == old(uniforms)[rp := value[..4]]
      ensures GetRenderParm(rp) == value[..4]
      ensures forall q :: 0 <= q < RENDERPARM_TOTAL && q != rp ==> GetRenderParm(q) == old(GetRenderParm(q))
      ensures shaders == old(shaders) && renderProgs == old(renderProgs) && current == old(current)
      ensures counter == old(counter) && currentData == old(currentData)
      ensures currentDescSet == old(currentDescSet) && currentParmBufferOffset == old(currentParmBufferOffset)
    {
      var i := 0;
      assert value[..0] + old(uniforms)[rp][0..] == old(uniforms)[rp];
      while i < 4
        invariant 0 <= i <= 4
        invariant |uniforms| == RENDERPARM_TOTAL
        invariant uniforms == old(uniforms)[rp := value[..i] + old(uniforms)[rp][i..]]
        invariant shaders == old(shaders) && renderProgs == old(renderProgs) && current == old(current)
        invariant counter == old(counter) && currentData == old(currentData)
        invariant currentDescSet == old(currentDescSet) && currentParmBufferOffset == old(currentParmBufferOffset)
      {
        var entry := uniforms[rp][i := value[i]];
        assert entry == value[..i + 1] + old(uniforms)[rp][i + 1..];
        uniforms := uniforms[rp := entry];
        i := i + 1;
      }
      assert value[..4] + old(uniforms)[rp][4..] == value[..4];
    }

    /** Writes parameters rp .. rp+num-1 from consecutive groups of four floats. */
    method SetRenderParms(rp: nat, values: seq<real>, num: nat)
      requires Valid() && rp + num <= RENDERPARM_TOTAL && 4 * num <= |values|
      modifies this
      ensures Valid()
      ensures forall k :: 0 <= k < num ==> GetRenderParm(rp + k) == Group(values, k)
      ensures forall q :: 0 <= q < RENDERPARM_TOTAL && !(rp <= q < rp + num) ==> GetRenderParm(q) == old(GetRenderParm(q))
      ensures shaders == old(shaders) && renderProgs == old(renderProgs) && current == old(current)
      ensures counter == old(counter) && currentData == old(currentData)
      ensures currentDescSet == old(currentDescSet) && currentParmBufferOffset == old(currentParmBufferOffset)
    {
      var i := 0;
      while i < num
        invariant 0 <= i <= num
        invariant Valid()
        invariant forall k :: 0 <= k < i ==> GetRenderParm(rp + k) == Group(values, k)
        invariant forall q :: 0 <= q < RENDERPARM_TOTAL && !(rp <= q < rp + i) ==> GetRenderParm(q) == old(GetRenderParm(q))
        invariant shaders == old(shaders) && renderProgs == old(renderProgs) && current == old(current)
        invariant counter == old(counter) && currentData == old(currentData)
        invariant currentDescSet == old(currentDescSet) && currentParmBufferOffset == old(currentParmBufferOffset)
      {
        assert values[4 * i..][..4] == Group(values, i);
        SetRenderParm(rp + i, values[4 * i..]);
        i := i + 1;
      }
    }

    /**
     * Applies the layout of shader index when it has no module yet (an
     * already loaded shader is left alone).  The module handle and the
     * layout tokens stand for the compiled shader and the layout file the
     * renderer reads for the shader's name and stage.
     */
    method LoadShader(index: nat, layoutTokens: seq<string>, shaderModule: nat) returns (err: Option<LayoutError>)
      requires index < |shaders| && shaderModule != 0
      modifies this
      ensures old(shaders[index].shaderModule) != 0 ==> shaders == old(shaders) && err.None?
      ensures old(shaders[index].shaderModule) == 0 && ParseLayout(layoutTokens).LayoutFailed? ==>
        shaders == old(shaders) && err == Some(ParseLayout(layoutTokens).error)
      ensures old(shaders[index].shaderModule) == 0 && ParseLayout(layoutTokens).LayoutOk? ==>
        var l := ParseLayout(layoutTokens).layout;
        err.None? &&
        shaders == old(shaders)[index := old(shaders[index]).(shaderModule := shaderModule,
          parmIndices := old(shaders[index].parmIndices) + l.parmIndices,
          bindings := old(shaders[index].bindings) + l.bindings)]
      ensures |shaders| == |old(shaders)|
      ensures forall i :: 0 <= i < |shaders| ==> shaders[i].name == old(shaders[i].name) && shaders[i].stage == old(shaders[i].stage)
      ensures uniforms == old(uniforms) && renderProgs == old(renderProgs) && current == old(current)
      ensures counter == old(counter) && currentData == old(currentData)
      ensures currentDescSet == old(currentDescSet) && currentParmBufferOffset == old(currentParmBufferOffset)
    {
      err := None;
      if shaders[index].shaderModule != 0 {
        return;
      }
      var parsed := ParseLayout(layoutTokens);
      if parsed.LayoutFailed? {
        err := Some(parsed.error);
        return;
      }
      var s := shaders[index];
      shaders := shaders[index := s.(shaderModule := shaderModule,
        parmIndices := s.parmIndices + parsed.layout.parmIndices,
        bindings := s.bindings + parsed.layout.bindings)];
    }

    /**
     * The index of the shader with this name (extension stripped, compared
     * case-insensitively) and stage, appending a new shader when there is
     * none; the shader found or added is then loaded.
     */
    method FindShader(name: string, stage: Stage, layoutTokens: seq<string>, shaderModule: nat)
      returns (index: nat, err: Option<LayoutError>)
      requires UniqueShaders(shaders) && shaderModule != 0
      modifies this
      ensures index < |shaders|
      ensures shaders[index].stage == stage
      ensures RenderSystem.EqualsNoCase(shaders[index].name, ImageLoad.StripFileExtension(name))
      ensures index < |old(shaders)| ==> |shaders| == |old(shaders)|
      ensures index == |old(shaders)| ==> |shaders| == |old(shaders)| + 1 && shaders[index].name == ImageLoad.StripFileExtension(name)
      ensures index == |old(shaders)| ==> forall i :: 0 <= i < |old(shaders)| ==>
        !(RenderSystem.EqualsNoCase(old(shaders[i].name), ImageLoad.StripFileExtension(name)) && old(shaders[i].stage) == stage)
      ensures forall i :: 0 <= i < |old(shaders)| ==> shaders[i].name == old(shaders[i].name) && shaders[i].stage == old(shaders[i].stage)
      ensures UniqueShaders(shaders)
      ensures uniforms == old(uniforms) && renderProgs == old(renderProgs) && current == old(current)
      ensures counter == old(counter) && currentData == old(currentData)
      ensures currentDescSet == old(currentDescSet) && currentParmBufferOffset == old(currentParmBufferOffset)
    {
      var shaderName := ImageLoad.StripFileExtension(name);
      var i := 0;
      while i < |shaders|
        invariant 0 <= i <= |shaders|
        invariant forall j :: 0 <= j < i ==> !(RenderSystem.EqualsNoCase(shaders[j].name, shaderName) && shaders[j].stage == stage)
      {
        if RenderSystem.EqualsNoCase(shaders[i].name, shaderName) && shaders[i].stage == stage {
          index := i;
          err := LoadShader(i, layoutTokens, shaderModule);
          UniqueByNameAndStage(old(shaders), shaders);
          return;
        }
        i := i + 1;
      }
      shaders := shaders + [Shader(shaderName, stage, 0, [], [])];
      index := |shaders| - 1;
      AppendKeepsUnique(old(shaders), shaderName, stage);
      assert RenderSystem.EqualsNoCase(shaderName, shaderName);
      err := LoadShader(index, layoutTokens, shaderModule);
      UniqueByNameAndStage(old(shaders) + [Shader(shaderName, stage, 0, [], [])], shaders);
    }
  }

  /** Uniqueness depends only on names and stages. */
  lemma UniqueByNameAndStage(a: seq<Shader>, b: seq<Shader>)
    requires UniqueShaders(a) && |a| == |b|
    requires forall i :: 0 <= i < |a| ==> b[i].name == a[i].name && b[i].stage == a[i].stage
    ensures UniqueShaders(b)
  {
  }

  /** Appending a shader no existing entry matches keeps the list unique. */
  lemma AppendKeepsUnique(a: seq<Shader>, name: string, stage: Stage)
    requires UniqueShaders(a)
    requires forall j :: 0 <= j < |a| ==> !(RenderSystem.EqualsNoCase(a[j].name, name) && a[j].stage == stage)
    ensures UniqueShaders(a + [Shader(name, stage, 0, [], [])])
  {
  }
}
