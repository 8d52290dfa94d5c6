/**
 * The OpenGL side of the render-program manager: the token-level rewriter
 * that turns a Cg shader into GLSL (ParseInOutStruct and ConvertCG2GLSL),
 * the read-back of the uniform list it writes beside the GLSL text, and
 * the OpenGL program table (LoadGLSLProgram, FindProgram, Init).
 *
 * The rewriter works on the token stream idLexer produces.  A token
 * carries its text, the number of line breaks in the white space before
 * it, and whether there is white space between it and the previous line
 * break (or the previous token, when it is on the same line).
 */
module RenderProgsGL {
  import opened Bits
  import opened RenderProgs
  import ImageLoad
  import RenderSystem

  // ---------------------------------------------------------------------
  // Tokens
  // ---------------------------------------------------------------------

  datatype Tok = Tok(text: string, lines: nat, spaceBefore: bool)

  /** What ReadToken leaves in its token once the input is exhausted. */
  const EOF_TOK := Tok("", 0, false)

  /** The token at index p, or the empty token past the end. */
  function At(toks: seq<Tok>, p: nat): Tok
  {
    if p < |toks| then toks[p] else EOF_TOK
  }

  /** The read position after ReadToken at p: one further, unless at the end. */
  function Next(toks: seq<Tok>, p: nat): (r: nat)
    ensures r == if p < |toks| then p + 1 else p
  {
    if p < |toks| then p + 1 else p
  }

  /** CheckTokenString: the token at p exists and is s (it is then consumed). */
  predicate IsNext(toks: seq<Tok>, p: nat, s: string)
  {
    p < |toks| && toks[p].text == s
  }

  /**
   * SkipUntilString: the position just past the first s at or after p, or
   * the end of the input when there is none.
   */
  function SkipUntil(toks: seq<Tok>, s: string, p: nat): (r: nat)
    requires p <= |toks|
    ensures p <= r <= |toks|
    ensures forall q :: p <= q < r - 1 ==> toks[q].text != s
    ensures r == |toks| || (p < r && toks[r - 1].text == s)
    ensures r == |toks| && (r == p || toks[r - 1].text != s) ==> forall q :: p <= q < |toks| ==> toks[q].text != s
    decreases |toks| - p
  {
    if p == |toks| then p
    else if toks[p].text == s then p + 1
    else SkipUntil(toks, s, p + 1)
  }

  // ---------------------------------------------------------------------
  // Conversion tables
  // ---------------------------------------------------------------------

  /** The attribute classes of attribsPC (AT_VS_IN, AT_VS_OUT, AT_PS_IN, AT_PS_OUT). */
  const AT_VS_IN: bv8 := 2
  const AT_VS_OUT: bv8 := 4
  const AT_PS_IN: bv8 := 8
  const AT_PS_OUT: bv8 := 16

  datatype AttribInfo = AttribInfo(semantic: string, glsl: string, flags: bv8)

  const ATTRIB_COUNT: nat := 64

  /** attribsPC: the semantic, GLSL name and attribute classes of each row. */
  function AttribPC(i: nat): AttribInfo
    requires i < ATTRIB_COUNT
  {
    if i == 0 then AttribInfo("POSITION", "in_Position", AT_VS_IN) else
    if i == 1 then AttribInfo("TEXCOORD0", "in_TexCoord", AT_VS_IN) else
    if i == 2 then AttribInfo("NORMAL", "in_Normal", AT_VS_IN) else
    if i == 3 then AttribInfo("TANGENT", "in_Tangent", AT_VS_IN) else
    if i == 4 then AttribInfo("COLOR0", "in_Color", AT_VS_IN) else
    if i == 5 then AttribInfo("COLOR1", "in_Color2", AT_VS_IN) else
    if i == 6 then AttribInfo("POSITION", "gl_Position", AT_VS_OUT) else
    if i == 7 then AttribInfo("CLP0", "gl_ClipDistance[0]", AT_VS_OUT) else
    if i == 8 then AttribInfo("CLP1", "gl_ClipDistance[1]", AT_VS_OUT) else
    if i == 9 then AttribInfo("CLP2", "gl_ClipDistance[2]", AT_VS_OUT) else
    if i == 10 then AttribInfo("CLP3", "gl_ClipDistance[3]", AT_VS_OUT) else
    if i == 11 then AttribInfo("CLP4", "gl_ClipDistance[4]", AT_VS_OUT) else
    if i == 12 then AttribInfo("CLP5", "gl_ClipDistance[5]", AT_VS_OUT) else
    if i == 13 then AttribInfo("WPOS", "gl_FragCoord", AT_PS_IN) else
    if i == 14 then AttribInfo("WPOS", "gl_FragCoord", AT_PS_IN) else
    if i == 15 then AttribInfo("FACE", "gl_FrontFacing", AT_PS_IN) else
    if i == 16 then AttribInfo("COLOR", "gl_FragColor", AT_PS_OUT) else
    if i == 17 then AttribInfo("COLOR", "gl_FragColor", AT_PS_OUT) else
    if i == 18 then AttribInfo("COLOR0", "gl_FragColor", AT_PS_OUT) else
    if i == 19 then AttribInfo("COLOR1", "gl_FragColor", AT_PS_OUT) else
    if i == 20 then AttribInfo("COLOR2", "gl_FragColor", AT_PS_OUT) else
    if i == 21 then AttribInfo("COLOR3", "gl_FragColor", AT_PS_OUT) else
    if i == 22 then AttribInfo("DEPTH", "gl_FragDepth", AT_PS_OUT) else
    if i == 23 then AttribInfo("COLOR", "gl_FrontColor", AT_VS_OUT) else
    if i == 24 then AttribInfo("COLOR0", "gl_FrontColor", AT_VS_OUT) else
    if i == 25 then AttribInfo("COLOR1", "gl_FrontSecondaryColor", AT_VS_OUT) else
    if i == 26 then AttribInfo("COLOR", "gl_Color", AT_PS_IN) else
    if i == 27 then AttribInfo("COLOR0", "gl_Color", AT_PS_IN) else
    if i == 28 then AttribInfo("COLOR1", "gl_SecondaryColor", AT_PS_IN) else
    if i == 29 then AttribInfo("COLOR", "gl_Color", AT_PS_IN) else
    if i == 30 then AttribInfo("COLOR0", "gl_Color", AT_PS_IN) else
    if i == 31 then AttribInfo("COLOR1", "gl_SecondaryColor", AT_PS_IN) else
    if i == 32 then AttribInfo("TEXCOORD0_centroid", "vofi_TexCoord0", AT_PS_IN) else
    if i == 33 then AttribInfo("TEXCOORD1_centroid", "vofi_TexCoord1", AT_PS_IN) else
    if i == 34 then AttribInfo("TEXCOORD2_centroid", "vofi_TexCoord2", AT_PS_IN) else
    if i == 35 then AttribInfo("TEXCOORD3_centroid", "vofi_TexCoord3", AT_PS_IN) else
    if i == 36 then AttribInfo("TEXCOORD4_centroid", "vofi_TexCoord4", AT_PS_IN) else
    if i == 37 then AttribInfo("TEXCOORD5_centroid", "vofi_TexCoord5", AT_PS_IN) else
    if i == 38 then AttribInfo("TEXCOORD6_centroid", "vofi_TexCoord6", AT_PS_IN) else
    if i == 39 then AttribInfo("TEXCOORD7_centroid", "vofi_TexCoord7", AT_PS_IN) else
    if i == 40 then AttribInfo("TEXCOORD8_centroid", "vofi_TexCoord8", AT_PS_IN) else
    if i == 41 then AttribInfo("TEXCOORD9_centroid", "vofi_TexCoord9", AT_PS_IN) else
    if i == 42 then AttribInfo("TEXCOORD0", "vofi_TexCoord0", AT_VS_OUT | AT_PS_IN) else
    if i == 43 then AttribInfo("TEXCOORD1", "vofi_TexCoord1", AT_VS_OUT | AT_PS_IN) else
    if i == 44 then AttribInfo("TEXCOORD2", "vofi_TexCoord2", AT_VS_OUT | AT_PS_IN) else
    if i == 45 then AttribInfo("TEXCOORD3", "vofi_TexCoord3", AT_VS_OUT | AT_PS_IN) else
    if i == 46 then AttribInfo("TEXCOORD4", "vofi_TexCoord4", AT_VS_OUT | AT_PS_IN) else
    if i == 47 then AttribInfo("TEXCOORD5", "vofi_TexCoord5", AT_VS_OUT | AT_PS_IN) else
    if i == 48 then AttribInfo("TEXCOORD6", "vofi_TexCoord6", AT_VS_OUT | AT_PS_IN) else
    if i == 49 then AttribInfo("TEXCOORD7", "vofi_TexCoord7", AT_VS_OUT | AT_PS_IN) else
    if i == 50 then AttribInfo("TEXCOORD8", "vofi_TexCoord8", AT_VS_OUT | AT_PS_IN) else
    if i == 51 then AttribInfo("TEXCOORD9", "vofi_TexCoord9", AT_VS_OUT | AT_PS_IN) else
    if i == 52 then AttribInfo("TEXCOORD0", "vofi_TexCoord0", AT_PS_IN) else
    if i == 53 then AttribInfo("TEXCOORD1", "vofi_TexCoord1", AT_PS_IN) else
    if i == 54 then AttribInfo("TEXCOORD2", "vofi_TexCoord2", AT_PS_IN) else
    if i == 55 then AttribInfo("TEXCOORD3", "vofi_TexCoord3", AT_PS_IN) else
    if i == 56 then AttribInfo("TEXCOORD4", "vofi_TexCoord4", AT_PS_IN) else
    if i == 57 then AttribInfo("TEXCOORD5", "vofi_TexCoord5", AT_PS_IN) else
    if i == 58 then AttribInfo("TEXCOORD6", "vofi_TexCoord6", AT_PS_IN) else
    if i == 59 then AttribInfo("TEXCOORD7", "vofi_TexCoord7", AT_PS_IN) else
    if i == 60 then AttribInfo("TEXCOORD8", "vofi_TexCoord8", AT_PS_IN) else
    if i == 61 then AttribInfo("TEXCOORD9", "vofi_TexCoord9", AT_PS_IN) else
    if i == 62 then AttribInfo("FOG", "gl_FogFragCoord", AT_VS_OUT) else
    AttribInfo("FOG", "gl_FogFragCoord", AT_PS_IN)
  }

  /** Row j carries attribute class attribType and the semantic sem. */
  predicate AttribMatches(j: nat, sem: string, attribType: bv8)
  {
    j < ATTRIB_COUNT && AttribPC(j).flags & attribType != 0 && AttribPC(j).semantic == sem
  }

  /** The first row at or after i that carries attribType and the semantic sem. */
  function FirstAttrib(sem: string, attribType: bv8, i: nat): (r: Option<nat>)
    requires i <= ATTRIB_COUNT
    ensures r.Some? ==> i <= r.value && AttribMatches(r.value, sem, attribType)
    ensures r.Some? ==> forall j :: i <= j < r.value ==> !AttribMatches(j, sem, attribType)
    ensures r.None? <==> forall j :: i <= j < ATTRIB_COUNT ==> !AttribMatches(j, sem, attribType)
    decreases ATTRIB_COUNT - i
  {
    if i == ATTRIB_COUNT then None
    else if AttribMatches(i, sem, attribType) then Some(i)
    else FirstAttrib(sem, attribType, i + 1)
  }

  /** A semantic converted to its GLSL name; an unknown one is kept. */
  function ConvertSemantic(sem: string, attribType: bv8): string
  {
    match FirstAttrib(sem, attribType, 0)
    case Some(j) => AttribPC(j).glsl
    case None => sem
  }

  /** typeConversion: the GLSL spelling of a Cg type name. */
  function TypeConversion(t: string): Option<string>
  {
    if t == "void" then Some("void") else
    if t == "fixed" then Some("float") else
    if t == "float" then Some("float") else
    if t == "float2" then Some("vec2") else
    if t == "float3" then Some("vec3") else
    if t == "float4" then Some("vec4") else
    if t == "half" then Some("float") else
    if t == "half2" then Some("vec2") else
    if t == "half3" then Some("vec3") else
    if t == "half4" then Some("vec4") else
    if t == "int" then Some("int") else
    if t == "int2" then Some("ivec2") else
    if t == "int3" then Some("ivec3") else
    if t == "int4" then Some("ivec4") else
    if t == "bool" then Some("bool") else
    if t == "bool2" then Some("bvec2") else
    if t == "bool3" then Some("bvec3") else
    if t == "bool4" then Some("bvec4") else
    if t == "float2x2" then Some("mat2x2") else
    if t == "float2x3" then Some("mat2x3") else
    if t == "float2x4" then Some("mat2x4") else
    if t == "float3x2" then Some("mat3x2") else
    if t == "float3x3" then Some("mat3x3") else
    if t == "float3x4" then Some("mat3x4") else
    if t == "float4x2" then Some("mat4x2") else
    if t == "float4x3" then Some("mat4x3") else
    if t == "float4x4" then Some("mat4x4") else
    if t == "sampler1D" then Some("sampler1D") else
    if t == "sampler2D" then Some("sampler2D") else
    if t == "sampler3D" then Some("sampler3D") else
    if t == "samplerCUBE" then Some("samplerCube") else
    if t == "sampler1DShadow" then Some("sampler1DShadow") else
    if t == "sampler2DShadow" then Some("sampler2DShadow") else
    if t == "sampler3DShadow" then Some("sampler3DShadow") else
    if t == "samplerCubeShadow" then Some("samplerCubeShadow") else
    if t == "sampler2DMS" then Some("sampler2DMS") else
    None
  }

  /** builtinConversion: the GLSL name of a Cg intrinsic. */
  function BuiltinConversion(t: string): Option<string>
  {
    if t == "frac" then Some("fract") else
    if t == "lerp" then Some("mix") else
    if t == "rsqrt" then Some("inversesqrt") else
    if t == "ddx" then Some("dFdx") else
    if t == "ddy" then Some("dFdy") else
    None
  }

  /** A member type converted through typeConversion; an unknown one is kept. */
  function ConvertType(t: string): string
  {
    match TypeConversion(t)
    case Some(g) => g
    case None => t
  }

  /** The shader header each converted program starts with. */
  function VertexInsert(): string
  {
    ""
    + "#version 150\n"
    + "#define PC\n"
    + "\n"
    + "float saturate( float v ) { return clamp( v, 0.0, 1.0 ); }\n"
    + "vec2 saturate( vec2 v ) { return clamp( v, 0.0, 1.0 ); }\n"
    + "vec3 saturate( vec3 v ) { return clamp( v, 0.0, 1.0 ); }\n"
    + "vec4 saturate( vec4 v ) { return clamp( v, 0.0, 1.0 ); }\n"
    + "vec4 tex2Dlod( sampler2D sampler, vec4 texcoord ) { return textureLod( sampler, texcoord.xy, texcoord.w ); }\n"
    + "\n"
  }

  function FragmentInsert(): string
  {
    ""
    + "#version 150\n"
    + "#define PC\n"
    + "\n"
    + "void clip( float v ) { if ( v < 0.0 ) { discard; } }\n"
    + "void clip( vec2 v ) { if ( any( lessThan( v, vec2( 0.0 ) ) ) ) { discard; } }\n"
    + "void clip( vec3 v ) { if ( any( lessThan( v, vec3( 0.0 ) ) ) ) { discard; } }\n"
    + "void clip( vec4 v ) { if ( any( lessThan( v, vec4( 0.0 ) ) ) ) { discard; } }\n"
    + "\n"
    + "float saturate( float v ) { return clamp( v, 0.0, 1.0 ); }\n"
    + "vec2 saturate( vec2 v ) { return clamp( v, 0.0, 1.0 ); }\n"
    + "vec3 saturate( vec3 v ) { return clamp( v, 0.0, 1.0 ); }\n"
    + "vec4 saturate( vec4 v ) { return clamp( v, 0.0, 1.0 ); }\n"
    + "\n"
    + "vec4 tex2D( sampler2D sampler, vec2 texcoord ) { return texture( sampler, texcoord.xy ); }\n"
    + "vec4 tex2D( sampler2DShadow sampler, vec3 texcoord ) { return vec4( texture( sampler, texcoord.xyz ) ); }\n"
    + "\n"
    + "vec4 tex2D( sampler2D sampler, vec2 texcoord, vec2 dx, vec2 dy ) { return textureGrad( sampler, texcoord.xy, dx, dy ); }\n"
    + "vec4 tex2D( sampler2DShadow sampler, vec3 texcoord, vec2 dx, vec2 dy ) { return vec4( textureGrad( sampler, texcoord.xyz, dx, dy ) ); }\n"
    + "\n"
    + "vec4 texCUBE( samplerCube sampler, vec3 texcoord ) { return texture( sampler, texcoord.xyz ); }\n"
    + "vec4 texCUBE( samplerCubeShadow sampler, vec4 texcoord ) { return vec4( texture( sampler, texcoord.xyzw ) ); }\n"
    + "\n"
    + "vec4 tex1Dproj( sampler1D sampler, vec2 texcoord ) { return textureProj( sampler, texcoord ); }\n"
    + "vec4 tex2Dproj( sampler2D sampler, vec3 texcoord ) { return textureProj( sampler, texcoord ); }\n"
    + "vec4 tex3Dproj( sampler3D sampler, vec4 texcoord ) { return textureProj( sampler, texcoord ); }\n"
    + "\n"
    + "vec4 tex1Dbias( sampler1D sampler, vec4 texcoord ) { return texture( sampler, texcoord.x, texcoord.w ); }\n"
    + "vec4 tex2Dbias( sampler2D sampler, vec4 texcoord ) { return texture( sampler, texcoord.xy, texcoord.w ); }\n"
    + "vec4 tex3Dbias( sampler3D sampler, vec4 texcoord ) { return texture( sampler, texcoord.xyz, texcoord.w ); }\n"
    + "vec4 texCUBEbias( samplerCube sampler, vec4 texcoord ) { return texture( sampler, texcoord.xyz, texcoord.w ); }\n"
    + "\n"
    + "vec4 tex1Dlod( sampler1D sampler, vec4 texcoord ) { return textureLod( sampler, texcoord.x, texcoord.w ); }\n"
    + "vec4 tex2Dlod( sampler2D sampler, vec4 texcoord ) { return textureLod( sampler, texcoord.xy, texcoord.w ); }\n"
    + "vec4 tex3Dlod( sampler3D sampler, vec4 texcoord ) { return textureLod( sampler, texcoord.xyz, texcoord.w ); }\n"
    + "vec4 texCUBElod( samplerCube sampler, vec4 texcoord ) { return textureLod( sampler, texcoord.xyz, texcoord.w ); }\n"
    + "\n"
  }

  /** The name of the uniform vec4 array (VERTEX/FRAGMENT_UNIFORM_ARRAY_NAME). */
  function UniformArrayName(isVertex: bool): string
  {
    if isVertex then "_va_" else "_fa_"
  }

  /** The rows before the pass-through block carry no TEXCOORD semantic for vertex outputs or fragment inputs. */
  lemma AttribRowsBeforeVaryings(j: nat)
    requires j < 42
    ensures |AttribPC(j).semantic| != 9 || AttribPC(j).flags == AT_VS_IN
  {
  }

  /** The pass-through block: row 42 + k carries TEXCOORDk for both vertex outputs and fragment inputs. */
  lemma AttribRowVarying(k: nat)
    requires k <= 9
    ensures AttribPC(42 + k) == AttribInfo("TEXCOORD" + [Digit(k)], "vofi_TexCoord" + [Digit(k)], AT_VS_OUT | AT_PS_IN)
  {
  }

  /** A matching row with no matching row before it is the one FirstAttrib finds. */
  lemma FirstAttribIs(sem: string, attribType: bv8, k: nat)
    requires AttribMatches(k, sem, attribType)
    requires forall j :: 0 <= j < k ==> !AttribMatches(j, sem, attribType)
    ensures FirstAttrib(sem, attribType, 0) == Some(k)
  {
  }

  /** No row before 42 + n matches TEXCOORDn as a vertex output or a fragment input. */
  lemma NoEarlierVarying(n: nat, j: nat)
    requires n <= 9 && j < 42 + n
    ensures !AttribMatches(j, "TEXCOORD" + [Digit(n)], AT_VS_OUT)
    ensures !AttribMatches(j, "TEXCOORD" + [Digit(n)], AT_PS_IN)
  {
    var sem := "TEXCOORD" + [Digit(n)];
    if j < 42 {
      AttribRowsBeforeVaryings(j);
    } else {
      AttribRowVarying(j - 42);
      assert AttribPC(j).semantic[8] != sem[8];
    }
  }

  /** Vertex outputs and fragment inputs with the same TEXCOORD semantic link up. */
  lemma VaryingsLink(n: nat)
    requires n <= 9
    ensures ConvertSemantic("TEXCOORD" + [Digit(n)], AT_VS_OUT) == "vofi_TexCoord" + [Digit(n)]
    ensures ConvertSemantic("TEXCOORD" + [Digit(n)], AT_PS_IN) == "vofi_TexCoord" + [Digit(n)]
  {
    var sem := "TEXCOORD" + [Digit(n)];
    forall j | 0 <= j < 42 + n
      ensures !AttribMatches(j, sem, AT_VS_OUT) && !AttribMatches(j, sem, AT_PS_IN)
    {
      NoEarlierVarying(n, j);
    }
    AttribRowVarying(n);
    FirstAttribIs(sem, AT_VS_OUT, 42 + n);
    FirstAttribIs(sem, AT_PS_IN, 42 + n);
  }

  // ---------------------------------------------------------------------
  // In/out structs
  // ---------------------------------------------------------------------

  /** inOutVariable_t: a struct member with its GLSL type and name. */
  datatype InOutVar = InOutVar(typ: string, nameCg: string, nameGLSL: string, declareInOut: bool)

  /** Some entry of vars already has the GLSL name name. */
  predicate NameTaken(vars: seq<InOutVar>, name: string)
    ensures NameTaken(vars, name) <==> exists j :: 0 <= j < |vars| && vars[j].nameGLSL == name
  {
    |vars| > 0 && (vars[|vars| - 1].nameGLSL == name || NameTaken(vars[..|vars| - 1], name))
  }

  /** No entry that declares its name shares it with an earlier entry. */
  predicate NoDuplicateDecls(vars: seq<InOutVar>)
  {
    forall a, b :: 0 <= a < b < |vars| && vars[b].declareInOut ==> vars[a].nameGLSL != vars[b].nameGLSL
  }

  /** Entry k is the first of vars with its GLSL name. */
  predicate FirstWithName(vars: seq<InOutVar>, k: nat)
    requires k < |vars|
  {
    forall j :: 0 <= j < k ==> vars[j].nameGLSL != vars[k].nameGLSL
  }

  /** The member "typ nameCg : sem ;" as ParseInOutStruct appends it to vars. */
  function MakeVar(typ: string, nameCg: string, sem: string, attribType: bv8, vars: seq<InOutVar>): InOutVar
  {
    var glsl := ConvertSemantic(sem, attribType);
    InOutVar(ConvertType(typ), nameCg, glsl, !NameTaken(vars, glsl))
  }

  /** MakeVar for one attribute class, as ParseInOutStruct applies it. */
  function Maker(attribType: bv8): (mk: (string, string, string, seq<InOutVar>) -> InOutVar)
    ensures DeclaresUnlessTaken(mk)
  {
    (typ: string, nameCg: string, sem: string, vs: seq<InOutVar>) => MakeVar(typ, nameCg, sem, attribType, vs)
  }

  /** mk marks an entry for declaration exactly when its GLSL name is new. */
  ghost predicate DeclaresUnlessTaken(mk: (string, string, string, seq<InOutVar>) -> InOutVar)
  {
    forall typ, nameCg, sem, vs :: mk(typ, nameCg, sem, vs).declareInOut <==> !NameTaken(vs, mk(typ, nameCg, sem, vs).nameGLSL)
  }

  /**
   * The members of a struct body from p up to and including its "}", each
   * made into an entry by mk.  A member without a ":" semantic is skipped up
   * to the next ";".  At the end of the input the source keeps looping; the
   * model stops.
   */
  function MembersWith(toks: seq<Tok>, p: nat, mk: (string, string, string, seq<InOutVar>) -> InOutVar, vars: seq<InOutVar>): (r: (seq<InOutVar>, nat))
    requires p <= |toks|
    ensures p <= r.1 <= |toks|
    decreases |toks| - p
  {
    if p == |toks| then (vars, p)
    else if toks[p].text == "}" then (vars, p + 1)
    else
      var after := Next(toks, p + 1);
      if !IsNext(toks, after, ":") then MembersWith(toks, SkipUntil(toks, ";", after), mk, vars)
      else
        var v := mk(toks[p].text, At(toks, p + 1).text, At(toks, after + 1).text, vars);
        MembersWith(toks, Next(toks, Next(toks, after + 1)), mk, vars + [v])
  }

  /** The struct members of attribute class attribType. */
  function ParseMembers(toks: seq<Tok>, p: nat, attribType: bv8, vars: seq<InOutVar>): (r: (seq<InOutVar>, nat))
    requires p <= |toks|
    ensures p <= r.1 <= |toks|
  {
    MembersWith(toks, p, Maker(attribType), vars)
  }

  /** One member of a struct body: skipped without a semantic, else made into an entry. */
  lemma MemberStep(toks: seq<Tok>, p: nat, attribType: bv8, vars: seq<InOutVar>)
    requires p < |toks| && toks[p].text != "}"
    ensures var after := Next(toks, p + 1);
      !IsNext(toks, after, ":") ==>
        ParseMembers(toks, p, attribType, vars) == ParseMembers(toks, SkipUntil(toks, ";", after), attribType, vars)
    ensures var after := Next(toks, p + 1);
      IsNext(toks, after, ":") ==>
        ParseMembers(toks, p, attribType, vars) ==
          ParseMembers(toks, Next(toks, Next(toks, after + 1)), attribType,
                       vars + [MakeVar(toks[p].text, At(toks, p + 1).text, At(toks, after + 1).text, attribType, vars)])
  {
  }

  /**
   * ParseMembers keeps the entries it was given, and each entry it adds is
   * declared exactly when it is the first with its GLSL name; so it never
   * declares a name twice.
   */
  lemma ParseMembersDeclares(toks: seq<Tok>, p: nat, attribType: bv8, vars: seq<InOutVar>)
    requires p <= |toks|
    ensures var r := ParseMembers(toks, p, attribType, vars);
      |vars| <= |r.0| && r.0[..|vars|] == vars &&
      (forall k :: |vars| <= k < |r.0| ==> (r.0[k].declareInOut <==> FirstWithName(r.0, k))) &&
      (NoDuplicateDecls(vars) ==> NoDuplicateDecls(r.0))
  {
    var mk := Maker(attribType);
    MembersExtend(toks, p, mk, vars);
    MembersFirst(toks, p, mk, vars);
    MembersNoDuplicates(toks, p, mk, vars);
  }

  /** The entries already parsed stay, in order, at the front of the result. */
  lemma {:induction false} MembersExtend(toks: seq<Tok>, p: nat, mk: (string, string, string, seq<InOutVar>) -> InOutVar, vars: seq<InOutVar>)
    requires p <= |toks|
    ensures var r := MembersWith(toks, p, mk, vars);
      |vars| <= |r.0| && r.0[..|vars|] == vars
    decreases |toks| - p
  {
    if p < |toks| && toks[p].text != "}" {
      var after := Next(toks, p + 1);
      if !IsNext(toks, after, ":") {
        MembersExtend(toks, SkipUntil(toks, ";", after), mk, vars);
      } else {
        var v := mk(toks[p].text, At(toks, p + 1).text, At(toks, after + 1).text, vars);
        var next := Next(toks, Next(toks, after + 1));
        MembersExtend(toks, next, mk, vars + [v]);
        PrefixOfPrefix(MembersWith(toks, next, mk, vars + [v]).0, vars + [v], vars);
      }
    }
  }

  /** A prefix of a prefix is a prefix. */
  lemma PrefixOfPrefix<T>(all: seq<T>, mid: seq<T>, pre: seq<T>)
    requires |mid| <= |all| && all[..|mid|] == mid
    requires |pre| <= |mid| && mid[..|pre|] == pre
    ensures |pre| <= |all| && all[..|pre|] == pre
  {
    assert all[..|pre|] == all[..|mid|][..|pre|];
  }

  /** Each new entry is declared exactly when it is the first of its name. */
  lemma {:induction false} MembersFirst(toks: seq<Tok>, p: nat, mk: (string, string, string, seq<InOutVar>) -> InOutVar, vars: seq<InOutVar>)
    requires p <= |toks| && DeclaresUnlessTaken(mk)
    ensures var r := MembersWith(toks, p, mk, vars);
      forall k :: |vars| <= k < |r.0| ==> (r.0[k].declareInOut <==> FirstWithName(r.0, k))
    decreases |toks| - p
  {
    if p < |toks| && toks[p].text != "}" {
      var after := Next(toks, p + 1);
      if !IsNext(toks, after, ":") {
        MembersFirst(toks, SkipUntil(toks, ";", after), mk, vars);
        assert MembersWith(toks, p, mk, vars) == MembersWith(toks, SkipUntil(toks, ";", after), mk, vars);
      } else {
        var v := mk(toks[p].text, At(toks, p + 1).text, At(toks, after + 1).text, vars);
        var next := Next(toks, Next(toks, after + 1));
        MembersFirst(toks, next, mk, vars + [v]);
        MembersExtend(toks, next, mk, vars + [v]);
        AppendDeclares(vars, v);
        var r := MembersWith(toks, next, mk, vars + [v]);
        FirstWithNamePrefix(r.0, vars + [v], |vars|);
        assert r.0[|vars|] == (vars + [v])[|vars|];
      }
    }
  }

  /** FirstWithName at k looks only at the first k + 1 entries. */
  lemma FirstWithNamePrefix(all: seq<InOutVar>, pre: seq<InOutVar>, k: nat)
    requires k < |pre| <= |all| && all[..|pre|] == pre
    ensures FirstWithName(all, k) <==> FirstWithName(pre, k)
  {
    assert forall j :: 0 <= j <= k ==> all[j] == pre[j];
  }

  /** The parse adds no second declaration of a name. */
  lemma {:induction false} MembersNoDuplicates(toks: seq<Tok>, p: nat, mk: (string, string, string, seq<InOutVar>) -> InOutVar, vars: seq<InOutVar>)
    requires p <= |toks| && DeclaresUnlessTaken(mk)
    ensures NoDuplicateDecls(vars) ==> NoDuplicateDecls(MembersWith(toks, p, mk, vars).0)
    decreases |toks| - p
  {
    if p < |toks| && toks[p].text != "}" {
      var after := Next(toks, p + 1);
      if !IsNext(toks, after, ":") {
        MembersNoDuplicates(toks, SkipUntil(toks, ";", after), mk, vars);
      } else {
        var v := mk(toks[p].text, At(toks, p + 1).text, At(toks, after + 1).text, vars);
        AppendDeclares(vars, v);
        MembersNoDuplicates(toks, Next(toks, Next(toks, after + 1)), mk, vars + [v]);
      }
    }
  }

  /** Appending a made entry keeps earlier entries and the no-duplicate property. */
  lemma AppendDeclares(vars: seq<InOutVar>, v: InOutVar)
    requires v.declareInOut <==> !NameTaken(vars, v.nameGLSL)
    ensures (vars + [v])[|vars|].declareInOut <==> FirstWithName(vars + [v], |vars|)
    ensures NoDuplicateDecls(vars) ==> NoDuplicateDecls(vars + [v])
  {
    var all := vars + [v];
    assert forall j :: 0 <= j < |vars| ==> all[j] == vars[j];
  }

  /** A whole struct: "{", the members, "}" and the closing ";". */
  function ParseStruct(toks: seq<Tok>, p: nat, attribType: bv8, vars: seq<InOutVar>): (r: (seq<InOutVar>, nat))
    requires p <= |toks|
    ensures p <= r.1 <= |toks|
  {
    var (out, q) := ParseMembers(toks, Next(toks, p), attribType, vars);
    (out, Next(toks, q))
  }

  /**
   * ParseInOutStruct: reads a struct body into vars.  Each member's type and
   * semantic are converted and declareInOut says whether no earlier entry
   * has its GLSL name.
   */
  method ParseInOutStruct(toks: seq<Tok>, p: nat, attribType: bv8, vars: seq<InOutVar>)
    returns (out: seq<InOutVar>, q: nat)
    requires p <= |toks|
    ensures (out, q) == ParseStruct(toks, p, attribType, vars)
  {
    var pos := Next(toks, p);
    out := vars;
    while pos < |toks| && toks[pos].text != "}"
      invariant pos <= |toks|
      invariant ParseMembers(toks, pos, attribType, out) == ParseMembers(toks, Next(toks, p), attribType, vars)
      decreases |toks| - pos
    {
      pos, out := ReadMember(toks, pos, attribType, out);
    }
    if pos < |toks| {
      pos := pos + 1;
    }
    q := Next(toks, pos);
  }

  /** One pass of ParseInOutStruct's loop: the member at pos, converted and appended. */
  method ReadMember(toks: seq<Tok>, pos: nat, attribType: bv8, vars: seq<InOutVar>)
    returns (pos': nat, out: seq<InOutVar>)
    requires pos < |toks| && toks[pos].text != "}"
    ensures pos < pos' <= |toks|
    ensures ParseMembers(toks, pos', attribType, out) == ParseMembers(toks, pos, attribType, vars)
  {
    var typ := toks[pos].text;
    var nameCg := At(toks, pos + 1).text;
    var after := Next(toks, pos + 1);
    MemberStep(toks, pos, attribType, vars);
    if !IsNext(toks, after, ":") {
      pos' := SkipUntil(toks, ";", after);
      out := vars;
      return;
    }
    var sem := At(toks, after + 1).text;
    var glsl := ConvertSemantic(sem, attribType);
    pos' := Next(toks, Next(toks, after + 1));
    var declare := NotYetDeclared(vars, glsl);
    var v := InOutVar(ConvertType(typ), nameCg, glsl, declare);
    assert v == MakeVar(typ, nameCg, sem, attribType, vars);
    out := vars + [v];
  }

  /** The scan for an earlier entry with the GLSL name glsl. */
  method NotYetDeclared(vars: seq<InOutVar>, glsl: string) returns (declare: bool)
    ensures declare <==> !NameTaken(vars, glsl)
  {
    declare := true;
    var i := 0;
    while i < |vars| && declare
      invariant 0 <= i <= |vars|
      invariant declare <==> forall j :: 0 <= j < i ==> vars[j].nameGLSL != glsl
    {
      if vars[i].nameGLSL == glsl {
        declare := false;
      }
      i := i + 1;
    }
  }

  /** One "in"/"out" declaration line. */
  function Decl(dir: string, v: InOutVar): string
  {
    dir + v.typ + " " + v.nameGLSL + ";\n"
  }

  /** The declaration lines of the entries of vars that declare their name, in order. */
  function Decls(dir: string, vars: seq<InOutVar>): string
  {
    if |vars| == 0 then ""
    else Decls(dir, vars[..|vars| - 1]) + (if vars[|vars| - 1].declareInOut then Decl(dir, vars[|vars| - 1]) else "")
  }

  // ---------------------------------------------------------------------
  // The rewriter
  // ---------------------------------------------------------------------

  /**
   * The indentation prefix on '{': one more tab, within the 127 characters
   * the 128-byte newline buffer can hold (at the cap the last character
   * becomes the tab).
   */
  function IndentOpen(nl: string): (r: string)
    requires |nl| <= 127
    ensures 1 <= |r| <= 127 && r[|r| - 1] == '\t'
    ensures |nl| < 127 ==> |r| == |nl| + 1
  {
    if |nl| < 127 then nl + "\t" else nl[..126] + "\t"
  }

  /** The indentation prefix on '}': one character shorter, never below empty. */
  function IndentClose(nl: string): (r: string)
    ensures |r| == if |nl| == 0 then 0 else |nl| - 1
    ensures r == nl[..|r|]
  {
    if |nl| == 0 then nl else nl[..|nl| - 1]
  }

  /** A '{' and its matching '}' leave the prefix as it was, below the cap. */
  lemma IndentBalanced(nl: string)
    requires |nl| < 127
    ensures IndentClose(IndentOpen(nl)) == nl
  {
  }

  /** At the cap a further '{' changes nothing once the prefix ends in a tab. */
  lemma IndentSaturates(nl: string)
    requires |nl| == 127 && nl[126] == '\t'
    ensures IndentOpen(nl) == nl
  {
  }

  /**
   * The white space written before a token: the indentation prefix when it
   * starts a new line, a space after other white space, else nothing.
   * After "static" or "const" the lexer has skipped the white space up to
   * and including the first line break, so a glued token on the same line
   * gets nothing and one on the next line only its own indentation.
   */
  function Sep(tok: Tok, glued: bool, nl: string): (r: string)
    ensures r == "" || r == " " || r == nl
  {
    if !glued then (if tok.lines > 0 then nl else if tok.spaceBefore then " " else "")
    else if tok.lines >= 2 then nl
    else if tok.lines == 1 && tok.spaceBefore then " " else ""
  }

  /** The rewriter's state between two tokens of the outer loop. */
  datatype Conv = Conv(pos: nat, program: string, uniforms: seq<string>,
                       varsIn: seq<InOutVar>, varsOut: seq<InOutVar>,
                       inMain: bool, newline: string, glue: bool)

  const START := Conv(0, "", [], [], [], false, "\n", false)

  /** A state the rewriter can be in: within the input, with a bounded prefix. */
  predicate ConvValid(toks: seq<Tok>, st: Conv)
  {
    st.pos <= |toks| && |st.newline| <= 127
  }

  /** The first index of x in list. */
  function IndexOf(list: seq<string>, x: string): (r: Option<nat>)
    ensures r.Some? ==> r.value < |list| && list[r.value] == x && forall j :: 0 <= j < r.value ==> list[j] != x
    ensures r.None? <==> forall j :: 0 <= j < |list| ==> list[j] != x
  {
    if |list| == 0 then None
    else if list[0] == x then Some(0)
    else match IndexOf(list[1..], x)
      case None => None
      case Some(i) => Some(i + 1)
  }

  /** The first entry of vars whose Cg name is member. */
  function FindCg(vars: seq<InOutVar>, member: string): (r: Option<nat>)
    ensures r.Some? ==> r.value < |vars| && vars[r.value].nameCg == member
    ensures r.Some? ==> forall j :: 0 <= j < r.value ==> vars[j].nameCg != member
    ensures r.None? <==> forall j :: 0 <= j < |vars| ==> vars[j].nameCg != member
  {
    if |vars| == 0 then None
    else if vars[0].nameCg == member then Some(0)
    else match FindCg(vars[1..], member)
      case None => None
      case Some(i) => Some(i + 1)
  }

  /** "vertex.x", "fragment.x" or "result.x": the member's GLSL name, or the text kept. */
  function MemberRef(vars: seq<InOutVar>, owner: string, member: string): string
  {
    match FindCg(vars, member)
    case Some(i) => vars[i].nameGLSL
    case None => owner + "." + member
  }

  /** A use of uniform i, name: an element of the uniform array with the name as a comment. */
  function UniformRef(isVertex: bool, i: nat, name: string): string
  {
    UniformArrayName(isVertex) + "[" + DecimalString(i) + " /* " + name + " */]"
  }

  /** The token at t opens a "uniform float4" declaration. */
  predicate OpensUniform(toks: seq<Tok>, t: nat)
  {
    At(toks, t).text == "uniform" && IsNext(toks, Next(toks, t), "float4")
  }

  /**
   * The run of "uniform float4 name [: register(...)] ;" declarations that
   * starts with the token at t: each name is appended to uniforms and the
   * result is the index of the token that follows, which opens none.
   */
  function UniformDecls(toks: seq<Tok>, t: nat, uniforms: seq<string>): (r: (nat, seq<string>))
    requires t <= |toks|
    ensures t <= r.0 <= |toks| && !OpensUniform(toks, r.0)
    ensures |uniforms| <= |r.1| && r.1[..|uniforms|] == uniforms
    ensures r.0 == t ==> r.1 == uniforms
    decreases |toks| - t
  {
    if !OpensUniform(toks, t) then (t, uniforms)
    else
      var q := Next(toks, t + 2);
      var q' := if !IsNext(toks, q, ":") then q
                else if IsNext(toks, q + 1, "register") then SkipUntil(toks, ";", q + 2)
                else q + 1;
      UniformDecls(toks, q', uniforms + [At(toks, t + 2).text])
  }

  /** The token at t is "struct" and one of the four struct names follows. */
  predicate OpensStruct(toks: seq<Tok>, t: nat)
  {
    At(toks, t).text == "struct" && Next(toks, t) < |toks| && IsStructKind(toks[Next(toks, t)].text)
  }

  /** The text after "struct": VS_IN, VS_OUT, PS_IN or PS_OUT. */
  predicate IsStructKind(s: string)
  {
    s == "VS_IN" || s == "VS_OUT" || s == "PS_IN" || s == "PS_OUT"
  }

  /** The entry PS_IN adds for the fragment position (its declareInOut is left unset in the source). */
  const FRAG_COORD := InOutVar("vec4", "position", "gl_FragCoord", false)

  /** A struct at p: its members parsed and their declarations written. */
  function StepStruct(toks: seq<Tok>, st: Conv, kind: string, p: nat): (r: Conv)
    requires p < |toks| && IsStructKind(kind)
    ensures p < r.pos <= |toks|
    ensures |st.program| <= |r.program| && r.program[..|st.program|] == st.program
  {
    if kind == "VS_IN" || kind == "PS_IN" then
      var (vs, q) := ParseStruct(toks, p + 1, if kind == "VS_IN" then AT_VS_IN else AT_PS_IN, st.varsIn);
      st.(pos := q, program := st.program + "\n\n" + Decls("in ", vs),
          varsIn := if kind == "PS_IN" then vs + [FRAG_COORD] else vs)
    else
      var (vs, q) := ParseStruct(toks, p + 1, if kind == "VS_OUT" then AT_VS_OUT else AT_PS_OUT, st.varsOut);
      st.(pos := q, program := st.program + "\n" + Decls("out ", vs), varsOut := vs)
  }

  /** A token with a "." after it: a struct member access or plain text. */
  function StepMember(toks: seq<Tok>, st: Conv, x: string, sep: string, p: nat): (r: Conv)
    requires p < |toks|
    ensures p < r.pos <= |toks|
    ensures r.(pos := st.pos, program := st.program) == st
    ensures |st.program| <= |r.program| && r.program[..|st.program|] == st.program
  {
    if x == "vertex" || x == "fragment" then
      st.(pos := Next(toks, p + 1), program := st.program + sep + MemberRef(st.varsIn, x, At(toks, p + 1).text))
    else if x == "result" then
      st.(pos := Next(toks, p + 1), program := st.program + sep + MemberRef(st.varsOut, x, At(toks, p + 1).text))
    else st.(pos := p + 1, program := st.program + sep + x + ".")
  }

  /**
   * The first rewriting rule that applies to the token at t, once the
   * uniform declarations before it have added their names (uniforms).
   */
  function StepRule(toks: seq<Tok>, isVertex: bool, st: Conv, t: nat, uniforms: seq<string>): (r: Conv)
    requires ConvValid(toks, st) && st.pos < |toks| && st.pos <= t <= |toks|
    ensures ConvValid(toks, r) && st.pos < r.pos && r.uniforms == uniforms
    ensures |st.program| <= |r.program| && r.program[..|st.program|] == st.program
    ensures !OpensStruct(toks, t) ==> r.varsIn == st.varsIn && r.varsOut == st.varsOut
  {
    var tok := At(toks, t);
    var x := tok.text;
    var p := Next(toks, t);
    var glued := st.glue && t == st.pos;
    var sep := Sep(tok, glued, st.newline);
    var st' := st.(uniforms := uniforms, glue := false);
    if OpensStruct(toks, t) then StepStruct(toks, st', toks[p].text, p)
    else if x == "static" || (x == "const" && st.inMain) then st'.(pos := p, program := st.program + sep, glue := true)
    else if x == ":" && IsNext(toks, p, "register") then st'.(pos := SkipUntil(toks, ";", p + 1), program := st.program + ";")
    else if x == "void" && IsNext(toks, p, "main") then
      st'.(pos := SkipUntil(toks, ")", Next(toks, p + 1)), program := st.program + "\nvoid main()", inMain := true)
    else if x == "{" then st'.(pos := p, program := st.program + sep + "{", newline := IndentOpen(st.newline))
    else if x == "}" then
      var nl := IndentClose(st.newline);
      st'.(pos := p, program := st.program + Sep(tok, glued, nl) + "}", newline := nl)
    else StepText(toks, isVertex, st', x, sep, p)
  }

  /** The rules for a token that is not a keyword: type, uniform, member access, intrinsic or plain text. */
  function StepText(toks: seq<Tok>, isVertex: bool, st: Conv, x: string, sep: string, p: nat): (r: Conv)
    requires p <= |toks|
    ensures r.pos >= p && r.pos <= |toks|
    ensures r.(pos := st.pos, program := st.program) == st
    ensures |st.program| <= |r.program| && r.program[..|st.program|] == st.program
  {
    if TypeConversion(x).Some? then st.(pos := p, program := st.program + sep + TypeConversion(x).value)
    else if IndexOf(st.uniforms, x).Some? then
      st.(pos := p, program := st.program + sep + UniformRef(isVertex, IndexOf(st.uniforms, x).value, x))
    else if IsNext(toks, p, ".") then StepMember(toks, st, x, sep, p)
    else if BuiltinConversion(x).Some? then st.(pos := p, program := st.program + sep + BuiltinConversion(x).value)
    else st.(pos := p, program := st.program + sep + x)
  }

  /**
   * One pass of ConvertCG2GLSL's outer loop: the uniform declarations that
   * start at the current token, then the first rule that applies to the
   * token after them.
   */
  function Step(toks: seq<Tok>, isVertex: bool, st: Conv): (r: Conv)
    requires ConvValid(toks, st) && st.pos < |toks|
    ensures ConvValid(toks, r) && st.pos < r.pos
    ensures |st.uniforms| <= |r.uniforms| && r.uniforms[..|st.uniforms|] == st.uniforms
    ensures |st.program| <= |r.program| && r.program[..|st.program|] == st.program
  {
    var (t, uniforms) := UniformDecls(toks, st.pos, st.uniforms);
    StepRule(toks, isVertex, st, t, uniforms)
  }

  /** The outer loop from st to the end of the input. */
  function Run(toks: seq<Tok>, isVertex: bool, st: Conv): (r: Conv)
    requires ConvValid(toks, st)
    ensures r.pos == |toks| && |r.newline| <= 127
    ensures |st.uniforms| <= |r.uniforms| && r.uniforms[..|st.uniforms|] == st.uniforms
    decreases |toks| - st.pos
  {
    if st.pos == |toks| then st
    else
      var r := Run(toks, isVertex, Step(toks, isVertex, st));
      assert r.uniforms[..|st.uniforms|] == r.uniforms[..|Step(toks, isVertex, st).uniforms|][..|st.uniforms|];
      r
  }

  /** The outer loop after one pass is the outer loop from where the pass ends. */
  lemma RunStep(toks: seq<Tok>, isVertex: bool, st: Conv)
    requires ConvValid(toks, st) && st.pos < |toks|
    ensures Run(toks, isVertex, st) == Run(toks, isVertex, Step(toks, isVertex, st))
  {
  }

  /** The state after the whole input. */
  function Converted(toks: seq<Tok>, isVertex: bool): Conv
  {
    Run(toks, isVertex, START)
  }

  // ---------------------------------------------------------------------
  // What one pass of the rewrite does with the token at the read position
  // ---------------------------------------------------------------------

  /** The tokens a rule before the type table claims. */
  predicate IsKeyword(x: string)
  {
    x == "struct" || x == "static" || x == "const" || x == ":" || x == "void" || x == "{" || x == "}"
  }

  /** No pass ever removes text already written. */
  lemma {:induction false} RunExtendsProgram(toks: seq<Tok>, isVertex: bool, st: Conv)
    requires ConvValid(toks, st)
    ensures |st.program| <= |Run(toks, isVertex, st).program|
    ensures Run(toks, isVertex, st).program[..|st.program|] == st.program
    decreases |toks| - st.pos
  {
    if st.pos < |toks| {
      var next := Step(toks, isVertex, st);
      RunExtendsProgram(toks, isVertex, next);
      var r := Run(toks, isVertex, next);
      assert r.program[..|st.program|] == r.program[..|next.program|][..|st.program|];
    }
  }

  /**
   * Each "uniform float4 name" declaration appends name to the uniform
   * list, after the names collected before it.
   */
  lemma UniformDeclCollected(toks: seq<Tok>, t: nat, uniforms: seq<string>)
    requires t <= |toks| && OpensUniform(toks, t)
    ensures var r := UniformDecls(toks, t, uniforms);
      |uniforms| < |r.1| && r.1[|uniforms|] == At(toks, t + 2).text
  {
    var q := Next(toks, t + 2);
    var q' := if !IsNext(toks, q, ":") then q
              else if IsNext(toks, q + 1, "register") then SkipUntil(toks, ";", q + 2)
              else q + 1;
    var u' := uniforms + [At(toks, t + 2).text];
    var r := UniformDecls(toks, q', u');
    assert r.1[|uniforms|] == r.1[..|u'|][|uniforms|];
  }

  /**
   * "static", and "const" inside main, are dropped: only the white space
   * before them is written, and the token after them is glued on.
   */
  lemma StorageKeywordRemoved(toks: seq<Tok>, isVertex: bool, st: Conv)
    requires ConvValid(toks, st) && st.pos < |toks| && !OpensUniform(toks, st.pos)
    requires toks[st.pos].text == "static" || (toks[st.pos].text == "const" && st.inMain)
    ensures var r := Step(toks, isVertex, st);
      |st.program| <= |r.program| && r.program[..|st.program|] == st.program &&
      var w := r.program[|st.program|..];
      (w == "" || w == " " || w == st.newline) && r.glue && r.pos == st.pos + 1
  {
  }

  /** "const" outside main is kept. */
  lemma ConstKeptOutsideMain(toks: seq<Tok>, isVertex: bool, st: Conv)
    requires ConvValid(toks, st) && st.pos < |toks| && !OpensUniform(toks, st.pos)
    requires toks[st.pos].text == "const" && !st.inMain
    requires IndexOf(st.uniforms, "const").None? && !IsNext(toks, st.pos + 1, ".")
    ensures Step(toks, isVertex, st).program == st.program + Sep(toks[st.pos], st.glue, st.newline) + "const"
  {
    assert UniformDecls(toks, st.pos, st.uniforms) == (st.pos, st.uniforms);
    ConstNotConverted();
  }

  /** "const" is in neither conversion table. */
  lemma ConstNotConverted()
    ensures TypeConversion("const").None? && BuiltinConversion("const").None?
  {
  }

  /** A Cg type becomes its GLSL type. */
  lemma TypeConverted(toks: seq<Tok>, isVertex: bool, st: Conv)
    requires ConvValid(toks, st) && st.pos < |toks| && !OpensUniform(toks, st.pos)
    requires !IsKeyword(toks[st.pos].text) && TypeConversion(toks[st.pos].text).Some?
    ensures Step(toks, isVertex, st).program ==
      st.program + Sep(toks[st.pos], st.glue, st.newline) + TypeConversion(toks[st.pos].text).value
  {
  }

  /** No intrinsic of the builtin table is also a type of the type table. */
  lemma BuiltinNotType(x: string)
    requires BuiltinConversion(x).Some?
    ensures TypeConversion(x).None?
  {
  }

  /**
   * frac, lerp, rsqrt, ddx and ddy become fract, mix, inversesqrt, dFdx
   * and dFdy, unless a uniform has the name or a "." follows.
   */
  lemma BuiltinRenamed(toks: seq<Tok>, isVertex: bool, st: Conv)
    requires ConvValid(toks, st) && st.pos < |toks| && !OpensUniform(toks, st.pos)
    requires BuiltinConversion(toks[st.pos].text).Some?
    requires IndexOf(st.uniforms, toks[st.pos].text).None? && !IsNext(toks, st.pos + 1, ".")
    ensures Step(toks, isVertex, st).program ==
      st.program + Sep(toks[st.pos], st.glue, st.newline) + BuiltinConversion(toks[st.pos].text).value
  {
    BuiltinNotType(toks[st.pos].text);
  }

  /**
   * A use of a collected uniform becomes the element of the uniform array
   * at the name's first position, and the array the program declares has
   * that name at that position.
   */
  lemma UniformRewritten(toks: seq<Tok>, isVertex: bool, st: Conv, i: nat)
    requires ConvValid(toks, st) && st.pos < |toks| && !OpensUniform(toks, st.pos)
    requires !IsKeyword(toks[st.pos].text) && TypeConversion(toks[st.pos].text).None?
    requires IndexOf(st.uniforms, toks[st.pos].text) == Some(i)
    ensures Step(toks, isVertex, st).program ==
      st.program + Sep(toks[st.pos], st.glue, st.newline) + UniformRef(isVertex, i, toks[st.pos].text)
    ensures var c := Run(toks, isVertex, st);
      i < |c.uniforms| && c.uniforms[i] == toks[st.pos].text &&
      forall j :: 0 <= j < i ==> c.uniforms[j] != toks[st.pos].text
  {
    var c := Run(toks, isVertex, st);
    assert c.uniforms[i] == c.uniforms[..|st.uniforms|][i];
    assert forall j :: 0 <= j < i ==> c.uniforms[j] == c.uniforms[..|st.uniforms|][j];
  }

  /**
   * "vertex.m" and "fragment.m" become the GLSL name of the input member
   * m, "result.m" that of the output member m.
   */
  lemma MemberResolved(toks: seq<Tok>, isVertex: bool, st: Conv, k: nat)
    requires ConvValid(toks, st) && st.pos + 2 < |toks| && !OpensUniform(toks, st.pos)
    requires var x := toks[st.pos].text; x == "vertex" || x == "fragment" || x == "result"
    requires IndexOf(st.uniforms, toks[st.pos].text).None? && toks[st.pos + 1].text == "."
    requires var vars := if toks[st.pos].text == "result" then st.varsOut else st.varsIn;
      FindCg(vars, toks[st.pos + 2].text) == Some(k)
    ensures var vars := if toks[st.pos].text == "result" then st.varsOut else st.varsIn;
      var r := Step(toks, isVertex, st);
      r.program == st.program + Sep(toks[st.pos], st.glue, st.newline) + vars[k].nameGLSL && r.pos == st.pos + 3
  {
    var x := toks[st.pos].text;
    var sep := Sep(toks[st.pos], st.glue, st.newline);
    var st' := st.(glue := false);
    OwnerNotType(x);
    StepPlain(toks, isVertex, st);
    assert StepText(toks, isVertex, st', x, sep, st.pos + 1) == StepMember(toks, st', x, sep, st.pos + 1);
  }

  /** The struct owners are not types. */
  lemma OwnerNotType(x: string)
    requires x == "vertex" || x == "fragment" || x == "result"
    ensures TypeConversion(x).None? && !IsKeyword(x)
  {
  }

  /** A token no keyword rule claims goes to the type, uniform, member and intrinsic rules. */
  lemma StepPlain(toks: seq<Tok>, isVertex: bool, st: Conv)
    requires ConvValid(toks, st) && st.pos < |toks| && !OpensUniform(toks, st.pos)
    requires !IsKeyword(toks[st.pos].text)
    ensures Step(toks, isVertex, st) ==
      StepText(toks, isVertex, st.(glue := false), toks[st.pos].text, Sep(toks[st.pos], st.glue, st.newline), st.pos + 1)
  {
    assert UniformDecls(toks, st.pos, st.uniforms) == (st.pos, st.uniforms);
  }

  /** A '{' indents the lines after it by one more tab. */
  lemma OpenBraceIndents(toks: seq<Tok>, isVertex: bool, st: Conv)
    requires ConvValid(toks, st) && st.pos < |toks| && !OpensUniform(toks, st.pos)
    requires toks[st.pos].text == "{"
    ensures var r := Step(toks, isVertex, st);
      r.program == st.program + Sep(toks[st.pos], st.glue, st.newline) + "{" &&
      r.newline == IndentOpen(st.newline)
  {
  }

  /** A '}' is written at one tab less, and that is the indentation from then on. */
  lemma CloseBraceOutdents(toks: seq<Tok>, isVertex: bool, st: Conv)
    requires ConvValid(toks, st) && st.pos < |toks| && !OpensUniform(toks, st.pos)
    requires toks[st.pos].text == "}"
    ensures var r := Step(toks, isVertex, st);
      r.program == st.program + Sep(toks[st.pos], st.glue, IndentClose(st.newline)) + "}" &&
      r.newline == IndentClose(st.newline)
  {
  }

  /** No pass declares an in/out name twice in a struct's list. */
  lemma StepKeepsNoDuplicates(toks: seq<Tok>, isVertex: bool, st: Conv)
    requires ConvValid(toks, st) && st.pos < |toks|
    requires NoDuplicateDecls(st.varsIn) && NoDuplicateDecls(st.varsOut)
    ensures NoDuplicateDecls(Step(toks, isVertex, st).varsIn)
    ensures NoDuplicateDecls(Step(toks, isVertex, st).varsOut)
  {
    var (t, uniforms) := UniformDecls(toks, st.pos, st.uniforms);
    assert Step(toks, isVertex, st) == StepRule(toks, isVertex, st, t, uniforms);
    if OpensStruct(toks, t) {
      var p := t + 1;
      var st' := st.(uniforms := uniforms, glue := false);
      assert StepRule(toks, isVertex, st, t, uniforms) == StepStruct(toks, st', toks[p].text, p);
      StructKeepsNoDuplicates(toks, st', toks[p].text, p);
    }
  }

  /** A struct's members keep both lists free of duplicate declarations. */
  lemma StructKeepsNoDuplicates(toks: seq<Tok>, st: Conv, kind: string, p: nat)
    requires p < |toks| && IsStructKind(kind)
    requires NoDuplicateDecls(st.varsIn) && NoDuplicateDecls(st.varsOut)
    ensures NoDuplicateDecls(StepStruct(toks, st, kind, p).varsIn)
    ensures NoDuplicateDecls(StepStruct(toks, st, kind, p).varsOut)
  {
    var at := if kind == "VS_IN" then AT_VS_IN else if kind == "PS_IN" then AT_PS_IN
              else if kind == "VS_OUT" then AT_VS_OUT else AT_PS_OUT;
    var vars := if kind == "VS_IN" || kind == "PS_IN" then st.varsIn else st.varsOut;
    ParseMembersDeclares(toks, Next(toks, p + 1), at, vars);
    var vs := ParseStruct(toks, p + 1, at, vars).0;
    assert NoDuplicateDecls(vs + [FRAG_COORD]) by {
      var all := vs + [FRAG_COORD];
      assert forall j :: 0 <= j < |vs| ==> all[j] == vs[j];
    }
  }

  /** The in and out lists of the whole conversion never declare a name twice. */
  lemma {:induction false} RunKeepsNoDuplicates(toks: seq<Tok>, isVertex: bool, st: Conv)
    requires ConvValid(toks, st)
    requires NoDuplicateDecls(st.varsIn) && NoDuplicateDecls(st.varsOut)
    ensures NoDuplicateDecls(Run(toks, isVertex, st).varsIn)
    ensures NoDuplicateDecls(Run(toks, isVertex, st).varsOut)
    decreases |toks| - st.pos
  {
    if st.pos < |toks| {
      StepKeepsNoDuplicates(toks, isVertex, st);
      RunKeepsNoDuplicates(toks, isVertex, Step(toks, isVertex, st));
    }
  }

  /** The conversion of any input keeps both lists free of duplicate declarations. */
  lemma ConvertedNoDuplicates(toks: seq<Tok>, isVertex: bool)
    ensures NoDuplicateDecls(Converted(toks, isVertex).varsIn)
    ensures NoDuplicateDecls(Converted(toks, isVertex).varsOut)
  {
    RunKeepsNoDuplicates(toks, isVertex, START);
  }

  /** The uniform array declaration, present only when there is a uniform. */
  function UniformArrayDecl(isVertex: bool, n: nat): string
  {
    if n > 0 then "\nuniform vec4 " + UniformArrayName(isVertex) + "[" + DecimalString(n) + "];\n" else ""
  }

  /** The converted program: the stage's header, the uniform array, then the rewritten text. */
  function ProgramText(isVertex: bool, c: Conv): string
  {
    (if isVertex then VertexInsert() else FragmentInsert()) + ProgramBody(isVertex, c)
  }

  /** The converted program after the stage's header. */
  function ProgramBody(isVertex: bool, c: Conv): string
  {
    UniformArrayDecl(isVertex, |c.uniforms|) + c.program
  }

  /**
   * What follows the stage's header ends with the rewritten text; before it
   * lies nothing when no uniform was found and otherwise a declaration of
   * the uniform vec4 array.
   */
  lemma ProgramBodyShape(isVertex: bool, c: Conv)
    ensures var t := ProgramBody(isVertex, c);
      |c.program| <= |t| && t[|t| - |c.program|..] == c.program
    ensures |c.uniforms| == 0 <==> ProgramBody(isVertex, c) == c.program
    ensures var decl := "\nuniform vec4 " + UniformArrayName(isVertex);
      var t := ProgramBody(isVertex, c);
      |c.uniforms| > 0 ==> |decl| <= |t| && t[..|decl|] == decl
  {
    var d := UniformArrayDecl(isVertex, |c.uniforms|);
    var t := ProgramBody(isVertex, c);
    assert t == d + c.program;
    assert t[|t| - |c.program|..] == c.program;
    if |c.uniforms| > 0 {
      var decl := "\nuniform vec4 " + UniformArrayName(isVertex);
      assert d[..|decl|] == decl;
      assert t[..|decl|] == d[..|decl|];
      assert |t| > |c.program|;
    }
  }

  /** Each uniform name followed by a line break. */
  function UniformLines(names: seq<string>): (r: string)
    ensures |r| == 0 || r[|r| - 1] == '\n'
  {
    if |names| == 0 then "" else UniformLines(names[..|names| - 1]) + names[|names| - 1] + "\n"
  }

  /** The uniforms file: one name per line, then an empty line. */
  function UniformsText(names: seq<string>): string
  {
    UniformLines(names) + "\n"
  }

  /**
   * ConvertCG2GLSL: rewrites the Cg program toks as GLSL for the vertex or
   * fragment stage, and lists the uniforms it found.
   */
  method ConvertCG2GLSL(toks: seq<Tok>, isVertex: bool) returns (out: string, uniforms: string)
    ensures out == ProgramText(isVertex, Converted(toks, isVertex))
    ensures uniforms == UniformsText(Converted(toks, isVertex).uniforms)
  {
    var c := RunConversion(toks, isVertex);
    out := ProgramText(isVertex, c);
    uniforms := WriteUniforms(c.uniforms);
  }

  /** The outer token loop: the final state of the rewrite. */
  method RunConversion(toks: seq<Tok>, isVertex: bool) returns (c: Conv)
    ensures c == Converted(toks, isVertex)
  {
    var st := START;
    while st.pos < |toks|
      invariant ConvValid(toks, st)
      invariant Run(toks, isVertex, st) == Converted(toks, isVertex)
      decreases |toks| - st.pos
    {
      ghost var before := st;
      var t, uniformList := ReadUniformDecls(toks, st.pos, st.uniforms);
      st := RewriteToken(toks, isVertex, st, t, uniformList);
      assert st == Step(toks, isVertex, before);
      RunStep(toks, isVertex, before);
    }
    c := st;
  }

  /** The text handed back with the names of the uniforms, one per line. */
  method WriteUniforms(names: seq<string>) returns (text: string)
    ensures text == UniformsText(names)
  {
    text := "";
    for i := 0 to |names|
      invariant text == UniformLines(names[..i])
    {
      assert names[..i + 1][..i] == names[..i];
      text := text + names[i] + "\n";
    }
    assert names[..|names|] == names;
    text := text + "\n";
  }

  /** The inner loop over "uniform float4" declarations. */
  method ReadUniformDecls(toks: seq<Tok>, pos: nat, uniforms: seq<string>) returns (t: nat, uniformList: seq<string>)
    requires pos <= |toks|
    ensures (t, uniformList) == UniformDecls(toks, pos, uniforms)
  {
    t, uniformList := pos, uniforms;
    while OpensUniform(toks, t)
      invariant pos <= t <= |toks|
      invariant UniformDecls(toks, t, uniformList) == UniformDecls(toks, pos, uniforms)
      decreases |toks| - t
    {
      uniformList := uniformList + [At(toks, t + 2).text];
      var q := Next(toks, t + 2);
      if IsNext(toks, q, ":") {
        q := q + 1;
        if IsNext(toks, q, "register") {
          q := SkipUntil(toks, ";", q + 1);
        }
      }
      t := q;
    }
  }

  /** The rules of the outer loop applied to the token at t. */
  method RewriteToken(toks: seq<Tok>, isVertex: bool, st: Conv, t: nat, uniformList: seq<string>) returns (r: Conv)
    requires ConvValid(toks, st) && st.pos < |toks| && st.pos <= t <= |toks|
    ensures r == StepRule(toks, isVertex, st, t, uniformList)
  {
    var tok := At(toks, t);
    var p := Next(toks, t);
    var glued := st.glue && t == st.pos;
    var sep := Sep(tok, glued, st.newline);
    r := st.(uniforms := uniformList, glue := false);
    if tok.text == "struct" && p < |toks| && IsStructKind(toks[p].text) {
      var kind := toks[p].text;
      if kind == "VS_IN" || kind == "PS_IN" {
        var vars, q := ParseInOutStruct(toks, p + 1, if kind == "VS_IN" then AT_VS_IN else AT_PS_IN, r.varsIn);
        var program := AppendDecls(r.program + "\n\n", "in ", vars);
        if kind == "PS_IN" {
          vars := vars + [FRAG_COORD];
        }
        r := r.(pos := q, program := program, varsIn := vars);
      } else {
        var vars, q := ParseInOutStruct(toks, p + 1, if kind == "VS_OUT" then AT_VS_OUT else AT_PS_OUT, r.varsOut);
        var program := AppendDecls(r.program + "\n", "out ", vars);
        r := r.(pos := q, program := program, varsOut := vars);
      }
    } else if tok.text == "static" || (tok.text == "const" && st.inMain) {
      r := r.(pos := p, program := r.program + sep, glue := true);
    } else if tok.text == ":" && IsNext(toks, p, "register") {
      r := r.(pos := SkipUntil(toks, ";", p + 1), program := r.program + ";");
    } else if tok.text == "void" && IsNext(toks, p, "main") {
      r := r.(pos := SkipUntil(toks, ")", Next(toks, p + 1)), program := r.program + "\nvoid main()", inMain := true);
    } else if tok.text == "{" {
      r := r.(pos := p, program := r.program + sep + "{", newline := IndentOpen(st.newline));
    } else if tok.text == "}" {
      var nl := IndentClose(st.newline);
      r := r.(pos := p, program := r.program + Sep(tok, glued, nl) + "}", newline := nl);
    } else {
      r := RewriteText(toks, isVertex, r, tok.text, sep, p);
    }
  }

  /** The rules for a token that is not a keyword. */
  method RewriteText(toks: seq<Tok>, isVertex: bool, st: Conv, x: string, sep: string, p: nat) returns (r: Conv)
    requires p <= |toks|
    ensures r == StepText(toks, isVertex, st, x, sep, p)
  {
    r := st.(pos := p);
    var conv := TypeConversion(x);
    if conv.Some? {
      r := r.(program := st.program + sep + conv.value);
      return;
    }
    var index := IndexOf(st.uniforms, x);
    if index.Some? {
      r := r.(program := st.program + sep + UniformRef(isVertex, index.value, x));
      return;
    }
    if IsNext(toks, p, ".") {
      if x == "vertex" || x == "fragment" {
        r := r.(pos := Next(toks, p + 1), program := st.program + sep + MemberRef(st.varsIn, x, At(toks, p + 1).text));
      } else if x == "result" {
        r := r.(pos := Next(toks, p + 1), program := st.program + sep + MemberRef(st.varsOut, x, At(toks, p + 1).text));
      } else {
        r := r.(pos := p + 1, program := st.program + sep + x + ".");
      }
      return;
    }
    var builtin := BuiltinConversion(x);
    r := r.(program := st.program + sep + (if builtin.Some? then builtin.value else x));
  }

  /** The declaration loop after a struct: each entry that declares its name gets a line. */
  method AppendDecls(program: string, dir: string, vars: seq<InOutVar>) returns (r: string)
    ensures r == program + Decls(dir, vars)
  {
    r := program;
    for i := 0 to |vars|
      invariant r == program + Decls(dir, vars[..i])
    {
      assert vars[..i + 1][..i] == vars[..i];
      if vars[i].declareInOut {
        r := r + Decl(dir, vars[i]);
      }
    }
    assert vars[..|vars|] == vars;
  }

  // ---------------------------------------------------------------------
  // The uniforms file read back (LoadShader)
  // ---------------------------------------------------------------------

  /** The white space that separates the lexer's tokens. */
  predicate IsSpace(c: char)
  {
    c == ' ' || c == '\t' || c == '\r' || c == '\n'
  }

  /** A token of the uniforms file: a non-empty run without white space. */
  predicate IsWord(w: string)
  {
    |w| > 0 && forall i :: 0 <= i < |w| ==> !IsSpace(w[i])
  }

  /** The length of the token at the start of s: up to the first white space. */
  function WordLength(s: string): (n: nat)
    requires |s| > 0 && !IsSpace(s[0])
    ensures 1 <= n <= |s| && (forall i :: 0 <= i < n ==> !IsSpace(s[i])) && (n < |s| ==> IsSpace(s[n]))
  {
    if |s| == 1 || IsSpace(s[1]) then 1 else 1 + WordLength(s[1..])
  }

  /** The token length is the index of the first white space, whatever follows it. */
  lemma WordLengthIs(s: string, n: nat)
    requires |s| > 0 && !IsSpace(s[0]) && 1 <= n <= |s|
    requires (forall i :: 0 <= i < n ==> !IsSpace(s[i])) && (n < |s| ==> IsSpace(s[n]))
    ensures WordLength(s) == n
  {
  }

  /** The tokens the lexer reads from s. */
  function Words(s: string): (r: seq<string>)
    ensures forall k :: 0 <= k < |r| ==> IsWord(r[k])
    decreases |s|
  {
    if |s| == 0 then []
    else if IsSpace(s[0]) then Words(s[1..])
    else
      var n := WordLength(s);
      [s[..n]] + Words(s[n..])
  }

  /** Text that ends in white space splits apart from what follows it. */
  lemma {:induction false} WordsAppend(a: string, b: string)
    requires |a| == 0 || IsSpace(a[|a| - 1])
    ensures Words(a + b) == Words(a) + Words(b)
    decreases |a|
  {
    if |a| == 0 {
      assert a + b == b;
    } else {
      if IsSpace(a[0]) {
        assert (a + b)[1..] == a[1..] + b;
        WordsAppend(a[1..], b);
        assert Words(a + b) == Words((a + b)[1..]);
        assert Words(a) == Words(a[1..]);
      } else {
        var n := WordLength(a);
        assert Words(a) == [a[..n]] + Words(a[n..]);
        WordLengthIs(a + b, n);
        assert (a + b)[..n] == a[..n];
        assert (a + b)[n..] == a[n..] + b;
        WordsAppend(a[n..], b);
        assert Words(a + b) == [(a + b)[..n]] + Words((a + b)[n..]);
        assert Words(a + b) == [a[..n]] + (Words(a[n..]) + Words(b));
      }
    }
  }

  /** One name on its own line reads back as that name. */
  lemma WordsOfLine(w: string)
    requires IsWord(w)
    ensures Words(w + "\n") == [w]
  {
    var s := w + "\n";
    WordLengthIs(s, |w|);
    assert s[..|w|] == w;
    assert s[|w|..] == "\n";
    assert Words("\n") == Words("");
  }

  /** The name lines read back as the names. */
  lemma {:induction false} WordsOfUniformLines(names: seq<string>)
    requires forall k :: 0 <= k < |names| ==> IsWord(names[k])
    ensures Words(UniformLines(names)) == names
    decreases |names|
  {
    if |names| > 0 {
      var init := names[..|names| - 1];
      var last := names[|names| - 1];
      WordsOfUniformLines(init);
      WordsAppend(UniformLines(init), last + "\n");
      WordsOfLine(last);
      assert UniformLines(names) == UniformLines(init) + (last + "\n");
    }
  }

  /**
   * The uniforms file ConvertCG2GLSL writes reads back as the uniform
   * names it collected, in order.
   */
  lemma UniformsFileRoundTrip(names: seq<string>)
    requires forall k :: 0 <= k < |names| ==> IsWord(names[k])
    ensures Words(UniformsText(names)) == names
  {
    WordsOfUniformLines(names);
    WordsAppend(UniformLines(names), "\n");
    assert Words("\n") == Words("");
  }

  /** Looks every word up with `find`, in order; None as soon as one is not found. */
  function LookupAll(words: seq<string>, find: string -> Option<nat>): (r: Option<seq<nat>>)
    ensures r.Some? ==> |r.value| == |words|
  {
    if |words| == 0 then Some([])
    else
      match LookupAll(words[..|words| - 1], find)
      case None => None
      case Some(ps) =>
        match find(words[|words| - 1])
        case None => None
        case Some(p) => Some(ps + [p])
  }

  /** Entry k of a successful lookup is what word k is found as. */
  lemma {:induction false} LookupAllAt(words: seq<string>, find: string -> Option<nat>, k: nat)
    requires LookupAll(words, find).Some? && k < |words|
    ensures find(words[k]) == Some(LookupAll(words, find).value[k])
    decreases |words|
  {
    var init := words[..|words| - 1];
    if k < |init| {
      LookupAllAt(init, find, k);
      assert init[k] == words[k];
    }
  }

  /** Every entry of a successful lookup is what its word is found as. */
  lemma LookupAllEach(words: seq<string>, find: string -> Option<nat>)
    ensures LookupAll(words, find).Some? ==>
      forall k :: 0 <= k < |words| ==> find(words[k]) == Some(LookupAll(words, find).value[k])
  {
    if LookupAll(words, find).Some? {
      forall k | 0 <= k < |words| ensures find(words[k]) == Some(LookupAll(words, find).value[k]) {
        LookupAllAt(words, find, k);
      }
    }
  }

  /** One more word: the lookup of a prefix extended by the next word's entry, or failed. */
  lemma LookupAllStep(words: seq<string>, find: string -> Option<nat>, i: nat, ps: seq<nat>)
    requires i < |words| && LookupAll(words[..i], find) == Some(ps)
    ensures find(words[i]).Some? ==> LookupAll(words[..i + 1], find) == Some(ps + [find(words[i]).value])
    ensures find(words[i]).None? ==> LookupAll(words[..i + 1], find).None?
  {
    assert words[..i + 1][..i] == words[..i];
  }

  /** A word list whose prefix holds an unknown word holds one itself. */
  lemma LookupAllPrefixFails(words: seq<string>, find: string -> Option<nat>, n: nat)
    requires n <= |words| && LookupAll(words[..n], find).None?
    ensures LookupAll(words, find).None?
  {
    LookupAllFails(words[..n], find);
    var k :| 0 <= k < n && find(words[..n][k]).None?;
    assert words[..n][k] == words[k];
    LookupAllFails(words, find);
  }

  /** A lookup fails exactly when some word is not found. */
  lemma {:induction false} LookupAllFails(words: seq<string>, find: string -> Option<nat>)
    ensures LookupAll(words, find).None? <==> exists k :: 0 <= k < |words| && find(words[k]).None?
    decreases |words|
  {
    if |words| > 0 {
      var init := words[..|words| - 1];
      LookupAllFails(init, find);
      assert forall k :: 0 <= k < |init| ==> init[k] == words[k];
      if LookupAll(words, find).None? && LookupAll(init, find).Some? {
        assert find(words[|words| - 1]).None?;
      }
      if LookupAll(words, find).Some? {
        forall k | 0 <= k < |words|
          ensures find(words[k]).Some?
        {
          LookupAllAt(words, find, k);
        }
      }
    }
  }

  /**
   * The render parameters a list of uniform names refers to, one per name
   * by its GLSL name; None when a name is not a render parameter (LoadShader
   * then stops with an error).
   */
  function UniformParms(words: seq<string>): (r: Option<seq<nat>>)
    ensures r.Some? ==> |r.value| == |words|
    ensures r.Some? ==> forall k :: 0 <= k < |words| ==> ParmIndex(words[k]) == Some(r.value[k])
  {
    LookupAllEach(words, ParmIndex);
    LookupAll(words, ParmIndex)
  }

  /** The read-back fails exactly when some token names no render parameter. */
  lemma UniformParmsFails(words: seq<string>)
    ensures UniformParms(words).None? <==> exists k :: 0 <= k < |words| && ParmIndex(words[k]).None?
  {
    LookupAllFails(words, ParmIndex);
  }

  /** Element k of ParmNames is the name of parameter k. */
  lemma {:induction false} ParmNamesAt(parms: seq<nat>, k: nat)
    requires forall j :: 0 <= j < |parms| ==> parms[j] < RENDERPARM_TOTAL
    requires k < |parms|
    ensures ParmNames(parms)[k] == GLSLParmName(parms[k])
    decreases k
  {
    if k > 0 {
      ParmNamesAt(parms[1..], k - 1);
    }
  }

  /** The names of a list of render parameters read back as that list. */
  lemma UniformParmsOfNames(parms: seq<nat>)
    requires forall j :: 0 <= j < |parms| ==> parms[j] < RENDERPARM_TOTAL
    ensures UniformParms(ParmNames(parms)) == Some(parms)
  {
    var names := ParmNames(parms);
    forall k | 0 <= k < |names|
      ensures ParmIndex(names[k]) == Some(parms[k])
    {
      ParmNameReadsBack(parms, k);
    }
    UniformParmsFails(names);
    assert UniformParms(names).Some?;
    var r := UniformParms(names).value;
    forall k | 0 <= k < |parms|
      ensures r[k] == parms[k]
    {
      assert ParmIndex(names[k]) == Some(r[k]);
    }
    assert r == parms;
  }

  /** Element k of the names of parms reads back as parms[k]. */
  lemma ParmNameReadsBack(parms: seq<nat>, k: nat)
    requires forall j :: 0 <= j < |parms| ==> parms[j] < RENDERPARM_TOTAL
    requires k < |parms|
    ensures ParmIndex(ParmNames(parms)[k]) == Some(parms[k])
  {
    ParmNamesAt(parms, k);
    ParmIndexOfName(parms[k]);
  }

  // ---------------------------------------------------------------------
  // The OpenGL shader and program tables
  // ---------------------------------------------------------------------

  /**
   * An OpenGL shader: its name and stage, the GL object once loaded (None
   * stands for INVALID_PROGID), the render parameter behind each element
   * of its uniform array, and the array's location in the linked program
   * (-1 until a program sets it).
   */
  datatype GLShader = GLShader(name: string, stage: Stage, progId: Option<nat>, uniforms: seq<nat>, uniformArray: int)

  /** An OpenGL program: a shader pair linked into one GL object, and the render states it was used with. */
  datatype GLProg = GLProg(
    name: string,
    usesJoints: bool,
    optionalSkinning: bool,
    vertexShaderIndex: int,
    fragmentShaderIndex: int,
    vertexLayoutType: VertexLayout,
    progId: Option<nat>,
    states: seq<bv64>)

  /** renderProg_t's default constructor. */
  const DEFAULT_GL_PROG := GLProg("", false, false, -1, -1, LAYOUT_DRAW_VERT, None, [])

  /**
   * The outcome of linking a shader pair: a failure, or the program object
   * with the locations of the vertex and fragment uniform arrays in it.
   */
  datatype Link = LinkFailed | Linked(program: nat, vertexArray: int, fragmentArray: int)

  /**
   * The heat-haze test as LoadGLSLProgram writes it: the program name,
   * whose extension has just been stripped, against names that still
   * carry the ".vfp" extension.
   */
  predicate HeatHazeAsWritten(name: string)
  {
    RenderSystem.EqualsNoCase(name, "heatHaze.vfp") || RenderSystem.EqualsNoCase(name, "heatHazeWithMask.vfp")
      || RenderSystem.EqualsNoCase(name, "heatHazeWithMaskAndVertex.vfp")
  }

  /** Only '.' lower-cases to '.'. */
  lemma DotOnlyFromDot(c: char)
    requires RenderSystem.ToLower(c) == '.'
    ensures c == '.'
  {
  }

  /**
   * A shader name without a '.' (FindShader has stripped its extension)
   * never passes the test as written, so no program is marked.
   */
  lemma HeatHazeAsWrittenNeverMatches(vName: string)
    requires '.' !in vName
    ensures ImageLoad.StripFileExtension(vName) == vName
    ensures !HeatHazeAsWritten(ImageLoad.StripFileExtension(vName))
  {
    if RenderSystem.EqualsNoCase(vName, "heatHaze.vfp") {
      DotOnlyFromDot(vName[8]);
    }
    if RenderSystem.EqualsNoCase(vName, "heatHazeWithMask.vfp") {
      DotOnlyFromDot(vName[16]);
    }
    if RenderSystem.EqualsNoCase(vName, "heatHazeWithMaskAndVertex.vfp") {
      DotOnlyFromDot(vName[25]);
    }
  }

  /** The heat-haze vertex shader itself: the intended test marks it, the written one does not. */
  lemma HeatHazeMissed()
    ensures IsHeatHazeShader(ImageLoad.StripFileExtension("heatHaze"))
    ensures !HeatHazeAsWritten(ImageLoad.StripFileExtension("heatHaze"))
  {
    HeatHazeAsWrittenNeverMatches("heatHaze");
    assert RenderSystem.EqualsNoCase("heatHaze", "heatHaze");
  }

  /**
   * The program entry after a successful link: named after its vertex
   * shader without extension, with the GL object and the shader pair, and
   * joints with optional skinning for a heat-haze vertex shader.
   */
  function LinkedProg(prog: GLProg, vName: string, vIndex: int, fIndex: int, program: nat): (r: GLProg)
    ensures r.name == ImageLoad.StripFileExtension(vName) && r.progId == Some(program)
    ensures r.vertexShaderIndex == vIndex && r.fragmentShaderIndex == fIndex
    ensures r.usesJoints <==> prog.usesJoints || IsHeatHazeShader(r.name)
    ensures r.optionalSkinning <==> prog.optionalSkinning || IsHeatHazeShader(r.name)
    ensures r.vertexLayoutType == prog.vertexLayoutType && r.states == prog.states
  {
    var name := ImageLoad.StripFileExtension(vName);
    var heatHaze := IsHeatHazeShader(name);
    prog.(name := name, progId := Some(program), vertexShaderIndex := vIndex, fragmentShaderIndex := fIndex,
          usesJoints := prog.usesJoints || heatHaze, optionalSkinning := prog.optionalSkinning || heatHaze)
  }

  /** A shader's uniform-array location, set when the shader has uniforms. */
  function WithArrayLocation(shaders: seq<GLShader>, index: int, location: int): (r: seq<GLShader>)
    requires -1 <= index < |shaders|
    ensures |r| == |shaders|
    ensures forall k :: 0 <= k < |r| ==> r[k].(uniformArray := shaders[k].uniformArray) == shaders[k]
    ensures forall k :: 0 <= k < |r| ==>
      r[k].uniformArray == if k == index && |shaders[k].uniforms| > 0 then location else shaders[k].uniformArray
  {
    if index > -1 && |shaders[index].uniforms| > 0 then shaders[index := shaders[index].(uniformArray := location)]
    else shaders
  }

  /** The first program built from shaders vIndex and fIndex. */
  function GLProgramFor(progs: seq<GLProg>, vIndex: int, fIndex: int): (r: Option<nat>)
    ensures r.Some? ==> r.value < |progs| && progs[r.value].vertexShaderIndex == vIndex && progs[r.value].fragmentShaderIndex == fIndex
    ensures r.Some? ==> forall k :: 0 <= k < r.value ==> !(progs[k].vertexShaderIndex == vIndex && progs[k].fragmentShaderIndex == fIndex)
    ensures r.None? <==> forall k :: 0 <= k < |progs| ==> !(progs[k].vertexShaderIndex == vIndex && progs[k].fragmentShaderIndex == fIndex)
  {
    if |progs| == 0 then None
    else if progs[0].vertexShaderIndex == vIndex && progs[0].fragmentShaderIndex == fIndex then Some(0)
    else match GLProgramFor(progs[1..], vIndex, fIndex)
      case None => None
      case Some(i) => Some(i + 1)
  }

  /** The states a program was committed with, each once, in first-use order. */
  function AddUnique(states: seq<bv64>, stateBits: bv64): (r: seq<bv64>)
    ensures stateBits in r && |states| <= |r| && r[..|states|] == states
    ensures stateBits in states ==> r == states
    ensures (forall i, j :: 0 <= i < j < |states| ==> states[i] != states[j]) ==>
      forall i, j :: 0 <= i < j < |r| ==> r[i] != r[j]
  {
    if stateBits in states then states else states + [stateBits]
  }

  /** The values a shader's uniform array receives: element i is the parameter behind uniform i. */
  function ArrayValues(shader: GLShader, parmValues: seq<seq<real>>): (r: seq<seq<real>>)
    requires forall i :: 0 <= i < |shader.uniforms| ==> shader.uniforms[i] < |parmValues|
    ensures shader.uniformArray != -1 ==> |r| == |shader.uniforms|
    ensures shader.uniformArray != -1 ==> forall i :: 0 <= i < |r| ==> r[i] == parmValues[shader.uniforms[i]]
    ensures shader.uniformArray == -1 ==> r == []
  {
    if shader.uniformArray != -1 && |shader.uniforms| > 0 then
      seq(|shader.uniforms|, i requires 0 <= i < |shader.uniforms| => parmValues[shader.uniforms[i]])
    else []
  }

  /**
   * For a shader converted from Cg: element i of the uniform array the
   * GLSL text reads as the i-th uniform is given the value of the render
   * parameter that uniform names.
   */
  lemma UniformArrayCarriesNamedParm(shader: GLShader, names: seq<string>, parmValues: seq<seq<real>>, i: nat)
    requires forall k :: 0 <= k < |names| ==> IsWord(names[k])
    requires UniformParms(Words(UniformsText(names))) == Some(shader.uniforms)
    requires |parmValues| == RENDERPARM_TOTAL && shader.uniformArray != -1 && i < |names|
    ensures i < |ArrayValues(shader, parmValues)|
    ensures GLSLParmName(shader.uniforms[i]) == names[i]
    ensures ArrayValues(shader, parmValues)[i] == parmValues[ParmIndex(names[i]).value]
  {
    UniformsFileRoundTrip(names);
    ParmIndexOfName(shader.uniforms[i]);
  }

  /** idRenderProgManager's OpenGL state. */
  class GLProgManager {
    var current: int
    var shaders: seq<GLShader>
    var renderProgs: seq<GLProg>

    /** The constructor: no program is current and the tables are empty. */
    constructor()
      ensures current == 0 && shaders == [] && renderProgs == []
    {
      current := 0;
      shaders := [];
      renderProgs := [];
    }

    /**
     * The index of the render parameter named token, or -1: the scan of
     * GLSLParmNames LoadShader runs for each token.
     */
    static method ParmIndexOf(token: string) returns (index: int)
      ensures ParmIndex(token).Some? ==> index == ParmIndex(token).value
      ensures ParmIndex(token).None? ==> index == -1
    {
      index := -1;
      var i := 0;
      while i < RENDERPARM_TOTAL && index == -1
        invariant 0 <= i <= RENDERPARM_TOTAL
        invariant index == -1 ==> forall j :: 0 <= j < i ==> GLSLParmName(j) != token
        invariant index != -1 ==> 0 <= index < i && GLSLParmName(index) == token
      {
        if token == GLSLParmName(i) {
          index := i;
        }
        i := i + 1;
      }
      if index != -1 && ParmIndex(token).value != index {
        ParmNamesDistinct(ParmIndex(token).value, index);
      }
    }

    /** The token loop of LoadShader: the render parameter of each token, stopping at the first unknown one. */
    static method ReadUniformParms(uniformTokens: seq<string>) returns (r: Option<seq<nat>>)
      ensures r == UniformParms(uniformTokens)
    {
      var parms := [];
      var i := 0;
      while i < |uniformTokens|
        invariant 0 <= i <= |uniformTokens|
        invariant LookupAll(uniformTokens[..i], ParmIndex) == Some(parms)
      {
        var p := ParmIndexOf(uniformTokens[i]);
        LookupAllStep(uniformTokens, ParmIndex, i, parms);
        if p == -1 {
          LookupAllPrefixFails(uniformTokens, ParmIndex, i + 1);
          return None;
        }
        parms := parms + [p];
        i := i + 1;
      }
      assert uniformTokens[..i] == uniformTokens;
      r := Some(parms);
    }

    /**
     * LoadShader: a shader that has a GL object is left alone; otherwise
     * the tokens of its uniforms file give the render parameter of each
     * uniform-array element and the shader gets the compiled object.  A
     * token that names no render parameter is an error and the shader is
     * left as it was.  Reading the files and compiling stand outside: the
     * uniforms file arrives as its tokens and the object as its handle.
     */
    method LoadShader(index: nat, uniformTokens: seq<string>, compiled: nat) returns (ok: bool)
      requires index < |shaders|
      modifies this
      ensures old(shaders[index].progId).Some? ==> ok && shaders == old(shaders)
      ensures old(shaders[index].progId).None? ==> (ok <==> UniformParms(uniformTokens).Some?)
      ensures old(shaders[index].progId).None? && !ok ==> shaders == old(shaders)
      ensures old(shaders[index].progId).None? && ok ==>
        shaders == old(shaders)[index := old(shaders[index]).(uniforms := UniformParms(uniformTokens).value, progId := Some(compiled))]
      ensures renderProgs == old(renderProgs) && current == old(current)
    {
      if shaders[index].progId.Some? {
        return true;
      }
      var parms := ReadUniformParms(uniformTokens);
      if parms.None? {
        return false;
      }
      var s := shaders[index].(uniforms := parms.value, progId := Some(compiled));
      shaders := shaders[index := s];
      ok := true;
    }

    /**
     * LoadGLSLProgram: a program that has a GL object is left alone.
     * Otherwise the shader pair is linked; a failed link is an error that
     * leaves everything as it was.  After a link the program is set up by
     * LinkedProg and each shader with uniforms learns where its array is.
     */
    method LoadGLSLProgram(programIndex: nat, vIndex: int, fIndex: int, link: Link) returns (ok: bool)
      requires programIndex < |renderProgs| && 0 <= vIndex < |shaders| && -1 <= fIndex < |shaders|
      modifies this
      ensures old(renderProgs[programIndex].progId).Some? ==>
        ok && renderProgs == old(renderProgs) && shaders == old(shaders)
      ensures old(renderProgs[programIndex].progId).None? ==> (ok <==> link.Linked?)
      ensures old(renderProgs[programIndex].progId).None? && link.LinkFailed? ==>
        renderProgs == old(renderProgs) && shaders == old(shaders)
      ensures old(renderProgs[programIndex].progId).None? && link.Linked? ==>
        renderProgs == old(renderProgs)[programIndex :=
          LinkedProg(old(renderProgs[programIndex]), old(shaders[vIndex].name), vIndex, fIndex, link.program)] &&
        shaders == WithArrayLocation(WithArrayLocation(old(shaders), vIndex, link.vertexArray), fIndex, link.fragmentArray)
      ensures current == old(current)
    {
      if renderProgs[programIndex].progId.Some? {
        return true;
      }
      if link.LinkFailed? {
        return false;
      }
      var s := WithArrayLocation(shaders, vIndex, link.vertexArray);
      s := WithArrayLocation(s, fIndex, link.fragmentArray);
      var prog := LinkedProg(renderProgs[programIndex], shaders[vIndex].name, vIndex, fIndex, link.program);
      shaders := s;
      renderProgs := renderProgs[programIndex := prog];
      ok := true;
    }

    /**
     * FindProgram: the first program built from this shader pair, loaded
     * if it is not yet; otherwise a new program called name is appended and
     * loaded.  Either way the pair then leads to the returned index.
     */
    method FindProgram(name: string, vIndex: int, fIndex: int, link: Link) returns (index: nat, ok: bool)
      requires 0 <= vIndex < |shaders| && -1 <= fIndex < |shaders|
      modifies this
      ensures GLProgramFor(old(renderProgs), vIndex, fIndex).Some? ==>
        index == GLProgramFor(old(renderProgs), vIndex, fIndex).value && |renderProgs| == |old(renderProgs)|
      ensures GLProgramFor(old(renderProgs), vIndex, fIndex).None? ==>
        index == |old(renderProgs)| && |renderProgs| == |old(renderProgs)| + 1 &&
        renderProgs[..index] == old(renderProgs) &&
        (ok <==> link.Linked?) &&
        renderProgs[index] == if link.Linked? then LinkedProg(DEFAULT_GL_PROG.(name := name), old(shaders[vIndex].name), vIndex, fIndex, link.program)
                              else DEFAULT_GL_PROG.(name := name)
      ensures forall k :: 0 <= k < |old(renderProgs)| && k != index ==> renderProgs[k] == old(renderProgs[k])
      ensures ok ==> renderProgs[index].progId.Some?
      ensures ok ==> GLProgramFor(renderProgs, vIndex, fIndex) == Some(index)
      ensures current == old(current)
    {
      var i := 0;
      while i < |renderProgs|
        invariant 0 <= i <= |renderProgs|
        invariant forall k :: 0 <= k < i ==> !(renderProgs[k].vertexShaderIndex == vIndex && renderProgs[k].fragmentShaderIndex == fIndex)
      {
        if renderProgs[i].vertexShaderIndex == vIndex && renderProgs[i].fragmentShaderIndex == fIndex {
          GLProgramForFirst(renderProgs, vIndex, fIndex, i);
          ghost var before := renderProgs;
          ok := LoadGLSLProgram(i, vIndex, fIndex, link);
          GLProgramForKept(before, renderProgs, vIndex, fIndex, i);
          return i, ok;
        }
        i := i + 1;
      }
      renderProgs := renderProgs + [DEFAULT_GL_PROG.(name := name)];
      index := |renderProgs| - 1;
      ghost var before := renderProgs;
      ok := LoadGLSLProgram(index, vIndex, fIndex, link);
      if ok {
        GLProgramForFirst(renderProgs, vIndex, fIndex, index);
      }
    }

    /**
     * Init: the MAX_BUILTINS built-in programs in rpBuiltIn_t order.  For
     * program i, vIndices[i] and fIndices[i] are the shaders FindShader
     * returned for its stages (-1 for the missing fragment stage of a
     * vertex-only program) and links[i] the outcome of linking them; a
     * failed link stops Init with an error.  Each program then gets its
     * vertex layout, and the skinned ones use joints.
     */
    method Init(vIndices: seq<nat>, fIndices: seq<int>, links: seq<Link>) returns (ok: bool)
      requires renderProgs == []
      requires |vIndices| == MAX_BUILTINS && |fIndices| == MAX_BUILTINS && |links| == MAX_BUILTINS
      requires forall i :: 0 <= i < MAX_BUILTINS ==>
        vIndices[i] < |shaders| && RenderSystem.EqualsNoCase(shaders[vIndices[i]].name, BuiltinName(i))
      requires forall i :: 0 <= i < MAX_BUILTINS ==>
        -1 <= fIndices[i] < |shaders| && (fIndices[i] == -1 <==> BuiltinStages(i) == SHADER_STAGE_VERTEX)
      modifies this
      ensures ok <==> forall i :: 0 <= i < MAX_BUILTINS ==> links[i].Linked?
      ensures ok ==> |renderProgs| == MAX_BUILTINS
      ensures ok ==> forall i :: 0 <= i < MAX_BUILTINS ==>
        BuiltinLoaded(renderProgs[i], i, old(shaders)[vIndices[i]].name, vIndices[i], fIndices[i], links[i])
      ensures |shaders| == |old(shaders)| && forall k :: 0 <= k < |shaders| ==> shaders[k].name == old(shaders)[k].name
      ensures current == old(current)
    {
      renderProgs := seq(MAX_BUILTINS, _ => DEFAULT_GL_PROG);
      for i := 0 to MAX_BUILTINS
        invariant |renderProgs| == MAX_BUILTINS && current == old(current)
        invariant |shaders| == |old(shaders)| && forall k :: 0 <= k < |shaders| ==> shaders[k].name == old(shaders)[k].name
        invariant forall k :: 0 <= k < i ==> links[k].Linked?
        invariant forall k :: 0 <= k < i ==> BuiltinStaged(renderProgs[k], k, old(shaders)[vIndices[k]].name, vIndices[k], fIndices[k], links[k])
        invariant forall k :: i <= k < MAX_BUILTINS ==> renderProgs[k] == DEFAULT_GL_PROG
      {
        ok := LoadBuiltin(i, vIndices[i], fIndices[i], links[i]);
        if !ok {
          return;
        }
      }
      ok := true;
      ghost var staged := renderProgs;
      MarkSkinned();
      forall k | 0 <= k < MAX_BUILTINS
        ensures BuiltinLoaded(renderProgs[k], k, old(shaders)[vIndices[k]].name, vIndices[k], fIndices[k], links[k])
      {
        MarkedIsLoaded(staged[k], k, old(shaders)[vIndices[k]].name, vIndices[k], fIndices[k], links[k]);
      }
    }

    /**
     * One pass of Init's loop: program i, still at its default, is linked
     * from its shaders and given the built-in's vertex layout.
     */
    method LoadBuiltin(i: nat, vIndex: nat, fIndex: int, link: Link) returns (ok: bool)
      requires i < MAX_BUILTINS && |renderProgs| == MAX_BUILTINS && renderProgs[i] == DEFAULT_GL_PROG
      requires vIndex < |shaders| && RenderSystem.EqualsNoCase(shaders[vIndex].name, BuiltinName(i))
      requires -1 <= fIndex < |shaders|
      modifies this
      ensures ok <==> link.Linked?
      ensures |renderProgs| == MAX_BUILTINS && forall k :: 0 <= k < MAX_BUILTINS && k != i ==> renderProgs[k] == old(renderProgs[k])
      ensures ok ==> BuiltinStaged(renderProgs[i], i, old(shaders[vIndex].name), vIndex, fIndex, link)
      ensures |shaders| == |old(shaders)| && forall k :: 0 <= k < |shaders| ==> shaders[k].name == old(shaders)[k].name
      ensures current == old(current)
    {
      BuiltinNotHeatHaze(i, shaders[vIndex].name);
      ok := LoadGLSLProgram(i, vIndex, fIndex, link);
      if ok {
        renderProgs := renderProgs[i := renderProgs[i].(vertexLayoutType := BuiltinLayout(i))];
      }
    }

    /** The close of Init: the nine skinned built-in programs use joints. */
    method MarkSkinned()
      requires |renderProgs| == MAX_BUILTINS
      modifies this
      ensures |renderProgs| == MAX_BUILTINS
      ensures forall k :: 0 <= k < MAX_BUILTINS ==>
        renderProgs[k] == if BuiltinUsesJoints(k) then old(renderProgs[k]).(usesJoints := true) else old(renderProgs[k])
      ensures shaders == old(shaders) && current == old(current)
    {
      var progs := renderProgs;
      for k := 0 to MAX_BUILTINS
        invariant |progs| == MAX_BUILTINS
        invariant forall j :: 0 <= j < k ==>
          progs[j] == if BuiltinUsesJoints(j) then old(renderProgs[j]).(usesJoints := true) else old(renderProgs[j])
        invariant forall j :: k <= j < MAX_BUILTINS ==> progs[j] == old(renderProgs[j])
      {
        if BuiltinUsesJoints(k) {
          progs := progs[k := progs[k].(usesJoints := true)];
        }
      }
      renderProgs := progs;
    }

    /** BindProgram: program index becomes the current one (rebinding it changes nothing). */
    method BindProgram(index: int)
      modifies this
      ensures current == index && shaders == old(shaders) && renderProgs == old(renderProgs)
    {
      if current == index {
        return;
      }
      current := index;
    }

    /** Unbind: no program is current. */
    method Unbind()
      modifies this
      ensures current == -1 && shaders == old(shaders) && renderProgs == old(renderProgs)
    {
      current := -1;
    }

    /**
     * CommitCurrent: records stateBits with the current program (once) and
     * gives the values uploaded to its vertex and fragment uniform arrays
     * (empty for a missing shader or a shader without an array).
     */
    method CommitCurrent(stateBits: bv64, parmValues: seq<seq<real>>)
      returns (vertexValues: seq<seq<real>>, fragmentValues: seq<seq<real>>)
      requires 0 <= current < |renderProgs|
      requires renderProgs[current].vertexShaderIndex < |shaders| && renderProgs[current].fragmentShaderIndex < |shaders|
      requires forall k, i :: 0 <= k < |shaders| && 0 <= i < |shaders[k].uniforms| ==> shaders[k].uniforms[i] < |parmValues|
      modifies this
      ensures shaders == old(shaders) && current == old(current)
      ensures renderProgs == old(renderProgs)[old(current) := old(renderProgs[current]).(states := AddUnique(old(renderProgs[current].states), stateBits))]
      ensures var v := old(renderProgs[current].vertexShaderIndex);
        vertexValues == if v >= 0 then ArrayValues(old(shaders[v]), parmValues) else []
      ensures var f := old(renderProgs[current].fragmentShaderIndex);
        fragmentValues == if f >= 0 then ArrayValues(old(shaders[f]), parmValues) else []
    {
      var prog := renderProgs[current];
      renderProgs := renderProgs[current := prog.(states := AddUnique(prog.states, stateBits))];
      vertexValues, fragmentValues := [], [];
      if prog.vertexShaderIndex >= 0 {
        vertexValues := CommitArray(shaders[prog.vertexShaderIndex], parmValues);
      }
      if prog.fragmentShaderIndex >= 0 {
        fragmentValues := CommitArray(shaders[prog.fragmentShaderIndex], parmValues);
      }
    }

    /** The copy loop of CommitCurrent for one shader. */
    static method CommitArray(shader: GLShader, parmValues: seq<seq<real>>) returns (values: seq<seq<real>>)
      requires forall i :: 0 <= i < |shader.uniforms| ==> shader.uniforms[i] < |parmValues|
      ensures values == ArrayValues(shader, parmValues)
    {
      values := [];
      if shader.uniformArray != -1 && |shader.uniforms| > 0 {
        var i := 0;
        while i < |shader.uniforms|
          invariant 0 <= i <= |shader.uniforms| && |values| == i
          invariant forall k :: 0 <= k < i ==> values[k] == parmValues[shader.uniforms[k]]
        {
          values := values + [parmValues[shader.uniforms[i]]];
          i := i + 1;
        }
      }
    }
  }

  /** The first matching index is the one GLProgramFor finds. */
  lemma GLProgramForFirst(progs: seq<GLProg>, vIndex: int, fIndex: int, i: nat)
    requires i < |progs| && progs[i].vertexShaderIndex == vIndex && progs[i].fragmentShaderIndex == fIndex
    requires forall k :: 0 <= k < i ==> !(progs[k].vertexShaderIndex == vIndex && progs[k].fragmentShaderIndex == fIndex)
    ensures GLProgramFor(progs, vIndex, fIndex) == Some(i)
  {
    var r := GLProgramFor(progs, vIndex, fIndex);
    assert r.Some?;
  }

  /** Loading program i, which already has this pair, keeps it the first program with the pair. */
  lemma GLProgramForKept(before: seq<GLProg>, after: seq<GLProg>, vIndex: int, fIndex: int, i: nat)
    requires GLProgramFor(before, vIndex, fIndex) == Some(i) && |after| == |before|
    requires forall k :: 0 <= k < |before| && k != i ==> after[k] == before[k]
    requires after[i].vertexShaderIndex == vIndex && after[i].fragmentShaderIndex == fIndex
    ensures GLProgramFor(after, vIndex, fIndex) == Some(i)
  {
    GLProgramForFirst(after, vIndex, fIndex, i);
  }

  /**
   * Entry i of the program table after Init: linked from its two shaders,
   * named after the vertex shader, with the built-in's vertex layout,
   * joints exactly for the skinned built-ins and no optional skinning.
   */
  predicate BuiltinLoaded(prog: GLProg, i: nat, vName: string, vIndex: int, fIndex: int, link: Link)
    requires i < MAX_BUILTINS
  {
    link.Linked? &&
    prog.name == ImageLoad.StripFileExtension(vName) && prog.progId == Some(link.program) &&
    prog.vertexShaderIndex == vIndex && prog.fragmentShaderIndex == fIndex &&
    prog.vertexLayoutType == BuiltinLayout(i) && (prog.usesJoints <==> BuiltinUsesJoints(i)) &&
    !prog.optionalSkinning && prog.states == []
  }

  /** Entry i as Init's loop leaves it, before the skinned programs are marked. */
  predicate BuiltinStaged(prog: GLProg, i: nat, vName: string, vIndex: int, fIndex: int, link: Link)
    requires i < MAX_BUILTINS
  {
    !prog.usesJoints && BuiltinLoaded(prog.(usesJoints := BuiltinUsesJoints(i)), i, vName, vIndex, fIndex, link)
  }

  /** Marking a staged skinned entry as using joints completes it. */
  lemma MarkedIsLoaded(prog: GLProg, i: nat, vName: string, vIndex: int, fIndex: int, link: Link)
    requires i < MAX_BUILTINS && BuiltinStaged(prog, i, vName, vIndex, fIndex, link)
    ensures BuiltinLoaded(if BuiltinUsesJoints(i) then prog.(usesJoints := true) else prog, i, vName, vIndex, fIndex, link)
  {
  }

  /** No built-in name has a '.', and none starts with the 'h' of the heat-haze names. */
  lemma BuiltinNamePlain(i: nat)
    requires i < MAX_BUILTINS
    ensures '.' !in BuiltinName(i)
    ensures |BuiltinName(i)| > 0 && RenderSystem.ToLower(BuiltinName(i)[0]) != 'h'
  {
    if i < 7 { BuiltinNamePlain0(i); }
    else if i < 14 { BuiltinNamePlain7(i); }
    else if i < 21 { BuiltinNamePlain14(i); }
    else { BuiltinNamePlain21(i); }
  }

  // BuiltinNamePlain0, 7, 14 and 21 check the literal builtin table in
  // bands of seven entries: the whole table in one lemma is more string
  // reasoning than the solver manages within its resource bound.
  lemma BuiltinNamePlain0(i: nat)
    requires 0 <= i < 7
    ensures '.' !in BuiltinName(i)
    ensures |BuiltinName(i)| > 0 && RenderSystem.ToLower(BuiltinName(i)[0]) != 'h'
  {
  }

  lemma BuiltinNamePlain7(i: nat)
    requires 7 <= i < 14
    ensures '.' !in BuiltinName(i)
    ensures |BuiltinName(i)| > 0 && RenderSystem.ToLower(BuiltinName(i)[0]) != 'h'
  {
  }

  lemma BuiltinNamePlain14(i: nat)
    requires 14 <= i < 21
    ensures '.' !in BuiltinName(i)
    ensures |BuiltinName(i)| > 0 && RenderSystem.ToLower(BuiltinName(i)[0]) != 'h'
  {
  }

  lemma BuiltinNamePlain21(i: nat)
    requires 21 <= i < 28
    ensures '.' !in BuiltinName(i)
    ensures |BuiltinName(i)| > 0 && RenderSystem.ToLower(BuiltinName(i)[0]) != 'h'
  {
  }

  /** A name whose first letter is not an 'h' is no heat-haze name. */
  lemma NotHeatHazeByFirst(s: string)
    requires |s| > 0 && RenderSystem.ToLower(s[0]) != 'h'
    ensures forall k :: 0 <= k < 3 ==> !RenderSystem.EqualsNoCase(s, HeatHazeName(k))
  {
    forall k | 0 <= k < 3
      ensures !RenderSystem.EqualsNoCase(s, HeatHazeName(k))
    {
      assert HeatHazeName(k)[0] == 'h';
    }
  }

  /** A shader named after a built-in program is not a heat-haze shader, so its program gets no joints. */
  lemma BuiltinNotHeatHaze(i: nat, vName: string)
    requires i < MAX_BUILTINS && RenderSystem.EqualsNoCase(vName, BuiltinName(i))
    ensures ImageLoad.StripFileExtension(vName) == vName
    ensures !IsHeatHazeShader(ImageLoad.StripFileExtension(vName))
  {
    BuiltinNamePlain(i);
    var b := BuiltinName(i);
    NotHeatHazeByFirst(b);
    if '.' in vName {
      var j :| 0 <= j < |vName| && vName[j] == '.';
      DotOnlyFromDot(b[j]);
    }
    forall k | 0 <= k < 3
      ensures !RenderSystem.EqualsNoCase(vName, HeatHazeName(k))
    {
      if RenderSystem.EqualsNoCase(vName, HeatHazeName(k)) {
        assert RenderSystem.EqualsNoCase(b, vName);
        RenderSystem.EqualsNoCaseTrans(b, vName, HeatHazeName(k));
      }
    }
  }
}
