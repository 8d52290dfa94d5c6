/**
 * The OpenGL back end's debugging tools (neo/renderer/OpenGL/RenderDebug_GL.cpp)
 * that compute something before they draw: the overdraw surface list, the
 * intensity false-colour pass over a read-back frame, the unshared-edge
 * finder, the stencil screenshot file, the debug line width, the tiled
 * read-back geometry and the gamma-bias test bars.  What is drawn with
 * immediate-mode GL is recorded as the values handed to it.
 */
module RenderDebugGL {
  import opened Bits

  /** An unsigned 8-bit value. */
  newtype byte = x: int | 0 <= x < 256

  // ---------------------------------------------------------------------
  // DBG_ShowOverdraw
  // ---------------------------------------------------------------------

  /** A draw surface: an identity and its material, if any. */
  datatype OverSurf = OverSurf(id: nat, material: Option<nat>)

  /** A view light's local and global interaction lists. */
  datatype OverLight = OverLight(local: seq<OverSurf>, global: seq<OverSurf>)

  /** What DBG_ShowOverdraw reads and rewrites of the view. */
  datatype OverView = OverView(drawSurfs: seq<OverSurf>, lights: seq<OverLight>)

  /** The size of a surface pointer in the 64-bit build. */
  const PTR_BYTES: nat := 8

  /** Every light's local then global interactions, light by light. */
  function Interactions(lights: seq<OverLight>): seq<OverSurf>
  {
    if |lights| == 0 then []
    else Interactions(lights[..|lights| - 1]) + lights[|lights| - 1].local + lights[|lights| - 1].global
  }

  /** s drawn with material mat: always for an interaction, only when it has one for a view surface. */
  function Override(s: OverSurf, mat: nat, always: bool): OverSurf
  {
    if always || s.material.Some? then s.(material := Some(mat)) else s
  }

  function OverrideAll(ss: seq<OverSurf>, mat: nat, always: bool): (r: seq<OverSurf>)
    ensures |r| == |ss|
    ensures forall i :: 0 <= i < |ss| ==> r[i] == Override(ss[i], mat, always)
  {
    if |ss| == 0 then [] else OverrideAll(ss[..|ss| - 1], mat, always) + [Override(ss[|ss| - 1], mat, always)]
  }

  lemma OverrideAllAppend(a: seq<OverSurf>, b: seq<OverSurf>, mat: nat, always: bool)
    ensures OverrideAll(a + b, mat, always) == OverrideAll(a, mat, always) + OverrideAll(b, mat, always)
  {
    var l, r := OverrideAll(a + b, mat, always), OverrideAll(a, mat, always) + OverrideAll(b, mat, always);
    assert |l| == |r|;
    forall i | 0 <= i < |l|
      ensures l[i] == r[i]
    {
      if i < |a| {
        assert (a + b)[i] == a[i];
      } else {
        assert (a + b)[i] == b[i - |a|];
      }
    }
  }

  /** Retargeting one more light's interactions appends its local then global ones. */
  lemma RetargetStep(lights: seq<OverLight>, l: nat, mat: nat)
    requires l < |lights|
    ensures OverrideAll(Interactions(lights[..l + 1]), mat, true) ==
      OverrideAll(Interactions(lights[..l]), mat, true) + OverrideAll(lights[l].local, mat, true) + OverrideAll(lights[l].global, mat, true)
  {
    assert lights[..l + 1][..l] == lights[..l];
    OverrideAllAppend(Interactions(lights[..l]), lights[l].local, mat, true);
    OverrideAllAppend(Interactions(lights[..l]) + lights[l].local, lights[l].global, mat, true);
  }

  lemma AppendAssoc(head: seq<OverSurf>, done: seq<OverSurf>, local: seq<OverSurf>, global: seq<OverSurf>)
    ensures head + done + local + global == head + (done + local + global)
  {
  }

  /** The light list with every interaction list emptied. */
  function Cleared(lights: seq<OverLight>): (r: seq<OverLight>)
    ensures |r| == |lights|
    ensures forall i :: 0 <= i < |r| ==> r[i] == OverLight([], [])
  {
    seq(|lights|, _ => OverLight([], []))
  }

  /** The frame allocation as written: the surface count is not scaled by the pointer size. */
  function OverdrawAllocAsWritten(numDrawSurfs: nat, interactions: nat): nat
  {
    numDrawSurfs + interactions * PTR_BYTES
  }

  /** One view surface and no interactions: one byte is allocated for a pointer of eight. */
  lemma OverdrawAllocShort()
    ensures OverdrawAllocAsWritten(1, 0) < (1 + 0) * PTR_BYTES
    ensures forall n: nat, k: nat :: n > 0 ==> OverdrawAllocAsWritten(n, k) < (n + k) * PTR_BYTES
  {
  }

  /** The intended allocation: one pointer per surface of the new list. */
  function OverdrawAlloc(numDrawSurfs: nat, interactions: nat): (bytes: nat)
    ensures bytes >= (numDrawSurfs + interactions) * PTR_BYTES
  {
    (numDrawSurfs + interactions) * PTR_BYTES
  }

  /** The number of interactions over all lights (the counting loop). */
  method CountInteractions(lights: seq<OverLight>) returns (count: nat)
    ensures count == |Interactions(lights)|
  {
    count := 0;
    var l := 0;
    while l < |lights|
      invariant 0 <= l <= |lights|
      invariant count == |Interactions(lights[..l])|
    {
      assert lights[..l + 1][..l] == lights[..l];
      count := count + |lights[l].local| + |lights[l].global|;
      l := l + 1;
    }
    assert lights[..l] == lights;
  }

  /**
   * The two retargeting loops of DBG_ShowOverdraw: the view surfaces (the
   * material replaced only where there is one), then every interaction of
   * every light, all redrawn with the overdraw material.
   */
  method RetargetForOverdraw(view: OverView, material: nat) returns (newDrawSurfs: seq<OverSurf>)
    ensures newDrawSurfs == OverrideAll(view.drawSurfs, material, false) + OverrideAll(Interactions(view.lights), material, true)
  {
    newDrawSurfs := [];
    var i := 0;
    while i < |view.drawSurfs|
      invariant 0 <= i <= |view.drawSurfs|
      invariant newDrawSurfs == OverrideAll(view.drawSurfs[..i], material, false)
    {
      assert view.drawSurfs[..i + 1] == view.drawSurfs[..i] + [view.drawSurfs[i]];
      OverrideAllAppend(view.drawSurfs[..i], [view.drawSurfs[i]], material, false);
      newDrawSurfs := newDrawSurfs + [Override(view.drawSurfs[i], material, false)];
      i := i + 1;
    }
    assert view.drawSurfs[..i] == view.drawSurfs;
    var l := 0;
    while l < |view.lights|
      invariant 0 <= l <= |view.lights|
      invariant newDrawSurfs ==
        OverrideAll(view.drawSurfs, material, false) + OverrideAll(Interactions(view.lights[..l]), material, true)
    {
      RetargetStep(view.lights, l, material);
      ghost var head, done := OverrideAll(view.drawSurfs, material, false), OverrideAll(Interactions(view.lights[..l]), material, true);
      var local, global := OverrideAll(view.lights[l].local, material, true), OverrideAll(view.lights[l].global, material, true);
      AppendAssoc(head, done, local, global);
      newDrawSurfs := newDrawSurfs + local + global;
      l := l + 1;
    }
    assert view.lights[..l] == view.lights;
  }

  /**
   * DBG_ShowOverdraw.  Mode 0 or no overdraw material: nothing.  Otherwise
   * every view surface with a material and every interaction is redrawn
   * with the overdraw material, the lights lose their interactions, and the
   * view draws the view surfaces (mode 1), the interactions (mode 2), both
   * (mode 3), or, for any other mode, its own list, whose surfaces have been
   * retargeted in place.  Also returns the bytes allocated for the new list.
   */
  method ShowOverdraw(mode: int, overdraw: Option<nat>, view: OverView) returns (result: OverView, allocBytes: nat)
    ensures mode == 0 || overdraw.None? ==> result == view && allocBytes == 0
    ensures mode != 0 && overdraw.Some? ==>
      result.lights == Cleared(view.lights) &&
      allocBytes == OverdrawAlloc(|view.drawSurfs|, |Interactions(view.lights)|) &&
      result.drawSurfs ==
        (if mode == 2 then OverrideAll(Interactions(view.lights), overdraw.value, true)
         else if mode == 3 then
           OverrideAll(view.drawSurfs, overdraw.value, false) + OverrideAll(Interactions(view.lights), overdraw.value, true)
         else OverrideAll(view.drawSurfs, overdraw.value, false))
    ensures mode != 0 && overdraw.Some? ==> allocBytes >= PTR_BYTES * |result.drawSurfs|
  {
    if mode == 0 || overdraw.None? {
      return view, 0;
    }
    var material := overdraw.value;
    var interactions := CountInteractions(view.lights);
    allocBytes := OverdrawAlloc(|view.drawSurfs|, interactions);
    var newDrawSurfs := RetargetForOverdraw(view, material);
    var mainPart := OverrideAll(view.drawSurfs, material, false);
    var lightPart := OverrideAll(Interactions(view.lights), material, true);
    var lights := Cleared(view.lights);
    if mode == 1 {
      result := OverView(newDrawSurfs[..|view.drawSurfs|], lights);
      assert newDrawSurfs[..|view.drawSurfs|] == mainPart;
    } else if mode == 2 {
      result := OverView(newDrawSurfs[|view.drawSurfs|..], lights);
      assert newDrawSurfs[|view.drawSurfs|..] == lightPart;
    } else if mode == 3 {
      result := OverView(newDrawSurfs, lights);
    } else {
      result := OverView(mainPart, lights);
    }
  }

  // ---------------------------------------------------------------------
  // DBG_ShowIntensity
  // ---------------------------------------------------------------------

  /** The brightest of the three colour channels. */
  function Max3(r: int, g: int, b: int): (m: int)
    ensures m >= r && m >= g && m >= b
    ensures m == r || m == g || m == b
  {
    var j := if g > r then g else r;
    if b > j then b else j
  }

  /**
   * The false colour for intensity j as written, after the store into a
   * byte: 2 * (128 - j) is 256 for j = 0 and wraps to 0.
   */
  function IntensityAsWritten(j: int): (int, int, int)
    requires 0 <= j < 256
  {
    if j < 128 then ((2 * (128 - j)) % 256, 2 * j, 0)
    else (0, 2 * (255 - j), 2 * (j - 128))
  }

  /** Black, not red, for intensity 0; every other intensity is as intended. */
  lemma IntensityZeroLosesRed()
    ensures IntensityAsWritten(0) == (0, 0, 0)
    ensures IntensityColor(0) == (255, 0, 0)
    ensures forall j :: 0 < j < 256 ==> IntensityAsWritten(j) == IntensityColor(j)
  {
  }

  /**
   * The intended false colour: from red at 0 through green at 128 to blue
   * at 255, the red of intensity 0 held at the byte's largest value.
   */
  function IntensityColor(j: int): (c: (int, int, int))
    requires 0 <= j < 256
    ensures 0 <= c.0 < 256 && 0 <= c.1 < 256 && 0 <= c.2 < 256
    ensures j < 128 ==> c.0 > 0 && c.2 == 0
    ensures j >= 128 ==> c.0 == 0
    ensures j > 128 ==> c.2 > 0
  {
    if j < 128 then (Min(255, 2 * (128 - j)), 2 * j, 0)
    else (0, 2 * (255 - j), 2 * (j - 128))
  }

  /** Below 128 red falls and green rises with intensity; above, green falls and blue rises. */
  lemma IntensityShading(j: int, k: int)
    requires 0 <= j < k < 256
    ensures k < 128 ==> IntensityColor(j).0 >= IntensityColor(k).0 && IntensityColor(j).1 < IntensityColor(k).1
    ensures 128 <= j ==> IntensityColor(j).1 > IntensityColor(k).1 && IntensityColor(j).2 < IntensityColor(k).2
  {
  }

  /** One RGBA pixel after the pass: the false colour of its brightest channel, alpha kept. */
  function ShownPixel(px: seq<byte>): (r: seq<byte>)
    requires |px| == 4
    ensures |r| == 4 && r[3] == px[3]
    ensures (r[0] as int, r[1] as int, r[2] as int) == IntensityColor(Max3(px[0] as int, px[1] as int, px[2] as int))
  {
    var c := IntensityColor(Max3(px[0] as int, px[1] as int, px[2] as int));
    [c.0 as byte, c.1 as byte, c.2 as byte, px[3]]
  }

  /** Channel ch of pixel q of a read-back s after the pass. */
  function Shown(s: seq<byte>, q: nat, ch: nat): byte
    requires 4 * q + 4 <= |s| && ch < 4
  {
    ShownPixel(s[4 * q..4 * q + 4])[ch]
  }

  /**
   * DBG_ShowIntensity's pass over an RGBA read-back, in place: each pixel's
   * colour becomes the false colour of its brightest channel, computed from
   * that pixel alone; alpha is left alone.
   */
  method ShowIntensity(colorReadback: array<byte>)
    requires colorReadback.Length % 4 == 0
    modifies colorReadback
    ensures forall q: nat, ch: nat :: 4 * q + 4 <= colorReadback.Length && ch < 4 ==>
      colorReadback[4 * q + ch] == Shown(old(colorReadback[..]), q, ch)
  {
    ghost var orig := colorReadback[..];
    var c := colorReadback.Length;
    var i := 0;
    ghost var p: nat := 0;
    while i < c
      invariant i == 4 * p && i <= c
      invariant forall q: nat, ch: nat :: q < p && ch < 4 ==> colorReadback[4 * q + ch] == Shown(orig, q, ch)
      invariant forall k :: i <= k < c ==> colorReadback[k] == orig[k]
    {
      assert i + 4 <= c;
      var j := Max3(colorReadback[i] as int, colorReadback[i + 1] as int, colorReadback[i + 2] as int);
      var color := IntensityColor(j);
      assert orig[i..i + 4] == [orig[i], orig[i + 1], orig[i + 2], orig[i + 3]];
      colorReadback[i] := color.0 as byte;
      colorReadback[i + 1] := color.1 as byte;
      colorReadback[i + 2] := color.2 as byte;
      i := i + 4;
      p := p + 1;
    }
  }

  // ---------------------------------------------------------------------
  // DBG_ShowEdges
  // ---------------------------------------------------------------------

  /** The corner after corner n of a triangle. */
  function NextCorner(n: nat): nat
    requires n < 3
  {
    if n == 2 then 0 else n + 1
  }

  /** A triangle's three vertex numbers, corner by corner. */
  datatype Triangle = Triangle(c0: int, c1: int, c2: int)

  /** The index list read three corners at a time, as the loops over the indexes step by 3. */
  function Triangles(indexes: seq<int>): (tris: seq<Triangle>)
    ensures |tris| == |indexes| / 3
    ensures forall t :: 0 <= t < |tris| ==> tris[t] == Triangle(indexes[3 * t], indexes[3 * t + 1], indexes[3 * t + 2])
  {
    seq(|indexes| / 3, t requires 0 <= t < |indexes| / 3 => Triangle(indexes[3 * t], indexes[3 * t + 1], indexes[3 * t + 2]))
  }

  /** The edge from corner n of triangle t to the next corner. */
  function TriEdge(tris: seq<Triangle>, t: nat, n: nat): (int, int)
    requires t < |tris| && n < 3
  {
    var tri := tris[t];
    if n == 0 then (tri.c0, tri.c1) else if n == 1 then (tri.c1, tri.c2) else (tri.c2, tri.c0)
  }

  /** Triangle t lists the edge (a, b) from one of its corners to the next. */
  predicate TriangleLists(tris: seq<Triangle>, t: nat, a: int, b: int)
    requires t < |tris|
  {
    TriEdge(tris, t, 0) == (a, b) || TriEdge(tris, t, 1) == (a, b) || TriEdge(tris, t, 2) == (a, b)
  }

  /** One of the first t triangles lists the edge (a, b). */
  predicate ListedBefore(tris: seq<Triangle>, t: nat, a: int, b: int)
    requires t <= |tris|
  {
    t > 0 && (ListedBefore(tris, t - 1, a, b) || TriangleLists(tris, t - 1, a, b))
  }

  /** Some triangle of the surface lists the edge (a, b). */
  predicate ListsEdge(tris: seq<Triangle>, a: int, b: int)
  {
    exists u: nat :: u < |tris| && TriangleLists(tris, u, a, b)
  }

  /** ListsEdge is ListedBefore over all the triangles. */
  lemma ListsEdgeListedBefore(tris: seq<Triangle>, a: int, b: int)
    ensures ListsEdge(tris, a, b) <==> ListedBefore(tris, |tris|, a, b)
  {
    ListedBeforeMeans(tris, |tris|, a, b);
    if ListsEdge(tris, a, b) {
      var u: nat :| u < |tris| && TriangleLists(tris, u, a, b);
      if TriEdge(tris, u, 0) == (a, b) {
        assert TriEdge(tris, u, 0) == (a, b);
      } else if TriEdge(tris, u, 1) == (a, b) {
        assert TriEdge(tris, u, 1) == (a, b);
      } else {
        assert TriEdge(tris, u, 2) == (a, b);
      }
    }
    if ListedBefore(tris, |tris|, a, b) {
      var u: nat, n: nat :| u < |tris| && n < 3 && TriEdge(tris, u, n) == (a, b);
      assert TriangleLists(tris, u, a, b);
    }
  }

  /** ListedBefore means what it says: some triangle below t lists the edge at some corner. */
  lemma {:induction false} ListedBeforeMeans(tris: seq<Triangle>, t: nat, a: int, b: int)
    requires t <= |tris|
    ensures ListedBefore(tris, t, a, b) <==> exists u: nat, n: nat :: u < t && n < 3 && TriEdge(tris, u, n) == (a, b)
  {
    if t > 0 {
      ListedBeforeMeans(tris, t - 1, a, b);
      if exists u: nat, n: nat :: u < t && n < 3 && TriEdge(tris, u, n) == (a, b) {
        var u: nat, n: nat :| u < t && n < 3 && TriEdge(tris, u, n) == (a, b);
        if u == t - 1 {
          assert TriangleLists(tris, t - 1, a, b);
        }
      }
      if TriangleLists(tris, t - 1, a, b) {
        if TriEdge(tris, t - 1, 0) == (a, b) {
          assert TriEdge(tris, t - 1, 0) == (a, b);
        } else if TriEdge(tris, t - 1, 1) == (a, b) {
          assert TriEdge(tris, t - 1, 1) == (a, b);
        } else {
          assert TriEdge(tris, t - 1, 2) == (a, b);
        }
      }
    }
  }

  /**
   * The backward-listing search: scan the triangles for one that lists
   * (i2, i1); true when one does.
   */
  method HasBackwardListing(indexes: seq<int>, i1: int, i2: int) returns (found: bool)
    requires |indexes| % 3 == 0
    ensures found <==> ListsEdge(Triangles(indexes), i2, i1)
  {
    ghost var tris := Triangles(indexes);
    var m := 0;
    ghost var t: nat := 0;
    while m < |indexes|
      invariant m == 3 * t && t <= |tris|
      invariant !ListedBefore(tris, t, i2, i1)
    {
      var n := 0;
      while n < 3
        invariant 0 <= n <= 3
        invariant forall n': nat :: n' < n ==> TriEdge(tris, t, n') != (i2, i1)
      {
        assert tris[t] == Triangle(indexes[m], indexes[m + 1], indexes[m + 2]);
        if indexes[m + n] == i2 && indexes[m + NextCorner(n)] == i1 {
          assert TriEdge(tris, t, n) == (i2, i1);
          assert TriangleLists(tris, t, i2, i1);
          return true;
        }
        n := n + 1;
      }
      t := t + 1;
      m := m + 3;
    }
    ListsEdgeListedBefore(tris, i2, i1);
    return false;
  }

  /** Listing among the first t triangles stays true for more triangles. */
  lemma {:induction false} ListedMono(tris: seq<Triangle>, t: nat, u: nat, a: int, b: int)
    requires t <= u <= |tris| && ListedBefore(tris, t, a, b)
    ensures ListedBefore(tris, u, a, b)
    decreases u - t
  {
    if t < u {
      ListedMono(tris, t + 1, u, a, b);
    }
  }

  /** The edge e as drawn: kept unless some triangle lists it backwards. */
  function Kept(tris: seq<Triangle>, e: (int, int)): (r: seq<(int, int)>)
    ensures r == [] || r == [e]
  {
    if ListsEdge(tris, e.1, e.0) then [] else [e]
  }

  /** The drawn edges of the first k corners of triangle t. */
  function TriangleKept(tris: seq<Triangle>, t: nat, k: nat): seq<(int, int)>
    requires t < |tris| && k <= 3
  {
    if k == 0 then [] else TriangleKept(tris, t, k - 1) + Kept(tris, TriEdge(tris, t, k - 1))
  }

  /** The drawn edges of the first t triangles, triangle by triangle, corner by corner. */
  function UnsharedEdges(tris: seq<Triangle>, t: nat): seq<(int, int)>
    requires t <= |tris|
  {
    if t == 0 then [] else UnsharedEdges(tris, t - 1) + TriangleKept(tris, t - 1, 3)
  }

  /** silEdge_t: the planes (triangles) on the two sides of an edge and its two vertexes. */
  datatype SilEdge = SilEdge(p1: int, p2: int, v1: int, v2: int)

  /**
   * The silhouette edges with the dangling plane on one side, that is with
   * a triangle on one side only, as (v1, v2) segments in list order.
   */
  function DanglingEdges(silEdges: seq<SilEdge>, danglePlane: int): seq<(int, int)>
  {
    if |silEdges| == 0 then []
    else
      var e := silEdges[|silEdges| - 1];
      DanglingEdges(silEdges[..|silEdges| - 1], danglePlane) +
        (if e.p1 == danglePlane || e.p2 == danglePlane then [(e.v1, e.v2)] else [])
  }

  /** A segment is drawn in red exactly when some listed silhouette edge between its vertexes touches the dangling plane. */
  lemma {:induction false} DanglingEdgesExact(silEdges: seq<SilEdge>, danglePlane: int, a: int, b: int)
    ensures (a, b) in DanglingEdges(silEdges, danglePlane) <==>
            exists e :: e in silEdges && (e.p1 == danglePlane || e.p2 == danglePlane) && e.v1 == a && e.v2 == b
    ensures |DanglingEdges(silEdges, danglePlane)| <= |silEdges|
  {
    if |silEdges| > 0 {
      var init := silEdges[..|silEdges| - 1];
      DanglingEdgesExact(init, danglePlane, a, b);
      assert silEdges == init + [silEdges[|silEdges| - 1]];
    }
  }

  /**
   * DBG_ShowEdges for one surface: the line segments drawn in yellow, one
   * per triangle corner whose edge no triangle uses in the other direction,
   * and, when the surface has silhouette edges, those drawn in red: the
   * edges whose one side is the plane numbered after the last triangle.
   */
  method ShowEdges(indexes: seq<int>, silEdges: Option<seq<SilEdge>>) returns (lines: seq<(int, int)>, dangling: seq<(int, int)>)
    requires |indexes| % 3 == 0
    ensures lines == UnsharedEdges(Triangles(indexes), |indexes| / 3)
    ensures silEdges.None? ==> dangling == []
    ensures silEdges.Some? ==> dangling == DanglingEdges(silEdges.value, |indexes| / 3)
  {
    lines := ShowUnsharedEdges(indexes);
    dangling := [];
    if silEdges.None? {
      return;
    }
    var edges := silEdges.value;
    var danglePlane := |indexes| / 3;
    for j := 0 to |edges|
      invariant dangling == DanglingEdges(edges[..j], danglePlane)
    {
      var edge := edges[j];
      assert edges[..j + 1][..j] == edges[..j];
      if edge.p1 == danglePlane || edge.p2 == danglePlane {
        dangling := dangling + [(edge.v1, edge.v2)];
      }
    }
    assert edges[..|edges|] == edges;
  }

  /** The yellow pass of DBG_ShowEdges. */
  method ShowUnsharedEdges(indexes: seq<int>) returns (lines: seq<(int, int)>)
    requires |indexes| % 3 == 0
    ensures lines == UnsharedEdges(Triangles(indexes), |indexes| / 3)
  {
    ghost var tris := Triangles(indexes);
    assert |indexes| == 3 * |tris|;
    lines := [];
    var j := 0;
    ghost var t: nat := 0;
    while j < |indexes|
      invariant j == 3 * t && t <= |tris|
      invariant lines == UnsharedEdges(tris, t)
    {
      var kept := ShowTriangleEdges(indexes, j, t);
      lines := lines + kept;
      j := j + 3;
      t := t + 1;
    }
  }

  /** The yellow segments of the triangle whose corners start at indexes[j]. */
  method ShowTriangleEdges(indexes: seq<int>, j: nat, ghost t: nat) returns (kept: seq<(int, int)>)
    requires |indexes| % 3 == 0 && j == 3 * t && t < |indexes| / 3
    ensures kept == TriangleKept(Triangles(indexes), t, 3)
  {
    ghost var tris := Triangles(indexes);
    kept := [];
    var k := 0;
    while k < 3
      invariant 0 <= k <= 3
      invariant kept == TriangleKept(tris, t, k)
    {
      var l := if k == 2 then 0 else k + 1;
      var i1 := indexes[j + k];
      var i2 := indexes[j + l];
      assert tris[t] == Triangle(indexes[j], indexes[j + 1], indexes[j + 2]);
      assert TriEdge(tris, t, k) == (i1, i2);
      var shared := HasBackwardListing(indexes, i1, i2);
      if !shared {
        kept := kept + [(i1, i2)];
      }
      k := k + 1;
    }
  }

  /** Triangle t draws (a, b) iff it lists (a, b) and no triangle lists (b, a). */
  lemma TriangleKeptExact(tris: seq<Triangle>, t: nat, a: int, b: int)
    requires t < |tris|
    ensures (a, b) in TriangleKept(tris, t, 3) <==> TriangleLists(tris, t, a, b) && !ListsEdge(tris, b, a)
  {
    var e0, e1, e2 := TriEdge(tris, t, 0), TriEdge(tris, t, 1), TriEdge(tris, t, 2);
    assert TriangleKept(tris, t, 1) == Kept(tris, e0);
    assert TriangleKept(tris, t, 2) == Kept(tris, e0) + Kept(tris, e1);
    assert TriangleKept(tris, t, 3) == Kept(tris, e0) + Kept(tris, e1) + Kept(tris, e2);
  }

  /** One step of UnsharedEdgesExact: from the first t - 1 triangles to the first t. */
  lemma UnsharedEdgesStep(tris: seq<Triangle>, t: nat, a: int, b: int)
    requires 0 < t <= |tris|
    requires (a, b) in UnsharedEdges(tris, t - 1) <==> ListedBefore(tris, t - 1, a, b) && !ListsEdge(tris, b, a)
    ensures (a, b) in UnsharedEdges(tris, t) <==> ListedBefore(tris, t, a, b) && !ListsEdge(tris, b, a)
  {
    var back := ListsEdge(tris, b, a);
    TriangleKeptExact(tris, t - 1, a, b);
    InConcatIff(UnsharedEdges(tris, t - 1), TriangleKept(tris, t - 1, 3), (a, b),
      ListedBefore(tris, t - 1, a, b) && !back, TriangleLists(tris, t - 1, a, b) && !back);
  }

  /** Membership in a concatenation, given what membership in each part means. */
  lemma InConcatIff<T>(x: seq<T>, y: seq<T>, e: T, p: bool, q: bool)
    requires e in x <==> p
    requires e in y <==> q
    ensures e in x + y <==> p || q
  {
  }

  /**
   * The drawn segments of the first t triangles are exactly the edges one
   * of them lists and no triangle lists backwards.
   */
  lemma {:induction false} UnsharedEdgesExact(tris: seq<Triangle>, t: nat, a: int, b: int)
    requires t <= |tris|
    ensures (a, b) in UnsharedEdges(tris, t) <==> ListedBefore(tris, t, a, b) && !ListsEdge(tris, b, a)
  {
    if t > 0 {
      UnsharedEdgesExact(tris, t - 1, a, b);
      UnsharedEdgesStep(tris, t, a, b);
    }
  }

  /**
   * Over the whole surface: (a, b) is drawn iff some triangle lists it at
   * one of its corners and no triangle lists (b, a), a boundary edge.
   */
  lemma ShowEdgesDrawsBoundary(tris: seq<Triangle>, a: int, b: int)
    ensures (a, b) in UnsharedEdges(tris, |tris|) <==>
      (exists t: nat, n: nat :: t < |tris| && n < 3 && TriEdge(tris, t, n) == (a, b)) && !ListsEdge(tris, b, a)
  {
    UnsharedEdgesExact(tris, |tris|, a, b);
    ListedBeforeMeans(tris, |tris|, a, b);
  }

  // ---------------------------------------------------------------------
  // R_StencilShot
  // ---------------------------------------------------------------------

  const TGA_HEADER_SIZE: nat := 18

  /** The low byte of x, as a byte store of x keeps it. */
  function LowByte(x: nat): byte { (x % 256) as byte }

  /** The byte store of x >> 8. */
  function HighByte(x: nat): byte { ((x / 256) % 256) as byte }

  /** The 18-byte header of an uncompressed 24-bit TGA of the given size, the sizes stored little-endian in bytes. */
  function TgaHeader(width: nat, height: nat): (h: seq<byte>)
    ensures |h| == TGA_HEADER_SIZE
  {
    [0, 0, 2, 0, 0, 0, 0, 0, 0, 0, 0, 0,
     LowByte(width), HighByte(width), LowByte(height), HighByte(height),
     24, 0]
  }

  /** A 16-bit little-endian field. */
  function LE16(s: seq<byte>, at: nat): nat
    requires at + 1 < |s|
  {
    s[at] as nat + 256 * s[at + 1] as nat
  }

  /** The header reads back as an uncompressed image of the given size (sizes below 65536) with 24-bit pixels. */
  lemma TgaHeaderReadsBack(width: nat, height: nat)
    requires width < 65536 && height < 65536
    ensures var h := TgaHeader(width, height);
      h[2] == 2 && h[16] == 24 && LE16(h, 12) == width && LE16(h, 14) == height
  {
  }

  /**
   * R_StencilShot's file image: the header, then each stencil byte copied
   * into the three colour channels of its pixel.
   */
  method StencilShot(width: nat, height: nat, stencil: seq<byte>) returns (file: seq<byte>)
    requires |stencil| == width * height
    ensures |file| == TGA_HEADER_SIZE + 3 * |stencil|
    ensures file[..TGA_HEADER_SIZE] == TgaHeader(width, height)
    ensures forall i :: 0 <= i < |stencil| ==>
      file[18 + 3 * i] == stencil[i] && file[18 + 3 * i + 1] == stencil[i] && file[18 + 3 * i + 2] == stencil[i]
  {
    var pix := width * height;
    var c := pix * 3 + 18;
    var buffer := new byte[c](_ => 0);
    var i := 0;
    while i < pix
      invariant 0 <= i <= pix
      invariant forall k :: 0 <= k < i ==>
        buffer[18 + 3 * k] == stencil[k] && buffer[18 + 3 * k + 1] == stencil[k] && buffer[18 + 3 * k + 2] == stencil[k]
    {
      buffer[18 + i * 3] := stencil[i];
      buffer[18 + i * 3 + 1] := stencil[i];
      buffer[18 + i * 3 + 2] := stencil[i];
      i := i + 1;
    }
    WriteTgaHeader(buffer, width, height);
    file := buffer[..];
  }

  /**
   * Stores the header at the start of buffer: the zeroed header with its
   * type, sizes and pixel depth filled in, written here as one block.
   */
  method WriteTgaHeader(buffer: array<byte>, width: nat, height: nat)
    requires buffer.Length >= TGA_HEADER_SIZE
    modifies buffer
    ensures buffer[..TGA_HEADER_SIZE] == TgaHeader(width, height)
    ensures forall k :: TGA_HEADER_SIZE <= k < buffer.Length ==> buffer[k] == old(buffer[k])
  {
    var header := TgaHeader(width, height);
    var k := 0;
    while k < TGA_HEADER_SIZE
      invariant 0 <= k <= TGA_HEADER_SIZE
      invariant forall k' :: 0 <= k' < k ==> buffer[k'] == header[k']
      invariant forall k' :: TGA_HEADER_SIZE <= k' < buffer.Length ==> buffer[k'] == old(buffer[k'])
    {
      buffer[k] := header[k];
      k := k + 1;
    }
    assert buffer[..TGA_HEADER_SIZE] == header;
  }

  // ---------------------------------------------------------------------
  // Debug lines, tiled read-back, gamma-bias bars
  // ---------------------------------------------------------------------

  /** The distance between two integers. */
  function Distance(x: int, y: int): nat { if x < y then y - x else x - y }

  /** r_debugLineWidth as the debug line and text passes use it: the closest width in [1, 10]. */
  function DebugLineWidth(cvar: int): (w: int)
    ensures 1 <= w <= 10
    ensures forall x :: 1 <= x <= 10 ==> Distance(w, cvar) <= Distance(x, cvar)
  {
    if cvar < 1 then 1 else if cvar > 10 then 10 else cvar
  }

  /** The row pitch of a GL read-back of w RGB pixels: 3w rounded up to a multiple of 4. */
  function RowPitch(w: nat): (r: nat)
    ensures r % 4 == 0 && 3 * w <= r < 3 * w + 4
    ensures forall m: nat :: m % 4 == 0 && m >= 3 * w ==> m >= r
  {
    (3 * w + 3) - (3 * w + 3) % 4
  }

  /** A tile's extent from origin: the window size, clipped to what is left of the image. */
  function TileExtent(origin: nat, sys: nat, total: nat): (r: int)
    ensures origin + sys > total ==> r == total - origin
    ensures origin < total && sys > 0 ==> 0 < r <= sys && origin + r <= total
  {
    if origin + sys > total then total - origin else sys
  }

  /** Every pixel coordinate lies in the tile whose origin is the multiple of the window size at or below it. */
  lemma TileHoldsPixel(x: nat, sys: nat, total: nat)
    requires sys > 0 && x < total
    ensures var origin := x / sys * sys;
      origin % sys == 0 && origin <= x < origin + TileExtent(origin, sys, total)
  {
    DivMulBounds(x, sys);
  }

  /** The read-back of any tile fits the temporary buffer of 3 * (window width + 3) * window height bytes. */
  lemma TileReadFits(w: nat, h: nat, sysWidth: nat, sysHeight: nat)
    requires w <= sysWidth && h <= sysHeight
    ensures RowPitch(w) * h <= 3 * (sysWidth + 3) * sysHeight
  {
    ProductLe(RowPitch(w), h, 3 * (sysWidth + 3), sysHeight);
  }

  lemma ProductLe(a: nat, b: nat, x: nat, y: nat)
    requires a <= x && b <= y
    ensures a * b <= x * y
  {
    if b > 0 && x > 0 {
      MulLe(a, x, b);
      MulLe(b, y, x);
    }
  }

  /** C's conversion of a real to int: truncation toward zero. */
  function Trunc(x: real): int
  {
    if x >= 0.0 then x.Floor else -((-x).Floor)
  }

  /** A value clamped to a byte. */
  function ClampByte(v: int): (r: int)
    ensures 0 <= r <= 255
    ensures 0 <= v <= 255 ==> r == v
    ensures v < 0 ==> r == 0
    ensures v > 255 ==> r == 255
  {
    if v < 0 then 0 else if v > 255 then 255 else v
  }

  /** 1.5 raised to the power c, the scale of bar column c. */
  function Scale(c: nat): real
  {
    if c == 0 then 1.0 else Scale(c - 1) * 1.5
  }

  /** The value of bar row b (bias 10b - 40), column c. */
  function BarValue(b: nat, c: nat): int
  {
    ClampByte(Trunc(64.0 * Scale(c) + (10 * b - 40) as real))
  }

  /**
   * DBG_TestGammaBias' bar values: for each bias -40, -30, ..., 30 a row
   * of four levels, 64 scaled by 1.5 per column, plus the bias, clamped to
   * a byte.  An r_testGammaBias of 0 or less draws nothing.
   */
  method GammaBiasBars(testGammaBias: int) returns (bars: seq<seq<int>>)
    ensures testGammaBias <= 0 ==> bars == []
    ensures testGammaBias > 0 ==> |bars| == 8
    ensures forall b :: 0 <= b < |bars| ==> |bars[b]| == 4
    ensures forall b, c :: 0 <= b < |bars| && 0 <= c < |bars[b]| ==> bars[b][c] == BarValue(b, c)
  {
    if testGammaBias <= 0 {
      return [];
    }
    bars := [];
    var bias := -40;
    while bias < 40
      invariant -40 <= bias <= 40 && bias == 10 * |bars| - 40
      invariant forall b :: 0 <= b < |bars| ==> |bars[b]| == 4
      invariant forall b, c :: 0 <= b < |bars| && 0 <= c < |bars[b]| ==> bars[b][c] == BarValue(b, c)
    {
      var scale := 1.0;
      var row := [];
      var c := 0;
      while c < 4
        invariant 0 <= c <= 4 && |row| == c
        invariant scale == Scale(c)
        invariant forall c' :: 0 <= c' < c ==> row[c'] == BarValue(|bars|, c')
      {
        var v := Trunc(64.0 * scale + bias as real);
        scale := scale * 1.5;
        v := ClampByte(v);
        row := row + [v];
        c := c + 1;
      }
      bars := bars + [row];
      bias := bias + 10;
    }
  }

  /** The clamp never acts: every bar value is 64, 96, 144 or 216 plus its bias, within [24, 246]. */
  lemma GammaBarsNeedNoClamp(b: nat, c: nat)
    requires b < 8 && c < 4
    ensures BarValue(b, c) == [64, 96, 144, 216][c] + 10 * b - 40
    ensures 24 <= BarValue(b, c) <= 246
  {
    assert Scale(0) == 1.0 && Scale(1) == 1.5 && Scale(2) == 2.25 && Scale(3) == 3.375;
  }
}
