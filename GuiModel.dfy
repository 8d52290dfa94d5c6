/**
 * idGuiModel: the GUI batcher that packs 2D triangles into one frame-wide
 * vertex and index block and groups the indexes into surfaces that share
 * a material and GL state.
 *
 * A state value (GuiState) describes the surface list and the two counters;
 * the class keeps them in fields and writes the index block, an array.
 */
module GuiModel {
  import opened Bits
  import RenderSystem

  const MAX_INDEXES: nat := 20000 * 6
  const MAX_VERTS: nat := 20000 * 4
  /** Surfaces start on a multiple of 8 indexes (16 bytes of 16-bit indexes). */
  const SURFACE_INDEX_ALIGN: nat := 8

  /** A material, by identity; a NULL material is `None` where one may be passed. */
  datatype Material = Material(id: nat)

  datatype GuiSurface = GuiSurface(material: Material, glState: nat, firstIndex: nat, numIndexes: nat)

  datatype GuiState = GuiState(surfaces: seq<GuiSurface>, numVerts: nat, numIndexes: nat)

  function Last(st: GuiState): GuiSurface
    requires st.surfaces != []
  {
    st.surfaces[|st.surfaces| - 1]
  }

  /**
   * The shape the batcher keeps: at least one surface; counts within their
   * limits; every surface starts on an 8-index boundary; consecutive
   * surfaces hold increasing, non-overlapping ranges; only the current
   * (last) surface may be empty, and it ends at numIndexes.
   */
  ghost predicate ValidGui(st: GuiState)
  {
    var s := st.surfaces;
    s != [] &&
    st.numVerts <= MAX_VERTS && st.numIndexes <= MAX_INDEXES &&
    (forall k :: 0 <= k < |s| ==> s[k].firstIndex % SURFACE_INDEX_ALIGN == 0) &&
    (forall k :: 0 <= k < |s| - 1 ==> s[k].firstIndex + s[k].numIndexes <= s[k + 1].firstIndex) &&
    (forall k :: 0 <= k < |s| - 1 ==> s[k].numIndexes > 0) &&
    Last(st).firstIndex + Last(st).numIndexes == st.numIndexes
  }

  /**
   * AdvanceSurf: the index counter is rounded up to a multiple of 8 and an
   * empty surface starting there is appended; it inherits the material
   * and GL state of the current surface, or the default material and state
   * 0 when there is none.
   */
  function Advance(st: GuiState, defaultMaterial: Material): (r: GuiState)
    ensures r.numVerts == st.numVerts && r.numIndexes == AlignUp(st.numIndexes, SURFACE_INDEX_ALIGN)
    ensures |r.surfaces| == |st.surfaces| + 1 && r.surfaces[..|st.surfaces|] == st.surfaces
    ensures Last(r).firstIndex == r.numIndexes && Last(r).numIndexes == 0
  {
    var n := AlignUp(st.numIndexes, SURFACE_INDEX_ALIGN);
    var s := if st.surfaces != []
      then GuiSurface(Last(st).material, Last(st).glState, n, 0)
      else GuiSurface(defaultMaterial, 0, n, 0);
    assert (st.surfaces + [s])[..|st.surfaces|] == st.surfaces;
    GuiState(st.surfaces + [s], st.numVerts, n)
  }

  /** Clear: the surface list emptied and one fresh surface begun. */
  function Cleared(st: GuiState, defaultMaterial: Material): GuiState
  {
    Advance(st.(surfaces := []), defaultMaterial)
  }

  /** BeginFrame: both counters reset, then Clear. */
  function BeganFrame(defaultMaterial: Material): GuiState
  {
    Cleared(GuiState([], 0, 0), defaultMaterial)
  }

  /** A change of material or state only starts a new surface when the current one has indexes. */
  predicate StartsNewSurface(st: GuiState, material: Material, glState: nat)
    requires st.surfaces != []
  {
    (material != Last(st).material || glState != Last(st).glState) && Last(st).numIndexes != 0
  }

  /** Where the new indexes go: the current counter, rounded up when a new surface starts. */
  function StartIndex(st: GuiState, material: Material, glState: nat): nat
    requires st.surfaces != []
  {
    if StartsNewSurface(st, material, glState) then AlignUp(st.numIndexes, SURFACE_INDEX_ALIGN)
    else st.numIndexes
  }

  datatype TrisAlloc = TrisAlloc(state: GuiState, startVert: nat, startIndex: nat)

  /**
   * AllocTris on the state: NULL (None) and no change for a NULL material
   * or when the verts or the indexes would not fit; otherwise the current
   * surface (after starting a new one if needed) takes the material and
   * state and the indexes, and both counters grow by exactly the request.
   * The index limit is checked at the position the indexes will really
   * occupy (see AllocTrisOverrunsAsWritten).
   */
  function AllocTrisState(st: GuiState, vertCount: nat, indexCount: nat,
                          material: Option<Material>, glState: nat, defaultMaterial: Material): (r: Option<TrisAlloc>)
    requires st.surfaces != []
    ensures r.None? <==> (material.None? ||
                          StartIndex(st, material.value, glState) + indexCount > MAX_INDEXES ||
                          st.numVerts + vertCount > MAX_VERTS)
    ensures r.Some? ==> (r.value.startVert == st.numVerts &&
                         r.value.state.numVerts == st.numVerts + vertCount &&
                         r.value.startIndex == StartIndex(st, material.value, glState) &&
                         r.value.state.numIndexes == r.value.startIndex + indexCount)
    ensures r.Some? ==> (r.value.state.surfaces != [] &&
                         Last(r.value.state).material == material.value &&
                         Last(r.value.state).glState == glState)
    ensures r.Some? ==> st.surfaces[..|st.surfaces| - 1] <= r.value.state.surfaces
  {
    if material.None? then None
    else if StartIndex(st, material.value, glState) + indexCount > MAX_INDEXES then None
    else if st.numVerts + vertCount > MAX_VERTS then None
    else
      var m := material.value;
      var st1 := if StartsNewSurface(st, m, glState) then Advance(st, defaultMaterial) else st;
      var cur := Last(st1);
      var surf := GuiSurface(m, glState, cur.firstIndex, cur.numIndexes + indexCount);
      var st2 := GuiState(st1.surfaces[|st1.surfaces| - 1 := surf],
                          st1.numVerts + vertCount, st1.numIndexes + indexCount);
      Some(TrisAlloc(st2, st.numVerts, st1.numIndexes))
  }

  /** The index range the code as written lets through: checked before the rounding of a new surface. */
  function IndexRangeAsWritten(st: GuiState, indexCount: nat, material: Material, glState: nat): (r: Option<(nat, nat)>)
    requires st.surfaces != []
    ensures r.Some? <==> st.numIndexes + indexCount <= MAX_INDEXES
    ensures r.Some? ==> (r.value.1 == r.value.0 + indexCount &&
                         r.value.0 == StartIndex(st, material, glState))
  {
    if st.numIndexes + indexCount > MAX_INDEXES then None
    else
      var start := StartIndex(st, material, glState);
      Some((start, start + indexCount))
  }

  /**
   * A valid batch with 119999 indexes in its current surface: as written,
   * one more index with another material passes the limit check, lands at
   * 120000 after the rounding, and so ends past the MAX_INDEXES block. The
   * corrected allocation refuses it.
   */
  lemma AllocTrisOverrunsAsWritten()
    ensures var st := GuiState([GuiSurface(Material(1), 0, 0, 119999)], 0, 119999);
      ValidGui(st) &&
      IndexRangeAsWritten(st, 1, Material(2), 0) == Some((120000, 120001)) &&
      120001 > MAX_INDEXES &&
      AllocTrisState(st, 0, 1, Some(Material(2)), 0, Material(0)).None?
  {
    var st := GuiState([GuiSurface(Material(1), 0, 0, 119999)], 0, 119999);
    assert AlignUp(119999, 8) == 120000 by {
      DivModUnique(119999 + 8 - 1, 8, 15000, 6);
    }
    assert StartIndex(st, Material(2), 0) == 120000;
  }

  /** Range k lies wholly before range j for every later surface j. */
  lemma {:induction false} RangesIncreasing(st: GuiState, k: nat, j: nat)
    requires ValidGui(st) && k < j < |st.surfaces|
    ensures st.surfaces[k].firstIndex + st.surfaces[k].numIndexes <= st.surfaces[j].firstIndex
    decreases j - k
  {
    var s := st.surfaces;
    if k + 1 < j {
      RangesIncreasing(st, k + 1, j);
      assert s[k].firstIndex + s[k].numIndexes <= s[k + 1].firstIndex;
    }
  }

  /** All surface ranges are pairwise disjoint and end by numIndexes. */
  lemma SurfacesDisjoint(st: GuiState, k: nat, j: nat)
    requires ValidGui(st) && k < |st.surfaces| && j < |st.surfaces| && k != j
    ensures st.surfaces[k].firstIndex + st.surfaces[k].numIndexes <= st.surfaces[j].firstIndex ||
            st.surfaces[j].firstIndex + st.surfaces[j].numIndexes <= st.surfaces[k].firstIndex
    ensures st.surfaces[k].firstIndex + st.surfaces[k].numIndexes <= st.numIndexes <= MAX_INDEXES
  {
    if k < j { RangesIncreasing(st, k, j); } else { RangesIncreasing(st, j, k); }
    var n := |st.surfaces|;
    if k < n - 1 { RangesIncreasing(st, k, n - 1); }
  }

  lemma AlignUpBounded(x: nat)
    requires x <= MAX_INDEXES
    ensures AlignUp(x, SURFACE_INDEX_ALIGN) <= MAX_INDEXES
  {
    var r := AlignUp(x, SURFACE_INDEX_ALIGN);
    assert r < (15000 + 1) * 8;
    DivBounds(r, 8, 15000);
    assert r == r / 8 * 8 + r % 8;
    MulLe(r / 8, 15000, 8);
  }

  lemma AdvancePreservesValid(st: GuiState, defaultMaterial: Material)
    requires ValidGui(st) && Last(st).numIndexes > 0
    ensures ValidGui(Advance(st, defaultMaterial))
  {
    AlignUpBounded(st.numIndexes);
    var r := Advance(st, defaultMaterial);
    var n := |st.surfaces|;
    assert r.surfaces[n - 1] == Last(st);
    forall k | 0 <= k < |r.surfaces| - 1
      ensures r.surfaces[k].firstIndex + r.surfaces[k].numIndexes <= r.surfaces[k + 1].firstIndex
      ensures r.surfaces[k].numIndexes > 0 || k == n - 1
    {
      assert r.surfaces[k] == st.surfaces[k];
    }
  }

  /** A fresh frame's batch is valid: one empty surface at index 0. */
  lemma BeganFrameValid(defaultMaterial: Material)
    ensures ValidGui(BeganFrame(defaultMaterial))
    ensures |BeganFrame(defaultMaterial).surfaces| == 1
    ensures BeganFrame(defaultMaterial).numVerts == 0 && BeganFrame(defaultMaterial).numIndexes == 0
  {
    assert AlignUp(0, SURFACE_INDEX_ALIGN) == 0 by { DivModUnique(7, 8, 0, 7); }
  }

  /** AllocTris keeps the batch valid. */
  lemma AllocTrisPreservesValid(st: GuiState, vertCount: nat, indexCount: nat,
                                material: Option<Material>, glState: nat, defaultMaterial: Material)
    requires ValidGui(st)
    ensures var r := AllocTrisState(st, vertCount, indexCount, material, glState, defaultMaterial);
      r.Some? ==> ValidGui(r.value.state)
  {
    var r := AllocTrisState(st, vertCount, indexCount, material, glState, defaultMaterial);
    if r.Some? {
      var m := material.value;
      var st1 := if StartsNewSurface(st, m, glState) then Advance(st, defaultMaterial) else st;
      if StartsNewSurface(st, m, glState) {
        AdvancePreservesValid(st, defaultMaterial);
        assert Last(st).numIndexes > 0;
      }
      assert ValidGui(st1);
      var s1 := st1.surfaces;
      var s2 := r.value.state.surfaces;
      var n := |s1|;
      assert |s2| == n;
      forall k | 0 <= k < n - 1
        ensures s2[k] == s1[k]
      {
      }
      assert s2[n - 1].firstIndex == s1[n - 1].firstIndex;
    }
  }

  /** A surface list from which empty surfaces are dropped (EmitSurfaces links only the others). */
  function NonEmptySurfaces(s: seq<GuiSurface>): (r: seq<GuiSurface>)
    ensures |r| <= |s|
  {
    if s == [] then []
    else (if s[0].numIndexes > 0 then [s[0]] else []) + NonEmptySurfaces(s[1..])
  }

  /** Exactly the surfaces with indexes are kept. */
  lemma {:induction false} NonEmptySurfacesMembers(s: seq<GuiSurface>, x: GuiSurface)
    ensures x in NonEmptySurfaces(s) <==> x in s && x.numIndexes > 0
  {
    if s != [] {
      NonEmptySurfacesMembers(s[1..], x);
      assert s == [s[0]] + s[1..];
    }
  }

  lemma NonEmptySurfacesSnoc(s: seq<GuiSurface>, x: GuiSurface)
    ensures NonEmptySurfaces(s + [x]) == NonEmptySurfaces(s) + (if x.numIndexes > 0 then [x] else [])
  {
    if s != [] {
      assert (s + [x])[1..] == s[1..] + [x];
      NonEmptySurfacesSnoc(s[1..], x);
    } else {
      assert [x][1..] == [];
    }
  }

  /**
   * EmitFullScreen's early exit: in a valid batch an empty first surface is
   * the only surface, so returning NULL for it drops no indexes.
   */
  lemma EmptyFirstSurfaceMeansNothingToDraw(st: GuiState)
    requires ValidGui(st) && st.surfaces[0].numIndexes == 0
    ensures |st.surfaces| == 1 && NonEmptySurfaces(st.surfaces) == [] && st.numIndexes == st.surfaces[0].firstIndex
  {
  }

  /** The 2D view EmitFullScreen builds. */
  datatype GuiView = GuiView(viewport: RenderSystem.ScreenRect, scissor: RenderSystem.ScreenRect,
                             maxDrawSurfs: nat, drawSurfs: seq<GuiSurface>)

  class GuiModel {
    var surfaces: seq<GuiSurface>
    var numVerts: nat
    var numIndexes: nat
    /** The frame's index block (m_indexPointer), MAX_INDEXES entries. */
    const indexPointer: array<int>
    /** tr.defaultMaterial. */
    const defaultMaterial: Material

    function State(): GuiState
      reads this
    {
      GuiState(surfaces, numVerts, numIndexes)
    }

    /** The constructor: no surface yet and both counters 0. */
    constructor (defaultMaterial: Material)
      ensures State() == GuiState([], 0, 0) && this.defaultMaterial == defaultMaterial
      ensures fresh(indexPointer) && indexPointer.Length == MAX_INDEXES
    {
      surfaces := [];
      numVerts := 0;
      numIndexes := 0;
      indexPointer := new int[MAX_INDEXES];
      this.defaultMaterial := defaultMaterial;
    }

    method AdvanceSurf()
      modifies this
      ensures State() == Advance(old(State()), defaultMaterial)
    {
      var n := AlignUp(numIndexes, SURFACE_INDEX_ALIGN);
      var s := if surfaces != []
        then GuiSurface(surfaces[|surfaces| - 1].material, surfaces[|surfaces| - 1].glState, n, 0)
        else GuiSurface(defaultMaterial, 0, n, 0);
      numIndexes := n;
      surfaces := surfaces + [s];
    }

    method Clear()
      modifies this
      ensures State() == Cleared(old(State()), defaultMaterial)
    {
      surfaces := [];
      AdvanceSurf();
    }

    method BeginFrame()
      modifies this
      ensures State() == BeganFrame(defaultMaterial)
    {
      numVerts := 0;
      numIndexes := 0;
      Clear();
    }

    /**
     * AllocTris: the state moves as AllocTrisState says; on success index i
     * of the block at startIndex is startVert + tempIndexes[i], nothing else
     * in the block changes, and the vertex slot startVert is returned.
     * Odd positions or counts are written one index at a time, the rest in
     * pairs.
     */
    method AllocTris(vertCount: nat, tempIndexes: seq<int>, indexCount: nat,
                     material: Option<Material>, glState: nat) returns (r: Option<nat>)
      requires surfaces != [] && indexCount <= |tempIndexes| && indexPointer.Length == MAX_INDEXES
      modifies this, indexPointer
      ensures match AllocTrisState(old(State()), vertCount, indexCount, material, glState, defaultMaterial)
        case None => r.None? && State() == old(State()) && indexPointer[..] == old(indexPointer[..])
        case Some(a) =>
          r == Some(a.startVert) && State() == a.state &&
          (forall i :: 0 <= i < indexCount ==> indexPointer[a.startIndex + i] == a.startVert + tempIndexes[i]) &&
          (forall j :: 0 <= j < indexPointer.Length && !(a.startIndex <= j < a.startIndex + indexCount) ==>
             indexPointer[j] == old(indexPointer[j]))
    {
      ghost var expected := AllocTrisState(State(), vertCount, indexCount, material, glState, defaultMaterial);
      if material.None? {
        return None;
      }
      var m := material.value;
      var last := surfaces[|surfaces| - 1];
      var advances := (m != last.material || glState != last.glState) && last.numIndexes != 0;
      var start := if advances then AlignUp(numIndexes, SURFACE_INDEX_ALIGN) else numIndexes;
      assert start == StartIndex(State(), m, glState);
      if start + indexCount > MAX_INDEXES {
        return None;
      }
      if numVerts + vertCount > MAX_VERTS {
        return None;
      }
      ghost var st0 := State();
      if m != last.material || glState != last.glState {
        if last.numIndexes != 0 {
          AdvanceSurf();
        }
        surfaces := surfaces[|surfaces| - 1 := surfaces[|surfaces| - 1].(material := m, glState := glState)];
      }
      var startVert := numVerts;
      var startIndex := numIndexes;
      assert startIndex == start;
      numVerts := numVerts + vertCount;
      numIndexes := numIndexes + indexCount;
      var cur := surfaces[|surfaces| - 1];
      surfaces := surfaces[|surfaces| - 1 := cur.(numIndexes := cur.numIndexes + indexCount)];
      assert State() == expected.value.state;

      WriteIndexes(startIndex, startVert, tempIndexes, indexCount);
      r := Some(startVert);
    }

    /**
     * The index copy of AllocTris: entry startIndex + i becomes
     * startVert + tempIndexes[i], one at a time when the position or the
     * count is odd, else in pairs; nothing else in the block changes.
     */
    method WriteIndexes(startIndex: nat, startVert: nat, tempIndexes: seq<int>, indexCount: nat)
      requires indexCount <= |tempIndexes| && startIndex + indexCount <= indexPointer.Length
      modifies indexPointer
      ensures forall i :: 0 <= i < indexCount ==> indexPointer[startIndex + i] == startVert + tempIndexes[i]
      ensures forall j :: 0 <= j < indexPointer.Length && !(startIndex <= j < startIndex + indexCount) ==>
        indexPointer[j] == old(indexPointer[j])
    {
      if startIndex % 2 == 1 || indexCount % 2 == 1 {
        var i := 0;
        while i < indexCount
          invariant i <= indexCount
          invariant forall k :: 0 <= k < i ==> indexPointer[startIndex + k] == startVert + tempIndexes[k]
          invariant forall j :: 0 <= j < indexPointer.Length && !(startIndex <= j < startIndex + i) ==>
            indexPointer[j] == old(indexPointer[j])
        {
          indexPointer[startIndex + i] := startVert + tempIndexes[i];
          i := i + 1;
        }
      } else {
        var i := 0;
        while i < indexCount
          invariant i <= indexCount && i % 2 == 0
          invariant forall k :: 0 <= k < i ==> indexPointer[startIndex + k] == startVert + tempIndexes[k]
          invariant forall j :: 0 <= j < indexPointer.Length && !(startIndex <= j < startIndex + i) ==>
            indexPointer[j] == old(indexPointer[j])
        {
          indexPointer[startIndex + i] := startVert + tempIndexes[i];
          indexPointer[startIndex + i + 1] := startVert + tempIndexes[i + 1];
          i := i + 2;
        }
      }
    }

    /** EmitSurfaces' loop: every surface with indexes is linked, in order; empty ones are skipped. */
    method EmitSurfaces() returns (emitted: seq<GuiSurface>)
      ensures emitted == NonEmptySurfaces(surfaces)
    {
      var s := surfaces;
      emitted := [];
      var i := 0;
      while i < |s|
        invariant i <= |s|
        invariant emitted == NonEmptySurfaces(s[..i])
      {
        NonEmptySurfacesSnoc(s[..i], s[i]);
        assert s[..i + 1] == s[..i] + [s[i]];
        if s[i].numIndexes != 0 {
          emitted := emitted + [s[i]];
        }
        i := i + 1;
      }
      assert s[..i] == s;
    }

    /**
     * EmitFullScreen: NULL (None) when the first surface is empty; otherwise
     * a 2D view over the cropped viewport whose scissor is the viewport
     * moved to the origin, sized for every surface, holding the non-empty
     * ones.
     */
    method EmitFullScreen(viewport: RenderSystem.ScreenRect) returns (view: Option<GuiView>)
      requires surfaces != []
      ensures view.None? <==> surfaces[0].numIndexes == 0
      ensures view.Some? ==> (view.value.viewport == viewport &&
                              view.value.scissor == RenderSystem.ScreenRect(0, 0, viewport.x2 - viewport.x1,
                                                                            viewport.y2 - viewport.y1) &&
                              RenderSystem.RectWidth(view.value.scissor) == RenderSystem.RectWidth(viewport) &&
                              RenderSystem.RectHeight(view.value.scissor) == RenderSystem.RectHeight(viewport) &&
                              view.value.maxDrawSurfs == |surfaces| &&
                              view.value.drawSurfs == NonEmptySurfaces(surfaces))
    {
      if surfaces[0].numIndexes == 0 {
        return None;
      }
      var scissor := RenderSystem.ScreenRect(0, 0, viewport.x2 - viewport.x1, viewport.y2 - viewport.y1);
      var drawSurfs := EmitSurfaces();
      view := Some(GuiView(viewport, scissor, |surfaces|, drawSurfs));
    }
  }
}
