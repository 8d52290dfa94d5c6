/**
 * The front end's subview generation (neo/renderer/tr_frontend_subview.cpp):
 * remote, mirror and x-ray views rendered into a material stage's image at
 * most once per frame, mirror views through subview-sorted surfaces, the
 * guard against recursing through a surface already seen through, and the
 * scan of a view's surfaces.  Camera placement, the precise per-triangle
 * cull and the screen-space crop are floating-point and arrive as inputs.
 */
module FrontendSubview {
  import opened Bits
  import RenderSystem

  type ScreenRect = RenderSystem.ScreenRect

  /** A draw surface's identity for the recursion guard: its geometry and its entity. */
  datatype SurfKey = SurfKey(geometry: nat, entity: nat)

  /**
   * The part of renderView_t a subview rewrites: the view id and the camera,
   * its origin and its axes.  Points and frames are floating-point geometry,
   * not part of this model, and stand here as opaque identifiers.
   */
  datatype RenderViewParms = RenderViewParms(viewID: int, vieworg: nat, viewaxis: nat)

  /** The fields of viewDef_t the subview code sets or reads. */
  datatype ViewDef = ViewDef(
    renderView: RenderViewParms,
    initialViewAreaOrigin: nat,
    isSubview: bool,
    isMirror: bool,
    isXraySubview: bool,
    numClipPlanes: nat,
    viewport: ScreenRect,
    scissor: ScreenRect,
    superView: Option<ViewDef>,
    subviewSurface: Option<SurfKey>)

  /** The dynamic image a texture stage is filled with. */
  datatype DynamicImage = NoDynamic | RemoteImage | MirrorImage | XrayImage

  /** The images a subview can render into. */
  datatype ImageRef = ScratchImage | ScratchImage2 | StageImage(id: nat)

  /** A material texture stage; the subview code stamps it in place. */
  class TextureStage {
    const dynamic: DynamicImage
    const width: int
    const height: int
    var dynamicFrameCount: int
    var image: Option<ImageRef>

    constructor(dynamic: DynamicImage, width: int, height: int, image: Option<ImageRef>)
      ensures this.dynamic == dynamic && this.width == width && this.height == height
      ensures this.image == image && dynamicFrameCount == 0
    {
      this.dynamic := dynamic;
      this.width := width;
      this.height := height;
      this.image := image;
      dynamicFrameCount := 0;
    }
  }

  /** The material of a draw surface, as far as subviews go. */
  datatype Material = Material(subviewSort: bool, hasSubview: bool, stages: seq<TextureStage>)

  /**
   * A draw surface: its identity, material, the entity's remote render view
   * if any, whether the precise cull rejects it, and its expanded screen
   * rectangle from the precise cull's bounds.
   */
  datatype DrawSurf = DrawSurf(key: SurfKey, material: Material, remoteRenderView: Option<RenderViewParms>,
                               preciseCulled: bool, screenRect: ScreenRect, mirror: MirrorPose)

  /**
   * What a mirror through the surface makes of the view the surface was
   * listed for: the camera reflected in the surface's global plane
   * (R_MirrorPoint, R_MirrorVector) and the global point 16 units in front
   * of the centre of the surface's bounds, where the area search starts.
   * The reflection is floating-point geometry, not part of this model, so
   * the draw surface carries its result.
   */
  datatype MirrorPose = MirrorPose(vieworg: nat, viewaxis: nat, areaOrigin: nat)

  /** A RenderView call: the view and the image it renders into, or none for the screen. */
  datatype RenderCall = RenderCall(parms: ViewDef, target: Option<ImageRef>)

  // ---------------------------------------------------------------------
  // Screen rectangles (idScreenRect is not part of this model)
  // ---------------------------------------------------------------------

  function Intersect(a: ScreenRect, b: ScreenRect): (r: ScreenRect)
    ensures r.x1 == Max(a.x1, b.x1) && r.y1 == Max(a.y1, b.y1)
    ensures r.x2 == Min(a.x2, b.x2) && r.y2 == Min(a.y2, b.y2)
  {
    RenderSystem.ScreenRect(Max(a.x1, b.x1), Max(a.y1, b.y1), Min(a.x2, b.x2), Min(a.y2, b.y2))
  }

  predicate IsEmpty(r: ScreenRect)
  {
    r.x1 > r.x2 || r.y1 > r.y2
  }

  /** The intersection holds exactly the pixels both rectangles hold. */
  lemma IntersectContains(a: ScreenRect, b: ScreenRect, x: int, y: int)
    ensures var r := Intersect(a, b);
      (r.x1 <= x <= r.x2 && r.y1 <= y <= r.y2) <==>
      (a.x1 <= x <= a.x2 && a.y1 <= y <= a.y2 && b.x1 <= x <= b.x2 && b.y1 <= y <= b.y2)
  {
  }

  // ---------------------------------------------------------------------
  // The views a subview starts from
  // ---------------------------------------------------------------------

  /** The viewport of a render-to-texture subview: the whole stage image. */
  function StageViewport(width: int, height: int): ScreenRect
  {
    RenderSystem.ScreenRect(0, 0, width - 1, height - 1)
  }

  /** A viewport's scissor: the same extent, at the origin. */
  function FullScissor(viewport: ScreenRect): ScreenRect
  {
    RenderSystem.ScreenRect(0, 0, viewport.x2 - viewport.x1, viewport.y2 - viewport.y1)
  }

  /** A stage subview's scissor is its viewport: it covers the whole image. */
  lemma StageScissorIsViewport(width: int, height: int)
    ensures FullScissor(StageViewport(width, height)) == StageViewport(width, height)
    ensures RenderSystem.RectWidth(StageViewport(width, height)) == width
    ensures RenderSystem.RectHeight(StageViewport(width, height)) == height
  {
  }

  /**
   * MirrorViewBySurface: the current view with the view id cleared, marked
   * a mirrored subview with exactly one clip plane, looking from the camera
   * mirrored in the surface and searching for its area from the point in
   * front of the surface; the rest copied.
   */
  function MirrorViewBySurface(view: ViewDef, surf: DrawSurf): (parms: ViewDef)
    ensures parms.renderView.viewID == 0 && parms.isSubview && parms.isMirror && parms.numClipPlanes == 1
    ensures parms.renderView.vieworg == surf.mirror.vieworg && parms.renderView.viewaxis == surf.mirror.viewaxis
    ensures parms.initialViewAreaOrigin == surf.mirror.areaOrigin
    ensures parms.isXraySubview == view.isXraySubview
    ensures parms.viewport == view.viewport && parms.scissor == view.scissor
    ensures parms.superView == view.superView && parms.subviewSurface == view.subviewSurface
  {
    view.(renderView := view.renderView.(viewID := 0, vieworg := surf.mirror.vieworg, viewaxis := surf.mirror.viewaxis),
          initialViewAreaOrigin := surf.mirror.areaOrigin, isSubview := true, isMirror := true, numClipPlanes := 1)
  }

  /** XrayViewBySurface: the current view with the view id cleared, marked an x-ray subview. */
  function XrayViewBySurface(view: ViewDef): (parms: ViewDef)
    ensures parms.renderView.viewID == 0 && parms.isSubview && parms.isXraySubview
    ensures parms.isMirror == view.isMirror && parms.numClipPlanes == view.numClipPlanes
  {
    view.(renderView := view.renderView.(viewID := 0), isSubview := true, isXraySubview := true)
  }

  /** Boolean exclusive or, as the int XOR of the two flags. */
  function Xor(a: bool, b: bool): bool { a != b }

  /** The view RemoteRender issues: the entity's camera, unmirrored, into the whole stage image. */
  function RemoteView(view: ViewDef, surf: DrawSurf, remote: RenderViewParms, width: int, height: int): ViewDef
  {
    var viewport := StageViewport(width, height);
    view.(renderView := remote.(viewID := 0), initialViewAreaOrigin := remote.vieworg, isSubview := true, isMirror := false,
          viewport := viewport, scissor := FullScissor(viewport),
          superView := Some(view), subviewSurface := Some(surf.key))
  }

  /** The view MirrorRender issues into the whole stage image. */
  function MirrorStageView(view: ViewDef, surf: DrawSurf, width: int, height: int): ViewDef
  {
    var parms := MirrorViewBySurface(view, surf);
    var viewport := StageViewport(width, height);
    parms.(viewport := viewport, scissor := FullScissor(viewport), superView := Some(view),
           subviewSurface := Some(surf.key), isMirror := Xor(parms.isMirror, view.isMirror))
  }

  /**
   * The view XrayRender issues, as written: the mirror flag, already copied
   * from the parent, is XORed with the parent's flag once more.
   */
  function XrayStageViewAsWritten(view: ViewDef, surf: DrawSurf, width: int, height: int): ViewDef
  {
    var parms := XrayViewBySurface(view);
    var viewport := StageViewport(width, height);
    parms.(viewport := viewport, scissor := FullScissor(viewport), superView := Some(view),
           subviewSurface := Some(surf.key), isMirror := Xor(parms.isMirror, view.isMirror))
  }

  /**
   * The view XrayRender issues into the whole stage image.  An x-ray view
   * looks through the parent's own camera, so it keeps the parent's
   * culling order.
   */
  function XrayStageView(view: ViewDef, surf: DrawSurf, width: int, height: int): ViewDef
  {
    var parms := XrayViewBySurface(view);
    var viewport := StageViewport(width, height);
    parms.(viewport := viewport, scissor := FullScissor(viewport), superView := Some(view),
           subviewSurface := Some(surf.key))
  }

  /**
   * As written, an x-ray view seen in a mirror is rendered unmirrored
   * although its camera is the mirrored parent's.
   */
  lemma XrayInMirrorAsWritten(view: ViewDef, surf: DrawSurf, width: int, height: int)
    requires view.isMirror
    ensures !XrayStageViewAsWritten(view, surf, width, height).isMirror
    ensures XrayStageView(view, surf, width, height).isMirror
  {
  }

  /** The mirror view through a subview-sorted surface, cropped to scissor. */
  function SurfaceMirrorView(view: ViewDef, surf: DrawSurf, scissor: ScreenRect): ViewDef
  {
    var parms := MirrorViewBySurface(view, surf);
    parms.(scissor := scissor, superView := Some(view), subviewSurface := Some(surf.key),
           isMirror := Xor(parms.isMirror, view.isMirror))
  }

  /**
   * Culling order of the subviews: a remote view is never mirrored; each
   * of the other views XORs the flag it starts from with the parent's, so
   * a mirror view is mirrored exactly when its parent is not, and two
   * mirrors restore the parent's culling order.  The x-ray view as written
   * starts from the parent's own flag and so is never mirrored; the
   * corrected x-ray view keeps its parent's order.
   */
  lemma SubviewMirroring(view: ViewDef, surf: DrawSurf, remote: RenderViewParms, width: int, height: int, scissor: ScreenRect)
    ensures !RemoteView(view, surf, remote, width, height).isMirror
    ensures XrayStageViewAsWritten(view, surf, width, height).isMirror == Xor(view.isMirror, view.isMirror)
    ensures !XrayStageViewAsWritten(view, surf, width, height).isMirror
    ensures XrayStageView(view, surf, width, height).isMirror == view.isMirror
    ensures XrayStageView(view, surf, width, height).renderView.vieworg == view.renderView.vieworg
    ensures XrayStageView(view, surf, width, height).renderView.viewaxis == view.renderView.viewaxis
    ensures MirrorStageView(view, surf, width, height).isMirror == !view.isMirror
    ensures SurfaceMirrorView(view, surf, scissor).isMirror == !view.isMirror
    ensures SurfaceMirrorView(SurfaceMirrorView(view, surf, scissor), surf, scissor).isMirror == view.isMirror
  {
  }

  /**
   * Where each subview looks from: a remote view from the entity's camera,
   * with its area found from that camera's origin; a mirror view from the
   * camera mirrored in the surface, with its area found from the point in
   * front of the surface; an x-ray view from the parent's own camera.
   */
  lemma SubviewCameras(view: ViewDef, surf: DrawSurf, remote: RenderViewParms, width: int, height: int, scissor: ScreenRect)
    ensures RemoteView(view, surf, remote, width, height).renderView == remote.(viewID := 0)
    ensures RemoteView(view, surf, remote, width, height).initialViewAreaOrigin == remote.vieworg
    ensures forall v :: v in [MirrorStageView(view, surf, width, height), SurfaceMirrorView(view, surf, scissor)] ==>
      v.renderView == RenderViewParms(0, surf.mirror.vieworg, surf.mirror.viewaxis) &&
      v.initialViewAreaOrigin == surf.mirror.areaOrigin
    ensures XrayStageView(view, surf, width, height).renderView == view.renderView.(viewID := 0)
    ensures XrayStageView(view, surf, width, height).initialViewAreaOrigin == view.initialViewAreaOrigin
  {
  }

  /** Every subview is a subview of the current view, with the view id cleared and the surface recorded. */
  lemma SubviewLinks(view: ViewDef, surf: DrawSurf, remote: RenderViewParms, width: int, height: int, scissor: ScreenRect)
    ensures forall v :: v in [RemoteView(view, surf, remote, width, height), MirrorStageView(view, surf, width, height),
                              XrayStageView(view, surf, width, height), SurfaceMirrorView(view, surf, scissor)] ==>
      v.isSubview && v.renderView.viewID == 0 && v.superView == Some(view) && v.subviewSurface == Some(surf.key)
    ensures forall v :: v in [RemoteView(view, surf, remote, width, height), MirrorStageView(view, surf, width, height),
                              XrayStageView(view, surf, width, height)] ==>
      v.viewport == StageViewport(width, height) && v.scissor == StageViewport(width, height)
  {
  }

  // ---------------------------------------------------------------------
  // The recursion guard
  // ---------------------------------------------------------------------

  /** view or one of its super views was generated through surface s. */
  predicate SeenThrough(view: ViewDef, s: SurfKey)
    decreases view
  {
    view.subviewSurface == Some(s) || (view.superView.Some? && SeenThrough(view.superView.value, s))
  }

  /** A subview of a view seen through s is still seen through s. */
  lemma SeenThroughInherited(view: ViewDef, surf: DrawSurf, scissor: ScreenRect, s: SurfKey)
    requires SeenThrough(view, s)
    ensures SeenThrough(SurfaceMirrorView(view, surf, scissor), s)
  {
  }

  /** Whether GenerateSurfaceSubview produces a subview for surf from view. */
  predicate WouldGenerate(view: ViewDef, surf: DrawSurf, skipSubviews: bool)
  {
    !skipSubviews && !surf.preciseCulled && !SeenThrough(view, surf.key)
      && !IsEmpty(Intersect(surf.screenRect, view.scissor))
  }

  /**
   * The guard stops recursion: from the mirror view through surf, the same
   * surface never yields another subview, however deep the chain.
   */
  lemma NoRecursionThroughSameSurface(view: ViewDef, surf: DrawSurf, scissor: ScreenRect, skipSubviews: bool)
    ensures !WouldGenerate(SurfaceMirrorView(view, surf, scissor), surf, skipSubviews)
  {
  }

  /** A surface cropped out of the view's scissor yields nothing. */
  lemma CroppedOutYieldsNothing(view: ViewDef, surf: DrawSurf, skipSubviews: bool)
    requires surf.screenRect.x2 < view.scissor.x1 || view.scissor.x2 < surf.screenRect.x1
    ensures !WouldGenerate(view, surf, skipSubviews)
  {
  }

  /** The stages of a surface's material, as a set of objects. */
  function StageSet(surf: DrawSurf): set<TextureStage>
  {
    set i | 0 <= i < |surf.material.stages| :: surf.material.stages[i]
  }

  /** The stages of all the surfaces. */
  function AllStages(surfs: seq<DrawSurf>): set<TextureStage>
  {
    set i, j | 0 <= i < |surfs| && 0 <= j < |surfs[i].material.stages| :: surfs[i].material.stages[j]
  }

  /** A stage whose dynamic image was brought up to date this frame. */
  predicate StageDone(stage: TextureStage, surf: DrawSurf, frameCount: int)
    reads stage
  {
    match stage.dynamic
    case NoDynamic => true
    case RemoteImage => surf.remoteRenderView.None? || stage.dynamicFrameCount == frameCount
    case MirrorImage => stage.dynamicFrameCount == frameCount
    case XrayImage => stage.dynamicFrameCount == frameCount
  }

  /**
   * The subview side of idRenderSystemLocal for one frame: the frame count,
   * r_skipSubviews, the current view, and the RenderView calls issued.
   */
  class SubviewFrontend {
    const frameCount: int
    const skipSubviews: bool
    const viewDef: ViewDef
    var rendered: seq<RenderCall>

    constructor(frameCount: int, skipSubviews: bool, viewDef: ViewDef)
      ensures this.frameCount == frameCount && this.skipSubviews == skipSubviews && this.viewDef == viewDef
      ensures rendered == []
    {
      this.frameCount := frameCount;
      this.skipSubviews := skipSubviews;
      this.viewDef := viewDef;
      rendered := [];
    }

    /**
     * RemoteRender: nothing if the stage was rendered this frame or the
     * entity has no remote view; otherwise render the entity's camera into
     * the stage image (the scratch image if it has none) and stamp the stage.
     */
    method RemoteRender(surf: DrawSurf, stage: TextureStage)
      modifies this, stage
      ensures old(stage.dynamicFrameCount) == frameCount || surf.remoteRenderView.None? ==>
        rendered == old(rendered) && unchanged(stage)
      ensures old(stage.dynamicFrameCount) != frameCount && surf.remoteRenderView.Some? ==>
        stage.dynamicFrameCount == frameCount &&
        stage.image == (if old(stage.image).None? then Some(ScratchImage) else old(stage.image)) &&
        rendered == old(rendered) +
          [RenderCall(RemoteView(viewDef, surf, surf.remoteRenderView.value, stage.width, stage.height), stage.image)]
    {
      if stage.dynamicFrameCount == frameCount {
        return;
      }
      if surf.remoteRenderView.None? {
        return;
      }
      var parms := RemoteView(viewDef, surf, surf.remoteRenderView.value, stage.width, stage.height);
      if stage.image.None? {
        stage.image := Some(ScratchImage);
      }
      rendered := rendered + [RenderCall(parms, stage.image)];
      stage.dynamicFrameCount := frameCount;
    }

    /**
     * MirrorRender: nothing if the stage was rendered this frame; otherwise
     * render the mirror view into the scratch image and stamp the stage.
     */
    method MirrorRender(surf: DrawSurf, stage: TextureStage)
      modifies this, stage
      ensures old(stage.dynamicFrameCount) == frameCount ==> rendered == old(rendered) && unchanged(stage)
      ensures old(stage.dynamicFrameCount) != frameCount ==>
        stage.dynamicFrameCount == frameCount && stage.image == Some(ScratchImage) &&
        rendered == old(rendered) + [RenderCall(MirrorStageView(viewDef, surf, stage.width, stage.height), Some(ScratchImage))]
    {
      if stage.dynamicFrameCount == frameCount {
        return;
      }
      var parms := MirrorStageView(viewDef, surf, stage.width, stage.height);
      stage.image := Some(ScratchImage);
      rendered := rendered + [RenderCall(parms, stage.image)];
      stage.dynamicFrameCount := frameCount;
    }

    /**
     * XrayRender: nothing if the stage was rendered this frame; otherwise
     * render the x-ray view into the second scratch image and stamp the stage.
     */
    method XrayRender(surf: DrawSurf, stage: TextureStage)
      modifies this, stage
      ensures old(stage.dynamicFrameCount) == frameCount ==> rendered == old(rendered) && unchanged(stage)
      ensures old(stage.dynamicFrameCount) != frameCount ==>
        stage.dynamicFrameCount == frameCount && stage.image == Some(ScratchImage2) &&
        rendered == old(rendered) + [RenderCall(XrayStageView(viewDef, surf, stage.width, stage.height), Some(ScratchImage2))]
    {
      if stage.dynamicFrameCount == frameCount {
        return;
      }
      var parms := XrayStageView(viewDef, surf, stage.width, stage.height);
      stage.image := Some(ScratchImage2);
      rendered := rendered + [RenderCall(parms, stage.image)];
      stage.dynamicFrameCount := frameCount;
    }

    /**
     * GenerateSurfaceSubview: false when subviews are skipped, the surface
     * is culled, the view chain already looks through it, or its crop is
     * empty; otherwise true, having rendered each dynamic stage of a
     * non-subview material, or the cropped mirror view of a subview one.
     */
    method GenerateSurfaceSubview(surf: DrawSurf) returns (generated: bool)
      modifies this, StageSet(surf)
      ensures generated == WouldGenerate(viewDef, surf, skipSubviews)
      ensures !generated ==> rendered == old(rendered)
      ensures old(rendered) <= rendered
      ensures generated && surf.material.subviewSort ==>
        rendered == old(rendered) + [RenderCall(SurfaceMirrorView(viewDef, surf, Intersect(surf.screenRect, viewDef.scissor)), None)]
      ensures generated && !surf.material.subviewSort ==>
        forall i :: 0 <= i < |surf.material.stages| ==> StageDone(surf.material.stages[i], surf, frameCount)
    {
      if skipSubviews {
        return false;
      }
      if surf.preciseCulled {
        return false;
      }
      var parms := Some(viewDef);
      while parms.Some? && parms.value.subviewSurface != Some(surf.key)
        invariant SeenThrough(viewDef, surf.key) <==> parms.Some? && SeenThrough(parms.value, surf.key)
        decreases parms
      {
        parms := parms.value.superView;
      }
      if parms.Some? {
        return false;
      }
      var scissor := Intersect(surf.screenRect, viewDef.scissor);
      if IsEmpty(scissor) {
        return false;
      }
      if !surf.material.subviewSort {
        var stages := surf.material.stages;
        var i := 0;
        while i < |stages|
          invariant 0 <= i <= |stages|
          invariant old(rendered) <= rendered
          invariant forall k :: 0 <= k < i ==> StageDone(stages[k], surf, frameCount)
        {
          var stage := stages[i];
          match stage.dynamic {
            case RemoteImage => RemoteRender(surf, stage);
            case MirrorImage => MirrorRender(surf, stage);
            case XrayImage => XrayRender(surf, stage);
            case NoDynamic =>
          }
          i := i + 1;
        }
        return true;
      }
      var mirror := SurfaceMirrorView(viewDef, surf, scissor);
      rendered := rendered + [RenderCall(mirror, None)];
      return true;
    }

    /**
     * GenerateSubViews: false when subviews are skipped; otherwise every
     * surface whose material has a subview is tried, and the result is
     * whether any of them produced one.
     */
    method GenerateSubViews(drawSurfs: seq<DrawSurf>) returns (subviews: bool)
      modifies this, AllStages(drawSurfs)
      ensures skipSubviews ==> !subviews && rendered == old(rendered)
      ensures subviews <==> exists i :: 0 <= i < |drawSurfs| && drawSurfs[i].material.hasSubview &&
                                      WouldGenerate(viewDef, drawSurfs[i], skipSubviews)
      ensures old(rendered) <= rendered
    {
      if skipSubviews {
        return false;
      }
      subviews := false;
      var i := 0;
      while i < |drawSurfs|
        invariant 0 <= i <= |drawSurfs|
        invariant old(rendered) <= rendered
        invariant subviews <==> exists k :: 0 <= k < i && drawSurfs[k].material.hasSubview &&
                                          WouldGenerate(viewDef, drawSurfs[k], skipSubviews)
      {
        var drawSurf := drawSurfs[i];
        if drawSurf.material.hasSubview {
          assert StageSet(drawSurf) <= AllStages(drawSurfs);
          var made := GenerateSurfaceSubview(drawSurf);
          if made {
            subviews := true;
          }
        }
        i := i + 1;
      }
    }
  }
}
