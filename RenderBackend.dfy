/**
 * The API-neutral back end (neo/renderer/RenderBackend.cpp): the display
 * mode list and the window parameters chosen from it, the depth prepass's
 * split of the sorted surfaces, the point where the ambient passes stop for
 * post-process surfaces, and the S-Cull tile rounding of a light's scissor.
 *
 * What the window system reports (display devices, their monitors, their
 * settings) is an input; the material tests a pass makes (sort class,
 * coverage, ambient stages) are flags on the surface.
 */
module RenderBackend {
  import opened Bits
  import RenderSystem

  // ---------------------------------------------------------------------
  // Display modes
  // ---------------------------------------------------------------------

  /** One display setting as the window system enumerates it. */
  datatype DevMode = DevMode(bitsPerPel: int, width: int, height: int, frequency: int)

  /** A mode the renderer offers. */
  datatype VidMode = VidMode(width: int, height: int, displayHz: int)

  /** A display device: attached to the desktop, with a monitor, and its settings. */
  datatype Display = Display(attached: bool, hasMonitor: bool, settings: seq<DevMode>)

  /** Only 32-bit modes at 60 or 120 Hz and at least 720 lines are offered. */
  predicate Eligible(d: DevMode)
  {
    d.bitsPerPel == 32 && (d.frequency == 60 || d.frequency == 120) && d.height >= 720
  }

  function ModeOf(d: DevMode): VidMode
  {
    VidMode(d.width, d.height, d.frequency)
  }

  /** The modes a display offers. */
  predicate Offers(d: Display, m: VidMode)
  {
    d.attached && d.hasMonitor && exists s :: s in d.settings && Eligible(s) && ModeOf(s) == m
  }

  /** Whether a display yields at least one mode. */
  predicate Yields(d: Display)
  {
    d.attached && d.hasMonitor && exists s :: s in d.settings && Eligible(s)
  }

  /** The sort order: height first, then width, then refresh rate. */
  predicate ModeLess(a: VidMode, b: VidMode)
  {
    a.height < b.height ||
    (a.height == b.height && (a.width < b.width || (a.width == b.width && a.displayHz < b.displayHz)))
  }

  /** ModeLess is a strict total order on modes. */
  lemma ModeLessTotal(a: VidMode, b: VidMode)
    ensures !(ModeLess(a, b) && ModeLess(b, a))
    ensures a != b ==> ModeLess(a, b) || ModeLess(b, a)
  {
  }

  predicate StrictlySorted(ms: seq<VidMode>)
  {
    forall i, j :: 0 <= i < j < |ms| ==> ModeLess(ms[i], ms[j])
  }

  /** The first display from index d on that yields modes. */
  function FirstYielding(displays: seq<Display>, d: nat): (r: Option<nat>)
    ensures r.Some? ==> d <= r.value < |displays| && Yields(displays[r.value])
    ensures r.Some? ==> forall k :: d <= k < r.value ==> !Yields(displays[k])
    ensures r.None? ==> forall k :: d <= k < |displays| ==> !Yields(displays[k])
    decreases |displays| - d
  {
    if d >= |displays| then None
    else if Yields(displays[d]) then Some(d)
    else FirstYielding(displays, d + 1)
  }

  /** The modes the settings offer, each once (AddUnique), in first-seen order. */
  method CollectModes(settings: seq<DevMode>) returns (list: seq<VidMode>)
    ensures forall m :: m in list <==> exists s :: s in settings && Eligible(s) && ModeOf(s) == m
    ensures forall s :: s in settings && Eligible(s) ==> ModeOf(s) in list
    ensures forall i, j :: 0 <= i < j < |list| ==> list[i] != list[j]
  {
    list := [];
    var modeNum := 0;
    while modeNum < |settings|
      invariant 0 <= modeNum <= |settings|
      invariant forall m :: m in list <==> exists s :: s in settings[..modeNum] && Eligible(s) && ModeOf(s) == m
      invariant forall i, j :: 0 <= i < j < |list| ==> list[i] != list[j]
    {
      var d := settings[modeNum];
      assert settings[..modeNum + 1] == settings[..modeNum] + [d];
      if Eligible(d) && ModeOf(d) !in list {
        list := list + [ModeOf(d)];
      }
      modeNum := modeNum + 1;
    }
    assert settings[..modeNum] == settings;
  }

  /** m inserted into a sorted list at its place. */
  function Insert(sorted: seq<VidMode>, m: VidMode): (r: seq<VidMode>)
    ensures multiset(r) == multiset(sorted) + multiset{m}
    ensures |r| == |sorted| + 1
  {
    if |sorted| == 0 || !ModeLess(sorted[0], m) then [m] + sorted
    else
      assert sorted == [sorted[0]] + sorted[1..];
      [sorted[0]] + Insert(sorted[1..], m)
  }

  /** Inserting a mode not yet present keeps the list strictly sorted. */
  lemma {:induction false} InsertSorted(sorted: seq<VidMode>, m: VidMode)
    requires StrictlySorted(sorted)
    requires m !in sorted
    ensures StrictlySorted(Insert(sorted, m))
  {
    if |sorted| == 0 || !ModeLess(sorted[0], m) {
      if |sorted| > 0 {
        ModeLessTotal(sorted[0], m);
      }
    } else {
      var rest := Insert(sorted[1..], m);
      InsertSorted(sorted[1..], m);
      assert forall x :: x in rest ==> x in sorted[1..] || x == m by {
        forall x | x in rest
          ensures x in sorted[1..] || x == m
        {
          assert x in multiset(rest);
        }
      }
      forall j | 0 < j < |rest| + 1
        ensures ModeLess(sorted[0], ([sorted[0]] + rest)[j])
      {
        assert ([sorted[0]] + rest)[j] == rest[j - 1];
        assert rest[j - 1] in rest;
      }
    }
  }

  /** The lowest-resolution-first sort of a list of distinct modes. */
  method SortModes(list: seq<VidMode>) returns (sorted: seq<VidMode>)
    requires forall i, j :: 0 <= i < j < |list| ==> list[i] != list[j]
    ensures multiset(sorted) == multiset(list)
    ensures StrictlySorted(sorted)
  {
    sorted := [];
    var i := 0;
    while i < |list|
      invariant 0 <= i <= |list|
      invariant multiset(sorted) == multiset(list[..i])
      invariant StrictlySorted(sorted)
    {
      assert list[..i + 1] == list[..i] + [list[i]];
      assert list[i] !in list[..i];
      assert list[i] !in sorted by {
        assert list[i] !in multiset(list[..i]);
      }
      InsertSorted(sorted, list[i]);
      sorted := Insert(sorted, list[i]);
      i := i + 1;
    }
    assert list[..i] == list;
  }

  /**
   * R_GetModeListForDisplay: scan the displays from the requested one
   * (enumeration ends past the last; a negative number names no display),
   * skipping those not on the desktop or without a monitor, and return the
   * first one's eligible modes, sorted; false and an empty list when none
   * yields a mode.
   */
  method GetModeListForDisplay(requested: int, displays: seq<Display>) returns (ok: bool, modeList: seq<VidMode>)
    ensures requested < 0 ==> !ok
    ensures requested >= 0 ==> (ok <==> FirstYielding(displays, requested).Some?)
    ensures !ok ==> modeList == []
    ensures ok ==> (requested >= 0 && FirstYielding(displays, requested).Some? &&
      (forall m :: m in modeList <==> Offers(displays[FirstYielding(displays, requested).value], m)))
    ensures ok ==> |modeList| > 0 && StrictlySorted(modeList)
  {
    modeList := [];
    if requested < 0 {
      return false, [];
    }
    var displayNum: nat := requested;
    while displayNum < |displays|
      invariant requested <= displayNum
      invariant FirstYielding(displays, requested) == FirstYielding(displays, displayNum)
      invariant modeList == []
      decreases |displays| - displayNum
    {
      var device := displays[displayNum];
      if device.attached && device.hasMonitor {
        var list := CollectModes(device.settings);
        if |list| > 0 {
          assert list[0] in list;
          assert Yields(device);
          assert FirstYielding(displays, displayNum) == Some(displayNum);
          modeList := SortModes(list);
          assert forall m :: m in modeList <==> m in multiset(list);
          forall m
            ensures m in modeList <==> Offers(device, m)
          {
            assert m in modeList <==> m in list;
          }
          return true, modeList;
        }
        assert !Yields(device);
      }
      displayNum := displayNum + 1;
    }
    return false, [];
  }

  // ---------------------------------------------------------------------
  // Window parameters
  // ---------------------------------------------------------------------

  /** The console variables R_GetModeParms reads. */
  datatype ModeCVars = ModeCVars(
    fullscreen: int, vidMode: int,
    windowX: int, windowY: int, windowWidth: int, windowHeight: int,
    customWidth: int, customHeight: int, displayRefresh: int, multiSamples: int)

  /** The parameters the window is created with. */
  datatype ModeParms = ModeParms(
    x: int, y: int, width: int, height: int, fullScreen: int, displayHz: int, multiSamples: int)

  /** The parameters, with r_fullscreen and r_vidMode as R_GetModeParms leaves them; or the fatal "No modes available." */
  datatype ModeOutcome =
    | Parms(parms: ModeParms, fullscreen: int, vidMode: int)
    | NoModes

  /**
   * r_vidMode after the range check as written: it is reset to 0 only when
   * it exceeds the number of modes.
   */
  function VidModeAsWritten(vidMode: int, num: nat): int
  {
    if vidMode > num then 0 else vidMode
  }

  /** With vidMode equal to the number of modes the bound test lets an index one past the end through. */
  lemma VidModeAsWrittenOverruns(num: nat)
    ensures VidModeAsWritten(num, num) == num
    ensures !(VidModeAsWritten(num, num) < num)
  {
  }

  /** r_vidMode after the intended check: reset to 0 unless it indexes the list. */
  function VidModeChecked(vidMode: int, num: nat): (r: int)
    requires vidMode >= 0
    ensures num > 0 ==> 0 <= r < num
    ensures vidMode < num ==> r == vidMode
    ensures vidMode >= num ==> r == 0
  {
    if vidMode >= num then 0 else vidMode
  }

  /**
   * R_GetModeParms.  r_fullscreen <= 0 gives a window at the window
   * variables' position and size.  Otherwise the mode list of display
   * r_fullscreen - 1 is fetched (on failure r_fullscreen becomes 1 and the
   * first display is tried); no modes is fatal.  A negative r_vidMode asks
   * for the custom size, any other picks that entry of the sorted list
   * (with the corrected range check).
   */
  method GetModeParms(cv: ModeCVars, displays: seq<Display>) returns (outcome: ModeOutcome, modeList: seq<VidMode>)
    ensures cv.fullscreen <= 0 ==> outcome == Parms(
      ModeParms(cv.windowX, cv.windowY, cv.windowWidth, cv.windowHeight, cv.fullscreen, 0, cv.multiSamples),
      cv.fullscreen, cv.vidMode)
    ensures cv.fullscreen > 0 ==>
      (outcome.NoModes? <==>
        FirstYielding(displays, cv.fullscreen - 1).None? && FirstYielding(displays, 0).None?)
    ensures outcome.Parms? && cv.fullscreen > 0 ==>
      StrictlySorted(modeList) &&
      outcome.fullscreen == (if FirstYielding(displays, cv.fullscreen - 1).Some? then cv.fullscreen else 1) &&
      (forall m :: m in modeList <==>
        Offers(displays[FirstYielding(displays, outcome.fullscreen - 1).value], m)) &&
      outcome.parms.fullScreen == outcome.fullscreen && outcome.parms.multiSamples == cv.multiSamples
    ensures outcome.Parms? && cv.fullscreen > 0 && cv.vidMode < 0 ==>
      outcome.vidMode == cv.vidMode &&
      outcome.parms == ModeParms(0, 0, cv.customWidth, cv.customHeight, outcome.fullscreen, cv.displayRefresh, cv.multiSamples)
    ensures outcome.Parms? && cv.fullscreen > 0 && cv.vidMode >= 0 ==>
      outcome.vidMode == VidModeChecked(cv.vidMode, |modeList|) &&
      0 <= outcome.vidMode < |modeList| &&
      VidMode(outcome.parms.width, outcome.parms.height, outcome.parms.displayHz) == modeList[outcome.vidMode]
  {
    if cv.fullscreen <= 0 {
      outcome := Parms(
        ModeParms(cv.windowX, cv.windowY, cv.windowWidth, cv.windowHeight, cv.fullscreen, 0, cv.multiSamples),
        cv.fullscreen, cv.vidMode);
      return outcome, [];
    }
    var fullscreen := cv.fullscreen;
    var ok;
    ok, modeList := GetModeListForDisplay(fullscreen - 1, displays);
    if !ok {
      fullscreen := 1;
      ok, modeList := GetModeListForDisplay(fullscreen - 1, displays);
    }
    if |modeList| < 1 {
      return NoModes, modeList;
    }
    if cv.vidMode < 0 {
      outcome := Parms(ModeParms(0, 0, cv.customWidth, cv.customHeight, fullscreen, cv.displayRefresh, cv.multiSamples),
        fullscreen, cv.vidMode);
    } else {
      var vidMode := VidModeChecked(cv.vidMode, |modeList|);
      var m := modeList[vidMode];
      outcome := Parms(ModeParms(0, 0, m.width, m.height, fullscreen, m.displayHz, cv.multiSamples), fullscreen, vidMode);
    }
  }

  // ---------------------------------------------------------------------
  // Depth prepass
  // ---------------------------------------------------------------------

  /** How a material covers the depth buffer. */
  datatype Coverage = MC_BAD | MC_OPAQUE | MC_PERFORATED | MC_TRANSLUCENT

  /** What the prepass needs of a sorted surface: whether its sort is SS_SUBVIEW, its coverage, whether it is skinned. */
  datatype DepthSurf = DepthSurf(subviewSort: bool, coverage: Coverage, skinned: bool)

  datatype DepthProgram = BUILTIN_DEPTH | BUILTIN_DEPTH_SKINNED

  /** A pass of the prepass: the general path over some surfaces, or the fast solid path for one. */
  datatype DepthPass =
    | GenericPass(surfaces: seq<nat>)
    | SolidPass(surface: nat, program: DepthProgram)

  /** Past the subviews, opaque surfaces take the fast path and perforated ones are deferred. */
  predicate IsSolid(s: DepthSurf) { s.coverage != MC_TRANSLUCENT && s.coverage != MC_PERFORATED }
  predicate IsPerforated(s: DepthSurf) { s.coverage == MC_PERFORATED }

  /** The number of leading surfaces whose sort is SS_SUBVIEW, counting from i. */
  function LeadingSubviews(surfs: seq<DepthSurf>, i: nat): (r: nat)
    requires i <= |surfs|
    ensures i <= r <= |surfs|
    ensures forall k :: i <= k < r ==> surfs[k].subviewSort
    ensures r < |surfs| ==> !surfs[r].subviewSort
    decreases |surfs| - i
  {
    if i == |surfs| || !surfs[i].subviewSort then i else LeadingSubviews(surfs, i + 1)
  }

  /** The indices in [lo, hi) of solid (solid == true) or perforated surfaces, ascending. */
  function Positions(surfs: seq<DepthSurf>, lo: nat, hi: nat, solid: bool): (r: seq<nat>)
    requires hi <= |surfs|
    ensures forall i :: 0 <= i < |r| ==> lo <= r[i] < hi
    decreases hi
  {
    if hi <= lo then []
    else
      var rest := Positions(surfs, lo, hi - 1, solid);
      var keep := if solid then IsSolid(surfs[hi - 1]) else IsPerforated(surfs[hi - 1]);
      rest + (if keep then [hi - 1] else [])
  }

  /** Positions lists exactly the matching surfaces of the range, in ascending order. */
  lemma PositionsExact(surfs: seq<DepthSurf>, lo: nat, hi: nat, solid: bool)
    requires hi <= |surfs|
    ensures var r := Positions(surfs, lo, hi, solid);
      forall k :: k in r <==> lo <= k < hi && (if solid then IsSolid(surfs[k]) else IsPerforated(surfs[k]))
    ensures var r := Positions(surfs, lo, hi, solid);
      forall i, j :: 0 <= i < j < |r| ==> r[i] < r[j]
  {
    PositionsMembers(surfs, lo, hi, solid);
    PositionsAscending(surfs, lo, hi, solid);
  }

  lemma {:induction false} PositionsMembers(surfs: seq<DepthSurf>, lo: nat, hi: nat, solid: bool)
    requires hi <= |surfs|
    ensures var r := Positions(surfs, lo, hi, solid);
      forall k :: k in r <==> lo <= k < hi && (if solid then IsSolid(surfs[k]) else IsPerforated(surfs[k]))
    decreases hi
  {
    if hi > lo {
      PositionsMembers(surfs, lo, hi - 1, solid);
      var rest := Positions(surfs, lo, hi - 1, solid);
      var r := Positions(surfs, lo, hi, solid);
      forall k
        ensures k in r <==> lo <= k < hi && (if solid then IsSolid(surfs[k]) else IsPerforated(surfs[k]))
      {
        assert k in r <==> k in rest || (k == hi - 1 && r != rest);
      }
    }
  }

  predicate Ascending(r: seq<nat>)
  {
    forall i, j :: 0 <= i < j < |r| ==> r[i] < r[j]
  }

  lemma {:induction false} PositionsAscending(surfs: seq<DepthSurf>, lo: nat, hi: nat, solid: bool)
    requires hi <= |surfs|
    ensures Ascending(Positions(surfs, lo, hi, solid))
    decreases hi
  {
    if hi > lo {
      PositionsAscending(surfs, lo, hi - 1, solid);
      var rest := Positions(surfs, lo, hi - 1, solid);
      var r := Positions(surfs, lo, hi, solid);
      var keep := if solid then IsSolid(surfs[hi - 1]) else IsPerforated(surfs[hi - 1]);
      assert r == rest + (if keep then [hi - 1] else []);
      forall i, j | 0 <= i < j < |r|
        ensures r[i] < r[j]
      {
        assert r[i] == rest[i];
        if j < |rest| {
          assert r[j] == rest[j];
          assert rest[i] < rest[j];
        } else {
          assert r[j] == hi - 1;
          assert rest[i] < hi - 1;
        }
      }
    }
  }

  function ProgramFor(s: DepthSurf): DepthProgram
  {
    if s.skinned then BUILTIN_DEPTH_SKINNED else BUILTIN_DEPTH
  }

  /** One general pass for each of the first n surfaces. */
  function SubviewPasses(n: nat): (r: seq<DepthPass>)
    ensures |r| == n
    ensures forall k :: 0 <= k < n ==> r[k] == GenericPass([k])
  {
    if n == 0 then [] else SubviewPasses(n - 1) + [GenericPass([n - 1])]
  }

  /** One fast pass for each listed surface, in the list's order. */
  function SolidPasses(surfs: seq<DepthSurf>, xs: seq<nat>): (r: seq<DepthPass>)
    requires forall i :: 0 <= i < |xs| ==> xs[i] < |surfs|
    ensures |r| == |xs|
    ensures forall k :: 0 <= k < |xs| ==> r[k] == SolidPass(xs[k], ProgramFor(surfs[xs[k]]))
  {
    if |xs| == 0 then []
    else SolidPasses(surfs, xs[..|xs| - 1]) + [SolidPass(xs[|xs| - 1], ProgramFor(surfs[xs[|xs| - 1]]))]
  }

  /** The passes FillDepthBufferFast makes. */
  function DepthPasses(surfs: seq<DepthSurf>, view3D: bool): seq<DepthPass>
  {
    if |surfs| == 0 || !view3D then []
    else
      var p := LeadingSubviews(surfs, 0);
      var solids := Positions(surfs, p, |surfs|, true);
      var perforated := Positions(surfs, p, |surfs|, false);
      SubviewPasses(p) + SolidPasses(surfs, solids) +
      (if |perforated| > 0 then [GenericPass(perforated)] else [])
  }

  /**
   * FillDepthBufferFast: nothing for no surfaces or a 2D view; otherwise
   * each leading subview surface on the general path, then every opaque
   * surface on the fast path (skipping translucent ones and collecting the
   * perforated ones), then the perforated surfaces together on the general
   * path.
   */
  method FillDepthBufferFast(surfs: seq<DepthSurf>, view3D: bool) returns (passes: seq<DepthPass>)
    ensures passes == DepthPasses(surfs, view3D)
  {
    if |surfs| == 0 || !view3D {
      return [];
    }
    passes := [];
    var surfNum := 0;
    while surfNum < |surfs| && surfs[surfNum].subviewSort
      invariant 0 <= surfNum <= |surfs|
      invariant forall k :: 0 <= k < surfNum ==> surfs[k].subviewSort
      invariant passes == SubviewPasses(surfNum)
    {
      passes := passes + [GenericPass([surfNum])];
      surfNum := surfNum + 1;
    }
    var p := surfNum;
    assert p == LeadingSubviews(surfs, 0) by {
      var q := LeadingSubviews(surfs, 0);
      if p < q {
        assert false;
      } else if q < p {
        assert false;
      }
    }
    var solidPasses, perforated := DrawOpaque(surfs, p);
    passes := passes + solidPasses;
    if |perforated| > 0 {
      passes := passes + [GenericPass(perforated)];
    }
  }

  /**
   * FillDepthBufferFast's second loop, from the first non-subview surface
   * p: the fast pass for each opaque surface, translucent ones skipped and
   * perforated ones collected.
   */
  method DrawOpaque(surfs: seq<DepthSurf>, p: nat) returns (solidPasses: seq<DepthPass>, perforated: seq<nat>)
    requires p <= |surfs|
    ensures solidPasses == SolidPasses(surfs, Positions(surfs, p, |surfs|, true))
    ensures perforated == Positions(surfs, p, |surfs|, false)
  {
    var solids: seq<nat> := [];
    perforated := [];
    solidPasses := [];
    var surfNum := p;
    while surfNum < |surfs|
      invariant p <= surfNum <= |surfs|
      invariant solids == Positions(surfs, p, surfNum, true)
      invariant perforated == Positions(surfs, p, surfNum, false)
      invariant solidPasses == SolidPasses(surfs, solids)
    {
      var surf := surfs[surfNum];
      if surf.coverage == MC_TRANSLUCENT {
      } else if surf.coverage == MC_PERFORATED {
        perforated := perforated + [surfNum];
      } else {
        assert (solids + [surfNum])[..|solids|] == solids;
        solids := solids + [surfNum];
        solidPasses := solidPasses + [SolidPass(surfNum, ProgramFor(surf))];
      }
      surfNum := surfNum + 1;
    }
  }

  /** The surfaces a pass draws. */
  function PassSurfaces(pass: DepthPass): seq<nat>
  {
    match pass
    case GenericPass(ss) => ss
    case SolidPass(s, _) => [s]
  }

  /** The three parts of the prepass, by position in the pass list. */
  lemma DepthPassesShape(surfs: seq<DepthSurf>)
    requires |surfs| > 0
    ensures var passes := DepthPasses(surfs, true);
      var p := LeadingSubviews(surfs, 0);
      var solids := Positions(surfs, p, |surfs|, true);
      var perforated := Positions(surfs, p, |surfs|, false);
      |passes| == p + |solids| + (if |perforated| > 0 then 1 else 0) &&
      (forall k :: 0 <= k < p ==> passes[k] == GenericPass([k])) &&
      (forall i :: 0 <= i < |solids| ==> passes[p + i] == SolidPass(solids[i], ProgramFor(surfs[solids[i]]))) &&
      (|perforated| > 0 ==> passes[|passes| - 1] == GenericPass(perforated))
  {
    var p := LeadingSubviews(surfs, 0);
    var solids := Positions(surfs, p, |surfs|, true);
    var perforated := Positions(surfs, p, |surfs|, false);
    var head := SubviewPasses(p);
    var mid := SolidPasses(surfs, solids);
    var tail: seq<DepthPass> := if |perforated| > 0 then [GenericPass(perforated)] else [];
    var passes := head + mid + tail;
    assert DepthPasses(surfs, true) == passes;
    forall i | 0 <= i < |solids|
      ensures passes[p + i] == SolidPass(solids[i], ProgramFor(surfs[solids[i]]))
    {
      assert passes[p + i] == (mid + tail)[i];
    }
  }

  /** The i-th opaque surface past the subviews has the (p + i)-th pass. */
  lemma SolidPassAt(surfs: seq<DepthSurf>, i: nat)
    requires |surfs| > 0
    requires i < |Positions(surfs, LeadingSubviews(surfs, 0), |surfs|, true)|
    ensures var p := LeadingSubviews(surfs, 0);
      var solids := Positions(surfs, p, |surfs|, true);
      p + i < |DepthPasses(surfs, true)| &&
      DepthPasses(surfs, true)[p + i] == SolidPass(solids[i], ProgramFor(surfs[solids[i]]))
  {
    DepthPassesShape(surfs);
  }

  /** The surfaces the passes draw, all together. */
  predicate DrawnBy(passes: seq<DepthPass>, j: nat)
  {
    exists k :: 0 <= k < |passes| && j in PassSurfaces(passes[k])
  }

  /** A leading subview surface, or an opaque or perforated one past them, is drawn. */
  lemma DepthPassDrawsKept(surfs: seq<DepthSurf>, j: nat)
    requires |surfs| > 0 && j < |surfs|
    requires j < LeadingSubviews(surfs, 0) || surfs[j].coverage != MC_TRANSLUCENT
    ensures DrawnBy(DepthPasses(surfs, true), j)
    ensures IsSolid(surfs[j]) && j >= LeadingSubviews(surfs, 0) ==>
      exists k :: 0 <= k < |DepthPasses(surfs, true)| && DepthPasses(surfs, true)[k] == SolidPass(j, ProgramFor(surfs[j]))
  {
    var passes := DepthPasses(surfs, true);
    var p := LeadingSubviews(surfs, 0);
    DepthPassesShape(surfs);
    if j < p {
      assert j in PassSurfaces(passes[j]);
    } else if IsSolid(surfs[j]) {
      DepthPassDrawsSolid(surfs, j);
    } else {
      var perforated := Positions(surfs, p, |surfs|, false);
      PositionsExact(surfs, p, |surfs|, false);
      assert j in perforated;
      assert j in PassSurfaces(passes[|passes| - 1]);
    }
  }

  /** An opaque surface past the leading subviews has a fast pass of its own. */
  lemma DepthPassDrawsSolid(surfs: seq<DepthSurf>, j: nat)
    requires |surfs| > 0 && j < |surfs|
    requires IsSolid(surfs[j]) && j >= LeadingSubviews(surfs, 0)
    ensures exists k :: 0 <= k < |DepthPasses(surfs, true)| && DepthPasses(surfs, true)[k] == SolidPass(j, ProgramFor(surfs[j]))
  {
    var p := LeadingSubviews(surfs, 0);
    var solids := Positions(surfs, p, |surfs|, true);
    PositionsExact(surfs, p, |surfs|, true);
    assert j in solids;
    var i :| 0 <= i < |solids| && solids[i] == j;
    SolidPassAt(surfs, i);
    assert DepthPasses(surfs, true)[p + i] == SolidPass(j, ProgramFor(surfs[j]));
  }

  /** A translucent surface past the leading subviews is not drawn. */
  lemma DepthPassSkipsTranslucent(surfs: seq<DepthSurf>, j: nat)
    requires |surfs| > 0 && j < |surfs|
    requires j >= LeadingSubviews(surfs, 0) && surfs[j].coverage == MC_TRANSLUCENT
    ensures !DrawnBy(DepthPasses(surfs, true), j)
  {
    var p := LeadingSubviews(surfs, 0);
    var solids := Positions(surfs, p, |surfs|, true);
    var perforated := Positions(surfs, p, |surfs|, false);
    var tail: seq<DepthPass> := if |perforated| > 0 then [GenericPass(perforated)] else [];
    TranslucentUnlisted(surfs, p, j);
    SubviewsOmit(p, j);
    SolidsOmit(surfs, solids, j);
    assert !DrawnBy(tail, j) by {
      if |perforated| > 0 {
        assert tail[0] == GenericPass(perforated);
      }
    }
    NotDrawnConcat(SubviewPasses(p), SolidPasses(surfs, solids), j);
    NotDrawnConcat(SubviewPasses(p) + SolidPasses(surfs, solids), tail, j);
  }

  /** A translucent surface is in neither the solid nor the perforated list. */
  lemma TranslucentUnlisted(surfs: seq<DepthSurf>, p: nat, j: nat)
    requires j < |surfs| && surfs[j].coverage == MC_TRANSLUCENT
    ensures j !in Positions(surfs, p, |surfs|, true) && j !in Positions(surfs, p, |surfs|, false)
  {
    PositionsMembers(surfs, p, |surfs|, true);
    PositionsMembers(surfs, p, |surfs|, false);
  }

  /** The leading single-surface passes draw only surfaces below p. */
  lemma SubviewsOmit(p: nat, j: nat)
    requires j >= p
    ensures !DrawnBy(SubviewPasses(p), j)
  {
    forall k | 0 <= k < p
      ensures j !in PassSurfaces(SubviewPasses(p)[k])
    {
      assert PassSurfaces(SubviewPasses(p)[k]) == [k];
    }
  }

  /** The fast passes draw only the listed surfaces. */
  lemma SolidsOmit(surfs: seq<DepthSurf>, xs: seq<nat>, j: nat)
    requires forall i :: 0 <= i < |xs| ==> xs[i] < |surfs|
    requires j !in xs
    ensures !DrawnBy(SolidPasses(surfs, xs), j)
  {
    var r := SolidPasses(surfs, xs);
    forall k | 0 <= k < |r|
      ensures j !in PassSurfaces(r[k])
    {
      assert PassSurfaces(r[k]) == [xs[k]];
    }
  }

  lemma NotDrawnConcat(a: seq<DepthPass>, b: seq<DepthPass>, j: nat)
    requires !DrawnBy(a, j) && !DrawnBy(b, j)
    ensures !DrawnBy(a + b, j)
  {
    forall k | 0 <= k < |a + b|
      ensures j !in PassSurfaces((a + b)[k])
    {
      if k < |a| {
        assert (a + b)[k] == a[k];
      } else {
        assert (a + b)[k] == b[k - |a|];
      }
    }
  }

  /**
   * In a 3D view the prepass draws surface j exactly when it is a leading
   * subview or not translucent.
   */
  lemma DepthPassesDraw(surfs: seq<DepthSurf>, j: nat)
    requires |surfs| > 0 && j < |surfs|
    ensures DrawnBy(DepthPasses(surfs, true), j) <==>
      j < LeadingSubviews(surfs, 0) || surfs[j].coverage != MC_TRANSLUCENT
  {
    if j < LeadingSubviews(surfs, 0) || surfs[j].coverage != MC_TRANSLUCENT {
      DepthPassDrawsKept(surfs, j);
    } else {
      DepthPassSkipsTranslucent(surfs, j);
    }
  }

  // ---------------------------------------------------------------------
  // Ambient passes
  // ---------------------------------------------------------------------

  /** What DrawShaderPasses tests of a surface and its material. */
  datatype ShaderSurf = ShaderSurf(
    hasAmbient: bool, portalSky: bool, numIndexes: nat, suppressInSubview: bool,
    xrayIndex: Option<int>, postProcess: bool)

  /** The view state DrawShaderPasses reads. */
  datatype ShaderView = ShaderView(hasEntities: bool, skipAmbient: bool, xraySubview: bool, renderCopied: bool)

  /**
   * A surface the loop passes over: no ambient stages, a portal sky, no
   * indexes, suppressed in subviews, or, in an x-ray subview, an entity
   * whose x-ray index is not 2.
   */
  predicate SkipsAmbient(s: ShaderSurf, v: ShaderView)
  {
    !s.hasAmbient || s.portalSky || s.numIndexes == 0 || s.suppressInSubview ||
    (v.xraySubview && s.xrayIndex.Some? && s.xrayIndex.value != 2)
  }

  /** A surface that ends the loop: one it would draw that is post-process while the render is not yet copied. */
  predicate StopsAmbient(s: ShaderSurf, v: ShaderView)
  {
    !SkipsAmbient(s, v) && s.postProcess && !v.renderCopied
  }

  /** The first stopping surface from i on, or the count. */
  function FirstStop(surfs: seq<ShaderSurf>, v: ShaderView, i: nat): (r: nat)
    requires i <= |surfs|
    ensures i <= r <= |surfs|
    ensures forall k :: i <= k < r ==> !StopsAmbient(surfs[k], v)
    ensures r < |surfs| ==> StopsAmbient(surfs[r], v)
    decreases |surfs| - i
  {
    if i == |surfs| || StopsAmbient(surfs[i], v) then i else FirstStop(surfs, v, i + 1)
  }

  /**
   * DrawShaderPasses' draw loop: returns the index to resume from (all
   * surfaces when ambient is skipped on a 3D view) and the surfaces drawn,
   * in order.
   */
  method DrawShaderPasses(surfs: seq<ShaderSurf>, v: ShaderView) returns (stop: nat, drawn: seq<nat>)
    ensures v.hasEntities && v.skipAmbient ==> stop == |surfs| && drawn == []
    ensures !(v.hasEntities && v.skipAmbient) ==> stop == FirstStop(surfs, v, 0)
    ensures !(v.hasEntities && v.skipAmbient) ==>
      forall k :: k in drawn <==> 0 <= k < stop && !SkipsAmbient(surfs[k], v)
    ensures forall i, j :: 0 <= i < j < |drawn| ==> drawn[i] < drawn[j]
  {
    if v.hasEntities && v.skipAmbient {
      return |surfs|, [];
    }
    drawn := [];
    var i := 0;
    while i < |surfs|
      invariant 0 <= i <= |surfs|
      invariant forall k :: 0 <= k < i ==> !StopsAmbient(surfs[k], v)
      invariant forall k :: k in drawn <==> 0 <= k < i && !SkipsAmbient(surfs[k], v)
      invariant forall a, b :: 0 <= a < b < |drawn| ==> drawn[a] < drawn[b]
      invariant forall a :: 0 <= a < |drawn| ==> drawn[a] < i
    {
      var surf := surfs[i];
      if !SkipsAmbient(surf, v) {
        if surf.postProcess && !v.renderCopied {
          break;
        }
        drawn := drawn + [i];
      }
      i := i + 1;
    }
    stop := i;
    assert stop == FirstStop(surfs, v, 0) by {
      var q := FirstStop(surfs, v, 0);
      if stop < q {
        assert false;
      } else if q < stop {
        assert false;
      }
    }
  }

  /** Drawing stops before every post-process surface it would draw, and nothing past the stop is drawn. */
  lemma AmbientStopsBeforePostProcess(surfs: seq<ShaderSurf>, v: ShaderView, k: nat)
    requires k < |surfs| && !v.renderCopied
    requires !SkipsAmbient(surfs[k], v) && surfs[k].postProcess
    ensures FirstStop(surfs, v, 0) <= k
  {
  }

  // ---------------------------------------------------------------------
  // S-Cull tiles
  // ---------------------------------------------------------------------

  /** v & ~15 on a two's-complement int: v rounded down to a multiple of 16. */
  function RoundDown16(v: int): (r: int)
    ensures r % 16 == 0 && r <= v < r + 16
  {
    v - v % 16
  }

  /** (v + 15) & ~15: v rounded up to a multiple of 16. */
  function RoundUp16(v: int): (r: int)
    ensures r % 16 == 0 && v <= r < v + 16
  {
    RoundDown16(v + 15)
  }

  type ScreenRect = RenderSystem.ScreenRect

  /** The whole S-Cull tiles a light's scissor touches. */
  function TileRect(r: ScreenRect): ScreenRect
  {
    RenderSystem.ScreenRect(RoundDown16(r.x1), RoundDown16(r.y1), RoundUp16(r.x2), RoundUp16(r.y2))
  }

  /**
   * The tile rectangle has every edge on a multiple of 16, contains the
   * scissor, and reaches less than a tile beyond it on each side.
   */
  lemma TileRectCovers(r: ScreenRect)
    ensures var t := TileRect(r);
      t.x1 % 16 == 0 && t.y1 % 16 == 0 && t.x2 % 16 == 0 && t.y2 % 16 == 0 &&
      t.x1 <= r.x1 < t.x1 + 16 && t.y1 <= r.y1 < t.y1 + 16 &&
      r.x2 <= t.x2 < r.x2 + 16 && r.y2 <= t.y2 < r.y2 + 16
  {
  }

  /** A GL_Scissor box: origin and size. */
  datatype ScissorBox = ScissorBox(x: int, y: int, w: int, h: int)

  /** The GL_Scissor call for the tiles: offset by the viewport origin, inclusive extents. */
  function TileScissor(viewX1: int, viewY1: int, r: ScreenRect): ScissorBox
  {
    var t := TileRect(r);
    ScissorBox(viewX1 + t.x1, viewY1 + t.y1, t.x2 + 1 - t.x1, t.y2 + 1 - t.y1)
  }

  /**
   * The scissor box covers the light's rectangle, moved to the viewport, and
   * its sides are one more than a multiple of 16.
   */
  lemma TileScissorCovers(viewX1: int, viewY1: int, r: ScreenRect)
    requires r.x1 <= r.x2 && r.y1 <= r.y2
    ensures var b := TileScissor(viewX1, viewY1, r);
      b.x <= viewX1 + r.x1 && viewX1 + r.x2 < b.x + b.w &&
      b.y <= viewY1 + r.y1 && viewY1 + r.y2 < b.y + b.h &&
      (b.w - 1) % 16 == 0 && (b.h - 1) % 16 == 0 && b.w > 0 && b.h > 0
  {
    TileRectCovers(r);
  }
}
