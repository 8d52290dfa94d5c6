/**
 * Building the world's area structures while a map loads: the common child
 * area of each BSP node, the single-area world, the inter-area portals read
 * from the map (text or binary) and the portal states every load starts
 * from.
 */
module RenderWorldLoad {
  import opened Bits
  import opened RenderWorld
  import opened RenderWorldPortals

  const CHILDREN_HAVE_MULTIPLE_AREAS: int := -2
  const AREANUM_SOLID: int := -1

  // ---------------------------------------------------------------------
  // Common children area of the BSP nodes
  // ---------------------------------------------------------------------

  /** The areas of all non-solid leaves under child c (a node index above 0, solid 0, a leaf below 0). */
  ghost function AreasUnder(nodes: seq<AreaNode>, c: int): set<int>
    requires WellFormedTree(nodes) && c < |nodes|
    decreases if c > 0 then |nodes| - c else 0, 1
  {
    if c < 0 then {-1 - c}
    else if c == 0 then {}
    else AreasUnderNode(nodes, c)
  }

  /** The areas of all non-solid leaves under node n, on both sides. */
  ghost function AreasUnderNode(nodes: seq<AreaNode>, n: nat): set<int>
    requires WellFormedTree(nodes) && n < |nodes|
    decreases |nodes| - n, 0
  {
    AreasUnder(nodes, nodes[n].front) + AreasUnder(nodes, nodes[n].back)
  }

  /** The nodes of the subtree rooted at node n. */
  ghost function SubtreeNodes(nodes: seq<AreaNode>, n: nat): (s: set<nat>)
    requires WellFormedTree(nodes) && n < |nodes|
    ensures n in s && forall m :: m in s ==> n <= m < |nodes|
    decreases |nodes| - n
  {
    {n} + (if nodes[n].front > 0 then SubtreeNodes(nodes, nodes[n].front) else {})
        + (if nodes[n].back > 0 then SubtreeNodes(nodes, nodes[n].back) else {})
  }

  /**
   * What a set of leaf areas says about a subtree: AREANUM_SOLID when it
   * has no area, the area when it has exactly one, otherwise
   * CHILDREN_HAVE_MULTIPLE_AREAS.
   */
  ghost predicate Summarises(common: int, areas: set<int>) {
    (common == AREANUM_SOLID <==> areas == {}) &&
    (common >= 0 ==> areas == {common}) &&
    (common == CHILDREN_HAVE_MULTIPLE_AREAS ==> exists a, b :: a in areas && b in areas && a != b) &&
    (common == AREANUM_SOLID || common == CHILDREN_HAVE_MULTIPLE_AREAS || common >= 0)
  }

  /** The value CommonChildrenArea_r computes for node n. */
  function CommonArea(nodes: seq<AreaNode>, n: nat): int
    requires WellFormedTree(nodes) && n < |nodes|
    decreases |nodes| - n, 0
  {
    var n0 := ChildValue(nodes, nodes[n].front);
    var n1 := ChildValue(nodes, nodes[n].back);
    var m0 := if n0 == AREANUM_SOLID then n1 else n0;
    var m1 := if n1 == AREANUM_SOLID then m0 else n1;
    if m0 == m1 then m0 else CHILDREN_HAVE_MULTIPLE_AREAS
  }

  /** A child's value: a leaf decodes to its area (solid to -1), a node to its common area. */
  function ChildValue(nodes: seq<AreaNode>, c: int): int
    requires WellFormedTree(nodes) && c < |nodes|
    decreases if c > 0 then |nodes| - c else 0, 1
  {
    if c <= 0 then ChildArea(c) else CommonArea(nodes, c)
  }

  /**
   * The common area of a node is the single area of the leaves under it,
   * -1 when they are all solid, and CHILDREN_HAVE_MULTIPLE_AREAS when they
   * hold two different areas.
   */
  lemma {:induction false} CommonAreaSummarises(nodes: seq<AreaNode>, n: nat)
    requires WellFormedTree(nodes) && n < |nodes|
    ensures Summarises(CommonArea(nodes, n), AreasUnderNode(nodes, n))
    decreases |nodes| - n, 0
  {
    ChildValueSummarises(nodes, nodes[n].front);
    ChildValueSummarises(nodes, nodes[n].back);
    var n0 := ChildValue(nodes, nodes[n].front);
    var n1 := ChildValue(nodes, nodes[n].back);
    var s0 := AreasUnder(nodes, nodes[n].front);
    var s1 := AreasUnder(nodes, nodes[n].back);
    if n0 >= 0 && n1 >= 0 && n0 != n1 {
      assert n0 in s0 + s1 && n1 in s0 + s1;
    } else if n0 == CHILDREN_HAVE_MULTIPLE_AREAS {
      var a, b :| a in s0 && b in s0 && a != b;
      assert a in s0 + s1 && b in s0 + s1;
    } else if n1 == CHILDREN_HAVE_MULTIPLE_AREAS {
      var a, b :| a in s1 && b in s1 && a != b;
      assert a in s0 + s1 && b in s0 + s1;
    }
  }

  lemma {:induction false} ChildValueSummarises(nodes: seq<AreaNode>, c: int)
    requires WellFormedTree(nodes) && c < |nodes|
    ensures Summarises(ChildValue(nodes, c), AreasUnder(nodes, c))
    decreases if c > 0 then |nodes| - c else 0, 1
  {
    if c > 0 {
      CommonAreaSummarises(nodes, c);
    }
  }

  /**
   * CommonChildrenArea_r: returns the common area of node n and stores, in
   * commons, the common area of every node of its subtree; no other node's
   * entry changes.
   */
  method CommonChildrenArea(nodes: seq<AreaNode>, n: nat, commons: array<int>) returns (common: int)
    requires WellFormedTree(nodes) && n < |nodes| && commons.Length == |nodes|
    modifies commons
    ensures common == CommonArea(nodes, n)
    ensures Summarises(common, AreasUnderNode(nodes, n))
    ensures forall m :: m in SubtreeNodes(nodes, n) ==> commons[m] == CommonArea(nodes, m)
    ensures forall m :: 0 <= m < commons.Length && m !in SubtreeNodes(nodes, n) ==> commons[m] == old(commons[m])
    decreases |nodes| - n
  {
    var nums := new int[2];
    for i := 0 to 2
      invariant forall m :: 0 <= m < commons.Length && m !in SubtreeNodes(nodes, n) ==> commons[m] == old(commons[m])
      invariant forall m :: 0 <= m < commons.Length && commons[m] != old(commons[m]) ==> commons[m] == CommonArea(nodes, m)
      invariant i > 0 ==> nums[0] == ChildValue(nodes, nodes[n].front)
      invariant i > 0 && nodes[n].front > 0 ==> forall m :: m in SubtreeNodes(nodes, nodes[n].front) ==> commons[m] == CommonArea(nodes, m)
      invariant i > 1 ==> nums[1] == ChildValue(nodes, nodes[n].back)
      invariant i > 1 && nodes[n].back > 0 ==> forall m :: m in SubtreeNodes(nodes, nodes[n].back) ==> commons[m] == CommonArea(nodes, m)
    {
      var child := if i == 0 then nodes[n].front else nodes[n].back;
      if child <= 0 {
        nums[i] := -1 - child;
      } else {
        var v := CommonChildrenArea(nodes, child, commons);
        nums[i] := v;
      }
    }
    if nums[0] == AREANUM_SOLID {
      nums[0] := nums[1];
    }
    if nums[1] == AREANUM_SOLID {
      nums[1] := nums[0];
    }
    if nums[0] == nums[1] {
      common := nums[0];
    } else {
      common := CHILDREN_HAVE_MULTIPLE_AREAS;
    }
    commons[n] := common;
    CommonAreaSummarises(nodes, n);
  }

  // ---------------------------------------------------------------------
  // Portal states at load
  // ---------------------------------------------------------------------

  /**
   * ClearPortalStates: every portal starts open, then every area is
   * flooded once per attribute with a fresh number.  With paired portals
   * the numbers then answer reachability exactly.
   */
  method ClearPortalStates(w: PortalAreas)
    requires w.Valid() && Paired(w.areaPortals)
    modifies w, w.doublePortals, w.areaConnected
    ensures w.Valid()
    ensures w.areaPortals == old(w.areaPortals) && w.doublePortals == old(w.doublePortals) && w.areaConnected == old(w.areaConnected)
    ensures forall d :: 0 <= d < w.doublePortals.Length ==> w.doublePortals[d] == old(w.doublePortals[d]).(blockingBits := PS_BLOCK_NONE)
    ensures w.connectedAreaNum == old(w.connectedAreaNum) + NUM_PORTAL_ATTRIBUTES * |w.areaPortals|
    ensures w.ConnectivityExact()
  {
    for i := 0 to w.doublePortals.Length
      invariant w.areaPortals == old(w.areaPortals) && w.doublePortals == old(w.doublePortals) && w.areaConnected == old(w.areaConnected)
      invariant w.connectedAreaNum == old(w.connectedAreaNum)
      invariant w.Valid()
      invariant forall d :: 0 <= d < i ==> w.doublePortals[d] == old(w.doublePortals[d]).(blockingBits := PS_BLOCK_NONE)
      invariant forall d :: i <= d < w.doublePortals.Length ==> w.doublePortals[d] == old(w.doublePortals[d])
    {
      w.doublePortals[i] := w.doublePortals[i].(blockingBits := PS_BLOCK_NONE);
    }
    FloodAllAreas(w);
  }

  /** The flood loop of ClearPortalStates. */
  method FloodAllAreas(w: PortalAreas)
    requires w.Valid() && Paired(w.areaPortals)
    modifies w, w.areaConnected
    ensures w.Valid()
    ensures w.areaPortals == old(w.areaPortals) && w.doublePortals == old(w.doublePortals) && w.areaConnected == old(w.areaConnected)
    ensures w.connectedAreaNum == old(w.connectedAreaNum) + NUM_PORTAL_ATTRIBUTES * |w.areaPortals|
    ensures w.ConnectivityExact()
  {
    for i := 0 to |w.areaPortals|
      invariant w.Valid()
      invariant w.areaPortals == old(w.areaPortals) && w.doublePortals == old(w.doublePortals) && w.areaConnected == old(w.areaConnected)
      invariant w.connectedAreaNum == old(w.connectedAreaNum) + NUM_PORTAL_ATTRIBUTES * i
      invariant forall t :: 0 <= t < NUM_PORTAL_ATTRIBUTES ==> Labelled(w.areaPortals, w.doublePortals[..], Mask(t), w.Column(t), i)
    {
      FloodArea(w, i);
    }
    forall t | 0 <= t < NUM_PORTAL_ATTRIBUTES
      ensures ExactLabels(w.areaPortals, w.doublePortals[..], Mask(t), w.Columns()[t])
    {
      LabelledAll(w.areaPortals, w.doublePortals[..], Mask(t), w.Column(t));
    }
  }

  /** The three floods, one per attribute, from area i. */
  method FloodArea(w: PortalAreas, i: nat)
    requires w.Valid() && Paired(w.areaPortals) && i < |w.areaPortals|
    requires forall t :: 0 <= t < NUM_PORTAL_ATTRIBUTES ==> Labelled(w.areaPortals, w.doublePortals[..], Mask(t), w.Column(t), i)
    modifies w, w.areaConnected
    ensures w.Valid()
    ensures w.areaPortals == old(w.areaPortals) && w.doublePortals == old(w.doublePortals) && w.areaConnected == old(w.areaConnected)
    ensures w.connectedAreaNum == old(w.connectedAreaNum) + NUM_PORTAL_ATTRIBUTES
    ensures forall t :: 0 <= t < NUM_PORTAL_ATTRIBUTES ==> Labelled(w.areaPortals, w.doublePortals[..], Mask(t), w.Column(t), i + 1)
  {
    for j := 0 to NUM_PORTAL_ATTRIBUTES
      invariant w.Valid()
      invariant w.areaPortals == old(w.areaPortals) && w.doublePortals == old(w.doublePortals) && w.areaConnected == old(w.areaConnected)
      invariant w.connectedAreaNum == old(w.connectedAreaNum) + j
      invariant forall t :: 0 <= t < j ==> Labelled(w.areaPortals, w.doublePortals[..], Mask(t), w.Column(t), i + 1)
      invariant forall t :: j <= t < NUM_PORTAL_ATTRIBUTES ==> Labelled(w.areaPortals, w.doublePortals[..], Mask(t), w.Column(t), i)
    {
      FloodAttribute(w, i, j);
    }
  }

  /** One flood with a fresh number from area i for attribute t. */
  method FloodAttribute(w: PortalAreas, i: nat, t: nat)
    requires w.Valid() && Paired(w.areaPortals) && i < |w.areaPortals| && t < NUM_PORTAL_ATTRIBUTES
    requires Labelled(w.areaPortals, w.doublePortals[..], Mask(t), w.Column(t), i)
    modifies w, w.areaConnected
    ensures w.Valid()
    ensures w.areaPortals == old(w.areaPortals) && w.doublePortals == old(w.doublePortals) && w.areaConnected == old(w.areaConnected)
    ensures w.connectedAreaNum == old(w.connectedAreaNum) + 1
    ensures Labelled(w.areaPortals, w.doublePortals[..], Mask(t), w.Column(t), i + 1)
    ensures forall u :: 0 <= u < NUM_PORTAL_ATTRIBUTES && u != t ==> w.Column(u) == old(w.Column(u))
  {
    ghost var before := w.Column(t);
    w.connectedAreaNum := w.connectedAreaNum + 1;
    ReachableRefl(w.areaPortals, w.doublePortals[..], Mask(t), i);
    w.FloodConnectedAreas(i, t, i);
    w.FloodIsExact(i, t);
    FloodExtendsLabelling(w.areaPortals, w.doublePortals[..], Mask(t), before, w.Column(t), i, w.connectedAreaNum);
  }

  // ---------------------------------------------------------------------
  // Inter-area portals (ParseInterAreaPortals, ReadBinaryAreaPortals)
  // ---------------------------------------------------------------------

  /** One inter-area portal as the map gives it: the winding's point count and its two areas (the points are left out). */
  datatype PortalRecord = PortalRecord(numPoints: int, a1: int, a2: int)

  /** Both areas of every record lie in [0, numAreas). */
  predicate AreasInRange(recs: seq<PortalRecord>, numAreas: int) {
    forall i :: 0 <= i < |recs| ==> 0 <= recs[i].a1 < numAreas && 0 <= recs[i].a2 < numAreas
  }

  /**
   * The area portal lists after linking the records in order: record i
   * puts a portal into a2 at the head of a1's list, then a portal into a1
   * at the head of a2's list, both naming double portal i.
   */
  function LinkedAreas(numAreas: nat, recs: seq<PortalRecord>): (areas: seq<seq<Portal>>)
    requires AreasInRange(recs, numAreas)
    ensures |areas| == numAreas
  {
    if recs == [] then seq(numAreas, _ => [])
    else
      var i := |recs| - 1;
      var prev := LinkedAreas(numAreas, recs[..i]);
      var first := prev[recs[i].a1 := [Portal(recs[i].a2, i)] + prev[recs[i].a1]];
      first[recs[i].a2 := [Portal(recs[i].a1, i)] + first[recs[i].a2]]
  }

  /** The double portals after linking: record i's portals[0] leads into a2, its portals[1] into a1, nothing blocked. */
  function LinkedDoublePortals(recs: seq<PortalRecord>, numAreas: int): (dps: seq<DoublePortal>)
    requires AreasInRange(recs, numAreas)
    ensures |dps| == |recs|
  {
    seq(|recs|, i requires 0 <= i < |recs| => DoublePortal(recs[i].a2, recs[i].a1, PS_BLOCK_NONE))
  }

  /**
   * The portals in area a's list are exactly one per end of a record at
   * a: a portal naming record i, into a2 when a is a1, into a1 when a is
   * a2.
   */
  lemma {:induction false} LinkedAreasExact(numAreas: nat, recs: seq<PortalRecord>, a: nat, q: Portal)
    requires AreasInRange(recs, numAreas) && a < numAreas
    ensures q in LinkedAreas(numAreas, recs)[a] <==>
              q.doublePortal < |recs| &&
              ((recs[q.doublePortal].a1 == a && q.intoArea == recs[q.doublePortal].a2) ||
               (recs[q.doublePortal].a2 == a && q.intoArea == recs[q.doublePortal].a1))
  {
    if recs != [] {
      var i := |recs| - 1;
      assert AreasInRange(recs[..i], numAreas);
      LinkedAreasExact(numAreas, recs[..i], a, q);
      assert forall k :: 0 <= k < i ==> recs[..i][k] == recs[k];
    }
  }

  /** Linking yields paired portal lists whose portals match their double portals' ends. */
  lemma LinkedWellLinked(numAreas: nat, recs: seq<PortalRecord>)
    requires AreasInRange(recs, numAreas)
    ensures Paired(LinkedAreas(numAreas, recs))
    ensures PortalEnds(LinkedAreas(numAreas, recs), LinkedDoublePortals(recs, numAreas))
  {
    var areas: seq<seq<Portal>> := LinkedAreas(numAreas, recs);
    var dps: seq<DoublePortal> := LinkedDoublePortals(recs, numAreas);
    forall a, j | 0 <= a < |areas| && 0 <= j < |areas[a]|
      ensures areas[a][j].intoArea < |areas| && Portal(a, areas[a][j].doublePortal) in areas[areas[a][j].intoArea]
      ensures areas[a][j].doublePortal < |dps| &&
              ((a == dps[areas[a][j].doublePortal].intoArea1 && areas[a][j].intoArea == dps[areas[a][j].doublePortal].intoArea0) ||
               (a == dps[areas[a][j].doublePortal].intoArea0 && areas[a][j].intoArea == dps[areas[a][j].doublePortal].intoArea1))
    {
      var q := areas[a][j];
      LinkedAreasExact(numAreas, recs, a, q);
      LinkedAreasExact(numAreas, recs, q.intoArea, Portal(a, q.doublePortal));
    }
  }

  /**
   * The linking loop shared by both readers: fresh, cleared area lists and
   * double portals (SetupAreaRefs zeroes the flood counter), then each
   * record linked in order.
   */
  method LinkInterAreaPortals(w: PortalAreas, numAreas: nat, recs: seq<PortalRecord>)
    requires AreasInRange(recs, numAreas)
    modifies w
    ensures fresh(w.doublePortals) && fresh(w.areaConnected)
    ensures w.areaPortals == LinkedAreas(numAreas, recs) && w.doublePortals[..] == LinkedDoublePortals(recs, numAreas)
    ensures w.connectedAreaNum == 0
    ensures forall a, t :: 0 <= a < w.areaConnected.Length0 && 0 <= t < w.areaConnected.Length1 ==> w.areaConnected[a, t] == 0
    ensures w.Valid() && w.WellLinked()
  {
    var areas: seq<seq<Portal>> := seq(numAreas, _ => []);
    var dps := new DoublePortal[|recs|](_ => DoublePortal(0, 0, PS_BLOCK_NONE));
    for i := 0 to |recs|
      invariant AreasInRange(recs[..i], numAreas)
      invariant areas == LinkedAreas(numAreas, recs[..i])
      invariant forall d :: 0 <= d < i ==> dps[d] == LinkedDoublePortals(recs, numAreas)[d]
    {
      assert recs[..i + 1][..i] == recs[..i];
      var r := recs[i];
      areas := areas[r.a1 := [Portal(r.a2, i)] + areas[r.a1]];
      dps[i] := DoublePortal(r.a2, r.a1, PS_BLOCK_NONE);
      areas := areas[r.a2 := [Portal(r.a1, i)] + areas[r.a2]];
    }
    assert recs[..|recs|] == recs;
    w.areaPortals := areas;
    w.doublePortals := dps;
    w.areaConnected := new int[numAreas, NUM_PORTAL_ATTRIBUTES]((_, _) => 0);
    w.connectedAreaNum := 0;
    LinkedWellLinked(numAreas, recs);
    forall a, j | 0 <= a < |areas| && 0 <= j < |areas[a]|
      ensures areas[a][j].intoArea < |areas| && areas[a][j].doublePortal < dps.Length
    {
      LinkedAreasExact(numAreas, recs, a, areas[a][j]);
    }
  }

  /** The outcome of reading the portal section. */
  datatype PortalLoad = Loaded | BadNumPortalAreas | BadNumInterAreaPortals | UnexpectedEnd

  /**
   * ParseInterAreaPortals: a negative area count or a negative portal
   * count is an error, and so is running out of records; otherwise the
   * first numPortals records are linked into fresh lists.  The areas are
   * set up before the portal count is checked.
   */
  method ParseInterAreaPortals(w: PortalAreas, numAreas: int, numPortals: int, recs: seq<PortalRecord>) returns (r: PortalLoad)
    requires 0 <= numPortals <= |recs| ==> AreasInRange(recs[..numPortals], numAreas)
    modifies w
    ensures r == BadNumPortalAreas <==> numAreas < 0
    ensures r == BadNumInterAreaPortals <==> numAreas >= 0 && numPortals < 0
    ensures r == UnexpectedEnd <==> numAreas >= 0 && numPortals > |recs|
    ensures r == BadNumPortalAreas ==> unchanged(w)
    ensures r != BadNumPortalAreas ==> |w.areaPortals| == numAreas && w.connectedAreaNum == 0
    ensures r == Loaded ==>
              w.areaPortals == LinkedAreas(numAreas, recs[..numPortals]) &&
              w.doublePortals[..] == LinkedDoublePortals(recs[..numPortals], numAreas) &&
              w.Valid() && w.WellLinked()
  {
    if numAreas < 0 {
      return BadNumPortalAreas;
    }
    if numPortals < 0 || numPortals > |recs| {
      w.areaPortals := seq(numAreas, _ => []);
      w.connectedAreaNum := 0;
      return if numPortals < 0 then BadNumInterAreaPortals else UnexpectedEnd;
    }
    LinkInterAreaPortals(w, numAreas, recs[..numPortals]);
    return Loaded;
  }

  /**
   * ReadBinaryAreaPortals: the same linking from the binary cache, which
   * checks nothing; the cache is written by the text parser after its
   * checks, so its counts are valid.
   */
  method ReadBinaryAreaPortals(w: PortalAreas, numAreas: nat, numPortals: nat, recs: seq<PortalRecord>)
    requires numPortals <= |recs| && AreasInRange(recs[..numPortals], numAreas)
    modifies w
    ensures w.areaPortals == LinkedAreas(numAreas, recs[..numPortals])
    ensures w.doublePortals[..] == LinkedDoublePortals(recs[..numPortals], numAreas)
    ensures w.connectedAreaNum == 0 && w.Valid() && w.WellLinked()
  {
    LinkInterAreaPortals(w, numAreas, recs[..numPortals]);
  }

  // ---------------------------------------------------------------------
  // The single-area world (ClearWorld)
  // ---------------------------------------------------------------------

  /** The one node ClearWorld builds: both children are leaf -1, area 0. */
  const SINGLE_AREA_NODES: seq<AreaNode> := [AreaNode(-1, -1)]

  /** Every leaf of the single-area tree is area 0, so its common area is 0. */
  lemma SingleAreaTree()
    ensures WellFormedTree(SINGLE_AREA_NODES) && LeavesInRange(SINGLE_AREA_NODES, 1)
    ensures AreasUnderNode(SINGLE_AREA_NODES, 0) == {0} && CommonArea(SINGLE_AREA_NODES, 0) == 0
  {
  }

  /**
   * ClearWorld: one area with no portals and one node over it, on a world
   * whose inter-area portals were freed.  Its numbers are exact at once.
   */
  method ClearWorld(w: PortalAreas) returns (nodes: seq<AreaNode>)
    requires w.doublePortals.Length == 0
    modifies w
    ensures nodes == SINGLE_AREA_NODES
    ensures w.areaPortals == [[]] && w.doublePortals == old(w.doublePortals) && fresh(w.areaConnected)
    ensures w.connectedAreaNum == 0
    ensures w.Valid() && w.WellLinked() && w.ConnectivityExact()
  {
    w.areaPortals := [[]];
    w.areaConnected := new int[1, NUM_PORTAL_ATTRIBUTES]((_, _) => 0);
    w.connectedAreaNum := 0;
    nodes := SINGLE_AREA_NODES;
    forall t | 0 <= t < NUM_PORTAL_ATTRIBUTES
      ensures ExactLabels(w.areaPortals, w.doublePortals[..], Mask(t), w.Columns()[t])
    {
      ReachableRefl(w.areaPortals, w.doublePortals[..], Mask(t), 0);
    }
  }
}
