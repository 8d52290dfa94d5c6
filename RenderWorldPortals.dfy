/**
 * The portal graph of a loaded map: the areas, the inter-area portals that
 * doors open and close, the connectivity numbers that answer
 * "are these two areas connected for sound/view/air?", the per-view
 * connected-area flood, the per-view caches of viewLights and viewEntitys,
 * and the recursion guard of the view flood through portals.
 *
 * Areas are numbered 0 .. |areaPortals|-1.  Each area keeps the list of
 * portals leading out of it, head first as the source links them; every
 * portal names the area it leads into and the double portal (the shared
 * record of the two directions of one inter-area portal) whose blocking
 * bits gate it.
 */
module RenderWorldPortals {
  import opened Bits

  const NUM_PORTAL_ATTRIBUTES: nat := 3

  const PS_BLOCK_NONE: bv32 := 0
  const PS_BLOCK_VIEW: bv32 := 1
  const PS_BLOCK_LOCATION: bv32 := 2
  const PS_BLOCK_AIR: bv32 := 4
  const PS_BLOCK_ALL: bv32 := 7

  const MAX_PORTAL_PLANES: nat := 20

  /** One direction of an inter-area portal. */
  datatype Portal = Portal(intoArea: nat, doublePortal: nat)

  /**
   * Both directions of one inter-area portal: portals[0] lives in the first
   * area and leads into intoArea0, portals[1] lives in the second area and
   * leads into intoArea1.  blockingBits is the bit pattern of the C int.
   */
  datatype DoublePortal = DoublePortal(intoArea0: nat, intoArea1: nat, blockingBits: bv32)

  /** The blocking bit of portal attribute `attr` (1 << attr). */
  function Mask(attr: nat): (m: bv32)
    requires attr < NUM_PORTAL_ATTRIBUTES
    ensures m == PS_BLOCK_VIEW || m == PS_BLOCK_LOCATION || m == PS_BLOCK_AIR
    ensures m != 0 && m & PS_BLOCK_ALL == m
  {
    if attr == 0 then PS_BLOCK_VIEW else if attr == 1 then PS_BLOCK_LOCATION else PS_BLOCK_AIR
  }

  // ---------------------------------------------------------------------
  // The portal graph as a mathematical object
  // ---------------------------------------------------------------------

  /** A portal lets `mask` through when its double portal has none of those bits set. */
  predicate PortalOpen(dps: seq<DoublePortal>, p: Portal, mask: bv32) {
    p.doublePortal < |dps| && Lets(dps[p.doublePortal].blockingBits, mask)
  }

  /** Blocking bits that let the flow of attribute mask through. */
  predicate Lets(blockingBits: bv32, mask: bv32) {
    blockingBits & mask == 0
  }

  /** Some open portal of area a leads into area b. */
  ghost predicate Step(areas: seq<seq<Portal>>, dps: seq<DoublePortal>, mask: bv32, a: nat, b: nat) {
    a < |areas| && exists j :: 0 <= j < |areas[a]| && areas[a][j].intoArea == b && PortalOpen(dps, areas[a][j], mask)
  }

  ghost predicate IsPath(areas: seq<seq<Portal>>, dps: seq<DoublePortal>, mask: bv32, p: seq<nat>) {
    |p| > 0 && forall i :: 0 <= i < |p| - 1 ==> Step(areas, dps, mask, p[i], p[i + 1])
  }

  /** Area `to` can be reached from `from` through portals open for `mask`. */
  ghost predicate Reachable(areas: seq<seq<Portal>>, dps: seq<DoublePortal>, mask: bv32, from: nat, to: nat) {
    exists p :: IsPath(areas, dps, mask, p) && p[0] == from && p[|p| - 1] == to
  }

  /** Every open portal out of an area of s leads into s. */
  ghost predicate Closed(areas: seq<seq<Portal>>, dps: seq<DoublePortal>, mask: bv32, s: set<nat>) {
    forall a, j :: a in s && a < |areas| && 0 <= j < |areas[a]| && PortalOpen(dps, areas[a][j], mask) ==> areas[a][j].intoArea in s
  }

  lemma ReachableRefl(areas: seq<seq<Portal>>, dps: seq<DoublePortal>, mask: bv32, a: nat)
    ensures Reachable(areas, dps, mask, a, a)
  {
    assert IsPath(areas, dps, mask, [a]);
  }

  /** Reachability extends through one more open portal. */
  lemma ReachableStep(areas: seq<seq<Portal>>, dps: seq<DoublePortal>, mask: bv32, from: nat, a: nat, j: nat)
    requires Reachable(areas, dps, mask, from, a)
    requires a < |areas| && j < |areas[a]| && PortalOpen(dps, areas[a][j], mask)
    ensures Reachable(areas, dps, mask, from, areas[a][j].intoArea)
  {
    var p :| IsPath(areas, dps, mask, p) && p[0] == from && p[|p| - 1] == a;
    var q := p + [areas[a][j].intoArea];
    assert Step(areas, dps, mask, a, areas[a][j].intoArea);
    forall i | 0 <= i < |q| - 1
      ensures Step(areas, dps, mask, q[i], q[i + 1])
    {
      if i + 1 < |p| {
        assert Step(areas, dps, mask, p[i], p[i + 1]);
      }
    }
    assert IsPath(areas, dps, mask, q);
  }

  lemma {:induction false} PathStaysIn(areas: seq<seq<Portal>>, dps: seq<DoublePortal>, mask: bv32, s: set<nat>, p: seq<nat>, k: nat)
    requires Closed(areas, dps, mask, s) && IsPath(areas, dps, mask, p) && p[0] in s && k < |p|
    ensures p[k] in s
  {
    if k > 0 {
      PathStaysIn(areas, dps, mask, s, p, k - 1);
      assert Step(areas, dps, mask, p[k - 1], p[k]);
      var j :| 0 <= j < |areas[p[k - 1]]| && areas[p[k - 1]][j].intoArea == p[k] && PortalOpen(dps, areas[p[k - 1]][j], mask);
    }
  }

  /** A closed set holding `from` holds everything reachable from it. */
  lemma ClosedHoldsReachable(areas: seq<seq<Portal>>, dps: seq<DoublePortal>, mask: bv32, s: set<nat>, from: nat, to: nat)
    requires Closed(areas, dps, mask, s) && from in s && Reachable(areas, dps, mask, from, to)
    ensures to in s
  {
    var p :| IsPath(areas, dps, mask, p) && p[0] == from && p[|p| - 1] == to;
    PathStaysIn(areas, dps, mask, s, p, |p| - 1);
  }

  /** Reachability through a sequence of paths is transitive. */
  lemma ReachableTrans(areas: seq<seq<Portal>>, dps: seq<DoublePortal>, mask: bv32, a: nat, b: nat, c: nat)
    requires Reachable(areas, dps, mask, a, b) && Reachable(areas, dps, mask, b, c)
    ensures Reachable(areas, dps, mask, a, c)
  {
    var p :| IsPath(areas, dps, mask, p) && p[0] == a && p[|p| - 1] == b;
    var q :| IsPath(areas, dps, mask, q) && q[0] == b && q[|q| - 1] == c;
    var r := p + q[1..];
    assert forall i :: 0 <= i < |r| ==> r[i] == (if i < |p| then p[i] else q[i - |p| + 1]);
    forall i | 0 <= i < |r| - 1
      ensures Step(areas, dps, mask, r[i], r[i + 1])
    {
      if i < |p| - 1 {
        assert Step(areas, dps, mask, p[i], p[i + 1]);
      } else {
        assert Step(areas, dps, mask, q[i - |p| + 1], q[i - |p| + 2]);
      }
    }
    assert IsPath(areas, dps, mask, r);
  }

  /** For each portal attribute, whether its bit is set in diff. */
  function AttrBits(diff: bv32): (c: seq<bool>)
    ensures |c| == NUM_PORTAL_ATTRIBUTES
  {
    [diff & PS_BLOCK_VIEW != 0, diff & PS_BLOCK_LOCATION != 0, diff & PS_BLOCK_AIR != 0]
  }

  /** Equal bit sets differ in no attribute. */
  lemma SameBitsChangeNothing(a: bv32)
    ensures AttrBits(a ^ a) == [false, false, false]
  {
    assert a ^ a == 0;
  }

  /** An attribute is flagged in the difference of two bit sets exactly when one lets it through and the other does not. */
  lemma AttrBitsFlip(a: bv32, b: bv32, t: nat)
    requires t < NUM_PORTAL_ATTRIBUTES
    ensures AttrBits(a ^ b)[t] <==> Lets(a, Mask(t)) != Lets(b, Mask(t))
  {
    var m := Mask(t);
    XorBit(a, b, m);
    assert AttrBits(a ^ b)[t] == ((a ^ b) & m != 0);
  }

  lemma XorBit(a: bv32, b: bv32, m: bv32)
    requires m == 1 || m == 2 || m == 4
    ensures ((a ^ b) & m != 0) <==> ((a & m == 0) != (b & m == 0))
  {
  }

  /**
   * Every portal has its way back: the area it leads into holds a portal
   * into this area through the same double portal.
   */
  ghost predicate Paired(areas: seq<seq<Portal>>) {
    forall a, j :: 0 <= a < |areas| && 0 <= j < |areas[a]| ==>
      areas[a][j].intoArea < |areas| && Portal(a, areas[a][j].doublePortal) in areas[areas[a][j].intoArea]
  }

  lemma StepReachable(areas: seq<seq<Portal>>, dps: seq<DoublePortal>, mask: bv32, a: nat, b: nat)
    requires Step(areas, dps, mask, a, b)
    ensures Reachable(areas, dps, mask, a, b)
  {
    assert IsPath(areas, dps, mask, [a, b]);
  }

  /** With paired portals, reachability runs both ways. */
  lemma ReachableSym(areas: seq<seq<Portal>>, dps: seq<DoublePortal>, mask: bv32, a: nat, b: nat)
    requires Paired(areas) && Reachable(areas, dps, mask, a, b)
    ensures Reachable(areas, dps, mask, b, a)
  {
    var p :| IsPath(areas, dps, mask, p) && p[0] == a && p[|p| - 1] == b;
    PathBack(areas, dps, mask, p, |p| - 1);
  }

  lemma {:induction false} PathBack(areas: seq<seq<Portal>>, dps: seq<DoublePortal>, mask: bv32, p: seq<nat>, k: nat)
    requires Paired(areas) && IsPath(areas, dps, mask, p) && k < |p|
    ensures Reachable(areas, dps, mask, p[k], p[0])
  {
    if k == 0 {
      ReachableRefl(areas, dps, mask, p[0]);
    } else {
      PathBack(areas, dps, mask, p, k - 1);
      assert Step(areas, dps, mask, p[k - 1], p[k]);
      var j :| 0 <= j < |areas[p[k - 1]]| && areas[p[k - 1]][j].intoArea == p[k] && PortalOpen(dps, areas[p[k - 1]][j], mask);
      var back := Portal(p[k - 1], areas[p[k - 1]][j].doublePortal);
      assert back in areas[p[k]];
      var i :| 0 <= i < |areas[p[k]]| && areas[p[k]][i] == back;
      assert Step(areas, dps, mask, p[k], p[k - 1]);
      StepReachable(areas, dps, mask, p[k], p[k - 1]);
      ReachableTrans(areas, dps, mask, p[k], p[k - 1], p[0]);
    }
  }

  /** Area x is reachable from one of the areas below i. */
  ghost predicate Covered(areas: seq<seq<Portal>>, dps: seq<DoublePortal>, mask: bv32, x: nat, i: nat) {
    exists p: nat :: p < i && Reachable(areas, dps, mask, p, x)
  }

  /**
   * The connectivity numbers of one attribute are right for every area
   * covered by the floods from the areas below i: two areas, one of them
   * covered, carry the same number exactly when one reaches the other.
   */
  ghost predicate Labelled(areas: seq<seq<Portal>>, dps: seq<DoublePortal>, mask: bv32, labels: seq<int>, i: nat)
    requires |labels| == |areas|
  {
    forall x: nat, y: nat :: x < |areas| && y < |areas| && (Covered(areas, dps, mask, x, i) || Covered(areas, dps, mask, y, i)) ==>
      (labels[x] == labels[y] <==> Reachable(areas, dps, mask, x, y))
  }

  /**
   * One more flood with a fresh number N from area i, which relabels
   * exactly the areas reachable from i, extends a correct labelling to the
   * areas covered from below i + 1.
   */
  lemma FloodExtendsLabelling(areas: seq<seq<Portal>>, dps: seq<DoublePortal>, mask: bv32, before: seq<int>, after: seq<int>, i: nat, n: int)
    requires Paired(areas) && |before| == |areas| && |after| == |areas| && i < |areas|
    requires Labelled(areas, dps, mask, before, i)
    requires forall x :: 0 <= x < |areas| ==> before[x] < n
    requires forall x: nat :: x < |areas| ==> (after[x] == n <==> Reachable(areas, dps, mask, i, x))
    requires forall x :: 0 <= x < |areas| && after[x] != n ==> after[x] == before[x]
    ensures Labelled(areas, dps, mask, after, i + 1)
  {
    forall x: nat, y: nat | x < |areas| && y < |areas| && (Covered(areas, dps, mask, x, i + 1) || Covered(areas, dps, mask, y, i + 1))
      ensures after[x] == after[y] <==> Reachable(areas, dps, mask, x, y)
    {
      var rx := Reachable(areas, dps, mask, i, x);
      var ry := Reachable(areas, dps, mask, i, y);
      if rx && ry {
        ReachableSym(areas, dps, mask, i, x);
        ReachableTrans(areas, dps, mask, x, i, y);
      } else if rx {
        if Reachable(areas, dps, mask, x, y) {
          ReachableTrans(areas, dps, mask, i, x, y);
        }
      } else if ry {
        if Reachable(areas, dps, mask, x, y) {
          ReachableSym(areas, dps, mask, x, y);
          ReachableTrans(areas, dps, mask, i, y, x);
        }
      } else {
        if Covered(areas, dps, mask, x, i + 1) {
          var p: nat :| p < i + 1 && Reachable(areas, dps, mask, p, x);
          assert p != i;
          assert Covered(areas, dps, mask, x, i);
        } else {
          var p: nat :| p < i + 1 && Reachable(areas, dps, mask, p, y);
          assert p != i;
          assert Covered(areas, dps, mask, y, i);
        }
      }
    }
  }

  /** Once the floods from all areas are done, the numbers are right for every pair of areas. */
  lemma LabelledAll(areas: seq<seq<Portal>>, dps: seq<DoublePortal>, mask: bv32, labels: seq<int>)
    requires |labels| == |areas| && Labelled(areas, dps, mask, labels, |areas|)
    ensures ExactLabels(areas, dps, mask, labels)
  {
    forall x: nat, y: nat | x < |areas| && y < |areas|
      ensures labels[x] == labels[y] <==> Reachable(areas, dps, mask, x, y)
    {
      ReachableRefl(areas, dps, mask, x);
      assert Covered(areas, dps, mask, x, |areas|);
    }
  }

  /** Two areas carry the same number exactly when one reaches the other. */
  ghost predicate ExactLabels(areas: seq<seq<Portal>>, dps: seq<DoublePortal>, mask: bv32, labels: seq<int>)
    requires |labels| == |areas|
  {
    forall x: nat, y: nat :: x < |areas| && y < |areas| ==> (labels[x] == labels[y] <==> Reachable(areas, dps, mask, x, y))
  }

  /** Exact numbers for all three attributes, one column per attribute. */
  ghost predicate ExactAll(areas: seq<seq<Portal>>, dps: seq<DoublePortal>, cols: seq<seq<int>>) {
    |cols| == NUM_PORTAL_ATTRIBUTES &&
    forall t :: 0 <= t < NUM_PORTAL_ATTRIBUTES ==> |cols[t]| == |areas| && ExactLabels(areas, dps, Mask(t), cols[t])
  }

  /**
   * The numbers after SetPortalState's floods: an attribute not flagged in
   * changed keeps its column; a flagged attribute t gets the fresh number
   * n0 + (flagged attributes up to t) on exactly the areas start reaches,
   * and keeps its old number everywhere else.
   */
  ghost predicate FloodRelabelled(areas: seq<seq<Portal>>, dps: seq<DoublePortal>, start: nat,
                                  before: seq<seq<int>>, after: seq<seq<int>>, n0: int, changed: seq<bool>)
  {
    |before| == NUM_PORTAL_ATTRIBUTES && |after| == NUM_PORTAL_ATTRIBUTES && |changed| == NUM_PORTAL_ATTRIBUTES &&
    forall t :: 0 <= t < NUM_PORTAL_ATTRIBUTES ==>
      |before[t]| == |areas| && |after[t]| == |areas| &&
      (!changed[t] ==> after[t] == before[t]) &&
      (changed[t] ==> forall x: nat :: x < |areas| ==>
         (after[t][x] == n0 + ChangedBefore(changed, t + 1) <==> Reachable(areas, dps, Mask(t), start, x)) &&
         (!Reachable(areas, dps, Mask(t), start, x) ==> after[t][x] == before[t][x]))
  }

  /**
   * Double portal d, which held dps0[d], got the blocking bits blockTypes:
   * only that door's bits changed; the counter grew by one per attribute
   * the change flipped, and the flood from the area behind the door
   * renumbered those columns (FloodRelabelled).
   */
  ghost predicate DoorChanged(areas: seq<seq<Portal>>, dps0: seq<DoublePortal>, dps1: seq<DoublePortal>, d: nat, blockTypes: bv32,
                              changed: seq<bool>, cols0: seq<seq<int>>, cols1: seq<seq<int>>, n0: int, n1: int)
  {
    d < |dps0| == |dps1| && |changed| == NUM_PORTAL_ATTRIBUTES &&
    dps1[d] == dps0[d].(blockingBits := blockTypes) &&
    (forall e :: 0 <= e < |dps0| && e != d ==> dps1[e] == dps0[e]) &&
    n1 == n0 + ChangedBefore(changed, NUM_PORTAL_ATTRIBUTES) &&
    FloodRelabelled(areas, dps1, dps1[d].intoArea1, cols0, cols1, n0, changed)
  }

  /** Storing the bits a door already has changes no door, no number and no counter. */
  lemma SameBitsChangeNothingAtAll(areas: seq<seq<Portal>>, dps0: seq<DoublePortal>, dps1: seq<DoublePortal>, d: nat, blockTypes: bv32,
                                   cols0: seq<seq<int>>, cols1: seq<seq<int>>, n0: int, n1: int)
    requires d < |dps0| && dps0[d].blockingBits == blockTypes
    requires DoorChanged(areas, dps0, dps1, d, blockTypes, AttrBits(dps0[d].blockingBits ^ blockTypes), cols0, cols1, n0, n1)
    ensures dps1 == dps0 && cols1 == cols0 && n1 == n0
  {
    SameBitsChangeNothing(blockTypes);
    assert dps1[d] == dps0[d];
    assert forall t :: 0 <= t < NUM_PORTAL_ATTRIBUTES ==> cols1[t] == cols0[t];
  }

  /** No number in the columns exceeds n. */
  ghost predicate AtMost(cols: seq<seq<int>>, n: int) {
    forall t, x :: 0 <= t < |cols| && 0 <= x < |cols[t]| ==> cols[t][x] <= n
  }

  /**
   * Each portal of double portal d lives in one of its two areas and leads
   * into the other: portals[0] lives in intoArea1 and leads into intoArea0,
   * portals[1] the other way round.
   */
  ghost predicate PortalEnds(areas: seq<seq<Portal>>, dps: seq<DoublePortal>) {
    forall a, j :: 0 <= a < |areas| && 0 <= j < |areas[a]| ==>
      areas[a][j].doublePortal < |dps| &&
      ((a == dps[areas[a][j].doublePortal].intoArea1 && areas[a][j].intoArea == dps[areas[a][j].doublePortal].intoArea0) ||
       (a == dps[areas[a][j].doublePortal].intoArea0 && areas[a][j].intoArea == dps[areas[a][j].doublePortal].intoArea1))
  }

  /** dps2 differs from dps at most in the blocking bits of double portal d. */
  predicate OnlyBitsOf(dps: seq<DoublePortal>, dps2: seq<DoublePortal>, d: nat) {
    |dps2| == |dps| && d < |dps| &&
    (forall e :: 0 <= e < |dps| && e != d ==> dps2[e] == dps[e]) &&
    dps2[d].intoArea0 == dps[d].intoArea0 && dps2[d].intoArea1 == dps[d].intoArea1
  }

  /** Changing blocking bits leaves the ends of every portal where they were. */
  lemma PortalEndsKept(areas: seq<seq<Portal>>, g1: seq<DoublePortal>, g2: seq<DoublePortal>, d: nat)
    requires PortalEnds(areas, g1) && OnlyBitsOf(g1, g2, d)
    ensures PortalEnds(areas, g2)
  {
  }

  /**
   * A path under g1 either is a path under g2 from some point m on, or it
   * has a first step g2 blocks, and g2 reaches the area that step leaves.
   */
  lemma {:induction false} PathOrBlockedStep(areas: seq<seq<Portal>>, g1: seq<DoublePortal>, g2: seq<DoublePortal>, mask: bv32, p: seq<nat>, m: nat)
    returns (blocked: bool, e: nat, f: nat)
    requires IsPath(areas, g1, mask, p) && m < |p|
    requires Reachable(areas, g2, mask, p[0], p[m])
    ensures !blocked ==> Reachable(areas, g2, mask, p[0], p[|p| - 1])
    ensures blocked ==> Reachable(areas, g2, mask, p[0], e) && Step(areas, g1, mask, e, f) && !Step(areas, g2, mask, e, f)
    decreases |p| - m
  {
    if m == |p| - 1 {
      return false, 0, 0;
    }
    assert Step(areas, g1, mask, p[m], p[m + 1]);
    if Step(areas, g2, mask, p[m], p[m + 1]) {
      StepReachable(areas, g2, mask, p[m], p[m + 1]);
      ReachableTrans(areas, g2, mask, p[0], p[m], p[m + 1]);
      blocked, e, f := PathOrBlockedStep(areas, g1, g2, mask, p, m + 1);
    } else {
      return true, p[m], p[m + 1];
    }
  }

  /** The same for reachability: g2 reaches y, or reaches the start of a step g2 blocks. */
  lemma ReachOrBlockedStep(areas: seq<seq<Portal>>, g1: seq<DoublePortal>, g2: seq<DoublePortal>, mask: bv32, x: nat, y: nat)
    returns (blocked: bool, e: nat, f: nat)
    requires Reachable(areas, g1, mask, x, y)
    ensures !blocked ==> Reachable(areas, g2, mask, x, y)
    ensures blocked ==> Reachable(areas, g2, mask, x, e) && Step(areas, g1, mask, e, f) && !Step(areas, g2, mask, e, f)
  {
    var p :| IsPath(areas, g1, mask, p) && p[0] == x && p[|p| - 1] == y;
    ReachableRefl(areas, g2, mask, x);
    blocked, e, f := PathOrBlockedStep(areas, g1, g2, mask, p, 0);
  }

  /** A step one state allows and the other blocks goes through the changed double portal. */
  lemma BlockedStepIsDoor(areas: seq<seq<Portal>>, g1: seq<DoublePortal>, g2: seq<DoublePortal>, mask: bv32, d: nat, e: nat, f: nat)
    requires PortalEnds(areas, g1) && OnlyBitsOf(g1, g2, d)
    requires Step(areas, g1, mask, e, f) && !Step(areas, g2, mask, e, f)
    ensures (e == g1[d].intoArea1 && f == g1[d].intoArea0) || (e == g1[d].intoArea0 && f == g1[d].intoArea1)
    ensures Lets(g1[d].blockingBits, mask) && !Lets(g2[d].blockingBits, mask)
  {
    var j :| 0 <= j < |areas[e]| && areas[e][j].intoArea == f && PortalOpen(g1, areas[e][j], mask);
    var q := areas[e][j];
    var k := q.doublePortal;
    assert (e == g1[k].intoArea1 && q.intoArea == g1[k].intoArea0) || (e == g1[k].intoArea0 && q.intoArea == g1[k].intoArea1);
  }

  /** When the changed double portal lets mask through before and after alike, reachability is unchanged. */
  lemma SameOpenSameReach(areas: seq<seq<Portal>>, g1: seq<DoublePortal>, g2: seq<DoublePortal>, mask: bv32, d: nat, x: nat, y: nat)
    requires PortalEnds(areas, g1) && OnlyBitsOf(g1, g2, d)
    requires Lets(g1[d].blockingBits, mask) == Lets(g2[d].blockingBits, mask)
    ensures Reachable(areas, g1, mask, x, y) <==> Reachable(areas, g2, mask, x, y)
  {
    if Reachable(areas, g1, mask, x, y) {
      var blocked, e, f := ReachOrBlockedStep(areas, g1, g2, mask, x, y);
      if blocked {
        BlockedStepIsDoor(areas, g1, g2, mask, d, e, f);
      }
    }
    if Reachable(areas, g2, mask, x, y) {
      assert PortalEnds(areas, g2);
      var blocked, e, f := ReachOrBlockedStep(areas, g2, g1, mask, x, y);
      if blocked {
        BlockedStepIsDoor(areas, g2, g1, mask, d, e, f);
      }
    }
  }

  /**
   * A door change: double portal d's bit for mask flips, and a flood with
   * a fresh number n from one of its areas relabels exactly what that area
   * now reaches.  With paired portals, numbers that answered reachability
   * before the change answer it after.
   */
  lemma DoorChangeRelabels(areas: seq<seq<Portal>>, g1: seq<DoublePortal>, g2: seq<DoublePortal>, mask: bv32, d: nat,
                           start: nat, before: seq<int>, after: seq<int>, n: int)
    requires Paired(areas) && PortalEnds(areas, g1) && OnlyBitsOf(g1, g2, d)
    requires start == g1[d].intoArea1 || start == g1[d].intoArea0
    requires |before| == |areas| && |after| == |areas|
    requires ExactLabels(areas, g1, mask, before)
    requires forall x :: 0 <= x < |areas| ==> before[x] < n
    requires forall x: nat :: x < |areas| ==> (after[x] == n <==> Reachable(areas, g2, mask, start, x))
    requires forall x :: 0 <= x < |areas| && after[x] != n ==> after[x] == before[x]
    ensures ExactLabels(areas, g2, mask, after)
  {
    assert PortalEnds(areas, g2);
    forall x: nat, y: nat | x < |areas| && y < |areas|
      ensures after[x] == after[y] <==> Reachable(areas, g2, mask, x, y)
    {
      var rx := Reachable(areas, g2, mask, start, x);
      var ry := Reachable(areas, g2, mask, start, y);
      if rx && ry {
        ReachableSym(areas, g2, mask, start, x);
        ReachableTrans(areas, g2, mask, x, start, y);
      } else if rx {
        if Reachable(areas, g2, mask, x, y) {
          ReachableTrans(areas, g2, mask, start, x, y);
        }
      } else if ry {
        if Reachable(areas, g2, mask, x, y) {
          ReachableSym(areas, g2, mask, x, y);
          ReachableTrans(areas, g2, mask, start, y, x);
        }
      } else {
        OutsideFloodSameReach(areas, g1, g2, mask, d, start, x, y);
      }
    }
  }

  /** Between two areas the flood from start does not reach, the door change changes no reachability. */
  lemma OutsideFloodSameReach(areas: seq<seq<Portal>>, g1: seq<DoublePortal>, g2: seq<DoublePortal>, mask: bv32, d: nat,
                              start: nat, x: nat, y: nat)
    requires Paired(areas) && PortalEnds(areas, g1) && OnlyBitsOf(g1, g2, d)
    requires start == g1[d].intoArea1 || start == g1[d].intoArea0
    requires !Reachable(areas, g2, mask, start, x) && !Reachable(areas, g2, mask, start, y)
    ensures Reachable(areas, g1, mask, x, y) <==> Reachable(areas, g2, mask, x, y)
  {
    if Reachable(areas, g1, mask, x, y) {
      OutsideFloodKeptPath(areas, g1, g2, mask, d, start, x, y);
    }
    if Reachable(areas, g2, mask, x, y) {
      OutsideFloodNoNewPath(areas, g1, g2, mask, d, start, x, y);
    }
  }

  /**
   * A path the change closes would, after the change, still lead from both
   * x and y to the far end of the closed door, so they stay connected.
   */
  lemma OutsideFloodKeptPath(areas: seq<seq<Portal>>, g1: seq<DoublePortal>, g2: seq<DoublePortal>, mask: bv32, d: nat,
                             start: nat, x: nat, y: nat)
    requires Paired(areas) && PortalEnds(areas, g1) && OnlyBitsOf(g1, g2, d)
    requires start == g1[d].intoArea1 || start == g1[d].intoArea0
    requires !Reachable(areas, g2, mask, start, x) && !Reachable(areas, g2, mask, start, y)
    requires Reachable(areas, g1, mask, x, y)
    ensures Reachable(areas, g2, mask, x, y)
  {
    var b1, e1, f1 := ReachOrBlockedStep(areas, g1, g2, mask, x, y);
    if b1 {
      BlockedStepIsDoor(areas, g1, g2, mask, d, e1, f1);
      NotStartEnd(areas, g2, mask, start, x, e1);
      ReachableSym(areas, g1, mask, x, y);
      var b2, e2, f2 := ReachOrBlockedStep(areas, g1, g2, mask, y, x);
      if b2 {
        BlockedStepIsDoor(areas, g1, g2, mask, d, e2, f2);
        NotStartEnd(areas, g2, mask, start, y, e2);
        ReachableSym(areas, g2, mask, y, e2);
        ReachableTrans(areas, g2, mask, x, e1, y);
      } else {
        ReachableSym(areas, g2, mask, y, x);
      }
    }
  }

  /**
   * A path the change opens passes through the opened door, whose ends the
   * flood from start reaches; so it cannot join two areas outside the flood.
   */
  lemma OutsideFloodNoNewPath(areas: seq<seq<Portal>>, g1: seq<DoublePortal>, g2: seq<DoublePortal>, mask: bv32, d: nat,
                              start: nat, x: nat, y: nat)
    requires Paired(areas) && PortalEnds(areas, g1) && OnlyBitsOf(g1, g2, d)
    requires start == g1[d].intoArea1 || start == g1[d].intoArea0
    requires !Reachable(areas, g2, mask, start, x)
    requires Reachable(areas, g2, mask, x, y)
    ensures Reachable(areas, g1, mask, x, y)
  {
    assert PortalEnds(areas, g2);
    var b, e, f := ReachOrBlockedStep(areas, g2, g1, mask, x, y);
    if b {
      BlockedStepIsDoor(areas, g2, g1, mask, d, e, f);
      StepReachable(areas, g2, mask, e, f);
      ReachableTrans(areas, g2, mask, x, e, f);
      if e == start {
        ReachableSym(areas, g2, mask, x, e);
      } else {
        ReachableSym(areas, g2, mask, x, f);
      }
    }
  }

  /** An area reached from x is not start when start does not reach x. */
  lemma NotStartEnd(areas: seq<seq<Portal>>, g: seq<DoublePortal>, mask: bv32, start: nat, x: nat, e: nat)
    requires Paired(areas) && Reachable(areas, g, mask, x, e) && !Reachable(areas, g, mask, start, x)
    ensures e != start
  {
    if e == start {
      ReachableSym(areas, g, mask, x, e);
    }
  }

  /**
   * A door change keeps the numbers exact: attributes whose bit did not
   * change keep both their numbers and their reachability, and a changed
   * attribute is relabelled by one flood from an end of the door.
   */
  lemma DoorChangeKeepsExact(areas: seq<seq<Portal>>, g1: seq<DoublePortal>, g2: seq<DoublePortal>, d: nat,
                             oldBits: bv32, newBits: bv32,
                             before: seq<seq<int>>, after: seq<seq<int>>, n0: int, changed: seq<bool>)
    requires Paired(areas) && PortalEnds(areas, g1) && OnlyBitsOf(g1, g2, d)
    requires ExactAll(areas, g1, before) && AtMost(before, n0)
    requires FloodRelabelled(areas, g2, g1[d].intoArea1, before, after, n0, changed)
    requires g1[d].blockingBits == oldBits && g2[d].blockingBits == newBits && changed == AttrBits(oldBits ^ newBits)
    ensures ExactAll(areas, g2, after)
  {
    forall t | 0 <= t < NUM_PORTAL_ATTRIBUTES
      ensures ExactLabels(areas, g2, Mask(t), after[t])
    {
      AttrBitsFlip(oldBits, newBits, t);
      if changed[t] {
        DoorChangeRelabels(areas, g1, g2, Mask(t), d, g1[d].intoArea1, before[t], after[t], n0 + ChangedBefore(changed, t + 1));
      } else {
        forall x: nat, y: nat | x < |areas| && y < |areas|
          ensures Reachable(areas, g1, Mask(t), x, y) <==> Reachable(areas, g2, Mask(t), x, y)
        {
          SameOpenSameReach(areas, g1, g2, Mask(t), d, x, y);
        }
      }
    }
  }

  /** How many of the first i attributes are flagged in changed. */
  function ChangedBefore(changed: seq<bool>, i: nat): (n: nat)
    requires i <= |changed|
    ensures n <= i
    ensures (forall t :: 0 <= t < i ==> !changed[t]) ==> n == 0
  {
    if i == 0 then 0 else ChangedBefore(changed, i - 1) + (if changed[i - 1] then 1 else 0)
  }

  // ---------------------------------------------------------------------
  // The portal state of a world
  // ---------------------------------------------------------------------

  /**
   * The portal part of a render world: the portal lists of the areas, the
   * double portals (handle h is doublePortals[h-1]), the flood counter and
   * each area's connectivity number for each portal attribute.
   */
  class PortalAreas {
    var areaPortals: seq<seq<Portal>>
    var doublePortals: array<DoublePortal>
    var connectedAreaNum: int
    var areaConnected: array2<int>

    ghost predicate Valid()
      reads this, doublePortals, areaConnected
    {
      areaConnected.Length0 == |areaPortals| && areaConnected.Length1 == NUM_PORTAL_ATTRIBUTES &&
      (forall a, j :: 0 <= a < |areaPortals| && 0 <= j < |areaPortals[a]| ==>
         areaPortals[a][j].intoArea < |areaPortals| && areaPortals[a][j].doublePortal < doublePortals.Length) &&
      (forall d :: 0 <= d < doublePortals.Length ==>
         doublePortals[d].intoArea0 < |areaPortals| && doublePortals[d].intoArea1 < |areaPortals|) &&
      (forall a, t :: 0 <= a < areaConnected.Length0 && 0 <= t < areaConnected.Length1 ==> areaConnected[a, t] <= connectedAreaNum)
    }

    /** The connectivity numbers of attribute t, area by area. */
    ghost function Column(t: nat): (c: seq<int>)
      reads this, areaConnected
      requires areaConnected.Length0 == |areaPortals| && t < areaConnected.Length1
      ensures |c| == |areaPortals| && forall x :: 0 <= x < |c| ==> c[x] == areaConnected[x, t]
    {
      seq(|areaPortals|, x requires 0 <= x < areaConnected.Length0 && t < areaConnected.Length1 reads this, areaConnected => areaConnected[x, t])
    }

    /** The connectivity numbers, one column per attribute. */
    ghost function Columns(): (c: seq<seq<int>>)
      reads this, areaConnected
      requires areaConnected.Length0 == |areaPortals| && areaConnected.Length1 == NUM_PORTAL_ATTRIBUTES
      ensures |c| == NUM_PORTAL_ATTRIBUTES && forall t :: 0 <= t < NUM_PORTAL_ATTRIBUTES ==> c[t] == Column(t)
    {
      [Column(0), Column(1), Column(2)]
    }

    /**
     * The connectivity numbers answer reachability: for every attribute,
     * two areas carry the same number exactly when the portals open for
     * that attribute lead from one to the other.
     */
    ghost predicate ConnectivityExact()
      reads this, doublePortals, areaConnected
      requires Valid()
    {
      ExactAll(areaPortals, doublePortals[..], Columns())
    }

    /**
     * The portal lists are linked as the map loader builds them: every
     * portal has its way back, and lives in one of the two areas of its
     * double portal, leading into the other.
     */
    ghost predicate WellLinked()
      reads this, doublePortals
    {
      Paired(areaPortals) && PortalEnds(areaPortals, doublePortals[..])
    }

    /** The areas not yet carrying the current flood number for attr. */
    ghost function Unmarked(attr: nat): set<nat>
      reads this, areaConnected
      requires attr < areaConnected.Length1
    {
      set x: nat | x < areaConnected.Length0 && areaConnected[x, attr] != connectedAreaNum
    }

    /** Every portal out of x that is open for attr leads into an area with the current flood number. */
    ghost predicate FloodClosedAt(x: nat, attr: nat)
      reads this, doublePortals, areaConnected
      requires Valid() && x < |areaPortals| && attr < NUM_PORTAL_ATTRIBUTES
    {
      forall j :: 0 <= j < |areaPortals[x]| && PortalOpen(doublePortals[..], areaPortals[x][j], Mask(attr)) ==>
        areaConnected[areaPortals[x][j].intoArea, attr] == connectedAreaNum
    }

    /**
     * Depth-first flood of the current flood number through the portals
     * open for attribute attr.  Every area it marks is reachable from root,
     * only column attr changes, marks are never removed, and every area it
     * newly marks has all its open neighbours marked.
     */
    method FloodConnectedAreas(area: nat, attr: nat, ghost root: nat)
      requires Valid() && area < |areaPortals| && attr < NUM_PORTAL_ATTRIBUTES
      requires Reachable(areaPortals, doublePortals[..], Mask(attr), root, area)
      requires forall x :: 0 <= x < |areaPortals| && areaConnected[x, attr] == connectedAreaNum ==>
                 Reachable(areaPortals, doublePortals[..], Mask(attr), root, x)
      modifies areaConnected
      ensures Valid()
      ensures areaConnected[area, attr] == connectedAreaNum
      ensures forall x, t :: 0 <= x < |areaPortals| && 0 <= t < NUM_PORTAL_ATTRIBUTES && areaConnected[x, t] != old(areaConnected[x, t]) ==>
                t == attr && areaConnected[x, t] == connectedAreaNum
      ensures forall x :: 0 <= x < |areaPortals| && areaConnected[x, attr] == connectedAreaNum ==>
                Reachable(areaPortals, doublePortals[..], Mask(attr), root, x)
      ensures forall x :: 0 <= x < |areaPortals| && areaConnected[x, attr] == connectedAreaNum && old(areaConnected[x, attr]) != connectedAreaNum ==>
                FloodClosedAt(x, attr)
      decreases Unmarked(attr)
    {
      if areaConnected[area, attr] == connectedAreaNum {
        return;
      }
      areaConnected[area, attr] := connectedAreaNum;
      var portals := areaPortals[area];
      var i := 0;
      while i < |portals|
        invariant 0 <= i <= |portals|
        invariant Valid()
        invariant areaConnected[area, attr] == connectedAreaNum
        invariant forall x, t :: 0 <= x < |areaPortals| && 0 <= t < NUM_PORTAL_ATTRIBUTES && areaConnected[x, t] != old(areaConnected[x, t]) ==>
                    t == attr && areaConnected[x, t] == connectedAreaNum
        invariant forall x :: 0 <= x < |areaPortals| && areaConnected[x, attr] == connectedAreaNum ==>
                    Reachable(areaPortals, doublePortals[..], Mask(attr), root, x)
        invariant forall x :: 0 <= x < |areaPortals| && x != area && areaConnected[x, attr] == connectedAreaNum && old(areaConnected[x, attr]) != connectedAreaNum ==>
                    FloodClosedAt(x, attr)
        invariant forall k :: 0 <= k < i && PortalOpen(doublePortals[..], portals[k], Mask(attr)) ==>
                    areaConnected[portals[k].intoArea, attr] == connectedAreaNum
        invariant Unmarked(attr) <= old(Unmarked(attr)) - {area}
      {
        var p := portals[i];
        if Lets(doublePortals[p.doublePortal].blockingBits, Mask(attr)) {
          ReachableStep(areaPortals, doublePortals[..], Mask(attr), root, area, i);
          FloodConnectedAreas(p.intoArea, attr, root);
        }
        i := i + 1;
      }
    }

    /**
     * The blocking bits of portal handle `portal`: 0 for handle 0, None (an
     * Error in the source) outside [1, number of inter-area portals].
     */
    function GetPortalState(portal: int): (r: Option<bv32>)
      reads this, doublePortals
      ensures r.None? <==> portal < 0 || portal > doublePortals.Length
      ensures portal == 0 ==> r == Some(PS_BLOCK_NONE)
    {
      if portal == 0 then Some(PS_BLOCK_NONE)
      else if portal < 1 || portal > doublePortals.Length then None
      else Some(doublePortals[portal - 1].blockingBits)
    }

    /**
     * Stores new blocking bits on portal handle `portal` and, for each
     * attribute whose bit changed, floods a fresh number from the area the
     * second direction of the portal leads into (FloodRelabelled).  ok is
     * false where the source raises an Error; nothing changes then, nor for
     * handle 0.  On well-linked portal lists, numbers that answered
     * reachability before the change still answer it afterwards.
     */
    method SetPortalState(portal: int, blockTypes: bv32) returns (ok: bool)
      requires Valid()
      modifies this, doublePortals, areaConnected
      ensures Valid()
      ensures areaPortals == old(areaPortals) && doublePortals == old(doublePortals) && areaConnected == old(areaConnected)
      ensures ok <==> 0 <= portal <= doublePortals.Length
      ensures !ok || portal == 0 ==>
                doublePortals[..] == old(doublePortals[..]) && connectedAreaNum == old(connectedAreaNum) && Columns() == old(Columns())
      ensures ok && portal != 0 ==> GetPortalState(portal) == Some(blockTypes)
      ensures ok && portal != 0 ==>
                DoorChanged(areaPortals, old(doublePortals[..]), doublePortals[..], portal - 1, blockTypes,
                            AttrBits(old(doublePortals[portal - 1].blockingBits) ^ blockTypes),
                            old(Columns()), Columns(), old(connectedAreaNum), connectedAreaNum)
      ensures old(WellLinked()) ==> WellLinked()
      ensures old(WellLinked() && ConnectivityExact()) ==> ConnectivityExact()
    {
      if portal == 0 {
        return true;
      }
      if portal < 1 || portal > doublePortals.Length {
        return false;
      }
      ok := true;
      SetDoublePortalState(portal - 1, blockTypes);
    }

    /**
     * The valid-handle part of SetPortalState on double portal d, with the
     * proofs that the portal graph stays well linked and exact numbers stay
     * exact.
     */
    method SetDoublePortalState(d: nat, blockTypes: bv32)
      requires Valid() && d < doublePortals.Length
      modifies this, doublePortals, areaConnected
      ensures Valid()
      ensures areaPortals == old(areaPortals) && doublePortals == old(doublePortals) && areaConnected == old(areaConnected)
      ensures DoorChanged(areaPortals, old(doublePortals[..]), doublePortals[..], d, blockTypes,
                          AttrBits(old(doublePortals[d].blockingBits) ^ blockTypes),
                          old(Columns()), Columns(), old(connectedAreaNum), connectedAreaNum)
      ensures old(WellLinked()) ==> WellLinked()
      ensures old(WellLinked() && ConnectivityExact()) ==> ConnectivityExact()
    {
      ghost var g1 := doublePortals[..];
      ghost var before := Columns();
      ghost var n0 := connectedAreaNum;
      ghost var oldBits := doublePortals[d].blockingBits;
      assert AtMost(before, n0);
      var changed := ChangeDoor(d, blockTypes);
      if old(WellLinked()) {
        assert OnlyBitsOf(g1, doublePortals[..], d);
        PortalEndsKept(areaPortals, g1, doublePortals[..], d);
        if old(ConnectivityExact()) {
          DoorChangeKeepsExact(areaPortals, g1, doublePortals[..], d, oldBits, blockTypes, before, Columns(), n0, changed);
        }
      }
    }

    /** ChangeDoublePortal, with its outcome summed up as DoorChanged. */
    method ChangeDoor(d: nat, blockTypes: bv32) returns (changed: seq<bool>)
      requires Valid() && d < doublePortals.Length
      modifies this, doublePortals, areaConnected
      ensures Valid()
      ensures areaPortals == old(areaPortals) && doublePortals == old(doublePortals) && areaConnected == old(areaConnected)
      ensures doublePortals[d] == old(doublePortals[d]).(blockingBits := blockTypes)
      ensures forall e :: 0 <= e < doublePortals.Length && e != d ==> doublePortals[e] == old(doublePortals[e])
      ensures changed == AttrBits(old(doublePortals[d].blockingBits) ^ blockTypes)
      ensures connectedAreaNum == old(connectedAreaNum) + ChangedBefore(changed, NUM_PORTAL_ATTRIBUTES)
      ensures FloodRelabelled(areaPortals, doublePortals[..], doublePortals[d].intoArea1, old(Columns()), Columns(),
                              old(connectedAreaNum), changed)
      ensures DoorChanged(areaPortals, old(doublePortals[..]), doublePortals[..], d, blockTypes, changed,
                          old(Columns()), Columns(), old(connectedAreaNum), connectedAreaNum)
    {
      changed := ChangeDoublePortal(d, blockTypes);
    }

    /** SetPortalState on double portal d, once the handle is known to be valid. */
    method ChangeDoublePortal(d: nat, blockTypes: bv32) returns (changed: seq<bool>)
      requires Valid() && d < doublePortals.Length
      modifies this, doublePortals, areaConnected
      ensures Valid()
      ensures areaPortals == old(areaPortals) && doublePortals == old(doublePortals) && areaConnected == old(areaConnected)
      ensures doublePortals[d] == old(doublePortals[d]).(blockingBits := blockTypes)
      ensures forall e :: 0 <= e < doublePortals.Length && e != d ==> doublePortals[e] == old(doublePortals[e])
      ensures changed == AttrBits(old(doublePortals[d].blockingBits) ^ blockTypes)
      ensures connectedAreaNum == old(connectedAreaNum) + ChangedBefore(changed, NUM_PORTAL_ATTRIBUTES)
      ensures FloodRelabelled(areaPortals, doublePortals[..], doublePortals[d].intoArea1, old(Columns()), Columns(),
                              old(connectedAreaNum), changed)
    {
      var oldBits := doublePortals[d].blockingBits;
      changed := AttrBits(oldBits ^ blockTypes);
      if oldBits == blockTypes {
        assert changed == [false, false, false];
        return;
      }
      ghost var before := Columns();
      ghost var n0 := connectedAreaNum;
      doublePortals[d] := doublePortals[d].(blockingBits := blockTypes);
      assert Columns() == before;
      var start := doublePortals[d].intoArea1;
      FloodChangedAttributes(start, changed);
      assert FloodRelabelled(areaPortals, doublePortals[..], start, before, Columns(), n0, changed);
      assert start == doublePortals[d].intoArea1 && before == old(Columns()) && n0 == old(connectedAreaNum);
    }

    /**
     * The flood loop of SetPortalState: one fresh number and one flood from
     * start for each attribute flagged in changed.
     */
    method FloodChangedAttributes(start: nat, changed: seq<bool>)
      requires Valid() && start < |areaPortals| && |changed| == NUM_PORTAL_ATTRIBUTES
      modifies this, areaConnected
      ensures Valid()
      ensures areaPortals == old(areaPortals) && doublePortals == old(doublePortals) && areaConnected == old(areaConnected)
      ensures connectedAreaNum == old(connectedAreaNum) + ChangedBefore(changed, NUM_PORTAL_ATTRIBUTES)
      ensures FloodRelabelled(areaPortals, doublePortals[..], start, old(Columns()), Columns(), old(connectedAreaNum), changed)
    {
      ghost var before := Columns();
      for i := 0 to NUM_PORTAL_ATTRIBUTES
        invariant areaPortals == old(areaPortals) && doublePortals == old(doublePortals) && areaConnected == old(areaConnected)
        invariant Valid()
        invariant connectedAreaNum == old(connectedAreaNum) + ChangedBefore(changed, i)
        invariant forall x, t :: 0 <= x < |areaPortals| && 0 <= t < NUM_PORTAL_ATTRIBUTES && (i <= t || !changed[t]) ==>
                    areaConnected[x, t] == old(areaConnected[x, t])
        invariant forall x, t :: 0 <= x < |areaPortals| && 0 <= t < i && changed[t] ==>
                    (areaConnected[x, t] == old(connectedAreaNum) + ChangedBefore(changed, t + 1) <==>
                     Reachable(areaPortals, doublePortals[..], Mask(t), start, x)) &&
                    (!Reachable(areaPortals, doublePortals[..], Mask(t), start, x) ==> areaConnected[x, t] == old(areaConnected[x, t]))
      {
        if changed[i] {
          connectedAreaNum := connectedAreaNum + 1;
          ReachableRefl(areaPortals, doublePortals[..], Mask(i), start);
          FloodConnectedAreas(start, i, start);
          FloodIsExact(start, i);
        }
      }
      forall t | 0 <= t < NUM_PORTAL_ATTRIBUTES && !changed[t]
        ensures Column(t) == before[t]
      {
      }
    }

    /**
     * After a flood with a fresh number, the areas carrying the number are
     * closed under open portals, so they include everything reachable.
     */
    lemma FloodIsExact(start: nat, attr: nat)
      requires Valid() && start < |areaPortals| && attr < NUM_PORTAL_ATTRIBUTES
      requires areaConnected[start, attr] == connectedAreaNum
      requires forall x :: 0 <= x < |areaPortals| && areaConnected[x, attr] == connectedAreaNum ==> FloodClosedAt(x, attr)
      ensures forall x :: 0 <= x < |areaPortals| && Reachable(areaPortals, doublePortals[..], Mask(attr), start, x) ==>
                areaConnected[x, attr] == connectedAreaNum
    {
      var marked := set x: nat | x < |areaPortals| && areaConnected[x, attr] == connectedAreaNum;
      forall a, j | a in marked && a < |areaPortals| && 0 <= j < |areaPortals[a]| && PortalOpen(doublePortals[..], areaPortals[a][j], Mask(attr))
        ensures areaPortals[a][j].intoArea in marked
      {
        assert FloodClosedAt(a, attr);
      }
      forall x | 0 <= x < |areaPortals| && Reachable(areaPortals, doublePortals[..], Mask(attr), start, x)
        ensures areaConnected[x, attr] == connectedAreaNum
      {
        ClosedHoldsReachable(areaPortals, doublePortals[..], Mask(attr), marked, start, x);
      }
    }

    /**
     * Whether two areas are connected for the attribute named by the single
     * bit `connection`.  -1 for either area gives false; an area outside
     * [0, number of areas) or a connection that is not one of the three
     * attribute bits is an Error (None).  Otherwise the answer is whether
     * both areas carry the same connectivity number for that attribute.
     */
    method AreasAreConnected(areaNum1: int, areaNum2: int, connection: int) returns (r: Option<bool>)
      requires Valid()
      ensures areaNum1 == -1 || areaNum2 == -1 ==> r == Some(false)
      ensures areaNum1 != -1 && areaNum2 != -1 && !AreaRangeCheck(areaNum1, areaNum2, |areaPortals|) ==> r.None?
      ensures areaNum1 != -1 && areaNum2 != -1 && AreaRangeCheck(areaNum1, areaNum2, |areaPortals|) ==>
                (r.Some? <==> connection == 1 || connection == 2 || connection == 4)
      ensures areaNum1 != -1 && areaNum2 != -1 && r.Some? ==>
                0 <= areaNum1 < |areaPortals| && 0 <= areaNum2 < |areaPortals| &&
                r.value == (areaConnected[areaNum1, ConnectionIndex(connection)] == areaConnected[areaNum2, ConnectionIndex(connection)])
      ensures areaNum1 != -1 && areaNum2 != -1 && r.Some? && ConnectivityExact() ==>
                r.value == Reachable(areaPortals, doublePortals[..], Mask(ConnectionIndex(connection)), areaNum1, areaNum2)
    {
      if areaNum1 == -1 || areaNum2 == -1 {
        return Some(false);
      }
      if !AreaRangeCheck(areaNum1, areaNum2, |areaPortals|) {
        return None;
      }
      var attribute, ok := ConnectionAttribute(connection);
      if !ok {
        return None;
      }
      r := Some(areaConnected[areaNum1, attribute] == areaConnected[areaNum2, attribute]);
    }

    /**
     * Marks in `connected` every area reachable from root through portals
     * that do not block the view; the same depth-first flood as
     * FloodConnectedAreas over a per-view array of flags.
     */
    method BuildConnectedAreasFrom(area: nat, connected: array<bool>, ghost root: nat)
      requires Valid() && connected.Length == |areaPortals| && area < |areaPortals|
      requires Reachable(areaPortals, doublePortals[..], PS_BLOCK_VIEW, root, area)
      requires forall x :: 0 <= x < connected.Length && connected[x] ==> Reachable(areaPortals, doublePortals[..], PS_BLOCK_VIEW, root, x)
      modifies connected
      ensures connected[area]
      ensures forall x :: 0 <= x < connected.Length && old(connected[x]) ==> connected[x]
      ensures forall x :: 0 <= x < connected.Length && connected[x] ==> Reachable(areaPortals, doublePortals[..], PS_BLOCK_VIEW, root, x)
      ensures forall x :: 0 <= x < connected.Length && connected[x] && !old(connected[x]) ==> ViewClosedAt(connected, x)
      decreases set x: nat | x < connected.Length && !connected[x]
    {
      if connected[area] {
        return;
      }
      connected[area] := true;
      var portals := areaPortals[area];
      var i := 0;
      while i < |portals|
        invariant 0 <= i <= |portals|
        invariant connected[area]
        invariant forall x :: 0 <= x < connected.Length && old(connected[x]) ==> connected[x]
        invariant forall x :: 0 <= x < connected.Length && connected[x] ==> Reachable(areaPortals, doublePortals[..], PS_BLOCK_VIEW, root, x)
        invariant forall x :: 0 <= x < connected.Length && x != area && connected[x] && !old(connected[x]) ==> ViewClosedAt(connected, x)
        invariant forall k :: 0 <= k < i && PortalOpen(doublePortals[..], portals[k], PS_BLOCK_VIEW) ==> connected[portals[k].intoArea]
        invariant (set x: nat | x < connected.Length && !connected[x]) <= (set x: nat | x < connected.Length && !old(connected[x])) - {area}
      {
        var p := portals[i];
        if Lets(doublePortals[p.doublePortal].blockingBits, PS_BLOCK_VIEW) {
          ReachableStep(areaPortals, doublePortals[..], PS_BLOCK_VIEW, root, area, i);
          BuildConnectedAreasFrom(p.intoArea, connected, root);
        }
        i := i + 1;
      }
    }

    /** Every portal out of x that lets the view through leads into a flagged area. */
    ghost predicate ViewClosedAt(connected: array<bool>, x: nat)
      reads this, doublePortals, areaConnected, connected
      requires Valid() && connected.Length == |areaPortals| && x < |areaPortals|
    {
      forall j :: 0 <= j < |areaPortals[x]| && PortalOpen(doublePortals[..], areaPortals[x][j], PS_BLOCK_VIEW) ==>
        connected[areaPortals[x][j].intoArea]
    }

    /**
     * The per-view connected-area flags: all areas when the view is outside
     * the world (area -1), otherwise exactly the areas reachable from the
     * view area through portals that do not block the view.
     */
    method BuildConnectedAreas(viewAreaNum: int) returns (connected: array<bool>)
      requires Valid()
      requires viewAreaNum == -1 || 0 <= viewAreaNum < |areaPortals|
      ensures fresh(connected) && connected.Length == |areaPortals|
      ensures viewAreaNum == -1 ==> forall a :: 0 <= a < connected.Length ==> connected[a]
      ensures viewAreaNum != -1 ==>
                forall a :: 0 <= a < connected.Length ==> (connected[a] <==> Reachable(areaPortals, doublePortals[..], PS_BLOCK_VIEW, viewAreaNum, a))
    {
      if viewAreaNum == -1 {
        connected := new bool[|areaPortals|](_ => true);
        return;
      }
      connected := new bool[|areaPortals|](_ => false);
      ReachableRefl(areaPortals, doublePortals[..], PS_BLOCK_VIEW, viewAreaNum);
      BuildConnectedAreasFrom(viewAreaNum, connected, viewAreaNum);
      var marked := set x: nat | x < connected.Length && connected[x];
      forall a, j | a in marked && a < |areaPortals| && 0 <= j < |areaPortals[a]| && PortalOpen(doublePortals[..], areaPortals[a][j], PS_BLOCK_VIEW)
        ensures areaPortals[a][j].intoArea in marked
      {
        assert ViewClosedAt(connected, a);
      }
      forall x | 0 <= x < connected.Length && Reachable(areaPortals, doublePortals[..], PS_BLOCK_VIEW, viewAreaNum, x)
        ensures connected[x]
      {
        ClosedHoldsReachable(areaPortals, doublePortals[..], PS_BLOCK_VIEW, marked, viewAreaNum, x);
      }
    }

    /** Every portal of the map, named by its area and its place in that area's list. */
    ghost function AllPortalRefs(): set<PortalRef>
      reads this
    {
      set a: nat, j: nat | a < |areaPortals| && j < |areaPortals[a]| :: PortalRef(a, j)
    }

    /**
     * The view flood through the portals from area, given the stack of
     * portals already passed through.  It adds area to the view, then goes
     * through each portal of the area that does not block the view, faces
     * away from the view, is not already on the stack and (unless the view is
     * very close to it) stays visible after clipping and fog; the recursive
     * call gets the stack extended by that portal.  The result lists the
     * areas added to the view in the order they are added.  Every one of them
     * is reachable from root through portals that let the view through.
     */
    method FloodViewThroughArea(area: nat, stack: seq<PortalRef>, numPlanes: nat, g: PortalGeometry, ghost root: nat)
      returns (added: seq<nat>)
      requires Valid() && area < |areaPortals|
      requires Distinct(stack)
      requires numPlanes <= MAX_PORTAL_PLANES + 1
      requires Reachable(areaPortals, doublePortals[..], PS_BLOCK_VIEW, root, area)
      ensures |added| >= 1 && added[0] == area
      ensures forall k :: 0 <= k < |added| ==> added[k] < |areaPortals| && Reachable(areaPortals, doublePortals[..], PS_BLOCK_VIEW, root, added[k])
      decreases AllPortalRefs() - set r | r in stack
    {
      added := [area];
      var portals := areaPortals[area];
      for j := 0 to |portals|
        invariant |added| >= 1 && added[0] == area
        invariant forall k :: 0 <= k < |added| ==> added[k] < |areaPortals| && Reachable(areaPortals, doublePortals[..], PS_BLOCK_VIEW, root, added[k])
      {
        var p := portals[j];
        var here := PortalRef(area, j);
        if Lets(doublePortals[p.doublePortal].blockingBits, PS_BLOCK_VIEW) && g.side(here) != Behind {
          var onStack := OnStack(stack, here);
          if !onStack {
            var visible := g.side(here) == Close || (g.clippedPoints(stack, here) > 0 && !g.fogged(here));
            if visible {
              var planes := numPlanes;
              if g.side(here) != Close {
                planes := PortalPlaneCount(g.clippedPoints(stack, here), here, g);
              }
              assert here in AllPortalRefs();
              assert (set r | r in stack + [here]) == (set r | r in stack) + {here};
              ReachableStep(areaPortals, doublePortals[..], PS_BLOCK_VIEW, root, area, j);
              var sub := FloodViewThroughArea(p.intoArea, stack + [here], planes, g, root);
              added := added + sub;
            }
          }
        }
      }
    }

    /**
     * The view flood from the view's area; a view outside the world
     * (negative area) adds every area, in order.
     */
    method FlowViewThroughPortals(viewAreaNum: int, numPlanes: nat, g: PortalGeometry) returns (added: seq<nat>)
      requires Valid() && viewAreaNum < |areaPortals|
      requires numPlanes <= MAX_PORTAL_PLANES
      ensures viewAreaNum < 0 ==> |added| == |areaPortals| && forall k :: 0 <= k < |added| ==> added[k] == k
      ensures viewAreaNum >= 0 ==>
                |added| >= 1 && added[0] == viewAreaNum &&
                forall k :: 0 <= k < |added| ==> Reachable(areaPortals, doublePortals[..], PS_BLOCK_VIEW, viewAreaNum, added[k])
    {
      if viewAreaNum < 0 {
        added := [];
        for i := 0 to |areaPortals|
          invariant |added| == i && forall k :: 0 <= k < i ==> added[k] == k
        {
          added := added + [i];
        }
      } else {
        ReachableRefl(areaPortals, doublePortals[..], PS_BLOCK_VIEW, viewAreaNum);
        added := FloodViewThroughArea(viewAreaNum, [], numPlanes, g, viewAreaNum);
      }
    }
  }

  /** The corrected area range check: both areas index the area array. */
  predicate AreaRangeCheck(areaNum1: int, areaNum2: int, numAreas: nat) {
    !(areaNum1 >= numAreas || areaNum2 >= numAreas || areaNum1 < 0 || areaNum2 < 0)
  }

  /** The area range check of AreasAreConnected as the source writes it, with `>`. */
  predicate AreaRangeCheckAsWritten(areaNum1: int, areaNum2: int, numAreas: nat) {
    !(areaNum1 > numAreas || areaNum2 > numAreas || areaNum1 < 0 || areaNum2 < 0)
  }

  /**
   * The range test as written lets an area number equal to the number of areas
   * through, one past the last area, which the lookup then reads.
   */
  lemma AreaRangeCheckAdmitsCountAsWritten(numAreas: nat)
    ensures AreaRangeCheckAsWritten(numAreas, 0, numAreas)
    ensures !AreaRangeCheck(numAreas, 0, numAreas)
  {
  }

  /** The corrected check accepts exactly the pairs of valid area indices. */
  lemma AreaRangeCheckExact(areaNum1: int, areaNum2: int, numAreas: nat)
    ensures AreaRangeCheck(areaNum1, areaNum2, numAreas) <==> 0 <= areaNum1 < numAreas && 0 <= areaNum2 < numAreas
    ensures AreaRangeCheck(areaNum1, areaNum2, numAreas) ==> AreaRangeCheckAsWritten(areaNum1, areaNum2, numAreas)
  {
  }

  /** The attribute a single connection bit names: 1, 2, 4 give 0, 1, 2. */
  function ConnectionIndex(connection: int): (attr: nat)
    ensures attr < NUM_PORTAL_ATTRIBUTES
    ensures connection == 1 || connection == 2 || connection == 4 ==> Mask(attr) as int == connection
  {
    if connection == 2 then 1 else if connection == 4 then 2 else 0
  }

  /**
   * Decodes a connection: attribute is the position of its highest set bit,
   * found by shifting right until one bit is left; the connection is valid
   * when that attribute is below NUM_PORTAL_ATTRIBUTES and the connection is
   * exactly its bit.
   */
  method ConnectionAttribute(connection: int) returns (attribute: nat, ok: bool)
    ensures ok <==> connection == 1 || connection == 2 || connection == 4
    ensures ok ==> attribute == ConnectionIndex(connection)
  {
    attribute := 0;
    var c := connection;
    while c > 1
      invariant connection == 1 ==> attribute == 0 && c == 1
      invariant connection == 2 ==> (attribute == 0 && c == 2) || (attribute == 1 && c == 1)
      invariant connection == 4 ==> (attribute == 0 && c == 4) || (attribute == 1 && c == 2) || (attribute == 2 && c == 1)
      decreases c
    {
      attribute := attribute + 1;
      c := c / 2;
    }
    ok := attribute < NUM_PORTAL_ATTRIBUTES && Mask(attribute) as int == connection;
  }

  // ---------------------------------------------------------------------
  // The view flood's stack guard and portal planes
  // ---------------------------------------------------------------------

  /** A portal, named by its area and its place in that area's portal list. */
  datatype PortalRef = PortalRef(area: nat, index: nat)

  /** Where the view origin lies relative to a portal plane: d < -0.1, d < 1, or farther. */
  datatype PortalSide = Behind | Close | Beyond

  /**
   * The geometric answers the view flood needs, taken as given: the side of
   * each portal plane the origin is on, how many points of a portal's
   * winding survive clipping to a stack's planes, whether the portal is
   * fogged out, and whether the edge plane through point i is degenerate.
   */
  datatype PortalGeometry = PortalGeometry(
    side: PortalRef -> PortalSide,
    clippedPoints: (seq<PortalRef>, PortalRef) -> nat,
    fogged: PortalRef -> bool,
    degenerate: (PortalRef, nat) -> bool)

  predicate Distinct(s: seq<PortalRef>) {
    forall i, j :: 0 <= i < j < |s| ==> s[i] != s[j]
  }

  /** Walks the stack looking for the portal. */
  method OnStack(stack: seq<PortalRef>, p: PortalRef) returns (found: bool)
    ensures found <==> p in stack
  {
    found := false;
    var i := |stack|;
    while i > 0
      invariant 0 <= i <= |stack|
      invariant p !in stack[i..]
    {
      i := i - 1;
      if stack[i] == p {
        return true;
      }
    }
  }

  /**
   * The number of planes of a new stack entry: one edge plane per winding
   * point, at most MAX_PORTAL_PLANES of them, skipping degenerate ones, then
   * the portal plane itself; it always fits the MAX_PORTAL_PLANES + 1 plane
   * slots of a stack entry.
   */
  method PortalPlaneCount(numPoints: nat, p: PortalRef, g: PortalGeometry) returns (n: nat)
    ensures 1 <= n <= MAX_PORTAL_PLANES + 1
    ensures n <= numPoints + 1
    ensures n == 1 + |set i | 0 <= i < Min(numPoints, MAX_PORTAL_PLANES) && !g.degenerate(p, i)|
  {
    var addPlanes := numPoints;
    if addPlanes > MAX_PORTAL_PLANES {
      addPlanes := MAX_PORTAL_PLANES;
    }
    n := 0;
    for i := 0 to addPlanes
      invariant n == |set k | 0 <= k < i && !g.degenerate(p, k)|
      invariant n <= i
    {
      ghost var before := set k | 0 <= k < i && !g.degenerate(p, k);
      if !g.degenerate(p, i) {
        assert (set k | 0 <= k < i + 1 && !g.degenerate(p, k)) == before + {i};
        n := n + 1;
      } else {
        assert (set k | 0 <= k < i + 1 && !g.degenerate(p, k)) == before;
      }
    }
    n := n + 1;
  }

  // ---------------------------------------------------------------------
  // Per-view caches of viewLights and viewEntitys
  // ---------------------------------------------------------------------

  /**
   * One view's records of one kind (viewLights or viewEntitys), each naming
   * its def, in allocation order: the source links each new record at the
   * head of a list, so that list is this sequence read backwards, and a
   * record is named by its allocation number.  Per def: the view count it
   * was last set up for and its record.
   */
  datatype DefViews = DefViews(records: seq<nat>, viewCount: seq<int>, viewEntry: seq<nat>)

  /**
   * The records hold exactly the defs whose view count is the current one,
   * and each such def's cached record is a record of that def.
   */
  ghost predicate CacheValid(v: DefViews, frameViewCount: int) {
    |v.viewCount| == |v.viewEntry| &&
    (forall h :: 0 <= h < |v.viewCount| ==> v.viewCount[h] <= frameViewCount) &&
    (forall h :: 0 <= h < |v.viewCount| && v.viewCount[h] == frameViewCount ==>
       v.viewEntry[h] < |v.records| && v.records[v.viewEntry[h]] == h) &&
    (forall e :: 0 <= e < |v.records| ==>
       v.records[e] < |v.viewCount| && v.viewCount[v.records[e]] == frameViewCount && v.viewEntry[v.records[e]] == e)
  }

  /**
   * Sets def h up for the current view: the cached record when its view
   * count is current, otherwise a new record.  Returns the new cache and
   * the record.
   */
  function SetDefView(v: DefViews, h: nat, frameViewCount: int): (DefViews, nat)
    requires h < |v.viewCount| == |v.viewEntry|
  {
    if v.viewCount[h] == frameViewCount then (v, v.viewEntry[h])
    else (DefViews(v.records + [h], v.viewCount[h := frameViewCount], v.viewEntry[h := |v.records|]), |v.records|)
  }

  /**
   * Setting a def up keeps the cache valid, returns a record of that def,
   * keeps every earlier record, and adds one record exactly when the def
   * was not yet set up for this view.
   */
  lemma SetDefViewValid(v: DefViews, h: nat, frameViewCount: int)
    requires CacheValid(v, frameViewCount) && h < |v.viewCount|
    ensures CacheValid(SetDefView(v, h, frameViewCount).0, frameViewCount)
    ensures var (w, e) := SetDefView(v, h, frameViewCount);
            e < |w.records| && w.records[e] == h &&
            |w.records| == |v.records| + (if v.viewCount[h] == frameViewCount then 0 else 1) &&
            w.records[..|v.records|] == v.records
  {
    if v.viewCount[h] != frameViewCount {
      var w := DefViews(v.records + [h], v.viewCount[h := frameViewCount], v.viewEntry[h := |v.records|]);
      assert SetDefView(v, h, frameViewCount) == (w, |v.records|);
      assert h !in v.records;
      forall k | 0 <= k < |w.viewCount| && w.viewCount[k] == frameViewCount
        ensures w.viewEntry[k] < |w.records| && w.records[w.viewEntry[k]] == k
      {
        if k != h {
          assert w.records[v.viewEntry[k]] == v.records[v.viewEntry[k]];
        }
      }
      assert w.records[..|v.records|] == v.records;
    }
  }

  /** Within one view, setting the same def up twice returns the cached record and changes nothing. */
  lemma SetDefViewIdempotent(v: DefViews, h: nat, frameViewCount: int)
    requires h < |v.viewCount| == |v.viewEntry|
    ensures var (w, e) := SetDefView(v, h, frameViewCount);
            SetDefView(w, h, frameViewCount) == (w, e)
  {
  }

  /** No def has two records in a valid cache. */
  lemma CacheRecordsDistinct(v: DefViews, frameViewCount: int)
    requires CacheValid(v, frameViewCount)
    ensures forall i, j :: 0 <= i < j < |v.records| ==> v.records[i] != v.records[j]
  {
    forall i, j | 0 <= i < j < |v.records|
      ensures v.records[i] != v.records[j]
    {
      assert v.viewEntry[v.records[i]] == i;
      assert v.viewEntry[v.records[j]] == j;
    }
  }

  /**
   * The view state the caches hang off: the global view count and, for the
   * view being built, the viewLight and viewEntity caches.
   */
  class ViewDefs {
    var viewCount: int
    var lights: DefViews
    var entities: DefViews

    ghost predicate Valid()
      reads this
    {
      CacheValid(lights, viewCount) && CacheValid(entities, viewCount)
    }

    /**
     * A new view: bumping the view count invalidates every cached record,
     * and both record lists start empty.
     */
    method StartView()
      requires Valid()
      modifies this
      ensures Valid()
      ensures viewCount == old(viewCount) + 1
      ensures lights == old(lights).(records := []) && entities == old(entities).(records := [])
      ensures forall h :: 0 <= h < |lights.viewCount| ==> lights.viewCount[h] != viewCount
      ensures forall h :: 0 <= h < |entities.viewCount| ==> entities.viewCount[h] != viewCount
    {
      viewCount := viewCount + 1;
      lights := lights.(records := []);
      entities := entities.(records := []);
    }

    /** R_SetLightDefViewLight: the light's record for this view, created on first use. */
    method SetLightDefViewLight(light: nat) returns (vLight: nat)
      requires Valid() && light < |lights.viewCount|
      modifies this
      ensures Valid()
      ensures (lights, vLight) == SetDefView(old(lights), light, viewCount)
      ensures viewCount == old(viewCount) && entities == old(entities)
      ensures vLight < |lights.records| && lights.records[vLight] == light
    {
      SetDefViewValid(lights, light, viewCount);
      if lights.viewCount[light] == viewCount {
        return lights.viewEntry[light];
      }
      lights := lights.(viewCount := lights.viewCount[light := viewCount]);
      vLight := |lights.records|;
      lights := lights.(records := lights.records + [light]);
      lights := lights.(viewEntry := lights.viewEntry[light := vLight]);
    }

    /** R_SetEntityDefViewEntity: the entity's record for this view, created on first use. */
    method SetEntityDefViewEntity(def: nat) returns (vModel: nat)
      requires Valid() && def < |entities.viewCount|
      modifies this
      ensures Valid()
      ensures (entities, vModel) == SetDefView(old(entities), def, viewCount)
      ensures viewCount == old(viewCount) && lights == old(lights)
      ensures vModel < |entities.records| && entities.records[vModel] == def
    {
      SetDefViewValid(entities, def, viewCount);
      if entities.viewCount[def] == viewCount {
        return entities.viewEntry[def];
      }
      entities := entities.(viewCount := entities.viewCount[def := viewCount]);
      vModel := |entities.records|;
      entities := entities.(records := entities.records + [def]);
      entities := entities.(viewEntry := entities.viewEntry[def := vModel]);
    }
  }
}
