/**
 * The bookkeeping half of idRenderWorld: the entity and light def tables
 * with free-slot reuse, the area reference lists that tie defs to portal
 * areas, the interaction table, the reusable decal and overlay slots, and
 * the read-only walks over the area BSP tree.
 */
module RenderWorld {
  import opened Bits

  /** Any entity or light handle above this is taken as an internal error. */
  const LUDICROUS_INDEX: int := 10000
  const MAX_DECAL_SURFACES: nat := 32
  /** Spare rows and columns the interaction table gets over the def counts. */
  const TABLE_SLACK: nat := 100

  // ---------------------------------------------------------------------
  // Joint padding for SIMD
  // ---------------------------------------------------------------------

  /**
   * `(n + 1) & ~1` on a 32-bit int. Clearing bit 0 of a two's-complement
   * value subtracts its (non-negative) remainder modulo 2.
   */
  function SimdRoundJoints(n: int): (r: int)
    requires IsInt32(n)
    ensures IsInt32(r) && r % 2 == 0
    ensures 0 <= n < INT32_MAX ==> n <= r <= n + 1
    ensures n == INT32_MAX ==> r == INT32_MIN
  {
    var m := Int32(n + 1);
    m - m % 2
  }

  /** Rounding an already rounded count changes nothing. */
  lemma SimdRoundJointsIdempotent(n: int)
    requires IsInt32(n)
    ensures SimdRoundJoints(SimdRoundJoints(n)) == SimdRoundJoints(n)
  {
    var r := SimdRoundJoints(n);
    assert r < INT32_MAX;
  }

  /**
   * For an odd joint count the padding joint after the last one becomes a
   * copy of it; an even count leaves the array alone. The array holds at
   * least the rounded count.
   */
  method SimdInitLastJoint<T>(joints: array<T>, n: int)
    requires 0 <= n < INT32_MAX && SimdRoundJoints(n) <= joints.Length
    modifies joints
    ensures n % 2 == 1 ==> joints[..] == old(joints[..])[n := old(joints[n - 1])]
    ensures n % 2 == 0 ==> joints[..] == old(joints[..])
  {
    if n % 2 == 1 {
      joints[n] := joints[n - 1];
    }
  }

  // ---------------------------------------------------------------------
  // Interaction table cells
  // ---------------------------------------------------------------------

  /**
   * A cell of the interaction table: NULL means the pair was never tested,
   * INTERACTION_EMPTY (the pointer value 1) that it was tested and has no
   * interaction, anything else points at a real interaction.
   */
  datatype InteractionSlot = NotTested | NoInteraction | Interaction(id: nat)

  /** The pointer value a cell holds; real interactions live at addresses above 1. */
  function SlotPointer(s: InteractionSlot): (p: nat)
    ensures p == 0 <==> s.NotTested?
    ensures p == 1 <==> s.NoInteraction?
    ensures s.Interaction? ==> p == s.id + 2
  {
    match s
    case NotTested => 0
    case NoInteraction => 1
    case Interaction(id) => id + 2
  }

  /** The (row, column) of cell c in a table w cells wide. */
  function RowCol(c: nat, w: nat): (rc: (nat, nat))
    requires w > 0
    ensures rc.1 < w
    decreases c
  {
    if c < w then (0, c) else var rc := RowCol(c - w, w); (rc.0 + 1, rc.1)
  }

  /** Cell l * w + e sits at row l, column e. */
  lemma {:induction false} RowColAt(l: nat, e: nat, w: nat)
    requires e < w
    ensures RowCol(l * w + e, w) == (l, e)
  {
    if l > 0 {
      MulPlusOne(l - 1, w);
      RowColAt(l - 1, e, w);
    }
  }

  /** Row and column give the cell back. */
  lemma {:induction false} RowColSplit(c: nat, w: nat)
    requires w > 0
    ensures c == RowCol(c, w).0 * w + RowCol(c, w).1
    decreases c
  {
    if c >= w {
      RowColSplit(c - w, w);
      MulPlusOne(RowCol(c - w, w).0, w);
    }
  }

  /** The cell of prev position (l, e) read at its place in the widened table, or a cleared cell. */
  function ResizedCell(prev: seq<InteractionSlot>, oldW: nat, oldH: nat, newW: nat, c: nat): InteractionSlot
    requires |prev| == oldW * oldH && 0 < newW
  {
    var (l, e) := RowCol(c, newW);
    if l < oldH && e < oldW then
      RowBounds(l, oldW, oldH);
      prev[l * oldW + e]
    else NotTested
  }

  /** The table ResizeInteractionTable builds from the prev one. */
  function Resized(prev: seq<InteractionSlot>, oldW: nat, oldH: nat, newW: nat, newH: nat): (r: seq<InteractionSlot>)
    requires |prev| == oldW * oldH && 0 < newW
    ensures |r| == newW * newH
  {
    seq(newW * newH, c requires 0 <= c < newW * newH => ResizedCell(prev, oldW, oldH, newW, c))
  }

  lemma MulPlusOne(a: nat, b: nat)
    ensures (a + 1) * b == a * b + b
  {
  }

  lemma MulMono(x: nat, y: nat, a: nat)
    requires x <= y
    ensures x * a <= y * a
  {
    assert y * a == x * a + (y - x) * a;
  }

  /** Row l of a table of height h lies inside it. */
  lemma RowBounds(l: nat, w: nat, h: nat)
    requires l < h
    ensures (l + 1) * w == l * w + w && l * w + w <= w * h
  {
    MulPlusOne(l, w);
    MulMono(l + 1, h, w);
  }

  /** Every prev cell (l, e) survives the resize, at l * newW + e. */
  lemma ResizedKeeps(prev: seq<InteractionSlot>, oldW: nat, oldH: nat, newW: nat, newH: nat, l: nat, e: nat)
    requires |prev| == oldW * oldH && oldW <= newW && oldH <= newH && 0 < newW
    requires l < oldH && e < oldW
    ensures l * newW + e < newW * newH
    ensures l * oldW + e < |prev|
    ensures Resized(prev, oldW, oldH, newW, newH)[l * newW + e] == prev[l * oldW + e]
  {
    RowBounds(l, newW, newH);
    RowBounds(l, oldW, oldH);
    RowColAt(l, e, newW);
  }

  /** Cells outside the prev rectangle start out untested. */
  lemma ResizedClearsRest(prev: seq<InteractionSlot>, oldW: nat, oldH: nat, newW: nat, newH: nat, l: nat, e: nat)
    requires |prev| == oldW * oldH && 0 < newW
    requires l < newH && e < newW && (l >= oldH || e >= oldW)
    ensures l * newW + e < newW * newH
    ensures Resized(prev, oldW, oldH, newW, newH)[l * newW + e] == NotTested
  {
    RowBounds(l, newW, newH);
    RowColAt(l, e, newW);
  }

  // ---------------------------------------------------------------------
  // Area references
  // ---------------------------------------------------------------------

  predicate NoDuplicates(s: seq<nat>) {
    forall i, j :: 0 <= i < j < |s| ==> s[i] != s[j]
  }

  /**
   * The areaReference_t links of one kind (entity or light): for each
   * owner handle the areas on its owner chain, head first, and for each
   * portal area the owners on its circular list, in list order after the
   * sentinel.
   */
  datatype RefLinks = RefLinks(owners: seq<seq<nat>>, areas: seq<seq<nat>>)

  /** Both views hold the same (owner, area) pairs, each at most once. */
  predicate Consistent(links: RefLinks) {
    (forall h :: 0 <= h < |links.owners| ==> NoDuplicates(links.owners[h])) &&
    (forall a :: 0 <= a < |links.areas| ==> NoDuplicates(links.areas[a])) &&
    (forall h, a {:trigger a in links.owners[h]} :: 0 <= h < |links.owners| && a in links.owners[h] ==> a < |links.areas| && h in links.areas[a]) &&
    (forall a, h {:trigger h in links.areas[a]} :: 0 <= a < |links.areas| && h in links.areas[a] ==> h < |links.owners| && a in links.owners[h])
  }

  /**
   * AddEntityRefToArea (atTail) and AddLightRefToArea (at the head): no
   * change if the owner already references the area, else one reference
   * at the head of the owner chain and at the tail or head of the area list.
   */
  function AddRef(links: RefLinks, h: nat, a: nat, atTail: bool): (r: RefLinks)
    requires h < |links.owners| && a < |links.areas|
    ensures |r.owners| == |links.owners| && |r.areas| == |links.areas|
  {
    if a in links.owners[h] then links
    else RefLinks(links.owners[h := [a] + links.owners[h]],
                  links.areas[a := if atTail then links.areas[a] + [h] else [h] + links.areas[a]])
  }

  lemma AddRefConsistent(links: RefLinks, h: nat, a: nat, atTail: bool)
    requires Consistent(links) && h < |links.owners| && a < |links.areas|
    ensures Consistent(AddRef(links, h, a, atTail))
    ensures a in AddRef(links, h, a, atTail).owners[h] && h in AddRef(links, h, a, atTail).areas[a]
    ensures |AddRef(links, h, a, atTail).owners| == |links.owners|
    ensures |AddRef(links, h, a, atTail).areas| == |links.areas|
  {
    var r := AddRef(links, h, a, atTail);
    if a in links.owners[h] {
      assert h in links.areas[a];
    } else {
      assert h !in links.areas[a];
      var o := [a] + links.owners[h];
      assert NoDuplicates(o) by {
        forall i, j | 0 <= i < j < |o| ensures o[i] != o[j] {
          if i == 0 { assert o[j] in links.owners[h]; }
        }
      }
      var s := if atTail then links.areas[a] + [h] else [h] + links.areas[a];
      assert NoDuplicates(s) by {
        forall i, j | 0 <= i < j < |s| ensures s[i] != s[j] {
          if atTail && j == |s| - 1 { assert s[i] in links.areas[a]; }
          if !atTail && i == 0 { assert s[j] in links.areas[a]; }
        }
      }
      assert r == RefLinks(links.owners[h := o], links.areas[a := s]);
      assert h in s && forall x :: x in s <==> x == h || x in links.areas[a];
      forall h', a' | 0 <= h' < |r.owners| && a' in r.owners[h']
        ensures a' < |r.areas| && h' in r.areas[a']
      {
        if h' == h {
          assert a' in o;
          if a' != a {
            assert a' in links.owners[h];
            assert h in links.areas[a'] && r.areas[a'] == links.areas[a'];
          }
        } else {
          assert r.owners[h'] == links.owners[h'];
          assert h' in links.areas[a'];
          if a' != a { assert r.areas[a'] == links.areas[a']; }
        }
      }
      forall a', h' | 0 <= a' < |r.areas| && h' in r.areas[a']
        ensures h' < |r.owners| && a' in r.owners[h']
      {
        if a' == a {
          assert h' in s;
          if h' != h {
            assert h' in links.areas[a];
            assert a in links.owners[h'] && r.owners[h'] == links.owners[h'];
          }
        } else {
          assert r.areas[a'] == links.areas[a'];
          assert a' in links.owners[h'];
          if h' == h { assert a' in o; } else { assert r.owners[h'] == links.owners[h']; }
        }
      }
      forall h' | 0 <= h' < |r.owners| ensures NoDuplicates(r.owners[h']) {
        if h' != h { assert r.owners[h'] == links.owners[h']; }
      }
      forall a' | 0 <= a' < |r.areas| ensures NoDuplicates(r.areas[a']) {
        if a' != a { assert r.areas[a'] == links.areas[a']; }
      }
    }
  }

  /** The list with every occurrence of x removed, order kept. */
  function Without(s: seq<nat>, x: nat): (r: seq<nat>)
    ensures forall y :: y in r <==> y in s && y != x
    ensures |r| <= |s|
  {
    if s == [] then []
    else if s[0] == x then Without(s[1..], x)
    else [s[0]] + Without(s[1..], x)
  }

  lemma {:induction false} WithoutNoDuplicates(s: seq<nat>, x: nat)
    requires NoDuplicates(s)
    ensures NoDuplicates(Without(s, x))
  {
    if s != [] {
      assert NoDuplicates(s[1..]) by {
        forall i, j | 0 <= i < j < |s[1..]| ensures s[1..][i] != s[1..][j] {
          assert s[1..][i] == s[i + 1] && s[1..][j] == s[j + 1];
        }
      }
      WithoutNoDuplicates(s[1..], x);
      if s[0] != x {
        var w := Without(s[1..], x);
        assert s[0] !in s[1..] by {
          forall k | 0 <= k < |s[1..]| ensures s[1..][k] != s[0] {
            assert s[1..][k] == s[k + 1];
          }
        }
        var r := [s[0]] + w;
        forall i, j | 0 <= i < j < |r| ensures r[i] != r[j] {
          if i == 0 { assert r[j] in w; }
        }
      }
    }
  }

  /** FreeEntityDefDerivedData / FreeLightDefDerivedData: every reference of owner h unlinked. */
  function RemoveOwner(links: RefLinks, h: nat): RefLinks
    requires h < |links.owners|
  {
    RefLinks(links.owners[h := []], seq(|links.areas|, a requires 0 <= a < |links.areas| => Without(links.areas[a], h)))
  }

  lemma RemoveOwnerConsistent(links: RefLinks, h: nat)
    requires Consistent(links) && h < |links.owners|
    ensures Consistent(RemoveOwner(links, h))
    ensures |RemoveOwner(links, h).owners| == |links.owners| && |RemoveOwner(links, h).areas| == |links.areas|
    ensures forall a :: 0 <= a < |links.areas| ==> h !in RemoveOwner(links, h).areas[a]
  {
    var r := RemoveOwner(links, h);
    forall a | 0 <= a < |r.areas| ensures r.areas[a] == Without(links.areas[a], h) {
    }
    forall a | 0 <= a < |r.areas| ensures NoDuplicates(r.areas[a]) {
      WithoutNoDuplicates(links.areas[a], h);
    }
    forall a, h' | 0 <= a < |r.areas| && h' in r.areas[a]
      ensures h' < |r.owners| && a in r.owners[h']
    {
      assert h' in Without(links.areas[a], h);
      assert h' in links.areas[a] && h' != h;
      assert a in links.owners[h'] && r.owners[h'] == links.owners[h'];
    }
    forall h', a | 0 <= h' < |r.owners| && a in r.owners[h']
      ensures a < |r.areas| && h' in r.areas[a]
    {
      assert h' != h;
      assert r.owners[h'] == links.owners[h'];
      assert h' in links.areas[a];
      assert h' in Without(links.areas[a], h);
    }
    forall h' | 0 <= h' < |r.owners| ensures NoDuplicates(r.owners[h']) {
      if h' != h { assert r.owners[h'] == links.owners[h']; }
    }
  }

  /** New list slots start with empty owner chains. */
  function PadLinks(links: RefLinks, n: nat): (r: RefLinks)
    ensures |r.owners| == if n < |links.owners| then |links.owners| else n
  {
    if n <= |links.owners| then links
    else RefLinks(links.owners + seq(n - |links.owners|, _ => []), links.areas)
  }

  lemma PadLinksConsistent(links: RefLinks, n: nat)
    requires Consistent(links)
    ensures Consistent(PadLinks(links, n))
    ensures forall h :: 0 <= h < |links.owners| ==> PadLinks(links, n).owners[h] == links.owners[h]
    ensures forall h :: |links.owners| <= h < |PadLinks(links, n).owners| ==> PadLinks(links, n).owners[h] == []
    ensures PadLinks(links, n).areas == links.areas
  {
    var r := PadLinks(links, n);
    if n > |links.owners| {
      forall h | 0 <= h < |r.owners| ensures r.owners[h] == if h < |links.owners| then links.owners[h] else [] {
      }
      forall h, a | 0 <= h < |r.owners| && a in r.owners[h]
        ensures a < |r.areas| && h in r.areas[a]
      {
        assert h < |links.owners| && a in links.owners[h];
      }
      forall h | 0 <= h < |r.owners| ensures NoDuplicates(r.owners[h]) {
      }
      forall a, h | 0 <= a < |r.areas| && h in r.areas[a]
        ensures h < |r.owners| && a in r.owners[h]
      {
        assert h < |links.owners| && a in links.owners[h];
      }
    }
  }

  /** CreateEntityRefs / CreateLightRefs: one reference per area the owner's volume reaches, in order. */
  function AddRefs(links: RefLinks, h: nat, refAreas: seq<nat>, atTail: bool): (r: RefLinks)
    requires h < |links.owners| && forall a :: a in refAreas ==> a < |links.areas|
    requires Consistent(links)
    ensures |r.owners| == |links.owners| && |r.areas| == |links.areas| && Consistent(r)
    decreases |refAreas|
  {
    if refAreas == [] then links
    else
      var prefix := refAreas[..|refAreas| - 1];
      assert forall a :: a in prefix ==> a in refAreas;
      assert refAreas[|refAreas| - 1] in refAreas;
      var before := AddRefs(links, h, prefix, atTail);
      AddRefConsistent(before, h, refAreas[|refAreas| - 1], atTail);
      AddRef(before, h, refAreas[|refAreas| - 1], atTail)
  }

  /** Every requested area ends up on the owner chain, and no other owner's chain changes. */
  lemma {:induction false} AddRefsSpec(links: RefLinks, h: nat, refAreas: seq<nat>, atTail: bool)
    requires h < |links.owners| && forall a :: a in refAreas ==> a < |links.areas|
    requires Consistent(links)
    ensures forall a :: a in refAreas ==> a in AddRefs(links, h, refAreas, atTail).owners[h]
    ensures forall a :: a in links.owners[h] ==> a in AddRefs(links, h, refAreas, atTail).owners[h]
    ensures forall k :: 0 <= k < |links.owners| && k != h ==> AddRefs(links, h, refAreas, atTail).owners[k] == links.owners[k]
    ensures forall a :: a in AddRefs(links, h, refAreas, atTail).owners[h] ==> a in links.owners[h] || a in refAreas
    decreases |refAreas|
  {
    if refAreas != [] {
      var prefix := refAreas[..|refAreas| - 1];
      var last := refAreas[|refAreas| - 1];
      assert forall a :: a in prefix ==> a in refAreas;
      assert last in refAreas;
      AddRefsSpec(links, h, prefix, atTail);
      var before := AddRefs(links, h, prefix, atTail);
      AddRefConsistent(before, h, last, atTail);
      var r := AddRef(before, h, last, atTail);
      assert forall a :: a in before.owners[h] ==> a in r.owners[h];
      assert forall a :: a in r.owners[h] ==> a in before.owners[h] || a == last;
      forall a | a in refAreas ensures a in r.owners[h] {
        if a != last {
          assert a in prefix by {
            var i :| 0 <= i < |refAreas| && refAreas[i] == a;
            assert i < |refAreas| - 1 && prefix[i] == a;
          }
        }
      }
    }
  }

  lemma HeadIn(s: seq<nat>)
    requires s != []
    ensures s[0] in s
  {
  }

  /** Once no owner has a reference left, every area list is empty. */
  lemma NoOwnersNoRefs(links: RefLinks)
    requires Consistent(links)
    requires forall h :: 0 <= h < |links.owners| ==> links.owners[h] == []
    ensures forall a :: 0 <= a < |links.areas| ==> links.areas[a] == []
  {
    forall a | 0 <= a < |links.areas| ensures links.areas[a] == [] {
      if links.areas[a] != [] {
        HeadIn(links.areas[a]);
        assert false;
      }
    }
  }

  // ---------------------------------------------------------------------
  // Def tables
  // ---------------------------------------------------------------------

  /**
   * The parts of renderEntity_t the table logic looks at. `model` 0 is a
   * NULL hModel; `placement` stands for axis and origin, compared as a
   * whole; `bounds` for the entity's local bounds (0 is bounds_zero);
   * `drawsSurfaces` is the model's ModelHasDrawingSurfaces.
   */
  datatype EntityParms = EntityParms(model: nat, callback: bool, placement: nat, bounds: nat, forceUpdate: bool,
                                     hasJoints: bool, hasCallbackData: bool, drawsSurfaces: bool)

  /**
   * An idRenderEntity: its handle, parms, last update frame, reusable
   * decal/overlay slot, whether a dynamic model is cached for it, and its
   * localReferenceBounds (0 is bounds_zero).
   */
  datatype EntityDef = EntityDef(index: nat, parms: EntityParms, lastModifiedFrameNum: int,
                                 decals: Option<nat>, overlays: Option<nat>,
                                 dynamicModel: bool, referenceBounds: nat)

  /** A def as the idRenderEntity constructor leaves it and UpdateEntityDef fills it in. */
  function NewEntityDef(h: nat, re: EntityParms, frameCount: int): (d: EntityDef)
    ensures d.index == h && d.parms == re && d.lastModifiedFrameNum == frameCount
    ensures d.decals.None? && d.overlays.None? && !d.dynamicModel && d.referenceBounds == 0
  {
    EntityDef(h, re, frameCount, None, None, false, 0)
  }

  /**
   * The parts of renderLight_t the table logic looks at. `shape` stands
   * for the geometry fields compared in UpdateLightDef; `spectrum` is the
   * shader's Spectrum() flag; prelightModel 0 is NULL.
   */
  datatype LightParms = LightParms(shape: nat, shader: nat, noShadows: bool, prelightModel: nat, spectrum: bool)

  datatype LightDef = LightDef(index: nat, parms: LightParms, lastModifiedFrameNum: int, lightHasMoved: bool)

  /** idList::FindNull: the first NULL slot, or -1. */
  function FirstNull<T>(s: seq<Option<T>>): (r: int)
    ensures -1 <= r < |s|
    ensures r >= 0 ==> s[r].None? && forall k :: 0 <= k < r ==> s[k].Some?
    ensures r == -1 ==> forall k :: 0 <= k < |s| ==> s[k].Some?
  {
    if s == [] then -1
    else if s[|s| - 1].None? && FirstNull(s[..|s| - 1]) == -1 then |s| - 1
    else FirstNull(s[..|s| - 1])
  }

  /** The list grown with NULL entries until `h` indexes it. */
  function Padded<T>(s: seq<Option<T>>, h: nat): (r: seq<Option<T>>)
    ensures |r| == if h < |s| then |s| else h + 1
    ensures forall k :: 0 <= k < |r| ==> r[k] == if k < |s| then s[k] else None
  {
    if h < |s| then s else s + seq(h + 1 - |s|, _ => None)
  }

  /** Whether UpdateEntityDef raises an Error for these arguments. */
  predicate EntityUpdateFails(h: int, re: EntityParms) {
    (re.model == 0 && !re.callback) || h < 0 || h > LUDICROUS_INDEX
  }

  /**
   * Whether an existing def can stay as it is: a byte-equal, non-forced
   * update without joints or callback data, of a def with no cached
   * dynamic model.
   */
  predicate ExactMatch(def: EntityDef, re: EntityParms) {
    !re.forceUpdate && !re.hasJoints && !re.hasCallbackData && !def.dynamicModel && re == def.parms
  }

  /**
   * Whether only the parms change: a callback entity whose axis, origin and
   * model are as before and whose bounds equal the def's reference bounds.
   */
  predicate CallbackMatch(def: EntityDef, re: EntityParms) {
    !re.forceUpdate && re.callback && re.placement == def.parms.placement &&
    re.bounds == def.referenceBounds && re.model == def.parms.model
  }

  /** Whether CreateEntityRefs runs: trigger models without drawing surfaces are not linked in. */
  predicate LinksIn(re: EntityParms) {
    re.model == 0 || re.drawsSurfaces
  }

  /**
   * Whether UpdateEntityDef frees the def's references and creates them
   * anew: always, unless a live def takes the exact-match or callback path.
   */
  predicate EntityRelinks(defs: seq<Option<EntityDef>>, h: nat, re: EntityParms) {
    !(h < |defs| && defs[h].Some? && (ExactMatch(defs[h].value, re) || CallbackMatch(defs[h].value, re)))
  }

  /**
   * The def tables and references UpdateEntityDef leaves before it calls
   * CreateEntityRefs: the list padded to the handle, the def at the handle
   * new or updated, and its old references freed. An existing def keeps its
   * decal and overlay slots only when the model stays the same.
   */
  function EntityUnlinked(defs: seq<Option<EntityDef>>, links: RefLinks, h: nat, re: EntityParms,
                          frameCount: int): (seq<Option<EntityDef>>, RefLinks)
    requires |links.owners| == |defs| && Consistent(links)
  {
    var padded := Padded(defs, h);
    var plinks := PadLinks(links, |padded|);
    match padded[h]
    case Some(def) =>
      if ExactMatch(def, re) then (padded, plinks)
      else if CallbackMatch(def, re) then (padded[h := Some(def.(parms := re, dynamicModel := false))], plinks)
      else
        var keep := def.parms.model == re.model;
        var def' := def.(parms := re, lastModifiedFrameNum := frameCount, dynamicModel := false,
                         decals := if keep then def.decals else None, overlays := if keep then def.overlays else None);
        (padded[h := Some(def')], RemoveOwner(plinks, h))
    case None =>
      (padded[h := Some(NewEntityDef(h, re, frameCount))], plinks)
  }

  /** The whole of UpdateEntityDef for a handle that passed its checks. */
  function EntityUpdated(defs: seq<Option<EntityDef>>, links: RefLinks, h: nat, re: EntityParms,
                         frameCount: int, refAreas: seq<nat>): (seq<Option<EntityDef>>, RefLinks)
    requires |links.owners| == |defs| && Consistent(links)
    requires forall a :: a in refAreas ==> a < |links.areas|
    requires forall k :: 0 <= k < |defs| && defs[k].None? ==> links.owners[k] == []
    requires forall k :: 0 <= k < |defs| && defs[k].Some? ==> defs[k].value.index == k
  {
    EntityUnlinkedSpec(defs, links, h, re, frameCount);
    var (defs', freed) := EntityUnlinked(defs, links, h, re, frameCount);
    (defs', if EntityRelinks(defs, h, re) && LinksIn(re) then AddRefs(freed, h, refAreas, true) else freed)
  }

  /**
   * Before the new references: the handle holds the given parms, the table
   * only grew by NULL slots, no other def changed, a relinked def has no
   * references left, and the links are still consistent.
   */
  lemma EntityUnlinkedSpec(defs: seq<Option<EntityDef>>, links: RefLinks, h: nat, re: EntityParms, frameCount: int)
    requires |links.owners| == |defs| && Consistent(links)
    requires forall k :: 0 <= k < |defs| && defs[k].None? ==> links.owners[k] == []
    requires forall k :: 0 <= k < |defs| && defs[k].Some? ==> defs[k].value.index == k
    ensures var (defs', links') := EntityUnlinked(defs, links, h, re, frameCount);
      |defs'| == (if h < |defs| then |defs| else h + 1) &&
      defs'[h].Some? && defs'[h].value.parms == re && defs'[h].value.index == h &&
      (forall k :: 0 <= k < |defs'| && k != h ==> defs'[k] == if k < |defs| then defs[k] else None) &&
      Consistent(links') && |links'.owners| == |defs'| && |links'.areas| == |links.areas| &&
      (forall k :: 0 <= k < |defs'| && k != h ==> links'.owners[k] == if k < |defs| then links.owners[k] else []) &&
      (EntityRelinks(defs, h, re) ==> links'.owners[h] == [] && forall a :: 0 <= a < |links'.areas| ==> h !in links'.areas[a]) &&
      (!EntityRelinks(defs, h, re) ==> links' == links) &&
      (defs'[h].value.decals.Some? ==> h < |defs| && defs[h].Some? && defs'[h].value.decals == defs[h].value.decals) &&
      (defs'[h].value.overlays.Some? ==> h < |defs| && defs[h].Some? && defs'[h].value.overlays == defs[h].value.overlays)
  {
    var padded := Padded(defs, h);
    PadLinksConsistent(links, |padded|);
    var plinks := PadLinks(links, |padded|);
    if h >= |defs| {
      assert padded[h].None?;
      assert plinks.owners[h] == [];
    } else {
      assert padded == defs && plinks == links;
      match defs[h]
      case Some(def) =>
        if !ExactMatch(def, re) && !CallbackMatch(def, re) {
          RemoveOwnerConsistent(plinks, h);
        }
      case None =>
    }
  }

  /**
   * After the whole update the handle holds the given parms and no other
   * def changed; a def keeps decal and overlay slots only from before.
   */
  lemma EntityUpdatedDefs(defs: seq<Option<EntityDef>>, links: RefLinks, h: nat, re: EntityParms,
                          frameCount: int, refAreas: seq<nat>)
    requires |links.owners| == |defs| && Consistent(links)
    requires forall a :: a in refAreas ==> a < |links.areas|
    requires forall k :: 0 <= k < |defs| && defs[k].None? ==> links.owners[k] == []
    requires forall k :: 0 <= k < |defs| && defs[k].Some? ==> defs[k].value.index == k
    ensures var defs' := EntityUpdated(defs, links, h, re, frameCount, refAreas).0;
      |defs'| == (if h < |defs| then |defs| else h + 1) &&
      defs'[h].Some? && defs'[h].value.parms == re && defs'[h].value.index == h &&
      (forall k :: 0 <= k < |defs'| && k != h ==> defs'[k] == if k < |defs| then defs[k] else None) &&
      (defs'[h].value.decals.Some? ==> h < |defs| && defs[h].Some? && defs'[h].value.decals == defs[h].value.decals) &&
      (defs'[h].value.overlays.Some? ==> h < |defs| && defs[h].Some? && defs'[h].value.overlays == defs[h].value.overlays)
  {
    EntityUnlinkedSpec(defs, links, h, re, frameCount);
  }

  /**
   * After the whole update the links are consistent, no other reference
   * chain changed, and a relinked def references every given area and no
   * other (none at all for a trigger model).
   */
  lemma EntityUpdatedLinks(defs: seq<Option<EntityDef>>, links: RefLinks, h: nat, re: EntityParms,
                           frameCount: int, refAreas: seq<nat>)
    requires |links.owners| == |defs| && Consistent(links)
    requires forall a :: a in refAreas ==> a < |links.areas|
    requires forall k :: 0 <= k < |defs| && defs[k].None? ==> links.owners[k] == []
    requires forall k :: 0 <= k < |defs| && defs[k].Some? ==> defs[k].value.index == k
    ensures var (defs', links') := EntityUpdated(defs, links, h, re, frameCount, refAreas);
      Consistent(links') && |links'.owners| == |defs'| && |links'.areas| == |links.areas| &&
      (forall k :: 0 <= k < |defs'| && defs'[k].None? ==> links'.owners[k] == []) &&
      (forall k :: 0 <= k < |defs'| && k != h ==> links'.owners[k] == if k < |defs| then links.owners[k] else []) &&
      (EntityRelinks(defs, h, re) ==> forall a :: a in links'.owners[h] <==> LinksIn(re) && a in refAreas) &&
      (!EntityRelinks(defs, h, re) ==> links' == links)
  {
    EntityUnlinkedSpec(defs, links, h, re, frameCount);
    var (defs', freed) := EntityUnlinked(defs, links, h, re, frameCount);
    if EntityRelinks(defs, h, re) && LinksIn(re) {
      AddRefsSpec(freed, h, refAreas, true);
    }
  }

  /** UpdateLightDef's stored parms: spectrum lights lose their shadows, a moved light its prelight model. */
  function StoredLightParms(rlight: LightParms, hasMoved: bool): (p: LightParms)
    ensures p.shape == rlight.shape && p.shader == rlight.shader && p.spectrum == rlight.spectrum
    ensures p.noShadows <==> rlight.noShadows || rlight.spectrum
    ensures p.prelightModel == if hasMoved then 0 else rlight.prelightModel
  {
    rlight.(noShadows := rlight.noShadows || rlight.spectrum,
            prelightModel := if hasMoved then 0 else rlight.prelightModel)
  }

  /** Whether the light's shape is unchanged, so its derived data may stay. */
  predicate SameShape(stored: LightParms, rlight: LightParms) {
    rlight.shape == stored.shape && rlight.shader == stored.shader &&
    rlight.noShadows == stored.noShadows && rlight.prelightModel == stored.prelightModel
  }

  /** Whether UpdateLightDef frees the light's references and creates them anew: unless a live light keeps its shape. */
  predicate LightRelinks(defs: seq<Option<LightDef>>, h: nat, rlight: LightParms) {
    !(h < |defs| && defs[h].Some? && SameShape(defs[h].value.parms, rlight))
  }

  /**
   * The light table and references UpdateLightDef leaves before it calls
   * CreateLightRefs. A light whose shape changed is marked as moved and
   * loses its references; every stored light gets the new parms and frame.
   */
  function LightUnlinked(defs: seq<Option<LightDef>>, links: RefLinks, h: nat, rlight: LightParms,
                         frameCount: int): (seq<Option<LightDef>>, RefLinks)
    requires |links.owners| == |defs| && Consistent(links)
  {
    var padded := Padded(defs, h);
    var plinks := PadLinks(links, |padded|);
    match padded[h]
    case Some(light) =>
      if SameShape(light.parms, rlight) then
        (padded[h := Some(light.(parms := StoredLightParms(rlight, light.lightHasMoved), lastModifiedFrameNum := frameCount))], plinks)
      else
        (padded[h := Some(light.(parms := StoredLightParms(rlight, true), lastModifiedFrameNum := frameCount, lightHasMoved := true))],
         RemoveOwner(plinks, h))
    case None =>
      (padded[h := Some(LightDef(h, StoredLightParms(rlight, false), frameCount, false))], plinks)
  }

  /** The whole of UpdateLightDef for a handle that passed its check. */
  function LightUpdated(defs: seq<Option<LightDef>>, links: RefLinks, h: nat, rlight: LightParms,
                        frameCount: int, refAreas: seq<nat>): (seq<Option<LightDef>>, RefLinks)
    requires |links.owners| == |defs| && Consistent(links)
    requires forall a :: a in refAreas ==> a < |links.areas|
    requires forall k :: 0 <= k < |defs| && defs[k].None? ==> links.owners[k] == []
    requires forall k :: 0 <= k < |defs| && defs[k].Some? ==> defs[k].value.index == k
  {
    LightUnlinkedSpec(defs, links, h, rlight, frameCount);
    var (defs', freed) := LightUnlinked(defs, links, h, rlight, frameCount);
    (defs', if LightRelinks(defs, h, rlight) then AddRefs(freed, h, refAreas, false) else freed)
  }

  /**
   * Before the new references: the handle holds the stored form of the
   * parms and the new frame, only the table grew, and a relinked light has
   * no references left.
   */
  lemma LightUnlinkedSpec(defs: seq<Option<LightDef>>, links: RefLinks, h: nat, rlight: LightParms, frameCount: int)
    requires |links.owners| == |defs| && Consistent(links)
    requires forall k :: 0 <= k < |defs| && defs[k].None? ==> links.owners[k] == []
    requires forall k :: 0 <= k < |defs| && defs[k].Some? ==> defs[k].value.index == k
    ensures var (defs', links') := LightUnlinked(defs, links, h, rlight, frameCount);
      |defs'| == (if h < |defs| then |defs| else h + 1) &&
      defs'[h].Some? && defs'[h].value.index == h && defs'[h].value.lastModifiedFrameNum == frameCount &&
      defs'[h].value.parms == StoredLightParms(rlight, defs'[h].value.lightHasMoved) &&
      (LightRelinks(defs, h, rlight) && h < |defs| && defs[h].Some? ==> defs'[h].value.lightHasMoved) &&
      (h >= |defs| || defs[h].None? ==> !defs'[h].value.lightHasMoved) &&
      (forall k :: 0 <= k < |defs'| && k != h ==> defs'[k] == if k < |defs| then defs[k] else None) &&
      Consistent(links') && |links'.owners| == |defs'| && |links'.areas| == |links.areas| &&
      (forall k :: 0 <= k < |defs'| && k != h ==> links'.owners[k] == if k < |defs| then links.owners[k] else []) &&
      (LightRelinks(defs, h, rlight) ==> links'.owners[h] == [] && forall a :: 0 <= a < |links'.areas| ==> h !in links'.areas[a]) &&
      (!LightRelinks(defs, h, rlight) ==> links' == links)
  {
    var padded := Padded(defs, h);
    PadLinksConsistent(links, |padded|);
    var plinks := PadLinks(links, |padded|);
    if h >= |defs| {
      assert padded[h].None?;
      assert plinks.owners[h] == [];
    } else {
      assert padded == defs && plinks == links;
      if defs[h].Some? && !SameShape(defs[h].value.parms, rlight) {
        RemoveOwnerConsistent(plinks, h);
      }
    }
  }

  /**
   * After the whole update the handle holds the stored parms and the new
   * frame, and no other light changed.
   */
  lemma LightUpdatedDefs(defs: seq<Option<LightDef>>, links: RefLinks, h: nat, rlight: LightParms,
                         frameCount: int, refAreas: seq<nat>)
    requires |links.owners| == |defs| && Consistent(links)
    requires forall a :: a in refAreas ==> a < |links.areas|
    requires forall k :: 0 <= k < |defs| && defs[k].None? ==> links.owners[k] == []
    requires forall k :: 0 <= k < |defs| && defs[k].Some? ==> defs[k].value.index == k
    ensures var defs' := LightUpdated(defs, links, h, rlight, frameCount, refAreas).0;
      |defs'| == (if h < |defs| then |defs| else h + 1) &&
      defs'[h].Some? && defs'[h].value.index == h && defs'[h].value.lastModifiedFrameNum == frameCount &&
      defs'[h].value.parms == StoredLightParms(rlight, defs'[h].value.lightHasMoved) &&
      (forall k :: 0 <= k < |defs'| && k != h ==> defs'[k] == if k < |defs| then defs[k] else None)
  {
    LightUnlinkedSpec(defs, links, h, rlight, frameCount);
  }

  /**
   * After the whole update the links are consistent, no other reference
   * chain changed, and a relinked light references exactly the given areas.
   */
  lemma LightUpdatedLinks(defs: seq<Option<LightDef>>, links: RefLinks, h: nat, rlight: LightParms,
                          frameCount: int, refAreas: seq<nat>)
    requires |links.owners| == |defs| && Consistent(links)
    requires forall a :: a in refAreas ==> a < |links.areas|
    requires forall k :: 0 <= k < |defs| && defs[k].None? ==> links.owners[k] == []
    requires forall k :: 0 <= k < |defs| && defs[k].Some? ==> defs[k].value.index == k
    ensures var (defs', links') := LightUpdated(defs, links, h, rlight, frameCount, refAreas);
      Consistent(links') && |links'.owners| == |defs'| && |links'.areas| == |links.areas| &&
      (forall k :: 0 <= k < |defs'| && defs'[k].None? ==> links'.owners[k] == []) &&
      (forall k :: 0 <= k < |defs'| && k != h ==> links'.owners[k] == if k < |defs| then links.owners[k] else []) &&
      (LightRelinks(defs, h, rlight) ==> forall a :: a in links'.owners[h] <==> a in refAreas) &&
      (!LightRelinks(defs, h, rlight) ==> links' == links)
  {
    LightUnlinkedSpec(defs, links, h, rlight, frameCount);
    var (defs', freed) := LightUnlinked(defs, links, h, rlight, frameCount);
    if LightRelinks(defs, h, rlight) {
      AddRefsSpec(freed, h, refAreas, false);
    }
  }

  // ---------------------------------------------------------------------
  // Reusable decal and overlay slots
  // ---------------------------------------------------------------------

  /** A reusableDecal_t / reusableOverlay_t; the model object is the slot's own, named by its index. */
  datatype ReusableSlot = ReusableSlot(entityHandle: int, lastStartTime: int)

  /**
   * The search loop of AllocDecal and AllocOverlay: the first slot with
   * the smallest lastStartTime, starting from the largest int.
   */
  method OldestSlot(slots: array<ReusableSlot>) returns (oldest: nat)
    requires slots.Length > 0
    requires forall k :: 0 <= k < slots.Length ==> IsInt32(slots[k].lastStartTime)
    ensures oldest < slots.Length
    ensures forall k :: 0 <= k < slots.Length ==> slots[oldest].lastStartTime <= slots[k].lastStartTime
    ensures forall k :: 0 <= k < oldest ==> slots[k].lastStartTime > slots[oldest].lastStartTime
  {
    oldest := 0;
    var oldestTime := INT32_MAX;
    for i := 0 to slots.Length
      invariant oldest < slots.Length && oldestTime <= INT32_MAX
      invariant forall k :: 0 <= k < i ==> oldestTime <= slots[k].lastStartTime
      invariant (oldest == 0 && oldestTime == INT32_MAX) || (oldest < i && slots[oldest].lastStartTime == oldestTime)
      invariant forall k :: 0 <= k < oldest ==> slots[k].lastStartTime > oldestTime
    {
      if slots[i].lastStartTime < oldestTime {
        oldestTime := slots[i].lastStartTime;
        oldest := i;
      }
    }
  }

  /** The def that no longer points at a reused slot, if the slot's previous owner still did. */
  function DetachDecal(defs: seq<Option<EntityDef>>, owner: int, slot: nat): (r: seq<Option<EntityDef>>)
    ensures |r| == |defs|
    ensures forall k :: 0 <= k < |r| ==> r[k].Some? == defs[k].Some?
    ensures forall k :: 0 <= k < |r| && r[k].Some? ==> r[k].value == defs[k].value.(decals := r[k].value.decals)
    ensures forall k :: 0 <= k < |r| && k != owner ==> r[k] == defs[k]
    ensures 0 <= owner < |r| && r[owner].Some? ==> r[owner].value.decals != Some(slot)
  {
    if 0 <= owner < |defs| && defs[owner].Some? && defs[owner].value.decals == Some(slot) then
      defs[owner := Some(defs[owner].value.(decals := None))]
    else defs
  }

  function DetachOverlay(defs: seq<Option<EntityDef>>, owner: int, slot: nat): (r: seq<Option<EntityDef>>)
    ensures |r| == |defs|
    ensures forall k :: 0 <= k < |r| ==> r[k].Some? == defs[k].Some?
    ensures forall k :: 0 <= k < |r| && r[k].Some? ==> r[k].value == defs[k].value.(overlays := r[k].value.overlays)
    ensures forall k :: 0 <= k < |r| && k != owner ==> r[k] == defs[k]
    ensures 0 <= owner < |r| && r[owner].Some? ==> r[owner].value.overlays != Some(slot)
  {
    if 0 <= owner < |defs| && defs[owner].Some? && defs[owner].value.overlays == Some(slot) then
      defs[owner := Some(defs[owner].value.(overlays := None))]
    else defs
  }

  /** Every live def sits at its own handle and the links match the tables. */
  ghost predicate DefsOk(entityDefs: seq<Option<EntityDef>>, lightDefs: seq<Option<LightDef>>, entityLinks: RefLinks, lightLinks: RefLinks) {
    |entityLinks.owners| == |entityDefs| && Consistent(entityLinks) &&
    |lightLinks.owners| == |lightDefs| && Consistent(lightLinks) &&
    |entityLinks.areas| == |lightLinks.areas| &&
    (forall k :: 0 <= k < |entityDefs| && entityDefs[k].None? ==> entityLinks.owners[k] == []) &&
    (forall k :: 0 <= k < |entityDefs| && entityDefs[k].Some? ==> entityDefs[k].value.index == k) &&
    (forall k :: 0 <= k < |lightDefs| && lightDefs[k].None? ==> lightLinks.owners[k] == []) &&
    (forall k :: 0 <= k < |lightDefs| && lightDefs[k].Some? ==> lightDefs[k].value.index == k)
  }

  /** A def only points at a decal or overlay slot that records it as the owner. */
  ghost predicate SlotsOk(decals: array<ReusableSlot>, overlays: array<ReusableSlot>, entityDefs: seq<Option<EntityDef>>)
    reads decals, overlays
  {
    decals.Length == MAX_DECAL_SURFACES && overlays.Length == MAX_DECAL_SURFACES && decals != overlays &&
    (forall k :: 0 <= k < decals.Length ==> IsInt32(decals[k].lastStartTime)) &&
    (forall k :: 0 <= k < overlays.Length ==> IsInt32(overlays[k].lastStartTime)) &&
    (forall k :: 0 <= k < |entityDefs| && entityDefs[k].Some? && entityDefs[k].value.decals.Some? ==>
      entityDefs[k].value.decals.value < MAX_DECAL_SURFACES && decals[entityDefs[k].value.decals.value].entityHandle == k) &&
    (forall k :: 0 <= k < |entityDefs| && entityDefs[k].Some? && entityDefs[k].value.overlays.Some? ==>
      entityDefs[k].value.overlays.value < MAX_DECAL_SURFACES && overlays[entityDefs[k].value.overlays.value].entityHandle == k)
  }

  /** Unlinking an entity keeps the tables, links and slot owners consistent. */
  lemma EntityUnlinkedKeepsOk(entityDefs: seq<Option<EntityDef>>, lightDefs: seq<Option<LightDef>>, entityLinks: RefLinks,
                              lightLinks: RefLinks, decals: array<ReusableSlot>, overlays: array<ReusableSlot>,
                              h: nat, re: EntityParms, frameCount: int)
    requires DefsOk(entityDefs, lightDefs, entityLinks, lightLinks) && SlotsOk(decals, overlays, entityDefs)
    ensures var (defs', links') := EntityUnlinked(entityDefs, entityLinks, h, re, frameCount);
      DefsOk(defs', lightDefs, links', lightLinks) && SlotsOk(decals, overlays, defs')
  {
    EntityUnlinkedSpec(entityDefs, entityLinks, h, re, frameCount);
  }

  /** Unlinking a light keeps the tables and links consistent. */
  lemma LightUnlinkedKeepsOk(entityDefs: seq<Option<EntityDef>>, lightDefs: seq<Option<LightDef>>, entityLinks: RefLinks,
                             lightLinks: RefLinks, h: nat, rlight: LightParms, frameCount: int)
    requires DefsOk(entityDefs, lightDefs, entityLinks, lightLinks)
    ensures var (defs', links') := LightUnlinked(lightDefs, lightLinks, h, rlight, frameCount);
      DefsOk(entityDefs, defs', entityLinks, links')
  {
    LightUnlinkedSpec(lightDefs, lightLinks, h, rlight, frameCount);
  }

  /**
   * idRenderWorld's def tables, area references, interaction table and
   * decal/overlay slots. Defs are values in the lists; the links hold the
   * areaReference_t chains.
   */
  class World {
    var entityDefs: seq<Option<EntityDef>>
    var lightDefs: seq<Option<LightDef>>
    var entityLinks: RefLinks
    var lightLinks: RefLinks
    /** Whether m_interactionTable is allocated. */
    var tableAllocated: bool
    var interactionTable: array<InteractionSlot>
    var tableWidth: nat
    var tableHeight: nat
    const decals: array<ReusableSlot>
    const overlays: array<ReusableSlot>

    ghost predicate DefsValid()
      reads this
    {
      DefsOk(entityDefs, lightDefs, entityLinks, lightLinks)
    }

    ghost predicate SlotsValid()
      reads this, decals, overlays
    {
      SlotsOk(decals, overlays, entityDefs)
    }

    /** An allocated table has one cell per (light, entity) pair of its size, and its size never exceeds the counts plus slack. */
    ghost predicate TableValid()
      reads this
    {
      tableAllocated ==>
        interactionTable.Length == tableWidth * tableHeight &&
        tableWidth <= |entityDefs| + TABLE_SLACK && tableHeight <= |lightDefs| + TABLE_SLACK
    }

    ghost predicate Valid()
      reads this, decals, overlays
    {
      DefsValid() && SlotsValid() && TableValid()
    }

    /** The world constructor: no defs, no areas, no table, every slot unowned at time 0. */
    constructor()
      ensures Valid()
      ensures entityDefs == [] && lightDefs == [] && !tableAllocated
      ensures entityLinks.areas == [] && lightLinks.areas == []
      ensures forall k :: 0 <= k < MAX_DECAL_SURFACES ==> decals[k] == ReusableSlot(-1, 0) && overlays[k] == ReusableSlot(-1, 0)
      ensures fresh(decals) && fresh(overlays)
    {
      entityDefs := [];
      lightDefs := [];
      entityLinks := RefLinks([], []);
      lightLinks := RefLinks([], []);
      tableAllocated := false;
      interactionTable := new InteractionSlot[0];
      tableWidth := 0;
      tableHeight := 0;
      decals := new ReusableSlot[MAX_DECAL_SURFACES](_ => ReusableSlot(-1, 0));
      overlays := new ReusableSlot[MAX_DECAL_SURFACES](_ => ReusableSlot(-1, 0));
    }

    /** GetRenderEntity: the parms of a live def, or NULL for a bad or empty handle. */
    function GetRenderEntity(h: int): (r: Option<EntityParms>)
      reads this
      ensures r.Some? <==> 0 <= h < |entityDefs| && entityDefs[h].Some?
    {
      if 0 <= h < |entityDefs| && entityDefs[h].Some? then Some(entityDefs[h].value.parms) else None
    }

    /** GetRenderLight: the stored parms of a live light, or NULL. */
    function GetRenderLight(h: int): (r: Option<LightParms>)
      reads this
      ensures r.Some? <==> 0 <= h < |lightDefs| && lightDefs[h].Some?
    {
      if 0 <= h < |lightDefs| && lightDefs[h].Some? then Some(lightDefs[h].value.parms) else None
    }

    /**
     * ResizeInteractionTable: a new cleared table sized by the def counts
     * plus slack, holding every old cell at its (light, entity) position.
     */
    method ResizeInteractionTable()
      requires Valid() && tableAllocated
      modifies this
      ensures Valid() && tableAllocated && fresh(interactionTable)
      ensures tableWidth == |entityDefs| + TABLE_SLACK && tableHeight == |lightDefs| + TABLE_SLACK
      ensures old(tableWidth) <= tableWidth && old(tableHeight) <= tableHeight
      ensures interactionTable[..] == Resized(old(interactionTable[..]), old(tableWidth), old(tableHeight), tableWidth, tableHeight)
      ensures entityDefs == old(entityDefs) && lightDefs == old(lightDefs)
      ensures entityLinks == old(entityLinks) && lightLinks == old(lightLinks)
    {
      var newW := |entityDefs| + TABLE_SLACK;
      var newH := |lightDefs| + TABLE_SLACK;
      var table := BuildResized(interactionTable, tableWidth, tableHeight, newW, newH);
      interactionTable := table;
      tableWidth, tableHeight := newW, newH;
    }

    /** The new cleared table and its copy loops. */
    static method BuildResized(prev: array<InteractionSlot>, oldW: nat, oldH: nat, newW: nat, newH: nat)
      returns (table: array<InteractionSlot>)
      requires prev.Length == oldW * oldH && oldW <= newW && oldH <= newH && 0 < newW
      ensures fresh(table) && table[..] == Resized(prev[..], oldW, oldH, newW, newH)
    {
      table := new InteractionSlot[newW * newH](_ => NotTested);
      var base, from := 0, 0;
      for l := 0 to oldH
        modifies table
        invariant base == l * newW && from == l * oldW
        invariant forall c :: 0 <= c < base && c < table.Length ==> table[c] == Resized(prev[..], oldW, oldH, newW, newH)[c]
        invariant forall c :: base <= c < table.Length ==> table[c] == NotTested
      {
        RowOfResized(prev[..], oldW, oldH, newW, newH, l, base, from);
        CopyRow(table, prev, base, from, oldW);
        base, from := base + newW, from + oldW;
      }
      ResizedFromRows(table[..], prev[..], oldW, oldH, newW, newH, base);
    }

    /** The inner copy loop: `width` cells from prev[from..] to table[to..]; the rest of the table is left alone. */
    static method CopyRow(table: array<InteractionSlot>, prev: array<InteractionSlot>, to: nat, from: nat, width: nat)
      requires table != prev && to + width <= table.Length && from + width <= prev.Length
      modifies table
      ensures forall c :: to <= c < to + width ==> table[c] == prev[c - to + from]
      ensures forall c :: 0 <= c < table.Length && (c < to || c >= to + width) ==> table[c] == old(table[c])
    {
      for e := 0 to width
        invariant forall c :: to <= c < to + e ==> table[c] == prev[c - to + from]
        invariant forall c :: 0 <= c < table.Length && (c < to || c >= to + e) ==> table[c] == old(table[c])
      {
        table[to + e] := prev[from + e];
      }
    }

    /** The interaction table fields, which def and reference updates leave alone. */
    ghost function TableState(): (bool, array<InteractionSlot>, nat, nat)
      reads this
    {
      (tableAllocated, interactionTable, tableWidth, tableHeight)
    }

    /** Whether an allocated table has a column per entity handle and a row per light handle. */
    ghost predicate TableCovers()
      reads this
    {
      tableAllocated ==> |entityDefs| <= tableWidth && |lightDefs| <= tableHeight
    }

    /**
     * AddEntityRefToArea: an Error for a NULL def; else no change if the
     * entity already references the area, else one new reference at the
     * head of its chain and the tail of the area's list.
     */
    method AddEntityRefToArea(h: int, a: nat) returns (ok: bool)
      requires Valid() && a < |entityLinks.areas|
      modifies this
      ensures Valid()
      ensures entityDefs == old(entityDefs) && lightDefs == old(lightDefs) && lightLinks == old(lightLinks)
      ensures TableState() == old(TableState())
      ensures ok <==> 0 <= h < |entityDefs| && entityDefs[h].Some?
      ensures ok ==> entityLinks == AddRef(old(entityLinks), h, a, true)
      ensures !ok ==> entityLinks == old(entityLinks)
    {
      if !(0 <= h < |entityDefs| && entityDefs[h].Some?) {
        return false;
      }
      var chain := entityLinks.owners[h];
      var i := 0;
      while i < |chain|
        invariant 0 <= i <= |chain|
        invariant forall k :: 0 <= k < i ==> chain[k] != a
      {
        if chain[i] == a {
          return true;
        }
        i := i + 1;
      }
      AddRefConsistent(entityLinks, h, a, true);
      entityLinks := RefLinks(entityLinks.owners[h := [a] + chain], entityLinks.areas[a := entityLinks.areas[a] + [h]]);
      return true;
    }

    /**
     * AddLightRefToArea: no change if the light already references the
     * area, else one new reference at the head of its chain and the head of
     * the area's list. The light must be live: the source dereferences it.
     */
    method AddLightRefToArea(h: nat, a: nat)
      requires Valid() && h < |lightDefs| && lightDefs[h].Some? && a < |lightLinks.areas|
      modifies this
      ensures Valid()
      ensures lightLinks == AddRef(old(lightLinks), h, a, false)
      ensures entityDefs == old(entityDefs) && lightDefs == old(lightDefs) && entityLinks == old(entityLinks)
      ensures TableState() == old(TableState())
    {
      var chain := lightLinks.owners[h];
      var i := 0;
      while i < |chain|
        invariant 0 <= i <= |chain|
        invariant forall k :: 0 <= k < i ==> chain[k] != a
      {
        if chain[i] == a {
          return;
        }
        i := i + 1;
      }
      AddRefConsistent(lightLinks, h, a, false);
      lightLinks := RefLinks(lightLinks.owners[h := [a] + chain], lightLinks.areas[a := [h] + lightLinks.areas[a]]);
    }

    /** The `while (handle >= Num()) Append(NULL)` loop, with an empty reference chain per new slot. */
    static method PadDefs<T>(defs0: seq<Option<T>>, links0: RefLinks, h: nat) returns (defs: seq<Option<T>>, links: RefLinks)
      requires |links0.owners| == |defs0| && Consistent(links0)
      ensures defs == Padded(defs0, h) && links == PadLinks(links0, |defs|)
      ensures h < |defs| && |links.owners| == |defs| && Consistent(links)
    {
      defs, links := defs0, links0;
      while h >= |defs|
        invariant |defs0| <= |defs| <= if h < |defs0| then |defs0| else h + 1
        invariant defs == defs0 + seq(|defs| - |defs0|, _ => None)
        invariant links == PadLinks(links0, |defs|)
        decreases h - |defs|
      {
        defs := defs + [None];
        links := RefLinks(links.owners + [[]], links.areas);
      }
      assert defs == Padded(defs0, h);
      PadLinksConsistent(links0, |defs|);
    }

    /** CreateEntityRefs with the areas the entity's bounds reach given as a list. */
    method CreateEntityRefs(h: nat, refAreas: seq<nat>)
      requires Valid() && h < |entityDefs| && entityDefs[h].Some?
      requires forall a :: a in refAreas ==> a < |entityLinks.areas|
      modifies this
      ensures Valid()
      ensures entityDefs == old(entityDefs) && lightDefs == old(lightDefs) && lightLinks == old(lightLinks)
      ensures TableState() == old(TableState())
      ensures entityLinks == AddRefs(old(entityLinks), h, refAreas, true)
    {
      for i := 0 to |refAreas|
        invariant Valid()
        invariant entityDefs == old(entityDefs) && lightDefs == old(lightDefs) && lightLinks == old(lightLinks)
        invariant TableState() == old(TableState())
        invariant |entityLinks.areas| == |old(entityLinks).areas|
        invariant forall a :: a in refAreas[..i] ==> a in refAreas
        invariant entityLinks == AddRefs(old(entityLinks), h, refAreas[..i], true)
      {
        assert forall a :: a in refAreas[..i + 1] ==> a in refAreas;
        assert refAreas[i] in refAreas;
        assert refAreas[..i + 1][..i] == refAreas[..i];
        var _ := AddEntityRefToArea(h, refAreas[i]);
      }
      assert refAreas[..|refAreas|] == refAreas;
    }

    /**
     * The part of UpdateEntityDef before CreateEntityRefs: pads the list,
     * then takes the exact-match or callback shortcut, or frees the def's
     * references and stores the new def. Reports whether references must
     * be created anew.
     */
    method UnlinkEntityDef(h: nat, re: EntityParms, frameCount: int) returns (relink: bool)
      requires Valid()
      modifies this
      ensures Valid()
      ensures relink == EntityRelinks(old(entityDefs), h, re)
      ensures (entityDefs, entityLinks) == EntityUnlinked(old(entityDefs), old(entityLinks), h, re, frameCount)
      ensures lightDefs == old(lightDefs) && lightLinks == old(lightLinks)
      ensures TableState() == old(TableState())
    {
      EntityUnlinkedKeepsOk(entityDefs, lightDefs, entityLinks, lightLinks, decals, overlays, h, re, frameCount);
      var defs, links;
      defs, links, relink := UnlinkEntityTables(entityDefs, entityLinks, h, re, frameCount);
      entityDefs, entityLinks := defs, links;
    }

    /** UnlinkEntityDef on the entity list and its links. */
    static method UnlinkEntityTables(defs0: seq<Option<EntityDef>>, links0: RefLinks, h: nat, re: EntityParms, frameCount: int)
      returns (defs: seq<Option<EntityDef>>, links: RefLinks, relink: bool)
      requires |links0.owners| == |defs0| && Consistent(links0)
      ensures relink == EntityRelinks(defs0, h, re)
      ensures (defs, links) == EntityUnlinked(defs0, links0, h, re, frameCount)
    {
      defs, links := PadDefs(defs0, links0, h);
      match defs[h] {
        case Some(def) =>
          if ExactMatch(def, re) {
            return defs, links, false;
          }
          if CallbackMatch(def, re) {
            // R_ClearEntityDefDynamicModel
            return defs[h := Some(def.(parms := re, dynamicModel := false))], links, false;
          }
          // FreeEntityDefDerivedData keeps the decals and overlays only for the same model
          var keep := def.parms.model == re.model;
          links := RemoveOwner(links, h);
          defs := defs[h := Some(def.(parms := re, lastModifiedFrameNum := frameCount, dynamicModel := false,
                                      decals := if keep then def.decals else None, overlays := if keep then def.overlays else None))];
        case None =>
          defs := defs[h := Some(NewEntityDef(h, re, frameCount))];
      }
      return defs, links, true;
    }

    /**
     * UpdateEntityDef. With skipUpdates nothing happens; a NULL model
     * without a callback or a handle outside [0, LUDICROUS_INDEX] is an
     * Error; otherwise the tables end up as EntityUpdated describes.
     */
    method UpdateEntityDef(h: int, re: EntityParms, frameCount: int, refAreas: seq<nat>, skipUpdates: bool) returns (ok: bool)
      requires Valid()
      requires forall a :: a in refAreas ==> a < |entityLinks.areas|
      modifies this
      ensures Valid()
      ensures lightDefs == old(lightDefs) && lightLinks == old(lightLinks)
      ensures TableState() == old(TableState())
      ensures ok <==> skipUpdates || !EntityUpdateFails(h, re)
      ensures skipUpdates || !ok ==> entityDefs == old(entityDefs) && entityLinks == old(entityLinks)
      ensures !skipUpdates && ok ==>
        (entityDefs, entityLinks) == EntityUpdated(old(entityDefs), old(entityLinks), h, re, frameCount, refAreas)
    {
      if skipUpdates {
        return true;
      }
      if EntityUpdateFails(h, re) {
        return false;
      }
      var relink := UnlinkEntityDef(h, re, frameCount);
      if relink && LinksIn(re) {
        CreateEntityRefs(h, refAreas);
      }
      return true;
    }

    /** CreateLightRefs with the areas the light's volume reaches given as a list. */
    method CreateLightRefs(h: nat, refAreas: seq<nat>)
      requires Valid() && h < |lightDefs| && lightDefs[h].Some?
      requires forall a :: a in refAreas ==> a < |lightLinks.areas|
      modifies this
      ensures Valid()
      ensures entityDefs == old(entityDefs) && lightDefs == old(lightDefs) && entityLinks == old(entityLinks)
      ensures TableState() == old(TableState())
      ensures lightLinks == AddRefs(old(lightLinks), h, refAreas, false)
    {
      for i := 0 to |refAreas|
        invariant Valid()
        invariant entityDefs == old(entityDefs) && lightDefs == old(lightDefs) && entityLinks == old(entityLinks)
        invariant TableState() == old(TableState())
        invariant |lightLinks.areas| == |old(lightLinks).areas|
        invariant forall a :: a in refAreas[..i] ==> a in refAreas
        invariant lightLinks == AddRefs(old(lightLinks), h, refAreas[..i], false)
      {
        assert forall a :: a in refAreas[..i + 1] ==> a in refAreas;
        assert refAreas[i] in refAreas;
        assert refAreas[..i + 1][..i] == refAreas[..i];
        AddLightRefToArea(h, refAreas[i]);
      }
      assert refAreas[..|refAreas|] == refAreas;
    }

    /**
     * The part of UpdateLightDef before CreateLightRefs: pads the list,
     * keeps the references of a light whose shape is unchanged or frees
     * them and marks the light as moved, then stores the parms with
     * spectrum lights unshadowed and a moved light's prelight model
     * dropped. Reports whether references must be created anew.
     */
    method UnlinkLightDef(h: nat, rlight: LightParms, frameCount: int) returns (relink: bool)
      requires Valid()
      modifies this
      ensures Valid()
      ensures relink == LightRelinks(old(lightDefs), h, rlight)
      ensures (lightDefs, lightLinks) == LightUnlinked(old(lightDefs), old(lightLinks), h, rlight, frameCount)
      ensures entityDefs == old(entityDefs) && entityLinks == old(entityLinks)
      ensures TableState() == old(TableState())
    {
      LightUnlinkedKeepsOk(entityDefs, lightDefs, entityLinks, lightLinks, h, rlight, frameCount);
      var defs, links;
      defs, links, relink := UnlinkLightTables(lightDefs, lightLinks, h, rlight, frameCount);
      lightDefs, lightLinks := defs, links;
    }

    /** UnlinkLightDef on the light list and its links. */
    static method UnlinkLightTables(defs0: seq<Option<LightDef>>, links0: RefLinks, h: nat, rlight: LightParms, frameCount: int)
      returns (defs: seq<Option<LightDef>>, links: RefLinks, relink: bool)
      requires |links0.owners| == |defs0| && Consistent(links0)
      ensures relink == LightRelinks(defs0, h, rlight)
      ensures (defs, links) == LightUnlinked(defs0, links0, h, rlight, frameCount)
    {
      defs, links := PadDefs(defs0, links0, h);
      var justUpdate := false;
      var light: LightDef;
      match defs[h] {
        case Some(l) =>
          light := l;
          if SameShape(l.parms, rlight) {
            justUpdate := true;
          } else {
            // the prelight model no longer matches the shadows
            light := light.(lightHasMoved := true);
            links := RemoveOwner(links, h);
          }
        case None =>
          light := LightDef(h, rlight, frameCount, false);
      }
      var parms := rlight;
      if parms.spectrum {
        parms := parms.(noShadows := true);
      }
      if light.lightHasMoved {
        parms := parms.(prelightModel := 0);
      }
      light := light.(parms := parms, lastModifiedFrameNum := frameCount);
      return defs[h := Some(light)], links, !justUpdate;
    }

    /**
     * UpdateLightDef. With skipUpdates nothing happens; a handle outside
     * [0, LUDICROUS_INDEX] is an Error; otherwise the tables end up as
     * LightUpdated describes.
     */
    method UpdateLightDef(h: int, rlight: LightParms, frameCount: int, refAreas: seq<nat>, skipUpdates: bool) returns (ok: bool)
      requires Valid()
      requires forall a :: a in refAreas ==> a < |lightLinks.areas|
      modifies this
      ensures Valid()
      ensures entityDefs == old(entityDefs) && entityLinks == old(entityLinks)
      ensures TableState() == old(TableState())
      ensures ok <==> skipUpdates || 0 <= h <= LUDICROUS_INDEX
      ensures skipUpdates || !ok ==> lightDefs == old(lightDefs) && lightLinks == old(lightLinks)
      ensures !skipUpdates && ok ==>
        (lightDefs, lightLinks) == LightUpdated(old(lightDefs), old(lightLinks), h, rlight, frameCount, refAreas)
    {
      if skipUpdates {
        return true;
      }
      if h < 0 || h > LUDICROUS_INDEX {
        return false;
      }
      var relink := UnlinkLightDef(h, rlight, frameCount);
      if relink {
        CreateLightRefs(h, refAreas);
      }
      return true;
    }

    /** `Append( NULL )` on the entity list, then a wider table when an allocated one lacks a column for the new handle. */
    method AppendEntityDef() returns (h: nat)
      requires Valid()
      modifies this
      ensures Valid()
      ensures h == |old(entityDefs)| && entityDefs == old(entityDefs) + [None] && entityLinks == PadLinks(old(entityLinks), h + 1)
      ensures lightDefs == old(lightDefs) && lightLinks == old(lightLinks)
      ensures tableAllocated == old(tableAllocated)
      ensures old(TableCovers()) ==> TableCovers()
    {
      h := |entityDefs|;
      PadLinksConsistent(entityLinks, h + 1);
      entityDefs, entityLinks := entityDefs + [None], PadLinks(entityLinks, h + 1);
      if tableAllocated && |entityDefs| > tableWidth {
        ResizeInteractionTable();
      }
    }

    /** `Append( NULL )` on the light list, then a wider table when an allocated one lacks a row for the new handle. */
    method AppendLightDef() returns (h: nat)
      requires Valid()
      modifies this
      ensures Valid()
      ensures h == |old(lightDefs)| && lightDefs == old(lightDefs) + [None] && lightLinks == PadLinks(old(lightLinks), h + 1)
      ensures entityDefs == old(entityDefs) && entityLinks == old(entityLinks)
      ensures tableAllocated == old(tableAllocated)
      ensures old(TableCovers()) ==> TableCovers()
    {
      h := |lightDefs|;
      PadLinksConsistent(lightLinks, h + 1);
      lightDefs, lightLinks := lightDefs + [None], PadLinks(lightLinks, h + 1);
      if tableAllocated && |lightDefs| > tableHeight {
        ResizeInteractionTable();
      }
    }

    /** The first NULL entity slot, else a new one appended (widening an allocated table if needed). */
    method ReserveEntityHandle() returns (h: nat)
      requires Valid()
      modifies this
      ensures Valid()
      ensures h == if FirstNull(old(entityDefs)) >= 0 then FirstNull(old(entityDefs)) else |old(entityDefs)|
      ensures entityDefs == if FirstNull(old(entityDefs)) >= 0 then old(entityDefs) else old(entityDefs) + [None]
      ensures h < |entityDefs| && |entityLinks.areas| == |old(entityLinks.areas)|
      ensures lightDefs == old(lightDefs) && lightLinks == old(lightLinks)
      ensures tableAllocated == old(tableAllocated)
      ensures old(TableCovers()) ==> TableCovers()
    {
      var free := FirstNull(entityDefs);
      if free == -1 {
        h := AppendEntityDef();
      } else {
        h := free;
      }
    }

    /** The first NULL light slot, else a new one appended (adding a table row if needed). */
    method ReserveLightHandle() returns (h: nat)
      requires Valid()
      modifies this
      ensures Valid()
      ensures h == if FirstNull(old(lightDefs)) >= 0 then FirstNull(old(lightDefs)) else |old(lightDefs)|
      ensures lightDefs == if FirstNull(old(lightDefs)) >= 0 then old(lightDefs) else old(lightDefs) + [None]
      ensures h < |lightDefs| && |lightLinks.areas| == |old(lightLinks.areas)|
      ensures entityDefs == old(entityDefs) && entityLinks == old(entityLinks)
      ensures tableAllocated == old(tableAllocated)
      ensures old(TableCovers()) ==> TableCovers()
    {
      var free := FirstNull(lightDefs);
      if free == -1 {
        h := AppendLightDef();
      } else {
        h := free;
      }
    }

    /**
     * AddEntityDef: reuses the first NULL slot, else appends one (widening
     * an allocated interaction table that no longer has a column for it),
     * then updates that handle.
     */
    method AddEntityDef(re: EntityParms, frameCount: int, refAreas: seq<nat>, skipUpdates: bool) returns (h: int, ok: bool)
      requires Valid()
      requires forall a :: a in refAreas ==> a < |entityLinks.areas|
      modifies this
      ensures Valid()
      ensures h == if FirstNull(old(entityDefs)) >= 0 then FirstNull(old(entityDefs)) else |old(entityDefs)|
      ensures ok <==> skipUpdates || !EntityUpdateFails(h, re)
      ensures ok && !skipUpdates ==>
        0 <= h < |entityDefs| && GetRenderEntity(h) == Some(re) &&
        forall k :: 0 <= k < |entityDefs| && k != h ==> k < |old(entityDefs)| && entityDefs[k] == old(entityDefs)[k]
      ensures lightDefs == old(lightDefs) && lightLinks == old(lightLinks)
      ensures tableAllocated == old(tableAllocated)
      ensures old(TableCovers()) ==> TableCovers()
    {
      h := ReserveEntityHandle();
      ghost var defs0, links0 := entityDefs, entityLinks;
      ok := UpdateEntityDef(h, re, frameCount, refAreas, skipUpdates);
      if ok && !skipUpdates {
        EntityUpdatedDefs(defs0, links0, h, re, frameCount, refAreas);
      }
    }

    /** AddLightDef: reuses the first NULL slot, else appends one (adding a table row if needed), then updates that handle. */
    method AddLightDef(rlight: LightParms, frameCount: int, refAreas: seq<nat>, skipUpdates: bool) returns (h: int, ok: bool)
      requires Valid()
      requires forall a :: a in refAreas ==> a < |lightLinks.areas|
      modifies this
      ensures Valid()
      ensures h == if FirstNull(old(lightDefs)) >= 0 then FirstNull(old(lightDefs)) else |old(lightDefs)|
      ensures ok <==> skipUpdates || h <= LUDICROUS_INDEX
      ensures ok && !skipUpdates ==>
        0 <= h < |lightDefs| && GetRenderLight(h).Some? &&
        lightDefs[h].value.parms == StoredLightParms(rlight, lightDefs[h].value.lightHasMoved) &&
        forall k :: 0 <= k < |lightDefs| && k != h ==> k < |old(lightDefs)| && lightDefs[k] == old(lightDefs)[k]
      ensures entityDefs == old(entityDefs) && entityLinks == old(entityLinks)
      ensures tableAllocated == old(tableAllocated)
      ensures old(TableCovers()) ==> TableCovers()
    {
      h := ReserveLightHandle();
      ghost var defs0, links0 := lightDefs, lightLinks;
      ok := UpdateLightDef(h, rlight, frameCount, refAreas, skipUpdates);
      if ok && !skipUpdates {
        LightUpdatedDefs(defs0, links0, h, rlight, frameCount, refAreas);
      }
    }

    /**
     * FreeEntityDef: a bad or empty handle only prints; otherwise every
     * reference of the def is unlinked and its slot becomes NULL.
     */
    method FreeEntityDef(h: int) returns (ok: bool)
      requires Valid()
      modifies this
      ensures Valid()
      ensures ok <==> 0 <= h < |old(entityDefs)| && old(entityDefs)[h].Some?
      ensures ok ==> entityDefs == old(entityDefs)[h := None] && entityLinks == RemoveOwner(old(entityLinks), h)
      ensures ok ==> GetRenderEntity(h).None? && forall a :: 0 <= a < |entityLinks.areas| ==> h !in entityLinks.areas[a]
      ensures !ok ==> entityDefs == old(entityDefs) && entityLinks == old(entityLinks)
      ensures lightDefs == old(lightDefs) && lightLinks == old(lightLinks)
      ensures TableState() == old(TableState())
    {
      if h < 0 || h >= |entityDefs| || entityDefs[h].None? {
        return false;
      }
      RemoveOwnerConsistent(entityLinks, h);
      entityLinks := RemoveOwner(entityLinks, h);
      entityDefs := entityDefs[h := None];
      return true;
    }

    /** FreeLightDef: a bad or empty handle only prints; otherwise the light's references go and its slot becomes NULL. */
    method FreeLightDef(h: int) returns (ok: bool)
      requires Valid()
      modifies this
      ensures Valid()
      ensures ok <==> 0 <= h < |old(lightDefs)| && old(lightDefs)[h].Some?
      ensures ok ==> lightDefs == old(lightDefs)[h := None] && lightLinks == RemoveOwner(old(lightLinks), h)
      ensures ok ==> GetRenderLight(h).None? && forall a :: 0 <= a < |lightLinks.areas| ==> h !in lightLinks.areas[a]
      ensures !ok ==> lightDefs == old(lightDefs) && lightLinks == old(lightLinks)
      ensures entityDefs == old(entityDefs) && entityLinks == old(entityLinks)
      ensures TableState() == old(TableState())
    {
      if h < 0 || h >= |lightDefs| || lightDefs[h].None? {
        return false;
      }
      RemoveOwnerConsistent(lightLinks, h);
      lightLinks := RemoveOwner(lightLinks, h);
      lightDefs := lightDefs[h := None];
      return true;
    }

    /**
     * AllocDecal: takes the slot started longest ago (the first of equal
     * ones), detaches it from the def that still points at it and gives it
     * to the new owner.
     */
    method AllocDecal(newEntityHandle: int, startTime: int) returns (slot: nat)
      requires Valid() && IsInt32(startTime)
      modifies this, decals
      ensures Valid()
      ensures slot < MAX_DECAL_SURFACES
      ensures forall k :: 0 <= k < MAX_DECAL_SURFACES ==> old(decals[slot].lastStartTime) <= old(decals[k].lastStartTime)
      ensures forall k :: 0 <= k < slot ==> old(decals[k].lastStartTime) > old(decals[slot].lastStartTime)
      ensures decals[..] == old(decals[..])[slot := ReusableSlot(newEntityHandle, startTime)]
      ensures entityDefs == DetachDecal(old(entityDefs), old(decals[slot].entityHandle), slot)
      ensures forall k :: 0 <= k < |entityDefs| && entityDefs[k].Some? ==> entityDefs[k].value.decals != Some(slot)
      ensures entityLinks == old(entityLinks) && lightDefs == old(lightDefs) && lightLinks == old(lightLinks)
      ensures TableState() == old(TableState())
    {
      slot := OldestSlot(decals);
      var owner := decals[slot].entityHandle;
      forall k | 0 <= k < |entityDefs| && entityDefs[k].Some? && entityDefs[k].value.decals == Some(slot)
        ensures k == owner
      {
      }
      entityDefs := DetachDecal(entityDefs, owner, slot);
      decals[slot] := ReusableSlot(newEntityHandle, startTime);
    }

    /** AllocOverlay: the same policy over the overlay slots. */
    method AllocOverlay(newEntityHandle: int, startTime: int) returns (slot: nat)
      requires Valid() && IsInt32(startTime)
      modifies this, overlays
      ensures Valid()
      ensures slot < MAX_DECAL_SURFACES
      ensures forall k :: 0 <= k < MAX_DECAL_SURFACES ==> old(overlays[slot].lastStartTime) <= old(overlays[k].lastStartTime)
      ensures forall k :: 0 <= k < slot ==> old(overlays[k].lastStartTime) > old(overlays[slot].lastStartTime)
      ensures overlays[..] == old(overlays[..])[slot := ReusableSlot(newEntityHandle, startTime)]
      ensures entityDefs == DetachOverlay(old(entityDefs), old(overlays[slot].entityHandle), slot)
      ensures forall k :: 0 <= k < |entityDefs| && entityDefs[k].Some? ==> entityDefs[k].value.overlays != Some(slot)
      ensures entityLinks == old(entityLinks) && lightDefs == old(lightDefs) && lightLinks == old(lightLinks)
      ensures TableState() == old(TableState())
    {
      slot := OldestSlot(overlays);
      var owner := overlays[slot].entityHandle;
      forall k | 0 <= k < |entityDefs| && entityDefs[k].Some? && entityDefs[k].value.overlays == Some(slot)
        ensures k == owner
      {
      }
      entityDefs := DetachOverlay(entityDefs, owner, slot);
      overlays[slot] := ReusableSlot(newEntityHandle, startTime);
    }

    /**
     * FreeDefs: drops the interaction table, frees every light and entity
     * def, and resets every decal and overlay slot to no owner at time 0.
     */
    method FreeDefs()
      requires Valid()
      modifies this, decals, overlays
      ensures Valid() && !tableAllocated
      ensures |entityDefs| == |old(entityDefs)| && |lightDefs| == |old(lightDefs)|
      ensures forall k :: 0 <= k < |entityDefs| ==> entityDefs[k].None? && entityLinks.owners[k] == []
      ensures forall k :: 0 <= k < |lightDefs| ==> lightDefs[k].None? && lightLinks.owners[k] == []
      ensures |entityLinks.areas| == |old(entityLinks.areas)| && |lightLinks.areas| == |old(lightLinks.areas)|
      ensures forall a :: 0 <= a < |entityLinks.areas| ==> entityLinks.areas[a] == []
      ensures forall a :: 0 <= a < |lightLinks.areas| ==> lightLinks.areas[a] == []
      ensures forall k :: 0 <= k < MAX_DECAL_SURFACES ==> decals[k] == ReusableSlot(-1, 0) && overlays[k] == ReusableSlot(-1, 0)
    {
      tableAllocated := false;
      FreeAllLightDefs();
      FreeAllEntityDefs();
      NoOwnersNoRefs(entityLinks);
      NoOwnersNoRefs(lightLinks);
      ResetSlots(decals);
      ResetSlots(overlays);
    }

    /** The light loop of FreeDefs: FreeLightDef on every live light, leaving the list all NULL. */
    method FreeAllLightDefs()
      requires Valid()
      modifies this
      ensures Valid()
      ensures |lightDefs| == |old(lightDefs)| && forall k :: 0 <= k < |lightDefs| ==> lightDefs[k].None?
      ensures |lightLinks.areas| == |old(lightLinks.areas)|
      ensures entityDefs == old(entityDefs) && entityLinks == old(entityLinks)
      ensures TableState() == old(TableState())
    {
      for i := 0 to |lightDefs|
        invariant Valid()
        invariant |lightDefs| == |old(lightDefs)| && |lightLinks.areas| == |old(lightLinks.areas)|
        invariant entityDefs == old(entityDefs) && entityLinks == old(entityLinks)
        invariant TableState() == old(TableState())
        invariant forall k :: 0 <= k < i ==> lightDefs[k].None?
      {
        if lightDefs[i].Some? {
          var _ := FreeLightDef(i);
          assert lightDefs[i := None] == lightDefs;
          lightDefs := lightDefs[i := None];
        }
      }
    }

    /** The entity loop of FreeDefs: FreeEntityDef on every live def, leaving the list all NULL. */
    method FreeAllEntityDefs()
      requires Valid()
      modifies this
      ensures Valid()
      ensures |entityDefs| == |old(entityDefs)| && forall k :: 0 <= k < |entityDefs| ==> entityDefs[k].None?
      ensures |entityLinks.areas| == |old(entityLinks.areas)|
      ensures lightDefs == old(lightDefs) && lightLinks == old(lightLinks)
      ensures TableState() == old(TableState())
    {
      for i := 0 to |entityDefs|
        invariant Valid()
        invariant |entityDefs| == |old(entityDefs)| && |entityLinks.areas| == |old(entityLinks.areas)|
        invariant lightDefs == old(lightDefs) && lightLinks == old(lightLinks)
        invariant TableState() == old(TableState())
        invariant forall k :: 0 <= k < i ==> entityDefs[k].None?
      {
        if entityDefs[i].Some? {
          var _ := FreeEntityDef(i);
          assert entityDefs[i := None] == entityDefs;
          entityDefs := entityDefs[i := None];
        }
      }
    }

    /** The reset loops of FreeDefs: every slot loses its owner and its start time. */
    static method ResetSlots(slots: array<ReusableSlot>)
      modifies slots
      ensures forall k :: 0 <= k < slots.Length ==> slots[k] == ReusableSlot(-1, 0)
    {
      for i := 0 to slots.Length
        invariant forall k :: 0 <= k < i ==> slots[k] == ReusableSlot(-1, 0)
      {
        slots[i] := ReusableSlot(-1, 0);
      }
    }

    /**
     * The reference half of SetupAreaRefs: every area's entity and light
     * lists become empty. Callers have already unlinked every def, so no
     * owner chain points into the old lists.
     */
    method SetupAreaRefs(numPortalAreas: nat)
      requires Valid()
      requires forall h :: 0 <= h < |entityLinks.owners| ==> entityLinks.owners[h] == []
      requires forall h :: 0 <= h < |lightLinks.owners| ==> lightLinks.owners[h] == []
      modifies this
      ensures Valid()
      ensures entityLinks == RefLinks(old(entityLinks.owners), seq(numPortalAreas, _ => []))
      ensures lightLinks == RefLinks(old(lightLinks.owners), seq(numPortalAreas, _ => []))
      ensures entityDefs == old(entityDefs) && lightDefs == old(lightDefs)
      ensures TableState() == old(TableState())
    {
      var empty: seq<seq<nat>> := [];
      for i := 0 to numPortalAreas
        invariant empty == seq(i, _ => [])
      {
        empty := empty + [[]];
      }
      entityLinks := RefLinks(entityLinks.owners, empty);
      lightLinks := RefLinks(lightLinks.owners, empty);
    }
  }

  /**
   * Row l of the resized table, which starts at `base` and is filled from
   * `from` in the old one: the old row's cells, then cleared cells.
   */
  lemma RowOfResized(prev: seq<InteractionSlot>, oldW: nat, oldH: nat, newW: nat, newH: nat, l: nat, base: nat, from: nat)
    requires |prev| == oldW * oldH && oldW <= newW && oldH <= newH && 0 < newW && l < oldH
    requires base == l * newW && from == l * oldW
    ensures base + newW <= newW * newH && (l + 1) * newW == base + newW && (l + 1) * oldW == from + oldW
    ensures from + oldW <= |prev|
    ensures forall c :: base <= c < base + newW ==>
      Resized(prev, oldW, oldH, newW, newH)[c] == if c - base < oldW then prev[c - base + from] else NotTested
  {
    RowBounds(l, newW, newH);
    RowBounds(l, oldW, oldH);
    forall c | base <= c < base + newW
      ensures Resized(prev, oldW, oldH, newW, newH)[c] == if c - base < oldW then prev[c - base + from] else NotTested
    {
      var e := c - base;
      if e < oldW {
        ResizedKeeps(prev, oldW, oldH, newW, newH, l, e);
      } else {
        ResizedClearsRest(prev, oldW, oldH, newW, newH, l, e);
      }
    }
  }

  /** A table that agrees with the resize on the copied rows and is cleared below them is the resize. */
  lemma ResizedFromRows(t: seq<InteractionSlot>, prev: seq<InteractionSlot>, oldW: nat, oldH: nat, newW: nat, newH: nat, base: nat)
    requires |prev| == oldW * oldH && oldW <= newW && oldH <= newH && 0 < newW
    requires |t| == newW * newH && base == oldH * newW
    requires forall c :: 0 <= c < base && c < |t| ==> t[c] == Resized(prev, oldW, oldH, newW, newH)[c]
    requires forall c :: base <= c < |t| ==> t[c] == NotTested
    ensures t == Resized(prev, oldW, oldH, newW, newH)
  {
    forall c | base <= c < |t| ensures Resized(prev, oldW, oldH, newW, newH)[c] == NotTested {
      RowColSplit(c, newW);
      var (l, e) := RowCol(c, newW);
      if l < oldH {
        RowBounds(l, newW, oldH);
        assert false;
      }
    }
  }

  // ---------------------------------------------------------------------
  // The area BSP tree
  // ---------------------------------------------------------------------

  /**
   * An areaNode_t without its plane. A child above 0 is a node index, 0 is
   * solid and a negative child n is the leaf of area -1-n.
   */
  datatype AreaNode = AreaNode(front: int, back: int)

  /** Node children point forward in the node list, so every walk ends. */
  predicate WellFormedTree(nodes: seq<AreaNode>) {
    forall n :: 0 <= n < |nodes| ==>
      (nodes[n].front <= 0 || n < nodes[n].front < |nodes|) &&
      (nodes[n].back <= 0 || n < nodes[n].back < |nodes|)
  }

  /** The area a non-positive child stands for: -1 for solid, else 0, 1, 2, ... */
  function ChildArea(c: int): (a: int)
    requires c <= 0
    ensures a >= -1 && (a == -1 <==> c == 0)
    ensures c == -1 - a
  {
    -1 - c
  }

  /** Whether some node has the leaf of area `a` as a child. */
  ghost predicate LeafInTree(nodes: seq<AreaNode>, a: int) {
    exists n :: 0 <= n < |nodes| && (nodes[n].front == -1 - a || nodes[n].back == -1 - a)
  }

  /** Whether every leaf of the tree names an area below numAreas. */
  ghost predicate LeavesInRange(nodes: seq<AreaNode>, numAreas: int) {
    forall n :: 0 <= n < |nodes| ==>
      (nodes[n].front < 0 ==> -1 - nodes[n].front < numAreas) &&
      (nodes[n].back < 0 ==> -1 - nodes[n].back < numAreas)
  }

  datatype Side = Front | Back | Cross

  /**
   * PointInArea: walks from the root to a leaf. `inFront(n)` is the plane
   * test of the point against node n. None is the Error for an area out of
   * range.
   */
  method PointInArea(nodes: seq<AreaNode>, numPortalAreas: int, inFront: int -> bool) returns (r: Option<int>)
    requires WellFormedTree(nodes)
    ensures nodes == [] ==> r == Some(-1)
    ensures r.Some? ==> r.value == -1 || (0 <= r.value < numPortalAreas && LeafInTree(nodes, r.value))
    ensures r.None? ==> !LeavesInRange(nodes, numPortalAreas)
  {
    if nodes == [] {
      return Some(-1);
    }
    var nodeNum := 0;
    while true
      invariant 0 <= nodeNum < |nodes|
      decreases |nodes| - nodeNum
    {
      var child := if inFront(nodeNum) then nodes[nodeNum].front else nodes[nodeNum].back;
      if child == 0 {
        return Some(-1);
      }
      if child < 0 {
        var area := -1 - child;
        if area >= numPortalAreas {
          return None;
        }
        return Some(area);
      }
      nodeNum := child;
    }
  }

  /** The areas of the leaves a box on the given sides of the planes reaches from node n. */
  ghost function Leaves(nodes: seq<AreaNode>, side: int -> Side, n: nat): set<int>
    requires WellFormedTree(nodes) && n < |nodes|
    decreases |nodes| - n
  {
    var f, b := nodes[n].front, nodes[n].back;
    var lf := if f < 0 then {-1 - f} else if f == 0 then {} else Leaves(nodes, side, f);
    var lb := if b < 0 then {-1 - b} else if b == 0 then {} else Leaves(nodes, side, b);
    match side(n)
    case Front => lf
    case Back => lb
    case Cross => lb + lf
  }

  /** What a walk entered at `c` reaches: a leaf's own area, or the leaves under node c. */
  ghost function Reach(nodes: seq<AreaNode>, side: int -> Side, c: int): set<int>
    requires WellFormedTree(nodes) && c < |nodes|
  {
    if c < 0 then {-1 - c} else Leaves(nodes, side, c)
  }

  /** What a child link leads to: nothing for 0, otherwise what entering it reaches. */
  ghost function Sub(nodes: seq<AreaNode>, side: int -> Side, c: int): set<int>
    requires WellFormedTree(nodes) && c < |nodes|
  {
    if c == 0 then {} else Reach(nodes, side, c)
  }

  /** One level of Leaves: a node reaches what its chosen children reach. */
  lemma ReachStep(nodes: seq<AreaNode>, side: int -> Side, n: int)
    requires WellFormedTree(nodes) && 0 <= n < |nodes|
    ensures nodes[n].front < |nodes| && nodes[n].back < |nodes|
    ensures side(n).Front? ==> Reach(nodes, side, n) == Sub(nodes, side, nodes[n].front)
    ensures side(n).Back? ==> Reach(nodes, side, n) == Sub(nodes, side, nodes[n].back)
    ensures side(n).Cross? ==>
      Reach(nodes, side, n) == Sub(nodes, side, nodes[n].back) + Sub(nodes, side, nodes[n].front)
  {
  }

  /** Whether `a` occurs among the first n entries of the area array. */
  ghost predicate Listed(areas: seq<int>, n: nat, a: int)
    requires n <= |areas|
  {
    a in areas[..n]
  }

  predicate DistinctInts(s: seq<int>) {
    forall i, j :: 0 <= i < j < |s| ==> s[i] != s[j]
  }

  /**
   * BoundsInAreas_r: appends each reached area not yet listed, never more
   * than maxAreas in all. Unless the array filled up, every reached area is
   * listed; every added one was reached.
   */
  method BoundsInAreas(nodes: seq<AreaNode>, side: int -> Side, nodeNum: int, areas: array<int>,
                       numAreas: nat, maxAreas: nat) returns (count: nat)
    requires WellFormedTree(nodes) && nodeNum < |nodes|
    requires numAreas <= maxAreas <= areas.Length
    requires DistinctInts(areas[..numAreas])
    modifies areas
    ensures numAreas <= count <= maxAreas
    ensures areas[..numAreas] == old(areas[..numAreas])
    ensures DistinctInts(areas[..count])
    ensures forall k :: numAreas <= k < count ==> areas[k] in Reach(nodes, side, nodeNum)
    ensures count < maxAreas ==> forall a :: a in Reach(nodes, side, nodeNum) ==> a in areas[..count]
    decreases if nodeNum < 0 then 0 else |nodes| - nodeNum + 1
  {
    ghost var target := Reach(nodes, side, nodeNum);
    count := numAreas;
    var n := nodeNum;
    while true
      invariant n < |nodes| && (n != 0 || n == nodeNum)
      invariant numAreas <= count <= maxAreas
      invariant areas[..numAreas] == old(areas[..numAreas])
      invariant DistinctInts(areas[..count])
      invariant Reach(nodes, side, n) <= target
      invariant forall k :: numAreas <= k < count ==> areas[k] in target
      invariant count < maxAreas ==> forall a :: a in target ==> a in Reach(nodes, side, n) || a in areas[..count]
      decreases if n < 0 then 0 else |nodes| - n + 1
    {
      if n < 0 {
        ghost var s0, count0 := areas[..], count;
        count := AddArea(areas, count, maxAreas, -1 - n);
        AfterLeaf(s0, areas[..], numAreas, count0, count, maxAreas, target, -1 - n);
        return;
      }
      ReachStep(nodes, side, n);
      var next;
      match side(n) {
        case Front =>
          next := nodes[n].front;
        case Back =>
          next := nodes[n].back;
        case Cross =>
          var b := nodes[n].back;
          if b != 0 {
            ghost var s0, count0 := areas[..], count;
            count := BoundsInAreas(nodes, side, b, areas, count, maxAreas);
            AfterBack(s0, areas[..], numAreas, count0, count, maxAreas, target,
                      Reach(nodes, side, b), Sub(nodes, side, nodes[n].front));
            if count >= maxAreas {
              return;
            }
          }
          next := nodes[n].front;
      }
      if next == 0 {
        return;
      }
      n := next;
    }
  }

  /**
   * The walk's bookkeeping across the recursive call on a crossed node's
   * back child: what that call added was reached, and what it reached is
   * listed unless the array filled up.
   */
  lemma AfterBack(s0: seq<int>, s1: seq<int>, numAreas: nat, count0: nat, count1: nat, maxAreas: nat,
                  target: set<int>, back: set<int>, front: set<int>)
    requires |s0| == |s1| && numAreas <= count0 <= count1 <= maxAreas <= |s0|
    requires forall k :: numAreas <= k < count0 ==> s0[k] in target
    requires count0 < maxAreas ==> forall a :: a in target ==> a in back + front || a in s0[..count0]
    requires back <= target
    requires s1[..count0] == s0[..count0]
    requires forall k :: count0 <= k < count1 ==> s1[k] in back
    requires count1 < maxAreas ==> forall a :: a in back ==> a in s1[..count1]
    ensures s1[..numAreas] == s0[..numAreas]
    ensures forall k :: numAreas <= k < count1 ==> s1[k] in target
    ensures count1 < maxAreas ==> forall a :: a in target ==> a in front || a in s1[..count1]
  {
    assert s1[..numAreas] == s1[..count0][..numAreas];
    forall k | numAreas <= k < count1 ensures s1[k] in target {
      if k < count0 {
        assert s1[k] == s1[..count0][k];
      }
    }
    if count1 < maxAreas {
      forall a | a in target ensures a in front || a in s1[..count1] {
        if a !in back && a !in front {
          var i :| 0 <= i < count0 && s0[i] == a;
          assert s1[i] == s1[..count0][i];
        }
      }
    }
  }

  /** The walk's bookkeeping across the store of the leaf area `a` it ends at. */
  lemma AfterLeaf(s0: seq<int>, s1: seq<int>, numAreas: nat, count0: nat, count1: nat, maxAreas: nat,
                  target: set<int>, a: int)
    requires |s0| == |s1| && numAreas <= count0 <= count1 <= maxAreas <= |s0|
    requires forall k :: numAreas <= k < count0 ==> s0[k] in target
    requires count0 < maxAreas ==> forall b :: b in target ==> b in {a} || b in s0[..count0]
    requires a in target
    requires s1[..count0] == s0[..count0]
    requires count1 == count0 || (count1 == count0 + 1 && s1[count0] == a)
    requires count1 < maxAreas ==> a in s1[..count1]
    ensures s1[..numAreas] == s0[..numAreas]
    ensures forall k :: numAreas <= k < count1 ==> s1[k] in target
    ensures count1 < maxAreas ==> forall b :: b in target ==> b in s1[..count1]
  {
    AfterBack(s0, s1, numAreas, count0, count1, maxAreas, target, {a}, {});
  }

  /** The duplicate check and bounded store for one leaf area. */
  method AddArea(areas: array<int>, count: nat, maxAreas: nat, a: int) returns (count': nat)
    requires count <= maxAreas <= areas.Length
    requires DistinctInts(areas[..count])
    modifies areas
    ensures areas[..count] == old(areas[..count])
    ensures count' == if a in old(areas[..count]) || count == maxAreas then count else count + 1
    ensures count' == count + 1 ==> areas[count] == a
    ensures DistinctInts(areas[..count'])
    ensures count' < maxAreas ==> a in areas[..count']
  {
    var i := 0;
    while i < count && areas[i] != a
      invariant 0 <= i <= count
      invariant forall k :: 0 <= k < i ==> areas[k] != a
    {
      i := i + 1;
    }
    count' := count;
    if i >= count && count < maxAreas {
      areas[count] := a;
      count' := count + 1;
      assert areas[..count'] == old(areas[..count]) + [a];
    }
  }
}
