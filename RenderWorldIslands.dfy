/**
 * The island numbering done while a map surface is parsed: triangles that
 * share a vertex, directly or through a chain of triangles, form one
 * island; islands are numbered from 1 in the order of their lowest
 * triangle, and every vertex gets the number of the island that uses it
 * (0 for a vertex no triangle uses).  The numbering drives the centring of
 * each island's texture coordinates, which is floating point and is not
 * part of this model.
 *
 * Triangles are counted by number rather than by index offset: triangle k
 * is the three indexes from offset 3k, and the visited flags and the queue
 * hold triangle numbers.
 */
module RenderWorldIslands {

  /** Corner c of triangle k. */
  function Corner(indexes: seq<nat>, k: nat, c: nat): nat
    requires k < |indexes| / 3 && c < 3
  {
    indexes[3 * k + c]
  }

  /** Vertex v is one of the corners of triangle k. */
  predicate IsCorner(indexes: seq<nat>, k: nat, v: nat)
    requires k < |indexes| / 3
  {
    Corner(indexes, k, 0) == v || Corner(indexes, k, 1) == v || Corner(indexes, k, 2) == v
  }

  /** The connection test of the flood: some corner of t is some corner of k (all nine pairs). */
  predicate Shares(indexes: seq<nat>, t: nat, k: nat)
    requires t < |indexes| / 3 && k < |indexes| / 3
  {
    Corner(indexes, t, 0) == Corner(indexes, k, 0) || Corner(indexes, t, 0) == Corner(indexes, k, 1) || Corner(indexes, t, 0) == Corner(indexes, k, 2) ||
    Corner(indexes, t, 1) == Corner(indexes, k, 0) || Corner(indexes, t, 1) == Corner(indexes, k, 1) || Corner(indexes, t, 1) == Corner(indexes, k, 2) ||
    Corner(indexes, t, 2) == Corner(indexes, k, 0) || Corner(indexes, t, 2) == Corner(indexes, k, 1) || Corner(indexes, t, 2) == Corner(indexes, k, 2)
  }

  /** A chain of triangles, each sharing a vertex with the next. */
  ghost predicate TriPath(indexes: seq<nat>, p: seq<nat>) {
    |p| > 0 &&
    (forall i | 0 <= i < |p| :: p[i] < |indexes| / 3) &&
    (forall i | 0 <= i < |p| - 1 :: Shares(indexes, p[i], p[i + 1]))
  }

  /** Triangles t and k are in one island: some chain leads from t to k. */
  ghost predicate Linked(indexes: seq<nat>, t: nat, k: nat) {
    exists p :: TriPath(indexes, p) && p[0] == t && p[|p| - 1] == k
  }

  lemma LinkedRefl(indexes: seq<nat>, t: nat)
    requires t < |indexes| / 3
    ensures Linked(indexes, t, t)
  {
    assert TriPath(indexes, [t]);
  }

  /** A chain from t to k extends by one triangle that shares a vertex with k. */
  lemma LinkedStep(indexes: seq<nat>, t: nat, k: nat, j: nat)
    requires k < |indexes| / 3 && j < |indexes| / 3
    requires Linked(indexes, t, k) && Shares(indexes, k, j)
    ensures Linked(indexes, t, j)
  {
    var p :| TriPath(indexes, p) && p[0] == t && p[|p| - 1] == k;
    var q := p + [j];
    assert TriPath(indexes, q);
  }

  /** Every chain read backwards is a chain. */
  lemma {:induction false} PathReversed(indexes: seq<nat>, p: seq<nat>)
    requires TriPath(indexes, p)
    ensures Linked(indexes, p[|p| - 1], p[0])
  {
    if |p| == 1 {
      LinkedRefl(indexes, p[0]);
    } else {
      var r := p[1..];
      assert TriPath(indexes, r);
      PathReversed(indexes, r);
      assert Shares(indexes, p[0], p[1]);
      LinkedStep(indexes, p[|p| - 1], p[1], p[0]);
    }
  }

  /** Being in one island is symmetric. */
  lemma LinkedSym(indexes: seq<nat>, t: nat, k: nat)
    requires Linked(indexes, t, k)
    ensures Linked(indexes, k, t)
  {
    var p :| TriPath(indexes, p) && p[0] == t && p[|p| - 1] == k;
    PathReversed(indexes, p);
  }

  /** A chain from a triangle linked to its start leads on to its end. */
  lemma {:induction false} PathExtends(indexes: seq<nat>, a: nat, p: seq<nat>)
    requires TriPath(indexes, p) && Linked(indexes, a, p[0])
    ensures Linked(indexes, a, p[|p| - 1])
  {
    if |p| > 1 {
      assert Shares(indexes, p[0], p[1]);
      LinkedStep(indexes, a, p[0], p[1]);
      var r := p[1..];
      assert TriPath(indexes, r);
      PathExtends(indexes, a, r);
    }
  }

  /** Being in one island is transitive. */
  lemma LinkedTrans(indexes: seq<nat>, a: nat, b: nat, c: nat)
    requires Linked(indexes, a, b) && Linked(indexes, b, c)
    ensures Linked(indexes, a, c)
  {
    var q :| TriPath(indexes, q) && q[0] == b && q[|q| - 1] == c;
    PathExtends(indexes, a, q);
  }

  // ---------------------------------------------------------------------
  // The state of the numbering
  // ---------------------------------------------------------------------

  /** The number of triangles not yet given an island (number 0). */
  function Unlabelled(islandOf: seq<nat>): (r: nat)
    ensures r <= |islandOf|
    ensures r == 0 <==> forall k | 0 <= k < |islandOf| :: islandOf[k] != 0
  {
    if islandOf == [] then 0
    else Unlabelled(islandOf[..|islandOf| - 1]) + (if islandOf[|islandOf| - 1] == 0 then 1 else 0)
  }

  /** Giving an unlabelled triangle an island leaves one fewer unlabelled. */
  lemma {:induction false} UnlabelledDrops(islandOf: seq<nat>, k: nat, n: nat)
    requires k < |islandOf| && islandOf[k] == 0 && n != 0
    ensures Unlabelled(islandOf[k := n]) == Unlabelled(islandOf) - 1
  {
    var m := |islandOf| - 1;
    if k == m {
      assert islandOf[k := n][..m] == islandOf[..m];
    } else {
      assert islandOf[k := n][..m] == islandOf[..m][k := n];
      UnlabelledDrops(islandOf[..m], k, n);
    }
  }

  /** The lowest triangle of island L (islands count from 1). */
  function Seed(seeds: seq<nat>, L: nat): nat
    requires 0 < L <= |seeds|
  {
    seeds[L - 1]
  }

  /**
   * Labels 0..n with n islands so far: seed L is the lowest triangle of
   * island L + 1 and every labelled triangle is linked to its seed;
   * triangles below j are all labelled.
   */
  ghost predicate Numbered(indexes: seq<nat>, islandOf: seq<nat>, seeds: seq<nat>, n: nat, j: nat) {
    |islandOf| == |indexes| / 3 && |seeds| == n && j <= |islandOf| &&
    (forall k | 0 <= k < |islandOf| :: islandOf[k] <= n) &&
    (forall k | 0 <= k < j :: islandOf[k] != 0) &&
    (forall L | 0 < L <= n :: Seed(seeds, L) < |islandOf| && islandOf[Seed(seeds, L)] == L) &&
    (forall k | 0 <= k < |islandOf| && islandOf[k] != 0 :: Seed(seeds, islandOf[k]) <= k && Linked(indexes, Seed(seeds, islandOf[k]), k))
  }

  /** Every corner of a labelled triangle carries its number; vertices no triangle uses stay 0. */
  ghost predicate Painted(indexes: seq<nat>, vert: seq<int>, islandOf: seq<nat>) {
    |islandOf| == |indexes| / 3 &&
    (forall i | 0 <= i < |indexes| :: indexes[i] < |vert|) &&
    (forall k, c | 0 <= k < |islandOf| && 0 <= c < 3 && islandOf[k] != 0 :: vert[Corner(indexes, k, c)] == islandOf[k]) &&
    (forall v | 0 <= v < |vert| && v !in indexes :: vert[v] == 0)
  }

  /** Islands below bound are closed: nothing outside them shares a vertex with them. */
  ghost predicate ClosedBelow(indexes: seq<nat>, islandOf: seq<nat>, bound: nat) {
    |islandOf| == |indexes| / 3 &&
    forall t, k {:trigger Shares(indexes, t, k)} | 0 <= t < |islandOf| && 0 <= k < |islandOf| && 0 < islandOf[t] < bound && Shares(indexes, t, k) ::
      islandOf[k] == islandOf[t]
  }

  /** The whole state between steps: flags, labels, seeds and vertex numbers agree. */
  ghost predicate State(indexes: seq<nat>, vert: seq<int>, visited: seq<bool>, islandOf: seq<nat>, seeds: seq<nat>, n: nat, j: nat) {
    Numbered(indexes, islandOf, seeds, n, j) && Painted(indexes, vert, islandOf) &&
    |visited| == |islandOf| && (forall k | 0 <= k < |islandOf| :: visited[k] <==> islandOf[k] != 0)
  }

  /** The queue holds exactly the triangles of island n. */
  ghost predicate Queued(islandOf: seq<nat>, queue: seq<nat>, n: nat) {
    (forall i | 0 <= i < |queue| :: queue[i] < |islandOf| && islandOf[queue[i]] == n) &&
    (forall k | 0 <= k < |islandOf| && islandOf[k] == n :: k in queue)
  }

  /** label2 only labels triangles label1 left unlabelled, all with n. */
  ghost predicate Grows(label1: seq<nat>, label2: seq<nat>, n: nat) {
    |label2| == |label1| &&
    forall k | 0 <= k < |label1| :: label2[k] == label1[k] || (label1[k] == 0 && label2[k] == n)
  }

  /** The vertex numbers after writing n to the corners of triangle k. */
  ghost predicate MarkedCorners(indexes: seq<nat>, vert: seq<int>, vert': seq<int>, k: nat, n: nat)
    requires k < |indexes| / 3
  {
    |vert'| == |vert| &&
    forall v | 0 <= v < |vert| :: vert'[v] == if IsCorner(indexes, k, v) then n else vert[v]
  }

  /** Writing island n to an unlabelled triangle keeps the vertex numbers right. */
  lemma PaintStep(indexes: seq<nat>, vert: seq<int>, vert': seq<int>, islandOf: seq<nat>, k: nat, n: nat)
    requires Painted(indexes, vert, islandOf) && ClosedBelow(indexes, islandOf, n)
    requires k < |islandOf| && islandOf[k] == 0 && n > 0
    requires forall k' | 0 <= k' < |islandOf| :: islandOf[k'] <= n
    requires MarkedCorners(indexes, vert, vert', k, n)
    ensures Painted(indexes, vert', islandOf[k := n])
  {
    var islandOf' := islandOf[k := n];
    forall k', c | 0 <= k' < |islandOf'| && 0 <= c < 3 && islandOf'[k'] != 0
      ensures vert'[Corner(indexes, k', c)] == islandOf'[k']
    {
      var v := Corner(indexes, k', c);
      if k' != k && IsCorner(indexes, k, v) {
        assert Shares(indexes, k', k) by {
          assert c == 0 || c == 1 || c == 2;
        }
      }
    }
  }

  /** Labelling triangle k, linked to the seed of open island n, keeps the state. */
  lemma LabelStep(indexes: seq<nat>, vert: seq<int>, vert': seq<int>, visited: seq<bool>, islandOf: seq<nat>, seeds: seq<nat>, n: nat, j: nat, k: nat)
    requires State(indexes, vert, visited, islandOf, seeds, n, j) && ClosedBelow(indexes, islandOf, n)
    requires 0 < n && k < |islandOf| && islandOf[k] == 0
    requires Seed(seeds, n) <= j && Linked(indexes, Seed(seeds, n), k)
    requires MarkedCorners(indexes, vert, vert', k, n)
    ensures State(indexes, vert', visited[k := true], islandOf[k := n], seeds, n, j)
    ensures ClosedBelow(indexes, islandOf[k := n], n)
  {
    PaintStep(indexes, vert, vert', islandOf, k, n);
    var islandOf' := islandOf[k := n];
    forall t, k2 | 0 <= t < |islandOf'| && 0 <= k2 < |islandOf'| && 0 < islandOf'[t] < n && Shares(indexes, t, k2)
      ensures islandOf'[k2] == islandOf'[t]
    {
      assert islandOf[k2] == islandOf[t];
    }
  }

  /** Opening island n + 1 at the unlabelled triangle j keeps the state, with j its only triangle. */
  lemma SeedStep(indexes: seq<nat>, vert: seq<int>, vert': seq<int>, visited: seq<bool>, islandOf: seq<nat>, seeds: seq<nat>, n: nat, j: nat)
    requires State(indexes, vert, visited, islandOf, seeds, n, j) && ClosedBelow(indexes, islandOf, n + 1)
    requires j < |islandOf| && islandOf[j] == 0
    requires MarkedCorners(indexes, vert, vert', j, n + 1)
    ensures State(indexes, vert', visited[j := true], islandOf[j := n + 1], seeds + [j], n + 1, j)
    ensures ClosedBelow(indexes, islandOf[j := n + 1], n + 1)
    ensures Queued(islandOf[j := n + 1], [j], n + 1)
  {
    PaintStep(indexes, vert, vert', islandOf, j, n + 1);
    LinkedRefl(indexes, j);
    var islandOf' := islandOf[j := n + 1];
    var seeds' := seeds + [j];
    assert Seed(seeds', n + 1) == j;
    forall L | 0 < L <= n
      ensures Seed(seeds', L) == Seed(seeds, L)
    {
    }
    forall k | 0 <= k < |islandOf'| && islandOf'[k] != 0
      ensures Seed(seeds', islandOf'[k]) <= k && Linked(indexes, Seed(seeds', islandOf'[k]), k)
    {
      if k != j {
        assert Seed(seeds', islandOf'[k]) == Seed(seeds, islandOf[k]);
      }
    }
    forall t, k2 | 0 <= t < |islandOf'| && 0 <= k2 < |islandOf'| && 0 < islandOf'[t] < n + 1 && Shares(indexes, t, k2)
      ensures islandOf'[k2] == islandOf'[t]
    {
      assert islandOf[k2] == islandOf[t];
    }
  }

  /** Along a chain through closed, labelled islands the number stays the same. */
  lemma {:induction false} ClosedPathSameLabel(indexes: seq<nat>, islandOf: seq<nat>, bound: nat, p: seq<nat>)
    requires ClosedBelow(indexes, islandOf, bound) && TriPath(indexes, p)
    requires forall k | 0 <= k < |islandOf| :: 0 < islandOf[k] < bound
    ensures islandOf[p[|p| - 1]] == islandOf[p[0]]
  {
    if |p| > 1 {
      var r := p[1..];
      assert TriPath(indexes, r);
      ClosedPathSameLabel(indexes, islandOf, bound, r);
      assert Shares(indexes, p[0], p[1]);
    }
  }

  /**
   * A finished numbering is exactly the islands: two triangles carry the
   * same number if and only if a chain of vertex-sharing triangles joins
   * them.
   */
  lemma LabelsAreIslands(indexes: seq<nat>, islandOf: seq<nat>, seeds: seq<nat>, n: nat)
    requires Numbered(indexes, islandOf, seeds, n, |islandOf|) && ClosedBelow(indexes, islandOf, n + 1)
    ensures forall t, k | 0 <= t < |islandOf| && 0 <= k < |islandOf| :: islandOf[t] == islandOf[k] <==> Linked(indexes, t, k)
  {
    forall t, k | 0 <= t < |islandOf| && 0 <= k < |islandOf|
      ensures islandOf[t] == islandOf[k] <==> Linked(indexes, t, k)
    {
      if islandOf[t] == islandOf[k] {
        var s := Seed(seeds, islandOf[t]);
        LinkedSym(indexes, s, t);
        LinkedTrans(indexes, t, s, k);
      }
      if Linked(indexes, t, k) {
        var p :| TriPath(indexes, p) && p[0] == t && p[|p| - 1] == k;
        ClosedPathSameLabel(indexes, islandOf, n + 1, p);
      }
    }
  }

  // ---------------------------------------------------------------------
  // The flood
  // ---------------------------------------------------------------------

  /** The first qi queued triangles have been scanned: everything sharing a vertex with them is in island n. */
  ghost predicate Processed(indexes: seq<nat>, islandOf: seq<nat>, queue: seq<nat>, qi: nat, n: nat) {
    |islandOf| == |indexes| / 3 && qi <= |queue| && (forall i | 0 <= i < qi :: queue[i] < |islandOf|) &&
    forall i, k | 0 <= i < qi && 0 <= k < |islandOf| && Shares(indexes, queue[i], k) :: islandOf[k] == n
  }

  /** Scanning queue[qi] extends the scanned prefix by one. */
  lemma ProcessedStep(indexes: seq<nat>, islandOf: seq<nat>, islandOf': seq<nat>, queue: seq<nat>, queue': seq<nat>, qi: nat, n: nat)
    requires Processed(indexes, islandOf, queue, qi, n) && qi < |queue| && queue <= queue' && Grows(islandOf, islandOf', n)
    requires queue[qi] < |islandOf| && forall k | 0 <= k < |islandOf'| && Shares(indexes, queue[qi], k) :: islandOf'[k] == n
    ensures Processed(indexes, islandOf', queue', qi + 1, n)
  {
    forall i, k | 0 <= i <= qi && 0 <= k < |islandOf'| && Shares(indexes, queue'[i], k)
      ensures islandOf'[k] == n
    {
      assert queue'[i] == queue[i];
      if i < qi {
        assert islandOf[k] == n;
      }
    }
  }

  /** The first k triangles have been compared with t: those sharing a vertex with it are in island n. */
  ghost predicate ScannedTo(indexes: seq<nat>, islandOf: seq<nat>, t: nat, k: nat, n: nat) {
    |islandOf| == |indexes| / 3 && t < |islandOf| && k <= |islandOf| &&
    forall k' | 0 <= k' < k && Shares(indexes, t, k') :: islandOf[k'] == n
  }

  /** Since islandOf0 and queue0, the triangles newly put in island n were exactly the ones appended to the queue. */
  ghost predicate Joined(islandOf0: seq<nat>, islandOf: seq<nat>, queue0: seq<nat>, queue: seq<nat>, n: nat) {
    Queued(islandOf, queue, n) && queue0 <= queue && Grows(islandOf0, islandOf, n) &&
    Unlabelled(islandOf) + |queue| == Unlabelled(islandOf0) + |queue0|
  }

  /** Putting the unlabelled triangle k, which shares a vertex with t, in island n and the queue. */
  lemma JoinStep(indexes: seq<nat>, islandOf0: seq<nat>, islandOf: seq<nat>, queue0: seq<nat>, queue: seq<nat>, t: nat, k: nat, n: nat)
    requires Joined(islandOf0, islandOf, queue0, queue, n) && ScannedTo(indexes, islandOf, t, k, n)
    requires 0 < n && k < |islandOf| && islandOf[k] == 0 && Shares(indexes, t, k)
    ensures Joined(islandOf0, islandOf[k := n], queue0, queue + [k], n) && ScannedTo(indexes, islandOf[k := n], t, k + 1, n)
  {
    UnlabelledDrops(islandOf, k, n);
  }

  /** Passing over triangle k: it is visited already, or shares no vertex with t. */
  lemma SkipStep(indexes: seq<nat>, islandOf: seq<nat>, seeds: seq<nat>, t: nat, k: nat, n: nat, j: nat)
    requires Numbered(indexes, islandOf, seeds, n, j) && ClosedBelow(indexes, islandOf, n) && ScannedTo(indexes, islandOf, t, k, n)
    requires k < |islandOf| && islandOf[t] == n && (Shares(indexes, t, k) ==> islandOf[k] != 0)
    ensures ScannedTo(indexes, islandOf, t, k + 1, n)
  {
    if Shares(indexes, t, k) {
      assert Shares(indexes, k, t);
    }
  }

  /** Writes island n to the three corners of triangle k and marks it visited. */
  method MarkTriangle(indexes: seq<nat>, vertIslands: array<int>, visited: array<bool>, k: nat, n: nat)
    requires k < |indexes| / 3 && visited.Length == |indexes| / 3
    requires forall i | 0 <= i < |indexes| :: indexes[i] < vertIslands.Length
    modifies vertIslands, visited
    ensures MarkedCorners(indexes, old(vertIslands[..]), vertIslands[..], k, n)
    ensures visited[..] == old(visited[..])[k := true]
  {
    vertIslands[indexes[3 * k + 0]] := n;
    vertIslands[indexes[3 * k + 1]] := n;
    vertIslands[indexes[3 * k + 2]] := n;
    visited[k] := true;
  }

  /**
   * One pass over all triangles from triangle t of open island n: every
   * unvisited triangle sharing a vertex with t joins the island and the
   * queue.
   */
  method ScanTriangles(indexes: seq<nat>, vertIslands: array<int>, visited: array<bool>, t: nat, n: nat, queue: seq<nat>,
                       ghost islandOf: seq<nat>, ghost seeds: seq<nat>, ghost j: nat)
    returns (queue': seq<nat>, ghost islandOf': seq<nat>)
    requires State(indexes, vertIslands[..], visited[..], islandOf, seeds, n, j) && ClosedBelow(indexes, islandOf, n)
    requires 0 < n && Seed(seeds, n) == j && Queued(islandOf, queue, n)
    requires t < |islandOf| && islandOf[t] == n
    modifies vertIslands, visited
    ensures State(indexes, vertIslands[..], visited[..], islandOf', seeds, n, j) && ClosedBelow(indexes, islandOf', n)
    ensures Queued(islandOf', queue', n) && queue <= queue' && Grows(islandOf, islandOf', n)
    ensures Unlabelled(islandOf') + |queue'| == Unlabelled(islandOf) + |queue|
    ensures forall k | 0 <= k < |islandOf'| && Shares(indexes, t, k) :: islandOf'[k] == n
  {
    queue', islandOf' := queue, islandOf;
    for k := 0 to |indexes| / 3
      invariant State(indexes, vertIslands[..], visited[..], islandOf', seeds, n, j) && ClosedBelow(indexes, islandOf', n)
      invariant Joined(islandOf, islandOf', queue, queue', n) && ScannedTo(indexes, islandOf', t, k, n)
    {
      if !visited[k] && Shares(indexes, t, k) {
        ghost var vert := vertIslands[..];
        ghost var flags := visited[..];
        MarkTriangle(indexes, vertIslands, visited, k, n);
        LinkedStep(indexes, Seed(seeds, n), t, k);
        LabelStep(indexes, vert, vertIslands[..], flags, islandOf', seeds, n, j, k);
        JoinStep(indexes, islandOf, islandOf', queue, queue', t, k, n);
        islandOf' := islandOf'[k := n];
        queue' := queue' + [k];
      } else {
        SkipStep(indexes, islandOf', seeds, t, k, n, j);
      }
    }
  }

  /**
   * The breadth-first flood of island n from its seed j: the queue starts
   * as [j] and every queued triangle is scanned once; afterwards island n
   * is closed.
   */
  method FloodIsland(indexes: seq<nat>, vertIslands: array<int>, visited: array<bool>, j: nat, n: nat,
                     ghost islandOf: seq<nat>, ghost seeds: seq<nat>)
    returns (ghost islandOf': seq<nat>)
    requires State(indexes, vertIslands[..], visited[..], islandOf, seeds, n, j) && ClosedBelow(indexes, islandOf, n)
    requires 0 < n && Seed(seeds, n) == j && j < |islandOf| && islandOf[j] == n
    requires Queued(islandOf, [j], n)
    modifies vertIslands, visited
    ensures State(indexes, vertIslands[..], visited[..], islandOf', seeds, n, j) && ClosedBelow(indexes, islandOf', n + 1)
    ensures Grows(islandOf, islandOf', n)
  {
    var queue := [j];
    islandOf' := islandOf;
    var qi := 0;
    while qi < |queue|
      invariant 0 <= qi <= |queue|
      invariant State(indexes, vertIslands[..], visited[..], islandOf', seeds, n, j) && ClosedBelow(indexes, islandOf', n)
      invariant Queued(islandOf', queue, n) && Grows(islandOf, islandOf', n)
      invariant Processed(indexes, islandOf', queue, qi, n)
      decreases Unlabelled(islandOf') + |queue| - qi
    {
      ghost var queue0, islandOf0 := queue, islandOf';
      queue, islandOf' := ScanTriangles(indexes, vertIslands, visited, queue[qi], n, queue, islandOf', seeds, j);
      ProcessedStep(indexes, islandOf0, islandOf', queue0, queue, qi, n);
      qi := qi + 1;
    }
    forall t, k | 0 <= t < |islandOf'| && 0 <= k < |islandOf'| && 0 < islandOf'[t] < n + 1 && Shares(indexes, t, k)
      ensures islandOf'[k] == islandOf'[t]
    {
      if islandOf'[t] == n {
        var i :| 0 <= i < |queue| && queue[i] == t;
      }
    }
  }

  /**
   * Numbers the islands of a surface: every triangle not yet visited opens
   * the next island and floods it.  numIslands islands result, numbered in
   * the order of their lowest triangle; two triangles share a number if and
   * only if they are in one island; each corner carries its triangle's
   * number and every other vertex 0.
   */
  method LabelIslands(indexes: seq<nat>, numVerts: nat)
    returns (vertIslands: array<int>, numIslands: nat, ghost islandOf: seq<nat>, ghost seeds: seq<nat>)
    requires |indexes| % 3 == 0
    requires forall i | 0 <= i < |indexes| :: indexes[i] < numVerts
    ensures fresh(vertIslands) && vertIslands.Length == numVerts
    ensures |islandOf| == |indexes| / 3 && forall k | 0 <= k < |islandOf| :: 1 <= islandOf[k] <= numIslands
    ensures forall t, k | 0 <= t < |islandOf| && 0 <= k < |islandOf| :: islandOf[t] == islandOf[k] <==> Linked(indexes, t, k)
    ensures |seeds| == numIslands
    ensures forall L | 0 < L <= numIslands :: Seed(seeds, L) < |islandOf| && islandOf[Seed(seeds, L)] == L
    ensures forall k | 0 <= k < |islandOf| :: Seed(seeds, islandOf[k]) <= k
    ensures forall k, c | 0 <= k < |islandOf| && 0 <= c < 3 :: vertIslands[Corner(indexes, k, c)] == islandOf[k]
    ensures forall v | 0 <= v < numVerts && v !in indexes :: vertIslands[v] == 0
  {
    vertIslands := new int[numVerts](_ => 0);
    var visited := new bool[|indexes| / 3](_ => false);
    numIslands := 0;
    islandOf := seq(|indexes| / 3, _ => 0);
    seeds := [];
    for j := 0 to |indexes| / 3
      invariant State(indexes, vertIslands[..], visited[..], islandOf, seeds, numIslands, j)
      invariant ClosedBelow(indexes, islandOf, numIslands + 1)
    {
      if !visited[j] {
        ghost var vert := vertIslands[..];
        ghost var flags := visited[..];
        MarkTriangle(indexes, vertIslands, visited, j, numIslands + 1);
        SeedStep(indexes, vert, vertIslands[..], flags, islandOf, seeds, numIslands, j);
        numIslands := numIslands + 1;
        islandOf := islandOf[j := numIslands];
        seeds := seeds + [j];
        islandOf := FloodIsland(indexes, vertIslands, visited, j, numIslands, islandOf, seeds);
      }
    }
    LabelsAreIslands(indexes, islandOf, seeds, numIslands);
  }
}
