/**
 * Step 6 of the 3D-model demonstration: clipping a triangle mesh against a
 * plane. The vertices on the kept side are selected (as an ascending index
 * list), every kept vertex gets a new index equal to its position in that
 * list, and only the triangles whose three corners are all kept survive,
 * rewritten through the old-to-new index map.
 *
 * The floating-point test `x >= centre` is abstracted as a predicate
 * `inside` on vertices; vertex coordinates are an opaque type `V`.
 */
module MeshClip {

  /** One row of a triangle array: three vertex indices. */
  datatype Triangle = Triangle(a: int, b: int, c: int)

  datatype Mesh<V> = Mesh(vertices: seq<V>, triangles: seq<Triangle>)

  /**
   * The clipped mesh. `shaded` records whether vertex normals were computed
   * and the uniform colour painted, which happens only when triangles survive.
   */
  datatype ClippedMesh<V> = ClippedMesh(mesh: Mesh<V>, shaded: bool)

  predicate StrictlyIncreasing(s: seq<int>) {
    forall i, j :: 0 <= i < j < |s| ==> s[i] < s[j]
  }

  /** Every corner of `t` is an index into a vertex list of length `n`. */
  predicate CornersBelow(t: Triangle, n: int) {
    0 <= t.a < n && 0 <= t.b < n && 0 <= t.c < n
  }

  /** A mesh whose every triangle refers to existing vertices. */
  predicate WellFormed<V>(m: Mesh<V>) {
    forall k :: 0 <= k < |m.triangles| ==> CornersBelow(m.triangles[k], |m.vertices|)
  }

  function Members(ks: seq<int>): set<int> {
    set x | x in ks
  }

  // ---------------------------------------------------------------------
  // Selecting the kept vertices (`keep_indices`)
  // ---------------------------------------------------------------------

  /**
   * The ascending positions of the true entries of `flags`, as numpy's
   * `np.where(flags)[0]` computes them.
   */
  function Where(flags: seq<bool>): (r: seq<nat>)
    ensures StrictlyIncreasing(r)
    ensures forall k :: 0 <= k < |r| ==> r[k] < |flags| && flags[r[k]]
    ensures forall i :: 0 <= i < |flags| && flags[i] ==> i in r
    ensures |r| <= |flags|
  {
    if flags == [] then []
    else
      var n := |flags| - 1;
      var r0 := Where(flags[..n]);
      assert forall i :: 0 <= i < n ==> flags[..n][i] == flags[i];
      if flags[n] then r0 + [n] else r0
  }

  /** The boolean column `vertices[:, 0] >= centre`, one entry per vertex. */
  function InsideFlags<V>(vertices: seq<V>, inside: V -> bool): (flags: seq<bool>)
    ensures |flags| == |vertices|
  {
    seq(|vertices|, i requires 0 <= i < |vertices| => inside(vertices[i]))
  }

  /** `keep_indices`: the indices of the vertices on the kept side. */
  function KeepIndices<V>(vertices: seq<V>, inside: V -> bool): seq<nat> {
    Where(InsideFlags(vertices, inside))
  }

  /**
   * `keep_indices` is strictly increasing and holds exactly the indices of
   * the vertices on the kept side.
   */
  lemma KeepIndicesExact<V>(vertices: seq<V>, inside: V -> bool)
    ensures StrictlyIncreasing(KeepIndices(vertices, inside))
    ensures forall x :: x in Members(KeepIndices(vertices, inside)) <==>
                        0 <= x < |vertices| && inside(vertices[x])
  {
    var flags := InsideFlags(vertices, inside);
    var ks := Where(flags);
    forall x
      ensures x in Members(ks) <==> 0 <= x < |vertices| && inside(vertices[x])
    {
      if x in Members(ks) {
        var k :| 0 <= k < |ks| && ks[k] == x;
        assert flags[ks[k]];
      }
      if 0 <= x < |vertices| && inside(vertices[x]) {
        assert flags[x];
      }
    }
  }

  // ---------------------------------------------------------------------
  // The old-to-new index map (`index_mapping`)
  // ---------------------------------------------------------------------

  /**
   * `{old: new for new, old in enumerate(ks)}`: each element of `ks` maps to
   * its position; should an element repeat, its last position wins.
   */
  function IndexMapping(ks: seq<int>): (m: map<int, nat>)
    ensures m.Keys == Members(ks)
    ensures forall x :: x in m ==> m[x] < |ks| && ks[m[x]] == x
  {
    if ks == [] then map[]
    else
      var n := |ks| - 1;
      assert ks == ks[..n] + [ks[n]];
      IndexMapping(ks[..n])[ks[n] := n]
  }

  /**
   * For a strictly increasing index list the map sends its k-th element to k,
   * so it is a bijection from the list onto [0, |ks|), and it preserves order.
   */
  lemma {:induction false} IndexMappingIsOrderIsomorphism(ks: seq<int>)
    requires StrictlyIncreasing(ks)
    ensures forall k :: 0 <= k < |ks| ==> IndexMapping(ks)[ks[k]] == k
    ensures forall x, y :: x in IndexMapping(ks) && y in IndexMapping(ks) ==>
                           (x < y <==> IndexMapping(ks)[x] < IndexMapping(ks)[y])
  {
    var m := IndexMapping(ks);
    if ks != [] {
      var n := |ks| - 1;
      IndexMappingIsOrderIsomorphism(ks[..n]);
      forall k | 0 <= k < |ks|
        ensures m[ks[k]] == k
      {
        if k < n {
          assert ks[k] == ks[..n][k];
          assert ks[k] != ks[n];
        }
      }
    }
    forall x, y | x in m && y in m
      ensures x < y <==> m[x] < m[y]
    {
      assert ks[m[x]] == x && ks[m[y]] == y;
    }
  }

  // ---------------------------------------------------------------------
  // Filtering and remapping the triangles (`valid_triangles`)
  // ---------------------------------------------------------------------

  predicate AllKept(t: Triangle, kept: set<int>) {
    t.a in kept && t.b in kept && t.c in kept
  }

  function Remap(t: Triangle, m: map<int, nat>): Triangle
    requires AllKept(t, m.Keys)
  {
    Triangle(m[t.a], m[t.b], m[t.c])
  }

  /**
   * The list `valid_triangles` that the filter loop builds from `tris`, given
   * the kept index list `ks`: surviving triangles, remapped, in input order.
   */
  function ClippedTriangles(tris: seq<Triangle>, ks: seq<int>): seq<Triangle> {
    if tris == [] then []
    else
      var n := |tris| - 1;
      var rest := ClippedTriangles(tris[..n], ks);
      if AllKept(tris[n], Members(ks)) then rest + [Remap(tris[n], IndexMapping(ks))] else rest
  }

  /** One more input triangle extends the output by its remapped self, or not at all. */
  lemma ClippedTrianglesStep(tris: seq<Triangle>, ks: seq<int>, i: nat)
    requires i < |tris|
    ensures ClippedTriangles(tris[..i + 1], ks) ==
            if AllKept(tris[i], Members(ks)) then ClippedTriangles(tris[..i], ks) + [Remap(tris[i], IndexMapping(ks))]
            else ClippedTriangles(tris[..i], ks)
  {
    assert tris[..i + 1][..i] == tris[..i];
  }

  /** For each triangle, whether all three of its corners are kept. */
  function SurvivorFlags(tris: seq<Triangle>, kept: set<int>): (flags: seq<bool>)
    ensures |flags| == |tris|
  {
    seq(|tris|, i requires 0 <= i < |tris| => AllKept(tris[i], kept))
  }

  /** The positions, in the input, of the triangles that survive clipping. */
  function Survivors(tris: seq<Triangle>, ks: seq<int>): seq<nat> {
    Where(SurvivorFlags(tris, Members(ks)))
  }

  /**
   * The output triangles are exactly the surviving input triangles, in input
   * order, each remapped through the index map.
   */
  lemma {:induction false} ClippedTrianglesAreRemappedSurvivors(tris: seq<Triangle>, ks: seq<int>)
    ensures |ClippedTriangles(tris, ks)| == |Survivors(tris, ks)|
    ensures forall k :: 0 <= k < |Survivors(tris, ks)| ==>
              AllKept(tris[Survivors(tris, ks)[k]], IndexMapping(ks).Keys) &&
              ClippedTriangles(tris, ks)[k] == Remap(tris[Survivors(tris, ks)[k]], IndexMapping(ks))
  {
    if tris != [] {
      var n := |tris| - 1;
      var kept := Members(ks);
      ClippedTrianglesAreRemappedSurvivors(tris[..n], ks);
      ClippedTrianglesStep(tris, ks, n);
      assert tris[..n + 1] == tris;
      assert SurvivorFlags(tris, kept)[..n] == SurvivorFlags(tris[..n], kept);
      var pos := Survivors(tris, ks);
      var pos0 := Survivors(tris[..n], ks);
      forall k | 0 <= k < |pos0|
        ensures pos[k] == pos0[k] && tris[pos0[k]] == tris[..n][pos0[k]]
      {
      }
    }
  }

  /** `vertices_array[keep_indices]`: the kept vertices in index order. */
  function KeptVertices<V>(vertices: seq<V>, ks: seq<nat>): (kept: seq<V>)
    requires forall k :: 0 <= k < |ks| ==> ks[k] < |vertices|
    ensures |kept| == |ks|
  {
    seq(|ks|, k requires 0 <= k < |ks| => vertices[ks[k]])
  }

  // ---------------------------------------------------------------------
  // The clipping step
  // ---------------------------------------------------------------------

  /**
   * Clips `mesh` to the vertices satisfying `inside`: the kept vertices in
   * index order, the remapped surviving triangles, and normals and colour
   * only when some triangle survives.
   */
  method Clip<V>(mesh: Mesh<V>, inside: V -> bool) returns (clipped: ClippedMesh<V>)
    ensures clipped.mesh.vertices == KeptVertices(mesh.vertices, KeepIndices(mesh.vertices, inside))
    ensures clipped.mesh.triangles == ClippedTriangles(mesh.triangles, KeepIndices(mesh.vertices, inside))
    ensures clipped.shaded <==> clipped.mesh.triangles != []
  {
    var keep := KeepIndices(mesh.vertices, inside);
    var keepSet := Members(keep);
    var mapping := IndexMapping(keep);
    var valid: seq<Triangle> := [];
    for i := 0 to |mesh.triangles|
      invariant valid == ClippedTriangles(mesh.triangles[..i], keep)
    {
      var tri := mesh.triangles[i];
      ClippedTrianglesStep(mesh.triangles, keep, i);
      if tri.a in keepSet && tri.b in keepSet && tri.c in keepSet {
        valid := valid + [Triangle(mapping[tri.a], mapping[tri.b], mapping[tri.c])];
      }
    }
    assert mesh.triangles[..|mesh.triangles|] == mesh.triangles;
    var vertices := KeptVertices(mesh.vertices, keep);
    if valid != [] {
      clipped := ClippedMesh(Mesh(vertices, valid), true);
    } else {
      clipped := ClippedMesh(Mesh(vertices, []), false);
    }
  }

  /** The mesh `Clip` produces, as a value. */
  function ClipResult<V>(mesh: Mesh<V>, inside: V -> bool): Mesh<V> {
    var ks := KeepIndices(mesh.vertices, inside);
    Mesh(KeptVertices(mesh.vertices, ks), ClippedTriangles(mesh.triangles, ks))
  }

  /** A triangle survives exactly when its three corners are vertices on the kept side. */
  lemma TriangleSurvivesIff<V>(mesh: Mesh<V>, inside: V -> bool, i: nat)
    requires i < |mesh.triangles|
    ensures var t := mesh.triangles[i];
            i in Survivors(mesh.triangles, KeepIndices(mesh.vertices, inside)) <==>
            CornersBelow(t, |mesh.vertices|) &&
            inside(mesh.vertices[t.a]) && inside(mesh.vertices[t.b]) && inside(mesh.vertices[t.c])
  {
    var ks := KeepIndices(mesh.vertices, inside);
    KeepIndicesExact(mesh.vertices, inside);
    var flags := SurvivorFlags(mesh.triangles, Members(ks));
    if i in Where(flags) {
      var k :| 0 <= k < |Where(flags)| && Where(flags)[k] == i;
      assert flags[i];
    }
    assert flags[i] == AllKept(mesh.triangles[i], Members(ks));
  }

  /**
   * The clipped mesh is well-formed whatever the input: every corner of every
   * output triangle indexes a clipped vertex.
   */
  lemma ClipIsWellFormed<V>(mesh: Mesh<V>, inside: V -> bool)
    ensures WellFormed(ClipResult(mesh, inside))
  {
    var ks := KeepIndices(mesh.vertices, inside);
    ClippedTrianglesAreRemappedSurvivors(mesh.triangles, ks);
  }

  /**
   * Remapping preserves geometry: each corner of the k-th output triangle
   * names, among the clipped vertices, the vertex the corresponding corner of
   * its input triangle named.
   */
  lemma ClipPreservesCorners<V>(mesh: Mesh<V>, inside: V -> bool, k: nat)
    requires k < |ClipResult(mesh, inside).triangles|
    ensures var out := ClipResult(mesh, inside);
            var pos := Survivors(mesh.triangles, KeepIndices(mesh.vertices, inside));
            |pos| == |out.triangles| &&
            var t := mesh.triangles[pos[k]];
            var u := out.triangles[k];
            CornersBelow(u, |out.vertices|) && CornersBelow(t, |mesh.vertices|) &&
            out.vertices[u.a] == mesh.vertices[t.a] &&
            out.vertices[u.b] == mesh.vertices[t.b] &&
            out.vertices[u.c] == mesh.vertices[t.c]
  {
    var ks := KeepIndices(mesh.vertices, inside);
    var m := IndexMapping(ks);
    var pos := Survivors(mesh.triangles, ks);
    var cv := KeptVertices(mesh.vertices, ks);
    var out := ClippedTriangles(mesh.triangles, ks);
    assert ClipResult(mesh, inside) == Mesh(cv, out);
    ClippedTrianglesAreRemappedSurvivors(mesh.triangles, ks);
    var t := mesh.triangles[pos[k]];
    assert AllKept(t, m.Keys) && out[k] == Remap(t, m);
    RemapKeepsCorners(mesh.vertices, ks, t);
  }

  /** A corner remapped through the index map names the same vertex among the kept ones. */
  lemma RemapKeepsCorners<V>(vertices: seq<V>, ks: seq<nat>, t: Triangle)
    requires forall k :: 0 <= k < |ks| ==> ks[k] < |vertices|
    requires AllKept(t, IndexMapping(ks).Keys)
    ensures var u := Remap(t, IndexMapping(ks));
            var cv := KeptVertices(vertices, ks);
            CornersBelow(u, |cv|) && CornersBelow(t, |vertices|) &&
            cv[u.a] == vertices[t.a] && cv[u.b] == vertices[t.b] && cv[u.c] == vertices[t.c]
  {
    var m := IndexMapping(ks);
    assert ks[m[t.a]] == t.a && ks[m[t.b]] == t.b && ks[m[t.c]] == t.c;
  }

  /**
   * The output triangles form a subsequence of the input: at most as many,
   * taken from strictly increasing input positions.
   */
  lemma ClipKeepsTriangleOrder<V>(mesh: Mesh<V>, inside: V -> bool)
    ensures var pos := Survivors(mesh.triangles, KeepIndices(mesh.vertices, inside));
            |ClipResult(mesh, inside).triangles| == |pos| <= |mesh.triangles| &&
            StrictlyIncreasing(pos) &&
            forall k :: 0 <= k < |pos| ==> pos[k] < |mesh.triangles|
  {
    ClippedTrianglesAreRemappedSurvivors(mesh.triangles, KeepIndices(mesh.vertices, inside));
  }
}
