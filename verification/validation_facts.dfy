/**
 * What Solid.Validate's findings mean for meshes of a known shape: the
 * reading of each EdgeError predicate in terms of the mesh, a triangle on
 * its own, two copies of one triangle, a closed tetrahedron, and the case
 * in which HasNoCounterEdge holds although a counter edge exists.
 */
module ValidationFacts {
  import opened Wrappers
  import opened Geometry
  import opened EdgeIndex
  import opened Validation

  /** Membership in Sharers for every index at once. */
  lemma SharersOf(ts: seq<Triangle>, d: Edge)
    ensures forall j: nat :: j in Sharers(ts, d) <==> j < |ts| && HasEdge(ts[j], d)
  {
    forall j: nat {
      SharersAt(ts, d, j);
    }
  }

  /**
   * An edge has a finding exactly when another triangle holds it in the
   * same direction or the number of triangles holding it the other way is
   * not one. IsUsedInOtherTriangles and HasMultipleCounterEdges then say
   * what their names say, but HasNoCounterEdge also holds when exactly one
   * counter edge exists: the counter list is only stored when its length is
   * not one.
   */
  lemma EdgeFindingMeaning(ts: seq<Triangle>, i: nat, e: nat)
    requires i < |ts| && e < 3
    ensures var f, same, counter := EdgeFinding(ts, i, e), SameSharers(ts, i, e), CounterSharers(ts, i, e);
            (f.Some? <==> |same| > 0 || |counter| != 1) &&
            (f.Some? ==> (f.value.IsUsedInOtherTriangles() <==> |same| > 0)) &&
            (f.Some? ==> (f.value.HasMultipleCounterEdges() <==> |counter| > 1)) &&
            (f.Some? ==> (f.value.HasNoCounterEdge() <==> |counter| <= 1))
  {
  }

  /** The record of a triangle whose three edges all lack a counter edge and are not shared. */
  const ALL_EDGES_OPEN := TriangleErrors(false, false, [Some(NO_EDGE_ERROR), Some(NO_EDGE_ERROR), Some(NO_EDGE_ERROR)])

  /** A healthy triangle never holds one of its own edges reversed. */
  lemma NoSelfCounterEdge(t: Triangle, e: nat)
    requires e < 3 && !HasEqualVertices(t)
    ensures !HasEdge(t, Reversed(EdgeOf(t, e)))
  {
    if HasEdge(t, Reversed(EdgeOf(t, e))) {
      var f :| 0 <= f < 3 && EdgeOf(t, f) == Reversed(EdgeOf(t, e));
      SelfCounterEdgeMeansEqualVertices(t, e, f);
    }
  }

  /** Each edge of a lone healthy triangle has neither a sharer nor a counter edge. */
  lemma LoneEdges(t: Triangle)
    requires !HasEqualVertices(t)
    ensures forall e :: 0 <= e < 3 ==> EdgeFinding([t], 0, e) == Some(NO_EDGE_ERROR)
  {
    var ts := [t];
    forall e | 0 <= e < 3 ensures EdgeFinding(ts, 0, e) == Some(NO_EDGE_ERROR) {
      SharersOf(ts, EdgeOf(t, e));
      SharersOf(ts, Reversed(EdgeOf(t, e)));
      NoSelfCounterEdge(t, e);
      assert SameSharers(ts, 0, e) == {};
      assert CounterSharers(ts, 0, e) == {};
    }
  }

  /**
   * A mesh of one non-degenerate triangle whose normal matches: the
   * triangle is reported, with every edge lacking a neighbour.
   */
  lemma LoneTriangle(t: Triangle, normalMatches: Triangle -> bool)
    requires !HasEqualVertices(t) && normalMatches(t)
    ensures Findings([t], normalMatches, 1) == map[0 := ALL_EDGES_OPEN]
  {
    var ts := [t];
    LoneEdges(t);
    var m := Findings(ts, normalMatches, 1);
    FindingsAt(ts, normalMatches, 1, 0);
    assert m[0] == ALL_EDGES_OPEN by {
      assert m[0].edgeErrors == ALL_EDGES_OPEN.edgeErrors;
    }
    forall k | k in m ensures k == 0 {
      FindingsAt(ts, normalMatches, 1, k);
    }
    assert m.Keys == {0};
  }

  /** Each edge of either copy is shared by the other copy and held reversed by nobody. */
  lemma TwinEdges(t: Triangle)
    requires !HasEqualVertices(t)
    ensures forall i, e :: 0 <= i < 2 && 0 <= e < 3 ==> EdgeFinding([t, t], i, e) == Some(EdgeError({1 - i}, {}))
  {
    var ts := [t, t];
    forall i, e | 0 <= i < 2 && 0 <= e < 3 ensures EdgeFinding(ts, i, e) == Some(EdgeError({1 - i}, {})) {
      SharersOf(ts, EdgeOf(t, e));
      SharersOf(ts, Reversed(EdgeOf(t, e)));
      NoSelfCounterEdge(t, e);
      assert SameSharers(ts, i, e) == {1 - i};
      assert CounterSharers(ts, i, e) == {};
    }
  }

  /**
   * Two copies of one non-degenerate triangle: each reports every edge as
   * used by the other, and as lacking a counter edge.
   */
  lemma TwinTriangles(t: Triangle, normalMatches: Triangle -> bool)
    requires !HasEqualVertices(t)
    ensures var m := Findings([t, t], normalMatches, 2);
            0 in m && 1 in m &&
            forall e :: 0 <= e < 3 ==>
              m[0].edgeErrors[e] == Some(EdgeError({1}, {})) && m[1].edgeErrors[e] == Some(EdgeError({0}, {}))
  {
    var ts := [t, t];
    TwinEdges(t);
    FindingsAt(ts, normalMatches, 2, 0);
    FindingsAt(ts, normalMatches, 2, 1);
  }

  /** t with its winding order reversed. */
  function Flipped(t: Triangle): (r: Triangle)
    ensures forall e :: 0 <= e < 3 ==> HasEdge(r, Reversed(EdgeOf(t, e)))
  {
    Triangle(t.normal, t.v0, t.v2, t.v1)
  }

  /** With two copies of t and t flipped, edge e of t is held by both copies and reversed by the flipped one. */
  lemma FlippedSharers(t: Triangle, e: nat)
    requires !HasEqualVertices(t) && e < 3
    ensures Sharers([t, t, Flipped(t)], EdgeOf(t, e)) == {0, 1}
    ensures Sharers([t, t, Flipped(t)], Reversed(EdgeOf(t, e))) == {2}
  {
    var ts := [t, t, Flipped(t)];
    SharersOf(ts, EdgeOf(t, e));
    SharersOf(ts, Reversed(EdgeOf(t, e)));
    NoSelfCounterEdge(t, e);
    assert HasEdge(t, EdgeOf(t, e));
    assert !HasEdge(Flipped(t), EdgeOf(t, e));
  }

  /**
   * Two copies of a triangle and the triangle flipped: every edge of the
   * first copy is held the other way by the flipped triangle, yet its record
   * says HasNoCounterEdge, because a same-direction sharer forces a record
   * while a single counter edge is not stored in it.
   */
  lemma CounterEdgeNotRecorded(t: Triangle)
    requires !HasEqualVertices(t)
    ensures var ts := [t, t, Flipped(t)];
            forall e :: 0 <= e < 3 ==>
              CounterSharers(ts, 0, e) == {2} &&
              EdgeFinding(ts, 0, e) == Some(EdgeError({1}, {})) &&
              EdgeFinding(ts, 0, e).value.HasNoCounterEdge()
  {
    var ts := [t, t, Flipped(t)];
    forall e | 0 <= e < 3
      ensures CounterSharers(ts, 0, e) == {2} && EdgeFinding(ts, 0, e) == Some(EdgeError({1}, {}))
    {
      FlippedSharers(t, e);
      assert SameSharers(ts, 0, e) == {1};
    }
  }

  /**
   * The four faces of a tetrahedron on the points a, b, c, d, wound so
   * that every edge is traversed once in each direction.
   */
  function Tetrahedron(a: Vec3, b: Vec3, c: Vec3, d: Vec3, n: Vec3): (ts: seq<Triangle>)
    ensures |ts| == 4
  {
    [Triangle(n, a, b, c), Triangle(n, a, d, b), Triangle(n, b, d, c), Triangle(n, c, d, a)]
  }

  /** The face of the tetrahedron that holds edge e of face k reversed. */
  function Partner(k: nat, e: nat): nat
    requires k < 4 && e < 3
  {
    [[1, 2, 3], [3, 2, 0], [1, 3, 0], [2, 1, 0]][k][e]
  }

  /** In the tetrahedron each edge belongs to one face and is reversed by exactly one other. */
  lemma TetrahedronEdge(a: Vec3, b: Vec3, c: Vec3, d: Vec3, n: Vec3, k: nat, e: nat)
    requires a != b && a != c && a != d && b != c && b != d && c != d
    requires k < 4 && e < 3
    ensures var ts := Tetrahedron(a, b, c, d, n);
            SameSharers(ts, k, e) == {} && CounterSharers(ts, k, e) == {Partner(k, e)} && Partner(k, e) != k
  {
    var ts := Tetrahedron(a, b, c, d, n);
    SharersOf(ts, EdgeOf(ts[k], e));
    SharersOf(ts, Reversed(EdgeOf(ts[k], e)));
  }

  /** No face of the tetrahedron is degenerate, and none of its edges has a finding. */
  lemma TetrahedronFace(a: Vec3, b: Vec3, c: Vec3, d: Vec3, n: Vec3, k: nat)
    requires a != b && a != c && a != d && b != c && b != d && c != d
    requires k < 4
    ensures var ts := Tetrahedron(a, b, c, d, n);
            !HasEqualVertices(ts[k]) &&
            EdgeFinding(ts, k, 0) == None && EdgeFinding(ts, k, 1) == None && EdgeFinding(ts, k, 2) == None
  {
    TetrahedronEdge(a, b, c, d, n, k, 0);
    TetrahedronEdge(a, b, c, d, n, k, 1);
    TetrahedronEdge(a, b, c, d, n, k, 2);
  }

  /**
   * A closed, consistently wound mesh with no degenerate triangle and
   * matching normals: Validate reports nothing.
   */
  lemma ClosedTetrahedron(a: Vec3, b: Vec3, c: Vec3, d: Vec3, n: Vec3, normalMatches: Triangle -> bool)
    requires a != b && a != c && a != d && b != c && b != d && c != d
    requires forall t :: t in Tetrahedron(a, b, c, d, n) ==> normalMatches(t)
    ensures Findings(Tetrahedron(a, b, c, d, n), normalMatches, 4) == map[]
  {
    var ts := Tetrahedron(a, b, c, d, n);
    var m := Findings(ts, normalMatches, 4);
    forall k | k in m ensures false {
      FindingsAt(ts, normalMatches, 4, k);
      assert ts[k] in ts;
      TetrahedronFace(a, b, c, d, n, k);
    }
    assert m.Keys == {};
  }
}
