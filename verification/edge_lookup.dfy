/**
 * The adjacency index built by Solid.Validate: for every directed edge, the
 * set of indices of the triangles that contain it.
 */
module EdgeIndex {
  import opened Geometry

  /** Whether one of the first upto edges of t is the directed edge d. */
  predicate HasEdgeBelow(t: Triangle, d: Edge, upto: nat) {
    (0 < upto && EdgeOf(t, 0) == d) || (1 < upto && EdgeOf(t, 1) == d) || (2 < upto && EdgeOf(t, 2) == d)
  }

  /** Whether t contains the directed edge d as one of its three edges. */
  predicate HasEdge(t: Triangle, d: Edge) {
    HasEdgeBelow(t, d, 3)
  }

  /** The indices of the triangles of ts that contain d. */
  function Sharers(ts: seq<Triangle>, d: Edge): set<nat>
    decreases |ts|
  {
    if ts == [] then {}
    else Sharers(ts[..|ts| - 1], d) + (if HasEdge(ts[|ts| - 1], d) then {|ts| - 1} else {})
  }

  /** Index j is a sharer of d exactly when triangle j contains d. */
  lemma {:induction false} SharersAt(ts: seq<Triangle>, d: Edge, j: nat)
    ensures j in Sharers(ts, d) <==> j < |ts| && HasEdge(ts[j], d)
    decreases |ts|
  {
    if ts != [] {
      SharersAt(ts[..|ts| - 1], d, j);
    }
  }

  /** The lookup after `InsertEdge(i, d.0, d.1)`: i joins the set under d, created on first use. */
  function Insert(m: map<Edge, set<nat>>, i: nat, d: Edge): map<Edge, set<nat>> {
    m[d := (if d in m then m[d] else {}) + {i}]
  }

  /** The lookup after inserting edges 0 .. upto-1 of triangle t, with index i, into m. */
  function InsertEdges(m: map<Edge, set<nat>>, i: nat, t: Triangle, upto: nat): map<Edge, set<nat>>
    requires upto <= 3
    decreases upto
  {
    if upto == 0 then m else Insert(InsertEdges(m, i, t, upto - 1), i, EdgeOf(t, upto - 1))
  }

  /** The lookup Validate's first loop builds for ts, triangle by triangle. */
  function Index(ts: seq<Triangle>): map<Edge, set<nat>>
    decreases |ts|
  {
    if ts == [] then map[] else InsertEdges(Index(ts[..|ts| - 1]), |ts| - 1, ts[|ts| - 1], 3)
  }

  /** Inserting the first upto edges of t adds i exactly under those edges. */
  lemma {:induction false} InsertEdgesAt(m: map<Edge, set<nat>>, i: nat, t: Triangle, upto: nat, d: Edge)
    requires upto <= 3
    ensures d in InsertEdges(m, i, t, upto) <==> d in m || HasEdgeBelow(t, d, upto)
    ensures d in InsertEdges(m, i, t, upto) ==>
      InsertEdges(m, i, t, upto)[d] ==
        (if d in m then m[d] else {}) + (if HasEdgeBelow(t, d, upto) then {i} else {})
    decreases upto
  {
    if upto > 0 {
      InsertEdgesAt(m, i, t, upto - 1, d);
    }
  }

  /**
   * After the index-building loop, triangle j is in the set under edge e of
   * triangle j for every j and e, and no other (edge, index) pair is present:
   * the lookup is exactly the Sharers relation, with no empty sets.
   */
  lemma {:induction false} IndexAt(ts: seq<Triangle>, d: Edge)
    ensures d in Index(ts) <==> Sharers(ts, d) != {}
    ensures d in Index(ts) ==> Index(ts)[d] == Sharers(ts, d)
    decreases |ts|
  {
    if ts != [] {
      var n := |ts| - 1;
      var p := ts[..n];
      IndexAt(p, d);
      InsertEdgesAt(Index(p), n, ts[n], 3, d);
    }
  }

  /** IndexAt for every edge at once. */
  lemma IndexCorrect(ts: seq<Triangle>)
    ensures forall d :: d in Index(ts) <==> Sharers(ts, d) != {}
    ensures forall d :: d in Index(ts) ==> Index(ts)[d] == Sharers(ts, d)
  {
    forall d
      ensures d in Index(ts) <==> Sharers(ts, d) != {}
      ensures d in Index(ts) ==> Index(ts)[d] == Sharers(ts, d)
    {
      IndexAt(ts, d);
    }
  }

  /** The source's `edgeLookup`: a map from directed edge to triangle-index set. */
  class EdgeLookup {
    var edgeToTriangles: map<Edge, set<nat>>

    /** `newEdgeLookup`. */
    constructor ()
      ensures edgeToTriangles == map[]
    {
      edgeToTriangles := map[];
    }

    /** Put triangleIndex into the set of triangles containing the edge v -> w. */
    method InsertEdge(triangleIndex: nat, v: Vec3, w: Vec3)
      modifies this
      ensures edgeToTriangles == Insert(old(edgeToTriangles), triangleIndex, (v, w))
    {
      var key := (v, w);
      var triangleSet := if key in edgeToTriangles then edgeToTriangles[key] else {};
      edgeToTriangles := edgeToTriangles[key := triangleSet + {triangleIndex}];
    }

    /**
     * The triangles containing the edge v -> w other than i; empty when the
     * edge was never inserted (the source's nil slice).
     */
    function OtherTrianglesWithEdge(v: Vec3, w: Vec3, i: nat): (r: set<nat>)
      reads this
      ensures i !in r
      ensures (v, w) in edgeToTriangles ==> r == edgeToTriangles[(v, w)] - {i}
      ensures (v, w) !in edgeToTriangles ==> r == {}
    {
      if (v, w) in edgeToTriangles then edgeToTriangles[(v, w)] - {i} else {}
    }
  }

  /**
   * Once the lookup holds the index of ts, a query returns exactly the other
   * triangles of ts containing v -> w.
   */
  lemma OthersAreSharers(l: EdgeLookup, ts: seq<Triangle>, v: Vec3, w: Vec3, i: nat)
    requires l.edgeToTriangles == Index(ts)
    ensures l.OtherTrianglesWithEdge(v, w, i) == Sharers(ts, (v, w)) - {i}
  {
    IndexAt(ts, (v, w));
  }
}
