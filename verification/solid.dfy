/**
 * The Solid container: the sink the ASCII parser writes into, and the
 * mesh validator that checks it for degenerate triangles, mismatching
 * normals and non-manifold or open edges.
 */
module Solids {
  import opened Geometry
  import opened EdgeIndex
  import opened Validation

  /** The source's uint32. */
  type Uint32 = n: nat | n < 0x1_0000_0000

  /** The wrap-around of a Go `uint32(...)` conversion of a length. */
  function ToUint32(n: nat): Uint32 {
    n % 0x1_0000_0000
  }

  /** An STL model: a name, an ordered triangle list and format metadata. */
  class Solid {
    /** Only used by the binary format. */
    var binaryHeader: seq<bv8>
    var name: string
    var triangles: seq<Triangle>
    /** cap(Triangles): room reserved for triangles without reallocation. */
    var capacity: nat
    var isAscii: bool

    ghost predicate Valid()
      reads this`triangles, this`capacity
    {
      |triangles| <= capacity
    }

    /** The zero Solid. */
    constructor ()
      ensures Valid()
      ensures binaryHeader == [] && name == "" && triangles == [] && capacity == 0 && !isAscii
    {
      binaryHeader, name, triangles, capacity, isAscii := [], "", [], 0, false;
    }

    method SetName(newName: string)
      modifies this`name
      ensures name == newName
    {
      name := newName;
    }

    method SetBinaryHeader(header: seq<bv8>)
      modifies this`binaryHeader
      ensures binaryHeader == header
    {
      binaryHeader := header;
    }

    method SetASCII(ascii: bool)
      modifies this`isAscii
      ensures isAscii == ascii
    {
      isAscii := ascii;
    }

    /**
     * Makes room for n triangles and drops triangles from index n on.
     * Length and capacity go through uint32 conversions, as in the source.
     */
    method SetTriangleCount(n: Uint32)
      requires Valid()
      modifies this`triangles, this`capacity
      ensures Valid()
      ensures var l := ToUint32(|old(triangles)|);
              var c := ToUint32(old(capacity));
              if n < l then triangles == old(triangles)[..n] && capacity == old(capacity)
              else if n <= c then triangles == old(triangles) && capacity == old(capacity)
              else triangles == old(triangles)[..l] && capacity == n
      ensures |old(triangles)| < 0x1_0000_0000 ==>
                if n < |old(triangles)| then triangles == old(triangles)[..n]
                else triangles == old(triangles) && capacity >= n
    {
      var l := ToUint32(|triangles|);
      var c := ToUint32(capacity);
      if n < l {
        triangles := triangles[..n];
        return;
      }
      if n <= c {
        return;
      }
      // make([]Triangle, l, n) followed by copy of the first l triangles
      triangles := triangles[..l];
      capacity := n;
    }

    /** Appends t; a full slice is reallocated with room for the new length. */
    method AppendTriangle(t: Triangle)
      requires Valid()
      modifies this`triangles, this`capacity
      ensures Valid()
      ensures triangles == old(triangles) + [t]
      ensures capacity >= old(capacity)
    {
      triangles := triangles + [t];
      if capacity < |triangles| {
        capacity := |triangles|;
      }
    }

    /**
     * Looks for degenerate triangles, normals that disagree with the winding
     * order (the angle test is the parameter normalMatches) and edges that
     * break the vertex-to-vertex rule. The result holds an entry for exactly
     * the triangles with a finding; the solid is not changed.
     */
    method Validate(normalMatches: Triangle -> bool) returns (triangleErrors: map<nat, TriangleErrors>)
      ensures triangleErrors == Findings(triangles, normalMatches, |triangles|)
    {
      var ts := triangles;
      // Build up the lookup from edge to triangle.
      var lookup := new EdgeLookup();
      var i := 0;
      while i < |ts|
        invariant 0 <= i <= |ts|
        invariant lookup.edgeToTriangles == Index(ts[..i])
      {
        var t := ts[i];
        var vertex1 := 0;
        while vertex1 < 3
          invariant 0 <= vertex1 <= 3
          invariant lookup.edgeToTriangles == InsertEdges(Index(ts[..i]), i, t, vertex1)
        {
          var vertex2 := (vertex1 + 1) % 3;
          lookup.InsertEdge(i, t.Vertex(vertex1), t.Vertex(vertex2));
          vertex1 := vertex1 + 1;
        }
        assert ts[..i + 1][..i] == ts[..i];
        i := i + 1;
      }
      assert ts[..i] == ts;

      // Look at every triangle's vertices, normal and edges.
      triangleErrors := map[];
      i := 0;
      while i < |ts|
        invariant 0 <= i <= |ts|
        invariant lookup.edgeToTriangles == Index(ts)
        invariant triangleErrors == Findings(ts, normalMatches, i)
      {
        triangleErrors := ExamineTriangle(lookup, ts, normalMatches, i, triangleErrors);
        i := i + 1;
      }
    }
  }

  /**
   * One pass of Validate's second loop: the flags of triangle i, then its
   * three edges, each looked up in both directions.
   */
  method ExamineTriangle(lookup: EdgeLookup, ts: seq<Triangle>, normalMatches: Triangle -> bool, i: nat,
                         m: map<nat, TriangleErrors>) returns (triangleErrors: map<nat, TriangleErrors>)
    requires i < |ts| && lookup.edgeToTriangles == Index(ts)
    requires m == Findings(ts, normalMatches, i)
    ensures triangleErrors == Findings(ts, normalMatches, i + 1)
  {
    ghost var rs := Records(ts, normalMatches);
    assert i !in m;
    triangleErrors := m;
    var t := ts[i];
    ItemFresh(rs, i);
    if HasEqualVertices(t) {
      triangleErrors := triangleErrors[i := Item(triangleErrors, i).(hasEqualVertices := true)];
    }
    if !normalMatches(t) {
      triangleErrors := triangleErrors[i := Item(triangleErrors, i).(normalDoesNotMatch := true)];
    }
    ghost var record := Record(ts, normalMatches, i);
    FlagStep(m, i, record);
    // vertex1 is also the index of the edge
    var vertex1 := 0;
    while vertex1 < 3
      invariant 0 <= vertex1 <= 3
      invariant triangleErrors == m + Entry(Prefix(record, vertex1), i)
    {
      var vertex2 := (vertex1 + 1) % 3;
      OthersAreSharers(lookup, ts, t.Vertex(vertex1), t.Vertex(vertex2), i);
      OthersAreSharers(lookup, ts, t.Vertex(vertex2), t.Vertex(vertex1), i);
      // other triangles with the same edge
      var sameEdgeTriangles := lookup.OtherTrianglesWithEdge(t.Vertex(vertex1), t.Vertex(vertex2), i);
      assert sameEdgeTriangles == SameSharers(ts, i, vertex1);
      if |sameEdgeTriangles| > 0 {
        triangleErrors := triangleErrors[i := WithSame(Item(triangleErrors, i), vertex1, sameEdgeTriangles)];
      }
      // other triangles with the edge in the opposite direction: 0 or several is an error
      var counterEdgeTriangles := lookup.OtherTrianglesWithEdge(t.Vertex(vertex2), t.Vertex(vertex1), i);
      assert counterEdgeTriangles == CounterSharers(ts, i, vertex1);
      if |counterEdgeTriangles| != 1 {
        triangleErrors := triangleErrors[i := WithCounter(Item(triangleErrors, i), vertex1, counterEdgeTriangles)];
      }
      assert record.edgeErrors[vertex1] == EdgeFinding(ts, i, vertex1);
      EdgeStep(m, i, record, vertex1, sameEdgeTriangles, counterEdgeTriangles);
      vertex1 := vertex1 + 1;
    }
    PrefixAll(record);
    assert rs[i] == record;
    FindingsOfNext(rs, i);
  }
}
