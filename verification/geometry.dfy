/**
 * Points, triangles and directed edges of an STL solid.
 *
 * Vertices are only ever compared for exact equality (as map keys when the
 * mesh is validated), so a point is a triple of reals with structural
 * equality; no arithmetic on coordinates happens in this model.
 */
module Geometry {

  /** A point or a vector (the source's float64 triple). */
  datatype Vec3 = Vec3(x: real, y: real, z: real)

  /** Three vertices in winding order and the normal stored in the file. */
  datatype Triangle = Triangle(normal: Vec3, v0: Vec3, v1: Vec3, v2: Vec3)
  {
    /** Vertex k, as `Vertices[k]`. */
    function Vertex(k: nat): Vec3
      requires k < 3
    {
      if k == 0 then v0 else if k == 1 then v1 else v2
    }
  }

  /** A directed edge: the ordered vertex pair used as a lookup key. */
  type Edge = (Vec3, Vec3)

  /** Edge e of t runs from vertex e to vertex (e + 1) % 3. */
  function EdgeOf(t: Triangle, e: nat): Edge
    requires e < 3
  {
    (t.Vertex(e), t.Vertex((e + 1) % 3))
  }

  /** The same two vertices traversed the other way. */
  function Reversed(d: Edge): Edge {
    (d.1, d.0)
  }

  /** Some two vertices coincide: the triangle is a line or a point. */
  predicate HasEqualVertices(t: Triangle) {
    t.v0 == t.v1 || t.v1 == t.v2 || t.v2 == t.v0
  }

  /**
   * A triangle cannot hold one of its own edges in the opposite direction
   * unless two of its vertices coincide, so the counter-edge search never
   * has to exclude the triangle itself for a healthy triangle.
   */
  lemma SelfCounterEdgeMeansEqualVertices(t: Triangle, e: nat, f: nat)
    requires e < 3 && f < 3
    requires EdgeOf(t, f) == Reversed(EdgeOf(t, e))
    ensures HasEqualVertices(t)
  {
  }
}
