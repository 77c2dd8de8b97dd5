/** A spline: the chain of points curving a block edge between two vertex
    labels of the global point list. */
module Splines {
  import opened Globals

  /** `chain` holds the spline points in order, vertices included. */
  datatype Spline = Spline(vertexA: int, vertexB: int, chain: seq<Vector>)

  /** The spline of the given vertices through the given points in between:
      the chain starts at vertex A's point and ends at vertex B's point. */
  function MakeSpline(globalPoints: seq<Vector>, vA: nat, vB: nat, between: seq<Vector>): (s: Spline)
    requires vA < |globalPoints| && vB < |globalPoints|
    ensures Size(s) == |between| + 2
    ensures s.vertexA == vA && s.vertexB == vB
  {
    Spline(vA, vB, [globalPoints[vA]] + between + [globalPoints[vB]])
  }

  function Size(s: Spline): nat {
    |s.chain|
  }

  /** `getVertexA`. */
  function GetVertexA(s: Spline): int {
    s.vertexA
  }

  /** `getVertexB`. */
  function GetVertexB(s: Spline): int {
    s.vertexB
  }

  /** `getPoint(i)`: element `i` of the chain. */
  function GetPoint(s: Spline, i: nat): (p: Vector)
    requires i < Size(s)
    ensures p in s.chain
  {
    s.chain[i]
  }

  /** `getFirstPoint`: the chain's first element; needs a non-empty chain. */
  function GetFirstPoint(s: Spline): (p: Vector)
    requires Size(s) >= 1
    ensures p == GetPoint(s, 0)
  {
    s.chain[0]
  }

  /** `getLastPoint`: element `size() - 1`; needs a non-empty chain. */
  function GetLastPoint(s: Spline): (p: Vector)
    requires Size(s) >= 1
    ensures p == GetPoint(s, Size(s) - 1)
  {
    s.chain[Size(s) - 1]
  }

  /** The first and last points of a constructed spline are exactly its
      vertices' points, the vertex labels are the ones given, and point
      `k + 1` is the `k`-th point in between. */
  lemma SplineEndpointsAreVertices(globalPoints: seq<Vector>, vA: nat, vB: nat, between: seq<Vector>)
    requires vA < |globalPoints| && vB < |globalPoints|
    ensures GetFirstPoint(MakeSpline(globalPoints, vA, vB, between)) == globalPoints[vA]
    ensures GetLastPoint(MakeSpline(globalPoints, vA, vB, between)) == globalPoints[vB]
    ensures GetVertexA(MakeSpline(globalPoints, vA, vB, between)) == vA
    ensures GetVertexB(MakeSpline(globalPoints, vA, vB, between)) == vB
    ensures forall k :: 0 <= k < |between| ==>
      GetPoint(MakeSpline(globalPoints, vA, vB, between), k + 1) == between[k]
  {
  }
}
