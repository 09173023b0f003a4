/**
 * `createGeometryFromPolygon`: the buffers of a detected plane's mesh.
 * Each polygon point contributes its (x, y, z) to the vertex buffer and
 * its (x, z) to the uv buffer, and the polygon is cut into a fan of
 * triangles around its first point.
 */
module PlaneGeometry {

  /** A polygon point; the source's float coordinates, abstracted to integers. */
  datatype Point = Point(x: int, y: int, z: int)

  /** The three buffers handed to the mesh. */
  datatype Geometry = Geometry(vertices: seq<int>, uvs: seq<int>, indices: seq<nat>)

  function Vertices(polygon: seq<Point>): seq<int>
    decreases |polygon|
  {
    if polygon == [] then []
    else
      var p := polygon[|polygon| - 1];
      Vertices(polygon[..|polygon| - 1]) + [p.x, p.y, p.z]
  }

  function Uvs(polygon: seq<Point>): seq<int>
    decreases |polygon|
  {
    if polygon == [] then []
    else
      var p := polygon[|polygon| - 1];
      Uvs(polygon[..|polygon| - 1]) + [p.x, p.z]
  }

  /** The triangles for `i = 2 .. n - 1`, each `(0, i - 1, i)`. */
  function FanIndices(n: nat): seq<nat>
  {
    if n < 3 then [] else FanIndices(n - 1) + [0, n - 2, n - 1]
  }

  function FanGeometry(polygon: seq<Point>): Geometry {
    Geometry(Vertices(polygon), Uvs(polygon), FanIndices(|polygon|))
  }

  /** The vertex buffer holds each point's x, y and z in order. */
  lemma {:induction false} VerticesLayout(polygon: seq<Point>)
    ensures |Vertices(polygon)| == 3 * |polygon|
    ensures forall j :: 0 <= j < |polygon| ==>
      && Vertices(polygon)[3 * j] == polygon[j].x
      && Vertices(polygon)[3 * j + 1] == polygon[j].y
      && Vertices(polygon)[3 * j + 2] == polygon[j].z
    decreases |polygon|
  {
    if polygon != [] {
      var n := |polygon| - 1;
      VerticesLayout(polygon[..n]);
      forall j | 0 <= j < n
        ensures Vertices(polygon)[3 * j] == polygon[j].x
        ensures Vertices(polygon)[3 * j + 1] == polygon[j].y
        ensures Vertices(polygon)[3 * j + 2] == polygon[j].z
      {
        assert polygon[..n][j] == polygon[j];
      }
    }
  }

  /** The uv buffer holds each point's x and z in order. */
  lemma {:induction false} UvsLayout(polygon: seq<Point>)
    ensures |Uvs(polygon)| == 2 * |polygon|
    ensures forall j :: 0 <= j < |polygon| ==>
      Uvs(polygon)[2 * j] == polygon[j].x && Uvs(polygon)[2 * j + 1] == polygon[j].z
    decreases |polygon|
  {
    if polygon != [] {
      var n := |polygon| - 1;
      UvsLayout(polygon[..n]);
      forall j | 0 <= j < n
        ensures Uvs(polygon)[2 * j] == polygon[j].x && Uvs(polygon)[2 * j + 1] == polygon[j].z
      {
        assert polygon[..n][j] == polygon[j];
      }
    }
  }

  /**
   * A polygon of n >= 3 points gives n - 2 triangles, triangle k being
   * (0, k + 1, k + 2); fewer points give none; every index names a point.
   */
  lemma {:induction false} FanIndicesLayout(n: nat)
    ensures |FanIndices(n)| == if n < 3 then 0 else 3 * (n - 2)
    ensures forall k :: 0 <= k < n - 2 ==>
      && FanIndices(n)[3 * k] == 0
      && FanIndices(n)[3 * k + 1] == k + 1
      && FanIndices(n)[3 * k + 2] == k + 2
    ensures forall j :: 0 <= j < |FanIndices(n)| ==> FanIndices(n)[j] < n
  {
    if n >= 3 {
      FanIndicesLayout(n - 1);
    }
  }

  /** The source's two push loops. */
  method CreateGeometryFromPolygon(polygon: seq<Point>) returns (g: Geometry)
    ensures g == FanGeometry(polygon)
  {
    var vertices: seq<int> := [];
    var uvs: seq<int> := [];
    var j := 0;
    while j < |polygon|
      invariant 0 <= j <= |polygon|
      invariant vertices == Vertices(polygon[..j])
      invariant uvs == Uvs(polygon[..j])
    {
      assert polygon[..j + 1][..j] == polygon[..j];
      var point := polygon[j];
      vertices := vertices + [point.x, point.y, point.z];
      uvs := uvs + [point.x, point.z];
      j := j + 1;
    }
    assert polygon[..j] == polygon;

    var indices: seq<nat> := [];
    var i := 2;
    while i < |polygon|
      invariant 2 <= i
      invariant i <= |polygon| || |polygon| < 2
      invariant indices == FanIndices(if i <= |polygon| then i else |polygon|)
    {
      indices := indices + [0, i - 1, i];
      i := i + 1;
    }
    g := Geometry(vertices, uvs, indices);
  }
}
