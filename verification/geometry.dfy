/** Triangles as the mesh parser reads them and the flat per-submesh vertex
    arrays GenerateSubMesh expands them into (render3d.cpp:460-516). */
module Geometry {
  import opened Base

  /** One face: nine 1-based indices, per corner in v, t, n order
      (render3d.h:193-196). */
  datatype ObjTri = ObjTri(v0: int, t0: int, n0: int,
                           v1: int, t1: int, n1: int,
                           v2: int, t2: int, n2: int)

  /** The nine fields in declaration order: slot 3k+a holds attribute a of
      corner k. */
  function Fields(tri: ObjTri): (f: seq<int>)
    ensures |f| == 9
  {
    [tri.v0, tri.t0, tri.n0, tri.v1, tri.t1, tri.n1, tri.v2, tri.t2, tri.n2]
  }

  function FromFields(f: seq<int>): (tri: ObjTri)
    requires |f| == 9
    ensures Fields(tri) == f
  {
    ObjTri(f[0], f[1], f[2], f[3], f[4], f[5], f[6], f[7], f[8])
  }

  lemma FieldsDetermineTriangle(a: ObjTri, b: ObjTri)
    requires Fields(a) == Fields(b)
    ensures a == b
  {
    assert Fields(a)[0] == Fields(b)[0] && Fields(a)[8] == Fields(b)[8];
  }

  datatype Attr = Pos | Tex | Nrm

  /** The field slot of attribute a at corner k. */
  function Slot(a: Attr, k: nat): (s: nat)
    requires k < 3
    ensures s < 9 && s / 3 == k
  {
    3 * k + (match a case Pos => 0 case Tex => 1 case Nrm => 2)
  }

  /** Attribute a's index at corner k of a triangle. */
  function Index(tri: ObjTri, a: Attr, k: nat): int
    requires k < 3
  {
    Fields(tri)[Slot(a, k)]
  }

  /** The source's in-place 1-to-0-based conversion: every field drops by one,
      whether or not sscanf wrote it (render3d.cpp:486-497). */
  function Decrement(tri: ObjTri): (r: ObjTri)
    ensures forall f :: 0 <= f < 9 ==> Fields(r)[f] == Fields(tri)[f] - 1
  {
    ObjTri(tri.v0 - 1, tri.t0 - 1, tri.n0 - 1,
           tri.v1 - 1, tri.t1 - 1, tri.n1 - 1,
           tri.v2 - 1, tri.t2 - 1, tri.n2 - 1)
  }

  function DecrementAll(tris: seq<ObjTri>): (r: seq<ObjTri>)
    ensures |r| == |tris|
    ensures forall i :: 0 <= i < |tris| ==> r[i] == Decrement(tris[i])
  {
    seq(|tris|, i requires 0 <= i < |tris| => Decrement(tris[i]))
  }

  /** Every index of attribute a in tris selects an element of a list of
      length n. */
  predicate InRange(tris: seq<ObjTri>, a: Attr, n: nat)
  {
    forall i, k :: 0 <= i < |tris| && 0 <= k < 3 ==> 0 <= Index(tris[i], a, k) < n
  }

  /** The flat array of one attribute: element 3i+k is the list entry that
      corner k of triangle i selects (render3d.cpp:499-513). */
  function Expand<A>(list: seq<A>, tris: seq<ObjTri>, a: Attr): (r: seq<A>)
    requires InRange(tris, a, |list|)
    ensures |r| == 3 * |tris|
    ensures forall i, k :: 0 <= i < |tris| && 0 <= k < 3 ==> r[3 * i + k] == list[Index(tris[i], a, k)]
    decreases |tris|
  {
    if |tris| == 0 then []
    else
      var n := |tris| - 1;
      var t := tris[n];
      assert InRange(tris[..n], a, |list|) by {
        forall i, k | 0 <= i < n && 0 <= k < 3
          ensures 0 <= Index(tris[..n][i], a, k) < |list|
        {
          assert tris[..n][i] == tris[i];
        }
      }
      assert 0 <= Index(t, a, 0) < |list| && 0 <= Index(t, a, 1) < |list| && 0 <= Index(t, a, 2) < |list|;
      var front := Expand(list, tris[..n], a);
      var r := front + [list[Index(t, a, 0)], list[Index(t, a, 1)], list[Index(t, a, 2)]];
      assert forall i, k :: 0 <= i < n && 0 <= k < 3 ==> r[3 * i + k] == list[Index(tris[i], a, k)] by {
        forall i, k | 0 <= i < n && 0 <= k < 3
          ensures r[3 * i + k] == list[Index(tris[i], a, k)]
        {
          assert tris[..n][i] == tris[i];
        }
      }
      r
  }

  lemma DecrementIndex(t: ObjTri, a: Attr, k: nat)
    requires k < 3
    ensures Index(Decrement(t), a, k) == Index(t, a, k) - 1
  {
  }

  /** flat is the flat array of attribute a for the 1-based triangles tris:
      element 3i+k is list[(index of corner k of triangle i) - 1]. */
  predicate Flattens<A(==)>(flat: seq<A>, list: seq<A>, tris: seq<ObjTri>, a: Attr)
  {
    && |flat| == 3 * |tris|
    && forall i, k :: 0 <= i < |tris| && 0 <= k < 3 ==>
         0 <= Index(tris[i], a, k) - 1 < |list| &&
         flat[3 * i + k] == list[Index(tris[i], a, k) - 1]
  }

  /** Expanding the decremented triangles reads entry (1-based index - 1). */
  lemma ExpandDecremented<A>(list: seq<A>, tris: seq<ObjTri>, a: Attr)
    requires InRange(DecrementAll(tris), a, |list|)
    ensures Flattens(Expand(list, DecrementAll(tris), a), list, tris, a)
  {
    var z := DecrementAll(tris);
    var r := Expand(list, z, a);
    forall i, k | 0 <= i < |tris| && 0 <= k < 3
      ensures 0 <= Index(tris[i], a, k) - 1 < |list|
      ensures r[3 * i + k] == list[Index(tris[i], a, k) - 1]
    {
      DecrementIndex(tris[i], a, k);
    }
  }

  /** The CPU-side vertex data of one submesh. The three arrays are absent
      when never allocated or once released after upload. The two
      "original" fields hold the export_triangles copy (render3d.cpp:477-482). */
  datatype VertexArrays = VertexArrays(
    vertexCount: nat,
    positions: Option<seq<Vec3>>,
    texcoords: Option<seq<Vec2>>,
    normals: Option<seq<Vec3>>,
    oriPositions: seq<Vec3>,
    oriTriangles: seq<ObjTri>)

  /** How the parser treats the defects recorded under Findings in the
      README: `AsWritten` is the source; `Intended` checks every index the
      face's format names against 1 and writes only the arrays it allocated. */
  datatype Policy = AsWritten | Intended

  /** The source writes an attribute's flat array whether or not it was
      allocated: with an empty list (a null array) any triangle is a write
      through null, and otherwise every index must be in range. */
  predicate AttrDefined(tris: seq<ObjTri>, a: Attr, n: nat, policy: Policy)
  {
    if n > 0 then InRange(tris, a, n)
    else policy == Intended || |tris| == 0
  }

  /** GenerateSubMesh reads and writes only inside its buffers. */
  predicate GenerationDefined(positions: seq<Vec3>, texcoords: seq<Vec2>, normals: seq<Vec3>,
                              tris: seq<ObjTri>, policy: Policy)
  {
    var z := DecrementAll(tris);
    && InRange(z, Pos, |positions|)
    && AttrDefined(z, Tex, |texcoords|, policy)
    && AttrDefined(z, Nrm, |normals|, policy)
  }

  /** ObjMeshParser::GenerateSubMesh (render3d.cpp:460-516): tris holds the
      1-based triangles as parsed. */
  function GenerateSubMesh(positions: seq<Vec3>, texcoords: seq<Vec2>, normals: seq<Vec3>,
                           tris: seq<ObjTri>, exportTriangles: bool, policy: Policy): (r: Checked<VertexArrays>)
    ensures r.Ok? <==> GenerationDefined(positions, texcoords, normals, tris, policy)
    ensures r.Ok? ==>
      && r.value.vertexCount == 3 * |tris|
      && r.value.positions.Some?
      && (r.value.texcoords.Some? <==> |texcoords| > 0)
      && (r.value.normals.Some? <==> |normals| > 0)
      && r.value.oriPositions == (if exportTriangles then positions else [])
      && r.value.oriTriangles == (if exportTriangles then tris else [])
  {
    if !GenerationDefined(positions, texcoords, normals, tris, policy) then
      Fault("GenerateSubMesh indexes outside an attribute array or writes through a null one")
    else
      var z := DecrementAll(tris);
      var tc := if |texcoords| > 0 then Some(Expand(texcoords, z, Tex)) else None;
      var nm := if |normals| > 0 then Some(Expand(normals, z, Nrm)) else None;
      Ok(VertexArrays(
        3 * |tris|,
        Some(Expand(positions, z, Pos)),
        tc,
        nm,
        if exportTriangles then positions else [],
        if exportTriangles then tris else []))
  }

  /** The flat arrays GenerateSubMesh fills: corner k of triangle i reads
      entry (1-based index - 1) of each attribute list it was given. */
  lemma GenerateSubMeshFlattens(positions: seq<Vec3>, texcoords: seq<Vec2>, normals: seq<Vec3>,
                                tris: seq<ObjTri>, exportTriangles: bool, policy: Policy)
    ensures var r := GenerateSubMesh(positions, texcoords, normals, tris, exportTriangles, policy);
      r.Ok? ==>
        && Flattens(r.value.positions.value, positions, tris, Pos)
        && (r.value.texcoords.Some? ==> Flattens(r.value.texcoords.value, texcoords, tris, Tex))
        && (r.value.normals.Some? ==> Flattens(r.value.normals.value, normals, tris, Nrm))
  {
    if GenerationDefined(positions, texcoords, normals, tris, policy) {
      ExpandDecremented(positions, tris, Pos);
      if |texcoords| > 0 {
        ExpandDecremented(texcoords, tris, Tex);
      }
      if |normals| > 0 {
        ExpandDecremented(normals, tris, Nrm);
      }
    }
  }

  /** The vertex count summed over a list of submeshes. */
  function TotalVertices(subs: seq<VertexArrays>): nat
  {
    if |subs| == 0 then 0 else TotalVertices(subs[..|subs| - 1]) + subs[|subs| - 1].vertexCount
  }
}
