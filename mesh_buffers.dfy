/** The vertex buffers of a triangle mesh (widgets/exercisor/play/mesh_utils.py,
    class CustomMeshData): per-vertex normals gathered from the faces around
    each vertex, the flat index list, and the interleaved buffer of eight
    values per vertex (position, normal, two zero texture coordinates) that is
    handed to OpenGL row by row. */
module MeshBuffers {
  import opened Common
  import opened ProcessThetas

  datatype Vec3 = Vec3(x: real, y: real, z: real)

  const Zero: Vec3 := Vec3(0.0, 0.0, 0.0)

  function Add(a: Vec3, b: Vec3): Vec3
  {
    Vec3(a.x + b.x, a.y + b.y, a.z + b.z)
  }

  function Sub(a: Vec3, b: Vec3): Vec3
  {
    Vec3(a.x - b.x, a.y - b.y, a.z - b.z)
  }

  function Dot(a: Vec3, b: Vec3): real
  {
    a.x * b.x + a.y * b.y + a.z * b.z
  }

  /** calc_face_norm: the cross product of the edges p1 - p0 and p2 - p0. */
  function FaceNorm(p0: Vec3, p1: Vec3, p2: Vec3): Vec3
  {
    var u, v := Sub(p1, p0), Sub(p2, p0);
    Vec3(u.y * v.z - u.z * v.y, u.z * v.x - u.x * v.z, u.x * v.y - u.y * v.x)
  }

  /** The face normal is orthogonal to both edges it is built from, turns
      round when two corners swap, and vanishes when two corners coincide. */
  lemma FaceNormSpec(p0: Vec3, p1: Vec3, p2: Vec3)
    ensures Dot(FaceNorm(p0, p1, p2), Sub(p1, p0)) == 0.0
    ensures Dot(FaceNorm(p0, p1, p2), Sub(p2, p0)) == 0.0
    ensures FaceNorm(p0, p2, p1) == Sub(Zero, FaceNorm(p0, p1, p2))
    ensures p1 == p0 || p2 == p0 ==> FaceNorm(p0, p1, p2) == Zero
  {
  }

  // ---------------------------------------------------------------------------
  // extract_norms_and_indices
  // ---------------------------------------------------------------------------

  /** The faces are an F x 3 array of vertex indices into the N vertices. */
  predicate ValidFaces(faces: seq<seq<int>>, n: nat)
  {
    forall k :: 0 <= k < |faces| ==> |faces[k]| == 3 && forall c :: 0 <= c < 3 ==> 0 <= faces[k][c] < n
  }

  /** The normal of face `tri`. */
  function TriNorm(verts: seq<Vec3>, tri: seq<int>): Vec3
    requires |tri| == 3 && forall c :: 0 <= c < 3 ==> 0 <= tri[c] < |verts|
  {
    FaceNorm(verts[tri[0]], verts[tri[1]], verts[tri[2]])
  }

  /** The normals after adding `fn` at the first m corners of `tri`, one
      corner after the other. */
  function AddCorners(norms: seq<Vec3>, tri: seq<int>, fn: Vec3, m: nat): (r: seq<Vec3>)
    requires m <= |tri| && forall c :: 0 <= c < m ==> 0 <= tri[c] < |norms|
    ensures |r| == |norms|
  {
    if m == 0 then norms
    else
      var prev := AddCorners(norms, tri, fn, m - 1);
      prev[tri[m - 1] := Add(prev[tri[m - 1]], fn)]
  }

  /** The vertex normals after the given faces, accumulated in order. */
  function Accumulate(verts: seq<Vec3>, faces: seq<seq<int>>): (r: seq<Vec3>)
    requires ValidFaces(faces, |verts|)
    ensures |r| == |verts|
  {
    if faces == [] then seq(|verts|, i => Zero)
    else
      var tri := faces[|faces| - 1];
      AddCorners(Accumulate(verts, faces[..|faces| - 1]), tri, TriNorm(verts, tri), 3)
  }

  /** The faces' vertex indices in one flat list. */
  function Flatten(faces: seq<seq<int>>): (r: seq<int>)
  {
    if faces == [] then [] else Flatten(faces[..|faces| - 1]) + faces[|faces| - 1]
  }

  /** What a face adds to the normal of vertex v: its normal once for every
      corner at v. */
  function Contribution(tri: seq<int>, v: int, fn: Vec3, m: nat): Vec3
    requires m <= |tri|
  {
    if m == 0 then Zero
    else Add(Contribution(tri, v, fn, m - 1), if tri[m - 1] == v then fn else Zero)
  }

  /** The normal of vertex v: the sum of the normals of its incident faces. */
  function IncidentSum(verts: seq<Vec3>, faces: seq<seq<int>>, v: int): Vec3
    requires ValidFaces(faces, |verts|)
  {
    if faces == [] then Zero
    else
      var tri := faces[|faces| - 1];
      Add(IncidentSum(verts, faces[..|faces| - 1], v), Contribution(tri, v, TriNorm(verts, tri), 3))
  }

  lemma {:induction false} AddCornersAt(norms: seq<Vec3>, tri: seq<int>, fn: Vec3, m: nat, v: int)
    requires m <= |tri| && forall c :: 0 <= c < m ==> 0 <= tri[c] < |norms|
    requires 0 <= v < |norms|
    ensures AddCorners(norms, tri, fn, m)[v] == Add(norms[v], Contribution(tri, v, fn, m))
  {
    if m > 0 {
      var prev := AddCorners(norms, tri, fn, m - 1);
      AddCornersAt(norms, tri, fn, m - 1, v);
      var c := Contribution(tri, v, fn, m - 1);
      assert prev[v] == Add(norms[v], c);
      if tri[m - 1] == v {
        assert AddCorners(norms, tri, fn, m)[v] == Add(prev[v], fn);
      } else {
        assert AddCorners(norms, tri, fn, m)[v] == prev[v];
      }
    }
  }

  /** A face with no corner at v adds nothing to its normal. */
  lemma ContributionAbsent(tri: seq<int>, v: int, fn: Vec3)
    requires |tri| == 3 && tri[0] != v && tri[1] != v && tri[2] != v
    ensures Contribution(tri, v, fn, 3) == Zero
  {
    assert Add(Zero, Zero) == Zero;
    assert Contribution(tri, v, fn, 0) == Zero;
    assert Contribution(tri, v, fn, 1) == Add(Contribution(tri, v, fn, 0), Zero);
    assert Contribution(tri, v, fn, 2) == Add(Contribution(tri, v, fn, 1), Zero);
    assert Contribution(tri, v, fn, 3) == Add(Contribution(tri, v, fn, 2), Zero);
  }

  /** The accumulated normal of every vertex is the sum of the normals of the
      faces around it, counted once per corner, and zero for a vertex no face
      uses. */
  lemma {:induction false} AccumulateIsIncidentSum(verts: seq<Vec3>, faces: seq<seq<int>>, v: int)
    requires ValidFaces(faces, |verts|) && 0 <= v < |verts|
    ensures Accumulate(verts, faces)[v] == IncidentSum(verts, faces, v)
    ensures (forall k, c :: 0 <= k < |faces| && 0 <= c < 3 ==> faces[k][c] != v) ==> Accumulate(verts, faces)[v] == Zero
  {
    if faces != [] {
      var tri := faces[|faces| - 1];
      var init := faces[..|faces| - 1];
      AccumulateIsIncidentSum(verts, init, v);
      AddCornersAt(Accumulate(verts, init), tri, TriNorm(verts, tri), 3, v);
      if forall k, c :: 0 <= k < |faces| && 0 <= c < 3 ==> faces[k][c] != v {
        assert forall k, c :: 0 <= k < |init| && 0 <= c < 3 ==> init[k][c] != v by {
          forall k, c | 0 <= k < |init| && 0 <= c < 3
            ensures init[k][c] != v
          {
            assert init[k] == faces[k];
          }
        }
        assert tri[0] != v && tri[1] != v && tri[2] != v by {
          assert tri == faces[|faces| - 1];
        }
        ContributionAbsent(tri, v, TriNorm(verts, tri));
      }
    }
  }

  /** The index list holds every face's three corners, face by face. */
  lemma {:induction false} FlattenSpec(faces: seq<seq<int>>)
    requires forall k :: 0 <= k < |faces| ==> |faces[k]| == 3
    ensures |Flatten(faces)| == 3 * |faces|
    ensures forall k, c :: 0 <= k < |faces| && 0 <= c < 3 ==> Flatten(faces)[3 * k + c] == faces[k][c]
  {
    if faces != [] {
      FlattenSpec(faces[..|faces| - 1]);
    }
  }

  /** extract_norms_and_indices: the loop over the faces. */
  method ExtractNormsAndIndices(verts: seq<Vec3>, faces: seq<seq<int>>) returns (norms: array<Vec3>, indices: seq<int>)
    requires ValidFaces(faces, |verts|)
    ensures fresh(norms) && norms[..] == Accumulate(verts, faces) && indices == Flatten(faces)
  {
    norms := new Vec3[|verts|](i => Zero);
    indices := [];
    for k := 0 to |faces|
      invariant norms[..] == Accumulate(verts, faces[..k]) && indices == Flatten(faces[..k])
    {
      var tri := faces[k];
      AddFaceNorm(norms, tri, TriNorm(verts, tri));
      indices := indices + tri;
      assert faces[..k + 1][..k] == faces[..k];
    }
    assert faces[..|faces|] == faces;
  }

  /** The inner loop over the corners of one face: the face normal added to
      the normal of each of its vertices. */
  method AddFaceNorm(norms: array<Vec3>, tri: seq<int>, fn: Vec3)
    requires |tri| == 3 && forall c :: 0 <= c < 3 ==> 0 <= tri[c] < norms.Length
    modifies norms
    ensures norms[..] == AddCorners(old(norms[..]), tri, fn, 3)
  {
    for c := 0 to 3
      invariant norms[..] == AddCorners(old(norms[..]), tri, fn, c)
    {
      norms[tri[c]] := Add(norms[tri[c]], fn);
    }
  }

  // ---------------------------------------------------------------------------
  // The interleaved buffer
  // ---------------------------------------------------------------------------

  /** One row of verts_formatted: the position, the normal and [0, 0]. */
  function FormatRow(v: Vec3, n: Vec3): (r: seq<real>)
    ensures |r| == 8
  {
    [v.x, v.y, v.z, n.x, n.y, n.z, 0.0, 0.0]
  }

  /** `verts_formatted.flatten().tolist()`: the rows one after the other. */
  function FlattenRows(m: seq<seq<real>>): seq<real>
  {
    if m == [] then [] else FlattenRows(m[..|m| - 1]) + m[|m| - 1]
  }

  /** With rows of eight, entry j of row i sits at 8 i + j of the buffer,
      which holds 8 N values. */
  lemma {:induction false} FlattenRowsLayout(m: seq<seq<real>>)
    requires forall i :: 0 <= i < |m| ==> |m[i]| == 8
    ensures |FlattenRows(m)| == 8 * |m|
    ensures forall i, j :: 0 <= i < |m| && 0 <= j < 8 ==> FlattenRows(m)[8 * i + j] == m[i][j]
  {
    if m != [] {
      FlattenRowsLayout(m[..|m| - 1]);
    }
  }

  /** The rows of verts_formatted for the given vertices and normals. */
  function FormatRows(verts: seq<Vec3>, norms: seq<Vec3>): (r: seq<seq<real>>)
    requires |norms| == |verts|
    ensures |r| == |verts| && forall i :: 0 <= i < |verts| ==> r[i] == FormatRow(verts[i], norms[i])
  {
    seq(|verts|, i requires 0 <= i < |verts| => FormatRow(verts[i], norms[i]))
  }

  /** The rows after update_verts: new positions, everything else kept. */
  function UpdatedRows(m: seq<seq<real>>, newVerts: seq<Vec3>): (r: seq<seq<real>>)
    requires |newVerts| >= |m| && forall i :: 0 <= i < |m| ==> |m[i]| == 8
    ensures |r| == |m|
    ensures forall i :: 0 <= i < |m| ==>
      (|r[i]| == 8 && r[i][3..] == m[i][3..] &&
       r[i][0] == newVerts[i].x && r[i][1] == newVerts[i].y && r[i][2] == newVerts[i].z)
  {
    seq(|m|, i requires 0 <= i < |m| => [newVerts[i].x, newVerts[i].y, newVerts[i].z] + m[i][3..])
  }

  /** Moving the vertices of a formatted mesh keeps its normals. */
  lemma UpdateKeepsNormals(verts: seq<Vec3>, norms: seq<Vec3>, newVerts: seq<Vec3>)
    requires |norms| == |verts| && |newVerts| >= |verts|
    ensures UpdatedRows(FormatRows(verts, norms), newVerts) == FormatRows(newVerts[..|verts|], norms)
  {
    var a, b := UpdatedRows(FormatRows(verts, norms), newVerts), FormatRows(newVerts[..|verts|], norms);
    forall i | 0 <= i < |verts|
      ensures a[i] == b[i]
    {
      assert a[i][3..] == b[i][3..];
    }
  }

  /** `a.flatten().tolist()` on an N x 8 array. */
  method FlattenArray(a: array2<real>) returns (s: seq<real>)
    requires a.Length1 == 8
    ensures s == FlattenRows(Rows(a))
  {
    s := [];
    for i := 0 to a.Length0
      invariant s == FlattenRows(Rows(a)[..i])
    {
      ghost var before := s;
      for j := 0 to 8
        invariant s == before + Rows(a)[i][..j]
      {
        s := s + [a[i, j]];
      }
      assert Rows(a)[..i + 1][..i] == Rows(a)[..i];
      assert Rows(a)[i][..8] == Rows(a)[i];
    }
    assert Rows(a)[..a.Length0] == Rows(a);
  }

  /** The N x 8 array whose rows are the formatted vertices. */
  method FormatArray(verts: seq<Vec3>, norms: seq<Vec3>) returns (a: array2<real>)
    requires |norms| == |verts|
    ensures fresh(a) && a.Length0 == |verts| && a.Length1 == 8
    ensures Rows(a) == FormatRows(verts, norms)
  {
    a := new real[|verts|, 8];
    for i := 0 to |verts|
      invariant forall r, c :: 0 <= r < i && 0 <= c < 8 ==> a[r, c] == FormatRow(verts[r], norms[r])[c]
    {
      var row := FormatRow(verts[i], norms[i]);
      for j := 0 to 8
        invariant forall r, c :: 0 <= r < i && 0 <= c < 8 ==> a[r, c] == FormatRow(verts[r], norms[r])[c]
        invariant forall c :: 0 <= c < j ==> a[i, c] == row[c]
      {
        a[i, j] := row[j];
      }
    }
    SameMatrix(Rows(a), FormatRows(verts, norms), 8);
  }

  /** The loop of update_verts: row i takes the position newVerts[i]. */
  method SetPositions(vf: array2<real>, newVerts: seq<Vec3>)
    requires vf.Length1 == 8 && |newVerts| >= vf.Length0
    modifies vf
    ensures Rows(vf) == UpdatedRows(old(Rows(vf)), newVerts)
  {
    ghost var before := Rows(vf);
    for i := 0 to vf.Length0
      invariant forall r, c :: 0 <= r < i && 0 <= c < 8 ==> vf[r, c] == UpdatedRows(before, newVerts)[r][c]
      invariant forall r, c :: i <= r < vf.Length0 && 0 <= c < 8 ==> vf[r, c] == before[r][c]
    {
      vf[i, 0] := newVerts[i].x;
      vf[i, 1] := newVerts[i].y;
      vf[i, 2] := newVerts[i].z;
    }
    SameMatrix(Rows(vf), UpdatedRows(before, newVerts), 8);
  }

  /** The three buffers init_gl_verts builds, before they are stored. */
  method SummedBuffers(verts: seq<Vec3>, faces: seq<seq<int>>) returns (vf: array2<real>, idx: seq<int>, gl: seq<real>)
    requires ValidFaces(faces, |verts|)
    ensures fresh(vf) && vf.Length0 == |verts| && vf.Length1 == 8
    ensures Rows(vf) == FormatRows(verts, Accumulate(verts, faces))
    ensures idx == Flatten(faces) && gl == FlattenRows(Rows(vf))
  {
    var norms;
    norms, idx := ExtractNormsAndIndices(verts, faces);
    vf := FormatArray(verts, norms[..]);
    gl := FlattenArray(vf);
  }

  class CustomMeshData {
    var vertices: seq<Vec3>
    var faces: seq<seq<int>>
    var indices: seq<int>
    var glVerts: seq<real>
    /** verts_formatted, which exists only once init_gl_verts has run. */
    var vertsFormatted: Option<array2<real>>

    constructor (vs: seq<Vec3>, fs: seq<seq<int>>)
      ensures vertices == vs && faces == fs && indices == [] && glVerts == [] && vertsFormatted == None
    {
      vertices, faces, indices, glVerts, vertsFormatted := vs, fs, [], [], None;
    }

    /** init_gl_verts: the normals and indices from the faces, one formatted
        row per vertex, and the flattened buffer. */
    method InitGlVerts()
      requires ValidFaces(faces, |vertices|)
      modifies this
      ensures vertices == old(vertices) && faces == old(faces)
      ensures vertsFormatted.Some? && fresh(vertsFormatted.value)
      ensures vertsFormatted.value.Length0 == |vertices| && vertsFormatted.value.Length1 == 8
      ensures Rows(vertsFormatted.value) == FormatRows(vertices, Accumulate(vertices, faces))
      ensures indices == Flatten(faces) && glVerts == FlattenRows(Rows(vertsFormatted.value))
    {
      var vf, idx, gl := SummedBuffers(vertices, faces);
      indices, vertsFormatted, glVerts := idx, Some(vf), gl;
    }

    /** update_verts: nothing before init_gl_verts; otherwise the first three
        columns of every row take the new positions and the buffer is
        flattened again. */
    method UpdateVerts(newVerts: seq<Vec3>)
      requires vertsFormatted.Some? ==> vertsFormatted.value.Length1 == 8 && |newVerts| >= vertsFormatted.value.Length0
      modifies this, if vertsFormatted.Some? then {vertsFormatted.value} else {}
      ensures vertsFormatted == old(vertsFormatted) && vertices == old(vertices) && faces == old(faces) && indices == old(indices)
      ensures old(vertsFormatted).None? ==> glVerts == old(glVerts)
      ensures vertsFormatted.Some? ==>
        Rows(vertsFormatted.value) == UpdatedRows(old(Rows(vertsFormatted.value)), newVerts) &&
        glVerts == FlattenRows(Rows(vertsFormatted.value))
    {
      if vertsFormatted.None? {
        return;
      }
      var vf := vertsFormatted.value;
      SetPositions(vf, newVerts);
      glVerts := FlattenArray(vf);
    }
  }
}
