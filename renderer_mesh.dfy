/** The recorder's renderer (widgets/exercise_recorder/renderer.py): its own
    MeshData, whose vertex normals are the average of the incident face
    normals with the incidences counted in a uint8 array, the line indices of
    the 24-joint skeleton, and the cycle through the OpenGL drawing modes. */
module RendererMesh {
  import opened Common
  import opened ProcessThetas
  import opened MeshBuffers

  // ---------------------------------------------------------------------------
  // Averaged normals
  // ---------------------------------------------------------------------------

  /** How many of the first m corners of `tri` sit at vertex v. */
  function Occurrences(tri: seq<int>, v: int, m: nat): (r: nat)
    requires m <= |tri|
    ensures r <= m
    ensures r == 0 <==> forall c :: 0 <= c < m ==> tri[c] != v
  {
    if m == 0 then 0 else Occurrences(tri, v, m - 1) + (if tri[m - 1] == v then 1 else 0)
  }

  /** How many face corners sit at vertex v. */
  function CornerCount(faces: seq<seq<int>>, v: int): nat
    requires forall k :: 0 <= k < |faces| ==> |faces[k]| == 3
  {
    if faces == [] then 0 else CornerCount(faces[..|faces| - 1], v) + Occurrences(faces[|faces| - 1], v, 3)
  }

  /** A vertex has no corner to count exactly when no face uses it. */
  lemma {:induction false} CornerCountZero(faces: seq<seq<int>>, v: int)
    requires forall k :: 0 <= k < |faces| ==> |faces[k]| == 3
    ensures CornerCount(faces, v) == 0 <==> forall k, c :: 0 <= k < |faces| && 0 <= c < 3 ==> faces[k][c] != v
  {
    if faces != [] {
      var init, tri := faces[..|faces| - 1], faces[|faces| - 1];
      CornerCountZero(init, v);
      assert (forall k, c :: 0 <= k < |faces| && 0 <= c < 3 ==> faces[k][c] != v) <==>
        (forall k, c :: 0 <= k < |init| && 0 <= c < 3 ==> init[k][c] != v) && (forall c :: 0 <= c < 3 ==> tri[c] != v);
    }
  }

  /** numpy's uint8: the value modulo 256. */
  function Uint8(n: int): (r: int)
    ensures 0 <= r < 256
    ensures 0 <= n < 256 ==> r == n
  {
    PyMod(n, 256)
  }

  /** vert_count: every vertex's corner count, held in a uint8. */
  function WrappedCounts(faces: seq<seq<int>>, n: nat): (r: seq<int>)
    requires forall k :: 0 <= k < |faces| ==> |faces[k]| == 3
    ensures |r| == n && forall v :: 0 <= v < n ==> r[v] == Uint8(CornerCount(faces, v))
  {
    seq(n, v => Uint8(CornerCount(faces, v)))
  }

  /** The division by vert_count is defined only where the uint8 count is
      non-zero; an unused vertex, or one whose count wraps to 0, would give
      numpy's not-a-number or infinity. */
  predicate CountsNonzero(faces: seq<seq<int>>, n: nat)
    requires forall k :: 0 <= k < |faces| ==> |faces[k]| == 3
  {
    forall v :: 0 <= v < n ==> Uint8(CornerCount(faces, v)) != 0
  }

  function Scale(a: Vec3, k: real): Vec3
  {
    Vec3(a.x * k, a.y * k, a.z * k)
  }

  function DivBy(a: Vec3, k: real): Vec3
    requires k != 0.0
  {
    Vec3(a.x / k, a.y / k, a.z / k)
  }

  /** `np.resize(a, (rows, 3))`: the entries of `a` repeated in order
      until they fill 3 * rows places, then cut into rows of three. */
  function Resize(a: seq<int>, rows: nat): (r: seq<seq<int>>)
    requires |a| > 0 || rows == 0
    ensures |r| == rows
  {
    var flat := Tile(a, 3 * rows);
    seq(rows, i requires 0 <= i < rows => flat[3 * i .. 3 * i + 3])
  }

  /** The entries of `a` repeated in order until there are `len` of them. */
  function Tile(a: seq<int>, len: nat): (r: seq<int>)
    requires |a| > 0 || len == 0
    ensures |r| == len
    decreases len
  {
    if len <= |a| then a[..len] else a + Tile(a, len - |a|)
  }

  /** Place k of the tiling holds entry k mod |a|. */
  lemma {:induction false} TileEntry(a: seq<int>, len: nat, k: nat)
    requires |a| > 0 && k < len
    ensures Tile(a, len)[k] == a[k % |a|]
    decreases len
  {
    var n := |a|;
    if k < n {
      DivModUnique(k, n, 0, k);
    } else {
      TileEntry(a, len - n, k - n);
      var q, r := (k - n) / n, (k - n) % n;
      assert k - n == q * n + r;
      assert k == (q + 1) * n + r;
      DivModUnique(k, n, q + 1, r);
    }
  }

  /** Entry (i, j) of the resized array is entry (3i + j) mod |a| of `a`. */
  lemma ResizeEntry(a: seq<int>, rows: nat, i: nat, j: nat)
    requires |a| > 0 && i < rows && j < 3
    ensures |Resize(a, rows)[i]| == 3 && Resize(a, rows)[i][j] == a[(3 * i + j) % |a|]
  {
    TileEntry(a, 3 * rows, 3 * i + j);
  }

  /** With every count non-zero, every entry of the resized counts is. */
  lemma ResizeNonzero(counts: seq<int>)
    requires forall v :: 0 <= v < |counts| ==> counts[v] != 0
    ensures NonzeroRows(Resize(counts, |counts|))
  {
    forall i | 0 <= i < |counts|
      ensures |Resize(counts, |counts|)[i]| == 3
      ensures Resize(counts, |counts|)[i][0] != 0 && Resize(counts, |counts|)[i][1] != 0 && Resize(counts, |counts|)[i][2] != 0
    {
      ResizeEntry(counts, |counts|, i, 0);
      ResizeEntry(counts, |counts|, i, 1);
      ResizeEntry(counts, |counts|, i, 2);
    }
  }

  /** The resized counts hold every vertex's count, vertex 3i + j at row i
      and column j, and nothing else: they have a zero exactly when some
      vertex's count is zero. */
  lemma ResizeHoldsEveryCount(counts: seq<int>)
    requires |counts| > 0
    ensures forall i, j :: 0 <= i && 0 <= j < 3 && 3 * i + j < |counts| ==>
      Resize(counts, |counts|)[i][j] == counts[3 * i + j]
    ensures (forall v :: 0 <= v < |counts| ==> counts[v] != 0) <==>
      (forall i, j :: 0 <= i < |counts| && 0 <= j < 3 ==> Resize(counts, |counts|)[i][j] != 0)
  {
    var n := |counts|;
    var d := Resize(counts, n);
    forall i, j | 0 <= i && 0 <= j < 3 && 3 * i + j < n
      ensures d[i][j] == counts[3 * i + j]
    {
      ResizeEntry(counts, n, i, j);
      DivModUnique(3 * i + j, n, 0, 3 * i + j);
    }
    if forall i, j :: 0 <= i < n && 0 <= j < 3 ==> d[i][j] != 0 {
      forall v | 0 <= v < n
        ensures counts[v] != 0
      {
        var i, j := v / 3, v % 3;
        assert 3 * i + j == v;
        assert d[i][j] == counts[3 * i + j];
      }
    }
    if forall v :: 0 <= v < n ==> counts[v] != 0 {
      forall i, j | 0 <= i < n && 0 <= j < 3
        ensures d[i][j] != 0
      {
        ResizeEntry(counts, n, i, j);
      }
    }
  }

  /** Component j of a sum over entry j of its row of the divisor. */
  function DivRow(a: Vec3, d: seq<int>): Vec3
    requires |d| == 3 && d[0] != 0 && d[1] != 0 && d[2] != 0
  {
    Vec3(a.x / d[0] as real, a.y / d[1] as real, a.z / d[2] as real)
  }

  /** `vert_norms /= np.resize(vert_count, (N, 3))` as written: component j
      of the sum of vertex i is divided by the count of vertex
      (3i + j) mod N, not by the count of vertex i. */
  function ResizedAveraged(sums: seq<Vec3>, counts: seq<int>): (r: seq<Vec3>)
    requires |counts| == |sums| && forall v :: 0 <= v < |counts| ==> counts[v] != 0
    ensures |r| == |sums|
  {
    ResizeNonzero(counts);
    DivideRows(sums, Resize(counts, |sums|))
  }

  /** Every vector over its row of the divisor. */
  predicate NonzeroRows(d: seq<seq<int>>)
  {
    forall i :: 0 <= i < |d| ==> |d[i]| == 3 && d[i][0] != 0 && d[i][1] != 0 && d[i][2] != 0
  }

  function DivideRows(sums: seq<Vec3>, d: seq<seq<int>>): (r: seq<Vec3>)
    requires |d| == |sums| && NonzeroRows(d)
    ensures |r| == |sums|
  {
    seq(|sums|, i requires 0 <= i < |sums| => DivRow(sums[i], d[i]))
  }

  /** The in-place division `vert_norms /= divisor`, row by row. */
  method DivideInPlace(norms: array<Vec3>, d: seq<seq<int>>)
    requires |d| == norms.Length && NonzeroRows(d)
    modifies norms
    ensures norms[..] == DivideRows(old(norms[..]), d)
  {
    ghost var sums := norms[..];
    for v := 0 to norms.Length
      invariant forall u :: 0 <= u < v ==> norms[u] == DivRow(sums[u], d[u])
      invariant forall u :: v <= u < norms.Length ==> norms[u] == sums[u]
    {
      norms[v] := DivRow(norms[v], d[v]);
    }
  }

  /** Each component of the resized average, multiplied back by the count
      it was divided by, is the component of the sum. */
  lemma ResizedScalesBack(sums: seq<Vec3>, counts: seq<int>, i: int)
    requires |counts| == |sums| && forall v :: 0 <= v < |counts| ==> counts[v] != 0
    requires 0 <= i < |sums|
    ensures var r, n := ResizedAveraged(sums, counts)[i], |sums|;
      r.x * counts[(3 * i) % n] as real == sums[i].x &&
      r.y * counts[(3 * i + 1) % n] as real == sums[i].y &&
      r.z * counts[(3 * i + 2) % n] as real == sums[i].z
  {
    var n := |sums|;
    ResizeEntry(counts, n, i, 0);
    ResizeEntry(counts, n, i, 1);
    ResizeEntry(counts, n, i, 2);
  }

  /** The resized average agrees with the per-vertex average at vertex i
      when the three counts it divides by are the count of vertex i, as
      they are when every vertex is on the same number of corners. */
  lemma ResizedMatchesAt(sums: seq<Vec3>, counts: seq<int>, i: int)
    requires |counts| == |sums| && forall v :: 0 <= v < |counts| ==> counts[v] != 0
    requires 0 <= i < |sums|
    requires counts[(3 * i) % |sums|] == counts[(3 * i + 1) % |sums|] == counts[(3 * i + 2) % |sums|] == counts[i]
    ensures ResizedAveraged(sums, counts)[i] == Averaged(sums, counts)[i]
  {
    ResizeEntry(counts, |sums|, i, 0);
    ResizeEntry(counts, |sums|, i, 1);
    ResizeEntry(counts, |sums|, i, 2);
  }

  /** The per-vertex average extract_norms_and_indices evidently intends:
      each sum over its own vertex's count. */
  function Averaged(sums: seq<Vec3>, counts: seq<int>): (r: seq<Vec3>)
    requires |counts| == |sums| && forall v :: 0 <= v < |counts| ==> counts[v] != 0
    ensures |r| == |sums|
  {
    seq(|sums|, v requires 0 <= v < |sums| => DivBy(sums[v], counts[v] as real))
  }

  /** Each averaged normal, scaled back by its count, is its sum. */
  lemma AveragedScalesBack(sums: seq<Vec3>, counts: seq<int>, v: int)
    requires |counts| == |sums| && forall u :: 0 <= u < |counts| ==> counts[u] != 0
    requires 0 <= v < |sums|
    ensures Scale(Averaged(sums, counts)[v], counts[v] as real) == sums[v]
  {
  }

  /** For a vertex on fewer than 256 corners the intended averaged normal,
      scaled back by the number of corners, is the sum of the incident face
      normals. */
  lemma AverageOfIncident(verts: seq<Vec3>, faces: seq<seq<int>>, v: int)
    requires ValidFaces(faces, |verts|) && CountsNonzero(faces, |verts|) && 0 <= v < |verts|
    requires CornerCount(faces, v) < 256
    ensures CornerCount(faces, v) > 0
    ensures Scale(Averaged(Accumulate(verts, faces), WrappedCounts(faces, |verts|))[v], CornerCount(faces, v) as real)
         == IncidentSum(verts, faces, v)
  {
    AccumulateIsIncidentSum(verts, faces, v);
    AveragedScalesBack(Accumulate(verts, faces), WrappedCounts(faces, |verts|), v);
  }

  /** What init_gl_verts stores as written: the normal of vertex i is the
      sum of the normals of the faces around it, divided component by
      component by row i of the resized counts, whose entry j ResizeEntry
      shows to be the `uint8` count of vertex (3i + j) mod N. */
  lemma MeshNormsOfIncident(verts: seq<Vec3>, faces: seq<seq<int>>, i: int)
    requires ValidFaces(faces, |verts|) && CountsNonzero(faces, |verts|) && 0 <= i < |verts|
    ensures var d := Resize(WrappedCounts(faces, |verts|), |verts|)[i];
      |d| == 3 && d[0] != 0 && d[1] != 0 && d[2] != 0 && MeshNorms(verts, faces)[i] == Vec3(IncidentSum(verts, faces, i).x / d[0] as real,
        IncidentSum(verts, faces, i).y / d[1] as real, IncidentSum(verts, faces, i).z / d[2] as real)
  {
    var sums, c := Accumulate(verts, faces), WrappedCounts(faces, |verts|);
    AccumulateIsIncidentSum(verts, faces, i);
    ResizeNonzero(c);
  }

  /** Two faces that share the edge 0-1: vertices 0 and 1 are on two
      corners each, vertices 2 and 3 on one. */
  const EdgeVerts: seq<Vec3> := [Vec3(0.0, 0.0, 0.0), Vec3(1.0, 0.0, 0.0), Vec3(0.0, 1.0, 0.0), Vec3(0.0, 0.0, 1.0)]
  const EdgeFaces: seq<seq<int>> := [[0, 1, 3], [0, 1, 2]]

  /** The corners of one triangle at v, counted one by one. */
  lemma OccurrencesOfTriangle(tri: seq<int>, v: int)
    requires |tri| == 3
    ensures Occurrences(tri, v, 3) ==
      (if tri[0] == v then 1 else 0) + (if tri[1] == v then 1 else 0) + (if tri[2] == v then 1 else 0)
  {
    assert Occurrences(tri, v, 1) == (if tri[0] == v then 1 else 0);
    assert Occurrences(tri, v, 2) == Occurrences(tri, v, 1) + (if tri[1] == v then 1 else 0);
  }

  lemma EdgeCounts()
    ensures ValidFaces(EdgeFaces, 4) && WrappedCounts(EdgeFaces, 4) == [2, 2, 1, 1]
  {
    var first := EdgeFaces[..1];
    assert first == [EdgeFaces[0]] && first[..0] == [];
    forall v | 0 <= v < 4
      ensures CornerCount(EdgeFaces, v) == [2, 2, 1, 1][v]
    {
      OccurrencesOfTriangle(EdgeFaces[0], v);
      OccurrencesOfTriangle(EdgeFaces[1], v);
      assert CornerCount(first, v) == CornerCount(first[..0], v) + Occurrences(EdgeFaces[0], v, 3);
      assert CornerCount(EdgeFaces, v) == CornerCount(first, v) + Occurrences(EdgeFaces[1], v, 3);
    }
  }

  /** A triangle with exactly one corner at v adds its normal once. */
  lemma ContributionOnce(tri: seq<int>, v: int, fn: Vec3)
    requires |tri| == 3 && tri[0] == v && tri[1] != v && tri[2] != v
    ensures Contribution(tri, v, fn, 3) == fn
  {
    assert Contribution(tri, v, fn, 1) == Add(Zero, fn) == fn;
    assert Contribution(tri, v, fn, 2) == Add(fn, Zero) == fn;
    assert Contribution(tri, v, fn, 3) == Add(fn, Zero);
  }

  lemma EdgeNorms()
    ensures ValidFaces(EdgeFaces, 4)
    ensures TriNorm(EdgeVerts, EdgeFaces[0]) == Vec3(0.0, -1.0, 0.0)
    ensures TriNorm(EdgeVerts, EdgeFaces[1]) == Vec3(0.0, 0.0, 1.0)
  {
    var f1, f2 := EdgeFaces[0], EdgeFaces[1];
    assert EdgeVerts[f1[0]] == Vec3(0.0, 0.0, 0.0) && EdgeVerts[f1[1]] == Vec3(1.0, 0.0, 0.0);
    assert EdgeVerts[f1[2]] == Vec3(0.0, 0.0, 1.0) && EdgeVerts[f2[2]] == Vec3(0.0, 1.0, 0.0);
  }

  /** The incident sum over two faces, unfolded. */
  lemma IncidentSumOfTwo(verts: seq<Vec3>, faces: seq<seq<int>>, v: int)
    requires ValidFaces(faces, |verts|) && |faces| == 2
    ensures IncidentSum(verts, faces, v) ==
      Add(Add(Zero, Contribution(faces[0], v, TriNorm(verts, faces[0]), 3)),
          Contribution(faces[1], v, TriNorm(verts, faces[1]), 3))
  {
    var first := faces[..1];
    assert first == [faces[0]] && first[..0] == [];
    assert IncidentSum(verts, first, v) ==
      Add(IncidentSum(verts, first[..0], v), Contribution(faces[0], v, TriNorm(verts, faces[0]), 3));
  }

  lemma EdgeIncident()
    ensures ValidFaces(EdgeFaces, 4) && IncidentSum(EdgeVerts, EdgeFaces, 0) == Vec3(0.0, -1.0, 1.0)
  {
    EdgeNorms();
    var n1, n2 := TriNorm(EdgeVerts, EdgeFaces[0]), TriNorm(EdgeVerts, EdgeFaces[1]);
    ContributionOnce(EdgeFaces[0], 0, n1);
    ContributionOnce(EdgeFaces[1], 0, n2);
    IncidentSumOfTwo(EdgeVerts, EdgeFaces, 0);
  }

  lemma EdgeSum()
    ensures ValidFaces(EdgeFaces, 4) && Accumulate(EdgeVerts, EdgeFaces)[0] == Vec3(0.0, -1.0, 1.0)
  {
    EdgeIncident();
    AccumulateIsIncidentSum(EdgeVerts, EdgeFaces, 0);
  }

  /** On that mesh the stored normal of vertex 0 has its z component divided
      by the count of vertex 2, which is 1, and not by its own count 2, as
      the per-vertex average does. */
  lemma ResizeMisdivides()
    ensures ValidFaces(EdgeFaces, 4) && CountsNonzero(EdgeFaces, 4)
    ensures MeshNorms(EdgeVerts, EdgeFaces)[0] == Vec3(0.0, -0.5, 1.0)
    ensures Averaged(Accumulate(EdgeVerts, EdgeFaces), WrappedCounts(EdgeFaces, 4))[0] == Vec3(0.0, -0.5, 0.5)
  {
    EdgeCounts();
    EdgeSum();
    var counts := WrappedCounts(EdgeFaces, 4);
    ResizeEntry(counts, 4, 0, 0);
    ResizeEntry(counts, 4, 0, 1);
    ResizeEntry(counts, 4, 0, 2);
  }

  lemma OccurrencesStep(tri: seq<int>, u: int, c: nat)
    requires c < |tri|
    ensures Occurrences(tri, u, c + 1) == Occurrences(tri, u, c) + (if tri[c] == u then 1 else 0)
  {
  }

  /** The loop of extract_norms_and_indices: the normal sums, the uint8
      corner counts and the index list. */
  method SumsAndCounts(verts: seq<Vec3>, faces: seq<seq<int>>) returns (norms: array<Vec3>, counts: array<int>, indices: seq<int>)
    requires ValidFaces(faces, |verts|)
    ensures fresh(norms) && fresh(counts)
    ensures norms[..] == Accumulate(verts, faces) && counts[..] == WrappedCounts(faces, |verts|)
    ensures indices == Flatten(faces)
  {
    var n := |verts|;
    norms := new Vec3[n](i => Zero);
    counts := new int[n](i => 0);
    indices := [];
    for k := 0 to |faces|
      invariant norms[..] == Accumulate(verts, faces[..k]) && indices == Flatten(faces[..k])
      invariant counts[..] == WrappedCounts(faces[..k], n)
    {
      var tri := faces[k];
      ghost var before := counts[..];
      AddFace(norms, counts, tri, TriNorm(verts, tri));
      WrappedCountsNext(faces, k, n, before, counts[..]);
      indices := indices + tri;
      assert faces[..k + 1][..k] == faces[..k];
    }
    assert faces[..|faces|] == faces;
  }

  /** The inner loop over the corners of one face: the face normal added to
      each corner's sum and one more counted for it. */
  method AddFace(norms: array<Vec3>, counts: array<int>, tri: seq<int>, fn: Vec3)
    requires norms.Length == counts.Length && |tri| == 3 && forall c :: 0 <= c < 3 ==> 0 <= tri[c] < norms.Length
    requires forall u :: 0 <= u < counts.Length ==> 0 <= counts[u] < 256
    modifies norms, counts
    ensures norms[..] == AddCorners(old(norms[..]), tri, fn, 3)
    ensures forall u :: 0 <= u < counts.Length ==> counts[u] == Uint8(old(counts[u]) + Occurrences(tri, u, 3))
  {
    ghost var base := counts[..];
    AddFaceNorm(norms, tri, fn);
    for c := 0 to 3
      modifies counts
      invariant forall u :: 0 <= u < counts.Length ==> counts[u] == Uint8(base[u] + Occurrences(tri, u, c))
    {
      var vid := tri[c];
      forall u | 0 <= u < counts.Length
        ensures (if vid == u then Uint8(counts[u] + 1) else counts[u]) == Uint8(base[u] + Occurrences(tri, u, c + 1))
      {
        CountStep(counts[u], base[u], tri, c, u);
      }
      counts[vid] := Uint8(counts[vid] + 1);
    }
  }

  /** One corner at tri[c] moves the uint8 count of that vertex on by one
      and leaves the others. */
  lemma CountStep(count: int, base: int, tri: seq<int>, c: nat, u: int)
    requires c < |tri| && count == Uint8(base + Occurrences(tri, u, c))
    ensures (if tri[c] == u then Uint8(count + 1) else count) == Uint8(base + Occurrences(tri, u, c + 1))
  {
    if tri[c] == u {
      ModStep(base + Occurrences(tri, u, c), 256);
    }
  }

  /** Adding the counts of one more face to the uint8 counts of the faces
      before it gives the uint8 counts of both. */
  lemma WrappedCountsNext(faces: seq<seq<int>>, k: nat, n: nat, before: seq<int>, after: seq<int>)
    requires k < |faces| && forall i :: 0 <= i < |faces| ==> |faces[i]| == 3
    requires before == WrappedCounts(faces[..k], n) && |after| == n
    requires forall u :: 0 <= u < n ==> after[u] == Uint8(before[u] + Occurrences(faces[k], u, 3))
    ensures after == WrappedCounts(faces[..k + 1], n)
  {
    assert faces[..k + 1][..k] == faces[..k];
    forall u | 0 <= u < n
      ensures after[u] == Uint8(CornerCount(faces[..k + 1], u))
    {
      ModAdd(CornerCount(faces[..k], u), Occurrences(faces[k], u, 3), 256);
    }
  }

  /** The vertex normals init_gl_verts stores: the incident sums divided by
      the resized uint8 corner counts. */
  function MeshNorms(verts: seq<Vec3>, faces: seq<seq<int>>): (r: seq<Vec3>)
    requires ValidFaces(faces, |verts|) && CountsNonzero(faces, |verts|)
    ensures |r| == |verts|
  {
    ResizedAveraged(Accumulate(verts, faces), WrappedCounts(faces, |verts|))
  }

  /** extract_norms_and_indices with the uint8 counts: the sums and counts
      loop, then the division by the resized counts. */
  method ExtractAveragedNorms(verts: seq<Vec3>, faces: seq<seq<int>>) returns (norms: array<Vec3>, indices: seq<int>)
    requires ValidFaces(faces, |verts|) && CountsNonzero(faces, |verts|)
    ensures fresh(norms)
    ensures norms[..] == MeshNorms(verts, faces)
    ensures indices == Flatten(faces)
  {
    var counts;
    norms, counts, indices := SumsAndCounts(verts, faces);
    ghost var sums := norms[..];
    var divisor := Resize(counts[..], counts.Length);
    ResizeNonzero(counts[..]);
    DivideInPlace(norms, divisor);
  }

  /** verts_formatted as init_gl_verts leaves it: one row per vertex, its
      position, its normal from MeshNorms and two zeros. */
  ghost predicate FormattedMesh(vf: array2<real>, verts: seq<Vec3>, faces: seq<seq<int>>)
    reads vf
  {
    ValidFaces(faces, |verts|) && CountsNonzero(faces, |verts|) &&
    vf.Length0 == |verts| && vf.Length1 == 8 && Rows(vf) == FormatRows(verts, MeshNorms(verts, faces))
  }

  /** The three buffers init_gl_verts builds, before they are stored. */
  method AveragedBuffers(verts: seq<Vec3>, faces: seq<seq<int>>) returns (vf: array2<real>, idx: seq<int>, gl: seq<real>)
    requires ValidFaces(faces, |verts|) && CountsNonzero(faces, |verts|)
    ensures fresh(vf) && FormattedMesh(vf, verts, faces)
    ensures idx == Flatten(faces) && gl == FlattenRows(Rows(vf))
  {
    var norms;
    norms, idx := ExtractAveragedNorms(verts, faces);
    vf := FormatArray(verts, norms[..]);
    gl := FlattenArray(vf);
  }

  class MeshData {
    var vertices: seq<Vec3>
    var faces: seq<seq<int>>
    var indices: seq<int>
    var glVerts: seq<real>
    /** verts_formatted, which exists only once init_gl_verts has run. */
    var vertsFormatted: Option<array2<real>>

    constructor (vs: seq<Vec3>, fs: seq<seq<int>>)
      ensures vertices == vs && faces == fs && indices == [] && glVerts == [] && vertsFormatted == None
    {
      vertices, faces, indices, glVerts, vertsFormatted := vs, fs, [], [], None;
    }

    /** init_gl_verts: the normals divided by the resized counts and the
        indices from the faces, one formatted row per vertex, and the
        flattened buffer. */
    method InitGlVerts()
      requires ValidFaces(faces, |vertices|) && CountsNonzero(faces, |vertices|)
      modifies this
      ensures vertices == old(vertices) && faces == old(faces)
      ensures vertsFormatted.Some? && fresh(vertsFormatted.value)
      ensures FormattedMesh(vertsFormatted.value, vertices, faces)
      ensures indices == Flatten(faces) && glVerts == FlattenRows(Rows(vertsFormatted.value))
    {
      var vf, idx, gl := AveragedBuffers(vertices, faces);
      indices, vertsFormatted, glVerts := idx, Some(vf), gl;
    }

    /** update_verts: nothing before init_gl_verts; otherwise the first three
        columns of every row take the new positions and the buffer is
        flattened again. */
    method UpdateVerts(newVerts: seq<Vec3>)
      requires vertsFormatted.Some? ==> vertsFormatted.value.Length1 == 8 && |newVerts| >= vertsFormatted.value.Length0
      modifies this, if vertsFormatted.Some? then {vertsFormatted.value} else {}
      ensures vertsFormatted == old(vertsFormatted) && vertices == old(vertices) && faces == old(faces) && indices == old(indices)
      ensures old(vertsFormatted).None? ==> glVerts == old(glVerts)
      ensures vertsFormatted.Some? ==>
        Rows(vertsFormatted.value) == UpdatedRows(old(Rows(vertsFormatted.value)), newVerts) &&
        glVerts == FlattenRows(Rows(vertsFormatted.value))
    {
      if vertsFormatted.None? {
        return;
      }
      var vf := vertsFormatted.value;
      SetPositions(vf, newVerts);
      glVerts := FlattenArray(vf);
    }
  }

  // ---------------------------------------------------------------------------
  // Skeleton lines
  // ---------------------------------------------------------------------------

  /** The parent of each of the 24 SMPL joints; the root has none (-1). */
  const SmplParents: seq<int> := [-1, 0, 0, 0, 1, 2, 3, 4, 5, 6, 7, 8, 9, 9, 9, 12, 13, 14, 16, 17, 18, 19, 20, 21]

  /** The line indices: [parent, joint] for every joint that has a parent. */
  function SkeletonPairs(parents: seq<int>): seq<int>
  {
    if parents == [] then []
    else
      var j := |parents| - 1;
      SkeletonPairs(parents[..j]) + (if parents[j] < 0 then [] else [parents[j], j])
  }

  /** The loop of create_smpl_kpnts that builds the line indices. */
  method SkeletonIndices(parents: seq<int>) returns (indices: seq<int>)
    ensures indices == SkeletonPairs(parents)
  {
    indices := [];
    for j := 0 to |parents|
      invariant indices == SkeletonPairs(parents[..j])
    {
      assert parents[..j + 1][..j] == parents[..j];
      if parents[j] < 0 {
        continue;
      }
      indices := indices + [parents[j], j];
    }
    assert parents[..|parents|] == parents;
  }

  /** A parent list whose only root is joint 0 and where every other joint
      hangs from an earlier one. */
  predicate RootedTree(parents: seq<int>)
  {
    |parents| > 0 && parents[0] < 0 && forall j :: 0 < j < |parents| ==> 0 <= parents[j] < j
  }

  /** For such a tree there is one line per non-root joint, line k joining
      joint k + 1 to its parent, so every index names a joint. */
  lemma {:induction false} SkeletonPairsSpec(parents: seq<int>)
    requires RootedTree(parents)
    ensures |SkeletonPairs(parents)| == 2 * (|parents| - 1)
    ensures forall k :: 0 <= k < |parents| - 1 ==>
      SkeletonPairs(parents)[2 * k] == parents[k + 1] && SkeletonPairs(parents)[2 * k + 1] == k + 1
    ensures forall i :: 0 <= i < |SkeletonPairs(parents)| ==> 0 <= SkeletonPairs(parents)[i] < |parents|
  {
    var j := |parents| - 1;
    if j > 0 {
      var init := parents[..j];
      assert RootedTree(init);
      SkeletonPairsSpec(init);
      assert SkeletonPairs(parents) == SkeletonPairs(init) + [parents[j], j];
    } else {
      assert SkeletonPairs(parents) == SkeletonPairs([]) + [];
    }
  }

  /** The SMPL skeleton has 23 lines, 46 indices. */
  lemma SmplSkeleton()
    ensures RootedTree(SmplParents)
    ensures |SkeletonPairs(SmplParents)| == 46
  {
    SkeletonPairsSpec(SmplParents);
  }

  // ---------------------------------------------------------------------------
  // Drawing modes
  // ---------------------------------------------------------------------------

  const MeshModes: seq<string> := ["points", "line_strip", "line_loop", "lines", "triangles", "triangle_strip", "triangle_fan"]

  predicate Distinct(modes: seq<string>)
  {
    forall i, j :: 0 <= i < j < |modes| ==> modes[i] != modes[j]
  }

  lemma ModesDistinct()
    ensures Distinct(MeshModes)
  {
  }

  /** The mode after `mode` in the cycle `modes`: ValueError when `mode` is
      not one of them (tuple.index), otherwise the next one, wrapping round. */
  function NextMode(modes: seq<string>, mode: string): (r: Result<string>)
    requires modes != []
    ensures r.Ok? <==> mode in modes
    ensures r.Ok? ==> r.value in modes
  {
    match IndexOf(modes, mode)
    case None => Err(ValueError)
    case Some(i) => Ok(modes[PyMod(i + 1, |modes|)])
  }

  /** The mode after k changes. */
  function ModeAfter(modes: seq<string>, mode: string, k: nat): Result<string>
    requires modes != []
  {
    if k == 0 then Ok(mode)
    else
      match ModeAfter(modes, mode, k - 1)
      case Err(e) => Err(e)
      case Ok(m) => NextMode(modes, m)
  }

  lemma NextModeAt(modes: seq<string>, j: int)
    requires Distinct(modes) && 0 <= j < |modes|
    ensures NextMode(modes, modes[j]) == Ok(modes[PyMod(j + 1, |modes|)])
  {
    var r := IndexOf(modes, modes[j]).value;
    assert modes[r] == modes[j];
  }

  lemma ModeAfterStep(modes: seq<string>, mode: string, k: nat)
    requires modes != [] && k > 0 && ModeAfter(modes, mode, k - 1).Ok?
    ensures ModeAfter(modes, mode, k) == NextMode(modes, ModeAfter(modes, mode, k - 1).value)
  {
  }

  lemma {:induction false} ModeAfterAdvance(modes: seq<string>, i: int, k: nat)
    requires Distinct(modes) && 0 <= i < |modes|
    ensures ModeAfter(modes, modes[i], k) == Ok(modes[Advance(i, |modes|, k)])
  {
    if k == 0 {
      assert Advance(i, |modes|, 0) == i;
    } else {
      ModeAfterAdvance(modes, i, k - 1);
      var j := Advance(i, |modes|, k - 1);
      NextModeAt(modes, j);
      ModeAfterStep(modes, modes[i], k);
      assert Advance(i, |modes|, k) == PyMod(j + 1, |modes|);
    }
  }

  /** After k changes from mode i the renderer draws mode (i + k) mod n, so
      n changes bring it back where it started; for the seven mesh modes that
      holds from each of them. */
  lemma ModeAfterSpec(modes: seq<string>, i: int, k: nat)
    requires Distinct(modes) && 0 <= i < |modes|
    ensures ModeAfter(modes, modes[i], k) == Ok(modes[PyMod(i + k, |modes|)])
    ensures ModeAfter(modes, modes[i], |modes|) == Ok(modes[i])
  {
    ModeAfterAdvance(modes, i, k);
    AdvanceIsMod(i, |modes|, k);
    ModeAfterAdvance(modes, i, |modes|);
    AdvanceIsMod(i, |modes|, |modes|);
  }

  lemma MeshModeCycle(mode: string)
    requires mode in MeshModes
    ensures ModeAfter(MeshModes, mode, |MeshModes|) == Ok(mode)
  {
    ModesDistinct();
    var i :| 0 <= i < |MeshModes| && MeshModes[i] == mode;
    ModeAfterSpec(MeshModes, i, 0);
  }

  /** The part of the Renderer widget that change_mesh_mode touches. */
  class Renderer {
    var currMode: string
    /** The mode of the mesh being drawn; None while there is no mesh. */
    var meshMode: Option<string>

    constructor ()
      ensures currMode == "triangles" && meshMode == None
    {
      currMode, meshMode := "triangles", None;
    }

    method ChangeMeshMode() returns (r: Outcome)
      modifies this
      ensures NextMode(MeshModes, old(currMode)).Err? ==>
        r == Raised(ValueError) && currMode == old(currMode) && meshMode == old(meshMode)
      ensures NextMode(MeshModes, old(currMode)).Ok? ==>
        r == Done && currMode == NextMode(MeshModes, old(currMode)).value &&
        meshMode == (if old(meshMode).Some? then Some(currMode) else None)
    {
      var i := IndexOf(MeshModes, currMode);
      if i.None? {
        return Raised(ValueError);
      }
      currMode := MeshModes[(i.value + 1) % |MeshModes|];
      if meshMode.Some? {
        meshMode := Some(currMode);
      }
      r := Done;
    }
  }
}
