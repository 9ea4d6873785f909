/** The Wavefront OBJ loader of the exercise player
    (widgets/exercisor/play/mesh_utils.py, class ObjFile). The file is read
    line by line: vertex, normal and texture records accumulate over the whole
    file, 'f' records collect the faces of the current object, and an 'o' line
    or the end of the file turns those faces into a flat buffer of eight
    values per corner with one index per corner. The file arrives as its list
    of lines; Python's float() and int() are parameters. */
module ObjLoader {
  import opened Common
  import opened PyStrings

  /** One 'f' record: per corner the 1-based vertex, normal and texture
      references, -1 where a reference is absent. */
  datatype Face = Face(verts: seq<int>, norms: seq<int>, texcoords: seq<int>)

  /** The MeshData an object becomes: its faces as 0-based vertex indices,
      the interleaved buffer, the index list, and `verts_raw`, which is the
      loader's own vertex list rather than a copy of it. */
  datatype ObjMesh = ObjMesh(faces: seq<seq<int>>, vertices: seq<real>, indices: seq<int>,
                             vertsRaw: seq<seq<real>>)

  /** The loader's state: the finished objects, every record read so far,
      the faces of the current object and its name. */
  datatype Parser = Parser(objects: map<string, ObjMesh>, vertices: seq<seq<real>>,
                           normals: seq<seq<real>>, texcoords: seq<seq<real>>,
                           faces: seq<Face>, current: Option<string>)

  const Start: Parser := Parser(map[], [], [], [], [], None)

  // ---------------------------------------------------------------------------
  // Face records
  // ---------------------------------------------------------------------------

  /** The references of one face corner. */
  datatype Corner = Corner(v: int, t: int, n: int)

  /** `int(field)`. */
  function ParseRef(field: string, parseInt: string -> Option<int>): (r: Result<int>)
    ensures r.Ok? <==> parseInt(field).Some?
    ensures r.Ok? ==> r.value == parseInt(field).value
  {
    match parseInt(field)
    case None => Err(ValueError)
    case Some(k) => Ok(k)
  }

  /** A texture or normal field: -1 when the token has no such field or it
      is empty, its integer otherwise. */
  function OptionalRef(w: seq<string>, i: nat, parseInt: string -> Option<int>): Result<int>
  {
    if |w| > i && |w[i]| > 0 then ParseRef(w[i], parseInt) else Ok(-1)
  }

  /** One corner token `v`, `v/t`, `v//n` or `v/t/n`, split on '/'. */
  function ParseCorner(token: string, parseInt: string -> Option<int>): Result<Corner>
  {
    var w := SplitOn(token, '/');
    var v :- ParseRef(w[0], parseInt);
    var t :- OptionalRef(w, 1, parseInt);
    var n :- OptionalRef(w, 2, parseInt);
    Ok(Corner(v, t, n))
  }

  /** The corners of an 'f' record, in order. */
  function ParseFace(tokens: seq<string>, parseInt: string -> Option<int>): (r: Result<Face>)
    ensures r.Ok? ==> |r.value.verts| == |r.value.norms| == |r.value.texcoords| == |tokens|
  {
    if tokens == [] then Ok(Face([], [], []))
    else
      var f :- ParseFace(tokens[..|tokens| - 1], parseInt);
      var c :- ParseCorner(tokens[|tokens| - 1], parseInt);
      Ok(Face(f.verts + [c.v], f.norms + [c.n], f.texcoords + [c.t]))
  }

  /** A corner written as `v/t/n`, `v//n`, `v/t` or `v` with references
      printed by `show` (non-empty, no '/', read back by the integer parser)
      is read back with -1 for what was left out. */
  lemma CornerRoundTrip(show: int -> string, parseInt: string -> Option<int>, v: int, t: int, n: int)
    requires forall k :: show(k) != [] && '/' !in show(k) && parseInt(show(k)) == Some(k)
    ensures ParseCorner(show(v) + "/" + show(t) + "/" + show(n), parseInt) == Ok(Corner(v, t, n))
    ensures ParseCorner(show(v) + "//" + show(n), parseInt) == Ok(Corner(v, -1, n))
    ensures ParseCorner(show(v) + "/" + show(t), parseInt) == Ok(Corner(v, t, -1))
    ensures ParseCorner(show(v), parseInt) == Ok(Corner(v, -1, -1))
  {
    var a, b, c := show(v), show(t), show(n);
    JoinSplit([a, b, c], '/');
    assert JoinOn([a, b, c], '/') == a + "/" + b + "/" + c by {
      assert [a, b, c][1..] == [b, c];
      assert [b, c][1..] == [c];
      assert JoinOn([b, c], '/') == b + "/" + c;
    }
    JoinSplit([a, "", c], '/');
    assert JoinOn([a, "", c], '/') == a + "//" + c by {
      assert [a, "", c][1..] == ["", c];
      assert ["", c][1..] == [c];
      assert JoinOn(["", c], '/') == "/" + c;
    }
    JoinSplit([a, b], '/');
    assert JoinOn([a, b], '/') == a + "/" + b by {
      assert [a, b][1..] == [b];
    }
    SplitPlain(a, '/');
  }

  // ---------------------------------------------------------------------------
  // Vertex, normal and texture records
  // ---------------------------------------------------------------------------

  /** `list(map(float, ws))`. */
  function ParseFloats(ws: seq<string>, parseFloat: string -> Option<real>): (r: Result<seq<real>>)
    ensures r.Ok? <==> forall i :: 0 <= i < |ws| ==> parseFloat(ws[i]).Some?
    ensures r.Ok? ==> |r.value| == |ws| && forall i :: 0 <= i < |ws| ==> r.value[i] == parseFloat(ws[i]).value
    ensures r.Err? ==> r.error == ValueError
  {
    if ws == [] then Ok([])
    else
      var head :- ParseRecordField(ws[0], parseFloat);
      var tail :- ParseFloats(ws[1..], parseFloat);
      Ok([head] + tail)
  }

  function ParseRecordField(w: string, parseFloat: string -> Option<real>): Result<real>
  {
    match parseFloat(w)
    case None => Err(ValueError)
    case Some(x) => Ok(x)
  }

  /** Python's `values[lo:hi]`, which clamps both ends to the list. */
  function Slice(values: seq<string>, lo: nat, hi: nat): seq<string>
    requires lo <= hi
  {
    var a := if lo < |values| then lo else |values|;
    var b := if hi < |values| then hi else |values|;
    values[a..b]
  }

  /** The floats of a 'v' or 'vn' record, with y and z swapped when asked. */
  function PointRecord(values: seq<string>, swapyz: bool, parseFloat: string -> Option<real>): Result<seq<real>>
  {
    var v :- ParseFloats(Slice(values, 1, 4), parseFloat);
    if !swapyz then Ok(v)
    else if |v| < 3 then Err(IndexError)
    else Ok([v[0], v[2], v[1]])
  }

  // ---------------------------------------------------------------------------
  // finish_object
  // ---------------------------------------------------------------------------

  /** The eight values of corner i of a face: position, normal (zero when
      absent) and texture coordinate (zero when absent), looked up with
      Python's indexing, so a reference of 0 or below counts from the end. */
  function CornerData(p: Parser, f: Face, i: nat): Result<seq<real>>
  {
    var ni :- PyIndex(f.norms, i);
    var n :- if ni != -1 then PyIndex(p.normals, ni - 1) else Ok([0.0, 0.0, 0.0]);
    var ti :- PyIndex(f.texcoords, i);
    var t :- if ti != -1 then PyIndex(p.texcoords, ti - 1) else Ok([0.0, 0.0]);
    var vi :- PyIndex(f.verts, i);
    var v :- PyIndex(p.vertices, vi - 1);
    if |v| < 3 || |n| < 3 || |t| < 2 then Err(IndexError)
    else Ok([v[0], v[1], v[2], n[0], n[1], n[2], t[0], t[1]])
  }

  /** The data of the first m corners of a face. */
  function CornersData(p: Parser, f: Face, m: nat): Result<seq<real>>
  {
    if m == 0 then Ok([])
    else
      var a :- CornersData(p, f, m - 1);
      var b :- CornerData(p, f, m - 1);
      Ok(a + b)
  }

  /** The data of a list of faces, three corners each; a fourth corner and
      beyond are ignored. */
  function FacesData(p: Parser, fs: seq<Face>): Result<seq<real>>
  {
    if fs == [] then Ok([])
    else
      var a :- FacesData(p, fs[..|fs| - 1]);
      var b :- CornersData(p, fs[|fs| - 1], 3);
      Ok(a + b)
  }

  /** [0, 1, ..., n - 1]. */
  function Iota(n: nat): (r: seq<int>)
    ensures |r| == n && forall i :: 0 <= i < n ==> r[i] == i
  {
    seq(n, i => i)
  }

  /** `[[f - 1 for f in fc[0]] for fc in faces]`. */
  function ZeroBased(fs: seq<Face>): (r: seq<seq<int>>)
    ensures |r| == |fs|
  {
    seq(|fs|, i requires 0 <= i < |fs| => seq(|fs[i].verts|, j requires 0 <= j < |fs[i].verts| => fs[i].verts[j] - 1))
  }

  /** The mesh of the current object. */
  function MeshOf(p: Parser): Result<ObjMesh>
  {
    var data :- FacesData(p, p.faces);
    Ok(ObjMesh(ZeroBased(p.faces), data, Iota(3 * |p.faces|), p.vertices))
  }

  /** finish_object: nothing without a current object; otherwise its mesh is
      stored under its name and the face list starts afresh. */
  function Finish(p: Parser): Result<Parser>
  {
    if p.current.None? then Ok(p)
    else
      var mesh :- MeshOf(p);
      Ok(p.(objects := p.objects[p.current.value := mesh], faces := []))
  }

  lemma {:induction false} CornersDataLength(p: Parser, f: Face, m: nat)
    ensures CornersData(p, f, m).Ok? ==> |CornersData(p, f, m).value| == 8 * m
  {
    if m > 0 {
      CornersDataLength(p, f, m - 1);
    }
  }

  lemma {:induction false} FacesDataLength(p: Parser, fs: seq<Face>)
    ensures FacesData(p, fs).Ok? ==> |FacesData(p, fs).value| == 24 * |fs|
  {
    if fs != [] {
      FacesDataLength(p, fs[..|fs| - 1]);
      CornersDataLength(p, fs[|fs| - 1], 3);
    }
  }

  /** A finished object holds 24 values and 3 indices per face, the indices
      running 0, 1, 2, ... in order, and its faces as 0-based vertex indices;
      the face list is emptied while the vertex, normal and texture records
      are kept for the objects that follow. */
  lemma FinishSpec(p: Parser)
    ensures Finish(p).Ok? && p.current.Some? ==>
      var q := Finish(p).value;
      var mesh := q.objects[p.current.value];
      q.objects.Keys == p.objects.Keys + {p.current.value} &&
      (forall k :: k in p.objects && k != p.current.value ==> q.objects[k] == p.objects[k]) &&
      |mesh.vertices| == 24 * |p.faces| && |mesh.indices| == 3 * |p.faces| &&
      (forall i :: 0 <= i < |mesh.indices| ==> mesh.indices[i] == i) &&
      |mesh.faces| == |p.faces| && mesh.vertsRaw == p.vertices &&
      (forall i, j :: 0 <= i < |p.faces| && 0 <= j < |p.faces[i].verts| ==> mesh.faces[i][j] == p.faces[i].verts[j] - 1) &&
      q.faces == [] && q.vertices == p.vertices && q.normals == p.normals && q.texcoords == p.texcoords &&
      q.current == p.current
    ensures p.current.None? ==> Finish(p) == Ok(p)
  {
    FacesDataLength(p, p.faces);
  }

  /** The layout of one corner: the position first, then the normal, zero
      when the corner has none, then the texture coordinate, zero when it has
      none. */
  lemma CornerLayout(p: Parser, f: Face, i: nat)
    requires CornerData(p, f, i).Ok?
    ensures var c := CornerData(p, f, i).value;
      var v := PyIndex(p.vertices, PyIndex(f.verts, i).value - 1).value;
      |c| == 8 && c[..3] == v[..3] &&
      (PyIndex(f.norms, i).value == -1 ==> c[3..6] == [0.0, 0.0, 0.0]) &&
      (PyIndex(f.texcoords, i).value == -1 ==> c[6..] == [0.0, 0.0])
  {
  }

  /** Faces whose references all resolve, to records wide enough, are turned
      into a mesh. */
  predicate ResolvableCorner(p: Parser, f: Face, i: nat)
  {
    i < |f.verts| && i < |f.norms| && i < |f.texcoords| &&
    1 <= f.verts[i] <= |p.vertices| && |p.vertices[f.verts[i] - 1]| >= 3 &&
    (f.norms[i] == -1 || (1 <= f.norms[i] <= |p.normals| && |p.normals[f.norms[i] - 1]| >= 3)) &&
    (f.texcoords[i] == -1 || (1 <= f.texcoords[i] <= |p.texcoords| && |p.texcoords[f.texcoords[i] - 1]| >= 2))
  }

  lemma ResolvableFace(p: Parser, f: Face)
    requires ResolvableCorner(p, f, 0) && ResolvableCorner(p, f, 1) && ResolvableCorner(p, f, 2)
    ensures CornersData(p, f, 3).Ok?
  {
    assert CornerData(p, f, 0).Ok?;
    assert CornersData(p, f, 1).Ok?;
    assert CornerData(p, f, 1).Ok?;
    assert CornersData(p, f, 2).Ok?;
    assert CornerData(p, f, 2).Ok?;
  }

  lemma {:induction false} ResolvableFaces(p: Parser, fs: seq<Face>)
    requires forall k, i :: 0 <= k < |fs| && 0 <= i < 3 ==> ResolvableCorner(p, fs[k], i)
    ensures FacesData(p, fs).Ok?
  {
    if fs != [] {
      ResolvableFaces(p, fs[..|fs| - 1]);
      var f := fs[|fs| - 1];
      assert ResolvableCorner(p, f, 0) && ResolvableCorner(p, f, 1) && ResolvableCorner(p, f, 2);
      ResolvableFace(p, f);
    }
  }

  // ---------------------------------------------------------------------------
  // The line loop
  // ---------------------------------------------------------------------------

  /** Lines starting with '#' or 's' are skipped before they are split. */
  predicate SkippedPrefix(line: string)
  {
    |line| > 0 && (line[0] == '#' || line[0] == 's')
  }

  /** An 'o' line: the current object is finished, then the new name taken. */
  function StartObject(p: Parser, values: seq<string>): Result<Parser>
  {
    var f :- Finish(p);
    if |values| < 2 then Err(IndexError) else Ok(f.(current := Some(values[1])))
  }

  /** Every finished mesh shares the loader's vertex list, so a vertex
      appended to the loader shows in each mesh's `verts_raw`. */
  function Realias(objects: map<string, ObjMesh>, vs: seq<seq<real>>): (r: map<string, ObjMesh>)
    ensures r.Keys == objects.Keys
    ensures forall k :: k in r ==> r[k] == objects[k].(vertsRaw := vs)
  {
    map k | k in objects :: objects[k].(vertsRaw := vs)
  }

  /** The aliasing of mesh_utils.py: every finished mesh's `verts_raw` is
      the loader's vertex list. */
  ghost predicate Aliased(p: Parser)
  {
    forall k :: k in p.objects ==> p.objects[k].vertsRaw == p.vertices
  }

  /** The record a 'v', 'vn', 'vt' or 'f' line adds; other keywords add
      nothing. */
  function AddRecord(q: Parser, values: seq<string>, swapyz: bool,
                     parseFloat: string -> Option<real>, parseInt: string -> Option<int>): Result<Parser>
    requires values != []
  {
    if values[0] == "v" then
      var v :- PointRecord(values, swapyz, parseFloat);
      Ok(q.(vertices := q.vertices + [v], objects := Realias(q.objects, q.vertices + [v])))
    else if values[0] == "vn" then
      var v :- PointRecord(values, swapyz, parseFloat);
      Ok(q.(normals := q.normals + [v]))
    else if values[0] == "vt" then
      var t :- ParseFloats(Slice(values, 1, 3), parseFloat);
      Ok(q.(texcoords := q.texcoords + [t]))
    else if values[0] == "f" then
      var f :- ParseFace(values[1..], parseInt);
      Ok(q.(faces := q.faces + [f]))
    else Ok(q)
  }

  /** One iteration of the loop in ObjFile.__init__. */
  function Line(p: Parser, line: string, swapyz: bool,
                parseFloat: string -> Option<real>, parseInt: string -> Option<int>): Result<Parser>
  {
    if SkippedPrefix(line) then Ok(p)
    else
      var values := Words(line);
      if values == [] then Ok(p)
      else
        var q :- if values[0] == "o" then StartObject(p, values) else Ok(p);
        AddRecord(q, values, swapyz, parseFloat, parseInt)
  }

  /** The loop over all lines, stopping at the first error. */
  function Lines(p: Parser, lines: seq<string>, swapyz: bool,
                 parseFloat: string -> Option<real>, parseInt: string -> Option<int>): Result<Parser>
  {
    if lines == [] then Ok(p)
    else
      var q :- Lines(p, lines[..|lines| - 1], swapyz, parseFloat, parseInt);
      Line(q, lines[|lines| - 1], swapyz, parseFloat, parseInt)
  }

  /** ObjFile(filename): all lines, then the last object is finished. */
  function Parse(lines: seq<string>, swapyz: bool,
                 parseFloat: string -> Option<real>, parseInt: string -> Option<int>): Result<Parser>
  {
    var p :- Lines(Start, lines, swapyz, parseFloat, parseInt);
    Finish(p)
  }

  /** Each line keeps every finished mesh's `verts_raw` equal to the
      loader's vertex list. */
  lemma LineKeepsAlias(p: Parser, line: string, swapyz: bool,
                       parseFloat: string -> Option<real>, parseInt: string -> Option<int>)
    requires Aliased(p)
    ensures Line(p, line, swapyz, parseFloat, parseInt).Ok? ==> Aliased(Line(p, line, swapyz, parseFloat, parseInt).value)
  {
  }

  /** After the whole file every mesh's `verts_raw` is the full vertex list
      of the file, including the vertices read after the mesh was finished;
      the mesh's own buffer was built from the vertices read before it. */
  lemma {:induction false} ParseAliased(lines: seq<string>, swapyz: bool,
                                        parseFloat: string -> Option<real>, parseInt: string -> Option<int>)
    ensures Lines(Start, lines, swapyz, parseFloat, parseInt).Ok? ==>
      Aliased(Lines(Start, lines, swapyz, parseFloat, parseInt).value)
    ensures Parse(lines, swapyz, parseFloat, parseInt).Ok? ==>
      Aliased(Parse(lines, swapyz, parseFloat, parseInt).value)
  {
    if lines != [] {
      ParseAliased(lines[..|lines| - 1], swapyz, parseFloat, parseInt);
      var q := Lines(Start, lines[..|lines| - 1], swapyz, parseFloat, parseInt);
      if q.Ok? {
        LineKeepsAlias(q.value, lines[|lines| - 1], swapyz, parseFloat, parseInt);
      }
    }
  }

  /** Comments, smoothing-group lines and blank lines change nothing. */
  lemma SkippedLines(p: Parser, line: string, swapyz: bool,
                     parseFloat: string -> Option<real>, parseInt: string -> Option<int>)
    requires SkippedPrefix(line) || forall i :: 0 <= i < |line| ==> IsSpace(line[i])
    ensures Line(p, line, swapyz, parseFloat, parseInt) == Ok(p)
  {
    if !SkippedPrefix(line) {
      BlankWords(line, []);
    }
  }

  lemma {:induction false} BlankWords(s: string, word: string)
    requires word == [] && forall i :: 0 <= i < |s| ==> IsSpace(s[i])
    ensures WordsFrom(s, word) == []
    decreases |s|
  {
    if s != [] {
      BlankWords(s[1..], []);
    }
  }

  /** The keyword of a line that is split. */
  predicate IsObjectLine(line: string)
  {
    !SkippedPrefix(line) && Words(line) != [] && Words(line)[0] == "o"
  }

  /** A file without an 'o' line yields no objects: without a current
      object finish_object does nothing. */
  lemma {:induction false} NoObjectLines(lines: seq<string>, swapyz: bool,
                                         parseFloat: string -> Option<real>, parseInt: string -> Option<int>)
    requires forall i :: 0 <= i < |lines| ==> !IsObjectLine(lines[i])
    ensures Lines(Start, lines, swapyz, parseFloat, parseInt).Ok? ==>
      Lines(Start, lines, swapyz, parseFloat, parseInt).value.current == None &&
      Lines(Start, lines, swapyz, parseFloat, parseInt).value.objects == map[]
    ensures Parse(lines, swapyz, parseFloat, parseInt).Ok? ==>
      Parse(lines, swapyz, parseFloat, parseInt).value.objects == map[]
  {
    if lines != [] {
      NoObjectLines(lines[..|lines| - 1], swapyz, parseFloat, parseInt);
    }
  }

  // ---------------------------------------------------------------------------
  // The loader object
  // ---------------------------------------------------------------------------

  /** The inner loop of finish_object: the data of a face's three
      corners, or the error of the first corner that cannot be looked up. */
  method FaceCorners(p: Parser, f: Face) returns (r: Result<seq<real>>)
    ensures r == CornersData(p, f, 3)
  {
    var corners: seq<real> := [];
    for i := 0 to 3
      invariant CornersData(p, f, i) == Ok(corners)
    {
      var c := CornerData(p, f, i);
      if c.Err? {
        CornersFail(p, f, i, 3);
        return Err(c.error);
      }
      corners := corners + c.value;
    }
    return Ok(corners);
  }

  /** The loop of finish_object over the faces: the corner data of every
      face, the zero-based faces and the running indices. */
  method BuildMesh(p: Parser) returns (r: Result<ObjMesh>)
    ensures r == MeshOf(p)
  {
    var data: seq<real> := [];
    var indices: seq<int> := [];
    var idx := 0;
    for k := 0 to |p.faces|
      invariant idx == 3 * k
      invariant FacesData(p, p.faces[..k]) == Ok(data)
      invariant indices == Iota(3 * k)
    {
      var corners := FaceCorners(p, p.faces[k]);
      if corners.Err? {
        FacesFail(p, p.faces, k);
        return Err(corners.error);
      }
      assert p.faces[..k + 1][..k] == p.faces[..k];
      data := data + corners.value;
      indices := indices + [idx, idx + 1, idx + 2];
      idx := idx + 3;
    }
    assert p.faces[..|p.faces|] == p.faces;
    return Ok(ObjMesh(ZeroBased(p.faces), data, indices, p.vertices));
  }

  class ObjFile {
    var objects: map<string, ObjMesh>
    var vertices: seq<seq<real>>
    var normals: seq<seq<real>>
    var texcoords: seq<seq<real>>
    var faces: seq<Face>
    var currentObject: Option<string>

    function State(): Parser
      reads this
    {
      Parser(objects, vertices, normals, texcoords, faces, currentObject)
    }

    constructor ()
      ensures State() == Start
    {
      objects, vertices, normals, texcoords, faces, currentObject := map[], [], [], [], [], None;
    }

    /** finish_object: the mesh of the current object is stored under its
        name and the face list starts afresh. */
    method FinishObject() returns (r: Outcome)
      modifies this
      ensures Finish(old(State())).Ok? ==> r == Done && State() == Finish(old(State())).value
      ensures Finish(old(State())).Err? ==> r == Raised(Finish(old(State())).error) && State() == old(State())
    {
      if currentObject.None? {
        return Done;
      }
      var mesh := BuildMesh(State());
      if mesh.Err? {
        return Raised(mesh.error);
      }
      objects, faces := objects[currentObject.value := mesh.value], [];
      r := Done;
    }

    /** One line of the loop in __init__. */
    method ParseLine(line: string, swapyz: bool,
                     parseFloat: string -> Option<real>, parseInt: string -> Option<int>) returns (r: Outcome)
      modifies this
      ensures Line(old(State()), line, swapyz, parseFloat, parseInt).Ok? ==>
        r == Done && State() == Line(old(State()), line, swapyz, parseFloat, parseInt).value
      ensures Line(old(State()), line, swapyz, parseFloat, parseInt).Err? ==>
        r == Raised(Line(old(State()), line, swapyz, parseFloat, parseInt).error)
    {
      if SkippedPrefix(line) {
        return Done;
      }
      var values := Words(line);
      if values == [] {
        return Done;
      }
      if values[0] == "o" {
        r := FinishObject();
        if r.Raised? {
          return;
        }
        if |values| < 2 {
          return Raised(IndexError);
        }
        currentObject := Some(values[1]);
      }
      if values[0] == "v" {
        var v := PointRecord(values, swapyz, parseFloat);
        if v.Err? {
          return Raised(v.error);
        }
        vertices := vertices + [v.value];
        objects := Realias(objects, vertices);
      } else if values[0] == "vn" {
        var v := PointRecord(values, swapyz, parseFloat);
        if v.Err? {
          return Raised(v.error);
        }
        normals := normals + [v.value];
      } else if values[0] == "vt" {
        var t := ParseFloats(Slice(values, 1, 3), parseFloat);
        if t.Err? {
          return Raised(t.error);
        }
        texcoords := texcoords + [t.value];
      } else if values[0] == "f" {
        var f := ParseFaceTokens(values[1..], parseInt);
        if f.Err? {
          return Raised(f.error);
        }
        faces := faces + [f.value];
      }
      r := Done;
    }
  }

  /** Any corner that cannot be read makes the whole object fail. */
  lemma {:induction false} CornersFail(p: Parser, f: Face, i: nat, m: nat)
    requires i < m && CornersData(p, f, i).Ok? && CornerData(p, f, i).Err?
    ensures CornersData(p, f, m) == Err(CornerData(p, f, i).error)
  {
    if m - 1 > i {
      CornersFail(p, f, i, m - 1);
    }
  }

  lemma {:induction false} FacesFail(p: Parser, fs: seq<Face>, k: nat)
    requires k < |fs| && FacesData(p, fs[..k]).Ok? && CornersData(p, fs[k], 3).Err?
    ensures FacesData(p, fs) == Err(CornersData(p, fs[k], 3).error)
    decreases |fs|
  {
    if k < |fs| - 1 {
      assert fs[..|fs| - 1][..k] == fs[..k];
      FacesFail(p, fs[..|fs| - 1], k);
    } else {
      assert fs[..|fs| - 1] == fs[..k];
    }
  }

  /** The token loop of an 'f' line. */
  method ParseFaceTokens(tokens: seq<string>, parseInt: string -> Option<int>) returns (r: Result<Face>)
    ensures r == ParseFace(tokens, parseInt)
  {
    var face, norms, tcs: seq<int> := [], [], [];
    var k := 0;
    while k < |tokens|
      invariant 0 <= k <= |tokens|
      invariant ParseFace(tokens[..k], parseInt) == Ok(Face(face, norms, tcs))
    {
      var c := ParseCorner(tokens[k], parseInt);
      assert tokens[..k + 1][..k] == tokens[..k];
      if c.Err? {
        ParseFaceFails(tokens, k, parseInt);
        return Err(c.error);
      }
      face, tcs, norms := face + [c.value.v], tcs + [c.value.t], norms + [c.value.n];
      k := k + 1;
    }
    assert tokens[..k] == tokens;
    r := Ok(Face(face, norms, tcs));
  }

  lemma {:induction false} ParseFaceFails(tokens: seq<string>, k: nat, parseInt: string -> Option<int>)
    requires k < |tokens| && ParseFace(tokens[..k], parseInt).Ok? && ParseCorner(tokens[k], parseInt).Err?
    ensures ParseFace(tokens, parseInt) == Err(ParseCorner(tokens[k], parseInt).error)
    decreases |tokens|
  {
    if k < |tokens| - 1 {
      assert tokens[..|tokens| - 1][..k] == tokens[..k];
      ParseFaceFails(tokens[..|tokens| - 1], k, parseInt);
    } else {
      assert tokens[..|tokens| - 1] == tokens[..k];
    }
  }

  /** ObjFile(filename): the loader built from every line of the file, or the
      exception the first bad line raises. */
  method Open(lines: seq<string>, swapyz: bool,
              parseFloat: string -> Option<real>, parseInt: string -> Option<int>) returns (r: Result<ObjFile>)
    ensures Parse(lines, swapyz, parseFloat, parseInt).Ok? <==> r.Ok?
    ensures r.Ok? ==> fresh(r.value) && r.value.State() == Parse(lines, swapyz, parseFloat, parseInt).value
    ensures r.Ok? ==> forall k :: k in r.value.objects ==> r.value.objects[k].vertsRaw == r.value.vertices
    ensures r.Err? ==> r.error == Parse(lines, swapyz, parseFloat, parseInt).error
  {
    var obj := new ObjFile();
    var k := 0;
    while k < |lines|
      invariant 0 <= k <= |lines|
      invariant Lines(Start, lines[..k], swapyz, parseFloat, parseInt) == Ok(obj.State())
      modifies obj
    {
      var out := obj.ParseLine(lines[k], swapyz, parseFloat, parseInt);
      assert lines[..k + 1][..k] == lines[..k];
      if out.Raised? {
        LinesFail(lines, k, swapyz, parseFloat, parseInt);
        return Err(out.error);
      }
      k := k + 1;
    }
    assert lines[..k] == lines;
    var out := obj.FinishObject();
    if out.Raised? {
      return Err(out.error);
    }
    ParseAliased(lines, swapyz, parseFloat, parseInt);
    r := Ok(obj);
  }

  lemma {:induction false} LinesFail(lines: seq<string>, k: nat, swapyz: bool,
                                     parseFloat: string -> Option<real>, parseInt: string -> Option<int>)
    requires k < |lines| && Lines(Start, lines[..k], swapyz, parseFloat, parseInt).Ok?
    requires Line(Lines(Start, lines[..k], swapyz, parseFloat, parseInt).value, lines[k], swapyz, parseFloat, parseInt).Err?
    ensures Lines(Start, lines, swapyz, parseFloat, parseInt) ==
      Err(Line(Lines(Start, lines[..k], swapyz, parseFloat, parseInt).value, lines[k], swapyz, parseFloat, parseInt).error)
    decreases |lines|
  {
    if k < |lines| - 1 {
      assert lines[..|lines| - 1][..k] == lines[..k];
      LinesFail(lines[..|lines| - 1], k, swapyz, parseFloat, parseInt);
    } else {
      assert lines[..|lines| - 1] == lines[..k];
    }
  }
}
