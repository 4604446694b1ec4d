/** The engine's simple Wavefront OBJ loader (Object::loadOBJData).

    A file is a sequence of lines, each already split on spaces into words.
    The loader reads `v`, `vt` and `vn` lines into temporary tables, records
    three 1-based (position, UV, normal) index triples for each `f` line, and
    finally resolves every recorded triple against the tables, appending the
    results to three output sequences.

    Number parsing is not modelled: a word carries the value std::stof reads
    from it and the values std::stoi reads from its '/'-separated fields, and
    a coordinate is an opaque value of type C. */
module ObjLoader {
  import opened Wrappers

  datatype Vec2<C> = Vec2(x: C, y: C)
  datatype Vec3<C> = Vec3(x: C, y: C, z: C)

  /** One word of a line: its text, the number std::stof reads from it, and
      the numbers std::stoi reads from its '/'-separated fields, one per
      field (so |fields| is the number of fields). */
  datatype Word<C> = Word(text: string, number: C, fields: seq<int>)

  type Line<C> = seq<Word<C>>

  /** The loader's output: positions, texture coordinates and normals. */
  datatype Mesh<C> = Mesh(positions: seq<Vec3<C>>, uvs: seq<Vec2<C>>, normals: seq<Vec3<C>>)

  /** The loader's locals after some lines: the three temporary tables and the
      three index lists. */
  datatype Tables<C> = Tables(vertices: seq<Vec3<C>>, uvs: seq<Vec2<C>>, normals: seq<Vec3<C>>,
                              vertexIndices: seq<int>, uvIndices: seq<int>, normalIndices: seq<int>)

  function NoTables<C>(): Tables<C> {
    Tables([], [], [], [], [], [])
  }

  /** The three index lists have one entry per recorded face vertex. */
  predicate Balanced<C>(tb: Tables<C>) {
    |tb.vertexIndices| == |tb.uvIndices| == |tb.normalIndices|
  }

  /** The words the loader reads exist: words[0] on every line, words[1..3]
      on `v`, `vn` and `f` lines, words[1..2] on `vt` lines. */
  predicate LineOk<C>(l: Line<C>) {
    && |l| >= 1
    && (l[0].text == "v" || l[0].text == "vn" || l[0].text == "f" ==> |l| >= 4)
    && (l[0].text == "vt" ==> |l| >= 3)
  }

  predicate LinesOk<C>(lines: seq<Line<C>>) {
    forall i :: 0 <= i < |lines| ==> LineOk(lines[i])
  }

  predicate IsFace<C>(l: Line<C>) {
    |l| >= 4 && l[0].text == "f"
  }

  /** A face whose first three references each have exactly three fields. */
  predicate GoodFace<C>(l: Line<C>) {
    IsFace(l) && |l[1].fields| == 3 && |l[2].fields| == 3 && |l[3].fields| == 3
  }

  /** A face the loader rejects. */
  predicate BadFace<C>(l: Line<C>) {
    IsFace(l) && !GoodFace(l)
  }

  /** The lines the reading loop gets to have the words it reads: every line
      up to and including the first rejected face, after which the loop has
      returned. */
  predicate Readable<C>(lines: seq<Line<C>>)
    decreases |lines|
  {
    |lines| == 0 || (LineOk(lines[0]) && (BadFace(lines[0]) || Readable(lines[1..])))
  }

  /** A file whose every line has the words the loader reads is readable. */
  lemma {:induction false} AllReadable<C>(lines: seq<Line<C>>)
    requires LinesOk(lines)
    ensures Readable(lines)
    decreases |lines|
  {
    if |lines| > 0 {
      TailOk(lines);
      AllReadable(lines[1..]);
    }
  }

  /** One iteration of the reading loop; None when the loader gives up. */
  function ScanLine<C>(tb: Tables<C>, l: Line<C>): (r: Option<Tables<C>>)
    requires LineOk(l)
    ensures r.None? <==> BadFace(l)
    ensures r.Some? && Balanced(tb) ==> Balanced(r.value)
  {
    if l[0].text == "v" then
      Some(tb.(vertices := tb.vertices + [Vec3(l[1].number, l[2].number, l[3].number)]))
    else if l[0].text == "vt" then
      Some(tb.(uvs := tb.uvs + [Vec2(l[1].number, l[2].number)]))
    else if l[0].text == "vn" then
      Some(tb.(normals := tb.normals + [Vec3(l[1].number, l[2].number, l[3].number)]))
    else if l[0].text == "f" then
      var vertex0, vertex1, vertex2 := l[1].fields, l[2].fields, l[3].fields;
      if |vertex0| != 3 || |vertex1| != 3 || |vertex2| != 3 then None
      else
        Some(tb.(vertexIndices := tb.vertexIndices + [vertex0[0], vertex1[0], vertex2[0]],
                 uvIndices := tb.uvIndices + [vertex0[1], vertex1[1], vertex2[1]],
                 normalIndices := tb.normalIndices + [vertex0[2], vertex1[2], vertex2[2]]))
    else
      Some(tb)
  }

  /** The reading loop from the tables `tb` over `lines`. */
  function ScanFrom<C>(tb: Tables<C>, lines: seq<Line<C>>): (r: Option<Tables<C>>)
    requires Readable(lines)
    ensures r.Some? && Balanced(tb) ==> Balanced(r.value)
    decreases |lines|
  {
    if |lines| == 0 then Some(tb)
    else
      match ScanLine(tb, lines[0])
      case None => None
      case Some(tb') => ScanFrom(tb', lines[1..])
  }

  function ScanAll<C>(lines: seq<Line<C>>): Option<Tables<C>>
    requires Readable(lines)
  {
    ScanFrom(NoTables(), lines)
  }

  /** Every recorded index names an entry of its table (1-based). The loader
      does not check this; reading outside a table is undefined behaviour. */
  predicate InRange<C>(tb: Tables<C>) {
    && Balanced(tb)
    && (forall i :: 0 <= i < |tb.vertexIndices| ==> 1 <= tb.vertexIndices[i] <= |tb.vertices|)
    && (forall i :: 0 <= i < |tb.uvIndices| ==> 1 <= tb.uvIndices[i] <= |tb.uvs|)
    && (forall i :: 0 <= i < |tb.normalIndices| ==> 1 <= tb.normalIndices[i] <= |tb.normals|)
  }

  /** The resolution loop's result: entry i is the table entry the i-th
      recorded 1-based index names. */
  function Resolve<C>(tb: Tables<C>): (m: Mesh<C>)
    requires InRange(tb)
    ensures |m.positions| == |m.uvs| == |m.normals| == |tb.vertexIndices|
  {
    Mesh(seq(|tb.vertexIndices|, i requires 0 <= i < |tb.vertexIndices| => tb.vertices[tb.vertexIndices[i] - 1]),
         seq(|tb.uvIndices|, i requires 0 <= i < |tb.uvIndices| => tb.uvs[tb.uvIndices[i] - 1]),
         seq(|tb.normalIndices|, i requires 0 <= i < |tb.normalIndices| => tb.normals[tb.normalIndices[i] - 1]))
  }

  /** What the loader needs of a file it can open: the words it reads
      exist, and if every face is well formed, every index is in range. */
  predicate Loadable<C>(file: Option<seq<Line<C>>>) {
    file.Some? ==>
      && Readable(file.value)
      && (ScanAll(file.value).Some? ==> InRange(ScanAll(file.value).value))
  }

  /** The mesh the loader appends, or None when it returns false (the file
      cannot be opened, or a face is badly formatted). */
  function Load<C>(file: Option<seq<Line<C>>>): Option<Mesh<C>>
    requires Loadable(file)
  {
    if file.None? then None
    else
      match ScanAll(file.value)
      case None => None
      case Some(tb) => Some(Resolve(tb))
  }

  /** Object::loadOBJData(filePath, outVertices, outUVs, outNormals). The
      file is None when it cannot be opened; the out-parameters are passed in
      and their final values returned. */
  method LoadObjData<C>(file: Option<seq<Line<C>>>,
                        outVertices: seq<Vec3<C>>, outUVs: seq<Vec2<C>>, outNormals: seq<Vec3<C>>)
    returns (ok: bool, vertices: seq<Vec3<C>>, uvs: seq<Vec2<C>>, normals: seq<Vec3<C>>)
    requires Loadable(file)
    ensures ok == Load(file).Some?
    ensures ok ==> && vertices == outVertices + Load(file).value.positions
                   && uvs == outUVs + Load(file).value.uvs
                   && normals == outNormals + Load(file).value.normals
    ensures !ok ==> vertices == outVertices && uvs == outUVs && normals == outNormals
  {
    vertices, uvs, normals := outVertices, outUVs, outNormals;
    if file.None? {
      // the file cannot be opened: the loader reports a crash and returns false
      return false, vertices, uvs, normals;
    }
    var read, tb := ReadLines(file.value);
    if !read {
      return false, vertices, uvs, normals;
    }
    vertices, uvs, normals := AppendResolved(tb, vertices, uvs, normals);
    ok := true;
  }

  /** The reading loop of loadOBJData over the lines of an opened file: the
      temporary tables and index lists, or false when a face is badly
      formatted (the loader then reports a crash and returns false). */
  method ReadLines<C>(lines: seq<Line<C>>) returns (ok: bool, tb: Tables<C>)
    requires Readable(lines)
    ensures ok == ScanAll(lines).Some?
    ensures ok ==> tb == ScanAll(lines).value
  {
    var vertexIndices: seq<int>, uvIndices: seq<int>, normalIndices: seq<int> := [], [], [];
    var tempVertices: seq<Vec3<C>>, tempUVs: seq<Vec2<C>>, tempNormals: seq<Vec3<C>> := [], [], [];
    var i := 0;
    assert lines[0..] == lines;
    while i < |lines|
      invariant 0 <= i <= |lines|
      invariant Readable(lines[i..])
      invariant ScanAll(lines) ==
        ScanFrom(Tables(tempVertices, tempUVs, tempNormals, vertexIndices, uvIndices, normalIndices), lines[i..])
    {
      ghost var before := Tables(tempVertices, tempUVs, tempNormals, vertexIndices, uvIndices, normalIndices);
      var words := lines[i];
      ReadStep(before, lines, i);
      if words[0].text == "v" {
        tempVertices := tempVertices + [Vec3(words[1].number, words[2].number, words[3].number)];
      } else if words[0].text == "vt" {
        tempUVs := tempUVs + [Vec2(words[1].number, words[2].number)];
      } else if words[0].text == "vn" {
        tempNormals := tempNormals + [Vec3(words[1].number, words[2].number, words[3].number)];
      } else if words[0].text == "f" {
        var vertex0, vertex1, vertex2 := words[1].fields, words[2].fields, words[3].fields;
        if |vertex0| != 3 || |vertex1| != 3 || |vertex2| != 3 {
          // a reference without exactly three fields: crash, return false
          return false, Tables(tempVertices, tempUVs, tempNormals, vertexIndices, uvIndices, normalIndices);
        }
        vertexIndices := vertexIndices + [vertex0[0]];
        uvIndices := uvIndices + [vertex0[1]];
        normalIndices := normalIndices + [vertex0[2]];

        vertexIndices := vertexIndices + [vertex1[0]];
        uvIndices := uvIndices + [vertex1[1]];
        normalIndices := normalIndices + [vertex1[2]];

        vertexIndices := vertexIndices + [vertex2[0]];
        uvIndices := uvIndices + [vertex2[1]];
        normalIndices := normalIndices + [vertex2[2]];
        assert vertexIndices == before.vertexIndices + [vertex0[0], vertex1[0], vertex2[0]];
        assert uvIndices == before.uvIndices + [vertex0[1], vertex1[1], vertex2[1]];
        assert normalIndices == before.normalIndices + [vertex0[2], vertex1[2], vertex2[2]];
      }
      assert ScanLine(before, words) ==
        Some(Tables(tempVertices, tempUVs, tempNormals, vertexIndices, uvIndices, normalIndices));
      i := i + 1;
    }
    ok, tb := true, Tables(tempVertices, tempUVs, tempNormals, vertexIndices, uvIndices, normalIndices);
  }

  /** One iteration of the reading loop at line `i`: the line has the words
      the loader reads, and the loop either rejects it or goes on from the
      tables it gives, over lines that are again readable. */
  lemma ReadStep<C>(tb: Tables<C>, lines: seq<Line<C>>, i: nat)
    requires i < |lines| && Readable(lines[i..])
    ensures LineOk(lines[i])
    ensures !BadFace(lines[i]) ==> Readable(lines[i + 1..])
    ensures ScanFrom(tb, lines[i..]) ==
      if BadFace(lines[i]) then None else ScanFrom(ScanLine(tb, lines[i]).value, lines[i + 1..])
  {
    assert lines[i..][0] == lines[i] && lines[i..][1..] == lines[i + 1..];
  }

  /** The resolution loop of loadOBJData: appends, for every recorded index
      triple, the table entries it names (1-based) to the three outputs. */
  method AppendResolved<C>(tb: Tables<C>, outVertices: seq<Vec3<C>>, outUVs: seq<Vec2<C>>, outNormals: seq<Vec3<C>>)
    returns (vertices: seq<Vec3<C>>, uvs: seq<Vec2<C>>, normals: seq<Vec3<C>>)
    requires InRange(tb)
    ensures vertices == outVertices + Resolve(tb).positions
    ensures uvs == outUVs + Resolve(tb).uvs
    ensures normals == outNormals + Resolve(tb).normals
  {
    vertices, uvs, normals := outVertices, outUVs, outNormals;
    ghost var mesh := Resolve(tb);
    for i := 0 to |tb.vertexIndices|
      invariant vertices == outVertices + mesh.positions[..i]
      invariant uvs == outUVs + mesh.uvs[..i]
      invariant normals == outNormals + mesh.normals[..i]
    {
      var vertexIndex, uvIndex, normalIndex := tb.vertexIndices[i], tb.uvIndices[i], tb.normalIndices[i];
      vertices := vertices + [tb.vertices[vertexIndex - 1]];
      uvs := uvs + [tb.uvs[uvIndex - 1]];
      normals := normals + [tb.normals[normalIndex - 1]];
      assert mesh.positions[..i + 1] == mesh.positions[..i] + [mesh.positions[i]];
      assert mesh.uvs[..i + 1] == mesh.uvs[..i] + [mesh.uvs[i]];
      assert mesh.normals[..i + 1] == mesh.normals[..i] + [mesh.normals[i]];
    }
    assert mesh.positions[..|tb.vertexIndices|] == mesh.positions;
    assert mesh.uvs[..|tb.vertexIndices|] == mesh.uvs;
    assert mesh.normals[..|tb.vertexIndices|] == mesh.normals;
  }

  // ---------------------------------------------------------------------
  // Reference definitions: each table and index list on its own

  /** The position a `v` line adds, and nothing for any other line. */
  function LinePositions<C>(l: Line<C>): seq<Vec3<C>>
    requires LineOk(l)
  {
    if l[0].text == "v" then [Vec3(l[1].number, l[2].number, l[3].number)] else []
  }

  /** The texture coordinate a `vt` line adds, and nothing for any other line. */
  function LineTexCoords<C>(l: Line<C>): seq<Vec2<C>>
    requires LineOk(l)
  {
    if l[0].text == "vt" then [Vec2(l[1].number, l[2].number)] else []
  }

  /** The normal a `vn` line adds, and nothing for any other line. */
  function LineNormals<C>(l: Line<C>): seq<Vec3<C>>
    requires LineOk(l)
  {
    if l[0].text == "vn" then [Vec3(l[1].number, l[2].number, l[3].number)] else []
  }

  /** The positions of the `v` lines, in file order. */
  function Positions<C>(lines: seq<Line<C>>): seq<Vec3<C>>
    requires LinesOk(lines)
  {
    if |lines| == 0 then [] else LinePositions(lines[0]) + Positions(lines[1..])
  }

  /** The texture coordinates of the `vt` lines, in file order. */
  function TexCoords<C>(lines: seq<Line<C>>): seq<Vec2<C>>
    requires LinesOk(lines)
  {
    if |lines| == 0 then [] else LineTexCoords(lines[0]) + TexCoords(lines[1..])
  }

  /** The normals of the `vn` lines, in file order. */
  function Normals<C>(lines: seq<Line<C>>): seq<Vec3<C>>
    requires LinesOk(lines)
  {
    if |lines| == 0 then [] else LineNormals(lines[0]) + Normals(lines[1..])
  }

  /** The `f` lines, in file order. */
  function Faces<C>(lines: seq<Line<C>>): (faces: seq<Line<C>>)
    ensures forall k :: 0 <= k < |faces| ==> IsFace(faces[k])
  {
    if |lines| == 0 then []
    else (if IsFace(lines[0]) then [lines[0]] else []) + Faces(lines[1..])
  }

  /** When no face is badly formatted, every face is well formed. */
  lemma {:induction false} FacesAreGood<C>(lines: seq<Line<C>>)
    requires forall i :: 0 <= i < |lines| ==> !BadFace(lines[i])
    ensures forall k :: 0 <= k < |Faces(lines)| ==> GoodFace(Faces(lines)[k])
  {
    if |lines| > 0 {
      assert forall i :: 0 <= i < |lines| - 1 ==> lines[1..][i] == lines[i + 1];
      FacesAreGood(lines[1..]);
      if IsFace(lines[0]) {
        assert Faces(lines) == [lines[0]] + Faces(lines[1..]);
      }
    }
  }

  /** Field `field` of a reference; only ever taken of references that have
      three fields. */
  function FieldOf<C>(w: Word<C>, field: nat): int {
    if field < |w.fields| then w.fields[field] else 0
  }

  /** Field `field` of the first three references of each face, three
      entries per face. */
  function RefIndices<C>(faces: seq<Line<C>>, field: nat): (r: seq<int>)
    requires forall k :: 0 <= k < |faces| ==> IsFace(faces[k])
    ensures |r| == 3 * |faces|
  {
    if |faces| == 0 then []
    else
      assert IsFace(faces[0]);
      var f := faces[0];
      [FieldOf(f[1], field), FieldOf(f[2], field), FieldOf(f[3], field)] + RefIndices(faces[1..], field)
  }

  /** Entry 3k + j of RefIndices is field `field` of reference j + 1 of face k. */
  lemma {:induction false} RefIndicesAt<C>(faces: seq<Line<C>>, field: nat, k: nat, j: nat)
    requires forall k :: 0 <= k < |faces| ==> IsFace(faces[k])
    requires k < |faces| && j < 3
    ensures RefIndices(faces, field)[3 * k + j] == FieldOf(faces[k][j + 1], field)
  {
    var f := faces[0];
    var head := [FieldOf(f[1], field), FieldOf(f[2], field), FieldOf(f[3], field)];
    assert RefIndices(faces, field) == head + RefIndices(faces[1..], field);
    if k > 0 {
      assert forall i :: 0 <= i < |faces| - 1 ==> faces[1..][i] == faces[i + 1];
      RefIndicesAt(faces[1..], field, k - 1, j);
      assert 3 * k + j == 3 + (3 * (k - 1) + j);
    }
  }


  // ---------------------------------------------------------------------
  // Properties of the reading loop

  /** The reading loop fails exactly when some `f` line has a first, second
      or third reference that does not have three fields; how the tables
      looked beforehand does not matter. */
  lemma {:induction false} ScanFailsIff<C>(tb: Tables<C>, lines: seq<Line<C>>)
    requires Readable(lines)
    ensures ScanFrom(tb, lines).None? <==> exists i :: 0 <= i < |lines| && BadFace(lines[i])
    decreases |lines|
  {
    if |lines| > 0 {
      match ScanLine(tb, lines[0])
      case None =>
      case Some(tb') =>
        ScanFailsIff(tb', lines[1..]);
        assert forall i :: 0 < i < |lines| ==> lines[i] == lines[1..][i - 1];
    }
  }

  /** A reading loop that succeeds has read every line, so every line has
      the words the loader reads. */
  lemma {:induction false} ScanOkReadsAll<C>(tb: Tables<C>, lines: seq<Line<C>>)
    requires Readable(lines) && ScanFrom(tb, lines).Some?
    ensures LinesOk(lines)
    decreases |lines|
  {
    if |lines| > 0 {
      var tb' := ScanLine(tb, lines[0]).value;
      ScanOkReadsAll(tb', lines[1..]);
      assert forall i :: 0 < i < |lines| ==> lines[i] == lines[1..][i - 1];
    }
  }

  /** The tail of a well-formed file is well formed. */
  lemma TailOk<C>(lines: seq<Line<C>>)
    requires LinesOk(lines) && |lines| > 0
    ensures LineOk(lines[0]) && LinesOk(lines[1..])
  {
    assert forall i :: 0 <= i < |lines| - 1 ==> lines[1..][i] == lines[i + 1];
  }

  /** A successful reading loop accepts the first line and goes on from the
      tables it gives. */
  lemma ScanStep<C>(tb: Tables<C>, lines: seq<Line<C>>)
    requires Readable(lines) && |lines| > 0 && ScanFrom(tb, lines).Some?
    ensures LineOk(lines[0]) && !BadFace(lines[0]) && Readable(lines[1..])
    ensures ScanFrom(tb, lines) == ScanFrom(ScanLine(tb, lines[0]).value, lines[1..])
    ensures ScanFrom(ScanLine(tb, lines[0]).value, lines[1..]).Some?
  {
  }

  /** One accepted line adds to each table exactly that line's entry for it. */
  lemma ScanLineTables<C>(tb: Tables<C>, l: Line<C>)
    requires LineOk(l) && !BadFace(l)
    ensures var r := ScanLine(tb, l).value;
      && r.vertices == tb.vertices + LinePositions(l)
      && r.uvs == tb.uvs + LineTexCoords(l)
      && r.normals == tb.normals + LineNormals(l)
  {
  }

  /** When the reading loop succeeds, the position table has grown by the
      positions of the `v` lines, in file order. */
  lemma {:induction false} ScanPositions<C>(tb: Tables<C>, lines: seq<Line<C>>)
    requires Readable(lines) && ScanFrom(tb, lines).Some?
    ensures LinesOk(lines)
    ensures ScanFrom(tb, lines).value.vertices == tb.vertices + Positions(lines)
    decreases |lines|
  {
    ScanOkReadsAll(tb, lines);
    if |lines| > 0 {
      ScanStep(tb, lines);
      var l, rest := lines[0], lines[1..];
      var tb' := ScanLine(tb, l).value;
      ScanLineTables(tb, l);
      ScanPositions(tb', rest);
      assert tb.vertices + LinePositions(l) + Positions(rest) == tb.vertices + (LinePositions(l) + Positions(rest));
    }
  }

  /** Likewise the texture-coordinate table and the `vt` lines. */
  lemma {:induction false} ScanTexCoords<C>(tb: Tables<C>, lines: seq<Line<C>>)
    requires Readable(lines) && ScanFrom(tb, lines).Some?
    ensures LinesOk(lines)
    ensures ScanFrom(tb, lines).value.uvs == tb.uvs + TexCoords(lines)
    decreases |lines|
  {
    ScanOkReadsAll(tb, lines);
    if |lines| > 0 {
      ScanStep(tb, lines);
      var l, rest := lines[0], lines[1..];
      var tb' := ScanLine(tb, l).value;
      ScanLineTables(tb, l);
      ScanTexCoords(tb', rest);
      assert tb.uvs + LineTexCoords(l) + TexCoords(rest) == tb.uvs + (LineTexCoords(l) + TexCoords(rest));
    }
  }

  /** Likewise the normal table and the `vn` lines. */
  lemma {:induction false} ScanNormals<C>(tb: Tables<C>, lines: seq<Line<C>>)
    requires Readable(lines) && ScanFrom(tb, lines).Some?
    ensures LinesOk(lines)
    ensures ScanFrom(tb, lines).value.normals == tb.normals + Normals(lines)
    decreases |lines|
  {
    ScanOkReadsAll(tb, lines);
    if |lines| > 0 {
      ScanStep(tb, lines);
      var l, rest := lines[0], lines[1..];
      var tb' := ScanLine(tb, l).value;
      ScanLineTables(tb, l);
      ScanNormals(tb', rest);
      assert tb.normals + LineNormals(l) + Normals(rest) == tb.normals + (LineNormals(l) + Normals(rest));
    }
  }

  /** Index list `field` of the tables: 0 positions, 1 UVs, 2 normals. */
  function IndexList<C>(tb: Tables<C>, field: nat): seq<int>
    requires field < 3
  {
    if field == 0 then tb.vertexIndices else if field == 1 then tb.uvIndices else tb.normalIndices
  }

  /** The indices a well-formed `f` line records in list `field`, and
      nothing for any other line. */
  function LineRefs<C>(l: Line<C>, field: nat): seq<int>
    requires LineOk(l)
  {
    if l[0].text == "f" then [FieldOf(l[1], field), FieldOf(l[2], field), FieldOf(l[3], field)] else []
  }

  /** One accepted line adds to each index list exactly that line's entries. */
  lemma ScanLineIndices<C>(tb: Tables<C>, l: Line<C>, field: nat)
    requires LineOk(l) && !BadFace(l) && field < 3
    ensures IndexList(ScanLine(tb, l).value, field) == IndexList(tb, field) + LineRefs(l, field)
  {
  }

  /** Index list `field` as the lines record it, line by line. */
  function Refs<C>(lines: seq<Line<C>>, field: nat): seq<int>
    requires LinesOk(lines)
  {
    if |lines| == 0 then [] else LineRefs(lines[0], field) + Refs(lines[1..], field)
  }

  /** Recorded line by line, the indices are the face-order ones. */
  lemma {:induction false} RefsAreFaceOrder<C>(lines: seq<Line<C>>, field: nat)
    requires LinesOk(lines)
    ensures Refs(lines, field) == RefIndices(Faces(lines), field)
  {
    if |lines| > 0 {
      TailOk(lines);
      var l, rest, faces := lines[0], lines[1..], Faces(lines);
      RefsAreFaceOrder(rest, field);
      if IsFace(l) {
        assert faces == [l] + Faces(rest);
        assert faces[0] == l && faces[1..] == Faces(rest);
      } else {
        assert faces == Faces(rest);
      }
    }
  }

  /** When the reading loop succeeds, no face is badly formatted. */
  lemma ScanOkNoBadFace<C>(tb: Tables<C>, lines: seq<Line<C>>)
    requires Readable(lines) && ScanFrom(tb, lines).Some?
    ensures forall i :: 0 <= i < |lines| ==> !BadFace(lines[i])
  {
    ScanFailsIff(tb, lines);
  }

  /** When the reading loop succeeds, index list `field` has grown by that
      field of the three references of every `f` line, in file order. */
  lemma {:induction false} ScanRefs<C>(tb: Tables<C>, lines: seq<Line<C>>, field: nat)
    requires Readable(lines) && ScanFrom(tb, lines).Some? && field < 3
    ensures LinesOk(lines)
    ensures IndexList(ScanFrom(tb, lines).value, field) == IndexList(tb, field) + Refs(lines, field)
    decreases |lines|
  {
    ScanOkReadsAll(tb, lines);
    if |lines| > 0 {
      var l, rest := lines[0], lines[1..];
      ScanStep(tb, lines);
      TailOk(lines);
      var tb' := ScanLine(tb, l).value;
      ScanLineIndices(tb, l, field);
      ScanRefs(tb', rest, field);
      assert Refs(lines, field) == LineRefs(l, field) + Refs(rest, field);
      assert IndexList(tb, field) + LineRefs(l, field) + Refs(rest, field)
          == IndexList(tb, field) + (LineRefs(l, field) + Refs(rest, field));
    }
  }

  /** When the reading loop succeeds, index list `field` has grown by that
      field of the first three references of every face, in face order and
      then reference order. */
  lemma ScanMatchesIndices<C>(tb: Tables<C>, lines: seq<Line<C>>, field: nat)
    requires Readable(lines) && ScanFrom(tb, lines).Some? && field < 3
    ensures IndexList(ScanFrom(tb, lines).value, field) == IndexList(tb, field) + RefIndices(Faces(lines), field)
  {
    ScanRefs(tb, lines, field);
    RefsAreFaceOrder(lines, field);
  }

  /** Inserting a line with the words the loader reads keeps every line
      of a file well formed, and removing it again does too. */
  lemma InsertedLineOk<C>(before: seq<Line<C>>, l: Line<C>, after: seq<Line<C>>)
    requires LineOk(l)
    ensures LinesOk(before + [l] + after) <==> LinesOk(before + after)
  {
    var with, without := before + [l] + after, before + after;
    if LinesOk(without) {
      forall i | 0 <= i < |with| ensures LineOk(with[i]) {
        if i < |before| { assert with[i] == without[i]; }
        else if i > |before| { assert with[i] == without[i - 1]; }
      }
    }
    if LinesOk(with) {
      forall i | 0 <= i < |without| ensures LineOk(without[i]) {
        if i < |before| { assert without[i] == with[i]; }
        else { assert without[i] == with[i + 1]; }
      }
    }
  }

  /** Replacing a line by one that is equally well formed leaves the file
      equally well formed. */
  lemma ReplacedLineOk<C>(before: seq<Line<C>>, l: Line<C>, l': Line<C>, after: seq<Line<C>>)
    requires LineOk(l') == LineOk(l)
    ensures LinesOk(before + [l'] + after) <==> LinesOk(before + [l] + after)
  {
    var with, without := before + [l'] + after, before + [l] + after;
    assert |with| == |without|;
    assert forall i :: 0 <= i < |with| && i != |before| ==> with[i] == without[i];
    assert with[|before|] == l' && without[|before|] == l;
  }

  /** A line whose first word is none of `v`, `vt`, `vn`, `f` can be
      inserted anywhere in a file the loop can read without changing what
      the reading loop computes, or which lines have the words it reads. */
  lemma {:induction false} UnknownLineIgnored<C>(tb: Tables<C>, before: seq<Line<C>>, l: Line<C>, after: seq<Line<C>>)
    requires Readable(before + after) && |l| >= 1
    requires l[0].text != "v" && l[0].text != "vt" && l[0].text != "vn" && l[0].text != "f"
    ensures Readable(before + [l] + after)
    ensures LinesOk(before + [l] + after) <==> LinesOk(before + after)
    ensures ScanFrom(tb, before + [l] + after) == ScanFrom(tb, before + after)
    decreases |before|
  {
    var with, without := before + [l] + after, before + after;
    InsertedLineOk(before, l, after);
    if |before| == 0 {
      assert with[0] == l && with[1..] == after && without == after;
    } else {
      assert with[0] == before[0] && without[0] == before[0];
      assert with[1..] == before[1..] + [l] + after;
      assert without[1..] == before[1..] + after;
      if !BadFace(before[0]) {
        UnknownLineIgnored(ScanLine(tb, before[0]).value, before[1..], l, after);
      }
    }
  }

  /** Words after the third reference of a face are never read: appending
      any words to an `f` line of a file the loop can read changes nothing. */
  lemma {:induction false} ExtraReferencesIgnored<C>(tb: Tables<C>, before: seq<Line<C>>, l: Line<C>,
                                                     extra: seq<Word<C>>, after: seq<Line<C>>)
    requires Readable(before + [l] + after) && IsFace(l)
    ensures Readable(before + [l + extra] + after)
    ensures LinesOk(before + [l + extra] + after) <==> LinesOk(before + [l] + after)
    ensures ScanFrom(tb, before + [l + extra] + after) == ScanFrom(tb, before + [l] + after)
    decreases |before|
  {
    var l' := l + extra;
    assert l'[..4] == l[..4];
    assert l'[0] == l[0] && l'[1] == l[1] && l'[2] == l[2] && l'[3] == l[3];
    var with, without := before + [l'] + after, before + [l] + after;
    assert LineOk(l') == LineOk(l) && BadFace(l') == BadFace(l);
    ReplacedLineOk(before, l, l', after);
    if |before| == 0 {
      assert with[0] == l' && without[0] == l;
      assert with[1..] == after && without[1..] == after;
      if !BadFace(l) {
        assert ScanLine(tb, l') == ScanLine(tb, l);
      }
    } else {
      assert with[0] == before[0] && without[0] == before[0];
      assert with[1..] == before[1..] + [l'] + after;
      assert without[1..] == before[1..] + [l] + after;
      if !BadFace(before[0]) {
        ExtraReferencesIgnored(ScanLine(tb, before[0]).value, before[1..], l, extra, after);
      }
    }
  }

  // ---------------------------------------------------------------------
  // Properties of the loader's result

  /** Lines with the words the loader reads, then a rejected face, then any
      lines at all, are readable. */
  lemma {:induction false} ReadableUpTo<C>(before: seq<Line<C>>, l: Line<C>, after: seq<Line<C>>)
    requires LinesOk(before) && BadFace(l)
    ensures Readable(before + [l] + after)
    decreases |before|
  {
    var lines := before + [l] + after;
    if |before| == 0 {
      assert lines[0] == l;
    } else {
      TailOk(before);
      ReadableUpTo(before[1..], l, after);
      assert lines[0] == before[0] && lines[1..] == before[1..] + [l] + after;
    }
  }

  /** The lines after a rejected face are never read: whatever they are,
      even empty, the file is loadable and the load fails. */
  lemma RejectedFaceStopsReading<C>(before: seq<Line<C>>, l: Line<C>, after: seq<Line<C>>)
    requires LinesOk(before) && BadFace(l)
    ensures Loadable(Some(before + [l] + after))
    ensures Load(Some(before + [l] + after)).None?
  {
    var lines := before + [l] + after;
    ReadableUpTo(before, l, after);
    assert lines[|before|] == l;
    ScanFailsIff(NoTables(), lines);
  }

  /** An unopenable file loads nothing, and an opened one fails exactly when
      it has a badly formatted face. */
  lemma LoadFailsIff<C>(file: Option<seq<Line<C>>>)
    requires Loadable(file)
    ensures Load(file).None? <==>
      (file.None? || exists i :: 0 <= i < |file.value| && BadFace(file.value[i]))
  {
    if file.Some? {
      ScanFailsIff(NoTables(), file.value);
    }
  }

  /** A successful load yields three outputs of equal length, three entries
      per face. */
  lemma LoadShape<C>(lines: seq<Line<C>>)
    requires Loadable(Some(lines)) && Load(Some(lines)).Some?
    ensures var m := Load(Some(lines)).value;
      |m.positions| == |m.uvs| == |m.normals| == 3 * |Faces(lines)|
  {
    ScanOkReadsAll(NoTables(), lines);
    ScanMatchesIndices(NoTables(), lines, 0);
  }

  /** The tables a successful load resolves against, in terms of the
      reference definitions. */
  lemma LoadedTables<C>(lines: seq<Line<C>>)
    requires Loadable(Some(lines)) && Load(Some(lines)).Some?
    ensures LinesOk(lines)
    ensures ScanAll(lines).Some? && InRange(ScanAll(lines).value)
    ensures Load(Some(lines)).value == Resolve(ScanAll(lines).value)
    ensures forall i :: 0 <= i < |lines| ==> !BadFace(lines[i])
    ensures forall k :: 0 <= k < |Faces(lines)| ==> GoodFace(Faces(lines)[k])
    ensures var tb := ScanAll(lines).value;
      && tb.vertices == Positions(lines) && tb.uvs == TexCoords(lines) && tb.normals == Normals(lines)
      && tb.vertexIndices == RefIndices(Faces(lines), 0)
      && tb.uvIndices == RefIndices(Faces(lines), 1)
      && tb.normalIndices == RefIndices(Faces(lines), 2)
  {
    ScanOkReadsAll(NoTables(), lines);
    ScanPositions(NoTables(), lines);
    ScanTexCoords(NoTables(), lines);
    ScanNormals(NoTables(), lines);
    ScanOkNoBadFace(NoTables(), lines);
    ScanMatchesIndices(NoTables(), lines, 0);
    ScanMatchesIndices(NoTables(), lines, 1);
    ScanMatchesIndices(NoTables(), lines, 2);
    FacesAreGood(lines);
  }

  /** Output position 3k + j is the position named, 1-based, by the first
      field of reference j + 1 of face k, and that index is in range. */
  lemma LoadPosition<C>(lines: seq<Line<C>>, k: nat, j: nat)
    requires Loadable(Some(lines)) && Load(Some(lines)).Some?
    requires k < |Faces(lines)| && j < 3
    ensures LinesOk(lines) && GoodFace(Faces(lines)[k])
    ensures var m := Load(Some(lines)).value;
            var index := Faces(lines)[k][j + 1].fields[0];
      && 3 * k + j < |m.positions| && 1 <= index <= |Positions(lines)|
      && m.positions[3 * k + j] == Positions(lines)[index - 1]
  {
    LoadedTables(lines);
    var tb := ScanAll(lines).value;
    RefIndicesAt(Faces(lines), 0, k, j);
    assert tb.vertexIndices[3 * k + j] == Faces(lines)[k][j + 1].fields[0];
    assert 1 <= tb.vertexIndices[3 * k + j] <= |tb.vertices|;
    var m := Load(Some(lines)).value;
    assert |m.positions| == |tb.vertexIndices| && m.positions[3 * k + j] == tb.vertices[tb.vertexIndices[3 * k + j] - 1];
  }

  /** Output UV 3k + j is the texture coordinate named, 1-based, by the
      second field of reference j + 1 of face k, and that index is in range. */
  lemma LoadTexCoord<C>(lines: seq<Line<C>>, k: nat, j: nat)
    requires Loadable(Some(lines)) && Load(Some(lines)).Some?
    requires k < |Faces(lines)| && j < 3
    ensures LinesOk(lines) && GoodFace(Faces(lines)[k])
    ensures var m := Load(Some(lines)).value;
            var index := Faces(lines)[k][j + 1].fields[1];
      && 3 * k + j < |m.uvs| && 1 <= index <= |TexCoords(lines)|
      && m.uvs[3 * k + j] == TexCoords(lines)[index - 1]
  {
    LoadedTables(lines);
    var tb := ScanAll(lines).value;
    RefIndicesAt(Faces(lines), 1, k, j);
    assert tb.uvIndices[3 * k + j] == Faces(lines)[k][j + 1].fields[1];
    assert 1 <= tb.uvIndices[3 * k + j] <= |tb.uvs|;
    var m := Load(Some(lines)).value;
    assert |m.uvs| == |tb.uvIndices| && m.uvs[3 * k + j] == tb.uvs[tb.uvIndices[3 * k + j] - 1];
  }

  /** Output normal 3k + j is the normal named, 1-based, by the third field
      of reference j + 1 of face k, and that index is in range. */
  lemma LoadNormal<C>(lines: seq<Line<C>>, k: nat, j: nat)
    requires Loadable(Some(lines)) && Load(Some(lines)).Some?
    requires k < |Faces(lines)| && j < 3
    ensures LinesOk(lines) && GoodFace(Faces(lines)[k])
    ensures var m := Load(Some(lines)).value;
            var index := Faces(lines)[k][j + 1].fields[2];
      && 3 * k + j < |m.normals| && 1 <= index <= |Normals(lines)|
      && m.normals[3 * k + j] == Normals(lines)[index - 1]
  {
    LoadedTables(lines);
    var tb := ScanAll(lines).value;
    RefIndicesAt(Faces(lines), 2, k, j);
    assert tb.normalIndices[3 * k + j] == Faces(lines)[k][j + 1].fields[2];
    assert 1 <= tb.normalIndices[3 * k + j] <= |tb.normals|;
    var m := Load(Some(lines)).value;
    assert |m.normals| == |tb.normalIndices| && m.normals[3 * k + j] == tb.normals[tb.normalIndices[3 * k + j] - 1];
  }
}
