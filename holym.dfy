/** The .holym model format of holy-mm and its parser. A file is a list of
    lines: `v X Y Z [c R G B]` (a position and its colour), `vt U V` (a
    texture coordinate), `f V/VT V/VT V/VT` (a triangle of 1-based position
    and texture-coordinate indices) and `tex_path P`. Parsing scans the lines
    into positions, colours, texture coordinates, faces and the texture path,
    then turns every face corner into an interleaved 8-float vertex (position,
    colour, uv), sharing one vertex among corners with the same index pair.

    HolymScan and Holym are the declarative description; ParseHolym is the
    loop-by-loop parser, proved to compute it. Number parsing
    (strconv.ParseFloat) is a parameter. */
module Holym {
  import opened Outcomes
  import opened Vectors
  import Text
  import Dedup

  /** A face corner: 0-based position and texture-coordinate indices,
      exactly as read (possibly negative or past the end). */
  datatype Corner = Corner(vertex: int, texCoord: int)

  datatype HolymError =
    | BadFaceToken(token: string)
    /** A coloured `v` line of exactly seven fields reads an eighth: a Go
        index-out-of-range panic. */
    | ColorIndexPanic
    | VertexIndexOutOfBounds(index: int)
    | TexCoordIndexOutOfBounds(index: int)

  /** What the scanning loop collects. Every face has three corners. */
  datatype Scan = Scan(
    positions: seq<Vec3>,
    colors: seq<Vec3>,
    texCoords: seq<Vec2>,
    faces: seq<seq<Corner>>,
    texturePath: string)

  const EmptyScan: Scan := Scan([], [], [], [], "")
  const White: Vec3 := Vec3(1.0, 1.0, 1.0)

  /** The parser's result: the interleaved vertex buffer (8 floats per
      vertex), the index buffer, the texture flag and path. */
  datatype Mesh = Mesh(vertices: seq<real>, indices: seq<nat>, hasTexture: bool, texturePath: string)

  // ---------------------------------------------------------------------
  // Scanning

  /** One `V/VT` token: exactly two parts around a '/', each read with
      Atoi (0 when not a number) and made 0-based. */
  function ParseCorner(token: string): Result<Corner, HolymError> {
    var parts := Text.Split(token, '/');
    if |parts| != 2 then Err(BadFaceToken(token))
    else Ok(Corner(Text.Atoi(parts[0]) - 1, Text.Atoi(parts[1]) - 1))
  }

  /** `face` in front of a list of corners, or the error. */
  function Prepend(face: seq<Corner>, r: Result<seq<Corner>, HolymError>): Result<seq<Corner>, HolymError> {
    match r
    case Err(e) => Err(e)
    case Ok(cs) => Ok(face + cs)
  }

  /** The corners of a list of tokens, failing at the first bad one. */
  function ParseCorners(tokens: seq<string>): (r: Result<seq<Corner>, HolymError>)
    ensures r.Ok? ==> |r.value| == |tokens|
  {
    if tokens == [] then Ok([])
    else match ParseCorner(tokens[0])
      case Err(e) => Err(e)
      case Ok(c) =>
        match ParseCorners(tokens[1..])
        case Err(e) => Err(e)
        case Ok(cs) => Ok([c] + cs)
  }

  predicate IsVertexLine(fields: seq<string>) { |fields| >= 4 && fields[0] == "v" }
  predicate IsTexCoordLine(fields: seq<string>) { |fields| >= 3 && fields[0] == "vt" }
  predicate IsFaceLine(fields: seq<string>) { |fields| >= 4 && fields[0] == "f" }
  predicate IsTexPathLine(fields: seq<string>) { |fields| >= 2 && fields[0] == "tex_path" }

  /** The coloured form `v X Y Z c R G B` as the parser checks for it. */
  predicate IsColorPanicLine(fields: seq<string>) {
    IsVertexLine(fields) && |fields| == 7 && fields[4] == "c"
  }

  /** One line of the scanning loop. Blank lines, short lines and unknown
      keywords are skipped; only extra fields beyond those read are ignored. */
  function ScanLine(s: Scan, line: string, parseFloat: string -> real): (r: Result<Scan, HolymError>)
    ensures r.Ok? && |s.colors| == |s.positions| ==> |r.value.colors| == |r.value.positions|
    // a face line adds one face of three corners, any other line none
    ensures r.Ok? && IsFaceLine(Text.Fields(line)) ==>
      |r.value.faces| == |s.faces| + 1 && r.value.faces[..|s.faces|] == s.faces && |r.value.faces[|s.faces|]| == 3
    ensures r.Ok? && !IsFaceLine(Text.Fields(line)) ==> r.value.faces == s.faces
  {
    var fields := Text.Fields(line);
    if |fields| == 0 then Ok(s)
    else if fields[0] == "v" then
      if |fields| < 4 then Ok(s)
      else
        var pos := Vec3(parseFloat(fields[1]), parseFloat(fields[2]), parseFloat(fields[3]));
        if |fields| == 7 && fields[4] == "c" then Err(ColorIndexPanic)
        else Ok(s.(positions := s.positions + [pos], colors := s.colors + [White]))
    else if fields[0] == "vt" then
      if |fields| < 3 then Ok(s)
      else Ok(s.(texCoords := s.texCoords + [Vec2(parseFloat(fields[1]), parseFloat(fields[2]))]))
    else if fields[0] == "f" then
      if |fields| < 4 then Ok(s)
      else match ParseCorners(fields[1..4])
        case Err(e) => Err(e)
        case Ok(face) => Ok(s.(faces := s.faces + [face]))
    else if fields[0] == "tex_path" then
      if |fields| < 2 then Ok(s) else Ok(s.(texturePath := fields[1]))
    else Ok(s)
  }

  /** The colour the coloured form `v X Y Z c R G B` evidently means: the
      three fields after `c` when the line has its eight fields, white
      otherwise. */
  function IntendedColour(fields: seq<string>, parseFloat: string -> real): (c: Vec3)
    requires IsVertexLine(fields)
    ensures !(|fields| == 8 && fields[4] == "c") ==> c == White
  {
    if |fields| == 8 && fields[4] == "c" then Vec3(parseFloat(fields[5]), parseFloat(fields[6]), parseFloat(fields[7]))
    else White
  }

  /** One line with the colour guard counting the eight fields the form has:
      a vertex line never fails and keeps its colour. */
  function CorrectedScanLine(s: Scan, line: string, parseFloat: string -> real): (r: Result<Scan, HolymError>)
    ensures IsVertexLine(Text.Fields(line)) ==>
      r.Ok? && |r.value.positions| == |s.positions| + 1 && |r.value.colors| == |s.colors| + 1
  {
    var fields := Text.Fields(line);
    if IsVertexLine(fields) then
      var pos := Vec3(parseFloat(fields[1]), parseFloat(fields[2]), parseFloat(fields[3]));
      Ok(s.(positions := s.positions + [pos], colors := s.colors + [IntendedColour(fields, parseFloat)]))
    else ScanLine(s, line, parseFloat)
  }

  /** As written, a complete coloured line `v X Y Z c R G B` (eight fields)
      misses the guard and gets the default white. */
  lemma AsWrittenColourDropped(s: Scan, line: string, parseFloat: string -> real)
    requires var f := Text.Fields(line); IsVertexLine(f) && |f| == 8 && f[4] == "c"
    ensures var f := Text.Fields(line);
      ScanLine(s, line, parseFloat) ==
        Ok(s.(positions := s.positions + [Vec3(parseFloat(f[1]), parseFloat(f[2]), parseFloat(f[3]))],
              colors := s.colors + [White]))
  {}

  /** With the guard corrected, the same line keeps its colour. */
  lemma CorrectedColourKept(s: Scan, line: string, parseFloat: string -> real)
    requires var f := Text.Fields(line); IsVertexLine(f) && |f| == 8 && f[4] == "c"
    ensures var f := Text.Fields(line);
      CorrectedScanLine(s, line, parseFloat) ==
        Ok(s.(positions := s.positions + [Vec3(parseFloat(f[1]), parseFloat(f[2]), parseFloat(f[3]))],
              colors := s.colors + [Vec3(parseFloat(f[5]), parseFloat(f[6]), parseFloat(f[7]))]))
  {}

  /** The correction touches only the two coloured forms: on every other
      line the corrected scan and the one as written agree. */
  lemma CorrectedAgreesElsewhere(s: Scan, line: string, parseFloat: string -> real)
    ensures var f := Text.Fields(line);
      !IsColorPanicLine(f) && !(IsVertexLine(f) && |f| == 8 && f[4] == "c") ==>
        CorrectedScanLine(s, line, parseFloat) == ScanLine(s, line, parseFloat)
  {}

  /** The remaining lines, from a scan state on; the first error stops it. */
  function ScanLines(s: Scan, lines: seq<string>, parseFloat: string -> real): Result<Scan, HolymError>
    decreases |lines|
  {
    if lines == [] then Ok(s)
    else match ScanLine(s, lines[0], parseFloat)
      case Err(e) => Err(e)
      case Ok(t) => ScanLines(t, lines[1..], parseFloat)
  }

  function HolymScan(lines: seq<string>, parseFloat: string -> real): Result<Scan, HolymError> {
    ScanLines(EmptyScan, lines, parseFloat)
  }

  // ---------------------------------------------------------------------
  // Building the buffers

  /** All face corners in order. */
  function Flatten(faces: seq<seq<Corner>>): seq<Corner> {
    if faces == [] then [] else Flatten(faces[..|faces| - 1]) + faces[|faces| - 1]
  }

  predicate InRange(s: Scan, k: Corner) {
    0 <= k.vertex < |s.positions| && 0 <= k.texCoord < |s.texCoords|
  }

  /** Every face corner of the scan indexes an existing position and
      texture coordinate. */
  predicate AllInRange(s: Scan) {
    var cs := Flatten(s.faces);
    forall k :: 0 <= k < |cs| ==> InRange(s, cs[k])
  }

  /** The error of one corner, if any: the position index is checked first. */
  function CornerError(s: Scan, k: Corner): Option<HolymError> {
    if k.vertex < 0 || k.vertex >= |s.positions| then Some(VertexIndexOutOfBounds(k.vertex + 1))
    else if k.texCoord < 0 || k.texCoord >= |s.texCoords| then Some(TexCoordIndexOutOfBounds(k.texCoord + 1))
    else None
  }

  /** The error of the first bad corner, if any. */
  function FirstBadCorner(s: Scan, cs: seq<Corner>): Option<HolymError> {
    if cs == [] then None
    else if CornerError(s, cs[0]).Some? then CornerError(s, cs[0])
    else FirstBadCorner(s, cs[1..])
  }

  /** The 8 floats of a corner's vertex: position, colour, uv (zeros for a
      corner out of range, which never reaches the buffers). */
  function VertexData(s: Scan, k: Corner): (d: seq<real>)
    ensures |d| == 8
  {
    if InRange(s, k) && k.vertex < |s.colors| then
      var p, c, t := s.positions[k.vertex], s.colors[k.vertex], s.texCoords[k.texCoord];
      [p.x, p.y, p.z, c.x, c.y, c.z, t.x, t.y]
    else [0.0, 0.0, 0.0, 0.0, 0.0, 0.0, 0.0, 0.0]
  }

  /** VertexData as a function of the corner alone. */
  function VertexOf(s: Scan): Corner -> seq<real> {
    k => VertexData(s, k)
  }

  /** The buffers of a scan whose corners are all in range: one vertex per
      distinct (position, texture coordinate) pair in order of first use,
      and each corner's index the number of its pair. */
  function BuildMesh(s: Scan): Result<Mesh, HolymError> {
    var corners := Flatten(s.faces);
    match FirstBadCorner(s, corners)
    case Some(e) => Err(e)
    case None =>
      Ok(Mesh(Dedup.Concat(Dedup.Distinct(corners), VertexOf(s)), Dedup.Numbering(corners),
        s.texturePath != "", s.texturePath))
  }

  /** parseHolym on the lines of a file. */
  function Holym(lines: seq<string>, parseFloat: string -> real): Result<Mesh, HolymError> {
    match HolymScan(lines, parseFloat)
    case Err(e) => Err(e)
    case Ok(s) => BuildMesh(s)
  }

  // ---------------------------------------------------------------------
  // The parser

  /** The three `V/VT` tokens of a face line, one after another. */
  method ParseFaceTokens(fields: seq<string>) returns (r: Result<seq<Corner>, HolymError>)
    requires |fields| >= 4
    ensures r == ParseCorners(fields[1..4])
  {
    var face: seq<Corner> := [];
    assert Prepend([], ParseCorners(fields[1..4])) == ParseCorners(fields[1..4]) by {
      var r := ParseCorners(fields[1..4]);
      if r.Ok? { assert [] + r.value == r.value; }
    }
    var i := 0;
    while i < 3
      invariant 0 <= i <= 3 && |face| == i
      invariant ParseCorners(fields[1..4]) == Prepend(face, ParseCorners(fields[1 + i..4]))
    {
      assert fields[1 + i..4][0] == fields[i + 1] && fields[1 + i..4][1..] == fields[i + 2..4];
      var parts := Text.Split(fields[i + 1], '/');
      if |parts| != 2 {
        return Err(BadFaceToken(fields[i + 1]));
      }
      var vIdx := Text.Atoi(parts[0]);
      var vtIdx := Text.Atoi(parts[1]);
      var c := Corner(vIdx - 1, vtIdx - 1);
      ghost var rest := ParseCorners(fields[i + 2..4]);
      if rest.Ok? {
        assert face + ([c] + rest.value) == (face + [c]) + rest.value;
      }
      face := face + [c];
      i := i + 1;
    }
    assert fields[4..4] == [];
    assert face + [] == face;
    r := Ok(face);
  }

  /** The scanning loop. */
  method ScanHolym(lines: seq<string>, parseFloat: string -> real) returns (r: Result<Scan, HolymError>)
    ensures r == HolymScan(lines, parseFloat)
  {
    var positions: seq<Vec3> := [];
    var colors: seq<Vec3> := [];
    var texCoords: seq<Vec2> := [];
    var faces: seq<seq<Corner>> := [];
    var texturePath := "";
    var n := 0;
    while n < |lines|
      invariant 0 <= n <= |lines|
      invariant HolymScan(lines, parseFloat) ==
        ScanLines(Scan(positions, colors, texCoords, faces, texturePath), lines[n..], parseFloat)
    {
      assert lines[n..][0] == lines[n] && lines[n..][1..] == lines[n + 1..];
      ghost var s := Scan(positions, colors, texCoords, faces, texturePath);
      var fields := Text.Fields(lines[n]);
      if |fields| == 0 {
      } else if fields[0] == "v" {
        if |fields| >= 4 {
          var x, y, z := parseFloat(fields[1]), parseFloat(fields[2]), parseFloat(fields[3]);
          if |fields| == 7 && fields[4] == "c" {
            return Err(ColorIndexPanic);
          }
          positions := positions + [Vec3(x, y, z)];
          colors := colors + [White];
        }
      } else if fields[0] == "vt" {
        if |fields| >= 3 {
          var u, v := parseFloat(fields[1]), parseFloat(fields[2]);
          texCoords := texCoords + [Vec2(u, v)];
        }
      } else if fields[0] == "f" {
        if |fields| >= 4 {
          var face := ParseFaceTokens(fields);
          if face.Err? {
            return Err(face.error);
          }
          faces := faces + [face.value];
        }
      } else if fields[0] == "tex_path" {
        if |fields| >= 2 {
          texturePath := fields[1];
        }
      }
      assert ScanLine(s, lines[n], parseFloat) == Ok(Scan(positions, colors, texCoords, faces, texturePath));
      n := n + 1;
    }
    assert lines[n..] == [];
    r := Ok(Scan(positions, colors, texCoords, faces, texturePath));
  }

  /** The de-duplication state after the corners `done`: the eight floats
      of each distinct pair, their numbering, and vertexMap giving each seen
      pair its number. */
  ghost predicate DedupState(s: Scan, done: seq<Corner>, vertices: seq<real>, indices: seq<nat>, vertexMap: map<Corner, nat>) {
    Dedup.Built(done, VertexOf(s), 8, vertices, indices, vertexMap)
  }

  /** Three corners per face, in face order. */
  lemma {:induction false} FlattenAt(faces: seq<seq<Corner>>)
    requires forall f :: 0 <= f < |faces| ==> |faces[f]| == 3
    ensures |Flatten(faces)| == 3 * |faces|
    ensures forall f, i :: 0 <= f < |faces| && 0 <= i < 3 ==> Flatten(faces)[3 * f + i] == faces[f][i]
    decreases |faces|
  {
    if faces != [] {
      var n := |faces| - 1;
      var init := faces[..n];
      FlattenAt(init);
      var before := Flatten(init);
      assert Flatten(faces) == before + faces[n];
      forall f, i | 0 <= f < |faces| && 0 <= i < 3
        ensures Flatten(faces)[3 * f + i] == faces[f][i]
      {
        if f < n {
          assert 3 * f + i < 3 * n;
          assert init[f] == faces[f];
        } else {
          assert 3 * f + i == |before| + i;
        }
      }
    }
  }

  lemma FlattenLength(faces: seq<seq<Corner>>)
    requires forall g :: 0 <= g < |faces| ==> |faces[g]| == 3
    ensures |Flatten(faces)| == 3 * |faces|
  {
    FlattenAt(faces);
  }


  /** Splitting the corners into those of the faces done and those left:
      the next three left are face fi's, and moving them across keeps the
      split. */
  lemma NextFace(faces: seq<seq<Corner>>, done: seq<Corner>, rest: seq<Corner>, fi: nat)
    requires forall g :: 0 <= g < |faces| ==> |faces[g]| == 3
    requires done + rest == Flatten(faces) && |done| == 3 * fi && fi < |faces|
    ensures |rest| >= 3 && rest[..3] == faces[fi]
    ensures (done + faces[fi]) + rest[3..] == Flatten(faces)
  {
    FlattenAt(faces);
    var all := Flatten(faces);
    forall i | 0 <= i < 3
      ensures rest[i] == faces[fi][i]
    {
      assert all[3 * fi + i] == (done + rest)[|done| + i];
    }
  }

  lemma NoneLeft(done: seq<Corner>, rest: seq<Corner>, all: seq<Corner>)
    requires done + rest == all && |done| == |all|
    ensures done == all && rest == []
  {}

  /** A good corner at the front is skipped in the search for a bad one. */
  lemma FirstBadSkip(s: Scan, cs: seq<Corner>)
    requires cs != [] && CornerError(s, cs[0]) == None
    ensures FirstBadCorner(s, cs) == FirstBadCorner(s, cs[1..])
  {}

  /** The three appends of a new vertex add exactly its eight floats. */
  lemma AppendedVertex(s: Scan, vertices: seq<real>, key: Corner)
    requires InRange(s, key) && |s.colors| == |s.positions|
    ensures var p, c, t := s.positions[key.vertex], s.colors[key.vertex], s.texCoords[key.texCoord];
      vertices + [p.x, p.y, p.z] + [c.x, c.y, c.z] + [t.x, t.y] == vertices + VertexData(s, key)
  {}

  /** One corner: an out-of-range position or texture-coordinate index
      (checked in that order) is its error; otherwise the corner reuses the
      vertex number of a pair already seen, or appends the new vertex's
      eight floats and numbers it next. */
  method AddCorner(s: Scan, ghost done: seq<Corner>, vertices: seq<real>, indices: seq<nat>, vertexMap: map<Corner, nat>, corner: Corner)
    returns (err: Option<HolymError>, vertices': seq<real>, indices': seq<nat>, vertexMap': map<Corner, nat>)
    requires DedupState(s, done, vertices, indices, vertexMap) && |s.colors| == |s.positions|
    ensures err == CornerError(s, corner)
    ensures err.None? ==> DedupState(s, done + [corner], vertices', indices', vertexMap')
  {
    vertices', indices', vertexMap' := vertices, indices, vertexMap;
    var vIdx := corner.vertex;
    var vtIdx := corner.texCoord;
    if vIdx < 0 || vIdx >= |s.positions| {
      return Some(VertexIndexOutOfBounds(vIdx + 1)), vertices', indices', vertexMap';
    }
    if vtIdx < 0 || vtIdx >= |s.texCoords| {
      return Some(TexCoordIndexOutOfBounds(vtIdx + 1)), vertices', indices', vertexMap';
    }
    // colors has one entry per position, so the colour fallback for an
    // index past the colours cannot be taken
    var key := Corner(vIdx, vtIdx);
    assert key == corner;
    err := None;
    if key in vertexMap {
      Dedup.BuiltHit(done, VertexOf(s), 8, vertices, indices, vertexMap, key);
      indices' := indices + [vertexMap[key]];
    } else {
      var newIndex := |vertices| / 8;
      assert newIndex == |Dedup.Distinct(done)|;
      Dedup.BuiltMiss(done, VertexOf(s), 8, vertices, indices, vertexMap, key, newIndex);
      var pos, color, texCoord := s.positions[vIdx], s.colors[vIdx], s.texCoords[vtIdx];
      vertices' := vertices' + [pos.x, pos.y, pos.z];
      vertices' := vertices' + [color.x, color.y, color.z];
      vertices' := vertices' + [texCoord.x, texCoord.y];
      AppendedVertex(s, vertices, key);
      vertexMap' := vertexMap[key := newIndex];
      indices' := indices + [newIndex];
    }
  }

  lemma SeenStep(done: seq<Corner>, face: seq<Corner>, i: nat)
    requires i < |face|
    ensures (done + face[..i]) + [face[i]] == done + face[..i + 1]
  {
    assert face[..i + 1] == face[..i] + [face[i]];
  }

  /** The three corners of one face, in order: the first out-of-range
      index ends the build with its error; each good corner goes through
      AddCorner. `rest` is the face's corners followed by those of the
      faces after it. */
  method AddFace(s: Scan, face: seq<Corner>, ghost rest: seq<Corner>, ghost done: seq<Corner>,
                 vertices: seq<real>, indices: seq<nat>, vertexMap: map<Corner, nat>)
    returns (err: Option<HolymError>, vertices': seq<real>, indices': seq<nat>, vertexMap': map<Corner, nat>)
    requires |face| == 3 && |rest| >= 3 && rest[..3] == face
    requires DedupState(s, done, vertices, indices, vertexMap) && |s.colors| == |s.positions|
    ensures err.Some? ==> err == FirstBadCorner(s, rest)
    ensures err.None? ==> FirstBadCorner(s, rest) == FirstBadCorner(s, rest[3..])
    ensures err.None? ==> DedupState(s, done + face, vertices', indices', vertexMap')
  {
    vertices', indices', vertexMap' := vertices, indices, vertexMap;
    ghost var seen, left := done, rest;
    var i := 0;
    while i < 3
      invariant 0 <= i <= 3
      invariant seen == done + face[..i] && left == rest[i..]
      invariant FirstBadCorner(s, rest) == FirstBadCorner(s, left)
      invariant DedupState(s, seen, vertices', indices', vertexMap')
    {
      assert face[i] == left[0];
      var e;
      e, vertices', indices', vertexMap' := AddCorner(s, seen, vertices', indices', vertexMap', face[i]);
      if e.Some? {
        return e, vertices', indices', vertexMap';
      }
      FirstBadSkip(s, left);
      SeenStep(done, face, i);
      seen, left := seen + [face[i]], left[1..];
      i := i + 1;
    }
    assert face[..3] == face;
    err := None;
  }

  /** The de-duplicating loop over the faces' corners, keyed by the
      (position index, texture-coordinate index) pair; vertexMap holds the
      vertex number of every pair seen so far. */
  method BuildHolym(s: Scan) returns (r: Result<Mesh, HolymError>)
    requires forall f :: 0 <= f < |s.faces| ==> |s.faces[f]| == 3
    requires |s.colors| == |s.positions|
    ensures r == BuildMesh(s)
  {
    ghost var all := Flatten(s.faces);
    FlattenLength(s.faces);
    ghost var done: seq<Corner>, rest := [], all;
    var uniqueVertices: seq<real> := [];
    var indices: seq<nat> := [];
    var vertexMap: map<Corner, nat> := map[];
    Dedup.BuiltEmpty(VertexOf(s), 8);
    var fi := 0;
    while fi < |s.faces|
      invariant 0 <= fi <= |s.faces|
      invariant done + rest == all && |done| == 3 * fi
      invariant FirstBadCorner(s, all) == FirstBadCorner(s, rest)
      invariant DedupState(s, done, uniqueVertices, indices, vertexMap)
    {
      NextFace(s.faces, done, rest, fi);
      var err;
      err, uniqueVertices, indices, vertexMap := AddFace(s, s.faces[fi], rest, done, uniqueVertices, indices, vertexMap);
      if err.Some? {
        return Err(err.value);
      }
      done, rest := done + s.faces[fi], rest[3..];
      fi := fi + 1;
    }
    NoneLeft(done, rest, all);
    r := Ok(Mesh(uniqueVertices, indices, s.texturePath != "", s.texturePath));
  }

  /** parseHolym: the scanning loop, then the de-duplicating loop. */
  method ParseHolym(lines: seq<string>, parseFloat: string -> real) returns (r: Result<Mesh, HolymError>)
    ensures r == Holym(lines, parseFloat)
  {
    var scan := ScanHolym(lines, parseFloat);
    if scan.Err? {
      return Err(scan.error);
    }
    ScanLinesWellFormed(EmptyScan, lines, parseFloat);
    r := BuildHolym(scan.value);
  }

  // ---------------------------------------------------------------------
  // Properties of the scan

  /** What every scan state satisfies: triangles only, one colour per
      position, and every colour the default white. */
  ghost predicate WellFormedScan(s: Scan) {
    && (forall f :: 0 <= f < |s.faces| ==> |s.faces[f]| == 3)
    && |s.colors| == |s.positions|
    && (forall i :: 0 <= i < |s.colors| ==> s.colors[i] == White)
  }

  lemma ScanLineWellFormed(s: Scan, line: string, parseFloat: string -> real)
    requires WellFormedScan(s) && ScanLine(s, line, parseFloat).Ok?
    ensures WellFormedScan(ScanLine(s, line, parseFloat).value)
  {
    var t := ScanLine(s, line, parseFloat).value;
    if IsFaceLine(Text.Fields(line)) {
      forall f | 0 <= f < |t.faces|
        ensures |t.faces[f]| == 3
      {
        if f < |s.faces| { assert t.faces[f] == t.faces[..|s.faces|][f]; }
      }
    }
  }

  /** Scanning keeps WellFormedScan, so the de-duplicating loop's
      requirements always hold. */
  lemma {:induction false} ScanLinesWellFormed(s: Scan, lines: seq<string>, parseFloat: string -> real)
    requires WellFormedScan(s) && ScanLines(s, lines, parseFloat).Ok?
    ensures WellFormedScan(ScanLines(s, lines, parseFloat).value)
    decreases |lines|
  {
    if lines != [] {
      ScanLineWellFormed(s, lines[0], parseFloat);
      ScanLinesWellFormed(ScanLine(s, lines[0], parseFloat).value, lines[1..], parseFloat);
    }
  }

  /** The kind of a line, by its keyword and field count; a line that is none
      of the four (blank, too short, unknown keyword) is skipped. */
  datatype LineKind = VertexLine | TexCoordLine | FaceLine | TexPathLine | Skipped

  function Kind(line: string): LineKind {
    var fields := Text.Fields(line);
    if IsVertexLine(fields) then VertexLine
    else if IsTexCoordLine(fields) then TexCoordLine
    else if IsFaceLine(fields) then FaceLine
    else if IsTexPathLine(fields) then TexPathLine
    else Skipped
  }

  function CountKind(lines: seq<string>, k: LineKind): nat {
    if lines == [] then 0 else (if Kind(lines[0]) == k then 1 else 0) + CountKind(lines[1..], k)
  }

  /** A scan that succeeds has one position per `v` line, one texture
      coordinate per `vt` line and one face per `f` line. */
  lemma {:induction false} ScanLinesCounts(s: Scan, lines: seq<string>, parseFloat: string -> real)
    requires ScanLines(s, lines, parseFloat).Ok?
    ensures var t := ScanLines(s, lines, parseFloat).value;
      && |t.positions| == |s.positions| + CountKind(lines, VertexLine)
      && |t.texCoords| == |s.texCoords| + CountKind(lines, TexCoordLine)
      && |t.faces| == |s.faces| + CountKind(lines, FaceLine)
    decreases |lines|
  {
    if lines != [] {
      ScanLinesCounts(ScanLine(s, lines[0], parseFloat).value, lines[1..], parseFloat);
    }
  }

  /** The path of the last `tex_path` line, if there is one. */
  function LastTexPath(lines: seq<string>): Option<string> {
    if lines == [] then None
    else match LastTexPath(lines[1..])
      case Some(p) => Some(p)
      case None => if Kind(lines[0]) == TexPathLine then Some(Text.Fields(lines[0])[1]) else None
  }

  lemma {:induction false} ScanLinesTexPath(s: Scan, lines: seq<string>, parseFloat: string -> real)
    requires ScanLines(s, lines, parseFloat).Ok?
    ensures ScanLines(s, lines, parseFloat).value.texturePath ==
      match LastTexPath(lines) case Some(p) => p case None => s.texturePath
    decreases |lines|
  {
    if lines != [] {
      ScanLinesTexPath(ScanLine(s, lines[0], parseFloat).value, lines[1..], parseFloat);
    }
  }

  /** The first token of a list that is not exactly two parts around one '/'. */
  function FirstBadToken(tokens: seq<string>): Option<string> {
    if tokens == [] then None
    else if Text.Count(tokens[0], '/') != 1 then Some(tokens[0])
    else FirstBadToken(tokens[1..])
  }

  /** Face tokens fail exactly when one of them has no '/' or more than one,
      and the first such token is the one reported. */
  lemma {:induction false} ParseCornersFails(tokens: seq<string>)
    ensures ParseCorners(tokens).Err? <==> FirstBadToken(tokens).Some?
    ensures ParseCorners(tokens).Err? ==> ParseCorners(tokens).error == BadFaceToken(FirstBadToken(tokens).value)
    decreases |tokens|
  {
    if tokens != [] {
      ParseCornersFails(tokens[1..]);
    }
  }

  /** A face token written as `V/VT` from 1-based indices reads back as the
      0-based pair. */
  lemma FaceTokenRoundTrip(v: nat, t: nat)
    ensures ParseCorner(Text.Decimal(v + 1) + "/" + Text.Decimal(t + 1)) == Ok(Corner(v, t))
  {
    var a, b := Text.Decimal(v + 1), Text.Decimal(t + 1);
    Text.DigitsNoChar(a, '/');
    Text.DigitsNoChar(b, '/');
    Text.SplitTwo(a, '/', b);
    assert a + "/" + b == a + ['/'] + b;
    Text.AtoiDecimal(v + 1);
    Text.AtoiDecimal(t + 1);
  }

  /** The error a line raises, whatever the scan state before it. */
  function LineError(line: string): Option<HolymError> {
    var fields := Text.Fields(line);
    if IsColorPanicLine(fields) then Some(ColorIndexPanic)
    else if IsFaceLine(fields) && FirstBadToken(fields[1..4]).Some? then Some(BadFaceToken(FirstBadToken(fields[1..4]).value))
    else None
  }

  lemma ScanLineError(s: Scan, line: string, parseFloat: string -> real)
    ensures ScanLine(s, line, parseFloat).Err? <==> LineError(line).Some?
    ensures ScanLine(s, line, parseFloat).Err? ==> ScanLine(s, line, parseFloat).error == LineError(line).value
  {
    var fields := Text.Fields(line);
    if IsFaceLine(fields) {
      ParseCornersFails(fields[1..4]);
    }
  }

  /** The error of the first line that raises one. */
  function FirstLineError(lines: seq<string>): Option<HolymError> {
    if lines == [] then None
    else if LineError(lines[0]).Some? then LineError(lines[0])
    else FirstLineError(lines[1..])
  }

  /** Scanning fails exactly when some line raises an error, and with the
      first line's error: errors do not depend on what was read before. */
  lemma {:induction false} ScanLinesError(s: Scan, lines: seq<string>, parseFloat: string -> real)
    ensures ScanLines(s, lines, parseFloat).Err? <==> FirstLineError(lines).Some?
    ensures ScanLines(s, lines, parseFloat).Err? ==> ScanLines(s, lines, parseFloat).error == FirstLineError(lines).value
    decreases |lines|
  {
    if lines != [] {
      ScanLineError(s, lines[0], parseFloat);
      if ScanLine(s, lines[0], parseFloat).Ok? {
        ScanLinesError(ScanLine(s, lines[0], parseFloat).value, lines[1..], parseFloat);
      }
    }
  }

  /** No bad corner means every corner is in range; a bad corner is the
      error of the first corner out of range. */
  lemma {:induction false} FirstBadCornerIff(s: Scan, cs: seq<Corner>)
    ensures FirstBadCorner(s, cs) == None <==> forall k :: 0 <= k < |cs| ==> InRange(s, cs[k])
    ensures FirstBadCorner(s, cs).Some? ==>
      exists k :: 0 <= k < |cs| && CornerError(s, cs[k]) == FirstBadCorner(s, cs) &&
        forall j :: 0 <= j < k ==> InRange(s, cs[j])
    decreases |cs|
  {
    if cs != [] {
      FirstBadCornerIff(s, cs[1..]);
      if CornerError(s, cs[0]).None? && FirstBadCorner(s, cs[1..]).Some? {
        var k :| 0 <= k < |cs[1..]| && CornerError(s, cs[1..][k]) == FirstBadCorner(s, cs[1..]) &&
          forall j :: 0 <= j < k ==> InRange(s, cs[1..][j]);
        assert CornerError(s, cs[k + 1]) == FirstBadCorner(s, cs);
        forall j | 0 <= j < k + 1
          ensures InRange(s, cs[j])
        {
          if j > 0 { assert cs[j] == cs[1..][j - 1]; }
        }
      }
      if FirstBadCorner(s, cs) == None {
        forall k | 0 <= k < |cs|
          ensures InRange(s, cs[k])
        {
          if k > 0 { assert cs[k] == cs[1..][k - 1]; }
        }
      }
    }
  }

  // ---------------------------------------------------------------------
  // Properties of the parse

  /** Parsing fails with the first line error if there is one; otherwise
      the scan succeeds, and the parse succeeds exactly when every face
      corner indexes an existing position and texture coordinate. */
  lemma HolymFails(lines: seq<string>, parseFloat: string -> real)
    ensures FirstLineError(lines).Some? ==> Holym(lines, parseFloat) == Err(FirstLineError(lines).value)
    ensures FirstLineError(lines).None? ==> HolymScan(lines, parseFloat).Ok?
    ensures FirstLineError(lines).None? ==>
      (Holym(lines, parseFloat).Ok? <==> AllInRange(HolymScan(lines, parseFloat).value))
  {
    ScanLinesError(EmptyScan, lines, parseFloat);
    if FirstLineError(lines).None? {
      var s := HolymScan(lines, parseFloat).value;
      assert Holym(lines, parseFloat) == BuildMesh(s);
      FirstBadCornerIff(s, Flatten(s.faces));
    }
  }

  /** A `tex_path` value is a field, so it is never empty. */
  lemma {:induction false} LastTexPathNonEmpty(lines: seq<string>)
    ensures LastTexPath(lines).Some? ==> LastTexPath(lines).value != ""
    decreases |lines|
  {
    if lines != [] {
      LastTexPathNonEmpty(lines[1..]);
      var fields := Text.Fields(lines[0]);
      if |fields| >= 2 { assert Text.IsWord(fields[1]); }
    }
  }

  /** The buffers built from a well-formed scan: whole 8-float vertices,
      three indices per face, every index naming a vertex and every vertex
      named by some index. */
  lemma MeshBuffers(s: Scan, m: Mesh)
    requires WellFormedScan(s) && BuildMesh(s) == Ok(m)
    ensures |m.vertices| % 8 == 0
    ensures |m.indices| == 3 * |s.faces|
    ensures forall k :: 0 <= k < |m.indices| ==> m.indices[k] < |m.vertices| / 8
    ensures forall v :: 0 <= v < |m.vertices| / 8 ==> v in m.indices
    ensures m.texturePath == s.texturePath && (m.hasTexture <==> s.texturePath != "")
  {
    var corners := Flatten(s.faces);
    FlattenLength(s.faces);
    var d := Dedup.Distinct(corners);
    VertexOfLength(s, d);
    Dedup.ConcatLength(d, VertexOf(s), 8);
    assert |m.vertices| / 8 == |d|;
    Dedup.NumberingBounded(corners);
    forall v | 0 <= v < |m.vertices| / 8
      ensures v in m.indices
    {
      Dedup.NumberingOnto(corners, v);
    }
  }

  /** The buffers of a successful parse, in terms of the file: three
      indices per face line. */
  lemma HolymBuffers(lines: seq<string>, parseFloat: string -> real, m: Mesh)
    requires Holym(lines, parseFloat) == Ok(m)
    ensures |m.vertices| % 8 == 0
    ensures |m.indices| == 3 * CountKind(lines, FaceLine)
    ensures forall k :: 0 <= k < |m.indices| ==> m.indices[k] < |m.vertices| / 8
    ensures forall v :: 0 <= v < |m.vertices| / 8 ==> v in m.indices
  {
    var s := HolymScan(lines, parseFloat).value;
    assert BuildMesh(s) == Ok(m);
    ScanLinesWellFormed(EmptyScan, lines, parseFloat);
    ScanLinesCounts(EmptyScan, lines, parseFloat);
    MeshBuffers(s, m);
  }

  /** The texture of a successful parse is that of the last `tex_path`
      line; with none the mesh has no texture. */
  lemma HolymTexture(lines: seq<string>, parseFloat: string -> real, m: Mesh)
    requires Holym(lines, parseFloat) == Ok(m)
    ensures m.texturePath == match LastTexPath(lines) case Some(p) => p case None => ""
    ensures m.hasTexture <==> LastTexPath(lines).Some?
  {
    var s := HolymScan(lines, parseFloat).value;
    assert BuildMesh(s) == Ok(m);
    ScanLinesTexPath(EmptyScan, lines, parseFloat);
    LastTexPathNonEmpty(lines);
  }

  lemma VertexOfLength(s: Scan, d: seq<Corner>)
    ensures forall k :: 0 <= k < |d| ==> |VertexOf(s)(d[k])| == 8
  {}

  /** Corner k of a scan's faces: its index names the vertex built from
      the corner's own position and texture coordinate. */
  lemma MeshCorner(s: Scan, m: Mesh, k: nat)
    requires BuildMesh(s) == Ok(m) && k < |Flatten(s.faces)|
    ensures InRange(s, Flatten(s.faces)[k])
    ensures k < |m.indices| && 8 * m.indices[k] + 8 <= |m.vertices|
    ensures m.vertices[8 * m.indices[k]..8 * m.indices[k] + 8] == VertexData(s, Flatten(s.faces)[k])
  {
    var corners, f := Flatten(s.faces), VertexOf(s);
    BuiltInRange(s, m, k);
    MeshOf(s, m);
    CornerBlock(s, corners, k);
    assert f(corners[k]) == VertexData(s, corners[k]);
  }

  /** Every corner of a built mesh is in range. */
  lemma BuiltInRange(s: Scan, m: Mesh, k: nat)
    requires BuildMesh(s) == Ok(m) && k < |Flatten(s.faces)|
    ensures InRange(s, Flatten(s.faces)[k])
  {
    MeshOf(s, m);
    FirstBadCornerIff(s, Flatten(s.faces));
  }

  /** The block numbered for corner k is the corner's vertex data. */
  lemma CornerBlock(s: Scan, corners: seq<Corner>, k: nat)
    requires k < |corners|
    ensures 0 <= 8 * Dedup.Numbering(corners)[k]
    ensures 8 * Dedup.Numbering(corners)[k] + 8 <= |Dedup.Concat(Dedup.Distinct(corners), VertexOf(s))|
    ensures Dedup.Concat(Dedup.Distinct(corners), VertexOf(s))[8 * Dedup.Numbering(corners)[k]..8 * Dedup.Numbering(corners)[k] + 8]
      == VertexOf(s)(corners[k])
  {
    var f, ds := VertexOf(s), Dedup.Distinct(corners);
    forall j | 0 <= j < |ds|
      ensures |f(ds[j])| == 8
    {
      assert f(ds[j]) == VertexData(s, ds[j]);
    }
    Dedup.NumberedBlock(corners, f, 8, k);
  }

  /** A built mesh: no corner is out of range, and the buffers are those
      of the corners. */
  lemma MeshOf(s: Scan, m: Mesh)
    requires BuildMesh(s) == Ok(m)
    ensures FirstBadCorner(s, Flatten(s.faces)) == None
    ensures m.vertices == Dedup.Concat(Dedup.Distinct(Flatten(s.faces)), VertexOf(s))
    ensures m.indices == Dedup.Numbering(Flatten(s.faces))
  {}

  /** In a well-formed scan a vertex is its position, white, and its
      texture coordinate. */
  lemma VertexDataWhite(s: Scan, c: Corner)
    requires WellFormedScan(s) && InRange(s, c)
    ensures var p, t := s.positions[c.vertex], s.texCoords[c.texCoord];
      VertexData(s, c) == [p.x, p.y, p.z, 1.0, 1.0, 1.0, t.x, t.y]
  {
    assert s.colors[c.vertex] == White;
  }

  /** Face corner k of a file, counting corners in file order. */
  lemma HolymCorner(lines: seq<string>, parseFloat: string -> real, m: Mesh, k: nat)
    requires Holym(lines, parseFloat) == Ok(m) && k < |m.indices|
    ensures var s := HolymScan(lines, parseFloat).value;
      var c := Flatten(s.faces)[k];
      && InRange(s, c)
      && 8 * m.indices[k] + 8 <= |m.vertices|
      && var p, t := s.positions[c.vertex], s.texCoords[c.texCoord];
         m.vertices[8 * m.indices[k]..8 * m.indices[k] + 8] == [p.x, p.y, p.z, 1.0, 1.0, 1.0, t.x, t.y]
  {
    var s := HolymScan(lines, parseFloat).value;
    assert BuildMesh(s) == Ok(m);
    ScanLinesWellFormed(EmptyScan, lines, parseFloat);
    FlattenLength(s.faces);
    MeshCorner(s, m, k);
    VertexDataWhite(s, Flatten(s.faces)[k]);
  }

  /** Two corners share a vertex exactly when they have the same position
      and texture-coordinate indices; a pair's first corner gets the next
      vertex number, so vertices are numbered in order of first use. */
  lemma HolymSharing(lines: seq<string>, parseFloat: string -> real, m: Mesh, i: nat, j: nat)
    requires Holym(lines, parseFloat) == Ok(m) && i < |m.indices| && j < |m.indices|
    ensures var corners := Flatten(HolymScan(lines, parseFloat).value.faces);
      && (m.indices[i] == m.indices[j] <==> corners[i] == corners[j])
      && (corners[i] !in corners[..i] ==> m.indices[i] == |Dedup.Distinct(corners[..i])|)
  {
    var s := HolymScan(lines, parseFloat).value;
    assert BuildMesh(s) == Ok(m);
    var corners := Flatten(s.faces);
    Dedup.NumberingSharesIff(corners, i, j);
    if corners[i] !in corners[..i] {
      Dedup.NumberingFirstOccurrence(corners, i);
    }
  }
}
