/** holy-spinning-models: an OBJ model viewer. The model's faces are turned
    into an interleaved vertex buffer (position, texture coordinate) with
    one vertex per distinct (position, uv) value; the model spins on its own
    until R switches to turning it by left-drag; V toggles vsync, G reloads
    a model from a directory, right-drag looks around and WASD moves. The
    OBJ parser is not modelled: its positions, texture coordinates and
    faces are taken as given. */
module Spinning {
  import opened Vectors
  import opened Outcomes
  import Dedup
  import Camera

  const ScreenWidth: nat := 800
  const ScreenHeight: nat := 600
  /** Units per second of WASD movement. */
  const CameraSpeed: real := 250.0
  const ZoomSensitivity: real := 0.5
  /** Degrees per second of the automatic rotation about Y and about X. */
  const AutoRateY: real := 50.0
  const AutoRateX: real := 25.0

  // ---------------------------------------------------------------------
  // The vertex buffer

  /** The de-duplication key: a vertex by value. */
  datatype ObjVertex = ObjVertex(pos: Vec3, texCoord: Vec2)

  /** A face as the OBJ parser gives it: position and texture-coordinate
      indices, 0-based. */
  datatype Face = Face(vertices: seq<int>, texCoords: seq<int>)

  datatype ObjModel = ObjModel(positions: seq<Vec3>, texCoords: seq<Vec2>, faces: seq<Face>)

  datatype Buffers = Buffers(vertices: seq<real>, indices: seq<nat>)

  /** Only triangles are drawn. */
  predicate IsTriangle(f: Face) {
    |f.vertices| == 3
  }

  /** What the loop indexes without a check, for a triangle: three
      texture-coordinate entries and three position indices in range. */
  predicate Indexable(m: ObjModel, f: Face) {
    IsTriangle(f) ==> |f.texCoords| >= 3 && forall i :: 0 <= i < 3 ==> 0 <= f.vertices[i] < |m.positions|
  }

  predicate AllIndexable(m: ObjModel, fs: seq<Face>) {
    forall k :: 0 <= k < |fs| ==> Indexable(m, fs[k])
  }

  /** The uv of a texture-coordinate index: (0, 0) when it is out of range. */
  function Uv(m: ObjModel, t: int): Vec2 {
    if 0 <= t < |m.texCoords| then m.texCoords[t] else Vec2(0.0, 0.0)
  }

  /** Corner i of a triangle, by value. */
  function CornerVertex(m: ObjModel, f: Face, i: nat): ObjVertex
    requires IsTriangle(f) && Indexable(m, f) && i < 3
  {
    ObjVertex(m.positions[f.vertices[i]], Uv(m, f.texCoords[i]))
  }

  /** The corners of a face: three for a triangle, none for any other face. */
  function FaceKeys(m: ObjModel, f: Face): seq<ObjVertex>
    requires Indexable(m, f)
  {
    if IsTriangle(f) then [CornerVertex(m, f, 0), CornerVertex(m, f, 1), CornerVertex(m, f, 2)] else []
  }

  /** The corners of a run of faces, in order. */
  function KeysOf(m: ObjModel, fs: seq<Face>): seq<ObjVertex>
    requires AllIndexable(m, fs)
  {
    if fs == [] then [] else KeysOf(m, fs[..|fs| - 1]) + FaceKeys(m, fs[|fs| - 1])
  }

  function TriangleCount(fs: seq<Face>): nat {
    if fs == [] then 0 else TriangleCount(fs[..|fs| - 1]) + if IsTriangle(fs[|fs| - 1]) then 1 else 0
  }

  /** The triangles of a run of faces, in order. */
  function Triangles(fs: seq<Face>): (r: seq<Face>)
    ensures forall k :: 0 <= k < |r| ==> r[k] in fs && IsTriangle(r[k])
  {
    if fs == [] then []
    else
      var init := fs[..|fs| - 1];
      assert forall k :: 0 <= k < |init| ==> init[k] == fs[k];
      Triangles(init) + if IsTriangle(fs[|fs| - 1]) then [fs[|fs| - 1]] else []
  }

  /** The five floats of a vertex: position, then uv. */
  function VertexFloats(v: ObjVertex): seq<real> {
    [v.pos.x, v.pos.y, v.pos.z, v.texCoord.x, v.texCoord.y]
  }

  /** The buffers of a model: one vertex per distinct corner value in order
      of first use, and each corner's index the number of its value. */
  function ModelBuffers(m: ObjModel): Buffers
    requires AllIndexable(m, m.faces)
  {
    var ks := KeysOf(m, m.faces);
    Buffers(Dedup.Concat(Dedup.Distinct(ks), VertexFloats), Dedup.Numbering(ks))
  }

  // ---------------------------------------------------------------------
  // The loop of loadAndSetupModel

  /** The loop state after the corners `done`: the buffers so far, and
      currentIdx the number of distinct corners. */
  ghost predicate Loop(done: seq<ObjVertex>, vertices: seq<real>, indices: seq<nat>,
                       vertexMap: map<ObjVertex, nat>, currentIdx: nat)
  {
    Dedup.Built(done, VertexFloats, 5, vertices, indices, vertexMap) && currentIdx == |Dedup.Distinct(done)|
  }

  lemma CountSnoc(done: seq<ObjVertex>, v: ObjVertex)
    ensures |Dedup.Distinct(done + [v])| == |Dedup.Distinct(done)| + if v in Dedup.Distinct(done) then 0 else 1
  {
    Dedup.DistinctSnoc(done, v);
  }

  /** One corner: a value seen before reuses its index; a new one is
      numbered currentIdx and its five floats are appended. */
  method AddVertex(ghost done: seq<ObjVertex>, v: ObjVertex,
                   vertices: seq<real>, indices: seq<nat>, vertexMap: map<ObjVertex, nat>, currentIdx: nat)
    returns (vertices': seq<real>, indices': seq<nat>, vertexMap': map<ObjVertex, nat>, currentIdx': nat)
    requires Loop(done, vertices, indices, vertexMap, currentIdx)
    ensures Loop(done + [v], vertices', indices', vertexMap', currentIdx')
  {
    CountSnoc(done, v);
    if v in vertexMap {
      Dedup.BuiltHit(done, VertexFloats, 5, vertices, indices, vertexMap, v);
      vertices', indices', vertexMap', currentIdx' := vertices, indices + [vertexMap[v]], vertexMap, currentIdx;
    } else {
      Dedup.BuiltMiss(done, VertexFloats, 5, vertices, indices, vertexMap, v, currentIdx);
      vertexMap' := vertexMap[v := currentIdx];
      indices' := indices + [currentIdx];
      vertices' := vertices + [v.pos.x, v.pos.y, v.pos.z];
      vertices' := vertices' + [v.texCoord.x, v.texCoord.y];
      AppendedFloats(vertices, v);
      currentIdx' := currentIdx + 1;
    }
  }

  lemma AppendedFloats(vertices: seq<real>, v: ObjVertex)
    ensures vertices + [v.pos.x, v.pos.y, v.pos.z] + [v.texCoord.x, v.texCoord.y] == vertices + VertexFloats(v)
  {
  }

  lemma SeenStep(done: seq<ObjVertex>, keys: seq<ObjVertex>, i: nat)
    requires i < |keys|
    ensures (done + keys[..i]) + [keys[i]] == done + keys[..i + 1]
  {
    assert keys[..i + 1] == keys[..i] + [keys[i]];
  }

  /** Corner i of a triangle by value; the uv falls back to (0, 0) for a
      texture-coordinate index out of range. */
  method ReadCorner(m: ObjModel, face: Face, i: nat) returns (v: ObjVertex)
    requires IsTriangle(face) && Indexable(m, face) && i < 3
    ensures v == CornerVertex(m, face, i)
    ensures v.pos == m.positions[face.vertices[i]]
    ensures 0 <= face.texCoords[i] < |m.texCoords| ==> v.texCoord == m.texCoords[face.texCoords[i]]
    ensures !(0 <= face.texCoords[i] < |m.texCoords|) ==> v.texCoord == Vec2(0.0, 0.0)
  {
    var vertexIdx := face.vertices[i];
    var texCoordIdx := face.texCoords[i];
    var pos := m.positions[vertexIdx];
    var uv := Vec2(0.0, 0.0);
    if 0 <= texCoordIdx < |m.texCoords| {
      uv := m.texCoords[texCoordIdx];
    }
    v := ObjVertex(pos, uv);
  }

  /** The three corners of a triangle, in order. */
  method AddTriangle(m: ObjModel, face: Face, ghost done: seq<ObjVertex>,
                     vertices: seq<real>, indices: seq<nat>, vertexMap: map<ObjVertex, nat>, currentIdx: nat)
    returns (vertices': seq<real>, indices': seq<nat>, vertexMap': map<ObjVertex, nat>, currentIdx': nat)
    requires IsTriangle(face) && Indexable(m, face)
    requires Loop(done, vertices, indices, vertexMap, currentIdx)
    ensures Loop(done + FaceKeys(m, face), vertices', indices', vertexMap', currentIdx')
  {
    vertices', indices', vertexMap', currentIdx' := vertices, indices, vertexMap, currentIdx;
    ghost var keys := FaceKeys(m, face);
    ghost var seen := done;
    var i := 0;
    while i < 3
      invariant 0 <= i <= 3 && seen == done + keys[..i]
      invariant Loop(seen, vertices', indices', vertexMap', currentIdx')
    {
      var v := ReadCorner(m, face, i);
      FaceKeysAt(m, face, i);
      vertices', indices', vertexMap', currentIdx' := AddVertex(seen, v, vertices', indices', vertexMap', currentIdx');
      SeenStep(done, keys, i);
      seen := seen + [v];
      i := i + 1;
    }
    assert keys[..3] == keys;
  }

  lemma FaceKeysAt(m: ObjModel, face: Face, i: nat)
    requires IsTriangle(face) && Indexable(m, face) && i < 3
    ensures |FaceKeys(m, face)| == 3 && FaceKeys(m, face)[i] == CornerVertex(m, face, i)
  {
    if i == 0 {} else if i == 1 {} else {}
  }

  /** The corners of the faces before n, then those of face n. */
  lemma KeysStep(m: ObjModel, fs: seq<Face>, n: nat)
    requires AllIndexable(m, fs) && n < |fs|
    ensures AllIndexable(m, fs[..n]) && AllIndexable(m, fs[..n + 1])
    ensures KeysOf(m, fs[..n + 1]) == KeysOf(m, fs[..n]) + FaceKeys(m, fs[n])
  {
    assert fs[..n + 1][..n] == fs[..n];
  }

  /** The de-duplicating loop of loadAndSetupModel over the faces: faces
      other than triangles are skipped; currentIdx counts the vertices. */
  method BuildBuffers(m: ObjModel) returns (vertices: seq<real>, indices: seq<nat>, currentIdx: nat)
    requires AllIndexable(m, m.faces)
    ensures Buffers(vertices, indices) == ModelBuffers(m)
    ensures currentIdx == |Dedup.Distinct(KeysOf(m, m.faces))|
  {
    vertices, indices, currentIdx := [], [], 0;
    var vertexMap: map<ObjVertex, nat> := map[];
    Dedup.BuiltEmpty(VertexFloats, 5);
    ghost var done: seq<ObjVertex> := [];
    var fi := 0;
    while fi < |m.faces|
      invariant 0 <= fi <= |m.faces|
      invariant AllIndexable(m, m.faces[..fi]) && done == KeysOf(m, m.faces[..fi])
      invariant Loop(done, vertices, indices, vertexMap, currentIdx)
    {
      var face := m.faces[fi];
      KeysStep(m, m.faces, fi);
      if IsTriangle(face) {
        vertices, indices, vertexMap, currentIdx := AddTriangle(m, face, done, vertices, indices, vertexMap, currentIdx);
        done := done + FaceKeys(m, face);
      } else {
        assert done + FaceKeys(m, face) == done;
      }
      fi := fi + 1;
    }
    assert m.faces[..fi] == m.faces;
  }

  // ---------------------------------------------------------------------
  // Properties of the buffers

  /** Three corners per triangle. */
  lemma {:induction false} KeysLength(m: ObjModel, fs: seq<Face>)
    requires AllIndexable(m, fs)
    ensures |KeysOf(m, fs)| == 3 * TriangleCount(fs)
    decreases |fs|
  {
    if fs != [] {
      KeysLength(m, fs[..|fs| - 1]);
    }
  }

  /** len(vertices) is five floats per vertex, there are three indices per
      triangle, every index names a vertex and every vertex is used. */
  lemma BuffersShape(m: ObjModel)
    requires AllIndexable(m, m.faces)
    ensures var b := ModelBuffers(m);
      && |b.vertices| == 5 * |Dedup.Distinct(KeysOf(m, m.faces))|
      && |b.indices| == 3 * TriangleCount(m.faces)
      && (forall k :: 0 <= k < |b.indices| ==> b.indices[k] < |b.vertices| / 5)
      && (forall v :: 0 <= v < |b.vertices| / 5 ==> v in b.indices)
  {
    var ks := KeysOf(m, m.faces);
    var d := Dedup.Distinct(ks);
    var b := ModelBuffers(m);
    Dedup.ConcatLength(d, VertexFloats, 5);
    assert |b.vertices| / 5 == |d|;
    KeysLength(m, m.faces);
    Dedup.NumberingBounded(ks);
    forall v | 0 <= v < |b.vertices| / 5
      ensures v in b.indices
    {
      Dedup.NumberingOnto(ks, v);
    }
  }

  /** Faces other than triangles contribute nothing: the buffers are those
      of the triangles alone. */
  lemma SkipNonTriangles(m: ObjModel)
    requires AllIndexable(m, m.faces)
    ensures AllIndexable(m, Triangles(m.faces))
    ensures ModelBuffers(m) == ModelBuffers(m.(faces := Triangles(m.faces)))
  {
    var m' := m.(faces := Triangles(m.faces));
    TrianglesKeys(m, m.faces);
    KeysSameData(m, m', m'.faces);
  }

  /** The corners depend on the model's positions and texture coordinates,
      not on its own faces. */
  lemma {:induction false} KeysSameData(m: ObjModel, m': ObjModel, fs: seq<Face>)
    requires m.positions == m'.positions && m.texCoords == m'.texCoords
    requires AllIndexable(m, fs)
    ensures AllIndexable(m', fs) && KeysOf(m', fs) == KeysOf(m, fs)
    decreases |fs|
  {
    if fs != [] {
      KeysSameData(m, m', fs[..|fs| - 1]);
    }
  }

  lemma {:induction false} TrianglesKeys(m: ObjModel, fs: seq<Face>)
    requires AllIndexable(m, fs)
    ensures AllIndexable(m, Triangles(fs))
    ensures KeysOf(m, Triangles(fs)) == KeysOf(m, fs)
    decreases |fs|
  {
    if fs != [] {
      var init, last := fs[..|fs| - 1], fs[|fs| - 1];
      TrianglesKeys(m, init);
      var t := Triangles(init);
      if IsTriangle(last) {
        assert Triangles(fs) == t + [last];
        assert (t + [last])[..|t|] == t;
      } else {
        assert Triangles(fs) == t + [];
        assert t + [] == t;
      }
    }
  }

  /** The corners of the first n faces come first. */
  lemma {:induction false} KeysPrefix(m: ObjModel, fs: seq<Face>, n: nat)
    requires AllIndexable(m, fs) && n <= |fs|
    ensures AllIndexable(m, fs[..n])
    ensures KeysOf(m, fs[..n]) <= KeysOf(m, fs)
    decreases |fs| - n
  {
    if n < |fs| {
      KeysPrefix(m, fs, n + 1);
      KeysStep(m, fs, n);
    } else {
      assert fs[..n] == fs;
    }
  }

  /** The place of corner i of face k among the corners. */
  function CornerPlace(fs: seq<Face>, k: nat, i: nat): nat
    requires k <= |fs|
  {
    3 * TriangleCount(fs[..k]) + i
  }

  /** Corner i of triangle k sits at CornerPlace among the corners. */
  lemma CornerAt(m: ObjModel, k: nat, i: nat)
    requires AllIndexable(m, m.faces) && k < |m.faces| && IsTriangle(m.faces[k]) && i < 3
    ensures CornerPlace(m.faces, k, i) < |KeysOf(m, m.faces)|
    ensures KeysOf(m, m.faces)[CornerPlace(m.faces, k, i)] == CornerVertex(m, m.faces[k], i)
  {
    var fs := m.faces;
    KeysPrefix(m, fs, k + 1);
    KeysStep(m, fs, k);
    KeysLength(m, fs[..k]);
    var before := KeysOf(m, fs[..k]);
    assert KeysOf(m, fs[..k + 1]) == before + FaceKeys(m, fs[k]);
    FaceKeysAt(m, fs[k], i);
    assert (before + FaceKeys(m, fs[k]))[|before| + i] == FaceKeys(m, fs[k])[i];
  }

  /** The vertex a triangle corner's index names holds the corner's
      position and its uv, (0, 0) when the texture-coordinate index is out
      of range. */
  lemma CornerData(m: ObjModel, k: nat, i: nat)
    requires AllIndexable(m, m.faces) && k < |m.faces| && IsTriangle(m.faces[k]) && i < 3
    ensures var b := ModelBuffers(m);
      var c := CornerPlace(m.faces, k, i);
      var f := m.faces[k];
      var p := m.positions[f.vertices[i]];
      var t := f.texCoords[i];
      var uv := if 0 <= t < |m.texCoords| then m.texCoords[t] else Vec2(0.0, 0.0);
      && c < |b.indices|
      && 5 * b.indices[c] + 5 <= |b.vertices|
      && b.vertices[5 * b.indices[c]..5 * b.indices[c] + 5] == [p.x, p.y, p.z, uv.x, uv.y]
  {
    CornerAt(m, k, i);
    Dedup.NumberedBlock(KeysOf(m, m.faces), VertexFloats, 5, CornerPlace(m.faces, k, i));
  }

  /** The map is keyed by value: two triangle corners share an index
      exactly when their positions and uvs are equal, whatever their
      position indices. */
  lemma ValueSharing(m: ObjModel, k1: nat, i1: nat, k2: nat, i2: nat)
    requires AllIndexable(m, m.faces)
    requires k1 < |m.faces| && IsTriangle(m.faces[k1]) && i1 < 3
    requires k2 < |m.faces| && IsTriangle(m.faces[k2]) && i2 < 3
    ensures var b := ModelBuffers(m);
      var c1, c2 := CornerPlace(m.faces, k1, i1), CornerPlace(m.faces, k2, i2);
      var f1, f2 := m.faces[k1], m.faces[k2];
      && c1 < |b.indices| && c2 < |b.indices|
      && (b.indices[c1] == b.indices[c2] <==>
          m.positions[f1.vertices[i1]] == m.positions[f2.vertices[i2]] &&
          Uv(m, f1.texCoords[i1]) == Uv(m, f2.texCoords[i2]))
  {
    CornerAt(m, k1, i1);
    CornerAt(m, k2, i2);
    Dedup.NumberingSharesIff(KeysOf(m, m.faces), CornerPlace(m.faces, k1, i1), CornerPlace(m.faces, k2, i2));
  }

  // ---------------------------------------------------------------------
  // The viewer

  /** The keys processInput samples after the events, level-triggered. */
  datatype Keys = Keys(escape: bool, v: bool, r: bool, g: bool, w: bool, a: bool, s: bool, d: bool)

  /** A window event; a cursor event carries the mouse buttons' state as
      GetMouseButton reports it at that moment. */
  datatype Event =
    | CursorPos(xpos: real, ypos: real, leftDown: bool, rightDown: bool)
    | Scroll(yoff: real)
    | FramebufferSize(width: nat, height: nat)

  predicate EventOk(e: Event) {
    e.FramebufferSize? ==> e.width > 0 && e.height > 0
  }

  /** Indices that name vertices of five floats each. */
  predicate MeshShape(vertices: seq<real>, indices: seq<nat>) {
    |vertices| % 5 == 0 && forall k :: 0 <= k < |indices| ==> indices[k] < |vertices| / 5
  }

  /** The buffers of a model are well shaped. */
  lemma ModelMeshShape(m: ObjModel)
    requires AllIndexable(m, m.faces)
    ensures MeshShape(ModelBuffers(m).vertices, ModelBuffers(m).indices)
  {
    BuffersShape(m);
    var n := |Dedup.Distinct(KeysOf(m, m.faces))|;
    assert (5 * n) % 5 == 0;
  }

  class Viewer {
    var width: nat
    var height: nat
    var running: bool
    var vertices: seq<real>
    var indices: seq<nat>
    /** The model's rotation about X and about Y, in radians. */
    var totalRotationX: real
    var totalRotationY: real
    /** vsyncEnabled and vKeyWasPressed. */
    var vsync: Camera.Toggle
    /** rotationEnabled and rKeyWasPressed. */
    var rotation: Camera.Toggle
    var gKeyWasPressed: bool
    var cameraPos: Vec3
    var cameraFront: Vec3
    var cameraUp: Vec3
    var zoomLevel: real
    /** Yaw and pitch in degrees with the last cursor sample, shared by
        the manual rotation and the right-drag look. */
    var look: Camera.Look
    /** The first-sample flag of the manual rotation. */
    var firstMouse: bool
    /** The first-sample flag of the right-drag look. */
    var rightMouseButtonPressed: bool

    /** The normalised view direction for a yaw and pitch in degrees. */
    const frontOf: (real, real) -> Vec3
    /** mgl32's Vec3.Normalize. */
    const normalize: Vec3 -> Vec3

    ghost predicate Valid()
      reads this`look, this`cameraFront, this`width, this`height, this`vertices, this`indices
    {
      && -Camera.PitchLimit <= look.pitch <= Camera.PitchLimit
      && cameraFront == frontOf(look.yaw, look.pitch)
      && width > 0 && height > 0
      && MeshShape(vertices, indices)
    }

    /** initApp with the default model loaded: an 800 x 600 window with
        vsync on, the camera at (0, 0, 5) looking down -Z, the model
        unrotated and spinning. */
    constructor (frontOf: (real, real) -> Vec3, normalize: Vec3 -> Vec3, model: ObjModel)
      requires AllIndexable(model, model.faces)
      ensures Valid()
      ensures width == ScreenWidth && height == ScreenHeight && running
      ensures Buffers(vertices, indices) == ModelBuffers(model)
      ensures totalRotationX == 0.0 && totalRotationY == 0.0
      ensures vsync == Camera.Toggle(true, false) && rotation == Camera.Toggle(true, false) && !gKeyWasPressed
      ensures cameraPos == Vec3(0.0, 0.0, 5.0) && cameraFront == frontOf(-90.0, 0.0) && cameraUp == Vec3(0.0, 1.0, 0.0)
      ensures zoomLevel == 5.0 && look == Camera.Look(-90.0, 0.0, 0.0, 0.0) && firstMouse && !rightMouseButtonPressed
      ensures this.frontOf == frontOf && this.normalize == normalize
    {
      var vs, ixs, n := BuildBuffers(model);
      ModelMeshShape(model);
      this.frontOf := frontOf;
      this.normalize := normalize;
      width := ScreenWidth;
      height := ScreenHeight;
      running := true;
      vertices := vs;
      indices := ixs;
      totalRotationX := 0.0;
      totalRotationY := 0.0;
      vsync := Camera.Toggle(true, false);
      rotation := Camera.Toggle(true, false);
      gKeyWasPressed := false;
      cameraPos := Vec3(0.0, 0.0, 5.0);
      cameraFront := frontOf(-90.0, 0.0);
      cameraUp := Vec3(0.0, 1.0, 0.0);
      zoomLevel := 5.0;
      look := Camera.Look(-90.0, 0.0, 0.0, 0.0);
      firstMouse := true;
      rightMouseButtonPressed := false;
    }

    // --- the callbacks ---

    /** The cursor callback. With the automatic rotation off and the left
        button down the drag turns the model (degrees of mouse travel times
        the sensitivity, in radians); else with the right button down it
        turns the camera, the pitch clamped to [-89, 89]; else both
        first-sample flags are re-armed. */
    method OnCursorPos(xpos: real, ypos: real, leftDown: bool, rightDown: bool)
      requires Valid()
      modifies this`look, this`firstMouse, this`rightMouseButtonPressed, this`cameraFront,
        this`totalRotationX, this`totalRotationY
      ensures Valid()
      ensures !old(rotation.on) && leftDown ==>
        var lastX := if old(firstMouse) then xpos else old(look.lastX);
        var lastY := if old(firstMouse) then ypos else old(look.lastY);
        && look == old(look).(lastX := xpos, lastY := ypos) && !firstMouse
        && rightMouseButtonPressed == old(rightMouseButtonPressed)
        && totalRotationY == old(totalRotationY) + Camera.DegToRad((xpos - lastX) * Camera.MouseSensitivity)
        && totalRotationX == old(totalRotationX) + Camera.DegToRad((lastY - ypos) * Camera.MouseSensitivity)
      ensures !(!old(rotation.on) && leftDown) && rightDown ==>
        && look == Camera.LookStep(old(look), !old(rightMouseButtonPressed), xpos, ypos)
        && rightMouseButtonPressed && firstMouse == old(firstMouse)
        && totalRotationX == old(totalRotationX) && totalRotationY == old(totalRotationY)
      ensures !(!old(rotation.on) && leftDown) && !rightDown ==>
        && look == old(look) && firstMouse && !rightMouseButtonPressed
        && totalRotationX == old(totalRotationX) && totalRotationY == old(totalRotationY)
    {
      if !rotation.on && leftDown {
        var lastX := look.lastX;
        var lastY := look.lastY;
        if firstMouse {
          lastX, lastY := xpos, ypos;
          firstMouse := false;
        }
        var xoffset := (xpos - lastX) * Camera.MouseSensitivity;
        var yoffset := (lastY - ypos) * Camera.MouseSensitivity;
        look := look.(lastX := xpos, lastY := ypos);
        totalRotationY := totalRotationY + Camera.DegToRad(xoffset);
        totalRotationX := totalRotationX + Camera.DegToRad(yoffset);
      } else if rightDown {
        var lastX := look.lastX;
        var lastY := look.lastY;
        if !rightMouseButtonPressed {
          lastX, lastY := xpos, ypos;
          rightMouseButtonPressed := true;
        }
        var xoffset := (xpos - lastX) * Camera.MouseSensitivity;
        var yoffset := (lastY - ypos) * Camera.MouseSensitivity;
        var pitch := Camera.ClampPitch(look.pitch + yoffset);
        look := Camera.Look(look.yaw + xoffset, pitch, xpos, ypos);
        cameraFront := frontOf(look.yaw, look.pitch);
      } else {
        firstMouse := true;
        rightMouseButtonPressed := false;
      }
    }

    /** The scroll callback: the zoom level moves by half the wheel offset,
        and the view direction is recomputed (which leaves it as it was). */
    method OnScroll(yoff: real)
      requires Valid()
      modifies this`zoomLevel, this`cameraFront
      ensures Valid()
      ensures zoomLevel == old(zoomLevel) - yoff * ZoomSensitivity && cameraFront == old(cameraFront)
    {
      zoomLevel := zoomLevel - yoff * ZoomSensitivity;
      cameraFront := frontOf(look.yaw, look.pitch);
    }

    /** The framebuffer-size callback: the new size. */
    method OnFramebufferSize(w: nat, h: nat)
      requires Valid() && w > 0 && h > 0
      modifies this`width, this`height
      ensures Valid()
      ensures width == w && height == h
    {
      width := w;
      height := h;
    }

    /** One event, to its callback. */
    method Dispatch(e: Event)
      requires Valid() && EventOk(e)
      modifies this`look, this`firstMouse, this`rightMouseButtonPressed, this`cameraFront,
        this`totalRotationX, this`totalRotationY, this`zoomLevel, this`width, this`height
      ensures Valid()
    {
      match e
      case CursorPos(x, y, l, r) => OnCursorPos(x, y, l, r);
      case Scroll(yo) => OnScroll(yo);
      case FramebufferSize(w, h) => OnFramebufferSize(w, h);
    }

    /** glfw.PollEvents: every queued event through its callback, in order. */
    method PollEvents(events: seq<Event>)
      requires Valid()
      requires forall k :: 0 <= k < |events| ==> EventOk(events[k])
      modifies this`look, this`firstMouse, this`rightMouseButtonPressed, this`cameraFront,
        this`totalRotationX, this`totalRotationY, this`zoomLevel, this`width, this`height
      ensures Valid()
    {
      var i := 0;
      while i < |events|
        invariant 0 <= i <= |events|
        invariant Valid()
      {
        Dispatch(events[i]);
        i := i + 1;
      }
    }

    // --- processInput ---

    /** V, debounced: a rising edge flips vsync. */
    method HandleVKey(down: bool)
      modifies this`vsync
      ensures vsync == Camera.ToggleStep(old(vsync), down)
    {
      if down && !vsync.wasPressed {
        vsync := vsync.(on := !vsync.on);
      }
      vsync := vsync.(wasPressed := down);
    }

    /** R, debounced: a rising edge flips the automatic rotation; switching
        it off re-arms the manual rotation's first sample. */
    method HandleRKey(down: bool)
      modifies this`rotation, this`firstMouse
      ensures rotation == Camera.ToggleStep(old(rotation), down)
      ensures !rotation.on && old(rotation.on) ==> firstMouse
      ensures !(!rotation.on && old(rotation.on)) ==> firstMouse == old(firstMouse)
    {
      if down && !rotation.wasPressed {
        rotation := rotation.(on := !rotation.on);
        if !rotation.on {
          firstMouse := true;
        }
      }
      rotation := rotation.(wasPressed := down);
    }

    /** loadAndSetupModel after the OBJ parser: None when the file could
        not be opened or parsed, which changes nothing; otherwise the
        model's buffers replace the current ones. */
    method LoadAndSetupModel(parsed: Option<ObjModel>) returns (ok: bool)
      requires Valid()
      requires parsed.Some? ==> AllIndexable(parsed.value, parsed.value.faces)
      modifies this`vertices, this`indices
      ensures Valid()
      ensures ok == parsed.Some?
      ensures ok ==> Buffers(vertices, indices) == ModelBuffers(parsed.value)
      ensures !ok ==> vertices == old(vertices) && indices == old(indices)
    {
      if parsed.None? {
        return false;
      }
      var vs, ixs, n := BuildBuffers(parsed.value);
      ModelMeshShape(parsed.value);
      vertices, indices := vs, ixs;
      ok := true;
    }

    /** G, debounced: a rising edge asks for a directory on standard input
        (`typedPath`, trimmed) and, if one was given, loads the model
        there (`parsed`, the parser's result); a successful load resets the
        model's rotation. */
    method HandleGKey(down: bool, typedPath: string, parsed: Option<ObjModel>)
      requires Valid()
      requires parsed.Some? ==> AllIndexable(parsed.value, parsed.value.faces)
      modifies this`gKeyWasPressed, this`vertices, this`indices, this`totalRotationX, this`totalRotationY
      ensures Valid()
      ensures gKeyWasPressed == down
      ensures down && !old(gKeyWasPressed) && typedPath != "" && parsed.Some? ==>
        Buffers(vertices, indices) == ModelBuffers(parsed.value) && totalRotationX == 0.0 && totalRotationY == 0.0
      ensures !(down && !old(gKeyWasPressed) && typedPath != "" && parsed.Some?) ==>
        vertices == old(vertices) && indices == old(indices) &&
        totalRotationX == old(totalRotationX) && totalRotationY == old(totalRotationY)
    {
      if down && !gKeyWasPressed {
        if typedPath != "" {
          var ok := LoadAndSetupModel(parsed);
          if ok {
            totalRotationX := 0.0;
            totalRotationY := 0.0;
          }
        }
      }
      gKeyWasPressed := down;
    }

    /** WASD, by CameraSpeed times the time since the last frame, then the
        view direction is recomputed (which leaves it as it was). */
    method MoveCamera(keys: Keys, elapsed: real)
      requires Valid()
      modifies this`cameraPos, this`cameraFront
      ensures Valid()
      ensures cameraPos == Camera.Walk(old(cameraPos), cameraFront, cameraUp, CameraSpeed * elapsed,
        Camera.MoveKeys(keys.w, keys.s, keys.a, keys.d), normalize)
      ensures cameraFront == old(cameraFront)
    {
      var cameraMoveSpeed := CameraSpeed * elapsed;
      cameraPos := Camera.WalkKeys(cameraPos, cameraFront, cameraUp, cameraMoveSpeed,
        Camera.MoveKeys(keys.w, keys.s, keys.a, keys.d), normalize);
      cameraFront := frontOf(look.yaw, look.pitch);
    }

    /** The debounced keys of processInput: ESC, V, R and G. */
    method HandleKeys(keys: Keys, typedPath: string, parsed: Option<ObjModel>)
      requires Valid()
      requires parsed.Some? ==> AllIndexable(parsed.value, parsed.value.faces)
      modifies this`running, this`vsync, this`rotation, this`firstMouse, this`gKeyWasPressed,
        this`vertices, this`indices, this`totalRotationX, this`totalRotationY
      ensures Valid()
      ensures running == (old(running) && !keys.escape)
      ensures vsync == Camera.ToggleStep(old(vsync), keys.v)
      ensures rotation == Camera.ToggleStep(old(rotation), keys.r)
      ensures gKeyWasPressed == keys.g
      ensures keys.g && !old(gKeyWasPressed) && typedPath != "" && parsed.Some? ==>
        Buffers(vertices, indices) == ModelBuffers(parsed.value) && totalRotationX == 0.0 && totalRotationY == 0.0
      ensures !(keys.g && !old(gKeyWasPressed) && typedPath != "" && parsed.Some?) ==>
        vertices == old(vertices) && indices == old(indices)
    {
      if keys.escape {
        running := false;
      }
      HandleVKey(keys.v);
      HandleRKey(keys.r);
      HandleGKey(keys.g, typedPath, parsed);
    }

    /** processInput: the queued events, then the keys, then WASD. */
    method ProcessInput(events: seq<Event>, keys: Keys, elapsed: real, typedPath: string, parsed: Option<ObjModel>)
      requires Valid()
      requires forall k :: 0 <= k < |events| ==> EventOk(events[k])
      requires parsed.Some? ==> AllIndexable(parsed.value, parsed.value.faces)
      modifies this`look, this`firstMouse, this`rightMouseButtonPressed, this`cameraFront,
        this`totalRotationX, this`totalRotationY, this`zoomLevel, this`width, this`height,
        this`running, this`vsync, this`rotation, this`gKeyWasPressed, this`vertices, this`indices, this`cameraPos
      ensures Valid()
      ensures running == (old(running) && !keys.escape)
      ensures vsync == Camera.ToggleStep(old(vsync), keys.v)
      ensures rotation == Camera.ToggleStep(old(rotation), keys.r)
      ensures keys.g && !old(gKeyWasPressed) && typedPath != "" && parsed.Some? ==>
        Buffers(vertices, indices) == ModelBuffers(parsed.value) && totalRotationX == 0.0 && totalRotationY == 0.0
      ensures !(keys.g && !old(gKeyWasPressed) && typedPath != "" && parsed.Some?) ==>
        vertices == old(vertices) && indices == old(indices)
    {
      PollEvents(events);
      HandleKeys(keys, typedPath, parsed);
      MoveCamera(keys, elapsed);
    }

    /** updateScene: while the automatic rotation is on, 50 degrees a
        second about Y and 25 about X; otherwise the angles stay. */
    method UpdateScene(dt: real)
      modifies this`totalRotationX, this`totalRotationY
      ensures rotation.on ==>
        totalRotationY == old(totalRotationY) + dt * Camera.DegToRad(AutoRateY) &&
        totalRotationX == old(totalRotationX) + dt * Camera.DegToRad(AutoRateX)
      ensures !rotation.on ==> totalRotationX == old(totalRotationX) && totalRotationY == old(totalRotationY)
      // time only moves forward, so the angles never decrease
      ensures dt >= 0.0 ==> totalRotationX >= old(totalRotationX) && totalRotationY >= old(totalRotationY)
    {
      if rotation.on {
        totalRotationY := totalRotationY + dt * Camera.DegToRad(AutoRateY);
        totalRotationX := totalRotationX + dt * Camera.DegToRad(AutoRateX);
      }
    }

    /** One pass of the main loop: input (with the time since the last
        frame), then the scene update by the frame time. */
    method Frame(events: seq<Event>, keys: Keys, elapsed: real, typedPath: string, parsed: Option<ObjModel>, dt: real)
      requires Valid()
      requires forall k :: 0 <= k < |events| ==> EventOk(events[k])
      requires parsed.Some? ==> AllIndexable(parsed.value, parsed.value.faces)
      modifies this`look, this`firstMouse, this`rightMouseButtonPressed, this`cameraFront,
        this`totalRotationX, this`totalRotationY, this`zoomLevel, this`width, this`height,
        this`running, this`vsync, this`rotation, this`gKeyWasPressed, this`vertices, this`indices, this`cameraPos
      ensures Valid()
      ensures rotation == Camera.ToggleStep(old(rotation), keys.r)
      ensures vsync == Camera.ToggleStep(old(vsync), keys.v)
    {
      ProcessInput(events, keys, elapsed, typedPath, parsed);
      UpdateScene(dt);
    }
  }
}
