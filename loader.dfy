// The two-pass OBJ loader: a counting pass that sizes the model, the
// allocation in readObj, and a population pass that writes vertex and normal
// coordinates and triangle index records through three write cursors.
//
// The population pass is specified by Populate, a fold of Step over the
// records that collects every store as a map from array slot to value; the
// method that walks the arrays is proved to leave exactly those stores in
// them, and the lemmas say where each record's stores land.
//
// One defect of model.cpp is corrected here and stated separately: the
// coordinate arrays get three slots per record plus the three unused slots
// below index 3 (FixedSlots, against AsWrittenSlots). Face lines go through
// the decoder as written, DecodeFace.
module Loader {
  import opened Scan
  import opened Records
  import opened Faces
  import opened FaceLines

  /**
   * sscanf(buf, "%f %f %f", ...): the coordinates converted, in order. Float
   * parsing is not part of this model; the loader stores at most three.
   */
  type CoordScanner = seq<char> -> seq<real>

  /** The slots the corrected allocation gives n vertices (or normals): slot 0..2 unused, 3 per record. */
  function FixedSlots(n: int): int {
    n * 3 + 3
  }

  /** The slot of coordinate j (0, 1 or 2) of the k-th vertex (or normal) record, counting from 1. */
  function CoordSlot(k: int, j: int): int {
    3 * k + j
  }

  /** The slots model.cpp allocates for n vertices (or normals). */
  function AsWrittenSlots(n: int): int {
    n * 3 + 1
  }

  /** The triangle every slot of a freshly allocated triangle array holds here. */
  const Blank: Triangle := Triangle([0, 0, 0], [0, 0, 0])

  class Model {
    var numVertices: int
    var numNormals: int
    var numTriangles: int
    var vertices: array<real>
    var normals: array<real>
    var triangles: array<Triangle>
    var projects: array<int>
    var curs: array<real>

    constructor ()
      ensures numVertices == 0 && numNormals == 0 && numTriangles == 0
      ensures vertices.Length == 0 && normals.Length == 0 && triangles.Length == 0
      ensures projects.Length == 0 && curs.Length == 0
    {
      numVertices, numNormals, numTriangles := 0, 0, 0;
      vertices := new real[0];
      normals := new real[0];
      triangles := new Triangle[0];
      projects := new int[0];
      curs := new real[0];
    }
  }

  // ----- The counting pass -----

  /** readObjFirstPass: one walk over the records, counting vertex, normal and face records. */
  method ReadObjFirstPass(model: Model, rs: seq<Record>)
    modifies model`numVertices, model`numNormals, model`numTriangles
    ensures model.numVertices == CountKind(rs, Vertex)
    ensures model.numNormals == CountKind(rs, Normal)
    ensures model.numTriangles == CountKind(rs, Face)
  {
    var numVertices, numNormals, numTriangles := 0, 0, 0;
    var i := 0;
    while i < |rs|
      invariant 0 <= i <= |rs|
      invariant numVertices == CountKind(rs[..i], Vertex)
      invariant numNormals == CountKind(rs[..i], Normal)
      invariant numTriangles == CountKind(rs[..i], Face)
    {
      CountPrefix(rs, i, Vertex);
      CountPrefix(rs, i, Normal);
      CountPrefix(rs, i, Face);
      var ch, buf := rs[i].ch, rs[i].rest;
      match ch {
        case '#' =>
        case 'v' =>
          match FirstChar(buf) {
            case ' ' => numVertices := numVertices + 1;
            case 'n' => numNormals := numNormals + 1;
            case 't' =>
            case _ =>
          }
        case 'm' =>
        case 'u' =>
        case 'g' =>
        case 'f' =>
          if FirstChar(buf) == ' ' {
            numTriangles := numTriangles + 1;
          }
        case _ =>
      }
      i := i + 1;
    }
    assert rs[..|rs|] == rs;
    model.numVertices := numVertices;
    model.numNormals := numNormals;
    model.numTriangles := numTriangles;
  }

  // ----- The population pass, as a specification -----

  /** The write cursors, the nine scan locals, and every store made so far (slot -> value). */
  datatype PassState = PassState(
    vIdx: int, nIdx: int, tIdx: int, vars: ScanVars,
    vertices: map<int, real>, normals: map<int, real>, triangles: map<int, TriangleStore>)

  /** The state before the first record: cursors 1, 1, 0; the locals hold whatever they were born with. */
  function Start(stale: ScanVars): PassState {
    PassState(1, 1, 0, stale, map[], map[], map[])
  }

  /** A "%f %f %f" scan into slots base, base+1, base+2: the converted values, in order. */
  function StoreCoords(m: map<int, real>, base: int, coords: seq<real>): (r: map<int, real>)
    ensures forall j :: j in r <==> j in m || (base <= j < base + 3 && j - base < |coords|)
    ensures forall j :: j in r ==> r[j] == if base <= j < base + 3 && j - base < |coords| then coords[j - base] else m[j]
  {
    if |coords| == 0 then m
    else if |coords| == 1 then m[base := coords[0]]
    else if |coords| == 2 then m[base := coords[0]][base + 1 := coords[1]]
    else m[base := coords[0]][base + 1 := coords[1]][base + 2 := coords[2]]
  }

  /** What one record does to the population pass. */
  function Step(st: PassState, r: Record, scan: CoordScanner): (s: PassState)
    ensures Classify(r) !in {Vertex, Normal, Face} ==> s == st
  {
    match Classify(r)
    case Vertex =>
      st.(vIdx := st.vIdx + 1, vertices := StoreCoords(st.vertices, 3 * st.vIdx, scan(r.rest)))
    case Normal =>
      st.(nIdx := st.nIdx + 1, normals := StoreCoords(st.normals, 3 * st.nIdx, scan(r.rest)))
    case Face =>
      var d := DecodeFace(r.rest, st.vars);
      st.(tIdx := st.tIdx + 1, vars := d.vars, triangles := st.triangles[st.tIdx := d.store])
    case _ => st
  }

  /** The population pass over a run of records, from a given state. */
  function Populate(st: PassState, rs: seq<Record>, scan: CoordScanner): PassState
    decreases |rs|
  {
    if rs == [] then st else Step(Populate(st, rs[..|rs| - 1], scan), rs[|rs| - 1], scan)
  }

  /** Running the pass over two runs of records one after the other is running it over both. */
  lemma {:induction false} PopulateAppend(st: PassState, a: seq<Record>, b: seq<Record>, scan: CoordScanner)
    ensures Populate(st, a + b, scan) == Populate(Populate(st, a, scan), b, scan)
    decreases |b|
  {
    if b == [] {
      assert a + b == a;
    } else {
      var ab := a + b;
      assert ab[..|ab| - 1] == a + b[..|b| - 1];
      PopulateAppend(st, a, b[..|b| - 1], scan);
    }
  }

  /** The vertex cursor advances once per vertex record; new stores land at or above its start, and nothing below it changes. */
  lemma {:induction false} PopulateVertices(st: PassState, rs: seq<Record>, scan: CoordScanner)
    ensures var r := Populate(st, rs, scan);
      && r.vIdx == st.vIdx + CountKind(rs, Vertex)
      && (forall j :: j in r.vertices ==> j in st.vertices || 3 * st.vIdx <= j < 3 * r.vIdx)
      && (forall j :: j in st.vertices && j < 3 * st.vIdx ==> j in r.vertices && r.vertices[j] == st.vertices[j])
    decreases |rs|
  {
    if rs != [] {
      PopulateVertices(st, rs[..|rs| - 1], scan);
    }
  }

  /** The normal cursor advances once per normal record; new stores land at or above its start, and nothing below it changes. */
  lemma {:induction false} PopulateNormals(st: PassState, rs: seq<Record>, scan: CoordScanner)
    ensures var r := Populate(st, rs, scan);
      && r.nIdx == st.nIdx + CountKind(rs, Normal)
      && (forall j :: j in r.normals ==> j in st.normals || 3 * st.nIdx <= j < 3 * r.nIdx)
      && (forall j :: j in st.normals && j < 3 * st.nIdx ==> j in r.normals && r.normals[j] == st.normals[j])
    decreases |rs|
  {
    if rs != [] {
      PopulateNormals(st, rs[..|rs| - 1], scan);
    }
  }

  /** The triangle cursor advances once per face record; the slots written are exactly those it passes. */
  lemma {:induction false} PopulateTriangles(st: PassState, rs: seq<Record>, scan: CoordScanner)
    ensures var r := Populate(st, rs, scan);
      && r.tIdx == st.tIdx + CountKind(rs, Face)
      && (forall j :: j in r.triangles <==> j in st.triangles || st.tIdx <= j < r.tIdx)
      && (forall j :: j in st.triangles && j < st.tIdx ==> r.triangles[j] == st.triangles[j])
    decreases |rs|
  {
    if rs != [] {
      PopulateTriangles(st, rs[..|rs| - 1], scan);
      StepTriangles(Populate(st, rs[..|rs| - 1], scan), rs[|rs| - 1], scan);
    }
  }

  /** One record: a face writes the triangle slot at the cursor and moves it on; nothing else touches the triangles. */
  lemma StepTriangles(p: PassState, r: Record, scan: CoordScanner)
    ensures var s := Step(p, r, scan);
      && s.tIdx == p.tIdx + (if Classify(r) == Face then 1 else 0)
      && (forall j :: j in s.triangles <==> j in p.triangles || (Classify(r) == Face && j == p.tIdx))
      && (forall j :: j in p.triangles && j != p.tIdx ==> s.triangles[j] == p.triangles[j])
  {
  }

  /**
   * The cursors advance once per record of their kind, whatever it parses to;
   * new stores land at or above the cursors' start, and nothing below them changes.
   */
  lemma PopulateEffects(st: PassState, rs: seq<Record>, scan: CoordScanner)
    ensures var r := Populate(st, rs, scan);
      && r.vIdx == st.vIdx + CountKind(rs, Vertex)
      && r.nIdx == st.nIdx + CountKind(rs, Normal)
      && r.tIdx == st.tIdx + CountKind(rs, Face)
    ensures var r := Populate(st, rs, scan);
      && (forall j :: j in r.vertices ==> j in st.vertices || 3 * st.vIdx <= j < 3 * r.vIdx)
      && (forall j :: j in st.vertices && j < 3 * st.vIdx ==> j in r.vertices && r.vertices[j] == st.vertices[j])
    ensures var r := Populate(st, rs, scan);
      && (forall j :: j in r.normals ==> j in st.normals || 3 * st.nIdx <= j < 3 * r.nIdx)
      && (forall j :: j in st.normals && j < 3 * st.nIdx ==> j in r.normals && r.normals[j] == st.normals[j])
    ensures var r := Populate(st, rs, scan);
      && (forall j :: j in r.triangles <==> j in st.triangles || st.tIdx <= j < r.tIdx)
      && (forall j :: j in st.triangles && j < st.tIdx ==> r.triangles[j] == st.triangles[j])
  {
    PopulateVertices(st, rs, scan);
    PopulateNormals(st, rs, scan);
    PopulateTriangles(st, rs, scan);
  }

  /** From the start: vIdx is one past the vertex records seen, nIdx one past the normals, tIdx the faces. */
  lemma Cursors(rs: seq<Record>, scan: CoordScanner, stale: ScanVars)
    ensures var r := Populate(Start(stale), rs, scan);
      && r.vIdx == 1 + CountKind(rs, Vertex)
      && r.nIdx == 1 + CountKind(rs, Normal)
      && r.tIdx == CountKind(rs, Face)
  {
    PopulateEffects(Start(stale), rs, scan);
  }

  /**
   * Every store lands inside the corrected allocation sized by the counting
   * pass over the same records: slots 0..2 are never written, coordinates
   * stay below FixedSlots, and the triangle slots written are exactly
   * 0 .. numTriangles-1 of the undecremented count.
   */
  lemma WritesInBounds(rs: seq<Record>, scan: CoordScanner, stale: ScanVars)
    ensures var r := Populate(Start(stale), rs, scan);
      && (forall j :: j in r.vertices ==> 3 <= j < FixedSlots(CountKind(rs, Vertex)))
      && (forall j :: j in r.normals ==> 3 <= j < FixedSlots(CountKind(rs, Normal)))
      && (forall j :: j in r.triangles <==> 0 <= j < CountKind(rs, Face))
  {
    PopulateEffects(Start(stale), rs, scan);
  }

  /** The state after the records before position i, followed by record i. */
  lemma StepAt(st: PassState, rs: seq<Record>, i: nat, scan: CoordScanner)
    requires i < |rs|
    ensures Populate(st, rs[..i + 1], scan) == Step(Populate(st, rs[..i], scan), rs[i], scan)
  {
    assert rs[..i + 1][..i] == rs[..i];
  }

  /** The pass over all records: the records before position i, then record i, then the rest. */
  lemma AroundRecord(st: PassState, rs: seq<Record>, i: nat, scan: CoordScanner)
    requires i < |rs|
    ensures Populate(st, rs, scan) == Populate(Step(Populate(st, rs[..i], scan), rs[i], scan), rs[i + 1..], scan)
  {
    PopulateAppend(st, rs[..i + 1], rs[i + 1..], scan);
    assert rs[..i + 1] + rs[i + 1..] == rs;
    assert rs[..i + 1][..i] == rs[..i];
  }

  /** A vertex record moves vIdx on and stores its coordinates at the old cursor. */
  lemma StepVertex(st: PassState, r: Record, scan: CoordScanner)
    requires Classify(r) == Vertex
    ensures Step(st, r, scan) == st.(vIdx := st.vIdx + 1, vertices := StoreCoords(st.vertices, 3 * st.vIdx, scan(r.rest)))
  {
  }

  /** A normal record moves nIdx on and stores its coordinates at the old cursor. */
  lemma StepNormal(st: PassState, r: Record, scan: CoordScanner)
    requires Classify(r) == Normal
    ensures Step(st, r, scan) == st.(nIdx := st.nIdx + 1, normals := StoreCoords(st.normals, 3 * st.nIdx, scan(r.rest)))
  {
  }

  /** A face record moves tIdx on and records what the decoder makes of its buffer at the old cursor. */
  lemma StepFace(st: PassState, r: Record, scan: CoordScanner)
    requires Classify(r) == Face
    ensures var d := DecodeFace(r.rest, st.vars);
      Step(st, r, scan) == st.(tIdx := st.tIdx + 1, vars := d.vars, triangles := st.triangles[st.tIdx := d.store])
  {
  }

  /** A coordinate stored below the vertex cursor survives the rest of the pass. */
  lemma VertexKept(st: PassState, rs: seq<Record>, scan: CoordScanner, slot: int)
    requires slot in st.vertices && slot < 3 * st.vIdx
    ensures var r := Populate(st, rs, scan);
      slot in r.vertices && r.vertices[slot] == st.vertices[slot]
  {
    PopulateEffects(st, rs, scan);
  }

  /** A coordinate stored below the normal cursor survives the rest of the pass. */
  lemma NormalKept(st: PassState, rs: seq<Record>, scan: CoordScanner, slot: int)
    requires slot in st.normals && slot < 3 * st.nIdx
    ensures var r := Populate(st, rs, scan);
      slot in r.normals && r.normals[slot] == st.normals[slot]
  {
    PopulateEffects(st, rs, scan);
  }

  /** A triangle store below the cursor survives the rest of the pass. */
  lemma TriangleKept(st: PassState, rs: seq<Record>, scan: CoordScanner, j: int)
    requires j in st.triangles && j < st.tIdx
    ensures var r := Populate(st, rs, scan);
      j in r.triangles && r.triangles[j] == st.triangles[j]
  {
    PopulateEffects(st, rs, scan);
  }

  /** A vertex record read in state before stores its coordinates at 3 * before.vIdx and moves the cursor on. */
  lemma VertexStepStores(before: PassState, r: Record, scan: CoordScanner, k: int)
    requires Classify(r) == Vertex && before.vIdx == k
    ensures var after := Step(before, r, scan);
      && after.vIdx == k + 1
      && forall j :: 0 <= j < 3 && j < |scan(r.rest)| ==> CoordSlot(k, j) in after.vertices && after.vertices[CoordSlot(k, j)] == scan(r.rest)[j]
  {
    StepVertex(before, r, scan);
  }

  /** A normal record read in state before stores its coordinates at 3 * before.nIdx and moves the cursor on. */
  lemma NormalStepStores(before: PassState, r: Record, scan: CoordScanner, k: int)
    requires Classify(r) == Normal && before.nIdx == k
    ensures var after := Step(before, r, scan);
      && after.nIdx == k + 1
      && forall j :: 0 <= j < 3 && j < |scan(r.rest)| ==> CoordSlot(k, j) in after.normals && after.normals[CoordSlot(k, j)] == scan(r.rest)[j]
  {
    StepNormal(before, r, scan);
  }

  /** Whatever follows a vertex record read in state before, the final state holds its j-th coordinate at 3 * before.vIdx + j. */
  lemma VertexLands(whole: PassState, before: PassState, r: Record, rest: seq<Record>, scan: CoordScanner, k: int, j: int)
    requires Classify(r) == Vertex && before.vIdx == k && 0 <= j < 3 && j < |scan(r.rest)|
    requires whole == Populate(Step(before, r, scan), rest, scan)
    ensures CoordSlot(k, j) in whole.vertices && whole.vertices[CoordSlot(k, j)] == scan(r.rest)[j]
  {
    VertexStepStores(before, r, scan, k);
    VertexKept(Step(before, r, scan), rest, scan, CoordSlot(k, j));
  }

  /** Whatever follows a normal record read in state before, the final state holds its j-th coordinate at 3 * before.nIdx + j. */
  lemma NormalLands(whole: PassState, before: PassState, r: Record, rest: seq<Record>, scan: CoordScanner, k: int, j: int)
    requires Classify(r) == Normal && before.nIdx == k && 0 <= j < 3 && j < |scan(r.rest)|
    requires whole == Populate(Step(before, r, scan), rest, scan)
    ensures CoordSlot(k, j) in whole.normals && whole.normals[CoordSlot(k, j)] == scan(r.rest)[j]
  {
    NormalStepStores(before, r, scan, k);
    NormalKept(Step(before, r, scan), rest, scan, CoordSlot(k, j));
  }

  /**
   * The k-th vertex record (k from 1) leaves the j-th value its scan converted
   * in slot 3k + j, whatever records follow it.
   */
  lemma VertexRecordStored(rs: seq<Record>, scan: CoordScanner, stale: ScanVars, i: nat, j: int)
    requires i < |rs| && Classify(rs[i]) == Vertex
    requires 0 <= j < 3 && j < |scan(rs[i].rest)|
    ensures CoordSlot(1 + CountKind(rs[..i], Vertex), j) in Populate(Start(stale), rs, scan).vertices
    ensures Populate(Start(stale), rs, scan).vertices[CoordSlot(1 + CountKind(rs[..i], Vertex), j)] == scan(rs[i].rest)[j]
  {
    AroundRecord(Start(stale), rs, i, scan);
    Cursors(rs[..i], scan, stale);
    VertexLands(Populate(Start(stale), rs, scan), Populate(Start(stale), rs[..i], scan), rs[i], rs[i + 1..], scan,
      1 + CountKind(rs[..i], Vertex), j);
  }

  /**
   * The k-th normal record (k from 1) leaves the j-th value its scan converted
   * in slot 3k + j, whatever records follow it.
   */
  lemma NormalRecordStored(rs: seq<Record>, scan: CoordScanner, stale: ScanVars, i: nat, j: int)
    requires i < |rs| && Classify(rs[i]) == Normal
    requires 0 <= j < 3 && j < |scan(rs[i].rest)|
    ensures CoordSlot(1 + CountKind(rs[..i], Normal), j) in Populate(Start(stale), rs, scan).normals
    ensures Populate(Start(stale), rs, scan).normals[CoordSlot(1 + CountKind(rs[..i], Normal), j)] == scan(rs[i].rest)[j]
  {
    AroundRecord(Start(stale), rs, i, scan);
    Cursors(rs[..i], scan, stale);
    NormalLands(Populate(Start(stale), rs, scan), Populate(Start(stale), rs[..i], scan), rs[i], rs[i + 1..], scan,
      1 + CountKind(rs[..i], Normal), j);
  }

  /**
   * The i-th face record (i from 1) writes triangle slot i-1, with what the
   * face decoder makes of its buffer given the locals the earlier faces left.
   */
  lemma FaceRecordStored(rs: seq<Record>, scan: CoordScanner, stale: ScanVars, i: nat)
    requires i < |rs| && Classify(rs[i]) == Face
    ensures var k := CountKind(rs[..i], Face);
      var r := Populate(Start(stale), rs, scan);
      k in r.triangles && r.triangles[k] == DecodeFace(rs[i].rest, Populate(Start(stale), rs[..i], scan).vars).store
  {
    var before := Populate(Start(stale), rs[..i], scan);
    AroundRecord(Start(stale), rs, i, scan);
    Cursors(rs[..i], scan, stale);
    StepFace(before, rs[i], scan);
    TriangleKept(Step(before, rs[i], scan), rs[i + 1..], scan, before.tIdx);
  }

  /**
   * What a face line in each encoding loads, in the slot its position among
   * the face records gives it: v//n and v/t/n lines load as the triangle
   * they spell; v/t and plain v lines keep only their first vertex
   * reference and take the rest from the locals earlier face lines left.
   */
  lemma {:induction false} FaceLineLoaded(rs: seq<Record>, scan: CoordScanner, stale: ScanVars, i: nat,
                                          form: FaceForm, a: Ref, b: Ref, c: Ref)
    requires i < |rs| && rs[i] == Record('f', FaceLine(form, a, b, c))
    ensures var k := CountKind(rs[..i], Face);
      var r := Populate(Start(stale), rs, scan);
      var w := Populate(Start(stale), rs[..i], scan).vars;
      k in r.triangles &&
      r.triangles[k] == if form == VnForm || form == VtnForm then Spelled(form, a, b, c)
                        else Full([a.v, w.v1, w.v2], [w.n0, w.n1, w.n2])
  {
    assert FaceLine(form, a, b, c)[0] == ' ';
    FaceRecordStored(rs, scan, stale, i);
    var vars := Populate(Start(stale), rs[..i], scan).vars;
    match form {
      case VnForm => DecodeVnLine(a, b, c, vars);
      case VtnForm => DecodeVtnLine(a, b, c, vars);
      case VtForm => DecodeVtLine(a, b, c, vars);
      case VForm => DecodeVLine(a, b, c, vars);
    }
  }

  /**
   * As model.cpp sizes the coordinate arrays, the last vertex record of a
   * file (wherever it stands among the other lines), when its scan converts
   * two or more values, stores its second coordinate in slot
   * numVertices*3+1, one past the end of the numVertices*3+1 floats
   * allocated.
   */
  lemma VertexOverflowAsWritten(rs: seq<Record>, scan: CoordScanner, stale: ScanVars, i: nat)
    requires i < |rs| && Classify(rs[i]) == Vertex && |scan(rs[i].rest)| >= 2
    requires CountKind(rs[i + 1..], Vertex) == 0
    ensures AsWrittenSlots(CountKind(rs, Vertex)) in Populate(Start(stale), rs, scan).vertices
    ensures Populate(Start(stale), rs, scan).vertices[AsWrittenSlots(CountKind(rs, Vertex))] == scan(rs[i].rest)[1]
  {
    var c := CountKind(rs[..i], Vertex);
    CountPrefix(rs, i, Vertex);
    CountAppend(rs[..i + 1], rs[i + 1..], Vertex);
    assert rs[..i + 1] + rs[i + 1..] == rs;
    assert CountKind(rs, Vertex) == c + 1;
    VertexRecordStored(rs, scan, stale, i, 1);
    assert AsWrittenSlots(c + 1) == CoordSlot(1 + c, 1);
  }

  /** The same for normals: the last normal record's second coordinate lands one past the allocation. */
  lemma NormalOverflowAsWritten(rs: seq<Record>, scan: CoordScanner, stale: ScanVars, i: nat)
    requires i < |rs| && Classify(rs[i]) == Normal && |scan(rs[i].rest)| >= 2
    requires CountKind(rs[i + 1..], Normal) == 0
    ensures AsWrittenSlots(CountKind(rs, Normal)) in Populate(Start(stale), rs, scan).normals
    ensures Populate(Start(stale), rs, scan).normals[AsWrittenSlots(CountKind(rs, Normal))] == scan(rs[i].rest)[1]
  {
    var c := CountKind(rs[..i], Normal);
    CountPrefix(rs, i, Normal);
    CountAppend(rs[..i + 1], rs[i + 1..], Normal);
    assert rs[..i + 1] + rs[i + 1..] == rs;
    assert CountKind(rs, Normal) == c + 1;
    NormalRecordStored(rs, scan, stale, i, 1);
    assert AsWrittenSlots(c + 1) == CoordSlot(1 + c, 1);
  }

  /**
   * %f cannot start a number at an 'n' followed by a space: of the inputs
   * strtof accepts, only "nan" begins with that letter.
   */
  ghost predicate RejectsLoneN(scan: CoordScanner) {
    forall s :: |s| >= 2 && s[0] == 'n' && s[1] == ' ' ==> scan(s) == []
  }

  /**
   * A normal record is scanned from its 'n' on (model.cpp:94): on "vn x y z"
   * lines the scan converts nothing, so the pass moves nIdx on without
   * storing a single normal coordinate.
   */
  lemma {:induction false} NormalsNeverStored(st: PassState, rs: seq<Record>, scan: CoordScanner)
    requires RejectsLoneN(scan)
    requires forall i :: 0 <= i < |rs| && Classify(rs[i]) == Normal ==> |rs[i].rest| >= 2 && rs[i].rest[1] == ' '
    ensures Populate(st, rs, scan).normals == st.normals
    decreases |rs|
  {
    if rs != [] {
      var front := rs[..|rs| - 1];
      assert forall i :: 0 <= i < |front| ==> front[i] == rs[i];
      NormalsNeverStored(st, front, scan);
    }
  }

  /** A file holding the single line "v 1 2 3": four floats are allocated, slots 3, 4 and 5 are written. */
  lemma OneVertexOverflows(stale: ScanVars)
    ensures var rs := [Record('v', " 1 2 3")];
      var scan: CoordScanner := _ => [1.0, 2.0, 3.0];
      && AsWrittenSlots(CountKind(rs, Vertex)) == 4
      && Populate(Start(stale), rs, scan).vertices == map[3 := 1.0, 4 := 2.0, 5 := 3.0]
  {
    var rs := [Record('v', " 1 2 3")];
    var scan: CoordScanner := _ => [1.0, 2.0, 3.0];
    assert rs[..0] == [];
    assert Populate(Start(stale), rs, scan).vertices == StoreCoords(map[], 3, [1.0, 2.0, 3.0]);
  }

  // ----- The population pass, on the arrays -----

  /** The coordinate array holds each recorded store and, elsewhere, what it held before the pass. */
  predicate CoordsReflect(now: seq<real>, before: seq<real>, m: map<int, real>) {
    |now| == |before| &&
    forall j :: 0 <= j < |now| ==> now[j] == if j in m then m[j] else before[j]
  }

  /** The triangle array holds, in each recorded slot, its earlier triangle with the store applied. */
  predicate TrianglesReflect(now: seq<Triangle>, before: seq<Triangle>, m: map<int, TriangleStore>) {
    |now| == |before| &&
    forall j :: 0 <= j < |now| ==> now[j] == if j in m then Apply(before[j], m[j]) else before[j]
  }

  /** sscanf(buf, "%f %f %f", &a[base], &a[base+1], &a[base+2]): the converted values land in order. */
  method StoreCoordsAt(a: array<real>, base: nat, coords: seq<real>)
    requires base + 3 <= a.Length
    modifies a
    ensures forall j :: 0 <= j < a.Length ==>
      a[j] == if base <= j < base + 3 && j - base < |coords| then coords[j - base] else old(a[j])
  {
    if |coords| > 0 {
      a[base] := coords[0];
    }
    if |coords| > 1 {
      a[base + 1] := coords[1];
    }
    if |coords| > 2 {
      a[base + 2] := coords[2];
    }
  }

  /** After a "%f %f %f" scan into slots base.., the array reflects the stores with that scan's added. */
  lemma ReflectCoords(now: seq<real>, prev: seq<real>, before: seq<real>, m: map<int, real>, base: int, coords: seq<real>)
    requires CoordsReflect(prev, before, m)
    requires |now| == |prev|
    requires forall j :: 0 <= j < |now| ==>
      now[j] == if base <= j < base + 3 && j - base < |coords| then coords[j - base] else prev[j]
    ensures CoordsReflect(now, before, StoreCoords(m, base, coords))
  {
  }

  /** After a face line writes slot tIdx, not written before, the array reflects the stores with that one added. */
  lemma ReflectTriangle(now: seq<Triangle>, prev: seq<Triangle>, before: seq<Triangle>, m: map<int, TriangleStore>,
                        tIdx: int, store: TriangleStore)
    requires TrianglesReflect(prev, before, m)
    requires 0 <= tIdx < |prev| && tIdx !in m
    requires now == prev[tIdx := Apply(prev[tIdx], store)]
    ensures TrianglesReflect(now, before, m[tIdx := store])
  {
  }

  /**
   * One `f ` line (model.cpp:115-146): the "//" test, the probes, the full
   * scan, and the writes into triangles[tIdx]; returns the locals as the
   * scans left them. A probe that converts anything, or returns EOF,
   * selects its branch.
   */
  method ReadFace(triangles: array<Triangle>, tIdx: nat, buf: seq<char>, vars: ScanVars) returns (w: ScanVars)
    requires tIdx < triangles.Length
    modifies triangles
    ensures w == DecodeFace(buf, vars).vars
    ensures triangles[..] == old(triangles[..])[tIdx := Apply(old(triangles[tIdx]), DecodeFace(buf, vars).store)]
  {
    FormatsFit();
    if Strstr(buf, "//") >= 0 {
      w := ScanInto(vars, VnFormat, VnTargets, buf).vars;
      triangles[tIdx] := Triangle(w.Corners(), w.NormalRefs());
    } else {
      var probe := ScanInto(vars, VtnProbe, VtnProbeTargets, buf);
      if probe.returned != 0 {
        w := ScanInto(probe.vars, VtnFormat, VtnTargets, buf).vars;
        triangles[tIdx] := Triangle(w.Corners(), w.NormalRefs());
      } else {
        var probe2 := ScanInto(probe.vars, VtProbe, VtProbeTargets, buf);
        if probe2.returned != 0 {
          // The v/t branch (model.cpp:135-140) is dead code: "%d/%d" fails
          // exactly when "%d/%d/%d" did, on its first %d (FaceFormChoice).
          assert false;
        } else {
          w := ScanInto(probe2.vars, VFormat, VTargets, buf).vars;
          triangles[tIdx] := triangles[tIdx].(vIndices := w.Corners());
        }
      }
    }
  }

  /**
   * The body of the population loop for one record (model.cpp:79-154): the
   * switch of the counting pass, now with the stores. Cursors and locals go
   * in and come out; st is the specification state they belong to, and the
   * arrays reflect st's stores over their contents before the pass.
   */
  method ReadRecord(vertices: array<real>, normals: array<real>, triangles: array<Triangle>,
                    r: Record, scan: CoordScanner,
                    vIdx: int, nIdx: int, tIdx: int, vars: ScanVars,
                    ghost st: PassState,
                    ghost vertices0: seq<real>, ghost normals0: seq<real>, ghost triangles0: seq<Triangle>)
    returns (vIdx': int, nIdx': int, tIdx': int, vars': ScanVars)
    requires vertices != normals
    requires vIdx == st.vIdx && nIdx == st.nIdx && tIdx == st.tIdx && vars == st.vars
    requires Classify(r) == Vertex ==> 0 <= 3 * vIdx && 3 * vIdx + 3 <= vertices.Length
    requires Classify(r) == Normal ==> 0 <= 3 * nIdx && 3 * nIdx + 3 <= normals.Length
    requires Classify(r) == Face ==> 0 <= tIdx < triangles.Length && tIdx !in st.triangles
    requires CoordsReflect(vertices[..], vertices0, st.vertices)
    requires CoordsReflect(normals[..], normals0, st.normals)
    requires TrianglesReflect(triangles[..], triangles0, st.triangles)
    modifies vertices, normals, triangles
    ensures var s := Step(st, r, scan);
      && vIdx' == s.vIdx && nIdx' == s.nIdx && tIdx' == s.tIdx && vars' == s.vars
      && CoordsReflect(vertices[..], vertices0, s.vertices)
      && CoordsReflect(normals[..], normals0, s.normals)
      && TrianglesReflect(triangles[..], triangles0, s.triangles)
  {
    vIdx', nIdx', tIdx', vars' := vIdx, nIdx, tIdx, vars;
    var ch, buf := r.ch, r.rest;
    match ch {
      case '#' =>
      case 'v' =>
        match FirstChar(buf) {
          case ' ' =>
            ghost var prev := vertices[..];
            StoreCoordsAt(vertices, 3 * vIdx, scan(buf));
            ReflectCoords(vertices[..], prev, vertices0, st.vertices, 3 * vIdx, scan(buf));
            StepVertex(st, r, scan);
            vIdx' := vIdx + 1;
          case 'n' =>
            ghost var prev := normals[..];
            StoreCoordsAt(normals, 3 * nIdx, scan(buf));
            ReflectCoords(normals[..], prev, normals0, st.normals, 3 * nIdx, scan(buf));
            StepNormal(st, r, scan);
            nIdx' := nIdx + 1;
          case 't' =>
          case _ =>
        }
      case 'm' =>
      case 'u' =>
      case 'g' =>
      case 'f' =>
        if FirstChar(buf) == ' ' {
          ghost var prev := triangles[..];
          vars' := ReadFace(triangles, tIdx, buf, vars);
          ReflectTriangle(triangles[..], prev, triangles0, st.triangles, tIdx, DecodeFace(buf, vars).store);
          StepFace(st, r, scan);
          tIdx' := tIdx + 1;
        }
      case _ =>
    }
  }

  /** Before record i, the cursors leave room for that record's stores in arrays sized from the counts. */
  lemma Headroom(rs: seq<Record>, i: nat, scan: CoordScanner, stale: ScanVars)
    requires i < |rs|
    ensures var st := Populate(Start(stale), rs[..i], scan);
      && (Classify(rs[i]) == Vertex ==> 0 <= 3 * st.vIdx && 3 * st.vIdx + 3 <= FixedSlots(CountKind(rs, Vertex)))
      && (Classify(rs[i]) == Normal ==> 0 <= 3 * st.nIdx && 3 * st.nIdx + 3 <= FixedSlots(CountKind(rs, Normal)))
      && (Classify(rs[i]) == Face ==> 0 <= st.tIdx < CountKind(rs, Face) && st.tIdx !in st.triangles)
  {
    var st := Populate(Start(stale), rs[..i], scan);
    Cursors(rs[..i], scan, stale);
    var k := Classify(rs[i]);
    if k == Vertex || k == Normal || k == Face {
      CountBefore(rs, i, k);
    }
    if k == Face {
      WritesInBounds(rs[..i], scan, stale);
    }
  }

  /**
   * readObjSecondPass: one walk over the same records, writing through the
   * cursors. The arrays end up holding exactly the stores Populate collects.
   */
  method ReadObjSecondPass(model: Model, rs: seq<Record>, scan: CoordScanner, stale: ScanVars)
    requires model.vertices != model.normals
    requires model.vertices.Length >= FixedSlots(CountKind(rs, Vertex))
    requires model.normals.Length >= FixedSlots(CountKind(rs, Normal))
    requires model.triangles.Length >= CountKind(rs, Face)
    modifies model.vertices, model.normals, model.triangles
    ensures var st := Populate(Start(stale), rs, scan);
      && CoordsReflect(model.vertices[..], old(model.vertices[..]), st.vertices)
      && CoordsReflect(model.normals[..], old(model.normals[..]), st.normals)
      && TrianglesReflect(model.triangles[..], old(model.triangles[..]), st.triangles)
  {
    var vIdx, nIdx, tIdx := 1, 1, 0;
    var vars := stale;
    var vertices, normals, triangles := model.vertices, model.normals, model.triangles;
    ghost var vertices0, normals0, triangles0 := vertices[..], normals[..], triangles[..];
    var i := 0;
    ghost var st := Start(stale);
    assert rs[..0] == [];
    while i < |rs|
      invariant 0 <= i <= |rs|
      invariant st == Populate(Start(stale), rs[..i], scan)
      invariant vIdx == st.vIdx && nIdx == st.nIdx && tIdx == st.tIdx && vars == st.vars
      invariant CoordsReflect(vertices[..], vertices0, st.vertices)
      invariant CoordsReflect(normals[..], normals0, st.normals)
      invariant TrianglesReflect(triangles[..], triangles0, st.triangles)
    {
      StepAt(Start(stale), rs, i, scan);
      Headroom(rs, i, scan, stale);
      vIdx, nIdx, tIdx, vars := ReadRecord(vertices, normals, triangles, rs[i], scan,
                                           vIdx, nIdx, tIdx, vars, st, vertices0, normals0, triangles0);
      st := Step(st, rs[i], scan);
      i := i + 1;
    }
    assert rs[..|rs|] == rs;
  }

  // ----- readObj -----

  /** A freshly allocated coordinate array after the pass: each recorded store, zero elsewhere. */
  predicate CoordsFilled(now: seq<real>, m: map<int, real>) {
    forall j :: 0 <= j < |now| ==> now[j] == if j in m then m[j] else 0.0
  }

  /** A freshly allocated triangle array after the pass: every slot recorded, and holding its store. */
  predicate TrianglesFilled(now: seq<Triangle>, m: map<int, TriangleStore>) {
    forall j :: 0 <= j < |now| ==> j in m && now[j] == Apply(Blank, m[j])
  }

  lemma CoordsFromZero(now: seq<real>, before: seq<real>, m: map<int, real>)
    requires CoordsReflect(now, before, m)
    requires forall j :: 0 <= j < |before| ==> before[j] == 0.0
    ensures CoordsFilled(now, m)
  {
  }

  lemma TrianglesFromBlank(now: seq<Triangle>, before: seq<Triangle>, m: map<int, TriangleStore>)
    requires TrianglesReflect(now, before, m)
    requires forall j :: 0 <= j < |before| ==> before[j] == Blank
    requires forall j :: j in m <==> 0 <= j < |now|
    ensures TrianglesFilled(now, m)
  {
  }

  /**
   * The sizing step of readObj (model.cpp:176-186): arrays allocated from
   * the undecremented counts, then numNormals and numTriangles decremented.
   * Coordinate arrays get the corrected FixedSlots size; the scratch arrays
   * projects and curs keep model.cpp's numVertices*3+1.
   */
  method AllocateFromCounts(model: Model)
    requires model.numVertices >= 0 && model.numNormals >= 0 && model.numTriangles >= 0
    modifies model
    ensures model.numVertices == old(model.numVertices)
    ensures model.numNormals == old(model.numNormals) - 1
    ensures model.numTriangles == old(model.numTriangles) - 1
    ensures model.vertices.Length == FixedSlots(old(model.numVertices))
    ensures model.normals.Length == FixedSlots(old(model.numNormals))
    ensures model.triangles.Length == old(model.numTriangles)
    ensures model.projects.Length == AsWrittenSlots(old(model.numVertices))
    ensures model.curs.Length == AsWrittenSlots(old(model.numVertices))
    ensures fresh(model.vertices) && fresh(model.normals) && fresh(model.triangles) && model.vertices != model.normals
    ensures forall j :: 0 <= j < model.vertices.Length ==> model.vertices[j] == 0.0
    ensures forall j :: 0 <= j < model.normals.Length ==> model.normals[j] == 0.0
    ensures forall j :: 0 <= j < model.triangles.Length ==> model.triangles[j] == Blank
  {
    var numVertices, numNormals, numTriangles := model.numVertices, model.numNormals, model.numTriangles;
    var vertices := new real[FixedSlots(numVertices)](_ => 0.0);
    var normals := new real[FixedSlots(numNormals)](_ => 0.0);
    var triangles := new Triangle[numTriangles](_ => Blank);
    var projects := new int[AsWrittenSlots(numVertices)];
    var curs := new real[AsWrittenSlots(numVertices)];
    model.vertices, model.normals, model.triangles := vertices, normals, triangles;
    model.projects, model.curs := projects, curs;
    model.numNormals := numNormals - 1;
    model.numTriangles := numTriangles - 1;
  }

  /**
   * readObj on a file whose lines are rs: count, allocate from the counts,
   * decrement the stored normal and triangle counts, then populate.
   */
  method ReadObj(rs: seq<Record>, scan: CoordScanner, stale: ScanVars) returns (model: Model)
    ensures model.numVertices == CountKind(rs, Vertex)
    ensures model.numNormals == CountKind(rs, Normal) - 1
    ensures model.numTriangles == CountKind(rs, Face) - 1
    ensures model.vertices.Length == FixedSlots(CountKind(rs, Vertex))
    ensures model.normals.Length == FixedSlots(CountKind(rs, Normal))
    ensures model.triangles.Length == CountKind(rs, Face)
    ensures model.projects.Length == AsWrittenSlots(CountKind(rs, Vertex))
    ensures model.curs.Length == AsWrittenSlots(CountKind(rs, Vertex))
    ensures var st := Populate(Start(stale), rs, scan);
      && CoordsFilled(model.vertices[..], st.vertices)
      && CoordsFilled(model.normals[..], st.normals)
      && TrianglesFilled(model.triangles[..], st.triangles)
  {
    model := new Model();
    ReadObjFirstPass(model, rs);
    AllocateFromCounts(model);
    ghost var vertices0, normals0, triangles0 := model.vertices[..], model.normals[..], model.triangles[..];
    ReadObjSecondPass(model, rs, scan, stale);
    ghost var st := Populate(Start(stale), rs, scan);
    CoordsFromZero(model.vertices[..], vertices0, st.vertices);
    CoordsFromZero(model.normals[..], normals0, st.normals);
    WritesInBounds(rs, scan, stale);
    TrianglesFromBlank(model.triangles[..], triangles0, st.triangles);
  }
}
