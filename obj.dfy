/**
 * The OBJ reader's working state and mesh construction in src/mesh.cc: `obj_file`,
 * `cons_mesh`, and the line-by-line meaning of `Scene::load(FILE*)` that the
 * scene's loader follows.
 *
 * The file reaches the reader as its sequence of lines, each already split into
 * tokens. Material libraries are looked up by name through `libs`, which yields a
 * library's lines, or `None` when it cannot be found or opened. The fields of
 * `Face` that `cons_mesh` never writes come from `blank`.
 */
module ObjFiles {
  import opened Wrappers
  import opened Vectors
  import opened Records
  import opened ObjText
  import opened MtlFiles

  /** `obj_file`, less the current object name, which nothing reads. */
  class ObjFile {
    var curMat: string
    var v: seq<Vec3>
    var vn: seq<Vec3>
    var vt: seq<Vec3>
    var f: seq<ObjFace>

    constructor ()
      ensures curMat == "" && v == [] && vn == [] && vt == [] && f == []
    {
      curMat := "";
      v, vn, vt, f := [], [], [], [];
    }

    function Data(): ObjData
      reads this
    {
      ObjData(curMat, v, vn, vt, f)
    }

    /** The cases of `Scene::load`'s switch that only change the `obj_file`. */
    method ReadObjLine(cmd: int, args: seq<string>, nums: Numbers) returns (reached: bool)
      modifies this
      ensures (Data(), reached) == ObjEffect(old(Data()), cmd, args, nums)
    {
      reached := true;
      if cmd == CMD_V || cmd == CMD_VN || cmd == CMD_VT {
        var ok, vec := ParseVec(args, nums);
        if !ok {
          return false;
        }
        if cmd == CMD_V {
          v := v + [vec];
        } else if cmd == CMD_VN {
          vn := vn + [vec];
        } else {
          vec := vec.(y := 1.0 - vec.y);
          vt := vt + [vec];
        }
      } else if cmd == CMD_USEMTL {
        curMat := if |args| > 0 then args[0] else "";
      } else if cmd == CMD_F {
        reached := AddFace(args, nums);
      }
    }

    /** `f`: parses the face, resolves negative indices, and stores it, a quad as two records. */
    method AddFace(args: seq<string>, nums: Numbers) returns (ok: bool)
      modifies this
      ensures ok <==> ParsedFace(args, nums).Some?
      ensures ok ==> Data() == old(Data()).(f := old(f) + Triangles(Fixed(ParsedFace(args, nums).value, |v|, |vn|, |vt|)))
      ensures !ok ==> Data() == old(Data())
    {
      var face;
      ok, face := ParseFace(args, nums);
      if !ok {
        return;
      }
      ParsedRecord(face, args, nums);
      ghost var parsed := face;
      face := FixIndices(face, |v|, |vn|, |vt|);
      FixedRecord(parsed, face, |v|, |vn|, |vt|);
      Store(face);
    }

    /** Pushes the face record, and for a quad a second one for the other half. */
    method Store(face: ObjFace)
      modifies this
      ensures Data() == old(Data()).(f := old(f) + Triangles(face))
    {
      var g := face;
      f := f + [g];
      if g.elem == 4 {
        g := g.(v := g.v[1 := g.v[2]][2 := g.v[3]],
                n := g.n[1 := g.n[2]][2 := g.n[3]],
                t := g.t[1 := g.t[2]][2 := g.t[3]]);
        QuadRecords(face, g);
        f := f + [g];
      }
    }
  }

  /** The contents of an `ObjFile`. */
  datatype ObjData = ObjData(curMat: string, v: seq<Vec3>, vn: seq<Vec3>, vt: seq<Vec3>, f: seq<ObjFace>)

  // ---------------------------------------------------------------------------
  // cons_mesh

  /** A list with the zero placeholder `cons_mesh` pushes when it is empty. */
  function Padded(vs: seq<Vec3>): (r: seq<Vec3>)
    ensures |r| >= 1
    ensures |vs| > 0 ==> r == vs
    ensures |vs| == 0 ==> r == [Vec3(0.0, 0.0, 0.0)]
  {
    if |vs| == 0 then [Vec3(0.0, 0.0, 0.0)] else vs
  }

  /** A negative normal or texcoord index reads slot 0. */
  function Slot(x: Int32): nat {
    if x < 0 then 0 else x
  }

  /**
   * `cons_mesh` indexes the lists without checking: every corner's vertex index must
   * be in `v`, and its normal and texcoord indices in the (padded) lists.
   */
  predicate FaceInRange(fr: ObjFace, nv: nat, nn: nat, nt: nat) {
    forall j :: 0 <= j < 3 ==> 0 <= fr.v[j] < nv && Slot(fr.n[j]) < nn && Slot(fr.t[j]) < nt
  }

  predicate FacesInRange(fs: seq<ObjFace>, nv: nat, nn: nat, nt: nat) {
    forall i :: 0 <= i < |fs| ==> FaceInRange(fs[i], nv, nn, nt)
  }

  /** Corner `j` of a face record, written over the vertex `b`. */
  function CornerVertex(fr: ObjFace, j: nat, v: seq<Vec3>, vn: seq<Vec3>, vt: seq<Vec3>, b: Vertex): Vertex
    requires j < 3 && FaceInRange(fr, |v|, |vn|, |vt|)
  {
    var p := v[fr.v[j]];
    var n := vn[Slot(fr.n[j])];
    var t := vt[Slot(fr.t[j])];
    b.(pos := [p.x, p.y, p.z, b.pos[3]], normal := [n.x, n.y, n.z, b.normal[3]], tex := [t.x, t.y, b.tex[2], b.tex[3]])
  }

  /** The `Face` built from one face record. */
  function ConsFace(fr: ObjFace, v: seq<Vec3>, vn: seq<Vec3>, vt: seq<Vec3>, blank: Face): Face
    requires FaceInRange(fr, |v|, |vn|, |vt|)
  {
    blank.(v := [CornerVertex(fr, 0, v, vn, vt, blank.v[0]),
                 CornerVertex(fr, 1, v, vn, vt, blank.v[1]),
                 CornerVertex(fr, 2, v, vn, vt, blank.v[2])])
  }

  /** One `Face` per face record, in order. */
  function MeshFaces(fs: seq<ObjFace>, v: seq<Vec3>, vn: seq<Vec3>, vt: seq<Vec3>, blank: Face): (r: seq<Face>)
    requires FacesInRange(fs, |v|, |vn|, |vt|)
    ensures |r| == |fs|
  {
    seq(|fs|, i requires 0 <= i < |fs| => ConsFace(fs[i], v, vn, vt, blank))
  }

  /**
   * Each corner of a built face takes its position from the vertex list, its normal
   * and texcoord from slot `max(index, 0)` of the normal and texcoord lists; the face
   * normal, `matid`, padding and the unused components are those of `blank`.
   */
  lemma ConsFaceCorners(fr: ObjFace, v: seq<Vec3>, vn: seq<Vec3>, vt: seq<Vec3>, blank: Face, j: nat)
    requires FaceInRange(fr, |v|, |vn|, |vt|) && j < 3
    ensures var c := ConsFace(fr, v, vn, vt, blank);
      var p := v[fr.v[j]];
      var n := if fr.n[j] < 0 then vn[0] else vn[fr.n[j]];
      var t := if fr.t[j] < 0 then vt[0] else vt[fr.t[j]];
      c.v[j].pos[..3] == [p.x, p.y, p.z] && c.v[j].normal[..3] == [n.x, n.y, n.z]
      && c.v[j].tex[..2] == [t.x, t.y]
      && c.normal == blank.normal && c.matid == blank.matid && c.padding == blank.padding
  {
  }

  /** Without any `vn` or `vt` lines every corner gets a zero normal and zero texcoord. */
  lemma Placeholders(fr: ObjFace, v: seq<Vec3>, blank: Face, j: nat)
    requires FaceInRange(fr, |v|, 1, 1) && j < 3
    ensures var c := ConsFace(fr, v, [Vec3(0.0, 0.0, 0.0)], [Vec3(0.0, 0.0, 0.0)], blank);
      c.v[j].normal[..3] == [0.0, 0.0, 0.0] && c.v[j].tex[..2] == [0.0, 0.0]
  {
  }

  /**
   * `cons_mesh`: builds a new mesh with one face per face record, reading through a
   * zero placeholder normal and texcoord pushed when a list is empty and popped
   * afterwards, so the lists end as they began.
   */
  method ConsMesh(obj: ObjFile, blank: Face) returns (mesh: Mesh)
    requires FacesInRange(obj.f, |obj.v|, |Padded(obj.vn)|, |Padded(obj.vt)|)
    modifies obj
    ensures obj.Data() == old(obj.Data())
    ensures fresh(mesh)
    ensures mesh.faces == MeshFaces(obj.f, obj.v, Padded(obj.vn), Padded(obj.vt), blank)
  {
    var addedNorm, addedTc := false, false;
    if |obj.vn| == 0 {
      obj.vn := obj.vn + [Vec3(0.0, 0.0, 0.0)];
      addedNorm := true;
    }
    if |obj.vt| == 0 {
      obj.vt := obj.vt + [Vec3(0.0, 0.0, 0.0)];
      addedTc := true;
    }
    var fs, v, vn, vt := obj.f, obj.v, obj.vn, obj.vt;
    assert fs == old(obj.f) && v == old(obj.v) && vn == Padded(old(obj.vn)) && vt == Padded(old(obj.vt));
    assert FacesInRange(fs, |v|, |vn|, |vt|);
    mesh := new Mesh([], 0);
    for i := 0 to |fs|
      modifies mesh
      invariant fresh(mesh)
      invariant |mesh.faces| == i
      invariant forall k :: 0 <= k < i ==> mesh.faces[k] == ConsFace(fs[k], v, vn, vt, blank)
    {
      var face := BuildFace(fs[i], v, vn, vt, blank);
      mesh.faces := mesh.faces + [face];
    }
    assert mesh.faces == MeshFaces(fs, v, vn, vt, blank);
    if addedNorm {
      obj.vn := obj.vn[..|obj.vn| - 1];
    }
    if addedTc {
      obj.vt := obj.vt[..|obj.vt| - 1];
    }
    assert obj.vn == old(obj.vn) && obj.vt == old(obj.vt);
  }

  /** The body of `cons_mesh`'s loop: the three corners written over `blank`. */
  method BuildFace(fr: ObjFace, v: seq<Vec3>, vn: seq<Vec3>, vt: seq<Vec3>, blank: Face) returns (face: Face)
    requires FaceInRange(fr, |v|, |vn|, |vt|)
    ensures face == ConsFace(fr, v, vn, vt, blank)
  {
    face := blank;
    for j := 0 to 3
      invariant face.normal == blank.normal && face.matid == blank.matid && face.padding == blank.padding
      invariant forall k :: 0 <= k < j ==> face.v[k] == CornerVertex(fr, k, v, vn, vt, blank.v[k])
      invariant forall k :: j <= k < 3 ==> face.v[k] == blank.v[k]
    {
      var p := v[fr.v[j]];
      var nidx := if fr.n[j] < 0 then 0 else fr.n[j];
      var n := vn[nidx];
      var tidx := if fr.t[j] < 0 then 0 else fr.t[j];
      var t := vt[tidx];
      var c := face.v[j];
      c := c.(pos := [p.x, p.y, p.z, c.pos[3]], normal := [n.x, n.y, n.z, c.normal[3]], tex := [t.x, t.y, c.tex[2], c.tex[3]]);
      face := face.(v := face.v[j := c]);
    }
    assert face.v == [face.v[0], face.v[1], face.v[2]];
  }

  // ---------------------------------------------------------------------------
  // The material-name table

  /** `matnames[name]`: the id of a name, inserting 0 for a name not seen before. */
  function MatLookup(names: map<string, int>, name: string): (r: (int, map<string, int>))
    ensures name in r.1 && r.0 == r.1[name]
    ensures name in names ==> r.1 == names
    ensures name !in names ==> r.0 == 0 && r.1 == names[name := 0]
  {
    if name in names then (names[name], names) else (0, names[name := 0])
  }

  /** The mtllib loop: each material's name maps to its position in its library. */
  function Registered(names: map<string, int>, vmtl: seq<ObjMat>): map<string, int>
    decreases |vmtl|
  {
    if |vmtl| == 0 then names
    else Registered(names, vmtl[..|vmtl| - 1])[vmtl[|vmtl| - 1].name := |vmtl| - 1]
  }

  /** A name defined in the library maps to its last position there; other names keep their ids. */
  lemma {:induction false} RegisteredLookup(names: map<string, int>, vmtl: seq<ObjMat>, name: string)
    ensures (exists k :: 0 <= k < |vmtl| && vmtl[k].name == name) ==>
      name in Registered(names, vmtl)
      && 0 <= Registered(names, vmtl)[name] < |vmtl|
      && vmtl[Registered(names, vmtl)[name]].name == name
      && forall k :: Registered(names, vmtl)[name] < k < |vmtl| ==> vmtl[k].name != name
    ensures (forall k :: 0 <= k < |vmtl| ==> vmtl[k].name != name) ==>
      (name in Registered(names, vmtl) <==> name in names)
      && (name in names ==> Registered(names, vmtl)[name] == names[name])
    decreases |vmtl|
  {
    if |vmtl| > 0 {
      var init := vmtl[..|vmtl| - 1];
      RegisteredLookup(names, init, name);
      if vmtl[|vmtl| - 1].name != name {
        if exists k :: 0 <= k < |vmtl| && vmtl[k].name == name {
          var k :| 0 <= k < |vmtl| && vmtl[k].name == name;
          assert init[k].name == name;
        }
      }
    }
  }

  /** The file-wide `matnames` table, which outlives a single load. */
  class MaterialNames {
    var ids: map<string, int>

    constructor ()
      ensures ids == map[]
    {
      ids := map[];
    }

    /** `matnames[name]`, which inserts 0 for an unknown name. */
    method Get(name: string) returns (id: int)
      modifies this
      ensures (id, ids) == MatLookup(old(ids), name)
    {
      if name !in ids {
        ids := ids[name := 0];
      }
      id := ids[name];
    }

    /** The mtllib loop `matnames[vmtl[i].name] = i`. */
    method Register(vmtl: seq<ObjMat>)
      modifies this
      ensures ids == Registered(old(ids), vmtl)
    {
      for i := 0 to |vmtl|
        invariant ids == Registered(old(ids), vmtl[..i])
      {
        assert vmtl[..i + 1][..i] == vmtl[..i];
        ids := ids[vmtl[i].name := i];
      }
      assert vmtl[..|vmtl|] == vmtl;
    }
  }

  // ---------------------------------------------------------------------------
  // Scene::load, line by line

  /** A mesh as the loader leaves it: its faces and its material id. */
  datatype MeshData = MeshData(faces: seq<Face>, matid: int)

  /**
   * The loader's state between lines. `overrun` records that `cons_mesh` would have
   * read outside a list, which the source does not check; nothing happens after it.
   */
  datatype LoadState = LoadState(obj: ObjData, prevCmd: int, added: seq<MeshData>,
                                 matnames: map<string, int>, overrun: bool)

  /** What the loader receives besides the lines. */
  datatype Inputs = Inputs(nums: Numbers, libs: string -> Option<seq<seq<string>>>, blank: Face)

  function InitialLoad(matnames: map<string, int>): LoadState {
    LoadState(ObjData("", [], [], [], []), CMD_V, [], matnames, false)
  }

  /**
   * Groups pending faces into a mesh, as `o`, `g` and the end of input do: nothing if
   * there are none, otherwise a mesh with the current material's id and an empty face list.
   */
  function Flush(st: LoadState, blank: Face): (r: LoadState)
    ensures r.prevCmd == st.prevCmd
    ensures |st.obj.f| == 0 ==> r == st
    ensures !r.overrun && |st.obj.f| > 0 ==> |r.added| == |st.added| + 1 && r.obj.f == []
    ensures !r.overrun ==> r.added[..|st.added|] == st.added
  {
    var o := st.obj;
    if |o.f| == 0 then st
    else if !FacesInRange(o.f, |o.v|, |Padded(o.vn)|, |Padded(o.vt)|) then st.(overrun := true)
    else
      var (id, names) := MatLookup(st.matnames, o.curMat);
      st.(obj := o.(f := []),
          added := st.added + [MeshData(MeshFaces(o.f, o.v, Padded(o.vn), Padded(o.vt), blank), id)],
          matnames := names)
  }

  /** The face record as `parse_face` fills it, when it succeeds. */
  function ParsedFace(args: seq<string>, nums: Numbers): Option<ObjFace> {
    if IntAt(args, 0, nums) && IntAt(args, 1, nums) && IntAt(args, 2, nums) then
      var c0, c1, c2, c3 := Corner(Tok(args, 0), nums), Corner(Tok(args, 1), nums),
                            Corner(Tok(args, 2), nums), Corner(Tok(args, 3), nums);
      Some(ObjFace(if IntAt(args, 3, nums) then 4 else 3,
                   [c0.0, c1.0, c2.0, c3.0], [c0.2, c1.2, c2.2, c3.2], [c0.1, c1.1, c2.1, c3.1]))
    else
      None
  }

  /** The face after negative indices are resolved against the current list sizes. */
  function Fixed(fr: ObjFace, nv: nat, nn: nat, nt: nat): ObjFace {
    ObjFace(fr.elem,
            [FixIndex(fr.v[0], nv), FixIndex(fr.v[1], nv), FixIndex(fr.v[2], nv), FixIndex(fr.v[3], nv)],
            [FixIndex(fr.n[0], nn), FixIndex(fr.n[1], nn), FixIndex(fr.n[2], nn), FixIndex(fr.n[3], nn)],
            [FixIndex(fr.t[0], nt), FixIndex(fr.t[1], nt), FixIndex(fr.t[2], nt), FixIndex(fr.t[3], nt)])
  }

  /** A record whose corners are those of the tokens is the one `ParsedFace` describes. */
  lemma ParsedRecord(face: ObjFace, args: seq<string>, nums: Numbers)
    requires IntAt(args, 0, nums) && IntAt(args, 1, nums) && IntAt(args, 2, nums)
    requires face.elem == if IntAt(args, 3, nums) then 4 else 3
    requires forall i :: 0 <= i < 4 ==> (face.v[i], face.t[i], face.n[i]) == Corner(Tok(args, i), nums)
    ensures ParsedFace(args, nums) == Some(face)
  {
    assert face.v == [face.v[0], face.v[1], face.v[2], face.v[3]];
    assert face.n == [face.n[0], face.n[1], face.n[2], face.n[3]];
    assert face.t == [face.t[0], face.t[1], face.t[2], face.t[3]];
  }

  /** A record whose indices are those of `fr` resolved one by one is the one `Fixed` describes. */
  lemma FixedRecord(fr: ObjFace, r: ObjFace, nv: nat, nn: nat, nt: nat)
    requires r.elem == fr.elem
    requires forall i :: 0 <= i < 4 ==>
      r.v[i] == FixIndex(fr.v[i], nv) && r.n[i] == FixIndex(fr.n[i], nn) && r.t[i] == FixIndex(fr.t[i], nt)
    ensures r == Fixed(fr, nv, nn, nt)
  {
    assert r.v == [r.v[0], r.v[1], r.v[2], r.v[3]];
    assert r.n == [r.n[0], r.n[1], r.n[2], r.n[3]];
    assert r.t == [r.t[0], r.t[1], r.t[2], r.t[3]];
  }

  /** The second record of a quad is the first with corners 1 and 2 moved up. */
  lemma QuadRecords(fr: ObjFace, g: ObjFace)
    requires fr.elem == 4
    requires g == fr.(v := fr.v[1 := fr.v[2]][2 := fr.v[3]],
                      n := fr.n[1 := fr.n[2]][2 := fr.n[3]],
                      t := fr.t[1 := fr.t[2]][2 := fr.t[3]])
    ensures [fr, g] == Triangles(fr)
  {
    assert g.v == [fr.v[0], fr.v[2], fr.v[3], fr.v[3]];
    assert g.n == [fr.n[0], fr.n[2], fr.n[3], fr.n[3]];
    assert g.t == [fr.t[0], fr.t[2], fr.t[3], fr.t[3]];
  }

  /**
   * What a line does, and whether it reaches `prev_cmd = cmd`: empty lines, lines
   * whose numbers do not parse and unusable material libraries are skipped with
   * `continue`, which leaves `prev_cmd` as it was.
   */
  function LineEffect(st: LoadState, cmd: int, args: seq<string>, io: Inputs): (r: (LoadState, bool))
    ensures r.0.prevCmd == st.prevCmd
  {
    if cmd == CMD_O || cmd == CMD_G then
      if st.prevCmd == CMD_O || st.prevCmd == CMD_G then (st, true) else (Flush(st, io.blank), true)
    else if cmd == CMD_MTLLIB then
      if |args| == 0 then (st, true)
      else match io.libs(args[0])
        case None => (st, false)
        case Some(lib) => (st.(matnames := Registered(st.matnames, MaterialsOf(lib, io.nums))), true)
    else
      var (o, reached) := ObjEffect(st.obj, cmd, args, io.nums);
      (st.(obj := o), reached)
  }

  /** The commands that only touch the `obj_file`: `v`, `vn`, `vt`, `usemtl` and `f`; others are ignored. */
  function ObjEffect(o: ObjData, cmd: int, args: seq<string>, nums: Numbers): (r: (ObjData, bool)) {
    if cmd == CMD_V || cmd == CMD_VN || cmd == CMD_VT then
      match VecOf(args, nums)
      case None => (o, false)
      case Some(vec) =>
        if cmd == CMD_V then (o.(v := o.v + [vec]), true)
        else if cmd == CMD_VN then (o.(vn := o.vn + [vec]), true)
        else (o.(vt := o.vt + [TexCoord(vec)]), true)
    else if cmd == CMD_USEMTL then
      (o.(curMat := if |args| > 0 then args[0] else ""), true)
    else if cmd == CMD_F then
      match ParsedFace(args, nums)
      case None => (o, false)
      case Some(fr) => (o.(f := o.f + Triangles(Fixed(fr, |o.v|, |o.vn|, |o.vt|))), true)
    else
      (o, true)
  }

  function LoadLine(st: LoadState, line: seq<string>, io: Inputs): LoadState {
    if st.overrun || |line| == 0 then st
    else
      var cmd := CommandOf(line[0]);
      var (st', reached) := LineEffect(st, cmd, line[1..], io);
      if reached then st'.(prevCmd := cmd) else st'
  }

  function LoadLines(st: LoadState, lines: seq<seq<string>>, io: Inputs): LoadState
    decreases |lines|
  {
    if |lines| == 0 then st else LoadLine(LoadLines(st, lines[..|lines| - 1], io), lines[|lines| - 1], io)
  }

  /** The state at the end of input: the lines, then the final grouping of pending faces. */
  function LoadAll(matnames: map<string, int>, lines: seq<seq<string>>, io: Inputs): LoadState {
    var st := LoadLines(InitialLoad(matnames), lines, io);
    if st.overrun then st else Flush(st, io.blank)
  }

  /** What `Scene::load` reports; `OutOfRange` stands for the unchecked read `cons_mesh` would make. */
  datatype LoadOutcome = Loaded(ok: bool) | OutOfRange

  /** The outcome the state at the end of input determines: success when a mesh was added. */
  function Outcome(st: LoadState): LoadOutcome {
    if st.overrun then OutOfRange else Loaded(|st.added| > 0)
  }

  /** The faces and material ids of a list of meshes. */
  function MeshesData(ms: seq<Mesh>): (r: seq<MeshData>)
    reads ms
    ensures |r| == |ms|
    decreases |ms|
  {
    if |ms| == 0 then [] else MeshesData(ms[..|ms| - 1]) + [MeshData(ms[|ms| - 1].faces, ms[|ms| - 1].matid)]
  }

  /** One more line of the prefix is one more step. */
  lemma NextLine(st: LoadState, lines: seq<seq<string>>, i: nat, io: Inputs)
    requires i < |lines|
    ensures LoadLines(st, lines[..i + 1], io) == LoadLine(LoadLines(st, lines[..i], io), lines[i], io)
  {
    assert lines[..i + 1][..i] == lines[..i];
  }

  /** Once a prefix of the lines overruns, the whole input does, since nothing happens afterwards. */
  lemma {:induction false} OverrunPrefix(st: LoadState, lines: seq<seq<string>>, i: nat, io: Inputs)
    requires i <= |lines| && LoadLines(st, lines[..i], io).overrun
    ensures LoadLines(st, lines, io).overrun
    decreases |lines|
  {
    if i == |lines| {
      assert lines[..i] == lines;
    } else {
      assert lines[..|lines| - 1][..i] == lines[..i];
      OverrunPrefix(st, lines[..|lines| - 1], i, io);
    }
  }

  // ---------------------------------------------------------------------------
  // Properties of the loader

  /** Every mesh in the list has at least one face. */
  predicate AllNonEmpty(ms: seq<MeshData>) {
    forall k :: 0 <= k < |ms| ==> |ms[k].faces| > 0
  }

  /** Every mesh the loader adds has at least one face. */
  lemma {:induction false} AddedMeshesNonEmpty(st: LoadState, lines: seq<seq<string>>, io: Inputs)
    requires AllNonEmpty(st.added)
    ensures AllNonEmpty(LoadLines(st, lines, io).added)
    decreases |lines|
  {
    if |lines| > 0 {
      AddedMeshesNonEmpty(st, lines[..|lines| - 1], io);
      LineKeepsNonEmpty(LoadLines(st, lines[..|lines| - 1], io), lines[|lines| - 1], io);
    }
  }

  lemma LineKeepsNonEmpty(st: LoadState, line: seq<string>, io: Inputs)
    requires AllNonEmpty(st.added)
    ensures AllNonEmpty(LoadLine(st, line, io).added)
  {
    FlushNonEmpty(st, io.blank);
  }

  lemma FlushNonEmpty(st: LoadState, blank: Face)
    requires AllNonEmpty(st.added)
    ensures AllNonEmpty(Flush(st, blank).added)
  {
  }

  /** Loading never forgets a mesh: the meshes added so far stay a prefix. */
  lemma {:induction false} AddedGrows(st: LoadState, lines: seq<seq<string>>, io: Inputs)
    ensures |st.added| <= |LoadLines(st, lines, io).added|
    ensures LoadLines(st, lines, io).added[..|st.added|] == st.added
    decreases |lines|
  {
    if |lines| > 0 {
      AddedGrows(st, lines[..|lines| - 1], io);
      var s := LoadLines(st, lines[..|lines| - 1], io);
      var r := LoadLines(st, lines, io);
      LineAddedGrows(s, lines[|lines| - 1], io);
      assert r.added[..|s.added|] == s.added;
      assert s.added[..|st.added|] == st.added;
      assert r.added[..|st.added|] == r.added[..|s.added|][..|st.added|];
    }
  }

  /** One line only appends to the meshes added. */
  lemma LineAddedGrows(st: LoadState, line: seq<string>, io: Inputs)
    ensures |st.added| <= |LoadLine(st, line, io).added|
    ensures LoadLine(st, line, io).added[..|st.added|] == st.added
  {
  }

  /** A second `o` or `g` straight after one of them groups nothing. */
  lemma GroupAfterGroup(st: LoadState, line: seq<string>, io: Inputs)
    requires !st.overrun && |line| > 0
    requires CommandOf(line[0]) in {CMD_O, CMD_G} && st.prevCmd in {CMD_O, CMD_G}
    ensures LoadLine(st, line, io) == st.(prevCmd := CommandOf(line[0]))
  {
  }

  /** An `f` line with a quad stores two records, (0, 1, 2) and (0, 2, 3) after fix-up. */
  lemma QuadSplit(st: LoadState, line: seq<string>, io: Inputs)
    requires !st.overrun && |line| > 0 && CommandOf(line[0]) == CMD_F
    requires ParsedFace(line[1..], io.nums).Some? && ParsedFace(line[1..], io.nums).value.elem == 4
    ensures var r := LoadLine(st, line, io);
      var fr := Fixed(ParsedFace(line[1..], io.nums).value, |st.obj.v|, |st.obj.vn|, |st.obj.vt|);
      |r.obj.f| == |st.obj.f| + 2 && r.obj.f[..|st.obj.f|] == st.obj.f
      && Triangle(r.obj.f[|st.obj.f|], fr, 0, 1, 2) && Triangle(r.obj.f[|st.obj.f| + 1], fr, 0, 2, 3)
      && r.prevCmd == CMD_F
  {
  }

  /** A line that is skipped with `continue` leaves `prev_cmd` alone. */
  lemma SkippedKeepsPrev(st: LoadState, line: seq<string>, io: Inputs)
    requires !st.overrun && |line| > 0 && CommandOf(line[0]) == CMD_V && VecOf(line[1..], io.nums).None?
    ensures LoadLine(st, line, io) == st
  {
  }
}
