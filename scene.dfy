/**
 * The scene bookkeeping of src/scene.cc: face comparison, adding meshes and the
 * count and accessor queries; and `Scene::load` of src/mesh.cc, which reads an OBJ
 * file's lines into new meshes.
 */
module Scenes {
  import opened Wrappers
  import opened Records
  import opened Vectors
  import opened ObjText
  import opened MtlFiles
  import opened ObjFiles

  // ---------------------------------------------------------------------------
  // Face::operator== (src/scene.cc)

  /** `FEQ`: the two numbers differ by less than 1e-8. */
  predicate Feq(a: real, b: real) {
    Abs(a - b) < 0.00000001
  }

  /**
   * The faces agree within the tolerance on x, y and z of every vertex position and
   * vertex normal, and on x, y and z of the face normal.
   */
  predicate FacesMatch(a: Face, b: Face) {
    (forall i, j :: 0 <= i < 3 && 0 <= j < 3 ==>
       Feq(a.v[i].pos[j], b.v[i].pos[j]) && Feq(a.v[i].normal[j], b.v[i].normal[j]))
    && (forall i :: 0 <= i < 3 ==> Feq(a.normal[i], b.normal[i]))
  }

  /** `Face::operator==`: scans vertex by vertex and returns false at the first mismatch. */
  method FaceEquals(a: Face, b: Face) returns (r: bool)
    ensures r <==> FacesMatch(a, b)
  {
    for i := 0 to 3
      invariant forall i', j :: 0 <= i' < i && 0 <= j < 3 ==>
        Feq(a.v[i'].pos[j], b.v[i'].pos[j]) && Feq(a.v[i'].normal[j], b.v[i'].normal[j])
      invariant forall i' :: 0 <= i' < i ==> Feq(a.normal[i'], b.normal[i'])
    {
      for j := 0 to 3
        invariant forall i', j' :: 0 <= i' < i && 0 <= j' < 3 ==>
          Feq(a.v[i'].pos[j'], b.v[i'].pos[j']) && Feq(a.v[i'].normal[j'], b.v[i'].normal[j'])
        invariant forall j' :: 0 <= j' < j ==>
          Feq(a.v[i].pos[j'], b.v[i].pos[j']) && Feq(a.v[i].normal[j'], b.v[i].normal[j'])
      {
        if !Feq(a.v[i].pos[j], b.v[i].pos[j]) {
          return false;
        }
        if !Feq(a.v[i].normal[j], b.v[i].normal[j]) {
          return false;
        }
      }
      if !Feq(a.normal[i], b.normal[i]) {
        return false;
      }
    }
    return true;
  }

  lemma FacesMatchReflexive(a: Face)
    ensures FacesMatch(a, a)
  {
  }

  lemma FacesMatchSymmetric(a: Face, b: Face)
    ensures FacesMatch(a, b) <==> FacesMatch(b, a)
  {
    forall x: real, y: real
      ensures Feq(x, y) <==> Feq(y, x)
    {
      assert Abs(x - y) == Abs(y - x);
    }
  }

  /** The two faces have the same positions, vertex normals and face normal in x, y and z. */
  predicate SameGeometry(a: Face, a': Face) {
    (forall i, j :: 0 <= i < 3 && 0 <= j < 3 ==> a.v[i].pos[j] == a'.v[i].pos[j] && a.v[i].normal[j] == a'.v[i].normal[j])
    && (forall i :: 0 <= i < 3 ==> a.normal[i] == a'.normal[i])
  }

  /** Texture coordinates, `matid`, fourth components and padding play no part in `==`. */
  lemma FacesMatchSeesOnlyGeometry(a: Face, a': Face, b: Face)
    requires SameGeometry(a, a')
    ensures FacesMatch(a, b) <==> FacesMatch(a', b)
  {
  }

  /** The tolerance makes `==` intransitive: three faces whose normals' x are 0, 0.6e-8 and 1.2e-8. */
  lemma FacesMatchNotTransitive()
    ensures exists a: Face, b: Face, c: Face :: FacesMatch(a, b) && FacesMatch(b, c) && !FacesMatch(a, c)
  {
    var z := [0.0, 0.0, 0.0, 0.0];
    var vs: Vertex3 := [BlankVertex, BlankVertex, BlankVertex];
    var a := Face(vs, z, 0, [0, 0, 0]);
    var b := Face(vs, [0.000000006, 0.0, 0.0, 0.0], 0, [0, 0, 0]);
    var c := Face(vs, [0.000000012, 0.0, 0.0, 0.0], 0, [0, 0, 0]);
    assert FacesMatch(a, b);
    assert FacesMatch(b, c);
    assert !Feq(a.normal[0], c.normal[0]);
  }

  // ---------------------------------------------------------------------------
  // Meshes and the scene (src/scene.cc)

  /** `fs` with every `matid` set to `id`. */
  function Stamped(fs: seq<Face>, id: int): (r: seq<Face>)
    ensures |r| == |fs|
    ensures forall i :: 0 <= i < |fs| ==> r[i].matid == id && r[i].(matid := fs[i].matid) == fs[i]
  {
    seq(|fs|, i requires 0 <= i < |fs| => fs[i].(matid := id))
  }

  /** Stamping a second time with the same id changes nothing. */
  lemma StampedIdempotent(fs: seq<Face>, id: int)
    ensures Stamped(Stamped(fs, id), id) == Stamped(fs, id)
  {
  }

  /** Sum of the face counts of `ms`. */
  function TotalFaces(ms: seq<Mesh>): int
    reads set k | 0 <= k < |ms| :: ms[k]
  {
    if |ms| == 0 then 0 else TotalFaces(ms[..|ms| - 1]) + |ms[|ms| - 1].faces|
  }

  class Scene {
    var meshes: seq<Mesh>
    var matlib: seq<Material>

    constructor ()
      ensures meshes == [] && matlib == []
    {
      meshes := [];
      matlib := [];
    }

    /** `add_mesh`: stamps the mesh's material id onto its faces, then appends it. */
    method AddMesh(m: Mesh) returns (ok: bool)
      modifies this, m
      ensures m.faces == Stamped(old(m.faces), old(m.matid)) && m.matid == old(m.matid)
      ensures meshes == old(meshes) + [m] && matlib == old(matlib)
      ensures NumMeshes() == old(NumMeshes()) + 1 && meshes[NumMeshes() - 1] == m
      ensures ok
    {
      var i := 0;
      ghost var fs := m.faces;
      while i < |m.faces|
        invariant 0 <= i <= |m.faces| == |fs|
        invariant m.faces == Stamped(fs[..i], m.matid) + fs[i..]
        invariant fs == old(m.faces) && m.matid == old(m.matid)
        invariant meshes == old(meshes) && matlib == old(matlib)
      {
        m.faces := m.faces[i := m.faces[i].(matid := m.matid)];
        i := i + 1;
      }
      assert fs[..i] == fs;
      meshes := meshes + [m];
      return true;
    }

    /**
     * `Scene::load`: reads the lines in order, then groups the faces still pending
     * into a last mesh. The new meshes are appended as they are built; the outcome is
     * whether any was added, or `OutOfRange` where a face refers past a list's end.
     */
    method Load(lines: seq<seq<string>>, io: Inputs, names: MaterialNames) returns (r: LoadOutcome)
      modifies this, names
      ensures |meshes| >= |old(meshes)| && meshes[..|old(meshes)|] == old(meshes) && matlib == old(matlib)
      ensures forall k :: |old(meshes)| <= k < |meshes| ==> fresh(meshes[k])
      ensures r == Outcome(LoadAll(old(names.ids), lines, io))
      ensures r != OutOfRange ==>
        MeshesData(meshes[|old(meshes)|..]) == LoadAll(old(names.ids), lines, io).added
        && names.ids == LoadAll(old(names.ids), lines, io).matnames
    {
      ghost var init := InitialLoad(names.ids);
      var obj := new ObjFile();
      var prevCmd, overrun, objAdded;
      ghost var made;
      prevCmd, overrun, objAdded, made := ReadLines(obj, lines, io, names, init);
      if overrun {
        return OutOfRange;
      }
      var added;
      ghost var made';
      overrun, added, made' := FlushMesh(obj, io.blank, names, prevCmd, made, LoadLines(init, lines, io));
      AppendAssociates(old(meshes), made, made');
      assert meshes[..|old(meshes)|] == old(meshes) && meshes[|old(meshes)|..] == made + made';
      if overrun {
        return OutOfRange;
      }
      ghost var fin := LoadAll(old(names.ids), lines, io);
      assert fin == Flush(LoadLines(init, lines, io), io.blank);
      assert fin.added == MeshesData(made + made');
      objAdded := objAdded + added;
      return Loaded(objAdded > 0);
    }

    /** `Scene::load`'s loop over the lines, which stops where a face refers past a list's end. */
    method ReadLines(obj: ObjFile, lines: seq<seq<string>>, io: Inputs, names: MaterialNames, ghost init: LoadState)
      returns (prevCmd: int, overrun: bool, objAdded: int, ghost made: seq<Mesh>)
      requires Represents(obj, CMD_V, names, [], init)
      modifies this, obj, names
      ensures meshes == old(meshes) + made && objAdded == |made| && matlib == old(matlib)
      ensures forall k :: 0 <= k < |made| ==> fresh(made[k])
      ensures overrun == LoadLines(init, lines, io).overrun
      ensures !overrun ==> Represents(obj, prevCmd, names, made, LoadLines(init, lines, io))
    {
      prevCmd, overrun, objAdded, made := CMD_V, false, 0, [];
      ghost var st := init;
      for i := 0 to |lines|
        invariant meshes == old(meshes) + made && objAdded == |made| && matlib == old(matlib)
        invariant forall k :: 0 <= k < |made| ==> fresh(made[k])
        invariant st == LoadLines(init, lines[..i], io)
        invariant Represents(obj, prevCmd, names, made, st)
      {
        NextLine(init, lines, i, io);
        var added;
        ghost var made';
        prevCmd, overrun, added, made', st := ReadLine(obj, prevCmd, lines[i], io, names, made, st);
        AppendAssociates(old(meshes), made, made');
        made := made + made';
        if overrun {
          OverrunPrefix(init, lines, i + 1, io);
          return;
        }
        objAdded := objAdded + added;
      }
      assert lines[..|lines|] == lines;
    }

    /** One pass of `Scene::load`'s loop; `continue` returns before `prev_cmd` is updated. */
    method ReadLine(obj: ObjFile, prevCmd: int, line: seq<string>, io: Inputs, names: MaterialNames,
                    ghost made: seq<Mesh>, ghost st: LoadState)
      returns (prevCmd': int, overrun: bool, added: int, ghost made': seq<Mesh>, ghost st': LoadState)
      requires Represents(obj, prevCmd, names, made, st)
      modifies this, obj, names
      ensures meshes == old(meshes) + made' && added == |made'| && matlib == old(matlib)
      ensures forall k :: 0 <= k < |made'| ==> fresh(made'[k])
      ensures st' == LoadLine(st, line, io) && overrun == st'.overrun && (overrun ==> added == 0)
      ensures !overrun ==> Represents(obj, prevCmd', names, made + made', st')
    {
      st' := LoadLine(st, line, io);
      prevCmd', overrun, added, made' := prevCmd, false, 0, [];
      assert made + made' == made;
      if |line| == 0 {
        return;
      }
      var tok := new char[|line[0]|](k requires 0 <= k < |line[0]| => line[0][k]);
      assert tok[..] == line[0];
      var cmd := GetCmd(tok);
      var reached;
      reached, overrun, added, made' := Apply(obj, cmd, line[1..], io, names, prevCmd, made, st);
      if reached {
        prevCmd' := cmd;
      }
    }

    /** The switch on the command: a `continue` is a false `reached`. */
    method Apply(obj: ObjFile, cmd: int, args: seq<string>, io: Inputs, names: MaterialNames,
                 prevCmd: int, ghost made: seq<Mesh>, ghost st: LoadState)
      returns (reached: bool, overrun: bool, added: int, ghost made': seq<Mesh>)
      requires Represents(obj, prevCmd, names, made, st)
      modifies this, obj, names
      ensures meshes == old(meshes) + made' && added == |made'| && matlib == old(matlib)
      ensures forall k :: 0 <= k < |made'| ==> fresh(made'[k])
      ensures reached == LineEffect(st, cmd, args, io).1
      ensures overrun == LineEffect(st, cmd, args, io).0.overrun && (overrun ==> added == 0)
      ensures !overrun ==> Represents(obj, prevCmd, names, made + made', LineEffect(st, cmd, args, io).0)
    {
      reached, overrun, added, made' := true, false, 0, [];
      assert made + made' == made;
      if cmd == CMD_O || cmd == CMD_G {
        if !(prevCmd == CMD_O || prevCmd == CMD_G) {
          overrun, added, made' := FlushMesh(obj, io.blank, names, prevCmd, made, st);
        }
      } else if cmd == CMD_MTLLIB {
        if |args| > 0 {
          var lib := io.libs(args[0]);
          if lib.None? {
            return false, false, 0, [];
          }
          // read_materials always succeeds
          var _, vmtl := ReadMaterials(lib.value, io.nums);
          names.Register(vmtl);
        }
      } else {
        reached := obj.ReadObjLine(cmd, args, io.nums);
      }
    }

    /** Groups the pending faces into a new mesh with the current material's id, if there are any. */
    method FlushMesh(obj: ObjFile, blank: Face, names: MaterialNames, ghost prevCmd: int,
                     ghost made: seq<Mesh>, ghost st: LoadState)
      returns (overrun: bool, added: int, ghost made': seq<Mesh>)
      requires Represents(obj, prevCmd, names, made, st)
      modifies this, obj, names
      ensures meshes == old(meshes) + made' && added == |made'| && matlib == old(matlib)
      ensures forall k :: 0 <= k < |made'| ==> fresh(made'[k])
      ensures overrun == Flush(st, blank).overrun && (overrun ==> added == 0)
      ensures !overrun ==> Represents(obj, prevCmd, names, made + made', Flush(st, blank))
    {
      overrun, added, made' := false, 0, [];
      assert made + made' == made;
      if |obj.f| == 0 {
        return;
      }
      if !FacesInRange(obj.f, |obj.v|, |Padded(obj.vn)|, |Padded(obj.vt)|) {
        return true, 0, [];
      }
      var mesh := ConsMesh(obj, blank);
      var id := names.Get(obj.curMat);
      mesh.matid := id;
      meshes := meshes + [mesh];
      made' := [mesh];
      assert (made + made')[..|made|] == made;
      obj.f := [];
      added := 1;
    }

    /** `get_num_meshes`. */
    function NumMeshes(): (n: nat)
      reads this
      ensures n == |meshes|
    {
      |meshes|
    }

    /** `get_num_materials`. */
    function NumMaterials(): (n: nat)
      reads this
      ensures n == |matlib|
    {
      |matlib|
    }

    /** `get_num_faces`: adds up the face counts mesh by mesh. */
    method NumFaces() returns (n: int)
      ensures n == TotalFaces(meshes)
    {
      n := 0;
      for i := 0 to |meshes|
        invariant n == TotalFaces(meshes[..i])
      {
        assert meshes[..i + 1][..i] == meshes[..i];
        n := n + |meshes[i].faces|;
      }
      assert meshes[..|meshes|] == meshes;
    }

    /**
     * Both overloads of `get_materials`: null for an empty library, otherwise the
     * address of the first material, modelled as its index.
     */
    function Materials(): (p: Option<nat>)
      reads this
      ensures p.None? <==> |matlib| == 0
      ensures p.Some? ==> p.value == 0 && p.value < |matlib|
    {
      if |matlib| == 0 then None else Some(0)
    }
  }

  lemma AppendAssociates<T>(a: seq<T>, b: seq<T>, c: seq<T>)
    ensures (a + b) + c == a + (b + c)
  {
  }

  /**
   * The loader's state `st` is held by `obj`, `prevCmd`, the material names and the
   * meshes `made` so far.
   */
  ghost predicate Represents(obj: ObjFile, prevCmd: int, names: MaterialNames, made: seq<Mesh>, st: LoadState)
    reads obj, names, made
  {
    !st.overrun && st.obj == obj.Data() && st.prevCmd == prevCmd
    && st.matnames == names.ids && st.added == MeshesData(made)
  }

  /** Appending a mesh adds its face count to the total. */
  lemma {:induction false} TotalFacesAppend(ms: seq<Mesh>, m: Mesh)
    ensures TotalFaces(ms + [m]) == TotalFaces(ms) + |m.faces|
  {
    assert (ms + [m])[..|ms|] == ms;
  }

  /** Every mesh holds a non-negative number of faces. */
  lemma {:induction false} TotalFacesNonNegative(ms: seq<Mesh>)
    ensures TotalFaces(ms) >= 0
    decreases |ms|
  {
    if |ms| > 0 {
      TotalFacesNonNegative(ms[..|ms| - 1]);
    }
  }
}
