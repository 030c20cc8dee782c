/**
 * The material-library reader of src/mesh.cc: `obj_mat`, its `reset` and
 * `read_materials`.
 *
 * A library reaches the reader as its sequence of lines, each already split into
 * tokens; the command word is the first token.
 */
module MtlFiles {
  import opened Wrappers
  import opened Vectors
  import opened ObjText

  /** `obj_mat`: one `newmtl` record. */
  datatype ObjMat = ObjMat(
    name: string,
    ambient: Vec3, diffuse: Vec3, specular: Vec3,
    shininess: real, ior: real, alpha: real,
    texDif: string, texSpec: string, texShin: string, texAlpha: string, texRefl: string, texBump: string)

  /** The record `obj_mat::reset` leaves, which is also what the constructor builds. */
  const DEFAULT_MAT := ObjMat("", Vec3(0.5, 0.5, 0.5), Vec3(0.5, 0.5, 0.5), Vec3(0.0, 0.0, 0.0),
    0.0, 1.0, 1.0, "", "", "", "", "", "")

  /** The reader's state between lines: the record being filled and those already finished. */
  datatype MtlState = MtlState(mat: ObjMat, done: seq<ObjMat>)

  /** What one line does to the reader's state. */
  function MtlLine(st: MtlState, line: seq<string>, nums: Numbers): (r: MtlState)
    ensures r.done == st.done || (r.done == st.done + [st.mat] && |st.mat.name| > 0)
  {
    if |line| == 0 then st
    else if CommandOf(line[0]) == CMD_NEWMTL then NewMtl(st, line[1..])
    else MtlState(Attribute(st.mat, CommandOf(line[0]), line[1..], nums), st.done)
  }

  /** `newmtl`: finishes a named record and starts from the defaults, then takes the name if given. */
  function NewMtl(st: MtlState, args: seq<string>): MtlState {
    var st' := if |st.mat.name| > 0 then MtlState(DEFAULT_MAT, st.done + [st.mat]) else st;
    if |args| > 0 then st'.(mat := st'.mat.(name := args[0])) else st'
  }

  /** What any other command does to the current record. */
  function Attribute(m: ObjMat, cmd: int, args: seq<string>, nums: Numbers): ObjMat {
    if cmd == CMD_KA then m.(ambient := ColorOf(args, nums, m.ambient).1)
    else if cmd == CMD_KD then m.(diffuse := ColorOf(args, nums, m.diffuse).1)
    else if cmd == CMD_KS then m.(specular := ColorOf(args, nums, m.specular).1)
    else if cmd == CMD_NS then
      if FloatAt(args, 0, nums) then m.(shininess := FloatArg(args, 0, nums)) else m
    else if cmd == CMD_NI then
      if FloatAt(args, 0, nums) then m.(ior := FloatArg(args, 0, nums)) else m
    else if cmd == CMD_D || cmd == CMD_TR then
      var c := ColorOf(args, nums, Vec3(0.0, 0.0, 0.0));
      if c.0 then m.(alpha := if cmd == CMD_D then c.1.x else 1.0 - c.1.x) else m
    else if cmd == CMD_MAP_KD then
      m.(texDif := if |args| == 0 then "" else args[|args| - 1])
    else m
  }

  /** The state after a sequence of lines, from a fresh record. */
  function MtlLines(lines: seq<seq<string>>, nums: Numbers): MtlState
    decreases |lines|
  {
    if |lines| == 0 then MtlState(DEFAULT_MAT, [])
    else MtlLine(MtlLines(lines[..|lines| - 1], nums), lines[|lines| - 1], nums)
  }

  /** The materials a library yields: the finished ones, then the last if it has a name. */
  function MaterialsOf(lines: seq<seq<string>>, nums: Numbers): seq<ObjMat> {
    var st := MtlLines(lines, nums);
    if |st.mat.name| > 0 then st.done + [st.mat] else st.done
  }

  /** One pass of `read_materials`' loop body. */
  method MtlStep(mat: ObjMat, vmtl: seq<ObjMat>, line: seq<string>, nums: Numbers)
    returns (mat': ObjMat, vmtl': seq<ObjMat>)
    ensures MtlState(mat', vmtl') == MtlLine(MtlState(mat, vmtl), line, nums)
  {
    mat', vmtl' := mat, vmtl;
    if |line| == 0 {
      return;
    }
    var tok := new char[|line[0]|](k requires 0 <= k < |line[0]| => line[0][k]);
    assert tok[..] == line[0];
    var cmd := GetCmd(tok);
    var args := line[1..];
    if cmd == CMD_NEWMTL {
      if |mat'.name| > 0 {
        vmtl' := vmtl' + [mat'];
        mat' := DEFAULT_MAT;
      }
      if |args| > 0 {
        mat' := mat'.(name := args[0]);
      }
    } else {
      mat' := SetAttribute(mat', cmd, args, nums);
    }
  }

  /** The cases of `read_materials`' switch other than `newmtl`. */
  method SetAttribute(mat: ObjMat, cmd: int, args: seq<string>, nums: Numbers) returns (mat': ObjMat)
    ensures mat' == Attribute(mat, cmd, args, nums)
  {
    mat' := mat;
    if cmd == CMD_KA {
      var _, c := ParseColor(args, nums, mat'.ambient);
      mat' := mat'.(ambient := c);
    } else if cmd == CMD_KD {
      var _, c := ParseColor(args, nums, mat'.diffuse);
      mat' := mat'.(diffuse := c);
    } else if cmd == CMD_KS {
      var _, c := ParseColor(args, nums, mat'.specular);
      mat' := mat'.(specular := c);
    } else if cmd == CMD_NS {
      if |args| > 0 && nums.toFloat(args[0]).Some? {
        mat' := mat'.(shininess := nums.toFloat(args[0]).value);
      }
    } else if cmd == CMD_NI {
      if |args| > 0 && nums.toFloat(args[0]).Some? {
        mat' := mat'.(ior := nums.toFloat(args[0]).value);
      }
    } else if cmd == CMD_D || cmd == CMD_TR {
      var ok, c := ParseColor(args, nums, Vec3(0.0, 0.0, 0.0));
      if ok {
        mat' := mat'.(alpha := if cmd == CMD_D then c.x else 1.0 - c.x);
      }
    } else if cmd == CMD_MAP_KD {
      var name := ParseMap(args);
      mat' := mat'.(texDif := name);
    }
  }

  /**
   * `read_materials`: runs every line, then keeps the last record if it has a name.
   * It always succeeds.
   */
  method ReadMaterials(lines: seq<seq<string>>, nums: Numbers) returns (ok: bool, vmtl: seq<ObjMat>)
    ensures ok
    ensures vmtl == MaterialsOf(lines, nums)
  {
    var mat := DEFAULT_MAT;
    vmtl := [];
    for i := 0 to |lines|
      invariant MtlState(mat, vmtl) == MtlLines(lines[..i], nums)
    {
      assert lines[..i + 1][..i] == lines[..i];
      mat, vmtl := MtlStep(mat, vmtl, lines[i], nums);
    }
    assert lines[..|lines|] == lines;
    if |mat.name| > 0 {
      vmtl := vmtl + [mat];
    }
    return true, vmtl;
  }

  /** Every finished record has a name. */
  lemma {:induction false} FinishedAreNamed(lines: seq<seq<string>>, nums: Numbers)
    ensures forall k :: 0 <= k < |MtlLines(lines, nums).done| ==> |MtlLines(lines, nums).done[k].name| > 0
    decreases |lines|
  {
    if |lines| > 0 {
      FinishedAreNamed(lines[..|lines| - 1], nums);
    }
  }

  /** Only named records reach the library, both at `newmtl` and at the end of input. */
  lemma MaterialsAreNamed(lines: seq<seq<string>>, nums: Numbers)
    ensures forall k :: 0 <= k < |MaterialsOf(lines, nums)| ==> |MaterialsOf(lines, nums)[k].name| > 0
  {
    FinishedAreNamed(lines, nums);
  }

  /**
   * `newmtl`: a named current record is finished and the fresh one starts from the
   * defaults (ambient and diffuse 0.5, specular 0, shininess 0, ior and alpha 1, no
   * texture names); an unnamed one is kept. Either way the new name is taken.
   */
  lemma NewMaterial(st: MtlState, line: seq<string>, nums: Numbers)
    requires |line| == 2 && CommandOf(line[0]) == CMD_NEWMTL
    ensures var r := MtlLine(st, line, nums);
      r.mat.name == line[1]
      && (|st.mat.name| > 0 ==>
            r.done == st.done + [st.mat]
            && r.mat.ambient == Vec3(0.5, 0.5, 0.5) && r.mat.diffuse == Vec3(0.5, 0.5, 0.5)
            && r.mat.specular == Vec3(0.0, 0.0, 0.0) && r.mat.shininess == 0.0
            && r.mat.ior == 1.0 && r.mat.alpha == 1.0
            && r.mat.texDif == "" && r.mat.texSpec == "" && r.mat.texShin == ""
            && r.mat.texAlpha == "" && r.mat.texRefl == "" && r.mat.texBump == "")
      && (|st.mat.name| == 0 ==> r.done == st.done && r.mat == st.mat.(name := line[1]))
  {
  }

  /** `newmtl` without a name finishes a named record and leaves the fresh one unnamed. */
  lemma NewMaterialWithoutName(st: MtlState, line: seq<string>, nums: Numbers)
    requires |line| == 1 && CommandOf(line[0]) == CMD_NEWMTL
    ensures var r := MtlLine(st, line, nums);
      (|st.mat.name| > 0 ==> r == MtlState(DEFAULT_MAT, st.done + [st.mat]))
      && (|st.mat.name| == 0 ==> r == st)
  {
  }

  /** `d x` sets the opacity to x and `Tr x` to 1 - x; nothing else changes. */
  lemma Opacity(st: MtlState, line: seq<string>, nums: Numbers)
    requires |line| >= 2 && (CommandOf(line[0]) == CMD_D || CommandOf(line[0]) == CMD_TR)
    requires nums.toFloat(line[1]).Some?
    ensures var r := MtlLine(st, line, nums);
      var x := nums.toFloat(line[1]).value;
      r.done == st.done
      && r.mat == st.mat.(alpha := if CommandOf(line[0]) == CMD_D then x else 1.0 - x)
  {
    assert line[1..][0] == line[1];
  }

  /** Lines with unknown or ignored commands leave the state alone. */
  lemma IgnoredLine(st: MtlState, line: seq<string>, nums: Numbers)
    requires |line| > 0
    requires CommandOf(line[0]) !in {CMD_NEWMTL, CMD_KA, CMD_KD, CMD_KS, CMD_NS, CMD_NI, CMD_D, CMD_TR, CMD_MAP_KD}
    ensures MtlLine(st, line, nums) == st
  {
  }
}
