/**
 * The line-level parsers of the OBJ/MTL reader in src/mesh.cc.
 *
 * A line reaches these parsers already split into tokens on blanks, tabs, newlines,
 * carriage returns and vertical tabs: `args` is what `strtok(0, SEP)` would return
 * after the command word, one token per call, followed by null once exhausted.
 * The C library's number conversions (`strtol`/`atoi`, `strtod`/`atof`) are given
 * as partial functions in `Numbers`.
 */
module ObjText {
  import opened Wrappers
  import opened Vectors

  // ---------------------------------------------------------------------------
  // Commands

  /** `cmd_names`, in the order of the `CMD_*` enum. */
  function CmdNames(): (names: seq<string>)
    ensures |names| == CMD_UNK
  {
    ["V", "VN", "VT", "F", "O", "G", "MTLLIB", "USEMTL", "NEWMTL",
    "KA", "KD", "KS", "NS", "NI", "D", "TR", "MAP_KD", "MAP_KS", "MAP_NS", "MAP_D", "REFL", "BUMP"]
  }

  const CMD_V := 0
  const CMD_VN := 1
  const CMD_VT := 2
  const CMD_F := 3
  const CMD_O := 4
  const CMD_G := 5
  const CMD_MTLLIB := 6
  const CMD_USEMTL := 7
  const CMD_NEWMTL := 8
  const CMD_KA := 9
  const CMD_KD := 10
  const CMD_KS := 11
  const CMD_NS := 12
  const CMD_NI := 13
  const CMD_D := 14
  const CMD_TR := 15
  const CMD_MAP_KD := 16
  /** One past the last name: the code of every unrecognised word. */
  const CMD_UNK := 22

  /** `toupper` in the C locale. */
  function UpperChar(c: char): (u: char)
    ensures 'a' <= c <= 'z' ==> 'A' <= u <= 'Z' && u as int == c as int - 32
    ensures !('a' <= c <= 'z') ==> u == c
  {
    if 'a' <= c <= 'z' then (c as int - 32) as char else c
  }

  function Upper(s: string): (r: string)
    ensures |r| == |s| && forall k :: 0 <= k < |s| ==> r[k] == UpperChar(s[k])
  {
    seq(|s|, k requires 0 <= k < |s| => UpperChar(s[k]))
  }

  /** Position of the first occurrence of `s` in `names`, or `|names|` when there is none. */
  function IndexOf(names: seq<string>, s: string): (i: nat)
    ensures i <= |names|
  {
    if |names| == 0 then 0
    else if names[0] == s then 0
    else 1 + IndexOf(names[1..], s)
  }

  /** `IndexOf` finds the first equal entry, and only misses when there is none. */
  lemma {:induction false} IndexOfFirst(names: seq<string>, s: string)
    ensures IndexOf(names, s) < |names| ==> names[IndexOf(names, s)] == s
    ensures forall j :: 0 <= j < IndexOf(names, s) ==> names[j] != s
    ensures IndexOf(names, s) == |names| <==> s !in names
  {
    if |names| > 0 && names[0] != s {
      IndexOfFirst(names[1..], s);
      assert forall j :: 1 <= j < |names| ==> names[j] == names[1..][j - 1];
    }
  }

  /** The command a token names, compared without regard to letter case. */
  function CommandOf(tok: string): (cmd: int)
    ensures 0 <= cmd <= CMD_UNK
  {
    IndexOf(CmdNames(), Upper(tok))
  }

  /**
   * `get_cmd`: upper-cases the token in place, then returns the index of the first
   * equal name in `cmd_names`, or `CMD_UNK` when there is none.
   */
  method GetCmd(str: array<char>) returns (cmd: int)
    modifies str
    ensures str[..] == Upper(old(str[..]))
    ensures cmd == CommandOf(old(str[..]))
  {
    ghost var s := str[..];
    var p := 0;
    while p < str.Length
      invariant 0 <= p <= str.Length
      invariant forall k :: 0 <= k < p ==> str[k] == UpperChar(s[k])
      invariant forall k :: p <= k < str.Length ==> str[k] == s[k]
    {
      str[p] := UpperChar(str[p]);
      p := p + 1;
    }
    var u := str[..];
    assert u == Upper(s);
    var names := CmdNames();
    var i := 0;
    while i < |names|
      invariant 0 <= i <= |names|
      invariant i + IndexOf(names[i..], u) == IndexOf(names, u)
    {
      if u == names[i] {
        return i;
      }
      assert names[i..][1..] == names[i + 1..];
      i := i + 1;
    }
    return CMD_UNK;
  }

  /**
   * The command of a token is the index of the first name equal to its upper-case
   * spelling, and `CMD_UNK` exactly when no name is.
   */
  lemma CommandOfFirst(tok: string)
    ensures var cmd := CommandOf(tok);
      (cmd < CMD_UNK ==> CmdNames()[cmd] == Upper(tok))
      && (forall k :: 0 <= k < cmd ==> CmdNames()[k] != Upper(tok))
      && (cmd == CMD_UNK <==> Upper(tok) !in CmdNames())
  {
    IndexOfFirst(CmdNames(), Upper(tok));
  }

  lemma UpperIdempotent(s: string)
    ensures Upper(Upper(s)) == Upper(s)
  {
  }

  /** Lower-case spellings name the same command as upper-case ones. */
  lemma CommandIgnoresCase(tok: string)
    ensures CommandOf(Upper(tok)) == CommandOf(tok)
  {
    UpperIdempotent(tok);
  }

  /** `get_cmd` never yields -1, so the loaders' test for -1 never skips a line. */
  lemma CommandNeverMinusOne(tok: string)
    ensures CommandOf(tok) != -1
  {
  }

  // ---------------------------------------------------------------------------
  // Numbers

  /** A C `int`. */
  type Int32 = x: int | -0x8000_0000 <= x < 0x8000_0000

  /** `INVALID_IDX`, i.e. `INT_MIN`. */
  const INVALID_IDX: Int32 := -0x8000_0000

  /** Conversion to `int` modulo 2^32, as a `size_t` result stored into an `int` behaves. */
  function ToInt32(x: int): (r: Int32)
    ensures (r - x) % 0x1_0000_0000 == 0
    ensures -0x8000_0000 <= x < 0x8000_0000 ==> r == x
  {
    (x + 0x8000_0000) % 0x1_0000_0000 - 0x8000_0000
  }

  /**
   * The C library's conversions: `toInt(s)` is `None` when `is_int(s)` fails and
   * `Some(atoi(s))` otherwise; `toFloat` likewise for `is_float` and `atof`.
   */
  datatype Numbers = Numbers(toInt: string -> Option<Int32>, toFloat: string -> Option<real>)

  /** A token starting with '/' is not a number, as `strtol` sees it. */
  ghost predicate SlashIsNotInt(nums: Numbers) {
    forall s: string :: |s| > 0 && s[0] == '/' ==> nums.toInt(s).None?
  }

  /** The `i`-th argument exists and converts to a float. */
  predicate FloatAt(args: seq<string>, i: nat, nums: Numbers) {
    i < |args| && nums.toFloat(args[i]).Some?
  }

  function FloatArg(args: seq<string>, i: nat, nums: Numbers): real
    requires FloatAt(args, i, nums)
  {
    nums.toFloat(args[i]).value
  }

  // ---------------------------------------------------------------------------
  // parse_vec, parse_color, parse_map

  /**
   * `parse_vec`: x and y must both be present and numeric; a missing or
   * non-numeric third value makes z zero.
   */
  method ParseVec(args: seq<string>, nums: Numbers) returns (ok: bool, vec: Vec3)
    ensures ok <==> FloatAt(args, 0, nums) && FloatAt(args, 1, nums)
    ensures ok ==> vec.x == FloatArg(args, 0, nums) && vec.y == FloatArg(args, 1, nums)
    ensures ok ==> vec.z == if FloatAt(args, 2, nums) then FloatArg(args, 2, nums) else 0.0
    ensures ok == VecOf(args, nums).Some? && (ok ==> vec == VecOf(args, nums).value)
  {
    vec := Vec3(0.0, 0.0, 0.0);
    for i := 0 to 3
      invariant forall k :: 0 <= k < i && k < 2 ==> FloatAt(args, k, nums)
      invariant i > 0 ==> vec.x == FloatArg(args, 0, nums)
      invariant i > 1 ==> vec.y == FloatArg(args, 1, nums)
      invariant i > 2 ==> vec.z == if FloatAt(args, 2, nums) then FloatArg(args, 2, nums) else 0.0
    {
      if !FloatAt(args, i, nums) {
        if i < 2 {
          return false, vec;
        }
        vec := vec.(z := 0.0);
      } else {
        var v := FloatArg(args, i, nums);
        if i == 0 {
          vec := vec.(x := v);
        } else if i == 1 {
          vec := vec.(y := v);
        } else {
          vec := vec.(z := v);
        }
      }
    }
    return true, vec;
  }

  /** The value `parse_vec` yields, as used by the loader's specification. */
  function VecOf(args: seq<string>, nums: Numbers): Option<Vec3> {
    if FloatAt(args, 0, nums) && FloatAt(args, 1, nums) then
      Some(Vec3(FloatArg(args, 0, nums), FloatArg(args, 1, nums),
                if FloatAt(args, 2, nums) then FloatArg(args, 2, nums) else 0.0))
    else
      None
  }

  /** A `vt` line stores its second coordinate flipped: y becomes 1 - y. */
  function TexCoord(v: Vec3): (r: Vec3)
    ensures r.x == v.x && r.z == v.z && r.y + v.y == 1.0
  {
    v.(y := 1.0 - v.y)
  }

  /** Flipping twice restores the coordinate. */
  lemma TexCoordInvolution(v: Vec3)
    ensures TexCoord(TexCoord(v)) == v
  {
  }

  /**
   * `parse_color` on the colour `col`: fails only when the first value is missing or
   * not numeric. Unless all three values are read, y and z are then set to x, so a
   * lone second value is overwritten; on failure x keeps its old value.
   */
  method ParseColor(args: seq<string>, nums: Numbers, col: Vec3) returns (ok: bool, r: Vec3)
    ensures ok <==> FloatAt(args, 0, nums)
    ensures ok ==> r.x == FloatArg(args, 0, nums)
    ensures !ok ==> r.x == col.x
    ensures FloatAt(args, 0, nums) && FloatAt(args, 1, nums) && FloatAt(args, 2, nums) ==>
      r.y == FloatArg(args, 1, nums) && r.z == FloatArg(args, 2, nums)
    ensures !(FloatAt(args, 0, nums) && FloatAt(args, 1, nums) && FloatAt(args, 2, nums)) ==>
      r.y == r.x && r.z == r.x
    ensures (ok, r) == ColorOf(args, nums, col)
  {
    r := col;
    for i := 0 to 3
      invariant forall k :: 0 <= k < i ==> FloatAt(args, k, nums)
      invariant i > 0 ==> r.x == FloatArg(args, 0, nums)
      invariant i > 1 ==> r.y == FloatArg(args, 1, nums)
      invariant i > 2 ==> r.z == FloatArg(args, 2, nums)
      invariant i == 0 ==> r == col
    {
      if !FloatAt(args, i, nums) {
        r := r.(y := r.x, z := r.x);
        return i > 0, r;
      }
      var v := FloatArg(args, i, nums);
      if i == 0 {
        r := r.(x := v);
      } else if i == 1 {
        r := r.(y := v);
      } else {
        r := r.(z := v);
      }
    }
    return true, r;
  }

  /** The colour `parse_color` leaves in `col` and its result, for the loaders' specification. */
  function ColorOf(args: seq<string>, nums: Numbers, col: Vec3): (bool, Vec3) {
    if FloatAt(args, 0, nums) && FloatAt(args, 1, nums) && FloatAt(args, 2, nums) then
      (true, Vec3(FloatArg(args, 0, nums), FloatArg(args, 1, nums), FloatArg(args, 2, nums)))
    else
      var x := if FloatAt(args, 0, nums) then FloatArg(args, 0, nums) else col.x;
      (FloatAt(args, 0, nums), Vec3(x, x, x))
  }

  /** `parse_map`: the last remaining token of the line, or "" when there is none. */
  method ParseMap(args: seq<string>) returns (name: string)
    ensures |args| == 0 ==> name == ""
    ensures |args| > 0 ==> name == args[|args| - 1]
  {
    var prev: Option<string> := None;
    for i := 0 to |args|
      invariant i == 0 <==> prev.None?
      invariant i > 0 ==> prev == Some(args[i - 1])
    {
      prev := Some(args[i]);
    }
    name := if prev.Some? then prev.value else "";
  }

  // ---------------------------------------------------------------------------
  // parse_face

  /** `int v[4]` and friends. */
  type Int4 = s: seq<Int32> | |s| == 4 witness [0, 0, 0, 0]

  /** `obj_face`: the number of corners and, per corner, vertex, normal and texcoord indices. */
  datatype ObjFace = ObjFace(elem: int, v: Int4, n: Int4, t: Int4)

  /** A positive (1-based) index becomes 0-based; zero and negative values stay. */
  function ZeroBased(x: Int32): (r: Int32)
    ensures x > 0 ==> r == x - 1
    ensures x <= 0 ==> r == x
    ensures r == INVALID_IDX <==> x == INVALID_IDX
  {
    if x > 0 then x - 1 else x
  }

  /** What `strtok(0, SEP)` returns on its `i`-th call. */
  function Tok(args: seq<string>, i: nat): Option<string> {
    if i < |args| then Some(args[i]) else None
  }

  /** The token exists and starts with an integer. */
  predicate IntAt(args: seq<string>, i: nat, nums: Numbers) {
    i < |args| && nums.toInt(args[i]).Some?
  }

  /** The index a sub-field denotes: 0-based, or `INVALID_IDX` when it is not a number. */
  function Field(s: string, nums: Numbers): Int32 {
    if |s| > 0 && nums.toInt(s).Some? then ZeroBased(nums.toInt(s).value) else INVALID_IDX
  }

  /** Where `while(*subtok && *subtok != '/') subtok++` stops, starting at `p`. */
  function {:induction false} SlashFrom(s: string, p: nat): (r: nat)
    requires p <= |s|
    ensures p <= r <= |s|
    ensures r < |s| ==> s[r] == '/'
    ensures forall k :: p <= k < r ==> s[k] != '/'
    decreases |s| - p
  {
    if p == |s| || s[p] == '/' then p else SlashFrom(s, p + 1)
  }

  /**
   * One `if(*subtok && *++subtok && is_int(subtok))` step at position `p`: the index it
   * reads and where `subtok` is left. The increment happens whenever `p` is not at
   * the end, even when it reaches the end.
   */
  function SubField(s: string, p: nat, nums: Numbers): (r: (Int32, nat))
    requires p <= |s|
    ensures r.1 <= |s|
  {
    if p < |s| then (Field(s[p + 1..], nums), p + 1) else (INVALID_IDX, p)
  }

  /** The texture index of a corner token, and where the scan stands after it. */
  function TexField(s: string, nums: Numbers): (Int32, nat) {
    SubField(s, SlashFrom(s, 0), nums)
  }

  function NormalField(s: string, nums: Numbers): Int32 {
    SubField(s, SlashFrom(s, TexField(s, nums).1), nums).0
  }

  /** The three indices of corner `i`, from its token or its absence. */
  function Corner(tok: Option<string>, nums: Numbers): (Int32, Int32, Int32) {
    match tok
    case None => (INVALID_IDX, INVALID_IDX, INVALID_IDX)
    case Some(s) => (Field(s, nums), TexField(s, nums).0, NormalField(s, nums))
  }

  /**
   * `parse_face`: reads four tokens; fails unless the first three start with an
   * integer; `elem` counts the corners read, 3 or 4; every corner's vertex, texture
   * and normal index comes from its `v`, `v/t`, `v//n` or `v/t/n` token.
   */
  method ParseFace(args: seq<string>, nums: Numbers) returns (ok: bool, face: ObjFace)
    ensures ok <==> IntAt(args, 0, nums) && IntAt(args, 1, nums) && IntAt(args, 2, nums)
    ensures ok ==> face.elem == if IntAt(args, 3, nums) then 4 else 3
    ensures ok ==> forall i :: 0 <= i < 4 ==>
      (face.v[i], face.t[i], face.n[i]) == Corner(Tok(args, i), nums)
  {
    face := ObjFace(0, [0, 0, 0, 0], [0, 0, 0, 0], [0, 0, 0, 0]);
    var tok: seq<Option<string>> := [];
    for i := 0 to 4
      invariant |tok| == i
      invariant forall k :: 0 <= k < i ==> tok[k] == Tok(args, k)
      invariant forall k :: 0 <= k < i && k < 3 ==> IntAt(args, k, nums)
      invariant face.elem == if i == 4 && IntAt(args, 3, nums) then 4 else if i < 3 then i else 3
    {
      tok := tok + [Tok(args, i)];
      if !IntAt(args, i, nums) {
        if i < 3 {
          return false, face;
        }
      } else {
        face := face.(elem := face.elem + 1);
      }
    }
    for i := 0 to 4
      invariant face.elem == if IntAt(args, 3, nums) then 4 else 3
      invariant forall k :: 0 <= k < i ==> (face.v[k], face.t[k], face.n[k]) == Corner(Tok(args, k), nums)
    {
      var c := ParseCorner(tok[i], nums);
      face := face.(v := face.v[i := c.0], t := face.t[i := c.1], n := face.n[i := c.2]);
    }
    return true, face;
  }

  /** The body of `parse_face`'s second loop for one corner token. */
  method ParseCorner(tok: Option<string>, nums: Numbers) returns (c: (Int32, Int32, Int32))
    ensures c == Corner(tok, nums)
  {
    if tok.None? {
      return (INVALID_IDX, INVALID_IDX, INVALID_IDX);
    }
    var s := tok.value;
    var v := Field(s, nums);
    var p := 0;
    while p < |s| && s[p] != '/'
      invariant 0 <= p <= |s|
      invariant SlashFrom(s, 0) == SlashFrom(s, p)
    {
      p := p + 1;
    }
    var t := INVALID_IDX;
    if p < |s| {
      p := p + 1;
      t := Field(s[p..], nums);
    }
    assert (t, p) == TexField(s, nums);
    while p < |s| && s[p] != '/'
      invariant TexField(s, nums).1 <= p <= |s|
      invariant SlashFrom(s, TexField(s, nums).1) == SlashFrom(s, p)
    {
      p := p + 1;
    }
    assert p == SlashFrom(s, TexField(s, nums).1);
    var n := INVALID_IDX;
    if p < |s| {
      p := p + 1;
      n := Field(s[p..], nums);
    }
    return (v, t, n);
  }

  /** `v`: no texture and no normal index. */
  lemma CornerV(s: string, nums: Numbers)
    requires '/' !in s
    ensures Corner(Some(s), nums) == (Field(s, nums), INVALID_IDX, INVALID_IDX)
  {
    assert SlashFrom(s, 0) == |s|;
  }

  /** `v/t`: a texture index and no normal index. */
  lemma CornerVT(a: string, b: string, nums: Numbers)
    requires '/' !in a && '/' !in b
    ensures Corner(Some(a + "/" + b), nums) == (Field(a + "/" + b, nums), Field(b, nums), INVALID_IDX)
  {
    var s := a + "/" + b;
    SlashAt(a, b, "/");
    assert s[|a| + 1..] == b;
    assert SlashFrom(s, |a| + 1) == |s| by {
      assert forall k :: |a| + 1 <= k < |s| ==> s[k] == b[k - |a| - 1];
      SlashFromNone(s, |a| + 1);
    }
  }

  /** `v//n`: no texture index, and the normal index. */
  lemma CornerVN(a: string, b: string, nums: Numbers)
    requires '/' !in a && '/' !in b && SlashIsNotInt(nums)
    ensures Corner(Some(a + "//" + b), nums) == (Field(a + "//" + b, nums), INVALID_IDX, Field(b, nums))
  {
    var s := a + "//" + b;
    SlashAt(a, "/" + b, "/");
    assert s == a + "/" + ("/" + b);
    assert s[|a| + 1..] == "/" + b;
    assert Field(s[|a| + 1..], nums) == INVALID_IDX;
    assert s[|a| + 1] == '/';
    assert SlashFrom(s, |a| + 1) == |a| + 1;
    assert s[|a| + 2..] == b;
  }

  /** `v/t/n`: both indices. */
  lemma CornerVTN(a: string, b: string, c: string, nums: Numbers)
    requires '/' !in a && '/' !in b && '/' !in c
    ensures Corner(Some(a + "/" + b + "/" + c), nums) ==
      (Field(a + "/" + b + "/" + c, nums), Field(b + "/" + c, nums), Field(c, nums))
  {
    var s := a + "/" + b + "/" + c;
    SlashAt(a, b + "/" + c, "/");
    assert s == a + "/" + (b + "/" + c);
    assert s[|a| + 1..] == b + "/" + c;
    var q := |a| + 1 + |b|;
    assert s[q] == '/';
    assert forall k :: |a| + 1 <= k < q ==> s[k] == b[k - |a| - 1];
    SlashFromStops(s, |a| + 1, q);
    assert s[q + 1..] == c;
  }

  /** The first slash of `a + "/" + b` when `a` has none. */
  lemma SlashAt(a: string, b: string, slash: string)
    requires slash == "/" && '/' !in a
    ensures SlashFrom(a + slash + b, 0) == |a|
  {
    var s := a + slash + b;
    assert forall k :: 0 <= k < |a| ==> s[k] == a[k];
    SlashFromStops(s, 0, |a|);
  }

  /** The scan from `p` stops at `q` when `q` holds the first slash. */
  lemma {:induction false} SlashFromStops(s: string, p: nat, q: nat)
    requires p <= q < |s| && s[q] == '/'
    requires forall k :: p <= k < q ==> s[k] != '/'
    ensures SlashFrom(s, p) == q
    decreases q - p
  {
    if p < q {
      SlashFromStops(s, p + 1, q);
    }
  }

  /** The scan from `p` runs to the end when no slash follows. */
  lemma {:induction false} SlashFromNone(s: string, p: nat)
    requires p <= |s|
    requires forall k :: p <= k < |s| ==> s[k] != '/'
    ensures SlashFrom(s, p) == |s|
    decreases |s| - p
  {
    if p < |s| {
      SlashFromNone(s, p + 1);
    }
  }

  // ---------------------------------------------------------------------------
  // Negative indices and quads (the 'f' case of Scene::load)

  /**
   * A negative index other than `INVALID_IDX` counts back from the end of a list of
   * `size` entries; the `size_t` sum is stored back into an `int`.
   */
  function FixIndex(x: Int32, size: nat): (r: Int32)
    ensures x >= 0 || x == INVALID_IDX ==> r == x
    ensures x < 0 && x != INVALID_IDX && size + x < 0x8000_0000 ==> r == size + x
  {
    if x < 0 && x != INVALID_IDX then ToInt32(size + x) else x
  }

  /** A relative index that stays inside the list lands in it. */
  lemma FixIndexInRange(x: Int32, size: nat)
    requires x < 0 && 0 <= size + x && x != INVALID_IDX && size < 0x8000_0000
    ensures 0 <= FixIndex(x, size) < size
  {
  }

  /** The fix-up loop: every corner's v, n and t against the lists' current sizes. */
  method FixIndices(face: ObjFace, nv: nat, nn: nat, nt: nat) returns (r: ObjFace)
    ensures r.elem == face.elem
    ensures forall i :: 0 <= i < 4 ==>
      r.v[i] == FixIndex(face.v[i], nv) && r.n[i] == FixIndex(face.n[i], nn) && r.t[i] == FixIndex(face.t[i], nt)
  {
    r := face;
    for i := 0 to 4
      invariant r.elem == face.elem
      invariant forall k :: 0 <= k < i ==>
        r.v[k] == FixIndex(face.v[k], nv) && r.n[k] == FixIndex(face.n[k], nn) && r.t[k] == FixIndex(face.t[k], nt)
      invariant forall k :: i <= k < 4 ==> r.v[k] == face.v[k] && r.n[k] == face.n[k] && r.t[k] == face.t[k]
    {
      if r.v[i] < 0 && r.v[i] != INVALID_IDX {
        r := r.(v := r.v[i := ToInt32(nv + r.v[i])]);
      }
      if r.n[i] < 0 && r.n[i] != INVALID_IDX {
        r := r.(n := r.n[i := ToInt32(nn + r.n[i])]);
      }
      if r.t[i] < 0 && r.t[i] != INVALID_IDX {
        r := r.(t := r.t[i := ToInt32(nt + r.t[i])]);
      }
    }
  }

  /** The corners `a`, `b`, `c` of `f` as the first three of a face record. */
  predicate Triangle(g: ObjFace, f: ObjFace, a: nat, b: nat, c: nat)
    requires a < 4 && b < 4 && c < 4
  {
    g.v[0] == f.v[a] && g.v[1] == f.v[b] && g.v[2] == f.v[c]
    && g.n[0] == f.n[a] && g.n[1] == f.n[b] && g.n[2] == f.n[c]
    && g.t[0] == f.t[a] && g.t[1] == f.t[b] && g.t[2] == f.t[c]
  }

  /**
   * The records a parsed face is stored as: itself, and for a quad a second record
   * whose corners 1 and 2 are the quad's corners 2 and 3.
   */
  function Triangles(f: ObjFace): (r: seq<ObjFace>)
    ensures |r| == if f.elem == 4 then 2 else 1
    ensures r[0] == f && Triangle(r[0], f, 0, 1, 2)
    ensures f.elem == 4 ==> Triangle(r[1], f, 0, 2, 3) && r[1].elem == 4
  {
    if f.elem == 4 then
      [f, f.(v := [f.v[0], f.v[2], f.v[3], f.v[3]],
             n := [f.n[0], f.n[2], f.n[3], f.n[3]],
             t := [f.t[0], f.t[2], f.t[3], f.t[3]])]
    else
      [f]
  }
}
