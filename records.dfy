/**
 * The records and macros of src/scene.h.
 *
 * `Vertex`, `Face` and `Material` are plain records copied by value and uploaded to
 * the device as raw memory, so they are datatypes with an explicit word layout.
 * `Mesh` is an object whose fields the loader and the scene update in place.
 */
module Records {
  import opened Wrappers

  /** `float v[4]`. */
  type Float4 = s: seq<real> | |s| == 4 witness [0.0, 0.0, 0.0, 0.0]

  /** `int padding[3]`. */
  type Int3 = s: seq<int> | |s| == 3 witness [0, 0, 0]

  datatype Vertex = Vertex(pos: Float4, normal: Float4, tex: Float4, padding: Float4)

  const BlankVertex := Vertex([0.0, 0.0, 0.0, 0.0], [0.0, 0.0, 0.0, 0.0], [0.0, 0.0, 0.0, 0.0], [0.0, 0.0, 0.0, 0.0])

  /** `Vertex v[3]`. */
  type Vertex3 = s: seq<Vertex> | |s| == 3 witness [BlankVertex, BlankVertex, BlankVertex]

  datatype Face = Face(v: Vertex3, normal: Float4, matid: int, padding: Int3)

  datatype Material = Material(kd: Float4, ks: Float4, kr: real, kt: real, spow: real, padding: real)

  // ---------------------------------------------------------------------------
  // Word layout: every field is one four-byte word, in declaration order.

  /** One four-byte word of device memory. */
  datatype Word = F32(f: real) | I32(i: int)

  const VERTEX_WORDS := 16
  const FACE_WORDS := 56
  const MATERIAL_WORDS := 12
  /** Word offsets inside a `Face` used by code that reads the buffer. */
  const FACE_NORMAL_OFFSET := 48
  const FACE_MATID_OFFSET := 52

  function Float4Words(a: Float4): (r: seq<Word>)
    ensures |r| == 4 && forall k :: 0 <= k < 4 ==> r[k] == F32(a[k])
  {
    [F32(a[0]), F32(a[1]), F32(a[2]), F32(a[3])]
  }

  /** `Vertex`: pos, normal, tex and padding, four words each. */
  function VertexWords(v: Vertex): (r: seq<Word>)
    ensures |r| == VERTEX_WORDS
    ensures r[0..4] == Float4Words(v.pos) && r[4..8] == Float4Words(v.normal)
    ensures r[8..12] == Float4Words(v.tex) && r[12..16] == Float4Words(v.padding)
  {
    Float4Words(v.pos) + Float4Words(v.normal) + Float4Words(v.tex) + Float4Words(v.padding)
  }

  /** `Face`: three vertices, the face normal, `matid` and three padding words. */
  function FaceWords(f: Face): (r: seq<Word>)
    ensures |r| == FACE_WORDS
    ensures r[0..16] == VertexWords(f.v[0]) && r[16..32] == VertexWords(f.v[1]) && r[32..48] == VertexWords(f.v[2])
    ensures r[FACE_NORMAL_OFFSET..FACE_NORMAL_OFFSET + 4] == Float4Words(f.normal)
    ensures r[FACE_MATID_OFFSET] == I32(f.matid)
    ensures r[FACE_MATID_OFFSET..FACE_WORDS] == [I32(f.matid), I32(f.padding[0]), I32(f.padding[1]), I32(f.padding[2])]
  {
    var tail := [I32(f.matid), I32(f.padding[0]), I32(f.padding[1]), I32(f.padding[2])];
    FaceSlices(VertexWords(f.v[0]), VertexWords(f.v[1]), VertexWords(f.v[2]), Float4Words(f.normal), tail);
    VertexWords(f.v[0]) + VertexWords(f.v[1]) + VertexWords(f.v[2]) + Float4Words(f.normal) + tail
  }

  /** Where the parts of a face's words sit in their concatenation. */
  lemma FaceSlices(a: seq<Word>, b: seq<Word>, c: seq<Word>, n: seq<Word>, t: seq<Word>)
    requires |a| == 16 && |b| == 16 && |c| == 16 && |n| == 4 && |t| == 4
    ensures var r := a + b + c + n + t;
      r[0..16] == a && r[16..32] == b && r[32..48] == c && r[48..52] == n && r[52..56] == t
  {
    var r := a + b + c + n + t;
    assert r[0..16] == a;
    assert r[16..32] == b;
    assert r[32..48] == c;
    assert r[48..52] == n;
    assert r[52..56] == t;
  }

  /** `Material`: kd, ks, then kr, kt, spow and padding. */
  function MaterialWords(m: Material): (r: seq<Word>)
    ensures |r| == MATERIAL_WORDS
    ensures r[0..4] == Float4Words(m.kd) && r[4..8] == Float4Words(m.ks)
    ensures r[8] == F32(m.kr) && r[9] == F32(m.kt) && r[10] == F32(m.spow) && r[11] == F32(m.padding)
  {
    Float4Words(m.kd) + Float4Words(m.ks) + [F32(m.kr), F32(m.kt), F32(m.spow), F32(m.padding)]
  }

  /** Reading four float words back; `None` when one of them is not a float. */
  function Float4Of(ws: seq<Word>): (r: Option<Float4>)
    requires |ws| == 4
    ensures r.Some? <==> forall k :: 0 <= k < 4 ==> ws[k].F32?
  {
    if ws[0].F32? && ws[1].F32? && ws[2].F32? && ws[3].F32? then
      Some([ws[0].f, ws[1].f, ws[2].f, ws[3].f])
    else
      None
  }

  function VertexOf(ws: seq<Word>): Option<Vertex>
    requires |ws| == VERTEX_WORDS
  {
    match (Float4Of(ws[0..4]), Float4Of(ws[4..8]), Float4Of(ws[8..12]), Float4Of(ws[12..16]))
    case (Some(p), Some(n), Some(t), Some(q)) => Some(Vertex(p, n, t, q))
    case _ => None
  }

  function FaceOf(ws: seq<Word>): Option<Face>
    requires |ws| == FACE_WORDS
  {
    FaceFrom(VertexOf(ws[0..16]), VertexOf(ws[16..32]), VertexOf(ws[32..48]), Float4Of(ws[48..52]), ws[52..56])
  }

  /** Assembles a face from its decoded parts and the four integer words that follow them. */
  function FaceFrom(a: Option<Vertex>, b: Option<Vertex>, c: Option<Vertex>, n: Option<Float4>, t: seq<Word>): Option<Face>
    requires |t| == 4
  {
    if a.Some? && b.Some? && c.Some? && n.Some? && t[0].I32? && t[1].I32? && t[2].I32? && t[3].I32? then
      Some(Face([a.value, b.value, c.value], n.value, t[0].i, [t[1].i, t[2].i, t[3].i]))
    else
      None
  }

  function MaterialOf(ws: seq<Word>): Option<Material>
    requires |ws| == MATERIAL_WORDS
  {
    match (Float4Of(ws[0..4]), Float4Of(ws[4..8]))
    case (Some(kd), Some(ks)) =>
      if ws[8].F32? && ws[9].F32? && ws[10].F32? && ws[11].F32? then
        Some(Material(kd, ks, ws[8].f, ws[9].f, ws[10].f, ws[11].f))
      else
        None
    case _ => None
  }

  lemma Float4RoundTrip(a: Float4)
    ensures Float4Of(Float4Words(a)) == Some(a)
  {
    assert [a[0], a[1], a[2], a[3]] == a;
  }

  lemma VertexRoundTrip(v: Vertex)
    ensures VertexOf(VertexWords(v)) == Some(v)
  {
    Float4RoundTrip(v.pos);
    Float4RoundTrip(v.normal);
    Float4RoundTrip(v.tex);
    Float4RoundTrip(v.padding);
  }

  /** The 56 uploaded words of a face determine the face. */
  lemma FaceRoundTrip(f: Face)
    ensures FaceOf(FaceWords(f)) == Some(f)
  {
    var ws := FaceWords(f);
    VertexRoundTrip(f.v[0]);
    VertexRoundTrip(f.v[1]);
    VertexRoundTrip(f.v[2]);
    Float4RoundTrip(f.normal);
    FaceFromParts(f);
  }

  lemma FaceFromParts(f: Face)
    ensures FaceFrom(Some(f.v[0]), Some(f.v[1]), Some(f.v[2]), Some(f.normal),
                     [I32(f.matid), I32(f.padding[0]), I32(f.padding[1]), I32(f.padding[2])]) == Some(f)
  {
    Triple(f.v);
    Triple(f.padding);
  }

  lemma Triple<T>(s: seq<T>)
    requires |s| == 3
    ensures [s[0], s[1], s[2]] == s
  {
  }

  lemma MaterialRoundTrip(m: Material)
    ensures MaterialOf(MaterialWords(m)) == Some(m)
  {
    Float4RoundTrip(m.kd);
    Float4RoundTrip(m.ks);
  }

  // ---------------------------------------------------------------------------
  // The kd-tree macros and enums of src/scene.h.

  const KDAXIS_X := 0
  const KDAXIS_Y := 1
  const KDAXIS_Z := 2

  /** The largest value of a C `int`. */
  const INT_MAX := 0x7fff_ffff

  /** `KDPARENT(x)`: `x >> 1`. */
  function KdParent(x: int): (r: int)
    requires 0 <= x <= INT_MAX
    ensures 0 <= r <= x && (x > 0 ==> r < x)
  {
    x / 2
  }

  /** `KDLEFT(x)`: `x << 1`, for indices whose child still fits in an `int`. */
  function KdLeft(x: int): (r: int)
    requires 0 <= x && 2 * x <= INT_MAX
    ensures 0 <= r <= INT_MAX
  {
    x * 2
  }

  /** `KDRIGHT(x)`: `(x << 1) + 1`. */
  function KdRight(x: int): (r: int)
    requires 0 <= x && 2 * x + 1 <= INT_MAX
    ensures 0 < r <= INT_MAX
  {
    x * 2 + 1
  }

  /** Both children of a node lead back to it. */
  lemma ParentOfChildren(x: int)
    requires 0 <= x && 2 * x + 1 <= INT_MAX
    ensures KdParent(KdLeft(x)) == x && KdParent(KdRight(x)) == x
  {
  }

  /** The right child sits just after the left one; left children are even, right children odd. */
  lemma ChildrenAdjacent(x: int)
    requires 0 <= x && 2 * x + 1 <= INT_MAX
    ensures KdRight(x) == KdLeft(x) + 1
    ensures KdLeft(x) % 2 == 0 && KdRight(x) % 2 == 1
  {
  }

  /** `KDUSED`: a node is in use when its axis is not negative. */
  predicate AxisUsed(axis: int) {
    axis >= 0
  }

  /** Every split axis marks its node as used. */
  lemma SplitAxesAreUsed()
    ensures AxisUsed(KDAXIS_X) && AxisUsed(KDAXIS_Y) && AxisUsed(KDAXIS_Z)
  {
  }

  /** The `axis` field of `KDNode`, the only field the macros touch. */
  class KdNode {
    var axis: int

    constructor (axis: int)
      ensures this.axis == axis
    {
      this.axis := axis;
    }

    predicate Used()
      reads this
    {
      AxisUsed(axis)
    }

    /** `KDCLEAR(node)`: marks the node unused. */
    method Clear()
      modifies this
      ensures axis == -1 && !Used()
    {
      axis := -1;
    }
  }

  /** The tuning parameters named by the `ACCEL_PARAM_*` enum. */
  datatype AccelParam = MaxTreeDepth | MaxNodeItems | CostTraverse | CostIntersect

  const NUM_ACCEL_PARAMS := 4

  /** The enum value of each parameter, in declaration order from 0. */
  function AccelParamId(p: AccelParam): (r: int)
    ensures 0 <= r < NUM_ACCEL_PARAMS
  {
    match p
    case MaxTreeDepth => 0
    case MaxNodeItems => 1
    case CostTraverse => 2
    case CostIntersect => 3
  }

  /** The parameter an id names, if any. */
  function AccelParamOf(id: int): (r: Option<AccelParam>)
    ensures r.Some? <==> 0 <= id < NUM_ACCEL_PARAMS
  {
    if id == 0 then Some(MaxTreeDepth)
    else if id == 1 then Some(MaxNodeItems)
    else if id == 2 then Some(CostTraverse)
    else if id == 3 then Some(CostIntersect)
    else None
  }

  /** The ids are a bijection between the parameters and 0..3. */
  lemma AccelParamIdRoundTrip(p: AccelParam, id: int)
    ensures AccelParamOf(AccelParamId(p)) == Some(p)
    ensures AccelParamOf(id).Some? ==> AccelParamId(AccelParamOf(id).value) == id
  {
  }

  // ---------------------------------------------------------------------------
  // Meshes

  class Mesh {
    var faces: seq<Face>
    var matid: int

    constructor (faces: seq<Face>, matid: int)
      ensures this.faces == faces && this.matid == matid
    {
      this.faces := faces;
      this.matid := matid;
    }
  }
}
