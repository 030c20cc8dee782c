/**
 * The reference tracer of src/dbgray.cc: the box and triangle tests, the
 * nearest-hit walk over the kd-tree, shading with its bounce and energy control,
 * and the statistics `dbg_render` folds over the pixels.
 *
 * The geometric kernels work on `real`. The C library's `sqrt` and `pow`, the
 * `reflect` of src/vector.h (declared, not defined, in the files modelled) and the
 * reciprocal the slab test takes of each direction component are given functions,
 * so the model says nothing about infinities or rounding.
 */
module DbgRay {
  import opened Wrappers
  import opened Vectors
  import opened Records

  /** `EPSILON`, `MIN_ENERGY` and `RAY_MAG` of src/common.h. */
  const EPSILON: real := 0.00001
  const MIN_ENERGY: real := 0.001
  const RAY_MAG: real := 500.0

  /** The colour `trace_ray` gives a ray that hits nothing, in each channel. */
  const MISS: real := 0.05

  /** The functions the tracer takes from the C library and from src/vector.h. */
  datatype Kernels = Kernels(
    sqrt: real -> real,
    pow: (real, real) -> real,
    reflect: (Vec3, Vec3) -> Vec3,
    recip: real -> real)
  {
    /** `sqrt` returns the non-negative square root. */
    ghost predicate Valid() {
      forall x: real :: x >= 0.0 ==> IsSqrt(sqrt(x), x)
    }
  }

  /** A ray from `origin` along `dir`; a segment of the ray is `origin + t * dir` for t in [0, 1]. */
  datatype Ray = Ray(origin: Vec3, dir: Vec3)

  /** The point at parameter t of the ray. */
  function At(ray: Ray, t: real): Vec3 {
    Add(ray.origin, Scale(ray.dir, t))
  }

  datatype Aabb = Aabb(min: Vec3, max: Vec3)

  /**
   * `KDNode` as the tracer sees it: an inner node with both children, or a leaf
   * with the indices of its faces in the scene's face buffer.
   */
  datatype KdTree = Inner(box: Aabb, left: KdTree, right: KdTree) | Leaf(box: Aabb, faceIdx: seq<nat>)

  /** `SurfPoint`; the face pointer is an index into the face buffer. */
  datatype SurfPoint = SurfPoint(t: real, pos: Vec3, norm: Vec3, face: nat)

  /** What the tracer reads of the scene. */
  datatype World = World(faces: seq<Face>, materials: seq<Material>, lights: seq<Vec3>,
                         tree: KdTree, castShadows: bool)

  /** Every face index in the tree is below `n`. */
  predicate IndicesBelow(tree: KdTree, n: nat) {
    match tree
    case Leaf(_, idx) => forall i :: 0 <= i < |idx| ==> idx[i] < n
    case Inner(_, l, r) => IndicesBelow(l, n) && IndicesBelow(r, n)
  }

  /** The tree refers to faces that exist, and every face to a material that exists. */
  predicate WellFormed(w: World) {
    IndicesBelow(w.tree, |w.faces|)
    && forall i :: 0 <= i < |w.faces| ==> 0 <= w.faces[i].matid < |w.materials|
  }

  function XYZ(a: Float4): Vec3 {
    Vec3(a[0], a[1], a[2])
  }

  function Pos(f: Face, i: nat): Vec3
    requires i < 3
  {
    XYZ(f.v[i].pos)
  }

  function Max0(x: real): real {
    if x > 0.0 then x else 0.0
  }

  // ---------------------------------------------------------------------------
  // ray_aabb_test

  /** The origin lies in the half-open box [min, max) on all three axes. */
  predicate Inside(p: Vec3, b: Aabb) {
    p.x >= b.min.x && p.y >= b.min.y && p.z >= b.min.z
    && p.x < b.max.x && p.y < b.max.y && p.z < b.max.z
  }

  /**
   * The entry and exit parameters of one slab: the near plane is the box's minimum
   * unless the direction component is negative.
   */
  function Slab(o: real, d: real, lo: real, hi: real, k: Kernels): (real, real) {
    var inv := k.recip(d);
    if d < 0.0 then ((hi - o) * inv, (lo - o) * inv) else ((lo - o) * inv, (hi - o) * inv)
  }

  /**
   * `ray_aabb_test`: an origin inside the box is a hit; otherwise the x and y slabs
   * must overlap, their intersection must overlap the z slab, and it must start
   * before 1 and end after 0.
   */
  predicate AabbHit(ray: Ray, b: Aabb, k: Kernels) {
    Inside(ray.origin, b)
    || (var (tx0, tx1) := Slab(ray.origin.x, ray.dir.x, b.min.x, b.max.x, k);
        var (ty0, ty1) := Slab(ray.origin.y, ray.dir.y, b.min.y, b.max.y, k);
        !(tx0 > ty1 || ty0 > tx1)
        && (var tmin := if ty0 > tx0 then ty0 else tx0;
            var tmax := if ty1 < tx1 then ty1 else tx1;
            var (tz0, tz1) := Slab(ray.origin.z, ray.dir.z, b.min.z, b.max.z, k);
            !(tmin > tz1 || tz0 > tmax) && tmin < 1.0 && tmax > 0.0))
  }

  // ---------------------------------------------------------------------------
  // calc_bary and ray_triangle_test

  /** The area of the triangle (a, b, c) as `calc_bary` measures it: half the projection of the edge cross product onto `n`. */
  function Area(a: Vec3, b: Vec3, c: Vec3, n: Vec3): real {
    Abs(Dot(Cross(Sub(b, a), Sub(c, a)), n)) * 0.5
  }

  /**
   * `calc_bary`: the sub-triangle areas opposite each vertex over the whole area,
   * or zero for a triangle whose projected area is below `EPSILON`.
   */
  function Bary(pt: Vec3, f: Face, n: Vec3): (bc: Vec3)
    ensures bc.x >= 0.0 && bc.y >= 0.0 && bc.z >= 0.0
  {
    var area := Area(Pos(f, 0), Pos(f, 1), Pos(f, 2), n);
    if area < EPSILON then Vec3(0.0, 0.0, 0.0)
    else
      var pv0, pv1, pv2 := Sub(Pos(f, 0), pt), Sub(Pos(f, 1), pt), Sub(Pos(f, 2), pt);
      var a0 := Abs(Dot(Cross(pv1, pv2), n)) * 0.5;
      var a1 := Abs(Dot(Cross(pv2, pv0), n)) * 0.5;
      var a2 := Abs(Dot(Cross(pv0, pv1), n)) * 0.5;
      Vec3(a0 / area, a1 / area, a2 / area)
  }

  /** The interpolated vertex normal at barycentric coordinates `bc`. */
  function Interpolated(f: Face, bc: Vec3): Vec3 {
    Add(Add(Scale(XYZ(f.v[0].normal), bc.x), Scale(XYZ(f.v[1].normal), bc.y)), Scale(XYZ(f.v[2].normal), bc.z))
  }

  /** `normalize` with the given square root. */
  function Unit(v: Vec3, k: Kernels): Vec3
    requires k.Valid()
  {
    DotSelfIsLengthSq(v);
    Normalized(v, k.sqrt(LengthSq(v)))
  }

  /** The hit parameter of the ray on the plane of `f`, when the ray is not parallel to it. */
  function PlaneT(ray: Ray, f: Face): real
    requires Abs(Dot(ray.dir, XYZ(f.normal))) > EPSILON
  {
    Dot(XYZ(f.normal), Sub(Pos(f, 0), ray.origin)) / Dot(ray.dir, XYZ(f.normal))
  }

  /**
   * `ray_triangle_test`: rejects a ray nearly parallel to the face plane, a plane hit
   * outside [EPSILON, 1], and a point whose barycentric sum is not within EPSILON of
   * 1; otherwise the hit point, with the interpolated, normalized vertex normal.
   */
  function TriangleHit(ray: Ray, f: Face, fidx: nat, k: Kernels): (r: Option<SurfPoint>)
    requires k.Valid()
  {
    var n := XYZ(f.normal);
    if Abs(Dot(ray.dir, n)) <= EPSILON then None
    else
      var t := PlaneT(ray, f);
      if t < EPSILON || t > 1.0 then None
      else
        var pt := At(ray, t);
        var bc := Bary(pt, f, n);
        var sum := bc.x + bc.y + bc.z;
        if sum < 1.0 - EPSILON || sum > 1.0 + EPSILON then None
        else Some(SurfPoint(t, pt, Unit(Interpolated(f, bc), k), fidx))
  }

  // ---------------------------------------------------------------------------
  // find_intersection

  /** The best hit's parameter so far; `RAY_MAG` before any. */
  function BestT(b: Option<SurfPoint>): real {
    if b.None? then RAY_MAG else b.value.t
  }

  /** The leaf scan over the first faces of `idx`: a hit replaces the best only with a strictly smaller t. */
  function LeafBest(ray: Ray, w: World, idx: seq<nat>, k: Kernels): Option<SurfPoint>
    requires k.Valid() && forall i :: 0 <= i < |idx| ==> idx[i] < |w.faces|
    decreases |idx|
  {
    if |idx| == 0 then None
    else
      var b := LeafBest(ray, w, idx[..|idx| - 1], k);
      var j := idx[|idx| - 1];
      match TriangleHit(ray, w.faces[j], j, k)
      case Some(sp) => if sp.t < BestT(b) then Some(sp) else b
      case None => b
  }

  /**
   * `find_intersection`: nothing when the node's box is missed; at a leaf the scan's
   * best; at an inner node the left child's hit unless the right child's is strictly nearer.
   */
  function Nearest(ray: Ray, w: World, tree: KdTree, k: Kernels): Option<SurfPoint>
    requires k.Valid() && IndicesBelow(tree, |w.faces|)
  {
    if !AabbHit(ray, tree.box, k) then None
    else match tree
      case Leaf(_, idx) => LeafBest(ray, w, idx, k)
      case Inner(_, l, r) =>
        var a := Nearest(ray, w, l, k);
        var b := Nearest(ray, w, r, k);
        if b.Some? && (a.None? || b.value.t < a.value.t) then b else a
  }

  /** The box tests a walk makes: one per node reached. */
  function AabbTests(ray: Ray, tree: KdTree, k: Kernels): (n: nat)
    ensures n >= 1
  {
    if !AabbHit(ray, tree.box, k) then 1
    else match tree
      case Leaf(_, _) => 1
      case Inner(_, l, r) => 1 + AabbTests(ray, l, k) + AabbTests(ray, r, k)
  }

  /** The triangle tests a walk makes: one per face of each leaf whose box is hit. */
  function TriangleTests(ray: Ray, tree: KdTree, k: Kernels): nat {
    if !AabbHit(ray, tree.box, k) then 0
    else match tree
      case Leaf(_, idx) => |idx|
      case Inner(_, l, r) => TriangleTests(ray, l, k) + TriangleTests(ray, r, k)
  }

  // ---------------------------------------------------------------------------
  // A reference for the walk: the first nearest of all accepted hits

  /** The accepted hits of a leaf's faces, in scan order. */
  function LeafHits(ray: Ray, w: World, idx: seq<nat>, k: Kernels): seq<SurfPoint>
    requires k.Valid() && forall i :: 0 <= i < |idx| ==> idx[i] < |w.faces|
    decreases |idx|
  {
    if |idx| == 0 then []
    else
      var j := idx[|idx| - 1];
      LeafHits(ray, w, idx[..|idx| - 1], k)
      + match TriangleHit(ray, w.faces[j], j, k) case Some(sp) => [sp] case None => []
  }

  /** Every accepted hit in a leaf whose box, and whose ancestors' boxes, the ray hits, in walk order. */
  function Candidates(ray: Ray, w: World, tree: KdTree, k: Kernels): seq<SurfPoint>
    requires k.Valid() && IndicesBelow(tree, |w.faces|)
  {
    if !AabbHit(ray, tree.box, k) then []
    else match tree
      case Leaf(_, idx) => LeafHits(ray, w, idx, k)
      case Inner(_, l, r) => Candidates(ray, w, l, k) + Candidates(ray, w, r, k)
  }

  /** `cs[i]` has the smallest t of `cs`, and every earlier entry a strictly larger one. */
  predicate FirstNearest(cs: seq<SurfPoint>, i: int) {
    0 <= i < |cs|
    && (forall j :: 0 <= j < |cs| ==> cs[i].t <= cs[j].t)
    && (forall j :: 0 <= j < i ==> cs[i].t < cs[j].t)
  }

  /** `b` is nothing exactly when `cs` is empty, and otherwise the first nearest entry of `cs`. */
  ghost predicate Picks(b: Option<SurfPoint>, cs: seq<SurfPoint>) {
    (b.None? <==> |cs| == 0)
    && (b.Some? ==> exists i :: FirstNearest(cs, i) && cs[i] == b.value)
  }

  /** Every accepted hit lies on the segment. */
  predicate OnSegment(cs: seq<SurfPoint>) {
    forall j :: 0 <= j < |cs| ==> cs[j].t <= 1.0
  }

  /** An accepted hit lies on the segment: EPSILON <= t <= 1. */
  lemma TriangleHitOnSegment(ray: Ray, f: Face, fidx: nat, k: Kernels)
    requires k.Valid() && TriangleHit(ray, f, fidx, k).Some?
    ensures var sp := TriangleHit(ray, f, fidx, k).value;
      EPSILON <= sp.t <= 1.0 && sp.face == fidx
  {
  }

  /** One more hit in the scan: it becomes the pick only when strictly nearer than the pick so far. */
  lemma PickExtend(b: Option<SurfPoint>, cs: seq<SurfPoint>, sp: SurfPoint)
    requires Picks(b, cs) && OnSegment(cs) && sp.t <= 1.0
    ensures OnSegment(cs + [sp])
    ensures Picks(if sp.t < BestT(b) then Some(sp) else b, cs + [sp])
  {
    var cs' := cs + [sp];
    assert forall m :: 0 <= m < |cs| ==> cs'[m] == cs[m];
    if b.Some? {
      var i :| FirstNearest(cs, i) && cs[i] == b.value;
      if sp.t < BestT(b) {
        assert FirstNearest(cs', |cs|);
      } else {
        assert FirstNearest(cs', i);
      }
    } else {
      assert FirstNearest(cs', 0);
    }
  }

  /** The pick of two halves: the right half's only when strictly nearer than the left's. */
  lemma PickJoin(a: Option<SurfPoint>, ca: seq<SurfPoint>, b: Option<SurfPoint>, cb: seq<SurfPoint>)
    requires Picks(a, ca) && Picks(b, cb) && OnSegment(ca) && OnSegment(cb)
    ensures OnSegment(ca + cb)
    ensures Picks(if b.Some? && (a.None? || b.value.t < a.value.t) then b else a, ca + cb)
  {
    var cs := ca + cb;
    assert forall m :: 0 <= m < |ca| ==> cs[m] == ca[m];
    assert forall m :: 0 <= m < |cb| ==> cs[|ca| + m] == cb[m];
    if b.Some? && (a.None? || b.value.t < a.value.t) {
      var ib :| FirstNearest(cb, ib) && cb[ib] == b.value;
      if a.Some? {
        var ia :| FirstNearest(ca, ia) && ca[ia] == a.value;
      }
      FirstNearestRight(ca, cb, ib);
    } else if a.Some? {
      var ia :| FirstNearest(ca, ia) && ca[ia] == a.value;
      if b.Some? {
        var ib :| FirstNearest(cb, ib) && cb[ib] == b.value;
      }
      FirstNearestLeft(ca, cb, ia);
    }
  }

  /** The first nearest of `ca` stays first nearest after `cb` when nothing in `cb` is nearer. */
  lemma FirstNearestLeft(ca: seq<SurfPoint>, cb: seq<SurfPoint>, ia: int)
    requires FirstNearest(ca, ia) && forall m :: 0 <= m < |cb| ==> ca[ia].t <= cb[m].t
    ensures FirstNearest(ca + cb, ia)
  {
    var cs := ca + cb;
    forall j | 0 <= j < |cs|
      ensures cs[ia].t <= cs[j].t
    {
      if j >= |ca| {
        assert cs[j] == cb[j - |ca|];
      }
    }
  }

  /** The first nearest of `cb` becomes first nearest of `ca + cb` when everything in `ca` is farther. */
  lemma FirstNearestRight(ca: seq<SurfPoint>, cb: seq<SurfPoint>, ib: int)
    requires FirstNearest(cb, ib) && forall m :: 0 <= m < |ca| ==> cb[ib].t < ca[m].t
    ensures FirstNearest(ca + cb, |ca| + ib)
  {
    var cs := ca + cb;
    forall j | 0 <= j < |cs|
      ensures cs[|ca| + ib].t <= cs[j].t && (j < |ca| + ib ==> cs[|ca| + ib].t < cs[j].t)
    {
      if j >= |ca| {
        assert cs[j] == cb[j - |ca|];
      }
    }
  }

  /** The leaf scan finds the first nearest of the leaf's accepted hits, and nothing when there are none. */
  lemma {:induction false} LeafBestIsFirstNearest(ray: Ray, w: World, idx: seq<nat>, k: Kernels)
    requires k.Valid() && forall i :: 0 <= i < |idx| ==> idx[i] < |w.faces|
    ensures OnSegment(LeafHits(ray, w, idx, k))
    ensures Picks(LeafBest(ray, w, idx, k), LeafHits(ray, w, idx, k))
    decreases |idx|
  {
    if |idx| > 0 {
      var pre := idx[..|idx| - 1];
      LeafBestIsFirstNearest(ray, w, pre, k);
      var j := idx[|idx| - 1];
      match TriangleHit(ray, w.faces[j], j, k)
      case None =>
        assert LeafHits(ray, w, idx, k) == LeafHits(ray, w, pre, k) + [];
        assert LeafHits(ray, w, pre, k) + [] == LeafHits(ray, w, pre, k);
        assert LeafBest(ray, w, idx, k) == LeafBest(ray, w, pre, k);
      case Some(sp) =>
        TriangleHitOnSegment(ray, w.faces[j], j, k);
        assert LeafHits(ray, w, idx, k) == LeafHits(ray, w, pre, k) + [sp];
        PickExtend(LeafBest(ray, w, pre, k), LeafHits(ray, w, pre, k), sp);
    }
  }

  /**
   * The walk's answer is the first nearest of all accepted hits in the leaves it
   * reaches, so among equally near hits the one found first wins; and it finds
   * nothing exactly when there are none.
   */
  lemma {:induction false} NearestIsFirstNearest(ray: Ray, w: World, tree: KdTree, k: Kernels)
    requires k.Valid() && IndicesBelow(tree, |w.faces|)
    ensures OnSegment(Candidates(ray, w, tree, k))
    ensures Picks(Nearest(ray, w, tree, k), Candidates(ray, w, tree, k))
  {
    if AabbHit(ray, tree.box, k) {
      match tree
      case Leaf(_, idx) =>
        LeafBestIsFirstNearest(ray, w, idx, k);
      case Inner(_, l, r) =>
        NearestIsFirstNearest(ray, w, l, k);
        NearestIsFirstNearest(ray, w, r, k);
        PickJoin(Nearest(ray, w, l, k), Candidates(ray, w, l, k), Nearest(ray, w, r, k), Candidates(ray, w, r, k));
    }
  }

  /** The face the walk reports is one the tree refers to. */
  lemma {:induction false} LeafBestFaceBelow(ray: Ray, w: World, idx: seq<nat>, k: Kernels)
    requires k.Valid() && forall i :: 0 <= i < |idx| ==> idx[i] < |w.faces|
    ensures LeafBest(ray, w, idx, k).Some? ==> LeafBest(ray, w, idx, k).value.face < |w.faces|
    decreases |idx|
  {
    if |idx| > 0 {
      var j := idx[|idx| - 1];
      LeafBestFaceBelow(ray, w, idx[..|idx| - 1], k);
      if TriangleHit(ray, w.faces[j], j, k).Some? {
        TriangleHitOnSegment(ray, w.faces[j], j, k);
      }
    }
  }

  lemma {:induction false} NearestFaceBelow(ray: Ray, w: World, tree: KdTree, k: Kernels)
    requires k.Valid() && IndicesBelow(tree, |w.faces|)
    ensures Nearest(ray, w, tree, k).Some? ==> Nearest(ray, w, tree, k).value.face < |w.faces|
  {
    if AabbHit(ray, tree.box, k) {
      match tree
      case Leaf(_, idx) => LeafBestFaceBelow(ray, w, idx, k);
      case Inner(_, l, r) =>
        NearestFaceBelow(ray, w, l, k);
        NearestFaceBelow(ray, w, r, k);
    }
  }

  // ---------------------------------------------------------------------------
  // Properties of the box and triangle tests

  /** The exact reciprocal of a non-zero number. */
  predicate ExactRecip(d: real, k: Kernels) {
    d != 0.0 && d * k.recip(d) == 1.0
  }

  /** Multiplying by a positive number keeps a strict order, by a negative one reverses it. */
  lemma MulStrict(a: real, b: real, c: real)
    requires a < b
    ensures c > 0.0 ==> a * c < b * c
    ensures c < 0.0 ==> a * c > b * c
  {
    assert (b - a) * c == b * c - a * c;
  }

  /** A reciprocal has the sign of its number. */
  lemma RecipSign(d: real, inv: real)
    requires d * inv == 1.0
    ensures d > 0.0 ==> inv > 0.0
    ensures d < 0.0 ==> inv < 0.0
  {
    if d > 0.0 && inv <= 0.0 {
      MulStrict(inv, 0.00001, d);
    }
    if d < 0.0 && inv >= 0.0 {
      MulStrict(-0.00001, inv, -d);
    }
  }

  /** The ends of a slab's interval, for either sign of the direction. */
  lemma SlabEnds(o: real, d: real, lo: real, hi: real, k: Kernels)
    ensures d < 0.0 ==> Slab(o, d, lo, hi, k).0 == (hi - o) * k.recip(d)
    ensures d < 0.0 ==> Slab(o, d, lo, hi, k).1 == (lo - o) * k.recip(d)
    ensures d >= 0.0 ==> Slab(o, d, lo, hi, k).0 == (lo - o) * k.recip(d)
    ensures d >= 0.0 ==> Slab(o, d, lo, hi, k).1 == (hi - o) * k.recip(d)
  {
  }

  /** A point strictly between the planes at parameter t puts t strictly inside the slab's interval. */
  lemma SlabContains(o: real, d: real, lo: real, hi: real, t: real, k: Kernels)
    requires ExactRecip(d, k) && lo < o + t * d < hi
    ensures Slab(o, d, lo, hi, k).0 < t < Slab(o, d, lo, hi, k).1
  {
    var inv := k.recip(d);
    RecipSign(d, inv);
    UndoScale(t, d, inv);
    Between(lo - o, t * d, hi - o, inv, t);
    SlabEnds(o, d, lo, hi, k);
  }

  /** Multiplying by a number and then by its reciprocal gives the number back. */
  lemma UndoScale(t: real, d: real, inv: real)
    requires d * inv == 1.0
    ensures (t * d) * inv == t
  {
    assert (t * d) * inv == t * (d * inv);
  }

  /** Scaling x < y < z by a number of known sign, where y scales to t. */
  lemma Between(x: real, y: real, z: real, inv: real, t: real)
    requires x < y < z && y * inv == t && inv != 0.0
    ensures inv > 0.0 ==> x * inv < t < z * inv
    ensures inv < 0.0 ==> z * inv < t < x * inv
  {
    MulStrict(x, y, inv);
    MulStrict(y, z, inv);
  }

  /**
   * The box test never rejects a segment that passes through the open box: a
   * subtree the walk skips holds no point of the segment strictly inside its box.
   */
  lemma AabbHitIsConservative(ray: Ray, b: Aabb, k: Kernels, t: real)
    requires ExactRecip(ray.dir.x, k) && ExactRecip(ray.dir.y, k) && ExactRecip(ray.dir.z, k)
    requires 0.0 < t < 1.0
    requires b.min.x < At(ray, t).x < b.max.x && b.min.y < At(ray, t).y < b.max.y && b.min.z < At(ray, t).z < b.max.z
    ensures AabbHit(ray, b, k)
  {
    SlabContains(ray.origin.x, ray.dir.x, b.min.x, b.max.x, t, k);
    SlabContains(ray.origin.y, ray.dir.y, b.min.y, b.max.y, t, k);
    SlabContains(ray.origin.z, ray.dir.z, b.min.z, b.max.z, t, k);
  }

  /**
   * The z slab is checked for overlap but does not narrow the interval, so the test
   * also accepts segments that miss the box: this one stays below z = -1 while the
   * box starts at z = 0.
   */
  lemma AabbHitAcceptsAMiss(k: Kernels)
    requires k.recip(1.0) == 1.0
    ensures var ray := Ray(Vec3(0.5, 0.5, -2.0), Vec3(1.0, 1.0, 1.0));
      var b := Aabb(Vec3(0.0, 0.0, 0.0), Vec3(4.5, 4.5, 1.0));
      AabbHit(ray, b, k)
      && forall t: real :: 0.0 <= t <= 1.0 ==> At(ray, t).z < b.min.z
  {
  }

  /** A triangle whose projected area is below EPSILON is never hit. */
  lemma DegenerateIsMissed(ray: Ray, f: Face, fidx: nat, k: Kernels)
    requires k.Valid()
    requires Area(Pos(f, 0), Pos(f, 1), Pos(f, 2), XYZ(f.normal)) < EPSILON
    ensures TriangleHit(ray, f, fidx, k) == None
  {
  }

  /** At the first vertex of a non-degenerate triangle the barycentric coordinates are (1, 0, 0). */
  lemma BaryAtFirstVertex(f: Face, n: Vec3)
    requires Area(Pos(f, 0), Pos(f, 1), Pos(f, 2), n) >= EPSILON
    ensures Bary(Pos(f, 0), f, n) == Vec3(1.0, 0.0, 0.0)
  {
    var p0, p1, p2 := Pos(f, 0), Pos(f, 1), Pos(f, 2);
    assert Sub(p0, p0) == Vec3(0.0, 0.0, 0.0);
    assert Cross(Sub(p2, p0), Vec3(0.0, 0.0, 0.0)) == Vec3(0.0, 0.0, 0.0);
    assert Cross(Vec3(0.0, 0.0, 0.0), Sub(p1, p0)) == Vec3(0.0, 0.0, 0.0);
  }

  // ---------------------------------------------------------------------------
  // trace_ray and shade

  /** What one trace costs: box tests, triangle tests, BRDF evaluations, shadow rays and reflection rays. */
  datatype Tally = Tally(aabb: nat, tri: nat, brdf: nat, shadow: nat, refl: nat)

  const NOTHING: Tally := Tally(0, 0, 0, 0, 0)

  function Plus(a: Tally, b: Tally): Tally {
    Tally(a.aabb + b.aabb, a.tri + b.tri, a.brdf + b.brdf, a.shadow + b.shadow, a.refl + b.refl)
  }

  /** The tests one walk of the tree makes. */
  function Search(ray: Ray, tree: KdTree, k: Kernels): Tally {
    Tally(AabbTests(ray, tree, k), TriangleTests(ray, tree, k), 0, 0, 0)
  }

  /** A pixel's colour with what it cost. */
  datatype Traced = Traced(color: Vec3, tally: Tally)

  /** The diffuse and specular sums of the light loop, with its counts. */
  datatype Lit = Lit(dcol: Vec3, scol: Vec3, tally: Tally)

  /** `-raydir / RAY_MAG`. */
  function ViewDir(raydir: Vec3): Vec3 {
    Vec3(-raydir.x / RAY_MAG, -raydir.y / RAY_MAG, -raydir.z / RAY_MAG)
  }

  /**
   * What one light of `shade`'s loop contributes: with shadows on, a shadow ray
   * towards the light is traced and counted; unless it is blocked, the light's
   * diffuse and specular terms, and one BRDF evaluation.
   */
  function LightTerm(k: Kernels, w: World, sp: SurfPoint, raydir: Vec3, norm: Vec3, mat: Material, lpos: Vec3): Lit
    requires k.Valid() && IndicesBelow(w.tree, |w.faces|)
  {
    var ldir := Sub(lpos, sp.pos);
    var shadow := Ray(sp.pos, ldir);
    var blocked := w.castShadows && Nearest(shadow, w, w.tree, k).Some?;
    var searched := if w.castShadows then Search(shadow, w.tree, k).(shadow := 1) else NOTHING;
    if blocked then Lit(Vec3(0.0, 0.0, 0.0), Vec3(0.0, 0.0, 0.0), searched)
    else
      var l := Unit(ldir, k);
      var vref := k.reflect(ViewDir(raydir), norm);
      var diff := Max0(Dot(l, norm));
      var spec := k.pow(Max0(Dot(l, vref)), mat.spow);
      Lit(Scale(XYZ(mat.kd), diff), Scale(XYZ(mat.ks), spec), searched.(brdf := 1))
  }

  function Accumulate(a: Lit, b: Lit): Lit {
    Lit(Add(a.dcol, b.dcol), Add(a.scol, b.scol), Plus(a.tally, b.tally))
  }

  /** The light loop over the first lights, from black. */
  function Lights(k: Kernels, w: World, sp: SurfPoint, raydir: Vec3, norm: Vec3, mat: Material, lights: seq<Vec3>): Lit
    requires k.Valid() && IndicesBelow(w.tree, |w.faces|)
    decreases |lights|
  {
    if |lights| == 0 then Lit(Vec3(0.0, 0.0, 0.0), Vec3(0.0, 0.0, 0.0), NOTHING)
    else Accumulate(Lights(k, w, sp, raydir, norm, mat, lights[..|lights| - 1]),
                    LightTerm(k, w, sp, raydir, norm, mat, lights[|lights| - 1]))
  }

  /** The share of reflected light, per channel: `ks * kr`. */
  function ReflColor(mat: Material): Vec3 {
    Vec3(mat.ks[0] * mat.kr, mat.ks[1] * mat.kr, mat.ks[2] * mat.kr)
  }

  /** The energy a reflection carries on: the incoming energy times the mean of `ks * kr`. */
  function Attenuated(energy: real, mat: Material): real {
    var rc := ReflColor(mat);
    energy * ((rc.x + rc.y + rc.z) / 3.0)
  }

  /** The recursion measure: a negative bounce budget allows no more reflections. */
  function Rank(iter: int): nat {
    if iter < 0 then 0 else iter + 1
  }

  /**
   * `trace_ray`: the shaded nearest hit, or the dark grey `MISS` when there is none;
   * the walk's tests are counted either way.
   */
  function Trace(k: Kernels, w: World, ray: Ray, iter: int, energy: real): (r: Traced)
    requires k.Valid() && WellFormed(w)
    ensures r.tally.aabb >= 1 && r.tally.refl <= Rank(iter)
    ensures !w.castShadows ==> r.tally.shadow == 0
    decreases Rank(iter), 1
  {
    var searched := Search(ray, w.tree, k);
    NearestFaceBelow(ray, w, w.tree, k);
    match Nearest(ray, w, w.tree, k)
    case None => Traced(Vec3(MISS, MISS, MISS), searched)
    case Some(sp) =>
      var r := Shading(k, w, ray, sp, iter, energy);
      Traced(r.color, Plus(searched, r.tally))
  }

  /**
   * `shade`: the normal is turned to face the ray, the light loop sums the diffuse and
   * specular terms, and while bounces remain and the energy left after this surface's
   * reflectance exceeds `MIN_ENERGY`, the mirror ray is traced with one bounce fewer
   * and its colour, weighted by `ks * kr`, added to the specular sum. A budget of
   * `iter` allows at most `iter + 1` reflection rays below this point, and no
   * shadow ray is cast with shadows off.
   */
  function Shading(k: Kernels, w: World, ray: Ray, sp: SurfPoint, iter: int, energy: real): (r: Traced)
    requires k.Valid() && WellFormed(w) && sp.face < |w.faces|
    ensures r.tally.refl <= Rank(iter)
    ensures !w.castShadows ==> r.tally.shadow == 0
    decreases Rank(iter), 0
  {
    var mat := w.materials[w.faces[sp.face].matid];
    var norm := if Dot(ray.dir, sp.norm) >= 0.0 then Neg(sp.norm) else sp.norm;
    var lit := Lights(k, w, sp, ray.dir, norm, mat, w.lights);
    LightCounts(k, w, sp, ray.dir, norm, mat, w.lights);
    var rc := ReflColor(mat);
    var e := Attenuated(energy, mat);
    if iter >= 0 && e > MIN_ENERGY then
      var r := Trace(k, w, Ray(sp.pos, k.reflect(Neg(ray.dir), norm)), iter - 1, e);
      Traced(Add(lit.dcol, Add(lit.scol, Mul(r.color, rc))), Plus(Plus(lit.tally, r.tally), Tally(0, 0, 0, 0, 1)))
    else
      Traced(Add(lit.dcol, lit.scol), lit.tally)
  }

  /**
   * The light loop casts one shadow ray per light when shadows are on and none when
   * they are off, and evaluates the BRDF at most once per light: for every light
   * when shadows are off.
   */
  lemma {:induction false} LightCounts(k: Kernels, w: World, sp: SurfPoint, raydir: Vec3, norm: Vec3, mat: Material, lights: seq<Vec3>)
    requires k.Valid() && IndicesBelow(w.tree, |w.faces|)
    ensures var t := Lights(k, w, sp, raydir, norm, mat, lights).tally;
      t.shadow == (if w.castShadows then |lights| else 0)
      && t.brdf <= |lights| && (!w.castShadows ==> t.brdf == |lights| && t.aabb == 0 && t.tri == 0)
      && t.refl == 0
    decreases |lights|
  {
    if |lights| > 0 {
      LightCounts(k, w, sp, raydir, norm, mat, lights[..|lights| - 1]);
    }
  }

  /** A ray that misses the root box gets the miss colour at the cost of one box test. */
  lemma MissedRoot(k: Kernels, w: World, ray: Ray, iter: int, energy: real)
    requires k.Valid() && WellFormed(w) && !AabbHit(ray, w.tree.box, k)
    ensures Trace(k, w, ray, iter, energy) == Traced(Vec3(MISS, MISS, MISS), Tally(1, 0, 0, 0, 0))
  {
  }

  /** A surface that reflects nothing gets no reflection ray, whatever the budget. */
  lemma MatteSurface(k: Kernels, w: World, ray: Ray, sp: SurfPoint, iter: int, energy: real)
    requires k.Valid() && WellFormed(w) && sp.face < |w.faces|
    requires w.materials[w.faces[sp.face].matid].kr == 0.0
    ensures Shading(k, w, ray, sp, iter, energy).tally.refl == 0
  {
    var mat := w.materials[w.faces[sp.face].matid];
    var norm := if Dot(ray.dir, sp.norm) >= 0.0 then Neg(sp.norm) else sp.norm;
    LightCounts(k, w, sp, ray.dir, norm, mat, w.lights);
    NothingReflected(energy, mat);
  }

  /** A material with `kr == 0` passes no energy on. */
  lemma NothingReflected(energy: real, mat: Material)
    requires mat.kr == 0.0
    ensures Attenuated(energy, mat) == 0.0
  {
    var rc := ReflColor(mat);
    assert rc.x == 0.0 && rc.y == 0.0 && rc.z == 0.0;
  }

  // ---------------------------------------------------------------------------
  // transform and transform_ray

  /** `transform`: the 4x4 column-major matrix applied to the point (v, 1). */
  function Transform(v: Vec3, m: seq<real>): Vec3
    requires |m| == 16
  {
    Vec3(v.x * m[0] + v.y * m[4] + v.z * m[8] + m[12],
         v.x * m[1] + v.y * m[5] + v.z * m[9] + m[13],
         v.x * m[2] + v.y * m[6] + v.z * m[10] + m[14])
  }

  /** `transform_ray`: the origin by `xform`, the direction by `invtrans` (both with translation). */
  function TransformRay(ray: Ray, xform: seq<real>, invtrans: seq<real>): Ray
    requires |xform| == 16 && |invtrans| == 16
  {
    Ray(Transform(ray.origin, xform), Transform(ray.dir, invtrans))
  }

  /** The identity matrix leaves a point where it is. */
  lemma TransformIdentity(v: Vec3, m: seq<real>)
    requires |m| == 16 && forall i :: 0 <= i < 16 ==> m[i] == if i % 5 == 0 then 1.0 else 0.0
    ensures Transform(v, m) == v
  {
    assert m[0] == 1.0 && m[5] == 1.0 && m[10] == 1.0;
    assert m[4] == 0.0 && m[8] == 0.0 && m[12] == 0.0;
    assert m[1] == 0.0 && m[9] == 0.0 && m[13] == 0.0;
    assert m[2] == 0.0 && m[6] == 0.0 && m[14] == 0.0;
  }

  /** The transform is affine: differences of points map by the linear part alone. */
  lemma TransformIsAffine(a: Vec3, b: Vec3, m: seq<real>)
    requires |m| == 16
    ensures Sub(Transform(a, m), Transform(b, m)) == Sub(Transform(Sub(a, b), m), Transform(Vec3(0.0, 0.0, 0.0), m))
  {
  }

  // ---------------------------------------------------------------------------
  // dbg_render's statistics and frame

  /** `RenderStats` without its timing and average fields. */
  datatype RenderStats = RenderStats(
    primRays: int, reflRays: int, shadowRays: int, raysCast: int, brdfEvals: int,
    aabbTests: int, triangleTests: int,
    minAabbTests: int, maxAabbTests: int, minTriangleTests: int, maxTriangleTests: int)

  /** The statistics as `dbg_render` resets them: zero, with the minima at `INT_MAX`. */
  const START: RenderStats := RenderStats(0, 0, 0, 0, 0, 0, 0, INT_MAX, 0, INT_MAX, 0)

  /** The view of a frame: the camera transforms and the bounce budget. */
  datatype View = View(xform: seq<real>, invtrans: seq<real>, maxIter: int)
  {
    predicate Valid() {
      |xform| == 16 && |invtrans| == 16
    }
  }

  /** `shade` charges BRDF evaluations, shadow rays and reflection rays straight to the statistics. */
  function Charge(s: RenderStats, t: Tally): RenderStats {
    s.(brdfEvals := s.brdfEvals + t.brdf, shadowRays := s.shadowRays + t.shadow, reflRays := s.reflRays + t.refl)
  }

  /** Charging two tallies in turn is charging their sum. */
  lemma ChargePlus(s: RenderStats, a: Tally, b: Tally)
    ensures Charge(Charge(s, a), b) == Charge(s, Plus(a, b))
  {
  }

  /** What one primary ray is traced to. */
  function Pixel(k: Kernels, w: World, v: View, ray: Ray): Traced
    requires k.Valid() && WellFormed(w) && v.Valid()
  {
    Trace(k, w, TransformRay(ray, v.xform, v.invtrans), v.maxIter, 1.0)
  }

  /** The bookkeeping after one pixel with the given test counts: the minima and maxima, and the sums. */
  function Tallied(s: RenderStats, aabb: int, tri: int): RenderStats {
    s.(minAabbTests := if aabb < s.minAabbTests then aabb else s.minAabbTests,
       maxAabbTests := if aabb > s.maxAabbTests then aabb else s.maxAabbTests,
       minTriangleTests := if tri < s.minTriangleTests then tri else s.minTriangleTests,
       maxTriangleTests := if tri > s.maxTriangleTests then tri else s.maxTriangleTests,
       primRays := s.primRays + 1,
       aabbTests := s.aabbTests + aabb,
       triangleTests := s.triangleTests + tri)
  }

  /** All one pixel does to the statistics: the charges of its trace, then the bookkeeping. */
  function Account(s: RenderStats, t: Tally): RenderStats {
    Tallied(Charge(s, t), t.aabb, t.tri)
  }

  /** What each pixel's primary ray is traced to, in row order. */
  function Frame(k: Kernels, w: World, v: View, rays: seq<Ray>): (ts: seq<Traced>)
    requires k.Valid() && WellFormed(w) && v.Valid()
    ensures |ts| == |rays| && forall i :: 0 <= i < |rays| ==> ts[i] == Pixel(k, w, v, rays[i])
  {
    seq(|rays|, i requires 0 <= i < |rays| => Pixel(k, w, v, rays[i]))
  }

  /** The statistics after the given pixels. */
  function Stats(ts: seq<Traced>): RenderStats
    decreases |ts|
  {
    if |ts| == 0 then START else Account(Stats(ts[..|ts| - 1]), ts[|ts| - 1].tally)
  }

  /** The framebuffer holding the given pixels: three channels each. */
  function Picture(ts: seq<Traced>): seq<real>
    decreases |ts|
  {
    if |ts| == 0 then []
    else
      var c := ts[|ts| - 1].color;
      Picture(ts[..|ts| - 1]) + [c.x, c.y, c.z]
  }

  /** The rays cast: primary, reflection and shadow rays. */
  function Finished(s: RenderStats): RenderStats {
    s.(raysCast := s.primRays + s.reflRays + s.shadowRays)
  }

  /** The pixels' tallies added up. */
  function TallySum(ts: seq<Traced>): Tally
    decreases |ts|
  {
    if |ts| == 0 then NOTHING else Plus(TallySum(ts[..|ts| - 1]), ts[|ts| - 1].tally)
  }

  /**
   * Every sum of the statistics is the sum of the pixels' counts: box and triangle
   * tests, BRDF evaluations, shadow and reflection rays, and one primary ray each.
   */
  lemma {:induction false} StatsTotals(ts: seq<Traced>)
    ensures Stats(ts).primRays == |ts| && Stats(ts).raysCast == 0
    ensures Stats(ts).aabbTests == TallySum(ts).aabb && Stats(ts).triangleTests == TallySum(ts).tri
    ensures Stats(ts).brdfEvals == TallySum(ts).brdf
    ensures Stats(ts).shadowRays == TallySum(ts).shadow && Stats(ts).reflRays == TallySum(ts).refl
    decreases |ts|
  {
    if |ts| > 0 {
      StatsTotals(ts[..|ts| - 1]);
    }
  }

  /**
   * The statistics count one primary ray per pixel, and sum the pixels' box tests and
   * their reflection and shadow rays.
   */
  lemma {:induction false} StatsSums(ts: seq<Traced>, rmax: nat)
    requires forall i :: 0 <= i < |ts| ==> ts[i].tally.aabb >= 1 && ts[i].tally.refl <= rmax
    ensures var s := Stats(ts);
      s.primRays == |ts| && s.aabbTests >= |ts| && 0 <= s.reflRays <= |ts| * rmax && s.shadowRays >= 0
      && ((forall i :: 0 <= i < |ts| ==> ts[i].tally.shadow == 0) ==> s.shadowRays == 0)
    decreases |ts|
  {
    if |ts| > 0 {
      var pre := ts[..|ts| - 1];
      assert forall i :: 0 <= i < |pre| ==> pre[i] == ts[i];
      StatsSums(pre, rmax);
      assert |pre| * rmax + rmax == (|pre| + 1) * rmax;
    }
  }

  /**
   * The statistics of a frame count one primary ray and at least one box test per
   * pixel, at most `iter + 1` reflection rays per pixel, and no shadow rays with
   * shadows off.
   */
  lemma RenderedCounts(k: Kernels, w: World, v: View, rays: seq<Ray>)
    requires k.Valid() && WellFormed(w) && v.Valid()
    ensures var s := Stats(Frame(k, w, v, rays));
      s.primRays == |rays| && s.aabbTests >= |rays|
      && 0 <= s.reflRays <= |rays| * Rank(v.maxIter)
      && (!w.castShadows ==> s.shadowRays == 0)
  {
    StatsSums(Frame(k, w, v, rays), Rank(v.maxIter));
  }

  /** Every pixel's box and triangle tests lie between the recorded minimum and maximum. */
  lemma {:induction false} StatsExtremes(ts: seq<Traced>)
    ensures var s := Stats(ts);
      forall i :: 0 <= i < |ts| ==>
        s.minAabbTests <= ts[i].tally.aabb <= s.maxAabbTests
        && s.minTriangleTests <= ts[i].tally.tri <= s.maxTriangleTests
    decreases |ts|
  {
    if |ts| > 0 {
      var pre := ts[..|ts| - 1];
      assert forall i :: 0 <= i < |pre| ==> pre[i] == ts[i];
      StatsExtremes(pre);
    }
  }

  /** With at least one pixel the minima do not exceed the maxima. */
  lemma MinimaBelowMaxima(ts: seq<Traced>)
    requires |ts| > 0
    ensures var s := Stats(ts);
      s.minAabbTests <= s.maxAabbTests && s.minTriangleTests <= s.maxTriangleTests
  {
    StatsExtremes(ts);
  }

  /** Pixel `i`'s colour sits at offsets 3i, 3i + 1 and 3i + 2 of the framebuffer. */
  lemma {:induction false} PictureLayout(ts: seq<Traced>)
    ensures var img := Picture(ts);
      |img| == 3 * |ts|
      && forall i :: 0 <= i < |ts| ==>
           img[3 * i] == ts[i].color.x && img[3 * i + 1] == ts[i].color.y && img[3 * i + 2] == ts[i].color.z
    decreases |ts|
  {
    if |ts| > 0 {
      var pre := ts[..|ts| - 1];
      assert forall i :: 0 <= i < |pre| ==> pre[i] == ts[i];
      PictureLayout(pre);
    }
  }

  // ---------------------------------------------------------------------------
  // The renderer's state: the globals of src/dbgray.cc

  /** An offset inside a frame of `xsz` by `ysz` pixels leaves room for its three channels. */
  lemma PixelInFrame(i: int, j: int, xsz: int, ysz: int)
    requires 0 <= i < ysz && 0 <= j < xsz
    ensures 0 <= i * xsz + j < xsz * ysz
  {
    RowEnd(i, xsz, ysz);
  }

  /** A row ends where the next begins, inside the frame. */
  lemma RowEnd(i: int, xsz: int, ysz: int)
    requires 0 <= i < ysz && 0 <= xsz
    ensures 0 <= i * xsz && i * xsz + xsz == (i + 1) * xsz <= xsz * ysz
  {
    assert (i + 1) * xsz <= ysz * xsz;
  }

  /** Pixels traced one by one make up the frame. */
  lemma FrameOf(k: Kernels, w: World, v: View, rays: seq<Ray>, ts: seq<Traced>)
    requires k.Valid() && WellFormed(w) && v.Valid() && |ts| <= |rays|
    requires forall i :: 0 <= i < |ts| ==> ts[i] == Pixel(k, w, v, rays[i])
    ensures ts == Frame(k, w, v, rays[..|ts|])
  {
  }

  /** One more pixel. */
  lemma FrameStep(ts: seq<Traced>, t: Traced)
    ensures Stats(ts + [t]) == Account(Stats(ts), t.tally)
    ensures Picture(ts + [t]) == Picture(ts) + [t.color.x, t.color.y, t.color.z]
  {
    assert (ts + [t])[..|ts|] == ts;
  }

  /** One more element of a prefix. */
  lemma TakeStep<T>(s: seq<T>, i: int)
    requires 0 <= i < |s|
    ensures s[..i + 1][..i] == s[..i] && s[..i + 1][i] == s[i]
  {
  }

  lemma TakeAll<T>(s: seq<T>)
    ensures s[..|s|] == s
  {
  }

  class Tracer {
    const kernels: Kernels
    const world: World
    const xsz: int
    const ysz: int
    const fb: array<real>
    var primRays: seq<Ray>
    var curAabbTests: int
    var curTriangleTests: int
    var stats: RenderStats

    ghost predicate Valid() {
      kernels.Valid() && WellFormed(world) && 0 <= xsz && 0 <= ysz && fb.Length == 3 * (xsz * ysz)
    }

    /** The counters moved by exactly `t`, and nothing else changed. */
    twostate predicate Spent(t: Tally)
      reads this
    {
      curAabbTests == old(curAabbTests) + t.aabb && curTriangleTests == old(curTriangleTests) + t.tri
      && stats == Charge(old(stats), t) && primRays == old(primRays)
    }

    /** `init_dbg_renderer`: a framebuffer of three floats per pixel for the given scene. */
    constructor Init(width: nat, height: nat, scene: World, k: Kernels, rstat: RenderStats)
      requires k.Valid() && WellFormed(scene)
      ensures Valid() && fresh(fb)
      ensures xsz == width && ysz == height && world == scene && kernels == k
      ensures stats == rstat && primRays == [] && curAabbTests == 0 && curTriangleTests == 0
    {
      kernels, world, xsz, ysz := k, scene, width, height;
      fb := new real[3 * (width * height)];
      stats := rstat;
      primRays, curAabbTests, curTriangleTests := [], 0, 0;
    }

    /** `dbg_set_primary_rays`. */
    method SetPrimaryRays(rays: seq<Ray>)
      modifies this
      ensures primRays == rays
      ensures curAabbTests == old(curAabbTests) && curTriangleTests == old(curTriangleTests) && stats == old(stats)
    {
      primRays := rays;
    }

    /** `ray_aabb_test`: counts one test and decides it as `AabbHit`. */
    method RayAabbTest(ray: Ray, b: Aabb) returns (hit: bool)
      modifies this
      ensures hit == AabbHit(ray, b, kernels)
      ensures Spent(Tally(1, 0, 0, 0, 0))
    {
      curAabbTests := curAabbTests + 1;
      var o, d := ray.origin, ray.dir;
      if o.x >= b.min.x && o.y >= b.min.y && o.z >= b.min.z && o.x < b.max.x && o.y < b.max.y && o.z < b.max.z {
        return true;
      }
      var tmin, tmax := Slab(o.x, d.x, b.min.x, b.max.x, kernels).0, Slab(o.x, d.x, b.min.x, b.max.x, kernels).1;
      var tymin, tymax := Slab(o.y, d.y, b.min.y, b.max.y, kernels).0, Slab(o.y, d.y, b.min.y, b.max.y, kernels).1;
      if tmin > tymax || tymin > tmax {
        return false;
      }
      if tymin > tmin {
        tmin := tymin;
      }
      if tymax < tmax {
        tmax := tymax;
      }
      var tzmin, tzmax := Slab(o.z, d.z, b.min.z, b.max.z, kernels).0, Slab(o.z, d.z, b.min.z, b.max.z, kernels).1;
      if tmin > tzmax || tzmin > tmax {
        return false;
      }
      return tmin < 1.0 && tmax > 0.0;
    }

    /**
     * `ray_triangle_test`: counts one test and decides it as `TriangleHit`; the
     * surface point is written only on a hit.
     */
    method RayTriangleTest(ray: Ray, fidx: nat, sp0: SurfPoint) returns (hit: bool, sp: SurfPoint)
      requires Valid() && fidx < |world.faces|
      modifies this
      ensures hit == TriangleHit(ray, world.faces[fidx], fidx, kernels).Some?
      ensures hit ==> sp == TriangleHit(ray, world.faces[fidx], fidx, kernels).value
      ensures !hit ==> sp == sp0
      ensures Spent(Tally(0, 1, 0, 0, 0))
    {
      curTriangleTests := curTriangleTests + 1;
      sp := sp0;
      var f := world.faces[fidx];
      var norm := XYZ(f.normal);
      var ndotdir := Dot(ray.dir, norm);
      if Abs(ndotdir) <= EPSILON {
        return false, sp;
      }
      var t := PlaneT(ray, f);
      if t < EPSILON || t > 1.0 {
        return false, sp;
      }
      var pt := At(ray, t);
      var bc := Bary(pt, f, norm);
      var sum := bc.x + bc.y + bc.z;
      if sum < 1.0 - EPSILON || sum > 1.0 + EPSILON {
        return false, sp;
      }
      sp := SurfPoint(t, pt, Unit(Interpolated(f, bc), kernels), fidx);
      return true, sp;
    }

    /**
     * `find_intersection`: the nearest hit below `tree` as `Nearest` defines it, having
     * made the tests `AabbTests` and `TriangleTests` count.
     */
    method FindIntersection(ray: Ray, tree: KdTree) returns (found: bool, sp: SurfPoint)
      requires Valid() && IndicesBelow(tree, |world.faces|)
      modifies this
      ensures found == Nearest(ray, world, tree, kernels).Some?
      ensures found ==> sp == Nearest(ray, world, tree, kernels).value
      ensures Spent(Search(ray, tree, kernels))
      decreases tree
    {
      var hit := RayAabbTest(ray, tree.box);
      if !hit {
        return false, SurfPoint(RAY_MAG, Vec3(0.0, 0.0, 0.0), Vec3(0.0, 0.0, 0.0), 0);
      }
      match tree
      case Inner(_, l, r) =>
        found, sp := FindIntersection(ray, l);
        var foundRight, spRight := FindIntersection(ray, r);
        if foundRight {
          if !found || spRight.t < sp.t {
            sp := spRight;
          }
          found := true;
        }
      case Leaf(_, idx) =>
        found, sp := LeafScan(ray, idx);
    }

    /** The face loop of `find_intersection` at a leaf. */
    method LeafScan(ray: Ray, idx: seq<nat>) returns (found: bool, sp: SurfPoint)
      requires Valid() && forall i :: 0 <= i < |idx| ==> idx[i] < |world.faces|
      modifies this
      ensures found == LeafBest(ray, world, idx, kernels).Some?
      ensures found ==> sp == LeafBest(ray, world, idx, kernels).value
      ensures Spent(Tally(0, |idx|, 0, 0, 0))
    {
      found := false;
      sp := SurfPoint(RAY_MAG, Vec3(0.0, 0.0, 0.0), Vec3(0.0, 0.0, 0.0), 0);
      var cand := sp;
      for i := 0 to |idx|
        invariant found == LeafBest(ray, world, idx[..i], kernels).Some?
        invariant found ==> sp == LeafBest(ray, world, idx[..i], kernels).value
        invariant sp.t == BestT(LeafBest(ray, world, idx[..i], kernels))
        invariant Spent(Tally(0, i, 0, 0, 0))
      {
        assert idx[..i + 1][..i] == idx[..i];
        var hit;
        hit, cand := RayTriangleTest(ray, idx[i], cand);
        if hit && cand.t < sp.t {
          sp := cand;
          found := true;
        }
      }
      assert idx[..|idx|] == idx;
    }

    /** `trace_ray`: the nearest hit shaded, or the miss colour. */
    method TraceRay(ray: Ray, iter: int, energy: real) returns (color: Vec3)
      requires Valid()
      modifies this
      ensures color == Trace(kernels, world, ray, iter, energy).color
      ensures Spent(Trace(kernels, world, ray, iter, energy).tally)
      decreases Rank(iter), 1
    {
      ghost var s0, a0, t0 := stats, curAabbTests, curTriangleTests;
      var found, sp := FindIntersection(ray, world.tree);
      NearestFaceBelow(ray, world, world.tree, kernels);
      ghost var searched := Search(ray, world.tree, kernels);
      assert stats == Charge(s0, searched);
      if found {
        ghost var s1, a1, t1 := stats, curAabbTests, curTriangleTests;
        color := Shade(ray, sp, iter, energy);
        ghost var r := Shading(kernels, world, ray, sp, iter, energy);
        assert stats == Charge(s1, r.tally) && curAabbTests == a1 + r.tally.aabb && curTriangleTests == t1 + r.tally.tri;
        ChargePlus(s0, searched, r.tally);
        assert Trace(kernels, world, ray, iter, energy) == Traced(r.color, Plus(searched, r.tally));
      } else {
        color := Vec3(MISS, MISS, MISS);
        assert Trace(kernels, world, ray, iter, energy) == Traced(color, searched);
      }
    }

    /** `shade`: the light loop, then the reflection while bounces and energy remain. */
    method Shade(ray: Ray, sp: SurfPoint, iter: int, energy: real) returns (color: Vec3)
      requires Valid() && sp.face < |world.faces|
      modifies this
      ensures color == Shading(kernels, world, ray, sp, iter, energy).color
      ensures Spent(Shading(kernels, world, ray, sp, iter, energy).tally)
      decreases Rank(iter), 0
    {
      var mat := world.materials[world.faces[sp.face].matid];
      var norm := sp.norm;
      if Dot(ray.dir, norm) >= 0.0 {
        norm := Neg(norm);
      }
      ghost var s0, a0, t0 := stats, curAabbTests, curTriangleTests;
      var dcol, scol := LightLoop(ray, sp, norm, mat);
      ghost var lit := Lights(kernels, world, sp, ray.dir, norm, mat, world.lights);
      assert stats == Charge(s0, lit.tally) && curAabbTests == a0 + lit.tally.aabb && curTriangleTests == t0 + lit.tally.tri;
      var rc := ReflColor(mat);
      var e := Attenuated(energy, mat);
      if iter >= 0 && e > MIN_ENERGY {
        var rdir := kernels.reflect(Neg(ray.dir), norm);
        ghost var s1, a1, t1 := stats, curAabbTests, curTriangleTests;
        var rcol := TraceRay(Ray(sp.pos, rdir), iter - 1, e);
        ghost var r := Trace(kernels, world, Ray(sp.pos, rdir), iter - 1, e);
        assert stats == Charge(s1, r.tally) && curAabbTests == a1 + r.tally.aabb && curTriangleTests == t1 + r.tally.tri;
        scol := Add(scol, Mul(rcol, rc));
        stats := stats.(reflRays := stats.reflRays + 1);
        ChargePlus(s0, lit.tally, r.tally);
        ChargePlus(s0, Plus(lit.tally, r.tally), Tally(0, 0, 0, 0, 1));
        assert stats == Charge(s0, Plus(Plus(lit.tally, r.tally), Tally(0, 0, 0, 0, 1)));
      }
      color := Add(dcol, scol);
    }

    /** `shade`'s loop over the lights. */
    method LightLoop(ray: Ray, sp: SurfPoint, norm: Vec3, mat: Material) returns (dcol: Vec3, scol: Vec3)
      requires Valid()
      modifies this
      ensures var lit := Lights(kernels, world, sp, ray.dir, norm, mat, world.lights);
        dcol == lit.dcol && scol == lit.scol && Spent(lit.tally)
    {
      dcol, scol := Vec3(0.0, 0.0, 0.0), Vec3(0.0, 0.0, 0.0);
      ghost var s0, a0, t0 := stats, curAabbTests, curTriangleTests;
      for i := 0 to |world.lights|
        invariant var lit := Lights(kernels, world, sp, ray.dir, norm, mat, world.lights[..i]);
          dcol == lit.dcol && scol == lit.scol && stats == Charge(s0, lit.tally)
          && curAabbTests == a0 + lit.tally.aabb && curTriangleTests == t0 + lit.tally.tri
        invariant primRays == old(primRays)
      {
        ghost var before := Lights(kernels, world, sp, ray.dir, norm, mat, world.lights[..i]);
        ghost var term := LightTerm(kernels, world, sp, ray.dir, norm, mat, world.lights[i]);
        TakeStep(world.lights, i);
        assert Lights(kernels, world, sp, ray.dir, norm, mat, world.lights[..i + 1]) == Accumulate(before, term);
        var d, s := Illuminate(ray, sp, norm, mat, world.lights[i]);
        dcol, scol := Add(dcol, d), Add(scol, s);
        ChargePlus(s0, before.tally, term.tally);
      }
      TakeAll(world.lights);
    }

    /** One pass of the light loop: the light's diffuse and specular terms, zero when it is shadowed. */
    method Illuminate(ray: Ray, sp: SurfPoint, norm: Vec3, mat: Material, lpos: Vec3) returns (d: Vec3, s: Vec3)
      requires Valid()
      modifies this
      ensures var term := LightTerm(kernels, world, sp, ray.dir, norm, mat, lpos);
        d == term.dcol && s == term.scol && Spent(term.tally)
    {
      d, s := Vec3(0.0, 0.0, 0.0), Vec3(0.0, 0.0, 0.0);
      var ldir := Sub(lpos, sp.pos);
      var shadowRay := Ray(sp.pos, ldir);
      var blocked := false;
      if world.castShadows {
        var hit;
        blocked, hit := FindIntersection(shadowRay, world.tree);
      }
      if !blocked {
        stats := stats.(brdfEvals := stats.brdfEvals + 1);
        ldir := Unit(ldir, kernels);
        var vdir := ViewDir(ray.dir);
        var vref := kernels.reflect(vdir, norm);
        var diff := Max0(Dot(ldir, norm));
        d := Scale(XYZ(mat.kd), diff);
        var spec := kernels.pow(Max0(Dot(ldir, vref)), mat.spow);
        s := Scale(XYZ(mat.ks), spec);
      }
      if world.castShadows {
        stats := stats.(shadowRays := stats.shadowRays + 1);
      }
    }

    /**
     * The pixels traced to `ts` are drawn: each is what its primary ray is traced to,
     * the statistics and the framebuffer hold what they make, and the per-ray
     * counters hold the last one's tests (`a0` and `t0` before any).
     */
    ghost predicate Drawn(v: View, ts: seq<Traced>, a0: int, t0: int)
      reads this, fb
    {
      Valid() && v.Valid() && |ts| <= |primRays| && 3 * |ts| <= fb.Length
      && (forall i :: 0 <= i < |ts| ==> ts[i] == Pixel(kernels, world, v, primRays[i]))
      && stats == Stats(ts) && fb[..3 * |ts|] == Picture(ts)
      && (|ts| == 0 ==> curAabbTests == a0 && curTriangleTests == t0)
      && (|ts| > 0 ==> curAabbTests == ts[|ts| - 1].tally.aabb && curTriangleTests == ts[|ts| - 1].tally.tri)
    }

    /**
     * `dbg_render`: resets the statistics, traces every pixel's transformed primary
     * ray in row order into the framebuffer while folding its counts into the
     * statistics, and finally totals the rays cast.
     */
    method DbgRender(v: View)
      requires Valid() && v.Valid() && |primRays| >= xsz * ysz
      modifies this, fb
      ensures primRays == old(primRays)
      ensures var ts := Frame(kernels, world, v, primRays[..xsz * ysz]);
        stats == Finished(Stats(ts)) && fb[..] == Picture(ts)
        && (|ts| == 0 ==> curAabbTests == old(curAabbTests) && curTriangleTests == old(curTriangleTests))
        && (|ts| > 0 ==> curAabbTests == ts[|ts| - 1].tally.aabb && curTriangleTests == ts[|ts| - 1].tally.tri)
    {
      stats := START;
      ghost var ts := RenderRows(v, curAabbTests, curTriangleTests);
      Complete(v, ts, old(curAabbTests), old(curTriangleTests));
      stats := stats.(raysCast := stats.primRays + stats.reflRays + stats.shadowRays);
    }

    /** The outer loop of `dbg_render`: the rows, top to bottom. */
    method RenderRows(v: View, ghost a0: int, ghost t0: int) returns (ghost ts: seq<Traced>)
      requires Drawn(v, [], a0, t0) && |primRays| >= xsz * ysz
      modifies this, fb
      ensures primRays == old(primRays) && |ts| == xsz * ysz
      ensures Drawn(v, ts, a0, t0)
    {
      ts := [];
      for i := 0 to ysz
        invariant |ts| == i * xsz <= xsz * ysz && primRays == old(primRays)
        invariant Drawn(v, ts, a0, t0)
      {
        ts := RenderRow(v, i, ts, a0, t0);
      }
      assert ysz * xsz == xsz * ysz;
    }

    /** Once every pixel is drawn, the pixels are the frame and the framebuffer is its picture. */
    lemma Complete(v: View, ts: seq<Traced>, a0: int, t0: int)
      requires Drawn(v, ts, a0, t0) && |ts| == xsz * ysz
      ensures ts == Frame(kernels, world, v, primRays[..xsz * ysz]) && fb[..] == Picture(ts) && stats == Stats(ts)
    {
      FrameOf(kernels, world, v, primRays, ts);
      assert fb[..] == fb[..3 * |ts|];
    }

    /** The inner loop of `dbg_render`: the pixels of row `i`, left to right. */
    method RenderRow(v: View, i: int, ghost ts: seq<Traced>, ghost a0: int, ghost t0: int) returns (ghost ts': seq<Traced>)
      requires 0 <= i < ysz && |ts| == i * xsz && Drawn(v, ts, a0, t0) && |primRays| >= xsz * ysz
      modifies this, fb
      ensures primRays == old(primRays) && |ts'| == (i + 1) * xsz <= xsz * ysz
      ensures Drawn(v, ts', a0, t0)
    {
      RowEnd(i, xsz, ysz);
      var offs := i * xsz;
      ts' := ts;
      for j := 0 to xsz
        invariant offs == |ts'| == i * xsz + j && primRays == old(primRays)
        invariant Drawn(v, ts', a0, t0)
      {
        PixelInFrame(i, j, xsz, ysz);
        ts' := RenderPixel(v, offs, ts', a0, t0);
        offs := offs + 1;
      }
    }

    /** The body of `dbg_render`'s pixel loop for the pixel at offset `offs`. */
    method RenderPixel(v: View, offs: nat, ghost ts: seq<Traced>, ghost a0: int, ghost t0: int) returns (ghost ts': seq<Traced>)
      requires Drawn(v, ts, a0, t0) && offs == |ts| && offs < xsz * ysz && offs < |primRays|
      modifies this, fb
      ensures primRays == old(primRays) && ts' == ts + [Pixel(kernels, world, v, primRays[offs])]
      ensures Drawn(v, ts', a0, t0)
    {
      ghost var p := Pixel(kernels, world, v, primRays[offs]);
      ts' := ts + [p];
      FrameStep(ts, p);
      ghost var s0 := stats;
      var ray := TransformRay(primRays[offs], v.xform, v.invtrans);
      curAabbTests, curTriangleTests := 0, 0;
      var c := TraceRay(ray, v.maxIter, 1.0);
      assert c == p.color && stats == Charge(s0, p.tally);
      assert curAabbTests == p.tally.aabb && curTriangleTests == p.tally.tri;
      WritePixel(offs, c);
      assert fb[..3 * |ts'|] == Picture(ts');
      UpdateStats();
      assert stats == Stats(ts');
      forall i | 0 <= i < |ts'|
        ensures ts'[i] == Pixel(kernels, world, v, primRays[i])
      {
        if i < |ts| {
          assert ts'[i] == ts[i];
        }
      }
    }

    /** The three channels of pixel `offs`. */
    method WritePixel(offs: nat, c: Vec3)
      requires 3 * offs + 3 <= fb.Length
      modifies fb
      ensures fb[..3 * offs + 3] == old(fb[..3 * offs]) + [c.x, c.y, c.z]
    {
      fb[3 * offs] := c.x;
      fb[3 * offs + 1] := c.y;
      fb[3 * offs + 2] := c.z;
      assert fb[..3 * offs + 3] == old(fb[..3 * offs]) + [c.x, c.y, c.z] by {
        assert forall m :: 0 <= m < 3 * offs ==> fb[m] == old(fb[m]);
      }
    }

    /** The statistics updates after a pixel's trace. */
    method UpdateStats()
      modifies this
      ensures stats == Tallied(old(stats), curAabbTests, curTriangleTests)
      ensures curAabbTests == old(curAabbTests) && curTriangleTests == old(curTriangleTests)
      ensures primRays == old(primRays)
    {
      if curAabbTests < stats.minAabbTests {
        stats := stats.(minAabbTests := curAabbTests);
      }
      if curAabbTests > stats.maxAabbTests {
        stats := stats.(maxAabbTests := curAabbTests);
      }
      if curTriangleTests < stats.minTriangleTests {
        stats := stats.(minTriangleTests := curTriangleTests);
      }
      if curTriangleTests > stats.maxTriangleTests {
        stats := stats.(maxTriangleTests := curTriangleTests);
      }
      stats := stats.(primRays := stats.primRays + 1, aabbTests := stats.aabbTests + curAabbTests,
                      triangleTests := stats.triangleTests + curTriangleTests);
    }
  }
}
