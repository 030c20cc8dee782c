/**
 * The 4x4 matrix of src/matrix.cc, over `real`.
 *
 * Entries live in a flat buffer of 16 numbers addressed by `M(x, y) = y * 4 + x`
 * (`Idx` below). The first index `x` is the row: `transform` in src/dbgray.cc
 * computes component `k` of its result as the sum of `v[i] * m[M(k, i)]`.
 * The pure functions on `seq<real>` give the meaning of each operation; the class
 * `Matrix4x4` keeps the source's in-place buffer and is proved against them.
 */
module Matrices {

  /** The index map `M(x, y)`. */
  function Idx(x: int, y: int): int {
    y * 4 + x
  }

  /** The inverse of `Idx`: every buffer slot is the slot of exactly one (row, column) pair. */
  function Coords(k: int): (rc: (int, int))
    requires 0 <= k < 16
    ensures 0 <= rc.0 < 4 && 0 <= rc.1 < 4 && Idx(rc.0, rc.1) == k
  {
    (k % 4, k / 4)
  }

  /** Writing slot `M(i, j)` leaves the slot of every other pair alone. */
  lemma IdxOthers(i: int, j: int)
    requires 0 <= i < 4 && 0 <= j < 4
    ensures forall a, b :: 0 <= a < 4 && 0 <= b < 4 && (a != i || b != j) ==> Idx(a, b) != Idx(i, j)
  {
  }

  /** Whether (a, b) is visited before (i, j) by a row-by-row double loop. */
  predicate Before(a: int, b: int, i: int, j: int) {
    a < i || (a == i && b < j)
  }

  /** `Idx` maps {0..3} x {0..3} into {0..15} without collisions. */
  lemma IdxInjective(x: int, y: int, x': int, y': int)
    requires 0 <= x < 4 && 0 <= y < 4 && 0 <= x' < 4 && 0 <= y' < 4
    ensures 0 <= Idx(x, y) < 16
    ensures Idx(x, y) == Idx(x', y') ==> x == x' && y == y'
  {
  }

  /** A matrix as the 16 numbers of its buffer. */
  predicate IsMatrix(s: seq<real>) {
    |s| == 16
  }

  /** The entry in row `x`, column `y`. */
  function At(s: seq<real>, x: int, y: int): real
    requires IsMatrix(s) && 0 <= x < 4 && 0 <= y < 4
  {
    s[Idx(x, y)]
  }

  /** What the default constructor and `identity()` leave in the buffer. */
  function IdentityEntries(): (r: seq<real>)
    ensures IsMatrix(r)
    ensures forall k :: 0 <= k < 16 ==> r[k] == if k == 0 || k == 5 || k == 10 || k == 15 then 1.0 else 0.0
  {
    seq(16, k => if k % 5 == 0 then 1.0 else 0.0)
  }

  /** The identity holds 1 exactly on the diagonal. */
  lemma IdentityAt(i: int, j: int)
    requires 0 <= i < 4 && 0 <= j < 4
    ensures At(IdentityEntries(), i, j) == if i == j then 1.0 else 0.0
  {
  }

  /** `transpose()`: the entry at `M(i, j)` becomes the old entry at `M(j, i)`. */
  function Transposed(s: seq<real>): (r: seq<real>)
    requires IsMatrix(s)
    ensures IsMatrix(r)
  {
    seq(16, k requires 0 <= k < 16 => s[(k % 4) * 4 + k / 4])
  }

  lemma TransposedAt(s: seq<real>, i: int, j: int)
    requires IsMatrix(s) && 0 <= i < 4 && 0 <= j < 4
    ensures At(Transposed(s), i, j) == At(s, j, i)
  {
    var k := Idx(i, j);
    assert k % 4 == i && k / 4 == j;
  }

  /** Transposing twice gives back the matrix. */
  lemma TransposeInvolution(s: seq<real>)
    requires IsMatrix(s)
    ensures Transposed(Transposed(s)) == s
  {
    var t := Transposed(Transposed(s));
    forall k | 0 <= k < 16
      ensures t[k] == s[k]
    {
      var rc := Coords(k);
      TransposedAt(Transposed(s), rc.0, rc.1);
      TransposedAt(s, rc.1, rc.0);
    }
  }

  /** Diagonal entries are fixed by `transpose()`. */
  lemma TransposeFixesDiagonal(s: seq<real>, i: int)
    requires IsMatrix(s) && 0 <= i < 4
    ensures At(Transposed(s), i, i) == At(s, i, i)
  {
  }

  /** The 3x3 determinant in the exact expansion the source writes for each minor. */
  function Det3(a: real, b: real, c: real, d: real, e: real, f: real, g: real, h: real, i: real): real {
    a * (e * i - h * f) - b * (d * i - g * f) + c * (d * h - g * e)
  }

  /** The `k`-th (0..2) of the indices 0..3 other than `r`, in increasing order. */
  function Rest(r: int, k: int): (n: int)
    requires 0 <= r < 4 && 0 <= k < 3
    ensures 0 <= n < 4 && n != r
  {
    if k < r then k else k + 1
  }

  /**
   * The determinant of the 3x3 matrix left when row `r` and column `c` are deleted.
   * `determinant()` calls these `det11`..`det14` (r = 0); `adjoint()` computes all 16.
   */
  function Minor(s: seq<real>, r: int, c: int): real
    requires IsMatrix(s) && 0 <= r < 4 && 0 <= c < 4
  {
    Det3(At(s, Rest(r, 0), Rest(c, 0)), At(s, Rest(r, 0), Rest(c, 1)), At(s, Rest(r, 0), Rest(c, 2)),
         At(s, Rest(r, 1), Rest(c, 0)), At(s, Rest(r, 1), Rest(c, 1)), At(s, Rest(r, 1), Rest(c, 2)),
         At(s, Rest(r, 2), Rest(c, 0)), At(s, Rest(r, 2), Rest(c, 1)), At(s, Rest(r, 2), Rest(c, 2)))
  }

  /** The matrix whose entry (x, y) is `f(x, y)`. */
  function Tabulate(f: (int, int) -> real): (r: seq<real>)
    ensures IsMatrix(r)
    ensures forall x, y :: 0 <= x < 4 && 0 <= y < 4 ==> r[Idx(x, y)] == f(x, y)
  {
    var r := seq(16, k requires 0 <= k < 16 => f(k % 4, k / 4));
    TabulateAt(f, r);
    r
  }

  lemma TabulateAt(f: (int, int) -> real, r: seq<real>)
    requires r == seq(16, k requires 0 <= k < 16 => f(k % 4, k / 4))
    ensures forall x, y :: 0 <= x < 4 && 0 <= y < 4 ==> r[Idx(x, y)] == f(x, y)
  {
    forall x, y | 0 <= x < 4 && 0 <= y < 4
      ensures r[Idx(x, y)] == f(x, y)
    {
      var k := Idx(x, y);
      assert k % 4 == x && k / 4 == y;
    }
  }

  /** The matrix of minors: the minor of (r, c) at `M(r, c)`, as `adjoint()` fills it. */
  function MinorMatrix(s: seq<real>): (r: seq<real>)
    requires IsMatrix(s)
    ensures IsMatrix(r)
    ensures forall x, y :: 0 <= x < 4 && 0 <= y < 4 ==> r[Idx(x, y)] == Minor(s, x, y)
  {
    Tabulate((x, y) => if 0 <= x < 4 && 0 <= y < 4 then Minor(s, x, y) else 0.0)
  }

  /** `determinant()`: cofactor expansion along row 0. */
  function Det(s: seq<real>): real
    requires IsMatrix(s)
  {
    At(s, 0, 0) * Minor(s, 0, 0) - At(s, 0, 1) * Minor(s, 0, 1)
      + At(s, 0, 2) * Minor(s, 0, 2) - At(s, 0, 3) * Minor(s, 0, 3)
  }

  /** `v` negated when `n` is odd: the checkerboard sign of the adjoint. */
  function Signed(n: int, v: real): real {
    if n % 2 == 1 then -v else v
  }

  /** Negating for an odd `j` and then for an odd `i` is negating for an odd `i + j`. */
  lemma SignedSplit(i: int, j: int, v: real)
    requires 0 <= i && 0 <= j
    ensures Signed(i + j, v) == var w := if j % 2 == 1 then -v else v; if i % 2 == 1 then -w else w
  {
  }

  /**
   * `adjoint()`: the matrix of minors, transposed, with entry `M(i, j)` negated
   * when `i + j` is odd, so entry (i, j) is the signed minor of (j, i).
   */
  function AdjointOf(s: seq<real>): (r: seq<real>)
    requires IsMatrix(s)
    ensures IsMatrix(r)
  {
    seq(16, k requires 0 <= k < 16 => Signed(k % 4 + k / 4, Minor(s, k / 4, k % 4)))
  }

  lemma AdjointAt(s: seq<real>, i: int, j: int)
    requires IsMatrix(s) && 0 <= i < 4 && 0 <= j < 4
    ensures At(AdjointOf(s), i, j) == Signed(i + j, Minor(s, j, i))
  {
    var k := Idx(i, j);
    assert k % 4 == i && k / 4 == j;
  }

  /** `invert()`: every entry of the adjoint divided by the determinant. */
  function Inverted(s: seq<real>): (r: seq<real>)
    requires IsMatrix(s) && Det(s) != 0.0
    ensures IsMatrix(r)
  {
    Divided(AdjointOf(s), Det(s))
  }

  /** Every entry of `s` divided by `d`. */
  function Divided(s: seq<real>, d: real): (r: seq<real>)
    requires IsMatrix(s) && d != 0.0
    ensures IsMatrix(r)
  {
    seq(16, k requires 0 <= k < 16 => s[k] / d)
  }

  /** The matrix product: entry (i, j) is row `i` of `a` times column `j` of `b`. */
  function Product(a: seq<real>, b: seq<real>): (r: seq<real>)
    requires IsMatrix(a) && IsMatrix(b)
    ensures IsMatrix(r)
  {
    seq(16, k requires 0 <= k < 16 => RowTimesColumn(a, b, k % 4, k / 4))
  }

  function RowTimesColumn(a: seq<real>, b: seq<real>, i: int, j: int): real
    requires IsMatrix(a) && IsMatrix(b) && 0 <= i < 4 && 0 <= j < 4
  {
    At(a, i, 0) * At(b, 0, j) + At(a, i, 1) * At(b, 1, j) + At(a, i, 2) * At(b, 2, j) + At(a, i, 3) * At(b, 3, j)
  }

  /** The Leibniz formula: the sum over the 24 permutations of 0..3. */
  function Leibniz(s: seq<real>): real
    requires IsMatrix(s)
  {
    At(s, 0, 0) * At(s, 1, 1) * At(s, 2, 2) * At(s, 3, 3)
    - At(s, 0, 0) * At(s, 1, 1) * At(s, 2, 3) * At(s, 3, 2)
    - At(s, 0, 0) * At(s, 1, 2) * At(s, 2, 1) * At(s, 3, 3)
    + At(s, 0, 0) * At(s, 1, 2) * At(s, 2, 3) * At(s, 3, 1)
    + At(s, 0, 0) * At(s, 1, 3) * At(s, 2, 1) * At(s, 3, 2)
    - At(s, 0, 0) * At(s, 1, 3) * At(s, 2, 2) * At(s, 3, 1)
    - At(s, 0, 1) * At(s, 1, 0) * At(s, 2, 2) * At(s, 3, 3)
    + At(s, 0, 1) * At(s, 1, 0) * At(s, 2, 3) * At(s, 3, 2)
    + At(s, 0, 1) * At(s, 1, 2) * At(s, 2, 0) * At(s, 3, 3)
    - At(s, 0, 1) * At(s, 1, 2) * At(s, 2, 3) * At(s, 3, 0)
    - At(s, 0, 1) * At(s, 1, 3) * At(s, 2, 0) * At(s, 3, 2)
    + At(s, 0, 1) * At(s, 1, 3) * At(s, 2, 2) * At(s, 3, 0)
    + At(s, 0, 2) * At(s, 1, 0) * At(s, 2, 1) * At(s, 3, 3)
    - At(s, 0, 2) * At(s, 1, 0) * At(s, 2, 3) * At(s, 3, 1)
    - At(s, 0, 2) * At(s, 1, 1) * At(s, 2, 0) * At(s, 3, 3)
    + At(s, 0, 2) * At(s, 1, 1) * At(s, 2, 3) * At(s, 3, 0)
    + At(s, 0, 2) * At(s, 1, 3) * At(s, 2, 0) * At(s, 3, 1)
    - At(s, 0, 2) * At(s, 1, 3) * At(s, 2, 1) * At(s, 3, 0)
    - At(s, 0, 3) * At(s, 1, 0) * At(s, 2, 1) * At(s, 3, 2)
    + At(s, 0, 3) * At(s, 1, 0) * At(s, 2, 2) * At(s, 3, 1)
    + At(s, 0, 3) * At(s, 1, 1) * At(s, 2, 0) * At(s, 3, 2)
    - At(s, 0, 3) * At(s, 1, 1) * At(s, 2, 2) * At(s, 3, 0)
    - At(s, 0, 3) * At(s, 1, 2) * At(s, 2, 0) * At(s, 3, 1)
    + At(s, 0, 3) * At(s, 1, 2) * At(s, 2, 1) * At(s, 3, 0)
  }

  /** The source's row-0 expansion is the determinant. */
  lemma DetIsLeibniz(s: seq<real>)
    requires IsMatrix(s)
    ensures Det(s) == Leibniz(s)
  {
  }

  /**
   * The adjugate identity: row `i` of the matrix times column `j` of its adjoint is
   * the determinant on the diagonal and 0 elsewhere.
   */
  lemma AdjugateEntry(s: seq<real>, i: int, j: int)
    requires IsMatrix(s) && 0 <= i < 4 && 0 <= j < 4
    ensures RowTimesColumn(s, AdjointOf(s), i, j) == if i == j then Det(s) else 0.0
  {
    if i == 0 {
      if j == 0 { AdjugateEntry00(s); } else if j == 1 { AdjugateEntry01(s); }
      else if j == 2 { AdjugateEntry02(s); } else { AdjugateEntry03(s); }
    } else if i == 1 {
      if j == 0 { AdjugateEntry10(s); } else if j == 1 { AdjugateEntry11(s); }
      else if j == 2 { AdjugateEntry12(s); } else { AdjugateEntry13(s); }
    } else if i == 2 {
      if j == 0 { AdjugateEntry20(s); } else if j == 1 { AdjugateEntry21(s); }
      else if j == 2 { AdjugateEntry22(s); } else { AdjugateEntry23(s); }
    } else {
      if j == 0 { AdjugateEntry30(s); } else if j == 1 { AdjugateEntry31(s); }
      else if j == 2 { AdjugateEntry32(s); } else { AdjugateEntry33(s); }
    }
  }

  // One polynomial identity per entry of the adjugate identity.
  /**
   * Row `i` of `s` times the signed minors of row `j`, which are column `j` of the
   * adjoint.
   */
  function Expansion(s: seq<real>, i: int, j: int): real
    requires IsMatrix(s) && 0 <= i < 4 && 0 <= j < 4
  {
    At(s, i, 0) * Signed(0 + j, Minor(s, j, 0)) + At(s, i, 1) * Signed(1 + j, Minor(s, j, 1))
      + At(s, i, 2) * Signed(2 + j, Minor(s, j, 2)) + At(s, i, 3) * Signed(3 + j, Minor(s, j, 3))
  }

  lemma Expansion00(s: seq<real>) requires IsMatrix(s) ensures Expansion(s, 0, 0) == Leibniz(s) {}
  lemma Expansion01(s: seq<real>) requires IsMatrix(s) ensures Expansion(s, 0, 1) == 0.0 {}
  lemma Expansion02(s: seq<real>) requires IsMatrix(s) ensures Expansion(s, 0, 2) == 0.0 {}
  lemma Expansion03(s: seq<real>) requires IsMatrix(s) ensures Expansion(s, 0, 3) == 0.0 {}
  lemma Expansion10(s: seq<real>) requires IsMatrix(s) ensures Expansion(s, 1, 0) == 0.0 {}
  lemma Expansion11(s: seq<real>) requires IsMatrix(s) ensures Expansion(s, 1, 1) == Leibniz(s) {}
  lemma Expansion12(s: seq<real>) requires IsMatrix(s) ensures Expansion(s, 1, 2) == 0.0 {}
  lemma Expansion13(s: seq<real>) requires IsMatrix(s) ensures Expansion(s, 1, 3) == 0.0 {}
  lemma Expansion20(s: seq<real>) requires IsMatrix(s) ensures Expansion(s, 2, 0) == 0.0 {}
  lemma Expansion21(s: seq<real>) requires IsMatrix(s) ensures Expansion(s, 2, 1) == 0.0 {}
  lemma Expansion22(s: seq<real>) requires IsMatrix(s) ensures Expansion(s, 2, 2) == Leibniz(s) {}
  lemma Expansion23(s: seq<real>) requires IsMatrix(s) ensures Expansion(s, 2, 3) == 0.0 {}
  lemma Expansion30(s: seq<real>) requires IsMatrix(s) ensures Expansion(s, 3, 0) == 0.0 {}
  lemma Expansion31(s: seq<real>) requires IsMatrix(s) ensures Expansion(s, 3, 1) == 0.0 {}
  lemma Expansion32(s: seq<real>) requires IsMatrix(s) ensures Expansion(s, 3, 2) == 0.0 {}
  lemma Expansion33(s: seq<real>) requires IsMatrix(s) ensures Expansion(s, 3, 3) == Leibniz(s) {}

  lemma AdjugateEntry00(s: seq<real>)
    requires IsMatrix(s)
    ensures RowTimesColumn(s, AdjointOf(s), 0, 0) == Det(s)
  {
    AdjointAt(s, 0, 0); AdjointAt(s, 1, 0); AdjointAt(s, 2, 0); AdjointAt(s, 3, 0);
    assert RowTimesColumn(s, AdjointOf(s), 0, 0) == Expansion(s, 0, 0);
    Expansion00(s);
    DetIsLeibniz(s);
  }

  lemma AdjugateEntry01(s: seq<real>)
    requires IsMatrix(s)
    ensures RowTimesColumn(s, AdjointOf(s), 0, 1) == 0.0
  {
    AdjointAt(s, 0, 1); AdjointAt(s, 1, 1); AdjointAt(s, 2, 1); AdjointAt(s, 3, 1);
    assert RowTimesColumn(s, AdjointOf(s), 0, 1) == Expansion(s, 0, 1);
    Expansion01(s);
  }

  lemma AdjugateEntry02(s: seq<real>)
    requires IsMatrix(s)
    ensures RowTimesColumn(s, AdjointOf(s), 0, 2) == 0.0
  {
    AdjointAt(s, 0, 2); AdjointAt(s, 1, 2); AdjointAt(s, 2, 2); AdjointAt(s, 3, 2);
    assert RowTimesColumn(s, AdjointOf(s), 0, 2) == Expansion(s, 0, 2);
    Expansion02(s);
  }

  lemma AdjugateEntry03(s: seq<real>)
    requires IsMatrix(s)
    ensures RowTimesColumn(s, AdjointOf(s), 0, 3) == 0.0
  {
    AdjointAt(s, 0, 3); AdjointAt(s, 1, 3); AdjointAt(s, 2, 3); AdjointAt(s, 3, 3);
    assert RowTimesColumn(s, AdjointOf(s), 0, 3) == Expansion(s, 0, 3);
    Expansion03(s);
  }

  lemma AdjugateEntry10(s: seq<real>)
    requires IsMatrix(s)
    ensures RowTimesColumn(s, AdjointOf(s), 1, 0) == 0.0
  {
    AdjointAt(s, 0, 0); AdjointAt(s, 1, 0); AdjointAt(s, 2, 0); AdjointAt(s, 3, 0);
    assert RowTimesColumn(s, AdjointOf(s), 1, 0) == Expansion(s, 1, 0);
    Expansion10(s);
  }

  lemma AdjugateEntry11(s: seq<real>)
    requires IsMatrix(s)
    ensures RowTimesColumn(s, AdjointOf(s), 1, 1) == Det(s)
  {
    AdjointAt(s, 0, 1); AdjointAt(s, 1, 1); AdjointAt(s, 2, 1); AdjointAt(s, 3, 1);
    assert RowTimesColumn(s, AdjointOf(s), 1, 1) == Expansion(s, 1, 1);
    Expansion11(s);
    DetIsLeibniz(s);
  }

  lemma AdjugateEntry12(s: seq<real>)
    requires IsMatrix(s)
    ensures RowTimesColumn(s, AdjointOf(s), 1, 2) == 0.0
  {
    AdjointAt(s, 0, 2); AdjointAt(s, 1, 2); AdjointAt(s, 2, 2); AdjointAt(s, 3, 2);
    assert RowTimesColumn(s, AdjointOf(s), 1, 2) == Expansion(s, 1, 2);
    Expansion12(s);
  }

  lemma AdjugateEntry13(s: seq<real>)
    requires IsMatrix(s)
    ensures RowTimesColumn(s, AdjointOf(s), 1, 3) == 0.0
  {
    AdjointAt(s, 0, 3); AdjointAt(s, 1, 3); AdjointAt(s, 2, 3); AdjointAt(s, 3, 3);
    assert RowTimesColumn(s, AdjointOf(s), 1, 3) == Expansion(s, 1, 3);
    Expansion13(s);
  }

  lemma AdjugateEntry20(s: seq<real>)
    requires IsMatrix(s)
    ensures RowTimesColumn(s, AdjointOf(s), 2, 0) == 0.0
  {
    AdjointAt(s, 0, 0); AdjointAt(s, 1, 0); AdjointAt(s, 2, 0); AdjointAt(s, 3, 0);
    assert RowTimesColumn(s, AdjointOf(s), 2, 0) == Expansion(s, 2, 0);
    Expansion20(s);
  }

  lemma AdjugateEntry21(s: seq<real>)
    requires IsMatrix(s)
    ensures RowTimesColumn(s, AdjointOf(s), 2, 1) == 0.0
  {
    AdjointAt(s, 0, 1); AdjointAt(s, 1, 1); AdjointAt(s, 2, 1); AdjointAt(s, 3, 1);
    assert RowTimesColumn(s, AdjointOf(s), 2, 1) == Expansion(s, 2, 1);
    Expansion21(s);
  }

  lemma AdjugateEntry22(s: seq<real>)
    requires IsMatrix(s)
    ensures RowTimesColumn(s, AdjointOf(s), 2, 2) == Det(s)
  {
    AdjointAt(s, 0, 2); AdjointAt(s, 1, 2); AdjointAt(s, 2, 2); AdjointAt(s, 3, 2);
    assert RowTimesColumn(s, AdjointOf(s), 2, 2) == Expansion(s, 2, 2);
    Expansion22(s);
    DetIsLeibniz(s);
  }

  lemma AdjugateEntry23(s: seq<real>)
    requires IsMatrix(s)
    ensures RowTimesColumn(s, AdjointOf(s), 2, 3) == 0.0
  {
    AdjointAt(s, 0, 3); AdjointAt(s, 1, 3); AdjointAt(s, 2, 3); AdjointAt(s, 3, 3);
    assert RowTimesColumn(s, AdjointOf(s), 2, 3) == Expansion(s, 2, 3);
    Expansion23(s);
  }

  lemma AdjugateEntry30(s: seq<real>)
    requires IsMatrix(s)
    ensures RowTimesColumn(s, AdjointOf(s), 3, 0) == 0.0
  {
    AdjointAt(s, 0, 0); AdjointAt(s, 1, 0); AdjointAt(s, 2, 0); AdjointAt(s, 3, 0);
    assert RowTimesColumn(s, AdjointOf(s), 3, 0) == Expansion(s, 3, 0);
    Expansion30(s);
  }

  lemma AdjugateEntry31(s: seq<real>)
    requires IsMatrix(s)
    ensures RowTimesColumn(s, AdjointOf(s), 3, 1) == 0.0
  {
    AdjointAt(s, 0, 1); AdjointAt(s, 1, 1); AdjointAt(s, 2, 1); AdjointAt(s, 3, 1);
    assert RowTimesColumn(s, AdjointOf(s), 3, 1) == Expansion(s, 3, 1);
    Expansion31(s);
  }

  lemma AdjugateEntry32(s: seq<real>)
    requires IsMatrix(s)
    ensures RowTimesColumn(s, AdjointOf(s), 3, 2) == 0.0
  {
    AdjointAt(s, 0, 2); AdjointAt(s, 1, 2); AdjointAt(s, 2, 2); AdjointAt(s, 3, 2);
    assert RowTimesColumn(s, AdjointOf(s), 3, 2) == Expansion(s, 3, 2);
    Expansion32(s);
  }

  lemma AdjugateEntry33(s: seq<real>)
    requires IsMatrix(s)
    ensures RowTimesColumn(s, AdjointOf(s), 3, 3) == Det(s)
  {
    AdjointAt(s, 0, 3); AdjointAt(s, 1, 3); AdjointAt(s, 2, 3); AdjointAt(s, 3, 3);
    assert RowTimesColumn(s, AdjointOf(s), 3, 3) == Expansion(s, 3, 3);
    Expansion33(s);
    DetIsLeibniz(s);
  }

  /** `invert()` yields the inverse: the matrix times its inverse is the identity. */
  lemma InvertedIsInverse(s: seq<real>)
    requires IsMatrix(s) && Det(s) != 0.0
    ensures Product(s, Inverted(s)) == IdentityEntries()
  {
    var adj, d := AdjointOf(s), Det(s);
    forall i, j | 0 <= i < 4 && 0 <= j < 4
      ensures RowTimesColumn(s, adj, i, j) == if i == j then d else 0.0
    {
      AdjugateEntry(s, i, j);
    }
    ProductWithDivided(s, adj, d);
  }

  /** If `a * b` is `d` times the identity, then `a * (b / d)` is the identity. */
  lemma ProductWithDivided(a: seq<real>, b: seq<real>, d: real)
    requires IsMatrix(a) && IsMatrix(b) && d != 0.0
    requires forall i, j :: 0 <= i < 4 && 0 <= j < 4 ==> RowTimesColumn(a, b, i, j) == if i == j then d else 0.0
    ensures Product(a, Divided(b, d)) == IdentityEntries()
  {
    var p := Product(a, Divided(b, d));
    forall i, j | 0 <= i < 4 && 0 <= j < 4
      ensures p[Idx(i, j)] == IdentityEntries()[Idx(i, j)]
    {
      DividedEntry(a, b, d, i, j);
      IdentityAt(i, j);
    }
    SameEntries(p, IdentityEntries());
  }

  lemma DividedEntry(a: seq<real>, b: seq<real>, d: real, i: int, j: int)
    requires IsMatrix(a) && IsMatrix(b) && d != 0.0 && 0 <= i < 4 && 0 <= j < 4
    requires RowTimesColumn(a, b, i, j) == if i == j then d else 0.0
    ensures At(Product(a, Divided(b, d)), i, j) == if i == j then 1.0 else 0.0
  {
    var c := Divided(b, d);
    var k := Idx(i, j);
    assert k % 4 == i && k / 4 == j;
    assert At(c, 0, j) == At(b, 0, j) / d && At(c, 1, j) == At(b, 1, j) / d;
    assert At(c, 2, j) == At(b, 2, j) / d && At(c, 3, j) == At(b, 3, j) / d;
    assert At(Product(a, c), i, j) == RowTimesColumn(a, c, i, j);
    RowTimesDivided(a, b, c, d, i, j);
    QuotientOfDelta(RowTimesColumn(a, b, i, j), d, i == j);
  }

  lemma QuotientOfDelta(x: real, d: real, diagonal: bool)
    requires d != 0.0 && x == if diagonal then d else 0.0
    ensures x / d == if diagonal then 1.0 else 0.0
  {
    if diagonal {
      assert d / d == 1.0;
    }
  }

  lemma RowTimesDivided(a: seq<real>, b: seq<real>, c: seq<real>, d: real, i: int, j: int)
    requires IsMatrix(a) && IsMatrix(b) && IsMatrix(c) && d != 0.0 && 0 <= i < 4 && 0 <= j < 4
    requires At(c, 0, j) == At(b, 0, j) / d && At(c, 1, j) == At(b, 1, j) / d
    requires At(c, 2, j) == At(b, 2, j) / d && At(c, 3, j) == At(b, 3, j) / d
    ensures RowTimesColumn(a, c, i, j) == RowTimesColumn(a, b, i, j) / d
  {
    DivideSum(At(a, i, 0), At(a, i, 1), At(a, i, 2), At(a, i, 3),
              At(b, 0, j), At(b, 1, j), At(b, 2, j), At(b, 3, j),
              At(c, 0, j), At(c, 1, j), At(c, 2, j), At(c, 3, j), d);
  }

  lemma DivideSum(a0: real, a1: real, a2: real, a3: real, b0: real, b1: real, b2: real, b3: real,
                  c0: real, c1: real, c2: real, c3: real, d: real)
    requires d != 0.0 && c0 == b0 / d && c1 == b1 / d && c2 == b2 / d && c3 == b3 / d
    ensures a0 * c0 + a1 * c1 + a2 * c2 + a3 * c3 == (a0 * b0 + a1 * b1 + a2 * b2 + a3 * b3) / d
  {
  }

  /** The identity is a left unit of the product. */
  lemma ProductIdentityLeft(s: seq<real>)
    requires IsMatrix(s)
    ensures Product(IdentityEntries(), s) == s
  {
    var p := Product(IdentityEntries(), s);
    forall i, j | 0 <= i < 4 && 0 <= j < 4
      ensures p[Idx(i, j)] == s[Idx(i, j)]
    {
      IdentityAt(i, 0);
      IdentityAt(i, 1);
      IdentityAt(i, 2);
      IdentityAt(i, 3);
      assert Idx(i, j) % 4 == i && Idx(i, j) / 4 == j;
    }
    SameEntries(p, s);
  }

  /** Inverting the identity gives the identity back. */
  lemma InvertIdentity(id: seq<real>)
    requires id == IdentityEntries()
    ensures Det(id) != 0.0 && Inverted(id) == id
  {
    DetIdentity(id);
    SameProduct(id, Inverted(id));
  }

  /** A right factor that the identity leaves alone and that inverts it is the identity. */
  lemma SameProduct(id: seq<real>, inv: seq<real>)
    requires id == IdentityEntries() && IsMatrix(inv) && Det(id) != 0.0 && inv == Inverted(id)
    ensures inv == id
  {
    InvertedIsInverse(id);
    ProductIdentityLeft(inv);
  }

  /** The identity has determinant 1. */
  lemma DetIdentity(id: seq<real>)
    requires id == IdentityEntries()
    ensures IsMatrix(id) && Det(id) == 1.0
  {
    assert id[0] == 1.0 && id[5] == 1.0 && id[10] == 1.0 && id[15] == 1.0;
    assert id[1] == 0.0 && id[2] == 0.0 && id[3] == 0.0 && id[4] == 0.0 && id[6] == 0.0 && id[7] == 0.0;
    assert id[8] == 0.0 && id[9] == 0.0 && id[11] == 0.0 && id[12] == 0.0 && id[13] == 0.0 && id[14] == 0.0;
  }

  /** Sixteen facts about the slots of `a`, one per (row, column) pair, as one statement. */
  lemma EveryEntry(a: seq<real>, f: (int, int) -> real)
    requires |a| == 16
    requires a[0] == f(0, 0) && a[1] == f(1, 0) && a[2] == f(2, 0) && a[3] == f(3, 0)
    requires a[4] == f(0, 1) && a[5] == f(1, 1) && a[6] == f(2, 1) && a[7] == f(3, 1)
    requires a[8] == f(0, 2) && a[9] == f(1, 2) && a[10] == f(2, 2) && a[11] == f(3, 2)
    requires a[12] == f(0, 3) && a[13] == f(1, 3) && a[14] == f(2, 3) && a[15] == f(3, 3)
    ensures forall r, c :: 0 <= r < 4 && 0 <= c < 4 ==> a[Idx(r, c)] == f(r, c)
  {
    forall r, c | 0 <= r < 4 && 0 <= c < 4
      ensures a[Idx(r, c)] == f(r, c)
    {
      if c == 0 {
      } else if c == 1 {
      } else if c == 2 {
      } else {
      }
    }
  }

  /** Entry-wise, the result of `adjoint()` is `AdjointOf`. */
  lemma AdjointFromEntries(s: seq<real>, a: seq<real>)
    requires IsMatrix(s) && |a| == 16
    requires forall i, j :: 0 <= i < 4 && 0 <= j < 4 ==> a[Idx(i, j)] == Signed(i + j, Minor(s, j, i))
    ensures a == AdjointOf(s)
  {
    forall i, j | 0 <= i < 4 && 0 <= j < 4
      ensures a[Idx(i, j)] == AdjointOf(s)[Idx(i, j)]
    {
      AdjointAt(s, i, j);
    }
    SameEntries(a, AdjointOf(s));
  }

  /** Two buffers that agree at every `M(i, j)` are equal. */
  lemma SameEntries(a: seq<real>, b: seq<real>)
    requires |a| == 16 && |b| == 16
    requires forall i, j :: 0 <= i < 4 && 0 <= j < 4 ==> a[Idx(i, j)] == b[Idx(i, j)]
    ensures a == b
  {
    forall k | 0 <= k < 16
      ensures a[k] == b[k]
    {
      var rc := Coords(k);
    }
  }

  /** The object of src/matrix.h: a buffer `m` of 16 entries, updated in place. */
  class Matrix4x4 {
    const m: array<real>

    ghost predicate Valid()
      reads this
    {
      m.Length == 16
    }

    /** The default constructor: the identity. */
    constructor ()
      ensures Valid() && fresh(m)
      ensures m[..] == IdentityEntries()
    {
      m := new real[16](k => if k % 5 == 0 then 1.0 else 0.0);
    }

    /** `Matrix4x4(const float *mat)`: copies the first 16 numbers `mat` points to. */
    constructor FromArray(mat: seq<real>)
      requires |mat| >= 16
      ensures Valid() && fresh(m)
      ensures m[..] == mat[..16]
    {
      m := new real[16](k requires 0 <= k < 16 => mat[k]);
    }

    /** The 16-argument constructor: argument `mXY` lands at `M(X, Y)`. */
    constructor FromEntries(m00: real, m01: real, m02: real, m03: real,
                            m10: real, m11: real, m12: real, m13: real,
                            m20: real, m21: real, m22: real, m23: real,
                            m30: real, m31: real, m32: real, m33: real)
      ensures Valid() && fresh(m)
      ensures m[Idx(0, 0)] == m00 && m[Idx(0, 1)] == m01 && m[Idx(0, 2)] == m02 && m[Idx(0, 3)] == m03
      ensures m[Idx(1, 0)] == m10 && m[Idx(1, 1)] == m11 && m[Idx(1, 2)] == m12 && m[Idx(1, 3)] == m13
      ensures m[Idx(2, 0)] == m20 && m[Idx(2, 1)] == m21 && m[Idx(2, 2)] == m22 && m[Idx(2, 3)] == m23
      ensures m[Idx(3, 0)] == m30 && m[Idx(3, 1)] == m31 && m[Idx(3, 2)] == m32 && m[Idx(3, 3)] == m33
    {
      m := new real[16][m00, m10, m20, m30, m01, m11, m21, m31, m02, m12, m22, m32, m03, m13, m23, m33];
    }

    /** The copy constructor. */
    constructor Copy(mat: Matrix4x4)
      requires mat.Valid()
      ensures Valid() && fresh(m)
      ensures m[..] == mat.m[..]
    {
      m := new real[16](k reads mat, mat.m requires 0 <= k < 16 && mat.m.Length == 16 => mat.m[k]);
    }

    /** `operator=`: copies all 16 entries of `mat`. */
    method Assign(mat: Matrix4x4)
      requires Valid() && mat.Valid()
      modifies m
      ensures m[..] == old(mat.m[..])
    {
      var src := mat.m[..];
      forall k | 0 <= k < 16 {
        m[k] := src[k];
      }
      assert m[..] == src;
    }

    /** `identity()`: overwrites the buffer with the identity. */
    method Identity()
      requires Valid()
      modifies m
      ensures m[..] == IdentityEntries()
    {
      forall k | 0 <= k < 16 {
        m[k] := 0.0;
      }
      m[0], m[5], m[10], m[15] := 1.0, 1.0, 1.0, 1.0;
      assert m[..] == IdentityEntries();
    }

    /** `determinant()`. */
    function Determinant(): (d: real)
      requires Valid()
      reads this, m
      ensures d == Leibniz(m[..])
    {
      DetIsLeibniz(m[..]);
      Det(m[..])
    }

    /** `transpose()`: copy to `tmp`, then write every `M(i, j)` from `tmp[M(j, i)]`. */
    method Transpose()
      requires Valid()
      modifies m
      ensures m[..] == Transposed(old(m[..]))
    {
      var tmp := m[..];
      for i := 0 to 4
        invariant forall a, b :: 0 <= a < 4 && 0 <= b < 4 ==> m[Idx(a, b)] == if a < i then tmp[Idx(b, a)] else tmp[Idx(a, b)]
      {
        for j := 0 to 4
          invariant forall a, b :: 0 <= a < 4 && 0 <= b < 4 ==>
            m[Idx(a, b)] == if Before(a, b, i, j) then tmp[Idx(b, a)] else tmp[Idx(a, b)]
        {
          IdxOthers(i, j);
          m[Idx(i, j)] := tmp[Idx(j, i)];
        }
      }
      forall k | 0 <= k < 16
        ensures m[k] == Transposed(tmp)[k]
      {
        var rc := Coords(k);
        TransposedAt(tmp, rc.0, rc.1);
      }
    }

    /**
     * `adjoint()`: a fresh matrix holding the 16 minors, transposed, with the
     * checkerboard of signs applied.
     */
    method Adjoint() returns (coef: Matrix4x4)
      requires Valid()
      ensures fresh(coef) && fresh(coef.m) && coef.Valid()
      ensures forall i, j :: 0 <= i < 4 && 0 <= j < 4 ==> coef.m[Idx(i, j)] == Signed(i + j, Minor(m[..], j, i))
    {
      var s := m[..];
      coef := new Matrix4x4.FromArray(MinorMatrix(s));
      ghost var minors := coef.m[..];
      coef.Transpose();
      ghost var t := coef.m[..];
      coef.AlternateSigns();
      forall i, j | 0 <= i < 4 && 0 <= j < 4
        ensures coef.m[Idx(i, j)] == Signed(i + j, Minor(s, j, i))
      {
        TransposedAt(minors, i, j);
      }
    }

    /**
     * The sign pass at the end of `adjoint()`: entry `M(i, j)` is negated once
     * for odd `j` and once more for odd `i`.
     */
    method AlternateSigns()
      requires Valid()
      modifies m
      ensures forall i, j :: 0 <= i < 4 && 0 <= j < 4 ==> m[Idx(i, j)] == Signed(i + j, old(m[Idx(i, j)]))
    {
      ghost var t := m[..];
      for i := 0 to 4
        invariant forall a, b :: 0 <= a < 4 && 0 <= b < 4 ==>
          m[Idx(a, b)] == if a < i then Signed(a + b, t[Idx(a, b)]) else t[Idx(a, b)]
      {
        for j := 0 to 4
          invariant forall a, b :: 0 <= a < 4 && 0 <= b < 4 ==>
            m[Idx(a, b)] == if Before(a, b, i, j) then Signed(a + b, t[Idx(a, b)]) else t[Idx(a, b)]
        {
          IdxOthers(i, j);
          SignedSplit(i, j, m[Idx(i, j)]);
          var e := m[Idx(i, j)];
          e := if j % 2 == 1 then -e else e;
          if i % 2 == 1 {
            e := -e;
          }
          m[Idx(i, j)] := e;
        }
      }
    }

    /** `invert()`: every entry becomes the adjoint's entry divided by the determinant. */
    method Invert()
      requires Valid() && Det(m[..]) != 0.0
      modifies m
      ensures m[..] == Inverted(old(m[..]))
      ensures Product(old(m[..]), m[..]) == IdentityEntries()
    {
      ghost var s := m[..];
      var adj := Adjoint();
      var det := Determinant();
      ghost var a := adj.m[..];
      assert adj.m != m;
      for i := 0 to 16
        invariant adj.m[..] == a
        invariant forall k :: 0 <= k < i ==> m[k] == a[k] / det
        invariant forall k :: i <= k < 16 ==> m[k] == s[k]
      {
        m[i] := adj.m[i] / det;
      }
      assert m[..] == Divided(a, det);
      AdjointFromEntries(s, a);
      assert Inverted(s) == Divided(a, det);
      InvertedIsInverse(s);
    }
  }
}
