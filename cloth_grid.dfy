/**
 * Index arithmetic of the cloth grid (A5 Cloth): which particles are pinned, the
 * degree-of-freedom offset each free particle receives, the five spring families, the
 * texture parameters and the neighbour triangles used for vertex normals.
 *
 * Particle (i, j) of a grid with `cols` columns is stored at k = i*cols + j.
 */
module ClothGrid {
  import opened Linear

  /** A spring's two particle indices, in the order the constructor passes them. */
  datatype Link = Link(a: int, b: int)

  /** The four corner positions the cloth is interpolated between. */
  datatype Corners = Corners(x00: Vec3, x01: Vec3, x10: Vec3, x11: Vec3)

  // ---- pinning and degree-of-freedom offsets ----

  /** Particle k is pinned iff it is (0, 0) or (0, cols-1). */
  predicate Pinned(cols: int, k: int)
  {
    k == 0 || k == cols - 1
  }

  /** The number of pinned particles stored before index k. */
  function PinnedBelow(cols: int, k: int): (c: int)
    requires cols > 1
    ensures 0 <= c <= 2 && (k >= 0 ==> c <= k)
  {
    (if k > 0 then 1 else 0) + (if k > cols - 1 then 1 else 0)
  }

  /** The offset of particle k's three unknowns in the global vectors: three times the
      number of free particles created before it. */
  function DofOffset(cols: int, k: int): int
    requires cols > 1
  {
    3 * (k - PinnedBelow(cols, k))
  }

  /** The offset stored in particle k: -1 if pinned, its degree-of-freedom offset otherwise. */
  function ParticleIndex(cols: int, k: int): int
    requires cols > 1
  {
    if Pinned(cols, k) then -1 else DofOffset(cols, k)
  }

  /** The size of the global system: three unknowns per free particle. */
  function SystemSize(rows: int, cols: int): int
  {
    3 * (rows * cols - 2)
  }

  /** The grid test the constructor performs on (i, j) picks out the same two particles as
      `Pinned` does on the flat index. */
  lemma PinnedAtGrid(rows: int, cols: int, i: int, j: int)
    requires cols > 1 && 0 <= i < rows && 0 <= j < cols
    ensures (i == 0 && (j == 0 || j == cols - 1)) <==> Pinned(cols, i * cols + j)
  {
    if i > 0 {
      MulLe(1, i, cols);
    }
  }

  /** Free particles get offsets 0, 3, 6, ... in storage order: every offset is a multiple of
      three, the unknowns of a free particle lie inside the system, and a later free particle
      gets a strictly larger offset, so no two free particles share an unknown. */
  lemma DofLayout(rows: int, cols: int, k: int, k': int)
    requires rows > 1 && cols > 1
    requires 0 <= k < k' < rows * cols && !Pinned(cols, k) && !Pinned(cols, k')
    ensures DofOffset(cols, k) % 3 == 0
    ensures 0 <= DofOffset(cols, k) && DofOffset(cols, k') + 3 <= SystemSize(rows, cols)
    ensures DofOffset(cols, k) + 3 <= DofOffset(cols, k')
  {
  }

  /** The very first free particle gets offset 0 and the last one fills the system exactly. */
  lemma DofEnds(rows: int, cols: int)
    requires rows > 1 && cols > 1
    ensures !Pinned(cols, 1) ==> DofOffset(cols, 1) == 0
    ensures Pinned(cols, 1) ==> DofOffset(cols, cols) == 0
    ensures DofOffset(cols, rows * cols - 1) + 3 == SystemSize(rows, cols)
  {
    MulLe(2, rows, cols);
  }

  // ---- positions and texture parameters ----

  /** The interpolation parameter i / (n - 1) of line i out of n. */
  function GridParam(n: int, i: int): (u: real)
    requires n > 1
    ensures 0 <= i < n ==> 0.0 <= u <= 1.0
  {
    ParamBounds(n, i);
    i as real / (n - 1) as real
  }

  lemma ParamBounds(n: int, i: int)
    requires n > 1
    ensures 0 <= i < n ==> 0.0 <= i as real / (n - 1) as real <= 1.0
  {
    if 0 <= i < n {
      var d := (n - 1) as real;
      var u := i as real / d;
      assert i as real == d * u;
      if u > 1.0 {
        MulMonotone(d, 1.0, u);
      }
      if u < 0.0 {
        MulMonotone(d, u, 0.0);
      }
    }
  }

  /** (1 - u) a + u b. */
  function Lerp(a: Vec3, b: Vec3, u: real): Vec3
  {
    Add(Scale(1.0 - u, a), Scale(u, b))
  }

  /** The rest position of particle (i, j): bilinear interpolation of the corners, first
      down the rows, then along the columns. */
  function GridPosition(rows: int, cols: int, c: Corners, i: int, j: int): Vec3
    requires rows > 1 && cols > 1
  {
    var u := GridParam(rows, i);
    Lerp(Lerp(c.x00, c.x10, u), Lerp(c.x01, c.x11, u), GridParam(cols, j))
  }

  /** The four corner particles sit exactly at the four given corners. */
  lemma GridPositionCorners(rows: int, cols: int, c: Corners)
    requires rows > 1 && cols > 1
    ensures GridPosition(rows, cols, c, 0, 0) == c.x00
    ensures GridPosition(rows, cols, c, 0, cols - 1) == c.x01
    ensures GridPosition(rows, cols, c, rows - 1, 0) == c.x10
    ensures GridPosition(rows, cols, c, rows - 1, cols - 1) == c.x11
  {
    assert GridParam(rows, 0) == 0.0;
    assert GridParam(cols, 0) == 0.0;
    assert GridParam(rows, rows - 1) == 1.0;
    assert GridParam(cols, cols - 1) == 1.0;
  }

  // ---- spring families ----

  /** The first B links of line a of a family: link b joins k0 = a*sa + b*sb to k0 + d. */
  function LineLinks(a: int, B: int, sa: int, sb: int, d: int): (r: seq<Link>)
    ensures |r| == if B < 0 then 0 else B
    decreases B
  {
    if B <= 0 then []
    else
      var k0 := a * sa + (B - 1) * sb;
      LineLinks(a, B - 1, sa, sb, d) + [Link(k0, k0 + d)]
  }

  /** Lines 0..A-1 of a family, in the order of the constructor's nested loops. */
  function FamilyLinks(A: int, B: int, sa: int, sb: int, d: int): seq<Link>
    decreases A
  {
    if A <= 0 then [] else FamilyLinks(A - 1, B, sa, sb, d) + LineLinks(A - 1, B, sa, sb, d)
  }

  /** The links of the first J cells of cell row i: each cell (i, j) with k00 = i*cols + j adds
      the diagonal k00 -> k11 and then the anti-diagonal k10 -> k01. */
  function ShearLine(i: int, J: int, cols: int): (r: seq<Link>)
    ensures |r| == if J < 0 then 0 else 2 * J
    decreases J
  {
    if J <= 0 then []
    else
      var k00 := i * cols + J - 1;
      ShearLine(i, J - 1, cols) + [Link(k00, k00 + cols + 1), Link(k00 + 1, k00 + cols)]
  }

  function ShearLinks(I: int, J: int, cols: int): seq<Link>
    decreases I
  {
    if I <= 0 then [] else ShearLinks(I - 1, J, cols) + ShearLine(I - 1, J, cols)
  }

  function XLinks(rows: int, cols: int): seq<Link> { FamilyLinks(rows, cols - 1, cols, 1, 1) }

  function YLinks(rows: int, cols: int): seq<Link> { FamilyLinks(cols, rows - 1, 1, cols, cols) }

  function XBendLinks(rows: int, cols: int): seq<Link> { FamilyLinks(rows, cols - 2, cols, 1, 2) }

  function YBendLinks(rows: int, cols: int): seq<Link> { FamilyLinks(cols, rows - 2, 1, cols, 2 * cols) }

  /** All springs of the cloth, in creation order: stretch along x, stretch along y, shear,
      bending along x, bending along y. */
  function SpringLinks(rows: int, cols: int): seq<Link>
  {
    XLinks(rows, cols) + YLinks(rows, cols) + ShearLinks(rows - 1, cols - 1, cols)
      + XBendLinks(rows, cols) + YBendLinks(rows, cols)
  }

  /** Every link joins two distinct particles a < b of a grid of N particles. */
  predicate LinksIn(links: seq<Link>, N: int)
  {
    forall t :: 0 <= t < |links| ==> 0 <= links[t].a < links[t].b < N
  }

  /** What a family's loops need so that every index they compute lies in the grid: the
      largest index, reached on the last link of the last line, is below N. */
  predicate FamilyFits(A: int, B: int, sa: int, sb: int, d: int, N: int)
  {
    0 <= A && 0 <= B && 0 <= sa && 0 <= sb && 0 < d
    && (A > 0 && B > 0 ==> (A - 1) * sa + (B - 1) * sb + d < N)
  }

  lemma {:induction false} FamilyCount(A: int, B: int, sa: int, sb: int, d: int)
    requires 0 <= A && 0 <= B
    ensures |FamilyLinks(A, B, sa, sb, d)| == A * B
    decreases A
  {
    if A > 0 {
      FamilyCount(A - 1, B, sa, sb, d);
      assert A * B == (A - 1) * B + B;
    }
  }

  lemma {:induction false} ShearCount(I: int, J: int, cols: int)
    requires 0 <= I && 0 <= J
    ensures |ShearLinks(I, J, cols)| == 2 * I * J
    decreases I
  {
    if I > 0 {
      ShearCount(I - 1, J, cols);
      assert 2 * I * J == 2 * (I - 1) * J + 2 * J;
    }
  }

  /** The number of springs the constructor creates. */
  lemma SpringCount(rows: int, cols: int)
    requires rows > 1 && cols > 1
    ensures |SpringLinks(rows, cols)| == rows * (cols - 1) + cols * (rows - 1)
      + 2 * (rows - 1) * (cols - 1) + rows * (cols - 2) + cols * (rows - 2)
  {
    FamilyCount(rows, cols - 1, cols, 1, 1);
    FamilyCount(cols, rows - 1, 1, cols, cols);
    ShearCount(rows - 1, cols - 1, cols);
    FamilyCount(rows, cols - 2, cols, 1, 2);
    FamilyCount(cols, rows - 2, 1, cols, 2 * cols);
  }

  lemma {:induction false} LineIn(a: int, A: int, B: int, B': int, sa: int, sb: int, d: int, N: int)
    requires FamilyFits(A, B, sa, sb, d, N) && 0 <= a < A && 0 <= B' <= B
    ensures LinksIn(LineLinks(a, B', sa, sb, d), N)
    decreases B'
  {
    if B' > 0 {
      LineIn(a, A, B, B' - 1, sa, sb, d, N);
      MulLe(a, A - 1, sa);
      MulLe(B' - 1, B - 1, sb);
      assert 0 <= a * sa && 0 <= (B' - 1) * sb;
    }
  }

  lemma {:induction false} FamilyIn(A: int, A': int, B: int, sa: int, sb: int, d: int, N: int)
    requires FamilyFits(A, B, sa, sb, d, N) && 0 <= A' <= A
    ensures LinksIn(FamilyLinks(A', B, sa, sb, d), N)
    decreases A'
  {
    if A' > 0 {
      FamilyIn(A, A' - 1, B, sa, sb, d, N);
      LineIn(A' - 1, A, B, B, sa, sb, d, N);
    }
  }

  lemma {:induction false} ShearLineIn(i: int, J: int, rows: int, cols: int)
    requires rows > 1 && cols > 1 && 0 <= i < rows - 1 && 0 <= J <= cols - 1
    ensures LinksIn(ShearLine(i, J, cols), rows * cols)
    decreases J
  {
    if J > 0 {
      ShearLineIn(i, J - 1, rows, cols);
      MulLe(i, rows - 2, cols);
      assert (rows - 2) * cols + cols == rows * cols - cols;
    }
  }

  lemma {:induction false} ShearIn(I: int, rows: int, cols: int)
    requires rows > 1 && cols > 1 && 0 <= I <= rows - 1
    ensures LinksIn(ShearLinks(I, cols - 1, cols), rows * cols)
    decreases I
  {
    if I > 0 {
      ShearIn(I - 1, rows, cols);
      ShearLineIn(I - 1, cols - 1, rows, cols);
    }
  }

  /** The families' loop bounds keep every computed index inside the grid. */
  lemma FamiliesFit(rows: int, cols: int)
    requires rows > 1 && cols > 1
    ensures FamilyFits(rows, cols - 1, cols, 1, 1, rows * cols)
    ensures FamilyFits(cols, rows - 1, 1, cols, cols, rows * cols)
    ensures FamilyFits(rows, cols - 2, cols, 1, 2, rows * cols)
    ensures FamilyFits(cols, rows - 2, 1, cols, 2 * cols, rows * cols)
  {
    assert (rows - 1) * cols + (cols - 2) + 1 == rows * cols - 1;
    assert (rows - 2) * cols + cols == rows * cols - cols;
    assert (rows - 3) * cols + 2 * cols == rows * cols - cols;
  }

  /** Every spring joins two distinct particles of the grid. */
  lemma SpringsInGrid(rows: int, cols: int)
    requires rows > 1 && cols > 1
    ensures LinksIn(SpringLinks(rows, cols), rows * cols)
  {
    var N := rows * cols;
    FamiliesFit(rows, cols);
    FamilyIn(rows, rows, cols - 1, cols, 1, 1, N);
    FamilyIn(cols, cols, rows - 1, 1, cols, cols, N);
    ShearIn(rows - 1, rows, cols);
    FamilyIn(rows, rows, cols - 2, cols, 1, 2, N);
    FamilyIn(cols, cols, rows - 2, 1, cols, 2 * cols, N);
    var x, y, sh := XLinks(rows, cols), YLinks(rows, cols), ShearLinks(rows - 1, cols - 1, cols);
    var xb, yb := XBendLinks(rows, cols), YBendLinks(rows, cols);
    LinksInConcat(x, y, N);
    LinksInConcat(x + y, sh, N);
    LinksInConcat(x + y + sh, xb, N);
    LinksInConcat(x + y + sh + xb, yb, N);
  }

  lemma LinksInConcat(l: seq<Link>, l': seq<Link>, N: int)
    requires LinksIn(l, N) && LinksIn(l', N)
    ensures LinksIn(l + l', N)
  {
    forall t | 0 <= t < |l + l'|
      ensures 0 <= (l + l')[t].a < (l + l')[t].b < N
    {
      if t >= |l| {
        assert (l + l')[t] == l'[t - |l|];
      }
    }
  }

  // ---- neighbour triangles of a vertex ----

  /** The triangles around vertex (i, j) that the normal computation uses, each as the pair
      of neighbours (a, b) whose edge vectors from the vertex are crossed: top-right,
      top-left, bottom-left, bottom-right, each present only when both neighbours exist. */
  function Triangles(rows: int, cols: int, i: int, j: int): seq<Link>
  {
    var k := i * cols + j;
    var ku0, ku1, kv0, kv1 := k - 1, k + 1, k - cols, k + cols;
    OptLink(j != cols - 1 && i != rows - 1, Link(ku1, kv1))
    + OptLink(j != 0 && i != rows - 1, Link(kv1, ku0))
    + OptLink(j != 0 && i != 0, Link(ku0, kv0))
    + OptLink(j != cols - 1 && i != 0, Link(kv0, ku1))
  }

  /** [l] when the triangle exists, [] otherwise. */
  function OptLink(present: bool, l: Link): seq<Link>
  {
    if present then [l] else []
  }

  /** A grid corner has one triangle, any other boundary vertex two and an interior vertex
      four, so the averaging divisor is never zero. */
  lemma TriangleCount(rows: int, cols: int, i: int, j: int)
    requires rows > 1 && cols > 1 && 0 <= i < rows && 0 <= j < cols
    ensures var onRowEdge, onColEdge := i == 0 || i == rows - 1, j == 0 || j == cols - 1;
      |Triangles(rows, cols, i, j)| ==
        if onRowEdge && onColEdge then 1 else if onRowEdge || onColEdge then 2 else 4
    ensures |Triangles(rows, cols, i, j)| > 0
  {
  }

  /** Every neighbour a triangle reads exists. */
  lemma TrianglesInGrid(rows: int, cols: int, i: int, j: int)
    requires rows > 1 && cols > 1 && 0 <= i < rows && 0 <= j < cols
    ensures LinksIn2(Triangles(rows, cols, i, j), rows * cols)
  {
    var N, k := rows * cols, i * cols + j;
    MulLe(i, rows - 1, cols);
    assert (rows - 1) * cols == N - cols;
    assert 0 <= i * cols;
    if i < rows - 1 {
      MulLe(i + 1, rows - 1, cols);
      assert (i + 1) * cols == i * cols + cols;
      assert k + cols < N;
    }
    if i > 0 {
      MulLe(1, i, cols);
      assert k - cols >= 0;
    }
  }

  /** Both ends of every link lie in [0, N), in either order. */
  predicate LinksIn2(links: seq<Link>, N: int)
  {
    forall t :: 0 <= t < |links| ==> 0 <= links[t].a < N && 0 <= links[t].b < N
  }

  // ---- integer arithmetic ----

  /** Where the flat index of (i, j) and of its four grid neighbours lie. */
  lemma GridBounds(rows: int, cols: int, i: int, j: int)
    requires rows > 1 && cols > 1 && 0 <= i < rows && 0 <= j < cols
    ensures 0 <= i * cols + j < rows * cols
    ensures i > 0 ==> i * cols + j - cols >= 0
    ensures i < rows - 1 ==> i * cols + j + cols < rows * cols
  {
    MulLe(0, i, cols);
    MulLe(i + 1, rows, cols);
    if i > 0 {
      MulLe(1, i, cols);
    }
    if i < rows - 1 {
      MulLe(i + 2, rows, cols);
    }
  }

  /** Row and column of a flat index: the inverse of k = i*cols + j. */
  lemma GridCoords(cols: int, i: int, j: int)
    requires cols > 0 && 0 <= i && 0 <= j < cols
    ensures (i * cols + j) / cols == i && (i * cols + j) % cols == j
  {
    var k := i * cols + j;
    var q, r := k / cols, k % cols;
    assert k == q * cols + r && 0 <= r < cols;
    if q > i {
      MulLe(i + 1, q, cols);
    } else if q < i {
      MulLe(q + 1, i, cols);
    }
  }

  /** Every flat index of the grid is the index of exactly one row and column. */
  lemma FlatCoords(rows: int, cols: int, k: int)
    requires rows > 1 && cols > 1 && 0 <= k < rows * cols
    ensures 0 <= k / cols < rows && 0 <= k % cols < cols && (k / cols) * cols + k % cols == k
  {
    var q, r := k / cols, k % cols;
    assert k == q * cols + r && 0 <= r < cols;
    if q < 0 {
      MulLe(q + 1, 0, cols);
    } else if q >= rows {
      MulLe(rows, q, cols);
    }
  }

  lemma MulLe(a: int, b: int, c: int)
    requires a <= b && 0 <= c
    ensures a * c <= b * c
  {
  }
}
