/**
 * The keyframed Catmull-Rom path of the helicopter animation (A1 Path.cpp): the choice of the
 * four control points of each segment, the spline basis, the position and rotation at a
 * parameter value, and the table that maps the spline parameter to arc length.
 *
 * The getters are pure selections and blends over the keyframes and are written as functions of
 * the keyframe sequence; the Path class holds the keyframes that addKeyframe appends to and
 * builds the arc-length table with the source's nested loops.
 */
module KeyframePath {
  import opened Linear

  datatype Keyframe = Keyframe(position: Vec3, rotation: Quat)

  /** The Catmull-Rom basis B of the constructor, column by column, already halved. */
  const Basis := Mat4(Vec4(0.0, 1.0, 0.0, 0.0), Vec4(-0.5, 0.0, 0.5, 0.0),
                      Vec4(1.0, -2.5, 2.0, -0.5), Vec4(-0.5, 1.5, -1.5, 0.5))

  // ---- control points of a segment ----

  /** The keyframe indices getGPositionMatrix puts in the four columns of G for segment s of a
      path of `size` keyframes: the first point doubled on the first segment (checked first), the
      last point doubled on the last one. */
  function GIndices(size: int, s: int): (g: seq<int>)
    ensures |g| == 4 && g[1] == s && g[2] == s + 1
  {
    if s == 0 then [0, 0, 1, 2]
    else if s == size - 2 then [s - 1, s, s + 1, s + 1]
    else [s - 1, s, s + 1, s + 2]
  }

  /** Segment s of a path of `size` keyframes is one whose four control points exist. */
  predicate ValidSegment(size: int, s: int)
  {
    3 <= size && 0 <= s <= size - 2
  }

  /** The selection reads only existing keyframes exactly for the segments 0 .. size-2 of a path
      of at least three keyframes; on two keyframes, segment 0 reads index 2. */
  lemma GIndicesInRange(size: int, s: int)
    ensures ValidSegment(size, s) <==> (forall k :: 0 <= k < 4 ==> 0 <= GIndices(size, s)[k] < size)
    ensures GIndices(2, 0)[3] == 2
  {
    var g := GIndices(size, s);
    if !ValidSegment(size, s) {
      if s == 0 {
        assert g[3] >= size;
      } else {
        assert g[0] < 0 || g[3] >= size;
      }
    }
  }

  /** G: the positions of the segment's control points, as directions (w = 0). */
  function GPositionMatrix(kfs: seq<Keyframe>, s: int): (G: Mat4)
    requires ValidSegment(|kfs|, s)
    ensures Xyz(G.c0) == kfs[if s == 0 then 0 else s - 1].position
    ensures Xyz(G.c1) == kfs[s].position && Xyz(G.c2) == kfs[s + 1].position
    ensures Xyz(G.c3) == kfs[if s == |kfs| - 2 then s + 1 else s + 2].position
  {
    GIndicesInRange(|kfs|, s);
    var g := GIndices(|kfs|, s);
    Mat4(Direction(kfs[g[0]].position), Direction(kfs[g[1]].position),
         Direction(kfs[g[2]].position), Direction(kfs[g[3]].position))
  }

  /** The combination of G's columns (their xyz parts) with weights b0..b3. */
  function Blend(G: Mat4, b0: real, b1: real, b2: real, b3: real): Vec3
  {
    Vec3(b0 * G.c0.x + b1 * G.c1.x + b2 * G.c2.x + b3 * G.c3.x,
         b0 * G.c0.y + b1 * G.c1.y + b2 * G.c2.y + b3 * G.c3.y,
         b0 * G.c0.z + b1 * G.c1.z + b2 * G.c2.z + b3 * G.c3.z)
  }

  /** The point of the segment with control points G at u: G weighted by the Catmull-Rom
      blending polynomials B (1, u, u^2, u^3). */
  function PointAt(G: Mat4, u: real): Vec3
  {
    var u2, u3 := u * u, u * u * u;
    Blend(G, -0.5 * u + u2 - 0.5 * u3, 1.0 - 2.5 * u2 + 1.5 * u3,
          0.5 * u + 2.0 * u2 - 1.5 * u3, -0.5 * u2 + 0.5 * u3)
  }

  /** The derivative of the segment at u: G weighted by B (0, 1, 2u, 3u^2), the integrand of
      the arc length. */
  function TangentAt(G: Mat4, u: real): Vec3
  {
    Blend(G, -0.5 + 2.0 * u - 1.5 * u * u, -5.0 * u + 4.5 * u * u,
          0.5 + 4.0 * u - 4.5 * u * u, -u + 1.5 * u * u)
  }

  lemma MulVecBlend(G: Mat4, w: Vec4)
    ensures Xyz(MulVec(G, w)) == Blend(G, w.x, w.y, w.z, w.w)
  {
  }

  /** m a, entry by entry. */
  lemma MulVecEntries(m: Mat4, a: Vec4)
    ensures MulVec(m, a) == Vec4(a.x * m.c0.x + a.y * m.c1.x + a.z * m.c2.x + a.w * m.c3.x,
                                 a.x * m.c0.y + a.y * m.c1.y + a.z * m.c2.y + a.w * m.c3.y,
                                 a.x * m.c0.z + a.y * m.c1.z + a.z * m.c2.z + a.w * m.c3.z,
                                 a.x * m.c0.w + a.y * m.c1.w + a.z * m.c2.w + a.w * m.c3.w)
  {
  }

  /** The blending polynomials are B (1, u, u^2, u^3) and B (0, 1, 2u, 3u^2). */
  lemma BasisPolynomials(u: real)
    ensures MulVec(Basis, Vec4(1.0, u, u * u, u * u * u))
         == Vec4(-0.5 * u + u * u - 0.5 * (u * u * u), 1.0 - 2.5 * (u * u) + 1.5 * (u * u * u),
                 0.5 * u + 2.0 * (u * u) - 1.5 * (u * u * u), -0.5 * (u * u) + 0.5 * (u * u * u))
    ensures MulVec(Basis, Vec4(0.0, 1.0, 2.0 * u, 3.0 * u * u))
         == Vec4(-0.5 + 2.0 * u - 1.5 * (u * u), -5.0 * u + 4.5 * (u * u),
                 0.5 + 4.0 * u - 4.5 * (u * u), -u + 1.5 * (u * u))
  {
    MulVecEntries(Basis, Vec4(1.0, u, u * u, u * u * u));
    MulVecEntries(Basis, Vec4(0.0, 1.0, 2.0 * u, 3.0 * u * u));
  }

  /** PointAt and TangentAt are the products G (B uv) that getCurrentPosition and
      createParameterizationTable compute. */
  lemma PointIsProduct(G: Mat4, u: real)
    ensures Xyz(MulVec(G, MulVec(Basis, Vec4(1.0, u, u * u, u * u * u)))) == PointAt(G, u)
  {
    BasisPolynomials(u);
    MulVecBlend(G, MulVec(Basis, Vec4(1.0, u, u * u, u * u * u)));
  }

  lemma TangentIsProduct(G: Mat4, u: real)
    ensures Xyz(MulVec(G, MulVec(Basis, Vec4(0.0, 1.0, 2.0 * u, 3.0 * u * u)))) == TangentAt(G, u)
  {
    BasisPolynomials(u);
    MulVecBlend(G, MulVec(Basis, Vec4(0.0, 1.0, 2.0 * u, 3.0 * u * u)));
  }

  /** The Catmull-Rom basis makes the curve pass through the two middle control points: at u = 0
      through the second, at u = 1 through the third. */
  lemma BasisEnds(G: Mat4)
    ensures PointAt(G, 0.0) == Xyz(G.c1) && PointAt(G, 1.0) == Xyz(G.c2)
  {
  }

  /** ... and gives it the tangent half the difference of the neighbouring control points: at
      u = 0 of the first and third, ... */
  lemma BasisStartTangent(G: Mat4)
    ensures TangentAt(G, 0.0) == Scale(0.5, Sub(Xyz(G.c2), Xyz(G.c0)))
  {
  }

  /** ... at u = 1 of the second and fourth. */
  lemma BasisEndTangent(G: Mat4)
    ensures TangentAt(G, 1.0) == Scale(0.5, Sub(Xyz(G.c3), Xyz(G.c1)))
  {
  }

  /** Each segment starts at its keyframe s and ends at keyframe s + 1. */
  lemma SegmentInterpolates(kfs: seq<Keyframe>, s: int)
    requires ValidSegment(|kfs|, s)
    ensures PointAt(GPositionMatrix(kfs, s), 0.0) == kfs[s].position
    ensures PointAt(GPositionMatrix(kfs, s), 1.0) == kfs[s + 1].position
  {
    BasisEnds(GPositionMatrix(kfs, s));
  }

  /** The start tangent of a segment is half the difference of the keyframes around its start
      (the first keyframe standing in for the missing one before it on the first segment). */
  lemma StartTangent(kfs: seq<Keyframe>, s: int)
    requires ValidSegment(|kfs|, s)
    ensures TangentAt(GPositionMatrix(kfs, s), 0.0)
         == Scale(0.5, Sub(kfs[s + 1].position, kfs[if s == 0 then 0 else s - 1].position))
  {
    var G := GPositionMatrix(kfs, s);
    BasisStartTangent(G);
  }

  /** The end tangent of a segment is half the difference of the keyframes around its end (the
      last keyframe standing in for the missing one after it on the last segment). */
  lemma EndTangent(kfs: seq<Keyframe>, s: int)
    requires ValidSegment(|kfs|, s)
    ensures TangentAt(GPositionMatrix(kfs, s), 1.0)
         == Scale(0.5, Sub(kfs[if s == |kfs| - 2 then s + 1 else s + 2].position, kfs[s].position))
  {
    var G := GPositionMatrix(kfs, s);
    BasisEndTangent(G);
  }

  /** Where two segments meet, the end tangent of the first equals the start tangent of the
      second: half the difference of the keyframes on either side of the joint. */
  lemma TangentContinuous(kfs: seq<Keyframe>, s: int)
    requires ValidSegment(|kfs|, s) && ValidSegment(|kfs|, s + 1)
    ensures TangentAt(GPositionMatrix(kfs, s), 1.0) == Scale(0.5, Sub(kfs[s + 2].position, kfs[s].position))
    ensures TangentAt(GPositionMatrix(kfs, s + 1), 0.0) == Scale(0.5, Sub(kfs[s + 2].position, kfs[s].position))
  {
    StartTangent(kfs, s + 1);
    EndTangent(kfs, s);
  }

  // ---- position and rotation at a parameter value ----

  /** The segment index of a wrapped parameter w >= 0: the integral part from modf, plus 0.01,
      truncated by the int cast. */
  function SegmentOf(w: real): (seg: int)
    requires w >= 0.0
    ensures seg == w.Floor
  {
    var frame := Trunc(w) as real;
    Trunc(frame + 0.01)
  }

  /** The fractional part that modf leaves. */
  function FractionOf(w: real): (frac: real)
    requires w >= 0.0
    ensures 0.0 <= frac < 1.0 && frac + SegmentOf(w) as real == w
  {
    w - Trunc(w) as real
  }

  /** The wrapped parameter fmod(u, size - 1) and its segment and fraction. */
  lemma WrapBounds(u: real, size: int)
    requires u >= 0.0 && size >= 2
    ensures var w := FMod(u, (size - 1) as real);
      w >= 0.0 && 0 <= SegmentOf(w) <= size - 2
  {
    var w := FMod(u, (size - 1) as real);
    assert w < (size - 1) as real;
  }

  /** getCurrentPosition: the zero vector with fewer than four keyframes; otherwise the point of
      segment floor(w) at the fraction of w = fmod(u, size - 1). The parameter is a time and is
      taken to be non-negative. */
  function CurrentPosition(kfs: seq<Keyframe>, u: real): (p: Vec3)
    requires u >= 0.0
    ensures |kfs| < 4 ==> p == Zero3
  {
    if |kfs| >= 4 then
      var w := FMod(u, (|kfs| - 1) as real);
      WrapBounds(u, |kfs|);
      PointAt(GPositionMatrix(kfs, SegmentOf(w)), FractionOf(w))
    else Zero3
  }

  /** fmod leaves a value below the modulus unchanged. */
  lemma FModBelow(a: real, m: real)
    requires 0.0 <= a < m
    ensures FMod(a, m) == a
  {
    QuotientSign(a, m);
    assert a / m < 1.0 by {
      MulMonotone(m, 1.0, a / m);
    }
    assert Trunc(a / m) == 0;
  }

  /** At the integral parameter s the path is at keyframe s. */
  lemma PositionAtKeyframe(kfs: seq<Keyframe>, s: int)
    requires |kfs| >= 4 && 0 <= s < |kfs| - 1
    ensures CurrentPosition(kfs, s as real) == kfs[s].position
  {
    FModBelow(s as real, (|kfs| - 1) as real);
    var w := FMod(s as real, (|kfs| - 1) as real);
    assert SegmentOf(w) == s && FractionOf(w) == 0.0;
    SegmentInterpolates(kfs, s);
  }

  /** q1, or -q1 when it lies on the other hemisphere from q0, so that the blend takes the
      shorter way. */
  function Aligned(q0: Quat, q1: Quat): (q: Quat)
    ensures QDot(q0, q) >= 0.0
    ensures q == q1 || q == QNeg(q1)
  {
    if QDot(q0, q1) < 0.0 then QNeg(q1) else q1
  }

  /** getCurrentRotation: the identity with fewer than two keyframes; otherwise the normalized
      blend (1 - t) q0 + t q1 of the rotations of keyframe seg and the next one (wrapping), with q1
      moved to q0's hemisphere. */
  function CurrentRotation(kfs: seq<Keyframe>, u: real, qlength: Quat -> real): (q: Quat)
    requires u >= 0.0
    ensures |kfs| < 2 ==> q == IdentityQuat
  {
    if |kfs| >= 2 then
      var w := FMod(u, (|kfs| - 1) as real);
      WrapBounds(u, |kfs|);
      var seg, t := SegmentOf(w), FractionOf(w);
      var q0 := kfs[seg].rotation;
      var q1 := Aligned(q0, kfs[(seg + 1) % |kfs|].rotation);
      QNormalized(qlength, QAdd(QScale(1.0 - t, q0), QScale(t, q1)))
    else IdentityQuat
  }

  /** At the integral parameter s the rotation is keyframe s's rotation, normalized. */
  lemma RotationAtKeyframe(kfs: seq<Keyframe>, s: int, qlength: Quat -> real)
    requires |kfs| >= 2 && 0 <= s < |kfs| - 1
    ensures CurrentRotation(kfs, s as real, qlength) == QNormalized(qlength, kfs[s].rotation)
  {
    FModBelow(s as real, (|kfs| - 1) as real);
    var w := FMod(s as real, (|kfs| - 1) as real);
    assert SegmentOf(w) == s && FractionOf(w) == 0.0;
  }

  // ---- the arc-length table ----

  /** The Gauss-Legendre abscissa k (0, 1, 2) given root = sqrt(3/5). */
  function Abscissa(root: real, k: int): real
  {
    if k == 0 then -root else if k == 1 then 0.0 else root
  }

  /** The Gauss-Legendre weight k: 5/9, 8/9, 5/9. */
  function Weight(k: int): (w: real)
    ensures w > 0.0
  {
    if k == 1 then 8.0 / 9.0 else 5.0 / 9.0
  }

  /** Gauss node k mapped from [-1, 1] to [ua, ub]. */
  function Node(ua: real, ub: real, root: real, k: int): real
  {
    (ub - ua) / 2.0 * Abscissa(root, k) + (ub + ua) / 2.0
  }

  /** The sum over the first q Gauss nodes on [ua, ub] of weight times integrand f. */
  function GaussSum(f: real -> real, ua: real, ub: real, root: real, q: int): real
    requires 0 <= q <= 3
  {
    if q == 0 then 0.0
    else GaussSum(f, ua, ub, root, q - 1) + Weight(q - 1) * f(Node(ua, ub, root, q - 1))
  }

  /** A sum of positive weights times non-negative values is non-negative. */
  lemma {:induction false} GaussSumNonNegative(f: real -> real, ua: real, ub: real, root: real, q: int)
    requires 0 <= q <= 3
    ensures (forall u :: f(u) >= 0.0) ==> GaussSum(f, ua, ub, root, q) >= 0.0
  {
    if q > 0 && forall u :: f(u) >= 0.0 {
      GaussSumNonNegative(f, ua, ub, root, q - 1);
      ProductNonNegative(Weight(q - 1), f(Node(ua, ub, root, q - 1)));
    }
  }

  lemma ProductNonNegative(a: real, b: real)
    ensures a >= 0.0 && b >= 0.0 ==> a * b >= 0.0
  {
  }

  /** The integrand of the arc length: the length of the tangent of the curve G at u. */
  function Speed(G: Mat4, norm: Norm): real -> real
  {
    u => norm(TangentAt(G, u))
  }

  /** Lengths are never negative. */
  ghost predicate NonNegative(norm: Norm)
  {
    forall a :: norm(a) >= 0.0
  }

  lemma SpeedAt(G: Mat4, norm: Norm, u: real)
    ensures Speed(G, norm)(u) == norm(TangentAt(G, u))
    ensures NonNegative(norm) ==> Speed(G, norm)(u) >= 0.0
  {
  }

  /** The three-point Gauss-Legendre estimate of the length of the curve G over subdivision j,
      [0.2 j, 0.2 (j + 1)]. */
  function PieceLength(G: Mat4, norm: Norm, root: real, j: int): (s: real)
    requires 0 <= j < 5
    ensures NonNegative(norm) ==> s >= 0.0
  {
    var ub, ua := (j + 1) as real * 0.2, j as real * 0.2;
    var sum := GaussSum(Speed(G, norm), ua, ub, root, 3);
    forall u
      ensures NonNegative(norm) ==> Speed(G, norm)(u) >= 0.0
    {
      SpeedAt(G, norm, u);
    }
    GaussSumNonNegative(Speed(G, norm), ua, ub, root, 3);
    ProductNonNegative(sum, ub - ua);
    sum * (ub - ua) / 2.0
  }

  /** The arc length estimate of subdivision j of segment i. */
  function Piece(kfs: seq<Keyframe>, norm: Norm, root: real, i: int, j: int): (s: real)
    requires ValidSegment(|kfs|, i) && 0 <= j < 5
    ensures NonNegative(norm) ==> s >= 0.0
  {
    PieceLength(GPositionMatrix(kfs, i), norm, root, j)
  }

  /** The piece lengths of a path as one function of (segment, subdivision), 0 outside. */
  function Pieces(kfs: seq<Keyframe>, norm: Norm, root: real): (int, int) -> real
  {
    (i, j) => if ValidSegment(|kfs|, i) && 0 <= j < 5 then Piece(kfs, norm, root, i, j) else 0.0
  }

  /** The table of a path of `size` keyframes after the segments before i and the first j
      subdivisions of segment i, given the length piece(i, j) of each subdivision: it starts at
      (0, 0) and each subdivision appends its end parameter i + 0.2 (j + 1) with the running arc
      length. */
  function TableUpTo(size: int, piece: (int, int) -> real, i: int, j: int): (t: seq<(real, real)>)
    requires 0 <= i <= size - 1 && 0 <= j <= 5 && (i == size - 1 ==> j == 0)
    ensures |t| == 1 + 5 * i + j
    decreases i, j
  {
    if j == 0 then
      if i == 0 then [(0.0, 0.0)] else TableUpTo(size, piece, i - 1, 5)
    else
      var t := TableUpTo(size, piece, i, j - 1);
      t + [(i as real + j as real * 0.2, t[|t| - 1].1 + piece(i, j - 1))]
  }

  /** Subdivision j of segment i appends one entry. */
  lemma TableStep(size: int, piece: (int, int) -> real, i: int, j: int)
    requires 0 <= i < size - 1 && 0 <= j < 5
    ensures var t := TableUpTo(size, piece, i, j);
      TableUpTo(size, piece, i, j + 1) == t + [(i as real + (j + 1) as real * 0.2, t[|t| - 1].1 + piece(i, j))]
  {
  }

  lemma PiecesAt(kfs: seq<Keyframe>, norm: Norm, root: real, i: int, j: int)
    requires ValidSegment(|kfs|, i) && 0 <= j < 5
    ensures Pieces(kfs, norm, root)(i, j) == PieceLength(GPositionMatrix(kfs, i), norm, root, j)
  {
  }

  /** The five subdivision lengths of segment i, for its control points G. */
  lemma PiecesOfSegment(kfs: seq<Keyframe>, norm: Norm, root: real, i: int, G: Mat4)
    requires ValidSegment(|kfs|, i) && G == GPositionMatrix(kfs, i)
    ensures forall j :: 0 <= j < 5 ==> Pieces(kfs, norm, root)(i, j) == PieceLength(G, norm, root, j)
  {
    forall j | 0 <= j < 5
      ensures Pieces(kfs, norm, root)(i, j) == PieceLength(G, norm, root, j)
    {
      PiecesAt(kfs, norm, root, i, j);
    }
  }

  /** createParameterizationTable's result: all size - 1 segments. */
  function ParamTable(kfs: seq<Keyframe>, norm: Norm, root: real): (t: seq<(real, real)>)
    requires |kfs| >= 1
    ensures |t| == 1 + 5 * (|kfs| - 1)
  {
    TableUpTo(|kfs|, Pieces(kfs, norm, root), |kfs| - 1, 0)
  }

  /** Entry k of the table has the parameter k / 5, so the parameters strictly increase from the
      first entry (0, 0). */
  lemma {:induction false} TableKeys(size: int, piece: (int, int) -> real, i: int, j: int)
    requires 0 <= i <= size - 1 && 0 <= j <= 5 && (i == size - 1 ==> j == 0)
    ensures var t := TableUpTo(size, piece, i, j);
      t[0] == (0.0, 0.0) && forall k :: 0 <= k < |t| ==> t[k].0 == k as real / 5.0
    decreases i, j
  {
    if j == 0 {
      if i > 0 {
        TableKeys(size, piece, i - 1, 5);
      }
    } else {
      TableKeys(size, piece, i, j - 1);
    }
  }

  /** The arc-length column of a table never decreases and never drops below 0. */
  predicate ArcNonDecreasing(t: seq<(real, real)>)
  {
    forall k, k' :: 0 <= k <= k' < |t| ==> 0.0 <= t[k].1 <= t[k'].1
  }

  /** With non-negative pieces the arc-length column never decreases and never drops below 0. */
  lemma {:induction false} TableArcMonotone(size: int, piece: (int, int) -> real, i: int, j: int)
    requires 0 <= i <= size - 1 && 0 <= j <= 5 && (i == size - 1 ==> j == 0)
    requires forall a, b :: piece(a, b) >= 0.0
    ensures ArcNonDecreasing(TableUpTo(size, piece, i, j))
    decreases i, j
  {
    if j == 0 {
      if i > 0 {
        TableArcMonotone(size, piece, i - 1, 5);
      }
    } else {
      TableArcMonotone(size, piece, i, j - 1);
      var t0, t := TableUpTo(size, piece, i, j - 1), TableUpTo(size, piece, i, j);
      var last := t0[|t0| - 1].1;
      assert t == t0 + [(i as real + j as real * 0.2, last + piece(i, j - 1))];
      assert piece(i, j - 1) >= 0.0;
      forall k, k' | 0 <= k <= k' < |t|
        ensures 0.0 <= t[k].1 <= t[k'].1
      {
        if k' < |t0| {
          assert t[k] == t0[k] && t[k'] == t0[k'];
        } else {
          assert t[k'].1 == last + piece(i, j - 1);
          if k < |t0| {
            assert t[k] == t0[k] && t0[k].1 <= last;
          }
        }
      }
    }
  }

  /** A strictly increasing parameter column and a non-decreasing arc-length column, which is
      what lets the table be inverted. */
  lemma ParamTableSorted(kfs: seq<Keyframe>, norm: Norm, root: real)
    requires |kfs| >= 1 && NonNegative(norm)
    ensures var t := ParamTable(kfs, norm, root);
      t[0] == (0.0, 0.0)
      && (forall k, k' :: 0 <= k < k' < |t| ==> t[k].0 < t[k'].0)
      && ArcNonDecreasing(t)
  {
    var piece := Pieces(kfs, norm, root);
    TableKeys(|kfs|, piece, |kfs| - 1, 0);
    forall a, b
      ensures piece(a, b) >= 0.0
    {
      if ValidSegment(|kfs|, a) && 0 <= b < 5 {
        assert piece(a, b) == Piece(kfs, norm, root, a, b);
      }
    }
    TableArcMonotone(|kfs|, piece, |kfs| - 1, 0);
  }

  class Path {
    var keyframes: seq<Keyframe>
    const B: Mat4 := Basis

    constructor (kfs: seq<Keyframe>)
      ensures keyframes == kfs
    {
      keyframes := kfs;
    }

    /** addKeyframe appends at the end. */
    method AddKeyframe(k: Keyframe)
      modifies this
      ensures keyframes == old(keyframes) + [k]
    {
      keyframes := keyframes + [k];
    }

    /** dp = G (B (0, 1, 2u, 3u^2)): the tangent of the curve G at u. */
    method Tangent(G: Mat4, u: real) returns (dp: Vec3)
      ensures dp == TangentAt(G, u)
    {
      TangentIsProduct(G, u);
      dp := Xyz(MulVec(G, MulVec(B, Vec4(0.0, 1.0, 2.0 * u, 3.0 * u * u))));
    }

    /** The integrand at u: the length of G (B (0, 1, 2u, 3u^2)). */
    method SpeedAtNode(G: Mat4, norm: Norm, u: real) returns (l: real)
      ensures l == Speed(G, norm)(u)
    {
      var dp := Tangent(G, u);
      SpeedAt(G, norm, u);
      l := norm(dp);
    }

    /** The innermost loop of createParameterizationTable and the scaling after it: the
      Gauss-Legendre estimate of the length of subdivision j of the segment with control points
      G. root is sqrt(3/5). */
    method SubdivisionLength(G: Mat4, j: int, norm: Norm, root: real) returns (s: real)
      requires 0 <= j < 5
      ensures s == PieceLength(G, norm, root, j)
    {
      ghost var speed := Speed(G, norm);
      var ub, ua := (j + 1) as real * 0.2, j as real * 0.2;
      var xis := [-root, 0.0, root];
      var wis := [5.0 / 9.0, 8.0 / 9.0, 5.0 / 9.0];
      s := 0.0;
      for q := 0 to 3
        invariant s == GaussSum(speed, ua, ub, root, q)
      {
        assert xis[q] == Abscissa(root, q) && wis[q] == Weight(q);
        var u := (ub - ua) / 2.0 * xis[q] + (ub + ua) / 2.0;
        assert u == Node(ua, ub, root, q);
        var l := SpeedAtNode(G, norm, u);
        s := s + wis[q] * l;
      }
      s := s * (ub - ua) / 2.0;
    }

    /** The loop over the five subdivisions of segment i, with G its control points and
      piece(i, j) the length of its subdivision j. */
    method PushSegment(usTable: seq<(real, real)>, G: Mat4, i: int, norm: Norm, root: real,
                       ghost piece: (int, int) -> real) returns (t: seq<(real, real)>)
      requires 0 <= i < |keyframes| - 1 && usTable == TableUpTo(|keyframes|, piece, i, 0)
      requires forall j :: 0 <= j < 5 ==> piece(i, j) == PieceLength(G, norm, root, j)
      ensures t == TableUpTo(|keyframes|, piece, i, 5)
    {
      t := usTable;
      for j := 0 to 5
        invariant t == TableUpTo(|keyframes|, piece, i, j)
      {
        var ub := (j + 1) as real * 0.2;
        var s := SubdivisionLength(G, j, norm, root);
        TableStep(|keyframes|, piece, i, j);
        t := t + [(i as real + ub, t[|t| - 1].1 + s)];
      }
    }

    /** createParameterizationTable: (0, 0), then for each segment and each fifth of it the end
      parameter and the running arc length. */
    method CreateParameterizationTable(norm: Norm, root: real) returns (usTable: seq<(real, real)>)
      requires |keyframes| == 1 || |keyframes| >= 3
      ensures usTable == ParamTable(keyframes, norm, root)
    {
      usTable := [(0.0, 0.0)];
      var i := 0;
      while i < |keyframes| - 1
        invariant 0 <= i <= |keyframes| - 1
        invariant usTable == TableUpTo(|keyframes|, Pieces(keyframes, norm, root), i, 0)
      {
        var G := GPositionMatrix(keyframes, i);
        PiecesOfSegment(keyframes, norm, root, i, G);
        usTable := PushSegment(usTable, G, i, norm, root, Pieces(keyframes, norm, root));
        i := i + 1;
      }
    }
  }
}
