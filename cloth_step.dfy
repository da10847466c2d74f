/**
 * The linearly implicit time step of the cloth (A5 Cloth::step), as functions of the
 * state before the step: the force vector f, the velocity vector v, the stiffness
 * triplets and the mass triplets it assembles, and the sparse system handed to the
 * conjugate-gradient solver.
 *
 * A sparse matrix is the triplet list it is built from; as with Eigen's
 * setFromTriplets, the entry at (r, c) is the sum of all triplets at (r, c).
 */
module ClothStep {
  import opened Linear
  import opened ClothGrid

  /** A cloth particle or a collision sphere. `i` is the offset of the particle's three
      unknowns in the global vectors, -1 for a pinned particle. */
  datatype Particle = Particle(x: Vec3, v: Vec3, m: real, r: real, fixed: bool, i: int)

  /** A spring between particles p0 and p1 (indices into the particle list), with
      stiffness E and rest length L. */
  datatype Spring = Spring(p0: int, p1: int, E: real, L: real)

  datatype Triplet = Triplet(row: int, col: int, val: real)

  /** A 3x3 matrix by rows. */
  datatype Mat3 = Mat3(r0: Vec3, r1: Vec3, r2: Vec3)

  function At3(m: Mat3, j: int, k: int): real
    requires 0 <= j < 3 && 0 <= k < 3
  {
    Comp(if j == 0 then m.r0 else if j == 1 then m.r1 else m.r2, k)
  }

  predicate Symmetric3(m: Mat3)
  {
    forall j, k :: 0 <= j < 3 && 0 <= k < 3 ==> At3(m, j, k) == At3(m, k, j)
  }

  /** The collision stiffness c = 1e1. */
  const CollisionStiffness := 10.0

  /** The conjugate-gradient settings. */
  const MaxIterations := 25
  const Tolerance := 0.000001

  /** The dense vectors f, v and b, and what step accumulates into them. */
  datatype Assembly = Assembly(f: seq<real>, v: seq<real>, kTrips: seq<Triplet>, mTrips: seq<Triplet>)

  /** The system matrix M - hh K (given by the triplets of M and K and the factor hh), the
      right-hand side b = M v + h f and the starting guess handed to the iterative solver. */
  datatype SparseSystem = SparseSystem(n: int, mTrips: seq<Triplet>, kTrips: seq<Triplet>, hh: real,
                                       b: seq<real>, guess: seq<real>, maxIterations: int,
                                       tolerance: real)

  // ---- dense vectors ----

  function Zeros(n: nat): (z: seq<real>)
    ensures |z| == n && forall t :: 0 <= t < n ==> z[t] == 0.0
  {
    seq(n, _ => 0.0)
  }

  /** The three-entry segment starting at i. */
  function Seg(f: seq<real>, i: int): Vec3
    requires 0 <= i && i + 3 <= |f|
  {
    Vec3(f[i], f[i + 1], f[i + 2])
  }

  /** f.segment(i, 3) += a. */
  function AddSeg(f: seq<real>, i: int, a: Vec3): (g: seq<real>)
    requires 0 <= i && i + 3 <= |f|
    ensures |g| == |f| && Seg(g, i) == Add(Seg(f, i), a)
    ensures forall t :: 0 <= t < |f| && !(i <= t < i + 3) ==> g[t] == f[t]
  {
    f[i := f[i] + a.x][i + 1 := f[i + 1] + a.y][i + 2 := f[i + 2] + a.z]
  }

  /** f.segment(i, 3) = a. */
  function SetSeg(f: seq<real>, i: int, a: Vec3): (g: seq<real>)
    requires 0 <= i && i + 3 <= |f|
    ensures |g| == |f| && Seg(g, i) == a
    ensures forall t :: 0 <= t < |f| && !(i <= t < i + 3) ==> g[t] == f[t]
  {
    f[i := a.x][i + 1 := a.y][i + 2 := a.z]
  }

  // ---- triplets and matrix entries ----

  predicate IsAt(t: Triplet, r: int, c: int)
  {
    t.row == r && t.col == c
  }

  /** What one triplet adds to the entry (r, c). */
  function Share(t: Triplet, r: int, c: int): real
  {
    if IsAt(t, r, c) then t.val else 0.0
  }

  /** The matrix entry (r, c) of a triplet list: the sum of the values stored there. */
  function Entry(ts: seq<Triplet>, r: int, c: int): real
  {
    if |ts| == 0 then 0.0 else Entry(ts[..|ts| - 1], r, c) + Share(ts[|ts| - 1], r, c)
  }

  ghost predicate Symmetric(ts: seq<Triplet>)
  {
    forall r, c :: Entry(ts, r, c) == Entry(ts, c, r)
  }

  predicate Diagonal(ts: seq<Triplet>)
  {
    forall t :: 0 <= t < |ts| ==> ts[t].row == ts[t].col
  }

  /** Every triplet addresses a cell of an n x n matrix. */
  predicate TripsIn(ts: seq<Triplet>, n: int)
  {
    forall t :: 0 <= t < |ts| ==> 0 <= ts[t].row < n && 0 <= ts[t].col < n
  }

  /** Three equal entries on the diagonal starting at (b, b). */
  function DiagTrips(b: int, val: real): seq<Triplet>
  {
    [Triplet(b, b, val), Triplet(b + 1, b + 1, val), Triplet(b + 2, b + 2, val)]
  }

  /** Row r of the product of the triplet matrix with x. */
  function RowDot(ts: seq<Triplet>, r: int, x: seq<real>): real
  {
    if |ts| == 0 then 0.0
    else
      var t := ts[|ts| - 1];
      RowDot(ts[..|ts| - 1], r, x) + (if t.row == r && 0 <= t.col < |x| then t.val * x[t.col] else 0.0)
  }

  /** The solver's right-hand side b = M v + h f. */
  function RightHandSide(mTrips: seq<Triplet>, v: seq<real>, f: seq<real>, h: real): (b: seq<real>)
    requires |f| == |v|
    ensures |b| == |v|
  {
    seq(|v|, r requires 0 <= r < |v| => RowDot(mTrips, r, v) + h * f[r])
  }

  /** The sparse system step hands to the conjugate-gradient solver: the matrix
      M - h^2 K, the right-hand side, and the previous velocity as starting guess. */
  function System(a: Assembly, h: real, pv: seq<real>): SparseSystem
    requires |a.f| == |a.v|
  {
    SparseSystem(|a.v|, a.mTrips, a.kTrips, h * h, RightHandSide(a.mTrips, a.v, a.f, h),
                 pv, MaxIterations, Tolerance)
  }

  /** The entry (r, c) of the system matrix M - hh K. */
  function SystemEntry(sys: SparseSystem, r: int, c: int): real
  {
    Entry(sys.mTrips, r, c) - sys.hh * Entry(sys.kTrips, r, c)
  }

  // ---- the particle pass: collisions, gravity, masses ----

  /** The unknowns of particle p lie inside a system of size n, unless p is pinned. */
  predicate DofIn(p: Particle, n: int)
  {
    p.fixed || (0 <= p.i && p.i + 3 <= n)
  }

  predicate AllDofsIn(ps: seq<Particle>, n: int)
  {
    forall k :: 0 <= k < |ps| ==> DofIn(ps[k], n)
  }

  predicate Sized(a: Assembly, n: int)
  {
    |a.f| == n && |a.v| == n
  }

  /** The penetration depth d = r + sr - |x - sx| of particle p into sphere s. */
  function Penetration(p: Particle, s: Particle, norm: Norm): real
  {
    p.r + s.r - norm(Sub(p.x, s.x))
  }

  /** The collision stiffness triplets of particle p against sphere s, as written: emitted
      whenever p penetrates s, at p's offset even when p is pinned. */
  function ContactTripsAsWritten(p: Particle, s: Particle, norm: Norm): seq<Triplet>
  {
    var d := Penetration(p, s, norm);
    if d > 0.0 then DiagTrips(p.i, CollisionStiffness * d) else []
  }

  /** A pinned particle (offset -1) inside a sphere makes the as-written collision code
      emit a stiffness triplet at row and column -1, outside every system matrix. */
  lemma PinnedContactOutOfRange(p: Particle, s: Particle, norm: Norm, n: int)
    requires p.fixed && p.i == -1 && Penetration(p, s, norm) > 0.0
    ensures |ContactTripsAsWritten(p, s, norm)| == 3
    ensures !TripsIn(ContactTripsAsWritten(p, s, norm), n)
    ensures ContactTripsAsWritten(p, s, norm)[0].row == -1
  {
    assert ContactTripsAsWritten(p, s, norm)[0].row == -1;
  }

  /** The collision of particle p with sphere s, skipping pinned particles as every other
      force term of the step does: the penalty force c d (x - sx) / l on p's segment of f
      and c d on its three diagonal stiffness entries, when p penetrates s by d > 0. */
  function ContactVisit(a: Assembly, p: Particle, s: Particle, norm: Norm): (a': Assembly)
    requires DofIn(p, |a.f|)
    ensures Sized(a', |a.f|) <== Sized(a, |a.f|)
    ensures a'.v == a.v && a'.mTrips == a.mTrips
  {
    var dx := Sub(p.x, s.x);
    var d := Penetration(p, s, norm);
    if d > 0.0 && !p.fixed then
      a.(f := AddSeg(a.f, p.i, Scale(Div(CollisionStiffness * d, norm(dx)), dx)),
         kTrips := a.kTrips + DiagTrips(p.i, CollisionStiffness * d))
    else a
  }

  /** Gravity, the current velocity and the three mass entries of a free particle. */
  function MassVisit(a: Assembly, p: Particle, grav: Vec3): (a': Assembly)
    requires Sized(a, |a.f|) && DofIn(p, |a.f|)
    ensures Sized(a', |a.f|) && |a'.f| == |a.f| && a'.kTrips == a.kTrips
  {
    if p.fixed then a
    else
      a.(f := AddSeg(a.f, p.i, Scale(p.m, grav)), v := SetSeg(a.v, p.i, p.v),
         mTrips := a.mTrips + DiagTrips(p.i, p.m))
  }

  /** The collisions of particle p with spheres 0..j-1. */
  function ContactPass(a: Assembly, p: Particle, spheres: seq<Particle>, j: int, norm: Norm): (a': Assembly)
    requires Sized(a, |a.f|) && DofIn(p, |a.f|) && 0 <= j <= |spheres|
    ensures Sized(a', |a.f|) && a'.v == a.v && a'.mTrips == a.mTrips
  {
    if j == 0 then a else ContactVisit(ContactPass(a, p, spheres, j - 1, norm), p, spheres[j - 1], norm)
  }

  /** The first loop of step over particles 0..i-1: collisions, then gravity and mass. */
  function ParticlePass(a: Assembly, ps: seq<Particle>, spheres: seq<Particle>, grav: Vec3,
                        norm: Norm, i: int): (a': Assembly)
    requires Sized(a, |a.f|) && AllDofsIn(ps, |a.f|) && 0 <= i <= |ps|
    ensures Sized(a', |a.f|)
  {
    if i == 0 then a
    else
      var prev := ParticlePass(a, ps, spheres, grav, norm, i - 1);
      MassVisit(ContactPass(prev, ps[i - 1], spheres, |spheres|, norm), ps[i - 1], grav)
  }

  // ---- the spring pass ----

  /** The elastic force E (l - L) / l dx on p0 of a spring of current extent dx = x1 - x0. */
  function SpringForce(E: real, L: real, dx: Vec3, norm: Norm): Vec3
  {
    var l := norm(dx);
    Scale(E * Div(l - L, l), dx)
  }

  /** The spring's stiffness block Ks = E / l^2 ((1 - s) dx dx^T + s (dx . dx) I), with
      s = (l - L) / l. */
  function SpringStiffness(E: real, L: real, dx: Vec3, norm: Norm): Mat3
  {
    var l := norm(dx);
    var s := Div(l - L, l);
    var c := Div(E, l * l);
    var dd := s * Dot(dx, dx);
    Mat3(Vec3(c * ((1.0 - s) * dx.x * dx.x + dd), c * ((1.0 - s) * dx.x * dx.y), c * ((1.0 - s) * dx.x * dx.z)),
         Vec3(c * ((1.0 - s) * dx.y * dx.x), c * ((1.0 - s) * dx.y * dx.y + dd), c * ((1.0 - s) * dx.y * dx.z)),
         Vec3(c * ((1.0 - s) * dx.z * dx.x), c * ((1.0 - s) * dx.z * dx.y), c * ((1.0 - s) * dx.z * dx.z + dd)))
  }

  /** The nine entries -Ks(j, k) at (b + j, b + k), row by row. */
  function DiagBlock(b: int, ks: Mat3): (r: seq<Triplet>)
    ensures |r| == 9
  {
    seq(9, t requires 0 <= t < 9 => Triplet(b + t / 3, b + t % 3, -At3(ks, t / 3, t % 3)))
  }

  /** The eighteen coupling entries: for each (j, k) in row order, Ks(j, k) at (b0 + j, b1 + k)
      and then at (b1 + j, b0 + k). */
  function CrossBlock(b0: int, b1: int, ks: Mat3): (r: seq<Triplet>)
    ensures |r| == 18
  {
    seq(18, t requires 0 <= t < 18 =>
      var u := t / 2;
      if t % 2 == 0 then Triplet(b0 + u / 3, b1 + u % 3, At3(ks, u / 3, u % 3))
      else Triplet(b1 + u / 3, b0 + u % 3, At3(ks, u / 3, u % 3)))
  }

  /** The stiffness triplets of one spring: a -Ks block on the diagonal of each free end, and
      the coupling block only when both ends are free. */
  function SpringTrips(p0: Particle, p1: Particle, ks: Mat3): seq<Triplet>
  {
    (if !p0.fixed then DiagBlock(p0.i, ks) else [])
    + (if !p1.fixed then DiagBlock(p1.i, ks) else [])
    + (if !p0.fixed && !p1.fixed then CrossBlock(p0.i, p1.i, ks) else [])
  }

  predicate SpringIn(sp: Spring, ps: seq<Particle>)
  {
    0 <= sp.p0 < |ps| && 0 <= sp.p1 < |ps|
  }

  /** One iteration of step's spring loop: +fs on p0 and -fs on p1 where free, then the
      spring's stiffness triplets. */
  function SpringVisit(a: Assembly, ps: seq<Particle>, sp: Spring, norm: Norm): (a': Assembly)
    requires SpringIn(sp, ps) && DofIn(ps[sp.p0], |a.f|) && DofIn(ps[sp.p1], |a.f|)
    ensures |a'.f| == |a.f| && a'.v == a.v && a'.mTrips == a.mTrips
  {
    var p0, p1 := ps[sp.p0], ps[sp.p1];
    var dx := Sub(p1.x, p0.x);
    var fs := SpringForce(sp.E, sp.L, dx, norm);
    a.(f := ApplyPair(a.f, p0, p1, fs), kTrips := a.kTrips + SpringTrips(p0, p1, SpringStiffness(sp.E, sp.L, dx, norm)))
  }

  /** f.segment(p0.i, 3) += fs and f.segment(p1.i, 3) -= fs, each only for a free particle. */
  function ApplyPair(f: seq<real>, p0: Particle, p1: Particle, fs: Vec3): (g: seq<real>)
    requires DofIn(p0, |f|) && DofIn(p1, |f|)
    ensures |g| == |f|
  {
    var f0 := if !p0.fixed then AddSeg(f, p0.i, fs) else f;
    if !p1.fixed then AddSeg(f0, p1.i, Neg(fs)) else f0
  }

  predicate AllSpringsIn(springs: seq<Spring>, ps: seq<Particle>)
  {
    forall s :: 0 <= s < |springs| ==> SpringIn(springs[s], ps)
  }

  /** Step's spring loop over springs 0..i-1. */
  function SpringPass(a: Assembly, ps: seq<Particle>, springs: seq<Spring>, norm: Norm, i: int): (a': Assembly)
    requires AllDofsIn(ps, |a.f|) && AllSpringsIn(springs, ps) && 0 <= i <= |springs|
    ensures |a'.f| == |a.f| && a'.v == a.v && a'.mTrips == a.mTrips
    ensures a'.kTrips == a.kTrips + StiffnessTrips(ps, springs, norm, i)
  {
    if i == 0 then a
    else
      var prev := SpringPass(a, ps, springs, norm, i - 1);
      var sp := springs[i - 1];
      var p0, p1 := ps[sp.p0], ps[sp.p1];
      AppendAssoc(a.kTrips, StiffnessTrips(ps, springs, norm, i - 1),
                  SpringTrips(p0, p1, SpringStiffness(sp.E, sp.L, Sub(p1.x, p0.x), norm)));
      SpringVisit(prev, ps, sp, norm)
  }

  lemma AppendAssoc(x: seq<Triplet>, y: seq<Triplet>, z: seq<Triplet>)
    ensures (x + y) + z == x + (y + z)
  {
  }

  /** The stiffness triplets the first i springs contribute, in the order step appends them. */
  function StiffnessTrips(ps: seq<Particle>, springs: seq<Spring>, norm: Norm, i: int): seq<Triplet>
    requires AllSpringsIn(springs, ps) && 0 <= i <= |springs|
  {
    if i == 0 then []
    else
      var sp := springs[i - 1];
      var p0, p1 := ps[sp.p0], ps[sp.p1];
      StiffnessTrips(ps, springs, norm, i - 1) + SpringTrips(p0, p1, SpringStiffness(sp.E, sp.L, Sub(p1.x, p0.x), norm))
  }

  /** Everything step assembles before the solve, from zeroed f and v. */
  function Assemble(ps: seq<Particle>, springs: seq<Spring>, spheres: seq<Particle>, grav: Vec3,
                    n: nat, norm: Norm): (a: Assembly)
    requires AllDofsIn(ps, n) && AllSpringsIn(springs, ps)
    ensures Sized(a, n)
  {
    var a0 := ParticlePass(Assembly(Zeros(n), Zeros(n), [], []), ps, spheres, grav, norm, |ps|);
    SpringPass(a0, ps, springs, norm, |springs|)
  }
}
