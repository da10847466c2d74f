/**
 * Properties of the assembled time step (A5 Cloth::step): the stiffness and mass
 * matrices and the system matrix M - h^2 K are symmetric (as the conjugate-gradient solver
 * requires), every triplet addresses a cell of the n x n system, each free particle
 * contributes exactly three mass entries, and the two ends of a spring receive forces
 * that cancel.
 */
module ClothProperties {
  import opened Linear
  import opened ClothGrid
  import opened ClothStep

  // ---- entries of triplet lists ----

  lemma {:induction false} EntryConcat(a: seq<Triplet>, b: seq<Triplet>, r: int, c: int)
    ensures Entry(a + b, r, c) == Entry(a, r, c) + Entry(b, r, c)
    decreases |b|
  {
    if |b| > 0 {
      var b' := b[..|b| - 1];
      assert (a + b)[..|a + b| - 1] == a + b';
      assert (a + b)[|a + b| - 1] == b[|b| - 1];
      EntryConcat(a, b', r, c);
    } else {
      assert a + b == a;
    }
  }

  /** A cell no triplet addresses holds zero. */
  lemma {:induction false} EntryNone(ts: seq<Triplet>, r: int, c: int)
    requires forall t :: 0 <= t < |ts| ==> !IsAt(ts[t], r, c)
    ensures Entry(ts, r, c) == 0.0
    decreases |ts|
  {
    if |ts| > 0 {
      var ts' := ts[..|ts| - 1];
      assert forall t :: 0 <= t < |ts'| ==> ts'[t] == ts[t];
      EntryNone(ts', r, c);
    }
  }

  /** A cell exactly one triplet addresses holds that triplet's value. */
  lemma {:induction false} EntryOne(ts: seq<Triplet>, r: int, c: int, t: int)
    requires 0 <= t < |ts| && IsAt(ts[t], r, c)
    requires forall t' :: 0 <= t' < |ts| && t' != t ==> !IsAt(ts[t'], r, c)
    ensures Entry(ts, r, c) == ts[t].val
    decreases |ts|
  {
    var ts' := ts[..|ts| - 1];
    assert forall t' :: 0 <= t' < |ts'| ==> ts'[t'] == ts[t'];
    if t == |ts| - 1 {
      EntryNone(ts', r, c);
    } else {
      EntryOne(ts', r, c, t);
    }
  }

  lemma SymmetricConcat(a: seq<Triplet>, b: seq<Triplet>)
    requires Symmetric(a) && Symmetric(b)
    ensures Symmetric(a + b)
  {
    forall r, c
      ensures Entry(a + b, r, c) == Entry(a + b, c, r)
    {
      EntryConcat(a, b, r, c);
      EntryConcat(a, b, c, r);
    }
  }

  /** Off the diagonal, a diagonal triplet list holds zeros. */
  lemma {:induction false} DiagonalOffZero(ts: seq<Triplet>, r: int, c: int)
    requires Diagonal(ts) && r != c
    ensures Entry(ts, r, c) == 0.0
  {
    EntryNone(ts, r, c);
  }

  lemma DiagonalSymmetric(ts: seq<Triplet>)
    requires Diagonal(ts)
    ensures Symmetric(ts)
  {
    forall r, c | r != c
      ensures Entry(ts, r, c) == Entry(ts, c, r)
    {
      DiagonalOffZero(ts, r, c);
      DiagonalOffZero(ts, c, r);
    }
  }

  lemma DiagonalConcat(a: seq<Triplet>, b: seq<Triplet>)
    requires Diagonal(a) && Diagonal(b)
    ensures Diagonal(a + b)
  {
    assert forall t :: |a| <= t < |a + b| ==> (a + b)[t] == b[t - |a|];
  }

  // ---- the stiffness blocks ----

  /** The diagonal block of a spring end at offset b holds -Ks(r - b, c - b) inside the 3x3
      square at (b, b) and nothing elsewhere. */
  lemma DiagBlockEntry(b: int, ks: Mat3, r: int, c: int)
    ensures Entry(DiagBlock(b, ks), r, c) ==
      if b <= r < b + 3 && b <= c < b + 3 then -At3(ks, r - b, c - b) else 0.0
  {
    var ds := DiagBlock(b, ks);
    if b <= r < b + 3 && b <= c < b + 3 {
      var t := 3 * (r - b) + (c - b);
      assert t / 3 == r - b && t % 3 == c - b;
      forall t' | 0 <= t' < 9 && t' != t
        ensures !IsAt(ds[t'], r, c)
      {
        assert t' == 3 * (t' / 3) + t' % 3;
      }
      EntryOne(ds, r, c, t);
    } else {
      EntryNone(ds, r, c);
    }
  }

  /** When the two ends' segments do not overlap, the coupling block holds Ks(r - b0, c - b1)
      in the square at (b0, b1), Ks(r - b1, c - b0) in the square at (b1, b0) and nothing
      elsewhere. */
  lemma CrossBlockEntry(b0: int, b1: int, ks: Mat3, r: int, c: int)
    requires b0 + 3 <= b1 || b1 + 3 <= b0
    ensures Entry(CrossBlock(b0, b1, ks), r, c) ==
      if b0 <= r < b0 + 3 && b1 <= c < b1 + 3 then At3(ks, r - b0, c - b1)
      else if b1 <= r < b1 + 3 && b0 <= c < b0 + 3 then At3(ks, r - b1, c - b0)
      else 0.0
  {
    var cs := CrossBlock(b0, b1, ks);
    if b0 <= r < b0 + 3 && b1 <= c < b1 + 3 {
      var t := 2 * (3 * (r - b0) + (c - b1));
      assert t / 2 == 3 * (r - b0) + (c - b1) && t % 2 == 0;
      forall t' | 0 <= t' < 18 && t' != t
        ensures !IsAt(cs[t'], r, c)
      {
        assert t' == 2 * (t' / 2) + t' % 2;
        assert t' / 2 == 3 * ((t' / 2) / 3) + (t' / 2) % 3;
      }
      EntryOne(cs, r, c, t);
    } else if b1 <= r < b1 + 3 && b0 <= c < b0 + 3 {
      var t := 2 * (3 * (r - b1) + (c - b0)) + 1;
      assert t / 2 == 3 * (r - b1) + (c - b0) && t % 2 == 1;
      forall t' | 0 <= t' < 18 && t' != t
        ensures !IsAt(cs[t'], r, c)
      {
        assert t' == 2 * (t' / 2) + t' % 2;
        assert t' / 2 == 3 * ((t' / 2) / 3) + (t' / 2) % 3;
      }
      EntryOne(cs, r, c, t);
    } else {
      EntryNone(cs, r, c);
    }
  }

  /** The stiffness block of a spring is a symmetric 3x3 matrix. */
  lemma StiffnessSymmetric(E: real, L: real, dx: Vec3, norm: Norm)
    ensures Symmetric3(SpringStiffness(E, L, dx, norm))
  {
  }

  lemma DiagBlockSymmetric(b: int, ks: Mat3)
    requires Symmetric3(ks)
    ensures Symmetric(DiagBlock(b, ks))
  {
    forall r, c
      ensures Entry(DiagBlock(b, ks), r, c) == Entry(DiagBlock(b, ks), c, r)
    {
      DiagBlockEntry(b, ks, r, c);
      DiagBlockEntry(b, ks, c, r);
    }
  }

  lemma CrossBlockSymmetric(b0: int, b1: int, ks: Mat3)
    requires Symmetric3(ks) && (b0 + 3 <= b1 || b1 + 3 <= b0)
    ensures Symmetric(CrossBlock(b0, b1, ks))
  {
    forall r, c
      ensures Entry(CrossBlock(b0, b1, ks), r, c) == Entry(CrossBlock(b0, b1, ks), c, r)
    {
      CrossBlockEntry(b0, b1, ks, r, c);
      CrossBlockEntry(b0, b1, ks, c, r);
    }
  }

  // ---- the whole assembly ----

  /** Free particles stored later have later, non-overlapping segments (as the
      constructor lays them out). */
  predicate Layout(ps: seq<Particle>)
  {
    forall k, k' :: 0 <= k < k' < |ps| && !ps[k].fixed && !ps[k'].fixed ==> ps[k].i + 3 <= ps[k'].i
  }

  /** Every spring joins two different particles, the earlier one first. */
  predicate Ordered(springs: seq<Spring>, ps: seq<Particle>)
  {
    forall s :: 0 <= s < |springs| ==> 0 <= springs[s].p0 < springs[s].p1 < |ps|
  }

  lemma SpringTripsSymmetric(p0: Particle, p1: Particle, ks: Mat3)
    requires Symmetric3(ks)
    requires !p0.fixed && !p1.fixed ==> p0.i + 3 <= p1.i
    ensures Symmetric(SpringTrips(p0, p1, ks))
  {
    var d0 := if !p0.fixed then DiagBlock(p0.i, ks) else [];
    var d1 := if !p1.fixed then DiagBlock(p1.i, ks) else [];
    var cr := if !p0.fixed && !p1.fixed then CrossBlock(p0.i, p1.i, ks) else [];
    if !p0.fixed { DiagBlockSymmetric(p0.i, ks); }
    if !p1.fixed { DiagBlockSymmetric(p1.i, ks); }
    if !p0.fixed && !p1.fixed { CrossBlockSymmetric(p0.i, p1.i, ks); }
    SymmetricConcat(d0, d1);
    SymmetricConcat(d0 + d1, cr);
  }

  lemma {:induction false} ContactPassDiagonal(a: Assembly, p: Particle, spheres: seq<Particle>, j: int, norm: Norm)
    requires Sized(a, |a.f|) && DofIn(p, |a.f|) && 0 <= j <= |spheres| && Diagonal(a.kTrips)
    ensures Diagonal(ContactPass(a, p, spheres, j, norm).kTrips)
    decreases j
  {
    if j > 0 {
      var prev := ContactPass(a, p, spheres, j - 1, norm);
      ContactPassDiagonal(a, p, spheres, j - 1, norm);
      DiagonalConcat(prev.kTrips, DiagTrips(p.i, CollisionStiffness * Penetration(p, spheres[j - 1], norm)));
    }
  }

  /** The particle pass contributes only diagonal entries, to K (collisions) and to M (masses). */
  lemma {:induction false} ParticlePassDiagonal(a: Assembly, ps: seq<Particle>, spheres: seq<Particle>,
                                                grav: Vec3, norm: Norm, i: int)
    requires Sized(a, |a.f|) && AllDofsIn(ps, |a.f|) && 0 <= i <= |ps|
    requires Diagonal(a.kTrips) && Diagonal(a.mTrips)
    ensures Diagonal(ParticlePass(a, ps, spheres, grav, norm, i).kTrips)
    ensures Diagonal(ParticlePass(a, ps, spheres, grav, norm, i).mTrips)
    decreases i
  {
    if i > 0 {
      var prev := ParticlePass(a, ps, spheres, grav, norm, i - 1);
      ParticlePassDiagonal(a, ps, spheres, grav, norm, i - 1);
      ContactPassDiagonal(prev, ps[i - 1], spheres, |spheres|, norm);
      var c := ContactPass(prev, ps[i - 1], spheres, |spheres|, norm);
      DiagonalConcat(c.mTrips, DiagTrips(ps[i - 1].i, ps[i - 1].m));
    }
  }

  lemma {:induction false} StiffnessTripsSymmetric(ps: seq<Particle>, springs: seq<Spring>, norm: Norm, i: int)
    requires AllSpringsIn(springs, ps) && Layout(ps) && Ordered(springs, ps) && 0 <= i <= |springs|
    ensures Symmetric(StiffnessTrips(ps, springs, norm, i))
    decreases i
  {
    if i > 0 {
      StiffnessTripsSymmetric(ps, springs, norm, i - 1);
      var sp := springs[i - 1];
      var p0, p1 := ps[sp.p0], ps[sp.p1];
      var ks := SpringStiffness(sp.E, sp.L, Sub(p1.x, p0.x), norm);
      StiffnessSymmetric(sp.E, sp.L, Sub(p1.x, p0.x), norm);
      SpringTripsSymmetric(p0, p1, ks);
      SymmetricConcat(StiffnessTrips(ps, springs, norm, i - 1), SpringTrips(p0, p1, ks));
    }
  }

  /** The mass matrix and the stiffness matrix step assembles are symmetric. */
  lemma AssembleSymmetric(ps: seq<Particle>, springs: seq<Spring>, spheres: seq<Particle>, grav: Vec3,
                          n: nat, norm: Norm)
    requires AllDofsIn(ps, n) && AllSpringsIn(springs, ps) && Layout(ps) && Ordered(springs, ps)
    ensures var a := Assemble(ps, springs, spheres, grav, n, norm);
      Symmetric(a.mTrips) && Symmetric(a.kTrips)
  {
    var a0 := Assembly(Zeros(n), Zeros(n), [], []);
    ParticlePassDiagonal(a0, ps, spheres, grav, norm, |ps|);
    var a1 := ParticlePass(a0, ps, spheres, grav, norm, |ps|);
    DiagonalSymmetric(a1.kTrips);
    DiagonalSymmetric(a1.mTrips);
    StiffnessTripsSymmetric(ps, springs, norm, |springs|);
    SymmetricConcat(a1.kTrips, StiffnessTrips(ps, springs, norm, |springs|));
  }

  /** With M and K symmetric, so is the matrix M - h^2 K that step hands to the
      conjugate-gradient solver. */
  lemma SystemSymmetric(a: Assembly, h: real, pv: seq<real>)
    requires |a.f| == |a.v| && Symmetric(a.mTrips) && Symmetric(a.kTrips)
    ensures var sys := System(a, h, pv);
      forall r, c :: SystemEntry(sys, r, c) == SystemEntry(sys, c, r)
  {
    var sys := System(a, h, pv);
    forall r, c
      ensures SystemEntry(sys, r, c) == SystemEntry(sys, c, r)
    {
      SameCombination(Entry(a.mTrips, r, c), Entry(a.mTrips, c, r),
                      Entry(a.kTrips, r, c), Entry(a.kTrips, c, r), h * h);
    }
  }

  lemma SameCombination(m: real, m': real, k: real, k': real, hh: real)
    requires m == m' && k == k'
    ensures m - hh * k == m' - hh * k'
  {
  }

  // ---- index ranges ----

  lemma TripsInConcat(a: seq<Triplet>, b: seq<Triplet>, n: int)
    requires TripsIn(a, n) && TripsIn(b, n)
    ensures TripsIn(a + b, n)
  {
    assert forall t :: |a| <= t < |a + b| ==> (a + b)[t] == b[t - |a|];
  }

  lemma {:induction false} ContactPassIn(a: Assembly, p: Particle, spheres: seq<Particle>, j: int, norm: Norm)
    requires Sized(a, |a.f|) && DofIn(p, |a.f|) && 0 <= j <= |spheres| && TripsIn(a.kTrips, |a.f|)
    ensures TripsIn(ContactPass(a, p, spheres, j, norm).kTrips, |a.f|)
    decreases j
  {
    if j > 0 {
      var prev := ContactPass(a, p, spheres, j - 1, norm);
      ContactPassIn(a, p, spheres, j - 1, norm);
      if !p.fixed {
        TripsInConcat(prev.kTrips, DiagTrips(p.i, CollisionStiffness * Penetration(p, spheres[j - 1], norm)), |a.f|);
      }
    }
  }

  lemma {:induction false} ParticlePassIn(a: Assembly, ps: seq<Particle>, spheres: seq<Particle>,
                                          grav: Vec3, norm: Norm, i: int)
    requires Sized(a, |a.f|) && AllDofsIn(ps, |a.f|) && 0 <= i <= |ps|
    requires TripsIn(a.kTrips, |a.f|) && TripsIn(a.mTrips, |a.f|)
    ensures TripsIn(ParticlePass(a, ps, spheres, grav, norm, i).kTrips, |a.f|)
    ensures TripsIn(ParticlePass(a, ps, spheres, grav, norm, i).mTrips, |a.f|)
    decreases i
  {
    if i > 0 {
      var prev := ParticlePass(a, ps, spheres, grav, norm, i - 1);
      ParticlePassIn(a, ps, spheres, grav, norm, i - 1);
      assert DofIn(ps[i - 1], |a.f|);
      ContactPassIn(prev, ps[i - 1], spheres, |spheres|, norm);
      var c := ContactPass(prev, ps[i - 1], spheres, |spheres|, norm);
      if !ps[i - 1].fixed {
        TripsInConcat(c.mTrips, DiagTrips(ps[i - 1].i, ps[i - 1].m), |a.f|);
      }
    }
  }

  lemma SpringTripsIn(p0: Particle, p1: Particle, ks: Mat3, n: int)
    requires DofIn(p0, n) && DofIn(p1, n)
    ensures TripsIn(SpringTrips(p0, p1, ks), n)
  {
    var d0 := if !p0.fixed then DiagBlock(p0.i, ks) else [];
    var d1 := if !p1.fixed then DiagBlock(p1.i, ks) else [];
    var cr := if !p0.fixed && !p1.fixed then CrossBlock(p0.i, p1.i, ks) else [];
    assert TripsIn(d0, n) && TripsIn(d1, n);
    assert TripsIn(cr, n);
    TripsInConcat(d0, d1, n);
    TripsInConcat(d0 + d1, cr, n);
  }

  lemma {:induction false} StiffnessTripsIn(ps: seq<Particle>, springs: seq<Spring>, norm: Norm, i: int, n: int)
    requires AllDofsIn(ps, n) && AllSpringsIn(springs, ps) && 0 <= i <= |springs|
    ensures TripsIn(StiffnessTrips(ps, springs, norm, i), n)
    decreases i
  {
    if i > 0 {
      StiffnessTripsIn(ps, springs, norm, i - 1, n);
      var sp := springs[i - 1];
      var p0, p1 := ps[sp.p0], ps[sp.p1];
      var ks := SpringStiffness(sp.E, sp.L, Sub(p1.x, p0.x), norm);
      SpringTripsIn(p0, p1, ks, n);
      TripsInConcat(StiffnessTrips(ps, springs, norm, i - 1), SpringTrips(p0, p1, ks), n);
    }
  }

  /** With collisions of pinned particles skipped, every mass, stiffness and system triplet
      addresses a cell of the n x n system. */
  lemma AssembleIn(ps: seq<Particle>, springs: seq<Spring>, spheres: seq<Particle>, grav: Vec3,
                   n: nat, norm: Norm)
    requires AllDofsIn(ps, n) && AllSpringsIn(springs, ps)
    ensures var a := Assemble(ps, springs, spheres, grav, n, norm);
      TripsIn(a.mTrips, n) && TripsIn(a.kTrips, n)
  {
    var a0 := Assembly(Zeros(n), Zeros(n), [], []);
    ParticlePassIn(a0, ps, spheres, grav, norm, |ps|);
    var a1 := ParticlePass(a0, ps, spheres, grav, norm, |ps|);
    StiffnessTripsIn(ps, springs, norm, |springs|, n);
    TripsInConcat(a1.kTrips, StiffnessTrips(ps, springs, norm, |springs|), n);
  }

  // ---- mass entries ----

  /** The number of free particles among ps[0..i-1]. */
  function FreeCount(ps: seq<Particle>, i: int): (c: nat)
    requires 0 <= i <= |ps|
    ensures c <= i
  {
    if i == 0 then 0 else FreeCount(ps, i - 1) + (if ps[i - 1].fixed then 0 else 1)
  }

  lemma {:induction false} ContactPassKeepsMass(a: Assembly, p: Particle, spheres: seq<Particle>, j: int, norm: Norm)
    requires Sized(a, |a.f|) && DofIn(p, |a.f|) && 0 <= j <= |spheres|
    ensures ContactPass(a, p, spheres, j, norm).mTrips == a.mTrips
  {
  }

  /** The particle pass emits exactly three mass triplets per free particle and none for a
      pinned one. */
  lemma {:induction false} MassTripletCount(a: Assembly, ps: seq<Particle>, spheres: seq<Particle>,
                                            grav: Vec3, norm: Norm, i: int)
    requires Sized(a, |a.f|) && AllDofsIn(ps, |a.f|) && 0 <= i <= |ps|
    ensures |ParticlePass(a, ps, spheres, grav, norm, i).mTrips| == |a.mTrips| + 3 * FreeCount(ps, i)
    decreases i
  {
    if i > 0 {
      MassTripletCount(a, ps, spheres, grav, norm, i - 1);
    }
  }

  // ---- forces ----

  /** The sum of the three-entry segments of a force vector: the resultant force. */
  function Resultant(f: seq<real>): Vec3
    decreases |f|
  {
    if |f| < 3 then Zero3 else Add(Resultant(f[..|f| - 3]), Seg(f, |f| - 3))
  }

  /** Adding a to one aligned segment adds a to the resultant. */
  lemma {:induction false} ResultantAddSeg(f: seq<real>, i: int, a: Vec3)
    requires |f| % 3 == 0 && i % 3 == 0 && 0 <= i && i + 3 <= |f|
    ensures Resultant(AddSeg(f, i, a)) == Add(Resultant(f), a)
    decreases |f|
  {
    var g := AddSeg(f, i, a);
    var f', g' := f[..|f| - 3], g[..|f| - 3];
    if i == |f| - 3 {
      assert g' == f';
    } else {
      assert g' == AddSeg(f', i, a);
      ResultantAddSeg(f', i, a);
    }
  }

  /** A spring between two free particles pushes them with opposite forces, so it leaves the
      resultant force unchanged. */
  lemma SpringForcesCancel(a: Assembly, ps: seq<Particle>, sp: Spring, norm: Norm)
    requires SpringIn(sp, ps) && DofIn(ps[sp.p0], |a.f|) && DofIn(ps[sp.p1], |a.f|)
    requires !ps[sp.p0].fixed && !ps[sp.p1].fixed
    requires |a.f| % 3 == 0 && ps[sp.p0].i % 3 == 0 && ps[sp.p1].i % 3 == 0
    ensures Resultant(SpringVisit(a, ps, sp, norm).f) == Resultant(a.f)
  {
    var p0, p1 := ps[sp.p0], ps[sp.p1];
    PairCancels(a.f, p0, p1, SpringForce(sp.E, sp.L, Sub(p1.x, p0.x), norm));
  }

  lemma PairCancels(f: seq<real>, p0: Particle, p1: Particle, fs: Vec3)
    requires DofIn(p0, |f|) && DofIn(p1, |f|) && !p0.fixed && !p1.fixed
    requires |f| % 3 == 0 && p0.i % 3 == 0 && p1.i % 3 == 0
    ensures Resultant(ApplyPair(f, p0, p1, fs)) == Resultant(f)
  {
    var f0 := AddSeg(f, p0.i, fs);
    ResultantAddSeg(f, p0.i, fs);
    ResultantAddSeg(f0, p1.i, Neg(fs));
  }

  /** A spring at its rest length exerts no force. */
  lemma RestSpringForceZero(E: real, L: real, dx: Vec3, norm: Norm)
    requires norm(dx) == L
    ensures SpringForce(E, L, dx, norm) == Zero3
  {
    assert Div(norm(dx) - L, norm(dx)) == 0.0;
  }

  lemma AddSegZero(f: seq<real>, i: int)
    requires 0 <= i && i + 3 <= |f|
    ensures AddSeg(f, i, Zero3) == f
  {
  }

  /** At its rest length a spring leaves the force vector unchanged. */
  lemma RestSpringExertsNoForce(a: Assembly, ps: seq<Particle>, sp: Spring, norm: Norm)
    requires SpringIn(sp, ps) && DofIn(ps[sp.p0], |a.f|) && DofIn(ps[sp.p1], |a.f|)
    requires norm(Sub(ps[sp.p1].x, ps[sp.p0].x)) == sp.L
    ensures SpringVisit(a, ps, sp, norm).f == a.f
  {
    var p0, p1 := ps[sp.p0], ps[sp.p1];
    RestSpringForceZero(sp.E, sp.L, Sub(p1.x, p0.x), norm);
    assert Neg(Zero3) == Zero3;
    PairZero(a.f, p0, p1);
  }

  lemma PairZero(f: seq<real>, p0: Particle, p1: Particle)
    requires DofIn(p0, |f|) && DofIn(p1, |f|)
    ensures ApplyPair(f, p0, p1, Zero3) == f
  {
    assert Neg(Zero3) == Zero3;
    if !p0.fixed {
      AddSegZero(f, p0.i);
    }
    if !p1.fixed {
      AddSegZero(f, p1.i);
    }
  }
}
