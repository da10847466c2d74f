/**
 * The loops of the cloth's time step (Cloth::step in Cloth.cpp), each proved to compute the
 * pass that ClothStep defines as a function: the particle loop with its inner loop over the
 * spheres, the spring loop with its nested loops over the stiffness block, and the final loop
 * that writes the solved velocities back into the particles.
 */
module ClothLoops {
  import opened Linear
  import opened ClothStep

  // ---- the particle loop ----

  /** The inner loop over the spheres for particle p. */
  method AddContacts(a: Assembly, p: Particle, spheres: seq<Particle>, norm: Norm) returns (r: Assembly)
    requires Sized(a, |a.f|) && DofIn(p, |a.f|)
    ensures r == ContactPass(a, p, spheres, |spheres|, norm)
  {
    r := a;
    var j := 0;
    while j < |spheres|
      invariant 0 <= j <= |spheres|
      invariant r == ContactPass(a, p, spheres, j, norm)
    {
      var s := spheres[j];
      var dx := Sub(p.x, s.x);
      var l := norm(dx);
      var d := p.r + s.r - l;
      if d > 0.0 && !p.fixed {
        r := r.(f := AddSeg(r.f, p.i, Scale(Div(CollisionStiffness * d, l), dx)),
                kTrips := r.kTrips + DiagTrips(p.i, CollisionStiffness * d));
      }
      j := j + 1;
    }
  }

  /** The loop over the particles: collisions, then gravity, velocity and mass of each free
      particle. */
  method AddParticleTerms(a0: Assembly, ps: seq<Particle>, spheres: seq<Particle>, grav: Vec3,
                          norm: Norm) returns (a: Assembly)
    requires Sized(a0, |a0.f|) && AllDofsIn(ps, |a0.f|)
    ensures a == ParticlePass(a0, ps, spheres, grav, norm, |ps|)
  {
    a := a0;
    var i := 0;
    while i < |ps|
      invariant 0 <= i <= |ps|
      invariant a == ParticlePass(a0, ps, spheres, grav, norm, i)
    {
      var p := ps[i];
      a := AddContacts(a, p, spheres, norm);
      if !p.fixed {
        a := a.(f := AddSeg(a.f, p.i, Scale(p.m, grav)), v := SetSeg(a.v, p.i, p.v),
                mTrips := a.mTrips + DiagTrips(p.i, p.m));
      }
      i := i + 1;
    }
  }

  // ---- the spring loop ----

  /** The nested loops pushing -Ks(j, k) at (b + j, b + k). */
  method PushDiagBlock(trips: seq<Triplet>, b: int, ks: Mat3) returns (r: seq<Triplet>)
    ensures r == trips + DiagBlock(b, ks)
  {
    r := trips;
    for j := 0 to 3
      invariant r == trips + DiagBlock(b, ks)[..3 * j]
    {
      for k := 0 to 3
        invariant r == trips + DiagBlock(b, ks)[..3 * j + k]
      {
        assert DiagBlock(b, ks)[..3 * j + k + 1] == DiagBlock(b, ks)[..3 * j + k] + [DiagBlock(b, ks)[3 * j + k]];
        r := r + [Triplet(b + j, b + k, -At3(ks, j, k))];
      }
    }
    assert DiagBlock(b, ks)[..9] == DiagBlock(b, ks);
  }

  /** The nested loops pushing Ks(j, k) at (b0 + j, b1 + k) and at (b1 + j, b0 + k). */
  method PushCrossBlock(trips: seq<Triplet>, b0: int, b1: int, ks: Mat3) returns (r: seq<Triplet>)
    ensures r == trips + CrossBlock(b0, b1, ks)
  {
    r := trips;
    for j := 0 to 3
      invariant r == trips + CrossBlock(b0, b1, ks)[..6 * j]
    {
      for k := 0 to 3
        invariant r == trips + CrossBlock(b0, b1, ks)[..6 * j + 2 * k]
      {
        CrossBlockPrefix(b0, b1, ks, j, k);
        r := r + [Triplet(b0 + j, b1 + k, At3(ks, j, k))];
        r := r + [Triplet(b1 + j, b0 + k, At3(ks, j, k))];
      }
    }
    assert CrossBlock(b0, b1, ks)[..18] == CrossBlock(b0, b1, ks);
  }

  /** The coupling block grows by the two mirrored entries of (j, k) at a time. */
  lemma CrossBlockPrefix(b0: int, b1: int, ks: Mat3, j: int, k: int)
    requires 0 <= j < 3 && 0 <= k < 3
    ensures CrossBlock(b0, b1, ks)[..6 * j + 2 * k + 2]
         == CrossBlock(b0, b1, ks)[..6 * j + 2 * k]
            + [Triplet(b0 + j, b1 + k, At3(ks, j, k)), Triplet(b1 + j, b0 + k, At3(ks, j, k))]
  {
    var t, u := 6 * j + 2 * k, 3 * j + k;
    var cb := CrossBlock(b0, b1, ks);
    assert t / 2 == u && t % 2 == 0;
    assert (t + 1) / 2 == u && (t + 1) % 2 == 1;
    assert u / 3 == j && u % 3 == k;
    assert cb[..t + 2] == cb[..t] + [cb[t], cb[t + 1]];
  }

  /** The stiffness triplets of one spring: the diagonal block of each free end, then the
      coupling block when both ends are free. */
  method PushSpringTrips(trips: seq<Triplet>, p0: Particle, p1: Particle, ks: Mat3)
    returns (r: seq<Triplet>)
    ensures r == trips + SpringTrips(p0, p1, ks)
  {
    r := trips;
    ghost var d0: seq<Triplet>, d1: seq<Triplet>, c: seq<Triplet> := [], [], [];
    if !p0.fixed {
      r := PushDiagBlock(r, p0.i, ks);
      d0 := DiagBlock(p0.i, ks);
    }
    if !p1.fixed {
      r := PushDiagBlock(r, p1.i, ks);
      d1 := DiagBlock(p1.i, ks);
    }
    assert r == trips + d0 + d1;
    if !p0.fixed && !p1.fixed {
      r := PushCrossBlock(r, p0.i, p1.i, ks);
      c := CrossBlock(p0.i, p1.i, ks);
    }
    assert r == trips + d0 + d1 + c;
    AppendAssoc(trips, d0, d1);
    AppendAssoc(trips, d0 + d1, c);
  }

  /** One iteration of the spring loop: the spring force on both free ends and the stiffness
      blocks of the spring. */
  method AddSpring(a: Assembly, ps: seq<Particle>, sp: Spring, norm: Norm) returns (r: Assembly)
    requires AllDofsIn(ps, |a.f|) && SpringIn(sp, ps)
    ensures r == SpringVisit(a, ps, sp, norm)
  {
    var p0, p1 := ps[sp.p0], ps[sp.p1];
    assert DofIn(p0, |a.f|) && DofIn(p1, |a.f|);
    var dx := Sub(p1.x, p0.x);
    var l := norm(dx);
    var lscale := Div(l - sp.L, l);
    var fs := Scale(sp.E * lscale, dx);
    var f := a.f;
    if !p0.fixed {
      f := AddSeg(f, p0.i, fs);
    }
    if !p1.fixed {
      f := AddSeg(f, p1.i, Neg(fs));
    }
    var ks := SpringStiffness(sp.E, sp.L, dx, norm);
    var kt := PushSpringTrips(a.kTrips, p0, p1, ks);
    assert fs == SpringForce(sp.E, sp.L, dx, norm);
    assert f == ApplyPair(a.f, p0, p1, fs);
    r := a.(f := f, kTrips := kt);
  }

  /** The loop over the springs. */
  method AddSpringTerms(a0: Assembly, ps: seq<Particle>, springs: seq<Spring>, norm: Norm)
    returns (a: Assembly)
    requires AllDofsIn(ps, |a0.f|) && AllSpringsIn(springs, ps)
    ensures a == SpringPass(a0, ps, springs, norm, |springs|)
  {
    a := a0;
    var i := 0;
    while i < |springs|
      invariant 0 <= i <= |springs|
      invariant a == SpringPass(a0, ps, springs, norm, i) && |a.f| == |a0.f|
    {
      a := AddSpring(a, ps, springs[i], norm);
      i := i + 1;
    }
  }

  /** The two assembly loops of step, from zeroed f and v and empty triplet lists. */
  method AssembleStep(ps: seq<Particle>, springs: seq<Spring>, spheres: seq<Particle>, grav: Vec3,
                      n: nat, norm: Norm) returns (a: Assembly)
    requires AllDofsIn(ps, n) && AllSpringsIn(springs, ps)
    ensures a == Assemble(ps, springs, spheres, grav, n, norm)
  {
    var a0 := Assembly(Zeros(n), Zeros(n), [], []);
    var a1 := AddParticleTerms(a0, ps, spheres, grav, norm);
    a := AddSpringTerms(a1, ps, springs, norm);
  }

  // ---- writing the solution back ----

  /** A free particle takes its segment of the solved velocity and moves by h times it; a
      pinned particle keeps its state. */
  function Advance(p: Particle, v: seq<real>, h: real): Particle
    requires DofIn(p, |v|)
  {
    if p.fixed then p
    else
      var nv := Seg(v, p.i);
      p.(v := nv, x := Add(p.x, Scale(h, nv)))
  }

  /** Advancing keeps what the layout depends on, keeps pinned particles where they are, and
      moves a free particle by h times its new velocity (linearly implicit Euler). */
  lemma AdvanceProperties(p: Particle, v: seq<real>, h: real)
    requires DofIn(p, |v|)
    ensures var q := Advance(p, v, h);
      q.fixed == p.fixed && q.i == p.i && q.m == p.m && q.r == p.r
      && (p.fixed ==> q == p)
      && (!p.fixed ==> q.v == Seg(v, p.i) && Sub(q.x, p.x) == Scale(h, q.v))
  {
  }

  /** The final loop of step over the particles. */
  method AdvanceAll(ps: seq<Particle>, v: seq<real>, h: real) returns (qs: seq<Particle>)
    requires AllDofsIn(ps, |v|)
    ensures |qs| == |ps| && forall k :: 0 <= k < |ps| ==> qs[k] == Advance(ps[k], v, h)
  {
    qs := ps;
    var i := 0;
    while i < |ps|
      invariant 0 <= i <= |ps| && |qs| == |ps|
      invariant forall k :: 0 <= k < i ==> qs[k] == Advance(ps[k], v, h)
      invariant forall k :: i <= k < |ps| ==> qs[k] == ps[k]
    {
      var p := qs[i];
      if !p.fixed {
        var nv := Seg(v, p.i);
        qs := qs[i := p.(v := nv, x := Add(p.x, Scale(h, nv)))];
      }
      i := i + 1;
    }
  }
}
