/**
 * The cloth of A5 (Cloth.cpp): a rows x cols grid of particles joined by springs, with
 * the vertex buffers a renderer draws it from, and the linearly implicit time step.
 */
module ClothSim {
  import opened Linear
  import opened ClothGrid
  import opened ClothStep
  import opened ClothProperties
  import opened ClothLoops

  /** The collision radius every cloth particle gets. */
  const ParticleRadius := 0.02

  /** Particle k as the constructor creates it: at rest at its interpolated position,
      with an equal share of the mass, pinned with offset -1 or given its offset. */
  function GridParticle(rows: int, cols: int, c: Corners, mass: real, k: int): Particle
    requires rows > 1 && cols > 1
  {
    Particle(GridPosition(rows, cols, c, k / cols, k % cols), Zero3, mass / (rows * cols) as real,
             ParticleRadius, Pinned(cols, k), ParticleIndex(cols, k))
  }

  /** createSpring: a spring from p0 to p1 whose rest length is their distance at creation. */
  function CreateSpring(ps: seq<Particle>, l: Link, E: real, norm: Norm): (s: Spring)
    requires 0 <= l.a < |ps| && 0 <= l.b < |ps|
  {
    Spring(l.a, l.b, E, norm(Sub(ps[l.b].x, ps[l.a].x)))
  }

  /** The springs created for a list of links, in order. */
  function SpringsOf(ps: seq<Particle>, links: seq<Link>, E: real, norm: Norm): (r: seq<Spring>)
    requires LinksIn(links, |ps|)
    ensures |r| == |links|
  {
    seq(|links|, t requires 0 <= t < |links| => CreateSpring(ps, links[t], E, norm))
  }

  /** A spring created for particles at rest exerts no force until they move. */
  lemma CreatedSpringAtRest(ps: seq<Particle>, l: Link, E: real, norm: Norm, a: Assembly)
    requires 0 <= l.a < |ps| && 0 <= l.b < |ps|
    requires DofIn(ps[l.a], |a.f|) && DofIn(ps[l.b], |a.f|)
    ensures SpringVisit(a, ps, CreateSpring(ps, l, E, norm), norm).f == a.f
  {
    RestSpringExertsNoForce(a, ps, CreateSpring(ps, l, E, norm), norm);
  }

  /** The particles of a grid laid out as the constructor does it satisfy what the step
      relies on: every free particle's unknowns lie inside the system, in storage order and
      without overlap, at offsets that are multiples of three. */
  lemma GridLayout(rows: int, cols: int, ps: seq<Particle>)
    requires rows > 1 && cols > 1 && |ps| == rows * cols
    requires forall k :: 0 <= k < |ps| ==> ps[k].fixed == Pinned(cols, k) && ps[k].i == ParticleIndex(cols, k)
    ensures AllDofsIn(ps, SystemSize(rows, cols)) && Layout(ps)
    ensures forall k :: 0 <= k < |ps| && !ps[k].fixed ==> ps[k].i % 3 == 0
  {
    forall k | 0 <= k < |ps| && !ps[k].fixed
      ensures 0 <= ps[k].i && ps[k].i + 3 <= SystemSize(rows, cols) && ps[k].i % 3 == 0
    {
      var last := rows * cols - 1;
      assert !Pinned(cols, last) by {
        MulLe(2, rows, cols);
      }
      if k < last {
        DofLayout(rows, cols, k, last);
      }
      DofEnds(rows, cols);
      assert DofOffset(cols, k) >= 0;
    }
    forall k, k' | 0 <= k < k' < |ps| && !ps[k].fixed && !ps[k'].fixed
      ensures ps[k].i + 3 <= ps[k'].i
    {
      DofLayout(rows, cols, k, k');
    }
  }

  // ---- the constructor's loops ----

  /** The first |ps| particles are those of the grid. */
  ghost predicate ParticlesUpTo(ps: seq<Particle>, rows: int, cols: int, c: Corners, mass: real)
    requires rows > 1 && cols > 1
  {
    forall k :: 0 <= k < |ps| ==> ps[k] == GridParticle(rows, cols, c, mass, k)
  }

  /** Particle (i, j) of the grid, with its flat index resolved: pinned exactly at the two
      top corners, otherwise stored with its degree-of-freedom offset. */
  lemma GridParticleAt(rows: int, cols: int, c: Corners, mass: real, i: int, j: int)
    requires rows > 1 && cols > 1 && 0 <= i < rows && 0 <= j < cols
    ensures var pinned := i == 0 && (j == 0 || j == cols - 1);
      GridParticle(rows, cols, c, mass, i * cols + j) ==
        Particle(GridPosition(rows, cols, c, i, j), Zero3, mass / (rows * cols) as real, ParticleRadius,
                 pinned, if pinned then -1 else DofOffset(cols, i * cols + j))
  {
    GridCoords(cols, i, j);
    PinnedAtGrid(rows, cols, i, j);
  }

  /** The inner particle loop of the constructor, over the columns of row i, whose two
      end points x0 and x1 the outer loop has interpolated. */
  method BuildRow(ps: seq<Particle>, n: int, rows: int, cols: int, c: Corners, mass: real, i: int,
                  x0: Vec3, x1: Vec3) returns (ps': seq<Particle>, n': int)
    requires rows > 1 && cols > 1 && 0 <= i < rows
    requires |ps| == i * cols && n == DofOffset(cols, |ps|) && ParticlesUpTo(ps, rows, cols, c, mass)
    requires x0 == Lerp(c.x00, c.x10, GridParam(rows, i)) && x1 == Lerp(c.x01, c.x11, GridParam(rows, i))
    ensures |ps'| == i * cols + cols && n' == DofOffset(cols, |ps'|) && ParticlesUpTo(ps', rows, cols, c, mass)
  {
    ps', n' := ps, n;
    var nVerts := rows * cols;
    var j := 0;
    while j < cols
      invariant 0 <= j <= cols && |ps'| == i * cols + j && n' == DofOffset(cols, |ps'|)
      invariant ParticlesUpTo(ps', rows, cols, c, mass)
    {
      var v := j as real / (cols as real - 1.0);
      var x := Add(Scale(1.0 - v, x0), Scale(v, x1));
      GridParticleAt(rows, cols, c, mass, i, j);
      var p := Particle(x, Zero3, mass / nVerts as real, ParticleRadius, false, 0);
      if i == 0 && (j == 0 || j == cols - 1) {
        p := p.(fixed := true, i := -1);
      } else {
        p := p.(fixed := false, i := n');
        n' := n' + 3;
      }
      assert p == GridParticle(rows, cols, c, mass, |ps'|);
      ps' := ps' + [p];
      j := j + 1;
    }
  }

  /** The particle loop of the constructor: row by row, column by column. */
  method BuildParticles(rows: int, cols: int, c: Corners, mass: real) returns (ps: seq<Particle>, n: int)
    requires rows > 1 && cols > 1
    ensures |ps| == rows * cols && n == SystemSize(rows, cols)
    ensures forall k :: 0 <= k < |ps| ==> ps[k] == GridParticle(rows, cols, c, mass, k)
  {
    n := 0;
    ps := [];
    var i := 0;
    while i < rows
      invariant 0 <= i <= rows && |ps| == i * cols && n == DofOffset(cols, |ps|)
      invariant ParticlesUpTo(ps, rows, cols, c, mass)
    {
      var u := i as real / (rows as real - 1.0);
      var x0 := Add(Scale(1.0 - u, c.x00), Scale(u, c.x10));
      var x1 := Add(Scale(1.0 - u, c.x01), Scale(u, c.x11));
      ps, n := BuildRow(ps, n, rows, cols, c, mass, i, x0, x1);
      assert (i + 1) * cols == i * cols + cols;
      i := i + 1;
    }
    MulLe(2, rows, cols);
  }

  /** One spring family: for each line a < A and each b < B, a spring from
      k0 = a*sa + b*sb to k0 + d. */
  method AddFamily(springs: seq<Spring>, ps: seq<Particle>, E: real, norm: Norm,
                   A: int, B: int, sa: int, sb: int, d: int) returns (r: seq<Spring>)
    requires FamilyFits(A, B, sa, sb, d, |ps|)
    ensures LinksIn(FamilyLinks(A, B, sa, sb, d), |ps|)
    ensures r == springs + SpringsOf(ps, FamilyLinks(A, B, sa, sb, d), E, norm)
  {
    r := springs;
    ghost var links: seq<Link> := [];
    var a := 0;
    while a < A
      invariant 0 <= a <= A && links == FamilyLinks(a, B, sa, sb, d) && LinksIn(links, |ps|)
      invariant r == springs + SpringsOf(ps, links, E, norm)
    {
      var b := 0;
      while b < B
        invariant 0 <= b <= B && links == FamilyLinks(a, B, sa, sb, d) + LineLinks(a, b, sa, sb, d)
        invariant LinksIn(links, |ps|) && r == springs + SpringsOf(ps, links, E, norm)
      {
        var k0 := a * sa + b * sb;
        var k1 := k0 + d;
        FamilyLinkIn(a, b, A, B, sa, sb, d, |ps|);
        var l := Link(k0, k1);
        SpringsOfSnoc(ps, links, l, E, norm);
        r := r + [CreateSpring(ps, l, E, norm)];
        links := links + [l];
        b := b + 1;
      }
      a := a + 1;
    }
  }

  lemma FamilyLinkIn(a: int, b: int, A: int, B: int, sa: int, sb: int, d: int, N: int)
    requires FamilyFits(A, B, sa, sb, d, N) && 0 <= a < A && 0 <= b < B
    ensures 0 <= a * sa + b * sb < a * sa + b * sb + d < N
  {
    MulLe(a, A - 1, sa);
    MulLe(b, B - 1, sb);
    MulLe(0, a, sa);
    MulLe(0, b, sb);
  }

  lemma SpringsOfSnoc(ps: seq<Particle>, links: seq<Link>, l: Link, E: real, norm: Norm)
    requires LinksIn(links, |ps|) && 0 <= l.a < l.b < |ps|
    ensures LinksIn(links + [l], |ps|)
    ensures SpringsOf(ps, links + [l], E, norm) == SpringsOf(ps, links, E, norm) + [CreateSpring(ps, l, E, norm)]
  {
    assert forall t :: 0 <= t < |links| ==> (links + [l])[t] == links[t];
  }

  lemma SpringsOfConcat(ps: seq<Particle>, l: seq<Link>, l': seq<Link>, E: real, norm: Norm)
    requires LinksIn(l, |ps|) && LinksIn(l', |ps|)
    ensures LinksIn(l + l', |ps|)
    ensures SpringsOf(ps, l + l', E, norm) == SpringsOf(ps, l, E, norm) + SpringsOf(ps, l', E, norm)
  {
    LinksInConcat(l, l', |ps|);
    assert forall t :: |l| <= t < |l + l'| ==> (l + l')[t] == l'[t - |l|];
  }

  /** The shear springs: for each cell, k00 -> k11 and then k10 -> k01. */
  method AddShear(springs: seq<Spring>, ps: seq<Particle>, E: real, norm: Norm, rows: int, cols: int)
    returns (r: seq<Spring>)
    requires rows > 1 && cols > 1 && |ps| == rows * cols
    ensures LinksIn(ShearLinks(rows - 1, cols - 1, cols), |ps|)
    ensures r == springs + SpringsOf(ps, ShearLinks(rows - 1, cols - 1, cols), E, norm)
  {
    r := springs;
    ghost var links: seq<Link> := [];
    var i := 0;
    while i < rows - 1
      invariant 0 <= i <= rows - 1 && links == ShearLinks(i, cols - 1, cols) && LinksIn(links, |ps|)
      invariant r == springs + SpringsOf(ps, links, E, norm)
    {
      r := AddShearRow(r, ps, E, norm, rows, cols, i, springs, links);
      links := links + ShearLine(i, cols - 1, cols);
      i := i + 1;
    }
  }

  /** The inner loop of the shear springs over the cells of row i. */
  method AddShearRow(springs: seq<Spring>, ps: seq<Particle>, E: real, norm: Norm, rows: int, cols: int,
                     i: int, ghost pre: seq<Spring>, ghost links: seq<Link>)
    returns (r: seq<Spring>)
    requires rows > 1 && cols > 1 && |ps| == rows * cols && 0 <= i < rows - 1
    requires LinksIn(links, |ps|) && springs == pre + SpringsOf(ps, links, E, norm)
    ensures LinksIn(links + ShearLine(i, cols - 1, cols), |ps|)
    ensures r == pre + SpringsOf(ps, links + ShearLine(i, cols - 1, cols), E, norm)
  {
    r := springs;
    ghost var row: seq<Link> := [];
    assert links + row == links;
    var j := 0;
    while j < cols - 1
      invariant 0 <= j <= cols - 1 && row == ShearLine(i, j, cols)
      invariant LinksIn(links + row, |ps|) && r == pre + SpringsOf(ps, links + row, E, norm)
    {
      var k00 := i * cols + j;
      var k10 := k00 + 1;
      var k01 := k00 + cols;
      var k11 := k01 + 1;
      ShearCellStep(ps, E, norm, rows, cols, i, j, pre, links, row, r);
      r := r + [CreateSpring(ps, Link(k00, k11), E, norm), CreateSpring(ps, Link(k10, k01), E, norm)];
      row := row + [Link(k00, k11), Link(k10, k01)];
      j := j + 1;
    }
  }

  /** One cell of the shear row: its two springs extend the row's springs and links. */
  lemma ShearCellStep(ps: seq<Particle>, E: real, norm: Norm, rows: int, cols: int, i: int, j: int,
                      pre: seq<Spring>, links: seq<Link>, row: seq<Link>, r: seq<Spring>)
    requires rows > 1 && cols > 1 && |ps| == rows * cols && 0 <= i < rows - 1 && 0 <= j < cols - 1
    requires row == ShearLine(i, j, cols)
    requires LinksIn(links + row, |ps|) && r == pre + SpringsOf(ps, links + row, E, norm)
    ensures var k00 := i * cols + j;
      var l1, l2 := Link(k00, k00 + cols + 1), Link(k00 + 1, k00 + cols);
      0 <= k00 && k00 + cols + 1 < |ps|
      && row + [l1, l2] == ShearLine(i, j + 1, cols)
      && LinksIn(links + (row + [l1, l2]), |ps|)
      && r + [CreateSpring(ps, l1, E, norm), CreateSpring(ps, l2, E, norm)] ==
           pre + SpringsOf(ps, links + (row + [l1, l2]), E, norm)
  {
    var k00 := i * cols + j;
    var l1, l2 := Link(k00, k00 + cols + 1), Link(k00 + 1, k00 + cols);
    ShearCellIn(i, j, rows, cols);
    ShearLineSnoc(i, j, cols);
    SpringsOfSnoc(ps, links + row, l1, E, norm);
    SpringsOfSnoc(ps, links + row + [l1], l2, E, norm);
    assert links + (row + [l1, l2]) == links + row + [l1] + [l2];
  }

  lemma ShearLineSnoc(i: int, j: int, cols: int)
    requires 0 <= j
    ensures ShearLine(i, j + 1, cols) ==
      ShearLine(i, j, cols) + [Link(i * cols + j, i * cols + j + cols + 1), Link(i * cols + j + 1, i * cols + j + cols)]
  {
  }

  lemma ShearCellIn(i: int, j: int, rows: int, cols: int)
    requires rows > 1 && cols > 1 && 0 <= i < rows - 1 && 0 <= j < cols - 1
    ensures 0 <= i * cols + j && i * cols + j + cols + 1 < rows * cols
  {
    MulLe(i, rows - 2, cols);
    MulLe(0, i, cols);
    assert (rows - 2) * cols + cols == rows * cols - cols;
  }

  /** All five spring families, in the constructor's order. */
  method BuildSprings(ps: seq<Particle>, rows: int, cols: int, E: real, norm: Norm) returns (springs: seq<Spring>)
    requires rows > 1 && cols > 1 && |ps| == rows * cols
    ensures LinksIn(SpringLinks(rows, cols), |ps|)
    ensures springs == SpringsOf(ps, SpringLinks(rows, cols), E, norm)
  {
    FamiliesFit(rows, cols);
    var s1 := AddFamily([], ps, E, norm, rows, cols - 1, cols, 1, 1);
    var s2 := AddFamily(s1, ps, E, norm, cols, rows - 1, 1, cols, cols);
    var s3 := AddShear(s2, ps, E, norm, rows, cols);
    var s4 := AddFamily(s3, ps, E, norm, rows, cols - 2, cols, 1, 2);
    springs := AddFamily(s4, ps, E, norm, cols, rows - 2, 1, cols, 2 * cols);
    SpringsOfFive(ps, E, norm, s1, s2, s3, s4, springs, XLinks(rows, cols), YLinks(rows, cols),
                  ShearLinks(rows - 1, cols - 1, cols), XBendLinks(rows, cols), YBendLinks(rows, cols));
  }

  /** Appending the springs of five link lists one after the other gives the springs of
      their concatenation. */
  lemma SpringsOfFive(ps: seq<Particle>, E: real, norm: Norm, s1: seq<Spring>, s2: seq<Spring>,
                      s3: seq<Spring>, s4: seq<Spring>, s5: seq<Spring>,
                      l1: seq<Link>, l2: seq<Link>, l3: seq<Link>, l4: seq<Link>, l5: seq<Link>)
    requires LinksIn(l1, |ps|) && LinksIn(l2, |ps|) && LinksIn(l3, |ps|) && LinksIn(l4, |ps|) && LinksIn(l5, |ps|)
    requires s1 == [] + SpringsOf(ps, l1, E, norm) && s2 == s1 + SpringsOf(ps, l2, E, norm)
    requires s3 == s2 + SpringsOf(ps, l3, E, norm) && s4 == s3 + SpringsOf(ps, l4, E, norm)
    requires s5 == s4 + SpringsOf(ps, l5, E, norm)
    ensures LinksIn(l1 + l2 + l3 + l4 + l5, |ps|)
    ensures s5 == SpringsOf(ps, l1 + l2 + l3 + l4 + l5, E, norm)
  {
    SpringsOfConcat(ps, l1, l2, E, norm);
    SpringsOfConcat(ps, l1 + l2, l3, E, norm);
    SpringsOfConcat(ps, l1 + l2 + l3, l4, E, norm);
    SpringsOfConcat(ps, l1 + l2 + l3 + l4, l5, E, norm);
  }

  /** The first m vertices' texture coordinates: the (u, v) parameters each rest position is
      interpolated at. */
  ghost predicate TexUpTo(tex: seq<real>, rows: int, cols: int, m: int)
    requires rows > 1 && cols > 1
  {
    |tex| == 2 * m && forall k :: 0 <= k < m ==>
      tex[2 * k] == GridParam(rows, k / cols) && tex[2 * k + 1] == GridParam(cols, k % cols)
  }

  /** Pushing the coordinates of vertex (i, j) extends the prefix by one vertex. */
  lemma TexSnoc(tex: seq<real>, rows: int, cols: int, i: int, j: int)
    requires rows > 1 && cols > 1 && 0 <= i && 0 <= j < cols
    requires TexUpTo(tex, rows, cols, i * cols + j)
    ensures TexUpTo(tex + [GridParam(rows, i), GridParam(cols, j)], rows, cols, i * cols + j + 1)
  {
    GridCoords(cols, i, j);
    var m := i * cols + j;
    var t := tex + [GridParam(rows, i), GridParam(cols, j)];
    forall k | 0 <= k < m + 1
      ensures t[2 * k] == GridParam(rows, k / cols) && t[2 * k + 1] == GridParam(cols, k % cols)
    {
      if k < m {
        assert t[2 * k] == tex[2 * k] && t[2 * k + 1] == tex[2 * k + 1];
      }
    }
  }

  /** Every entry of a sequence lies in [0, 1]. */
  ghost predicate InUnit(s: seq<real>)
  {
    forall t :: 0 <= t < |s| ==> 0.0 <= s[t] <= 1.0
  }

  /** The texture coordinates, row by row: vertex k = i * cols + j gets (i / (rows - 1),
      j / (cols - 1)). */
  method BuildTexCoords(rows: int, cols: int) returns (tex: seq<real>)
    requires rows > 1 && cols > 1
    ensures |tex| == 2 * (rows * cols)
    ensures forall k :: 0 <= k < rows * cols ==>
      tex[2 * k] == GridParam(rows, k / cols) && tex[2 * k + 1] == GridParam(cols, k % cols)
    ensures InUnit(tex)
  {
    tex := [];
    var i := 0;
    while i < rows
      invariant 0 <= i <= rows && TexUpTo(tex, rows, cols, i * cols) && InUnit(tex)
    {
      var j := 0;
      while j < cols
        invariant 0 <= j <= cols && TexUpTo(tex, rows, cols, i * cols + j) && InUnit(tex)
      {
        TexSnoc(tex, rows, cols, i, j);
        tex := tex + [GridParam(rows, i), GridParam(cols, j)];
        j := j + 1;
      }
      assert (i + 1) * cols == i * cols + cols;
      i := i + 1;
    }
  }

  /** The element buffer: one triangle strip per row of cells, as pairs (k, k + cols). */
  method BuildElements(rows: int, cols: int) returns (ele: seq<int>)
    requires rows > 1 && cols > 1
    ensures |ele| == 2 * (cols * (rows - 1))
    ensures forall q :: 0 <= q < cols * (rows - 1) ==> ele[2 * q] == q && ele[2 * q + 1] == q + cols
    ensures forall t :: 0 <= t < |ele| ==> 0 <= ele[t] < rows * cols
  {
    ele := [];
    var i := 0;
    while i < rows - 1
      invariant 0 <= i <= rows - 1 && |ele| == 2 * (cols * i)
      invariant forall q :: 0 <= q < cols * i ==> ele[2 * q] == q && ele[2 * q + 1] == q + cols
    {
      ghost var base := cols * i;
      var j := 0;
      while j < cols
        invariant 0 <= j <= cols && |ele| == 2 * (base + j)
        invariant forall q :: 0 <= q < base + j ==> ele[2 * q] == q && ele[2 * q + 1] == q + cols
      {
        var k0 := i * cols + j;
        var k1 := k0 + cols;
        ele := ele + [k0];
        ele := ele + [k1];
        j := j + 1;
      }
      assert cols * (i + 1) == cols * i + cols;
      i := i + 1;
    }
    assert cols * (rows - 1) + cols == rows * cols;
    forall t | 0 <= t < |ele|
      ensures 0 <= ele[t] < rows * cols
    {
      var q := t / 2;
      assert t == 2 * q || t == 2 * q + 1;
    }
  }

  // ---- vertex normals ----

  /** The three entries of vertex k in a position or normal buffer. */
  function BufVec(s: seq<real>, k: int): Vec3
    requires 0 <= k && 3 * k + 3 <= |s|
  {
    Vec3(s[3 * k], s[3 * k + 1], s[3 * k + 2])
  }

  /** The buffer with vertex k's three entries replaced by x. */
  function SetVec(s: seq<real>, k: int, x: Vec3): (r: seq<real>)
    requires 0 <= k && 3 * k + 3 <= |s|
    ensures |r| == |s| && BufVec(r, k) == x
    ensures forall t :: 0 <= t < |s| && !(3 * k <= t < 3 * k + 3) ==> r[t] == s[t]
  {
    s[3 * k := x.x][3 * k + 1 := x.y][3 * k + 2 := x.z]
  }

  /** Storing a vertex leaves the other vertices of the buffer as they were. */
  lemma SetVecOthers(s: seq<real>, k: int, x: Vec3, k': int)
    requires 0 <= k && 3 * k + 3 <= |s| && 0 <= k' && 3 * k' + 3 <= |s| && k' != k
    ensures BufVec(SetVec(s, k, x), k') == BufVec(s, k')
  {
    var r := SetVec(s, k, x);
    assert r[3 * k'] == s[3 * k'] && r[3 * k' + 1] == s[3 * k' + 1] && r[3 * k' + 2] == s[3 * k' + 2];
  }

  /** The unit normal of the triangle spanned at x by the neighbours of link l (zero for a
      neighbour outside the grid, which `TrianglesInGrid` shows never happens). */
  function TriangleNormal(ps: seq<Particle>, x: Vec3, l: Link, norm: Norm): Vec3
  {
    if 0 <= l.a < |ps| && 0 <= l.b < |ps| then Normalized(norm, Cross(Sub(ps[l.a].x, x), Sub(ps[l.b].x, x)))
    else Zero3
  }

  /** The sum of the unit normals of the given triangles, in order. */
  function NormalSum(ps: seq<Particle>, x: Vec3, ts: seq<Link>, norm: Norm): Vec3
  {
    if |ts| == 0 then Zero3
    else Add(NormalSum(ps, x, ts[..|ts| - 1], norm), TriangleNormal(ps, x, ts[|ts| - 1], norm))
  }

  /** acc plus the normal of triangle l when it is present. */
  function AddIf(ps: seq<Particle>, x: Vec3, present: bool, l: Link, norm: Norm, acc: Vec3): Vec3
  {
    if present then Add(acc, TriangleNormal(ps, x, l, norm)) else acc
  }

  function CountIf(present: bool): int
  {
    if present then 1 else 0
  }

  lemma NormalSumOpt(ps: seq<Particle>, x: Vec3, ts: seq<Link>, c: bool, l: Link, norm: Norm)
    ensures NormalSum(ps, x, ts + OptLink(c, l), norm) == AddIf(ps, x, c, l, norm, NormalSum(ps, x, ts, norm))
    ensures |ts + OptLink(c, l)| == |ts| + CountIf(c)
  {
    if c {
      assert (ts + [l])[..|ts|] == ts;
    } else {
      assert ts + OptLink(c, l) == ts;
    }
  }

  /** The triangles of vertex (i, j), with its flat index k, the four tests and the four
      neighbour pairs named. */
  lemma TrianglesAt(rows: int, cols: int, i: int, j: int, k: int, c1: bool, c2: bool, c3: bool, c4: bool,
                    l1: Link, l2: Link, l3: Link, l4: Link)
    requires k == i * cols + j
    requires c1 == (j != cols - 1 && i != rows - 1) && c2 == (j != 0 && i != rows - 1)
    requires c3 == (j != 0 && i != 0) && c4 == (j != cols - 1 && i != 0)
    requires l1 == Link(k + 1, k + cols) && l2 == Link(k + cols, k - 1)
    requires l3 == Link(k - 1, k - cols) && l4 == Link(k - cols, k + 1)
    ensures Triangles(rows, cols, i, j) == OptLink(c1, l1) + OptLink(c2, l2) + OptLink(c3, l3) + OptLink(c4, l4)
  {
  }

  /** The sum and count of the triangle normals around vertex (i, j), test by test. */
  lemma TrianglesSum(ps: seq<Particle>, x: Vec3, rows: int, cols: int, i: int, j: int, k: int,
                     c1: bool, c2: bool, c3: bool, c4: bool, l1: Link, l2: Link, l3: Link, l4: Link, norm: Norm)
    requires k == i * cols + j
    requires c1 == (j != cols - 1 && i != rows - 1) && c2 == (j != 0 && i != rows - 1)
    requires c3 == (j != 0 && i != 0) && c4 == (j != cols - 1 && i != 0)
    requires l1 == Link(k + 1, k + cols) && l2 == Link(k + cols, k - 1)
    requires l3 == Link(k - 1, k - cols) && l4 == Link(k - cols, k + 1)
    ensures NormalSum(ps, x, Triangles(rows, cols, i, j), norm) ==
      AddIf(ps, x, c4, l4, norm, AddIf(ps, x, c3, l3, norm, AddIf(ps, x, c2, l2, norm, AddIf(ps, x, c1, l1, norm, Zero3))))
    ensures |Triangles(rows, cols, i, j)| == CountIf(c1) + CountIf(c2) + CountIf(c3) + CountIf(c4)
  {
    TrianglesAt(rows, cols, i, j, k, c1, c2, c3, c4, l1, l2, l3, l4);
    var t1 := OptLink(c1, l1);
    var t2 := t1 + OptLink(c2, l2);
    var t3 := t2 + OptLink(c3, l3);
    NormalSumOpt(ps, x, [], c1, l1, norm);
    assert [] + t1 == t1;
    NormalSumOpt(ps, x, t1, c2, l2, norm);
    NormalSumOpt(ps, x, t2, c3, l3, norm);
    NormalSumOpt(ps, x, t3, c4, l4, norm);
  }

  /** The normal of vertex (i, j) is the average of the four tests' contributions. */
  lemma VertexNormalByTests(ps: seq<Particle>, rows: int, cols: int, i: int, j: int, k: int,
                            c1: bool, c2: bool, c3: bool, c4: bool, l1: Link, l2: Link, l3: Link, l4: Link, norm: Norm)
    requires rows > 1 && cols > 1 && |ps| == rows * cols && 0 <= i < rows && 0 <= j < cols
    requires k == i * cols + j
    requires c1 == (j != cols - 1 && i != rows - 1) && c2 == (j != 0 && i != rows - 1)
    requires c3 == (j != 0 && i != 0) && c4 == (j != cols - 1 && i != 0)
    requires l1 == Link(k + 1, k + cols) && l2 == Link(k + cols, k - 1)
    requires l3 == Link(k - 1, k - cols) && l4 == Link(k - cols, k + 1)
    ensures 0 <= k < |ps| && CountIf(c1) + CountIf(c2) + CountIf(c3) + CountIf(c4) > 0
    ensures VertexNormal(ps, rows, cols, i, j, norm) ==
      Average(norm, AddIf(ps, ps[k].x, c4, l4, norm, AddIf(ps, ps[k].x, c3, l3, norm,
                      AddIf(ps, ps[k].x, c2, l2, norm, AddIf(ps, ps[k].x, c1, l1, norm, Zero3)))),
              CountIf(c1) + CountIf(c2) + CountIf(c3) + CountIf(c4))
  {
    GridBounds(rows, cols, i, j);
    TriangleCount(rows, cols, i, j);
    TrianglesSum(ps, ps[k].x, rows, cols, i, j, k, c1, c2, c3, c4, l1, l2, l3, l4, norm);
  }

  /** One of the four triangle tests of the normal loop: when the triangle exists, its unit
      normal joins the sum and the count goes up by one. */
  method AddTriangle(particles: seq<Particle>, x: Vec3, present: bool, l: Link, norm: Norm,
                     nor: Vec3, count: int) returns (nor': Vec3, count': int)
    ensures nor' == AddIf(particles, x, present, l, norm, nor)
    ensures count' == count + CountIf(present)
  {
    nor', count' := nor, count;
    if present {
      nor' := Add(nor, TriangleNormal(particles, x, l, norm));
      count' := count + 1;
    }
  }

  /** The body of the normal loop for vertex (i, j): up to four triangles, each added when
      both of its neighbours exist, then the average normalised. */
  method VertexNormalAt(particles: seq<Particle>, rows: int, cols: int, i: int, j: int, norm: Norm) returns (nor: Vec3)
    requires rows > 1 && cols > 1 && |particles| == rows * cols && 0 <= i < rows && 0 <= j < cols
    ensures nor == VertexNormal(particles, rows, cols, i, j, norm)
  {
    GridBounds(rows, cols, i, j);
    TriangleCount(rows, cols, i, j);
    var k := i * cols + j;
    var ku0, ku1, kv0, kv1 := k - 1, k + 1, k - cols, k + cols;
    var x := particles[k].x;
    var count := 0;
    var c1, c2 := j != cols - 1 && i != rows - 1, j != 0 && i != rows - 1;
    var c3, c4 := j != 0 && i != 0, j != cols - 1 && i != 0;
    var l1, l2, l3, l4 := Link(ku1, kv1), Link(kv1, ku0), Link(ku0, kv0), Link(kv0, ku1);
    nor, count := AddTriangle(particles, x, c1, l1, norm, Zero3, 0);
    nor, count := AddTriangle(particles, x, c2, l2, norm, nor, count);
    nor, count := AddTriangle(particles, x, c3, l3, norm, nor, count);
    nor, count := AddTriangle(particles, x, c4, l4, norm, nor, count);
    VertexNormalByTests(particles, rows, cols, i, j, k, c1, c2, c3, c4, l1, l2, l3, l4, norm);
    ghost var sum := nor;
    nor := Scale(1.0 / count as real, nor);
    nor := Normalized(norm, nor);
    assert nor == Average(norm, sum, count);
  }

  /** The normal of vertex (i, j): the normalised average of the unit normals of the 1, 2 or
      4 triangles around it. */
  function VertexNormal(ps: seq<Particle>, rows: int, cols: int, i: int, j: int, norm: Norm): Vec3
    requires rows > 1 && cols > 1 && |ps| == rows * cols && 0 <= i < rows && 0 <= j < cols
  {
    GridBounds(rows, cols, i, j);
    TriangleCount(rows, cols, i, j);
    var ts := Triangles(rows, cols, i, j);
    Average(norm, NormalSum(ps, ps[i * cols + j].x, ts, norm), |ts|)
  }

  /** The normalised mean of count summed unit normals. */
  function Average(norm: Norm, sum: Vec3, count: int): Vec3
    requires count > 0
  {
    Normalized(norm, Scale(1.0 / count as real, sum))
  }

  /** The normal of the vertex with flat index k, at row k / cols and column k % cols. */
  function NormalAt(ps: seq<Particle>, rows: int, cols: int, k: int, norm: Norm): Vec3
    requires rows > 1 && cols > 1 && |ps| == rows * cols && 0 <= k < rows * cols
  {
    FlatCoords(rows, cols, k);
    VertexNormal(ps, rows, cols, k / cols, k % cols, norm)
  }

  /** The normals of all vertices, in flat-index order. */
  function Normals(ps: seq<Particle>, rows: int, cols: int, norm: Norm): (r: seq<Vec3>)
    requires rows > 1 && cols > 1 && |ps| == rows * cols
    ensures |r| == rows * cols
  {
    seq(rows * cols, k requires 0 <= k < rows * cols => NormalAt(ps, rows, cols, k, norm))
  }

  /** The positions of all particles, in storage order. */
  function Positions(ps: seq<Particle>): (r: seq<Vec3>)
    ensures |r| == |ps| && forall k :: 0 <= k < |ps| ==> r[k] == ps[k].x
  {
    seq(|ps|, k requires 0 <= k < |ps| => ps[k].x)
  }

  /** Entry k of the normals is the normal of the vertex at row i, column j. */
  lemma NormalsAt(ps: seq<Particle>, rows: int, cols: int, norm: Norm, i: int, j: int)
    requires rows > 1 && cols > 1 && |ps| == rows * cols && 0 <= i < rows && 0 <= j < cols
    ensures 0 <= i * cols + j < rows * cols
    ensures Normals(ps, rows, cols, norm)[i * cols + j] == VertexNormal(ps, rows, cols, i, j, norm)
  {
    var k := i * cols + j;
    GridBounds(rows, cols, i, j);
    GridCoords(cols, i, j);
    assert k / cols == i && k % cols == j;
    assert Normals(ps, rows, cols, norm)[k] == NormalAt(ps, rows, cols, k, norm);
  }

  /** Entries 0 .. 3m of buffer s hold the first m vectors of vs. */
  ghost predicate Shown(s: seq<real>, vs: seq<Vec3>, m: int)
    requires 0 <= m <= |vs| && 3 * m <= |s|
  {
    forall k :: 0 <= k < m ==> BufVec(s, k) == vs[k]
  }

  /** Storing vector m extends the shown prefix by one. */
  lemma ShownSnoc(s: seq<real>, vs: seq<Vec3>, m: int)
    requires 0 <= m < |vs| && 3 * m + 3 <= |s| && Shown(s, vs, m)
    ensures Shown(SetVec(s, m, vs[m]), vs, m + 1)
  {
    forall k | 0 <= k < m
      ensures BufVec(SetVec(s, m, vs[m]), k) == vs[k]
    {
      SetVecOthers(s, m, vs[m], k);
    }
  }

  /** Stores x as vertex k of buffer a. */
  method WriteVec(a: array<real>, k: int, x: Vec3)
    requires 0 <= k && 3 * k + 3 <= a.Length
    modifies a
    ensures a[..] == SetVec(old(a[..]), k, x)
  {
    a[3 * k + 0] := x.x;
    a[3 * k + 1] := x.y;
    a[3 * k + 2] := x.z;
  }

  /** The inner loop of the position pass over the columns of row i. */
  method WritePositionRow(buf: array<real>, ps: seq<Particle>, rows: int, cols: int, i: int, ghost xs: seq<Vec3>)
    requires rows > 1 && cols > 1 && |ps| == rows * cols && buf.Length == 3 * (rows * cols) && 0 <= i < rows
    requires xs == Positions(ps)
    requires 0 <= i * cols && i * cols + cols <= rows * cols && Shown(buf[..], xs, i * cols)
    modifies buf
    ensures Shown(buf[..], xs, i * cols + cols)
  {
    var j := 0;
    while j < cols
      invariant 0 <= j <= cols && Shown(buf[..], xs, i * cols + j)
    {
      var k := i * cols + j;
      ShownSnoc(buf[..], xs, k);
      WriteVec(buf, k, ps[k].x);
      j := j + 1;
    }
  }

  /** The inner loop of the normal pass over the columns of row i. */
  method WriteNormalRow(buf: array<real>, ps: seq<Particle>, rows: int, cols: int, norm: Norm, i: int,
                        ghost ns: seq<Vec3>)
    requires rows > 1 && cols > 1 && |ps| == rows * cols && buf.Length == 3 * (rows * cols) && 0 <= i < rows
    requires ns == Normals(ps, rows, cols, norm)
    requires 0 <= i * cols && i * cols + cols <= rows * cols && Shown(buf[..], ns, i * cols)
    modifies buf
    ensures Shown(buf[..], ns, i * cols + cols)
  {
    var j := 0;
    while j < cols
      invariant 0 <= j <= cols && Shown(buf[..], ns, i * cols + j)
    {
      var nor := VertexNormalAt(ps, rows, cols, i, j, norm);
      var k := i * cols + j;
      NormalsAt(ps, rows, cols, norm, i, j);
      ShownSnoc(buf[..], ns, k);
      WriteVec(buf, k, nor);
      j := j + 1;
    }
  }

  /** The position pass of updatePosNor, row by row. */
  method WritePositions(buf: array<real>, ps: seq<Particle>, rows: int, cols: int)
    requires rows > 1 && cols > 1 && |ps| == rows * cols && buf.Length == 3 * (rows * cols)
    modifies buf
    ensures Shown(buf[..], Positions(ps), rows * cols)
  {
    ghost var xs := Positions(ps);
    var i := 0;
    while i < rows
      invariant 0 <= i <= rows && Shown(buf[..], xs, i * cols)
    {
      MulLe(0, i, cols);
      MulLe(i + 1, rows, cols);
      WritePositionRow(buf, ps, rows, cols, i, xs);
      assert (i + 1) * cols == i * cols + cols;
      i := i + 1;
    }
  }

  /** The normal pass of updatePosNor, row by row. */
  method WriteNormals(buf: array<real>, ps: seq<Particle>, rows: int, cols: int, norm: Norm)
    requires rows > 1 && cols > 1 && |ps| == rows * cols && buf.Length == 3 * (rows * cols)
    modifies buf
    ensures Shown(buf[..], Normals(ps, rows, cols, norm), rows * cols)
  {
    ghost var ns := Normals(ps, rows, cols, norm);
    var i := 0;
    while i < rows
      invariant 0 <= i <= rows && Shown(buf[..], ns, i * cols)
    {
      MulLe(0, i, cols);
      MulLe(i + 1, rows, cols);
      WriteNormalRow(buf, ps, rows, cols, norm, i, ns);
      assert (i + 1) * cols == i * cols + cols;
      i := i + 1;
    }
  }

  class Cloth {
    const rows: int
    const cols: int
    /** The number of unknowns, three per free particle. */
    const n: int
    /** The vector norm the cloth's physics is computed with. */
    const norm: Norm
    const springs: seq<Spring>
    /** Vertex positions and normals, three entries per particle. */
    const posBuf: array<real>
    const norBuf: array<real>
    /** Texture coordinates, two per particle, and the triangle-strip indices. */
    const texBuf: seq<real>
    const eleBuf: seq<int>

    var particles: seq<Particle>
    /** Velocity and force vectors of the free particles' unknowns. */
    var v: seq<real>
    var f: seq<real>
    /** The mass and stiffness matrices of the last step, as triplet lists. */
    var M: seq<Triplet>
    var K: seq<Triplet>

    /** The layout every operation keeps. */
    ghost predicate Valid()
      reads this
    {
      rows > 1 && cols > 1 && n == SystemSize(rows, cols) && |particles| == rows * cols
      && (forall k :: 0 <= k < |particles| ==>
            particles[k].fixed == Pinned(cols, k) && particles[k].i == ParticleIndex(cols, k))
      && Ordered(springs, particles) && AllSpringsIn(springs, particles) && AllDofsIn(particles, n)
      && |v| == n && |f| == n
      && posBuf.Length == 3 * (rows * cols) && norBuf.Length == 3 * (rows * cols) && posBuf != norBuf
    }

    /** The buffers show the current particles. */
    ghost predicate Drawn()
      reads this, posBuf, norBuf
      requires Valid()
    {
      Shown(posBuf[..], Positions(particles), rows * cols) && Shown(norBuf[..], Normals(particles, rows, cols, norm), rows * cols)
    }

    constructor (rows: int, cols: int, c: Corners, mass: real, stiffness: real, norm: Norm)
      requires rows > 1 && cols > 1 && mass > 0.0 && stiffness > 0.0
      ensures Valid() && Drawn()
      ensures this.rows == rows && this.cols == cols && this.norm == norm
      ensures forall k :: 0 <= k < |particles| ==> particles[k] == GridParticle(rows, cols, c, mass, k)
      ensures LinksIn(SpringLinks(rows, cols), |particles|)
      ensures springs == SpringsOf(particles, SpringLinks(rows, cols), stiffness, norm)
      ensures |texBuf| == 2 * (rows * cols)
      ensures forall k :: 0 <= k < rows * cols ==>
        texBuf[2 * k] == GridParam(rows, k / cols) && texBuf[2 * k + 1] == GridParam(cols, k % cols)
      ensures |eleBuf| == 2 * (cols * (rows - 1))
      ensures forall q :: 0 <= q < cols * (rows - 1) ==> eleBuf[2 * q] == q && eleBuf[2 * q + 1] == q + cols
      ensures fresh(posBuf) && fresh(norBuf)
    {
      this.rows := rows;
      this.cols := cols;
      this.norm := norm;
      var ps, n := BuildParticles(rows, cols, c, mass);
      this.n := n;
      particles := ps;
      GridLayout(rows, cols, ps);
      var sp := BuildSprings(ps, rows, cols, stiffness, norm);
      springs := sp;
      v := Zeros(n);
      f := Zeros(n);
      M := [];
      K := [];
      posBuf := new real[3 * (rows * cols)];
      norBuf := new real[3 * (rows * cols)];
      var tex := BuildTexCoords(rows, cols);
      texBuf := tex;
      var ele := BuildElements(rows, cols);
      eleBuf := ele;
      new;
      UpdatePosNor();
    }

    /** One linearly implicit Euler step of size h under gravity grav, with collisions
        against the given spheres: assemble f, v, M and K from the particles and springs,
        solve (M - h^2 K) v = M v + h f with the conjugate-gradient solver, starting from the
        previous velocity, then move every free particle and redraw. */
    method Step(h: real, grav: Vec3, spheres: seq<Particle>, solve: SparseSystem -> seq<real>)
      requires Valid()
      requires forall sys :: |solve(sys)| == sys.n
      modifies this, posBuf, norBuf
      ensures Valid() && Drawn()
      ensures var a := Assemble(old(particles), springs, spheres, grav, n, norm);
        f == a.f && M == a.mTrips && K == a.kTrips && v == solve(System(a, h, old(v)))
      ensures |particles| == |old(particles)|
      ensures forall k :: 0 <= k < |particles| ==> particles[k] == Advance(old(particles)[k], v, h)
    {
      Integrate(h, grav, spheres, solve);
      UpdatePosNor();
    }

    /** Everything step does before it redraws. */
    method Integrate(h: real, grav: Vec3, spheres: seq<Particle>, solve: SparseSystem -> seq<real>)
      requires Valid()
      requires forall sys :: |solve(sys)| == sys.n
      modifies this
      ensures Valid()
      ensures var a := Assemble(old(particles), springs, spheres, grav, n, norm);
        f == a.f && M == a.mTrips && K == a.kTrips && v == solve(System(a, h, old(v)))
      ensures |particles| == |old(particles)|
      ensures forall k :: 0 <= k < |particles| ==> particles[k] == Advance(old(particles)[k], v, h)
    {
      var pv := v;
      var a := AssembleStep(particles, springs, spheres, grav, n, norm);
      var nv := solve(System(a, h, pv));
      var ps := AdvanceAll(particles, nv, h);
      forall k | 0 <= k < |ps|
        ensures ps[k].fixed == Pinned(cols, k) && ps[k].i == ParticleIndex(cols, k) && DofIn(ps[k], n)
      {
        AdvanceProperties(particles[k], nv, h);
      }
      M, K, f, v, particles := a.mTrips, a.kTrips, a.f, nv, ps;
    }

    /** Copies each particle's position into posBuf and its vertex normal into norBuf. */
    method UpdatePosNor()
      requires Valid()
      modifies posBuf, norBuf
      ensures Valid() && Drawn()
    {
      WritePositions(posBuf, particles, rows, cols);
      ghost var pos := posBuf[..];
      WriteNormals(norBuf, particles, rows, cols, norm);
      assert posBuf[..] == pos;
    }
  }
}
