/**
 * A skinned mesh (A2 ShapeSkin.cpp): the bind-pose vertex buffers, the element buffer
 * flattened from the OBJ loader's faces, and the skinning attachment that packs each vertex's
 * (bone, weight) influences into a row of twelve slots.  Linear blend skinning computes each
 * vertex of a frame as the weighted sum of its live slots' animation matrices applied to the
 * bind pose.
 *
 * The OBJ loader, tinyobj::LoadObj, is a parameter: its result or its failure.  The
 * attachment file is given by its valid lines, as getNextValidLine returns them.
 */
module Skinning {
  import opened Linear
  import opened LineInput
  import opened TextureMatrices
  import opened Skeleton

  // ---- the attachment layout ----

  /** loadAttachment sets maxWeights to this, whatever the file's header says. */
  const MaxWeights := 12

  /** The vertex count of an attachment header line, its first number. */
  function VertexCountOf(header: string, convert: Convert): int
  {
    IntAt(Words(header), 0, convert)
  }

  /** The number of influences a vertex line lists, its first number. */
  function InfluenceCount(ws: seq<string>, convert: Convert): int
  {
    IntAt(ws, 0, convert)
  }

  /** The bone of slot s of the row of a vertex line: the bone of pair s when the line lists
      that many influences, the padding 0 otherwise. */
  function SlotBone(ws: seq<string>, s: int, convert: Convert): int
  {
    if s < InfluenceCount(ws, convert) then IntAt(ws, 1 + 2 * s, convert) else 0
  }

  /** The weight of slot s of the row of a vertex line: the weight of pair s, or the padding
      0.0. */
  function SlotWeight(ws: seq<string>, s: int, convert: Convert): real
  {
    if s < InfluenceCount(ws, convert) then RealAt(ws, 2 + 2 * s, convert) else 0.0
  }

  /** An attachment whose valid lines are vs loads: the header, a non-negative vertex count
      whose 12 slots per vertex fit an int, a line per vertex, and no vertex whose influences
      would be written past the end of the slot buffers (a vertex listing more than 12
      influences writes on into the next rows, which are filled afterwards; past the last row
      the write is undefined behaviour). */
  predicate Attaches(vs: seq<string>, convert: Convert)
  {
    && |vs| >= 1
    && 0 <= VertexCountOf(vs[0], convert) && VertexCountOf(vs[0], convert) * MaxWeights <= 0x7FFF_FFFF
    && |vs| >= 1 + VertexCountOf(vs[0], convert)
    && forall i :: 0 <= i < VertexCountOf(vs[0], convert) ==>
         MaxWeights * i + InfluenceCount(Words(vs[1 + i]), convert) <= MaxWeights * VertexCountOf(vs[0], convert)
  }

  /** The slots of one vertex line, bone and weight, in order. */
  predicate RowHolds(bi: seq<int>, sw: seq<real>, i: int, ws: seq<string>, convert: Convert)
    requires 0 <= i && MaxWeights * (i + 1) <= |bi| && MaxWeights * (i + 1) <= |sw|
  {
    forall s :: 0 <= s < MaxWeights ==>
      bi[MaxWeights * i + s] == SlotBone(ws, s, convert) && sw[MaxWeights * i + s] == SlotWeight(ws, s, convert)
  }

  /** The two loops of lines 108 to 120 for vertex i: pair j of the line into slot 12i + j for
      every listed pair, then the padding up to the end of the row.  ok is false when a pair
      would be written past the end of the buffers.  The row ends up with the line's slots,
      and nothing in the rows before it changes. */
  method FillRow(bi: array<int>, sw: array<real>, i: int, ws: seq<string>, convert: Convert) returns (ok: bool)
    requires bi.Length == sw.Length && 0 <= i && MaxWeights * (i + 1) <= bi.Length
    modifies bi, sw
    ensures ok <==> MaxWeights * i + InfluenceCount(ws, convert) <= bi.Length
    ensures ok ==> RowHolds(bi[..], sw[..], i, ws, convert)
    ensures forall k :: 0 <= k < MaxWeights * i ==> bi[k] == old(bi[k]) && sw[k] == old(sw[k])
  {
    var nWeights := InfluenceCount(ws, convert);
    if MaxWeights * i + nWeights > bi.Length {
      return false;
    }
    var base := MaxWeights * i;
    var j := 0;
    while j < nWeights
      invariant 0 <= j && (nWeights >= 0 ==> j <= nWeights) && (nWeights < 0 ==> j == 0)
      invariant forall s :: 0 <= s < j && s < MaxWeights ==>
        bi[base + s] == IntAt(ws, 1 + 2 * s, convert) && sw[base + s] == RealAt(ws, 2 + 2 * s, convert)
      invariant forall k :: 0 <= k < base ==> bi[k] == old(bi[k]) && sw[k] == old(sw[k])
    {
      bi[base + j], sw[base + j] := IntAt(ws, 1 + 2 * j, convert), RealAt(ws, 2 + 2 * j, convert);
      j := j + 1;
    }
    while j < MaxWeights
      invariant 0 <= j && (nWeights >= 0 ==> nWeights <= j) && (nWeights < 0 ==> j >= 0)
      invariant forall s :: 0 <= s < j && s < MaxWeights ==>
        bi[base + s] == SlotBone(ws, s, convert) && sw[base + s] == SlotWeight(ws, s, convert)
      invariant forall k :: 0 <= k < base ==> bi[k] == old(bi[k]) && sw[k] == old(sw[k])
    {
      bi[base + j], sw[base + j] := 0, 0.0;
      j := j + 1;
    }
    return true;
  }

  /** Row i holds the slots of vertex line 1 + i. */
  predicate LineRow(bi: seq<int>, sw: seq<real>, vs: seq<string>, i: int, convert: Convert)
    requires 0 <= i && 1 + i < |vs| && MaxWeights * (i + 1) <= |bi| && MaxWeights * (i + 1) <= |sw|
  {
    RowHolds(bi, sw, i, Words(vs[1 + i]), convert)
  }

  /** The attachment tables after loading a file whose valid lines are vs: twelve slots per
      vertex, vertex i's influence count and the slots of its line. */
  ghost predicate AttachedTables(bi: array<int>, sw: array<real>, ni: array<int>, vs: seq<string>, convert: Convert)
    requires Attaches(vs, convert)
    reads bi, sw, ni
  {
    var vertCount := VertexCountOf(vs[0], convert);
    && bi.Length == MaxWeights * vertCount && sw.Length == MaxWeights * vertCount && ni.Length == vertCount
    && (forall i :: 0 <= i < vertCount ==> ni[i] == InfluenceCount(Words(vs[1 + i]), convert))
    && (forall i :: 0 <= i < vertCount ==> LineRow(bi[..], sw[..], vs, i, convert))
  }

  /** A row holds a vertex line's slots whatever happens to the buffers past the row. */
  lemma RowHoldsFrame(bi: seq<int>, sw: seq<real>, i: int, ws: seq<string>, convert: Convert,
                      oldBi: seq<int>, oldSw: seq<real>, n: int)
    requires 0 <= i && MaxWeights * (i + 1) <= n <= |bi| == |sw| == |oldBi| == |oldSw|
    requires RowHolds(oldBi, oldSw, i, ws, convert)
    requires forall k :: 0 <= k < n ==> bi[k] == oldBi[k] && sw[k] == oldSw[k]
    ensures RowHolds(bi, sw, i, ws, convert)
  {
    forall s | 0 <= s < MaxWeights
      ensures bi[MaxWeights * i + s] == SlotBone(ws, s, convert) && sw[MaxWeights * i + s] == SlotWeight(ws, s, convert)
    {
      assert MaxWeights * i + s < MaxWeights * (i + 1);
    }
  }

  // ---- linear blend skinning ----

  const Zero4 := Vec4(0.0, 0.0, 0.0, 0.0)

  /** The number of slots update reads for a vertex with nInfluences influences in rows of mw
      slots: it stops at the influence count and never leaves the row.  The slot offset is
      unsigned there, so the count is compared as an unsigned int: a negative count is some
      2^32 + nInfluences and, in any row shorter than that, every slot is read. */
  function Live(nInfluences: int, mw: int): (n: int)
    requires mw >= 0
    ensures 0 <= n <= mw && (n < mw ==> n == UInt32Of(nInfluences))
    ensures 0 <= nInfluences < 0x1_0000_0000 ==> n == if nInfluences < mw then nInfluences else mw
    ensures -0x8000_0000 <= nInfluences < 0 && mw <= 0x8000_0000 ==> n == mw
  {
    var u := UInt32Of(nInfluences);
    if u < mw then u else mw
  }

  /** Every slot of base .. base + count - 1 names one of the matrices ms. */
  predicate BonesIn(ms: seq<Mat4>, bi: seq<int>, base: int, count: int)
  {
    0 <= base && 0 <= count && base + count <= |bi| && forall t :: base <= t < base + count ==> 0 <= bi[t] < |ms|
  }

  /** The sum over slots base .. base + count - 1 of the slot's weight times its bone's
      matrix applied to a, added in slot order. */
  function Blend(ms: seq<Mat4>, bi: seq<int>, sw: seq<real>, base: int, count: int, a: Vec4): Vec4
    requires BonesIn(ms, bi, base, count) && base + count <= |sw|
    decreases count
  {
    if count == 0 then Zero4
    else
      var t := base + count - 1;
      Add4(Blend(ms, bi, sw, base, count - 1, a), Scale4(sw[t], MulVec(ms[bi[t]], a)))
  }

  /** Vertex i of a buffer of three floats a vertex. */
  function VertexAt(buf: seq<real>, i: int): Vec3
    requires 0 <= i && 3 * i + 3 <= |buf|
  {
    Vec3(buf[3 * i], buf[3 * i + 1], buf[3 * i + 2])
  }

  /** The inner loop of update (lines 203 to 212) for one vertex: the weighted sums of the
      first Live slots of its row for the bind-pose position (w = 1) and normal (w = 0). */
  method Accumulate(ms: seq<Mat4>, bi: seq<int>, sw: seq<real>, base: int, mw: int, nInfluences: int,
                    initPos: Vec4, initNor: Vec4)
    returns (resultPos: Vec4, resultNor: Vec4)
    requires mw >= 0 && |sw| == |bi| && BonesIn(ms, bi, base, Live(nInfluences, mw))
    ensures resultPos == Blend(ms, bi, sw, base, Live(nInfluences, mw), initPos)
    ensures resultNor == Blend(ms, bi, sw, base, Live(nInfluences, mw), initNor)
  {
    resultPos, resultNor := Zero4, Zero4;
    var live := Live(nInfluences, mw);
    var j := base;
    while j < base + mw
      invariant base <= j <= base + live
      invariant resultPos == Blend(ms, bi, sw, base, j - base, initPos)
      invariant resultNor == Blend(ms, bi, sw, base, j - base, initNor)
    {
      if UInt32Of(j - base) >= UInt32Of(nInfluences) {
        break;
      }
      resultPos := Add4(resultPos, Scale4(sw[j], MulVec(ms[bi[j]], initPos)));
      resultNor := Add4(resultNor, Scale4(sw[j], MulVec(ms[bi[j]], initNor)));
      j := j + 1;
    }
    assert j - base == live;
  }

  /** Rows of mw slots for nv vertices fit a buffer of nv * mw slots: row i ends inside it. */
  lemma RowInside(i: int, nv: int, mw: int, len: int)
    requires 0 <= i < nv && 0 <= len && mw == len / nv
    ensures 0 <= i * mw && i * mw + mw <= len
  {
    assert nv * mw <= len;
    assert (i + 1) * mw <= nv * mw by {
      assert mw >= 0;
      assert nv - (i + 1) >= 0;
      assert (nv - (i + 1)) * mw >= 0;
    }
  }

  /** The sum of the weights of slots base .. base + count - 1. */
  function WeightSum(sw: seq<real>, base: int, count: int): real
    requires 0 <= base && 0 <= count && base + count <= |sw|
  {
    if count == 0 then 0.0 else WeightSum(sw, base, count - 1) + sw[base + count - 1]
  }

  /** Normals ignore translation: skinning a direction (w = 0) gives the same result for
      animation matrices that differ only in their translation columns. */
  lemma {:induction false} NormalsIgnoreTranslation(ms: seq<Mat4>, ms': seq<Mat4>, bi: seq<int>, sw: seq<real>,
                                                    base: int, count: int, n: Vec3)
    requires |ms'| == |ms| && forall b :: 0 <= b < |ms| ==> ms'[b] == ms[b].(c3 := ms'[b].c3)
    requires BonesIn(ms, bi, base, count) && base + count <= |sw|
    ensures Blend(ms, bi, sw, base, count, Direction(n)) == Blend(ms', bi, sw, base, count, Direction(n))
  {
    if count > 0 {
      var t := base + count - 1;
      NormalsIgnoreTranslation(ms, ms', bi, sw, base, count - 1, n);
      DirectionIgnoresTranslation(ms[bi[t]], ms'[bi[t]].c3, n);
    }
  }

  /** A vertex depends on the live slots of its row only: tables that agree there skin it
      alike, whatever the padding and the other rows hold. */
  lemma {:induction false} LiveSlotsOnly(ms: seq<Mat4>, bi: seq<int>, sw: seq<real>, bi': seq<int>, sw': seq<real>,
                                         base: int, count: int, a: Vec4)
    requires BonesIn(ms, bi, base, count) && base + count <= |sw|
    requires base + count <= |bi'| && base + count <= |sw'|
    requires forall t :: base <= t < base + count ==> bi'[t] == bi[t] && sw'[t] == sw[t]
    ensures BonesIn(ms, bi', base, count)
    ensures Blend(ms, bi, sw, base, count, a) == Blend(ms, bi', sw', base, count, a)
  {
    if count > 0 {
      LiveSlotsOnly(ms, bi, sw, bi', sw', base, count - 1, a);
    }
  }

  /** Slots of weight 0.0, such as the padding, add nothing: reading on past the influence
      count to the end of the row would give the same vertex. */
  lemma {:induction false} PaddingAddsNothing(ms: seq<Mat4>, bi: seq<int>, sw: seq<real>, base: int, count: int,
                                              extra: int, a: Vec4)
    requires 0 <= count && 0 <= extra && BonesIn(ms, bi, base, count + extra) && base + count + extra <= |sw|
    requires forall t :: base + count <= t < base + count + extra ==> sw[t] == 0.0
    ensures Blend(ms, bi, sw, base, count + extra, a) == Blend(ms, bi, sw, base, count, a)
    decreases extra
  {
    if extra > 0 {
      PaddingAddsNothing(ms, bi, sw, base, count, extra - 1, a);
    }
  }

  /** A negative influence count, which load leaves with no influences and a row of padding,
      makes update read the whole row of mw slots; their weights are all 0.0, so the vertex is
      the zero vector, as if no slot had been read. */
  lemma NegativeCountReadsPadding(ms: seq<Mat4>, bi: seq<int>, sw: seq<real>, base: int, mw: int,
                                  nInfluences: int, a: Vec4)
    requires -0x8000_0000 <= nInfluences < 0 && 0 <= mw <= 0x8000_0000
    requires BonesIn(ms, bi, base, mw) && base + mw <= |sw|
    requires forall t :: base <= t < base + mw ==> sw[t] == 0.0
    ensures Live(nInfluences, mw) == mw
    ensures Blend(ms, bi, sw, base, Live(nInfluences, mw), a) == Blend(ms, bi, sw, base, 0, a) == Zero4
  {
    PaddingAddsNothing(ms, bi, sw, base, 0, mw, a);
  }

  /** The 4x4 identity leaves a vector as it is. */
  lemma IdentityActs(m: Mat4, a: Vec4)
    requires m == Identity4
    ensures MulVec(m, a) == a
  {
  }

  /** When every live bone's animation matrix leaves the point a where it is, the vertex is a
      scaled by the sum of its weights. */
  lemma {:induction false} FixedPointBlend(ms: seq<Mat4>, bi: seq<int>, sw: seq<real>, base: int, count: int, a: Vec4)
    requires BonesIn(ms, bi, base, count) && base + count <= |sw|
    requires forall t :: base <= t < base + count ==> MulVec(ms[bi[t]], a) == a
    ensures Blend(ms, bi, sw, base, count, a) == Scale4(WeightSum(sw, base, count), a)
  {
    if count > 0 {
      var t := base + count - 1;
      FixedPointBlend(ms, bi, sw, base, count - 1, a);
      ScaleAdd(WeightSum(sw, base, count - 1), sw[t], a);
    }
  }

  /** Scaling distributes over a sum of factors. */
  lemma ScaleAdd(s: real, u: real, a: Vec4)
    ensures Scale4(s + u, a) == Add4(Scale4(s, a), Scale4(u, a))
  {
  }

  /** In a frame whose live bones all have the identity as animation matrix (a frame that
      repeats the T-pose), a vertex is the bind pose scaled by the sum of its weights, so
      when the weights sum to 1 the mesh stays in its bind pose. */
  lemma RestPoseKeepsVertex(ms: seq<Mat4>, bi: seq<int>, sw: seq<real>, base: int, count: int, a: Vec4)
    requires BonesIn(ms, bi, base, count) && base + count <= |sw|
    requires forall t :: base <= t < base + count ==> ms[bi[t]] == Identity4
    ensures Blend(ms, bi, sw, base, count, a) == Scale4(WeightSum(sw, base, count), a)
    ensures WeightSum(sw, base, count) == 1.0 ==> Blend(ms, bi, sw, base, count, a) == a
  {
    forall t | base <= t < base + count
      ensures MulVec(ms[bi[t]], a) == a
    {
      IdentityActs(ms[bi[t]], a);
    }
    FixedPointBlend(ms, bi, sw, base, count, a);
  }

  /** Every vertex 0 .. n - 1 has an influence count and, in rows of mw slots, a bone of ms
      for each live slot of its row. */
  predicate RowsLive(ms: seq<Mat4>, bi: seq<int>, sw: seq<real>, ni: seq<int>, mw: int, n: int)
  {
    0 <= mw && 0 <= n <= |ni| && |sw| == |bi| && forall r :: 0 <= r < n ==> BonesIn(ms, bi, r * mw, Live(ni[r], mw))
  }

  /** Vertex r of the bind-pose buffer bind, skinned: the weighted sum over the live slots
      base .. base + live - 1 of its row, for the vertex as a point (w = 1) or as a direction
      (w = 0). */
  function SkinnedVertex(ms: seq<Mat4>, bi: seq<int>, sw: seq<real>, base: int, live: int, bind: seq<real>, r: int,
                         point: bool): Vec3
    requires BonesIn(ms, bi, base, live) && base + live <= |sw| && 0 <= r && 3 * r + 3 <= |bind|
  {
    var a := VertexAt(bind, r);
    Xyz(Blend(ms, bi, sw, base, live, if point then Point(a) else Direction(a)))
  }

  /** The first n vertices of out are those of bind skinned, vertex r by the live slots of row
      r. */
  predicate Skinned(out: seq<real>, ms: seq<Mat4>, bi: seq<int>, sw: seq<real>, ni: seq<int>, mw: int,
                    bind: seq<real>, point: bool, n: int)
    requires RowsLive(ms, bi, sw, ni, mw, n) && 3 * n <= |out| && 3 * n <= |bind|
  {
    forall r :: 0 <= r < n ==> VertexAt(out, r) == SkinnedVertex(ms, bi, sw, r * mw, Live(ni[r], mw), bind, r, point)
  }

  /** Writing vertex n, skinned, after the first n extends them by one. */
  lemma SkinnedStep(out: seq<real>, ms: seq<Mat4>, bi: seq<int>, sw: seq<real>, ni: seq<int>, mw: int,
                    bind: seq<real>, point: bool, n: int, v: Vec3)
    requires 0 <= n && RowsLive(ms, bi, sw, ni, mw, n + 1) && 3 * n + 3 <= |out| && 3 * n + 3 <= |bind|
    requires Skinned(out, ms, bi, sw, ni, mw, bind, point, n)
    requires v == SkinnedVertex(ms, bi, sw, n * mw, Live(ni[n], mw), bind, n, point)
    ensures Skinned(out[3 * n := v.x][3 * n + 1 := v.y][3 * n + 2 := v.z], ms, bi, sw, ni, mw, bind, point, n + 1)
  {
    var out' := out[3 * n := v.x][3 * n + 1 := v.y][3 * n + 2 := v.z];
    forall r | 0 <= r < n + 1
      ensures VertexAt(out', r) == SkinnedVertex(ms, bi, sw, r * mw, Live(ni[r], mw), bind, r, point)
    {
      if r < n {
        assert VertexAt(out', r) == VertexAt(out, r);
      }
    }
  }

  /** Every float of out from k on is 0. */
  predicate ZerosFrom(out: seq<real>, k: int)
  {
    forall m :: 0 <= m < |out| && k <= m ==> out[m] == 0.0
  }

  /** A vector<float>(n): n floats, all 0. */
  function Zeros(n: nat): (z: seq<real>)
    ensures |z| == n && ZerosFrom(z, 0)
  {
    if n == 0 then [] else Zeros(n - 1) + [0.0]
  }

  /** Writing vertex n keeps the floats after it 0. */
  lemma ZerosStep(out: seq<real>, n: int, v: Vec3)
    requires 0 <= n && 3 * n + 3 <= |out| && ZerosFrom(out, 3 * n)
    ensures ZerosFrom(out[3 * n := v.x][3 * n + 1 := v.y][3 * n + 2 := v.z], 3 * n + 3)
  {
  }

  /** The loop over the vertices of update (lines 196 to 220), for the animation matrices ms
      of the frame and rows of mw slots: fresh buffers of the sizes of the bind-pose ones,
      every whole vertex skinned and the rest left 0. */
  method SkinVertices(ms: seq<Mat4>, bi: seq<int>, sw: seq<real>, ni: seq<int>, mw: int, posBuf: seq<real>, norBuf: seq<real>)
    returns (posBuf2: seq<real>, norBuf2: seq<real>)
    requires |norBuf| == |posBuf| && RowsLive(ms, bi, sw, ni, mw, |posBuf| / 3)
    ensures |posBuf2| == |posBuf| && |norBuf2| == |norBuf|
    ensures Skinned(posBuf2, ms, bi, sw, ni, mw, posBuf, true, |posBuf| / 3)
    ensures Skinned(norBuf2, ms, bi, sw, ni, mw, norBuf, false, |posBuf| / 3)
    ensures ZerosFrom(posBuf2, 3 * (|posBuf| / 3)) && ZerosFrom(norBuf2, 3 * (|posBuf| / 3))
  {
    posBuf2 := Zeros(|posBuf|);
    norBuf2 := Zeros(|norBuf|);
    var numVerts := |posBuf| / 3;
    var base := 0;
    for i := 0 to numVerts
      invariant base == i * mw
      invariant |posBuf2| == |posBuf| && |norBuf2| == |norBuf|
      invariant Skinned(posBuf2, ms, bi, sw, ni, mw, posBuf, true, i)
      invariant Skinned(norBuf2, ms, bi, sw, ni, mw, norBuf, false, i)
      invariant ZerosFrom(posBuf2, 3 * i) && ZerosFrom(norBuf2, 3 * i)
    {
      posBuf2, norBuf2 := SkinVertex(ms, bi, sw, ni, mw, posBuf, norBuf, posBuf2, norBuf2, i, base);
      base := base + mw;
    }
  }

  /** One vertex of the loop of update (lines 198 to 219), whose row starts at slot base:
      its skinned position and normal written into the buffers. */
  method SkinVertex(ms: seq<Mat4>, bi: seq<int>, sw: seq<real>, ni: seq<int>, mw: int, posBuf: seq<real>, norBuf: seq<real>,
                    posBuf2: seq<real>, norBuf2: seq<real>, i: int, base: int)
    returns (posBuf3: seq<real>, norBuf3: seq<real>)
    requires |norBuf| == |posBuf| == |posBuf2| == |norBuf2| && 0 <= i && 3 * i + 3 <= |posBuf|
    requires RowsLive(ms, bi, sw, ni, mw, i + 1) && base == i * mw
    requires Skinned(posBuf2, ms, bi, sw, ni, mw, posBuf, true, i) && Skinned(norBuf2, ms, bi, sw, ni, mw, norBuf, false, i)
    requires ZerosFrom(posBuf2, 3 * i) && ZerosFrom(norBuf2, 3 * i)
    ensures |posBuf3| == |posBuf| && |norBuf3| == |norBuf|
    ensures Skinned(posBuf3, ms, bi, sw, ni, mw, posBuf, true, i + 1) && Skinned(norBuf3, ms, bi, sw, ni, mw, norBuf, false, i + 1)
    ensures ZerosFrom(posBuf3, 3 * i + 3) && ZerosFrom(norBuf3, 3 * i + 3)
  {
    var resultPos, resultNor := Accumulate(ms, bi, sw, base, mw, ni[i], Point(VertexAt(posBuf, i)), Direction(VertexAt(norBuf, i)));
    SkinnedStep(posBuf2, ms, bi, sw, ni, mw, posBuf, true, i, Xyz(resultPos));
    SkinnedStep(norBuf2, ms, bi, sw, ni, mw, norBuf, false, i, Xyz(resultNor));
    ZerosStep(posBuf2, i, Xyz(resultPos));
    ZerosStep(norBuf2, i, Xyz(resultNor));
    posBuf3 := posBuf2[3 * i := resultPos.x][3 * i + 1 := resultPos.y][3 * i + 2 := resultPos.z];
    norBuf3 := norBuf2[3 * i := resultNor.x][3 * i + 1 := resultNor.y][3 * i + 2 := resultNor.z];
  }

  // ---- the OBJ loader's output ----

  /** A shape as tinyobj gives it: the vertex count of each face and the vertex index of each
      face vertex. */
  datatype ObjMesh = ObjMesh(numFaceVertices: seq<nat>, vertexIndices: seq<int>)

  /** What tinyobj::LoadObj fills in: the flat attribute arrays and the shapes. */
  datatype ObjData = ObjData(vertices: seq<real>, normals: seq<real>, texcoords: seq<real>, shapes: seq<ObjMesh>)

  /** The sum of a list of counts. */
  function Total(ns: seq<nat>): nat
  {
    if |ns| == 0 then 0 else Total(ns[..|ns| - 1]) + ns[|ns| - 1]
  }

  /** A prefix of a list of counts sums to no more than the list. */
  lemma {:induction false} TotalPrefix(ns: seq<nat>, f: int)
    requires 0 <= f <= |ns|
    ensures Total(ns[..f]) <= Total(ns)
    decreases |ns|
  {
    if f < |ns| {
      assert ns[..f] == ns[..|ns| - 1][..f];
      TotalPrefix(ns[..|ns| - 1], f);
    } else {
      assert ns[..f] == ns;
    }
  }

  /** The loader lists a vertex index for every face vertex. */
  predicate WellFormed(m: ObjMesh)
  {
    Total(m.numFaceVertices) <= |m.vertexIndices|
  }

  /** The conversion of an index to the unsigned int elemBuf holds. */
  function UInt32Of(n: int): (u: int)
    ensures 0 <= u < 0x1_0000_0000
    ensures 0 <= n < 0x1_0000_0000 ==> u == n
  {
    n % 0x1_0000_0000
  }

  /** Indices converted to unsigned int, in order. */
  function Unsigned(xs: seq<int>): (u: seq<int>)
    ensures |u| == |xs|
  {
    if |xs| == 0 then [] else Unsigned(xs[..|xs| - 1]) + [UInt32Of(xs[|xs| - 1])]
  }

  /** Entry k of the converted indices is index k converted. */
  lemma {:induction false} UnsignedAt(xs: seq<int>)
    ensures forall k :: 0 <= k < |xs| ==> Unsigned(xs)[k] == UInt32Of(xs[k])
  {
    if |xs| > 0 {
      UnsignedAt(xs[..|xs| - 1]);
    }
  }

  /** The elements of one shape: the vertex index of every face vertex, face by face. */
  function FaceElements(m: ObjMesh): (e: seq<int>)
    requires WellFormed(m)
    ensures |e| == Total(m.numFaceVertices)
  {
    Unsigned(m.vertexIndices[..Total(m.numFaceVertices)])
  }

  /** The elements of all shapes, shape by shape. */
  function Elements(shapes: seq<ObjMesh>): seq<int>
    requires forall s :: 0 <= s < |shapes| ==> WellFormed(shapes[s])
  {
    if |shapes| == 0 then [] else Elements(shapes[..|shapes| - 1]) + FaceElements(shapes[|shapes| - 1])
  }

  /** The number of face vertices of all shapes. */
  function FaceVertexCount(shapes: seq<ObjMesh>): nat
  {
    if |shapes| == 0 then 0 else FaceVertexCount(shapes[..|shapes| - 1]) + Total(shapes[|shapes| - 1].numFaceVertices)
  }

  /** The elements of one more shape. */
  lemma ElementsStep(shapes: seq<ObjMesh>, s: int)
    requires forall s :: 0 <= s < |shapes| ==> WellFormed(shapes[s])
    requires 0 <= s < |shapes|
    ensures Elements(shapes[..s + 1]) == Elements(shapes[..s]) + FaceElements(shapes[s])
  {
    assert shapes[..s + 1][..s] == shapes[..s];
  }

  /** Appending in two steps appends the concatenation. */
  lemma ConcatAssoc<T>(a: seq<T>, b: seq<T>, c: seq<T>)
    ensures (a + b) + c == a + (b + c)
  {
  }

  /** The element buffer gets one entry per face vertex. */
  lemma {:induction false} ElementCount(shapes: seq<ObjMesh>)
    requires forall s :: 0 <= s < |shapes| ==> WellFormed(shapes[s])
    ensures |Elements(shapes)| == FaceVertexCount(shapes)
  {
    if |shapes| > 0 {
      ElementCount(shapes[..|shapes| - 1]);
    }
  }

  /** A skinned mesh. */
  class ShapeSkin {
    const T: TextureMatrix
    var elemBuf: seq<int>
    var posBuf: seq<real>
    var norBuf: seq<real>
    var texBuf: seq<real>
    var boneIndices: array<int>
    var nInfluences: array<int>
    var skinningWeights: array<real>

    /** A new shape: empty buffers and a new texture matrix. */
    constructor ()
      ensures fresh(T) && T.part == NoPart && T.T == Identity3
      ensures elemBuf == [] && posBuf == [] && norBuf == [] && texBuf == []
      ensures boneIndices.Length == 0 && nInfluences.Length == 0 && skinningWeights.Length == 0
    {
      T := new TextureMatrix();
      elemBuf, posBuf, norBuf, texBuf := [], [], [], [];
      boneIndices, nInfluences, skinningWeights := new int[0], new int[0], new real[0];
    }

    /** setTextureMatrixType: the texture matrix classifies the mesh name. */
    method SetTextureMatrixType(meshName: string)
      modifies T
      ensures T.part == Classify(meshName) && T.T == old(T.T)
    {
      T.SetType(meshName);
    }

    /** loadMesh, given what tinyobj::LoadObj returned (None when it failed, which leaves the
        shape as it is): the attribute arrays, and every face vertex's index appended to
        elemBuf.  ok is false when the assertion that there are as many normals as positions
        fails. */
    method LoadMesh(obj: Option<ObjData>) returns (ok: bool)
      requires obj.Some? ==> forall s :: 0 <= s < |obj.value.shapes| ==> WellFormed(obj.value.shapes[s])
      modifies this`elemBuf, this`posBuf, this`norBuf, this`texBuf
      ensures obj.None? ==> ok && elemBuf == old(elemBuf) && posBuf == old(posBuf) && norBuf == old(norBuf) && texBuf == old(texBuf)
      ensures obj.Some? ==> posBuf == obj.value.vertices && norBuf == obj.value.normals && texBuf == obj.value.texcoords
      ensures obj.Some? ==> (ok <==> |obj.value.vertices| == |obj.value.normals|)
      ensures obj.Some? && ok ==> elemBuf == old(elemBuf) + Elements(obj.value.shapes)
    {
      if obj.None? {
        return true;
      }
      var attrib := obj.value;
      posBuf, norBuf, texBuf := attrib.vertices, attrib.normals, attrib.texcoords;
      if |posBuf| != |norBuf| {
        return false;
      }
      var shapes := attrib.shapes;
      for s := 0 to |shapes|
        invariant elemBuf == old(elemBuf) + Elements(shapes[..s])
        invariant posBuf == attrib.vertices && norBuf == attrib.normals && texBuf == attrib.texcoords
      {
        ElementsStep(shapes, s);
        AppendFaces(shapes[s]);
        ConcatAssoc(old(elemBuf), Elements(shapes[..s]), FaceElements(shapes[s]));
      }
      assert shapes[..|shapes|] == shapes;
      return true;
    }

    /** The loop over one shape's faces (lines 61 to 74): each face's vertex indices, in
        order. */
    method AppendFaces(mesh: ObjMesh)
      requires WellFormed(mesh)
      modifies this`elemBuf
      ensures elemBuf == old(elemBuf) + FaceElements(mesh)
    {
      var fvs := mesh.numFaceVertices;
      var indexOffset := 0;
      for f := 0 to |fvs|
        invariant indexOffset == Total(fvs[..f]) && indexOffset <= Total(fvs) <= |mesh.vertexIndices|
        invariant elemBuf == old(elemBuf) + Unsigned(mesh.vertexIndices[..indexOffset])
      {
        var fv := fvs[f];
        assert fvs[..f + 1][..f] == fvs[..f];
        TotalPrefix(fvs, f + 1);
        AppendFace(old(elemBuf), mesh, indexOffset, fv);
        indexOffset := indexOffset + fv;
      }
      assert fvs[..|fvs|] == fvs;
    }

    /** The loop over the vertices of one face (lines 66 to 70): the vertex indices from
        indexOffset on, fv of them, appended in order to what start and the faces before it
        gave. */
    method AppendFace(ghost start: seq<int>, mesh: ObjMesh, indexOffset: int, fv: int)
      requires 0 <= indexOffset && 0 <= fv && indexOffset + fv <= |mesh.vertexIndices|
      requires elemBuf == start + Unsigned(mesh.vertexIndices[..indexOffset])
      modifies this`elemBuf
      ensures elemBuf == start + Unsigned(mesh.vertexIndices[..indexOffset + fv])
    {
      for v := 0 to fv
        invariant elemBuf == start + Unsigned(mesh.vertexIndices[..indexOffset + v])
      {
        assert mesh.vertexIndices[..indexOffset + v + 1][..indexOffset + v] == mesh.vertexIndices[..indexOffset + v];
        elemBuf := elemBuf + [UInt32Of(mesh.vertexIndices[indexOffset + v])];
      }
    }

    /** The number of vertices update skins: the bind-pose positions, three floats each. */
    function NumVerts(): (n: int)
      reads this
      ensures n >= 0 && 3 * n <= |posBuf|
    {
      |posBuf| / 3
    }

    /** What update relies on without checking it: some vertex (update divides by the vertex
        count), as many normals as positions (loadMesh asserts it), weights for every bone
        slot, an influence count per vertex, and, in the frame skinned, a bone for every live
        slot. */
    ghost predicate Skinnable(bones: Bones, k: int)
      reads this, boneIndices, skinningWeights, nInfluences, bones
    {
      && 3 <= |posBuf| && |norBuf| == |posBuf|
      && skinningWeights.Length == boneIndices.Length && nInfluences.Length >= |posBuf| / 3
      && (0 <= k < |bones.animationMatrices| ==>
            RowsLive(bones.animationMatrices[k], boneIndices[..], skinningWeights[..], nInfluences[..],
                     boneIndices.Length / (|posBuf| / 3), |posBuf| / 3))
    }

    /** update(k): the skinned positions and normals of frame k, sent on to the GPU; the shape
        itself does not change.  With maxWeights the slot count divided by the vertex count,
        vertex i is the sum over the live slots of its row of weight times animation matrix
        times the bind-pose position (w = 1), its normal the same sum for the bind-pose normal
        (w = 0); floats past the last whole vertex stay 0.  ok is false where the frame lookup
        aborts. */
    method Update(k: int, bones: Bones) returns (posBuf2: seq<real>, norBuf2: seq<real>, ok: bool)
      requires -0x8000_0000 <= k < 0x8000_0000 && bones.Valid() && Skinnable(bones, k)
      ensures ok <==> 0 <= k < |bones.animationMatrices|
      ensures ok ==> |posBuf2| == |posBuf| && |norBuf2| == |norBuf|
      ensures ok ==> Skinned(posBuf2, bones.animationMatrices[k], boneIndices[..], skinningWeights[..], nInfluences[..],
                             boneIndices.Length / NumVerts(), posBuf, true, NumVerts())
      ensures ok ==> Skinned(norBuf2, bones.animationMatrices[k], boneIndices[..], skinningWeights[..], nInfluences[..],
                             boneIndices.Length / NumVerts(), norBuf, false, NumVerts())
      ensures ok ==> ZerosFrom(posBuf2, 3 * NumVerts()) && ZerosFrom(norBuf2, 3 * NumVerts())
    {
      posBuf2 := Zeros(|posBuf|);
      norBuf2 := Zeros(|norBuf|);
      var numVerts := |posBuf| / 3;
      var maxWeights := boneIndices.Length / numVerts;
      var animMats := bones.AnimationMatricesAtFrame(k);
      if animMats.None? {
        return posBuf2, norBuf2, false;
      }
      posBuf2, norBuf2 := SkinVertices(animMats.value, boneIndices[..], skinningWeights[..], nInfluences[..], maxWeights,
                                       posBuf, norBuf);
      ok := true;
    }

    /** The attachment tables hold the file whose valid lines are vs. */
    ghost predicate Attached(vs: seq<string>, convert: Convert)
      requires Attaches(vs, convert)
      reads this, boneIndices, skinningWeights, nInfluences
    {
      AttachedTables(boneIndices, skinningWeights, nInfluences, vs, convert)
    }

    /** loadAttachment, given whether the file opened and its valid lines: new slot tables of
        twelve slots per vertex, each row holding its line's pairs in order and padded with
        bone 0 and weight 0.0.  A file that cannot be read leaves the shape as it is; ok is
        false where the source aborts or writes past the tables. */
    method LoadAttachment(isOpen: bool, vs: seq<string>, convert: Convert) returns (ok: bool)
      modifies this`boneIndices, this`skinningWeights, this`nInfluences
      ensures !isOpen ==> (ok && boneIndices == old(boneIndices) && nInfluences == old(nInfluences)
                           && skinningWeights == old(skinningWeights))
      ensures isOpen ==> (ok <==> Attaches(vs, convert))
      ensures isOpen && ok ==> fresh(boneIndices) && fresh(skinningWeights) && fresh(nInfluences) && Attached(vs, convert)
    {
      if !isOpen {
        return true;
      }
      if |vs| < 1 {
        return false;
      }
      var vertCount := VertexCountOf(vs[0], convert);
      if vertCount < 0 || vertCount * MaxWeights > 0x7FFF_FFFF {
        return false;
      }
      var bi, sw, ni := new int[MaxWeights * vertCount], new real[MaxWeights * vertCount], new int[vertCount];
      boneIndices, skinningWeights, nInfluences := bi, sw, ni;
      ok := FillTables(bi, sw, ni, vs, convert);
    }
  }

  /** One vertex of the loop of lines 99 to 121, once its line has been read: its influence
      count and its row.  ok is false when a pair would be written past the tables; the rows
      before it keep their slots. */
  method FillVertex(bi: array<int>, sw: array<real>, ni: array<int>, vs: seq<string>, i: int, convert: Convert)
    returns (ok: bool)
    requires bi != ni && bi.Length == sw.Length && 0 <= i < ni.Length && 1 + i < |vs| && MaxWeights * (i + 1) <= bi.Length
    requires forall r :: 0 <= r < i ==> LineRow(bi[..], sw[..], vs, r, convert)
    modifies bi, sw, ni
    ensures ok <==> MaxWeights * i + InfluenceCount(Words(vs[1 + i]), convert) <= bi.Length
    ensures forall r :: 0 <= r < i ==> ni[r] == old(ni[r])
    ensures ni[i] == InfluenceCount(Words(vs[1 + i]), convert)
    ensures ok ==> forall r :: 0 <= r <= i ==> LineRow(bi[..], sw[..], vs, r, convert)
  {
    var ws := Words(vs[1 + i]);
    ghost var bi0, sw0 := bi[..], sw[..];
    ni[i] := InfluenceCount(ws, convert);
    ok := FillRow(bi, sw, i, ws, convert);
    if ok {
      forall r | 0 <= r < i
        ensures LineRow(bi[..], sw[..], vs, r, convert)
      {
        assert LineRow(bi0, sw0, vs, r, convert);
        RowHoldsFrame(bi[..], sw[..], r, Words(vs[1 + r]), convert, bi0, sw0, MaxWeights * i);
      }
    }
  }

  /** The loop over the vertex lines (lines 99 to 121): vertex i's influence count and its
      row, from valid line 1 + i.  ok is false where getNextValidLine aborts or a pair would be
      written past the tables. */
  method FillTables(bi: array<int>, sw: array<real>, ni: array<int>, vs: seq<string>, convert: Convert) returns (ok: bool)
    requires |vs| >= 1 && bi != ni
    requires 0 <= VertexCountOf(vs[0], convert) && VertexCountOf(vs[0], convert) * MaxWeights <= 0x7FFF_FFFF
    requires bi.Length == MaxWeights * VertexCountOf(vs[0], convert) == sw.Length && ni.Length == VertexCountOf(vs[0], convert)
    modifies bi, sw, ni
    ensures ok <==> Attaches(vs, convert)
    ensures ok ==> AttachedTables(bi, sw, ni, vs, convert)
  {
    var vertCount := VertexCountOf(vs[0], convert);
    for i := 0 to vertCount
      invariant 1 + i <= |vs|
      invariant forall r :: 0 <= r < i ==> MaxWeights * r + InfluenceCount(Words(vs[1 + r]), convert) <= bi.Length
      invariant forall r :: 0 <= r < i ==> ni[r] == InfluenceCount(Words(vs[1 + r]), convert)
      invariant forall r :: 0 <= r < i ==> LineRow(bi[..], sw[..], vs, r, convert)
    {
      if 1 + i >= |vs| {
        return false;
      }
      ok := FillVertex(bi, sw, ni, vs, i, convert);
      if !ok {
        return false;
      }
    }
    return true;
  }
}
