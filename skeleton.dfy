/**
 * The skeleton of a skinned character (A2 Bones.cpp): a T-pose and an animation of frames,
 * each a list of bone matrices read from a text file, and the animation matrices that carry a
 * vertex from the T-pose to each frame.
 *
 * The file is given by its valid lines, the lines successive getNextValidLine calls return
 * (LineInput.NextValidLineIsFirst): a header with the frame count and the bone count, one
 * line for the T-pose and one line per frame.  Each bone is seven numbers: the quaternion x,
 * y, z, w of its rotation and its position.  GLM's mat4_cast and inverse are parameters.
 */
module Skeleton {
  import opened Linear
  import opened LineInput

  /** The GLM routines the skeleton uses: the rotation matrix of a quaternion (mat4_cast) and
      the matrix inverse. */
  datatype Glm = Glm(mat4Cast: Quat -> Mat4, inverse: Mat4 -> Mat4)

  /** The position of bone j in a line read as words ws: the words 7j+4 to 7j+6. */
  function BonePosition(ws: seq<string>, j: int, convert: Convert): Vec3
  {
    Vec3(RealAt(ws, 7 * j + 4, convert), RealAt(ws, 7 * j + 5, convert), RealAt(ws, 7 * j + 6, convert))
  }

  /** The rotation of bone j in a line, glm::quat(w, x, y, z) from the words 7j to 7j+3 in
      the file order x, y, z, w. */
  function BoneRotation(ws: seq<string>, j: int, convert: Convert): Quat
  {
    Quat(RealAt(ws, 7 * j + 3, convert), RealAt(ws, 7 * j, convert), RealAt(ws, 7 * j + 1, convert),
         RealAt(ws, 7 * j + 2, convert))
  }

  /** The matrix of bone j: the rotation matrix of its quaternion with the translation column
      set to its position. */
  function BoneMatrix(ws: seq<string>, j: int, convert: Convert, glm: Glm): Mat4
  {
    glm.mat4Cast(BoneRotation(ws, j, convert)).(c3 := Point(BonePosition(ws, j, convert)))
  }

  /** A bone matrix rotates a point by the bone's rotation and then moves it by the bone's
      position (so it carries the origin to that position); a direction it turns by the
      rotation alone. */
  lemma BoneMatrixActs(ws: seq<string>, j: int, convert: Convert, glm: Glm, a: Vec3)
    ensures MulVec(BoneMatrix(ws, j, convert, glm), Point(a))
         == Add4(MulVec(glm.mat4Cast(BoneRotation(ws, j, convert)), Direction(a)),
                 Point(BonePosition(ws, j, convert)))
    ensures MulVec(BoneMatrix(ws, j, convert, glm), Direction(a))
         == MulVec(glm.mat4Cast(BoneRotation(ws, j, convert)), Direction(a))
  {
  }

  /** The bones of a line read as words ws holding boneCount bones: the matrices of bones 0
      to boneCount - 1, in order (none for a negative count). */
  function Pose(ws: seq<string>, boneCount: int, convert: Convert, glm: Glm): (v: seq<Mat4>)
    ensures |v| == if boneCount < 0 then 0 else boneCount
  {
    if boneCount <= 0 then []
    else Pose(ws, boneCount - 1, convert, glm) + [BoneMatrix(ws, boneCount - 1, convert, glm)]
  }

  /** Bone j of a line's pose is the matrix of the line's words 7j to 7j+6. */
  lemma {:induction false} PoseBones(ws: seq<string>, boneCount: int, convert: Convert, glm: Glm)
    ensures forall j :: 0 <= j < |Pose(ws, boneCount, convert, glm)| ==>
      Pose(ws, boneCount, convert, glm)[j] == BoneMatrix(ws, j, convert, glm)
  {
    if boneCount > 0 {
      PoseBones(ws, boneCount - 1, convert, glm);
    }
  }

  /** processLine: the boneCount bone matrices of a line. */
  method ProcessLine(line: string, boneCount: int, convert: Convert, glm: Glm) returns (v: seq<Mat4>)
    requires boneCount >= 0
    ensures v == Pose(Words(line), boneCount, convert, glm)
  {
    var ws := Words(line);
    v := [];
    for j := 0 to boneCount
      invariant v == Pose(ws, j, convert, glm)
    {
      v := v + [BoneMatrix(ws, j, convert, glm)];
    }
  }

  /** The frame count of a header line, its first number. */
  function FrameCountOf(header: string, convert: Convert): int
  {
    IntAt(Words(header), 0, convert)
  }

  /** The bone count of a header line, its second number. */
  function BoneCountOf(header: string, convert: Convert): int
  {
    IntAt(Words(header), 1, convert)
  }

  /** A file whose valid lines are vs loads without aborting: it has a header and a T-pose
      line, both counts are non-negative (a vector of negative size throws) and a line for each
      frame follows. */
  predicate Loads(vs: seq<string>, convert: Convert)
  {
    |vs| >= 2 && FrameCountOf(vs[0], convert) >= 0 && BoneCountOf(vs[0], convert) >= 0
    && |vs| >= 2 + FrameCountOf(vs[0], convert)
  }

  /** The largest size a table of frames can have: frame counts are ints. */
  const MaxFrames := 0x7FFF_FFFF

  /** frame >= size as C++ evaluates it for an int frame and a size_t size: a negative frame
      is converted to a size_t, 2^64 plus the frame. */
  function OutOfFrames(frame: int, size: int): bool
  {
    (if frame < 0 then frame + 0x1_0000_0000_0000_0000 else frame) >= size
  }

  /** For any table that fits, the lookup guard lets exactly the frames in [0, size) through:
      the conversion rejects negative frames as well. */
  lemma OutOfFramesExactly(frame: int, size: int)
    requires -0x8000_0000 <= frame < 0x8000_0000 && 0 <= size <= MaxFrames
    ensures !OutOfFrames(frame, size) <==> 0 <= frame < size
  {
  }

  /** A skeleton. */
  class Bones {
    var tPose: seq<Mat4>
    var itPose: seq<Mat4>
    var bones: seq<seq<Mat4>>
    var animationMatrices: seq<seq<Mat4>>

    /** The tables match: as many animation matrices as frames, no more frames than an int can
        count. */
    ghost predicate Valid()
      reads this
    {
      |bones| == |animationMatrices| <= MaxFrames
    }

    /** The skeleton of a file that cannot be opened: no T-pose and no frames. */
    constructor ()
      ensures Valid() && tPose == [] && itPose == [] && bones == [] && animationMatrices == []
    {
      tPose, itPose, bones, animationMatrices := [], [], [], [];
    }

    /** The tables derived from the T-pose and the frames, each frame as many bones as the
        T-pose: every inverse T-pose matrix the
        inverse of the T-pose one, and animation matrix j of frame i the frame's bone j times
        inverse T-pose bone j. */
    ghost predicate Derived(glm: Glm)
      reads this
    {
      && |itPose| == |tPose|
      && (forall j :: 0 <= j < |tPose| ==> itPose[j] == glm.inverse(tPose[j]))
      && (forall i :: 0 <= i < |bones| ==> |bones[i]| == |tPose|)
      && |animationMatrices| == |bones|
      && (forall i :: 0 <= i < |bones| ==> |animationMatrices[i]| == |tPose|)
      && (forall i, j :: 0 <= i < |bones| && 0 <= j < |tPose| ==>
            animationMatrices[i][j] == MulMat(bones[i][j], itPose[j]))
    }

    /** The tables after loading a file whose valid lines are vs: the counts from the first
        line, the T-pose from the second, the frames from the frame count lines after it, and
        the tables derived from those. */
    ghost predicate Loaded(vs: seq<string>, convert: Convert, glm: Glm)
      requires Loads(vs, convert)
      reads this
    {
      && tPose == Pose(Words(vs[1]), BoneCountOf(vs[0], convert), convert, glm)
      && bones == FramePoses(vs, 2, FrameCountOf(vs[0], convert), BoneCountOf(vs[0], convert), convert, glm)
      && Derived(glm)
    }

    /** The body of Bones(filename) once the file is open, reading the valid lines vs in
        turn: the header, the T-pose and the frames, then the inverse T-pose and the animation
        matrices.  ok is false where the source aborts (getNextValidLine with no valid line
        left, or a vector of negative size). */
    method Load(vs: seq<string>, convert: Convert, glm: Glm) returns (ok: bool)
      modifies this
      ensures ok <==> Loads(vs, convert)
      ensures ok ==> Valid() && Loaded(vs, convert, glm)
    {
      if |vs| < 1 {
        return false;
      }
      var header := Words(vs[0]);
      var frameCount, boneCount := IntAt(header, 0, convert), IntAt(header, 1, convert);
      if |vs| < 2 || boneCount < 0 {
        return false;
      }
      tPose := ProcessLine(vs[1], boneCount, convert, glm);
      var frames;
      frames, ok := ReadFrames(vs, 2, frameCount, boneCount, convert, glm);
      if !ok || frameCount < 0 {
        return false;
      }
      bones := frames;
      itPose := InversePose(tPose, glm.inverse);
      animationMatrices := AnimationMatrices(bones, itPose);
    }

    /** getFrameCount: the number of frames stored, none when the file could not be opened. */
    function FrameCount(): (n: int)
      reads this
      ensures n == |bones|
    {
      |bones|
    }

    /** getBonesAtFrame: the bones of a frame, or None where the source aborts. */
    function BonesAtFrame(frame: int): (r: Option<seq<Mat4>>)
      requires Valid() && -0x8000_0000 <= frame < 0x8000_0000
      reads this
      ensures r.Some? <==> 0 <= frame < |bones|
      ensures r.Some? ==> r.value == bones[frame]
    {
      OutOfFramesExactly(frame, |bones|);
      if OutOfFrames(frame, |bones|) then None else Some(bones[frame])
    }

    /** getAnimationMatricesAtFrame: the animation matrices of a frame, or None where the
        source aborts. */
    function AnimationMatricesAtFrame(frame: int): (r: Option<seq<Mat4>>)
      requires Valid() && -0x8000_0000 <= frame < 0x8000_0000
      reads this
      ensures r.Some? <==> 0 <= frame < |animationMatrices|
      ensures r.Some? ==> r.value == animationMatrices[frame]
    {
      OutOfFramesExactly(frame, |animationMatrices|);
      if OutOfFrames(frame, |animationMatrices|) then None else Some(animationMatrices[frame])
    }
  }

  datatype Option<T> = None | Some(value: T)

  /** Bones(filename): a skeleton with empty tables when the file cannot be opened, and the
      tables loaded from its valid lines otherwise; ok is false where the source aborts. */
  method OpenBones(isOpen: bool, vs: seq<string>, convert: Convert, glm: Glm) returns (b: Bones, ok: bool)
    ensures fresh(b) && (ok ==> b.Valid())
    ensures !isOpen ==> ok && b.FrameCount() == 0 && b.tPose == [] && b.animationMatrices == []
    ensures isOpen ==> (ok <==> Loads(vs, convert)) && (ok ==> b.Loaded(vs, convert, glm))
  {
    b := new Bones();
    ok := true;
    if isOpen {
      ok := b.Load(vs, convert, glm);
    }
  }

  /** The bones of the n frame lines from vs[start] on, in order. */
  function FramePoses(vs: seq<string>, start: int, n: int, boneCount: int, convert: Convert, glm: Glm): (f: seq<seq<Mat4>>)
    requires 0 <= start && start + n <= |vs|
    ensures |f| == if n < 0 then 0 else n
    ensures forall i :: 0 <= i < |f| ==> |f[i]| == if boneCount < 0 then 0 else boneCount
  {
    if n <= 0 then [] else FramePoses(vs, start, n - 1, boneCount, convert, glm) + [Pose(Words(vs[start + n - 1]), boneCount, convert, glm)]
  }

  /** Frame i of those is the pose of line start + i. */
  lemma {:induction false} FramePosesAt(vs: seq<string>, start: int, n: int, boneCount: int, convert: Convert, glm: Glm)
    requires 0 <= start && start + n <= |vs|
    ensures forall i :: 0 <= i < n ==>
      FramePoses(vs, start, n, boneCount, convert, glm)[i] == Pose(Words(vs[start + i]), boneCount, convert, glm)
  {
    if n > 0 {
      FramePosesAt(vs, start, n - 1, boneCount, convert, glm);
    }
  }

  /** One more frame line read. */
  lemma FramePosesStep(vs: seq<string>, start: int, n: int, boneCount: int, convert: Convert, glm: Glm,
                       frames: seq<seq<Mat4>>, frame: seq<Mat4>)
    requires 0 <= start && 0 <= n && start + n < |vs|
    requires frames == FramePoses(vs, start, n, boneCount, convert, glm)
    requires frame == Pose(Words(vs[start + n]), boneCount, convert, glm)
    ensures frames + [frame] == FramePoses(vs, start, n + 1, boneCount, convert, glm)
  {
  }

  /** The loop over the frame lines (lines 25 to 30): the bones of each of frameCount lines
      from vs[start] on; ok is false, where getNextValidLine aborts, when vs ends first. */
  method ReadFrames(vs: seq<string>, start: int, frameCount: int, boneCount: int, convert: Convert, glm: Glm)
    returns (frames: seq<seq<Mat4>>, ok: bool)
    requires 0 <= start <= |vs| && boneCount >= 0
    ensures ok <==> |vs| - start >= frameCount
    ensures ok ==> frames == FramePoses(vs, start, frameCount, boneCount, convert, glm)
  {
    frames := [];
    var i := 0;
    while i < frameCount && start + i < |vs|
      invariant 0 <= i <= |vs| - start && (frameCount >= 0 ==> i <= frameCount)
      invariant frameCount < 0 ==> i == 0
      invariant frames == FramePoses(vs, start, i, boneCount, convert, glm)
    {
      var frame := ProcessLine(vs[start + i], boneCount, convert, glm);
      FramePosesStep(vs, start, i, boneCount, convert, glm, frames, frame);
      frames := frames + [frame];
      i := i + 1;
    }
    ok := i >= frameCount;
  }

  /** The loop building itPose: the inverse of every T-pose matrix. */
  method InversePose(tPose: seq<Mat4>, inverse: Mat4 -> Mat4) returns (itPose: seq<Mat4>)
    ensures |itPose| == |tPose| && forall j :: 0 <= j < |tPose| ==> itPose[j] == inverse(tPose[j])
  {
    itPose := [];
    for j := 0 to |tPose|
      invariant |itPose| == j && forall k :: 0 <= k < j ==> itPose[k] == inverse(tPose[k])
    {
      itPose := itPose + [inverse(tPose[j])];
    }
  }

  /** The nested loop building animationMatrices: for every frame, each bone's matrix times
      the inverse T-pose matrix of the same bone. */
  method AnimationMatrices(bones: seq<seq<Mat4>>, itPose: seq<Mat4>) returns (am: seq<seq<Mat4>>)
    requires forall i :: 0 <= i < |bones| ==> |bones[i]| == |itPose|
    ensures |am| == |bones| && forall i :: 0 <= i < |bones| ==> |am[i]| == |itPose|
    ensures forall i, j :: 0 <= i < |bones| && 0 <= j < |itPose| ==> am[i][j] == MulMat(bones[i][j], itPose[j])
  {
    am := [];
    for i := 0 to |bones|
      invariant |am| == i && forall k :: 0 <= k < i ==> |am[k]| == |itPose|
      invariant forall k, j :: 0 <= k < i && 0 <= j < |itPose| ==> am[k][j] == MulMat(bones[k][j], itPose[j])
    {
      var animMat := [];
      for j := 0 to |itPose|
        invariant |animMat| == j && forall k :: 0 <= k < j ==> animMat[k] == MulMat(bones[i][k], itPose[k])
      {
        animMat := animMat + [MulMat(bones[i][j], itPose[j])];
      }
      am := am + [animMat];
    }
  }

  /** Frame i of a loaded skeleton holds the bones of valid line 2 + i, each of them the
      matrix of seven numbers of that line, and each of its frames as many bones as the
      T-pose. */
  lemma LoadedFrames(b: Bones, vs: seq<string>, convert: Convert, glm: Glm)
    requires Loads(vs, convert) && b.Loaded(vs, convert, glm)
    ensures |b.bones| == FrameCountOf(vs[0], convert)
    ensures |b.tPose| == BoneCountOf(vs[0], convert)
    ensures forall i :: 0 <= i < |b.bones| ==> b.bones[i] == Pose(Words(vs[2 + i]), BoneCountOf(vs[0], convert), convert, glm)
    ensures forall i, j :: 0 <= i < |b.bones| && 0 <= j < |b.tPose| ==>
      b.bones[i][j] == BoneMatrix(Words(vs[2 + i]), j, convert, glm)
  {
    var fc, bc := FrameCountOf(vs[0], convert), BoneCountOf(vs[0], convert);
    FramePosesAt(vs, 2, fc, bc, convert, glm);
    forall i | 0 <= i < fc
      ensures forall j :: 0 <= j < bc ==> b.bones[i][j] == BoneMatrix(Words(vs[2 + i]), j, convert, glm)
    {
      PoseBones(Words(vs[2 + i]), bc, convert, glm);
    }
  }

  /** The 4x4 identity. */
  const Identity4 := Mat4(Vec4(1.0, 0.0, 0.0, 0.0), Vec4(0.0, 1.0, 0.0, 0.0),
                          Vec4(0.0, 0.0, 1.0, 0.0), Vec4(0.0, 0.0, 0.0, 1.0))

  /** A frame that repeats the T-pose does not move the mesh: when inverse is a right inverse,
      each of its animation matrices is the identity, so skinning by it leaves the bind pose as
      it is. */
  lemma RestFrameIsIdentity(b: Bones, vs: seq<string>, convert: Convert, glm: Glm, i: int)
    requires Loads(vs, convert) && b.Loaded(vs, convert, glm)
    requires 0 <= i < |b.bones| && b.bones[i] == b.tPose
    requires forall m :: MulMat(m, glm.inverse(m)) == Identity4
    ensures forall j :: 0 <= j < |b.tPose| ==> b.animationMatrices[i][j] == Identity4
  {
    forall j | 0 <= j < |b.tPose|
      ensures b.animationMatrices[i][j] == Identity4
    {
      assert b.animationMatrices[i][j] == MulMat(b.bones[i][j], b.itPose[j]);
      assert b.itPose[j] == glm.inverse(b.tPose[j]);
    }
  }
}
