/**
 * The texture matrix of a skinned mesh (A2 TextureMatrix.cpp): a 3x3 matrix T whose
 * translation column the keyboard shifts around a texture atlas, to animate the mouth, the
 * eyes and the brows of a face.  The part of the face a mesh is chosen from its file name.
 */
module TextureMatrices {
  import opened Linear

  /** A key code as GLFW's character callback passes it (unsigned int). */
  newtype uint32 = x: int | 0 <= x < 0x1_0000_0000

  /** The part of the character a mesh draws; NoPart is the source's NONE. */
  datatype Part = NoPart | Body | Mouth | Eyes | Brows

  /** glm::mat3, column by column: c2 is what the source writes as T[2]. */
  datatype Mat3 = Mat3(c0: Vec3, c1: Vec3, c2: Vec3)

  const Identity3 := Mat3(Vec3(1.0, 0.0, 0.0), Vec3(0.0, 1.0, 0.0), Vec3(0.0, 0.0, 1.0))

  /** pat occurs in s at index i. */
  predicate OccursAt(s: string, pat: string, i: int)
  {
    0 <= i <= |s| - |pat| && s[i..i + |pat|] == pat
  }

  /** str.find(pat) != npos: pat occurs somewhere in s. */
  predicate Contains(s: string, pat: string)
  {
    exists i | 0 <= i <= |s| - |pat| :: OccursAt(s, pat, i)
  }

  /** setType's classification: the first of "Body", "Mouth", "Eyes", "Brows" that occurs in the
      name decides. */
  function Classify(name: string): Part
  {
    if Contains(name, "Body") then Body
    else if Contains(name, "Mouth") then Mouth
    else if Contains(name, "Eyes") then Eyes
    else if Contains(name, "Brows") then Brows
    else NoPart
  }

  /** Each part is chosen exactly when its word occurs in the name and no word before it in
      the order Body, Mouth, Eyes, Brows does; NoPart when none occurs. */
  lemma ClassifyPriority(name: string)
    ensures Classify(name) == Body <==> Contains(name, "Body")
    ensures Classify(name) == Mouth <==> !Contains(name, "Body") && Contains(name, "Mouth")
    ensures Classify(name) == Eyes
        <==> !Contains(name, "Body") && !Contains(name, "Mouth") && Contains(name, "Eyes")
    ensures Classify(name) == Brows
        <==> !Contains(name, "Body") && !Contains(name, "Mouth") && !Contains(name, "Eyes")
             && Contains(name, "Brows")
    ensures Classify(name) == NoPart
        <==> !Contains(name, "Body") && !Contains(name, "Mouth") && !Contains(name, "Eyes")
             && !Contains(name, "Brows")
  {
  }

  /** A name holding two words gets the earlier one in the priority order, wherever the words
      stand in it. */
  lemma ClassifyEyesBeforeBrows()
    ensures Classify("BrowsEyes") == Eyes
  {
    var s := "BrowsEyes";
    assert OccursAt(s, "Eyes", 5);
    assert !Contains(s, "Body") by {
      forall i
        ensures !OccursAt(s, "Body", i)
      {
        if 0 <= i <= |s| - 4 {
          assert s[i..i + 4][0] == s[i] && s[i..i + 4][1] == s[i + 1];
        }
      }
    }
    assert !Contains(s, "Mouth") by {
      forall i
        ensures !OccursAt(s, "Mouth", i)
      {
        if 0 <= i <= |s| - 5 {
          assert s[i..i + 5][0] == s[i];
        }
      }
    }
  }

  /** The keys that move the matrix of a part: m and M for the mouth, e and E for the eyes, b
      for the brows. */
  function Keys(p: Part): set<uint32>
  {
    match p
    case Mouth => {'m' as uint32, 'M' as uint32}
    case Eyes => {'e' as uint32, 'E' as uint32}
    case Brows => {'b' as uint32}
    case _ => {}
  }

  /** The translation x of T, moved by step and wrapped by fmod at period. */
  function ShiftX(T: Mat3, step: real, period: real): Mat3
    requires period > 0.0
  {
    T.(c2 := T.c2.(x := FMod(T.c2.x + step, period)))
  }

  /** The translation y of T, moved by step and wrapped by fmod at period. */
  function ShiftY(T: Mat3, step: real, period: real): Mat3
    requires period > 0.0
  {
    T.(c2 := T.c2.(y := FMod(T.c2.y + step, period)))
  }

  /** T after update(key) on a matrix of part p. */
  function Updated(p: Part, key: uint32, T: Mat3): Mat3
  {
    match p
    case Mouth =>
      if key == 'm' as uint32 then ShiftX(T, 0.1, 0.3)
      else if key == 'M' as uint32 then ShiftY(T, 0.1, 1.0)
      else T
    case Eyes =>
      if key == 'e' as uint32 then ShiftX(T, 0.2, 0.6)
      else if key == 'E' as uint32 then ShiftY(T, 0.1, 1.0)
      else T
    case Brows => if key == 'b' as uint32 then ShiftY(T, 0.1, 1.0) else T
    case _ => T
  }

  /** update changes at most one of the translation x and y of T and nothing else; a key
      that is not one of the part's leaves T as it is (every key, for the body and for a mesh
      of no part). */
  lemma UpdateOnlyMovesTranslation(p: Part, key: uint32, T: Mat3)
    ensures var U := Updated(p, key, T);
      U.c0 == T.c0 && U.c1 == T.c1 && U.c2.z == T.c2.z
      && (U.c2.x == T.c2.x || U.c2.y == T.c2.y)
      && (key !in Keys(p) ==> U == T)
  {
  }

  /** The translation of a part's matrix lies in its cycle: [0, 0.3) x [0, 1) for the mouth,
      [0, 0.6) x [0, 1) for the eyes, y in [0, 1) for the brows. */
  predicate InCycle(p: Part, T: Mat3)
  {
    match p
    case Mouth => 0.0 <= T.c2.x < 0.3 && 0.0 <= T.c2.y < 1.0
    case Eyes => 0.0 <= T.c2.x < 0.6 && 0.0 <= T.c2.y < 1.0
    case Brows => 0.0 <= T.c2.y < 1.0
    case _ => true
  }

  /** The identity a matrix starts from lies in every cycle, and update keeps a non-negative
      translation in its cycle. */
  lemma UpdateStaysInCycle(p: Part, key: uint32, T: Mat3)
    requires T.c2.x >= 0.0 && T.c2.y >= 0.0
    ensures InCycle(p, Identity3)
    ensures InCycle(p, T) ==> InCycle(p, Updated(p, key, T))
    ensures Updated(p, key, T).c2.x >= 0.0 && Updated(p, key, T).c2.y >= 0.0
  {
  }

  /** T after n presses of key. */
  function Presses(p: Part, key: uint32, n: nat, T: Mat3): Mat3
  {
    if n == 0 then T else Updated(p, key, Presses(p, key, n - 1, T))
  }

  /** Over the reals, three presses of m bring the mouth back to its start column, ten presses
      of M to its start row. */
  lemma MouthCycles()
    ensures Presses(Mouth, 'm' as uint32, 3, Identity3) == Identity3
    ensures Presses(Mouth, 'M' as uint32, 10, Identity3) == Identity3
  {
    MouthColumnCycle(Mouth, 'm' as uint32);
    RowCycle(Mouth, 'M' as uint32);
  }

  /** Three presses of e bring the eyes back to their start column; ten presses of E, or of b
      for the brows, to the start row. */
  lemma EyesAndBrowsCycle()
    ensures Presses(Eyes, 'e' as uint32, 3, Identity3) == Identity3
    ensures Presses(Eyes, 'E' as uint32, 10, Identity3) == Identity3
    ensures Presses(Brows, 'b' as uint32, 10, Identity3) == Identity3
  {
    EyesColumnCycle(Eyes, 'e' as uint32);
    RowCycle(Eyes, 'E' as uint32);
    RowCycle(Brows, 'b' as uint32);
  }

  /** A key that moves the translation x by 0.1 modulo 0.3 brings the identity back after
      three presses. */
  lemma MouthColumnCycle(p: Part, key: uint32)
    requires forall T :: Updated(p, key, T) == ShiftX(T, 0.1, 0.3)
    ensures Presses(p, key, 3, Identity3) == Identity3
  {
    var k := 0;
    while k < 3
      invariant 0 <= k <= 3
      invariant Presses(p, key, k, Identity3) == Translated(false, if k == 3 then 0.0 else k as real / 10.0)
    {
      Press(p, key, k, false, k as real / 10.0, 0.1, 0.3);
      k := k + 1;
    }
  }

  /** A key that moves the translation x by 0.2 modulo 0.6 brings the identity back after
      three presses. */
  lemma EyesColumnCycle(p: Part, key: uint32)
    requires forall T :: Updated(p, key, T) == ShiftX(T, 0.2, 0.6)
    ensures Presses(p, key, 3, Identity3) == Identity3
  {
    var k := 0;
    while k < 3
      invariant 0 <= k <= 3
      invariant Presses(p, key, k, Identity3) == Translated(false, if k == 3 then 0.0 else k as real / 5.0)
    {
      Press(p, key, k, false, k as real / 5.0, 0.2, 0.6);
      k := k + 1;
    }
  }

  /** A key that moves the translation y by 0.1 modulo 1 brings the identity back after ten
      presses. */
  lemma RowCycle(p: Part, key: uint32)
    requires forall T :: Updated(p, key, T) == ShiftY(T, 0.1, 1.0)
    ensures Presses(p, key, 10, Identity3) == Identity3
  {
    var k := 0;
    while k < 10
      invariant 0 <= k <= 10
      invariant Presses(p, key, k, Identity3) == Translated(true, if k == 10 then 0.0 else k as real / 10.0)
    {
      Press(p, key, k, true, k as real / 10.0, 0.1, 1.0);
      k := k + 1;
    }
  }

  /** The identity with its translation x (or y, when row holds) set to v. */
  function Translated(row: bool, v: real): Mat3
  {
    Identity3.(c2 := if row then Vec3(0.0, v, 1.0) else Vec3(v, 0.0, 1.0))
  }

  /** One more press of a key that moves the translation x (or y) of the identity by step,
      modulo period: from v it goes to v + step, or back to 0 when that reaches the period. */
  lemma Press(p: Part, key: uint32, n: nat, row: bool, v: real, step: real, period: real)
    requires 0.0 <= v && 0.0 < step && v + step <= period
    requires forall T :: Updated(p, key, T) == if row then ShiftY(T, step, period) else ShiftX(T, step, period)
    requires Presses(p, key, n, Identity3) == Translated(row, v)
    ensures Presses(p, key, n + 1, Identity3) == Translated(row, if v + step == period then 0.0 else v + step)
  {
    var w := if v + step == period then 0.0 else v + step;
    FModStep(v + step, period);
    var T := Translated(row, v);
    assert Presses(p, key, n + 1, Identity3) == Updated(p, key, T);
    if row {
      assert ShiftY(T, step, period) == Translated(row, w);
    } else {
      assert ShiftX(T, step, period) == Translated(row, w);
    }
  }

  /** fmod(a, period) for a in (0, period]: a itself, or 0 at the period. */
  lemma FModStep(a: real, period: real)
    requires 0.0 < a <= period
    ensures FMod(a, period) == if a == period then 0.0 else a
  {
    if a == period {
      FModAt(a, period, 1);
    } else {
      FModAt(a, period, 0);
    }
  }

  /** fmod(a, period) when a lies in [q period, (q + 1) period). */
  lemma FModAt(a: real, period: real, q: int)
    requires period > 0.0 && q >= 0 && q as real * period <= a < (q + 1) as real * period
    ensures FMod(a, period) == a - q as real * period
  {
    var d := a / period;
    assert q as real <= d < (q + 1) as real by {
      assert a == d * period;
      if d < q as real {
        MulMonotone(period, d, q as real);
      }
      if d >= (q + 1) as real {
        MulMonotone(period, (q + 1) as real, d);
      }
    }
    assert Trunc(d) == q;
  }

  /** A texture matrix: the part it belongs to and the matrix T. */
  class TextureMatrix {
    var part: Part
    var T: Mat3

    /** A new matrix belongs to no part and is the identity. */
    constructor ()
      ensures part == NoPart && T == Identity3
    {
      part := NoPart;
      T := Identity3;
    }

    /** setType: classify the mesh by its name. */
    method SetType(name: string)
      modifies this
      ensures part == Classify(name) && T == old(T)
    {
      if Contains(name, "Body") {
        part := Body;
      } else if Contains(name, "Mouth") {
        part := Mouth;
      } else if Contains(name, "Eyes") {
        part := Eyes;
      } else if Contains(name, "Brows") {
        part := Brows;
      } else {
        part := NoPart;
      }
    }

    /** update(key): move the translation of T for the keys of the matrix's part. */
    method Update(key: uint32)
      modifies this
      ensures part == old(part) && T == Updated(part, key, old(T))
    {
      if part == Body {
      } else if part == Mouth {
        if key == 'm' as uint32 {
          T := T.(c2 := T.c2.(x := FMod(T.c2.x + 0.1, 0.3)));
        } else if key == 'M' as uint32 {
          T := T.(c2 := T.c2.(y := FMod(T.c2.y + 0.1, 1.0)));
        }
      } else if part == Eyes {
        if key == 'e' as uint32 {
          T := T.(c2 := T.c2.(x := FMod(T.c2.x + 0.2, 0.6)));
        } else if key == 'E' as uint32 {
          T := T.(c2 := T.c2.(y := FMod(T.c2.y + 0.1, 1.0)));
        }
      } else if part == Brows {
        if key == 'b' as uint32 {
          T := T.(c2 := T.c2.(y := FMod(T.c2.y + 0.1, 1.0)));
        }
      }
    }
  }
}
