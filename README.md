# Computer animation assignments, modelled in Dafny

This project models the logic at the centre of three computer animation assignments:

- **A5, the cloth.** A rows × cols grid of particles joined by five families of springs. Two
  particles are pinned. Each free particle owns three unknowns of a global system.
  - The constructor lays out the particles, the springs, the texture coordinates and a
    triangle-strip index buffer.
  - `updatePosNor` copies positions into the vertex buffer. It writes the normalised average of
    the unit normals of the 1, 2 or 4 triangles around each vertex into the normal buffer.
  - `step` assembles forces, a mass matrix and a stiffness matrix as triplet lists. It hands the
    system M − h²K to a conjugate-gradient solver and writes the solved velocities back into the
    free particles.
- **A1, a keyframed Catmull-Rom path.**
  - The choice of the four control points of a segment.
  - The spline basis.
  - The position and rotation at a parameter value.
  - The table from spline parameter to arc length.
- **A2, a skinned character.**
  - A getline-based reader of valid lines.
  - The skeleton file: a T-pose and frames of bone matrices, from which animation matrices are
    derived.
  - The attachment file: up to 12 (bone, weight) influences per vertex, in fixed rows.
  - Linear blend skinning of the vertex buffers for one frame.
  - Flattening an OBJ mesh's faces into an element buffer.
  - The texture matrix of a mesh part: a keyed state machine over its translation column.
  - The keyword file naming the resources to load, and the character callback.

Floating-point values are modelled as `real`. Some functions are given as parameters:

- the vector norm and the quaternion length;
- GLM's `mat4_cast` and `inverse`;
- the conversion of a word to a number;
- the sparse solver.

Where the source divides by a vector's length, the division is `Div`, which gives 0 for a zero
denominator.

Modules:

- `Linear`: vectors, matrices and quaternions over reals; C's `fmod` and `modf`.
- `ClothGrid`: index arithmetic of the grid (pinning, unknown offsets, spring families, neighbour
  triangles).
- `ClothStep` and `ClothProperties`: the time step as functions, and what is proved about them.
- `ClothSim` and `ClothLoops`: the `Cloth` class and the loops of its constructor,
  `updatePosNor` and `step`.
- `KeyframePath`: the path.
- `LineInput`: getline, `getNextValidLine`, reading words.
- `Skeleton`: the `Bones` class.
- `Skinning`: the `ShapeSkin` class.
- `TextureMatrices`: the `TextureMatrix` class.
- `AppInput`: `loadDataInputFile` and `char_callback`.

## Model

| member | source | states |
|---|---|---|
| ClothGrid.PinnedAtGrid | A5/src/Cloth.cpp:62-69 | the constructor's grid test `i == 0 && (j == 0 \|\| j == cols-1)` picks out exactly the particles at flat indices 0 and cols-1 |
| ClothGrid.PinnedBelow | A5/src/Cloth.cpp:45-70 | at most two pinned particles lie below any index k, and never more than k |
| ClothGrid.DofLayout | A5/src/Cloth.cpp:45-70 | free particles get offsets that are multiples of 3 and lie inside the system of size 3(rows·cols−2); a later free particle gets an offset at least 3 larger, so no two share an unknown |
| ClothGrid.DofEnds | A5/src/Cloth.cpp:45-70 | the first free particle gets offset 0, and the last one's three unknowns end exactly at n = 3(rows·cols−2) |
| ClothGrid.GridParam | A5/src/Cloth.cpp:49-53 | the parameter i/(n−1) of line i of n lies in [0, 1] |
| ClothGrid.GridPositionCorners | A5/src/Cloth.cpp:48-58 | the bilinear rest positions put the four corner particles exactly on x00, x01, x10, x11 |
| ClothGrid.LineLinks | A5/src/Cloth.cpp:74-80 | one line of a spring family holds one link per inner-loop iteration |
| ClothGrid.ShearLine | A5/src/Cloth.cpp:92-101 | one row of shear cells holds two links per cell |
| ClothGrid.FamilyCount | A5/src/Cloth.cpp:73-89 | a family of A lines of B links has A·B springs |
| ClothGrid.ShearCount | A5/src/Cloth.cpp:91-101 | the shear family has 2·(rows−1)·(cols−1) springs |
| ClothGrid.SpringCount | A5/src/Cloth.cpp:73-119 | the constructor creates rows(cols−1) + cols(rows−1) + 2(rows−1)(cols−1) + rows(cols−2) + cols(rows−2) springs |
| ClothGrid.LineIn | A5/src/Cloth.cpp:74-80 | every link of a family line joins two distinct in-grid particles, lower index first |
| ClothGrid.FamilyIn | A5/src/Cloth.cpp:73-119 | the same for every line of a family that fits the grid |
| ClothGrid.ShearLineIn | A5/src/Cloth.cpp:92-101 | the same for one row of shear cells |
| ClothGrid.ShearIn | A5/src/Cloth.cpp:92-101 | the same for all shear springs |
| ClothGrid.FamiliesFit | A5/src/Cloth.cpp:73-119 | the four stretch and bending families' loop bounds keep every computed index below rows·cols |
| ClothGrid.SpringsInGrid | A5/src/Cloth.cpp:73-119 | every spring joins two distinct particles of the grid |
| ClothGrid.LinksInConcat | A5/src/Cloth.cpp:73-119 | appending two in-grid link lists keeps every link in the grid |
| ClothGrid.TriangleCount | A5/src/Cloth.cpp:209-250 | a grid corner uses 1 triangle, another boundary vertex 2 and an interior vertex 4, so the divisor `count` is never 0 |
| ClothGrid.TrianglesInGrid | A5/src/Cloth.cpp:201-249 | every neighbour that a present triangle reads is inside the grid |
| ClothGrid.GridBounds | A5/src/Cloth.cpp:180-205 | k = i·cols+j is in the grid; k−cols is too when i > 0, and k+cols when i < rows−1 |
| ClothGrid.GridCoords | A5/src/Cloth.cpp:180 | row and column are recovered from k = i·cols+j by division and remainder |
| ClothGrid.FlatCoords | A5/src/Cloth.cpp:180 | every flat index of the grid is i·cols+j for one in-grid row and column |
| ClothSim.SpringsOf | A5/src/Cloth.cpp:73-119 | the springs made for a link list have one spring per link, in order |
| ClothSim.CreatedSpringAtRest | A5/src/Cloth.cpp:17-26 | a spring just made by createSpring has rest length equal to its current length, so in step it leaves the force vector unchanged |
| ClothSim.GridLayout | A5/src/Cloth.cpp:45-70 | the grid's pinning and offsets put every free particle's unknowns inside the system, at a multiple of 3, with later particles at later segments |
| ClothSim.GridParticleAt | A5/src/Cloth.cpp:48-70 | particle (i, j): its interpolated position, zero velocity, mass/(rows·cols), radius 0.02, pinned exactly at (0,0) and (0,cols−1), offset −1 when pinned and its running offset otherwise |
| ClothSim.BuildRow | A5/src/Cloth.cpp:52-70 | the inner particle loop extends the particles by one row, each equal to its GridParticle, and keeps n equal to 3 × the free particles so far |
| ClothSim.BuildParticles | A5/src/Cloth.cpp:45-71 | the particle loop makes rows·cols particles, each equal to its GridParticle, and ends with n = 3(rows·cols−2) |
| ClothSim.AddFamily | A5/src/Cloth.cpp:74-80 | a family loop appends exactly the springs of its links, in loop order |
| ClothSim.SpringsOfSnoc | A5/src/Cloth.cpp:78 | appending one link appends its createSpring spring |
| ClothSim.SpringsOfConcat | A5/src/Cloth.cpp:73-119 | the springs of a concatenation are the concatenation of the springs |
| ClothSim.AddShear | A5/src/Cloth.cpp:92-101 | the shear loops append, for each cell, k00→k11 and then k10→k01 |
| ClothSim.AddShearRow | A5/src/Cloth.cpp:93-100 | the inner shear loop appends the springs of one row of cells |
| ClothSim.ShearCellStep | A5/src/Cloth.cpp:94-99 | one shear cell's two springs extend the row's links and springs, with all indices in the grid |
| ClothSim.BuildSprings | A5/src/Cloth.cpp:73-119 | all five families together give exactly the springs of SpringLinks, every spring in the grid |
| ClothSim.SpringsOfFive | A5/src/Cloth.cpp:73-119 | appending the five families one after another gives the springs of their joined links |
| ClothSim.TexSnoc | A5/src/Cloth.cpp:139-140 | pushing (i/(rows−1), j/(cols−1)) extends the texture prefix by one vertex |
| ClothSim.BuildTexCoords | A5/src/Cloth.cpp:137-142 | texBuf has 2 entries per vertex: vertex k gets (row/(rows−1), col/(cols−1)), all in [0, 1] |
| ClothSim.BuildElements | A5/src/Cloth.cpp:145-153 | eleBuf has 2·cols·(rows−1) entries, consecutive pairs (q, q+cols), all below rows·cols |
| ClothSim.SetVec | A5/src/Cloth.cpp:182-184 | storing a vector at vertex k changes exactly entries 3k..3k+2 |
| ClothSim.SetVecOthers | A5/src/Cloth.cpp:182-184 | storing vertex k leaves every other vertex of the buffer as it was |
| ClothSim.NormalSumOpt | A5/src/Cloth.cpp:211-249 | an optional triangle adds its unit normal and one to the count exactly when it is present |
| ClothSim.TrianglesAt | A5/src/Cloth.cpp:201-249 | the four tests and neighbour pairs of the loop body give exactly the vertex's triangles |
| ClothSim.TrianglesSum | A5/src/Cloth.cpp:208-249 | the sum and count accumulated test by test are the sum and number of the vertex's triangle normals |
| ClothSim.VertexNormalByTests | A5/src/Cloth.cpp:201-251 | the vertex normal is the normalised mean of the four tests' contributions, with a positive count |
| ClothSim.AddTriangle | A5/src/Cloth.cpp:211-219 | one triangle test adds the triangle's unit normal and increments count when the triangle exists, and changes nothing otherwise |
| ClothSim.VertexNormalAt | A5/src/Cloth.cpp:201-251 | the loop body's normal is VertexNormal: the normalised mean of the unit normals of the vertex's 1, 2 or 4 triangles |
| ClothSim.Normals | A5/src/Cloth.cpp:189-256 | one normal per vertex |
| ClothSim.Positions | A5/src/Cloth.cpp:178-186 | entry k is particle k's position |
| ClothSim.NormalsAt | A5/src/Cloth.cpp:201 | entry i·cols+j of the normals is the normal of vertex (i, j) |
| ClothSim.ShownSnoc | A5/src/Cloth.cpp:182-184 | storing vector m extends the prefix of a buffer that shows the vectors by one |
| ClothSim.WriteVec | A5/src/Cloth.cpp:252-254 | the three writes at 3k, 3k+1, 3k+2 store x as vertex k and nothing else |
| ClothSim.WritePositionRow | A5/src/Cloth.cpp:179-185 | the inner position loop shows the positions of one more row |
| ClothSim.WriteNormalRow | A5/src/Cloth.cpp:190-255 | the inner normal loop shows the normals of one more row |
| ClothSim.WritePositions | A5/src/Cloth.cpp:178-186 | posBuf[3k..3k+2] is particle k's position for every k |
| ClothSim.WriteNormals | A5/src/Cloth.cpp:189-256 | norBuf[3k..3k+2] is vertex k's normal for every k |
| ClothSim.Cloth.constructor | A5/src/Cloth.cpp:28-154 | the particles are the grid particles, the springs are SpringsOf(SpringLinks), texBuf and eleBuf are as in BuildTexCoords and BuildElements, and the buffers show the particles |
| ClothSim.Cloth.Step | A5/src/Cloth.cpp:259-383 | with the corrected collision test, which skips pinned particles, f, M and K are those assembled from the particles before the step, v is the solver's result on M − h²K, b = Mv + hf and the previous v, each particle is advanced, and the buffers show the new particles |
| ClothSim.Cloth.Integrate | A5/src/Cloth.cpp:264-379 | with the corrected collision test, everything step does before it redraws, with the same state afterwards |
| ClothSim.Cloth.UpdatePosNor | A5/src/Cloth.cpp:175-257 | afterwards posBuf shows every position and norBuf every vertex normal |
| ClothStep.Zeros | A5/src/Cloth.cpp:266-267 | v.setZero() and f.setZero(): n entries, all zero |
| ClothStep.AddSeg | A5/src/Cloth.cpp:282 | f.segment(i, 3) += a adds a to entries i..i+2 and changes nothing else |
| ClothStep.SetSeg | A5/src/Cloth.cpp:293 | v.segment(i, 3) = a sets entries i..i+2 to a and changes nothing else |
| ClothStep.RightHandSide | A5/src/Cloth.cpp:364 | b = Mv + hf has one entry per unknown |
| ClothStep.PinnedContactOutOfRange | A5/src/Cloth.cpp:275-286 | as written, a pinned particle (offset −1) inside a sphere emits three collision triplets, the first at row −1, outside every n × n matrix |
| ClothStep.ContactVisit | A5/src/Cloth.cpp:277-286 | the corrected sphere test (pinned particles skipped) leaves v and the mass triplets alone and keeps the vectors' sizes |
| ClothStep.MassVisit | A5/src/Cloth.cpp:290-297 | gravity, velocity and mass of one particle leave the stiffness triplets alone and keep the sizes |
| ClothStep.ContactPass | A5/src/Cloth.cpp:275-287 | with the corrected sphere test, the sphere loop of one particle leaves v and the mass triplets alone |
| ClothStep.ParticlePass | A5/src/Cloth.cpp:272-298 | with the corrected sphere test, the particle loop keeps f and v of size n |
| ClothStep.DiagBlock | A5/src/Cloth.cpp:325-345 | a diagonal stiffness block has 9 triplets |
| ClothStep.CrossBlock | A5/src/Cloth.cpp:347-358 | a coupling block has 18 triplets |
| ClothStep.SpringVisit | A5/src/Cloth.cpp:306-358 | one spring changes only f and the stiffness triplets |
| ClothStep.ApplyPair | A5/src/Cloth.cpp:314-321 | adding ±fs to the free ends keeps f's size |
| ClothStep.SpringPass | A5/src/Cloth.cpp:304-359 | the spring loop appends exactly the stiffness triplets of the springs, in order, and leaves v and M alone |
| ClothStep.Assemble | A5/src/Cloth.cpp:265-359 | with the corrected sphere test, the assembly from zeroed f and v keeps both of size n |
| ClothLoops.AddContacts | A5/src/Cloth.cpp:275-287 | with the corrected sphere test, the sphere loop computes ContactPass |
| ClothLoops.AddParticleTerms | A5/src/Cloth.cpp:272-298 | with the corrected sphere test, the particle loop computes ParticlePass over all particles |
| ClothLoops.PushDiagBlock | A5/src/Cloth.cpp:327-333 | the nested loops push −Ks(j,k) at (b+j, b+k) row by row, which is DiagBlock |
| ClothLoops.PushCrossBlock | A5/src/Cloth.cpp:350-357 | the nested loops push Ks(j,k) at (b0+j, b1+k) and then at (b1+j, b0+k), which is CrossBlock |
| ClothLoops.CrossBlockPrefix | A5/src/Cloth.cpp:354-355 | the coupling block grows two mirrored entries at a time |
| ClothLoops.PushSpringTrips | A5/src/Cloth.cpp:325-358 | one spring's triplets: a −Ks block for each free end, and the coupling blocks only when both ends are free |
| ClothLoops.AddSpring | A5/src/Cloth.cpp:306-358 | the body of the spring loop computes SpringVisit |
| ClothLoops.AddSpringTerms | A5/src/Cloth.cpp:304-359 | the spring loop computes SpringPass over all springs |
| ClothLoops.AssembleStep | A5/src/Cloth.cpp:265-359 | with the corrected sphere test, the two assembly loops compute Assemble |
| ClothLoops.AdvanceProperties | A5/src/Cloth.cpp:372-379 | a pinned particle is unchanged; a free one takes v := v_new.segment(i, 3) and moves by h·v_new; the offset, mass and radius never change |
| ClothLoops.AdvanceAll | A5/src/Cloth.cpp:372-379 | the write-back loop advances every particle and only that |
| ClothProperties.EntryConcat | A5/src/Cloth.cpp:361 | setFromTriplets sums: the entry of a concatenation is the sum of the entries |
| ClothProperties.EntryNone | A5/src/Cloth.cpp:300 | a cell that no triplet addresses is zero |
| ClothProperties.EntryOne | A5/src/Cloth.cpp:300 | a cell that exactly one triplet addresses holds that triplet's value |
| ClothProperties.SymmetricConcat | A5/src/Cloth.cpp:361 | concatenating two symmetric triplet lists gives a symmetric matrix |
| ClothProperties.DiagonalOffZero | A5/src/Cloth.cpp:294-296 | a diagonal triplet list is zero off the diagonal |
| ClothProperties.DiagonalSymmetric | A5/src/Cloth.cpp:300 | a diagonal triplet list is symmetric |
| ClothProperties.DiagonalConcat | A5/src/Cloth.cpp:283-296 | concatenating diagonal lists keeps them diagonal |
| ClothProperties.DiagBlockEntry | A5/src/Cloth.cpp:327-344 | a diagonal block holds −Ks(r−b, c−b) inside its 3×3 square and 0 elsewhere |
| ClothProperties.CrossBlockEntry | A5/src/Cloth.cpp:350-357 | for non-overlapping ends, the coupling block holds Ks at (b0+j, b1+k) and at (b1+j, b0+k), and 0 elsewhere |
| ClothProperties.StiffnessSymmetric | A5/src/Cloth.cpp:324 | Ks = E/l² ((1−s) dx dxᵀ + s (dx·dx) I) is a symmetric 3×3 matrix |
| ClothProperties.DiagBlockSymmetric | A5/src/Cloth.cpp:327-344 | a diagonal block of a symmetric Ks is symmetric |
| ClothProperties.CrossBlockSymmetric | A5/src/Cloth.cpp:350-357 | the mirrored coupling blocks of a symmetric Ks are symmetric |
| ClothProperties.SpringTripsSymmetric | A5/src/Cloth.cpp:325-358 | one spring's stiffness triplets form a symmetric matrix |
| ClothProperties.ContactPassDiagonal | A5/src/Cloth.cpp:283-285 | collisions add only diagonal stiffness entries |
| ClothProperties.ParticlePassDiagonal | A5/src/Cloth.cpp:272-298 | the particle loop adds only diagonal entries, to K and to M |
| ClothProperties.StiffnessTripsSymmetric | A5/src/Cloth.cpp:304-359 | the springs' stiffness triplets form a symmetric matrix |
| ClothProperties.AssembleSymmetric | A5/src/Cloth.cpp:300-361 | the assembled M and K are symmetric |
| ClothProperties.SystemSymmetric | A5/src/Cloth.cpp:368 | with M and K symmetric, so is M − h²K, the matrix handed to the conjugate-gradient solver |
| ClothProperties.TripsInConcat | A5/src/Cloth.cpp:270-359 | concatenating in-range triplet lists keeps them in range |
| ClothProperties.ContactPassIn | A5/src/Cloth.cpp:275-287 | with pinned particles skipped, every collision triplet addresses a cell of the n × n system |
| ClothProperties.ParticlePassIn | A5/src/Cloth.cpp:272-298 | every mass and collision triplet addresses a cell of the system |
| ClothProperties.SpringTripsIn | A5/src/Cloth.cpp:325-358 | every stiffness triplet of a spring addresses a cell of the system |
| ClothProperties.StiffnessTripsIn | A5/src/Cloth.cpp:304-359 | the same for all springs |
| ClothProperties.AssembleIn | A5/src/Cloth.cpp:270-361 | every triplet of M and K lies in [0, n) × [0, n) |
| ClothProperties.FreeCount | A5/src/Cloth.cpp:290 | at most i of the first i particles are free |
| ClothProperties.ContactPassKeepsMass | A5/src/Cloth.cpp:275-287 | collisions emit no mass triplets |
| ClothProperties.MassTripletCount | A5/src/Cloth.cpp:289-297 | the particle loop emits exactly 3 mass triplets per free particle and none for a pinned one |
| ClothProperties.ResultantAddSeg | A5/src/Cloth.cpp:316-320 | adding a to one aligned segment adds a to the resultant force |
| ClothProperties.SpringForcesCancel | A5/src/Cloth.cpp:313-321 | a spring between two free particles leaves the resultant force unchanged: +fs and −fs cancel |
| ClothProperties.PairCancels | A5/src/Cloth.cpp:314-321 | adding fs to one free end and −fs to the other leaves the resultant unchanged |
| ClothProperties.RestSpringForceZero | A5/src/Cloth.cpp:311-313 | at its rest length a spring's force E·(l−L)/l·dx is zero |
| ClothProperties.AddSegZero | A5/src/Cloth.cpp:316 | adding the zero vector to a segment changes nothing |
| ClothProperties.RestSpringExertsNoForce | A5/src/Cloth.cpp:308-321 | a spring at its rest length leaves the force vector unchanged |
| ClothProperties.PairZero | A5/src/Cloth.cpp:314-321 | applying a zero force to both ends changes nothing |
| KeyframePath.GIndices | A1/src/Path.cpp:54-83 | the columns of G hold keyframes s and s+1 in the middle for every segment |
| KeyframePath.GIndicesInRange | A1/src/Path.cpp:60-80 | the selected indices all lie in [0, size) exactly when size ≥ 3 and 0 ≤ s ≤ size−2; with two keyframes segment 0 reads index 2 |
| KeyframePath.GPositionMatrix | A1/src/Path.cpp:54-83 | G's columns are the positions of keyframes [0,0,1,2] on segment 0 (the source checks this case first), [s−1,s,s+1,s+1] on segment size−2, and [s−1,s,s+1,s+2] otherwise |
| KeyframePath.MulVecBlend | A1/src/Path.cpp:96 | G·w is the combination of G's columns weighted by w |
| KeyframePath.BasisPolynomials | A1/src/Path.cpp:7-11 | B·(1,u,u²,u³) and B·(0,1,2u,3u²) are the Catmull-Rom blending polynomials and their derivatives |
| KeyframePath.PointIsProduct | A1/src/Path.cpp:95-96 | the point G·(B·(1,u,u²,u³)) is the blend PointAt |
| KeyframePath.TangentIsProduct | A1/src/Path.cpp:148 | the tangent G·(B·(0,1,2u,3u²)) is the blend TangentAt |
| KeyframePath.BasisEnds | A1/src/Path.cpp:7-11 | the basis gives G·(B·(1,0,0,0)) = G[1] and G·(B·(1,1,1,1)) = G[2] |
| KeyframePath.BasisStartTangent | A1/src/Path.cpp:7-11 | the tangent at u = 0 is half of G[2] − G[0] |
| KeyframePath.BasisEndTangent | A1/src/Path.cpp:7-11 | the tangent at u = 1 is half of G[3] − G[1] |
| KeyframePath.SegmentInterpolates | A1/src/Path.cpp:54-96 | each segment starts at keyframe s and ends at keyframe s+1 |
| KeyframePath.StartTangent | A1/src/Path.cpp:54-83 | the start tangent of a segment is half the difference of the keyframes around its start, with the first doubled on segment 0 |
| KeyframePath.EndTangent | A1/src/Path.cpp:54-83 | the end tangent of a segment is half the difference of the keyframes around its end, with the last doubled on the last segment |
| KeyframePath.TangentContinuous | A1/src/Path.cpp:54-83 | where two segments meet, the end tangent of the first equals the start tangent of the second |
| KeyframePath.SegmentOf | A1/src/Path.cpp:91-92 | (int)(modf's integral part + 0.01) of w ≥ 0 is ⌊w⌋ |
| KeyframePath.FractionOf | A1/src/Path.cpp:91 | modf's fractional part of w ≥ 0 lies in [0, 1) and with the segment adds up to w |
| KeyframePath.WrapBounds | A1/src/Path.cpp:87-92 | fmod(u, size−1) of u ≥ 0 is non-negative and its segment is in [0, size−2] |
| KeyframePath.CurrentPosition | A1/src/Path.cpp:85-101 | with fewer than 4 keyframes the position is the zero vector |
| KeyframePath.FModBelow | A1/src/Path.cpp:87 | fmod leaves a value below the modulus unchanged |
| KeyframePath.PositionAtKeyframe | A1/src/Path.cpp:85-101 | at the integral parameter s the position is keyframe s's position |
| KeyframePath.Aligned | A1/src/Path.cpp:113-118 | q1 is negated exactly as needed to put it on q0's hemisphere (dot ≥ 0) |
| KeyframePath.CurrentRotation | A1/src/Path.cpp:104-125 | with fewer than 2 keyframes the rotation is the identity |
| KeyframePath.RotationAtKeyframe | A1/src/Path.cpp:104-123 | at the integral parameter s the rotation is keyframe s's rotation, normalized |
| KeyframePath.Weight | A1/src/Path.cpp:143 | every Gauss-Legendre weight is positive |
| KeyframePath.GaussSumNonNegative | A1/src/Path.cpp:144-150 | the weighted sum of a non-negative integrand is non-negative |
| KeyframePath.SpeedAt | A1/src/Path.cpp:148-149 | the integrand at u is the length of the tangent, never negative |
| KeyframePath.PieceLength | A1/src/Path.cpp:138-151 | each subdivision's length estimate is non-negative |
| KeyframePath.Piece | A1/src/Path.cpp:135-151 | each segment's subdivision lengths are non-negative |
| KeyframePath.TableUpTo | A1/src/Path.cpp:132-153 | after i segments and j subdivisions the table has 1 + 5i + j entries |
| KeyframePath.TableStep | A1/src/Path.cpp:152 | each subdivision appends (i + (j+1)·0.2, previous arc length + its length) |
| KeyframePath.PiecesAt | A1/src/Path.cpp:135 | the piece lengths of segment i are computed from its G |
| KeyframePath.PiecesOfSegment | A1/src/Path.cpp:135-153 | all five piece lengths of segment i are computed from its G |
| KeyframePath.ParamTable | A1/src/Path.cpp:128-157 | the table has 1 + 5(size−1) entries |
| KeyframePath.TableKeys | A1/src/Path.cpp:132-152 | the table starts at (0, 0) and entry k has parameter k/5 |
| KeyframePath.TableArcMonotone | A1/src/Path.cpp:152 | with non-negative pieces the arc-length column never decreases |
| KeyframePath.ParamTableSorted | A1/src/Path.cpp:128-157 | the table starts at (0, 0), its parameters strictly increase and its arc lengths never decrease |
| KeyframePath.Path.constructor | A1/src/Path.cpp:3-12 | the path holds the given keyframes |
| KeyframePath.Path.AddKeyframe | A1/src/Path.cpp:49-52 | addKeyframe appends at the end and leaves the earlier keyframes unchanged |
| KeyframePath.Path.Tangent | A1/src/Path.cpp:148 | dp is the tangent of the curve G at u |
| KeyframePath.Path.SpeedAtNode | A1/src/Path.cpp:148-149 | the integrand at a node is the length of dp |
| KeyframePath.Path.SubdivisionLength | A1/src/Path.cpp:138-151 | the Gauss loop and the scaling after it compute the three-point estimate of subdivision j |
| KeyframePath.Path.PushSegment | A1/src/Path.cpp:136-153 | the loop over five subdivisions appends the segment's five table entries |
| KeyframePath.Path.CreateParameterizationTable | A1/src/Path.cpp:128-157 | the result is ParamTable of the keyframes |
| Linear.DirectionIgnoresTranslation | A2/src/ShapeSkin.cpp:200-211 | a matrix applied to a direction (w = 0) does not depend on its translation column |
| Linear.Trunc | A1/src/Path.cpp:91-92 | truncation toward zero: the integer within 1 of a, on zero's side |
| Linear.Frac | A1/src/Path.cpp:91 | modf's fractional part keeps the sign of its argument and stays within 1 of 0 |
| Linear.FMod | A1/src/Path.cpp:87 | C's fmod(a, m) lies in [0, m) for a ≥ 0 and in (−m, 0] for a < 0 |
| LineInput.LineEnd | A2/src/Helpers.cpp:6 | the first '\n' at or after pos, or the end of the text |
| LineInput.GetLineAt | A2/src/Helpers.cpp:6 | getline returns the characters up to the next '\n' and consumes it; without a '\n' it returns the rest and sets eof; what it consumes is exactly the line plus the '\n' |
| LineInput.Lines | A2/src/Helpers.cpp:6-10 | successive getlines return at least one line |
| LineInput.LinesJoin | A2/src/Helpers.cpp:6-10 | reading line by line loses nothing: the lines joined by '\n' are the text |
| LineInput.ValidLines | A2/src/Helpers.cpp:7 | every kept line is non-empty and does not start with '#' |
| LineInput.NextValidLineIsFirst | A2/src/Helpers.cpp:3-17 | getNextValidLine returns the first valid line left and aborts exactly when none is left; the valid lines after it are the rest, so successive calls give successive valid lines |
| LineInput.LastLineWithoutNewline | A2/src/Helpers.cpp:7-11 | a valid last line with no trailing '\n' is still returned, with eof set |
| LineInput.LineEndAt | A2/src/Helpers.cpp:6 | LineEnd is the first '\n' at or after pos |
| LineInput.InStream.constructor | A2/src/Bones.cpp:8-9 | a stream opened on a file reads its text from position 0 |
| LineInput.InStream.GetLine | A2/src/Helpers.cpp:6 | std::getline moves the stream exactly as GetLineAt says |
| LineInput.GetNextValidLine | A2/src/Helpers.cpp:3-17 | the loop returns the line and stream state NextValidLine gives, and fails exactly when it aborts |
| LineInput.WordLength | A2/src/Bones.cpp:58 | a word runs up to the first space |
| LineInput.Words | A2/src/Bones.cpp:58 | `>>` into strings yields non-empty words |
| LineInput.WordsHaveNoSpaces | A2/src/Bones.cpp:58 | no word holds a space |
| LineInput.Int32Of | A2/src/ShapeSkin.cpp:92 | `>>` into an int stores a value that fits, and the nearest limit otherwise |
| LineInput.IntAt | A2/src/ShapeSkin.cpp:106 | the k-th word read as a 32-bit int; a missing word reads 0 |
| Skeleton.BoneMatrixActs | A2/src/Bones.cpp:57-64 | a bone matrix maps a point to rotation·point + (px,py,pz), and a direction by the rotation only |
| Skeleton.Pose | A2/src/Bones.cpp:52-67 | processLine's result has boneCount matrices |
| Skeleton.PoseBones | A2/src/Bones.cpp:55-65 | matrix j is mat4_cast of the quaternion (w,x,y,z), read in file order x,y,z,w from words 7j..7j+3, with column 3 replaced by (px,py,pz,1) from words 7j+4..7j+6 |
| Skeleton.ProcessLine | A2/src/Bones.cpp:52-67 | the loop computes Pose of the line's words |
| Skeleton.OutOfFramesExactly | A2/src/Bones.cpp:86 | comparing the int frame with the size_t size converts a negative frame to a huge value, so the lookup goes ahead exactly when 0 ≤ frame < size |
| Skeleton.Bones.constructor | A2/src/Bones.cpp:6-13 | a skeleton whose file could not be read holds no poses and no frames |
| Skeleton.Bones.Load | A2/src/Bones.cpp:14-49 | loading succeeds exactly when the header, the T-pose line and frameCount frame lines are there, with frameCount and boneCount ≥ 0; then tPose, bones, itPose and animationMatrices are those of the lines |
| Skeleton.Bones.FrameCount | A2/src/Bones.cpp:69-72 | the number of stored frames |
| Skeleton.Bones.BonesAtFrame | A2/src/Bones.cpp:84-92 | a frame's bones are returned exactly when 0 ≤ frame < size, and are that frame's; the source aborts otherwise |
| Skeleton.Bones.AnimationMatricesAtFrame | A2/src/Bones.cpp:94-102 | the same guard and result for the animation matrices |
| Skeleton.OpenBones | A2/src/Bones.cpp:6-50 | a file that cannot be read leaves an empty skeleton with 0 frames; otherwise Load |
| Skeleton.FramePoses | A2/src/Bones.cpp:25-30 | frameCount frames of boneCount matrices each |
| Skeleton.FramePosesAt | A2/src/Bones.cpp:25-30 | frame i is the pose read from the i-th frame line |
| Skeleton.FramePosesStep | A2/src/Bones.cpp:29 | each frame line appends its pose |
| Skeleton.ReadFrames | A2/src/Bones.cpp:25-30 | the frame loop succeeds exactly when frameCount lines are left, and then reads FramePoses |
| Skeleton.InversePose | A2/src/Bones.cpp:32-36 | itPose[j] = inverse(tPose[j]) for every bone |
| Skeleton.AnimationMatrices | A2/src/Bones.cpp:38-47 | one table per frame, with animationMatrices[i][j] = bones[i][j] · itPose[j] |
| Skeleton.LoadedFrames | A2/src/Bones.cpp:16-47 | a loaded skeleton has frameCount frames and boneCount bones; bone j of frame i is the matrix read from line 2+i |
| Skeleton.RestFrameIsIdentity | A2/src/Bones.cpp:32-47 | a frame equal to the T-pose has identity animation matrices |
| Skinning.FillRow | A2/src/ShapeSkin.cpp:105-120 | a row is filled exactly when its nWeights influences fit the table; then slots 12i..12i+nWeights−1 hold the pairs in file order and the rest of the row holds bone 0 and weight 0; earlier rows are unchanged |
| Skinning.RowHoldsFrame | A2/src/ShapeSkin.cpp:99-121 | a filled row stays filled when later slots are written |
| Skinning.Live | A2/src/ShapeSkin.cpp:203-209 | update reads min(nInfluences, maxWeights) slots of a row for a count of 0 or more, and the whole row for a negative count, because the offset it is compared with is unsigned |
| Skinning.Accumulate | A2/src/ShapeSkin.cpp:201-212 | the inner loop, with its break on the unsigned comparison of the slot offset and the count, sums w·(A[b]·x) over exactly the live slots |
| Skinning.RowInside | A2/src/ShapeSkin.cpp:193-203 | with maxWeights = entries / numVerts, row i ends inside the table, so update never reads past a vertex's row |
| Skinning.NormalsIgnoreTranslation | A2/src/ShapeSkin.cpp:200-211 | the skinned normal does not depend on the animation matrices' translations |
| Skinning.LiveSlotsOnly | A2/src/ShapeSkin.cpp:203-212 | the skinned vertex depends only on the live slots of its row |
| Skinning.NegativeCountReadsPadding | A2/src/ShapeSkin.cpp:203-209 | a negative count makes update read the whole row; with the row all padding, as load leaves it for such a count, the vertex is the zero vector, as if no slot were read |
| Skinning.PaddingAddsNothing | A2/src/ShapeSkin.cpp:115-120 | reading the zero-weight padding as well would change nothing, so the break only saves work |
| Skinning.FixedPointBlend | A2/src/ShapeSkin.cpp:210-211 | when every live bone keeps x fixed, the blend is (Σw)·x |
| Skinning.RestPoseKeepsVertex | A2/src/ShapeSkin.cpp:210-211 | with identity animation matrices a vertex is scaled by its weight sum, and kept when the weights sum to 1 |
| Skinning.SkinnedStep | A2/src/ShapeSkin.cpp:214-219 | writing vertex n's skinned value extends the skinned prefix of the output by one vertex |
| Skinning.Zeros | A2/src/ShapeSkin.cpp:189-190 | a new vector<float>(n) has n zeros |
| Skinning.ZerosStep | A2/src/ShapeSkin.cpp:214-219 | writing vertex n keeps the entries after it zero |
| Skinning.SkinVertices | A2/src/ShapeSkin.cpp:196-220 | the vertex loop writes each vertex's skinned position (w = 1) and normal (w = 0) and leaves the entries past 3·numVerts zero |
| Skinning.SkinVertex | A2/src/ShapeSkin.cpp:199-219 | the loop body writes vertex i's skinned position and normal |
| Skinning.TotalPrefix | A2/src/ShapeSkin.cpp:63-71 | the face vertices of a prefix of the faces are no more than all of them |
| Skinning.UInt32Of | A2/src/ShapeSkin.cpp:69 | an index stored in the unsigned element buffer is taken modulo 2³² |
| Skinning.Unsigned | A2/src/ShapeSkin.cpp:69 | the conversion keeps the number of indices |
| Skinning.UnsignedAt | A2/src/ShapeSkin.cpp:69 | each index is converted on its own |
| Skinning.FaceElements | A2/src/ShapeSkin.cpp:63-74 | a mesh adds one element per face vertex |
| Skinning.ElementsStep | A2/src/ShapeSkin.cpp:59-75 | each shape appends its face elements after those of the earlier shapes |
| Skinning.ElementCount | A2/src/ShapeSkin.cpp:59-75 | elemBuf gains as many entries as the meshes have face vertices |
| Skinning.ShapeSkin.constructor | A2/src/ShapeSkin.cpp:20-29 | a new shape has a new texture matrix of type NONE with T = identity, and empty buffers and tables |
| Skinning.ShapeSkin.SetTextureMatrixType | A2/src/ShapeSkin.cpp:35-38 | the texture matrix gets the part the mesh name names, and T is unchanged |
| Skinning.ShapeSkin.LoadMesh | A2/src/ShapeSkin.cpp:40-77 | a failed load changes nothing; otherwise the vertex, normal and texture buffers are the loader's, the assert holds exactly when there are as many vertices as normals, and elemBuf gains the vertex indices of every face in order |
| Skinning.ShapeSkin.AppendFaces | A2/src/ShapeSkin.cpp:61-74 | the face loop appends the mesh's face elements |
| Skinning.ShapeSkin.AppendFace | A2/src/ShapeSkin.cpp:64-71 | one face appends its fv vertex indices |
| Skinning.ShapeSkin.NumVerts | A2/src/ShapeSkin.cpp:193 | numVerts = posBuf.size()/3 vertices fit in posBuf |
| Skinning.ShapeSkin.Update | A2/src/ShapeSkin.cpp:186-220 | the frame is skinned exactly when 0 ≤ k < frames; then the new buffers hold the skinned positions and normals of all numVerts vertices with maxWeights = boneIndices.size()/numVerts, and the bind-pose buffers are not changed |
| Skinning.ShapeSkin.LoadAttachment | A2/src/ShapeSkin.cpp:79-124 | a file that cannot be read changes nothing; otherwise loading succeeds exactly when the lines and sizes allow, and then there are new tables of 12·vertCount slots and vertCount counts, filled as the file says |
| Skinning.FillVertex | A2/src/ShapeSkin.cpp:102-120 | vertex i's count is stored and its row filled, and the earlier rows still hold |
| Skinning.FillTables | A2/src/ShapeSkin.cpp:99-121 | the vertex loop succeeds exactly when the file attaches, and then fills every row and count |
| TextureMatrices.ClassifyPriority | A2/src/TextureMatrix.cpp:23-36 | setType gives BODY iff the name contains "Body", MOUTH iff "Mouth" and not "Body", and so on: priority Body > Mouth > Eyes > Brows > NONE |
| TextureMatrices.ClassifyEyesBeforeBrows | A2/src/TextureMatrix.cpp:29-32 | a name holding both "Brows" and "Eyes" is EYES |
| TextureMatrices.UpdateOnlyMovesTranslation | A2/src/TextureMatrix.cpp:38-66 | update changes at most one of T[2].x and T[2].y and no other entry; a key not listed for the part changes nothing |
| TextureMatrices.UpdateStaysInCycle | A2/src/TextureMatrix.cpp:42-64 | the identity lies in every part's cycle ([0, 0.3) × [0, 1) for the mouth, [0, 0.6) × [0, 1) for the eyes, y in [0, 1) for the brows), every update keeps a non-negative translation in its cycle, and the translation never turns negative |
| TextureMatrices.MouthCycles | A2/src/TextureMatrix.cpp:42-50 | for MOUTH, 3 presses of 'm' and 10 of 'M' bring T back to the identity |
| TextureMatrices.EyesAndBrowsCycle | A2/src/TextureMatrix.cpp:51-64 | for EYES, 3 presses of 'e' and 10 of 'E' bring T back; for BROWS, 10 presses of 'b' |
| TextureMatrices.MouthColumnCycle | A2/src/TextureMatrix.cpp:45 | x := fmod(x+0.1, 0.3) returns to 0 after 3 presses |
| TextureMatrices.EyesColumnCycle | A2/src/TextureMatrix.cpp:54 | x := fmod(x+0.2, 0.6) returns to 0 after 3 presses |
| TextureMatrices.RowCycle | A2/src/TextureMatrix.cpp:49 | y := fmod(y+0.1, 1.0) returns to 0 after 10 presses |
| TextureMatrices.Press | A2/src/TextureMatrix.cpp:45-63 | one more press moves the translation by one step, wrapping to 0 at the modulus |
| TextureMatrices.FModStep | A2/src/TextureMatrix.cpp:45 | fmod(a, p) of 0 < a ≤ p is a, or 0 at p |
| TextureMatrices.FModAt | A2/src/TextureMatrix.cpp:45 | fmod(a, p) is a − q·p for the q with q·p ≤ a < (q+1)·p |
| TextureMatrices.TextureMatrix.constructor | A2/src/TextureMatrix.cpp:12-16 | a new texture matrix has type NONE and T = identity |
| TextureMatrices.TextureMatrix.SetType | A2/src/TextureMatrix.cpp:23-36 | the type is the name's classification and T is unchanged |
| TextureMatrices.TextureMatrix.Update | A2/src/TextureMatrix.cpp:38-66 | the type is unchanged and T is updated as the part and key say |
| AppInput.WordOr | A2/src/main.cpp:393-408 | `ss >> value` stores the next word, or leaves value as it was when the line has no more words |
| AppInput.DataInput.constructor | A2/src/main.cpp:28-34 | the input data starts empty |
| AppInput.LoadDataInputFile | A2/src/main.cpp:365-414 | a file that cannot be read changes nothing; otherwise the data is that of parsing, in order, every line getline returns before it reaches the end of the file |
| AppInput.ParseLine | A2/src/main.cpp:389-411 | the body of the loop for a line that is neither empty nor a comment parses it as Parsed says |
| AppInput.SkippedLinesChangeNothing | A2/src/main.cpp:382-388 | empty lines and '#' lines change nothing |
| AppInput.TextureAppendsOne | A2/src/main.cpp:394-396 | TEXTURE v appends exactly v to textureData and changes nothing else |
| AppInput.MeshAppendsThree | A2/src/main.cpp:397-405 | MESH a b c appends [a, b, c] to meshData and changes nothing else; with only two values the second is repeated |
| AppInput.UnknownKeyChangesNothing | A2/src/main.cpp:409-411 | a line with any other key word changes no field |
| AppInput.ParsedAllConcat | A2/src/main.cpp:375-412 | parsing two runs of lines one after the other parses their concatenation |
| AppInput.OthersKeepSkeleton | A2/src/main.cpp:394-411 | lines that are not SKELETON lines leave skeletonData alone |
| AppInput.LastSkeletonWins | A2/src/main.cpp:406-408 | SKELETON overwrites skeletonData, so the last SKELETON line wins |
| AppInput.FinalLineNotParsed | A2/src/main.cpp:377-381 | the lines parsed are all those getline returns except the last; that last one is the text after the last '\n', which is never parsed |
| AppInput.AsWrittenIndexOutOfBounds | A2/src/main.cpp:66 | as written, the character U+263A indexes keyToggles at 9786, past its 256 entries |
| AppInput.Toggled | A2/src/main.cpp:66 | toggling keeps the table's size |
| AppInput.ToggleTwiceRestores | A2/src/main.cpp:66 | two presses of a key restore the toggles |
| AppInput.ToggleFlipsOne | A2/src/main.cpp:66 | a key flips its own toggle and no other |
| AppInput.CharCallback | A2/src/main.cpp:64-73 | with a bound check on keyToggles: the key's toggle flips when it has one, and every shape's texture matrix is updated with the key |

## Left out

- GL, GLFW and GLEW code is not modelled: `init`, `draw`, `reloadVertices`, buffer uploads,
  `drawLines`, `drawCurve` and `drawHelis`. Neither is the rest of main.cpp (render loop, timing,
  mouse and cursor callbacks).
- Floating point: every quantity is a `real`, with no rounding and no float widths. The constants
  written as float literals (0.1f, 0.2, 1e1, sqrt(3/5)) are exact reals.
- Division by a zero vector length, which gives Inf or NaN in the source, is modelled by `Div`
  returning 0. This applies to coincident spring ends, collisions at a sphere's centre and
  zero-area triangles.
- Some behaviour is not written out but passed in as function parameters, so the model assumes
  only what is stated about them:
  - the vector norm and normalisation;
  - the quaternion length;
  - GLM's `mat4_cast` and `inverse`;
  - the Eigen conjugate-gradient solve, which is assumed only to return one value per unknown;
  - the conversion of a word to a number.
- `ClothSim.Cloth.Step`, `ClothStep.ContactVisit`, `ClothLoops.AddContacts`: the model is the
  corrected step of the first finding below, whose collision test skips pinned particles. As
  written (Cloth.cpp line 280) a pinned particle inside a sphere adds entries at offset −1,
  which is undefined behaviour; the model does not capture that step.
- `ClothSim.Cloth.Integrate`, `ClothStep.ContactPass`, `ClothStep.ParticlePass`,
  `ClothStep.Assemble`: built on the corrected collision test, as for `ClothSim.Cloth.Step`.
- `ClothLoops.AddParticleTerms`, `ClothLoops.AssembleStep`: built on the corrected collision
  test, as for `ClothSim.Cloth.Step`.
- `ClothSim.Cloth.constructor`: v starts as zeros. Eigen's `resize` (Cloth.cpp line 124) leaves
  it uninitialised, and the first step passes it to the solver as the warm start; the solver is
  a parameter and unconstrained, so the model cannot tell the two apart.
- `ClothSim.Cloth.Step`: the solver's result is not constrained beyond its length. Iterations,
  tolerance and convergence are recorded in the system passed in, but not modelled.
- `Particle::tare` and `reset`, `Cloth::tare` and `reset`: these live in files outside this model.
- Files are modelled as their text, or as the sequence of valid lines that successive
  `getNextValidLine` calls return. Whether a file opened is a boolean parameter. `tinyobj::LoadObj`
  is modelled by its result, `Option<ObjData>`.
- `LineInput.IntAt`: every numeric word is assumed to convert in full. A `>>` that stops inside
  a word (`3.5` read as an int leaves `.5` for the next read) and the failbit that a failed or
  out-of-range conversion sets, silencing every later read from the same stream, are not
  modelled. A missing word reads 0, where the source leaves the target as it was: a local
  (ShapeSkin.cpp lines 92 and 106, Bones.cpp lines 19 and 58) or, at ShapeSkin.cpp line 111, a
  value-initialised vector element.
- `LineInput.RealAt`: the same assumptions as `LineInput.IntAt`, for floats.
- `Skeleton.Bones.Load`, `Skinning.ShapeSkin.LoadAttachment`: a premature end of file, where
  `getNextValidLine` aborts, is modelled as `ok == false`. So are a negative count, where the
  vector constructor throws, and 12·vertCount overflowing an int.
- `Skinning.ShapeSkin.LoadAttachment`: a vertex whose influences would be written past the end of
  the tables is modelled as a failed load; in the source that write is undefined behaviour. A
  vertex with more than 12 influences that stays inside the tables writes into the next rows,
  as in the source, and those rows are filled afterwards.
- `Skinning.ShapeSkin.LoadMesh`: a failed `assert(posBuf.size() == norBuf.size())` is modelled as
  `ok == false` after the buffers are assigned. An OBJ index list shorter than its face counts is
  excluded by a precondition; the loader guarantees it.
- `Skinning.ShapeSkin.Update`: the conditions under which the source's vector accesses stay in
  bounds are preconditions (`Skinnable`): at least one vertex, matching buffer sizes, and live
  bone indices naming existing bones. The skeleton `bindBones` stores is passed as a parameter.
  The source does not check these conditions, and indexing out of bounds is undefined behaviour.
  `numVerts` and `maxWeights` are unsigned in the source; they are modelled as non-negative
  integers, without wrap-around.
- `Skinning.ShapeSkin.Update`: the new buffers are returned rather than uploaded to the GPU.
- `KeyframePath.CurrentPosition`, `KeyframePath.CurrentRotation`: the parameter, a time, is taken
  to be non-negative. For a negative u, fmod and modf give a negative segment and the source reads
  keyframe −1.
- `KeyframePath.Path.CreateParameterizationTable`: requires 1 or at least 3 keyframes. With 2,
  segment 0 reads keyframe 2 (see `KeyframePath.GIndicesInRange`). With 0, `size() - 1` wraps
  around.
- `KeyframePath.Path.constructor`: the helicopter it stores is used only for drawing and is not
  modelled.
- `KeyframePath.Path.SubdivisionLength`: the Gauss-Legendre abscissa sqrt(3/5) is the parameter
  `root` and is not constrained; `KeyframePath.Path.CreateParameterizationTable` and
  `KeyframePath.Path.PushSegment` take it the same way.
- The arc-length numbers themselves (the Gauss-Legendre estimate as a float) are not evaluated.
  Only the table's shape and monotonicity are proved.
- `AppInput.CharCallback`: a `char_callback` that receives a shape list. The window argument and
  the global `shapes` vector become parameters. The shapes are required to own distinct texture
  matrices, as the constructor makes them.
- Skinning on the GPU and the `keyToggles` switch between it and the CPU path are not modelled.

## Findings

| source | as written | input that shows it | evidently intended | confidence | as-written member | corrected member |
|---|---|---|---|---|---|---|
| A5/src/Cloth.cpp:275-286 | the collision branch adds force and stiffness entries at `particles[i]->i` without testing `fixed`, so a pinned particle uses offset −1 | a pinned particle (offset −1) within r + sphere radius of a sphere's centre: the triplet (−1, −1, c·d) and `f.segment(-1, 3)` | skip pinned particles, as the gravity, mass and spring terms of the same step do | not executed | ClothStep.PinnedContactOutOfRange | ClothProperties.ContactPassIn |
| A2/src/main.cpp:66 | `keyToggles[key]` indexes the 256-entry array with any Unicode code point GLFW passes | typing U+263A (code point 9786) | toggle only keys that have an entry, and still forward every key to the texture matrices | not executed | AppInput.AsWrittenIndexOutOfBounds | AppInput.CharCallback |
