# Verified models of Nalu-Wind kernels

Nalu-Wind is a wind-energy flow solver. This project models the parts of it whose correctness rests on more than one loop
at a time, and proves what they guarantee. Real numbers stand for `double`; the square root is a parameter required to be
one. Arrays, fields and buffers that the program updates in place are arrays or fields updated in place here.

* **Eigendecomposition and the perturbed Reynolds stress** (`Matrix3`, `Quaternion`, `Jacobi*`, `PlaneRotation`,
  `PivotAngle`, `SymDiagonalize2`, `SymDiagonalize3`, `UpdateOrder`, `AxisTurn`, `UpdateTilt`, `SpikeGrowth`,
  `OffGrowth`, `GrowthExample`, `CirclePass`, `FirstPass`, `CoupledStates`, `CoupledResults`, `CoupledRate`,
  `MatrixDistance`, `NearPass`, `SettledRun`, `DiagonaliseResults`, `IntendedRun`, `Reconstruction`,
  `StressPerturbation`, `Realisability`, `CornerConditions`): the 2x2 closed form, the 3x3 Jacobi loop on quaternions,
  scalar and SIMD, the reconstruction, and the sort, perturb and rebuild of the stress.
* **Edge flux** (`EdgeFlux`, `EdgeProfiles`, `EdgeDiffusion`, `EdgeAssembly`): van Leer limited extrapolation, the
  diffusive flux through the corrected gradient, the 2x2 block, the global sum.
* **Sparse graph** (`GraphRows`, `LocalGraph`, `GraphFinish`): CSR rows built by sorted block insertion, repeated per
  degree of freedom, and trimmed.
* **Atmospheric boundary layer top boundary** (`Offsets`, `Redundancy`, `Compaction`, `SamplePlane`, `PlaneGather`,
  `PlaneLists`, `PlaneSamples`, `InflowAverage`, `PlaneAverage`, `PlaneOwnership`, `PeriodicWidening`): sample points
  spread over ranks. A rank is a list, an Allgatherv is a concatenation, an Allreduce is a sum.
* **SIMD batching** (`SimdGroups`, `FaceBatchCount`, `SimdLanes`, `SimdPipeline`): groups, face batches, lanes, and the
  element and face pipelines against a plain loop.
* **Wall heat transfer** (`WallHeatTransfer`, `HeatLaws`), **non-conformal and nodal-gradient assembly**
  (`ScalarNonConformal`, `NonConformalLaws`, `NonConformalAssembly`, `FlatIndex`, `ProjectedGradient`, `GradientPatch`,
  `GradientAssembly`) and **scratch views** (`ScratchViews`).

Where the code does not do what it is meant to, the models follow the code:

* The 3x3 loop assigns the four quaternion components one after the other, each assignment reading components already
  overwritten (include/EigenDecomposition.h:241-244). That is not the quaternion product. `InPlaceExactIff` says exactly
  when the update is the intended rotation, `UpdateTurnsIff` exactly when it is at least a turn about the pivot axis, and
  `TiltIs` by how much it tilts the axis otherwise. Where it is a turn the pass contracts (`ParallelStep`); where it is
  not, no factor bounds what the pass leaves off the diagonal (`NoBound`, and `PassBoundedIff` for both directions).
  `SecondPass` says which second passes are which, and `SecondPassGrows` gives an input whose second pass leaves more than
  three times what the first has left. From any quaternion at all a pass contracts once the spread of its pivot is large
  against the pivot (`NearStep`), and a matrix whose diagonal entries are well apart keeps that over the whole run
  (`SettledContracts`). The first pass contracts but never clears its pivot (`FirstStep`), and on a matrix that couples
  two directions only every later pass squares what is left (`CoupledConverges`) without the matrix ever being
  diagonalised (`CoupledDiagonalIff`). Every exit nevertheless returns an exact decomposition (`FinalExact`).
  `IntendedStepContracts` and `IntendedRunContracts` are the reference: what passes with the quaternion product would do.
* The comparison for the largest off-diagonal entry is strict, so a tie ends the loop with D not diagonal, although the
  comment at include/EigenDecomposition.h:118-126 promises a diagonal D (`TieReturnsInput`).
* Because D need not be diagonal, perturbing its eigenvalues can take a realisable stress out of the realisable range
  (`RealisableLost`), and diffusion along an edge can then add to a difference instead of smoothing it
  (`LostEdgeGrowsIff`). `CornerIff` says exactly which entries of D keep a stress realisable whatever the weight: none off
  the diagonal for the first corner, one of at most 1/2 for the second, entries of at most 1/3 with a determinant that is
  not negative for the third. For a tie these are conditions on the entries of b (`TieCornerIff`). For a trace-free b
  that couples two directions only the third corner always fits, the first exactly if b is diagonal, and the second
  exactly if b is diagonal or the direction left out ranks last (`TraceFreeCoupledIff`). `StressRealisable` says by how
  little a stress can leave the range otherwise.
* Trimming the graph leaves a row with no valid index as it is, INVALID cells included (`KeptExactIff`).
* The capacity test of `MultiDimViews` joins its four conditions by "or", and the fourth always holds (`SlotsFitIff`).
* The wall heat flux subtracts the correction for skew edges that the edge algorithm adds. On a temperature linear in space
  the flux is the conducted heat if and only if the gradient sees area and edge vector alike (`LinearFluxExactIff`), as on
  an orthogonal mesh (`OrthogonalSeenAlike`); `SkewFluxWrong` is an edge where it is not.
* In the 2x2 closed form the program also divides by the norm when the off-diagonal entry is zero and then discards the
  result; the model divides only where the result is used.
* The shift loop of `insert` also copies cells from before the insertion point. Those targets are overwritten afterwards,
  but near the start of the array the cells read lie before it. `ShiftReadsInsideIff` says exactly when, and the methods
  up to `InsertRun` say it of their arguments: when a new start goes to the front of a row that begins fewer than
  numDof - 1 cells into the array. `FirstBlockReadsBefore` is such an input. The model leaves the copy out.

## Model

| member | source | states |
|---|---|---|
| Quaternion.ProductIsMul | include/EigenDecomposition.h:140-159 | the matrix of a quaternion product is the product of the matrices, for all quaternions |
| Quaternion.UnitOrthogonal | include/EigenDecomposition.h:140-159 | the matrix stored for a unit quaternion is orthogonal |
| JacobiRotation.TangentFacts | include/EigenDecomposition.h:206-213 | t solves t^2 + 2 theta t = 1 below the limit on theta, misses it by exactly t^2 above, and is a tangent of at most 45 degrees |
| JacobiRotation.TangentExactIff | include/EigenDecomposition.h:206-213 | t has the sign of theta, minus at zero, and solves t^2 + 2 theta t = 1 if and only if the magnitude of theta is below a million |
| JacobiRotation.HalfAngleFacts | include/EigenDecomposition.h:206-233 | the vector and scalar parts of the step are sine and cosine of half the angle with that tangent, on both branches |
| JacobiStep.PivotFacts | include/EigenDecomposition.h:181-201 | a pivot is chosen exactly when one off-diagonal entry is strictly larger in magnitude than the other two, and it is not zero |
| JacobiStep.RotationFacts | include/EigenDecomposition.h:219-233 | the rotation of a step is a unit quaternion about the pivot axis |
| JacobiStep.InPlaceNonzero | include/EigenDecomposition.h:241-244 | the component-by-component update never collapses a quaternion, so the normalisation can divide |
| JacobiStep.StepUnit | include/EigenDecomposition.h:241-249 | every pass leaves a unit quaternion |
| JacobiStep.ExitTest | include/EigenDecomposition.h:233-239 | the loop is left exactly when no off-diagonal entry is strictly the largest |
| JacobiStep.StepWithoutPivot | include/EigenDecomposition.h:219-249 | a pass without a pivot changes nothing |
| SymDiagonalize3.StoreRotation | include/EigenDecomposition.h:140-159 | the in-place stores give the rotation matrix of the quaternion |
| SymDiagonalize3.StoreCongruence | include/EigenDecomposition.h:161-180 | the stores through AQ, which read only the upper triangle of A, give Q-transposed A Q for symmetric A |
| SymDiagonalize3.ChooseRotation | include/EigenDecomposition.h:181-233 | the chain of conditional selections computes the rotation of the pivot |
| SymDiagonalize3.UpdateQuaternion | include/EigenDecomposition.h:241-249 | the sequential update and normalisation of q is one step of the run |
| SymDiagonalize3.SymDiagonalize | include/EigenDecomposition.h:115-251 | the loop of 24 passes ends, by break or by exhaustion, with Q and D of the same final quaternion, which FinalIsSteps counts |
| SymDiagonalize3.RunUnit | include/EigenDecomposition.h:139-250 | over any number of passes the quaternion stays unit |
| SymDiagonalize3.DecompositionExact | include/EigenDecomposition.h:139-180 | for any unit quaternion Q is orthogonal, D is symmetric, Q D Q-transposed is A, and trace and sum of squares are those of A |
| SymDiagonalize3.FinalExact | include/EigenDecomposition.h:123-126 | at every exit Q is orthogonal, D = Q-transposed A Q and A = Q D Q-transposed, whether or not D is diagonal |
| DiagonaliseResults.TieReturnsInput | include/EigenDecomposition.h:188-201 | a tie for the largest off-diagonal entry returns Q = I and D = A, so D is diagonal if and only if A is |
| DiagonaliseResults.EqualEntriesDiagonalIff | include/EigenDecomposition.h:118-126 | a symmetric matrix whose off-diagonal entries have the same magnitude k comes back diagonal if and only if k is 0 |
| DiagonaliseResults.RunStops | include/EigenDecomposition.h:235-239 | a run ends without a pivot or after all passes |
| DiagonaliseResults.RunIsSteps | include/EigenDecomposition.h:235-239 | leaving early gives what all passes would give |
| DiagonaliseResults.FinalIsSteps | include/EigenDecomposition.h:129-250 | what the loop of 24 passes returns is what exactly 23 steps lead to: the last pass no longer rebuilds Q and D |
| DiagonaliseResults.PassLanes | include/EigenDecomposition.h:139-250 | one pass over one matrix per SIMD lane, with the joint exit test, is one pass of each lane |
| DiagonaliseResults.SymDiagonalizeLanes | include/EigenDecomposition.h:139-250 | the SIMD loop, which leaves only when all lanes are done, gives every lane exactly its scalar result |
| JacobiConvergence.TurnOff | include/EigenDecomposition.h:161-180 | a turn about an axis changes the off-diagonal sum of squares only through the entry of that axis |
| JacobiConvergence.PivotShare | include/EigenDecomposition.h:188-201 | the pivot carries at least a third of the off-diagonal sum of squares |
| UpdateOrder.InPlaceExactIff | include/EigenDecomposition.h:241-249 | the update as written applies the rotation it was given if and only if that rotation keeps, or clears, the components assigned first |
| IntendedRun.ExactStepContracts | include/EigenDecomposition.h:241-249 | from any unit quaternion, under that condition a pass clears the pivot and lowers the off-diagonal sum by exactly twice its square |
| AxisTurn.UpdateError | include/EigenDecomposition.h:241-244 | from any unit quaternion the update misses the quaternion product by at most a second-order amount in the half angle |
| UpdateTilt.TiltIs | include/EigenDecomposition.h:241-244 | for any quaternion, axis and angle, how far the update tilts the axis: the area between the two pairs of components, squared, times a function of the angle |
| UpdateTilt.UpdateTurnsIff | include/EigenDecomposition.h:241-249 | from any unit quaternion the update turns about the pivot axis, by whatever angle, if and only if the two pairs are parallel |
| AxisTurn.ParallelTurn | include/EigenDecomposition.h:241-249 | from parallel pairs the update is the intended rotation followed by a small bounded further turn about the same axis, and leaves parallel pairs |
| AxisTurn.ParallelStep | include/EigenDecomposition.h:139-250 | a pass from parallel pairs leaves at most two fifths of the square of the pivot, the rest of the off-diagonal sum as it was, and at most four fifths of the sum |
| OffGrowth.NoBound | include/EigenDecomposition.h:139-250 | from any quaternion whose pairs are not parallel, and for any factor, an input on which the pass multiplies the off-diagonal sum by more than the factor |
| OffGrowth.PassBoundedIff | include/EigenDecomposition.h:139-250 | a pass is bounded by a given factor of at least 4/5 on all inputs if and only if it starts from parallel pairs |
| AxisTurn.ParallelClearsIff | include/EigenDecomposition.h:139-250 | from parallel pairs and below the limit on theta a pass clears the pivot if and only if the update is exact |
| PivotAngle.AngleIs | include/EigenDecomposition.h:206-233 | below the limit on theta the step takes the one angle of at most 45 degrees, in the sense of theta, that clears the pivot |
| FirstPass.FirstStep | include/EigenDecomposition.h:139-250 | for every symmetric matrix with a pivot, the first pass never clears it, leaves at most a tenth of its square, and at most seven tenths of the off-diagonal sum |
| FirstPass.SecondPass | include/EigenDecomposition.h:139-250 | for every pair of axes, whether the second pass starts from parallel pairs; if so, two passes leave at most 14/25 of the off-diagonal sum |
| GrowthExample.SecondPassGrows | include/EigenDecomposition.h:139-250 | an input, pivoting on x and then on z, whose second pass leaves more than three times the off-diagonal sum the first has left |
| NearPass.UpdateNear | include/EigenDecomposition.h:241-249 | from any unit quaternion, for a half angle with squared sine at most 0.0092, the normalised update is off the intended rotation by a turn of the second order in the half angle |
| NearPass.NearStep | include/EigenDecomposition.h:139-250 | from any unit quaternion, a pass whose squared spread is at least eight times its pivot times the size of the matrix leaves at most five sixths of the off-diagonal sum and moves no difference of diagonal entries far |
| SettledRun.SettledContracts | include/EigenDecomposition.h:139-250 | for every symmetric matrix whose squared differences of diagonal entries are at least 160 times its size times the size of what is off the diagonal, n passes leave at most (5/6)^n of the off-diagonal sum unless the loop has stopped at a tie, and never more than there was |
| IntendedRun.FirstStepMisses | include/EigenDecomposition.h:139-250 | concrete matrices that couple two directions by k: the first pass leaves a non-zero entry |
| DiagonaliseResults.CoupledRun | include/EigenDecomposition.h:139-250 | when only two directions are coupled, every pass leaves at most two fifths |
| CoupledStates.FirstTooFar | include/EigenDecomposition.h:206-249 | on both branches of theta the first pass turns too far, by no more than the second order in the angle |
| CoupledStates.BackState | include/EigenDecomposition.h:206-249 | a pass from a quaternion that has turned too far turns back, on both branches of theta, still ends too far, and leaves a pivot of the second order in what it was |
| CoupledResults.CoupledRunDiagonalIff | include/EigenDecomposition.h:139-250 | after any number of passes, a matrix that couples two directions only is diagonal if and only if it was to begin with |
| CoupledResults.CoupledDiagonalIff | include/EigenDecomposition.h:118-126 | so for such a matrix D is diagonal if and only if A is |
| CoupledRate.CoupledSquares | include/EigenDecomposition.h:139-250 | for a matrix that couples two directions only, the first pass leaves at most a tenth of the off-diagonal sum and n further passes (24/1000)^(2^n - 1) of that |
| CoupledRate.CoupledConverges | include/EigenDecomposition.h:139-250 | so the whole run leaves at most a tenth of (24/1000)^(2^22 - 1) of the off-diagonal sum |
| SymDiagonalize2.Discriminant | include/EigenDecomposition.h:31-40 | the discriminant of a symmetric 2x2 matrix is not negative, and zero exactly for a multiple of the unit matrix |
| SymDiagonalize2.NormalisedColumn | include/EigenDecomposition.h:44-58 | the norm that divides a column is not zero when the column is used, and the column becomes a unit vector |
| SymDiagonalize2.ClosedForm | include/EigenDecomposition.h:34-58 | with a non-zero off-diagonal entry the eigenvectors are orthonormal, decompose A, belong to eigenvalues in descending order, and have the signs the columns are given |
| SymDiagonalize2.SymDiagonalize2 | include/EigenDecomposition.h:26-66 | for every symmetric 2x2 matrix Q is orthogonal, D is diagonal and Q D Q-transposed is A; descending eigenvalues and fixed column signs in one case, Q = I and D = A in the other |
| Reconstruction.MatrixMultiply | include/EigenDecomposition.h:257-270 | the triple loop computes the matrix product |
| Reconstruction.Reconstruct | include/EigenDecomposition.h:276-295 | the two multiplications compute Q D Q-transposed, for 2x2 and 3x3 |
| Reconstruction.DecomposeAndReconstruct | include/EigenDecomposition.h:115-295 | decomposing and reconstructing a symmetric 3x3 matrix returns it exactly |
| Reconstruction.DecomposeAndReconstruct2 | include/EigenDecomposition.h:26-110 | decomposing and reconstructing a symmetric 2x2 matrix returns it exactly |
| Reconstruction.UnsymForceSym | include/EigenDecomposition.h:301-315 | the in-place symmetrisation replaces A by the mean of A and its transpose, and the result decomposes exactly |
| StressPerturbation.Corner | src/AssembleScalarEigenEdgeSolverAlgorithm.C:101-116 | every bias option, known or not, gives corners that sum to zero, descend, and are at least -1/3 |
| StressPerturbation.Perturber.LargestFrom | src/AssembleScalarEigenEdgeSolverAlgorithm.C:528-533 | the inner loop finds the first of the largest remaining values |
| StressPerturbation.Perturber.SortRows | src/AssembleScalarEigenEdgeSolverAlgorithm.C:525-542 | the swaps keep data and row map in step and sort |
| StressPerturbation.Perturber.Sort | src/AssembleScalarEigenEdgeSolverAlgorithm.C:513-543 | the row map is a permutation under which the eigenvalues descend, with equal ones in the order the swaps leave |
| StressPerturbation.RowsUnique | src/AssembleScalarEigenEdgeSolverAlgorithm.C:513-543 | order and ties together leave exactly one row map |
| StressPerturbation.Perturber.Perturb | src/AssembleScalarEigenEdgeSolverAlgorithm.C:548-563 | each sorted eigenvalue moves towards its own corner value; nothing else changes |
| StressPerturbation.PerturbedTrace | src/AssembleScalarEigenEdgeSolverAlgorithm.C:101-116 | the trace is scaled by 1 - delta, because the corners sum to zero |
| StressPerturbation.PerturbedDescending | src/AssembleScalarEigenEdgeSolverAlgorithm.C:548-563 | for delta between 0 and 1 the order is kept |
| StressPerturbation.ConjugatePositive | src/AssembleScalarEigenEdgeSolverAlgorithm.C:373-374 | a shifted Q D Q-transposed is positive semidefinite exactly when the shifted D is |
| StressPerturbation.DecomposeAndPerturb | src/AssembleScalarEigenEdgeSolverAlgorithm.C:364-371 | decomposition, sort and perturbation through the shared arrays |
| StressPerturbation.RebuildStress | src/AssembleScalarEigenEdgeSolverAlgorithm.C:373-384 | reconstruction and removal of the normalisation |
| StressPerturbation.PerturbStress | src/AssembleScalarEigenEdgeSolverAlgorithm.C:364-384 | the whole pipeline stores the perturbed stress of b; for a trace-free b its trace is 2k(1 + perturbation), or 2e-16 where k(1 + perturbation) is below 1e-16 |
| StressPerturbation.EnergyKeptIff | src/AssembleScalarEigenEdgeSolverAlgorithm.C:376-384 | a trace-free stress gets exactly the perturbed kinetic energy asked for if and only if that is at least 1e-16 |
| StressPerturbation.StressTrace | src/AssembleScalarEigenEdgeSolverAlgorithm.C:364-384 | the trace of the stress is 2k(1 + (1 - delta) tr b), so 2k for a trace-free b |
| StressPerturbation.StressPositiveIff | src/AssembleScalarEigenEdgeSolverAlgorithm.C:364-384 | the stress is positive semidefinite exactly when the perturbed D shifted by 1/3 is, diagonal or not |
| Realisability.PerturbedAbove | src/AssembleScalarEigenEdgeSolverAlgorithm.C:548-563 | for any symmetric D with D + 1/3 positive semidefinite, perturbing loses at most delta times the off-diagonal magnitudes of D |
| Realisability.StressRealisable | src/AssembleScalarEigenEdgeSolverAlgorithm.C:364-384 | for every realisable b and delta between 0 and 1 the stress is positive semidefinite up to 2k delta times what the decomposition left off the diagonal |
| Realisability.DiagonalStressRealisable | src/AssembleScalarEigenEdgeSolverAlgorithm.C:364-384 | so a realisable b whose D came out diagonal gives a realisable stress |
| CornerConditions.FullWeightIff | src/AssembleScalarEigenEdgeSolverAlgorithm.C:548-563 | for every symmetric D and each corner, the entries of D off the diagonal for which D moved onto the corner is realisable: all zero; one of at most 1/2, between the two largest; at most 1/3 with a determinant that is not negative |
| CornerConditions.CornerIff | src/AssembleScalarEigenEdgeSolverAlgorithm.C:364-384 | a realisable b stays realisable for all delta between 0 and 1 if and only if the entries the decomposition leaves off the diagonal fit the corner so |
| CornerConditions.TieCornerIff | src/AssembleScalarEigenEdgeSolverAlgorithm.C:364-384 | for a b without a strictly largest off-diagonal entry: if and only if the entries of b fit the corner |
| CornerConditions.CoupledCornerIff | src/AssembleScalarEigenEdgeSolverAlgorithm.C:364-384 | for a b that couples two directions only: the first corner if and only if b is diagonal, the second if and only if b is diagonal or the direction left out ranks last, and the entry left over is at most 1/2, the third if and only if it is at most 1/3 |
| CornerConditions.TraceFreeCoupledIff | src/AssembleScalarEigenEdgeSolverAlgorithm.C:364-384 | for a trace-free such b: the first corner if and only if b is diagonal, the second if and only if b is diagonal or the direction left out ranks last, the third always |
| Realisability.CoupledStress | src/AssembleScalarEigenEdgeSolverAlgorithm.C:364-384 | for a realisable b that couples two directions only the loss is bounded by the square root of 3/20 (24/1000)^(2^22 - 1) of its off-diagonal sum |
| Realisability.SettledStress | src/AssembleScalarEigenEdgeSolverAlgorithm.C:364-384 | for a realisable b whose diagonal entries are well apart the loss is bounded by the square root of 3/2 of its off-diagonal sum, and of (5/6)^23 of that unless the loop stopped at a tie |
| Realisability.RealisableLost | src/AssembleScalarEigenEdgeSolverAlgorithm.C:364-384 | a realisable, trace-free b with delta = 1 whose stress is not positive semidefinite |
| StressPerturbation.StressDominated | src/AssembleScalarEigenEdgeSolverAlgorithm.C:364-384 | a D that is not diagonal still gives a positive semidefinite stress when each shifted diagonal entry dominates its row |
| EdgeFlux.VanLeerRange | src/AssembleScalarEigenEdgeSolverAlgorithm.C:501-508 | the limiter is 0 at an extremum and otherwise at least 0 and below 1 |
| EdgeProfiles.LimiterIs | src/AssembleScalarEigenEdgeSolverAlgorithm.C:501-508 | for differences a, b of one sign the limiter is 4ab / ((a + b)^2 + 1e-16), otherwise zero |
| EdgeFlux.LimitedStep | src/AssembleScalarEigenEdgeSolverAlgorithm.C:408-417 | a limited half step never passes the other node |
| EdgeProfiles.LimitedStepIs | src/AssembleScalarEigenEdgeSolverAlgorithm.C:408-417 | the limited half step is ab(a + b) / ((a + b)^2 + 1e-16): half the harmonic mean of the two differences up to the small number, zero at an extremum |
| EdgeProfiles.LinearProfile | src/AssembleScalarEigenEdgeSolverAlgorithm.C:408-466 | on a linear profile each extrapolated value is the midpoint up to a stated shortfall on its own side, and the value carried is the midpoint up to the upwinded part of it, for all options |
| EdgeProfiles.CentralOnCubic | src/AssembleScalarEigenEdgeSolverAlgorithm.C:450-466 | on a cubic the generalised central value misses the midpoint by the second difference times 1 - 2 alpha |
| EdgeProfiles.CentralExactIff | src/AssembleScalarEigenEdgeSolverAlgorithm.C:450-466 | so on a cubic with curvature it is exact if and only if alpha is a half |
| EdgeProfiles.SidesApart | src/AssembleScalarEigenEdgeSolverAlgorithm.C:408-420 | the left value depends on the left half-gradient only, the right value on the right one only |
| EdgeProfiles.ReversedBlock | src/AssembleScalarEigenEdgeSolverAlgorithm.C:408-491 | assembling the edge from its other end gives the same block and right-hand side with the nodes exchanged |
| EdgeFlux.LimitedFluxBounded | src/AssembleScalarEigenEdgeSolverAlgorithm.C:408-466 | with the limiter on and all factors in [0,1], both extrapolated values and the value carried by the flux lie between the nodal values |
| EdgeFlux.EdgeBlock | src/AssembleScalarEigenEdgeSolverAlgorithm.C:439-491 | the accumulated 2x2 block and right-hand side of an edge whose diffFlux and lhsfac FormEdge gives |
| EdgeFlux.BlockSums | src/AssembleScalarEigenEdgeSolverAlgorithm.C:439-491 | columns and right-hand side sum to zero and row sums are plus and minus the mass flow, for all blending factors |
| EdgeFlux.BlockIsFluxSensitivity | src/AssembleScalarEigenEdgeSolverAlgorithm.C:453-486 | without extrapolation the advective block applied to the nodal values is the advective flux |
| EdgeFlux.AddStressTerms | src/AssembleScalarEigenEdgeSolverAlgorithm.C:429-437 | the double loop adds the turbulent flux and its sensitivity, the quadratic form of the stress in the area vector |
| EdgeFlux.DiffusionDissipates | src/AssembleScalarEigenEdgeSolverAlgorithm.C:423-448 | with a positive semidefinite stress and non-negative coefficients the lhsfac of FormEdge is never positive |
| EdgeFlux.UpwindBlockSigns | src/AssembleScalarEigenEdgeSolverAlgorithm.C:468-486 | with full upwinding the block has the sign pattern of a monotone scheme |
| EdgeDiffusion.FormGradient | src/AssembleScalarEigenEdgeSolverAlgorithm.C:336-352 | the loops compute the corrected gradient at the face |
| EdgeDiffusion.FaceGradientExact | src/AssembleScalarEigenEdgeSolverAlgorithm.C:347-352 | the corrected gradient reproduces the difference of the nodal values along the edge |
| EdgeDiffusion.Extrapolate | src/AssembleScalarEigenEdgeSolverAlgorithm.C:393-406 | the half-gradients towards the midpoint and the correction for non-orthogonality |
| EdgeDiffusion.LaminarFlux | src/AssembleScalarEigenEdgeSolverAlgorithm.C:423-427 | the laminar flux with its correction is the flux of the corrected gradient through the area |
| EdgeDiffusion.FormEdge | src/AssembleScalarEigenEdgeSolverAlgorithm.C:336-437 | diffFlux and lhsfac of an edge: the laminar and turbulent flux of the corrected gradient, and its factor |
| EdgeDiffusion.FormBlock | src/AssembleScalarEigenEdgeSolverAlgorithm.C:336-491 | from the gathered values and the stress to the 2x2 block and right-hand side of the edge |
| EdgeDiffusion.LinearFieldExact | src/AssembleScalarEigenEdgeSolverAlgorithm.C:336-437 | a linear field: the corrected gradient is its gradient, the half-gradients are half the nodal difference, and diffFlux is the exact flux |
| EdgeDiffusion.ReversedDiffusion | src/AssembleScalarEigenEdgeSolverAlgorithm.C:336-437 | both ends of an edge see one corrected gradient, one lhsfac and opposite fluxes |
| EdgeDiffusion.FactorIsSensitivity | src/AssembleScalarEigenEdgeSolverAlgorithm.C:423-437 | lhsfac is exactly the change of diffFlux per change of the difference of the nodal values |
| EdgeDiffusion.PerturbedEdgeDissipates | src/AssembleScalarEigenEdgeSolverAlgorithm.C:364-437 | for every realisable b and delta between 0 and 1, lhsfac is not positive once the laminar viscosity covers what the perturbation may lose |
| EdgeDiffusion.CoupledEdgeDissipates | src/AssembleScalarEigenEdgeSolverAlgorithm.C:364-437 | for a realisable b that couples two directions only, a condition on b: lhsfac is not positive once the squared viscosity covers (24/1000)^(2^22 - 1) of its off-diagonal sum, scaled by the turbulent part |
| EdgeDiffusion.AllEdgesDissipateIff | src/AssembleScalarEigenEdgeSolverAlgorithm.C:423-437 | lhsfac is not positive on any edge if and only if the turbulent part of the stress plus the laminar viscosity on the diagonal is positive semidefinite |
| EdgeDiffusion.LostEdgeGrowsIff | src/AssembleScalarEigenEdgeSolverAlgorithm.C:364-437 | a realisable, trace-free b and an edge whose lhsfac at delta = 1 is positive if and only if the laminar viscosity is below 2/3 of the turbulent coefficient times k |
| EdgeDiffusion.PerturbedEdgeMonotone | src/AssembleScalarEigenEdgeSolverAlgorithm.C:364-486 | from b to the block: such an edge, fully upwinded, has the sign pattern of a monotone scheme |
| EdgeAssembly.GlobalSystem.Assemble | src/AssembleScalarEigenEdgeSolverAlgorithm.C:439-493 | summing every edge block into the global system |
| EdgeAssembly.AssemblyConserves | src/AssembleScalarEigenEdgeSolverAlgorithm.C:423-491 | over any edge list the right-hand side and every column total zero, and each row sum is the net mass flow out of its node |
| LocalGraph.ComputeRowPointers | include/LinearSolver.h:108-122 | row pointers are the prefix sums of the row lengths |
| LocalGraph.LocalGraphArrays.constructor | include/LinearSolver.h:73-86 | every row has its length and only INVALID cells |
| LocalGraph.SingleGoodIff | include/LinearSolver.h:93-106 | a block can be inserted exactly if its indices are ordinals below 2^31 - 1 |
| LocalGraph.LocalGraphArrays.GetRowLength | include/LinearSolver.h:88-91 | the length of a row |
| LocalGraph.LocalGraphArrays.FindInvalid | include/LinearSolver.h:98 | the first INVALID cell of a row |
| LocalGraph.LocalGraphArrays.LowerBound | include/LinearSolver.h:100 | the lower bound in an increasing range |
| LocalGraph.ShiftReadsInsideIff | include/LinearSolver.h:134-136 | every cell the shift reads lies in the array if and only if the block is no longer than the cells up to and including insertPoint |
| LocalGraph.LocalGraphArrays.MoveUp | include/LinearSolver.h:134-136 | the backward shift, whose extra copies only reach cells the block overwrites, and whether one of them reads from before the array |
| LocalGraph.FirstBlockReadsBefore | include/LinearSolver.h:93-140 | the first block of the first row of any graph, with two degrees of freedom or more, reads from before the array |
| LocalGraph.LocalGraphArrays.Insert | include/LinearSolver.h:128-140 | the shift and the write splice a block of numDof indices in at insertPoint |
| LocalGraph.LocalGraphArrays.InsertOne | include/LinearSolver.h:99-105 | one start: the row becomes the canonical row of the larger set, whether the start was there or not, the look at insertPoint stays in the row, and the shift reads from before the array exactly when the start goes to the front of a row that begins before cell numDof - 1 |
| LocalGraph.LocalGraphArrays.InsertIndices | include/LinearSolver.h:93-106 | the row becomes the canonical row of its starts and the given ones; all other rows stay; it reads from before the array exactly when one of the given starts is below all of such a row |
| LocalGraph.LocalGraphArrays.InsertRun | include/LinearSolver.h:93-106 | after any run of calls each row has exactly what was asked for in it, and the run has read from before the array exactly when it asked for a new first start of a row near the start of the array |
| LocalGraph.RequestedMembers | include/LinearSolver.h:93-106 | only membership counts: order, grouping and repetition of calls do not matter |
| LocalGraph.SameStartsSameColumns | include/LinearSolver.h:93-106 | two graphs with the same row pointers and starts have identical column arrays |
| LocalGraph.SameRequestsSameColumns | include/LinearSolver.h:73-106 | two runs on fresh graphs that ask for the same columns, in any order, grouping and repetition, leave valid graphs that hold what was asked for, with identical row pointers and column arrays |
| GraphRows.CanonicalFacts | include/LinearSolver.h:93-106 | the canonical row is strictly increasing and holds exactly the members of the blocks |
| GraphRows.CanonicalInsert | include/LinearSolver.h:128-140 | inserting a block at its lower bound gives the canonical row of the larger set |
| GraphRows.AlignedSeparated | include/LinearSolver.h:93-106 | starts that are multiples of numDof satisfy the separation the rows need |
| GraphFinish.FillExtraDofRows | src/TpetraLinearSystemHelpers.C:361-381 | every row of a node gets the columns of the first row of the node |
| GraphFinish.ScanRows | src/TpetraLinearSystemHelpers.C:389-402 | the new lengths: one past the last valid index, or the old length when there is none |
| GraphFinish.RemoveInvalidIndices | src/TpetraLinearSystemHelpers.C:383-418 | every row is cut to its new length and packed, with row pointers to match |
| GraphFinish.KeptExactIff | src/TpetraLinearSystemHelpers.C:393-400 | what is kept of a row is exactly its indices if and only if it has one or has no cells: an all-INVALID row is kept whole |
| GraphFinish.BuildOwnedGraph | src/TpetraLinearSystem.C:1168-1197 | allocation, any run of insertions, repetition per degree of freedom and cutting give each row the canonical indices asked for at its node |
| PlaneLists.ListSamplePoints | src/AssembleMomentumEdgeABLTopBC.C:416-436 | the scan lists exactly the owned points iy * nx + ix, in increasing order, and the node of each beside it |
| PlaneLists.CoversIff | src/AssembleMomentumEdgeABLTopBC.C:416-435 | the lists cover the plane if and only if every point is owned by some rank |
| Redundancy.Compare | src/AssembleMomentumEdgeABLTopBC.C:628-638 | the innermost loop, including its effect on entries flagged before |
| Redundancy.FlagRedundant | src/AssembleMomentumEdgeABLTopBC.C:624-639 | after the three loops an entry is -1 exactly when an earlier rank, or a later one, keeps its point, by the given rule |
| Redundancy.SurvivorUnique | src/AssembleMomentumEdgeABLTopBC.C:624-639 | of two entries of one point at most one survives |
| Redundancy.SurvivorExists | src/AssembleMomentumEdgeABLTopBC.C:624-639 | every listed point survives somewhere |
| Compaction.CompactRank | src/AssembleMomentumEdgeABLTopBC.C:647-659 | the in-place compaction of one rank's stretch and of its node list |
| SamplePlane.BuildDisplacements | src/AssembleMomentumEdgeABLTopBC.C:612-616 | displacements are running sums of the counts |
| SamplePlane.RemoveRedundant | src/AssembleMomentumEdgeABLTopBC.C:641-666 | global list and node list are compacted, counts and displacements rebuilt to match |
| PlaneGather.GatherAndFlag | src/AssembleMomentumEdgeABLTopBC.C:606-639 | gathered lists, displacements and flags of all ranks |
| PlaneGather.KeeperIs | src/AssembleMomentumEdgeABLTopBC.C:624-639 | who keeps a point: the first rank that lists it where the rule says so, and the last one otherwise |
| PlaneGather.SampleKeeper | src/AssembleMomentumEdgeABLTopBC.C:624-639 | on the sample plane, points of the first row and column stay with the first rank that lists them, all others with the last |
| PlaneGather.InitializeRank | src/AssembleMomentumEdgeABLTopBC.C:606-666 | what one rank holds afterwards, for every rank |
| PlaneGather.MapIsPermutation | src/AssembleMomentumEdgeABLTopBC.C:606-666 | for every covering of the points by ranks, overlaps allowed, the global map is a permutation of the points |
| PlaneSamples.SampleRank | src/AssembleMomentumEdgeABLTopBC.C:145-155 | the samples of the kept nodes of a rank, in order |
| PlaneSamples.Reorder | src/AssembleMomentumEdgeABLTopBC.C:183-187 | the scatter through the map |
| PlaneSamples.GatherPlane | src/AssembleMomentumEdgeABLTopBC.C:145-187 | for every covering of the points by ranks, gather and reorder leave the value of point v in wSamp[v] |
| PlaneAverage.AccumulateSamples | src/AssembleMomentumEdgeABLTopBC.C:149-155 | one rank's share of the plane average |
| PlaneAverage.AveragePlane | src/AssembleMomentumEdgeABLTopBC.C:127-192 | for every covering of the points by ranks the sum of the shares, weighted by 1 / (nx ny), is the mean over the plane, each point counted once |
| PlaneAverage.ConstantMean | src/AssembleMomentumEdgeABLTopBC.C:127-192 | a uniform velocity is its own mean |
| PlaneOwnership.SampleOwnedPlane | src/AssembleMomentumEdgeABLTopBC.C:127-192 | from who owns what: if every point is owned by some rank, scan, gather and reorder leave the value of point v in wSamp[v], and the average is the mean over the plane |
| InflowAverage.CompactInflow | src/AssembleMomentumEdgeABLTopBC.C:523-535 | the in-place compaction of node and index list |
| InflowAverage.InflowKeeper | src/AssembleMomentumEdgeABLTopBC.C:507-521 | on the inflow boundary the far end point stays with the last rank that lists it, all others with the first |
| InflowAverage.TrapezoidWeights | src/AssembleMomentumEdgeABLTopBC.C:537-547 | half weights at both ends, full weights between |
| InflowAverage.InitializeInflow | src/AssembleMomentumEdgeABLTopBC.C:492-547 | nodes, indices and weights of one rank |
| InflowAverage.WeightsTotal | src/AssembleMomentumEdgeABLTopBC.C:537-547 | the weights of the boundary points sum to one |
| InflowAverage.TrapezoidRule | src/AssembleMomentumEdgeABLTopBC.C:537-547 | the weighted average is the trapezoid rule: the mean over the cells of the mean of their two ends |
| InflowAverage.AccumulateRank | src/AssembleMomentumEdgeABLTopBC.C:157-166 | one rank's share of the average |
| InflowAverage.Average | src/AssembleMomentumEdgeABLTopBC.C:492-547 | for every overlap of the ranks the sum of the shares is the trapezoid average, each point counted once; the y boundary (549-604) is the same code |
| InflowAverage.ConstantVelocity | src/AssembleMomentumEdgeABLTopBC.C:157-175 | a constant averages to itself |
| PeriodicWidening.WidenRow | src/AssembleMomentumEdgeABLTopBC.C:759-770 | one row, copied backwards onto an overlapping later place |
| PeriodicWidening.WidenPlane | src/AssembleMomentumEdgeABLTopBC.C:742-771 | all rows, last first, no source overwritten before its last read |
| PeriodicWidening.Periodic | src/AssembleMomentumEdgeABLTopBC.C:742-771 | afterwards every point of the wide plane holds the value of its periodic image |
| SimdGroups.GroupSpan | include/SimdInterface.h:40-64 | the groups are full except the last, none is empty, and they meet end to end up to the end of the bucket |
| SimdGroups.NoMoreGroups | include/SimdInterface.h:52-64 | past the last group the length is zero |
| SimdGroups.NextBatch | include/AssembleFaceElemSolverAlgorithm.h:109-142 | the inner loop takes the longest run of one ordinal within the group |
| SimdGroups.BatchGroup | include/AssembleFaceElemSolverAlgorithm.h:104-160 | the do-while cuts a group into batches of one ordinal and ends |
| SimdGroups.BatchBucket | include/AssembleFaceElemSolverAlgorithm.h:98-161 | every face is in exactly one batch, in order, each batch has one ordinal and 1 to simdLen faces, and there are exactly as many batches as group starts and ordinal changes |
| FaceBatchCount.SortedBatchBoundIff | include/EntityExposedFaceSorter.h:36-51 | on a bucket sorted by ordinal there are at most ceil(length/simdLen) + distinct ordinals - 1 batches, if and only if the bucket is not empty |
| SimdLanes.Interleave | include/CopyAndInterleave.h:33-48 | lane k becomes source k and the other lanes zero, whatever the buffer held |
| SimdLanes.ExtractLane | include/CopyAndInterleave.h:124-152 | one lane of a wide vector |
| SimdLanes.InterleaveThenExtract | include/CopyAndInterleave.h:33-152 | the round trip returns the source |
| SimdPipeline.RelaxDiagonal | src/AssembleElemSolverAlgorithm.C:117-118 | the diagonal divided by the relaxation factor, in place |
| SimdPipeline.RelaxedEntry | src/AssembleElemSolverAlgorithm.C:117-118 | entry (r, c) changes exactly when r = c |
| SimdPipeline.KernelsInOrder | src/AssembleElemSolverAlgorithm.C:101-106 | the plain loop runs every kernel once and in order: a list after a list is the second on what the first left |
| SimdPipeline.RunSimdKernels | src/AssembleElemSolverAlgorithm.C:101-106 | lane k of the accumulated kernels is the scalar kernels run on the data of lane k, from zero |
| SimdPipeline.ProcessBatch | src/AssembleElemSolverAlgorithm.C:100-123 | one batch applies, in order, what the scalar kernels give each of its entities |
| SimdPipeline.RunElements | include/AssembleElemSolverAlgorithm.h:101-130 | for all lane-wise kernels the element algorithm applies exactly what a loop over the bucket would |
| SimdPipeline.RunFaces | src/AssembleFaceElemSolverAlgorithm.C:100-129 | for all lane-wise kernels the face algorithm applies what a loop over the faces would, each face with its own ordinal |
| WallHeatTransfer.Geometry | src/ComputeHeatTransferEdgeWallAlgorithm.C:178-186 | squared area and area times edge vector |
| WallHeatTransfer.Correction | src/ComputeHeatTransferEdgeWallAlgorithm.C:192-200 | the non-orthogonal correction |
| WallHeatTransfer.NoCorrection | src/ComputeHeatTransferEdgeWallAlgorithm.C:192-200 | the correction vanishes where the area vector points along the edge |
| HeatLaws.SlabConductance | src/ComputeHeatTransferEdgeWallAlgorithm.C:178-190 | conductance times edge length is conductivity times area |
| HeatLaws.LinearFlux | src/ComputeHeatTransferEdgeWallAlgorithm.C:192-218 | for a temperature linear with gradient c the flux term is k c.A - 2k (A.A / A.dx) c.dx |
| HeatLaws.LinearFluxExactIff | src/ComputeHeatTransferEdgeWallAlgorithm.C:192-218 | so it is the conducted heat -k c.A if and only if (c.A)(A.dx) = (A.A)(c.dx) |
| HeatLaws.OrthogonalSeenAlike | src/ComputeHeatTransferEdgeWallAlgorithm.C:192-218 | every gradient meets that condition where the area vector points along the edge |
| HeatLaws.SkewFluxWrong | src/ComputeHeatTransferEdgeWallAlgorithm.C:192-218 | a skew edge through whose area no heat is conducted and whose flux term is not zero |
| WallHeatTransfer.WallFields.PreWork | src/AssembleWallHeatTransferAlgorithmDriver.C:93-113 | all five fields are zeroed |
| WallHeatTransfer.WallFields.AddContribution | src/ComputeHeatTransferEdgeWallAlgorithm.C:178-219 | one face point adds its terms to its node and no other, in all five fields |
| WallHeatTransfer.WallFields.Execute | src/ComputeHeatTransferEdgeWallAlgorithm.C:88-223 | every field holds, at every node, the sum of its terms over the points of the node |
| WallHeatTransfer.WallFields.Normalise | src/AssembleWallHeatTransferAlgorithmDriver.C:172-180 | the normalisation of every node |
| WallHeatTransfer.NewtonsLaw | src/AssembleWallHeatTransferAlgorithmDriver.C:172-179 | the normalised coefficient is conductance over area and h (Tref - T) is the flux |
| WallHeatTransfer.GroupBalance | src/ComputeHeatTransferEdgeWallAlgorithm.C:208-218 | over any group of nodes of one temperature the flux sum is the reference sum plus the coefficient sum |
| WallHeatTransfer.Run | src/AlgorithmDriver.C:48-60 | the whole driver, for any face points and any summation over copies: Newton's law of cooling at every node, and a coupling parameter that is the area-weighted mean over its points |
| HeatLaws.SlabCoefficient | src/AssembleWallHeatTransferAlgorithmDriver.C:172-180 | on a slab, however its areas are spread over points and copies, the coefficient is conductivity over thickness |
| HeatLaws.GroupConducts | src/ComputeHeatTransferEdgeWallAlgorithm.C:192-218 | where every point of the nodes meets the condition, the flux assembled at a node is the heat conducted through its areas |
| WallHeatTransfer.ReferenceBetween | src/ComputeHeatTransferEdgeWallAlgorithm.C:178-218 | on an orthogonal mesh with positive conductivity the reference temperature lies between the least and greatest opposing temperature |
| WallHeatTransfer.CouplingIsRoot | src/ComputeHeatTransferEdgeWallAlgorithm.C:236-244 | for chi not negative the coupling formula can be evaluated and equals sqrt(chi (chi + 2)) kappa / h |
| HeatLaws.ChiIsFourier | src/ComputeHeatTransferEdgeWallAlgorithm.C:202-204 | chi is the inverse of twice the Fourier number of the edge |
| HeatLaws.AlphaFromFourier | src/ComputeHeatTransferEdgeWallAlgorithm.C:202-206 | for physical data the coupling parameter satisfies alpha L 2Fo = k sqrt(1 + 4Fo) |
| WallHeatTransfer.PhysicalCouples | src/ComputeHeatTransferEdgeWallAlgorithm.C:188-219 | for positive conductivity, area and time step and non-negative heat capacity every division of the coupling parameter is by no zero and the parameter is not negative |
| WallHeatTransfer.RobinBetween | src/ComputeHeatTransferEdgeWallAlgorithm.C:202-219 | the coupling parameter of a node lies between the least and the greatest parameter of its points |
| NonConformalAssembly.DiffusiveFlux | src/AssembleScalarNonConformalSolverAlgorithm.C:374-384 | the flux loops give minus the normal gradient of the field |
| NonConformalAssembly.InverseLength | src/AssembleScalarNonConformalSolverAlgorithm.C:386-397 | the inverse length over the face nodes |
| NonConformalLaws.PenaltyIs | src/AssembleScalarNonConformalSolverAlgorithm.C:386-461 | with distinct face nodes, twice the penalty is over both sides the coefficient times the normal gradient of the field that is one on the side's own face |
| NonConformalLaws.NoPenaltyWithoutDiffusion | src/AssembleScalarNonConformalSolverAlgorithm.C:458-461 | the penalty does not depend on a side whose coefficient is zero |
| NonConformalAssembly.FormResidual | src/AssembleScalarNonConformalSolverAlgorithm.C:374-480 | penalty and residual from both sides |
| NonConformalAssembly.Sensitivities | src/AssembleScalarNonConformalSolverAlgorithm.C:482-531 | the four loops write one row, face nodes scattered, and nothing else |
| NonConformalAssembly.AssemblePoint | src/AssembleScalarNonConformalSolverAlgorithm.C:374-531 | only the row and the entry of the nearest node are not zero |
| NonConformalAssembly.ExecutePoint | src/AssembleScalarNonConformalSolverAlgorithm.C:374-536 | the assembled and relaxed system: the right-hand side is minus the unrelaxed row applied to the field |
| ScalarNonConformal.ResidualIsRow | src/AssembleScalarNonConformalSolverAlgorithm.C:457-531 | the residual is minus the assembled row applied to the nodal values, for all inputs |
| ScalarNonConformal.Jacobian | src/AssembleScalarNonConformalSolverAlgorithm.C:457-531 | the row is the exact Jacobian: rhs(q + d) = rhs(q) - lhs d |
| ScalarNonConformal.InterfaceConserves | src/AssembleScalarNonConformalSolverAlgorithm.C:457-480 | seen from the other side, with sides swapped and the mass flow reversed, the residual is exactly the negative: what one side gains the other loses |
| ScalarNonConformal.ConstantResidual | src/AssembleScalarNonConformalSolverAlgorithm.C:464-480 | with consistent shape functions a constant field v leaves the residual -tmdot v |
| NonConformalLaws.JumpResidual | src/AssembleScalarNonConformalSolverAlgorithm.C:457-480 | a unit jump at the current face leaves minus the other side's half of the penalty through the face and the upwinded mass flow |
| NonConformalLaws.LinearResidual | src/AssembleScalarNonConformalSolverAlgorithm.C:374-480 | a field both sides see with one gradient and one value leaves the mean coefficient times the normal gradient minus the value carried, whatever penalty and upwinding |
| FlatIndex.RowByRow | src/AssemblePNGElemSolverAlgorithm.C:203-287 | the flattened arrays hold node by node, component by component, counting from zero |
| GradientAssembly.AddSurface | src/AssemblePNGElemSolverAlgorithm.C:213-244 | a surface moves its flux from the left node to the right, component by component |
| GradientAssembly.ScvInterpolate | src/AssemblePNGElemSolverAlgorithm.C:257-265 | the gradient interpolated to a volume |
| GradientAssembly.AddVolumeRhs | src/AssemblePNGElemSolverAlgorithm.C:247-270 | a volume subtracts its interpolated gradient |
| GradientAssembly.AddVolumeLhs | src/AssemblePNGElemSolverAlgorithm.C:272-288 | a volume adds its mass to equal components of the flattened matrix |
| GradientAssembly.AssembleElement | src/AssemblePNGElemSolverAlgorithm.C:166-289 | the flattened arrays hold the mass matrix and the residual of the element |
| GradientAssembly.ResidualForm | src/AssemblePNGElemSolverAlgorithm.C:212-289 | each entry of the right-hand side is the surface part minus its row of the left-hand side applied to the gathered gradient |
| GradientAssembly.Uncoupled | src/AssemblePNGElemSolverAlgorithm.C:282-287 | different components never couple |
| ProjectedGradient.SurfacesConserve | src/AssemblePNGElemSolverAlgorithm.C:212-244 | the surface part sums to zero over the nodes, for each component |
| GradientPatch.PatchOfLinear | src/AssemblePNGElemSolverAlgorithm.C:212-270 | over any elements around a node the residual of a linear field depends on net area, first moments and volume alone |
| GradientPatch.LinearLeavesNothing | src/AssemblePNGElemSolverAlgorithm.C:212-270 | so a linear field with its own gradient leaves no residual where the surfaces close around the volumes |
| ScratchViews.CountNeededFieldViews | include/ScratchViews.h:32-69 | the counts per dimension, and failure exactly on an unknown rank |
| ScratchViews.SlotsFitIff | include/MultiDimViews.h:66-71 | every view has a place if and only if each count is at most 25; the constructor's test accepts every counted request |
| ScratchViews.TooManyAccepted | include/MultiDimViews.h:66-71 | n one-dimensional fields are accepted for every n and have a place each if and only if n is at most 25 |
| ScratchViews.MultiDimViews.AddView | include/MultiDimViews.h:176-231 | the view goes to the next place of its dimension and its ordinal remembers it |
| ScratchViews.CreateNeededFieldViews | include/ScratchViews.h:144-211 | for any request: views per dimension as counted, under each ordinal the place of the latest field with it, scalar total, failure exactly on an unknown rank or an ordinal out of range, and every view within its array of 25 if and only if each count is |
| ScratchViews.ViewsTotal | include/ScratchViews.h:144-211 | the returned total is the size of all views together |
| ScratchViews.LookUp | include/MultiDimViews.h:136-174 | in a request that fits the arrays of 25, looking up a field by ordinal finds the shape asked for by the latest field with that ordinal, so its own shape when no later field shares it: the number of nodes first for node fields only, then the scalar counts |

## Left out

- FFTW plans, the transforms and the exponential mode factors of the top boundary, the fluctuating profile functions, and the general 3x3 eigenvalues by acos and cos: transcendental functions and a foreign library.
- MPI, Kokkos teams and shared memory, the STK mesh and Tpetra: modelled only as lists, concatenation, sums and sum-into; parallel loops run in order.
- Master elements: shape functions, gradients, normals and interpolation are arbitrary inputs; interpolation to a point is the sum over the shape functions.
- Rounding: all arithmetic is exact.
- SymDiagonalize3.SymDiagonalize: does not promise that D is diagonal, because of ties and of the sequential update; PassBoundedIff bounds each pass exactly where it can be bounded on all inputs, NearStep and SettledContracts where the diagonal entries are well apart; a run that couples all three directions over close diagonal entries is bounded only over its first pass and, where SecondPass says so, its second.
- SimdLanes.Interleave: the views of an entity are one vector, so the loops over one-, two- and three-dimensional views are a single loop.
- SimdGroups.BatchBucket: the sort of faces by ordinal is the library sort; its result is assumed by the batch bound and not modelled.
- WallHeatTransfer.Run: a parallel or periodic sum is a sum over a given group of nodes; the points and nodes are those whose divisors are not zero.
- LocalGraph.LocalGraphArrays.InsertIndices: asks for room in the row and for blocks that do not overlap, as the counting of row lengths and the alignment of column indices provide; the exchange of column indices between processes is not modelled.
- PeriodicWidening.WidenPlane: one velocity component stands for three that go through the same copies.
- ScalarNonConformal.Jacobian: gradients are one vector per node instead of one flat array; the continuity and momentum variants are not modelled, and their sensitivities are not exact Jacobians.
- ScratchViews.CreateNeededFieldViews: a view is its shape, its memory is not modelled, and a write past the fixed array of 25 views is an entry past place 25.
- ScratchViews.LookUp: asks that the latest field with the ordinal has the dimension looked up, as the program does; another dimension's array would be read.
- EdgeDiffusion.FormEdge: the Peclet function, the time scale and the velocity gradients that form the normalised stress are inputs.
- The y inflow boundary: the same code as the x inflow boundary with nx in place of ny.
- Parsing, boundary condition factories, equation system registration, timers, logging, k-epsilon clipping and constant auxiliary functions: each is one expression or a registration, with nothing that spans operations.
