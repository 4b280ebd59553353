# PyLith elasticity point-wise kernels in Dafny

PyLith integrates the elasticity equations with PETSc's finite-element
machinery. At each quadrature point PETSc calls small "point-wise kernels".
Each kernel reads the packed solution values `s`, their time derivatives
`s_t`, their spatial gradients `s_x` and the packed auxiliary (material)
values `a`, `a_t`, `a_x`. The offset tables `sOff` and `aOff` say where each
field starts. The kernel then ADDS its contribution (`+=`) to the caller's
output buffer:

- `f0`, `f1` are residual terms;
- `g0`, `g2`, `g3` are Jacobian blocks.

This project models every kernel of `libsrc/pylith/fekernels/elasticity.c`:

- the displacement-velocity relation (`f0_DispVel`, `g0_vv_DispVel`,
  `g0_vu_DispVel`);
- inertia and body force (`Inertia`, `BodyForce` and the three composites
  built from them, `g0_uv_ElasticityInertia`);
- isotropic linear elasticity in 3-D and plane strain:
  - the `f1` kernels, built from a volumetric and a deviatoric stress helper;
  - the constant `g3_uu` stiffness tensors;
- the mixed displacement-pressure kernels for near incompressibility:
  - `f0`, `g0_vv` and `g2_vu` of the pressure equation;
  - `f0_IncompressUIntegral`;
  - `f1_IncompressUIntegralPlaneStrain` with its deviatoric helper.

## How the model is built

- **Packed inputs** are `seq<real>` values, because the C code only reads
  them. Offset tables are `seq<int>`.
- **`HasField` and `Field`** (module `Buffers`) describe one field of a
  packed array, the way the C code's `&s[sOff[i]]` pointers do.
- **Each output buffer** is an `array<real>` that the kernel `modifies`.
- **Every kernel method** states
  `out[..] == Accumulate(old(out[..]), Term(...))`. The new buffer is the old
  one plus a contribution on a prefix, with everything beyond it unchanged.
  `Term` is a pure function of the fields the kernel reads.
- **Lemmas** then state what the contribution means:
  - when it vanishes;
  - that the Jacobian kernels are the exact derivatives of the residual
    kernels;
  - symmetry of the stress and of the stiffness tensor;
  - the trace of the deviatoric parts;
  - how composite kernels split into their parts.
- **Arity checks:** the C code's `assert(_numS == numS)`-style checks become
  `requires`, as do its `assert(_dim == dim)` checks. The `requires` also ask
  that every field the kernel reads lies inside its array.
- **Tensor layout:** tensors are row-major. Entry (r, c) of an n-by-n tensor
  is at `Slot2(n, r, c) == r * n + c`. Entry (f, g, df, dg) of a stiffness
  tensor is at `Slot4`.
- **Generic helpers:** the volumetric and deviatoric helpers are written
  once for an n-by-n tensor. The C file's per-dimension copies are thin
  wrappers that fix n to each copy's own `_dim` constant.
- **The 3-D stiffness increments** keep the code's order. They are grouped
  by test component f, one helper method per group (`AddIso3DComponent0`
  to `AddIso3DComponent2`). These are the runs of the code's
  `g3[k] += ...` lines with k in [27 f, 27 f + 27).

## Where the code departs from the documented behaviour

- **First-row sums instead of traces.** The volumetric helpers and
  `f0_IncompressPIntegral` sum the first `dim` entries of the row-major
  displacement gradient. That is its first row, not its trace (lines
  709-710, 977-978, 1106-1108). The incompressible deviatoric helper takes
  its mean strain the same way (1364-1367). The model follows the code:
  - `PressureResidual` and `VolumetricScalar` use `PrefixSum(dispGrad, dim)`;
  - `StressVersusDocumented` states the exact gap to the documented law;
  - `ShearGradientGivesVolumetricStress` gives an input where the two
    differ;
  - `IncompressTracelessIff` shows the incompressible deviatoric stress is
    traceless only when the first-row sum equals the trace (or `mu == 0`).
- **Initial strain is scaled by `mu`, not `2 mu`.** The deviatoric helpers
  subtract `mu * initialstrain` (line 777). The documented law subtracts
  `2 mu (strain - initial strain)`. `StressVersusDocumented` includes this
  term.
- **The plane-strain `f1` kernel cannot complete.** The plane-strain
  deviatoric helper declares `_dim = 3` and asserts it equals `dim`
  (lines 1011-1030). The plane-strain `f1` kernel asserts `dim == 2`
  (826) and then calls that helper (833), so the helper's assertion always
  fails. `F1IsotropicLinearElasticityPlaneStrain` returns `Aborted` after
  the volumetric part.
- **One dimension in the incompressible helper.** The plane-strain
  incompressible deviatoric helper declares only `_dim = 2` (line 1332). It
  uses the argument `dim` once, in `disp_x[j*dim+i]` (line 1375), and its
  assertion at line 1354 makes that equal to `_dim`. The model uses
  `IncompressPlaneStrainDim == 2` throughout.
- **Inertia reads its density from `a_t`.** `Inertia` takes
  `(s, s_t, s_tt, s_x, a, a_x)` (lines 342-347) and reads the density from
  its `a` (line 361). `f0_ElasticityInertiaBodyForce` and
  `f0_ElasticityInertia` pass `(s, s_t, s_x, a, a_t, a_x)` in those
  positions (lines 201 and 242). So the density comes from the caller's
  `a_t`, the rate of the auxiliary fields, not from `a`:
  - `F0ElasticityInertiaBodyForce` and `F0ElasticityInertia` use
    `aT[aOff[0]]`;
  - `InertiaDensityFromRate` shows that zero density in `a` still gives a
    non-zero inertial force when the `a_t` entry is non-zero;
  - `InertiaJacobianMatchesIff` takes the two densities `rho` (what
    `G0uvElasticityInertia` reads, `a[aOff[0]]`) and `rhoT` (what
    `F0ElasticityInertia` reads, `aT[aOff[0]]`). It shows that the block is
    the exact derivative of that residual only when `rho * utshift ==
    rhoT * utshift`.
- **`g0_uv_ElasticityInertia` reads an auxiliary field it says it does not
  have.** It declares `_numA = 0` (line 311) and asserts `numA == 0`
  (line 319), yet reads the density at `a[aOff[0]]` (line 313). The model
  keeps both: `G0uvElasticityInertia` requires `numA == 0` and also that
  field 0 of `a` exists.
- **A worked bulk-modulus example.** With `lambda = 1`, `mu = 2`:
  - the bulk modulus is `7/3` and `g0_vv` adds `3/7` (`IncompressExample`);
  - the pure shear gradient `[0, 1, 0, 0]` gives a pressure residual of 1,
    although its trace is 0.

## Model

| member | source | states |
|---|---|---|
| Buffers.Field | libsrc/pylith/fekernels/elasticity.c:55-56 | the field view has the field's length and entry i is `buf[off[k] + i]` |
| Buffers.FieldShift | libsrc/pylith/fekernels/elasticity.c:201-202 | passing `&sOff[1]` to a helper, the offset table less its first entry, makes the helper's field k the caller's field k + 1 |
| Buffers.AccumulateCommutes | libsrc/pylith/fekernels/elasticity.c:201-202 | adding two contributions to a buffer gives the same result in either order |
| Buffers.AccumulateSuperposes | libsrc/pylith/fekernels/elasticity.c:201-202 | adding two contributions one after the other equals adding their sum once |
| Buffers.AccumulateZeros | libsrc/pylith/fekernels/elasticity.c:69-71 | adding a zero contribution leaves the buffer unchanged |
| Tensor.RowColOfSlot | libsrc/pylith/fekernels/elasticity.c:777 | the row-major slot `r * n + c` determines r and c back |
| Tensor.Slot2Injective | libsrc/pylith/fekernels/elasticity.c:777 | distinct (r, c) pairs of an n-by-n tensor occupy distinct slots |
| Tensor.SameEntries | libsrc/pylith/fekernels/elasticity.c:775-780 | two n-by-n tensors that agree at every (r, c) are equal |
| Tensor.PrefixSumLinear | libsrc/pylith/fekernels/elasticity.c:709-711 | the running sum of a sum of vectors is the sum of their running sums |
| Tensor.PrefixSumScale | libsrc/pylith/fekernels/elasticity.c:709-711 | the running sum of a scaled vector is the scaled running sum |
| Tensor.TraceOfZeros | libsrc/pylith/fekernels/elasticity.c:709-711 | the zero tensor has trace 0 |
| Tensor.DiagonalTermAt | libsrc/pylith/fekernels/elasticity.c:110-112 | the diagonal contribution holds v at (i, i) and 0 everywhere else |
| Tensor.DiagonalTermScales | libsrc/pylith/fekernels/elasticity.c:110-112 | multiplying by a diagonal block with entry d scales a vector by d |
| Tensor.AddToDiagonal | libsrc/pylith/fekernels/elasticity.c:110-112 | adds v to the n diagonal slots `i * n + i` of the output and changes nothing else |
| DispVelKernels.F0DispVel | libsrc/pylith/fekernels/elasticity.c:69-71 | f0 gains `vel[i] - disp_t[i]` in its first dim slots |
| DispVelKernels.G0vvDispVel | libsrc/pylith/fekernels/elasticity.c:110-112 | g0 gains the dim-by-dim identity |
| DispVelKernels.G0vuDispVel | libsrc/pylith/fekernels/elasticity.c:151-153 | g0 gains `-utshift` times the identity |
| DispVelKernels.DispVelTermVanishes | libsrc/pylith/fekernels/elasticity.c:69-71 | the residual vanishes exactly when the velocity equals the displacement rate |
| DispVelKernels.DispVelJacobianExact | libsrc/pylith/fekernels/elasticity.c:69-153 | perturbing vel by dv and disp by du (so disp_t by utshift du) changes the residual by exactly g0_vv dv + g0_vu du |
| InertiaKernels.Inertia | libsrc/pylith/fekernels/elasticity.c:371-373 | f0 gains `acc[i] * density`, with acc read from s_t and density from its a argument |
| InertiaKernels.BodyForce | libsrc/pylith/fekernels/elasticity.c:416-418 | f0 loses the body force in its first dim slots |
| InertiaKernels.F0ElasticityInertiaBodyForce | libsrc/pylith/fekernels/elasticity.c:201-202 | f0 gains the inertia term with the density taken from a_t, then the body-force term |
| InertiaKernels.F0ElasticityInertia | libsrc/pylith/fekernels/elasticity.c:242 | f0 gains the inertia term with the density taken from a_t |
| InertiaKernels.F0ElasticityBodyForce | libsrc/pylith/fekernels/elasticity.c:280 | f0 loses the body force |
| InertiaKernels.G0uvElasticityInertia | libsrc/pylith/fekernels/elasticity.c:322-324 | g0 gains `density * utshift` times the identity |
| InertiaKernels.InertiaBodyForceSplits | libsrc/pylith/fekernels/elasticity.c:201-202 | the composite's contribution is the sum of the inertia and body-force contributions, in either order |
| InertiaKernels.InertiaJacobianExact | libsrc/pylith/fekernels/elasticity.c:322-373 | for one shared density, the `density * utshift` diagonal block is the exact derivative of the inertia term with respect to the velocity |
| InertiaKernels.InertiaJacobianMatchesIff | libsrc/pylith/fekernels/elasticity.c:242-373 | for the density rho that g0_uv reads (`a[aOff[0]]`) and the density rhoT that the residual reads (`aT[aOff[0]]`), g0_uv's block is the exact derivative along a velocity change with a non-zero entry exactly when `rho * utshift == rhoT * utshift` |
| InertiaKernels.InertiaTermVanishes | libsrc/pylith/fekernels/elasticity.c:371-373 | the inertia term vanishes exactly when the density or the acceleration is zero |
| InertiaKernels.InertiaDensityFromRate | libsrc/pylith/fekernels/elasticity.c:242 | with zero density in `a`, a non-zero `a_t` entry and a non-zero acceleration, the inertial force is non-zero, while the density from `a` would give none |
| InertiaKernels.BodyForceTermVanishes | libsrc/pylith/fekernels/elasticity.c:416-418 | the body-force term vanishes exactly when the body force is zero |
| StressKernels.VolumetricSums | libsrc/pylith/fekernels/elasticity.c:709-712 | the loop yields the first-row sum of the gradient minus the initial-strain trace, and the mean initial-stress diagonal |
| StressKernels.MeanDiagonalOf | libsrc/pylith/fekernels/elasticity.c:771-774 | the loop yields the mean of the initial-stress diagonal |
| StressKernels.VolumetricStress | libsrc/pylith/fekernels/elasticity.c:709-716 | the stress gains `lambda * trace + meanistress` on the diagonal and nothing off it |
| StressKernels.DeviatoricStress | libsrc/pylith/fekernels/elasticity.c:771-780 | stress (r, c) gains `mu (U_rc + U_cr - eps0_rc) + sigma0_rc`, less the mean initial stress on the diagonal |
| StressKernels.DeviatoricAccumulated | libsrc/pylith/fekernels/elasticity.c:775-780 | per-entry increments on the n-by-n block, with the rest unchanged, amount to adding the deviatoric term |
| StressKernels.VolumetricStress3D | libsrc/pylith/fekernels/elasticity.c:666-719 | the 3-D volumetric helper, with n = 3 |
| StressKernels.DeviatoricStress3D | libsrc/pylith/fekernels/elasticity.c:729-783 | the 3-D deviatoric helper, with n = 3 |
| StressKernels.VolumetricStressPlaneStrain | libsrc/pylith/fekernels/elasticity.c:934-987 | the plane-strain volumetric helper, with n = 2 |
| StressKernels.DeviatoricStressPlaneStrain | libsrc/pylith/fekernels/elasticity.c:997-1051 | the plane-strain deviatoric helper, with n = 3 as its `_dim` declares, so it requires dim == 3 |
| StressKernels.F1IsotropicLinearElasticity3D | libsrc/pylith/fekernels/elasticity.c:465-477 | f1 gains the full stress: the volumetric part from [lambda, istress, istrain], then the deviatoric part from [mu, istress, istrain] |
| StressKernels.HelpersAddStress | libsrc/pylith/fekernels/elasticity.c:476-477 | the two helper contributions, added in turn, add the stress of the combined law |
| StressKernels.F1IsotropicLinearElasticityPlaneStrain | libsrc/pylith/fekernels/elasticity.c:826-833 | the kernel always aborts at the deviatoric helper's arity check, with only the volumetric part added |
| StressKernels.VolumetricReadsGradientPrefix | libsrc/pylith/fekernels/elasticity.c:709-710 | the volumetric helper reads only the first n gradient entries |
| StressKernels.VolumetricTermAt | libsrc/pylith/fekernels/elasticity.c:709-716 | the volumetric term is `lambda (first-row sum - tr eps0) + tr(sigma0)/n` on the diagonal and 0 off it |
| StressKernels.DeviatoricTermAt | libsrc/pylith/fekernels/elasticity.c:775-780 | deviatoric entry (r, c) is `mu (U_rc + U_cr - eps0_rc) + sigma0_rc`, less the mean on the diagonal |
| StressKernels.StressSplits | libsrc/pylith/fekernels/elasticity.c:476-477 | the volumetric and deviatoric terms sum to the stress of the combined law |
| StressKernels.StressAt | libsrc/pylith/fekernels/elasticity.c:709-780 | stress entry (r, c) is `sigma0_rc + mu (U_rc + U_cr - eps0_rc)`, plus `lambda (first-row sum - tr eps0)` on the diagonal |
| StressKernels.ReferenceStateStress | libsrc/pylith/fekernels/elasticity.c:709-780 | with zero gradient and zero initial strain the stress is the initial stress |
| StressKernels.ZeroModuliStress | libsrc/pylith/fekernels/elasticity.c:709-780 | with lambda = mu = 0 the stress is the initial stress for every gradient and initial strain; with all auxiliary values zero it is zero |
| StressKernels.StressSymmetric | libsrc/pylith/fekernels/elasticity.c:777 | symmetric initial stress and strain give a symmetric stress, whatever the gradient |
| StressKernels.DeviatoricDiagonal | libsrc/pylith/fekernels/elasticity.c:775-780 | the deviatoric diagonal is `mu (2 U_ii - eps0_ii) + sigma0_ii - mean` |
| StressKernels.CopiesOfMean | libsrc/pylith/fekernels/elasticity.c:771-774 | n copies of the mean add back up to the total |
| StressKernels.DeviatoricTrace | libsrc/pylith/fekernels/elasticity.c:771-780 | the deviatoric term has trace `mu (2 tr U - tr eps0)`; the initial stress cancels against its mean |
| StressKernels.StressVersusDocumented | libsrc/pylith/fekernels/elasticity.c:709-780 | the computed stress minus the documented law is `lambda (first-row sum - tr U)` on the diagonal plus `mu eps0_rc` |
| StressKernels.ShearGradientGivesVolumetricStress | libsrc/pylith/fekernels/elasticity.c:977-983 | for U = [0, 1, 0, 0], lambda = 1, mu = 0 the code gives diagonal stress 1 and the documented law gives 0 |
| StiffnessKernels.G3uuIsotropicLinearElasticity3D | libsrc/pylith/fekernels/elasticity.c:632-649 | g3 gains lambda + 2 mu, lambda or 2 mu at the 18 listed slots and nothing elsewhere |
| StiffnessKernels.G3uuIsotropicLinearElasticityPlaneStrain | libsrc/pylith/fekernels/elasticity.c:910-917 | g3 gains lambda + 2 mu, lambda or 2 mu at the 8 listed slots and nothing elsewhere |
| StiffnessKernels.AddIso3DComponent0 | libsrc/pylith/fekernels/elasticity.c:632-638 | the seven increments for test component 0 raise each slot in [0, 27) by its 3-D stiffness value and leave every other slot unchanged |
| StiffnessKernels.AddIso3DComponent1 | libsrc/pylith/fekernels/elasticity.c:639-644 | the six increments for test component 1 raise each slot in [27, 54) by its 3-D stiffness value and leave every other slot unchanged |
| StiffnessKernels.AddIso3DComponent2 | libsrc/pylith/fekernels/elasticity.c:645-649 | the five increments for test component 2 raise each slot in [54, 81) by its 3-D stiffness value and leave every other slot unchanged |
| StiffnessKernels.Iso3DAccumulated | libsrc/pylith/fekernels/elasticity.c:632-649 | the three components' increments together amount to adding the 3-D stiffness to the first 81 slots |
| StiffnessKernels.PlaneStrainAccumulated | libsrc/pylith/fekernels/elasticity.c:910-917 | the 8 increments, with every other slot unchanged, amount to adding the plane-strain stiffness |
| StiffnessKernels.Iso3DSlotAt | libsrc/pylith/fekernels/elasticity.c:632-649 | a 3-D slot (f, g, df, dg) is written exactly when it is axial, lambda or shear, except for the shear slots (f, f, g, g) with g < f: (1,1,0,0), (2,2,0,0), (2,2,1,1) |
| StiffnessKernels.PlaneStrainSlotAt | libsrc/pylith/fekernels/elasticity.c:910-917 | a plane-strain slot is written exactly when it is axial, lambda or shear |
| StiffnessKernels.PlaneStrainTermAt | libsrc/pylith/fekernels/elasticity.c:910-917 | every plane-strain entry is the isotropic stiffness with the shear entries doubled |
| StiffnessKernels.Iso3DTermAt | libsrc/pylith/fekernels/elasticity.c:632-649 | every 3-D entry is the isotropic stiffness with the shear entries doubled, except the unwritten shear slots (f, f, g, g) with g < f, which are 0 |
| StiffnessKernels.PlaneStrainSymmetric | libsrc/pylith/fekernels/elasticity.c:910-917 | the plane-strain stiffness has major and minor symmetry |
| StiffnessKernels.Iso3DMajorSymmetric | libsrc/pylith/fekernels/elasticity.c:632-649 | the 3-D stiffness is unchanged by swapping test and trial, f with g together with df with dg |
| StiffnessKernels.Iso3DMinorSymmetricIff | libsrc/pylith/fekernels/elasticity.c:632-649 | the 3-D stiffness is unchanged by swapping the component f with the derivative direction df exactly when mu == 0, because the shear slots (f, f, g, g) with g < f, namely (1,1,0,0), (2,2,0,0), (2,2,1,1), are never written |
| StiffnessKernels.AxialAndLambdaSlots | libsrc/pylith/fekernels/elasticity.c:632-649 | every (f, g, f, g) entry of the 3-D tensor, and of the plane-strain tensor for f, g < 2, is the isotropic value: lambda + 2 mu if f == g, else lambda |
| StiffnessKernels.ZeroModuliStiffness | libsrc/pylith/fekernels/elasticity.c:632-649 | with lambda = mu = 0 both stiffness blocks are zero |
| StiffnessKernels.ShearSlotsDoubled | libsrc/pylith/fekernels/elasticity.c:873-879 | a plane-strain shear slot holds 2 mu, twice the isotropic value mu |
| IncompressibleKernels.F0IncompressPIntegral | libsrc/pylith/fekernels/elasticity.c:1094-1110 | f0[0] gains the first-row sum of the gradient plus p / K, with K = lambda + 2 mu / 3 |
| IncompressibleKernels.G0vvIncompressPIntegral | libsrc/pylith/fekernels/elasticity.c:1147-1153 | g0[0] gains 1 / K |
| IncompressibleKernels.G2vuIncompressPIntegral | libsrc/pylith/fekernels/elasticity.c:1192-1194 | g2 gains 1 in each of its first dim slots |
| IncompressibleKernels.F0IncompressUIntegral | libsrc/pylith/fekernels/elasticity.c:1246-1250 | f0 loses the body force, then gains the pressure gradient |
| IncompressibleKernels.PairingOfCoupling | libsrc/pylith/fekernels/elasticity.c:1192-1194 | applying the g2_vu block to a gradient change sums its first dim entries |
| IncompressibleKernels.PressureJacobianExact | libsrc/pylith/fekernels/elasticity.c:1106-1194 | perturbing the gradient by dU and the pressure by dp changes the pressure residual by exactly g2_vu . dU + g0_vv dp |
| IncompressibleKernels.PressureResidualVanishes | libsrc/pylith/fekernels/elasticity.c:1106-1110 | the pressure residual vanishes exactly when p = -K times the first-row sum |
| IncompressibleKernels.IncompressExample | libsrc/pylith/fekernels/elasticity.c:1094-1153 | lambda = 1, mu = 2 give K = 7/3 and g0 = 3/7; U = [0, 1, 0, 0] has trace 0 but pressure residual 1 |
| IncompressibleKernels.PressureGradientSuperposes | libsrc/pylith/fekernels/elasticity.c:1246-1250 | the two steps of f0_IncompressUIntegral add `grad p - f` in one contribution |
| IncompressibleKernels.PressureGradientBalances | libsrc/pylith/fekernels/elasticity.c:1246-1250 | that contribution vanishes exactly when the pressure gradient equals the body force |
| IncompressibleKernels.IncompressMeans | libsrc/pylith/fekernels/elasticity.c:1364-1371 | the loop yields the mean initial-stress and initial-strain diagonals and the first-row mean of the gradient |
| IncompressibleKernels.FillDeviatoricParts | libsrc/pylith/fekernels/elasticity.c:1372-1379 | devistrain holds the deviatoric part of eps0 and devstrain the symmetric gradient less the first-row mean on the diagonal |
| IncompressibleKernels.AccumulateIncompressRow | libsrc/pylith/fekernels/elasticity.c:1382-1385 | row i gains `mu (devstrain - devistrain) + sigma0`, less the mean on the diagonal; every other slot is unchanged |
| IncompressibleKernels.AccumulateIncompressStress | libsrc/pylith/fekernels/elasticity.c:1381-1386 | the stress gains the incompressible deviatoric term |
| IncompressibleKernels.IncompressAccumulated | libsrc/pylith/fekernels/elasticity.c:1381-1386 | per-entry increments on the n-by-n block, with the rest unchanged, amount to adding the incompressible deviatoric term |
| IncompressibleKernels.IncompressDeviatoricStress | libsrc/pylith/fekernels/elasticity.c:1347-1386 | the whole helper adds `mu (dev(sym U) - dev(eps0)) + dev(sigma0)`, with dev taken against the first-row mean for U |
| IncompressibleKernels.DeviatoricStressIncompressPlaneStrain | libsrc/pylith/fekernels/elasticity.c:1317-1389 | the helper as declared, with n = 2 |
| IncompressibleKernels.F1IncompressUIntegralPlaneStrain | libsrc/pylith/fekernels/elasticity.c:1290-1304 | f1 gains the incompressible deviatoric stress from [mu, istress, istrain] |
| IncompressibleKernels.IncompressDeviatoricTermAt | libsrc/pylith/fekernels/elasticity.c:1381-1386 | entry (r, c) of the term is the row update less the mean initial stress on the diagonal |
| IncompressibleKernels.DeviatoricPartTraceless | libsrc/pylith/fekernels/elasticity.c:1377 | removing the mean diagonal leaves a traceless tensor |
| IncompressibleKernels.DevStrainTrace | libsrc/pylith/fekernels/elasticity.c:1364-1378 | the helper's deviatoric strain has trace `tr U - first-row sum` |
| IncompressibleKernels.TraceOfCombined | libsrc/pylith/fekernels/elasticity.c:1383 | a tensor whose diagonal is `mu (a - b) + c` has trace `mu (tr a - tr b) + tr c` |
| IncompressibleKernels.IncompressDeviatoricTrace | libsrc/pylith/fekernels/elasticity.c:1364-1386 | the contribution has trace `mu (tr U - first-row sum)`; the initial state drops out |
| IncompressibleKernels.IncompressTracelessIff | libsrc/pylith/fekernels/elasticity.c:1364-1386 | the contribution is traceless exactly when mu == 0 or the first-row sum equals the trace |
| IncompressibleKernels.IncompressDeviatoricSymmetric | libsrc/pylith/fekernels/elasticity.c:1372-1386 | symmetric initial stress and strain give a symmetric contribution |
| IncompressibleKernels.ZeroShearModulusIncompress | libsrc/pylith/fekernels/elasticity.c:1381-1386 | with mu = 0 the contribution is the deviatoric part of the initial stress for every gradient and initial strain; with all auxiliary values zero it is zero |
| IncompressibleKernels.DeviatoricPartOfZeros | libsrc/pylith/fekernels/elasticity.c:1377 | the zero tensor is its own deviatoric part |
| IncompressibleKernels.IncompressReferenceState | libsrc/pylith/fekernels/elasticity.c:1381-1386 | with zero gradient and zero initial strain the contribution is the deviatoric part of the initial stress |

## Left out

- Floating point: every value is a mathematical real. Rounding, overflow,
  NaN and infinity are not modelled.
- F0IncompressPIntegral: requires a non-zero bulk modulus. The C code
  divides by K unchecked and yields a non-finite value, which reals cannot
  represent.
- G0vvIncompressPIntegral: requires a non-zero bulk modulus, for the same
  reason.
- PressureResidual: requires a non-zero bulk modulus, for the same reason.
- Arguments no kernel reads:
  - the time `t` and the coordinates `x` are not parameters;
  - `s_tt`, `a_x` and the unused offset tables are kept but never read.
- Null-pointer assertions (`assert(sOff)`, `assert(s)`, ...): a `seq` is
  never null.
- PETSc's `PYLITH_METHOD_BEGIN` / `PYLITH_METHOD_RETURN` error-code
  plumbing is not modelled. An arity assertion that would abort is a
  `requires`, except in `F1IsotropicLinearElasticityPlaneStrain`, where the
  abort is the only behaviour and is returned as `Aborted`. Modelling a
  failed `assert` as an abort assumes assertions are compiled in; a build
  with `NDEBUG` would skip the check and run the 3-D deviatoric helper on the
  2-D data, which is not modelled.
- G0uvElasticityInertia: the arity counts are not tied to the offset table.
  `numA == 0` and a density at `aOff[0]` are both required, as the code
  asserts the one and reads the other; the model does not say which caller
  layout meets both.
- Aliasing between an input array and the output buffer: the inputs are
  values, so an output that overlaps an input is not modelled.
- The incompressible helper's stack arrays `devstrain` and `devistrain` are
  freshly allocated arrays in the model.
- `g3` "exactly 18 (or 8) non-zero slots" is stated as a characterisation of
  the written slots (`Iso3DSlotAt`, `PlaneStrainSlotAt`, the `Accumulated`
  lemmas), not as a cardinality.
- The other files in the repository are not part of this model: the
  materials, the assembler that calls the kernels, the mesh and I/O code,
  the Python layer and the tests.
