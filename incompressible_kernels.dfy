/**
 * Kernels of the mixed displacement-pressure formulation for near
 * incompressibility:
 *   integral of phi_p (volumetric strain + p / K)            (pressure equation)
 *   integral of grad(phi_u) : S - phi_u . (f - grad p)      (displacement equation)
 * with solution fields [disp(dim), pres] and bulk modulus K = lambda + 2 mu / 3.
 *
 * The volumetric strain is summed over the first dim entries of the
 * row-major displacement gradient, its first row, and the deviatoric
 * helper takes the mean strain from the same first row.
 */
module IncompressibleKernels {
  import opened Buffers
  import opened Tensor
  import InertiaKernels
  import StressKernels

  /** The dimension constant of the plane-strain incompressible deviatoric helper. */
  const IncompressPlaneStrainDim: nat := 2

  /** Bulk modulus from the Lame parameters: lambda + 2 mu / 3. */
  function BulkModulus(lambda: real, mu: real): real
  {
    lambda + 2.0 * mu / 3.0
  }

  /** The pressure equation's residual: the first dim gradient entries summed, plus p / K. */
  function PressureResidual(dim: nat, dispGrad: seq<real>, pres: real, bulkModulus: real): real
    requires dim <= |dispGrad| && bulkModulus != 0.0
  {
    PrefixSum(dispGrad, dim) + pres / bulkModulus
  }

  /** The g2_vu block: one coefficient 1 per gradient entry the residual sums. */
  function VolStrainCoupling(dim: nat): (w: seq<real>)
    ensures |w| == dim
  {
    seq(dim, i => 1.0)
  }

  /** Sum over i < m of w[i] * v[i]: a g2 row applied to a gradient perturbation. */
  function Pairing(w: seq<real>, v: seq<real>, m: nat): real
    requires m <= |w| && m <= |v|
  {
    if m == 0 then 0.0 else Pairing(w, v, m - 1) + w[m - 1] * v[m - 1]
  }

  /** f0_IncompressPIntegral: f0[0] += volStrain + pres / K, volStrain summed over disp_x[0..dim). */
  method F0IncompressPIntegral(dim: nat, numS: int, numA: int, sOff: seq<int>, aOff: seq<int>,
                               s: seq<real>, sT: seq<real>, sX: seq<real>,
                               a: seq<real>, aT: seq<real>, aX: seq<real>,
                               f0: array<real>)
    requires numS == 2 && numA == 2
    requires HasField(sX, sOff, 0, dim) && HasField(s, sOff, 1, 1)
    requires HasField(a, aOff, 0, 1) && HasField(a, aOff, 1, 1)
    requires BulkModulus(a[aOff[0]], a[aOff[1]]) != 0.0
    requires 1 <= f0.Length
    modifies f0
    ensures f0[..] == Accumulate(old(f0[..]),
      [PressureResidual(dim, Field(sX, sOff, 0, dim), s[sOff[1]], BulkModulus(a[aOff[0]], a[aOff[1]]))])
  {
    var lambda, mu := a[aOff[0]], a[aOff[1]];
    var bulkModulus := lambda + 2.0 * mu / 3.0;
    ghost var dispGrad := Field(sX, sOff, 0, dim);
    var volStrain := 0.0;
    for i := 0 to dim
      invariant volStrain == PrefixSum(dispGrad, i)
    {
      volStrain := volStrain + sX[sOff[0] + i];
    }
    f0[0] := f0[0] + (volStrain + s[sOff[1]] / bulkModulus);
    AccumulatedBy(old(f0[..]), f0[..], [PressureResidual(dim, dispGrad, s[sOff[1]], bulkModulus)]);
  }

  /** g0_vv_IncompressPIntegral: g0[0] += 1 / K. */
  method G0vvIncompressPIntegral(dim: nat, numS: int, numA: int, sOff: seq<int>, aOff: seq<int>,
                                 s: seq<real>, sT: seq<real>, sX: seq<real>,
                                 a: seq<real>, aT: seq<real>, aX: seq<real>,
                                 utshift: real, g0: array<real>)
    requires numS == 2 && numA == 2
    requires HasField(a, aOff, 0, 1) && HasField(a, aOff, 1, 1)
    requires BulkModulus(a[aOff[0]], a[aOff[1]]) != 0.0
    requires 1 <= g0.Length
    modifies g0
    ensures g0[..] == Accumulate(old(g0[..]), [1.0 / BulkModulus(a[aOff[0]], a[aOff[1]])])
  {
    var lambda, mu := a[aOff[0]], a[aOff[1]];
    var bulkModulus := lambda + 2.0 * mu / 3.0;
    g0[0] := g0[0] + 1.0 / bulkModulus;
    AccumulatedBy(old(g0[..]), g0[..], [1.0 / bulkModulus]);
  }

  /** g2_vu_IncompressPIntegral: g2[i] += 1 for i < dim. */
  method G2vuIncompressPIntegral(dim: nat, numS: int, numA: int, sOff: seq<int>, aOff: seq<int>,
                                 s: seq<real>, sT: seq<real>, sX: seq<real>,
                                 a: seq<real>, aT: seq<real>, aX: seq<real>,
                                 utshift: real, g2: array<real>)
    requires numS == 2 && numA == 0
    requires dim <= g2.Length
    modifies g2
    ensures g2[..] == Accumulate(old(g2[..]), VolStrainCoupling(dim))
  {
    for i := 0 to dim
      invariant forall k :: 0 <= k < g2.Length ==> g2[k] == old(g2[k]) + (if k < i then 1.0 else 0.0)
    {
      g2[i] := g2[i] + 1.0;
    }
    AccumulatedBy(old(g2[..]), g2[..], VolStrainCoupling(dim));
  }

  /** f0_IncompressUIntegral: BodyForce on auxiliary field 0, then f0[i] += pres_x[i]. */
  method F0IncompressUIntegral(dim: nat, numS: int, numA: int, sOff: seq<int>, aOff: seq<int>,
                               s: seq<real>, sT: seq<real>, sX: seq<real>,
                               a: seq<real>, aT: seq<real>, aX: seq<real>,
                               f0: array<real>)
    requires numS == 2 && numA == 1
    requires HasField(sX, sOff, 1, dim) && HasField(a, aOff, 0, dim)
    requires dim <= f0.Length
    modifies f0
    ensures f0[..] == Accumulate(Accumulate(old(f0[..]), InertiaKernels.BodyForceTerm(Field(a, aOff, 0, dim))),
                                 Field(sX, sOff, 1, dim))
  {
    InertiaKernels.BodyForce(dim, 0, 1, [], aOff, s, sT, sX, a, aT, aX, f0);
    ghost var mid := f0[..];
    ghost var presGrad := Field(sX, sOff, 1, dim);
    for i := 0 to dim
      invariant forall k :: 0 <= k < f0.Length ==> f0[k] == mid[k] + (if k < i then presGrad[k] else 0.0)
    {
      f0[i] := f0[i] + sX[sOff[1] + i];
    }
    AccumulatedBy(mid, f0[..], presGrad);
  }

  /** Mean of the first n entries of the row-major gradient (its first row). */
  function MeanFirstRow(n: nat, dispGrad: seq<real>): real
    requires 0 < n <= |dispGrad|
  {
    PrefixSum(dispGrad, n) / (n as real)
  }

  /** Entry (r, c) of the deviatoric strain the helper forms: the symmetric gradient less the first-row mean on the diagonal. */
  function DevStrainEntry(n: nat, dispGrad: seq<real>, r: nat, c: nat): real
    requires |dispGrad| == n * n && r < n && c < n
  {
    0.5 * (dispGrad[Slot2(n, r, c)] + dispGrad[Slot2(n, c, r)]) - (if r == c then MeanFirstRow(n, dispGrad) else 0.0)
  }

  /** The helper's devstrain array. */
  function DevStrain(n: nat, dispGrad: seq<real>): (t: seq<real>)
    requires |dispGrad| == n * n
    ensures |t| == n * n
  {
    seq(n * n, k requires 0 <= k < n * n => DevStrainEntry(n, dispGrad, Row(n, k), Col(n, k)))
  }

  /** Entry (r, c) of the deviatoric part of t: t less its mean diagonal on the diagonal. */
  function DeviatoricPartEntry(n: nat, t: seq<real>, r: nat, c: nat): real
    requires |t| == n * n && r < n && c < n
  {
    t[Slot2(n, r, c)] - (if r == c then StressKernels.MeanDiagonal(t, n) else 0.0)
  }

  /** The deviatoric part of an n-by-n tensor; the helper's devistrain array is that of the initial strain. */
  function DeviatoricPart(n: nat, t: seq<real>): (d: seq<real>)
    requires |t| == n * n
    ensures |d| == n * n
  {
    seq(n * n, k requires 0 <= k < n * n => DeviatoricPartEntry(n, t, Row(n, k), Col(n, k)))
  }

  /** Entry (r, c) of the helper's contribution: mu (devstrain - devistrain) + sigma0, less the mean initial stress on the diagonal. */
  function IncompressDeviatoricEntry(n: nat, dispGrad: seq<real>, mu: real, istress: seq<real>, istrain: seq<real>, r: nat, c: nat): real
    requires |dispGrad| == n * n && |istress| == n * n && |istrain| == n * n && r < n && c < n
  {
    mu * (DevStrainEntry(n, dispGrad, r, c) - DeviatoricPartEntry(n, istrain, r, c)) + DeviatoricPartEntry(n, istress, r, c)
  }

  /** The helper's contribution to the n-by-n stress. */
  function IncompressDeviatoricTerm(n: nat, dispGrad: seq<real>, mu: real, istress: seq<real>, istrain: seq<real>): (t: seq<real>)
    requires |dispGrad| == n * n && |istress| == n * n && |istrain| == n * n
    ensures |t| == n * n
  {
    seq(n * n, k requires 0 <= k < n * n => IncompressDeviatoricEntry(n, dispGrad, mu, istress, istrain, Row(n, k), Col(n, k)))
  }

  /** The helper's first loop: mean initial stress and strain over the diagonals, mean strain over the gradient's first row. */
  method IncompressMeans(n: nat, dispGrad: seq<real>, istress: seq<real>, istrain: seq<real>)
    returns (meanistress: real, meanistrain: real, meanstrain: real)
    requires 0 < n && |dispGrad| == n * n && |istress| == n * n && |istrain| == n * n
    ensures meanistress == StressKernels.MeanDiagonal(istress, n)
    ensures meanistrain == StressKernels.MeanDiagonal(istrain, n)
    ensures meanstrain == MeanFirstRow(n, dispGrad)
  {
    assert n <= n * n by { MulMono(1, n, n); }
    meanistress, meanistrain, meanstrain := 0.0, 0.0, 0.0;
    for i := 0 to n
      invariant meanistress == PrefixSum(Diagonal(istress, n), i)
      invariant meanistrain == PrefixSum(Diagonal(istrain, n), i)
      invariant meanstrain == PrefixSum(dispGrad, i)
    {
      meanistress := meanistress + istress[Slot2(n, i, i)];
      meanistrain := meanistrain + istrain[Slot2(n, i, i)];
      meanstrain := meanstrain + dispGrad[i];
    }
    meanistress := meanistress / (n as real);
    meanistrain := meanistrain / (n as real);
    meanstrain := meanstrain / (n as real);
  }

  /** The helper's second loop: fills devistrain and devstrain row by row, then takes the means off each row's diagonal slot. */
  method FillDeviatoricParts(n: nat, dispGrad: seq<real>, istrain: seq<real>, meanistrain: real, meanstrain: real,
                             devistrain: array<real>, devstrain: array<real>)
    requires 0 < n && |dispGrad| == n * n && |istrain| == n * n
    requires meanistrain == StressKernels.MeanDiagonal(istrain, n) && meanstrain == MeanFirstRow(n, dispGrad)
    requires devistrain.Length == n * n && devstrain.Length == n * n && devistrain != devstrain
    modifies devistrain, devstrain
    ensures forall r, c :: 0 <= r < n && 0 <= c < n ==> devistrain[Slot2(n, r, c)] == DeviatoricPartEntry(n, istrain, r, c)
    ensures forall r, c :: 0 <= r < n && 0 <= c < n ==> devstrain[Slot2(n, r, c)] == DevStrainEntry(n, dispGrad, r, c)
  {
    for i := 0 to n
      invariant forall r, c :: 0 <= r < i && 0 <= c < n ==> devistrain[Slot2(n, r, c)] == DeviatoricPartEntry(n, istrain, r, c)
      invariant forall r, c :: 0 <= r < i && 0 <= c < n ==> devstrain[Slot2(n, r, c)] == DevStrainEntry(n, dispGrad, r, c)
    {
      for j := 0 to n
        invariant forall r, c :: 0 <= r < i && 0 <= c < n ==> devistrain[Slot2(n, r, c)] == DeviatoricPartEntry(n, istrain, r, c)
        invariant forall r, c :: 0 <= r < i && 0 <= c < n ==> devstrain[Slot2(n, r, c)] == DevStrainEntry(n, dispGrad, r, c)
        invariant forall c :: 0 <= c < j ==> devistrain[Slot2(n, i, c)] == istrain[Slot2(n, i, c)]
        invariant forall c :: 0 <= c < j ==> devstrain[Slot2(n, i, c)] == 0.5 * (dispGrad[Slot2(n, i, c)] + dispGrad[Slot2(n, c, i)])
      {
        Slot2Injective(n, i, j);
        devistrain[Slot2(n, i, j)] := istrain[Slot2(n, i, j)];
        devstrain[Slot2(n, i, j)] := 0.5 * (dispGrad[Slot2(n, i, j)] + dispGrad[Slot2(n, j, i)]);
      }
      Slot2Injective(n, i, i);
      devistrain[Slot2(n, i, i)] := devistrain[Slot2(n, i, i)] - meanistrain;
      devstrain[Slot2(n, i, i)] := devstrain[Slot2(n, i, i)] - meanstrain;
    }
  }

  /** What the third loop adds at (r, c) before the row's diagonal correction: mu (devstrain - devistrain) + sigma0. */
  function IncompressRowEntry(n: nat, dispGrad: seq<real>, mu: real, istress: seq<real>, istrain: seq<real>, r: nat, c: nat): real
    requires |dispGrad| == n * n && |istress| == n * n && |istrain| == n * n && r < n && c < n
  {
    mu * (DevStrainEntry(n, dispGrad, r, c) - DeviatoricPartEntry(n, istrain, r, c)) + istress[Slot2(n, r, c)]
  }

  /** The devstrain array at (r, c) is DevStrainEntry. */
  lemma DevStrainAt(n: nat, dispGrad: seq<real>, r: nat, c: nat)
    requires |dispGrad| == n * n && r < n && c < n
    ensures DevStrain(n, dispGrad)[Slot2(n, r, c)] == DevStrainEntry(n, dispGrad, r, c)
  {
    RowColOfSlot(n, r, c);
  }

  /** The deviatoric part at (r, c) is DeviatoricPartEntry. */
  lemma DeviatoricPartAt(n: nat, t: seq<real>, r: nat, c: nat)
    requires |t| == n * n && r < n && c < n
    ensures DeviatoricPart(n, t)[Slot2(n, r, c)] == DeviatoricPartEntry(n, t, r, c)
  {
    RowColOfSlot(n, r, c);
  }

  /** The contribution at (r, c) is the third loop's entry less the mean initial stress on the diagonal. */
  lemma IncompressDeviatoricTermAt(n: nat, dispGrad: seq<real>, mu: real, istress: seq<real>, istrain: seq<real>, r: nat, c: nat)
    requires |dispGrad| == n * n && |istress| == n * n && |istrain| == n * n && r < n && c < n
    ensures IncompressDeviatoricTerm(n, dispGrad, mu, istress, istrain)[Slot2(n, r, c)]
         == IncompressRowEntry(n, dispGrad, mu, istress, istrain, r, c) - (if r == c then StressKernels.MeanDiagonal(istress, n) else 0.0)
  {
    RowColOfSlot(n, r, c);
  }

  /** The helper's third loop: stress[ij] += mu (devstrain - devistrain) + sigma0 row by row, less the mean initial stress on each diagonal slot. */
  method AccumulateIncompressStress(n: nat, dispGrad: seq<real>, mu: real, istress: seq<real>, istrain: seq<real>,
                                    devstrain: seq<real>, devistrain: seq<real>, meanistress: real, stress: array<real>)
    requires 0 < n && |dispGrad| == n * n && |istress| == n * n && |istrain| == n * n
    requires |devstrain| == n * n && |devistrain| == n * n
    requires forall r, c :: 0 <= r < n && 0 <= c < n ==> devstrain[Slot2(n, r, c)] == DevStrainEntry(n, dispGrad, r, c)
    requires forall r, c :: 0 <= r < n && 0 <= c < n ==> devistrain[Slot2(n, r, c)] == DeviatoricPartEntry(n, istrain, r, c)
    requires meanistress == StressKernels.MeanDiagonal(istress, n)
    requires n * n <= stress.Length
    modifies stress
    ensures stress[..] == Accumulate(old(stress[..]), IncompressDeviatoricTerm(n, dispGrad, mu, istress, istrain))
  {
    for i := 0 to n
      invariant forall k :: n * n <= k < stress.Length ==> stress[k] == old(stress[k])
      invariant forall r, c :: 0 <= r < n && 0 <= c < n ==>
        stress[Slot2(n, r, c)] == old(stress[Slot2(n, r, c)]) +
          (if r < i then IncompressRowEntry(n, dispGrad, mu, istress, istrain, r, c) - (if r == c then meanistress else 0.0)
           else 0.0)
    {
      AccumulateIncompressRow(n, i, dispGrad, mu, istress, istrain, devstrain, devistrain, meanistress, stress);
    }
    IncompressAccumulated(n, dispGrad, mu, istress, istrain, old(stress[..]), stress[..]);
  }

  /** One row i of the third loop: its n slots grow by the row entries, then the mean initial stress comes off its diagonal slot. */
  method AccumulateIncompressRow(n: nat, i: nat, dispGrad: seq<real>, mu: real, istress: seq<real>, istrain: seq<real>,
                                 devstrain: seq<real>, devistrain: seq<real>, meanistress: real, stress: array<real>)
    requires i < n && |dispGrad| == n * n && |istress| == n * n && |istrain| == n * n
    requires |devstrain| == n * n && |devistrain| == n * n
    requires forall r, c :: 0 <= r < n && 0 <= c < n ==> devstrain[Slot2(n, r, c)] == DevStrainEntry(n, dispGrad, r, c)
    requires forall r, c :: 0 <= r < n && 0 <= c < n ==> devistrain[Slot2(n, r, c)] == DeviatoricPartEntry(n, istrain, r, c)
    requires n * n <= stress.Length
    modifies stress
    ensures forall k :: n * n <= k < stress.Length ==> stress[k] == old(stress[k])
    ensures forall r, c :: 0 <= r < n && 0 <= c < n ==>
      stress[Slot2(n, r, c)] == old(stress[Slot2(n, r, c)]) +
        (if r == i then IncompressRowEntry(n, dispGrad, mu, istress, istrain, r, c) - (if r == c then meanistress else 0.0)
         else 0.0)
  {
    for j := 0 to n
      invariant forall k :: n * n <= k < stress.Length ==> stress[k] == old(stress[k])
      invariant forall r, c :: 0 <= r < n && 0 <= c < n ==>
        stress[Slot2(n, r, c)] == old(stress[Slot2(n, r, c)]) +
          (if r == i && c < j then IncompressRowEntry(n, dispGrad, mu, istress, istrain, r, c) else 0.0)
    {
      Slot2Injective(n, i, j);
      var v := mu * (devstrain[Slot2(n, i, j)] - devistrain[Slot2(n, i, j)]) + istress[Slot2(n, i, j)];
      assert v == IncompressRowEntry(n, dispGrad, mu, istress, istrain, i, j);
      stress[Slot2(n, i, j)] := stress[Slot2(n, i, j)] + v;
    }
    Slot2Injective(n, i, i);
    stress[Slot2(n, i, i)] := stress[Slot2(n, i, i)] - meanistress;
  }

  /** A buffer whose n-by-n entries grew as the third loop grows them holds the accumulated contribution. */
  lemma IncompressAccumulated(n: nat, dispGrad: seq<real>, mu: real, istress: seq<real>, istrain: seq<real>,
                              before: seq<real>, after: seq<real>)
    requires 0 < n && |dispGrad| == n * n && |istress| == n * n && |istrain| == n * n
    requires n * n <= |before| == |after|
    requires forall k :: n * n <= k < |after| ==> after[k] == before[k]
    requires forall r, c :: 0 <= r < n && 0 <= c < n ==>
      after[Slot2(n, r, c)] == before[Slot2(n, r, c)]
        + (IncompressRowEntry(n, dispGrad, mu, istress, istrain, r, c) - (if r == c then StressKernels.MeanDiagonal(istress, n) else 0.0))
    ensures after == Accumulate(before, IncompressDeviatoricTerm(n, dispGrad, mu, istress, istrain))
  {
    var term := IncompressDeviatoricTerm(n, dispGrad, mu, istress, istrain);
    forall k | 0 <= k < n * n
      ensures after[k] == before[k] + term[k]
    {
      var r, c := Row(n, k), Col(n, k);
      SlotOfRowCol(n, k);
      IncompressDeviatoricTermAt(n, dispGrad, mu, istress, istrain, r, c);
    }
    AccumulatedBy(before, after, term);
  }

  /**
   * deviatoricStress_IsotropicLinearElasticityIncompressPlaneStrain, written
   * once for an n-by-n stress with n the helper's dimension constant: the
   * three means, the local devistrain and devstrain arrays, then the
   * accumulation into stress.
   */
  method IncompressDeviatoricStress(n: nat, dim: nat, numS: int, numA: int, sOff: seq<int>, aOff: seq<int>,
                                    s: seq<real>, sT: seq<real>, sX: seq<real>,
                                    a: seq<real>, aT: seq<real>, aX: seq<real>,
                                    stress: array<real>)
    requires 0 < n && n == dim && numS == 1 && numA == 3
    requires HasField(sX, sOff, 0, n * n) && HasField(a, aOff, 0, 1)
    requires HasField(a, aOff, 1, n * n) && HasField(a, aOff, 2, n * n)
    requires n * n <= stress.Length
    modifies stress
    ensures stress[..] == Accumulate(old(stress[..]),
      IncompressDeviatoricTerm(n, Field(sX, sOff, 0, n * n), a[aOff[0]], Field(a, aOff, 1, n * n), Field(a, aOff, 2, n * n)))
  {
    var dispGrad, istress, istrain := Field(sX, sOff, 0, n * n), Field(a, aOff, 1, n * n), Field(a, aOff, 2, n * n);
    var mu := a[aOff[0]];
    var meanistress, meanistrain, meanstrain := IncompressMeans(n, dispGrad, istress, istrain);
    var devistrain := new real[n * n];
    var devstrain := new real[n * n];
    FillDeviatoricParts(n, dispGrad, istrain, meanistrain, meanstrain, devistrain, devstrain);
    AccumulateIncompressStress(n, dispGrad, mu, istress, istrain, devstrain[..], devistrain[..], meanistress, stress);
  }

  /** The plane-strain incompressible deviatoric helper: n = 2. */
  method DeviatoricStressIncompressPlaneStrain(dim: nat, numS: int, numA: int, sOff: seq<int>, aOff: seq<int>,
                                               s: seq<real>, sT: seq<real>, sX: seq<real>,
                                               a: seq<real>, aT: seq<real>, aX: seq<real>,
                                               stress: array<real>)
    requires dim == IncompressPlaneStrainDim && numS == 1 && numA == 3
    requires HasField(sX, sOff, 0, 4) && HasField(a, aOff, 0, 1)
    requires HasField(a, aOff, 1, 4) && HasField(a, aOff, 2, 4)
    requires 4 <= stress.Length
    modifies stress
    ensures stress[..] == Accumulate(old(stress[..]),
      IncompressDeviatoricTerm(2, Field(sX, sOff, 0, 4), a[aOff[0]], Field(a, aOff, 1, 4), Field(a, aOff, 2, 4)))
  {
    IncompressDeviatoricStress(2, dim, numS, numA, sOff, aOff, s, sT, sX, a, aT, aX, stress);
  }

  /**
   * f1_IncompressUIntegralPlaneStrain: only the deviatoric helper, on the
   * displacement field and the auxiliary offsets [mu, initial stress,
   * initial strain]; lambda is not read.
   */
  method F1IncompressUIntegralPlaneStrain(dim: nat, numS: int, numA: int, sOff: seq<int>, aOff: seq<int>,
                                          s: seq<real>, sT: seq<real>, sX: seq<real>,
                                          a: seq<real>, aT: seq<real>, aX: seq<real>,
                                          f1: array<real>)
    requires dim == 2 && numS == 2 && numA == 4
    requires HasField(sX, sOff, 0, 4) && HasField(a, aOff, 1, 1)
    requires HasField(a, aOff, 2, 4) && HasField(a, aOff, 3, 4)
    requires 4 <= f1.Length
    modifies f1
    ensures f1[..] == Accumulate(old(f1[..]),
      IncompressDeviatoricTerm(2, Field(sX, sOff, 0, 4), a[aOff[1]], Field(a, aOff, 2, 4), Field(a, aOff, 3, 4)))
  {
    var aOffDev := [aOff[1], aOff[2], aOff[3]];
    assert Field(a, aOffDev, 1, 4) == Field(a, aOff, 2, 4);
    assert Field(a, aOffDev, 2, 4) == Field(a, aOff, 3, 4);
    DeviatoricStressIncompressPlaneStrain(dim, 1, 3, sOff, aOffDev, s, sT, sX, a, aT, aX, f1);
  }

  // ---------------------------------------------------------------------------
  // Properties of the pressure equation's kernels

  /** Pairing the coupling row of ones with a perturbation sums the perturbation's first m entries. */
  lemma {:induction false} PairingOfCoupling(dim: nat, dU: seq<real>, m: nat)
    requires m <= dim <= |dU|
    ensures Pairing(VolStrainCoupling(dim), dU, m) == PrefixSum(dU, m)
  {
    if m > 0 {
      PairingOfCoupling(dim, dU, m - 1);
    }
  }

  /** Dividing a sum by K is dividing each summand. */
  lemma SplitQuotient(p: real, dp: real, k: real)
    requires k != 0.0
    ensures (p + dp) / k == p / k + (1.0 / k) * dp
  {
  }

  /**
   * The Jacobian kernels are the exact derivatives of f0_IncompressPIntegral:
   * perturbing the gradient by dU and the pressure by dp changes the residual
   * by the g2_vu row paired with dU plus the g0_vv entry times dp.
   */
  lemma PressureJacobianExact(dim: nat, dispGrad: seq<real>, dU: seq<real>, pres: real, dp: real, bulkModulus: real)
    requires dim <= |dispGrad| == |dU| && bulkModulus != 0.0
    ensures PressureResidual(dim, Plus(dispGrad, dU), pres + dp, bulkModulus)
         == PressureResidual(dim, dispGrad, pres, bulkModulus)
            + Pairing(VolStrainCoupling(dim), dU, dim) + (1.0 / bulkModulus) * dp
  {
    PrefixSumLinear(dispGrad, dU, dim);
    PairingOfCoupling(dim, dU, dim);
    SplitQuotient(pres, dp, bulkModulus);
  }

  /** p / K == -v exactly when p == -K v. */
  lemma QuotientIsNegated(p: real, k: real, v: real)
    requires k != 0.0
    ensures p / k == -v <==> p == -k * v
  {
    if p / k == -v {
      assert p == (p / k) * k;
    }
  }

  /** The pressure equation holds at a point exactly when p == -K times the summed gradient entries. */
  lemma PressureResidualVanishes(dim: nat, dispGrad: seq<real>, pres: real, bulkModulus: real)
    requires dim <= |dispGrad| && bulkModulus != 0.0
    ensures PressureResidual(dim, dispGrad, pres, bulkModulus) == 0.0
        <==> pres == -bulkModulus * PrefixSum(dispGrad, dim)
  {
    QuotientIsNegated(pres, bulkModulus, PrefixSum(dispGrad, dim));
  }

  /**
   * lambda = 1, mu = 2: K = 7/3 and the g0_vv entry is 3/7; a shear gradient
   * (U_01 = 1) with zero pressure gives residual 1 although its trace is 0,
   * because the residual sums the gradient's first row.
   */
  lemma IncompressExample()
    ensures BulkModulus(1.0, 2.0) == 7.0 / 3.0 && 1.0 / BulkModulus(1.0, 2.0) == 3.0 / 7.0
    ensures PressureResidual(2, [0.0, 1.0, 0.0, 0.0], 0.0, BulkModulus(1.0, 2.0)) == 1.0
    ensures Trace([0.0, 1.0, 0.0, 0.0], 2) == 0.0
  {
    assert Slot2(2, 1, 1) == 3;
    assert Diagonal([0.0, 1.0, 0.0, 0.0], 2) == [0.0, 0.0];
  }

  // ---------------------------------------------------------------------------
  // Properties of the displacement equation's f0

  /** f0_IncompressUIntegral's two steps add one contribution, grad p - f, componentwise. */
  lemma PressureGradientSuperposes(buf: seq<real>, presGrad: seq<real>, bodyForce: seq<real>)
    requires |presGrad| == |bodyForce| <= |buf|
    ensures Accumulate(Accumulate(buf, InertiaKernels.BodyForceTerm(bodyForce)), presGrad)
         == Accumulate(buf, Plus(InertiaKernels.BodyForceTerm(bodyForce), presGrad))
    ensures forall i :: 0 <= i < |presGrad| ==>
              Plus(InertiaKernels.BodyForceTerm(bodyForce), presGrad)[i] == presGrad[i] - bodyForce[i]
  {
    AccumulateSuperposes(buf, InertiaKernels.BodyForceTerm(bodyForce), presGrad);
  }

  /** The displacement equation's f0 vanishes exactly when the pressure gradient balances the body force. */
  lemma PressureGradientBalances(presGrad: seq<real>, bodyForce: seq<real>)
    requires |presGrad| == |bodyForce|
    ensures Plus(InertiaKernels.BodyForceTerm(bodyForce), presGrad) == Zeros(|presGrad|) <==> presGrad == bodyForce
  {
    var r := Plus(InertiaKernels.BodyForceTerm(bodyForce), presGrad);
    if r == Zeros(|presGrad|) {
      forall i | 0 <= i < |presGrad|
        ensures presGrad[i] == bodyForce[i]
      {
        assert r[i] == 0.0;
      }
    }
    if presGrad == bodyForce {
      assert forall i :: 0 <= i < |presGrad| ==> r[i] == 0.0;
    }
  }

  // ---------------------------------------------------------------------------
  // Properties of the deviatoric helper

  /** A sequence whose entries are mu (p - q) + s sums to mu (sum p - sum q) + sum s. */
  lemma {:induction false} CombinedSum(mu: real, d: seq<real>, p: seq<real>, q: seq<real>, s: seq<real>, m: nat)
    requires |d| == |p| == |q| == |s| && m <= |d|
    requires forall i :: 0 <= i < |d| ==> d[i] == mu * (p[i] - q[i]) + s[i]
    ensures PrefixSum(d, m) == mu * (PrefixSum(p, m) - PrefixSum(q, m)) + PrefixSum(s, m)
  {
    if m > 0 {
      CombinedSum(mu, d, p, q, s, m - 1);
      Distributes(mu, PrefixSum(p, m - 1) - PrefixSum(q, m - 1), p[m - 1] - q[m - 1]);
    }
  }

  /** Each diagonal entry of t is mu (a - b) + c at the same slot. */
  predicate DiagonalCombines(n: nat, t: seq<real>, mu: real, a: seq<real>, b: seq<real>, c: seq<real>)
  {
    |t| == n * n && |a| == n * n && |b| == n * n && |c| == n * n &&
    forall i {:trigger t[Slot2(n, i, i)]} :: 0 <= i < n ==>
      t[Slot2(n, i, i)] == mu * (a[Slot2(n, i, i)] - b[Slot2(n, i, i)]) + c[Slot2(n, i, i)]
  }

  /** A tensor whose diagonal entries are mu (a - b) + c has trace mu (tr a - tr b) + tr c. */
  lemma TraceOfCombined(n: nat, t: seq<real>, mu: real, a: seq<real>, b: seq<real>, c: seq<real>)
    requires DiagonalCombines(n, t, mu, a, b, c)
    ensures Trace(t, n) == mu * (Trace(a, n) - Trace(b, n)) + Trace(c, n)
  {
    var dt, da, db, dc := Diagonal(t, n), Diagonal(a, n), Diagonal(b, n), Diagonal(c, n);
    forall i | 0 <= i < n
      ensures dt[i] == mu * (da[i] - db[i]) + dc[i]
    {
      assert t[Slot2(n, i, i)] == mu * (a[Slot2(n, i, i)] - b[Slot2(n, i, i)]) + c[Slot2(n, i, i)];
    }
    CombinedSum(mu, dt, da, db, dc, n);
  }

  /** Each entry less a, entry by entry. */
  function Centred(u: seq<real>, a: real): (v: seq<real>)
    ensures |v| == |u|
  {
    seq(|u|, i requires 0 <= i < |u| => u[i] - a)
  }

  /** Sums of Centred lose one a per summed entry. */
  lemma {:induction false} CentredSum(u: seq<real>, a: real, m: nat)
    requires m <= |u|
    ensures PrefixSum(Centred(u, a), m) == PrefixSum(u, m) - StressKernels.Copies(m, a)
  {
    if m > 0 {
      CentredSum(u, a, m - 1);
    }
  }

  /** The deviatoric part of any tensor is traceless. */
  lemma DeviatoricPartTraceless(n: nat, t: seq<real>)
    requires 0 < n && |t| == n * n
    ensures Trace(DeviatoricPart(n, t), n) == 0.0
  {
    var mean := StressKernels.MeanDiagonal(t, n);
    forall i | 0 <= i < n
      ensures Diagonal(DeviatoricPart(n, t), n)[i] == Centred(Diagonal(t, n), mean)[i]
    {
      DeviatoricPartAt(n, t, i, i);
    }
    assert Diagonal(DeviatoricPart(n, t), n) == Centred(Diagonal(t, n), mean);
    CentredSum(Diagonal(t, n), mean, n);
    StressKernels.CopiesOfMean(n, Trace(t, n));
  }

  /** The devstrain array's trace is the gradient's trace less its first-row sum. */
  lemma DevStrainTrace(n: nat, dispGrad: seq<real>)
    requires 0 < n && |dispGrad| == n * n
    ensures Trace(DevStrain(n, dispGrad), n) == Trace(dispGrad, n) - PrefixSum(dispGrad, n)
  {
    var mean := MeanFirstRow(n, dispGrad);
    forall i | 0 <= i < n
      ensures Diagonal(DevStrain(n, dispGrad), n)[i] == Centred(Diagonal(dispGrad, n), mean)[i]
    {
      DevStrainAt(n, dispGrad, i, i);
    }
    assert Diagonal(DevStrain(n, dispGrad), n) == Centred(Diagonal(dispGrad, n), mean);
    CentredSum(Diagonal(dispGrad, n), mean, n);
    assert n <= n * n by { MulMono(1, n, n); }
    StressKernels.CopiesOfMean(n, PrefixSum(dispGrad, n));
  }

  /** A diagonal entry of the contribution, from the diagonal entries of its three deviatoric parts. */
  lemma IncompressDiagonalAt(n: nat, dispGrad: seq<real>, mu: real, istress: seq<real>, istrain: seq<real>, i: nat)
    requires |dispGrad| == n * n && |istress| == n * n && |istrain| == n * n && i < n
    ensures IncompressDeviatoricTerm(n, dispGrad, mu, istress, istrain)[Slot2(n, i, i)]
         == mu * (DevStrain(n, dispGrad)[Slot2(n, i, i)] - DeviatoricPart(n, istrain)[Slot2(n, i, i)])
            + DeviatoricPart(n, istress)[Slot2(n, i, i)]
  {
    RowColOfSlot(n, i, i);
    DevStrainAt(n, dispGrad, i, i);
    DeviatoricPartAt(n, istrain, i, i);
    DeviatoricPartAt(n, istress, i, i);
  }

  /** Every diagonal entry of the contribution, from the diagonal entries of its three deviatoric parts. */
  lemma IncompressDiagonal(n: nat, dispGrad: seq<real>, mu: real, istress: seq<real>, istrain: seq<real>)
    requires |dispGrad| == n * n && |istress| == n * n && |istrain| == n * n
    ensures DiagonalCombines(n, IncompressDeviatoricTerm(n, dispGrad, mu, istress, istrain), mu,
                             DevStrain(n, dispGrad), DeviatoricPart(n, istrain), DeviatoricPart(n, istress))
  {
    forall i | 0 <= i < n
      ensures IncompressDeviatoricTerm(n, dispGrad, mu, istress, istrain)[Slot2(n, i, i)]
           == mu * (DevStrain(n, dispGrad)[Slot2(n, i, i)] - DeviatoricPart(n, istrain)[Slot2(n, i, i)])
              + DeviatoricPart(n, istress)[Slot2(n, i, i)]
    {
      IncompressDiagonalAt(n, dispGrad, mu, istress, istrain, i);
    }
  }

  /**
   * The helper's contribution has trace mu (tr(U) - first-row sum of U): the
   * initial stress and strain drop out.
   */
  lemma IncompressDeviatoricTrace(n: nat, dispGrad: seq<real>, mu: real, istress: seq<real>, istrain: seq<real>)
    requires 0 < n && |dispGrad| == n * n && |istress| == n * n && |istrain| == n * n
    ensures Trace(IncompressDeviatoricTerm(n, dispGrad, mu, istress, istrain), n)
         == mu * (Trace(dispGrad, n) - PrefixSum(dispGrad, n))
  {
    IncompressTraceSplit(n, dispGrad, mu, istress, istrain);
    CombinedPartsTrace(n, dispGrad, mu, istress, istrain);
  }

  /** Combined as the helper combines them, the traces of its three deviatoric parts give mu times the gradient's trace gap. */
  lemma CombinedPartsTrace(n: nat, dispGrad: seq<real>, mu: real, istress: seq<real>, istrain: seq<real>)
    requires 0 < n && |dispGrad| == n * n && |istress| == n * n && |istrain| == n * n
    ensures n <= |dispGrad|
    ensures mu * (Trace(DevStrain(n, dispGrad), n) - Trace(DeviatoricPart(n, istrain), n)) + Trace(DeviatoricPart(n, istress), n)
         == mu * (Trace(dispGrad, n) - PrefixSum(dispGrad, n))
  {
    DeviatoricPartsTraces(n, dispGrad, istress, istrain);
    var u, e, s := Trace(DevStrain(n, dispGrad), n), Trace(DeviatoricPart(n, istrain), n), Trace(DeviatoricPart(n, istress), n);
    var d, p := Trace(dispGrad, n), PrefixSum(dispGrad, n);
    ScaledGap(mu, u, e, s, d, p);
  }

  /** The traces of the three deviatoric parts the helper combines. */
  lemma DeviatoricPartsTraces(n: nat, dispGrad: seq<real>, istress: seq<real>, istrain: seq<real>)
    requires 0 < n && |dispGrad| == n * n && |istress| == n * n && |istrain| == n * n
    ensures n <= |dispGrad|
    ensures Trace(DevStrain(n, dispGrad), n) == Trace(dispGrad, n) - PrefixSum(dispGrad, n)
    ensures Trace(DeviatoricPart(n, istrain), n) == 0.0 && Trace(DeviatoricPart(n, istress), n) == 0.0
  {
    assert n <= n * n by { MulMono(1, n, n); }
    DevStrainTrace(n, dispGrad);
    DeviatoricPartTraceless(n, istrain);
    DeviatoricPartTraceless(n, istress);
  }

  /** mu (u - e) + s, with e and s zero and u the gap d - p, is mu (d - p). */
  lemma ScaledGap(mu: real, u: real, e: real, s: real, d: real, p: real)
    requires u == d - p && e == 0.0 && s == 0.0
    ensures mu * (u - e) + s == mu * (d - p)
  {
  }

  /** The contribution's trace, from the traces of its three deviatoric parts. */
  lemma IncompressTraceSplit(n: nat, dispGrad: seq<real>, mu: real, istress: seq<real>, istrain: seq<real>)
    requires |dispGrad| == n * n && |istress| == n * n && |istrain| == n * n
    ensures Trace(IncompressDeviatoricTerm(n, dispGrad, mu, istress, istrain), n)
         == mu * (Trace(DevStrain(n, dispGrad), n) - Trace(DeviatoricPart(n, istrain), n)) + Trace(DeviatoricPart(n, istress), n)
  {
    var term := IncompressDeviatoricTerm(n, dispGrad, mu, istress, istrain);
    IncompressDiagonal(n, dispGrad, mu, istress, istrain);
    TraceOfCombined(n, term, mu, DevStrain(n, dispGrad), DeviatoricPart(n, istrain), DeviatoricPart(n, istress));
  }

  /** The contribution is traceless exactly when mu == 0 or the gradient's first row sums to its trace. */
  lemma IncompressTracelessIff(n: nat, dispGrad: seq<real>, mu: real, istress: seq<real>, istrain: seq<real>)
    requires 0 < n && |dispGrad| == n * n && |istress| == n * n && |istrain| == n * n
    ensures Trace(IncompressDeviatoricTerm(n, dispGrad, mu, istress, istrain), n) == 0.0
        <==> mu == 0.0 || Trace(dispGrad, n) == PrefixSum(dispGrad, n)
  {
    assert n <= n * n by { MulMono(1, n, n); }
    IncompressDeviatoricTrace(n, dispGrad, mu, istress, istrain);
    TraceGapScaledVanishes(n, IncompressDeviatoricTerm(n, dispGrad, mu, istress, istrain), mu, dispGrad);
  }

  /** Any tensor whose trace is mu times the gradient's trace gap is traceless exactly when mu == 0 or the gap is. */
  lemma TraceGapScaledVanishes(n: nat, t: seq<real>, mu: real, dispGrad: seq<real>)
    requires 0 < n && |t| == n * n && |dispGrad| == n * n
    requires Trace(t, n) == mu * (Trace(dispGrad, n) - PrefixSum(dispGrad, n))
    ensures Trace(t, n) == 0.0 <==> mu == 0.0 || Trace(dispGrad, n) == PrefixSum(dispGrad, n)
  {
    assert n <= n * n by { MulMono(1, n, n); }
  }

  /** The symmetrised gradient is symmetric. */
  lemma DevStrainEntrySymmetric(n: nat, dispGrad: seq<real>, r: nat, c: nat)
    requires |dispGrad| == n * n && r < n && c < n
    ensures DevStrainEntry(n, dispGrad, r, c) == DevStrainEntry(n, dispGrad, c, r)
  {
  }

  /** The deviatoric part keeps the symmetry of an entry pair. */
  lemma DeviatoricPartEntrySymmetric(n: nat, t: seq<real>, r: nat, c: nat)
    requires |t| == n * n && r < n && c < n && t[Slot2(n, r, c)] == t[Slot2(n, c, r)]
    ensures DeviatoricPartEntry(n, t, r, c) == DeviatoricPartEntry(n, t, c, r)
  {
  }

  /** One mirrored pair of the contribution's entries agrees when the initial stress and strain agree there. */
  lemma IncompressEntrySymmetric(n: nat, dispGrad: seq<real>, mu: real, istress: seq<real>, istrain: seq<real>, r: nat, c: nat)
    requires |dispGrad| == n * n && |istress| == n * n && |istrain| == n * n && r < n && c < n
    requires istress[Slot2(n, r, c)] == istress[Slot2(n, c, r)] && istrain[Slot2(n, r, c)] == istrain[Slot2(n, c, r)]
    ensures IncompressDeviatoricTerm(n, dispGrad, mu, istress, istrain)[Slot2(n, r, c)]
         == IncompressDeviatoricTerm(n, dispGrad, mu, istress, istrain)[Slot2(n, c, r)]
  {
    IncompressRowEntrySymmetric(n, dispGrad, mu, istress, istrain, r, c);
    IncompressDeviatoricTermAt(n, dispGrad, mu, istress, istrain, r, c);
    IncompressDeviatoricTermAt(n, dispGrad, mu, istress, istrain, c, r);
  }

  /** The third loop's entries are mirrored where the initial stress and strain are. */
  lemma IncompressRowEntrySymmetric(n: nat, dispGrad: seq<real>, mu: real, istress: seq<real>, istrain: seq<real>, r: nat, c: nat)
    requires |dispGrad| == n * n && |istress| == n * n && |istrain| == n * n && r < n && c < n
    requires istress[Slot2(n, r, c)] == istress[Slot2(n, c, r)] && istrain[Slot2(n, r, c)] == istrain[Slot2(n, c, r)]
    ensures IncompressRowEntry(n, dispGrad, mu, istress, istrain, r, c) == IncompressRowEntry(n, dispGrad, mu, istress, istrain, c, r)
  {
    DevStrainEntrySymmetric(n, dispGrad, r, c);
    DeviatoricPartEntrySymmetric(n, istrain, r, c);
  }

  /** With symmetric initial stress and strain the contribution is symmetric, whatever the gradient. */
  lemma IncompressDeviatoricSymmetric(n: nat, dispGrad: seq<real>, mu: real, istress: seq<real>, istrain: seq<real>)
    requires |dispGrad| == n * n && |istress| == n * n && |istrain| == n * n
    requires StressKernels.Symmetric(n, istress) && StressKernels.Symmetric(n, istrain)
    ensures StressKernels.Symmetric(n, IncompressDeviatoricTerm(n, dispGrad, mu, istress, istrain))
  {
    var term := IncompressDeviatoricTerm(n, dispGrad, mu, istress, istrain);
    forall r, c | 0 <= r < n && 0 <= c < n
      ensures term[Slot2(n, r, c)] == term[Slot2(n, c, r)]
    {
      IncompressEntrySymmetric(n, dispGrad, mu, istress, istrain, r, c);
    }
  }

  /** In the reference state (zero gradient, zero initial strain) the contribution is the deviatoric part of the initial stress. */
  lemma IncompressReferenceState(n: nat, mu: real, istress: seq<real>)
    requires 0 < n && |istress| == n * n
    ensures IncompressDeviatoricTerm(n, Zeros(n * n), mu, istress, Zeros(n * n)) == DeviatoricPart(n, istress)
  {
    assert n <= n * n by { MulMono(1, n, n); }
    PrefixSumOfZeros(n * n, n);
    TraceOfZeros(n);
    forall r, c | 0 <= r < n && 0 <= c < n
      ensures IncompressDeviatoricTerm(n, Zeros(n * n), mu, istress, Zeros(n * n))[Slot2(n, r, c)]
           == DeviatoricPart(n, istress)[Slot2(n, r, c)]
    {
      IncompressDeviatoricTermAt(n, Zeros(n * n), mu, istress, Zeros(n * n), r, c);
      DeviatoricPartAt(n, istress, r, c);
    }
    SameEntries(n, IncompressDeviatoricTerm(n, Zeros(n * n), mu, istress, Zeros(n * n)), DeviatoricPart(n, istress));
  }

  /**
   * With mu zero the contribution is the deviatoric part of the initial
   * stress, whatever the gradient and the initial strain; with zero initial
   * stress as well (all auxiliary values zero) it vanishes.
   */
  lemma ZeroShearModulusIncompress(n: nat, dispGrad: seq<real>, istress: seq<real>, istrain: seq<real>)
    requires 0 < n && |dispGrad| == n * n && |istress| == n * n && |istrain| == n * n
    ensures IncompressDeviatoricTerm(n, dispGrad, 0.0, istress, istrain) == DeviatoricPart(n, istress)
    ensures IncompressDeviatoricTerm(n, dispGrad, 0.0, Zeros(n * n), Zeros(n * n)) == Zeros(n * n)
  {
    forall r, c | 0 <= r < n && 0 <= c < n
      ensures IncompressDeviatoricTerm(n, dispGrad, 0.0, istress, istrain)[Slot2(n, r, c)]
           == DeviatoricPart(n, istress)[Slot2(n, r, c)]
    {
      RowColOfSlot(n, r, c);
      DeviatoricPartAt(n, istress, r, c);
    }
    SameEntries(n, IncompressDeviatoricTerm(n, dispGrad, 0.0, istress, istrain), DeviatoricPart(n, istress));
    DeviatoricPartOfZeros(n);
    forall r, c | 0 <= r < n && 0 <= c < n
      ensures IncompressDeviatoricTerm(n, dispGrad, 0.0, Zeros(n * n), Zeros(n * n))[Slot2(n, r, c)]
           == DeviatoricPart(n, Zeros(n * n))[Slot2(n, r, c)]
    {
      RowColOfSlot(n, r, c);
      DeviatoricPartAt(n, Zeros(n * n), r, c);
    }
    SameEntries(n, IncompressDeviatoricTerm(n, dispGrad, 0.0, Zeros(n * n), Zeros(n * n)), DeviatoricPart(n, Zeros(n * n)));
  }

  /** The zero tensor is its own deviatoric part. */
  lemma DeviatoricPartOfZeros(n: nat)
    requires 0 < n
    ensures DeviatoricPart(n, Zeros(n * n)) == Zeros(n * n)
  {
    TraceOfZeros(n);
    forall r, c | 0 <= r < n && 0 <= c < n
      ensures DeviatoricPart(n, Zeros(n * n))[Slot2(n, r, c)] == Zeros(n * n)[Slot2(n, r, c)]
    {
      DeviatoricPartAt(n, Zeros(n * n), r, c);
    }
    SameEntries(n, DeviatoricPart(n, Zeros(n * n)), Zeros(n * n));
  }
}
