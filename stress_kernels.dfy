/**
 * Isotropic linear-elastic stress, the f1 kernels of
 *   integral of grad(phi_u) : sigma,
 * split into a volumetric and a deviatoric helper that each add their part
 * of the stress to the caller's n-by-n output. Auxiliary fields of the f1
 * kernels: [lambda(1), mu(1), initial stress(dim*dim), initial strain(dim*dim)];
 * the helpers see [lambda or mu, initial stress, initial strain].
 *
 * The helpers are written once for an n-by-n tensor; n is the helper's own
 * dimension constant (3 for both 3-D helpers and, as written, for the
 * plane-strain deviatoric helper; 2 for the plane-strain volumetric helper),
 * which each helper requires to equal dim.
 */
module StressKernels {
  import opened Buffers
  import opened Tensor

  /** How a composed kernel ends: it runs to the end, or one of its helpers' arity assertions fails. */
  datatype Outcome = Completed | Aborted

  /** The dimension constant of the plane-strain deviatoric helper. */
  const PlaneStrainDeviatoricDim: nat := 3

  /** Mean of the diagonal of an n-by-n tensor. */
  function MeanDiagonal(t: seq<real>, n: nat): real
    requires 0 < n && |t| == n * n
  {
    Trace(t, n) / (n as real)
  }

  /**
   * The scalar the volumetric helper puts on the diagonal:
   * lambda * (sum of the first n gradient entries - trace of the initial strain)
   * + mean diagonal initial stress. The first n entries of the row-major
   * gradient are its first row.
   */
  function VolumetricScalar(n: nat, dispGrad: seq<real>, lambda: real, istress: seq<real>, istrain: seq<real>): real
    requires 0 < n <= |dispGrad| && |istress| == n * n && |istrain| == n * n
  {
    lambda * (PrefixSum(dispGrad, n) - Trace(istrain, n)) + MeanDiagonal(istress, n)
  }

  /** The volumetric helper's contribution: its scalar on every diagonal slot, nothing elsewhere. */
  function VolumetricTerm(n: nat, dispGrad: seq<real>, lambda: real, istress: seq<real>, istrain: seq<real>): (t: seq<real>)
    requires 0 < n <= |dispGrad| && |istress| == n * n && |istrain| == n * n
    ensures |t| == n * n
  {
    DiagonalTerm(n, VolumetricScalar(n, dispGrad, lambda, istress, istrain))
  }

  /** mu * (U_rc + U_cr - initial strain_rc) + initial stress_rc. */
  function DeviatoricEntry(n: nat, dispGrad: seq<real>, mu: real, istress: seq<real>, istrain: seq<real>, r: nat, c: nat): real
    requires |dispGrad| == n * n && |istress| == n * n && |istrain| == n * n && r < n && c < n
  {
    mu * (dispGrad[Slot2(n, r, c)] + dispGrad[Slot2(n, c, r)] - istrain[Slot2(n, r, c)]) + istress[Slot2(n, r, c)]
  }

  /** The deviatoric helper's contribution: DeviatoricEntry everywhere, less the mean initial stress on the diagonal. */
  function DeviatoricTerm(n: nat, dispGrad: seq<real>, mu: real, istress: seq<real>, istrain: seq<real>): (t: seq<real>)
    requires 0 < n && |dispGrad| == n * n && |istress| == n * n && |istrain| == n * n
    ensures |t| == n * n
  {
    seq(n * n, k requires 0 <= k < n * n =>
      DeviatoricEntry(n, dispGrad, mu, istress, istrain, Row(n, k), Col(n, k))
      - (if Row(n, k) == Col(n, k) then MeanDiagonal(istress, n) else 0.0))
  }

  /** Entry (r, c) of the stress the two helpers produce together. */
  function StressEntry(n: nat, dispGrad: seq<real>, lambda: real, mu: real, istress: seq<real>, istrain: seq<real>, r: nat, c: nat): real
    requires |dispGrad| == n * n && |istress| == n * n && |istrain| == n * n && r < n && c < n
  {
    istress[Slot2(n, r, c)]
    + mu * (dispGrad[Slot2(n, r, c)] + dispGrad[Slot2(n, c, r)] - istrain[Slot2(n, r, c)])
    + (if r == c then lambda * (PrefixSum(dispGrad, n) - Trace(istrain, n)) else 0.0)
  }

  /** The stress the two helpers produce together, as the code computes it. */
  function Stress(n: nat, dispGrad: seq<real>, lambda: real, mu: real, istress: seq<real>, istrain: seq<real>): (t: seq<real>)
    requires |dispGrad| == n * n && |istress| == n * n && |istrain| == n * n
    ensures |t| == n * n
  {
    seq(n * n, k requires 0 <= k < n * n => StressEntry(n, dispGrad, lambda, mu, istress, istrain, Row(n, k), Col(n, k)))
  }

  /**
   * Entry (r, c) of the documented law
   *   sigma - sigma0 = lambda (tr(eps) - tr(eps0)) I + 2 mu (eps - eps0),
   * with eps the symmetric part of the displacement gradient.
   */
  function DocumentedStressEntry(n: nat, dispGrad: seq<real>, lambda: real, mu: real, istress: seq<real>, istrain: seq<real>, r: nat, c: nat): real
    requires |dispGrad| == n * n && |istress| == n * n && |istrain| == n * n && r < n && c < n
  {
    istress[Slot2(n, r, c)]
    + (if r == c then lambda * (Trace(dispGrad, n) - Trace(istrain, n)) else 0.0)
    + 2.0 * mu * ((dispGrad[Slot2(n, r, c)] + dispGrad[Slot2(n, c, r)]) / 2.0 - istrain[Slot2(n, r, c)])
  }

  /** An n-by-n tensor equal to its transpose. */
  predicate Symmetric(n: nat, t: seq<real>)
    requires |t| == n * n
  {
    forall r, c :: 0 <= r < n && 0 <= c < n ==> t[Slot2(n, r, c)] == t[Slot2(n, c, r)]
  }

  /**
   * volumetricStress for an n-by-n stress: sums the first n gradient entries
   * less the initial-strain diagonal, and the initial-stress diagonal, then
   * adds lambda * trace + mean initial stress to each diagonal slot.
   */
  method VolumetricStress(n: nat, dim: nat, numS: int, numA: int, sOff: seq<int>, aOff: seq<int>,
                          s: seq<real>, sT: seq<real>, sX: seq<real>,
                          a: seq<real>, aT: seq<real>, aX: seq<real>,
                          stress: array<real>)
    requires 0 < n && n == dim && numS == 1 && numA == 3
    requires HasField(sX, sOff, 0, n) && HasField(a, aOff, 0, 1)
    requires HasField(a, aOff, 1, n * n) && HasField(a, aOff, 2, n * n)
    requires n * n <= stress.Length
    modifies stress
    ensures stress[..] == Accumulate(old(stress[..]),
      VolumetricTerm(n, Field(sX, sOff, 0, n), a[aOff[0]], Field(a, aOff, 1, n * n), Field(a, aOff, 2, n * n)))
  {
    var dispGrad, istress, istrain := Field(sX, sOff, 0, n), Field(a, aOff, 1, n * n), Field(a, aOff, 2, n * n);
    var lambda := a[aOff[0]];
    var trace, meanistress := VolumetricSums(n, dispGrad, istress, istrain);
    assert lambda * trace + meanistress == VolumetricScalar(n, dispGrad, lambda, istress, istrain) by {
      ScaleAndShift(lambda, trace, PrefixSum(dispGrad, n) - Trace(istrain, n), meanistress);
    }
    AddToDiagonal(n, lambda * trace + meanistress, stress);
  }

  /**
   * The volumetric helper's first loop: the strain trace relative to the
   * initial strain, taking the first n gradient entries for the diagonal,
   * and the mean diagonal initial stress.
   */
  method VolumetricSums(n: nat, dispGrad: seq<real>, istress: seq<real>, istrain: seq<real>) returns (trace: real, meanistress: real)
    requires 0 < n <= |dispGrad| && |istress| == n * n && |istrain| == n * n
    ensures trace == PrefixSum(dispGrad, n) - Trace(istrain, n)
    ensures meanistress == MeanDiagonal(istress, n)
  {
    trace, meanistress := 0.0, 0.0;
    for i := 0 to n
      invariant trace == PrefixSum(dispGrad, i) - PrefixSum(Diagonal(istrain, n), i)
      invariant meanistress == PrefixSum(Diagonal(istress, n), i)
    {
      trace := trace + (dispGrad[i] - istrain[Slot2(n, i, i)]);
      meanistress := meanistress + istress[Slot2(n, i, i)];
    }
    meanistress := meanistress / (n as real);
  }

  /** Equal factors give equal products: lambda * trace + mean, with trace given by its definition. */
  lemma ScaleAndShift(lambda: real, trace: real, traceDef: real, mean: real)
    requires trace == traceDef
    ensures lambda * trace + mean == lambda * traceDef + mean
  {
  }

  /** The deviatoric helper's first loop: the mean of the initial stress's diagonal. */
  method MeanDiagonalOf(n: nat, istress: seq<real>) returns (meanistress: real)
    requires 0 < n && |istress| == n * n
    ensures meanistress == MeanDiagonal(istress, n)
  {
    meanistress := 0.0;
    for i := 0 to n
      invariant meanistress == PrefixSum(Diagonal(istress, n), i)
    {
      meanistress := meanistress + istress[Slot2(n, i, i)];
    }
    meanistress := meanistress / (n as real);
  }

  /**
   * deviatoricStress for an n-by-n stress: adds DeviatoricEntry to every slot,
   * row by row, and after each row takes the mean initial stress off that
   * row's diagonal slot.
   */
  method DeviatoricStress(n: nat, dim: nat, numS: int, numA: int, sOff: seq<int>, aOff: seq<int>,
                          s: seq<real>, sT: seq<real>, sX: seq<real>,
                          a: seq<real>, aT: seq<real>, aX: seq<real>,
                          stress: array<real>)
    requires 0 < n && n == dim && numS == 1 && numA == 3
    requires HasField(sX, sOff, 0, n * n) && HasField(a, aOff, 0, 1)
    requires HasField(a, aOff, 1, n * n) && HasField(a, aOff, 2, n * n)
    requires n * n <= stress.Length
    modifies stress
    ensures stress[..] == Accumulate(old(stress[..]),
      DeviatoricTerm(n, Field(sX, sOff, 0, n * n), a[aOff[0]], Field(a, aOff, 1, n * n), Field(a, aOff, 2, n * n)))
  {
    var dispGrad, istress, istrain := Field(sX, sOff, 0, n * n), Field(a, aOff, 1, n * n), Field(a, aOff, 2, n * n);
    var mu := a[aOff[0]];
    var meanistress := MeanDiagonalOf(n, istress);
    for i := 0 to n
      invariant forall k :: n * n <= k < stress.Length ==> stress[k] == old(stress[k])
      invariant forall r, c :: 0 <= r < n && 0 <= c < n ==>
        stress[Slot2(n, r, c)] == old(stress[Slot2(n, r, c)]) +
          (if r < i then DeviatoricEntry(n, dispGrad, mu, istress, istrain, r, c) - (if r == c then meanistress else 0.0)
           else 0.0)
    {
      for j := 0 to n
        invariant forall k :: n * n <= k < stress.Length ==> stress[k] == old(stress[k])
        invariant forall r, c :: 0 <= r < n && 0 <= c < n ==>
          stress[Slot2(n, r, c)] == old(stress[Slot2(n, r, c)]) +
            (if r < i then DeviatoricEntry(n, dispGrad, mu, istress, istrain, r, c) - (if r == c then meanistress else 0.0)
             else if r == i && c < j then DeviatoricEntry(n, dispGrad, mu, istress, istrain, r, c)
             else 0.0)
      {
        Slot2Injective(n, i, j);
        stress[Slot2(n, i, j)] := stress[Slot2(n, i, j)] + DeviatoricEntry(n, dispGrad, mu, istress, istrain, i, j);
      }
      Slot2Injective(n, i, i);
      stress[Slot2(n, i, i)] := stress[Slot2(n, i, i)] - meanistress;
    }
    DeviatoricAccumulated(n, dispGrad, mu, istress, istrain, old(stress[..]), stress[..]);
  }

  /** A buffer whose n-by-n entries grew by the deviatoric entries, less the mean on the diagonal, holds the accumulated DeviatoricTerm. */
  lemma DeviatoricAccumulated(n: nat, dispGrad: seq<real>, mu: real, istress: seq<real>, istrain: seq<real>,
                              before: seq<real>, after: seq<real>)
    requires 0 < n && |dispGrad| == n * n && |istress| == n * n && |istrain| == n * n
    requires n * n <= |before| == |after|
    requires forall k :: n * n <= k < |after| ==> after[k] == before[k]
    requires forall r, c :: 0 <= r < n && 0 <= c < n ==>
      after[Slot2(n, r, c)] == before[Slot2(n, r, c)]
        + (DeviatoricEntry(n, dispGrad, mu, istress, istrain, r, c) - (if r == c then MeanDiagonal(istress, n) else 0.0))
    ensures after == Accumulate(before, DeviatoricTerm(n, dispGrad, mu, istress, istrain))
  {
    var term := DeviatoricTerm(n, dispGrad, mu, istress, istrain);
    forall k | 0 <= k < n * n
      ensures after[k] == before[k] + term[k]
    {
      var r, c := Row(n, k), Col(n, k);
      SlotOfRowCol(n, k);
      DeviatoricTermAt(n, dispGrad, mu, istress, istrain, r, c);
    }
    AccumulatedBy(before, after, term);
  }

  /** volumetricStress_IsotropicLinearElasticity3D: the volumetric helper with n = 3. */
  method VolumetricStress3D(dim: nat, numS: int, numA: int, sOff: seq<int>, aOff: seq<int>,
                            s: seq<real>, sT: seq<real>, sX: seq<real>,
                            a: seq<real>, aT: seq<real>, aX: seq<real>,
                            stress: array<real>)
    requires dim == 3 && numS == 1 && numA == 3
    requires HasField(sX, sOff, 0, 3) && HasField(a, aOff, 0, 1)
    requires HasField(a, aOff, 1, 9) && HasField(a, aOff, 2, 9)
    requires 9 <= stress.Length
    modifies stress
    ensures stress[..] == Accumulate(old(stress[..]),
      VolumetricTerm(3, Field(sX, sOff, 0, 3), a[aOff[0]], Field(a, aOff, 1, 9), Field(a, aOff, 2, 9)))
  {
    VolumetricStress(3, dim, numS, numA, sOff, aOff, s, sT, sX, a, aT, aX, stress);
  }

  /** deviatoricStress_IsotropicLinearElasticity3D: the deviatoric helper with n = 3. */
  method DeviatoricStress3D(dim: nat, numS: int, numA: int, sOff: seq<int>, aOff: seq<int>,
                            s: seq<real>, sT: seq<real>, sX: seq<real>,
                            a: seq<real>, aT: seq<real>, aX: seq<real>,
                            stress: array<real>)
    requires dim == 3 && numS == 1 && numA == 3
    requires HasField(sX, sOff, 0, 9) && HasField(a, aOff, 0, 1)
    requires HasField(a, aOff, 1, 9) && HasField(a, aOff, 2, 9)
    requires 9 <= stress.Length
    modifies stress
    ensures stress[..] == Accumulate(old(stress[..]),
      DeviatoricTerm(3, Field(sX, sOff, 0, 9), a[aOff[0]], Field(a, aOff, 1, 9), Field(a, aOff, 2, 9)))
  {
    DeviatoricStress(3, dim, numS, numA, sOff, aOff, s, sT, sX, a, aT, aX, stress);
  }

  /** volumetricStress_IsotropicLinearElasticityPlaneStrain: the volumetric helper with n = 2. */
  method VolumetricStressPlaneStrain(dim: nat, numS: int, numA: int, sOff: seq<int>, aOff: seq<int>,
                                     s: seq<real>, sT: seq<real>, sX: seq<real>,
                                     a: seq<real>, aT: seq<real>, aX: seq<real>,
                                     stress: array<real>)
    requires dim == 2 && numS == 1 && numA == 3
    requires HasField(sX, sOff, 0, 2) && HasField(a, aOff, 0, 1)
    requires HasField(a, aOff, 1, 4) && HasField(a, aOff, 2, 4)
    requires 4 <= stress.Length
    modifies stress
    ensures stress[..] == Accumulate(old(stress[..]),
      VolumetricTerm(2, Field(sX, sOff, 0, 2), a[aOff[0]], Field(a, aOff, 1, 4), Field(a, aOff, 2, 4)))
  {
    VolumetricStress(2, dim, numS, numA, sOff, aOff, s, sT, sX, a, aT, aX, stress);
  }

  /**
   * deviatoricStress_IsotropicLinearElasticityPlaneStrain: the deviatoric
   * helper with its dimension constant, which is 3, so it accepts only dim == 3.
   */
  method DeviatoricStressPlaneStrain(dim: nat, numS: int, numA: int, sOff: seq<int>, aOff: seq<int>,
                                     s: seq<real>, sT: seq<real>, sX: seq<real>,
                                     a: seq<real>, aT: seq<real>, aX: seq<real>,
                                     stress: array<real>)
    requires dim == PlaneStrainDeviatoricDim && numS == 1 && numA == 3
    requires HasField(sX, sOff, 0, 9) && HasField(a, aOff, 0, 1)
    requires HasField(a, aOff, 1, 9) && HasField(a, aOff, 2, 9)
    requires 9 <= stress.Length
    modifies stress
    ensures stress[..] == Accumulate(old(stress[..]),
      DeviatoricTerm(3, Field(sX, sOff, 0, 9), a[aOff[0]], Field(a, aOff, 1, 9), Field(a, aOff, 2, 9)))
  {
    DeviatoricStress(PlaneStrainDeviatoricDim, dim, numS, numA, sOff, aOff, s, sT, sX, a, aT, aX, stress);
  }

  /**
   * f1_IsotropicLinearElasticity3D: the volumetric helper on auxiliary fields
   * [lambda, initial stress, initial strain], then the deviatoric helper on
   * [mu, initial stress, initial strain]. Together they add Stress to f1.
   */
  method F1IsotropicLinearElasticity3D(dim: nat, numS: int, numA: int, sOff: seq<int>, aOff: seq<int>,
                                       s: seq<real>, sT: seq<real>, sX: seq<real>,
                                       a: seq<real>, aT: seq<real>, aX: seq<real>,
                                       f1: array<real>)
    requires dim == 3 && numS == 2 && numA == 4
    requires HasField(sX, sOff, 0, 9) && HasField(a, aOff, 0, 1) && HasField(a, aOff, 1, 1)
    requires HasField(a, aOff, 2, 9) && HasField(a, aOff, 3, 9)
    requires 9 <= f1.Length
    modifies f1
    ensures f1[..] == Accumulate(old(f1[..]),
      Stress(3, Field(sX, sOff, 0, 9), a[aOff[0]], a[aOff[1]], Field(a, aOff, 2, 9), Field(a, aOff, 3, 9)))
  {
    var aOffVol := [aOff[0], aOff[2], aOff[3]];
    var aOffDev := [aOff[1], aOff[2], aOff[3]];
    assert Field(a, aOffVol, 1, 9) == Field(a, aOff, 2, 9) == Field(a, aOffDev, 1, 9);
    assert Field(a, aOffVol, 2, 9) == Field(a, aOff, 3, 9) == Field(a, aOffDev, 2, 9);
    FieldPrefix(sX, sOff, 0, 9, 3);
    VolumetricStress3D(dim, 1, 3, sOff, aOffVol, s, sT, sX, a, aT, aX, f1);
    DeviatoricStress3D(dim, 1, 3, sOff, aOffDev, s, sT, sX, a, aT, aX, f1);
    HelpersAddStress(3, old(f1[..]), Field(sX, sOff, 0, 9), a[aOff[0]], a[aOff[1]], Field(a, aOff, 2, 9), Field(a, aOff, 3, 9));
  }

  /**
   * The volumetric helper, reading the first n gradient entries, followed by
   * the deviatoric helper adds Stress to the buffer.
   */
  lemma HelpersAddStress(n: nat, buf: seq<real>, dispGrad: seq<real>, lambda: real, mu: real, istress: seq<real>, istrain: seq<real>)
    requires 0 < n && |dispGrad| == n * n && |istress| == n * n && |istrain| == n * n && n * n <= |buf|
    ensures Accumulate(Accumulate(buf, VolumetricTerm(n, dispGrad[..n], lambda, istress, istrain)),
                       DeviatoricTerm(n, dispGrad, mu, istress, istrain))
         == Accumulate(buf, Stress(n, dispGrad, lambda, mu, istress, istrain))
  {
    assert n <= n * n by { MulMono(1, n, n); }
    VolumetricReadsGradientPrefix(n, dispGrad, lambda, istress, istrain);
    AccumulateSuperposes(buf, VolumetricTerm(n, dispGrad, lambda, istress, istrain), DeviatoricTerm(n, dispGrad, mu, istress, istrain));
    StressSplits(n, dispGrad, lambda, mu, istress, istrain);
  }

  /**
   * f1_IsotropicLinearElasticityPlaneStrain: asserts dim == 2, runs the
   * volumetric helper, then calls the deviatoric helper, whose own assertion
   * (dim == 3) fails, so the kernel never completes; f1 holds the
   * volumetric part when it stops.
   */
  method F1IsotropicLinearElasticityPlaneStrain(dim: nat, numS: int, numA: int, sOff: seq<int>, aOff: seq<int>,
                                                s: seq<real>, sT: seq<real>, sX: seq<real>,
                                                a: seq<real>, aT: seq<real>, aX: seq<real>,
                                                f1: array<real>) returns (outcome: Outcome)
    requires dim == 2 && numS == 2 && numA == 4
    requires HasField(sX, sOff, 0, 2) && HasField(a, aOff, 0, 1) && HasField(a, aOff, 1, 1)
    requires HasField(a, aOff, 2, 4) && HasField(a, aOff, 3, 4)
    requires 4 <= f1.Length
    modifies f1
    ensures outcome == Aborted
    ensures f1[..] == Accumulate(old(f1[..]),
      VolumetricTerm(2, Field(sX, sOff, 0, 2), a[aOff[0]], Field(a, aOff, 2, 4), Field(a, aOff, 3, 4)))
  {
    var aOffVol := [aOff[0], aOff[2], aOff[3]];
    VolumetricStressPlaneStrain(dim, 1, 3, sOff, aOffVol, s, sT, sX, a, aT, aX, f1);
    // the deviatoric helper's arity assertion decides whether it runs
    if dim != PlaneStrainDeviatoricDim {
      outcome := Aborted;
    } else {
      assert false;
    }
  }

  /** The volumetric helper reads only the first n entries of the gradient it is given. */
  lemma VolumetricReadsGradientPrefix(n: nat, dispGrad: seq<real>, lambda: real, istress: seq<real>, istrain: seq<real>)
    requires 0 < n <= |dispGrad| && |istress| == n * n && |istrain| == n * n
    ensures VolumetricTerm(n, dispGrad[..n], lambda, istress, istrain) == VolumetricTerm(n, dispGrad, lambda, istress, istrain)
  {
    PrefixSumOfPrefix(dispGrad, n, n);
    assert VolumetricScalar(n, dispGrad[..n], lambda, istress, istrain) == VolumetricScalar(n, dispGrad, lambda, istress, istrain);
  }

  /** The volumetric helper adds one scalar to every diagonal entry and nothing off the diagonal. */
  lemma VolumetricTermAt(n: nat, dispGrad: seq<real>, lambda: real, istress: seq<real>, istrain: seq<real>, r: nat, c: nat)
    requires 0 < n <= |dispGrad| && |istress| == n * n && |istrain| == n * n && r < n && c < n
    ensures VolumetricTerm(n, dispGrad, lambda, istress, istrain)[Slot2(n, r, c)]
         == if r == c then lambda * (PrefixSum(dispGrad, n) - Trace(istrain, n)) + Trace(istress, n) / (n as real) else 0.0
  {
    DiagonalTermAt(n, VolumetricScalar(n, dispGrad, lambda, istress, istrain), r, c);
  }

  /**
   * The two helpers together give Stress: the mean initial stress the
   * volumetric helper adds on the diagonal is exactly what the deviatoric
   * helper takes off, so the initial stress enters once.
   */
  lemma StressSplits(n: nat, dispGrad: seq<real>, lambda: real, mu: real, istress: seq<real>, istrain: seq<real>)
    requires 0 < n && |dispGrad| == n * n && |istress| == n * n && |istrain| == n * n
    ensures Plus(VolumetricTerm(n, dispGrad, lambda, istress, istrain), DeviatoricTerm(n, dispGrad, mu, istress, istrain))
         == Stress(n, dispGrad, lambda, mu, istress, istrain)
  {
    var l := Plus(VolumetricTerm(n, dispGrad, lambda, istress, istrain), DeviatoricTerm(n, dispGrad, mu, istress, istrain));
    var r := Stress(n, dispGrad, lambda, mu, istress, istrain);
    forall k | 0 <= k < n * n ensures l[k] == r[k] {
    }
  }

  /** Entry (r, c) of Stress is StressEntry(r, c). */
  lemma StressAt(n: nat, dispGrad: seq<real>, lambda: real, mu: real, istress: seq<real>, istrain: seq<real>, r: nat, c: nat)
    requires |dispGrad| == n * n && |istress| == n * n && |istrain| == n * n && r < n && c < n
    ensures Stress(n, dispGrad, lambda, mu, istress, istrain)[Slot2(n, r, c)]
         == StressEntry(n, dispGrad, lambda, mu, istress, istrain, r, c)
  {
    RowColOfSlot(n, r, c);
  }

  /** In the reference state (zero gradient, zero initial strain) the stress is the initial stress. */
  lemma ReferenceStateStress(n: nat, lambda: real, mu: real, istress: seq<real>)
    requires |istress| == n * n
    ensures Stress(n, Zeros(n * n), lambda, mu, istress, Zeros(n * n)) == istress
  {
    PrefixSumOfZeros(n * n, n);
    TraceOfZeros(n);
    var t := Stress(n, Zeros(n * n), lambda, mu, istress, Zeros(n * n));
    forall k | 0 <= k < n * n ensures t[k] == istress[k] {
      SlotOfRowCol(n, k);
    }
  }

  /**
   * With both moduli zero the stress is the initial stress, whatever the
   * gradient and the initial strain; with zero initial stress as well (all
   * auxiliary values zero) the f1 contribution vanishes.
   */
  lemma ZeroModuliStress(n: nat, dispGrad: seq<real>, istress: seq<real>, istrain: seq<real>)
    requires |dispGrad| == n * n && |istress| == n * n && |istrain| == n * n
    ensures Stress(n, dispGrad, 0.0, 0.0, istress, istrain) == istress
    ensures Stress(n, dispGrad, 0.0, 0.0, Zeros(n * n), Zeros(n * n)) == Zeros(n * n)
  {
    forall k | 0 <= k < n * n
      ensures Stress(n, dispGrad, 0.0, 0.0, istress, istrain)[k] == istress[k]
      ensures Stress(n, dispGrad, 0.0, 0.0, Zeros(n * n), Zeros(n * n))[k] == 0.0
    {
      SlotOfRowCol(n, k);
    }
  }

  /** With symmetric initial stress and strain the stress is symmetric, whatever the gradient. */
  lemma StressSymmetric(n: nat, dispGrad: seq<real>, lambda: real, mu: real, istress: seq<real>, istrain: seq<real>)
    requires |dispGrad| == n * n && |istress| == n * n && |istrain| == n * n
    requires Symmetric(n, istress) && Symmetric(n, istrain)
    ensures Symmetric(n, Stress(n, dispGrad, lambda, mu, istress, istrain))
  {
    forall r, c | 0 <= r < n && 0 <= c < n
      ensures Stress(n, dispGrad, lambda, mu, istress, istrain)[Slot2(n, r, c)]
           == Stress(n, dispGrad, lambda, mu, istress, istrain)[Slot2(n, c, r)]
    {
      StressAt(n, dispGrad, lambda, mu, istress, istrain, r, c);
      StressAt(n, dispGrad, lambda, mu, istress, istrain, c, r);
      StressEntrySymmetric(n, dispGrad, lambda, mu, istress, istrain, r, c);
    }
  }

  /** Entries (r, c) and (c, r) of the stress agree when those of the initial stress and strain do. */
  lemma StressEntrySymmetric(n: nat, dispGrad: seq<real>, lambda: real, mu: real, istress: seq<real>, istrain: seq<real>, r: nat, c: nat)
    requires |dispGrad| == n * n && |istress| == n * n && |istrain| == n * n && r < n && c < n
    requires istress[Slot2(n, r, c)] == istress[Slot2(n, c, r)] && istrain[Slot2(n, r, c)] == istrain[Slot2(n, c, r)]
    ensures StressEntry(n, dispGrad, lambda, mu, istress, istrain, r, c) == StressEntry(n, dispGrad, lambda, mu, istress, istrain, c, r)
  {
    ShearSwap(mu, dispGrad[Slot2(n, r, c)], dispGrad[Slot2(n, c, r)], istrain[Slot2(n, r, c)], istrain[Slot2(n, c, r)]);
  }

  /** The shear term is symmetric in the two gradient entries. */
  lemma ShearSwap(mu: real, u: real, w: real, e: real, e': real)
    requires e == e'
    ensures mu * (u + w - e) == mu * (w + u - e')
  {
  }

  /** Twice the gradient less the initial strain, entry by entry: the deviatoric shear on the diagonal before scaling by mu. */
  function ShearDiagonal(u: seq<real>, e: seq<real>): (w: seq<real>)
    requires |u| == |e|
    ensures |w| == |u|
  {
    seq(|u|, i requires 0 <= i < |u| => 2.0 * u[i] - e[i])
  }

  /** Diagonal entry i of the deviatoric contribution: scaled shear w plus initial stress s less the mean. */
  function DeviatoricDiagonalValues(w: seq<real>, s: seq<real>, mean: real): (d: seq<real>)
    requires |w| == |s|
    ensures |d| == |w|
  {
    seq(|w|, i requires 0 <= i < |w| => w[i] + s[i] - mean)
  }

  /** The diagonal of the deviatoric contribution. */
  lemma DeviatoricDiagonal(n: nat, dispGrad: seq<real>, mu: real, istress: seq<real>, istrain: seq<real>)
    requires 0 < n && |dispGrad| == n * n && |istress| == n * n && |istrain| == n * n
    ensures Diagonal(DeviatoricTerm(n, dispGrad, mu, istress, istrain), n)
         == DeviatoricDiagonalValues(Scale(mu, ShearDiagonal(Diagonal(dispGrad, n), Diagonal(istrain, n))),
                                     Diagonal(istress, n), MeanDiagonal(istress, n))
  {
    forall i | 0 <= i < n
      ensures Diagonal(DeviatoricTerm(n, dispGrad, mu, istress, istrain), n)[i]
           == DeviatoricDiagonalValues(Scale(mu, ShearDiagonal(Diagonal(dispGrad, n), Diagonal(istrain, n))),
                                       Diagonal(istress, n), MeanDiagonal(istress, n))[i]
    {
      DeviatoricDiagonalAt(n, dispGrad, mu, istress, istrain, i);
    }
  }

  /** Diagonal entry i of the deviatoric contribution. */
  lemma DeviatoricDiagonalAt(n: nat, dispGrad: seq<real>, mu: real, istress: seq<real>, istrain: seq<real>, i: nat)
    requires 0 < n && |dispGrad| == n * n && |istress| == n * n && |istrain| == n * n && i < n
    ensures Diagonal(DeviatoricTerm(n, dispGrad, mu, istress, istrain), n)[i]
         == DeviatoricDiagonalValues(Scale(mu, ShearDiagonal(Diagonal(dispGrad, n), Diagonal(istrain, n))),
                                     Diagonal(istress, n), MeanDiagonal(istress, n))[i]
  {
    DeviatoricTermDiagonalAt(n, dispGrad, mu, istress, istrain, i);
    DeviatoricDiagonalValuesAt(n, dispGrad, mu, istress, istrain, i);
  }

  /** Diagonal entry i of the deviatoric contribution, from the entries at (i, i). */
  lemma DeviatoricTermDiagonalAt(n: nat, dispGrad: seq<real>, mu: real, istress: seq<real>, istrain: seq<real>, i: nat)
    requires 0 < n && |dispGrad| == n * n && |istress| == n * n && |istrain| == n * n && i < n
    ensures Slot2(n, i, i) < n * n
    ensures Diagonal(DeviatoricTerm(n, dispGrad, mu, istress, istrain), n)[i]
         == mu * (2.0 * dispGrad[Slot2(n, i, i)] - istrain[Slot2(n, i, i)]) + istress[Slot2(n, i, i)] - MeanDiagonal(istress, n)
  {
    var k := Slot2(n, i, i);
    DeviatoricTermAt(n, dispGrad, mu, istress, istrain, i, i);
    Doubled(mu, dispGrad[k], istrain[k], istress[k]);
  }

  /** Entry i of the diagonal values, from the entries at (i, i). */
  lemma DeviatoricDiagonalValuesAt(n: nat, dispGrad: seq<real>, mu: real, istress: seq<real>, istrain: seq<real>, i: nat)
    requires 0 < n && |dispGrad| == n * n && |istress| == n * n && |istrain| == n * n && i < n
    ensures Slot2(n, i, i) < n * n
    ensures DeviatoricDiagonalValues(Scale(mu, ShearDiagonal(Diagonal(dispGrad, n), Diagonal(istrain, n))),
                                     Diagonal(istress, n), MeanDiagonal(istress, n))[i]
         == mu * (2.0 * dispGrad[Slot2(n, i, i)] - istrain[Slot2(n, i, i)]) + istress[Slot2(n, i, i)] - MeanDiagonal(istress, n)
  {
    RowColOfSlot(n, i, i);
  }

  /** The symmetric part of a diagonal entry is the entry itself, counted twice. */
  lemma Doubled(mu: real, u: real, e: real, s: real)
    ensures mu * (u + u - e) + s == mu * (2.0 * u - e) + s
  {
  }

  /** Partial sums of the shear diagonal: twice the gradient's less the initial strain's. */
  lemma {:induction false} ShearDiagonalSum(u: seq<real>, e: seq<real>, m: nat)
    requires |u| == |e| && m <= |u|
    ensures PrefixSum(ShearDiagonal(u, e), m) == 2.0 * PrefixSum(u, m) - PrefixSum(e, m)
  {
    if m > 0 {
      ShearDiagonalSum(u, e, m - 1);
    }
  }

  /** Partial sums of DeviatoricDiagonalValues: the mean enters once per summed entry. */
  lemma {:induction false} DeviatoricDiagonalSum(w: seq<real>, s: seq<real>, mean: real, m: nat)
    requires |w| == |s| && m <= |w|
    ensures PrefixSum(DeviatoricDiagonalValues(w, s, mean), m) == PrefixSum(w, m) + PrefixSum(s, m) - Copies(m, mean)
  {
    if m > 0 {
      DeviatoricDiagonalSum(w, s, mean, m - 1);
    }
  }

  /** The sum of m copies of x. */
  function Copies(m: nat, x: real): real
  {
    if m == 0 then 0.0 else Copies(m - 1, x) + x
  }

  /** m copies of x add up to m * x. */
  lemma {:induction false} CopiesScale(m: nat, x: real)
    ensures Copies(m, x) == (m as real) * x
  {
    if m > 0 {
      CopiesScale(m - 1, x);
      assert ((m - 1) as real) * x + x == (m as real) * x;
    }
  }

  /** n copies of the mean of a total over n add back up to the total. */
  lemma CopiesOfMean(n: nat, total: real)
    requires 0 < n
    ensures Copies(n, total / (n as real)) == total
  {
    CopiesScale(n, total / (n as real));
  }

  /** Entry (r, c) of the deviatoric contribution. */
  lemma DeviatoricTermAt(n: nat, dispGrad: seq<real>, mu: real, istress: seq<real>, istrain: seq<real>, r: nat, c: nat)
    requires 0 < n && |dispGrad| == n * n && |istress| == n * n && |istrain| == n * n && r < n && c < n
    ensures DeviatoricTerm(n, dispGrad, mu, istress, istrain)[Slot2(n, r, c)]
         == DeviatoricEntry(n, dispGrad, mu, istress, istrain, r, c) - (if r == c then MeanDiagonal(istress, n) else 0.0)
  {
    RowColOfSlot(n, r, c);
  }

  /**
   * The deviatoric helper removes the initial stress from the trace: its
   * contribution's trace is mu * (2 tr(U) - tr(eps0)) and does not depend on
   * the initial stress.
   */
  lemma DeviatoricTrace(n: nat, dispGrad: seq<real>, mu: real, istress: seq<real>, istrain: seq<real>)
    requires 0 < n && |dispGrad| == n * n && |istress| == n * n && |istrain| == n * n
    ensures Trace(DeviatoricTerm(n, dispGrad, mu, istress, istrain), n)
         == mu * (2.0 * Trace(dispGrad, n) - Trace(istrain, n))
  {
    var dev := DeviatoricTerm(n, dispGrad, mu, istress, istrain);
    var dU, dE, dS := Diagonal(dispGrad, n), Diagonal(istrain, n), Diagonal(istress, n);
    var shear, mean := ShearDiagonal(dU, dE), MeanDiagonal(istress, n);
    calc {
      Trace(dev, n);
      PrefixSum(Diagonal(dev, n), n);
      { DeviatoricDiagonal(n, dispGrad, mu, istress, istrain); }
      PrefixSum(DeviatoricDiagonalValues(Scale(mu, shear), dS, mean), n);
      { DeviatoricDiagonalSum(Scale(mu, shear), dS, mean, n); }
      PrefixSum(Scale(mu, shear), n) + PrefixSum(dS, n) - Copies(n, mean);
      { CopiesOfMean(n, PrefixSum(dS, n)); }
      PrefixSum(Scale(mu, shear), n);
      { PrefixSumScale(mu, shear, n); }
      mu * PrefixSum(shear, n);
      { ShearDiagonalSum(dU, dE, n); }
      mu * (2.0 * PrefixSum(dU, n) - PrefixSum(dE, n));
    }
  }

  /**
   * Stress as computed departs from the documented law by
   * lambda * (first-row sum - trace of the gradient) on the diagonal and by
   * mu * initial strain everywhere: the code sums the first gradient row for
   * the trace and subtracts mu * eps0 where the law subtracts 2 mu * eps0.
   */
  lemma StressVersusDocumented(n: nat, dispGrad: seq<real>, lambda: real, mu: real, istress: seq<real>, istrain: seq<real>, r: nat, c: nat)
    requires |dispGrad| == n * n && |istress| == n * n && |istrain| == n * n && r < n && c < n
    ensures StressEntry(n, dispGrad, lambda, mu, istress, istrain, r, c)
            - DocumentedStressEntry(n, dispGrad, lambda, mu, istress, istrain, r, c)
         == (if r == c then lambda * (PrefixSum(dispGrad, n) - Trace(dispGrad, n)) else 0.0)
            + mu * istrain[Slot2(n, r, c)]
  {
  }

  /**
   * A pure shear gradient (U_01 = 1, all else zero) in plane strain, with
   * lambda = 1, mu = 0 and no initial state: the documented law gives zero
   * stress, the code puts 1 on the diagonal.
   */
  lemma ShearGradientGivesVolumetricStress()
    ensures StressEntry(2, [0.0, 1.0, 0.0, 0.0], 1.0, 0.0, Zeros(4), Zeros(4), 0, 0) == 1.0
    ensures DocumentedStressEntry(2, [0.0, 1.0, 0.0, 0.0], 1.0, 0.0, Zeros(4), Zeros(4), 0, 0) == 0.0
  {
    TraceOfZeros(2);
    assert Slot2(2, 1, 1) == 3;
  }
}
