/**
 * The g3_uu Jacobian blocks of isotropic linear elasticity: the
 * fourth-order stiffness written by straight-line increments into the
 * caller's g3 buffer, entry (f, g, df, dg) at Slot4(dim, f, g, df, dg).
 * Auxiliary fields: [lambda(1), mu(1), ...].
 *
 * The code puts lambda + 2 mu on the axial slots (f, f, f, f), lambda on
 * the slots (f, g, f, g) with f != g, and 2 mu on the shear slots
 * (f, f, g, g) and (f, g, g, f) with f != g. The 3-D block leaves out the
 * shear slots (f, f, g, g) with g < f.
 */
module StiffnessKernels {
  import opened Buffers
  import opened Tensor

  /** Slots of the 3-D block holding lambda + 2 mu: (f, f, f, f). */
  predicate Axial3D(k: int)
  {
    k == 0 || k == 40 || k == 80
  }

  /** Slots of the 3-D block holding lambda: (f, g, f, g) with f != g. */
  predicate Lambda3D(k: int)
  {
    k == 10 || k == 20 || k == 30 || k == 50 || k == 60 || k == 70
  }

  /** Slots of the 3-D block holding 2 mu: (f, g, g, f) with f != g, and (f, f, g, g) with f < g. */
  predicate Shear3D(k: int)
  {
    k == 4 || k == 8 || k == 12 || k == 24 || k == 28 || k == 44 || k == 52 || k == 56 || k == 68
  }

  /** Slots of the plane-strain block holding lambda + 2 mu. */
  predicate AxialPlaneStrain(k: int)
  {
    k == 0 || k == 15
  }

  /** Slots of the plane-strain block holding lambda. */
  predicate LambdaPlaneStrain(k: int)
  {
    k == 5 || k == 10
  }

  /** Slots of the plane-strain block holding 2 mu. */
  predicate ShearPlaneStrain(k: int)
  {
    k == 3 || k == 6 || k == 9 || k == 12
  }

  /** The value a block puts on a slot, given whether the slot is one of its axial, lambda or shear slots. */
  function StiffnessSlot(lambda: real, mu: real, axial: bool, lam: bool, shear: bool): real
  {
    if axial then lambda + 2.0 * mu
    else if lam then lambda
    else if shear then 2.0 * mu
    else 0.0
  }

  /** The 3-D block's contribution, slot by slot. */
  function Iso3DTerm(lambda: real, mu: real): (t: seq<real>)
    ensures |t| == 81
  {
    seq(81, k => StiffnessSlot(lambda, mu, Axial3D(k), Lambda3D(k), Shear3D(k)))
  }

  /** The plane-strain block's contribution, slot by slot. */
  function PlaneStrainTerm(lambda: real, mu: real): (t: seq<real>)
    ensures |t| == 16
  {
    seq(16, k => StiffnessSlot(lambda, mu, AxialPlaneStrain(k), LambdaPlaneStrain(k), ShearPlaneStrain(k)))
  }

  /** g3_uu_IsotropicLinearElasticity3D: 18 increments of the 81-slot block. */
  method G3uuIsotropicLinearElasticity3D(dim: nat, numS: int, numA: int, sOff: seq<int>, aOff: seq<int>,
                                         s: seq<real>, sT: seq<real>, sX: seq<real>,
                                         a: seq<real>, aT: seq<real>, aX: seq<real>,
                                         utshift: real, g3: array<real>)
    requires dim == 3 && numS == 2 && numA == 2
    requires HasField(a, aOff, 0, 1) && HasField(a, aOff, 1, 1)
    requires 81 <= g3.Length
    modifies g3
    ensures g3[..] == Accumulate(old(g3[..]), Iso3DTerm(a[aOff[0]], a[aOff[1]]))
  {
    var lambda, mu := a[aOff[0]], a[aOff[1]];
    ghost var before := g3[..];
    AddIso3DComponent0(g3, lambda, mu);
    ghost var after0 := g3[..];
    AddIso3DComponent1(g3, lambda, mu);
    ghost var after1 := g3[..];
    AddIso3DComponent2(g3, lambda, mu);
    forall k | 0 <= k < g3.Length
      ensures g3[k] == before[k] + Iso3DPart(lambda, mu, 0, k) + Iso3DPart(lambda, mu, 1, k) + Iso3DPart(lambda, mu, 2, k)
    {
      assert after0[k] == before[k] + Iso3DPart(lambda, mu, 0, k);
      assert after1[k] == after0[k] + Iso3DPart(lambda, mu, 1, k);
    }
    Iso3DAccumulated(before, g3, lambda, mu);
  }

  /** The increment the 3-D block makes to slot k for test component f, that is for k in [27 f, 27 f + 27). */
  function Iso3DPart(lambda: real, mu: real, f: nat, k: int): real
  {
    if 27 * f <= k < 27 * f + 27 then StiffnessSlot(lambda, mu, Axial3D(k), Lambda3D(k), Shear3D(k)) else 0.0
  }

  /** The 3-D block's increments for test component 0: g0000 through g0220. */
  method AddIso3DComponent0(g3: array<real>, lambda: real, mu: real)
    requires 81 <= g3.Length
    modifies g3
    ensures forall k :: 0 <= k < g3.Length ==> g3[k] == old(g3[k]) + Iso3DPart(lambda, mu, 0, k)
  {
    var mu2 := 2.0 * mu;
    var lambda2mu := lambda + mu2;
    g3[0] := g3[0] + lambda2mu;
    g3[4] := g3[4] + mu2;
    g3[8] := g3[8] + mu2;
    g3[10] := g3[10] + lambda;
    g3[12] := g3[12] + mu2;
    g3[20] := g3[20] + lambda;
    g3[24] := g3[24] + mu2;
  }

  /** The 3-D block's increments for test component 1: g1001 through g1221. */
  method AddIso3DComponent1(g3: array<real>, lambda: real, mu: real)
    requires 81 <= g3.Length
    modifies g3
    ensures forall k :: 0 <= k < g3.Length ==> g3[k] == old(g3[k]) + Iso3DPart(lambda, mu, 1, k)
  {
    var mu2 := 2.0 * mu;
    var lambda2mu := lambda + mu2;
    g3[28] := g3[28] + mu2;
    g3[30] := g3[30] + lambda;
    g3[40] := g3[40] + lambda2mu;
    g3[44] := g3[44] + mu2;
    g3[50] := g3[50] + lambda;
    g3[52] := g3[52] + mu2;
  }

  /** The 3-D block's increments for test component 2: g2002 through g2222. */
  method AddIso3DComponent2(g3: array<real>, lambda: real, mu: real)
    requires 81 <= g3.Length
    modifies g3
    ensures forall k :: 0 <= k < g3.Length ==> g3[k] == old(g3[k]) + Iso3DPart(lambda, mu, 2, k)
  {
    var mu2 := 2.0 * mu;
    var lambda2mu := lambda + mu2;
    g3[56] := g3[56] + mu2;
    g3[60] := g3[60] + lambda;
    g3[68] := g3[68] + mu2;
    g3[70] := g3[70] + lambda;
    g3[80] := g3[80] + lambda2mu;
  }

  /** g3_uu_IsotropicLinearElasticityPlaneStrain: 8 increments of the 16-slot block. */
  method G3uuIsotropicLinearElasticityPlaneStrain(dim: nat, numS: int, numA: int, sOff: seq<int>, aOff: seq<int>,
                                                  s: seq<real>, sT: seq<real>, sX: seq<real>,
                                                  a: seq<real>, aT: seq<real>, aX: seq<real>,
                                                  utshift: real, g3: array<real>)
    requires dim == 2 && numS == 2 && numA == 4
    requires HasField(a, aOff, 0, 1) && HasField(a, aOff, 1, 1)
    requires 16 <= g3.Length
    modifies g3
    ensures g3[..] == Accumulate(old(g3[..]), PlaneStrainTerm(a[aOff[0]], a[aOff[1]]))
  {
    var lambda, mu := a[aOff[0]], a[aOff[1]];
    var mu2 := 2.0 * mu;
    var lambda2mu := lambda + mu2;
    g3[0] := g3[0] + lambda2mu;
    g3[3] := g3[3] + mu2;
    g3[5] := g3[5] + lambda;
    g3[6] := g3[6] + mu2;
    g3[9] := g3[9] + mu2;
    g3[10] := g3[10] + lambda;
    g3[12] := g3[12] + mu2;
    g3[15] := g3[15] + lambda2mu;
    PlaneStrainAccumulated(old(g3[..]), g3, lambda, mu);
  }

  /** A slot the 3-D block increments. */
  predicate Iso3DSlot(k: int)
  {
    Axial3D(k) || Lambda3D(k) || Shear3D(k)
  }

  /** A slot the plane-strain block increments. */
  predicate PlaneStrainSlot(k: int)
  {
    AxialPlaneStrain(k) || LambdaPlaneStrain(k) || ShearPlaneStrain(k)
  }

  /** A buffer raised on every slot by the three test components' increments has accumulated the 3-D block. */
  lemma Iso3DAccumulated(before: seq<real>, g3: array<real>, lambda: real, mu: real)
    requires 81 <= |before| == g3.Length
    requires forall k :: 0 <= k < g3.Length ==>
      g3[k] == before[k] + Iso3DPart(lambda, mu, 0, k) + Iso3DPart(lambda, mu, 1, k) + Iso3DPart(lambda, mu, 2, k)
    ensures g3[..] == Accumulate(before, Iso3DTerm(lambda, mu))
  {
    var t := Iso3DTerm(lambda, mu);
    forall k | 0 <= k < g3.Length
      ensures g3[..][k] == before[k] + (if k < 81 then t[k] else 0.0)
    {
      assert g3[k] == before[k] + Iso3DPart(lambda, mu, 0, k) + Iso3DPart(lambda, mu, 1, k) + Iso3DPart(lambda, mu, 2, k);
    }
    AccumulatedBy(before, g3[..], t);
  }

  /** A buffer raised on the plane-strain block's slots by its entries, and unchanged elsewhere, has accumulated the block. */
  lemma PlaneStrainAccumulated(before: seq<real>, g3: array<real>, lambda: real, mu: real)
    requires 16 <= |before| == g3.Length
    requires g3[0] == before[0] + (lambda + 2.0 * mu)
    requires g3[3] == before[3] + 2.0 * mu
    requires g3[5] == before[5] + lambda
    requires g3[6] == before[6] + 2.0 * mu
    requires g3[9] == before[9] + 2.0 * mu
    requires g3[10] == before[10] + lambda
    requires g3[12] == before[12] + 2.0 * mu
    requires g3[15] == before[15] + (lambda + 2.0 * mu)
    requires forall k :: 0 <= k < g3.Length && !PlaneStrainSlot(k) ==> g3[k] == before[k]
    ensures g3[..] == Accumulate(before, PlaneStrainTerm(lambda, mu))
  {
    AccumulatedBy(before, g3[..], PlaneStrainTerm(lambda, mu));
  }

  /**
   * Entry (f, g, df, dg) = C(f, df, g, dg) of the isotropic stiffness
   *   C_ijkl = lambda d_ij d_kl + mu (d_ik d_jl + d_il d_jk).
   */
  function IsotropicStiffnessEntry(lambda: real, mu: real, f: nat, g: nat, df: nat, dg: nat): real
  {
    (if f == df && g == dg then lambda else 0.0)
    + (if f == g && df == dg then mu else 0.0)
    + (if f == dg && g == df then mu else 0.0)
  }

  /** A shear slot: (f, f, g, g) or (f, g, g, f) with f != g. */
  predicate ShearSlot(f: nat, g: nat, df: nat, dg: nat)
  {
    (f == g && df == dg && f != df) || (f == dg && g == df && f != g)
  }

  /** Entry (f, g, df, dg) of the block the code writes: the isotropic stiffness with mu doubled on the shear slots. */
  function DoubledShearEntry(lambda: real, mu: real, f: nat, g: nat, df: nat, dg: nat): real
  {
    IsotropicStiffnessEntry(lambda, mu, f, g, df, dg) + (if ShearSlot(f, g, df, dg) then mu else 0.0)
  }

  /** Swapping test and trial (f <-> g together with df <-> dg) leaves every entry of block t alone. */
  predicate MajorSymmetric(n: nat, t: seq<real>)
    requires |t| == (n * n) * (n * n)
  {
    forall f, g, df, dg :: 0 <= f < n && 0 <= g < n && 0 <= df < n && 0 <= dg < n ==>
      t[Slot4(n, f, g, df, dg)] == t[Slot4(n, g, f, dg, df)]
  }

  /** Swapping the test component with the test derivative direction (f <-> df) leaves every entry of block t alone. */
  predicate MinorSymmetric(n: nat, t: seq<real>)
    requires |t| == (n * n) * (n * n)
  {
    forall f, g, df, dg :: 0 <= f < n && 0 <= g < n && 0 <= df < n && 0 <= dg < n ==>
      t[Slot4(n, f, g, df, dg)] == t[Slot4(n, df, g, f, dg)]
  }

  /** The plane-strain block is the isotropic stiffness with mu doubled on the shear slots, slot by slot. */
  lemma PlaneStrainTermAt(lambda: real, mu: real, f: nat, g: nat, df: nat, dg: nat)
    requires f < 2 && g < 2 && df < 2 && dg < 2
    ensures PlaneStrainTerm(lambda, mu)[Slot4(2, f, g, df, dg)] == DoubledShearEntry(lambda, mu, f, g, df, dg)
  {
  }

  /**
   * The 3-D block is the isotropic stiffness with mu doubled on the shear
   * slots, except on the shear slots (f, f, g, g) with g < f, which it leaves
   * at zero.
   */
  lemma Iso3DTermAt(lambda: real, mu: real, f: nat, g: nat, df: nat, dg: nat)
    requires f < 3 && g < 3 && df < 3 && dg < 3
    ensures Iso3DTerm(lambda, mu)[Slot4(3, f, g, df, dg)]
         == if f == g && df == dg && df < f then 0.0 else DoubledShearEntry(lambda, mu, f, g, df, dg)
  {
    assert Slot4(3, f, g, df, dg) == 27 * f + 9 * g + 3 * df + dg;
    if f == 0 {
      if g == 0 {} else if g == 1 {} else {}
    } else if f == 1 {
      if g == 0 {} else if g == 1 {} else {}
    } else {
      if g == 0 {} else if g == 1 {} else {}
    }
  }

  /** The plane-strain block has both the major and the minor symmetry. */
  lemma PlaneStrainSymmetric(lambda: real, mu: real)
    ensures MajorSymmetric(2, PlaneStrainTerm(lambda, mu))
    ensures MinorSymmetric(2, PlaneStrainTerm(lambda, mu))
  {
    forall f, g, df, dg | 0 <= f < 2 && 0 <= g < 2 && 0 <= df < 2 && 0 <= dg < 2
      ensures PlaneStrainTerm(lambda, mu)[Slot4(2, f, g, df, dg)] == PlaneStrainTerm(lambda, mu)[Slot4(2, g, f, dg, df)]
      ensures PlaneStrainTerm(lambda, mu)[Slot4(2, f, g, df, dg)] == PlaneStrainTerm(lambda, mu)[Slot4(2, df, g, f, dg)]
    {
      PlaneStrainTermAt(lambda, mu, f, g, df, dg);
      PlaneStrainTermAt(lambda, mu, g, f, dg, df);
      PlaneStrainTermAt(lambda, mu, df, g, f, dg);
    }
  }

  /** The 3-D block has the major symmetry. */
  lemma Iso3DMajorSymmetric(lambda: real, mu: real)
    ensures MajorSymmetric(3, Iso3DTerm(lambda, mu))
  {
    forall f, g, df, dg | 0 <= f < 3 && 0 <= g < 3 && 0 <= df < 3 && 0 <= dg < 3
      ensures Iso3DTerm(lambda, mu)[Slot4(3, f, g, df, dg)] == Iso3DTerm(lambda, mu)[Slot4(3, g, f, dg, df)]
    {
      Iso3DTermAt(lambda, mu, f, g, df, dg);
      Iso3DTermAt(lambda, mu, g, f, dg, df);
    }
  }

  /**
   * The 3-D block has the minor symmetry exactly when mu is zero: slot 12
   * (g0110) holds 2 mu while its minor image, slot 36 (g1100), is left out.
   */
  lemma Iso3DMinorSymmetricIff(lambda: real, mu: real)
    ensures MinorSymmetric(3, Iso3DTerm(lambda, mu)) <==> mu == 0.0
  {
    if mu == 0.0 {
      forall f, g, df, dg | 0 <= f < 3 && 0 <= g < 3 && 0 <= df < 3 && 0 <= dg < 3
        ensures Iso3DTerm(lambda, mu)[Slot4(3, f, g, df, dg)] == Iso3DTerm(lambda, mu)[Slot4(3, df, g, f, dg)]
      {
        Iso3DTermAt(lambda, mu, f, g, df, dg);
        Iso3DTermAt(lambda, mu, df, g, f, dg);
      }
    } else {
      assert Slot4(3, 0, 1, 1, 0) == 12 && Slot4(3, 1, 1, 0, 0) == 36;
      assert Iso3DTerm(lambda, mu)[12] != Iso3DTerm(lambda, mu)[36];
    }
  }

  /** A slot where the isotropic stiffness can be nonzero: (f, g, f, g), or a shear slot. */
  predicate IsotropicSlot(f: nat, g: nat, df: nat, dg: nat)
  {
    (f == df && g == dg) || ShearSlot(f, g, df, dg)
  }

  /**
   * The 3-D block increments exactly the isotropic stiffness's slots less
   * the shear slots (f, f, g, g) with g < f: 21 - 3 = 18 of its 81 slots.
   */
  lemma Iso3DSlotAt(f: nat, g: nat, df: nat, dg: nat)
    requires f < 3 && g < 3 && df < 3 && dg < 3
    ensures Iso3DSlot(Slot4(3, f, g, df, dg)) <==> IsotropicSlot(f, g, df, dg) && !(f == g && df == dg && df < f)
  {
    assert Slot4(3, f, g, df, dg) == 27 * f + 9 * g + 3 * df + dg;
    if f == 0 {
      if g == 0 {} else if g == 1 {} else {}
    } else if f == 1 {
      if g == 0 {} else if g == 1 {} else {}
    } else {
      if g == 0 {} else if g == 1 {} else {}
    }
  }

  /** The plane-strain block increments exactly the isotropic stiffness's slots: 8 of its 16. */
  lemma PlaneStrainSlotAt(f: nat, g: nat, df: nat, dg: nat)
    requires f < 2 && g < 2 && df < 2 && dg < 2
    ensures PlaneStrainSlot(Slot4(2, f, g, df, dg)) <==> IsotropicSlot(f, g, df, dg)
  {
    assert Slot4(2, f, g, df, dg) == 8 * f + 4 * g + 2 * df + dg;
    if f == 0 {
      if g == 0 {} else {}
    } else {
      if g == 0 {} else {}
    }
  }

  /** Both blocks agree with the isotropic stiffness on the axial and lambda slots; there lambda and mu enter once. */
  lemma AxialAndLambdaSlots(lambda: real, mu: real, f: nat, g: nat)
    requires f < 3 && g < 3
    ensures IsotropicStiffnessEntry(lambda, mu, f, g, f, g) == if f == g then lambda + 2.0 * mu else lambda
    ensures Iso3DTerm(lambda, mu)[Slot4(3, f, g, f, g)] == IsotropicStiffnessEntry(lambda, mu, f, g, f, g)
    ensures f < 2 && g < 2 ==> PlaneStrainTerm(lambda, mu)[Slot4(2, f, g, f, g)] == IsotropicStiffnessEntry(lambda, mu, f, g, f, g)
  {
    Iso3DTermAt(lambda, mu, f, g, f, g);
    if f < 2 && g < 2 {
      PlaneStrainTermAt(lambda, mu, f, g, f, g);
    }
  }

  /** On a shear slot the plane-strain block holds 2 mu where the isotropic stiffness has mu. */
  lemma ShearSlotsDoubled(lambda: real, mu: real, f: nat, g: nat, df: nat, dg: nat)
    requires f < 2 && g < 2 && df < 2 && dg < 2 && ShearSlot(f, g, df, dg)
    ensures IsotropicStiffnessEntry(lambda, mu, f, g, df, dg) == mu
    ensures PlaneStrainTerm(lambda, mu)[Slot4(2, f, g, df, dg)] == 2.0 * mu
  {
    PlaneStrainTermAt(lambda, mu, f, g, df, dg);
  }

  /** With lambda and mu zero (all auxiliary values zero) both blocks vanish. */
  lemma ZeroModuliStiffness()
    ensures Iso3DTerm(0.0, 0.0) == Zeros(81)
    ensures PlaneStrainTerm(0.0, 0.0) == Zeros(16)
  {
    assert forall k :: 0 <= k < 81 ==> Iso3DTerm(0.0, 0.0)[k] == 0.0;
    assert forall k :: 0 <= k < 16 ==> PlaneStrainTerm(0.0, 0.0)[k] == 0.0;
  }
}
