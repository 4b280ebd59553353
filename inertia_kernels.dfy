/**
 * Kernels for inertia and body forces,
 *   integral of phi_u . (rho dv/dt - f),
 * with solution fields [disp(dim), vel(dim)] and auxiliary fields
 * [density(1), body force(dim)], [density(1)] or [body force(dim)].
 *
 * Inertia's own parameter list is (s, s_t, s_tt, s_x, a, a_x) while its
 * callers pass (s, s_t, s_x, a, a_t, a_x) in those positions. The model keeps
 * both lists, so the composites below pass their a_t where Inertia reads its
 * density array.
 */
module InertiaKernels {
  import opened Buffers
  import opened Tensor

  /** Inertial force density * acc, entry by entry. */
  function InertiaTerm(acc: seq<real>, density: real): (r: seq<real>)
    ensures |r| == |acc|
  {
    seq(|acc|, i requires 0 <= i < |acc| => acc[i] * density)
  }

  /** Body-force contribution: the body force with its sign reversed. */
  function BodyForceTerm(bodyForce: seq<real>): (r: seq<real>)
    ensures |r| == |bodyForce|
  {
    seq(|bodyForce|, i requires 0 <= i < |bodyForce| => -bodyForce[i])
  }

  /** Inertia: f0[i] += acc[i] * density, acc = s_t at sOff[0], density = a[aOff[0]]. */
  method Inertia(dim: nat, numS: int, numA: int, sOff: seq<int>, aOff: seq<int>,
                 s: seq<real>, sT: seq<real>, sTT: seq<real>, sX: seq<real>,
                 a: seq<real>, aX: seq<real>,
                 f0: array<real>)
    requires numS == 1 && numA == 1
    requires HasField(sT, sOff, 0, dim) && HasField(a, aOff, 0, 1)
    requires dim <= f0.Length
    modifies f0
    ensures f0[..] == Accumulate(old(f0[..]), InertiaTerm(Field(sT, sOff, 0, dim), a[aOff[0]]))
  {
    var density := a[aOff[0]];
    ghost var term := InertiaTerm(Field(sT, sOff, 0, dim), density);
    for i := 0 to dim
      invariant forall k :: 0 <= k < f0.Length ==> f0[k] == old(f0[k]) + (if k < i then term[k] else 0.0)
    {
      f0[i] := f0[i] + sT[sOff[0] + i] * density;
    }
    assert forall k :: 0 <= k < f0.Length ==> f0[..][k] == Accumulate(old(f0[..]), term)[k];
  }

  /** BodyForce: f0[i] -= bodyforce[i], bodyforce = a at aOff[0]. */
  method BodyForce(dim: nat, numS: int, numA: int, sOff: seq<int>, aOff: seq<int>,
                   s: seq<real>, sT: seq<real>, sX: seq<real>,
                   a: seq<real>, aT: seq<real>, aX: seq<real>,
                   f0: array<real>)
    requires numS == 0 && numA == 1
    requires HasField(a, aOff, 0, dim)
    requires dim <= f0.Length
    modifies f0
    ensures f0[..] == Accumulate(old(f0[..]), BodyForceTerm(Field(a, aOff, 0, dim)))
  {
    ghost var term := BodyForceTerm(Field(a, aOff, 0, dim));
    for i := 0 to dim
      invariant forall k :: 0 <= k < f0.Length ==> f0[k] == old(f0[k]) + (if k < i then term[k] else 0.0)
    {
      f0[i] := f0[i] - a[aOff[0] + i];
    }
    assert forall k :: 0 <= k < f0.Length ==> f0[..][k] == Accumulate(old(f0[..]), term)[k];
  }

  /**
   * f0_ElasticityInertiaBodyForce: Inertia on the velocity field and the
   * density offset, then BodyForce on the body-force offset. The density is
   * read from a_t, the array the call passes in Inertia's density position.
   */
  method F0ElasticityInertiaBodyForce(dim: nat, numS: int, numA: int, sOff: seq<int>, aOff: seq<int>,
                                      s: seq<real>, sT: seq<real>, sX: seq<real>,
                                      a: seq<real>, aT: seq<real>, aX: seq<real>,
                                      f0: array<real>)
    requires numS == 2 && numA == 2
    requires HasField(sT, sOff, 1, dim) && HasField(aT, aOff, 0, 1) && HasField(a, aOff, 1, dim)
    requires dim <= f0.Length
    modifies f0
    ensures f0[..] == Accumulate(Accumulate(old(f0[..]), InertiaTerm(Field(sT, sOff, 1, dim), aT[aOff[0]])),
                                 BodyForceTerm(Field(a, aOff, 1, dim)))
  {
    FieldShift(sT, sOff, 0, dim);
    FieldShift(a, aOff, 0, dim);
    Inertia(dim, 1, 1, sOff[1..], aOff, s, sT, sX, a, aT, aX, f0);
    BodyForce(dim, 0, 1, [], aOff[1..], s, sT, sX, a, aT, aX, f0);
  }

  /** f0_ElasticityInertia: Inertia alone, density again read from a_t. */
  method F0ElasticityInertia(dim: nat, numS: int, numA: int, sOff: seq<int>, aOff: seq<int>,
                             s: seq<real>, sT: seq<real>, sX: seq<real>,
                             a: seq<real>, aT: seq<real>, aX: seq<real>,
                             f0: array<real>)
    requires numS == 2 && numA == 1
    requires HasField(sT, sOff, 1, dim) && HasField(aT, aOff, 0, 1)
    requires dim <= f0.Length
    modifies f0
    ensures f0[..] == Accumulate(old(f0[..]), InertiaTerm(Field(sT, sOff, 1, dim), aT[aOff[0]]))
  {
    FieldShift(sT, sOff, 0, dim);
    Inertia(dim, 1, 1, sOff[1..], aOff, s, sT, sX, a, aT, aX, f0);
  }

  /** f0_ElasticityBodyForce: BodyForce alone on auxiliary field 0. */
  method F0ElasticityBodyForce(dim: nat, numS: int, numA: int, sOff: seq<int>, aOff: seq<int>,
                               s: seq<real>, sT: seq<real>, sX: seq<real>,
                               a: seq<real>, aT: seq<real>, aX: seq<real>,
                               f0: array<real>)
    requires numS == 2 && numA == 1
    requires HasField(a, aOff, 0, dim)
    requires dim <= f0.Length
    modifies f0
    ensures f0[..] == Accumulate(old(f0[..]), BodyForceTerm(Field(a, aOff, 0, dim)))
  {
    BodyForce(dim, 0, 1, [], aOff, s, sT, sX, a, aT, aX, f0);
  }

  /**
   * g0_uv_ElasticityInertia: density * utshift on each diagonal slot. The
   * kernel asserts that there are no auxiliary fields and still reads the
   * density through aOff[0].
   */
  method G0uvElasticityInertia(dim: nat, numS: int, numA: int, sOff: seq<int>, aOff: seq<int>,
                               s: seq<real>, sT: seq<real>, sX: seq<real>,
                               a: seq<real>, aT: seq<real>, aX: seq<real>,
                               utshift: real, g0: array<real>)
    requires numS == 2 && numA == 0
    requires HasField(a, aOff, 0, 1)
    requires dim * dim <= g0.Length
    modifies g0
    ensures g0[..] == Accumulate(old(g0[..]), DiagonalTerm(dim, a[aOff[0]] * utshift))
  {
    AddToDiagonal(dim, a[aOff[0]] * utshift, g0);
  }

  /**
   * The combined kernel's contribution is the sum of the two separate
   * kernels' contributions, whichever is applied first, when the combined
   * auxiliary layout [density, body force] is split into [density] and
   * [body force].
   */
  lemma InertiaBodyForceSplits(buf: seq<real>, acc: seq<real>, density: real, bodyForce: seq<real>)
    requires |acc| == |bodyForce| <= |buf|
    ensures Accumulate(Accumulate(buf, InertiaTerm(acc, density)), BodyForceTerm(bodyForce))
         == Accumulate(buf, Plus(InertiaTerm(acc, density), BodyForceTerm(bodyForce)))
    ensures Accumulate(Accumulate(buf, InertiaTerm(acc, density)), BodyForceTerm(bodyForce))
         == Accumulate(Accumulate(buf, BodyForceTerm(bodyForce)), InertiaTerm(acc, density))
  {
    AccumulateSuperposes(buf, InertiaTerm(acc, density), BodyForceTerm(bodyForce));
    AccumulateCommutes(buf, InertiaTerm(acc, density), BodyForceTerm(bodyForce));
  }

  /**
   * g0_uv is the exact Jacobian of the inertia term with respect to the
   * velocity when it is given the density the residual uses: moving the
   * velocity by dv moves its rate by utshift * dv and the inertial force by
   * g0_uv * dv.
   */
  lemma InertiaJacobianExact(acc: seq<real>, dv: seq<real>, density: real, utshift: real)
    requires |acc| == |dv|
    ensures InertiaTerm(Plus(acc, Scale(utshift, dv)), density)
         == Plus(InertiaTerm(acc, density), MatVec(|acc|, DiagonalTerm(|acc|, density * utshift), dv))
  {
    DiagonalTermScales(|acc|, density * utshift, dv);
    var l := InertiaTerm(Plus(acc, Scale(utshift, dv)), density);
    var r := Plus(InertiaTerm(acc, density), Scale(density * utshift, dv));
    forall i | 0 <= i < |acc| ensures l[i] == r[i] {
      assert (acc[i] + utshift * dv[i]) * density == acc[i] * density + (density * utshift) * dv[i];
    }
  }

  /**
   * The pair as the code wires it: f0_ElasticityInertia takes its density
   * rhoT from a_t and g0_uv_ElasticityInertia its density rho from a. Along
   * any velocity change dv with a non-zero entry, the block for rho is the
   * exact derivative of the inertia term for rhoT exactly when
   * rho * utshift == rhoT * utshift.
   */
  lemma InertiaJacobianMatchesIff(acc: seq<real>, dv: seq<real>, rho: real, rhoT: real, utshift: real, j: nat)
    requires |acc| == |dv| && j < |dv| && dv[j] != 0.0
    ensures InertiaTerm(Plus(acc, Scale(utshift, dv)), rhoT)
         == Plus(InertiaTerm(acc, rhoT), MatVec(|acc|, DiagonalTerm(|acc|, rho * utshift), dv))
        <==> rho * utshift == rhoT * utshift
  {
    BlockMatchesIff(acc, dv, rhoT, utshift, rho * utshift, j);
  }

  /** A diagonal block of value d is the exact derivative of the inertia term for rhoT iff d == rhoT * utshift. */
  lemma BlockMatchesIff(acc: seq<real>, dv: seq<real>, rhoT: real, utshift: real, d: real, j: nat)
    requires |acc| == |dv| && j < |dv| && dv[j] != 0.0
    ensures InertiaTerm(Plus(acc, Scale(utshift, dv)), rhoT)
         == Plus(InertiaTerm(acc, rhoT), MatVec(|acc|, DiagonalTerm(|acc|, d), dv))
        <==> d == rhoT * utshift
  {
    InertiaJacobianExact(acc, dv, rhoT, utshift);
    DiagonalTermScales(|acc|, rhoT * utshift, dv);
    DiagonalTermScales(|acc|, d, dv);
    ShiftsAgreeIff(InertiaTerm(acc, rhoT), dv, d, rhoT * utshift, j);
  }

  /** Two shifts of one base along v agree exactly when their scales do, once v has a non-zero entry. */
  lemma ShiftsAgreeIff(base: seq<real>, v: seq<real>, x: real, y: real, j: nat)
    requires |base| == |v| && j < |v| && v[j] != 0.0
    ensures Plus(base, Scale(x, v)) == Plus(base, Scale(y, v)) <==> x == y
  {
    if Plus(base, Scale(x, v)) == Plus(base, Scale(y, v)) {
      assert Plus(base, Scale(x, v))[j] == Plus(base, Scale(y, v))[j];
      CancelNonZero(x, y, v[j]);
    }
  }

  /** A product with a non-zero factor determines the other factor. */
  lemma CancelNonZero(x: real, y: real, d: real)
    requires d != 0.0 && x * d == y * d
    ensures x == y
  {
    assert (x - y) * d == 0.0;
  }

  /**
   * As written, zero density in the auxiliary values a does not silence
   * f0_ElasticityInertia: its density is the a_t entry, so a non-zero rate
   * there and a non-zero acceleration leave a non-zero inertial force, while
   * the density read from a gives none.
   */
  lemma InertiaDensityFromRate(a: seq<real>, aT: seq<real>, aOff: seq<int>, acc: seq<real>)
    requires HasField(a, aOff, 0, 1) && HasField(aT, aOff, 0, 1)
    requires a[aOff[0]] == 0.0 && aT[aOff[0]] != 0.0 && acc != Zeros(|acc|)
    ensures InertiaTerm(acc, a[aOff[0]]) == Zeros(|acc|)
    ensures InertiaTerm(acc, aT[aOff[0]]) != Zeros(|acc|)
  {
    InertiaTermVanishes(acc, a[aOff[0]]);
    InertiaTermVanishes(acc, aT[aOff[0]]);
  }

  /**
   * The inertial contribution vanishes exactly when the density is zero or
   * the acceleration is. In the composite kernels that density is the a_t
   * slot, so zero auxiliary values a do not silence the inertia term.
   */
  lemma InertiaTermVanishes(acc: seq<real>, density: real)
    ensures InertiaTerm(acc, density) == Zeros(|acc|) <==> (density == 0.0 || acc == Zeros(|acc|))
  {
    if InertiaTerm(acc, density) == Zeros(|acc|) && density != 0.0 {
      forall i | 0 <= i < |acc| ensures acc[i] == 0.0 {
        assert InertiaTerm(acc, density)[i] == 0.0;
        assert acc[i] * density / density == acc[i];
      }
    }
    if acc == Zeros(|acc|) {
      assert forall i :: 0 <= i < |acc| ==> InertiaTerm(acc, density)[i] == 0.0;
    }
  }

  /** The body-force contribution vanishes exactly when the body force does. */
  lemma BodyForceTermVanishes(bodyForce: seq<real>)
    ensures BodyForceTerm(bodyForce) == Zeros(|bodyForce|) <==> bodyForce == Zeros(|bodyForce|)
  {
    if BodyForceTerm(bodyForce) == Zeros(|bodyForce|) {
      forall i | 0 <= i < |bodyForce| ensures bodyForce[i] == 0.0 {
        assert BodyForceTerm(bodyForce)[i] == 0.0;
      }
    }
  }
}
