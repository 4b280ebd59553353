/**
 * Kernels of the displacement/velocity equation of elastodynamics,
 *   integral of phi_v . (v - du/dt),
 * with solution fields [disp(dim), vel(dim)] and no auxiliary fields.
 *
 * Every kernel takes the packed per-point arrays of the calling convention
 * (offset tables sOff/aOff; s, s_t, s_x; a, a_t, a_x) and adds its
 * contribution to the caller's output array. The time t and the point
 * coordinates x, which no kernel reads, are not parameters here.
 */
module DispVelKernels {
  import opened Buffers
  import opened Tensor

  /** Pointwise residual of the velocity equation: velocity minus displacement rate. */
  function DispVelTerm(vel: seq<real>, dispT: seq<real>): (r: seq<real>)
    requires |vel| == |dispT|
    ensures |r| == |vel|
  {
    seq(|vel|, i requires 0 <= i < |vel| => vel[i] - dispT[i])
  }

  /** f0_DispVel: f0[i] += vel[i] - disp_t[i] for i < dim. */
  method F0DispVel(dim: nat, numS: int, numA: int, sOff: seq<int>, aOff: seq<int>,
                   s: seq<real>, sT: seq<real>, sX: seq<real>,
                   a: seq<real>, aT: seq<real>, aX: seq<real>,
                   f0: array<real>)
    requires numS == 2 && numA == 0
    requires HasField(sT, sOff, 0, dim) && HasField(s, sOff, 1, dim)
    requires dim <= f0.Length
    modifies f0
    ensures f0[..] == Accumulate(old(f0[..]), DispVelTerm(Field(s, sOff, 1, dim), Field(sT, sOff, 0, dim)))
  {
    ghost var term := DispVelTerm(Field(s, sOff, 1, dim), Field(sT, sOff, 0, dim));
    for i := 0 to dim
      invariant forall k :: 0 <= k < f0.Length ==> f0[k] == old(f0[k]) + (if k < i then term[k] else 0.0)
    {
      f0[i] := f0[i] + (s[sOff[1] + i] - sT[sOff[0] + i]);
    }
    assert forall k :: 0 <= k < f0.Length ==> f0[..][k] == Accumulate(old(f0[..]), term)[k];
  }

  /** g0_vv_DispVel: the identity block, 1 on each diagonal slot i*dim + i. */
  method G0vvDispVel(dim: nat, numS: int, numA: int, sOff: seq<int>, aOff: seq<int>,
                     s: seq<real>, sT: seq<real>, sX: seq<real>,
                     a: seq<real>, aT: seq<real>, aX: seq<real>,
                     utshift: real, g0: array<real>)
    requires numS == 2 && numA == 0
    requires dim * dim <= g0.Length
    modifies g0
    ensures g0[..] == Accumulate(old(g0[..]), DiagonalTerm(dim, 1.0))
  {
    AddToDiagonal(dim, 1.0, g0);
  }

  /** g0_vu_DispVel: -utshift on each diagonal slot. */
  method G0vuDispVel(dim: nat, numS: int, numA: int, sOff: seq<int>, aOff: seq<int>,
                     s: seq<real>, sT: seq<real>, sX: seq<real>,
                     a: seq<real>, aT: seq<real>, aX: seq<real>,
                     utshift: real, g0: array<real>)
    requires numS == 2 && numA == 0
    requires dim * dim <= g0.Length
    modifies g0
    ensures g0[..] == Accumulate(old(g0[..]), DiagonalTerm(dim, -utshift))
  {
    AddToDiagonal(dim, -utshift, g0);
  }

  /** The velocity residual vanishes exactly when the velocity equals the displacement rate. */
  lemma DispVelTermVanishes(vel: seq<real>, dispT: seq<real>)
    requires |vel| == |dispT|
    ensures DispVelTerm(vel, dispT) == Zeros(|vel|) <==> vel == dispT
  {
    if DispVelTerm(vel, dispT) == Zeros(|vel|) {
      forall i | 0 <= i < |vel| ensures vel[i] == dispT[i] {
        assert DispVelTerm(vel, dispT)[i] == 0.0;
      }
    }
  }

  /**
   * The two g0 blocks are the exact Jacobian of the velocity residual: moving
   * the velocity by dv and the displacement by du (so that, under the time
   * integrator's shift, the displacement rate moves by utshift * du) moves the
   * residual by g0_vv * dv + g0_vu * du.
   */
  lemma DispVelJacobianExact(vel: seq<real>, dispT: seq<real>, dv: seq<real>, du: seq<real>, utshift: real)
    requires |vel| == |dispT| == |dv| == |du|
    ensures DispVelTerm(Plus(vel, dv), Plus(dispT, Scale(utshift, du)))
         == Plus(DispVelTerm(vel, dispT),
                 Plus(MatVec(|vel|, DiagonalTerm(|vel|, 1.0), dv), MatVec(|vel|, DiagonalTerm(|vel|, -utshift), du)))
  {
    DiagonalTermScales(|vel|, 1.0, dv);
    DiagonalTermScales(|vel|, -utshift, du);
  }
}
