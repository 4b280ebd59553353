/**
 * Packed per-quadrature-point buffers and the accumulate-into-buffer
 * convention shared by every pointwise kernel.
 *
 * The assembler hands each kernel packed value arrays (solution `s`, its
 * time derivative `s_t`, its gradient `s_x`, and the auxiliary `a`, `a_t`,
 * `a_x`) plus offset tables: field number k starts at `off[k]`. A kernel
 * never overwrites its output; it adds a contribution ("term") to a prefix
 * of the caller's buffer.
 */
module Buffers {

  /** Field number k of length len lies inside buf according to the offset table off. */
  predicate HasField(buf: seq<real>, off: seq<int>, k: nat, len: nat)
  {
    k < |off| && 0 <= off[k] && off[k] + len <= |buf|
  }

  /** The view of field k: the slice of the packed buffer that holds it. */
  function Field(buf: seq<real>, off: seq<int>, k: nat, len: nat): (v: seq<real>)
    requires HasField(buf, off, k, len)
    ensures |v| == len
    ensures forall i :: 0 <= i < len ==> v[i] == buf[off[k] + i]
  {
    buf[off[k]..off[k] + len]
  }

  /** Dropping the first entry of the offset table renumbers field k + 1 as field k. */
  lemma FieldShift(buf: seq<real>, off: seq<int>, k: nat, len: nat)
    requires HasField(buf, off, k + 1, len)
    ensures HasField(buf, off[1..], k, len)
    ensures Field(buf, off[1..], k, len) == Field(buf, off, k + 1, len)
  {
    assert off[1..][k] == off[k + 1];
  }

  /** The first m entries of a field are the field of length m at the same offset. */
  lemma FieldPrefix(buf: seq<real>, off: seq<int>, k: nat, len: nat, m: nat)
    requires HasField(buf, off, k, len) && m <= len
    ensures HasField(buf, off, k, m)
    ensures Field(buf, off, k, m) == Field(buf, off, k, len)[..m]
  {
  }

  /** The all-zero contribution of length n. */
  function Zeros(n: nat): (z: seq<real>)
    ensures |z| == n
  {
    seq(n, _ => 0.0)
  }

  /** Elementwise sum of two contributions of the same length. */
  function Plus(p: seq<real>, q: seq<real>): (r: seq<real>)
    requires |p| == |q|
    ensures |r| == |p|
  {
    seq(|p|, i requires 0 <= i < |p| => p[i] + q[i])
  }

  /** The contribution v scaled by c. */
  function Scale(c: real, v: seq<real>): (r: seq<real>)
    ensures |r| == |v|
  {
    seq(|v|, i requires 0 <= i < |v| => c * v[i])
  }

  /**
   * The buffer after a kernel adds the contribution inc to its first |inc|
   * slots: those slots grow by inc, every later slot keeps its value.
   */
  function Accumulate(buf: seq<real>, inc: seq<real>): (r: seq<real>)
    requires |inc| <= |buf|
    ensures |r| == |buf|
    ensures forall k :: 0 <= k < |inc| ==> r[k] == buf[k] + inc[k]
    ensures forall k :: |inc| <= k < |buf| ==> r[k] == buf[k]
  {
    if inc == [] then buf
    else [buf[0] + inc[0]] + Accumulate(buf[1..], inc[1..])
  }

  /** A buffer that grew by inc on its first |inc| slots and kept the rest is the accumulated buffer. */
  lemma AccumulatedBy(before: seq<real>, after: seq<real>, inc: seq<real>)
    requires |inc| <= |before| == |after|
    requires forall k :: 0 <= k < |inc| ==> after[k] == before[k] + inc[k]
    requires forall k :: |inc| <= k < |after| ==> after[k] == before[k]
    ensures after == Accumulate(before, inc)
  {
    var acc := Accumulate(before, inc);
    assert forall k :: 0 <= k < |after| ==> after[k] == acc[k];
  }

  /** Adding the zero contribution leaves the buffer as it was. */
  lemma AccumulateZeros(buf: seq<real>, n: nat)
    requires n <= |buf|
    ensures Accumulate(buf, Zeros(n)) == buf
  {
    var r := Accumulate(buf, Zeros(n));
    assert forall k :: 0 <= k < |buf| ==> r[k] == buf[k];
  }

  /** Two contributions to the same buffer superpose in either order. */
  lemma AccumulateCommutes(buf: seq<real>, p: seq<real>, q: seq<real>)
    requires |p| <= |buf| && |q| <= |buf|
    ensures Accumulate(Accumulate(buf, p), q) == Accumulate(Accumulate(buf, q), p)
  {
    var l, r := Accumulate(Accumulate(buf, p), q), Accumulate(Accumulate(buf, q), p);
    forall k | 0 <= k < |buf| ensures l[k] == r[k] {
    }
  }

  /** Two successive contributions of equal length add up to their elementwise sum. */
  lemma AccumulateSuperposes(buf: seq<real>, p: seq<real>, q: seq<real>)
    requires |p| == |q| <= |buf|
    ensures Accumulate(Accumulate(buf, p), q) == Accumulate(buf, Plus(p, q))
  {
    var l, r := Accumulate(Accumulate(buf, p), q), Accumulate(buf, Plus(p, q));
    forall k | 0 <= k < |buf| ensures l[k] == r[k] {
    }
  }
}
