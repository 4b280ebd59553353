/**
 * Index maps of the flattened row-major tensors the kernels read and write,
 * and the sums the constitutive kernels take over them.
 *
 * An n-by-n tensor t (a displacement gradient, an initial stress or strain,
 * a stress or a g0 block) stores entry (r, c) at slot r*n + c. The
 * fourth-order g3 block stores (f, g, df, dg) at ((f*n + g)*n + df)*n + dg.
 */
module Tensor {
  import opened Buffers

  /** Slot of entry (r, c) of an n-by-n tensor. */
  function Slot2(n: nat, r: nat, c: nat): (k: nat)
    requires r < n && c < n
    ensures k < n * n
  {
    Extend(n, n, r, c);
    r * n + c
  }

  /**
   * Slot of entry (f, g, df, dg) of a g3 block: test component f, trial
   * component g, test derivative direction df, trial derivative direction dg.
   * The block is an (n*n)-by-(n*n) matrix whose row is the component pair
   * (f, g) and whose column is the direction pair (df, dg), so the slot is
   * ((f*n + g)*n + df)*n + dg.
   */
  function Slot4(n: nat, f: nat, g: nat, df: nat, dg: nat): (k: nat)
    requires f < n && g < n && df < n && dg < n
    ensures k < (n * n) * (n * n)
  {
    Slot2(n * n, Slot2(n, f, g), Slot2(n, df, dg))
  }

  /** Row of slot k of an n-by-n tensor: how many whole rows of n slots lie before k. */
  function Row(n: nat, k: nat): (r: nat)
    requires k < n * n
    ensures r < n
  {
    RowsBefore(n, n, k)
  }

  /** Column of slot k of an n-by-n tensor: k less its whole rows. */
  function Col(n: nat, k: nat): (c: nat)
    requires k < n * n
    ensures c < n
  {
    Remainder(n, k)
  }

  /** Whole rows of n slots before slot k of an m-row block, counted one row at a time. */
  function RowsBefore(n: nat, m: nat, k: nat): (r: nat)
    requires k < m * n
    ensures r < m
    decreases m
  {
    if k < n then 0
    else
      DropRow(n, m);
      1 + RowsBefore(n, m - 1, k - n)
  }

  /** Slot k with its whole rows of n slots removed. */
  function Remainder(n: nat, k: nat): (c: nat)
    requires 0 < n || k < n
    ensures c < n
    decreases k
  {
    if k < n then k else Remainder(n, k - n)
  }

  /** An m-row block less one row is an (m-1)-row block. */
  lemma DropRow(n: nat, m: nat)
    requires 0 < m
    ensures (m - 1) * n == m * n - n
  {
  }

  lemma MulMono(a: int, b: int, n: int)
    requires a <= b && 0 <= n
    ensures a * n <= b * n
  {
    assert b * n - a * n == (b - a) * n;
  }

  /** Appending one more index of range n to an index below m gives an index below m*n. */
  lemma Extend(n: nat, m: nat, a: nat, d: nat)
    requires a < m && d < n
    ensures a * n + d < m * n
  {
    MulMono(a, m - 1, n);
  }

  /** Counting rows and taking the remainder recover (r, c) from the slot r*n + c. */
  lemma {:induction false} RowsOfSlot(n: nat, m: nat, r: nat, c: nat)
    requires r < m && c < n
    ensures r * n + c < m * n
    ensures RowsBefore(n, m, r * n + c) == r && Remainder(n, r * n + c) == c
    decreases r
  {
    Extend(n, m, r, c);
    if r > 0 {
      DropRow(n, r);
      RowsOfSlot(n, m - 1, r - 1, c);
    }
  }

  /** Row and Col invert Slot2. */
  lemma RowColOfSlot(n: nat, r: nat, c: nat)
    requires r < n && c < n
    ensures Row(n, Slot2(n, r, c)) == r && Col(n, Slot2(n, r, c)) == c
  {
    RowsOfSlot(n, n, r, c);
  }

  /** Every slot of an m-row block is r*n + c for its row count r and remainder c. */
  lemma {:induction false} SlotOfRows(n: nat, m: nat, k: nat)
    requires k < m * n
    ensures k == RowsBefore(n, m, k) * n + Remainder(n, k)
    decreases m
  {
    if n <= k {
      DropRow(n, m);
      SlotOfRows(n, m - 1, k - n);
      DropRow(n, RowsBefore(n, m, k));
    }
  }

  /** Slot2 inverts Row and Col. */
  lemma SlotOfRowCol(n: nat, k: nat)
    requires k < n * n
    ensures Slot2(n, Row(n, k), Col(n, k)) == k
  {
    SlotOfRows(n, n, k);
  }

  /** Distinct entries of an n-by-n tensor have distinct slots. */
  lemma Slot2Injective(n: nat, r: nat, c: nat)
    requires r < n && c < n
    ensures forall r', c' :: 0 <= r' < n && 0 <= c' < n && Slot2(n, r', c') == Slot2(n, r, c) ==> r' == r && c' == c
  {
    forall r', c' | 0 <= r' < n && 0 <= c' < n && Slot2(n, r', c') == Slot2(n, r, c)
      ensures r' == r && c' == c
    {
      RowColOfSlot(n, r, c);
      RowColOfSlot(n, r', c');
    }
  }

  /** Two n-by-n tensors that agree at every entry (r, c) are equal. */
  lemma SameEntries(n: nat, t: seq<real>, u: seq<real>)
    requires |t| == n * n && |u| == n * n
    requires forall r, c :: 0 <= r < n && 0 <= c < n ==> t[Slot2(n, r, c)] == u[Slot2(n, r, c)]
    ensures t == u
  {
    forall k | 0 <= k < n * n
      ensures t[k] == u[k]
    {
      SlotOfRowCol(n, k);
      assert t[Slot2(n, Row(n, k), Col(n, k))] == u[Slot2(n, Row(n, k), Col(n, k))];
    }
  }

  /** Sum of the first m entries of t; on a row-major gradient with m == n this is the
      sum of its first row. */
  function PrefixSum(t: seq<real>, m: nat): real
    requires m <= |t|
  {
    if m == 0 then 0.0 else PrefixSum(t, m - 1) + t[m - 1]
  }

  /** The diagonal of an n-by-n tensor, entry i being t[i, i]. */
  function Diagonal(t: seq<real>, n: nat): (d: seq<real>)
    requires |t| == n * n
    ensures |d| == n
  {
    seq(n, i requires 0 <= i < n => t[Slot2(n, i, i)])
  }

  /** Trace of an n-by-n tensor: the sum of its diagonal. */
  function Trace(t: seq<real>, n: nat): real
    requires |t| == n * n
  {
    PrefixSum(Diagonal(t, n), n)
  }

  /** A prefix sum of the zero tensor vanishes. */
  lemma {:induction false} PrefixSumOfZeros(len: nat, m: nat)
    requires m <= len
    ensures PrefixSum(Zeros(len), m) == 0.0
  {
    if m > 0 {
      PrefixSumOfZeros(len, m - 1);
    }
  }

  /** The zero tensor has zero trace. */
  lemma TraceOfZeros(n: nat)
    ensures Trace(Zeros(n * n), n) == 0.0
  {
    assert Diagonal(Zeros(n * n), n) == Zeros(n);
    PrefixSumOfZeros(n, n);
  }

  /** A prefix sum of a scaled sequence is the scaled prefix sum. */
  lemma {:induction false} PrefixSumScale(c: real, t: seq<real>, m: nat)
    requires m <= |t|
    ensures PrefixSum(Scale(c, t), m) == c * PrefixSum(t, m)
  {
    if m > 0 {
      PrefixSumScale(c, t, m - 1);
      Distributes(c, PrefixSum(t, m - 1), t[m - 1]);
    }
  }

  lemma Distributes(c: real, x: real, y: real)
    ensures c * x + c * y == c * (x + y)
  {
  }

  /** PrefixSum is linear: the sum of a perturbed tensor is the sum plus the perturbation's sum. */
  lemma {:induction false} PrefixSumLinear(t: seq<real>, d: seq<real>, m: nat)
    requires |t| == |d| && m <= |t|
    ensures PrefixSum(Plus(t, d), m) == PrefixSum(t, m) + PrefixSum(d, m)
  {
    if m > 0 {
      PrefixSumLinear(t, d, m - 1);
    }
  }

  /** A prefix sum only looks at the entries it sums. */
  lemma {:induction false} PrefixSumOfPrefix(t: seq<real>, len: nat, m: nat)
    requires m <= len <= |t|
    ensures PrefixSum(t[..len], m) == PrefixSum(t, m)
  {
    if m > 0 {
      PrefixSumOfPrefix(t, len, m - 1);
    }
  }

  /** The n-by-n block holding v on its diagonal slots and zero elsewhere. */
  function DiagonalTerm(n: nat, v: real): (t: seq<real>)
    ensures |t| == n * n
  {
    seq(n * n, k requires 0 <= k < n * n => if Row(n, k) == Col(n, k) then v else 0.0)
  }

  /** Entry (r, c) of DiagonalTerm(n, v) is v when r == c and zero otherwise. */
  lemma DiagonalTermAt(n: nat, v: real, r: nat, c: nat)
    requires r < n && c < n
    ensures DiagonalTerm(n, v)[Slot2(n, r, c)] == if r == c then v else 0.0
  {
    RowColOfSlot(n, r, c);
  }

  /** Sum over c < m of M[r, c] * v[c]. */
  function RowDot(n: nat, M: seq<real>, v: seq<real>, r: nat, m: nat): real
    requires |M| == n * n && |v| == n && r < n && m <= n
  {
    if m == 0 then 0.0 else RowDot(n, M, v, r, m - 1) + M[Slot2(n, r, m - 1)] * v[m - 1]
  }

  /** The n-by-n block M applied to the vector v. */
  function MatVec(n: nat, M: seq<real>, v: seq<real>): (w: seq<real>)
    requires |M| == n * n && |v| == n
    ensures |w| == n
  {
    seq(n, r requires 0 <= r < n => RowDot(n, M, v, r, n))
  }

  /** Every partial product of row r with v, when the row holds d at column r and zero elsewhere, picks out d * v[r]. */
  lemma {:induction false} DiagonalRowDot(n: nat, M: seq<real>, d: real, v: seq<real>, r: nat, m: nat)
    requires |M| == n * n && |v| == n && r < n && m <= n
    requires forall c :: 0 <= c < n ==> M[Slot2(n, r, c)] == if r == c then d else 0.0
    ensures RowDot(n, M, v, r, m) == if r < m then d * v[r] else 0.0
  {
    if m > 0 {
      DiagonalRowDot(n, M, d, v, r, m - 1);
      if r == m - 1 {
        assert RowDot(n, M, v, r, m) == 0.0 + d * v[r];
      } else {
        assert RowDot(n, M, v, r, m) == RowDot(n, M, v, r, m - 1) + 0.0 * v[m - 1];
      }
    }
  }

  /** A diagonal block with value d acts on a vector as multiplication by d. */
  lemma DiagonalTermScales(n: nat, d: real, v: seq<real>)
    requires |v| == n
    ensures MatVec(n, DiagonalTerm(n, d), v) == Scale(d, v)
  {
    var M := DiagonalTerm(n, d);
    forall r | 0 <= r < n
      ensures MatVec(n, M, v)[r] == Scale(d, v)[r]
    {
      forall c | 0 <= c < n
        ensures M[Slot2(n, r, c)] == if r == c then d else 0.0
      {
        DiagonalTermAt(n, d, r, c);
      }
      DiagonalRowDot(n, M, d, v, r, n);
    }
  }

  /**
   * Adds v to each diagonal slot i*n + i of the n-by-n block at the front of
   * out; the loop shared by the g0 kernels whose block is a multiple of the
   * identity.
   */
  method AddToDiagonal(n: nat, v: real, out: array<real>)
    requires n * n <= out.Length
    modifies out
    ensures out[..] == Accumulate(old(out[..]), DiagonalTerm(n, v))
  {
    for i := 0 to n
      invariant forall k :: 0 <= k < out.Length ==>
        out[k] == old(out[k]) + (if k < n * n && Row(n, k) == Col(n, k) && Row(n, k) < i then v else 0.0)
    {
      RowColOfSlot(n, i, i);
      forall k | 0 <= k < n * n && Row(n, k) == i && Col(n, k) == i
        ensures k == Slot2(n, i, i)
      {
        SlotOfRowCol(n, k);
      }
      out[Slot2(n, i, i)] := out[Slot2(n, i, i)] + v;
    }
    assert forall k :: 0 <= k < out.Length ==> out[..][k] == Accumulate(old(out[..]), DiagonalTerm(n, v))[k];
  }
}
