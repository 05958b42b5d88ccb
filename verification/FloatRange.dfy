/**
 Where Python's integers leave the range of its floats. Integers are exact at any size;
 turning one into a float raises OverflowError once it would round to 2 to the 1024.
 */
module FloatRange {

  /** The value of binary digits, the lowest first. */
  function Binary(bits: seq<bool>): int {
    if bits == [] then 0 else (if bits[0] then 1 else 0) + 2 * Binary(bits[1..])
  }

  function TwoTo(n: nat): int {
    if n == 0 then 1 else 2 * TwoTo(n - 1)
  }

  /** `n` binary digits, the lowest `k` of them zero and the others one. */
  function OnesAbove(k: nat, n: nat): (bits: seq<bool>)
    ensures |bits| == n && forall i :: 0 <= i < n ==> bits[i] == (i >= k)
  {
    seq(n, i => i >= k)
  }

  /** The least integer that no longer becomes a float: 2 to the 1024 less 2 to the 970. */
  const FLOAT_LIMIT: int := Binary(OnesAbove(970, 1024))

  /** A number that a float can stand for. */
  predicate InFloatRange(x: real) {
    -(FLOAT_LIMIT as real) < x < FLOAT_LIMIT as real
  }

  /** An int that becomes a float. */
  predicate FitsFloat(v: int) {
    -FLOAT_LIMIT < v < FLOAT_LIMIT
  }

  lemma {:induction false} OnesAboveIs(k: nat, n: nat)
    requires k <= n
    ensures Binary(OnesAbove(k, n)) == TwoTo(n) - TwoTo(k)
  {
    if n > 0 {
      var rest := OnesAbove(if k == 0 then 0 else k - 1, n - 1);
      assert OnesAbove(k, n)[1..] == rest;
      OnesAboveIs(if k == 0 then 0 else k - 1, n - 1);
    }
  }

  lemma LimitIs(high: nat, low: nat)
    requires high == 1024 && low == 970
    ensures FLOAT_LIMIT == TwoTo(high) - TwoTo(low)
  {
    OnesAboveIs(low, high);
  }

  lemma {:induction false} BinaryAbove(bits: seq<bool>, k: nat)
    requires k < |bits| && bits[k]
    ensures Binary(bits) >= TwoTo(k)
  {
    if k > 0 {
      BinaryAbove(bits[1..], k - 1);
    } else {
      BinaryNonNegative(bits[1..]);
    }
  }

  lemma {:induction false} BinaryNonNegative(bits: seq<bool>)
    ensures Binary(bits) >= 0
  {
    if bits != [] {
      BinaryNonNegative(bits[1..]);
    }
  }

  lemma {:induction false} TwoToGrows(m: nat, n: nat)
    requires m <= n
    ensures 0 < TwoTo(m) <= TwoTo(n)
  {
    if m > 0 {
      TwoToGrows(m - 1, n - 1);
    } else if n > 0 {
      TwoToGrows(m, n - 1);
    }
  }

  lemma {:induction false} TwoToSum(m: nat, n: nat)
    ensures TwoTo(m + n) == TwoTo(m) * TwoTo(n)
  {
    if m > 0 {
      TwoToSum(m - 1, n);
      assert TwoTo(m + n) == 2 * TwoTo(m - 1 + n);
    }
  }

  lemma LargeWithBit(bits: seq<bool>, k: nat)
    requires 32 <= k < |bits| && bits[k]
    ensures Binary(bits) >= 0x1_0000_0000
  {
    BinaryAbove(bits, k);
    TwoToGrows(32, k);
    TwoToSum(4, 4);
    TwoToSum(8, 8);
    TwoToSum(16, 16);
  }

  lemma LimitIsLarge()
    ensures FLOAT_LIMIT >= 0x1_0000_0000
  {
    LargeWithBit(OnesAbove(970, 1024), 1000);
  }
}
