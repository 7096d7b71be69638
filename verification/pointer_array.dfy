/**
 The four array operations of `pointer_array.c`. A C pointer with its length
 becomes a nullable array `a` with a length `len`; the pointer walking the
 buffer becomes an index. A non-NULL pointer must address at least `len`
 elements, which is the caller's obligation in C and a precondition here.
 */
module PointerArray {
  import opened Int32
  import opened SeqSpec
  import opened LoopModel

  /**
   Sum of the first `len` elements. A NULL buffer with a positive length gives
   0; so does any buffer of length 0. Signed overflow is undefined in C, so
   every running total must fit in an `int`.
   */
  method ArraySum(a: array?<int32>, len: nat) returns (sum: int32)
    requires a != null ==> len <= a.Length
    requires a != null ==> SumFits(a[..len])
    ensures a == null ==> sum == 0
    ensures len == 0 ==> sum == 0
    ensures a != null ==> sum == Sum(a[..len])
  {
    if a == null && len > 0 {
      return 0;
    }
    var i := 0;
    sum := 0;
    while i < len
      invariant i <= len
      invariant a == null ==> sum == 0
      invariant a != null ==> sum == Sum(a[..i])
    {
      assert a[..i + 1][..i] == a[..i];
      assert a[..len][..i + 1] == a[..i + 1];
      sum := sum + a[i];
      i := i + 1;
    }
    if a != null {
      assert a[..len] == a[..i];
    }
  }

  /**
   In-place reversal of the first `len` elements with two positions moving
   inward; `right` is one past the last unvisited element and is stepped back
   before each exchange. A NULL buffer with a positive length is rejected
   before anything is touched. `swaps` counts the exchanges. The loop keeps
   the invariant `LoopModel.ReverseInvariant` states, pointwise on the array,
   and ends in the state the transition model `ReverseLoop` reaches from (0, len).
   */
  method ArrayReverse(a: array?<int32>, len: nat) returns (status: int32, ghost swaps: nat)
    requires a != null ==> len <= a.Length
    modifies a
    ensures a == null && len > 0 ==> status == STATUS_INVALID
    ensures a != null || len == 0 ==> status == STATUS_OK
    ensures a != null ==> a[..len] == Reverse(old(a[..len]))
    ensures a != null ==> a[len..] == old(a[len..])
    ensures a != null ==> swaps == len / 2
    ensures a != null ==> (a[..len], swaps) == ReverseLoop(old(a[..len]), 0, len)
  {
    swaps := 0;
    if a == null && len > 0 {
      return STATUS_INVALID, swaps;
    }
    if a == null {
      // NULL with length 0: the C loop starts with left == right and never runs.
      return STATUS_OK, swaps;
    }
    swaps := ReverseInPlace(a, len);
    ReverseLoopReverses(old(a[..len]));
    return STATUS_OK, swaps;
  }

  /**
   The two-pointer loop of the reversal on a non-NULL buffer. The invariant is
   `LoopModel.ReverseInvariant` stated pointwise on the array.
   */
  method ReverseInPlace(a: array<int32>, len: nat) returns (ghost swaps: nat)
    requires len <= a.Length
    modifies a
    ensures a[..len] == Reverse(old(a[..len]))
    ensures a[len..] == old(a[len..])
    ensures swaps == len / 2
  {
    var left := 0;
    var right := len;
    swaps := 0;
    while left < right
      invariant left <= right && left + right == len
      invariant swaps == left
      invariant forall k :: 0 <= k < left ==> a[k] == old(a[len - 1 - k])
      invariant forall k :: right <= k < len ==> a[k] == old(a[len - 1 - k])
      invariant forall k :: left <= k < right ==> a[k] == old(a[k])
      invariant forall k :: len <= k < a.Length ==> a[k] == old(a[k])
    {
      right := right - 1;
      if left >= right {
        break;
      }
      a[left], a[right] := a[right], a[left];
      left := left + 1;
      swaps := swaps + 1;
    }
  }

  /**
   Forward element-by-element copy of `len` elements from `src` to `dst`.
   Either buffer NULL with a positive length is rejected before anything is
   written; a length of 0 succeeds even when both are NULL. Both buffers start
   at index 0, so the only overlap expressible here is `dst == src`, where
   every store writes back the value it read.
   */
  method ArrayCopy(dst: array?<int32>, src: array?<int32>, len: nat) returns (status: int32)
    requires dst != null ==> len <= dst.Length
    requires src != null ==> len <= src.Length
    modifies dst
    ensures (dst == null || src == null) && len > 0 ==> status == STATUS_INVALID
    ensures (dst != null && src != null) || len == 0 ==> status == STATUS_OK
    ensures dst != null && src != null ==> dst[..len] == old(src[..len])
    ensures dst != null ==> dst[len..] == old(dst[len..])
    ensures dst != null && (src == null || len == 0) ==> dst[..] == old(dst[..])
    ensures src != null && src != dst ==> src[..] == old(src[..])
    ensures dst != null && src != null ==> dst[..] == CopyLoop(old(dst[..]), old(src[..]), 0, len)
  {
    if (dst == null || src == null) && len > 0 {
      return STATUS_INVALID;
    }
    var i := 0;
    while i < len
      invariant i <= len
      invariant dst != null && src != null ==>
        CopyLoop(dst[..], old(src[..]), i, len) == CopyLoop(old(dst[..]), old(src[..]), 0, len)
      invariant dst != null && src != null ==> dst[..i] == old(src[..i])
      invariant dst != null ==> dst[i..] == old(dst[i..])
      invariant src != null && src != dst ==> src[..] == old(src[..])
    {
      ghost var before := dst[..];
      dst[i] := src[i];
      assert dst[..] == before[i := old(src[..])[i]];
      i := i + 1;
    }
    return STATUS_OK;
  }

  /**
   Largest of the first `len` elements, with the success flag. A NULL buffer
   or a length of 0 gives the sentinel `INT_MIN` and flag 0; otherwise the
   flag is 1 and the value is the maximum.
   */
  method ArrayMax(a: array?<int32>, len: nat) returns (maxv: int32, ok: int32)
    requires a != null ==> len <= a.Length
    ensures a == null || len == 0 ==> maxv == INT_MIN && ok == FLAG_FAIL
    ensures a != null && len > 0 ==> ok == FLAG_OK && IsMaxOf(maxv, a[..len])
    ensures a != null && len > 0 ==> maxv == SeqMax(a[..len])
  {
    ok := FLAG_FAIL;
    if a == null || len == 0 {
      return INT_MIN, ok;
    }
    maxv := a[0];
    var i := 1;
    assert a[..1] == [a[0]];
    while i < len
      invariant 1 <= i <= len
      invariant maxv == SeqMax(a[..i])
    {
      assert a[..i + 1][..i] == a[..i];
      if a[i] > maxv {
        maxv := a[i];
      }
      i := i + 1;
    }
    assert a[..len] == a[..i];
    ok := FLAG_OK;
  }
}

/** A few concrete inputs, checked against the contracts above at verification time. */
module Scenarios {
  import opened Int32
  import opened SeqSpec
  import opened PointerArray

  method SumExample() {
    var a := new int32[5] [1, 2, 3, 4, 5];
    assert a[..5] == [1, 2, 3, 4, 5];
    assert [1, 2][..1] == [1] && [1, 2, 3][..2] == [1, 2] && [1, 2, 3, 4][..3] == [1, 2, 3];
    assert [1, 2, 3, 4, 5][..4] == [1, 2, 3, 4];
    assert Sum([1]) == 1 && Sum([1, 2]) == 3 && Sum([1, 2, 3]) == 6;
    assert Sum([1, 2, 3, 4]) == 10 && Sum([1, 2, 3, 4, 5]) == 15;
    assert a[..5][..1] == [1] && a[..5][..2] == [1, 2] && a[..5][..3] == [1, 2, 3];
    assert a[..5][..4] == [1, 2, 3, 4] && a[..5][..5] == a[..5] && a[..5][..0] == [];
    var s := ArraySum(a, 5);
    assert s == 15;
  }

  method ReverseExample() {
    var a := new int32[5] [1, 2, 3, 4, 5];
    assert a[..5] == [1, 2, 3, 4, 5];
    var st, _ := ArrayReverse(a, 5);
    assert a[..] == a[..5];
    assert st == STATUS_OK && a[..] == [5, 4, 3, 2, 1];
  }

  method CopyExample() {
    var src := new int32[3] [7, 8, 9];
    var dst := new int32[3];
    assert src[..3] == [7, 8, 9];
    var st := ArrayCopy(dst, src, 3);
    assert dst[..] == dst[..3];
    assert st == STATUS_OK && dst[..] == [7, 8, 9];
  }

  method MaxExample() {
    var b := new int32[8] [3, 1, 4, 1, 5, 9, 2, 6];
    var m, ok := ArrayMax(b, 8);
    assert b[..8] == [3, 1, 4, 1, 5, 9, 2, 6];
    assert IsMaxOf(9, b[..8]) by {
      assert b[..8][5] == 9;
    }
    MaxUnique(m, 9, b[..8]);
    assert ok == FLAG_OK && m == 9;
    m, ok := ArrayMax(b, 0);
    assert ok == FLAG_FAIL && m == INT_MIN;
  }

  method GuardExamples() {
    var s := ArraySum(null, 3);
    assert s == 0;
    var st, _ := ArrayReverse(null, 3);
    assert st == STATUS_INVALID;
    st := ArrayCopy(null, null, 0);
    assert st == STATUS_OK;
    var m, ok := ArrayMax(null, 3);
    assert ok == FLAG_FAIL && m == INT_MIN;
  }
}
