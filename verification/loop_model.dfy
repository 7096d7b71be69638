/**
 The loops of the in-place operations written as recursive transitions on the
 buffer contents. Each call is one trip through the loop body, so these
 functions follow the pointer loops step by step, with the positions as indices.
 */
module LoopModel {
  import opened Int32
  import opened SeqSpec

  /** Contents after exchanging the elements at `i` and `j`. */
  function Swap(s: seq<int32>, i: nat, j: nat): (r: seq<int32>)
    requires i < |s| && j < |s|
    ensures |r| == |s| && r[i] == s[j] && r[j] == s[i]
    ensures forall k :: 0 <= k < |s| && k != i && k != j ==> r[k] == s[k]
  {
    s[i := s[j]][j := s[i]]
  }

  /**
   The loop of the in-place reversal from the state (`cells`, `left`, `right`),
   where `right` is one past the last unvisited element. Returns the final
   contents and the number of exchanges made: one for every two unvisited
   elements, and only the unvisited range `[left, right)` is written.
   */
  function ReverseLoop(cells: seq<int32>, left: nat, right: nat): (r: (seq<int32>, nat))
    requires left <= right <= |cells|
    ensures |r.0| == |cells|
    ensures forall k :: 0 <= k < |cells| && !(left <= k < right) ==> r.0[k] == cells[k]
    ensures r.1 == (right - left) / 2
    decreases right - left
  {
    if left < right then
      var right' := right - 1;
      if left >= right' then (cells, 0)
      else
        var (final, swaps) := ReverseLoop(Swap(cells, left, right'), left + 1, right');
        (final, swaps + 1)
    else (cells, 0)
  }

  /** Loop-head invariant of the reversal, relative to the contents `orig` before the call. */
  predicate ReverseInvariant(orig: seq<int32>, cells: seq<int32>, left: nat, right: nat) {
    && |cells| == |orig|
    && left <= right
    && left + right == |orig|
    && (forall k :: 0 <= k < left ==> cells[k] == orig[|orig| - 1 - k])
    && (forall k :: right <= k < |orig| ==> cells[k] == orig[|orig| - 1 - k])
    && (forall k :: left <= k < right ==> cells[k] == orig[k])
  }

  /** An exchange at `left` and `right - 1` keeps the invariant with both positions moved inward. */
  lemma ReverseInvariantStep(orig: seq<int32>, cells: seq<int32>, left: nat, right: nat)
    requires ReverseInvariant(orig, cells, left, right) && left + 1 < right
    ensures ReverseInvariant(orig, Swap(cells, left, right - 1), left + 1, right - 1)
  {
  }

  /** Once the positions have met or are adjacent, the invariant says the contents are reversed. */
  lemma ReverseInvariantDone(orig: seq<int32>, cells: seq<int32>, left: nat, right: nat)
    requires ReverseInvariant(orig, cells, left, right) && right <= left + 1
    ensures cells == Reverse(orig)
  {
  }

  /** From any state meeting the invariant, the loop finishes the reversal of `orig`. */
  lemma {:induction false} ReverseLoopFinishes(orig: seq<int32>, cells: seq<int32>, left: nat, right: nat)
    requires ReverseInvariant(orig, cells, left, right)
    ensures ReverseLoop(cells, left, right).0 == Reverse(orig)
    ensures ReverseLoop(cells, left, right).1 == |orig| / 2 - left
    decreases right - left
  {
    if left < right && left < right - 1 {
      var next := Swap(cells, left, right - 1);
      ReverseInvariantStep(orig, cells, left, right);
      ReverseLoopFinishes(orig, next, left + 1, right - 1);
    } else {
      ReverseInvariantDone(orig, cells, left, right);
    }
  }

  /**
   Started with `left` at the first element and `right` one past the last, the
   loop leaves the buffer reversed after exactly |s|/2 exchanges.
   */
  lemma {:induction false} ReverseLoopReverses(s: seq<int32>)
    ensures ReverseLoop(s, 0, |s|).0 == Reverse(s)
    ensures ReverseLoop(s, 0, |s|).1 == |s| / 2
  {
    ReverseLoopFinishes(s, s, 0, |s|);
  }

  /**
   The copy loop from position `i`: element `i` of `src` is stored at
   position `i` of `dst`, then the loop moves on until it reaches `len`.
   Only the range `[i, len)` of the destination is written.
   */
  function CopyLoop(dst: seq<int32>, src: seq<int32>, i: nat, len: nat): (r: seq<int32>)
    requires i <= len <= |dst| && len <= |src|
    ensures |r| == |dst|
    ensures forall k :: 0 <= k < |dst| && !(i <= k < len) ==> r[k] == dst[k]
    decreases len - i
  {
    if i < len then CopyLoop(dst[i := src[i]], src, i + 1, len) else dst
  }

  /** From any state whose prefix is already copied, the loop copies the rest and nothing more. */
  lemma {:induction false} CopyLoopFinishes(dst: seq<int32>, src: seq<int32>, i: nat, len: nat)
    requires i <= len <= |dst| && len <= |src|
    requires dst[..i] == src[..i]
    ensures CopyLoop(dst, src, i, len) == src[..len] + dst[len..]
    decreases len - i
  {
    if i < len {
      var next := dst[i := src[i]];
      assert next[..i + 1] == src[..i + 1];
      CopyLoopFinishes(next, src, i + 1, len);
      assert next[len..] == dst[len..];
    } else {
      assert dst == dst[..len] + dst[len..];
    }
  }

  /**
   Run from the start, the copy loop leaves the first `len` elements of the
   destination equal to those of the source and the rest as they were.
   */
  lemma {:induction false} CopyLoopCopies(dst: seq<int32>, src: seq<int32>, len: nat)
    requires len <= |dst| && len <= |src|
    ensures CopyLoop(dst, src, 0, len)[..len] == src[..len]
    ensures CopyLoop(dst, src, 0, len)[len..] == dst[len..]
  {
    CopyLoopFinishes(dst, src, 0, len);
    var r := CopyLoop(dst, src, 0, len);
    assert r == src[..len] + dst[len..];
  }
}
