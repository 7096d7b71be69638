# Pointer-array operations in Dafny

A model of `pointer_array.c`. This C module is a stateless library of four operations over a caller-owned buffer of C `int`s. Each buffer is given as a pointer and a length:

- **sum** adds the elements in index order. A NULL buffer with a positive length gives 0 ("fail quiet").
- **reverse** reverses the buffer in place with a two-pointer exchange. It returns 0, or -1 for a NULL buffer with a positive length.
- **copy** copies elements forward one at a time. It returns 0, or -1 if either buffer is NULL and the length is positive.
- **max** scans once for the largest element. It returns the value and an `ok` flag. A NULL or empty buffer gives the sentinel `INT_MIN` with flag 0.

Files:

- `int32.dfy` (module `Int32`): the C `int` as the subset type `int32` (-2^31 .. 2^31-1), `INT_MIN`, the status codes 0 / -1 and the flag values 0 / 1.
- `seq_spec.dfy` (module `SeqSpec`): reference definitions on sequences. `Sum` accumulates left to right. `Reverse` is defined element by element. `SeqMax` replaces the candidate only on a strictly greater value, as the scan does. `IsMaxOf` is the order-theoretic maximum. The module also holds lemmas relating these definitions.
- `loop_model.dfy` (module `LoopModel`): the reverse and copy loops as recursive transitions on the buffer contents, one call per loop iteration, with lemmas saying where the loops end.
- `pointer_array.dfy` (module `PointerArray`): the four operations as methods. Each takes `array?<int32>` for the nullable pointer and `len: nat` for the length. Each pointer loop becomes an index loop: `p`, `s` and `left` are indices, and `right` / `end` are one-past indices. The status codes and the `ok` flag are return values. Module `Scenarios` checks a few concrete inputs against the contracts at verification time, for instance that the sum of [1,2,3,4,5] is 15.

The caller's obligation that a non-NULL pointer addresses at least `len` valid elements becomes the precondition `a != null ==> len <= a.Length`.

Sum has an extra precondition: every running total must fit in an `int`. Signed overflow is undefined behaviour in C (ISO C11 section 6.5, paragraph 5), and the loop at `pointer_array.c:35-38` adds into an `int`. An overflow at ANY step is therefore undefined, so it is not enough for the final sum to fit.

## Model

| member | source | states |
|---|---|---|
| PointerArray.ArraySum | pointer_array.c:23-41 | A NULL buffer gives 0 for any length. A length of 0 gives 0. Otherwise the result is the sum of the first `len` elements, accumulated in index order. This requires every running total to fit in an `int`. The method writes nothing. |
| PointerArray.ArrayReverse | pointer_array.c:52-75 | A NULL buffer with a positive length returns -1 and touches nothing. Otherwise it returns 0, and `a[i]` is the old `a[len-1-i]` for every `i < len`; a length of 0 or 1 succeeds without changing anything. Elements from `len` on are unchanged. Exactly ⌊len/2⌋ exchanges are made (ghost count). The final contents and count are those `LoopModel.ReverseLoop` reaches from `(0, len)`. |
| PointerArray.ReverseInPlace | pointer_array.c:59-72 | The two-pointer loop on a non-NULL buffer reverses `a[..len]` in ⌊len/2⌋ exchanges and leaves `a[len..]` unchanged. Its invariants are those of `LoopModel.ReverseInvariant`: `left + right == len`, `[0,left)` and `[right,len)` hold each other's old values, and `[left,right)` is untouched. |
| PointerArray.ArrayCopy | pointer_array.c:89-107 | If either buffer is NULL and the length is positive, it returns -1 and `dst` is unchanged. A length of 0 returns 0 and writes nothing, even when both buffers are NULL. Otherwise it returns 0 and `dst[..len]` equals the old `src[..len]`. `dst` from `len` on is unchanged. `src` is unchanged when it is a different buffer from `dst`. The final `dst` is the one `LoopModel.CopyLoop` computes from index 0. |
| PointerArray.ArrayMax | pointer_array.c:119-145 | A NULL buffer or a length of 0 gives `INT_MIN` with flag 0. Otherwise the flag is 1 and the value is an element of the first `len` elements that none of them exceeds. That value equals the reference scan `SeqMax`. The method writes nothing. |
| SeqSpec.SeqMax | pointer_array.c:130-139 | The running maximum of the scan is an element of the sequence, and every element is at most it. |
| SeqSpec.MaxUnique | pointer_array.c:135-137 | Any two maxima of a sequence are equal, so ties cannot change the value the scan reports. |
| SeqSpec.SumReverse | pointer_array.c:35-38 | Summing right to left gives the same exact total as summing left to right. This is a fact about the mathematical `Sum`, not about `ArraySum` on the reversed buffer: at `int` width the order decides which running totals occur, so `SumFits` of a buffer does not imply `SumFits` of its reversal. |
| SeqSpec.SumFitsDependsOnOrder | pointer_array.c:35-38 | Every running total of [-1, 1, INT_MAX] fits in an `int` when summed left to right. Its reversal reaches INT_MAX + 1 at the second step, so a reordered sum loop would not be defined on it. |
| SeqSpec.ReverseInvolution | pointer_array.c:59-72 | Reversing twice gives back the original contents. |
| LoopModel.ReverseLoop | pointer_array.c:63-72 | One call per loop trip: step `right` back, stop if the positions met or crossed, otherwise exchange and advance `left`. Only `[left, right)` is written, the length is kept, and the number of exchanges is `(right - left) / 2`. |
| LoopModel.CopyLoop | pointer_array.c:100-104 | One call per loop trip: store `src[i]` at `dst[i]`, then advance. Only `[i, len)` of the destination is written, and its length is kept. |
| LoopModel.ReverseLoopFinishes | pointer_array.c:63-72 | From any loop-head state meeting the invariant, the loop ends with the reversed contents after `len/2 - left` exchanges. The invariant: `left + right == len`, `[0,left)` and `[right,len)` hold each other's old values, and `[left,right)` is untouched. |
| LoopModel.ReverseLoopReverses | pointer_array.c:59-74 | Started at `left = 0`, `right = len`, the loop reverses the buffer with exactly ⌊len/2⌋ exchanges. |
| LoopModel.CopyLoopFinishes | pointer_array.c:100-104 | From any state whose first `i` elements are already copied, the loop ends with `src[..len] + dst[len..]`. |
| LoopModel.CopyLoopCopies | pointer_array.c:95-106 | Run from the start, the loop makes the first `len` destination elements equal to the source's and leaves the rest as they were. |

## Left out

- The `ok == NULL` case of max (`pointer_array.c:121-123`, `141-143`): it only skips a write to the caller's variable. The flag is always returned here.
- Copy between overlapping regions at different offsets (`pointer_array.c:87`): the source does not support it. In this model every buffer starts at index 0, so the only expressible overlap is `dst == src`. That case is a no-op, and `ArrayCopy`'s contract covers it.
- Signed-overflow wrap-around in sum (`pointer_array.c:21`): it is undefined behaviour in C, so the model excludes it by precondition instead of giving it a meaning.
- A NULL pointer with length 0 (`pointer_array.c:31`/`35`, `60`/`63`, `97`/`100`): C forms `arr + len` and compares `p < end` on a null pointer, which ISO C11 section 6.5.6 paragraph 8 and section 6.5.8 paragraph 5 leave undefined. The parameter comments (lines 15, 46, 80-81) forbid NULL outright, so they give this case no result. The model makes the call succeed without touching memory. This follows from the entry guards (lines 25, 54, 91): they reject NULL only when the length is positive. It also follows from the documented failure conditions, "arr is NULL and len > 0" (lines 19 and 50).
- Dangling or undersized non-NULL pointers: C cannot detect them. The precondition `len <= a.Length` replaces them.
- The claims about vectorisation and the relative cost of pointers and indices have no behavioural content.
- `size_t` is an unbounded `nat` here, since lengths never wrap in these loops.
