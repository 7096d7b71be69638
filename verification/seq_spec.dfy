/**
 Reference definitions, on mathematical sequences, of what the four array
 operations compute, and the relations between them.
 */
module SeqSpec {
  import opened Int32

  /** Sum of `s`, accumulated from the first element to the last. */
  function Sum(s: seq<int>): (r: int)
    decreases |s|
  {
    if |s| == 0 then 0 else Sum(s[..|s| - 1]) + s[|s| - 1]
  }

  /** Every running total of a left-to-right summation of `s` is a C `int`. */
  predicate SumFits(s: seq<int>) {
    forall k :: 0 <= k <= |s| ==> InRange(Sum(s[..k]))
  }

  /** `s` in the opposite order. */
  function Reverse<T>(s: seq<T>): (r: seq<T>)
    ensures |r| == |s|
    ensures forall i :: 0 <= i < |s| ==> r[i] == s[|s| - 1 - i]
  {
    seq(|s|, i requires 0 <= i < |s| => s[|s| - 1 - i])
  }

  /** `m` is an element of `s` and no element of `s` exceeds it. */
  predicate IsMaxOf(m: int, s: seq<int>) {
    (exists i :: 0 <= i < |s| && s[i] == m) &&
    (forall j :: 0 <= j < |s| ==> s[j] <= m)
  }

  /**
   Maximum of a non-empty `s` as a left-to-right scan computes it: the
   candidate starts at the first element and is replaced only by a strictly
   greater one.
   */
  function SeqMax(s: seq<int>): (m: int)
    requires |s| > 0
    ensures IsMaxOf(m, s)
    decreases |s|
  {
    if |s| == 1 then s[0]
    else
      var m := SeqMax(s[..|s| - 1]);
      if s[|s| - 1] > m then s[|s| - 1] else m
  }

  /** A sequence has at most one maximum. */
  lemma MaxUnique(m: int, m': int, s: seq<int>)
    requires IsMaxOf(m, s) && IsMaxOf(m', s)
    ensures m == m'
  {
  }

  lemma {:induction false} SumConcat(a: seq<int>, b: seq<int>)
    ensures Sum(a + b) == Sum(a) + Sum(b)
    decreases |b|
  {
    if |b| == 0 {
      assert a + b == a;
    } else {
      var b' := b[..|b| - 1];
      assert (a + b)[..|a + b| - 1] == a + b';
      SumConcat(a, b');
    }
  }

  /** Summing in reverse order gives the same exact total. */
  lemma {:induction false} SumReverse(s: seq<int>)
    ensures Sum(Reverse(s)) == Sum(s)
    decreases |s|
  {
    if |s| > 0 {
      var t := s[1..];
      assert Reverse(s) == Reverse(t) + [s[0]];
      assert s == [s[0]] + t;
      SumReverse(t);
      SumConcat(Reverse(t), [s[0]]);
      SumConcat([s[0]], t);
      assert Sum([s[0]]) == s[0] by {
        assert [s[0]][..0] == [];
      }
    }
  }

  /**
   The order of summation does decide whether every running total fits in an
   `int`: [-1, 1, INT_MAX] fits left to right, but its reversal does not.
   */
  lemma SumFitsDependsOnOrder()
    ensures SumFits([-1, 1, INT_MAX])
    ensures !SumFits(Reverse([-1, 1, INT_MAX]))
  {
    var s := [-1, 1, INT_MAX];
    assert s[..0] == [] && s[..1] == [-1] && s[..2] == [-1, 1] && s[..3] == s;
    assert [-1, 1][..1] == [-1] && s[..2] == [-1, 1];
    assert Sum([-1]) == -1 && Sum([-1, 1]) == 0 && Sum(s) == INT_MAX;
    var r := Reverse(s);
    assert r == [INT_MAX, 1, -1];
    assert r[..2] == [INT_MAX, 1] && [INT_MAX, 1][..1] == [INT_MAX];
    assert Sum(r[..2]) == INT_MAX + 1;
  }

  /** Reversal is an involution. */
  lemma ReverseInvolution<T>(s: seq<T>)
    ensures Reverse(Reverse(s)) == s
  {
  }
}
