/**
 * Striding over a sequence from index 0: the count `ceil(n / step)` shared by
 * `range(0, n, step)` and `s[0::step]`, and the slice `s[0::step]` itself.
 */
module Strides {
  import opened Common

  /** `ceil(n / d)`: the number of multiples of `d` below `n`. */
  function CeilDiv(n: nat, d: nat): (q: nat)
    requires d > 0
    ensures (q - 1) * d < n <= q * d
  {
    var q := (n + d - 1) / d;
    assert q * d + (n + d - 1) % d == n + d - 1;
    q
  }

  lemma MulMono(a: int, b: int, c: int)
    requires a <= b && c >= 0
    ensures a * c <= b * c
  {
  }

  /** The bounds of `CeilDiv` pin it down: no other count has them. */
  lemma CeilDivUnique(n: nat, d: nat, k: nat)
    requires d > 0 && (k - 1) * d < n <= k * d
    ensures k == CeilDiv(n, d)
  {
    var q := CeilDiv(n, d);
    if k < q {
      MulMono(k, q - 1, d);
    } else if k > q {
      MulMono(q, k - 1, d);
    }
  }

  /** Python `s[0::step]`: every `step`-th element from the first; a negative step walks back from index 0, so it keeps only `s[0]`. */
  function Strided<T>(s: seq<T>, step: int): seq<T>
    requires step != 0
    decreases |s|
  {
    if s == [] then []
    else if step < 0 then [s[0]]
    else [s[0]] + Strided(s[Min(step, |s|)..], step)
  }

  /** For a positive step, `s[0::step]` has `ceil(|s| / step)` elements. */
  lemma {:induction false} StridedLength<T>(s: seq<T>, step: int)
    requires step > 0
    ensures |Strided(s, step)| == CeilDiv(|s|, step)
    decreases |s|
  {
    if s == [] {
      CeilDivUnique(0, step, 0);
    } else if step >= |s| {
      assert s[Min(step, |s|)..] == [];
      CeilDivUnique(|s|, step, 1);
    } else {
      var rest := s[step..];
      StridedLength(rest, step);
      var q := CeilDiv(|rest|, step);
      assert (q + 1) * step == q * step + step;
      assert (q - 1) * step + step == q * step;
      CeilDivUnique(|s|, step, q + 1);
    }
  }

  /** For a positive step, element `j` of `s[0::step]` is `s[j * step]`. */
  lemma {:induction false} StridedAt<T>(s: seq<T>, step: int, j: nat)
    requires step > 0 && j < |Strided(s, step)|
    ensures j * step < |s| && Strided(s, step)[j] == s[j * step]
    decreases j
  {
    if j == 0 {
      assert Strided(s, step)[0] == s[0];
    } else {
      assert step < |s|;
      var rest := s[step..];
      assert Strided(s, step) == [s[0]] + Strided(rest, step);
      StridedAt(rest, step, j - 1);
      var i := (j - 1) * step;
      assert j * step == i + step by {
        assert (j - 1) * step + step == j * step;
      }
    }
  }

  /** With the default step of 1, `s[0::1]` keeps every element in order. */
  lemma StridedByOne<T>(s: seq<T>)
    ensures Strided(s, 1) == s
  {
    StridedLength(s, 1);
    forall j | 0 <= j < |s|
      ensures Strided(s, 1)[j] == s[j]
    {
      StridedAt(s, 1, j);
    }
  }
}
