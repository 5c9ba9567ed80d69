/** Splitting one payment over the enrollments it pays for. */
module Shares {
  function Sum(xs: seq<int>): int {
    if xs == [] then 0 else Sum(xs[..|xs| - 1]) + xs[|xs| - 1]
  }

  /** `n` parts that add up to `total`, larger ones first, no two more than 1 apart. */
  ghost predicate IsEvenSplit(parts: seq<int>, total: int, n: int) {
    && |parts| == n
    && Sum(parts) == total
    && forall i, j :: 0 <= i < j < |parts| ==> parts[j] <= parts[i] <= parts[j] + 1
  }

  /** The even split by formula. */
  function EvenSplit(total: int, n: int): (parts: seq<int>)
    ensures |parts| == if n <= 0 then 0 else n
  {
    if n <= 0 then []
    else seq(n, i => if i < total % n then total / n + 1 else total / n)
  }

  /** `_split_amounts`, as both copies compute it. */
  method SplitAmounts(total: int, n: int) returns (parts: seq<int>)
    ensures n <= 0 ==> parts == []
    ensures n > 0 ==> IsEvenSplit(parts, total, n)
    ensures parts == EvenSplit(total, n)
  {
    if n <= 0 {
      return [];
    }
    var base := total / n;
    var rem := total - base * n;
    assert rem == total % n;
    parts := seq(n, _ => base);
    var i := 0;
    while i < rem
      invariant 0 <= i <= rem && |parts| == n
      invariant forall k :: 0 <= k < n ==> parts[k] == if k < i then base + 1 else base
    {
      parts := parts[i := parts[i] + 1];
      i := i + 1;
    }
    assert parts == EvenSplit(total, n);
    EvenSplitIsEven(total, n);
  }

  lemma {:induction false} SumOfSteps(xs: seq<int>, base: int, k: nat)
    requires k <= |xs|
    requires forall i :: 0 <= i < |xs| ==> xs[i] == if i < k then base + 1 else base
    ensures Sum(xs) == base * |xs| + k
  {
    if xs != [] {
      var init := xs[..|xs| - 1];
      SumOfSteps(init, base, if k == |xs| then k - 1 else k);
      assert base * |xs| == base * |init| + base;
    }
  }

  lemma EvenSplitIsEven(total: int, n: int)
    requires n > 0
    ensures IsEvenSplit(EvenSplit(total, n), total, n)
  {
    SumOfSteps(EvenSplit(total, n), total / n, total % n);
  }

  /** The first position holding the smallest part. */
  function StepAt(parts: seq<int>, i: nat): (k: nat)
    requires i < |parts|
    requires forall j :: 0 <= j < i ==> parts[j] != parts[|parts| - 1]
    ensures i <= k < |parts| && parts[k] == parts[|parts| - 1]
    ensures forall j :: 0 <= j < k ==> parts[j] != parts[|parts| - 1]
    decreases |parts| - i
  {
    if parts[i] == parts[|parts| - 1] then i else StepAt(parts, i + 1)
  }

  lemma DivisionUnique(total: int, n: int, q: int, r: int)
    requires n > 0 && total == q * n + r && 0 <= r < n
    ensures q == total / n && r == total % n
  {
    var d := total / n - q;
    assert d * n == r - total % n;
    assert d >= 1 ==> d * n >= n;
    assert d <= -1 ==> d * n <= -n;
  }

  /** There is no other even split. */
  lemma EvenSplitUnique(parts: seq<int>, total: int, n: int)
    requires n > 0 && IsEvenSplit(parts, total, n)
    ensures parts == EvenSplit(total, n)
  {
    var base, k := parts[n - 1], StepAt(parts, 0);
    forall i | 0 <= i < n ensures parts[i] == if i < k then base + 1 else base {
      if i < k {
        assert parts[n - 1] <= parts[i] <= parts[n - 1] + 1;
      } else if k < i < n - 1 {
        assert parts[i] <= parts[k] && parts[n - 1] <= parts[i];
      }
    }
    SumOfSteps(parts, base, k);
    DivisionUnique(total, n, base, k);
  }
}
