/** The selection and averaging step of the confidence estimator: given the
    maximum probability of every generated token, in generation order, the
    confidence is the mean of the lowest quarter of them (at least one). */
module Confidence {

  predicate Sorted(s: seq<real>) {
    forall i, j :: 0 <= i < j < |s| ==> s[i] <= s[j]
  }

  function Sum(s: seq<real>): real {
    if s == [] then 0.0 else Sum(s[..|s| - 1]) + s[|s| - 1]
  }

  /** The arithmetic mean. */
  function Mean(s: seq<real>): (m: real)
    requires s != []
    ensures m * |s| as real == Sum(s)
  {
    Sum(s) / |s| as real
  }

  /** Insertion of one value into an ascending sequence. */
  function Insert(x: real, s: seq<real>): (r: seq<real>)
    requires Sorted(s)
    ensures Sorted(r) && multiset(r) == multiset(s) + multiset{x}
  {
    if s == [] then [x]
    else if x <= s[0] then
      assert Sorted([x] + s) by {
        SortedConcat([x], s);
      }
      [x] + s
    else
      var t := Insert(x, s[1..]);
      InsertBehindHead(x, s, t);
      [s[0]] + t
  }

  /** The head of `s`, below `x`, stays in front of the insertion into the
      rest. */
  lemma InsertBehindHead(x: real, s: seq<real>, t: seq<real>)
    requires Sorted(s) && s != [] && s[0] < x
    requires Sorted(t) && multiset(t) == multiset(s[1..]) + multiset{x}
    ensures Sorted([s[0]] + t) && multiset([s[0]] + t) == multiset(s) + multiset{x}
  {
    assert multiset(s) == multiset{s[0]} + multiset(s[1..]) by {
      assert s == [s[0]] + s[1..];
    }
    BoundOfInsertion(s[0], x, s[1..], t);
    SortedConcat([s[0]], t);
  }

  /** A lower bound of `x` and of all of `u` bounds every value of `t`, when
      `t` holds `u` and `x`. */
  lemma BoundOfInsertion(lo: real, x: real, u: seq<real>, t: seq<real>)
    requires multiset(t) == multiset(u) + multiset{x}
    requires lo <= x && forall k :: 0 <= k < |u| ==> lo <= u[k]
    ensures forall k :: 0 <= k < |t| ==> lo <= t[k]
  {
    forall k | 0 <= k < |t| ensures lo <= t[k] {
      assert t[k] in multiset(t);
      if t[k] != x {
        assert t[k] in multiset(u);
        var p :| 0 <= p < |u| && u[p] == t[k];
      }
    }
  }

  /** The ascending rearrangement of `xs` (Python's `list.sort()`). */
  function Sort(xs: seq<real>): (r: seq<real>)
    ensures Sorted(r) && multiset(r) == multiset(xs) && |r| == |xs|
  {
    if xs == [] then []
    else
      assert xs == [xs[0]] + xs[1..];
      Insert(xs[0], Sort(xs[1..]))
  }

  /** The number of hardest tokens averaged: `max(1, int(n * 0.25))`; for
      these `n` the product is exact, so it is a floor division by 4. */
  function Cutoff(n: nat): (k: nat)
    ensures n >= 1 ==> 1 <= k <= n
    ensures k >= 2 ==> 4 * k <= n < 4 * k + 4
  {
    if n / 4 > 1 then n / 4 else 1
  }

  /** `calculate_confidence` from the list of per-token maximum
      probabilities on: 0 for no tokens, otherwise the mean of the `Cutoff`
      lowest values. */
  function Confidence(xs: seq<real>): (c: real)
    ensures xs == [] ==> c == 0.0
  {
    if xs == [] then 0.0 else Mean(Sort(xs)[..Cutoff(|xs|)])
  }

  // ---------------------------------------------------------------------
  // Sums and sorted sequences
  // ---------------------------------------------------------------------

  /** Two ascending arrangements of the same values are the same sequence. */
  lemma {:induction false} SortedUnique(a: seq<real>, b: seq<real>)
    requires Sorted(a) && Sorted(b) && multiset(a) == multiset(b)
    ensures a == b
    decreases |a|
  {
    assert |a| == |multiset(a)| == |multiset(b)| == |b|;
    if a != [] {
      assert a[0] == b[0] by {
        assert a[0] in multiset(b);
        var j :| 0 <= j < |b| && b[j] == a[0];
        assert b[0] in multiset(a);
        var i :| 0 <= i < |a| && a[i] == b[0];
      }
      assert multiset(a[1..]) == multiset(b[1..]) by {
        MultisetOfTail(a);
        MultisetOfTail(b);
      }
      SortedUnique(a[1..], b[1..]);
    }
  }

  lemma MultisetOfTail(a: seq<real>)
    requires a != []
    ensures multiset(a[1..]) == multiset(a) - multiset{a[0]}
  {
    assert a == [a[0]] + a[1..];
  }

  /** Removing one occurrence of `s[j]` from `s` leaves the multiset with
      that occurrence removed. */
  lemma MultisetRemove(s: seq<real>, j: nat)
    requires j < |s|
    ensures multiset(s[..j] + s[j + 1..]) == multiset(s) - multiset{s[j]}
  {
    assert s == s[..j] + [s[j]] + s[j + 1..];
  }

  lemma {:induction false} SumAppend(a: seq<real>, b: seq<real>)
    ensures Sum(a + b) == Sum(a) + Sum(b)
    decreases |b|
  {
    if b == [] {
      assert a + b == a;
    } else {
      var b' := b[..|b| - 1];
      assert (a + b)[..|a + b| - 1] == a + b';
      SumAppend(a, b');
    }
  }

  /** The sum does not depend on the order of the values. */
  lemma {:induction false} SumPermutation(a: seq<real>, b: seq<real>)
    requires multiset(a) == multiset(b)
    ensures Sum(a) == Sum(b)
    decreases |a|
  {
    assert |a| == |multiset(a)| == |multiset(b)| == |b|;
    if a != [] {
      var x, a' := a[|a| - 1], a[..|a| - 1];
      var j :| 0 <= j < |b| && b[j] == x by {
        assert x in multiset(b);
      }
      var b' := b[..j] + b[j + 1..];
      assert multiset(a') == multiset(b') by {
        MultisetRemove(a, |a| - 1);
        assert a[..|a| - 1] + a[|a|..] == a';
        MultisetRemove(b, j);
      }
      SumPermutation(a', b');
      assert Sum(b) == Sum(b') + x by {
        assert b == b[..j] + [x] + b[j + 1..];
        SumAppend(b[..j] + [x], b[j + 1..]);
        SumAppend(b[..j], [x]);
        SumAppend(b[..j], b[j + 1..]);
        assert Sum([x]) == Sum([x][..0]) + x;
      }
    }
  }

  lemma {:induction false} SumLowerBound(s: seq<real>, lo: real)
    requires forall i :: 0 <= i < |s| ==> lo <= s[i]
    ensures |s| as real * lo <= Sum(s)
    decreases |s|
  {
    if s != [] {
      SumLowerBound(s[..|s| - 1], lo);
    }
  }

  lemma {:induction false} SumUpperBound(s: seq<real>, hi: real)
    requires forall i :: 0 <= i < |s| ==> s[i] <= hi
    ensures Sum(s) <= |s| as real * hi
    decreases |s|
  {
    if s != [] {
      SumUpperBound(s[..|s| - 1], hi);
    }
  }

  /** In an ascending sequence, the sum of a shorter prefix, weighed by the
      length of a longer one, is at most the longer prefix's sum weighed by
      the shorter length: prefix means grow with the prefix. */
  lemma {:induction false} PrefixMeansGrow(s: seq<real>, k: nat, m: nat)
    requires Sorted(s) && 1 <= k <= m <= |s|
    ensures Sum(s[..k]) * m as real <= Sum(s[..m]) * k as real
    decreases m
  {
    if k < m {
      PrefixMeansGrow(s, k, m - 1);
      PrefixMeansGrowOne(s, k, m);
    }
  }

  /** The step of `PrefixMeansGrow`: appending the next value, which is at
      least every value of the shorter prefix, keeps the inequality. */
  lemma PrefixMeansGrowOne(s: seq<real>, k: nat, m: nat)
    requires Sorted(s) && 1 <= k < m <= |s|
    requires Sum(s[..k]) * (m - 1) as real <= Sum(s[..m - 1]) * k as real
    ensures Sum(s[..k]) * m as real <= Sum(s[..m]) * k as real
  {
    var a, b, c, x := Sum(s[..k]), Sum(s[..m - 1]), Sum(s[..m]), s[m - 1];
    var kr, m1, mr := k as real, (m - 1) as real, m as real;
    assert a <= kr * x by {
      var t := s[..k];
      assert forall i :: 0 <= i < |t| ==> t[i] <= x by {
        assert forall i :: 0 <= i < k ==> s[i] <= s[m - 1];
      }
      SumUpperBound(t, x);
      assert |t| == k;
    }
    assert c == b + x by {
      assert s[..m][..m - 1] == s[..m - 1];
    }
    assert mr == m1 + 1.0 && a * m1 <= b * kr;
    GrowStep(a, b, x, kr, m1, mr);
  }

  lemma GrowStep(a: real, b: real, x: real, k: real, m1: real, m: real)
    requires m == m1 + 1.0 && a * m1 <= b * k && a <= k * x
    ensures a * m <= (b + x) * k
  {
    assert a * m == a * m1 + a;
    assert (b + x) * k == b * k + k * x;
  }

  lemma MeanAtLeast(s: seq<real>, lo: real)
    requires s != []
    requires forall i :: 0 <= i < |s| ==> lo <= s[i]
    ensures lo <= Mean(s)
  {
    SumLowerBound(s, lo);
    var total, size := Sum(s), |s| as real;
    assert total / size * size == total;
    assert (total / size - lo) * size == total - size * lo;
  }

  lemma MeanAtMost(s: seq<real>, hi: real)
    requires s != []
    requires forall i :: 0 <= i < |s| ==> s[i] <= hi
    ensures Mean(s) <= hi
  {
    SumUpperBound(s, hi);
    var total, size := Sum(s), |s| as real;
    assert total / size * size == total;
    assert (hi - total / size) * size == size * hi - total;
  }

  lemma QuotientsOrdered(a: real, k: real, b: real, n: real)
    requires k > 0.0 && n > 0.0 && a * n <= b * k
    ensures a / k <= b / n
  {
    var x, y := a / k, b / n;
    assert x * k == a && y * n == b;
    assert (y - x) * (k * n) == b * k - a * n;
  }

  /** In an ascending sequence no prefix has a larger mean than the whole. */
  lemma PrefixMeanAtMostMean(s: seq<real>, k: nat)
    requires Sorted(s) && 1 <= k <= |s|
    ensures Mean(s[..k]) <= Mean(s)
  {
    PrefixMeansGrow(s, k, |s|);
    assert s[..|s|] == s;
    QuotientsOrdered(Sum(s[..k]), k as real, Sum(s), |s| as real);
  }

  // ---------------------------------------------------------------------
  // Properties of the confidence value
  // ---------------------------------------------------------------------

  /** For at least one token the cutoff keeps between one and all of them. */
  lemma CutoffInRange(n: nat)
    requires n >= 1
    ensures 1 <= Cutoff(n) <= n
    ensures Cutoff(n) == if n < 8 then 1 else n / 4
  {
  }

  /** The averaged values are the `Cutoff` smallest ones: they and the rest
      split the input, and none of them exceeds any of the rest. */
  lemma HardestSliceIsSmallest(xs: seq<real>)
    requires xs != []
    ensures var s, k := Sort(xs), Cutoff(|xs|);
      && multiset(s[..k]) + multiset(s[k..]) == multiset(xs)
      && (forall i, j :: 0 <= i < k <= j < |xs| ==> s[i] <= s[j])
      && Confidence(xs) == Mean(s[..k])
  {
    var s, k := Sort(xs), Cutoff(|xs|);
    SplitKeepsValues(s, k);
    SortedSplit(s, k);
  }

  lemma SplitKeepsValues(s: seq<real>, k: nat)
    requires k <= |s|
    ensures multiset(s[..k]) + multiset(s[k..]) == multiset(s)
  {
    assert s == s[..k] + s[k..];
  }

  lemma SortedSplit(s: seq<real>, k: nat)
    requires Sorted(s) && k <= |s|
    ensures forall i, j :: 0 <= i < k <= j < |s| ==> s[i] <= s[j]
  {
  }

  /** Any split of the input into `Cutoff` low values and the rest, with no
      low value above any other, gives the confidence as the low values'
      mean, whatever their order. */
  lemma {:induction false} ConfidenceIsMeanOfSmallest(xs: seq<real>, low: seq<real>, high: seq<real>)
    requires xs != []
    requires multiset(low) + multiset(high) == multiset(xs)
    requires |low| == Cutoff(|xs|)
    requires forall i, j :: 0 <= i < |low| && 0 <= j < |high| ==> low[i] <= high[j]
    ensures Confidence(xs) == Mean(low)
  {
    var sl, sh := Sort(low), Sort(high);
    var joined := sl + sh;
    assert Sorted(joined) by {
      RearrangedBound(sl, low, sh, high);
      SortedConcat(sl, sh);
    }
    assert multiset(joined) == multiset(xs);
    SortedUnique(joined, Sort(xs));
    assert Sort(xs)[..|low|] == sl;
    assert Sum(sl) == Sum(low) by {
      SumPermutation(sl, low);
    }
  }

  /** Rearranging two groups keeps every value of the first at most every
      value of the second. */
  lemma RearrangedBound(a: seq<real>, a0: seq<real>, b: seq<real>, b0: seq<real>)
    requires multiset(a) == multiset(a0) && multiset(b) == multiset(b0)
    requires forall i, j :: 0 <= i < |a0| && 0 <= j < |b0| ==> a0[i] <= b0[j]
    ensures forall i, j :: 0 <= i < |a| && 0 <= j < |b| ==> a[i] <= b[j]
  {
    forall i, j | 0 <= i < |a| && 0 <= j < |b| ensures a[i] <= b[j] {
      assert a[i] in multiset(a0);
      assert b[j] in multiset(b0);
      var p :| 0 <= p < |a0| && a0[p] == a[i];
      var q :| 0 <= q < |b0| && b0[q] == b[j];
    }
  }

  lemma SortedConcat(a: seq<real>, b: seq<real>)
    requires Sorted(a) && Sorted(b)
    requires forall i, j :: 0 <= i < |a| && 0 <= j < |b| ==> a[i] <= b[j]
    ensures Sorted(a + b)
  {
    var c := a + b;
    forall i, j | 0 <= i < j < |c| ensures c[i] <= c[j] {
      if j < |a| {
        assert c[i] == a[i] && c[j] == a[j];
      } else if i >= |a| {
        assert c[i] == b[i - |a|] && c[j] == b[j - |a|];
      } else {
        assert c[i] == a[i] && c[j] == b[j - |a|];
      }
    }
  }

  /** The order in which the tokens were generated does not matter. */
  lemma ConfidencePermutationInvariant(xs: seq<real>, ys: seq<real>)
    requires multiset(xs) == multiset(ys)
    ensures Confidence(xs) == Confidence(ys)
  {
    assert |xs| == |multiset(xs)| == |multiset(ys)| == |ys|;
    SortedUnique(Sort(xs), Sort(ys));
  }

  /** One token: its own probability. */
  lemma ConfidenceSingle(x: real)
    ensures Confidence([x]) == x
  {
    assert Sort([x]) == [x] by {
      SortedUnique(Sort([x]), [x]);
    }
    assert Cutoff(1) == 1;
    assert [x][..1] == [x];
    assert Sum([x]) == x by {
      assert [x][..0] == [];
    }
  }

  /** A lower bound of all values bounds the confidence from below; in
      particular the confidence is at least the minimum. */
  lemma ConfidenceAtLeast(xs: seq<real>, lo: real)
    requires xs != []
    requires forall i :: 0 <= i < |xs| ==> lo <= xs[i]
    ensures lo <= Confidence(xs)
  {
    var s, k := Sort(xs), Cutoff(|xs|);
    var low := s[..k];
    assert forall p :: 0 <= p < |low| ==> lo <= low[p] by {
      forall p | 0 <= p < |low| ensures lo <= low[p] {
        assert low[p] in multiset(xs);
      }
    }
    MeanAtLeast(low, lo);
  }

  /** The confidence never exceeds the mean over all tokens. */
  lemma ConfidenceAtMostMean(xs: seq<real>)
    requires xs != []
    ensures Confidence(xs) <= Mean(xs)
  {
    var s := Sort(xs);
    PrefixMeanAtMostMean(s, Cutoff(|xs|));
    assert Mean(s) == Mean(xs) by {
      SumPermutation(s, xs);
    }
  }

  /** Probabilities in; a value in [0, 1] out. */
  lemma ConfidenceInUnitInterval(xs: seq<real>)
    requires forall i :: 0 <= i < |xs| ==> 0.0 <= xs[i] <= 1.0
    ensures 0.0 <= Confidence(xs) <= 1.0
  {
    if xs != [] {
      ConfidenceAtLeast(xs, 0.0);
      ConfidenceAtMostMean(xs);
      MeanAtMost(xs, 1.0);
    }
  }

  // ---------------------------------------------------------------------
  // The imperative steps
  // ---------------------------------------------------------------------

  /** `probs.sort()`: ascending insertion sort in place. */
  method SortAscending(a: array<real>)
    modifies a
    ensures Sorted(a[..])
    ensures multiset(a[..]) == old(multiset(a[..]))
  {
    var i := 0;
    while i < a.Length
      invariant 0 <= i <= a.Length
      invariant Sorted(a[..i])
      invariant multiset(a[..]) == old(multiset(a[..]))
    {
      SiftDown(a, i);
      i := i + 1;
    }
    assert a[..a.Length] == a[..];
  }

  /** One insertion step: the entry at `i` moves down past every larger
      entry of the sorted prefix before it. */
  method SiftDown(a: array<real>, i: nat)
    requires i < a.Length && Sorted(a[..i])
    modifies a
    ensures Sorted(a[..i + 1])
    ensures multiset(a[..]) == old(multiset(a[..]))
    ensures a[i + 1..] == old(a[i + 1..])
  {
    var j := i;
    while j > 0 && a[j - 1] > a[j]
      invariant 0 <= j <= i
      invariant a[i + 1..] == old(a[i + 1..])
      invariant multiset(a[..]) == old(multiset(a[..]))
      invariant forall p, q :: 0 <= p < q <= i && p != j && q != j ==> a[p] <= a[q]
      invariant forall q :: j < q <= i ==> a[j] <= a[q]
    {
      SwapAdjacent(a, j);
      j := j - 1;
    }
    assert Sorted(a[..i + 1]) by {
      forall p, q | 0 <= p < q <= i ensures a[p] <= a[q] {
        if q == j && p < j - 1 {
          assert a[p] <= a[j - 1];
        }
      }
    }
  }

  /** Exchanges the entries at `j - 1` and `j`. */
  method SwapAdjacent(a: array<real>, j: nat)
    requires 0 < j < a.Length
    modifies a
    ensures a[..] == old(a[..])[j - 1 := old(a[j])][j := old(a[j - 1])]
    ensures multiset(a[..]) == old(multiset(a[..]))
  {
    a[j - 1], a[j] := a[j], a[j - 1];
  }

  /** `np.mean(probs[:k])`: the mean of the first `k` entries. */
  method MeanOfPrefix(a: array<real>, k: nat) returns (m: real)
    requires 1 <= k <= a.Length
    ensures m == Mean(a[..k])
  {
    var total := 0.0;
    for i := 0 to k
      invariant total == Sum(a[..i])
    {
      assert a[..i + 1][..i] == a[..i];
      total := total + a[i];
    }
    m := total / k as real;
  }

  /** `calculate_confidence` with the per-token maximum probability of each
      decoding step given: collect them in generation order, sort, cut, and
      average. */
  method CalculateConfidence(stepMax: seq<real>) returns (c: real)
    ensures c == Confidence(stepMax)
  {
    if |stepMax| == 0 {
      return 0.0;
    }
    var probs := new real[|stepMax|];
    for i := 0 to |stepMax|
      invariant probs[..i] == stepMax[..i]
    {
      probs[i] := stepMax[i];
    }
    assert probs[..] == stepMax;
    // the second emptiness test of the original cannot fire: probs has a
    // value for every step and there is at least one step
    SortAscending(probs);
    SortedUnique(probs[..], Sort(stepMax));
    var cutoff := Cutoff(probs.Length);
    c := MeanOfPrefix(probs, cutoff);
  }
}
