/**
 * Ratios of a split (packages/shared/src/layout-tree.ts:32-54), over the reals: cleaning, scaling to a
 * sum of one, and padding a list that is too short.
 */
module Shares {
  import opened Prelude

  function Sum(sizes: seq<real>): real {
    if sizes == [] then 0.0 else sizes[0] + Sum(sizes[1..])
  }

  predicate NonNegative(sizes: seq<real>) {
    forall i :: 0 <= i < |sizes| ==> sizes[i] >= 0.0
  }

  /** What a split stores: one share per child, none negative, one in all. */
  predicate AreShares(sizes: seq<real>, count: nat) {
    |sizes| == count && NonNegative(sizes) && Sum(sizes) == 1.0
  }

  /** The part of an area that a share stands for. */
  function Part(area: real, share: real): real {
    area * share
  }

  function Scale(sizes: seq<real>, k: real): (r: seq<real>)
    ensures |r| == |sizes|
    ensures forall i :: 0 <= i < |sizes| ==> r[i] == Part(sizes[i], k)
  {
    if sizes == [] then [] else [Part(sizes[0], k)] + Scale(sizes[1..], k)
  }

  function Clean(sizes: seq<real>): (r: seq<real>)
    ensures |r| == |sizes| && NonNegative(r)
    ensures forall i :: 0 <= i < |sizes| ==> r[i] == if sizes[i] > 0.0 then sizes[i] else 0.0
  {
    if sizes == [] then [] else [if sizes[0] > 0.0 then sizes[0] else 0.0] + Clean(sizes[1..])
  }

  function Repeat(x: real, n: nat): (r: seq<real>)
    ensures |r| == n && forall i :: 0 <= i < n ==> r[i] == x
  {
    if n == 0 then [] else [x] + Repeat(x, n - 1)
  }

  /** Everything over the total; an even split when there is no ratio to keep. */
  function Normalize(sizes: seq<real>): seq<real> {
    var total := Sum(Clean(sizes));
    if sizes == [] then []
    else if total <= 0.0 then Repeat(1.0 / |sizes| as real, |sizes|)
    else Scale(Clean(sizes), 1.0 / total)
  }

  function Pad(sizes: seq<real>, count: nat): (r: seq<real>)
    ensures |r| == count
  {
    if count <= |sizes| then sizes[..count]
    else sizes + Repeat(1.0 / count as real, count - |sizes|)
  }

  function Align(sizes: seq<real>, count: nat): seq<real> {
    Normalize(Pad(sizes, count))
  }

  lemma {:induction false} SumConcat(a: seq<real>, b: seq<real>)
    ensures Sum(a + b) == Sum(a) + Sum(b)
  {
    if a == [] {
      assert a + b == b;
    } else {
      assert (a + b)[1..] == a[1..] + b;
      SumConcat(a[1..], b);
    }
  }

  lemma {:induction false} SumScale(sizes: seq<real>, k: real)
    ensures Sum(Scale(sizes, k)) == Part(Sum(sizes), k)
  {
    if sizes != [] {
      SumScale(sizes[1..], k);
      assert Scale(sizes, k)[1..] == Scale(sizes[1..], k);
    }
  }

  lemma {:induction false} SumRepeat(x: real, n: nat)
    ensures Sum(Repeat(x, n)) == x * n as real
  {
    if n > 0 {
      SumRepeat(x, n - 1);
      assert Repeat(x, n)[1..] == Repeat(x, n - 1);
    }
  }

  lemma {:induction false} SumNonNegative(sizes: seq<real>)
    requires NonNegative(sizes)
    ensures Sum(sizes) >= 0.0
    ensures forall i :: 0 <= i < |sizes| ==> sizes[i] <= Sum(sizes)
  {
    if sizes != [] {
      assert NonNegative(sizes[1..]);
      SumNonNegative(sizes[1..]);
      assert forall i :: 1 <= i < |sizes| ==> sizes[i] == sizes[1..][i - 1];
    }
  }

  lemma CleanKeeps(sizes: seq<real>)
    requires NonNegative(sizes)
    ensures Clean(sizes) == sizes
  {
  }

  lemma Quotient(x: real, k: real)
    requires k > 0.0
    ensures Part(Part(x, k), 1.0 / k) == x
  {
  }

  lemma ScaleParts(sizes: seq<real>, at: nat, k: real)
    requires at <= |sizes|
    ensures Scale(sizes, k)[..at] == Scale(sizes[..at], k)
    ensures Scale(sizes, k)[at..] == Scale(sizes[at..], k)
  {
  }

  lemma ScaleNonNegative(sizes: seq<real>, k: real)
    requires NonNegative(sizes) && k >= 0.0
    ensures NonNegative(Scale(sizes, k))
  {
  }

  lemma WholeOf(n: nat)
    requires n > 0
    ensures (1.0 / n as real) * n as real == 1.0 && 1.0 / n as real > 0.0
  {
  }

  lemma WholeOfTotal(total: real)
    requires total > 0.0
    ensures Part(total, 1.0 / total) == 1.0 && 1.0 / total > 0.0
  {
  }

  lemma EvenShares(n: nat)
    requires n > 0
    ensures AreShares(Repeat(1.0 / n as real, n), n)
  {
    hide Sum;
    WholeOf(n);
    SumRepeat(1.0 / n as real, n);
  }

  lemma ScaledShares(sizes: seq<real>)
    requires NonNegative(sizes) && Sum(sizes) > 0.0
    ensures AreShares(Scale(sizes, 1.0 / Sum(sizes)), |sizes|)
  {
    hide Sum;
    WholeOfTotal(Sum(sizes));
    SumScale(sizes, 1.0 / Sum(sizes));
    ScaleNonNegative(sizes, 1.0 / Sum(sizes));
  }

  /** Whatever comes in, what goes out is a list of shares. */
  lemma NormalizeMakesShares(sizes: seq<real>)
    requires sizes != []
    ensures AreShares(Normalize(sizes), |sizes|)
  {
    hide Sum, AreShares;
    if Sum(Clean(sizes)) <= 0.0 {
      EvenShares(|sizes|);
    } else {
      ScaledShares(Clean(sizes));
    }
  }

  /** Shares that all shrank alike come back exactly. */
  lemma NormalizeUndoesScaling(sizes: seq<real>, k: real)
    requires AreShares(sizes, |sizes|) && k > 0.0
    ensures Normalize(Scale(sizes, k)) == sizes
  {
    ScaleNonNegative(sizes, k);
    CleanKeeps(Scale(sizes, k));
    SumScale(sizes, k);
    ScaleBack(sizes, k);
  }

  lemma ScaleBack(sizes: seq<real>, k: real)
    requires k > 0.0
    ensures Scale(Scale(sizes, k), 1.0 / k) == sizes
  {
    var back := Scale(Scale(sizes, k), 1.0 / k);
    forall i | 0 <= i < |sizes| ensures back[i] == sizes[i] {
      Quotient(sizes[i], k);
    }
  }

  lemma NormalizeKeepsShares(sizes: seq<real>)
    requires AreShares(sizes, |sizes|)
    ensures Normalize(sizes) == sizes
  {
    CleanKeeps(sizes);
    assert Scale(sizes, 1.0) == sizes;
  }

  lemma AlignMakesShares(sizes: seq<real>, count: nat)
    requires count > 0
    ensures AreShares(Align(sizes, count), count)
  {
    NormalizeMakesShares(Pad(sizes, count));
  }

  lemma AlignKeepsShares(sizes: seq<real>)
    requires AreShares(sizes, |sizes|)
    ensures Align(sizes, |sizes|) == sizes
  {
    assert Pad(sizes, |sizes|) == sizes;
    NormalizeKeepsShares(sizes);
  }

  lemma AlignLength(sizes: seq<real>, count: nat)
    ensures |Align(sizes, count)| == count
  {
    if count > 0 {
      AlignMakesShares(sizes, count);
    }
  }

  function Splice<T>(s: seq<T>, at: nat, x: T): (r: seq<T>)
    requires at <= |s|
    ensures |r| == |s| + 1
  {
    s[..at] + [x] + s[at..]
  }

  /** The shares of `count` children once one more takes an equal part. */
  function MakeRoom(sizes: seq<real>, count: nat): seq<real> {
    Scale(Align(sizes, count), 1.0 - 1.0 / (count + 1) as real)
  }

  lemma MakeRoomLength(sizes: seq<real>, count: nat)
    ensures |MakeRoom(sizes, count)| == count
  {
    if count > 0 {
      AlignMakesShares(sizes, count);
    }
  }

  lemma SpliceAt<T>(s: seq<T>, at: nat, x: T)
    requires at <= |s|
    ensures Splice(s, at, x)[at] == x
  {
  }

  lemma SumOfOne(x: real)
    ensures Sum([x]) == x
  {
    assert [x][1..] == [];
  }

  lemma SumSplice(sizes: seq<real>, at: nat, x: real)
    requires at <= |sizes|
    ensures Sum(Splice(sizes, at, x)) == Sum(sizes) + x
  {
    hide Sum;
    var a, b := sizes[..at], sizes[at..];
    assert a + b == sizes;
    SumConcat(a, b);
    assert Splice(sizes, at, x) == (a + [x]) + b;
    SumConcat(a + [x], b);
    SumConcat(a, [x]);
    SumOfOne(x);
  }

  /** The cut everybody takes when one more joins `n`. */
  lemma ShareOf(n: nat)
    ensures 0.0 <= 1.0 - 1.0 / (n + 1) as real
    ensures n > 0 ==> 0.0 < 1.0 - 1.0 / (n + 1) as real
    ensures 0.0 < 1.0 / (n + 1) as real
  {
  }

  lemma RoomOfShares(sizes: seq<real>)
    requires |sizes| >= 1 && AreShares(sizes, |sizes|)
    ensures MakeRoom(sizes, |sizes|) == Scale(sizes, 1.0 - 1.0 / (|sizes| + 1) as real)
    ensures NonNegative(MakeRoom(sizes, |sizes|))
    ensures Sum(MakeRoom(sizes, |sizes|)) == 1.0 - 1.0 / (|sizes| + 1) as real
  {
    hide Align, Sum, Scale;
    ShareOf(|sizes|);
    AlignKeepsShares(sizes);
    ScaleNonNegative(sizes, 1.0 - 1.0 / (|sizes| + 1) as real);
    SumScale(sizes, 1.0 - 1.0 / (|sizes| + 1) as real);
  }

  /** An equal part for the newcomer and a proportional cut for the others add up to one again. */
  lemma SharesOfJoin(sizes: seq<real>, at: nat)
    requires |sizes| >= 1 && AreShares(sizes, |sizes|) && at <= |sizes|
    ensures |MakeRoom(sizes, |sizes|)| == |sizes|
    ensures AreShares(Splice(MakeRoom(sizes, |sizes|), at, 1.0 / (|sizes| + 1) as real), |sizes| + 1)
  {
    hide MakeRoom, Sum;
    ShareOf(|sizes|);
    RoomOfShares(sizes);
    MakeRoomLength(sizes, |sizes|);
    SumSplice(MakeRoom(sizes, |sizes|), at, 1.0 / (|sizes| + 1) as real);
  }

  /** The copy, the padding loop and the scaling of `alignSizes`. */
  method AlignSizes(sizes: seq<real>, count: nat) returns (r: seq<real>)
    ensures r == Align(sizes, count)
    ensures count > 0 ==> AreShares(r, count)
  {
    var given := sizes[..Min(|sizes|, count)];
    ghost var taken := |given|;
    while |given| < count
      invariant taken <= |given| <= count
      invariant |sizes| <= count ==> given == sizes + Repeat(1.0 / Max(count, 1) as real, |given| - |sizes|)
      invariant count <= |sizes| ==> given == sizes[..count]
    {
      RepeatSnoc(1.0 / Max(count, 1) as real, |given| - |sizes|);
      given := given + [1.0 / Max(count, 1) as real];
    }
    assert given == Pad(sizes, count);
    if count > 0 {
      AlignMakesShares(sizes, count);
    }
    r := Normalize(given);
  }

  lemma RepeatSnoc(x: real, n: nat)
    ensures Repeat(x, n + 1) == Repeat(x, n) + [x]
  {
  }

  /** With no ratio to keep, everybody gets the same. */
  lemma NothingIsEven(sizes: seq<real>, i: nat)
    requires i < |sizes| && forall k :: 0 <= k < |sizes| ==> sizes[k] <= 0.0
    ensures Normalize(sizes)[i] == 1.0 / |sizes| as real
  {
    ZerosSum(Clean(sizes));
  }

  lemma {:induction false} ZerosSum(sizes: seq<real>)
    requires forall k :: 0 <= k < |sizes| ==> sizes[k] == 0.0
    ensures Sum(sizes) == 0.0
  {
    if sizes != [] {
      ZerosSum(sizes[1..]);
    }
  }

  lemma NormalizedAt(sizes: seq<real>, i: nat)
    requires NonNegative(sizes) && Sum(sizes) > 0.0 && i < |sizes|
    ensures Normalize(sizes)[i] == Part(sizes[i], 1.0 / Sum(sizes))
  {
    CleanKeeps(sizes);
  }

  lemma EvenPartsSum(count: nat, missing: nat)
    requires count > 0
    ensures var even := 1.0 / count as real;
      even > 0.0 && Part(even, missing as real) >= 0.0 && Sum(Repeat(even, missing)) == Part(even, missing as real)
  {
    SumRepeat(1.0 / count as real, missing);
  }

  /** Children beyond the stored shares come in at an even part, and then all are scaled alike to one in all. */
  lemma MissingComeInEven(sizes: seq<real>, count: nat, i: nat)
    requires AreShares(sizes, |sizes|) && |sizes| < count && i < count
    ensures
      var even := 1.0 / count as real;
      var total := 1.0 + Part(even, (count - |sizes|) as real);
      total > 0.0 && Align(sizes, count)[i] == Part(if i < |sizes| then sizes[i] else even, 1.0 / total)
  {
    hide Sum, Normalize, Part, Repeat;
    var even := 1.0 / count as real;
    var missing := Repeat(even, count - |sizes|);
    EvenPartsSum(count, count - |sizes|);
    SumConcat(sizes, missing);
    assert Pad(sizes, count) == sizes + missing;
    NormalizedAt(sizes + missing, i);
  }
}
