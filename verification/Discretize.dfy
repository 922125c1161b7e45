/**
 * Ratios projected onto an integer pixel budget (packages/shared/src/layout-tree.ts:198-226): round every
 * share, then hand the rounding error out one pixel at a time.
 */
module Discretize {
  import opened Prelude
  import opened Shares

  function Pixels(px: seq<int>): int {
    if px == [] then 0 else px[0] + Pixels(px[1..])
  }

  lemma {:induction false} PixelsUpdate(px: seq<int>, i: nat, v: int)
    requires i < |px|
    ensures Pixels(px[i := v]) == Pixels(px) - px[i] + v
  {
    if i == 0 {
      assert px[0 := v][1..] == px[1..];
    } else {
      assert px[i := v][1..] == px[1..][i - 1 := v];
      PixelsUpdate(px[1..], i - 1, v);
    }
  }

  // ---- The order of the hand-out ----------------------------------------------------------------

  /** The comparison of the sort: smallest first when growing, largest first when shrinking. */
  predicate Ranks(px: seq<int>, growing: bool, x: nat, y: nat)
    requires x < |px| && y < |px|
  {
    if growing then px[x] <= px[y] else px[x] >= px[y]
  }

  predicate InRange(order: seq<nat>, n: nat) {
    forall k :: 0 <= k < |order| ==> order[k] < n
  }

  predicate Ranked(order: seq<nat>, px: seq<int>, growing: bool)
    requires InRange(order, |px|)
  {
    forall j, k :: 0 <= j < k < |order| ==> order[j] != order[k] && Ranks(px, growing, order[j], order[k])
  }

  /** Every index once, ranked. */
  predicate IsOrder(order: seq<nat>, px: seq<int>, growing: bool) {
    && InRange(order, |px|)
    && Ranked(order, px, growing)
    && forall i: nat :: i < |px| ==> i in order
  }

  lemma RankedCons(x: nat, order: seq<nat>, px: seq<int>, growing: bool)
    requires x < |px| && InRange(order, |px|) && Ranked(order, px, growing) && x !in order
    requires forall y: nat :: y in order && y < |px| ==> Ranks(px, growing, x, y)
    ensures InRange([x] + order, |px|) && Ranked([x] + order, px, growing)
  {
    var all := [x] + order;
    assert forall k :: 0 < k < |all| ==> all[k] == order[k - 1] && all[k] in order;
  }

  function Insert(x: nat, order: seq<nat>, px: seq<int>, growing: bool): (r: seq<nat>)
    requires x < |px| && InRange(order, |px|) && Ranked(order, px, growing) && x !in order
    ensures InRange(r, |px|) && Ranked(r, px, growing)
    ensures forall y :: y in r <==> y == x || y in order
  {
    if order == [] then [x]
    else if Ranks(px, growing, x, order[0]) then
      RankedCons(x, order, px, growing);
      [x] + order
    else
      var rest := Insert(x, order[1..], px, growing);
      RankedCons(order[0], rest, px, growing);
      [order[0]] + rest
  }

  /** The stable sort of the indices from `from` on. */
  function SortFrom(from: nat, px: seq<int>, growing: bool): (r: seq<nat>)
    requires from <= |px|
    ensures InRange(r, |px|) && Ranked(r, px, growing)
    ensures forall y :: y in r <==> from <= y < |px|
    decreases |px| - from
  {
    if from == |px| then [] else Insert(from, SortFrom(from + 1, px, growing), px, growing)
  }

  // ---- Rounding ---------------------------------------------------------------------------------

  /** The shares the sizes stand for. */
  function SharesFor(sizes: seq<real>): (r: seq<real>)
    ensures |r| == |sizes|
    ensures sizes != [] ==> AreShares(r, |sizes|)
  {
    if sizes == [] then []
    else
      AlignMakesShares(sizes, |sizes|);
      NormalizeKeepsShares(Align(sizes, |sizes|));
      Normalize(Align(sizes, |sizes|))
  }

  /** What no child goes below, as far as the budget allows it. */
  function FloorFor(count: nat, total: int, min: nat): (f: int)
    requires count > 0
    ensures f * count <= total
    ensures min * count <= total ==> f == min
  {
    if min * count <= total then min else total / count
  }

  function Nearest(x: real): (r: int)
    ensures r as real - 0.5 <= x < r as real + 0.5
  {
    (x + 0.5).Floor
  }

  function Rounded(shares: seq<real>, total: int, floor: int): (r: seq<int>)
    ensures |r| == |shares|
    ensures forall i :: 0 <= i < |shares| ==> r[i] == Max(floor, Nearest(Part(total as real, shares[i])))
  {
    if shares == [] then []
    else [Max(floor, Nearest(Part(total as real, shares[0])))] + Rounded(shares[1..], total, floor)
  }

  lemma PartOfSum(x: real, a: real, b: real)
    ensures Part(x, a + b) == Part(x, a) + Part(x, b)
  {
  }

  lemma {:induction false} PixelsAbove(px: seq<int>, shares: seq<real>, total: real)
    requires |px| == |shares|
    requires forall i :: 0 <= i < |px| ==> Part(total, shares[i]) <= px[i] as real
    ensures Part(total, Sum(shares)) <= Pixels(px) as real
  {
    if px != [] {
      PixelsAbove(px[1..], shares[1..], total);
      PartOfSum(total, shares[0], Sum(shares[1..]));
    }
  }

  lemma {:induction false} PixelsBelow(px: seq<int>, shares: seq<real>, total: real)
    requires |px| == |shares|
    requires forall i :: 0 <= i < |px| ==> px[i] as real <= Part(total, shares[i])
    ensures Pixels(px) as real <= Part(total, Sum(shares))
  {
    if px != [] {
      PixelsBelow(px[1..], shares[1..], total);
      PartOfSum(total, shares[0], Sum(shares[1..]));
    }
  }

  lemma {:induction false} PixelsAtFloor(px: seq<int>, floor: int)
    requires forall i :: 0 <= i < |px| ==> px[i] <= floor
    ensures Pixels(px) <= floor * |px|
  {
    if px != [] {
      PixelsAtFloor(px[1..], floor);
    }
  }

  // ---- One pass over the children ---------------------------------------------------------------

  function Grown(px: seq<int>, order: seq<nat>): (r: seq<int>)
    requires InRange(order, |px|)
    ensures |r| == |px|
    ensures forall i: nat :: i < |px| ==> r[i] == if i in order then px[i] + 1 else px[i]
  {
    seq(|px|, i requires 0 <= i < |px| => if i in order then px[i] + 1 else px[i])
  }

  function Shrunk(px: seq<int>, order: seq<nat>, floor: int): (r: seq<int>)
    requires InRange(order, |px|)
    ensures |r| == |px|
    ensures forall i: nat :: i < |px| ==> r[i] == if i in order && px[i] > floor then px[i] - 1 else px[i]
  {
    seq(|px|, i requires 0 <= i < |px| => if i in order && px[i] > floor then px[i] - 1 else px[i])
  }

  lemma GrownSnoc(px: seq<int>, order: seq<nat>, i: nat)
    requires InRange(order, |px|) && i < |px| && i !in order
    ensures Grown(px, order)[i] == px[i]
    ensures Grown(px, order + [i]) == Grown(px, order)[i := px[i] + 1]
  {
  }

  lemma ShrunkSnoc(px: seq<int>, order: seq<nat>, i: nat, floor: int)
    requires InRange(order, |px|) && i < |px| && i !in order
    ensures Shrunk(px, order, floor)[i] == px[i]
    ensures Shrunk(px, order + [i], floor)
         == Shrunk(px, order, floor)[i := if px[i] > floor then px[i] - 1 else px[i]]
  {
  }

  /** One pixel given to child `i`, or taken from it when it is above the floor. */
  method Serve(px: array<int>, i: nat, floor: int, error: int) returns (rest: int)
    requires i < px.Length && error != 0
    modifies px
    ensures error > 0 ==> rest == error - 1 && px[..] == old(px[..])[i := old(px[i]) + 1]
    ensures error < 0 ==> error <= rest <= 0
    ensures error < 0 ==> px[..] == old(px[..])[i := if old(px[i]) > floor then old(px[i]) - 1 else old(px[i])]
    ensures Pixels(px[..]) + rest == Pixels(old(px[..])) + error
  {
    ghost var was := px[..];
    PixelsUpdate(was, i, was[i] + 1);
    PixelsUpdate(was, i, was[i] - 1);
    rest := error;
    if error > 0 {
      px[i] := px[i] + 1;
      rest := rest - 1;
      assert px[..] == was[i := was[i] + 1];
    } else if px[i] > floor {
      px[i] := px[i] - 1;
      rest := rest + 1;
      assert px[..] == was[i := was[i] - 1];
    }
  }

  /** What the children look like once the first of the order are served. */
  function Served(px: seq<int>, order: seq<nat>, floor: int, growing: bool): (r: seq<int>)
    requires InRange(order, |px|)
    ensures |r| == |px|
  {
    if growing then Grown(px, order) else Shrunk(px, order, floor)
  }

  lemma ServedSnoc(px: seq<int>, order: seq<nat>, i: nat, floor: int, growing: bool)
    requires InRange(order, |px|) && i < |px| && i !in order
    ensures Served(px, order, floor, growing)[i] == px[i]
    ensures Served(px, order + [i], floor, growing)
         == Served(px, order, floor, growing)
              [i := if growing then px[i] + 1 else if px[i] > floor then px[i] - 1 else px[i]]
  {
    GrownSnoc(px, order, i);
    ShrunkSnoc(px, order, i, floor);
  }

  /** One round: the children are served in order until the error runs out. */
  method Pass(px: array<int>, order: seq<nat>, floor: int, error: int)
    returns (rest: int, ghost served: nat)
    requires InRange(order, px.Length) && error != 0
    requires forall j, k :: 0 <= j < k < |order| ==> order[j] != order[k]
    modifies px
    ensures served <= |order| && (rest != 0 ==> served == |order|)
    ensures Pixels(px[..]) + rest == Pixels(old(px[..])) + error
    ensures if error > 0 then 0 <= rest <= error - served else error <= rest <= 0
    ensures px[..] == Served(old(px[..]), order[..served], floor, error > 0)
  {
    hide Served, Pixels;
    ghost var was := px[..];
    rest := error;
    var k := 0;
    ServedNobody(was, floor, error > 0);
    while k < |order| && rest != 0
      invariant 0 <= k <= |order|
      invariant Pixels(px[..]) + rest == Pixels(was) + error
      invariant if error > 0 then 0 <= rest <= error - k else error <= rest <= 0
      invariant px[..] == Served(was, order[..k], floor, error > 0)
    {
      ghost var now := px[..];
      assert order[..k + 1] == order[..k] + [order[k]];
      ServedSnoc(was, order[..k], order[k], floor, error > 0);
      assert px[order[k]] == now[order[k]];
      rest := Serve(px, order[k], floor, rest);
      k := k + 1;
    }
    served := k;
  }

  lemma ServedNobody(px: seq<int>, floor: int, growing: bool)
    ensures Served(px, [], floor, growing) == px
  {
  }

  // ---- Why one round is enough ------------------------------------------------------------------

  /** The rounded shares with the floor applied, before any error is handed out. */
  function Start(sizes: seq<real>, total: int, min: nat): (r: seq<int>)
    ensures |r| == |sizes|
  {
    if sizes == [] then [] else Rounded(SharesFor(sizes), total, FloorFor(|sizes|, total, min))
  }

  lemma PartOfAll(total: int, shares: seq<real>)
    requires Sum(shares) == 1.0
    ensures Part(total as real, Sum(shares)) == total as real
  {
  }

  /** One more pixel for everybody already covers the budget. */
  lemma GrowthIsEnough(sizes: seq<real>, total: int, min: nat, order: seq<nat>)
    requires sizes != [] && IsOrder(order, Start(sizes, total, min), true)
    ensures Pixels(Served(Start(sizes, total, min), order, FloorFor(|sizes|, total, min), true)) >= total
  {
    var shares := SharesFor(sizes);
    var start := Start(sizes, total, min);
    var px := Served(start, order, FloorFor(|sizes|, total, min), true);
    forall i: nat | i < |px| ensures Part(total as real, shares[i]) <= px[i] as real {
      assert i in order;
    }
    PixelsAbove(px, shares, total as real);
    PartOfAll(total, shares);
  }

  lemma PartNonNegative(total: int, share: real)
    requires total >= 0 && share >= 0.0
    ensures Part(total as real, share) >= 0.0
  {
  }

  /** Without a floor, one pixel less for everybody who has one fits the budget. */
  lemma ShrinkingIsEnough(sizes: seq<real>, total: nat, order: seq<nat>)
    requires sizes != [] && IsOrder(order, Start(sizes, total, 0), false)
    ensures Pixels(Served(Start(sizes, total, 0), order, FloorFor(|sizes|, total, 0), false)) <= total
  {
    var shares := SharesFor(sizes);
    var start := Start(sizes, total, 0);
    assert FloorFor(|sizes|, total, 0) == 0;
    var px := Served(start, order, 0, false);
    forall i: nat | i < |px| ensures px[i] as real <= Part(total as real, shares[i]) {
      assert i in order;
      PartNonNegative(total, shares[i]);
      assert start[i] == Max(0, Nearest(Part(total as real, shares[i])));
    }
    PixelsBelow(px, shares, total as real);
    PartOfAll(total, shares);
  }

  lemma {:induction false} PixelsLess(px: seq<int>, less: seq<int>, i: nat)
    requires |less| == |px| && i < |px| && less[i] < px[i]
    requires forall j :: 0 <= j < |px| ==> less[j] <= px[j]
    ensures Pixels(less) < Pixels(px)
  {
    if i == 0 {
      PixelsAtMost(px[1..], less[1..]);
    } else {
      PixelsLess(px[1..], less[1..], i - 1);
    }
  }

  lemma {:induction false} PixelsAtMost(px: seq<int>, less: seq<int>)
    requires |less| == |px|
    requires forall j :: 0 <= j < |px| ==> less[j] <= px[j]
    ensures Pixels(less) <= Pixels(px)
  {
    if px != [] {
      PixelsAtMost(px[1..], less[1..]);
    }
  }

  /** As long as the children take more than the budget, somebody stands above the floor and gives a pixel. */
  lemma ShrinkingAdvances(px: seq<int>, order: seq<nat>, total: int, floor: int)
    requires Pixels(px) > total >= floor * |px| && InRange(order, |px|)
    requires forall i: nat :: i < |px| ==> i in order
    ensures Pixels(Served(px, order, floor, false)) < Pixels(px)
  {
    if forall i :: 0 <= i < |px| ==> px[i] <= floor {
      PixelsAtFloor(px, floor);
      assert false;
    }
    var i :| 0 <= i < |px| && px[i] > floor;
    assert i in order;
    PixelsLess(px, Served(px, order, floor, false), i);
  }

  // ---- The whole projection ---------------------------------------------------------------------

  /** Whoever grew was no bigger than whoever did not. */
  predicate SmallestGrew(start: seq<int>, px: seq<int>)
    requires |px| == |start|
  {
    && (forall i :: 0 <= i < |px| ==> start[i] <= px[i] <= start[i] + 1)
    && (forall i, j :: 0 <= i < |px| && 0 <= j < |px| && px[i] > start[i] && px[j] == start[j]
                       ==> start[i] <= start[j])
  }

  /** Whoever shrank was no smaller than whoever did not, those already at nothing aside. */
  predicate LargestShrank(start: seq<int>, px: seq<int>)
    requires |px| == |start|
  {
    && (forall i :: 0 <= i < |px| ==> start[i] - 1 <= px[i] <= start[i])
    && (forall i, j :: 0 <= i < |px| && 0 <= j < |px| && px[i] < start[i] && px[j] == start[j] && start[j] > 0
                       ==> start[i] >= start[j])
  }

  lemma InPrefix(order: seq<nat>, k: nat)
    requires k <= |order|
    ensures forall y :: 0 <= y < k ==> order[y] in order[..k]
  {
    forall y | 0 <= y < k ensures order[y] in order[..k] {
      assert order[..k][y] == order[y];
    }
  }

  lemma ServedInOrder(start: seq<int>, order: seq<nat>, k: nat, floor: int, growing: bool)
    requires IsOrder(order, start, growing) && k <= |order|
    ensures growing ==> SmallestGrew(start, Served(start, order[..k], floor, growing))
    ensures !growing && floor == 0 ==> LargestShrank(start, Served(start, order[..k], floor, growing))
  {
    InPrefix(order, k);
    forall i, j | i in order[..k] && 0 <= j < |start| && j !in order[..k]
      ensures Ranks(start, growing, i, j)
    {
      assert j in order;
      var x :| 0 <= x < k && order[x] == i;
      var y :| 0 <= y < |order| && order[y] == j;
    }
  }

  /** Every result is within a pixel and a half of its exact share. */
  predicate CloseToShares(px: seq<int>, sizes: seq<real>, total: int)
    requires |px| == |sizes|
  {
    forall i :: 0 <= i < |px| ==>
      px[i] as real - 1.5 <= Part(total as real, SharesFor(sizes)[i]) <= px[i] as real + 1.5
  }

  lemma OnePixelAway(sizes: seq<real>, total: nat, px: seq<int>)
    requires sizes != [] && |px| == |sizes|
    requires forall i :: 0 <= i < |px| ==>
      Start(sizes, total, 0)[i] - 1 <= px[i] <= Start(sizes, total, 0)[i] + 1
    ensures CloseToShares(px, sizes, total)
  {
    var shares := SharesFor(sizes);
    forall i | 0 <= i < |px|
      ensures px[i] as real - 1.5 <= Part(total as real, shares[i]) <= px[i] as real + 1.5
    {
      PartNonNegative(total, shares[i]);
      assert Start(sizes, total, 0)[i] == Max(0, Nearest(Part(total as real, shares[i])));
    }
  }

  /** One round would do: growing, it covers the budget; shrinking, it fits the budget. */
  predicate OneRound(px: seq<int>, order: seq<nat>, floor: int, total: int, growing: bool)
    requires InRange(order, |px|)
  {
    var after := Pixels(Served(px, order, floor, growing));
    if growing then after >= total else after <= total
  }

  /** A round that did not settle everything has still come closer, and it is not one that would do. */
  lemma RoundAdvances(px: seq<int>, order: seq<nat>, total: int, floor: int, error: int, rest: int)
    requires InRange(order, |px|) && |px| > 0 && forall i: nat :: i < |px| ==> i in order
    requires floor * |px| <= total && error != 0 && Pixels(px) + error == total
    requires Pixels(Served(px, order, floor, error > 0)) + rest == Pixels(px) + error
    requires if error > 0 then 0 < rest <= error - |order| else error <= rest < 0
    ensures Magnitude(rest) < Magnitude(error)
    ensures !OneRound(px, order, floor, total, error > 0)
  {
    if error < 0 {
      ShrinkingAdvances(px, order, total, floor);
    } else {
      assert 0 in order;
    }
  }

  /**
   * The rounds of the hand-out. The guard bounds them in the source; the postcondition shows that it is
   * never what ends them.
   */
  method HandOut(px: array<int>, order: seq<nat>, floor: int, total: int) returns (ghost rounds: nat, ghost served: nat)
    requires px.Length > 0 && floor * px.Length <= total
    requires IsOrder(order, px[..], total > Pixels(px[..]))
    requires forall i :: 0 <= i < px.Length ==> px[i] >= floor
    modifies px
    ensures Pixels(px[..]) == total
    ensures forall i :: 0 <= i < px.Length ==> px[i] >= floor
    ensures served <= |order|
    ensures total <= Pixels(old(px[..])) ==> forall i :: 0 <= i < px.Length ==> px[i] <= old(px[i])
    ensures OneRound(old(px[..]), order, floor, total, total > Pixels(old(px[..]))) ==>
      px[..] == Served(old(px[..]), order[..served], floor, total > Pixels(old(px[..])))
  {
    hide Served, Pixels, OneRound;
    ghost var start := px[..];
    var error := total - Pixels(px[..]);
    ghost var growing := error > 0;
    var guard := px.Length * Magnitude(error) + px.Length;
    GuardIsAmple(px.Length, Magnitude(error));
    rounds, served := 0, 0;
    ServedNobody(start, floor, growing);
    assert order[..0] == [];
    while error != 0 && guard > 0
      invariant Pixels(px[..]) + error == total && Magnitude(error) <= guard
      invariant forall i :: 0 <= i < px.Length ==> px[i] >= floor
      invariant if growing then error >= 0 else error <= 0
      invariant !growing ==> forall i :: 0 <= i < px.Length ==> px[i] <= start[i]
      invariant served <= |order|
      invariant rounds == 0 ==> px[..] == start
      invariant rounds <= 1 ==> px[..] == Served(start, order[..served], floor, growing)
      invariant rounds > 0 && OneRound(start, order, floor, total, growing) ==> rounds == 1 && error == 0
    {
      ghost var was := px[..];
      guard := guard - 1;
      var rest;
      rest, served := Pass(px, order, floor, error);
      ServedKeepsFloor(was, order[..served], floor, growing);
      if rest != 0 {
        assert order[..served] == order;
        RoundAdvances(was, order, total, floor, error, rest);
      }
      error, rounds := rest, rounds + 1;
    }
  }

  /** The rounding error is spent exactly, and fairly. */
  method DiscretizeSizes(sizes: seq<real>, total: int, min: nat) returns (r: seq<int>)
    ensures |r| == |sizes|
    ensures sizes != [] ==> Pixels(r) == total
    ensures sizes != [] ==> forall i :: 0 <= i < |r| ==> r[i] >= FloorFor(|sizes|, total, min)
    ensures sizes != [] && Pixels(Start(sizes, total, min)) < total ==> SmallestGrew(Start(sizes, total, min), r)
    ensures sizes != [] && Pixels(Start(sizes, total, min)) >= total ==>
      forall i :: 0 <= i < |r| ==> r[i] <= Start(sizes, total, min)[i]
    ensures sizes != [] && min == 0 <= total <= Pixels(Start(sizes, total, min)) ==>
      LargestShrank(Start(sizes, total, min), r)
    ensures min == 0 <= total ==> CloseToShares(r, sizes, total)
  {
    if sizes == [] {
      return [];
    }
    hide Served, Pixels, SmallestGrew, LargestShrank, CloseToShares, IsOrder, SharesFor;
    ghost var start := Start(sizes, total, min);
    var floor := FloorFor(|sizes|, total, min);
    var rounded := Rounded(SharesFor(sizes), total, floor);
    var px := new int[|sizes|](i requires 0 <= i < |rounded| => rounded[i]);
    assert px[..] == start;
    ghost var growing := total > Pixels(start);
    var order := SortFrom(0, rounded, total > Pixels(rounded));
    SortIsOrder(start, growing);
    ghost var rounds, served := HandOut(px, order, floor, total);
    r := px[..];
    FairlyServed(sizes, total, min, order, served, r);
  }

  lemma SortIsOrder(px: seq<int>, growing: bool)
    ensures IsOrder(SortFrom(0, px, growing), px, growing)
  {
  }

  lemma FairlyServed(sizes: seq<real>, total: int, min: nat, order: seq<nat>, served: nat, r: seq<int>)
    requires sizes != [] && served <= |order| && |r| == |sizes|
    requires IsOrder(order, Start(sizes, total, min), total > Pixels(Start(sizes, total, min)))
    requires
      var start, floor := Start(sizes, total, min), FloorFor(|sizes|, total, min);
      OneRound(start, order, floor, total, total > Pixels(start))
      ==> r == Served(start, order[..served], floor, total > Pixels(start))
    ensures Pixels(Start(sizes, total, min)) < total ==> SmallestGrew(Start(sizes, total, min), r)
    ensures min == 0 <= total <= Pixels(Start(sizes, total, min)) ==> LargestShrank(Start(sizes, total, min), r)
    ensures min == 0 <= total ==> CloseToShares(r, sizes, total)
  {
    hide Served, Pixels, CloseToShares, IsOrder, Start, FloorFor;
    var start := Start(sizes, total, min);
    var growing := total > Pixels(start);
    if growing {
      GrowthIsEnough(sizes, total, min, order);
    } else if min == 0 <= total {
      ShrinkingIsEnough(sizes, total, order);
    }
    ServedInOrder(start, order, served, FloorFor(|sizes|, total, min), growing);
    assert min == 0 ==> FloorFor(|sizes|, total, min) == 0 || total < 0;
    if min == 0 <= total {
      OnePixelAway(sizes, total, r);
    }
  }

  function Magnitude(x: int): nat {
    if x < 0 then -x else x
  }

  lemma GuardIsAmple(count: nat, error: nat)
    requires count > 0
    ensures error <= count * error + count
  {
  }

  lemma ServedKeepsFloor(px: seq<int>, order: seq<nat>, floor: int, growing: bool)
    requires InRange(order, |px|) && forall i :: 0 <= i < |px| ==> px[i] >= floor
    ensures forall i :: 0 <= i < |px| ==> Served(px, order, floor, growing)[i] >= floor
    ensures !growing ==> forall i :: 0 <= i < |px| ==> Served(px, order, floor, growing)[i] <= px[i]
  {
  }
}
