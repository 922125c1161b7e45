/**
 * Exactly which calls keep the stream in order, overflow included (packages/server/src/sync-block.ts:84-277).
 * Text waits in its own buffer until a control sequence is shown; a block let go at its limit passes it.
 */
module SyncOrder {
  import opened Prelude
  import opened SyncMarks
  import opened SyncModel
  import opened SyncProofs
  import opened SyncRuns

  /** The block is past 512 KiB. */
  predicate Bursts(a: Acc) { a.open && |a.sync| > 524288 }

  /**
   * A byte's token keeps its place: in an open block, unless text that is later in the stream than the block
   * waits; as text, unless it would join text that is earlier than a held block; as a control sequence, unless
   * a block is held. `late` says that the waiting text is later than the block.
   */
  predicate Fits(a: Acc, late: bool, r: Parsed) {
    Shows(r) ==>
      if a.open then !late
      else if r.token[0].Text? then a.sync + a.syncText == [] || late || a.visibleText == []
      else a.sync + a.syncText == []
  }

  predicate LateAfter(a: Acc, late: bool, r: Parsed) {
    late || (Shows(r) && r.token[0].Text? && !a.open && a.sync + a.syncText != [])
  }

  /**
   * Every token keeps its place, no block that bursts passes earlier text, and the only text that is shown
   * ahead of an earlier block is text that the burst of that block puts behind it again.
   */
  predicate StaysInOrder(a: Acc, late: bool, input: seq<Cell>)
    decreases |input|
  {
    if input == [] then !late
    else
      var r := ParseByte(a.parser, input[0]);
      var b := Take(a, r);
      && Fits(a, late, r)
      && if Bursts(b) then (LateAfter(a, late, r) || b.visibleText == []) && StaysInOrder(Guard(b), false, input[1..])
         else StaysInOrder(Guard(b), LateAfter(a, late, r), input[1..])
  }

  // ───── Three lanes ─────

  /** What is shown for good, the text that waits, and the block. */
  datatype Lanes = Lanes(shown: seq<Cell>, waiting: seq<Cell>, held: seq<Cell>)
  {
    function All(): seq<Cell> { shown + waiting + held }

    function Hold(cells: seq<Cell>): Lanes { this.(held := held + cells) }

    function Wait(cells: seq<Cell>): Lanes { this.(waiting := waiting + cells) }

    function Show(cells: seq<Cell>): Lanes { Lanes(shown + waiting + cells, [], held) }

    function Spill(): Lanes { Lanes(shown + held, waiting, []) }
  }

  function LanesOf(a: Acc): Lanes { Lanes(a.visible, a.visibleText, a.sync + a.syncText) }

  lemma LanesAreOut(a: Acc)
    ensures LanesOf(a).All() == a.Out()
  {
    Associate(a.visible + a.visibleText, a.sync, a.syncText);
  }

  lemma TakeMovesLanes(a: Acc, r: Parsed)
    requires Lone(r)
    ensures
      var l, kept := LanesOf(a), KeptAll(r.token);
      LanesOf(Take(a, r)) == if !Shows(r) then l
                             else if a.open then l.Hold(kept)
                             else if r.token[0].Text? then l.Wait(kept)
                             else l.Show(kept)
  {
    if r.token != [] {
      assert r.token == [r.token[0]];
      OneKept(r.token[0]);
      Associate(a.sync, a.syncText, KeptAll(r.token));
    }
    if Shows(r) && a.open && r.token[0].Control? {
      NothingAdded(a.sync + a.syncText + KeptAll(r.token));
    }
  }

  lemma GuardMovesLanes(a: Acc)
    ensures LanesOf(Guard(a)) == if Bursts(a) then LanesOf(a).Spill() else LanesOf(a)
  {
    Associate(a.visible, a.sync, a.syncText);
  }

  // ───── Order of joined sequences ─────

  lemma AscendingJoin(x: seq<Cell>, y: seq<Cell>)
    ensures Ascending(x + y) <==> Ascending(x) && Ascending(y) && Before(x, y)
  {
    var z := x + y;
    if Ascending(z) {
      assert forall i, j :: 0 <= i < j < |x| ==> x[i] == z[i] && x[j] == z[j];
      forall i, j | 0 <= i < j < |y| ensures y[i].at < y[j].at {
        assert z[|x| + i] == y[i] && z[|x| + j] == y[j];
      }
      forall i, j | 0 <= i < |x| && 0 <= j < |y| ensures x[i].at < y[j].at {
        assert z[i] == x[i] && z[|x| + j] == y[j];
      }
    }
  }

  lemma BeforeJoin(x: seq<Cell>, y: seq<Cell>, z: seq<Cell>)
    ensures Before(x + y, z) <==> Before(x, z) && Before(y, z)
    ensures Before(z, x + y) <==> Before(z, x) && Before(z, y)
  {
    forall i | 0 <= i < |y| ensures (x + y)[|x| + i] == y[i] {
    }
    if Before(x + y, z) {
      forall i, j | 0 <= i < |x| && 0 <= j < |z| ensures x[i].at < z[j].at {
        assert (x + y)[i] == x[i];
      }
    }
    if Before(z, x + y) {
      forall i, j | 0 <= i < |z| && 0 <= j < |x| ensures z[i].at < x[j].at {
        assert (x + y)[j] == x[j];
      }
    }
  }

  lemma NotBothWays(x: seq<Cell>, y: seq<Cell>)
    requires x != [] && y != []
    ensures !(Before(x, y) && Before(y, x))
  {
    if Before(x, y) {
      assert x[0].at < y[0].at;
    }
  }

  // ───── Lanes in order, and lanes past mending ─────

  /** Each lane ascends, what is shown comes first, and the text is wholly behind the block or wholly ahead of it. */
  ghost predicate InLanes(l: Lanes, late: bool) {
    && Ascending(l.shown) && Ascending(l.waiting) && Ascending(l.held)
    && Before(l.shown, l.waiting) && Before(l.shown, l.held)
    && if late then l.waiting != [] && l.held != [] && Before(l.held, l.waiting) else Before(l.waiting, l.held)
  }

  /** Something shown is too late, or the waiting text is partly ahead of the block and partly behind it. */
  ghost predicate Doomed(l: Lanes) {
    || !Ascending(l.shown) || !Before(l.shown, l.waiting) || !Before(l.shown, l.held)
    || (!Before(l.waiting, l.held) && !Before(l.held, l.waiting))
  }

  lemma LanesDecide(l: Lanes, late: bool)
    ensures InLanes(l, late) ==> (Ascending(l.All()) <==> !late)
    ensures Doomed(l) ==> !Ascending(l.All())
  {
    hide Ascending, Before;
    AscendingJoin(l.shown, l.waiting);
    AscendingJoin(l.shown + l.waiting, l.held);
    BeforeJoin(l.shown, l.waiting, l.held);
    if l.waiting != [] && l.held != [] {
      NotBothWays(l.waiting, l.held);
    }
  }

  lemma HoldDecides(l: Lanes, late: bool, cells: seq<Cell>)
    requires InLanes(l, late) && cells != [] && Ascending(cells) && Before(l.All(), cells)
    ensures !late ==> InLanes(l.Hold(cells), false)
    ensures late ==> Doomed(l.Hold(cells))
  {
    hide Ascending, Before;
    BeforeJoin(l.shown + l.waiting, l.held, cells);
    BeforeJoin(l.shown, l.waiting, cells);
    AscendingJoin(l.held, cells);
    BeforeJoin(l.held, cells, l.shown);
    BeforeJoin(l.held, cells, l.waiting);
    if late {
      NotBothWays(l.waiting, l.held);
      NotBothWays(l.waiting, cells);
    }
  }

  lemma WaitDecides(l: Lanes, late: bool, cells: seq<Cell>)
    requires InLanes(l, late) && cells != [] && Ascending(cells) && Before(l.All(), cells)
    ensures l.held == [] || late || l.waiting == [] ==> InLanes(l.Wait(cells), late || l.held != [])
    ensures !(l.held == [] || late || l.waiting == []) ==> Doomed(l.Wait(cells))
  {
    hide Ascending, Before;
    BeforeJoin(l.shown + l.waiting, l.held, cells);
    BeforeJoin(l.shown, l.waiting, cells);
    AscendingJoin(l.waiting, cells);
    BeforeJoin(l.waiting, cells, l.shown);
    BeforeJoin(l.waiting, cells, l.held);
    if l.held == [] {
      NothingIsBefore(cells);
    } else if l.waiting == [] {
      NothingIsBefore(l.held);
    } else {
      NotBothWays(l.waiting, l.held);
      NotBothWays(l.held, cells);
    }
  }

  lemma NothingIsBefore(x: seq<Cell>)
    ensures Before([], x) && Before(x, []) && Ascending([])
  {
  }

  lemma ShowDecides(l: Lanes, late: bool, cells: seq<Cell>)
    requires InLanes(l, late) && cells != [] && Ascending(cells) && Before(l.All(), cells)
    ensures l.held == [] ==> InLanes(l.Show(cells), false)
    ensures l.held != [] ==> Doomed(l.Show(cells))
  {
    hide Ascending, Before;
    BeforeJoin(l.shown + l.waiting, l.held, cells);
    AscendingJoin(l.shown, l.waiting);
    AscendingJoin(l.shown + l.waiting, cells);
    BeforeJoin(l.shown + l.waiting, cells, l.held);
    NothingIsBefore(l.shown + l.waiting + cells);
    NothingIsBefore(l.held);
    if l.held != [] {
      NotBothWays(l.held, cells);
    }
  }

  lemma SpillDecides(l: Lanes, late: bool)
    requires InLanes(l, late) && l.held != []
    ensures late || l.waiting == [] ==> InLanes(l.Spill(), false)
    ensures !(late || l.waiting == []) ==> Doomed(l.Spill())
  {
    hide Ascending, Before;
    AscendingJoin(l.shown, l.held);
    BeforeJoin(l.shown, l.held, l.waiting);
    NothingIsBefore(l.shown + l.held);
    NothingIsBefore(l.waiting);
    NothingIsBefore(l.held);
    if l.waiting != [] {
      NotBothWays(l.waiting, l.held);
    }
  }

  /** Nothing mends a doomed order. */
  lemma DoomedStays(l: Lanes, cells: seq<Cell>)
    requires Doomed(l)
    ensures Doomed(l.Hold(cells)) && Doomed(l.Wait(cells)) && Doomed(l.Show(cells)) && Doomed(l.Spill())
  {
    hide Ascending, Before;
    BeforeJoin(l.held, cells, l.shown);
    BeforeJoin(l.held, cells, l.waiting);
    BeforeJoin(l.waiting, cells, l.shown);
    BeforeJoin(l.waiting, cells, l.held);
    AscendingJoin(l.shown, l.waiting);
    AscendingJoin(l.shown + l.waiting, cells);
    BeforeJoin(l.shown + l.waiting, cells, l.held);
    BeforeJoin(l.shown, l.waiting, l.held);
    AscendingJoin(l.shown, l.held);
    BeforeJoin(l.shown, l.held, l.waiting);
  }

  // ───── One byte ─────

  lemma KeptOfShown(r: Parsed)
    requires Lone(r)
    ensures Shows(r) ==> KeptAll(r.token) != [] && KeptAll(r.token) == RawAll(r.token)
  {
    LoneKept(r);
    if Shows(r) {
      assert r.token == [r.token[0]] && Solid(r.token[0]);
      OneKept(r.token[0]);
    }
  }

  lemma TakeDecides(a: Acc, late: bool, r: Parsed)
    requires Lone(r) && InLanes(LanesOf(a), late)
    requires Before(a.Out(), RawAll(r.token)) && Ascending(RawAll(r.token))
    ensures Fits(a, late, r) ==> InLanes(LanesOf(Take(a, r)), LateAfter(a, late, r))
    ensures !Fits(a, late, r) ==> Doomed(LanesOf(Take(a, r)))
  {
    hide Ascending, Before, Lone, Take, InLanes, Doomed, KeptAll, RawAll;
    KeptOfShown(r);
    TakeMovesLanes(a, r);
    LanesAreOut(a);
    if Shows(r) {
      var kept := KeptAll(r.token);
      HoldDecides(LanesOf(a), late, kept);
      WaitDecides(LanesOf(a), late, kept);
      ShowDecides(LanesOf(a), late, kept);
      ShownIsNotLate(LanesOf(a), late);
    }
  }

  lemma ShownIsNotLate(l: Lanes, late: bool)
    requires InLanes(l, late)
    ensures l.held == [] ==> !late
  {
  }

  lemma DoomedByte(a: Acc, c: Cell)
    requires Doomed(LanesOf(a))
    ensures Doomed(LanesOf(FeedByte(a, c)))
  {
    hide Take, Guard, Doomed, ParseByte, Lone;
    var r := ParseByte(a.parser, c);
    ParsedIsLone(a.parser, c);
    TakeMovesLanes(a, r);
    GuardMovesLanes(Take(a, r));
    DoomedStays(LanesOf(a), KeptAll(r.token));
    DoomedStays(LanesOf(Take(a, r)), []);
  }

  lemma {:induction false} FeedStaysDoomed(a: Acc, input: seq<Cell>)
    requires Doomed(LanesOf(a))
    ensures Doomed(LanesOf(Feed(a, input)))
    decreases |input|
  {
    hide FeedByte, Doomed, LanesOf;
    if input != [] {
      DoomedByte(a, input[0]);
      FeedStaysDoomed(FeedByte(a, input[0]), input[1..]);
    }
  }

  lemma GuardStaysBefore(a: Acc, rest: seq<Cell>)
    requires Before(a.Out(), rest)
    ensures Before(Guard(a).Out(), rest)
  {
    GuardKeepsCells(a);
    var b := Guard(a);
    forall i, j | 0 <= i < |b.Out()| && 0 <= j < |rest| ensures b.Out()[i].at < rest[j].at {
      assert b.Out()[i] in multiset(b.Out());
      assert b.Out()[i] in a.Out();
    }
  }

  lemma GuardDecides(b: Acc, late: bool)
    requires InLanes(LanesOf(b), late)
    ensures Bursts(b) && (late || b.visibleText == []) ==> InLanes(LanesOf(Guard(b)), false)
    ensures Bursts(b) && !(late || b.visibleText == []) ==> Doomed(LanesOf(Guard(b)))
    ensures !Bursts(b) ==> InLanes(LanesOf(Guard(b)), late)
  {
    hide InLanes, Doomed, Guard;
    GuardMovesLanes(b);
    if Bursts(b) {
      assert |b.sync + b.syncText| > 0;
      SpillDecides(LanesOf(b), late);
    }
  }

  // ───── One call ─────

  lemma DoomedIsNotAscending(a: Acc)
    requires Doomed(LanesOf(a))
    ensures !Ascending(a.Out())
  {
    LanesDecide(LanesOf(a), false);
    LanesAreOut(a);
  }

  lemma {:induction false} FeedAscendsIff(a: Acc, late: bool, input: seq<Cell>)
    requires Settled(a.parser) && InLanes(LanesOf(a), late)
    requires Ascending(a.parser.control + input) && Before(a.Out(), a.parser.control + input)
    ensures Ascending(Feed(a, input).Out()) <==> StaysInOrder(a, late, input)
    decreases |input|
  {
    hide ParseByte, Take, Guard, Ascending, Before, InLanes, Doomed, Lone, Settled, RawAll, Shows, Fits, LateAfter,
         LanesOf, Acc.Out;
    if input == [] {
      LanesDecide(LanesOf(a), late);
      LanesAreOut(a);
    } else {
      var r, rest := ParseByte(a.parser, input[0]), input[1..];
      var b := Take(a, r);
      ParsedIsLone(a.parser, input[0]);
      ParseByteKeepsInput(a.parser, input[0]);
      InputSplits(a.parser, input);
      SplitBefore(RawAll(r.token), r.parser.control + rest, a.Out());
      AscendingJoin(RawAll(r.token), r.parser.control + rest);
      TakeHolds(a, r);
      TakeStaysBefore(a, r, r.parser.control + rest);
      TakeDecides(a, late, r);
      ByteAscendsIff(a, b, late, LateAfter(a, late, r), Fits(a, late, r), input);
    }
  }

  lemma ByteAscendsIff(a: Acc, b: Acc, late: bool, later: bool, fits: bool, input: seq<Cell>)
    requires input != [] && b == Take(a, ParseByte(a.parser, input[0])) && Settled(b.parser)
    requires later == LateAfter(a, late, ParseByte(a.parser, input[0]))
    requires fits == Fits(a, late, ParseByte(a.parser, input[0]))
    requires if fits then InLanes(LanesOf(b), later) else Doomed(LanesOf(b))
    requires Ascending(b.parser.control + input[1..]) && Before(b.Out(), b.parser.control + input[1..])
    ensures Ascending(Feed(a, input).Out()) <==> StaysInOrder(a, late, input)
    decreases |input|, 0
  {
    hide ParseByte, Take, Guard, Ascending, Before, InLanes, Doomed, Settled, Fits, LateAfter, LanesOf, Acc.Out;
    var g, rest := Guard(b), input[1..];
    GuardKeepsCells(b);
    GuardStaysBefore(b, b.parser.control + rest);
    assert g == FeedByte(a, input[0]) && Feed(a, input) == Feed(g, rest);
    if fits {
      GuardDecides(b, later);
      var next := later && !Bursts(b);
      if Bursts(b) && !(later || b.visibleText == []) {
        FeedStaysDoomed(g, rest);
        DoomedIsNotAscending(Feed(g, rest));
      } else {
        FeedAscendsIff(g, next, rest);
      }
    } else {
      GuardMovesLanes(b);
      DoomedStays(LanesOf(b), []);
      FeedStaysDoomed(g, rest);
      DoomedIsNotAscending(Feed(g, rest));
    }
  }

  lemma SameFirst(x: seq<Cell>, y: seq<Cell>)
    requires Ascending(x) && Ascending(y) && multiset(x) == multiset(y) && x != [] && y != []
    ensures x[0] == y[0]
  {
    assert x[0] in multiset(y) && y[0] in multiset(x);
    var i :| 0 <= i < |y| && y[i] == x[0];
    var j :| 0 <= j < |x| && x[j] == y[0];
    assert y[0].at <= y[i].at && x[0].at <= x[j].at;
    assert i == 0;
  }

  lemma TailCounts(x: seq<Cell>)
    requires x != []
    ensures multiset(x) == multiset{x[0]} + multiset(x[1..]) && x == [x[0]] + x[1..]
  {
    assert x == [x[0]] + x[1..];
    CountTogether([x[0]], x[1..]);
  }

  lemma TailAscends(x: seq<Cell>)
    requires Ascending(x) && x != []
    ensures Ascending(x[1..])
  {
  }

  lemma SameCount(x: seq<Cell>, y: seq<Cell>)
    requires multiset(x) == multiset(y)
    ensures |x| == |y|
  {
    assert |multiset(x)| == |x| && |multiset(y)| == |y|;
  }

  lemma {:induction false} AscendingIsUnique(x: seq<Cell>, y: seq<Cell>)
    requires Ascending(x) && Ascending(y) && multiset(x) == multiset(y)
    ensures x == y
    decreases |x|
  {
    hide Ascending;
    SameCount(x, y);
    if x != [] {
      SameFirst(x, y);
      TailCounts(x);
      TailCounts(y);
      TailAscends(x);
      TailAscends(y);
      assert multiset(x[1..]) == multiset(x) - multiset{x[0]};
      assert multiset(y[1..]) == multiset(y) - multiset{y[0]};
      AscendingIsUnique(x[1..], y[1..]);
    }
  }

  /**
   * Exactly when a call keeps order, whether or not it overflows: what is emitted and held is what was held
   * and kept, in stream order, if and only if everything in it keeps its place.
   */
  lemma AnyCallInOrderIff(f: Filter, input: seq<Cell>)
    requires Ready(f)
    requires Ascending(f.held) && Ascending(f.parser.control + input) && Before(f.held, f.parser.control + input)
    ensures var r := Process(f, input);
            r.emitted + r.filter.held == f.held + KeptAll(Scan(f.parser, input).tokens)
            <==> StaysInOrder(Begin(f), false, input)
  {
    hide Feed, Finish, KeptAll, Scan, StaysInOrder, Ascending, Before, Settled;
    var r := Process(f, input);
    BeginsInLanes(f);
    ProcessKeepsCells(f, input);
    FeedAscendsIff(Begin(f), false, input);
    KeptAscends(f.parser, input, f.held);
    CallConserves(f, input);
    if Ascending(r.emitted + r.filter.held) {
      AscendingIsUnique(r.emitted + r.filter.held, f.held + KeptAll(Scan(f.parser, input).tokens));
    }
  }

  lemma BeginsInLanes(f: Filter)
    requires Ascending(f.held)
    ensures InLanes(LanesOf(Begin(f)), false) && Begin(f).Out() == f.held
  {
    assert f.held + [] == f.held;
  }

  // ───── Whole runs ─────

  ghost predicate AllInOrder(f: Filter, calls: seq<Call>)
    decreases |calls|
  {
    calls != [] ==>
      && (calls[0].Data? ==> StaysInOrder(Begin(f), false, calls[0].input))
      && AllInOrder(OnCall(f, calls[0]).filter, calls[1..])
  }

  /** The block stays in stream order whatever the call does. */
  lemma {:induction false} FeedHoldsAscending(a: Acc, input: seq<Cell>)
    requires Settled(a.parser) && Ascending(LanesOf(a).held)
    requires Ascending(a.parser.control + input) && Before(a.Out(), a.parser.control + input)
    ensures Ascending(LanesOf(Feed(a, input)).held)
    decreases |input|
  {
    hide ParseByte, Take, Guard, Ascending, Before, Lone, Settled, RawAll, KeptAll, Shows, LanesOf, Acc.Out;
    if input != [] {
      var r, rest := ParseByte(a.parser, input[0]), input[1..];
      ParsedIsLone(a.parser, input[0]);
      ParseByteKeepsInput(a.parser, input[0]);
      InputSplits(a.parser, input);
      SplitBefore(RawAll(r.token), r.parser.control + rest, a.Out());
      AscendingJoin(RawAll(r.token), r.parser.control + rest);
      TakeHolds(a, r);
      TakeStaysBefore(a, r, r.parser.control + rest);
      GuardKeepsCells(Take(a, r));
      GuardStaysBefore(Take(a, r), r.parser.control + rest);
      ByteHoldsAscending(a, r);
      FeedHoldsAscending(FeedByte(a, input[0]), rest);
    }
  }

  lemma ByteHoldsAscending(a: Acc, r: Parsed)
    requires Lone(r) && Ascending(LanesOf(a).held)
    requires Before(a.Out(), RawAll(r.token)) && Ascending(RawAll(r.token))
    ensures Ascending(LanesOf(Guard(Take(a, r))).held)
  {
    hide Take, Guard, Ascending, Before, Lone, RawAll, KeptAll;
    TakeMovesLanes(a, r);
    GuardMovesLanes(Take(a, r));
    KeptOfShown(r);
    LanesAreOut(a);
    BeforeJoin(LanesOf(a).shown + LanesOf(a).waiting, LanesOf(a).held, RawAll(r.token));
    AscendingJoin(LanesOf(a).held, RawAll(r.token));
    NothingIsBefore([]);
  }

  lemma MembersBefore(x: seq<Cell>, y: seq<Cell>, rest: seq<Cell>)
    requires multiset(x) == multiset(y) && Before(y, rest)
    ensures Before(x, rest)
  {
    forall i, j | 0 <= i < |x| && 0 <= j < |rest| ensures x[i].at < rest[j].at {
      assert x[i] in multiset(x);
      assert x[i] in y;
    }
  }

  /** After a call, whatever it did: all it emitted and holds is earlier than what follows, and the block ascends. */
  lemma CallLeavesRoom(f: Filter, call: Call, more: seq<Cell>)
    requires Ready(f) && Ascending(f.held)
    requires var input := if call.Data? then call.input else [];
      Ascending(f.parser.control + (input + more)) && Before(f.held, f.parser.control + (input + more))
    ensures var r := OnCall(f, call);
      && Ready(r.filter) && Ascending(r.filter.held)
      && Ascending(r.filter.parser.control + more)
      && Before(r.emitted + r.filter.held, r.filter.parser.control + more)
  {
    OnCallReady(f, call);
    if call.Data? {
      DataLeavesRoom(f, call.input, more);
    } else {
      assert [] + more == more;
      NothingIsBefore(f.parser.control + more);
      assert f.held + [] == f.held && [] + f.held == f.held;
    }
  }

  lemma DataLeavesRoom(f: Filter, input: seq<Cell>, more: seq<Cell>)
    requires Ready(f) && Ascending(f.held)
    requires Ascending(f.parser.control + (input + more)) && Before(f.held, f.parser.control + (input + more))
    ensures var r := Process(f, input);
      && Ascending(r.filter.held)
      && Ascending(r.filter.parser.control + more)
      && Before(r.emitted + r.filter.held, r.filter.parser.control + more)
  {
    hide Feed, Scan, KeptAll, RawAll, Ascending, Before, Process, Ready, Settled;
    var r, scanned := Process(f, input), Scan(f.parser, input);
    var raw, kept := RawAll(scanned.tokens), KeptAll(scanned.tokens);
    ReadySettles(f);
    TokensAreTheInput(f.parser, input);
    ProcessParses(f, input);
    Associate(f.parser.control, input, more);
    Associate(raw, scanned.parser.control, more);
    AscendingJoin(raw, scanned.parser.control + more);
    AscendingJoin(f.parser.control + input, more);
    BeforeJoin(f.parser.control + input, more, f.held);
    BeforeJoin(raw, scanned.parser.control + more, f.held);
    BeginsInLanes(f);
    FeedHoldsAscending(Begin(f), input);
    ProcessHolds(f, input);
    KeptIsRaw(scanned.tokens);
    KeptStaysBefore(kept, raw, scanned.parser.control + more);
    BeforeJoin(f.held, kept, scanned.parser.control + more);
    CallConserves(f, input);
    MembersBefore(r.emitted + r.filter.held, f.held + kept, scanned.parser.control + more);
  }

  lemma ReadySettles(f: Filter)
    requires Ready(f)
    ensures Settled(f.parser)
  {
  }

  lemma ProcessParses(f: Filter, input: seq<Cell>)
    requires Settled(f.parser)
    ensures Process(f, input).filter.parser == Scan(f.parser, input).parser
  {
    FeedParses(Begin(f), input);
    FinishKeepsCells(Feed(Begin(f), input));
  }

  lemma ProcessHolds(f: Filter, input: seq<Cell>)
    requires Ascending(LanesOf(Feed(Begin(f), input)).held)
    ensures Ascending(Process(f, input).filter.held)
  {
  }

  lemma KeptStaysBefore(kept: seq<Cell>, raw: seq<Cell>, rest: seq<Cell>)
    requires (forall x <- kept :: x in raw) && Before(raw, rest)
    ensures Before(kept, rest)
  {
    forall i, j | 0 <= i < |kept| && 0 <= j < |rest| ensures kept[i].at < rest[j].at {
      assert kept[i] in raw;
    }
  }

  /** A call's own verdict: in order exactly when its condition holds; an abort always is. */
  lemma OnCallInOrderIff(f: Filter, call: Call)
    requires Ready(f) && Ascending(f.held)
    requires var input := if call.Data? then call.input else [];
      Ascending(f.parser.control + input) && Before(f.held, f.parser.control + input)
    ensures var r := OnCall(f, call);
      r.emitted + r.filter.held == f.held + KeptAll(Read(f.parser, call).tokens)
      <==> (call.Data? ==> StaysInOrder(Begin(f), false, call.input))
  {
    hide StaysInOrder, Ascending, Before;
    if call.Data? {
      AnyCallInOrderIff(f, call.input);
    }
  }

  function InputOf(call: Call): seq<Cell> { if call.Data? then call.input else [] }

  /** What a run should come to: the block it began with and the cells its tokens keep. */
  function Wanted(f: Filter, calls: seq<Call>): seq<Cell> { f.held + KeptAll(Scan(f.parser, AllInput(calls)).tokens) }

  ghost predicate Following(f: Filter, input: seq<Cell>) {
    Ready(f) && Ascending(f.held) && Ascending(f.parser.control + input) && Before(f.held, f.parser.control + input)
  }

  lemma FollowingCall(f: Filter, call: Call, more: seq<Cell>)
    requires Following(f, InputOf(call) + more)
    ensures Following(f, InputOf(call)) && Following(OnCall(f, call).filter, more)
  {
    hide Ascending, Before, OnCall, Ready;
    var input, r := InputOf(call), OnCall(f, call);
    Associate(f.parser.control, input, more);
    AscendingJoin(f.parser.control + input, more);
    BeforeJoin(f.parser.control + input, more, f.held);
    CallLeavesRoom(f, call, more);
    BeforeJoin(r.emitted, r.filter.held, r.filter.parser.control + more);
  }

  lemma PartBefore(x: seq<Cell>, part: seq<Cell>, whole: seq<Cell>)
    requires Before(x, whole) && forall c <- part :: c in whole
    ensures Before(x, part)
  {
    forall i, j | 0 <= i < |x| && 0 <= j < |part| ensures x[i].at < part[j].at {
      assert part[j] in whole;
    }
  }

  /** What a first call puts out of place stays out of place. */
  lemma DisorderLasts(f: Filter, calls: seq<Call>)
    requires calls != [] && Following(f, AllInput(calls))
    requires var r := Run(f, calls); r.emitted + r.filter.held == Wanted(f, calls)
    ensures var r := OnCall(f, calls[0]);
      r.emitted + r.filter.held == f.held + KeptAll(Read(f.parser, calls[0]).tokens)
  {
    hide Ascending, Before, OnCall, Ready, KeptAll, Scan;
    var r, rest := OnCall(f, calls[0]), Run(OnCall(f, calls[0]).filter, calls[1..]);
    var kept := KeptAll(Read(f.parser, calls[0]).tokens);
    var later := rest.emitted + rest.filter.held;
    FollowingCall(f, calls[0], AllInput(calls[1..]));
    ReadySettles(f);
    KeptAscends(f.parser, AllInput(calls), f.held);
    Associate(r.emitted, rest.emitted, rest.filter.held);
    AscendingJoin(r.emitted, later);
    RunConserves(r.filter, calls[1..]);
    HeldIsAmong(r.filter.held, later, KeptAll(Scan(r.filter.parser, AllInput(calls[1..])).tokens));
    PartBefore(r.emitted, r.filter.held, later);
    AscendingJoin(r.emitted, r.filter.held);
    OnCallConserves(f, calls[0]);
    ReadAscends(f, calls[0]);
    AscendingIsUnique(r.emitted + r.filter.held, f.held + kept);
  }

  lemma HeldIsAmong(held: seq<Cell>, later: seq<Cell>, kept: seq<Cell>)
    requires multiset(later) == multiset(held) + multiset(kept)
    ensures forall c <- held :: c in later
  {
    forall c <- held ensures c in later {
      assert c in multiset(later);
    }
  }

  lemma ReadAscends(f: Filter, call: Call)
    requires Following(f, InputOf(call))
    ensures Ascending(f.held + KeptAll(Read(f.parser, call).tokens))
  {
    if call.Data? {
      KeptAscends(f.parser, call.input, f.held);
    } else {
      NothingAdded(f.held);
    }
  }

  /**
   * Over any sequence of calls and aborts, overflows included: the viewer gets the input with its markers
   * erased, in order, to the byte, if and only if in every call everything keeps its place.
   */
  lemma {:induction false} RunInOrderIff(f: Filter, calls: seq<Call>)
    requires Following(f, AllInput(calls))
    ensures var r := Run(f, calls); r.emitted + r.filter.held == Wanted(f, calls) <==> AllInOrder(f, calls)
    decreases |calls|
  {
    if calls == [] {
      assert [] + f.held == f.held + [];
    } else {
      hide Ascending, Before, OnCall, Ready, KeptAll, Scan, StaysInOrder;
      var r, rest := OnCall(f, calls[0]), Run(OnCall(f, calls[0]).filter, calls[1..]);
      FollowingCall(f, calls[0], AllInput(calls[1..]));
      OnCallInOrderIff(f, calls[0]);
      if r.emitted + r.filter.held == f.held + KeptAll(Read(f.parser, calls[0]).tokens) {
        RunInOrderIff(r.filter, calls[1..]);
        WantedSplits(f, calls);
        Associate(r.emitted, rest.emitted, rest.filter.held);
        SamePrefix(r.emitted, rest.emitted + rest.filter.held, Wanted(r.filter, calls[1..]));
      } else if Run(f, calls).emitted + Run(f, calls).filter.held == Wanted(f, calls) {
        DisorderLasts(f, calls);
      }
    }
  }

  lemma SamePrefix(x: seq<Cell>, y: seq<Cell>, z: seq<Cell>)
    ensures x + y == x + z <==> y == z
  {
    assert (x + y)[|x|..] == y && (x + z)[|x|..] == z;
  }

  lemma WantedSplits(f: Filter, calls: seq<Call>)
    requires calls != [] && Ready(f)
    requires var r := OnCall(f, calls[0]);
      r.emitted + r.filter.held == f.held + KeptAll(Read(f.parser, calls[0]).tokens)
    ensures var r := OnCall(f, calls[0]); Wanted(f, calls) == r.emitted + Wanted(r.filter, calls[1..])
  {
    hide OnCall, KeptAll, Scan;
    var r := OnCall(f, calls[0]);
    var kept, more := KeptAll(Read(f.parser, calls[0]).tokens), KeptAll(Scan(r.filter.parser, AllInput(calls[1..])).tokens);
    OnCallParses(f, calls[0]);
    ReadThenScan(f.parser, calls);
    KeptConcat(Read(f.parser, calls[0]).tokens, Scan(r.filter.parser, AllInput(calls[1..])).tokens);
    Associate(f.held, kept, more);
    Associate(r.emitted, r.filter.held, more);
  }

  /** From a fresh start, on any input whatever. */
  lemma FilterKeepsOrderIff(calls: seq<Call>)
    requires Ascending(AllInput(calls))
    ensures Run(FRESH, calls).emitted + Run(FRESH, calls).filter.held == Unmarked(Tokens(calls)) <==> AllInOrder(FRESH, calls)
  {
    hide AllInOrder, Run;
    KeptAreUnmarked(calls);
    assert [] + AllInput(calls) == AllInput(calls);
    NothingIsBefore(AllInput(calls));
    RunInOrderIff(FRESH, calls);
    assert [] + KeptAll(Tokens(calls)) == KeptAll(Tokens(calls));
  }

  // ───── A burst that passes text ─────

  /** Pairs of ESC c. */
  predicate Resets(input: seq<Cell>) {
    |input| % 2 == 0 && forall i :: 0 <= i < |input| ==> input[i].b == if i % 2 == 0 then 0x1b else 0x63
  }

  lemma OneReset(a: Acc, input: seq<Cell>)
    requires a.parser == Parser(Ground, []) && a.open && a.syncText == [] && |a.sync| <= MAX_SYNC_BUFFER_BYTES
    requires Resets(input) && input != []
    ensures
      var b := a.(sync := a.sync + input[..2]);
      StaysInOrder(a, false, input) <==>
        if Bursts(b) then b.visibleText == [] && StaysInOrder(Guard(b), false, input[2..])
        else StaysInOrder(b, false, input[2..])
  {
    var c, d := input[0], input[1];
    var half := a.(parser := Parser(Esc, [c]));
    assert ParseByte(a.parser, c) == Parsed(half.parser, []);
    assert Take(a, ParseByte(a.parser, c)) == half && Guard(half) == half;
    assert [c] + [d] == [c, d];
    assert ParseByte(half.parser, d) == Parsed(Parser(Ground, []), [Control([c, d])]);
    assert a.sync + [] + [c, d] == a.sync + input[..2];
    assert Take(half, ParseByte(half.parser, d)) == a.(sync := a.sync + input[..2]);
    assert input[1..][0] == d && input[1..][1..] == input[2..];
  }

  /** Text waits while a block grows past its limit: the block passes it. */
  lemma {:induction false} LongBlockPassesText(a: Acc, input: seq<Cell>)
    requires a.parser == Parser(Ground, []) && a.open && a.syncText == [] && a.visibleText != []
    requires Resets(input) && |a.sync| <= MAX_SYNC_BUFFER_BYTES < |a.sync| + |input|
    ensures !StaysInOrder(a, false, input)
    decreases |input|
  {
    OneReset(a, input);
    var b := a.(sync := a.sync + input[..2]);
    if !Bursts(b) {
      LongBlockPassesText(b, input[2..]);
    }
  }

  lemma OneByteOn(a: Acc, c: Cell, rest: seq<Cell>)
    requires !a.open && a.sync == []
    requires var r := ParseByte(a.parser, c); r.token == [] || r.token[0].Start?
    ensures
      var r := ParseByte(a.parser, c);
      StaysInOrder(a, false, [c] + rest) ==> StaysInOrder(a.(parser := r.parser, open := r.token != []), false, rest)
  {
    hide ParseByte;
    assert ([c] + rest)[1..] == rest;
  }

  lemma {:induction false} OpenedByMark(a: Acc, mark: seq<Cell>, i: nat, rest: seq<Cell>)
    requires Bytes(mark) == START_MARK && i < 8 && !a.open && a.sync == [] && a.parser == Within(mark, i)
    ensures |mark| == 8
    ensures StaysInOrder(a, false, mark[i..] + rest) ==>
      StaysInOrder(a.(parser := Parser(Ground, []), open := true), false, rest)
    decreases 8 - i
  {
    hide ParseByte, StaysInOrder, Within;
    assert |Bytes(mark)| == 8;
    var more := mark[i + 1..] + rest;
    assert mark[i..] + rest == [mark[i]] + more;
    if i == 7 {
      WithinEnds(mark);
      OneByteOn(a, mark[7], rest);
      assert more == rest;
    } else {
      WithinStep(mark, i);
      OneByteOn(a, mark[i], more);
      OpenedByMark(a.(parser := Within(mark, i + 1)), mark, i + 1, rest);
    }
  }

  /**
   * One read brings `X`, opens a block, and fills it past its limit: the viewer gets the block before the X
   * that came first. Nothing was held when the read began.
   */
  lemma BurstReorders(mark: seq<Cell>, resets: seq<Cell>)
    requires Bytes(mark) == START_MARK && Resets(resets) && |resets| > MAX_SYNC_BUFFER_BYTES
    requires Ascending([X] + (mark + resets))
    ensures
      var r := Process(FRESH, [X] + (mark + resets));
      r.emitted + r.filter.held != KeptAll(Scan(FRESH.parser, [X] + (mark + resets)).tokens)
  {
    var input := [X] + (mark + resets);
    var a := Begin(FRESH).(visibleText := [X]);
    assert input[1..] == mark + resets && mark[0..] == mark && mark[..0] == [];
    assert ParseByte(FRESH.parser, X) == Parsed(FRESH.parser, [Text(X)]);
    assert [] + [X] == [X];
    assert Guard(Take(Begin(FRESH), ParseByte(FRESH.parser, X))) == a;
    OpenedByMark(a, mark, 0, resets);
    LongBlockPassesText(a.(open := true), resets);
    assert [] + input == input;
    NothingIsBefore(input);
    AnyCallInOrderIff(FRESH, input);
    assert FRESH.held + KeptAll(Scan(FRESH.parser, input).tokens) == KeptAll(Scan(FRESH.parser, input).tokens);
  }
}
