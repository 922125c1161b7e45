/** The sync-block filter over any sequence of calls, aborts between them included. */
module SyncRuns {
  import opened Prelude
  import opened SyncMarks
  import opened SyncModel
  import opened SyncProofs

  datatype Call = Data(input: seq<Cell>) | AbortBlock

  function OnCall(f: Filter, call: Call): Result {
    match call
    case Data(input) => Process(f, input)
    case AbortBlock => Abort(f)
  }

  function AllInput(calls: seq<Call>): seq<Cell> {
    if calls == [] then []
    else (if calls[0].Data? then calls[0].input else []) + AllInput(calls[1..])
  }

  /** Everything emitted, and the filter at the end. */
  function Run(f: Filter, calls: seq<Call>): Result
    decreases |calls|
  {
    if calls == [] then Result([], f, false)
    else
      var r := OnCall(f, calls[0]);
      var rest := Run(r.filter, calls[1..]);
      Result(r.emitted + rest.emitted, rest.filter, r.overflowed || rest.overflowed)
  }

  lemma OnCallReady(f: Filter, call: Call)
    requires Ready(f)
    ensures Ready(OnCall(f, call).filter)
  {
    if call.Data? { ReadyAfter(f, call.input); }
  }

  /** The tokens a call completes, and where it leaves the parser. */
  function Read(p: Parser, call: Call): Scanned {
    if call.Data? then Scan(p, call.input) else Scanned([], p)
  }

  lemma OnCallParses(f: Filter, call: Call)
    requires Settled(f.parser)
    ensures OnCall(f, call).filter.parser == Read(f.parser, call).parser
  {
    if call.Data? {
      FeedParses(Begin(f), call.input);
      FinishKeepsCells(Feed(Begin(f), call.input));
    }
  }

  lemma ReadThenScan(p: Parser, calls: seq<Call>)
    requires calls != []
    ensures var first := Read(p, calls[0]);
            var rest := Scan(first.parser, AllInput(calls[1..]));
            Scan(p, AllInput(calls)) == Scanned(first.tokens + rest.tokens, rest.parser)
  {
    var more := AllInput(calls[1..]);
    if calls[0].Data? {
      ScanConcat(p, calls[0].input, more);
    } else {
      assert [] + more == more;
      assert [] + Scan(p, more).tokens == Scan(p, more).tokens;
    }
  }

  /** Where the parser stands depends on the bytes alone: not on how calls cut them, nor on aborts. */
  lemma {:induction false} ParserIgnoresCuts(f: Filter, calls: seq<Call>)
    requires Ready(f)
    ensures Run(f, calls).filter.parser == Scan(f.parser, AllInput(calls)).parser
    ensures Ready(Run(f, calls).filter)
    decreases |calls|
  {
    if calls != [] {
      OnCallReady(f, calls[0]);
      OnCallParses(f, calls[0]);
      ReadThenScan(f.parser, calls);
      hide OnCall, Scan, Ready;
      ParserIgnoresCuts(OnCall(f, calls[0]).filter, calls[1..]);
    }
  }

  lemma OnCallConserves(f: Filter, call: Call)
    requires Ready(f)
    ensures var r := OnCall(f, call);
            multiset(r.emitted) + multiset(r.filter.held)
            == multiset(f.held) + multiset(KeptAll(Read(f.parser, call).tokens))
  {
    if call.Data? { CallConserves(f, call.input); }
  }

  /**
   * No byte is lost or doubled: under any cutting into calls, any overflow and any abort, what was
   * emitted and what is held are, as multisets, what was held and what the whole input's tokens keep.
   */
  lemma {:induction false} RunConserves(f: Filter, calls: seq<Call>)
    requires Ready(f)
    ensures var r := Run(f, calls);
            multiset(r.emitted) + multiset(r.filter.held)
            == multiset(f.held) + multiset(KeptAll(Scan(f.parser, AllInput(calls)).tokens))
    decreases |calls|
  {
    if calls != [] {
      var r := OnCall(f, calls[0]);
      OnCallReady(f, calls[0]);
      OnCallParses(f, calls[0]);
      OnCallConserves(f, calls[0]);
      ReadThenScan(f.parser, calls);
      KeptConcat(Read(f.parser, calls[0]).tokens, Scan(r.filter.parser, AllInput(calls[1..])).tokens);
      hide OnCall, Scan, KeptAll, Read;
      RunConserves(r.filter, calls[1..]);
      Telescope(r.emitted, Run(r.filter, calls[1..]).emitted, multiset(f.held), multiset(r.filter.held),
                multiset(Run(f, calls).filter.held), KeptAll(Read(f.parser, calls[0]).tokens),
                KeptAll(Scan(r.filter.parser, AllInput(calls[1..])).tokens));
    }
  }

  lemma Telescope<T>(e1: seq<T>, e2: seq<T>, h0: multiset<T>, h1: multiset<T>, h2: multiset<T>, k1: seq<T>, k2: seq<T>)
    requires multiset(e1) + h1 == h0 + multiset(k1)
    requires multiset(e2) + h2 == h1 + multiset(k2)
    ensures multiset(e1 + e2) + h2 == h0 + multiset(k1 + k2)
  {
    calc {
      multiset(e1 + e2) + h2;
      multiset(e1) + (multiset(e2) + h2);
      (multiset(e1) + h1) + multiset(k2);
      h0 + (multiset(k1) + multiset(k2));
    }
  }

  /** A call that keeps order: an abort, a single byte, or no overflow and nothing overtaking a held block. */
  ghost predicate Orderly(f: Filter, call: Call) {
    match call
    case AbortBlock => true
    case Data(input) =>
      || |input| == 1
      || (!Process(f, input).overflowed && NoOvertaking(f.open, f.held != [], Scan(f.parser, input).tokens))
  }

  ghost predicate AllOrderly(f: Filter, calls: seq<Call>)
    decreases |calls|
  {
    calls != [] ==> Orderly(f, calls[0]) && AllOrderly(OnCall(f, calls[0]).filter, calls[1..])
  }

  lemma OnCallInOrder(f: Filter, call: Call)
    requires Ready(f) && Orderly(f, call)
    ensures var r := OnCall(f, call);
            r.emitted + r.filter.held == f.held + KeptAll(Read(f.parser, call).tokens)
  {
    match call
    case Data(input) =>
      if |input| == 1 {
        OneByteInOrder(f, input[0]);
        assert [input[0]] == input;
      } else {
        CallInOrder(f, input);
      }
    case AbortBlock =>
  }

  /** If every call is orderly, the viewer gets the input with its markers erased, in order, to the byte. */
  lemma {:induction false} RunInOrder(f: Filter, calls: seq<Call>)
    requires Ready(f) && AllOrderly(f, calls)
    ensures var r := Run(f, calls);
            r.emitted + r.filter.held == f.held + KeptAll(Scan(f.parser, AllInput(calls)).tokens)
    decreases |calls|
  {
    if calls == [] {
      assert [] + f.held == f.held + [];
    } else {
      var r := OnCall(f, calls[0]);
      var rest := Run(r.filter, calls[1..]);
      OnCallReady(f, calls[0]);
      OnCallParses(f, calls[0]);
      OnCallInOrder(f, calls[0]);
      ReadThenScan(f.parser, calls);
      var kept := KeptAll(Read(f.parser, calls[0]).tokens);
      var more := KeptAll(Scan(r.filter.parser, AllInput(calls[1..])).tokens);
      KeptConcat(Read(f.parser, calls[0]).tokens, Scan(r.filter.parser, AllInput(calls[1..])).tokens);
      RunInOrder(r.filter, calls[1..]);
      hide OnCall, Scan, KeptAll, Read, Orderly;
      Associate(r.emitted, rest.emitted, rest.filter.held);
      Associate(r.emitted, r.filter.held, more);
      Associate(f.held, kept, more);
    }
  }

  lemma {:induction false} BytewiseIsOrderly(f: Filter, calls: seq<Call>)
    requires forall c <- calls :: c.AbortBlock? || |c.input| == 1
    ensures AllOrderly(f, calls)
    decreases |calls|
  {
    if calls != [] { BytewiseIsOrderly(OnCall(f, calls[0]).filter, calls[1..]); }
  }

  function Tokens(calls: seq<Call>): seq<Token> { Scan(FRESH.parser, AllInput(calls)).tokens }

  /**
   * The tokens of a whole run are its input, cut up; a token is dropped exactly when its bytes are a marker,
   * and what is kept as text is no ESC.
   */
  lemma TokensCoverTheInput(calls: seq<Call>)
    ensures AllInput(calls) == RawAll(Tokens(calls)) + Run(FRESH, calls).filter.parser.control
    ensures forall t <- Tokens(calls) :: MarkersExact(t) && ErasesMarks(t)
  {
    TokensEraseMarks(FRESH.parser, AllInput(calls));
    ParserIgnoresCuts(FRESH, calls);
    TokensAreTheInput(FRESH.parser, AllInput(calls));
    TokensAreExact(FRESH.parser, AllInput(calls));
    assert [] + AllInput(calls) == AllInput(calls);
  }

  /**
   * The meaning of the filter, from a fresh start: emitted and held block are, as a multiset, the
   * input without its markers and its unfinished sequence, under any calls, overflows and aborts.
   */
  lemma FilterLosesNothing(calls: seq<Call>)
    ensures var r := Run(FRESH, calls);
            multiset(r.emitted) + multiset(r.filter.held) == multiset(Unmarked(Tokens(calls)))
  {
    RunConserves(FRESH, calls);
    KeptAreUnmarked(calls);
  }

  lemma KeptAreUnmarked(calls: seq<Call>)
    ensures KeptAll(Tokens(calls)) == Unmarked(Tokens(calls))
  {
    TokensEraseMarks(FRESH.parser, AllInput(calls));
    KeptIsUnmarked(Tokens(calls));
  }

  /** And they are it byte for byte, in stream order, when each call is orderly, as single bytes always are. */
  lemma FilterKeepsOrder(calls: seq<Call>)
    requires AllOrderly(FRESH, calls) || forall c <- calls :: c.AbortBlock? || |c.input| == 1
    ensures Run(FRESH, calls).emitted + Run(FRESH, calls).filter.held == Unmarked(Tokens(calls))
  {
    KeptAreUnmarked(calls);
    if !AllOrderly(FRESH, calls) { BytewiseIsOrderly(FRESH, calls); }
    RunInOrder(FRESH, calls);
    assert FRESH.held + KeptAll(Tokens(calls)) == KeptAll(Tokens(calls));
  }

  // ───── An input it reorders ─────

  const A: Cell := Cell(0x41, 0)
  const X: Cell := Cell(0x58, 9)

  /** ESC [ ? 2026 l, at places 1 to 8 of the stream. */
  function EndMark(): seq<Cell> {
    seq(8, i requires 0 <= i < 8 => Cell(END_MARK[i], i + 1))
  }

  lemma EndMarkParses()
    ensures Scan(Parser(Ground, []), EndMark() + [X]).tokens == [End(EndMark()), Text(X)]
  {
    assert Bytes(EndMark()) == END_MARK;
    MarksDiffer();
    MarkIsErased(EndMark(), [X]);
    assert [X][1..] == [];
    assert Scan(Parser(Ground, []), [X]).tokens == [Text(X)] + Scan(Parser(Ground, []), []).tokens;
  }

  lemma EndThenTextOvertakes()
    ensures var tokens := [End(EndMark()), Text(X)];
            KeptAll(tokens) == [X] && !NoOvertaking(true, true, tokens)
  {
    var tokens := [End(EndMark()), Text(X)];
    assert tokens[1..] == [Text(X)] && [Text(X)][1..] == [];
    assert KeptAll([Text(X)]) == [X] + [];
    assert KeptAll(tokens) == [] + KeptAll([Text(X)]);
  }

  /** A block holds `A`; one read brings its end marker and `X`. The viewer gets X before A. */
  lemma EndThenTextReorders()
    ensures var f := Filter(Parser(Ground, []), [A], true);
            var r := Process(f, EndMark() + [X]);
            var kept := f.held + KeptAll(Scan(f.parser, EndMark() + [X]).tokens);
            kept == [A, X] && r.emitted + r.filter.held != kept
  {
    var f := Filter(Parser(Ground, []), [A], true);
    EndMarkParses();
    var tokens := [End(EndMark()), Text(X)];
    EndThenTextOvertakes();
    hide KeptAll, NoOvertaking;
    ShortCallFits(Begin(f), EndMark() + [X]);
    CallInOrderIff(f, EndMark() + [X]);
  }

  /** A call short of the limit cannot overflow. */
  lemma {:induction false} ShortCallFits(a: Acc, input: seq<Cell>)
    requires Settled(a.parser) && !a.overflowed
    requires |a.Out()| + |a.parser.control| + |input| <= MAX_SYNC_BUFFER_BYTES
    ensures !Feed(a, input).overflowed
    decreases |input|
  {
    if input != [] {
      var r := ParseByte(a.parser, input[0]);
      ParsedIsLone(a.parser, input[0]);
      ParseByteKeepsInput(a.parser, input[0]);
      TakeHolds(a, r);
      TakeKeepsOne(a, r);
      LoneKept(r);
      assert |multiset(Take(a, r).Out())| == |Take(a, r).Out()|;
      assert |multiset(a.Out()) + multiset(KeptAll(r.token))| == |a.Out()| + |KeptAll(r.token)|;
      hide ParseByte, Take, KeptAll, RawAll;
      ShortCallFits(FeedByte(a, input[0]), input[1..]);
    }
  }
}
