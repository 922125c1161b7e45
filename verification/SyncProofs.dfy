/** What the sync-block filter means: nothing lost, nothing doubled, and exactly when nothing moves. */
module SyncProofs {
  import opened Prelude
  import opened SyncModel

  // ───── Nothing lost, nothing doubled ─────

  lemma GuardKeepsCells(a: Acc)
    ensures multiset(Guard(a).Out()) == multiset(a.Out())
    ensures Guard(a).parser == a.parser
  {
    assert Guard(a).Out() == a.Out() || Guard(a).Out() == a.visible + a.sync + a.syncText + a.visibleText + [] + [];
  }

  lemma CountTogether(a: seq<Cell>, b: seq<Cell>)
    ensures multiset(a + b) == multiset(a) + multiset(b)
  {
  }

  lemma OutCounts(a: Acc)
    ensures multiset(a.Out()) == multiset(a.visible) + multiset(a.visibleText) + multiset(a.sync) + multiset(a.syncText)
  {
    CountTogether(a.visible, a.visibleText);
    CountTogether(a.visible + a.visibleText, a.sync);
    CountTogether(a.visible + a.visibleText + a.sync, a.syncText);
  }

  lemma TextCounts(a: Acc, c: Cell)
    ensures multiset(TakeToken(a, Text(c)).Out()) == multiset(a.Out()) + multiset([c])
  {
    hide Acc.Out;
    OutCounts(a);
    OutCounts(TakeToken(a, Text(c)));
    CountTogether(a.syncText, [c]);
    CountTogether(a.visibleText, [c]);
  }

  lemma ControlCounts(a: Acc, cells: seq<Cell>)
    ensures multiset(TakeToken(a, Control(cells)).Out()) == multiset(a.Out()) + multiset(cells)
  {
    hide Acc.Out;
    OutCounts(a);
    OutCounts(TakeToken(a, Control(cells)));
    CountTogether(a.sync, a.syncText);
    CountTogether(a.sync + a.syncText, cells);
    CountTogether(a.visible, a.visibleText);
    CountTogether(a.visible + a.visibleText, cells);
  }

  lemma TakeKeepsCells(a: Acc, t: Token)
    ensures multiset(TakeToken(a, t).Out()) == multiset(a.Out()) + multiset(t.Kept())
    ensures TakeToken(a, t).parser == a.parser
  {
    match t
    case Text(c) => TextCounts(a, c);
    case Control(cells) => ControlCounts(a, cells);
    case Start(_) =>
    case End(_) =>
  }

  lemma TakeKeepsOne(a: Acc, r: Parsed)
    requires |r.token| <= 1
    ensures multiset(Take(a, r).Out()) == multiset(a.Out()) + multiset(KeptAll(r.token))
    ensures Take(a, r).parser == r.parser
  {
    var a1 := a.(parser := r.parser);
    if r.token != [] {
      TakeKeepsCells(a1, r.token[0]);
      assert r.token[1..] == [] && KeptAll(r.token) == r.token[0].Kept() + [];
    }
  }

  lemma {:induction false} FeedParses(a: Acc, input: seq<Cell>)
    requires Settled(a.parser)
    ensures Feed(a, input).parser == Scan(a.parser, input).parser
    decreases |input|
  {
    if input != [] {
      ParseByteKeepsInput(a.parser, input[0]);
      TakeKeepsOne(a, ParseByte(a.parser, input[0]));
      GuardKeepsCells(Take(a, ParseByte(a.parser, input[0])));
      hide Take, ParseByte;
      FeedParses(FeedByte(a, input[0]), input[1..]);
    }
  }

  /** During a call, what is out and held are the cells there were, plus those the tokens keep. */
  lemma {:induction false} FeedKeepsCells(a: Acc, input: seq<Cell>)
    requires Settled(a.parser)
    ensures multiset(Feed(a, input).Out()) == multiset(a.Out()) + multiset(KeptAll(Scan(a.parser, input).tokens))
    decreases |input|
  {
    if input != [] {
      hide Take, ParseByte, Guard;
      var r := ParseByte(a.parser, input[0]);
      ParseByteKeepsInput(a.parser, input[0]);
      TakeKeepsOne(a, r);
      GuardKeepsCells(Take(a, r));
      KeptConcat(r.token, Scan(r.parser, input[1..]).tokens);
      FeedKeepsCells(FeedByte(a, input[0]), input[1..]);
      hide KeptAll;
    }
  }

  lemma FinishKeepsCells(a: Acc)
    ensures Finish(a).emitted + Finish(a).filter.held == a.Out()
    ensures Finish(a).filter.parser == a.parser
  {
    assert a.visible + a.visibleText + (a.sync + a.syncText) == a.Out();
    assert a.visible + a.visibleText + (a.sync + a.syncText) + [] == a.Out();
  }

  lemma ProcessKeepsCells(f: Filter, input: seq<Cell>)
    ensures Process(f, input).emitted + Process(f, input).filter.held == Feed(Begin(f), input).Out()
    ensures Begin(f).Out() == f.held
  {
    hide Feed, Finish;
    FinishKeepsCells(Feed(Begin(f), input));
  }

  /** One call, in any state: emitted and held are a rearrangement of held and kept. */
  lemma CallConserves(f: Filter, input: seq<Cell>)
    requires Settled(f.parser)
    ensures var r := Process(f, input);
            multiset(r.emitted + r.filter.held) == multiset(f.held + KeptAll(Scan(f.parser, input).tokens))
  {
    FeedKeepsCells(Begin(f), input);
    hide Process, Feed, Scan, KeptAll;
    ProcessKeepsCells(f, input);
    CountTogether(f.held, KeptAll(Scan(f.parser, input).tokens));
  }

  // ───── Nothing moved ─────

  /**
   * No text or control sequence goes to the viewer while a closed block of this call is still held:
   * `holding` says whether anything is held.
   */
  function NoOvertaking(open: bool, holding: bool, tokens: seq<Token>): bool
    decreases |tokens|
  {
    tokens != [] ==>
      match tokens[0]
      case Start(_) => NoOvertaking(true, holding, tokens[1..])
      case End(_) => NoOvertaking(false, holding, tokens[1..])
      case _ => if open then NoOvertaking(true, true, tokens[1..]) else !holding && NoOvertaking(false, false, tokens[1..])
  }

  ghost function Held(a: Acc): seq<Cell> { a.sync + a.syncText }

  ghost function Shown(a: Acc): seq<Cell> { a.visible + a.visibleText }

  /** Control tokens carry at least the bytes that opened them. */
  predicate Solid(t: Token) { t.Control? ==> t.cells != [] }

  /** At most one token, and a solid one. */
  predicate Lone(r: Parsed) { |r.token| <= 1 && forall t <- r.token :: Solid(t) }

  lemma ParsedIsLone(p: Parser, c: Cell)
    ensures Lone(ParseByte(p, c))
  {
  }

  /** The visible part of what a byte completed. */
  predicate Shows(r: Parsed) { r.token != [] && (r.token[0].Text? || r.token[0].Control?) }

  function OpenAfter(open: bool, r: Parsed): bool {
    if r.token != [] && r.token[0].Start? then true
    else if r.token != [] && r.token[0].End? then false
    else open
  }

  lemma TakeTokenInOrder(a: Acc, t: Token)
    requires (t.Text? || t.Control?) && !a.open ==> a.sync == [] && a.syncText == []
    ensures TakeToken(a, t).Out() == a.Out() + t.Kept()
  {
    match t
    case Text(c) =>
    case Control(cells) =>
    case Start(_) =>
    case End(_) =>
  }

  lemma TakeInOrder(a: Acc, r: Parsed)
    requires Lone(r) && (Shows(r) && !a.open ==> Held(a) == [])
    ensures Take(a, r).Out() == a.Out() + KeptAll(r.token)
  {
    if r.token == [] {
      NothingAdded(a.Out());
    } else {
      var t := r.token[0];
      OneKept(t);
      assert r.token == [t];
      assert Shows(r) && !a.open ==> a.sync == [] && a.syncText == [];
      hide TakeToken;
      TakeTokenInOrder(a.(parser := r.parser), t);
    }
  }

  lemma NothingAdded<T>(s: seq<T>)
    ensures s + [] == s
  {
  }

  lemma OneKept(t: Token)
    ensures KeptAll([t]) == t.Kept()
  {
    assert [t][1..] == [];
    NothingAdded(t.Kept());
  }

  lemma TakeHolds(a: Acc, r: Parsed)
    requires Lone(r)
    ensures var b := Take(a, r);
            && b.open == OpenAfter(a.open, r) && b.parser == r.parser && b.overflowed == a.overflowed
            && (Held(b) != [] <==> Held(a) != [] || (a.open && Shows(r)))
            && Shown(a) <= Shown(b) && Held(a) <= Held(b)
  {
    if r.token != [] { assert Solid(r.token[0]); }
  }

  lemma {:induction false} OverflowLasts(a: Acc, input: seq<Cell>)
    requires a.overflowed
    ensures Feed(a, input).overflowed
    decreases |input|
  {
    if input != [] {
      hide ParseByte;
      var b := Take(a, ParseByte(a.parser, input[0]));
      assert b.overflowed;
      OverflowLasts(Guard(b), input[1..]);
    }
  }

  /** In a call that does not overflow, no byte does. */
  lemma QuietRest(a: Acc, input: seq<Cell>)
    requires input != [] && !Feed(a, input).overflowed
    ensures !Feed(FeedByte(a, input[0]), input[1..]).overflowed
  {
  }

  /** So no byte finds the block too long. */
  lemma QuietByte(a: Acc, input: seq<Cell>)
    requires input != [] && !Feed(a, input).overflowed
    ensures FeedByte(a, input[0]) == Take(a, ParseByte(a.parser, input[0]))
  {
    hide ParseByte, Take;
    var b := Take(a, ParseByte(a.parser, input[0]));
    if Guard(b) != b { OverflowLasts(Guard(b), input[1..]); }
  }

  /** What the tokens of a byte and of the rest ask of the filter. */
  lemma NoOvertakingStep(open: bool, holding: bool, r: Parsed, tokens: seq<Token>)
    requires Lone(r)
    ensures NoOvertaking(open, holding, r.token + tokens) <==>
            && (Shows(r) && !open ==> !holding)
            && NoOvertaking(OpenAfter(open, r), holding || (open && Shows(r)), tokens)
  {
    if r.token == [] {
      assert r.token + tokens == tokens;
    } else {
      assert (r.token + tokens)[1..] == tokens && (r.token + tokens)[0] == r.token[0];
    }
  }

  /** A call in which nothing overtakes a held block, and that does not overflow, keeps every cell in its place. */
  lemma {:induction false} FeedInOrder(a: Acc, input: seq<Cell>)
    requires !Feed(a, input).overflowed
    requires NoOvertaking(a.open, Held(a) != [], Scan(a.parser, input).tokens)
    ensures Feed(a, input).Out() == a.Out() + KeptAll(Scan(a.parser, input).tokens)
    decreases |input|
  {
    if input == [] {
      assert a.Out() + [] == a.Out();
    } else {
      hide ParseByte, Take, NoOvertaking, Lone, Shows, KeptAll;
      var r := ParseByte(a.parser, input[0]);
      var tokens := Scan(r.parser, input[1..]).tokens;
      ParsedIsLone(a.parser, input[0]);
      QuietRest(a, input);
      QuietByte(a, input);
      NoOvertakingStep(a.open, Held(a) != [], r, tokens);
      TakeHolds(a, r);
      TakeInOrder(a, r);
      FeedInOrder(Take(a, r), input[1..]);
      KeptConcat(r.token, tokens);
      Associate(a.Out(), KeptAll(r.token), KeptAll(tokens));
    }
  }

  // ───── When something moves ─────

  /** `xs` all come before `ys` in the stream. */
  ghost predicate Before(xs: seq<Cell>, ys: seq<Cell>) {
    forall i, j :: 0 <= i < |xs| && 0 <= j < |ys| ==> xs[i].at < ys[j].at
  }

  ghost predicate Ascending(cells: seq<Cell>) {
    forall i, j :: 0 <= i < j < |cells| ==> cells[i].at < cells[j].at
  }

  /** A cell on its way out is later in the stream than one still held. */
  ghost predicate Crossed(a: Acc) {
    exists i, j :: 0 <= i < |Shown(a)| && 0 <= j < |Held(a)| && Shown(a)[i].at > Held(a)[j].at
  }

  lemma TakeStaysCrossed(a: Acc, r: Parsed)
    requires Crossed(a) && Lone(r)
    ensures Crossed(Take(a, r))
  {
    var b := Take(a, r);
    var i, j :| 0 <= i < |Shown(a)| && 0 <= j < |Held(a)| && Shown(a)[i].at > Held(a)[j].at;
    TakeHolds(a, r);
    assert Shown(b)[i] == Shown(a)[i] && Held(b)[j] == Held(a)[j];
  }

  lemma {:induction false} FeedStaysCrossed(a: Acc, input: seq<Cell>)
    requires Crossed(a) && !Feed(a, input).overflowed
    ensures Crossed(Feed(a, input))
    decreases |input|
  {
    if input != [] {
      hide ParseByte, Take, Crossed, Lone;
      ParsedIsLone(a.parser, input[0]);
      QuietRest(a, input);
      QuietByte(a, input);
      TakeStaysCrossed(a, ParseByte(a.parser, input[0]));
      FeedStaysCrossed(FeedByte(a, input[0]), input[1..]);
    }
  }

  lemma CrossedIsNotAscending(a: Acc)
    requires Crossed(a)
    ensures !Ascending(a.Out())
  {
    var i, j :| 0 <= i < |Shown(a)| && 0 <= j < |Held(a)| && Shown(a)[i].at > Held(a)[j].at;
    assert a.Out()[i] == Shown(a)[i] && a.Out()[|Shown(a)| + j] == Held(a)[j];
  }

  /** A visible token that overtakes the held block crosses it. */
  lemma TakeCrosses(a: Acc, r: Parsed)
    requires Lone(r) && Shows(r) && !a.open && Held(a) != []
    requires Before(a.Out(), RawAll(r.token))
    ensures Crossed(Take(a, r))
  {
    var b, t := Take(a, r), r.token[0];
    assert r.token[1..] == [] && RawAll(r.token) == t.Raw() + [];
    assert Solid(t);
    var k := |Shown(a)|;
    assert Shown(b)[k] == RawAll(r.token)[0] && Held(b) == Held(a);
    assert a.Out()[k] == Held(a)[0];
    assert a.Out()[k].at < RawAll(r.token)[0].at;
    assert Shown(b)[k].at > Held(b)[0].at;
  }

  lemma {:induction false} KeptIsRaw(tokens: seq<Token>)
    ensures forall x <- KeptAll(tokens) :: x in RawAll(tokens)
  {
    if tokens != [] { KeptIsRaw(tokens[1..]); }
  }

  lemma TakeStaysBefore(a: Acc, r: Parsed, rest: seq<Cell>)
    requires Lone(r) && Before(a.Out(), rest) && Before(RawAll(r.token), rest)
    ensures Before(Take(a, r).Out(), rest)
  {
    var b := Take(a, r);
    TakeKeepsOne(a, r);
    KeptIsRaw(r.token);
    forall i, j | 0 <= i < |b.Out()| && 0 <= j < |rest| ensures b.Out()[i].at < rest[j].at {
      var x := b.Out()[i];
      assert x in multiset(b.Out());
      assert x in multiset(a.Out()) || x in multiset(KeptAll(r.token));
      assert x in a.Out() || x in RawAll(r.token);
    }
  }

  lemma SplitBefore(head: seq<Cell>, rest: seq<Cell>, out: seq<Cell>)
    requires Ascending(head + rest) && Before(out, head + rest)
    ensures Before(head, rest) && Before(out, head) && Before(out, rest) && Ascending(rest)
  {
    forall i, j | 0 <= i < |head| && 0 <= j < |rest| ensures head[i].at < rest[j].at {
      assert (head + rest)[i] == head[i] && (head + rest)[|head| + j] == rest[j];
    }
    forall i, j | 0 <= i < j < |rest| ensures rest[i].at < rest[j].at {
      assert (head + rest)[|head| + i] == rest[i] && (head + rest)[|head| + j] == rest[j];
    }
    forall i, j | 0 <= i < |out| && 0 <= j < |head| ensures out[i].at < head[j].at {
      assert (head + rest)[j] == head[j];
    }
    forall i, j | 0 <= i < |out| && 0 <= j < |rest| ensures out[i].at < rest[j].at {
      assert (head + rest)[|head| + j] == rest[j];
    }
  }

  lemma {:induction false} FeedCrosses(a: Acc, input: seq<Cell>)
    requires Settled(a.parser) && !Feed(a, input).overflowed
    requires Ascending(a.parser.control + input) && Before(a.Out(), a.parser.control + input)
    requires !NoOvertaking(a.open, Held(a) != [], Scan(a.parser, input).tokens)
    ensures Crossed(Feed(a, input))
    decreases |input|
  {
    assert input != [];
    hide ParseByte, Take, FeedByte, Ascending, Before, Crossed, NoOvertaking, Lone, Settled, RawAll, Shows;
    var r := ParseByte(a.parser, input[0]);
    var raw, rest := RawAll(r.token), input[1..];
    ParseByteKeepsInput(a.parser, input[0]);
    ParsedIsLone(a.parser, input[0]);
    QuietRest(a, input);
    QuietByte(a, input);
    NoOvertakingStep(a.open, Held(a) != [], r, Scan(r.parser, rest).tokens);
    TakeHolds(a, r);
    InputSplits(a.parser, input);
    SplitBefore(raw, r.parser.control + rest, a.Out());
    if Shows(r) && !a.open && Held(a) != [] {
      TakeCrosses(a, r);
      FeedStaysCrossed(FeedByte(a, input[0]), rest);
    } else {
      TakeStaysBefore(a, r, r.parser.control + rest);
      FeedCrosses(FeedByte(a, input[0]), rest);
    }
    assert Feed(a, input) == Feed(FeedByte(a, input[0]), rest);
  }

  /** The kept cells are cells of the input, in its order. */
  lemma {:induction false} KeptAscends(p: Parser, input: seq<Cell>, out: seq<Cell>)
    requires Settled(p) && Ascending(out) && Ascending(p.control + input) && Before(out, p.control + input)
    ensures Ascending(out + KeptAll(Scan(p, input).tokens))
    decreases |input|
  {
    if input == [] {
      assert out + [] == out;
    } else {
      hide ParseByte, Ascending, Before, KeptAll, RawAll, Settled;
      var r := ParseByte(p, input[0]);
      var raw, kept, rest := RawAll(r.token), KeptAll(r.token), input[1..];
      var tokens := Scan(r.parser, rest).tokens;
      ParseByteKeepsInput(p, input[0]);
      InputSplits(p, input);
      SplitBefore(raw, r.parser.control + rest, out);
      LoneKept(r);
      KeptExtends(raw, kept, r.parser.control + rest, out);
      KeptAscends(r.parser, rest, out + kept);
      KeptConcat(r.token, tokens);
      Associate(out, kept, KeptAll(tokens));
    }
  }

  lemma KeptExtends(raw: seq<Cell>, kept: seq<Cell>, rest: seq<Cell>, out: seq<Cell>)
    requires kept == [] || kept == raw
    requires Ascending(out) && Ascending(raw + rest) && Before(out, raw) && Before(out, rest) && Before(raw, rest)
    ensures Ascending(out + kept) && Before(out + kept, rest)
  {
    if kept == [] {
      assert out + kept == out;
    } else {
      AscendingPrefix(raw, rest, out);
    }
  }

  lemma LoneKept(r: Parsed)
    requires |r.token| <= 1
    ensures KeptAll(r.token) == [] || KeptAll(r.token) == RawAll(r.token)
  {
    if r.token != [] {
      assert r.token[1..] == [];
      assert KeptAll(r.token) == r.token[0].Kept() + [] && RawAll(r.token) == r.token[0].Raw() + [];
    }
  }

  lemma AscendingPrefix(head: seq<Cell>, rest: seq<Cell>, out: seq<Cell>)
    requires Ascending(out) && Ascending(head + rest) && Before(out, head) && Before(out, rest) && Before(head, rest)
    ensures Ascending(out + head) && Before(out + head, rest)
  {
    forall i, j | 0 <= i < j < |head| ensures head[i].at < head[j].at {
      assert (head + rest)[i] == head[i] && (head + rest)[j] == head[j];
    }
  }

  /**
   * Exactly when order holds. For a call that does not overflow, what is emitted and held is what
   * was held and kept, in stream order, if and only if nothing in the call goes to the viewer
   * while a block closed in it is still held.
   */
  lemma CallInOrderIff(f: Filter, input: seq<Cell>)
    requires Ready(f) && !Process(f, input).overflowed
    requires Ascending(f.held) && Ascending(f.parser.control + input) && Before(f.held, f.parser.control + input)
    ensures var r := Process(f, input);
            var tokens := Scan(f.parser, input).tokens;
            r.emitted + r.filter.held == f.held + KeptAll(tokens) <==> NoOvertaking(f.open, f.held != [], tokens)
  {
    var a := Begin(f);
    FinishKeepsCells(Feed(a, input));
    assert a.Out() == f.held && Held(a) == f.held;
    if NoOvertaking(f.open, f.held != [], Scan(f.parser, input).tokens) {
      FeedInOrder(a, input);
    } else {
      FeedCrosses(a, input);
      CrossedIsNotAscending(Feed(a, input));
      KeptAscends(f.parser, input, f.held);
    }
  }

  lemma CallInOrder(f: Filter, input: seq<Cell>)
    requires Ready(f) && !Process(f, input).overflowed
    requires NoOvertaking(f.open, f.held != [], Scan(f.parser, input).tokens)
    ensures var r := Process(f, input);
            r.emitted + r.filter.held == f.held + KeptAll(Scan(f.parser, input).tokens)
  {
    FeedInOrder(Begin(f), input);
    FinishKeepsCells(Feed(Begin(f), input));
    assert Begin(f).Out() == f.held && Held(Begin(f)) == f.held;
  }

  /** One byte per call is always in order, overflow included. */
  lemma OneByteInOrder(f: Filter, c: Cell)
    requires Ready(f)
    ensures var r := Process(f, [c]);
            r.emitted + r.filter.held == f.held + KeptAll(Scan(f.parser, [c]).tokens)
  {
    var a := Begin(f);
    var r := ParseByte(f.parser, c);
    ParsedIsLone(f.parser, c);
    assert [c][1..] == [] && r.token + [] == r.token;
    assert Scan(r.parser, []).tokens == [];
    assert Feed(FeedByte(a, c), []) == FeedByte(a, c);
    assert Feed(a, [c]) == FeedByte(a, c);
    assert Scan(f.parser, [c]).tokens == r.token;
    hide ParseByte;
    FinishKeepsCells(FeedByte(a, c));
    assert a.Out() == f.held && Held(a) == f.held;
    TakeInOrder(a, r);
    var b := Take(a, r);
    if b.open && |b.sync| > MAX_SYNC_BUFFER_BYTES {
      assert b.visible + b.visibleText == [];
      assert Guard(b).Out() == b.Out();
    }
  }

  /** Until a call's first end marker, a closed filter holds nothing. */
  ghost predicate Tidy(a: Acc) { !a.open && !a.ended ==> Held(a) == [] }

  lemma {:induction false} FeedTidy(a: Acc, input: seq<Cell>)
    requires Tidy(a)
    ensures Tidy(Feed(a, input))
    decreases |input|
  {
    if input != [] {
      ParsedIsLone(a.parser, input[0]);
      TakeHolds(a, ParseByte(a.parser, input[0]));
      hide ParseByte;
      FeedTidy(FeedByte(a, input[0]), input[1..]);
    }
  }

  lemma ReadyAfter(f: Filter, input: seq<Cell>)
    requires Ready(f)
    ensures Ready(Process(f, input).filter)
  {
    FeedTidy(Begin(f), input);
    TokensAreExact(f.parser, input);
    FeedParses(Begin(f), input);
  }
}
