/**
 * What a call shows and what it holds back (packages/server/src/sync-block.ts:64-277): what lies outside blocks
 * is shown at once, a block when its end marker comes, when it is too long, or when it is aborted.
 */
module SyncHolds {
  import opened Prelude
  import opened SyncModel
  import opened SyncProofs
  import opened SyncOrder

  /** The cells that tokens keep while no block is open, and those they keep inside one. */
  function Outside(open: bool, tokens: seq<Token>): seq<Cell>
    decreases |tokens|
  {
    if tokens == [] then []
    else match tokens[0]
      case Start(_) => Outside(true, tokens[1..])
      case End(_) => Outside(false, tokens[1..])
      case t => (if open then [] else t.Kept()) + Outside(open, tokens[1..])
  }

  function Inside(open: bool, tokens: seq<Token>): seq<Cell>
    decreases |tokens|
  {
    if tokens == [] then []
    else match tokens[0]
      case Start(_) => Inside(true, tokens[1..])
      case End(_) => Inside(false, tokens[1..])
      case t => (if open then t.Kept() else []) + Inside(open, tokens[1..])
  }

  /** Open at the end: the last marker was a start, or there was none and it was open before. */
  function OpenAtEnd(open: bool, tokens: seq<Token>): bool
    decreases |tokens|
  {
    if tokens == [] then open
    else OpenAtEnd(if tokens[0].Start? then true else if tokens[0].End? then false else open, tokens[1..])
  }

  predicate Closes(tokens: seq<Token>) {
    exists i :: 0 <= i < |tokens| && tokens[i].End?
  }

  lemma ClosesFirst(r: Parsed, tokens: seq<Token>)
    requires |r.token| <= 1
    ensures Closes(r.token + tokens) <==> (r.token != [] && r.token[0].End?) || Closes(tokens)
  {
    if r.token == [] {
      assert r.token + tokens == tokens;
    } else {
      if Closes(tokens) {
        var i :| 0 <= i < |tokens| && tokens[i].End?;
        assert (r.token + tokens)[i + 1] == tokens[i];
      }
      assert (r.token + tokens)[0] == r.token[0];
      assert forall i :: 1 <= i < |r.token + tokens| ==> (r.token + tokens)[i] == tokens[i - 1];
    }
  }

  /** The lanes and flags of a call that no block of it bursts in. */
  ghost predicate Sorted(a: Acc, tokens: seq<Token>, b: Acc) {
    && b.visible + b.visibleText == a.visible + a.visibleText + Outside(a.open, tokens)
    && b.sync + b.syncText == a.sync + a.syncText + Inside(a.open, tokens)
    && b.open == OpenAtEnd(a.open, tokens)
    && (b.ended <==> a.ended || Closes(tokens))
  }

  lemma SortsOne(a: Acc, r: Parsed)
    requires Lone(r)
    ensures Sorted(a, r.token, Take(a, r))
  {
    NothingCloses();
    if r.token == [] {
      assert a.visible + a.visibleText + [] == a.visible + a.visibleText;
      assert a.sync + a.syncText + [] == a.sync + a.syncText;
    } else {
      var t := r.token[0];
      assert r.token[1..] == [];
      assert Closes(r.token) <==> t.End?;
      assert Outside(a.open, [t][1..]) == [] && [t] == r.token;
      SortsToken(a, t);
    }
  }

  lemma NothingCloses()
    ensures !Closes([])
  {
  }

  lemma OneToken(open: bool, t: Token)
    ensures var kept := if t.Start? || t.End? then [] else t.Kept();
      && Outside(open, [t]) == (if open then [] else kept)
      && Inside(open, [t]) == (if open then kept else [])
  {
    assert [t][1..] == [];
    assert t.Kept() + [] == t.Kept();
  }

  lemma SortsToken(a: Acc, t: Token)
    ensures var b := TakeToken(a, t);
      && b.visible + b.visibleText == a.visible + a.visibleText + Outside(a.open, [t])
      && b.sync + b.syncText == a.sync + a.syncText + Inside(a.open, [t])
  {
    OneToken(a.open, t);
    hide Outside, Inside;
    NothingAdded(a.visible + a.visibleText);
    NothingAdded(a.sync + a.syncText);
    match t
    case Text(c) =>
      Associate(a.visible, a.visibleText, [c]);
      Associate(a.sync, a.syncText, [c]);
    case Control(cells) =>
      NothingAdded(a.visible + a.visibleText + cells);
      NothingAdded(a.sync + a.syncText + cells);
    case Start(_) =>
    case End(_) =>
  }

  lemma SortedThen(a: Acc, r: Parsed, b: Acc, tokens: seq<Token>, c: Acc)
    requires |r.token| <= 1 && Sorted(a, r.token, b) && Sorted(b, tokens, c)
    ensures Sorted(a, r.token + tokens, c)
  {
    ClosesFirst(r, tokens);
    ClosesFirst(r, []);
    assert r.token + [] == r.token;
    NothingCloses();
    OutsideConcat(a.open, r.token, tokens);
    Associate(a.visible + a.visibleText, Outside(a.open, r.token), Outside(b.open, tokens));
    Associate(a.sync + a.syncText, Inside(a.open, r.token), Inside(b.open, tokens));
  }

  lemma {:induction false} OutsideConcat(open: bool, x: seq<Token>, y: seq<Token>)
    ensures var next := OpenAtEnd(open, x);
      && Outside(open, x + y) == Outside(open, x) + Outside(next, y)
      && Inside(open, x + y) == Inside(open, x) + Inside(next, y)
      && OpenAtEnd(open, x + y) == OpenAtEnd(next, y)
    decreases |x|
  {
    if x == [] {
      assert x + y == y;
    } else {
      assert (x + y)[1..] == x[1..] + y && (x + y)[0] == x[0];
      OutsideConcat(OpenAtEnd(open, [x[0]]), x[1..], y);
      assert [x[0]][1..] == [];
      FirstAndRest(open, x);
      FirstAndRest(open, x + y);
    }
  }

  lemma FirstAndRest(open: bool, x: seq<Token>)
    requires x != []
    ensures var next := OpenAtEnd(open, [x[0]]);
      && Outside(open, x) == Outside(open, [x[0]]) + Outside(next, x[1..])
      && Inside(open, x) == Inside(open, [x[0]]) + Inside(next, x[1..])
      && OpenAtEnd(open, x) == OpenAtEnd(next, x[1..])
  {
    assert [x[0]][1..] == [];
    assert x[0].Kept() + [] == x[0].Kept();
  }

  lemma {:induction false} FeedSorts(a: Acc, input: seq<Cell>)
    requires !Feed(a, input).overflowed
    ensures Sorted(a, Scan(a.parser, input).tokens, Feed(a, input))
    decreases |input|
  {
    hide ParseByte, Take, Sorted, Lone;
    if input == [] {
      NothingSorted(a);
    } else {
      var r := ParseByte(a.parser, input[0]);
      ParsedIsLone(a.parser, input[0]);
      LoneIsFew(r);
      QuietRest(a, input);
      QuietByte(a, input);
      SortsOne(a, r);
      TakeHolds(a, r);
      FeedSorts(FeedByte(a, input[0]), input[1..]);
      SortedThen(a, r, Take(a, r), Scan(r.parser, input[1..]).tokens, Feed(a, input));
    }
  }

  lemma LoneIsFew(r: Parsed)
    requires Lone(r)
    ensures |r.token| <= 1
  {
  }

  lemma NothingSorted(a: Acc)
    ensures Sorted(a, [], a)
  {
    NothingCloses();
    NothingAdded(a.visible + a.visibleText);
    NothingAdded(a.sync + a.syncText);
  }

  /**
   * A call in which no block bursts: what lies outside blocks is shown; a block is held until an end marker
   * comes, and then it is shown too, behind all of that.
   */
  lemma BlocksAreHeld(f: Filter, input: seq<Cell>)
    requires !Process(f, input).overflowed
    ensures
      var r, tokens := Process(f, input), Scan(f.parser, input).tokens;
      var block := f.held + Inside(f.open, tokens);
      && r.filter.open == OpenAtEnd(f.open, tokens)
      && (!Closes(tokens) ==> r.emitted == Outside(f.open, tokens) && r.filter.held == block)
      && (Closes(tokens) ==> r.emitted == Outside(f.open, tokens) + block && r.filter.held == [])
  {
    FeedSorts(Begin(f), input);
    hide Feed, Scan;
    assert [] + [] + Outside(f.open, Scan(f.parser, input).tokens) == Outside(f.open, Scan(f.parser, input).tokens);
    assert f.held + [] == f.held;
  }

  /** A block that bursts is no longer open, and so is one that is aborted; neither is held on. */
  lemma LetGoIsClosed(a: Acc, f: Filter)
    ensures Bursts(a) ==> !Guard(a).open && Guard(a).overflowed && LanesOf(Guard(a)).held == []
    ensures f.open ==> Abort(f).emitted == f.held
    ensures !f.open ==> Abort(f).emitted == []
    ensures Abort(f).filter == Filter(f.parser, [], false)
  {
  }
}