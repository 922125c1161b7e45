/**
 * The two block markers (packages/server/src/sync-block.ts:84-242): a token is dropped exactly when its bytes
 * are a marker, and a marker that starts between tokens is always such a token.
 */
module SyncMarks {
  import opened Prelude
  import opened SyncModel

  const ESC: byte := 0x1b
  const BRACKET: byte := 0x5b

  predicate IsMark(bytes: seq<byte>) {
    bytes == START_MARK || bytes == END_MARK
  }

  /** Nothing that goes on to the viewer is a marker, or an ESC that could have begun one. */
  predicate ErasesMarks(t: Token) {
    match t
    case Text(c) => c.b != ESC
    case Control(cells) => !IsMark(Bytes(cells))
    case Start(cells) => Bytes(cells) == START_MARK
    case End(cells) => Bytes(cells) == END_MARK
  }

  /** The unfinished sequence tells the state: CSI is the one that goes on with a bracket. */
  predicate Told(p: Parser) {
    match p.state
    case Ground => p.control == []
    case Esc => |p.control| == 1
    case _ => |p.control| >= 2 && (p.state == Csi <==> p.control[1].b == BRACKET)
  }

  lemma ByteOf(cells: seq<Cell>, i: nat)
    requires i < |cells|
    ensures Bytes(cells)[i] == cells[i].b
  {
  }

  lemma FromEscTells(b: byte)
    ensures FromEsc(b) == Csi <==> b == BRACKET
    ensures FromEsc(b) != Esc
  {
  }

  lemma NextTells(state: ParseState, b: byte)
    requires state != Ground && state != Esc
    ensures Next(state, b) == Ground || (Next(state, b) != Esc && (Next(state, b) == Csi <==> state == Csi))
  {
  }

  lemma ParseByteTells(p: Parser, c: Cell)
    requires Told(p)
    ensures Told(ParseByte(p, c).parser)
  {
    FromEscTells(c.b);
    if p.state != Ground && p.state != Esc {
      NextTells(p.state, c.b);
    }
  }

  /** Outside CSI no sequence can spell a marker, and in CSI the marker is recognized. */
  lemma ClassifyErases(state: ParseState, cells: seq<Cell>)
    requires |cells| >= 2 && (|cells| > 2 ==> (state == Csi <==> cells[1].b == BRACKET))
    ensures ErasesMarks(Classify(state, cells))
  {
    if IsMark(Bytes(cells)) {
      ByteOf(cells, 1);
    }
  }

  lemma ParseByteErases(p: Parser, c: Cell)
    requires Told(p)
    ensures forall t <- ParseByte(p, c).token :: ErasesMarks(t)
  {
    if p.state != Ground {
      ClassifyErases(p.state, p.control + [c]);
    }
  }

  lemma {:induction false} TokensEraseMarks(p: Parser, input: seq<Cell>)
    requires Told(p)
    ensures forall t <- Scan(p, input).tokens :: ErasesMarks(t)
    decreases |input|
  {
    if input != [] {
      ParseByteTells(p, input[0]);
      ParseByteErases(p, input[0]);
      hide ParseByte, ErasesMarks, Told;
      TokensEraseMarks(ParseByte(p, input[0]).parser, input[1..]);
    }
  }

  /** The bytes of all tokens that do not spell a marker, whatever the parser called them. */
  function Unmarked(tokens: seq<Token>): seq<Cell> {
    if tokens == [] then []
    else (if IsMark(Bytes(tokens[0].Raw())) then [] else tokens[0].Raw()) + Unmarked(tokens[1..])
  }

  lemma ErasedToken(t: Token)
    requires ErasesMarks(t)
    ensures t.Kept() == if IsMark(Bytes(t.Raw())) then [] else t.Raw()
  {
    if t.Text? {
      assert |Bytes(t.Raw())| == 1;
    }
  }

  lemma {:induction false} KeptIsUnmarked(tokens: seq<Token>)
    requires forall t <- tokens :: ErasesMarks(t)
    ensures KeptAll(tokens) == Unmarked(tokens)
  {
    if tokens != [] {
      ErasedToken(tokens[0]);
      KeptIsUnmarked(tokens[1..]);
    }
  }

  // ---- A marker between tokens ------------------------------------------------------------------

  /** The parser inside a marker, `i` bytes on. */
  function Within(mark: seq<Cell>, i: nat): Parser
    requires i < |mark|
  {
    if i == 0 then Parser(Ground, []) else Parser(if i == 1 then Esc else Csi, mark[..i])
  }

  lemma MarkBytes(mark: seq<Cell>, i: nat)
    requires IsMark(Bytes(mark)) && i < 7
    ensures |mark| == 8
    ensures mark[0].b == ESC && mark[1].b == BRACKET
    ensures i >= 2 ==> 0x20 <= mark[i].b < 0x40
    ensures 0x40 <= mark[7].b <= 0x7e
  {
    assert |Bytes(mark)| == 8;
    ByteOf(mark, 0);
    ByteOf(mark, 1);
    ByteOf(mark, i);
    ByteOf(mark, 7);
  }

  lemma WithinStep(mark: seq<Cell>, i: nat)
    requires IsMark(Bytes(mark)) && i < 7
    ensures |mark| == 8 && ParseByte(Within(mark, i), mark[i]) == Parsed(Within(mark, i + 1), [])
  {
    MarkBytes(mark, i);
    assert mark[..i] + [mark[i]] == mark[..i + 1];
  }

  lemma WithinEnds(mark: seq<Cell>)
    requires IsMark(Bytes(mark))
    ensures |mark| == 8 && ParseByte(Within(mark, 7), mark[7]) == Parsed(Parser(Ground, []), [Classify(Csi, mark)])
  {
    MarkBytes(mark, 0);
    assert mark[..7] + [mark[7]] == mark;
  }

  lemma ScanOn(p: Parser, c: Cell, rest: seq<Cell>, r: Parsed)
    requires ParseByte(p, c) == r
    ensures Scan(p, [c] + rest) == Scanned(r.token + Scan(r.parser, rest).tokens, Scan(r.parser, rest).parser)
  {
    assert ([c] + rest)[1..] == rest;
  }

  lemma {:induction false} ScanWithin(mark: seq<Cell>, i: nat, rest: seq<Cell>)
    requires IsMark(Bytes(mark)) && i < |mark| == 8
    ensures
      var after := Scan(Parser(Ground, []), rest);
      Scan(Within(mark, i), mark[i..] + rest) == Scanned([Classify(Csi, mark)] + after.tokens, after.parser)
    decreases 8 - i
  {
    hide ParseByte, Scan, Classify, Within;
    var more := mark[i + 1..] + rest;
    assert mark[i..] + rest == [mark[i]] + more;
    if i == 7 {
      WithinEnds(mark);
      ScanOn(Within(mark, 7), mark[7], rest, Parsed(Parser(Ground, []), [Classify(Csi, mark)]));
      assert more == rest;
    } else {
      WithinStep(mark, i);
      ScanOn(Within(mark, i), mark[i], more, Parsed(Within(mark, i + 1), []));
      ScanWithin(mark, i + 1, rest);
      assert [] + Scan(Within(mark, i + 1), more).tokens == Scan(Within(mark, i + 1), more).tokens;
    }
  }

  /** A marker between tokens becomes one token, and nothing of it is kept. */
  lemma MarkIsErased(mark: seq<Cell>, rest: seq<Cell>)
    requires IsMark(Bytes(mark))
    ensures
      var after := Scan(Parser(Ground, []), rest);
      var all := Scan(Parser(Ground, []), mark + rest);
      && all.parser == after.parser
      && all.tokens == [if Bytes(mark) == START_MARK then Start(mark) else End(mark)] + after.tokens
      && KeptAll(all.tokens) == KeptAll(after.tokens)
  {
    MarkBytes(mark, 0);
    MarksDiffer();
    assert mark[0..] == mark;
    ScanWithin(mark, 0, rest);
    var t := Classify(Csi, mark);
    assert ([t] + Scan(Parser(Ground, []), rest).tokens)[1..] == Scan(Parser(Ground, []), rest).tokens;
  }

  lemma MarksDiffer()
    ensures START_MARK != END_MARK
  {
    assert START_MARK[7] != END_MARK[7];
  }
}
