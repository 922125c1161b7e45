/**
 * The sync-block filter, over input cells: a byte and the place it has in the stream. What comes
 * out is judged by place, so "in order" and "once" mean what they say even when bytes repeat.
 */
module SyncModel {
  import opened Prelude

  const MAX_SYNC_BUFFER_BYTES: nat := 512 * 1024

  datatype Cell = Cell(b: byte, at: nat)

  function Bytes(cells: seq<Cell>): (bytes: seq<byte>)
    ensures |bytes| == |cells|
    ensures forall i :: 0 <= i < |cells| ==> bytes[i] == cells[i].b
  {
    seq(|cells|, i requires 0 <= i < |cells| => cells[i].b)
  }

  // ───── Tokens ─────

  datatype ParseState =
    Ground | Esc | Csi | Osc | OscEsc | Dcs | DcsEsc | Apc | ApcEsc | Pm | PmEsc | Sos | SosEsc

  datatype Parser = Parser(state: ParseState, control: seq<Cell>)

  datatype Token =
    | Text(cell: Cell)
    | Control(cells: seq<Cell>)
    | Start(cells: seq<Cell>)
    | End(cells: seq<Cell>)
  {
    /** The input the token stands for. */
    function Raw(): seq<Cell> { if Text? then [cell] else cells }

    /** What of it is meant for the viewer: all, but for a block marker. */
    function Kept(): seq<Cell> { if Text? then [cell] else if Control? then cells else [] }
  }

  /** ESC [ ? 2026 h and ESC [ ? 2026 l. */
  const START_MARK: seq<byte> := [0x1b, 0x5b, 0x3f, 0x32, 0x30, 0x32, 0x36, 0x68]
  const END_MARK: seq<byte> := [0x1b, 0x5b, 0x3f, 0x32, 0x30, 0x32, 0x36, 0x6c]

  function FromEsc(b: byte): ParseState {
    if b == 0x5b then Csi
    else if b == 0x5d then Osc
    else if b == 0x50 then Dcs
    else if b == 0x5f then Apc
    else if b == 0x5e then Pm
    else if b == 0x58 then Sos
    else Ground
  }

  /** Inside a string that only ST ends: what each state does on ESC, and after it. */
  function Inside(state: ParseState, b: byte): ParseState {
    match state
    case Dcs => if b == 0x1b then DcsEsc else Dcs
    case DcsEsc => if b == 0x5c then Ground else Dcs
    case Apc => if b == 0x1b then ApcEsc else Apc
    case ApcEsc => if b == 0x5c then Ground else Apc
    case Pm => if b == 0x1b then PmEsc else Pm
    case PmEsc => if b == 0x5c then Ground else Pm
    case Sos => if b == 0x1b then SosEsc else Sos
    case SosEsc => if b == 0x5c then Ground else Sos
    case _ => Ground
  }

  function Next(state: ParseState, b: byte): ParseState {
    match state
    case Ground => if b == 0x1b then Esc else Ground
    case Esc => FromEsc(b)
    case Csi => if 0x40 <= b <= 0x7e then Ground else Csi
    case Osc => if b == 0x07 then Ground else if b == 0x1b then OscEsc else Osc
    case OscEsc => Ground
    case _ => Inside(state, b)
  }

  /** A finished control sequence, told apart from the two markers. */
  function Classify(state: ParseState, cells: seq<Cell>): Token {
    if state == Csi && Bytes(cells) == START_MARK then Start(cells)
    else if state == Csi && Bytes(cells) == END_MARK then End(cells)
    else Control(cells)
  }

  /** One byte: the parser after it, and the token it completes, if any. */
  function ParseByte(p: Parser, c: Cell): Parsed {
    var state := Next(p.state, c.b);
    if p.state == Ground && state == Ground then Parsed(Parser(Ground, []), [Text(c)])
    else
      var control := if p.state == Ground then [c] else p.control + [c];
      if state == Ground then Parsed(Parser(Ground, []), [Classify(p.state, control)])
      else Parsed(Parser(state, control), [])
  }

  /** The parser after a byte, and the one token it completed, or none. */
  datatype Parsed = Parsed(parser: Parser, token: seq<Token>)

  datatype Scanned = Scanned(tokens: seq<Token>, parser: Parser)

  function Scan(p: Parser, input: seq<Cell>): Scanned
    decreases |input|
  {
    if input == [] then Scanned([], p)
    else
      var first := ParseByte(p, input[0]);
      var rest := Scan(first.parser, input[1..]);
      Scanned(first.token + rest.tokens, rest.parser)
  }

  function RawAll(tokens: seq<Token>): seq<Cell> {
    if tokens == [] then [] else tokens[0].Raw() + RawAll(tokens[1..])
  }

  function KeptAll(tokens: seq<Token>): seq<Cell> {
    if tokens == [] then [] else tokens[0].Kept() + KeptAll(tokens[1..])
  }

  predicate Settled(p: Parser) { p.state == Ground ==> p.control == [] }

  /** Only the two exact sequences are markers. */
  predicate MarkersExact(t: Token) {
    (t.Start? ==> Bytes(t.Raw()) == START_MARK) && (t.End? ==> Bytes(t.Raw()) == END_MARK)
  }

  /** One byte joins the unfinished sequence, or completes a token with it. */
  lemma ParseByteKeepsInput(p: Parser, c: Cell)
    requires Settled(p)
    ensures var r := ParseByte(p, c);
            && |r.token| <= 1 && Settled(r.parser)
            && RawAll(r.token) + r.parser.control == p.control + [c]
            && (r.token != [] ==> r.parser.control == [] && r.token[0].Raw() == p.control + [c])
            && (forall t <- r.token :: MarkersExact(t))
  {
    var r := ParseByte(p, c);
    if r.token != [] {
      assert r.token[1..] == [];
      assert RawAll(r.token) == r.token[0].Raw() + [];
    }
  }

  lemma {:induction false} RawConcat(a: seq<Token>, b: seq<Token>)
    ensures RawAll(a + b) == RawAll(a) + RawAll(b)
  {
    if a == [] {
      assert a + b == b;
    } else {
      assert (a + b)[1..] == a[1..] + b;
      RawConcat(a[1..], b);
    }
  }

  /** A byte's share of the input: what its token stands for, then what is still unfinished. */
  lemma InputSplits(p: Parser, input: seq<Cell>)
    requires Settled(p) && input != []
    ensures var r := ParseByte(p, input[0]);
            p.control + input == RawAll(r.token) + (r.parser.control + input[1..])
  {
    hide ParseByte;
    ParseByteKeepsInput(p, input[0]);
    assert p.control + input == (p.control + [input[0]]) + input[1..];
  }

  lemma {:induction false} TokensAreExact(p: Parser, input: seq<Cell>)
    requires Settled(p)
    ensures Settled(Scan(p, input).parser) && forall t <- Scan(p, input).tokens :: MarkersExact(t)
    decreases |input|
  {
    if input != [] {
      ParseByteKeepsInput(p, input[0]);
      hide ParseByte, MarkersExact, Settled;
      TokensAreExact(ParseByte(p, input[0]).parser, input[1..]);
    }
  }

  /** The tokens cut the input up without losing a byte. */
  lemma {:induction false} TokensAreTheInput(p: Parser, input: seq<Cell>)
    requires Settled(p)
    ensures RawAll(Scan(p, input).tokens) + Scan(p, input).parser.control == p.control + input
    decreases |input|
  {
    if input == [] {
      assert p.control + input == [] + p.control;
    } else {
      var r := ParseByte(p, input[0]);
      var rest := Scan(r.parser, input[1..]);
      ParseByteKeepsInput(p, input[0]);
      InputSplits(p, input);
      hide ParseByte, Settled;
      TokensAreTheInput(r.parser, input[1..]);
      RawConcat(r.token, rest.tokens);
      hide RawAll;
      Associate(RawAll(r.token), RawAll(rest.tokens), rest.parser.control);
    }
  }

  lemma {:induction false} ScanConcat(p: Parser, a: seq<Cell>, b: seq<Cell>)
    ensures var first := Scan(p, a);
            Scan(p, a + b) == Scanned(first.tokens + Scan(first.parser, b).tokens, Scan(first.parser, b).parser)
    decreases |a|
  {
    hide ParseByte;
    if a == [] {
      assert a + b == b;
      assert [] + Scan(p, b).tokens == Scan(p, b).tokens;
    } else {
      var r := ParseByte(p, a[0]);
      assert (a + b)[1..] == a[1..] + b && (a + b)[0] == a[0];
      ScanConcat(r.parser, a[1..], b);
      var first := Scan(r.parser, a[1..]);
      var last := Scan(first.parser, b);
      assert r.token + (first.tokens + last.tokens) == (r.token + first.tokens) + last.tokens;
    }
  }

  lemma {:induction false} KeptConcat(a: seq<Token>, b: seq<Token>)
    ensures KeptAll(a + b) == KeptAll(a) + KeptAll(b)
  {
    if a == [] {
      assert a + b == b;
    } else {
      assert (a + b)[1..] == a[1..] + b;
      KeptConcat(a[1..], b);
    }
  }

  // ───── One call ─────

  /** The filter between calls: an unfinished control sequence, and the block held back. */
  datatype Filter = Filter(parser: Parser, held: seq<Cell>, open: bool)

  const FRESH: Filter := Filter(Parser(Ground, []), [], false)

  /** The filter during a call: what is on its way out, and what is held. */
  datatype Acc = Acc(
    parser: Parser,
    visible: seq<Cell>,      // chunks for the viewer
    visibleText: seq<Cell>,  // text not yet made a chunk
    sync: seq<Cell>,         // chunks of the block
    syncText: seq<Cell>,
    open: bool,
    ended: bool,
    overflowed: bool)
  {
    function Out(): seq<Cell> { visible + visibleText + sync + syncText }
  }

  function Begin(f: Filter): Acc { Acc(f.parser, [], [], f.held, [], f.open, false, false) }

  function TakeToken(a: Acc, t: Token): Acc {
    match t
    case Text(c) =>
      if a.open then a.(syncText := a.syncText + [c]) else a.(visibleText := a.visibleText + [c])
    case Control(cells) =>
      if a.open then a.(sync := a.sync + a.syncText + cells, syncText := [])
      else a.(visible := a.visible + a.visibleText + cells, visibleText := [])
    case Start(_) => a.(open := true)
    case End(_) => a.(open := false, ended := true)
  }

  /** A block past its limit is let go. */
  function Guard(a: Acc): Acc {
    if a.open && |a.sync| > MAX_SYNC_BUFFER_BYTES
    then a.(open := false, visible := a.visible + a.sync + a.syncText, sync := [], syncText := [], overflowed := true)
    else a
  }

  /** The token a byte completed, if any, goes where it belongs. */
  function Take(a: Acc, r: Parsed): Acc {
    var a1 := a.(parser := r.parser);
    if r.token == [] then a1 else TakeToken(a1, r.token[0])
  }

  function FeedByte(a: Acc, c: Cell): Acc { Guard(Take(a, ParseByte(a.parser, c))) }

  function Feed(a: Acc, input: seq<Cell>): Acc
    decreases |input|
  {
    if input == [] then a else Feed(FeedByte(a, input[0]), input[1..])
  }

  datatype Result = Result(emitted: seq<Cell>, filter: Filter, overflowed: bool)

  function Finish(a: Acc): Result {
    var visible, sync := a.visible + a.visibleText, a.sync + a.syncText;
    if a.ended then Result(visible + sync, Filter(a.parser, [], a.open), a.overflowed)
    else Result(visible, Filter(a.parser, sync, a.open), a.overflowed)
  }

  function Process(f: Filter, input: seq<Cell>): Result { Finish(Feed(Begin(f), input)) }

  /** Abort: the open block is let go, outside any call. */
  function Abort(f: Filter): Result {
    Result(if f.open then f.held else [], f.(held := [], open := false), false)
  }

  /** A closed filter holds nothing back. */
  predicate Ready(f: Filter) { Settled(f.parser) && (!f.open ==> f.held == []) }
}
