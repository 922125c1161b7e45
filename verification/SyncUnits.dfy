/**
 * What the filter's parser takes as one token, by byte ranges alone (packages/server/src/sync-block.ts:133-242):
 * a text byte, a two-byte escape, a control sequence, an OSC string that BEL or ESC and any byte ends, and the
 * other strings that only ST ends.
 */
module SyncUnits {
  import opened Prelude
  import opened SyncModel

  const ESC: byte := 0x1b
  const BEL: byte := 0x07
  const BACKSLASH: byte := 0x5c
  const BRACKET: byte := 0x5b
  const OSC: byte := 0x5d

  const GROUND := Parser(Ground, [])

  datatype Unit =
    | Plain(b: byte)
    | Short(b: byte)                               // ESC b
    | Sequence(body: seq<byte>, final: byte)       // ESC [ body final
    | Title(body: seq<byte>, end: seq<byte>)       // ESC ] body, then BEL, or ESC and one more byte
    | Quoted(opener: byte, body: seq<byte>)        // ESC opener body ESC \

  /** DCS, SOS, PM and APC: after ESC, one of `P`, `X`, `^`, `_`. */
  predicate OpensQuoted(b: byte) { b == 0x50 || b == 0x58 || b == 0x5e || b == 0x5f }

  predicate Final(b: byte) { 0x40 <= b <= 0x7e }

  /** No ESC, but for pairs of ESC and a byte that does not make ST. BEL is content. */
  predicate Content(body: seq<byte>) {
    body != [] ==>
      if body[0] == ESC then |body| >= 2 && body[1] != BACKSLASH && Content(body[2..])
      else Content(body[1..])
  }

  function Spelled(u: Unit): (r: seq<byte>)
    ensures r != []
  {
    match u
    case Plain(b) => [b]
    case Short(b) => [ESC, b]
    case Sequence(body, final) => [ESC, BRACKET] + body + [final]
    case Title(body, end) => [ESC, OSC] + body + end
    case Quoted(opener, body) => [ESC, opener] + body + [ESC, BACKSLASH]
  }

  predicate Whole(u: Unit) {
    match u
    case Plain(b) => b != ESC
    case Short(b) => b != BRACKET && b != OSC && !OpensQuoted(b)
    case Sequence(body, final) => Final(final) && forall i :: 0 <= i < |body| ==> !Final(body[i])
    case Title(body, end) =>
      && (forall i :: 0 <= i < |body| ==> body[i] != BEL && body[i] != ESC)
      && (end == [BEL] || (|end| == 2 && end[0] == ESC))
    case Quoted(opener, body) => OpensQuoted(opener) && Content(body)
  }

  function Spell(units: seq<Unit>): seq<byte> {
    if units == [] then [] else Spelled(units[0]) + Spell(units[1..])
  }

  ghost predicate AllWhole(units: seq<Unit>) {
    forall u <- units :: Whole(u)
  }

  /** The one token for a unit: text is text, ESC [ ? 2026 h and ESC [ ? 2026 l are markers, and everything else is kept whole. */
  function TokenFor(u: Unit, cells: seq<Cell>): Token
    requires cells != []
  {
    if u.Plain? then Text(cells[0])
    else if Spelled(u) == [0x1b, 0x5b, 0x3f, 0x32, 0x30, 0x32, 0x36, 0x68] then Start(cells)
    else if Spelled(u) == [0x1b, 0x5b, 0x3f, 0x32, 0x30, 0x32, 0x36, 0x6c] then End(cells)
    else Control(cells)
  }

  // ───── The states inside a unit ─────

  function Through(state: ParseState, bytes: seq<byte>): ParseState
    decreases |bytes|
  {
    if bytes == [] then state else Through(Next(state, bytes[0]), bytes[1..])
  }

  /** No byte brings the parser to Ground. */
  predicate Stays(state: ParseState, bytes: seq<byte>)
    decreases |bytes|
  {
    bytes != [] ==> Next(state, bytes[0]) != Ground && Stays(Next(state, bytes[0]), bytes[1..])
  }

  lemma {:induction false} ThroughConcat(state: ParseState, a: seq<byte>, b: seq<byte>)
    ensures Through(state, a + b) == Through(Through(state, a), b)
    ensures Stays(state, a + b) <==> Stays(state, a) && Stays(Through(state, a), b)
    decreases |a|
  {
    if a == [] {
      assert a + b == b;
    } else {
      assert (a + b)[1..] == a[1..] + b;
      ThroughConcat(Next(state, a[0]), a[1..], b);
    }
  }

  lemma OneThrough(state: ParseState, b: byte)
    ensures Through(state, [b]) == Next(state, b)
    ensures Stays(state, [b]) <==> Next(state, b) != Ground
  {
    assert [b][1..] == [];
  }

  lemma TwoThrough(state: ParseState, a: byte, b: byte)
    ensures Through(state, [a, b]) == Next(Next(state, a), b)
    ensures Stays(state, [a, b]) <==> Next(state, a) != Ground && Next(Next(state, a), b) != Ground
  {
    OneThrough(state, a);
    OneThrough(Next(state, a), b);
    ThroughConcat(state, [a], [b]);
    assert [a] + [b] == [a, b];
  }

  lemma {:induction false} Loops(state: ParseState, bytes: seq<byte>)
    requires state != Ground && forall i :: 0 <= i < |bytes| ==> Next(state, bytes[i]) == state
    ensures Through(state, bytes) == state && Stays(state, bytes)
    decreases |bytes|
  {
    if bytes != [] {
      Loops(state, bytes[1..]);
    }
  }

  /** The state inside each of the strings that only ST ends, and the one behind an ESC in it. */
  function InsideOf(opener: byte): ParseState
    requires OpensQuoted(opener)
  {
    if opener == 0x50 then Dcs else if opener == 0x58 then Sos else if opener == 0x5e then Pm else Apc
  }

  lemma {:induction false} ContentStays(opener: byte, body: seq<byte>)
    requires OpensQuoted(opener) && Content(body)
    ensures Through(InsideOf(opener), body) == InsideOf(opener) && Stays(InsideOf(opener), body)
    decreases |body|
  {
    if body != [] {
      if body[0] == ESC {
        TwoThrough(InsideOf(opener), body[0], body[1]);
        ContentStays(opener, body[2..]);
        ThroughConcat(InsideOf(opener), [body[0], body[1]], body[2..]);
        assert body == [body[0], body[1]] + body[2..];
      } else {
        ContentStays(opener, body[1..]);
      }
    }
  }

  /** Up to its last byte a unit stays away from Ground; the last one returns. */
  ghost predicate Returns(bytes: seq<byte>) {
    bytes != [] && var init, last := bytes[..|bytes| - 1], bytes[|bytes| - 1];
      Stays(Ground, init) && Next(Through(Ground, init), last) == Ground
  }

  lemma OpenThen(second: byte, body: seq<byte>, init: seq<byte>, inside: ParseState)
    requires init == [ESC, second] + body && FromEsc(second) == inside != Ground
    ensures Through(Ground, init) == Through(inside, body)
    ensures Stays(Ground, init) <==> Stays(inside, body)
  {
    TwoThrough(Ground, ESC, second);
    ThroughConcat(Ground, [ESC, second], body);
  }

  lemma SequenceReturns(body: seq<byte>, final: byte)
    requires Whole(Sequence(body, final))
    ensures Returns(Spelled(Sequence(body, final)))
    ensures Through(Ground, [ESC, BRACKET] + body) == Csi
  {
    var bytes := Spelled(Sequence(body, final));
    assert bytes[..|bytes| - 1] == [ESC, BRACKET] + body;
    OpenThen(BRACKET, body, [ESC, BRACKET] + body, Csi);
    Loops(Csi, body);
  }

  lemma TitleReturns(body: seq<byte>, end: seq<byte>)
    requires Whole(Title(body, end))
    ensures Returns(Spelled(Title(body, end)))
  {
    var bytes := Spelled(Title(body, end));
    OpenThen(OSC, body, [ESC, OSC] + body, Osc);
    Loops(Osc, body);
    if end == [BEL] {
      assert bytes[..|bytes| - 1] == [ESC, OSC] + body;
    } else {
      assert bytes[..|bytes| - 1] == [ESC, OSC] + body + [ESC] && end == [ESC, end[1]];
      OneThrough(Osc, ESC);
      ThroughConcat(Ground, [ESC, OSC] + body, [ESC]);
    }
  }

  lemma QuotedReturns(opener: byte, body: seq<byte>)
    requires Whole(Quoted(opener, body))
    ensures Returns(Spelled(Quoted(opener, body)))
  {
    var bytes := Spelled(Quoted(opener, body));
    OpenThen(opener, body, [ESC, opener] + body, InsideOf(opener));
    ContentStays(opener, body);
    assert bytes[..|bytes| - 1] == [ESC, opener] + body + [ESC];
    OneThrough(InsideOf(opener), ESC);
    ThroughConcat(Ground, [ESC, opener] + body, [ESC]);
  }

  lemma UnitReturns(u: Unit)
    requires Whole(u)
    ensures Returns(Spelled(u))
  {
    match u
    case Plain(b) => assert [b][..0] == [];
    case Short(b) =>
      assert [ESC, b][..1] == [ESC];
      OneThrough(Ground, ESC);
    case Sequence(body, final) => SequenceReturns(body, final);
    case Title(body, end) => TitleReturns(body, end);
    case Quoted(opener, body) => QuotedReturns(opener, body);
  }

  // ───── What the parser makes of a unit ─────

  lemma BytesParts(a: seq<Cell>, b: seq<Cell>)
    ensures Bytes(a + b) == Bytes(a) + Bytes(b)
  {
  }

  lemma {:induction false} StaysScans(p: Parser, cells: seq<Cell>)
    requires Stays(p.state, Bytes(cells)) && Settled(p)
    ensures Scan(p, cells) == Scanned([], Parser(Through(p.state, Bytes(cells)), p.control + cells))
    decreases |cells|
  {
    if cells == [] {
      assert p.control + [] == p.control;
    } else {
      var q := Parser(Next(p.state, cells[0].b), p.control + [cells[0]]);
      assert Bytes(cells)[1..] == Bytes(cells[1..]);
      assert Bytes(cells)[0] == cells[0].b;
      ByteStays(p, cells[0]);
      hide ParseByte, Next;
      StaysScans(q, cells[1..]);
      Associate(p.control, [cells[0]], cells[1..]);
      assert [cells[0]] + cells[1..] == cells;
      assert [] + Scan(q, cells[1..]).tokens == [];
    }
  }

  lemma ByteStays(p: Parser, c: Cell)
    requires Next(p.state, c.b) != Ground && Settled(p)
    ensures ParseByte(p, c) == Parsed(Parser(Next(p.state, c.b), p.control + [c]), [])
  {
    hide Next;
    assert [] + [c] == [c];
  }

  lemma ScanOne(p: Parser, c: Cell)
    ensures Scan(p, [c]) == Scanned(ParseByte(p, c).token, ParseByte(p, c).parser)
  {
    assert [c][1..] == [];
    assert Scan(ParseByte(p, c).parser, []).tokens == [];
  }

  /** Whatever comes before the last byte of a unit completes nothing and is all kept back. */
  lemma UnfinishedUnit(u: Unit, cells: seq<Cell>, k: nat)
    requires Whole(u) && 0 < k < |Spelled(u)| && Bytes(cells) == Spelled(u)[..k]
    ensures
      var r := Scan(GROUND, cells);
      r.tokens == [] && r.parser.state != Ground && r.parser.control == cells
  {
    UnitStays(u, k);
    hide Through, Stays, Spelled, Whole;
    StaysScans(GROUND, cells);
    StaysEndsAway(Ground, Bytes(cells));
    assert [] + cells == cells;
  }

  lemma UnitStays(u: Unit, k: nat)
    requires Whole(u) && 0 < k < |Spelled(u)|
    ensures Stays(Ground, Spelled(u)[..k])
  {
    UnitReturns(u);
    hide Through, Stays, Whole;
    var init := Spelled(u)[..|Spelled(u)| - 1];
    ThroughConcat(Ground, init[..k], init[k..]);
    assert init[..k] + init[k..] == init && init[..k] == Spelled(u)[..k];
  }

  lemma {:induction false} StaysEndsAway(state: ParseState, bytes: seq<byte>)
    requires Stays(state, bytes) && bytes != []
    ensures Through(state, bytes) != Ground
    decreases |bytes|
  {
    if |bytes| > 1 {
      StaysEndsAway(Next(state, bytes[0]), bytes[1..]);
    }
  }

  /** The last byte completes one token, of all of them. */
  lemma UnitScans(u: Unit, cells: seq<Cell>)
    requires Whole(u) && Bytes(cells) == Spelled(u)
    ensures Scan(GROUND, cells) == Scanned([TokenFor(u, cells)], GROUND)
  {
    UnitReturns(u);
    var init, last := cells[..|cells| - 1], cells[|cells| - 1];
    assert cells == init + [last];
    BytesParts(init, [last]);
    assert Bytes(init) == Spelled(u)[..|Spelled(u)| - 1];
    StaysScans(GROUND, init);
    assert [] + init == init;
    var p := Parser(Through(Ground, Bytes(init)), init);
    ScanConcat(GROUND, init, [last]);
    ScanOne(p, last);
    assert [] + ParseByte(p, last).token == ParseByte(p, last).token;
    hide Scan, Through, Stays;
    LastByteDecides(u, cells, p);
  }

  lemma LastByteDecides(u: Unit, cells: seq<Cell>, p: Parser)
    requires Whole(u) && Bytes(cells) == Spelled(u)
    requires p == Parser(Through(Ground, Bytes(cells[..|cells| - 1])), cells[..|cells| - 1])
    requires Next(p.state, cells[|cells| - 1].b) == Ground
    ensures ParseByte(p, cells[|cells| - 1]) == Parsed(GROUND, [TokenFor(u, cells)])
  {
    var init, last := cells[..|cells| - 1], cells[|cells| - 1];
    assert init + [last] == cells;
    assert Bytes(init) == Spelled(u)[..|Spelled(u)| - 1];
    if u.Plain? {
      assert init == [] && cells == [last];
    } else {
      assert Spelled(u)[1] == BRACKET <==> u.Sequence?;
      assert START_MARK[1] == BRACKET && END_MARK[1] == BRACKET;
      if u.Sequence? {
        SequenceReturns(u.body, u.final);
        assert Bytes(init) == [ESC, BRACKET] + u.body;
      }
      assert p.state != Ground by { LeavesGround(u, Bytes(init)); }
    }
  }

  lemma LeavesGround(u: Unit, init: seq<byte>)
    requires Whole(u) && !u.Plain? && init == Spelled(u)[..|Spelled(u)| - 1]
    ensures Through(Ground, init) != Ground
  {
    UnitReturns(u);
    StaysEndsAway(Ground, init);
  }

  /** Unit by unit, the tokens and the cells each stands for. */
  ghost predicate TokensFor(units: seq<Unit>, cells: seq<Cell>, tokens: seq<Token>)
    decreases |units|
  {
    if units == [] then cells == [] && tokens == []
    else
      && |cells| >= |Spelled(units[0])| && tokens != []
      && tokens[0] == TokenFor(units[0], cells[..|Spelled(units[0])|])
      && TokensFor(units[1..], cells[|Spelled(units[0])|..], tokens[1..])
  }

  /**
   * An input of whole units, described by the ranges of their bytes and by nothing else, becomes exactly one
   * token for each.
   */
  lemma {:induction false} TokensAreUnits(units: seq<Unit>, cells: seq<Cell>)
    requires AllWhole(units) && Bytes(cells) == Spell(units)
    ensures TokensFor(units, cells, Scan(GROUND, cells).tokens) && Scan(GROUND, cells).parser == GROUND
    decreases |units|
  {
    if units != [] {
      var n := |Spelled(units[0])|;
      var first, rest := cells[..n], cells[n..];
      assert cells == first + rest;
      BytesParts(first, rest);
      assert Bytes(first) == Spelled(units[0]) && Bytes(rest) == Spell(units[1..]);
      assert units[0] in units;
      UnitScans(units[0], first);
      TokensAreUnits(units[1..], rest);
      ScanConcat(GROUND, first, rest);
      var token := TokenFor(units[0], first);
      assert ([token] + Scan(GROUND, rest).tokens)[1..] == Scan(GROUND, rest).tokens;
    }
  }

  /** A marker spelled inside a string is content: the string is one token, and it is kept. */
  lemma StringKeepsMarkers(opener: byte, before: seq<byte>, mark: seq<byte>, after: seq<byte>, cells: seq<Cell>)
    requires OpensQuoted(opener) && Content(before) && Content(after) && (mark == START_MARK || mark == END_MARK)
    requires Bytes(cells) == Spelled(Quoted(opener, before + mark + after))
    ensures Scan(GROUND, cells).tokens == [Control(cells)] && KeptAll(Scan(GROUND, cells).tokens) == cells
  {
    PlainIsContent(mark[2..]);
    ContentConcat(before, mark);
    ContentConcat(before + mark, after);
    UnitScans(Quoted(opener, before + mark + after), cells);
    assert Spelled(Quoted(opener, before + mark + after))[1] == opener;
    assert START_MARK[1] == BRACKET && END_MARK[1] == BRACKET;
    assert [Control(cells)][1..] == [] && cells + [] == cells;
  }

  lemma {:induction false} PlainIsContent(body: seq<byte>)
    requires forall i :: 0 <= i < |body| ==> body[i] != ESC
    ensures Content(body)
    decreases |body|
  {
    if body != [] {
      PlainIsContent(body[1..]);
    }
  }

  lemma {:induction false} ContentConcat(a: seq<byte>, b: seq<byte>)
    requires Content(a) && Content(b)
    ensures Content(a + b)
    decreases |a|
  {
    if a == [] {
      assert a + b == b;
    } else if a[0] == ESC {
      assert (a + b)[2..] == a[2..] + b;
      ContentConcat(a[2..], b);
    } else {
      assert (a + b)[1..] == a[1..] + b;
      ContentConcat(a[1..], b);
    }
  }

  // ───── Every input is made of units ─────

  lemma {:induction false} TakeSequence(bytes: seq<byte>) returns (body: seq<byte>, final: byte, rest: seq<byte>)
    requires Through(Csi, bytes) == Ground
    ensures Whole(Sequence(body, final)) && bytes == body + [final] + rest
    decreases |bytes|
  {
    if Final(bytes[0]) {
      body, final, rest := [], bytes[0], bytes[1..];
    } else {
      body, final, rest := TakeSequence(bytes[1..]);
      body := [bytes[0]] + body;
    }
  }

  lemma {:induction false} TakeTitle(bytes: seq<byte>) returns (body: seq<byte>, end: seq<byte>, rest: seq<byte>)
    requires Through(Osc, bytes) == Ground
    ensures Whole(Title(body, end)) && bytes == body + end + rest
    decreases |bytes|
  {
    if bytes[0] == BEL {
      body, end, rest := [], [BEL], bytes[1..];
    } else if bytes[0] == ESC {
      assert bytes[1..] != [];
      body, end, rest := [], bytes[..2], bytes[2..];
    } else {
      body, end, rest := TakeTitle(bytes[1..]);
      body := [bytes[0]] + body;
    }
  }

  lemma {:induction false} TakeQuoted(opener: byte, bytes: seq<byte>) returns (body: seq<byte>, rest: seq<byte>)
    requires OpensQuoted(opener) && Through(InsideOf(opener), bytes) == Ground
    ensures Content(body) && bytes == body + [ESC, BACKSLASH] + rest
    decreases |bytes|
  {
    if bytes[0] != ESC {
      body, rest := TakeQuoted(opener, bytes[1..]);
      body := [bytes[0]] + body;
    } else {
      assert bytes[1..] != [] && bytes[1..][1..] == bytes[2..];
      if bytes[1] == BACKSLASH {
        body, rest := [], bytes[2..];
      } else {
        body, rest := TakeQuoted(opener, bytes[2..]);
        var inside := body;
        body := [ESC, bytes[1]] + inside;
        assert body[2..] == inside;
      }
    }
  }

  lemma JoinThree(second: byte, a: seq<byte>, b: seq<byte>, rest: seq<byte>)
    ensures [ESC, second] + (a + b + rest) == ([ESC, second] + a + b) + rest
  {
    Associate([ESC, second], a + b, rest);
    Associate([ESC, second], a, b);
  }

  lemma FirstUnit(bytes: seq<byte>) returns (u: Unit, rest: seq<byte>)
    requires bytes != [] && Through(Ground, bytes) == Ground
    ensures Whole(u) && bytes == Spelled(u) + rest
  {
    if bytes[0] != ESC {
      u, rest := Plain(bytes[0]), bytes[1..];
    } else {
      assert bytes[1..] != [];
      var second, more := bytes[1], bytes[2..];
      assert bytes[1..][1..] == more && bytes == [ESC, second] + more;
      if second == BRACKET {
        var body, final, after := TakeSequence(more);
        u, rest := Sequence(body, final), after;
        JoinThree(second, body, [final], rest);
      } else if second == OSC {
        var body, end, after := TakeTitle(more);
        u, rest := Title(body, end), after;
        JoinThree(second, body, end, rest);
      } else if OpensQuoted(second) {
        var body, after := TakeQuoted(second, more);
        u, rest := Quoted(second, body), after;
        JoinThree(second, body, [ESC, BACKSLASH], rest);
      } else {
        u, rest := Short(second), more;
      }
    }
  }

  /** The description leaves nothing out: an input that ends between tokens is whole units. */
  lemma {:induction false} InputIsUnits(bytes: seq<byte>) returns (units: seq<Unit>)
    requires Through(Ground, bytes) == Ground
    ensures AllWhole(units) && Spell(units) == bytes
    decreases |bytes|
  {
    if bytes == [] {
      units := [];
    } else {
      var u, rest := FirstUnit(bytes);
      UnitReturns(u);
      var s := Spelled(u);
      ThroughConcat(Ground, s, rest);
      assert s == s[..|s| - 1] + [s[|s| - 1]];
      ThroughConcat(Ground, s[..|s| - 1], [s[|s| - 1]]);
      OneThrough(Through(Ground, s[..|s| - 1]), s[|s| - 1]);
      units := InputIsUnits(rest);
      units := [u] + units;
    }
  }
}
