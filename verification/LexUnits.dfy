/**
 * What the holder's lexer accepts, by byte ranges alone (holder/src/main.rs:83-127): characters, escape
 * sequences and control sequences as sections 5.3 and 5.4 of ECMA-48 lay them out, control strings (section
 * 5.6), and the ways in which each can be broken off.
 */
module LexUnits {
  import opened Prelude
  import opened Lexer

  const ESC: byte := 0x1b
  const BEL: byte := 0x07
  const BACKSLASH: byte := 0x5c
  const BRACKET: byte := 0x5b

  datatype Unit =
    | Char(bytes: seq<byte>)
    | Escape(inter: seq<byte>, final: byte)                      // ESC I* F
    | Control(body: seq<byte>, final: byte)                      // ESC [ P* I* F
    | Quoted(opener: byte, body: seq<byte>, end: seq<byte>)      // a control string and its terminator
    | CutChar(lead: seq<byte>, next: Unit)                       // a character broken off by what follows
    | CutControl(body: seq<byte>, next: Unit)                    // a control sequence broken off by ESC

  /** How many bytes a character has, from its first. */
  function CharLength(b: byte): nat {
    if 0xC2 <= b <= 0xDF then 2 else if 0xE0 <= b <= 0xEF then 3 else if 0xF0 <= b <= 0xF4 then 4 else 1
  }

  predicate Tails(bytes: seq<byte>) {
    forall i :: 0 <= i < |bytes| ==> Tail(bytes[i])
  }

  /** `]`, `P`, `X`, `^` and `_` open OSC, DCS, SOS, PM and APC. */
  predicate StringOpener(b: byte) { b == 0x5d || b == 0x50 || b == 0x58 || b == 0x5e || b == 0x5f }

  predicate Intermediate(b: byte) { 0x20 <= b <= 0x2F }

  predicate ControlFinal(b: byte) { 0x40 <= b <= 0x7E }

  /** A string's content: neither BEL nor ESC, but for pairs of ESC and a byte that does not make ST. */
  predicate Content(body: seq<byte>) {
    body != [] ==>
      if body[0] == ESC then |body| >= 2 && body[1] != BACKSLASH && Content(body[2..])
      else body[0] != BEL && Content(body[1..])
  }

  function Spelled(u: Unit): (r: seq<byte>)
    ensures u.Escape? || u.Control? || u.Quoted? || u.CutControl? ==> |r| >= 2 && r[0] == ESC
  {
    match u
    case Char(bytes) => bytes
    case Escape(inter, final) => [ESC] + inter + [final]
    case Control(body, final) => [ESC, BRACKET] + body + [final]
    case Quoted(opener, body, end) => [ESC, opener] + body + end
    case CutChar(lead, next) => lead + Spelled(next)
    case CutControl(body, next) => [ESC, BRACKET] + body + Spelled(next)
  }

  /** A whole unit, by the ranges of its bytes. */
  predicate Whole(u: Unit) {
    match u
    case Char(bytes) => bytes != [] && bytes[0] != ESC && |bytes| == CharLength(bytes[0]) && Tails(bytes[1..])
    case Escape(inter, final) =>
      && (forall i :: 0 <= i < |inter| ==> Intermediate(inter[i]))
      && !Intermediate(final) && (inter == [] ==> final != BRACKET && !StringOpener(final))
    case Control(body, final) => Parameters(body) && ControlFinal(final)
    case Quoted(opener, body, end) => StringOpener(opener) && Content(body) && (end == [BEL] || end == [ESC, BACKSLASH])
    case CutChar(lead, next) =>
      && lead != [] && |lead| < CharLength(lead[0]) && Tails(lead[1..])
      && Whole(next) && Spelled(next) != [] && !Tail(Spelled(next)[0])
    case CutControl(body, next) => Parameters(body) && Whole(next) && Spelled(next) != [] && Spelled(next)[0] == ESC
  }

  /** Anything but a final byte or ESC. */
  predicate Parameters(body: seq<byte>) {
    forall i :: 0 <= i < |body| ==> !ControlFinal(body[i]) && body[i] != ESC
  }

  function Spell(units: seq<Unit>): seq<byte> {
    if units == [] then [] else Spelled(units[0]) + Spell(units[1..])
  }

  // ───── Inside one unit ─────

  /** The bytes keep the lexer away from Ground until the last one brings it back. */
  ghost predicate ReturnsAtEnd(s: LexState, bytes: seq<byte>) {
    bytes != [] && forall k :: 1 <= k <= |bytes| ==> (Lex(s, bytes[..k]) == Ground <==> k == |bytes|)
  }

  ghost predicate StaysAway(s: LexState, bytes: seq<byte>) {
    forall k :: 1 <= k <= |bytes| ==> Lex(s, bytes[..k]) != Ground
  }

  lemma {:induction false} LexFront(s: LexState, b: byte, rest: seq<byte>)
    ensures Lex(s, [b] + rest) == Lex(Step(s, b), rest)
  {
    LexSnoc(s, [], b);
    assert [] + [b] == [b];
    LexConcat(s, [b], rest);
  }

  lemma AwayThenReturns(s: LexState, a: seq<byte>, b: seq<byte>)
    requires StaysAway(s, a) && ReturnsAtEnd(Lex(s, a), b)
    ensures ReturnsAtEnd(s, a + b)
  {
    forall k | 1 <= k <= |a + b| ensures Lex(s, (a + b)[..k]) == Ground <==> k == |a + b| {
      if k <= |a| {
        assert (a + b)[..k] == a[..k];
      } else {
        assert (a + b)[..k] == a + b[..k - |a|];
        LexConcat(s, a, b[..k - |a|]);
      }
    }
  }

  lemma AwayTwice(s: LexState, a: seq<byte>, b: seq<byte>)
    requires StaysAway(s, a) && StaysAway(Lex(s, a), b)
    ensures StaysAway(s, a + b)
  {
    forall k | 1 <= k <= |a + b| ensures Lex(s, (a + b)[..k]) != Ground {
      if k <= |a| {
        assert (a + b)[..k] == a[..k];
      } else {
        assert (a + b)[..k] == a + b[..k - |a|];
        LexConcat(s, a, b[..k - |a|]);
      }
    }
  }

  lemma OneByte(s: LexState, b: byte)
    ensures Lex(s, [b]) == Step(s, b)
    ensures Step(s, b) != Ground ==> StaysAway(s, [b])
    ensures Step(s, b) == Ground ==> ReturnsAtEnd(s, [b])
  {
    LexSnoc(s, [], b);
    assert [] + [b] == [b] && [b][..1] == [b];
  }

  /** A state that every byte of a run leads back to. */
  lemma {:induction false} Loops(s: LexState, bytes: seq<byte>)
    requires s != Ground && forall i :: 0 <= i < |bytes| ==> Step(s, bytes[i]) == s
    ensures Lex(s, bytes) == s && StaysAway(s, bytes)
  {
    if bytes != [] {
      Loops(s, bytes[..|bytes| - 1]);
      forall k | 1 <= k <= |bytes| ensures Lex(s, bytes[..k]) != Ground {
        if k < |bytes| {
          assert bytes[..|bytes| - 1][..k] == bytes[..k];
        } else {
          assert bytes[..k] == bytes;
        }
      }
    }
  }

  lemma {:induction false} TailsCount(n: nat, tails: seq<byte>)
    requires Tails(tails) && |tails| < n
    ensures Lex(Utf8(n), tails) == Utf8(n - |tails|) && StaysAway(Utf8(n), tails)
  {
    if tails != [] {
      TailsCount(n, tails[..|tails| - 1]);
      forall k | 1 <= k <= |tails| ensures Lex(Utf8(n), tails[..k]) != Ground {
        if k < |tails| {
          assert tails[..|tails| - 1][..k] == tails[..k];
        } else {
          assert tails[..k] == tails;
        }
      }
    }
  }

  lemma LeadCounts(lead: seq<byte>)
    requires lead != [] && |lead| < CharLength(lead[0]) && Tails(lead[1..])
    ensures Lex(Ground, lead) == Utf8(CharLength(lead[0]) - |lead|) && StaysAway(Ground, lead)
  {
    OneByte(Ground, lead[0]);
    TailsCount(CharLength(lead[0]) - 1, lead[1..]);
    LexConcat(Ground, [lead[0]], lead[1..]);
    AwayTwice(Ground, [lead[0]], lead[1..]);
    assert [lead[0]] + lead[1..] == lead;
  }

  lemma CharReturns(bytes: seq<byte>)
    requires Whole(Char(bytes))
    ensures ReturnsAtEnd(Ground, bytes)
  {
    hide ReturnsAtEnd, StaysAway;
    var last := bytes[|bytes| - 1];
    if |bytes| == 1 {
      assert bytes == [last];
      OneByte(Ground, last);
    } else {
      var lead := bytes[..|bytes| - 1];
      assert lead[1..] == bytes[1..][..|bytes| - 2] && lead + [last] == bytes;
      assert last == bytes[1..][|bytes| - 2];
      LeadCounts(lead);
      OneByte(Utf8(1), last);
      AwayThenReturns(Ground, lead, [last]);
    }
  }

  lemma EscapeReturns(inter: seq<byte>, final: byte)
    requires Whole(Escape(inter, final))
    ensures ReturnsAtEnd(Ground, [ESC] + inter + [final])
  {
    OneByte(Ground, ESC);
    if inter == [] {
      assert [ESC] + inter == [ESC];
      OneByte(Esc, final);
      AwayThenReturns(Ground, [ESC], [final]);
    } else {
      assert Intermediate(inter[0]);
      OneByte(Esc, inter[0]);
      Loops(EscInter, inter[1..]);
      LexConcat(Esc, [inter[0]], inter[1..]);
      AwayTwice(Esc, [inter[0]], inter[1..]);
      assert [inter[0]] + inter[1..] == inter;
      LexConcat(Ground, [ESC], inter);
      AwayTwice(Ground, [ESC], inter);
      OneByte(EscInter, final);
      AwayThenReturns(Ground, [ESC] + inter, [final]);
    }
  }

  lemma ControlOpens(body: seq<byte>)
    requires Parameters(body)
    ensures Lex(Ground, [ESC, BRACKET] + body) == Csi && StaysAway(Ground, [ESC, BRACKET] + body)
  {
    OneByte(Ground, ESC);
    OneByte(Esc, BRACKET);
    LexConcat(Ground, [ESC], [BRACKET]);
    AwayTwice(Ground, [ESC], [BRACKET]);
    assert [ESC] + [BRACKET] == [ESC, BRACKET];
    Loops(Csi, body);
    LexConcat(Ground, [ESC, BRACKET], body);
    AwayTwice(Ground, [ESC, BRACKET], body);
  }

  lemma {:induction false} ContentStaysInside(body: seq<byte>)
    requires Content(body)
    ensures Lex(StringBody, body) == StringBody && StaysAway(StringBody, body)
    decreases |body|
  {
    if body != [] {
      OneByte(StringBody, body[0]);
      if body[0] == ESC {
        var pair, rest := body[..2], body[2..];
        assert pair == [ESC] + [body[1]] && body == pair + rest;
        OneByte(StringEsc, body[1]);
        LexConcat(StringBody, [ESC], [body[1]]);
        AwayTwice(StringBody, [ESC], [body[1]]);
        ContentStaysInside(rest);
        LexConcat(StringBody, pair, rest);
        AwayTwice(StringBody, pair, rest);
      } else {
        assert body == [body[0]] + body[1..];
        ContentStaysInside(body[1..]);
        LexConcat(StringBody, [body[0]], body[1..]);
        AwayTwice(StringBody, [body[0]], body[1..]);
      }
    }
  }

  lemma QuotedReturns(opener: byte, body: seq<byte>, end: seq<byte>)
    requires Whole(Quoted(opener, body, end))
    ensures ReturnsAtEnd(Ground, [ESC, opener] + body + end)
  {
    OneByte(Ground, ESC);
    OneByte(Esc, opener);
    LexConcat(Ground, [ESC], [opener]);
    AwayTwice(Ground, [ESC], [opener]);
    assert [ESC] + [opener] == [ESC, opener];
    ContentStaysInside(body);
    LexConcat(Ground, [ESC, opener], body);
    AwayTwice(Ground, [ESC, opener], body);
    EndReturns(end);
    AwayThenReturns(Ground, [ESC, opener] + body, end);
  }

  lemma EndReturns(end: seq<byte>)
    requires end == [BEL] || end == [ESC, BACKSLASH]
    ensures ReturnsAtEnd(StringBody, end)
  {
    OneByte(StringBody, BEL);
    OneByte(StringBody, ESC);
    OneByte(StringEsc, BACKSLASH);
    AwayThenReturns(StringBody, [ESC], [BACKSLASH]);
    assert [ESC] + [BACKSLASH] == [ESC, BACKSLASH];
  }

  /** Two states that take the first byte alike. */
  lemma SameFromFirst(s: LexState, t: LexState, bytes: seq<byte>)
    requires bytes != [] && Step(s, bytes[0]) == Step(t, bytes[0]) && ReturnsAtEnd(t, bytes)
    ensures ReturnsAtEnd(s, bytes)
  {
    forall k | 1 <= k <= |bytes| ensures Lex(s, bytes[..k]) == Lex(t, bytes[..k]) {
      assert bytes[..k] == [bytes[0]] + bytes[1..k];
      LexFront(s, bytes[0], bytes[1..k]);
      LexFront(t, bytes[0], bytes[1..k]);
    }
  }

  /** Inside a whole unit the lexer is never ground, and right behind it always. */
  lemma {:induction false} UnitReturns(u: Unit)
    requires Whole(u)
    ensures ReturnsAtEnd(Ground, Spelled(u))
  {
    match u
    case Char(bytes) => CharReturns(bytes);
    case Escape(inter, final) => EscapeReturns(inter, final);
    case Control(body, final) =>
      ControlOpens(body);
      OneByte(Csi, final);
      AwayThenReturns(Ground, [ESC, BRACKET] + body, [final]);
    case Quoted(opener, body, end) => QuotedReturns(opener, body, end);
    case CutChar(lead, next) =>
      LeadCounts(lead);
      UnitReturns(next);
      SameFromFirst(Lex(Ground, lead), Ground, Spelled(next));
      AwayThenReturns(Ground, lead, Spelled(next));
    case CutControl(body, next) =>
      ControlOpens(body);
      UnitReturns(next);
      SameFromFirst(Csi, Ground, Spelled(next));
      AwayThenReturns(Ground, [ESC, BRACKET] + body, Spelled(next));
  }

  // ───── Whole streams ─────

  ghost predicate AllWhole(units: seq<Unit>) {
    forall u <- units :: Whole(u)
  }

  /** An end of one of the units, or the start. */
  ghost predicate Boundary(units: seq<Unit>, g: nat) {
    exists i :: 0 <= i <= |units| && g == |Spell(units[..i])|
  }

  lemma BoundaryShifts(units: seq<Unit>, g: nat)
    requires AllWhole(units) && units != [] && 1 <= g
    ensures var n := |Spelled(units[0])|;
      Boundary(units, g) <==> g >= n && Boundary(units[1..], g - n)
  {
    var n, rest := |Spelled(units[0])|, units[1..];
    forall i | 1 <= i <= |units| ensures |Spell(units[..i])| == n + |Spell(rest[..i - 1])| {
      assert units[..i][0] == units[0] && units[..i][1..] == rest[..i - 1];
    }
    if Boundary(units, g) {
      var i :| 0 <= i <= |units| && g == |Spell(units[..i])|;
      assert units[..0] == [];
      assert g - n == |Spell(rest[..i - 1])|;
    }
    if g >= n && Boundary(rest, g - n) {
      var i :| 0 <= i <= |rest| && g - n == |Spell(rest[..i])|;
      assert g == |Spell(units[..i + 1])|;
    }
  }

  /**
   * On a stream of whole units, described by the ranges of their bytes and by nothing else, the ground offsets
   * are exactly the boundaries between units.
   */
  lemma {:induction false} GroundIffBoundary(units: seq<Unit>, g: nat)
    requires AllWhole(units) && g <= |Spell(units)|
    ensures GroundAt(Spell(units), g) <==> Boundary(units, g)
    decreases |units|
  {
    if g == 0 {
      assert units[..0] == [] && Spell(units)[..0] == [];
    } else {
      var u, rest := Spelled(units[0]), units[1..];
      assert units[0] in units;
      UnitReturns(units[0]);
      BoundaryShifts(units, g);
      if g < |u| {
        assert Spell(units)[..g] == u[..g];
      } else {
        assert Spell(units)[..g] == u + Spell(rest)[..g - |u|];
        assert u[..|u|] == u;
        LexConcat(Ground, u, Spell(rest)[..g - |u|]);
        GroundIffBoundary(rest, g - |u|);
      }
    }
  }

  lemma {:induction false} SpellConcat(a: seq<Unit>, b: seq<Unit>)
    ensures Spell(a + b) == Spell(a) + Spell(b)
  {
    if a == [] {
      assert a + b == b;
    } else {
      assert (a + b)[1..] == a[1..] + b;
      SpellConcat(a[1..], b);
    }
  }

  /** What stands behind a boundary is whole units again, whatever the stream has yet to say. */
  lemma CutAtGround(stream: seq<byte>, more: seq<byte>, units: seq<Unit>, g: nat) returns (i: nat)
    requires AllWhole(units) && stream + more == Spell(units) && GroundAt(stream, g)
    ensures i <= |units| && g == |Spell(units[..i])| && stream[g..] + more == Spell(units[i..])
  {
    GroundAtPrefix(stream, more, g);
    GroundIffBoundary(units, g);
    i :| 0 <= i <= |units| && g == |Spell(units[..i])|;
    SpellConcat(units[..i], units[i..]);
    assert units[..i] + units[i..] == units;
    assert stream[g..] + more == (stream + more)[g..];
  }

  /** The characters of RFC 3629 are units of one kind. */
  lemma CharactersAreUnits(c: seq<byte>)
    requires Utf8Char(c) && c != [ESC]
    ensures Whole(Char(c))
  {
  }

  // ───── Every stream is made of units ─────

  lemma FrontMoves(s: LexState, bytes: seq<byte>)
    requires bytes != []
    ensures Lex(s, bytes) == Lex(Step(s, bytes[0]), bytes[1..])
  {
    LexFront(s, bytes[0], bytes[1..]);
    assert [bytes[0]] + bytes[1..] == bytes;
  }

  lemma {:induction false} TakeParameters(bytes: seq<byte>) returns (body: seq<byte>, rest: seq<byte>)
    requires Lex(Csi, bytes) == Ground
    ensures Parameters(body) && bytes == body + rest && rest != [] && Lex(Csi, rest) == Ground
    ensures ControlFinal(rest[0]) || rest[0] == ESC
    decreases |bytes|
  {
    FrontMoves(Csi, bytes);
    if ControlFinal(bytes[0]) || bytes[0] == ESC {
      body, rest := [], bytes;
    } else {
      body, rest := TakeParameters(bytes[1..]);
      body := [bytes[0]] + body;
    }
  }

  lemma {:induction false} TakeIntermediates(bytes: seq<byte>) returns (inter: seq<byte>, rest: seq<byte>)
    requires Lex(EscInter, bytes) == Ground
    ensures (forall i :: 0 <= i < |inter| ==> Intermediate(inter[i])) && bytes == inter + rest
    ensures rest != [] && !Intermediate(rest[0])
    decreases |bytes|
  {
    FrontMoves(EscInter, bytes);
    if Intermediate(bytes[0]) {
      inter, rest := TakeIntermediates(bytes[1..]);
      inter := [bytes[0]] + inter;
    } else {
      inter, rest := [], bytes;
    }
  }

  lemma {:induction false} TakeContent(bytes: seq<byte>) returns (body: seq<byte>, end: seq<byte>, rest: seq<byte>)
    requires Lex(StringBody, bytes) == Ground
    ensures Content(body) && (end == [BEL] || end == [ESC, BACKSLASH]) && bytes == body + end + rest
    decreases |bytes|
  {
    FrontMoves(StringBody, bytes);
    if bytes[0] == BEL {
      body, end, rest := [], [BEL], bytes[1..];
    } else if bytes[0] != ESC {
      body, end, rest := TakeContent(bytes[1..]);
      body := [bytes[0]] + body;
    } else {
      FrontMoves(StringEsc, bytes[1..]);
      assert bytes[1..][1..] == bytes[2..];
      if bytes[1] == BACKSLASH {
        body, end, rest := [], [ESC, BACKSLASH], bytes[2..];
      } else {
        body, end, rest := TakeContent(bytes[2..]);
        var inside := body;
        body := [ESC, bytes[1]] + inside;
        assert body[2..] == inside;
      }
    }
  }

  lemma {:induction false} TakeTails(n: nat, bytes: seq<byte>) returns (tails: seq<byte>, rest: seq<byte>)
    requires n >= 1 && Lex(Utf8(n), bytes) == Ground
    ensures Tails(tails) && |tails| <= n && bytes == tails + rest
    ensures |tails| < n ==> rest != [] && !Tail(rest[0]) && Lex(Ground, rest) == Ground
    decreases |bytes|
  {
    FrontMoves(Utf8(n), bytes);
    if !Tail(bytes[0]) {
      tails, rest := [], bytes;
      FrontMoves(Ground, bytes);
    } else if n == 1 {
      tails, rest := bytes[..1], bytes[1..];
    } else {
      tails, rest := TakeTails(n - 1, bytes[1..]);
      tails := [bytes[0]] + tails;
    }
  }

  lemma CutCharUnit(lead: seq<byte>, next: Unit, after: seq<byte>, rest: seq<byte>)
    requires lead != [] && |lead| < CharLength(lead[0]) && Tails(lead[1..])
    requires Whole(next) && Spelled(next) != [] && after == Spelled(next) + rest && !Tail(after[0])
    ensures Whole(CutChar(lead, next)) && lead + after == Spelled(CutChar(lead, next)) + rest
  {
    Associate(lead, Spelled(next), rest);
  }

  lemma CutControlUnit(body: seq<byte>, next: Unit, after: seq<byte>, rest: seq<byte>)
    requires Parameters(body)
    requires Whole(next) && Spelled(next) != [] && after == Spelled(next) + rest && after[0] == ESC
    ensures Whole(CutControl(body, next))
    ensures [ESC, BRACKET] + (body + after) == Spelled(CutControl(body, next)) + rest
  {
    Associate([ESC, BRACKET], body, after);
    Associate([ESC, BRACKET] + body, Spelled(next), rest);
  }

  lemma QuotedUnit(opener: byte, body: seq<byte>, end: seq<byte>, rest: seq<byte>)
    ensures [ESC, opener] + (body + end + rest) == Spelled(Quoted(opener, body, end)) + rest
  {
    Associate([ESC, opener], body + end, rest);
    Associate([ESC, opener], body, end);
  }

  lemma EscapeUnit(b: byte, inter: seq<byte>, after: seq<byte>)
    requires after != []
    ensures [ESC, b] + (inter + after) == Spelled(Escape([b] + inter, after[0])) + after[1..]
  {
    assert after == [after[0]] + after[1..];
    assert [ESC, b] + inter == [ESC] + ([b] + inter);
    Associate([ESC, b] + inter, [after[0]], after[1..]);
    Associate([ESC, b], inter, after);
  }

  lemma ControlUnit(body: seq<byte>, after: seq<byte>)
    requires after != []
    ensures [ESC, BRACKET] + (body + after) == Spelled(Control(body, after[0])) + after[1..]
  {
    assert after == [after[0]] + after[1..];
    Associate([ESC, BRACKET], body, after);
    Associate([ESC, BRACKET] + body, [after[0]], after[1..]);
  }

  lemma {:induction false} FirstUnit(bytes: seq<byte>) returns (u: Unit, rest: seq<byte>)
    requires bytes != [] && Lex(Ground, bytes) == Ground
    ensures Whole(u) && bytes == Spelled(u) + rest && Spelled(u) != []
    decreases |bytes|, 3
  {
    if bytes[0] == ESC {
      u, rest := FirstEscape(bytes);
    } else if CharLength(bytes[0]) == 1 {
      u, rest := Char(bytes[..1]), bytes[1..];
    } else {
      u, rest := FirstLong(bytes);
    }
  }

  lemma {:induction false} FirstLong(bytes: seq<byte>) returns (u: Unit, rest: seq<byte>)
    requires bytes != [] && bytes[0] != ESC && CharLength(bytes[0]) > 1 && Lex(Ground, bytes) == Ground
    ensures Whole(u) && bytes == Spelled(u) + rest && Spelled(u) != []
    decreases |bytes|, 2
  {
    hide Lex;
    FrontMoves(Ground, bytes);
    var tails, after := TakeTails(CharLength(bytes[0]) - 1, bytes[1..]);
    var lead := [bytes[0]] + tails;
    assert lead[1..] == tails && bytes == lead + after;
    if |lead| == CharLength(bytes[0]) {
      u, rest := Char(lead), after;
    } else {
      var next;
      next, rest := FirstUnit(after);
      u := CutChar(lead, next);
      CutCharUnit(lead, next, after, rest);
    }
  }

  lemma {:induction false} FirstEscape(bytes: seq<byte>) returns (u: Unit, rest: seq<byte>)
    requires bytes != [] && bytes[0] == ESC && Lex(Ground, bytes) == Ground
    ensures Whole(u) && bytes == Spelled(u) + rest && Spelled(u) != []
    decreases |bytes|, 1
  {
    hide Lex, Content, Spelled;
    FrontMoves(Ground, bytes);
    assert bytes[1..] != [] by { EndsWhereItIs(Esc); }
    FrontMoves(Esc, bytes[1..]);
    var more := bytes[1..][1..];
    assert bytes == [ESC, bytes[1]] + more;
    if bytes[1] == BRACKET {
      u, rest := FirstControl(more);
    } else if StringOpener(bytes[1]) {
      var body, end, after := TakeContent(more);
      u, rest := Quoted(bytes[1], body, end), after;
      QuotedUnit(bytes[1], body, end, rest);
    } else if Intermediate(bytes[1]) {
      var inter, after := TakeIntermediates(more);
      u, rest := Escape([bytes[1]] + inter, after[0]), after[1..];
      EscapeUnit(bytes[1], inter, after);
    } else {
      u, rest := Escape([], bytes[1]), more;
      ShortEscape(bytes[1], more);
    }
  }

  lemma EndsWhereItIs(s: LexState)
    ensures Lex(s, []) == s
  {
  }

  lemma ShortEscape(b: byte, rest: seq<byte>)
    ensures [ESC, b] + rest == Spelled(Escape([], b)) + rest
  {
    assert [ESC] + [] + [b] == [ESC, b];
  }

  lemma {:induction false} FirstControl(more: seq<byte>) returns (u: Unit, rest: seq<byte>)
    requires Lex(Csi, more) == Ground
    ensures Whole(u) && [ESC, BRACKET] + more == Spelled(u) + rest && Spelled(u) != []
    decreases |more| + 2, 0
  {
    hide Lex, Spelled;
    var body, after := TakeParameters(more);
    if after[0] == ESC {
      FrontMoves(Csi, after);
      FrontMoves(Ground, after);
      var next;
      next, rest := FirstUnit(after);
      u := CutControl(body, next);
      CutControlUnit(body, next, after, rest);
    } else {
      u, rest := Control(body, after[0]), after[1..];
      ControlUnit(body, after);
    }
  }

  /** So the description leaves nothing out: a stream ends on a ground offset exactly when it is whole units. */
  lemma {:induction false} GroundStreamIsUnits(stream: seq<byte>) returns (units: seq<Unit>)
    requires Lex(Ground, stream) == Ground
    ensures AllWhole(units) && Spell(units) == stream
    decreases |stream|
  {
    if stream == [] {
      units := [];
    } else {
      var u, rest := FirstUnit(stream);
      UnitReturns(u);
      assert Spelled(u)[..|Spelled(u)|] == Spelled(u);
      LexConcat(Ground, Spelled(u), rest);
      units := GroundStreamIsUnits(rest);
      units := [u] + units;
    }
  }

  lemma GroundIffUnits(stream: seq<byte>, g: nat)
    requires g <= |stream|
    ensures GroundAt(stream, g) <==> exists units :: AllWhole(units) && Spell(units) == stream[..g]
  {
    if GroundAt(stream, g) {
      var units := GroundStreamIsUnits(stream[..g]);
    }
    if units :| AllWhole(units) && Spell(units) == stream[..g] {
      GroundIffBoundary(units, g);
      assert units[..|units|] == units && stream[..g][..g] == stream[..g];
    }
  }
}