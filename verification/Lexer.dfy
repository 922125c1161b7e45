/**
 * The small UTF-8 + ECMA-48 lexer the holder runs over the PTY stream. An offset is
 * "ground" when the lexer, fed the stream from byte 0 up to it, sits between tokens.
 */
module Lexer {
  import opened Prelude

  const ESC: byte := 0x1b
  const BEL: byte := 0x07

  datatype LexState = Ground | Esc | EscInter | Csi | StringBody | StringEsc | Utf8(n: nat)

  function Step(state: LexState, b: byte): LexState
    decreases if state.Utf8? then 1 else 0
  {
    match state
    case Utf8(n) =>
      if 0x80 <= b <= 0xBF then (if n <= 1 then Ground else Utf8(n - 1))
      else Step(Ground, b)
    case Ground =>
      if b == ESC then Esc
      else if 0xC2 <= b <= 0xDF then Utf8(1)
      else if 0xE0 <= b <= 0xEF then Utf8(2)
      else if 0xF0 <= b <= 0xF4 then Utf8(3)
      else Ground
    case Esc =>
      if b == 0x5b then Csi
      else if OpensString(b) then StringBody
      else if 0x20 <= b <= 0x2F then EscInter
      else Ground
    case EscInter => if 0x20 <= b <= 0x2F then EscInter else Ground
    case Csi =>
      if 0x40 <= b <= 0x7E then Ground
      else if b == ESC then Esc
      else Csi
    case StringBody =>
      if b == BEL then Ground
      else if b == ESC then StringEsc
      else StringBody
    case StringEsc => if b == 0x5c then Ground else StringBody
  }

  /** OSC, DCS, SOS, PM and APC: after ESC, one of `]`, `P`, `X`, `^`, `_`. */
  predicate OpensString(b: byte) {
    b == 0x5d || b == 0x50 || b == 0x58 || b == 0x5e || b == 0x5f
  }

  /** The lexer's state after `data`, starting from `state`. */
  function Lex(state: LexState, data: seq<byte>): LexState {
    if data == [] then state else Step(Lex(state, data[..|data| - 1]), data[|data| - 1])
  }

  ghost predicate GroundAt(stream: seq<byte>, g: nat) {
    g <= |stream| && Lex(Ground, stream[..g]) == Ground
  }

  lemma {:induction false} LexConcat(state: LexState, a: seq<byte>, b: seq<byte>)
    ensures Lex(state, a + b) == Lex(Lex(state, a), b)
  {
    if b == [] {
      assert a + b == a;
    } else {
      var init := b[..|b| - 1];
      assert (a + b)[..|a + b| - 1] == a + init;
      LexConcat(state, a, init);
    }
  }

  lemma LexSnoc(state: LexState, data: seq<byte>, b: byte)
    ensures Lex(state, data + [b]) == Step(Lex(state, data), b)
  {
    assert (data + [b])[..|data|] == data;
  }

  /** Lexing afresh from a ground offset visits the states of the real stream. */
  lemma ReplayFromGround(stream: seq<byte>, b: nat, k: nat)
    requires GroundAt(stream, b) && b <= k <= |stream|
    ensures Lex(Ground, stream[b..k]) == Lex(Ground, stream[..k])
  {
    assert stream[..k] == stream[..b] + stream[b..k];
    LexConcat(Ground, stream[..b], stream[b..k]);
  }

  lemma GroundAtPrefix(stream: seq<byte>, more: seq<byte>, g: nat)
    requires g <= |stream|
    ensures GroundAt(stream + more, g) <==> GroundAt(stream, g)
  {
    assert (stream + more)[..g] == stream[..g];
  }

  // ───── What "ground" means, independently of the automaton ─────

  predicate Tail(b: byte) { 0x80 <= b <= 0xBF }

  /** One character as section 4 of RFC 3629 spells it out. */
  predicate Utf8Char(c: seq<byte>) {
    match |c|
    case 1 => c[0] <= 0x7F
    case 2 => 0xC2 <= c[0] <= 0xDF && Tail(c[1])
    case 3 =>
      && Tail(c[1]) && Tail(c[2])
      && (|| (c[0] == 0xE0 && 0xA0 <= c[1])
          || (0xE1 <= c[0] <= 0xEC)
          || (c[0] == 0xED && c[1] <= 0x9F)
          || (0xEE <= c[0] <= 0xEF))
    case 4 =>
      && Tail(c[1]) && Tail(c[2]) && Tail(c[3])
      && (|| (c[0] == 0xF0 && 0x90 <= c[1])
          || (0xF1 <= c[0] <= 0xF3)
          || (c[0] == 0xF4 && c[1] <= 0x8F))
    case _ => false
  }

  /** Text: well-formed characters, none of them ESC. */
  ghost predicate Text(chars: seq<seq<byte>>) {
    forall c <- chars :: Utf8Char(c) && c != [ESC]
  }

  /** Inside one character the lexer is ground only at its two ends. */
  lemma CharLex(c: seq<byte>, k: nat)
    requires Utf8Char(c) && c != [ESC] && k <= |c|
    ensures Lex(Ground, c[..k]) == if k == 0 || k == |c| then Ground else Utf8(|c| - k)
  {
    if k > 0 {
      CharLex(c, k - 1);
      assert c[..k][..k - 1] == c[..k - 1];
      if |c| == 1 {
        assert c == [c[0]];
      }
    }
  }

  /** On text, the ground offsets are exactly the boundaries between characters. */
  lemma {:induction false} TextGround(chars: seq<seq<byte>>, g: nat)
    requires Text(chars) && g <= |Flatten(chars)|
    ensures GroundAt(Flatten(chars), g) <==> exists i :: 0 <= i <= |chars| && g == |Flatten(chars[..i])|
  {
    if chars == [] {
      assert |Flatten(chars[..0])| == 0;
    } else {
      var c, rest := chars[0], chars[1..];
      var all := Flatten(chars);
      assert c in chars;
      CharLex(c, |c|);
      assert c[..|c|] == c;
      if g <= |c| {
        CharLex(c, g);
        assert all[..g] == c[..g];
        assert chars[..0] == [] && chars[..1] == [c];
        assert |Flatten(chars[..0])| == 0 && Flatten(chars[..1]) == c;
        forall i | 2 <= i <= |chars| ensures |Flatten(chars[..i])| > |c| {
          assert chars[1] in chars;
          assert chars[..i] == [c] + chars[1..i] && chars[1..i][0] == chars[1];
          assert Flatten(chars[..i]) == c + Flatten(chars[1..i]);
        }
      } else {
        assert all[..g] == c + Flatten(rest)[..g - |c|];
        LexConcat(Ground, c, Flatten(rest)[..g - |c|]);
        TextGround(rest, g - |c|);
        forall i | 1 <= i <= |chars| ensures |Flatten(chars[..i])| == |c| + |Flatten(rest[..i - 1])| {
          assert chars[..i] == [c] + rest[..i - 1];
        }
        if GroundAt(all, g) {
          var i :| 0 <= i <= |rest| && g - |c| == |Flatten(rest[..i])|;
          assert g == |Flatten(chars[..i + 1])|;
        } else {
          forall i | 0 <= i <= |chars| ensures g != |Flatten(chars[..i])| {
            if i > 0 {
              assert rest[..i - 1] == chars[..i][1..];
            }
          }
        }
      }
    }
  }

  /** A string body that has neither BEL nor ST (ESC `\`) in it. */
  ghost predicate Unterminated(body: seq<byte>) {
    && (forall i :: 0 <= i < |body| ==> body[i] != BEL)
    && (forall i :: 0 <= i < |body| - 1 ==> !(body[i] == ESC && body[i + 1] == 0x5c))
  }

  lemma {:induction false} InsideBody(body: seq<byte>)
    requires Unterminated(body)
    ensures Lex(StringBody, body) == StringBody || Lex(StringBody, body) == StringEsc
    ensures Lex(StringBody, body) == StringEsc ==> body != [] && body[|body| - 1] == ESC
  {
    if body != [] {
      InsideBody(body[..|body| - 1]);
    }
  }

  lemma OpenerLex(opener: byte)
    requires OpensString(opener)
    ensures Lex(Ground, [ESC, opener]) == StringBody
  {
    LexSnoc(Ground, [], ESC);
    LexSnoc(Ground, [ESC], opener);
    assert [] + [ESC] == [ESC] && [ESC] + [opener] == [ESC, opener];
  }

  lemma InsideString(opener: byte, body: seq<byte>, k: nat)
    requires OpensString(opener) && Unterminated(body) && 1 <= k <= 2 + |body|
    ensures Lex(Ground, ([ESC, opener] + body)[..k]) != Ground
  {
    var inside := ([ESC, opener] + body)[..k];
    if k == 1 {
      assert inside == [] + [ESC];
      LexSnoc(Ground, [], ESC);
    } else {
      assert inside == [ESC, opener] + body[..k - 2];
      LexConcat(Ground, [ESC, opener], body[..k - 2]);
      OpenerLex(opener);
      InsideBody(body[..k - 2]);
    }
  }

  /** No offset inside an open control string is ground, however long it runs. */
  lemma StringIsNeverGround(before: seq<byte>, opener: byte, body: seq<byte>, g: nat)
    requires Lex(Ground, before) == Ground && OpensString(opener) && Unterminated(body)
    requires |before| < g <= |before| + 2 + |body|
    ensures !GroundAt(before + [ESC, opener] + body, g)
  {
    var inside := ([ESC, opener] + body)[..g - |before|];
    assert (before + [ESC, opener] + body)[..g] == before + inside;
    LexConcat(Ground, before, inside);
    InsideString(opener, body, g - |before|);
  }
}
