/** The sync-block filter as it is written: a byte loop over fields that are buffers and flags. */
module SyncBlock {
  import opened Prelude
  import opened SyncModel
  import SyncProofs

  const ESC: byte := 0x1b
  const BEL: byte := 0x07

  lemma BytesConcat(a: seq<Cell>, b: seq<Cell>)
    ensures Bytes(a + b) == Bytes(a) + Bytes(b)
  {
  }

  datatype Action = Preserve | StartBlock | EndBlock

  function TokenFor(action: Action, cells: seq<Cell>): Token {
    match action
    case Preserve => Control(cells)
    case StartBlock => Start(cells)
    case EndBlock => End(cells)
  }

  lemma ParseControlByte(p: Parser, c: Cell)
    requires p.state != Ground
    ensures var next, cells := Next(p.state, c.b), p.control + [c];
            ParseByte(p, c) == if next == Ground then Parsed(Parser(Ground, []), [Classify(p.state, cells)])
                               else Parsed(Parser(next, cells), [])
  {
  }

  /** Some token opens a block. */
  predicate Opens(tokens: seq<Token>) {
    exists i :: 0 <= i < |tokens| && tokens[i].Start?
  }

  lemma NothingOpens(p: Parser)
    ensures !Opens(Scan(p, []).tokens)
  {
  }

  lemma FeedByteParses(a: Acc, c: Cell)
    ensures FeedByte(a, c).parser == ParseByte(a.parser, c).parser
  {
    hide ParseByte, Guard, Take;
    TakeParses(a, ParseByte(a.parser, c));
    GuardParses(Take(a, ParseByte(a.parser, c)));
  }

  lemma TakeParses(a: Acc, r: Parsed)
    ensures Take(a, r).parser == r.parser
  {
  }

  lemma GuardParses(a: Acc)
    ensures Guard(a).parser == a.parser
  {
  }

  lemma ScanUnfolds(p: Parser, input: seq<Cell>)
    requires input != []
    ensures var r := ParseByte(p, input[0]);
      Scan(p, input).tokens == r.token + Scan(r.parser, input[1..]).tokens
  {
    hide ParseByte;
  }

  lemma OpensEarlyOrLate(a: Acc, input: seq<Cell>)
    requires input != []
    ensures Opens(Scan(a.parser, input).tokens) <==>
      Opens(ParseByte(a.parser, input[0]).token)
      || Opens(Scan(FeedByte(a, input[0]).parser, input[1..]).tokens)
  {
    hide ParseByte, FeedByte, Scan, Opens;
    FeedByteParses(a, input[0]);
    ScanUnfolds(a.parser, input);
    OpensConcat(ParseByte(a.parser, input[0]).token, Scan(FeedByte(a, input[0]).parser, input[1..]).tokens);
  }

  lemma OpensConcat(a: seq<Token>, b: seq<Token>)
    ensures Opens(a + b) <==> Opens(a) || Opens(b)
  {
    if Opens(b) {
      var i :| 0 <= i < |b| && b[i].Start?;
      assert (a + b)[|a| + i].Start?;
    }
    if Opens(a) {
      var i :| 0 <= i < |a| && a[i].Start?;
      assert (a + b)[i].Start?;
    }
  }

  class SyncBlockFilter {
    var state: ParseState
    var controlBytes: seq<byte>
    var visibleBytes: seq<byte>
    var syncTextBytes: seq<byte>
    var visibleChunks: seq<seq<byte>>
    var syncChunks: seq<seq<byte>>
    var syncBytes: nat
    var syncOpen: bool
    var syncObserved: bool

    /** Texts, chunks and the open flag hold what the model's cells say. */
    ghost predicate Buffers(a: Acc)
      reads `visibleBytes, `syncTextBytes, `visibleChunks, `syncChunks, `syncBytes, `syncOpen
    {
      && visibleBytes == Bytes(a.visibleText) && Flatten(visibleChunks) == Bytes(a.visible)
      && syncTextBytes == Bytes(a.syncText) && Flatten(syncChunks) == Bytes(a.sync)
      && syncBytes == |a.sync| && syncOpen == a.open
    }

    ghost predicate Parses(p: Parser)
      reads `state, `controlBytes
    {
      state == p.state && controlBytes == Bytes(p.control) && Settled(p)
    }

    /** Between calls nothing is on its way out, and all that is held is in chunks. */
    ghost predicate Idle(f: Filter)
      reads this
    {
      && Parses(f.parser) && Ready(f)
      && visibleBytes == [] && syncTextBytes == []
      && Flatten(syncChunks) == Bytes(f.held) && syncBytes == |f.held| && syncOpen == f.open
    }

    constructor ()
      ensures Idle(FRESH)
    {
      state, controlBytes, visibleBytes, syncTextBytes := Ground, [], [], [];
      visibleChunks, syncChunks, syncBytes, syncOpen, syncObserved := [], [], 0, false, false;
    }

    method FlushVisible(ghost a: Acc)
      requires Buffers(a)
      modifies `visibleChunks, `visibleBytes
      ensures Buffers(a.(visible := a.visible + a.visibleText, visibleText := []))
    {
      BytesConcat(a.visible, a.visibleText);
      if |visibleBytes| == 0 { return; }
      FlattenSnoc(visibleChunks, visibleBytes);
      visibleChunks := visibleChunks + [visibleBytes];
      visibleBytes := [];
    }

    method FlushSync(ghost a: Acc)
      requires Buffers(a)
      modifies `syncChunks, `syncBytes, `syncTextBytes
      ensures Buffers(a.(sync := a.sync + a.syncText, syncText := []))
    {
      BytesConcat(a.sync, a.syncText);
      if |syncTextBytes| == 0 { return; }
      FlattenSnoc(syncChunks, syncTextBytes);
      syncChunks := syncChunks + [syncTextBytes];
      syncBytes := syncBytes + |syncTextBytes|;
      syncTextBytes := [];
    }

    method PushVisibleByte(b: byte, ghost a: Acc, ghost c: Cell)
      requires Buffers(a) && c.b == b
      modifies `syncTextBytes, `visibleBytes
      ensures Buffers(TakeToken(a, Text(c)))
    {
      BytesConcat(a.syncText, [c]);
      BytesConcat(a.visibleText, [c]);
      if syncOpen {
        syncTextBytes := syncTextBytes + [b];
      } else {
        visibleBytes := visibleBytes + [b];
      }
    }

    /** A control sequence becomes a chunk of its own, behind the text before it. */
    method PushControl(bytes: seq<byte>, ghost a: Acc, ghost cells: seq<Cell>)
      requires Buffers(a) && bytes == Bytes(cells)
      modifies `syncChunks, `syncBytes, `syncTextBytes, `visibleChunks, `visibleBytes
      ensures Buffers(TakeToken(a, Control(cells)))
    {
      BytesConcat(a.sync + a.syncText, cells);
      BytesConcat(a.visible + a.visibleText, cells);
      if syncOpen { FlushSync(a); } else { FlushVisible(a); }
      if syncOpen {
        FlattenSnoc(syncChunks, bytes);
        syncChunks := syncChunks + [bytes];
        syncBytes := syncBytes + |bytes|;
      } else {
        FlattenSnoc(visibleChunks, bytes);
        visibleChunks := visibleChunks + [bytes];
      }
    }

    /** End a sequence: keep it, or drop it and open or close the block. */
    method FinishSequence(action: Action, ghost a: Acc, ghost cells: seq<Cell>)
      requires Buffers(a) && controlBytes == Bytes(cells)
      modifies this
      ensures Buffers(TakeToken(a, TokenFor(action, cells))) && Parses(Parser(Ground, []))
      ensures syncObserved == (old(syncObserved) || action != Preserve)
    {
      if action == Preserve {
        PushControl(controlBytes, a, cells);
      }
      controlBytes := [];
      if action == StartBlock {
        syncObserved, syncOpen := true, true;
      } else if action == EndBlock {
        syncObserved, syncOpen := true, false;
      }
      state := Ground;
    }

    /** Let the open block go. */
    method AbortOpenBlock(ghost a: Acc) returns (chunk: Option<seq<byte>>)
      requires Buffers(a) && (!a.open ==> a.sync + a.syncText == [])
      modifies `syncChunks, `syncBytes, `syncTextBytes, `syncOpen
      ensures Buffers(a.(open := false, sync := [], syncText := []))
      ensures (if chunk.Some? then chunk.value else []) == Bytes(a.sync + a.syncText)
    {
      FlushSync(a);
      if !syncOpen || syncBytes == 0 {
        syncOpen, syncChunks, syncBytes := false, [], 0;
        return None;
      }
      chunk := Some(Flatten(syncChunks));
      syncOpen, syncChunks, syncBytes := false, [], 0;
    }

    /** What one byte through the parser does to the filter. */
    ghost predicate Stepped(a: Acc, r: Parsed, started: bool, ended: bool)
      reads this
    {
      && Buffers(Take(a, r)) && Parses(r.parser)
      && (ended <==> r.token != [] && r.token[0].End?)
      && (started <==> r.token != [] && r.token[0].Start?)
    }

    /** The switch: one byte through the parser. Returns the marker it completed, if any. */
    method ParseOne(b: byte, ghost a: Acc, ghost c: Cell) returns (started: bool, ended: bool)
      requires Buffers(a) && Parses(a.parser) && c.b == b
      modifies this
      ensures Stepped(a, ParseByte(a.parser, c), started, ended)
      ensures syncObserved == (old(syncObserved) || started || ended)
    {
      started, ended := false, false;
      if state == Ground {
        if b == ESC {
          controlBytes := [b];
          state := Esc;
        } else {
          PushVisibleByte(b, a.(parser := Parser(Ground, [])), c);
        }
        return;
      }
      started, ended := ParseControl(b, a, c);
    }

    method ParseControl(b: byte, ghost a: Acc, ghost c: Cell) returns (started: bool, ended: bool)
      requires Buffers(a) && Parses(a.parser) && c.b == b && state != Ground
      modifies this
      ensures Stepped(a, ParseByte(a.parser, c), started, ended)
      ensures syncObserved == (old(syncObserved) || started || ended)
    {
      ghost var cells := a.parser.control + [c];
      ghost var a1 := a.(parser := Parser(Ground, []));
      BytesConcat(a.parser.control, [c]);
      ParseControlByte(a.parser, c);
      hide ParseByte;
      controlBytes := controlBytes + [b];
      started, ended := false, false;
      match state
      case Esc => ParseEsc(b, a1, cells);
      case Csi => started, ended := ParseCsi(b, a1, cells);
      case Osc => ParseOsc(b, a1, Osc, cells);
      case OscEsc => ParseOsc(b, a1, OscEsc, cells);
      case Ground =>
      case _ => ParseString(b, a1, a.parser.state, cells);
    }

    /** OSC: up to BEL, or ESC and any byte. */
    method ParseOsc(b: byte, ghost a1: Acc, ghost from: ParseState, ghost cells: seq<Cell>)
      requires Buffers(a1) && controlBytes == Bytes(cells) && cells != [] && state == from
      requires from in {Osc, OscEsc}
      modifies this
      ensures syncObserved == old(syncObserved)
      ensures var next := Next(from, b);
              if next == Ground
              then Buffers(TakeToken(a1, Control(cells))) && Parses(Parser(Ground, []))
              else Buffers(a1) && Parses(Parser(next, cells))
    {
      if state == OscEsc || b == BEL { FinishSequence(Preserve, a1, cells); }
      else if b == ESC { state := OscEsc; }
    }

    method ParseEsc(b: byte, ghost a1: Acc, ghost cells: seq<Cell>)
      requires Buffers(a1) && controlBytes == Bytes(cells) && cells != [] && state == Esc
      modifies this
      ensures syncObserved == old(syncObserved)
      ensures var next := FromEsc(b);
              if next == Ground
              then Buffers(TakeToken(a1, Control(cells))) && Parses(Parser(Ground, []))
              else Buffers(a1) && Parses(Parser(next, cells))
    {
      if b == 0x5b { state := Csi; }
      else if b == 0x5d { state := Osc; }
      else if b == 0x50 { state := Dcs; }
      else if b == 0x5f { state := Apc; }
      else if b == 0x5e { state := Pm; }
      else if b == 0x58 { state := Sos; }
      else { FinishSequence(Preserve, a1, cells); }
    }

    method ParseCsi(b: byte, ghost a1: Acc, ghost cells: seq<Cell>) returns (started: bool, ended: bool)
      requires Buffers(a1) && controlBytes == Bytes(cells) && cells != [] && state == Csi
      modifies this
      ensures syncObserved == (old(syncObserved) || started || ended)
      ensures if 0x40 <= b <= 0x7e
              then
                var t := Classify(Csi, cells);
                Buffers(TakeToken(a1, t)) && Parses(Parser(Ground, [])) && started == t.Start? && ended == t.End?
              else Buffers(a1) && Parses(Parser(Csi, cells)) && !started && !ended
    {
      started, ended := false, false;
      if !(0x40 <= b <= 0x7e) { return; }
      if controlBytes == START_MARK {
        FinishSequence(StartBlock, a1, cells);
        started := true;
      } else if controlBytes == END_MARK {
        FinishSequence(EndBlock, a1, cells);
        ended := true;
      } else {
        FinishSequence(Preserve, a1, cells);
      }
    }

    /** DCS, APC, PM and SOS: everything up to ESC `\`. */
    method ParseString(b: byte, ghost a1: Acc, ghost from: ParseState, ghost cells: seq<Cell>)
      requires Buffers(a1) && controlBytes == Bytes(cells) && cells != [] && state == from
      requires from !in {Ground, Esc, Csi, Osc, OscEsc}
      modifies this
      ensures syncObserved == old(syncObserved)
      ensures var next := Next(from, b);
              if next == Ground
              then Buffers(TakeToken(a1, Control(cells))) && Parses(Parser(Ground, []))
              else Buffers(a1) && Parses(Parser(next, cells))
    {
      match state
      case Dcs => if b == ESC { state := DcsEsc; }
      case DcsEsc => if b == 0x5c { FinishSequence(Preserve, a1, cells); } else { state := Dcs; }
      case Apc => if b == ESC { state := ApcEsc; }
      case ApcEsc => if b == 0x5c { FinishSequence(Preserve, a1, cells); } else { state := Apc; }
      case Pm => if b == ESC { state := PmEsc; }
      case PmEsc => if b == 0x5c { FinishSequence(Preserve, a1, cells); } else { state := Pm; }
      case Sos => if b == ESC { state := SosEsc; }
      case SosEsc => if b == 0x5c { FinishSequence(Preserve, a1, cells); } else { state := Sos; }
    }

    /** A block past its limit goes out whole. */
    method CheckOverflow(ghost a: Acc) returns (overflowed: bool)
      requires Buffers(a)
      modifies `syncChunks, `syncBytes, `syncTextBytes, `syncOpen, `visibleChunks
      ensures Buffers(Guard(a))
      ensures Guard(a).overflowed == (a.overflowed || overflowed)
    {
      if !(syncOpen && syncBytes > MAX_SYNC_BUFFER_BYTES) { return false; }
      FlushSync(a);
      ghost var a1 := a.(sync := a.sync + a.syncText, syncText := []);
      var raw := AbortOpenBlock(a1);
      assert a1.sync + a1.syncText == a.sync + a.syncText;
      if raw.Some? && |raw.value| > 0 {
        BytesConcat(a.visible, a.sync + a.syncText);
        Associate(a.visible, a.sync, a.syncText);
        FlattenSnoc(visibleChunks, raw.value);
        visibleChunks := visibleChunks + [raw.value];
      }
      return true;
    }

    method ProcessByte(b: byte, ghost a: Acc, ghost c: Cell) returns (started: bool, ended: bool, overflowed: bool)
      requires Buffers(a) && Parses(a.parser) && c.b == b
      modifies this
      ensures var next := FeedByte(a, c);
              && Buffers(next) && Parses(next.parser)
              && next.ended == (a.ended || ended) && next.overflowed == (a.overflowed || overflowed)
      ensures started <==> Opens(ParseByte(a.parser, c).token)
      ensures syncObserved == (old(syncObserved) || started || ended)
    {
      ghost var r := ParseByte(a.parser, c);
      ParseByteKeepsInput(a.parser, c);
      started, ended := ParseOne(b, a, c);
      hide ParseByte;
      overflowed := CheckOverflow(Take(a, r));
    }

    /** The byte loop of a call. */
    method ParseAll(data: seq<byte>, ghost f: Filter, ghost cells: seq<Cell>)
      returns (started: bool, ended: bool, overflowed: bool)
      requires Buffers(Begin(f)) && Parses(f.parser) && data == Bytes(cells)
      modifies this
      ensures var a := Feed(Begin(f), cells);
              && Buffers(a) && Parses(a.parser) && ended == a.ended && overflowed == a.overflowed
      ensures started <==> Opens(Scan(f.parser, cells).tokens)
      ensures syncObserved == (old(syncObserved) || started || ended)
    {
      hide FeedByte, ParseByte, Opens, Scan, Finish;
      started, ended, overflowed := false, false, false;
      ghost var a := Begin(f);
      var i := 0;
      while i < |data|
        invariant i <= |data|
        invariant Buffers(a) && Parses(a.parser)
        invariant ended == a.ended && overflowed == a.overflowed
        invariant Feed(Begin(f), cells) == Feed(a, cells[i..])
        invariant Opens(Scan(f.parser, cells).tokens) <==> started || Opens(Scan(a.parser, cells[i..]).tokens)
        invariant syncObserved == (old(syncObserved) || started || ended)
      {
        var starts, ends, over := ProcessByte(data[i], a, cells[i]);
        if starts { started := true; }
        if ends { ended := true; }
        if over { overflowed := true; }
        assert cells[i..][1..] == cells[i + 1..];
        assert cells[i..][0] == cells[i];
        OpensEarlyOrLate(a, cells[i..]);
        a := FeedByte(a, cells[i]);
        i := i + 1;
      }
      assert cells[i..] == [];
      NothingOpens(a.parser);
    }

    /** One call: the filter's step, and the counts that the caller is told. */
    method Process(data: seq<byte>, ghost f: Filter, ghost cells: seq<Cell>)
      returns (emitted: seq<seq<byte>>, started: bool, ended: bool, coalescedBytes: nat, overflowed: bool)
      requires Idle(f) && data == Bytes(cells)
      modifies this
      ensures Idle(SyncModel.Process(f, cells).filter)
      ensures Flatten(emitted) == Bytes(SyncModel.Process(f, cells).emitted)
      ensures overflowed == SyncModel.Process(f, cells).overflowed
      ensures started <==> Opens(Scan(f.parser, cells).tokens)
      ensures ended <==> Feed(Begin(f), cells).ended
      ensures coalescedBytes == if ended then |SyncProofs.Held(Feed(Begin(f), cells))| else 0
      ensures syncObserved == (old(syncObserved) || started || ended)
    {
      SyncProofs.ReadyAfter(f, cells);
      hide Feed, Scan, Opens;
      visibleChunks := [];
      started, ended, overflowed := ParseAll(data, f, cells);
      emitted, coalescedBytes := EmitAll(Feed(Begin(f), cells), ended);
    }

    /** The end of a call: texts become chunks, and a closed block goes out behind them. */
    method EmitAll(ghost a: Acc, ended: bool) returns (emitted: seq<seq<byte>>, coalescedBytes: nat)
      requires Buffers(a) && Parses(a.parser) && ended == a.ended
      requires Ready(Finish(a).filter)
      modifies this
      ensures Idle(Finish(a).filter)
      ensures Flatten(emitted) == Bytes(Finish(a).emitted)
      ensures coalescedBytes == if ended then |SyncProofs.Held(a)| else 0
      ensures syncObserved == old(syncObserved)
    {
      FlushVisible(a);
      ghost var a1 := a.(visible := a.visible + a.visibleText, visibleText := []);
      FlushSync(a1);
      BytesConcat(a.visible + a.visibleText, a.sync + a.syncText);
      emitted := visibleChunks;
      coalescedBytes := 0;
      if ended {
        if syncBytes > 0 {
          var chunk := Flatten(syncChunks);
          FlattenSnoc(emitted, chunk);
          emitted := emitted + [chunk];
          coalescedBytes := |chunk|;
        }
        syncChunks, syncBytes := [], 0;
      }
    }
  }
}
