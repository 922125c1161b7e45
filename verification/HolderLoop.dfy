/**
 * The holder's event loop as it is written: arms that update the ring, the anchors and the lease
 * in place. The two frame readers stand here as the bytes they hold (`FrameReader` proves that its
 * operations on the array are `Next`, `Decode` and `PushBack` on those bytes).
 */
module HolderLoop {
  import opened Prelude
  import opened Anchors
  import opened Frames
  import opened Recorder
  import opened HolderModel
  import opened HolderProofs

  class EventLoop {
    const store: Recorder
    var seqNo: nat
    var alive: bool
    var cols: nat
    var rows: nat
    var client: Option<Conn>
    var reader: seq<byte>
    var pending: Option<Conn>
    var pendingReader: seq<byte>
    var generation: nat
    var ptyInput: seq<Typed>
    var sent: seq<Sent>
    ghost var heard: map<Conn, seq<byte>>
    ghost var ran: map<Conn, seq<Frame>>
    ghost var claimed: set<Conn>

    /** The loop's variables, as the state machine's state. */
    ghost function View(): Holder
      reads this, store
    {
      Holder(store.cap, store.history, store.dropped, seqNo, alive, cols, rows,
             client, reader, pending, pendingReader, generation,
             ptyInput, sent, heard, ran, claimed)
    }

    ghost predicate Valid()
      reads this, store, store.repr
    {
      && store.Valid() && this !in store.repr
      && Inv(View())
    }

    constructor (capacity: nat, initialCols: nat, initialRows: nat)
      ensures Valid() && fresh(store) && fresh(store.repr)
      ensures View() == Start(capacity, initialCols, initialRows)
    {
      store := new Recorder(capacity);
      seqNo, alive, cols, rows := 1, true, initialCols, initialRows;
      client, pending, generation := None, None, 0;
      reader, pendingReader := [], [];
      ptyInput, sent, heard, ran, claimed := [], [], map[], map[], {};
      new;
      StartInv(capacity, initialCols, initialRows);
    }

    method Write(to: Option<Conn>, out: Out)
      modifies `sent
      ensures sent == if to.Some? then old(sent) + [Sent(to.value, out)] else old(sent)
    {
      if to.Some? { sent := sent + [Sent(to.value, out)]; }
    }

    /** A read from the PTY: ring and anchors, then the live frame to the controller. */
    method PtyOutput(data: seq<byte>, delivered: bool)
      requires Valid() && Enabled(View(), Event.PtyOutput(data, delivered))
      modifies this, store, store.repr
      ensures Valid()
      ensures View() == Step(old(View()), Event.PtyOutput(data, delivered))
    {
      StepKeepsInv(View(), Event.PtyOutput(data, delivered));
      hide Inv;
      store.Record(data);
      Forward(data, delivered);
    }

    method Forward(data: seq<byte>, delivered: bool)
      modifies `client, `reader, `sent, `seqNo
      ensures var h := old(View());
              var h2 := if h.client.Some? && !delivered then h.(client := None, readerBuf := [])
                        else Send(h, h.client, DataOut(h.seqNo, data));
              View() == h2.(seqNo := (h.seqNo + 1) % TWO32)
    {
      if client.Some? {
        if delivered {
          Write(client, DataOut(seqNo, data));
        } else {
          client := None;
          reader := [];
        }
      }
      seqNo := (seqNo + 1) % TWO32;
    }

    method PtyExit()
      requires Valid() && alive
      modifies this
      ensures Valid()
      ensures View() == Step(old(View()), Event.PtyExit)
    {
      StepKeepsInv(View(), Event.PtyExit);
      hide Inv;
      NoteExit();
    }

    method NoteExit()
      modifies `alive, `sent
      ensures View() == OnPtyExit(old(View()))
    {
      alive := false;
      Write(client, Exit);
    }

    method Accept(c: Conn)
      requires Valid() && c !in heard
      modifies this
      ensures Valid()
      ensures View() == Step(old(View()), Event.Accept(c))
    {
      StepKeepsInv(View(), Event.Accept(c));
      hide Inv;
      Park(c);
    }

    method Park(c: Conn)
      requires store.Valid()
      modifies `sent, `heard, `ran, `pending, `pendingReader
      ensures View() == OnAccept(old(View()), c)
    {
      hide Grid;
      Write(Some(c), State(seqNo, client.Some?, store.BaseOffset(), store.Written()));
      if !alive { Write(Some(c), Exit); }
      heard, ran := heard[c := []], ran[c := []];
      pending := Some(c);
      pendingReader := [];
    }

    method RejectPending()
      modifies `pending, `pendingReader
      ensures View() == DropPending(old(View()))
    {
      pending := None;
      pendingReader := [];
    }

    method PromotePending()
      requires pending.Some?
      modifies `client, `reader, `pending, `pendingReader
      ensures View() == Promote(old(View()))
    {
      client := pending;
      reader, pendingReader := pendingReader, [];
      pending := None;
    }

    method PendingHangup()
      requires Valid() && pending.Some?
      modifies this
      ensures Valid()
      ensures View() == Step(old(View()), Event.PendingHangup)
    {
      StepKeepsInv(View(), Event.PendingHangup);
      hide Inv;
      RejectPending();
    }

    method ClaimTimeout()
      requires Valid() && pending.Some?
      modifies this
      ensures Valid()
      ensures View() == Step(old(View()), Event.ClaimTimeout)
    {
      StepKeepsInv(View(), Event.ClaimTimeout);
      PeersAreKnown(View());
      hide Inv;
      PromoteAndRun();
    }

    method PromoteAndRun()
      requires store.Valid() && this !in store.repr && pending.Some? && pending.value in ran
      modifies this
      ensures store.Valid() && View() == RunBuffered(Promote(old(View())))
    {
      PromotePending();
      ProcessFrames();
    }

    /** `body.contains("\"takeover\":true")` */
    method AsksTakeover(payload: seq<byte>) returns (yes: bool)
      ensures yes <==> Takeover(payload)
    {
      var i := 0;
      while i + |TAKEOVER| <= |payload|
        invariant forall j :: 0 <= j < i && j <= |payload| - |TAKEOVER| ==> !SpelledAt(payload, j, TAKEOVER)
      {
        if SpelledAt(payload, i, TAKEOVER) { return true; }
        i := i + 1;
      }
      return false;
    }

    method PendingRead(bytes: seq<byte>)
      requires Valid() && pending.Some?
      modifies this
      ensures Valid()
      ensures View() == Step(old(View()), Event.PendingRead(bytes))
    {
      StepKeepsInv(View(), Event.PendingRead(bytes));
      PeersAreKnown(View());
      hide Inv;
      HearPending(bytes);
      ProcessFrames();
    }

    method HearPending(bytes: seq<byte>)
      requires pending.Some? && pending.value in heard
      modifies this
      ensures View() == OnPendingRead(old(View()), bytes)
    {
      heard := heard[pending.value := heard[pending.value] + bytes];
      pendingReader := pendingReader + bytes;
      ghost var fed := View();
      var promote := SettlePending();
      assert OnPendingRead(old(View()), bytes) == Settle(fed);
      if promote.Some? {
        if promote.value { PromotePending(); } else { RejectPending(); }
      }
    }

    /** Look at frames until one settles the claim; the first always does. */
    method SettlePending() returns (resolve: Option<bool>)
      requires pending.Some?
      modifies `client, `generation, `claimed, `sent, `pendingReader
      ensures resolve.None? ==> View() == Settle(old(View())) == old(View())
      ensures resolve.Some? && !resolve.value ==> DropPending(View()) == Settle(old(View()))
      ensures resolve.Some? && resolve.value ==> Promote(View()) == Settle(old(View()))
    {
      resolve := None;
      while resolve.None?
        invariant resolve.None? ==> View() == old(View())
        invariant resolve.Some? && !resolve.value ==> DropPending(View()) == Settle(old(View()))
        invariant resolve.Some? && resolve.value ==> Promote(View()) == Settle(old(View()))
        decreases resolve.None?
      {
        var next := Next(pendingReader);
        if next.NeedMore? { break; }
        PushBackRestores(pendingReader);
        pendingReader := next.rest;
        var answer := SettleFrame(next.frame);
        resolve := Some(answer);
      }
    }

    /** An ACQUIRE is answered; any other first frame goes back, for the legacy client it betrays. */
    method SettleFrame(frame: Frame) returns (promote: bool)
      requires pending.Some?
      modifies `client, `generation, `claimed, `sent, `pendingReader
      ensures var h := old(View()).(pendingBuf := EncodeFrame(frame) + old(pendingReader));
              if frame.cmd == CMD_ACQUIRE then
                if h.client.Some? && !Takeover(frame.payload) then
                  !promote && View() == Send(old(View()), h.pending, Denied)
                else
                  var h1 := old(View()).(generation := h.generation + 1, claimed := h.claimed + {h.pending.value}, client := None);
                  promote && View() == Send(Send(h1, h.pending, Acquired(h.generation + 1)), h.client, Evicted)
              else promote && View() == h
    {
      if frame.cmd == CMD_ACQUIRE {
        promote := AnswerClaim(frame.payload);
      } else {
        pendingReader := EncodeFrame(frame) + pendingReader;
        promote := true;
      }
    }

    method AnswerClaim(payload: seq<byte>) returns (grant: bool)
      requires pending.Some?
      modifies `client, `generation, `claimed, `sent
      ensures grant <==> old(client).None? || Takeover(payload)
      ensures !grant ==> client == old(client) && generation == old(generation) && claimed == old(claimed)
                         && sent == old(sent) + [Sent(pending.value, Denied)]
      ensures grant ==> client == None && generation == old(generation) + 1 && claimed == old(claimed) + {pending.value}
      ensures grant ==> var granted := old(sent) + [Sent(pending.value, Acquired(generation))];
                        sent == if old(client).Some? then granted + [Sent(old(client).value, Evicted)] else granted
    {
      var takeover := AsksTakeover(payload);
      if client.Some? && !takeover {
        Write(pending, Denied);
        return false;
      }
      generation := generation + 1;
      claimed := claimed + {pending.value};
      Write(pending, Acquired(generation));
      var outgoing := client;
      client := None;
      Write(outgoing, Evicted);
      return true;
    }

    method ClientRead(bytes: seq<byte>)
      requires Valid() && client.Some?
      modifies this
      ensures Valid()
      ensures View() == Step(old(View()), Event.ClientRead(bytes))
    {
      StepKeepsInv(View(), Event.ClientRead(bytes));
      PeersAreKnown(View());
      hide Inv;
      HearClient(bytes);
      ProcessFrames();
    }

    method HearClient(bytes: seq<byte>)
      requires client.Some? && client.value in heard
      modifies `heard, `reader
      ensures View() == OnClientRead(old(View()), bytes)
    {
      heard := heard[client.value := heard[client.value] + bytes];
      reader := reader + bytes;
    }

    method ClientHangup()
      requires Valid() && client.Some?
      modifies this
      ensures Valid()
      ensures View() == Step(old(View()), Event.ClientHangup)
    {
      StepKeepsInv(View(), Event.ClientHangup);
      hide Inv;
      DropClient();
    }

    method DropClient()
      modifies `client, `reader
      ensures View() == old(View()).(client := None, readerBuf := [])
    {
      client := None;
      reader := [];
    }

    method ProcessFrames()
      requires store.Valid() && this !in store.repr
      requires client.Some? ==> client.value in ran
      modifies this
      ensures store.Valid()
      ensures View() == RunBuffered(old(View()))
    {
      if client.None? { return; }
      var d := Decode(reader);
      var frames := d.frames;
      reader := d.left;
      ran := ran[client.value := ran[client.value] + frames];
      ghost var h := View();
      var i := 0;
      while i < |frames|
        invariant i <= |frames|
        invariant store.Valid() && client == h.client && View().Sound()
        invariant RunAll(h, frames) == RunAll(View(), frames[i..])
      {
        ProcessFrame(frames[i]);
        assert frames[i..][1..] == frames[i + 1..];
        i := i + 1;
      }
    }

    method ProcessFrame(f: Frame)
      requires store.Valid() && this !in store.repr && client.Some?
      modifies `ptyInput, `sent, `cols, `rows
      ensures store.Valid()
      ensures View() == RunFrame(old(View()), f)
    {
      if f.cmd == CMD_DATA_IN {
        if alive { ptyInput := ptyInput + [Typed(client.value, f.payload)]; }
      } else if f.cmd == CMD_RESIZE {
        if |f.payload| >= 4 && alive {
          var nc, nr := U16(f.payload, 0), U16(f.payload, 2);
          if nc > 0 && nr > 0 {
            cols := nc;
            rows := nr;
          }
        }
      } else if f.cmd == CMD_DUMP_REQ {
        var data := AnswerDump();
        Write(client, DumpResp(data));
      } else if f.cmd == CMD_DUMP_SINCE {
        var want := Want(f.payload);
        var base, gap, data := AnswerReplay(want);
        Write(client, Replay(want, base, store.Written(), gap, data));
      } else if f.cmd == CMD_PING {
        Write(client, Pong);
      }
    }

    method AnswerDump() returns (data: seq<byte>)
      requires store.Valid()
      ensures View().Sound() && DumpResp(data) == DumpReply(View())
    {
      hide Grid, FirstAtOrAfter;
      if store.BaseOffset() > 0 {
        var _, tail := store.CutSafely(store.BaseOffset());
        data := tail;
      } else {
        data := store.Dump();
      }
    }

    method AnswerReplay(want: nat) returns (base: nat, gap: bool, data: seq<byte>)
      requires store.Valid()
      ensures View().Sound() && Replay(want, base, |store.history|, gap, data) == ReplayReply(View(), want)
    {
      hide Grid, FirstAtOrAfter;
      data, gap := store.Since(want);
      base := store.BaseOffset();
      if gap {
        base, data := store.CutSafely(base);
      } else {
        assert data == store.history[Min(want, |store.history|)..];
      }
    }
  }
}
