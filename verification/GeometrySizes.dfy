/**
 * Which commands change the size, and to what (packages/server/src/server.ts:2407-2426, 2530-2547;
 * packages/server/src/session.ts:767-832, 1003-1016).
 */
module GeometrySizes {
  import opened Prelude
  import opened GeometryModel

  /** The viewer may resize: attached, read-write, on a live session. */
  predicate MayResize(l: Ledger, viewer: string) {
    !l.closed && viewer in l.viewers && l.viewers[viewer] == ReadWrite
  }

  predicate Real(size: Size) { size.cols > 0 && size.rows > 0 }

  /**
   * A RESIZE takes effect exactly for a viewer that may resize and a real size, unless it is a return: the PTY
   * has that size, the size to go back to is kept or noted, and a pending return is called off. Flag 1 makes
   * the viewer the borrower; any other leaves the loan alone. Otherwise nothing changes.
   */
  lemma ResizeTakesIff(l: Ledger, viewer: string, flag: int, wanted: Size)
    requires flag != 2
    ensures
      var after := Step(l, ResizeCommand(viewer, flag, wanted));
      && after.viewers == l.viewers
      && if MayResize(l, viewer) && Real(wanted) then
           && after.size == wanted && !after.timer
           && after.unwatched == (if l.unwatched.Some? then l.unwatched else Some(l.size))
           && (flag == 1 ==> after.borrow.Some? && after.borrow.value.viewer == viewer)
           && (flag != 1 ==> after.borrow == l.borrow)
         else after == l
  {
  }

  /** A return takes effect exactly for the borrower, and then the PTY has the size from before. */
  lemma ReturnTakesIff(l: Ledger, viewer: string, wanted: Size)
    ensures
      var after := Step(l, ResizeCommand(viewer, 2, wanted));
      if MayResize(l, viewer) && l.borrow.Some? && l.borrow.value.viewer == viewer
      then after == l.(borrow := None, size := l.borrow.value.prev)
      else after == l
  {
  }

  /** An ATTACH of a newcomer resizes exactly when it is read-write and brings a size; it calls off a pending return. */
  lemma AttachTakesIff(l: Ledger, viewer: string, mode: Mode, size: Option<Size>, borrow: bool)
    requires !l.closed && viewer !in l.viewers
    ensures
      var after := Step(l, Attach(viewer, mode, size, borrow));
      && after.viewers == l.viewers[viewer := mode]
      && if mode == ReadWrite && size.Some? && size.value.cols != 0 && size.value.rows != 0 then
           && after.size == size.value && !after.timer
           && after.unwatched == (if l.unwatched.Some? then l.unwatched else Some(l.size))
           && (if borrow then after.borrow.Some? && after.borrow.value.viewer == viewer else after.borrow == l.borrow)
         else after == l.(viewers := l.viewers[viewer := mode])
  {
  }

  /** A departure arms the return exactly when a size waits and nobody who may write is left. */
  lemma DepartureArmsIff(l: Ledger, viewer: string)
    requires !l.closed
    ensures
      var after := Step(l, Detach(viewer));
      && after.viewers == l.viewers - {viewer}
      && (after.timer <==> l.timer || (l.unwatched.Some? && !HasWriter(after)))
  {
    assert HasWriter(l.(viewers := l.viewers - {viewer})) <==> HasWriter(Step(l, Detach(viewer))) by {
      SameViewers(l.(viewers := l.viewers - {viewer}), Step(l, Detach(viewer)));
    }
  }

  lemma SameViewers(a: Ledger, b: Ledger)
    requires a.viewers == b.viewers
    ensures HasWriter(a) <==> HasWriter(b)
  {
  }

  /** An ended session is never resized again, whoever asks and whatever was pending, and no client changes it at all. */
  lemma EndedStaysPut(l: Ledger, ev: Event)
    requires l.closed
    ensures Step(l, ev).closed && Step(l, ev).size == l.size
    ensures ev.Attach? || ev.Detach? || ev.ResizeCommand? ==> Step(l, ev) == l
  {
  }

  lemma {:induction false} EndedForGood(l: Ledger, events: seq<Event>)
    ensures var after := Run(Step(l, Closes), events); after.closed && after.size == l.size
  {
    if events != [] {
      EndedForGood(l, events[..|events| - 1]);
      EndedStaysPut(Run(Step(l, Closes), events[..|events| - 1]), events[|events| - 1]);
    }
  }
}
