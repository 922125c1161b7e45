/**
 * Who decides the size of a PTY (packages/server/src/session.ts:762-832, 1003-1016;
 * packages/server/src/server.ts:2258-2276, 2407-2457, 2530-2549): viewers while they are attached, a borrower
 * until it gives back, and the owner's size again when the last read-write viewer is gone.
 */
module GeometryModel {
  import opened Prelude

  datatype Size = Size(cols: int, rows: int)

  datatype Mode = ReadWrite | ReadOnly

  datatype Borrow = Borrow(prev: Size, viewer: string)

  /** `unwatched` is the size to go back to, `timer` the pending return to it. */
  datatype Ledger = Ledger(size: Size, unwatched: Option<Size>, timer: bool, borrow: Option<Borrow>,
                           viewers: map<string, Mode>, closed: bool)

  function Fresh(size: Size): Ledger {
    Ledger(size, None, false, None, map[], false)
  }

  predicate HasWriter(l: Ledger) {
    exists v :: v in l.viewers && l.viewers[v] == ReadWrite
  }

  // ---- The session's methods --------------------------------------------------------------------

  function Resize(l: Ledger, size: Size): Ledger {
    if l.closed then l else l.(size := size)
  }

  function ViewerResize(l: Ledger, size: Size): Ledger {
    Resize(l.(timer := false, unwatched := if l.unwatched.None? then Some(l.size) else l.unwatched), size)
  }

  function OwnerResize(l: Ledger, size: Size): Ledger {
    Resize(l.(unwatched := if l.unwatched.Some? then Some(size) else None), size)
  }

  /** The first borrow remembers the size; a second one only takes the ledger over. */
  function BorrowResize(l: Ledger, viewer: string, size: Size): Ledger {
    var prev := if l.borrow.None? then l.size else l.borrow.value.prev;
    ViewerResize(l.(borrow := Some(Borrow(prev, viewer))), size)
  }

  function ReleaseBorrow(l: Ledger, viewer: string): Ledger {
    if l.borrow.None? || l.borrow.value.viewer != viewer then l
    else Resize(l.(borrow := None), l.borrow.value.prev)
  }

  function AddViewer(l: Ledger, viewer: string, mode: Mode): Ledger {
    l.(viewers := l.viewers[viewer := mode])
  }

  function RemoveViewer(l: Ledger, viewer: string): Ledger {
    var left := ReleaseBorrow(l.(viewers := l.viewers - {viewer}), viewer);
    left.(timer := left.timer || (left.unwatched.Some? && !HasWriter(left)))
  }

  function TimerFires(l: Ledger): Ledger {
    var idle := l.(timer := false);
    if !l.timer || l.unwatched.None? || HasWriter(l) || l.closed then idle
    else Resize(idle.(unwatched := None), l.unwatched.value)
  }

  // ---- What clients, the owner and time can do --------------------------------------------------

  datatype Event =
    | Attach(viewer: string, mode: Mode, size: Option<Size>, borrow: bool)
    | Detach(viewer: string)
    | ResizeCommand(viewer: string, flag: int, wanted: Size)
    | OwnerSets(owned: Size)
    | Fires
    | Closes

  function AttachSize(l: Ledger, viewer: string, mode: Mode, size: Option<Size>, borrow: bool): Ledger {
    if mode == ReadOnly || size.None? || size.value.cols == 0 || size.value.rows == 0 then l
    else if borrow then BorrowResize(l, viewer, size.value)
    else ViewerResize(l, size.value)
  }

  /** A viewer that is already attached is taken out first. */
  function Wire(l: Ledger, viewer: string, mode: Mode): Ledger {
    AddViewer(if viewer in l.viewers then RemoveViewer(l, viewer) else l, viewer, mode)
  }

  function OnResizeCommand(l: Ledger, viewer: string, flag: int, size: Size): Ledger {
    if viewer !in l.viewers || l.viewers[viewer] == ReadOnly then l
    else if flag == 2 then ReleaseBorrow(l, viewer)
    else if size.cols <= 0 || size.rows <= 0 then l
    else if flag == 1 then BorrowResize(l, viewer, size)
    else ViewerResize(l, size)
  }

  function Step(l: Ledger, ev: Event): Ledger {
    match ev
    case Attach(viewer, mode, size, borrow) =>
      if l.closed then l else Wire(AttachSize(l, viewer, mode, size, borrow), viewer, mode)
    case Detach(viewer) => if l.closed then l else RemoveViewer(l, viewer)
    case ResizeCommand(viewer, flag, size) => if l.closed then l else OnResizeCommand(l, viewer, flag, size)
    case OwnerSets(size) => OwnerResize(l, size)
    case Fires => TimerFires(l)
    case Closes => l.(closed := true)
  }

  function Run(l: Ledger, events: seq<Event>): Ledger {
    if events == [] then l else Step(Run(l, events[..|events| - 1]), events[|events| - 1])
  }

  /** The last size the owner set, or the one the session was created with. */
  function OwnersSize(created: Size, events: seq<Event>): Size {
    if events == [] then created
    else match events[|events| - 1]
      case OwnerSets(size) => size
      case _ => OwnersSize(created, events[..|events| - 1])
  }

  // ---- What the ledger keeps --------------------------------------------------------------------

  /** Between two events of a live session. */
  predicate Books(l: Ledger, owner: Size) {
    && (l.unwatched.Some? ==> l.unwatched.value == owner)
    && (l.unwatched.None? ==> l.size == owner)
    && (!HasWriter(l) && !l.timer ==> l.unwatched.None?)
    && Outstanding(l)
  }

  /** A borrow is held by an attached read-write viewer, and there is a size to go back to. */
  predicate Outstanding(l: Ledger) {
    l.borrow.Some? ==>
      l.unwatched.Some? && l.borrow.value.viewer in l.viewers && l.viewers[l.borrow.value.viewer] == ReadWrite
  }

  /** What is remembered is the owner's size, or the PTY has it. */
  predicate Remembers(l: Ledger, owner: Size) {
    if l.unwatched.Some? then l.unwatched.value == owner else l.size == owner
  }

  /** Also in the middle of a handler: and a loan has a size to go back to. */
  predicate Homeward(l: Ledger, owner: Size) {
    Remembers(l, owner) && (l.borrow.Some? ==> l.unwatched.Some?)
  }

  lemma AttachKeeps(l: Ledger, owner: Size, viewer: string, mode: Mode, size: Option<Size>, borrow: bool)
    requires !l.closed && Books(l, owner)
    ensures Books(Wire(AttachSize(l, viewer, mode, size, borrow), viewer, mode), owner)
  {
    var sized := AttachSize(l, viewer, mode, size, borrow);
    var after := Wire(sized, viewer, mode);
    if mode == ReadWrite {
      assert after.viewers[viewer] == ReadWrite;
    } else {
      var cut := if viewer in l.viewers then RemoveViewer(l, viewer) else l;
      SameWriters(cut, after, viewer);
      if viewer in l.viewers {
        DetachKeeps(l, owner, viewer);
      }
    }
  }

  lemma SameWriters(before: Ledger, after: Ledger, viewer: string)
    requires after.viewers == before.viewers[viewer := ReadOnly] && viewer !in before.viewers
    ensures HasWriter(before) <==> HasWriter(after)
  {
    if HasWriter(before) {
      var v :| v in before.viewers && before.viewers[v] == ReadWrite;
      assert after.viewers[v] == ReadWrite;
    }
  }

  lemma DetachKeeps(l: Ledger, owner: Size, viewer: string)
    requires !l.closed && Books(l, owner)
    ensures Books(RemoveViewer(l, viewer), owner)
    ensures viewer !in RemoveViewer(l, viewer).viewers
  {
    var after := RemoveViewer(l, viewer);
    if HasWriter(after) {
      var v :| v in after.viewers && after.viewers[v] == ReadWrite;
      assert l.viewers[v] == ReadWrite;
    }
  }

  lemma StepKeeps(l: Ledger, owner: Size, ev: Event)
    requires !l.closed && Books(l, owner)
    ensures ev != Closes ==> Books(Step(l, ev), if ev.OwnerSets? then ev.owned else owner) && !Step(l, ev).closed
  {
    match ev
    case Attach(viewer, mode, size, borrow) => AttachKeeps(l, owner, viewer, mode, size, borrow);
    case Detach(viewer) => DetachKeeps(l, owner, viewer);
    case ResizeCommand(viewer, flag, size) =>
    case OwnerSets(size) =>
    case Fires =>
    case Closes =>
  }

  lemma {:induction false} RunKeeps(created: Size, events: seq<Event>)
    requires !Run(Fresh(created), events).closed
    ensures Books(Run(Fresh(created), events), OwnersSize(created, events))
  {
    if events != [] {
      RunKeeps(created, events[..|events| - 1]);
      StepKeeps(Run(Fresh(created), events[..|events| - 1]), OwnersSize(created, events[..|events| - 1]),
                events[|events| - 1]);
    }
  }

  /** Whatever the viewers did, a session without writers and without a pending return has the owner's size. */
  lemma UnwatchedHasTheOwnersSize(created: Size, events: seq<Event>)
    requires var l := Run(Fresh(created), events); !l.closed && !HasWriter(l) && !l.timer
    ensures Run(Fresh(created), events).size == OwnersSize(created, events)
  {
    RunKeeps(created, events);
  }

  /** And while a return is pending, its firing is all that is missing. */
  lemma ReturnRestores(created: Size, events: seq<Event>)
    requires var l := Run(Fresh(created), events); !l.closed && !HasWriter(l)
    ensures Run(Fresh(created), events + [Fires]).size == OwnersSize(created, events)
    ensures !Run(Fresh(created), events + [Fires]).timer
  {
    RunKeeps(created, events);
    assert (events + [Fires])[..|events|] == events;
  }

  lemma BorrowImpliesUnwatched(created: Size, events: seq<Event>)
    requires var l := Run(Fresh(created), events); !l.closed && l.borrow.Some?
    ensures
      var l := Run(Fresh(created), events);
      && l.unwatched == Some(OwnersSize(created, events))
      && l.borrow.value.viewer in l.viewers && l.viewers[l.borrow.value.viewer] == ReadWrite
  {
    RunKeeps(created, events);
  }

  // ---- Borrowing --------------------------------------------------------------------------------

  /**
   * What ends an outstanding loan: the holder's return, departure or new attachment, and a loan asked for on
   * attaching by somebody already attached, who takes it over and gives it back at once.
   */
  predicate EndsTheLoan(l: Ledger, ev: Event)
    requires l.borrow.Some?
  {
    var holder := l.borrow.value.viewer;
    match ev
    case Attach(viewer, mode, size, borrow) =>
      || viewer == holder
      || (viewer in l.viewers && borrow && mode == ReadWrite
          && size.Some? && size.value.cols != 0 && size.value.rows != 0)
    case Detach(viewer) => viewer == holder
    case ResizeCommand(viewer, flag, _) => viewer == holder && flag == 2
    case _ => false
  }

  /** Nothing else ends it, and whatever does brings back the size that it remembers. */
  lemma LoanStep(l: Ledger, ev: Event)
    requires !l.closed && l.borrow.Some? && Outstanding(l) && ev != Closes
    ensures var after := Step(l, ev);
      && !after.closed
      && (after.borrow.None? <==> EndsTheLoan(l, ev))
      && if EndsTheLoan(l, ev) then after.size == l.borrow.value.prev
         else after.borrow.value.prev == l.borrow.value.prev && Outstanding(after)
  {
    assert HasWriter(l);
  }

  /** The session lives on, and no event ends the loan. */
  predicate Outlasts(l: Ledger, events: seq<Event>) {
    events != [] ==>
      var front, last := events[..|events| - 1], events[|events| - 1];
      && Outlasts(l, front) && last != Closes
      && Run(l, front).borrow.Some? && !EndsTheLoan(Run(l, front), last)
  }

  lemma {:induction false} LoanRun(l: Ledger, events: seq<Event>)
    requires !l.closed && l.borrow.Some? && Outstanding(l) && Outlasts(l, events)
    ensures var after := Run(l, events);
      && !after.closed && after.borrow.Some? && after.borrow.value.prev == l.borrow.value.prev && Outstanding(after)
  {
    if events != [] {
      LoanRun(l, events[..|events| - 1]);
      LoanStep(Run(l, events[..|events| - 1]), events[|events| - 1]);
    }
  }

  lemma FirstBorrow(l: Ledger, first: Event)
    requires !l.closed && l.borrow.None? && Step(l, first).borrow.Some?
    ensures var lent := Step(l, first); !lent.closed && lent.borrow.value.prev == l.size && Outstanding(lent)
  {
  }

  /**
   * Whatever happens meanwhile, takeovers, resizes by anyone and by the owner, comings and goings: the event
   * that ends the loan brings back the size from before the first borrow.
   */
  lemma LoanIsReturned(l: Ledger, first: Event, events: seq<Event>, last: Event)
    requires !l.closed && l.borrow.None? && Step(l, first).borrow.Some?
    requires Outlasts(Step(l, first), events) && last != Closes
    ensures
      var now := Run(Step(l, first), events);
      && now.borrow.Some?
      && (Step(now, last).borrow.None? <==> EndsTheLoan(now, last))
      && (EndsTheLoan(now, last) ==> Step(now, last).size == l.size)
  {
    FirstBorrow(l, first);
    LoanRun(Step(l, first), events);
    LoanStep(Run(Step(l, first), events), last);
  }

  /** So a size that the owner sets during the loan is overridden by the return. */
  lemma ReturnOverridesOwner(created: Size, wanted: Size, owned: Size)
    requires wanted.cols > 0 && wanted.rows > 0 && owned != created
    ensures
      var lent := Run(Fresh(created), [Attach("v", ReadWrite, None, false), ResizeCommand("v", 1, wanted)]);
      var after := Run(lent, [OwnerSets(owned), ResizeCommand("v", 2, wanted)]);
      Run(lent, [OwnerSets(owned)]).size == owned && after.size == created && after.borrow.None?
  {
    var attached := Step(Fresh(created), Attach("v", ReadWrite, None, false));
    var first, last := ResizeCommand("v", 1, wanted), ResizeCommand("v", 2, wanted);
    var lent := Step(attached, first);
    RunTwo(Fresh(created), Attach("v", ReadWrite, None, false), first);
    RunTwo(lent, OwnerSets(owned), last);
    OutlastsOne(lent, OwnerSets(owned));
    LoanIsReturned(attached, first, [OwnerSets(owned)], last);
  }

  lemma OutlastsOne(l: Ledger, ev: Event)
    requires l.borrow.Some? && ev != Closes && !EndsTheLoan(l, ev)
    ensures Outlasts(l, [ev])
  {
    hide EndsTheLoan;
    assert [ev][..0] == [] && [ev][0] == ev;
    assert Outlasts(l, []);
  }

  lemma RunTwo(l: Ledger, a: Event, b: Event)
    ensures Run(l, []) == l && Run(l, [a]) == Step(l, a) && Run(l, [a, b]) == Step(Step(l, a), b)
  {
    assert [a][..0] == [] && [a, b][..1] == [a];
  }

  /** A borrow on attaching holds exactly when the viewer was not attached yet: an attached one is taken out first, and gives back. */
  lemma AttachBorrowsIffNew(l: Ledger, viewer: string, size: Size)
    requires !l.closed && size.cols != 0 && size.rows != 0
    ensures
      var after := Step(l, Attach(viewer, ReadWrite, Some(size), true));
      && (after.borrow.Some? <==> viewer !in l.viewers)
      && (viewer !in l.viewers ==> after.borrow.value.viewer == viewer && after.size == size)
      && (viewer in l.viewers ==> after.size == if l.borrow.Some? then l.borrow.value.prev else l.size)
  {
  }

  /** A viewer that re-attaches with a loan, as a zoomed pane does, is back at the old size and owes nothing. */
  lemma ReattachLosesTheLoan(created: Size, wanted: Size)
    requires wanted.cols > 0 && wanted.rows > 0 && wanted != created
    ensures
      var l := Run(Fresh(created), [Attach("v", ReadWrite, None, false), Attach("v", ReadWrite, Some(wanted), true)]);
      l.borrow.None? && l.size == created && l.size != wanted
  {
    var first, second := Attach("v", ReadWrite, None, false), Attach("v", ReadWrite, Some(wanted), true);
    assert [first, second][..1] == [first] && [first][..0] == [];
    var l := Step(Fresh(created), first);
    assert Run(Fresh(created), [first]) == l;
    AttachBorrowsIffNew(l, "v", wanted);
  }
}
