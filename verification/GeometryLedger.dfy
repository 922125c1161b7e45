/** The ledger as the session keeps it in place (packages/server/src/session.ts:762-832, 1003-1016). */
module GeometryLedger {
  import opened Prelude
  import opened GeometryModel

  class Geometry {
    var size: Size
    var unwatched: Option<Size>
    var timer: bool
    var borrow: Option<Borrow>
    var viewers: map<string, Mode>
    var closed: bool
    ghost var owner: Size  // what the owner set last, or the size at creation

    ghost function View(): Ledger
      reads this
    {
      Ledger(size, unwatched, timer, borrow, viewers, closed)
    }

    /** Between two commands. */
    ghost predicate Valid()
      reads this
    {
      !closed ==> Books(View(), owner)
    }

    /** Also within a command. */
    ghost predicate Steady()
      reads this
    {
      !closed ==> Homeward(View(), owner)
    }

    /** Nobody who may write is attached, and no return to the owner's size is pending. */
    ghost predicate Deserted()
      reads this
    {
      !closed && !HasWriter(View()) && !timer
    }

    constructor (created: Size)
      ensures Valid() && owner == created
      ensures View() == Fresh(created)
    {
      size, unwatched, timer, borrow, viewers, closed := created, None, false, None, map[], false;
      owner := created;
    }

    method HasWriters() returns (found: bool)
      ensures found <==> HasWriter(View())
    {
      var rest := viewers.Keys;
      while rest != {}
        invariant rest <= viewers.Keys
        invariant forall v :: v in viewers && v !in rest ==> viewers[v] != ReadWrite
        decreases |rest|
      {
        var v :| v in rest;
        if viewers[v] == ReadWrite {
          return true;
        }
        rest := rest - {v};
      }
      found := false;
    }

    method ResizeTo(wanted: Size)
      modifies `size
      ensures View() == Resize(old(View()), wanted)
    {
      if closed {
        return;
      }
      size := wanted;
    }

    method ByViewer(wanted: Size)
      requires !closed ==> Remembers(View(), owner)
      modifies `size, `unwatched, `timer
      ensures Steady()
      ensures View() == ViewerResize(old(View()), wanted)
    {
      timer := false;
      if unwatched.None? {
        unwatched := Some(size);
      }
      ResizeTo(wanted);
    }

    method Lend(viewer: string, wanted: Size)
      requires Steady()
      modifies `size, `unwatched, `timer, `borrow
      ensures Steady()
      ensures View() == BorrowResize(old(View()), viewer, wanted)
    {
      if borrow.None? {
        borrow := Some(Borrow(size, viewer));
      } else {
        borrow := Some(borrow.value.(viewer := viewer));
      }
      ByViewer(wanted);
    }

    method GiveBack(viewer: string)
      requires Steady()
      modifies `size, `borrow
      ensures Steady()
      ensures View() == ReleaseBorrow(old(View()), viewer)
    {
      if borrow.None? || borrow.value.viewer != viewer {
        return;
      }
      var prev := borrow.value.prev;
      borrow := None;
      ResizeTo(prev);
    }

    method Enter(viewer: string, mode: Mode)
      requires Steady()
      modifies `viewers
      ensures Steady()
      ensures View() == AddViewer(old(View()), viewer, mode)
    {
      viewers := viewers[viewer := mode];
    }

    /** Whoever leaves, an unwatched PTY has the owner's size or is on its way back to it. */
    method Leave(viewer: string)
      requires Steady()
      modifies `size, `timer, `borrow, `viewers
      ensures Steady()
      ensures Deserted() ==> size == owner
      ensures View() == RemoveViewer(old(View()), viewer)
    {
      viewers := viewers - {viewer};
      GiveBack(viewer);
      var writers := HasWriters();
      if unwatched.Some? && !writers {
        timer := true;
      }
    }

    /** The pending return: after it, an unwatched PTY has the owner's size. */
    method OnTimer()
      requires Valid() && timer
      modifies `size, `unwatched, `timer
      ensures Valid()
      ensures !closed && !HasWriter(View()) ==> size == owner
      ensures View() == Step(old(View()), Fires)
    {
      if !closed {
        StepKeeps(View(), owner, Fires);
      }
      timer := false;
      var writers := HasWriters();
      if unwatched.None? || writers || closed {
        return;
      }
      var home := unwatched.value;
      unwatched := None;
      if home != size {
        ResizeTo(home);
      }
    }

    /** The owner's size: taken now, and the one to come back to. */
    method ByOwner(wanted: Size)
      requires Valid()
      modifies `size, `unwatched, `owner
      ensures Valid() && owner == wanted
      ensures !closed ==> size == wanted
      ensures View() == Step(old(View()), OwnerSets(wanted))
    {
      if !closed {
        StepKeeps(View(), owner, OwnerSets(wanted));
      }
      owner := wanted;
      if unwatched.Some? {
        unwatched := Some(wanted);
      }
      ResizeTo(wanted);
    }

    /** One ATTACH command: the size first, then the wiring. Afterwards the viewer is attached as it asked. */
    method OnAttach(viewer: string, mode: Mode, wanted: Option<Size>, borrowing: bool)
      requires Valid()
      modifies `size, `unwatched, `timer, `borrow, `viewers
      ensures Valid()
      ensures !closed ==> viewer in viewers && viewers[viewer] == mode
      ensures Deserted() ==> size == owner
      ensures View() == Step(old(View()), Attach(viewer, mode, wanted, borrowing))
    {
      if closed {
        return;
      }
      StepKeeps(View(), owner, Attach(viewer, mode, wanted, borrowing));
      hide HasWriter, Outstanding;
      if mode == ReadWrite && wanted.Some? && wanted.value.cols != 0 && wanted.value.rows != 0 {
        if borrowing {
          Lend(viewer, wanted.value);
        } else {
          ByViewer(wanted.value);
        }
      }
      if viewer in viewers {
        Leave(viewer);
      }
      Enter(viewer, mode);
    }

    /** One DETACH command: the viewer is gone, and so is a loan it held. */
    method OnDetach(viewer: string)
      requires Valid()
      modifies `size, `timer, `borrow, `viewers
      ensures Valid()
      ensures !closed ==> viewer !in viewers && (borrow.Some? ==> borrow.value.viewer != viewer)
      ensures Deserted() ==> size == owner
      ensures View() == Step(old(View()), Detach(viewer))
    {
      if closed {
        return;
      }
      StepKeeps(View(), owner, Detach(viewer));
      hide HasWriter, Outstanding;
      Leave(viewer);
    }

    /** One RESIZE command: flag 1 borrows, 2 gives back. Only an attached read-write viewer has a say. */
    method OnResize(viewer: string, flag: int, wanted: Size)
      requires Valid()
      modifies `size, `unwatched, `timer, `borrow
      ensures Valid()
      ensures (viewer in viewers ==> viewers[viewer] == ReadOnly) ==> View() == old(View())
      ensures Deserted() ==> size == owner
      ensures View() == Step(old(View()), ResizeCommand(viewer, flag, wanted))
    {
      if closed {
        return;
      }
      StepKeeps(View(), owner, ResizeCommand(viewer, flag, wanted));
      if viewer !in viewers || viewers[viewer] == ReadOnly {
        return;
      }
      hide HasWriter, Outstanding;
      if flag == 2 {
        GiveBack(viewer);
      } else if wanted.cols > 0 && wanted.rows > 0 {
        if flag == 1 {
          Lend(viewer, wanted);
        } else {
          ByViewer(wanted);
        }
      }
    }
  }
}
