/** What holds of the store over whole runs of mutations (packages/server/src/workspace-store.ts:259-308, 396-528). */
module WorkspaceRuns {
  import opened Prelude
  import opened LayoutTree
  import opened MemberNames
  import opened WorkspaceModel
  import opened WorkspaceProofs
  import opened WorkspaceOps
  import opened WorkspaceStore

  /** One workspace changed, and in it one entry only. */
  ghost predicate OneEntryChanged(before: Store, after: Store, id: string, session: int, entry: Option<Member>) {
    && id in before && id in after
    && OnlyChanges(before[id].members, after[id].members, session, entry)
    && after == before[id := after[id]]
  }

  lemma HoldsAfter(before: Store, after: Store, id: string, session: int, entry: Option<Member>)
    requires OneEntryChanged(before, after, id, session, entry)
    ensures after.Keys == before.Keys
    ensures forall other, x :: other in before ==>
      (Holds(after[other], x) <==> if other == id && x == session then entry.Some? else Holds(before[other], x))
  {
    SameMembersSameSessions(before[id].members, after[id].members, session, entry);
  }

  lemma HolderIsElsewhere(store: Store, other: string, id: string, session: int)
    requires HeldBy(store, other, id, session)
    ensures Elsewhere(store, id, session)
  {
  }

  lemma ExclusiveHolder(store: Store, id: string, session: int)
    requires Exclusive(store) && id in store && Holds(store[id], session)
    ensures !Elsewhere(store, id, session)
  {
    forall other ensures !HeldBy(store, other, id, session) {
    }
  }

  /** One workspace is new or changed: sessions stay exclusive exactly when no other workspace has any of its sessions. */
  lemma ReplacedStaysExclusiveIff(before: Store, after: Store, id: string)
    requires Exclusive(before) && id in after && after == before[id := after[id]]
    ensures Exclusive(after) <==> forall x :: Holds(after[id], x) ==> !Elsewhere(before, id, x)
  {
    hide Holds;
    forall x ensures Elsewhere(before, id, x) <==> Elsewhere(after, id, x) {
      SameElsewhere(before, after, id, x);
    }
    if Exclusive(after) {
      forall x | Holds(after[id], x) ensures !Elsewhere(before, id, x) {
        ExclusiveHolder(after, id, x);
      }
    }
    if forall x :: Holds(after[id], x) ==> !Elsewhere(before, id, x) {
      forall a, b, x | a in after && b in after && Holds(after[a], x) && Holds(after[b], x) ensures a == b {
        if a == id && b != id {
          HolderIsElsewhere(before, b, id, x);
        } else if b == id && a != id {
          HolderIsElsewhere(before, a, id, x);
        }
      }
    }
  }

  lemma SameElsewhere(before: Store, after: Store, id: string, session: int)
    requires id in after && after == before[id := after[id]]
    ensures Elsewhere(before, id, session) <==> Elsewhere(after, id, session)
  {
    hide Holds;
    forall other ensures HeldBy(before, other, id, session) <==> HeldBy(after, other, id, session) {
    }
  }

  /** One session is given to a workspace. */
  lemma GivenStaysExclusiveIff(before: Store, after: Store, id: string, session: int)
    requires Exclusive(before) && id in before && id in after && after == before[id := after[id]]
    requires forall x :: Holds(after[id], x) <==> Holds(before[id], x) || x == session
    ensures Exclusive(after) <==> !Elsewhere(before, id, session)
  {
    hide Holds, Elsewhere, Exclusive;
    ReplacedStaysExclusiveIff(before, after, id);
    forall x | Holds(before[id], x) ensures !Elsewhere(before, id, x) {
      ExclusiveHolder(before, id, x);
    }
    assert Holds(after[id], session);
  }

  /** A workspace that gains nobody takes nobody from another. */
  lemma FewerStayExclusive(before: Store, after: Store, id: string)
    requires Exclusive(before) && id in before && id in after && after == before[id := after[id]]
    requires forall x :: Holds(after[id], x) ==> Holds(before[id], x)
    ensures Exclusive(after)
  {
    hide Holds, Elsewhere, Exclusive;
    ReplacedStaysExclusiveIff(before, after, id);
    forall x | Holds(after[id], x) ensures !Elsewhere(before, id, x) {
      ExclusiveHolder(before, id, x);
    }
  }

  // ---- Mutations, one at a time -----------------------------------------------------------------

  /** An addition never gives a session to two workspaces: the store refuses first. */
  lemma AddKeepsStore(before: Store, after: Store, id: string, request: Request, now: int, outcome: Outcome)
    requires Adds(before, after, id, request, now, outcome) && AllCovered(before)
    ensures AllCovered(after)
    ensures AllInStep(before) ==> (AllInStep(after) <==> (outcome == Done ==> request.session > 0))
    ensures outcome == Done && request.name != "" ==>
      OneEntryChanged(before, after, id, request.session, Some(EntryOf(before[id].members, request, now)))
    ensures outcome == Done ==> forall x :: Holds(after[id], x) <==> Holds(before[id], x) || x == request.session
    ensures Exclusive(before) ==> Exclusive(after)
  {
    hide InStep, Covered, WithMember, OnlyChanges, EntryOf, Exclusive, Holds;
    if outcome == Done {
      AddChangesOne(before[id], request, now);
      if Exclusive(before) {
        GivenStaysExclusiveIff(before, after, id, request.session);
      }
    }
  }

  /** A split does not look at the other workspaces: it keeps sessions exclusive exactly when none of them has the session. */
  lemma SplitKeepsStore(before: Store, id: string, target: Option<int>, request: Request, direction: Direction, now: int)
    requires AllCovered(before) && id in before && !NameClash(before[id], request.name, request.session)
    ensures
      var after := before[id := WithSplit(before[id], target, request, direction, now)];
      && AllCovered(after)
      && (AllInStep(before) ==> (AllInStep(after) <==> request.session > 0))
      && (request.name != "" ==> OneEntryChanged(before, after, id, request.session, Some(NewMember(request, now))))
      && (forall x :: Holds(after[id], x) <==> Holds(before[id], x) || x == request.session)
      && (Exclusive(before) ==> (Exclusive(after) <==> !Elsewhere(before, id, request.session)))
  {
    hide InStep, Covered, WithSplit, OnlyChanges, NewMember, Elsewhere, Exclusive, Holds, NameClash;
    var after := before[id := WithSplit(before[id], target, request, direction, now)];
    SplitChangesOne(before[id], target, request, direction, now);
    if Exclusive(before) {
      GivenStaysExclusiveIff(before, after, id, request.session);
    }
  }

  lemma RemoveKeepsStore(before: Store, id: string, session: int, now: int)
    requires AllCovered(before) && id in before
    ensures AllCovered(Removed(before, id, session, now))
    ensures AllInStep(before) ==> AllInStep(Removed(before, id, session, now))
    ensures OneEntryChanged(before, Removed(before, id, session, now), id, session, None)
    ensures Exclusive(before) ==> Exclusive(Removed(before, id, session, now))
  {
    hide InStep, Covered, WithoutMember, OnlyChanges, Exclusive, Holds;
    var after := Removed(before, id, session, now);
    RemoveChangesOne(before[id], session, now);
    HoldsAfter(before, after, id, session, None);
    if Exclusive(before) {
      FewerStayExclusive(before, after, id);
    }
  }

  lemma RenameKeepsStore(before: Store, id: string, session: int, name: string, now: int)
    requires AllCovered(before) && Renaming(before, id, session, name) == Done
    ensures
      var after := before[id := WithName(before[id], session, name, now)];
      && AllCovered(after)
      && (AllInStep(before) ==> AllInStep(after))
      && (name != "" ==> OneEntryChanged(before, after, id, session,
                                         Some(Named(Lookup(before[id].members, session).value, name, now))))
      && (forall x :: Holds(after[id], x) <==> Holds(before[id], x))
      && (Exclusive(before) ==> Exclusive(after))
  {
    hide InStep, Covered, WithName, OnlyChanges, Exclusive, NameClash, Lookup, Named;
    var after := before[id := WithName(before[id], session, name, now)];
    LookupFinds(before[id].members, session);
    RenameChangesOne(before[id], session, name, now);
    if Exclusive(before) {
      FewerStayExclusive(before, after, id);
    }
  }

  /** No session of the workspace, shown or not, is in another one. */
  ghost predicate NobodyElsewhere(store: Store, id: string, ws: Workspace) {
    forall x :: x in Placed(ws.layout) || x in Sessions(ws.members) ==> !Elsewhere(store, id, x)
  }

  predicate ShowsMembers(ws: Workspace) {
    forall x :: x in Sessions(ws.members) ==> x in Placed(ws.layout)
  }

  /**
   * What `create` and `update` bring in is mended but not looked up elsewhere: the workspace is covered exactly
   * when its layout is a good tree, in step exactly when that shows every member, and sessions stay exclusive
   * exactly when no other workspace has any of them.
   */
  lemma BroughtInKeepsStore(before: Store, id: string, ws: Workspace, now: int)
    ensures
      var after := before[id := Reconciled(ws, now)];
      && (forall x :: Holds(after[id], x) <==> x in Placed(ws.layout) || x in Sessions(ws.members))
      && (AllCovered(before) ==> (AllCovered(after) <==> GoodTree(ws.layout)))
      && (AllInStep(before) && GoodTree(ws.layout) ==>
            (AllInStep(after) <==> ShowsMembers(ws)))
      && (Exclusive(before) ==> (Exclusive(after) <==> NobodyElsewhere(before, id, ws)))
  {
    hide InStep, Covered, GoodTree, Reconciled, Elsewhere, Exclusive;
    var after := before[id := Reconciled(ws, now)];
    ReconcileLosesNobody(ws, now);
    ReconciledIsCoveredIff(ws, now);
    if GoodTree(ws.layout) {
      ReconcileBringsInStepIff(ws, now);
    }
    if Exclusive(before) {
      ReplacedStaysExclusiveIff(before, after, id);
    }
  }

  // ---- Moving -----------------------------------------------------------------------------------

  /** A third workspace has the session as well. */
  ghost predicate HeldByThird(store: Store, from: string, to: string, session: int) {
    exists other :: HeldBy(store, other, to, session) && other != from
  }

  lemma ElsewhereAfterRemoval(before: Store, from: string, to: string, session: int, now: int)
    requires from in before && WellFormed(before[from].layout) && to in before && from != to
    ensures Elsewhere(Removed(before, from, session, now), to, session) <==> HeldByThird(before, from, to, session)
  {
    hide Holds, WithoutMember;
    var after := Removed(before, from, session, now);
    RemovedIsGone(before[from], session, now);
    if Elsewhere(after, to, session) {
      var other :| HeldBy(after, other, to, session);
      assert HeldBy(before, other, to, session) && other != from;
    }
    if HeldByThird(before, from, to, session) {
      var other :| HeldBy(before, other, to, session) && other != from;
      assert HeldBy(after, other, to, session);
    }
  }

  lemma ArrivalDoesNotClash(member: Member, target: Workspace)
    ensures !NameClash(target, Arriving(member, target).name, member.session)
    ensures member.name != "" ==> Arriving(member, target).name != ""
  {
    var name := Arriving(member, target).name;
    forall i | 0 <= i < |target.members| ensures target.members[i].name != name {
      assert target.members[i] in target.members;
      assert target.members[i].name in Names(target.members);
    }
  }

  /**
   * A move throws exactly when a third workspace has the session too; by then the session has already left
   * its source. The name it asks for is never the reason.
   */
  lemma MoveThrowsIff(before: Store, after: Store, from: string, session: int, to: string, now: int, reason: Outcome)
    requires Carries(before, after, from, session, Some(to), now, reason) && WellFormed(before[from].layout)
    ensures reason == Done || reason.HeldElsewhere?
    ensures reason == Done <==> !HeldByThird(before, from, to, session)
    ensures reason != Done ==> after == Removed(before, from, session, now) && !Holds(after[from], session)
  {
    hide WithMember, WithoutMember, Elsewhere, HeldByThird, WellFormed, Holds;
    LookupFinds(before[from].members, session);
    var member := Lookup(before[from].members, session).value;
    ElsewhereAfterRemoval(before, from, to, session, now);
    RemovedIsGone(before[from], session, now);
    ArrivalDoesNotClash(member, before[to]);
    if reason.HeldElsewhere? {
      HolderIsElsewhere(Removed(before, from, session, now), reason.id, to, session);
    }
  }

  /** With exclusive sessions no move ever throws. */
  lemma ExclusiveMovesSucceed(before: Store, after: Store, from: string, session: int, to: Option<string>, now: int,
                              outcome: MoveOutcome)
    requires Exclusive(before) && Moves(before, after, from, session, to, now, outcome)
    requires from in before ==> WellFormed(before[from].layout)
    ensures !outcome.Thrown?
  {
    if outcome.Thrown? {
      MoveThrowsIff(before, after, from, session, to.value, now, outcome.reason);
      LookupFinds(before[from].members, session);
      ExclusiveHasNoThird(before, from, to.value, session);
      assert false;
    }
  }

  lemma ExclusiveHasNoThird(store: Store, from: string, to: string, session: int)
    requires Exclusive(store) && from in store && Holds(store[from], session)
    ensures !HeldByThird(store, from, to, session)
  {
    forall other | HeldBy(store, other, to, session) ensures other == from {
    }
  }

  lemma MemberFacts(ws: Workspace, session: int)
    requires Covered(ws) && Lookup(ws.members, session).Some?
    ensures Lookup(ws.members, session).value.name != ""
    ensures Lookup(ws.members, session).value.session == session && Holds(ws, session)
    ensures InStep(ws) ==> session > 0
  {
    LookupFinds(ws.members, session);
    PlacedIsPositive(ws.layout, session);
    NamedMember(ws.members, Lookup(ws.members, session).value);
  }

  /** A move carries one membership across and changes no other, in any workspace. */
  lemma MoveCarriesOne(before: Store, after: Store, from: string, session: int, to: string, now: int)
    requires AllCovered(before) && Carries(before, after, from, session, Some(to), now, Done)
    ensures AllCovered(after) && after.Keys == before.Keys
    ensures AllInStep(before) ==> AllInStep(after)
    ensures forall id, x :: id in before && id != from && id != to ==> (Holds(after[id], x) <==> Holds(before[id], x))
    ensures OnlyChanges(before[from].members, after[from].members, session, None)
    ensures
      var member := Lookup(before[from].members, session).value;
      var request := Arriving(member, before[to]);
      OnlyChanges(before[to].members, after[to].members, session,
                  Some(EntryOf(before[to].members, request, now)))
    ensures Exclusive(before) ==> Exclusive(after)
  {
    hide InStep, Covered, WithMember, WithoutMember, OnlyChanges, EntryOf, Exclusive, Elsewhere;
    var middle := Removed(before, from, session, now);
    var member := Lookup(before[from].members, session).value;
    MemberFacts(before[from], session);
    RemoveKeepsStore(before, from, session, now);
    ArrivalDoesNotClash(member, before[to]);
    AddKeepsStore(middle, after, to, Arriving(member, before[to]), now, Done);
  }

  lemma MovedMembers(before: Store, after: Store, from: string, session: int, to: string, now: int)
    requires AllCovered(before) && Carries(before, after, from, session, Some(to), now, Done)
    ensures after.Keys == before.Keys && from in before && to in before && Holds(before[from], session)
    ensures forall id, x :: id in before ==>
      (Holds(after[id], x) <==> if x == session && id in {from, to} then id == to else Holds(before[id], x))
  {
    hide InStep, Covered, EntryOf, OnlyChanges, Exclusive, Lookup;
    MoveCarriesOne(before, after, from, session, to, now);
    MemberFacts(before[from], session);
    var member := Lookup(before[from].members, session).value;
    var request := Arriving(member, before[to]);
    SameMembersSameSessions(before[from].members, after[from].members, session, None);
    SameMembersSameSessions(before[to].members, after[to].members, session,
                            Some(EntryOf(before[to].members, request, now)));
  }

  /** So the total membership is the same before and after: the session has changed hands and nothing else has. */
  lemma MoveConservesMembership(before: Store, after: Store, from: string, session: int, to: string, now: int)
    requires AllCovered(before) && Exclusive(before)
    requires Carries(before, after, from, session, Some(to), now, Done)
    ensures forall id, x :: id in before ==>
      (Holds(after[id], x) <==> if x == session then id == to else Holds(before[id], x))
  {
    hide Covered, Holds, Carries;
    MovedMembers(before, after, from, session, to, now);
  }

  // ---- Whole runs -------------------------------------------------------------------------------

  datatype Op =
    | AddOp(id: string, request: Request, outcome: Outcome)
    | SplitOp(id: string, target: Option<int>, request: Request, direction: Direction)
    | RemoveOp(id: string, session: int)
    | MoveOp(from: string, session: int, to: Option<string>, result: MoveOutcome)
    | RenameOp(id: string, session: int, name: string)
    | UpdateOp(id: string, patch: Patch)
    | CreateOp(id: string, layout: Node, members: seq<Member>)
    | DeleteOp(id: string)

  predicate Splits(store: Store, id: string, request: Request) {
    id in store && !NameClash(store[id], request.name, request.session)
  }

  /** A mutation as its method states it. */
  ghost predicate Steps(before: Store, op: Op, now: int, after: Store) {
    match op
    case AddOp(id, request, outcome) => Adds(before, after, id, request, now, outcome)
    case SplitOp(id, target, request, direction) =>
      after == if Splits(before, id, request)
               then before[id := WithSplit(before[id], target, request, direction, now)] else before
    case RemoveOp(id, session) => after == if id in before then Removed(before, id, session, now) else before
    case MoveOp(from, session, to, result) => Moves(before, after, from, session, to, now, result)
    case RenameOp(id, session, name) =>
      after == if Renaming(before, id, session, name) == Done
               then before[id := WithName(before[id], session, name, now)] else before
    case UpdateOp(id, patch) => after == if id in before then before[id := WithPatch(before[id], patch, now)] else before
    case CreateOp(id, layout, members) => after == before[id := Reconciled(Workspace(layout, members), now)]
    case DeleteOp(id) => after == before - {id}
  }

  /** The workspace that a caller brings in whole or in part, under its id. */
  function BroughtIn(before: Store, op: Op): Option<Workspace> {
    match op
    case UpdateOp(id, patch) => if id in before then Some(Patched(before[id], patch)) else None
    case CreateOp(_, layout, members) => Some(Workspace(layout, members))
    case _ => None
  }

  /** A layout that a caller brings in is a good tree. */
  ghost predicate BringsGoodTree(before: Store, op: Op) {
    var ws := BroughtIn(before, op);
    ws.Some? ==> GoodTree(ws.value.layout)
  }

  /** Whoever joins a workspace gets a pane in it. */
  ghost predicate ShowsAll(before: Store, op: Op) {
    var ws := BroughtIn(before, op);
    && (op.AddOp? && op.outcome == Done ==> op.request.session > 0)
    && (op.SplitOp? && Splits(before, op.id, op.request) ==> op.request.session > 0)
    && (ws.Some? ==> ShowsMembers(ws.value))
  }

  /** The mutations that do not look themselves are given no session of another workspace. */
  ghost predicate SharesNobody(before: Store, op: Op) {
    var ws := BroughtIn(before, op);
    && (op.SplitOp? && Splits(before, op.id, op.request) ==> !Elsewhere(before, op.id, op.request.session))
    && (ws.Some? ==> NobodyElsewhere(before, op.id, ws.value))
  }

  /** Every mutation keeps layouts covered, members in step and sessions exclusive, each exactly under its condition. */
  lemma StepKeepsStore(before: Store, op: Op, now: int, after: Store)
    requires AllCovered(before) && Steps(before, op, now, after)
    ensures AllCovered(after) <==> BringsGoodTree(before, op)
    ensures AllInStep(before) && BringsGoodTree(before, op) ==> (AllInStep(after) <==> ShowsAll(before, op))
    ensures Exclusive(before) ==> (Exclusive(after) <==> SharesNobody(before, op))
  {
    hide InStep, Covered, AllInStep, AllCovered, Exclusive, WithSplit, WithMember, WithoutMember, WithName, Elsewhere,
         OneEntryChanged, GoodTree, Adds, Moves, NobodyElsewhere, ShowsMembers, Holds, NameClash, Patched, Reconciled;
    match op
    case AddOp(id, request, outcome) => AddKeepsStore(before, after, id, request, now, outcome);
    case SplitOp(id, target, request, direction) =>
      if Splits(before, id, request) {
        SplitKeepsStore(before, id, target, request, direction, now);
      }
    case RemoveOp(id, session) =>
      if id in before {
        RemoveKeepsStore(before, id, session, now);
      }
    case MoveOp(from, session, to, result) => MoveKeepsStore(before, after, from, session, to, now, result);
    case RenameOp(id, session, name) =>
      if Renaming(before, id, session, name) == Done {
        RenameKeepsStore(before, id, session, name, now);
      }
    case UpdateOp(id, patch) =>
      if id in before {
        BroughtInKeepsStore(before, id, Patched(before[id], patch), now);
      }
    case CreateOp(id, layout, members) => BroughtInKeepsStore(before, id, Workspace(layout, members), now);
    case DeleteOp(id) => DeleteKeepsStore(before, id);
  }

  lemma DeleteKeepsStore(before: Store, id: string)
    ensures AllCovered(before) ==> AllCovered(before - {id})
    ensures AllInStep(before) ==> AllInStep(before - {id})
    ensures Exclusive(before) ==> Exclusive(before - {id})
  {
    hide InStep, Covered, Holds;
  }

  lemma MoveKeepsStore(before: Store, after: Store, from: string, session: int, to: Option<string>, now: int,
                       outcome: MoveOutcome)
    requires AllCovered(before) && Moves(before, after, from, session, to, now, outcome)
    ensures AllCovered(after)
    ensures AllInStep(before) ==> AllInStep(after)
    ensures Exclusive(before) ==> Exclusive(after)
  {
    hide InStep, AllInStep, Exclusive, WithoutMember, OneEntryChanged, Adds;
    if outcome == Moved {
      MoveCarriesOne(before, after, from, session, to.value, now);
    } else if outcome == Detached {
      RemoveKeepsStore(before, from, session, now);
    } else if outcome.Thrown? {
      MoveThrowsIff(before, after, from, session, to.value, now, outcome.reason);
      RemoveKeepsStore(before, from, session, now);
    }
  }

  ghost predicate IsRun(stores: seq<Store>, ops: seq<Op>, times: seq<int>) {
    && |stores| == |ops| + 1 == |times| + 1
    && forall i :: 0 <= i < |ops| ==> Steps(stores[i], ops[i], times[i], stores[i + 1])
  }

  ghost predicate BringsGoodTrees(stores: seq<Store>, ops: seq<Op>, n: nat)
    requires n <= |ops| && |stores| == |ops| + 1
  {
    forall i :: 0 <= i < n ==> BringsGoodTree(stores[i], ops[i])
  }

  /**
   * Along every run in which callers bring in good trees, everyone shown is a member, each once and under a
   * name of its own. If everyone who joins also gets a pane, members and leaves stay the same lists; and if
   * nobody is shared who is not looked up, every session stays in one workspace.
   */
  lemma {:induction false} RunKeepsStore(stores: seq<Store>, ops: seq<Op>, times: seq<int>, n: nat)
    requires IsRun(stores, ops, times) && n <= |ops| && AllCovered(stores[0]) && BringsGoodTrees(stores, ops, n)
    ensures AllCovered(stores[n])
    ensures AllInStep(stores[0]) && (forall i :: 0 <= i < n ==> ShowsAll(stores[i], ops[i])) ==> AllInStep(stores[n])
    ensures Exclusive(stores[0]) && (forall i :: 0 <= i < n ==> SharesNobody(stores[i], ops[i])) ==> Exclusive(stores[n])
    decreases n
  {
    hide AllCovered, AllInStep, Exclusive, Steps, BringsGoodTree, ShowsAll, SharesNobody;
    if n > 0 {
      RunKeepsStore(stores, ops, times, n - 1);
      StepKeepsStore(stores[n - 1], ops[n - 1], times[n - 1], stores[n]);
    }
  }

  // ---- Who is where -------------------------------------------------------------------------------

  ghost predicate Somewhere(store: Store, session: int) {
    exists id :: Held(store, id, session)
  }

  predicate Held(store: Store, id: string, session: int) {
    id in store && Holds(store[id], session)
  }

  /** The membership that a mutation leaves, workspace by workspace. */
  predicate HeldAfter(before: Store, op: Op, id: string, session: int) {
    match op
    case AddOp(at, request, outcome) =>
      Held(before, id, session) || (outcome == Done && id == at && session == request.session)
    case SplitOp(at, _, request, _) =>
      Held(before, id, session) || (Splits(before, at, request) && id == at && session == request.session)
    case RemoveOp(at, gone) => Held(before, id, session) && !(id == at && session == gone)
    case MoveOp(from, moved, to, result) =>
      || (result == Moved && Some(id) == to && session == moved)
      || (Held(before, id, session)
          && !(id == from && session == moved && (result == Moved || result == Detached || result.Thrown?)))
    case RenameOp(_, _, _) => Held(before, id, session)
    case UpdateOp(at, patch) =>
      if id == at && at in before
      then session in Placed(Patched(before[at], patch).layout) || session in Sessions(Patched(before[at], patch).members)
      else Held(before, id, session)
    case CreateOp(at, layout, members) =>
      if id == at then session in Placed(layout) || session in Sessions(members) else Held(before, id, session)
    case DeleteOp(at) => id != at && Held(before, id, session)
  }

  /** Nobody comes or goes but who is named in the mutation. */
  lemma StepCountsMembers(before: Store, op: Op, now: int, after: Store)
    requires AllCovered(before) && Steps(before, op, now, after)
    ensures forall id, x :: Held(after, id, x) <==> HeldAfter(before, op, id, x)
  {
    hide InStep, Covered, AllInStep, AllCovered, Exclusive, WithSplit, WithMember, WithoutMember, WithName, Elsewhere,
         OneEntryChanged, GoodTree, NobodyElsewhere, Holds, NameClash, Patched, Reconciled, Moves;
    match op
    case AddOp(id, request, outcome) => AddKeepsStore(before, after, id, request, now, outcome);
    case SplitOp(id, target, request, direction) =>
      if Splits(before, id, request) {
        SplitKeepsStore(before, id, target, request, direction, now);
      }
    case RemoveOp(id, session) =>
      if id in before {
        RemoveKeepsStore(before, id, session, now);
        HoldsAfter(before, after, id, session, None);
      }
    case MoveOp(from, session, to, result) => MoveCountsMembers(before, after, from, session, to, now, result);
    case RenameOp(id, session, name) =>
      if Renaming(before, id, session, name) == Done {
        RenameKeepsStore(before, id, session, name, now);
      }
    case UpdateOp(id, patch) =>
      if id in before {
        BroughtInKeepsStore(before, id, Patched(before[id], patch), now);
      }
    case CreateOp(id, layout, members) => BroughtInKeepsStore(before, id, Workspace(layout, members), now);
    case DeleteOp(id) =>
  }

  lemma MoveCountsMembers(before: Store, after: Store, from: string, session: int, to: Option<string>, now: int,
                          result: MoveOutcome)
    requires AllCovered(before) && Moves(before, after, from, session, to, now, result)
    ensures forall id, x :: Held(after, id, x) <==> HeldAfter(before, MoveOp(from, session, to, result), id, x)
  {
    hide AllCovered, WithoutMember, OneEntryChanged, Adds, Holds;
    if result == Moved {
      MovedMembers(before, after, from, session, to.value, now);
    } else if result == Detached || result.Thrown? {
      LeavingMembers(before, after, from, session, to, now, result);
    }
  }

  lemma LeavingMembers(before: Store, after: Store, from: string, session: int, to: Option<string>, now: int,
                       result: MoveOutcome)
    requires AllCovered(before) && Moves(before, after, from, session, to, now, result)
    requires result == Detached || result.Thrown?
    ensures after.Keys == before.Keys
    ensures forall id, x :: id in before ==> (Holds(after[id], x) <==> Holds(before[id], x) && !(id == from && x == session))
  {
    hide InStep, Exclusive, WithoutMember, OneEntryChanged, Adds, Holds;
    if result.Thrown? {
      MoveThrowsIff(before, after, from, session, to.value, now, result.reason);
    }
    RemoveKeepsStore(before, from, session, now);
    HoldsAfter(before, after, from, session, None);
  }

  /** The ways out: a removal, a move to nowhere, one that throws, a list of members without the session, a deletion. */
  predicate LetsGo(before: Store, op: Op, session: int) {
    match op
    case RemoveOp(id, gone) => gone == session && Held(before, id, session)
    case MoveOp(from, gone, _, result) =>
      gone == session && Held(before, from, session) && (result == Detached || result.Thrown?)
    case UpdateOp(id, patch) =>
      && Held(before, id, session) && patch.members.Some? && session !in Sessions(patch.members.value)
      && session !in Placed(Patched(before[id], patch).layout)
    case CreateOp(id, layout, members) =>
      Held(before, id, session) && session !in Sessions(members) && session !in Placed(layout)
    case DeleteOp(id) => Held(before, id, session)
    case _ => false
  }

  lemma StepLosesNobody(before: Store, op: Op, now: int, after: Store, session: int)
    requires AllCovered(before) && Steps(before, op, now, after) && Somewhere(before, session)
    ensures !LetsGo(before, op, session) ==> Somewhere(after, session)
    ensures Exclusive(before) ==> (Somewhere(after, session) <==> !LetsGo(before, op, session))
  {
    hide Covered, Placed, Adds, WithSplit, WithMember, WithoutMember, WithName, WithPatch, HeldAfter, LetsGo, Exclusive;
    StepCountsMembers(before, op, now, after);
    var id :| Held(before, id, session);
    var at := if op.MoveOp? && op.result == Moved && op.session == session then op.to.value else id;
    if !LetsGo(before, op, session) {
      KeptSomewhere(before, op, id, session);
    } else if Exclusive(before) {
      OneHolder(before, id, session);
      GoneEverywhere(before, op, id, session);
    }
    assert Held(after, at, session) <==> HeldAfter(before, op, at, session);
  }

  lemma KeptSomewhere(before: Store, op: Op, id: string, session: int)
    requires Held(before, id, session) && !LetsGo(before, op, session)
    requires op.MoveOp? && op.result == Moved ==> op.to.Some?
    ensures
      var at := if op.MoveOp? && op.result == Moved && op.session == session then op.to.value else id;
      HeldAfter(before, op, at, session)
  {
  }

  lemma GoneEverywhere(before: Store, op: Op, id: string, session: int)
    requires Held(before, id, session) && LetsGo(before, op, session)
    requires forall other :: Held(before, other, session) ==> other == id
    ensures forall other :: !HeldAfter(before, op, other, session)
  {
  }

  lemma OneHolder(store: Store, id: string, session: int)
    requires Exclusive(store) && Held(store, id, session)
    ensures forall other :: Held(store, other, session) ==> other == id
  {
  }

  /** Whoever is a member somewhere stays one until a mutation lets it go, whatever else happens meanwhile. */
  lemma {:induction false} RunLosesNobody(stores: seq<Store>, ops: seq<Op>, times: seq<int>, n: nat, session: int)
    requires IsRun(stores, ops, times) && n <= |ops| && AllCovered(stores[0]) && BringsGoodTrees(stores, ops, n)
    requires Somewhere(stores[0], session) && forall i :: 0 <= i < n ==> !LetsGo(stores[i], ops[i], session)
    ensures Somewhere(stores[n], session)
    decreases n
  {
    hide AllCovered, AllInStep, Exclusive, Steps, BringsGoodTree, LetsGo, Somewhere;
    if n > 0 {
      RunLosesNobody(stores, ops, times, n - 1, session);
      RunKeepsStore(stores, ops, times, n - 1);
      StepLosesNobody(stores[n - 1], ops[n - 1], times[n - 1], stores[n], session);
    }
  }

  // ---- Stores that are not exclusive --------------------------------------------------------------

  /** A workspace with one member. */
  function Single(session: int, profile: Profile): Workspace {
    Workspace(Pane(session), [Member(session, "main", profile)])
  }

  lemma SingleInStep(session: int, profile: Profile)
    requires session > 0
    ensures InStep(Single(session, profile))
    ensures forall x :: Holds(Single(session, profile), x) <==> x == session
  {
    var ws := Single(session, profile);
    assert Panes(ws.layout) == [session] && Sessions(ws.members) == [session];
  }

  lemma InStepIsAllCovered(store: Store)
    requires AllInStep(store)
    ensures AllCovered(store)
  {
    hide InStep, Covered;
    forall id | id in store ensures Covered(store[id]) {
      InStepIsCovered(store[id]);
    }
  }

  /** A third holder is found only when the session has already left its source. */
  lemma ThirdMakesItThrow(before: Store, from: string, to: string, third: string, session: int, now: int)
    requires from in before && to in before && third in before && WellFormed(before[from].layout)
    requires from != to && from != third && to != third
    requires Holds(before[from], session) && Holds(before[third], session)
    ensures Moves(before, Removed(before, from, session, now), from, session, Some(to), now, Thrown(HeldElsewhere(third)))
    ensures !Holds(Removed(before, from, session, now)[from], session)
  {
    hide WithoutMember, Holds, WellFormed;
    RemovedIsGone(before[from], session, now);
    HoldsIsKnown(before[from], session);
  }

  /** Three workspaces, the first and the last with the same session. */
  function Shared(profile: Profile): Store {
    map["a" := Single(1, profile), "b" := Single(2, profile), "c" := Single(1, profile)]
  }

  lemma SharedInStep(profile: Profile)
    ensures AllInStep(Shared(profile))
  {
    SingleInStep(1, profile);
    SingleInStep(2, profile);
    hide InStep, Single;
  }

  lemma MoveCanThrow(profile: Profile, now: int)
    ensures AllInStep(Shared(profile)) && Holds(Shared(profile)["a"], 1)
    ensures
      var after := Removed(Shared(profile), "a", 1, now);
      && Moves(Shared(profile), after, "a", 1, Some("b"), now, Thrown(HeldElsewhere("c")))
      && !Holds(after["a"], 1) && !Holds(after["b"], 1)
  {
    SharedInStep(profile);
    SingleInStep(1, profile);
    SingleInStep(2, profile);
    hide InStep, AllInStep, Single, WithoutMember, Holds, Moves;
    ThirdMakesItThrow(Shared(profile), "a", "b", "c", 1, now);
  }

  lemma HoldsIsKnown(ws: Workspace, session: int)
    ensures Holds(ws, session) <==> Lookup(ws.members, session).Some?
  {
    LookupFinds(ws.members, session);
  }

  function Two(profile: Profile): Store {
    map["a" := Single(1, profile), "b" := Single(2, profile)]
  }

  lemma TwoAreApart(profile: Profile)
    ensures AllInStep(Two(profile)) && Exclusive(Two(profile))
    ensures Elsewhere(Two(profile), "b", 1) && !NameClash(Two(profile)["b"], "other", 1)
  {
    SingleInStep(1, profile);
    SingleInStep(2, profile);
    hide InStep, Holds;
    HolderIsElsewhere(Two(profile), "a", "b", 1);
  }

  /** A split with a session of another workspace leaves it in both. */
  lemma SplitCanShare(profile: Profile, now: int)
    ensures AllInStep(Two(profile)) && Exclusive(Two(profile))
    ensures
      var request := Request(1, "other", None, None);
      !Exclusive(Two(profile)["b" := WithSplit(Two(profile)["b"], None, request, ToRight, now)])
  {
    TwoAreApart(profile);
    InStepIsAllCovered(Two(profile));
    hide InStep, AllInStep, Exclusive, Elsewhere, Single, WithSplit, OneEntryChanged, NameClash;
    SplitKeepsStore(Two(profile), "b", None, Request(1, "other", None, None), ToRight, now);
  }
}
