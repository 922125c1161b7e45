/**
 * What the mutations do to one workspace (packages/server/src/workspace-store.ts:284-308, 396-519): everyone
 * the layout shows stays a member, nobody else is renamed or lost, and members and layout that agree go on
 * agreeing.
 */
module WorkspaceOps {
  import opened Prelude
  import opened LayoutTree
  import opened LayoutShape
  import opened LayoutPresets
  import opened MemberNames
  import opened WorkspaceModel
  import opened WorkspaceProofs
  import opened WorkspaceNames

  // ---- The layout side --------------------------------------------------------------------------

  /** A good tree that shows exactly `who`. */
  ghost predicate Shows(node: Node, who: iset<int>) {
    && GoodTree(node)
    && forall x :: x in Placed(node) <==> x in who
  }

  function PlacedSet(node: Node): iset<int> {
    iset x | x in Placed(node)
  }

  /** Ids that are not positive have no pane. */
  function Shown(session: int): iset<int> {
    if session > 0 then iset{session} else iset{}
  }

  lemma InsertShows(root: Node, session: int, axis: Axis)
    requires GoodTree(root)
    ensures Shows(InsertPane(root, session, axis), PlacedSet(root) + Shown(session))
  {
    var after := InsertPane(root, session, axis);
    InsertKeepsForm(root, session, axis);
    PlacedSessions(root);
    if session > 0 && !Has(root, session) {
      HasIsListed(root, session);
      InsertListsLast(root, session, axis);
      DistinctJoin(Panes(root), [session]);
      PlacedSessions(after);
    }
  }

  lemma SplitShows(root: Node, p: Placement)
    requires GoodTree(root)
    ensures Shows(SplitPane(root, p), PlacedSet(root) + Shown(p.session))
  {
    var after := SplitPane(root, p);
    PlacedSessions(root);
    InsertShows(root, p.session, p.axis);
    if p.session > 0 && !Has(root, p.session) && Has(root, p.target) {
      RewriteKeepsForm(root, p);
      SplitListsBeside(root, p);
      PlacedSessions(after);
      HasIsListed(root, p.target);
      forall x ensures x in Panes(after) <==> x in Panes(root) || x == p.session {
        BesideElements(Panes(root), p, x);
      }
    }
  }

  lemma RemoveShows(root: Node, session: int)
    requires GoodTree(root)
    ensures Shows(RemovePane(root, session), PlacedSet(root) - iset{session})
  {
    var after := RemovePane(root, session);
    PruneKeepsForm(root, session);
    RemoveLists(root, session);
    WithoutKeepsDistinct(Panes(root), session);
    PlacedSessions(root);
    PlacedSessions(after);
    forall x ensures x in Without(Panes(root), session) <==> x in Panes(root) && x != session {
      WithoutElements(Panes(root), session, x);
    }
  }

  /** Repeated panes go as well. */
  lemma RemovedIsNotPlaced(root: Node, session: int)
    requires WellFormed(root)
    ensures session !in Placed(RemovePane(root, session))
  {
    PruneKeepsForm(root, session);
    RemoveLists(root, session);
    PlacedIsPanes(RemovePane(root, session));
    WithoutElements(Panes(root), session, session);
    WithoutElements(Panes(RemovePane(root, session)), 0, session);
  }

  // ---- The member side --------------------------------------------------------------------------

  /** The same members as before, except that `session` now has the entry `entry`. */
  ghost predicate OnlyChanges(before: seq<Member>, after: seq<Member>, session: int, entry: Option<Member>) {
    forall x :: Lookup(after, x) == if x == session then entry else Lookup(before, x)
  }

  lemma SameMembersSameSessions(before: seq<Member>, after: seq<Member>, session: int, entry: Option<Member>)
    requires OnlyChanges(before, after, session, entry)
    ensures forall x :: x in Sessions(after) <==> if x == session then entry.Some? else x in Sessions(before)
  {
    forall x ensures x in Sessions(after) <==> if x == session then entry.Some? else x in Sessions(before) {
      LookupFinds(before, x);
      LookupFinds(after, x);
    }
  }

  function EntryOf(members: seq<Member>, request: Request, now: int): Member {
    var known := Lookup(members, request.session);
    if known.Some? then Updated(known.value, request, now) else NewMember(request, now)
  }

  lemma PutChangesOne(members: seq<Member>, entry: Member)
    requires Distinct(Sessions(members))
    ensures Distinct(Sessions(Put(members, entry)))
    ensures OnlyChanges(members, Put(members, entry), entry.session, Some(entry))
    ensures forall x :: x in Sessions(Put(members, entry)) <==> x in Sessions(members) || x == entry.session
  {
    hide Put, Lookup;
    forall x {
      PutLooks(members, entry, x);
    }
    PutLooks(members, entry, entry.session);
    SameMembersSameSessions(members, Put(members, entry), entry.session, Some(entry));
  }

  lemma PutKeepsNames(members: seq<Member>, member: Member)
    requires GoodNames(members) && Distinct(Sessions(members)) && member.name != ""
    requires forall i :: 0 <= i < |members| && members[i].session != member.session ==> members[i].name != member.name
    ensures GoodNames(Put(members, member))
  {
    var i := IndexBy(members, member.session);
    if i < |members| {
      forall j | 0 <= j < |members| && j != i ensures members[j].session != member.session {
        assert Sessions(members)[j] != Sessions(members)[i];
      }
    }
  }

  lemma {:induction false} DropKeepsNames(members: seq<Member>, session: int)
    requires GoodNames(members)
    ensures GoodNames(Drop(members, session))
    ensures forall m :: m in Drop(members, session) ==> m in members
  {
    if members != [] {
      DropKeepsNames(members[1..], session);
      var rest := Drop(members[1..], session);
      forall j | 0 <= j < |rest| ensures rest[j].name != members[0].name {
        assert rest[j] in members[1..];
      }
    }
  }

  // ---- Whatever a mutation changes ----------------------------------------------------------------

  /** One entry is changed and no leaf is without a member: after reconciling that is still the only change. */
  lemma ChangeKeepsOthers(ws: Workspace, changed: Workspace, session: int, entry: Option<Member>, now: int)
    requires GoodTree(changed.layout) && GoodNames(BySession(changed.members))
    requires forall x :: x in Placed(changed.layout) ==> x in Sessions(changed.members)
    requires OnlyChanges(ws.members, BySession(changed.members), session, entry)
    ensures OnlyChanges(ws.members, Reconciled(changed, now).members, session, entry)
  {
    hide Reconciled, BySession, Lookup, WellFormed, GoodNames;
    PlacedSessions(changed.layout);
    ReconcileKeepsEveryone(changed, now);
  }

  /** Put `entry` into the members of a covered workspace, and its session into the layout. */
  lemma PutKeepsOthers(ws: Workspace, layout: Node, members: seq<Member>, entry: Member, now: int)
    requires Covered(ws) && BySession(members) == Put(ws.members, entry)
    requires Shows(layout, PlacedSet(ws.layout) + Shown(entry.session))
    ensures Covered(Reconciled(Workspace(layout, members), now))
    ensures entry.name != "" && !NameClash(ws, entry.name, entry.session) ==>
      OnlyChanges(ws.members, Reconciled(Workspace(layout, members), now).members, entry.session, Some(entry))
    ensures forall x :: Holds(Reconciled(Workspace(layout, members), now), x) <==> Holds(ws, x) || x == entry.session
    ensures InStep(ws) ==> (InStep(Reconciled(Workspace(layout, members), now)) <==> entry.session > 0)
  {
    hide Reconciled, BySession, Lookup, WellFormed, GoodNames, Put;
    var changed := Workspace(layout, members);
    PutChangesOne(ws.members, entry);
    BySessionHolds(members);
    ReconciledIsCoveredIff(changed, now);
    ReconcileLosesNobody(changed, now);
    PutStaysInStep(ws, changed, entry.session, now);
    if entry.name != "" && !NameClash(ws, entry.name, entry.session) {
      PutKeepsNames(ws.members, entry);
      ChangeKeepsOthers(ws, changed, entry.session, Some(entry), now);
    }
  }

  lemma PutStaysInStep(ws: Workspace, changed: Workspace, session: int, now: int)
    requires Shows(changed.layout, PlacedSet(ws.layout) + Shown(session))
    requires forall x :: x in Sessions(changed.members) <==> x in Sessions(ws.members) || x == session
    ensures InStep(ws) ==> (InStep(Reconciled(changed, now)) <==> session > 0)
  {
    hide Reconciled, WellFormed, GoodNames;
    ReconcileBringsInStepIff(changed, now);
    if InStep(ws) {
      PlacedIsPositive(ws.layout, session);
      assert session in Sessions(changed.members);
      assert forall x :: x in Sessions(ws.members) <==> x in PlacedSet(ws.layout);
    }
  }

  lemma {:induction false} PlacedIsPositive(node: Node, x: int)
    ensures x in Placed(node) ==> x > 0
    decreases node
  {
    if node.Split? {
      PlacedOfIsPositive(node.children, x);
    }
  }

  lemma {:induction false} PlacedOfIsPositive(children: seq<Node>, x: int)
    ensures x in PlacedOf(children) ==> x > 0
    decreases children
  {
    if children != [] {
      PlacedIsPositive(children[0], x);
      PlacedOfIsPositive(children[1..], x);
    }
  }

  // ---- One mutation at a time ---------------------------------------------------------------------

  /**
   * Adding makes the session a member and loses nobody; with a free name it changes no other member, whether
   * the layout shows that member or not.
   */
  lemma AddChangesOne(ws: Workspace, request: Request, now: int)
    requires Covered(ws)
    ensures Covered(WithMember(ws, request, now))
    ensures request.name != "" && !NameClash(ws, request.name, request.session) ==>
      OnlyChanges(ws.members, WithMember(ws, request, now).members, request.session,
                  Some(EntryOf(ws.members, request, now)))
    ensures forall x :: Holds(WithMember(ws, request, now), x) <==> Holds(ws, x) || x == request.session
    ensures InStep(ws) ==> (InStep(WithMember(ws, request, now)) <==> request.session > 0)
  {
    hide Reconciled, InsertPane, InStep, Enrolled, EntryOf, Lookup, BySession, Put, OnlyChanges, Holds;
    var entry := EntryOf(ws.members, request, now);
    InsertShows(ws.layout, request.session, Row);
    EnrolledIsPut(ws.members, request, now);
    PutChangesOne(ws.members, entry);
    BySessionIsIdentity(Put(ws.members, entry));
    PutKeepsOthers(ws, InsertPane(ws.layout, request.session, Row), Enrolled(ws.members, request, now), entry, now);
  }

  lemma EnrolledIsPut(members: seq<Member>, request: Request, now: int)
    ensures Enrolled(members, request, now) == Put(members, EntryOf(members, request, now))
    ensures EntryOf(members, request, now).name == request.name
    ensures EntryOf(members, request, now).session == request.session
  {
    LookupFinds(members, request.session);
  }

  /** Splitting does the same; a session that was already there takes the new entry. */
  lemma SplitChangesOne(ws: Workspace, target: Option<int>, request: Request, direction: Direction, now: int)
    requires Covered(ws)
    ensures Covered(WithSplit(ws, target, request, direction, now))
    ensures request.name != "" && !NameClash(ws, request.name, request.session) ==>
      OnlyChanges(ws.members, WithSplit(ws, target, request, direction, now).members, request.session,
                  Some(NewMember(request, now)))
    ensures forall x :: Holds(WithSplit(ws, target, request, direction, now), x) <==> Holds(ws, x) || x == request.session
    ensures InStep(ws) ==> (InStep(WithSplit(ws, target, request, direction, now)) <==> request.session > 0)
  {
    hide Reconciled, InStep, Put, Lookup, InsertPane, SplitPane, BySession, OnlyChanges, Holds;
    var entry := NewMember(request, now);
    InsertShows(ws.layout, request.session, Row);
    if target.Some? {
      SplitShows(ws.layout, PlacementOf(target.value, request.session, direction));
    }
    PushedIsPut(ws.members, entry);
    PutKeepsOthers(ws, SplitLayout(ws.layout, target, request.session, direction), ws.members + [entry], entry, now);
  }

  lemma PushedIsPut(members: seq<Member>, entry: Member)
    requires Distinct(Sessions(members))
    ensures BySession(members + [entry]) == Put(members, entry)
  {
    BySessionIsIdentity(members);
    assert (members + [entry])[..|members|] == members;
  }

  /** Removing takes out the one session and keeps everyone else whole. */
  lemma RemoveChangesOne(ws: Workspace, session: int, now: int)
    requires Covered(ws)
    ensures Covered(WithoutMember(ws, session, now))
    ensures OnlyChanges(ws.members, WithoutMember(ws, session, now).members, session, None)
    ensures InStep(ws) ==> InStep(WithoutMember(ws, session, now))
  {
    hide Reconciled, RemovePane, Lookup, WellFormed, GoodNames;
    var changed := Workspace(RemovePane(ws.layout, session), Drop(ws.members, session));
    RemoveShows(ws.layout, session);
    DroppedIsDictionary(ws.members, session);
    DropKeepsNames(ws.members, session);
    SameMembersSameSessions(ws.members, changed.members, session, None);
    ReconciledIsCoveredIff(changed, now);
    ReconcileBringsInStepIff(changed, now);
    ChangeKeepsOthers(ws, changed, session, None, now);
    assert InStep(ws) ==> forall x :: x in Sessions(ws.members) ==> x in PlacedSet(ws.layout);
  }

  lemma DroppedIsDictionary(members: seq<Member>, session: int)
    requires Distinct(Sessions(members))
    ensures BySession(Drop(members, session)) == Drop(members, session)
    ensures OnlyChanges(members, Drop(members, session), session, None)
  {
    SessionsOfDrop(members, session);
    WithoutKeepsDistinct(Sessions(members), session);
    BySessionIsIdentity(Drop(members, session));
    forall x ensures Lookup(Drop(members, session), x) == if x == session then None else Lookup(members, x) {
      DropLooks(members, session, x);
    }
  }

  /** A removed session is gone even where it stood in several panes or entries. */
  lemma RemovedIsGone(ws: Workspace, session: int, now: int)
    requires WellFormed(ws.layout)
    ensures !Holds(WithoutMember(ws, session, now), session)
  {
    hide Reconciled, RemovePane, WellFormed;
    var changed := Workspace(RemovePane(ws.layout, session), Drop(ws.members, session));
    RemovedIsNotPlaced(ws.layout, session);
    SessionsOfDrop(ws.members, session);
    WithoutElements(Sessions(ws.members), session, session);
    ReconcileLosesNobody(changed, now);
  }

  /** A new name changes that member only, and nobody comes or goes. */
  lemma RenameChangesOne(ws: Workspace, session: int, name: string, now: int)
    requires Covered(ws) && Lookup(ws.members, session).Some?
    ensures Covered(WithName(ws, session, name, now))
    ensures name != "" && !NameClash(ws, name, session) ==>
      OnlyChanges(ws.members, WithName(ws, session, name, now).members, session,
                  Some(Named(Lookup(ws.members, session).value, name, now)))
    ensures forall x :: Holds(WithName(ws, session, name, now), x) <==> Holds(ws, x)
    ensures InStep(ws) ==> InStep(WithName(ws, session, name, now))
  {
    hide Reconciled, Put, BySession, OnlyChanges, Placed, WellFormed, GoodNames;
    var entry := Named(Lookup(ws.members, session).value, name, now);
    LookupFinds(ws.members, session);
    RenamedIsPut(ws, session, name, now);
    PutChangesOne(ws.members, entry);
    BySessionIsIdentity(Put(ws.members, entry));
    RenamedKeepsOthers(ws, entry, now);
  }

  lemma RenamedIsPut(ws: Workspace, session: int, name: string, now: int)
    requires Lookup(ws.members, session).Some?
    ensures
      var entry := Named(Lookup(ws.members, session).value, name, now);
      entry.session == session && WithName(ws, session, name, now) == Reconciled(ws.(members := Put(ws.members, entry)), now)
  {
    hide Reconciled;
    LookupFinds(ws.members, session);
  }

  lemma RenamedKeepsOthers(ws: Workspace, entry: Member, now: int)
    requires Covered(ws) && Holds(ws, entry.session)
    requires BySession(Put(ws.members, entry)) == Put(ws.members, entry)
    ensures
      var after := Reconciled(ws.(members := Put(ws.members, entry)), now);
      && Covered(after)
      && (entry.name != "" && !NameClash(ws, entry.name, entry.session) ==>
            OnlyChanges(ws.members, after.members, entry.session, Some(entry)))
      && (forall x :: Holds(after, x) <==> Holds(ws, x))
      && (InStep(ws) ==> InStep(after))
  {
    hide Reconciled, Put, BySession, WellFormed, GoodNames, Lookup;
    var changed := ws.(members := Put(ws.members, entry));
    PutChangesOne(ws.members, entry);
    ReconciledIsCoveredIff(changed, now);
    ReconcileLosesNobody(changed, now);
    ReconcileBringsInStepIff(changed, now);
    if entry.name != "" && !NameClash(ws, entry.name, entry.session) {
      PutKeepsNames(ws.members, entry);
      ChangeKeepsOthers(ws, changed, entry.session, Some(entry), now);
    }
  }

  // ---- A new layout -------------------------------------------------------------------------------

  /**
   * A new layout makes members of its leaves and loses nobody. Everyone keeps everything exactly when no leaf
   * without a member is given the name of a member who comes later.
   */
  lemma RelayoutLosesNobody(ws: Workspace, layout: Node, now: int)
    requires Covered(ws) && GoodTree(layout)
    ensures
      var after := WithPatch(ws, Patch(Some(layout), None, None), now);
      && Covered(after) && after.layout == layout
      && (forall x :: Holds(after, x) <==> Holds(ws, x) || x in Placed(layout))
      && ((forall x :: Holds(ws, x) ==> Lookup(after.members, x) == Lookup(ws.members, x))
          <==> TakesNobodysName(ws.members, Placed(layout)))
      && (InStep(after) <==> forall x :: Holds(ws, x) ==> x in Placed(layout))
  {
    hide Reconciled, WellFormed, GoodNames, BySession, Lookup, TakesNobodysName, KeepsNames, InStep;
    var changed := Workspace(layout, ws.members);
    assert Reconciled(changed, now).layout == layout by { LayoutStays(changed, now); }
    PlacedSessions(layout);
    BySessionIsIdentity(ws.members);
    ReconciledIsCoveredIff(changed, now);
    ReconcileLosesNobody(changed, now);
    ReconcileKeepsNamesIff(changed, now);
    ReconcileBringsInStepIff(changed, now);
  }

  lemma LayoutStays(ws: Workspace, now: int)
    ensures Reconciled(ws, now).layout == ws.layout
  {
  }

  lemma {:induction false} SameLookupsSameList(a: seq<Member>, b: seq<Member>)
    requires Sessions(a) == Sessions(b) && Distinct(Sessions(a))
    requires forall x :: x in Sessions(a) ==> Lookup(a, x) == Lookup(b, x)
    ensures a == b
  {
    hide Lookup;
    forall i | 0 <= i < |a| ensures a[i] == b[i] {
      LookupAt(a, i);
      LookupAt(b, i);
      assert Sessions(a)[i] == a[i].session && Sessions(b)[i] == b[i].session;
      assert a[i].session in Sessions(a);
    }
  }

  lemma PresetShowsAll(preset: Preset, ids: seq<int>)
    requires Distinct(ids) && forall i :: 0 <= i < |ids| ==> ids[i] > 0
    ensures GoodTree(PresetLayout(preset, ids)) && Placed(PresetLayout(preset, ids)) == ids
  {
    hide PresetLayout;
    PresetPlaces(preset, ids);
    PlacedIsPanes(PresetLayout(preset, ids));
    if ids != [] {
      WithoutAbsent(ids, 0);
    } else {
      assert Without([0], 0) == [];
    }
  }

  /**
   * A preset shows every member again, in the order of membership, and leaves the list of members as it was:
   * whatever the layout had lost sight of, the workspace is in step.
   */
  lemma PresetBringsInStep(ws: Workspace, layout: Option<Node>, preset: Preset, now: int)
    requires Covered(ws) && forall x :: Holds(ws, x) ==> x > 0
    ensures
      var after := WithPatch(ws, Patch(layout, Some(preset), None), now);
      InStep(after) && after.members == ws.members
  {
    hide Reconciled, WellFormed, GoodNames, BySession, Lookup, PresetLayout;
    var ids := Sessions(ws.members);
    forall i | 0 <= i < |ids| ensures ids[i] > 0 {
      assert Holds(ws, ids[i]);
    }
    PresetShowsAll(preset, ids);
    var changed := Workspace(PresetLayout(preset, ids), ws.members);
    BySessionIsIdentity(ws.members);
    ReconcileBringsInStepIff(changed, now);
    ReconcileKeepsEveryone(changed, now);
    LayoutStays(changed, now);
    SameLookupsSameList(Reconciled(changed, now).members, ws.members);
  }
}
