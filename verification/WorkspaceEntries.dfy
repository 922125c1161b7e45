/**
 * What a member's entry says after a mutation (packages/server/src/workspace-store.ts:408-422, 440-449, 485-512):
 * name, role, tags and times.
 */
module WorkspaceEntries {
  import opened Prelude
  import opened LayoutTree
  import opened LayoutShape
  import opened MemberNames
  import opened WorkspaceModel
  import opened WorkspaceProofs
  import opened WorkspaceOps
  import opened WorkspaceStore
  import opened WorkspaceRuns

  /** A name that the store takes as it is. */
  predicate FreeName(ws: Workspace, name: string, session: int) {
    name != "" && !NameClash(ws, name, session)
  }

  /** A rename gives the member that name and the time; role, tags and age stay. */
  lemma RenamedEntry(ws: Workspace, session: int, name: string, now: int)
    requires Covered(ws) && Holds(ws, session) && FreeName(ws, name, session)
    ensures
      var was, entry := Lookup(ws.members, session), Lookup(WithName(ws, session, name, now).members, session);
      was.Some? && entry == Some(Member(session, name,
        Profile(was.value.profile.role, was.value.profile.tags, was.value.profile.created, now)))
  {
    hide Covered, WithName;
    LookupFinds(ws.members, session);
    RenameChangesOne(ws, session, name, now);
  }

  /** A newcomer is as asked for, without tags if none are given, and as old as its entry. */
  lemma AddedEntry(ws: Workspace, request: Request, now: int)
    requires Covered(ws) && !Holds(ws, request.session) && FreeName(ws, request.name, request.session)
    ensures
      Lookup(WithMember(ws, request, now).members, request.session)
      == Some(Member(request.session, request.name,
                     Profile(request.role, if request.tags.Some? then request.tags.value else [], now, now)))
  {
    hide Covered, WithMember;
    LookupFinds(ws.members, request.session);
    AddChangesOne(ws, request, now);
  }

  /** One who was a member takes the new name and role, keeps its age, and keeps its tags unless new ones are given. */
  lemma UpdatedEntry(ws: Workspace, request: Request, now: int)
    requires Covered(ws) && Holds(ws, request.session) && FreeName(ws, request.name, request.session)
    ensures
      var was := Lookup(ws.members, request.session);
      was.Some? && Lookup(WithMember(ws, request, now).members, request.session)
      == Some(Member(request.session, request.name,
                     Profile(request.role, if request.tags.Some? then request.tags.value else was.value.profile.tags,
                             was.value.profile.created, now)))
  {
    hide Covered, WithMember;
    LookupFinds(ws.members, request.session);
    AddChangesOne(ws, request, now);
  }

  /** A split always makes a new entry. */
  lemma SplitEntry(ws: Workspace, target: Option<int>, request: Request, direction: Direction, now: int)
    requires Covered(ws) && FreeName(ws, request.name, request.session)
    ensures
      Lookup(WithSplit(ws, target, request, direction, now).members, request.session)
      == Some(Member(request.session, request.name,
                     Profile(request.role, if request.tags.Some? then request.tags.value else [], now, now)))
  {
    hide Covered, WithSplit;
    SplitChangesOne(ws, target, request, direction, now);
  }

  /**
   * A member that moves takes role and tags along, and its name where that is free; elsewhere it gets another
   * that is. Its entry is as old as the move, unless the destination had one already.
   */
  lemma MovedEntry(before: Store, after: Store, from: string, session: int, to: string, now: int)
    requires AllCovered(before) && Carries(before, after, from, session, Some(to), now, Done)
    ensures
      var was, there, entry := Lookup(before[from].members, session), Lookup(before[to].members, session),
                              Lookup(after[to].members, session);
      && was.Some? && entry.Some?
      && entry.value.name !in Names(before[to].members) && entry.value.name != ""
      && (was.value.name !in Names(before[to].members) ==> entry.value.name == was.value.name)
      && entry.value == Member(session, entry.value.name,
           Profile(was.value.profile.role, was.value.profile.tags,
                   if there.Some? then there.value.profile.created else now, now))
  {
    hide AllCovered, OnlyChanges;
    MoveCarriesOne(before, after, from, session, to, now);
    var member := Lookup(before[from].members, session).value;
    MemberFacts(before[from], session) by { assert Covered(before[from]) by { CoveredIn(before, from); } }
    ArrivalDoesNotClash(member, before[to]);
    assert OnlyChanges(before[to].members, after[to].members, session,
                       Some(EntryOf(before[to].members, Arriving(member, before[to]), now)));
    ChangedEntry(before[to].members, after[to].members, session,
                 Some(EntryOf(before[to].members, Arriving(member, before[to]), now)));
    LookupFinds(before[to].members, session);
  }

  lemma CoveredIn(store: Store, id: string)
    requires AllCovered(store) && id in store
    ensures Covered(store[id])
  {
  }

  lemma ChangedEntry(before: seq<Member>, after: seq<Member>, session: int, entry: Option<Member>)
    requires OnlyChanges(before, after, session, entry)
    ensures Lookup(after, session) == entry
  {
  }

  /** A name clashes exactly when somebody else has it; a member's own name never does. */
  lemma ClashesIff(ws: Workspace, name: string, session: int)
    requires Covered(ws)
    ensures
      var own := Lookup(ws.members, session);
      NameClash(ws, name, session) <==> name in Names(ws.members) && !(own.Some? && own.value.name == name)
  {
    hide Lookup;
    var members := ws.members;
    LookupFinds(members, session);
    if NameClash(ws, name, session) {
      var i :| 0 <= i < |members| && members[i].name == name && members[i].session != session;
      assert members[i] in members;
      if Lookup(members, session).Some? {
        OthersNamedApart(members, Lookup(members, session).value, members[i]);
      }
    } else if name in Names(members) {
      var m :| m in members && m.name == name;
      var i :| 0 <= i < |members| && members[i] == m;
      LookupAt(members, i);
    }
  }

  lemma OthersNamedApart(members: seq<Member>, a: Member, b: Member)
    requires GoodNames(members) && a in members && b in members && a.session != b.session
    ensures a.name != b.name
  {
  }

  // ---- Reconciling ------------------------------------------------------------------------------

  /** What the entry of `x` carries after reconciling: what it carried before, or nothing yet for a new leaf. */
  function ProfileOf(dict: seq<Member>, x: int, now: int): Profile {
    var known := Lookup(dict, x);
    if known.Some? then known.value.profile else Profile(None, [], now, now)
  }

  ghost predicate HasProfile(done: seq<Member>, x: int, profile: Profile) {
    Lookup(done, x).Some? && Lookup(done, x).value.profile == profile
  }

  lemma ClaimedCarries(s: Sorting, left: seq<Member>, member: Member, x: int)
    requires member.session !in Sessions(s.done)
    ensures
      var done := Claim(s, left, member).done;
      && (x == member.session ==> HasProfile(done, x, member.profile))
      && (x != member.session ==> Lookup(done, x) == Lookup(s.done, x))
  {
    var named := member.(name := ClaimName(member.name, s.used, |s.done| + 1));
    LookupConcat(s.done, [named], x);
    LookupOne(named, x);
    LookupFinds(s.done, member.session);
  }

  lemma {:induction false} PlacedCarry(dict: seq<Member>, placed: seq<int>, now: int, x: int)
    requires Distinct(placed) && x in placed
    ensures HasProfile(PlaceAll(Sorting(dict, {}, []), placed, now).done, x, ProfileOf(dict, x, now))
    decreases |placed|
  {
    hide Claim, Lookup;
    var s := Sorting(dict, {}, []);
    var front, last := placed[..|placed| - 1], placed[|placed| - 1];
    assert placed == front + [last];
    DistinctParts(front, [last]);
    assert last in [last];
    PlaceAllAddsSessions(s, front, now);
    var t := PlaceAll(s, front, now);
    assert Sessions(t.done) == front;
    var known := Lookup(t.left, last);
    LookupFinds(t.left, last);
    var member := if known.Some? then known.value else Member(last, "", Profile(None, [], now, now));
    ClaimedCarries(t, Drop(t.left, last), member, x);
    if x != last {
      PlacedCarry(dict, front, now, x);
    }
  }

  lemma {:induction false} AppendedCarry(s: Sorting, orphans: seq<Member>, x: int)
    requires Distinct(Sessions(orphans)) && forall y :: y in Sessions(orphans) ==> y !in Sessions(s.done)
    ensures
      var done := AppendAll(s, orphans).done;
      && (x in Sessions(orphans) ==> Lookup(orphans, x).Some? && HasProfile(done, x, Lookup(orphans, x).value.profile))
      && (x !in Sessions(orphans) ==> Lookup(done, x) == Lookup(s.done, x))
    decreases |orphans|
  {
    if orphans != [] {
      hide Claim, Lookup;
      var front, last := orphans[..|orphans| - 1], orphans[|orphans| - 1];
      assert orphans == front + [last];
      SessionsConcat(front, [last]);
      DistinctParts(Sessions(front), [last.session]);
      assert last.session in [last.session];
      assert forall y :: y in Sessions(front) ==> y in Sessions(orphans);
      assert last.session in Sessions(orphans);
      AppendedCarry(s, front, x);
      AppendAllAddsSessions(s, front);
      var t := AppendAll(s, front);
      ClaimedCarries(t, t.left, last, x);
      LookupConcat(front, [last], x);
      LookupOne(last, x);
      LookupFinds(front, x);
    }
  }

  /**
   * Whatever has to be renamed, nothing else is lost: every member comes out with its role, tags and times, and
   * a leaf without a member gets an entry of its own, as old as itself.
   */
  lemma ReconcileOnlyRenames(ws: Workspace, now: int, x: int)
    requires Distinct(Placed(ws.layout)) && (x in Placed(ws.layout) || x in Sessions(ws.members))
    ensures HasProfile(Reconciled(ws, now).members, x, ProfileOf(BySession(ws.members), x, now))
  {
    hide PlaceAll, AppendAll, BySession, Lookup, Placed, ProfileOf;
    var dict, placed := BySession(ws.members), Placed(ws.layout);
    BySessionHolds(ws.members);
    PlaceAllAddsSessions(Sorting(dict, {}, []), placed, now);
    var t := PlaceAll(Sorting(dict, {}, []), placed, now);
    assert Sessions(t.done) == placed;
    forall y | y in Sessions(t.left) ensures y !in placed {
      LookupFinds(t.left, y);
    }
    AppendedCarry(t, t.left, x);
    if x in placed {
      PlacedCarry(dict, placed, now, x);
    } else {
      LookupFinds(dict, x);
      LookupFinds(t.left, x);
      assert Lookup(t.left, x) == Lookup(dict, x);
      KnownProfile(dict, x, now);
    }
  }

  lemma KnownProfile(dict: seq<Member>, x: int, now: int)
    requires Lookup(dict, x).Some?
    ensures ProfileOf(dict, x, now) == Lookup(dict, x).value.profile
  {
  }
}
