/** The store itself (packages/server/src/workspace-store.ts:90-91, 259-308, 396-528, 550-614), and what its mutations leave. */
module WorkspaceStore {
  import opened Prelude
  import opened LayoutTree
  import opened LayoutPresets
  import opened MemberNames
  import opened WorkspaceModel
  import opened WorkspaceProofs

  ghost predicate AllInStep(store: Store) {
    forall id :: id in store ==> InStep(store[id])
  }

  ghost predicate AllCovered(store: Store) {
    forall id :: id in store ==> Covered(store[id])
  }

  /** Each session belongs to at most one workspace. */
  ghost predicate Exclusive(store: Store) {
    forall a, b, x :: a in store && b in store && Holds(store[a], x) && Holds(store[b], x) ==> a == b
  }

  ghost predicate Elsewhere(store: Store, id: string, session: int) {
    exists other :: HeldBy(store, other, id, session)
  }

  /** The four ways an addition ends, each with what it leaves behind. */
  ghost predicate Adds(before: Store, after: Store, id: string, request: Request, now: int, outcome: Outcome) {
    match outcome
    case Missing => id !in before && after == before
    case HeldElsewhere(other) => id in before && HeldBy(before, other, id, request.session) && after == before
    case NameTaken =>
      && id in before && !Elsewhere(before, id, request.session)
      && NameClash(before[id], request.name, request.session) && after == before
    case Done =>
      && id in before && !Elsewhere(before, id, request.session)
      && !NameClash(before[id], request.name, request.session)
      && after == before[id := WithMember(before[id], request, now)]
  }

  datatype MoveOutcome = NoSource | NotAMember | NoTarget | Stayed | Detached | Moved | Thrown(reason: Outcome)

  /** What the destination is asked to add: the member under a name that is free there. */
  function Arriving(member: Member, target: Workspace): Request {
    Request(member.session, ArrivalName(member.name, Names(target.members)), member.profile.role,
            Some(member.profile.tags))
  }

  function Removed(store: Store, id: string, session: int, now: int): Store
    requires id in store
  {
    store[id := WithoutMember(store[id], session, now)]
  }

  ghost predicate Moves(before: Store, after: Store, from: string, session: int, to: Option<string>, now: int,
                        outcome: MoveOutcome)
  {
    var member := if from in before then Lookup(before[from].members, session) else None;
    match outcome
    case NoSource => from !in before && after == before
    case NotAMember => from in before && member.None? && after == before
    case NoTarget => member.Some? && to.Some? && to.value !in before && after == before
    case Stayed => member.Some? && to == Some(from) && after == before
    case Detached => member.Some? && to.None? && after == Removed(before, from, session, now)
    case Moved => Carries(before, after, from, session, to, now, Done)
    case Thrown(reason) => reason != Done && Carries(before, after, from, session, to, now, reason)
  }

  /** The removal followed by the addition. */
  ghost predicate Carries(before: Store, after: Store, from: string, session: int, to: Option<string>, now: int,
                          reason: Outcome)
  {
    && from in before && Lookup(before[from].members, session).Some?
    && to.Some? && to.value in before && to.value != from
    && Adds(Removed(before, from, session, now), after, to.value,
            Arriving(Lookup(before[from].members, session).value, before[to.value]), now, reason)
  }

  /** A rename: a missing member is noticed only after the name has been looked up. */
  function Renaming(store: Store, id: string, session: int, name: string): Outcome {
    if id !in store then Missing
    else if NameClash(store[id], name, session) then NameTaken
    else if !Holds(store[id], session) then Missing
    else Done
  }

  class WorkspaceStore {
    var workspaces: Store

    constructor ()
      ensures workspaces == map[]
    {
      workspaces := map[];
    }

    /** The name a member claims, and the set of names with it. */
    method ClaimFor(preferred: string, used: set<string>, ordinal: nat) returns (name: string)
      ensures name == ClaimName(preferred, used, ordinal)
    {
      name := preferred;
      if preferred == "" || preferred in used {
        name := NextMemberName(used, ordinal);
      }
    }

    method Index(members: seq<Member>) returns (dict: seq<Member>)
      ensures dict == BySession(members)
    {
      dict := [];
      for i := 0 to |members|
        invariant dict == BySession(members[..i])
      {
        assert members[..i + 1][..i] == members[..i];
        dict := Put(dict, members[i]);
      }
      assert members[..|members|] == members;
    }

    /** First the leaves in order, each taking its member out of the dictionary; then whoever is left. */
    method Reconcile(ws: Workspace, now: int) returns (r: Workspace)
      ensures r == Reconciled(ws, now)
    {
      var placed := Placed(ws.layout);
      var left := Index(ws.members);
      var used, done := {}, [];
      ghost var start := Sorting(left, {}, []);
      for i := 0 to |placed|
        invariant Sorting(left, used, done) == PlaceAll(start, placed[..i], now)
      {
        assert placed[..i + 1][..i] == placed[..i];
        var known := Lookup(left, placed[i]);
        var member := if known.Some? then known.value else Member(placed[i], "", Profile(None, [], now, now));
        var name := ClaimFor(member.name, used, |done| + 1);
        left, used, done := Drop(left, placed[i]), used + {name}, done + [member.(name := name)];
      }
      assert placed[..|placed|] == placed;
      done := Append(Sorting(left, used, done));
      r := ws.(members := done);
    }

    method Append(s: Sorting) returns (done: seq<Member>)
      ensures done == AppendAll(s, s.left).done
    {
      var used;
      used, done := s.used, s.done;
      for i := 0 to |s.left|
        invariant Sorting(s.left, used, done) == AppendAll(s, s.left[..i])
      {
        assert s.left[..i + 1][..i] == s.left[..i];
        var name := ClaimFor(s.left[i].name, used, |done| + 1);
        used, done := used + {name}, done + [s.left[i].(name := name)];
      }
      assert s.left[..|s.left|] == s.left;
    }

    method FindHolder(id: string, session: int) returns (holder: Option<string>)
      ensures holder.None? ==> !Elsewhere(workspaces, id, session)
      ensures holder.Some? ==> HeldBy(workspaces, holder.value, id, session)
    {
      var rest := workspaces.Keys;
      while rest != {}
        invariant rest <= workspaces.Keys
        invariant forall other :: other in workspaces && other !in rest ==> !HeldBy(workspaces, other, id, session)
        decreases |rest|
      {
        var other :| other in rest;
        if other != id && session in Sessions(workspaces[other].members) {
          return Some(other);
        }
        rest := rest - {other};
      }
      holder := None;
    }

    method Clashes(ws: Workspace, name: string, session: int) returns (clash: bool)
      ensures clash <==> NameClash(ws, name, session)
    {
      for i := 0 to |ws.members|
        invariant forall j :: 0 <= j < i ==> ws.members[j].name != name || ws.members[j].session == session
      {
        if ws.members[i].name == name && ws.members[i].session != session {
          return true;
        }
      }
      clash := false;
    }

    /** An id that is already there is taken over. */
    method Create(id: string, layout: Node, members: seq<Member>, now: int)
      modifies this
      ensures workspaces == old(workspaces)[id := Reconciled(Workspace(layout, members), now)]
    {
      var settled := Reconcile(Workspace(layout, members), now);
      workspaces := workspaces[id := settled];
    }

    method Update(id: string, patch: Patch, now: int) returns (outcome: Outcome)
      modifies this
      ensures outcome == if id in old(workspaces) then Done else Missing
      ensures workspaces == if id in old(workspaces)
        then old(workspaces)[id := WithPatch(old(workspaces)[id], patch, now)]
        else old(workspaces)
    {
      if id !in workspaces {
        return Missing;
      }
      var ws := workspaces[id];
      if patch.layout.Some? {
        ws := ws.(layout := patch.layout.value);
      }
      if patch.preset.Some? {
        ws := ws.(layout := PresetLayout(patch.preset.value, Sessions(ws.members)));
      }
      if patch.members.Some? {
        ws := ws.(members := patch.members.value);
      }
      var settled := Reconcile(ws, now);
      workspaces := workspaces[id := settled];
      outcome := Done;
    }

    method RenameMember(id: string, session: int, name: string, now: int) returns (outcome: Outcome)
      modifies this
      ensures outcome == Renaming(old(workspaces), id, session, name)
      ensures workspaces == if outcome == Done
        then old(workspaces)[id := WithName(old(workspaces)[id], session, name, now)]
        else old(workspaces)
    {
      if id !in workspaces {
        return Missing;
      }
      var ws := workspaces[id];
      var clash := Clashes(ws, name, session);
      if clash {
        return NameTaken;
      }
      LookupFinds(ws.members, session);
      var i := IndexBy(ws.members, session);
      if i == |ws.members| {
        return Missing;
      }
      var settled := Reconcile(ws.(members := ws.members[i := Named(ws.members[i], name, now)]), now);
      workspaces := workspaces[id := settled];
      outcome := Done;
    }

    method Delete(id: string) returns (deleted: bool)
      modifies this
      ensures deleted == (id in old(workspaces))
      ensures workspaces == old(workspaces) - {id}
    {
      deleted := id in workspaces;
      workspaces := workspaces - {id};
    }

    method AddMember(id: string, request: Request, now: int) returns (outcome: Outcome)
      modifies this
      ensures Adds(old(workspaces), workspaces, id, request, now, outcome)
    {
      if id !in workspaces {
        return Missing;
      }
      var ws := workspaces[id];
      var holder := FindHolder(id, request.session);
      if holder.Some? {
        return HeldElsewhere(holder.value);
      }
      var clash := Clashes(ws, request.name, request.session);
      if clash {
        return NameTaken;
      }
      var i := IndexBy(ws.members, request.session);
      var members := ws.members;
      if i < |members| {
        members := members[i := Updated(members[i], request, now)];
      } else {
        members := members + [NewMember(request, now)];
      }
      var settled := Reconcile(Workspace(InsertPane(ws.layout, request.session, Row), members), now);
      workspaces := workspaces[id := settled];
      outcome := Done;
    }

    method SplitRight(id: string, target: Option<int>, request: Request, direction: Direction, now: int)
      returns (outcome: Outcome)
      modifies this
      ensures outcome == if id !in old(workspaces) then Missing
                         else if NameClash(old(workspaces)[id], request.name, request.session) then NameTaken
                         else Done
      ensures workspaces == if outcome == Done
        then old(workspaces)[id := WithSplit(old(workspaces)[id], target, request, direction, now)]
        else old(workspaces)
    {
      if id !in workspaces {
        return Missing;
      }
      var ws := workspaces[id];
      var clash := Clashes(ws, request.name, request.session);
      if clash {
        return NameTaken;
      }
      var settled := Reconcile(Workspace(SplitLayout(ws.layout, target, request.session, direction),
                                         ws.members + [NewMember(request, now)]), now);
      workspaces := workspaces[id := settled];
      outcome := Done;
    }

    method RemoveMember(id: string, session: int, now: int) returns (outcome: Outcome)
      modifies this
      ensures outcome == if id in old(workspaces) then Done else Missing
      ensures workspaces == if id in old(workspaces) then Removed(old(workspaces), id, session, now)
                            else old(workspaces)
    {
      if id !in workspaces {
        return Missing;
      }
      var ws := workspaces[id];
      var settled := Reconcile(Workspace(RemovePane(ws.layout, session), Drop(ws.members, session)), now);
      workspaces := workspaces[id := settled];
      outcome := Done;
    }

    /** `to` is the trimmed destination, absent when that is empty. */
    method MoveMember(from: string, session: int, to: Option<string>, now: int) returns (outcome: MoveOutcome)
      modifies this
      ensures Moves(old(workspaces), workspaces, from, session, to, now, outcome)
    {
      hide WithMember, WithoutMember, Adds;
      if from !in workspaces {
        return NoSource;
      }
      var member := Lookup(workspaces[from].members, session);
      if member.None? {
        return NotAMember;
      }
      if to.Some? && to.value !in workspaces {
        return NoTarget;
      }
      if to == Some(from) {
        return Stayed;
      }
      var removed := RemoveMember(from, session, now);
      if to.None? {
        return Detached;
      }
      var target := workspaces[to.value];
      var name := NameOnArrival(member.value.name, Names(target.members));
      LookupFinds(old(workspaces)[from].members, session);
      var added := AddMember(to.value,
        Request(session, name, member.value.profile.role, Some(member.value.profile.tags)), now);
      outcome := if added == Done then Moved else Thrown(added);
    }
  }
}
