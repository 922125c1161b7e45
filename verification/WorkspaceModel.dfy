/**
 * Workspaces as values: members, layout, and the mutations of the store
 * (packages/server/src/workspace-store.ts:259-308, 396-519, 550-614).
 */
module WorkspaceModel {
  import opened Prelude
  import opened LayoutTree
  import opened LayoutPresets
  import opened MemberNames

  datatype Member = Member(session: int, name: string, profile: Profile)

  /** What a member carries besides its identity. */
  datatype Profile = Profile(role: Option<string>, tags: seq<string>, created: int, updated: int)

  datatype Workspace = Workspace(layout: Node, members: seq<Member>)

  /** Workspaces by id, in no particular order. */
  type Store = map<string, Workspace>

  /** The argument of an addition: what the caller says about a member. */
  datatype Request = Request(session: int, name: string, role: Option<string>, tags: Option<seq<string>>)

  function Sessions(members: seq<Member>): (r: seq<int>)
    ensures |r| == |members|
    ensures forall i :: 0 <= i < |members| ==> r[i] == members[i].session
  {
    if members == [] then [] else [members[0].session] + Sessions(members[1..])
  }

  function Names(members: seq<Member>): set<string> {
    set m | m in members :: m.name
  }

  /** Session ids of the layout from left to right, the placeholder left out. */
  function Placed(node: Node): seq<int>
    decreases node
  {
    match node
    case Pane(session) => if session > 0 then [session] else []
    case Split(_, children, _) => PlacedOf(children)
  }

  function PlacedOf(children: seq<Node>): seq<int>
    decreases children
  {
    if children == [] then [] else Placed(children[0]) + PlacedOf(children[1..])
  }

  // ---- A dictionary of members by session, in insertion order ------------------------------------

  function IndexBy(members: seq<Member>, session: int): (i: nat)
    ensures i <= |members|
    ensures i < |members| ==> members[i].session == session
    ensures forall j :: 0 <= j < i ==> members[j].session != session
  {
    if members == [] || members[0].session == session then 0 else 1 + IndexBy(members[1..], session)
  }

  function Lookup(members: seq<Member>, session: int): Option<Member> {
    var i := IndexBy(members, session);
    if i < |members| then Some(members[i]) else None
  }

  /** A later entry takes the place of an earlier one with the same key. */
  function Put(dict: seq<Member>, member: Member): seq<Member> {
    var i := IndexBy(dict, member.session);
    if i < |dict| then dict[i := member] else dict + [member]
  }

  function Drop(members: seq<Member>, session: int): seq<Member> {
    if members == [] then []
    else (if members[0].session == session then [] else [members[0]]) + Drop(members[1..], session)
  }

  function BySession(members: seq<Member>): seq<Member> {
    if members == [] then [] else Put(BySession(members[..|members| - 1]), members[|members| - 1])
  }

  // ---- Reconciling ------------------------------------------------------------------------------

  /** Work in progress: the members not yet met, the names taken, and the new list. */
  datatype Sorting = Sorting(left: seq<Member>, used: set<string>, done: seq<Member>)

  /** A preferred name is kept when it is there and free. */
  function ClaimName(preferred: string, used: set<string>, ordinal: nat): string {
    if preferred != "" && preferred !in used then preferred
    else Numbered(TERM, FirstFree(TERM, used, ordinal))
  }

  function Claim(s: Sorting, left: seq<Member>, member: Member): Sorting {
    var name := ClaimName(member.name, s.used, |s.done| + 1);
    Sorting(left, s.used + {name}, s.done + [member.(name := name)])
  }

  function PlaceOne(s: Sorting, session: int, now: int): Sorting {
    var known := Lookup(s.left, session);
    var member := if known.Some? then known.value
                  else Member(session, "", Profile(None, [], now, now));
    Claim(s, Drop(s.left, session), member)
  }

  function PlaceAll(s: Sorting, placed: seq<int>, now: int): Sorting {
    if placed == [] then s
    else PlaceOne(PlaceAll(s, placed[..|placed| - 1], now), placed[|placed| - 1], now)
  }

  /** Members the layout does not show come last, in their old order. */
  function AppendAll(s: Sorting, orphans: seq<Member>): Sorting {
    if orphans == [] then s
    else
      var t := AppendAll(s, orphans[..|orphans| - 1]);
      Claim(t, t.left, orphans[|orphans| - 1])
  }

  function Sorted(members: seq<Member>, placed: seq<int>, now: int): seq<Member> {
    var s := PlaceAll(Sorting(BySession(members), {}, []), placed, now);
    AppendAll(s, s.left).done
  }

  function Reconciled(ws: Workspace, now: int): Workspace {
    ws.(members := Sorted(ws.members, Placed(ws.layout), now))
  }

  // ---- The mutations ----------------------------------------------------------------------------

  datatype Outcome = Done | Missing | NameTaken | HeldElsewhere(id: string)

  predicate Holds(ws: Workspace, session: int) {
    session in Sessions(ws.members)
  }

  /** Another workspace has the session. */
  predicate HeldBy(store: Store, other: string, id: string, session: int) {
    other in store && other != id && Holds(store[other], session)
  }

  predicate NameClash(ws: Workspace, name: string, session: int) {
    exists i :: 0 <= i < |ws.members| && ws.members[i].name == name && ws.members[i].session != session
  }

  function Listed(request: Request): seq<string> {
    if request.tags.Some? then request.tags.value else []
  }

  function NewMember(request: Request, now: int): Member {
    Member(request.session, request.name, Profile(request.role, Listed(request), now, now))
  }

  function Updated(member: Member, request: Request, now: int): Member {
    var tags := if request.tags.Some? then request.tags.value else member.profile.tags;
    Member(member.session, request.name, Profile(request.role, tags, member.profile.created, now))
  }

  /** The first entry of the session is updated, or a new one is pushed. */
  function Enrolled(members: seq<Member>, request: Request, now: int): seq<Member> {
    var i := IndexBy(members, request.session);
    if i < |members| then members[i := Updated(members[i], request, now)]
    else members + [NewMember(request, now)]
  }

  function WithMember(ws: Workspace, request: Request, now: int): Workspace {
    Reconciled(Workspace(InsertPane(ws.layout, request.session, Row), Enrolled(ws.members, request, now)), now)
  }

  datatype Direction = ToRight | ToLeft | ToDown | ToUp

  function PlacementOf(target: int, session: int, direction: Direction): Placement {
    Placement(target, session, if direction == ToDown || direction == ToUp then Col else Row, 0.5,
              direction == ToLeft || direction == ToUp)
  }

  function SplitLayout(root: Node, target: Option<int>, session: int, direction: Direction): Node {
    if target.None? then InsertPane(root, session, Row)
    else SplitPane(root, PlacementOf(target.value, session, direction))
  }

  function WithSplit(ws: Workspace, target: Option<int>, request: Request, direction: Direction, now: int): Workspace {
    Reconciled(Workspace(SplitLayout(ws.layout, target, request.session, direction),
                         ws.members + [NewMember(request, now)]), now)
  }

  function WithoutMember(ws: Workspace, session: int, now: int): Workspace {
    Reconciled(Workspace(RemovePane(ws.layout, session), Drop(ws.members, session)), now)
  }

  /** A preset puts the old members into a fresh tree and wins over a layout; new members come in whole. */
  datatype Patch = Patch(layout: Option<Node>, preset: Option<Preset>, members: Option<seq<Member>>)

  function Patched(ws: Workspace, patch: Patch): Workspace {
    var layout := if patch.preset.Some? then PresetLayout(patch.preset.value, Sessions(ws.members))
                  else if patch.layout.Some? then patch.layout.value else ws.layout;
    Workspace(layout, if patch.members.Some? then patch.members.value else ws.members)
  }

  function WithPatch(ws: Workspace, patch: Patch, now: int): Workspace {
    Reconciled(Patched(ws, patch), now)
  }

  function Named(member: Member, name: string, now: int): Member {
    member.(name := name, profile := member.profile.(updated := now))
  }

  function WithName(ws: Workspace, session: int, name: string, now: int): Workspace {
    var i := IndexBy(ws.members, session);
    if i < |ws.members| then Reconciled(ws.(members := ws.members[i := Named(ws.members[i], name, now)]), now) else ws
  }
}
