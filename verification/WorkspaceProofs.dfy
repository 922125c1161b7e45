/** What reconciling a workspace keeps (packages/server/src/workspace-store.ts:539-609). */
module WorkspaceProofs {
  import opened Prelude
  import opened LayoutTree
  import opened LayoutShape
  import opened MemberNames
  import opened WorkspaceModel

  // ---- Lookups ----------------------------------------------------------------------------------

  lemma {:induction false} LookupFinds(members: seq<Member>, x: int)
    ensures Lookup(members, x).Some? <==> x in Sessions(members)
    ensures Lookup(members, x).Some? ==> Lookup(members, x).value in members
    ensures Lookup(members, x).Some? ==> Lookup(members, x).value.session == x
  {
    var i := IndexBy(members, x);
    if i < |members| {
      assert Sessions(members)[i] == x;
    }
  }

  lemma {:induction false} LookupConcat(a: seq<Member>, b: seq<Member>, x: int)
    ensures Lookup(a + b, x) == if Lookup(a, x).Some? then Lookup(a, x) else Lookup(b, x)
  {
    if a == [] {
      assert a + b == b;
    } else {
      assert (a + b)[1..] == a[1..] + b;
      LookupConcat(a[1..], b, x);
    }
  }

  lemma {:induction false} LookupAt(members: seq<Member>, i: nat)
    requires i < |members| && Distinct(Sessions(members))
    ensures Lookup(members, members[i].session) == Some(members[i])
  {
    var j := IndexBy(members, members[i].session);
    assert Sessions(members)[j] == Sessions(members)[i];
  }

  lemma {:induction false} DropLooks(members: seq<Member>, session: int, x: int)
    ensures Lookup(Drop(members, session), x) == if x == session then None else Lookup(members, x)
  {
    if members != [] {
      DropLooks(members[1..], session, x);
      var head := if members[0].session == session then [] else [members[0]];
      LookupConcat(head, Drop(members[1..], session), x);
      LookupConcat([members[0]], members[1..], x);
      assert members == [members[0]] + members[1..];
      LookupOne(members[0], x);
    }
  }

  lemma LookupOne(member: Member, x: int)
    ensures Lookup([member], x) == if x == member.session then Some(member) else None
    ensures Lookup([], x) == None
  {
  }

  lemma {:induction false} SessionsConcat(a: seq<Member>, b: seq<Member>)
    ensures Sessions(a + b) == Sessions(a) + Sessions(b)
  {
    if a == [] {
      assert a + b == b;
    } else {
      assert (a + b)[1..] == a[1..] + b;
      SessionsConcat(a[1..], b);
    }
  }

  lemma {:induction false} SessionsOfDrop(members: seq<Member>, session: int)
    ensures Sessions(Drop(members, session)) == Without(Sessions(members), session)
  {
    if members != [] {
      SessionsOfDrop(members[1..], session);
      var head := if members[0].session == session then [] else [members[0]];
      SessionsConcat(head, Drop(members[1..], session));
    }
  }

  lemma PutLooks(dict: seq<Member>, member: Member, x: int)
    requires Distinct(Sessions(dict))
    ensures Lookup(Put(dict, member), x) == if x == member.session then Some(member) else Lookup(dict, x)
    ensures Distinct(Sessions(Put(dict, member)))
  {
    var i := IndexBy(dict, member.session);
    var put := Put(dict, member);
    if i < |dict| {
      assert Sessions(put) == Sessions(dict);
      LookupAt(put, i);
      if x != member.session {
        LookupUpdated(dict, i, member, x);
      }
    } else {
      SessionsConcat(dict, [member]);
      LookupFinds(dict, member.session);
      DistinctJoin(Sessions(dict), [member.session]);
      LookupConcat(dict, [member], x);
      LookupOne(member, x);
    }
  }

  lemma LookupUpdated(dict: seq<Member>, i: nat, member: Member, x: int)
    requires i < |dict| && dict[i].session == member.session != x
    ensures Lookup(dict[i := member], x) == Lookup(dict, x)
  {
    var put := dict[i := member];
    var j, k := IndexBy(dict, x), IndexBy(put, x);
    assert j < |dict| ==> put[j].session == x;
    assert k < |put| ==> dict[k].session == x;
  }

  /** The dictionary has every session once, with its last entry. */
  lemma {:induction false} BySessionHolds(members: seq<Member>)
    ensures Distinct(Sessions(BySession(members)))
    ensures forall x :: x in Sessions(BySession(members)) <==> x in Sessions(members)
  {
    if members != [] {
      hide Put, Lookup, Distinct;
      var front, last := members[..|members| - 1], members[|members| - 1];
      BySessionHolds(front);
      SessionsConcat(front, [last]);
      assert members == front + [last];
      forall x ensures x in Sessions(BySession(members)) <==> x in Sessions(members) {
        PutLooks(BySession(front), last, x);
        LookupFinds(BySession(members), x);
        LookupFinds(BySession(front), x);
      }
      PutLooks(BySession(front), last, last.session);
    }
  }

  lemma {:induction false} BySessionIsIdentity(members: seq<Member>)
    requires Distinct(Sessions(members))
    ensures BySession(members) == members
  {
    if members != [] {
      var front, last := members[..|members| - 1], members[|members| - 1];
      SessionsConcat(front, [last]);
      assert members == front + [last];
      DistinctParts(Sessions(front), [last.session]);
      BySessionIsIdentity(front);
      LookupFinds(front, last.session);
    }
  }

  // ---- Names ------------------------------------------------------------------------------------

  predicate GoodNames(members: seq<Member>) {
    && (forall i :: 0 <= i < |members| ==> members[i].name != "")
    && (forall i, j :: 0 <= i < j < |members| ==> members[i].name != members[j].name)
  }

  predicate NamesKnown(s: Sorting) {
    && GoodNames(s.done)
    && s.used == Names(s.done)
  }

  lemma NamesSnoc(members: seq<Member>, member: Member)
    ensures Names(members + [member]) == Names(members) + {member.name}
  {
    forall x | x in Names(members + [member]) ensures x in Names(members) + {member.name} {
    }
    forall x | x in Names(members) + {member.name} ensures x in Names(members + [member]) {
      if x == member.name {
        assert (members + [member])[|members|] == member;
      } else {
        var m :| m in members && m.name == x;
        assert m in members + [member];
      }
    }
  }

  lemma NumberedIsNotEmpty(prefix: string, n: nat)
    ensures Numbered(prefix, n) != ""
  {
  }

  lemma ClaimKeepsNames(s: Sorting, left: seq<Member>, member: Member)
    requires NamesKnown(s)
    ensures NamesKnown(Claim(s, left, member))
  {
    FirstFreeIsFree(TERM, s.used, |s.done| + 1);
    NumberedIsNotEmpty(TERM, FirstFree(TERM, s.used, |s.done| + 1));
    var name := ClaimName(member.name, s.used, |s.done| + 1);
    NamesSnoc(s.done, member.(name := name));
    forall i | 0 <= i < |s.done| ensures s.done[i].name != name {
      assert s.done[i].name in Names(s.done);
    }
  }

  lemma {:induction false} PlaceAllKeepsNames(s: Sorting, placed: seq<int>, now: int)
    requires NamesKnown(s)
    ensures NamesKnown(PlaceAll(s, placed, now))
  {
    if placed != [] {
      PlaceAllKeepsNames(s, placed[..|placed| - 1], now);
      var t := PlaceAll(s, placed[..|placed| - 1], now);
      var session := placed[|placed| - 1];
      var known := Lookup(t.left, session);
      ClaimKeepsNames(t, Drop(t.left, session),
        if known.Some? then known.value else Member(session, "", Profile(None, [], now, now)));
    }
  }

  lemma {:induction false} AppendAllKeepsNames(s: Sorting, orphans: seq<Member>)
    requires NamesKnown(s)
    ensures NamesKnown(AppendAll(s, orphans))
  {
    if orphans != [] {
      AppendAllKeepsNames(s, orphans[..|orphans| - 1]);
      var t := AppendAll(s, orphans[..|orphans| - 1]);
      ClaimKeepsNames(t, t.left, orphans[|orphans| - 1]);
    }
  }

  /** Whatever the file or a caller brings in, every member comes out with a name of its own. */
  lemma ReconcileNamesEveryone(ws: Workspace, now: int)
    ensures GoodNames(Reconciled(ws, now).members)
  {
    hide PlaceAll, AppendAll;
    var s := Sorting(BySession(ws.members), {}, []);
    PlaceAllKeepsNames(s, Placed(ws.layout), now);
    var t := PlaceAll(s, Placed(ws.layout), now);
    AppendAllKeepsNames(t, t.left);
  }

  // ---- Sessions ---------------------------------------------------------------------------------

  lemma ClaimAddsSession(s: Sorting, left: seq<Member>, member: Member)
    ensures Sessions(Claim(s, left, member).done) == Sessions(s.done) + [member.session]
    ensures Claim(s, left, member).left == left
  {
    SessionsConcat(s.done, [member.(name := ClaimName(member.name, s.used, |s.done| + 1))]);
  }

  lemma PlaceOneAddsSession(s: Sorting, session: int, now: int)
    ensures Sessions(PlaceOne(s, session, now).done) == Sessions(s.done) + [session]
    ensures PlaceOne(s, session, now).left == Drop(s.left, session)
  {
    hide Claim;
    var known := Lookup(s.left, session);
    ClaimAddsSession(s, Drop(s.left, session),
      if known.Some? then known.value else Member(session, "", Profile(None, [], now, now)));
  }

  lemma {:induction false} PlaceAllAddsSessions(s: Sorting, placed: seq<int>, now: int)
    ensures Sessions(PlaceAll(s, placed, now).done) == Sessions(s.done) + placed
    ensures forall x :: Lookup(PlaceAll(s, placed, now).left, x) == if x in placed then None else Lookup(s.left, x)
    ensures Distinct(Sessions(s.left)) ==> Distinct(Sessions(PlaceAll(s, placed, now).left))
  {
    if placed != [] {
      var front, last := placed[..|placed| - 1], placed[|placed| - 1];
      assert placed == front + [last];
      PlaceAllAddsSessions(s, front, now);
      var t := PlaceAll(s, front, now);
      PlaceOneAddsSession(t, last, now);
      Associate(Sessions(s.done), front, [last]);
      forall x ensures Lookup(Drop(t.left, last), x) == if x in placed then None else Lookup(s.left, x) {
        DropLooks(t.left, last, x);
      }
      SessionsOfDrop(t.left, last);
      if Distinct(Sessions(t.left)) {
        WithoutKeepsDistinct(Sessions(t.left), last);
      }
    }
  }

  lemma {:induction false} AppendAllAddsSessions(s: Sorting, orphans: seq<Member>)
    ensures Sessions(AppendAll(s, orphans).done) == Sessions(s.done) + Sessions(orphans)
  {
    if orphans != [] {
      var front, last := orphans[..|orphans| - 1], orphans[|orphans| - 1];
      assert orphans == front + [last];
      AppendAllAddsSessions(s, front);
      var t := AppendAll(s, front);
      ClaimAddsSession(t, t.left, last);
      SessionsConcat(front, [last]);
      Associate(Sessions(s.done), Sessions(front), [last.session]);
    }
  }

  /** The sessions of the members that the layout does not show. */
  function Orphans(ws: Workspace, now: int): seq<int> {
    Sessions(PlaceAll(Sorting(BySession(ws.members), {}, []), Placed(ws.layout), now).left)
  }

  lemma OrphansAreUnplaced(ws: Workspace, now: int)
    ensures Distinct(Orphans(ws, now))
    ensures forall x :: x in Orphans(ws, now) <==> x in Sessions(ws.members) && x !in Placed(ws.layout)
  {
    hide PlaceAll, BySession, Lookup, Placed;
    var s := Sorting(BySession(ws.members), {}, []);
    BySessionHolds(ws.members);
    PlaceAllAddsSessions(s, Placed(ws.layout), now);
    var t := PlaceAll(s, Placed(ws.layout), now);
    forall x ensures x in Sessions(t.left) <==> x in Sessions(ws.members) && x !in Placed(ws.layout) {
      LookupFinds(t.left, x);
      LookupFinds(s.left, x);
    }
  }

  /** The members after reconciling: the leaves in layout order, then those the layout does not show. */
  lemma SessionsAfterReconcile(ws: Workspace, now: int)
    ensures Sessions(Reconciled(ws, now).members) == Placed(ws.layout) + Orphans(ws, now)
  {
    hide PlaceAll, AppendAll, BySession, Lookup, Placed;
    var s := Sorting(BySession(ws.members), {}, []);
    PlaceAllAddsSessions(s, Placed(ws.layout), now);
    var t := PlaceAll(s, Placed(ws.layout), now);
    AppendAllAddsSessions(t, t.left);
    assert [] + Placed(ws.layout) == Placed(ws.layout);
  }

  /** Nobody is lost, every leaf is a member, and sessions repeat only where the layout itself repeats. */
  lemma ReconcileLosesNobody(ws: Workspace, now: int)
    ensures
      var after := Sessions(Reconciled(ws, now).members);
      && (forall x :: x in after <==> x in Placed(ws.layout) || x in Sessions(ws.members))
      && (Distinct(after) <==> Distinct(Placed(ws.layout)))
  {
    hide Reconciled, Orphans;
    OrphansAreUnplaced(ws, now);
    SessionsAfterReconcile(ws, now);
    if Distinct(Placed(ws.layout)) {
      DistinctJoin(Placed(ws.layout), Orphans(ws, now));
    } else if Distinct(Sessions(Reconciled(ws, now).members)) {
      DistinctParts(Placed(ws.layout), Orphans(ws, now));
    }
  }

  // ---- A workspace whose members and layout agree -------------------------------------------------

  lemma SameNameSameMember(dict: seq<Member>, a: Member, b: Member)
    requires GoodNames(dict) && a in dict && b in dict && a.name == b.name
    ensures a == b
  {
  }

  lemma ClaimKeepsGoodName(s: Sorting, left: seq<Member>, member: Member)
    requires member.name != "" && member.name !in s.used
    ensures Claim(s, left, member) == Sorting(left, s.used + {member.name}, s.done + [member])
  {
  }

  lemma NamedMember(dict: seq<Member>, member: Member)
    requires GoodNames(dict) && member in dict
    ensures member.name != ""
  {
  }

  /** Members and layout agree: the same sessions, in the layout's order, each once, all well named. */
  ghost predicate InStep(ws: Workspace) {
    && WellFormed(ws.layout)
    && Distinct(Panes(ws.layout))
    && Sessions(ws.members) == Placed(ws.layout)
    && GoodNames(ws.members)
  }

  lemma {:induction false} PlacedIsPanes(node: Node)
    requires WellFormed(node)
    ensures Placed(node) == Without(Panes(node), 0)
    decreases node
  {
    match node
    case Pane(session) => assert [session][1..] == [];
    case Split(_, children, _) => PlacedOfIsPanesOf(children);
  }

  lemma {:induction false} PlacedOfIsPanesOf(children: seq<Node>)
    requires AllWellFormed(children)
    ensures PlacedOf(children) == Without(PanesOf(children), 0)
    decreases children
  {
    if children != [] {
      PlacedIsPanes(children[0]);
      PlacedOfIsPanesOf(children[1..]);
      WithoutConcat(Panes(children[0]), PanesOf(children[1..]), 0);
    }
  }

  /** Who is placed, read off the panes. */
  lemma PlacedSessions(node: Node)
    requires WellFormed(node) && Distinct(Panes(node))
    ensures Distinct(Placed(node))
    ensures forall x :: x in Placed(node) <==> x in Panes(node) && x != 0
    ensures forall x :: x in Placed(node) <==> Has(node, x) && x != 0
  {
    PlacedIsPanes(node);
    WithoutKeepsDistinct(Panes(node), 0);
    forall x ensures x in Placed(node) <==> x in Panes(node) && x != 0 {
      WithoutElements(Panes(node), 0, x);
    }
    forall x ensures x in Panes(node) <==> Has(node, x) {
      HasIsListed(node, x);
    }
  }

  /** A tree of the right form that shows nobody twice. */
  ghost predicate GoodTree(node: Node) {
    WellFormed(node) && Distinct(Panes(node))
  }

  /**
   * Everyone the layout shows is a member, each once and under a name of its own. Members that the layout does
   * not show may stand beside them.
   */
  ghost predicate Covered(ws: Workspace) {
    && GoodTree(ws.layout)
    && Distinct(Sessions(ws.members)) && GoodNames(ws.members)
    && forall x :: x in Placed(ws.layout) ==> x in Sessions(ws.members)
  }

  /** Reconciling mends whatever members it is given: only the layout decides. */
  lemma ReconciledIsCoveredIff(ws: Workspace, now: int)
    ensures Covered(Reconciled(ws, now)) <==> GoodTree(ws.layout)
  {
    hide WellFormed;
    assert Reconciled(ws, now).layout == ws.layout;
    ReconcileNamesEveryone(ws, now);
    ReconcileLosesNobody(ws, now);
    if GoodTree(ws.layout) {
      PlacedSessions(ws.layout);
    }
  }

  lemma InStepIsCovered(ws: Workspace)
    requires InStep(ws)
    ensures Covered(ws)
  {
    PlacedSessions(ws.layout);
  }

  lemma FirstIsIn(s: seq<int>)
    ensures |s| > 0 ==> s[0] in s
  {
  }

  /** Reconciling brings the workspace in step exactly when the layout shows every member. */
  lemma ReconcileBringsInStepIff(ws: Workspace, now: int)
    requires GoodTree(ws.layout)
    ensures InStep(Reconciled(ws, now)) <==> forall x :: x in Sessions(ws.members) ==> x in Placed(ws.layout)
  {
    hide WellFormed, Sorted;
    OrphansAreUnplaced(ws, now);
    SessionsAfterReconcile(ws, now);
    ReconcileLosesNobody(ws, now);
    ReconcileNamesEveryone(ws, now);
    if forall x :: x in Sessions(ws.members) ==> x in Placed(ws.layout) {
      FirstIsIn(Orphans(ws, now));
      assert |Orphans(ws, now)| == 0;
    }
  }

  lemma AppendNobody(s: Sorting)
    ensures AppendAll(s, []) == s
  {
  }

  lemma FirstTermNames()
    ensures Numbered(TERM, 1) == "term-1" && Numbered(TERM, 2) == "term-2"
  {
  }

  lemma NewLeafClaims(m: Member, now: int)
    requires m.session == 2 && m.name == "term-1"
    ensures var one := PlaceOne(Sorting([m], {}, []), 1, now);
      one.left == [m] && one.used == {"term-1"} && |one.done| == 1 && one.done[0].name == "term-1"
  {
    FirstTermNames();
    assert Drop([m], 1) == [m] && Lookup([m], 1) == None;
  }

  lemma OldLeafGivesWay(m: Member, one: Sorting, now: int)
    requires m.session == 2 && m.name == "term-1"
    requires one.left == [m] && one.used == {"term-1"} && |one.done| == 1
    ensures var two := PlaceOne(one, 2, now); two.left == [] && two.done == one.done + [m.(name := "term-2")]
  {
    FirstTermNames();
    assert Drop([m], 2) == [] && Lookup([m], 2) == Some(m);
  }

  /**
   * The condition is needed: a leaf that nobody had enrolled is named first, and may take the name of a
   * member that comes later in the layout.
   */
  lemma NewLeafTakesAName(profile: Profile, now: int)
    ensures
      var after := Sorted([Member(2, "term-1", profile)], [1, 2], now);
      |after| == 2 && after[0].name == "term-1" && after[1] == Member(2, "term-2", profile)
  {
    hide PlaceOne;
    var m := Member(2, "term-1", profile);
    var s := Sorting([m], {}, []);
    assert BySession([m]) == [m];
    var one := PlaceOne(s, 1, now);
    NewLeafClaims(m, now);
    assert PlaceAll(s, [1], now) == one by { assert [1][..0] == []; }
    var two := PlaceOne(one, 2, now);
    OldLeafGivesWay(m, one, now);
    assert PlaceAll(s, [1, 2], now) == two by { assert [1, 2][..1] == [1]; }
    AppendNobody(two);
  }
}
