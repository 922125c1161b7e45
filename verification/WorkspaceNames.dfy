/**
 * Which layouts rename a member (packages/server/src/workspace-store.ts:550-609). A leaf that no member stands
 * for is given the next free name when it is met; that renames somebody exactly when the name belongs to a
 * member who is met later.
 */
module WorkspaceNames {
  import opened Prelude
  import opened LayoutTree
  import opened LayoutShape
  import opened MemberNames
  import opened WorkspaceModel
  import opened WorkspaceProofs

  /** The names in use after some leaves: a member's own, and for a new leaf the first free one. */
  function NamesUpTo(dict: seq<Member>, placed: seq<int>): set<string> {
    if placed == [] then {}
    else
      var before := NamesUpTo(dict, placed[..|placed| - 1]);
      var known := Lookup(dict, placed[|placed| - 1]);
      before + {if known.Some? then known.value.name else Numbered(TERM, FirstFree(TERM, before, |placed|))}
  }

  /** What a new leaf behind `front` is called. */
  function FreshName(dict: seq<Member>, front: seq<int>): string {
    Numbered(TERM, FirstFree(TERM, NamesUpTo(dict, front), |front| + 1))
  }

  /** A member who is not met in `front` has the name. */
  predicate BelongsToLater(dict: seq<Member>, front: seq<int>, name: string) {
    exists j :: 0 <= j < |dict| && dict[j].session !in front && dict[j].name == name
  }

  /** No new leaf is given the name of a member who comes after it. */
  predicate TakesNobodysName(dict: seq<Member>, placed: seq<int>) {
    forall i :: 0 <= i < |placed| ==> !TakesName(dict, placed, i)
  }

  predicate TakesName(dict: seq<Member>, placed: seq<int>, i: nat)
    requires i < |placed|
  {
    placed[i] !in Sessions(dict) && BelongsToLater(dict, placed[..i], FreshName(dict, placed[..i]))
  }

  predicate KeepsNames(dict: seq<Member>, done: seq<Member>) {
    forall j :: 0 <= j < |dict| ==>
      Lookup(done, dict[j].session).Some? && Lookup(done, dict[j].session).value.name == dict[j].name
  }

  // ---- While nobody's name is taken ---------------------------------------------------------------

  lemma TakesNobodySoFar(dict: seq<Member>, placed: seq<int>, k: nat)
    requires k <= |placed| && forall i :: 0 <= i < k ==> !TakesName(dict, placed, i)
    ensures TakesNobodysName(dict, placed[..k])
  {
    hide FreshName, BelongsToLater, Sessions;
    forall i | 0 <= i < k ensures !TakesName(dict, placed[..k], i) {
      assert placed[..k][..i] == placed[..i] && placed[..k][i] == placed[i];
      assert !TakesName(dict, placed, i);
    }
  }

  /** Members met so far are whole, the names in use are those foretold, and none belongs to a later member. */
  predicate Fair(dict: seq<Member>, placed: seq<int>, t: Sorting) {
    && t.used == NamesUpTo(dict, placed)
    && (forall x :: x in placed && Lookup(dict, x).Some? ==> Lookup(t.done, x) == Lookup(dict, x))
    && (forall j :: 0 <= j < |dict| && dict[j].session !in placed ==> dict[j].name !in t.used)
  }

  lemma {:induction false} PlaceAllIsFair(dict: seq<Member>, placed: seq<int>, now: int)
    requires Distinct(Sessions(dict)) && GoodNames(dict) && Distinct(placed) && TakesNobodysName(dict, placed)
    ensures Fair(dict, placed, PlaceAll(Sorting(dict, {}, []), placed, now))
  {
    var s := Sorting(dict, {}, []);
    if placed != [] {
      var front, last := placed[..|placed| - 1], placed[|placed| - 1];
      assert placed == front + [last];
      DistinctParts(front, [last]);
      assert last in [last];
      TakesNobodySoFar(dict, placed, |front|);
      PlaceAllIsFair(dict, front, now);
      PlaceAllAddsSessions(s, front, now);
      var t := PlaceAll(s, front, now);
      assert Sessions(t.done) == front;
      LookupFinds(dict, last);
      if Lookup(dict, last).Some? {
        KnownIsFair(dict, front, t, last, now);
      } else {
        assert !TakesName(dict, placed, |front|);
        NewIsFair(dict, front, t, last, now);
      }
    }
  }

  lemma NamesSnocKnown(dict: seq<Member>, front: seq<int>, last: int)
    ensures NamesUpTo(dict, front + [last])
         == NamesUpTo(dict, front)
            + {if Lookup(dict, last).Some? then Lookup(dict, last).value.name else FreshName(dict, front)}
  {
    assert (front + [last])[..|front|] == front;
  }

  lemma DoneSnoc(dict: seq<Member>, front: seq<int>, done: seq<Member>, member: Member)
    requires forall x :: x in front && Lookup(dict, x).Some? ==> Lookup(done, x) == Lookup(dict, x)
    requires Sessions(done) == front && member.session !in front
    requires Lookup(dict, member.session).Some? ==> Lookup(dict, member.session).value == member
    ensures forall x :: x in front + [member.session] && Lookup(dict, x).Some? ==>
      Lookup(done + [member], x) == Lookup(dict, x)
  {
    forall x | x in front + [member.session] && Lookup(dict, x).Some?
      ensures Lookup(done + [member], x) == Lookup(dict, x)
    {
      LookupConcat(done, [member], x);
      LookupOne(member, x);
      LookupFinds(done, x);
    }
  }

  lemma KnownIsFair(dict: seq<Member>, front: seq<int>, t: Sorting, last: int, now: int)
    requires GoodNames(dict) && Fair(dict, front, t) && Sessions(t.done) == front && last !in front
    requires Lookup(dict, last).Some? && Lookup(t.left, last) == Lookup(dict, last)
    ensures Fair(dict, front + [last], PlaceOne(t, last, now))
  {
    hide NamesUpTo, Lookup, FirstFree, GoodNames, Claim;
    LookupFinds(dict, last);
    var member := Lookup(dict, last).value;
    NamedMember(dict, member);
    ClaimKeepsGoodName(t, Drop(t.left, last), member);
    NamesSnocKnown(dict, front, last);
    DoneSnoc(dict, front, t.done, member);
    forall j | 0 <= j < |dict| && dict[j].session != last ensures dict[j].name != member.name {
      OthersAreNamedOtherwise(dict, j, member);
    }
  }

  lemma OthersAreNamedOtherwise(dict: seq<Member>, j: nat, member: Member)
    requires GoodNames(dict) && j < |dict| && member in dict && dict[j].session != member.session
    ensures dict[j].name != member.name
  {
  }

  lemma NewIsFair(dict: seq<Member>, front: seq<int>, t: Sorting, last: int, now: int)
    requires GoodNames(dict) && Fair(dict, front, t) && Sessions(t.done) == front && last !in front
    requires Lookup(dict, last).None? && Lookup(t.left, last).None?
    requires !BelongsToLater(dict, front, FreshName(dict, front))
    ensures Fair(dict, front + [last], PlaceOne(t, last, now))
  {
    hide NamesUpTo, Lookup, FirstFree, Numbered;
    NewIsNamedFresh(dict, front, t, last, now);
    var member := Member(last, FreshName(dict, front), Profile(None, [], now, now));
    NamesSnocKnown(dict, front, last);
    DoneSnoc(dict, front, t.done, member);
  }

  lemma NewIsNamedFresh(dict: seq<Member>, front: seq<int>, t: Sorting, last: int, now: int)
    requires t.used == NamesUpTo(dict, front) && Sessions(t.done) == front && Lookup(t.left, last).None?
    ensures
      var name := FreshName(dict, front);
      PlaceOne(t, last, now)
      == Sorting(Drop(t.left, last), t.used + {name}, t.done + [Member(last, name, Profile(None, [], now, now))])
  {
    assert |t.done| == |front|;
  }

  lemma {:induction false} AppendedWhole(s: Sorting, orphans: seq<Member>)
    requires GoodNames(orphans)
    requires forall j :: 0 <= j < |orphans| ==> orphans[j].name !in s.used
    ensures AppendAll(s, orphans).done == s.done + orphans
    ensures AppendAll(s, orphans).used == s.used + Names(orphans)
  {
    if orphans == [] {
      assert s.done + [] == s.done && s.used + Names([]) == s.used;
    } else {
      var front, last := orphans[..|orphans| - 1], orphans[|orphans| - 1];
      assert orphans == front + [last];
      AppendedWhole(s, front);
      NamesSnoc(front, last);
      assert last.name !in Names(front);
      var t := AppendAll(s, front);
      ClaimKeepsGoodName(t, t.left, last);
      Associate(s.done, front, [last]);
    }
  }

  lemma LeftAreMembers(dict: seq<Member>, placed: seq<int>, now: int)
    requires Distinct(Sessions(dict)) && GoodNames(dict)
    ensures
      var left := PlaceAll(Sorting(dict, {}, []), placed, now).left;
      && GoodNames(left)
      && forall k :: 0 <= k < |left| ==> left[k] in dict && left[k].session !in placed
  {
    hide GoodNames, PlaceAll;
    var s := Sorting(dict, {}, []);
    PlaceAllAddsSessions(s, placed, now);
    var left := PlaceAll(s, placed, now).left;
    forall k | 0 <= k < |left| ensures left[k] in dict && left[k].session !in placed {
      LookupAt(left, k);
      LookupFinds(dict, left[k].session);
    }
    PartHasGoodNames(dict, left);
  }

  predicate PartOf(part: seq<Member>, dict: seq<Member>) {
    forall k :: 0 <= k < |part| ==> part[k] in dict
  }

  lemma PartHasGoodNames(dict: seq<Member>, part: seq<Member>)
    requires GoodNames(dict) && Distinct(Sessions(part)) && PartOf(part, dict)
    ensures GoodNames(part)
  {
    hide GoodNames, Distinct, PartOf;
    forall k | 0 <= k < |part| ensures part[k].name != "" {
      PartIsNamed(dict, part, k);
    }
    forall k, l | 0 <= k < l < |part| ensures part[k].name != part[l].name {
      PartNamedApart(dict, part, k, l);
    }
    ApartIsGood(part);
  }

  lemma PartIsNamed(dict: seq<Member>, part: seq<Member>, k: nat)
    requires GoodNames(dict) && PartOf(part, dict) && k < |part|
    ensures part[k].name != ""
  {
    hide GoodNames;
    NamedMember(dict, part[k]);
  }

  lemma PartNamedApart(dict: seq<Member>, part: seq<Member>, k: nat, l: nat)
    requires GoodNames(dict) && Distinct(Sessions(part)) && PartOf(part, dict) && k < l < |part|
    ensures part[k].name != part[l].name
  {
    hide GoodNames, Distinct;
    SessionsApart(part, k, l);
    NamedApart(dict, part[k], part[l]);
  }

  lemma ApartIsGood(part: seq<Member>)
    requires forall k :: 0 <= k < |part| ==> part[k].name != ""
    requires forall k, l :: 0 <= k < l < |part| ==> part[k].name != part[l].name
    ensures GoodNames(part)
  {
  }

  lemma SessionsApart(part: seq<Member>, k: nat, l: nat)
    requires Distinct(Sessions(part)) && k < l < |part|
    ensures part[k].session != part[l].session
  {
    assert Sessions(part)[k] != Sessions(part)[l];
  }

  lemma NamedApart(dict: seq<Member>, a: Member, b: Member)
    requires GoodNames(dict) && a in dict && b in dict && a.session != b.session
    ensures a.name != b.name
  {
    hide GoodNames;
    if a.name == b.name {
      SameNameSameMember(dict, a, b);
    }
  }

  /** Where no new leaf takes a later member's name, every member is whole afterwards. */
  lemma FairKeepsEveryone(dict: seq<Member>, placed: seq<int>, now: int)
    requires Distinct(Sessions(dict)) && GoodNames(dict) && Distinct(placed) && TakesNobodysName(dict, placed)
    ensures
      var t := PlaceAll(Sorting(dict, {}, []), placed, now);
      forall x :: x in Sessions(dict) ==> Lookup(AppendAll(t, t.left).done, x) == Lookup(dict, x)
  {
    hide PlaceAll, AppendAll, GoodNames, TakesNobodysName, NamesUpTo;
    PlaceAllIsFair(dict, placed, now);
    var s := Sorting(dict, {}, []);
    PlaceAllAddsSessions(s, placed, now);
    var t := PlaceAll(s, placed, now);
    LeftAreMembers(dict, placed, now);
    forall k | 0 <= k < |t.left| ensures t.left[k].name !in t.used {
      var j :| 0 <= j < |dict| && dict[j] == t.left[k];
    }
    AppendedWhole(t, t.left);
    forall x | x in Sessions(dict) ensures Lookup(t.done + t.left, x) == Lookup(dict, x) {
      LookupConcat(t.done, t.left, x);
      LookupFinds(dict, x);
      LookupFinds(t.done, x);
      assert Sessions(t.done) == placed;
    }
  }

  // ---- Once a name is taken -----------------------------------------------------------------------

  lemma {:induction false} PlaceAllExtends(s: Sorting, placed: seq<int>, k: nat, now: int)
    requires k <= |placed|
    ensures PlaceAll(s, placed[..k], now).done <= PlaceAll(s, placed, now).done
  {
    if k < |placed| {
      assert placed[..|placed| - 1][..k] == placed[..k];
      PlaceAllExtends(s, placed[..|placed| - 1], k, now);
    } else {
      assert placed[..k] == placed;
    }
  }

  lemma {:induction false} AppendAllExtends(s: Sorting, orphans: seq<Member>)
    ensures s.done <= AppendAll(s, orphans).done
  {
    if orphans != [] {
      AppendAllExtends(s, orphans[..|orphans| - 1]);
    }
  }

  /** The first leaf that takes a later member's name. */
  lemma {:induction false} FirstTaken(dict: seq<Member>, placed: seq<int>, k: nat) returns (i: nat)
    requires k <= |placed| && forall j :: 0 <= j < k ==> !TakesName(dict, placed, j)
    requires !TakesNobodysName(dict, placed)
    ensures i < |placed| && TakesName(dict, placed, i)
    ensures forall j :: 0 <= j < i ==> !TakesName(dict, placed, j)
    decreases |placed| - k
  {
    hide TakesName;
    if TakesName(dict, placed, k) {
      i := k;
    } else {
      i := FirstTaken(dict, placed, k + 1);
    }
  }

  /** That leaf has the name for good, so the member it belonged to has another. */
  lemma TakenIsLost(dict: seq<Member>, placed: seq<int>, now: int)
    requires Distinct(Sessions(dict)) && GoodNames(dict) && Distinct(placed) && !TakesNobodysName(dict, placed)
    ensures
      var t := PlaceAll(Sorting(dict, {}, []), placed, now);
      !KeepsNames(dict, AppendAll(t, t.left).done)
  {
    hide PlaceAll, AppendAll, TakesNobodysName, NamesUpTo, GoodNames;
    var s := Sorting(dict, {}, []);
    var t := PlaceAll(s, placed, now);
    var done := AppendAll(t, t.left).done;
    var i := FirstTaken(dict, placed, 0);
    TakesNobodySoFar(dict, placed, i);
    var name := FreshName(dict, placed[..i]);
    assert Distinct(placed[..i]) by { DistinctParts(placed[..i], placed[i..]); assert placed[..i] + placed[i..] == placed; }
    NewLeafHasIt(dict, placed, i, now);
    PlaceAllExtends(s, placed, i + 1, now);
    AppendAllExtends(t, t.left);
    assert done[i].session == placed[i] && done[i].name == name;
    assert NamesKnown(s) by { NothingIsNamed(dict); }
    PlaceAllKeepsNames(s, placed, now);
    AppendAllKeepsNames(t, t.left);
    var j :| 0 <= j < |dict| && dict[j].session !in placed[..i] && dict[j].name == name;
    assert Sessions(dict)[j] == dict[j].session;
    OneNameOneMember(done, i, dict[j].session);
  }

  lemma NothingIsNamed(dict: seq<Member>)
    ensures NamesKnown(Sorting(dict, {}, []))
  {
  }

  lemma OneNameOneMember(done: seq<Member>, i: nat, x: int)
    requires GoodNames(done) && i < |done| && done[i].session != x
    ensures Lookup(done, x).Some? ==> Lookup(done, x).value.name != done[i].name
  {
    LookupFinds(done, x);
  }

  lemma NewLeafHasIt(dict: seq<Member>, placed: seq<int>, i: nat, now: int)
    requires Distinct(Sessions(dict)) && GoodNames(dict) && i < |placed| && Distinct(placed[..i])
    requires TakesNobodysName(dict, placed[..i]) && placed[i] !in Sessions(dict)
    ensures
      var done := PlaceAll(Sorting(dict, {}, []), placed[..i + 1], now).done;
      |done| == i + 1 && done[i].session == placed[i] && done[i].name == FreshName(dict, placed[..i])
  {
    var s := Sorting(dict, {}, []);
    var front := placed[..i];
    assert placed[..i + 1] == front + [placed[i]];
    assert (front + [placed[i]])[..i] == front;
    PlaceAllIsFair(dict, front, now);
    PlaceAllAddsSessions(s, front, now);
    LookupFinds(dict, placed[i]);
    NewIsNamedFresh(dict, front, PlaceAll(s, front, now), placed[i], now);
  }

  /**
   * Reconciling keeps every member's name exactly when no new leaf is given the name of a member who comes
   * after it; then it keeps the members whole.
   */
  lemma ReconcileKeepsNamesIff(ws: Workspace, now: int)
    requires Distinct(Placed(ws.layout)) && GoodNames(BySession(ws.members))
    ensures
      var dict, after := BySession(ws.members), Reconciled(ws, now).members;
      && (KeepsNames(dict, after) <==> TakesNobodysName(dict, Placed(ws.layout)))
      && (KeepsNames(dict, after) <==> forall x :: x in Sessions(dict) ==> Lookup(after, x) == Lookup(dict, x))
  {
    hide BySession, PlaceAll, AppendAll, Placed, TakesNobodysName;
    var dict, placed := BySession(ws.members), Placed(ws.layout);
    BySessionHolds(ws.members);
    if TakesNobodysName(dict, placed) {
      FairKeepsEveryone(dict, placed, now);
    } else {
      TakenIsLost(dict, placed, now);
    }
    WholeKeepsNames(dict, Reconciled(ws, now).members);
  }

  lemma KnownTakeNobodysName(dict: seq<Member>, placed: seq<int>)
    requires forall x :: x in placed ==> x in Sessions(dict)
    ensures TakesNobodysName(dict, placed)
  {
    forall i | 0 <= i < |placed| ensures !TakesName(dict, placed, i) {
      var x := placed[i];
      assert x in placed;
    }
  }

  /** So when every leaf is a member's, everyone keeps everything, the members that the layout does not show included. */
  lemma ReconcileKeepsEveryone(ws: Workspace, now: int)
    requires Distinct(Placed(ws.layout)) && GoodNames(BySession(ws.members))
    requires forall x :: x in Placed(ws.layout) ==> x in Sessions(ws.members)
    ensures forall x :: Lookup(Reconciled(ws, now).members, x) == Lookup(BySession(ws.members), x)
  {
    hide BySession, PlaceAll, AppendAll, Placed, TakesNobodysName, Reconciled;
    var dict, placed, after := BySession(ws.members), Placed(ws.layout), Reconciled(ws, now).members;
    BySessionHolds(ws.members);
    KnownTakeNobodysName(dict, placed);
    ReconcileKeepsNamesIff(ws, now);
    ReconcileLosesNobody(ws, now);
    forall x ensures Lookup(after, x) == Lookup(dict, x) {
      LookupFinds(after, x);
      LookupFinds(dict, x);
    }
  }

  lemma WholeKeepsNames(dict: seq<Member>, after: seq<Member>)
    requires Distinct(Sessions(dict))
    ensures (forall x :: x in Sessions(dict) ==> Lookup(after, x) == Lookup(dict, x)) ==> KeepsNames(dict, after)
  {
    if forall x :: x in Sessions(dict) ==> Lookup(after, x) == Lookup(dict, x) {
      forall j | 0 <= j < |dict|
        ensures Lookup(after, dict[j].session).Some? && Lookup(after, dict[j].session).value.name == dict[j].name
      {
        LookupAt(dict, j);
        assert Sessions(dict)[j] == dict[j].session;
      }
    }
  }
}
