/**
 * Input that is the terminal talking, not the user (packages/server/src/agent-sleep.ts:208-212): focus
 * reports and mouse events, any number of them and nothing else.
 */
module PassiveInput {
  import opened Prelude

  const ESC: byte := 0x1b
  const BRACKET: byte := 0x5b

  predicate Parameter(b: byte) { 0x30 <= b <= 0x39 || b == 0x3b }

  predicate Final(b: byte) { b == 0x4d || b == 0x6d }

  /** What a dot in the pattern stands for: any byte but a line end. */
  predicate Dot(b: byte) { b != 0x0a && b != 0x0d }

  predicate Opens(s: seq<byte>, third: byte) {
    |s| >= 3 && s[0] == ESC && s[1] == BRACKET && s[2] == third
  }

  /** ESC [ I and ESC [ O. */
  predicate IsFocus(s: seq<byte>) {
    |s| == 3 && (Opens(s, 0x49) || Opens(s, 0x4f))
  }

  /** ESC [ < parameters M, or m for a release. */
  predicate IsMouse(s: seq<byte>) {
    && |s| >= 5 && Opens(s, 0x3c) && Final(s[|s| - 1])
    && forall i :: 3 <= i < |s| - 1 ==> Parameter(s[i])
  }

  /** ESC [ M and three bytes. */
  predicate IsOldMouse(s: seq<byte>) {
    |s| == 6 && Opens(s, 0x4d) && Dot(s[3]) && Dot(s[4]) && Dot(s[5])
  }

  predicate IsReport(s: seq<byte>) {
    IsFocus(s) || IsMouse(s) || IsOldMouse(s)
  }

  predicate AreReports(parts: seq<seq<byte>>) {
    forall i :: 0 <= i < |parts| ==> IsReport(parts[i])
  }

  predicate MadeOf(s: seq<byte>, parts: seq<seq<byte>>) {
    Flatten(parts) == s && AreReports(parts)
  }

  /** The pattern as it is written: a non-empty text made of reports. */
  ghost predicate Matches(s: seq<byte>) {
    s != [] && exists parts :: MadeOf(s, parts)
  }

  // ---- A scan that decides the pattern ----------------------------------------------------------

  /** First position from `i` on that is not a parameter byte. */
  function SkipParameters(s: seq<byte>, i: nat): (j: nat)
    requires i <= |s|
    ensures i <= j <= |s| && (forall k :: i <= k < j ==> Parameter(s[k])) && (j < |s| ==> !Parameter(s[j]))
    decreases |s| - i
  {
    if i < |s| && Parameter(s[i]) then SkipParameters(s, i + 1) else i
  }

  /** Length of the report that the bytes start with; 0 when they start with none. */
  function ReportLength(s: seq<byte>): (n: nat)
    ensures n <= |s|
    ensures n > 0 ==> IsReport(s[..n])
  {
    if Opens(s, 0x49) || Opens(s, 0x4f) then 3
    else if Opens(s, 0x3c) then
      var j := SkipParameters(s, 3);
      if j > 3 && j < |s| && Final(s[j]) then j + 1 else 0
    else if Opens(s, 0x4d) && |s| >= 6 && Dot(s[3]) && Dot(s[4]) && Dot(s[5]) then 6
    else 0
  }

  predicate AllReports(s: seq<byte>)
    decreases |s|
  {
    s == [] || (ReportLength(s) > 0 && AllReports(s[ReportLength(s)..]))
  }

  predicate IsPassive(s: seq<byte>) {
    s != [] && AllReports(s)
  }

  lemma SkipStops(s: seq<byte>, i: nat, j: nat)
    requires i <= j < |s| && (forall k :: i <= k < j ==> Parameter(s[k])) && !Parameter(s[j])
    ensures SkipParameters(s, i) == j
  {
  }

  /** Reports do not overlap: whatever follows one, the scan finds its exact end. */
  lemma ReportIsFound(report: seq<byte>, rest: seq<byte>)
    requires IsReport(report)
    ensures ReportLength(report + rest) == |report|
  {
    var s := report + rest;
    assert forall i :: 0 <= i < |report| ==> s[i] == report[i];
    if IsMouse(report) {
      SkipStops(s, 3, |report| - 1);
    }
  }

  lemma {:induction false} ScanFollowsParts(parts: seq<seq<byte>>)
    requires AreReports(parts)
    ensures AllReports(Flatten(parts))
  {
    if parts != [] {
      ScanFollowsParts(parts[1..]);
      ReportIsFound(parts[0], Flatten(parts[1..]));
      assert Flatten(parts)[|parts[0]|..] == Flatten(parts[1..]);
    }
  }

  lemma {:induction false} PartsFollowScan(s: seq<byte>) returns (parts: seq<seq<byte>>)
    requires AllReports(s)
    ensures MadeOf(s, parts)
    decreases |s|
  {
    if s == [] {
      parts := [];
    } else {
      var n := ReportLength(s);
      var rest := PartsFollowScan(s[n..]);
      parts := [s[..n]] + rest;
      assert s[..n] + s[n..] == s;
    }
  }

  /** The scan accepts exactly the texts of the pattern. */
  lemma PassiveIsThePattern(s: seq<byte>)
    ensures IsPassive(s) <==> Matches(s)
  {
    hide AllReports, MadeOf;
    if IsPassive(s) {
      var parts := PartsFollowScan(s);
    }
    if Matches(s) {
      var parts :| MadeOf(s, parts);
      MadeOfReports(s, parts);
    }
  }

  lemma MadeOfReports(s: seq<byte>, parts: seq<seq<byte>>)
    requires MadeOf(s, parts)
    ensures AllReports(s)
  {
    ScanFollowsParts(parts);
  }

  /** The reports by their bytes: focus in and out, a mouse event, and a mouse event of the older kind. */
  lemma ReportsByBytes(s: seq<byte>)
    ensures IsReport(s) <==>
      || s == [0x1b, 0x5b, 0x49] || s == [0x1b, 0x5b, 0x4f]
      || (|s| >= 5 && s[..3] == [0x1b, 0x5b, 0x3c] && (s[|s| - 1] == 0x4d || s[|s| - 1] == 0x6d)
          && forall i :: 3 <= i < |s| - 1 ==> 0x30 <= s[i] <= 0x39 || s[i] == 0x3b)
      || (|s| == 6 && s[..3] == [0x1b, 0x5b, 0x4d] && forall i :: 3 <= i < 6 ==> s[i] != 0x0a && s[i] != 0x0d)
  {
  }
}
