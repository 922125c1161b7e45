/** What a patch does to the parsed values, and what it leaves of the text (packages/server/src/config-file.ts:16-55). */
module ConfigProofs {
  import opened Prelude
  import opened ConfigText
  import opened ConfigFile

  /** How many lines speak of a key. */
  function Mentions(lines: seq<string>, key: string): nat {
    if lines == [] then 0
    else Mentions(lines[..|lines| - 1], key) + if Says(lines[|lines| - 1], key) then 1 else 0
  }

  /** What the last of them says. */
  function LastSaid(lines: seq<string>, key: string): Option<string> {
    if lines == [] then None
    else if Says(lines[|lines| - 1], key) then Some(Read(lines[|lines| - 1]).value.value)
    else LastSaid(lines[..|lines| - 1], key)
  }

  lemma SaidSnoc(lines: seq<string>, raw: string, key: string)
    ensures LastSaid(lines + [raw], key)
         == if Says(raw, key) then Some(Read(raw).value.value) else LastSaid(lines, key)
    ensures Mentions(lines + [raw], key) == Mentions(lines, key) + if Says(raw, key) then 1 else 0
  {
    assert (lines + [raw])[..|lines|] == lines;
  }

  lemma {:induction false} ParseIsLastSaid(lines: seq<string>, key: string)
    requires key != ""
    ensures key in ParseLines(lines) <==> LastSaid(lines, key).Some?
    ensures key in ParseLines(lines) ==> LastSaid(lines, key) == Some(ParseLines(lines)[key])
  {
    hide Read;
    if lines != [] {
      ParseIsLastSaid(lines[..|lines| - 1], key);
    }
  }

  lemma {:induction false} ParseHasNoEmptyKey(lines: seq<string>)
    ensures "" !in ParseLines(lines)
  {
    hide Read;
    if lines != [] {
      ParseHasNoEmptyKey(lines[..|lines| - 1]);
    }
  }

  lemma {:induction false} SaidWhenMentioned(lines: seq<string>, key: string)
    ensures LastSaid(lines, key).Some? <==> Mentions(lines, key) > 0
  {
    hide Read;
    if lines != [] {
      SaidWhenMentioned(lines[..|lines| - 1], key);
    }
  }

  // ---- Patches ----------------------------------------------------------------------------------

  predicate DistinctKeys(changes: seq<Change>) {
    forall i, j :: 0 <= i < j < |changes| ==> changes[i].key != changes[j].key
  }

  predicate CleanChange(change: Change) {
    CleanKey(change.key) && (change.value.Some? ==> CleanValue(change.value.value))
  }

  /** Keys and values as the settings surfaces send them. */
  predicate CleanPatch(changes: seq<Change>) {
    DistinctKeys(changes) && forall i :: 0 <= i < |changes| ==> CleanChange(changes[i])
  }

  function Wanted(changes: seq<Change>, key: string): Option<string>
    requires HasKey(changes, key)
  {
    changes[IndexOfKey(changes, key)].value
  }

  lemma KeyAt(changes: seq<Change>, i: nat)
    requires DistinctKeys(changes) && i < |changes|
    ensures IndexOfKey(changes, changes[i].key) == i
  {
  }

  lemma RemoveIsClean(changes: seq<Change>, i: nat)
    requires CleanPatch(changes) && i < |changes|
    ensures CleanPatch(Remove(changes, i))
  {
    hide CleanChange;
    var left := Remove(changes, i);
    assert forall m :: 0 <= m < |left| ==> left[m] == changes[if m < i then m else m + 1];
  }

  lemma KeyInConcat(a: seq<Change>, b: seq<Change>, key: string)
    ensures IndexOfKey(a + b, key) == if HasKey(a, key) then IndexOfKey(a, key) else |a| + IndexOfKey(b, key)
  {
    var ab := a + b;
    assert forall m :: 0 <= m < |a| ==> ab[m] == a[m];
    assert forall m :: 0 <= m < |b| ==> ab[|a| + m] == b[m];
    var i, j, k := IndexOfKey(a, key), IndexOfKey(b, key), IndexOfKey(ab, key);
    if i < |a| {
      assert ab[i].key == key;
    } else if j < |b| {
      assert ab[|a| + j].key == key;
    }
  }

  lemma RemoveForgetsOne(changes: seq<Change>, i: nat, key: string)
    requires CleanPatch(changes) && i < |changes|
    ensures CleanPatch(Remove(changes, i))
    ensures HasKey(Remove(changes, i), key) <==> HasKey(changes, key) && key != changes[i].key
    ensures HasKey(Remove(changes, i), key) ==> Wanted(Remove(changes, i), key) == Wanted(changes, key)
  {
    hide CleanChange, IndexOfKey;
    var a, c, b := changes[..i], changes[i], changes[i + 1..];
    RemoveIsClean(changes, i);
    KeyInConcat(a, b, key);
    if key == c.key {
      NotBeside(changes, i, c.key);
      KeyAt(changes, i);
    } else {
      KeyAround(changes, i, key);
    }
  }

  lemma KeyAround(changes: seq<Change>, i: nat, key: string)
    requires i < |changes| && key != changes[i].key
    ensures IndexOfKey(changes, key)
         == if HasKey(changes[..i], key) then IndexOfKey(changes[..i], key)
            else i + 1 + IndexOfKey(changes[i + 1..], key)
  {
    hide IndexOfKey;
    var a, c, b := changes[..i], changes[i], changes[i + 1..];
    assert changes == a + ([c] + b);
    KeyInConcat(a, [c] + b, key);
    KeyInConcat([c], b, key);
    KeyOfOne(c, key);
  }

  lemma KeyOfOne(c: Change, key: string)
    ensures IndexOfKey([c], key) == if c.key == key then 0 else 1
  {
  }

  lemma NotBeside(changes: seq<Change>, i: nat, key: string)
    requires DistinctKeys(changes) && i < |changes| && key == changes[i].key
    ensures !HasKey(changes[..i], key) && !HasKey(changes[i + 1..], key)
  {
  }

  lemma ShownSays(lines: seq<string>, change: Change, key: string)
    requires CleanChange(change)
    ensures LastSaid(lines + Shown(change.key, change.value), key)
         == if key == change.key && change.value.Some? then change.value else LastSaid(lines, key)
  {
    hide Read, Format;
    if change.value.Some? {
      FormatReadsBack(change.key, change.value.value);
      SaidSnoc(lines, Format(change.key, change.value.value), key);
    } else {
      assert lines + [] == lines;
    }
  }

  /**
   * After the pass over the lines: a key that was there once has its new value, one that was there more
   * often keeps the last old one, and the changes left are those whose key was not there.
   */
  ghost predicate EditedWell(e: Edit, lines: seq<string>, changes: seq<Change>, key: string) {
    && CleanPatch(e.left)
    && (HasKey(e.left, key) <==> HasKey(changes, key) && Mentions(lines, key) == 0)
    && (HasKey(e.left, key) ==> Wanted(e.left, key) == Wanted(changes, key))
    && LastSaid(e.out, key) == if HasKey(changes, key) && Mentions(lines, key) == 1 then Wanted(changes, key)
                               else LastSaid(lines, key)
  }

  lemma {:induction false} EditLinesWell(lines: seq<string>, changes: seq<Change>, key: string)
    requires CleanPatch(changes)
    ensures EditedWell(EditLines(lines, changes), lines, changes, key)
  {
    hide Read, EditedWell, EditLine, CleanPatch;
    if lines == [] {
      NothingEdited(changes, key);
    } else {
      var front, raw := lines[..|lines| - 1], lines[|lines| - 1];
      assert lines == front + [raw];
      EditLinesWell(front, changes, key);
      EditLineWell(EditLines(front, changes), front, raw, changes, key);
    }
  }

  lemma NothingEdited(changes: seq<Change>, key: string)
    requires CleanPatch(changes)
    ensures EditedWell(Edit([], changes), [], changes, key)
  {
  }

  lemma EditLineWell(e: Edit, front: seq<string>, raw: string, changes: seq<Change>, key: string)
    requires EditedWell(e, front, changes, key)
    ensures EditedWell(EditLine(e, raw), front + [raw], changes, key)
  {
    hide Read, CleanPatch, LastSaid, Mentions, Wanted, Remove;
    SaidSnoc(front, raw, key);
    SaidSnoc(e.out, raw, key);
    SaidWhenMentioned(front, key);
    if Read(raw).Some? && HasKey(e.left, Read(raw).value.key) {
      var i := IndexOfKey(e.left, Read(raw).value.key);
      CleanAt(e.left, i);
      RemoveForgetsOne(e.left, i, key);
      ShownSays(e.out, e.left[i], key);
      assert key == e.left[i].key ==> Wanted(e.left, key) == e.left[i].value by { WantedAt(e.left, i); }
    }
  }

  lemma WantedAt(changes: seq<Change>, i: nat)
    requires i < |changes| && IndexOfKey(changes, changes[i].key) == i
    ensures HasKey(changes, changes[i].key) && Wanted(changes, changes[i].key) == changes[i].value
  {
  }

  lemma CleanAt(changes: seq<Change>, i: nat)
    requires CleanPatch(changes) && i < |changes|
    ensures CleanChange(changes[i])
  {
  }

  lemma {:induction false} BlanksSayNothing(lines: seq<string>, key: string)
    ensures LastSaid(DropBlank(lines), key) == LastSaid(lines, key)
  {
    if lines != [] && lines[|lines| - 1] == "" {
      BlanksSayNothing(lines[..|lines| - 1], key);
      BlankSaysNothing(key);
    }
  }

  lemma BlankSaysNothing(key: string)
    ensures !Says("", key)
  {
  }

  lemma {:induction false} AppendedSays(lines: seq<string>, changes: seq<Change>, key: string)
    requires CleanPatch(changes)
    ensures LastSaid(lines + Appended(changes), key)
         == if HasKey(changes, key) && Wanted(changes, key).Some? then Wanted(changes, key) else LastSaid(lines, key)
  {
    hide Read;
    if changes == [] {
      assert lines + [] == lines;
    } else {
      var front, last := changes[..|changes| - 1], changes[|changes| - 1];
      AppendedSays(lines, front, key);
      Associate(lines, Appended(front), Shown(last.key, last.value));
      ShownSays(lines + Appended(front), last, key);
      KeyInFront(changes, key);
    }
  }

  lemma KeyInFront(changes: seq<Change>, key: string)
    requires CleanPatch(changes) && changes != []
    ensures var front := changes[..|changes| - 1];
      && CleanPatch(front)
      && (HasKey(changes, key) <==> HasKey(front, key) || key == changes[|changes| - 1].key)
      && (HasKey(front, key) ==> Wanted(changes, key) == Wanted(front, key) && key != changes[|changes| - 1].key)
      && (key == changes[|changes| - 1].key ==> Wanted(changes, key) == changes[|changes| - 1].value)
  {
    var front := changes[..|changes| - 1];
    var i := IndexOfKey(front, key);
    if i < |front| {
      KeyAt(changes, i);
    }
    KeyAt(changes, |changes| - 1);
    var j := IndexOfKey(changes, key);
    if j < |front| {
      KeyAt(front, j);
    }
  }

  // ---- The round trip ---------------------------------------------------------------------------

  /** The value of a key after the patch, as its caller expects it. */
  function Expected(text: string, changes: seq<Change>, key: string): Option<string> {
    if HasKey(changes, key) then Wanted(changes, key) else LastSaid(OldLines(text), key)
  }

  lemma NewLinesSay(text: string, changes: seq<Change>, key: string)
    requires CleanPatch(changes)
    ensures LastSaid(NewLines(text, changes), key)
         == if Mentions(OldLines(text), key) >= 2 then LastSaid(OldLines(text), key) else Expected(text, changes, key)
  {
    hide Read, LastSaid, Mentions, Wanted, EditLines, CleanPatch, DropBlank, Appended;
    var lines := OldLines(text);
    var e := EditLines(lines, changes);
    EditLinesWell(lines, changes, key);
    BlanksSayNothing(e.out, key);
    AppendedSays(DropBlank(e.out), e.left, key);
    SaidWhenMentioned(lines, key);
  }

  lemma {:induction false} EditHasNoBreaks(lines: seq<string>, changes: seq<Change>)
    requires CleanPatch(changes) && forall i :: 0 <= i < |lines| ==> '\n' !in lines[i]
    ensures forall i :: 0 <= i < |EditLines(lines, changes).out| ==> '\n' !in EditLines(lines, changes).out[i]
    ensures CleanPatch(EditLines(lines, changes).left)
  {
    hide Read, Format;
    if lines != [] {
      EditHasNoBreaks(lines[..|lines| - 1], changes);
      var e, raw := EditLines(lines[..|lines| - 1], changes), lines[|lines| - 1];
      if Read(raw).Some? && HasKey(e.left, Read(raw).value.key) {
        var i := IndexOfKey(e.left, Read(raw).value.key);
        RemoveForgetsOne(e.left, i, "");
        ShownHasNoBreaks(e.left[i]);
      }
    }
  }

  lemma ShownHasNoBreaks(change: Change)
    requires CleanChange(change)
    ensures forall i :: 0 <= i < |Shown(change.key, change.value)| ==> '\n' !in Shown(change.key, change.value)[i]
  {
    if change.value.Some? {
      FormatReadsBack(change.key, change.value.value);
    }
  }

  lemma {:induction false} AppendedHasNoBreaks(changes: seq<Change>)
    requires CleanPatch(changes)
    ensures forall i :: 0 <= i < |Appended(changes)| ==> '\n' !in Appended(changes)[i]
  {
    hide Shown;
    if changes != [] {
      KeyInFront(changes, "");
      AppendedHasNoBreaks(changes[..|changes| - 1]);
      ShownHasNoBreaks(changes[|changes| - 1]);
    }
  }

  lemma {:induction false} DropBlankIsPrefix(lines: seq<string>)
    ensures DropBlank(lines) <= lines
  {
    if lines != [] && lines[|lines| - 1] == "" {
      DropBlankIsPrefix(lines[..|lines| - 1]);
    }
  }

  lemma UpdateReadsBack(text: string, changes: seq<Change>)
    requires CleanPatch(changes)
    ensures Lines(Update(text, changes)) == NewLines(text, changes) + [""]
  {
    hide Lines, EditLines, Appended, CleanPatch, DropBlank;
    var e := EditLines(OldLines(text), changes);
    EditHasNoBreaks(OldLines(text), changes);
    AppendedHasNoBreaks(e.left);
    DropBlankIsPrefix(e.out);
    WrittenReadsBack(NewLines(text, changes));
  }

  /** What a parsed file holds for a key. */
  function ValueOf(values: map<string, string>, key: string): Option<string> {
    if key in values then Some(values[key]) else None
  }

  lemma ParsedValue(text: string, key: string)
    requires key != ""
    ensures ValueOf(Parse(text), key) == LastSaid(OldLines(text), key)
  {
    hide Read;
    ParseIsLastSaid(Lines(text), key);
    if text == "" {
      EmptyIsOneLine();
      SaidSnoc([], "", key);
      BlankSaysNothing(key);
      assert [] + [""] == [""];
    }
  }

  /** Key by key: a patch is read back as asked unless its key stands on two lines or more, and then nothing changes. */
  lemma UpdatedValue(text: string, changes: seq<Change>, key: string)
    requires CleanPatch(changes) && key != ""
    ensures ValueOf(Parse(Update(text, changes)), key)
         == if HasKey(changes, key) && Mentions(OldLines(text), key) < 2 then Wanted(changes, key)
            else ValueOf(Parse(text), key)
  {
    hide Read, LastSaid, Lines, OldLines, NewLines, Update, Mentions;
    ParsedValue(text, key);
    UpdateReadsBack(text, changes);
    ParseIsLastSaid(NewLines(text, changes) + [""], key);
    SaidSnoc(NewLines(text, changes), "", key);
    BlankSaysNothing(key);
    NewLinesSay(text, changes, key);
  }

  /** The old values overridden by the patch, deletions taken out. */
  ghost predicate Overridden(before: map<string, string>, changes: seq<Change>, after: map<string, string>) {
    && "" !in after
    && forall key :: key != "" ==>
         ValueOf(after, key) == if HasKey(changes, key) then Wanted(changes, key) else ValueOf(before, key)
  }

  /** Every patched key stands on one line at most, or the patch repeats the value it already has. */
  predicate Editable(text: string, changes: seq<Change>) {
    forall i :: 0 <= i < |changes| ==>
      || Mentions(OldLines(text), changes[i].key) < 2
      || changes[i].value == ValueOf(Parse(text), changes[i].key)
  }

  /** Parsing the updated text gives the old values overridden by the patch, exactly when no patched key is duplicated to another effect. */
  lemma UpdateOverridesIff(text: string, changes: seq<Change>)
    requires CleanPatch(changes)
    ensures Overridden(Parse(text), changes, Parse(Update(text, changes))) <==> Editable(text, changes)
  {
    hide Read, Parse, Update, Mentions, OldLines;
    var before, after := Parse(text), Parse(Update(text, changes));
    assert "" !in after by { ParseHasNoEmptyKey(Lines(Update(text, changes))); EmptyKeyParsed(Update(text, changes)); }
    if Editable(text, changes) {
      forall key | key != ""
        ensures ValueOf(after, key) == if HasKey(changes, key) then Wanted(changes, key) else ValueOf(before, key)
      {
        UpdatedValue(text, changes, key);
      }
    }
    if Overridden(before, changes, after) {
      forall i | 0 <= i < |changes|
        ensures Mentions(OldLines(text), changes[i].key) < 2 || changes[i].value == ValueOf(before, changes[i].key)
      {
        KeyAt(changes, i);
        assert CleanChange(changes[i]);
        UpdatedValue(text, changes, changes[i].key);
      }
    }
  }

  /** A key on two lines: the patch edits the first, and the second is still the one that is read. */
  lemma RepeatedKeyKeepsTheLast(key: string, first: string, last: string, wanted: string)
    requires CleanKey(key) && CleanValue(first) && CleanValue(last) && CleanValue(wanted) && wanted != last
    ensures
      var text, changes := Written([Format(key, first), Format(key, last)]), [Change(key, Some(wanted))];
      && CleanPatch(changes) && !Editable(text, changes)
      && ValueOf(Parse(Update(text, changes)), key) == Some(last)
  {
    hide Read, Lines, Format, Update, Parse;
    var text, changes := Written([Format(key, first), Format(key, last)]), [Change(key, Some(wanted))];
    TwoLinesSay(key, first, last);
    assert IndexOfKey(changes, key) == 0;
    ParsedValue(text, key);
    UpdatedValue(text, changes, key);
  }

  lemma TwoLinesSay(key: string, first: string, last: string)
    requires CleanKey(key) && CleanValue(first) && CleanValue(last)
    ensures
      var lines := OldLines(Written([Format(key, first), Format(key, last)]));
      Mentions(lines, key) == 2 && LastSaid(lines, key) == Some(last)
  {
    hide Read, Lines, Format;
    var a, b := Format(key, first), Format(key, last);
    FormatReadsBack(key, first);
    FormatReadsBack(key, last);
    WrittenReadsBack([a, b]);
    assert [a, b] + [""] == (([] + [a]) + [b]) + [""];
    BlankSaysNothing(key);
    SaidSnoc([], a, key);
    SaidSnoc([] + [a], b, key);
    SaidSnoc(([] + [a]) + [b], "", key);
    assert Written([a, b]) != "" by { assert Written([a, b])[0] == a[0]; }
  }

  lemma EmptyKeyParsed(text: string)
    ensures "" !in Parse(text)
  {
    ParseHasNoEmptyKey(Lines(text));
  }

  // ---- What a human put there -------------------------------------------------------------------

  /** A line that no patched key speaks for: comments, blanks, unknown lines, other keys. */
  predicate Untouched(raw: string, changes: seq<Change>) {
    Read(raw).None? || !HasKey(changes, Read(raw).value.key)
  }

  function Others(lines: seq<string>, changes: seq<Change>): seq<string> {
    if lines == [] then []
    else
      var front, raw := Others(lines[..|lines| - 1], changes), lines[|lines| - 1];
      if Untouched(raw, changes) then front + [raw] else front
  }

  lemma OthersSnoc(lines: seq<string>, raw: string, changes: seq<Change>)
    ensures Others(lines + [raw], changes)
         == if Untouched(raw, changes) then Others(lines, changes) + [raw] else Others(lines, changes)
  {
    assert (lines + [raw])[..|lines|] == lines;
  }

  lemma ShownIsTouched(lines: seq<string>, change: Change, changes: seq<Change>)
    requires CleanChange(change) && HasKey(changes, change.key)
    ensures Others(lines + Shown(change.key, change.value), changes) == Others(lines, changes)
  {
    hide Read, Format, Others;
    if change.value.Some? {
      FormatReadsBack(change.key, change.value.value);
      OthersSnoc(lines, Format(change.key, change.value.value), changes);
    } else {
      assert lines + [] == lines;
    }
  }

  lemma {:induction false} EditKeepsOthers(lines: seq<string>, changes: seq<Change>)
    requires CleanPatch(changes)
    ensures Others(EditLines(lines, changes).out, changes) == Others(lines, changes)
    ensures CleanPatch(EditLines(lines, changes).left)
    ensures forall c :: c in EditLines(lines, changes).left ==> HasKey(changes, c.key)
  {
    hide Read, Others, Shown;
    if lines == [] {
      forall c | c in changes ensures HasKey(changes, c.key) {
        var i :| 0 <= i < |changes| && changes[i] == c;
        KeyAt(changes, i);
      }
    } else {
      var front, raw := lines[..|lines| - 1], lines[|lines| - 1];
      assert lines == front + [raw];
      EditKeepsOthers(front, changes);
      var e := EditLines(front, changes);
      OthersSnoc(front, raw, changes);
      OthersSnoc(e.out, raw, changes);
      if Read(raw).Some? && HasKey(e.left, Read(raw).value.key) {
        var i := IndexOfKey(e.left, Read(raw).value.key);
        RemoveForgetsOne(e.left, i, "");
        assert e.left[i] in e.left;
        ShownIsTouched(e.out, e.left[i], changes);
      } else if Read(raw).Some? && HasKey(changes, Read(raw).value.key) {
        assert !Untouched(raw, changes);
      }
    }
  }

  lemma {:induction false} AppendedIsTouched(lines: seq<string>, left: seq<Change>, changes: seq<Change>)
    requires CleanPatch(left) && forall c :: c in left ==> HasKey(changes, c.key)
    ensures Others(lines + Appended(left), changes) == Others(lines, changes)
  {
    hide Read, Others, Shown;
    if left == [] {
      assert lines + [] == lines;
    } else {
      var front, last := left[..|left| - 1], left[|left| - 1];
      KeyInFront(left, "");
      AppendedIsTouched(lines, front, changes);
      Associate(lines, Appended(front), Shown(last.key, last.value));
      assert last in left;
      ShownIsTouched(lines + Appended(front), last, changes);
    }
  }

  function Blanks(n: nat): seq<string> {
    if n == 0 then [] else Blanks(n - 1) + [""]
  }

  lemma {:induction false} DroppedBlanks(lines: seq<string>, changes: seq<Change>) returns (n: nat)
    ensures Others(lines, changes) == Others(DropBlank(lines), changes) + Blanks(n)
  {
    hide Read, Untouched;
    if lines != [] && lines[|lines| - 1] == "" {
      var m := DroppedBlanks(lines[..|lines| - 1], changes);
      n := m + 1;
      BlankIsUntouched(changes);
      Associate(Others(DropBlank(lines), changes), Blanks(m), [""]);
    } else {
      n := 0;
      assert Others(lines, changes) + [] == Others(lines, changes);
    }
  }

  lemma BlankIsUntouched(changes: seq<Change>)
    ensures Untouched("", changes)
  {
  }

  /** Comments, unknown lines and the entries of other keys all survive, in order; only blank lines at the end may go. */
  lemma OthersSurvive(text: string, changes: seq<Change>) returns (n: nat)
    requires CleanPatch(changes)
    ensures Others(NewLines(text, changes), changes) + Blanks(n) == Others(OldLines(text), changes)
  {
    hide Read, Others, EditLines, Appended, DropBlank, Blanks, CleanPatch;
    var e := EditLines(OldLines(text), changes);
    EditKeepsOthers(OldLines(text), changes);
    AppendedIsTouched(DropBlank(e.out), e.left, changes);
    n := DroppedBlanks(e.out, changes);
  }

  // ---- What is read, and what is dropped ----------------------------------------------------------

  /** A line says nothing exactly when it is blank, a comment, or has no equals sign; so such lines always survive. */
  lemma SaysNothingIff(raw: string, changes: seq<Change>)
    ensures Read(raw).None? <==> Trim(raw) == "" || Trim(raw)[0] == '#' || '=' !in Trim(raw)
    ensures Read(raw).None? ==> Untouched(raw, changes)
  {
    var line := Trim(raw);
    var eq := Find(line, '=');
    if '=' in line {
      var i :| 0 <= i < |line| && line[i] == '=';
      assert eq <= i;
    }
  }

  /** White space and line ends, by their code points (ECMA-262, section 12.2 and 12.3). */
  predicate Blank(n: int) {
    n in {0x09, 0x0a, 0x0b, 0x0c, 0x0d, 0x20, 0xa0, 0x1680, 0x2028, 0x2029, 0x202f, 0x205f, 0x3000, 0xfeff}
    || 0x2000 <= n <= 0x200a
  }

  /** Trimming takes exactly the white space at both ends. */
  lemma {:induction false} TrimTakesBlanks(s: string) returns (i: nat, j: nat)
    ensures i <= j <= |s| && Trim(s) == s[i..j]
    ensures forall k :: 0 <= k < i || j <= k < |s| ==> Blank(s[k] as int)
    ensures i < j ==> !Blank(s[i] as int) && !Blank(s[j - 1] as int)
  {
    i := LeftOf(s);
    var tail := s[i..];
    var n := RightOf(tail);
    j := i + n;
    assert tail[..n] == s[i..j];
    forall k | 0 <= k < i || j <= k < |s| ensures Blank(s[k] as int) {
      if j <= k {
        assert s[k] == tail[k - i];
      }
    }
    if i < j {
      assert tail[0] == s[i] && tail[n - 1] == s[j - 1];
    }
  }

  lemma {:induction false} LeftOf(s: string) returns (i: nat)
    ensures i <= |s| && TrimLeft(s) == s[i..] && (forall k :: 0 <= k < i ==> Blank(s[k] as int))
    ensures i < |s| ==> !Blank(s[i] as int)
  {
    if s != "" && IsSpace(s[0]) {
      i := LeftOf(s[1..]);
      forall k | 0 <= k < i + 1 ensures Blank(s[k] as int) {
        if k > 0 {
          assert s[k] == s[1..][k - 1];
        }
      }
      i := i + 1;
    } else {
      i := 0;
    }
  }

  lemma {:induction false} RightOf(s: string) returns (j: nat)
    ensures j <= |s| && TrimRight(s) == s[..j] && (forall k :: j <= k < |s| ==> Blank(s[k] as int))
    ensures j > 0 ==> !Blank(s[j - 1] as int)
  {
    if s != "" && IsSpace(s[|s| - 1]) {
      j := RightOf(s[..|s| - 1]);
    } else {
      j := |s|;
      assert s[..j] == s;
    }
  }

  lemma {:induction false} NoBlankAtEnd(lines: seq<string>)
    ensures DropBlank(lines) <= lines
    ensures forall i :: |DropBlank(lines)| <= i < |lines| ==> lines[i] == ""
    ensures DropBlank(lines) != [] ==> DropBlank(lines)[|DropBlank(lines)| - 1] != ""
  {
    if lines != [] && lines[|lines| - 1] == "" {
      NoBlankAtEnd(lines[..|lines| - 1]);
    }
  }

  lemma {:induction false} AppendedIsNotBlank(changes: seq<Change>)
    requires CleanPatch(changes)
    ensures "" !in Appended(changes)
  {
    hide Read, Format;
    if changes != [] {
      var last := changes[|changes| - 1];
      KeyInFront(changes, "");
      AppendedIsNotBlank(changes[..|changes| - 1]);
      CleanAt(changes, |changes| - 1);
      if last.value.Some? {
        FormatReadsBack(last.key, last.value.value);
      }
    }
  }

  /** The updated text never ends in a blank line. */
  lemma EndsWithoutBlank(text: string, changes: seq<Change>)
    requires CleanPatch(changes)
    ensures var lines := NewLines(text, changes); lines != [] ==> lines[|lines| - 1] != ""
  {
    hide Read, EditLines, Appended, DropBlank, CleanPatch;
    var e := EditLines(OldLines(text), changes);
    EditHasNoBreaks(OldLines(text), changes) by { LinesHaveNoBreaks(text); }
    NoBlankAtEnd(e.out);
    AppendedIsNotBlank(e.left);
    if Appended(e.left) != [] {
      assert Appended(e.left)[|Appended(e.left)| - 1] in Appended(e.left);
    }
  }

  lemma LinesHaveNoBreaks(text: string)
    ensures forall i :: 0 <= i < |OldLines(text)| ==> '\n' !in OldLines(text)[i]
  {
  }
}
