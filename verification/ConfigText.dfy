/** Text handling of the configuration file: trimming, lines, and `key = value` (packages/server/src/config-file.ts:16-28). */
module ConfigText {
  import opened Prelude

  // ---- Trimming ---------------------------------------------------------------------------------

  /** White space and line ends as the JavaScript standard lists them for `trim` (ECMA-262, section 22.1.3.32). */
  predicate IsSpace(c: char) {
    var n := c as int;
    || 0x09 <= n <= 0x0d || n == 0x20 || n == 0xa0 || n == 0x1680 || 0x2000 <= n <= 0x200a
    || n == 0x2028 || n == 0x2029 || n == 0x202f || n == 0x205f || n == 0x3000 || n == 0xfeff
  }

  function TrimLeft(s: string): string {
    if s != "" && IsSpace(s[0]) then TrimLeft(s[1..]) else s
  }

  function TrimRight(s: string): string {
    if s != "" && IsSpace(s[|s| - 1]) then TrimRight(s[..|s| - 1]) else s
  }

  function Trim(s: string): string {
    TrimRight(TrimLeft(s))
  }

  predicate IsTrimmed(s: string) {
    s != "" ==> !IsSpace(s[0]) && !IsSpace(s[|s| - 1])
  }

  lemma TrimmedStays(s: string)
    requires IsTrimmed(s)
    ensures Trim(s) == s && TrimLeft(s) == s && TrimRight(s) == s
  {
  }

  // ---- Lines ------------------------------------------------------------------------------------

  function Find(s: string, c: char): (i: nat)
    ensures i <= |s| && (i < |s| ==> s[i] == c)
    ensures forall j :: 0 <= j < i ==> s[j] != c
  {
    if s == "" || s[0] == c then 0 else 1 + Find(s[1..], c)
  }

  function Lines(text: string): (lines: seq<string>)
    ensures |lines| > 0
    ensures forall i :: 0 <= i < |lines| ==> '\n' !in lines[i]
    decreases |text|
  {
    var i := Find(text, '\n');
    if i == |text| then [text] else [text[..i]] + Lines(text[i + 1..])
  }

  /** The lines put together again, each with its line end. */
  function Written(lines: seq<string>): string {
    if lines == [] then "" else lines[0] + "\n" + Written(lines[1..])
  }

  lemma FindBreak(line: string, rest: string)
    requires '\n' !in line
    ensures Find(line + "\n" + rest, '\n') == |line|
  {
    var s := line + "\n" + rest;
    assert s[|line|] == '\n';
    assert forall j :: 0 <= j < |line| ==> s[j] == line[j];
  }

  lemma LinesOfWritten(line: string, rest: string)
    requires '\n' !in line
    ensures Lines(line + "\n" + rest) == [line] + Lines(rest)
  {
    FindBreak(line, rest);
    var text := line + "\n" + rest;
    assert text[..|line|] == line && text[|line| + 1..] == rest;
  }

  lemma {:induction false} WrittenReadsBack(lines: seq<string>)
    requires forall i :: 0 <= i < |lines| ==> '\n' !in lines[i]
    ensures Lines(Written(lines)) == lines + [""]
  {
    hide Lines;
    if lines == [] {
      EmptyIsOneLine();
    } else {
      LinesOfWritten(lines[0], Written(lines[1..]));
      WrittenReadsBack(lines[1..]);
      assert [lines[0]] + lines[1..] == lines;
      Associate([lines[0]], lines[1..], [""]);
    }
  }

  lemma EmptyIsOneLine()
    ensures Lines("") == [""]
  {
  }

  // ---- Entries ----------------------------------------------------------------------------------

  datatype Entry = Entry(key: string, value: string)

  /** What a line says: nothing for blanks, comments and lines without an equals sign. */
  function Read(raw: string): Option<Entry> {
    var line := Trim(raw);
    var eq := Find(line, '=');
    if line == "" || line[0] == '#' || eq == |line| then None
    else Some(Entry(Trim(line[..eq]), Trim(line[eq + 1..])))
  }

  predicate Says(raw: string, key: string) {
    Read(raw).Some? && Read(raw).value.key == key
  }

  function Format(key: string, value: string): string {
    key + " = " + value
  }

  predicate CleanKey(key: string) {
    key != "" && IsTrimmed(key) && key[0] != '#' && '=' !in key && '\n' !in key
  }

  predicate CleanValue(value: string) {
    IsTrimmed(value) && '\n' !in value
  }

  lemma FindEquals(key: string, rest: string)
    requires '=' !in key
    ensures Find(key + " =" + rest, '=') == |key| + 1
  {
    var s := key + " =" + rest;
    assert s[|key|] == ' ' && s[|key| + 1] == '=';
    assert forall j :: 0 <= j < |key| ==> s[j] == key[j];
  }

  lemma TrimOneRight(s: string)
    requires IsTrimmed(s)
    ensures Trim(s + " ") == s
  {
    var t := s + " ";
    assert t[..|s|] == s && t[|s|] == ' ';
    TrimmedStays(s);
    if s == "" {
      assert t[1..] == "";
      assert TrimLeft(t) == "";
    } else {
      assert t[0] == s[0];
      assert TrimLeft(t) == t;
    }
  }

  lemma TrimOneLeft(s: string)
    requires IsTrimmed(s)
    ensures Trim(" " + s) == s
  {
    var t := " " + s;
    assert t[1..] == s && t[0] == ' ';
    TrimmedStays(s);
    assert TrimLeft(t) == TrimLeft(s);
  }

  /** A clean entry is read back as it was written, the empty value included. */
  lemma FormatReadsBack(key: string, value: string)
    requires CleanKey(key) && CleanValue(value)
    ensures Read(Format(key, value)) == Some(Entry(key, value))
    ensures '\n' !in Format(key, value) && Format(key, value) != ""
  {
    var tail := if value == "" then "" else " " + value;
    FormatTrims(key, value, tail);
    EntryParts(key, value, tail);
  }

  lemma FormatTrims(key: string, value: string, tail: string)
    requires CleanKey(key) && CleanValue(value)
    requires tail == if value == "" then "" else " " + value
    ensures Trim(Format(key, value)) == key + " =" + tail
  {
    var raw := Format(key, value);
    var line := key + " =" + tail;
    assert line[0] == key[0] && !IsSpace(line[|line| - 1]);
    if value == "" {
      assert raw == line + " ";
      TrimOneRight(line);
    } else {
      assert raw == line;
      TrimmedStays(line);
    }
  }

  lemma EntryParts(key: string, value: string, tail: string)
    requires CleanKey(key) && CleanValue(value)
    requires tail == if value == "" then "" else " " + value
    ensures
      var line := key + " =" + tail;
      var eq := Find(line, '=');
      eq == |key| + 1 && Trim(line[..eq]) == key && Trim(line[eq + 1..]) == value
  {
    hide Trim, Find;
    FindEquals(key, tail);
    var line := key + " =" + tail;
    assert line[..|key| + 1] == key + " " && line[|key| + 2..] == tail;
    TrimOneRight(key);
    TrimOneLeft(value);
    if value == "" {
      TrimmedStays("");
    }
  }
}
