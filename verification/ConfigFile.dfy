/**
 * Reading and patching the configuration file (packages/server/src/config-file.ts:16-55, 76-84): comments and
 * unknown lines survive, existing keys are edited in place, new keys append.
 */
module ConfigFile {
  import opened Prelude
  import opened ConfigText

  // ---- Parsing ----------------------------------------------------------------------------------

  function Assign(values: map<string, string>, raw: string): map<string, string> {
    var entry := Read(raw);
    if entry.None? || entry.value.key == "" then values else values[entry.value.key := entry.value.value]
  }

  function ParseLines(lines: seq<string>): map<string, string> {
    if lines == [] then map[] else Assign(ParseLines(lines[..|lines| - 1]), lines[|lines| - 1])
  }

  function Parse(text: string): map<string, string> {
    ParseLines(Lines(text))
  }

  method ParseConfig(text: string) returns (values: map<string, string>)
    ensures values == Parse(text)
  {
    hide Trim, Find;
    var lines := Lines(text);
    values := map[];
    for i := 0 to |lines|
      invariant values == ParseLines(lines[..i])
    {
      assert lines[..i + 1][..i] == lines[..i];
      var line := Trim(lines[i]);
      if line != "" && line[0] != '#' {
        var eq := Find(line, '=');
        if eq < |line| {
          var key, value := Trim(line[..eq]), Trim(line[eq + 1..]);
          if key != "" {
            values := values[key := value];
          }
        }
      }
    }
    assert lines[..|lines|] == lines;
  }

  // ---- Patching ---------------------------------------------------------------------------------

  /** A key with its new value; none deletes the key. */
  datatype Change = Change(key: string, value: Option<string>)

  function IndexOfKey(changes: seq<Change>, key: string): (i: nat)
    ensures i <= |changes| && (i < |changes| ==> changes[i].key == key)
    ensures forall j :: 0 <= j < i ==> changes[j].key != key
  {
    if changes == [] || changes[0].key == key then 0 else 1 + IndexOfKey(changes[1..], key)
  }

  predicate HasKey(changes: seq<Change>, key: string) {
    IndexOfKey(changes, key) < |changes|
  }

  function Remove(changes: seq<Change>, i: nat): seq<Change>
    requires i < |changes|
  {
    changes[..i] + changes[i + 1..]
  }

  /** Lines written so far and changes not yet made. */
  datatype Edit = Edit(out: seq<string>, left: seq<Change>)

  function Shown(key: string, value: Option<string>): seq<string> {
    if value.Some? then [Format(key, value.value)] else []
  }

  function EditLine(e: Edit, raw: string): Edit {
    var entry := Read(raw);
    if entry.None? || !HasKey(e.left, entry.value.key) then e.(out := e.out + [raw])
    else
      var i := IndexOfKey(e.left, entry.value.key);
      Edit(e.out + Shown(e.left[i].key, e.left[i].value), Remove(e.left, i))
  }

  function EditLines(lines: seq<string>, changes: seq<Change>): Edit {
    if lines == [] then Edit([], changes)
    else EditLine(EditLines(lines[..|lines| - 1], changes), lines[|lines| - 1])
  }

  function DropBlank(lines: seq<string>): seq<string> {
    if lines != [] && lines[|lines| - 1] == "" then DropBlank(lines[..|lines| - 1]) else lines
  }

  function Appended(changes: seq<Change>): seq<string> {
    if changes == [] then []
    else Appended(changes[..|changes| - 1]) + Shown(changes[|changes| - 1].key, changes[|changes| - 1].value)
  }

  function OldLines(text: string): seq<string> {
    if text == "" then [] else Lines(text)
  }

  function NewLines(text: string, changes: seq<Change>): seq<string> {
    var e := EditLines(OldLines(text), changes);
    DropBlank(e.out) + Appended(e.left)
  }

  function Update(text: string, changes: seq<Change>): string {
    Written(NewLines(text, changes))
  }

  /** The loop over the lines: each is kept, replaced, or deleted. */
  method EditPass(lines: seq<string>, changes: seq<Change>) returns (out: seq<string>, left: seq<Change>)
    ensures Edit(out, left) == EditLines(lines, changes)
  {
    out, left := [], changes;
    for i := 0 to |lines|
      invariant Edit(out, left) == EditLines(lines[..i], changes)
    {
      assert lines[..i + 1][..i] == lines[..i];
      out, left := EditOne(out, left, lines[i]);
    }
    assert lines[..|lines|] == lines;
  }

  method EditOne(done: seq<string>, pending: seq<Change>, raw: string) returns (out: seq<string>, left: seq<Change>)
    ensures Edit(out, left) == EditLine(Edit(done, pending), raw)
  {
    hide Trim, Find, Format;
    out, left := done, pending;
    var line := Trim(raw);
    var eq := Find(line, '=');
    if line == "" || line[0] == '#' || eq == |line| || !HasKey(left, Trim(line[..eq])) {
      out := out + [raw];
    } else {
      var j := IndexOfKey(left, Trim(line[..eq]));
      if left[j].value.Some? {
        out := out + [Format(left[j].key, left[j].value.value)];
      }
      left := Remove(left, j);
    }
  }

  method PopBlanks(lines: seq<string>) returns (out: seq<string>)
    ensures out == DropBlank(lines)
  {
    out := lines;
    while out != [] && out[|out| - 1] == ""
      invariant DropBlank(out) == DropBlank(lines)
    {
      out := out[..|out| - 1];
    }
  }

  method AppendLeft(lines: seq<string>, left: seq<Change>) returns (out: seq<string>)
    ensures out == lines + Appended(left)
  {
    hide Format;
    out := lines;
    for i := 0 to |left|
      invariant out == lines + Appended(left[..i])
    {
      assert left[..i + 1][..i] == left[..i];
      Associate(lines, Appended(left[..i]), Shown(left[i].key, left[i].value));
      if left[i].value.Some? {
        out := out + [Format(left[i].key, left[i].value.value)];
      }
    }
    assert left[..|left|] == left;
  }

  method UpdateConfigText(text: string, changes: seq<Change>) returns (updated: string)
    ensures updated == Update(text, changes)
  {
    var out, left := EditPass(OldLines(text), changes);
    out := PopBlanks(out);
    out := AppendLeft(out, left);
    updated := Written(out);
  }
}
