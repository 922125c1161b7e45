/** The store of the configuration file: its text and the values read from it (packages/server/src/config-file.ts:57-85). */
module ConfigStore {
  import opened Prelude
  import opened ConfigText
  import opened ConfigFile
  import opened ConfigProofs

  class ConfigStore {
    var text: string
    var values: map<string, string>

    /** What is handed out is what a restart would read from the file. */
    ghost predicate Valid()
      reads this
    {
      values == Parse(text)
    }

    constructor (loaded: string)
      ensures Valid() && text == loaded
    {
      text := loaded;
      new;
      values := ParseConfig(loaded);
    }

    /** A patch changes the values it names and no other, unless a key of it is repeated in the file to another effect. */
    method Patch(changes: seq<Change>) returns (merged: map<string, string>)
      requires Valid()
      modifies this
      ensures Valid() && merged == values
      ensures text == Update(old(text), changes)
      ensures CleanPatch(changes) ==> (Overridden(old(values), changes, merged) <==> Editable(old(text), changes))
    {
      if CleanPatch(changes) {
        UpdateOverridesIff(text, changes);
      }
      text := UpdateConfigText(text, changes);
      values := ParseConfig(text);
      merged := values;
    }
  }
}
