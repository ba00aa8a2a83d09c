/** The list-editing rule shared by the tag inputs of the project and video
    upload forms and by the skill input of the profile page: the text typed so
    far is trimmed, added at the end only when it is non-blank and not already
    listed, and the input box is cleared only when the entry was added.
    Removal drops every occurrence of the entry. */
module FormLists {
  import opened JsString

  /** The new list together with the new contents of the input box. */
  datatype ListEdit = ListEdit(entries: seq<string>, input: string)

  /** `addTag` / `addSkill`. */
  function AddEntry(entries: seq<string>, input: string): (r: ListEdit)
    ensures r.entries == entries || r.entries == entries + [Trim(input)]
    ensures r.entries != entries <==> Trim(input) != [] && Trim(input) !in entries
    ensures r.input == if r.entries == entries then input else ""
  {
    var t := Trim(input);
    if Truthy(t) && t !in entries then ListEdit(entries + [t], "") else ListEdit(entries, input)
  }

  /** `removeTag` / `removeSkill`: every occurrence goes, the rest keep their order. */
  function RemoveEntry(entries: seq<string>, entry: string): (r: seq<string>)
    ensures entry !in r
    ensures multiset(r) == multiset(entries)[entry := 0]
  {
    RemoveAll(entries, entry)
  }

  /** The invariant the two edits keep: no entry twice, none blank or padded. */
  predicate CleanEntries(entries: seq<string>)
  {
    NoDuplicates(entries) && forall i :: 0 <= i < |entries| ==> entries[i] != [] && Trim(entries[i]) == entries[i]
  }

  lemma AddEntryKeepsClean(entries: seq<string>, input: string)
    requires CleanEntries(entries)
    ensures CleanEntries(AddEntry(entries, input).entries)
  {
    var t := Trim(input);
    if t != [] && t !in entries {
      TrimIdempotent(input);
      var r := entries + [t];
      forall i, j | 0 <= i < j < |r| ensures r[i] != r[j] {
        if j == |entries| {
          assert r[i] == entries[i];
        }
      }
    }
  }

  lemma RemoveEntryKeepsClean(entries: seq<string>, entry: string)
    requires CleanEntries(entries)
    ensures CleanEntries(RemoveEntry(entries, entry))
  {
    var r := RemoveEntry(entries, entry);
    RemoveAllKeepsNoDuplicates(entries, entry);
    forall i | 0 <= i < |r| ensures r[i] != [] && Trim(r[i]) == r[i] {
      assert r[i] in multiset(r);
      assert r[i] in multiset(entries);
      var k :| 0 <= k < |entries| && entries[k] == r[i];
    }
  }

  /** Removing the entry just added restores the list. */
  lemma RemoveUndoesAdd(entries: seq<string>, input: string)
    requires AddEntry(entries, input).entries != entries
    ensures RemoveEntry(AddEntry(entries, input).entries, Trim(input)) == entries
  {
    var t := Trim(input);
    RemoveAllAppend(entries, [t], t);
    assert RemoveAll([t], t) == [];
  }

  /** Adding the same text twice changes the list at most once. */
  lemma AddEntryTwice(entries: seq<string>, input: string)
    ensures AddEntry(AddEntry(entries, input).entries, input).entries == AddEntry(entries, input).entries
  {
  }

  /** No length cap: a new entry is accepted however long the list already is. */
  lemma AddEntryUncapped(entries: seq<string>, input: string)
    requires Trim(input) != [] && Trim(input) !in entries
    ensures |AddEntry(entries, input).entries| == |entries| + 1
  {
  }
}
