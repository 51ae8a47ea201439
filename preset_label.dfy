/**
 * The preset-label service of the kahuna front end. It keeps the labels a user
 * has saved as presets under one `localStorage` key, as the JSON text of an
 * array of strings, and offers `getLabels`, `addLabels` and `removeLabel`; the
 * two writers load the array into a `Set`, change the Set, and write the whole
 * Set back through `setLabels`.
 *
 * The functions below give the storage contents each operation leaves; the
 * lemmas after them state what those contents are; the class at the end is the
 * service, whose methods are proved to leave exactly those contents.
 */
module PresetLabel {
  import opened Wrappers
  import Json
  import opened EcmaSet
  import opened WebStorage

  /** The only storage key the service reads or writes. */
  const PresetLabelsKey: string := "preset labels"

  /** The text `JSON.parse` reads for a storage item: a missing item (null) is turned into the text "null". */
  function ParseArgument(item: Option<string>): (text: string)
    ensures item.None? ==> Json.Parse(text) == Some(Json.Null)
    ensures item.Some? ==> text == item.value
  {
    if item.None? then Json.ParseNull(); "null" else item.value
  }

  /**
   * The storage contents on which `getLabels` returns: the key is absent, or it
   * holds the JSON text of null or of an array of strings.
   */
  predicate WellFormed(items: map<string, string>)
  {
    Json.Parse(ParseArgument(Lookup(items, PresetLabelsKey))).Some?
  }

  /** What `getLabels` returns: None stands for `null`. */
  function StoredLabels(items: map<string, string>): (labels: Option<seq<Label>>)
    requires WellFormed(items)
    ensures PresetLabelsKey !in items ==> labels == None
    ensures labels.None? <==> PresetLabelsKey !in items || Json.Parse(items[PresetLabelsKey]) == Some(Json.Null)
    ensures labels.Some? ==> PresetLabelsKey in items && Json.Parse(items[PresetLabelsKey]) == Some(Json.StringArray(labels.value))
  {
    Json.ParseNull();
    var parsed := Json.Parse(ParseArgument(Lookup(items, PresetLabelsKey)));
    if parsed.Some? && parsed.value.StringArray? then Some(parsed.value.items) else None
  }

  /** The saved labels as a list, empty when `getLabels` returns `null`. */
  function SavedLabels(items: map<string, string>): (saved: seq<Label>)
    requires WellFormed(items)
    ensures Initial(StoredLabels(items)) == Dedup(saved)
  {
    var labels := StoredLabels(items);
    if labels.None? then [] else labels.value
  }

  /** The labels `addLabels(newLabels)` writes back. */
  function AddedLabels(items: map<string, string>, newLabels: seq<Label>): (r: seq<Label>)
    requires WellFormed(items)
    ensures NoDups(r)
    ensures forall y :: y in r <==> y in SavedLabels(items) || y in newLabels
  {
    InsertAll(Initial(StoredLabels(items)), newLabels)
  }

  /** The labels `removeLabel(target)` writes back. */
  function RemainingLabels(items: map<string, string>, target: Label): (r: seq<Label>)
    requires WellFormed(items)
    ensures NoDups(r)
    ensures target !in r
    ensures forall y :: y in r <==> y in SavedLabels(items) && y != target
  {
    Without(Initial(StoredLabels(items)), target)
  }

  /** The storage contents after `setLabels` writes `labels`. */
  function WithLabels(items: map<string, string>, labels: seq<Label>): (r: map<string, string>)
    ensures WellFormed(r)
    ensures StoredLabels(r) == Some(labels)
    ensures r.Keys == items.Keys + {PresetLabelsKey}
    ensures forall k :: k in items && k != PresetLabelsKey ==> r[k] == items[k]
  {
    var text := Json.Stringify(labels);
    var r := items[PresetLabelsKey := text];
    Json.ParseStringify(labels);
    assert ParseArgument(Lookup(r, PresetLabelsKey)) == text;
    r
  }

  /** The storage contents after `addLabels(newLabels)`. */
  function AfterAddLabels(items: map<string, string>, newLabels: seq<Label>): (r: map<string, string>)
    requires WellFormed(items)
    ensures WellFormed(r)
    ensures StoredLabels(r) == Some(AddedLabels(items, newLabels))
    ensures r.Keys == items.Keys + {PresetLabelsKey}
    ensures forall k :: k in items && k != PresetLabelsKey ==> r[k] == items[k]
  {
    WithLabels(items, AddedLabels(items, newLabels))
  }

  /** The storage contents after `removeLabel(target)`. */
  function AfterRemoveLabel(items: map<string, string>, target: Label): (r: map<string, string>)
    requires WellFormed(items)
    ensures WellFormed(r)
    ensures StoredLabels(r) == Some(RemainingLabels(items, target))
    ensures r.Keys == items.Keys + {PresetLabelsKey}
    ensures forall k :: k in items && k != PresetLabelsKey ==> r[k] == items[k]
  {
    WithLabels(items, RemainingLabels(items, target))
  }

  // ---------------------------------------------------------------------------
  // What the operations do to the saved labels
  // ---------------------------------------------------------------------------

  /**
   * `addLabels(newLabels)` keeps the saved labels (their first occurrences, in
   * order) and appends the new labels not saved yet, each once, in the order
   * of their first occurrence in `newLabels`.
   */
  lemma AddLabelsOrder(items: map<string, string>, newLabels: seq<Label>)
    requires WellFormed(items)
    ensures AddedLabels(items, newLabels)
         == Dedup(SavedLabels(items)) + Dedup(Minus(newLabels, SavedLabels(items)))
  {
    var saved := SavedLabels(items);
    InsertAllOrder(Dedup(saved), newLabels);
    MinusSameElements(newLabels, Dedup(saved), saved);
  }

  /** Labels the service wrote itself come back unchanged as the starting Set. */
  lemma SavedByService(items: map<string, string>, labels: seq<Label>)
    requires NoDups(labels)
    ensures Initial(StoredLabels(WithLabels(items, labels))) == labels
  {
  }

  /** Adding labels that are all in the starting Set writes back the starting Set. */
  lemma AddPresentLabels(items: map<string, string>, labels: seq<Label>, newLabels: seq<Label>)
    requires WellFormed(items) && Initial(StoredLabels(items)) == labels
    requires forall y :: y in newLabels ==> y in labels
    ensures AddedLabels(items, newLabels) == labels
  {
    InsertAllPresent(labels, newLabels);
  }

  /** Writing the text a key already holds leaves storage as it was. */
  lemma RewriteUnchanged(items: map<string, string>, labels: seq<Label>)
    requires PresetLabelsKey in items && items[PresetLabelsKey] == Json.Stringify(labels)
    ensures WithLabels(items, labels) == items
  {
  }

  /** A second `addLabels` of the same labels leaves storage as the first one left it. */
  lemma AddLabelsIdempotent(items: map<string, string>, newLabels: seq<Label>)
    requires WellFormed(items)
    ensures AfterAddLabels(AfterAddLabels(items, newLabels), newLabels) == AfterAddLabels(items, newLabels)
  {
    var added := AddedLabels(items, newLabels);
    var once := WithLabels(items, added);
    SavedByService(items, added);
    InsertAllIdempotent(Initial(StoredLabels(items)), newLabels);
    assert AddedLabels(once, newLabels) == added;
    RewriteUnchanged(once, added);
  }

  /**
   * `removeLabel(target)` takes `target` out of the saved labels (their first
   * occurrences) at its one position and keeps the rest in order; a label that
   * was not saved leaves them as they were.
   */
  lemma RemoveLabelOrder(items: map<string, string>, target: Label)
    requires WellFormed(items)
    ensures target !in SavedLabels(items) ==> RemainingLabels(items, target) == Dedup(SavedLabels(items))
    ensures forall i :: 0 <= i < |Dedup(SavedLabels(items))| && Dedup(SavedLabels(items))[i] == target ==>
              RemainingLabels(items, target) == Dedup(SavedLabels(items))[..i] + Dedup(SavedLabels(items))[i + 1..]
  {
    var d := Dedup(SavedLabels(items));
    if target !in SavedLabels(items) {
      WithoutAbsent(d, target);
    }
    forall i | 0 <= i < |d| && d[i] == target
      ensures Without(d, target) == d[..i] + d[i + 1..]
    {
      WithoutAt(d, i);
    }
  }

  /** Removing a label that is not saved, from labels the service wrote, rewrites the same labels. */
  lemma RemoveAbsentLabel(items: map<string, string>, labels: seq<Label>, target: Label)
    requires NoDups(labels) && target !in labels
    ensures StoredLabels(AfterRemoveLabel(WithLabels(items, labels), target)) == Some(labels)
  {
    SavedByService(items, labels);
    WithoutAbsent(labels, target);
  }

  /**
   * Before the first write `getLabels` returns `null`; after any `addLabels`
   * or `removeLabel`, even of nothing, it returns a list, if only an empty one.
   */
  lemma NullUntilWritten(items: map<string, string>, target: Label)
    requires PresetLabelsKey !in items
    ensures WellFormed(items) && StoredLabels(items) == None
    ensures StoredLabels(AfterAddLabels(items, [])) == Some([])
    ensures StoredLabels(AfterRemoveLabel(items, target)) == Some([])
  {
    Json.ParseNull();
  }

  /** On an empty store, `addLabels(labels)` then `getLabels()` gives `labels` back when they have no repeats. */
  lemma AddToFreshStore(items: map<string, string>, labels: seq<Label>)
    requires PresetLabelsKey !in items && NoDups(labels)
    ensures WellFormed(items)
    ensures StoredLabels(AfterAddLabels(items, labels)) == Some(labels)
  {
    Json.ParseNull();
    InsertAllFromEmpty(labels);
    DedupNoDups(labels);
  }

  /** On an empty store, `addLabels(labels)`, `removeLabel(target)`, `getLabels()` gives `labels` without `target`. */
  lemma AddThenRemove(items: map<string, string>, labels: seq<Label>, target: Label)
    requires PresetLabelsKey !in items && NoDups(labels)
    ensures WellFormed(items)
    ensures StoredLabels(AfterRemoveLabel(AfterAddLabels(items, labels), target)) == Some(Without(labels, target))
  {
    AddToFreshStore(items, labels);
    DedupNoDups(labels);
  }

  /** Start empty, add `[a, b]`, read them back, remove `a`, read back `[b]`. */
  lemma AddAndRemoveScenario(items: map<string, string>, a: Label, b: Label)
    requires PresetLabelsKey !in items && a != b
    ensures WellFormed(items)
    ensures StoredLabels(AfterAddLabels(items, [a, b])) == Some([a, b])
    ensures StoredLabels(AfterRemoveLabel(AfterAddLabels(items, [a, b]), a)) == Some([b])
  {
    var ab := [a, b];
    assert NoDups(ab);
    AddToFreshStore(items, ab);
    AddThenRemove(items, ab, a);
    assert Without(ab, a) == [b] by {
      assert ab[1..] == [b];
      WithoutAbsent([b], a);
    }
  }

  // ---------------------------------------------------------------------------
  // The service
  // ---------------------------------------------------------------------------

  class PresetLabelService {
    /** `$window.localStorage`. */
    const storage: Storage

    constructor (storage: Storage)
      requires WellFormed(storage.items)
      ensures this.storage == storage
      ensures Valid()
    {
      this.storage := storage;
    }

    ghost predicate Valid()
      reads this, storage
    {
      WellFormed(storage.items)
    }

    /** `getLabels()`: the parsed array, or None for `null`; reads storage and changes nothing. */
    method GetLabels() returns (labels: Option<seq<Label>>)
      requires Valid()
      ensures PresetLabelsKey !in storage.items ==> labels.None?
      ensures labels == StoredLabels(storage.items)
    {
      var item := storage.GetItem(PresetLabelsKey);
      assert item == Lookup(storage.items, PresetLabelsKey);
      var parsed := Json.Parse(ParseArgument(item));
      match parsed {
        case Some(value) =>
          labels := if value.StringArray? then Some(value.items) else None;
        case None =>
          assert false;
      }
    }

    /** `addLabels(newLabels)`: add each new label to a Set of the saved ones and write the Set back. */
    method AddLabels(newLabels: seq<Label>)
      requires Valid()
      modifies storage
      ensures Valid()
      ensures storage.items == AfterAddLabels(old(storage.items), newLabels)
    {
      ghost var before := storage.items;
      var current := GetLabels();
      var labels := new JsSet(current);
      ghost var start := Initial(current);
      for i := 0 to |newLabels|
        invariant labels.Valid()
        invariant labels.elements == InsertAll(start, newLabels[..i])
        invariant storage.items == before
      {
        InsertAllStep(start, newLabels, i);
        labels.Add(newLabels[i]);
      }
      assert newLabels[..|newLabels|] == newLabels;
      assert labels.elements == AddedLabels(before, newLabels);
      SetLabels(labels);
    }

    /** `removeLabel(target)`: delete the label from a Set of the saved ones and write the Set back. */
    method RemoveLabel(target: Label)
      requires Valid()
      modifies storage
      ensures Valid()
      ensures storage.items == AfterRemoveLabel(old(storage.items), target)
    {
      var current := GetLabels();
      var labels := new JsSet(current);
      var found := labels.Delete(target);
      SetLabels(labels);
    }

    /** `setLabels(updatedLabels)`: `Array.from` of the Set, as JSON, over the one key. */
    method SetLabels(updatedLabels: JsSet)
      modifies storage
      ensures Valid()
      ensures storage.items == WithLabels(old(storage.items), updatedLabels.elements)
    {
      var labels := updatedLabels.elements;
      storage.SetItem(PresetLabelsKey, Json.Stringify(labels));
      Json.ParseStringify(labels);
    }
  }

}
