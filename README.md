# Preset labels of the kahuna front end

This project models the kahuna preset-label service (`presetLabelService`) in Dafny. The service keeps the labels a user has saved as presets under the single `localStorage` key `'preset labels'`. The key holds the JSON text of an array of strings. The service has three public operations:

- `getLabels()` parses the stored text. It returns `null` when the key has never been written.
- `addLabels(newLabels)` loads the saved labels into an ECMAScript `Set`, adds each new label, and writes the Set back.
- `removeLabel(label)` loads the saved labels into a `Set`, deletes one label, and writes the Set back.

Both writers go through the private `setLabels`, which writes `JSON.stringify(Array.from(set))` over the key.

The model has five modules, one file each:

- `Wrappers` (`wrappers.dfy`): `Option`, which stands for JavaScript's `null`.
- `Json` (`json.dfy`): `JSON.stringify` of an array of strings, written out character by character following QuoteJSONString of ECMA-262. It also has `JSON.parse` for a text holding `null` or an array of strings, following the RFC 8259 grammar, with the proof that parsing the written text gives the array back.
- `EcmaSet` (`ecma_set.dfy`): the `Set` object of section 24.2 of ECMA-262 as the class `JsSet`. Its state is an insertion-ordered list without repeats. The module also has the functions `Insert`, `InsertAll`, `Without`, `Dedup` and `Minus` that say what `add`, a run of `add`s and `delete` leave, with the lemmas about them.
- `WebStorage` (`web_storage.dfy`): `localStorage` as the class `Storage` over a `map<string, string>` of raw texts, with `getItem` and `setItem`.
- `PresetLabel` (`preset_label.dfy`): the service as the class `PresetLabelService`, whose methods are proved to leave exactly the storage contents that the functions `AfterAddLabels`, `AfterRemoveLabel` and `WithLabels` describe. It also holds the lemmas that say what those contents are.

The service keeps the invariant `WellFormed`: the key is absent, or its text parses as `null` or as an array of strings.

The saved labels keep the order in which they were added to the Set, because an ECMAScript `Set` iterates in insertion order and `Array.from` follows that order; `PresetLabel.AddLabelsOrder` and `PresetLabel.RemoveLabelOrder` state the order.

## Model

| member | source | states |
|---|---|---|
| PresetLabel.ParseArgument | kahuna/public/js/services/preset-label.js:11 | the text `JSON.parse` reads for a storage item: a present item is its stored text, and a missing item (`getItem` gives `null`) becomes the text `null`, which parses to `null` |
| Json.Parse | kahuna/public/js/services/preset-label.js:11 | `JSON.parse` of `null` or an array of strings: an accepted text has at least two characters, and `null` at least four; with `Json.ParseStringify` it reads back every array `JSON.stringify` wrote, and with `Json.ParseNull` the text `null` is `null` |
| Json.Stringify | kahuna/public/js/services/preset-label.js:28 | `JSON.stringify` of an array of strings is a bracketed text; `Json.ParseStringify` proves `JSON.parse` gives the array back, and `Json.StringifyInjective` that different arrays give different texts |
| PresetLabel.StoredLabels | kahuna/public/js/services/preset-label.js:8-12 | what `getLabels` returns: `null` exactly when the key is absent or holds the text of `null`, otherwise the array the key's text parses to |
| PresetLabel.PresetLabelService.GetLabels | kahuna/public/js/services/preset-label.js:10-12 | `getLabels()` returns `StoredLabels` of the current storage, returns `null` when the key was never written, and modifies nothing |
| PresetLabel.PresetLabelService.AddLabels | kahuna/public/js/services/preset-label.js:14-18 | after `addLabels(newLabels)` the storage is `AfterAddLabels` of the old storage, and the invariant holds |
| PresetLabel.PresetLabelService.RemoveLabel | kahuna/public/js/services/preset-label.js:20-24 | after `removeLabel(label)` the storage is `AfterRemoveLabel` of the old storage, and the invariant holds |
| PresetLabel.PresetLabelService.SetLabels | kahuna/public/js/services/preset-label.js:26-29 | after `setLabels(set)` the storage is `WithLabels` of the old storage and the Set's elements in iteration order |
| PresetLabel.PresetLabelService.constructor | kahuna/public/js/services/preset-label.js:5-8 | the service is built over a storage whose preset-label entry is absent, `null` or an array of strings |
| PresetLabel.WithLabels | kahuna/public/js/services/preset-label.js:26-29 | writing `labels` makes `getLabels` return exactly `labels`; the key is present afterwards, and no other key is added, removed or changed |
| PresetLabel.AddedLabels | kahuna/public/js/services/preset-label.js:14-17 | the labels `addLabels` writes have no repeats and are exactly the saved labels together with the new ones |
| PresetLabel.RemainingLabels | kahuna/public/js/services/preset-label.js:20-23 | the labels `removeLabel(label)` writes have no repeats, do not contain `label`, and are exactly the saved labels other than `label` |
| PresetLabel.AfterAddLabels | kahuna/public/js/services/preset-label.js:14-18 | after `addLabels`, `getLabels` returns `AddedLabels` (never `null`); only the preset-label key is written |
| PresetLabel.AfterRemoveLabel | kahuna/public/js/services/preset-label.js:20-24 | after `removeLabel`, `getLabels` returns `RemainingLabels` (never `null`); only the preset-label key is written |
| PresetLabel.SavedLabels | kahuna/public/js/services/preset-label.js:15 | the Set built from `getLabels()` holds the first occurrences of the saved labels, and none when `getLabels()` is `null` |
| PresetLabel.AddLabelsOrder | kahuna/public/js/services/preset-label.js:15-16 | `addLabels(xs)` writes the saved labels (first occurrences, in order) followed by the labels of `xs` not saved yet, each once, in the order of their first occurrence in `xs` |
| PresetLabel.AddPresentLabels | kahuna/public/js/services/preset-label.js:15-16 | adding labels that are all in the starting Set writes back the starting Set |
| PresetLabel.AddLabelsIdempotent | kahuna/public/js/services/preset-label.js:14-18 | `addLabels(xs)` twice leaves the same storage as `addLabels(xs)` once |
| PresetLabel.RemoveLabelOrder | kahuna/public/js/services/preset-label.js:21-23 | `removeLabel(label)` takes `label` out at its one position and keeps the other saved labels in order; an absent label leaves them as they were |
| PresetLabel.RemoveAbsentLabel | kahuna/public/js/services/preset-label.js:20-24 | removing a label that is not saved, from labels the service wrote, writes back the same labels and raises no error |
| PresetLabel.NullUntilWritten | kahuna/public/js/services/preset-label.js:10-29 | on storage without the key `getLabels` is `null`; after `addLabels([])` or `removeLabel` of any label it is the empty array, not `null` |
| PresetLabel.AddToFreshStore | kahuna/public/js/services/preset-label.js:10-18 | on storage without the key, `addLabels(labels)` then `getLabels()` returns `labels` when they have no repeats |
| PresetLabel.AddThenRemove | kahuna/public/js/services/preset-label.js:10-24 | on storage without the key, `addLabels(labels)`, `removeLabel(label)`, `getLabels()` returns `labels` without `label`, in order |
| PresetLabel.AddAndRemoveScenario | kahuna/public/js/services/preset-label.js:10-24 | starting empty, adding `[a, b]` reads back `[a, b]`, and then removing `a` reads back `[b]` |
| Json.ParseStringify | kahuna/public/js/services/preset-label.js:11 | `JSON.parse(JSON.stringify(items))` is the array `items`, for every array of strings |
| Json.ParseNull | kahuna/public/js/services/preset-label.js:11 | `JSON.parse` of the text `null`, which is what a missing item becomes, is `null` |
| Json.StringifyInjective | kahuna/public/js/services/preset-label.js:28 | different arrays of labels are written as different texts |
| Json.ParseJoined | kahuna/public/js/services/preset-label.js:11 | the parser reads back each element that `JSON.stringify` wrote, up to the closing bracket |
| Json.ParseEscaped | kahuna/public/js/services/preset-label.js:11 | the parser reads back every string that `JSON.stringify` escaped, up to its closing quote |
| Json.ParseEscapeChar | kahuna/public/js/services/preset-label.js:11 | the parser reads back each character as `JSON.stringify` escapes it |
| EcmaSet.JsSet.constructor | kahuna/public/js/services/preset-label.js:15 | `new Set(iterable)` is empty for `null`, otherwise holds the first occurrences of the iterable's values in order |
| EcmaSet.JsSet.Add | kahuna/public/js/services/preset-label.js:16 | `set.add(x)` leaves the list unchanged when `x` is present, otherwise appends `x`; the Set stays without repeats |
| EcmaSet.JsSet.Delete | kahuna/public/js/services/preset-label.js:22 | `set.delete(x)` returns whether `x` was present and removes it, keeping the other values in order |
| EcmaSet.Initial | kahuna/public/js/services/preset-label.js:15 | the values of `new Set(iterable)` have no repeats and are exactly the iterable's values; a list without repeats is kept as it is |
| EcmaSet.Insert | kahuna/public/js/services/preset-label.js:16 | `set.add(x)`: afterwards `x` is a member, the members are exactly the old ones and `x`, and a list without repeats stays without repeats; `EcmaSet.InsertAllOrder` gives the order |
| EcmaSet.InsertAll | kahuna/public/js/services/preset-label.js:16 | `add` of each label of `newLabels` in turn: the members are exactly the old ones and the new labels, and a list without repeats stays without repeats; `EcmaSet.InsertAllOrder` gives the resulting order and `EcmaSet.InsertAllIdempotent` shows a second run changes nothing |
| EcmaSet.Without | kahuna/public/js/services/preset-label.js:22 | `set.delete(x)`: the members are exactly the old ones other than `x`, the list gets no longer, and a list without repeats stays without repeats; `EcmaSet.WithoutAt` gives the one position removed and `EcmaSet.WithoutAbsent` shows an absent value changes nothing |
| EcmaSet.InsertAllOrder | kahuna/public/js/services/preset-label.js:16 | adding a run of values to a list without repeats keeps the list and appends the new values once each, in order of first occurrence |
| EcmaSet.InsertAllIdempotent | kahuna/public/js/services/preset-label.js:16 | adding the same run of values a second time changes nothing |
| EcmaSet.InsertAllFromEmpty | kahuna/public/js/services/preset-label.js:15 | filling an empty Set from a list keeps the first occurrence of each value, in order |
| EcmaSet.WithoutAt | kahuna/public/js/services/preset-label.js:22 | in a list without repeats, `delete` removes exactly the one position holding the value |
| EcmaSet.WithoutAbsent | kahuna/public/js/services/preset-label.js:22 | deleting a value that is absent leaves the list as it was |
| EcmaSet.DedupNoDups | kahuna/public/js/services/preset-label.js:15 | a list without repeats is its own list of first occurrences |
| EcmaSet.Dedup | kahuna/public/js/services/preset-label.js:15 | the first occurrences of a list have no repeats and hold exactly the list's values |
| WebStorage.Storage.GetItem | kahuna/public/js/services/preset-label.js:11 | `getItem(key)` is `null` exactly when the key is absent, otherwise the stored text |
| WebStorage.Storage.SetItem | kahuna/public/js/services/preset-label.js:28 | `setItem(key, text)` stores `text` under `key` and changes no other entry |

## Left out

- The Angular module, the dependency injection of `$window` and the exported factory object (kahuna/public/js/services/preset-label.js:1-6, 31-39) are framework wiring with no behaviour of their own. `$window.localStorage` is the `storage` the service is built with.
- `localStorage` quota errors and disabled storage are left out: `setItem` always succeeds in the model.
- Stored text that is not JSON is left out; `JSON.parse` would throw on it. The invariant `WellFormed` excludes it.
- Stored JSON that is neither `null` nor an array is left out. For a number, boolean or object, `new Set(...)` throws. For a string, `new Set(...)` iterates its characters. The invariant `WellFormed` excludes these values.
- Stored arrays whose elements are not all strings are left out. `new Set(...)` accepts such an array without error, and `setLabels` writes it back. The invariant `WellFormed` excludes it, and every operation preserves the invariant.
- Labels are modelled as strings. `addLabels` and `removeLabel` take `seq<string>` and `string` arguments, while the JavaScript functions accept any values; for example `addLabels([1])` stores the text `[1]`. JSON numbers, objects, booleans and nesting are therefore not modelled.
- The model's `JSON.parse` rejects `\u` escapes of surrogate code units, and strings cannot hold lone surrogates. Dafny characters are Unicode scalar values, so UTF-16 surrogate halves cannot be represented. `JSON.stringify`, which writes lone surrogates as `\u` escapes, is modelled only for strings of scalar values.
- Two browser tabs interleaving the read and the write of `addLabels` or `removeLabel` can lose an update. This is concurrency outside a sequential model.
- The `Array.prototype.map` call at kahuna/public/js/services/preset-label.js:16 is used only to call `add` once per label in order. It is modelled as a loop over the labels, and the array it returns is discarded as in the source.
- The Set's [[SetData]] list keeps emptied slots after `delete` in ECMA-262. The model drops them, since iteration skips them.
