# Clipboard Manager: a verified model of its snippet store and copy adapter

Clipboard Manager is a Decky plugin. It keeps text snippets in an ordered list,
persisted as JSON under the `localStorage` key `"clipboard-values"`, lets the
user copy a snippet to the system clipboard and delete snippets. It has two
components. The panel (`src/index.tsx`) saves, deletes, lists and copies. The
"Save a new value" modal (`src/components/AddSaveValueModal.tsx`) only saves.
Each component keeps its own in-memory cache of the list.

The model has five modules:

- `Text` (`text.dfy`) models the guard `!s.trim()`. It gives ECMAScript's set of
  trimmed code points and proves that the guard rejects exactly the strings
  made only of whitespace.
- `ValueList` (`value_list.dfy`) models the two list transforms: the spread
  append and `filter((v) => v !== value)`. It proves that the filter removes
  every occurrence, keeps order and multiplicity, is idempotent, and when an
  append followed by a delete restores the list.
- `Platform` (`platform.dfy`) models the host the components call:
  - the storage record, `Absent | Stored(list) | Malformed`;
  - `setItem`, which replaces the record or throws;
  - the toast log;
  - the number of temporary inputs attached to `document.body`;
  - the log of clipboard calls.
- `Content` (`content.dfy`) models the panel as a class. Its fields are
  `isLoading`, `inputValue` and the cache `clipboardValues`. Its methods are the
  handlers and `copyToClipboardReliable`. Three client methods run whole
  sessions on fresh objects.
- `SaveValueModal` (`save_value_modal.dfy`) models the modal as a class. Its
  fields are `isLoading`, its own cache and a count of `closeModal` calls.

Foreign outcomes are parameters of the methods that meet them:
`setItemThrows` for every storage write, `exec` (execCommand returned true,
returned false, or threw) and `writeTextResolves` for the clipboard. Every
handler runs to completion before the next one starts. A React state update is
applied at once, as it is after the re-render that follows an awaited handler.

`InSync()` says that a component's cache equals what a load would read from
storage. Every save and delete handler preserves it. A successful save or
delete followed by its reload establishes it.

## Model

| member | source | states |
|---|---|---|
| Text.TrimStartSpec | src/index.tsx:79 | `TrimStart(s)` is the suffix of the input left after dropping leading whitespace: the dropped part is all whitespace and the result does not start with whitespace. |
| Text.TrimEndSpec | src/index.tsx:79 | `TrimEnd(s)` is the prefix of the input left after dropping trailing whitespace: the dropped part is all whitespace and the result does not end with whitespace. |
| Text.BlankIffAllWhitespace | src/components/AddSaveValueModal.tsx:67 | `!s.trim()` holds exactly when every character of `s` is JS whitespace, the empty string included. |
| ValueList.RemoveAll | src/index.tsx:68 | The filtered list does not contain `value`. Any other string is in it iff it was in the input. Every other element keeps its multiplicity. The list does not grow. |
| ValueList.RemoveAllAppend | src/index.tsx:68 | Filtering distributes over concatenation, so the kept elements stay in their original order. |
| ValueList.RemoveAllAbsent | src/index.tsx:68 | Deleting a value that is not in the list writes the list back unchanged. |
| ValueList.RemoveAllIdempotent | src/index.tsx:68 | Deleting the same value twice stores the same list as deleting it once. |
| ValueList.AppendThenRemoveAll | src/index.tsx:33 | Appending `v` and then removing `v` gives back the original list iff `v` was not in it. |
| Platform.Host.SetItem | src/index.tsx:30-35 | A write either replaces the whole record with the given list and reports success, or throws and leaves the record as it was. |
| Platform.Host.Notify | src/index.tsx:40-43 | A toast is appended to the toast log. |
| Content.Panel.constructor | src/index.tsx:18-21 | The panel starts not loading, with an empty input and an empty cache. |
| Content.Panel.SetInputValue | src/index.tsx:196 | The text field's change handler sets the input to the typed text. |
| Content.Panel.SaveClipboardValue | src/index.tsx:28-47 | On success the record becomes exactly cache + [value], whatever it held before. On failure the record is unchanged and one "Failed to save value." toast is shown. The cache is not changed. |
| Content.Panel.LoadClipboardValues | src/index.tsx:49-64 | An absent record loads as []. A stored list loads as that list. A malformed record leaves the cache unchanged and shows exactly one "Failed to load saved values" toast. Storage is never written. |
| Content.Panel.DeleteClipboardValue | src/index.tsx:66-76 | On success the record becomes the cache with every occurrence of `value` removed. On failure nothing changes and no toast is shown. |
| Content.Panel.HandleSaveValue | src/index.tsx:78-102 | A blank input changes nothing at all. On success the record and the cache both become old cache + [input], the input is cleared, and no toast is shown. On failure only the save toast is added. Loading is off on exit past the guard. The cache/storage agreement is preserved. |
| Content.Panel.HandleDeleteValue | src/index.tsx:104-120 | On success the record and the cache both become the cache with `value` removed. On failure nothing changes. No toast either way. |
| Content.Panel.CopyToClipboardReliable | src/index.tsx:147-178 | The temporary input count is restored on every path, including a throw. `execCommand` copies the temporary input's value, which is the text with every LF and CR stripped; `writeText` gets the text itself. `writeText` is called iff `execCommand` returned false. The result is true when `execCommand` returned true, is `writeText`'s outcome when it returned false, and is a propagated throw when it threw. |
| Content.Panel.HandleCopyValue | src/index.tsx:122-144 | Exactly one toast: "Success" when a strategy copied the text, the "Failed to copy to clipboard" error otherwise, including when the copy threw. |
| Platform.SanitizedInputValue | src/index.tsx:150 | Setting a text input's value keeps exactly the characters other than LF and CR, each with its multiplicity. |
| Platform.SanitizedInputValueAppend | src/index.tsx:150 | Sanitization distributes over concatenation, so the kept characters stay in order. |
| Platform.SanitizedInputValueSingleLine | src/index.tsx:150 | A text without line breaks is stored in the input unchanged, so then the legacy strategy copies exactly the text. |
| Content.HandlersSaveDeleteRestore | src/index.tsx:78-120 | On any panel whose cache lacks `v`, with `v` not blank: typing `v`, `handleSaveValue` (with its reload) and `handleDeleteValue(v)` (with its reload) leave the store and the cache as the cache was at the start. |
| Content.SaveReloadDeleteRestores | src/index.tsx:91 | With `v` not in the stored list, save `v`, reload, then delete `v` leaves the stored list as it was before the save. |
| Content.HelloWorldSession | src/index.tsx:78-120 | From an empty store, add "hello", add "world", delete "hello": the cache shows ["hello"], then ["hello","world"], then ["world"]. |
| Content.DeleteEveryCopySession | src/index.tsx:104-111 | Deleting "a" from the stored list ["a","b","a"] leaves ["b"] in storage and in the cache. |
| SaveValueModal.Modal.constructor | src/components/AddSaveValueModal.tsx:12-15 | The modal starts not loading, with an empty cache and `closeModal` not yet called. |
| SaveValueModal.Modal.LoadClipboardValues | src/components/AddSaveValueModal.tsx:22-37 | An absent record loads as []. A stored list loads as that list. A malformed record leaves the cache unchanged and shows exactly one error toast. |
| SaveValueModal.Modal.SaveClipboardValue | src/components/AddSaveValueModal.tsx:39-64 | On success the record becomes exactly cache + [value]. On failure the record is unchanged and one error toast is shown. Loading is off on both paths. |
| SaveValueModal.Modal.HandleSaveValue | src/components/AddSaveValueModal.tsx:66-90 | An undefined or blank value changes nothing and does not close the modal. Otherwise `closeModal` is called exactly once and loading is off. On success the record and the cache become old cache + [value]. On failure storage and the cache are unchanged, no reload happens, and one toast is shown. |

## Left out

- JSX, styling, icons, the disabled state of the buttons and plugin registration: these are presentation. The modal's `inputValue` is only read and written by its JSX, so the modal class does not have it.
- The mount effects (`useEffect` calling `loadClipboardValues`): a client calls `LoadClipboardValues` after the constructor.
- `JSON.stringify` and `JSON.parse` are abstract. A written list is always `Stored(list)`, and unparsable text is `Malformed`. Parsed JSON that is not an array of strings is not modelled, because the code does not check it.
- `console.log` and `console.error` have no observable effect and are dropped. A `getItem` that throws is not modelled.
- The outer `catch` blocks of the two panel handlers and of the modal handler are unreachable in the model. `saveClipboardValue`, `deleteClipboardValue` and `loadClipboardValues` catch every error themselves, so those "Failed to save value" and "Failed to delete value" toasts never appear.
- Async interleaving is not modelled. This includes two un-awaited mutations, and the panel and the modal holding different stale caches at once. A save or delete writes the component's own cache plus or minus the value, whatever storage holds at that moment. That is the stale-cache behaviour, seen one step at a time.
- `Content.Panel.CopyToClipboardReliable`: `focus`, `select` and the styling of the temporary input are not modelled. Only `execCommand` is assumed to throw. The pending `writeText` promise is an outcome flag.
- Strings are sequences of Unicode scalar values, not UTF-16 code units.

## Behaviour a caller might not expect

- One might expect the copy never to throw. An error thrown by `execCommand` propagates out of `copyToClipboardReliable` (src/index.tsx:155-177); only `handleCopyValue` catches it.
- One might expect a corrupt record to load as an empty list. The source leaves the cache as it was and shows a toast (src/index.tsx:57-63).
- One might expect every failed write to be reported to the user. A failed delete shows no toast (src/index.tsx:71-75).
- One might expect deleting `v` after adding `v` always to restore the list. It does only when `v` was not already in the list, because delete removes every copy. `ValueList.AppendThenRemoveAll` proves both directions.
- One might expect the legacy strategy to copy the text as given. The text input it goes through drops line breaks, so a multi-line value is copied without them and the success toast still appears (src/index.tsx:149-161).
