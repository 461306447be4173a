# Swift-Note: a verified model of the note store and its view

Swift-Note is a single-page note widget. Its logic lives in `script.js`.
The browser-facing parts of that file are DOM glue and `localStorage`
persistence. Between them sit two pieces of logic, and this project models
both in Dafny:

- **The note store** (`notes.dfy`, module `Notes`). The `app` object holds
  the notes array and the view filters, modelled as class `Notes.App`.
  - `onSaveNote` normalises the editor form: the title is trimmed, or
    "Untitled" when blank; the tags are split on commas, trimmed, and empty
    ones dropped. It then either replaces the note with the same id, at its
    index and keeping its `completed` flag, or prepends the new note.
  - `onDeleteNote` filters the notes by id.
  - `toggleComplete` flips one note's `completed` flag and stamps it.

  Each of these methods is specified by a pure function over the notes
  sequence (`Upsert`, `Remove`, `Toggle`). The properties are proved as
  lemmas about those functions. The methods preserve unique ids and
  well-formed notes.
- **The view projection** (`view.dfy`, module `View`). This is the part of
  `render` that derives what is shown:
  - the search, completed, priority and tag filters, applied in the source's
    order;
  - the in-place sort under `updated_desc`, `due_asc` or `priority_desc`;
  - the completed count over all notes and the visible count;
  - the tag-frequency table, built by nested loops, with its keys sorted.

  `View.Project` gathers these into one method over `(notes, filters)`.

Two supporting modules model the JavaScript built-ins the logic relies on:

- `Seqs` (`seqs.dfy`): `Array.prototype.filter`, and an in-place array sort
  specified as "ordered neighbours and a permutation".
- `Text` (`text.dfy`): `trim`, `split`, `join`, ASCII `toLowerCase`,
  `includes`, and JavaScript's ordering on strings.

`tag_table.dfy` (module `TagTableAsWritten`) models the plain-object tag
table exactly as the source writes it. It backs the finding below.

Timestamps are integers passed in as `now`. The id that `uid()` would
generate is passed in as `freshId`.

Three behaviours of the code are worth stating plainly:

- Saving a form whose id is not stored prepends the note. There is no
  not-found result (`Notes.Upsert`).
- Toggling a missing id does nothing (`Notes.Toggle`).
- Tags are a list that keeps duplicates. Each duplicate is counted in the
  tag table.

## Model

| member | source | states |
|---|---|---|
| Notes.NormalizeTitle | script.js:115 | the stored title is never empty and has no surrounding whitespace; it is the trimmed input when that is non-empty, and "Untitled" otherwise |
| Notes.NormalizeTags | script.js:119 | every stored tag is non-empty, trimmed and comma-free, and is the trim of one comma-separated piece of the input; every piece that is not blank after trimming is stored; the tags are a subsequence of the trimmed pieces, so input order is kept, and each non-empty trimmed piece appears exactly as often as in the input |
| Notes.BuildNote | script.js:112-122 | the new note takes the form's id, or the fresh id when the form has none; its title, body and tags are normalised; an empty due date becomes None; it is not completed and is stamped `now`; the result is well-formed |
| Notes.TagsRoundTrip | script.js:101 | joining stored tags with ", " (as the editor shows them) and normalising that text again gives back exactly the same tags |
| Notes.EditRoundTrip | script.js:96-101 | opening a well-formed note in the editor and submitting the form unchanged builds the same note, except that it is not completed and is stamped with the new time |
| Notes.FindIndex | script.js:124 | the result is the first index holding the id, or -1 exactly when no note has that id |
| Notes.Upsert | script.js:124-131 | a present id is replaced at its first index and keeps the old `completed` flag, so the length is unchanged and every other index is unchanged, including later notes with the same id; an absent id is prepended at index 0 and the old notes follow unchanged, so the length grows by one; the notes with other ids are the same notes in the same order |
| Notes.UpsertAt | script.js:124-128 | with unique ids, saving a note whose id is at index i changes index i and nothing else |
| Notes.UpsertKeepsIdsUnique | script.js:124-131 | saving keeps ids unique |
| Notes.UpsertKeepsWellFormed | script.js:113-131 | saving a normalised note keeps every stored note well-formed |
| Notes.SaveUnchangedNote | script.js:110-131 | saving a stored note's unchanged editor form only refreshes its `updatedAt`; its `completed` flag is kept |
| Notes.Remove | script.js:138-141 | an empty form id changes nothing; otherwise no note with that id is left, every note with another id is kept, and nothing new appears |
| Notes.RemoveIsSubsequence | script.js:141 | deleting leaves a subsequence of the notes, and every kept note appears as often as before |
| Notes.RemoveUnique | script.js:141 | with unique ids, deleting a present id removes exactly the one note at its index |
| Notes.FilterKeepsIdsUnique | script.js:141 | deleting keeps ids unique |
| Notes.Toggle | script.js:147-151 | a missing id changes nothing; otherwise only the first note with that id changes, with `completed` negated and `updatedAt` set to `now` |
| Notes.ToggleTwice | script.js:150-151 | toggling the same id twice restores every `completed` flag; only that note's `updatedAt` moves on |
| Notes.ToggleKeepsInvariants | script.js:147-151 | toggling keeps ids unique and notes well-formed |
| Notes.App.constructor | script.js:17-27 | the state starts with the loaded notes and the default filters: show completed, priority "all", no tag, empty search, `updated_desc` |
| Notes.App.SaveNote | script.js:110-131 | the notes become `Upsert` of the old notes with the normalised form; the filters are unchanged; unique ids and well-formedness are preserved |
| Notes.App.DeleteNote | script.js:138-141 | the notes become `Remove` of the old notes with the form id; the filters are unchanged; unique ids and well-formedness are preserved |
| Notes.App.ToggleComplete | script.js:147-151 | the notes become `Toggle` of the old notes; the filters are unchanged; unique ids and well-formedness are preserved |
| Notes.App.SetShowCompleted | script.js:68 | only `showCompleted` changes, to the checkbox value |
| Notes.App.SetSort | script.js:70 | only the sort key changes |
| Notes.App.SetSearch | script.js:71 | only the search query changes, to the trimmed input, which has no surrounding whitespace |
| Notes.App.ClearSearch | script.js:72 | only the search query changes, to empty |
| Notes.App.SetPriorityFilter | script.js:79 | only the priority filter changes |
| Notes.App.SelectTag | script.js:209 | only the tag filter changes, to the clicked tag |
| Text.Trim | script.js:115-116 | the result has no whitespace at either end and is no longer than the input |
| Text.TrimIsSlice | script.js:115-116 | trimming removes only leading and trailing whitespace: the result is a contiguous slice of the input, with only whitespace before and after it |
| Text.Split | script.js:119 | splitting gives at least one piece, and no piece contains the separator |
| Text.JoinSplit | script.js:119 | joining the pieces of a split with the separator restores the input |
| Text.SplitJoin | script.js:119 | splitting a join of separator-free pieces gives back the pieces |
| Text.Lower | script.js:168-169 | lower-casing keeps the length, maps A-Z to a-z and leaves every other character alone |
| Text.LowerIdempotent | script.js:168-169 | lower-casing twice is lower-casing once |
| Text.ContainsOccurs | script.js:169 | `includes` holds exactly when the query occurs at some position of the text |
| Text.LexLeTotal | script.js:191 | any two strings are ordered one way or the other |
| Text.LexLeTransitive | script.js:191 | string order is transitive |
| Text.LexLeAntisymmetric | script.js:205 | two strings ordered both ways are equal |
| Seqs.Filter | script.js:141 | the filtered list is no longer than its input, and holds only input elements that satisfy the predicate |
| Seqs.FilterMultiset | script.js:164-185 | filtering keeps every occurrence of an element that passes and none of one that fails |
| Seqs.SortInPlace | script.js:189-194 | after the in-place sort no neighbouring pair is out of order, and the array is a permutation of what it held |
| View.FilteredIsVisible | script.js:164-185 | the four filter stages, applied in the source's order, keep exactly the notes that pass every active filter, in stored order |
| View.FilteredExactly | script.js:164-185 | the filtered list is a subsequence of the notes; every item passes every active filter; each visible note appears as often as it is stored, and hidden notes not at all |
| View.SearchIgnoresCase | script.js:167-169 | a query and its lower-cased form select the same notes; a note matches exactly when the lower-cased query occurs in its lower-cased title, body and tags |
| View.OrderTotal | script.js:188-194 | each of the three comparators orders every pair of notes one way or the other |
| View.OrderTransitive | script.js:188-194 | each of the three comparators is transitive |
| View.SortedByKey | script.js:188-195 | once sorted, any earlier item precedes any later one: `updatedAt` never increases under `updated_desc`, the due key never decreases under `due_asc`, and the rank never increases under `priority_desc` |
| View.UndatedFirst | script.js:190-191 | under `due_asc`, every item before an undated note is undated too, so undated notes come first |
| View.TwoNotesOrder | script.js:188-194 | for an older high-priority note A and a newer low-priority note B, `updated_desc` shows [B, A] and `priority_desc` shows [A, B] |
| View.CompletedPlusOpen | script.js:198 | completed and open notes together account for every note |
| View.HiddenButCounted | script.js:173-198 | with completed notes hidden, a completed note is missing from the list but still counted as completed |
| View.OccurrencesPositive | script.js:203 | a tag has a positive count exactly when some note carries it |
| View.AddTags | script.js:203 | the inner loop adds one to a tag's count for each occurrence of the tag in the note, and leaves every count positive |
| View.TagCounts | script.js:202-203 | the table has a key exactly for the tags used by some note (over all notes, not only the shown ones), and each count is that tag's number of occurrences; this is the corrected table, which differs from the source for tags named after `Object.prototype` members (see Findings) |
| View.SortedTagKeys | script.js:205 | the keys list each table key exactly once (same members, same number) in ascending string order; neighbouring keys differ, and the later one never precedes the earlier |
| View.StrictlyAscending | script.js:205 | sorted keys that list the members of a set once each are strictly ascending |
| Seqs.NoRepeats | script.js:205 | a list holding exactly the members of a set, with as many entries as the set has members, has no repeated entry |
| View.Project | script.js:162-205 | the items are a permutation of the filtered notes, ordered by the selected sort key, and left in filter order for an unrecognised key; the completed count is over all notes; the visible count is the number of items; the tag table and its sorted keys are as above, with no key repeated; this is the corrected table, which differs from the source for tags named after `Object.prototype` members (see Findings) |
| Notes.FormOf | script.js:96-101 | definition: the form `openEditor` fills in for a stored note, with an empty due field for no date and the tags joined with ", " |
| Text.Join | script.js:101 | definition: `join`, the pieces with the separator between neighbours, and "" for no pieces |
| Text.Contains | script.js:169 | definition: `includes`, the query is a prefix of the text or of one of its suffixes |
| Text.LexLe | script.js:191 | definition: JavaScript's string order, character by character, with a proper prefix first |
| View.SearchText | script.js:169 | definition: the title, the body and the tags joined with spaces, separated by single spaces |
| View.MatchesSearch | script.js:168-169 | definition: the lower-cased query occurs in the lower-cased search text |
| View.Filtered | script.js:164-185 | definition: the four filter stages in the source's order, each applied only when its filter is active |
| View.ParseSort | script.js:188-195 | definition: the three sort values the switch recognises; any other value sorts nothing |
| View.Rank | script.js:193-194 | definition: high 3, medium 2, low 1, and 0 for any other priority |
| View.DueKey | script.js:191 | definition: the due date, or "" when there is none |
| View.InOrder | script.js:188-194 | definition: when one note may come before another under each sort key (newer first, earlier due key first, higher rank first) |
| TagTableAsWritten.Lookup | script.js:203 | definition: reading `tagCounts[t]` on `{}`, an own entry first, else the built-in method or the prototype object it inherits |
| TagTableAsWritten.OrZeroPlusOne | script.js:203 | definition: `(v || 0) + 1`, a number for a falsy value or a number, text concatenation for anything else |
| TagTableAsWritten.Store | script.js:203 | definition: writing `tagCounts[t]`, ignored for "__proto__" since the value is not an object |
| TagTableAsWritten.BumpAll | script.js:203 | definition: the inner `forEach` over one note's tags |
| TagTableAsWritten.Counts | script.js:202-203 | definition: the outer `forEach` over all notes, starting from `{}` |
| TagTableAsWritten.BumpAllCounts | script.js:203 | on the plain-object table, when no tag is a built-in name of `Object.prototype`, the inner loop adds one per occurrence |
| TagTableAsWritten.CountsAgree | script.js:202-203 | when no tag is a built-in name of `Object.prototype`, the plain-object table holds exactly the correct counts |
| TagTableAsWritten.PrototypeTagsMiscounted | script.js:202-203 | a note tagged "constructor" and "__proto__" gets a text count for the first tag ("function Object() { [native code] }1" as V8 prints it; the layout of that text depends on the engine), and the second tag is missing from the table |

## Left out

- DOM access, event wiring, the editor modal, card templating and the meta line. These are presentation only. `editNote`'s lookup by id is covered by `Notes.FindIndex` and `Notes.FormOf`.
- `save`/`load` and `localStorage`. These are I/O. The constructor takes the loaded notes as a parameter. The extra `save()` at the end of `render` has no effect on the model.
- `uid()`. It uses the clock and randomness. The id is the `freshId` parameter, which is only required to be non-empty.
- `Date` values. `updatedAt` is an integer supplied as `now`. `toISOString`, date subtraction, and dates that do not parse (NaN) are not modelled.
- `formatDate`, `toLocaleString`, and the locale. These are display only.
- The Tailwind configuration. It is styling data.
- Text.Lower: handles ASCII letters only. Unicode case mapping in `toLowerCase` is not modelled.
- Text.LexLe: compares Dafny characters (code points). JavaScript compares UTF-16 code units, which differs only for characters outside the Basic Multilingual Plane.
- Seqs.SortInPlace: states only "neighbours in order, and a permutation". The algorithm behind `Array.prototype.sort` and its stability are not modelled. So `View.Project` does not fix the relative order of notes with equal keys. Under `due_asc` the source's comparator never returns 0, so the source does not fix that order either.
- Object identity. Notes are values in a sequence. The source mutates the shared note object in place in `toggleComplete`, and `{...old, ...note}` in `onSaveNote` would keep extra fields of the old object. Neither the aliasing nor extra fields are modelled; a note has exactly the fields the form produces.
- Missing `tags` arrays. `(n.tags || [])` guards against notes loaded without tags. Every modelled note has a tag list.
- The priority map in `priority_desc` is an object literal. A priority named like a built-in member of `Object.prototype` would look up a function there. Priorities come from the form's fixed options, so `View.Rank` gives 0 for every other value.
- Storage failures. These propagate from `localStorage` and are outside the model.

## Findings

| source | as written | input that shows it | evidently intended | confidence | as-written member | corrected member |
|---|---|---|---|---|---|---|
| script.js:202-203 | `tagCounts` is a plain `{}`, so a tag's lookup falls through to `Object.prototype`. A tag named like a built-in method ("constructor", "toString", ...) starts from a function, and the `+ 1` turns its count into text. Assigning to "__proto__" is ignored, so that tag never appears in the list. | one note with tags `["constructor", "__proto__"]` | each tag listed once with its number of occurrences, e.g. "constructor (1)" and "__proto__ (1)" | not executed | TagTableAsWritten.PrototypeTagsMiscounted | View.TagCounts |
