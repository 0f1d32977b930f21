# github-tags-input: the tag-entry core, modelled in Dafny

This project models the core of a GitHub-style "topics" field.
A `TagsInput` control turns typed text into tag pills. A `TagSuggester` underneath it offers dataset tags whose names start with the typed text. The user walks the suggestions with the arrow keys and commits one with Space, Enter or a click.

The model covers three pieces:

- the control's state machine, `TagsInput.TagsInput`. It is a class holding the host's `tags` list, `inputValue`, `suggestedTags` and the cursor `suggestedTagIdx`. Each key, change, click and refresh handler is one method that reads the state as it was when the event arrived.
- the suggester's refresh rule and its per-option predicates (`TagSuggester`).
- the prefix search `searchTags` (`TagSearch`).

The JavaScript built-ins the code relies on have small modules of their own:

- `Sequences`: `Array.prototype.at` with negative indices, `slice(0, -1)`, and `filter` by index.
- `Strings`: `startsWith`, `trim` with its full white-space set, `toLowerCase`, and the decimal `data-idx` round trip.

The dataset (`src/data/tags`) is not part of this model. It is a parameter of every operation that searches. `Scenarios` drives the component through concrete key sequences over a two-tag dataset, `react` (id 1) and `redux` (id 2).

The `suggestedTags.at(idx)!.name` dereference in `addSuggestedTag` is modelled two ways:

- `AddSuggestedTag` takes the `!` as a precondition.
- The key handlers call `TryAddSuggestedTag`, which reports `threw` when `at(idx)` is undefined. In that case the TypeError happens before any setter runs, so the state is unchanged. For Space and Enter, `preventDefault` has already been called by then.

The model follows the code where it behaves differently from what a reader of the component would expect:

- A commit of a name that is already a tag returns before `setInputValue("")`, so the typed text stays in the input. It is not cleared. `Scenarios.DuplicateCommitKeepsInput` shows this.
- Replacing the suggestion list, or selecting by click, never resets the cursor. The intended rule resets the cursor to null whenever the list is replaced or cleared, and keeps the arrows still over an empty list. `IntendedCursor` models that rule.
- `searchTags("")` returns the whole dataset. The suggester never asks for it, because it short-circuits the empty term to `[]`, as `TagSuggester.EmptyTermSkipsSearch` states.

## Model

| member | source | states |
|---|---|---|
| Sequences.At | src/components/TagsInput/TagsInput.tsx:47 | `at(idx)` is defined exactly for `-len <= idx < len`: a non-negative index reads that element, a negative one counts from the end |
| Sequences.AtNegativeIsFromEnd | src/components/TagsInput/TagsInput.tsx:47 | for an index `i` into the list, `at(i - len)` reaches the same element as `at(i)` |
| Sequences.DropLast | src/components/TagsInput/TagsInput.tsx:79 | `slice(0, -1)` of a non-empty list is one shorter and puts back the original when its last element is appended; of an empty list it is empty |
| Sequences.DropLastUndoesAppend | src/components/TagsInput/TagsInput.tsx:79 | dropping the last element undoes an append, so Backspace undoes a commit |
| Sequences.RemoveAt | src/components/TagsInput/TagsInput.tsx:118 | filtering out position `idx` gives the list without exactly that element when `idx` is in range, and the same list otherwise |
| Sequences.RemoveAtShifts | src/components/TagsInput/TagsInput.tsx:118 | after the removal, elements before `idx` stay in place and the later ones move one place to the front |
| Sequences.RemoveAtIsSubsequence | src/components/TagsInput/TagsInput.tsx:118 | removing by index keeps the other elements in their order |
| Sequences.SubsequenceIsShorter | src/helpers/search-tags.ts:3-5 | a subsequence is no longer than the list it comes from |
| Sequences.SubsequenceElements | src/helpers/search-tags.ts:3-5 | every element of a subsequence is an element of the original list |
| Strings.StartsWith | src/helpers/search-tags.ts:4 | `name.startsWith(term)` holds exactly when the term is no longer than the name and agrees with it character by character |
| Strings.StartsWithEmpty | src/helpers/search-tags.ts:4 | every name starts with the empty string |
| Strings.StartsWithTransitive | src/helpers/search-tags.ts:4 | a prefix of a prefix is a prefix |
| Strings.Trim | src/components/TagsInput/TagsInput.tsx:127 | `trim()` has no white space at either end, and it is the piece of the text that only white space surrounds |
| Strings.TrimIsTheOnlyStrip | src/components/TagsInput/TagsInput.tsx:127 | any trimmed piece that only white space surrounds is what `trim()` returns, so the contract of `Trim` determines it completely |
| Strings.TrimKeepsTrimmed | src/components/TagsInput/TagsInput.tsx:127 | trimming text without white space at its ends changes nothing |
| Strings.LowerChar | src/components/TagsInput/TagsInput.tsx:127 | the lower-case mapping of one character never gives an upper-case letter, and it keeps white space as white space |
| Strings.ToLowerCase | src/components/TagsInput/TagsInput.tsx:127 | `toLowerCase()` keeps the length and maps every character on its own |
| Strings.ToLowerCaseKeepsLowerCase | src/components/TagsInput/TagsInput.tsx:127 | lower-casing text that has no upper-case letter changes nothing |
| Strings.ToLowerCaseKeepsTrimmed | src/components/TagsInput/TagsInput.tsx:127 | lower-casing trimmed text leaves it trimmed, so `trim().toLowerCase()` is trimmed |
| Strings.Decimal | src/components/TagSuggester/TagSuggester.tsx:58 | the `data-idx` attribute is the index written in decimal digits |
| Strings.ParseDecimal | src/components/TagSuggester/TagSuggester.tsx:42 | `Number(...)` of a digit string is its decimal value |
| Strings.DecimalRoundTrip | src/components/TagSuggester/TagSuggester.tsx:42 | reading the written index back gives the same index |
| TagSearch.SearchTags | src/helpers/search-tags.ts:3-5 | every returned tag is in the dataset and starts with the term; every dataset tag that starts with the term is returned; the result is no longer than the dataset |
| TagSearch.SearchIsSubsequence | src/helpers/search-tags.ts:3-5 | the result keeps dataset order: it is a subsequence of the dataset |
| TagSearch.SearchEmptyTermIsDataset | src/helpers/search-tags.ts:4 | the empty term returns the whole dataset |
| TagSearch.SearchNarrowsWithLongerTerm | src/helpers/search-tags.ts:4 | when one term extends another, its result is a subsequence of the other's result |
| TagSuggester.SuggestionsFor | src/components/TagSuggester/TagSuggester.tsx:29-39 | an empty debounced term gives `[]`; any other term gives exactly the dataset tags that start with it, in dataset order |
| TagSuggester.EmptyTermSkipsSearch | src/components/TagSuggester/TagSuggester.tsx:30 | the empty term gives `[]` although searching with it would offer the whole (non-empty) dataset |
| TagSuggester.IsSelected | src/components/TagSuggester/TagSuggester.tsx:57 | option `idx` is `aria-selected` exactly when the cursor holds `idx`; a null cursor selects nothing |
| TagSuggester.AtMostOneSelected | src/components/TagSuggester/TagSuggester.tsx:57 | at most one option is `aria-selected` |
| TagSuggester.SomeOptionSelectedIffInRange | src/components/TagSuggester/TagSuggester.tsx:54-57 | some rendered option is selected exactly when the cursor is an index into the list; a null or out-of-range cursor selects none |
| TagSuggester.IsDisplayed | src/components/TagSuggester/TagSuggester.tsx:49-51 | the list has the `display` class exactly when it has a suggestion to show |
| TagSuggester.ClickedTag | src/components/TagSuggester/TagSuggester.tsx:41-43 | clicking option `idx` hands exactly `suggestedTags[idx]` to `onSelect` |
| TagsInput.KeyName | src/components/TagsInput/TagsInput.tsx:19 | the `key` value of each of the five handled keys: `" "`, `Enter`, `Backspace`, `ArrowUp`, `ArrowDown` |
| TagsInput.KeyNamesDistinct | src/components/TagsInput/TagsInput.tsx:19 | the five handled keys have five different names, so each key selects one table entry |
| TagsInput.ParseKey | src/components/TagsInput/TagsInput.tsx:110-113 | a key finds a table entry exactly when it is the name of that entry's key |
| TagsInput.HasTagNamed | src/components/TagsInput/TagsInput.tsx:38 | `some` holds exactly when a tag has exactly that name |
| TagsInput.AppendNewNameKeepsUnique | src/components/TagsInput/TagsInput.tsx:37-44 | appending a name not yet present keeps tag names unique |
| TagsInput.RemoveAtKeepsUnique | src/components/TagsInput/TagsInput.tsx:117-120 | removing a tag by index keeps tag names unique |
| TagsInput.Normalize | src/components/TagsInput/TagsInput.tsx:127 | the stored text is trimmed and has no upper-case letter, and it is no longer than the typed text |
| TagsInput.NormalizeKeepsNormalized | src/components/TagsInput/TagsInput.tsx:127 | text that is already normalised is stored as typed |
| TagsInput.NormalizeIdempotent | src/components/TagsInput/TagsInput.tsx:127 | normalising twice is normalising once |
| TagsInput.NavUp | src/components/TagsInput/TagsInput.tsx:82-94 | over a non-empty list, ArrowUp keeps a valid cursor valid |
| TagsInput.NavDown | src/components/TagsInput/TagsInput.tsx:95-107 | over a non-empty list, ArrowDown keeps a valid cursor valid |
| TagsInput.NavUpDownInverse | src/components/TagsInput/TagsInput.tsx:82-107 | over a non-empty list, ArrowUp undoes ArrowDown and ArrowDown undoes ArrowUp |
| TagsInput.NavOnEmptyListLeavesRange | src/components/TagsInput/TagsInput.tsx:35 | over an empty list, `maxSuggestedTagsLength` is -1: ArrowUp from null gives -1 and ArrowDown from null gives 0, and neither is an index into the list |
| TagsInput.PressDownWalks | src/components/TagsInput/TagsInput.tsx:102-103 | `n` ArrowDown presses from index `i` reach `i + n` while that is still in the list |
| TagsInput.PressDownSplit | src/components/TagsInput/TagsInput.tsx:95-107 | `m + n` presses are `m` presses followed by `n` presses |
| TagsInput.PressDownCycle | src/components/TagsInput/TagsInput.tsx:95-107 | from null, the `k`-th ArrowDown highlights option `k - 1`, and `len + 1` presses bring the cursor back to null |
| TagsInput.TagsInput.constructor | src/components/TagsInput/TagsInput.tsx:31-33 | the control mounts with no tags (the host's initial `[]`), an empty input, no suggestions and a null cursor |
| TagsInput.TagsInput.AddTag | src/components/TagsInput/TagsInput.tsx:37-44 | an existing name changes neither the tags nor the input; a new name is appended as `{ name }` and the input cleared; the suggestions are untouched and unique names stay unique |
| TagsInput.TagsInput.AddSuggestedTag | src/components/TagsInput/TagsInput.tsx:46-50 | given that `at(idx)` is defined, it commits that suggestion's name as `addTag` does, then clears the list and the cursor |
| TagsInput.TagsInput.TryAddSuggestedTag | src/components/TagsInput/TagsInput.tsx:47 | an undefined `at(idx)` throws with nothing changed; otherwise it acts as `AddSuggestedTag` |
| TagsInput.TagsInput.SpaceKey | src/components/TagsInput/TagsInput.tsx:53-65 | on empty input, Space suppresses the default and commits the suggestion at a non-null cursor, or does nothing else; on non-empty input, it commits the input and keeps the default |
| TagsInput.TagsInput.EnterKey | src/components/TagsInput/TagsInput.tsx:66-76 | on empty input, Enter does nothing; otherwise it suppresses the default and commits the suggestion at a non-null cursor, or the input |
| TagsInput.TagsInput.BackspaceKey | src/components/TagsInput/TagsInput.tsx:77-81 | on empty input with at least one tag, Backspace removes exactly the last tag and keeps the rest in order; otherwise nothing changes; the default is never suppressed |
| TagsInput.TagsInput.ArrowUpKey | src/components/TagsInput/TagsInput.tsx:82-94 | suppresses the default exactly when there are suggestions, and moves only the cursor, as `NavUp` |
| TagsInput.TagsInput.ArrowDownKey | src/components/TagsInput/TagsInput.tsx:95-107 | suppresses the default exactly when there are suggestions, and moves only the cursor, as `NavDown` |
| TagsInput.TagsInput.KeyDown | src/components/TagsInput/TagsInput.tsx:110-115 | a handled key runs its table entry; any other key changes nothing and keeps its default |
| TagsInput.TagsInput.RemoveTag | src/components/TagsInput/TagsInput.tsx:117-120 | exactly the tag at `idx` goes and the others keep their order; an index outside the list changes nothing |
| TagsInput.TagsInput.OnChange | src/components/TagsInput/TagsInput.tsx:126-128 | the input holds the trimmed, lower-cased text, and nothing else changes |
| TagsInput.TagsInput.OnSelect | src/components/TagsInput/TagsInput.tsx:130-133 | the clicked tag's name is committed as `addTag` does, and the list is cleared, but the cursor is kept |
| TagsInput.TagsInput.SetSuggestions | src/components/TagsInput/TagsInput.tsx:135-137 | the list is replaced, and the cursor, the tags and the input are kept |
| TagsInput.TagsInput.RefreshSuggestions | src/components/TagSuggester/TagSuggester.tsx:29-39 | the refresh writes the list for the debounced term and nothing else: the cursor is not reset |
| IntendedCursor.Step | src/components/TagsInput/TagsInput.tsx:82-107 | under the intended rule, every event keeps the cursor null or an index into the list, and the arrows never change the list |
| IntendedCursor.RunKeepsCursorValid | src/components/TagsInput/TagsInput.tsx:82-107 | under the intended rule, any sequence of events keeps the cursor valid |
| IntendedCursor.CommitAfterAnyRunIsDefined | src/components/TagsInput/TagsInput.tsx:47 | under the intended rule, after any events from mount, `at(cursor)` is defined whenever the cursor is non-null, so a commit never throws |
| Scenarios.DatasetMatches | src/helpers/search-tags.ts:4 | over the two-tag dataset, "re" suggests `react` then `redux`, and "rea" suggests only `react` |
| Scenarios.OnChangeNormalizes | src/components/TagsInput/TagsInput.tsx:127 | typing " Re" stores "re" |
| Scenarios.ArrowDownEnterCommitsFirstMatch | src/components/TagsInput/TagsInput.tsx:66-76 | type "re", let the suggestions arrive, then ArrowDown and Enter: `{ name: "react" }` is committed, and the input, the list and the cursor are cleared |
| Scenarios.BackspaceRemovesLastTag | src/components/TagsInput/TagsInput.tsx:77-81 | after "go" and "rust" are committed with Space, Backspace leaves only "go" |
| Scenarios.DuplicateCommitKeepsInput | src/components/TagsInput/TagsInput.tsx:40-43 | committing "go" a second time keeps one "go" tag, and "go" stays in the input |
| Scenarios.ArrowDownBeforeSuggestionsThenEnterThrows | src/components/TagsInput/TagsInput.tsx:98-99 | ArrowDown over an empty list sets the cursor to 0; the next Enter on "r" throws and commits nothing |
| Scenarios.ArrowUpBeforeSuggestionsCommitsLastMatch | src/components/TagsInput/TagsInput.tsx:85-86 | ArrowUp over an empty list sets the cursor to -1; after "re" suggests `react` and `redux`, Enter commits `redux`, the last one |
| Scenarios.ClickKeepsCursorThenSpaceThrows | src/components/TagsInput/TagsInput.tsx:130-133 | after a click on `redux` with the cursor on 0, the cursor stays 0 over the now empty list, and Space on the empty input throws |
| Scenarios.RefreshStrandsCursorThenEnterThrows | src/components/TagSuggester/TagSuggester.tsx:29-39 | with the cursor on 1, refining "re" to "rea" leaves one suggestion; the cursor stays 1, no option is selected, and Enter throws |

## Left out

- The debounce timer (`use-debounce`, 250 ms) is not modelled. The debounced term is an input to `RefreshSuggestions`, so every interleaving of typing and refreshing can be written out.
- The `async` wrapper around the search is not modelled. It changes nothing: its body has no `await`, so the search and the setter run synchronously inside the effect, and only the unused promise settles later.
- The `!suggestedTags` fallback to `[]` cannot fire, because `filter` always returns an array. `SuggestionsFor` has no branch for it.
- React's batching and re-rendering are not modelled. Each handler is one atomic step on the state as the event found it.
- The DOM's default key action (a space inserted, a form submitted) is not modelled. Only the `preventDefault` flag is.
- Rendering, CSS classes, the `X` icon, `clsx` and the focus handler (`handleFocusInput`, `inputRef`) are presentation only.
- `e.key in keyDownHandledEvents` also accepts `Object.prototype` names such as `toString`. No keyboard produces such a `key`, so `ParseKey` only matches the five table keys.
- `Number(dataset.idx)` is modelled only on the digit strings that `data-idx` renders.
- Strings.ToLowerCase: maps only `A`..`Z`. Full Unicode case mapping (for example `İ`, or `ß` in upper case) is not modelled.
- The dataset module `src/data/tags` is not part of this model. The dataset is a parameter.
- The host (`src/App.tsx`) is the `tags` field. It is only ever replaced whole, as `setTags` does.

## Findings

| source | as written | input that shows it | evidently intended | confidence | as-written member | corrected member |
|---|---|---|---|---|---|---|
| src/components/TagsInput/TagsInput.tsx:47 | the arrows move the cursor even when the list is empty (to 0, or to `length - 1` = -1), and neither a refresh nor a click resets it, so `suggestedTags.at(idx)!` can be undefined and `.name` throws a TypeError | type "r" and press ArrowDown before any suggestion arrives (or with a term that matches nothing), then press Enter | the cursor is null or an index into the current list, so a commit at the cursor always finds a tag | not executed | Scenarios.ArrowDownBeforeSuggestionsThenEnterThrows | IntendedCursor.CommitAfterAnyRunIsDefined |
