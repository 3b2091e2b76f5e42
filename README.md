# as24-autocomplete, modelled in Dafny

This project models the logic of the `as24-autocomplete` browser widget. The
widget is a text input that offers suggestions while the user types. It is
built from several cooperating custom elements:

- **Data sources** read `<item>` (and `<group>`) tags from their own markup and
  answer a query with the matching suggestions:
  - the plain source lists prefix matches first, then the other substring
    matches;
  - the grouped source does the same within each group and drops empty groups;
  - the tags source keeps prefix matches only;
  - every source can look a suggestion up by its key.
- **Suggestion lists** (plain and grouped) render those suggestions as rows,
  keep one row marked as selected, move the mark with the arrow keys, and
  report the chosen row.
- **The user-facing input** escapes the typed text for use in a regular
  expression and turns key presses and clicks into widget events.
- **The dispatcher** (`as24-autocomplete`) reacts to those events. It keeps
  the hidden value, the `active`, `user-input` and `disabled` flags, and the
  list's visibility. It starts fetches whose `.then` callbacks run later.
- **The older inputs** keep the same rules in one function-based element:
  - the functional input over the tags source;
  - the bundled build of it, whose tags source caches its items per element
    id.

Modelling choices:

- Regular expressions built from the query are modelled as case-insensitive
  prefix (`^q`) and substring (`q`) tests on a literal query.
- DOM nodes become sequences of rows. A marked row is an index, with `-1`
  meaning none.
- Each element whose fields change in place is a class with `modifies`
  clauses.
- A promise continuation becomes a job in a first-in first-out queue. A
  separate method runs each kind of job.
- A JavaScript `TypeError` becomes an `ok`/`thrown` result. Any state change
  made before the throw is kept.

## Model

| member | source | states |
|---|---|---|
| Suggestions.ExtractKeyValues | src/data-sources/plain-data-source.js:72-76 | a suggestion is extracted exactly when some `<item>` of the markup (loose or inside a group) carries it |
| Suggestions.ExtractKeyValuesInOrder | src/data-sources/plain-data-source.js:72-76 | the markup is read child after child: the pairs of consecutive children are concatenated in document order, and a loose `<item>` gives exactly one pair |
| Suggestions.Matching | src/data-sources/plain-data-source.js:25-30 | filtering by a regular expression keeps exactly the items whose value matches, as an order-preserving subsequence, and keeps every matching item as many times as it occurs |
| Suggestions.Rejecting | src/data-sources/plain-data-source.js:47-49 | the complementary filter keeps exactly the items whose value does not match, in order, each as many times as it occurs |
| Suggestions.Without | src/data-sources/plain-data-source.js:47-48 | `filter(x => startingWith.indexOf(x) === -1)` keeps exactly the items not already listed |
| Suggestions.WithKey | src/data-sources/plain-data-source.js:62 | filtering by key keeps exactly the items with an equal key |
| Suggestions.FirstWithKey | src/data-sources/plain-data-source.js:60-62 | `[0]` of the key filter is absent iff no item has the key, and otherwise is the first item in document order with that key |
| Suggestions.LookupByKey | src/data-sources/plain-data-source.js:58-66 | `getSuggestionByKey` rejects iff the key is empty; otherwise it resolves to `undefined` when no item has the key, or to the first item in document order with it (the tags source, src/data-sources/tags-data-source.js:54-65, does the same lookup) |
| Suggestions.MatchingEmptyQuery | src/data-sources/tags-data-source.js:25-30 | the empty query matches every item, both as prefix and as substring, and rejects none |
| Suggestions.WithoutPrefixMatches | src/data-sources/plain-data-source.js:47-49 | dropping the prefix matches by identity leaves exactly the items that do not start with the query, in order |
| Suggestions.PrefixThenRestCount | src/data-sources/plain-data-source.js:45-50 | the prefix matches and the remaining substring matches together count exactly the substring matches |
| Suggestions.PrefixFirstOrder | src/data-sources/plain-data-source.js:45-50 | prefix-first ranking is the prefix matches in document order, then the other substring matches in document order |
| Suggestions.PrefixFirstPermutation | src/data-sources/plain-data-source.js:45-50 | prefix-first ranking is a permutation of the substring matches: nothing lost, nothing listed twice |
| Suggestions.PrefixFirstEmptyQuery | src/data-sources/plain-data-source.js:45-50 | for the empty query the ranking is every item in original order |
| PlainDataSource.PrefixMatchesFirst | src/data-sources/plain-data-source.js:42-52 | the plain source's result starts with the prefix matches and continues with items that contain the query but do not start with it, each part in document order |
| PlainDataSource.ContainingPermutation | src/data-sources/plain-data-source.js:45-50 | the plain source's result is a permutation of the items whose value contains the query |
| PlainDataSource.SuggestedIffContains | src/data-sources/plain-data-source.js:42-52 | an item is suggested iff its value contains the query, ignoring case |
| PlainDataSource.EmptyQueryListsAll | src/data-sources/plain-data-source.js:42-52 | the empty query suggests every item in document order |
| TagsDataSource.PrefixMatchesOnly | src/data-sources/tags-data-source.js:42-48 | the tags source's result is an order-preserving subsequence of the items, holding exactly those whose value starts with the query |
| TagsDataSource.EmptyQueryListsAll | src/data-sources/tags-data-source.js:25-30 | the empty query lists every item of the tags source |
| GroupedItemsDataSource.Select | src/data-sources/grouped-items-data-source.js:41-50 | filtering with `valuePredicate(regexp, key)` keeps exactly the items the predicate accepts |
| GroupedItemsDataSource.SelectCases | src/data-sources/grouped-items-data-source.js:41-50 | with a regular expression the key is ignored; with none and a key, keys are compared; with neither, every item passes |
| GroupedItemsDataSource.BuildItemsRanked | src/data-sources/grouped-items-data-source.js:89-102 | each group's items are ranked prefix-first and are a permutation of the group's substring matches |
| GroupedItemsDataSource.BuildGroups | src/data-sources/grouped-items-data-source.js:104-112 | no returned group has an empty item list |
| GroupedItemsDataSource.GroupsInOrder | src/data-sources/grouped-items-data-source.js:104-112 | the returned groups are, in document order, exactly the candidate groups (label plus ranked items) whose items are non-empty |
| GroupedItemsDataSource.TotalCount | src/data-sources/grouped-items-data-source.js:94-112 | the returned groups hold as many items in total as there are grouped items whose value contains the query |
| GroupedItemsDataSource.FirstSelected | src/data-sources/grouped-items-data-source.js:72-75 | the key filter is empty iff no item passes it, and its first element is the first passing item in document order |
| GroupedItemsDataSource.GetSuggestionByKey | src/data-sources/grouped-items-data-source.js:70-80 | the lookup rejects iff no item anywhere in the source passes the key filter, and otherwise resolves to the first item that does |
| ListItems.ChoicesOfRendered | src/suggestions-lists/plain-suggestions-list.js:83-93 | rendering suggestions as selectable rows and reading the rows' payloads back gives the same suggestions in the same order |
| ListItems.SiblingStep | src/suggestions-lists/plain-suggestions-list.js:40-48 | a sibling move over a non-empty list always lands on a row of the list; with no mark it lands on the first row, and moving up goes to the previous row or stays on the first |
| ListItems.MoveTarget | src/suggestions-lists/plain-suggestions-list.js:40-54 | the mark after a move is a row of the list, or stays unset only when the list has no rows |
| ListItems.StepsDownReach | src/suggestions-lists/plain-suggestions-list.js:40-48 | `k` moves down from a row reach the row `k` further, stopping at the last row |
| ListItems.DownThenUp | src/suggestions-lists/plain-suggestions-list.js:40-48 | down then up returns to the same row, except from the last row where down stays put |
| ListItems.EmptyListMessage | src/as24-autocomplete-dispatcher.js:39 | the empty-list message is never empty; a non-empty `empty-list-message` attribute is used as it is |
| PlainList.RenderedRows | src/suggestions-lists/plain-suggestions-list.js:95-117 | rendered rows always exist; their payloads are the suggestions in order; the placeholder is present iff there are no suggestions, and then it is the only row, unselectable with key `''` |
| PlainList.PlainSuggestionsList.constructor | src/suggestions-lists/plain-suggestions-list.js:9-27 | a new list has no rows, no mark, no hover mark and is hidden |
| PlainList.PlainSuggestionsList.Show | src/suggestions-lists/plain-suggestions-list.js:11-14 | `show` makes the list visible and changes nothing else |
| PlainList.PlainSuggestionsList.Hide | src/suggestions-lists/plain-suggestions-list.js:16-19 | `hide` makes the list invisible and changes nothing else |
| PlainList.PlainSuggestionsList.MoveSelection | src/suggestions-lists/plain-suggestions-list.js:40-54 | the mark moves to the first row when unset, else to the next or previous sibling, staying at the ends; on an empty list with no mark it throws and nothing changes |
| PlainList.PlainSuggestionsList.OnItemMouseOver | src/suggestions-lists/plain-suggestions-list.js:56-65 | hovering a row makes it the only hover-marked row; hovering outside the rows changes nothing |
| PlainList.PlainSuggestionsList.SelectItem | src/suggestions-lists/plain-suggestions-list.js:67-73 | a suggestion is emitted iff the marked row is selectable; it is that row's payload and the list is then hidden; otherwise nothing changes |
| PlainList.PlainSuggestionsList.OnClick | src/suggestions-lists/plain-suggestions-list.js:75-81 | a click emits a suggestion iff it hits a selectable row; it is that row's payload and the list is then hidden |
| PlainList.PlainSuggestionsList.RenderItems | src/suggestions-lists/plain-suggestions-list.js:104-117 | rendering replaces the rows with the rendered suggestions (or the placeholder), clears both marks and shows the list |
| GroupedList.SelectableIndices | src/suggestions-lists/grouped-suggestions-list.js:38-39 | the selectable rows' positions, each listed once, in increasing order, and no other rows |
| GroupedList.IndexOf | src/suggestions-lists/grouped-suggestions-list.js:40 | `indexOf` is `-1` iff the element is absent, and otherwise the first position holding it |
| GroupedList.NextPos | src/suggestions-lists/grouped-suggestions-list.js:41-45 | with selectable rows the next position is one of them: `currPos + dir` when that is in range, the last row past the end and the first row before the start (no wrap-around); with none it is `-1` or `0` |
| GroupedList.FirstFromNothing | src/suggestions-lists/grouped-suggestions-list.js:40-45 | with nothing marked, either direction marks the first selectable row |
| GroupedList.GroupRows | src/suggestions-lists/grouped-suggestions-list.js:102-111 | the rows of all groups carry the groups' items in order, and the separators carry the groups' labels in order (none when separators are off) |
| GroupedList.NonEmptyGroupsSelectable | src/suggestions-lists/grouped-suggestions-list.js:121-134 | when every group has items, the rendered list has a selectable row iff there is at least one group (also for the separator-on-empty-query rendering of docs/as24-autocomplete.js:678-691) |
| GroupedList.GroupedSuggestionsList.constructor | src/suggestions-lists/grouped-suggestions-list.js:9-23 | a new list has no rows, no mark, no hover mark and is hidden |
| GroupedList.GroupedSuggestionsList.Show | src/suggestions-lists/grouped-suggestions-list.js:11-14 | `show` makes the list visible and changes nothing else |
| GroupedList.GroupedSuggestionsList.Hide | src/suggestions-lists/grouped-suggestions-list.js:16-19 | `hide` makes the list invisible and changes nothing else |
| GroupedList.GroupedSuggestionsList.MoveSelection | src/suggestions-lists/grouped-suggestions-list.js:36-52 | it throws iff no row is selectable, leaving the mark; otherwise exactly the selectable row at the clamped next position is marked |
| GroupedList.GroupedSuggestionsList.MoveSelectionGuarded | docs/as24-autocomplete.js:589-607 | with no selectable row the old mark is cleared and none is set; otherwise the selectable row at the clamped next position is marked |
| GroupedList.GroupedSuggestionsList.OnItemMouseOver | src/suggestions-lists/grouped-suggestions-list.js:54-63 | hovering a row other than a separator makes it the only hover-marked row; anything else changes nothing |
| GroupedList.GroupedSuggestionsList.SelectItem | src/suggestions-lists/grouped-suggestions-list.js:65-71 | a suggestion is emitted iff a row is marked; it is that row's payload and the list is then hidden |
| GroupedList.GroupedSuggestionsList.OnClick | src/suggestions-lists/grouped-suggestions-list.js:73-79 | a click emits a suggestion iff it hits a selectable row; it is that row's payload and the list is then hidden |
| GroupedList.GroupedSuggestionsList.RenderItems | src/suggestions-lists/grouped-suggestions-list.js:121-134 | rendering replaces the rows with one separator plus item rows per group (or the placeholder), clears the marks and shows the list |
| GroupedList.GroupedSuggestionsList.RenderItemsBundled | docs/as24-autocomplete.js:657-691 | as `RenderItems`, but group separators appear only when the query is empty |
| GroupedList.GroupedSuggestionsList.EmptyResultThenMove | src/suggestions-lists/grouped-suggestions-list.js:46-50 | rendering an empty result and then moving the mark always throws |
| GroupedList.GroupedSuggestionsList.EmptyResultThenMoveGuarded | docs/as24-autocomplete.js:603-606 | with the guard, the same sequence leaves a visible, empty list with no mark |
| Text.UnescapeEscape | docs/as24-autocomplete.js:94-96 | unescaping what `getValue` returns gives back the raw input |
| Text.EscapeWellEscaped | docs/as24-autocomplete.js:94-96 | `getValue` leaves no special character unescaped and no backslash that does not escape one |
| Text.EscapeUnescape | docs/as24-autocomplete.js:94-96 | every well-escaped text is the escaping of its unescaping, so escaping is one-to-one onto well-escaped texts |
| UserFacingInput.KeyDownEvents | docs/as24-autocomplete.js:121-133 | keydown emits at most one event: focus-lost iff key 9, go-down iff 40, go-up iff 38 |
| UserFacingInput.CrossClickOutcome | docs/as24-autocomplete.js:171-184 | unless disabled, a cross click empties the value; close is emitted iff enabled with an empty value; cleanup iff enabled with a value; trigger-suggestions iff also opened |
| UserFacingInput.AutocompleteInput.constructor | docs/as24-autocomplete.js:186-197 | attaching resets only `isOpened` and `isDirty`; the text field keeps its value, `disabled` attribute and `error` class as the markup has them |
| UserFacingInput.AutocompleteInput.SetValue | docs/as24-autocomplete.js:90-92 | the value becomes the given text and nothing else changes |
| UserFacingInput.AutocompleteInput.GetValue | docs/as24-autocomplete.js:94-96 | the result is well escaped, unescapes to the value, and is empty iff the value is |
| UserFacingInput.AutocompleteInput.SetDisabled | docs/as24-autocomplete.js:98-108 | `isDisabled()` afterwards returns the flag given, and nothing else changes |
| UserFacingInput.AutocompleteInput.SetError | docs/as24-autocomplete.js:110-112 | the error flag becomes the flag given, and nothing else changes |
| UserFacingInput.AutocompleteInput.RenderInput | docs/as24-autocomplete.js:114-119 | the suggestions pass through unchanged and the error flag is set iff there are none |
| UserFacingInput.AutocompleteInput.OnKeyUp | docs/as24-autocomplete.js:135-152 | 13 emits enter; 27 acts as a cross click; 38 and 40 emit nothing; every other key emits query |
| UserFacingInput.AutocompleteInput.OnInputClick | docs/as24-autocomplete.js:154-157 | a click opens the input and emits trigger-suggestions |
| UserFacingInput.AutocompleteInput.OnDropDownClick | docs/as24-autocomplete.js:159-169 | when disabled nothing happens; otherwise `isOpened` toggles and close (was open) or trigger-suggestions (was closed) is emitted |
| UserFacingInput.AutocompleteInput.OnCrossClick | docs/as24-autocomplete.js:171-184 | the events, new value and new `isOpened` are those of the cross-click rule, and nothing else changes |
| Dispatcher.DisabledFlag | src/as24-autocomplete-dispatcher.js:180-183 | the input is disabled iff the attribute changed and its new value is `'true'` or `'disabled'` |
| Dispatcher.InitialJobs | src/as24-autocomplete-dispatcher.js:56-66 | a non-empty initial value queues one lookup of it by key; an empty one queues nothing |
| Dispatcher.EscapedQueryFindsTyped | src/as24-autocomplete-dispatcher.js:28-32 | fetching with the escaped input finds exactly what the typed text finds |
| Dispatcher.Autocomplete.constructor | src/as24-autocomplete-dispatcher.js:38-66 | attaching keeps the hidden value and the state classes the markup carries, resets only `isDirty`, takes the empty-list message from its attribute and queues the initial lookup |
| Dispatcher.Autocomplete.FetchList | src/as24-autocomplete-dispatcher.js:28-32 | a fetch queues its result for the query and changes nothing else |
| Dispatcher.Autocomplete.Reset | src/as24-autocomplete-dispatcher.js:19-26 | the query and hidden value are cleared, the list hidden, `isDirty`, `active` and `user-input` cleared, and nothing else changes |
| Dispatcher.Autocomplete.OnSuggestionSelected | src/as24-autocomplete-dispatcher.js:69-78 | the hidden value becomes the key and the query the label; the input closes, the list hides, `active` is removed, `user-input` added and one change fires |
| Dispatcher.Autocomplete.OnTriggerSuggestions | src/as24-autocomplete-dispatcher.js:80-87 | the list is shown, `active` is added and a fetch for the escaped input is queued that then moves the mark down |
| Dispatcher.Autocomplete.OnFocusLost | src/as24-autocomplete-dispatcher.js:89-97 | with a query and a non-empty list the marked suggestion (if any) is applied; otherwise the list hides and `active` is removed |
| Dispatcher.Autocomplete.OnEnter | src/as24-autocomplete-dispatcher.js:99-110 | on a visible list the marked suggestion is applied or else the list just hides; on a hidden list `active` is added and a fetch is queued |
| Dispatcher.Autocomplete.OnQuery | src/as24-autocomplete-dispatcher.js:112-127 | `user-input` becomes "the query is non-empty", `active` is added for a non-empty query, and a fetch with the value check is queued |
| Dispatcher.Autocomplete.OnCleanup | src/as24-autocomplete-dispatcher.js:129-136 | the hidden value is cleared, `user-input` removed, `active` added, a fetch for the empty query queued and one change fires |
| Dispatcher.Autocomplete.OnClose | src/as24-autocomplete-dispatcher.js:138-143 | `user-input` and `active` are removed and the list hidden; nothing else changes |
| Dispatcher.Autocomplete.OnGoDown | src/as24-autocomplete-dispatcher.js:145-156 | a non-empty query adds `active`; a visible list moves its mark down, a hidden one queues a fetch instead |
| Dispatcher.Autocomplete.OnGoUp | src/as24-autocomplete-dispatcher.js:158-163 | the mark moves up only when the list is visible; nothing else changes |
| Dispatcher.Autocomplete.OnListClick | src/suggestions-lists/plain-suggestions-list.js:75-81 | a click on a selectable row applies that row's suggestion as the selected handler (src/as24-autocomplete-dispatcher.js:69-78) does; any other click changes nothing |
| Dispatcher.Autocomplete.OnDocumentClick | src/as24-autocomplete-dispatcher.js:165-177 | a click inside, or with the list hidden, changes nothing; otherwise the marked suggestion is applied when there is a query and a non-empty list, and the list hides, the input closes and `active` is removed |
| Dispatcher.Autocomplete.OnAttributeChanged | src/as24-autocomplete-dispatcher.js:180-188 | for `disabled`, the input's disabled state and the disabled class both take the computed flag and the list hides; other attributes change nothing |
| Dispatcher.Autocomplete.RunInitialValue | src/as24-autocomplete-dispatcher.js:57-65 | a found suggestion shows its label, adds `user-input` and sets `isDirty`; a missing one changes nothing; the job leaves the queue |
| Dispatcher.Autocomplete.RunInputStage | src/as24-autocomplete-dispatcher.js:28-30 | the error flag is set iff the fetch found nothing, and the fetch moves on to its list stage |
| Dispatcher.Autocomplete.RunListStage | src/as24-autocomplete-dispatcher.js:28-31 | the list shows the fetched suggestions (or the placeholder), unmarked and visible, and is empty iff nothing was found |
| Dispatcher.Autocomplete.RunAfterStage | src/as24-autocomplete-dispatcher.js:120-126 | the mark moves down; after a query, the hidden value is cleared and a change fires iff it was non-empty and the query is empty or the list is empty |
| FunctionalInput.RenderLIText | src/as24-autocomplete-input.js:111-126 | a row keeps the item's key; without a query it shows the value; with a query it shows text starting with the query, which equals the value up to case when the value starts with the query and is the query followed by the value otherwise |
| FunctionalInput.RenderedRowsShape | src/as24-autocomplete-input.js:153-165 | there is always a row; no items gives exactly the placeholder; otherwise one row per item, in order, with its key and text starting with the query |
| FunctionalInput.TagsRowsShowValues | src/as24-autocomplete-input.js:111-126 | for the tags source's own results each row's text is the item's value up to case |
| FunctionalInput.ListView.constructor | src/as24-autocomplete-input.js:350-419 | a new list has no rows, no marks, is hidden and not flagged empty |
| FunctionalInput.ListView.MoveSelection | src/as24-autocomplete-input.js:261-273 | the mark moves as the sibling rule says; it throws exactly when nothing is marked and the list has no rows; nothing else changes |
| FunctionalInput.ListView.ShowList | src/as24-autocomplete-input.js:76-80 | the list becomes visible and then the mark moves down |
| FunctionalInput.ListView.Hide | src/as24-autocomplete-input.js:89-93 | the list becomes invisible and nothing else about it changes |
| FunctionalInput.ListView.OnItemMouseOver | src/as24-autocomplete-input.js:237-251 | hovering a row makes it the only hover-marked row |
| FunctionalInput.AutocompleteElement.OnItemMouseOver | src/as24-autocomplete-input.js:237-251 | hovering a row makes it the only hover-marked row; a target that is not an `LI` changes nothing; the element's own state is untouched |
| FunctionalInput.ListView.RenderList | src/as24-autocomplete-input.js:153-165 | the list shows the rendered rows, the first row marked, visible, and flagged empty iff there are no items |
| FunctionalInput.AutocompleteElement.constructor | src/as24-autocomplete-input.js:350-419 | attaching keeps the initial value, label and active class, has no pending fetch and takes its empty-list message from its attribute |
| FunctionalInput.AutocompleteElement.HideList | src/as24-autocomplete-input.js:89-93 | `active` is removed and the list hidden; nothing else changes |
| FunctionalInput.AutocompleteElement.FetchList | src/as24-autocomplete-input.js:178-187 | `active` is added and the tags source's result for the current label is queued for rendering |
| FunctionalInput.AutocompleteElement.RunRender | src/as24-autocomplete-input.js:153-165 | the queued result is rendered against the label as it is now, and leaves the queue |
| FunctionalInput.AutocompleteElement.SelectItem | src/as24-autocomplete-input.js:197-200 | the hidden value takes the row's key and the label the row's text |
| FunctionalInput.AutocompleteElement.OnItemClicked | src/as24-autocomplete-input.js:211-214 | a click on a row selects it and hides the list; a click outside the rows throws before changing anything |
| FunctionalInput.AutocompleteElement.OnKeyDown | src/as24-autocomplete-input.js:285-301 | on the label only: 38 moves up, 40 shows the list and moves down, 27 hides; anything else changes nothing |
| FunctionalInput.AutocompleteElement.OnKeyUp | src/as24-autocomplete-input.js:314-324 | 13 selects the marked row and hides the list, throwing when none is marked; 38, 40 and 27 do nothing; any other key fetches |
| FunctionalInput.AutocompleteElement.HandleArrowClick | src/as24-autocomplete-input.js:335-343 | a visible list is hidden; a hidden one fetches for the current label |
| FunctionalInput.AutocompleteElement.OnDocumentClick | src/as24-autocomplete-input.js:413 | a document click removes `active` and hides the list |
| FunctionalInput.AutocompleteElement.TypeThenEnter | src/as24-autocomplete-input.js:314-324 | typing, letting the fetch render, then Enter picks the first prefix match (value its key, label its value up to case), or with no match leaves an empty value and the empty-list message as label; the list ends hidden |
| CachedTagsDataSource.FilterCachedIsPrefixFilter | dist/as24-autocomplete.es6.js:556-567 | skipping the filter for the empty query changes nothing: the result holds exactly the cached items starting with the query, in cached order |
| CachedTagsDataSource.FilledEntryIsReused | dist/as24-autocomplete.es6.js:566-567 | a filled cache entry is left as it is and filtered, whatever the markup holds |
| CachedTagsDataSource.FetchTwice | dist/as24-autocomplete.es6.js:562-577 | two fetches with no reset in between both answer from the first markup; after a reset the markup is read again |
| CachedTagsDataSource.ItemsCache.constructor | dist/as24-autocomplete.es6.js:545 | the cache starts with no entries |
| CachedTagsDataSource.ItemsCache.FetchItems | dist/as24-autocomplete.es6.js:562-569 | the entry is filled from the markup when missing or null and kept otherwise; the result filters it by prefix, and on a fresh entry equals the uncached tags source's result |
| CachedTagsDataSource.ItemsCache.Reset | dist/as24-autocomplete.es6.js:571-577 | attach and detach set this id's entry to null and keep every other id's entry |
| BundledInput.AutocompleteElement.constructor | dist/as24-autocomplete.es6.js:443-522 | attaching keeps the initial value, label, active and user-input classes, has no pending fetch and takes the empty-list message from its attribute |
| BundledInput.AutocompleteElement.Cleanup | dist/as24-autocomplete.es6.js:125-129 | value and label are cleared and `user-input` removed; nothing else changes |
| BundledInput.AutocompleteElement.HideList | dist/as24-autocomplete.es6.js:102-108 | `active` is removed and the list hidden; nothing else changes |
| BundledInput.AutocompleteElement.FetchList | dist/as24-autocomplete.es6.js:209-222 | `active` is added, the cache entry filled, and the cached prefix filter for the current label queued |
| BundledInput.AutocompleteElement.RunRender | dist/as24-autocomplete.es6.js:187-198 | the queued result is rendered against the label as it is now, and leaves the queue |
| BundledInput.AutocompleteElement.SelectItem | dist/as24-autocomplete.es6.js:231-235 | the hidden value takes the row's key, the label its text, and `user-input` is added |
| BundledInput.AutocompleteElement.SelectMarkedAndHide | dist/as24-autocomplete.es6.js:371-377 | the marked row is selected and the list hidden; with no marked row it throws before changing anything |
| BundledInput.AutocompleteElement.OnItemClicked | dist/as24-autocomplete.es6.js:244-250 | a click on a row selects it and hides the list; a click outside the rows throws before changing anything |
| BundledInput.AutocompleteElement.OnItemMouseOver | dist/as24-autocomplete.es6.js:269-287 | hovering a row makes it the only hover-marked row; a target that is not an `LI` changes nothing; the element's own state is untouched |
| BundledInput.AutocompleteElement.OnKeyDown | dist/as24-autocomplete.es6.js:314-346 | on the label only: Tab on a visible list selects and hides, 38 moves up, 40 shows and moves down, Escape cleans up and hides |
| BundledInput.AutocompleteElement.OnKeyUp | dist/as24-autocomplete.es6.js:358-384 | a non-empty label adds `user-input`, an empty one cleans up; then Enter or Tab on a visible list selects and hides without fetching; other keys except 38, 40 and 27 fetch |
| BundledInput.AutocompleteElement.HandleArrowClick | dist/as24-autocomplete.es6.js:394-411 | a visible list is hidden; a hidden one fetches for the current label |
| BundledInput.AutocompleteElement.HandleCrossClick | dist/as24-autocomplete.es6.js:422-437 | cleanup always runs; only a visible list refetches, and then the whole cached list is queued |
| BundledInput.AutocompleteElement.OnDocumentClick | dist/as24-autocomplete.es6.js:516 | a document click removes `active` and hides the list |

## Left out

- DOM plumbing is replaced by sequences of rows and index marks:
  `querySelector`, element creation, fragments and `innerHTML`.
- Event registration and dispatch are replaced by method calls and returned
  event lists, with no `stopPropagation`.
- Composing a gesture from its handlers is left to the caller. For example, a
  list click followed by the dispatcher's selected handler is not chained
  automatically, except where `OnListClick`, `OnFocusLost`, `OnEnter` and
  `OnDocumentClick` do it.
- `focus()`, `followSelectedItem` and `scrollToSelectedItem` are left out.
  They are layout arithmetic on floating-point pixel offsets.
- The `<strong>` highlighting in `renderItem` is left out because it is HTML
  generation. A row's label is the suggestion's value.
- SelectItem (FunctionalInput.AutocompleteElement.SelectItem and
  BundledInput.AutocompleteElement.SelectItem): the label takes the row's
  text as a plain string, the query followed by the rest of the value. The
  source builds the row as HTML (src/as24-autocomplete-input.js:121-123,
  dist/as24-autocomplete.es6.js:155-158) and copies its `innerText`. The
  model therefore does not capture entity decoding (`&amp;` shown as `&`),
  the collapsing of white-space runs, or a `<` in the query swallowing the
  text after it. The label facts in FunctionalInput.RenderLIText,
  FunctionalInput.TagsRowsShowValues and
  FunctionalInput.AutocompleteElement.TypeThenEnter hold for that plain
  string.
- The two suggestion-list constructors (PlainList.PlainSuggestionsList and
  GroupedList.GroupedSuggestionsList) and FunctionalInput.ListView start
  with no rows, no marks and no visible class. That is a list element whose
  markup has no rows and no state classes yet.
- Regular expressions are literal case-insensitive tests.
  - Text.Fold: case folding covers ASCII and Latin-1 letters only, not the
    rest of Unicode.
  - FunctionalInput.AutocompleteElement.FetchList: in the two older inputs,
    the raw label is treated as a literal. The model does not capture what
    regular-expression metacharacters typed there would do.
- Promise ordering is a FIFO queue of jobs, and each kind of job has its own
  `Run` method. Interleavings that the queue does not express are not
  modelled.
- The dispatcher is modelled over the plain list and the plain data source
  only. The src grouped list has no `isEmpty`, which the dispatcher calls.
- The missing-data-source `throw` in the attach callbacks is left out. Every
  modelled element is built with its source.
- The `this.isVisible` / `this.selectItem` branch in the input's `onKeyUp`
  (docs/as24-autocomplete.js:136-141) is treated as never taken, because the
  input class defines neither member.
- Null attribute values are modelled as `Option` only for the element
  attributes (`empty-list-message`, `disabled`). An absent `key` or `value`
  on an `<item>`, or an absent `label` on a `<group>`
  (src/data-sources/grouped-items-data-source.js:109), gives `null` in the
  source; the model holds a string there.
- Dispatcher.Autocomplete.OnAttributeChanged is modelled as if it were
  called. The source names the hook `onAttributeChanged`
  (src/as24-autocomplete-dispatcher.js:180), while the custom-element
  lifecycle calls `attributeChangedCallback`, the name the two older inputs
  use. Nothing in the source calls `onAttributeChanged`, so a change of the
  `disabled` attribute most likely never reaches it; the model does not
  capture that the handler may be dead code.
- Nested `<group>` tags are not modelled: groups hold items only.
- `indexOf` compares by identity in JavaScript. It is modelled by value
  equality, which gives the same answers here because every predicate looks
  at values only.
- The following are not part of this model:
  - the custom-element registration wrappers and src/as24-autocomplete.js;
  - the `./helper` module;
  - the superseded builds docs/as24-autocomplete.es6.js and
    dist/as24-autocomplete.js;
  - the gulp build files.

## Findings

| source | as written | input that shows it | evidently intended | confidence | as-written member | corrected member |
|---|---|---|---|---|---|---|
| src/suggestions-lists/grouped-suggestions-list.js:46-50 | with no selectable row, `allItems[nextPos]` is `undefined` and `.classList` throws | render an empty result, then `moveSelection(1)` (as every fetch continuation does) | mark an item only when it exists, as docs/as24-autocomplete.js:603-606 does | not executed | GroupedList.GroupedSuggestionsList.EmptyResultThenMove | GroupedList.GroupedSuggestionsList.EmptyResultThenMoveGuarded |
