# SearchBar interaction controller

A model of the search-as-you-type component `SearchBar` of a React front end
(`src/components/SearchBar.js`). The component holds five pieces of state — the typed
`query`, the `suggestions` list, the `isLoading` spinner flag, the `showSuggestions` panel
flag and the `selectedIndex` keyboard/mouse cursor — and changes them in response to
keystrokes, a debounce timer, search responses and mouse events.

The model has six modules:

- `Wrappers` — `Option`, used for a missing `results` field and for an empty timer slot.
- `Text` — the `trim()` test of the input: white space as ECMAScript's `String.prototype.trim`
  defines it, `TrimStart`/`TrimEnd`/`Trim`, and the fact that the trimmed text is empty exactly
  when every character is white space (`IsBlank`).
- `Debounce` — the `debounce` wrapper as one pending slot: each call overwrites the slot, a
  separate firing event dispatches the held argument once. No clock.
- `SearchBar` — the state record `UiState`, one pure transition per handler (input change, the
  two completions of `performSearch`, item select, the key handler, focus, hover, mouse press
  outside), the rendered view (`Render`: spinner, highlighted rows, "No results found" panel),
  the two rendering conditions (`DropdownShown`, `NoResultsShown`) and the cursor invariant
  `CursorInv`.
- `Component` — the mounted component as a `Machine`: the UI state, the timer slot, the
  multiset of search requests sent and not yet answered, and whether the host passed
  `onItemSelect`. `Event` lists every input; `Enabled` says which events can occur
  (the timer only fires when set, a response only arrives for a request that was sent, the
  mouse only meets rendered rows); `Step` and `Run` apply them.
- `Scenarios` — concrete runs from mount.

Behaviour of the component that the model keeps as it is:

- There is no request epoch and no stale-response check: any completed search overwrites the
  list and clears the spinner (`Component.AnyResponseWins`, `Scenarios.LateResponseForOldTextWins`).
- Selecting an item, a mouse press outside, blank input and a failed search leave
  `selectedIndex` as it was. So the cursor bound that holds is conditional: the cursor is
  never below -1, and whenever the list is non-empty it lies in `[-1, |suggestions| - 1]`
  (`SearchBar.CursorInv`).
- The outside-press listener tests `suggestionsRef.current`, which is set only while the
  dropdown of suggestions is rendered. So a press outside hides the panel only then; the
  "No results found" panel, which carries no ref, stays, and Escape does not close it either
  because the key handler ignores all keys but Enter when the list is empty
  (`SearchBar.NoResultsPanelIsSticky`).
- Blank input empties the list but does not cancel the debounce timer set by an earlier
  keystroke, so the search for the old text still goes out and its answer reopens the panel
  under an empty input (`Scenarios.ClearedTextIsRepopulated`).

## Model

| member | source | states |
|---|---|---|
| Text.TrimStart | src/components/SearchBar.js:54 | the result is a suffix of the input, the dropped prefix is all white space, and the result does not start with white space |
| Text.TrimEnd | src/components/SearchBar.js:54 | the result is a prefix of the input, the dropped suffix is all white space, and the result does not end with white space |
| Text.TrimEmptyIffBlank | src/components/SearchBar.js:23 | `s.trim()` is empty if and only if every character of `s` is white space, which justifies modelling each `trim()` test as `IsBlank` |
| Debounce.Call | src/components/SearchBar.js:16-18 | a call cancels the pending timer and leaves exactly its own argument pending |
| Debounce.Fire | src/components/SearchBar.js:18 | a firing timer dispatches the argument it held and leaves no timer pending |
| Debounce.CallAll | src/components/SearchBar.js:14-20 | after a burst of calls with no firing, only the last argument is pending; an empty burst changes nothing |
| Debounce.BurstThenFireDispatchesLastOnce | src/components/SearchBar.js:14-20 | a burst followed by one firing dispatches the last argument, after which nothing is pending, so it is dispatched once |
| SearchBar.Render | src/components/SearchBar.js:164-199 | the spinner follows `isLoading`; when rows are rendered there is one per suggestion, in order, and a row is highlighted exactly when its index is the cursor, so at most one row is highlighted |
| SearchBar.DropdownShown | src/components/SearchBar.js:171 | the dropdown condition holds exactly when the markup renders rows, and then it renders one per suggestion |
| SearchBar.NoResultsShown | src/components/SearchBar.js:192-195 | the no-results condition, with the `trim()` test read as `IsBlank`, holds exactly when the markup renders the "No results found" panel |
| SearchBar.HighlightFollowsCursor | src/components/SearchBar.js:176-178 | under the cursor bound, with the dropdown rendered, no row is highlighted when the cursor is -1, and otherwise the row of the suggestion under the cursor is |
| SearchBar.PanelsExclusive | src/components/SearchBar.js:171-199 | the dropdown and the "No results found" panel are never rendered together |
| SearchBar.PerformSearch | src/components/SearchBar.js:22-29 | a blank query empties the list and stops the spinner with no request; any other query starts the spinner and sends exactly that query; text, panel and cursor are untouched |
| SearchBar.SearchSucceeded | src/components/SearchBar.js:31-40 | the response's results (or an empty list when absent) replace the list, the panel opens, the cursor resets to -1, the spinner stops; the dropdown shows iff the results are non-empty, the no-results panel iff they are empty and the text is not blank |
| SearchBar.SearchFailed | src/components/SearchBar.js:35-40 | a failure empties the list and stops the spinner; panel flag, text and cursor keep their values; the cursor bound is kept |
| SearchBar.InputChanged | src/components/SearchBar.js:49-61 | the text is taken and the panel opens; blank text empties the list and stops the spinner with nothing scheduled; other text starts the spinner and schedules exactly that text; the cursor is untouched |
| SearchBar.ItemSelected | src/components/SearchBar.js:63-70 | the text becomes the item's name, the list is emptied, the panel closes, the host is notified of exactly that item iff it passed a callback; cursor and spinner unchanged |
| SearchBar.KeyDown | src/components/SearchBar.js:72-103 | with the dropdown not rendered only Enter on non-blank text acts (an immediate search); otherwise ArrowDown moves down saturating at the last row, ArrowUp moves up saturating at -1, Enter selects the highlighted row or does nothing out of range, Escape hides the panel and resets the cursor keeping text and list; any notified item was on display; the cursor bound is kept |
| SearchBar.Focused | src/components/SearchBar.js:158-162 | focus shows the panel again iff there is a retained list, and changes nothing else |
| SearchBar.Hovered | src/components/SearchBar.js:180 | hovering a rendered row moves the cursor to that row, which satisfies the cursor bound |
| SearchBar.ClickedOutside | src/components/SearchBar.js:106-114 | a press outside hides the panel, keeping text, list and cursor, only while the dropdown is rendered; otherwise nothing changes; the dropdown is never rendered afterwards and the no-results panel stays exactly as it was |
| SearchBar.NoResultsPanelIsSticky | src/components/SearchBar.js:73-78 | while the no-results panel is rendered, Escape, a press outside and focus change nothing |
| SearchBar.ArrowDownSaturates | src/components/SearchBar.js:81-86 | n presses of ArrowDown on an open dropdown put the cursor at min(cursor + n, last row) and change nothing else |
| SearchBar.ArrowUpSaturates | src/components/SearchBar.js:87-90 | n presses of ArrowUp on an open dropdown put the cursor at max(cursor - n, -1) and change nothing else |
| SearchBar.ArrowsStayInBounds | src/components/SearchBar.js:81-89 | n presses of one arrow key keep the cursor within [-1, last row] |
| SearchBar.MixedArrowsStayInBounds | src/components/SearchBar.js:81-89 | any sequence mixing ArrowDown and ArrowUp on an open dropdown keeps the cursor within [-1, last row] and changes nothing but the cursor |
| Component.Mounted | src/components/SearchBar.js:6-10 | the state at mount satisfies the machine invariant and renders neither panel |
| Component.Apply | src/components/SearchBar.js:29-69 | carrying out a handler's effect (timer slot, outstanding requests, host notification) hands the machine invariant on, provided the handler's state keeps the cursor bound, any search text it schedules or sends is non-blank, and any spinner it leaves on is backed by that search or by one already pending or outstanding |
| Component.Step | src/components/SearchBar.js:63-94 | the host only ever receives an item that was on display, only when it listens, only from Enter or a row click; the text then becomes that item's name and the dropdown is gone |
| Component.StepPreservesInv | src/components/SearchBar.js:22-180 | every deliverable event keeps the cursor bound, keeps pending and sent queries non-blank, and never leaves the spinner on with nothing pending or outstanding |
| Component.TextChangePreservesInv | src/components/SearchBar.js:49-61 | a text change keeps the machine invariant |
| Component.TimerPreservesInv | src/components/SearchBar.js:43-47 | the timer firing keeps the machine invariant |
| Component.ResponsePreservesInv | src/components/SearchBar.js:30-40 | a response or a failure keeps the machine invariant |
| Component.KeyPreservesInv | src/components/SearchBar.js:72-103 | any key keeps the machine invariant |
| Component.RunPreservesInv | src/components/SearchBar.js:5-180 | every deliverable sequence of events from a state satisfying the invariant ends in one that does |
| Component.LastScheduledIsLastTyped | src/components/SearchBar.js:54-56 | after typing a sequence whose last value is not blank, that value is the one scheduled |
| Component.TypingBurst | src/components/SearchBar.js:49-61 | a burst of typing sends nothing, leaves the last value in the input and the last non-blank value in the timer |
| Component.QuietIntervalSendsLastTextOnce | src/components/SearchBar.js:43-47 | after a burst ending in non-blank text, the timer fires once and sends exactly that text, after which no timer is left |
| Component.AnyResponseWins | src/components/SearchBar.js:31-39 | any outstanding response, whatever text it was sent for, replaces the list, opens the panel and stops the spinner |
| Scenarios.PickWithKeyboard | src/components/SearchBar.js:72-94 | type "lap", fire, one result, ArrowDown, Enter: cursor -1 then 0, the host receives the item, the text becomes its name, the panel closes |
| Scenarios.BurstSendsOnlyLast | src/components/SearchBar.js:43-56 | typing "a" then "ab" before the timer fires sends one request, for "ab" |
| Scenarios.LateResponseForOldTextWins | src/components/SearchBar.js:29-40 | an answer for "x" arriving after the answer for "xy" replaces the list although the text reads "xy", and the spinner already stopped while "x" was outstanding |
| Scenarios.ClearedTextIsRepopulated | src/components/SearchBar.js:54-60 | clearing the text after typing does not cancel the timer; the old search is sent and its answer shows a dropdown under an empty input |

## Left out

- Rendering: the markup is reduced to `SearchBar.Render`'s view (the spinner flag, the rows with their highlight, the no-results flag); the JSX structure, CSS, the icon and `scrollIntoView` on cursor change (src/components/SearchBar.js:123-133) are left out as effects on the page, not state.
- `e.preventDefault()` on ArrowDown and ArrowUp (src/components/SearchBar.js:82, :88) keeps the caret of the input where it is; the caret is not part of the model.
- Item prices and their locale formatting: display only, and floating point.
- Registering and removing the document `mousedown` listener and the `contains` hit test: a press outside both regions is one abstract event.
- Real time: `setTimeout`, `clearTimeout` and the 300 ms delay become the timer slot and the `TimerFired` event; responses arrive as events in any order.
- `searchItems` (src/services/api.js) is an uninterpreted capability: a sent query either resolves with an optional result list or fails. The `limit: 10` parameter is applied by the server and is not modelled.
- `console.error` on a failed search: logging only.
- Unmounting: no event for it; responses after unmount are not modelled.
- src/components/ItemDetail.js and src/App.js (the detail page and routing) are not part of this model; the host callback is the `Notify` effect.
- SearchBar.Hovered: requires the index of a rendered row, because the source attaches `onMouseEnter` only to the rows it renders; `Component.Enabled` delivers hover and row clicks only while the dropdown is rendered.
