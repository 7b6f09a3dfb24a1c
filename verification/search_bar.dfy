/**
  The state of the `SearchBar` component and its event handlers, each a pure transition.
  A handler returns the next state together with the one side effect it asks for:
  a call of the debounced search, an immediate search request, or a call of the host's
  `onItemSelect`. The network, the timer and the host are outside this module.
*/
module SearchBar {
  import opened Wrappers
  import opened Text

  /** One search result. The price is only formatted for display and is not modelled. */
  datatype Item = Item(id: string, name: string, category: string)

  /** The five pieces of React state of the component. */
  datatype UiState = UiState(
    query: string,
    suggestions: seq<Item>,
    isLoading: bool,
    showSuggestions: bool,
    selectedIndex: int)

  /** The state at mount. */
  const Initial := UiState("", [], false, false, -1)

  /** The keys the key handler distinguishes; every other key is `OtherKey`. */
  datatype Key = ArrowDown | ArrowUp | Enter | Escape | OtherKey

  datatype Effect =
    | NoEffect
    | Schedule(arg: string)    // the debounced search is called with `arg`
    | Dispatch(arg: string)    // `searchItems(arg)` is sent now
    | Notify(item: Item)       // the host's `onItemSelect(item)` is called

  datatype Outcome = Outcome(state: UiState, effect: Effect)

  /** The cursor bound that survives every event: the cursor is never below -1, and whenever
      there are suggestions it points at one of them or at nothing (-1). With no suggestions
      the cursor may be stale, because clearing the list does not reset it. */
  predicate CursorInv(s: UiState) {
    && s.selectedIndex >= -1
    && (|s.suggestions| > 0 ==> s.selectedIndex < |s.suggestions|)
  }

  /** One rendered suggestion row; `selected` is the highlight class. */
  datatype Row = Row(item: Item, selected: bool)

  /** What the component renders of its state: the spinner, the rows of the dropdown (none
      when the dropdown is not rendered) and whether the "No results found" panel is. */
  datatype View = View(spinner: bool, rows: seq<Row>, noResults: bool)

  /** The render conditions as the markup writes them, with the `trim()` test as is. */
  function Render(s: UiState): (v: View)
    ensures v.spinner == s.isLoading
    ensures v.rows == [] || |v.rows| == |s.suggestions|
    ensures forall i :: 0 <= i < |v.rows| ==>
              v.rows[i].item == s.suggestions[i] && (v.rows[i].selected <==> i == s.selectedIndex)
    ensures forall i, j :: 0 <= i < |v.rows| && 0 <= j < |v.rows| && v.rows[i].selected && v.rows[j].selected ==> i == j
  {
    View(
      s.isLoading,
      if s.showSuggestions && |s.suggestions| > 0 then
        seq(|s.suggestions|, i requires 0 <= i < |s.suggestions| => Row(s.suggestions[i], i == s.selectedIndex))
      else [],
      s.showSuggestions && !s.isLoading && Trim(s.query) != [] && |s.suggestions| == 0)
  }

  /** The suggestion dropdown is rendered: exactly when the markup renders at least one row,
      and then it renders every suggestion. */
  predicate DropdownShown(s: UiState): (b: bool)
    ensures b <==> Render(s).rows != []
    ensures b ==> |Render(s).rows| == |s.suggestions|
  {
    s.showSuggestions && |s.suggestions| > 0
  }

  /** The "No results found" panel is rendered, with the `trim()` test read as `IsBlank`. */
  predicate NoResultsShown(s: UiState): (b: bool)
    ensures b <==> Render(s).noResults
  {
    TrimEmptyIffBlank(s.query);
    s.showSuggestions && !s.isLoading && !IsBlank(s.query) && |s.suggestions| == 0
  }

  /** Under the cursor bound, while the dropdown is rendered, a row is highlighted exactly when
      the cursor is not -1, and the highlighted row is the suggestion under the cursor. */
  lemma HighlightFollowsCursor(s: UiState)
    requires CursorInv(s) && DropdownShown(s)
    ensures s.selectedIndex == -1 ==> forall i :: 0 <= i < |Render(s).rows| ==> !Render(s).rows[i].selected
    ensures s.selectedIndex >= 0 ==>
              Render(s).rows[s.selectedIndex] == Row(s.suggestions[s.selectedIndex], true)
  {
  }

  /** The two panels are never rendered together. */
  lemma PanelsExclusive(s: UiState)
    ensures !(DropdownShown(s) && NoResultsShown(s))
  {
  }

  /** The synchronous part of `performSearch(q)`: a blank query empties the list and stops
      the spinner without any request; any other query starts the spinner and sends exactly
      `q`. The panel, the cursor and the typed text are untouched. */
  function PerformSearch(s: UiState, q: string): (r: Outcome)
    ensures r.state.query == s.query
    ensures r.state.showSuggestions == s.showSuggestions
    ensures r.state.selectedIndex == s.selectedIndex
    ensures r.effect.Dispatch? <==> !IsBlank(q)
    ensures r.effect.Dispatch? ==> r.effect.arg == q
    ensures r.effect.Dispatch? || r.effect.NoEffect?
    ensures r.state.isLoading <==> r.effect.Dispatch?
    ensures r.state.suggestions == (if r.effect.Dispatch? then s.suggestions else [])
    ensures CursorInv(s) ==> CursorInv(r.state)
  {
    if IsBlank(q) then
      Outcome(s.(suggestions := [], isLoading := false), NoEffect)
    else
      Outcome(s.(isLoading := true), Dispatch(q))
  }

  /** A search request completed: the results (or none, when the response has no `results`)
      replace the list, the panel opens, the cursor goes back to -1 and the spinner stops.
      Nothing checks which request this was. */
  function SearchSucceeded(s: UiState, results: Option<seq<Item>>): (r: UiState)
    ensures r.query == s.query
    ensures r.suggestions == results.GetOr([])
    ensures results.None? ==> r.suggestions == []
    ensures r.showSuggestions && !r.isLoading
    ensures r.selectedIndex == -1
    ensures CursorInv(r)
    ensures DropdownShown(r) <==> |results.GetOr([])| > 0
    ensures NoResultsShown(r) <==> |results.GetOr([])| == 0 && !IsBlank(s.query)
  {
    UiState(s.query, results.GetOr([]), false, true, -1)
  }

  /** A search request failed: the list is emptied and the spinner stops; the panel flag and
      the cursor keep their values. */
  function SearchFailed(s: UiState): (r: UiState)
    ensures r.suggestions == [] && !r.isLoading
    ensures r.query == s.query
    ensures r.showSuggestions == s.showSuggestions
    ensures r.selectedIndex == s.selectedIndex
    ensures !DropdownShown(r)
    ensures CursorInv(s) ==> CursorInv(r)
  {
    s.(suggestions := [], isLoading := false)
  }

  /** `handleInputChange`: the text is taken and the panel opens. Blank text empties the list
      and stops the spinner at once, with no search scheduled; other text starts the spinner
      and is handed to the debounced search. The cursor is not touched. */
  function InputChanged(s: UiState, value: string): (r: Outcome)
    ensures r.state.query == value && r.state.showSuggestions
    ensures r.state.selectedIndex == s.selectedIndex
    ensures IsBlank(value) ==> r.state.suggestions == [] && !r.state.isLoading && r.effect == NoEffect
    ensures !IsBlank(value) ==>
              r.state.suggestions == s.suggestions && r.state.isLoading && r.effect == Schedule(value)
    ensures CursorInv(s) ==> CursorInv(r.state)
    ensures !IsBlank(value) ==> !NoResultsShown(r.state)
  {
    if !IsBlank(value) then
      Outcome(s.(query := value, showSuggestions := true, isLoading := true), Schedule(value))
    else
      Outcome(s.(query := value, showSuggestions := true, suggestions := [], isLoading := false), NoEffect)
  }

  /** `handleItemSelect(item)`: the text becomes the item's name, the list is emptied and the
      panel closed; the host hears of exactly this item when it passed a callback. The cursor
      and the spinner keep their values. */
  function ItemSelected(s: UiState, item: Item, hostListens: bool): (r: Outcome)
    ensures r.state.query == item.name
    ensures r.state.suggestions == [] && !r.state.showSuggestions
    ensures r.state.isLoading == s.isLoading
    ensures r.state.selectedIndex == s.selectedIndex
    ensures r.effect == (if hostListens then Notify(item) else NoEffect)
    ensures !DropdownShown(r.state) && !NoResultsShown(r.state)
    ensures CursorInv(s) ==> CursorInv(r.state)
  {
    Outcome(UiState(item.name, [], s.isLoading, false, s.selectedIndex),
            if hostListens then Notify(item) else NoEffect)
  }

  /** `handleKeyDown`. While the dropdown is not rendered, only Enter on non-blank text does
      anything: it searches for the text immediately. While it is rendered, ArrowDown moves the
      cursor one row down but not past the last row, ArrowUp moves it one row up but not above
      -1, Enter selects the highlighted row if there is one, and Escape closes the panel and
      clears the cursor without touching the text or the list. */
  function KeyDown(s: UiState, key: Key, hostListens: bool): (r: Outcome)
    ensures !DropdownShown(s) && key == Enter && !IsBlank(s.query) ==>
              r.effect == Dispatch(s.query) && r.state == s.(isLoading := true)
    ensures !DropdownShown(s) && !(key == Enter && !IsBlank(s.query)) ==>
              r == Outcome(s, NoEffect)
    ensures DropdownShown(s) && (key.ArrowDown? || key.ArrowUp?) ==>
              r.effect == NoEffect && r.state == s.(selectedIndex := r.state.selectedIndex)
    ensures DropdownShown(s) && key.ArrowDown? && s.selectedIndex < |s.suggestions| ==>
              r.state.selectedIndex == Min(s.selectedIndex + 1, |s.suggestions| - 1)
    ensures DropdownShown(s) && key.ArrowDown? && s.selectedIndex >= |s.suggestions| ==>
              r.state.selectedIndex == s.selectedIndex
    ensures DropdownShown(s) && key.ArrowUp? ==>
              r.state.selectedIndex == Max(s.selectedIndex - 1, -1)
    ensures DropdownShown(s) && key.Enter? && 0 <= s.selectedIndex < |s.suggestions| ==>
              var picked := s.suggestions[s.selectedIndex];
              && r.state.query == picked.name
              && r.state.suggestions == [] && !r.state.showSuggestions
              && r.state.isLoading == s.isLoading && r.state.selectedIndex == s.selectedIndex
              && r.effect == (if hostListens then Notify(picked) else NoEffect)
    ensures DropdownShown(s) && key.Enter? && !(0 <= s.selectedIndex < |s.suggestions|) ==>
              r == Outcome(s, NoEffect)
    ensures DropdownShown(s) && key.Escape? ==>
              r.effect == NoEffect && r.state == s.(showSuggestions := false, selectedIndex := -1)
    ensures key.OtherKey? ==> r == Outcome(s, NoEffect)
    ensures r.effect.Notify? ==> r.effect.item in s.suggestions && DropdownShown(s)
    ensures CursorInv(s) ==> CursorInv(r.state)
  {
    if !DropdownShown(s) then
      if key == Enter && !IsBlank(s.query) then PerformSearch(s, s.query) else Outcome(s, NoEffect)
    else
      match key
      case ArrowDown =>
        Outcome(s.(selectedIndex := if s.selectedIndex < |s.suggestions| - 1 then s.selectedIndex + 1 else s.selectedIndex), NoEffect)
      case ArrowUp =>
        Outcome(s.(selectedIndex := if s.selectedIndex > 0 then s.selectedIndex - 1 else -1), NoEffect)
      case Enter =>
        if 0 <= s.selectedIndex < |s.suggestions| then
          ItemSelected(s, s.suggestions[s.selectedIndex], hostListens)
        else
          Outcome(s, NoEffect)
      case Escape =>
        Outcome(s.(showSuggestions := false, selectedIndex := -1), NoEffect)
      case OtherKey =>
        Outcome(s, NoEffect)
  }

  /** The input gains focus: a retained list is shown again; without one nothing changes.
      No search is sent. */
  function Focused(s: UiState): (r: UiState)
    ensures r == s.(showSuggestions := r.showSuggestions)
    ensures |s.suggestions| > 0 ==> r.showSuggestions
    ensures |s.suggestions| == 0 ==> r == s
    ensures DropdownShown(r) <==> |s.suggestions| > 0
    ensures CursorInv(s) ==> CursorInv(r)
  {
    if |s.suggestions| > 0 then s.(showSuggestions := true) else s
  }

  /** The mouse enters the rendered row `index`: the cursor moves to that row. Rows exist only
      for the suggestions, so `index` is one of theirs. */
  function Hovered(s: UiState, index: int): (r: UiState)
    requires 0 <= index < |s.suggestions|
    ensures r == s.(selectedIndex := index)
    ensures CursorInv(r)
  {
    s.(selectedIndex := index)
  }

  /** A mouse press outside the search wrapper (which holds the input and both panels). The
      listener only acts while the dropdown element, the one carrying `suggestionsRef`, is
      rendered: then the panel closes, keeping the text, the list and the cursor. Otherwise
      nothing changes, so a "No results found" panel stays. */
  function ClickedOutside(s: UiState): (r: UiState)
    ensures DropdownShown(s) ==> r == s.(showSuggestions := false)
    ensures !DropdownShown(s) ==> r == s
    ensures !DropdownShown(r)
    ensures NoResultsShown(r) <==> NoResultsShown(s)
    ensures CursorInv(s) ==> CursorInv(r)
  {
    if DropdownShown(s) then s.(showSuggestions := false) else s
  }

  /** The "No results found" panel cannot be dismissed by Escape or by a press outside: the
      key handler ignores every key but Enter when the list is empty, and the outside listener
      needs the dropdown element. */
  lemma NoResultsPanelIsSticky(s: UiState, hostListens: bool)
    requires NoResultsShown(s)
    ensures KeyDown(s, Escape, hostListens) == Outcome(s, NoEffect)
    ensures ClickedOutside(s) == s
    ensures Focused(s) == s
  {
  }

  function Min(a: int, b: int): int { if a <= b then a else b }
  function Max(a: int, b: int): int { if a >= b then a else b }

  /** The state after pressing `key` `n` times in a row. */
  function PressRepeatedly(s: UiState, key: Key, n: nat, hostListens: bool): UiState
    decreases n
  {
    if n == 0 then s else PressRepeatedly(KeyDown(s, key, hostListens).state, key, n - 1, hostListens)
  }

  /** Pressing ArrowDown `n` times on an open dropdown moves the cursor `n` rows down, stopping
      at the last row; the list and the panel stay as they were. */
  lemma {:induction false} ArrowDownSaturates(s: UiState, n: nat, hostListens: bool)
    requires DropdownShown(s) && CursorInv(s)
    ensures PressRepeatedly(s, ArrowDown, n, hostListens)
              == s.(selectedIndex := Min(s.selectedIndex + n, |s.suggestions| - 1))
    decreases n
  {
    if n > 0 {
      ArrowDownSaturates(KeyDown(s, ArrowDown, hostListens).state, n - 1, hostListens);
    }
  }

  /** Pressing ArrowUp `n` times on an open dropdown moves the cursor `n` rows up, stopping
      at -1; the list and the panel stay as they were. */
  lemma {:induction false} ArrowUpSaturates(s: UiState, n: nat, hostListens: bool)
    requires DropdownShown(s) && CursorInv(s)
    ensures PressRepeatedly(s, ArrowUp, n, hostListens)
              == s.(selectedIndex := Max(s.selectedIndex - n, -1))
    decreases n
  {
    if n > 0 {
      ArrowUpSaturates(KeyDown(s, ArrowUp, hostListens).state, n - 1, hostListens);
    }
  }

  /** However often the arrows are pressed, the cursor stays within [-1, |suggestions| - 1]. */
  lemma ArrowsStayInBounds(s: UiState, key: Key, n: nat, hostListens: bool)
    requires DropdownShown(s) && CursorInv(s)
    requires key.ArrowDown? || key.ArrowUp?
    ensures -1 <= PressRepeatedly(s, key, n, hostListens).selectedIndex < |s.suggestions|
  {
    if key.ArrowDown? {
      ArrowDownSaturates(s, n, hostListens);
    } else {
      ArrowUpSaturates(s, n, hostListens);
    }
  }

  /** The state after pressing the keys of `keys` in order. */
  function PressAll(s: UiState, keys: seq<Key>, hostListens: bool): UiState
    decreases |keys|
  {
    if keys == [] then s else PressAll(KeyDown(s, keys[0], hostListens).state, keys[1..], hostListens)
  }

  /** Any mix of ArrowDown and ArrowUp presses on an open dropdown keeps the cursor within
      [-1, |suggestions| - 1] and changes nothing but the cursor. */
  lemma {:induction false} MixedArrowsStayInBounds(s: UiState, keys: seq<Key>, hostListens: bool)
    requires DropdownShown(s) && CursorInv(s)
    requires forall i :: 0 <= i < |keys| ==> keys[i].ArrowDown? || keys[i].ArrowUp?
    ensures PressAll(s, keys, hostListens) == s.(selectedIndex := PressAll(s, keys, hostListens).selectedIndex)
    ensures -1 <= PressAll(s, keys, hostListens).selectedIndex < |s.suggestions|
    decreases |keys|
  {
    if keys != [] {
      MixedArrowsStayInBounds(KeyDown(s, keys[0], hostListens).state, keys[1..], hostListens);
    }
  }
}
