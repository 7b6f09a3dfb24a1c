/**
  The mounted search bar as one machine: the React state, the debounce timer slot, the
  search requests sent and not yet answered, and whether the host passed `onItemSelect`.
  Every input the component reacts to is an `Event`; the timer firing and a request
  completing are events like keystrokes, delivered in any order the environment chooses.
*/
module Component {
  import opened Wrappers
  import opened Text
  import opened SearchBar
  import Debounce

  datatype Machine = Machine(
    ui: UiState,
    timer: Debounce.Slot<string>,
    inFlight: multiset<string>,   // queries of the requests still outstanding
    hostListens: bool)

  /** The machine at mount: nothing typed, nothing pending, nothing sent. */
  function Mounted(hostListens: bool): (m: Machine)
    ensures Inv(m)
    ensures !DropdownShown(m.ui) && !NoResultsShown(m.ui)
  {
    Machine(Initial, Debounce.Empty(), multiset{}, hostListens)
  }

  datatype Event =
    | TextChanged(value: string)
    | TimerFired
    | SearchResolved(sent: string, results: Option<seq<Item>>)
    | SearchRejected(sent: string)
    | KeyPressed(key: Key)
    | InputFocused
    | RowHovered(index: int)
    | RowClicked(index: int)
    | OutsideMouseDown

  /** The events that can reach the component: the timer fires only when set, a response
      arrives only for a request that was sent, and the mouse can only meet rendered rows. */
  predicate Enabled(m: Machine, e: Event) {
    match e
    case TimerFired => m.timer.pending.Some?
    case SearchResolved(q, _) => q in m.inFlight
    case SearchRejected(q) => q in m.inFlight
    case RowHovered(i) => DropdownShown(m.ui) && 0 <= i < |m.ui.suggestions|
    case RowClicked(i) => DropdownShown(m.ui) && 0 <= i < |m.ui.suggestions|
    case _ => true
  }

  /** What the machine keeps true: the cursor bound; only non-blank text is ever pending or
      sent; and the spinner never spins with nothing pending and nothing outstanding. */
  predicate Inv(m: Machine) {
    && CursorInv(m.ui)
    && (m.timer.pending.Some? ==> !IsBlank(m.timer.pending.value))
    && (forall q :: q in m.inFlight ==> !IsBlank(q))
    && (m.ui.isLoading ==> m.timer.pending.Some? || |m.inFlight| > 0)
  }

  /** The next machine, and the item handed to the host's `onItemSelect` if any. */
  datatype Reaction = Reaction(next: Machine, selected: Option<Item>)

  /** Carries out a handler's side effect: a scheduled search goes into the timer slot, a
      sent search joins the outstanding requests, a notification reaches the host. It hands
      the invariant on: a machine satisfying it, given a handler result whose state keeps the
      cursor bound, whose search text is non-blank, and whose spinner is backed by the effect
      or by what was already pending or outstanding, ends in a machine satisfying it. */
  function Apply(m: Machine, o: Outcome): (r: Reaction)
    ensures && Inv(m) && CursorInv(o.state)
            && (o.effect.Schedule? || o.effect.Dispatch? ==> !IsBlank(o.effect.arg))
            && (o.state.isLoading ==>
                  o.effect.Schedule? || o.effect.Dispatch? || m.timer.pending.Some? || |m.inFlight| > 0)
            ==> Inv(r.next)
  {
    match o.effect
    case NoEffect => Reaction(m.(ui := o.state), None)
    case Schedule(v) => Reaction(m.(ui := o.state, timer := Debounce.Call(m.timer, v)), None)
    case Dispatch(q) => Reaction(m.(ui := o.state, inFlight := m.inFlight + multiset{q}), None)
    case Notify(item) => Reaction(m.(ui := o.state), Some(item))
  }

  /** One event. The host only ever receives an item that was on display, and only when it
      listens; the text then becomes that item's name. The invariant is preserved. */
  function Step(m: Machine, e: Event): (r: Reaction)
    requires Enabled(m, e)
    ensures r.next.hostListens == m.hostListens
    ensures r.selected.Some? ==>
              && m.hostListens && DropdownShown(m.ui)
              && r.selected.value in m.ui.suggestions
              && r.next.ui.query == r.selected.value.name
              && !DropdownShown(r.next.ui)
    ensures r.selected.Some? ==> e.RowClicked? || e == KeyPressed(Enter)
  {
    match e
    case TextChanged(v) => Apply(m, InputChanged(m.ui, v))
    case TimerFired =>
      var (timer', held) := Debounce.Fire(m.timer);
      Apply(m.(timer := timer'), PerformSearch(m.ui, held))
    case SearchResolved(q, results) =>
      Reaction(m.(ui := SearchSucceeded(m.ui, results), inFlight := m.inFlight - multiset{q}), None)
    case SearchRejected(q) =>
      Reaction(m.(ui := SearchFailed(m.ui), inFlight := m.inFlight - multiset{q}), None)
    case KeyPressed(k) => Apply(m, KeyDown(m.ui, k, m.hostListens))
    case InputFocused => Reaction(m.(ui := Focused(m.ui)), None)
    case RowHovered(i) => Reaction(m.(ui := Hovered(m.ui, i)), None)
    case RowClicked(i) => Apply(m, ItemSelected(m.ui, m.ui.suggestions[i], m.hostListens))
    case OutsideMouseDown => Reaction(m.(ui := ClickedOutside(m.ui)), None)
  }

  /** Every deliverable event preserves the invariant. */
  lemma StepPreservesInv(m: Machine, e: Event)
    requires Inv(m) && Enabled(m, e)
    ensures Inv(Step(m, e).next)
  {
    match e
    case TextChanged(v) => TextChangePreservesInv(m, v);
    case TimerFired => TimerPreservesInv(m);
    case SearchResolved(q, res) => ResponsePreservesInv(m, e);
    case SearchRejected(q) => ResponsePreservesInv(m, e);
    case KeyPressed(k) => KeyPreservesInv(m, k);
    case _ =>
  }

  /** A text change keeps the invariant. */
  lemma TextChangePreservesInv(m: Machine, v: string)
    requires Inv(m)
    ensures Inv(Step(m, TextChanged(v)).next)
  {
  }

  /** The timer firing keeps the invariant: the held text is non-blank, so it is sent. */
  lemma TimerPreservesInv(m: Machine)
    requires Inv(m) && Enabled(m, TimerFired)
    ensures Inv(Step(m, TimerFired).next)
  {
  }

  /** A response or a failure keeps the invariant. */
  lemma ResponsePreservesInv(m: Machine, e: Event)
    requires Inv(m) && (e.SearchResolved? || e.SearchRejected?) && Enabled(m, e)
    ensures Inv(Step(m, e).next)
  {
  }

  /** Any key keeps the invariant. */
  lemma KeyPreservesInv(m: Machine, k: Key)
    requires Inv(m)
    ensures Inv(Step(m, KeyPressed(k)).next)
  {
  }

  /** A run of events, or `None` if one of them cannot be delivered where it occurs. */
  function Run(m: Machine, es: seq<Event>): Option<Machine>
    decreases |es|
  {
    if es == [] then Some(m)
    else if !Enabled(m, es[0]) then None
    else Run(Step(m, es[0]).next, es[1..])
  }

  /** Every deliverable run from a machine satisfying the invariant ends in one that does; in
      particular every run from mount keeps the cursor bound. */
  lemma {:induction false} RunPreservesInv(m: Machine, es: seq<Event>)
    requires Inv(m)
    ensures Run(m, es).Some? ==> Inv(Run(m, es).value)
    decreases |es|
  {
    if es != [] && Enabled(m, es[0]) {
      StepPreservesInv(m, es[0]);
      RunPreservesInv(Step(m, es[0]).next, es[1..]);
    }
  }

  /** The debounce slot after typing the values of `es` one by one: the last non-blank value
      typed, or what was pending before if every value was blank. */
  function LastScheduled(es: seq<Event>, prior: Option<string>): Option<string>
    requires forall i :: 0 <= i < |es| ==> es[i].TextChanged?
    decreases |es|
  {
    if es == [] then prior
    else LastScheduled(es[1..], if IsBlank(es[0].value) then prior else Some(es[0].value))
  }

  /** If the last value typed is not blank, it is the one pending. */
  lemma {:induction false} LastScheduledIsLastTyped(es: seq<Event>, prior: Option<string>)
    requires forall i :: 0 <= i < |es| ==> es[i].TextChanged?
    requires es != [] && !IsBlank(es[|es| - 1].value)
    ensures LastScheduled(es, prior) == Some(es[|es| - 1].value)
    decreases |es|
  {
    if |es| > 1 {
      LastScheduledIsLastTyped(es[1..], if IsBlank(es[0].value) then prior else Some(es[0].value));
    }
  }

  /** A burst of typing with no timer firing: the input shows the last value, nothing is sent,
      and the timer holds the last non-blank value typed. */
  lemma {:induction false} TypingBurst(m: Machine, es: seq<Event>)
    requires forall i :: 0 <= i < |es| ==> es[i].TextChanged?
    ensures Run(m, es).Some?
    ensures Run(m, es).value.inFlight == m.inFlight
    ensures Run(m, es).value.timer.pending == LastScheduled(es, m.timer.pending)
    ensures es != [] ==> Run(m, es).value.ui.query == es[|es| - 1].value
    decreases |es|
  {
    if es != [] {
      var m' := Step(m, es[0]).next;
      assert m'.timer.pending == if IsBlank(es[0].value) then m.timer.pending else Some(es[0].value);
      TypingBurst(m', es[1..]);
      if |es| > 1 {
        assert es[1..][|es[1..]| - 1] == es[|es| - 1];
      }
    }
  }

  /** Once typing pauses after non-blank text, the timer fires once and sends exactly that
      text; the slot is then empty, so the same pause sends nothing more. */
  lemma QuietIntervalSendsLastTextOnce(m: Machine, es: seq<Event>)
    requires forall i :: 0 <= i < |es| ==> es[i].TextChanged?
    requires es != [] && !IsBlank(es[|es| - 1].value)
    ensures Run(m, es).Some?
    ensures var typed := Run(m, es).value;
            && Enabled(typed, TimerFired)
            && Step(typed, TimerFired).next.inFlight == m.inFlight + multiset{es[|es| - 1].value}
            && !Enabled(Step(typed, TimerFired).next, TimerFired)
  {
    TypingBurst(m, es);
    LastScheduledIsLastTyped(es, m.timer.pending);
  }

  /** No request is ever told apart from another: any outstanding response, even one for text
      the user has since replaced, overwrites the list, reopens the panel and stops the spinner. */
  lemma AnyResponseWins(m: Machine, q: string, results: Option<seq<Item>>)
    requires q in m.inFlight
    ensures Step(m, SearchResolved(q, results)).next.ui.suggestions == results.GetOr([])
    ensures Step(m, SearchResolved(q, results)).next.ui.showSuggestions
    ensures !Step(m, SearchResolved(q, results)).next.ui.isLoading
    ensures Step(m, SearchResolved(q, results)).next.inFlight == m.inFlight - multiset{q}
  {
  }
}
