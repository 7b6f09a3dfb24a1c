/** Concrete runs of the component from mount. */
module Scenarios {
  import opened Wrappers
  import opened Text
  import opened SearchBar
  import opened Component

  const Laptop := Item("1", "Laptop", "Electronics")

  /** Type "lap", let the timer fire, receive one result, press ArrowDown and Enter: the
      cursor goes from -1 to 0, the host receives the laptop, the text becomes "Laptop" and
      the panel closes. */
  lemma PickWithKeyboard()
    ensures var typed := Step(Mounted(true), TextChanged("lap")).next;
            && typed.timer.pending == Some("lap")
            && Enabled(typed, TimerFired)
            && var sent := Step(typed, TimerFired).next;
            && sent.inFlight == multiset{"lap"}
            && var shown := Step(sent, SearchResolved("lap", Some([Laptop]))).next;
            && DropdownShown(shown.ui) && shown.ui.selectedIndex == -1
            && var down := Step(shown, KeyPressed(ArrowDown)).next;
            && down.ui.selectedIndex == 0
            && var picked := Step(down, KeyPressed(Enter));
            && picked.selected == Some(Laptop)
            && picked.next.ui.query == "Laptop"
            && !picked.next.ui.showSuggestions
  {
    assert !IsWhitespace("lap"[0]);
  }

  /** Typing "a" and then "ab" within the quiet interval sends one request, for "ab". */
  lemma BurstSendsOnlyLast()
    ensures var typed := Step(Step(Mounted(false), TextChanged("a")).next, TextChanged("ab")).next;
            && Enabled(typed, TimerFired)
            && Step(typed, TimerFired).next.inFlight == multiset{"ab"}
  {
    assert !IsWhitespace("a"[0]) && !IsWhitespace("ab"[0]);
  }

  /** Requests for "x" and then "xy" are both outstanding; "xy" is answered first and "x"
      last. The late answer for "x" replaces the list although the text reads "xy", and the
      spinner already stopped at the first answer while "x" was still outstanding. */
  lemma LateResponseForOldTextWins(a: Item, b: Item)
    ensures var typed1 := Step(Mounted(false), TextChanged("x")).next;
            && Enabled(typed1, TimerFired)
            && var m1 := Step(typed1, TimerFired).next;
            && m1.inFlight == multiset{"x"}
            && var typed2 := Step(m1, TextChanged("xy")).next;
            && Enabled(typed2, TimerFired)
            && var m2 := Step(typed2, TimerFired).next;
            && m2.inFlight == multiset{"x", "xy"}
            && var m3 := Step(m2, SearchResolved("xy", Some([b]))).next;
            && !m3.ui.isLoading && m3.inFlight == multiset{"x"}
            && var m4 := Step(m3, SearchResolved("x", Some([a]))).next;
            && m4.ui.query == "xy" && m4.ui.suggestions == [a]
  {
    assert !IsWhitespace("x"[0]) && !IsWhitespace("xy"[0]);
    assert multiset{"x", "xy"} - multiset{"xy"} == multiset{"x"};
  }

  /** Clearing the text empties the list at once but does not cancel the timer set by the
      earlier keystroke, so the search for the old text still goes out and its answer shows
      a dropdown under an empty input. */
  lemma ClearedTextIsRepopulated(a: Item)
    ensures var cleared := Step(Step(Mounted(false), TextChanged("a")).next, TextChanged("")).next;
            && cleared.ui.suggestions == [] && cleared.ui.query == ""
            && Enabled(cleared, TimerFired)
            && var sent := Step(cleared, TimerFired).next;
            && sent.inFlight == multiset{"a"}
            && var answered := Step(sent, SearchResolved("a", Some([a]))).next;
            && answered.ui.query == "" && DropdownShown(answered.ui)
  {
    assert !IsWhitespace("a"[0]);
  }
}
