/**
  The `debounce` wrapper of the search bar reduced to what it remembers: one timer slot.
  Each call clears the previous timer and sets a new one holding the latest argument;
  when the timer fires, the held argument is passed on once. Time itself is not modelled:
  the firing of the timer is an event of its own.
*/
module Debounce {
  import opened Wrappers

  /** The timer set by the last call, if it has not fired yet, with the argument it holds. */
  datatype Slot<T> = Slot(pending: Option<T>)

  /** No timer set, as right after `debounce` returns. */
  function Empty<T>(): Slot<T> {
    Slot(None)
  }

  /** A call of the debounced function: whatever was pending is cancelled and `arg` is held instead. */
  function Call<T>(s: Slot<T>, arg: T): (r: Slot<T>)
    ensures r.pending == Some(arg)
  {
    Slot(Some(arg))
  }

  /** The timer fires: the held argument is dispatched and the slot is left empty, so it cannot fire again. */
  function Fire<T>(s: Slot<T>): (r: (Slot<T>, T))
    requires s.pending.Some?
    ensures r.1 == s.pending.value
    ensures r.0.pending.None?
  {
    (Slot(None), s.pending.value)
  }

  /** A burst of calls with no firing in between: only the last argument is pending, and an
      empty burst changes nothing. */
  function CallAll<T>(s: Slot<T>, args: seq<T>): (r: Slot<T>)
    ensures args == [] ==> r == s
    ensures args != [] ==> r.pending == Some(args[|args| - 1])
    decreases |args|
  {
    if args == [] then s
    else
      var r := CallAll(Call(s, args[0]), args[1..]);
      assert |args| > 1 ==> args[1..][|args[1..]| - 1] == args[|args| - 1];
      r
  }

  /** A burst followed by one firing dispatches exactly the last argument, once: the slot is
      empty afterwards, so no second firing can follow. */
  lemma BurstThenFireDispatchesLastOnce<T>(s: Slot<T>, args: seq<T>)
    requires args != []
    ensures CallAll(s, args).pending.Some?
    ensures Fire(CallAll(s, args)).1 == args[|args| - 1]
    ensures Fire(CallAll(s, args)).0.pending.None?
  {
  }
}
