/**
  The wait phase of the main loop in op.py: a fixed number of 100 ms ticks,
  with the first `l`/`L` keystroke ending the wait early.
 */
module Keys {

  import opened Wrappers

  /** Seconds between two fetches. */
  const UpdateInterval: nat := 30

  /** Ticks of the wait phase: ten per second. */
  const WaitTicks: nat := UpdateInterval * 10

  /**
    `str.lower` on a character read from the keyboard. Only ASCII letters are
    lowered here; no other character lowers to 'l', which is all the loop tests.
   */
  function Lower(c: char): char {
    if 'A' <= c <= 'Z' then (c as int - 'A' as int + 'a' as int) as char else c
  }

  predicate IsToggleKey(c: char) {
    Lower(c) == 'l'
  }

  lemma ToggleKeys(c: char)
    ensures IsToggleKey(c) <==> c == 'l' || c == 'L'
  {
  }

  /** The key pressed during tick `i`, if any; ticks beyond the sequence have none. */
  function KeyAt(keys: seq<Option<char>>, i: nat): Option<char> {
    if i < |keys| then keys[i] else None
  }

  predicate TogglesAt(keys: seq<Option<char>>, i: nat) {
    KeyAt(keys, i).Some? && IsToggleKey(KeyAt(keys, i).value)
  }

  /** The first tick at or after `from` within the wait phase at which the toggle key is pressed. */
  function FirstToggle(keys: seq<Option<char>>, from: nat): (r: Option<nat>)
    requires from <= WaitTicks
    decreases WaitTicks - from
    ensures r.Some? ==> from <= r.value < WaitTicks && TogglesAt(keys, r.value) &&
                        forall j :: from <= j < r.value ==> !TogglesAt(keys, j)
    ensures r.None? ==> forall j :: from <= j < WaitTicks ==> !TogglesAt(keys, j)
  {
    if from == WaitTicks then None
    else if TogglesAt(keys, from) then Some(from)
    else FirstToggle(keys, from + 1)
  }

  /** The tick at which the wait ends early; keys are read only where the platform can poll them. */
  function ToggleTick(polled: bool, keys: seq<Option<char>>): (r: Option<nat>)
    ensures r.Some? ==> polled && r.value < WaitTicks && TogglesAt(keys, r.value) &&
                        forall j :: 0 <= j < r.value ==> !TogglesAt(keys, j)
    ensures r.None? ==> !polled || forall j :: 0 <= j < WaitTicks ==> !TogglesAt(keys, j)
  {
    if polled then FirstToggle(keys, 0) else None
  }

  /** How many ticks the wait phase sleeps: up to and including the toggle tick, or all of them. */
  function TicksWaited(polled: bool, keys: seq<Option<char>>): (n: nat)
    ensures 1 <= n <= WaitTicks
    ensures n < WaitTicks ==> polled && TogglesAt(keys, n - 1)
    ensures polled ==> forall j :: 0 <= j < n - 1 ==> !TogglesAt(keys, j)
    ensures !polled ==> n == WaitTicks
  {
    match ToggleTick(polled, keys)
    case Some(t) => t + 1
    case None => WaitTicks
  }

  /** Decoded keys other than `l`/`L` never end the wait, wherever they fall. */
  lemma OtherKeysIgnored(polled: bool, keys: seq<Option<char>>)
    requires forall i :: 0 <= i < |keys| ==> keys[i].None? || !IsToggleKey(keys[i].value)
    ensures ToggleTick(polled, keys) == None && TicksWaited(polled, keys) == WaitTicks
  {
  }
}
