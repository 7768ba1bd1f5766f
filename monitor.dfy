/**
  The dashboard's mutable state and one pass of its main loop (op.py): the
  module-level `log_messages`, `show_logs` and `price_data` become the fields
  of one `Monitor` object, and `while True` becomes a single `RunCycle` step.
 */
module OpTerminal {

  import opened Wrappers
  import opened LogHistory
  import opened Fetch
  import opened Display
  import opened Keys

  class Monitor {
    var logMessages: seq<string>
    var showLogs: bool
    var priceData: Snapshot

    /** The log never holds more than five lines. */
    ghost predicate Valid()
      reads this
    {
      |logMessages| <= MaxLogs
    }

    /** The start-up state: no log lines, logs shown, every field `None`. */
    constructor ()
      ensures Valid()
      ensures logMessages == [] && showLogs && priceData == NoSnapshot
    {
      logMessages := [];
      showLogs := true;
      priceData := NoSnapshot;
    }

    /** `log_message`: insert the stamped line in front, then drop the last one if there are more than five. */
    method LogMessage(message: string, timestamp: string)
      requires Valid()
      modifies this`logMessages
      ensures Valid()
      ensures logMessages == Push(old(logMessages), Entry(timestamp, message))
    {
      logMessages := [Entry(timestamp, message)] + logMessages;
      if |logMessages| > MaxLogs {
        logMessages := logMessages[..|logMessages| - 1];
      }
    }

    /**
      `fetch_price` given the outcome of the request: the new snapshot, exactly
      one new log line, and the seconds slept on a 429 (`None` when it does not sleep).
     */
    method FetchPrice(outcome: Outcome, timestamp: string, priceText: real -> string)
      returns (slept: Option<nat>)
      requires Valid() && Defined(outcome)
      modifies this`logMessages, this`priceData
      ensures Valid()
      ensures priceData == NextSnapshot(old(priceData), outcome)
      ensures logMessages == Push(old(logMessages), Entry(timestamp, AttemptMessage(outcome, priceText)))
      ensures slept == RateLimitSleep(outcome)
    {
      match outcome
      case Response(status, body, retryAfter) =>
        if status == 200 {
          var data := body[0];
          priceData := priceData.(price := Get(data, "current_price"));
          priceData := priceData.(high24h := Get(data, "high_24h"));
          priceData := priceData.(low24h := Get(data, "low_24h"));
          priceData := priceData.(marketCap := Get(data, "market_cap"));
          priceData := priceData.(volume := Get(data, "total_volume"));
          priceData := priceData.(priceChangePercentage := Get(data, "price_change_percentage_24h"));
          LogMessage(SuccessPrefix + priceText(priceData.price.value), timestamp);
          slept := None;
        } else if status == 429 {
          var waitTime := if retryAfter.Some? then Decimal.Value(retryAfter.value) else MaxRetryWait;
          LogMessage(RateLimitMessage(waitTime), timestamp);
          slept := Some(waitTime);
        } else {
          LogMessage(StatusMessage(status), timestamp);
          slept := None;
        }
      case NetworkError(e) =>
        LogMessage(NetworkPrefix + e, timestamp);
        slept := None;
    }

    /**
      The wait phase: up to `WaitTicks` ticks; where the platform polls the
      keyboard (`polled`), the first `l`/`L` flips `showLogs` and ends the wait.
      Returns the number of ticks slept.
     */
    method WaitAndPoll(polled: bool, keys: seq<Option<char>>) returns (ticks: nat)
      requires Valid()
      modifies this`showLogs
      ensures Valid()
      ensures showLogs == (old(showLogs) != ToggleTick(polled, keys).Some?)
      ensures ticks == TicksWaited(polled, keys)
    {
      ticks := 0;
      for i := 0 to WaitTicks
        invariant ticks == i
        invariant showLogs == old(showLogs)
        invariant polled ==> forall j :: 0 <= j < i ==> !TogglesAt(keys, j)
      {
        ticks := i + 1;
        var key := KeyAt(keys, i);
        if polled && key.Some? && IsToggleKey(key.value) {
          assert TogglesAt(keys, i);
          assert FirstToggle(keys, 0) == Some(i);
          showLogs := !showLogs;
          break;
        }
      }
    }

    /**
      One iteration of the main loop: fetch, render, wait. Returns what was
      rendered, the rate-limit sleep and the ticks of the wait phase.
     */
    method RunCycle(outcome: Outcome, timestamp: string, priceText: real -> string,
                    polled: bool, keys: seq<Option<char>>)
      returns (screen: Screen, slept: Option<nat>, ticks: nat)
      requires Valid() && Defined(outcome)
      modifies this
      ensures Valid()
      ensures priceData == NextSnapshot(old(priceData), outcome)
      ensures logMessages == Push(old(logMessages), Entry(timestamp, AttemptMessage(outcome, priceText)))
      ensures slept == RateLimitSleep(outcome)
      ensures screen == Render(priceData, logMessages, old(showLogs))
      ensures showLogs == (old(showLogs) != ToggleTick(polled, keys).Some?)
      ensures ticks == TicksWaited(polled, keys)
    {
      slept := FetchPrice(outcome, timestamp, priceText);
      screen := Render(priceData, logMessages, showLogs);
      ticks := WaitAndPoll(polled, keys);
    }
  }
}
