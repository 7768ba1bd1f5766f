# Optimism terminal: a model of the polling dashboard's state machine

`op.py` polls CoinGecko for the OP/USD market data and redraws a terminal
dashboard every 30 seconds. Most of the program is network and terminal glue.
This project models the state machine under that glue and proves its
properties in Dafny:

- the rolling log (`log_message`), a newest-first list of at most five
  timestamped lines;
- the state change made by one fetch attempt (`fetch_price`), given the
  attempt's outcome. A 200 response replaces the six-field snapshot. A 429
  response, any other status, or a network error leaves it alone. Every attempt
  logs exactly one line. A 429 sleeps for `Retry-After` seconds, or 60 seconds
  when the header is missing;
- what `display_price` decides for each line: a value or "N/A", the up or down
  marker of the 24h change, and whether the log section appears;
- one pass of the main loop: fetch, render, then wait up to 300 ticks of
  100 ms. During the wait the first `l`/`L` key flips `show_logs` and ends the
  wait early.

Files and modules:

- `wrappers.dfy` (`Wrappers`): `Option`, which stands for Python's `None`-or-value.
- `decimal.dfy` (`Decimal`): reading digit strings the way `int(...)` does, and
  writing `int`s the way an f-string does. One canonical string maps to one
  number in each direction.
- `log_history.dfy` (`LogHistory`): `Push` is one `log_message` call. `PushAll`
  is a sequence of calls.
- `fetch.dfy` (`Fetch`): the outcome of a request, the `Snapshot`, the snapshot
  transition, the logged message and the rate-limit sleep.
- `display.dfy` (`Display`): the `Screen` that one rendering produces.
- `keys.dfy` (`Keys`): the tick loop's toggle key and where the wait ends.
- `monitor.dfy` (`OpTerminal`): class `Monitor`. Its three fields are the
  module-level `log_messages`, `show_logs` and `price_data`. Its methods update
  those fields in place, as op.py does.

The model works on abstract inputs:

- The HTTP exchange is an `Outcome` value. `Response(status, body, retryAfter)`
  carries the status code, the JSON array (a sequence of `Record` maps) and the
  `Retry-After` header. `NetworkError(description)` stands for a
  `RequestException`.
- The timestamp of each log line is an opaque string parameter.
- The three-decimal rendering of the price in the success line is a function
  parameter, `priceText`.
- Keyboard input is a sequence with one `Option<char>` per tick. A tick past
  the end of the sequence has no key. `polled` says whether the platform polls
  the keyboard at all. In op.py only Windows (`os.name == 'nt'`) does.

Points where op.py's behaviour is easy to misread, and which the model keeps as written:

- A field shows "N/A" when its value is falsy. So a price, high, low, market
  cap or volume of exactly 0 also shows "N/A", not only a missing value.
- The 24h change is tested with `is not None`, not for truthiness. A zero change
  is therefore shown, with the down marker.
- A 200 response whose body is not JSON makes `response.json()` raise
  `requests.exceptions.JSONDecodeError` (requests 2.27 and later). That is a
  `RequestException`, so op.py logs it as a network error and keeps the
  snapshot. The model treats such a response as the `NetworkError` outcome.
  A body that parses but has the wrong shape (an empty array, no current
  price) raises out of the program. Such responses are outside the model
  (see `Fetch.Defined`).
- Only Windows polls the keyboard, so `polled` is a parameter.

## Model

| member | source | states |
|---|---|---|
| `LogHistory.Entry` | op.py:50-51 | A log line is `[`, the timestamp, `] `, then the message, with nothing added or lost. |
| `LogHistory.Push` | op.py:48-54 | The new entry is first. The rest is the old history's first entries, unchanged and in order. The length grows by one up to the cap of 5, then stays the same, so the oldest entry is the one dropped. |
| `LogHistory.PushKeepsNewest` | op.py:52-54 | For a history of n ≤ 5 entries, one push gives at most 5 entries. The tail is exactly the old history's first min(n, 4) entries. |
| `LogHistory.PushAllKeepsNewest` | op.py:48-54 | After any sequence of log calls on a history of at most 5 entries, the history is the first 5 entries of "the new entries, latest first, then the old history". It is never longer than 5 and always newest-first. |
| `LogHistory.LastFiveLogged` | op.py:48-54 | After at least five log calls, the history is exactly the last five entries logged, latest first, whatever it held before. |
| `LogHistory.NewestOfNewest` | op.py:53-54 | Cutting a list to 5 entries before putting entries in front of it makes no difference to its first 5 entries. So truncating on every push equals truncating once. |
| `LogHistory.ReversedAppend` | op.py:52 | A reversed concatenation is the reversed second part followed by the reversed first part. This lemma supports `LastFiveLogged`. |
| `Fetch.NextSnapshot` | op.py:61-78 | On status 200, all six fields come from the first record. A key that is missing or null gives `None`. On 429, any other status or a network error, the snapshot is unchanged. |
| `Fetch.SuccessForgetsOldSnapshot` | op.py:61-68 | A successful fetch gives the same snapshot whatever the previous one was. No field is carried over or merged. |
| `Fetch.MissingKeyClears` | op.py:64 | A record without `high_24h` sets the 24h high to `None`, even if it held a value before. |
| `Fetch.LastSuccess` | op.py:61 | Returns the index of the last successful attempt: that attempt succeeded and none after it did. Returns `None` exactly when no attempt succeeded. |
| `Fetch.SnapshotIsLastSuccess` | op.py:61-78 | After any sequence of attempts, the snapshot is the one built from the last successful attempt. If none succeeded, it is the starting snapshot. Stale data stays on display, and fields from different cycles never mix. |
| `Fetch.RetryWait` | op.py:71-72 | With no `Retry-After` header the wait is `MAX_RETRY_WAIT` = 60. A header without leading zeros is the decimal text of the wait. |
| `Fetch.AttemptMessage` | op.py:69-78 | Each branch's log message starts with that branch's fixed text: success, rate limit, error status, or network error. After its prefix, the success message is the rendering of the new current price. The network-error message ends with the exception's description. |
| `Fetch.RateLimitSleep` | op.py:70-74 | The attempt sleeps only on status 429. It sleeps for the `Retry-After` value read as an integer, or `MAX_RETRY_WAIT` = 60 seconds when the header is missing. |
| `Fetch.RetryAfterExamples` | op.py:71-72 | `Retry-After: 5` gives a 5-second sleep. No header gives 60 seconds. |
| `Fetch.RateLimitLogStatesWait` | op.py:72-73 | The rate-limit log line has the fixed prefix. The text between the prefix and the fixed suffix is digits that read back as the number of seconds slept. |
| `Fetch.RateLimitLogEchoesHeader` | op.py:71-73 | A `Retry-After` value without leading zeros appears unchanged in the rate-limit log line. |
| `Fetch.StatusLogStatesCode` | op.py:75-76 | For a status other than 200 and 429, the log line has the fixed prefix, and the digits between its fixed parts read back as the status code. |
| `Decimal.Value` | op.py:72 | `int(...)` of a digit string. A string of k digits denotes a number below 10^k. |
| `Decimal.Text` | op.py:73 | An `int` written into a log line is one or more digits with no leading zero. |
| `Decimal.ValueOfText` | op.py:72-73 | Reading back the decimal text of a number gives that number. |
| `Decimal.TextOfValue` | op.py:72-73 | Writing out the number that a digit string without leading zeros denotes gives back that string. |
| `Decimal.CanonicalValueBound` | op.py:72 | A digit string of two or more digits with no leading zero denotes at least 10. |
| `Decimal.FramedValue` | op.py:73 | A number written between any prefix and suffix can be read back from between them. |
| `Display.ShowField` | op.py:104-110 | A field line shows "N/A" exactly when the value is falsy (`None` or 0). Otherwise it shows that value. |
| `Display.ShowChange` | op.py:89-98 | The change line shows "N/A" exactly when the change is `None`, "▲" exactly when it is strictly positive, and "▼" exactly when it is ≤ 0, so zero counts as down. The percentage shown is the snapshot's value. |
| `Display.Render` | op.py:84-117 | Each of the five field lines is "N/A" exactly when its value is falsy, and otherwise shows the snapshot's own value. The change line is "N/A" exactly when the change is `None`. Otherwise it shows the snapshot's percentage, with "▲" exactly when that is strictly positive. The log section appears exactly when `show_logs` is set, and then lists the log lines newest first. |
| `Display.ToggleAffectsOnlyLogs` | op.py:113-116 | Flipping `show_logs` changes the log section and nothing else on the screen. |
| `Display.NothingFetchedShowsNotAvailable` | op.py:35-42 | With the initial all-`None` snapshot, every field line and the change line read "N/A". |
| `Display.SamplePayload` | op.py:61-68 | A sample 200 payload shows every field value and a down marker for its -2.5 % change. |
| `Keys.ToggleKeys` | op.py:130 | A key lowers to 'l' exactly when it is `l` or `L`. |
| `Keys.FirstToggle` | op.py:127-132 | Returns the first tick, within the 300 ticks, at which `l`/`L` is pressed: that tick toggles and no earlier one does. Returns `None` exactly when no tick in the wait phase toggles. |
| `Keys.ToggleTick` | op.py:127-132 | The wait ends early at a tick only where the keyboard is polled (`os.name == 'nt'`). That tick is the first of the 300 at which `l`/`L` is pressed. `None` means no polling, or no toggle key within the wait. |
| `Keys.TicksWaited` | op.py:127-132 | The wait sleeps between 1 and `UPDATE_INTERVAL*10` = 300 ticks. If the keyboard is polled, no tick before the last one toggles. It stops before 300 only when the key at its last tick is `l`/`L`. Without polling it always sleeps all 300 ticks. |
| `Keys.OtherKeysIgnored` | op.py:129-132 | When no key is `l`/`L`, nothing toggles and the wait runs all 300 ticks. |
| `OpTerminal.Monitor.constructor` | op.py:18-42 | The start-up state has an empty log, logs shown, and every snapshot field `None`. |
| `OpTerminal.Monitor.LogMessage` | op.py:48-54 | Changes only the log. The new log is `Push` of the stamped line `[timestamp] message`, and the cap of 5 still holds. |
| `OpTerminal.Monitor.FetchPrice` | op.py:56-78 | The snapshot becomes `NextSnapshot` of the outcome. Exactly one line is logged: the success, rate-limit, status or network message. The sleep is `RateLimitSleep` of the outcome. `show_logs` is untouched. |
| `OpTerminal.Monitor.WaitAndPoll` | op.py:127-132 | `show_logs` flips exactly when a polled `l`/`L` arrives within the 300 ticks, so at most once per cycle. Exactly `TicksWaited` ticks are slept. |
| `OpTerminal.Monitor.RunCycle` | op.py:122-132 | One loop pass makes one fetch attempt and then renders the new snapshot and log with the `show_logs` value from before the wait. The wait then flips `show_logs` at most once. The log stays within 5 lines. |

## Left out

- HTTP: the request, its parameters, headers and 10-second timeout, and JSON
  decoding are network I/O. The response is the abstract `Outcome`. JSON values
  other than numbers and `null` are not modelled.
- Clock: `time.sleep`, `time.time`, the unused elapsed time and the `strftime`
  timestamp are side effects. Sleeps are returned as tick or second counts, and
  the timestamp is an opaque string.
- Terminal output: clearing the screen, the ASCII art, ANSI colours and the
  printed text and labels are not modelled, including the price line's
  "OP/USDT Price:" versus "Price: N/A". Rendering gives a structured `Screen`.
- Number formatting: the `:.3f` and `:.2f` renderings and the `:,` grouping are
  float formatting. The success line takes the price's text from the
  `priceText` parameter. Values are `real`, so a float NaN (which is truthy) is
  not represented.
- Keyboard: `msvcrt.kbhit`/`getch` and the UTF-8 decoding are platform input.
  A key is a character given per tick. A key whose byte does not decode
  ends the program with `UnicodeDecodeError`. One example is the `b'\xe0'`
  that `getch` returns first for arrow and function keys. Such keys are not
  modelled.
- Fetch.Defined: outcomes for which op.py raises instead of returning are
  excluded by this precondition of `FetchPrice` and `RunCycle`:
  - a 200 whose JSON array is empty (`IndexError`);
  - a 200 whose record has no current price (`TypeError` when formatting
    `None`);
  - a `Retry-After` of more than 4300 digits (`ValueError` from `int` since
    Python 3.11);
  - a `Retry-After` above 9223372036 seconds (`OverflowError` from
    `time.sleep`, whose nanosecond count must fit a signed 64-bit integer);
  - a `Retry-After` in HTTP-date form (`ValueError` from `int`);
  - a negative `Retry-After` such as `-5` (`ValueError` from `time.sleep`,
    after the negative wait is logged).
- Fetch.RetryWait: reads only the delay-seconds form of `Retry-After` (one or
  more ASCII digits, section 10.2.3 of RFC 9110). Python's `int` also accepts
  a `+` sign, surrounding whitespace, underscores and non-ASCII digits, and
  op.py does not raise on those. `Fetch.Defined` excludes them by choice.
  A `-` sign is excluded because op.py raises on it (see above).
- The `while True` loop never terminates. `RunCycle` models one pass of it, and
  `PushAll` and `SnapshotAfter` model the effect of many passes on the log and
  the snapshot.
