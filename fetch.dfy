/**
  The state-changing part of `fetch_price` in op.py, with the HTTP exchange
  abstracted to its outcome: which snapshot follows an attempt, which line is
  logged, and how long the rate-limit branch sleeps.
 */
module Fetch {

  import opened Wrappers
  import Decimal

  /** Seconds slept on a 429 response that carries no `Retry-After` header. */
  const MaxRetryWait: nat := 60

  /**
    One JSON object of the provider's array: a key that is missing and a key
    whose value is `null` both read as `None` through `Get`.
    Only numbers are modelled; int and float values alike are `real`.
   */
  type Record = map<string, Option<real>>

  /** What a fetch attempt can come back with. */
  datatype Outcome =
    | Response(status: nat, body: seq<Record>, retryAfter: Option<string>)
    | NetworkError(description: string)

  /** The six tracked fields (`price_data` in op.py); all `None` before the first success. */
  datatype Snapshot = Snapshot(
    price: Option<real>,
    high24h: Option<real>,
    low24h: Option<real>,
    marketCap: Option<real>,
    volume: Option<real>,
    priceChangePercentage: Option<real>)

  const NoSnapshot := Snapshot(None, None, None, None, None, None)

  /** `dict.get(key)`: the value, or `None` when the key is missing. */
  function Get(r: Record, key: string): Option<real> {
    if key in r then r[key] else None
  }

  /** The longest digit string Python's `int` converts (the default limit since Python 3.11). */
  const MaxIntDigits: nat := 4300

  /** The longest sleep `time.sleep` accepts: the nanoseconds must fit a signed 64-bit integer. */
  const MaxSleepSeconds: nat := 9223372036

  /**
    The outcomes this model covers. op.py raises instead of returning on a 200
    whose JSON array is empty (`IndexError`), on a 200 whose record has no
    current price (formatting `None` in the log line), on a `Retry-After` of
    more than 4300 digits (`ValueError`), on a negative `Retry-After`
    (`time.sleep` raises `ValueError`), on an HTTP-date (`int` raises
    `ValueError`) and on a wait too long for `time.sleep` (`OverflowError`).
    A `+` sign, padding, underscores and non-ASCII digits do not raise; they
    are outside the delay-seconds form this model reads by choice.
   */
  predicate Defined(o: Outcome) {
    o.Response? ==>
      (o.status == 200 ==> |o.body| > 0 && Get(o.body[0], "current_price").Some?) &&
      (o.status == 429 && o.retryAfter.Some? ==>
         Decimal.IsDelaySeconds(o.retryAfter.value) &&
         |o.retryAfter.value| <= MaxIntDigits &&
         Decimal.Value(o.retryAfter.value) <= MaxSleepSeconds)
  }

  predicate IsSuccess(o: Outcome) {
    o.Response? && o.status == 200
  }

  /** The snapshot after an attempt: a success replaces every field, anything else keeps the old snapshot. */
  function NextSnapshot(s: Snapshot, o: Outcome): (r: Snapshot)
    requires Defined(o)
    ensures IsSuccess(o) ==>
      var data := o.body[0];
      r.price == Get(data, "current_price") && r.high24h == Get(data, "high_24h") &&
      r.low24h == Get(data, "low_24h") && r.marketCap == Get(data, "market_cap") &&
      r.volume == Get(data, "total_volume") &&
      r.priceChangePercentage == Get(data, "price_change_percentage_24h")
    ensures !IsSuccess(o) ==> r == s
  {
    if IsSuccess(o) then
      var data := o.body[0];
      s.(price := Get(data, "current_price"))
       .(high24h := Get(data, "high_24h"))
       .(low24h := Get(data, "low_24h"))
       .(marketCap := Get(data, "market_cap"))
       .(volume := Get(data, "total_volume"))
       .(priceChangePercentage := Get(data, "price_change_percentage_24h"))
    else
      s
  }

  /** A success does not depend on the snapshot it replaces: no field is merged across cycles. */
  lemma SuccessForgetsOldSnapshot(s: Snapshot, t: Snapshot, o: Outcome)
    requires Defined(o) && IsSuccess(o)
    ensures NextSnapshot(s, o) == NextSnapshot(t, o)
  {
  }

  /** A key missing from the record leaves that field `None`, whatever it held before. */
  lemma MissingKeyClears(s: Snapshot, o: Outcome)
    requires Defined(o) && IsSuccess(o) && "high_24h" !in o.body[0]
    ensures NextSnapshot(s, o).high24h == None
  {
  }

  predicate AllDefined(os: seq<Outcome>) {
    forall i :: 0 <= i < |os| ==> Defined(os[i])
  }

  /** The snapshot after the attempts `os`, in order. */
  function SnapshotAfter(s: Snapshot, os: seq<Outcome>): Snapshot
    requires AllDefined(os)
  {
    if os == [] then s else NextSnapshot(SnapshotAfter(s, os[..|os| - 1]), os[|os| - 1])
  }

  /** The index of the last successful attempt in `os`, if any. */
  function LastSuccess(os: seq<Outcome>): (r: Option<nat>)
    ensures r.Some? ==> r.value < |os| && IsSuccess(os[r.value]) &&
                        forall j :: r.value < j < |os| ==> !IsSuccess(os[j])
    ensures r.None? ==> forall j :: 0 <= j < |os| ==> !IsSuccess(os[j])
  {
    if os == [] then None
    else if IsSuccess(os[|os| - 1]) then Some(|os| - 1)
    else LastSuccess(os[..|os| - 1])
  }

  /**
    After any sequence of attempts the snapshot holds the fields of the last
    successful one, or is the starting snapshot when none succeeded: failures
    keep stale data on display and fields never mix across cycles.
   */
  lemma {:induction false} SnapshotIsLastSuccess(s: Snapshot, os: seq<Outcome>)
    requires AllDefined(os)
    ensures match LastSuccess(os)
      case None => SnapshotAfter(s, os) == s
      case Some(i) => SnapshotAfter(s, os) == NextSnapshot(s, os[i])
  {
    if os != [] {
      var pre := os[..|os| - 1];
      SnapshotIsLastSuccess(s, pre);
      if !IsSuccess(os[|os| - 1]) {
        assert LastSuccess(os) == LastSuccess(pre);
        match LastSuccess(pre)
        case None =>
        case Some(i) => assert os[i] == pre[i];
      }
    }
  }

  const SuccessPrefix := "Price fetched successfully: $"
  const RateLimitPrefix := "Rate limited by CoinGecko. Retrying in "
  const RateLimitSuffix := " seconds."
  const StatusPrefix := "Error: Received status code "
  const StatusSuffix := " from CoinGecko."
  const NetworkPrefix := "Network error: "

  /** The wait on a 429: `int(Retry-After)` when the header is present, else the fallback. */
  function RetryWait(retryAfter: Option<string>): (w: nat)
    requires retryAfter.Some? ==> Decimal.IsDelaySeconds(retryAfter.value)
    ensures retryAfter.None? ==> w == MaxRetryWait
    ensures retryAfter.Some? && Decimal.IsCanonical(retryAfter.value) ==> Decimal.Text(w) == retryAfter.value
  {
    if retryAfter.Some? then
      var v := retryAfter.value;
      if Decimal.IsCanonical(v) then Decimal.TextOfValue(v); Decimal.Value(v) else Decimal.Value(v)
    else
      MaxRetryWait
  }

  function RateLimitMessage(wait: nat): string {
    RateLimitPrefix + Decimal.Text(wait) + RateLimitSuffix
  }

  function StatusMessage(status: nat): string {
    StatusPrefix + Decimal.Text(status) + StatusSuffix
  }

  /**
    The one message logged for an attempt. `priceText` stands for the
    three-decimal rendering of the new price, which is out of scope.
   */
  function AttemptMessage(o: Outcome, priceText: real -> string): (m: string)
    requires Defined(o)
    ensures IsSuccess(o) ==> |SuccessPrefix| <= |m| && m[..|SuccessPrefix|] == SuccessPrefix &&
                             m[|SuccessPrefix|..] == priceText(Get(o.body[0], "current_price").value)
    ensures o.Response? && o.status == 429 ==> |RateLimitPrefix| <= |m| && m[..|RateLimitPrefix|] == RateLimitPrefix
    ensures o.Response? && o.status != 200 && o.status != 429 ==>
              |StatusPrefix| <= |m| && m[..|StatusPrefix|] == StatusPrefix
    ensures o.NetworkError? ==> |NetworkPrefix| <= |m| && m[..|NetworkPrefix|] == NetworkPrefix &&
                                m[|NetworkPrefix|..] == o.description
  {
    match o
    case NetworkError(e) => NetworkPrefix + e
    case Response(status, body, retryAfter) =>
      if status == 200 then SuccessPrefix + priceText(Get(body[0], "current_price").value)
      else if status == 429 then RateLimitMessage(RetryWait(retryAfter))
      else StatusMessage(status)
  }

  /** How long the attempt sleeps before returning: only a 429 sleeps. */
  function RateLimitSleep(o: Outcome): (w: Option<nat>)
    requires Defined(o)
    ensures w.Some? <==> o.Response? && o.status == 429
    ensures w.Some? && o.retryAfter.None? ==> w.value == MaxRetryWait
    ensures w.Some? && o.retryAfter.Some? ==>
      Decimal.IsDigits(o.retryAfter.value) && w.value == Decimal.Value(o.retryAfter.value)
  {
    if o.Response? && o.status == 429 then Some(RetryWait(o.retryAfter)) else None
  }

  /** With `Retry-After: 5` the wait is 5 seconds; without the header it is 60. */
  lemma RetryAfterExamples()
    ensures RateLimitSleep(Response(429, [], Some("5"))) == Some(5)
    ensures RateLimitSleep(Response(429, [], None)) == Some(60)
  {
    assert "5"[..0] == [];
  }

  /** The rate-limit line states the wait: the number between its fixed parts reads back as the wait slept. */
  lemma RateLimitLogStatesWait(o: Outcome, priceText: real -> string)
    requires Defined(o) && o.Response? && o.status == 429
    ensures var m := AttemptMessage(o, priceText);
            |RateLimitPrefix| + |RateLimitSuffix| <= |m| &&
            m[..|RateLimitPrefix|] == RateLimitPrefix &&
            Decimal.IsDigits(m[|RateLimitPrefix|..|m| - |RateLimitSuffix|]) &&
            Some(Decimal.Value(m[|RateLimitPrefix|..|m| - |RateLimitSuffix|])) == RateLimitSleep(o)
  {
    Decimal.FramedValue(RateLimitPrefix, RetryWait(o.retryAfter), RateLimitSuffix);
  }

  /** A canonical `Retry-After` value is echoed verbatim in the rate-limit line. */
  lemma RateLimitLogEchoesHeader(o: Outcome, priceText: real -> string)
    requires Defined(o) && o.Response? && o.status == 429
    requires o.retryAfter.Some? && Decimal.IsCanonical(o.retryAfter.value)
    ensures AttemptMessage(o, priceText) == RateLimitPrefix + o.retryAfter.value + RateLimitSuffix
  {
    Decimal.TextOfValue(o.retryAfter.value);
  }

  /** An error status line states the status code. */
  lemma StatusLogStatesCode(o: Outcome, priceText: real -> string)
    requires Defined(o) && o.Response? && o.status != 200 && o.status != 429
    ensures var m := AttemptMessage(o, priceText);
            |StatusPrefix| + |StatusSuffix| <= |m| &&
            m[..|StatusPrefix|] == StatusPrefix &&
            Decimal.IsDigits(m[|StatusPrefix|..|m| - |StatusSuffix|]) &&
            Decimal.Value(m[|StatusPrefix|..|m| - |StatusSuffix|]) == o.status
  {
    Decimal.FramedValue(StatusPrefix, o.status, StatusSuffix);
  }
}
