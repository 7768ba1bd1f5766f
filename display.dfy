/**
  The decisions `display_price` in op.py makes for each line of the
  dashboard: a value or "N/A" per field, the direction of the 24h change,
  and whether the log section appears. Text, colours and number formatting
  are not part of this model.
 */
module Display {

  import opened Wrappers
  import opened Fetch

  /** One field line: "N/A", or the value that is formatted. */
  datatype FieldView = NotAvailable | Shown(value: real)

  /** The 24h change line: "N/A", or the percentage with a green up or a red down marker. */
  datatype ChangeView = ChangeNotAvailable | Up(percent: real) | Down(percent: real)

  /** What one call of `display_price` puts on the screen, line by line. */
  datatype Screen = Screen(
    price: FieldView,
    high24h: FieldView,
    low24h: FieldView,
    change: ChangeView,
    marketCap: FieldView,
    volume: FieldView,
    logs: Option<seq<string>>)

  /** Python truthiness of an optional number: `None` and zero are false. */
  predicate Truthy(v: Option<real>) {
    v.Some? && v.value != 0.0
  }

  function ShowField(v: Option<real>): (f: FieldView)
    ensures f.NotAvailable? <==> !Truthy(v)
    ensures f.Shown? ==> v == Some(f.value)
  {
    if Truthy(v) then Shown(v.value) else NotAvailable
  }

  /** The indicator tests `is not None`, not truthiness, and a zero change counts as down. */
  function ShowChange(c: Option<real>): (r: ChangeView)
    ensures r.ChangeNotAvailable? <==> c.None?
    ensures r.Up? <==> c.Some? && c.value > 0.0
    ensures r.Down? <==> c.Some? && c.value <= 0.0
    ensures !r.ChangeNotAvailable? ==> c == Some(r.percent)
  {
    if c.None? then ChangeNotAvailable
    else if c.value > 0.0 then Up(c.value)
    else Down(c.value)
  }

  function Render(s: Snapshot, logs: seq<string>, showLogs: bool): (sc: Screen)
    ensures sc.price.NotAvailable? <==> !Truthy(s.price)
    ensures sc.high24h.NotAvailable? <==> !Truthy(s.high24h)
    ensures sc.low24h.NotAvailable? <==> !Truthy(s.low24h)
    ensures sc.marketCap.NotAvailable? <==> !Truthy(s.marketCap)
    ensures sc.volume.NotAvailable? <==> !Truthy(s.volume)
    ensures sc.change.ChangeNotAvailable? <==> s.priceChangePercentage.None?
    ensures sc.change.Up? <==> s.priceChangePercentage.Some? && s.priceChangePercentage.value > 0.0
    ensures !sc.change.ChangeNotAvailable? ==> s.priceChangePercentage == Some(sc.change.percent)
    ensures sc.price.Shown? ==> s.price == Some(sc.price.value)
    ensures sc.high24h.Shown? ==> s.high24h == Some(sc.high24h.value)
    ensures sc.low24h.Shown? ==> s.low24h == Some(sc.low24h.value)
    ensures sc.marketCap.Shown? ==> s.marketCap == Some(sc.marketCap.value)
    ensures sc.volume.Shown? ==> s.volume == Some(sc.volume.value)
    ensures sc.logs.Some? <==> showLogs
    ensures sc.logs.Some? ==> sc.logs.value == logs
  {
    Screen(
      ShowField(s.price),
      ShowField(s.high24h),
      ShowField(s.low24h),
      ShowChange(s.priceChangePercentage),
      ShowField(s.marketCap),
      ShowField(s.volume),
      if showLogs then Some(logs) else None)
  }

  /** Flipping the toggle changes the log section and nothing else on the screen. */
  lemma ToggleAffectsOnlyLogs(s: Snapshot, logs: seq<string>, showLogs: bool)
    ensures Render(s, logs, !showLogs) == Render(s, logs, showLogs).(logs := if showLogs then None else Some(logs))
  {
  }

  /** Before any successful fetch, every field line reads "N/A". */
  lemma NothingFetchedShowsNotAvailable(logs: seq<string>, showLogs: bool)
    ensures var sc := Render(NoSnapshot, logs, showLogs);
            sc.price == sc.high24h == sc.low24h == sc.marketCap == sc.volume == NotAvailable &&
            sc.change == ChangeNotAvailable
  {
  }

  /**
    The sample payload: every field shows its value and the negative change
    shows the down marker.
   */
  lemma SamplePayload(s: Snapshot, showLogs: bool)
    ensures var o := Response(200, [map[
                "current_price" := Some(1.2345), "high_24h" := Some(1.5), "low_24h" := Some(1.0),
                "market_cap" := Some(1000000.0), "total_volume" := Some(500000.0),
                "price_change_percentage_24h" := Some(-2.5)]], None);
            Render(NextSnapshot(s, o), [], showLogs) ==
            Screen(Shown(1.2345), Shown(1.5), Shown(1.0), Down(-2.5), Shown(1000000.0), Shown(500000.0),
                   if showLogs then Some([]) else None)
  {
  }
}
