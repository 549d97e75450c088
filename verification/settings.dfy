/**
 * Per-user preferences: the `user_settings` table (one row per user,
 * column defaults USD / 30 / 1 / 10), the whitelist of settable fields
 * with their value parsers, and the `settings view` / `settings set`
 * commands.
 */
module Settings {
  import opened Wrappers
  import Text

  /** The four settable columns. */
  datatype Field = Currency | ChartDays | ShowPercentages | WatchlistLimit

  function FieldName(f: Field): string
  {
    match f
    case Currency => "currency"
    case ChartDays => "chart_days"
    case ShowPercentages => "show_percentages"
    case WatchlistLimit => "watchlist_limit"
  }

  /** `field in valid_fields`: the whitelist lookup, exact and case-sensitive. */
  function FieldNamed(name: string): (r: Option<Field>)
    ensures r.Some? ==> FieldName(r.value) == name
    ensures r.None? ==> forall f: Field :: FieldName(f) != name
  {
    if name == "currency" then Some(Currency)
    else if name == "chart_days" then Some(ChartDays)
    else if name == "show_percentages" then Some(ShowPercentages)
    else if name == "watchlist_limit" then Some(WatchlistLimit)
    else None
  }

  /** A parsed value, ready to be written into its column. */
  datatype Setting = SetCurrency(code: string) | SetChartDays(days: int) | SetShowPercentages(on: bool) | SetWatchlistLimit(limit: int)

  function FieldOf(s: Setting): Field
  {
    match s
    case SetCurrency(_) => Currency
    case SetChartDays(_) => ChartDays
    case SetShowPercentages(_) => ShowPercentages
    case SetWatchlistLimit(_) => WatchlistLimit
  }

  /** The strings the `show_percentages` parser reads as true, after lower-casing. */
  const TruthyWords: set<string> := {"true", "1", "yes"}

  /**
   * The parser of each field: `currency` takes the text as it is,
   * `chart_days` and `watchlist_limit` take what `int` accepts (and fail on
   * anything else), `show_percentages` never fails.
   */
  function ParseSetting(f: Field, raw: string): (r: Option<Setting>)
    ensures r.Some? ==> FieldOf(r.value) == f
    ensures f == Currency ==> r == Some(SetCurrency(raw))
    ensures f == ShowPercentages ==> r == Some(SetShowPercentages(Text.Lower(raw) in TruthyWords))
    ensures f == ChartDays || f == WatchlistLimit ==> (r.Some? <==> Text.ParseInt(raw).Some?)
    ensures f == ChartDays && r.Some? ==> r.value == SetChartDays(Text.ParseInt(raw).value)
    ensures f == WatchlistLimit && r.Some? ==> r.value == SetWatchlistLimit(Text.ParseInt(raw).value)
  {
    match f
    case Currency => Some(SetCurrency(raw))
    case ShowPercentages => Some(SetShowPercentages(Text.Lower(raw) in TruthyWords))
    case ChartDays =>
      (match Text.ParseInt(raw) case Some(n) => Some(SetChartDays(n)) case None => None)
    case WatchlistLimit =>
      (match Text.ParseInt(raw) case Some(n) => Some(SetWatchlistLimit(n)) case None => None)
  }

  /** The range of SQLite's `INTEGER`, a signed 64-bit integer. */
  const MinInteger: int := -0x8000_0000_0000_0000
  const MaxInteger: int := 0x7FFF_FFFF_FFFF_FFFF

  /**
   * The parsed value can be bound as a statement parameter: `sqlite3` raises
   * `OverflowError` for a Python `int` outside SQLite's `INTEGER` range.
   */
  predicate Bindable(s: Setting)
  {
    match s
    case SetChartDays(d) => MinInteger <= d <= MaxInteger
    case SetWatchlistLimit(l) => MinInteger <= l <= MaxInteger
    case _ => true
  }

  /** A stored column value: `TEXT` or `INTEGER` (a Python bool is stored as 0 or 1). */
  datatype Value = TextValue(text: string) | IntValue(number: int)

  /** One row of `user_settings`, without its key. */
  datatype Row = Row(currency: string, chartDays: int, showPercentages: int, watchlistLimit: int)

  /** The column defaults, which are also what `settings view` shows to a user without a row. */
  const Defaults: Row := Row("USD", 30, 1, 10)

  /** The value of one column of a row. */
  function Read(row: Row, f: Field): Value
  {
    match f
    case Currency => TextValue(row.currency)
    case ChartDays => IntValue(row.chartDays)
    case ShowPercentages => IntValue(row.showPercentages)
    case WatchlistLimit => IntValue(row.watchlistLimit)
  }

  /** The column value a parsed setting is stored as. */
  function Stored(s: Setting): Value
  {
    match s
    case SetCurrency(c) => TextValue(c)
    case SetChartDays(d) => IntValue(d)
    case SetShowPercentages(b) => IntValue(if b then 1 else 0)
    case SetWatchlistLimit(l) => IntValue(l)
  }

  /** `SET field = excluded.field`: the setting's column reads back its value, every other column is unchanged. */
  function Apply(row: Row, s: Setting): (r: Row)
    ensures Read(r, FieldOf(s)) == Stored(s)
    ensures forall f :: f != FieldOf(s) ==> Read(r, f) == Read(row, f)
  {
    match s
    case SetCurrency(c) => row.(currency := c)
    case SetChartDays(d) => row.(chartDays := d)
    case SetShowPercentages(b) => row.(showPercentages := if b then 1 else 0)
    case SetWatchlistLimit(l) => row.(watchlistLimit := l)
  }

  /** Every field name of the whitelist is recognised as that field. */
  lemma FieldNameRoundTrip(f: Field)
    ensures FieldNamed(FieldName(f)) == Some(f)
  {
  }

  /** The `show_percentages` parser: true for the three truthy words in any case, false for every other text. */
  lemma ShowPercentagesExamples()
    ensures ParseSetting(ShowPercentages, "YES") == Some(SetShowPercentages(true))
    ensures ParseSetting(ShowPercentages, "no") == Some(SetShowPercentages(false))
  {
    assert Text.Lower("YES") == "yes";
    assert Text.Lower("no") == "no";
  }

  /**
   * A number written in decimal is accepted by `chart_days` exactly when it
   * is within the digit limit, and then as that number; it can be stored, as
   * that number, exactly when it fits SQLite's `INTEGER`.
   */
  lemma ChartDaysRoundTrip(n: int)
    ensures ParseSetting(ChartDays, Text.ShowInt(n)).Some? <==> Text.DigitCount(n) <= Text.MaxStrDigits
    ensures Text.DigitCount(n) <= Text.MaxStrDigits ==> ParseSetting(ChartDays, Text.ShowInt(n)) == Some(SetChartDays(n))
    ensures Bindable(SetChartDays(n)) <==> MinInteger <= n <= MaxInteger
    ensures Stored(SetChartDays(n)) == IntValue(n)
  {
    Text.ParseShowRoundTrip(n);
  }

  /** Reply kinds of `settings set`; `Aborted` is the exception from `save_setting`, which the command does not catch. */
  datatype SetReply = InvalidField | InvalidValue | Aborted | Updated

  /** The `user_settings` table, keyed by user. */
  class SettingsTable {
    var rows: map<string, Row>

    constructor ()
      ensures rows == map[]
    {
      rows := map[];
    }

    /**
     * `save_setting`: insert a row of defaults carrying the new value, or
     * update just that column of the existing row; no other user changes.
     * A value that cannot be bound raises before anything is written
     * (`saved` is false).
     */
    method SaveSetting(userId: string, s: Setting) returns (saved: bool)
      modifies this
      ensures saved <==> Bindable(s)
      ensures !saved ==> rows == old(rows)
      ensures saved ==> rows.Keys == old(rows).Keys + {userId}
      ensures saved ==> forall u :: u in old(rows) && u != userId ==> rows[u] == old(rows)[u]
      ensures saved ==> rows[userId] == Apply(if userId in old(rows) then old(rows)[userId] else Defaults, s)
      ensures saved ==> Read(rows[userId], FieldOf(s)) == Stored(s)
    {
      if !Bindable(s) {
        return false;
      }
      var base := if userId in rows then rows[userId] else Defaults;
      rows := rows[userId := Apply(base, s)];
      saved := true;
    }

    /** `get_settings`: the user's row, or nothing for a user never written. */
    method GetSettings(userId: string) returns (r: Option<Row>)
      ensures r.Some? <==> userId in rows
      ensures r.Some? ==> r.value == rows[userId]
    {
      r := if userId in rows then Some(rows[userId]) else None;
    }

    /** `settings view`: the stored row, or the defaults for a user without one (not written back). */
    method View(userId: string) returns (shown: Row)
      ensures userId in rows ==> shown == rows[userId]
      ensures userId !in rows ==> shown == Defaults
    {
      var stored := GetSettings(userId);
      shown := if stored.Some? then stored.value else Defaults;
    }

    /**
     * `settings set`: an unknown field or an unparsable value is rejected
     * without a write; otherwise the parsed value is saved, so only a
     * whitelisted column is ever written. An integer beyond SQLite's range
     * makes the save raise, which aborts the command with nothing written.
     */
    method Set(userId: string, field: string, value: string) returns (reply: SetReply)
      modifies this
      ensures reply == InvalidField <==> FieldNamed(field).None?
      ensures reply == InvalidValue <==> FieldNamed(field).Some? && ParseSetting(FieldNamed(field).value, value).None?
      ensures reply == Aborted <==>
                FieldNamed(field).Some? && ParseSetting(FieldNamed(field).value, value).Some? &&
                !Bindable(ParseSetting(FieldNamed(field).value, value).value)
      ensures reply != Updated ==> rows == old(rows)
      ensures reply == Updated ==>
                var s := ParseSetting(FieldNamed(field).value, value).value;
                FieldName(FieldOf(s)) == field &&
                rows == old(rows)[userId := Apply(if userId in old(rows) then old(rows)[userId] else Defaults, s)]
    {
      var f := FieldNamed(field);
      if f.None? {
        return InvalidField;
      }
      var parsed := ParseSetting(f.value, value);
      if parsed.None? {
        return InvalidValue;
      }
      var saved := SaveSetting(userId, parsed.value);
      reply := if saved then Updated else Aborted;
    }
  }

  /** A zero-padded `chart_days` value of more than 4300 digits is refused, however small its value. */
  lemma PaddedChartDaysRefused()
    ensures ParseSetting(ChartDays, seq(Text.MaxStrDigits - 1, _ => '0') + "45") == None
  {
    Text.PaddedDigitsRefused();
  }

  /** Setting `chart_days` to "45" and reading back gives 45; setting `show_percentages` to "no" gives 0. */
  method SetThenRead(table: SettingsTable, userId: string) returns (days: Option<Row>, flag: Option<Row>)
    modifies table
    ensures days.Some? && days.value.chartDays == 45
    ensures flag.Some? && flag.value.showPercentages == 0 && flag.value.chartDays == 45
  {
    ChartDaysRoundTrip(45);
    assert Text.ShowInt(45) == "45";
    var days45 := SetChartDays(45);
    assert FieldNamed("chart_days") == Some(ChartDays);
    assert ParseSetting(ChartDays, "45") == Some(days45) && Bindable(days45);
    var r1 := table.Set(userId, "chart_days", "45");
    assert r1 == Updated && table.rows[userId].chartDays == 45;
    days := table.GetSettings(userId);
    assert Text.Lower("no") == "no";
    var off := SetShowPercentages(false);
    assert FieldNamed("show_percentages") == Some(ShowPercentages);
    assert ParseSetting(ShowPercentages, "no") == Some(off) && Bindable(off);
    var r2 := table.Set(userId, "show_percentages", "no");
    assert r2 == Updated;
    flag := table.GetSettings(userId);
  }
}
