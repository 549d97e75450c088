# FinancePal record stores and rules, in Dafny

This project models the logic of FinancePal, a Discord bot that keeps
per-user price alerts, watchlists and preferences, and proves properties
of that model. Market data, direct messages and the SQLite database are
left abstract.

- **Alerts** (`alerts.dfy`). The `alerts` table is a class holding a
  sequence of `(user, symbol, condition, target)` rows. The store has
  methods for insert, per-user select, keyed delete and per-user delete.
  The `alert`, `alert_list`, `alert_remove` and `clear_alerts` commands
  are modelled too.
  - The `check_alerts` cycle is a method with the source's two loops. The
    first loop scans the table and collects `to_remove` keys. The second
    loop deletes those keys.
  - The method is proved equal to two functions, `Notices` and
    `AfterCycle`. The lemmas about the cycle are stated over those
    functions.
  - A deletion key is `(user, symbol, target)`, without the condition. So
    a row that did not fire is still retired when another row with the
    same key fired (`ConditionIgnoredOnRetire`).
- **Watchlist** (`watchlist.dfy`). The `watchlists` table is a class over
  `(user, symbol)` rows. Adding a symbol passes three gates in order:
  1. the ISIN-shape heuristic;
  2. resolution, with a retry on the `.DE` listing;
  3. a membership check.

  The table never gains a duplicate pair. `remove`, `clear` and `list` are
  modelled too, along with the percentage change of a price line.
- **Autocomplete** (`autocomplete.dfy`). The common-ticker list and its
  filter. `cogs/watchlist.py:24-35` and `cogs/compare.py:8-19` hold
  identical copies of it, so both commands use the one definition here.
- **Settings** (`settings.dfy`). A one-row-per-user map with column
  defaults. Around it sit the whitelist of four fields with their parsers,
  the upsert, the read and the `view` / `set` commands.
- **Compare** (`compare.dfy`). Selecting the ticker arguments, the 2..5
  count check, and the per-symbol resolution loop. That loop decides what
  is plotted and whether anything was.
- **Bot** (`bot.dfy`). The `seen_users` gate for the welcome message, and
  the `_synced_once` guard of `on_ready`.
- Shared helpers:
  - `market.dfy`: the price oracle and the `.DE` resolution rule;
  - `seqs.dfy`: filtering, with multiplicity, order and composition
    lemmas;
  - `text.dfy`: ASCII case mapping, substring test, and an integer parser
    with its printer;
  - `wrappers.dfy`: `Option`.

The price provider is a parameter `history: (symbol, period) -> Fetch`. A
`Fetch` is either a raised exception or a series of closes, oldest first.
Close prices and alert targets are `real`. The alert cycle fetches once per
row, so there the provider is a parameter `fetch: nat -> Fetch` indexed by
the row's position in the scan. Two rows for the same symbol can therefore
see different outcomes, such as one raise and one series. How each row's
direct message fares is indexed the same way. Tables keep rows in insertion
order.

Behaviour of the code that is easy to misread; the model follows the
code:

- In `on_interaction` only `discord.Forbidden` is caught around the
  welcome DM. Any other error from `user.send` ends the handler early. The
  user is then not recorded as seen, and `super().on_interaction` does not
  run. So command processing happens for every interaction except that
  one.
- In `check_alerts` a failed `fetch_user` or `user.send` raises, and the
  loop's `except Exception` skips the rest of that row, so the alert is not
  marked.
- The `alert` command checks the symbol exactly as typed, but stores it
  upper-cased.
- `add` also rejects a symbol that resolves to the empty string, because
  of `if not valid_stock`.
- `on_ready` with a `DEV_GUILD_ID` that `int` rejects raises before
  syncing. The flag stays clear.
- `settings set` with a `chart_days` or `watchlist_limit` value that `int`
  accepts but that lies outside SQLite's 64-bit `INTEGER` range makes
  `save_setting` raise `OverflowError`. The call is outside the command's
  `try`, so the command aborts and nothing is written.

## Model

| member | source | states |
|---|---|---|
| `Alerts.AlertTable.AddAlert` | cogs/alerts.py:29-32 | one more row with exactly the four given values appended, no de-duplication, earlier rows unchanged |
| `Alerts.AlertTable.GetUserAlerts` | cogs/alerts.py:34-37 | the user's rows in table order, projected to (symbol, condition, target) |
| `Alerts.OfUserCount` | cogs/alerts.py:36 | the per-user select holds every row of that user with its multiplicity and no row of another user |
| `Alerts.AlertTable.RemoveAlert` | cogs/alerts.py:39-46 | deletes every row with the given (user, symbol, target) whatever its condition; returns true iff some row had that key |
| `Alerts.WithoutKeyCount` | cogs/alerts.py:41-44 | the keyed delete drops all copies of rows with that key and keeps every other row with its multiplicity |
| `Alerts.WithoutKeyShrinks` | cogs/alerts.py:46 | the table shrinks (rowcount > 0) exactly when some row carries the key |
| `Alerts.AlertTable.ClearAlerts` | cogs/alerts.py:48-51 | the table becomes the old one without the user's rows |
| `Alerts.WithoutUserCount` | cogs/alerts.py:50 | clearing removes all of the user's rows and keeps every other user's rows with their multiplicity |
| `Alerts.AlertTable.GetAllAlerts` | cogs/alerts.py:53-56 | returns the whole table |
| `Alerts.AlertTable.DeleteAlertEntry` | cogs/alerts.py:58-61 | the keyed delete used by the cycle, same effect as `remove_alert` |
| `Alerts.AlertTable.SetAlert` | cogs/alerts.py:63-86 | rejects a condition whose lower-case form is not "above"/"below" first, then a symbol whose 1-day history raises or is empty, both without a write; otherwise appends the alert with the symbol upper-cased and the condition lower-cased |
| `Alerts.AlertTable.ListAlerts` | cogs/alerts.py:88-100 | "no alerts" exactly when the user has no rows, otherwise the user's alerts |
| `Alerts.AlertTable.RemoveCommand` | cogs/alerts.py:102-114 | keyed delete with the symbol upper-cased; reports success exactly when the table shrank |
| `Alerts.AlertTable.ClearCommand` | cogs/alerts.py:116-128 | reports "nothing to clear" exactly when the user has no rows; the table loses exactly the user's rows |
| `Alerts.Fires` | cogs/alerts.py:143 | "above" fires iff price > target, "below" iff price < target, equality never fires, any other condition never fires |
| `Alerts.Evaluate` | cogs/alerts.py:137-149 | a row yields a notice iff its own 1-day fetch did not raise, is non-empty, its last close fires the rule, and the message went out; the notice carries the row's key and the last close |
| `Alerts.MarkedIff` | cogs/alerts.py:135-151 | a key enters `to_remove` iff some scanned row with that key fired and was delivered |
| `Alerts.AlertTable.CheckAlerts` | cogs/alerts.py:130-154 | the messages sent are the scan's notices in row order, and the final table is the initial table minus every row whose key was marked, deletions applied after the full scan |
| `Alerts.ScanAlerts` | cogs/alerts.py:135-151 | the scanning loop, fetching once per row, collects exactly the scan's notices and their keys; an empty or raising fetch, or a raising send, skips only that row |
| `Alerts.WithoutKeysStep` | cogs/alerts.py:153-154 | deleting the collected keys one after another equals deleting them all at once |
| `Alerts.CycleRetires` | cogs/alerts.py:153-154 | after a cycle a row has count 0 if a same-key row fired and was delivered, and its old count otherwise |
| `Alerts.ConditionIgnoredOnRetire` | cogs/alerts.py:58-61 | a row sharing (user, symbol, target) with a fired and delivered row is removed even if its own condition did not fire |
| `Alerts.NoDataKept` | cogs/alerts.py:139-140 | a row whose own fetch has no data never retires its key itself, and it is kept with all its copies when no row sharing its key had data |
| `Alerts.FailedFetchStillRetired` | cogs/alerts.py:135-154 | a row whose fetch raised is still deleted when its same-key twin with the opposite condition fires on its own fetch and is delivered |
| `Alerts.AboveScenario` | cogs/alerts.py:141-154 | an "above 100.0" alert whose fetch gives a close of 105.32 yields exactly one notice at 105.32 and leaves the table empty |
| `Market.Resolve` | cogs/compare.py:67-76 | the symbol's own series when it has data; for an unsuffixed symbol with an empty series, the `.DE` series when that has data; nothing on a raise or otherwise |
| `Market.AlternateConsultedOnlyWhenEmpty` | cogs/compare.py:69-74 | the `.DE` listing influences the result only when the primary series is empty and the symbol has no dot |
| `Watchlist.WatchlistTable.GetWatchlist` | cogs/watchlist.py:42-45 | the user's symbols in table order; a symbol is in it iff the table holds (user, symbol) |
| `Watchlist.ListedIff` | cogs/watchlist.py:44-45 | a symbol is listed for a user exactly when the pair is in the table |
| `Watchlist.WatchlistTable.AddToWatchlist` | cogs/watchlist.py:47-50 | appends the pair unconditionally |
| `Watchlist.WatchlistTable.RemoveFromWatchlist` | cogs/watchlist.py:52-55 | the table without every copy of the pair |
| `Watchlist.WithoutEntryCount` | cogs/watchlist.py:54 | the pair delete drops all copies of the pair and keeps every other row |
| `Watchlist.WatchlistTable.ClearWatchlist` | cogs/watchlist.py:57-60 | the table without the user's rows |
| `Watchlist.WithoutUserCount` | cogs/watchlist.py:59 | clearing removes all of the user's rows and keeps every other user's rows |
| `Watchlist.DeletesKeepNoDuplicates` | cogs/watchlist.py:52-60 | neither delete can introduce a duplicate pair |
| `Watchlist.ValidateTicker` | cogs/watchlist.py:62-75 | returns the symbol iff its 1-day data is non-empty; an unsuffixed symbol with an empty series resolves to symbol + ".DE" whenever that listing has data, and only then to anything else; a dotted symbol without data gives nothing |
| `Watchlist.FormatPriceLine` | cogs/watchlist.py:77-87 | a priced line iff the 2-day history did not raise and has at least two closes, carrying the last and second-to-last close; otherwise "unavailable" |
| `Watchlist.ChangePercent` | cogs/watchlist.py:83 | applying the percentage to the previous close gives back the latest close; for a positive previous close it is positive iff the price rose |
| `Watchlist.LooksLikeIsin` | cogs/watchlist.py:126 | the heuristic only flags twelve-character text ending in ten digits, so it never flags a dotted exchange symbol |
| `Watchlist.IsinHeuristicExamples` | cogs/watchlist.py:126 | the 2-letters-plus-10-digits shape catches US0378331005 but lets through IE00BKM4GZ66, an ISIN on the autocomplete list |
| `Watchlist.WatchlistTable.Add` | cogs/watchlist.py:121-144 | rejects ISIN-shaped upper-cased input, then unresolvable or empty symbols, then already-listed ones, all without a write; otherwise appends the resolved symbol; a duplicate-free table stays duplicate-free |
| `Watchlist.AddTwice` | cogs/watchlist.py:133-143 | two sequential adds of the same input never both insert; after an insert the second add reports "already listed" |
| `Watchlist.RemoveAbsentNoop` | cogs/watchlist.py:173-176 | removing an absent pair changes nothing |
| `Watchlist.WatchlistTable.Remove` | cogs/watchlist.py:167-179 | "not listed" exactly when the upper-cased pair is absent, table unchanged; otherwise every copy of the pair and nothing else is deleted |
| `Watchlist.ClearEmptyNoop` | cogs/watchlist.py:186-189 | clearing a user with no symbols changes nothing |
| `Watchlist.WatchlistTable.Clear` | cogs/watchlist.py:181-192 | "already empty" exactly when the user has no symbols, table unchanged; otherwise exactly the user's rows are deleted |
| `Watchlist.WatchlistTable.List` | cogs/watchlist.py:146-165 | nothing for an empty watchlist; the chart form hands over the symbols; otherwise one price line per listed symbol, in the same order |
| `Autocomplete.Suggest` | cogs/watchlist.py:30-35 | exactly min(matches, 10) suggestions, each a common ticker containing the upper-cased query, a prefix of all matches, and every match when there are at most ten |
| `Autocomplete.SuggestInListOrder` | cogs/compare.py:14-19 | the k-th suggestion is the common-ticker entry at the k-th of strictly increasing list positions, so suggestions follow list order, repeats included |
| `Autocomplete.EmptyQueryIsCapped` | cogs/watchlist.py:25-35 | an empty query matches all twelve tickers and is cut to the first ten |
| `Settings.FieldNamed` | cogs/settings.py:64-76 | the whitelist lookup accepts exactly the four field names and maps each to its field |
| `Settings.FieldNameRoundTrip` | cogs/settings.py:64-69 | every whitelisted name is recognised as its own field |
| `Settings.ParseSetting` | cogs/settings.py:64-83 | currency takes the text as is; chart_days and watchlist_limit succeed iff `int` accepts the text, and carry the integer `int` gives; show_percentages never fails and is true iff the lower-cased text is "true", "1" or "yes" |
| `Settings.ShowPercentagesExamples` | cogs/settings.py:67 | "YES" parses to true and "no" to false |
| `Settings.ChartDaysRoundTrip` | cogs/settings.py:66 | an integer written in decimal is accepted for chart_days exactly when it has at most 4300 digits, and then as that integer; it is storable, as that integer, exactly when it lies in SQLite's 64-bit range |
| `Settings.PaddedChartDaysRefused` | cogs/settings.py:78-83 | a chart_days value of 4299 zeros followed by "45" is refused as an invalid value, although its value is small |
| `Text.ParseInt` | cogs/settings.py:66 | a parse succeeds exactly on an optional sign followed by at most 4300 digits, leading zeros counted; the result is the digits' value, negated for a leading minus |
| `Text.ParseShowRoundTrip` | cogs/settings.py:68 | parsing the decimal spelling of an integer succeeds exactly when it has at most 4300 digits, and then gives back that integer |
| `Text.PaddedDigitsRefused` | cogs/settings.py:66 | 4301 digits are refused even when leading zeros make the value small |
| `Settings.Apply` | cogs/settings.py:97-100 | after the update the setting's column reads back the stored value and every other column is unchanged |
| `Settings.SettingsTable.SaveSetting` | cogs/settings.py:95-102 | an integer outside SQLite's 64-bit range raises with nothing written; otherwise a new user gets a row of defaults (USD, 30, 1, 10) with the field set, an existing user changes only that field, and other users are untouched |
| `Settings.SettingsTable.GetSettings` | cogs/settings.py:104-111 | the user's row, or nothing for a user never written |
| `Settings.SettingsTable.View` | cogs/settings.py:29-41 | the stored row, or the default record for a user without one, with no write |
| `Settings.SettingsTable.Set` | cogs/settings.py:61-86 | an unknown field, then an unparsable value, is rejected with no write; a parsed integer outside SQLite's 64-bit range aborts the command with no write; otherwise only the whitelisted column is upserted |
| `Settings.SetThenRead` | cogs/settings.py:85 | setting chart_days to "45" reads back 45; setting show_percentages to "no" then reads back 0 with chart_days still 45 |
| `Compare.Tickers` | cogs/compare.py:56 | at most five tickers, none empty, every non-empty argument kept, and the first two kept first when they are non-empty |
| `Compare.TickersCount` | cogs/compare.py:56 | the tickers are exactly the non-empty arguments, each as many times as it was given |
| `Compare.TickersInArgumentOrder` | cogs/compare.py:56 | the k-th ticker is the argument at the k-th of strictly increasing argument positions, so the order of the arguments is kept even when a symbol repeats |
| `Compare.CountCheckRejectsOnlyTooFew` | cogs/compare.py:57-59 | the 2..5 check can only fail by having fewer than two tickers |
| `Compare.Plotted` | cogs/compare.py:64-80 | no more series than tickers; every series has data and is labelled with a ticker as given |
| `Compare.PlottedComplete` | cogs/compare.py:64-80 | every ticker that resolves is plotted under its own name with the data it resolved to, whatever happens to the other tickers |
| `Compare.PlottedNonEmptyIff` | cogs/compare.py:62-87 | something is plotted iff some ticker resolves to a non-empty series |
| `Compare.LabelsAreOriginal` | cogs/compare.py:77 | each series is labelled with the typed ticker; its data is that symbol's or its `.DE` listing's, the latter only for an unsuffixed ticker |
| `Compare.PlotAll` | cogs/compare.py:61-80 | the loop plots exactly the resolved tickers in argument order, and the success flag is set iff some ticker resolved |
| `Compare.Compare` | cogs/compare.py:44-87 | wrong count iff fewer than two tickers; "no data" iff every ticker fails to resolve; otherwise the non-empty plotted series |
| `Bot.SeenAfter` | main_duplicate.py:53-70 | the seen set only grows; a user-less or bot interaction leaves it alone; a human is recorded unless the DM raised something other than Forbidden, in which case an unseen human stays unrecorded; nobody else is added |
| `Bot.NoWelcomeOnceSeen` | main_duplicate.py:59 | a user already in the seen set receives no welcome in any later run of interactions |
| `Bot.WelcomedAtMostOnce` | main_duplicate.py:56-70 | over any sequence of interactions each user receives the welcome at most once, and never if already seen |
| `Bot.FinancePal.constructor` | main_duplicate.py:26 | the sync flag starts clear |
| `Bot.FinancePal.OnInteraction` | main_duplicate.py:51-73 | a welcome is attempted only for an unseen human; the seen set and command processing follow `SeenAfter` and `CommandsProcessed`; the sync flag is untouched |
| `Bot.ReadyAction` | main_duplicate.py:83-95 | no sync once synced; otherwise a sync to the guild `int(DEV_GUILD_ID)` gives whenever `int` accepts it, global sync iff DEV_GUILD_ID is unset or empty, and a crash iff it is set, non-empty and rejected by `int` |
| `Bot.SyncAtMostOnce` | main_duplicate.py:83-95 | however many `on_ready` events occur, commands are synced at most once, and never after the flag is set |
| `Bot.CrashedForever` | main_duplicate.py:85 | with a DEV_GUILD_ID that `int` rejects, no `on_ready` ever syncs |
| `Bot.FinancePal.OnReady` | main_duplicate.py:78-95 | the action is `ReadyAction` of the old flag; the flag is set exactly when a sync went through |

## Left out

- Discord I/O is not modelled: replies, embeds, emoji, message text, `fetch_user` and the text of direct messages. Commands return a reply kind, and the alert cycle returns the notices it sent.
- The scheduling of `check_alerts` is not modelled (`tasks.loop(minutes=5.0)`, `before_loop` / `wait_until_ready`). A cycle is one method call.
- `asyncio.gather` in `list` is not modelled. Its lines are computed as a sequence in watchlist order.
- Concurrent handlers are not modelled, including the non-atomic check-then-insert race of `add`. Every operation runs alone.
- The network and yfinance are replaced by oracles. The alert cycle gets one outcome per row. In every other operation, repeated fetches of the same symbol and period give the same outcome.
- Pandas details reduce to the length and last elements of a sequence of closes.
- Chart rendering is not modelled: `generate_chart` (cogs/watchlist.py:89-116) and the matplotlib calls of `compare`. `List` with a chart only hands over the symbols, and `PlotAll` returns the series that would be drawn. An exception raised by `plt.plot` itself is not modelled.
- Floating point is not modelled. Prices and targets are `real`, and the `:.2f` / `:+.2f` formatting is left out.
- Watchlist.ChangePercent: does not model a zero previous close (numpy would yield inf or nan), because the percentage is defined only for a non-zero previous close.
- SQLite plumbing is not modelled: connections, commits and `init_db`. Un-ordered `SELECT`s return rows in insertion order. A failure of the database itself is not modelled.
- Text.ParseInt: accepts only an optional `+`/`-` followed by ASCII digits. Python's `int` also accepts surrounding whitespace, underscores between digits and non-ASCII digits.
- Text.ParseInt: follows interpreters with the default integer string conversion limit of 4300 digits (Python 3.11 onward, and the 3.10.7, 3.9.14, 3.8.14 and 3.7.14 security releases). Older interpreters accept any number of digits, and a raised or lowered `sys.set_int_max_str_digits` is not modelled.
- The error handler that receives the aborted `settings set` (cogs/errors.py) is not part of this model. `Set` reports it as `Aborted`.
- Text.Upper: maps ASCII letters only. Python's `str.upper`, `str.lower`, `str.isalpha` and `str.isdigit` also act on non-ASCII characters.
- `show_percentages` is stored as the integer 0 or 1, as SQLite stores a Python bool. The round trip therefore reads back 1 or 0 rather than `True` or `False`.
- The admin `sync` command (main_duplicate.py:97-109) is not modelled, and neither is a failure of `tree.sync` in `on_ready`.
- main.py, testbot.py, cogs/core.py, cogs/info.py, cogs/errors.py and cogs/desync.py are not part of this model. They are process bootstrap, static help text and error-message dispatch.
