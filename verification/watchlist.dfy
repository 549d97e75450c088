/**
 * The per-user watchlist: the `watchlists` table, symbol admission
 * (instrument-code rejection, resolution with the `.DE` retry, membership
 * check) and the `add` / `remove` / `clear` / `list` commands.
 */
module Watchlist {
  import opened Wrappers
  import Seqs
  import Text
  import opened Market

  /** One row of the `watchlists` table. Uniqueness is the callers' job, not the table's. */
  datatype Entry = Entry(userId: string, symbol: string)

  function SymbolOf(e: Entry): string
  {
    e.symbol
  }

  /** `SELECT symbol FROM watchlists WHERE user_id = ?`, in table order. */
  function SymbolsOf(rows: seq<Entry>, userId: string): seq<string>
  {
    Seqs.Map(Seqs.Filter(rows, (e: Entry) => e.userId == userId), SymbolOf)
  }

  /** `DELETE ... WHERE user_id = ? AND symbol = ?` */
  function WithoutEntry(rows: seq<Entry>, entry: Entry): seq<Entry>
  {
    Seqs.Filter(rows, (e: Entry) => e != entry)
  }

  /** `DELETE ... WHERE user_id = ?` */
  function WithoutUser(rows: seq<Entry>, userId: string): seq<Entry>
  {
    Seqs.Filter(rows, (e: Entry) => e.userId != userId)
  }

  /** No (user, symbol) pair appears twice. */
  ghost predicate NoDuplicates(rows: seq<Entry>)
  {
    forall e :: multiset(rows)[e] <= 1
  }

  /** A symbol is listed for a user exactly when the table holds that pair. */
  lemma ListedIff(rows: seq<Entry>, userId: string, symbol: string)
    ensures symbol in SymbolsOf(rows, userId) <==> Entry(userId, symbol) in rows
  {
    var mine := Seqs.Filter(rows, (e: Entry) => e.userId == userId);
    if symbol in SymbolsOf(rows, userId) {
      var i :| 0 <= i < |mine| && SymbolOf(mine[i]) == symbol;
      assert mine[i] in mine;
    }
    if Entry(userId, symbol) in rows {
      assert Entry(userId, symbol) in mine;
      var i :| 0 <= i < |mine| && mine[i] == Entry(userId, symbol);
      assert SymbolsOf(rows, userId)[i] == symbol;
    }
  }

  /** Removing a pair deletes all its copies and keeps every other row. */
  lemma WithoutEntryCount(rows: seq<Entry>, entry: Entry, e: Entry)
    ensures multiset(WithoutEntry(rows, entry))[e] == if e == entry then 0 else multiset(rows)[e]
  {
    Seqs.FilterCount(rows, (x: Entry) => x != entry, e);
  }

  /** Clearing a user deletes all of that user's rows and keeps every other user's rows. */
  lemma WithoutUserCount(rows: seq<Entry>, userId: string, e: Entry)
    ensures multiset(WithoutUser(rows, userId))[e] == if e.userId == userId then 0 else multiset(rows)[e]
  {
    Seqs.FilterCount(rows, (x: Entry) => x.userId != userId, e);
  }

  /** Deleting rows never creates a duplicate. */
  lemma DeletesKeepNoDuplicates(rows: seq<Entry>, entry: Entry, userId: string)
    requires NoDuplicates(rows)
    ensures NoDuplicates(WithoutEntry(rows, entry))
    ensures NoDuplicates(WithoutUser(rows, userId))
  {
    forall e ensures multiset(WithoutEntry(rows, entry))[e] <= 1 {
      WithoutEntryCount(rows, entry, e);
    }
    forall e ensures multiset(WithoutUser(rows, userId))[e] <= 1 {
      WithoutUserCount(rows, userId, e);
    }
  }

  /** Clearing a user who has no symbols changes nothing. */
  lemma ClearEmptyNoop(rows: seq<Entry>, userId: string)
    requires SymbolsOf(rows, userId) == []
    ensures WithoutUser(rows, userId) == rows
  {
    forall e | e in rows ensures e.userId != userId {
      if e.userId == userId {
        ListedIff(rows, userId, e.symbol);
      }
    }
    Seqs.FilterAll(rows, (x: Entry) => x.userId != userId);
  }

  /** Removing a pair that is absent changes nothing. */
  lemma RemoveAbsentNoop(rows: seq<Entry>, entry: Entry)
    requires entry !in rows
    ensures WithoutEntry(rows, entry) == rows
  {
    Seqs.FilterAll(rows, (x: Entry) => x != entry);
  }

  // ---- Symbol admission ----

  /**
   * The instrument-code heuristic of `add`: twelve characters, two letters
   * then ten digits. A real ISIN (ISO 6166) allows letters in positions
   * 3 to 11, which this shape does not.
   */
  function LooksLikeIsin(s: string): (r: bool)
    ensures r ==> |s| == 12 && forall i :: 2 <= i < |s| ==> Text.IsAsciiDigit(s[i])
    ensures r ==> !HasSuffix(s)
  {
    var shaped := |s| == 12 && Text.IsAlpha(s[..2]) && Text.IsDigits(s[2..]);
    assert shaped ==> forall i :: 0 <= i < |s| ==> s[i] != '.' by {
      if shaped {
        forall i | 0 <= i < |s| ensures s[i] != '.' {
          if i < 2 { assert s[i] == s[..2][i]; } else { assert s[i] == s[2..][i - 2]; }
        }
      }
    }
    shaped
  }

  /** The heuristic lets through the ISIN that is itself on the autocomplete list, and catches a purely numeric one. */
  lemma IsinHeuristicExamples()
    ensures !LooksLikeIsin("IE00BKM4GZ66")
    ensures LooksLikeIsin("US0378331005")
  {
    assert "IE00BKM4GZ66"[2..][2] == 'B';
  }

  /**
   * `validate_ticker`: the symbol itself when its 1-day history has data;
   * for a symbol without a dot and with an empty history, the `.DE`
   * listing when that has data; otherwise (or on any raise) nothing.
   */
  function ValidateTicker(stock: string, history: History): (r: Option<string>)
    ensures r.Some? ==> HasData(history(r.value, "1d"))
    ensures r == Some(stock) <==> HasData(history(stock, "1d"))
    ensures r.Some? && r.value != stock ==>
              r.value == stock + AltSuffix && !HasSuffix(stock) && IsEmpty(history(stock, "1d"))
    ensures HasSuffix(stock) && !HasData(history(stock, "1d")) ==> r.None?
    ensures !HasSuffix(stock) && IsEmpty(history(stock, "1d")) && HasData(history(stock + AltSuffix, "1d")) ==>
              r == Some(stock + AltSuffix)
  {
    match Resolve(stock, "1d", history)
    case Some(found) => Some(found.symbol)
    case None => None
  }

  /** A price line of `list`: latest and previous close, or "price unavailable". */
  datatype PriceLine = Priced(symbol: string, latest: real, previous: real) | Unavailable(symbol: string)

  /**
   * `format_price_line`: a priced line exactly when the 2-day history did
   * not raise and holds at least two closes; then the last two closes.
   */
  function FormatPriceLine(symbol: string, history: History): (line: PriceLine)
    ensures line.symbol == symbol
    ensures line.Priced? <==> history(symbol, "2d").Closes? && |history(symbol, "2d").closes| >= 2
    ensures line.Priced? ==>
              var cs := history(symbol, "2d").closes;
              line.latest == cs[|cs| - 1] && line.previous == cs[|cs| - 2]
  {
    match history(symbol, "2d")
    case Raised => Unavailable(symbol)
    case Closes(cs) =>
      if |cs| >= 2 then Priced(symbol, cs[|cs| - 1], cs[|cs| - 2]) else Unavailable(symbol)
  }

  /**
   * The percentage change shown on a priced line. Applying it to the
   * previous close gives back the latest close, and for a positive previous
   * close it is positive exactly when the price rose.
   */
  function ChangePercent(latest: real, previous: real): (pct: real)
    requires previous != 0.0
    ensures previous + previous * pct / 100.0 == latest
    ensures previous > 0.0 ==> (pct > 0.0 <==> latest > previous)
  {
    ((latest - previous) / previous) * 100.0
  }

  // ---- The table and its commands ----

  datatype AddReply = IsinRejected | NotValidated | AlreadyListed(symbol: string) | Added(symbol: string)
  datatype ListReply = EmptyWatchlist | ChartRequested(symbols: seq<string>) | Lines(lines: seq<PriceLine>)
  datatype DropReply = NotListed | Removed | AlreadyEmpty | Cleared

  /** The `watchlists` table, rows in insertion order. */
  class WatchlistTable {
    var rows: seq<Entry>

    constructor ()
      ensures rows == []
    {
      rows := [];
    }

    /** `get_watchlist` */
    method GetWatchlist(userId: string) returns (symbols: seq<string>)
      ensures symbols == SymbolsOf(rows, userId)
      ensures forall s :: s in symbols <==> Entry(userId, s) in rows
    {
      symbols := SymbolsOf(rows, userId);
      forall s ensures s in symbols <==> Entry(userId, s) in rows {
        ListedIff(rows, userId, s);
      }
    }

    /** `add_to_watchlist`: an unconditional insert. */
    method AddToWatchlist(userId: string, symbol: string)
      modifies this
      ensures rows == old(rows) + [Entry(userId, symbol)]
    {
      rows := rows + [Entry(userId, symbol)];
    }

    /** `remove_from_watchlist` */
    method RemoveFromWatchlist(userId: string, symbol: string)
      modifies this
      ensures rows == WithoutEntry(old(rows), Entry(userId, symbol))
    {
      rows := WithoutEntry(rows, Entry(userId, symbol));
    }

    /** `clear_watchlist` */
    method ClearWatchlist(userId: string)
      modifies this
      ensures rows == WithoutUser(old(rows), userId)
    {
      rows := WithoutUser(rows, userId);
    }

    /**
     * The `add` command: upper-case the input, reject an ISIN-shaped code,
     * resolve it, reject an unresolvable (or empty) symbol, reject one that
     * is already listed, otherwise insert it. A table without duplicate pairs
     * keeps that property.
     */
    method Add(userId: string, stock: string, history: History) returns (reply: AddReply)
      modifies this
      ensures reply == IsinRejected <==> LooksLikeIsin(Text.Upper(stock))
      ensures reply == NotValidated <==>
                !LooksLikeIsin(Text.Upper(stock)) &&
                (ValidateTicker(Text.Upper(stock), history).None? || ValidateTicker(Text.Upper(stock), history) == Some(""))
      ensures reply.AlreadyListed? || reply.Added? ==> Some(reply.symbol) == ValidateTicker(Text.Upper(stock), history)
      ensures reply.AlreadyListed? ==> Entry(userId, reply.symbol) in old(rows)
      ensures reply.Added? ==> Entry(userId, reply.symbol) !in old(rows) && rows == old(rows) + [Entry(userId, reply.symbol)]
      ensures !reply.Added? ==> rows == old(rows)
      ensures NoDuplicates(old(rows)) ==> NoDuplicates(rows)
    {
      var symbol := Text.Upper(stock);
      if LooksLikeIsin(symbol) {
        return IsinRejected;
      }
      var valid := ValidateTicker(symbol, history);
      if valid.None? || valid.value == "" {
        return NotValidated;
      }
      var listed := GetWatchlist(userId);
      if valid.value in listed {
        return AlreadyListed(valid.value);
      }
      AddToWatchlist(userId, valid.value);
      reply := Added(valid.value);
      assert multiset(rows) == multiset(old(rows)) + multiset{Entry(userId, valid.value)};
    }

    /** The `remove` command: only a listed (upper-cased) symbol is deleted, with all its copies. */
    method Remove(userId: string, stock: string) returns (reply: DropReply)
      modifies this
      ensures reply == NotListed || reply == Removed
      ensures reply == NotListed <==> Entry(userId, Text.Upper(stock)) !in old(rows)
      ensures rows == WithoutEntry(old(rows), Entry(userId, Text.Upper(stock)))
      ensures reply == NotListed ==> rows == old(rows)
    {
      var symbol := Text.Upper(stock);
      var listed := GetWatchlist(userId);
      if symbol !in listed {
        RemoveAbsentNoop(rows, Entry(userId, symbol));
        return NotListed;
      }
      RemoveFromWatchlist(userId, symbol);
      reply := Removed;
    }

    /** The `clear` command: an empty watchlist is reported and left alone. */
    method Clear(userId: string) returns (reply: DropReply)
      modifies this
      ensures reply == AlreadyEmpty || reply == Cleared
      ensures reply == AlreadyEmpty <==> SymbolsOf(old(rows), userId) == []
      ensures rows == WithoutUser(old(rows), userId)
      ensures reply == AlreadyEmpty ==> rows == old(rows)
    {
      var listed := GetWatchlist(userId);
      if listed == [] {
        ClearEmptyNoop(rows, userId);
        return AlreadyEmpty;
      }
      ClearWatchlist(userId);
      reply := Cleared;
    }

    /**
     * The `list` command: nothing for an empty watchlist; the chart form is
     * handed to the chart renderer; otherwise one price line per listed
     * symbol, in the same order.
     */
    method List(userId: string, chart: bool, history: History) returns (reply: ListReply)
      ensures reply == EmptyWatchlist <==> SymbolsOf(rows, userId) == []
      ensures reply.ChartRequested? <==> chart && SymbolsOf(rows, userId) != []
      ensures reply.ChartRequested? ==> reply.symbols == SymbolsOf(rows, userId)
      ensures reply.Lines? ==>
                |reply.lines| == |SymbolsOf(rows, userId)| &&
                forall i :: 0 <= i < |reply.lines| ==>
                  reply.lines[i].symbol == SymbolsOf(rows, userId)[i] &&
                  reply.lines[i] == FormatPriceLine(SymbolsOf(rows, userId)[i], history)
    {
      var listed := GetWatchlist(userId);
      if listed == [] {
        return EmptyWatchlist;
      }
      if chart {
        return ChartRequested(listed);
      }
      reply := Lines(Seqs.Map(listed, (s: string) => FormatPriceLine(s, history)));
    }
  }

  /**
   * Two adds of the same input in a row: the second one never inserts. Both
   * see the same `history`, i.e. market data that did not change between the
   * two commands; that no add ever creates a duplicate, whatever the data,
   * is `Add`'s own contract.
   */
  method AddTwice(table: WatchlistTable, userId: string, stock: string, history: History)
    returns (first: AddReply, second: AddReply)
    modifies table
    ensures !second.Added?
    ensures first.Added? ==> second == AlreadyListed(first.symbol)
  {
    first := table.Add(userId, stock, history);
    second := table.Add(userId, stock, history);
  }
}
