/**
 * The market-data provider (`yf.Ticker(symbol).history(period=...)`) as an
 * oracle, and the symbol-resolution rule that retries a bare symbol on the
 * XETRA listing (suffix `.DE`).
 */
module Market {
  import opened Wrappers

  /** One call to `history`: it raised, or it returned a (possibly empty) series of closes, oldest first. */
  datatype Fetch = Raised | Closes(closes: seq<real>)

  /** The provider as seen during one operation: symbol and period to the outcome of `history`. */
  type History = (string, string) -> Fetch

  /** Exchange suffix tried when a bare symbol has no data. */
  const AltSuffix: string := ".DE"

  /** `not data.empty`, for a call that did not raise. */
  predicate HasData(f: Fetch)
  {
    f.Closes? && |f.closes| > 0
  }

  /** `data.empty`, for a call that did not raise. */
  predicate IsEmpty(f: Fetch)
  {
    f.Closes? && |f.closes| == 0
  }

  /** The symbol carries an exchange suffix, i.e. `"." in symbol`. */
  predicate HasSuffix(symbol: string)
  {
    '.' in symbol
  }

  /** A symbol together with the non-empty series it was resolved to. */
  datatype Resolved = Resolved(symbol: string, closes: seq<real>)

  /**
   * Fetch `symbol`; if that returns an empty series and the symbol has no
   * suffix, fetch `symbol + ".DE"` instead. Any raise, and any empty result
   * that is not retried or whose retry is empty too, resolves to nothing.
   */
  function Resolve(symbol: string, period: string, history: History): (r: Option<Resolved>)
    ensures r.Some? ==> |r.value.closes| > 0 && history(r.value.symbol, period) == Closes(r.value.closes)
    ensures r.Some? && r.value.symbol != symbol ==>
              r.value.symbol == symbol + AltSuffix && !HasSuffix(symbol) && IsEmpty(history(symbol, period))
    ensures HasData(history(symbol, period)) ==> r.Some? && r.value.symbol == symbol
    ensures r.None? <==>
              !HasData(history(symbol, period)) &&
              (HasSuffix(symbol) || !IsEmpty(history(symbol, period)) || !HasData(history(symbol + AltSuffix, period)))
  {
    match history(symbol, period)
    case Raised => None
    case Closes(cs) =>
      if |cs| > 0 then Some(Resolved(symbol, cs))
      else if HasSuffix(symbol) then None
      else
        match history(symbol + AltSuffix, period)
        case Raised => None
        case Closes(alt) => if |alt| > 0 then Some(Resolved(symbol + AltSuffix, alt)) else None
  }

  /** The alternate listing matters only when the primary one is empty and unsuffixed: otherwise two providers that agree on `symbol` resolve it alike. */
  lemma AlternateConsultedOnlyWhenEmpty(symbol: string, period: string, h1: History, h2: History)
    requires h1(symbol, period) == h2(symbol, period)
    requires HasSuffix(symbol) || !IsEmpty(h1(symbol, period))
    ensures Resolve(symbol, period, h1) == Resolve(symbol, period, h2)
  {
  }
}
