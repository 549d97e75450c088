/**
 * Slash-command autocompletion of ticker symbols: the fixed list of common
 * tickers filtered by the typed text, at most ten suggestions. The watchlist
 * and the comparison commands use the same list and the same rule.
 */
module Autocomplete {
  import Seqs
  import Text

  const CommonTickers: seq<string> := [
    "AAPL", "MSFT", "TSLA", "GOOGL", "AMZN", "NVDA", "META",
    "VOO", "SPY", "QQQ", "QDV5.DE", "IE00BKM4GZ66"
  ]

  const MaxSuggestions: nat := 10

  /** Every common ticker that contains the upper-cased query, in list order. */
  function Matching(current: string): seq<string>
  {
    Seqs.Filter(CommonTickers, (t: string) => Text.Contains(t, Text.Upper(current)))
  }

  /**
   * The suggestions for the typed text: matching tickers only, at most ten,
   * and all of them when there are at most ten.
   */
  function Suggest(current: string): (r: seq<string>)
    ensures |r| <= MaxSuggestions
    ensures |r| == if |Matching(current)| <= MaxSuggestions then |Matching(current)| else MaxSuggestions
    ensures forall t :: t in r ==> t in CommonTickers && Text.Contains(t, Text.Upper(current))
    ensures r <= Matching(current)
    ensures |Matching(current)| <= MaxSuggestions ==>
              forall t :: t in CommonTickers && Text.Contains(t, Text.Upper(current)) ==> t in r
  {
    var m := Matching(current);
    if |m| <= MaxSuggestions then m else m[..MaxSuggestions]
  }

  /**
   * Suggestions come in the order of the common-ticker list: the k-th
   * suggestion is the list entry at the k-th of strictly increasing positions.
   */
  lemma SuggestInListOrder(current: string)
    ensures var r := Suggest(current);
            var pos := Seqs.Positions(CommonTickers, (t: string) => Text.Contains(t, Text.Upper(current)));
            |r| <= |pos| &&
            (forall k :: 0 <= k < |r| ==> pos[k] < |CommonTickers| && CommonTickers[pos[k]] == r[k]) &&
            (forall k, l :: 0 <= k < l < |r| ==> pos[k] < pos[l])
  {
    Seqs.PositionsOfFilter(CommonTickers, (t: string) => Text.Contains(t, Text.Upper(current)));
  }

  /** An empty query matches all twelve tickers, so the cap cuts the list to its first ten. */
  lemma EmptyQueryIsCapped()
    ensures Suggest("") == CommonTickers[..MaxSuggestions]
  {
    forall t | t in CommonTickers ensures Text.Contains(t, Text.Upper("")) {
      Text.ContainsTrivial(t);
    }
    Seqs.FilterAll(CommonTickers, (t: string) => Text.Contains(t, Text.Upper("")));
  }
}
