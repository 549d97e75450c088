/**
 * The `compare` command without its chart: which arguments count as
 * tickers, the 2..5 count check, and the per-symbol resolution loop that
 * decides which series are plotted and whether anything was.
 */
module Compare {
  import opened Wrappers
  import Seqs
  import opened Market

  /** An omitted optional argument reads as the empty string: both are false in Python. */
  function OrEmpty(arg: Option<string>): string
  {
    match arg
    case Some(s) => s
    case None => ""
  }

  /** The five ticker arguments in order, an omitted one as the empty string. */
  function Arguments(symbol1: string, symbol2: string, symbol3: Option<string>, symbol4: Option<string>, symbol5: Option<string>): (r: seq<string>)
    ensures |r| == 5
  {
    [symbol1, symbol2, OrEmpty(symbol3), OrEmpty(symbol4), OrEmpty(symbol5)]
  }

  /** `[s for s in [symbol1, ..., symbol5] if s]`: the non-empty arguments, in argument order. */
  function Tickers(symbol1: string, symbol2: string, symbol3: Option<string>, symbol4: Option<string>, symbol5: Option<string>): (r: seq<string>)
    ensures |r| <= 5
    ensures forall t :: t in r ==> t != ""
    ensures symbol1 != "" && symbol2 != "" ==> |r| >= 2 && r[0] == symbol1 && r[1] == symbol2
    ensures forall t :: t in [symbol1, symbol2, OrEmpty(symbol3), OrEmpty(symbol4), OrEmpty(symbol5)] && t != "" ==> t in r
  {
    var args := Arguments(symbol1, symbol2, symbol3, symbol4, symbol5);
    var r := Seqs.Filter(args, (s: string) => s != "");
    assert args[1..][1..] == args[2..];
    assert symbol2 != "" ==>
      Seqs.Filter(args[1..], (s: string) => s != "") == [symbol2] + Seqs.Filter(args[2..], (s: string) => s != "");
    assert symbol1 != "" ==> r == [symbol1] + Seqs.Filter(args[1..], (s: string) => s != "");
    r
  }

  /** The tickers are exactly the non-empty arguments, each as often as it was given. */
  lemma TickersCount(symbol1: string, symbol2: string, symbol3: Option<string>, symbol4: Option<string>, symbol5: Option<string>, t: string)
    ensures multiset(Tickers(symbol1, symbol2, symbol3, symbol4, symbol5))[t] ==
            if t == "" then 0 else multiset(Arguments(symbol1, symbol2, symbol3, symbol4, symbol5))[t]
  {
    Seqs.FilterCount(Arguments(symbol1, symbol2, symbol3, symbol4, symbol5), (s: string) => s != "", t);
  }

  /**
   * The tickers keep the order of the arguments: the k-th ticker is the
   * argument at the k-th of strictly increasing argument positions, so a
   * repeated symbol keeps each of its places.
   */
  lemma TickersInArgumentOrder(symbol1: string, symbol2: string, symbol3: Option<string>, symbol4: Option<string>, symbol5: Option<string>)
    ensures var args := Arguments(symbol1, symbol2, symbol3, symbol4, symbol5);
            var tickers := Tickers(symbol1, symbol2, symbol3, symbol4, symbol5);
            var pos := Seqs.Positions(args, (s: string) => s != "");
            |pos| == |tickers| &&
            (forall k :: 0 <= k < |pos| ==> pos[k] < 5 && args[pos[k]] == tickers[k]) &&
            (forall k, l :: 0 <= k < l < |pos| ==> pos[k] < pos[l])
  {
    Seqs.PositionsOfFilter(Arguments(symbol1, symbol2, symbol3, symbol4, symbol5), (s: string) => s != "");
  }

  /** The count check: at most five arguments exist, so only "fewer than two" can reject. */
  lemma CountCheckRejectsOnlyTooFew(symbol1: string, symbol2: string, symbol3: Option<string>, symbol4: Option<string>, symbol5: Option<string>)
    ensures var n := |Tickers(symbol1, symbol2, symbol3, symbol4, symbol5)|;
            (n < 2 || n > 5) <==> n < 2
  {
  }

  /** One plotted line: labelled with the symbol as given, drawn from the resolved symbol's data. */
  datatype Series = Series(legend: string, symbol: string, closes: seq<real>)

  /** The series the loop plots for `tickers`, in argument order. */
  function Plotted(tickers: seq<string>, period: string, history: History): (r: seq<Series>)
    ensures |r| <= |tickers|
    ensures forall s :: s in r ==> s.legend in tickers && |s.closes| > 0
    decreases |tickers|
  {
    if tickers == [] then []
    else
      var n := |tickers| - 1;
      Plotted(tickers[..n], period, history) +
      (match Resolve(tickers[n], period, history)
       case Some(found) => [Series(tickers[n], found.symbol, found.closes)]
       case None => [])
  }

  /** Something is plotted exactly when some ticker resolves to a non-empty series. */
  lemma {:induction false} PlottedNonEmptyIff(tickers: seq<string>, period: string, history: History)
    ensures Plotted(tickers, period, history) != [] <==>
            exists i :: 0 <= i < |tickers| && Resolve(tickers[i], period, history).Some?
    decreases |tickers|
  {
    if tickers != [] {
      var n := |tickers| - 1;
      PlottedNonEmptyIff(tickers[..n], period, history);
      if exists i :: 0 <= i < n && Resolve(tickers[..n][i], period, history).Some? {
        var i :| 0 <= i < n && Resolve(tickers[..n][i], period, history).Some?;
        assert tickers[i] == tickers[..n][i];
      }
      if exists i :: 0 <= i < |tickers| && Resolve(tickers[i], period, history).Some? {
        var i :| 0 <= i < |tickers| && Resolve(tickers[i], period, history).Some?;
        if i < n { assert tickers[..n][i] == tickers[i]; }
      }
    }
  }

  /** Every ticker that resolves is plotted, under its own name, with the data it resolved to. */
  lemma {:induction false} PlottedComplete(tickers: seq<string>, period: string, history: History, i: nat)
    requires i < |tickers| && Resolve(tickers[i], period, history).Some?
    ensures var found := Resolve(tickers[i], period, history).value;
            var plotted := Plotted(tickers, period, history);
            exists k :: 0 <= k < |plotted| && plotted[k] == Series(tickers[i], found.symbol, found.closes)
    decreases |tickers|
  {
    var n := |tickers| - 1;
    var front := Plotted(tickers[..n], period, history);
    var plotted := Plotted(tickers, period, history);
    var found := Resolve(tickers[i], period, history).value;
    assert plotted[..|front|] == front;
    if i == n {
      assert plotted == front + [Series(tickers[n], found.symbol, found.closes)];
      assert plotted[|front|] == Series(tickers[i], found.symbol, found.closes);
      assert exists k' :: 0 <= k' < |Plotted(tickers, period, history)| &&
               Plotted(tickers, period, history)[k'] == Series(tickers[i], found.symbol, found.closes);
    } else {
      assert tickers[..n][i] == tickers[i];
      PlottedComplete(tickers[..n], period, history, i);
      var k :| 0 <= k < |front| && front[k] == Series(tickers[i], found.symbol, found.closes);
      assert plotted[k] == front[k];
      assert 0 <= k < |plotted| && plotted[k] == Series(tickers[i], found.symbol, found.closes);
      assert exists k' :: 0 <= k' < |Plotted(tickers, period, history)| &&
               Plotted(tickers, period, history)[k'] == Series(tickers[i], found.symbol, found.closes);
    }
  }

  /** Each series keeps the legend the user typed, and its data belongs to that symbol or to its `.DE` listing. */
  lemma {:induction false} LabelsAreOriginal(tickers: seq<string>, period: string, history: History, k: nat)
    requires k < |Plotted(tickers, period, history)|
    ensures var s := Plotted(tickers, period, history)[k];
            s.legend in tickers &&
            (s.symbol == s.legend || (s.symbol == s.legend + AltSuffix && !HasSuffix(s.legend))) &&
            history(s.symbol, period) == Closes(s.closes)
    decreases |tickers|
  {
    var n := |tickers| - 1;
    var front := Plotted(tickers[..n], period, history);
    if k < |front| {
      LabelsAreOriginal(tickers[..n], period, history, k);
      assert Plotted(tickers, period, history)[k] == front[k];
    }
  }

  /**
   * The loop of `compare`: for each ticker in turn fetch its history, retry
   * an empty unsuffixed one on `.DE`, plot it under the ticker as typed when
   * data was found, and skip it when a fetch raised; `success` records
   * whether anything was plotted.
   */
  method PlotAll(tickers: seq<string>, period: string, history: History) returns (plotted: seq<Series>, success: bool)
    ensures plotted == Plotted(tickers, period, history)
    ensures success <==> exists i :: 0 <= i < |tickers| && Resolve(tickers[i], period, history).Some?
  {
    plotted := [];
    success := false;
    var i := 0;
    while i < |tickers|
      invariant 0 <= i <= |tickers|
      invariant plotted == Plotted(tickers[..i], period, history)
      invariant success <==> plotted != []
    {
      assert tickers[..i + 1][..i] == tickers[..i];
      var original := tickers[i];
      var symbol := original;
      var data := history(symbol, period);
      if !data.Raised? {
        var raised := false;
        if IsEmpty(data) && !HasSuffix(symbol) {
          var alt := symbol + AltSuffix;
          var altData := history(alt, period);
          if altData.Raised? {
            raised := true;
          } else if HasData(altData) {
            symbol := alt;
            data := altData;
          }
        }
        if !raised && HasData(data) {
          plotted := plotted + [Series(original, symbol, data.closes)];
          success := true;
        }
      }
      i := i + 1;
    }
    assert tickers[..|tickers|] == tickers;
    PlottedNonEmptyIff(tickers, period, history);
  }

  datatype CompareReply = WrongCount | NoData | Chart(series: seq<Series>)

  /**
   * The `compare` command: reject a ticker count outside 2..5, plot what
   * can be resolved, and fail if nothing was plotted.
   */
  method Compare(symbol1: string, symbol2: string, symbol3: Option<string>, symbol4: Option<string>, symbol5: Option<string>,
                 period: string, history: History) returns (reply: CompareReply)
    ensures var tickers := Tickers(symbol1, symbol2, symbol3, symbol4, symbol5);
            && (reply == WrongCount <==> |tickers| < 2)
            && (reply == NoData <==> 2 <= |tickers| && forall t :: t in tickers ==> Resolve(t, period, history).None?)
            && (reply.Chart? ==> reply.series == Plotted(tickers, period, history) && reply.series != [])
  {
    var tickers := Tickers(symbol1, symbol2, symbol3, symbol4, symbol5);
    if |tickers| < 2 || |tickers| > 5 {
      return WrongCount;
    }
    var plotted, success := PlotAll(tickers, period, history);
    PlottedNonEmptyIff(tickers, period, history);
    if !success {
      return NoData;
    }
    reply := Chart(plotted);
  }
}
