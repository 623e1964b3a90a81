/** The price refresh pass (`updateRealTimePrices`): one quote request per
    distinct ticker, in order of first appearance, with a pause after each,
    then one merge of every fetched price into the holdings. */
module Refresh {
  import opened Wrappers
  import opened Records
  import Quote
  import Summary
  import Tickers

  /** Where quotes come from during one pass: the configured provider, the
      response body its endpoint returns for each ticker (None when the
      request or the body parse fails) and `JSON.parse` (None when it
      throws). */
  datatype QuoteSource = QuoteSource(
    provider: Quote.Provider,
    responses: string -> Option<Quote.Json>,
    parseJson: string -> Option<Quote.Json>)

  /** `await fetchLatestPrice(ticker)` against the given source. */
  function PriceOf(src: QuoteSource, ticker: string): Option<real> {
    Quote.FetchLatestPrice(src.provider, ticker, src.responses(ticker), src.parseJson)
  }

  /** The prices a pass over `tickers` records: exactly the tickers whose
      fetch did not come back null, each with its fetched price. */
  function FetchedPrices(src: QuoteSource, tickers: seq<string>): (pm: map<string, real>)
    ensures forall t :: t in pm <==> t in tickers && PriceOf(src, t).Some?
    ensures forall t :: t in pm ==> pm[t] == PriceOf(src, t).value
  {
    map t | t in tickers && PriceOf(src, t).Some? :: PriceOf(src, t).value
  }

  /** The sequential fetch loop: one request per ticker, a price recorded
      only when one came back, and after every request the pause the
      provider calls for (`waits` lists the pauses in the order taken). */
  method CollectPrices(src: QuoteSource, tickers: seq<string>)
    returns (priceMap: map<string, real>, waits: seq<nat>)
    ensures priceMap == FetchedPrices(src, tickers)
    ensures |waits| == |tickers|
    ensures forall i :: 0 <= i < |waits| ==> waits[i] == Quote.PacingMs(src.provider)
  {
    priceMap := map[];
    waits := [];
    for i := 0 to |tickers|
      invariant priceMap == FetchedPrices(src, tickers[..i])
      invariant |waits| == i
      invariant forall k :: 0 <= k < i ==> waits[k] == Quote.PacingMs(src.provider)
    {
      assert tickers[..i + 1] == tickers[..i] + [tickers[i]];
      var price := PriceOf(src, tickers[i]);
      if price.Some? {
        priceMap := priceMap[tickers[i] := price.value];
      }
      waits := waits + [Quote.PacingMs(src.provider)];
    }
    assert tickers[..|tickers|] == tickers;
  }

  /** `priceMap[ticker]`, undefined when the ticker got no price. */
  function Lookup(priceMap: map<string, real>, ticker: string): (r: Option<real>)
    ensures r.Some? <==> ticker in priceMap
    ensures r.Some? ==> r.value == priceMap[ticker]
  {
    if ticker in priceMap then Some(priceMap[ticker]) else None
  }

  /** The merge: every record repriced with its ticker's fetched price, or
      with its own current price when none was fetched, and re-derived. */
  function MergePrices(txs: seq<Holding>, priceMap: map<string, real>): (r: seq<Holding>)
    ensures |r| == |txs|
    ensures forall i :: 0 <= i < |txs| ==> Consistent(r[i]) && SameLot(r[i], txs[i])
    ensures forall i :: 0 <= i < |txs| && txs[i].indice in priceMap ==>
              r[i].precioActual == priceMap[txs[i].indice]
    ensures forall i :: 0 <= i < |txs| && txs[i].indice !in priceMap ==>
              r[i].precioActual == txs[i].precioActual
  {
    seq(|txs|, i requires 0 <= i < |txs| => Reprice(txs[i], Lookup(priceMap, txs[i].indice)))
  }

  /** A whole pass: the distinct tickers are fetched and the holdings merged
      with what came back. */
  function RefreshedHoldings(src: QuoteSource, txs: seq<Holding>): (r: seq<Holding>)
    ensures |r| == |txs|
    ensures forall i :: 0 <= i < |txs| ==> Consistent(r[i]) && SameLot(r[i], txs[i])
    ensures forall i :: 0 <= i < |txs| ==>
              r[i].precioActual == PriceOf(src, txs[i].indice).GetOr(txs[i].precioActual)
  {
    var tickers := Tickers.DistinctTickers(txs);
    assert forall i :: 0 <= i < |txs| ==> txs[i].indice in tickers;
    MergePrices(txs, FetchedPrices(src, tickers))
  }

  /** A refresh never changes the amount invested: only prices and the
      figures derived from them move. */
  lemma MergeKeepsInvested(txs: seq<Holding>, priceMap: map<string, real>)
    ensures Summary.Total(MergePrices(txs, priceMap), Summary.UsdOf) == Summary.Total(txs, Summary.UsdOf)
  {
    Summary.TotalPointwise(MergePrices(txs, priceMap), txs, Summary.UsdOf, Summary.UsdOf);
  }

  /** A pass in which every fetch failed leaves consistent holdings exactly
      as they were. */
  lemma MergeWithoutPricesIsIdentity(txs: seq<Holding>, priceMap: map<string, real>)
    requires forall i :: 0 <= i < |txs| ==> Consistent(txs[i]) && txs[i].indice !in priceMap
    ensures MergePrices(txs, priceMap) == txs
  {
    var r := MergePrices(txs, priceMap);
    forall i | 0 <= i < |txs| ensures r[i] == txs[i] {
      RepriceKeepsConsistent(txs[i]);
    }
  }

  /** Merging the same prices twice is merging them once. */
  lemma MergeIdempotent(txs: seq<Holding>, priceMap: map<string, real>)
    ensures MergePrices(MergePrices(txs, priceMap), priceMap) == MergePrices(txs, priceMap)
  {
    var once := MergePrices(txs, priceMap);
    var twice := MergePrices(once, priceMap);
    forall i | 0 <= i < |txs| ensures twice[i] == once[i] {
      ConsistentIsDetermined(twice[i], once[i]);
    }
  }

  /** Every record of a ticker gets the same fetched price, and the value of
      a priced holding is that price times its shares. */
  lemma MergeExample()
    ensures var r := MergePrices([Derive(BaseHolding("2024-03-08", "ARM", 1000.0, 10.0, 100.0, 120.0))],
                                 map["ARM" := 150.0]);
      r[0].valorActual == 1500.0 && r[0].rentabilidadPct == 50.0 && r[0].rentabilidadClp == 475000.0
  {
  }
}
