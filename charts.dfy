/** What the dashboard derives for its portfolio chart and its alert list:
    the per-ticker distribution (`updateInvestmentChart`) and the return
    alerts (`generateAlerts`). */
module Charts {
  import opened Wrappers
  import opened Records
  import opened Tickers
  import Summary

  /** The signed value held in ticker `t`: the sum of `valor_actual` over
      the records of `t`. */
  function TickerTotal(txs: seq<Holding>, t: string): real {
    if |txs| == 0 then 0.0
    else
      var h := txs[|txs| - 1];
      TickerTotal(txs[..|txs| - 1], t) + (if h.indice == t then h.valorActual else 0.0)
  }

  /** A ticker that no record carries holds nothing. */
  lemma {:induction false} TickerTotalOfAbsent(txs: seq<Holding>, t: string)
    requires forall i :: 0 <= i < |txs| ==> txs[i].indice != t
    ensures TickerTotal(txs, t) == 0.0
  {
    if |txs| > 0 {
      TickerTotalOfAbsent(txs[..|txs| - 1], t);
    }
  }

  function Abs(x: real): (r: real)
    ensures r >= 0.0 && (r == x || r == -x)
  {
    if x < 0.0 then -x else x
  }

  /** Appending a record adds its value to the total of its own ticker and
      to no other. */
  lemma TickerTotalSnoc(p: seq<Holding>, h: Holding)
    ensures forall t :: TickerTotal(p + [h], t) == TickerTotal(p, t) + (if h.indice == t then h.valorActual else 0.0)
  {
    assert (p + [h])[..|p|] == p;
  }

  /** The keys of `ks` whose total is not zero, in the order of `ks`. */
  function NonZeroKeys(ks: seq<string>, txs: seq<Holding>): (r: seq<string>)
    ensures |r| <= |ks|
  {
    if |ks| == 0 then []
    else NonZeroKeys(ks[..|ks| - 1], txs) + (if TickerTotal(txs, ks[|ks| - 1]) != 0.0 then [ks[|ks| - 1]] else [])
  }

  /** A key is kept exactly when it is one of `ks` and its total is not
      zero. */
  lemma {:induction false} NonZeroKeysMembers(ks: seq<string>, txs: seq<Holding>, t: string)
    ensures t in NonZeroKeys(ks, txs) <==> t in ks && TickerTotal(txs, t) != 0.0
  {
    if |ks| > 0 {
      var p, k := ks[..|ks| - 1], ks[|ks| - 1];
      assert ks == p + [k];
      NonZeroKeysMembers(p, txs, t);
    }
  }

  lemma NonZeroKeysSnoc(ks: seq<string>, k: string, txs: seq<Holding>)
    ensures NonZeroKeys(ks + [k], txs) == NonZeroKeys(ks, txs) + (if TickerTotal(txs, k) != 0.0 then [k] else [])
  {
    assert (ks + [k])[..|ks|] == ks;
  }

  /** `dist` and `keys` group the records `p`: the keys are its tickers in
      order of first appearance, and each maps to its ticker's total. */
  ghost predicate Grouped(dist: map<string, real>, keys: seq<string>, p: seq<Holding>) {
    && keys == DistinctTickers(p)
    && (forall k :: k in dist <==> k in keys)
    && (forall k :: k in dist ==> dist[k] == TickerTotal(p, k))
  }

  /** One pass of the grouping loop: `if (!acc[indice]) acc[indice] = 0;
      acc[indice] += valorActual`, with the key list growing on a new
      ticker. */
  method AddRecord(dist: map<string, real>, keys: seq<string>, ghost p: seq<Holding>, rec: Holding)
    returns (dist': map<string, real>, keys': seq<string>)
    requires Grouped(dist, keys, p)
    ensures Grouped(dist', keys', p + [rec])
  {
    DistinctTickersSnoc(p, rec);
    TickerTotalSnoc(p, rec);
    assert rec.indice !in dist ==> TickerTotal(p, rec.indice) == 0.0 by {
      if rec.indice !in dist {
        TickerTotalOfAbsent(p, rec.indice);
      }
    }
    keys' := keys;
    if rec.indice !in dist {
      keys' := keys + [rec.indice];
    }
    dist' := dist;
    if rec.indice !in dist || dist[rec.indice] == 0.0 {
      dist' := dist[rec.indice := 0.0];
    }
    dist' := dist'[rec.indice := dist'[rec.indice] + rec.valorActual];
  }

  /** The accumulation loop of `updateInvestmentChart`: `dist` maps each
      ticker to its total value, and `keys` lists the tickers in the order
      they were first added to `dist`. */
  method GroupByTicker(txs: seq<Holding>) returns (dist: map<string, real>, keys: seq<string>)
    ensures keys == DistinctTickers(txs)
    ensures forall k :: k in dist <==> k in keys
    ensures forall k :: k in dist ==> dist[k] == TickerTotal(txs, k)
  {
    dist, keys := map[], [];
    for i := 0 to |txs|
      invariant Grouped(dist, keys, txs[..i])
    {
      assert txs[..i + 1] == txs[..i] + [txs[i]];
      dist, keys := AddRecord(dist, keys, txs[..i], txs[i]);
    }
    assert txs[..|txs|] == txs;
  }

  /** `updateInvestmentChart` without the drawing: one slice per ticker
      whose total value is not zero, in order of the ticker's first
      appearance, sized by the absolute value of that total. */
  method InvestmentDistribution(txs: seq<Holding>) returns (labels: seq<string>, values: seq<real>)
    ensures labels == NonZeroKeys(DistinctTickers(txs), txs)
    ensures |values| == |labels|
    ensures forall m :: 0 <= m < |labels| ==>
      values[m] == Abs(TickerTotal(txs, labels[m])) && values[m] > 0.0
  {
    var dist, keys := GroupByTicker(txs);
    labels, values := Slices(txs, dist, keys);
    SizesPositive(keys, txs);
  }

  /** The slice sizes of the labels `ls`: the absolute value of each
      label's total. */
  function Sizes(ls: seq<string>, txs: seq<Holding>): (r: seq<real>)
    ensures |r| == |ls|
    ensures forall m :: 0 <= m < |ls| ==> r[m] == Abs(TickerTotal(txs, ls[m]))
  {
    seq(|ls|, m requires 0 <= m < |ls| => Abs(TickerTotal(txs, ls[m])))
  }

  /** Every label with a non-zero total gets a positive slice. */
  lemma SizesPositive(ks: seq<string>, txs: seq<Holding>)
    ensures forall m :: 0 <= m < |NonZeroKeys(ks, txs)| ==> Sizes(NonZeroKeys(ks, txs), txs)[m] > 0.0
  {
    var ls := NonZeroKeys(ks, txs);
    forall m | 0 <= m < |ls| ensures Sizes(ls, txs)[m] > 0.0 {
      NonZeroKeysMembers(ks, txs, ls[m]);
    }
  }

  lemma SizesSnoc(ls: seq<string>, k: string, txs: seq<Holding>)
    ensures Sizes(ls + [k], txs) == Sizes(ls, txs) + [Abs(TickerTotal(txs, k))]
  {
  }

  /** The label and slice loop over the grouped totals. */
  method Slices(txs: seq<Holding>, dist: map<string, real>, keys: seq<string>)
    returns (labels: seq<string>, values: seq<real>)
    requires forall k :: k in keys ==> k in dist && dist[k] == TickerTotal(txs, k)
    ensures labels == NonZeroKeys(keys, txs)
    ensures values == Sizes(labels, txs)
  {
    labels, values := [], [];
    for j := 0 to |keys|
      invariant labels == NonZeroKeys(keys[..j], txs)
      invariant values == Sizes(labels, txs)
    {
      var k := keys[j];
      assert keys[..j + 1] == keys[..j] + [k];
      NonZeroKeysSnoc(keys[..j], k, txs);
      var v := dist[k];
      if v != 0.0 {
        SizesSnoc(labels, k, txs);
        labels := labels + [k];
        values := values + [Abs(v)];
      }
    }
    assert keys[..|keys|] == keys;
  }

  /** The signed totals of the keys `ks`. */
  function KeysTotal(ks: seq<string>, txs: seq<Holding>): real {
    if |ks| == 0 then 0.0 else KeysTotal(ks[..|ks| - 1], txs) + TickerTotal(txs, ks[|ks| - 1])
  }

  /** Appending a record adds its value to the total of the keys, once if
      its ticker is among them and not at all otherwise. */
  lemma {:induction false} KeysTotalOfAppend(ks: seq<string>, txs: seq<Holding>, h: Holding)
    requires NoDuplicates(ks)
    ensures KeysTotal(ks, txs + [h])
         == KeysTotal(ks, txs) + (if h.indice in ks then h.valorActual else 0.0)
  {
    if |ks| > 0 {
      var p := ks[..|ks| - 1];
      assert ks == p + [ks[|ks| - 1]];
      KeysTotalOfAppend(p, txs, h);
      assert (txs + [h])[..|txs|] == txs;
    }
  }

  /** Appending a record adds its ticker to the distinct tickers when it is
      new, and changes nothing otherwise. */
  lemma DistinctTickersSnoc(p: seq<Holding>, h: Holding)
    ensures DistinctTickers(p + [h])
         == if h.indice in DistinctTickers(p) then DistinctTickers(p) else DistinctTickers(p) + [h.indice]
  {
    var all := TickersOf(p + [h]);
    assert all[..|p|] == TickersOf(p);
  }

  lemma KeysTotalSnoc(ks: seq<string>, k: string, txs: seq<Holding>)
    ensures KeysTotal(ks + [k], txs) == KeysTotal(ks, txs) + TickerTotal(txs, k)
  {
    assert (ks + [k])[..|ks|] == ks;
  }

  /** The signed slices of the distribution add up to the total value on
      the summary card. */
  lemma {:induction false} DistributionConservesValue(txs: seq<Holding>)
    ensures KeysTotal(DistinctTickers(txs), txs) == Summary.Total(txs, Summary.ValueOf)
  {
    if |txs| > 0 {
      var p, h := txs[..|txs| - 1], txs[|txs| - 1];
      assert txs == p + [h];
      DistributionConservesValue(p);
      var d := DistinctTickers(p);
      DistinctTickersSnoc(p, h);
      KeysTotalOfAppend(d, p, h);
      var before := Summary.Total(p, Summary.ValueOf);
      assert Summary.Total(txs, Summary.ValueOf) == before + h.valorActual;
      if h.indice in d {
        assert KeysTotal(d, txs) == before + h.valorActual;
      } else {
        KeysTotalSnoc(d, h.indice, txs);
        TickerTotalOfAbsent(p, h.indice);
        TickerTotalSnoc(p, h);
        assert KeysTotal(d + [h.indice], txs) == before + h.valorActual;
      }
    }
  }

  /** The two alerts of the alert list, and the placeholder shown when there
      is none. */
  datatype Alert = TakeProfit(indice: string) | Review(indice: string) | NoAlerts

  /** A return above 20% suggests taking profit, one below -10% a review. */
  function AlertFor(h: Holding): (a: Option<Alert>)
    ensures a == Some(TakeProfit(h.indice)) <==> h.rentabilidadPct > 20.0
    ensures a == Some(Review(h.indice)) <==> h.rentabilidadPct < -10.0
    ensures a.None? <==> -10.0 <= h.rentabilidadPct <= 20.0
  {
    if h.rentabilidadPct > 20.0 then Some(TakeProfit(h.indice))
    else if h.rentabilidadPct < -10.0 then Some(Review(h.indice))
    else None
  }

  /** The alerts of the records, in list order. */
  function AlertsOf(txs: seq<Holding>): (r: seq<Alert>)
    ensures |r| <= |txs|
    ensures NoAlerts !in r
    ensures r == [] <==> forall i :: 0 <= i < |txs| ==> -10.0 <= txs[i].rentabilidadPct <= 20.0
  {
    if |txs| == 0 then []
    else
      var h := txs[|txs| - 1];
      var r := AlertsOf(txs[..|txs| - 1]);
      match AlertFor(h)
      case None => r
      case Some(a) => r + [a]
  }

  /** An alert is listed exactly when some record raises it. */
  lemma {:induction false} AlertsOfMembers(txs: seq<Holding>, a: Alert)
    ensures a in AlertsOf(txs) <==> exists i :: 0 <= i < |txs| && AlertFor(txs[i]) == Some(a)
  {
    if |txs| > 0 {
      var p := txs[..|txs| - 1];
      AlertsOfMembers(p, a);
      if exists i :: 0 <= i < |p| && AlertFor(p[i]) == Some(a) {
        var i :| 0 <= i < |p| && AlertFor(p[i]) == Some(a);
        assert txs[i] == p[i];
      }
      if exists i :: 0 <= i < |txs| && AlertFor(txs[i]) == Some(a) {
        var i :| 0 <= i < |txs| && AlertFor(txs[i]) == Some(a);
        if i < |p| {
          assert p[i] == txs[i];
        }
      }
    }
  }

  /** The alerts follow the order of the records that raise them. */
  lemma {:induction false} AlertsOfKeepsOrder(txs: seq<Holding>, i1: nat, i2: nat)
    requires i1 < i2 < |txs| && AlertFor(txs[i1]).Some? && AlertFor(txs[i2]).Some?
    ensures exists m, n ::
              && 0 <= m < n < |AlertsOf(txs)|
              && AlertsOf(txs)[m] == AlertFor(txs[i1]).value
              && AlertsOf(txs)[n] == AlertFor(txs[i2]).value
  {
    var p := txs[..|txs| - 1];
    var before := AlertsOf(p);
    var all := AlertsOf(txs);
    assert txs[i1] == p[i1];
    if i2 == |txs| - 1 {
      AlertsOfMembers(p, AlertFor(txs[i1]).value);
      var m :| 0 <= m < |before| && before[m] == AlertFor(txs[i1]).value;
      assert all == before + [AlertFor(txs[i2]).value];
      assert all[m] == before[m] && all[|before|] == AlertFor(txs[i2]).value;
    } else {
      assert txs[i2] == p[i2];
      AlertsOfKeepsOrder(p, i1, i2);
      var m, n :| 0 <= m < n < |before| && before[m] == AlertFor(txs[i1]).value && before[n] == AlertFor(txs[i2]).value;
      assert all[m] == before[m] && all[n] == before[n];
    }
  }

  /** `generateAlerts` without the DOM: one alert per record whose return
      leaves the [-10%, 20%] band, or the single placeholder when none
      does. */
  method GenerateAlerts(txs: seq<Holding>) returns (alerts: seq<Alert>)
    ensures |alerts| >= 1
    ensures alerts == [NoAlerts] <==> forall i :: 0 <= i < |txs| ==> -10.0 <= txs[i].rentabilidadPct <= 20.0
    ensures alerts != [NoAlerts] ==> alerts == AlertsOf(txs)
  {
    alerts := [];
    var count := 0;
    for i := 0 to |txs|
      invariant alerts == AlertsOf(txs[..i])
      invariant count == |alerts|
    {
      assert txs[..i + 1][..i] == txs[..i];
      var msg := AlertFor(txs[i]);
      if msg.Some? {
        alerts := alerts + [msg.value];
        count := count + 1;
      }
    }
    assert txs[..|txs|] == txs;
    if count == 0 {
      alerts := alerts + [NoAlerts];
    }
  }
}
