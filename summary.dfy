/** The summary cards: totals over the holdings (`computeSummary`) and over
    the dollar purchases (`computeUsdSummary`). */
module Summary {
  import opened Records

  /** The sum of `f` over `s`, accumulated left to right as `forEach` does. */
  function Total<T>(s: seq<T>, f: T -> real): real {
    if |s| == 0 then 0.0 else Total(s[..|s| - 1], f) + f(s[|s| - 1])
  }

  /** Totals split over concatenation. */
  lemma {:induction false} TotalAppend<T>(a: seq<T>, b: seq<T>, f: T -> real)
    ensures Total(a + b, f) == Total(a, f) + Total(b, f)
  {
    if |b| == 0 {
      assert a + b == a;
    } else {
      TotalAppend(a, b[..|b| - 1], f);
      assert (a + b)[..|a + b| - 1] == a + b[..|b| - 1];
    }
  }

  /** Removing the element at `k` takes its share out of the total. */
  lemma TotalRemoveAt<T>(s: seq<T>, k: nat, f: T -> real)
    requires k < |s|
    ensures Total(s[..k] + s[k + 1..], f) == Total(s, f) - f(s[k])
  {
    var a, x, b := s[..k], s[k], s[k + 1..];
    assert s == (a + [x]) + b;
    TotalAppend(a + [x], b, f);
    assert (a + [x])[..|a|] == a;
    assert Total(a + [x], f) == Total(a, f) + f(x);
    TotalAppend(a, b, f);
  }

  /** Replacing the element at `k` swaps its share of the total. */
  lemma TotalReplaceAt<T>(s: seq<T>, k: nat, x: T, f: T -> real)
    requires k < |s|
    ensures Total(s[k := x], f) == Total(s, f) - f(s[k]) + f(x)
  {
    TotalRemoveAt(s, k, f);
    TotalRemoveAt(s[k := x], k, f);
    assert s[k := x][..k] + s[k := x][k + 1..] == s[..k] + s[k + 1..];
  }

  /** Totals agree on two lists whose elements contribute the same amounts
      position by position. */
  lemma {:induction false} TotalPointwise<A, B>(a: seq<A>, b: seq<B>, f: A -> real, g: B -> real)
    requires |a| == |b|
    requires forall i :: 0 <= i < |a| ==> f(a[i]) == g(b[i])
    ensures Total(a, f) == Total(b, g)
  {
    if |a| > 0 {
      TotalPointwise(a[..|a| - 1], b[..|b| - 1], f, g);
    }
  }

  function UsdOf(h: Holding): real { h.usd }
  function ValueOf(h: Holding): real { h.valorActual }
  function RentClpOf(h: Holding): real { h.rentabilidadClp }

  /** The blended return `totalInvested ? (totalValue - totalInvested) /
      totalInvested * 100 : 0`. */
  function BlendedPct(invested: real, value: real): (r: real)
    ensures invested == 0.0 ==> r == 0.0
    ensures invested != 0.0 ==> r * invested == (value - invested) * 100.0
  {
    if invested != 0.0 then ((value - invested) / invested) * 100.0 else 0.0
  }

  datatype PortfolioSummary = PortfolioSummary(
    totalInvested: real, totalValue: real, totalRentClp: real, rentPct: real)

  /** `computeSummary`: the invested total is the sum of `usd`, the value
      total the sum of `valor_actual`, the CLP return the sum of
      `rentabilidad_clp`, and the blended percentage is guarded against a
      zero invested total. */
  method ComputeSummary(txs: seq<Holding>) returns (s: PortfolioSummary)
    ensures s.totalInvested == Total(txs, UsdOf)
    ensures s.totalValue == Total(txs, ValueOf)
    ensures s.totalRentClp == Total(txs, RentClpOf)
    ensures s.totalInvested == 0.0 ==> s.rentPct == 0.0
    ensures s.totalInvested != 0.0 ==> s.rentPct * s.totalInvested == (s.totalValue - s.totalInvested) * 100.0
  {
    var totalInvested, totalValue, totalRentClp := 0.0, 0.0, 0.0;
    for i := 0 to |txs|
      invariant totalInvested == Total(txs[..i], UsdOf)
      invariant totalValue == Total(txs[..i], ValueOf)
      invariant totalRentClp == Total(txs[..i], RentClpOf)
    {
      assert txs[..i + 1][..i] == txs[..i];
      totalInvested := totalInvested + txs[i].usd;
      totalValue := totalValue + txs[i].valorActual;
      totalRentClp := totalRentClp + txs[i].rentabilidadClp;
    }
    assert txs[..|txs|] == txs;
    s := PortfolioSummary(totalInvested, totalValue, totalRentClp, BlendedPct(totalInvested, totalValue));
  }

  function Cantidad(p: UsdPurchase): real { p.cantidad }
  function CostClp(p: UsdPurchase): real { p.cantidad * p.tc }

  /** The average exchange rate `totalUSD ? totalCLP / totalUSD : 0`. */
  function AverageRate(totalClp: real, totalUsd: real): (r: real)
    ensures totalUsd == 0.0 ==> r == 0.0
    ensures totalUsd != 0.0 ==> r * totalUsd == totalClp
  {
    if totalUsd != 0.0 then totalClp / totalUsd else 0.0
  }

  datatype UsdSummary = UsdSummary(totalUsd: real, totalClp: real, avgTc: real)

  /** `computeUsdSummary`: the dollars bought, what they cost in CLP, and
      the average rate paid. */
  method ComputeUsdSummary(ps: seq<UsdPurchase>) returns (s: UsdSummary)
    ensures s.totalUsd == Total(ps, Cantidad)
    ensures s.totalClp == Total(ps, CostClp)
    ensures s.totalUsd == 0.0 ==> s.avgTc == 0.0
    ensures s.totalUsd != 0.0 ==> s.avgTc * s.totalUsd == s.totalClp
  {
    var totalUsd, totalClp := 0.0, 0.0;
    for i := 0 to |ps|
      invariant totalUsd == Total(ps[..i], Cantidad)
      invariant totalClp == Total(ps[..i], CostClp)
    {
      assert ps[..i + 1][..i] == ps[..i];
      totalUsd := totalUsd + ps[i].cantidad;
      totalClp := totalClp + ps[i].cantidad * ps[i].tc;
    }
    assert ps[..|ps|] == ps;
    s := UsdSummary(totalUsd, totalClp, AverageRate(totalClp, totalUsd));
  }

  /** One more purchase of `a` dollars at a rate in [lo, hi] keeps the
      cost between lo and hi times the dollars bought. */
  lemma AddWithinBounds(u: real, c: real, a: real, t: real, lo: real, hi: real)
    requires lo * u <= c <= hi * u
    requires a > 0.0 && lo <= t <= hi
    ensures lo * (u + a) <= c + a * t <= hi * (u + a)
  {
    assert (t - lo) * a >= 0.0 && (hi - t) * a >= 0.0;
  }

  /** A cost between lo and hi times a positive amount gives an average
      rate in [lo, hi]. */
  lemma AverageBetween(c: real, u: real, lo: real, hi: real)
    requires u > 0.0 && lo * u <= c <= hi * u
    ensures lo <= AverageRate(c, u) <= hi
  {
    var r := AverageRate(c, u);
    assert (r - lo) * u >= 0.0;
    assert (hi - r) * u >= 0.0;
  }

  /** With positive amounts and every rate in [lo, hi], the CLP cost lies
      between lo and hi times the dollars bought. */
  lemma {:induction false} CostWithinRateBounds(ps: seq<UsdPurchase>, lo: real, hi: real)
    requires forall i :: 0 <= i < |ps| ==> ps[i].cantidad > 0.0 && lo <= ps[i].tc <= hi
    ensures lo * Total(ps, Cantidad) <= Total(ps, CostClp) <= hi * Total(ps, Cantidad)
    ensures |ps| > 0 ==> Total(ps, Cantidad) > 0.0
  {
    if |ps| > 0 {
      var init, p := ps[..|ps| - 1], ps[|ps| - 1];
      CostWithinRateBounds(init, lo, hi);
      AddWithinBounds(Total(init, Cantidad), Total(init, CostClp), p.cantidad, p.tc, lo, hi);
    }
  }

  /** The average rate is a weighted mean: with positive amounts it lies
      between the lowest and the highest rate paid. */
  lemma AverageRateWithinBounds(ps: seq<UsdPurchase>, lo: real, hi: real)
    requires |ps| > 0
    requires forall i :: 0 <= i < |ps| ==> ps[i].cantidad > 0.0 && lo <= ps[i].tc <= hi
    ensures lo <= AverageRate(Total(ps, CostClp), Total(ps, Cantidad)) <= hi
  {
    CostWithinRateBounds(ps, lo, hi);
    AverageBetween(Total(ps, CostClp), Total(ps, Cantidad), lo, hi);
  }
}
