/** The portfolio records and the rule that derives a holding's value and
    return fields from its base fields. The dashboard script writes this rule
    out at every place that builds a record (loading the default dataset,
    importing a spreadsheet, saving the edit form, refreshing prices); here
    it is defined once and each of those places calls it. */
module Records {
  import opened Wrappers

  /** The fixed approximate CLP-per-USD rate used only for the
      `rentabilidad_clp` figure. */
  const UsdToClp: real := 950.0

  /** One purchase (positive `usd` and `shares`) or sale (both negative) of
      a ticker, with its derived fields. */
  datatype Holding = Holding(
    fecha: string,
    indice: string,
    usd: real,
    shares: real,
    precioCompra: real,
    precioActual: real,
    valorActual: real,
    rentabilidadPct: real,
    rentabilidadClp: real)

  /** The fields a holding is built from, before derivation (the shape of
      the bundled default dataset). A price of 0 stands for a missing or
      falsy value. */
  datatype BaseHolding = BaseHolding(
    fecha: string,
    indice: string,
    usd: real,
    shares: real,
    precioCompra: real,
    precioActual: real)

  /** One purchase of dollars: `cantidad` USD at `tc` CLP per USD. */
  datatype UsdPurchase = UsdPurchase(fecha: string, cantidad: real, tc: real)

  function BaseOf(h: Holding): BaseHolding {
    BaseHolding(h.fecha, h.indice, h.usd, h.shares, h.precioCompra, h.precioActual)
  }

  /** The return divisor `precio_compra || 1`: a zero purchase price divides
      by 1 instead of by zero. */
  function Divisor(precioCompra: real): (d: real)
    ensures d != 0.0
    ensures precioCompra != 0.0 ==> d == precioCompra
  {
    if precioCompra != 0.0 then precioCompra else 1.0
  }

  /** The derived fields of `h` agree with its base fields: value is price
      times shares, the percentage return times the divisor is the price
      gain times 100, and the CLP return is the USD amount times the
      percentage times 950 / 100. */
  predicate Consistent(h: Holding) {
    && h.valorActual == h.precioActual * h.shares
    && h.rentabilidadPct * Divisor(h.precioCompra) == (h.precioActual - h.precioCompra) * 100.0
    && h.rentabilidadClp * 100.0 == h.usd * h.rentabilidadPct * UsdToClp
  }

  /** The base fields of two holdings agree, except possibly the current
      price. */
  predicate SameLot(a: Holding, b: Holding) {
    a.fecha == b.fecha && a.indice == b.indice && a.usd == b.usd
    && a.shares == b.shares && a.precioCompra == b.precioCompra
  }

  /** The record built from base fields and a current price that is taken
      as given (no fallback): the common core of every derivation. */
  function Priced(fecha: string, indice: string, usd: real, shares: real,
                  precioCompra: real, precioActual: real): (h: Holding)
    ensures Consistent(h)
    ensures h.fecha == fecha && h.indice == indice && h.usd == usd
    ensures h.shares == shares && h.precioCompra == precioCompra
    ensures h.precioActual == precioActual
  {
    var pct := ((precioActual - precioCompra) / Divisor(precioCompra)) * 100.0;
    Holding(fecha, indice, usd, shares, precioCompra, precioActual,
            precioActual * shares, pct, usd * (pct / 100.0) * UsdToClp)
  }

  /** `precio_actual || precio_compra`. */
  function FallbackPrice(precioActual: real, precioCompra: real): real {
    if precioActual != 0.0 then precioActual else precioCompra
  }

  /** The derivation used when loading the default dataset, importing a
      spreadsheet row and saving the edit form: a zero current price falls
      back to the purchase price. */
  function Derive(b: BaseHolding): (h: Holding)
    ensures Consistent(h)
    ensures h.fecha == b.fecha && h.indice == b.indice && h.usd == b.usd
    ensures h.shares == b.shares && h.precioCompra == b.precioCompra
    ensures b.precioActual != 0.0 ==> h.precioActual == b.precioActual
    ensures b.precioActual == 0.0 ==> h.precioActual == b.precioCompra
  {
    Priced(b.fecha, b.indice, b.usd, b.shares, b.precioCompra,
           FallbackPrice(b.precioActual, b.precioCompra))
  }

  /** The price-refresh merge `priceMap[indice] ?? precio_actual`: a fetched
      price replaces the current one as it is (even 0), otherwise the stored
      current price is kept; the other base fields are untouched. */
  function Reprice(rec: Holding, fetched: Option<real>): (h: Holding)
    ensures Consistent(h) && SameLot(h, rec)
    ensures fetched.Some? ==> h.precioActual == fetched.value
    ensures fetched.None? ==> h.precioActual == rec.precioActual
  {
    Priced(rec.fecha, rec.indice, rec.usd, rec.shares, rec.precioCompra,
           fetched.GetOr(rec.precioActual))
  }

  /** A consistent record's derived fields are determined by its base
      fields: two consistent records with the same base fields are equal. */
  lemma ConsistentIsDetermined(a: Holding, b: Holding)
    requires Consistent(a) && Consistent(b) && BaseOf(a) == BaseOf(b)
    ensures a == b
  {
    var d := Divisor(a.precioCompra);
    assert a.rentabilidadPct * d == b.rentabilidadPct * d;
    assert a.rentabilidadPct == b.rentabilidadPct;
    assert a.rentabilidadClp * 100.0 == b.rentabilidadClp * 100.0;
  }

  /** Re-deriving a record that is already consistent, with no new price,
      changes nothing. */
  lemma RepriceKeepsConsistent(h: Holding)
    requires Consistent(h)
    ensures Reprice(h, None) == h
  {
    ConsistentIsDetermined(Reprice(h, None), h);
  }

  /** Deriving an already-derived record, its derived values fed back in as
      base values, gives the same record. */
  lemma DeriveIdempotent(b: BaseHolding)
    ensures Derive(BaseOf(Derive(b))) == Derive(b)
  {
    var h := Derive(b);
    assert FallbackPrice(h.precioActual, h.precioCompra) == h.precioActual;
  }

  /** The refresh merge and the fallback derivation agree whenever the price
      in play is not zero. */
  lemma RepriceAgreesWithDerive(rec: Holding, fetched: Option<real>)
    requires fetched.GetOr(rec.precioActual) != 0.0
    ensures Reprice(rec, fetched)
         == Derive(BaseHolding(rec.fecha, rec.indice, rec.usd, rec.shares,
                               rec.precioCompra, fetched.GetOr(rec.precioActual)))
  {
  }

  /** ... and they differ on a fetched price of 0 when the purchase price is
      not 0: the merge stores 0, while the derivation would fall back to the
      purchase price. */
  lemma RepriceKeepsFetchedZero(rec: Holding)
    requires rec.precioCompra != 0.0
    ensures Reprice(rec, Some(0.0)).precioActual == 0.0
    ensures Reprice(rec, Some(0.0)).rentabilidadPct == -100.0
    ensures Derive(BaseHolding(rec.fecha, rec.indice, rec.usd, rec.shares,
                               rec.precioCompra, 0.0)).precioActual == rec.precioCompra
  {
    var pc := rec.precioCompra;
    assert (0.0 - pc) / pc == -1.0;
  }

  /** A zero purchase price divides by 1: the return is the current price
      times 100, never a division by zero. */
  lemma ZeroPurchasePriceReturn(b: BaseHolding)
    requires b.precioCompra == 0.0
    ensures Derive(b).rentabilidadPct == b.precioActual * 100.0
  {
  }

  /** The worked example: 1000 USD for 10 shares bought at 100, now at 120. */
  lemma DeriveExample()
    ensures var h := Derive(BaseHolding("2024-03-08", "ARM", 1000.0, 10.0, 100.0, 120.0));
      h.valorActual == 1200.0 && h.rentabilidadPct == 20.0 && h.rentabilidadClp == 190000.0
  {
  }

  /** The default dataset, every record derived (`DEFAULT_TRANSACTIONS.map`). */
  function DeriveAll(bs: seq<BaseHolding>): (hs: seq<Holding>)
    ensures |hs| == |bs|
    ensures forall i :: 0 <= i < |bs| ==> hs[i] == Derive(bs[i]) && Consistent(hs[i])
  {
    seq(|bs|, i requires 0 <= i < |bs| => Derive(bs[i]))
  }
}
