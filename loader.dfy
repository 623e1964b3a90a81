/** The server-side loader (`load_transactions` in the Flask app) and the
    summary of its index page: the sheet is chosen, column names are
    normalised, known aliases are resolved to the nine target columns, and
    the derived columns are computed only where the file does not supply
    them. Unlike the dashboard script, the loader has no `|| 1` divisor
    guard and no fallback of the current price to the purchase price. */
module Loader {
  import opened Wrappers
  import opened Records
  import Text
  import Workbook
  import Summary

  /** A data frame as read from the file: the column names as they appear
      in the header, and each column's cells. */
  datatype Frame = Frame(headers: seq<string>, columns: seq<seq<Workbook.Cell>>)

  /** The file handed to the loader: a spreadsheet with named sheets, or a
      CSV file holding one frame. */
  datatype Upload = Spreadsheet(sheets: seq<(string, Frame)>) | Csv(frame: Frame)

  /** The sheet loop: the first sheet whose trimmed, lower-cased name is
      `inversiones`, else the first sheet; None (an `IndexError`) when the
      workbook has no sheet. */
  method ChooseSheet(names: seq<string>) returns (sheet: Option<nat>)
    ensures sheet == Workbook.SheetChoice(names)
  {
    sheet := None;
    var i := 0;
    while i < |names|
      invariant 0 <= i <= |names|
      invariant Workbook.Find(names, Workbook.IsPortfolioSheet, 0) == Workbook.Find(names, Workbook.IsPortfolioSheet, i)
    {
      if Workbook.IsPortfolioSheet(names[i]) {
        sheet := Some(i);
        break;
      }
      i := i + 1;
    }
    if sheet.None? && |names| > 0 {
      sheet := Some(0);
    }
  }

  /** `[str(c).strip().lower() for c in df.columns]`. */
  function NormalizeHeaders(headers: seq<string>): (r: seq<string>)
    ensures |r| == |headers|
    ensures forall i :: 0 <= i < |headers| ==> r[i] == Text.Normalize(headers[i])
  {
    seq(|headers|, i requires 0 <= i < |headers| => Text.Normalize(headers[i]))
  }

  /** Lower-casing keeps white space where it was. */
  lemma LowerKeepsSpace(c: char)
    ensures Text.IsSpace(Text.LowerChar(c)) <==> Text.IsSpace(c)
  {
  }

  /** Normalising an already-normalised name changes nothing, so the
      aliases below, all written in normal form, are matched exactly. */
  lemma NormalizeIdempotent(s: string)
    ensures Text.Normalize(Text.Normalize(s)) == Text.Normalize(s)
  {
    var n := Text.Normalize(s);
    var t := Text.Trim(s);
    if |n| > 0 {
      LowerKeepsSpace(t[0]);
      LowerKeepsSpace(t[|t| - 1]);
    }
    Text.TrimOfUnpadded(n);
  }

  /** The target columns. */
  const Fecha: string := "fecha_transaccion"
  const Indice: string := "indice"
  const Usd: string := "usd"
  const Shares: string := "shares"
  const PrecioCompra: string := "precio_compra"
  const PrecioActual: string := "precio_actual"
  const ValorActual: string := "valor_actual"
  const RentabilidadPct: string := "rentabilidad_pct"
  const RentabilidadClp: string := "rentabilidad_clp"

  /** `col_map` in its iteration order: each accepted column name and the
      target column it supplies. */
  const ColMap: seq<(string, string)> := [
    ("fecha transaccion", Fecha), ("fecha", Fecha),
    ("indice", Indice), ("index", Indice),
    ("usd transaccionados", Usd), ("usd", Usd),
    ("cantidad de shares", Shares), ("shares", Shares), ("n° acciones", Shares), ("cantidad", Shares),
    ("precio accion", PrecioCompra), ("precio acción", PrecioCompra), ("precio", PrecioCompra),
    ("precio actual", PrecioActual), ("precio venta", PrecioActual),
    ("valor actual", ValorActual),
    ("rentabilidad %", RentabilidadPct), ("rentabilidad en el periodo %", RentabilidadPct),
    ("% rentabilidad", RentabilidadPct), ("rentabilidad", RentabilidadPct),
    ("rentabilidad clp", RentabilidadClp), ("rentabilidad en el periodo clp", RentabilidadClp)]

  /** The last column before `n` named `name`. */
  function LastIndexBefore(headers: seq<string>, name: string, n: nat): (r: Option<nat>)
    requires n <= |headers|
    ensures r.None? <==> forall c :: 0 <= c < n ==> headers[c] != name
    ensures r.Some? ==> r.value < n && headers[r.value] == name
    ensures r.Some? ==> forall c :: r.value < c < n ==> headers[c] != name
  {
    if n == 0 then None
    else if headers[n - 1] == name then Some(n - 1)
    else LastIndexBefore(headers, name, n - 1)
  }

  /** One alias applied to the mapping: its target now names the last column
      with that name, when there is one. */
  function ApplyAlias(m: map<string, nat>, headers: seq<string>, alias: (string, string), n: nat): map<string, nat>
    requires n <= |headers|
  {
    match LastIndexBefore(headers, alias.0, n)
    case None => m
    case Some(c) => m[alias.1 := c]
  }

  /** The mapping from target column to source column after the aliases of
      `aliases`, applied in order, each overwriting what came before. */
  function Resolved(headers: seq<string>, aliases: seq<(string, string)>): (m: map<string, nat>)
    ensures forall t :: t in m ==> m[t] < |headers|
  {
    if |aliases| == 0 then map[]
    else ApplyAlias(Resolved(headers, aliases[..|aliases| - 1]), headers, aliases[|aliases| - 1], |headers|)
  }

  /** The nested loop that fills `data`: for every alias in order, every
      column of that name is assigned to the alias's target. */
  method ResolveAliases(headers: seq<string>, aliases: seq<(string, string)>) returns (data: map<string, nat>)
    ensures data == Resolved(headers, aliases)
  {
    data := map[];
    for i := 0 to |aliases|
      invariant data == Resolved(headers, aliases[..i])
    {
      var (orig, target) := aliases[i];
      ghost var before := data;
      for c := 0 to |headers|
        invariant data == ApplyAlias(before, headers, aliases[i], c)
      {
        if orig == headers[c] {
          data := data[target := c];
        }
      }
      assert aliases[..i + 1][..i] == aliases[..i];
    }
    assert aliases[..|aliases|] == aliases;
  }

  /** A target is resolved exactly when one of its aliases is a column
      name, and it then names a column carrying one of its aliases: any
      column that is no alias is ignored. */
  lemma {:induction false} ResolvedIsSound(headers: seq<string>, aliases: seq<(string, string)>, t: string)
    ensures t in Resolved(headers, aliases) <==>
            exists j :: 0 <= j < |aliases| && aliases[j].1 == t && aliases[j].0 in headers
    ensures t in Resolved(headers, aliases) ==>
            exists j :: 0 <= j < |aliases| && aliases[j] == (headers[Resolved(headers, aliases)[t]], t)
  {
    if |aliases| > 0 {
      var init := aliases[..|aliases| - 1];
      ResolvedIsSound(headers, init, t);
      var last := aliases[|aliases| - 1];
      if last.0 in headers {
        var k :| 0 <= k < |headers| && headers[k] == last.0;
        assert LastIndexBefore(headers, last.0, |headers|).Some?;
      }
      assert forall j :: 0 <= j < |init| ==> init[j] == aliases[j];
    }
  }

  /** When several aliases of one target are present, the one listed last
      wins, and it takes the last column of that name. */
  lemma {:induction false} LaterAliasWins(headers: seq<string>, aliases: seq<(string, string)>, j: nat)
    requires j < |aliases| && aliases[j].0 in headers
    requires forall j' :: j < j' < |aliases| && aliases[j'].1 == aliases[j].1 ==> aliases[j'].0 !in headers
    ensures aliases[j].1 in Resolved(headers, aliases)
    ensures Resolved(headers, aliases)[aliases[j].1] == LastIndexBefore(headers, aliases[j].0, |headers|).value
  {
    var init := aliases[..|aliases| - 1];
    var last := aliases[|aliases| - 1];
    var k :| 0 <= k < |headers| && headers[k] == aliases[j].0;
    assert LastIndexBefore(headers, aliases[j].0, |headers|).Some?;
    if j < |aliases| - 1 {
      assert init[j] == aliases[j];
      LaterAliasWins(headers, init, j);
      if last.1 == aliases[j].1 {
        assert LastIndexBefore(headers, last.0, |headers|).None?;
      }
    }
  }

  /** The headers `usd`, `cantidad` and `shares` resolve the share count to
      the `cantidad` column, listed after `shares` among the aliases. */
  lemma CantidadOverridesShares()
    ensures var m := Resolved(["usd", "shares", "cantidad"], ColMap);
      Shares in m && m[Shares] == 2
  {
    var headers := ["usd", "shares", "cantidad"];
    assert ColMap[9] == ("cantidad", Shares);
    assert headers[2] == "cantidad";
    LaterAliasWins(headers, ColMap, 9);
  }

  /** `pd.to_numeric(cell, errors='coerce')`, None standing for a missing
      value: numbers are kept, anything else is coerced to missing. */
  function ToNumeric(c: Workbook.Cell): (r: Option<real>)
    ensures r.Some? <==> c.Num?
    ensures c.Num? ==> r.value == c.x
  {
    if c.Num? then Some(c.x) else None
  }

  /** A cell of the frame; a position outside it reads as empty. */
  function CellAt(f: Frame, col: nat, row: nat): Workbook.Cell {
    if col < |f.columns| && row < |f.columns[col]| then f.columns[col][row] else Workbook.Blank
  }

  function Height(f: Frame): nat {
    if |f.columns| == 0 then 0 else |f.columns[0]|
  }

  /** One row of the loader's output. Numbers may be missing (NaN); the date
      and ticker cells are carried as read. */
  datatype LoadedRow = LoadedRow(
    fecha: Workbook.Cell, indice: Workbook.Cell,
    usd: Option<real>, shares: Option<real>, precioCompra: Option<real>, precioActual: Option<real>,
    valorActual: Option<real>, rentabilidadPct: Option<real>, rentabilidadClp: Option<real>)

  /** A base column: the resolved column coerced to numbers, or 0 when no
      column supplies it. */
  function BaseNumber(f: Frame, data: map<string, nat>, target: string, row: nat): (r: Option<real>)
    ensures target !in data ==> r == Some(0.0)
    ensures target in data ==> r == ToNumeric(CellAt(f, data[target], row))
  {
    if target in data then ToNumeric(CellAt(f, data[target], row)) else Some(0.0)
  }

  /** Products and quotients of possibly missing numbers. */
  function Times(a: Option<real>, b: Option<real>): (r: Option<real>)
    ensures r.Some? <==> a.Some? && b.Some?
    ensures r.Some? ==> r.value == a.value * b.value
  {
    if a.Some? && b.Some? then Some(a.value * b.value) else None
  }

  /** `(precio_actual - precio_compra) / precio_compra * 100`. A zero
      purchase price gives no number: pandas stores an infinity there (NaN
      for 0/0), which the model does not represent. */
  function ReturnPct(pa: Option<real>, pc: Option<real>): (r: Option<real>)
    ensures r.Some? <==> pa.Some? && pc.Some? && pc.value != 0.0
    ensures r.Some? ==> r.value * pc.value == (pa.value - pc.value) * 100.0
  {
    if pa.Some? && pc.Some? && pc.value != 0.0 then Some((pa.value - pc.value) / pc.value * 100.0) else None
  }

  /** `usd * (rentabilidad_pct / 100) * 950`. */
  function ReturnClp(usd: Option<real>, pct: Option<real>): (r: Option<real>)
    ensures r.Some? <==> usd.Some? && pct.Some?
    ensures r.Some? ==> r.value * 100.0 == usd.value * pct.value * UsdToClp
  {
    if usd.Some? && pct.Some? then Some(usd.value * (pct.value / 100.0) * UsdToClp) else None
  }

  /** A derived column: the supplied column when there is one, otherwise
      the computed value. */
  function Supplied(f: Frame, data: map<string, nat>, target: string, row: nat, computed: Option<real>): (r: Option<real>)
    ensures target in data ==> r == ToNumeric(CellAt(f, data[target], row))
    ensures target !in data ==> r == computed
  {
    if target in data then ToNumeric(CellAt(f, data[target], row)) else computed
  }

  /** Row `row` of the loader's output. */
  function FillRow(f: Frame, data: map<string, nat>, row: nat): (r: LoadedRow)
    ensures ValorActual !in data ==> r.valorActual == Times(r.shares, r.precioActual)
    ensures RentabilidadPct !in data ==> r.rentabilidadPct == ReturnPct(r.precioActual, r.precioCompra)
    ensures RentabilidadClp !in data ==> r.rentabilidadClp == ReturnClp(r.usd, r.rentabilidadPct)
  {
    var usd := BaseNumber(f, data, Usd, row);
    var shares := BaseNumber(f, data, Shares, row);
    var pc := BaseNumber(f, data, PrecioCompra, row);
    var pa := BaseNumber(f, data, PrecioActual, row);
    var valor := Supplied(f, data, ValorActual, row, Times(shares, pa));
    var pct := Supplied(f, data, RentabilidadPct, row, ReturnPct(pa, pc));
    var clp := Supplied(f, data, RentabilidadClp, row, ReturnClp(usd, pct));
    var fecha := if Fecha in data then CellAt(f, data[Fecha], row) else Workbook.Blank;
    var indice := if Indice in data then CellAt(f, data[Indice], row) else Workbook.Blank;
    LoadedRow(fecha, indice, usd, shares, pc, pa, valor, pct, clp)
  }

  /** The output frame: one row per input row once any target column is
      resolved, none otherwise. */
  function FillFrame(f: Frame, data: map<string, nat>): (rows: seq<LoadedRow>)
    ensures data == map[] ==> rows == []
    ensures data != map[] ==> |rows| == Height(f) && forall i :: 0 <= i < |rows| ==> rows[i] == FillRow(f, data, i)
  {
    if data == map[] then [] else seq(Height(f), i requires 0 <= i < Height(f) => FillRow(f, data, i))
  }

  /** What loading yields: None when a spreadsheet has no sheet. */
  function LoadSpec(u: Upload): Option<seq<LoadedRow>> {
    var frame :=
      match u
      case Csv(f) => Some(f)
      case Spreadsheet(sheets) =>
        var names := seq(|sheets|, i requires 0 <= i < |sheets| => sheets[i].0);
        match Workbook.SheetChoice(names)
        case None => None
        case Some(k) => Some(sheets[k].1);
    match frame
    case None => None
    case Some(f) =>
      Some(FillFrame(f, Resolved(NormalizeHeaders(f.headers), ColMap)))
  }

  /** `load_transactions`: choose the frame, normalise its column names,
      resolve the aliases, then fill the output columns. */
  method LoadTransactions(u: Upload) returns (out: Option<seq<LoadedRow>>)
    ensures out == LoadSpec(u)
    ensures u.Csv? ==> out.Some?
  {
    var frame: Frame;
    match u {
      case Csv(f) =>
        frame := f;
      case Spreadsheet(sheets) =>
        var names := seq(|sheets|, i requires 0 <= i < |sheets| => sheets[i].0);
        var sheet := ChooseSheet(names);
        if sheet.None? {
          return None;
        }
        frame := sheets[sheet.value].1;
    }
    var data := ResolveAliases(NormalizeHeaders(frame.headers), ColMap);
    out := Some(FillFrame(frame, data));
  }

  /** On a row that supplies all four base numbers but none of the derived
      columns, with non-zero prices, the loader computes exactly the
      dashboard's derived fields. */
  lemma AgreesWithDashboard(f: Frame, data: map<string, nat>, row: nat, fecha: string, indice: string)
    requires ValorActual !in data && RentabilidadPct !in data && RentabilidadClp !in data
    requires var r := FillRow(f, data, row);
      r.usd.Some? && r.shares.Some? && r.precioCompra.Some? && r.precioActual.Some?
      && r.precioCompra.value != 0.0 && r.precioActual.value != 0.0
    ensures var r := FillRow(f, data, row);
      var h := Derive(BaseHolding(fecha, indice, r.usd.value, r.shares.value, r.precioCompra.value, r.precioActual.value));
      r.valorActual == Some(h.valorActual) && r.rentabilidadPct == Some(h.rentabilidadPct)
      && r.rentabilidadClp == Some(h.rentabilidadClp)
  {
    var r := FillRow(f, data, row);
    var h := Derive(BaseHolding(fecha, indice, r.usd.value, r.shares.value, r.precioCompra.value, r.precioActual.value));
    var pc := r.precioCompra.value;
    assert r.rentabilidadPct.value * pc == h.rentabilidadPct * pc;
    assert r.rentabilidadPct.value == h.rentabilidadPct;
    assert r.valorActual.value == r.shares.value * r.precioActual.value == h.valorActual;
    assert r.rentabilidadClp.value * 100.0 == h.rentabilidadClp * 100.0;
    assert r.rentabilidadClp.value == h.rentabilidadClp;
  }

  /** A file that supplies none of the four base numbers reads them all as
      0: the value is 0 and the return, divided by a zero purchase price,
      is missing, and so is the CLP return. */
  lemma FillRowDefaults(f: Frame, data: map<string, nat>, row: nat)
    requires Usd !in data && Shares !in data && PrecioCompra !in data && PrecioActual !in data
    requires ValorActual !in data && RentabilidadPct !in data && RentabilidadClp !in data
    ensures var r := FillRow(f, data, row);
      && r.usd == r.shares == r.precioCompra == r.precioActual == Some(0.0)
      && r.valorActual == Some(0.0) && r.rentabilidadPct.None? && r.rentabilidadClp.None?
  {
  }

  /** ... and they part ways on the zero cases: a zero purchase price gives
      the loader no finite return where the dashboard divides by 1, and a
      zero current price is kept by the loader (a -100% return) where the
      dashboard falls back to the purchase price (no return). */
  lemma DivergesOnZeroPrices(pa: real, pc: real)
    ensures ReturnPct(Some(pa), Some(0.0)).None?
    ensures Derive(BaseHolding("", "", 0.0, 0.0, 0.0, pa)).rentabilidadPct == pa * 100.0
    ensures pc != 0.0 ==> ReturnPct(Some(0.0), Some(pc)) == Some(-100.0)
    ensures Derive(BaseHolding("", "", 0.0, 0.0, pc, 0.0)).rentabilidadPct == 0.0
  {
    if pc != 0.0 {
      assert (0.0 - pc) / pc == -1.0;
    }
  }

  /** A number of the index summary: missing counts as 0. */
  function UsdOrZero(r: LoadedRow): real { r.usd.GetOr(0.0) }
  function ValueOrZero(r: LoadedRow): real { r.valorActual.GetOr(0.0) }
  function ClpOrZero(r: LoadedRow): real { r.rentabilidadClp.GetOr(0.0) }

  /** The index page's summary: `fillna(0).sum()` of the three columns and
      the blended return, 0 when nothing is invested. */
  function IndexSummary(rows: seq<LoadedRow>): (s: Summary.PortfolioSummary)
    ensures s.totalInvested == Summary.Total(rows, UsdOrZero)
    ensures s.totalValue == Summary.Total(rows, ValueOrZero)
    ensures s.totalRentClp == Summary.Total(rows, ClpOrZero)
    ensures s.totalInvested == 0.0 ==> s.rentPct == 0.0
    ensures s.totalInvested != 0.0 ==> s.rentPct * s.totalInvested == (s.totalValue - s.totalInvested) * 100.0
  {
    var invested := Summary.Total(rows, UsdOrZero);
    var value := Summary.Total(rows, ValueOrZero);
    Summary.PortfolioSummary(invested, value, Summary.Total(rows, ClpOrZero), Summary.BlendedPct(invested, value))
  }

  /** The loader's row for a dashboard holding. */
  function RowOf(h: Holding): LoadedRow {
    LoadedRow(Workbook.Text(h.fecha), Workbook.Text(h.indice), Some(h.usd), Some(h.shares),
              Some(h.precioCompra), Some(h.precioActual), Some(h.valorActual),
              Some(h.rentabilidadPct), Some(h.rentabilidadClp))
  }

  /** The index summary of holdings carried over as rows agrees with the
      dashboard's summary cards. */
  lemma IndexSummaryMatchesDashboard(txs: seq<Holding>)
    ensures var s := IndexSummary(seq(|txs|, i requires 0 <= i < |txs| => RowOf(txs[i])));
      && s.totalInvested == Summary.Total(txs, Summary.UsdOf)
      && s.totalValue == Summary.Total(txs, Summary.ValueOf)
      && s.totalRentClp == Summary.Total(txs, Summary.RentClpOf)
  {
    var rows := seq(|txs|, i requires 0 <= i < |txs| => RowOf(txs[i]));
    Summary.TotalPointwise(rows, txs, UsdOrZero, Summary.UsdOf);
    Summary.TotalPointwise(rows, txs, ValueOrZero, Summary.ValueOf);
    Summary.TotalPointwise(rows, txs, ClpOrZero, Summary.RentClpOf);
  }
}
