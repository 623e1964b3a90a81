/** The spreadsheet import (`parseFile`): holdings are read from a fixed
    window of rows and fixed columns, and dollar purchases from the block
    under a `CANT.` header. */
module SheetImport {
  import opened Wrappers
  import opened Records
  import opened Workbook
  import Text

  /** How cells that are not text are turned into text: `XLSX.SSF.format(
      'yyyy-mm-dd', v)` for a numeric date, and the conversion of a numeric
      ticker cell to the ticker. Both belong to the spreadsheet library. */
  datatype CellFormats = CellFormats(date: real -> string, ticker: real -> string)

  /** The holdings window: zero-based rows 3 to 100 of the sheet. */
  const FirstHoldingRow: nat := 3
  const HoldingRowLimit: nat := 101

  /** The holdings columns W, X, Z, AA, AB and AE. */
  const DateCol: nat := 22
  const TickerCol: nat := 23
  const UsdCol: nat := 25
  const SharesCol: nat := 26
  const PurchasePriceCol: nat := 27
  const CurrentPriceCol: nat := 30

  /** The purchases block's columns B (amount), C (date) and D (rate). */
  const AmountCol: nat := 1
  const PurchaseDateCol: nat := 2
  const RateCol: nat := 3

  /** The header that opens the purchases block, after trimming and
      lower-casing. */
  const PurchasesHeader: string := "cant."

  /** A date cell as text: a text date keeps what precedes the first 'T',
      a numeric date is formatted. */
  function DateText(c: Cell, fmt: CellFormats): (r: string)
    requires !c.Blank?
    ensures c.Text? ==> r == Text.DatePart(c.s)
  {
    match c
    case Text(s) => Text.DatePart(s)
    case Num(x) => fmt.date(x)
  }

  function TickerText(c: Cell, fmt: CellFormats): (r: string)
    requires !c.Blank?
    ensures c.Text? ==> r == c.s
  {
    match c
    case Text(s) => s
    case Num(x) => fmt.ticker(x)
  }

  /** A row that yields a holding: it exists and its date and ticker cells
      are neither empty, zero nor ''. */
  predicate Usable(row: Row) {
    row.Cells? && Truthy(At(row, DateCol)) && Truthy(At(row, TickerCol))
  }

  /** The holding one sheet row yields: none for a missing row or a row
      whose date or ticker cell is empty, zero or '', otherwise the record
      derived from the row's numbers. */
  function HoldingRow(row: Row, fmt: CellFormats): (r: Option<Holding>)
    ensures r.Some? <==> Usable(row)
    ensures r.Some? ==> Consistent(r.value)
    ensures r.Some? ==>
      && r.value.fecha == DateText(At(row, DateCol), fmt)
      && r.value.indice == TickerText(At(row, TickerCol), fmt)
      && r.value.usd == CellNumber(At(row, UsdCol))
      && r.value.shares == CellNumber(At(row, SharesCol))
      && r.value.precioCompra == CellNumber(At(row, PurchasePriceCol))
      && r.value.precioActual == FallbackPrice(CellNumber(At(row, CurrentPriceCol)), CellNumber(At(row, PurchasePriceCol)))
  {
    if row.Missing? then None
    else
      var fecha := At(row, DateCol);
      var indice := At(row, TickerCol);
      if !Truthy(fecha) || !Truthy(indice) then None
      else
        Some(Derive(BaseHolding(
          DateText(fecha, fmt), TickerText(indice, fmt),
          CellNumber(At(row, UsdCol)), CellNumber(At(row, SharesCol)),
          CellNumber(At(row, PurchasePriceCol)), CellNumber(At(row, CurrentPriceCol)))))
  }

  function OptionToSeq<T>(o: Option<T>): (s: seq<T>)
    ensures o.None? ==> s == []
    ensures o.Some? ==> s == [o.value]
  {
    if o.Some? then [o.value] else []
  }

  /** The two row loops of the import, with what a row yields left as a
      parameter `f` (given the cell formats `c`).

      `Scan`: what the rows from `lo` up to (not including) `end` yield, in
      row order. */
  function Scan<R, C, H>(rows: seq<R>, f: (R, C) -> Option<H>, c: C, lo: nat, end: nat): seq<H>
    requires end <= |rows|
    decreases end
  {
    if end <= lo then [] else Scan(rows, f, c, lo, end - 1) + OptionToSeq(f(rows[end - 1], c))
  }

  /** Everything a scan yields comes from some row of its window. */
  lemma {:induction false} ScanSound<R, C, H>(rows: seq<R>, f: (R, C) -> Option<H>, c: C, lo: nat, end: nat, h: H)
    requires end <= |rows| && h in Scan(rows, f, c, lo, end)
    ensures exists r :: lo <= r < end && f(rows[r], c) == Some(h)
    decreases end
  {
    if h !in Scan(rows, f, c, lo, end - 1) {
      assert f(rows[end - 1], c) == Some(h);
    } else {
      ScanSound(rows, f, c, lo, end - 1, h);
    }
  }

  /** A scan yields nothing exactly when no row of its window yields
      anything. */
  lemma {:induction false} ScanEmptyIff<R, C, H>(rows: seq<R>, f: (R, C) -> Option<H>, c: C, lo: nat, end: nat)
    requires end <= |rows|
    ensures Scan(rows, f, c, lo, end) == [] <==> forall r :: lo <= r < end ==> f(rows[r], c).None?
    decreases end
  {
    if end > lo {
      ScanEmptyIff(rows, f, c, lo, end - 1);
      var last := f(rows[end - 1], c);
      if last.Some? {
        assert Scan(rows, f, c, lo, end) == Scan(rows, f, c, lo, end - 1) + [last.value];
      }
    }
  }

  /** Everything a row of the window yields is in the scan. */
  lemma {:induction false} ScanComplete<R, C, H>(rows: seq<R>, f: (R, C) -> Option<H>, c: C, lo: nat, end: nat, r: nat)
    requires end <= |rows| && lo <= r < end && f(rows[r], c).Some?
    ensures f(rows[r], c).value in Scan(rows, f, c, lo, end)
    decreases end
  {
    if r < end - 1 {
      ScanComplete(rows, f, c, lo, end - 1, r);
    }
  }

  /** The scan keeps row order: what an earlier row yields comes before
      what a later row yields. */
  lemma {:induction false} ScanKeepsOrder<R, C, H>(rows: seq<R>, f: (R, C) -> Option<H>, c: C, lo: nat, end: nat, r1: nat, r2: nat)
    requires end <= |rows| && lo <= r1 < r2 < end
    requires f(rows[r1], c).Some? && f(rows[r2], c).Some?
    ensures exists i, j ::
              && 0 <= i < j < |Scan(rows, f, c, lo, end)|
              && Scan(rows, f, c, lo, end)[i] == f(rows[r1], c).value
              && Scan(rows, f, c, lo, end)[j] == f(rows[r2], c).value
    decreases end
  {
    var before := Scan(rows, f, c, lo, end - 1);
    var all := Scan(rows, f, c, lo, end);
    assert all == before + OptionToSeq(f(rows[end - 1], c));
    if r2 == end - 1 {
      ScanComplete(rows, f, c, lo, end - 1, r1);
      var i :| 0 <= i < |before| && before[i] == f(rows[r1], c).value;
      assert all[i] == before[i] && all[|before|] == f(rows[r2], c).value;
    } else {
      ScanKeepsOrder(rows, f, c, lo, end - 1, r1, r2);
      var i, j :| 0 <= i < j < |before| && before[i] == f(rows[r1], c).value && before[j] == f(rows[r2], c).value;
      assert all[i] == before[i] && all[j] == before[j];
    }
  }

  /** A scan never reads the rows at or after the end of its window. */
  lemma {:induction false} ScanIgnoresLaterRows<R, C, H>(rows: seq<R>, f: (R, C) -> Option<H>, c: C, lo: nat, end: nat, n: nat)
    requires end <= n <= |rows|
    ensures Scan(rows[..n], f, c, lo, end) == Scan(rows, f, c, lo, end)
    decreases end
  {
    if end > lo {
      ScanIgnoresLaterRows(rows, f, c, lo, end - 1, n);
      assert rows[..n][end - 1] == rows[end - 1];
    }
  }

  /** `ScanUntil`: what the rows from `r` on yield, up to the first row that
      satisfies `stop`. */
  function ScanUntil<R, C, H>(rows: seq<R>, stop: R -> bool, f: (R, C) -> Option<H>, c: C, r: nat): seq<H>
    requires r <= |rows|
    decreases |rows| - r
  {
    if r == |rows| || stop(rows[r]) then []
    else OptionToSeq(f(rows[r], c)) + ScanUntil(rows, stop, f, c, r + 1)
  }

  /** Everything such a scan yields comes from a row before the first stop
      row. */
  lemma {:induction false} ScanUntilSound<R, C, H>(rows: seq<R>, stop: R -> bool, f: (R, C) -> Option<H>, c: C, r: nat, h: H)
    requires r <= |rows| && h in ScanUntil(rows, stop, f, c, r)
    ensures exists k :: r <= k < |rows| && !stop(rows[k]) && f(rows[k], c) == Some(h)
    decreases |rows| - r
  {
    if h !in ScanUntil(rows, stop, f, c, r + 1) {
      assert f(rows[r], c) == Some(h);
    } else {
      ScanUntilSound(rows, stop, f, c, r + 1, h);
    }
  }

  /** Everything a row before the first stop row yields is in the scan. */
  lemma {:induction false} ScanUntilComplete<R, C, H>(rows: seq<R>, stop: R -> bool, f: (R, C) -> Option<H>, c: C, r: nat, k: nat)
    requires r <= k < |rows| && f(rows[k], c).Some?
    requires forall j :: r <= j <= k ==> !stop(rows[j])
    ensures f(rows[k], c).value in ScanUntil(rows, stop, f, c, r)
    decreases k - r
  {
    if r < k {
      ScanUntilComplete(rows, stop, f, c, r + 1, k);
    }
  }

  /** Such a scan keeps row order. */
  lemma {:induction false} ScanUntilKeepsOrder<R, C, H>(rows: seq<R>, stop: R -> bool, f: (R, C) -> Option<H>, c: C, r: nat, k1: nat, k2: nat)
    requires r <= k1 < k2 < |rows|
    requires f(rows[k1], c).Some? && f(rows[k2], c).Some?
    requires forall j :: r <= j <= k2 ==> !stop(rows[j])
    ensures exists i, j ::
              && 0 <= i < j < |ScanUntil(rows, stop, f, c, r)|
              && ScanUntil(rows, stop, f, c, r)[i] == f(rows[k1], c).value
              && ScanUntil(rows, stop, f, c, r)[j] == f(rows[k2], c).value
    decreases k1 - r
  {
    var head := OptionToSeq(f(rows[r], c));
    var rest := ScanUntil(rows, stop, f, c, r + 1);
    var all := ScanUntil(rows, stop, f, c, r);
    assert all == head + rest;
    if k1 == r {
      ScanUntilComplete(rows, stop, f, c, r + 1, k2);
      var j :| 0 <= j < |rest| && rest[j] == f(rows[k2], c).value;
      assert all[0] == f(rows[k1], c).value && all[1 + j] == rest[j];
    } else {
      ScanUntilKeepsOrder(rows, stop, f, c, r + 1, k1, k2);
      var i, j :| 0 <= i < j < |rest| && rest[i] == f(rows[k1], c).value && rest[j] == f(rows[k2], c).value;
      assert all[|head| + i] == rest[i] && all[|head| + j] == rest[j];
    }
  }

  /** The rows after a stop row are never read. */
  lemma {:induction false} ScanUntilStops<R, C, H>(rows: seq<R>, stop: R -> bool, f: (R, C) -> Option<H>, c: C, r: nat, s: nat)
    requires r <= s < |rows| && stop(rows[s])
    ensures ScanUntil(rows, stop, f, c, r) == ScanUntil(rows[..s + 1], stop, f, c, r)
    decreases s - r
  {
    var cut := rows[..s + 1];
    assert cut[r] == rows[r];
    if r < s && !stop(rows[r]) {
      ScanUntilStops(rows, stop, f, c, r + 1, s);
    }
  }

  function Min(a: nat, b: nat): nat {
    if a <= b then a else b
  }

  /** The end of the holdings window for a sheet of `n` rows. */
  function WindowEnd(n: nat): (e: nat)
    ensures e <= n && e <= HoldingRowLimit
    ensures e == n || e == HoldingRowLimit
  {
    Min(HoldingRowLimit, n)
  }

  /** The holdings read from rows FirstHoldingRow up to (not including)
      `end`, in sheet order. */
  function HoldingsBefore(rows: seq<Row>, fmt: CellFormats, end: nat): seq<Holding>
    requires end <= |rows|
  {
    Scan(rows, HoldingRow, fmt, FirstHoldingRow, end)
  }

  /** Every holding read up to `end` is the one some row of the window
      yields, and so is consistent. */
  lemma HoldingsBeforeSound(rows: seq<Row>, fmt: CellFormats, end: nat)
    requires end <= |rows|
    ensures forall h :: h in HoldingsBefore(rows, fmt, end) ==>
      exists r :: FirstHoldingRow <= r < end && HoldingRow(rows[r], fmt) == Some(h)
    ensures forall h :: h in HoldingsBefore(rows, fmt, end) ==> Consistent(h)
  {
    forall h | h in HoldingsBefore(rows, fmt, end)
      ensures exists r :: FirstHoldingRow <= r < end && HoldingRow(rows[r], fmt) == Some(h)
    {
      ScanSound(rows, HoldingRow, fmt, FirstHoldingRow, end, h);
    }
  }

  /** All holdings the sheet yields; every one is consistent. */
  function SheetHoldings(rows: seq<Row>, fmt: CellFormats): (hs: seq<Holding>)
    ensures forall h :: h in hs ==> Consistent(h)
  {
    HoldingsBeforeSound(rows, fmt, WindowEnd(|rows|));
    HoldingsBefore(rows, fmt, WindowEnd(|rows|))
  }

  /** The row loop: `for (r = 3; r < 101 && r < sheetArr.length; r++)`,
      pushing the holding of every usable row. */
  method ExtractHoldings(rows: seq<Row>, fmt: CellFormats) returns (extracted: seq<Holding>)
    ensures extracted == SheetHoldings(rows, fmt)
  {
    ghost var end := WindowEnd(|rows|);
    extracted := [];
    var r := FirstHoldingRow;
    while r < HoldingRowLimit && r < |rows|
      invariant FirstHoldingRow <= r
      invariant r <= end || r == FirstHoldingRow
      invariant extracted == HoldingsBefore(rows, fmt, Min(r, end))
    {
      var h := HoldingRow(rows[r], fmt);
      assert Min(r, end) == r && Min(r + 1, end) == r + 1;
      assert HoldingsBefore(rows, fmt, r + 1) == HoldingsBefore(rows, fmt, r) + OptionToSeq(h);
      if h.Some? {
        extracted := extracted + [h.value];
      }
      r := r + 1;
    }
    assert Min(r, end) == end;
  }

  /** Nothing comes out of the window exactly when no row of it has both a
      date and a ticker: the case in which the import is rejected. */
  lemma HoldingsBeforeEmptyIff(rows: seq<Row>, fmt: CellFormats, end: nat)
    requires end <= |rows|
    ensures HoldingsBefore(rows, fmt, end) == [] <==>
            forall r :: FirstHoldingRow <= r < end ==> !Usable(rows[r])
  {
    ScanEmptyIff(rows, HoldingRow, fmt, FirstHoldingRow, end);
    forall r | FirstHoldingRow <= r < end ensures HoldingRow(rows[r], fmt).None? <==> !Usable(rows[r]) {
    }
  }

  /** Every usable row of the window is imported. */
  lemma SheetHoldingsComplete(rows: seq<Row>, fmt: CellFormats, r: nat)
    requires FirstHoldingRow <= r < WindowEnd(|rows|) && Usable(rows[r])
    ensures HoldingRow(rows[r], fmt).Some? && HoldingRow(rows[r], fmt).value in SheetHoldings(rows, fmt)
  {
    ScanComplete(rows, HoldingRow, fmt, FirstHoldingRow, WindowEnd(|rows|), r);
  }

  /** The holdings come out in sheet order. */
  lemma SheetHoldingsInSheetOrder(rows: seq<Row>, fmt: CellFormats, r1: nat, r2: nat)
    requires FirstHoldingRow <= r1 < r2 < WindowEnd(|rows|) && Usable(rows[r1]) && Usable(rows[r2])
    ensures HoldingRow(rows[r1], fmt).Some? && HoldingRow(rows[r2], fmt).Some?
    ensures exists i, j ::
              && 0 <= i < j < |SheetHoldings(rows, fmt)|
              && SheetHoldings(rows, fmt)[i] == HoldingRow(rows[r1], fmt).value
              && SheetHoldings(rows, fmt)[j] == HoldingRow(rows[r2], fmt).value
  {
    ScanKeepsOrder(rows, HoldingRow, fmt, FirstHoldingRow, WindowEnd(|rows|), r1, r2);
    assert SheetHoldings(rows, fmt) == Scan(rows, HoldingRow, fmt, FirstHoldingRow, WindowEnd(|rows|));
  }

  /** A sheet keeps yielding the same holdings when rows are added at the
      bottom of a sheet that already reaches row 100. */
  lemma SheetHoldingsIgnoreRowsAfterWindow(rows: seq<Row>, more: seq<Row>, fmt: CellFormats)
    requires |rows| >= HoldingRowLimit
    ensures SheetHoldings(rows + more, fmt) == SheetHoldings(rows, fmt)
  {
    ScanIgnoresLaterRows(rows + more, HoldingRow, fmt, FirstHoldingRow, HoldingRowLimit, |rows|);
    assert (rows + more)[..|rows|] == rows;
  }

  /** Whether a row opens the purchases block: its column B is text that
      trims and lower-cases to `cant.`. */
  predicate IsPurchasesHeader(row: Row) {
    row.Cells? && At(row, AmountCol).Text? && Text.Normalize(At(row, AmountCol).s) == PurchasesHeader
  }

  /** The first header row, if any. */
  function HeaderRow(rows: seq<Row>): (k: Option<nat>)
    ensures k.Some? ==> k.value < |rows|
  {
    Find(rows, IsPurchasesHeader, 0)
  }

  /** No header row is found exactly when the sheet has none, and a found
      one is the first. */
  lemma HeaderRowIsFirst(rows: seq<Row>)
    ensures HeaderRow(rows).None? <==> forall j :: 0 <= j < |rows| ==> !IsPurchasesHeader(rows[j])
    ensures HeaderRow(rows).Some? ==>
      && IsPurchasesHeader(rows[HeaderRow(rows).value])
      && forall j :: 0 <= j < HeaderRow(rows).value ==> !IsPurchasesHeader(rows[j])
  {
    FindIsFirst(rows, IsPurchasesHeader, 0);
  }

  /** The scan for `startRow`: the first header row, -1 when there is none. */
  method FindHeaderRow(rows: seq<Row>) returns (startRow: int)
    ensures startRow == -1 <==> HeaderRow(rows).None?
    ensures startRow != -1 ==> startRow == HeaderRow(rows).value
  {
    startRow := -1;
    var r := 0;
    while r < |rows|
      invariant 0 <= r <= |rows|
      invariant HeaderRow(rows) == Find(rows, IsPurchasesHeader, r)
    {
      if IsPurchasesHeader(rows[r]) {
        startRow := r;
        break;
      }
      r := r + 1;
    }
  }

  /** `v == null || v === ''`: a cell that ends the purchases block. */
  predicate IsEmptyCell(c: Cell) {
    c.Blank? || c == Text("")
  }

  /** Whether a row ends the purchases block: a missing row, or an empty
      amount, date or rate. */
  predicate EndsPurchases(row: Row) {
    row.Missing? || IsEmptyCell(At(row, AmountCol)) || IsEmptyCell(At(row, PurchaseDateCol))
      || IsEmptyCell(At(row, RateCol))
  }

  /** The purchase a row of the block describes, kept only when both the
      amount and the rate are positive; a row that ends the block describes
      none. */
  function PurchaseRow(row: Row, fmt: CellFormats): (p: Option<UsdPurchase>)
    ensures p.Some? <==> !EndsPurchases(row) && CellNumber(At(row, AmountCol)) > 0.0 && CellNumber(At(row, RateCol)) > 0.0
    ensures p.Some? ==> p.value == UsdPurchase(DateText(At(row, PurchaseDateCol), fmt),
                                               CellNumber(At(row, AmountCol)), CellNumber(At(row, RateCol)))
  {
    if EndsPurchases(row) then None
    else
      var cantidad := CellNumber(At(row, AmountCol));
      var tc := CellNumber(At(row, RateCol));
      if cantidad > 0.0 && tc > 0.0 then Some(UsdPurchase(DateText(At(row, PurchaseDateCol), fmt), cantidad, tc))
      else None
  }

  /** The purchases read from row `r` on, up to the first row that ends the
      block. */
  function PurchasesFrom(rows: seq<Row>, fmt: CellFormats, r: nat): seq<UsdPurchase>
    requires r <= |rows|
  {
    ScanUntil(rows, EndsPurchases, PurchaseRow, fmt, r)
  }

  /** Every purchase read from `r` on is the one some row of the block
      describes, and so has a positive amount and rate. */
  lemma PurchasesFromSound(rows: seq<Row>, fmt: CellFormats, r: nat)
    requires r <= |rows|
    ensures forall p :: p in PurchasesFrom(rows, fmt, r) ==>
      exists k :: r <= k < |rows| && !EndsPurchases(rows[k]) && PurchaseRow(rows[k], fmt) == Some(p)
    ensures forall p :: p in PurchasesFrom(rows, fmt, r) ==> p.cantidad > 0.0 && p.tc > 0.0
  {
    forall p | p in PurchasesFrom(rows, fmt, r)
      ensures exists k :: r <= k < |rows| && !EndsPurchases(rows[k]) && PurchaseRow(rows[k], fmt) == Some(p)
    {
      ScanUntilSound(rows, EndsPurchases, PurchaseRow, fmt, r, p);
    }
  }

  /** Rows after the row that ends the block are never read. */
  lemma PurchasesStopAtEnd(rows: seq<Row>, fmt: CellFormats, r: nat, stop: nat)
    requires r <= stop < |rows| && EndsPurchases(rows[stop])
    ensures PurchasesFrom(rows, fmt, r) == PurchasesFrom(rows[..stop + 1], fmt, r)
  {
    ScanUntilStops(rows, EndsPurchases, PurchaseRow, fmt, r, stop);
  }

  /** All purchases the sheet yields: the block under the first header row,
      nothing when there is no header. */
  function SheetPurchases(rows: seq<Row>, fmt: CellFormats): (ps: seq<UsdPurchase>)
    ensures HeaderRow(rows).None? ==> ps == []
    ensures forall p :: p in ps ==> p.cantidad > 0.0 && p.tc > 0.0
  {
    match HeaderRow(rows)
    case None => []
    case Some(h) =>
      PurchasesFromSound(rows, fmt, h + 1);
      PurchasesFrom(rows, fmt, h + 1)
  }

  /** Every row of the block with a positive amount and rate, before the
      row that ends the block, is imported. */
  lemma SheetPurchasesComplete(rows: seq<Row>, fmt: CellFormats, k: nat)
    requires HeaderRow(rows).Some? && HeaderRow(rows).value < k < |rows|
    requires forall j :: HeaderRow(rows).value < j < k ==> !EndsPurchases(rows[j])
    requires !EndsPurchases(rows[k]) && CellNumber(At(rows[k], AmountCol)) > 0.0 && CellNumber(At(rows[k], RateCol)) > 0.0
    ensures PurchaseRow(rows[k], fmt).Some? && PurchaseRow(rows[k], fmt).value in SheetPurchases(rows, fmt)
  {
    ScanUntilComplete(rows, EndsPurchases, PurchaseRow, fmt, HeaderRow(rows).value + 1, k);
  }

  /** The purchases come out in sheet order. */
  lemma SheetPurchasesInSheetOrder(rows: seq<Row>, fmt: CellFormats, k1: nat, k2: nat)
    requires HeaderRow(rows).Some? && HeaderRow(rows).value < k1 < k2 < |rows|
    requires forall j :: HeaderRow(rows).value < j <= k2 ==> !EndsPurchases(rows[j])
    requires PurchaseRow(rows[k1], fmt).Some? && PurchaseRow(rows[k2], fmt).Some?
    ensures exists i, j ::
              && 0 <= i < j < |SheetPurchases(rows, fmt)|
              && SheetPurchases(rows, fmt)[i] == PurchaseRow(rows[k1], fmt).value
              && SheetPurchases(rows, fmt)[j] == PurchaseRow(rows[k2], fmt).value
  {
    ScanUntilKeepsOrder(rows, EndsPurchases, PurchaseRow, fmt, HeaderRow(rows).value + 1, k1, k2);
    assert SheetPurchases(rows, fmt) == ScanUntil(rows, EndsPurchases, PurchaseRow, fmt, HeaderRow(rows).value + 1);
  }

  lemma PushOption<T>(acc: seq<T>, o: Option<T>, rest: seq<T>)
    ensures acc + (OptionToSeq(o) + rest) == (if o.Some? then acc + [o.value] else acc) + rest
  {
    if o.None? {
      assert [] + rest == rest;
    }
  }

  /** The purchases loop: from row `start` on, stopping at the first row
      that ends the block. */
  method CollectPurchases(rows: seq<Row>, fmt: CellFormats, start: nat) returns (purchases: seq<UsdPurchase>)
    requires start <= |rows|
    ensures purchases == PurchasesFrom(rows, fmt, start)
  {
    purchases := [];
    var r := start;
    while r < |rows|
      invariant start <= r <= |rows|
      invariant purchases + PurchasesFrom(rows, fmt, r) == PurchasesFrom(rows, fmt, start)
    {
      var row := rows[r];
      if EndsPurchases(row) {
        break;
      }
      var p := PurchaseRow(row, fmt);
      PushOption(purchases, p, PurchasesFrom(rows, fmt, r + 1));
      if p.Some? {
        purchases := purchases + [p.value];
      }
      r := r + 1;
    }
    PushOption(purchases, None, []);
  }

  /** The purchases of the sheet: the header scan, then the block under the
      header when there is one. */
  method ExtractPurchases(rows: seq<Row>, fmt: CellFormats) returns (purchases: seq<UsdPurchase>)
    ensures purchases == SheetPurchases(rows, fmt)
  {
    var startRow := FindHeaderRow(rows);
    purchases := [];
    if startRow != -1 {
      purchases := CollectPurchases(rows, fmt, startRow + 1);
    }
  }

  /** What an import produces: a rejection (no sheet, or no holding in the
      window), or the new holdings together with the new purchases list,
      which is None when the sheet has none and the old list stays. */
  datatype ImportOutcome =
    | Rejected
    | Imported(holdings: seq<Holding>, purchases: Option<seq<UsdPurchase>>)

  /** The sheet names of a workbook, in order (`workbook.SheetNames`). */
  function SheetNames(book: seq<Sheet>): (names: seq<string>)
    ensures |names| == |book| && forall i :: 0 <= i < |book| ==> names[i] == book[i].name
  {
    seq(|book|, i requires 0 <= i < |book| => book[i].name)
  }

  /** The purchases list an import installs: the sheet's purchases when
      there are any, otherwise None and the old list stays. */
  function PurchasesUpdate(ps: seq<UsdPurchase>): (u: Option<seq<UsdPurchase>>)
    ensures u.None? <==> ps == []
    ensures u.Some? ==> u.value == ps
  {
    if ps != [] then Some(ps) else None
  }

  /** The import of the chosen sheet: rejected when its window holds no
      holding; otherwise the holdings, and the purchases when there are any. */
  function ImportRows(rows: seq<Row>, fmt: CellFormats): (o: ImportOutcome)
    ensures o.Rejected? <==> SheetHoldings(rows, fmt) == []
    ensures o.Imported? ==> o.holdings != [] && forall h :: h in o.holdings ==> Consistent(h)
    ensures o.Imported? && o.purchases.Some? ==> o.purchases.value != []
    ensures o.Imported? ==> o.holdings == SheetHoldings(rows, fmt) && o.purchases == PurchasesUpdate(SheetPurchases(rows, fmt))
  {
    var holdings := SheetHoldings(rows, fmt);
    if holdings == [] then Rejected
    else
      Imported(holdings, PurchasesUpdate(SheetPurchases(rows, fmt)))
  }

  /** The whole import of a workbook. */
  function ImportWorkbook(book: seq<Sheet>, fmt: CellFormats): (o: ImportOutcome)
    ensures |book| == 0 ==> o.Rejected?
    ensures |book| > 0 ==>
      var rows := book[SheetChoice(SheetNames(book)).value].rows;
      && (o.Rejected? <==> SheetHoldings(rows, fmt) == [])
      && (o.Imported? ==> o.holdings == SheetHoldings(rows, fmt) && o.purchases == PurchasesUpdate(SheetPurchases(rows, fmt)))
    ensures o.Imported? ==> o.holdings != [] && forall h :: h in o.holdings ==> Consistent(h)
    ensures o.Imported? && o.purchases.Some? ==> o.purchases.value != []
  {
    match SheetChoice(SheetNames(book))
    case None => Rejected
    case Some(k) => ImportRows(book[k].rows, fmt)
  }

  /** The holdings loop, then, when it found something, the purchases
      scan. */
  method ReadSheet(rows: seq<Row>, fmt: CellFormats) returns (o: ImportOutcome)
    ensures o == ImportRows(rows, fmt)
  {
    var holdings := ExtractHoldings(rows, fmt);
    if |holdings| == 0 {
      return Rejected;
    }
    var purchases := ExtractPurchases(rows, fmt);
    o := Imported(holdings, PurchasesUpdate(purchases));
  }

  /** The `reader.onload` handler up to the point where it installs what
      it read: choose the sheet and read it. */
  method ReadWorkbook(book: seq<Sheet>, fmt: CellFormats) returns (o: ImportOutcome)
    ensures o == ImportWorkbook(book, fmt)
  {
    var choice := SheetChoice(SheetNames(book));
    if choice.None? {
      return Rejected;
    }
    o := ReadSheet(book[choice.value].rows, fmt);
  }
}
