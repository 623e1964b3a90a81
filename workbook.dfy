/** A spreadsheet as the import routines see it once the file has been read:
    sheet names in workbook order, and each sheet as rows of typed cells
    (`sheet_to_json(sheet, {header: 1, defval: null})`). */
module Workbook {
  import opened Wrappers
  import Text
  import NumberScan

  /** A cell: empty (`null`), a number, or text. */
  datatype Cell = Blank | Num(x: real) | Text(s: string)

  /** A row of the sheet, or a hole where the sheet has no row. */
  datatype Row = Missing | Cells(cells: seq<Cell>)

  datatype Sheet = Sheet(name: string, rows: seq<Row>)

  /** `row[i]`: a position past the end of the row reads as empty. */
  function At(row: Row, i: nat): (c: Cell)
    ensures row.Missing? || i >= |row.cells| ==> c == Blank
    ensures row.Cells? && i < |row.cells| ==> c == row.cells[i]
  {
    if row.Cells? && i < |row.cells| then row.cells[i] else Blank
  }

  /** JavaScript truthiness of a cell value. */
  predicate Truthy(c: Cell) {
    match c
    case Blank => false
    case Num(x) => x != 0.0
    case Text(s) => s != ""
  }

  /** `parseFloat(cell) || 0`: a number is itself, text is parsed, and
      anything that does not parse (or is empty) counts as 0. */
  function CellNumber(c: Cell): (r: real)
    ensures c.Blank? ==> r == 0.0
    ensures c.Num? ==> r == c.x
    ensures c.Text? ==> r == NumberScan.ParseFloat(c.s).GetOr(0.0)
  {
    match c
    case Blank => 0.0
    case Num(x) => x
    case Text(s) => NumberScan.ParseFloat(s).GetOr(0.0)
  }

  /** The name of the sheet that holds the portfolio, after trimming and
      lower-casing. */
  const PortfolioSheet: string := "inversiones"

  /** A sheet name that reads `inversiones` once trimmed and lower-cased. */
  predicate IsPortfolioSheet(name: string) {
    Text.Normalize(name) == PortfolioSheet
  }

  /** `Array.prototype.find` from position `i`: the first position at or
      after `i` whose element satisfies `p`, if any. */
  function Find<T>(s: seq<T>, p: T -> bool, i: nat): (r: Option<nat>)
    requires i <= |s|
    ensures r.Some? ==> i <= r.value < |s|
    decreases |s| - i
  {
    if i == |s| then None
    else if p(s[i]) then Some(i)
    else Find(s, p, i + 1)
  }

  /** The search finds nothing exactly when no element from `i` on
      satisfies `p`, and otherwise finds the first one that does. */
  lemma {:induction false} FindIsFirst<T>(s: seq<T>, p: T -> bool, i: nat)
    requires i <= |s|
    ensures var r := Find(s, p, i);
      && (r.None? <==> forall k :: i <= k < |s| ==> !p(s[k]))
      && (r.Some? ==> p(s[r.value]))
      && (r.Some? ==> forall k :: i <= k < r.value ==> !p(s[k]))
    decreases |s| - i
  {
    if i < |s| && !p(s[i]) {
      FindIsFirst(s, p, i + 1);
    }
  }

  /** Which sheet to read: the first whose trimmed, lower-cased name is
      `inversiones`, otherwise the first sheet; None when the workbook has
      no sheet at all. */
  function SheetChoice(names: seq<string>): (r: Option<nat>)
    ensures r.None? <==> |names| == 0
    ensures r.Some? ==> r.value < |names|
  {
    match Find(names, IsPortfolioSheet, 0)
    case Some(k) => Some(k)
    case None => if |names| > 0 then Some(0) else None
  }

  /** The choice is the first matching sheet when there is one, and the
      first sheet otherwise. */
  lemma SheetChoiceIsFirstMatchOrFirst(names: seq<string>)
    requires |names| > 0
    ensures var k := SheetChoice(names).value;
      if exists i :: 0 <= i < |names| && IsPortfolioSheet(names[i])
      then IsPortfolioSheet(names[k])
           && forall j :: 0 <= j < k ==> !IsPortfolioSheet(names[j])
      else k == 0
  {
    FindIsFirst(names, IsPortfolioSheet, 0);
  }

  /** `Inversiones` is the portfolio sheet's name up to letter case. */
  lemma NormalizeInversiones()
    ensures IsPortfolioSheet("Inversiones")
  {
    Text.TrimOfUnpadded("Inversiones");
    var r := Text.ToLower("Inversiones");
    forall i | 0 <= i < 11 ensures r[i] == PortfolioSheet[i] { }
  }


  /** A name shorter than `inversiones` cannot normalise to it. */
  lemma ShortNameIsNotPortfolioSheet(name: string)
    requires |name| < |PortfolioSheet|
    ensures !IsPortfolioSheet(name)
  {
    assert |Text.Normalize(name)| <= |name|;
  }

  /** Letter case does not matter. */
  lemma SheetChoiceIgnoresCase()
    ensures SheetChoice(["Resumen", "Inversiones"]) == Some(1)
  {
    var names := ["Resumen", "Inversiones"];
    NormalizeInversiones();
    ShortNameIsNotPortfolioSheet(names[0]);
    assert IsPortfolioSheet(names[1]);
    FindIsFirst(names, IsPortfolioSheet, 0);
  }

  /** A workbook without a portfolio sheet is read from its first sheet. */
  lemma SheetChoiceFallsBackToFirst()
    ensures SheetChoice(["Resumen", "Datos"]) == Some(0)
  {
    var names := ["Resumen", "Datos"];
    ShortNameIsNotPortfolioSheet(names[0]);
    ShortNameIsNotPortfolioSheet(names[1]);
    FindIsFirst(names, IsPortfolioSheet, 0);
  }
}
