# Portfolio tracker: a verified model of its record logic

The repository is a personal investment dashboard. It has two parts:

- a browser script (`script.js`) that keeps a list of share purchases and
  sales ("holdings") and a list of dollar purchases, persists both in
  browser storage, derives each holding's value and return, summarises and
  charts them, raises alerts, imports a spreadsheet, and refreshes prices
  from a quote provider;
- a small Flask app (`app.py`) whose `load_transactions` reads the same kind
  of spreadsheet with pandas, and whose index page shows a summary.

This Dafny project models the logic of both. It leaves out the browser, the
network and the file libraries.

**The derivation rule is defined once.** The script writes out the same
formula four times: loading the defaults, importing a sheet, saving the edit
form, and refreshing prices. Here it is one function, `Records.Priced`, and
`Records.Consistent` states what it guarantees:

- value = price × shares;
- percentage return × (purchase price, or 1 when that is 0) = (price − purchase price) × 100;
- CLP return × 100 = USD amount × percentage × 950.

The places that build records call it in two ways:

- `Records.Derive` uses the `||` fallback: a zero current price falls back to the purchase price.
- `Records.Reprice` is the refresh merge. It uses `??`, so a fetched price of 0 is kept as it is.

**What the rest of the model covers:**

- `Summary`: the summary cards.
- `Tickers`: the distinct tickers in order of first appearance.
- `Charts`: the distribution chart's grouping and the alerts.
- `Quote`: the three quote-response formats, including the text fallback scanner in `NumberScan`.
- `Refresh`: the refresh pass.
- `Workbook` and `SheetImport`: the spreadsheet import.
- `Edits`: the save and delete edits.
- `Portfolio.Dashboard`: a class holding the two lists and their two storage entries.
- `Loader`: the pandas loader and the index summary.

Each method with a loop is proved equal to a specification function. The
properties that matter are stated about those functions, for example:

- the merge keeps every lot's base fields and the total invested;
- a rejected import changes nothing;
- the later alias wins in the loader;
- the loader agrees with the script's derivation when neither price is zero, and differs in stated ways when one is.

Two behaviours of the code that are easy to misread:

- An edit index past the end of the list would grow the array
  (`transactions[editIdx] = record`). The edit form only ever holds the
  index of a listed row, so the save methods require the index to be in
  range.
- The refresh merge uses `??`: a fetched price replaces the current price,
  even when it is 0. It does not fall back to the purchase price.

## Model

| member | source | states |
|---|---|---|
| `Text.Trim` | script.js:736 | the trimmed text has no white space at either end and is no longer than the input |
| `Text.TrimDropsOnlyOuterSpace` | script.js:736 | the trimmed text is the slice of the input left after dropping white space, and only white space, at its two ends |
| `Text.TrimEmptyIffAllSpace` | script.js:736-745 | a ticker trims to nothing exactly when it is all white space, which is when the save is refused |
| `Text.TrimIdempotent` | app.py:48 | trimming a trimmed name changes nothing |
| `Text.ToLower` | app.py:48 | every ASCII upper-case letter becomes lower-case and nothing else changes |
| `Text.DatePart` | script.js:597 | `split('T')[0]` is the prefix of the text before its first 'T', or all of it when there is none |
| `NumberScan.TokenEndIsLongestMatch` | script.js:179 | the greedy end of `[0-9]+\.?[0-9]*` at a digit is a match, and no longer text from that digit is one |
| `NumberScan.MatchNumber` | script.js:179 | the regex finds nothing exactly when the text has no digit; otherwise its match is the leftmost, longest one |
| `NumberScan.TokenValue` | script.js:180 | a matched number is non-negative and its integer part is the value of its leading digits |
| `NumberScan.ParseFloat` | script.js:180 | after leading white space, a leading digit always gives a non-negative number, a '-' never gives a positive one, and any number read came from a digit in the text |
| `NumberScan.ParseFloatOfToken` | script.js:179-180 | `parseFloat` of a whole match is the match's value |
| `NumberScan.FirstNumberIn` | script.js:177-181 | the text fallback is null exactly when the text has no digit, and otherwise the non-negative value of the leftmost, longest number |
| `Records.Divisor` | script.js:68 | the return divisor `precio_compra \|\| 1` is never zero and is the purchase price when that is not zero |
| `Records.Priced` | script.js:219-228 | the record built from base fields and a price is consistent and keeps the base fields and the price |
| `Records.Derive` | script.js:65-81 | a derived record is consistent, keeps date, ticker, amount, shares and purchase price, and has the purchase price as its current price exactly when the given one is 0 |
| `Records.Reprice` | script.js:216-229 | the merge gives a consistent record of the same lot, at the fetched price when there is one and at its old price otherwise |
| `Records.ConsistentIsDetermined` | script.js:65-69 | two consistent records with the same base fields are equal |
| `Records.RepriceKeepsConsistent` | script.js:216-229 | re-deriving a consistent record with no new price gives it back |
| `Records.DeriveIdempotent` | script.js:65-69 | deriving a derived record again changes nothing |
| `Records.RepriceAgreesWithDerive` | script.js:216-221 | merge and derivation agree whenever the price in play is not zero |
| `Records.RepriceKeepsFetchedZero` | script.js:217 | a fetched 0 is stored as 0 with a -100% return, where the derivation would have fallen back to the purchase price |
| `Records.ZeroPurchasePriceReturn` | script.js:68 | a zero purchase price divides by 1, so the return is the current price times 100 |
| `Records.DeriveExample` | script.js:65-69 | 1000 USD for 10 shares bought at 100 and now at 120 is worth 1200 and returns 20% and 190000 CLP |
| `Records.DeriveAll` | script.js:64-82 | the default dataset is derived record by record, and every result is consistent |
| `Summary.TotalAppend` | script.js:264-268 | a running total over two lists joined is the sum of their totals |
| `Summary.BlendedPct` | script.js:269 | the blended return is 0 when nothing is invested, and otherwise times the amount invested equals (value − invested) × 100 |
| `Summary.ComputeSummary` | script.js:260-274 | the loop computes the totals of amount, value and CLP return, and the blended return of the first two |
| `Summary.AverageRate` | script.js:283 | the average rate is 0 when no dollars were bought, and otherwise times the dollars bought equals the pesos paid |
| `Summary.ComputeUsdSummary` | script.js:276-287 | the loop computes the dollars bought, the pesos paid and their average rate |
| `Summary.AverageRateWithinBounds` | script.js:279-283 | when every purchase is positive and its rate lies in [lo, hi], so does the average rate |
| `Tickers.Distinct` | script.js:202 | the distinct elements are the same members, without repeats, and no more of them |
| `Tickers.DistinctKeepsFirstAppearanceOrder` | script.js:202 | distinct elements are listed in order of first appearance |
| `Tickers.DistinctTickers` | script.js:202 | the refreshed tickers are exactly the holdings' tickers, each once |
| `Charts.NonZeroKeysMembers` | script.js:416-422 | a ticker is a chart label exactly when it is a grouped key whose total is not zero |
| `Charts.GroupByTicker` | script.js:406-415 | the grouping has one key per distinct ticker, in order of first appearance, holding the sum of that ticker's values |
| `Charts.AddRecord` | script.js:409-413 | adding one record keeps the grouping exact: its ticker is a key, added at the end when new, and its total grows by the record's value |
| `Charts.Slices` | script.js:414-422 | the slices are the grouped keys whose total is not zero, in key order, each sized by the absolute value of its total |
| `Charts.InvestmentDistribution` | script.js:406-422 | labels are the tickers with a non-zero total, and each value is the absolute value of that total |
| `Charts.DistributionConservesValue` | script.js:408-415 | the grouped totals add up to the total value of the portfolio |
| `Charts.AlertFor` | script.js:505-510 | above 20% is a take-profit alert, below -10% a review alert, and anything in between none |
| `Charts.AlertsOf` | script.js:503-517 | the list is no longer than the holdings and holds no placeholder, and it is empty exactly when every return lies in [-10, 20] |
| `Charts.AlertsOfMembers` | script.js:503-517 | an alert is listed exactly when some holding raises it |
| `Charts.AlertsOfKeepsOrder` | script.js:503-517 | the alerts of two holdings appear in the holdings' order |
| `Charts.GenerateAlerts` | script.js:499-523 | the alert list is never empty: the placeholder alone when no holding triggers, and otherwise the holdings' alerts in order |
| `Quote.PacingMs` | script.js:210-214 | the pause after a request is 12000 ms for the single-symbol Alpha Vantage endpoint and 1000 ms otherwise |
| `Quote.IfTruthy` | script.js:135-136 | a single-symbol provider reads a price only from a truthy field |
| `Quote.IfDefined` | script.js:169-170 | the MCP provider reads a price from any field that is present |
| `Quote.McpContent` | script.js:166 | the content item is present exactly when `result.content` is a non-empty array |
| `Quote.McpPrice` | script.js:166-181 | for any response: no truthy content item gives null; `json` content reads the ticker's price from the payload; `text` content reads it from the parsed text, or takes the first number in text that does not parse; any other content gives null |
| `Quote.FetchLatestPrice` | script.js:129-188 | a failed request or unknown provider gives null; Alpha Vantage reads a truthy `05. price`, Finnhub a truthy `c`, and the MCP provider gives the MCP price |
| `Quote.ZeroPriceByProvider` | script.js:129-171 | a numeric price of 0 is no price for the single-symbol providers but a price for the MCP provider |
| `Quote.McpTextFallback` | script.js:166-181 | for any response whose first content item is text that is not JSON, the price is the leftmost, longest number in the text, and null exactly when it has no digit |
| `Refresh.FetchedPrices` | script.js:203-208 | the price map holds exactly the tickers whose fetch returned a price, with that price |
| `Refresh.CollectPrices` | script.js:202-215 | the loop builds that price map and pauses once per ticker for the provider's interval |
| `Refresh.MergePrices` | script.js:216-229 | the merge keeps the length and every lot's base fields, and takes the fetched price where there is one and keeps the old one otherwise |
| `Refresh.RefreshedHoldings` | script.js:202-229 | after a pass each holding is consistent, of the same lot, at its ticker's fetched price or its old price |
| `Refresh.MergeKeepsInvested` | script.js:216-229 | a refresh never changes the total invested |
| `Refresh.MergeWithoutPricesIsIdentity` | script.js:216-229 | when no price came back, consistent holdings are left exactly as they were |
| `Refresh.MergeIdempotent` | script.js:216-229 | merging the same prices twice is merging them once |
| `Refresh.MergeExample` | script.js:216-221 | a holding bought at 100 and fetched at 150 is worth 1500 and returns 50% and 475000 CLP |
| `Workbook.CellNumber` | script.js:588-591 | `parseFloat(cell) \|\| 0` is 0 for an empty cell, a number's own value, and parsed text or 0 |
| `Workbook.FindIsFirst` | script.js:577 | `find` gives none exactly when no element matches, and otherwise the first element that does |
| `Workbook.SheetChoice` | script.js:577-579 | a sheet is chosen exactly when the workbook has one |
| `Workbook.SheetChoiceIsFirstMatchOrFirst` | script.js:577-578 | the chosen sheet is the first named `inversiones`, or the first sheet when none is |
| `Workbook.SheetChoiceIgnoresCase` | script.js:577 | a sheet named `Inversiones` is chosen over an earlier one |
| `Workbook.SheetChoiceFallsBackToFirst` | script.js:578 | without such a sheet the first sheet is read |
| `SheetImport.DateText` | script.js:595-599 | a text date keeps what precedes the first 'T' |
| `SheetImport.HoldingRow` | script.js:584-615 | a row yields a holding exactly when it exists and its date and ticker cells are truthy; the holding is consistent, takes its date, ticker, amount, shares and purchase price from the row, and its current price falls back to the purchase price when zero |
| `SheetImport.SheetHoldings` | script.js:583-616 | every holding the sheet yields is consistent |
| `SheetImport.WindowEnd` | script.js:583 | rows are read up to row 100 or the end of the sheet, whichever comes first |
| `SheetImport.ExtractHoldings` | script.js:583-616 | the row loop yields the holdings of the rows in the window, in sheet order |
| `SheetImport.HoldingsBeforeSound` | script.js:583-616 | every imported holding is the one some row of the window yields, and so is consistent |
| `SheetImport.SheetHoldingsComplete` | script.js:583-615 | every row of the window with a truthy date and ticker is imported |
| `SheetImport.SheetHoldingsInSheetOrder` | script.js:583-615 | the holdings come out in sheet order |
| `SheetImport.HoldingsBeforeEmptyIff` | script.js:583-620 | the import finds nothing, and is rejected, exactly when no row of the window has a date and a ticker |
| `SheetImport.SheetHoldingsIgnoreRowsAfterWindow` | script.js:583 | rows added below row 100 change nothing |
| `SheetImport.HeaderRowIsFirst` | script.js:625-631 | the purchases header is the first row whose column B is text reading `cant.` after trimming and lower-casing, and there is none exactly when no row is |
| `SheetImport.FindHeaderRow` | script.js:624-631 | the header scan returns that row, or -1 when there is none |
| `SheetImport.PurchaseRow` | script.js:636-651 | a row yields a purchase exactly when it does not end the block and its amount and rate are positive, with its date, amount and rate |
| `SheetImport.SheetPurchases` | script.js:623-653 | without a header there are no purchases, and every one read is positive |
| `SheetImport.SheetPurchasesComplete` | script.js:634-651 | every row under the header with a positive amount and rate, before the row that ends the block, is imported |
| `SheetImport.SheetPurchasesInSheetOrder` | script.js:634-651 | the purchases come out in sheet order |
| `SheetImport.CollectPurchases` | script.js:634-652 | the block loop reads the purchases up to the first row that ends the block |
| `SheetImport.ExtractPurchases` | script.js:623-653 | the purchases of the sheet are the block under its header |
| `SheetImport.PurchasesStopAtEnd` | script.js:636-639 | rows after a missing row or an empty amount, date or rate cell are never read |
| `SheetImport.PurchasesFromSound` | script.js:634-652 | every purchase read is the one some row of the block describes, before the row that ends it, and so has a positive amount and rate |
| `SheetImport.PurchasesUpdate` | script.js:654-657 | the purchases list is replaced exactly when the sheet has purchases, and then by them |
| `SheetImport.ImportRows` | script.js:583-657 | a sheet is rejected exactly when its window yields no holding; an accepted one installs exactly the sheet's holdings, all consistent, and its purchases when there are any |
| `SheetImport.ReadSheet` | script.js:583-657 | the row loops compute that import of the sheet |
| `SheetImport.ReadWorkbook` | script.js:577-657 | choosing the sheet and reading it computes the import of the workbook |
| `SheetImport.ImportWorkbook` | script.js:577-657 | a workbook is rejected exactly when it has no sheet or the chosen sheet's window yields no holding; an accepted import is that sheet's holdings, all consistent, and its purchases when there are any |
| `Edits.Saved` | script.js:768-773 | adding appends the record after the old list; editing replaces the record at the index and keeps every other |
| `Edits.SpliceStart` | script.js:341 | `splice` starts at the index, counts a negative index from the end, and clamps to the list |
| `Edits.Splice1` | script.js:341 | `splice(idx, 1)` removes the element at its start position when there is one and keeps the rest in order |
| `Edits.DeleteRemovesExactlyOne` | script.js:341 | deleting a listed row removes exactly that element, keeps the others in order and takes its amount out of the total invested |
| `Edits.DeleteOutOfRange` | script.js:341 | deleting past the end changes nothing, and -1 deletes the last row |
| `Edits.AddThenDeleteRestores` | script.js:341 | adding a record and deleting the last row gives the list back |
| `Edits.SavedKeepsConsistent` | script.js:768-773 | saving a consistent record into a consistent list keeps every record consistent |
| `Edits.SaveShiftsInvested` | script.js:768-773 | adding a holding adds its amount to the total invested; editing swaps the old amount for the new |
| `Edits.FormNumber` | script.js:737-740 | an input that does not read as a number counts as 0 |
| `Edits.Signed` | script.js:748-751 | a sale stores the amount as minus its magnitude, negative when not zero; a purchase keeps it as typed |
| `Edits.BuildRecord` | script.js:734-767 | a record is built exactly when date, trimmed ticker, amount, shares and purchase price are all given; it is consistent, a sale is negative in amount and shares, and a zero current price falls back to the purchase price |
| `Edits.BuildPurchase` | script.js:783-791 | a dollar purchase is built exactly when date, amount and rate are all given, from those values |
| `Portfolio.Adopted` | script.js:52-60 | a stored entry is adopted exactly when it parses to an array |
| `Portfolio.Dashboard.constructor` | script.js:17-21 | both lists start empty, with storage as the browser has it |
| `Portfolio.Dashboard.SaveTransactions` | script.js:40-42 | the holdings entry now holds the holdings list |
| `Portfolio.Dashboard.SaveUsdPurchases` | script.js:45-47 | the purchases entry now holds the purchases list |
| `Portfolio.Dashboard.LoadTransactions` | script.js:51-83 | a stored array is adopted as is; otherwise the derived defaults are used and written back, and they are consistent |
| `Portfolio.Dashboard.LoadUsdPurchases` | script.js:86-101 | a stored array is adopted as is; otherwise the defaults are used and written back |
| `Portfolio.Dashboard.SaveTransactionFromModal` | script.js:734-775 | an incomplete form changes nothing; otherwise the record is appended or replaces the edited one, the list is written back, and consistency is kept |
| `Portfolio.Dashboard.SaveUsdFromModal` | script.js:783-798 | an incomplete form changes nothing; otherwise the purchase is appended or replaces the edited one, and the list is written back |
| `Portfolio.Dashboard.DeleteTransaction` | script.js:338-344 | after confirmation the row is spliced out and the list written back; otherwise nothing changes |
| `Portfolio.Dashboard.DeleteUsdPurchase` | script.js:383-389 | after confirmation the purchase is spliced out and the list written back; otherwise nothing changes |
| `Portfolio.Dashboard.ImportWorkbook` | script.js:572-668 | a rejected import leaves both lists and entries untouched; an accepted one installs the sheet's holdings, and its purchases when there are any, and writes back what it replaced |
| `Portfolio.Dashboard.UpdateRealTimePrices` | script.js:193-233 | the holdings become the refreshed holdings and are written back, and the pass pauses once per distinct ticker |
| `Portfolio.FirstVisitThenReload` | script.js:51-83 | on a first visit the derived defaults are stored, so the next load adopts the same list |
| `Loader.ChooseSheet` | app.py:33-42 | the sheet loop chooses the same sheet as the script: the first named `inversiones`, else the first |
| `Loader.NormalizeHeaders` | app.py:48 | each column name is trimmed and lower-cased |
| `Loader.NormalizeIdempotent` | app.py:48 | normalising a normalised name changes nothing |
| `Loader.LastIndexBefore` | app.py:78-80 | the last column with a given name, or none when there is none |
| `Loader.Resolved` | app.py:76-80 | every resolved target names an existing column |
| `Loader.ResolveAliases` | app.py:76-80 | the nested loop computes the alias resolution, each alias in order overwriting the earlier ones |
| `Loader.ResolvedIsSound` | app.py:51-80 | a target is resolved exactly when one of its aliases is a column name, and then to a column bearing one of its aliases; other columns are ignored |
| `Loader.LaterAliasWins` | app.py:51-80 | when several aliases of a target are present, the one listed last wins, with the last column of that name |
| `Loader.CantidadOverridesShares` | app.py:58-61 | with both `shares` and `cantidad` columns, the share count comes from `cantidad` |
| `Loader.ToNumeric` | app.py:86-89 | coercion keeps numbers and makes anything else missing |
| `Loader.BaseNumber` | app.py:86-89 | an absent base column reads as 0 and a present one is coerced |
| `Loader.ReturnPct` | app.py:96-101 | the computed return exists exactly when both prices exist and the purchase price is not 0, and then times the purchase price equals (current − purchase) × 100 |
| `Loader.ReturnClp` | app.py:103-109 | the computed CLP return times 100 is the amount times the return times 950 |
| `Loader.Supplied` | app.py:91-109 | a derived column is taken from the file when it is there and computed otherwise |
| `Loader.FillRow` | app.py:83-109 | value, return and CLP return are computed from the row's own numbers only when their columns are absent |
| `Loader.FillFrame` | app.py:83-110 | the output has one row per input row once any column resolved, and none otherwise |
| `Loader.LoadTransactions` | app.py:31-110 | a CSV file always loads; a spreadsheet without sheets fails; otherwise the chosen frame is normalised, resolved and filled |
| `Loader.AgreesWithDashboard` | app.py:91-109 | with no derived columns and non-zero prices, the loader computes exactly the script's derived fields |
| `Loader.FillRowDefaults` | app.py:86-109 | with no numeric columns, the value is 0 and both returns are missing |
| `Loader.DivergesOnZeroPrices` | app.py:101 | a zero purchase price gives the loader no finite return (pandas stores ±inf, or NaN for 0/0), where the script divides by 1; a zero current price gives the loader -100%, where the script falls back to no return |
| `Loader.IndexSummary` | app.py:144-147 | the index totals treat missing values as 0, and the blended return is 0 when nothing is invested |
| `Loader.IndexSummaryMatchesDashboard` | app.py:144-146 | on the same holdings the index totals equal the script's summary totals |

## Left out

- The network and timers are parameters or values. `fetch`, `resp.json()`
  and `JSON.parse` are modelled as given outcomes. The pauses of a refresh
  are returned as a list of durations. The 30-minute automatic refresh is not
  modelled, and neither is the race between two overlapping refreshes.
- Rendering is not modelled: DOM updates, DataTables, Chart.js, the colour
  palette, the date sort that feeds the dollar chart, `formatNumber`, the
  status messages and the modal open and reset helpers. The `confirm`
  dialog becomes a boolean parameter.
- Numbers are real numbers. IEEE-754 rounding, NaN and infinities are not
  modelled. A value that reads as NaN is modelled as absent: `|| 0` then
  gives 0.
- Quote.FetchLatestPrice: a price field that is present but not numeric
  gives null here. For null, a boolean, an object or a string with no
  leading number, `parseFloat` returns NaN in the source; the refresh
  records NaN as a price and the merge writes it as the current price. An
  array price is read through its string form in the source
  (`parseFloat([5])` is 5, `parseFloat(["12.3"])` is 12.3) and as null
  here.
- NumberScan.ParseFloat: reads only signs, digits and one decimal point.
  Exponents, `Infinity` and non-ASCII white space are not read.
- Text.ToLower and Text.IsSpace: ASCII only. JavaScript's `toLowerCase`
  and `trim` and Python's `lower` and `strip` also handle non-ASCII
  letters and spaces. So `PRECIO ACCIÓN` does not normalise to the
  `precio acción` alias here. Python's `strip` also removes the ASCII
  separators `\x1c`–`\x1f`, which JavaScript's `trim` keeps; the model
  keeps them for both.
- Quote.First: `content?.[0]` also reads member `"0"` of an object, and the
  first character of a string; the model reads only the first element of
  an array.
- Portfolio.Adopted: a stored array is taken to hold well-formed records.
  Serialising a list and reading it back is taken to be exact. Arrays
  whose elements are not records are not modelled.
- The default dataset literals are constructor parameters.
- Charts.GroupByTicker: the keys come out in order of first appearance.
  `Object.keys` lists keys that look like array indices (such as `"123"`)
  first, in numeric order. Tickers are not expected to look like that, so
  this is not modelled.
- SheetImport.CellFormats: reading the file (`XLSX.read`,
  `sheet_to_json`) is not modelled. Cells arrive already typed.
  `XLSX.SSF.format` of a numeric date and the text of a numeric ticker cell
  are parameters. In the source a numeric ticker is stored as a number, not
  as text. Boolean cells and file read errors are not modelled.
- Portfolio.Dashboard.SaveTransactionFromModal,
  Portfolio.Dashboard.SaveUsdFromModal and Edits.Saved: require the edit
  index to lie within the list. In the source the index always comes from a
  listed row; an index past the end would grow the array.
- Portfolio.Dashboard.UpdateRealTimePrices: the pass is one step. In the
  source the tickers are read before the requests (script.js:202) and the
  merge maps the list as it stands after them (script.js:216). A save,
  delete or import made while the requests are pending is therefore kept
  and repriced, and a ticker it adds gets no fetched price. Edits made
  during a pass are not modelled.
- Portfolio.Dashboard.DeleteTransaction: the index is the row's own
  position. A `parseInt` that yields NaN is not modelled.
- Error paths that cannot arise in the model are not modelled: the
  `catch` of the refresh, the `catch` around the purchases block, and
  `reader.onerror`. The model only rejects an import that has no sheet or
  no holdings.
- Loader.LoadTransactions: the file is given as already read, either as
  sheets or as a CSV frame; the file-extension dispatch and pandas reading
  are not modelled. `pd.to_datetime` is not applied; the date cell is kept
  as read. Numeric text in a column is coerced to missing here, where
  `pd.to_numeric` would parse it (a text-formatted Excel cell, or a CSV
  column that mixes numbers and text). `str(c)` of a non-text column name is
  not modelled.
- Loader.Resolved: when two columns normalise to the same name, the model
  takes the last. In the source, headers identical as read are renamed by
  the readers (`usd`, `usd.1`), so only the first is found. Headers that
  differ only in case or surrounding space both keep the normalised name;
  `data[target]` is then a frame and `pd.to_numeric` raises. Neither case
  is modelled.
- Loader.ReturnPct: a zero purchase price gives no number here. In the
  source `mode.use_inf_as_na` only changes what counts as missing while it
  is set. When the purchase price is 0 and the current price is not, pandas
  stores ±inf (app.py:101); only 0/0 gives NaN. The CLP return is then ±inf
  (app.py:109), and `fillna(0).sum()` leaves the index total infinite
  (app.py:146). The model has no infinities and counts such a return as 0.
- Loader.FillRow: gives absent base columns the default 0 on every row.
  Suppose the date column is absent. pandas then builds the output rows from
  the first column supplied after it, and the scalar defaults assigned
  before that come out missing.
- The Flask routes, uploads, file saving and CSV write-back are not
  modelled.
