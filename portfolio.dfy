/** The dashboard's state: the active holdings and dollar-purchase lists,
    and the two browser-storage entries they are persisted under
    (`transactions` and `usdPurchases`). Every entry point that changes a
    list writes that list back to its entry. */
module Portfolio {
  import opened Wrappers
  import opened Records
  import Edits
  import Refresh
  import SheetImport
  import Tickers
  import Workbook
  import Quote

  /** What a storage entry holds, once read back: text that `JSON.parse`
      rejects (the empty text included), JSON that is not an array, or an
      array. An absent entry is None. */
  datatype Stored<T> = Unparseable | NotAnArray | ArrayOf(items: seq<T>)

  /** The list a storage entry yields on load, or None when the loader
      falls back to the defaults. */
  function Adopted<T>(entry: Option<Stored<T>>): (r: Option<seq<T>>)
    ensures r.Some? <==> entry.Some? && entry.value.ArrayOf?
    ensures r.Some? ==> r.value == entry.value.items
  {
    if entry.Some? && entry.value.ArrayOf? then Some(entry.value.items) else None
  }

  class Dashboard {
    var transactions: seq<Holding>
    var usdPurchases: seq<UsdPurchase>
    /** The storage entries of the two lists. */
    var storedTransactions: Option<Stored<Holding>>
    var storedUsdPurchases: Option<Stored<UsdPurchase>>
    /** The bundled default dataset (base fields only) and default dollar
        purchases. */
    const defaultTransactions: seq<BaseHolding>
    const defaultUsdPurchases: seq<UsdPurchase>

    /** The page before loading: both lists empty, storage as the browser
        has it. */
    constructor(defaults: seq<BaseHolding>, defaultUsd: seq<UsdPurchase>,
                txEntry: Option<Stored<Holding>>, usdEntry: Option<Stored<UsdPurchase>>)
      ensures transactions == [] && usdPurchases == []
      ensures storedTransactions == txEntry && storedUsdPurchases == usdEntry
      ensures defaultTransactions == defaults && defaultUsdPurchases == defaultUsd
    {
      transactions := [];
      usdPurchases := [];
      storedTransactions := txEntry;
      storedUsdPurchases := usdEntry;
      defaultTransactions := defaults;
      defaultUsdPurchases := defaultUsd;
    }

    /** Every holding's derived fields agree with its base fields. */
    predicate AllDerived()
      reads this
    {
      forall i :: 0 <= i < |transactions| ==> Consistent(transactions[i])
    }

    /** `saveTransactions()`. */
    method SaveTransactions()
      modifies this
      ensures storedTransactions == Some(ArrayOf(transactions))
      ensures transactions == old(transactions) && usdPurchases == old(usdPurchases)
      ensures storedUsdPurchases == old(storedUsdPurchases)
    {
      storedTransactions := Some(ArrayOf(transactions));
    }

    /** `saveUsdPurchases()`. */
    method SaveUsdPurchases()
      modifies this
      ensures storedUsdPurchases == Some(ArrayOf(usdPurchases))
      ensures transactions == old(transactions) && usdPurchases == old(usdPurchases)
      ensures storedTransactions == old(storedTransactions)
    {
      storedUsdPurchases := Some(ArrayOf(usdPurchases));
    }

    /** `loadTransactions()`: a stored array is adopted as it is; otherwise
        the default dataset is derived record by record and written back. */
    method LoadTransactions()
      modifies this
      ensures Adopted(old(storedTransactions)).Some? ==>
        transactions == Adopted(old(storedTransactions)).value && storedTransactions == old(storedTransactions)
      ensures Adopted(old(storedTransactions)).None? ==>
        transactions == DeriveAll(defaultTransactions) && storedTransactions == Some(ArrayOf(transactions))
      ensures Adopted(old(storedTransactions)).None? ==> AllDerived()
      ensures usdPurchases == old(usdPurchases) && storedUsdPurchases == old(storedUsdPurchases)
    {
      var stored := Adopted(storedTransactions);
      if stored.Some? {
        transactions := stored.value;
        return;
      }
      transactions := DeriveAll(defaultTransactions);
      SaveTransactions();
    }

    /** `loadUsdPurchases()`: a stored array is adopted; otherwise a copy of
        the defaults is used and written back. */
    method LoadUsdPurchases()
      modifies this
      ensures Adopted(old(storedUsdPurchases)).Some? ==>
        usdPurchases == Adopted(old(storedUsdPurchases)).value && storedUsdPurchases == old(storedUsdPurchases)
      ensures Adopted(old(storedUsdPurchases)).None? ==>
        usdPurchases == defaultUsdPurchases && storedUsdPurchases == Some(ArrayOf(defaultUsdPurchases))
      ensures transactions == old(transactions) && storedTransactions == old(storedTransactions)
    {
      var stored := Adopted(storedUsdPurchases);
      if stored.Some? {
        usdPurchases := stored.value;
        return;
      }
      usdPurchases := defaultUsdPurchases;
      SaveUsdPurchases();
    }

    /** `saveTransactionFromModal()`: an incomplete form changes nothing; a
        complete one appends its record, or replaces the record being
        edited, and the list is written back. */
    method SaveTransactionFromModal(form: Edits.TransactionForm, editIndex: Option<nat>)
      requires editIndex.Some? ==> editIndex.value < |transactions|
      modifies this
      ensures Edits.BuildRecord(form).None? ==>
        transactions == old(transactions) && storedTransactions == old(storedTransactions)
      ensures Edits.BuildRecord(form).Some? ==>
        transactions == Edits.Saved(old(transactions), Edits.BuildRecord(form).value, editIndex)
        && storedTransactions == Some(ArrayOf(transactions))
      ensures old(AllDerived()) ==> AllDerived()
      ensures usdPurchases == old(usdPurchases) && storedUsdPurchases == old(storedUsdPurchases)
    {
      var record := Edits.BuildRecord(form);
      if record.None? {
        return;
      }
      if AllDerived() {
        Edits.SavedKeepsConsistent(transactions, record.value, editIndex);
      }
      transactions := Edits.Saved(transactions, record.value, editIndex);
      SaveTransactions();
    }

    /** `saveUsdFromModal()`. */
    method SaveUsdFromModal(form: Edits.UsdForm, editIndex: Option<nat>)
      requires editIndex.Some? ==> editIndex.value < |usdPurchases|
      modifies this
      ensures Edits.BuildPurchase(form).None? ==>
        usdPurchases == old(usdPurchases) && storedUsdPurchases == old(storedUsdPurchases)
      ensures Edits.BuildPurchase(form).Some? ==>
        usdPurchases == Edits.Saved(old(usdPurchases), Edits.BuildPurchase(form).value, editIndex)
        && storedUsdPurchases == Some(ArrayOf(usdPurchases))
      ensures transactions == old(transactions) && storedTransactions == old(storedTransactions)
    {
      var purchase := Edits.BuildPurchase(form);
      if purchase.None? {
        return;
      }
      usdPurchases := Edits.Saved(usdPurchases, purchase.value, editIndex);
      SaveUsdPurchases();
    }

    /** The holdings table's delete button: after confirmation the row is
        spliced out and the list written back. */
    method DeleteTransaction(idx: int, confirmed: bool)
      modifies this
      ensures !confirmed ==> transactions == old(transactions) && storedTransactions == old(storedTransactions)
      ensures confirmed ==>
        transactions == Edits.Splice1(old(transactions), idx) && storedTransactions == Some(ArrayOf(transactions))
      ensures old(AllDerived()) ==> AllDerived()
      ensures usdPurchases == old(usdPurchases) && storedUsdPurchases == old(storedUsdPurchases)
    {
      if confirmed {
        transactions := Edits.Splice1(transactions, idx);
        SaveTransactions();
      }
    }

    /** The purchases table's delete button. */
    method DeleteUsdPurchase(idx: int, confirmed: bool)
      modifies this
      ensures !confirmed ==> usdPurchases == old(usdPurchases) && storedUsdPurchases == old(storedUsdPurchases)
      ensures confirmed ==>
        usdPurchases == Edits.Splice1(old(usdPurchases), idx) && storedUsdPurchases == Some(ArrayOf(usdPurchases))
      ensures transactions == old(transactions) && storedTransactions == old(storedTransactions)
    {
      if confirmed {
        usdPurchases := Edits.Splice1(usdPurchases, idx);
        SaveUsdPurchases();
      }
    }

    /** `parseFile`'s `onload`: a rejected import leaves both lists and
        their entries as they were; an accepted one replaces the holdings,
        and the purchases when the sheet has any, and writes back what it
        replaced. */
    method ImportWorkbook(book: seq<Workbook.Sheet>, fmt: SheetImport.CellFormats) returns (accepted: bool)
      modifies this
      ensures accepted <==> SheetImport.ImportWorkbook(book, fmt).Imported?
      ensures !accepted ==>
        && transactions == old(transactions) && storedTransactions == old(storedTransactions)
        && usdPurchases == old(usdPurchases) && storedUsdPurchases == old(storedUsdPurchases)
      ensures accepted ==>
        var outcome := SheetImport.ImportWorkbook(book, fmt);
        && transactions == outcome.holdings && storedTransactions == Some(ArrayOf(transactions))
        && (outcome.purchases.Some? ==>
              usdPurchases == outcome.purchases.value && storedUsdPurchases == Some(ArrayOf(usdPurchases)))
        && (outcome.purchases.None? ==>
              usdPurchases == old(usdPurchases) && storedUsdPurchases == old(storedUsdPurchases))
      ensures accepted ==> AllDerived()
    {
      var outcome := SheetImport.ReadWorkbook(book, fmt);
      if outcome.Rejected? {
        return false;
      }
      transactions := outcome.holdings;
      if outcome.purchases.Some? {
        usdPurchases := outcome.purchases.value;
        SaveUsdPurchases();
      }
      SaveTransactions();
      accepted := true;
    }

    /** `updateRealTimePrices()`: every distinct ticker is quoted once, in
        order of first appearance, pausing after each request (`waits`
        lists the pauses); then all holdings are repriced in one merge and
        written back. */
    method UpdateRealTimePrices(src: Refresh.QuoteSource) returns (waits: seq<nat>)
      modifies this
      ensures transactions == Refresh.RefreshedHoldings(src, old(transactions))
      ensures storedTransactions == Some(ArrayOf(transactions))
      ensures AllDerived()
      ensures |waits| == |Tickers.DistinctTickers(old(transactions))|
      ensures forall i :: 0 <= i < |waits| ==> waits[i] == Quote.PacingMs(src.provider)
      ensures usdPurchases == old(usdPurchases) && storedUsdPurchases == old(storedUsdPurchases)
    {
      var tickers := Tickers.DistinctTickers(transactions);
      var priceMap;
      priceMap, waits := Refresh.CollectPrices(src, tickers);
      transactions := Refresh.MergePrices(transactions, priceMap);
      SaveTransactions();
    }
  }

  /** A first visit: with nothing stored, loading derives the default
      dataset and stores it, so the next load adopts exactly that list. */
  method FirstVisitThenReload(defaults: seq<BaseHolding>, defaultUsd: seq<UsdPurchase>)
    returns (first: seq<Holding>, second: seq<Holding>)
    ensures first == DeriveAll(defaults) && second == first
  {
    var page := new Dashboard(defaults, defaultUsd, None, None);
    page.LoadTransactions();
    first := page.transactions;
    var reloaded := new Dashboard(defaults, defaultUsd, page.storedTransactions, page.storedUsdPurchases);
    reloaded.LoadTransactions();
    second := reloaded.transactions;
  }
}
