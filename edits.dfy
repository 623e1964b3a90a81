/** The list edits the dashboard applies to its holdings and dollar
    purchases, as values: append, replace at a position, and
    `Array.prototype.splice(idx, 1)`; and the records the two edit forms
    build. */
module Edits {
  import opened Wrappers
  import opened Records
  import Text
  import NumberScan
  import Summary
  import Charts

  /** Add (`edit` None) appends `x`; edit (`edit` Some(k)) replaces the
      element at `k`. */
  function Saved<T>(s: seq<T>, x: T, edit: Option<nat>): (r: seq<T>)
    requires edit.Some? ==> edit.value < |s|
    ensures edit.None? ==> |r| == |s| + 1 && r[..|s|] == s && r[|s|] == x
    ensures edit.Some? ==> |r| == |s| && r[edit.value] == x
    ensures edit.Some? ==> forall i :: 0 <= i < |s| && i != edit.value ==> r[i] == s[i]
  {
    if edit.Some? then s[edit.value := x] else s + [x]
  }

  /** Saving a consistent record into a list of consistent records leaves
      every record consistent. */
  lemma SavedKeepsConsistent(s: seq<Holding>, x: Holding, edit: Option<nat>)
    requires edit.Some? ==> edit.value < |s|
    requires forall i :: 0 <= i < |s| ==> Consistent(s[i])
    requires Consistent(x)
    ensures forall i :: 0 <= i < |Saved(s, x, edit)| ==> Consistent(Saved(s, x, edit)[i])
  {
    var r := Saved(s, x, edit);
    forall i | 0 <= i < |r| ensures Consistent(r[i]) {
      if edit.None? && i < |s| {
        assert r[i] == r[..|s|][i];
      }
    }
  }

  /** Where `splice(idx, 1)` starts: a negative position counts from the
      end (and stops at the front), a position past the end is the end. */
  function SpliceStart(len: nat, idx: int): (k: nat)
    ensures k <= len
    ensures 0 <= idx <= len ==> k == idx
    ensures idx < 0 && len + idx >= 0 ==> k == len + idx
    ensures len + idx < 0 ==> k == 0
    ensures idx > len ==> k == len
  {
    if idx < 0 then (if len + idx < 0 then 0 else len + idx)
    else if idx > len then len else idx
  }

  /** `splice(idx, 1)`: the element at the start position is removed, when
      there is one. */
  function Splice1<T>(s: seq<T>, idx: int): (r: seq<T>)
    ensures var k := SpliceStart(|s|, idx);
      && (k < |s| ==> |r| == |s| - 1 && r[..k] == s[..k] && r[k..] == s[k + 1..])
      && (k == |s| ==> r == s)
  {
    var k := SpliceStart(|s|, idx);
    if k < |s| then s[..k] + s[k + 1..] else s
  }

  lemma SpliceInRange<T>(s: seq<T>, idx: nat)
    requires idx < |s|
    ensures Splice1(s, idx) == s[..idx] + s[idx + 1..]
  {
    var r := Splice1(s, idx);
    assert SpliceStart(|s|, idx) == idx;
    assert r == r[..idx] + r[idx..];
  }

  lemma MultisetRemoveAt<T>(s: seq<T>, idx: nat)
    requires idx < |s|
    ensures multiset(s[..idx] + s[idx + 1..]) + multiset{s[idx]} == multiset(s)
  {
    assert s == s[..idx] + [s[idx]] + s[idx + 1..];
  }

  /** Deleting a listed row removes exactly that element and keeps the
      others in order, and takes its amount out of the total invested. */
  lemma DeleteRemovesExactlyOne(s: seq<Holding>, idx: nat)
    requires idx < |s|
    ensures Splice1(s, idx) == s[..idx] + s[idx + 1..]
    ensures multiset(Splice1(s, idx)) + multiset{s[idx]} == multiset(s)
    ensures Summary.Total(Splice1(s, idx), Summary.UsdOf) == Summary.Total(s, Summary.UsdOf) - s[idx].usd
  {
    SpliceInRange(s, idx);
    MultisetRemoveAt(s, idx);
    Summary.TotalRemoveAt(s, idx, Summary.UsdOf);
  }

  /** A position past the end deletes nothing; -1 deletes the last row. */
  lemma DeleteOutOfRange<T>(s: seq<T>, idx: int)
    requires idx >= |s| || (idx == -1 && |s| > 0)
    ensures idx >= |s| ==> Splice1(s, idx) == s
    ensures idx == -1 && |s| > 0 ==> Splice1(s, idx) == s[..|s| - 1]
  {
  }

  /** Adding a record and then deleting the last row gives the list back. */
  lemma AddThenDeleteRestores<T>(s: seq<T>, x: T)
    ensures Splice1(Saved(s, x, None), |s|) == s
  {
    assert (s + [x])[..|s|] == s;
  }

  /** Adding a holding adds its amount to the total invested; editing one
      swaps the old amount for the new. */
  lemma SaveShiftsInvested(s: seq<Holding>, x: Holding, edit: Option<nat>)
    requires edit.Some? ==> edit.value < |s|
    ensures edit.None? ==> Summary.Total(Saved(s, x, edit), Summary.UsdOf) == Summary.Total(s, Summary.UsdOf) + x.usd
    ensures edit.Some? ==>
      Summary.Total(Saved(s, x, edit), Summary.UsdOf) == Summary.Total(s, Summary.UsdOf) - s[edit.value].usd + x.usd
  {
    if edit.Some? {
      Summary.TotalReplaceAt(s, edit.value, x, Summary.UsdOf);
    } else {
      assert (s + [x])[..|s|] == s;
    }
  }

  /** `parseFloat(input.value) || 0`: an input that does not read as a
      number counts as 0. */
  function FormNumber(input: string): (r: real)
    ensures NumberScan.ParseFloat(input).None? ==> r == 0.0
    ensures NumberScan.ParseFloat(input).Some? ==> r == NumberScan.ParseFloat(input).value
  {
    NumberScan.ParseFloat(input).GetOr(0.0)
  }

  /** The transaction form as submitted: the text of each input and the
      selected type (`compra` or `venta`). */
  datatype TransactionForm = TransactionForm(
    fecha: string, indice: string, usd: string, shares: string,
    precioCompra: string, precioActual: string, tipo: string)

  /** A sale stores both amounts as negative whatever sign was typed. */
  function Signed(tipo: string, x: real): (r: real)
    ensures tipo == "venta" ==> r == -Charts.Abs(x) && (x != 0.0 ==> r < 0.0)
    ensures tipo != "venta" ==> r == x
  {
    if tipo == "venta" then -Charts.Abs(x) else x
  }

  /** Whether the form may be saved: a date, a ticker that is not blank
      after trimming, and non-zero amount, share count and purchase price. */
  predicate FormComplete(f: TransactionForm) {
    f.fecha != "" && Text.Trim(f.indice) != "" && FormNumber(f.usd) != 0.0
    && FormNumber(f.shares) != 0.0 && FormNumber(f.precioCompra) != 0.0
  }

  /** The record the transaction form saves, or None when a required field
      is missing (the form then shows its warning and nothing changes). */
  function BuildRecord(f: TransactionForm): (r: Option<Holding>)
    ensures r.Some? <==> FormComplete(f)
    ensures r.Some? ==> Consistent(r.value) && r.value.fecha == f.fecha
    ensures r.Some? ==> r.value.indice == Text.Trim(f.indice) && r.value.precioCompra == FormNumber(f.precioCompra)
    ensures r.Some? && f.tipo == "venta" ==> r.value.usd < 0.0 && r.value.shares < 0.0
    ensures r.Some? ==> Charts.Abs(r.value.usd) == Charts.Abs(FormNumber(f.usd))
    ensures r.Some? ==> Charts.Abs(r.value.shares) == Charts.Abs(FormNumber(f.shares))
    ensures r.Some? && f.tipo != "venta" ==> r.value.usd == FormNumber(f.usd) && r.value.shares == FormNumber(f.shares)
    ensures r.Some? ==> r.value.precioActual == FallbackPrice(FormNumber(f.precioActual), FormNumber(f.precioCompra))
  {
    if !FormComplete(f) then None
    else
      Some(Derive(BaseHolding(f.fecha, Text.Trim(f.indice),
        Signed(f.tipo, FormNumber(f.usd)), Signed(f.tipo, FormNumber(f.shares)),
        FormNumber(f.precioCompra), FormNumber(f.precioActual))))
  }

  /** The dollar-purchase form as submitted. */
  datatype UsdForm = UsdForm(fecha: string, cantidad: string, tc: string)

  /** The purchase the dollar form saves, or None when the date is empty or
      the amount or rate is zero or unreadable. */
  function BuildPurchase(f: UsdForm): (r: Option<UsdPurchase>)
    ensures r.Some? <==> f.fecha != "" && FormNumber(f.cantidad) != 0.0 && FormNumber(f.tc) != 0.0
    ensures r.Some? ==> r.value == UsdPurchase(f.fecha, FormNumber(f.cantidad), FormNumber(f.tc))
  {
    if f.fecha == "" || FormNumber(f.cantidad) == 0.0 || FormNumber(f.tc) == 0.0 then None
    else Some(UsdPurchase(f.fecha, FormNumber(f.cantidad), FormNumber(f.tc)))
  }
}
