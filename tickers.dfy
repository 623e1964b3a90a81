/** The distinct tickers of a holdings list in order of first appearance
    (`[...new Set(transactions.map(t => t.indice))]`): the tickers the price
    refresh queries and the keys the distribution chart groups by. */
module Tickers {
  import opened Records

  predicate NoDuplicates(s: seq<string>) {
    forall i, j :: 0 <= i < j < |s| ==> s[i] != s[j]
  }

  /** The elements of `s` with repeats dropped, each kept where it first
      appears, as a JavaScript `Set` iterates them. */
  function Distinct(s: seq<string>): (r: seq<string>)
    ensures forall x :: x in r <==> x in s
    ensures NoDuplicates(r)
    ensures |r| <= |s|
  {
    if |s| == 0 then []
    else
      var d := Distinct(s[..|s| - 1]);
      var x := s[|s| - 1];
      assert forall y :: y in s <==> y in s[..|s| - 1] || y == x by {
        assert s == s[..|s| - 1] + [x];
      }
      if x in d then d else d + [x]
  }

  /** The position where `x` first occurs in `s`. */
  function FirstIndex(s: seq<string>, x: string): (k: nat)
    requires x in s
    ensures k < |s| && s[k] == x
    ensures forall j :: 0 <= j < k ==> s[j] != x
  {
    if s[0] == x then 0 else 1 + FirstIndex(s[1..], x)
  }

  lemma FirstIndexInPrefix(p: seq<string>, x: string, y: string)
    requires y in p
    ensures FirstIndex(p + [x], y) == FirstIndex(p, y)
  {
    var k := FirstIndex(p, y);
    var k' := FirstIndex(p + [x], y);
    assert (p + [x])[k] == y;
    assert p[k'] == y || k' == |p|;
  }

  /** Distinct keeps the order of first appearance: an element listed
      earlier first occurs earlier in `s`. */
  lemma {:induction false} DistinctKeepsFirstAppearanceOrder(s: seq<string>, i: nat, j: nat)
    requires i < j < |Distinct(s)|
    ensures FirstIndex(s, Distinct(s)[i]) < FirstIndex(s, Distinct(s)[j])
  {
    var p, x := s[..|s| - 1], s[|s| - 1];
    var d := Distinct(p);
    assert s == p + [x];
    var r := Distinct(s);
    if j < |d| {
      assert r[i] == d[i] && r[j] == d[j];
      DistinctKeepsFirstAppearanceOrder(p, i, j);
      FirstIndexInPrefix(p, x, d[i]);
      FirstIndexInPrefix(p, x, d[j]);
    } else {
      assert x !in d && r == d + [x] && r[j] == x && r[i] == d[i];
      assert x !in p;
      FirstIndexInPrefix(p, x, d[i]);
      assert FirstIndex(s, x) == |p|;
    }
  }

  /** The ticker column of a holdings list. */
  function TickersOf(txs: seq<Holding>): (ts: seq<string>)
    ensures |ts| == |txs| && forall i :: 0 <= i < |txs| ==> ts[i] == txs[i].indice
  {
    seq(|txs|, i requires 0 <= i < |txs| => txs[i].indice)
  }

  /** Every ticker of the list, each once, in order of first appearance. */
  function DistinctTickers(txs: seq<Holding>): (ts: seq<string>)
    ensures NoDuplicates(ts)
    ensures forall t :: t in ts <==> exists i :: 0 <= i < |txs| && txs[i].indice == t
  {
    var all := TickersOf(txs);
    assert forall t :: t in all <==> exists i :: 0 <= i < |txs| && txs[i].indice == t by {
      forall t | t in all ensures exists i :: 0 <= i < |txs| && txs[i].indice == t {
        var i :| 0 <= i < |all| && all[i] == t;
      }
    }
    Distinct(all)
  }
}
