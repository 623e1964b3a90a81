/** Reading decimal numbers out of text: the leftmost, greedy match of the
    pattern `[0-9]+\.?[0-9]*` that the quote fetcher falls back to, the value
    of the matched digits, and the part of JavaScript's `parseFloat` that the
    dashboard relies on. */
module NumberScan {
  import opened Wrappers
  import Text

  predicate IsDigit(c: char) {
    '0' <= c <= '9'
  }

  predicate AllDigits(t: string) {
    forall i :: 0 <= i < |t| ==> IsDigit(t[i])
  }

  /** The strings that `[0-9]+\.?[0-9]*` matches as a whole: a digit first,
      then only digits and at most one '.'. */
  predicate IsNumberToken(t: string) {
    && |t| > 0 && IsDigit(t[0])
    && (forall i :: 0 <= i < |t| ==> IsDigit(t[i]) || t[i] == '.')
    && (forall i, j :: 0 <= i < j < |t| && t[i] == '.' ==> t[j] != '.')
  }

  /** The end of the maximal run of digits that starts at `i`. */
  function DigitRunEnd(s: string, i: nat): (e: nat)
    requires i <= |s|
    ensures i <= e <= |s|
    ensures forall k :: i <= k < e ==> IsDigit(s[k])
    ensures e == |s| || !IsDigit(s[e])
    decreases |s| - i
  {
    if i < |s| && IsDigit(s[i]) then DigitRunEnd(s, i + 1) else i
  }

  /** The first position at or after `i` that holds a digit, or `|s|`. */
  function FirstDigitFrom(s: string, i: nat): (k: nat)
    requires i <= |s|
    ensures i <= k <= |s|
    ensures forall j :: i <= j < k ==> !IsDigit(s[j])
    ensures k == |s| || IsDigit(s[k])
    decreases |s| - i
  {
    if i == |s| || IsDigit(s[i]) then i else FirstDigitFrom(s, i + 1)
  }

  /** Where the greedy match that starts at the digit `s[i]` ends: the digit
      run, then a '.' if there is one, then the digit run after it. */
  function TokenEnd(s: string, i: nat): (e: nat)
    requires i < |s| && IsDigit(s[i])
    ensures i < e <= |s|
  {
    var j := DigitRunEnd(s, i);
    if j < |s| && s[j] == '.' then DigitRunEnd(s, j + 1) else j
  }

  /** The greedy match is a match, and no longer text starting at `i` is one. */
  lemma TokenEndIsLongestMatch(s: string, i: nat)
    requires i < |s| && IsDigit(s[i])
    ensures IsNumberToken(s[i..TokenEnd(s, i)])
    ensures forall e :: TokenEnd(s, i) < e <= |s| ==> !IsNumberToken(s[i..e])
  {
    var j := DigitRunEnd(s, i);
    var e0 := TokenEnd(s, i);
    var t0 := s[i..e0];
    forall k | 0 <= k < |t0| ensures t0[k] == s[i + k] && (IsDigit(t0[k]) || (i + k == j && t0[k] == '.')) {
    }
    forall e | e0 < e <= |s| ensures !IsNumberToken(s[i..e]) {
      var t := s[i..e];
      assert t[e0 - i] == s[e0];
      if j < |s| && s[j] == '.' {
        assert t[j - i] == '.';
        assert j - i < e0 - i;
      }
    }
  }

  /** `(a, b)` is where the leftmost, greedy match of `[0-9]+\.?[0-9]*` lies
      in `s`: a match, no match starts further left, and none starting at `a`
      is longer. */
  predicate IsLeftmostLongest(s: string, a: nat, b: nat) {
    && a < b <= |s| && IsNumberToken(s[a..b])
    && (forall a', e :: 0 <= a' < a && a' < e <= |s| ==> !IsNumberToken(s[a'..e]))
    && (forall e :: b < e <= |s| ==> !IsNumberToken(s[a..e]))
  }

  /** `text.match(/([0-9]+\.?[0-9]*)/)`: the bounds of the match, or None
      when the text has no digit. */
  function MatchNumber(s: string): (m: Option<(nat, nat)>)
    ensures m.None? <==> forall k :: 0 <= k < |s| ==> !IsDigit(s[k])
    ensures m.Some? ==> IsLeftmostLongest(s, m.value.0, m.value.1)
  {
    var a := FirstDigitFrom(s, 0);
    if a == |s| then None
    else
      TokenEndIsLongestMatch(s, a);
      assert forall a', e :: 0 <= a' < a && a' < e <= |s| ==> s[a'..e][0] == s[a'];
      Some((a, TokenEnd(s, a)))
  }

  function DigitValue(c: char): nat
    requires IsDigit(c)
  {
    c as int - '0' as int
  }

  /** The natural number a string of decimal digits denotes. */
  function DigitsValue(ds: string): nat
    requires AllDigits(ds)
  {
    if |ds| == 0 then 0 else DigitsValue(ds[..|ds| - 1]) * 10 + DigitValue(ds[|ds| - 1])
  }

  function Pow10(n: nat): (p: nat)
    ensures p >= 1
  {
    if n == 0 then 1 else 10 * Pow10(n - 1)
  }

  /** n digits denote a number below 10^n. */
  lemma {:induction false} DigitsValueBelowPow10(ds: string)
    requires AllDigits(ds)
    ensures DigitsValue(ds) < Pow10(|ds|)
  {
    if |ds| > 0 {
      DigitsValueBelowPow10(ds[..|ds| - 1]);
    }
  }

  lemma QuotientBelowOne(x: real, y: real)
    requires 0.0 <= x < y
    ensures 0.0 <= x / y < 1.0
  {
  }

  /** The value of the digits after a decimal point: `0.ds`. */
  function FractionValue(ds: string): (f: real)
    requires AllDigits(ds)
    ensures 0.0 <= f < 1.0
  {
    DigitsValueBelowPow10(ds);
    QuotientBelowOne(DigitsValue(ds) as real, Pow10(|ds|) as real);
    DigitsValue(ds) as real / Pow10(|ds|) as real
  }

  /** In a token, everything after the '.' that ends the leading digits is a
      digit. */
  lemma FractionDigitsAfterPoint(t: string, j: nat)
    requires IsNumberToken(t) && j < |t| && t[j] == '.'
    ensures AllDigits(t[j + 1..])
  {
    var u := t[j + 1..];
    forall k | 0 <= k < |u| ensures IsDigit(u[k]) {
      assert u[k] == t[j + 1 + k];
    }
  }

  /** The value of a matched token: its integer digits plus the fraction
      after the '.', if any. The integer digits are its floor. */
  function TokenValue(t: string): (v: real)
    requires IsNumberToken(t)
    ensures v >= 0.0
    ensures AllDigits(t[..DigitRunEnd(t, 0)]) && v.Floor == DigitsValue(t[..DigitRunEnd(t, 0)])
  {
    var j := DigitRunEnd(t, 0);
    var whole := DigitsValue(t[..j]);
    if j < |t| then
      assert t[j] == '.';
      FractionDigitsAfterPoint(t, j);
      var f := FractionValue(t[j + 1..]);
      whole as real + f
    else
      whole as real
  }

  /** The unsigned decimal that `parseFloat` reads at the start of `u`
      (digits with an optional fraction, or '.' and digits). */
  function UnsignedPrefixValue(u: string): (r: Option<real>)
    ensures r.Some? <==> (|u| > 0 && IsDigit(u[0])) || (|u| > 1 && u[0] == '.' && IsDigit(u[1]))
    ensures r.Some? ==> r.value >= 0.0
  {
    if |u| > 0 && IsDigit(u[0]) then
      TokenEndIsLongestMatch(u, 0);
      Some(TokenValue(u[..TokenEnd(u, 0)]))
    else if |u| > 1 && u[0] == '.' && IsDigit(u[1]) then
      Some(FractionValue(u[1..DigitRunEnd(u, 1)]))
    else
      None
  }

  /** JavaScript's `parseFloat`, None standing for NaN: leading white space
      is skipped, a sign is read, then the longest decimal prefix. */
  function ParseFloat(s: string): (r: Option<real>)
    ensures var t := Text.TrimStart(s);
      && (|t| > 0 && t[0] == '-' && r.Some? ==> r.value <= 0.0)
      && (|t| > 0 && IsDigit(t[0]) ==> r.Some? && r.value >= 0.0)
      && (r.Some? ==> exists k :: 0 <= k < |s| && IsDigit(s[k]))
  {
    var t := Text.TrimStart(s);
    if |t| > 0 && (t[0] == '-' || t[0] == '+') then
      match UnsignedPrefixValue(t[1..])
      case None => None
      case Some(v) => Some(if t[0] == '-' then -v else v)
    else
      UnsignedPrefixValue(t)
  }

  /** The greedy match at the start of a token is the whole token. */
  lemma WholeTokenIsLongest(t: string)
    requires IsNumberToken(t)
    ensures TokenEnd(t, 0) == |t|
  {
    TokenEndIsLongestMatch(t, 0);
    assert t[0..|t|] == t;
  }

  /** `parseFloat` reads a whole matched token back as its value, so the
      fallback's `parseFloat(match[1])` is the token's value. */
  lemma ParseFloatOfToken(t: string)
    requires IsNumberToken(t)
    ensures ParseFloat(t) == Some(TokenValue(t))
  {
    WholeTokenIsLongest(t);
    assert t[..TokenEnd(t, 0)] == t;
    assert Text.TrimStart(t) == t;
  }

  /** The quote fetcher's last resort: `parseFloat` of the first number in
      the text, or None when the text holds no digit. */
  function FirstNumberIn(text: string): (r: Option<real>)
    ensures r.None? <==> forall k :: 0 <= k < |text| ==> !IsDigit(text[k])
    ensures r.Some? ==> r.value >= 0.0
    ensures r.Some? ==> exists a: nat, b: nat :: IsLeftmostLongest(text, a, b) && r.value == TokenValue(text[a..b])
  {
    match MatchNumber(text)
    case None => None
    case Some((a, b)) =>
      ParseFloatOfToken(text[a..b]);
      ParseFloat(text[a..b])
  }
}
