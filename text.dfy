/** String helpers shared by the dashboard script and the Flask loader:
    whitespace trimming, ASCII lower-casing and the date part of an ISO 8601
    date-time text. */
module Text {

  /** The ASCII white-space characters that both `String.prototype.trim`
      and Python's `str.strip` remove (`strip` also removes `\x1c`–`\x1f`,
      which `trim` keeps). */
  predicate IsSpace(c: char) {
    c == ' ' || c == '\t' || c == '\n' || c == '\r' || c == '\U{0B}' || c == '\U{0C}'
  }

  /** Drops leading white space: the result is the suffix of `s` that starts
      at its first non-space character. */
  function TrimStart(s: string): (r: string)
    ensures |r| <= |s| && r == s[|s| - |r|..]
    ensures forall i :: 0 <= i < |s| - |r| ==> IsSpace(s[i])
    ensures r == [] || !IsSpace(r[0])
  {
    if |s| > 0 && IsSpace(s[0]) then TrimStart(s[1..]) else s
  }

  /** Drops trailing white space: the result is the prefix of `s` that ends
      at its last non-space character. */
  function TrimEnd(s: string): (r: string)
    ensures |r| <= |s| && r == s[..|r|]
    ensures forall i :: |r| <= i < |s| ==> IsSpace(s[i])
    ensures r == [] || !IsSpace(r[|r| - 1])
  {
    if |s| > 0 && IsSpace(s[|s| - 1]) then TrimEnd(s[..|s| - 1]) else s
  }

  /** `s.trim()` in JavaScript, `s.strip()` in Python. */
  function Trim(s: string): (r: string)
    ensures |r| <= |s|
    ensures r == [] || (!IsSpace(r[0]) && !IsSpace(r[|r| - 1]))
  {
    TrimEnd(TrimStart(s))
  }

  /** Trimming removes white space only, and only at the two ends: the
      result is the slice of `s` between its leading and its trailing white
      space. */
  lemma TrimDropsOnlyOuterSpace(s: string)
    ensures exists a, b ::
              && 0 <= a <= b <= |s| && Trim(s) == s[a..b]
              && (forall i :: 0 <= i < a ==> IsSpace(s[i]))
              && (forall i :: b <= i < |s| ==> IsSpace(s[i]))
  {
    var t := TrimStart(s);
    var e := TrimEnd(t);
    var a, b := |s| - |t|, |s| - |t| + |e|;
    assert Trim(s) == e == s[a..b];
    assert forall i :: 0 <= i < a ==> IsSpace(s[i]);
    forall i | b <= i < |s| ensures IsSpace(s[i]) {
      assert s[i] == t[i - a];
    }
    assert 0 <= a <= b <= |s| && Trim(s) == s[a..b];
  }

  /** A string trims to the empty string exactly when it is all white space;
      this is the `!indice` test after `.trim()` in the save handler. */
  lemma TrimEmptyIffAllSpace(s: string)
    ensures Trim(s) == [] <==> forall i :: 0 <= i < |s| ==> IsSpace(s[i])
  {
    var t := TrimStart(s);
    assert t == [] ==> forall i :: 0 <= i < |s| ==> IsSpace(s[i]);
  }

  /** Trimming twice is trimming once. */
  lemma TrimIdempotent(s: string)
    ensures Trim(Trim(s)) == Trim(s)
  {
    var r := Trim(s);
    assert TrimStart(r) == r;
    assert TrimEnd(r) == r;
  }

  /** A string with no white space at either end trims to itself. */
  lemma TrimOfUnpadded(s: string)
    requires s == [] || (!IsSpace(s[0]) && !IsSpace(s[|s| - 1]))
    ensures Trim(s) == s
  {
  }

  function LowerChar(c: char): char {
    if 'A' <= c <= 'Z' then (c as int + 32) as char else c
  }

  /** ASCII `toLowerCase()` / `lower()`: every upper-case letter is mapped to
      its lower-case form and nothing else changes. */
  function ToLower(s: string): (r: string)
    ensures |r| == |s|
    ensures forall i :: 0 <= i < |s| ==> r[i] == LowerChar(s[i])
  {
    seq(|s|, i requires 0 <= i < |s| => LowerChar(s[i]))
  }

  /** The header and sheet-name normalisation `s.trim().toLowerCase()`
      (JavaScript) and `str(s).strip().lower()` (Python). */
  function Normalize(s: string): string {
    ToLower(Trim(s))
  }

  /** `s.split('T')[0]`: the text before the first 'T', or all of `s`. For an
      ISO 8601 date-time this is its calendar-date part. */
  function DatePart(s: string): (r: string)
    ensures |r| <= |s| && r == s[..|r|]
    ensures 'T' !in r
    ensures |r| == |s| || s[|r|] == 'T'
  {
    if |s| == 0 || s[0] == 'T' then [] else [s[0]] + DatePart(s[1..])
  }
}
