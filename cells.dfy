/**
 * Spreadsheet cells and the three things the aggregation does with one:
 * `str(value).strip()` followed by `float(...)` for a residue value,
 * `str(value).strip().lower() == "unsafe"` for a compliance flag, and
 * plain equality for a variant or commodity.
 */
module Cells {
  import opened Wrappers

  /** A cell as pandas hands it over: empty (NaN), a string or a number. */
  datatype Cell = Missing | Text(s: string) | Num(r: real)

  /** Python's `str.isspace`: the characters `str.strip()` removes. */
  predicate IsSpace(c: char) {
    c in {' ', '\t', '\n', '\r', '\U{0B}', '\U{0C}', '\U{1C}', '\U{1D}', '\U{1E}', '\U{1F}',
          '\U{85}', '\U{A0}', '\U{1680}', '\U{2028}', '\U{2029}', '\U{202F}', '\U{205F}', '\U{3000}'}
    || ('\U{2000}' <= c <= '\U{200A}')
  }

  /** How many whitespace characters `s` starts with. */
  function LeadCount(s: string): (n: nat)
    ensures n <= |s|
    ensures forall k :: 0 <= k < n ==> IsSpace(s[k])
    ensures n < |s| ==> !IsSpace(s[n])
  {
    if s == [] || !IsSpace(s[0]) then 0 else 1 + LeadCount(s[1..])
  }

  /** How many whitespace characters `s` ends with. */
  function TrailCount(s: string): (n: nat)
    ensures n <= |s|
    ensures forall k :: |s| - n <= k < |s| ==> IsSpace(s[k])
    ensures n < |s| ==> !IsSpace(s[|s| - n - 1])
  {
    if s == [] || !IsSpace(s[|s| - 1]) then 0 else 1 + TrailCount(s[..|s| - 1])
  }

  /** `s.strip()`: the longest middle part of `s` that neither starts nor ends with whitespace. */
  function Strip(s: string): (r: string)
    ensures LeadCount(s) + |r| <= |s| && r == s[LeadCount(s)..LeadCount(s) + |r|]
    ensures forall k :: 0 <= k < LeadCount(s) ==> IsSpace(s[k])
    ensures forall k :: LeadCount(s) + |r| <= k < |s| ==> IsSpace(s[k])
    ensures r != [] ==> !IsSpace(r[0]) && !IsSpace(r[|r| - 1])
  {
    var t := s[LeadCount(s)..];
    t[..|t| - TrailCount(t)]
  }

  function LowerChar(c: char): char {
    if 'A' <= c <= 'Z' then (c as int - 'A' as int + 'a' as int) as char else c
  }

  /**
   * `s.lower()` on the Latin capitals. No other character lower-cases to one
   * of the letters of "unsafe", so the compliance test below is exact.
   */
  function Lower(s: string): string {
    seq(|s|, i requires 0 <= i < |s| => LowerChar(s[i]))
  }

  /** The compliance test: `str(cell).strip().lower() == "unsafe"`. */
  predicate IsUnsafe(c: Cell) {
    c.Text? && Lower(Strip(c.s)) == "unsafe"
  }

  predicate IsDigit(c: char) { '0' <= c <= '9' }

  /** Python's `digitpart`: digits, with single underscores allowed between two digits. */
  predicate IsDigitPart(s: string) {
    |s| > 0 && IsDigit(s[0]) && IsDigit(s[|s| - 1]) && DigitsOrUnderscores(s) &&
    forall i :: 0 <= i < |s| ==>
      IsDigit(s[i]) || (s[i] == '_' && 0 < i < |s| - 1 && IsDigit(s[i - 1]) && IsDigit(s[i + 1]))
  }

  predicate DigitsOrUnderscores(s: string) {
    forall i :: 0 <= i < |s| ==> IsDigit(s[i]) || s[i] == '_'
  }

  /** The number the digits of `s` spell, underscores ignored. */
  function DigitsValue(s: string): nat
    requires DigitsOrUnderscores(s)
  {
    if s == [] then 0
    else if s[|s| - 1] == '_' then DigitsValue(s[..|s| - 1])
    else DigitsValue(s[..|s| - 1]) * 10 + (s[|s| - 1] as int - '0' as int)
  }

  /** How many digits `s` holds, underscores ignored. */
  function DigitCount(s: string): nat
    requires DigitsOrUnderscores(s)
  {
    if s == [] then 0
    else DigitCount(s[..|s| - 1]) + (if s[|s| - 1] == '_' then 0 else 1)
  }

  function Pow10(n: nat): (p: nat)
    ensures p >= 1
  {
    if n == 0 then 1 else 10 * Pow10(n - 1)
  }

  /** The first position of a character of `cs` in `s`, or `|s|` when there is none. */
  function FirstIndex(s: string, cs: set<char>): (i: nat)
    ensures i <= |s|
    ensures i < |s| ==> s[i] in cs
    ensures forall j :: 0 <= j < i ==> s[j] !in cs
  {
    if s == [] then 0
    else if s[0] in cs then 0
    else 1 + FirstIndex(s[1..], cs)
  }

  /** A mantissa: `digitpart ["." [digitpart]]` or `"." digitpart`. */
  function ParseMantissa(s: string): Option<real> {
    var d := FirstIndex(s, {'.'});
    var whole := s[..d];
    if d == |s| then
      if IsDigitPart(whole) then Some(DigitsValue(whole) as real) else None
    else
      var frac := s[d + 1..];
      if (whole == [] || IsDigitPart(whole)) && (frac == [] || IsDigitPart(frac)) && !(whole == [] && frac == []) then
        var w := if whole == [] then 0 else DigitsValue(whole);
        var f := if frac == [] then 0 else DigitsValue(frac);
        var n := if frac == [] then 0 else DigitCount(frac);
        Some(w as real + f as real / Pow10(n) as real)
      else None
  }

  /** An exponent after `e` or `E`: `[sign] digitpart`. */
  function ParseExponent(s: string): Option<int> {
    var neg := |s| > 0 && s[0] == '-';
    var t := if |s| > 0 && (s[0] == '+' || s[0] == '-') then s[1..] else s;
    if IsDigitPart(t) then Some(if neg then -(DigitsValue(t) as int) else DigitsValue(t)) else None
  }

  function Scale(x: int): real {
    if x >= 0 then Pow10(x) as real else 1.0 / Pow10(-x) as real
  }

  /** An unsigned number: `mantissa [("e" | "E") exponent]`. */
  function ParseUnsigned(s: string): Option<real> {
    var e := FirstIndex(s, {'e', 'E'});
    match ParseMantissa(s[..e])
    case None => None
    case Some(m) =>
      if e == |s| then Some(m)
      else match ParseExponent(s[e + 1..])
        case None => None
        case Some(x) => Some(m * Scale(x))
  }

  /**
   * `float(s)` on a string that is already stripped: `[sign] unsigned`.
   * The spellings of infinity and NaN are not numbers here.
   */
  function ParseFloat(s: string): Option<real> {
    var neg := |s| > 0 && s[0] == '-';
    var body := if |s| > 0 && (s[0] == '+' || s[0] == '-') then s[1..] else s;
    match ParseUnsigned(body)
    case None => None
    case Some(a) => Some(if neg then -a else a)
  }

  /**
   * A residue value: a missing cell or the empty string is skipped, a
   * number is itself, any other text is stripped and parsed.
   */
  function ParseValue(c: Cell): Option<real> {
    match c
    case Missing => None
    case Num(r) => Some(r)
    case Text(s) => if s == "" then None else ParseFloat(Strip(s))
  }

  /** The decimal spelling of `n`, as `str(n)` writes it. */
  function NatString(n: nat): (s: string)
    ensures |s| > 0 && forall i :: 0 <= i < |s| ==> IsDigit(s[i])
  {
    var d := ['0' + (n % 10) as char];
    if n < 10 then d else NatString(n / 10) + d
  }

  lemma {:induction false} LeadCountPadded(pre: string, rest: string)
    requires forall k :: 0 <= k < |pre| ==> IsSpace(pre[k])
    requires rest != [] && !IsSpace(rest[0])
    ensures LeadCount(pre + rest) == |pre|
  {
    if pre != [] {
      assert (pre + rest)[1..] == pre[1..] + rest;
      LeadCountPadded(pre[1..], rest);
    }
  }

  lemma {:induction false} TrailCountPadded(rest: string, post: string)
    requires forall k :: 0 <= k < |post| ==> IsSpace(post[k])
    requires rest != [] && !IsSpace(rest[|rest| - 1])
    ensures TrailCount(rest + post) == |post|
  {
    if post != [] {
      assert (rest + post)[..|rest + post| - 1] == rest + post[..|post| - 1];
      TrailCountPadded(rest, post[..|post| - 1]);
    }
  }

  /** Stripping removes exactly the surrounding whitespace and nothing of what it surrounds. */
  lemma StripPadded(pre: string, core: string, post: string)
    requires forall k :: 0 <= k < |pre| ==> IsSpace(pre[k])
    requires forall k :: 0 <= k < |post| ==> IsSpace(post[k])
    requires core != [] && !IsSpace(core[0]) && !IsSpace(core[|core| - 1])
    ensures Strip(pre + core + post) == core
  {
    var s := pre + core + post;
    assert s == pre + (core + post);
    LeadCountPadded(pre, core + post);
    var t := s[|pre|..];
    assert t == core + post;
    TrailCountPadded(core, post);
  }

  /**
   * A compliance cell reads as unsafe whatever the case of its letters and
   * whatever whitespace surrounds it.
   */
  lemma UnsafeAnyCasePadded(pre: string, word: string, post: string)
    requires forall k :: 0 <= k < |pre| ==> IsSpace(pre[k])
    requires forall k :: 0 <= k < |post| ==> IsSpace(post[k])
    requires |word| == 6 && forall k :: 0 <= k < 6 ==> LowerChar(word[k]) == "unsafe"[k]
    ensures IsUnsafe(Text(pre + word + post))
  {
    assert !IsSpace(word[0]) && !IsSpace(word[5]) by {
      assert LowerChar(word[0]) == 'u' && LowerChar(word[5]) == 'e';
    }
    StripPadded(pre, word, post);
    assert Lower(word) == "unsafe";
  }

  /** Only text can be unsafe, and only text that strips to a six-letter word. */
  lemma UnsafeIsSixLetters(c: Cell)
    requires IsUnsafe(c)
    ensures c.Text? && |Strip(c.s)| == 6
    ensures forall k :: 0 <= k < 6 ==> LowerChar(Strip(c.s)[k]) == "unsafe"[k]
  {
  }

  lemma {:induction false} NatStringValue(n: nat)
    ensures DigitsOrUnderscores(NatString(n)) && DigitsValue(NatString(n)) == n
  {
    var s := NatString(n);
    if n >= 10 {
      NatStringValue(n / 10);
      assert s[..|s| - 1] == NatString(n / 10);
    }
  }

  lemma PlainDigits(s: string)
    requires |s| > 0 && forall i :: 0 <= i < |s| ==> IsDigit(s[i])
    ensures ParseUnsigned(s) == Some(DigitsValue(s) as real)
  {
    assert IsDigitPart(s);
    assert FirstIndex(s, {'e', 'E'}) == |s|;
    assert s[..|s|] == s;
    assert FirstIndex(s, {'.'}) == |s|;
  }

  /** `float(str(n))` is `n`, and `float("-" + str(n))` is `-n`. */
  lemma ParseNatString(n: nat)
    ensures ParseFloat(NatString(n)) == Some(n as real)
    ensures ParseFloat("-" + NatString(n)) == Some(-(n as real))
  {
    var s := NatString(n);
    NatStringValue(n);
    PlainDigits(s);
    assert s[0] != '-' && s[0] != '+';
    var m := "-" + s;
    assert m[1..] == s;
  }

  /** Text that does not start as a number does (digit, point or sign) is no number: it is skipped. */
  lemma NonNumericSkipped(s: string)
    requires Strip(s) != [] && !IsDigit(Strip(s)[0]) && Strip(s)[0] != '.' && Strip(s)[0] != '+' && Strip(s)[0] != '-'
    ensures ParseValue(Text(s)) == None
  {
    var t := Strip(s);
    assert ParseFloat(t) == ParseUnsigned(t);
    var e := FirstIndex(t, {'e', 'E'});
    var m := t[..e];
    if e == 0 {
      assert m == [];
      assert ParseMantissa(m) == None;
    } else {
      assert m[0] == t[0];
      var d := FirstIndex(m, {'.'});
      assert d > 0;
      assert m[..d][0] == t[0];
      assert !IsDigitPart(m[..d]);
      assert ParseMantissa(m) == None;
    }
  }

  /** A cell holding "N/A" is no number, so it is skipped. */
  lemma NotApplicableIsSkipped()
    ensures ParseValue(Text("N/A")) == None
  {
    StripPadded("", "N/A", "");
    assert "" + "N/A" + "" == "N/A";
    NonNumericSkipped("N/A");
  }
  /** A value cell holding a whole number, with any whitespace around it, reads as that number. */
  lemma PaddedNumberParses(pre: string, n: nat, post: string)
    requires forall k :: 0 <= k < |pre| ==> IsSpace(pre[k])
    requires forall k :: 0 <= k < |post| ==> IsSpace(post[k])
    ensures ParseValue(Text(pre + NatString(n) + post)) == Some(n as real)
  {
    var digits := NatString(n);
    assert !IsSpace(digits[0]) && !IsSpace(digits[|digits| - 1]);
    StripPadded(pre, digits, post);
    ParseNatString(n);
  }
}
