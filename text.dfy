/**
 * The few Python string operations the configuration code uses:
 * `str.strip`/`lstrip`/`rstrip` with a character set, `str.startswith`,
 * `str.lower` and `int(str)` in base 10.
 */
module Text {
  import opened Wrappers

  /** Python's `str.isspace`: the characters `strip()` without arguments removes. */
  predicate IsSpace(c: char)
  {
    || '\t' <= c <= '\r' || '\U{1C}' <= c <= ' '
    || c == '\U{85}' || c == '\U{A0}' || c == '\U{1680}'
    || '\U{2000}' <= c <= '\U{200A}'
    || c == '\U{2028}' || c == '\U{2029}' || c == '\U{202F}' || c == '\U{205F}' || c == '\U{3000}'
  }

  /** `s.lstrip(chars)`: the suffix left after dropping the leading characters `drop` accepts. */
  function LStrip(s: string, drop: char -> bool): (r: string)
    ensures |r| <= |s| && r == s[|s| - |r|..]
    ensures r == [] || !drop(r[0])
    ensures forall i :: 0 <= i < |s| - |r| ==> drop(s[i])
  {
    if s != [] && drop(s[0]) then LStrip(s[1..], drop) else s
  }

  /** `s.rstrip(chars)`: the prefix left after dropping the trailing characters `drop` accepts. */
  function RStrip(s: string, drop: char -> bool): (r: string)
    ensures |r| <= |s| && r == s[..|r|]
    ensures r == [] || !drop(r[|r| - 1])
    ensures forall i :: |r| <= i < |s| ==> drop(s[i])
  {
    if s != [] && drop(s[|s| - 1]) then RStrip(s[..|s| - 1], drop) else s
  }

  /** `s.strip(chars)`: the middle of `s` left once both runs of removable end characters are dropped. */
  function Strip(s: string, drop: char -> bool): (r: string)
    ensures |r| <= |s|
    ensures r == [] <==> forall i :: 0 <= i < |s| ==> drop(s[i])
    ensures r == [] || (!drop(r[0]) && !drop(r[|r| - 1]))
  {
    RStrip(LStrip(s, drop), drop)
  }

  /**
   * `strip` keeps exactly the middle of `s`: it starts right after the leading run of
   * removable characters, and every character after it is removable.
   */
  lemma {:induction false} StripMiddle(s: string, drop: char -> bool)
    ensures var r := Strip(s, drop);
      && LeadingRun(s, drop) + |r| <= |s|
      && r == s[LeadingRun(s, drop)..LeadingRun(s, drop) + |r|]
      && forall i :: LeadingRun(s, drop) + |r| <= i < |s| ==> drop(s[i])
  {
    LStripIsLeadingRun(s, drop);
    var k, l := LeadingRun(s, drop), LStrip(s, drop);
    var r := Strip(s, drop);
    assert r == RStrip(l, drop);
    KeptMiddle(s, k, l, r, drop);
  }

  /** A prefix `r` of the suffix `s[k..]`, followed only by removable characters, is the slice `s[k..k + |r|]`. */
  lemma {:induction false} KeptMiddle(s: string, k: nat, l: string, r: string, drop: char -> bool)
    requires k <= |s| && l == s[k..]
    requires |r| <= |l| && r == l[..|r|]
    requires forall i :: |r| <= i < |l| ==> drop(l[i])
    ensures k + |r| <= |s|
    ensures r == s[k..k + |r|]
    ensures forall i :: k + |r| <= i < |s| ==> drop(s[i])
  {
    forall i | k + |r| <= i < |s|
      ensures drop(s[i])
    {
      assert s[i] == l[i - k];
    }
  }

  /** The number of leading characters of `s` that `drop` accepts. */
  function LeadingRun(s: string, drop: char -> bool): (k: nat)
    ensures k <= |s|
    ensures forall i :: 0 <= i < k ==> drop(s[i])
    ensures k < |s| ==> !drop(s[k])
  {
    if s != [] && drop(s[0]) then 1 + LeadingRun(s[1..], drop) else 0
  }

  /** `lstrip` leaves exactly what follows the leading run. */
  lemma {:induction false} LStripIsLeadingRun(s: string, drop: char -> bool)
    ensures LStrip(s, drop) == s[LeadingRun(s, drop)..]
  {
    if s != [] && drop(s[0]) {
      LStripIsLeadingRun(s[1..], drop);
      assert s[1..][LeadingRun(s[1..], drop)..] == s[1 + LeadingRun(s[1..], drop)..];
    }
  }

  /** Stripping leaves a string with no removable character at either end unchanged. */
  lemma StripUntouched(s: string, drop: char -> bool)
    requires s == [] || (!drop(s[0]) && !drop(s[|s| - 1]))
    ensures Strip(s, drop) == s
  {
  }

  /** A string made only of removable characters strips to nothing. */
  lemma RStripAll(s: string, drop: char -> bool)
    requires forall i :: 0 <= i < |s| ==> drop(s[i])
    ensures RStrip(s, drop) == []
  {
  }

  /** A kept first character stops `lstrip` at once. */
  lemma LStripKeeps(s: string, drop: char -> bool)
    requires |s| > 0 && !drop(s[0])
    ensures LStrip(s, drop) == s
  {
  }

  /** A kept last character stops `rstrip` at once; a removable one is dropped and `rstrip` goes on. */
  lemma RStripLast(s: string, drop: char -> bool)
    requires |s| > 0
    ensures !drop(s[|s| - 1]) ==> RStrip(s, drop) == s
    ensures drop(s[|s| - 1]) ==> RStrip(s, drop) == RStrip(s[..|s| - 1], drop)
  {
  }

  /** `rstrip` keeps the first character unless it removes everything. */
  lemma RStripKeepsFirst(s: string, drop: char -> bool)
    ensures var r := RStrip(s, drop); r == [] || r[0] == s[0]
  {
  }

  /** `s.startswith(p)`. */
  predicate StartsWith(s: string, p: string)
  {
    |p| <= |s| && s[..|p|] == p
  }

  /** `str.lower` on the ASCII letters. */
  function LowerChar(c: char): (d: char)
    ensures 'A' <= c <= 'Z' ==> 'a' <= d <= 'z'
    ensures !('A' <= c <= 'Z') ==> d == c
  {
    if 'A' <= c <= 'Z' then (c as int + 32) as char else c
  }

  /** `str.upper` on the ASCII letters. */
  function UpperChar(c: char): (d: char)
    ensures 'a' <= c <= 'z' ==> 'A' <= d <= 'Z' && LowerChar(d) == c
    ensures !('a' <= c <= 'z') ==> d == c
  {
    if 'a' <= c <= 'z' then (c as int - 32) as char else c
  }

  function Lower(s: string): (r: string)
    ensures |r| == |s|
    ensures forall i :: 0 <= i < |s| ==> r[i] == LowerChar(s[i])
  {
    seq(|s|, i requires 0 <= i < |s| => LowerChar(s[i]))
  }

  function Upper(s: string): (r: string)
    ensures |r| == |s|
    ensures forall i :: 0 <= i < |s| ==> r[i] == UpperChar(s[i])
  {
    seq(|s|, i requires 0 <= i < |s| => UpperChar(s[i]))
  }

  /** Lower-casing an upper-cased string gives back any string without ASCII capitals. */
  lemma LowerUpper(s: string)
    requires forall i :: 0 <= i < |s| ==> !('A' <= s[i] <= 'Z')
    ensures Lower(Upper(s)) == s
  {
  }

  predicate IsDigit(c: char)
  {
    '0' <= c <= '9'
  }

  function DigitValue(c: char): (n: nat)
    requires IsDigit(c)
    ensures n < 10
  {
    c as int - '0' as int
  }

  function DigitChar(n: nat): (c: char)
    requires n < 10
    ensures IsDigit(c) && DigitValue(c) == n
  {
    (n + '0' as int) as char
  }

  /** A decimal literal as `int()` accepts it: digits, with single underscores between digits. */
  predicate IsDigitRun(s: string)
  {
    && |s| > 0 && IsDigit(s[0]) && IsDigit(s[|s| - 1])
    && (forall i :: 0 <= i < |s| ==> IsDigit(s[i]) || s[i] == '_')
    && (forall i :: 0 <= i < |s| - 1 ==> !(s[i] == '_' && s[i + 1] == '_'))
  }

  /** The value of the digits of `s`, underscores skipped. */
  function DigitsValue(s: string): (n: nat)
    requires forall i :: 0 <= i < |s| ==> IsDigit(s[i]) || s[i] == '_'
  {
    if s == [] then 0
    else
      var last := s[|s| - 1];
      if last == '_' then DigitsValue(s[..|s| - 1]) else DigitsValue(s[..|s| - 1]) * 10 + DigitValue(last)
  }

  /** `int(s)` in base 10: surrounding whitespace, an optional sign, then a digit run; `None` where Python raises ValueError. */
  function ParseInt(s: string): (r: Option<int>)
    ensures r.Some? ==> var t := Strip(s, IsSpace); |t| > 0 && (r.value < 0 ==> t[0] == '-')
  {
    ParseStripped(Strip(s, IsSpace))
  }

  /** The sign and digits left once the whitespace is stripped. */
  function ParseStripped(t: string): (r: Option<int>)
    ensures r.Some? ==> |t| > 0 && (r.value < 0 ==> t[0] == '-')
  {
    if |t| > 0 && (t[0] == '+' || t[0] == '-') then
      var digits := t[1..];
      var magnitude: int := if IsDigitRun(digits) then DigitsValue(digits) else 0;
      if IsDigitRun(digits) then Some(if t[0] == '-' then -magnitude else magnitude) else None
    else if IsDigitRun(t) then Some(DigitsValue(t))
    else None
  }

  /** The decimal rendering of `n` (Python's `str(n)`). */
  function ShowNat(n: nat): (s: string)
    ensures |s| > 0 && forall i :: 0 <= i < |s| ==> IsDigit(s[i])
  {
    if n < 10 then [DigitChar(n)] else ShowNat(n / 10) + [DigitChar(n % 10)]
  }

  function ShowInt(n: int): (s: string)
  {
    if n < 0 then "-" + ShowNat(-n) else ShowNat(n)
  }

  lemma {:induction false} DigitsValueShowNat(n: nat)
    ensures DigitsValue(ShowNat(n)) == n
  {
    if n >= 10 {
      var s := ShowNat(n);
      assert s[..|s| - 1] == ShowNat(n / 10);
      DigitsValueShowNat(n / 10);
    }
  }

  /** A digit rendering is a digit run, free of surrounding whitespace. */
  lemma ShowNatShape(n: nat)
    ensures IsDigitRun(ShowNat(n)) && DigitsValue(ShowNat(n)) == n
    ensures !IsSpace(ShowNat(n)[0]) && !IsSpace(ShowNat(n)[|ShowNat(n)| - 1])
  {
    DigitsValueShowNat(n);
  }

  lemma ParseShowNat(n: nat)
    ensures ParseInt(ShowNat(n)) == Some(n)
  {
    var s := ShowNat(n);
    ShowNatShape(n);
    StripUntouched(s, IsSpace);
    assert s[0] != '+' && s[0] != '-';
  }

  lemma ParseNegativeRun(digits: string)
    requires IsDigitRun(digits)
    ensures ParseInt("-" + digits) == Some(-(DigitsValue(digits) as int))
  {
    var s := "-" + digits;
    assert s[|s| - 1] == digits[|digits| - 1];
    StripUntouched(s, IsSpace);
    assert s[1..] == digits;
    assert ParseStripped(s) == Some(-(DigitsValue(digits) as int));
  }

  lemma ParseShowNegative(n: nat)
    requires n > 0
    ensures ParseInt("-" + ShowNat(n)) == Some(-(n as int))
  {
    ShowNatShape(n);
    ParseNegativeRun(ShowNat(n));
  }

  /** Round trip: `int(str(n)) == n`. */
  lemma ParseShowInt(n: int)
    ensures ParseInt(ShowInt(n)) == Some(n)
  {
    if n < 0 {
      ParseShowNegative(-n);
    } else {
      ParseShowNat(n);
    }
  }

  /** Empty or blank text is not a number. */
  lemma ParseIntRejectsBlank(s: string)
    requires forall i :: 0 <= i < |s| ==> IsSpace(s[i])
    ensures ParseInt(s) == None
  {
  }
}
