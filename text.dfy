/**
  * The string primitives that the TERYT code handling is built from: Python's
  * `str.strip()`, `str.lower()`, `str.replace(",", ".")`, `str.zfill(w)` and
  * `s[:n]`, the decimal rendering of an integer (`str(int)`) and the numeric
  * parsing done by `pd.to_numeric`.
  */
module Text {
  import opened Wrappers

  // ---------------------------------------------------------------------------
  // Whitespace
  // ---------------------------------------------------------------------------

  /**
    * The characters Python's `str.isspace()` accepts, which `str.strip()`
    * removes: ASCII tab to carriage return, the separators U+001C..U+001F,
    * space, U+0085, no-break space and the Unicode space separators.
    */
  predicate IsSpace(c: char) {
    ('\t' <= c <= '\r') || ('\U{001C}' <= c <= ' ') || c == '\U{0085}' || c == '\U{00A0}' ||
    c == '\U{1680}' || ('\U{2000}' <= c <= '\U{200A}') || c == '\U{2028}' || c == '\U{2029}' ||
    c == '\U{202F}' || c == '\U{205F}' || c == '\U{3000}'
  }

  /** `s.lstrip()`: removes exactly the leading whitespace run. */
  function TrimStart(s: string): (r: string)
    ensures |r| <= |s| && r == s[|s| - |r|..]
    ensures forall i :: 0 <= i < |s| - |r| ==> IsSpace(s[i])
    ensures r == [] || !IsSpace(r[0])
  {
    if s != [] && IsSpace(s[0]) then TrimStart(s[1..]) else s
  }

  /** `s.rstrip()`: removes exactly the trailing whitespace run. */
  function TrimEnd(s: string): (r: string)
    ensures |r| <= |s| && r == s[..|r|]
    ensures forall i :: |r| <= i < |s| ==> IsSpace(s[i])
    ensures r == [] || !IsSpace(r[|r| - 1])
  {
    if s != [] && IsSpace(s[|s| - 1]) then TrimEnd(s[..|s| - 1]) else s
  }

  /** `s.strip()`. */
  function Strip(s: string): string {
    TrimEnd(TrimStart(s))
  }

  /** A stripped string has no whitespace at either end, and stripping it again changes nothing. */
  lemma {:induction false} StripIsClean(s: string)
    ensures var r := Strip(s); r == [] || (!IsSpace(r[0]) && !IsSpace(r[|r| - 1]))
    ensures Strip(Strip(s)) == Strip(s)
  {
    var t := TrimStart(s);
    var r := TrimEnd(t);
    if r != [] {
      assert r[0] == t[0];
      assert TrimStart(r) == r;
    } else {
      assert TrimStart(r) == r;
    }
    assert TrimEnd(r) == r;
  }

  // ---------------------------------------------------------------------------
  // Case
  // ---------------------------------------------------------------------------

  /**
    * A capital whose small letter lies 32 code points above it: ASCII A-Z,
    * Latin-1 (which holds Ó) except the sign ×, basic Greek except Σ, and
    * Cyrillic А-Я.
    */
  predicate ShiftsBy32(c: char) {
    ('A' <= c <= 'Z') || ('\U{00C0}' <= c <= '\U{00DE}' && c != '\U{00D7}') ||
    ('\U{0391}' <= c <= '\U{03AB}' && c != '\U{03A2}' && c != '\U{03A3}') || ('\U{0410}' <= c <= '\U{042F}')
  }

  /**
    * A capital of Latin Extended-A, which sits just before its small letter:
    * Ą Ć Ę Ł Ń Ś Ź Ż of Polish among them, but not İ.
    */
  predicate ShiftsBy1(c: char) {
    ('\U{0100}' <= c <= '\U{012F}' && c as int % 2 == 0) || ('\U{0132}' <= c <= '\U{0137}' && c as int % 2 == 0) ||
    ('\U{0139}' <= c <= '\U{0148}' && c as int % 2 == 1) || ('\U{014A}' <= c <= '\U{0177}' && c as int % 2 == 0) ||
    ('\U{0179}' <= c <= '\U{017E}' && c as int % 2 == 1)
  }

  /** Cyrillic Ѐ-Џ, whose small letters lie 80 code points above. */
  predicate ShiftsBy80(c: char) {
    '\U{0400}' <= c <= '\U{040F}'
  }

  /** A capital the model lowers: the three kinds above and Ÿ. */
  predicate IsUpper(c: char) {
    ShiftsBy32(c) || ShiftsBy1(c) || ShiftsBy80(c) || c == '\U{0178}'
  }

  /** `str.lower()` on one character: a capital becomes its small letter, anything else is kept. */
  function LowerChar(c: char): (r: char)
    ensures !IsUpper(r)
    ensures !IsUpper(c) ==> r == c
  {
    if ShiftsBy32(c) then (c as int + 32) as char
    else if ShiftsBy1(c) then (c as int + 1) as char
    else if ShiftsBy80(c) then (c as int + 80) as char
    else if c == '\U{0178}' then '\U{00FF}'
    else c
  }

  function Lower(s: string): (r: string)
    ensures |r| == |s|
    ensures forall i :: 0 <= i < |s| ==> r[i] == LowerChar(s[i])
  {
    seq(|s|, i requires 0 <= i < |s| => LowerChar(s[i]))
  }

  /** Lower-casing is idempotent: a lower-cased name is left alone by a second pass. */
  lemma LowerIdempotent(s: string)
    ensures Lower(Lower(s)) == Lower(s)
  {
    forall i | 0 <= i < |s|
      ensures LowerChar(LowerChar(s[i])) == LowerChar(s[i])
    {
      assert !IsUpper(LowerChar(s[i]));
    }
  }

  /** Lower-casing a character neither creates nor removes whitespace. */
  lemma LowerKeepsSpace(c: char)
    ensures IsSpace(LowerChar(c)) <==> IsSpace(c)
  {
    if IsUpper(c) {
      assert !IsSpace(c) && !IsSpace(LowerChar(c));
    }
  }

  /** Lower-casing a string with clean ends gives a string with clean ends. */
  lemma LowerKeepsEnds(t: string)
    requires t == [] || (!IsSpace(t[0]) && !IsSpace(t[|t| - 1]))
    ensures var k := Lower(t); k == [] || (!IsSpace(k[0]) && !IsSpace(k[|k| - 1]))
  {
    if t != [] {
      LowerKeepsSpace(t[0]);
      LowerKeepsSpace(t[|t| - 1]);
    }
  }

  /** A string whose ends are not whitespace is left alone by `strip()`. */
  lemma StripClean(u: string)
    requires u == [] || (!IsSpace(u[0]) && !IsSpace(u[|u| - 1]))
    ensures Strip(u) == u
  {
    assert TrimStart(u) == u;
    assert TrimEnd(u) == u;
  }

  /**
    * `s.strip().lower()` is a normal form: applying it to its own result
    * changes nothing (lower-casing neither creates nor removes whitespace).
    */
  lemma {:induction false} LowerStripSettles(s: string)
    ensures var k := Lower(Strip(s)); Lower(Strip(k)) == k
  {
    var t := Strip(s);
    StripIsClean(s);
    var k := Lower(t);
    LowerKeepsEnds(t);
    StripClean(k);
    LowerIdempotent(t);
  }

  // ---------------------------------------------------------------------------
  // Decimal comma
  // ---------------------------------------------------------------------------

  /** `s.replace(",", ".")`. */
  function ReplaceComma(s: string): (r: string)
    ensures |r| == |s|
    ensures forall i :: 0 <= i < |s| ==> r[i] == (if s[i] == ',' then '.' else s[i])
  {
    seq(|s|, i requires 0 <= i < |s| => if s[i] == ',' then '.' else s[i])
  }

  /** A comma is not whitespace, nor is the point that replaces it. */
  lemma CommaKeepsSpace(s: string, i: int)
    requires 0 <= i < |s|
    ensures IsSpace(ReplaceComma(s)[i]) <==> IsSpace(s[i])
  {
    assert !IsSpace(',') && !IsSpace('.');
  }

  lemma {:induction false} TrimStartReplaceComma(s: string)
    ensures TrimStart(ReplaceComma(s)) == ReplaceComma(TrimStart(s))
    decreases |s|
  {
    if s != [] {
      CommaKeepsSpace(s, 0);
      if IsSpace(s[0]) {
        assert ReplaceComma(s)[1..] == ReplaceComma(s[1..]);
        TrimStartReplaceComma(s[1..]);
      }
    }
  }

  lemma {:induction false} TrimEndReplaceComma(s: string)
    ensures TrimEnd(ReplaceComma(s)) == ReplaceComma(TrimEnd(s))
    decreases |s|
  {
    if s != [] {
      CommaKeepsSpace(s, |s| - 1);
      if IsSpace(s[|s| - 1]) {
        assert ReplaceComma(s)[..|s| - 1] == ReplaceComma(s[..|s| - 1]);
        TrimEndReplaceComma(s[..|s| - 1]);
      }
    }
  }

  /**
    * Replacing the decimal comma and trimming commute (a comma is not
    * whitespace), so cleaning a cell twice is the same as cleaning it once.
    */
  lemma {:induction false} CleanTextCommutesAndSettles(s: string)
    ensures Strip(ReplaceComma(s)) == ReplaceComma(Strip(s))
    ensures Strip(ReplaceComma(Strip(ReplaceComma(s)))) == Strip(ReplaceComma(s))
  {
    StripReplaceComma(s);
    var c := Strip(ReplaceComma(s));
    ReplaceCommaIdempotent(Strip(s));
    assert ReplaceComma(c) == c;
    StripIsClean(ReplaceComma(s));
  }

  lemma StripReplaceComma(s: string)
    ensures Strip(ReplaceComma(s)) == ReplaceComma(Strip(s))
  {
    TrimStartReplaceComma(s);
    TrimEndReplaceComma(TrimStart(s));
  }

  lemma ReplaceCommaIdempotent(s: string)
    ensures ReplaceComma(ReplaceComma(s)) == ReplaceComma(s)
  {
  }

  // ---------------------------------------------------------------------------
  // Zero padding and prefixes
  // ---------------------------------------------------------------------------

  function Zeros(n: nat): (r: string)
    ensures |r| == n
    ensures forall i :: 0 <= i < n ==> r[i] == '0'
  {
    seq(n, i => '0')
  }

  predicate IsSign(c: char) { c == '+' || c == '-' }

  /**
    * `s.zfill(width)`: pads with '0' on the left (after a leading sign) up to
    * `width`, and never shortens a string that is already that long.
    */
  function ZFill(s: string, width: nat): (r: string)
    ensures |r| == if |s| >= width then |s| else width
    ensures |s| >= width ==> r == s
    ensures (s == [] || !IsSign(s[0])) ==>
              r[|r| - |s|..] == s && forall i :: 0 <= i < |r| - |s| ==> r[i] == '0'
  {
    if |s| >= width then s
    else if s != [] && IsSign(s[0]) then [s[0]] + Zeros(width - |s|) + s[1..]
    else Zeros(width - |s|) + s
  }

  /** A string without a sign and not longer than `width` is padded as zeros followed by itself. */
  lemma ZFillUnsigned(s: string, width: nat)
    requires s == [] || !IsSign(s[0])
    requires |s| <= width
    ensures ZFill(s, width) == Zeros(width - |s|) + s
  {
  }

  /** `s[:n]`: Python slicing never fails, it stops at the end of the string. */
  function Take(s: string, n: nat): (r: string)
    ensures |r| == if |s| <= n then |s| else n
    ensures r == s[..|r|]
  {
    if |s| <= n then s else s[..n]
  }

  // ---------------------------------------------------------------------------
  // Decimal digits
  // ---------------------------------------------------------------------------

  predicate IsDigit(c: char) { '0' <= c <= '9' }

  predicate IsDigits(s: string) {
    forall i :: 0 <= i < |s| ==> IsDigit(s[i])
  }

  function DigitValue(c: char): nat
    requires IsDigit(c)
  {
    c as int - '0' as int
  }

  function DigitChar(d: nat): (c: char)
    requires d < 10
    ensures IsDigit(c) && DigitValue(c) == d
  {
    ('0' as int + d) as char
  }

  function Pow10(k: nat): (p: nat)
    ensures p >= 1
  {
    if k == 0 then 1 else 10 * Pow10(k - 1)
  }

  /** The number a string of decimal digits denotes (most significant digit first). */
  function DigitsValue(s: string): nat
    requires IsDigits(s)
  {
    if s == [] then 0 else DigitsValue(s[..|s| - 1]) * 10 + DigitValue(s[|s| - 1])
  }

  /**
    * `str(n)` for a natural number: the canonical decimal text, which denotes
    * `n` and has no leading zero.
    */
  function NatToDecimal(n: nat): (r: string)
    ensures |r| >= 1 && IsDigits(r)
    ensures (|r| > 1 || n >= 1) ==> r[0] != '0'
    ensures DigitsValue(r) == n
  {
    if n < 10 then [DigitChar(n)]
    else
      var p := NatToDecimal(n / 10);
      var r := p + [DigitChar(n % 10)];
      assert r[..|r| - 1] == p;
      r
  }

  /** `str(i)` for a Python int: a minus sign before the digits of a negative number. */
  function IntToDecimal(i: int): (r: string)
    ensures |r| >= 1
    ensures i >= 0 ==> r == NatToDecimal(i)
    ensures i < 0 ==> r[0] == '-' && r[1..] == NatToDecimal(-i)
  {
    if i < 0 then "-" + NatToDecimal(-i) else NatToDecimal(i)
  }

  /** A leading zero does not change the value of a digit string. */
  lemma {:induction false} LeadingZeroValue(s: string)
    requires IsDigits(s)
    ensures IsDigits("0" + s) && DigitsValue("0" + s) == DigitsValue(s)
    decreases |s|
  {
    var t := "0" + s;
    if s != [] {
      assert t[..|t| - 1] == "0" + s[..|s| - 1];
      LeadingZeroValue(s[..|s| - 1]);
    }
  }

  /** Any number of leading zeros leaves the value unchanged. */
  lemma {:induction false} ZerosValue(k: nat, s: string)
    requires IsDigits(s)
    ensures IsDigits(Zeros(k) + s) && DigitsValue(Zeros(k) + s) == DigitsValue(s)
    decreases k
  {
    if k > 0 {
      var t := Zeros(k - 1) + s;
      ZerosValue(k - 1, s);
      assert Zeros(k) + s == "0" + t;
      LeadingZeroValue(t);
      assert DigitsValue("0" + t) == DigitsValue(t);
    } else {
      assert Zeros(k) + s == s;
    }
  }

  /** A digit string that starts with a non-zero digit denotes a positive number. */
  lemma {:induction false} LeadingDigitPositive(s: string)
    requires IsDigits(s) && s != [] && s[0] != '0'
    ensures DigitsValue(s) >= 1
    decreases |s|
  {
    if |s| > 1 {
      LeadingDigitPositive(s[..|s| - 1]);
    }
  }

  /**
    * Rendering is the inverse of reading for canonical digit strings: a digit
    * string without a leading zero is exactly `str()` of the number it denotes.
    */
  lemma {:induction false} CanonicalDecimal(s: string)
    requires IsDigits(s) && s != []
    requires |s| == 1 || s[0] != '0'
    ensures NatToDecimal(DigitsValue(s)) == s
    decreases |s|
  {
    var n := DigitsValue(s);
    if |s| == 1 {
      assert s[..|s| - 1] == [];
      assert n == DigitsValue(s[..|s| - 1]) * 10 + DigitValue(s[0]);
      assert s == [s[0]];
    } else {
      var p := s[..|s| - 1];
      LeadingDigitPositive(p);
      assert n / 10 == DigitsValue(p) && n % 10 == DigitValue(s[|s| - 1]);
      CanonicalDecimal(p);
      assert s == p + [s[|s| - 1]];
    }
  }

  /**
    * A code of exactly `|s|` digits is reproduced by "parse, render, zero-pad
    * to `|s|`": this is why normalising an already normalised code changes nothing.
    */
  lemma {:induction false} ZFillCanonical(s: string)
    requires IsDigits(s) && s != []
    ensures ZFill(NatToDecimal(DigitsValue(s)), |s|) == s
    decreases |s|
  {
    if |s| == 1 || s[0] != '0' {
      CanonicalDecimal(s);
    } else {
      var t := s[1..];
      assert s == "0" + t;
      LeadingZeroValue(t);
      ZFillCanonical(t);
      PadOneMore(NatToDecimal(DigitsValue(t)), t);
    }
  }

  /** Digits that pad to `t` pad to one more zero in front of `t` at one more width. */
  lemma PadOneMore(d: string, t: string)
    requires IsDigits(d) && d != [] && ZFill(d, |t|) == t
    ensures ZFill(d, |t| + 1) == "0" + t
  {
    assert !IsSign(d[0]);
    ZFillUnsigned(d, |t|);
    ZFillUnsigned(d, |t| + 1);
    var z := Zeros(|t| - |d|);
    ZerosCons(|t| + 1 - |d|);
    AppendAssoc("0", z, d);
  }

  /** One more zero in front. */
  lemma ZerosCons(n: nat)
    requires n >= 1
    ensures Zeros(n) == "0" + Zeros(n - 1)
  {
    assert forall i :: 0 <= i < n ==> Zeros(n)[i] == ("0" + Zeros(n - 1))[i];
  }

  lemma AppendAssoc(a: string, b: string, c: string)
    ensures (a + b) + c == a + (b + c)
  {
  }

  /** `str(n)` has at most `k` digits exactly when `n < 10^k`. */
  lemma {:induction false} DecimalLength(n: nat, k: nat)
    requires k >= 1
    ensures |NatToDecimal(n)| <= k <==> n < Pow10(k)
    decreases n
  {
    if n >= 10 {
      if k == 1 {
        assert |NatToDecimal(n)| == |NatToDecimal(n / 10)| + 1;
      } else {
        DecimalLength(n / 10, k - 1);
        assert n / 10 < Pow10(k - 1) <==> n < 10 * Pow10(k - 1);
      }
    }
  }

  lemma DropLastDigitSmall(n: nat, w: nat)
    requires w >= 2 && n < 10
    ensures ZFill(NatToDecimal(n), w)[..w - 1] == ZFill(NatToDecimal(n / 10), w - 1)
  {
    var d := NatToDecimal(n);
    assert |d| == 1;
    ZFillUnsigned(d, w);
    assert ZFill(d, w)[..w - 1] == Zeros(w - 1);
    assert NatToDecimal(n / 10) == "0";
    ZFillUnsigned("0", w - 1);
    assert Zeros(w - 2) + "0" == Zeros(w - 1);
  }

  lemma DropLastDigitLarge(n: nat, w: nat)
    requires w >= 2 && n >= 10
    requires |NatToDecimal(n)| <= w
    ensures ZFill(NatToDecimal(n), w)[..w - 1] == ZFill(NatToDecimal(n / 10), w - 1)
  {
    var d := NatToDecimal(n);
    var p := NatToDecimal(n / 10);
    assert d == p + [DigitChar(n % 10)];
    assert |d| == |p| + 1;
    ZFillUnsigned(d, w);
    ZFillUnsigned(p, w - 1);
    var z := Zeros(w - |d|);
    assert z + d == (z + p) + [DigitChar(n % 10)];
    assert (z + d)[..w - 1] == z + p;
    assert z == Zeros(w - 1 - |p|);
  }

  /**
    * Cutting the last character of a zero-padded code is integer division by
    * ten: for `n < 10^w` (w >= 2), the first `w - 1` characters of `n` padded
    * to `w` are `n / 10` padded to `w - 1`.
    */
  lemma DropLastDigit(n: nat, w: nat)
    requires w >= 2 && n < Pow10(w)
    ensures |ZFill(NatToDecimal(n), w)| == w
    ensures ZFill(NatToDecimal(n), w)[..w - 1] == ZFill(NatToDecimal(n / 10), w - 1)
  {
    DecimalLength(n, w);
    if n < 10 {
      DropLastDigitSmall(n, w);
    } else {
      DropLastDigitLarge(n, w);
    }
  }

  // ---------------------------------------------------------------------------
  // Parsing numbers
  // ---------------------------------------------------------------------------

  /** Position of the first '.' in `s`, or `|s|` when there is none. */
  function FindDot(s: string): (k: nat)
    ensures k <= |s|
    ensures forall i :: 0 <= i < k ==> s[i] != '.'
    ensures k < |s| ==> s[k] == '.'
  {
    if s == [] then 0
    else if s[0] == '.' then 0
    else 1 + FindDot(s[1..])
  }

  /** An unsigned decimal: digits, optionally a point and more digits, at least one digit in all. */
  function ParseUnsigned(s: string): Option<real> {
    var k := FindDot(s);
    if k == |s| then
      if s != [] && IsDigits(s) then Some(DigitsValue(s) as real) else None
    else
      var whole, frac := s[..k], s[k + 1..];
      if IsDigits(whole) && IsDigits(frac) && |whole| + |frac| >= 1 then
        Some(DigitsValue(whole) as real + DigitsValue(frac) as real / Pow10(|frac|) as real)
      else None
  }

  /** An optional sign and an unsigned decimal. */
  function ParseSigned(s: string): Option<real> {
    if s != [] && IsSign(s[0]) then
      match ParseUnsigned(s[1..])
      case None => None
      case Some(v) => Some(if s[0] == '-' then -v else v)
    else ParseUnsigned(s)
  }

  /**
    * The whitespace pandas' string-to-number routine skips before and after
    * the number: space and ASCII tab to carriage return. Unlike `IsSpace`,
    * no other character counts.
    */
  predicate IsAsciiSpace(c: char) {
    c == ' ' || ('\t' <= c <= '\r')
  }

  /** Drops the leading run of ASCII whitespace. */
  function SkipAsciiStart(s: string): string
  {
    if s != [] && IsAsciiSpace(s[0]) then SkipAsciiStart(s[1..]) else s
  }

  /** Drops the trailing run of ASCII whitespace. */
  function SkipAsciiEnd(s: string): string
  {
    if s != [] && IsAsciiSpace(s[|s| - 1]) then SkipAsciiEnd(s[..|s| - 1]) else s
  }

  /**
    * `pd.to_numeric` on one string: ASCII whitespace around the number is
    * skipped, and what remains must be an optional sign and an unsigned
    * decimal; anything else does not parse (with `errors="coerce"` it
    * becomes NaN).
    */
  function ParseNumber(s: string): Option<real> {
    ParseSigned(SkipAsciiEnd(SkipAsciiStart(s)))
  }

  /** A text with no ASCII whitespace at either end is parsed as it stands. */
  lemma ParseUnpadded(s: string)
    requires s == [] || (!IsAsciiSpace(s[0]) && !IsAsciiSpace(s[|s| - 1]))
    ensures ParseNumber(s) == ParseSigned(s)
  {
    assert SkipAsciiStart(s) == s;
    assert SkipAsciiEnd(s) == s;
  }

  /** Leading ASCII whitespace is skipped whatever follows it. */
  lemma {:induction false} SkipStartPadded(pre: string, t: string)
    requires forall i :: 0 <= i < |pre| ==> IsAsciiSpace(pre[i])
    ensures SkipAsciiStart(pre + t) == SkipAsciiStart(t)
  {
    if pre == [] {
      assert pre + t == t;
    } else {
      assert (pre + t)[0] == pre[0] && (pre + t)[1..] == pre[1..] + t;
      SkipStartPadded(pre[1..], t);
    }
  }

  /** Trailing ASCII whitespace is skipped whatever precedes it. */
  lemma {:induction false} SkipEndPadded(t: string, post: string)
    requires forall i :: 0 <= i < |post| ==> IsAsciiSpace(post[i])
    ensures SkipAsciiEnd(t + post) == SkipAsciiEnd(t)
  {
    if post == [] {
      assert t + post == t;
    } else {
      var p := post[..|post| - 1];
      assert (t + post)[|t + post| - 1] == post[|post| - 1];
      assert (t + post)[..|t + post| - 1] == t + p;
      SkipEndPadded(t, p);
    }
  }

  /** Skipping both ends of `t + post` gives what skipping both ends of `t` gives. */
  lemma {:induction false} SkipBothPadded(t: string, post: string)
    requires forall i :: 0 <= i < |post| ==> IsAsciiSpace(post[i])
    ensures SkipAsciiEnd(SkipAsciiStart(t + post)) == SkipAsciiEnd(SkipAsciiStart(t))
  {
    if t == [] {
      SkipStartPadded(post, []);
      assert t + post == post + [];
    } else if IsAsciiSpace(t[0]) {
      assert (t + post)[1..] == t[1..] + post;
      SkipBothPadded(t[1..], post);
    } else {
      assert SkipAsciiStart(t + post) == t + post;
      SkipEndPadded(t, post);
    }
  }

  /**
    * ASCII whitespace around a text does not change how it parses, so
    * `" 12 "` parses as `"12"` does.
    */
  lemma ParsePadded(pre: string, t: string, post: string)
    requires forall i :: 0 <= i < |pre| ==> IsAsciiSpace(pre[i])
    requires forall i :: 0 <= i < |post| ==> IsAsciiSpace(post[i])
    ensures ParseNumber(pre + t + post) == ParseNumber(t)
  {
    assert pre + t + post == pre + (t + post);
    SkipStartPadded(pre, t + post);
    SkipBothPadded(t, post);
  }

  /** pandas parses `" 12 "` as 12: the spaces around the number are skipped. */
  lemma ParseSpacedNumber()
    ensures ParseNumber(" 12 ") == Some(12.0)
  {
    assert SkipAsciiStart(" 12 ") == "12 ";
    assert SkipAsciiEnd("12 ") == "12";
    assert DigitsValue("12") == 12 by {
      assert "12"[..1] == "1";
    }
    ParseDigits("12");
  }

  /** Only surrounding whitespace is skipped: a space inside the number stops it from parsing. */
  lemma ParseInnerSpace()
    ensures ParseNumber("1 2") == None
  {
    ParseUnpadded("1 2");
    assert FindDot("1 2") == 3;
    assert !IsDigit("1 2"[1]);
  }

  /** A digit string parses to the number it denotes. */
  lemma ParseDigits(s: string)
    requires IsDigits(s) && s != []
    ensures ParseNumber(s) == Some(DigitsValue(s) as real)
  {
    ParseUnpadded(s);
    assert !IsSign(s[0]);
    assert forall i :: 0 <= i < |s| ==> s[i] != '.';
    assert FindDot(s) == |s|;
  }

  /** Zero padding a natural number's digits keeps a digit string of the same value. */
  lemma PaddedDigits(n: nat, w: nat)
    ensures IsDigits(ZFill(NatToDecimal(n), w)) && ZFill(NatToDecimal(n), w) != []
    ensures DigitsValue(ZFill(NatToDecimal(n), w)) == n
  {
    var d := NatToDecimal(n);
    if |d| < w {
      ZFillUnsigned(d, w);
      ZerosValue(w - |d|, d);
    }
  }

  /** A minus sign followed by digits parses to the negated value. */
  lemma ParseNegativeDigits(body: string)
    requires IsDigits(body) && body != []
    ensures ParseNumber("-" + body) == Some(-(DigitsValue(body) as real))
  {
    var s := "-" + body;
    assert s[1..] == body;
    ParseUnpadded(s);
    ParseDigits(body);
    assert ParseUnsigned(body) == Some(DigitsValue(body) as real) by {
      assert !IsSign(body[0]);
    }
  }

  /** A zero-padded minus sign and digits parse to the negated value of the digits. */
  lemma ParsePaddedNegative(d: string, w: nat)
    requires IsDigits(d) && d != []
    ensures ParseNumber(ZFill("-" + d, w)) == Some(-(DigitsValue(d) as real))
  {
    if 1 + |d| < w {
      PaddedNegativeBody(d, w);
      ParseZerosNegative(w - 1 - |d|, d);
    } else {
      ParseNegativeDigits(d);
    }
  }

  /** Zeros between the minus sign and the digits do not change the parsed value. */
  lemma ParseZerosNegative(k: nat, d: string)
    requires IsDigits(d) && d != []
    ensures ParseNumber("-" + (Zeros(k) + d)) == Some(-(DigitsValue(d) as real))
  {
    ZerosValue(k, d);
    ParseNegativeDigits(Zeros(k) + d);
  }

  /** Padding a negative rendering puts the zeros between the sign and the digits. */
  lemma PaddedNegativeBody(d: string, w: nat)
    requires 1 + |d| < w
    ensures ZFill("-" + d, w) == "-" + (Zeros(w - 1 - |d|) + d)
  {
    var s := "-" + d;
    assert s[0] == '-' && s[1..] == d;
  }

  lemma ParseRenderedNegative(i: int, w: nat)
    requires i < 0
    ensures ParseNumber(ZFill(IntToDecimal(i), w)) == Some(i as real)
  {
    var d := NatToDecimal(-i);
    assert IntToDecimal(i) == "-" + d;
    ParsePaddedNegative(d, w);
  }

  /**
    * Reading back a rendered, zero-padded integer gives the integer: the
    * parse half of the round trip that code normalisation relies on.
    */
  lemma ParseRendered(i: int, w: nat)
    ensures ParseNumber(ZFill(IntToDecimal(i), w)) == Some(i as real)
  {
    if i >= 0 {
      PaddedDigits(i, w);
      ParseDigits(ZFill(NatToDecimal(i), w));
    } else {
      ParseRenderedNegative(i, w);
    }
  }

  // ---------------------------------------------------------------------------
  // Integer conversion
  // ---------------------------------------------------------------------------

  /** `int(x)` / `astype(int)`: truncation toward zero. */
  function Trunc(x: real): (r: int)
    ensures x >= 0.0 ==> r as real <= x < r as real + 1.0
    ensures x < 0.0 ==> r as real - 1.0 < x <= r as real
  {
    if x >= 0.0 then x.Floor else -((-x).Floor)
  }

  predicate IsIntegral(x: real) { x == x.Floor as real }
}
