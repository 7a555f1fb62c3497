/**
 * The JavaScript string and number built-ins the application relies on:
 * `parseInt` without a radix (section 19.2.5 of ECMA-262), `Number.prototype.toString`
 * on integers, `String.prototype.padStart`, `includes`, and ASCII case conversion.
 * JavaScript numbers are modelled as unbounded integers; `NaN` is `None`.
 */
module JsText {
  import opened Wrappers

  predicate IsDecimalDigit(c: char) { '0' <= c <= '9' }

  predicate IsHexDigit(c: char) { IsDecimalDigit(c) || 'a' <= c <= 'f' || 'A' <= c <= 'F' }

  /** A digit of radix 10 or 16, the only two radices `parseInt` without a radix argument uses. */
  predicate IsRadixDigit(c: char, hex: bool) { if hex then IsHexDigit(c) else IsDecimalDigit(c) }

  predicate AllRadixDigits(s: string, hex: bool) { forall i :: 0 <= i < |s| ==> IsRadixDigit(s[i], hex) }

  function DigitValue(c: char): (v: nat)
    requires IsHexDigit(c)
    ensures IsDecimalDigit(c) ==> v < 10
    ensures v < 16
  {
    if IsDecimalDigit(c) then c as int - '0' as int
    else if 'a' <= c <= 'f' then c as int - 'a' as int + 10
    else c as int - 'A' as int + 10
  }

  function DigitChar(d: nat): (c: char)
    requires d < 10
    ensures IsDecimalDigit(c) && DigitValue(c) == d
  {
    ('0' as int + d) as char
  }

  /** WhiteSpace (section 12.2 of ECMA-262: TAB, VT, FF, ZWNBSP and the Unicode category Zs)
      and LineTerminator (section 12.3: LF, CR, LS, PS), which `parseInt` trims first. */
  predicate IsJsWhitespace(c: char) {
    c == '\t' || c == '\n' || c == '\U{000B}' || c == '\U{000C}' || c == '\r' || c == ' '
    || c == '\U{00A0}' || c == '\U{1680}' || ('\U{2000}' <= c <= '\U{200A}')
    || c == '\U{2028}' || c == '\U{2029}' || c == '\U{202F}' || c == '\U{205F}'
    || c == '\U{3000}' || c == '\U{FEFF}'
  }

  function TrimStart(s: string): (r: string)
    ensures r == [] || !IsJsWhitespace(r[0])
    ensures |r| <= |s| && r == s[|s| - |r|..]
    ensures forall i :: 0 <= i < |s| - |r| ==> IsJsWhitespace(s[i])
  {
    if s != [] && IsJsWhitespace(s[0]) then TrimStart(s[1..]) else s
  }

  /** The longest prefix of `s` made of digits of the radix. */
  function DigitPrefix(s: string, hex: bool): (r: string)
    ensures r <= s
    ensures AllRadixDigits(r, hex)
    ensures |r| == |s| || !IsRadixDigit(s[|r|], hex)
  {
    if s != [] && IsRadixDigit(s[0], hex) then [s[0]] + DigitPrefix(s[1..], hex) else []
  }

  /** The value of a digit string read most significant digit first. */
  function DigitsValue(d: string, hex: bool): nat
    requires AllRadixDigits(d, hex)
  {
    if d == [] then 0
    else DigitsValue(d[..|d| - 1], hex) * (if hex then 16 else 10) + DigitValue(d[|d| - 1])
  }

  /** The digits after the optional sign: a `0x`/`0X` prefix selects radix 16, otherwise radix 10,
      and the longest run of digits of that radix is read; no digits gives NaN (`None`). */
  function ParseUnsigned(u: string): Option<nat>
  {
    var hex := |u| >= 2 && u[0] == '0' && (u[1] == 'x' || u[1] == 'X');
    var z := DigitPrefix(if hex then u[2..] else u, hex);
    if z == [] then None else Some(DigitsValue(z, hex))
  }

  /** `parseInt(s)` with no radix: skip leading white space, read an optional sign, then the digits. */
  function ParseInt(s: string): Option<int>
  {
    var t := TrimStart(s);
    var negative := t != [] && t[0] == '-';
    var u := if t != [] && (t[0] == '-' || t[0] == '+') then t[1..] else t;
    match ParseUnsigned(u)
    case None => None
    case Some(v) => Some(if negative then -(v as int) else v as int)
  }

  /** The decimal representation of a natural number, as `String(n)` gives it. */
  function NatToString(n: nat): (s: string)
    ensures |s| > 0 && AllRadixDigits(s, false)
  {
    if n < 10 then [DigitChar(n)] else NatToString(n / 10) + [DigitChar(n % 10)]
  }

  /** `String(i)` for an integer-valued number. */
  function IntToString(i: int): string
  {
    if i < 0 then "-" + NatToString(-i) else NatToString(i)
  }

  /** `s.padStart(width, c)` with a one-character pad string. */
  function PadStart(s: string, width: nat, c: char): (r: string)
    ensures |r| == if |s| >= width then |s| else width
    ensures r[|r| - |s|..] == s
    ensures forall i :: 0 <= i < |r| - |s| ==> r[i] == c
  {
    if |s| >= width then s else seq(width - |s|, _ => c) + s
  }

  function LowerChar(c: char): char { if 'A' <= c <= 'Z' then (c as int + 32) as char else c }

  function UpperChar(c: char): char { if 'a' <= c <= 'z' then (c as int - 32) as char else c }

  /** `s.toLowerCase()` on the ASCII letters. */
  function ToLower(s: string): (r: string)
    ensures |r| == |s| && forall i :: 0 <= i < |s| ==> r[i] == LowerChar(s[i])
  {
    seq(|s|, i requires 0 <= i < |s| => LowerChar(s[i]))
  }

  /** `s.charAt(0).toUpperCase() + s.slice(1)`. */
  function Capitalize(s: string): (r: string)
    ensures |r| == |s|
    ensures s != [] ==> r[0] == UpperChar(s[0]) && r[1..] == s[1..]
  {
    if s == [] then [] else [UpperChar(s[0])] + s[1..]
  }

  /** `hay.includes(needle)`. */
  predicate Includes(hay: string, needle: string) {
    exists i :: 0 <= i <= |hay| && OccursAt(hay, needle, i)
  }

  predicate OccursAt(hay: string, needle: string, i: nat) {
    i + |needle| <= |hay| && hay[i..i + |needle|] == needle
  }

  // ---------------------------------------------------------------------------------------------
  // Properties

  lemma {:induction false} DigitsValueSnoc(d: string, c: char, hex: bool)
    requires AllRadixDigits(d, hex) && IsRadixDigit(c, hex)
    ensures AllRadixDigits(d + [c], hex)
    ensures DigitsValue(d + [c], hex) == DigitsValue(d, hex) * (if hex then 16 else 10) + DigitValue(c)
  {
    assert (d + [c])[..|d + [c]| - 1] == d;
  }

  /** Reading back the decimal representation gives the number. */
  lemma {:induction false} NatToStringValue(n: nat)
    ensures DigitsValue(NatToString(n), false) == n
  {
    if n >= 10 {
      NatToStringValue(n / 10);
      DigitsValueSnoc(NatToString(n / 10), DigitChar(n % 10), false);
    }
  }

  /** Leading zeros do not change the value of a digit string. */
  lemma {:induction false} LeadingZerosValue(k: nat, d: string)
    requires AllRadixDigits(d, false)
    ensures AllRadixDigits(seq(k, _ => '0') + d, false)
    ensures DigitsValue(seq(k, _ => '0') + d, false) == DigitsValue(d, false)
  {
    var z := seq(k, _ => '0');
    if d == [] {
      assert z + d == z;
      ZerosValue(k);
    } else {
      var d' := d[..|d| - 1];
      LeadingZerosValue(k, d');
      assert z + d == (z + d') + [d[|d| - 1]];
      DigitsValueSnoc(z + d', d[|d| - 1], false);
      DigitsValueSnoc(d', d[|d| - 1], false);
      assert d == d' + [d[|d| - 1]];
    }
  }

  lemma {:induction false} ZerosValue(k: nat)
    ensures AllRadixDigits(seq(k, _ => '0'), false)
    ensures DigitsValue(seq(k, _ => '0'), false) == 0
  {
    if k > 0 {
      ZerosValue(k - 1);
      assert seq(k, _ => '0') == seq(k - 1, _ => '0') + ['0'];
      DigitsValueSnoc(seq(k - 1, _ => '0'), '0', false);
    }
  }

  lemma {:induction false} DigitPrefixOfRun(d: string, rest: string, hex: bool)
    requires AllRadixDigits(d, hex)
    requires rest == [] || !IsRadixDigit(rest[0], hex)
    ensures DigitPrefix(d + rest, hex) == d
  {
    if d != [] {
      assert (d + rest)[1..] == d[1..] + rest;
      DigitPrefixOfRun(d[1..], rest, hex);
    } else {
      assert d + rest == rest;
    }
  }

  /** A string that starts with a decimal digit has no white space or sign to skip. */
  lemma ParseIntUnsigned(s: string)
    requires s != [] && IsDecimalDigit(s[0])
    ensures ParseInt(s) == if ParseUnsigned(s).None? then None else Some(ParseUnsigned(s).value)
  {
    assert !IsJsWhitespace(s[0]);
    assert TrimStart(s) == s;
  }

  /** `parseInt` reads the longest decimal prefix: a non-empty run of decimal digits followed by
      anything that does not continue it gives the run's value, unless the run is a single `0`
      followed by `x` or `X`, which switches to hexadecimal. */
  lemma ParseIntDecimalRun(d: string, rest: string)
    requires |d| > 0 && AllRadixDigits(d, false)
    requires rest == [] || !IsDecimalDigit(rest[0])
    requires !(d == "0" && rest != [] && (rest[0] == 'x' || rest[0] == 'X'))
    ensures ParseInt(d + rest) == Some(DigitsValue(d, false))
  {
    var s := d + rest;
    assert s[0] == d[0];
    ParseIntUnsigned(s);
    assert !(|s| >= 2 && s[0] == '0' && (s[1] == 'x' || s[1] == 'X')) by {
      if |s| >= 2 && s[0] == '0' {
        if |d| >= 2 {
          assert s[1] == d[1];
        } else {
          assert d == "0";
          assert s[1] == rest[0];
        }
      }
    }
    DigitPrefixOfRun(d, rest, false);
    assert ParseUnsigned(s) == Some(DigitsValue(d, false));
  }

  /** Parsing the decimal representation of a natural number gives it back. */
  lemma ParseIntNatToString(n: nat)
    ensures ParseInt(NatToString(n)) == Some(n)
  {
    assert NatToString(n) + [] == NatToString(n);
    NatToStringValue(n);
    ParseIntDecimalRun(NatToString(n), []);
  }

  /** Parsing a zero-padded decimal representation gives the number back. */
  lemma ParseIntPadded(n: nat, width: nat)
    ensures ParseInt(PadStart(NatToString(n), width, '0')) == Some(n)
  {
    var s := NatToString(n);
    var p := PadStart(s, width, '0');
    if |s| >= width {
      ParseIntNatToString(n);
    } else {
      var k := width - |s|;
      assert p == seq(k, _ => '0') + s;
      LeadingZerosValue(k, s);
      NatToStringValue(n);
      assert p + [] == p;
      ParseIntDecimalRun(p, []);
    }
  }

  /** `parseInt("12abc")` is 12: trailing non-digits are ignored. */
  lemma ParseIntTrailingText()
    ensures ParseInt("12abc") == Some(12)
  {
    assert "12abc" == "12" + "abc";
    assert "12"[..1] == "1" && "1"[..0] == [];
    assert DigitsValue("12", false) == 12;
    ParseIntDecimalRun("12", "abc");
  }

  /** After `0x` or `0X`, `parseInt` reads the longest run of hexadecimal digits. */
  lemma ParseIntHexRun(x: char, h: string, rest: string)
    requires x == 'x' || x == 'X'
    requires |h| > 0 && AllRadixDigits(h, true)
    requires rest == [] || !IsHexDigit(rest[0])
    ensures ParseInt(['0', x] + h + rest) == Some(DigitsValue(h, true))
  {
    var t := h + rest;
    var s := ['0', x] + t;
    assert s == ['0', x] + h + rest;
    assert s[0] == '0' && s[1] == x && s[2..] == t;
    ParseIntUnsigned(s);
    DigitPrefixOfRun(h, rest, true);
    assert ParseUnsigned(s) == Some(DigitsValue(h, true));
  }

  /** `parseInt("0x1A")` is 26: a `0x` prefix selects hexadecimal. */
  lemma ParseIntHexPrefix()
    ensures ParseInt("0x1A") == Some(26)
  {
    assert "0x1A" == ['0', 'x'] + "1A" + [];
    assert "1A"[..1] == "1" && "1"[..0] == [];
    assert DigitsValue("1A", true) == 26;
    ParseIntHexRun('x', "1A", []);
  }

  /** Text that starts with something other than white space, a sign or a digit is NaN. */
  lemma ParseIntNoDigit(s: string)
    requires s == [] || (!IsJsWhitespace(s[0]) && s[0] != '-' && s[0] != '+' && !IsDecimalDigit(s[0]))
    ensures ParseInt(s) == None
  {
    if s != [] {
      assert TrimStart(s) == s;
      assert DigitPrefix(s, false) == [];
    }
  }

  /** `parseInt("abc")` and `parseInt("")` are NaN. */
  lemma ParseIntLetters()
    ensures ParseInt("abc") == None
    ensures ParseInt("") == None
  {
    ParseIntNoDigit("abc");
    ParseIntNoDigit("");
  }

  /** Lowercasing is idempotent. */
  lemma ToLowerIdempotent(s: string)
    ensures ToLower(ToLower(s)) == ToLower(s)
  {
  }
}
