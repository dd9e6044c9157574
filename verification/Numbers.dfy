/** Decimal and hexadecimal printing, and the strtoull family behind stoul and stoull. */
module Numbers {
  import opened Wrappers
  import opened Text

  const TWO_64: nat := 0x1_0000_0000_0000_0000

  /** size_t addition. */
  function AddSize(a: nat, b: nat): (n: nat)
    ensures a + b < TWO_64 ==> n == a + b
    ensures a < TWO_64 && b < TWO_64 <= a + b ==> n == a + b - TWO_64
  {
    (a + b) % TWO_64
  }

  function DigitValue(c: char): (d: nat)
  {
    if '0' <= c <= '9' then c as nat - '0' as nat
    else if 'a' <= c <= 'f' then c as nat - 'a' as nat + 10
    else if 'A' <= c <= 'F' then c as nat - 'A' as nat + 10
    else 99
  }

  function DigitChar(d: nat): (c: char)
    requires d < 16
    ensures DigitValue(c) == d
    ensures '0' <= c <= '9' || 'A' <= c <= 'F'
  {
    if d < 10 then ('0' as int + d) as char else ('A' as int + d - 10) as char
  }

  const LOWER := "0123456789abcdef"
  const UPPER := "0123456789ABCDEF"

  /** Digits are printed in upper case and read in both, ... */
  lemma {:induction false} DigitsAreStandard(d: nat)
    requires d < 16
    ensures DigitChar(d) == UPPER[d] && DigitValue(LOWER[d]) == d && DigitValue(UPPER[d]) == d
  {
  }

  /** ... and nothing else is a digit. */
  lemma {:induction false} NothingElseIsDigit(c: char)
    requires c !in LOWER && c !in UPPER
    ensures DigitValue(c) >= 16
  {
  }

  predicate AllDigits(s: string, base: nat) {
    forall k :: 0 <= k < |s| ==> DigitValue(s[k]) < base
  }

  /** The bases in use: octal, decimal and hexadecimal. */
  type Base = b: nat | b == 8 || b == 10 || b == 16 witness 10

  function Shift(n: nat, base: Base): nat {
    if base == 8 then n * 8 else if base == 10 then n * 10 else n * 16
  }

  /** The number a digit string denotes. */
  function Value(s: string, base: Base): nat {
    if s == "" then 0 else Shift(Value(s[..|s| - 1], base), base) + DigitValue(s[|s| - 1])
  }

  /** ostream << n, in `std::dec` (base 10) or `std::hex` with `std::uppercase` (base 16). */
  function Digits(n: nat, base: Base): (s: string)
    ensures s != "" && AllDigits(s, base) && (s[0] == '0' <==> n == 0) && (n == 0 ==> |s| == 1)
    ensures forall k :: 0 <= k < |s| ==> '0' <= s[k] <= '9' || 'A' <= s[k] <= 'F'
    decreases n
  {
    if n < base then [DigitChar(n)]
    else if base == 8 then Digits(n / 8, base) + [DigitChar(n % 8)]
    else if base == 10 then Digits(n / 10, base) + [DigitChar(n % 10)]
    else Digits(n / 16, base) + [DigitChar(n % 16)]
  }

  lemma {:induction false} ValueOfDigits(n: nat, base: Base)
    ensures Value(Digits(n, base), base) == n
    decreases n
  {
    var s := Digits(n, base);
    if n < base {
      assert s[..0] == "";
    } else {
      var q := if base == 8 then n / 8 else if base == 10 then n / 10 else n / 16;
      ValueOfDigits(q, base);
      assert s[..|s| - 1] == Digits(q, base);
    }
  }

  datatype Parsed = Parsed(value: nat, consumed: nat)

  /** Number of leading characters that are digits of `base`. */
  function DigitRun(s: string, base: nat): (n: nat)
    ensures n <= |s| && (forall k :: 0 <= k < n ==> DigitValue(s[k]) < base) && (n < |s| ==> DigitValue(s[n]) >= base)
  {
    if s == "" || DigitValue(s[0]) >= base then 0 else 1 + DigitRun(s[1..], base)
  }

  function SignLength(t: string): (n: nat)
    ensures n <= |t| && n <= 1
  {
    if t != "" && (t[0] == '-' || t[0] == '+') then 1 else 0
  }

  predicate HasHexPrefix(u: string) {
    |u| >= 3 && u[0] == '0' && (u[1] == 'x' || u[1] == 'X') && DigitValue(u[2]) < 16
  }

  /** The digits at the front of `u`; None stands for the two exceptions of stoul and stoull:
      no digits, or a value out of the 64-bit range. */
  function ParseDigits(u: string, base: Base): (r: Option<Parsed>)
    ensures r.Some? ==> r.value.value < TWO_64 && r.value.consumed <= |u|
  {
    var n := DigitRun(u, base);
    var v := Value(u[..n], base);
    if n == 0 || v >= TWO_64 then None else Some(Parsed(v, n))
  }

  /** The magnitude after the sign; base 0 means "chosen by prefix". */
  function ParseMagnitude(u: string, base: nat): (r: Option<Parsed>)
    requires base == 0 || base == 10
    ensures r.Some? ==> r.value.value < TWO_64 && r.value.consumed <= |u|
  {
    if base == 10 then ParseDigits(u, 10)
    else if HasHexPrefix(u) then
      var r := ParseDigits(u[2..], 16);
      if r.None? then None else Some(Parsed(r.value.value, r.value.consumed + 2))
    else if u != "" && u[0] == '0' then ParseDigits(u, 8)
    else ParseDigits(u, 10)
  }

  /** strtoull after the white space. A minus sign negates modulo 2^64. */
  function ParseNumber(t: string, base: nat): (r: Option<Parsed>)
    requires base == 0 || base == 10
    ensures r.Some? ==> r.value.value < TWO_64 && r.value.consumed <= |t|
  {
    var sign := SignLength(t);
    var r := ParseMagnitude(t[sign..], base);
    if r.None? then None
    else
      var v := r.value.value;
      Some(Parsed(if sign == 1 && t[0] == '-' && v > 0 then TWO_64 - v else v, r.value.consumed + sign))
  }

  function Strtoull(text: string, base: nat): (r: Option<Parsed>)
    requires base == 0 || base == 10
    ensures r.Some? ==> r.value.value < TWO_64 && r.value.consumed <= |text|
  {
    var white := Span(text, IsSpace);
    var r := ParseNumber(text[white..], base);
    if r.None? then None else Some(Parsed(r.value.value, r.value.consumed + white))
  }

  /** stoul(text): base 10, trailing text ignored. */
  function Stoul(text: string): (r: Option<nat>)
    ensures r.Some? ==> r.value < TWO_64
  {
    var r := Strtoull(text, 10);
    if r.None? then None else Some(r.value.value)
  }

  /** parseUnsigned of Connection.cpp: base chosen by prefix, the whole text must be consumed. */
  function ParseUnsigned(text: string): (r: Option<nat>)
    ensures r.Some? ==> r.value < TWO_64
  {
    var r := Strtoull(text, 0);
    if r.None? || r.value.consumed != |text| then None else Some(r.value.value)
  }

  /** A printed number reads back: decimal ... */
  lemma {:induction false} ParsePrintedDecimal(n: nat)
    requires n < TWO_64
    ensures ParseUnsigned(Digits(n, 10)) == Some(n)
  {
    var s := Digits(n, 10);
    assert s[0..] == s;
    assert Span(s, IsSpace) == 0 && SignLength(s) == 0;
    if n == 0 {
      assert s == "0";
      assert DigitRun(s, 8) == 1;
      assert s[..1] == s && s[..0] == "";
      assert Value(s[..0], 8) == 0;
      assert Value(s, 8) == Shift(0, 8) + 0;
    } else {
      DigitsParse(n, 10);
    }
  }

  lemma {:induction false} DigitsParse(n: nat, base: Base)
    requires n < TWO_64
    ensures ParseDigits(Digits(n, base), base) == Some(Parsed(n, |Digits(n, base)|))
  {
    var s := Digits(n, base);
    ValueOfDigits(n, base);
    assert DigitRun(s, base) == |s|;
    assert s[..|s|] == s;
  }

  /** ... and hexadecimal behind "0x". */
  lemma {:induction false} ParsePrintedHex(n: nat)
    requires n < TWO_64
    ensures ParseUnsigned("0x" + Digits(n, 16)) == Some(n)
  {
    var d := Digits(n, 16);
    var s := "0x" + d;
    assert s[0..] == s && s[2..] == d;
    assert Span(s, IsSpace) == 0 && SignLength(s) == 0;
    assert HasHexPrefix(s);
    DigitsParse(n, 16);
  }

  // ---------- Numbers as people type them ----------

  /** The hexadecimal digits of n in any mix of cases, behind any number of zeros. */
  predicate IsHexOf(t: string, n: nat) {
    var d := Digits(n, 16);
    var zeros := |t| - |d|;
    && zeros >= 0 && (forall k :: 0 <= k < zeros ==> t[k] == '0')
    && forall k :: 0 <= k < |d| ==>
      t[zeros + k] == d[k] || ('A' <= d[k] <= 'F' && t[zeros + k] as int - 'a' as int == d[k] as int - 'A' as int)
  }

  /** The texts of n in the three bases that stoull tells apart by their prefix. */
  predicate IsNumberText(text: string, n: nat) {
    || text == Digits(n, 10)
    || text == "0" + Digits(n, 8)
    || (("0x" <= text || "0X" <= text) && IsHexOf(text[2..], n))
  }

  lemma {:induction false} ZerosAreNothing(t: string, k: nat)
    requires k <= |t| && forall j :: 0 <= j < k ==> t[j] == '0'
    ensures Value(t, 16) == Value(t[k..], 16)
    decreases |t|
  {
    if k == |t| {
      AllZeros(t);
      assert t[k..] == "";
    } else {
      ZerosAreNothing(t[..|t| - 1], k);
      assert t[k..][..|t| - k - 1] == t[..|t| - 1][k..];
    }
  }

  lemma {:induction false} AllZeros(t: string)
    requires forall j :: 0 <= j < |t| ==> t[j] == '0'
    ensures Value(t, 16) == 0
  {
    if t != "" {
      AllZeros(t[..|t| - 1]);
    }
  }

  lemma {:induction false} SameValue(s: string, t: string)
    requires |s| == |t| && forall k :: 0 <= k < |s| ==> DigitValue(s[k]) == DigitValue(t[k])
    ensures Value(s, 16) == Value(t, 16)
  {
    hide DigitValue;
    if s != "" {
      SameValue(s[..|s| - 1], t[..|t| - 1]);
    }
  }

  lemma {:induction false} LowerIsUpper(c: char, d: char)
    requires c == d || ('A' <= d <= 'F' && c as int - 'a' as int == d as int - 'A' as int)
    ensures DigitValue(c) == DigitValue(d)
  {
  }

  lemma {:induction false} HexValue(t: string, n: nat)
    requires IsHexOf(t, n)
    ensures t != "" && AllDigits(t, 16) && Value(t, 16) == n
  {
    hide DigitValue, Digits, Value;
    var d := Digits(n, 16);
    var zeros := |t| - |d|;
    forall k | 0 <= k < |d| ensures DigitValue(t[zeros + k]) == DigitValue(d[k]) {
      LowerIsUpper(t[zeros + k], d[k]);
    }
    assert DigitValue('0') == 0 by { ZeroDigit(); }
    ZerosAreNothing(t, zeros);
    SameValue(t[zeros..], d);
    ValueOfDigits(n, 16);
    forall k | 0 <= k < |t| ensures DigitValue(t[k]) < 16 {
      if k >= zeros {
        assert DigitValue(t[zeros + (k - zeros)]) == DigitValue(d[k - zeros]);
      }
    }
  }

  lemma {:induction false} ZeroDigit()
    ensures DigitValue('0') == 0
  {
  }

  lemma {:induction false} ParseDigitText(t: string, base: Base)
    requires t != "" && AllDigits(t, base) && Value(t, base) < TWO_64
    ensures ParseDigits(t, base) == Some(Parsed(Value(t, base), |t|))
  {
    hide Value;
    assert DigitRun(t, base) == |t|;
    assert t[..|t|] == t;
  }

  lemma {:induction false} ParseHex(text: string, n: nat)
    requires ("0x" <= text || "0X" <= text) && IsHexOf(text[2..], n) && n < TWO_64
    ensures ParseUnsigned(text) == Some(n)
  {
    hide IsHexOf, ParseDigits, Value, Digits;
    var t := text[2..];
    HexValue(t, n);
    ParseDigitText(t, 16);
    assert text[0] == '0' && (text[1] == 'x' || text[1] == 'X') && text[2] == t[0];
    assert text[0..] == text && Span(text, IsSpace) == 0 && SignLength(text) == 0;
    assert HasHexPrefix(text);
  }

  lemma {:induction false} ParseOctal(n: nat)
    requires n < TWO_64
    ensures ParseUnsigned("0" + Digits(n, 8)) == Some(n)
  {
    hide ParseDigits, Digits;
    var d := Digits(n, 8);
    var text := "0" + d;
    OctalValue(n);
    ParseDigitText(text, 8);
    assert text[0..] == text && Span(text, IsSpace) == 0 && SignLength(text) == 0;
    assert text[1] == d[0] && !HasHexPrefix(text);
  }

  lemma {:induction false} OctalValue(n: nat)
    ensures AllDigits("0" + Digits(n, 8), 8) && Value("0" + Digits(n, 8), 8) == n
  {
    hide Digits, DigitValue;
    ZeroDigit();
    ValueOfDigits(n, 8);
    LeadingZero(Digits(n, 8));
    var text := "0" + Digits(n, 8);
    assert forall k :: 1 <= k < |text| ==> text[k] == Digits(n, 8)[k - 1];
  }

  lemma {:induction false} LeadingZero(t: string)
    ensures Value("0" + t, 8) == Value(t, 8)
  {
    if t == "" {
      assert "0" + t == "0" && "0"[..0] == "";
    } else {
      var u := "0" + t;
      assert u[..|u| - 1] == "0" + t[..|t| - 1] && u[|u| - 1] == t[|t| - 1];
      LeadingZero(t[..|t| - 1]);
    }
  }

  /** Every text of a 64-bit number is read as that number: decimal, octal behind 0, hexadecimal behind 0x or 0X
      in any mix of cases. */
  lemma {:induction false} NumberTextParses(text: string, n: nat)
    requires IsNumberText(text, n) && n < TWO_64
    ensures ParseUnsigned(text) == Some(n)
  {
    hide ParseUnsigned, IsHexOf, Digits;
    if text == Digits(n, 10) {
      ParsePrintedDecimal(n);
    } else if text == "0" + Digits(n, 8) {
      ParseOctal(n);
    } else {
      ParseHex(text, n);
    }
  }

  predicate IsNumberChar(c: char) {
    '0' <= c <= '9' || 'a' <= c <= 'f' || 'A' <= c <= 'F' || c == 'x' || c == 'X'
  }

  lemma {:induction false} NumberChars(text: string, n: nat)
    requires IsNumberText(text, n)
    ensures text != "" && '0' <= text[0] <= '9' && forall k :: 0 <= k < |text| ==> IsNumberChar(text[k])
  {
    hide Digits, DigitValue;
    if text != Digits(n, 10) && text != "0" + Digits(n, 8) {
      HexChars(text[2..], n);
      assert text[0] == '0' && (text[1] == 'x' || text[1] == 'X');
      forall k | 0 <= k < |text| ensures IsNumberChar(text[k]) {
        if k >= 2 {
          assert text[k] == text[2..][k - 2];
        }
      }
    } else {
      FirstDigit(n);
    }
  }

  lemma {:induction false} FirstDigit(n: nat)
    ensures '0' <= Digits(n, 10)[0] <= '9'
  {
  }

  lemma {:induction false} HexChars(t: string, n: nat)
    requires IsHexOf(t, n)
    ensures forall k :: 0 <= k < |t| ==> IsNumberChar(t[k])
  {
    hide Digits;
    var d := Digits(n, 16);
    var zeros := |t| - |d|;
    forall k | 0 <= k < |t| ensures IsNumberChar(t[k]) {
      if k >= zeros {
        var c := d[k - zeros];
        assert t[zeros + (k - zeros)] == c || ('A' <= c <= 'F' && t[k] as int - 'a' as int == c as int - 'A' as int);
      }
    }
  }

  /** White space in front is skipped, a plus sign changes nothing, and a minus sign negates modulo 2^64. */
  lemma {:induction false} SignedParses(white: string, n: nat)
    requires 0 < n < TWO_64 && forall k :: 0 <= k < |white| ==> white[k] in " \t\n\r\U{0B}\U{0C}"
    ensures ParseUnsigned(white + Digits(n, 10)) == Some(n)
    ensures ParseUnsigned(white + ("+" + Digits(n, 10))) == Some(n)
    ensures ParseUnsigned(white + ("-" + Digits(n, 10))) == Some(TWO_64 - n)
  {
    hide ParseUnsigned, Digits;
    var d := Digits(n, 10);
    DigitsAreNoSpace(n);
    Unsigned(n);
    Signed(n);
    BehindWhite(white, d);
    BehindWhite(white, "+" + d);
    BehindWhite(white, "-" + d);
  }

  lemma {:induction false} Unsigned(n: nat)
    requires 0 < n < TWO_64
    ensures ParseUnsigned(Digits(n, 10)) == Some(n)
  {
    hide ParseUnsigned;
    ParsePrintedDecimal(n);
  }

  lemma {:induction false} Signed(n: nat)
    requires 0 < n < TWO_64
    ensures ParseUnsigned("+" + Digits(n, 10)) == Some(n) && ParseUnsigned("-" + Digits(n, 10)) == Some(TWO_64 - n)
  {
    hide ParseMagnitude, Digits;
    var d := Digits(n, 10);
    MagnitudeOfDigits(n);
    var plus, minus := "+" + d, "-" + d;
    assert plus[1..] == d && minus[1..] == d && plus[0..] == plus && minus[0..] == minus;
    assert Span(plus, IsSpace) == 0 && Span(minus, IsSpace) == 0;
  }

  lemma {:induction false} BehindWhite(white: string, t: string)
    requires (forall k :: 0 <= k < |white| ==> white[k] in " \t\n\r\U{0B}\U{0C}") && t != "" && !IsSpace(t[0])
    ensures ParseUnsigned(white + t) == ParseUnsigned(t)
  {
    hide ParseNumber;
    var s := white + t;
    assert forall k :: 0 <= k < |white| ==> s[k] == white[k] && IsSpace(white[k]);
    assert s[|white|] == t[0];
    assert Span(s, IsSpace) == |white| && s[|white|..] == t;
    assert Span(t, IsSpace) == 0 && t[0..] == t;
  }

  lemma {:induction false} DigitsAreNoSpace(n: nat)
    ensures var d := Digits(n, 10); !IsSpace(d[0]) && d[0] != '+' && d[0] != '-' && (n > 0 ==> d[0] != '0')
  {
  }

  lemma {:induction false} MagnitudeOfDigits(n: nat)
    requires 0 < n < TWO_64
    ensures ParseMagnitude(Digits(n, 10), 0) == Some(Parsed(n, |Digits(n, 10)|))
  {
    hide Digits, ParseDigits;
    DigitsParse(n, 10);
    DigitsAreNoSpace(n);
  }

  /** What is refused: a number of 64 bits or more, and anything behind a number. */
  lemma {:induction false} NumbersRefused(n: nat, c: char, rest: string)
    requires n > 0 && !('0' <= c <= '9')
    ensures n >= TWO_64 ==> ParseUnsigned(Digits(n, 10)) == None
    ensures ParseUnsigned(Digits(n, 10) + ([c] + rest)) == None && ParseUnsigned("") == None
  {
    hide ParseUnsigned, Digits;
    if n >= TWO_64 {
      LargeRefused(n);
    }
    TrailingRefused(n, c, rest);
    NoDigits();
  }

  lemma {:induction false} LargeRefused(n: nat)
    requires n >= TWO_64
    ensures ParseUnsigned(Digits(n, 10)) == None
  {
    hide Digits, ParseDigits;
    var d := Digits(n, 10);
    DigitsAreNoSpace(n);
    TooLarge(n);
    assert d[0..] == d && Span(d, IsSpace) == 0;
  }

  lemma {:induction false} TrailingRefused(n: nat, c: char, rest: string)
    requires n > 0 && !('0' <= c <= '9')
    ensures ParseUnsigned(Digits(n, 10) + ([c] + rest)) == None
  {
    hide Digits, ParseDigits;
    var d, tail := Digits(n, 10), [c] + rest;
    var t := d + tail;
    DigitsAreNoSpace(n);
    assert t[0..] == t && t[0] == d[0] && Span(t, IsSpace) == 0;
    RunBefore(d, tail);
  }

  lemma {:induction false} NoDigits()
    ensures ParseUnsigned("") == None
  {
  }

  lemma {:induction false} TooLarge(n: nat)
    requires n >= TWO_64
    ensures ParseDigits(Digits(n, 10), 10) == None
  {
    hide Digits, Value;
    var d := Digits(n, 10);
    ValueOfDigits(n, 10);
    assert DigitRun(d, 10) == |d| && d[..|d|] == d;
  }

  lemma {:induction false} RunBefore(d: string, tail: string)
    requires AllDigits(d, 10) && tail != "" && DigitValue(tail[0]) >= 10
    ensures var r := ParseDigits(d + tail, 10); r.Some? ==> r.value.consumed == |d|
  {
    hide Value, DigitValue;
    var t := d + tail;
    assert forall k :: 0 <= k < |d| ==> t[k] == d[k];
    assert t[|d|] == tail[0];
  }

  /** White space after a number does not change what stoul reads. */
  lemma {:induction false} StoulIgnoresTrailingSpace(s: string, c: char)
    requires IsSpace(c)
    ensures Stoul(s + [c]) == Stoul(s)
  {
    var t := s + [c];
    var w := Span(s, IsSpace);
    if w == |s| {
      assert s[w..] == "";
      assert Span(t, IsSpace) == |t|;
      assert t[|t|..] == "";
    } else {
      assert t[w] == s[w];
      assert Span(t, IsSpace) == w;
      assert t[w..] == s[w..] + [c];
      ParseNumberIgnoresTrailingSpace(s[w..], c);
    }
  }

  lemma {:induction false} ParseNumberIgnoresTrailingSpace(a: string, c: char)
    requires a != "" && IsSpace(c)
    ensures ParseNumber(a + [c], 10) == ParseNumber(a, 10)
  {
    hide ParseDigits;
    var b := a + [c];
    var sign := SignLength(a);
    assert SignLength(b) == sign;
    assert b[sign..] == a[sign..] + [c];
    ParseDigitsIgnoresTrailingSpace(a[sign..], c);
  }

  lemma {:induction false} ParseDigitsIgnoresTrailingSpace(u: string, c: char)
    requires IsSpace(c)
    ensures ParseDigits(u + [c], 10) == ParseDigits(u, 10)
  {
    hide Value, DigitRun;
    DigitRunStops(u, c);
    var n := DigitRun(u, 10);
    assert (u + [c])[..n] == u[..n];
  }

  lemma {:induction false} DigitRunStops(s: string, c: char)
    requires IsSpace(c)
    ensures DigitRun(s + [c], 10) == DigitRun(s, 10)
  {
    var t := s + [c];
    var n, m := DigitRun(s, 10), DigitRun(t, 10);
    assert n < |s| ==> t[n] == s[n];
  }

  lemma {:induction false} StoulIgnoresLeadingSpace(s: string, k: nat)
    requires k <= |s| && forall i :: 0 <= i < k ==> IsSpace(s[i])
    ensures Stoul(s[k..]) == Stoul(s)
  {
    hide ParseNumber;
    var w := Span(s[k..], IsSpace);
    SpanBehind(s, k);
    hide Span;
    assert s[k..][w..] == s[k + w..];
  }

  lemma {:induction false} SpanBehind(s: string, k: nat)
    requires k <= |s| && forall i :: 0 <= i < k ==> IsSpace(s[i])
    ensures Span(s, IsSpace) == k + Span(s[k..], IsSpace)
    decreases k
  {
    if k == 0 {
      assert s[0..] == s;
    } else {
      SpanBehind(s[1..], k - 1);
      assert s[1..][k - 1..] == s[k..];
    }
  }

  /** trim() and "strip leading blanks" leave stoul the same number to read. */
  lemma {:induction false} StoulOfTrimmed(s: string)
    ensures Stoul(Trim(s)) == Stoul(s)
  {
    var left := s[Span(s, IsTrimmed)..];
    StoulIgnoresLeadingSpace(s, Span(s, IsTrimmed));
    StoulOfDropRight(left);
  }

  lemma {:induction false} StoulOfDropRight(s: string)
    ensures Stoul(DropRight(s, IsTrimmed)) == Stoul(s)
  {
    if s != "" && IsTrimmed(s[|s| - 1]) {
      var front, last := s[..|s| - 1], s[|s| - 1];
      assert s == front + [last];
      StoulOfDropRight(front);
      StoulIgnoresTrailingSpace(front, last);
      assert DropRight(s, IsTrimmed) == DropRight(front, IsTrimmed);
    }
  }

  /** stoul reads the number in front, in decimal even behind a zero, and ignores what follows it. */
  lemma {:induction false} StoulReadsFront(n: nat, rest: string)
    requires n < TWO_64 && (rest != "" ==> !('0' <= rest[0] <= '9'))
    ensures Stoul(Digits(n, 10) + rest) == Some(n)
  {
    hide Digits, Value;
    var d := Digits(n, 10);
    var t := d + rest;
    DigitsAreNoSpace(n);
    ValueOfDigits(n, 10);
    assert t[0] == d[0] && t[0..] == t && Span(t, IsSpace) == 0 && SignLength(t) == 0;
    FrontRun(d, rest);
  }

  lemma {:induction false} FrontRun(d: string, rest: string)
    requires AllDigits(d, 10) && (rest != "" ==> !('0' <= rest[0] <= '9'))
    ensures DigitRun(d + rest, 10) == |d| && (d + rest)[..|d|] == d
  {
    var t := d + rest;
    assert forall k :: 0 <= k < |d| ==> t[k] == d[k];
    if rest != "" {
      assert t[|d|] == rest[0];
    }
  }
}
