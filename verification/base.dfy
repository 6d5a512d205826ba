// Small value types and Java-library behaviour that the handlers rely on:
// optional values, String.split, String.endsWith, Long.parseLong / Integer.parseInt,
// "%d" formatting, 64-bit wrap-around and UUID.fromString.

module Options {
  datatype Option<+T> = None | Some(value: T)
}

module Strings {

  /** Cuts `s` at every occurrence of `sep`, keeping empty pieces (the raw tokenisation). */
  function Split(s: string, sep: char): (r: seq<string>)
    ensures |r| >= 1
    ensures forall i :: 0 <= i < |r| ==> sep !in r[i]
  {
    if |s| == 0 then [""]
    else
      var rest := Split(s[1..], sep);
      if s[0] == sep then [""] + rest
      else [[s[0]] + rest[0]] + rest[1..]
  }

  /** Glues the pieces back together with `sep` between neighbours. */
  function Join(parts: seq<string>, sep: char): string
    requires |parts| >= 1
  {
    if |parts| == 1 then parts[0] else parts[0] + [sep] + Join(parts[1..], sep)
  }

  /** Splitting loses nothing: the pieces glue back to the original text. */
  lemma {:induction false} JoinSplit(s: string, sep: char)
    ensures Join(Split(s, sep), sep) == s
  {
    if |s| > 0 {
      var rest := Split(s[1..], sep);
      JoinSplit(s[1..], sep);
      if s[0] == sep {
        assert Split(s, sep) == [""] + rest;
        assert s == [sep] + s[1..];
      } else {
        JoinHead(rest, sep);
        assert Split(s, sep) == [[s[0]] + rest[0]] + rest[1..];
        assert s == [s[0]] + s[1..];
      }
    }
  }

  lemma JoinHead(parts: seq<string>, sep: char)
    requires |parts| >= 1
    ensures |parts| == 1 ==> Join(parts, sep) == parts[0]
    ensures |parts| > 1 ==> Join(parts, sep) == parts[0] + [sep] + Join(parts[1..], sep)
  {
  }

  /** A text without the separator is a single piece. */
  lemma {:induction false} SplitNoSep(x: string, sep: char)
    requires sep !in x
    ensures Split(x, sep) == [x]
  {
    if |x| > 0 {
      SplitNoSep(x[1..], sep);
      assert [x[0]] + x[1..] == x;
    }
  }

  /** A separator directly after a separator-free prefix ends the first piece. */
  lemma {:induction false} SplitAfter(x: string, sep: char, y: string)
    requires sep !in x
    ensures Split(x + [sep] + y, sep) == [x] + Split(y, sep)
  {
    if |x| == 0 {
      assert x + [sep] + y == [sep] + y;
      assert ([sep] + y)[1..] == y;
    } else {
      var s := x + [sep] + y;
      assert s[1..] == x[1..] + [sep] + y;
      SplitAfter(x[1..], sep, y);
      assert [x[0]] + x[1..] == x;
    }
  }

  /** Joining separator-free pieces and splitting again gives the pieces back. */
  lemma {:induction false} SplitJoin(parts: seq<string>, sep: char)
    requires |parts| >= 1
    requires forall i :: 0 <= i < |parts| ==> sep !in parts[i]
    ensures Split(Join(parts, sep), sep) == parts
  {
    if |parts| == 1 {
      SplitNoSep(parts[0], sep);
    } else {
      SplitJoin(parts[1..], sep);
      SplitAfter(parts[0], sep, Join(parts[1..], sep));
      assert [parts[0]] + parts[1..] == parts;
    }
  }

  /** Java's String.split with a one-character pattern: no match gives the whole text,
      otherwise the raw pieces with every trailing empty piece removed. */
  function JavaSplit(s: string, sep: char): (r: seq<string>)
    ensures sep !in s ==> r == [s]
    ensures |r| <= |Split(s, sep)| && r == Split(s, sep)[..|r|]
    ensures sep in s ==> (forall i :: |r| <= i < |Split(s, sep)| ==> Split(s, sep)[i] == "")
    ensures sep in s && |r| > 0 ==> r[|r| - 1] != ""
  {
    if sep !in s then (SplitNoSep(s, sep); [s]) else DropTrailingEmpty(Split(s, sep))
  }

  function DropTrailingEmpty(parts: seq<string>): (r: seq<string>)
    ensures |r| <= |parts| && r == parts[..|r|]
    ensures forall i :: |r| <= i < |parts| ==> parts[i] == ""
    ensures |r| > 0 ==> r[|r| - 1] != ""
  {
    if |parts| == 0 then []
    else if parts[|parts| - 1] == "" then DropTrailingEmpty(parts[..|parts| - 1])
    else parts
  }

  predicate EndsWith(s: string, suffix: string) {
    |suffix| <= |s| && s[|s| - |suffix|..] == suffix
  }

  predicate StartsWith(s: string, prefix: string) {
    |prefix| <= |s| && s[..|prefix|] == prefix
  }
}

module Numbers {
  import opened Options

  const LONG_MIN: int := -0x8000_0000_0000_0000
  const LONG_MAX: int := 0x7FFF_FFFF_FFFF_FFFF
  const INT_MIN: int := -0x8000_0000
  const INT_MAX: int := 0x7FFF_FFFF

  predicate IsDigit(c: char) { '0' <= c <= '9' }

  /** One or more ASCII decimal digits: the regular expression [0-9]+. */
  predicate IsDigits(s: string) {
    |s| > 0 && forall i :: 0 <= i < |s| ==> IsDigit(s[i])
  }

  function DigitValue(c: char): nat
    requires IsDigit(c)
  {
    (c as int) - ('0' as int)
  }

  function DigitChar(d: nat): (c: char)
    requires d < 10
    ensures IsDigit(c) && DigitValue(c) == d
  {
    (('0' as int) + d) as char
  }

  /** The number a string of decimal digits denotes (the empty string denotes 0). */
  function DigitsValue(s: string): nat
    requires forall i :: 0 <= i < |s| ==> IsDigit(s[i])
  {
    if |s| == 0 then 0 else DigitsValue(s[..|s| - 1]) * 10 + DigitValue(s[|s| - 1])
  }

  /** The zero of each block of decimal digits (Unicode general category Nd) in the Basic
      Multilingual Plane, as of Unicode 6.2, the version Java 8's Character class implements.
      Each block is ten consecutive characters, valued 0 to 9. */
  const DIGIT_ZEROS: seq<int> := [
    0x0030, 0x0660, 0x06F0, 0x07C0, 0x0966, 0x09E6, 0x0A66, 0x0AE6, 0x0B66, 0x0BE6,
    0x0C66, 0x0CE6, 0x0D66, 0x0E50, 0x0ED0, 0x0F20, 0x1040, 0x1090, 0x17E0, 0x1810,
    0x1946, 0x19D0, 0x1A80, 0x1A90, 0x1B50, 0x1BB0, 0x1C40, 0x1C50, 0xA620, 0xA8D0,
    0xA900, 0xA9D0, 0xAA50, 0xABF0, 0xFF10]

  /** The value of code point v in the first of the blocks starting at `zeros` that holds it. */
  function DigitIn(v: int, zeros: seq<int>): (r: Option<nat>)
    ensures r.Some? ==> r.value < 10
  {
    if zeros == [] then None
    else if zeros[0] <= v < zeros[0] + 10 then Some(v - zeros[0])
    else DigitIn(v, zeros[1..])
  }

  /** A code point is a digit exactly when some block holds it, and its value is its offset
      from that block's zero. */
  lemma {:induction false} DigitInBlocks(v: int, zeros: seq<int>)
    ensures DigitIn(v, zeros).Some? <==> exists i :: 0 <= i < |zeros| && zeros[i] <= v < zeros[i] + 10
    ensures DigitIn(v, zeros).Some? ==> exists i :: 0 <= i < |zeros| && DigitIn(v, zeros).value == v - zeros[i]
  {
    if zeros != [] && !(zeros[0] <= v < zeros[0] + 10) {
      DigitInBlocks(v, zeros[1..]);
      assert forall i :: 0 <= i < |zeros[1..]| ==> zeros[1..][i] == zeros[i + 1];
      if exists i :: 0 <= i < |zeros| && zeros[i] <= v < zeros[i] + 10 {
        var i :| 0 <= i < |zeros| && zeros[i] <= v < zeros[i] + 10;
        assert zeros[1..][i - 1] <= v < zeros[1..][i - 1] + 10;
      }
    }
  }

  /** Each block ends before the next begins. */
  predicate Ascending(zeros: seq<int>) {
    forall i :: 0 < i < |zeros| ==> zeros[i - 1] + 10 <= zeros[i]
  }

  lemma DigitZerosAscend()
    ensures Ascending(DIGIT_ZEROS)
  {
  }

  /** In ascending blocks, every block before block k ends below its zero. */
  lemma {:induction false} BlocksBefore(zeros: seq<int>, k: nat)
    requires Ascending(zeros) && k < |zeros|
    ensures forall j :: 0 <= j < k ==> zeros[j] + 10 <= zeros[k]
  {
    if k > 0 {
      BlocksBefore(zeros, k - 1);
    }
  }

  /** A code point in block k of ascending blocks is a digit, valued by its offset from the zero. */
  lemma {:induction false} DigitInBlock(v: int, zeros: seq<int>, k: nat)
    requires Ascending(zeros) && k < |zeros| && zeros[k] <= v < zeros[k] + 10
    ensures DigitIn(v, zeros) == Some(v - zeros[k])
  {
    if k > 0 {
      BlocksBefore(zeros, k);
      assert zeros[1..][k - 1] == zeros[k];
      DigitInBlock(v, zeros[1..], k - 1);
    }
  }

  /** A code point below block k of ascending blocks and above the block before it is no digit. */
  lemma {:induction false} NoDigitBetween(v: int, zeros: seq<int>, k: nat)
    requires Ascending(zeros) && k < |zeros| && v < zeros[k]
    requires k > 0 ==> zeros[k - 1] + 10 <= v
    ensures DigitIn(v, zeros).None?
  {
    if k > 0 {
      BlocksBefore(zeros, k - 1);
      assert zeros[1..][k - 1] == zeros[k];
      assert k > 1 ==> zeros[1..][k - 2] == zeros[k - 1];
      NoDigitBetween(v, zeros[1..], k - 1);
    } else if |zeros| > 1 {
      NoDigitBetween(v, zeros[1..], 0);
    }
  }

  /** The sign characters, below '0', are no digits. */
  lemma SignsAreNoDigits()
    ensures JavaDigit('-').None? && JavaDigit('+').None?
  {
    DigitZerosAscend();
    NoDigitBetween('-' as int, DIGIT_ZEROS, 0);
    NoDigitBetween('+' as int, DIGIT_ZEROS, 0);
  }

  /** Character.digit(c, 10): the value of a decimal digit of any script, None for -1. */
  function JavaDigit(c: char): Option<nat> {
    DigitIn(c as int, DIGIT_ZEROS)
  }

  /** The ASCII digits are Java digits with their usual values. */
  lemma AsciiDigit(c: char)
    requires IsDigit(c)
    ensures JavaDigit(c) == Some(DigitValue(c))
  {
  }

  /** Java 8 reads Arabic-Indic and fullwidth digits as the same numbers as ASCII ones. */
  lemma ArabicIndicDigits(c: char)
    requires 0x660 <= c as int <= 0x669
    ensures JavaDigit(c) == Some(c as int - 0x660)
  {
    DigitZerosAscend();
    DigitInBlock(c as int, DIGIT_ZEROS, 1);
  }

  lemma FullwidthDigits(c: char)
    requires 0xFF10 <= c as int <= 0xFF19
    ensures JavaDigit(c) == Some(c as int - 0xFF10)
  {
    DigitZerosAscend();
    DigitInBlock(c as int, DIGIT_ZEROS, 34);
  }

  /** Sinhala Lith digits came with Unicode 7.0, after Java 8, and letters are no decimal digits. */
  lemma SinhalaLithDigits(c: char)
    requires 0xDE6 <= c as int <= 0xDEF
    ensures JavaDigit(c).None?
  {
    DigitZerosAscend();
    NoDigitBetween(c as int, DIGIT_ZEROS, 13);
  }

  lemma LettersAreNoDigits(c: char)
    requires 'a' <= c <= 'z' || 'A' <= c <= 'Z'
    ensures JavaDigit(c).None?
  {
    DigitZerosAscend();
    NoDigitBetween(c as int, DIGIT_ZEROS, 1);
  }

  /** One or more digits of any script, as Character.digit reads them. */
  predicate IsNumeral(s: string) {
    |s| > 0 && forall i :: 0 <= i < |s| ==> JavaDigit(s[i]).Some?
  }

  /** The number a numeral denotes (the empty one denotes 0). */
  function NumeralValue(s: string): nat
    requires forall i :: 0 <= i < |s| ==> JavaDigit(s[i]).Some?
  {
    if |s| == 0 then 0 else NumeralValue(s[..|s| - 1]) * 10 + JavaDigit(s[|s| - 1]).value
  }

  /** An ASCII numeral has the value its digits denote. */
  lemma {:induction false} AsciiNumeral(s: string)
    requires forall i :: 0 <= i < |s| ==> IsDigit(s[i])
    ensures forall i :: 0 <= i < |s| ==> JavaDigit(s[i]).Some?
    ensures NumeralValue(s) == DigitsValue(s)
  {
    forall i | 0 <= i < |s| ensures JavaDigit(s[i]).Some? {
      AsciiDigit(s[i]);
    }
    if |s| > 0 {
      AsciiNumeral(s[..|s| - 1]);
      AsciiDigit(s[|s| - 1]);
    }
  }

  /** Decimal text in radix 10: an optional '+' or '-' sign, then at least one digit. */
  predicate IsDecimal(s: string) {
    IsNumeral(s) || (|s| > 0 && (s[0] == '-' || s[0] == '+') && IsNumeral(s[1..]))
  }

  /** The value of decimal text, sign included. */
  function DecimalValue(s: string): int
    requires IsDecimal(s)
  {
    if IsNumeral(s) then NumeralValue(s)
    else
      assert IsNumeral(s[1..]);
      var magnitude: int := NumeralValue(s[1..]);
      if s[0] == '-' then -magnitude else magnitude
  }

  /** Java's Long.parseLong / Integer.parseInt in radix 10 over the range lo..hi: an optional
      '+' or '-' sign and at least one digit of any script, the value within range; None is a
      NumberFormatException. */
  function ParseSigned(s: string, lo: int, hi: int): (r: Option<int>)
    ensures r.Some? <==> IsDecimal(s) && lo <= DecimalValue(s) <= hi
    ensures r.Some? ==> r.value == DecimalValue(s) && lo <= r.value <= hi
  {
    if |s| == 0 then None
    else if s[0] == '-' || s[0] == '+' then
      SignsAreNoDigits();
      if IsNumeral(s[1..]) then
        var m: int := NumeralValue(s[1..]);
        var v := if s[0] == '-' then -m else m;
        if lo <= v <= hi then Some(v) else None
      else None
    else if IsNumeral(s) && lo <= NumeralValue(s) <= hi then Some(NumeralValue(s))
    else None
  }

  function ParseLong(s: string): Option<int> { ParseSigned(s, LONG_MIN, LONG_MAX) }

  function ParseInt(s: string): Option<int> { ParseSigned(s, INT_MIN, INT_MAX) }

  /** A header value written in Arabic-Indic digits parses as the number it shows. */
  lemma ArabicIndicNumber()
    ensures ParseInt("\U{664}\U{662}") == Some(42)
  {
    ArabicIndicDigits('\U{664}');
    ArabicIndicDigits('\U{662}');
    assert NumeralValue("\U{664}\U{662}"[..1]) == 4;
  }

  /** Decimal text of a natural number, without leading zeros. */
  function FormatNat(n: nat): (r: string)
    ensures IsDigits(r)
    ensures |r| > 1 ==> r[0] != '0'
  {
    if n < 10 then [DigitChar(n)] else FormatNat(n / 10) + [DigitChar(n % 10)]
  }

  /** Java's String.format("%d", n). */
  function FormatLong(n: int): string {
    if n < 0 then "-" + FormatNat(-n) else FormatNat(n)
  }

  lemma {:induction false} DigitsValueOfFormat(n: nat)
    ensures DigitsValue(FormatNat(n)) == n
  {
    if n >= 10 {
      DigitsValueOfFormat(n / 10);
      var s := FormatNat(n);
      assert s[..|s| - 1] == FormatNat(n / 10);
    }
  }

  /** "%d" and parseLong are inverse on the whole range of a Java long. */
  lemma ParseFormatLong(n: int)
    requires LONG_MIN <= n <= LONG_MAX
    ensures ParseLong(FormatLong(n)) == Some(n)
  {
    DigitsValueOfFormat(if n < 0 then -n else n);
    AsciiNumeral(FormatNat(if n < 0 then -n else n));
    if n < 0 {
      assert FormatLong(n)[1..] == FormatNat(-n);
    } else {
      assert FormatNat(n)[0] != '-' && FormatNat(n)[0] != '+';
    }
  }

  /** A Java long result: the mathematical value reduced to 64-bit two's complement. */
  function Wrap64(x: int): (r: int)
    ensures LONG_MIN <= r <= LONG_MAX
    ensures LONG_MIN <= x <= LONG_MAX ==> r == x
    ensures (r - x) % 0x1_0000_0000_0000_0000 == 0
  {
    (x - LONG_MIN) % 0x1_0000_0000_0000_0000 + LONG_MIN
  }

  /** A Java (int) cast of a long. */
  function Wrap32(x: int): (r: int)
    ensures INT_MIN <= r <= INT_MAX
    ensures INT_MIN <= x <= INT_MAX ==> r == x
    ensures (r - x) % 0x1_0000_0000 == 0
  {
    (x - INT_MIN) % 0x1_0000_0000 + INT_MIN
  }

  function Abs(x: int): nat { if x < 0 then -x else x }

  /** The solver's nonlinear reasoning needs this step stated on its own. */
  lemma QuotientOfNaturals(n: nat, d: nat)
    requires d > 0
    ensures n / d >= 0
  {
  }

  /** Java's `/` on longs: truncates toward zero (before wrap-around). */
  function JavaDiv(a: int, b: int): (r: int)
    requires b != 0
    ensures Abs(r) == Abs(a) / Abs(b)
    ensures (a < 0) != (b < 0) ==> r <= 0
    ensures (a < 0) == (b < 0) ==> r >= 0
  {
    var q := Abs(a) / Abs(b);
    assert q >= 0 by { QuotientOfNaturals(Abs(a), Abs(b)); }
    if (a < 0) != (b < 0) then -q else q
  }

  /** Java's `%` on longs: the remainder takes the sign of the dividend. */
  function JavaRem(a: int, b: int): (r: int)
    requires b != 0
    ensures Abs(r) < Abs(b)
    ensures a >= 0 ==> r >= 0
    ensures a <= 0 ==> r <= 0
    ensures a == JavaDiv(a, b) * b + r
  {
    var r := Abs(a) % Abs(b);
    if a < 0 then -r else r
  }
}

module Uuids {
  import opened Options

  predicate IsHex(c: char) { '0' <= c <= '9' || 'a' <= c <= 'f' || 'A' <= c <= 'F' }

  predicate IsLowerHex(c: char) { '0' <= c <= '9' || 'a' <= c <= 'f' }

  predicate IsDashPosition(i: int) { i == 8 || i == 13 || i == 18 || i == 23 }

  /** The 8-4-4-4-12 form of a UUID, hex digits of either case. */
  predicate IsUuidText(s: string) {
    |s| == 36 && forall i :: 0 <= i < 36 ==> if IsDashPosition(i) then s[i] == '-' else IsHex(s[i])
  }

  /** The form UUID.toString produces: lower-case hex digits. */
  predicate IsCanonical(s: string) {
    |s| == 36 && forall i :: 0 <= i < 36 ==> if IsDashPosition(i) then s[i] == '-' else IsLowerHex(s[i])
  }

  type Uuid = s: string | IsCanonical(s) witness "00000000-0000-0000-0000-000000000000"

  function ToLower(c: char): char {
    if 'A' <= c <= 'F' then (c as int - 'A' as int + 'a' as int) as char else c
  }

  /** UUID.fromString followed by toString: the canonical text of the identifier, or None
      where Java raises IllegalArgumentException. */
  function ParseUuid(s: string): (r: Option<Uuid>)
    ensures r.Some? <==> IsUuidText(s)
    ensures r.Some? ==> forall i :: 0 <= i < 36 ==> r.value[i] == ToLower(s[i])
  {
    if IsUuidText(s) then
      var t := seq(36, i requires 0 <= i < 36 => ToLower(s[i]));
      Some(t)
    else None
  }

  /** Parsing a canonical identifier gives it back unchanged. */
  lemma ParseCanonical(u: Uuid)
    ensures ParseUuid(u) == Some(u)
  {
    var t := seq(36, i requires 0 <= i < 36 => ToLower(u[i]));
    forall i | 0 <= i < 36 ensures t[i] == u[i] {
      assert IsDashPosition(i) ==> u[i] == '-';
      assert !IsDashPosition(i) ==> IsLowerHex(u[i]);
    }
    assert t == u;
  }
}
