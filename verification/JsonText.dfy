/** The texts of single values, and what the reader makes of them. */
module JsonText {
  import opened Bytes
  import opened JsonValue
  import opened JsonLexer
  import opened JsonReader
  import opened Wrappers

  // ----- integers

  function DigitOf(n: nat): char
    requires n < 10
  {
    (n + '0' as int) as char
  }

  function Decimal(n: nat): string {
    if n < 10 then [DigitOf(n)] else Decimal(n / 10) + [DigitOf(n % 10)]
  }

  function IntText(i: int): string {
    if i < 0 then "-" + Decimal(-i) else Decimal(i)
  }

  lemma {:induction false} DecimalIsDigits(n: nat)
    ensures Decimal(n) != "" && forall i :: 0 <= i < |Decimal(n)| ==> IsDigit(Decimal(n)[i])
  {
    if n >= 10 { DecimalIsDigits(n / 10); }
  }

  lemma {:induction false} DecimalLength(n: nat, k: nat)
    requires k > 0 && n < Power(k)
    ensures |Decimal(n)| <= k
  {
    if n >= 10 { DecimalLength(n / 10, k - 1); }
  }

  function Power(k: nat): nat {
    if k == 0 then 1 else 10 * Power(k - 1)
  }

  /** uintToString: the digits are put down backwards, before a final NUL. */
  method UIntToString(value: nat, buffer: array<char>, current: nat) returns (start: nat)
    requires value <= MAX_UINT && 11 <= current <= buffer.Length
    modifies buffer
    ensures current - 11 <= start < current - 1
    ensures buffer[start..current - 1] == Decimal(value) && buffer[current - 1] == NUL
    ensures buffer[..start] == old(buffer[..start])
  {
    var left := value;
    start := current - 1;
    buffer[start] := NUL;
    DecimalFits(value);
    var more := true;
    while more
      invariant 0 <= start <= current - 1
      invariant more ==> Decimal(value) == Decimal(left) + buffer[start..current - 1]
      invariant more ==> start >= |Decimal(left)| + current - 11
      invariant !more ==> Decimal(value) == buffer[start..current - 1] && current - 11 <= start
      invariant buffer[current - 1] == NUL
      invariant buffer[..start] == old(buffer[..start])
      decreases more, left
    {
      start := start - 1;
      buffer[start] := DigitOf(left % 10);
      assert buffer[start..current - 1] == [DigitOf(left % 10)] + buffer[start + 1..current - 1];
      left := left / 10;
      more := left != 0;
    }
    DecimalIsDigits(value);
  }

  lemma DecimalFits(n: nat)
    requires n <= MAX_UINT
    ensures |Decimal(n)| <= 10
  {
    assert Power(10) == 100 * Power(8) == 10000 * Power(6) == 1_000_000 * Power(4) == 10_000_000_000;
    DecimalLength(n, 10);
  }

  lemma {:induction false} CStringUpTo(s: string, n: nat)
    requires n < |s| && s[n] == NUL && NUL !in s[..n]
    ensures CString(s) == s[..n]
  {
    if n > 0 {
      assert s[..n][0] == s[0] && s[..n] == [s[0]] + s[1..][..n - 1];
      CStringUpTo(s[1..], n - 1);
    }
  }

  /** What is printed from `start` on in a buffer whose last char is a NUL. */
  lemma PrintedFrom(buffer: array<char>, start: int, text: string)
    requires 0 <= start < buffer.Length && buffer[start..buffer.Length - 1] == text && buffer[buffer.Length - 1] == NUL
    requires NUL !in text
    ensures CString(buffer[start..]) == text
  {
    assert buffer[start..][..|text|] == buffer[start..buffer.Length - 1];
    CStringUpTo(buffer[start..], |text|);
  }

  lemma NoNulInInt(i: int)
    ensures NUL !in IntText(i)
  {
    DecimalIsDigits(if i < 0 then -i else i);
  }

  /** valueToString for a signed integer, the least of which has no negation. */
  method ValueToStringInt(value: int) returns (r: string)
    requires -MAX_INT <= value <= MAX_INT
    ensures r == IntText(value)
  {
    hide Decimal, CString;
    var buffer := new char[32];
    var negative := value < 0;
    var current := UIntToString(if negative then -value else value, buffer, 32);
    if negative {
      current := current - 1;
      buffer[current] := '-';
      assert buffer[current..31] == ['-'] + buffer[current + 1..31];
    }
    NoNulInInt(value);
    PrintedFrom(buffer, current, IntText(value));
    r := CString(buffer[current..]);
  }

  method ValueToStringUInt(value: nat) returns (r: string)
    requires value <= MAX_UINT
    ensures r == Decimal(value)
  {
    hide Decimal, CString;
    var buffer := new char[32];
    var current := UIntToString(value, buffer, 32);
    NoNulInInt(value);
    PrintedFrom(buffer, current, Decimal(value));
    r := CString(buffer[current..]);
  }

  lemma {:induction false} ReadDigitsSnoc(a: string, d: char, threshold: nat, value: nat)
    requires IsDigit(d) && forall i :: 0 <= i < |a| ==> IsDigit(a[i])
    ensures ReadDigits(a + [d], threshold, value) ==
            match ReadDigits(a, threshold, value)
            case Whole(n) => if n >= threshold then TooBig else Whole(n * 10 + DigitValue(d))
            case TooBig => TooBig
            case NoDigit => NoDigit
  {
    if a == "" {
      assert a + [d] == [d];
      assert ReadDigits([d], threshold, value) == if value >= threshold then TooBig
        else ReadDigits([d][1..], threshold, value * 10 + DigitValue(d));
    } else {
      assert (a + [d])[1..] == a[1..] + [d];
      if value < threshold { ReadDigitsSnoc(a[1..], d, threshold, value * 10 + DigitValue(a[0])); }
    }
  }

  /** The digit loop gives up as soon as the digits but the last reach the threshold. */
  lemma {:induction false} ReadDigitsOfDecimal(n: nat, threshold: nat)
    requires threshold > 0
    ensures ReadDigits(Decimal(n), threshold, 0) == if n / 10 < threshold then Whole(n) else TooBig
  {
    if n < 10 {
      assert Decimal(n)[1..] == "";
      assert DigitValue(DigitOf(n)) == n;
    } else {
      DecimalIsDigits(n / 10);
      ReadDigitsOfDecimal(n / 10, threshold);
      ReadDigitsSnoc(Decimal(n / 10), DigitOf(n % 10), threshold, 0);
      assert DigitValue(DigitOf(n % 10)) == n % 10;
    }
  }

  lemma IntTextIsNumber(i: int)
    ensures IsNumberText(IntText(i)) && ScansAsDouble(IntText(i)) && !LooksDouble(IntText(i))
  {
    DecimalIsDigits(if i < 0 then -i else i);
    if i < 0 { assert IntText(i)[1..] == Decimal(-i); }
  }

  /** An integer as it is read back. */
  function CanonInt(i: int): Value {
    if i < -2147483639 then Real(IntText(i))
    else if i <= 2147483647 then Int(i)
    else if i <= 4294967289 then UInt(i)
    else Real(IntText(i))
  }

  lemma DecodeDigits(text: string)
    requires text != "" && !LooksDouble(text) && ScansAsDouble(text)
    ensures var negative := text[0] == '-';
      DecodeNumber(text) ==
      match ReadDigits(if negative then text[1..] else text, Threshold(negative), 0)
      case NoDigit => None
      case TooBig => Some(Real(text))
      case Whole(value) =>
        Some(if negative then Int(0 - value) else if value <= MAX_INT then Int(value) else UInt(value))
  {
    hide LooksDouble, ScansAsDouble, ReadDigits;
  }

  /** Every integer survives as itself from -2147483639 to 4294967289, and as a real number outside. */
  lemma IntReadsBack(i: int)
    ensures DecodeNumber(IntText(i)) == Some(CanonInt(i))
  {
    hide DecodeNumber, ReadDigits, LooksDouble, ScansAsDouble, IsNumberText, Decimal;
    var n := if i < 0 then -i else i;
    IntTextIsNumber(i);
    DecimalIsDigits(n);
    DecodeDigits(IntText(i));
    ReadDigitsOfDecimal(n, Threshold(i < 0));
    if i < 0 { assert IntText(i)[1..] == Decimal(n); } else { assert IsDigit(Decimal(n)[0]); }
  }

  // ----- strings

  predicate IsControl(c: char) {
    0 < c as int <= 0x1F
  }

  predicate IsSpecial(c: char) {
    c == '"' || c == '\\' || c == Byte(8) || c == Byte(12) || c == '\n' || c == '\r' || c == '\t'
  }

  function UpperHex(n: nat): char
    requires n < 16
  {
    if n < 10 then DigitOf(n) else (n - 10 + 'A' as int) as char
  }

  function EscapeChar(c: char): string {
    if c == '"' then "\\\""
    else if c == '\\' then "\\\\"
    else if c == Byte(8) then "\\b"
    else if c == Byte(12) then "\\f"
    else if c == '\n' then "\\n"
    else if c == '\r' then "\\r"
    else if c == '\t' then "\\t"
    else if IsControl(c) then "\\u00" + [UpperHex(c as int / 16), UpperHex(c as int % 16)]
    else [c]
  }

  function Escape(s: string): string {
    if s == "" then "" else EscapeChar(s[0]) + Escape(s[1..])
  }

  function Quote(s: string): string {
    "\"" + Escape(s) + "\""
  }

  lemma {:induction false} EscapeSnoc(s: string, c: char)
    ensures Escape(s + [c]) == Escape(s) + EscapeChar(c)
  {
    hide EscapeChar;
    assert (s + [c])[1..] == if s == "" then "" else s[1..] + [c];
    if s != "" { EscapeSnoc(s[1..], c); }
  }

  lemma {:induction false} EscapePlain(s: string)
    requires forall i :: 0 <= i < |s| ==> !IsSpecial(s[i]) && !IsControl(s[i])
    ensures Escape(s) == s
  {
    if s != "" { EscapePlain(s[1..]); }
  }

  method ContainsControlCharacter(s: string) returns (r: bool)
    ensures r <==> exists i :: 0 <= i < |CString(s)| && IsControl(CString(s)[i])
  {
    var i := 0;
    while i < |s| && s[i] != NUL
      invariant 0 <= i <= |s| && NUL !in s[..i]
      invariant forall j :: 0 <= j < i ==> !IsControl(s[j])
    {
      if IsControl(s[i]) {
        CStringKeeps(s, i);
        return true;
      }
      i := i + 1;
    }
    CStringEnds(s, i);
    return false;
  }

  lemma {:induction false} CStringKeeps(s: string, i: nat)
    requires i < |s| && NUL !in s[..i] && s[i] != NUL
    ensures i < |CString(s)| && CString(s)[i] == s[i]
  {
    if i > 0 {
      assert s[..i][0] == s[0] && s[1..][..i - 1] == s[..i][1..];
      CStringKeeps(s[1..], i - 1);
    }
  }

  lemma CStringEnds(s: string, i: nat)
    requires i <= |s| && NUL !in s[..i] && (i < |s| ==> s[i] == NUL)
    ensures CString(s) == s[..i]
  {
    if i < |s| { CStringUpTo(s, i); } else {
      assert s[..i] == s;
      CStringWhole(s);
    }
  }

  /** strpbrk(value, "\"\\\b\f\n\r\t") */
  method ContainsSpecial(s: string) returns (r: bool)
    ensures r <==> exists i :: 0 <= i < |CString(s)| && IsSpecial(CString(s)[i])
  {
    var i := 0;
    while i < |s| && s[i] != NUL
      invariant 0 <= i <= |s| && NUL !in s[..i]
      invariant forall j :: 0 <= j < i ==> !IsSpecial(s[j])
    {
      if IsSpecial(s[i]) {
        CStringKeeps(s, i);
        return true;
      }
      i := i + 1;
    }
    CStringEnds(s, i);
    return false;
  }

  /** The loop over a string that has something to escape. */
  method WalkAndEscape(value: string) returns (r: string)
    ensures r == Quote(CString(value))
  {
    hide EscapeChar, CString;
    r := "\"";
    var i := 0;
    while i < |value| && value[i] != NUL
      invariant 0 <= i <= |value| && NUL !in value[..i]
      invariant r == "\"" + Escape(value[..i])
    {
      r := r + EscapeChar(value[i]);
      assert value[..i + 1] == value[..i] + [value[i]];
      EscapeSnoc(value[..i], value[i]);
      i := i + 1;
    }
    CStringEnds(value, i);
    r := r + "\"";
  }

  /** The short way for plain strings and the walk over all others print the same text. */
  method ValueToQuotedString(value: string) returns (r: string)
    ensures r == Quote(CString(value))
  {
    hide CString;
    var special := ContainsSpecial(value);
    var control := ContainsControlCharacter(value);
    if !special && !control {
      forall i | 0 <= i < |CString(value)| ensures !IsSpecial(CString(value)[i]) && !IsControl(CString(value)[i]) {}
      EscapePlain(CString(value));
      return "\"" + CString(value) + "\"";
    }
    r := WalkAndEscape(value);
  }

  lemma ScanEscapedChar(c: char, rest: string)
    ensures ScanString(EscapeChar(c) + rest) == Extend(EscapeChar(c), ScanString(rest))
  {
    var e := EscapeChar(c);
    var s := e + rest;
    if |e| == 1 {
      assert s[1..] == rest && s[..1] == e;
    } else {
      assert s[..2] == e[..2] && s[2..] == e[2..] + rest;
      if |e| == 2 {
        assert s[2..] == rest;
      } else {
        ScanPlain(e[2..], rest);
        assert e[..2] + e[2..] == e;
      }
    }
  }

  lemma {:induction false} ScanPlain(a: string, rest: string)
    requires '"' !in a && '\\' !in a
    ensures ScanString(a + rest) == Extend(a, ScanString(rest))
  {
    if a == "" {
      assert a + rest == rest;
    } else {
      assert (a + rest)[1..] == a[1..] + rest && (a + rest)[..1] == [a[0]];
      assert a[0] in a && forall x :: x in a[1..] ==> x in a;
      ScanPlain(a[1..], rest);
      if ScanString(rest).Shut? {
        assert [a[0]] + (a[1..] + ScanString(rest).body) == a + ScanString(rest).body;
      }
    }
  }

  /** A quoted string is one token. */
  lemma {:induction false} ScanEscaped(s: string, b: string)
    ensures ScanString(Escape(s) + "\"" + b) == Shut(Escape(s), b)
  {
    if s == "" {
      assert Escape(s) + "\"" + b == "\"" + b;
      assert ("\"" + b)[1..] == b;
    } else {
      ScanEscaped(s[1..], b);
      assert Escape(s) + "\"" + b == EscapeChar(s[0]) + (Escape(s[1..]) + "\"" + b);
      ScanEscapedChar(s[0], Escape(s[1..]) + "\"" + b);
    }
  }

  lemma FirmQuote(s: string)
    ensures Firm(Quote(s), [Quoted(Escape(s))]) && Safe(Quote(s))
  {
    forall b ensures ScanString(Escape(s) + "\"" + b) == Shut(Escape(s), b) {
      ScanEscaped(s, b);
    }
    FirmQuoted(Escape(s));
  }

  lemma DecodeEscapedChar(c: char, rest: string)
    ensures DecodeString(EscapeChar(c) + rest) == Prepend([c], DecodeString(rest))
  {
    var e := EscapeChar(c);
    var s := e + rest;
    if |e| == 1 {
      assert s[1..] == rest;
    } else if |e| == 2 {
      assert s[2..] == rest;
    } else {
      assert s[2..] == e[2..] + rest;
      HexReadsBack(c, rest);
      assert s[6..] == rest;
    }
  }

  lemma HexReadsBack(c: char, rest: string)
    requires IsControl(c)
    ensures var h := "00" + [UpperHex(c as int / 16), UpperHex(c as int % 16)];
      ReadCodePoint(h + rest) == CodePoint(c as int, 4)
  {
    var h := "00" + [UpperHex(c as int / 16), UpperHex(c as int % 16)];
    assert HexValue(h[0]) == Some(0) && HexValue(h[1]) == Some(0);
    assert HexValue(h[2]) == Some(c as int / 16) && HexValue(h[3]) == Some(c as int % 16);
    assert Hex4(h + rest) == Some(c as int);
  }

  /** Un-escaping undoes escaping, whatever the string. */
  lemma {:induction false} EscapeReadsBack(s: string)
    ensures DecodeString(Escape(s)) == Some(s)
  {
    if s != "" {
      EscapeReadsBack(s[1..]);
      DecodeEscapedChar(s[0], Escape(s[1..]));
      assert [s[0]] + s[1..] == s;
    }
  }
}
