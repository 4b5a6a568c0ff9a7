/** Chars that stand for bytes. */
module Bytes {
  import opened Wrappers

  const NUL := 0 as char

  function Byte(n: int): char
    requires 0 <= n < 256
  {
    n as char
  }

  /** The value of a hexadecimal digit, in either case. */
  function HexValue(c: char): Option<nat> {
    if '0' <= c <= '9' then Some(c as int - '0' as int)
    else if 'a' <= c <= 'f' then Some(c as int - 'a' as int + 10)
    else if 'A' <= c <= 'F' then Some(c as int - 'A' as int + 10)
    else None
  }

  // ----- digits, as text

  const DECIMAL := "0123456789"
  const LOWER := "0123456789abcdef"
  const UPPER := "0123456789ABCDEF"

  /** The char c is the hexadecimal digit d, in either case. */
  predicate Spells(c: char, d: nat) {
    d < 16 && (c == LOWER[d] || c == UPPER[d])
  }

  /** Hexadecimal digits are what HexValue takes for them, and nothing else is. */
  lemma HexDigit(c: char, d: nat)
    ensures HexValue(c) == Some(d) <==> Spells(c, d)
    ensures HexValue(c) == None <==> forall i :: 0 <= i < 16 ==> c != LOWER[i] && c != UPPER[i]
  {
    if HexValue(c).Some? {
      DigitOfValue(c);
    } else {
      forall i | 0 <= i < 16 ensures c != LOWER[i] && c != UPPER[i] { ValueOfDigit(i); }
    }
    if d < 16 { ValueOfDigit(d); }
  }

  lemma ValueOfDigit(i: nat)
    requires i < 16
    ensures HexValue(LOWER[i]) == Some(i) == HexValue(UPPER[i])
  {
  }

  lemma DigitOfValue(c: char)
    requires HexValue(c).Some?
    ensures var i := HexValue(c).value; i < 16 && (c == LOWER[i] || c == UPPER[i])
  {
  }

  /** The number of the digits ds. */
  function FromDigits(ds: seq<nat>, base: nat): nat {
    if ds == [] then 0 else FromDigits(ds[..|ds| - 1], base) * base + ds[|ds| - 1]
  }

  lemma DecimalDigit(c: char, d: nat)
    requires d < 10
    ensures c == DECIMAL[d] <==> '0' <= c <= '9' && HexValue(c) == Some(d)
  {
  }
}
