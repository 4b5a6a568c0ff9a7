/** What un-escaping makes of the text of a document, piece by piece. */
module XmlReads {
  import opened Bytes
  import opened Wrappers
  import opened XmlText

  // ----- as it is printed

  /** The five entities of section 4.6 of XML 1.0; quotes are printed as such in attributes only. */
  lemma PrintedForms(c: char, restricted: bool)
    ensures Escaped([c], restricted) ==
            if c == '&' then "&amp;" else if c == '<' then "&lt;" else if c == '>' then "&gt;"
            else if c == '"' && !restricted then "&quot;" else if c == '\'' && !restricted then "&apos;" else [c]
  {
    assert [c][1..] == "" && Escaped("", restricted) == "";
  }

  // ----- line ends

  predicate LineEnd(c: char) {
    c == '\r' || c == '\n'
  }

  lemma EndHere(end: string, b: string)
    requires end in {"\r\n", "\n\r", "\r", "\n"}
    requires |end| == 1 && b != "" ==> !LineEnd(b[0]) || b[0] == end[0]
    ensures Newlines(end + b) == "\n" + Newlines(b)
  {
    var s := end + b;
    assert s[|end|..] == b && s[0] == end[0];
    assert Unit(s) == |end|;
  }

  lemma NoEndHere(c: char, rest: string)
    requires !LineEnd(c)
    ensures Newlines([c] + rest) == [c] + Newlines(rest)
  {
    assert ([c] + rest)[1..] == rest;
  }

  /** Line ends as section 2.11 of XML 1.0 has them, and a line feed before a carriage return too: any of the four
      becomes one line feed. A single one does so unless the other one follows. */
  lemma {:induction false} LineEnds(a: string, end: string, b: string)
    requires (forall c :: c in a ==> !LineEnd(c)) && end in {"\r\n", "\n\r", "\r", "\n"}
    requires |end| == 1 && b != "" ==> !LineEnd(b[0]) || b[0] == end[0]
    ensures Newlines(a + end + b) == a + "\n" + Newlines(b)
  {
    hide Newlines;
    if a == "" {
      assert a + end + b == end + b && a + "\n" + Newlines(b) == "\n" + Newlines(b);
      EndHere(end, b);
    } else {
      assert a[0] in a && a + end + b == [a[0]] + (a[1..] + end + b);
      LineEnds(a[1..], end, b);
      NoEndHere(a[0], a[1..] + end + b);
      assert a + "\n" + Newlines(b) == [a[0]] + (a[1..] + "\n" + Newlines(b));
    }
  }

  // ----- any text

  /** What a text is made of: chars that stand for themselves, entities, references and line ends. */
  datatype Piece = Raw(c: char) | Known(c: char) | Reference(text: string, ds: seq<nat>, hex: bool) | Break(end: string)

  predicate LegalPiece(p: Piece) {
    match p
    case Raw(c) => c != '&' && !LineEnd(c)
    case Known(c) => Flagged(c, false)
    case Reference(text, ds, hex) => Writes(text, ds, hex) && FromDigits(ds, if hex then 16 else 10) <= 0x10_FFFF
    case Break(end) => end in {"\r\n", "\n\r", "\r", "\n"}
  }

  function PieceText(p: Piece): string {
    match p
    case Raw(c) => [c]
    case Known(c) => EntityText(c)
    case Reference(text, _, hex) => (if hex then "&#x" else "&#") + text + ";"
    case Break(end) => end
  }

  function PieceMeaning(p: Piece): string {
    match p
    case Raw(c) => [c]
    case Known(c) => [c]
    case Reference(_, ds, hex) => Utf8(FromDigits(ds, if hex then 16 else 10))
    case Break(_) => "\n"
  }

  function Text(ps: seq<Piece>): string {
    if ps == [] then "" else PieceText(ps[0]) + Text(ps[1..])
  }

  function Meaning(ps: seq<Piece>): string {
    if ps == [] then "" else PieceMeaning(ps[0]) + Meaning(ps[1..])
  }

  /** A single line end is not followed by the other one, which would belong to it. */
  predicate Legal(ps: seq<Piece>) {
    ps == [] ||
    (LegalPiece(ps[0]) && Legal(ps[1..]) &&
     (ps[0].Break? && |ps[0].end| == 1 && Text(ps[1..]) != "" ==>
       !LineEnd(Text(ps[1..])[0]) || Text(ps[1..])[0] == ps[0].end[0]))
  }

  lemma PieceStep(p: Piece, rest: string, here: char)
    requires LegalPiece(p)
    requires p.Break? && |p.end| == 1 && rest != "" ==> !LineEnd(rest[0]) || rest[0] == p.end[0]
    ensures Step(PieceText(p) + rest, here, TEXT_ELEMENT) == (PieceMeaning(p), |PieceText(p)|)
  {
    match p {
      case Raw(c) =>
      case Known(c) => hide Step, EntityText; EntityReads(c, rest, here);
      case Reference(text, ds, hex) => ReferenceStep(text, ds, hex, rest, here);
      case Break(end) =>
    }
  }

  lemma PieceLong(p: Piece)
    requires LegalPiece(p)
    ensures PieceText(p) != ""
  {
  }

  lemma ReferenceStep(text: string, ds: seq<nat>, hex: bool, rest: string, here: char)
    requires LegalPiece(Reference(text, ds, hex))
    ensures var u := (if hex then "&#x" else "&#") + text + ";";
      Step(u + rest, here, TEXT_ELEMENT) == (Utf8(FromDigits(ds, if hex then 16 else 10)), |u|)
  {
    hide CharacterRef, Entity5, Utf8, FromDigits, Writes;
    WrittenReference(text, ds, hex, rest);
    var u := (if hex then "&#x" else "&#") + text + ";";
    assert (u + rest)[0] == '&' && (u + rest)[1] == '#';
  }

  lemma Behind(t: string, p: nat, a: string, rest: string)
    requires p <= |t| && t[p..] == a + rest
    ensures p + |a| <= |t| && t[p + |a|..] == rest
  {
    assert t[p + |a|..] == t[p..][|a|..];
  }

  lemma Joined(a: string, b: string, c: string)
    ensures a + b + c == a + (b + c)
  {
  }

  /** Un-escaping turns every text into what its pieces mean, in text and in attributes. */
  lemma {:induction false} PiecesRead(ps: seq<Piece>, t: string, p: nat, out: string)
    requires Legal(ps) && |out| <= p <= |t| && t[p..] == Text(ps)
    ensures Unescaped(t, p, out, TEXT_ELEMENT) == out + Meaning(ps)
    decreases |ps|
  {
    hide Step, PieceText, PieceMeaning, LegalPiece, Unescaped;
    if ps == [] {
      UnescapedEnd(t, out, TEXT_ELEMENT);
      assert out + Meaning(ps) == out;
    } else {
      var rest, n := Text(ps[1..]), |PieceText(ps[0])|;
      PieceLong(ps[0]);
      Behind(t, p, PieceText(ps[0]), rest);
      var here := t[|out|];
      PieceStep(ps[0], rest, here);
      OneStep(t, p, out, TEXT_ELEMENT);
      PiecesRead(ps[1..], t, p + n, out + PieceMeaning(ps[0]));
      Joined(out, PieceMeaning(ps[0]), Meaning(ps[1..]));
    }
  }

  lemma EveryText(ps: seq<Piece>)
    requires Legal(ps)
    ensures Unescaped(Text(ps), 0, "", TEXT_ELEMENT) == Meaning(ps)
    ensures ATTRIBUTE_VALUE == TEXT_ELEMENT
  {
    PiecesRead(ps, Text(ps), 0, "");
    assert "" + Meaning(ps) == Meaning(ps);
  }

  // ----- references that are too large

  function Power16(n: nat): (p: nat)
    ensures p > 0
  {
    if n == 0 then 1 else 16 * Power16(n - 1)
  }

  lemma SmallProduct(m: nat, d: nat)
    requires d < 16
    ensures m * d <= 15 * m
  {
    assert (15 - d) * m >= 0;
  }

  /** One step with a factor that is not too large. */
  lemma HexStep(u: string, i: nat, stop: char, mult: nat, ucs: nat)
    requires 0 < i < |u| && DigitOf(u[i], 16).Some? && u[i] != stop && mult <= 0x1000_0000
    ensures Backwards(u, i, stop, 16, mult, ucs) ==
            Backwards(u, i - 1, stop, 16, if mult == 0x1000_0000 then 0 else mult * 16,
              ucs + mult * DigitOf(u[i], 16).value)
  {
    hide DigitOf, Backwards;
    DigitIsSmall(u[i]);
    BackwardsStep(u, i, stop, 16, mult, ucs);
    SmallProduct(mult, DigitOf(u[i], 16).value);
  }

  lemma DigitIsSmall(c: char)
    requires DigitOf(c, 16).Some?
    ensures DigitOf(c, 16).value < 16
  {
  }

  /** With no factor left, digits do not count. */
  lemma {:induction false} NoFactor(u: string, a: nat, i: nat, ucs: nat)
    requires a <= i < |u| && Digits(u, a + 1, i + 1, 16)
    ensures Backwards(u, i, u[a], 16, 0, ucs) == Some(ucs)
    decreases i
  {
    if i > a && u[i] != u[a] { NoFactor(u, a, i - 1, ucs); }
  }

  /** A digit more in front. */
  lemma {:induction false} FrontDigit(u: string, lo: nat, hi: nat)
    requires lo < hi && Digits(u, lo, hi, 16)
    ensures NumberOf(u, lo, hi, 16) == Power16(hi - lo - 1) * DigitOf(u[lo], 16).value + NumberOf(u, lo + 1, hi, 16)
    decreases hi
  {
    hide DigitOf;
    if hi > lo + 1 {
      FrontDigit(u, lo, hi - 1);
      var p, d := Power16(hi - lo - 2), DigitOf(u[lo], 16).value;
      assert 16 * (p * d) == 16 * p * d;
    }
  }

  lemma {:induction false} StepsDone(u: string, a: nat, i: nat, t: nat)
    requires a + t <= i < |u| && t <= 8 && Digits(u, a + 1, i + 1, 16) && DigitOf(u[a], 16).None?
    ensures Backwards(u, i, u[a], 16, 1, 0) ==
            Backwards(u, i - t, u[a], 16, if t == 8 then 0 else Power16(t), NumberOf(u, i + 1 - t, i + 1, 16))
    decreases t
  {
    hide DigitOf, Backwards;
    if t > 0 {
      StepsDone(u, a, i, t - 1);
      Powers(t - 1);
      HexStep(u, i + 1 - t, u[a], Power16(t - 1), NumberOf(u, i + 2 - t, i + 1, 16));
      FrontDigit(u, i + 1 - t, i + 1);
    }
  }

  lemma Powers(t: nat)
    requires t < 8
    ensures Power16(t) <= 0x1000_0000 && (Power16(t) == 0x1000_0000 <==> t == 7)
  {
    assert Power16(2) == 0x100 && Power16(4) == 0x1_0000 && Power16(6) == 0x100_0000;
    if t == 1 || t == 3 || t == 5 || t == 7 { assert Power16(t) == 16 * Power16(t - 1); }
  }

  /** Only the last eight hexadecimal digits of a reference count, its number being taken modulo 2^32. */
  lemma LastEightDigits(u: string, a: nat, i: nat)
    requires a + 8 <= i < |u| && Digits(u, a + 1, i + 1, 16) && DigitOf(u[a], 16).None?
    ensures Backwards(u, i, u[a], 16, 1, 0) == Some(NumberOf(u, i - 7, i + 1, 16))
  {
    hide DigitOf, Backwards;
    StepsDone(u, a, i, 8);
    NoFactor(u, a, i - 8, NumberOf(u, i - 7, i + 1, 16));
  }
}
