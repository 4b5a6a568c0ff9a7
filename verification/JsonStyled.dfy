/** The styled writer on values without comments: the text it produces, the class that produces it with a
    buffer of already printed children, and why that text means what the compact one means. */
module JsonStyled {
  import opened Bytes
  import opened JsonValue
  import opened JsonLexer
  import opened JsonReader
  import opened JsonText
  import opened JsonTokens
  import opened JsonWriter
  import opened Wrappers

  const RIGHT_MARGIN := 74
  const INDENT_SIZE := 3

  // ----- the text, as a simple recursion without the buffer

  function Spaces(n: nat): (r: string)
    ensures |r| == n
  {
    seq(n, _ => ' ')
  }

  /** What writeIndent makes of the document. */
  function Indented(doc: string, indent: nat): string {
    if doc == "" then Spaces(indent)
    else if doc[|doc| - 1] == ' ' then doc
    else if doc[|doc| - 1] == '\n' then doc + Spaces(indent)
    else doc + "\n" + Spaces(indent)
  }

  function LeafTexts(elems: seq<Value>): (r: seq<string>)
    requires AllLeaves(elems)
    ensures |r| == |elems|
  {
    seq(|elems|, i requires 0 <= i < |elems| => LeafText(elems[i]))
  }

  function TotalLength(parts: seq<string>): nat {
    if parts == [] then 0 else TotalLength(parts[..|parts| - 1]) + |parts[|parts| - 1]|
  }

  predicate AllLeaves(elems: seq<Value>) {
    forall e :: e in elems ==> Leaf(e)
  }

  function LineLength(parts: seq<string>): int {
    4 + (|parts| - 1) * 2 + TotalLength(parts)
  }

  /** A non-empty array goes on one line when none of its elements needs more than one and it is short. */
  predicate OneLine(elems: seq<Value>) {
    |elems| * 3 < RIGHT_MARGIN && AllLeaves(elems) && LineLength(LeafTexts(elems)) < RIGHT_MARGIN
  }

  /** The parts from the first or a later one on, and the end of the line. */
  function LineTail(parts: seq<string>): string {
    if parts == [] then " ]" else ", " + parts[0] + LineTail(parts[1..])
  }

  function Line(parts: seq<string>): string
    requires parts != []
  {
    "[ " + parts[0] + LineTail(parts[1..])
  }

  /** The document once v is printed at its end. */
  function Styled(doc: string, indent: nat, v: Value): string
    decreases v, 1
  {
    if Leaf(v) then doc + LeafText(v)
    else match v
      case Array(elems) =>
        if OneLine(elems) then doc + Line(LeafTexts(elems))
        else Indented(StyledElements(Indented(doc, indent) + "[", indent + INDENT_SIZE, elems), indent) + "]"
      case Object(members) =>
        Indented(StyledMembers(Indented(doc, indent) + "{", indent + INDENT_SIZE, members), indent) + "}"
  }

  function StyledElements(doc: string, indent: nat, elems: seq<Value>): string
    requires elems != []
    decreases elems, 0
  {
    var doc' := Styled(Indented(doc, indent), indent, elems[0]);
    if |elems| == 1 then doc' else StyledElements(doc' + ",", indent, elems[1..])
  }

  function StyledMembers(doc: string, indent: nat, members: seq<Member>): string
    requires members != []
    decreases members, 0
  {
    var doc' := Styled(Indented(doc, indent) + Quote(CString(members[0].name)) + " : ", indent, members[0].value);
    if |members| == 1 then doc' else StyledMembers(doc' + ",", indent, members[1..])
  }

  // ----- the class

  class StyledWriter {
    var document: string
    var childValues: seq<string>
    var addChildValues: bool
    var indentString: string

    constructor ()
    {
      document, childValues, addChildValues, indentString := "", [], false, "";
    }

    method Write(root: Value) returns (r: string)
      requires Printable(root)
      modifies this
      ensures r == Styled("", 0, root) + "\n"
    {
      document, addChildValues, indentString := "", false, "";
      WriteValue(root);
      document := document + "\n";
      r := document;
    }

    method PushValue(value: string)
      modifies `document, `childValues
      ensures document == (if addChildValues then old(document) else old(document) + value)
      ensures childValues == if addChildValues then old(childValues) + [value] else old(childValues)
    {
      if addChildValues { childValues := childValues + [value]; } else { document := document + value; }
    }

    method WriteIndent()
      requires indentString == Spaces(|indentString|)
      modifies `document
      ensures document == Indented(old(document), |indentString|)
    {
      if document != "" {
        var last := document[|document| - 1];
        if last == ' ' { return; }
        if last != '\n' { document := document + "\n"; }
      }
      document := document + indentString;
    }

    method WriteWithIndent(value: string)
      requires indentString == Spaces(|indentString|)
      modifies `document
      ensures document == Indented(old(document), |indentString|) + value
    {
      WriteIndent();
      document := document + value;
    }

    method Indent()
      requires indentString == Spaces(|indentString|)
      modifies `indentString
      ensures indentString == Spaces(|old(indentString)| + INDENT_SIZE)
    {
      indentString := indentString + Spaces(INDENT_SIZE);
    }

    method Unindent()
      requires indentString == Spaces(|indentString|) && |indentString| >= INDENT_SIZE
      modifies `indentString
      ensures indentString == Spaces(|old(indentString)| - INDENT_SIZE)
    {
      indentString := indentString[..|indentString| - INDENT_SIZE];
    }

    /** Only leaves are ever printed into the buffer; whatever else is printed goes to the document. */
    method WriteValue(v: Value)
      requires Printable(v) && indentString == Spaces(|indentString|)
      requires addChildValues ==> Leaf(v)
      modifies this
      ensures indentString == old(indentString) && addChildValues == old(addChildValues)
      ensures addChildValues ==> document == old(document) && childValues == old(childValues) + [LeafText(v)]
      ensures !addChildValues ==> document == Styled(old(document), |indentString|, v)
      decreases v, 3
    {
      hide LeafText, Spaces, Indented, OneLine, Line;
      if v.Array? {
        WriteArrayValue(v);
      } else if v.Object? {
        if v.members == [] {
          PushValue("{}");
          LeafOfObject(v);
        } else {
          WriteObjectValue(v);
        }
      } else {
        var text := ScalarToString(v);
        PushValue(text);
      }
    }

    method WriteObjectValue(v: Value)
      requires v.Object? && v.members != [] && Printable(v)
      requires indentString == Spaces(|indentString|) && !addChildValues
      modifies this
      ensures indentString == old(indentString) && !addChildValues
      ensures document == Styled(old(document), |indentString|, v)
      decreases v, 2
    {
      hide LeafText, Spaces, Indented, Line, Quote, CString, OneLine, Styled, StyledMembers;
      StyledObject(document, |indentString|, v);
      WriteWithIndent("{");
      Indent();
      ghost var start, depth := document, |indentString|;
      var index := 0;
      while true
        invariant index < |v.members| && !addChildValues
        invariant indentString == Spaces(|indentString|) && |indentString| == |old(indentString)| + INDENT_SIZE
        invariant StyledMembers(document, |indentString|, v.members[index..])
               == StyledMembers(start, |indentString|, v.members)
        decreases |v.members| - index
      {
        StyledMembersStep(document, |indentString|, v.members[index..]);
        WriteMember(v.members[index]);
        index := index + 1;
        if index == |v.members| { break; }
        document := document + ",";
        assert v.members[index - 1..][1..] == v.members[index..];
      }
      Unindent();
      WriteWithIndent("}");
    }

    method WriteMember(m: Member)
      requires Printable(m.value) && indentString == Spaces(|indentString|) && !addChildValues
      modifies this
      ensures indentString == old(indentString) && !addChildValues
      ensures document ==
              Styled(Indented(old(document), |indentString|) + Quote(CString(m.name)) + " : ", |indentString|, m.value)
      decreases m
    {
      hide Printable, Spaces, Indented, Quote, CString, Styled;
      var name := ValueToQuotedString(m.name);
      WriteWithIndent(name);
      document := document + " : ";
      WriteValue(m.value);
    }

    method WriteArrayValue(v: Value)
      requires v.Array? && Printable(v) && indentString == Spaces(|indentString|)
      requires addChildValues ==> Leaf(v)
      modifies this
      ensures indentString == old(indentString) && addChildValues == old(addChildValues)
      ensures addChildValues ==> document == old(document) && childValues == old(childValues) + [LeafText(v)]
      ensures !addChildValues ==> document == Styled(old(document), |indentString|, v)
      decreases v, 2
    {
      hide LeafText, Spaces, Indented, OneLine, Line, LeafTexts;
      if v.elems == [] {
        PushValue("[]");
        LeafOfArray(v);
      } else {
        var multi := IsMultilineArray(v);
        if multi {
          WriteLines(v);
        } else {
          WriteLine(v.elems);
        }
      }
    }

    /** Prints the children that are leaves into the buffer, if it comes to that. Afterwards the buffer is
        empty or holds one text for each element, and it is full when the array goes on one line. */
    method IsMultilineArray(v: Value) returns (multi: bool)
      requires v.Array? && v.elems != [] && Printable(v)
      requires indentString == Spaces(|indentString|) && !addChildValues
      modifies this
      ensures indentString == old(indentString) && !addChildValues && document == old(document)
      ensures multi <==> !OneLine(v.elems)
      ensures childValues == [] || (AllLeaves(v.elems) && childValues == LeafTexts(v.elems))
      ensures !multi ==> childValues != []
      decreases v, 1
    {
      hide LeafText, Spaces, Styled;
      var size := |v.elems|;
      multi := size * 3 >= RIGHT_MARGIN;
      childValues := [];
      var index := 0;
      while index < size && !multi
        invariant index <= size && size * 3 >= RIGHT_MARGIN ==> multi
        invariant 0 <= index <= size && childValues == [] && indentString == old(indentString)
        invariant !addChildValues && document == old(document)
        invariant multi ==> !OneLine(v.elems)
        invariant !multi ==> size * 3 < RIGHT_MARGIN && forall i :: 0 <= i < index ==> Leaf(v.elems[i])
      {
        multi := !Leaf(v.elems[index]);
        index := index + 1;
      }
      if !multi {
        assert AllLeaves(v.elems);
        addChildValues := true;
        var lineLength := 4 + (size - 1) * 2;
        index := 0;
        while index < size && !multi
          invariant 0 <= index <= size && !multi && addChildValues
          invariant indentString == old(indentString) && document == old(document)
          invariant childValues == LeafTexts(v.elems)[..index]
          invariant lineLength == 4 + (size - 1) * 2 + TotalLength(childValues)
        {
          WriteValue(v.elems[index]);
          lineLength := lineLength + |childValues[index]|;
          assert childValues[..|childValues| - 1] == LeafTexts(v.elems)[..index];
          index := index + 1;
        }
        addChildValues := false;
        multi := lineLength >= RIGHT_MARGIN;
        assert LeafTexts(v.elems)[..size] == LeafTexts(v.elems);
      }
    }

    method WriteLine(elems: seq<Value>)
      requires elems != [] && AllLeaves(elems) && childValues == LeafTexts(elems)
      modifies `document
      ensures document == old(document) + Line(LeafTexts(elems))
    {
      hide LeafTexts;
      document := document + "[ ";
      var index := 0;
      while index < |elems|
        invariant 0 <= index <= |elems| == |childValues|
        invariant index == 0 ==> document == old(document) + "[ "
        invariant index > 0 ==> document + LineTail(childValues[index..]) == old(document) + Line(childValues)
      {
        if index > 0 { document := document + ", "; }
        document := document + childValues[index];
        assert childValues[index..][1..] == childValues[index + 1..];
        index := index + 1;
      }
      document := document + " ]";
    }

    /** One element on each line, taken from the buffer if it was filled before the first of them. */
    method WriteLines(v: Value)
      requires v.Array? && v.elems != [] && Printable(v) && !OneLine(v.elems)
      requires indentString == Spaces(|indentString|) && !addChildValues
      requires childValues == [] || (AllLeaves(v.elems) && childValues == LeafTexts(v.elems))
      modifies this
      ensures indentString == old(indentString) && !addChildValues
      ensures document == Styled(old(document), |indentString|, v)
      decreases v, 1
    {
      hide LeafText, Spaces, Indented, OneLine, Line, Styled, StyledElements, LeafTexts, Printable;
      StyledArray(document, |indentString|, v);
      WriteWithIndent("[");
      Indent();
      ghost var start := document;
      var hasChildValue := childValues != [];
      var index := 0;
      while true
        invariant index < |v.elems| && !addChildValues
        invariant indentString == Spaces(|indentString|) && |indentString| == |old(indentString)| + INDENT_SIZE
        invariant hasChildValue ==> AllLeaves(v.elems) && childValues == LeafTexts(v.elems)
        invariant StyledElements(document, |indentString|, v.elems[index..])
               == StyledElements(start, |indentString|, v.elems)
        decreases |v.elems| - index
      {
        StyledElementsStep(document, |indentString|, v.elems[index..]);
        if hasChildValue {
          StyledLeaf(Indented(document, |indentString|), |indentString|, v.elems, index);
          WriteWithIndent(childValues[index]);
        } else {
          WriteIndent();
          PrintableChild(v, index);
          WriteValue(v.elems[index]);
        }
        index := index + 1;
        if index == |v.elems| { break; }
        document := document + ",";
        assert v.elems[index - 1..][1..] == v.elems[index..];
      }
      Unindent();
      WriteWithIndent("]");
    }
  }

  lemma LeafOfArray(v: Value)
    requires v == Array([])
    ensures LeafText(v) == "[]"
  {
  }

  lemma LeafOfObject(v: Value)
    requires v == Object([])
    ensures LeafText(v) == "{}"
  {
  }

  lemma PrintableChild(v: Value, index: nat)
    requires v.Array? && index < |v.elems| && Printable(v)
    ensures Printable(v.elems[index])
  {
  }

  lemma StyledLeaf(doc: string, indent: nat, elems: seq<Value>, index: nat)
    requires AllLeaves(elems) && index < |elems|
    ensures Styled(doc, indent, elems[index]) == doc + LeafTexts(elems)[index] && |LeafTexts(elems)| == |elems|
  {
    hide LeafText;
  }

  lemma StyledArray(doc: string, indent: nat, v: Value)
    requires v.Array? && v.elems != [] && !OneLine(v.elems)
    ensures Styled(doc, indent, v) ==
            Indented(StyledElements(Indented(doc, indent) + "[", indent + INDENT_SIZE, v.elems), indent) + "]"
  {
    hide OneLine, Indented, StyledElements;
  }

  lemma StyledObject(doc: string, indent: nat, v: Value)
    requires v.Object? && v.members != []
    ensures Styled(doc, indent, v) ==
            Indented(StyledMembers(Indented(doc, indent) + "{", indent + INDENT_SIZE, v.members), indent) + "}"
  {
    hide Indented, StyledMembers;
  }

  lemma StyledElementsStep(doc: string, indent: nat, elems: seq<Value>)
    requires elems != []
    ensures var doc' := Styled(Indented(doc, indent), indent, elems[0]);
      StyledElements(doc, indent, elems) ==
      if |elems| == 1 then doc' else StyledElements(doc' + ",", indent, elems[1..])
  {
    hide Styled, Indented;
  }

  lemma StyledMembersStep(doc: string, indent: nat, members: seq<Member>)
    requires members != []
    ensures
      var doc' := Styled(Indented(doc, indent) + Quote(CString(members[0].name)) + " : ", indent, members[0].value);
      StyledMembers(doc, indent, members) ==
      if |members| == 1 then doc' else StyledMembers(doc' + ",", indent, members[1..])
  {
    hide Styled, Indented, Quote, CString;
  }

  // ----- the styled text stands for the tokens of the value

  lemma IndentedFirm(doc: string, indent: nat, before: seq<Token>)
    requires Firm(doc, before) || (Emits(doc, before) && Closed(doc))
    ensures Firm(Indented(doc, indent), before)
  {
    hide Lex;
    FirmSpaces(Spaces(indent));
    FirmSpaces("\n" + Spaces(indent));
    assert before + [] == before;
    if doc == "" {
      assert Firm(doc, before);
      assert doc + Spaces(indent) == Spaces(indent);
      FirmThenFirm(doc, before, Spaces(indent), []);
    } else if doc[|doc| - 1] == '\n' {
      FirmThenFirm(doc, before, Spaces(indent), []);
    } else if doc[|doc| - 1] != ' ' {
      assert Emits(doc, before);
      EmitsThenFirm(doc, before, "\n" + Spaces(indent), []);
      assert doc + ("\n" + Spaces(indent)) == doc + "\n" + Spaces(indent);
    }
  }

  /** If the document stands for `before`, then with v printed at its end it stands for that and for v. */
  lemma {:induction false} StyledEmits(doc: string, indent: nat, v: Value, before: seq<Token>)
    requires WellFormed(v) && Firm(doc, before)
    ensures Emits(Styled(doc, indent, v), before + TokensOf(v)) && Closed(Styled(doc, indent, v))
    decreases v, 1
  {
    hide Emits, Firm, LeafText, WellFormed, TokensOf, Styled, OneLine, Closed;
    if Leaf(v) {
      LeafEmits(v);
      FirmThenEmits(doc, before, LeafText(v), TokensOf(v));
      StyledLeafValue(doc, indent, v);
    } else if v.Array? {
      if OneLine(v.elems) {
        StyledLineEmits(doc, indent, v, before);
      } else {
        StyledLinesEmit(doc, indent, v, before);
      }
    } else {
      StyledObjectEmits(doc, indent, v, before);
    }
  }

  lemma StyledLeafValue(doc: string, indent: nat, v: Value)
    requires Leaf(v)
    ensures Styled(doc, indent, v) == doc + LeafText(v)
    ensures Closed(LeafText(v)) ==> Closed(doc + LeafText(v))
  {
    hide LeafText;
  }

  lemma StyledLineEmits(doc: string, indent: nat, v: Value, before: seq<Token>)
    requires v.Array? && v.elems != [] && OneLine(v.elems) && WellFormed(v) && Firm(doc, before)
    ensures Emits(Styled(doc, indent, v), before + TokensOf(v)) && Closed(Styled(doc, indent, v))
  {
    hide Emits, Firm, Line, LeafTexts, WellFormed, TokensOf;
    var line := Line(LeafTexts(v.elems));
    LineFirm(v.elems);
    FirmThenFirm(doc, before, line, TokensOf(v));
    FirmEmits(doc + line, before + TokensOf(v));
  }

  lemma {:induction false} StyledLinesEmit(doc: string, indent: nat, v: Value, before: seq<Token>)
    requires v.Array? && v.elems != [] && !OneLine(v.elems) && WellFormed(v) && Firm(doc, before)
    ensures Emits(Styled(doc, indent, v), before + TokensOf(v)) && Closed(Styled(doc, indent, v))
    decreases v, 0
  {
    hide Emits, Firm, OneLine, Indented, WellFormed, TokensOf, Styled, StyledElements;
    var start := Indented(doc, indent) + "[";
    StyledArray(doc, indent, v);
    IndentedFirm(doc, indent, before);
    FirmMark(LBracket);
    FirmThenFirm(Indented(doc, indent), before, "[", [LBracket]);
    StyledElementsEmit(start, indent + INDENT_SIZE, v.elems, before + [LBracket]);
    var tokens := before + [LBracket] + ElementsNoEnd(v.elems);
    CloseFirm(StyledElements(start, indent + INDENT_SIZE, v.elems), indent, tokens, RBracket);
    TokensNoEnd(v.elems);
    assert tokens + [RBracket] == before + TokensOf(v);
  }

  lemma {:induction false} StyledObjectEmits(doc: string, indent: nat, v: Value, before: seq<Token>)
    requires v.Object? && v.members != [] && WellFormed(v) && Firm(doc, before)
    ensures Emits(Styled(doc, indent, v), before + TokensOf(v)) && Closed(Styled(doc, indent, v))
    decreases v, 0
  {
    hide Emits, Firm, Indented, WellFormed, TokensOf, Styled, StyledMembers;
    var start := Indented(doc, indent) + "{";
    StyledObject(doc, indent, v);
    IndentedFirm(doc, indent, before);
    FirmMark(LBrace);
    FirmThenFirm(Indented(doc, indent), before, "{", [LBrace]);
    StyledMembersEmit(start, indent + INDENT_SIZE, v.members, before + [LBrace]);
    var tokens := before + [LBrace] + MembersNoEnd(v.members);
    CloseFirm(StyledMembers(start, indent + INDENT_SIZE, v.members), indent, tokens, RBrace);
    TokensNoEndObject(v.members);
    assert tokens + [RBrace] == before + TokensOf(v);
  }

  lemma CloseFirm(inner: string, indent: nat, tokens: seq<Token>, shut: Token)
    requires Emits(inner, tokens) && Closed(inner) && shut in {RBracket, RBrace}
    ensures Emits(Indented(inner, indent) + [Mark(shut)], tokens + [shut])
    ensures Closed(Indented(inner, indent) + [Mark(shut)])
  {
    hide Emits, Firm, Indented;
    IndentedFirm(inner, indent, tokens);
    FirmMark(shut);
    FirmThenFirm(Indented(inner, indent), tokens, [Mark(shut)], [shut]);
    FirmEmits(Indented(inner, indent) + [Mark(shut)], tokens + [shut]);
  }

  /** The tokens of the elements with the commas between them. */
  function ElementsNoEnd(elems: seq<Value>): seq<Token>
    requires elems != []
  {
    TokensOf(elems[0]) + if |elems| == 1 then [] else [Comma] + ElementsNoEnd(elems[1..])
  }

  function MembersNoEnd(members: seq<Member>): seq<Token>
    requires members != []
  {
    PairTokens(members[0]) + if |members| == 1 then [] else [Comma] + MembersNoEnd(members[1..])
  }

  lemma {:induction false} ElementsEnd(elems: seq<Value>)
    requires elems != []
    ensures TokensOf(elems[0]) + ElementTokens(elems[1..]) == ElementsNoEnd(elems) + [RBracket]
  {
    hide TokensOf;
    if |elems| > 1 {
      ElementsEnd(elems[1..]);
      assert ElementTokens(elems[1..]) == [Comma] + (ElementsNoEnd(elems[1..]) + [RBracket]);
    } else {
      assert ElementTokens(elems[1..]) == [RBracket];
    }
  }

  lemma TokensNoEnd(elems: seq<Value>)
    requires elems != []
    ensures TokensOf(Array(elems)) == [LBracket] + ElementsNoEnd(elems) + [RBracket]
  {
    hide ElementsNoEnd, ElementTokens;
    ElementsEnd(elems);
  }

  lemma {:induction false} MembersEnd(members: seq<Member>)
    requires members != []
    ensures PairTokens(members[0]) + MemberTokens(members[1..]) == MembersNoEnd(members) + [RBrace]
  {
    hide PairTokens;
    if |members| > 1 {
      MembersEnd(members[1..]);
      assert MemberTokens(members[1..]) == [Comma] + (MembersNoEnd(members[1..]) + [RBrace]);
    } else {
      assert MemberTokens(members[1..]) == [RBrace];
    }
  }

  lemma TokensNoEndObject(members: seq<Member>)
    requires members != []
    ensures TokensOf(Object(members)) == [LBrace] + MembersNoEnd(members) + [RBrace]
  {
    hide MembersNoEnd, MemberTokens, PairTokens;
    MembersEnd(members);
  }

  lemma {:induction false} StyledElementsEmit(doc: string, indent: nat, elems: seq<Value>, before: seq<Token>)
    requires elems != [] && Firm(doc, before) && WellFormed(Array(elems))
    ensures Emits(StyledElements(doc, indent, elems), before + ElementsNoEnd(elems))
    ensures Closed(StyledElements(doc, indent, elems))
    decreases elems, 0
  {
    hide Emits, Firm, Indented, Styled, StyledElements, WellFormed, TokensOf, Closed;
    StyledElementsStep(doc, indent, elems);
    WellFormedElements(elems);
    IndentedFirm(doc, indent, before);
    var doc' := Styled(Indented(doc, indent), indent, elems[0]);
    StyledEmits(Indented(doc, indent), indent, elems[0], before);
    var before' := before + TokensOf(elems[0]);
    if |elems| == 1 {
      assert before' == before + ElementsNoEnd(elems);
    } else {
      FirmMark(Comma);
      EmitsThenFirm(doc', before', ",", [Comma]);
      StyledElementsEmit(doc' + ",", indent, elems[1..], before' + [Comma]);
      assert before' + [Comma] + ElementsNoEnd(elems[1..]) == before + ElementsNoEnd(elems);
    }
  }

  lemma WellFormedElements(elems: seq<Value>)
    requires elems != [] && WellFormed(Array(elems))
    ensures WellFormed(elems[0]) && WellFormed(Array(elems[1..]))
  {
  }

  lemma {:induction false} StyledMembersEmit(doc: string, indent: nat, members: seq<Member>, before: seq<Token>)
    requires members != [] && Firm(doc, before) && WellFormed(Object(members))
    ensures Emits(StyledMembers(doc, indent, members), before + MembersNoEnd(members))
    ensures Closed(StyledMembers(doc, indent, members))
    decreases members, 0
  {
    hide Emits, Firm, Indented, Styled, StyledMembers, WellFormed, TokensOf, Closed, Quote, CString, PairTokens, Less;
    StyledMembersStep(doc, indent, members);
    WellFormedRest(members);
    var m := members[0];
    var start := Indented(doc, indent) + Quote(CString(m.name)) + " : ";
    MemberStart(doc, indent, m, before);
    var doc' := Styled(start, indent, m.value);
    StyledEmits(start, indent, m.value, before + [Quoted(Escape(m.name)), Colon]);
    var before' := before + PairTokens(m);
    assert before + [Quoted(Escape(m.name)), Colon] + TokensOf(m.value) == before' by { PairParts(m); }
    if |members| == 1 {
      assert before' == before + MembersNoEnd(members);
    } else {
      FirmMark(Comma);
      EmitsThenFirm(doc', before', ",", [Comma]);
      StyledMembersEmit(doc' + ",", indent, members[1..], before' + [Comma]);
      assert before' + [Comma] + MembersNoEnd(members[1..]) == before + MembersNoEnd(members);
    }
  }

  lemma PairParts(m: Member)
    ensures PairTokens(m) == [Quoted(Escape(m.name)), Colon] + TokensOf(m.value)
  {
  }

  lemma MemberStart(doc: string, indent: nat, m: Member, before: seq<Token>)
    requires Firm(doc, before) && NUL !in m.name
    ensures Firm(Indented(doc, indent) + Quote(CString(m.name)) + " : ", before + [Quoted(Escape(m.name)), Colon])
  {
    hide Emits, Firm, Indented, Quote, Escape;
    IndentedFirm(doc, indent, before);
    CStringWhole(m.name);
    FirmQuote(m.name);
    var named := Indented(doc, indent) + Quote(m.name);
    FirmThenFirm(Indented(doc, indent), before, Quote(m.name), [Quoted(Escape(m.name))]);
    FirmSpaces(" ");
    FirmMark(Colon);
    FirmThenFirm(" ", [], ":", [Colon]);
    FirmThenFirm(" " + ":", [] + [Colon], " ", []);
    assert " " + ":" + " " == " : " && [] + [Colon] + [] == [Colon];
    FirmThenFirm(named, before + [Quoted(Escape(m.name))], " : ", [Colon]);
    assert before + [Quoted(Escape(m.name))] + [Colon] == before + [Quoted(Escape(m.name)), Colon];
  }

  lemma LineFirm(elems: seq<Value>)
    requires elems != [] && OneLine(elems) && WellFormed(Array(elems))
    ensures Firm(Line(LeafTexts(elems)), TokensOf(Array(elems))) && Closed(Line(LeafTexts(elems)))
  {
    hide Emits, Firm, TokensOf, LeafText, WellFormed;
    WellFormedElements(elems);
    LeafEmits(elems[0]);
    LineTailFirm(elems[1..]);
    assert LeafTexts(elems)[1..] == LeafTexts(elems[1..]);
    var tail := LineTail(LeafTexts(elems[1..]));
    EmitsThenFirm(LeafText(elems[0]), TokensOf(elems[0]), tail, ElementTokens(elems[1..]));
    FirmMark(LBracket);
    FirmSpaces(" ");
    FirmThenFirm("[", [LBracket], " ", []);
    FirmThenFirm("[" + " ", [LBracket] + [], LeafText(elems[0]) + tail, TokensOf(elems[0]) + ElementTokens(elems[1..]));
    assert "[" + " " == "[ " && [LBracket] + [] == [LBracket];
    assert Line(LeafTexts(elems)) == "[ " + (LeafText(elems[0]) + tail);
    ArrayParts(elems, false);
  }

  lemma {:induction false} LineTailFirm(elems: seq<Value>)
    requires AllLeaves(elems) && WellFormed(Array(elems))
    ensures var tail := LineTail(LeafTexts(elems));
      Firm(tail, ElementTokens(elems)) && tail != "" && Safe(tail) && Closed(tail)
  {
    hide Emits, Firm, TokensOf, LeafText, WellFormed;
    MarksFirm();
    LineTailEnds(LeafTexts(elems));
    if elems != [] {
      WellFormedElements(elems);
      LeafEmits(elems[0]);
      LineTailFirm(elems[1..]);
      LineTailParts(elems);
      hide LineTail, ElementTokens, LeafTexts;
      var tail := LineTail(LeafTexts(elems[1..]));
      EmitsThenFirm(LeafText(elems[0]), TokensOf(elems[0]), tail, ElementTokens(elems[1..]));
      FirmThenFirm(", ", [Comma], LeafText(elems[0]) + tail, TokensOf(elems[0]) + ElementTokens(elems[1..]));
    }
  }

  lemma LineTailParts(elems: seq<Value>)
    requires AllLeaves(elems) && elems != []
    ensures LineTail(LeafTexts(elems)) == ", " + (LeafText(elems[0]) + LineTail(LeafTexts(elems[1..])))
    ensures ElementTokens(elems) == [Comma] + (TokensOf(elems[0]) + ElementTokens(elems[1..]))
  {
    hide TokensOf, LeafText, LeafTexts, LineTail;
    LeafTextsParts(elems);
    var parts := LeafTexts(elems);
    LineTailStep(parts);
  }

  lemma LeafTextsParts(elems: seq<Value>)
    requires AllLeaves(elems) && elems != []
    ensures LeafTexts(elems) != [] && LeafTexts(elems)[0] == LeafText(elems[0])
    ensures LeafTexts(elems)[1..] == LeafTexts(elems[1..])
  {
    hide LeafText;
  }

  lemma LineTailStep(parts: seq<string>)
    requires parts != []
    ensures LineTail(parts) == ", " + (parts[0] + LineTail(parts[1..]))
  {
    assert ", " + parts[0] + LineTail(parts[1..]) == ", " + (parts[0] + LineTail(parts[1..]));
  }

  lemma {:induction false} LineTailEnds(parts: seq<string>)
    ensures LineTail(parts) != "" && Safe(LineTail(parts)) && Closed(LineTail(parts))
    decreases |parts|
  {
    if parts != [] {
      LineTailEnds(parts[1..]);
      LineTailStep(parts);
      LastOfBoth(", " + parts[0], LineTail(parts[1..]));
    }
  }

  lemma LastOfBoth(a: string, b: string)
    requires Closed(b)
    ensures Closed(a + b)
  {
  }

  /** The marks at the end of an array on one line, and between its elements. */
  lemma MarksFirm()
    ensures Firm(" ]", [RBracket]) && Firm(", ", [Comma])
  {
    hide Firm;
    FirmSpaces(" ");
    FirmMark(RBracket);
    FirmMark(Comma);
    FirmThenFirm(" ", [], "]", [RBracket]);
    FirmThenFirm(",", [Comma], " ", []);
    assert " " + "]" == " ]" && [] + [RBracket] == [RBracket];
    assert "," + " " == ", " && [Comma] + [] == [Comma];
  }

  /** The styled text is read as the value, and so as the same value as the compact text. */
  lemma StyledRoundTrip(v: Value)
    requires WellFormed(v)
    ensures Parse(Styled("", 0, v) + "\n") == Some(Canon(v))
    ensures Parse(Styled("", 0, v) + "\n") == Parse(FastText(v, false) + "\n")
  {
    hide Emits, Styled, FastText, WellFormed, Parse, Canon, TokensOf;
    FirmSpaces("");
    StyledEmits("", 0, v, []);
    assert [] + TokensOf(v) == TokensOf(v);
    EmittedReads(Styled("", 0, v), v);
    FastRoundTrip(v, false);
  }

  /** An array that is put on one line ends before the right margin, measured from where it begins. */
  lemma {:induction false} LineFits(elems: seq<Value>)
    requires elems != [] && OneLine(elems)
    ensures |Line(LeafTexts(elems))| < RIGHT_MARGIN
  {
    var parts := LeafTexts(elems);
    TailLength(parts[1..]);
    TotalFromFront(parts);
  }

  lemma {:induction false} TailLength(parts: seq<string>)
    ensures |LineTail(parts)| == 2 + 2 * |parts| + TotalLength(parts)
  {
    if parts != [] {
      TailLength(parts[1..]);
      TotalFromFront(parts);
    }
  }

  lemma {:induction false} TotalFromFront(parts: seq<string>)
    requires parts != []
    ensures TotalLength(parts) == |parts[0]| + TotalLength(parts[1..])
  {
    if |parts| > 1 {
      var front := parts[..|parts| - 1];
      TotalFromFront(front);
      assert front[1..] == parts[1..][..|parts| - 2];
    }
  }
}
