/** The layout of the styled text: what stands on which line, and how far in. */
module JsonLayout {
  import opened JsonValue
  import opened JsonText
  import opened JsonTokens
  import opened JsonWriter
  import opened JsonStyled

  /** The text of v, whose first line is indented already: what is in a bracket stands on lines of its own, three
      blanks further in than the line with the bracket, and the closing bracket as far in as that line. */
  function Shown(v: Value, indent: nat): string
    decreases v, 1
  {
    if Leaf(v) then LeafText(v)
    else match v
      case Array(elems) =>
        if OneLine(elems) then Line(LeafTexts(elems))
        else "[" + ShownElements(elems, indent + 3) + "\n" + Spaces(indent) + "]"
      case Object(members) => "{" + ShownMembers(members, indent + 3) + "\n" + Spaces(indent) + "}"
  }

  function ShownElements(elems: seq<Value>, indent: nat): string
    requires elems != []
    decreases elems, 0
  {
    "\n" + Spaces(indent) + Shown(elems[0], indent)
    + if |elems| == 1 then "" else "," + ShownElements(elems[1..], indent)
  }

  function ShownMembers(members: seq<Member>, indent: nat): string
    requires members != []
    decreases members, 0
  {
    "\n" + Spaces(indent) + Quote(CString(members[0].name)) + " : " + Shown(members[0].value, indent)
    + if |members| == 1 then "" else "," + ShownMembers(members[1..], indent)
  }

  lemma ClosedAfter(a: string, b: string)
    requires Closed(b)
    ensures Closed(a + b)
  {
  }

  lemma NewLine(doc: string, indent: nat)
    requires Closed(doc)
    ensures Indented(doc, indent) == doc + "\n" + Spaces(indent)
    ensures indent > 0 ==> Indented(doc + "\n" + Spaces(indent), indent) == doc + "\n" + Spaces(indent)
  {
  }

  /** The writer prints that text, at the end of a document that is indented as it should be. */
  lemma {:induction false} StyledIsShown(doc: string, indent: nat, v: Value)
    requires WellFormed(v) && (Indented(doc, indent) == doc || Leaf(v) || (v.Array? && OneLine(v.elems)))
    ensures Styled(doc, indent, v) == doc + Shown(v, indent) && Closed(Shown(v, indent))
    decreases v, 1
  {
    if Leaf(v) {
      LeafEmits(v);
    } else if v.Array? && OneLine(v.elems) {
      LineCloses(v.elems);
    } else if v.Array? {
      ArrayShown(doc, indent, v.elems);
    } else {
      ObjectShown(doc, indent, v.members);
    }
  }

  lemma {:induction false} ArrayShown(doc: string, indent: nat, elems: seq<Value>)
    requires Indented(doc, indent) == doc && elems != [] && !OneLine(elems) && forall e :: e in elems ==> WellFormed(e)
    ensures Styled(doc, indent, Array(elems)) == doc + Shown(Array(elems), indent)
    ensures Closed(Shown(Array(elems), indent))
    decreases elems, 1
  {
    hide Styled, Shown, WellFormed, OneLine, Indented, StyledElements, ShownElements;
    ArrayUnfolds(doc, indent, elems);
    Brackets(doc);
    ElementsShown(doc + "[", indent + 3, elems);
    Shuts(doc, "[", ShownElements(elems, indent + 3), "]", indent);
  }

  lemma {:induction false} ObjectShown(doc: string, indent: nat, members: seq<Member>)
    requires Indented(doc, indent) == doc && members != [] && forall m :: m in members ==> WellFormed(m.value)
    ensures Styled(doc, indent, Object(members)) == doc + Shown(Object(members), indent)
    ensures Closed(Shown(Object(members), indent))
    decreases members, 1
  {
    hide Styled, Shown, WellFormed, Indented, StyledMembers, ShownMembers;
    ObjectUnfolds(doc, indent, members);
    Brackets(doc);
    MembersShown(doc + "{", indent + 3, members);
    Shuts(doc, "{", ShownMembers(members, indent + 3), "}", indent);
  }

  lemma Brackets(doc: string)
    ensures Closed(doc + "[") && Closed(doc + "{") && Closed("]") && Closed("}")
  {
  }

  lemma ArrayUnfolds(doc: string, indent: nat, elems: seq<Value>)
    requires elems != [] && !OneLine(elems)
    ensures Styled(doc, indent, Array(elems)) ==
            Indented(StyledElements(Indented(doc, indent) + "[", indent + 3, elems), indent) + "]"
    ensures Shown(Array(elems), indent) == "[" + ShownElements(elems, indent + 3) + "\n" + Spaces(indent) + "]"
  {
    hide OneLine, Indented;
  }

  lemma ObjectUnfolds(doc: string, indent: nat, members: seq<Member>)
    requires members != []
    ensures Styled(doc, indent, Object(members)) ==
            Indented(StyledMembers(Indented(doc, indent) + "{", indent + 3, members), indent) + "}"
    ensures Shown(Object(members), indent) == "{" + ShownMembers(members, indent + 3) + "\n" + Spaces(indent) + "}"
  {
    hide Indented;
  }

  /** The closing bracket comes on a line of its own. */
  lemma Shuts(doc: string, open: string, inside: string, close: string, indent: nat)
    requires Closed(doc + open + inside) && Closed(close)
    ensures Indented(doc + open + inside, indent) + close == doc + (open + inside + "\n" + Spaces(indent) + close)
    ensures Closed(open + inside + "\n" + Spaces(indent) + close)
  {
    NewLine(doc + open + inside, indent);
    ClosedAfter(open + inside + "\n" + Spaces(indent), close);
    assert doc + open + inside + "\n" + Spaces(indent) + close == doc + (open + inside + "\n" + Spaces(indent) + close);
  }

  lemma LineCloses(elems: seq<Value>)
    requires OneLine(elems) && elems != []
    ensures Closed(Line(LeafTexts(elems)))
  {
    LineTailEnds(LeafTexts(elems)[1..]);
    ClosedAfter("[ " + LeafTexts(elems)[0], LineTail(LeafTexts(elems)[1..]));
  }

  lemma {:induction false} ElementsShown(doc: string, indent: nat, elems: seq<Value>)
    requires Closed(doc) && indent > 0 && elems != [] && forall e :: e in elems ==> WellFormed(e)
    ensures StyledElements(doc, indent, elems) == doc + ShownElements(elems, indent)
    ensures Closed(doc + ShownElements(elems, indent))
    decreases elems, 0
  {
    hide Shown, Styled, WellFormed, Indented;
    NewLine(doc, indent);
    var line := doc + "\n" + Spaces(indent);
    StyledIsShown(line, indent, elems[0]);
    ClosedAfter(line, Shown(elems[0], indent));
    if |elems| == 1 {
      assert doc + ShownElements(elems, indent) == line + Shown(elems[0], indent);
    } else {
      var doc' := line + Shown(elems[0], indent) + ",";
      assert Closed(doc');
      ElementsShown(doc', indent, elems[1..]);
      assert doc + ShownElements(elems, indent) == doc' + ShownElements(elems[1..], indent);
    }
  }

  lemma {:induction false} MembersShown(doc: string, indent: nat, members: seq<Member>)
    requires Closed(doc) && indent > 0 && members != [] && forall m :: m in members ==> WellFormed(m.value)
    ensures StyledMembers(doc, indent, members) == doc + ShownMembers(members, indent)
    ensures Closed(doc + ShownMembers(members, indent))
    decreases members, 0
  {
    MemberUnfolds(doc, indent, members);
    hide Shown, Styled, WellFormed, Quote, CString, StyledMembers, ShownMembers;
    NewLine(doc, indent);
    var m, start := members[0], doc + "\n" + Spaces(indent) + Quote(CString(members[0].name)) + " : ";
    Blank(doc + "\n" + Spaces(indent) + Quote(CString(members[0].name)), indent);
    hide Indented;
    StyledIsShown(start, indent, m.value);
    ClosedAfter(start, Shown(m.value, indent));
    MemberEnds(doc, Quote(CString(m.name)), Shown(m.value, indent), indent);
    if |members| > 1 {
      var doc' := start + Shown(m.value, indent) + ",";
      MembersShown(doc', indent, members[1..]) by { assert Closed(doc'); }
      GoesOn(doc, Quote(CString(m.name)), Shown(m.value, indent), ShownMembers(members[1..], indent), indent);
    }
  }

  lemma MemberUnfolds(doc: string, indent: nat, members: seq<Member>)
    requires members != []
    ensures var m := members[0];
      var doc' := Styled(Indented(doc, indent) + Quote(CString(m.name)) + " : ", indent, m.value);
      && StyledMembers(doc, indent, members) ==
         (if |members| == 1 then doc' else StyledMembers(doc' + ",", indent, members[1..]))
      && ShownMembers(members, indent) ==
         "\n" + Spaces(indent) + Quote(CString(m.name)) + " : " + Shown(m.value, indent)
         + if |members| == 1 then "" else "," + ShownMembers(members[1..], indent)
  {
    hide Indented, Styled, Shown, Quote, CString;
  }

  /** Behind a blank no new line is begun. */
  lemma Blank(doc: string, indent: nat)
    ensures Indented(doc + " : ", indent) == doc + " : "
  {
  }

  lemma MemberEnds(doc: string, name: string, value: string, indent: nat)
    ensures doc + "\n" + Spaces(indent) + name + " : " + value
         == doc + ("\n" + Spaces(indent) + name + " : " + value + "")
  {
  }

  lemma GoesOn(doc: string, name: string, value: string, more: string, indent: nat)
    ensures doc + "\n" + Spaces(indent) + name + " : " + value + "," + more
         == doc + ("\n" + Spaces(indent) + name + " : " + value + ("," + more))
  {
    var line := "\n" + Spaces(indent) + name + " : " + value;
    assert doc + "\n" + Spaces(indent) + name + " : " + value == doc + line;
  }

  /** So the whole document is laid out. */
  lemma DocumentLayout(v: Value)
    requires WellFormed(v)
    ensures Styled("", 0, v) == Shown(v, 0)
  {
    assert Indented("", 0) == "";
    StyledIsShown("", 0, v);
    assert "" + Shown(v, 0) == Shown(v, 0);
  }

  /** A non-empty array stands on one line exactly when its elements need no more than one each, there are at most
      24 of them, and the line is shorter than 74 chars. */
  lemma OneLineIff(elems: seq<Value>)
    requires elems != []
    ensures OneLine(elems) <==> AllLeaves(elems) && |elems| <= 24 && |Line(LeafTexts(elems))| < 74
  {
    if AllLeaves(elems) {
      TailLength(LeafTexts(elems)[1..]);
      TotalFromFront(LeafTexts(elems));
    }
  }

  /** What stands between a name and its value in the compact text. */
  lemma Separators(m: Member)
    ensures FastPair(m, false) == Quote(CString(m.name)) + ":" + FastText(m.value, false)
    ensures FastPair(m, true) == Quote(CString(m.name)) + ": " + FastText(m.value, true)
  {
  }
}
