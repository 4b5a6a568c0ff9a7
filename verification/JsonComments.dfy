/** Comments: what they are, and that they make no difference where the reader expects them. */
module JsonComments {
  import opened JsonValue
  import opened JsonLexer
  import opened JsonReader

  // ----- what a comment is

  /** A comment between its marks, of which the second does not come earlier, is one token. */
  lemma BlockComment(body: string, rest: string)
    requires forall i :: 0 <= i < |body| ==> !((body + "*/")[i] == '*' && (body + "*/")[i + 1] == '/')
    ensures Lex("/*" + body + "*/" + rest) == [Comment] + Lex(rest)
  {
    hide Lex;
    var s := "/*" + body + "*/" + rest;
    assert s[1..] == "*" + (body + "*/" + rest) && s[1..][1..] == body + "*/" + rest;
    BodyScans(body, rest);
    LexToken(s, Comment, rest);
  }

  lemma {:induction false} BodyScans(body: string, rest: string)
    requires forall i :: 0 <= i < |body| ==> !((body + "*/")[i] == '*' && (body + "*/")[i + 1] == '/')
    ensures SkipCStyle(body + "*/" + rest) == Shut("", rest)
  {
    var s := body + "*/" + rest;
    if body == "" {
      assert s[2..] == rest;
    } else {
      assert s[0] == (body + "*/")[0] && s[1] == (body + "*/")[1];
      assert s[1..] == body[1..] + "*/" + rest;
      forall i | 0 <= i < |body| - 1
        ensures !((body[1..] + "*/")[i] == '*' && (body[1..] + "*/")[i + 1] == '/')
      {
        assert (body[1..] + "*/")[i] == (body + "*/")[i + 1] && (body[1..] + "*/")[i + 1] == (body + "*/")[i + 1 + 1];
      }
      BodyScans(body[1..], rest);
    }
  }

  /** Two slashes begin a comment up to the end of the line, or of the text. */
  lemma LineComment(body: string, end: char, rest: string)
    requires '\r' !in body && '\n' !in body && end in "\r\n"
    ensures Lex("//" + body + [end] + rest) == [Comment] + Lex(rest)
    ensures Lex("//" + body) == [Comment]
  {
    hide Lex;
    var s := "//" + body + [end] + rest;
    assert s[1..] == "/" + (body + [end] + rest) && s[1..][1..] == body + [end] + rest;
    LineScans(body, [end] + rest);
    assert ([end] + rest)[1..] == rest && body + ([end] + rest) == body + [end] + rest;
    LexToken(s, Comment, rest);
    var t := "//" + body;
    assert t[1..] == "/" + body && t[1..][1..] == body && body + "" == body;
    LineScans(body, "");
    LexToken(t, Comment, "");
    assert Lex("") == [] by { LexReads(""); }
  }

  lemma {:induction false} LineScans(body: string, rest: string)
    requires '\r' !in body && '\n' !in body && (rest == "" || rest[0] in "\r\n")
    ensures SkipCppStyle(body + rest) == if rest == "" then "" else rest[1..]
  {
    if body == "" {
      assert body + rest == rest;
    } else {
      assert body[0] in body && (body + rest)[1..] == body[1..] + rest;
      assert forall c :: c in body[1..] ==> c in body;
      LineScans(body[1..], rest);
    }
  }

  // ----- where comments may stand

  function Plain(ts: seq<Token>): seq<Token> {
    if ts == [] then [] else (if ts[0] == Comment then [] else [ts[0]]) + Plain(ts[1..])
  }

  /** No comment stands between the name and the colon of a member, or between brackets with nothing else. */
  ghost predicate Placed(ts: seq<Token>) {
    forall i :: 0 <= i < |ts| ==> PlacedAt(ts[i..])
  }

  predicate PlacedAt(us: seq<Token>) {
    us != [] ==>
      && (us[0] == Comment ==> Head(us[1..]) != Colon)
      && (us[0] == LBracket && Head(us[1..]) == Comment ==> Head(SkipComments(us[1..])) != RBracket)
  }

  lemma PlacedLater(ts: seq<Token>, n: nat)
    requires Placed(ts) && n <= |ts|
    ensures Placed(ts[n..])
  {
    forall i | 0 <= i < |ts[n..]| ensures PlacedAt(ts[n..][i..]) { assert ts[n..][i..] == ts[n + i..]; }
  }

  /** The comments at the beginning are skipped. */
  lemma {:induction false} Skipped(ts: seq<Token>)
    requires Placed(ts)
    ensures var us := SkipComments(ts);
      && Placed(us) && Plain(us) == Plain(ts) && Head(Plain(ts)) == Head(us) && Head(us) != Comment
      && Rest(Plain(ts)) == Plain(Rest(us)) && Placed(Rest(us))
      && (Head(us) == Colon ==> us == ts)
  {
    if ts != [] {
      PlacedLater(ts, 1);
      if ts[0] == Comment {
        Skipped(ts[1..]);
        assert PlacedAt(ts[0..]) && ts[0..] == ts;
      } else {
        assert ([ts[0]] + Plain(ts[1..]))[1..] == Plain(ts[1..]);
      }
    }
  }

  /** What is read from ts is what is read from it without its comments. */
  ghost predicate Agree(r: Parsed, plain: Parsed) {
    plain.Done? ==> r.Done? && r.value == plain.value && Plain(r.rest) == plain.rest && Placed(r.rest)
  }

  lemma {:induction false} ValueIgnoresComments(ts: seq<Token>)
    requires Placed(ts)
    ensures Agree(ReadValue(ts), ReadValue(Plain(ts)))
    decreases |ts|, 1
  {
    hide ReadElements, ReadMembers, DecodeNumber, DecodeString, Plain, Placed;
    Skipped(ts);
    var us := SkipComments(ts);
    var rest := Rest(us);
    NoComments(ts);
    if Head(us) == LBracket {
      Skipped(rest);
      Brackets(us);
      if Head(rest) != RBracket { ElementsIgnoreComments(rest, []); }
    } else if Head(us) == LBrace {
      MembersIgnoreComments(rest, true, []);
    }
  }

  lemma NoComments(ts: seq<Token>)
    requires Placed(ts)
    ensures SkipComments(Plain(ts)) == Plain(ts)
  {
    Skipped(ts);
  }

  lemma Brackets(us: seq<Token>)
    requires Placed(us) && Head(us) == LBracket
    ensures Head(SkipComments(Rest(us))) == RBracket <==> Head(Rest(us)) == RBracket
  {
    assert PlacedAt(us[0..]) && us[0..] == us;
  }

  lemma {:induction false} ElementsIgnoreComments(ts: seq<Token>, elems: seq<Value>)
    requires Placed(ts)
    ensures Agree(ReadElements(ts, elems), ReadElements(Plain(ts), elems))
    decreases |ts|, 2
  {
    hide ReadValue, Plain, Placed;
    ValueIgnoresComments(ts);
    if ReadValue(Plain(ts)).Done? {
      var Done(value, rest) := ReadValue(ts);
      Skipped(rest);
      NoComments(rest);
      var after := SkipComments(rest);
      if Head(after) != RBracket { ElementsIgnoreComments(Rest(after), elems + [value]); }
    }
  }

  lemma {:induction false} MembersIgnoreComments(ts: seq<Token>, unnamed: bool, members: seq<Member>)
    requires Placed(ts)
    ensures Agree(ReadMembers(ts, unnamed, members), ReadMembers(Plain(ts), unnamed, members))
    decreases |ts|, 0
  {
    hide ReadValue, Plain, Placed, DecodeString, Put, CString;
    Skipped(ts);
    NoComments(ts);
    var us := SkipComments(ts);
    if Head(us).Quoted? && DecodeString(Head(us).body).Some? {
      var name, vs := DecodeString(Head(us).body).value, Rest(us);
      Skipped(vs);
      if Head(vs) == Colon {
        ValueIgnoresComments(Rest(vs));
        if ReadValue(Plain(Rest(vs))).Done? {
          var Done(value, rest) := ReadValue(Rest(vs));
          Skipped(rest);
          NoComments(rest);
          var after := SkipComments(rest);
          if Head(after) != RBrace {
            MembersIgnoreComments(Rest(after), name == "", Put(members, CString(name), value));
          }
        }
      }
    }
  }

  /** Comments make no difference where they may stand: if a text is parsed without them, it is with them, and as the
      same value. */
  lemma CommentsIgnored(document: string, plain: string)
    requires Placed(Lex(document)) && Lex(plain) == Plain(Lex(document)) && Parse(plain).Some?
    ensures Parse(document) == Parse(plain)
  {
    ValueIgnoresComments(Lex(document));
  }

  /** Where they may not stand the text is refused: between the brackets of an empty array, and before a colon. */
  lemma CommentsRefused(body: string, rest: seq<Token>)
    ensures ReadValue([LBracket, Comment, RBracket] + rest) == Fail
    ensures ReadValue([LBrace, Quoted(body), Comment, Colon] + rest) == Fail
  {
    var ts, us := [LBracket, Comment, RBracket] + rest, [LBrace, Quoted(body), Comment, Colon] + rest;
    assert ts[1..] == [Comment, RBracket] + rest && ts[1..][1..] == [RBracket] + rest;
    assert us[1..] == [Quoted(body), Comment, Colon] + rest && us[1..][1..] == [Comment, Colon] + rest;
    assert SkipComments(ts[1..][1..]) == ts[1..][1..] && SkipComments(ts[1..]) == ts[1..][1..];
    assert ReadValue(ts[1..]) == Fail;
    assert ReadMembers(us[1..], true, []) == Fail;
  }
}
