/** Ampersands that begin no entity or reference the parser knows. */
module XmlEntities {
  import opened Wrappers
  import opened XmlText

  /** An ampersand at p for which there is no entry in the table, and that is no numeric reference either. */
  predicate UnknownAt(t: string, p: nat) {
    p < |t| && t[p] == '&' && !(p + 1 < |t| && t[p + 1] == '#') && Entity5(t[p..], 0) == None
  }

  /** Where the read pointer is after so many turns, and what is written then. */
  function Turns(t: string, turns: nat, mode: Mode): (r: (nat, string))
    ensures |r.1| <= r.0 <= |t|
  {
    if turns == 0 then (0, "")
    else
      var (p, out) := Turns(t, turns - 1, mode);
      if p == |t| then (p, out)
      else
        var (text, n) := Step(t[p..], t[|out|], mode);
        (p + n, out + text)
  }

  lemma {:induction false} TurnsLead(t: string, turns: nat, mode: Mode)
    ensures var (p, out) := Turns(t, turns, mode); Unescaped(t, 0, "", mode) == Unescaped(t, p, out, mode)
  {
    hide Step, Unescaped;
    if turns > 0 {
      TurnsLead(t, turns - 1, mode);
      var (p, out) := Turns(t, turns - 1, mode);
      if p < |t| { OneStep(t, p, out, mode); }
    }
  }

  /** What is written stays. */
  lemma {:induction false} WrittenStays(t: string, p: nat, out: string, mode: Mode)
    requires |out| <= p <= |t|
    ensures out <= Unescaped(t, p, out, mode)
    decreases |t| - p
  {
    hide Step;
    if p < |t| {
      var (text, n) := Step(t[p..], t[|out|], mode);
      WrittenStays(t, p + n, out + text, mode);
    }
  }

  /** For every text, wherever un-escaping gets to an unknown ampersand: what stands in the text at the write
      pointer appears in its place, so it is kept if and only if an ampersand stands there. */
  lemma UnknownKeptIff(t: string, turns: nat, mode: Mode)
    requires mode.entities && UnknownAt(t, Turns(t, turns, mode).0)
    ensures var r, out := Unescaped(t, 0, "", mode), Turns(t, turns, mode).1;
      |out| < |r| && out <= r && r[|out|] == t[|out|] && (r[|out|] == '&' <==> t[|out|] == '&')
  {
    hide Step, Unescaped, Entity5, Turns;
    var (p, out) := Turns(t, turns, mode);
    TurnsLead(t, turns, mode);
    UnknownStep(t, p, t[|out|], mode);
    OneStep(t, p, out, mode);
    WrittenStays(t, p + 1, out + [t[|out|]], mode);
  }

  lemma UnknownStep(t: string, p: nat, here: char, mode: Mode)
    requires mode.entities && UnknownAt(t, p)
    ensures Step(t[p..], here, mode) == ([here], 1)
  {
  }

  /** The step at u writes less than it reads, or might: a line end of two chars, an entity of the table, a numeric
      reference. */
  predicate MayShrink(u: string, mode: Mode)
    requires u != ""
  {
    || (mode.newlines && |u| > 1 && ((u[0] == CR && u[1] == LF) || (u[0] == LF && u[1] == CR)))
    || (mode.entities && u[0] == '&' && if |u| > 1 && u[1] == '#' then CharacterRef(u).Some? else Entity5(u, 0).Some?)
  }

  lemma OneForOne(u: string, here: char, mode: Mode)
    requires u != "" && !MayShrink(u, mode)
    ensures var (text, n) := Step(u, here, mode); |text| == 1 && n == 1
  {
    hide CharacterRef, Entity5;
  }

  lemma {:induction false} InStep(t: string, p: nat, mode: Mode)
    requires p <= |t| && forall i :: 0 <= i < p ==> !MayShrink(t[i..], mode)
    ensures Turns(t, p, mode).0 == p && |Turns(t, p, mode).1| == p
  {
    hide MayShrink, Step;
    if p > 0 {
      InStep(t, p - 1, mode);
      var (q, out) := Turns(t, p - 1, mode);
      OneForOne(t[q..], t[|out|], mode);
    }
  }

  /** What a caller can check beforehand: with no known entity, numeric reference or line end of two chars before
      it, an unknown ampersand is kept, and in its place. */
  lemma UnknownIsKept(t: string, p: nat, mode: Mode)
    requires mode.entities && UnknownAt(t, p) && forall i :: 0 <= i < p ==> !MayShrink(t[i..], mode)
    ensures var r := Unescaped(t, 0, "", mode); p < |r| && r[p] == '&'
  {
    InStep(t, p, mode);
    UnknownKeptIff(t, p, mode);
  }

  /** Behind an entity that was replaced it is lost: the second char of that entity appears in its place. */
  lemma UnknownIsLost(c: char, x: string)
    requires Flagged(c, false) && Entity5("&" + x, 0) == None && (x == "" || x[0] != '#')
    ensures var r := Unescaped(EntityText(c) + "&" + x, 0, "", TEXT_ELEMENT);
      |r| > 1 && r[0] == c && r[1] == EntityText(c)[1] != '&'
  {
    hide Unescaped, Entity5, Step;
    var t, n := EntityText(c) + "&" + x, |EntityText(c)|;
    assert t == EntityText(c) + ("&" + x) && t[0..] == t && t[n..] == "&" + x;
    assert n >= 4 && EntityText(c)[1] != '&' && t[1] == EntityText(c)[1];
    hide EntityText;
    EntityReads(c, "&" + x, t[0]);
    assert Turns(t, 0, TEXT_ELEMENT) == (0, "") && "" + [c] == [c];
    assert Turns(t, 1, TEXT_ELEMENT) == (n, [c]);
    UnknownKeptIff(t, 1, TEXT_ELEMENT);
  }

  /** One such text. */
  lemma LostIn()
    ensures Unescaped("&lt;&x", 0, "", TEXT_ELEMENT) == "<lx"
  {
    var t := "&lt;&x";
    hide Unescaped;
    assert t[0..] == t && t[4..] == "&x" && t[5..] == "x";
    assert Step(t, '&', TEXT_ELEMENT) == ("<", 4) by {
      EntityReads('<', "&x", '&');
      assert t == EntityText('<') + "&x";
    }
    OneStep(t, 0, "", TEXT_ELEMENT);
    assert "" + "<" == "<";
    assert Entity5("&x", 0) == None;
    OneStep(t, 4, "<", TEXT_ELEMENT);
    assert "<" + [t[1]] == "<l";
    OneStep(t, 5, "<l", TEXT_ELEMENT);
    assert "<l" + ['x'] == "<lx";
    UnescapedEnd(t, "<lx", TEXT_ELEMENT);
  }
}
