/**
 * Text of tool calls in the prompt: rendering as CDATA sections and escaping in attributes
 * (internal/prompt/tool_calls.go), read back by the rules of XML 1.0.
 */
module PromptXml {

  datatype Option<T> = None | Some(value: T)

  const OPEN := "<![CDATA["
  const CLOSE := "]]>"
  const SPLIT_CLOSE := "]]]]><![CDATA[>"

  predicate OccursAt(s: string, p: string, i: nat) {
    i + |p| <= |s| && s[i..i + |p|] == p
  }

  predicate StartsWith(s: string, p: string) {
    OccursAt(s, p, 0)
  }

  /** An occurrence fixes every character it covers. */
  lemma OccurrenceChar(s: string, p: string, i: nat, d: nat)
    requires d < |p| && OccursAt(s, p, i)
    ensures s[i + d] == p[d]
  {
    assert s[i..i + |p|][d] == p[d];
  }

  lemma Mismatch(s: string, p: string, i: nat, d: nat)
    requires d < |p| && i + d < |s| && s[i + d] != p[d]
    ensures !OccursAt(s, p, i)
  {
    if OccursAt(s, p, i) {
      OccurrenceChar(s, p, i, d);
    }
  }

  ghost predicate Contains(s: string, p: string) {
    exists i: nat :: OccursAt(s, p, i)
  }

  /** The first position of `p` in `s`. */
  function Index(s: string, p: string): (r: Option<nat>)
    ensures r.None? ==> !Contains(s, p)
    ensures r.Some? ==> OccursAt(s, p, r.value) && forall j: nat :: j < r.value ==> !OccursAt(s, p, j)
  {
    IndexFrom(s, p, 0)
  }

  function IndexFrom(s: string, p: string, i: nat): (r: Option<nat>)
    requires i <= |s|
    requires forall j: nat :: j < i ==> !OccursAt(s, p, j)
    ensures r.None? ==> !Contains(s, p)
    ensures r.Some? ==> OccursAt(s, p, r.value) && forall j: nat :: j < r.value ==> !OccursAt(s, p, j)
    decreases |s| - i
  {
    if OccursAt(s, p, i) then Some(i)
    else if i == |s| then None
    else IndexFrom(s, p, i + 1)
  }

  /** Replaces the non-overlapping occurrences of `p`, found from the left. */
  function ReplaceAll(s: string, p: string, q: string): string
    requires p != ""
  {
    if s == "" then ""
    else if StartsWith(s, p) then q + ReplaceAll(s[|p|..], p, q)
    else [s[0]] + ReplaceAll(s[1..], p, q)
  }

  function RenderText(text: string): string {
    if text == "" then ""
    else if Index(text, CLOSE).Some? then OPEN + ReplaceAll(text, CLOSE, SPLIT_CLOSE) + CLOSE
    else OPEN + text + CLOSE
  }

  // ---------------------------------------------------------------- reading CDATA back

  /**
   * The bodies of consecutive CDATA sections, section 2.7 of XML 1.0: each section ends at the
   * first terminator after its opening, and nothing stands between sections.
   */
  function ReadSections(s: string): Option<seq<string>>
    decreases |s|
  {
    if s == "" then Some([])
    else if !StartsWith(s, OPEN) then None
    else
      var rest := s[|OPEN|..];
      match Index(rest, CLOSE)
      case None => None
      case Some(k) =>
        match ReadSections(rest[k + |CLOSE|..])
        case None => None
        case Some(bodies) => Some([rest[..k]] + bodies)
  }

  function Joined(parts: seq<string>): string {
    if parts == [] then "" else parts[0] + Joined(parts[1..])
  }

  lemma IndexIsFirst(s: string, p: string, k: nat)
    requires OccursAt(s, p, k)
    requires forall j: nat :: j < k ==> !OccursAt(s, p, j)
    ensures Index(s, p) == Some(k)
  {
    assert Contains(s, p);
  }

  /** A section whose body holds no terminator is read as that body, even when the body ends in brackets. */
  lemma ReadOne(body: string, rest: string)
    requires !Contains(body, CLOSE)
    ensures var s := OPEN + (body + CLOSE + rest);
      ReadSections(s) ==
      if ReadSections(rest).None? then None else Some([body] + ReadSections(rest).value)
  {
    var after := body + CLOSE + rest;
    var s := OPEN + after;
    assert s[|OPEN|..] == after;
    assert StartsWith(s, OPEN);
    var k := |body|;
    assert after[k..k + |CLOSE|] == CLOSE;
    forall j: nat | j < k ensures !OccursAt(after, CLOSE, j) {
      if j + 2 < k {
        assert body[j..j + 3] == after[j..j + 3];
        assert !OccursAt(body, CLOSE, j);
      } else {
        Mismatch(after, CLOSE, j, 2);
      }
    }
    IndexIsFirst(after, CLOSE, k);
    assert after[..k] == body;
    assert after[k + |CLOSE|..] == rest;
  }

  lemma ReplaceStep(s: string)
    requires s != "" && !OccursAt(s, CLOSE, 0)
    ensures ReplaceAll(s, CLOSE, SPLIT_CLOSE) == [s[0]] + ReplaceAll(s[1..], CLOSE, SPLIT_CLOSE)
  {
  }

  lemma OccurrenceShift(s: string, p: string, c: nat, j: nat)
    requires c <= |s|
    ensures OccursAt(s[c..], p, j) == OccursAt(s, p, c + j)
  {
    if c + j + |p| <= |s| {
      assert s[c..][j..j + |p|] == s[c + j..c + j + |p|];
    }
  }

  /** Up to the first terminator, replacement copies the text. */
  lemma {:induction false} ReplaceSkips(s: string, k: nat)
    requires k <= |s|
    requires forall j: nat :: j < k ==> !OccursAt(s, CLOSE, j)
    ensures ReplaceAll(s, CLOSE, SPLIT_CLOSE) == s[..k] + ReplaceAll(s[k..], CLOSE, SPLIT_CLOSE)
  {
    hide ReplaceAll, OccursAt;
    if k == 0 {
      assert s[0..] == s;
    } else {
      ReplaceStep(s);
      forall j: nat | j < k - 1 ensures !OccursAt(s[1..], CLOSE, j) {
        OccurrenceShift(s, CLOSE, 1, j);
      }
      ReplaceSkips(s[1..], k - 1);
      assert s[1..][k - 1..] == s[k..];
      assert s[..k] == [s[0]] + s[1..][..k - 1];
    }
  }

  /** Replacement leaves a text without a terminator alone. */
  lemma ReplaceNothing(s: string)
    requires !Contains(s, CLOSE)
    ensures ReplaceAll(s, CLOSE, SPLIT_CLOSE) == s
  {
    ReplaceSkips(s, |s|);
  }

  lemma ReplaceHead(s: string)
    requires StartsWith(s, CLOSE)
    ensures ReplaceAll(s, CLOSE, SPLIT_CLOSE) == SPLIT_CLOSE + ReplaceAll(s[3..], CLOSE, SPLIT_CLOSE)
  {
  }

  lemma ReplaceAfterBrackets(s: string)
    requires s != "" && s[0] == '>'
    ensures ReplaceAll(s, CLOSE, SPLIT_CLOSE) == ">" + ReplaceAll(s[1..], CLOSE, SPLIT_CLOSE)
  {
    Mismatch(s, CLOSE, 0, 0);
  }

  /** The first terminator ends one section after its brackets and opens the next before its `>`. */
  lemma ReplaceFirst(s: string, k: nat)
    requires OccursAt(s, CLOSE, k)
    requires forall j: nat :: j < k ==> !OccursAt(s, CLOSE, j)
    ensures ReplaceAll(s, CLOSE, SPLIT_CLOSE) ==
            s[..k + 2] + CLOSE + (OPEN + ReplaceAll(s[k + 2..], CLOSE, SPLIT_CLOSE))
  {
    hide ReplaceAll;
    ReplaceSkips(s, k);
    var t, u := s[k..], s[k + 2..];
    assert StartsWith(t, CLOSE) by {
      assert t[0..3] == s[k..k + 3];
    }
    ReplaceHead(t);
    OccurrenceChar(s, CLOSE, k, 0);
    OccurrenceChar(s, CLOSE, k, 1);
    OccurrenceChar(s, CLOSE, k, 2);
    ReplaceAfterBrackets(u);
    var rest := ReplaceAll(u[1..], CLOSE, SPLIT_CLOSE);
    assert t[3..] == u[1..];
    assert s[..k + 2] == s[..k] + "]]";
    SplitCloseReads(s[..k], rest);
  }

  lemma SplitCloseReads(a: string, b: string)
    ensures a + (SPLIT_CLOSE + b) == a + "]]" + CLOSE + (OPEN + (">" + b))
  {
    assert SPLIT_CLOSE == "]]" + CLOSE + OPEN + ">";
    assert a + (("]]" + CLOSE + OPEN + ">") + b) == a + "]]" + CLOSE + (OPEN + (">" + b));
  }

  /** The bodies a text is split into: cut between the brackets and the `>` of every terminator. */
  function Pieces(text: string): (r: seq<string>)
    ensures |r| > 0
    decreases |text|
  {
    match Index(text, CLOSE)
    case None => [text]
    case Some(k) => [text[..k + 2]] + Pieces(text[k + 2..])
  }

  lemma CutBeforeFirst(s: string, k: nat)
    requires OccursAt(s, CLOSE, k)
    requires forall j: nat :: j < k ==> !OccursAt(s, CLOSE, j)
    ensures !Contains(s[..k + 2], CLOSE)
  {
    var cut := s[..k + 2];
    forall j: nat | j < k ensures !OccursAt(cut, CLOSE, j) {
      if j + 3 <= |cut| {
        assert cut[j..j + 3] == s[j..j + 3];
        assert !OccursAt(s, CLOSE, j);
      }
    }
  }

  lemma ReadLast(text: string)
    requires !Contains(text, CLOSE)
    ensures ReadSections(OPEN + text + CLOSE) == Some([text])
    ensures Joined([text]) == text
  {
    ReadOne(text, "");
    assert OPEN + text + CLOSE == OPEN + (text + CLOSE + "");
    assert [text] + [] == [text];
    assert Joined([text]) == text + Joined([text][1..]);
  }

  lemma {:induction false} ReadReplaced(text: string)
    ensures ReadSections(OPEN + ReplaceAll(text, CLOSE, SPLIT_CLOSE) + CLOSE) == Some(Pieces(text))
    ensures Joined(Pieces(text)) == text
    ensures forall b :: b in Pieces(text) ==> !Contains(b, CLOSE)
    decreases |text|
  {
    hide ReplaceAll, ReadSections, Contains;
    match Index(text, CLOSE)
    case None =>
      ReplaceNothing(text);
      ReadLast(text);
    case Some(k) =>
      var rest, head := text[k + 2..], text[..k + 2];
      ReadReplaced(rest);
      CutBeforeFirst(text, k);
      ReplaceFirst(text, k);
      var more := ReplaceAll(rest, CLOSE, SPLIT_CLOSE);
      ReadOne(head, OPEN + more + CLOSE);
      assert OPEN + (head + CLOSE + (OPEN + more)) + CLOSE == OPEN + (head + CLOSE + (OPEN + more + CLOSE));
      assert ([head] + Pieces(rest))[1..] == Pieces(rest);
      assert text == head + rest;
  }

  /** Every text is read back from its rendering, and no section of it contains the terminator. */
  lemma RenderedTextReadsBack(text: string)
    ensures ReadSections(RenderText(text)).Some?
    ensures Joined(ReadSections(RenderText(text)).value) == text
    ensures forall b :: b in ReadSections(RenderText(text)).value ==> !Contains(b, CLOSE)
  {
    ReadReplaced(text);
    if text != "" && Index(text, CLOSE).None? {
      ReplaceNothing(text);
    }
  }

  /** Different texts render differently. */
  lemma RenderTextInjective(a: string, b: string)
    requires RenderText(a) == RenderText(b)
    ensures a == b
  {
    RenderedTextReadsBack(a);
    RenderedTextReadsBack(b);
  }

  /**
   * The number of sections: one, and one more for each terminator in the text. Terminators cannot
   * overlap, so their positions are counted one by one.
   */
  function Terminators(text: string, from: nat): nat
    decreases |text| - from
  {
    if from + 3 > |text| then 0
    else (if OccursAt(text, CLOSE, from) then 1 else 0) + Terminators(text, from + 1)
  }

  lemma {:induction false} TerminatorsSkip(text: string, i: nat, k: nat)
    requires i <= k
    requires forall j: nat :: i <= j < k ==> !OccursAt(text, CLOSE, j)
    ensures Terminators(text, i) == Terminators(text, k)
    decreases k - i
  {
    if i < k {
      TerminatorsSkip(text, i + 1, k);
    }
  }

  lemma {:induction false} TerminatorsShift(text: string, c: nat, i: nat)
    requires c <= |text|
    ensures Terminators(text[c..], i) == Terminators(text, c + i)
    decreases |text| - i
  {
    if c + i + 3 <= |text| {
      TerminatorsShift(text, c, i + 1);
      OccurrenceShift(text, CLOSE, c, i);
    }
  }

  lemma {:induction false} OnePiecePerTerminator(text: string)
    ensures |Pieces(text)| == 1 + Terminators(text, 0)
    decreases |text|
  {
    match Index(text, CLOSE)
    case None =>
      forall j: nat | j < |text| ensures !OccursAt(text, CLOSE, j) {
      }
      TerminatorsSkip(text, 0, |text|);
    case Some(k) =>
      OnePiecePerTerminator(text[k + 2..]);
      TerminatorsShift(text, k + 2, 0);
      TerminatorsSkip(text, 0, k);
      OccurrenceChar(text, CLOSE, k, 2);
      Mismatch(text, CLOSE, k + 1, 1);
      TerminatorsSkip(text, k + 1, k + 2);
  }

  /** A text renders as one section more than it has terminators, and the empty text as none. */
  lemma OneSectionPerTerminator(text: string)
    ensures ReadSections(RenderText(text)).Some?
    ensures |ReadSections(RenderText(text)).value| == if text == "" then 0 else 1 + Terminators(text, 0)
  {
    hide Terminators, ReplaceAll;
    ReadReplaced(text);
    OnePiecePerTerminator(text);
    if text != "" && Index(text, CLOSE).None? {
      ReplaceNothing(text);
    }
  }

  // ---------------------------------------------------------------- attribute values

  function EscapeChar(c: char): string {
    match c
    case '&' => "&amp;"
    case '"' => "&quot;"
    case '<' => "&lt;"
    case '>' => "&gt;"
    case _ => [c]
  }

  function EscapeAttribute(text: string): string {
    if text == "" then "" else EscapeChar(text[0]) + EscapeAttribute(text[1..])
  }

  /** The character an attribute literal starts with and the length of its spelling. */
  function FirstChar(s: string): (r: Option<(char, nat)>)
    requires s != ""
    ensures r.Some? ==> 0 < r.value.1 <= |s|
  {
    if StartsWith(s, "&amp;") then Some(('&', 5))
    else if StartsWith(s, "&quot;") then Some(('"', 6))
    else if StartsWith(s, "&lt;") then Some(('<', 4))
    else if StartsWith(s, "&gt;") then Some(('>', 4))
    else if s[0] in "&<\"" then None
    else Some((s[0], 1))
  }

  /** The value a double-quoted attribute literal stands for; a bare `&`, `<` or quote is not one. */
  function ReadAttribute(s: string): Option<string>
    decreases |s|
  {
    if s == "" then Some("")
    else
      match FirstChar(s)
      case None => None
      case Some(f) => Prepend(f.0, ReadAttribute(s[f.1..]))
  }

  function Prepend(c: char, r: Option<string>): Option<string> {
    match r
    case None => None
    case Some(t) => Some([c] + t)
  }

  lemma FirstCharOfEscaped(c: char, rest: string)
    ensures FirstChar(EscapeChar(c) + rest) == Some((c, |EscapeChar(c)|))
  {
    var s := EscapeChar(c) + rest;
    if c in "&\"<>" {
      assert s[0..|EscapeChar(c)|] == EscapeChar(c);
      if c != '&' { Mismatch(s, "&amp;", 0, 1); }
      if c != '"' { Mismatch(s, "&quot;", 0, 1); }
      if c != '<' { Mismatch(s, "&lt;", 0, 1); }
    } else {
      Mismatch(s, "&amp;", 0, 0);
      Mismatch(s, "&quot;", 0, 0);
      Mismatch(s, "&lt;", 0, 0);
      Mismatch(s, "&gt;", 0, 0);
    }
  }

  lemma ReadEscapedChar(c: char, rest: string)
    ensures ReadAttribute(EscapeChar(c) + rest) == Prepend(c, ReadAttribute(rest))
  {
    hide FirstChar;
    FirstCharOfEscaped(c, rest);
    var s := EscapeChar(c) + rest;
    assert s[|EscapeChar(c)|..] == rest;
  }

  /** Every attribute value is read back from its escaped form. */
  lemma {:induction false} EscapedAttributeReadsBack(text: string)
    ensures ReadAttribute(EscapeAttribute(text)) == Some(text)
  {
    if text != "" {
      EscapedAttributeReadsBack(text[1..]);
      ReadEscapedChar(text[0], EscapeAttribute(text[1..]));
      assert text == [text[0]] + text[1..];
    }
  }
}
