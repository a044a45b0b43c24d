/** Document memory carried inside assistant messages: the marker pair, the
    regular-expression strip and extract, tail-keeping truncation and the
    search for the last user message. */
module DocUtils {
  import opened Common
  import opened Text
  import opened Messages

  const HistTagStart: string := "<!--HISTORICAL_DOC_TEXT-->"
  const HistTagEnd: string := "<!--END_HISTORICAL_DOC_TEXT-->"
  const MaxDocChars: nat := 20000

  /** Length of the span `START … END` whose content is `k` characters long. */
  function SpanLength(k: nat): nat {
    |HistTagStart| + k + |HistTagEnd|
  }

  /** The pattern `START(.*?)END` with DOTALL tried at the beginning of `s`:
      when `s` begins with the start marker and an end marker follows, the
      length of the shortest content between them. */
  function MatchAt(s: string): (k: Option<nat>)
    ensures k.Some? ==> SpanLength(k.value) <= |s|
    ensures k.Some? ==> StartsWith(s, HistTagStart)
    ensures k.Some? ==> OccursAt(s, HistTagEnd, |HistTagStart| + k.value)
    ensures k.Some? ==> forall j :: |HistTagStart| <= j < |HistTagStart| + k.value ==> !OccursAt(s, HistTagEnd, j)
    ensures k.None? && StartsWith(s, HistTagStart) ==>
              forall j :: |HistTagStart| <= j ==> !OccursAt(s, HistTagEnd, j)
  {
    if StartsWith(s, HistTagStart) then
      var rest := s[|HistTagStart|..];
      var r := IndexOf(rest, HistTagEnd);
      forall j | |HistTagStart| <= j
        ensures OccursAt(rest, HistTagEnd, j - |HistTagStart|) <==> OccursAt(s, HistTagEnd, j)
      {
        OccursDrop(s, |HistTagStart|, HistTagEnd, j - |HistTagStart|);
      }
      r
    else None
  }

  /** The pattern matches at position `i` of `s`. */
  predicate MatchesAt(s: string, i: int) {
    0 <= i < |s| && MatchAt(s[i..]).Some?
  }

  lemma MatchesAtShift(s: string, i: nat)
    requires s != []
    ensures MatchesAt(s[1..], i) <==> MatchesAt(s, i + 1)
  {
    if i + 1 < |s| {
      assert s[1..][i..] == s[i + 1..];
    }
  }

  /** The leftmost position of `s` at which the pattern matches. */
  function FirstMatchAt(s: string): (i: Option<nat>)
    ensures i.Some? ==> MatchesAt(s, i.value)
    ensures i.Some? ==> forall j :: 0 <= j < i.value ==> !MatchesAt(s, j)
    ensures i.None? ==> forall j :: !MatchesAt(s, j)
    decreases |s|
  {
    if s == [] then None
    else if MatchAt(s).Some? then
      assert s[0..] == s;
      Some(0)
    else
      var r := FirstMatchAt(s[1..]);
      assert s[0..] == s;
      forall j | 0 <= j ensures MatchesAt(s[1..], j) <==> MatchesAt(s, j + 1) {
        MatchesAtShift(s, j);
      }
      assert forall j :: 0 < j ==> (MatchesAt(s, j) <==> MatchesAt(s[1..], j - 1));
      match r
      case Some(i) => Some(i + 1)
      case None => None
  }

  /** The content captured by the group when the pattern matches at `i`: the
      span there is the start marker, the content and the end marker. */
  function GroupAt(s: string, i: nat): (g: string)
    requires MatchesAt(s, i)
    ensures |g| == MatchAt(s[i..]).value
    ensures i + SpanLength(|g|) <= |s|
    ensures s[i..i + SpanLength(|g|)] == HistTagStart + g + HistTagEnd
  {
    var x := s[i..];
    var k := MatchAt(x).value;
    Framed(x, HistTagStart, HistTagEnd, k);
    assert x[..SpanLength(k)] == s[i..i + SpanLength(k)];
    assert x[|HistTagStart|..|HistTagStart| + k] == s[i + |HistTagStart|..i + |HistTagStart| + k];
    s[i + |HistTagStart|..i + |HistTagStart| + k]
  }

  /** `re.sub(START.*?END, "", s, flags=DOTALL)`: the leftmost, shortest span
      is deleted and the substitution resumes just after it. */
  function RemoveSpans(s: string): (r: string)
    ensures |r| <= |s|
    ensures FirstMatchAt(s).None? ==> r == s
    decreases |s|
  {
    match FirstMatchAt(s)
    case None => s
    case Some(i) => s[..i] + RemoveSpans(s[i + SpanLength(|GroupAt(s, i)|)..])
  }

  /** `strip_hidden_doc_tags`: the text with every marked span removed, then
      stripped; text without a marker pair only loses its edge whitespace. */
  function StripHiddenDocTags(text: string): (r: string)
    ensures NoEdgeSpace(r)
    ensures |r| <= |text|
    ensures FirstMatchAt(text).None? ==> r == Strip(text)
    ensures text == "" ==> r == ""
  {
    if text == "" then "" else Strip(RemoveSpans(text))
  }

  /** `extract_hidden_doc_text`, i.e. `re.search(START(.*?)END, text, DOTALL)`
      then `group(1).strip()`: the stripped content of the leftmost, shortest
      marker pair, or "" when the text holds no pair. */
  function ExtractHiddenDocText(text: string): (r: string)
    ensures NoEdgeSpace(r)
    ensures FirstMatchAt(text).None? ==> r == ""
    ensures FirstMatchAt(text).Some? ==> r == Strip(GroupAt(text, FirstMatchAt(text).value))
  {
    match FirstMatchAt(text)
    case Some(i) => Strip(GroupAt(text, i))
    case None => ""
  }

  /** How the orchestrator appends document memory to an answer. */
  function AppendHiddenDoc(answer: string, doc: string): (r: string)
    ensures |r| == |answer| + 1 + |HistTagStart| + |doc| + |HistTagEnd|
    ensures r[..|answer|] == answer && r[|answer|] == '\n'
    ensures r[|answer| + 1..|answer| + 1 + |HistTagStart|] == HistTagStart
    ensures r[|r| - |HistTagEnd| - |doc|..|r| - |HistTagEnd|] == doc
    ensures r[|r| - |HistTagEnd|..] == HistTagEnd
  {
    answer + "\n" + HistTagStart + doc + HistTagEnd
  }

  /** `truncate_doc`: keeps the last `maxChars` characters of an over-long text. */
  function TruncateDoc(text: string, maxChars: nat): (r: string)
    ensures |r| <= maxChars && |r| <= |text|
    ensures r == text[|text| - |r|..]
    ensures |text| <= maxChars ==> r == text
    ensures |text| > maxChars ==> |r| == maxChars
  {
    if text == "" then ""
    else if |text| <= maxChars then text
    else text[|text| - maxChars..]
  }

  /** `truncate_doc` exactly as written: Python's `text[-0:]` is the whole
      text, so a budget of 0 keeps everything. */
  function TruncateDocAsWritten(text: string, maxChars: nat): (r: string)
    ensures |r| <= |text| && r == text[|text| - |r|..]
    ensures |text| <= maxChars || maxChars == 0 ==> r == text
    ensures |text| > maxChars > 0 ==> |r| == maxChars
  {
    if text == "" then ""
    else if |text| <= maxChars then text
    else if maxChars == 0 then text
    else text[|text| - maxChars..]
  }

  /** With a zero budget the code as written returns a text longer than the budget. */
  lemma TruncateZeroBudgetKeepsAll()
    ensures |TruncateDocAsWritten("ab", 0)| == 2 > 0
    ensures TruncateDoc("ab", 0) == ""
  {
  }

  /** For every positive budget, in particular for `MaxDocChars`, the code as
      written and the intended truncation agree. */
  lemma TruncateAgreesOnPositiveBudget(text: string, maxChars: nat)
    requires maxChars > 0
    ensures TruncateDocAsWritten(text, maxChars) == TruncateDoc(text, maxChars)
  {
  }

  /** `get_last_user_text`: the content of the last human message, or "". */
  function GetLastUserText(ms: seq<ChatMsg>): (r: string)
    ensures (forall i :: 0 <= i < |ms| ==> !ms[i].Human?) ==> r == ""
    ensures forall i :: 0 <= i < |ms| && ms[i].Human? && (forall j :: i < j < |ms| ==> !ms[j].Human?)
              ==> r == ms[i].content
  {
    if ms == [] then ""
    else if ms[|ms| - 1].Human? then ms[|ms| - 1].content
    else
      var init := ms[..|ms| - 1];
      assert forall i :: 0 <= i < |init| ==> init[i] == ms[i];
      GetLastUserText(init)
  }

  // ---------------------------------------------------------------------------
  // The memory round trip.

  lemma StartMarkerHasNoNewline()
    ensures forall j :: 0 <= j < |HistTagStart| ==> HistTagStart[j] != '\n'
  {
  }

  lemma EndMarkerHasNoInnerOpen()
    ensures HeadUnique(HistTagEnd)
  {
  }

  /** No start marker begins inside `a + "\n"` when `a` holds none. */
  lemma NoStartBeforeNewline(a: string, rest: string, i: nat)
    requires !Contains(a, HistTagStart)
    requires i <= |a|
    ensures !OccursAt(a + "\n" + rest, HistTagStart, i)
  {
    var s := a + "\n" + rest;
    var n := |HistTagStart|;
    if i + n <= |a| {
      assert s[i..i + n] == a[i..i + n];
      assert !OccursAt(a, HistTagStart, i);
    } else if i + n <= |s| {
      StartMarkerHasNoNewline();
      assert s[i..i + n][|a| - i] == '\n' != HistTagStart[|a| - i];
    }
  }

  /** A match needs a start marker where it begins. */
  lemma MatchNeedsStart(s: string, j: int)
    requires MatchesAt(s, j)
    ensures OccursAt(s, HistTagStart, j)
  {
    assert s[j..][..|HistTagStart|] == s[j..j + |HistTagStart|];
  }

  /** The first end marker in `d + END` is the appended one when `d` has none. */
  lemma EndFoundAfterDoc(d: string)
    requires !Contains(d, HistTagEnd)
    ensures IndexOf(d + HistTagEnd, HistTagEnd) == Some(|d|)
  {
    EndMarkerHasNoInnerOpen();
    IndexOfAppended(d, HistTagEnd);
  }

  lemma MatchOnWrappedDoc(d: string)
    requires !Contains(d, HistTagEnd)
    ensures MatchAt(HistTagStart + d + HistTagEnd) == Some(|d|)
  {
    var s := HistTagStart + d + HistTagEnd;
    assert StartsWith(s, HistTagStart);
    assert s[|HistTagStart|..] == d + HistTagEnd;
    EndFoundAfterDoc(d);
  }

  /** No start marker begins before position `n` of `s`. */
  predicate NoStartBefore(s: string, n: nat) {
    forall i :: 0 <= i < n ==> !OccursAt(s, HistTagStart, i)
  }

  lemma FirstMatchIsFirst(s: string, i: nat)
    requires MatchesAt(s, i)
    requires forall j :: 0 <= j < i ==> !MatchesAt(s, j)
    ensures FirstMatchAt(s) == Some(i)
  {
  }

  /** No match begins before `n` when no start marker does. */
  lemma NoMatchWithoutStart(s: string, n: nat)
    requires NoStartBefore(s, n)
    ensures forall j :: 0 <= j < n ==> !MatchesAt(s, j)
  {
    forall j | 0 <= j < n ensures !MatchesAt(s, j) {
      assert !OccursAt(s, HistTagStart, j);
      if MatchesAt(s, j) {
        MatchNeedsStart(s, j);
      }
    }
  }

  lemma FirstMatchAfterPrefix(s: string, n: nat)
    requires NoStartBefore(s, n) && MatchesAt(s, n)
    ensures FirstMatchAt(s) == Some(n)
  {
    NoMatchWithoutStart(s, n);
    FirstMatchIsFirst(s, n);
  }

  /** `a + "\n"` holds no start marker when `a` holds none. */
  lemma NoStartInAnswerLine(a: string, w: string)
    requires !Contains(a, HistTagStart)
    ensures NoStartBefore(a + "\n" + w, |a| + 1)
  {
    forall i | 0 <= i < |a| + 1 ensures !OccursAt(a + "\n" + w, HistTagStart, i) {
      NoStartBeforeNewline(a, w, i);
    }
  }

  /** In an answer carrying document memory, the leftmost match is the
      appended span and its group is the document text. */
  lemma MatchOnMemory(a: string, d: string)
    requires !Contains(a, HistTagStart) && !Contains(d, HistTagEnd)
    ensures var s := AppendHiddenDoc(a, d);
            FirstMatchAt(s) == Some(|a| + 1) && GroupAt(s, |a| + 1) == d
  {
    var w := HistTagStart + d + HistTagEnd;
    var s := AppendHiddenDoc(a, d);
    var n := |a| + 1;
    assert s == a + "\n" + w;
    NoStartInAnswerLine(a, w);
    assert s[n..] == w;
    MatchOnWrappedDoc(d);
    assert MatchesAt(s, n);
    FirstMatchAfterPrefix(s, n);
    assert GroupAt(s, n) == d;
  }

  // ---------------------------------------------------------------------------
  // Spans in arbitrary text.

  lemma StartMarkerHeadUnique()
    ensures HeadUnique(HistTagStart)
  {
  }

  /** Text without a start marker holds no marked span. */
  lemma NoStartNoMatch(s: string)
    requires !Contains(s, HistTagStart)
    ensures FirstMatchAt(s).None?
  {
    if FirstMatchAt(s).Some? {
      MatchNeedsStart(s, FirstMatchAt(s).value);
    }
  }

  /** No start marker begins inside `p` or across its end when `p` holds
      none and a start marker follows it. */
  lemma NoStartBeforeMarker(p: string, tail: string)
    requires !Contains(p, HistTagStart)
    ensures NoStartBefore(p + HistTagStart + tail, |p|)
  {
    StartMarkerHeadUnique();
    var n := |HistTagStart|;
    forall i | 0 <= i < |p|
      ensures !OccursAt(p + HistTagStart + tail, HistTagStart, i)
    {
      NoOccurrenceAcrossJoin(p, HistTagStart, i);
      assert (p + HistTagStart + tail)[i..i + n] == (p + HistTagStart)[i..i + n];
    }
  }

  /** A span whose content holds no end marker matches with that content,
      whatever follows it. */
  lemma MatchOnSpan(g: string, rest: string)
    requires !Contains(g, HistTagEnd)
    ensures MatchAt(HistTagStart + g + HistTagEnd + rest) == Some(|g|)
  {
    var s := HistTagStart + g + HistTagEnd + rest;
    var body := g + HistTagEnd + rest;
    assert s[..|HistTagStart|] == HistTagStart;
    assert s[|HistTagStart|..] == body;
    EndFoundAfterDoc(g);
    assert body[|g|..|g| + |HistTagEnd|] == HistTagEnd;
    forall j | 0 <= j < |g|
      ensures !OccursAt(body, HistTagEnd, j)
    {
      assert !OccursAt(g + HistTagEnd, HistTagEnd, j);
      assert body[j..j + |HistTagEnd|] == (g + HistTagEnd)[j..j + |HistTagEnd|];
    }
    IndexOfIsFirst(body, HistTagEnd, |g|);
  }

  /** The leftmost match of `p START g END rest` is the span after `p`, and
      its group is `g`, when `p` holds no start marker and `g` no end marker. */
  lemma FirstSpan(p: string, g: string, rest: string)
    requires !Contains(p, HistTagStart) && !Contains(g, HistTagEnd)
    ensures var s := p + HistTagStart + g + HistTagEnd + rest;
            FirstMatchAt(s) == Some(|p|) && GroupAt(s, |p|) == g
  {
    var s := p + HistTagStart + g + HistTagEnd + rest;
    assert s == p + HistTagStart + (g + HistTagEnd + rest);
    NoStartBeforeMarker(p, g + HistTagEnd + rest);
    assert s[|p|..] == HistTagStart + g + HistTagEnd + rest;
    MatchOnSpan(g, rest);
    assert MatchesAt(s, |p|);
    FirstMatchAfterPrefix(s, |p|);
    assert s[|p|..|p| + SpanLength(|g|)] == HistTagStart + g + HistTagEnd;
  }

  /** Substitution deletes the first span and carries on after it. */
  lemma RemoveSpansOfSpan(p: string, g: string, rest: string)
    requires !Contains(p, HistTagStart) && !Contains(g, HistTagEnd)
    ensures RemoveSpans(p + HistTagStart + g + HistTagEnd + rest) == p + RemoveSpans(rest)
  {
    var s := p + HistTagStart + g + HistTagEnd + rest;
    FirstSpan(p, g, rest);
    assert s[..|p|] == p;
    assert s[|p| + SpanLength(|g|)..] == rest;
  }

  /** Every span is deleted, including the second of two, and the text around
      them is kept in order. */
  lemma TwoSpansRemoved(p1: string, g1: string, p2: string, g2: string, p3: string)
    requires !Contains(p1, HistTagStart) && !Contains(p2, HistTagStart) && !Contains(p3, HistTagStart)
    requires !Contains(g1, HistTagEnd) && !Contains(g2, HistTagEnd)
    ensures RemoveSpans(p1 + HistTagStart + g1 + HistTagEnd + p2 + HistTagStart + g2 + HistTagEnd + p3) == p1 + p2 + p3
  {
    var rest := p2 + HistTagStart + g2 + HistTagEnd + p3;
    assert p1 + HistTagStart + g1 + HistTagEnd + p2 + HistTagStart + g2 + HistTagEnd + p3
        == p1 + HistTagStart + g1 + HistTagEnd + rest;
    RemoveSpansOfSpan(p1, g1, rest);
    RemoveSpansOfSpan(p2, g2, p3);
    NoStartNoMatch(p3);
  }

  /** Extraction reads the first span only, whatever follows it. */
  lemma ExtractFirstSpan(p: string, g: string, rest: string)
    requires !Contains(p, HistTagStart) && !Contains(g, HistTagEnd)
    ensures ExtractHiddenDocText(p + HistTagStart + g + HistTagEnd + rest) == Strip(g)
  {
    FirstSpan(p, g, rest);
  }

  /** Decoding recovers the carried document text, stripped, whenever the
      answer holds no start marker and the document holds no end marker. */
  lemma ExtractAfterAppend(a: string, d: string)
    requires !Contains(a, HistTagStart) && !Contains(d, HistTagEnd)
    ensures ExtractHiddenDocText(AppendHiddenDoc(a, d)) == Strip(d)
  {
    MatchOnMemory(a, d);
  }

  /** Stripping the memory gives back the stripped answer under the same conditions. */
  lemma StripAfterAppend(a: string, d: string)
    requires !Contains(a, HistTagStart) && !Contains(d, HistTagEnd)
    ensures StripHiddenDocTags(AppendHiddenDoc(a, d)) == Strip(a)
  {
    var s := AppendHiddenDoc(a, d);
    var n := |a| + 1;
    MatchOnMemory(a, d);
    assert s[n + SpanLength(|d|)..] == [];
    assert s[..n] == a + "\n";
    assert RemoveSpans(s) == a + "\n";
    StripTrailingSpace(a, '\n');
  }
}
