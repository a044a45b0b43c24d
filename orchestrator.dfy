/** The conversation front of the assistant: rebuilds the model conversation
    from the stored session history, recovers the document memory carried in
    earlier answers, runs the graph and appends the document memory to the
    answer it returns. */
module Orchestrator {
  import opened Common
  import opened Text
  import opened Messages
  import opened DocUtils
  import opened Workflow

  /** One stored history record: its `role` and `content` keys, either of
      which may be missing or null. */
  datatype HistoryEntry = HistoryEntry(role: Option<string>, content: Option<string>)

  function ContentOf(e: HistoryEntry): string {
    if e.content.Some? then e.content.value else ""
  }

  /** The role, stripped and lower-cased; a missing role is "". */
  function NormRole(role: Option<string>): string {
    Lower(Strip(if role.Some? then role.value else ""))
  }

  /** The message a history record becomes: "user" a human message,
      "system" a system message, "assistant" and every other role an AI message. */
  function RoleMessage(role: Option<string>, content: string): (m: ChatMsg)
    ensures m.content == content
    ensures m.Human? <==> NormRole(role) == "user"
    ensures m.System? <==> NormRole(role) == "system"
    ensures m.Ai? <==> NormRole(role) != "user" && NormRole(role) != "system"
  {
    var r := NormRole(role);
    if r == "user" then Human(content)
    else if r == "assistant" then Ai(content)
    else if r == "system" then System(content)
    else Ai(content)
  }

  /** The conversation rebuilt from the history: each record with its memory
      removed, records that become blank skipped, order kept. */
  function Rebuild(h: seq<HistoryEntry>): (ms: seq<ChatMsg>)
    ensures |ms| <= |h|
    ensures forall i :: 0 <= i < |ms| ==> ms[i].content != "" && NoEdgeSpace(ms[i].content)
  {
    if h == [] then []
    else
      var prev := Rebuild(h[..|h| - 1]);
      var e := h[|h| - 1];
      var clean := StripHiddenDocTags(ContentOf(e));
      if clean == "" then prev else prev + [RoleMessage(e.role, clean)]
  }

  /** The document memory of the history: the one carried by the latest record
      that carries a non-blank one, or "". */
  function HistoricalDoc(h: seq<HistoryEntry>): (d: string)
    ensures NoEdgeSpace(d)
    ensures (forall i :: 0 <= i < |h| ==> ExtractHiddenDocText(ContentOf(h[i])) == "") ==> d == ""
  {
    if h == [] then ""
    else
      var carried := ExtractHiddenDocText(ContentOf(h[|h| - 1]));
      if carried != "" then carried
      else
        var init := h[..|h| - 1];
        assert forall i :: 0 <= i < |init| ==> init[i] == h[i];
        HistoricalDoc(init)
  }

  /** One more record of the history: how the conversation and the memory
      grow. */
  lemma RebuildStep(h: seq<HistoryEntry>, i: nat)
    requires i < |h|
    ensures var clean := StripHiddenDocTags(ContentOf(h[i]));
            Rebuild(h[..i + 1]) == if clean == "" then Rebuild(h[..i]) else Rebuild(h[..i]) + [RoleMessage(h[i].role, clean)]
    ensures var carried := ExtractHiddenDocText(ContentOf(h[i]));
            HistoricalDoc(h[..i + 1]) == if carried != "" then carried else HistoricalDoc(h[..i])
  {
    assert h[..i + 1][..i] == h[..i];
  }

  /** The state the graph is started from. */
  function InitialState(query: string, paths: seq<string>, h: seq<HistoryEntry>): (s: AgentState)
    ensures GetLastUserText(s.messages) == Strip(query)
    ensures |s.messages| == |Rebuild(h)| + 1
    ensures s.messages[..|s.messages| - 1] == Rebuild(h)
    ensures s.extractedText == TruncateDoc(HistoricalDoc(h), MaxDocChars)
    ensures s.extractedText == HistoricalDoc(h) || |HistoricalDoc(h)| > MaxDocChars
    ensures s.filePaths == paths
    ensures s.domain == "" && s.specialistAnalysis == "" && s.finalResponse == "" && !s.voiceMode
  {
    var ms := Rebuild(h) + [Human(Strip(query))];
    assert ms[..|ms| - 1] == Rebuild(h);
    AgentState(ms, paths, TruncateDoc(HistoricalDoc(h), MaxDocChars), "", "", "", false)
  }

  /** The answer text shown to the user. */
  function FinalAnswer(r: AgentState): (a: string)
    ensures NoEdgeSpace(a)
  {
    Strip(r.finalResponse)
  }

  /** The document memory to carry forward: the stripped extracted text,
      bounded to its last `MaxDocChars` characters. */
  function CarriedDoc(r: AgentState): (d: string)
    ensures d == TruncateDoc(Strip(r.extractedText), MaxDocChars)
    ensures |d| <= MaxDocChars
    ensures d == "" <==> AllSpace(r.extractedText)
    ensures d != "" ==> Strip(d) != ""
  {
    var w := Strip(r.extractedText);
    var d := TruncateDoc(w, MaxDocChars);
    StripEmptyIff(r.extractedText);
    if d == "" then d
    else
      assert d[|d| - 1] == w[|w| - 1];
      StripEmptyIff(d);
      d
  }

  /** The answer with its memory appended when there is any. */
  function AppendMemory(answer: string, doc: string): (r: string)
    ensures doc == "" ==> r == answer
    ensures doc != "" ==> r == AppendHiddenDoc(answer, doc)
  {
    if doc != "" then AppendHiddenDoc(answer, doc) else answer
  }

  function RespondSpec(a: Assistant, m: Model, x: Extractors, query: string, paths: seq<string>, h: seq<HistoryEntry>): string {
    var r := RunSpec(a, m, x, InitialState(query, paths, h));
    AppendMemory(FinalAnswer(r), CarriedDoc(r))
  }

  /** `OrchestratorAgent.respond`. A missing query or file list is passed as
      "" or []. */
  method Respond(a: Assistant, m: Model, x: Extractors, query: string, paths: seq<string>, h: seq<HistoryEntry>)
    returns (answer: string)
    ensures answer == RespondSpec(a, m, x, query, paths, h)
  {
    var messages: seq<ChatMsg> := [];
    var historical := "";
    for i := 0 to |h|
      invariant messages == Rebuild(h[..i])
      invariant historical == HistoricalDoc(h[..i])
    {
      RebuildStep(h, i);
      var raw := ContentOf(h[i]);
      var extracted := ExtractHiddenDocText(raw);
      if extracted != "" {
        historical := extracted;
      }
      var clean := StripHiddenDocTags(raw);
      if clean == "" {
        continue;
      }
      var role := NormRole(h[i].role);
      if role == "user" {
        messages := messages + [Human(clean)];
      } else if role == "assistant" {
        messages := messages + [Ai(clean)];
      } else if role == "system" {
        messages := messages + [System(clean)];
      } else {
        messages := messages + [Ai(clean)];
      }
    }
    assert h[..|h|] == h;
    messages := messages + [Human(Strip(query))];
    var start := AgentState(messages, paths, TruncateDoc(historical, MaxDocChars), "", "", "", false);
    var result := Run(a, m, x, start);
    answer := Strip(result.finalResponse);
    var extractedText := TruncateDoc(Strip(result.extractedText), MaxDocChars);
    if extractedText != "" {
      answer := answer + "\n" + HistTagStart + extractedText + HistTagEnd;
    }
  }

  /** `VoiceOrchestratorAgent.respond`: the same flow. */
  method VoiceRespond(a: Assistant, m: Model, x: Extractors, query: string, paths: seq<string>, h: seq<HistoryEntry>)
    returns (answer: string)
    ensures answer == RespondSpec(a, m, x, query, paths, h)
  {
    answer := Respond(a, m, x, query, paths, h);
  }

  // ---------------------------------------------------------------------------
  // The memory round trip across turns.

  /** Stripping the tags from an answer gives the visible answer back, and
      extracting gives the carried document back (stripped), when the answer
      holds no start marker and the document no end marker. */
  lemma MemoryRoundTrip(answer: string, doc: string)
    requires NoEdgeSpace(answer) && !Contains(answer, HistTagStart) && !Contains(doc, HistTagEnd)
    ensures StripHiddenDocTags(AppendMemory(answer, doc)) == answer
    ensures ExtractHiddenDocText(AppendMemory(answer, doc)) == Strip(doc)
  {
    StripKeepsStripped(answer);
    if doc == "" {
      NoStartNoMatch(answer);
      StripAllSpace(doc);
    } else {
      StripAfterAppend(answer, doc);
      ExtractAfterAppend(answer, doc);
    }
  }

  /** A history record that carries no memory leaves the recovered memory as
      it was; one that carries memory replaces it. */
  lemma HistoricalDocStep(h: seq<HistoryEntry>, e: HistoryEntry)
    ensures ExtractHiddenDocText(ContentOf(e)) == "" ==> HistoricalDoc(h + [e]) == HistoricalDoc(h)
    ensures ExtractHiddenDocText(ContentOf(e)) != "" ==> HistoricalDoc(h + [e]) == ExtractHiddenDocText(ContentOf(e))
  {
    assert (h + [e])[..|h + [e]| - 1] == h;
  }

  /** The document read in one turn is the document memory of the next turn:
      once the answer is stored as an assistant record, the next call recovers
      the carried text and starts the graph from it. */
  lemma MemoryReachesNextTurn(a: Assistant, m: Model, x: Extractors, query: string, paths: seq<string>,
                              h: seq<HistoryEntry>, next: seq<HistoryEntry>)
    requires var r := RunSpec(a, m, x, InitialState(query, paths, h));
             !Contains(FinalAnswer(r), HistTagStart) && !Contains(CarriedDoc(r), HistTagEnd)
             && CarriedDoc(r) != ""
    ensures var r := RunSpec(a, m, x, InitialState(query, paths, h));
            var stored := next + [HistoryEntry(Some("assistant"), Some(RespondSpec(a, m, x, query, paths, h)))];
            HistoricalDoc(stored) == Strip(CarriedDoc(r))
            && InitialState(query, paths, stored).extractedText == Strip(CarriedDoc(r))
  {
    var r := RunSpec(a, m, x, InitialState(query, paths, h));
    var answer := RespondSpec(a, m, x, query, paths, h);
    var e := HistoryEntry(Some("assistant"), Some(answer));
    MemoryRoundTrip(FinalAnswer(r), CarriedDoc(r));
    HistoricalDocStep(next, e);
  }

  /** The conversation the graph sees ends with the stripped query as the
      latest human message, after the rebuilt history. */
  lemma QuestionIsLastHumanMessage(query: string, paths: seq<string>, h: seq<HistoryEntry>)
    ensures var s := InitialState(query, paths, h);
            s.messages == Rebuild(h) + [Human(Strip(query))]
  {
    var s := InitialState(query, paths, h);
    assert s.messages[|s.messages| - 1] == Human(Strip(query));
  }
}
