/** The four-node assistant graph: file extraction, orchestration (direct
    answer, refusal or routing), the specialist call and the final rewrite,
    wired tool → orchestrator → (end | specialist → final_redactor → end).
    Language-model replies, file readers and agents are parameters. */
module Workflow {
  import opened Common
  import opened Text
  import opened Messages
  import opened DocUtils

  // ---------------------------------------------------------------------------
  // Constants.

  const FinancialKeywords: seq<string> :=
    ["financ", "financial", "financiero", "finanzas", "banco", "invers",
     "contab", "crédito", "hipote", "impuest", "iva", "amortiz"]
  const LegalKeywords: seq<string> :=
    ["legal", "contrato", "demanda", "ley", "juríd", "abogado",
     "testamento", "acuerdo", "litigio", "arrend"]

  const NoQuestionMsg: string := "No he recibido la pregunta del usuario. Reintenta."
  const OffTopicMsg: string :=
    "Lo siento, no dispongo de información sobre ese tema. Sólo puedo ayudarte en temas financieros y legales."
  const NoSpecialistMsg: string := "No se pudo acceder al agente especialista."
  const SpecialistErrorMsg: string := "Lo siento, ocurrió un error al procesar tu consulta."
  const NoAnalysisMsg: string := "No tengo suficiente información para responder."

  // ---------------------------------------------------------------------------
  // State.

  /** The graph state. `messages` is only ever read by the nodes. */
  datatype AgentState = AgentState(
    messages: seq<ChatMsg>,
    filePaths: seq<string>,
    extractedText: string,
    domain: string,
    specialistAnalysis: string,
    finalResponse: string,
    voiceMode: bool)

  /** What a node returns: the keys it sets; the graph overwrites exactly those. */
  datatype Patch = Patch(
    extractedText: Option<string>,
    domain: Option<string>,
    specialistAnalysis: Option<string>,
    finalResponse: Option<string>)

  const NoChange: Patch := Patch(None, None, None, None)

  function Update(prior: string, v: Option<string>): string {
    if v.Some? then v.value else prior
  }

  function Apply(s: AgentState, p: Patch): (r: AgentState)
    ensures r.messages == s.messages && r.filePaths == s.filePaths && r.voiceMode == s.voiceMode
    ensures p == NoChange ==> r == s
    ensures p.extractedText.Some? ==> r.extractedText == p.extractedText.value
    ensures p.extractedText.None? ==> r.extractedText == s.extractedText
    ensures p.domain.Some? ==> r.domain == p.domain.value
    ensures p.domain.None? ==> r.domain == s.domain
    ensures p.specialistAnalysis.Some? ==> r.specialistAnalysis == p.specialistAnalysis.value
    ensures p.specialistAnalysis.None? ==> r.specialistAnalysis == s.specialistAnalysis
    ensures p.finalResponse.Some? ==> r.finalResponse == p.finalResponse.value
    ensures p.finalResponse.None? ==> r.finalResponse == s.finalResponse
  {
    s.(extractedText := Update(s.extractedText, p.extractedText),
       domain := Update(s.domain, p.domain),
       specialistAnalysis := Update(s.specialistAnalysis, p.specialistAnalysis),
       finalResponse := Update(s.finalResponse, p.finalResponse))
  }

  // ---------------------------------------------------------------------------
  // Tool node.

  /** The file readers. `None` stands for a reader that raised. A PDF page
      without a text layer is `None` inside the page list. */
  datatype Extractors = Extractors(
    pdfPages: string -> Option<seq<Option<string>>>,
    ocr: string -> Option<string>,
    docxParagraphs: string -> Option<seq<string>>)

  datatype FileKind = Pdf | Image | Word | Unsupported

  /** The lower-cased text after the last dot of the path. */
  function Extension(path: string): (e: string)
    ensures |e| <= |path| && '.' !in e
    ensures exists k :: 0 <= k <= |path| && e == Lower(path[k..]) && '.' !in path[k..] && (k > 0 ==> path[k - 1] == '.')
  {
    var tail := AfterLast(path, '.');
    var k := |path| - |tail|;
    assert tail == path[k..];
    Lower(tail)
  }

  function KindOf(path: string): (k: FileKind)
    ensures k == Pdf <==> Extension(path) == "pdf"
    ensures k == Image <==> Extension(path) in {"jpg", "jpeg", "png"}
    ensures k == Word <==> Extension(path) in {"docx", "doc"}
  {
    var e := Extension(path);
    if e == "pdf" then Pdf
    else if e in {"jpg", "jpeg", "png"} then Image
    else if e in {"docx", "doc"} then Word
    else Unsupported
  }

  function PageText(page: Option<string>): string {
    if page.Some? then page.value else ""
  }

  function PagesText(pages: seq<Option<string>>): (t: string)
    ensures (forall i :: 0 <= i < |pages| ==> PageText(pages[i]) == "") ==> t == ""
  {
    if pages == [] then "" else PagesText(pages[..|pages| - 1]) + PageText(pages[|pages| - 1])
  }

  /** The text one file adds to the dump: nothing when its reader raised or
      its extension is not handled. */
  function FileText(x: Extractors, path: string): (t: string)
    ensures KindOf(path) == Unsupported ==> t == ""
    ensures KindOf(path) == Pdf && x.pdfPages(path).None? ==> t == ""
    ensures KindOf(path) == Pdf && x.pdfPages(path).Some? ==> t == PagesText(x.pdfPages(path).value)
    ensures KindOf(path) == Image ==> t == (if x.ocr(path).Some? then x.ocr(path).value else "")
    ensures KindOf(path) == Word ==> t == (if x.docxParagraphs(path).Some? then Join("\n", x.docxParagraphs(path).value) else "")
  {
    match KindOf(path)
    case Pdf => (match x.pdfPages(path) case Some(ps) => PagesText(ps) case None => "")
    case Image => (match x.ocr(path) case Some(t) => t case None => "")
    case Word => (match x.docxParagraphs(path) case Some(ps) => Join("\n", ps) case None => "")
    case Unsupported => ""
  }

  /** The concatenated text of the given files, in order. */
  function Dump(x: Extractors, paths: seq<string>): string {
    if paths == [] then "" else Dump(x, paths[..|paths| - 1]) + FileText(x, paths[|paths| - 1])
  }

  /** Files that add no text leave the dump empty. */
  lemma {:induction false} DumpOfSilentFiles(x: Extractors, paths: seq<string>)
    requires forall i :: 0 <= i < |paths| ==> FileText(x, paths[i]) == ""
    ensures Dump(x, paths) == ""
    decreases |paths|
  {
    if paths != [] {
      var init := paths[..|paths| - 1];
      assert forall i :: 0 <= i < |init| ==> init[i] == paths[i];
      DumpOfSilentFiles(x, init);
    }
  }

  /** The extracted text after the tool node: the remembered text alone when
      no file came in; otherwise remembered text, a newline and the new text,
      stripped and cut to its last `MaxDocChars` characters. */
  function ToolText(memory: string, paths: seq<string>, x: Extractors): (t: string)
    ensures paths == [] ==> t == memory
    ensures paths != [] ==> |t| <= MaxDocChars
    ensures paths != [] ==>
              var whole := Strip(memory + "\n" + Dump(x, paths));
              |t| == (if |whole| <= MaxDocChars then |whole| else MaxDocChars)
              && t == whole[|whole| - |t|..]
  {
    if paths == [] then memory
    else
      var whole := Strip(memory + "\n" + Dump(x, paths));
      TruncateDoc(whole, MaxDocChars)
  }

  /** `tool_node`. */
  method ToolNode(s: AgentState, x: Extractors) returns (p: Patch)
    ensures p == Patch(Some(ToolText(s.extractedText, s.filePaths, x)), None, None, None)
  {
    if |s.filePaths| == 0 {
      return Patch(Some(s.extractedText), None, None, None);
    }
    var dump := "";
    for i := 0 to |s.filePaths|
      invariant dump == Dump(x, s.filePaths[..i])
    {
      assert s.filePaths[..i + 1][..i] == s.filePaths[..i];
      dump := dump + FileText(x, s.filePaths[i]);
    }
    assert s.filePaths[..|s.filePaths|] == s.filePaths;
    var combined := s.extractedText + "\n" + dump;
    p := Patch(Some(TruncateDoc(Strip(combined), MaxDocChars)), None, None, None);
  }

  /** Uploads that yield no text only strip (and bound) the remembered text. */
  lemma SilentUploadKeepsMemory(memory: string, paths: seq<string>, x: Extractors)
    requires paths != []
    requires forall i :: 0 <= i < |paths| ==> FileText(x, paths[i]) == ""
    ensures ToolText(memory, paths, x) == TruncateDoc(Strip(memory), MaxDocChars)
  {
    DumpOfSilentFiles(x, paths);
    assert memory + "\n" + "" == memory + ['\n'];
    StripTrailingSpace(memory, '\n');
  }

  // ---------------------------------------------------------------------------
  // Orchestrator node.

  /** Some keyword of `ks` occurs in `s`. */
  function AnyIn(s: string, ks: seq<string>): (b: bool)
    ensures b <==> exists i :: 0 <= i < |ks| && Contains(s, ks[i])
  {
    if ks == [] then false
    else Contains(s, ks[0]) || AnyIn(s, ks[1..])
  }

  /** The query mentions a financial or legal keyword, ignoring case. */
  predicate IsFinLegal(query: string) {
    AnyIn(Lower(query), FinancialKeywords) || AnyIn(Lower(query), LegalKeywords)
  }

  /** The orchestrator's reply asks for routing. */
  predicate AsksRouting(reply: string) {
    Contains(Strip(Upper(reply)), "DOMAIN:")
  }

  /** A constant message ending in a full stop survives `Strip`. */
  lemma EndsWithStopNotBlank(msg: string)
    requires msg != [] && msg[|msg| - 1] == '.'
    ensures Strip(msg) != ""
  {
    StripEmptyIff(msg);
  }

  /** `orchestrator_node`. `reply(document, question)` is the model's answer. */
  function OrchestratorNode(s: AgentState, reply: (string, string) -> string): (p: Patch)
    ensures p.extractedText.None? && p.specialistAnalysis.None? && p.finalResponse.Some?
    ensures GetLastUserText(s.messages) == "" ==> p == Patch(None, None, None, Some(NoQuestionMsg))
    ensures GetLastUserText(s.messages) != "" ==>
              var r := reply(TruncateDoc(s.extractedText, MaxDocChars), GetLastUserText(s.messages));
              (p.domain.Some? <==> AsksRouting(r))
              && (AsksRouting(r) ==> p.finalResponse == Some("")
                                     && p.domain == Some(if Contains(Strip(Upper(r)), "LEGAL") then "legal" else "financial"))
              && (!AsksRouting(r) && !IsFinLegal(GetLastUserText(s.messages)) ==> p.finalResponse == Some(OffTopicMsg))
              && (!AsksRouting(r) && IsFinLegal(GetLastUserText(s.messages)) ==> p.finalResponse == Some(Strip(r)))
  {
    var query := GetLastUserText(s.messages);
    if query == "" then Patch(None, None, None, Some(NoQuestionMsg))
    else
      var r := reply(TruncateDoc(s.extractedText, MaxDocChars), query);
      var upper := Strip(Upper(r));
      if Contains(upper, "DOMAIN:") then
        Patch(None, Some(if Contains(upper, "LEGAL") then "legal" else "financial"), None, Some(""))
      else if !IsFinLegal(query) then Patch(None, None, None, Some(OffTopicMsg))
      else Patch(None, None, None, Some(Strip(r)))
  }

  /** The graph's only branch: stop after the orchestrator when it produced a
      non-blank final response. */
  function EndsAfterOrchestrator(s: AgentState): (b: bool)
    ensures b <==> !AllSpace(s.finalResponse)
  {
    StripEmptyIff(s.finalResponse);
    Strip(s.finalResponse) != ""
  }

  /** A direct answer that comes back blank sends an on-topic question to the
      specialist stage even though no domain was chosen. */
  lemma BlankDirectAnswerGoesToSpecialist(s: AgentState, reply: (string, string) -> string)
    requires GetLastUserText(s.messages) != ""
    requires var r := reply(TruncateDoc(s.extractedText, MaxDocChars), GetLastUserText(s.messages));
             !AsksRouting(r) && Strip(r) == ""
    requires IsFinLegal(GetLastUserText(s.messages))
    ensures !EndsAfterOrchestrator(Apply(s, OrchestratorNode(s, reply)))
    ensures Apply(s, OrchestratorNode(s, reply)).domain == s.domain
  {
    StripIdempotent(reply(TruncateDoc(s.extractedText, MaxDocChars), GetLastUserText(s.messages)));
  }

  /** After the orchestrator node the graph continues exactly when the reply
      asked for routing or was a blank on-topic answer. */
  lemma ContinuesIffRoutedOrBlank(s: AgentState, reply: (string, string) -> string)
    requires GetLastUserText(s.messages) != ""
    ensures var r := reply(TruncateDoc(s.extractedText, MaxDocChars), GetLastUserText(s.messages));
            !EndsAfterOrchestrator(Apply(s, OrchestratorNode(s, reply)))
            <==> AsksRouting(r) || (IsFinLegal(GetLastUserText(s.messages)) && Strip(r) == "")
  {
    var r := reply(TruncateDoc(s.extractedText, MaxDocChars), GetLastUserText(s.messages));
    StripIdempotent(r);
    assert OffTopicMsg[|OffTopicMsg| - 1] == '.';
    EndsWithStopNotBlank(OffTopicMsg);
  }

  /** Keyword matching ignores case. */
  lemma KeywordsIgnoreCase(query: string)
    ensures IsFinLegal(Upper(query)) <==> IsFinLegal(query)
  {
    LowerOfUpper(query);
  }

  /** An off-topic question that the model does not route is refused whatever
      the model answered. */
  lemma OffTopicIgnoresAnswer(s: AgentState, r1: (string, string) -> string, r2: (string, string) -> string)
    requires GetLastUserText(s.messages) != "" && !IsFinLegal(GetLastUserText(s.messages))
    requires var q := GetLastUserText(s.messages);
             var doc := TruncateDoc(s.extractedText, MaxDocChars);
             !AsksRouting(r1(doc, q)) && !AsksRouting(r2(doc, q))
    ensures OrchestratorNode(s, r1) == OrchestratorNode(s, r2) == Patch(None, None, None, Some(OffTopicMsg))
  {
  }

  /** Without a question the model is not consulted: any two models give the
      same patch. */
  lemma NoQuestionIgnoresModel(s: AgentState, r1: (string, string) -> string, r2: (string, string) -> string)
    requires GetLastUserText(s.messages) == ""
    ensures OrchestratorNode(s, r1) == OrchestratorNode(s, r2)
    ensures OrchestratorNode(s, r1).finalResponse == Some(NoQuestionMsg)
  {
  }

  // ---------------------------------------------------------------------------
  // Specialist node.

  /** A specialist's `analyze(query, document_text, messages)`; `None` stands
      for an exception. */
  type Analyzer = (string, string, seq<ChatMsg>) -> Option<string>

  datatype Specialists = Specialists(legal: Analyzer, financial: Analyzer)

  /** The assistant's specialists: both or neither, since a failure to build
      either one leaves both unset. */
  datatype Assistant = Assistant(agents: Option<Specialists>)

  function NewAssistant(legal: Option<Analyzer>, financial: Option<Analyzer>): (a: Assistant)
    ensures a.agents.Some? <==> legal.Some? && financial.Some?
    ensures a.agents.Some? ==> a.agents.value == Specialists(legal.value, financial.value)
  {
    if legal.Some? && financial.Some? then Assistant(Some(Specialists(legal.value, financial.value)))
    else Assistant(None)
  }

  /** The domain the specialist node acts on: the state's domain, stripped and
      lower-cased, "legal" when blank. */
  function EffectiveDomain(domain: string): (d: string)
    ensures d != ""
    ensures Strip(domain) == "" ==> d == "legal"
    ensures Strip(domain) != "" ==> d == Lower(Strip(domain))
  {
    var d := Lower(Strip(domain));
    if d == "" then "legal" else d
  }

  /** `specialist_node`. */
  function SpecialistNode(a: Assistant, s: AgentState): (p: Patch)
    ensures p.extractedText.None? && p.domain.None? && p.finalResponse.None? && p.specialistAnalysis.Some?
    ensures a.agents.None? ==> p.specialistAnalysis == Some(NoSpecialistMsg)
    ensures a.agents.Some? ==>
              var agent := if EffectiveDomain(s.domain) == "legal" then a.agents.value.legal else a.agents.value.financial;
              var out := agent(GetLastUserText(s.messages), s.extractedText, s.messages);
              p.specialistAnalysis == Some(if out.Some? then out.value else SpecialistErrorMsg)
  {
    match a.agents
    case None => Patch(None, None, Some(NoSpecialistMsg), None)
    case Some(sp) =>
      var agent := if EffectiveDomain(s.domain) == "legal" then sp.legal else sp.financial;
      match agent(GetLastUserText(s.messages), s.extractedText, s.messages)
      case Some(analysis) => Patch(None, None, Some(analysis), None)
      case None => Patch(None, None, Some(SpecialistErrorMsg), None)
  }

  /** Any letter-case spelling of "legal", such as the "LEGAL" the
      orchestrator never produces, selects the legal agent. */
  lemma AnySpellingOfLegal(domain: string)
    requires Lower(domain) == "legal"
    ensures EffectiveDomain(domain) == "legal"
  {
    assert LowerChar(domain[0]) == 'l' && LowerChar(domain[4]) == 'l';
    StripKeepsStripped(domain);
  }

  // ---------------------------------------------------------------------------
  // Final redactor node.

  /** `final_redactor_node`. `rewrite(analysis)` is the model's rewrite. */
  function FinalRedactorNode(s: AgentState, rewrite: string -> string): (p: Patch)
    ensures s.finalResponse != "" ==> p == NoChange
    ensures s.finalResponse == "" && Strip(s.specialistAnalysis) == "" ==> p.finalResponse == Some(NoAnalysisMsg)
    ensures s.finalResponse == "" && Strip(s.specialistAnalysis) != "" ==>
              p.finalResponse == Some(Strip(rewrite(Strip(s.specialistAnalysis))))
    ensures p.extractedText.None? && p.domain.None? && p.specialistAnalysis.None?
  {
    if s.finalResponse != "" then NoChange
    else
      var analysis := Strip(s.specialistAnalysis);
      if analysis == "" then Patch(None, None, None, Some(NoAnalysisMsg))
      else Patch(None, None, None, Some(Strip(rewrite(analysis))))
  }

  // ---------------------------------------------------------------------------
  // The whole graph.

  /** The two language-model calls the graph makes. */
  datatype Model = Model(reply: (string, string) -> string, rewrite: string -> string)

  /** One run of the compiled graph from `s`. */
  function RunSpec(a: Assistant, m: Model, x: Extractors, s: AgentState): AgentState {
    var s1 := Apply(s, Patch(Some(ToolText(s.extractedText, s.filePaths, x)), None, None, None));
    var s2 := Apply(s1, OrchestratorNode(s1, m.reply));
    if EndsAfterOrchestrator(s2) then s2
    else
      var s3 := Apply(s2, SpecialistNode(a, s2));
      Apply(s3, FinalRedactorNode(s3, m.rewrite))
  }

  /** `app.invoke(state)`. */
  method Run(a: Assistant, m: Model, x: Extractors, s: AgentState) returns (r: AgentState)
    ensures r == RunSpec(a, m, x, s)
  {
    var toolPatch := ToolNode(s, x);
    var s1 := Apply(s, toolPatch);
    var s2 := Apply(s1, OrchestratorNode(s1, m.reply));
    if EndsAfterOrchestrator(s2) {
      return s2;
    }
    var s3 := Apply(s2, SpecialistNode(a, s2));
    r := Apply(s3, FinalRedactorNode(s3, m.rewrite));
  }

  /** A run never touches the conversation, the file list or the voice flag,
      and leaves the tool node's text in the state. */
  lemma RunKeepsInputs(a: Assistant, m: Model, x: Extractors, s: AgentState)
    ensures var r := RunSpec(a, m, x, s);
            r.messages == s.messages && r.filePaths == s.filePaths && r.voiceMode == s.voiceMode
            && r.extractedText == ToolText(s.extractedText, s.filePaths, x)
  {
  }

  /** When the orchestrator answers, neither the specialists nor the rewrite
      model affect the outcome. */
  lemma EarlyEndIgnoresSpecialists(a1: Assistant, a2: Assistant, m1: Model, m2: Model, x: Extractors, s: AgentState)
    requires m1.reply == m2.reply
    requires var s1 := Apply(s, Patch(Some(ToolText(s.extractedText, s.filePaths, x)), None, None, None));
             EndsAfterOrchestrator(Apply(s1, OrchestratorNode(s1, m1.reply)))
    ensures RunSpec(a1, m1, x, s) == RunSpec(a2, m2, x, s)
  {
  }

  /** When the graph goes on past the orchestrator, the final response it
      carries is empty. */
  lemma ContinuesWithEmptyResponse(s: AgentState, reply: (string, string) -> string)
    ensures var s2 := Apply(s, OrchestratorNode(s, reply));
            !EndsAfterOrchestrator(s2) ==> s2.finalResponse == ""
  {
    assert NoQuestionMsg[|NoQuestionMsg| - 1] == '.';
    EndsWithStopNotBlank(NoQuestionMsg);
    assert OffTopicMsg[|OffTopicMsg| - 1] == '.';
    EndsWithStopNotBlank(OffTopicMsg);
    var q := GetLastUserText(s.messages);
    if q != "" {
      StripIdempotent(reply(TruncateDoc(s.extractedText, MaxDocChars), q));
    }
  }

  /** After the specialist, the response is blank only when the rewrite
      model returned blank text for a non-blank analysis. */
  lemma RedactorBlankOnlyFromRewrite(s: AgentState, rewrite: string -> string)
    requires s.finalResponse == ""
    ensures var r := Apply(s, FinalRedactorNode(s, rewrite));
            Strip(r.finalResponse) == "" ==>
              Strip(s.specialistAnalysis) != "" && r.finalResponse == Strip(rewrite(Strip(s.specialistAnalysis)))
  {
    assert NoAnalysisMsg[|NoAnalysisMsg| - 1] == '.';
    EndsWithStopNotBlank(NoAnalysisMsg);
    if Strip(s.specialistAnalysis) != "" {
      StripIdempotent(rewrite(Strip(s.specialistAnalysis)));
    }
  }

  /** The response of a run is blank only when the rewrite model returned
      blank text for a non-blank analysis. */
  lemma RunResponseBlankOnlyFromRewrite(a: Assistant, m: Model, x: Extractors, s: AgentState)
    ensures var r := RunSpec(a, m, x, s);
            Strip(r.finalResponse) == "" ==>
              Strip(r.specialistAnalysis) != "" && r.finalResponse == Strip(m.rewrite(Strip(r.specialistAnalysis)))
  {
    var s1 := Apply(s, Patch(Some(ToolText(s.extractedText, s.filePaths, x)), None, None, None));
    var s2 := Apply(s1, OrchestratorNode(s1, m.reply));
    if !EndsAfterOrchestrator(s2) {
      ContinuesWithEmptyResponse(s1, m.reply);
      var s3 := Apply(s2, SpecialistNode(a, s2));
      RedactorBlankOnlyFromRewrite(s3, m.rewrite);
    }
  }

  /** An on-topic, routed question answered by an available specialist ends
      with the rewritten analysis of that specialist. */
  lemma RoutedAnswerIsRewrittenAnalysis(a: Assistant, m: Model, x: Extractors, s: AgentState, analysis: string)
    requires a.agents.Some?
    requires var s1 := Apply(s, Patch(Some(ToolText(s.extractedText, s.filePaths, x)), None, None, None));
             var q := GetLastUserText(s.messages);
             q != "" && AsksRouting(m.reply(TruncateDoc(s1.extractedText, MaxDocChars), q))
             && var s2 := Apply(s1, OrchestratorNode(s1, m.reply));
                var agent := if EffectiveDomain(s2.domain) == "legal" then a.agents.value.legal else a.agents.value.financial;
                agent(q, s2.extractedText, s.messages) == Some(analysis)
    requires Strip(analysis) != ""
    ensures RunSpec(a, m, x, s).finalResponse == Strip(m.rewrite(Strip(analysis)))
  {
  }
}
