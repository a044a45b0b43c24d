# Legal and financial assistant: question-answering core

This project models the per-request core of a chat assistant for legal and
financial questions, written in Dafny and proved.

A user's query passes through several stages:
- Request validation.
- Bearer-token authentication.
- A topic guardrail on the first message of a session.
- A shortcut that records a declared intent.

It then reaches the orchestrator. The orchestrator rebuilds the
conversation from the stored history and recovers the document text
carried by earlier answers. It then runs a four-stage graph:

1. **tool**: merges newly uploaded files into the document text and keeps
   its tail of at most 20000 characters.
2. **orchestrator**: the model either answers directly or routes the
   question with `DOMAIN:`. A keyword gate replaces off-topic direct
   answers with a fixed refusal.
3. **specialist**: the legal or financial agent. The legal agent probes
   search hits for their text and adds a window of the last six messages.
4. **final redactor**: rewrites the specialist's analysis.

The answer goes back to the user stripped of the document memory. It is
stored with that memory appended between two HTML-comment markers, so the
next turn can recover the document.

Every operation is stated over strings, sequences and small records.
Several things become function-typed parameters:
- The language models' replies.
- The search service and the file readers.
- The UUID parser and the user and token stores.

An exception raised by one of them is `None`. Python's `str.strip`,
`lower`, `upper`, `in` and `find` are modelled in the module `Text`. The
regular expressions of the memory codec are modelled as a scan in
`DocUtils`. Each source file gets one module:

| module | source |
|---|---|
| `DocUtils` | `utils/doc_utils.py` |
| `ChatHistoryStore` | `utils/chat_history.py` |
| `Workflow` | `graph/workflow.py` |
| `Orchestrator` | `agents/orchestrator.py` |
| `LegalAgent` | `agents/legal_agent.py` |
| `Guardrail` | `agents/guardrail.py` |
| `Requests` | `models/request.py` |
| `Domain` | `models/domain.py` |
| `Server` | the decision logic of `api/server.py` |

Code that works step by step keeps that form:
- `Workflow.ToolNode`, `Orchestrator.Respond`, `LegalAgent.RetrieveContext`,
  `LegalAgent.RecentHistory` and `Server.DisplayMessages` are loops.
- `ChatHistoryStore.ChatHistory` is a class whose list is an object shared
  with its callers.

Each of these methods is proved equal to a specification function, and
the properties are proved about those functions.

## Model

| member | source | states |
|---|---|---|
| DocUtils.MatchAt | utils/doc_utils.py:28-29 | the pattern `START.*?END` tried at the start of a text matches exactly when the text starts with START and an END follows; its group ends at the first END after START (shortest match, across newlines) |
| DocUtils.FirstMatchAt | utils/doc_utils.py:40-44 | the search position is the leftmost at which the pattern matches, and there is none when no position matches |
| DocUtils.GroupAt | utils/doc_utils.py:41-45 | the captured group is what lies between the START and the first END of the match: the match is START + group + END |
| DocUtils.RemoveSpans | utils/doc_utils.py:28-32 | substitution never lengthens the text and leaves a text without a match unchanged |
| DocUtils.StripHiddenDocTags | utils/doc_utils.py:24-33 | the result has no surrounding whitespace and is no longer than the input; "" gives ""; on text without a marked span it is the input trimmed |
| DocUtils.RemoveSpansOfSpan | utils/doc_utils.py:28-32 | substitution deletes the leftmost span START…END (whose content may cross newlines) and carries on with the rest of the text, keeping the text before the span |
| DocUtils.TwoSpansRemoved | utils/doc_utils.py:28-33 | every span is deleted, the second one included, and the text between and around the spans is kept in order |
| DocUtils.NoStartNoMatch | utils/doc_utils.py:28-45 | text without a start marker contains no marked span |
| DocUtils.ExtractHiddenDocText | utils/doc_utils.py:36-45 | "" when there is no marked span; otherwise the trimmed content of the leftmost, shortest span |
| DocUtils.FirstSpan | utils/doc_utils.py:40-45 | in `p START g END rest`, where `p` has no start marker and `g` no end marker, the search finds the span right after `p` and its group is `g` |
| DocUtils.ExtractFirstSpan | utils/doc_utils.py:36-45 | extraction reads the first span only, whatever text follows it |
| DocUtils.AppendHiddenDoc | agents/orchestrator.py:89 | the stored answer is the answer, a newline, the start marker, the document and the end marker, in that order and nothing else |
| DocUtils.ExtractAfterAppend | utils/doc_utils.py:36-45 | extracting from `answer + "\n" + START + doc + END` gives `doc` trimmed, when the answer has no start marker and the doc no end marker |
| DocUtils.StripAfterAppend | utils/doc_utils.py:24-33 | stripping the tags from `answer + "\n" + START + doc + END` gives the answer trimmed, under the same conditions |
| DocUtils.TruncateDoc | utils/doc_utils.py:48-55 | the result is a suffix of the text, at most `maxChars` long; a text that fits is unchanged (so "" gives ""); a longer one keeps exactly its last `maxChars` characters |
| DocUtils.TruncateDocAsWritten | utils/doc_utils.py:52-55 | the code as written returns a suffix of the text: the whole text when it fits or when the budget is 0, otherwise exactly its last `maxChars` characters |
| DocUtils.TruncateZeroBudgetKeepsAll | utils/doc_utils.py:55 | with a budget of 0 the code as written returns the whole text, which is longer than the budget; the corrected function returns "" |
| DocUtils.TruncateAgreesOnPositiveBudget | utils/doc_utils.py:48-55 | for every positive budget, 20000 included, the code as written and the corrected function agree |
| DocUtils.GetLastUserText | utils/doc_utils.py:58-66 | the content of the last human message; "" when there is none |
| ChatHistoryStore.ChatHistory.constructor | utils/chat_history.py:8-10 | a new history keeps its session id and starts with a fresh, empty list |
| ChatHistoryStore.ChatHistory.AddMessage | utils/chat_history.py:12-17 | the list grows in place by exactly one `(role, content)` record at its end; earlier records are unchanged |
| ChatHistoryStore.ChatHistory.GetMessages | utils/chat_history.py:19-21 | returns the history's own list object, not a copy |
| ChatHistoryStore.ChatHistory.Clear | utils/chat_history.py:23-25 | the history is rebound to a fresh empty list, and its session id is unchanged |
| ChatHistoryStore.ClearLeavesEarlierList | utils/chat_history.py:19-25 | a list obtained before `clear` still holds its records afterwards, while the history is empty |
| ChatHistoryStore.GetMessagesIsLive | utils/chat_history.py:12-21 | a list obtained from `get_messages` also shows records added later |
| Workflow.Apply | graph/workflow.py:34-42 | each of extracted text, domain, analysis and response takes the value the node's update returns for it, and keeps its old value when the update omits it; the messages, the file list and the voice flag are never changed, and an empty update changes nothing |
| Workflow.Extension | graph/workflow.py:72 | the extension is the lower-cased suffix of the path that holds no dot and starts either the path or right after a dot, i.e. the text after the last dot |
| Workflow.KindOf | graph/workflow.py:72-83 | pdf is a PDF; jpg, jpeg and png are images; docx and doc are Word files; every other extension is unsupported |
| Workflow.PagesText | graph/workflow.py:76 | pages without text add nothing |
| Workflow.FileText | graph/workflow.py:73-85 | an unsupported file adds nothing, nor does a file whose reader raised; a PDF adds the text of its pages; an image adds its OCR text; a Word file adds its paragraphs joined by newlines |
| Workflow.DumpOfSilentFiles | graph/workflow.py:70-86 | files that each add nothing leave the dump empty |
| Workflow.ToolText | graph/workflow.py:63-91 | without files the remembered text is kept as it is; with files the result is at most 20000 characters and is the tail of `(memory + "\n" + dump).strip()` |
| Workflow.ToolNode | graph/workflow.py:63-91 | the loop over the files sets exactly `extracted_text`, to the value `ToolText` specifies |
| Workflow.SilentUploadKeepsMemory | graph/workflow.py:87-89 | uploads that yield no text only trim and bound the remembered text |
| Workflow.AnyIn | graph/workflow.py:124-125 | true exactly when some keyword of the list is a substring of the text |
| Workflow.OrchestratorNode | graph/workflow.py:93-133 | without a user question the patch is only the fixed retry message. A reply containing `DOMAIN:` routes: the domain is legal iff LEGAL occurs in the reply, else financial, and the response is "". Otherwise an off-topic query gets the fixed refusal, and an on-topic one gets the stripped reply |
| Workflow.ContinuesIffRoutedOrBlank | graph/workflow.py:113-133 | after the orchestrator the graph continues exactly when the reply routed, or when the question is on topic and the reply is blank |
| Workflow.BlankDirectAnswerGoesToSpecialist | graph/workflow.py:121-133 | a blank direct answer to an on-topic question goes on to the specialist with the domain unchanged |
| Workflow.KeywordsIgnoreCase | graph/workflow.py:123-125 | the keyword gate gives the same verdict for a query and its upper-cased form |
| Workflow.OffTopicIgnoresAnswer | graph/workflow.py:127-131 | an off-topic, unrouted question is refused with the same message whatever the model answered |
| Workflow.NoQuestionIgnoresModel | graph/workflow.py:95-97 | without a question the result does not depend on the model, and the response is the fixed retry message |
| Workflow.NewAssistant | graph/workflow.py:52-59 | the specialists are available only when both were built |
| Workflow.EffectiveDomain | graph/workflow.py:137 | the domain acted on is never empty; a blank domain means legal, and any other is the stripped domain lower-cased |
| Workflow.AnySpellingOfLegal | graph/workflow.py:137 | every letter-case spelling of "legal" selects the legal specialist |
| Workflow.SpecialistNode | graph/workflow.py:135-157 | sets only `specialist_analysis`. Without agents it is the fixed unavailable message. Otherwise it is the legal agent's analysis for the legal domain and the financial agent's for any other, or the fixed error message when the agent raised |
| Workflow.FinalRedactorNode | graph/workflow.py:159-175 | a non-empty response is left untouched; a blank analysis gives the fixed insufficient-information message; otherwise the response is the stripped rewrite of the stripped analysis; no other key is set |
| Workflow.EndsAfterOrchestrator | graph/workflow.py:189 | the graph ends after the orchestrator exactly when its response is not blank |
| Workflow.Run | graph/workflow.py:177-195 | the sequential driver computes the run that `RunSpec` defines: tool, orchestrator, then specialist and redactor only when the response is blank |
| Workflow.RunKeepsInputs | graph/workflow.py:177-195 | a run never changes the conversation, the file list or the voice flag, and its extracted text is the tool stage's |
| Workflow.EarlyEndIgnoresSpecialists | graph/workflow.py:187-191 | when the orchestrator's response is not blank, neither the specialists nor the rewrite model affect the run |
| Workflow.ContinuesWithEmptyResponse | graph/workflow.py:187-191 | when the graph goes on past the orchestrator, the response it carries is "" |
| Workflow.RedactorBlankOnlyFromRewrite | graph/workflow.py:161-175 | after the redactor the response is blank only when the analysis was not blank and the stripped rewrite itself is blank |
| Workflow.RunResponseBlankOnlyFromRewrite | graph/workflow.py:177-195 | a run ends with a blank response only when the rewrite of a non-blank analysis came back blank |
| Workflow.RoutedAnswerIsRewrittenAnalysis | graph/workflow.py:135-195 | a routed question answered by an available specialist with a non-blank analysis ends with the stripped rewrite of that analysis |
| Orchestrator.RoleMessage | agents/orchestrator.py:47-66 | the content is kept; the normalised role user gives a human message, system a system message, and anything else an AI message |
| Orchestrator.Rebuild | agents/orchestrator.py:44-66 | at most one message per record; every message has non-empty, trimmed content |
| Orchestrator.HistoricalDoc | agents/orchestrator.py:44-52 | the recovered memory is trimmed, and it is "" when no record carries any |
| Orchestrator.RebuildStep | agents/orchestrator.py:45-66 | one more record adds its tag-stripped content, when not empty, with its role's kind, and replaces the memory only when it carries a non-empty one |
| Orchestrator.HistoricalDocStep | agents/orchestrator.py:50-52 | the last non-empty memory wins, and a record without one does not reset it |
| Orchestrator.InitialState | agents/orchestrator.py:68-82 | the conversation is the rebuilt history followed by the stripped query, which is the last user text; the extracted text is the recovered memory truncated to 20000 characters; the file paths are the uploads as given; domain, analysis and response are "", and voice is off |
| Orchestrator.QuestionIsLastHumanMessage | agents/orchestrator.py:69 | the route stage sees the stripped query as the question |
| Orchestrator.FinalAnswer | agents/orchestrator.py:84 | the answer has no surrounding whitespace |
| Orchestrator.CarriedDoc | agents/orchestrator.py:87 | the carried text is the stripped extracted text truncated to 20000 characters; it is empty exactly when the extracted text is blank, and not blank otherwise |
| Orchestrator.AppendMemory | agents/orchestrator.py:88-89 | the answer gets the marked memory appended only when the memory is not empty |
| Orchestrator.Respond | agents/orchestrator.py:23-91 | the loop over the history, the run and the wrapping produce the answer that `RespondSpec` defines |
| Orchestrator.VoiceRespond | agents/orchestrator.py:97-114 | the voice agent answers exactly like the text agent |
| Orchestrator.MemoryRoundTrip | agents/orchestrator.py:84-91 | stripping the tags from a returned answer gives the visible answer back, and extracting gives the carried document, trimmed |
| Orchestrator.MemoryReachesNextTurn | agents/orchestrator.py:44-91 | once the returned answer is stored as an assistant record, the next turn recovers the document this turn carried and starts its graph with it |
| LegalAgent.Lookup | agents/legal_agent.py:121 | `r.get(k)` is the value of the first field named k, and there is none when no field has that name |
| LegalAgent.ProbeKeys | agents/legal_agent.py:117-129 | the text of the first key, in order, whose value is truthy, and none when no key has a truthy value |
| LegalAgent.FirstLongString | agents/legal_agent.py:132-138 | the first string field whose stripped length exceeds 30, returned unstripped, and none when there is none |
| LegalAgent.ExtractText | agents/legal_agent.py:109-141 | the first truthy candidate field, as a string; failing that the first long string field; failing that `str(r)`, or "" for an empty hit |
| LegalAgent.EmptyHitHasNoText | agents/legal_agent.py:141 | a hit with no fields yields "" |
| LegalAgent.NewAgent | agents/legal_agent.py:15-25 | the configured index, or the default when none is configured, is used when the client can be built; otherwise there is no client and the index name is "" |
| LegalAgent.HitTexts | agents/legal_agent.py:58-62 | at most one text per hit, none of them empty |
| LegalAgent.HitTextsConcat | agents/legal_agent.py:58-62 | the texts of two runs of hits are the texts of the first followed by those of the second |
| LegalAgent.HitTextsOne | agents/legal_agent.py:59-62 | one hit contributes its extracted text when that is not empty, and nothing otherwise |
| LegalAgent.HitTextsAt | agents/legal_agent.py:58-62 | every hit with a non-empty text contributes it exactly once, after the texts of the earlier hits and before those of the later ones |
| LegalAgent.HitTextsFromHits | agents/legal_agent.py:58-62 | every retrieved text is the extracted text of one of the hits |
| LegalAgent.RagData | agents/legal_agent.py:52-66 | "" without a search client or when the search raised; otherwise the hit texts joined by newlines |
| LegalAgent.RetrieveContext | agents/legal_agent.py:52-66 | the retrieval loop computes `RagData` |
| LegalAgent.LastN | agents/legal_agent.py:74 | `xs[-n:]`: the last n items, or all of them when there are fewer |
| LegalAgent.RecentLines | agents/legal_agent.py:74-82 | at most one line per message, each `label: content.strip()` of a message with non-blank content; only blank messages give no lines |
| LegalAgent.RecentLinesConcat | agents/legal_agent.py:74-82 | the lines of two runs of messages are the lines of the first followed by those of the second |
| LegalAgent.RecentLinesOne | agents/legal_agent.py:75-81 | one message gives the line `label: content.strip()` when its content is not blank, and nothing otherwise |
| LegalAgent.RecentLinesAt | agents/legal_agent.py:74-82 | every message with non-blank content gives exactly one line, after the lines of the earlier messages and before those of the later ones |
| LegalAgent.WindowBlankIff | agents/legal_agent.py:74-82 | the window of the last six messages yields no line exactly when each of those messages is blank |
| LegalAgent.HistoryText | agents/legal_agent.py:74-83 | the excerpt is "" exactly when each of the last six messages has blank content |
| LegalAgent.HistoryTextWindow | agents/legal_agent.py:71-83 | the excerpt has at most six lines, each from one of the last six messages |
| LegalAgent.HistoryTextIgnoresOlder | agents/legal_agent.py:74 | messages older than the last six do not affect the excerpt |
| LegalAgent.RecentHistory | agents/legal_agent.py:71-83 | the history loop computes the excerpt |
| LegalAgent.AnalyzeSpec | agents/legal_agent.py:31-107 | an empty query gives the fixed no-question message; otherwise the answer is the stripped reply of the model, and an exception in the model propagates |
| LegalAgent.PromptDocumentBounded | agents/legal_agent.py:69 | the document text in the prompt is at most 20000 characters |
| LegalAgent.EmptyQueryConsultsNothing | agents/legal_agent.py:48-49 | with an empty query neither the search nor the model affects the answer |
| LegalAgent.Analyze | agents/legal_agent.py:31-107 | the method computes `AnalyzeSpec` |
| Guardrail.Validate | agents/guardrail.py:13-41 | with files, `(True, None)`. Otherwise the query is valid exactly when ACCEPT occurs in the upper-cased reply, with a missing reply read as "". The reason is absent exactly when valid, and is the fixed refusal otherwise |
| Guardrail.FilesBypassClassifier | agents/guardrail.py:25-26 | with files attached the verdict does not depend on the classifier |
| Guardrail.AcceptInAnyCase | agents/guardrail.py:40 | a reply that contains "accept" in any letter case lets the query through |
| Guardrail.RejectBlocks | agents/guardrail.py:39-41 | a reply of REJECT, or no content at all, blocks the query with the fixed reason |
| Requests.ErrorsOf | models/request.py:7-51 | a field contributes no error when valid and exactly its one error otherwise |
| Requests.ValidateQuery | models/request.py:10-30 | the raw query must be 1 to 10000 characters and not only whitespace; an accepted query is returned stripped, non-empty and within the bound |
| Requests.ValidateQueryIdempotent | models/request.py:25-30 | an accepted query is accepted again unchanged |
| Requests.ParseVoiceMode | models/request.py:44-51 | absent is false; a bool passes through; a string is true iff its lower-cased form is true, 1, yes or on; anything else is its truthiness |
| Requests.VoiceIgnoresCase | models/request.py:47-49 | upper-casing a voice-mode string never changes the decision |
| Requests.ValidateOptionalSessionId | models/request.py:32-42 | an absent or blank id is kept as sent; any other must parse as a UUID and is returned stripped |
| Requests.ValidateQueryRequest | models/request.py:7-51 | the request is built exactly when query and session id are valid; otherwise the errors of the failing fields are listed in field order |
| Requests.BlankSessionIdKept | models/request.py:35 | a blank session id is not turned into "no session id" |
| Requests.NormalizeName | models/request.py:67-80 | a name longer than 200 characters is refused; a blank name becomes no name; any other is returned stripped |
| Requests.NormalizeNameIdempotent | models/request.py:73-80 | a normalised name normalises to itself |
| Requests.ValidateCreateSessionRequest | models/request.py:64-80 | the request is built exactly when the name is valid, with the normalised name; otherwise a single error on `name` |
| Domain.ValidateSessionId | models/domain.py:30-37 | a session id is required and must parse as a UUID; it is kept as sent |
| Domain.Required | models/domain.py:111-114 | a required field is accepted exactly when present |
| Domain.ValidateNonNegative | models/domain.py:115 | an optional count is accepted when absent or at least 0 |
| Domain.ValidateRole | models/domain.py:13-16 | the role must be user, assistant or system |
| Domain.ValidateContent | models/domain.py:17-28 | content must be non-empty and not only whitespace, and is kept unstripped |
| Domain.ValidateMessage | models/domain.py:8-37 | the message is built exactly when session id, role and content are valid; otherwise their errors are listed in field order |
| Domain.ValidateMessageCount | models/domain.py:70-74 | an absent count defaults to 0, null stays null, and a number must be at least 0 |
| Domain.ValidateSession | models/domain.py:53-92 | the session is built exactly when session id, name and count are valid; otherwise their errors are listed in field order |
| Domain.CreatedSessionKeepsName | models/domain.py:85-92 | a name accepted when creating a session is stored unchanged by the session entity |
| Domain.ValidateDocumentMetadata | models/domain.py:108-129 | the record is built exactly when the required fields are present, the session id is a UUID and any file size is at least 0; otherwise the errors are listed in field order |
| Server.AfterFirstSpace | api/server.py:73 | `split(" ", 1)[1]` is the text after the first space |
| Server.BearerSpace | api/server.py:72-73 | a header that reads "bearer " in any letter case has its first space at position 6 |
| Server.AuthToken | api/server.py:70-74 | "" unless the header starts with "bearer " in any letter case; otherwise the stripped text after the first space |
| Server.BearerAnyCase | api/server.py:70-74 | any spelling of the scheme carries the token |
| Server.RequireUser | api/server.py:77-105 | an empty token gives UNAUTHORIZED/401 without a lookup; otherwise the user the token belongs to, or UNAUTHORIZED/401 when there is none |
| Server.NoTokenNoLookup | api/server.py:77-81 | without a bearer header the token store is not consulted |
| Server.ShownLoc | api/server.py:92 | a location without `__root__` is shown item for item, in order; a single `__root__` shows nothing and any other single item shows its text |
| Server.ShownLocConcat | api/server.py:92 | the shown form of two joined locations is the first's followed by the second's, so every item but `__root__` is kept in its order |
| Server.FormatValidationError | api/server.py:84-94 | no errors gives "Datos invalidos"; otherwise `loc: msg` for the first error when its shown location is not empty, and `msg` alone when it is |
| Server.FormatExamples | api/server.py:84-94 | a root-level error shows its message alone; a field error is prefixed with the field, and a missing message reads "Datos invalidos" |
| Server.UsernameMatches | api/server.py:67 | `^[A-Za-z0-9]+$` matches exactly a non-empty text whose characters are ASCII letters and digits, except that the last may be a newline after at least one of them |
| Server.StrippedUsernameMatches | api/server.py:67 | on a stripped name the pattern `^[A-Za-z0-9]+$` accepts exactly the non-empty ASCII letter-and-digit names |
| Server.RegisterChecks | api/server.py:161-181 | the stripped name's form is checked first, then the password confirmation, then whether the user exists; a registration that passes all three uses the stripped name |
| Server.UsernameCheckedFirst | api/server.py:161-167 | a malformed name is reported whatever the passwords and the user store say |
| Server.IntentOf | api/server.py:324-325 | a query declares an intent exactly when it is financiera or legal once stripped and lower-cased |
| Server.HandleQuery | api/server.py:307-369 | a first message is rejected exactly when the guardrail refuses it. An intent is recorded exactly on an accepted first message that declares one, storing the query and `intent:…`. Every other query is answered when the orchestrator returns, storing the query and the tagged reply and showing the reply stripped of its tags, and is a processing error exactly when the orchestrator raised |
| Server.GuardrailOnlyOnFirstMessage | api/server.py:307-314 | after the first message the guardrail's model is not consulted |
| Server.FilesNeverRejected | api/server.py:314-315 | a first message with files attached is never rejected |
| Server.ReplyHidesMemory | api/server.py:341-349 | the user is shown the orchestrator's answer without its document memory |
| Server.Display | api/server.py:519-522 | an assistant row's content is shown with its tags stripped; other rows are shown as stored; a missing role reads user |
| Server.DisplayMessages | api/server.py:517-532 | one displayed message per stored row, in order |
| Server.DisplayMatchesReply | api/server.py:519-522 | reloading an answered exchange shows the query as sent and the same reply the user was first shown |
| Server.TtsText | api/server.py:546-552 | the text is stripped; empty text is refused; longer than 4000 characters it is cut to its first 4000, keeping the head |

## Left out

- OCR, PDF and Word reading are library and cloud calls. They are the parameters `pdfPages`, `ocr` and `docxParagraphs`, with `None` for a reader that raised. The image preprocessing before OCR is floating-point work and is not modelled.
- Every language-model call is a parameter mapping its input to the reply content. This includes the orchestrator, the redactor, the guardrail and the legal agent. The prompt wording is not modelled; the legal agent's prompt is abstracted to the three texts it is built from.
- The graph engine is replaced by the sequential driver `Workflow.Run`. It takes the one conditional edge of the compiled graph. The message reducer of the state is not modelled, because no node returns messages.
- The financial agent's source is not part of this model. It is the same `Analyzer` contract as the legal agent's `analyze`.
- The search service is a parameter. `LegalAgent.RagData` passes it `top=3` but does not itself bound the number of hits. It has no relevance threshold, embedding or scoring, and neither does the code.
- `str()` of a non-string field value, and the truthiness of such values, are inputs of the model (`NonStr(truthy, text)`). `str(r)` of a whole hit is its `repr` field.
- Case mapping covers the one-to-one mappings of ASCII and Latin-1 only. `lower` and `upper` of characters beyond Latin-1 are left as they are.
- Text.UpperChar: Python maps ß (U+00DF) to "SS", µ (U+00B5) to U+039C and ÿ (U+00FF) to U+0178; the model leaves these three unchanged. So Text.LowerOfUpper, and Workflow.KeywordsIgnoreCase and Requests.VoiceIgnoresCase built on it, hold in the model but not in Python for texts with ß or µ, nor for characters beyond Latin-1 whose upper case is ASCII, such as ı (U+0131), which Python upper-cases to "I", and ſ (U+017F), which it upper-cases to "S": in Python the keyword gate refuses "ıva" and accepts "IVA". The words the source compares against (ACCEPT, DOMAIN:, LEGAL, the topic keywords, the voice words) contain none of these characters.
- Workflow.OrchestratorNode: an exception raised by the model inside `orchestrator_node` or `final_redactor_node` is not modelled. The model is a total function there.
- Guardrail.Validate: an exception raised by the classifier is not modelled.
- Orchestrator.Respond: a missing query or file list is passed as "" or []. The `or ""` and `or []` of the source are therefore not modelled separately.
- Server.HandleQuery: validation, authentication and session lookups come before it and are modelled separately or left out. It receives whether this is the first message. Saving uploads, database writes and response JSON are not modelled. The orchestrator is one parameter mapping the query to the tagged answer.
- Server.RegisterChecks: password hashing and the creation of the user and token are left out. The user store is the parameter `taken`.
- The registration and login request bodies are imported by the HTTP layer but are not defined in `models/request.py`. They are not part of this model.
- UUID parsing is the parameter `isUuid`.
- Pydantic's own error texts are abstracted as `ErrorKind` values. The validators' own messages are kept verbatim. Validators are assumed to run after the field constraints and not for a null value.
- Timestamps, ids generated by the database, and the `created_at` and `updated_at` fields are not modelled.
- Speech synthesis, the database layer, configuration, the health route and the response schemas are I/O or data without behaviour, and are not modelled.
- Stripping the tags is not an identity on text without markers, because it also trims surrounding whitespace. The model states exactly that.
- The memory wrapper is appended only when the carried text is not empty, as the code does.

## Findings

| source | as written | input that shows it | evidently intended | confidence | as-written member | corrected member |
|---|---|---|---|---|---|---|
| utils/doc_utils.py:52-55 | `text[-max_chars:]` with `max_chars == 0` is `text[-0:]`, the whole text | `truncate_doc("ab", 0)` returns `"ab"`, two characters over a budget of 0 | the result is never longer than `max_chars`; a zero budget gives "" | not executed | DocUtils.TruncateZeroBudgetKeepsAll | DocUtils.TruncateDoc |
