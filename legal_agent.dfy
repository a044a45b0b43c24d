/** The legal specialist: probes search hits for their text, assembles the
    retrieved context, a window over the recent conversation and the bounded
    document text, and returns the model's stripped answer. */
module LegalAgent {
  import opened Common
  import opened Text
  import opened Messages
  import opened DocUtils

  // ---------------------------------------------------------------------------
  // Search hits.

  /** A field value of a search hit: a string, or any other value, known by
      its truthiness and its `str()` text. */
  datatype Value = Str(s: string) | NonStr(truthy: bool, text: string)

  predicate Truthy(v: Value) {
    if v.Str? then v.s != "" else v.truthy
  }

  /** `str(v)`. */
  function StrOf(v: Value): string {
    if v.Str? then v.s else v.text
  }

  /** A search hit: a dictionary, its fields in iteration order, and its
      `str()` text. */
  datatype Hit = Hit(fields: seq<(string, Value)>, repr: string)

  /** `r.get(k)`: the value stored under `k`, if any. */
  function Lookup(fields: seq<(string, Value)>, k: string): (o: Option<Value>)
    ensures o.None? ==> forall i :: 0 <= i < |fields| ==> fields[i].0 != k
    ensures o.Some? ==> exists i :: 0 <= i < |fields| && fields[i] == (k, o.value)
  {
    if fields == [] then None
    else if fields[0].0 == k then Some(fields[0].1)
    else Lookup(fields[1..], k)
  }

  predicate TruthyAt(fields: seq<(string, Value)>, k: string) {
    Lookup(fields, k).Some? && Truthy(Lookup(fields, k).value)
  }

  /** The fields tried first, in this order. */
  const Candidates: seq<string> := ["content_text", "content", "text", "document_text", "body", "searchable_text"]

  /** The text of the first key of `ks` whose value is truthy. */
  function ProbeKeys(fields: seq<(string, Value)>, ks: seq<string>): (o: Option<string>)
    ensures o.None? ==> forall i :: 0 <= i < |ks| ==> !TruthyAt(fields, ks[i])
    ensures o.Some? ==> exists i :: 0 <= i < |ks| && TruthyAt(fields, ks[i])
                          && o.value == StrOf(Lookup(fields, ks[i]).value)
                          && forall j :: 0 <= j < i ==> !TruthyAt(fields, ks[j])
  {
    if ks == [] then None
    else if TruthyAt(fields, ks[0]) then Some(StrOf(Lookup(fields, ks[0]).value))
    else
      var o := ProbeKeys(fields, ks[1..]);
      if o.Some? then
        var i :| 0 <= i < |ks[1..]| && TruthyAt(fields, ks[1..][i])
                 && o.value == StrOf(Lookup(fields, ks[1..][i]).value)
                 && forall j :: 0 <= j < i ==> !TruthyAt(fields, ks[1..][j]);
        assert forall j :: 0 <= j < i + 1 ==> !TruthyAt(fields, ks[j]) by {
          forall j | 0 <= j < i + 1 ensures !TruthyAt(fields, ks[j]) {
            if j > 0 { assert ks[j] == ks[1..][j - 1]; }
          }
        }
        assert ks[i + 1] == ks[1..][i];
        o
      else
        assert forall i :: 1 <= i < |ks| ==> ks[i] == ks[1..][i - 1];
        o
  }

  predicate LongString(v: Value) {
    v.Str? && |Strip(v.s)| > 30
  }

  /** The first string field whose stripped length exceeds 30, unstripped. */
  function FirstLongString(fields: seq<(string, Value)>): (o: Option<string>)
    ensures o.None? ==> forall i :: 0 <= i < |fields| ==> !LongString(fields[i].1)
    ensures o.Some? ==> exists i :: 0 <= i < |fields| && LongString(fields[i].1) && o.value == fields[i].1.s
                          && forall j :: 0 <= j < i ==> !LongString(fields[j].1)
  {
    if fields == [] then None
    else if LongString(fields[0].1) then Some(fields[0].1.s)
    else
      var o := FirstLongString(fields[1..]);
      if o.Some? then
        var i :| 0 <= i < |fields[1..]| && LongString(fields[1..][i].1) && o.value == fields[1..][i].1.s
                 && forall j :: 0 <= j < i ==> !LongString(fields[1..][j].1);
        assert fields[i + 1] == fields[1..][i];
        o
      else
        o
  }

  /** `_extract_text_from_result`: a truthy candidate field first, then a long
      string field, then `str(r)`, and "" for an empty hit. */
  function ExtractText(r: Hit): (t: string)
    ensures (exists i :: 0 <= i < |Candidates| && TruthyAt(r.fields, Candidates[i])) ==>
              exists i :: 0 <= i < |Candidates| && TruthyAt(r.fields, Candidates[i])
                && t == StrOf(Lookup(r.fields, Candidates[i]).value)
                && forall j :: 0 <= j < i ==> !TruthyAt(r.fields, Candidates[j])
    ensures (forall i :: 0 <= i < |Candidates| ==> !TruthyAt(r.fields, Candidates[i]))
            && (exists i :: 0 <= i < |r.fields| && LongString(r.fields[i].1)) ==>
              exists i :: 0 <= i < |r.fields| && LongString(r.fields[i].1) && t == r.fields[i].1.s
                && forall j :: 0 <= j < i ==> !LongString(r.fields[j].1)
    ensures (forall i :: 0 <= i < |Candidates| ==> !TruthyAt(r.fields, Candidates[i]))
            && (forall i :: 0 <= i < |r.fields| ==> !LongString(r.fields[i].1)) ==>
              t == (if r.fields == [] then "" else r.repr)
  {
    match ProbeKeys(r.fields, Candidates)
    case Some(t) => t
    case None =>
      match FirstLongString(r.fields)
      case Some(t) => t
      case None => if r.fields == [] then "" else r.repr
  }

  /** A hit with no fields yields no text. */
  lemma EmptyHitHasNoText(repr: string)
    ensures ExtractText(Hit([], repr)) == ""
  {
    assert forall i :: 0 <= i < |Candidates| ==> !TruthyAt([], Candidates[i]);
  }

  // ---------------------------------------------------------------------------
  // The agent.

  const DefaultLegalIndex := "multimodal-rag-1770652413829"
  const NoQuestionGivenMsg := "No he recibido ninguna pregunta."

  /** The agent after construction: whether a search client exists, and the
      index it searches ("" without a client). */
  datatype Agent = Agent(searchReady: bool, indexName: string)

  /** `LegalAgent.__init__`. `envIndex` is the configured index name and
      `connect(index)` says whether the search client could be built. */
  function NewAgent(envIndex: Option<string>, connect: string -> bool): (a: Agent)
    ensures var index := if envIndex.Some? && envIndex.value != "" then envIndex.value else DefaultLegalIndex;
            (a.searchReady <==> connect(index)) && a.indexName == (if connect(index) then index else "")
  {
    var index := if envIndex.Some? && envIndex.value != "" then envIndex.value else DefaultLegalIndex;
    if connect(index) then Agent(true, index) else Agent(false, "")
  }

  /** `search(index, query, top)`: the hits in order, or `None` when the
      search raised. */
  type Search = (string, string, nat) -> Option<seq<Hit>>

  /** What the prompt is built from: the conversation excerpt, the document
      text and the retrieved context. */
  datatype LegalPrompt = LegalPrompt(history: string, document: string, rag: string)

  /** The model: its reply content ("" for none), or `None` when it raised. */
  type Llm = (LegalPrompt, string) -> Option<string>

  /** The texts of the hits, blank ones dropped, order kept. */
  function HitTexts(hits: seq<Hit>): (ts: seq<string>)
    ensures |ts| <= |hits|
    ensures forall i :: 0 <= i < |ts| ==> ts[i] != ""
  {
    if hits == [] then []
    else
      var prev := HitTexts(hits[..|hits| - 1]);
      var t := ExtractText(hits[|hits| - 1]);
      if t != "" then prev + [t] else prev
  }

  /** Every retrieved text is the text of one of the hits. */
  lemma {:induction false} HitTextsFromHits(hits: seq<Hit>)
    ensures forall i :: 0 <= i < |HitTexts(hits)| ==> exists j :: 0 <= j < |hits| && HitTexts(hits)[i] == ExtractText(hits[j])
  {
    if hits != [] {
      var init := hits[..|hits| - 1];
      HitTextsFromHits(init);
      var ts := HitTexts(hits);
      var last := ExtractText(hits[|hits| - 1]);
      assert ts == if last != "" then HitTexts(init) + [last] else HitTexts(init);
      forall i | 0 <= i < |ts|
        ensures exists j :: 0 <= j < |hits| && ts[i] == ExtractText(hits[j])
      {
        if i < |HitTexts(init)| {
          var j :| 0 <= j < |init| && HitTexts(init)[i] == ExtractText(init[j]);
          assert init[j] == hits[j];
        } else {
          assert ts[i] == ExtractText(hits[|hits| - 1]);
        }
      }
    } else {
      assert HitTexts(hits) == [];
    }
  }

  /** The texts of two runs of hits are those of each run, in order. */
  lemma {:induction false} HitTextsConcat(a: seq<Hit>, b: seq<Hit>)
    ensures HitTexts(a + b) == HitTexts(a) + HitTexts(b)
    decreases |b|
  {
    if b == [] {
      assert a + b == a;
    } else {
      var init := b[..|b| - 1];
      HitTextsConcat(a, init);
      assert (a + b)[..|a + b| - 1] == a + init;
      assert (a + b)[|a + b| - 1] == b[|b| - 1];
    }
  }

  /** Each hit contributes its text, when not empty, at its own place: after
      the texts of the hits before it and before those of the hits after it. */
  lemma {:induction false} HitTextsAt(hits: seq<Hit>, j: nat)
    requires j < |hits|
    ensures HitTexts(hits) == HitTexts(hits[..j])
                              + (if ExtractText(hits[j]) != "" then [ExtractText(hits[j])] else [])
                              + HitTexts(hits[j + 1..])
  {
    var pre, one, post := hits[..j], [hits[j]], hits[j + 1..];
    calc {
      HitTexts(hits);
      { assert hits == pre + one + post; }
      HitTexts(pre + one + post);
      { HitTextsConcat(pre + one, post); }
      HitTexts(pre + one) + HitTexts(post);
      { HitTextsConcat(pre, one); HitTextsOne(hits[j]); }
      HitTexts(pre) + (if ExtractText(hits[j]) != "" then [ExtractText(hits[j])] else []) + HitTexts(post);
    }
  }

  lemma HitTextsOne(h: Hit)
    ensures HitTexts([h]) == if ExtractText(h) != "" then [ExtractText(h)] else []
  {
    assert [h][..0] == [];
  }

  /** The retrieved context: the hit texts joined by newlines, or "" without
      a search client or when the search raised. */
  function RagData(a: Agent, search: Search, query: string): (r: string)
    ensures !a.searchReady ==> r == ""
    ensures a.searchReady && search(a.indexName, query, 3).None? ==> r == ""
    ensures a.searchReady && search(a.indexName, query, 3).Some? ==>
              r == Join("\n", HitTexts(search(a.indexName, query, 3).value))
  {
    if !a.searchReady then ""
    else
      match search(a.indexName, query, 3)
      case None => ""
      case Some(hits) => Join("\n", HitTexts(hits))
  }

  /** The speaker label of a message in the excerpt. */
  function Label(m: ChatMsg): string {
    match m
    case System(_) => "Sistema"
    case Human(_) => "Usuario"
    case Ai(_) => "Asistente"
  }

  /** The last `n` items, or all of them when there are fewer. */
  function LastN<T>(xs: seq<T>, n: nat): (w: seq<T>)
    ensures |w| == if |xs| < n then |xs| else n
    ensures w == xs[|xs| - |w|..]
  {
    if |xs| <= n then xs else xs[|xs| - n..]
  }

  /** One labelled line per message with non-blank content, order kept. */
  function RecentLines(ms: seq<ChatMsg>): (ls: seq<string>)
    ensures |ls| <= |ms|
    ensures forall i :: 0 <= i < |ls| ==>
              exists j :: 0 <= j < |ms| && Strip(ms[j].content) != ""
                && ls[i] == Label(ms[j]) + ": " + Strip(ms[j].content)
    ensures (forall j :: 0 <= j < |ms| ==> Strip(ms[j].content) == "") ==> ls == []
  {
    if ms == [] then []
    else
      var init := ms[..|ms| - 1];
      var prev := RecentLines(init);
      var m := ms[|ms| - 1];
      var c := Strip(m.content);
      assert forall j :: 0 <= j < |init| ==> init[j] == ms[j];
      if c != "" then prev + [Label(m) + ": " + c] else prev
  }

  /** The lines of two runs of messages are those of each run, in order. */
  lemma {:induction false} RecentLinesConcat(a: seq<ChatMsg>, b: seq<ChatMsg>)
    ensures RecentLines(a + b) == RecentLines(a) + RecentLines(b)
    decreases |b|
  {
    if b == [] {
      assert a + b == a;
    } else {
      var init := b[..|b| - 1];
      RecentLinesConcat(a, init);
      assert (a + b)[..|a + b| - 1] == a + init;
      assert (a + b)[|a + b| - 1] == b[|b| - 1];
    }
  }

  /** Each message with non-blank content contributes exactly its labelled
      line, at its own place; a blank one contributes nothing. */
  lemma {:induction false} RecentLinesAt(ms: seq<ChatMsg>, j: nat)
    requires j < |ms|
    ensures RecentLines(ms) == RecentLines(ms[..j])
                                + (if Strip(ms[j].content) != "" then [Label(ms[j]) + ": " + Strip(ms[j].content)] else [])
                                + RecentLines(ms[j + 1..])
  {
    var pre, one, post := ms[..j], [ms[j]], ms[j + 1..];
    calc {
      RecentLines(ms);
      { assert ms == pre + one + post; }
      RecentLines(pre + one + post);
      { RecentLinesConcat(pre + one, post); }
      RecentLines(pre + one) + RecentLines(post);
      { RecentLinesConcat(pre, one); RecentLinesOne(ms[j]); }
      RecentLines(pre) + (if Strip(ms[j].content) != "" then [Label(ms[j]) + ": " + Strip(ms[j].content)] else []) + RecentLines(post);
    }
  }

  lemma RecentLinesOne(m: ChatMsg)
    ensures RecentLines([m]) == if Strip(m.content) != "" then [Label(m) + ": " + Strip(m.content)] else []
  {
    assert [m][..0] == [];
  }

  /** The excerpt is empty exactly when every one of the last six messages is
      blank. */
  lemma {:induction false} WindowBlankIff(ms: seq<ChatMsg>)
    ensures RecentLines(LastN(ms, 6)) == [] <==> forall j :: 0 <= j < |ms| && |ms| - 6 <= j ==> Strip(ms[j].content) == ""
  {
    var w := LastN(ms, 6);
    if j :| 0 <= j < |ms| && |ms| - 6 <= j && Strip(ms[j].content) != "" {
      var k := j - (|ms| - |w|);
      assert w[k] == ms[j];
      RecentLinesAt(w, k);
    } else {
      forall k | 0 <= k < |w| ensures Strip(w[k].content) == "" {
        assert w[k] == ms[|ms| - |w| + k];
      }
    }
  }

  /** The conversation excerpt: the labelled lines of the last six messages. */
  function HistoryText(ms: seq<ChatMsg>): (h: string)
    ensures h == "" <==> forall j :: 0 <= j < |ms| && |ms| - 6 <= j ==> Strip(ms[j].content) == ""
  {
    var ls := RecentLines(LastN(ms, 6));
    WindowBlankIff(ms);
    assert forall i :: 0 <= i < |ls| ==> |ls[i]| >= 2;
    JoinEmptyIff("\n", ls);
    Join("\n", ls)
  }

  /** The excerpt has at most six lines, each from one of the last six
      messages. */
  lemma HistoryTextWindow(ms: seq<ChatMsg>)
    ensures |RecentLines(LastN(ms, 6))| <= 6
    ensures forall i :: 0 <= i < |RecentLines(LastN(ms, 6))| ==>
              exists j :: |ms| - 6 <= j < |ms| && 0 <= j && Strip(ms[j].content) != ""
                && RecentLines(LastN(ms, 6))[i] == Label(ms[j]) + ": " + Strip(ms[j].content)
  {
    var w := LastN(ms, 6);
    var ls := RecentLines(w);
    forall i | 0 <= i < |ls|
      ensures exists j :: |ms| - 6 <= j < |ms| && 0 <= j && Strip(ms[j].content) != ""
                && ls[i] == Label(ms[j]) + ": " + Strip(ms[j].content)
    {
      var k :| 0 <= k < |w| && Strip(w[k].content) != "" && ls[i] == Label(w[k]) + ": " + Strip(w[k].content);
      assert w[k] == ms[|ms| - |w| + k];
    }
  }

  /** Messages older than the last six do not affect the excerpt. */
  lemma HistoryTextIgnoresOlder(older: seq<ChatMsg>, recent: seq<ChatMsg>)
    requires |recent| >= 6
    ensures HistoryText(older + recent) == HistoryText(recent)
  {
    assert LastN(older + recent, 6) == LastN(recent, 6);
  }

  /** `LegalAgent.analyze`, as a function of its inputs. `None` stands for an
      exception raised by the model, which the agent lets through. */
  function AnalyzeSpec(a: Agent, search: Search, llm: Llm, query: string, documentText: string, ms: seq<ChatMsg>): (r: Option<string>)
    ensures query == "" ==> r == Some(NoQuestionGivenMsg)
    ensures query != "" ==>
              var prompt := LegalPrompt(HistoryText(ms), TruncateDoc(documentText, MaxDocChars), RagData(a, search, query));
              (r.None? <==> llm(prompt, query).None?)
              && (r.Some? ==> r.value == Strip(llm(prompt, query).value))
  {
    if query == "" then Some(NoQuestionGivenMsg)
    else
      var prompt := LegalPrompt(HistoryText(ms), TruncateDoc(documentText, MaxDocChars), RagData(a, search, query));
      match llm(prompt, query)
      case None => None
      case Some(content) => Some(Strip(content))
  }

  /** The document text the model sees never exceeds the bound. */
  lemma PromptDocumentBounded(a: Agent, search: Search, query: string, documentText: string, ms: seq<ChatMsg>)
    ensures |LegalPrompt(HistoryText(ms), TruncateDoc(documentText, MaxDocChars), RagData(a, search, query)).document| <= MaxDocChars
  {
  }

  /** With an empty query the answer is fixed: neither the search nor the
      model is consulted. */
  lemma EmptyQueryConsultsNothing(a: Agent, s1: Search, s2: Search, l1: Llm, l2: Llm, documentText: string, ms: seq<ChatMsg>)
    ensures AnalyzeSpec(a, s1, l1, "", documentText, ms) == AnalyzeSpec(a, s2, l2, "", documentText, ms)
  {
  }

  /** The retrieval step of `analyze`: the hit texts gathered in a loop. */
  method RetrieveContext(a: Agent, search: Search, query: string) returns (ragData: string)
    ensures ragData == RagData(a, search, query)
  {
    ragData := "";
    if a.searchReady {
      var found := search(a.indexName, query, 3);
      if found.Some? {
        var hits := found.value;
        var ragTexts: seq<string> := [];
        for i := 0 to |hits|
          invariant ragTexts == HitTexts(hits[..i])
        {
          assert hits[..i + 1][..i] == hits[..i];
          var txt := ExtractText(hits[i]);
          if txt != "" {
            ragTexts := ragTexts + [txt];
          }
        }
        assert hits[..|hits|] == hits;
        ragData := Join("\n", ragTexts);
      }
    }
  }

  /** The history step of `analyze`: the labelled lines gathered in a loop. */
  method RecentHistory(ms: seq<ChatMsg>) returns (historyText: string)
    ensures historyText == HistoryText(ms)
  {
    historyText := "";
    if ms != [] {
      var window := LastN(ms, 6);
      var recent: seq<string> := [];
      for i := 0 to |window|
        invariant recent == RecentLines(window[..i])
      {
        assert window[..i + 1][..i] == window[..i];
        var m := window[i];
        var content := Strip(m.content);
        if content != "" {
          recent := recent + [Label(m) + ": " + content];
        }
      }
      assert window[..|window|] == window;
      historyText := Join("\n", recent);
    }
  }

  /** `LegalAgent.analyze`. */
  method Analyze(a: Agent, search: Search, llm: Llm, query: string, documentText: string, ms: seq<ChatMsg>)
    returns (r: Option<string>)
    ensures r == AnalyzeSpec(a, search, llm, query, documentText, ms)
  {
    if query == "" {
      return Some(NoQuestionGivenMsg);
    }
    var ragData := RetrieveContext(a, search, query);
    var docText := TruncateDoc(documentText, MaxDocChars);
    var historyText := RecentHistory(ms);
    var response := llm(LegalPrompt(historyText, docText, ragData), query);
    if response.None? {
      return None;
    }
    r := Some(Strip(response.value));
  }
}
