/** The topic guardrail: a query with attached files is let through; any
    other query is let through exactly when the classifier's reply says
    ACCEPT, in any letter case. */
module Guardrail {
  import opened Common
  import opened Text

  const RejectReason := "Lo siento, solo puedo ayudarte con consultas legales o financieras. Por favor, reformula tu pregunta dentro de estos temas."

  /** The `(is_valid, reason)` pair. */
  datatype Verdict = Verdict(valid: bool, reason: Option<string>)

  /** The classifier: the content of its reply to the query (`None` when the
      reply has no content). */
  type Classifier = string -> Option<string>

  function ReplyText(reply: Option<string>): string {
    if reply.Some? then reply.value else ""
  }

  /** `GuardrailAgent.validate`. A missing query is sent as "". */
  function Validate(query: Option<string>, files: seq<string>, classify: Classifier): (v: Verdict)
    ensures files != [] ==> v == Verdict(true, None)
    ensures files == [] ==>
              (v.valid <==> Contains(Upper(ReplyText(classify(if query.Some? then query.value else ""))), "ACCEPT"))
    ensures v.reason.None? <==> v.valid
    ensures !v.valid ==> v.reason == Some(RejectReason)
  {
    if files != [] then Verdict(true, None)
    else
      var reply := ReplyText(classify(if query.Some? then query.value else ""));
      var ok := Contains(Upper(reply), "ACCEPT");
      Verdict(ok, if ok then None else Some(RejectReason))
  }

  /** With files attached the classifier is not consulted. */
  lemma FilesBypassClassifier(query: Option<string>, files: seq<string>, c1: Classifier, c2: Classifier)
    requires files != []
    ensures Validate(query, files, c1) == Validate(query, files, c2)
  {
  }

  /** A reply that contains "accept" in any letter case lets the query
      through, whatever surrounds it. */
  lemma AcceptInAnyCase(query: Option<string>, classify: Classifier, before: string, word: string, after: string)
    requires Upper(word) == "ACCEPT"
    requires classify(if query.Some? then query.value else "") == Some(before + word + after)
    ensures Validate(query, [], classify).valid
  {
    var s := before + word + after;
    var u := Upper(s);
    assert u[|before|..|before| + 6] == Upper(word);
    assert OccursAt(u, "ACCEPT", |before|);
    ContainsIff(u, "ACCEPT");
  }

  /** A reply of REJECT, or an empty reply, blocks the query. */
  lemma RejectBlocks(query: Option<string>, classify: Classifier)
    requires classify(if query.Some? then query.value else "") in {Some("REJECT"), None}
    ensures Validate(query, [], classify) == Verdict(false, Some(RejectReason))
  {
    var u := Upper(ReplyText(classify(if query.Some? then query.value else "")));
    assert u == "REJECT" || u == "";
    if u != "" {
      assert u[0] == 'R';
    }
    ContainsIff(u, "ACCEPT");
  }
}
