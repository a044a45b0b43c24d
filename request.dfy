/** Validation of the API request bodies: field constraints are checked on
    the raw value first, then the field's own validator normalises it; every
    failing field contributes one error, in field order. */
module Requests {
  import opened Common
  import opened Text

  /** Why one field was refused. `Invalid` carries the validator's message. */
  datatype ErrorKind = Missing | TooShort(min: nat) | TooLong(max: nat) | Below(limit: int) | NotAllowed | Invalid(msg: string)

  datatype FieldError = FieldError(field: string, kind: ErrorKind)

  /** A field's outcome: its value, or the one error it produced. */
  function ErrorsOf<T>(field: string, r: Result<T, ErrorKind>): (es: seq<FieldError>)
    ensures r.Ok? <==> es == []
    ensures r.Err? ==> es == [FieldError(field, r.error)]
  {
    if r.Ok? then [] else [FieldError(field, r.error)]
  }

  const QueryMaxLength := 10000
  const QueryBlankMsg := "Query cannot be empty or only whitespace"
  const SessionIdMsg := "session_id must be a valid UUID format"
  const NameMaxLength := 200

  // ---------------------------------------------------------------------------
  // QueryRequest

  /** The `query` field: 1 to 10000 characters as sent, not only whitespace;
      kept stripped. */
  function ValidateQuery(query: Option<string>): (r: Result<string, ErrorKind>)
    ensures query.None? ==> r == Err(Missing)
    ensures query.Some? && query.value == "" ==> r == Err(TooShort(1))
    ensures query.Some? && |query.value| > QueryMaxLength ==> r == Err(TooLong(QueryMaxLength))
    ensures query.Some? && 0 < |query.value| <= QueryMaxLength ==>
              (r.Ok? <==> !AllSpace(query.value))
              && (r.Ok? ==> r.value == Strip(query.value))
              && (r.Err? ==> r.error == Invalid(QueryBlankMsg))
    ensures r.Ok? ==> r.value != "" && NoEdgeSpace(r.value) && |r.value| <= QueryMaxLength
  {
    match query
    case None => Err(Missing)
    case Some(q) =>
      if |q| < 1 then Err(TooShort(1))
      else if |q| > QueryMaxLength then Err(TooLong(QueryMaxLength))
      else
        var v := Strip(q);
        StripEmptyIff(q);
        if v == "" then Err(Invalid(QueryBlankMsg)) else Ok(v)
  }

  /** An accepted query is accepted again unchanged. */
  lemma ValidateQueryIdempotent(query: Option<string>)
    requires ValidateQuery(query).Ok?
    ensures ValidateQuery(Some(ValidateQuery(query).value)) == ValidateQuery(query)
  {
    var v := ValidateQuery(query).value;
    StripIdempotent(query.value);
    StripEmptyIff(v);
  }

  /** The `voice_mode` value as sent. */
  datatype VoiceInput = VoiceAbsent | VoiceBool(b: bool) | VoiceText(s: string) | VoiceOther(truthy: bool)

  /** `parse_voice_mode`, with the default of false when the field is absent. */
  function ParseVoiceMode(v: VoiceInput): (b: bool)
    ensures v.VoiceAbsent? ==> !b
    ensures v.VoiceBool? ==> b == v.b
    ensures v.VoiceText? ==> (b <==> Lower(v.s) in {"true", "1", "yes", "on"})
    ensures v.VoiceOther? ==> b == v.truthy
  {
    match v
    case VoiceAbsent => false
    case VoiceBool(x) => x
    case VoiceText(s) => Lower(s) in {"true", "1", "yes", "on"}
    case VoiceOther(t) => t
  }

  /** Voice text is read without regard to letter case: upper-casing the
      text never changes the decision. */
  lemma VoiceIgnoresCase(s: string)
    ensures ParseVoiceMode(VoiceText(Upper(s))) == ParseVoiceMode(VoiceText(s))
  {
    LowerOfUpper(s);
  }

  /** `validate_session_id` of `QueryRequest`: an absent or blank id is kept
      as it is; any other must parse as a UUID and is kept stripped. */
  function ValidateOptionalSessionId(v: Option<string>, isUuid: string -> bool): (r: Result<Option<string>, ErrorKind>)
    ensures v.None? ==> r == Ok(None)
    ensures v.Some? && AllSpace(v.value) ==> r == Ok(v)
    ensures v.Some? && !AllSpace(v.value) ==>
              (r.Ok? <==> isUuid(v.value))
              && (r.Ok? ==> r.value == Some(Strip(v.value)) && Strip(v.value) != "")
              && (r.Err? ==> r.error == Invalid(SessionIdMsg))
  {
    match v
    case None => Ok(None)
    case Some(s) =>
      StripEmptyIff(s);
      if Strip(s) == "" then Ok(v)
      else if !isUuid(s) then Err(Invalid(SessionIdMsg))
      else Ok(Some(Strip(s)))
  }

  datatype QueryRequest = QueryRequest(query: string, voiceMode: bool, sessionId: Option<string>)

  /** `QueryRequest(...)`: the request, or the errors of every failing field
      in field order (query, then session_id; voice_mode never fails). */
  function ValidateQueryRequest(query: Option<string>, voice: VoiceInput, sessionId: Option<string>, isUuid: string -> bool)
    : (r: Result<QueryRequest, seq<FieldError>>)
    ensures r.Ok? <==> ValidateQuery(query).Ok? && ValidateOptionalSessionId(sessionId, isUuid).Ok?
    ensures r.Ok? ==> r.value == QueryRequest(ValidateQuery(query).value, ParseVoiceMode(voice),
                                              ValidateOptionalSessionId(sessionId, isUuid).value)
    ensures r.Err? ==> r.error == ErrorsOf("query", ValidateQuery(query))
                                  + ErrorsOf("session_id", ValidateOptionalSessionId(sessionId, isUuid))
    ensures r.Err? ==> 1 <= |r.error| <= 2
  {
    var q := ValidateQuery(query);
    var sid := ValidateOptionalSessionId(sessionId, isUuid);
    if q.Ok? && sid.Ok? then Ok(QueryRequest(q.value, ParseVoiceMode(voice), sid.value))
    else Err(ErrorsOf("query", q) + ErrorsOf("session_id", sid))
  }

  /** A blank session id is not turned into "no session id": it reaches the
      request as it was sent. */
  lemma BlankSessionIdKept(query: string, isUuid: string -> bool)
    requires ValidateQuery(Some(query)).Ok?
    ensures ValidateQueryRequest(Some(query), VoiceAbsent, Some("  "), isUuid).Ok?
    ensures ValidateQueryRequest(Some(query), VoiceAbsent, Some("  "), isUuid).value.sessionId == Some("  ")
  {
    assert IsSpace("  "[0]) && IsSpace("  "[1]);
  }

  // ---------------------------------------------------------------------------
  // CreateSessionRequest

  /** `name_not_empty` with the 200-character bound: the bound applies to the
      name as sent; a blank name becomes no name; any other is kept stripped. */
  function NormalizeName(v: Option<string>): (r: Result<Option<string>, ErrorKind>)
    ensures v.None? ==> r == Ok(None)
    ensures v.Some? && |v.value| > NameMaxLength ==> r == Err(TooLong(NameMaxLength))
    ensures v.Some? && |v.value| <= NameMaxLength ==>
              r.Ok? && (r.value.None? <==> AllSpace(v.value))
              && (r.value.Some? ==> r.value.value == Strip(v.value))
    ensures r.Ok? && r.value.Some? ==> r.value.value != "" && NoEdgeSpace(r.value.value) && |r.value.value| <= NameMaxLength
  {
    match v
    case None => Ok(None)
    case Some(s) =>
      if |s| > NameMaxLength then Err(TooLong(NameMaxLength))
      else
        StripEmptyIff(s);
        var t := Strip(s);
        if t == "" then Ok(None) else Ok(Some(t))
  }

  /** A normalised name normalises to itself. */
  lemma NormalizeNameIdempotent(v: Option<string>)
    requires NormalizeName(v).Ok?
    ensures NormalizeName(NormalizeName(v).value) == NormalizeName(v)
  {
    if NormalizeName(v).value.Some? {
      var t := NormalizeName(v).value.value;
      StripIdempotent(v.value);
      StripEmptyIff(t);
    }
  }

  datatype CreateSessionRequest = CreateSessionRequest(name: Option<string>)

  function ValidateCreateSessionRequest(name: Option<string>): (r: Result<CreateSessionRequest, seq<FieldError>>)
    ensures r.Ok? <==> NormalizeName(name).Ok?
    ensures r.Ok? ==> r.value.name == NormalizeName(name).value
    ensures r.Err? ==> r.error == [FieldError("name", TooLong(NameMaxLength))]
  {
    match NormalizeName(name)
    case Ok(n) => Ok(CreateSessionRequest(n))
    case Err(e) => Err([FieldError("name", e)])
  }
}
