/** The stored entities: messages, sessions and uploaded-document records,
    with the constraints their fields are validated against. Timestamps are
    not part of this model. */
module Domain {
  import opened Common
  import opened Text
  import opened Requests

  const ContentBlankMsg := "Message content cannot be empty"

  /** A required session id: it must parse as a UUID and is kept exactly as
      sent. */
  function ValidateSessionId(v: Option<string>, isUuid: string -> bool): (r: Result<string, ErrorKind>)
    ensures v.None? ==> r == Err(Missing)
    ensures v.Some? ==> (r.Ok? <==> isUuid(v.value))
    ensures r.Ok? ==> r.value == v.value
    ensures v.Some? && r.Err? ==> r.error == Invalid(SessionIdMsg)
  {
    match v
    case None => Err(Missing)
    case Some(s) => if isUuid(s) then Ok(s) else Err(Invalid(SessionIdMsg))
  }

  /** A required field with no further constraint. */
  function Required(v: Option<string>): (r: Result<string, ErrorKind>)
    ensures r.Ok? <==> v.Some?
    ensures r.Ok? ==> r.value == v.value
    ensures r.Err? ==> r.error == Missing
  {
    if v.Some? then Ok(v.value) else Err(Missing)
  }

  /** An optional count with a lower bound of 0: `None` passes as it is. */
  function ValidateNonNegative(v: Option<int>): (r: Result<Option<int>, ErrorKind>)
    ensures r.Ok? <==> v.None? || v.value >= 0
    ensures r.Ok? ==> r.value == v
    ensures r.Err? ==> r.error == Below(0)
  {
    if v.Some? && v.value < 0 then Err(Below(0)) else Ok(v)
  }

  // ---------------------------------------------------------------------------
  // Message

  datatype Role = User | Assistant | SystemRole

  function ValidateRole(v: Option<string>): (r: Result<Role, ErrorKind>)
    ensures v.None? ==> r == Err(Missing)
    ensures v.Some? ==> (r.Ok? <==> v.value in {"user", "assistant", "system"})
    ensures v.Some? && r.Err? ==> r.error == NotAllowed
    ensures r.Ok? && r.value == User ==> v == Some("user")
    ensures r.Ok? && r.value == Assistant ==> v == Some("assistant")
    ensures r.Ok? && r.value == SystemRole ==> v == Some("system")
  {
    match v
    case None => Err(Missing)
    case Some(s) =>
      if s == "user" then Ok(User)
      else if s == "assistant" then Ok(Assistant)
      else if s == "system" then Ok(SystemRole)
      else Err(NotAllowed)
  }

  /** `content_not_empty` with the minimum length of 1: the content must hold
      a non-whitespace character and is kept as sent, unstripped. */
  function ValidateContent(v: Option<string>): (r: Result<string, ErrorKind>)
    ensures v.None? ==> r == Err(Missing)
    ensures v == Some("") ==> r == Err(TooShort(1))
    ensures v.Some? && v.value != "" ==> (r.Ok? <==> !AllSpace(v.value))
    ensures v.Some? && v.value != "" && r.Err? ==> r.error == Invalid(ContentBlankMsg)
    ensures r.Ok? ==> r.value == v.value && Strip(r.value) != ""
  {
    match v
    case None => Err(Missing)
    case Some(s) =>
      StripEmptyIff(s);
      if |s| < 1 then Err(TooShort(1))
      else if Strip(s) == "" then Err(Invalid(ContentBlankMsg))
      else Ok(s)
  }

  datatype Message = Message(id: Option<int>, sessionId: string, role: Role, content: string)

  /** `Message(...)`: the message, or the errors of every failing field in
      field order (session_id, role, content). */
  function ValidateMessage(id: Option<int>, sessionId: Option<string>, role: Option<string>, content: Option<string>,
                           isUuid: string -> bool): (r: Result<Message, seq<FieldError>>)
    ensures r.Ok? <==> ValidateSessionId(sessionId, isUuid).Ok? && ValidateRole(role).Ok? && ValidateContent(content).Ok?
    ensures r.Ok? ==> r.value == Message(id, sessionId.value, ValidateRole(role).value, content.value)
    ensures r.Err? ==> r.error == ErrorsOf("session_id", ValidateSessionId(sessionId, isUuid))
                                  + ErrorsOf("role", ValidateRole(role))
                                  + ErrorsOf("content", ValidateContent(content))
  {
    var sid := ValidateSessionId(sessionId, isUuid);
    var ro := ValidateRole(role);
    var c := ValidateContent(content);
    if sid.Ok? && ro.Ok? && c.Ok? then Ok(Message(id, sid.value, ro.value, c.value))
    else Err(ErrorsOf("session_id", sid) + ErrorsOf("role", ro) + ErrorsOf("content", c))
  }

  // ---------------------------------------------------------------------------
  // Session

  datatype Session = Session(sessionId: string, name: Option<string>, messageCount: Option<int>)

  /** The `message_count` value as sent: absent (defaults to 0), null, or a
      number. */
  datatype CountInput = CountAbsent | CountNull | CountValue(n: int)

  function ValidateMessageCount(c: CountInput): (r: Result<Option<int>, ErrorKind>)
    ensures c.CountAbsent? ==> r == Ok(Some(0))
    ensures c.CountNull? ==> r == Ok(None)
    ensures c.CountValue? ==> (r.Ok? <==> c.n >= 0) && (r.Ok? ==> r.value == Some(c.n))
    ensures r.Err? ==> r.error == Below(0)
    ensures r.Ok? && r.value.Some? ==> r.value.value >= 0
  {
    match c
    case CountAbsent => Ok(Some(0))
    case CountNull => Ok(None)
    case CountValue(n) => ValidateNonNegative(Some(n))
  }

  /** `Session(...)`: the session, or the errors of every failing field in
      field order (session_id, name, message_count). */
  function ValidateSession(sessionId: Option<string>, name: Option<string>, count: CountInput, isUuid: string -> bool)
    : (r: Result<Session, seq<FieldError>>)
    ensures r.Ok? <==> ValidateSessionId(sessionId, isUuid).Ok? && NormalizeName(name).Ok? && ValidateMessageCount(count).Ok?
    ensures r.Ok? ==> r.value == Session(sessionId.value, NormalizeName(name).value, ValidateMessageCount(count).value)
    ensures r.Err? ==> r.error == ErrorsOf("session_id", ValidateSessionId(sessionId, isUuid))
                                  + ErrorsOf("name", NormalizeName(name))
                                  + ErrorsOf("message_count", ValidateMessageCount(count))
  {
    var sid := ValidateSessionId(sessionId, isUuid);
    var n := NormalizeName(name);
    var c := ValidateMessageCount(count);
    if sid.Ok? && n.Ok? && c.Ok? then Ok(Session(sid.value, n.value, c.value))
    else Err(ErrorsOf("session_id", sid) + ErrorsOf("name", n) + ErrorsOf("message_count", c))
  }

  /** A name accepted by a session-creation request is stored unchanged by
      the session entity. */
  lemma CreatedSessionKeepsName(sessionId: string, name: Option<string>, isUuid: string -> bool)
    requires isUuid(sessionId)
    requires ValidateCreateSessionRequest(name).Ok?
    ensures var n := ValidateCreateSessionRequest(name).value.name;
            ValidateSession(Some(sessionId), n, CountAbsent, isUuid) == Ok(Session(sessionId, n, Some(0)))
  {
    NormalizeNameIdempotent(name);
  }

  // ---------------------------------------------------------------------------
  // DocumentMetadata

  datatype DocumentMetadata = DocumentMetadata(fileId: string, sessionId: string, originalFilename: string,
                                               storedPath: string, fileSize: Option<int>, mimeType: Option<string>)

  /** `DocumentMetadata(...)`: the record, or the errors of every failing field
      in field order. */
  function ValidateDocumentMetadata(fileId: Option<string>, sessionId: Option<string>, originalFilename: Option<string>,
                                    storedPath: Option<string>, fileSize: Option<int>, mimeType: Option<string>,
                                    isUuid: string -> bool): (r: Result<DocumentMetadata, seq<FieldError>>)
    ensures r.Ok? <==> fileId.Some? && ValidateSessionId(sessionId, isUuid).Ok? && originalFilename.Some?
                       && storedPath.Some? && (fileSize.None? || fileSize.value >= 0)
    ensures r.Ok? ==> r.value == DocumentMetadata(fileId.value, sessionId.value, originalFilename.value,
                                                  storedPath.value, fileSize, mimeType)
    ensures r.Err? ==> r.error == ErrorsOf("file_id", Required(fileId))
                                  + ErrorsOf("session_id", ValidateSessionId(sessionId, isUuid))
                                  + ErrorsOf("original_filename", Required(originalFilename))
                                  + ErrorsOf("stored_path", Required(storedPath))
                                  + ErrorsOf("file_size", ValidateNonNegative(fileSize))
  {
    var f := Required(fileId);
    var sid := ValidateSessionId(sessionId, isUuid);
    var o := Required(originalFilename);
    var p := Required(storedPath);
    var sz := ValidateNonNegative(fileSize);
    if f.Ok? && sid.Ok? && o.Ok? && p.Ok? && sz.Ok? then
      Ok(DocumentMetadata(f.value, sid.value, o.value, p.value, sz.value, mimeType))
    else
      Err(ErrorsOf("file_id", f) + ErrorsOf("session_id", sid) + ErrorsOf("original_filename", o)
          + ErrorsOf("stored_path", p) + ErrorsOf("file_size", sz))
  }
}
