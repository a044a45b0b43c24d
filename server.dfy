/** The decision logic of the HTTP front: bearer-token parsing and the
    authentication gate, validation-error formatting, the registration checks,
    the query endpoint's guardrail, intent shortcut and reply handling, the
    display of stored messages and the speech text cap. */
module Server {
  import opened Common
  import opened Text
  import opened DocUtils
  import opened Guardrail
  import opened Workflow
  import opened Orchestrator

  /** An error response: its text, its code and its HTTP status. */
  datatype ErrorInfo = ErrorInfo(error: string, code: string, status: int)

  datatype User = User(id: int, username: string)

  // ---------------------------------------------------------------------------
  // Authentication

  /** The `Authorization` header, "" when absent. */
  function HeaderText(header: Option<string>): string {
    if header.Some? then header.value else ""
  }

  /** `auth.split(" ", 1)[1]`: the text after the first space. */
  function AfterFirstSpace(s: string): (r: string)
    ensures IndexOf(s, " ").Some? ==> r == s[IndexOf(s, " ").value + 1..]
  {
    match IndexOf(s, " ")
    case Some(k) => s[k + 1..]
    case None => ""
  }

  /** A header whose first seven characters read "bearer " in any letter case
      has its first space at position 6. */
  lemma BearerSpace(auth: string)
    requires StartsWith(Lower(auth), "bearer ")
    ensures IndexOf(auth, " ") == Some(6)
  {
    var l := Lower(auth);
    forall j | 0 <= j < 7
      ensures LowerChar(auth[j]) == "bearer "[j]
    {
      assert l[j] == l[..7][j];
    }
    assert auth[6] == ' ';
    assert OccursAt(auth, " ", 6);
    forall j | 0 <= j < 6
      ensures !OccursAt(auth, " ", j)
    {
      assert "bearer "[j] != ' ' && LowerChar(' ') == ' ';
      assert auth[j..j + 1][0] == auth[j];
    }
  }

  /** `_get_auth_token`: the stripped text after "bearer ", whatever its
      letter case, and "" for any other header. */
  function AuthToken(header: Option<string>): (t: string)
    ensures !StartsWith(Lower(HeaderText(header)), "bearer ") ==> t == ""
    ensures StartsWith(Lower(HeaderText(header)), "bearer ") ==> t == Strip(HeaderText(header)[7..])
  {
    var auth := HeaderText(header);
    if StartsWith(Lower(auth), "bearer ") then
      BearerSpace(auth);
      Strip(AfterFirstSpace(auth))
    else ""
  }

  /** Any spelling of the scheme carries the token. */
  lemma BearerAnyCase(scheme: string, token: string)
    requires Lower(scheme) == "bearer"
    ensures AuthToken(Some(scheme + " " + token)) == Strip(token)
  {
    var auth := scheme + " " + token;
    assert Lower(auth)[..7] == Lower(scheme) + " ";
    assert auth[7..] == token;
  }

  const Unauthorized := ErrorInfo("unauthorized", "UNAUTHORIZED", 401)

  /** `_require_user` over `_get_authenticated_user`: the user the token
      belongs to, or the 401 error. `lookup` is the token store. */
  function RequireUser(header: Option<string>, lookup: string -> Option<User>): (r: Result<User, ErrorInfo>)
    ensures AuthToken(header) == "" ==> r == Err(Unauthorized)
    ensures AuthToken(header) != "" ==> (r.Ok? <==> lookup(AuthToken(header)).Some?)
    ensures r.Ok? ==> lookup(AuthToken(header)) == Some(r.value)
    ensures r.Err? ==> r.error == Unauthorized
  {
    var token := AuthToken(header);
    if token == "" then Err(Unauthorized)
    else
      match lookup(token)
      case None => Err(Unauthorized)
      case Some(u) => Ok(u)
  }

  /** Without a bearer token the token store is not consulted. */
  lemma NoTokenNoLookup(header: Option<string>, l1: string -> Option<User>, l2: string -> Option<User>)
    requires !StartsWith(Lower(HeaderText(header)), "bearer ")
    ensures RequireUser(header, l1) == RequireUser(header, l2) == Err(Unauthorized)
  {
  }

  // ---------------------------------------------------------------------------
  // Validation errors

  /** One item of an error location: a field name, or a position shown by its
      `str()` text. */
  datatype LocItem = LocName(name: string) | LocIndex(text: string)

  /** One entry of `errors()`: its location and its message, if present. */
  datatype ErrorDetail = ErrorDetail(loc: seq<LocItem>, msg: Option<string>)

  const InvalidData := "Datos invalidos"

  /** The `str()` text of one location item. */
  function ItemText(item: LocItem): string {
    match item
    case LocName(n) => n
    case LocIndex(t) => t
  }

  /** The location items shown: every item except the name `__root__`. */
  function ShownLoc(loc: seq<LocItem>): (r: seq<string>)
    ensures |r| <= |loc|
    ensures LocName("__root__") !in loc ==> |r| == |loc| && forall i :: 0 <= i < |loc| ==> r[i] == ItemText(loc[i])
    ensures |loc| == 1 ==> r == if loc[0] == LocName("__root__") then [] else [ItemText(loc[0])]
  {
    if loc == [] then [] else HeadShown(loc[0]) + ShownLoc(loc[1..])
  }

  /** What one item contributes: nothing for `__root__`, else its text. */
  function HeadShown(item: LocItem): seq<string> {
    if item == LocName("__root__") then [] else [ItemText(item)]
  }

  /** The items shown of two runs of a location are those of each run, in
      order: with the one-item case above, every item other than `__root__`
      is shown, once, at its own place. */
  lemma {:induction false} ShownLocConcat(a: seq<LocItem>, b: seq<LocItem>)
    ensures ShownLoc(a + b) == ShownLoc(a) + ShownLoc(b)
  {
    if a != [] {
      calc {
        ShownLoc(a + b);
        { assert (a + b)[0] == a[0] && (a + b)[1..] == a[1..] + b; }
        HeadShown(a[0]) + ShownLoc(a[1..] + b);
        { ShownLocConcat(a[1..], b); }
        HeadShown(a[0]) + ShownLoc(a[1..]) + ShownLoc(b);
      }
    } else {
      assert a + b == b;
    }
  }

  /** `_format_validation_error`: "loc: msg" for the first error, the message
      alone when no location remains, "Datos invalidos" for no error. */
  function FormatValidationError(details: seq<ErrorDetail>): (r: string)
    ensures details == [] ==> r == InvalidData
    ensures details != [] ==>
              var msg := if details[0].msg.Some? then details[0].msg.value else InvalidData;
              var loc := Join(".", ShownLoc(details[0].loc));
              (loc == "" ==> r == msg) && (loc != "" ==> r == loc + ": " + msg)
  {
    if details == [] then InvalidData
    else
      var first := details[0];
      var loc := Join(".", ShownLoc(first.loc));
      var msg := if first.msg.Some? then first.msg.value else InvalidData;
      if loc != "" then loc + ": " + msg else msg
  }

  /** A root-level error shows its message alone; a field error is prefixed
      by the field name. */
  lemma FormatExamples(msg: string, field: string, rest: seq<ErrorDetail>)
    requires field != "" && field != "__root__"
    ensures FormatValidationError([ErrorDetail([LocName("__root__")], Some(msg))] + rest) == msg
    ensures FormatValidationError([ErrorDetail([LocName(field)], Some(msg))] + rest) == field + ": " + msg
    ensures FormatValidationError([ErrorDetail([LocName(field)], None)] + rest) == field + ": " + InvalidData
  {
    assert ShownLoc([LocName("__root__")]) == [];
    assert ShownLoc([LocName(field)]) == [field];
  }

  // ---------------------------------------------------------------------------
  // Registration

  predicate IsAsciiAlnum(c: char) {
    'A' <= c <= 'Z' || 'a' <= c <= 'z' || '0' <= c <= '9'
  }

  predicate AllAlnum(s: string) {
    forall i :: 0 <= i < |s| ==> IsAsciiAlnum(s[i])
  }

  /** `USERNAME_RE.match(s)` for `^[A-Za-z0-9]+$`: `$` also matches before
      one final newline. */
  function UsernameMatches(s: string): (b: bool)
    ensures b <==> s != [] && (forall i :: 0 <= i < |s| - 1 ==> IsAsciiAlnum(s[i]))
                   && (IsAsciiAlnum(s[|s| - 1]) || (|s| >= 2 && s[|s| - 1] == '\n'))
  {
    (s != [] && AllAlnum(s)) || (|s| >= 2 && s[|s| - 1] == '\n' && AllAlnum(s[..|s| - 1]))
  }

  /** On a stripped name the pattern means exactly: non-empty, ASCII letters
      and digits only. */
  lemma StrippedUsernameMatches(s: string)
    requires NoEdgeSpace(s)
    ensures UsernameMatches(s) <==> s != [] && AllAlnum(s)
  {
    if s != [] {
      assert IsSpace('\n');
    }
  }

  const InvalidUsername := ErrorInfo("Nombre de usuario no válido", "INVALID_USERNAME", 400)
  const PasswordMismatch := ErrorInfo("Las contraseñas no coinciden", "PASSWORD_MISMATCH", 400)
  const UserExists := ErrorInfo("Usuario ya registrado", "USER_EXISTS", 409)

  /** The registration checks in their order: the stripped name's form, then
      the password confirmation, then the name's availability. `taken` is the
      user store. On success the stripped name is the one registered. */
  function RegisterChecks(username: string, password: string, confirm: string, taken: string -> bool)
    : (r: Result<string, ErrorInfo>)
    ensures !UsernameMatches(Strip(username)) ==> r == Err(InvalidUsername)
    ensures UsernameMatches(Strip(username)) && password != confirm ==> r == Err(PasswordMismatch)
    ensures UsernameMatches(Strip(username)) && password == confirm && taken(Strip(username)) ==> r == Err(UserExists)
    ensures r.Ok? <==> UsernameMatches(Strip(username)) && password == confirm && !taken(Strip(username))
    ensures r.Ok? ==> r.value == Strip(username) && r.value != "" && AllAlnum(r.value)
  {
    var name := Strip(username);
    StrippedUsernameMatches(name);
    if !UsernameMatches(name) then Err(InvalidUsername)
    else if password != confirm then Err(PasswordMismatch)
    else if taken(name) then Err(UserExists)
    else Ok(name)
  }

  /** A malformed name is reported before anything else, whatever the
      passwords and the store say. */
  lemma UsernameCheckedFirst(username: string, p1: string, c1: string, t1: string -> bool,
                             p2: string, c2: string, t2: string -> bool)
    requires !UsernameMatches(Strip(username))
    ensures RegisterChecks(username, p1, c1, t1) == RegisterChecks(username, p2, c2, t2)
  {
  }

  // ---------------------------------------------------------------------------
  // The query endpoint

  datatype Stored = Stored(role: string, content: string)

  /** How a validated query ends: refused by the guardrail, recorded as an
      intent, answered, or failed in processing. `stored` is what is appended
      to the session. */
  datatype QueryOutcome =
    | Rejected(reason: string)
    | IntentRecorded(reply: string, stored: seq<Stored>)
    | Answered(reply: string, stored: seq<Stored>)
    | ProcessingError

  /** The normalised query when it declares an intent. */
  function IntentOf(query: string): (o: Option<string>)
    ensures o.Some? <==> Lower(Strip(query)) in {"financiera", "legal"}
    ensures o.Some? ==> o.value == Lower(Strip(query))
  {
    var q := Lower(Strip(query));
    if q in {"financiera", "legal"} then Some(q) else None
  }

  function IntentConfirmation(intent: string): string {
    "Intento registrado: '" + intent + "'. Ahora puedes enviar tu consulta o adjuntar archivos."
  }

  /** The query endpoint after validation and authentication. `isFirst` says
      the session holds no message yet, `classify` is the guardrail's model
      and `respond` the orchestrator, with the saved files and the stored
      history fixed (`None` when it raised). */
  function HandleQuery(query: string, isFirst: bool, filenames: seq<string>, classify: Classifier,
                       respond: string -> Option<string>): (o: QueryOutcome)
    ensures o.Rejected? ==> isFirst && !Validate(Some(query), filenames, classify).valid && o.reason == RejectReason
    ensures o.IntentRecorded? ==>
              isFirst && IntentOf(query).Some?
              && o.reply == IntentConfirmation(IntentOf(query).value)
              && o.stored == [Stored("user", query), Stored("system", "intent:" + IntentOf(query).value)]
    ensures o.Answered? ==>
              respond(query).Some?
              && o.stored == [Stored("user", query), Stored("assistant", respond(query).value)]
              && o.reply == StripHiddenDocTags(respond(query).value)
    ensures o.ProcessingError? <==> (!o.Rejected? && !o.IntentRecorded? && respond(query).None?)
    ensures !isFirst ==> !o.Rejected? && !o.IntentRecorded?
    ensures isFirst && !Validate(Some(query), filenames, classify).valid ==> o.Rejected?
    ensures isFirst && Validate(Some(query), filenames, classify).valid && IntentOf(query).Some? ==> o.IntentRecorded?
    ensures ((!isFirst || (Validate(Some(query), filenames, classify).valid && IntentOf(query).None?))
             && respond(query).Some?) ==> o.Answered?
  {
    var verdict := Validate(Some(query), filenames, classify);
    if isFirst && !verdict.valid then
      Rejected(if verdict.reason.Some? && verdict.reason.value != "" then verdict.reason.value else "Query rejected by guardrail")
    else if isFirst && IntentOf(query).Some? then
      var q := IntentOf(query).value;
      IntentRecorded(IntentConfirmation(q), [Stored("user", query), Stored("system", "intent:" + q)])
    else
      match respond(query)
      case None => ProcessingError
      case Some(withTags) =>
        Answered(StripHiddenDocTags(withTags), [Stored("user", query), Stored("assistant", withTags)])
  }

  /** After the first message the guardrail's model is not consulted. */
  lemma GuardrailOnlyOnFirstMessage(query: string, filenames: seq<string>, c1: Classifier, c2: Classifier,
                                    respond: string -> Option<string>)
    ensures HandleQuery(query, false, filenames, c1, respond) == HandleQuery(query, false, filenames, c2, respond)
  {
  }

  /** On a first message with files attached nothing is refused. */
  lemma FilesNeverRejected(query: string, filenames: seq<string>, classify: Classifier, respond: string -> Option<string>)
    requires filenames != []
    ensures !HandleQuery(query, true, filenames, classify, respond).Rejected?
  {
  }

  /** The user is shown the orchestrator's answer without its document
      memory, while the stored reply keeps the memory for the next turn. */
  lemma ReplyHidesMemory(a: Assistant, m: Model, x: Extractors, paths: seq<string>, h: seq<HistoryEntry>,
                         query: string, filenames: seq<string>, classify: Classifier)
    requires var r := RunSpec(a, m, x, InitialState(query, paths, h));
             !Contains(FinalAnswer(r), HistTagStart) && !Contains(CarriedDoc(r), HistTagEnd)
    ensures var r := RunSpec(a, m, x, InitialState(query, paths, h));
            var respond := (q: string) => Some(RespondSpec(a, m, x, q, paths, h));
            HandleQuery(query, false, filenames, classify, respond)
              == Answered(FinalAnswer(r), [Stored("user", query), Stored("assistant", RespondSpec(a, m, x, query, paths, h))])
  {
    var r := RunSpec(a, m, x, InitialState(query, paths, h));
    MemoryRoundTrip(FinalAnswer(r), CarriedDoc(r));
  }

  // ---------------------------------------------------------------------------
  // Displaying stored messages

  /** A stored message row: its `role` and `content` keys, if present. */
  datatype Row = Row(role: Option<string>, content: Option<string>)

  datatype MessageInfo = MessageInfo(role: string, content: string)

  /** The displayed form of one row: assistant contents lose their memory,
      other contents are shown as stored; a missing role shows as "user". */
  function Display(row: Row): (mi: MessageInfo)
    ensures row.role == Some("assistant") ==> mi.content == StripHiddenDocTags(if row.content.Some? then row.content.value else "")
    ensures row.role != Some("assistant") ==> mi.content == (if row.content.Some? then row.content.value else "")
    ensures mi.role == (if row.role.Some? then row.role.value else "user")
  {
    var content := if row.content.Some? then row.content.value else "";
    MessageInfo(if row.role.Some? then row.role.value else "user",
                if row.role == Some("assistant") then StripHiddenDocTags(content) else content)
  }

  /** The message list of a session, built row by row. */
  method DisplayMessages(rows: seq<Row>) returns (shown: seq<MessageInfo>)
    ensures |shown| == |rows|
    ensures forall i :: 0 <= i < |rows| ==> shown[i] == Display(rows[i])
  {
    shown := [];
    for i := 0 to |rows|
      invariant |shown| == i
      invariant forall j :: 0 <= j < i ==> shown[j] == Display(rows[j])
    {
      shown := shown + [Display(rows[i])];
    }
  }

  /** Reloading an answered exchange shows the query as sent and the same
      reply the query endpoint returned. */
  lemma DisplayMatchesReply(query: string, isFirst: bool, filenames: seq<string>, classify: Classifier,
                            respond: string -> Option<string>)
    requires HandleQuery(query, isFirst, filenames, classify, respond).Answered?
    ensures var o := HandleQuery(query, isFirst, filenames, classify, respond);
            Display(Row(Some(o.stored[0].role), Some(o.stored[0].content))).content == query
            && Display(Row(Some(o.stored[1].role), Some(o.stored[1].content))).content == o.reply
  {
  }

  // ---------------------------------------------------------------------------
  // Speech

  const TtsMaxChars := 4000

  /** The text sent to speech synthesis: stripped, refused when empty, cut to
      its first 4000 characters. */
  function TtsText(text: Option<string>): (r: Result<string, string>)
    ensures var t := Strip(if text.Some? then text.value else "");
            (r.Err? <==> t == "")
            && (r.Err? ==> r.error == "text required")
            && (r.Ok? ==> 0 < |r.value| <= TtsMaxChars && |r.value| <= |t| && r.value == t[..|r.value|])
            && (r.Ok? && |t| <= TtsMaxChars ==> r.value == t)
            && (|t| > TtsMaxChars ==> r.Ok? && |r.value| == TtsMaxChars)
  {
    var t := Strip(if text.Some? then text.value else "");
    if t == "" then Err("text required")
    else if |t| > TtsMaxChars then Ok(t[..TtsMaxChars])
    else Ok(t)
  }
}
