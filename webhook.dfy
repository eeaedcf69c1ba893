/** The `/webhook` turn of src/index.ts: one platform request in, exactly one platform
    response out, decided by a first-match-wins chain (user, command, token, task outcome).
    The to-do API call is not performed here: its outcome is a parameter, and the turn
    records the call the handler means to make (`AddTaskCall`). As written, the source
    sends `AddTaskCallAsWritten` instead; the two are compared below. */
module Webhook {
  import opened Optional
  import opened Text
  import opened Alice

  const UnknownUserText := "Не удалось определить пользователя. Попробуйте позже."
  const AskCommandText := "Что добавить в Todoist?"
  const RetryLaterText := "Произошла ошибка при добавлении задачи. Попробуйте ещё раз позже."
  const TaskAddedPrefix := "Задача «"
  const TaskAddedSuffix := "» добавлена в Todoist."

  /** The confirmation naming the created task. */
  function TaskAddedText(taskName: string): (text: string)
    ensures |text| == |TaskAddedPrefix| + |taskName| + |TaskAddedSuffix|
    ensures text[|TaskAddedPrefix|..|TaskAddedPrefix| + |taskName|] == taskName
  {
    TaskAddedPrefix + taskName + TaskAddedSuffix
  }

  /** How the task-creation call ended: the created task's content, a failed HTTP
      status from the to-do API, or any other failure (network, parsing). */
  datatype TaskOutcome =
    | Created(taskName: string)
    | ApiError(status: int)
    | OtherError

  /** `isTodoistUnauthorized`: an API error whose status is 401. */
  predicate IsUnauthorized(o: TaskOutcome) {
    o.ApiError? && o.status == 401
  }

  /** Only an HTTP 401 from the API counts as an expired credential: a created task, any
      other status and a failure without a status do not. */
  lemma UnauthorizedIsOnly401(o: TaskOutcome)
    ensures IsUnauthorized(o) <==> o == ApiError(401)
  {
  }

  /** The arguments of a to-do API call: the credential sent as
      `Authorization: Bearer ...` and the JSON body's `content` (None: absent). */
  datatype TaskCall = TaskCall(bearer: string, content: Option<string>)

  /** What one `/webhook` request produces: a 400 for an unparseable body, or a JSON
      platform response together with the intended task call (`AddTaskCall`), if the
      chain reaches it. */
  datatype Turn =
    | InvalidJson
    | Replied(response: AliceResponse, call: Option<TaskCall>)

  /** `session.user?.user_id ?? session.user_id`: the nested id wins whenever it is
      present, even when it is empty. */
  function ResolveUserId(req: AliceRequest): (r: Option<string>)
    ensures req.session.user.Some? && req.session.user.value.userId.Some? ==> r == req.session.user.value.userId
    ensures (req.session.user.None? || req.session.user.value.userId.None?) ==> r == req.session.userId
  {
    match req.session.user
    case Some(UserInfo(Some(id), _)) => Some(id)
    case _ => req.session.userId
  }

  /** `(original_utterance || command || "").trim()`. */
  function CommandText(u: Utterance): (r: string)
    ensures var said := if u.originalUtterance != "" then u.originalUtterance else u.command;
      (exists a :: IsTrimAt(said, a, r)) && (r == "" <==> AllSpace(said))
    ensures r != "" ==> !IsSpace(r[0]) && !IsSpace(r[|r| - 1])
  {
    Trim(if u.originalUtterance != "" then u.originalUtterance else u.command)
  }

  /** The header value `h` matches `/^Bearer\s+(\S+)$/i` with `t` as the captured token. */
  ghost predicate IsBearerHeader(h: string, t: string) {
    && |t| > 0
    && NoSpace(t)
    && |h| > 6 + |t|
    && EqualsIgnoreAsciiCase(h[..6], "Bearer")
    && AllSpace(h[6..|h| - |t|])
    && h[|h| - |t|..] == t
  }

  /** The bearer-token match of `extractAccessToken` (the Bearer form of section 2.1 of
      RFC 6750, scheme compared without regard to case): the token when the header has
      that form, nothing otherwise. */
  function ParseBearer(h: string): (r: Option<string>)
    ensures r.Some? ==> IsBearerHeader(h, r.value)
    ensures forall t {:trigger IsBearerHeader(h, t)} :: IsBearerHeader(h, t) ==> r == Some(t)
  {
    assert forall t {:trigger IsBearerHeader(h, t)} :: IsBearerHeader(h, t) ==>
      LeadingSpaceCount(h[6..]) == |h| - 6 - |t| by {
      forall t | IsBearerHeader(h, t) {
        BearerSpacesAreGreedy(h, t);
      }
    }
    if |h| < 6 || !EqualsIgnoreAsciiCase(h[..6], "Bearer") then None
    else
      var rest := h[6..];
      var n := LeadingSpaceCount(rest);
      if n == 0 || n == |rest| || !NoSpace(rest[n..]) then None
      else
        assert h[|h| - |rest[n..]|..] == rest[n..];
        assert h[6..|h| - |rest[n..]|] == rest[..n];
        Some(rest[n..])
  }

  /** `\s+` followed by `\S` takes exactly the whitespace between scheme and token. */
  lemma BearerSpacesAreGreedy(h: string, t: string)
    requires IsBearerHeader(h, t)
    ensures LeadingSpaceCount(h[6..]) == |h| - 6 - |t|
  {
    var rest := h[6..];
    var m := |h| - 6 - |t|;
    var n := LeadingSpaceCount(rest);
    assert rest[..m] == h[6..|h| - |t|];
    assert rest[m] == t[0];
  }

  /** The token `extractAccessToken` returns when the header does not match. */
  function PlatformToken(req: AliceRequest): (r: Option<string>)
    ensures req.session.user.None? ==> r.None?
    ensures req.session.user.Some? ==> r == req.session.user.value.accessToken
  {
    match req.session.user
    case Some(u) => u.accessToken
    case None => None
  }

  /** `extractAccessToken`: a well-formed bearer header wins; otherwise the platform's
      `session.user.access_token`, or nothing. */
  function ExtractAccessToken(authorization: Option<string>, req: AliceRequest): (r: Option<string>)
    ensures forall t {:trigger IsBearerHeader(authorization.value, t)} ::
      authorization.Some? && IsBearerHeader(authorization.value, t) ==> r == Some(t)
    ensures (authorization.None? || ParseBearer(authorization.value).None?) ==> r == PlatformToken(req)
  {
    if authorization.Some? && authorization.value != "" && ParseBearer(authorization.value).Some?
    then ParseBearer(authorization.value)
    else PlatformToken(req)
  }

  /** The session block both builders copy from the request: `session.user_id` as sent,
      not the resolved user id. */
  function EchoSession(req: AliceRequest): ResponseSession {
    ResponseSession(req.session.sessionId, req.session.messageId, req.session.userId)
  }

  /** `buildSpeechResponse`. */
  function BuildSpeechResponse(req: AliceRequest, text: string, endSession: bool): (r: AliceResponse)
    ensures r.version == req.version
    ensures r.session.sessionId == req.session.sessionId && r.session.messageId == req.session.messageId
    ensures r.session.userId == req.session.userId
    ensures r.body == Speech(text, endSession)
  {
    AliceResponse(req.version, EchoSession(req), Speech(text, endSession))
  }

  /** `buildStartAccountLinkingResponse`. */
  function BuildStartAccountLinkingResponse(req: AliceRequest): (r: AliceResponse)
    ensures r.version == req.version
    ensures r.session.sessionId == req.session.sessionId && r.session.messageId == req.session.messageId
    ensures r.session.userId == req.session.userId
    ensures r.body.StartAccountLinking?
  {
    AliceResponse(req.version, EchoSession(req), StartAccountLinking)
  }

  /** The task call the handler means to make: the extracted token as credential and
      the command text as the task content. */
  function AddTaskCall(token: string, commandText: string): (c: TaskCall)
    ensures c.bearer == token && c.content == Some(commandText)
  {
    TaskCall(token, Some(commandText))
  }

  /** The task call as the source makes it: `addTask(token, commandText)` against the
      declaration `addTask(env, accessToken, content)`, so the token lands in `env`, the
      command text is sent as the credential and `content` is undefined (dropped from
      the JSON body). */
  function AddTaskCallAsWritten(token: string, commandText: string): (c: TaskCall)
    ensures c.bearer == commandText && c.content.None?
  {
    TaskCall(commandText, None)
  }

  /** The positional mismatch changes the call for every turn that reaches it: the
      credential is the command text instead of the token, and the content is lost. */
  lemma AsWrittenCallDiffers(token: string, commandText: string)
    ensures AddTaskCallAsWritten(token, commandText) != AddTaskCall(token, commandText)
    ensures token != commandText ==> AddTaskCallAsWritten(token, commandText).bearer != token
  {
  }

  predicate HasUser(req: AliceRequest) {
    Truthy(ResolveUserId(req))
  }

  predicate HasCommand(req: AliceRequest) {
    CommandText(req.request) != ""
  }

  predicate HasToken(authorization: Option<string>, req: AliceRequest) {
    Truthy(ExtractAccessToken(authorization, req))
  }

  /** The `/webhook` handler. `body` is None when the request body is not JSON. */
  function HandleWebhook(body: Option<AliceRequest>, authorization: Option<string>, outcome: TaskOutcome): (t: Turn)
    ensures body.None? <==> t.InvalidJson?
    ensures t.Replied? ==> t.response.version == body.value.version && t.response.session == EchoSession(body.value)
    // the to-do API is called exactly when user, command and token are all present
    ensures t.Replied? ==>
      (t.call.Some? <==> HasUser(body.value) && HasCommand(body.value) && HasToken(authorization, body.value))
    ensures t.Replied? && t.call.Some? ==>
      t.call.value == AddTaskCall(ExtractAccessToken(authorization, body.value).value, CommandText(body.value.request))
    // linking is asked for exactly when a user with a command has no token or the API said 401
    ensures t.Replied? ==>
      (t.response.body.StartAccountLinking? <==>
        HasUser(body.value) && HasCommand(body.value) && (!HasToken(authorization, body.value) || IsUnauthorized(outcome)))
    // the session ends exactly when there is no user or the task was created
    ensures t.Replied? && t.response.body.Speech? ==>
      (t.response.body.endSession <==>
        !HasUser(body.value) || (HasCommand(body.value) && HasToken(authorization, body.value) && outcome.Created?))
  {
    match body
    case None => InvalidJson
    case Some(req) =>
      if !HasUser(req) then
        Replied(BuildSpeechResponse(req, UnknownUserText, true), None)
      else
        var commandText := CommandText(req.request);
        if commandText == "" then
          Replied(BuildSpeechResponse(req, AskCommandText, false), None)
        else
          var token := ExtractAccessToken(authorization, req);
          if !Truthy(token) then
            Replied(BuildStartAccountLinkingResponse(req), None)
          else
            var call := Some(AddTaskCall(token.value, commandText));
            match outcome
            case Created(taskName) =>
              Replied(BuildSpeechResponse(req, TaskAddedText(taskName), true), call)
            case _ =>
              if IsUnauthorized(outcome) then Replied(BuildStartAccountLinkingResponse(req), call)
              else Replied(BuildSpeechResponse(req, RetryLaterText, false), call)
  }

  /** Without a resolvable user the turn apologises and ends the session, never offers
      linking, and neither the header, the platform token nor the task outcome matter. */
  lemma MissingUserEndsSession(req: AliceRequest, authorization: Option<string>, outcome: TaskOutcome,
                               authorization': Option<string>, outcome': TaskOutcome)
    requires !HasUser(req)
    ensures HandleWebhook(Some(req), authorization, outcome) == Replied(BuildSpeechResponse(req, UnknownUserText, true), None)
    ensures HandleWebhook(Some(req), authorization, outcome) == HandleWebhook(Some(req), authorization', outcome')
  {
  }

  /** An empty nested `user_id` hides a non-empty `session.user_id`: `??` only falls back
      on a missing value. */
  lemma EmptyNestedUserIdWins(req: AliceRequest)
    requires req.session.user.Some? && req.session.user.value.userId == Some("")
    ensures !HasUser(req)
  {
  }

  /** With a user but an empty trimmed command the turn prompts and keeps the session open,
      with no task call whatever the token and outcome. */
  lemma EmptyCommandPrompts(req: AliceRequest, authorization: Option<string>, outcome: TaskOutcome)
    requires HasUser(req) && !HasCommand(req)
    ensures HandleWebhook(Some(req), authorization, outcome) == Replied(BuildSpeechResponse(req, AskCommandText, false), None)
  {
  }

  /** A whitespace-only `original_utterance` is truthy, so `command` is not consulted and
      the command text is empty. */
  lemma BlankUtteranceShadowsCommand(u: Utterance)
    requires u.originalUtterance != "" && AllSpace(u.originalUtterance)
    ensures CommandText(u) == ""
  {
  }

  /** With user and command but no usable token, linking starts and no task call is made. */
  lemma NoTokenStartsLinking(req: AliceRequest, authorization: Option<string>, outcome: TaskOutcome)
    requires HasUser(req) && HasCommand(req) && !HasToken(authorization, req)
    ensures HandleWebhook(Some(req), authorization, outcome) == Replied(BuildStartAccountLinkingResponse(req), None)
  {
  }

  /** The three task outcomes: created ends the session naming the task, 401 starts
      linking, anything else asks to retry later with the session open. */
  lemma TaskOutcomeDecides(req: AliceRequest, authorization: Option<string>, outcome: TaskOutcome)
    requires HasUser(req) && HasCommand(req) && HasToken(authorization, req)
    ensures var t := HandleWebhook(Some(req), authorization, outcome);
      && t.Replied?
      && t.call == Some(AddTaskCall(ExtractAccessToken(authorization, req).value, CommandText(req.request)))
      && (outcome.Created? ==> t.response.body == Speech(TaskAddedText(outcome.taskName), true))
      && (IsUnauthorized(outcome) ==> t.response.body.StartAccountLinking?)
      && (!outcome.Created? && !IsUnauthorized(outcome) ==> t.response.body == Speech(RetryLaterText, false))
  {
  }

  /** A header `Bearer <t>` yields `t` for every non-empty, whitespace-free `t`. */
  lemma {:induction false} BearerRoundTrip(t: string)
    requires |t| > 0 && NoSpace(t)
    ensures ParseBearer("Bearer " + t) == Some(t)
  {
    var h := "Bearer " + t;
    assert h[..6] == "Bearer";
    assert h[6..|h| - |t|] == " ";
    assert h[|h| - |t|..] == t;
    assert IsBearerHeader(h, t);
  }

  /** The scheme is matched without regard to case, and any non-empty run of whitespace
      may follow it: every spelling of `Bearer`, every run, every token. */
  lemma BearerSchemeIgnoresCase(scheme: string, spaces: string, t: string)
    requires |scheme| == 6 && EqualsIgnoreAsciiCase(scheme, "Bearer")
    requires spaces != "" && AllSpace(spaces)
    requires t != "" && NoSpace(t)
    ensures ParseBearer(scheme + spaces + t) == Some(t)
  {
    var h := scheme + spaces + t;
    assert h[..6] == scheme;
    assert h[6..|h| - |t|] == spaces;
    assert h[|h| - |t|..] == t;
    assert IsBearerHeader(h, t);
  }

  /** Whatever the scheme word, a header whose text after the whitespace run still holds
      whitespace is refused: `\S+` must reach the end. */
  lemma BearerRejectsInnerSpace(scheme: string, spaces: string, rest: string)
    requires |scheme| == 6 && AllSpace(spaces)
    requires rest != "" && !IsSpace(rest[0]) && !NoSpace(rest)
    ensures ParseBearer(scheme + spaces + rest) == None
  {
    var h := scheme + spaces + rest;
    var tail := h[6..];
    assert tail == spaces + rest;
    if spaces != "" {
      LeadingSpacesThenNonSpace(spaces, rest);
      assert tail[|spaces|..] == rest;
    }
  }

  lemma {:induction false} LeadingSpacesThenNonSpace(spaces: string, rest: string)
    requires AllSpace(spaces) && rest != "" && !IsSpace(rest[0])
    ensures LeadingSpaceCount(spaces + rest) == |spaces|
  {
    if spaces != [] {
      assert (spaces + rest)[1..] == spaces[1..] + rest;
      LeadingSpacesThenNonSpace(spaces[1..], rest);
    } else {
      assert spaces + rest == rest;
    }
  }

  /** A header that ends after the scheme and whitespace, with no token, is refused. */
  lemma BearerRejectsMissingToken(h: string)
    requires |h| < 6 || AllSpace(h[6..])
    ensures ParseBearer(h) == None
  {
  }

  /** A header whose first six characters are not `Bearer` in any case is refused, and
      `extractAccessToken` falls back to the platform token. */
  lemma NonBearerFallsBack(h: string, req: AliceRequest)
    requires |h| < 6 || !EqualsIgnoreAsciiCase(h[..6], "Bearer")
    ensures ParseBearer(h) == None
    ensures ExtractAccessToken(Some(h), req) == PlatformToken(req)
  {
  }
}
