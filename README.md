# alice-todoist-skill in Dafny

A model of the core of `alice-todoist-skill`. This is a Cloudflare Worker that serves as the webhook of a voice-assistant skill: it turns a spoken command into a task in the Todoist to-do service. The model covers two source files:

- `src/index.ts`:
  - the `/webhook` turn, with its first-match-wins chain: resolve the user, then read the command, then extract a credential, then create the task and map the outcome to a reply;
  - the two response builders;
  - `extractAccessToken`;
  - the log-redaction helpers `sanitizePayload`, `sanitizeHeaders`, `maskSensitiveValue`, `maskToken` and `truncate`, with their sensitive-key sets.
- `src/oauth.ts`:
  - the single-use correlation tokens kept in the key-value namespace: `link:` keys and `todoist:` keys, both with a 600-second TTL, consumed by get-then-delete;
  - the per-user credential bindings under `token:` keys, which have no TTL;
  - the authorize URL;
  - the state-string format.

Modules:

| file | module | what it holds |
|---|---|---|
| `optional.dfy` | `Optional` | `Option`, and JavaScript truthiness of an optional string |
| `text.dfy` | `Text` | ECMAScript whitespace, `trim`, and the lower-casing used for key lookups |
| `alice.dfy` | `Alice` | the platform request and response records the handler reads and writes |
| `webhook.dfy` | `Webhook` | the `/webhook` decision chain, bearer extraction, the builders, the task-call arguments |
| `redaction.dfy` | `Redaction` | `sanitizePayload` over JSON trees, `sanitizeHeaders`, and the string maskers |
| `kv.dfy` | `Kv` | the namespace as a value (`KvState`) and as an object updated in place (`KvNamespace`) |
| `state_payload.dfy` | `StatePayload` | `JSON.stringify` and `JSON.parse` of the `{ userId }` record kept under a `todoist:` key |
| `form_urlencoded.dfy` | `FormUrlencoded` | the `application/x-www-form-urlencoded` serializer of the WHATWG URL Standard |
| `oauth.dfy` | `OAuth` | the store operations, as methods on `KvNamespace` and as functions of the store content |
| `authorize_url.dfy` | `AuthorizeUrl` | `buildTodoistAuthorizeUrl` and the hyphen stripping of `generateState` |

The webhook handler is pure apart from two things, which are parameters of `HandleWebhook`:

- the `Authorization` header;
- the outcome of the to-do API call (task created, HTTP error with a status, or any other failure).

The turn also records the call the handler means to make (`AddTaskCall`). As written, the source sends `AddTaskCallAsWritten` instead: see "## Findings". A body that is not JSON is a separate input form, `None`, and yields the 400 reply.

Each store operation of `src/oauth.ts` is a method on the `KvNamespace` class. Each method's postcondition equates the new store content with a function of the old content. The properties are stated as lemmas about those functions: round trip, single use, key-family separation, TTLs.

Where the code and the tests disagree, the model follows the code. `tests/webhook.test.ts:90-97` expects four things of a missing credential:

- a linking text;
- an `account_linking` directive;
- a button with an authorize URL;
- a stored `link:` state.

The handler does none of these. It returns the `start_account_linking: {}` directive (`src/index.ts:40-43`) and writes nothing to the store. That reply is what `HandleWebhook` states.

## Model

| member | source | states |
|---|---|---|
| Webhook.HandleWebhook | src/index.ts:15-67 | A non-JSON body, and only that, gives the 400 reply. Every reply echoes `version` and the raw session block. The task API is called exactly when user, command and token are all present, with that token and that command text (the intended call, see "## Findings"). Linking is requested exactly when a user with a command has no token or the API answered 401. The session ends exactly when there is no user or the task was created. |
| Webhook.MissingUserEndsSession | src/index.ts:24-30 | Without a resolvable user the reply is the apology with `end_session: true`, no call is made, and the header and task outcome make no difference. |
| Webhook.EmptyNestedUserIdWins | src/index.ts:24 | `??` falls back only on a missing nested `user_id`: an empty nested id hides a non-empty `session.user_id`. |
| Webhook.EmptyCommandPrompts | src/index.ts:32-38 | A user with an empty trimmed command gets the prompt, the session stays open, and no task call is made. |
| Webhook.BlankUtteranceShadowsCommand | src/index.ts:32 | A whitespace-only `original_utterance` is truthy, so `command` is never consulted and the command text is empty. |
| Webhook.NoTokenStartsLinking | src/index.ts:40-43 | With user and command but no usable token, the reply is `start_account_linking` and no task call is made. |
| Webhook.TaskOutcomeDecides | src/index.ts:45-66 | Once the call is made: created ends the session with the confirmation naming the task; 401 starts linking; any other failure asks to retry and keeps the session open. |
| Webhook.TaskAddedText | src/index.ts:49 | The confirmation holds the created task's name between the fixed prefix and suffix. |
| Webhook.ResolveUserId | src/index.ts:24 | `??` semantics: the nested `session.user.user_id` whenever it is present, even empty; otherwise the raw `session.user_id`. |
| Webhook.CommandText | src/index.ts:32 | The result is the ECMAScript trim of `original_utterance` when that is non-empty, and of `command` otherwise: it keeps no whitespace at either end, and is empty exactly when the chosen text is all whitespace. |
| Webhook.PlatformToken | src/index.ts:144 | `session.user?.access_token ?? null`: nothing without a user object, otherwise that object's token. |
| Webhook.UnauthorizedIsOnly401 | src/todoist.ts:47-49 | Only an API error with status 401 is treated as an expired credential. |
| Webhook.ParseBearer | src/index.ts:138-141 | `/^Bearer\s+(\S+)$/i`: the result is a match, and every way the header matches yields that same token. |
| Webhook.BearerRoundTrip | src/index.ts:138-141 | `Bearer <t>` yields `t` for every non-empty, whitespace-free `t`. |
| Webhook.BearerSchemeIgnoresCase | src/index.ts:138 | For every spelling of `Bearer` in any mix of ASCII cases, every non-empty whitespace run and every non-empty whitespace-free token, the header yields the token. |
| Webhook.BearerRejectsInnerSpace | src/index.ts:138 | Whatever the six-character scheme, a header whose text after the whitespace run still holds whitespace is refused. |
| Webhook.BearerRejectsMissingToken | src/index.ts:138 | A header with nothing but whitespace after its first six characters, or shorter than six characters, is refused. |
| Webhook.NonBearerFallsBack | src/index.ts:135-145 | A header whose first six characters are not `Bearer` in any case (or that is shorter) is refused, and `extractAccessToken` returns the platform token. |
| Webhook.ExtractAccessToken | src/index.ts:135-145 | A matching header wins with its token; a missing or non-matching header falls back to `session.user.access_token`. |
| Webhook.BuildSpeechResponse | src/index.ts:98-111 | Copies `version`, `session_id`, `message_id` and the raw `session.user_id`, and carries the given text and `end_session`. |
| Webhook.BuildStartAccountLinkingResponse | src/index.ts:113-125 | The same session echo, with the linking directive. |
| Webhook.AddTaskCall | src/todoist.ts:17-31 | The intended call sends the token as bearer credential and the command text as `content`. |
| Webhook.AddTaskCallAsWritten | src/index.ts:46 | The call as written sends the command text as bearer credential and no `content`. |
| Webhook.AsWrittenCallDiffers | src/index.ts:46 | The call as written differs from the intended one for every input, and the credential differs whenever token and text do. |
| Text.Trim | src/index.ts:32 | The result is `s` without its leading and trailing ECMAScript whitespace. It is empty exactly when `s` is all whitespace, and otherwise starts and ends with non-whitespace. |
| Text.TrimKeepsTrimmed | src/index.ts:259 | A string that neither starts nor ends with whitespace is its own trim. |
| Text.KeyLower | src/index.ts:246 | `toLowerCase` as far as key lookups (here and at src/index.ts:198) see it: the length is kept, each character is lowered on its own, and no upper-case ASCII letter is left. |
| Redaction.SanitizePayload | src/index.ts:238-256 | Arrays are mapped, and objects rebuilt key by key, with every sensitive key replaced by `[REDACTED]`. Scalars are returned unchanged. The result equals `Redacted(payload)`. |
| Redaction.RedactedIsClean | src/index.ts:243-251 | After sanitising, every sensitive member at every depth holds only the marker. |
| Redaction.RedactedKeepsShape | src/index.ts:238-256 | Sanitising keeps array lengths, object keys and their order, and every value outside sensitive members. |
| Redaction.RedactedIsUnique | src/index.ts:238-256 | Any tree that is clean and agrees with the input outside sensitive members is the sanitised tree. |
| Redaction.RedactedIdempotent | src/index.ts:238-256 | Sanitising twice is sanitising once. |
| Redaction.CleanIsFixpoint | src/index.ts:238-256 | A tree that is already clean comes back unchanged. |
| Redaction.SensitiveKeysIgnoreCase | src/index.ts:307-314 | The lookup at src/index.ts:246 lowers the key first, so every spelling of a sensitive body key in any mix of ASCII cases is redacted. Conversely, a redacted key without the Kelvin sign spells one of the sensitive keys. |
| Redaction.SensitiveHeaderKeysIgnoreCase | src/index.ts:302-305 | The same, both directions, for the two sensitive header names, looked up lowered at src/index.ts:198. |
| Redaction.MaskToken | src/index.ts:272-277 | Four stars up to length 4; otherwise the first two characters, `...`, and the last two. |
| Redaction.MaskTokenHidesMiddle | src/index.ts:272-277 | Two tokens that agree on those four characters, or are both short, mask the same: the middle never shows. |
| Redaction.SchemeMatch | src/index.ts:264 | `/^([A-Za-z]+)\s+(.+)$/` matches exactly when some split exists. The split returned is the one backtracking picks: longest whitespace run, giving one character back at the end. |
| Redaction.MaskSensitiveValue | src/index.ts:258-270 | The result is empty exactly for a blank value. When the trimmed value matches the scheme expression, the result is the scheme word, a space and `MaskToken` of the rest. Otherwise it is `MaskToken` of the whole trimmed value. It is never longer than the scheme word plus eight characters. |
| Redaction.MaskedValueHidesMiddle | src/index.ts:258-277 | Two header values with the same scheme word whose credentials agree on their first two and last two characters are logged alike. So are two values without a scheme word whose trimmed texts agree on those characters. |
| Redaction.LoggedBearerIsMasked | src/index.ts:258-270 | An `Authorization` value the handler accepts as `Bearer <t>` is logged as its scheme word, a space, and `MaskToken(t)`. |
| Redaction.BearerSchemeMatch | src/index.ts:264 | For such a header the scheme expression splits exactly at the scheme word and the token. |
| Redaction.Truncate | src/index.ts:279-284 | A value within the limit is kept. A longer one becomes its first `maxLength` characters followed by `…`. |
| Redaction.TruncateIdempotent | src/index.ts:279-284 | Truncating twice is truncating once. |
| Redaction.LoggedValueBound | src/index.ts:279-284 | At the default limit of 1024, the only one the callers at src/index.ts:224 and 229 use, a logged value is at most 1025 characters, and a value within the limit is logged whole. |
| Redaction.SanitizeHeaders | src/index.ts:195-205 | One entry per header name (`__proto__` aside, see "## Left out"). Each name holds the value of its last header, masked when the name is sensitive and copied otherwise. |
| Kv.Lookup | tests/webhook.test.ts:8-10 | `get` returns the stored string exactly when the key is present, and null otherwise. |
| Kv.Written | tests/webhook.test.ts:12-14 | `put` stores the value (and the TTL, if given) under the key and changes no other key. |
| Kv.Removed | tests/webhook.test.ts:16-18 | `delete` removes the key and changes no other key. |
| Kv.Expired | src/oauth.ts:29-33 | Expiry can drop only an entry written with a TTL, and then only that entry: an entry without a TTL stays. |
| Kv.KvNamespace.constructor | tests/webhook.test.ts:5-6 | A fresh namespace is empty. |
| Kv.KvNamespace.Get | tests/webhook.test.ts:8-10 | Returns `Lookup` of the current content. |
| Kv.KvNamespace.Put | tests/webhook.test.ts:12-14 | The new content is `Written` of the old. |
| Kv.KvNamespace.Delete | tests/webhook.test.ts:16-18 | The new content is `Removed` of the old. |
| StatePayload.Encode | src/oauth.ts:45 | `JSON.stringify({ userId })` is the fixed prefix, the escaped id, and `"}`. |
| StatePayload.DecodeEncode | src/oauth.ts:45-57 | Parsing the stored text gives back the same record, for every user id including quotes, backslashes and control characters. |
| StatePayload.EncodeInjective | src/oauth.ts:45 | Different records are stored as different texts. |
| StatePayload.Decode | src/oauth.ts:57 | A text that parses is the fixed prefix, an escaped string and the fixed suffix, and the record holds that string unescaped. A text too short for the frame does not parse. |
| StatePayload.UnescapeEscape | src/oauth.ts:45-57 | Unescaping the escaped characters of a string gives the string back. |
| OAuth.StoreLinkState | src/oauth.ts:29-33 | Writes the user id under `link:<state>` with the 600-second TTL. |
| OAuth.ConsumeLinkState | src/oauth.ts:35-42 | Returns null without deleting when the value is missing or empty; otherwise deletes the key and returns the value. |
| OAuth.RememberTodoistState | src/oauth.ts:44-48 | Writes the stringified record under `todoist:<key>` with the 600-second TTL. |
| OAuth.ConsumeTodoistState | src/oauth.ts:50-62 | Returns null for a missing or empty value; otherwise deletes the key first, then returns the parsed record, or null when it does not parse. |
| OAuth.StoreToken | src/oauth.ts:93-95 | Writes the credential under `token:<userId>` with no TTL, clearing any earlier one. |
| OAuth.GetToken | src/oauth.ts:97-99 | Returns the stored credential under `token:<userId>`, or null. |
| OAuth.DeleteToken | src/oauth.ts:101-103 | Removes `token:<userId>`. |
| OAuth.LinkStateRoundTrip | src/oauth.ts:29-42 | Consuming a stored link state returns its non-empty user id and removes the key; every other key is as before the store. An empty user id is never returned and stays stored. |
| OAuth.LinkStateSingleUse | src/oauth.ts:35-42 | After a successful consume the key is gone, and a second consume returns null and changes nothing. |
| OAuth.ConsumeMissChangesNothing | src/oauth.ts:35-39 | A consume that finds nothing, or an empty string, changes no entry, for both correlation kinds. |
| OAuth.TodoistStateRoundTrip | src/oauth.ts:44-62 | Consuming a remembered state returns the same record and removes the key; every other key is as before the remember. |
| OAuth.TodoistStateSingleUse | src/oauth.ts:50-62 | Any non-empty stored state is deleted by the first consume, so the second returns null. An unparseable one is deleted and yields null. |
| OAuth.TokenBindingRoundTrip | src/oauth.ts:93-103 | A stored credential reads back, a later store overwrites it, and a delete removes it. |
| OAuth.KeyFamiliesDisjoint | src/oauth.ts:8-9 | `link:`, `todoist:` and `token:` keys never collide, and each key determines its suffix. |
| OAuth.EachOperationTouchesOneKey | src/oauth.ts:29-103 | Every operation changes at most the one key it names. |
| OAuth.FamiliesAreIndependent | src/oauth.ts:29-103 | Correlation-token operations never change a credential binding, and credential operations never change a correlation token. |
| OAuth.WriteTtls | src/oauth.ts:7 | Link and provider states are written with TTL 600; credentials with none. |
| OAuth.TokenBindingsDoNotExpire | src/oauth.ts:93-95 | Expiry of any key never drops a credential binding just stored. |
| OAuth.ExpiredLinkStateIsRejected | src/oauth.ts:35-39 | A link state that has expired is consumed as missing. |
| FormUrlencoded.Encode | src/oauth.ts:15-22 | An encoded component is never shorter than the text, and is empty only for the empty text. |
| FormUrlencoded.EncodeIsEncoded | src/oauth.ts:15-22 | An encoded component contains only unreserved characters, `+` and `%`: never `&` or `=`. |
| FormUrlencoded.EncodeAppend | src/oauth.ts:15-22 | Encoding works character by character, so it distributes over concatenation. |
| FormUrlencoded.EncodeUnreserved | src/oauth.ts:15-22 | A string of unreserved ASCII characters is its own encoding. |
| FormUrlencoded.EncodeColon | src/oauth.ts:17 | `:` is not unreserved and is encoded as `%3A`. |
| FormUrlencoded.Serialize | src/oauth.ts:15-22 | The query is empty exactly when there are no pairs. |
| FormUrlencoded.SplitSerialize | src/oauth.ts:15-22 | Splitting the serialized query at `&` gives back one `name=value` field per pair, in order. |
| AuthorizeUrl.BuildTodoistAuthorizeUrl | src/oauth.ts:11-23 | The URL is the authorize endpoint followed by exactly four fields: `client_id`, `scope=data%3Aread_write`, `state` and `redirect_uri`, in this order, with values form-encoded. |
| AuthorizeUrl.ScopeEncoding | src/oauth.ts:17 | The scope goes out as `data%3Aread_write`. |
| AuthorizeUrl.StripHyphens | src/oauth.ts:26 | No `-` is left, and every other character keeps its count. |
| AuthorizeUrl.StripHyphensAppend | src/oauth.ts:26 | Stripping works piecewise over concatenation. |
| AuthorizeUrl.GeneratedStateFromUuid | src/oauth.ts:25-27 | For a UUID text the state is 32 lower-case hex digits, and it appears in the authorize URL unchanged. |

## Left out

- Routing (`/health`, 404), the Worker `fetch` wrapper, request ids, timing, and the `console` logging calls are left out, because they are I/O; `extractBodySnapshot` and `serializeError` are left out for the same reason. The redaction helpers they call are modelled.
- The to-do API call itself is left out (`fetch` and the response JSON). Its outcome is a parameter of `HandleWebhook`.
- `exchangeCodeForToken` is left out: it is a network call with no state of its own.
- `crypto.randomUUID` is left out. `generateState` is modelled only for its string step, `StripHyphens`, and for its output given a UUID text.
- Webhook.HandleWebhook: a body that is valid JSON but lacks `session`, or lacks `request` once a user id resolves (src/index.ts:32), makes the source throw and answer 500; a body without `request` and without a user id gets the apology. The model's input type always has both fields, so the 500 path is not modelled.
- Lengths are code-point lengths, but JavaScript's `.length` counts UTF-16 code units. `MaskToken`, `Truncate` and the slicing in them therefore differ from the source for characters outside the Basic Multilingual Plane.
- Text.KeyLower lower-cases ASCII letters and the Kelvin sign, the only non-ASCII characters whose lower case lands in the sensitive key sets. Other Unicode case mappings are not modelled, because they cannot change set membership.
- Redaction.SanitizePayload treats every key as an ordinary own property. The source's assignment of a `__proto__` key to a plain object sets the prototype instead and drops the member; that is not modelled.
- Redaction.SanitizeHeaders takes a list of name/value pairs. The `Headers` object's own normalisation (lower-casing names, joining repeated names with `, `, sorting) happens before the iteration and is not modelled. After that normalisation names repeat only for `Set-Cookie`, which the iteration yields once per header; the last-wins rule applies to those. A header named `__proto__` is not modelled either: the source's `sanitized[key] = ...` (src/index.ts:199, 201) hits the `Object.prototype.__proto__` setter, which ignores a string, so the logged record has no such entry, while the model's map has one.
- Kv: the store is the semantics of the in-memory test double: overwrite on put, null on a missing get, idempotent delete. Expiry is a separate operation the store may apply at any moment; clock time is not modelled.
- StatePayload.Decode accepts only the canonical text that `JSON.stringify` produces for `{ userId }`, plus the escapes a JSON string allows. Any other JSON text (whitespace between tokens, other members, a non-object) is read as unparseable, where `JSON.parse` would return some value. The store only ever holds what `RememberTodoistState` wrote, so this does not change the behaviour modelled.
- StatePayload.Decode rejects every `\u` escape of a surrogate, a valid pair such as `\ud83d\ude00` included, where `JSON.parse` accepts the pair. Dafny strings here hold scalar values only. `StatePayload.Encode` never writes such an escape, so the round trip is unaffected.
- OAuth.ConsumeLinkState and OAuth.ConsumeTodoistState run as one uninterrupted step. The source reads and then deletes with two separate awaited calls (src/oauth.ts:36-40, 51-55), so two concurrent consumes of one key can both get the value. OAuth.LinkStateSingleUse and OAuth.TodoistStateSingleUse therefore hold only for consumes made one after another; concurrency is not modelled.
- Nothing in the source calls `storeLinkState`, `consumeLinkState`, `rememberTodoistState`, `consumeTodoistState`, `storeToken`, `getToken`, `deleteToken`, `buildTodoistAuthorizeUrl` or `generateState`: src/index.ts imports only `addTask` and `isTodoistUnauthorized` (a 401 does not delete the stored credential). These are modelled as the store operations they are, not as part of a linking flow.
- The rest of `buildTodoistAuthorizeUrl`'s input (`env.TODOIST_CLIENT_SECRET`, `env.TOKENS`) is not read by it and is not part of `AuthorizeUrl.Env`.

## Findings

| source | as written | input that shows it | evidently intended | confidence | as-written member | corrected member |
|---|---|---|---|---|---|---|
| src/index.ts:46 | `addTask(token, commandText)` against the declaration `addTask(env, accessToken, content)` (src/todoist.ts:17-21). The token lands in `env`, the command text is sent as `Authorization: Bearer <command text>`, and the JSON body is `{}` because `content` is undefined. | Any turn with a user, a non-empty command and a token, e.g. token `abc`, command `buy milk`: the API sees bearer `buy milk` and no content. (A command outside Latin-1 cannot be a header value at all, so there the request fails before it is sent.) | `addTask(env, token, commandText)`: bearer `abc`, content `buy milk`. | not executed | Webhook.AddTaskCallAsWritten (with Webhook.AsWrittenCallDiffers) | Webhook.AddTaskCall (used by Webhook.HandleWebhook) |
