# Request engine of an API tester, in Dafny

This project models the request-preparation engine of a small Postman-like
API tester. A saved request is sent through one method, `send_request`,
which does the following:

1. It substitutes `{{name}}` placeholders from an environment into the URL,
   the body, the header values and the string auth fields. The header and
   auth dictionaries are rewritten in place.
2. It injects authentication: a bearer `Authorization` header, or an API key
   in a header or in the query string.
3. It encodes the body as JSON, as a form parsed from `key=value` lines, or
   as raw text. A `json` body that does not parse falls back to raw text
   with a default `Content-Type`.
4. It hands the request to an HTTP transport and normalises the outcome.
   A received response becomes a success record. Each kind of exception
   becomes a failure record with a fixed message.

## Modules

- `Values`: optional values, dictionary fields of any JSON type (`Field`),
  the abstract JSON value and what a call of the JSON parser can do.
- `Placeholders`: the placeholder pattern and the substitution pass.
  - The pass is modelled as a deterministic left-to-right scan. It has the
    same leftmost, greedy matching as the regular expression.
  - Proved: unknown names are kept, substituted values are never rescanned,
    and idempotence holds under a stated condition.
  - Two generic counterexamples show idempotence failing without that
    condition.
- `TextOps`: `split`, `split(sep, 1)`, `strip` (with Python's whitespace
  set) and `upper`. Each is specified by what it guarantees. For example,
  the split is the unique separator-free list that joins back to the input.
- `Auth`: header and URL preparation as pure functions of the auth
  settings.
- `Failures`: the `except` ladder, the failure messages and their inverse,
  and response normalisation.
- `Engine`: the imperative parts.
  - A `Dict` class stands for a dictionary shared by reference.
  - The in-place substitution loops, header preparation, the form-parsing
    loop and `PrepareBody` are each proved against a pure specification.
  - `SendRequest` is proved equal to the pure pipeline `Execute`, with the
    transport as a parameter.
- `Scenarios`: small concrete instances of auth and form behaviour.

## Model

| member | source | states |
|---|---|---|
| Placeholders.RunLength | api_client.py:25 | the greedy `[^}]+` run: within the string, holds no `}`, and stops only at a `}` or the end |
| Placeholders.TokenAt | api_client.py:25 | a match at the start of the string is always `{{n}}` for a non-empty, `}`-free name `n` that prefixes the string |
| Placeholders.TokenAtUnique | api_client.py:25 | conversely, whenever the string starts with `{{n}}` for such a name, the pattern matches there with exactly that name |
| Placeholders.Expand | api_client.py:20-22 | a known name is replaced by its value; an unknown one by the whole match |
| Placeholders.Substitute | api_client.py:25 | the `re.sub` pass as a left-to-right scan; with no variables it returns its input (its lemmas below state what it does with tokens and literals) |
| Placeholders.Resolve | api_client.py:15-25 | the result is the substitution pass; empty text comes back empty; an empty environment returns the text unchanged |
| Placeholders.SubstituteKeepsUnknown | api_client.py:20-25 | text in which no matched name is known comes back unchanged |
| Placeholders.SubstituteWithoutVariables | api_client.py:17-25 | with no variables the pass is the identity, so the early return changes nothing |
| Placeholders.NoTokenUnchanged | api_client.py:15-25 | text containing no `{{name}}` at any position is returned unchanged |
| Placeholders.SubstituteToken | api_client.py:20-25 | a token is replaced by its expansion all at once, and the scan resumes after the token |
| Placeholders.SubstituteLiteral | api_client.py:25 | where no token starts, one character is copied and the scan moves on by one |
| Placeholders.SubstituteOpenFree | api_client.py:25 | text free of `{` passes through unchanged and does not affect what follows |
| Placeholders.UnknownKept | api_client.py:22 | `{{n}}` with `n` unknown resolves to itself |
| Placeholders.KnownReplaced | api_client.py:20-22 | `{{n}}` with `n` known resolves to its value, even when the value contains placeholders |
| Placeholders.TwoTokens | api_client.py:25 | two tokens around a literal character both expand, in order |
| Placeholders.SecondPassDiffers | api_client.py:15-25 | a value that is another known variable's token makes a second pass change the result |
| Placeholders.EmptyValueJoins | api_client.py:25 | an empty value can join `{{a}` and a following `}` into the new token `{{a}}` |
| Placeholders.EmptyValueBreaksIdempotence | api_client.py:15-25 | hence a second pass changes the result even with brace-free values |
| Placeholders.SubstituteIdempotent | api_client.py:25 | when every value is non-empty, has no `{` and does not start with `}`, a second pass changes nothing |
| Placeholders.ResolveIdempotent | api_client.py:15-25 | the same for `replace_environment_variables` |
| TextOps.Split | api_client.py:93 | `split('\n')` gives at least one piece, no piece holds the separator, and the pieces join back to the body |
| TextOps.SplitUnique | api_client.py:93 | the split is the only separator-free list that joins back to the body |
| TextOps.JoinInjective | api_client.py:93 | two separator-free lists with the same join are equal |
| TextOps.SplitFirst | api_client.py:94-95 | `split('=', 1)` succeeds exactly when the line holds `=`; the key holds no `=`, and key, `=` and value rebuild the line |
| TextOps.Strip | api_client.py:96 | `strip()` leaves a slice of the input with only whitespace before and after it, and it neither starts nor ends with whitespace |
| TextOps.StripFixed | api_client.py:96 | text that neither starts nor ends with whitespace is its own strip |
| TextOps.StripIdempotent | api_client.py:96 | stripping twice is stripping once |
| TextOps.Upper | api_client.py:74 | `upper()` keeps the length and maps every character on its own, ASCII letters to capitals |
| Values.Show | api_client.py:62 | `str(value)`: a string is its own string form |
| Values.Lookup | api_client.py:34 | `d.get(k)` is present exactly when `k` is a key, and is then its value |
| Values.GetOr | api_client.py:43-44 | `d.get(k, default)` is the value of `k` when present, else the default |
| Auth.AuthHeader | api_client.py:31-35 | an auth header is produced exactly when bearer applies or an API key goes in a header |
| Auth.HeadersWithAuth | api_client.py:27-37 | bearer with a token adds `Authorization: Bearer <token>`; otherwise an API key with `in=header` adds `key` (default `X-API-Key`) with `value` (default empty); all other headers are kept; with no auth the headers are returned unchanged |
| Auth.PrepareUrl | api_client.py:39-47 | with an API key in the query, the URL is extended by `&` if it holds a `?` (else `?`), then `key=value` (default key `api_key`, default value empty); otherwise it is unchanged; the URL is always a prefix |
| Failures.Classify | api_client.py:134-157 | the first matching `except` clause wins: timeout, then connection error, then request error, then any other exception |
| Failures.Message | api_client.py:134-157 | the fixed message of each failure kind; MessageRoundTrip and MessageInjective state that it is invertible |
| Failures.KindOfMessage | api_client.py:134-157 | reading a message back: whenever it returns a kind, that kind's message is the text read |
| Failures.MessageRoundTrip | api_client.py:134-157 | every failure message decodes back to the kind and detail it was made from |
| Failures.MessageInjective | api_client.py:134-157 | different failures never share a message |
| Failures.Normalize | api_client.py:105-132 | any received response is a success with its status, reason, headers, byte size and the request sent; a JSON body forces `application/json`; otherwise the text with the response's content type, `text/plain` by default |
| Failures.Fail | api_client.py:134-157 | an exception becomes a failure whose message decodes to its classification |
| Engine.Dict.constructor | api_client.py:29 | a new dictionary holds exactly the given entries |
| Engine.Dict.Put | api_client.py:62 | `d[k] = v` overwrites one key and nothing else |
| Engine.HeadersAfterSubstitution | api_client.py:60-62 | the same keys; every value becomes the resolved string form of the old value |
| Engine.AuthAfterSubstitution | api_client.py:63-66 | the same keys; string values resolved; values of other types kept |
| Engine.ResolveHeaderValues | api_client.py:60-62 | the in-place loop leaves the caller's header dictionary equal to `HeadersAfterSubstitution` of its old contents |
| Engine.ResolveAuthFields | api_client.py:63-66 | the in-place loop leaves the caller's auth dictionary equal to `AuthAfterSubstitution` of its old contents |
| Engine.PrepareHeaders | api_client.py:27-37 | a fresh dictionary equal to `HeadersWithAuth`; the caller's dictionaries are only read |
| Engine.FormEntry | api_client.py:94-96 | a line yields a field exactly when it holds `=`; the field is then the stripped text before the first `=` and the stripped rest, so later `=` stay in the value |
| Engine.Collect | api_client.py:92-96 | repeated `form_data[key] = value`: every collected key holds the value of some entry with that key (CollectKeys and CollectLastWins state which) |
| Engine.CollectKeys | api_client.py:92-96 | a key is in the built dictionary exactly when some entry has it |
| Engine.CollectLastWins | api_client.py:92-96 | a key holds the value of the last entry with that key |
| Engine.FormFields | api_client.py:92-96 | the form built from the lines: every field is the field of some line |
| Engine.FormFieldsKeys | api_client.py:92-96 | a key is in the form exactly when some line holding `=` has that stripped key |
| Engine.FormFieldsLastWins | api_client.py:92-96 | a repeated key keeps the value from its last line |
| Engine.FormFromLines | api_client.py:92-97 | the line loop builds exactly `FormFields` of the lines |
| Engine.BodyPlan | api_client.py:82-99 | nothing is attached unless the body is non-empty and the upper-cased method is POST, PUT or PATCH; then `json` sends the parsed value, or the raw text when parsing reports malformed input; `form` sends the parsed fields; any other type sends the raw text; any other parser exception escapes |
| Engine.BodyHeaders | api_client.py:86-89 | only under the JSON fallback, and only when the key `Content-Type` is absent, is `Content-Type: application/json` added; an existing value is never overwritten |
| Engine.PrepareBody | api_client.py:81-99 | the payload equals `BodyPlan`, and the prepared headers are updated as `BodyHeaders` says |
| Engine.ResolvedBody | api_client.py:58-59 | a body is present after substitution exactly when it was, and it is then the resolved body |
| Engine.Prepare | api_client.py:55-99 | substitution first, under `if environment_vars:`, then the request of `Assemble`; RequestShape, BearerTokenResolvedFirst and PrepareFailsOnlyOnParserCrash state its properties |
| Engine.Assemble | api_client.py:68-99 | header and URL preparation, the upper-cased method, the 30-second timeout, redirects and the body of `BodyPlan`, or the parser's escaped error |
| Engine.Execute | api_client.py:49-157 | preparation, then the transport, then normalisation; FailureMessagesClassified states its outcomes |
| Engine.SubstituteInPlace | api_client.py:55-66 | the URL and the body are resolved; the dictionaries are rewritten in place only when there are variables |
| Engine.BuildRequest | api_client.py:68-99 | the keyword arguments built after substitution equal the pure `Assemble`, or the escaped error |
| Engine.SendRequest | api_client.py:49-157 | the caller's dictionaries end up substituted, and the result equals `Execute` on their old contents |
| Engine.BearerTokenResolvedFirst | api_client.py:56-70 | substitution comes before auth injection, so a bearer token is sent resolved after `Bearer ` |
| Engine.RequestShape | api_client.py:73-82 | the request has the upper-cased method, a 30-second timeout and redirects followed; the resolved URL prefixes the URL sent; a payload is attached exactly when the resolved body is non-empty and the method carries one |
| Engine.PrepareFailsOnlyOnParserCrash | api_client.py:82-89 | preparation fails exactly when an attached `json` body makes the parser raise something other than a decode error |
| Engine.FailureMessagesClassified | api_client.py:134-157 | an error escaping preparation gives the unexpected-error message; a transport exception gives its classified message; a received response is a success; every failure message decodes to a kind |
| Scenarios.BearerOnEmptyHeaders | api_client.py:29-32 | bearer auth with token `xyz` on no headers gives exactly `Authorization: Bearer xyz` |
| Scenarios.ApiKeyInQuery | api_client.py:41-45 | a query API key is appended with `?` to a URL without one and with `&` to a URL with one |
| Scenarios.SingleCharFields | api_client.py:94-96 | a line `k=v` of single non-space characters is the field `(k, v)` |
| Scenarios.TwoFields | api_client.py:92-96 | two lines that each hold `=` give a form of both fields, and the second wins on equal keys |
| Scenarios.TwoLineForm | api_client.py:92-96 | a two-line form body gives both fields, and the second line wins on equal keys |

## Left out

- The transport (`session.request`), the session object and its default `User-Agent` header are parameters or absent. The transport is a function from the prepared request to a response or an exception.
- Elapsed time (`start_time`, `response_time`) is not modelled.
- `json.loads` on the request body and `response.json()` on the response are oracles: a parsing function parameter, and the `json` field of `Response`.
- The case-insensitive lookup of the response `Content-Type` header is abstracted into the `contentType` field of `Response`.
- Dictionary insertion order is not modelled; dictionaries are maps. This affects the order of headers and form fields, never their contents.
- Other types in the header and auth dictionaries (numbers, booleans, null, nested values) are modelled by their `str()` rendering (`Field.Other`).
- A header or auth dictionary that is `None` or empty is an empty map, as in the source. A truthy value that is not an object (`[1]`, `true`, `"token"`) makes the source fail with "Unexpected error: …" at `.items()` (line 61), `.copy()` (line 29) or `auth_data['token']` (line 32); the model has no such value, since the dictionaries are maps.
- Auth.HeadersWithAuth: a non-string auth `key` becomes a header name through its `str()` form (`KeyName`), while the source uses the raw value as the dictionary key (line 35).
- TextOps.Upper: maps ASCII letters only. Python's full Unicode case mapping is not modelled, so `"poſt".upper() == "POST"` does not carry a body here.
- Placeholders.SubstituteIdempotent: idempotence is proved only for inert values (non-empty, without `{`, not starting with `}`). It fails in general, as SecondPassDiffers and EmptyValueBreaksIdempotence show.
- Exceptions raised inside `str()`, inside dictionary operations or by the regular-expression engine are not modelled. The only escaping errors modelled are the transport's and the JSON parser's.
