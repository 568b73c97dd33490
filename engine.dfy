/** The request engine: in-place substitution over the caller's header
    and auth dictionaries, header preparation, body encoding and the
    `send_request` pipeline that ties them to an abstract transport. */
module Engine {
  import opened Values
  import opened Placeholders
  import opened TextOps
  import opened Auth
  import opened Failures

  /** A Python dictionary shared by reference: `send_request` overwrites
      the values of its caller's header and auth dictionaries. */
  class Dict {
    var entries: map<string, Field>

    constructor (m: map<string, Field>)
      ensures entries == m
    {
      entries := m;
    }

    /** `d[k] = v`. */
    method Put(k: string, v: Field)
      modifies this
      ensures entries == old(entries)[k := v]
    {
      entries := entries[k := v];
    }
  }

  // ---------------------------------------------------------------------
  // Substitution over the dictionaries

  /** The header map after substitution: every value converted to a
      string and resolved; the keys stay as they are. */
  function HeadersAfterSubstitution(m: map<string, Field>, vars: map<string, string>): (r: map<string, Field>)
    ensures r.Keys == m.Keys
    ensures forall k :: k in r ==> r[k].Text? && r[k].text == Resolve(Show(m[k]), vars)
  {
    map k | k in m :: Text(Resolve(Show(m[k]), vars))
  }

  /** The auth map after substitution: string values resolved, values of
      any other type kept as they are. */
  function AuthAfterSubstitution(m: map<string, Field>, vars: map<string, string>): (r: map<string, Field>)
    ensures r.Keys == m.Keys
    ensures forall k :: k in m && m[k].Text? ==> r[k] == Text(Resolve(m[k].text, vars))
    ensures forall k :: k in m && m[k].Other? ==> r[k] == m[k]
  {
    map k | k in m :: if m[k].Text? then Text(Resolve(m[k].text, vars)) else m[k]
  }

  /** The loop over `headers.items()` that overwrites each value in place. */
  method ResolveHeaderValues(headers: Dict, vars: map<string, string>)
    modifies headers
    ensures headers.entries == HeadersAfterSubstitution(old(headers.entries), vars)
  {
    ghost var original := headers.entries;
    var pending := headers.entries.Keys;
    while pending != {}
      invariant pending <= original.Keys == headers.entries.Keys
      invariant forall k :: k in original && k !in pending ==>
        headers.entries[k] == Text(Resolve(Show(original[k]), vars))
      invariant forall k :: k in pending ==> headers.entries[k] == original[k]
      decreases pending
    {
      var k :| k in pending;
      headers.Put(k, Text(Resolve(Show(headers.entries[k]), vars)));
      pending := pending - {k};
    }
  }

  /** The loop over `auth_data.items()` that overwrites string values in place. */
  method ResolveAuthFields(auth: Dict, vars: map<string, string>)
    modifies auth
    ensures auth.entries == AuthAfterSubstitution(old(auth.entries), vars)
  {
    ghost var original := auth.entries;
    var pending := auth.entries.Keys;
    while pending != {}
      invariant pending <= original.Keys == auth.entries.Keys
      invariant forall k :: k in original && k !in pending ==>
        auth.entries[k] == AuthAfterSubstitution(original, vars)[k]
      invariant forall k :: k in pending ==> auth.entries[k] == original[k]
      decreases pending
    {
      var k :| k in pending;
      var value := auth.entries[k];
      if value.Text? {
        auth.Put(k, Text(Resolve(value.text, vars)));
      }
      pending := pending - {k};
    }
  }

  // ---------------------------------------------------------------------
  // Headers

  /** `prepare_headers`: a fresh copy of the headers (the caller's
      dictionary is only read) with the auth header written into it. */
  method PrepareHeaders(headers: Dict, authType: string, auth: Dict) returns (prepared: Dict)
    ensures fresh(prepared)
    ensures prepared.entries == HeadersWithAuth(headers.entries, authType, auth.entries)
  {
    prepared := new Dict(headers.entries);
    if authType == "bearer" && "token" in auth.entries {
      prepared.Put("Authorization", Text("Bearer " + Show(auth.entries["token"])));
    } else if authType == "apikey" && auth.entries != map[] {
      if Lookup(auth.entries, "in") == Some(Text("header")) {
        prepared.Put(KeyName(auth.entries, DefaultHeaderKey), GetOr(auth.entries, "value", Text("")));
      }
    }
  }

  // ---------------------------------------------------------------------
  // Body

  /** What goes into the request as its body: nothing, a JSON value, a
      raw string (`data=body`) or a form dictionary (`data=form_data`). */
  datatype Payload =
    | NoPayload
    | JsonPayload(value: Json)
    | DataPayload(data: string)
    | FormPayload(fields: map<string, string>)

  const BodyMethods := ["POST", "PUT", "PATCH"]

  /** The upper-cased method is one that carries a body. */
  predicate CarriesBody(verb: string)
  {
    Upper(verb) in BodyMethods
  }

  /** A body is attached: it is non-empty and the method carries one. */
  predicate Attaches(verb: string, body: Option<string>)
  {
    body.Some? && body.value != [] && CarriesBody(verb)
  }

  /** One line of a form body as a field, when it holds an `=`: the text
      before the first `=` and the text after it, both stripped. */
  function FormEntry(line: string): (r: Option<(string, string)>)
    ensures r.Some? <==> '=' in line
    ensures r.Some? ==> exists a, b :: line == a + "=" + b && '=' !in a && r.value == (Strip(a), Strip(b))
  {
    match SplitFirst(line, '=')
    case None => None
    case Some((k, v)) =>
      assert line == k + "=" + v;
      Some((Strip(k), Strip(v)))
  }

  /** A dictionary built from optional entries in order, as repeated
      `d[key] = value` does: a later entry overwrites an earlier one. */
  function Collect(entries: seq<Option<(string, string)>>): (m: map<string, string>)
    ensures forall k :: k in m ==> exists i :: 0 <= i < |entries| && entries[i] == Some((k, m[k]))
  {
    if entries == [] then map[]
    else
      var m := Collect(entries[..|entries| - 1]);
      match entries[|entries| - 1]
      case None => m
      case Some((k, v)) => m[k := v]
  }

  /** Collecting one more entry. */
  lemma CollectStep(entries: seq<Option<(string, string)>>, i: nat)
    requires i < |entries|
    ensures Collect(entries[..i + 1]) ==
      match entries[i]
      case None => Collect(entries[..i])
      case Some((k, v)) => Collect(entries[..i])[k := v]
  {
    assert entries[..i + 1][..i] == entries[..i];
  }

  /** Entry `i` is present and has key `k`. */
  predicate HasKey(entries: seq<Option<(string, string)>>, i: int, k: string)
    requires 0 <= i < |entries|
  {
    entries[i].Some? && entries[i].value.0 == k
  }

  /** A key is collected exactly when some entry has it. */
  lemma {:induction false} CollectKeys(entries: seq<Option<(string, string)>>, k: string)
    ensures k in Collect(entries) <==> exists i :: 0 <= i < |entries| && HasKey(entries, i, k)
    decreases |entries|
  {
    if entries != [] {
      var n := |entries| - 1;
      var init := entries[..n];
      CollectKeys(init, k);
      CollectStep(entries, n);
      assert entries[..n + 1] == entries;
      if k in Collect(entries) && !HasKey(entries, n, k) {
        assert k in Collect(init);
      }
      if k in Collect(init) {
        var i :| 0 <= i < |init| && HasKey(init, i, k);
        assert HasKey(entries, i, k);
      }
      if exists i :: 0 <= i < |entries| && HasKey(entries, i, k) {
        var i :| 0 <= i < |entries| && HasKey(entries, i, k);
        if i < n {
          assert HasKey(init, i, k);
        }
      }
    }
  }

  /** A collected key holds the value of the last entry with that key. */
  lemma {:induction false} CollectLastWins(entries: seq<Option<(string, string)>>, i: nat)
    requires i < |entries| && entries[i].Some?
    requires forall j :: i < j < |entries| ==> !HasKey(entries, j, entries[i].value.0)
    ensures entries[i].value.0 in Collect(entries)
    ensures Collect(entries)[entries[i].value.0] == entries[i].value.1
    decreases |entries|
  {
    var n := |entries| - 1;
    var init := entries[..n];
    if i < n {
      forall j | i < j < |init| ensures !HasKey(init, j, init[i].value.0) {
        assert !HasKey(entries, j, entries[i].value.0);
      }
      CollectLastWins(init, i);
      assert !HasKey(entries, n, entries[i].value.0);
    }
  }

  /** The entry of every line of a form body. */
  function FormEntries(lines: seq<string>): (es: seq<Option<(string, string)>>)
    ensures |es| == |lines|
    ensures forall i :: 0 <= i < |lines| ==> es[i] == FormEntry(lines[i])
  {
    seq(|lines|, i requires 0 <= i < |lines| => FormEntry(lines[i]))
  }

  /** The form dictionary built from the lines of a body. */
  function FormFields(lines: seq<string>): (f: map<string, string>)
    ensures forall k :: k in f ==> exists i :: 0 <= i < |lines| && FormEntry(lines[i]) == Some((k, f[k]))
  {
    Collect(FormEntries(lines))
  }

  /** A key is in the form exactly when some line holding `=` has that
      stripped key. */
  lemma FormFieldsKeys(lines: seq<string>, k: string)
    ensures k in FormFields(lines) <==>
      exists i :: 0 <= i < |lines| && FormEntry(lines[i]).Some? && FormEntry(lines[i]).value.0 == k
  {
    var es := FormEntries(lines);
    CollectKeys(es, k);
    if exists i :: 0 <= i < |lines| && FormEntry(lines[i]).Some? && FormEntry(lines[i]).value.0 == k {
      var i :| 0 <= i < |lines| && FormEntry(lines[i]).Some? && FormEntry(lines[i]).value.0 == k;
      assert HasKey(es, i, k);
    }
  }

  /** A duplicated key keeps the value given by its last line. */
  lemma FormFieldsLastWins(lines: seq<string>, i: nat)
    requires i < |lines| && FormEntry(lines[i]).Some?
    requires forall j :: i < j < |lines| && FormEntry(lines[j]).Some? ==>
      FormEntry(lines[j]).value.0 != FormEntry(lines[i]).value.0
    ensures FormEntry(lines[i]).value.0 in FormFields(lines)
    ensures FormFields(lines)[FormEntry(lines[i]).value.0] == FormEntry(lines[i]).value.1
  {
    var es := FormEntries(lines);
    forall j | i < j < |es| ensures !HasKey(es, j, es[i].value.0) {
    }
    CollectLastWins(es, i);
  }

  /** The loop over the lines of a form body that builds `form_data`:
      each line holding `=` is split at its first `=` and the stripped
      halves are stored. */
  method FormFromLines(lines: seq<string>) returns (form: map<string, string>)
    ensures form == FormFields(lines)
  {
    ghost var entries := FormEntries(lines);
    form := map[];
    var i := 0;
    while i < |lines|
      invariant 0 <= i <= |lines|
      invariant form == Collect(entries[..i])
    {
      CollectStep(entries, i);
      var line := lines[i];
      if '=' in line {
        var pair := SplitFirst(line, '=');
        var key, value := Strip(pair.value.0), Strip(pair.value.1);
        assert entries[i] == Some((key, value));
        form := form[key := value];
      }
      i := i + 1;
    }
    assert entries[..|lines|] == entries;
  }

  /** The body encoding `send_request` selects.  Nothing is attached
      unless the body is non-empty and the method carries one; then
      `json` sends the parsed value, or the raw text when it does not
      parse; `form` sends the parsed fields; any other body type sends
      the raw text.  A parser failure other than malformed input escapes
      as an error. */
  function BodyPlan(verb: string, body: Option<string>, bodyType: string, parse: string -> JsonParse): (r: Result<Payload>)
    ensures r == Ok(NoPayload) <==> !Attaches(verb, body)
    ensures Attaches(verb, body) ==>
      var b := body.value;
      && (r.Err? <==> bodyType == "json" && parse(b).Crashed?)
      && (r.Ok? && r.value.JsonPayload? <==> bodyType == "json" && parse(b).Parsed?)
      && (r.Ok? && r.value.DataPayload? <==> bodyType != "form" && (bodyType != "json" || parse(b).Malformed?))
      && (r.Ok? && r.value.FormPayload? <==> bodyType == "form")
      && (r.Ok? && r.value.JsonPayload? ==> r.value.value == parse(b).value)
      && (r.Ok? && r.value.DataPayload? ==> r.value.data == b)
      && (r.Ok? && r.value.FormPayload? ==> r.value.fields == FormFields(Split(b, '\n')))
      && (r.Err? ==> r.detail == parse(b).detail)
  {
    if !Attaches(verb, body) then Ok(NoPayload)
    else if bodyType == "json" then
      match parse(body.value)
      case Parsed(v) => Ok(JsonPayload(v))
      case Malformed => Ok(DataPayload(body.value))
      case Crashed(d) => Err(d)
    else if bodyType == "form" then Ok(FormPayload(FormFields(Split(body.value, '\n'))))
    else Ok(DataPayload(body.value))
  }

  /** The JSON fallback applies: a `json` body that was attached but
      does not parse. */
  predicate JsonFallback(verb: string, body: Option<string>, bodyType: string, parse: string -> JsonParse)
  {
    Attaches(verb, body) && bodyType == "json" && parse(body.value).Malformed?
  }

  /** The prepared headers after body encoding: under the JSON fallback a
      `Content-Type: application/json` is added when that exact key is
      absent; an existing value is never overwritten. */
  function BodyHeaders(headers: map<string, Field>, verb: string, body: Option<string>, bodyType: string,
                       parse: string -> JsonParse): (r: map<string, Field>)
    ensures "Content-Type" in headers ==> r == headers
    ensures !JsonFallback(verb, body, bodyType, parse) ==> r == headers
    ensures JsonFallback(verb, body, bodyType, parse) && "Content-Type" !in headers ==>
      r.Keys == headers.Keys + {"Content-Type"} && r["Content-Type"] == Text("application/json")
      && forall k :: k in headers ==> r[k] == headers[k]
  {
    if JsonFallback(verb, body, bodyType, parse) && "Content-Type" !in headers then
      headers["Content-Type" := Text("application/json")]
    else
      headers
  }

  /** The body branch of `send_request`: fills the payload and, on the
      JSON fallback, writes the content type into the prepared headers. */
  method PrepareBody(verb: string, body: Option<string>, bodyType: string, parse: string -> JsonParse, prepared: Dict)
    returns (payload: Result<Payload>)
    modifies prepared
    ensures payload == BodyPlan(verb, body, bodyType, parse)
    ensures prepared.entries == BodyHeaders(old(prepared.entries), verb, body, bodyType, parse)
  {
    payload := Ok(NoPayload);
    if body.Some? && body.value != [] && Upper(verb) in BodyMethods {
      var b := body.value;
      if bodyType == "json" {
        match parse(b)
        case Parsed(v) =>
          payload := Ok(JsonPayload(v));
        case Malformed =>
          payload := Ok(DataPayload(b));
          if "Content-Type" !in prepared.entries {
            prepared.Put("Content-Type", Text("application/json"));
          }
        case Crashed(d) =>
          payload := Err(d);
      } else if bodyType == "form" {
        var form := FormFromLines(Split(b, '\n'));
        payload := Ok(FormPayload(form));
      } else {
        payload := Ok(DataPayload(b));
      }
    }
  }

  // ---------------------------------------------------------------------
  // The whole request

  const TimeoutSeconds := 30

  /** The keyword arguments handed to the session's `request`. */
  datatype Request = Request(verb: string, url: string, headers: map<string, Field>, payload: Payload,
                             timeout: nat, allowRedirects: bool)

  /** What the transport does with a request: answer, or raise. */
  datatype Transport = Received(response: Response) | Threw(error: Raised)

  /** The body after substitution (only a non-empty body has any). */
  function ResolvedBody(body: Option<string>, vars: map<string, string>): (r: Option<string>)
    ensures r.Some? <==> body.Some?
    ensures body.Some? ==> r.value == Resolve(body.value, vars)
  {
    match body
    case None => None
    case Some(b) => Some(Resolve(b, vars))
  }

  /** A map after substitution, or as it was when there are no variables. */
  function WhenVariables(vars: map<string, string>, m: map<string, Field>, resolved: map<string, Field>): map<string, Field>
  {
    if vars == map[] then m else resolved
  }

  /** Everything `send_request` does before dispatch: substitution, then
      auth injection, then body encoding; or the error that escaped. */
  function Prepare(verb: string, url: string, headers: map<string, Field>, body: Option<string>, bodyType: string,
                   authType: string, auth: map<string, Field>, vars: map<string, string>,
                   parse: string -> JsonParse): Result<Request>
  {
    Assemble(verb, Resolve(url, vars), WhenVariables(vars, headers, HeadersAfterSubstitution(headers, vars)),
             ResolvedBody(body, vars), bodyType, authType, WhenVariables(vars, auth, AuthAfterSubstitution(auth, vars)),
             parse)
  }

  /** The request built from already substituted inputs: auth injection
      into a copy of the headers and the URL, then body encoding. */
  function Assemble(verb: string, url: string, headers: map<string, Field>, body: Option<string>, bodyType: string,
                    authType: string, auth: map<string, Field>, parse: string -> JsonParse): Result<Request>
  {
    match BodyPlan(verb, body, bodyType, parse)
    case Err(d) => Err(d)
    case Ok(p) =>
      Ok(Request(Upper(verb), PrepareUrl(url, authType, auth),
                 BodyHeaders(HeadersWithAuth(headers, authType, auth), verb, body, bodyType, parse),
                 p, TimeoutSeconds, true))
  }

  /** The result `send_request` returns for a given transport behaviour. */
  function Execute(verb: string, url: string, headers: map<string, Field>, body: Option<string>, bodyType: string,
                   authType: string, auth: map<string, Field>, vars: map<string, string>,
                   parse: string -> JsonParse, transport: Request -> Transport): Execution
  {
    match Prepare(verb, url, headers, body, bodyType, authType, auth, vars, parse)
    case Err(d) => Failure(Message(Unexpected(d)))
    case Ok(req) =>
      match transport(req)
      case Threw(e) => Fail(e)
      case Received(resp) => Normalize(resp, SentRequest(req.verb, req.url, req.headers, ResolvedBody(body, vars)))
  }

  /** `send_request`: substitutes into the caller's dictionaries in place
      (only when there are variables), prepares a fresh header copy, the
      URL and the body, dispatches, and normalises the outcome. */
  method SendRequest(verb: string, url: string, headers: Dict, body: Option<string>, bodyType: string,
                     authType: string, auth: Dict, vars: map<string, string>,
                     parse: string -> JsonParse, transport: Request -> Transport)
    returns (result: Execution)
    requires headers != auth
    modifies headers, auth
    ensures headers.entries == WhenVariables(vars, old(headers.entries), HeadersAfterSubstitution(old(headers.entries), vars))
    ensures auth.entries == WhenVariables(vars, old(auth.entries), AuthAfterSubstitution(old(auth.entries), vars))
    ensures result == Execute(verb, url, old(headers.entries), body, bodyType, authType, old(auth.entries),
                              vars, parse, transport)
  {
    var u, b := SubstituteInPlace(url, headers, body, auth, vars);
    var prepared := BuildRequest(verb, u, headers, b, bodyType, authType, auth, parse);
    match prepared {
      case Err(d) =>
        result := Failure(Message(Unexpected(d)));
      case Ok(request) =>
        match transport(request) {
          case Threw(e) =>
            result := Fail(e);
          case Received(resp) =>
            result := Normalize(resp, SentRequest(request.verb, request.url, request.headers, b));
        }
    }
  }

  /** The substitution step of `send_request`: the URL and a non-empty
      body are resolved, and the header and auth dictionaries are rewritten
      in place; nothing happens without variables. */
  method SubstituteInPlace(url: string, headers: Dict, body: Option<string>, auth: Dict, vars: map<string, string>)
    returns (u: string, b: Option<string>)
    requires headers != auth
    modifies headers, auth
    ensures u == Resolve(url, vars) && b == ResolvedBody(body, vars)
    ensures headers.entries == WhenVariables(vars, old(headers.entries), HeadersAfterSubstitution(old(headers.entries), vars))
    ensures auth.entries == WhenVariables(vars, old(auth.entries), AuthAfterSubstitution(old(auth.entries), vars))
  {
    u, b := url, body;
    if vars != map[] {
      u := Resolve(url, vars);
      if b.Some? && b.value != [] {
        b := Some(Resolve(b.value, vars));
      }
      if headers.entries != map[] {
        ResolveHeaderValues(headers, vars);
      }
      if auth.entries != map[] {
        ResolveAuthFields(auth, vars);
      }
    }
  }

  /** The preparation step of `send_request` after substitution: headers,
      URL and body encoding, giving the request's keyword arguments or the
      error that escaped. */
  method BuildRequest(verb: string, url: string, headers: Dict, body: Option<string>, bodyType: string,
                      authType: string, auth: Dict, parse: string -> JsonParse)
    returns (r: Result<Request>)
    ensures r == Assemble(verb, url, headers.entries, body, bodyType, authType, auth.entries, parse)
  {
    var prepared := PrepareHeaders(headers, authType, auth);
    var preparedUrl := PrepareUrl(url, authType, auth.entries);
    var payload := PrepareBody(verb, body, bodyType, parse, prepared);
    match payload {
      case Err(d) =>
        r := Err(d);
      case Ok(p) =>
        r := Ok(Request(Upper(verb), preparedUrl, prepared.entries, p, TimeoutSeconds, true));
    }
  }

  // ---------------------------------------------------------------------
  // Properties of the whole preparation

  /** Substitution happens before auth injection: a bearer token that
      held placeholders is sent resolved, after `Bearer `. */
  lemma BearerTokenResolvedFirst(verb: string, url: string, headers: map<string, Field>, body: Option<string>,
                                 bodyType: string, auth: map<string, Field>, vars: map<string, string>,
                                 parse: string -> JsonParse)
    requires "token" in auth && auth["token"].Text?
    requires Prepare(verb, url, headers, body, bodyType, "bearer", auth, vars, parse).Ok?
    ensures var sent := Prepare(verb, url, headers, body, bodyType, "bearer", auth, vars, parse).value.headers;
      "Authorization" in sent && sent["Authorization"] == Text("Bearer " + Resolve(auth["token"].text, vars))
  {
    var a := WhenVariables(vars, auth, AuthAfterSubstitution(auth, vars));
    assert BearerApplies("bearer", a);
  }

  /** The request handed to the transport: the method upper-cased, a
      30-second timeout, redirects followed, the resolved URL as a prefix
      of the URL sent, and a payload exactly when the resolved body is
      non-empty and the method carries one. */
  lemma RequestShape(verb: string, url: string, headers: map<string, Field>, body: Option<string>, bodyType: string,
                     authType: string, auth: map<string, Field>, vars: map<string, string>,
                     parse: string -> JsonParse)
    requires Prepare(verb, url, headers, body, bodyType, authType, auth, vars, parse).Ok?
    ensures var req := Prepare(verb, url, headers, body, bodyType, authType, auth, vars, parse).value;
      && req.verb == Upper(verb)
      && req.timeout == 30 && req.allowRedirects
      && Resolve(url, vars) <= req.url
      && (req.payload == NoPayload <==> !Attaches(verb, ResolvedBody(body, vars)))
  {
  }

  /** Preparation fails only when the JSON parser raised something other
      than a decode error on an attached `json` body. */
  lemma PrepareFailsOnlyOnParserCrash(verb: string, url: string, headers: map<string, Field>, body: Option<string>,
                                      bodyType: string, authType: string, auth: map<string, Field>,
                                      vars: map<string, string>, parse: string -> JsonParse)
    ensures var b := ResolvedBody(body, vars);
      Prepare(verb, url, headers, body, bodyType, authType, auth, vars, parse).Err? <==>
      Attaches(verb, b) && bodyType == "json" && parse(b.value).Crashed?
  {
  }

  /** Every failure carries one of the four fixed messages: an error
      escaping preparation is unexpected, a transport exception is
      classified by the `except` clauses. */
  lemma FailureMessagesClassified(verb: string, url: string, headers: map<string, Field>, body: Option<string>,
                                  bodyType: string, authType: string, auth: map<string, Field>,
                                  vars: map<string, string>, parse: string -> JsonParse,
                                  transport: Request -> Transport)
    ensures var r := Execute(verb, url, headers, body, bodyType, authType, auth, vars, parse, transport);
      var prep := Prepare(verb, url, headers, body, bodyType, authType, auth, vars, parse);
      && (prep.Err? ==> r == Failure(Message(Unexpected(prep.detail))))
      && (prep.Ok? && transport(prep.value).Threw? ==> r.Failure? && KindOfMessage(r.error) == Some(Classify(transport(prep.value).error)))
      && (prep.Ok? && transport(prep.value).Received? ==> r.Success?)
      && (r.Failure? ==> KindOfMessage(r.error).Some?)
  {
    var prep := Prepare(verb, url, headers, body, bodyType, authType, auth, vars, parse);
    if prep.Err? {
      MessageRoundTrip(Unexpected(prep.detail));
    }
  }
}
