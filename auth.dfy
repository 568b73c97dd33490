/** Authentication injection: the header map and the URL that
    `prepare_headers` and `prepare_url` produce from the auth settings. */
module Auth {
  import opened Values

  const DefaultHeaderKey := "X-API-Key"
  const DefaultQueryKey := "api_key"

  /** Bearer auth applies: the type is `bearer` and a `token` is given. */
  predicate BearerApplies(authType: string, auth: map<string, Field>)
  {
    authType == "bearer" && "token" in auth
  }

  /** An API key goes into a header: type `apikey` and `in` is `header`. */
  predicate HeaderKeyApplies(authType: string, auth: map<string, Field>)
  {
    authType == "apikey" && Lookup(auth, "in") == Some(Text("header"))
  }

  /** An API key goes into the query: type `apikey` and `in` is `query`. */
  predicate QueryKeyApplies(authType: string, auth: map<string, Field>)
  {
    authType == "apikey" && Lookup(auth, "in") == Some(Text("query"))
  }

  /** The name of the API-key header or query parameter: `auth['key']`
      rendered as a string, or the given default. */
  function KeyName(auth: map<string, Field>, default: string): string
  {
    Show(GetOr(auth, "key", Text(default)))
  }

  /** The header the auth settings inject, if any: `Authorization` with
      `Bearer <token>`, or the API-key header with `auth['value']`
      (default empty).  Bearer takes precedence, as in the `if`/`elif`. */
  function AuthHeader(authType: string, auth: map<string, Field>): (r: Option<(string, Field)>)
    ensures r.Some? <==> BearerApplies(authType, auth) || HeaderKeyApplies(authType, auth)
  {
    if BearerApplies(authType, auth) then
      Some(("Authorization", Text("Bearer " + Show(auth["token"]))))
    else if HeaderKeyApplies(authType, auth) then
      Some((KeyName(auth, DefaultHeaderKey), GetOr(auth, "value", Text(""))))
    else
      None
  }

  /** `prepare_headers`: a copy of `headers` with the auth header, if any,
      written over whatever the copy held under that name. */
  function HeadersWithAuth(headers: map<string, Field>, authType: string, auth: map<string, Field>): (r: map<string, Field>)
    ensures BearerApplies(authType, auth) ==>
      && r.Keys == headers.Keys + {"Authorization"}
      && r["Authorization"] == Text("Bearer " + Show(auth["token"]))
      && forall k :: k in headers && k != "Authorization" ==> r[k] == headers[k]
    ensures !BearerApplies(authType, auth) && HeaderKeyApplies(authType, auth) ==>
      var name := KeyName(auth, DefaultHeaderKey);
      && r.Keys == headers.Keys + {name}
      && r[name] == GetOr(auth, "value", Text(""))
      && forall k :: k in headers && k != name ==> r[k] == headers[k]
    ensures !BearerApplies(authType, auth) && !HeaderKeyApplies(authType, auth) ==> r == headers
  {
    match AuthHeader(authType, auth)
    case None => headers
    case Some((name, value)) => headers[name := value]
  }

  /** `prepare_url`: with an API key in the query, the URL followed by
      `?` (or `&` when it already holds a `?`) and `key=value`, with no
      escaping; otherwise the URL itself.  The URL is always a prefix. */
  function PrepareUrl(url: string, authType: string, auth: map<string, Field>): (r: string)
    ensures url <= r
    ensures !QueryKeyApplies(authType, auth) ==> r == url
    ensures QueryKeyApplies(authType, auth) ==>
      && |r| > |url|
      && (r[|url|] == '&' <==> '?' in url)
      && (r[|url|] == '?' <==> '?' !in url)
      && r[|url| + 1..] == KeyName(auth, DefaultQueryKey) + "=" + Show(GetOr(auth, "value", Text("")))
  {
    if QueryKeyApplies(authType, auth) then
      var separator := if '?' in url then '&' else '?';
      url + [separator] + KeyName(auth, DefaultQueryKey) + "=" + Show(GetOr(auth, "value", Text("")))
    else
      url
  }
}
