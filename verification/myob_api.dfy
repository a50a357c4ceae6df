/**
 * The transport helper `myobRequest`: it builds the MYOB header set and the
 * request options, hands them to the host's authenticated request helper and
 * post-processes whatever comes back.
 */
module MyobApi {
  import opened Wrappers
  import opened Js
  import Utf8
  import Base64

  /** Stored credential fields by name; a field that is not stored reads as `undefined`. */
  type Credentials = map<string, string>

  /** The text a credential field renders to in a template literal or `String(...)`. */
  function FieldText(creds: Credentials, name: string): string
  {
    if name in creds then creds[name] else "undefined"
  }

  /** The text the company-file token encodes: user name, a colon, password. */
  function CompanyFileLogin(creds: Credentials): string
  {
    FieldText(creds, "companyFileUsername") + ":" + FieldText(creds, "companyFilePassword")
  }

  /**
   * The octets `Buffer.from` makes of the login: the user name's UTF-8
   * octets, one colon octet, then the password's.
   */
  lemma LoginOctets(creds: Credentials)
    ensures Utf8.Encode(CompanyFileLogin(creds)) ==
              Utf8.Encode(FieldText(creds, "companyFileUsername")) + [0x3A]
              + Utf8.Encode(FieldText(creds, "companyFilePassword"))
  {
    var user, pass := FieldText(creds, "companyFileUsername"), FieldText(creds, "companyFilePassword");
    Utf8.EncodeAppend(user + ":", pass);
    Utf8.EncodeAppend(user, ":");
    assert Utf8.Encode(":") == [0x3A];
  }

  /** `Buffer.from(login).toString('base64')`: Base64 of the UTF-8 octets. */
  function CompanyFileToken(creds: Credentials): (t: string)
    ensures Base64.Decode(t) == Some(Utf8.Encode(CompanyFileLogin(creds)))
  {
    Base64.RoundTrip(Utf8.Encode(CompanyFileLogin(creds)));
    Base64.Encode(Utf8.Encode(CompanyFileLogin(creds)))
  }

  /** The token for user `a` and password `b`, as Node prints it. */
  lemma TokenExample()
    ensures CompanyFileToken(map["companyFileUsername" := "a", "companyFilePassword" := "b"]) == "YTpi"
  {
    var creds := map["companyFileUsername" := "a", "companyFilePassword" := "b"];
    assert CompanyFileLogin(creds) == "a:b";
    assert Utf8.Encode("a:b") == [97, 58, 98];
    assert Base64.CharOf(24) == 'Y' && Base64.CharOf(19) == 'T' && Base64.CharOf(41) == 'p' && Base64.CharOf(34) == 'i';
    assert Base64.EncodeTriple(97, 58, 98) == ['Y', 'T', 'p', 'i'];
    assert Base64.Encode([97, 58, 98]) == "YTpi";
  }

  /** The token decodes (Base64, then UTF-8) to exactly the login it was made from. */
  lemma TokenDecodesToLogin(creds: Credentials)
    ensures Base64.Decode(CompanyFileToken(creds)).Some?
    ensures Utf8.Decode(Base64.Decode(CompanyFileToken(creds)).value) == Some(CompanyFileLogin(creds))
  {
    Utf8.RoundTrip(CompanyFileLogin(creds));
    Base64.RoundTrip(Utf8.Encode(CompanyFileLogin(creds)));
  }

  /** Two credential sets produce the same token exactly when their logins agree. */
  lemma TokenDeterminesLogin(a: Credentials, b: Credentials)
    ensures CompanyFileToken(a) == CompanyFileToken(b) <==> CompanyFileLogin(a) == CompanyFileLogin(b)
  {
    TokenDecodesToLogin(a);
    TokenDecodesToLogin(b);
  }

  const VersionHeader := "x-myobapi-version"
  const TokenHeader := "x-myobapi-cftoken"
  const KeyHeader := "x-myobapi-key"
  const ContentTypeHeader := "Content-Type"
  const AcceptHeader := "Accept"
  const JsonMediaType := "application/json"

  /** The headers sent with every MYOB call. */
  function Headers(creds: Credentials): (h: map<string, string>)
    ensures h.Keys == {VersionHeader, TokenHeader, KeyHeader, ContentTypeHeader, AcceptHeader}
    ensures h[VersionHeader] == "v2"
    ensures h[KeyHeader] == FieldText(creds, "clientId")
    ensures h[ContentTypeHeader] == JsonMediaType && h[AcceptHeader] == JsonMediaType
    ensures h[TokenHeader] == CompanyFileToken(creds)
  {
    map[
      VersionHeader := "v2",
      TokenHeader := CompanyFileToken(creds),
      KeyHeader := FieldText(creds, "clientId"),
      ContentTypeHeader := JsonMediaType,
      AcceptHeader := JsonMediaType
    ]
  }

  /** The options object handed to the host's request helper. */
  datatype RequestOptions = RequestOptions(
    httpMethod: string,
    uri: string,
    qs: map<string, Value>,
    body: Value,
    json: bool,
    headers: map<string, string>,
    returnFullResponse: bool)

  function BuildOptions(creds: Credentials, httpMethod: string, resource: string, body: Value,
                        qs: map<string, Value>, baseUrl: string): (o: RequestOptions)
    ensures |o.uri| == |baseUrl| + |resource|
    ensures o.uri[..|baseUrl|] == baseUrl && o.uri[|baseUrl|..] == resource
    ensures o.httpMethod == httpMethod && o.qs == qs && o.body == body
    ensures o.json && o.returnFullResponse
    ensures o.headers == Headers(creds)
  {
    RequestOptions(httpMethod, baseUrl + resource, qs, body, true, Headers(creds), true)
  }

  /** What the host's request helper does: hand back a value or throw one. */
  datatype HostOutcome = Returned(response: Value) | Threw(error: Value)

  /** The answer made up for a POST that came back `undefined`. */
  const SyntheticCreated: Value := Obj(map[
    "statusCode" := Num(201.0),
    "statusMessage" := Str("Created"),
    "body" := Null,
    "headers" := EmptyObject,
    "_synthetic" := Bool(true)
  ])

  /** A full response: a truthy object carrying both `body` and `statusCode`. */
  predicate IsFullResponse(v: Value): (b: bool)
    ensures b <==> v.Obj? && "body" in v.fields && "statusCode" in v.fields
  {
    Truthy(v) && IsObjectType(v) && HasKey(v, "body") && HasKey(v, "statusCode")
  }

  /** Post-processing of the host's answer. */
  function PostProcess(httpMethod: string, response: Value): (r: Value)
    ensures response.Undefined? && httpMethod == "POST" ==> r == SyntheticCreated
    ensures response.Obj? && "body" in response.fields && "statusCode" in response.fields ==>
              r == if httpMethod == "GET" then response.fields["body"] else response
    ensures !(response.Undefined? && httpMethod == "POST") && !IsFullResponse(response) ==> r == response
  {
    if response.Undefined? && httpMethod == "POST" then SyntheticCreated
    else if IsFullResponse(response) then
      if httpMethod == "GET" then response.fields["body"] else response
    else response
  }

  /** The synthetic answer looks like a full response itself. */
  lemma SyntheticIsFullResponse()
    ensures IsFullResponse(SyntheticCreated)
    ensures SyntheticCreated.fields["statusCode"] == Num(201.0)
    ensures SyntheticCreated.fields["body"] == Null
  {
  }

  /** A POST never yields `undefined`; any other method passes an `undefined` answer through. */
  lemma PostNeverUndefined(httpMethod: string, response: Value)
    ensures !PostProcess("POST", response).Undefined?
    ensures httpMethod != "POST" ==> PostProcess(httpMethod, Undefined) == Undefined
  {
  }

  /** Outside GET, post-processing a post-processed answer changes nothing. */
  lemma PostProcessIdempotent(httpMethod: string, response: Value)
    requires httpMethod != "GET"
    ensures PostProcess(httpMethod, PostProcess(httpMethod, response)) == PostProcess(httpMethod, response)
  {
    SyntheticIsFullResponse();
  }

  /** For GET it is not: a full response whose body is itself one is unwrapped twice. */
  lemma GetNotIdempotent()
    ensures var inner := Obj(map["body" := Str("x"), "statusCode" := Num(200.0)]);
            var outer := Obj(map["body" := inner, "statusCode" := Num(200.0)]);
            PostProcess("GET", PostProcess("GET", outer)) != PostProcess("GET", outer)
  {
    var inner := Obj(map["body" := Str("x"), "statusCode" := Num(200.0)]);
    var outer := Obj(map["body" := inner, "statusCode" := Num(200.0)]);
    assert PostProcess("GET", outer) == inner;
    assert PostProcess("GET", inner) == Str("x");
  }

  /**
   * `myobRequest`: the host sees the options built above; what it throws is
   * re-thrown as is, what it returns is post-processed.
   */
  function Request(creds: Credentials, httpMethod: string, resource: string, body: Value,
                   qs: map<string, Value>, baseUrl: string,
                   host: RequestOptions -> HostOutcome): (r: Result<Value, Value>)
    ensures var o := host(BuildOptions(creds, httpMethod, resource, body, qs, baseUrl));
            && (o.Threw? ==> r == Failure(o.error))
            && (o.Returned? ==> r == Success(PostProcess(httpMethod, o.response)))
  {
    match host(BuildOptions(creds, httpMethod, resource, body, qs, baseUrl))
    case Threw(e) => Failure(e)
    case Returned(v) => Success(PostProcess(httpMethod, v))
  }
}
