/**
 * API-key creation: the `createApiKey` service call and the Docs page that performs the same
 * request itself. Both send a POST to `<base>/add-client` authenticated with HTTP Basic
 * credentials (section 2 of RFC 7617: "Basic " followed by the Base64 of `user:password`)
 * and a JSON body holding only `client_email`. The network exchange is a parameter: either the
 * server's answer or a failure.
 */
module ApiKey {
  import opened Wrappers
  import opened Text
  import Base64

  const AddClientPath: string := "/add-client"
  const DocsBase: string := "http://localhost:8000"
  const BasicScheme: string := "Basic "
  const JsonContentType: string := "application/json"
  const Post: string := "POST"

  const ServiceFallback: string := "API key creation failed"
  const DocsFallback: string := "Failed to create API key"
  const ConnectFailure: string := "Failed to connect to the server"
  const MissingFields: string := "All fields are required"
  const Created: string := "API key created successfully!"

  datatype Header = Header(name: string, value: string)

  /** A request; the JSON body `{ client_email }` is represented by its one field. */
  datatype Request = Request(verb: string, url: string, headers: seq<Header>, clientEmail: string)

  /** The user-pass string of RFC 7617: the user id, a colon, the password. */
  function Credentials(user: string, pass: string): (c: string)
    ensures |c| == |user| + 1 + |pass| && c[|user|] == ':'
    ensures c[..|user|] == user && c[|user| + 1..] == pass
  {
    user + ":" + pass
  }

  /** The `Authorization` value; `None` when `btoa` throws on a non-Latin-1 character. */
  function BasicAuthorization(user: string, pass: string): (r: Option<string>)
    ensures r.Some? <==> Base64.IsLatin1(Credentials(user, pass))
    ensures r.Some? ==> |r.value| >= |BasicScheme| && r.value[..|BasicScheme|] == BasicScheme
    ensures r.Some? ==> Base64.Atob(r.value[|BasicScheme|..]) == Some(Credentials(user, pass))
  {
    match Base64.Btoa(Credentials(user, pass))
    case None => None
    case Some(encoded) =>
      var v := BasicScheme + encoded;
      assert v[..|BasicScheme|] == BasicScheme && v[|BasicScheme|..] == encoded;
      Some(v)
  }

  /** The request both callers build for `base`; `None` when the credentials cannot be encoded. */
  function BuildRequest(base: string, email: string, user: string, pass: string): (r: Option<Request>)
    ensures r.Some? <==> Base64.IsLatin1(Credentials(user, pass))
    ensures r.Some? ==> r.value.verb == Post && r.value.url == base + AddClientPath
    ensures r.Some? ==> r.value.clientEmail == email
    ensures r.Some? ==>
              && |r.value.headers| == 2
              && r.value.headers[0] == Header("Authorization", BasicAuthorization(user, pass).value)
              && r.value.headers[1] == Header("Content-Type", JsonContentType)
  {
    match BasicAuthorization(user, pass)
    case None => None
    case Some(auth) =>
      Some(Request(Post, base + AddClientPath,
        [Header("Authorization", auth), Header("Content-Type", JsonContentType)], email))
  }

  /** Splits at the first colon, as a server reading RFC 7617 credentials does. */
  function SplitAtFirstColon(s: string): (r: Option<(string, string)>)
    ensures r.Some? ==> ':' !in r.value.0 && s == r.value.0 + ":" + r.value.1
    ensures r.None? <==> ':' !in s
  {
    if |s| == 0 then None
    else if s[0] == ':' then Some(("", s[1..]))
    else match SplitAtFirstColon(s[1..])
      case None => None
      case Some((u, p)) => Some(([s[0]] + u, p))
  }

  /** A user id without a colon comes back whole, and so does the password (which may hold
      colons). */
  lemma {:induction false} SplitRecoversCredentials(user: string, pass: string)
    requires ':' !in user
    ensures SplitAtFirstColon(Credentials(user, pass)) == Some((user, pass))
    decreases |user|
  {
    if |user| > 0 {
      SplitRecoversCredentials(user[1..], pass);
      assert Credentials(user, pass)[1..] == Credentials(user[1..], pass);
      assert [user[0]] + user[1..] == user;
    } else {
      assert Credentials(user, pass) == ":" + pass;
    }
  }

  /** Decoding the header the client sends gives the server back the user id and password. */
  lemma AuthorizationRecoversCredentials(user: string, pass: string)
    requires ':' !in user && Base64.IsLatin1(Credentials(user, pass))
    ensures var h := BasicAuthorization(user, pass).value;
      && Base64.Atob(h[|BasicScheme|..]).Some?
      && SplitAtFirstColon(Base64.Atob(h[|BasicScheme|..]).value) == Some((user, pass))
  {
    SplitRecoversCredentials(user, pass);
  }

  /** The body the server returns: the key, and an optional `message`. */
  datatype Body = Body(apiKey: string, message: Option<string>)
  datatype Response = Response(ok: bool, body: Body)

  /** `data.message || fallback`: an absent or empty message falls back. */
  function ErrorText(message: Option<string>, fallback: string): (t: string)
    ensures fallback != "" ==> t != ""
    ensures message.Some? && Truthy(message.value) ==> t == message.value
    ensures (message.None? || message.value == "") ==> t == fallback
  {
    match message
    case Some(m) => if Truthy(m) then m else fallback
    case None => fallback
  }

  /** `createApiKey` once the server has answered: the body as it came on success, else the
      thrown error's message. */
  function ServiceOutcome(resp: Response): (r: Result<Body, string>)
    ensures r.Success? <==> resp.ok
    ensures r.Success? ==> r.value == resp.body
    ensures r.Failure? ==> r.error != "" && r.error == ErrorText(resp.body.message, ServiceFallback)
  {
    if resp.ok then Success(resp.body) else Failure(ErrorText(resp.body.message, ServiceFallback))
  }

  /** The network exchange: an answer, or a failure of `fetch` or of parsing the body. */
  datatype Exchange = Answered(resp: Response) | Unreachable

  datatype Toast = SuccessToast(text: string) | ErrorToast(text: string)

  /** The form's three fields. */
  datatype Fields = Fields(email: string, adminUsername: string, adminPassword: string)

  /** The Docs page: the loading flag, the request awaiting its answer, the stored response,
      and the toasts shown so far, oldest first. */
  datatype Docs = Docs(isLoading: bool, inFlight: Option<Request>, apiResponse: Option<Body>, toasts: seq<Toast>)

  const DocsInit: Docs := Docs(false, None, None, [])

  datatype Event = Click(fields: Fields) | Settle(exchange: Exchange)

  predicate AllFilled(f: Fields) {
    Truthy(f.email) && Truthy(f.adminUsername) && Truthy(f.adminPassword)
  }

  /** `handleCreateApiKey`. The button is disabled while loading, so a click then does nothing.
      A missing field stops before any request; a `btoa` failure lands in the catch at once. */
  function Apply(d: Docs, e: Event): (r: Docs)
    ensures e.Click? && !d.isLoading && AllFilled(e.fields) ==>
      var req := BuildRequest(DocsBase, e.fields.email, e.fields.adminUsername, e.fields.adminPassword);
      if req.Some? then r == d.(isLoading := true, inFlight := req)
      else r == d.(toasts := d.toasts + [ErrorToast(ConnectFailure)])
    ensures e.Click? && d.isLoading ==> r == d
    ensures r.inFlight.Some? && r.inFlight != d.inFlight ==> e.Click? && AllFilled(e.fields)
    ensures e.Click? && !d.isLoading && !AllFilled(e.fields) ==>
      r == d.(toasts := d.toasts + [ErrorToast(MissingFields)])
    ensures e.Settle? ==> !r.isLoading && r.inFlight.None?
    ensures r.apiResponse != d.apiResponse ==>
      && d.inFlight.Some? && e.Settle? && e.exchange.Answered? && e.exchange.resp.ok
      && r.apiResponse == Some(e.exchange.resp.body)
    ensures d.inFlight.Some? && e.Settle? && e.exchange.Answered? && e.exchange.resp.ok ==>
      r.apiResponse == Some(e.exchange.resp.body) && r.toasts == d.toasts + [SuccessToast(Created)]
    ensures d.inFlight.Some? && e.Settle? && e.exchange.Answered? && !e.exchange.resp.ok ==>
      r.toasts == d.toasts + [ErrorToast(ErrorText(e.exchange.resp.body.message, DocsFallback))]
    ensures d.inFlight.Some? && e == Settle(Unreachable) ==>
      r.toasts == d.toasts + [ErrorToast(ConnectFailure)] && r.apiResponse == d.apiResponse
  {
    match e
    case Click(f) =>
      if d.isLoading then d
      else if !AllFilled(f) then d.(toasts := d.toasts + [ErrorToast(MissingFields)])
      else
        var req := BuildRequest(DocsBase, f.email, f.adminUsername, f.adminPassword);
        if req.None? then d.(toasts := d.toasts + [ErrorToast(ConnectFailure)])
        else d.(isLoading := true, inFlight := req)
    case Settle(x) =>
      var done := d.(isLoading := false, inFlight := None);
      if d.inFlight.None? then done
      else match x
        case Unreachable => done.(toasts := d.toasts + [ErrorToast(ConnectFailure)])
        case Answered(resp) =>
          if resp.ok then done.(apiResponse := Some(resp.body), toasts := d.toasts + [SuccessToast(Created)])
          else done.(toasts := d.toasts + [ErrorToast(ErrorText(resp.body.message, DocsFallback))])
  }

  function Run(d: Docs, evs: seq<Event>): Docs
    decreases |evs|
  {
    if |evs| == 0 then d else Apply(Run(d, evs[..|evs| - 1]), evs[|evs| - 1])
  }

  /** Loading exactly while a request is in flight, and that request is a POST to the Docs
      server's `/add-client`. */
  predicate Inv(d: Docs) {
    && (d.isLoading <==> d.inFlight.Some?)
    && (d.inFlight.Some? ==> d.inFlight.value.verb == Post && d.inFlight.value.url == DocsBase + AddClientPath)
  }

  lemma {:induction false} RunKeepsInv(evs: seq<Event>)
    ensures Inv(Run(DocsInit, evs))
    decreases |evs|
  {
    if |evs| > 0 {
      RunKeepsInv(evs[..|evs| - 1]);
    }
  }

  /** The Docs page sends the very request the service builds, with the Docs server as base;
      the guard does not trim, so whitespace-only fields get through. */
  lemma DocsRequestIsServiceRequest(f: Fields)
    requires AllFilled(f) && Base64.IsLatin1(Credentials(f.adminUsername, f.adminPassword))
    ensures Apply(DocsInit, Click(f)).isLoading
    ensures Apply(DocsInit, Click(f)).inFlight == BuildRequest(DocsBase, f.email, f.adminUsername, f.adminPassword)
  {
  }

  lemma WhitespaceFieldsPass()
    ensures Apply(DocsInit, Click(Fields(" ", " ", " "))).isLoading
  {
    assert Base64.IsLatin1(Credentials(" ", " "));
  }

  /** A failed attempt keeps the previously stored response. */
  lemma {:induction false} FailureKeepsResponse(evs: seq<Event>, x: Exchange)
    requires x.Unreachable? || !x.resp.ok
    ensures Run(DocsInit, evs + [Settle(x)]).apiResponse == Run(DocsInit, evs).apiResponse
    ensures !Run(DocsInit, evs + [Settle(x)]).isLoading
  {
    assert (evs + [Settle(x)])[..|evs|] == evs;
  }
}
