/** The `rest` client (internal/rest/client.go): building a request from a
    route, signing it with AWS Signature Version 4, and sending it. Calls into
    library code go through an `Http.Library`; what the client makes happen
    outside the process is recorded, in order, in a `Host`. */
module Rest {
  import opened Base
  import opened Http

  /** rest.Result: what sending one request produced. It is returned even
      when the transport failed; `err` then holds the transport's error. */
  datatype Result = Result(response: Option<Response>, elapsed: nat, err: Option<Error>)

  /** An action with an effect outside the process. */
  datatype Effect =
    | SignAttempt(call: SignCall)              // credentials resolved and Sign called
    | Sent(request: Request, result: Result)   // one http.Client.Do call

  /** The value computed by an operation together with the effects it had,
      oldest first. */
  datatype Step<+T> = Step(outcome: Outcome<T>, effects: seq<Effect>)

  /** The machine the client runs on: the library behaviour it sees and the
      record of every effect so far. The length of the record is the moment
      handed to the signer and the transport. */
  class Host {
    const lib: Library
    var log: seq<Effect>

    constructor (lib: Library)
      ensures this.lib == lib && log == []
    {
      this.lib := lib;
      log := [];
    }
  }

  /** The AWS service name every signature is made for. */
  const ExecuteAPI: string := "execute-api"

  /** The timeout of the http.Client NewClient makes when given none. */
  const DefaultTimeout: nat := 10 * Second

  /** The header set http.NewRequest gives a fresh request. */
  const DefaultHeader: Header := map[]

  /** The bytes a signer reads from bytes.NewReader(body); a nil slice reads
      as no bytes at all. */
  function Payload(body: Option<Bytes>): Bytes
  {
    if body.Some? then body.value else []
  }

  /** NewClient: a nil http.Client is replaced by one with a ten-second
      timeout; any other is used as it is. */
  function NewClient(httpClient: Option<HttpClient>): (c: Client)
    ensures httpClient.None? ==> c.httpClient.timeout == 10 * Second
    ensures httpClient.Some? ==> c.httpClient == httpClient.value
  {
    if httpClient.None? then Client(HttpClient(DefaultTimeout)) else Client(httpClient.value)
  }

  datatype Client = Client(httpClient: HttpClient) {

    /** BuildRequest: parse the route, create the request with the given
        bytes as its body, and install the caller's header set in place of
        the default one. */
    function BuildRequest(lib: Library, verb: string, url: string,
                          json: Option<Bytes>, header: Option<Header>): (r: Outcome<Request>)
      ensures lib.parseURL(url).Err? ==> r == Err(lib.parseURL(url).error)
      ensures r.Ok? <==>
                lib.parseURL(url).Ok? && lib.newRequest(verb, lib.parseURL(url).value, json).None?
      ensures lib.parseURL(url).Ok? && lib.newRequest(verb, lib.parseURL(url).value, json).Some? ==>
                r == Err(lib.newRequest(verb, lib.parseURL(url).value, json).value)
      ensures r.Ok? ==> r.value.verb == verb && lib.parseURL(url) == Ok(r.value.url)
      ensures r.Ok? ==> (r.value.body.None? <==> json.None?)
      ensures r.Ok? && json.Some? ==> r.value.body == Some(json.value)
      ensures r.Ok? && header.Some? ==> r.value.header == header.value
      ensures r.Ok? && header.None? ==> r.value.header == DefaultHeader
    {
      match lib.parseURL(url)
      case Err(e) => Err(e)
      case Ok(u) =>
        match lib.newRequest(verb, u, json)
        case Some(e) => Err(e)
        case None =>
          var req := Request(verb, u, DefaultHeader, json);
          Ok(if header.Some? then req.(header := header.value) else req)
    }

    /** The Sign call SignRequest makes, or the error it returns before
        looking up any credential. */
    function SignCallFor(req: Request, body: Option<Bytes>, region: string,
                         profile: string, moment: nat): (r: Outcome<SignCall>)
      ensures r.Err? <==> region == ""
      ensures r.Err? ==> r.error == MissingRegion
      ensures r.Ok? ==> r.value.service == ExecuteAPI && r.value.region == region
      ensures r.Ok? ==> r.value.request == req && r.value.payload == Payload(body)
      ensures r.Ok? ==> r.value.moment == moment
      ensures r.Ok? ==> (r.value.credentials.SharedCredentials? <==> profile != "")
      ensures r.Ok? && profile != "" ==> r.value.credentials == SharedCredentials("", profile)
    {
      if region == "" then Err(MissingRegion)
      else
        var provider := if profile != "" then SharedCredentials("", profile) else EnvCredentials;
        Ok(SignCall(req, Payload(body), ExecuteAPI, region, provider, moment))
    }

    /** What SignRequest does at a given moment: the signed request or the
        error, and the Sign call it made, if any. */
    function Signing(lib: Library, req: Request, body: Option<Bytes>, region: string,
                     profile: string, moment: nat): (s: Step<Request>)
      ensures region == "" ==> s == Step(Err(MissingRegion), [])
      ensures region != "" ==>
                && |s.effects| == 1 && s.effects[0].SignAttempt?
                && s.effects[0].call == SignCallFor(req, body, region, profile, moment).value
      ensures region != "" ==>
                var call := SignCallFor(req, body, region, profile, moment).value;
                && (s.outcome.Ok? <==> lib.sign(call).Ok?)
                && (s.outcome.Err? ==> s.outcome.error == lib.sign(call).error)
                && (s.outcome.Ok? ==> s.outcome.value.header == req.header + lib.sign(call).value)
      ensures s.outcome.Ok? ==>
                && s.outcome.value.verb == req.verb
                && s.outcome.value.url == req.url
                && s.outcome.value.body == req.body
                && req.header.Keys <= s.outcome.value.header.Keys
    {
      match SignCallFor(req, body, region, profile, moment)
      case Err(e) => Step(Err(e), [])
      case Ok(call) =>
        match lib.sign(call)
        case Err(e) => Step(Err(e), [SignAttempt(call)])
        case Ok(added) => Step(Ok(req.(header := req.header + added)), [SignAttempt(call)])
    }

    /** SignRequest: reject an empty region, choose the credential source
        from the profile, and sign the request over `body` for the
        execute-api service; the signer sets its headers on the request. */
    method SignRequest(host: Host, req: Request, body: Option<Bytes>, region: string,
                       profile: string) returns (r: Outcome<Request>)
      modifies host
      ensures r == Signing(host.lib, req, body, region, profile, |old(host.log)|).outcome
      ensures host.log ==
                old(host.log) + Signing(host.lib, req, body, region, profile, |old(host.log)|).effects
    {
      if region == "" {
        return Err(MissingRegion);
      }
      var provider: CredentialProvider;
      if profile != "" {
        provider := SharedCredentials("", profile);
      } else {
        provider := EnvCredentials;
      }
      var call := SignCall(req, Payload(body), ExecuteAPI, region, provider, |host.log|);
      host.log := host.log + [SignAttempt(call)];
      var signed := host.lib.sign(call);
      if signed.Err? {
        return Err(signed.error);
      }
      r := Ok(req.(header := req.header + signed.value));
    }

    /** The Result SendRequest returns for a transport call at `moment`. */
    function Delivery(lib: Library, req: Request, moment: nat): (r: Result)
      ensures r.response == lib.roundTrip(httpClient, req, moment).response
      ensures r.err == lib.roundTrip(httpClient, req, moment).err
      ensures r.elapsed == lib.roundTrip(httpClient, req, moment).took
    {
      var ex := lib.roundTrip(httpClient, req, moment);
      Result(ex.response, ex.took, ex.err)
    }

    /** SendRequest: one transport call, timed; its response and error are
        wrapped in the Result, never returned separately. */
    method SendRequest(host: Host, req: Request) returns (r: Result)
      modifies host
      ensures r == Delivery(host.lib, req, |old(host.log)|)
      ensures host.log == old(host.log) + [Sent(req, r)]
    {
      var ex := host.lib.roundTrip(httpClient, req, |host.log|);
      r := Result(ex.response, ex.took, ex.err);
      host.log := host.log + [Sent(req, r)];
    }
  }

  // Routes. ParseURL's body is not part of this model; its documented
  // behaviour (internal/command/build.go, the root command's help text) is:
  // an http:// or https:// URL is used as it is, ":port/path" means
  // http://localhost:port/path and "/path" means http://localhost:80/path.

  /** The number of decimal digits at the start of `s`. */
  function DigitRun(s: string): (n: nat)
    ensures n <= |s|
    ensures forall i :: 0 <= i < n ==> '0' <= s[i] <= '9'
    ensures n < |s| ==> !('0' <= s[n] <= '9')
  {
    if s != [] && '0' <= s[0] <= '9' then 1 + DigitRun(s[1..]) else 0
  }

  predicate IsPortRoute(route: string)
  {
    && |route| > 0 && route[0] == ':'
    && 0 < DigitRun(route[1..]) < |route| - 1
    && route[1 + DigitRun(route[1..])] == '/'
  }

  /** The URL a route documentedly stands for; None for routes of no
      documented form. */
  function DocumentedURL(route: string): (u: Option<string>)
    ensures u.Some? <==>
              "http://" <= route || "https://" <= route || IsPortRoute(route) ||
              (|route| > 0 && route[0] == '/')
    ensures u.Some? ==> "http://" <= u.value || "https://" <= u.value
  {
    if "http://" <= route || "https://" <= route then Some(route)
    else if IsPortRoute(route) then Some("http://localhost" + route)
    else if |route| > 0 && route[0] == '/' then Some("http://localhost:80" + route)
    else None
  }

  /** Whenever ParseURL accepts a route of a documented form, it gives that
      route's documented URL. It may still reject a malformed route of a
      documented form, such as "http:// bad host". */
  ghost predicate ParsesAsDocumented(parse: string -> Outcome<string>)
  {
    forall route :: DocumentedURL(route).Some? && parse(route).Ok? ==>
                      parse(route).value == DocumentedURL(route).value
  }

  lemma AbsoluteRouteIsUnchanged(route: string)
    requires "http://" <= route || "https://" <= route
    ensures DocumentedURL(route) == Some(route)
  {
  }

  lemma {:induction false} DigitRunStopsAtSlash(port: string, rest: string)
    requires forall i :: 0 <= i < |port| ==> '0' <= port[i] <= '9'
    ensures DigitRun(port + "/" + rest) == |port|
  {
    if port != [] {
      assert (port + "/" + rest)[1..] == port[1..] + "/" + rest;
      DigitRunStopsAtSlash(port[1..], rest);
    }
  }

  lemma PortRouteGoesToLocalhost(port: string, path: string)
    requires |port| > 0 && forall i :: 0 <= i < |port| ==> '0' <= port[i] <= '9'
    ensures DocumentedURL(":" + port + "/" + path) == Some("http://localhost:" + port + "/" + path)
  {
    var route := ":" + port + "/" + path;
    assert route[1..] == port + "/" + path;
    DigitRunStopsAtSlash(port, path);
    assert !("http://" <= route) && !("https://" <= route) by {
      assert route[0] == ':';
    }
    assert "http://localhost" + route == "http://localhost:" + port + "/" + path;
  }

  lemma PathRouteGoesToPort80(path: string)
    ensures DocumentedURL("/" + path) == Some("http://localhost:80/" + path)
  {
    var route := "/" + path;
    assert route[0] == '/';
    assert !IsPortRoute(route);
    assert "http://localhost:80" + route == "http://localhost:80/" + path;
  }

  /** When ParseURL follows its documentation, a built request's URL is the
      documented URL of its route; a route ParseURL accepts is built exactly
      when NewRequest accepts that URL. */
  lemma BuildRequestFollowsRoutes(lib: Library, c: Client, verb: string, route: string,
                                  json: Option<Bytes>, header: Option<Header>)
    requires ParsesAsDocumented(lib.parseURL) && DocumentedURL(route).Some?
    ensures var u := DocumentedURL(route).value;
            lib.parseURL(route).Ok? ==>
              (c.BuildRequest(lib, verb, route, json, header).Ok? <==> lib.newRequest(verb, u, json).None?)
    ensures c.BuildRequest(lib, verb, route, json, header).Ok? ==>
              c.BuildRequest(lib, verb, route, json, header).value.url == DocumentedURL(route).value
  {
  }
}
