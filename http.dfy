/** The parts of Go's `net/http`, `encoding/json` and the AWS SDK that the
    client and the runner use, together with the one function of the `rest`
    package whose body is not modelled (ParseURL). Their behaviour is left
    uninterpreted: a `Library` value bundles one possible behaviour of each,
    and every property of the model holds for all of them. */
module Http {
  import opened Base

  /** An http.Header: canonical header name to its values, in the order
      they were added. */
  type Header = map<string, seq<string>>

  /** http.Header.Add: append `value` to the values of the canonical form of
      `key`, keeping the values already there. */
  function Add(canon: string -> string, h: Header, key: string, value: string): Header
  {
    var k := canon(key);
    h[k := (if k in h then h[k] else []) + [value]]
  }

  /** The part of an http.Request the core looks at. `body` is None when the
      request was created without a body reader. */
  datatype Request = Request(verb: string, url: string, header: Header, body: Option<Bytes>)

  datatype Response = Response(status: int, header: Header, body: Bytes)

  /** An http.Client; only its timeout, in nanoseconds, matters here. */
  datatype HttpClient = HttpClient(timeout: nat)

  /** time.Second, in nanoseconds. */
  const Second: nat := 1_000_000_000

  /** What one http.Client.Do call produced, and the wall-clock time that
      passed between just before the call and just after it returned. */
  datatype Exchange = Exchange(response: Option<Response>, err: Option<Error>, took: nat)

  /** Where the SigV4 signer takes its credentials from. */
  datatype CredentialProvider =
    | SharedCredentials(filename: string, profile: string)   // "" is the default file
    | EnvCredentials

  /** The arguments of one SigV4 Sign call: the request, the bytes read from
      the body reader, the service name, the region, the credential source
      and the moment (the position of the call in the host's record of
      effects, standing for time.Now()). */
  datatype SignCall = SignCall(
    request: Request,
    payload: Bytes,
    service: string,
    region: string,
    credentials: CredentialProvider,
    moment: nat)

  /** A request target's declared JSON body, as the spec file gave it; only
      json.Marshal interprets it. */
  type Document = string

  /** One behaviour of each collaborator whose code is outside the model.
      - parseURL: rest.ParseURL, route string to URL or error;
      - newRequest: whether http.NewRequest(method, url, body) fails;
      - canonicalKey: textproto's canonical form of a header name;
      - marshal: json.Marshal;
      - sign: SigV4 Sign, the headers it sets on success;
      - roundTrip: http.Client.Do at a moment, with its duration. */
  datatype Library = Library(
    parseURL: string -> Outcome<string>,
    newRequest: (string, string, Option<Bytes>) -> Option<Error>,
    canonicalKey: string -> string,
    marshal: Document -> Outcome<Bytes>,
    sign: SignCall -> Outcome<Header>,
    roundTrip: (HttpClient, Request, nat) -> Exchange)
}
