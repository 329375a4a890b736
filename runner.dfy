/** The batch runner (internal/runner/runner.go): resolve the targets of a
    run against a spec's ordered list of request targets, then build, sign
    and send them one after the other, stopping at the first target whose
    body cannot be marshalled or whose request cannot be built or signed.
    A runner that has completed a run must not run again; a run that fails
    leaves it runnable. */
module Runner {
  import opened Base
  import opened Http
  import opened Rest

  const MethodPost: string := "POST"
  const ContentTypeKey: string := "Content-type"
  const JsonMediaType: string := "application/json"

  /** The AWS signing settings of a target. */
  datatype AWSSign = AWSSign(region: string, profile: string)

  /** A declared request target. Its declaration is not part of this model;
      `headers` lists the declared headers in the order a range over them
      visits them, and `aws` is None when the target is not signed
      (GetAWSSign returns the settings held in `aws`). */
  datatype RequestTarget = RequestTarget(
    id: string,
    verb: string,
    url: string,
    headers: seq<(string, string)>,
    body: Document,
    aws: Option<AWSSign>)

  /** The ordered request targets a runner works on. */
  class Spec {
    var requests: seq<RequestTarget>

    constructor (requests: seq<RequestTarget>)
      ensures this.requests == requests
    {
      this.requests := requests;
    }
  }

  // ----- Target resolution -----

  /** The first target in `requests` whose ID is `id`. */
  function Lookup(requests: seq<RequestTarget>, id: string): (r: Outcome<RequestTarget>)
    ensures r.Ok? ==> r.value.id == id
    ensures r.Ok? ==>
              exists i :: 0 <= i < |requests| && requests[i] == r.value &&
                          forall j :: 0 <= j < i ==> requests[j].id != id
    ensures r.Err? ==> r.error == UnknownRequestID(id)
    ensures r.Err? <==> forall j :: 0 <= j < |requests| ==> requests[j].id != id
  {
    if requests == [] then Err(UnknownRequestID(id))
    else if requests[0].id == id then Ok(requests[0])
    else
      var r := Lookup(requests[1..], id);
      assert forall j :: 1 <= j < |requests| ==> requests[1..][j - 1] == requests[j];
      if r.Ok? then
        ghost var i :| 0 <= i < |requests| - 1 && requests[1..][i] == r.value &&
                       forall j :: 0 <= j < i ==> requests[1..][j].id != id;
        assert requests[i + 1] == r.value;
        r
      else r
  }

  /** The targets named by `ids`, in the order the IDs are given, or the
      error for the first ID that names none (FirstUnknownAborts). */
  function ResolveIds(requests: seq<RequestTarget>, ids: seq<string>): (r: Outcome<seq<RequestTarget>>)
    ensures r.Ok? <==> forall i :: 0 <= i < |ids| ==> Lookup(requests, ids[i]).Ok?
    ensures r.Ok? ==> |r.value| == |ids|
    ensures r.Ok? ==> forall i :: 0 <= i < |ids| ==> r.value[i] == Lookup(requests, ids[i]).value
  {
    if ids == [] then Ok([])
    else
      var front := ids[..|ids| - 1];
      assert forall i :: 0 <= i < |front| ==> front[i] == ids[i];
      match ResolveIds(requests, front)
      case Err(e) => Err(e)
      case Ok(ts) =>
        match Lookup(requests, ids[|ids| - 1])
        case Err(e) => Err(e)
        case Ok(t) => Ok(ts + [t])
  }

  /** The targets a run executes: every target of the spec in declaration
      order when no ID is given, the named ones otherwise. */
  function Resolve(requests: seq<RequestTarget>, ids: seq<string>): (r: Outcome<seq<RequestTarget>>)
    ensures |ids| == 0 ==> r == Ok(requests)
    ensures |ids| > 0 ==> (r.Ok? <==> forall i :: 0 <= i < |ids| ==> Lookup(requests, ids[i]).Ok?)
    ensures |ids| > 0 && r.Ok? ==>
              |r.value| == |ids| && forall i :: 0 <= i < |ids| ==> r.value[i] == Lookup(requests, ids[i]).value
  {
    if |ids| > 0 then ResolveIds(requests, ids) else Ok(requests)
  }

  /** Resolution stops at the first unknown ID and reports it. */
  lemma {:induction false} FirstUnknownAborts(requests: seq<RequestTarget>, ids: seq<string>, i: nat)
    requires i < |ids|
    requires ResolveIds(requests, ids[..i]).Ok?
    requires Lookup(requests, ids[i]).Err?
    ensures ResolveIds(requests, ids) == Err(UnknownRequestID(ids[i]))
  {
    var front := ids[..|ids| - 1];
    if i == |ids| - 1 {
      assert front == ids[..i];
    } else {
      assert front[..i] == ids[..i] && front[i] == ids[i];
      FirstUnknownAborts(requests, front, i);
    }
  }

  // ----- The per-target pipeline -----

  /** The values declared for `key` (a canonical header name), in order. */
  function ValuesFor(canon: string -> string, pairs: seq<(string, string)>, key: string): (r: seq<string>)
    ensures r == [] <==> forall i :: 0 <= i < |pairs| ==> canon(pairs[i].0) != key
  {
    if pairs == [] then []
    else
      var last := pairs[|pairs| - 1];
      var front := pairs[..|pairs| - 1];
      assert forall i :: 0 <= i < |front| ==> front[i] == pairs[i];
      ValuesFor(canon, front, key) + (if canon(last.0) == key then [last.1] else [])
  }

  /** The header set built by adding the declared pairs one by one. */
  function HeaderFromPairs(canon: string -> string, pairs: seq<(string, string)>): (h: Header)
    ensures h.Keys == set i | 0 <= i < |pairs| :: canon(pairs[i].0)
  {
    if pairs == [] then map[]
    else
      var last := pairs[|pairs| - 1];
      Add(canon, HeaderFromPairs(canon, pairs[..|pairs| - 1]), last.0, last.1)
  }

  /** Adding the declared pairs one by one groups them: a canonical name is
      present exactly when some pair has it, with that name's values in
      declaration order. */
  lemma {:induction false} HeaderFromPairsGroups(canon: string -> string, pairs: seq<(string, string)>)
    ensures forall k :: k in HeaderFromPairs(canon, pairs) <==> ValuesFor(canon, pairs, k) != []
    ensures forall k :: k in HeaderFromPairs(canon, pairs) ==>
                          HeaderFromPairs(canon, pairs)[k] == ValuesFor(canon, pairs, k)
  {
    if pairs != [] {
      HeaderFromPairsGroups(canon, pairs[..|pairs| - 1]);
    }
  }

  /** The loop at the top of `run` that copies the declared headers. */
  method BuildHeader(canon: string -> string, pairs: seq<(string, string)>) returns (header: Header)
    ensures header == HeaderFromPairs(canon, pairs)
  {
    header := map[];
    var i := 0;
    while i < |pairs|
      invariant 0 <= i <= |pairs|
      invariant header == HeaderFromPairs(canon, pairs[..i])
    {
      assert pairs[..i + 1][..i] == pairs[..i];
      header := Add(canon, header, pairs[i].0, pairs[i].1);
      i := i + 1;
    }
    assert pairs[..i] == pairs;
  }

  /** The body and header `run` builds the request from: POST targets get
      their marshalled body and an added JSON content type, others neither. */
  function Prepare(lib: Library, t: RequestTarget): (r: Outcome<(Option<Bytes>, Header)>)
    ensures r.Ok? <==> (t.verb == MethodPost ==> lib.marshal(t.body).Ok?)
    ensures r.Err? ==> r.error == lib.marshal(t.body).error
    ensures r.Ok? ==> (r.value.0.Some? <==> t.verb == MethodPost)
    ensures r.Ok? && t.verb == MethodPost ==> r.value.0 == Some(lib.marshal(t.body).value)
  {
    var header := HeaderFromPairs(lib.canonicalKey, t.headers);
    if t.verb == MethodPost then
      match lib.marshal(t.body)
      case Err(e) => Err(e)
      case Ok(bytes) => Ok((Some(bytes), Add(lib.canonicalKey, header, ContentTypeKey, JsonMediaType)))
    else Ok((None, header))
  }

  /** A target that is not a POST gets no body and exactly its declared
      headers. */
  lemma NonPostIsSentAsDeclared(lib: Library, t: RequestTarget)
    requires t.verb != MethodPost
    ensures Prepare(lib, t).Ok? && Prepare(lib, t).value.0.None?
    ensures var h := Prepare(lib, t).value.1;
            forall k :: (k in h <==> ValuesFor(lib.canonicalKey, t.headers, k) != []) &&
                        (k in h ==> h[k] == ValuesFor(lib.canonicalKey, t.headers, k))
  {
    HeaderFromPairsGroups(lib.canonicalKey, t.headers);
  }

  /** A POST target fails exactly when marshalling fails; otherwise its body
      is the marshalled bytes and "application/json" follows any declared
      content type, every other header being as declared. */
  lemma PostCarriesJsonContentType(lib: Library, t: RequestTarget)
    requires t.verb == MethodPost
    ensures Prepare(lib, t).Ok? <==> lib.marshal(t.body).Ok?
    ensures Prepare(lib, t).Err? ==> Prepare(lib, t).error == lib.marshal(t.body).error
    ensures Prepare(lib, t).Ok? ==>
              var canon := lib.canonicalKey;
              var ct := canon(ContentTypeKey);
              var h := Prepare(lib, t).value.1;
              && Prepare(lib, t).value.0 == Some(lib.marshal(t.body).value)
              && ct in h && h[ct] == ValuesFor(canon, t.headers, ct) + [JsonMediaType]
              && forall k :: k != ct ==>
                   (k in h <==> ValuesFor(canon, t.headers, k) != []) &&
                   (k in h ==> h[k] == ValuesFor(canon, t.headers, k))
  {
    HeaderFromPairsGroups(lib.canonicalKey, t.headers);
  }

  /** The signing step of `run`: a target with AWS settings is signed over
      the body bytes the request was built with; any other passes unsigned. */
  function SignIfConfigured(lib: Library, client: Client, t: RequestTarget, req: Request,
                            body: Option<Bytes>, moment: nat): (s: Step<Request>)
    ensures |s.effects| <= 1 && forall e :: e in s.effects ==> e.SignAttempt?
    ensures t.aws.None? ==> s == Step(Ok(req), [])
    ensures t.aws.Some? ==>
              s == client.Signing(lib, req, body, t.aws.value.region, t.aws.value.profile, moment)
    ensures s.outcome.Ok? ==>
              && s.outcome.value.verb == req.verb
              && s.outcome.value.url == req.url
              && s.outcome.value.body == req.body
              && req.header.Keys <= s.outcome.value.header.Keys
  {
    if t.aws.Some? then client.Signing(lib, req, body, t.aws.value.region, t.aws.value.profile, moment)
    else Step(Ok(req), [])
  }

  /** What `run` does for one target at a moment: the Result of sending it,
      or the error that stopped it, and the effects it had. */
  function TargetRun(lib: Library, client: Client, t: RequestTarget, moment: nat): (s: Step<Result>)
  {
    match Prepare(lib, t)
    case Err(e) => Step(Err(e), [])
    case Ok((body, header)) =>
      match client.BuildRequest(lib, t.verb, t.url, body, Some(header))
      case Err(e) => Step(Err(e), [])
      case Ok(req) =>
        var signing := SignIfConfigured(lib, client, t, req, body, moment);
        match signing.outcome
        case Err(e) => Step(Err(e), signing.effects)
        case Ok(signed) =>
          var res := client.Delivery(lib, signed, moment + |signing.effects|);
          Step(Ok(res), signing.effects + [Sent(signed, res)])
  }

  /** `run`: copy the declared headers; for a POST marshal the body and add
      the JSON content type; build the request; sign it over the same body
      bytes when the target has AWS settings; send it. Any error returns at
      once, before anything is sent. */
  method RunTarget(host: Host, client: Client, t: RequestTarget) returns (r: Outcome<Result>)
    modifies host
    ensures r == Pipeline(host.lib, client)(t, |old(host.log)|).outcome
    ensures host.log == old(host.log) + Pipeline(host.lib, client)(t, |old(host.log)|).effects
  {
    var header := BuildHeader(host.lib.canonicalKey, t.headers);
    var body: Option<Bytes> := None;
    if t.verb == MethodPost {
      var encoded := host.lib.marshal(t.body);
      if encoded.Err? {
        return Err(encoded.error);
      }
      body := Some(encoded.value);
      header := Add(host.lib.canonicalKey, header, ContentTypeKey, JsonMediaType);
    }
    var built := client.BuildRequest(host.lib, t.verb, t.url, body, Some(header));
    if built.Err? {
      return Err(built.error);
    }
    var req := built.value;
    if t.aws.Some? {
      var aws := t.aws.value;
      var signed := client.SignRequest(host, req, body, aws.region, aws.profile);
      if signed.Err? {
        return Err(signed.error);
      }
      req := signed.value;
    }
    var res := client.SendRequest(host, req);
    r := Ok(res);
  }

  // ----- Effects -----

  /** The transport calls among `effects`, in order. */
  function Sends(effects: seq<Effect>): (r: seq<Effect>)
    ensures |r| <= |effects|
    ensures forall e :: e in r ==> e.Sent?
  {
    if effects == [] then []
    else
      var last := effects[|effects| - 1];
      Sends(effects[..|effects| - 1]) + (if last.Sent? then [last] else [])
  }

  lemma {:induction false} SendsAppend(a: seq<Effect>, b: seq<Effect>)
    ensures Sends(a + b) == Sends(a) + Sends(b)
  {
    if b != [] {
      assert (a + b)[..|a + b| - 1] == a + b[..|b| - 1];
      SendsAppend(a, b[..|b| - 1]);
    } else {
      assert a + b == a;
    }
  }

  /** `e` is the transport call made for target `t`: same method, the URL
      its route parses to, and the body `run` prepares for it. */
  ghost predicate SentFor(lib: Library, e: Effect, t: RequestTarget)
  {
    && e.Sent?
    && e.request.verb == t.verb
    && lib.parseURL(t.url) == Ok(e.request.url)
    && (t.verb == MethodPost ==> lib.marshal(t.body).Ok? && e.request.body == Some(lib.marshal(t.body).value))
    && (t.verb != MethodPost ==> e.request.body.None?)
  }

  /** `s`, a step run for target `t`, sent exactly one request, for `t`,
      as its last effect if it succeeded, and none if it failed. */
  ghost predicate SendsLast(lib: Library, s: Step<Result>, t: RequestTarget)
  {
    && (s.outcome.Ok? ==>
          && |s.effects| > 0
          && Sends(s.effects) == [s.effects[|s.effects| - 1]]
          && SentFor(lib, s.effects[|s.effects| - 1], t)
          && s.effects[|s.effects| - 1].result == s.outcome.value)
    && (s.outcome.Err? ==> Sends(s.effects) == [])
  }

  /** One target sends exactly one request, last, when it succeeds, and
      none when it fails. */
  lemma TargetRunSendsLast(lib: Library, client: Client, t: RequestTarget, moment: nat)
    ensures SendsLast(lib, TargetRun(lib, client, t, moment), t)
  {
    match Prepare(lib, t)
    case Err(_) =>
    case Ok((body, header)) =>
      match client.BuildRequest(lib, t.verb, t.url, body, Some(header))
      case Err(_) =>
      case Ok(req) =>
        var signing := SignIfConfigured(lib, client, t, req, body, moment);
        assert Sends(signing.effects) == [] by {
          if signing.effects != [] {
            assert signing.effects == [signing.effects[0]];
          }
        }
        if signing.outcome.Ok? {
          var signed := signing.outcome.value;
          var res := client.Delivery(lib, signed, moment + |signing.effects|);
          SendsAppend(signing.effects, [Sent(signed, res)]);
          assert Sends([Sent(signed, res)]) == [Sent(signed, res)] by {
            assert [Sent(signed, res)][..0] == [];
          }
          if t.verb == MethodPost {
            assert body == Some(lib.marshal(t.body).value);
          }
        }
  }

  /** Signing happens exactly for targets with AWS settings, for the
      execute-api service in the target's region, with the credential
      source its profile selects, over the very bytes that are sent. */
  lemma TargetRunSignsSentBody(lib: Library, client: Client, t: RequestTarget, moment: nat)
    ensures var s := TargetRun(lib, client, t, moment);
            t.aws.None? ==> forall e :: e in s.effects ==> e.Sent?
    ensures var s := TargetRun(lib, client, t, moment);
            t.aws.None? && s.outcome.Ok? ==>
              && |s.effects| == 1 && s.effects[0].request.header == Prepare(lib, t).value.1
              && s.effects[0].request == BuiltFor(lib, t)
    ensures var s := TargetRun(lib, client, t, moment);
            t.aws.Some? && s.outcome.Ok? ==>
              && |s.effects| == 2 && s.effects[0].SignAttempt? && s.effects[1].Sent?
              && s.effects[0].call.service == ExecuteAPI
              && s.effects[0].call.region == t.aws.value.region
              && s.effects[0].call.payload == Payload(s.effects[1].request.body)
              && s.effects[0].call.request.url == s.effects[1].request.url
              && Prepare(lib, t).value.1.Keys <= s.effects[1].request.header.Keys
              && (t.aws.value.profile != "" ==>
                    s.effects[0].call.credentials == SharedCredentials("", t.aws.value.profile))
              && (t.aws.value.profile == "" ==> s.effects[0].call.credentials == EnvCredentials)
              && s.effects[0].call.request == BuiltFor(lib, t)
              && lib.sign(s.effects[0].call).Ok?
              && s.effects[1].request ==
                   s.effects[0].call.request.(header := s.effects[0].call.request.header +
                                                        lib.sign(s.effects[0].call).value)
  {
    match Prepare(lib, t)
    case Err(_) =>
    case Ok((body, header)) =>
      match client.BuildRequest(lib, t.verb, t.url, body, Some(header))
      case Err(_) =>
      case Ok(req) =>
        assert req == BuiltFor(lib, t);
  }

  /** The request `run` builds for a target whose body could be prepared:
      its method, the URL its route parses to, the prepared header set and
      the prepared body. */
  function BuiltFor(lib: Library, t: RequestTarget): (req: Request)
    requires Prepare(lib, t).Ok? && lib.parseURL(t.url).Ok?
    ensures req.verb == t.verb && lib.parseURL(t.url) == Ok(req.url)
  {
    Request(t.verb, lib.parseURL(t.url).value, Prepare(lib, t).value.1, Prepare(lib, t).value.0)
  }

  /** When a target run succeeds and which error it fails with: marshalling,
      parsing the route, creating the request, a missing region and signing
      are the only failures, checked in that order; the transport is not
      one of them, so a Result carrying a transport error is a success. */
  lemma TargetRunSucceeds(lib: Library, client: Client, t: RequestTarget, moment: nat)
    ensures var s := TargetRun(lib, client, t, moment);
            s.outcome.Ok? <==>
              && Prepare(lib, t).Ok?
              && lib.parseURL(t.url).Ok?
              && lib.newRequest(t.verb, lib.parseURL(t.url).value, Prepare(lib, t).value.0).None?
              && (t.aws.Some? ==>
                    && t.aws.value.region != ""
                    && lib.sign(client.SignCallFor(BuiltFor(lib, t), Prepare(lib, t).value.0, t.aws.value.region,
                                            t.aws.value.profile, moment).value).Ok?)
    ensures var s := TargetRun(lib, client, t, moment);
            Prepare(lib, t).Err? ==> s.outcome == Err(lib.marshal(t.body).error)
    ensures var s := TargetRun(lib, client, t, moment);
            Prepare(lib, t).Ok? && lib.parseURL(t.url).Err? ==> s.outcome == Err(lib.parseURL(t.url).error)
    ensures var s := TargetRun(lib, client, t, moment);
            Prepare(lib, t).Ok? && lib.parseURL(t.url).Ok? &&
            lib.newRequest(t.verb, lib.parseURL(t.url).value, Prepare(lib, t).value.0).Some? ==>
              s.outcome == Err(lib.newRequest(t.verb, lib.parseURL(t.url).value, Prepare(lib, t).value.0).value)
    ensures var s := TargetRun(lib, client, t, moment);
            Prepare(lib, t).Ok? && lib.parseURL(t.url).Ok? &&
            lib.newRequest(t.verb, lib.parseURL(t.url).value, Prepare(lib, t).value.0).None? &&
            t.aws.Some? && t.aws.value.region == "" ==>
              s.outcome == Err(MissingRegion)
    ensures var s := TargetRun(lib, client, t, moment);
            Prepare(lib, t).Ok? && lib.parseURL(t.url).Ok? &&
            lib.newRequest(t.verb, lib.parseURL(t.url).value, Prepare(lib, t).value.0).None? &&
            t.aws.Some? && t.aws.value.region != "" ==>
              var call := client.SignCallFor(BuiltFor(lib, t), Prepare(lib, t).value.0, t.aws.value.region,
                                      t.aws.value.profile, moment).value;
              lib.sign(call).Err? ==> s.outcome == Err(lib.sign(call).error)
    ensures var s := TargetRun(lib, client, t, moment);
            s.outcome.Ok? ==>
              && |s.effects| > 0 && s.effects[|s.effects| - 1].Sent?
              && s.outcome.value ==
                   client.Delivery(lib, s.effects[|s.effects| - 1].request, moment + |s.effects| - 1)
  {
    match Prepare(lib, t)
    case Err(_) =>
    case Ok((body, header)) =>
      match client.BuildRequest(lib, t.verb, t.url, body, Some(header))
      case Err(_) =>
      case Ok(req) =>
        assert req == BuiltFor(lib, t);
  }

  /** Whatever the transport does, a target run succeeds or fails alike
      and has as many effects. */
  lemma TransportDoesNotDecideSuccess(lib: Library, rt: (HttpClient, Request, nat) -> Exchange,
                                      client: Client, t: RequestTarget, moment: nat)
    ensures TargetRun(lib.(roundTrip := rt), client, t, moment).outcome.Ok? ==
            TargetRun(lib, client, t, moment).outcome.Ok?
    ensures |TargetRun(lib.(roundTrip := rt), client, t, moment).effects| ==
            |TargetRun(lib, client, t, moment).effects|
  {
    TargetRunSucceeds(lib, client, t, moment);
    TargetRunSucceeds(lib.(roundTrip := rt), client, t, moment);
  }

  /** A target whose AWS settings have an empty region fails without any
      effect: no credential lookup, no Sign call, no transport call. */
  lemma EmptyRegionHasNoEffect(lib: Library, client: Client, t: RequestTarget, moment: nat)
    requires t.aws.Some? && t.aws.value.region == ""
    ensures TargetRun(lib, client, t, moment).outcome.Err?
    ensures TargetRun(lib, client, t, moment).effects == []
  {
  }

  // ----- The batch -----

  /** `run` as a function of the target and the moment. */
  function Pipeline(lib: Library, client: Client): (step: (RequestTarget, nat) -> Step<Result>)
  {
    (t: RequestTarget, moment: nat) => TargetRun(lib, client, t, moment)
  }

  /** Every step of `step` sends once, last, when it succeeds. */
  ghost predicate AlwaysSendsLast(lib: Library, step: (RequestTarget, nat) -> Step<Result>)
  {
    forall t, moment :: SendsLast(lib, step(t, moment), t)
  }

  lemma PipelineSendsLast(lib: Library, client: Client)
    ensures AlwaysSendsLast(lib, Pipeline(lib, client))
  {
    forall t, moment: nat
      ensures SendsLast(lib, Pipeline(lib, client)(t, moment), t)
    {
      TargetRunSendsLast(lib, client, t, moment);
    }
  }

  /** Executing `targets` in order from a moment with the per-target step
      `step`: stop at the first target whose step fails, keeping the
      effects it and its predecessors had. */
  function Execute(step: (RequestTarget, nat) -> Step<Result>, targets: seq<RequestTarget>,
                   start: nat): (s: Step<seq<Result>>)
  {
    if targets == [] then Step(Ok([]), [])
    else
      var prev := Execute(step, targets[..|targets| - 1], start);
      if prev.outcome.Err? then prev
      else
        var last := step(targets[|targets| - 1], start + |prev.effects|);
        match last.outcome
        case Err(e) => Step(Err(e), prev.effects + last.effects)
        case Ok(res) => Step(Ok(prev.outcome.value + [res]), prev.effects + last.effects)
  }

  /** What Run does: resolve, then execute; an unknown ID has no effect. */
  function RunSpec(lib: Library, client: Client, requests: seq<RequestTarget>,
                   ids: seq<string>, start: nat): (s: Step<seq<Result>>)
  {
    match Resolve(requests, ids)
    case Err(e) => Step(Err(e), [])
    case Ok(targets) => Execute(Pipeline(lib, client), targets, start)
  }

  /** Once a prefix of the batch has failed, nothing after it runs. */
  lemma {:induction false} ExecuteStopsAtFailure(step: (RequestTarget, nat) -> Step<Result>,
                                                 targets: seq<RequestTarget>, start: nat, k: nat)
    requires k <= |targets|
    requires Execute(step, targets[..k], start).outcome.Err?
    ensures Execute(step, targets, start) == Execute(step, targets[..k], start)
  {
    if k < |targets| {
      var front := targets[..|targets| - 1];
      assert front[..k] == targets[..k];
      ExecuteStopsAtFailure(step, front, start, k);
    } else {
      assert targets[..k] == targets;
    }
  }

  /** Executing one more target extends the batch by that target's step. */
  lemma ExecuteNext(step: (RequestTarget, nat) -> Step<Result>, targets: seq<RequestTarget>,
                    start: nat, k: nat)
    requires k < |targets|
    requires Execute(step, targets[..k], start).outcome.Ok?
    ensures var prev := Execute(step, targets[..k], start);
            var last := step(targets[k], start + |prev.effects|);
            && Execute(step, targets[..k + 1], start).effects == prev.effects + last.effects
            && (last.outcome.Err? ==> Execute(step, targets[..k + 1], start).outcome == Err(last.outcome.error))
            && (last.outcome.Ok? ==>
                  Execute(step, targets[..k + 1], start).outcome == Ok(prev.outcome.value + [last.outcome.value]))
  {
    assert targets[..k + 1][..k] == targets[..k];
  }

  /** One more step of the batch, as Run's loop takes it: `done` is the
      record before the batch, `before` and `after` the record around the
      step, and `outcome` its result. */
  lemma ExecuteOneMore(step: (RequestTarget, nat) -> Step<Result>, targets: seq<RequestTarget>,
                       start: nat, k: nat, done: seq<Effect>, before: seq<Effect>,
                       after: seq<Effect>, collected: seq<Result>, outcome: Outcome<Result>)
    requires k < |targets| && start == |done|
    requires Execute(step, targets[..k], start).outcome == Ok(collected)
    requires before == done + Execute(step, targets[..k], start).effects
    requires outcome == step(targets[k], |before|).outcome
    requires after == before + step(targets[k], |before|).effects
    ensures outcome.Ok? ==> Execute(step, targets[..k + 1], start).outcome == Ok(collected + [outcome.value])
    ensures outcome.Ok? ==> after == done + Execute(step, targets[..k + 1], start).effects
    ensures outcome.Err? ==> Err(outcome.error) == Execute(step, targets, start).outcome
    ensures outcome.Err? ==> after == done + Execute(step, targets, start).effects
  {
    ExecuteNext(step, targets, start, k);
    if outcome.Err? {
      ExecuteStopsAtFailure(step, targets, start, k + 1);
    }
  }

  /** A successful batch sends one request per target, in target order,
      and returns exactly the Results of those sends. */
  lemma {:induction false} ExecuteInOrder(lib: Library, step: (RequestTarget, nat) -> Step<Result>,
                                          targets: seq<RequestTarget>, start: nat)
    requires AlwaysSendsLast(lib, step)
    ensures var s := Execute(step, targets, start);
            s.outcome.Ok? ==>
              && |s.outcome.value| == |targets|
              && |Sends(s.effects)| == |targets|
              && forall i :: 0 <= i < |targets| ==>
                   SentFor(lib, Sends(s.effects)[i], targets[i]) &&
                   Sends(s.effects)[i].result == s.outcome.value[i]
  {
    var s := Execute(step, targets, start);
    if targets != [] && s.outcome.Ok? {
      var n := |targets| - 1;
      var front := targets[..n];
      var prev := Execute(step, front, start);
      ExecuteInOrder(lib, step, front, start);
      var last := step(targets[n], start + |prev.effects|);
      assert SendsLast(lib, last, targets[n]);
      SendsAppend(prev.effects, last.effects);
      var sends := Sends(s.effects);
      assert sends == Sends(prev.effects) + [last.effects[|last.effects| - 1]];
      forall i | 0 <= i < |targets|
        ensures SentFor(lib, sends[i], targets[i]) && sends[i].result == s.outcome.value[i]
      {
        if i < n {
          assert targets[i] == front[i];
          assert sends[i] == Sends(prev.effects)[i];
        }
      }
    }
  }

  /** Target k's step, taken at the moment targets 0..k-1 leave,
      succeeds. */
  ghost predicate SucceedsAt(step: (RequestTarget, nat) -> Step<Result>, targets: seq<RequestTarget>,
                             start: nat, k: nat)
    requires k < |targets|
  {
    step(targets[k], start + |Execute(step, targets[..k], start).effects|).outcome.Ok?
  }

  /** A batch succeeds exactly when every target's step, taken at the
      moment its predecessors leave, succeeds. */
  lemma {:induction false} ExecuteSucceedsExactly(step: (RequestTarget, nat) -> Step<Result>,
                                                  targets: seq<RequestTarget>, start: nat)
    ensures Execute(step, targets, start).outcome.Ok? <==>
              forall k :: 0 <= k < |targets| ==> SucceedsAt(step, targets, start, k)
  {
    if targets != [] {
      var n := |targets| - 1;
      var front := targets[..n];
      ExecuteSucceedsExactly(step, front, start);
      assert targets[..n] == front;
      assert Execute(step, targets, start).outcome.Ok? <==>
               Execute(step, front, start).outcome.Ok? && SucceedsAt(step, targets, start, n);
      forall k | 0 <= k < n
        ensures SucceedsAt(step, front, start, k) == SucceedsAt(step, targets, start, k)
      {
        assert front[..k] == targets[..k];
      }
    }
  }

  /** Two per-target steps that succeed and fail alike, with as many
      effects, make batches that succeed and fail alike, with as many
      effects. */
  lemma {:induction false} ExecuteSameShape(step: (RequestTarget, nat) -> Step<Result>,
                                            other: (RequestTarget, nat) -> Step<Result>,
                                            targets: seq<RequestTarget>, start: nat)
    requires forall t, m: nat :: step(t, m).outcome.Ok? == other(t, m).outcome.Ok?
    requires forall t, m: nat :: |step(t, m).effects| == |other(t, m).effects|
    ensures Execute(step, targets, start).outcome.Ok? == Execute(other, targets, start).outcome.Ok?
    ensures |Execute(step, targets, start).effects| == |Execute(other, targets, start).effects|
  {
    if targets != [] {
      ExecuteSameShape(step, other, targets[..|targets| - 1], start);
    }
  }

  /** Only build and sign errors abort a run: replacing the transport by
      any other, including one that always fails, leaves the run's success
      or failure unchanged. */
  lemma RunIgnoresTransportErrors(lib: Library, rt: (HttpClient, Request, nat) -> Exchange,
                                  client: Client, requests: seq<RequestTarget>,
                                  ids: seq<string>, start: nat)
    ensures RunSpec(lib.(roundTrip := rt), client, requests, ids, start).outcome.Ok? ==
            RunSpec(lib, client, requests, ids, start).outcome.Ok?
  {
    var step := Pipeline(lib, client);
    var other := Pipeline(lib.(roundTrip := rt), client);
    forall t, m: nat
      ensures step(t, m).outcome.Ok? == other(t, m).outcome.Ok?
      ensures |step(t, m).effects| == |other(t, m).effects|
    {
      TransportDoesNotDecideSuccess(lib, rt, client, t, m);
    }
    if Resolve(requests, ids).Ok? {
      ExecuteSameShape(step, other, Resolve(requests, ids).value, start);
    }
  }

  /** A failed batch failed at some target k: targets 0..k-1 all ran and
      were sent, target k's step returned the batch's error, and no target
      after k ran. Their Results are not returned. */
  lemma {:induction false} ExecuteFailsFast(lib: Library, step: (RequestTarget, nat) -> Step<Result>,
                                            targets: seq<RequestTarget>, start: nat)
    requires AlwaysSendsLast(lib, step)
    ensures var s := Execute(step, targets, start);
            s.outcome.Err? ==>
              exists k :: 0 <= k < |targets| && FailsAt(lib, step, targets, start, k, s)
  {
    var s := Execute(step, targets, start);
    if targets != [] && s.outcome.Err? {
      var n := |targets| - 1;
      var front := targets[..n];
      var prev := Execute(step, front, start);
      if prev.outcome.Err? {
        ExecuteFailsFast(lib, step, front, start);
        var k :| 0 <= k < |front| && FailsAt(lib, step, front, start, k, prev);
        FailureCarriesOver(lib, step, targets, start, k);
      } else {
        ExecuteInOrder(lib, step, front, start);
        FailureAtLast(lib, step, targets, start);
      }
    }
  }

  /** A failure at target k of all but the last target is the batch's. */
  lemma FailureCarriesOver(lib: Library, step: (RequestTarget, nat) -> Step<Result>,
                           targets: seq<RequestTarget>, start: nat, k: nat)
    requires k < |targets| - 1
    requires FailsAt(lib, step, targets[..|targets| - 1], start, k,
                     Execute(step, targets[..|targets| - 1], start))
    ensures FailsAt(lib, step, targets, start, k, Execute(step, targets, start))
  {
    var front := targets[..|targets| - 1];
    assert front[..k] == targets[..k] && front[k] == targets[k];
    var before := Execute(step, targets[..k], start);
    var failing := step(targets[k], start + |before.effects|);
    var s := Execute(step, front, start);
    assert before.outcome.Ok? && |Sends(before.effects)| == k;
    assert s.outcome.Err? && failing.outcome == Err(s.outcome.error);
    assert s.effects == before.effects + failing.effects;
    ExecuteStopsAtFailure(step, targets, start, |targets| - 1);
    assert Execute(step, targets, start) == s;
  }

  /** When all but the last target succeed and the batch fails, it fails at
      the last target. */
  lemma FailureAtLast(lib: Library, step: (RequestTarget, nat) -> Step<Result>,
                      targets: seq<RequestTarget>, start: nat)
    requires |targets| > 0
    requires Execute(step, targets[..|targets| - 1], start).outcome.Ok?
    requires |Sends(Execute(step, targets[..|targets| - 1], start).effects)| == |targets| - 1
    requires Execute(step, targets, start).outcome.Err?
    ensures FailsAt(lib, step, targets, start, |targets| - 1, Execute(step, targets, start))
  {
  }

  /** `s` is what a batch that failed at target k looks like: the first k
      targets succeeded and sent k requests, target k failed with the
      batch's error, and the batch's effects end with target k's. */
  ghost predicate FailsAt(lib: Library, step: (RequestTarget, nat) -> Step<Result>,
                          targets: seq<RequestTarget>, start: nat, k: nat, s: Step<seq<Result>>)
    requires k < |targets|
  {
    var before := Execute(step, targets[..k], start);
    var failing := step(targets[k], start + |before.effects|);
    && before.outcome.Ok?
    && |Sends(before.effects)| == k
    && s.outcome.Err? && failing.outcome == Err(s.outcome.error)
    && s.effects == before.effects + failing.effects
  }

  /** With no IDs, the batch is the spec's targets in declaration order. */
  lemma RunAllInDeclarationOrder(lib: Library, client: Client, requests: seq<RequestTarget>, start: nat)
    ensures var s := RunSpec(lib, client, requests, [], start);
            s.outcome.Ok? ==>
              && |s.outcome.value| == |requests|
              && |Sends(s.effects)| == |requests|
              && forall i :: 0 <= i < |requests| ==>
                   SentFor(lib, Sends(s.effects)[i], requests[i]) &&
                   Sends(s.effects)[i].result == s.outcome.value[i]
  {
    PipelineSendsLast(lib, client);
    ExecuteInOrder(lib, Pipeline(lib, client), requests, start);
  }

  /** With IDs, one request is sent per ID, repeats included, in the order
      the IDs are given, each for the first target declared with that ID. */
  lemma RunTargetsInGivenOrder(lib: Library, client: Client, requests: seq<RequestTarget>,
                               ids: seq<string>, start: nat)
    requires |ids| > 0
    ensures var s := RunSpec(lib, client, requests, ids, start);
            s.outcome.Ok? ==>
              && |s.outcome.value| == |ids|
              && |Sends(s.effects)| == |ids|
              && forall i :: 0 <= i < |ids| ==>
                   Lookup(requests, ids[i]).Ok? &&
                   SentFor(lib, Sends(s.effects)[i], Lookup(requests, ids[i]).value) &&
                   Sends(s.effects)[i].result == s.outcome.value[i]
  {
    var r := ResolveIds(requests, ids);
    if r.Ok? {
      PipelineSendsLast(lib, client);
      ExecuteInOrder(lib, Pipeline(lib, client), r.value, start);
    }
  }

  /** A batch that fails after resolution failed at some target k: the
      requests for targets 0..k-1 were sent, target k's `run` returned the
      error, nothing after it ran, and no Result is returned. */
  lemma RunFailsFast(lib: Library, client: Client, requests: seq<RequestTarget>,
                     ids: seq<string>, start: nat)
    requires Resolve(requests, ids).Ok?
    ensures var s := RunSpec(lib, client, requests, ids, start);
            var targets := Resolve(requests, ids).value;
            s.outcome.Err? ==>
              exists k :: 0 <= k < |targets| && FailsAt(lib, Pipeline(lib, client), targets, start, k, s)
  {
    PipelineSendsLast(lib, client);
    ExecuteFailsFast(lib, Pipeline(lib, client), Resolve(requests, ids).value, start);
  }

  /** An unknown ID fails the run before anything is signed or sent; the
      error is that of the first unknown ID. */
  lemma UnknownTargetSendsNothing(lib: Library, client: Client, requests: seq<RequestTarget>,
                                  ids: seq<string>, start: nat, i: nat)
    requires i < |ids| && forall j :: 0 <= j < |requests| ==> requests[j].id != ids[i]
    ensures RunSpec(lib, client, requests, ids, start).outcome.Err?
    ensures RunSpec(lib, client, requests, ids, start).effects == []
    ensures (forall j :: 0 <= j < i ==> Lookup(requests, ids[j]).Ok?) ==>
              RunSpec(lib, client, requests, ids, start).outcome == Err(UnknownRequestID(ids[i]))
  {
    var r := ResolveIds(requests, ids);
    assert r.Err? by {
      assert !Lookup(requests, ids[i]).Ok?;
    }
    if forall j :: 0 <= j < i ==> Lookup(requests, ids[j]).Ok? {
      assert forall j :: 0 <= j < i ==> ids[..i][j] == ids[j];
      FirstUnknownAborts(requests, ids, i);
    }
    assert Resolve(requests, ids) == r;
  }

  /** The loop of Run over the resolved targets: run each in turn and
      collect its Result; the first error is returned at once and the
      Results collected so far are dropped. */
  method RunTargets(host: Host, client: Client, targets: seq<RequestTarget>)
    returns (results: Outcome<seq<Result>>)
    modifies host
    ensures results == Execute(Pipeline(host.lib, client), targets, |old(host.log)|).outcome
    ensures host.log == old(host.log) + Execute(Pipeline(host.lib, client), targets, |old(host.log)|).effects
  {
    ghost var step := Pipeline(host.lib, client);
    ghost var start := |host.log|;
    var collected: seq<Result> := [];
    var k := 0;
    while k < |targets|
      invariant 0 <= k <= |targets|
      invariant Execute(step, targets[..k], start).outcome == Ok(collected)
      invariant host.log == old(host.log) + Execute(step, targets[..k], start).effects
    {
      ghost var before := host.log;
      var res := RunTarget(host, client, targets[k]);
      ExecuteOneMore(step, targets, start, k, old(host.log), before, host.log, collected, res);
      if res.Err? {
        return Err(res.error);
      }
      collected := collected + [res.value];
      k := k + 1;
    }
    assert targets[..k] == targets;
    results := Ok(collected);
  }

  /** A runner: a spec, a client and whether it has run. */
  class Runner {
    const spec: Spec
    const client: Client
    var hasRun: bool

    /** NewRunner. */
    constructor (spec: Spec, client: Client)
      ensures this.spec == spec && this.client == client && !hasRun
    {
      this.spec := spec;
      this.client := client;
      hasRun := false;
    }

    /** SetBaseURL: rewrite each target's base URL in turn, stopping at the
        first target that reports an error. Targets before it keep their
        rewritten URL; it and the ones after are left as they were.
        `rebase` is RequestTarget.SetBaseURL, whose body is not modelled. */
    method SetBaseURL(rebase: (RequestTarget, string) -> Outcome<RequestTarget>, url: string)
      returns (err: Option<Error>)
      modifies spec
      ensures |spec.requests| == |old(spec.requests)|
      ensures err.None? <==>
                forall i :: 0 <= i < |old(spec.requests)| ==> rebase(old(spec.requests)[i], url).Ok?
      ensures err.None? ==>
                forall i :: 0 <= i < |spec.requests| ==>
                  spec.requests[i] == rebase(old(spec.requests)[i], url).value
      ensures err.Some? ==>
                exists k :: 0 <= k < |spec.requests| &&
                  rebase(old(spec.requests)[k], url).Err? &&
                  err == Some(rebase(old(spec.requests)[k], url).error) &&
                  (forall i :: 0 <= i < k ==>
                     rebase(old(spec.requests)[i], url).Ok? &&
                     spec.requests[i] == rebase(old(spec.requests)[i], url).value) &&
                  spec.requests[k..] == old(spec.requests)[k..]
    {
      var i := 0;
      while i < |spec.requests|
        invariant 0 <= i <= |spec.requests| == |old(spec.requests)|
        invariant forall j :: 0 <= j < i ==>
                    rebase(old(spec.requests)[j], url).Ok? &&
                    spec.requests[j] == rebase(old(spec.requests)[j], url).value
        invariant spec.requests[i..] == old(spec.requests)[i..]
      {
        var rebased := rebase(spec.requests[i], url);
        if rebased.Err? {
          return Some(rebased.error);
        }
        spec.requests := spec.requests[i := rebased.value];
        i := i + 1;
      }
      return None;
    }

    /** findTarget: the first target of the spec with the given ID. */
    method FindTarget(id: string) returns (r: Outcome<RequestTarget>)
      ensures r == Lookup(spec.requests, id)
    {
      var i := 0;
      while i < |spec.requests|
        invariant 0 <= i <= |spec.requests|
        invariant forall j :: 0 <= j < i ==> spec.requests[j].id != id
      {
        if spec.requests[i].id == id {
          return Ok(spec.requests[i]);
        }
        i := i + 1;
      }
      return Err(UnknownRequestID(id));
    }

    /** Run: resolve the IDs (all targets when none is given), then run each
        target in order; the first error discards the Results collected so
        far. Only a run that succeeds marks the runner as having run; a
        runner that has run must not be run again. */
    method Run(host: Host, targets: seq<string>) returns (results: Outcome<seq<Result>>)
      requires !hasRun
      modifies this`hasRun, host
      ensures results == RunSpec(host.lib, client, spec.requests, targets, |old(host.log)|).outcome
      ensures host.log ==
                old(host.log) + RunSpec(host.lib, client, spec.requests, targets, |old(host.log)|).effects
      ensures hasRun <==> results.Ok?
    {
      var requests: seq<RequestTarget>;
      if |targets| > 0 {
        requests := [];
        var i := 0;
        while i < |targets|
          invariant 0 <= i <= |targets|
          invariant ResolveIds(spec.requests, targets[..i]) == Ok(requests)
          invariant host.log == old(host.log) && !hasRun
        {
          var target := FindTarget(targets[i]);
          if target.Err? {
            FirstUnknownAborts(spec.requests, targets, i);
            return Err(target.error);
          }
          assert targets[..i + 1][..i] == targets[..i];
          requests := requests + [target.value];
          i := i + 1;
        }
        assert targets[..i] == targets;
      } else {
        requests := spec.requests;
      }
      assert Resolve(spec.requests, targets) == Ok(requests);

      results := RunTargets(host, client, requests);
      if results.Ok? {
        hasRun := true;
      }
    }
  }
}
