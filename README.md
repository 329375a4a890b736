# httpreq: request runner and REST client, modelled in Dafny

This project models the core of httpreq, a command-line HTTP request
executor. It covers two parts:

- The batch runner (`internal/runner/runner.go`). A `Runner` holds a spec of
  declared request targets. It resolves the targets named by ID (or takes all
  of them in declaration order) and runs them strictly one after the other.
  The first target whose body cannot be marshalled, or whose request cannot
  be built or signed, fails the whole run. A transport error does not: it is
  kept inside that target's `Result`. A runner that has completed a run must
  not run again. A run that fails leaves the runner runnable, so running it
  again sends the failed run's requests again.
- The `rest` client (`internal/rest/client.go`). It builds a request from a
  route, a body and a header set. It signs the request with AWS Signature
  Version 4 for the `execute-api` service. It sends the request and wraps
  what the transport produced into a `Result`.

Files:

- `base.dfy` (module `Base`): `Option`, the `Outcome` of a Go `(value,
  error)` call, the errors of the core, bytes.
- `http.dfy` (module `Http`): the parts of `net/http`, `encoding/json` and
  the AWS SDK that the core uses. The code outside the core is a field of the
  `Library` datatype, and every property holds for every `Library` value.
  Those fields are `ParseURL`, the failure of `http.NewRequest`, header-name
  canonicalisation, `json.Marshal`, the SigV4 signer and `http.Client.Do`.
  The one exception is `http.Header.Add`, which is modelled concretely as
  appending the value to the canonical name's values (`Http.Add`).
- `client.dfy` (module `Rest`): `NewClient`, `BuildRequest`, `SignRequest`,
  `SendRequest`, and the documented route forms that `ParseURL` follows.
- `runner.dfy` (module `Runner`): `RequestTarget`, `Spec`, the `Runner`
  class, `findTarget`, the per-target helper `run`, and the batch loop.

What happens outside the process is recorded in a `Rest.Host`. Each Sign
call adds a `SignAttempt` to the host's `log`, and each transport call adds a
`Sent`. Methods that have such effects (`SignRequest`, `SendRequest`, `run`,
`Run`) append to that log. Each one is proved equal to a specification
function (`Signing`, `Delivery`, `TargetRun`, `RunSpec`) that returns the
outcome and the effects together. The properties are proved about those
functions. `time.Now()` and the transport's timing are represented by a
"moment": the length of the log when the call is made. `Sign` and `Do` are
uninterpreted functions of that moment.

Three facts about the code that the model keeps:

- For a POST target, `run` adds `Content-type: application/json` with
  `header.Add`. The value is appended after any content type the target
  declared; it does not replace it (`PostCarriesJsonContentType`).
- `SendRequest` does not look at the response status. Any response the
  transport returns is kept in the `Result` unchanged.
- `hasRun` is set only at the end of a successful run
  (internal/runner/runner.go:64). The guard against a second run therefore
  rejects only a runner whose earlier run succeeded (`Runner.Runner.Run`).

## Model

| member | source | states |
|---|---|---|
| Rest.NewClient | internal/rest/client.go:18-25 | with no http.Client the client gets one with a ten-second timeout; a given one is used unchanged |
| Rest.Client.BuildRequest | internal/rest/client.go:27-48 | a ParseURL failure is returned as is, and so is a NewRequest failure; the request is built exactly when ParseURL and NewRequest both succeed; the method and the parsed URL are used; no JSON gives no body, otherwise the body is exactly the given bytes; a header set replaces the default headers wholesale |
| Rest.Client.SignCallFor | internal/rest/client.go:50-67 | an empty region is an error ("must specify an AWS region"), and only then; otherwise the Sign call is for execute-api in the caller's region, over the given body bytes (none read as empty), at the current moment; a non-empty profile selects the shared-credentials provider with the default file and that profile, an empty one the environment provider |
| Rest.Client.Signing | internal/rest/client.go:50-69 | an empty region fails with no Sign call at all; otherwise exactly one Sign call is made, the one SignCallFor describes, and signing succeeds exactly when that call does, returning its error when it fails and otherwise the request with the headers it set added; a signed request keeps its method, URL and body, and keeps every header name it had |
| Rest.Client.SignRequest | internal/rest/client.go:50-69 | the returned request or error and the effect appended to the host are exactly those of Signing at the current moment |
| Rest.Client.Delivery | internal/rest/client.go:71-81 | the Result holds the transport's response, its error and the time the call took, whatever the transport did |
| Rest.Client.SendRequest | internal/rest/client.go:71-81 | always returns a Result (no separate error): the one Delivery gives at the current moment; exactly one transport call for this request is appended to the host |
| Rest.DigitRun | internal/command/build.go:27 | the length of the leading run of decimal digits of a route, which is where the port of ":port/path" ends |
| Rest.AbsoluteRouteIsUnchanged | internal/command/build.go:26 | an http:// or https:// route stands for itself |
| Rest.DigitRunStopsAtSlash | internal/command/build.go:27 | the port of ":port/path" is read up to the slash |
| Rest.PortRouteGoesToLocalhost | internal/command/build.go:27 | ":port/path" stands for http://localhost:port/path |
| Rest.DocumentedURL | internal/command/build.go:25-28 | a route has a documented URL exactly when it is an http:// or https:// URL, a ":port/path" route or a "/path" route; every documented URL is an absolute http:// or https:// URL |
| Rest.PathRouteGoesToPort80 | internal/command/build.go:28 | "/path" stands for http://localhost:80/path |
| Rest.BuildRequestFollowsRoutes | internal/rest/client.go:28-31 | when ParseURL, whenever it accepts a route of a documented form, gives that route's documented URL: a request built for such a route has the documented URL, and a route ParseURL accepts is built exactly when NewRequest accepts that URL |
| Runner.Lookup | internal/runner/runner.go:69-77 | the found target has the ID, is at some index, and no earlier target has that ID; otherwise the error is "unknown request ID", which happens exactly when no target has the ID |
| Runner.Runner.FindTarget | internal/runner/runner.go:69-77 | the forward scan with early return gives exactly Lookup's answer |
| Runner.ResolveIds | internal/runner/runner.go:41-48 | resolution succeeds exactly when every ID is known; the targets come one per ID, repeats included, in the order the IDs are given, each the first target declared with that ID |
| Runner.Resolve | internal/runner/runner.go:40-52 | with no IDs the targets are the spec's, in declaration order; with IDs, resolution succeeds exactly when every ID is known, giving one target per ID, in the order given, each the first target declared with that ID |
| Runner.FirstUnknownAborts | internal/runner/runner.go:42-46 | resolution stops at the first unknown ID and returns that ID's error |
| Runner.ValuesFor | internal/runner/runner.go:80-83 | the values declared for a canonical header name, in order, are empty exactly when no declared name canonicalises to it |
| Runner.HeaderFromPairs | internal/runner/runner.go:80-83 | the names in the header set built from the declared headers are exactly the canonical forms of the declared names |
| Runner.HeaderFromPairsGroups | internal/runner/runner.go:80-83 | adding the declared headers one by one gives a header set that holds a name exactly when some declared header has it, with that name's values in declaration order |
| Runner.BuildHeader | internal/runner/runner.go:80-83 | the header-copying loop builds exactly the header set of adding the declared pairs in order |
| Runner.Prepare | internal/runner/runner.go:85-92 | preparing a target fails exactly when it is a POST whose body does not marshal, with json.Marshal's error; a body is prepared exactly for a POST, and it is the marshalled bytes |
| Runner.NonPostIsSentAsDeclared | internal/runner/runner.go:85-92 | a target that is not a POST gets no body and exactly its declared headers |
| Runner.PostCarriesJsonContentType | internal/runner/runner.go:85-92 | a POST target fails exactly when marshalling fails, with that error; otherwise the body is the marshalled bytes, the content type's values are the declared ones followed by "application/json", and every other header is as declared |
| Runner.SignIfConfigured | internal/runner/runner.go:99-105 | a target without AWS settings is not signed and has no effect; a target with them is signed exactly as SignRequest signs the built request over the prepared body, in the target's region with its profile, and its outcome and effects are that signing's; at most one Sign call is made; a signed request keeps its method, URL, body and header names |
| Runner.RunTarget | internal/runner/runner.go:79-109 | the per-target helper returns the outcome, and appends exactly the effects, of the per-target pipeline TargetRun at the current moment; what TargetRun does is stated by TargetRunSucceeds, TargetRunSendsLast and TargetRunSignsSentBody; in particular the request sent is the built request without AWS settings, and the signed request with them |
| Runner.TargetRunSucceeds | internal/runner/runner.go:79-109 | TargetRun succeeds exactly when the body marshals (for a POST), the route parses, NewRequest accepts the request and, for a target with AWS settings, the region is not empty and the Sign call for the built request succeeds; a failure returns the error of the first of these steps that failed; a success returns the Result of the last effect, a send, whatever the transport reported in it |
| Runner.TransportDoesNotDecideSuccess | internal/runner/runner.go:79-109 | replacing the transport by any other leaves whether a target run succeeds, and how many effects it has, unchanged |
| Runner.TargetRunSendsLast | internal/runner/runner.go:79-109 | any error stops a target before its request is sent; a target that succeeds sends exactly one request, as its last effect: its method, the URL its route parses to, the marshalled body for a POST and no body otherwise; the Result returned is that send's |
| Runner.TargetRunSignsSentBody | internal/runner/runner.go:99-107 | without AWS settings there is no Sign call, and the request sent is exactly the built request, with the prepared headers; with them, a target that succeeds makes one Sign call and then one send; the Sign call is for the built request, for execute-api in the target's region, over exactly the bytes of the sent body, with the credential source the profile selects; that call succeeded, and the request sent is the built request with the headers the signer set added |
| Runner.EmptyRegionHasNoEffect | internal/runner/runner.go:99-104 | a target whose region is empty fails with no credential lookup, no Sign call and nothing sent |
| Runner.PipelineSendsLast | internal/runner/runner.go:79-109 | every target run at every moment sends once, last, when it succeeds, and never when it fails |
| Runner.ExecuteStopsAtFailure | internal/runner/runner.go:55-59 | once a prefix of the batch has failed, the targets after it do not run |
| Runner.ExecuteNext | internal/runner/runner.go:55-62 | running one more target extends the batch by that target's effects, and appends its Result or fails with its error |
| Runner.ExecuteOneMore | internal/runner/runner.go:55-62 | one iteration of the loop, stated over the host's record: it either extends the collected Results or ends the batch with the target's error and effects |
| Runner.RunTargets | internal/runner/runner.go:54-62 | the loop over the resolved targets gives exactly the batch's outcome and appends exactly its effects |
| Runner.ExecuteSucceedsExactly | internal/runner/runner.go:54-62 | Execute, the batch loop as a function, succeeds exactly when every target's run, taken at the moment its predecessors leave, succeeds |
| Runner.ExecuteSameShape | internal/runner/runner.go:54-62 | two per-target runs that succeed and fail alike, with as many effects, make batches that succeed and fail alike, with as many effects |
| Runner.RunIgnoresTransportErrors | internal/runner/runner.go:54-62 | RunSpec, Run as a function: replacing the transport by any other, including one that always fails, leaves whether the run succeeds unchanged, so only marshal, build and sign errors abort a run |
| Runner.ExecuteInOrder | internal/runner/runner.go:54-62 | a successful batch sends one request per target, in target order, each for its target, and returns exactly the Results of those sends in that order |
| Runner.ExecuteFailsFast | internal/runner/runner.go:55-59 | a failed batch failed at some target k: targets before k all succeeded and sent k requests; target k's error is the batch's error; nothing after k ran |
| Runner.FailureCarriesOver | internal/runner/runner.go:55-59 | a failure at target k of all but the last target is the failure of the whole batch |
| Runner.FailureAtLast | internal/runner/runner.go:55-59 | when all but the last target succeed and the batch fails, it failed at the last target |
| Runner.RunAllInDeclarationOrder | internal/runner/runner.go:50-52 | with no IDs, a successful run sends one request per declared target, in declaration order, and returns their Results in that order |
| Runner.RunTargetsInGivenOrder | internal/runner/runner.go:41-62 | with IDs, a successful run sends one request per ID, repeats included, in the order given, each for the first target declared with that ID, and returns their Results in that order |
| Runner.RunFailsFast | internal/runner/runner.go:54-59 | a run that fails after resolution failed at some target: the earlier targets were sent, that target's error is returned, no Result is returned and nothing after it ran |
| Runner.UnknownTargetSendsNothing | internal/runner/runner.go:42-46 | an unknown ID fails the run with nothing signed or sent; the error is that of the first unknown ID |
| Runner.Runner.constructor | internal/runner/runner.go:17-22 | a new runner holds the spec and the client and has not run |
| Runner.Runner.SetBaseURL | internal/runner/runner.go:24-33 | targets are rebased in order; with no error every target is rebased; otherwise the error is that of the first target whose rebase fails, the targets before it are rebased and it and those after it are unchanged |
| Runner.Runner.Run | internal/runner/runner.go:35-67 | may only be called on a runner that has not completed a run; the Results or error, and the effects appended to the host, are exactly those of resolving the IDs (all targets when none are given) and then running the batch; the runner is marked as having run exactly when the run succeeds |

## Left out

- Transport, time and cryptography. `http.Client.Do`, `time.Now`/`time.Since`, SigV4 signing and credential loading are uninterpreted fields of `Http.Library`. A Sign call's success, and the header set it adds, depend only on its arguments; the same holds for a transport call. The moment argument stands for the wall clock.
- Library internals. The bodies of `json.Marshal`, `http.NewRequest` and textproto header canonicalisation are not modelled. `NewRequest` is reduced to whether it fails.
- `ParseURL` is not part of this model. It is uninterpreted. Its documented route forms (`internal/command/build.go`) are stated as `DocumentedURL`, and `BuildRequestFollowsRoutes` assumes only that a URL ParseURL returns for a route of a documented form is that route's documented URL; which malformed routes it rejects is not modelled.
- `RequestTarget.SetBaseURL` and `GetAWSSign` are not part of this model. The first is a parameter of `Runner.SetBaseURL`. The second returns the target's AWS settings.
- Runner.Runner.SetBaseURL: a target whose rebase fails is modelled as unchanged; whatever that unmodelled method does to the target before failing is not captured.
- Signing changes only headers. `Sign` is modelled as returning the header set it adds. The AWS SDK's SigV4 signer can also re-attach the body reader and re-encode the URL's query; the model assumes a signed request keeps its URL and body.
- Header order. A target's declared headers are a Go map, whose range order is unspecified. The model takes them as a sequence in the order the range visits them.
- Mutation and aliasing. Requests and targets are values. The signer's in-place update of `req.Header` is modelled as returning the request with the signature headers added. Aliasing between a built request and the header map passed to `BuildRequest` is not modelled.
- Runner.Runner.Run: the panic on a second run is a precondition (`!hasRun`), not a modelled fault.
- Responses. Response bodies, streaming and closing are not modelled; a `Response` is a plain value.
- Command-line parsing, output formatting and loading specs from files are outside the core.
