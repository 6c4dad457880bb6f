# musiccast-linker in Dafny

musiccast-linker is a command-line tool that groups Yamaha MusicCast devices so that one
device, the *master*, streams to the others, the *clients*. Through the devices'
"YamahaExtendedControl" HTTP API it powers devices on and off, changes inputs, and links
devices. Linking is four steps that run in order and stop at the first failure, with no
rollback:

1. a compatibility check over the `getFeatures` answers;
2. client registration (`setClientInfo`);
3. master registration (`setServerInfo`), after a DNS lookup of each client;
4. `startDistribution`.

Every device reply carries a `response_code`, which a fixed table translates into error text.

This model holds the decision logic of the client library and of the entry point `mainErr`.

**The network.** The devices and the resolver form an oracle, `Network(http, dns)`. Each event
an operation issues is an HTTP request (`Request`) or a DNS lookup. Its answer is the oracle
applied to the whole history of events up to and including it, so a device may answer
differently depending on what came before. Every operation returns a `Run`: its result plus
the exact list of events it issued. So the proofs speak about the requests sent, their order,
their bodies and their hosts, as well as about the error returned.

**Outcomes.** An operation ends as `Done`, as `Failed(error)`, or as `Crashed`. `Crashed`
stands for a Go panic. The two POSTs never check their transport error: after a failed POST,
the nil response goes to the response mapper, which dereferences it. A failed GET instead
returns its error as a `NetworkError`.

**Modules:**

- `Outcomes`: errors, `Result`, `Outcome`.
- `Text`: Go's `strings.ReplaceAll(s, pat, "")` and `strings.Split`.
- `ResponseCode`: `reponseCode.go`.
- `Requests`: the request records.
- `MusiccastClient` and `LinkProperties`: `client.go`.
- `Cli`: `main.go`.

Every loop in the source is a `method` with a `for` loop:

- `contains`
- `areDevicesCompatible`
- `prepareClients`
- `prepareMaster`
- the standby loop of `mainErr`

Each of these methods is proved against a specification in its `ensures`:

- `Contains` finds a match exactly when the existential `Accepted` holds.
- `AreDevicesCompatible`, `PrepareClients` and `PrepareMaster` are proved equal to a
  specification function: `CompatibilityFrom`, `ClientsFrom` and `MasterRun`. The first two
  are recursive. `MasterRun` is not, but it runs the recursive `ResolveFrom` for the lookups.
- `Link` and `MainErr` are proved equal to the non-recursive `LinkRun` and `MainRun`. These
  compose the functions above.

The lemmas state their properties about these specification functions.

**Quirks of the code that the model keeps:**

- The accepted version set is the compatible list of the first host whose list is
  non-empty, which need not be the master's: the code keeps filling the set while it is
  empty. A device that leaves out `compatible_client` contributes an empty list. See
  `LinkProperties.CompatibilityVerdict` and `ResponseCode.DecodeDistribution`.
- A client that resolves to zero addresses is skipped, not rejected. The lookup loop goes on
  past it (the `Resolved` branch of `MusiccastClient.ResolveFrom`), and it adds nothing to the
  address list (`MusiccastClient.FirstAddressesSkipsEmpty`).
- `getFeatures` is declared as returning the whole features record, but its callers use the
  `Distribution` block that `MapFeaturesResponse` returns. The model lets `getFeatures` yield
  that block.
- The client request record is named `ClientLinkRequest` at its use. The model takes it to be
  the `LinkRequest` record of `requests.go`.
- In `mainErr` the standby loop returns after its first client, so only the first client is
  powered off. A non-empty master means power-on and nothing else, so `Link` always runs
  with master `""`. The input change can never be reached: `strings.Split` never returns an
  empty list, so with an empty master the `Link` branch is always taken. The model keeps
  all of this. See `Cli.StandbyPowersOffMasterThenFirstClient`, `Cli.NoMasterMeansLink` and
  `Cli.InputNeverChanged`. `Link` with master `""` first queries the empty host; when the HTTP
  client refuses that request, the run ends there (`Cli.EmptyMasterRefusedEndsLink`).

## Model

| member | source | states |
|---|---|---|
| ResponseCode.MapResponseCode | musiccastClient/reponseCode.go:95-97 | the description is non-empty exactly for the 25 tabled codes 0-6, 100-115, 200, 201, and is the table's text for them; any other code gives the empty string |
| ResponseCode.DecodeReturnCode | musiccastClient/reponseCode.go:39-41 | the decoded code is the envelope's response_code, or 0 when the field is missing |
| ResponseCode.DecodeDistribution | musiccastClient/reponseCode.go:48-51 | version and compatible_client are taken from the block when present; a block without version gives version 0, and one without compatible_client gives an empty list (Go's zero values); a missing block is version 0 with an empty list |
| ResponseCode.MapStatusResponse | musiccastClient/reponseCode.go:74-93 | Done exactly when the body decodes into the status record with code 0; a mistyped Distribution does not stop that decoding; an unreadable body gives ReadError, a malformed one gives ParseError, and a non-zero code gives a DeviceError carrying the code's description; never a crash |
| ResponseCode.MapFeaturesResponse | musiccastClient/reponseCode.go:53-72 | Ok exactly when the body decodes into the features record with code 0, and then the value is the decoded distribution block; an unreadable body gives ReadError; a malformed body or a mistyped Distribution gives ParseError; a non-zero code gives a DeviceError carrying the code's description |
| ResponseCode.MappersAgree | musiccastClient/reponseCode.go:53-93 | on every body except one with a mistyped Distribution, both mappers agree on success, and on the error when the body fails |
| ResponseCode.MappersDisagreeOnDistribution | musiccastClient/reponseCode.go:53-93 | a mistyped Distribution makes the features mapper fail with ParseError; the status mapper ignores the block, so with code 0 or no code it succeeds |
| ResponseCode.UnmappedCodeStillFails | musiccastClient/reponseCode.go:88-90 | a non-zero code missing from the table still fails, with an empty description |
| ResponseCode.MissingCodeIsSuccess | musiccastClient/reponseCode.go:82-92 | an envelope without response_code counts as success in both mappers |
| ResponseCode.NullBodySucceeds | musiccastClient/reponseCode.go:61-71 | the body `null` (or `{}`) succeeds in both mappers, and the features mapper returns version 0 with an empty list |
| ResponseCode.FeaturesPassedThrough | musiccastClient/reponseCode.go:67-71 | with code 0 the device's version and compatible list come back unchanged |
| MusiccastClient.GetOutcome | musiccastClient/client.go:38-42 | a GET succeeds exactly when the device acknowledges it; a transport error is returned as a NetworkError; otherwise the response mapper's verdict; never a crash |
| MusiccastClient.PostOutcome | musiccastClient/client.go:115-116 | a POST succeeds exactly when acknowledged, and crashes exactly when the transport fails, because the error is ignored |
| MusiccastClient.Power | musiccastClient/client.go:37-43 | exactly one setPower request with the given host, zone and power status; its result is the GET outcome of the reply |
| MusiccastClient.PowerOn | musiccastClient/client.go:28-30 | exactly one setPower request with "on"; success exactly when it is acknowledged; never a crash; the result is the GET outcome of the reply, so a failure is the call's own error unchanged: a NetworkError for a transport failure, the mapper's error otherwise |
| MusiccastClient.PowerOff | musiccastClient/client.go:32-35 | exactly one setPower request with "standby" and no other call; success exactly when it is acknowledged; never a crash; the result is the GET outcome of the reply, so a failure is the call's own error unchanged: a NetworkError for a transport failure, the mapper's error otherwise |
| MusiccastClient.SetInput | musiccastClient/client.go:161-167 | exactly one setInput request; its result is the GET outcome of the reply |
| MusiccastClient.ChangeInput | musiccastClient/client.go:152-159 | exactly one setInput request; success exactly when it is acknowledged; never a crash; the result is the GET outcome of the reply, so a failure is the call's own error unchanged: a NetworkError for a transport failure, the mapper's error otherwise |
| MusiccastClient.GetFeatures | musiccastClient/client.go:64-70 | exactly one getFeatures request; Ok exactly when it is acknowledged; a transport error is a NetworkError; otherwise the features mapper's result |
| MusiccastClient.PrepareClient | musiccastClient/client.go:107-117 | exactly one setClientInfo POST with the group id and zones ["main"]; the POST outcome of the reply |
| MusiccastClient.StartDistribution | musiccastClient/client.go:144-150 | exactly one startDistribution request to the master, with num 0 |
| MusiccastClient.WithTolerance | musiccastClient/client.go:178-185 | true exactly when b lies strictly within 0.10 of a |
| MusiccastClient.Contains | musiccastClient/client.go:169-176 | the linear scan finds a match exactly when some entry is within tolerance of the version |
| MusiccastClient.CompatibilityFrom | musiccastClient/client.go:45-62 | queries hosts in order and at most once each; success means every host was queried; a failure means a Failed outcome after at least one query |
| MusiccastClient.AreDevicesCompatible | musiccastClient/client.go:45-62 | the loop issues the same queries and returns the same verdict as the specification CompatibilityFrom |
| MusiccastClient.ClientsFrom | musiccastClient/client.go:97-105 | registers clients in order, at most once each, with one setClientInfo per client; success means every client was sent setClientInfo; a failure comes after at least one request |
| MusiccastClient.PrepareClients | musiccastClient/client.go:97-105 | the loop issues the same requests and returns the same outcome as ClientsFrom |
| MusiccastClient.ResolveFrom | musiccastClient/client.go:120-129 | looks clients up in order and at most once each; success means every client was looked up; a failure comes after at least one lookup |
| MusiccastClient.FirstAddressesOfResolved | musiccastClient/client.go:126-128 | when every client has an address, client_list holds exactly the first address of each, in order |
| MusiccastClient.FirstAddressesSkipsEmpty | musiccastClient/client.go:126-128 | a client that resolves to no address contributes nothing to the address list |
| MusiccastClient.FirstAddressesAppend | musiccastClient/client.go:120-129 | addresses are collected in order, so the collection distributes over concatenation |
| MusiccastClient.PrepareMaster | musiccastClient/client.go:119-142 | the loop and the POST issue the same events and return the same outcome as the specification MasterRun |
| MusiccastClient.GroupId | musiccastClient/client.go:77 | the group id contains no '-' and is no longer than the UUID text |
| MusiccastClient.Link | musiccastClient/client.go:72-95 | the method issues the same events and returns the same outcome as the specification LinkRun |
| LinkProperties.CompatibilityPassesBeforeLast | musiccastClient/client.go:47-58 | every host before the last one queried answered getFeatures successfully |
| LinkProperties.CompatibilityStopsAtFailure | musiccastClient/client.go:47-51 | when the last host queried failed to answer, its error is the compatibility check's result, and no later host is queried |
| LinkProperties.CheckedAllAccepted | musiccastClient/client.go:47-59 | against a non-empty set, the check succeeds exactly when every remaining host answers and its version is accepted |
| LinkProperties.AcceptedBeforeLast | musiccastClient/client.go:47-58 | against a non-empty set, every host queried before the last one answered and its version was accepted |
| LinkProperties.RejectedAtLast | musiccastClient/client.go:55-57 | against a non-empty set, a failure at a host that answered means that host's version was rejected, and the CompatibilityError names it and the set |
| LinkProperties.CheckedAgainst | musiccastClient/client.go:47-59 | against a non-empty set, the check succeeds exactly when every remaining host answers and is accepted; every host queried before the last one answered and was accepted; when the check fails at a host that answered, that host's version was rejected, and the CompatibilityError names it and the set |
| LinkProperties.ReferenceFound | musiccastClient/client.go:47-54 | hosts with empty compatible lists leave the set empty; the first host k with a non-empty list fixes the set, and the check continues from k + 1 with that set after k + 1 queries; hosts after k need not answer |
| LinkProperties.CompatibilityVerdict | musiccastClient/client.go:45-62 | with k the first host whose list is non-empty (only hosts up to k need to answer): success exactly when every later host answers with a version within tolerance of that list; every host queried between k and the last one was accepted; a failure at a host that answered is the CompatibilityError naming that host's version; success when no host lists any version |
| LinkProperties.CompatibleScenario | musiccastClient/client.go:45-62 | master 1.0 accepting [1.0, 1.05] and client 1.05: the compatibility check passes, with exactly the two queries |
| LinkProperties.IncompatibleScenario | musiccastClient/client.go:72-76 | master 1.0 accepting [1.0] and client 2.0: Link fails with CompatibilityError(2.0, [1.0]) and issues only the two queries |
| LinkProperties.ClientsPassBeforeLast | musiccastClient/client.go:98-103 | every client before the last one contacted was registered successfully |
| LinkProperties.ClientsDoneIff | musiccastClient/client.go:97-105 | prepareClients succeeds exactly when every registration succeeds, the last one included |
| LinkProperties.ClientsStopAtFailure | musiccastClient/client.go:98-103 | a failed registration is prepareClients' result, and no later client is contacted |
| LinkProperties.ResolveStopsAtFailure | musiccastClient/client.go:122-125 | the lookups stop at the first failed one, with a ResolutionError naming that client |
| LinkProperties.ResolveOkMeansResolved | musiccastClient/client.go:121-125 | the lookups succeed only when every client resolves |
| LinkProperties.ResolveCollectsAddresses | musiccastClient/client.go:121-129 | when the lookups succeed, the result is the addresses collected so far followed by the first address of each later client that has one, in order |
| LinkProperties.ResolveCollects | musiccastClient/client.go:121-129 | when no lookup fails, every client was resolved, and the result is the first address of each client that has one, in order |
| LinkProperties.MasterRegistersAfterLookups | musiccastClient/client.go:119-142 | when all lookups succeed: every lookup, then one setServerInfo POST with zone "zone2", type "add" and the collected addresses; the result is that POST's outcome |
| LinkProperties.MasterStopsAtLookupFailure | musiccastClient/client.go:122-125 | a failed lookup ends prepareMaster with its ResolutionError, after only the lookups so far and before any POST |
| LinkProperties.LinkChecksCompatibilityFirst | musiccastClient/client.go:73-76 | Link starts with the compatibility queries; a failed check is the whole run; every registration call comes after all the queries of a passed check |
| LinkProperties.LinkStopsAtClientFailure | musiccastClient/client.go:79-82 | a failed client registration is Link's result, and only feature queries and setClientInfo calls were issued |
| LinkProperties.LinkStartsDistributionLast | musiccastClient/client.go:84-92 | startDistribution is issued only as the very last call, immediately after a setServerInfo |
| LinkProperties.LinkStopsAtMasterFailure | musiccastClient/client.go:84-87 | when the checks and client registrations pass and prepareMaster fails, its error is Link's result, the events are exactly those of the three phases, and no startDistribution is issued |
| LinkProperties.LinkUsesOneGroupId | musiccastClient/client.go:77-89 | every request of one Link carries the same dash-free group id; clients join zone "main"; only the master gets setServerInfo (zone2, add) and startDistribution (num 0); feature queries go only to the master and clients; no power or input calls |
| LinkProperties.MasterPhases | musiccastClient/client.go:119-142 | prepareMaster issues its lookups before its setServerInfo |
| LinkProperties.LinkPhasesInOrder | musiccastClient/client.go:72-95 | Link's events run through the phases in order: queries, client registrations, lookups, master registration, start |
| LinkProperties.LinkSuccessTrace | musiccastClient/client.go:72-95 | a successful Link issues exactly: the queries for master then clients, one setClientInfo per client, one lookup per client, setServerInfo with the collected addresses, and startDistribution |
| LinkProperties.MasterThenStart | musiccastClient/client.go:84-92 | after a successful prepareMaster: the lookups, setServerInfo with the collected addresses, then startDistribution to the master with num 0 |
| LinkProperties.CanonicalGroupId | musiccastClient/client.go:77 | a canonical 8-4-4-4-12 UUID gives the 32-character concatenation of its groups |
| Text.RemoveAll | main.go:26 | removal never lengthens the string |
| Text.RemoveAllUnchanged | main.go:26 | a host without "http://" passes through unchanged |
| Text.RemoveAllSplit | main.go:25-26 | every occurrence of a border-free pattern is removed, with the text on both sides kept |
| Text.RemoveAllIsSinglePass | main.go:26 | a single left-to-right pass: removal can create a new occurrence, which stays |
| Text.RemoveCharGone | musiccastClient/client.go:77 | removing a one-character pattern leaves none of that character |
| Text.RemoveCharKeeps | musiccastClient/client.go:77 | a string without the character is unchanged |
| Text.Split | main.go:25 | at least one piece, and no piece contains the separator |
| Text.JoinSplit | main.go:25 | joining the pieces with the separator gives back the string |
| Cli.ClientHostnames | main.go:25 | the client list is never empty, and no host name contains a comma |
| Cli.MainErr | main.go:19-62 | the method issues the same events and returns the same outcome as the specification MainRun |
| Cli.SchemeIsBorderFree | main.go:25-26 | "http://" has no prefix that is also a suffix |
| Cli.SchemeRemovedAnywhere | main.go:25-26 | every "http://" in a flag is removed, not only a leading one, and the surrounding text is kept |
| Cli.ClientHostnamesJoin | main.go:25 | the client hosts, rejoined with commas, are the flag with "http://" removed |
| Cli.EmptyClientFlag | main.go:25 | an empty clients flag gives the list [""] |
| Cli.StandbyPowersOffMasterThenFirstClient | main.go:28-38 | in standby the master is powered off first; if that fails nothing else is issued, and otherwise only the first client is powered off (zone "main"), and its result is returned |
| Cli.MasterMeansPowerOn | main.go:40-45 | without standby, a non-empty master means one power-on of the master and nothing else |
| Cli.NoMasterMeansLink | main.go:47-53 | without standby and with an empty master, the run is Link with master "" over the client list |
| Cli.InputNeverChanged | main.go:55-60 | no invocation issues a setInput request |
| Cli.EmptyMasterRefusedEndsLink | main.go:47-53 | with an empty master, when the getFeatures request for the empty host fails in transport, the run is that single query and its NetworkError |

## Left out

- HTTP and JSON encoding are left out. These are request URLs, query strings, content types, the bytes of the JSON bodies, and reading or closing bodies. Replies are given as decoded bodies. `Json(envelope)` holds the fields as Go's case-insensitive key matching finds them. `Malformed` is a body that is not JSON, is a JSON value other than an object or `null` (such as `[1]` or `"x"`), or has a mistyped `response_code`; both records reject it. A `response_code` outside the range of Go's `int` counts as mistyped, so an envelope's code is always within that range. The body `null` decodes like `{}`: it is `Json(Envelope(None, None))`. `MistypedDistribution` is a body whose `Distribution` block has the wrong type, which only the features record rejects. `Unreadable` is a body that cannot be read.
- The URL text is left out: every request goes to `http://<host>/YamahaExtendedControl/v1/…`, and the model keeps only the host. Consequently the oracle may answer the getFeatures query that the command-line `Link` sends for master `""`, although Go's HTTP client refuses a URL with an empty host. In the program that path ends with a transport error after the first query. `Cli.EmptyMasterRefusedEndsLink` states the run under that assumption.
- The HTTP client and the DNS resolver are left out. They are the `Network` oracle the operations take as a parameter.
- The UUID generator is left out. The UUID text is a parameter of `Link`, and `CanonicalGroupId` covers its canonical form.
- `json.Marshal` errors are left out. The request records hold only strings and string lists, so those error branches cannot be taken.
- A nil `client_list` is left out. When no client resolves to an address, Go serialises the list as JSON `null`, and the model sends the empty sequence.
- Floating-point arithmetic is left out. Versions are exact `real` numbers, so rounding in `math.Abs(a - b) < 0.10` is not modelled. The `%.2f` text of the compatibility error is not modelled either: the error carries the numbers.
- Logging is left out, and so are the log.Infof/log.Error calls around the operations. They never change a result.
- Flag parsing, `main`, `log.Fatalf` and the exit code are left out. The parsed flags are a `Flags` parameter of `MainErr`.
- The `MusiccastClient` struct and `New` are left out. They only hold the HTTP client and the logger.
- MusiccastClient.PrepareMaster: its specification `MasterRun` carries no ensures of its own. Its properties are the lemmas `MasterRegistersAfterLookups`, `MasterStopsAtLookupFailure` and `MasterPhases`.
