/**
 * The device client and the link orchestration. Every device call and DNS lookup is an
 * event; the answers come from a `Network` oracle that sees the whole history of events up
 * to and including the one being answered. Each operation returns its result together with
 * the events it issued, in order.
 */
module MusiccastClient {
  import opened Outcomes
  import opened ResponseCode
  import opened Requests
  import Text

  /** The HTTP requests the client sends, one constructor per endpoint. */
  datatype Request =
    | SetPowerCall(host: string, zone: string, power: string)           // GET /{zone}/setPower?power=
    | SetInputCall(host: string, zone: string, input: string)           // GET /{zone}/setInput?input=
    | GetFeaturesCall(host: string)                                     // GET /system/getFeatures
    | SetClientInfoCall(host: string, clientLink: LinkRequest)          // POST /dist/setClientInfo
    | SetServerInfoCall(host: string, masterLink: MasterLinkRequest)    // POST /dist/setServerInfo
    | StartDistributionCall(host: string, num: int)                     // GET /dist/startDistribution?num=

  datatype Event = Http(request: Request) | LookupIP(name: string)

  /** What the HTTP client hands back: a transport error, or a reply body. */
  datatype Response = Unreachable(reason: string) | Received(body: Body)

  /** What net.LookupIP hands back. */
  datatype Lookup = LookupFailed(reason: string) | Resolved(addresses: seq<string>)

  /** The devices and the resolver, answering each event given everything issued before it. */
  datatype Network = Network(http: seq<Event> -> Response, dns: seq<Event> -> Lookup)

  /** A result and the events issued to obtain it. */
  datatype Run<T> = Run(result: T, issued: seq<Event>)

  function After<T>(pre: seq<Event>, r: Run<T>): (combined: Run<T>)
  {
    Run(r.result, pre + r.issued)
  }

  lemma AfterAfter<T>(a: seq<Event>, b: seq<Event>, r: Run<T>)
    ensures After(a, After(b, r)) == After(a + b, r)
  {
    assert a + (b + r.issued) == a + b + r.issued;
  }

  /** The reply to `req` when it is issued after the history `h`. */
  function Reply(net: Network, h: seq<Event>, req: Request): (resp: Response)
  {
    net.http(h + [Http(req)])
  }

  /** The device answered and its envelope carries code 0. */
  predicate Acknowledged(resp: Response)
  {
    resp.Received? && IsSuccess(resp.body)
  }

  /** The device answered and the features record decodes with code 0. */
  predicate FeaturesAcknowledged(resp: Response)
  {
    resp.Received? && IsFeaturesSuccess(resp.body)
  }

  /** A GET whose transport error is returned as it is. */
  function GetOutcome(resp: Response): (o: Outcome)
    ensures o.Done? <==> Acknowledged(resp)
    ensures !o.Crashed?
    ensures resp.Unreachable? ==> o == Failed(NetworkError(resp.reason))
    ensures resp.Received? ==> o == MapStatusResponse(resp.body)
  {
    match resp
    case Unreachable(reason) => Failed(NetworkError(reason))
    case Received(body) => MapStatusResponse(body)
  }

  /**
   * A POST whose transport error is ignored: the nil response then reaches the response
   * mapper, which dereferences it and panics.
   */
  function PostOutcome(resp: Response): (o: Outcome)
    ensures o.Done? <==> Acknowledged(resp)
    ensures o.Crashed? <==> resp.Unreachable?
    ensures resp.Received? ==> o == MapStatusResponse(resp.body)
  {
    match resp
    case Unreachable(_) => Crashed
    case Received(body) => MapStatusResponse(body)
  }

  // ---------------------------------------------------------------------------------------
  // Single-call operations

  function Power(net: Network, h: seq<Event>, host: string, zone: string, powerStatus: string): (r: Run<Outcome>)
    ensures r.issued == [Http(SetPowerCall(host, zone, powerStatus))]
    ensures r.result == GetOutcome(Reply(net, h, SetPowerCall(host, zone, powerStatus)))
  {
    var req := SetPowerCall(host, zone, powerStatus);
    Run(GetOutcome(Reply(net, h, req)), [Http(req)])
  }

  /** One setPower request with "on"; success exactly when the device acknowledges it. */
  function PowerOn(net: Network, h: seq<Event>, host: string, zone: string): (r: Run<Outcome>)
    ensures r.issued == [Http(SetPowerCall(host, zone, "on"))]
    ensures r.result.Done? <==> Acknowledged(Reply(net, h, SetPowerCall(host, zone, "on")))
    ensures !r.result.Crashed?
    ensures r.result == GetOutcome(Reply(net, h, SetPowerCall(host, zone, "on")))
  {
    Power(net, h, host, zone, "on")
  }

  /** One setPower request with "standby"; success exactly when the device acknowledges it. */
  function PowerOff(net: Network, h: seq<Event>, host: string, zone: string): (r: Run<Outcome>)
    ensures r.issued == [Http(SetPowerCall(host, zone, "standby"))]
    ensures r.result.Done? <==> Acknowledged(Reply(net, h, SetPowerCall(host, zone, "standby")))
    ensures !r.result.Crashed?
    ensures r.result == GetOutcome(Reply(net, h, SetPowerCall(host, zone, "standby")))
  {
    Power(net, h, host, zone, "standby")
  }

  /** setIput: one setInput request. */
  function SetInput(net: Network, h: seq<Event>, host: string, zone: string, input: string): (r: Run<Outcome>)
    ensures r.issued == [Http(SetInputCall(host, zone, input))]
    ensures r.result == GetOutcome(Reply(net, h, SetInputCall(host, zone, input)))
  {
    var req := SetInputCall(host, zone, input);
    Run(GetOutcome(Reply(net, h, req)), [Http(req)])
  }

  /** ChangeInput: the setInput call, its error returned unchanged. */
  function ChangeInput(net: Network, h: seq<Event>, host: string, zone: string, input: string): (r: Run<Outcome>)
    ensures r.issued == [Http(SetInputCall(host, zone, input))]
    ensures r.result.Done? <==> Acknowledged(Reply(net, h, SetInputCall(host, zone, input)))
    ensures !r.result.Crashed?
    ensures r.result == GetOutcome(Reply(net, h, SetInputCall(host, zone, input)))
  {
    var call := SetInput(net, h, host, zone, input);
    if !call.result.Done? then call else Run(Done, call.issued)
  }

  /** getFeatures: one query; the distribution block exactly when the device acknowledges it. */
  function GetFeatures(net: Network, h: seq<Event>, host: string): (r: Run<Result<Distribution>>)
    ensures r.issued == [Http(GetFeaturesCall(host))]
    ensures r.result.Ok? <==> FeaturesAcknowledged(Reply(net, h, GetFeaturesCall(host)))
    ensures Reply(net, h, GetFeaturesCall(host)).Unreachable? ==>
      r.result == Err(NetworkError(Reply(net, h, GetFeaturesCall(host)).reason))
    ensures Reply(net, h, GetFeaturesCall(host)).Received? ==>
      r.result == MapFeaturesResponse(Reply(net, h, GetFeaturesCall(host)).body)
  {
    var req := GetFeaturesCall(host);
    var result :=
      match Reply(net, h, req)
      case Unreachable(reason) => Err(NetworkError(reason))
      case Received(body) => MapFeaturesResponse(body);
    Run(result, [Http(req)])
  }

  /** prepareClient: one setClientInfo POST joining the zone "main" to the group. */
  function PrepareClient(net: Network, h: seq<Event>, groupId: string, host: string): (r: Run<Outcome>)
    ensures r.issued == [Http(SetClientInfoCall(host, LinkRequest(groupId, ["main"])))]
    ensures r.result == PostOutcome(Reply(net, h, SetClientInfoCall(host, LinkRequest(groupId, ["main"]))))
  {
    var req := SetClientInfoCall(host, LinkRequest(groupId, ["main"]));
    Run(PostOutcome(Reply(net, h, req)), [Http(req)])
  }

  /** startDistribution: one request to the master, always for slot 0. */
  function StartDistribution(net: Network, h: seq<Event>, master: string): (r: Run<Outcome>)
    ensures r.issued == [Http(StartDistributionCall(master, 0))]
    ensures r.result == GetOutcome(Reply(net, h, StartDistributionCall(master, 0)))
  {
    var req := StartDistributionCall(master, 0);
    Run(GetOutcome(Reply(net, h, req)), [Http(req)])
  }

  // ---------------------------------------------------------------------------------------
  // Version tolerance

  const TOLERANCE: real := 0.10

  function Abs(x: real): (a: real)
  {
    if x < 0.0 then -x else x
  }

  /** withTolerane: the two versions differ by strictly less than 0.10. */
  function WithTolerance(a: real, b: real): (r: bool)
    ensures r <==> a - TOLERANCE < b < a + TOLERANCE
  {
    Abs(a - b) < TOLERANCE
  }

  /** Some version in the accepted set is within tolerance of `v`. */
  predicate Accepted(versions: seq<real>, v: real)
  {
    exists i :: 0 <= i < |versions| && WithTolerance(versions[i], v)
  }

  /** contains: a linear scan for an accepted version within tolerance. */
  method Contains(s: seq<real>, e: real) returns (found: bool)
    ensures found <==> Accepted(s, e)
  {
    for i := 0 to |s|
      invariant forall j :: 0 <= j < i ==> !WithTolerance(s[j], e)
    {
      if WithTolerance(s[i], e) {
        return true;
      }
    }
    return false;
  }

  // ---------------------------------------------------------------------------------------
  // Compatibility check

  /** The getFeatures queries for `hosts`, in order. */
  function FeatureQueries(hosts: seq<string>): (q: seq<Event>)
    ensures |q| == |hosts|
    ensures forall j :: 0 <= j < |hosts| ==> q[j] == Http(GetFeaturesCall(hosts[j]))
  {
    if hosts == [] then []
    else FeatureQueries(hosts[..|hosts| - 1]) + [Http(GetFeaturesCall(hosts[|hosts| - 1]))]
  }

  /** The getFeatures answer for host `i`, queried after hosts 0 to i-1. */
  function Answer(net: Network, h: seq<Event>, hosts: seq<string>, i: nat): (answer: Result<Distribution>)
    requires i < |hosts|
  {
    GetFeatures(net, h + FeatureQueries(hosts[..i]), hosts[i]).result
  }

  /**
   * areDevicesCompatible from host `i` on, with accepted set `versions`: while the set is
   * empty a host's compatible list becomes the set; after that a host's version must match it.
   */
  function CompatibilityFrom(net: Network, h: seq<Event>, hosts: seq<string>, i: nat, versions: seq<real>): (r: Run<Outcome>)
    requires i <= |hosts|
    ensures |r.issued| <= |hosts| - i
    ensures forall j :: 0 <= j < |r.issued| ==> r.issued[j] == Http(GetFeaturesCall(hosts[i + j]))
    ensures r.result.Done? ==> |r.issued| == |hosts| - i
    ensures !r.result.Done? ==> r.result.Failed? && |r.issued| > 0
    decreases |hosts| - i
  {
    if i == |hosts| then Run(Done, [])
    else
      var e := Http(GetFeaturesCall(hosts[i]));
      match Answer(net, h, hosts, i)
      case Err(err) => Run(Failed(err), [e])
      case Ok(d) =>
        if |versions| == 0 then
          After([e], CompatibilityFrom(net, h, hosts, i + 1, versions + d.compatibleClient))
        else if !Accepted(versions, d.version) then
          Run(Failed(CompatibilityError(d.version, versions)), [e])
        else
          After([e], CompatibilityFrom(net, h, hosts, i + 1, versions))
  }

  lemma FeatureQueriesStep(hosts: seq<string>, i: nat)
    requires i < |hosts|
    ensures FeatureQueries(hosts[..i + 1]) == FeatureQueries(hosts[..i]) + [Http(GetFeaturesCall(hosts[i]))]
  {
    assert hosts[..i + 1][..i] == hosts[..i];
  }

  /** One step of the compatibility check, for host `i`. */
  lemma CompatibilityStep(net: Network, h: seq<Event>, hosts: seq<string>, i: nat, versions: seq<real>)
    requires i < |hosts|
    ensures var r := CompatibilityFrom(net, h, hosts, i, versions);
      var answer := Answer(net, h, hosts, i);
      var e := Http(GetFeaturesCall(hosts[i]));
      (answer.Err? ==> r == Run(Failed(answer.error), [e])) &&
      (answer.Ok? && |versions| == 0 ==>
         r == After([e], CompatibilityFrom(net, h, hosts, i + 1, versions + answer.value.compatibleClient))) &&
      (answer.Ok? && |versions| > 0 && !Accepted(versions, answer.value.version) ==>
         r == Run(Failed(CompatibilityError(answer.value.version, versions)), [e])) &&
      (answer.Ok? && |versions| > 0 && Accepted(versions, answer.value.version) ==>
         r == After([e], CompatibilityFrom(net, h, hosts, i + 1, versions)))
  {
  }

  method AreDevicesCompatible(net: Network, h: seq<Event>, hosts: seq<string>) returns (o: Outcome, issued: seq<Event>)
    ensures Run(o, issued) == CompatibilityFrom(net, h, hosts, 0, [])
  {
    var versions: seq<real> := [];
    issued := [];
    assert hosts[..0] == [];
    for i := 0 to |hosts|
      invariant issued == FeatureQueries(hosts[..i])
      invariant CompatibilityFrom(net, h, hosts, 0, []) == After(issued, CompatibilityFrom(net, h, hosts, i, versions))
    {
      FeatureQueriesStep(hosts, i);
      CompatibilityStep(net, h, hosts, i, versions);
      ghost var before := issued;
      var features := GetFeatures(net, h + issued, hosts[i]);
      assert features.result == Answer(net, h, hosts, i);
      issued := issued + features.issued;
      if features.result.Err? {
        return Failed(features.result.error), issued;
      }
      var d := features.result.value;
      if |versions| == 0 {
        versions := versions + d.compatibleClient;
      } else {
        var ok := Contains(versions, d.version);
        if !ok {
          return Failed(CompatibilityError(d.version, versions)), issued;
        }
      }
      AfterAfter(before, features.issued, CompatibilityFrom(net, h, hosts, i + 1, versions));
    }
    o := Done;
  }

  // ---------------------------------------------------------------------------------------
  // Client registration

  /** The setClientInfo request for one client. */
  function ClientRequest(groupId: string, host: string): (req: Request)
  {
    SetClientInfoCall(host, LinkRequest(groupId, ["main"]))
  }

  /** The setClientInfo requests for `clients`, in order. */
  function RegistrationCalls(groupId: string, clients: seq<string>): (q: seq<Event>)
    ensures |q| == |clients|
    ensures forall j :: 0 <= j < |clients| ==> q[j] == Http(ClientRequest(groupId, clients[j]))
  {
    if clients == [] then []
    else RegistrationCalls(groupId, clients[..|clients| - 1]) + [Http(ClientRequest(groupId, clients[|clients| - 1]))]
  }

  lemma RegistrationCallsStep(groupId: string, clients: seq<string>, i: nat)
    requires i < |clients|
    ensures RegistrationCalls(groupId, clients[..i + 1]) == RegistrationCalls(groupId, clients[..i]) + [Http(ClientRequest(groupId, clients[i]))]
  {
    assert clients[..i + 1][..i] == clients[..i];
  }

  /** The outcome of registering client `i`, after clients 0 to i-1. */
  function Registration(net: Network, h: seq<Event>, groupId: string, clients: seq<string>, i: nat): (o: Outcome)
    requires i < |clients|
  {
    PrepareClient(net, h + RegistrationCalls(groupId, clients[..i]), groupId, clients[i]).result
  }

  /** prepareClients from client `i` on: register in order, stop at the first failure. */
  function ClientsFrom(net: Network, h: seq<Event>, groupId: string, clients: seq<string>, i: nat): (r: Run<Outcome>)
    requires i <= |clients|
    ensures |r.issued| <= |clients| - i
    ensures forall j :: 0 <= j < |r.issued| ==> r.issued[j] == Http(ClientRequest(groupId, clients[i + j]))
    ensures r.result.Done? ==> |r.issued| == |clients| - i
    ensures !r.result.Done? ==> |r.issued| > 0
    decreases |clients| - i
  {
    if i == |clients| then Run(Done, [])
    else
      var o := Registration(net, h, groupId, clients, i);
      if !o.Done? then Run(o, [Http(ClientRequest(groupId, clients[i]))])
      else After([Http(ClientRequest(groupId, clients[i]))], ClientsFrom(net, h, groupId, clients, i + 1))
  }

  /** One step of client registration, for client `i`. */
  lemma ClientsStep(net: Network, h: seq<Event>, groupId: string, clients: seq<string>, i: nat)
    requires i < |clients|
    ensures var r := ClientsFrom(net, h, groupId, clients, i);
      var o := Registration(net, h, groupId, clients, i);
      var e := Http(ClientRequest(groupId, clients[i]));
      (!o.Done? ==> r == Run(o, [e])) &&
      (o.Done? ==> r == After([e], ClientsFrom(net, h, groupId, clients, i + 1)))
  {
  }

  method PrepareClients(net: Network, h: seq<Event>, groupId: string, clients: seq<string>) returns (o: Outcome, issued: seq<Event>)
    ensures Run(o, issued) == ClientsFrom(net, h, groupId, clients, 0)
  {
    issued := [];
    assert clients[..0] == [];
    for i := 0 to |clients|
      invariant issued == RegistrationCalls(groupId, clients[..i])
      invariant ClientsFrom(net, h, groupId, clients, 0) == After(issued, ClientsFrom(net, h, groupId, clients, i))
    {
      RegistrationCallsStep(groupId, clients, i);
      ClientsStep(net, h, groupId, clients, i);
      ghost var before := issued;
      var call := PrepareClient(net, h + issued, groupId, clients[i]);
      assert call.result == Registration(net, h, groupId, clients, i);
      issued := issued + call.issued;
      if !call.result.Done? {
        return call.result, issued;
      }
      AfterAfter(before, call.issued, ClientsFrom(net, h, groupId, clients, i + 1));
    }
    o := Done;
  }

  // ---------------------------------------------------------------------------------------
  // Master registration

  /** The DNS lookups for `clients`, in order. */
  function LookupCalls(clients: seq<string>): (q: seq<Event>)
    ensures |q| == |clients|
    ensures forall j :: 0 <= j < |clients| ==> q[j] == LookupIP(clients[j])
  {
    if clients == [] then []
    else LookupCalls(clients[..|clients| - 1]) + [LookupIP(clients[|clients| - 1])]
  }

  lemma LookupCallsStep(clients: seq<string>, i: nat)
    requires i < |clients|
    ensures LookupCalls(clients[..i + 1]) == LookupCalls(clients[..i]) + [LookupIP(clients[i])]
  {
    assert clients[..i + 1][..i] == clients[..i];
  }

  /** The resolver's answer for client `i`, looked up after clients 0 to i-1. */
  function LookupAt(net: Network, h: seq<Event>, clients: seq<string>, i: nat): (answer: Lookup)
    requires i < |clients|
  {
    net.dns(h + LookupCalls(clients[..i + 1]))
  }

  /** The address a Resolved answer contributes to client_list: its first one, if any. */
  function FirstAddress(answer: Lookup): (ips: seq<string>)
  {
    if answer.Resolved? && |answer.addresses| > 0 then [answer.addresses[0]] else []
  }

  /** The first address of every answer that has one, in answer order. */
  function FirstAddresses(answers: seq<Lookup>): (ips: seq<string>)
    ensures |ips| <= |answers|
    decreases |answers|
  {
    if answers == [] then [] else FirstAddress(answers[0]) + FirstAddresses(answers[1..])
  }

  /** When every answer has an address, client_list has one entry per answer: its first address. */
  lemma {:induction false} FirstAddressesOfResolved(answers: seq<Lookup>)
    requires forall j :: 0 <= j < |answers| ==> answers[j].Resolved? && |answers[j].addresses| > 0
    ensures |FirstAddresses(answers)| == |answers|
    ensures forall j :: 0 <= j < |answers| ==> FirstAddresses(answers)[j] == answers[j].addresses[0]
    decreases |answers|
  {
    if answers != [] {
      FirstAddressesOfResolved(answers[1..]);
    }
  }

  /** An answer without addresses adds nothing: it is skipped, not rejected. */
  lemma FirstAddressesSkipsEmpty(before: seq<Lookup>, after: seq<Lookup>)
    ensures FirstAddresses(before + [Resolved([])] + after) == FirstAddresses(before + after)
  {
    FirstAddressesAppend(before, [Resolved([])] + after);
    FirstAddressesAppend(before, after);
    assert before + [Resolved([])] + after == before + ([Resolved([])] + after);
    assert ([Resolved([])] + after)[1..] == after;
  }

  lemma {:induction false} FirstAddressesAppend(a: seq<Lookup>, b: seq<Lookup>)
    ensures FirstAddresses(a + b) == FirstAddresses(a) + FirstAddresses(b)
    decreases |a|
  {
    if a != [] {
      assert (a + b)[1..] == a[1..] + b;
      FirstAddressesAppend(a[1..], b);
    } else {
      assert a + b == b;
    }
  }

  /** The resolver's answers for clients `i` onwards. */
  function AnswersFrom(net: Network, h: seq<Event>, clients: seq<string>, i: nat): (a: seq<Lookup>)
    requires i <= |clients|
    ensures |a| == |clients| - i
    ensures forall j :: 0 <= j < |a| ==> a[j] == LookupAt(net, h, clients, i + j)
    decreases |clients| - i
  {
    if i == |clients| then [] else [LookupAt(net, h, clients, i)] + AnswersFrom(net, h, clients, i + 1)
  }

  /** The lookup loop of prepareMaster from client `i` on, with the addresses `ips` collected so far. */
  function ResolveFrom(net: Network, h: seq<Event>, clients: seq<string>, i: nat, ips: seq<string>): (r: Run<Result<seq<string>>>)
    requires i <= |clients|
    ensures |r.issued| <= |clients| - i
    ensures forall j :: 0 <= j < |r.issued| ==> r.issued[j] == LookupIP(clients[i + j])
    ensures r.result.Ok? ==> |r.issued| == |clients| - i
    ensures r.result.Err? ==> |r.issued| > 0
    decreases |clients| - i
  {
    if i == |clients| then Run(Ok(ips), [])
    else
      var e := LookupIP(clients[i]);
      match LookupAt(net, h, clients, i)
      case LookupFailed(reason) => Run(Err(ResolutionError(clients[i], reason)), [e])
      case Resolved(addresses) =>
        After([e], ResolveFrom(net, h, clients, i + 1, if |addresses| > 0 then ips + [addresses[0]] else ips))
  }

  /** The setServerInfo request: zone "zone2", type "add", the collected client addresses. */
  function MasterRequest(groupId: string, master: string, clientIps: seq<string>): (req: Request)
  {
    SetServerInfoCall(master, MasterLinkRequest(groupId, "zone2", "add", clientIps))
  }

  /** prepareMaster: resolve every client, then one setServerInfo POST to the master. */
  function MasterRun(net: Network, h: seq<Event>, groupId: string, master: string, clients: seq<string>): (run: Run<Outcome>)
  {
    var resolve := ResolveFrom(net, h, clients, 0, []);
    match resolve.result
    case Err(err) => Run(Failed(err), resolve.issued)
    case Ok(ips) =>
      var req := MasterRequest(groupId, master, ips);
      Run(PostOutcome(Reply(net, h + resolve.issued, req)), resolve.issued + [Http(req)])
  }

  /** One step of the lookup loop, for client `i`. */
  lemma ResolveStep(net: Network, h: seq<Event>, clients: seq<string>, i: nat, ips: seq<string>)
    requires i < |clients|
    ensures var r := ResolveFrom(net, h, clients, i, ips);
      var answer := LookupAt(net, h, clients, i);
      var e := LookupIP(clients[i]);
      (answer.LookupFailed? ==> r == Run(Err(ResolutionError(clients[i], answer.reason)), [e])) &&
      (answer.Resolved? && |answer.addresses| > 0 ==>
         r == After([e], ResolveFrom(net, h, clients, i + 1, ips + [answer.addresses[0]]))) &&
      (answer.Resolved? && |answer.addresses| == 0 ==> r == After([e], ResolveFrom(net, h, clients, i + 1, ips)))
  {
  }

  method PrepareMaster(net: Network, h: seq<Event>, groupId: string, master: string, clients: seq<string>) returns (o: Outcome, issued: seq<Event>)
    ensures Run(o, issued) == MasterRun(net, h, groupId, master, clients)
  {
    var clientIps: seq<string> := [];
    issued := [];
    assert clients[..0] == [];
    for i := 0 to |clients|
      invariant issued == LookupCalls(clients[..i])
      invariant ResolveFrom(net, h, clients, 0, []) == After(issued, ResolveFrom(net, h, clients, i, clientIps))
    {
      LookupCallsStep(clients, i);
      ResolveStep(net, h, clients, i, clientIps);
      ghost var before := issued;
      issued := issued + [LookupIP(clients[i])];
      var answer := net.dns(h + issued);
      assert answer == LookupAt(net, h, clients, i);
      if answer.LookupFailed? {
        return Failed(ResolutionError(clients[i], answer.reason)), issued;
      }
      if |answer.addresses| > 0 {
        clientIps := clientIps + [answer.addresses[0]];
      }
      AfterAfter(before, [LookupIP(clients[i])], ResolveFrom(net, h, clients, i + 1, clientIps));
    }
    assert ResolveFrom(net, h, clients, 0, []) == Run(Ok(clientIps), issued);
    var request := MasterRequest(groupId, master, clientIps);
    o := PostOutcome(Reply(net, h + issued, request));
    issued := issued + [Http(request)];
  }

  // ---------------------------------------------------------------------------------------
  // Link

  /** The group id: the UUID text with every '-' removed. */
  function GroupId(uuid: string): (id: string)
    ensures '-' !in id
    ensures |id| <= |uuid|
  {
    Text.RemoveCharGone(uuid, '-');
    Text.RemoveAll(uuid, "-")
  }

  /** Link: compatibility check, client registration, master registration, distribution start. */
  function LinkRun(net: Network, h: seq<Event>, uuid: string, master: string, clients: seq<string>): (run: Run<Outcome>)
  {
    var check := CompatibilityFrom(net, h, [master] + clients, 0, []);
    if !check.result.Done? then check
    else
      var groupId := GroupId(uuid);
      var h1 := h + check.issued;
      var register := ClientsFrom(net, h1, groupId, clients, 0);
      if !register.result.Done? then After(check.issued, register)
      else
        var h2 := h1 + register.issued;
        var announce := MasterRun(net, h2, groupId, master, clients);
        if !announce.result.Done? then After(check.issued + register.issued, announce)
        else
          var start := StartDistribution(net, h2 + announce.issued, master);
          After(check.issued + register.issued + announce.issued, start)
  }

  method Link(net: Network, h: seq<Event>, uuid: string, master: string, clients: seq<string>) returns (o: Outcome, issued: seq<Event>)
    ensures Run(o, issued) == LinkRun(net, h, uuid, master, clients)
  {
    ghost var run := LinkRun(net, h, uuid, master, clients);
    var checked;
    o, checked := AreDevicesCompatible(net, h, [master] + clients);
    issued := checked;
    if !o.Done? {
      assert run == Run(o, checked);
      return;
    }
    var groupId := GroupId(uuid);
    var registered, announced;
    o, registered := PrepareClients(net, h + checked, groupId, clients);
    issued := checked + registered;
    if !o.Done? {
      assert run == After(checked, Run(o, registered));
      return;
    }
    var h2 := h + checked + registered;
    o, announced := PrepareMaster(net, h2, groupId, master, clients);
    issued := checked + registered + announced;
    if !o.Done? {
      assert run == After(checked + registered, Run(o, announced));
      return;
    }
    var start := StartDistribution(net, h2 + announced, master);
    assert run == After(checked + registered + announced, start);
    o, issued := start.result, issued + start.issued;
  }
}
