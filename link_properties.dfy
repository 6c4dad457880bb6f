/**
 * Properties of the compatibility check, the master registration and the link sequence.
 */
module LinkProperties {
  import opened Outcomes
  import opened ResponseCode
  import opened Requests
  import opened MusiccastClient
  import Text

  // ---------------------------------------------------------------------------------------
  // Compatibility check

  /** Every host before the last one queried answered getFeatures successfully. */
  lemma {:induction false} CompatibilityPassesBeforeLast(net: Network, h: seq<Event>, hosts: seq<string>, i: nat, versions: seq<real>)
    requires i <= |hosts|
    ensures var r := CompatibilityFrom(net, h, hosts, i, versions);
      forall j :: i <= j < i + |r.issued| - 1 ==> Answer(net, h, hosts, j).Ok?
    decreases |hosts| - i
  {
    if i < |hosts| {
      var answer := Answer(net, h, hosts, i);
      if answer.Ok? && (|versions| == 0 || Accepted(versions, answer.value.version)) {
        var next := if |versions| == 0 then versions + answer.value.compatibleClient else versions;
        CompatibilityStep(net, h, hosts, i, versions);
        CompatibilityPassesBeforeLast(net, h, hosts, i + 1, next);
      }
    }
  }

  /**
   * A getFeatures failure ends the compatibility check: when the last host queried failed to answer, its
   * error is the compatibility check's result, and the hosts after it are never queried.
   */
  lemma {:induction false} CompatibilityStopsAtFailure(net: Network, h: seq<Event>, hosts: seq<string>, i: nat, versions: seq<real>)
    requires i <= |hosts|
    ensures var r := CompatibilityFrom(net, h, hosts, i, versions);
      |r.issued| > 0 && Answer(net, h, hosts, i + |r.issued| - 1).Err? ==>
        r.result == Failed(Answer(net, h, hosts, i + |r.issued| - 1).error)
    decreases |hosts| - i
  {
    if i < |hosts| {
      var answer := Answer(net, h, hosts, i);
      if answer.Ok? && (|versions| == 0 || Accepted(versions, answer.value.version)) {
        var next := if |versions| == 0 then versions + answer.value.compatibleClient else versions;
        CompatibilityStep(net, h, hosts, i, versions);
        CompatibilityStopsAtFailure(net, h, hosts, i + 1, next);
      }
    }
  }

  /** Against a non-empty accepted set, the check succeeds exactly when every remaining host answers and is accepted. */
  lemma {:induction false} CheckedAllAccepted(net: Network, h: seq<Event>, hosts: seq<string>, i: nat, versions: seq<real>)
    requires i <= |hosts| && versions != []
    ensures CompatibilityFrom(net, h, hosts, i, versions).result.Done? <==>
      forall j :: i <= j < |hosts| ==> Answer(net, h, hosts, j).Ok? && Accepted(versions, Answer(net, h, hosts, j).value.version)
    decreases |hosts| - i
  {
    if i < |hosts| {
      CompatibilityStep(net, h, hosts, i, versions);
      var answer := Answer(net, h, hosts, i);
      if answer.Ok? && Accepted(versions, answer.value.version) {
        CheckedAllAccepted(net, h, hosts, i + 1, versions);
      }
    }
  }

  /** Against a non-empty accepted set, every host queried before the last one answered and was accepted. */
  lemma {:induction false} AcceptedBeforeLast(net: Network, h: seq<Event>, hosts: seq<string>, i: nat, versions: seq<real>)
    requires i <= |hosts| && versions != []
    ensures var r := CompatibilityFrom(net, h, hosts, i, versions);
      forall j :: i <= j < i + |r.issued| - 1 ==> Answer(net, h, hosts, j).Ok? && Accepted(versions, Answer(net, h, hosts, j).value.version)
    decreases |hosts| - i
  {
    if i < |hosts| {
      CompatibilityStep(net, h, hosts, i, versions);
      var answer := Answer(net, h, hosts, i);
      if answer.Ok? && Accepted(versions, answer.value.version) {
        AcceptedBeforeLast(net, h, hosts, i + 1, versions);
      }
    }
  }

  /**
   * Against a non-empty accepted set, when the check fails at a host that answered, that
   * host's version was rejected and is the one the CompatibilityError names.
   */
  lemma {:induction false} RejectedAtLast(net: Network, h: seq<Event>, hosts: seq<string>, i: nat, versions: seq<real>)
    requires i <= |hosts| && versions != []
    ensures var r := CompatibilityFrom(net, h, hosts, i, versions);
      var last := i + |r.issued| - 1;
      !r.result.Done? && Answer(net, h, hosts, last).Ok? ==>
        !Accepted(versions, Answer(net, h, hosts, last).value.version) &&
        r.result == Failed(CompatibilityError(Answer(net, h, hosts, last).value.version, versions))
    decreases |hosts| - i
  {
    if i < |hosts| {
      CompatibilityStep(net, h, hosts, i, versions);
      var answer := Answer(net, h, hosts, i);
      if answer.Ok? && Accepted(versions, answer.value.version) {
        RejectedAtLast(net, h, hosts, i + 1, versions);
      }
    }
  }

  /**
   * The check of hosts `from` onwards against `accepted` stops at the first rejected host, as
   * seen in a run `r` whose first query is for host `start`. The check succeeds exactly when every
   * host from `from` on answers and is accepted. Every host from `from` up to the last one queried
   * answered and was accepted. When the check failed at a host from `from` on that did answer,
   * that host's version was rejected, and it is the one the CompatibilityError names.
   */
  ghost predicate StopsAtFirstRejection(net: Network, h: seq<Event>, hosts: seq<string>, start: nat, from: nat, accepted: seq<real>, r: Run<Outcome>)
    requires from <= |hosts| && start + |r.issued| <= |hosts|
  {
    var last := start + |r.issued| - 1;
    (r.result.Done? <==>
       forall j :: from <= j < |hosts| ==> Answer(net, h, hosts, j).Ok? && Accepted(accepted, Answer(net, h, hosts, j).value.version)) &&
    (forall j :: from <= j < last ==> Answer(net, h, hosts, j).Ok? && Accepted(accepted, Answer(net, h, hosts, j).value.version)) &&
    (!r.result.Done? && last >= from && Answer(net, h, hosts, last).Ok? ==>
       !Accepted(accepted, Answer(net, h, hosts, last).value.version) &&
       r.result == Failed(CompatibilityError(Answer(net, h, hosts, last).value.version, accepted)))
  }

  /** StopsAtFirstRejection depends only on a run's result and on the host it last queried. */
  lemma RejectionSeenFromEarlierStart(net: Network, h: seq<Event>, hosts: seq<string>, start: nat, from: nat, accepted: seq<real>, r: Run<Outcome>, start': nat, r': Run<Outcome>)
    requires from <= |hosts| && start + |r.issued| <= |hosts|
    requires r'.result == r.result && start' + |r'.issued| == start + |r.issued|
    requires StopsAtFirstRejection(net, h, hosts, start, from, accepted, r)
    ensures StopsAtFirstRejection(net, h, hosts, start', from, accepted, r')
  {
  }

  /** Against a non-empty accepted set the check stops at the first rejected host. */
  lemma CheckedAgainst(net: Network, h: seq<Event>, hosts: seq<string>, i: nat, versions: seq<real>)
    requires i <= |hosts| && versions != []
    ensures StopsAtFirstRejection(net, h, hosts, i, i, versions, CompatibilityFrom(net, h, hosts, i, versions))
  {
    CheckedAllAccepted(net, h, hosts, i, versions);
    AcceptedBeforeLast(net, h, hosts, i, versions);
    RejectedAtLast(net, h, hosts, i, versions);
  }

  /**
   * Hosts with an empty compatible list only pass the empty set on: the first host `k` with a
   * non-empty list fixes the set, and the check goes on from `k + 1` with it, after the
   * queries for hosts `i` to `k`.
   */
  lemma {:induction false} ReferenceFound(net: Network, h: seq<Event>, hosts: seq<string>, i: nat, k: nat)
    requires i <= k <= |hosts|
    requires forall j :: i <= j < k ==> Answer(net, h, hosts, j).Ok? && Answer(net, h, hosts, j).value.compatibleClient == []
    requires k < |hosts| ==> Answer(net, h, hosts, k).Ok?
    ensures var r := CompatibilityFrom(net, h, hosts, i, []);
      (k == |hosts| ==> r.result.Done?) &&
      (k < |hosts| ==>
         var rest := CompatibilityFrom(net, h, hosts, k + 1, Answer(net, h, hosts, k).value.compatibleClient);
         r.result == rest.result && |r.issued| == k + 1 - i + |rest.issued|)
    decreases k - i
  {
    if i < k {
      CompatibilityStep(net, h, hosts, i, []);
      assert [] + Answer(net, h, hosts, i).value.compatibleClient == [];
      ReferenceFound(net, h, hosts, i + 1, k);
    } else if k < |hosts| {
      CompatibilityStep(net, h, hosts, k, []);
      assert [] + Answer(net, h, hosts, k).value.compatibleClient == Answer(net, h, hosts, k).value.compatibleClient;
    }
  }

  /**
   * The verdict of areDevicesCompatible: the accepted set is the compatible list of the
   * first host `k` whose list is non-empty (hosts before `k` are never checked), and the check
   * of the hosts after `k` against it stops at the first rejected host. When no host lists a
   * compatible version, the check succeeds.
   */
  lemma CompatibilityVerdict(net: Network, h: seq<Event>, hosts: seq<string>, k: nat)
    requires k <= |hosts|
    requires forall j :: 0 <= j < k ==> Answer(net, h, hosts, j).Ok? && Answer(net, h, hosts, j).value.compatibleClient == []
    requires k < |hosts| ==> Answer(net, h, hosts, k).Ok? && Answer(net, h, hosts, k).value.compatibleClient != []
    ensures k == |hosts| ==> CompatibilityFrom(net, h, hosts, 0, []).result.Done?
    ensures k < |hosts| ==>
      StopsAtFirstRejection(net, h, hosts, 0, k + 1, Answer(net, h, hosts, k).value.compatibleClient, CompatibilityFrom(net, h, hosts, 0, []))
  {
    ReferenceFound(net, h, hosts, 0, k);
    if k < |hosts| {
      var accepted := Answer(net, h, hosts, k).value.compatibleClient;
      var rest := CompatibilityFrom(net, h, hosts, k + 1, accepted);
      CheckedAgainst(net, h, hosts, k + 1, accepted);
      RejectionSeenFromEarlierStart(net, h, hosts, k + 1, k + 1, accepted, rest, 0, CompatibilityFrom(net, h, hosts, 0, []));
    }
  }

  // ---------------------------------------------------------------------------------------
  // Client registration

  /** Every client before the last one sent setClientInfo was registered successfully. */
  lemma {:induction false} ClientsPassBeforeLast(net: Network, h: seq<Event>, groupId: string, clients: seq<string>, i: nat)
    requires i <= |clients|
    ensures var r := ClientsFrom(net, h, groupId, clients, i);
      forall j :: i <= j < i + |r.issued| - 1 ==> Registration(net, h, groupId, clients, j).Done?
    decreases |clients| - i
  {
    if i < |clients| {
      ClientsStep(net, h, groupId, clients, i);
      if Registration(net, h, groupId, clients, i).Done? {
        ClientsPassBeforeLast(net, h, groupId, clients, i + 1);
      }
    }
  }

  /** prepareClients from client `i` on succeeds exactly when every registration from `i` on, the last one included, succeeds. */
  lemma {:induction false} ClientsDoneIff(net: Network, h: seq<Event>, groupId: string, clients: seq<string>, i: nat)
    requires i <= |clients|
    ensures ClientsFrom(net, h, groupId, clients, i).result.Done? <==>
      forall j :: i <= j < |clients| ==> Registration(net, h, groupId, clients, j).Done?
    decreases |clients| - i
  {
    if i < |clients| {
      ClientsStep(net, h, groupId, clients, i);
      if Registration(net, h, groupId, clients, i).Done? {
        ClientsDoneIff(net, h, groupId, clients, i + 1);
      }
    }
  }

  /** A failed registration ends prepareClients with that registration's outcome; later clients are not contacted. */
  lemma {:induction false} ClientsStopAtFailure(net: Network, h: seq<Event>, groupId: string, clients: seq<string>, i: nat)
    requires i <= |clients|
    ensures var r := ClientsFrom(net, h, groupId, clients, i);
      !r.result.Done? ==> r.result == Registration(net, h, groupId, clients, i + |r.issued| - 1)
    decreases |clients| - i
  {
    if i < |clients| {
      ClientsStep(net, h, groupId, clients, i);
      if Registration(net, h, groupId, clients, i).Done? {
        ClientsStopAtFailure(net, h, groupId, clients, i + 1);
      }
    }
  }

  // ---------------------------------------------------------------------------------------
  // Master registration

  /** The lookup loop stops at the first failed lookup, with a ResolutionError naming that client. */
  lemma {:induction false} ResolveStopsAtFailure(net: Network, h: seq<Event>, clients: seq<string>, i: nat, ips: seq<string>)
    requires i <= |clients|
    ensures var r := ResolveFrom(net, h, clients, i, ips);
      (forall j :: i <= j < i + |r.issued| - 1 ==> LookupAt(net, h, clients, j).Resolved?) &&
      (r.result.Err? ==>
         LookupAt(net, h, clients, i + |r.issued| - 1).LookupFailed? &&
         r.result.error == ResolutionError(clients[i + |r.issued| - 1], LookupAt(net, h, clients, i + |r.issued| - 1).reason))
    decreases |clients| - i
  {
    if i < |clients| {
      var answer := LookupAt(net, h, clients, i);
      if answer.Resolved? {
        ResolveStopsAtFailure(net, h, clients, i + 1, if |answer.addresses| > 0 then ips + [answer.addresses[0]] else ips);
      }
    }
  }

  /** The lookups succeed only when every client from `i` on resolves. */
  lemma {:induction false} ResolveOkMeansResolved(net: Network, h: seq<Event>, clients: seq<string>, i: nat, ips: seq<string>)
    requires i <= |clients|
    ensures ResolveFrom(net, h, clients, i, ips).result.Ok? ==>
      forall j :: i <= j < |clients| ==> LookupAt(net, h, clients, j).Resolved?
    decreases |clients| - i
  {
    if i < |clients| {
      var answer := LookupAt(net, h, clients, i);
      ResolveStep(net, h, clients, i, ips);
      if answer.Resolved? {
        var next := if |answer.addresses| > 0 then ips + [answer.addresses[0]] else ips;
        ResolveOkMeansResolved(net, h, clients, i + 1, next);
      }
    }
  }

  /** When the lookups succeed, the loop yields the first address of every client that has one, in order. */
  lemma {:induction false} ResolveCollectsAddresses(net: Network, h: seq<Event>, clients: seq<string>, i: nat, ips: seq<string>)
    requires i <= |clients|
    ensures var r := ResolveFrom(net, h, clients, i, ips);
      r.result.Ok? ==> r.result.value == ips + FirstAddresses(AnswersFrom(net, h, clients, i))
    decreases |clients| - i
  {
    if i < |clients| {
      var answer := LookupAt(net, h, clients, i);
      ResolveStep(net, h, clients, i, ips);
      if answer.Resolved? {
        var next := if |answer.addresses| > 0 then ips + [answer.addresses[0]] else ips;
        ResolveCollectsAddresses(net, h, clients, i + 1, next);
        FirstAddressesFrom(net, h, clients, i);
        assert next == ips + FirstAddress(answer);
      }
    }
  }

  /** When every lookup succeeds, the loop yields the first address of every client that has one, in order. */
  lemma ResolveCollects(net: Network, h: seq<Event>, clients: seq<string>, i: nat, ips: seq<string>)
    requires i <= |clients|
    ensures var r := ResolveFrom(net, h, clients, i, ips);
      r.result.Ok? ==>
        (forall j :: i <= j < |clients| ==> LookupAt(net, h, clients, j).Resolved?) &&
        r.result.value == ips + FirstAddresses(AnswersFrom(net, h, clients, i))
  {
    ResolveOkMeansResolved(net, h, clients, i, ips);
    ResolveCollectsAddresses(net, h, clients, i, ips);
  }

  /** The addresses collected from client `i` on: client `i`'s first address, then the rest. */
  lemma FirstAddressesFrom(net: Network, h: seq<Event>, clients: seq<string>, i: nat)
    requires i < |clients|
    ensures FirstAddresses(AnswersFrom(net, h, clients, i)) ==
      FirstAddress(LookupAt(net, h, clients, i)) + FirstAddresses(AnswersFrom(net, h, clients, i + 1))
  {
    var rest := AnswersFrom(net, h, clients, i + 1);
    assert AnswersFrom(net, h, clients, i) == [LookupAt(net, h, clients, i)] + rest;
    assert ([LookupAt(net, h, clients, i)] + rest)[1..] == rest;
  }

  /**
   * prepareMaster when every lookup succeeds: one setServerInfo POST after the lookups, in
   * zone "zone2" with type "add" and the first address of each client, in client order.
   */
  lemma MasterRegistersAfterLookups(net: Network, h: seq<Event>, groupId: string, master: string, clients: seq<string>)
    requires forall j :: 0 <= j < |clients| ==> LookupAt(net, h, clients, j).Resolved?
    ensures var request := SetServerInfoCall(master, MasterLinkRequest(groupId, "zone2", "add", FirstAddresses(AnswersFrom(net, h, clients, 0))));
      MasterRun(net, h, groupId, master, clients) ==
        Run(PostOutcome(Reply(net, h + LookupCalls(clients), request)), LookupCalls(clients) + [Http(request)])
  {
    var resolve := ResolveFrom(net, h, clients, 0, []);
    ResolveCollects(net, h, clients, 0, []);
    ResolveStopsAtFailure(net, h, clients, 0, []);
    assert resolve.result.Ok?;
    var ips := FirstAddresses(AnswersFrom(net, h, clients, 0));
    assert [] + ips == ips;
    assert resolve.result.value == ips;
    assert resolve.issued == LookupCalls(clients);
  }

  /** prepareMaster stops at the first failed lookup with a ResolutionError, before any POST. */
  lemma MasterStopsAtLookupFailure(net: Network, h: seq<Event>, groupId: string, master: string, clients: seq<string>, f: nat)
    requires f < |clients| && LookupAt(net, h, clients, f).LookupFailed?
    requires forall j :: 0 <= j < f ==> LookupAt(net, h, clients, j).Resolved?
    ensures MasterRun(net, h, groupId, master, clients) ==
      Run(Failed(ResolutionError(clients[f], LookupAt(net, h, clients, f).reason)), LookupCalls(clients[..f + 1]))
  {
    var resolve := ResolveFrom(net, h, clients, 0, []);
    ResolveCollects(net, h, clients, 0, []);
    ResolveStopsAtFailure(net, h, clients, 0, []);
    assert resolve.result.Err?;
    assert |resolve.issued| - 1 == f;
    assert resolve.issued == LookupCalls(clients[..f + 1]);
  }

  // ---------------------------------------------------------------------------------------
  // Link

  /** A call that registers a device in a group or starts distribution. */
  predicate IsRegistration(e: Event)
  {
    e.Http? && (e.request.SetClientInfoCall? || e.request.SetServerInfoCall? || e.request.StartDistributionCall?)
  }

  /**
   * Link issues the compatibility queries first; when the compatibility check fails nothing else is
   * issued, and every registration call comes after all the queries of a successful check.
   */
  lemma LinkChecksCompatibilityFirst(net: Network, h: seq<Event>, uuid: string, master: string, clients: seq<string>)
    ensures var check := CompatibilityFrom(net, h, [master] + clients, 0, []);
      var run := LinkRun(net, h, uuid, master, clients);
      check.issued <= run.issued &&
      (!check.result.Done? ==> run == check) &&
      (forall j :: 0 <= j < |run.issued| && IsRegistration(run.issued[j]) ==> check.result.Done? && |check.issued| <= j)
  {
  }

  /** When a client registration fails, Link returns that failure and issues no lookup, setServerInfo or startDistribution. */
  lemma LinkStopsAtClientFailure(net: Network, h: seq<Event>, uuid: string, master: string, clients: seq<string>)
    requires CompatibilityFrom(net, h, [master] + clients, 0, []).result.Done?
    ensures var check := CompatibilityFrom(net, h, [master] + clients, 0, []);
      var register := ClientsFrom(net, h + check.issued, GroupId(uuid), clients, 0);
      var run := LinkRun(net, h, uuid, master, clients);
      !register.result.Done? ==>
        run.result == register.result &&
        run.issued == check.issued + register.issued &&
        forall j :: 0 <= j < |run.issued| ==>
          run.issued[j].Http? && (run.issued[j].request.GetFeaturesCall? || run.issued[j].request.SetClientInfoCall?)
  {
  }

  /** A startDistribution, when a Link issues one, is its last request and follows setServerInfo. */
  lemma LinkStartsDistributionLast(net: Network, h: seq<Event>, uuid: string, master: string, clients: seq<string>)
    ensures var run := LinkRun(net, h, uuid, master, clients);
      (exists j :: 0 <= j < |run.issued| && run.issued[j].Http? && run.issued[j].request.StartDistributionCall?) ==>
        |run.issued| >= 2 && run.issued[|run.issued| - 1] == Http(StartDistributionCall(master, 0)) &&
        run.issued[|run.issued| - 2].Http? && run.issued[|run.issued| - 2].request.SetServerInfoCall?
  {
  }

  /**
   * When the master registration fails, its error is the result of the Link, the requests
   * issued are those of the three phases run so far, and no startDistribution is issued.
   */
  lemma LinkStopsAtMasterFailure(net: Network, h: seq<Event>, uuid: string, master: string, clients: seq<string>)
    ensures var run := LinkRun(net, h, uuid, master, clients);
      var check := CompatibilityFrom(net, h, [master] + clients, 0, []);
      var groupId := GroupId(uuid);
      var register := ClientsFrom(net, h + check.issued, groupId, clients, 0);
      var announce := MasterRun(net, h + check.issued + register.issued, groupId, master, clients);
      check.result.Done? && register.result.Done? && !announce.result.Done? ==>
        run.result == announce.result && run.issued == check.issued + register.issued + announce.issued &&
        forall j :: 0 <= j < |run.issued| ==> !(run.issued[j].Http? && run.issued[j].request.StartDistributionCall?)
  {
    var check := CompatibilityFrom(net, h, [master] + clients, 0, []);
    var groupId := GroupId(uuid);
    var register := ClientsFrom(net, h + check.issued, groupId, clients, 0);
    var announce := MasterRun(net, h + check.issued + register.issued, groupId, master, clients);
    if check.result.Done? && register.result.Done? && !announce.result.Done? {
      assert PhasesWithin(check.issued, 0, 0);
      assert PhasesWithin(register.issued, 1, 1);
      MasterPhases(net, h + check.issued + register.issued, groupId, master, clients);
      NoStartBeforePhaseFour(check.issued, register.issued, announce.issued);
    }
  }

  /**
   * The host and body a Link request may have: clients join zone "main" of the group, the
   * master registers zone "zone2" with type "add" in the same group, and the master alone
   * receives setServerInfo and startDistribution with num 0. Power and input calls are not
   * part of a Link.
   */
  predicate Addressed(e: Event, groupId: string, master: string, clients: seq<string>)
  {
    e.Http? ==>
      match e.request
      case SetClientInfoCall(host, link) => host in clients && link == LinkRequest(groupId, ["main"])
      case SetServerInfoCall(host, link) =>
        host == master && link.groupId == groupId && link.zone == "zone2" && link.linkType == "add"
      case StartDistributionCall(host, num) => host == master && num == 0
      case GetFeaturesCall(host) => host in [master] + clients
      case SetPowerCall(_, _, _) => false
      case SetInputCall(_, _, _) => false
  }

  predicate AllAddressed(s: seq<Event>, groupId: string, master: string, clients: seq<string>)
  {
    forall j :: 0 <= j < |s| ==> Addressed(s[j], groupId, master, clients)
  }

  lemma AddressedAppend(a: seq<Event>, b: seq<Event>, groupId: string, master: string, clients: seq<string>)
    requires AllAddressed(a, groupId, master, clients) && AllAddressed(b, groupId, master, clients)
    ensures AllAddressed(a + b, groupId, master, clients)
  {
    forall j | 0 <= j < |a + b| ensures Addressed((a + b)[j], groupId, master, clients) {
      if j < |a| {
        assert (a + b)[j] == a[j];
      } else {
        assert (a + b)[j] == b[j - |a|];
      }
    }
  }

  /** Every request of one Link is addressed as Addressed says, with one group id that has no '-'. */
  lemma LinkUsesOneGroupId(net: Network, h: seq<Event>, uuid: string, master: string, clients: seq<string>)
    ensures '-' !in GroupId(uuid)
    ensures AllAddressed(LinkRun(net, h, uuid, master, clients).issued, GroupId(uuid), master, clients)
  {
    var hosts := [master] + clients;
    var groupId := GroupId(uuid);
    var check := CompatibilityFrom(net, h, hosts, 0, []);
    assert AllAddressed(check.issued, groupId, master, clients) by {
      assert forall j :: 0 <= j < |check.issued| ==> check.issued[j] == Http(GetFeaturesCall(hosts[j]));
    }
    if check.result.Done? {
      var h1 := h + check.issued;
      var register := ClientsFrom(net, h1, groupId, clients, 0);
      assert AllAddressed(register.issued, groupId, master, clients) by {
        assert forall j :: 0 <= j < |register.issued| ==> register.issued[j] == Http(ClientRequest(groupId, clients[j]));
      }
      AddressedAppend(check.issued, register.issued, groupId, master, clients);
      if register.result.Done? {
        var h2 := h1 + register.issued;
        var resolve := ResolveFrom(net, h2, clients, 0, []);
        var announce := MasterRun(net, h2, groupId, master, clients);
        assert AllAddressed(resolve.issued, groupId, master, clients);
        if resolve.result.Ok? {
          var post := [Http(MasterRequest(groupId, master, resolve.result.value))];
          AddressedAppend(resolve.issued, post, groupId, master, clients);
        }
        AddressedAppend(check.issued + register.issued, announce.issued, groupId, master, clients);
        if announce.result.Done? {
          var start := StartDistribution(net, h2 + announce.issued, master);
          AddressedAppend(check.issued + register.issued + announce.issued, start.issued, groupId, master, clients);
        }
      }
    }
  }

  /** The phase of a Link event: queries, client registrations, lookups, master registration, start. */
  function Phase(e: Event): (p: nat)
  {
    match e
    case LookupIP(_) => 2
    case Http(request) =>
      match request
      case GetFeaturesCall(_) => 0
      case SetClientInfoCall(_, _) => 1
      case SetServerInfoCall(_, _) => 3
      case StartDistributionCall(_, _) => 4
      case SetPowerCall(_, _, _) => 5
      case SetInputCall(_, _, _) => 5
  }

  predicate PhasesOrdered(s: seq<Event>)
  {
    forall i, j :: 0 <= i < j < |s| ==> Phase(s[i]) <= Phase(s[j])
  }

  predicate PhasesWithin(s: seq<Event>, lo: nat, hi: nat)
  {
    forall i :: 0 <= i < |s| ==> lo <= Phase(s[i]) <= hi
  }

  /** Events of the phases before startDistribution contain no startDistribution. */
  lemma NoStartBeforePhaseFour(check: seq<Event>, register: seq<Event>, announce: seq<Event>)
    requires PhasesWithin(check, 0, 0) && PhasesWithin(register, 1, 1) && PhasesWithin(announce, 2, 3)
    ensures forall j :: 0 <= j < |check + register + announce| ==>
      !((check + register + announce)[j].Http? && (check + register + announce)[j].request.StartDistributionCall?)
  {
    PhasesWithinAppend(check, register, 0, 1, 3);
    PhasesWithinAppend(check + register, announce, 0, 3, 3);
  }

  lemma PhasesWithinAppend(a: seq<Event>, b: seq<Event>, lo: nat, p: nat, hi: nat)
    requires PhasesWithin(a, lo, p) && PhasesWithin(b, lo, hi) && p <= hi
    ensures PhasesWithin(a + b, lo, hi)
  {
    forall i | 0 <= i < |a + b| ensures lo <= Phase((a + b)[i]) <= hi {
      if i < |a| {
        assert (a + b)[i] == a[i];
      } else {
        assert (a + b)[i] == b[i - |a|];
      }
    }
  }

  lemma Uniform(s: seq<Event>, p: nat)
    requires PhasesWithin(s, p, p)
    ensures PhasesOrdered(s)
  {
  }

  lemma OrderedAppend(a: seq<Event>, b: seq<Event>, lo: nat, p: nat, hi: nat)
    requires PhasesOrdered(a) && PhasesOrdered(b)
    requires lo <= p <= hi && PhasesWithin(a, lo, p) && PhasesWithin(b, p, hi)
    ensures PhasesOrdered(a + b) && PhasesWithin(a + b, lo, hi)
  {
    forall i, j | 0 <= i < j < |a + b| ensures Phase((a + b)[i]) <= Phase((a + b)[j]) {
      if j < |a| {
        assert (a + b)[i] == a[i] && (a + b)[j] == a[j];
      } else if i < |a| {
        assert (a + b)[i] == a[i] && (a + b)[j] == b[j - |a|];
      } else {
        assert (a + b)[i] == b[i - |a|] && (a + b)[j] == b[j - |a|];
      }
    }
    forall i | 0 <= i < |a + b| ensures lo <= Phase((a + b)[i]) <= hi {
      if i < |a| {
        assert (a + b)[i] == a[i];
      } else {
        assert (a + b)[i] == b[i - |a|];
      }
    }
  }

  /** prepareMaster's events: lookups, then at most the setServerInfo POST. */
  lemma MasterPhases(net: Network, h: seq<Event>, groupId: string, master: string, clients: seq<string>)
    ensures PhasesOrdered(MasterRun(net, h, groupId, master, clients).issued)
    ensures PhasesWithin(MasterRun(net, h, groupId, master, clients).issued, 2, 3)
  {
    var resolve := ResolveFrom(net, h, clients, 0, []);
    assert PhasesWithin(resolve.issued, 2, 2);
    Uniform(resolve.issued, 2);
    if resolve.result.Ok? {
      var post := [Http(MasterRequest(groupId, master, resolve.result.value))];
      assert PhasesWithin(post, 3, 3);
      Uniform(post, 3);
      OrderedAppend(resolve.issued, post, 2, 2, 3);
    }
  }

  /** Link is a strict sequence: its events never go back to an earlier phase. */
  lemma LinkPhasesInOrder(net: Network, h: seq<Event>, uuid: string, master: string, clients: seq<string>)
    ensures PhasesOrdered(LinkRun(net, h, uuid, master, clients).issued)
    ensures PhasesWithin(LinkRun(net, h, uuid, master, clients).issued, 0, 4)
  {
    var check := CompatibilityFrom(net, h, [master] + clients, 0, []);
    assert PhasesWithin(check.issued, 0, 0);
    Uniform(check.issued, 0);
    if check.result.Done? {
      var groupId := GroupId(uuid);
      var h1 := h + check.issued;
      var register := ClientsFrom(net, h1, groupId, clients, 0);
      assert PhasesWithin(register.issued, 1, 1);
      Uniform(register.issued, 1);
      OrderedAppend(check.issued, register.issued, 0, 0, 1);
      if register.result.Done? {
        var h2 := h1 + register.issued;
        var announce := MasterRun(net, h2, groupId, master, clients);
        MasterPhases(net, h2, groupId, master, clients);
        OrderedAppend(check.issued + register.issued, announce.issued, 0, 1, 3);
        if announce.result.Done? {
          var start := StartDistribution(net, h2 + announce.issued, master);
          assert PhasesWithin(start.issued, 4, 4);
          Uniform(start.issued, 4);
          OrderedAppend(check.issued + register.issued + announce.issued, start.issued, 0, 3, 4);
        }
      }
    }
  }

  /**
   * A successful Link issues exactly: getFeatures for the master and then each client,
   * setClientInfo for each client, a lookup of each client, setServerInfo with the
   * collected addresses and startDistribution, in that order.
   */
  lemma LinkSuccessTrace(net: Network, h: seq<Event>, uuid: string, master: string, clients: seq<string>)
    ensures var run := LinkRun(net, h, uuid, master, clients);
      var groupId := GroupId(uuid);
      var h2 := h + FeatureQueries([master] + clients) + RegistrationCalls(groupId, clients);
      run.result.Done? ==>
        run.issued == FeatureQueries([master] + clients) + RegistrationCalls(groupId, clients) + LookupCalls(clients) +
          [Http(SetServerInfoCall(master, MasterLinkRequest(groupId, "zone2", "add", FirstAddresses(AnswersFrom(net, h2, clients, 0))))),
           Http(StartDistributionCall(master, 0))]
  {
    var run := LinkRun(net, h, uuid, master, clients);
    if run.result.Done? {
      var hosts := [master] + clients;
      var groupId := GroupId(uuid);
      var check := CompatibilityFrom(net, h, hosts, 0, []);
      assert check.result.Done?;
      CompatibilityIssuesAllQueries(net, h, hosts);
      var register := ClientsFrom(net, h + check.issued, groupId, clients, 0);
      assert register.result.Done?;
      ClientsIssueAllRequests(net, h + check.issued, groupId, clients);
      var h2 := h + check.issued + register.issued;
      var announce := MasterRun(net, h2, groupId, master, clients);
      assert announce.result.Done?;
      var start := StartDistribution(net, h2 + announce.issued, master);
      MasterThenStart(net, h2, groupId, master, clients);
      var front := FeatureQueries(hosts) + RegistrationCalls(groupId, clients);
      assert run.issued == front + announce.issued + start.issued;
      Regroup(front, announce.issued, start.issued);
      var post := Http(SetServerInfoCall(master, MasterLinkRequest(groupId, "zone2", "add", FirstAddresses(AnswersFrom(net, h2, clients, 0)))));
      Regroup(front, LookupCalls(clients), [post, Http(StartDistributionCall(master, 0))]);
    }
  }

  lemma Regroup(a: seq<Event>, b: seq<Event>, c: seq<Event>)
    ensures a + b + c == a + (b + c)
  {
  }

  /** After a successful master registration: the lookups, setServerInfo, then startDistribution. */
  lemma MasterThenStart(net: Network, h: seq<Event>, groupId: string, master: string, clients: seq<string>)
    ensures var announce := MasterRun(net, h, groupId, master, clients);
      var start := StartDistribution(net, h + announce.issued, master);
      announce.result.Done? ==>
        announce.issued + start.issued == LookupCalls(clients) +
          [Http(SetServerInfoCall(master, MasterLinkRequest(groupId, "zone2", "add", FirstAddresses(AnswersFrom(net, h, clients, 0))))),
           Http(StartDistributionCall(master, 0))]
  {
    var announce := MasterRun(net, h, groupId, master, clients);
    if announce.result.Done? {
      ResolveCollects(net, h, clients, 0, []);
      MasterRegistersAfterLookups(net, h, groupId, master, clients);
    }
  }

  lemma CompatibilityIssuesAllQueries(net: Network, h: seq<Event>, hosts: seq<string>)
    ensures var r := CompatibilityFrom(net, h, hosts, 0, []);
      r.result.Done? ==> r.issued == FeatureQueries(hosts)
  {
  }

  lemma ClientsIssueAllRequests(net: Network, h: seq<Event>, groupId: string, clients: seq<string>)
    ensures var r := ClientsFrom(net, h, groupId, clients, 0);
      r.result.Done? ==> r.issued == RegistrationCalls(groupId, clients)
  {
  }

  /** A canonical UUID text (8-4-4-4-12 hex digits) gives a 32-character group id. */
  lemma CanonicalGroupId(a: string, b: string, c: string, d: string, e: string)
    requires |a| == 8 && |b| == 4 && |c| == 4 && |d| == 4 && |e| == 12
    requires '-' !in a && '-' !in b && '-' !in c && '-' !in d && '-' !in e
    ensures GroupId(a + "-" + b + "-" + c + "-" + d + "-" + e) == a + b + c + d + e
    ensures |GroupId(a + "-" + b + "-" + c + "-" + d + "-" + e)| == 32
  {
    var pat := "-";
    assert Text.BorderFree(pat);
    var de := d + pat + e;
    var cde := c + pat + de;
    var bcde := b + pat + cde;
    assert a + "-" + b + "-" + c + "-" + d + "-" + e == a + pat + bcde;
    Text.RemoveAllSplit(a, bcde, pat);
    Text.RemoveAllSplit(b, cde, pat);
    Text.RemoveAllSplit(c, de, pat);
    Text.RemoveAllSplit(d, e, pat);
    Text.RemoveCharKeeps(a, '-');
    Text.RemoveCharKeeps(b, '-');
    Text.RemoveCharKeeps(c, '-');
    Text.RemoveCharKeeps(d, '-');
    Text.RemoveCharKeeps(e, '-');
  }

  /**
   * A master of version 1.0 accepting [1.0, 1.05] and one client of version 1.05: the
   * check passes (0.05 is within tolerance) after exactly the two queries.
   */
  lemma CompatibleScenario(net: Network, h: seq<Event>, master: string, client: string, clientList: seq<real>)
    requires Answer(net, h, [master, client], 0) == Ok(Distribution(1.0, [1.0, 1.05]))
    requires Answer(net, h, [master, client], 1) == Ok(Distribution(1.05, clientList))
    ensures CompatibilityFrom(net, h, [master, client], 0, []) ==
      Run(Done, [Http(GetFeaturesCall(master)), Http(GetFeaturesCall(client))])
  {
    var hosts, accepted := [master, client], [1.0, 1.05];
    assert Accepted(accepted, 1.05) by {
      assert WithTolerance(accepted[1], 1.05);
    }
    assert [] + accepted == accepted;
    assert CompatibilityFrom(net, h, hosts, 2, accepted) == Run(Done, []);
    assert CompatibilityFrom(net, h, hosts, 1, accepted) == Run(Done, [Http(GetFeaturesCall(client))]);
  }

  /**
   * A master of version 1.0 accepting only [1.0] and a client of version 2.0: Link fails with
   * a CompatibilityError naming 2.0 and issues nothing but the two queries.
   */
  lemma IncompatibleScenario(net: Network, h: seq<Event>, uuid: string, master: string, client: string, clientList: seq<real>)
    requires Answer(net, h, [master, client], 0) == Ok(Distribution(1.0, [1.0]))
    requires Answer(net, h, [master, client], 1) == Ok(Distribution(2.0, clientList))
    ensures LinkRun(net, h, uuid, master, [client]) ==
      Run(Failed(CompatibilityError(2.0, [1.0])), [Http(GetFeaturesCall(master)), Http(GetFeaturesCall(client))])
  {
    var hosts, accepted := [master, client], [1.0];
    assert [master] + [client] == hosts;
    assert !Accepted(accepted, 2.0) by {
      assert !WithTolerance(accepted[0], 2.0);
    }
    assert [] + accepted == accepted;
    assert CompatibilityFrom(net, h, hosts, 1, accepted) == Run(Failed(CompatibilityError(2.0, accepted)), [Http(GetFeaturesCall(client))]);
  }
}
