/**
 * The command-line entry point: host normalisation and the choice between standby,
 * power-on, link and input change.
 */
module Cli {
  import opened Outcomes
  import opened MusiccastClient
  import LinkProperties
  import Text

  const SCHEME := "http://"

  /** The flag values after parsing. */
  datatype Flags = Flags(master: string, masterZone: string, masterInput: string, clients: string, standby: bool)

  /** The master host with every "http://" removed. */
  function MasterHostname(f: Flags): (host: string)
  {
    Text.RemoveAll(f.master, SCHEME)
  }

  /** The client list: every "http://" removed, then split on commas; never empty. */
  function ClientHostnames(f: Flags): (hosts: seq<string>)
    ensures |hosts| >= 1
    ensures forall i :: 0 <= i < |hosts| ==> ',' !in hosts[i]
  {
    Text.Split(Text.RemoveAll(f.clients, SCHEME), ',')
  }

  /** mainErr: the operations one invocation issues and the error it returns. */
  function MainRun(net: Network, h: seq<Event>, uuid: string, f: Flags): (run: Run<Outcome>)
  {
    var clientHostnames := ClientHostnames(f);
    var masterHostname := MasterHostname(f);
    if f.standby then
      var off := PowerOff(net, h, masterHostname, f.masterZone);
      if !off.result.Done? then off
      else if |clientHostnames| == 0 then off
      else After(off.issued, PowerOff(net, h + off.issued, clientHostnames[0], "main"))
    else if masterHostname != "" then PowerOn(net, h, masterHostname, f.masterZone)
    else if |clientHostnames| > 0 then LinkRun(net, h, uuid, masterHostname, clientHostnames)
    else if |f.masterInput| > 0 then ChangeInput(net, h, masterHostname, f.masterZone, f.masterInput)
    else Run(Done, [])
  }

  method MainErr(net: Network, h: seq<Event>, uuid: string, f: Flags) returns (o: Outcome, issued: seq<Event>)
    ensures Run(o, issued) == MainRun(net, h, uuid, f)
  {
    var clientHostnames := ClientHostnames(f);
    var masterHostname := MasterHostname(f);
    if f.standby {
      var off := PowerOff(net, h, masterHostname, f.masterZone);
      o, issued := off.result, off.issued;
      if !o.Done? {
        return;
      }
      for i := 0 to |clientHostnames|
        invariant i == 0
      {
        var clientOff := PowerOff(net, h + issued, clientHostnames[i], "main");
        o, issued := clientOff.result, issued + clientOff.issued;
        return;
      }
      return Done, issued;
    }
    if masterHostname != "" {
      var on := PowerOn(net, h, masterHostname, f.masterZone);
      return on.result, on.issued;
    }
    if |clientHostnames| > 0 {
      o, issued := Link(net, h, uuid, masterHostname, clientHostnames);
      return;
    }
    if |f.masterInput| > 0 {
      var change := ChangeInput(net, h, masterHostname, f.masterZone, f.masterInput);
      return change.result, change.issued;
    }
    return Done, [];
  }

  // ---------------------------------------------------------------------------------------
  // Properties

  lemma SchemeIsBorderFree()
    ensures Text.BorderFree(SCHEME)
  {
    forall k | 0 < k < |SCHEME| ensures SCHEME[k..] != SCHEME[..|SCHEME| - k] {
      assert SCHEME[k..][0] == SCHEME[k] != 'h';
    }
  }

  /** Every "http://" is removed, not only a leading one: the text around it is kept. */
  lemma SchemeRemovedAnywhere(before: string, after: string)
    ensures Text.RemoveAll(before + SCHEME + after, SCHEME) == Text.RemoveAll(before, SCHEME) + Text.RemoveAll(after, SCHEME)
  {
    SchemeIsBorderFree();
    Text.RemoveAllSplit(before, after, SCHEME);
  }

  /** The client list loses nothing: joined with commas it is the normalised flag value. */
  lemma ClientHostnamesJoin(f: Flags)
    ensures Text.Join(ClientHostnames(f), ',') == Text.RemoveAll(f.clients, SCHEME)
  {
    Text.JoinSplit(Text.RemoveAll(f.clients, SCHEME), ',');
  }

  /** An empty client flag gives the one-element list [""]. */
  lemma EmptyClientFlag(f: Flags)
    requires f.clients == ""
    ensures ClientHostnames(f) == [""]
  {
  }

  /**
   * Standby comes first: the master is powered off in its zone; if that fails nothing else
   * is issued, otherwise only the first client is powered off, in zone "main", and its
   * result is returned.
   */
  lemma StandbyPowersOffMasterThenFirstClient(net: Network, h: seq<Event>, uuid: string, f: Flags)
    requires f.standby
    ensures var run := MainRun(net, h, uuid, f);
      var masterOff := PowerOff(net, h, MasterHostname(f), f.masterZone);
      var first := ClientHostnames(f)[0];
      (!masterOff.result.Done? ==> run == masterOff) &&
      (masterOff.result.Done? ==>
         run.issued == [Http(SetPowerCall(MasterHostname(f), f.masterZone, "standby")), Http(SetPowerCall(first, "main", "standby"))] &&
         run.result == PowerOff(net, h + masterOff.issued, first, "main").result)
  {
  }

  /** Not in standby, a non-empty master means power-on and nothing else: Link is never reached. */
  lemma MasterMeansPowerOn(net: Network, h: seq<Event>, uuid: string, f: Flags)
    requires !f.standby && MasterHostname(f) != ""
    ensures MainRun(net, h, uuid, f) == PowerOn(net, h, MasterHostname(f), f.masterZone)
    ensures MainRun(net, h, uuid, f).issued == [Http(SetPowerCall(MasterHostname(f), f.masterZone, "on"))]
  {
  }

  /** Not in standby, an empty master always means Link with master "" and the client list. */
  lemma NoMasterMeansLink(net: Network, h: seq<Event>, uuid: string, f: Flags)
    requires !f.standby && MasterHostname(f) == ""
    ensures MainRun(net, h, uuid, f) == LinkRun(net, h, uuid, "", ClientHostnames(f))
  {
  }

  /**
   * The Link that mainErr runs has master "", so its first request is getFeatures for the
   * empty host. When the HTTP client refuses that request, the whole run is that one query
   * and its NetworkError.
   */
  lemma EmptyMasterRefusedEndsLink(net: Network, h: seq<Event>, uuid: string, f: Flags)
    requires !f.standby && MasterHostname(f) == ""
    requires Reply(net, h, GetFeaturesCall("")).Unreachable?
    ensures MainRun(net, h, uuid, f) ==
      Run(Failed(NetworkError(Reply(net, h, GetFeaturesCall("")).reason)), [Http(GetFeaturesCall(""))])
  {
    var hosts := [""] + ClientHostnames(f);
    assert hosts[..0] == [];
    assert h + FeatureQueries(hosts[..0]) == h;
    assert Answer(net, h, hosts, 0) == Err(NetworkError(Reply(net, h, GetFeaturesCall("")).reason));
    CompatibilityStep(net, h, hosts, 0, []);
    NoMasterMeansLink(net, h, uuid, f);
  }

  /** The input-change path cannot be reached: no invocation issues setInput. */
  lemma InputNeverChanged(net: Network, h: seq<Event>, uuid: string, f: Flags)
    ensures var run := MainRun(net, h, uuid, f);
      forall j :: 0 <= j < |run.issued| ==> !(run.issued[j].Http? && run.issued[j].request.SetInputCall?)
  {
    if !f.standby && MasterHostname(f) == "" {
      LinkProperties.LinkPhasesInOrder(net, h, uuid, "", ClientHostnames(f));
    }
  }
}
