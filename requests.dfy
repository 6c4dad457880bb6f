/** The JSON bodies of the two group-registration requests. */
module Requests {

  /** Body of setClientInfo: the group to join and the zones that join it. */
  datatype LinkRequest = LinkRequest(groupId: string, zones: seq<string>)

  /** Body of setServerInfo: the group, the master zone, the operation and the client addresses. */
  datatype MasterLinkRequest = MasterLinkRequest(groupId: string, zone: string, linkType: string, clientList: seq<string>)
}
