/** The node list of the explorer (src/infrastructure/NodeService.js): the
    API-endpoint rule of formatted peers, the role and reward-program filters
    of the peer list with its 1-based index and reshaping, and the status of
    an API node derived from its health answer. */
module Nodes {
  import opened Common

  /** A peer record as the explorer holds it: a plain object. */
  type Node = map<string, Value>

  // -----------------------------------------------------------------------
  // formatNodeInfo
  // -----------------------------------------------------------------------

  /** The role values whose nodes run an API: `2`, `3`, `6` and `7`, compared
      strictly, so a role given as text never counts. */
  predicate HasApiRole(roles: Value) {
    StrictEq(roles, Num(2)) || StrictEq(roles, Num(3))
    || StrictEq(roles, Num(6)) || StrictEq(roles, Num(7))
  }

  /** The `apiEndpoint` field: the node's host with the configured API port
      (3000 when that is falsy), or UNAVAILABLE for nodes without the API role. */
  function ApiEndpoint(roles: Value, host: Value, apiNodePort: Value): (r: string)
    ensures HasApiRole(roles) ==>
              r == "http://" + ToStr(host) + ":" + ToStr(Or(apiNodePort, Num(3000)))
    ensures !HasApiRole(roles) ==> r == UNAVAILABLE
  {
    if HasApiRole(roles)
    then "http://" + ToStr(host) + ":" + ToStr(Or(apiNodePort, Num(3000)))
    else UNAVAILABLE
  }

  /** Among the role combinations of peer, api and voting nodes (0 to 7), the
      endpoint is given exactly to the combinations holding the API bit (2). */
  lemma ApiRoleIsApiBit(n: int)
    requires 0 <= n <= 7
    ensures HasApiRole(Num(n)) <==> (n / 2) % 2 == 1
  {
  }

  /** A role combination with a flag above the three base bits (8 and up)
      gets no endpoint even when it holds the API bit. */
  lemma ApiRoleIgnoresWiderRoles(n: int)
    requires n >= 8
    ensures ApiEndpoint(Num(n), Undefined, Undefined) == UNAVAILABLE
  {
  }

  /** The fields `formatNodeInfo` sets on top of the node's own. */
  const DerivedKeys: set<string> :=
    {"nodePublicKey", "address", "rolesRaw", "roles", "network", "version", "apiEndpoint"}

  /** `formatNodeInfo`: the node's own fields, then the derived ones. The
      address, role name, network name and version are computed by the SDK
      and by lookup tables and are passed in already computed. */
  function FormatNodeInfo(nodeInfo: Node, apiNodePort: Value, address: Value,
                          roleName: Value, networkName: Value, version: Value): (r: Node)
    ensures r.Keys == nodeInfo.Keys + DerivedKeys
    ensures r["nodePublicKey"] == Get(nodeInfo, "publicKey")
    ensures r["rolesRaw"] == Get(nodeInfo, "roles")
    ensures r["apiEndpoint"] ==
              Str(ApiEndpoint(Get(nodeInfo, "roles"), Get(nodeInfo, "host"), apiNodePort))
    ensures forall k :: k in nodeInfo && k !in DerivedKeys ==> r[k] == nodeInfo[k]
  {
    nodeInfo + map[
      "nodePublicKey" := Get(nodeInfo, "publicKey"),
      "address" := address,
      "rolesRaw" := Get(nodeInfo, "roles"),
      "roles" := roleName,
      "network" := networkName,
      "version" := version,
      "apiEndpoint" := Str(ApiEndpoint(Get(nodeInfo, "roles"), Get(nodeInfo, "host"), apiNodePort))
    ]
  }

  // -----------------------------------------------------------------------
  // getNodePeerList: filters
  // -----------------------------------------------------------------------

  /** The `filter` argument of the peer list. */
  datatype PeerFilter = PeerFilter(rolesRaw: Value, rewardProgram: Value)

  /** The first filter: no role filter, or the peer's raw roles strictly equal it. */
  predicate KeepByRoles(el: Node, rolesRaw: Value) {
    !Truthy(rolesRaw) || StrictEq(Get(el, "rolesRaw"), rolesRaw)
  }

  /** The second filter: no reward-program filter; or the filter is `all` and
      the peer has some program; or the peer's first program has the filter's
      name. */
  predicate KeepByRewardProgram(el: Node, rewardProgram: Value) {
    var programs := Get(el, "rewardPrograms");
    !Truthy(rewardProgram)
    || (Truthy(OptProp(programs, "length")) && StrictEq(rewardProgram, Str("all")))
    || (Truthy(programs) && StrictEq(OptProp(Prop(programs, "0"), "name"), rewardProgram))
  }

  /** The peers both filters keep, in their order. */
  function KeptPeers(peers: seq<Node>, filter: PeerFilter): (r: seq<Node>)
    ensures |r| <= |peers|
    ensures forall i :: 0 <= i < |r| ==> KeepByRewardProgram(r[i], filter.rewardProgram)
  {
    Filter(Filter(peers, el => KeepByRoles(el, filter.rolesRaw)),
           el => KeepByRewardProgram(el, filter.rewardProgram))
  }

  /** With neither filter set, every peer is kept, in order. */
  lemma NoFilterKeepsAll(peers: seq<Node>, filter: PeerFilter)
    requires !Truthy(filter.rolesRaw) && !Truthy(filter.rewardProgram)
    ensures KeptPeers(peers, filter) == peers
  {
    FilterAll(peers, el => KeepByRoles(el, filter.rolesRaw));
    FilterAll(peers, el => KeepByRewardProgram(el, filter.rewardProgram));
  }

  /** A peer is kept exactly when it is listed and passes both filters; with a
      role filter set, that requires its raw roles to equal the filter. */
  lemma KeptPeersMembership(peers: seq<Node>, filter: PeerFilter, el: Node)
    ensures el in KeptPeers(peers, filter) <==>
      el in peers && KeepByRoles(el, filter.rolesRaw) && KeepByRewardProgram(el, filter.rewardProgram)
    ensures Truthy(filter.rolesRaw) && el in KeptPeers(peers, filter) ==>
      StrictEq(Get(el, "rolesRaw"), filter.rolesRaw)
  {
    var byRoles := Filter(peers, el => KeepByRoles(el, filter.rolesRaw));
    FilterMembership(peers, el => KeepByRoles(el, filter.rolesRaw), el);
    FilterMembership(byRoles, el => KeepByRewardProgram(el, filter.rewardProgram), el);
  }

  /** With the reward-program filter `all`, a peer whose programs form an
      array is kept exactly when that array is not empty. */
  lemma RewardProgramAll(el: Node)
    requires Get(el, "rewardPrograms").Arr?
    ensures KeepByRewardProgram(el, Str("all")) <==> |Get(el, "rewardPrograms").items| > 0
  {
    var programs := Get(el, "rewardPrograms");
    if |programs.items| == 0 {
      assert Prop(programs, "0") == Undefined by {
        assert CanonicalIndex("0") == Some(0) by {
          assert DigitsValue("0") == DigitsValue("0"[..0]) * 10 + 0;
        }
      }
    }
  }

  /** Any other reward-program filter keeps a peer whose programs form an
      array exactly when the first program's name equals the filter. */
  lemma RewardProgramByName(el: Node, rewardProgram: Value)
    requires Truthy(rewardProgram) && !StrictEq(rewardProgram, Str("all"))
    requires Get(el, "rewardPrograms").Arr?
    ensures KeepByRewardProgram(el, rewardProgram) <==>
      var items := Get(el, "rewardPrograms").items;
      |items| > 0 && StrictEq(OptProp(items[0], "name"), rewardProgram)
  {
    var items := Get(el, "rewardPrograms").items;
    assert CanonicalIndex("0") == Some(0) by {
      assert DigitsValue("0") == DigitsValue("0"[..0]) * 10 + 0;
    }
    if |items| == 0 {
      assert !StrictEq(Undefined, rewardProgram);
    }
  }

  // -----------------------------------------------------------------------
  // getNodePeerList: reshaping
  // -----------------------------------------------------------------------

  /** The `chainInfo` field: three fields of the peer's API status when it has
      one, an empty object otherwise. */
  function ChainInfoOf(el: Node): (r: Value)
    ensures r.Obj?
    ensures !Truthy(Get(el, "apiStatus")) ==> r.fields == map[]
    ensures Truthy(Get(el, "apiStatus")) ==>
      r.fields.Keys == {"chainHeight", "finalizationHeight", "lastStatusCheck"} &&
      r.fields["chainHeight"] == Prop(Get(el, "apiStatus"), "chainHeight") &&
      r.fields["finalizationHeight"] == Prop(Get(el, "apiStatus"), "finalizationHeight") &&
      r.fields["lastStatusCheck"] == Prop(Get(el, "apiStatus"), "lastStatusCheck")
  {
    var apiStatus := Get(el, "apiStatus");
    if Truthy(apiStatus) then
      Obj(map[
        "chainHeight" := Prop(apiStatus, "chainHeight"),
        "finalizationHeight" := Prop(apiStatus, "finalizationHeight"),
        "lastStatusCheck" := Prop(apiStatus, "lastStatusCheck")])
    else Obj(map[])
  }

  /** The own fields spread by `{...v}` when `v` is an object. */
  function SpreadFields(v: Value): map<string, Value> {
    if v.Obj? then v.fields else map[]
  }

  /** The `map` callback: the 1-based index, the peer's own fields, the
      chain info, and the host details flattened into the node. */
  function ShapePeer(el: Node, index: nat): Node {
    var node := (map["index" := Num(index + 1)] + el)["chainInfo" := ChainInfoOf(el)];
    var hostDetail := Get(node, "hostDetail");
    if Truthy(hostDetail) then (node + SpreadFields(hostDetail)) - {"hostDetail"} else node
  }

  /** The `map` callback as the source runs it: builds the node, assigns its
      chain info, then spreads and deletes the host details. */
  method ShapePeerNode(el: Node, index: nat) returns (node: Node)
    ensures node == ShapePeer(el, index)
  {
    node := map["index" := Num(index + 1)] + el;
    var apiStatus := Get(el, "apiStatus");
    if Truthy(apiStatus) {
      node := node["chainInfo" := Obj(map[
        "chainHeight" := Prop(apiStatus, "chainHeight"),
        "finalizationHeight" := Prop(apiStatus, "finalizationHeight"),
        "lastStatusCheck" := Prop(apiStatus, "lastStatusCheck")])];
    } else {
      node := node["chainInfo" := Obj(map[])];
    }
    var hostDetail := Get(node, "hostDetail");
    if Truthy(hostDetail) {
      node := node + SpreadFields(hostDetail);
      node := node - {"hostDetail"};
    }
  }

  /** `getNodePeerList(filter).data` for the already formatted and ordered peers. */
  function NodePeerList(peers: seq<Node>, filter: PeerFilter): (r: seq<Node>)
    ensures |r| == |KeptPeers(peers, filter)|
  {
    var kept := KeptPeers(peers, filter);
    seq(|kept|, i requires 0 <= i < |kept| => ShapePeer(kept[i], i))
  }

  /** The field a node's host details would override. */
  predicate HostDetailKeeps(el: Node, key: string) {
    var hostDetail := Get(el, "hostDetail");
    !Truthy(hostDetail) || key !in SpreadFields(hostDetail)
  }

  /** Output indices run 1..n in output order, and every node's chain info
      comes from its own API status, unless its host details carry those
      fields themselves. */
  lemma NodePeerListIndexAndChainInfo(peers: seq<Node>, filter: PeerFilter, i: nat)
    requires i < |NodePeerList(peers, filter)|
    ensures var el := KeptPeers(peers, filter)[i];
      var node := NodePeerList(peers, filter)[i];
      ("index" !in el && HostDetailKeeps(el, "index") ==> node["index"] == Num(i + 1)) &&
      (HostDetailKeeps(el, "chainInfo") ==> node["chainInfo"] == ChainInfoOf(el))
  {
  }

  /** Present host details are flattened into the node and their own key is
      removed; the peer's other fields survive unless overridden; without host
      details the node is the peer with index and chain info added. */
  lemma ShapePeerHostDetail(el: Node, index: nat)
    ensures var node := ShapePeer(el, index);
      var hostDetail := Get(el, "hostDetail");
      (Truthy(hostDetail) ==>
        "hostDetail" !in node &&
        (forall k :: k in SpreadFields(hostDetail) && k != "hostDetail" ==>
          k in node && node[k] == SpreadFields(hostDetail)[k]) &&
        (forall k :: k in el && k !in SpreadFields(hostDetail) && k != "hostDetail" && k != "chainInfo" ==>
          k in node && node[k] == el[k])) &&
      (!Truthy(hostDetail) ==>
        node == (map["index" := Num(index + 1)] + el)["chainInfo" := ChainInfoOf(el)])
  {
  }

  // -----------------------------------------------------------------------
  // getApiNodeStatus
  // -----------------------------------------------------------------------

  /** The answer of the node's `/node/health` request. */
  datatype HealthResponse = RequestFailed | Responded(data: Value)

  /** The status object; the two statuses hold UNAVAILABLE or a boolean. */
  datatype ApiNodeStatus = ApiNodeStatus(
    connectionStatus: bool,
    databaseStatus: Value,
    apiNodeStatus: Value,
    lastStatusCheck: string)

  /** `getApiNodeStatus`: starts from an unavailable status stamped with
      `checkedAt`, and overwrites its fields one by one as the answer allows.
      Reading `status` of a missing body throws before any field is written;
      reading the statuses of a missing `status` throws after the connection
      is already marked. `respondedAt` is the time of the final stamp. */
  method GetApiNodeStatus(response: HealthResponse, checkedAt: string, respondedAt: string)
    returns (status: ApiNodeStatus)
    ensures response.RequestFailed? || response.data.Undefined? || response.data.Null? ==>
      status == ApiNodeStatus(false, Str(UNAVAILABLE), Str(UNAVAILABLE), checkedAt)
    ensures response.Responded? && !response.data.Undefined? && !response.data.Null? ==>
      var nodeStatus := Prop(response.data, "status");
      status.connectionStatus &&
      (nodeStatus.Undefined? || nodeStatus.Null? ==>
        status == ApiNodeStatus(true, Str(UNAVAILABLE), Str(UNAVAILABLE), checkedAt)) &&
      (!nodeStatus.Undefined? && !nodeStatus.Null? ==>
        status == ApiNodeStatus(true,
                                Bool(StrictEq(Prop(nodeStatus, "db"), Str("up"))),
                                Bool(StrictEq(Prop(nodeStatus, "apiNode"), Str("up"))),
                                respondedAt))
  {
    status := ApiNodeStatus(false, Str(UNAVAILABLE), Str(UNAVAILABLE), checkedAt);
    if response.RequestFailed? {
      return;
    }
    var data := response.data;
    if data.Undefined? || data.Null? {
      return;
    }
    var nodeStatus := Prop(data, "status");
    status := status.(connectionStatus := true);
    if nodeStatus.Undefined? || nodeStatus.Null? {
      return;
    }
    status := status.(apiNodeStatus := Bool(StrictEq(Prop(nodeStatus, "apiNode"), Str("up"))));
    status := status.(databaseStatus := Bool(StrictEq(Prop(nodeStatus, "db"), Str("up"))));
    status := status.(lastStatusCheck := respondedAt);
  }
}
