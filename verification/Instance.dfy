// The instance provider: servers created with management labels, listed by
// cluster, and the classification of create errors.
module Instance {
  import opened Basics
  import opened Text
  import opened ProviderID

  // A server as hcloud reports it; parts may be missing while it is provisioned.
  datatype Server = Server(
    id: int,
    serverType: Option<string>,
    location: Option<string>,
    imageID: Option<int>,
    networks: seq<Option<int>>,
    firewalls: seq<Option<int>>,
    labels: Labels)

  datatype CreateOpts = CreateOpts(
    serverType: string,
    location: string,
    imageID: int,
    networkID: int,
    firewallIDs: seq<int>,
    labels: Labels,
    nodeClaim: string,
    nodePool: string)

  const MANAGED_BY: string := "karpenter"

  // ----- Create errors -----

  datatype ErrorCode = ResourceUnavailable | ResourceLimitExceeded | InvalidInput | OtherCode(name: string)

  // An hcloud API error, or any other failure of the request.
  datatype ApiError = ApiError(code: ErrorCode, message: string) | OtherError

  datatype CreateError = InsufficientCapacity | Ordinary

  const UNSUPPORTED_LOCATION: string := "unsupported location"
  const LOCATION_FOR_TYPE: string := "location for server type"

  predicate IsUnsupportedPlacement(e: ApiError)
  {
    e.ApiError? && e.code == InvalidInput
    && (Contains(ToLower(e.message), UNSUPPORTED_LOCATION) || Contains(ToLower(e.message), LOCATION_FOR_TYPE))
  }

  function MapCreateError(e: ApiError): CreateError
  {
    if e.ApiError? && (e.code == ResourceUnavailable || e.code == ResourceLimitExceeded) then InsufficientCapacity
    else if IsUnsupportedPlacement(e) then InsufficientCapacity
    else Ordinary
  }

  // Some piece of the message, in whatever case, tells of a placement hcloud will
  // not make.
  ghost predicate Worded(message: string)
  {
    exists i, j :: 0 <= i <= j <= |message|
      && ToLower(message[i..j]) in ["unsupported location", "location for server type"]
  }

  lemma WordedIff(message: string)
    ensures Contains(ToLower(message), UNSUPPORTED_LOCATION) || Contains(ToLower(message), LOCATION_FOR_TYPE)
       <==> Worded(message)
  {
    ContainsAnyCase(message, UNSUPPORTED_LOCATION);
    ContainsAnyCase(message, LOCATION_FOR_TYPE);
  }

  // An error quarantines an offering exactly when it is one of two codes, or an
  // invalid input with the wording anywhere in its message.
  lemma CapacityIff(e: ApiError)
    ensures MapCreateError(e) == InsufficientCapacity <==>
      && e.ApiError?
      && (|| e.code == ResourceUnavailable || e.code == ResourceLimitExceeded
          || (e.code == InvalidInput && Worded(e.message)))
  {
    if e.ApiError? {
      WordedIff(e.message);
    }
  }

  lemma SliceInContext(message: string, said: string, before: string, after: string, i: nat, j: nat)
    requires ToLower(said) == ToLower(message) && i <= j <= |message|
    ensures |before| + j <= |before + said + after|
    ensures ToLower((before + said + after)[|before| + i..|before| + j]) == ToLower(message[i..j])
  {
    assert |ToLower(said)| == |said| && |ToLower(message)| == |message|;
    ToLowerSlice(message, i, j);
    ToLowerSlice(said, i, j);
    assert (before + said + after)[|before| + i..|before| + j] == said[i..j];
  }

  // Text put around a capacity error's message does not hide it, whatever the case
  // of its letters.
  lemma CapacitySurvivesContext(code: ErrorCode, message: string, said: string, before: string, after: string)
    requires MapCreateError(ApiError(code, message)) == InsufficientCapacity && ToLower(said) == ToLower(message)
    ensures MapCreateError(ApiError(code, before + said + after)) == InsufficientCapacity
  {
    var full := before + said + after;
    CapacityIff(ApiError(code, message));
    CapacityIff(ApiError(code, full));
    if code == InvalidInput {
      var i, j :| 0 <= i <= j <= |message|
        && ToLower(message[i..j]) in ["unsupported location", "location for server type"];
      SliceInContext(message, said, before, after, i, j);
      assert ToLower(full[|before| + i..|before| + j]) == ToLower(message[i..j]);
    }
  }

  // ----- Labels -----

  // The user's labels with the management labels over them.
  function ServerLabels(user: Labels, cluster: string, nodeClaim: string, nodePool: string): Labels
  {
    var l := user[ManagedByKey := MANAGED_BY][ClusterKey := cluster];
    var l' := if nodeClaim != "" then l[NodeClaimKey := nodeClaim] else l;
    if nodePool != "" then l'[NodePoolKey := nodePool] else l'
  }

  // The labels a server ends up with, key by key: four of the provider's, the claim
  // and the pool only if they have a name, and every other of the user's.
  lemma ServerLabelsMeaning(user: Labels, cluster: string, nodeClaim: string, nodePool: string, k: LabelKey)
    ensures var l := ServerLabels(user, cluster, nodeClaim, nodePool);
      match k
      case ManagedByKey => k in l && l[k] == "karpenter"
      case ClusterKey => k in l && l[k] == cluster
      case NodeClaimKey => if nodeClaim != "" then k in l && l[k] == nodeClaim else SameAt(l, user, k)
      case NodePoolKey => if nodePool != "" then k in l && l[k] == nodePool else SameAt(l, user, k)
      case _ => SameAt(l, user, k)
  {
  }

  predicate SameAt(l: Labels, m: Labels, k: LabelKey)
  {
    (k in l <==> k in m) && (k in l ==> l[k] == m[k])
  }

  method CopyInto(base: Labels, over: Labels) returns (r: Labels)
    ensures r == base + over
  {
    r := base;
    var rest := over.Keys;
    while rest != {}
      invariant rest <= over.Keys
      invariant r == base + map k | k in over.Keys - rest :: over[k]
      decreases rest
    {
      var k :| k in rest;
      r := r[k := over[k]];
      rest := rest - {k};
    }
    assert (map k | k in over.Keys - {} :: over[k]) == over;
  }

  // The user's labels reach the server unchanged exactly when each management
  // key the user sets has the value the provider gives it.
  lemma UserLabelsSurviveIff(user: Labels, cluster: string, nodeClaim: string, nodePool: string)
    ensures (forall k :: k in user ==> ServerLabels(user, cluster, nodeClaim, nodePool)[k] == user[k]) <==>
      && (ManagedByKey in user ==> user[ManagedByKey] == MANAGED_BY)
      && (ClusterKey in user ==> user[ClusterKey] == cluster)
      && (NodeClaimKey in user && nodeClaim != "" ==> user[NodeClaimKey] == nodeClaim)
      && (NodePoolKey in user && nodePool != "" ==> user[NodePoolKey] == nodePool)
  {
  }

  // ----- hcloud and the provider -----

  // The server hcloud records for a create request.
  function Recorded(id: int, opts: CreateOpts, cluster: string): Server
  {
    Server(id, Some(opts.serverType), Some(opts.location), Some(opts.imageID),
      if opts.networkID > 0 then [Some(opts.networkID)] else [],
      seq(|opts.firewallIDs|, i requires 0 <= i < |opts.firewallIDs| => Some(opts.firewallIDs[i])),
      ServerLabels(opts.labels, cluster, opts.nodeClaim, opts.nodePool))
  }

  // How hcloud answers a create request: a rejection, or an ID with the actions
  // succeeding or not and the response naming the image or not.
  datatype ApiAnswer = Rejected(error: ApiError) | Accepted(id: int, actionsSucceed: bool, namesImage: bool)

  datatype CreateResult = Created(server: Server) | CreateFailed(error: CreateError)

  // Servers alive in the hcloud project.
  class Hcloud {
    var servers: map<int, Server>

    constructor ()
      ensures servers == map[]
    {
      servers := map[];
    }
  }

  // The label selector managed-by=karpenter,cluster=<name>.
  predicate Selected(s: Server, cluster: string)
  {
    && ManagedByKey in s.labels && s.labels[ManagedByKey] == MANAGED_BY
    && ClusterKey in s.labels && s.labels[ClusterKey] == cluster
  }

  function ListOf(servers: map<int, Server>, cluster: string): map<int, Server>
  {
    map id | id in servers && Selected(servers[id], cluster) :: servers[id]
  }

  datatype GetResult = GetFailed | Got(server: Option<Server>)

  // The server behind a provider ID: none when it is gone, an error when the ID
  // does not parse or hcloud cannot be asked.
  function GetOf(servers: map<int, Server>, providerID: string, reachable: bool): GetResult
  {
    match ParseProviderID(providerID)
    case None => GetFailed
    case Some(id) =>
      if !reachable then GetFailed else Got(if id in servers then Some(servers[id]) else None)
  }

  class Provider {
    const hcloud: Hcloud
    const clusterName: string

    constructor (hcloud: Hcloud, clusterName: string)
      ensures this.hcloud == hcloud && this.clusterName == clusterName
    {
      this.hcloud := hcloud;
      this.clusterName := clusterName;
    }

    // A rejected request changes nothing. An accepted one leaves a server behind
    // even when its actions fail and the caller sees an error.
    method Create(opts: CreateOpts, answer: ApiAnswer) returns (r: CreateResult)
      requires answer.Accepted? ==> answer.id !in hcloud.servers
      modifies hcloud
      ensures answer.Rejected? ==>
        r == CreateFailed(MapCreateError(answer.error)) && hcloud.servers == old(hcloud.servers)
      ensures answer.Accepted? ==>
        var s := Recorded(answer.id, opts, clusterName);
        && hcloud.servers == old(hcloud.servers)[answer.id := s]
        && r == if answer.actionsSucceed
                then Created(if answer.namesImage then s else s.(imageID := None))
                else CreateFailed(Ordinary)
    {
      var labels := CopyInto(map[], opts.labels);
      labels := labels[ManagedByKey := MANAGED_BY];
      labels := labels[ClusterKey := clusterName];
      if opts.nodeClaim != "" {
        labels := labels[NodeClaimKey := opts.nodeClaim];
      }
      if opts.nodePool != "" {
        labels := labels[NodePoolKey := opts.nodePool];
      }
      var networks: seq<Option<int>> := [];
      if opts.networkID > 0 {
        networks := [Some(opts.networkID)];
      }
      var firewalls: seq<Option<int>> := [];
      for i := 0 to |opts.firewallIDs|
        invariant |firewalls| == i && forall k :: 0 <= k < i ==> firewalls[k] == Some(opts.firewallIDs[k])
      {
        firewalls := firewalls + [Some(opts.firewallIDs[i])];
      }
      if answer.Rejected? {
        return CreateFailed(MapCreateError(answer.error));
      }
      assert map[] + opts.labels == opts.labels;
      var server := Server(answer.id, Some(opts.serverType), Some(opts.location), Some(opts.imageID),
        networks, firewalls, labels);
      assert server == Recorded(answer.id, opts, clusterName);
      hcloud.servers := hcloud.servers[answer.id := server];
      if !answer.actionsSucceed {
        return CreateFailed(Ordinary);
      }
      return Created(if answer.namesImage then server else server.(imageID := None));
    }

    method Get(providerID: string, reachable: bool) returns (r: GetResult)
      ensures r == GetOf(hcloud.servers, providerID, reachable)
      ensures r.GetFailed? <==> ParseProviderID(providerID).None? || !reachable
      ensures r.Got? ==>
        var id := ParseProviderID(providerID).value;
        && (r.server.Some? <==> id in hcloud.servers)
        && (r.server.Some? ==> r.server.value == hcloud.servers[id])
    {
      var id := ParseProviderID(providerID);
      if id.None? || !reachable {
        return GetFailed;
      }
      if id.value !in hcloud.servers {
        return Got(None);
      }
      return Got(Some(hcloud.servers[id.value]));
    }
  }

  // ----- Clusters sharing a project -----

  datatype Event =
    | CreateBy(cluster: string, id: int, opts: CreateOpts)
    | Delete(id: int)
    | Foreign(server: Server)    // made by something other than this provider

  datatype Project = Project(servers: map<int, Server>, createdBy: map<int, string>)

  ghost predicate Allowed(p: Project, e: Event)
  {
    match e
    case CreateBy(_, id, _) => id !in p.servers
    case Delete(_) => true
    case Foreign(s) => s.id !in p.servers && !(ManagedByKey in s.labels && s.labels[ManagedByKey] == MANAGED_BY)
  }

  ghost function After(p: Project, e: Event): Project
  {
    match e
    case CreateBy(c, id, opts) => Project(p.servers[id := Recorded(id, opts, c)], p.createdBy[id := c])
    case Delete(id) => Project(p.servers - {id}, p.createdBy - {id})
    case Foreign(s) => Project(p.servers[s.id := s], p.createdBy - {s.id})
  }

  ghost predicate Possible(p: Project, es: seq<Event>)
  {
    es == [] || (Possible(p, es[..|es| - 1]) && Allowed(RunProject(p, es[..|es| - 1]), es[|es| - 1]))
  }

  ghost function RunProject(p: Project, es: seq<Event>): Project
  {
    if es == [] then p else After(RunProject(p, es[..|es| - 1]), es[|es| - 1])
  }

  // After any interleaving of creates and deletes by any clusters, whatever
  // labels users set, each cluster lists exactly the live servers it created.
  lemma {:induction false} ClusterPartition(es: seq<Event>, cluster: string, id: int)
    requires Possible(Project(map[], map[]), es)
    ensures var p := RunProject(Project(map[], map[]), es);
      && (id in ListOf(p.servers, cluster) <==> id in p.createdBy && p.createdBy[id] == cluster)
      && (id in p.createdBy ==> id in p.servers)
  {
    if es != [] {
      var init, e := es[..|es| - 1], es[|es| - 1];
      ClusterPartition(init, cluster, id);
      if e.CreateBy? && e.id == id {
        assert Selected(Recorded(id, e.opts, e.cluster), cluster) <==> e.cluster == cluster;
      }
    }
  }
}
