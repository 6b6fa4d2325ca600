// Drift of a NodeClaim against its node class and the server behind it.
module Drift {
  import opened Basics
  import opened Catalogue
  import opened NodeClass
  import opened ImageFamily
  import opened Selection
  import opened PossibleLaunches
  import opened ProviderID
  import I = Instance

  datatype NodeClaim = NodeClaim(name: string, labels: Labels, providerID: string, imageID: string)

  datatype DriftReason = ImageDrift | NetworkDrift | FirewallDrift | ServerTypeDrift | LocationDrift | LabelsDrift

  predicate ImageDrifted(claim: NodeClaim, server: I.Server)
  {
    claim.imageID != "" && server.imageID.Some? && claim.imageID != FormatInt(server.imageID.value)
  }

  predicate NetworkDrifted(spec: Spec, server: I.Server)
  {
    spec.networkID > 0 && Some(spec.networkID) !in server.networks
  }

  predicate LacksSome(firewalls: seq<Option<int>>, wanted: seq<int>)
  {
    exists id :: id in wanted && Some(id) !in firewalls
  }

  predicate FirewallDrifted(spec: Spec, server: I.Server)
  {
    LacksSome(server.firewalls, spec.firewallIDs)
  }

  predicate ServerTypeDrifted(claim: NodeClaim, server: I.Server)
  {
    && InstanceTypeKey in claim.labels && claim.labels[InstanceTypeKey] != ""
    && server.serverType.Some? && server.serverType.value != claim.labels[InstanceTypeKey]
  }

  predicate LocationDrifted(spec: Spec, server: I.Server)
  {
    spec.locations != [] && server.location.Some? && server.location.value !in spec.locations
  }

  predicate LacksLabel(wanted: Labels, labels: Labels)
  {
    exists k :: k in wanted && !(k in labels && labels[k] == wanted[k])
  }

  predicate LabelsDrifted(spec: Spec, server: I.Server)
  {
    LacksLabel(spec.labels, server.labels)
  }

  // The first reason in the order they are checked; no server is no drift.
  function DriftOf(claim: NodeClaim, spec: Spec, server: Option<I.Server>): Option<DriftReason>
  {
    match server
    case None => None
    case Some(s) =>
      if ImageDrifted(claim, s) then Some(ImageDrift)
      else if NetworkDrifted(spec, s) then Some(NetworkDrift)
      else if FirewallDrifted(spec, s) then Some(FirewallDrift)
      else if ServerTypeDrifted(claim, s) then Some(ServerTypeDrift)
      else if LocationDrifted(spec, s) then Some(LocationDrift)
      else if LabelsDrifted(spec, s) then Some(LabelsDrift)
      else None
  }

  // No element is x.
  ghost predicate IsNone<T>(xs: seq<T>, x: T)
  {
    forall i :: 0 <= i < |xs| ==> xs[i] != x
  }

  // How a server can differ from what the claim recorded and the node class asks.
  ghost predicate Differs(reason: DriftReason, claim: NodeClaim, spec: Spec, s: I.Server)
  {
    match reason
    case ImageDrift => claim.imageID != "" && s.imageID.Some? && claim.imageID != FormatInt(s.imageID.value)
    case NetworkDrift => spec.networkID > 0 && IsNone(s.networks, Some(spec.networkID))
    case FirewallDrift =>
      exists i :: 0 <= i < |spec.firewallIDs| && IsNone(s.firewalls, Some(spec.firewallIDs[i]))
    case ServerTypeDrift =>
      && InstanceTypeKey in claim.labels && claim.labels[InstanceTypeKey] != ""
      && s.serverType.Some? && s.serverType.value != claim.labels[InstanceTypeKey]
    case LocationDrift =>
      spec.locations != [] && s.location.Some? && IsNone(spec.locations, s.location.value)
    case LabelsDrift => exists k :: k in spec.labels && (k !in s.labels || s.labels[k] != spec.labels[k])
  }

  function Rank(reason: DriftReason): nat
  {
    match reason
    case ImageDrift => 0
    case NetworkDrift => 1
    case FirewallDrift => 2
    case ServerTypeDrift => 3
    case LocationDrift => 4
    case LabelsDrift => 5
  }

  // A reason is given exactly when the server differs so and in no earlier way, and
  // none exactly when it differs in no way.
  lemma DriftMeaning(claim: NodeClaim, spec: Spec, s: I.Server, reason: DriftReason)
    ensures DriftOf(claim, spec, Some(s)) == Some(reason) <==>
      && Differs(reason, claim, spec, s)
      && forall q :: Rank(q) < Rank(reason) ==> !Differs(q, claim, spec, s)
    ensures DriftOf(claim, spec, Some(s)) == None <==> forall q :: !Differs(q, claim, spec, s)
  {
    ComparisonsMeaning(claim, spec, s);
    var found := DriftOf(claim, spec, Some(s));
    assert found.Some? ==> Differs(found.value, claim, spec, s);
    forall q
      ensures found == None || Rank(q) < Rank(found.value) ==> !Differs(q, claim, spec, s)
      ensures found.Some? && q != found.value ==> Rank(q) != Rank(found.value)
    {
      match q
      case ImageDrift =>
      case NetworkDrift =>
      case FirewallDrift =>
      case ServerTypeDrift =>
      case LocationDrift =>
      case LabelsDrift =>
    }
  }

  lemma ComparisonsMeaning(claim: NodeClaim, spec: Spec, s: I.Server)
    ensures ImageDrifted(claim, s) <==> Differs(ImageDrift, claim, spec, s)
    ensures ServerTypeDrifted(claim, s) <==> Differs(ServerTypeDrift, claim, spec, s)
    ensures NetworkDrifted(spec, s) <==> Differs(NetworkDrift, claim, spec, s)
    ensures FirewallDrifted(spec, s) <==> Differs(FirewallDrift, claim, spec, s)
    ensures LocationDrifted(spec, s) <==> Differs(LocationDrift, claim, spec, s)
    ensures LabelsDrifted(spec, s) <==> Differs(LabelsDrift, claim, spec, s)
  {
    if FirewallDrifted(spec, s) {
      var id :| id in spec.firewallIDs && Some(id) !in s.firewalls;
      var i :| 0 <= i < |spec.firewallIDs| && spec.firewallIDs[i] == id;
      assert IsNone(s.firewalls, Some(spec.firewallIDs[i]));
    }
    if i :| 0 <= i < |spec.firewallIDs| && IsNone(s.firewalls, Some(spec.firewallIDs[i])) {
      var id := spec.firewallIDs[i];
      assert id in spec.firewallIDs && Some(id) !in s.firewalls;
    }
  }

  // What an edit of the node class does to a server that was in order.
  lemma EditDrifts(claim: NodeClaim, spec: Spec, spec': Spec, s: I.Server)
    requires DriftOf(claim, spec, Some(s)) == None && spec'.labels == spec.labels
    ensures spec' == spec.(networkID := spec'.networkID) ==>
      (DriftOf(claim, spec', Some(s)) == Some(NetworkDrift) <==>
         spec'.networkID > 0 && Some(spec'.networkID) !in s.networks)
    ensures spec' == spec.(firewallIDs := spec'.firewallIDs) ==>
      (DriftOf(claim, spec', Some(s)) == Some(FirewallDrift) <==>
         exists id :: id in spec'.firewallIDs && Some(id) !in s.firewalls)
    ensures spec' == spec.(locations := spec'.locations) ==>
      (DriftOf(claim, spec', Some(s)) == Some(LocationDrift) <==>
         spec'.locations != [] && s.location.Some? && s.location.value !in spec'.locations)
  {
  }

  method Attached(networks: seq<Option<int>>, id: int) returns (attached: bool)
    ensures attached <==> Some(id) in networks
  {
    attached := false;
    for i := 0 to |networks|
      invariant Some(id) !in networks[..i]
    {
      if networks[i] == Some(id) {
        return true;
      }
    }
  }

  method AllAttached(firewalls: seq<Option<int>>, wanted: seq<int>) returns (all: bool)
    ensures all <==> !LacksSome(firewalls, wanted)
  {
    var attached: set<int> := {};
    for i := 0 to |firewalls|
      invariant forall id :: id in attached <==> Some(id) in firewalls[..i]
    {
      if firewalls[i].Some? {
        attached := attached + {firewalls[i].value};
      }
    }
    assert firewalls[..|firewalls|] == firewalls;
    assert forall id :: id in attached <==> Some(id) in firewalls;
    for i := 0 to |wanted|
      invariant forall k :: 0 <= k < i ==> wanted[k] in attached
    {
      if wanted[i] !in attached {
        var id := wanted[i];
        assert id in wanted && Some(id) !in firewalls;
        assert LacksSome(firewalls, wanted);
        return false;
      }
    }
    return true;
  }

  method InAllowed(location: string, locations: seq<string>) returns (inAllowed: bool)
    ensures inAllowed <==> location in locations
  {
    inAllowed := false;
    for i := 0 to |locations|
      invariant location !in locations[..i]
    {
      if locations[i] == location {
        return true;
      }
    }
  }

  method LabelsPresent(wanted: Labels, labels: Labels) returns (all: bool)
    ensures all <==> !LacksLabel(wanted, labels)
  {
    var keys := wanted.Keys;
    while keys != {}
      invariant keys <= wanted.Keys
      invariant forall k :: k in wanted.Keys - keys ==> k in labels && labels[k] == wanted[k]
      decreases keys
    {
      var k :| k in keys;
      if k !in labels || labels[k] != wanted[k] {
        return false;
      }
      keys := keys - {k};
    }
    return true;
  }

  datatype DriftCheck = CheckFailed | Checked(reason: Option<DriftReason>)

  // The whole check: an error without a node class or an answer, and no drift
  // without a server.
  function DriftCheckOf(claim: NodeClaim, spec: Spec, answer: I.GetResult): DriftCheck
  {
    match answer
    case GetFailed => CheckFailed
    case Got(server) => Checked(DriftOf(claim, spec, server))
  }

  method IsDrifted(claim: NodeClaim, nc: HCloudNodeClass?, instances: I.Provider, reachable: bool)
    returns (r: DriftCheck)
    ensures r == if nc == null then CheckFailed
                 else DriftCheckOf(claim, nc.spec, I.GetOf(instances.hcloud.servers, claim.providerID, reachable))
    ensures r.CheckFailed? <==> nc == null || ParseProviderID(claim.providerID).None? || !reachable
    ensures r.Checked? ==>
      var id := ParseProviderID(claim.providerID).value;
      r.reason ==
        if id in instances.hcloud.servers then DriftOf(claim, nc.spec, Some(instances.hcloud.servers[id])) else None
  {
    if nc == null {
      return CheckFailed;
    }
    var answer := instances.Get(claim.providerID, reachable);
    if answer.GetFailed? {
      return CheckFailed;
    }
    if answer.server.None? {
      return Checked(None);
    }
    var reason := Compare(claim, nc.spec, answer.server.value);
    return Checked(reason);
  }

  // The comparisons of IsDrifted, in order.
  method Compare(claim: NodeClaim, spec: Spec, s: I.Server) returns (r: Option<DriftReason>)
    ensures r == DriftOf(claim, spec, Some(s))
  {
    if claim.imageID != "" && s.imageID.Some? {
      if claim.imageID != FormatInt(s.imageID.value) {
        return Some(ImageDrift);
      }
    }
    if spec.networkID > 0 {
      var attached := Attached(s.networks, spec.networkID);
      if !attached {
        return Some(NetworkDrift);
      }
    }
    if |spec.firewallIDs| > 0 {
      var all := AllAttached(s.firewalls, spec.firewallIDs);
      if !all {
        return Some(FirewallDrift);
      }
    }
    if InstanceTypeKey in claim.labels && claim.labels[InstanceTypeKey] != ""
       && s.serverType.Some? && s.serverType.value != claim.labels[InstanceTypeKey] {
      return Some(ServerTypeDrift);
    }
    if |spec.locations| > 0 && s.location.Some? {
      var inAllowed := InAllowed(s.location.value, spec.locations);
      if !inAllowed {
        return Some(LocationDrift);
      }
    }
    var labelled := LabelsPresent(spec.labels, s.labels);
    if !labelled {
      return Some(LabelsDrift);
    }
    return None;
  }

  // ----- What Create returns does not drift -----

  // The request Create sends for a choice.
  function OptsFor(claim: NodeClaim, spec: Spec, c: Choice, imageID: int): I.CreateOpts
  {
    I.CreateOpts(c.itype.name, c.offering.zone, imageID, spec.networkID, spec.firewallIDs, spec.labels,
      claim.name, if NodePoolKey in claim.labels then claim.labels[NodePoolKey] else "")
  }

  // The claim Create returns for the server hcloud answered with: the type's
  // labels, over them the offering's, over them those the claim came with.
  function Hydrated(claim: NodeClaim, c: Choice, server: I.Server): NodeClaim
  {
    NodeClaim(claim.name, c.itype.requirements + OfferingLabels(c.offering.zone) + claim.labels,
      FormatProviderID(server.id),
      if server.imageID.Some? then FormatInt(server.imageID.value) else claim.imageID)
  }

  // The node class's labels do not contradict the management labels over them.
  predicate LabelsAgree(claim: NodeClaim, spec: Spec, cluster: string)
  {
    var pool := if NodePoolKey in claim.labels then claim.labels[NodePoolKey] else "";
    && (ManagedByKey in spec.labels ==> spec.labels[ManagedByKey] == I.MANAGED_BY)
    && (ClusterKey in spec.labels ==> spec.labels[ClusterKey] == cluster)
    && (NodeClaimKey in spec.labels && claim.name != "" ==> spec.labels[NodeClaimKey] == claim.name)
    && (NodePoolKey in spec.labels && pool != "" ==> spec.labels[NodePoolKey] == pool)
  }

  // What must not conflict once the type and image are chosen and hcloud's
  // response names the image or not.
  predicate NoConflict(claim: NodeClaim, spec: Spec, cluster: string, typeName: string, imageID: int, namesImage: bool)
  {
    && LabelsAgree(claim, spec, cluster)
    && (InstanceTypeKey in claim.labels ==> claim.labels[InstanceTypeKey] in ["", typeName])
    && (namesImage || claim.imageID == "" || claim.imageID == FormatInt(imageID))
  }

  // What can be checked before the call: nothing conflicts with any launch the node
  // class and the requirements allow.
  ghost predicate NothingCanConflict(claim: NodeClaim, spec: Spec, cluster: string, reqs: Requirements)
  {
    forall st, zone :: CanLaunch(spec, reqs, st, zone) ==>
      && LabelsAgree(claim, spec, cluster)
      && claim.imageID == ""
      && (InstanceTypeKey in claim.labels ==> claim.labels[InstanceTypeKey] in ["", st.name])
  }

  // A choice the location filter lets through that carries its own type label.
  predicate Sound(spec: Spec, c: Choice)
  {
    && (spec.locations != [] ==> c.offering.zone in spec.locations)
    && InstanceTypeKey in c.itype.requirements && c.itype.requirements[InstanceTypeKey] == c.itype.name
  }

  // The drift of the claim Create returns, against the same node class and the
  // server hcloud recorded.
  function FirstDrift(
      claim: NodeClaim, spec: Spec, cluster: string, c: Choice, imageID: int, id: int, namesImage: bool)
    : Option<DriftReason>
  {
    var recorded := I.Recorded(id, OptsFor(claim, spec, c, imageID), cluster);
    var response := if namesImage then recorded else recorded.(imageID := None);
    DriftOf(Hydrated(claim, c, response), spec, Some(recorded))
  }

  // It is none exactly when nothing conflicts.
  lemma CreatedClaimNotDriftedIff(
      claim: NodeClaim, spec: Spec, cluster: string, c: Choice, imageID: int, id: int, namesImage: bool)
    requires Sound(spec, c)
    ensures FirstDrift(claim, spec, cluster, c, imageID, id, namesImage) == None <==>
      NoConflict(claim, spec, cluster, c.itype.name, imageID, namesImage)
  {
    var opts := OptsFor(claim, spec, c, imageID);
    var recorded := I.Recorded(id, opts, cluster);
    var response := if namesImage then recorded else recorded.(imageID := None);
    var created := Hydrated(claim, c, response);
    RequestIsHonoured(id, opts, cluster, spec);
    I.UserLabelsSurviveIff(spec.labels, cluster, opts.nodeClaim, opts.nodePool);
    assert LabelsDrifted(spec, recorded) <==>
      !forall k :: k in spec.labels ==> recorded.labels[k] == spec.labels[k];
    assert created.labels[InstanceTypeKey] ==
      if InstanceTypeKey in claim.labels then claim.labels[InstanceTypeKey] else c.itype.name;
  }

  // The server hcloud records has the network and every firewall requested.
  lemma RequestIsHonoured(id: int, opts: I.CreateOpts, cluster: string, spec: Spec)
    requires opts.networkID == spec.networkID && opts.firewallIDs == spec.firewallIDs
    ensures var s := I.Recorded(id, opts, cluster);
      !NetworkDrifted(spec, s) && !FirewallDrifted(spec, s)
  {
    var s := I.Recorded(id, opts, cluster);
    if spec.networkID > 0 { assert s.networks[0] == Some(spec.networkID); }
    forall k | k in spec.firewallIDs
      ensures Some(k) in s.firewalls
    {
      var i :| 0 <= i < |spec.firewallIDs| && spec.firewallIDs[i] == k;
      assert s.firewalls[i] == Some(k);
    }
  }

  // The same for whatever Create decides to launch from a real listing.
  lemma LaunchedClaimNotDriftedIff(
      sts: seq<ServerType>, items: map<string, nat>, at: seq<seq<nat>>, reqs: Requirements,
      current: seq<ResolvedImage>, lookups: Architecture -> Lookup,
      claim: NodeClaim, spec: Spec, cluster: string, id: int, namesImage: bool)
    requires ShapedLike(at, FilterByLocations(ToTypesV(sts), spec.locations))
    requires
      Decide(Overlay(FilterByLocations(ToTypesV(sts), spec.locations), items, at), reqs, current, lookups).Launch?
    ensures
      var d := Decide(Overlay(FilterByLocations(ToTypesV(sts), spec.locations), items, at), reqs, current, lookups);
      && Sound(spec, d.choice)
      && (FirstDrift(claim, spec, cluster, d.choice, d.imageID, id, namesImage) == None <==>
            NoConflict(claim, spec, cluster, d.choice.itype.name, d.imageID, namesImage))
  {
    var listing := Overlay(FilterByLocations(ToTypesV(sts), spec.locations), items, at);
    var d := Decide(listing, reqs, current, lookups);
    LaunchedOfferingIsReal(sts, spec.locations, items, at, reqs, current);
    var c := Scan(listing, reqs, current).selected.value;
    var st, p :| st in sts && PricedBy(st, p, c.itype, c.offering);
    assert d.choice == c && c.itype.requirements == TypeLabels(st);
    CreatedClaimNotDriftedIff(claim, spec, cluster, c, d.imageID, id, namesImage);
  }

  // ----- What can be known before the call -----

  lemma DecidedIsSound(spec: Spec, reqs: Requirements, c: Choice, imageID: int)
    requires CanDecide(spec, reqs, c, imageID)
    ensures Sound(spec, c)
  {
    DecidedCanLaunch(spec, reqs, c, imageID);
  }

  // Whatever Create decides and hcloud answers, the claim starts undrifted: exactly
  // when nothing can conflict.
  lemma NeverDriftedIff(claim: NodeClaim, spec: Spec, cluster: string, reqs: Requirements)
    ensures NothingCanConflict(claim, spec, cluster, reqs) <==>
      forall c, imageID, id, namesImage :: CanDecide(spec, reqs, c, imageID) ==>
        FirstDrift(claim, spec, cluster, c, imageID, id, namesImage) == None
  {
    if NothingCanConflict(claim, spec, cluster, reqs) {
      forall c, imageID, id, namesImage | CanDecide(spec, reqs, c, imageID)
        ensures FirstDrift(claim, spec, cluster, c, imageID, id, namesImage) == None
      {
        UndriftedIfNothingCan(claim, spec, cluster, reqs, c, imageID, id, namesImage);
      }
    }
    if forall c, imageID, id, namesImage :: CanDecide(spec, reqs, c, imageID) ==>
         FirstDrift(claim, spec, cluster, c, imageID, id, namesImage) == None
    {
      forall st, zone | CanLaunch(spec, reqs, st, zone)
        ensures LabelsAgree(claim, spec, cluster) && claim.imageID == ""
        ensures InstanceTypeKey in claim.labels ==> claim.labels[InstanceTypeKey] in ["", st.name]
      {
        var c := CanLaunchDecided(spec, reqs, st, zone, 0);
        var d := CanLaunchDecided(spec, reqs, st, zone, 1);
        assert FirstDrift(claim, spec, cluster, c, 0, 0, false) == None;
        assert FirstDrift(claim, spec, cluster, d, 1, 0, false) == None;
        UndriftedEitherWay(claim, spec, cluster, reqs, c, d);
      }
    }
  }

  lemma UndriftedIfNothingCan(
      claim: NodeClaim, spec: Spec, cluster: string, reqs: Requirements, c: Choice, imageID: int, id: int,
      namesImage: bool)
    requires NothingCanConflict(claim, spec, cluster, reqs) && CanDecide(spec, reqs, c, imageID)
    ensures NoConflict(claim, spec, cluster, c.itype.name, imageID, namesImage)
    ensures FirstDrift(claim, spec, cluster, c, imageID, id, namesImage) == None
  {
    DecidedIsSound(spec, reqs, c, imageID);
    DecidedCanLaunch(spec, reqs, c, imageID);
    var st :| LaunchOf(spec, reqs, st, c);
    assert CanLaunch(spec, reqs, st, c.offering.zone);
    CreatedClaimNotDriftedIff(claim, spec, cluster, c, imageID, id, namesImage);
  }

  // Undrifted with two images, neither named in hcloud's response.
  lemma UndriftedEitherWay(claim: NodeClaim, spec: Spec, cluster: string, reqs: Requirements, c: Choice, d: Choice)
    requires CanDecide(spec, reqs, c, 0) && FirstDrift(claim, spec, cluster, c, 0, 0, false) == None
    requires CanDecide(spec, reqs, d, 1) && FirstDrift(claim, spec, cluster, d, 1, 0, false) == None
    ensures LabelsAgree(claim, spec, cluster) && claim.imageID == ""
    ensures InstanceTypeKey in claim.labels ==> claim.labels[InstanceTypeKey] in ["", c.itype.name]
  {
    DecidedIsSound(spec, reqs, c, 0);
    DecidedIsSound(spec, reqs, d, 1);
    CreatedClaimNotDriftedIff(claim, spec, cluster, c, 0, 0, false);
    CreatedClaimNotDriftedIff(claim, spec, cluster, d, 1, 0, false);
    if FormatInt(0) == FormatInt(1) {
      FormatInjective(0, 1);
    }
  }

  // The zone label of the returned claim is where the server was launched, whatever
  // Create decides, exactly when every zone the claim can be launched in is the one
  // it came labelled with: labels already on the claim win.
  lemma ZoneLabelMatchesIff(claim: NodeClaim, spec: Spec, reqs: Requirements, server: I.Server)
    ensures
      (forall c, imageID :: CanDecide(spec, reqs, c, imageID) ==>
         Hydrated(claim, c, server).labels[ZoneKey] == c.offering.zone)
      <==>
      (ZoneKey in claim.labels ==>
         forall st, zone :: CanLaunch(spec, reqs, st, zone) ==> zone == claim.labels[ZoneKey])
  {
    if ZoneKey in claim.labels {
      if forall st, zone :: CanLaunch(spec, reqs, st, zone) ==> zone == claim.labels[ZoneKey] {
        forall c, imageID | CanDecide(spec, reqs, c, imageID)
          ensures Hydrated(claim, c, server).labels[ZoneKey] == c.offering.zone
        {
          DecidedCanLaunch(spec, reqs, c, imageID);
          var st :| LaunchOf(spec, reqs, st, c);
          assert CanLaunch(spec, reqs, st, c.offering.zone);
        }
      } else {
        var st, zone :| CanLaunch(spec, reqs, st, zone) && zone != claim.labels[ZoneKey];
        var c := CanLaunchDecided(spec, reqs, st, zone, 0);
        assert Hydrated(claim, c, server).labels[ZoneKey] != c.offering.zone;
      }
    }
  }
}
