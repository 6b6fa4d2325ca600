// The cloud provider as heap code: Create over the listed objects, the gate that
// clears availability in place, and GetInstanceTypes.
module CloudProvider {
  import opened Basics
  import opened Text
  import opened Unavailable
  import opened CachePolicy
  import C = Catalogue
  import opened NodeClass
  import opened ImageFamily
  import opened Selection
  import opened Drift
  import opened ProviderID
  import I = Instance
  import T = InstanceTypeProvider

  // The instance types and clock readings behind one listing, for contracts.
  ghost predicate IsListing(
      listing: seq<C.TypeV>, served: Served, locations: seq<string>, items: map<string, nat>, at: seq<seq<nat>>)
  {
    && served.Served?
    && var filtered := C.FilterByLocations(served.types, locations);
       C.ShapedLike(at, filtered) && listing == C.Overlay(filtered, items, at)
  }

  // One answer of List by the cache before and after it, the clock running from
  // start to end: None when it failed.
  ghost predicate Answers(
      before: Option<Cached>, after: Option<Cached>, start: nat, end: nat, locations: seq<string>,
      items: map<string, nat>, world: World, read: T.Readings, listing: Option<seq<C.TypeV>>)
  {
    var (served, next) := Serve(before, read.entry, read.waited, read.recheck, world.fetch, read.store);
    && start <= read.entry <= read.recheck <= read.store <= end
    && (exists t :: read.entry <= t <= read.recheck && read.waited == T.WaitedCache(before, world.meanwhile, t))
    && after == next
    && (listing.None? <==> served.NothingServed?)
    && (listing.Some? ==>
          IsListing(listing.value, served, locations, items, read.at) && C.Within(read.at, read.entry, end))
  }

  // Whether an offering object belongs to a type the gate shuts out.
  ghost predicate ShutOut(its: seq<T.InstanceType>, current: seq<ResolvedImage>, o: T.Offering)
  {
    exists it :: it in its && o in it.offerings && !HasResolvedImage(current, C.HcloudArchFor(it.requirements))
  }

  lemma ShutOutStep(its: seq<T.InstanceType>, it: T.InstanceType, current: seq<ResolvedImage>, o: T.Offering)
    ensures ShutOut(its + [it], current, o) <==>
      || ShutOut(its, current, o)
      || (o in it.offerings && !HasResolvedImage(current, C.HcloudArchFor(it.requirements)))
  {
    assert forall x :: x in its + [it] <==> x in its || x == it;
  }

  // Clears Available in place on every offering of a shut-out type, and touches
  // nothing else.
  method MarkImagelessArchesUnavailable(its: seq<T.InstanceType>, nc: HCloudNodeClass)
    modifies T.OfferingsIn(its)
    ensures forall o :: o in T.OfferingsIn(its) ==>
      o.available == (old(o.available) && !ShutOut(its, CurrentImages(nc.generation, nc.StatusView()), o))
  {
    var current := nc.CurrentResolvedImages();
    for i := 0 to |its|
      invariant nc.StatusView() == old(nc.StatusView()) && nc.generation == old(nc.generation)
      invariant forall o :: o in T.OfferingsIn(its) ==>
        o.available == (old(o.available) && !ShutOut(its[..i], current, o))
    {
      var it := its[i];
      var shut := !HasResolvedImage(current, C.HcloudArchFor(it.requirements));
      if shut {
        for j := 0 to |it.offerings|
          invariant nc.StatusView() == old(nc.StatusView()) && nc.generation == old(nc.generation)
          invariant forall o :: o in T.OfferingsIn(its) ==>
            o.available == (old(o.available) && !ShutOut(its[..i], current, o) && o !in it.offerings[..j])
        {
          assert its[i] in its && it.offerings[j] in it.offerings;
          assert it.offerings[j] in T.OfferingsIn(its);
          it.offerings[j].available := false;
          assert it.offerings[..j + 1] == it.offerings[..j] + [it.offerings[j]];
        }
        assert it.offerings[..|it.offerings|] == it.offerings;
      }
      forall o
        ensures ShutOut(its[..i + 1], current, o) <==> ShutOut(its[..i], current, o) || (shut && o in it.offerings)
      {
        assert its[..i + 1] == its[..i] + [it];
        ShutOutStep(its[..i], it, current, o);
      }
    }
    assert its[..|its|] == its;
  }

  // Clearing in place, when no two types share an offering object, is the gate.
  lemma InPlaceIsGated(its: seq<T.InstanceType>, current: seq<ResolvedImage>, before: seq<C.TypeV>)
    requires T.Unshared(its) && |before| == |its|
    requires forall i :: 0 <= i < |its| ==>
      && before[i].name == its[i].name && before[i].requirements == its[i].requirements
      && |before[i].offerings| == |its[i].offerings|
    requires forall i, j :: 0 <= i < |its| && 0 <= j < |its[i].offerings| ==>
      T.OfferingView(its[i].offerings[j]) ==
        before[i].offerings[j].(available :=
          before[i].offerings[j].available && !ShutOut(its, current, its[i].offerings[j]))
    ensures T.TypeViews(its) == Gated(before, current)
  {
    forall i | 0 <= i < |its|
      ensures T.TypeView(its[i]) == GatedType(before[i], current)
    {
      forall j | 0 <= j < |its[i].offerings|
        ensures ShutOut(its, current, its[i].offerings[j]) <==>
          !HasResolvedImage(current, C.HcloudArchFor(its[i].requirements))
      {
        var o := its[i].offerings[j];
        assert its[i] in its && o in its[i].offerings;
        if ShutOut(its, current, o) {
          var it :| it in its && o in it.offerings && !HasResolvedImage(current, C.HcloudArchFor(it.requirements));
          var k :| 0 <= k < |its| && its[k] == it;
          var l :| 0 <= l < |its[k].offerings| && its[k].offerings[l] == o;
          assert k == i;
        }
      }
    }
  }

  // Available().Compatible(reqs).Cheapest() on offering objects.
  method CheapestOf(os: seq<T.Offering>, reqs: Requirements) returns (r: T.Offering?)
    ensures r == null ==> Cheapest(T.OfferingViews(os), reqs) == None
    ensures r != null ==> r in os && Cheapest(T.OfferingViews(os), reqs) == Some(T.OfferingView(r))
  {
    r := null;
    ghost var views := T.OfferingViews(os);
    for j := 0 to |os|
      invariant r == null ==> Cheapest(views[..j], reqs) == None
      invariant r != null ==> r in os && Cheapest(views[..j], reqs) == Some(T.OfferingView(r))
    {
      assert views[..j + 1][..j] == views[..j];
      var o := os[j];
      if o.available && reqs.admitsOffering(C.OfferingLabels(o.zone)) && (r == null || o.price < r.price) {
        r := o;
      }
    }
    assert views[..|os|] == views;
  }

  // Create's scan over the listed types.
  method SelectOffering(its: seq<T.InstanceType>, current: seq<ResolvedImage>, reqs: Requirements)
    returns (selected: T.InstanceType?, offering: T.Offering?, missing: set<Architecture>, capacityBlocked: bool)
    ensures var s := Scan(T.TypeViews(its), reqs, current);
      && (selected == null <==> s.selected.None?)
      && (selected != null ==>
            offering != null && s.selected == Some(Choice(T.TypeView(selected), T.OfferingView(offering))))
      && missing == s.missing && capacityBlocked == s.capacityBlocked
  {
    selected, offering, missing, capacityBlocked := null, null, {}, false;
    ghost var views := T.TypeViews(its);
    ghost var at: nat := 0;
    for i := 0 to |its|
      invariant var s := Scan(views[..i], reqs, current);
        && (selected == null <==> s.selected.None?)
        && (selected != null ==> offering != null && at < i && selected == its[at])
        && (selected != null ==> s.selected == Some(Choice(views[at], T.OfferingView(offering))))
        && missing == s.missing && capacityBlocked == s.capacityBlocked
    {
      assert views[..i + 1][..i] == views[..i];
      assert Scan(views[..i + 1], reqs, current) == ScanStep(Scan(views[..i], reqs, current), views[i], reqs, current);
      var it := its[i];
      if reqs.admitsType(it.requirements) {
        var arch := C.HcloudArchFor(it.requirements);
        if !HasResolvedImage(current, arch) {
          missing := missing + {arch};
        } else {
          var cheapest := CheapestOf(it.offerings, reqs);
          assert T.TypeView(it) == views[i];
          if cheapest == null {
            capacityBlocked := true;
          } else if selected == null || cheapest.price < offering.price
                    || (cheapest.price == offering.price && LexLess(it.name, selected.name)) {
            selected, offering, at := it, cheapest, i;
          }
        }
      }
    }
    assert views[..|its|] == views == T.TypeViews(its);
  }

  // ----- The provider -----

  // The locations a request is filtered by.
  ghost function Locations(nc: HCloudNodeClass?): seq<string>
    reads nc
  {
    if nc == null then [] else nc.spec.locations
  }

  // Whether an answer reads as a listing gated by its own node class only.
  ghost predicate ReadsAs(r: T.ListResult, nc: HCloudNodeClass?, listing: Option<seq<C.TypeV>>)
    reads nc, if r.Listed? then T.OfferingsIn(r.types) else {}
  {
    && (r.Listed? <==> listing.Some?)
    && (r.Listed? ==>
          T.TypeViews(r.types) ==
          if nc == null then listing.value else Gated(listing.value, CurrentImages(nc.generation, nc.StatusView())))
  }

  // Who asks for instance types: no node pool, or one whose node class resolves
  // or, when null, does not.
  datatype NodePool = NoPool | PoolOf(nodeClass: HCloudNodeClass?)

  predicate Resolved(pool: NodePool)
  {
    pool != PoolOf(null)
  }

  function GateOf(pool: NodePool): HCloudNodeClass?
  {
    if pool.NoPool? then null else pool.nodeClass
  }


  datatype CreateError =
    | NodeClassUnresolved | ListFailed | Refused(why: Refusal) | UserDataUnresolved | ServerError(error: I.CreateError)

  datatype CreateResult = Created(claim: NodeClaim) | Failed(error: CreateError)

  // What the world answers during one call.
  datatype World = World(
    meanwhile: Option<seq<C.ServerType>>,    // stored by another caller while List waited
    fetch: Fetch,
    lookups: Architecture -> Lookup,
    userDataResolves: bool,
    answer: I.ApiAnswer)

  // The image to launch: the first status entry of the architecture, else the
  // live lookup, refused when its architecture is another.
  method ResolveImage(current: seq<ResolvedImage>, arch: Architecture, live: Lookup) returns (r: ImageResult)
    ensures r == ResolvedImageFor(current, arch, live)
  {
    for i := 0 to |current|
      invariant EntryFor(current, arch) == EntryFor(current[i..], arch)
    {
      if current[i].architecture == arch {
        return Launchable(current[i].imageID);
      }
    }
    match live
    case PermanentError => r := NoImage;
    case TransientError => r := LookupFailed;
    case Found(img) => r := if img.architecture != arch then NoImage else Launchable(img.id);
  }

  // What Create does with a decision: its result, the server it leaves behind,
  // and the pair it marks.
  datatype Effect = Effect(result: CreateResult, server: Option<I.Server>, marked: Option<Choice>)

  function EffectOf(d: Decision, claim: NodeClaim, spec: Spec, cluster: string, world: World): Effect
  {
    match d
    case Refuse(why) => Effect(Failed(Refused(why)), None, None)
    case Launch(c, imageID) =>
      if !world.userDataResolves then Effect(Failed(UserDataUnresolved), None, None)
      else match world.answer
      case Rejected(e) =>
        var mapped := I.MapCreateError(e);
        Effect(Failed(ServerError(mapped)), None, if mapped == I.InsufficientCapacity then Some(c) else None)
      case Accepted(id, actionsSucceed, namesImage) =>
        var server := I.Recorded(id, OptsFor(claim, spec, c, imageID), cluster);
        var response := if namesImage then server else server.(imageID := None);
        Effect(if actionsSucceed then Created(Hydrated(claim, c, response)) else Failed(ServerError(I.Ordinary)),
          Some(server), None)
  }

  // A pair is marked exactly when hcloud refused it for capacity, and then no
  // server exists.
  lemma MarkMeaning(d: Decision, claim: NodeClaim, spec: Spec, cluster: string, world: World)
    ensures var e := EffectOf(d, claim, spec, cluster, world);
      && (e.marked.Some? <==> e.result == Failed(ServerError(I.InsufficientCapacity)))
      && (e.marked.Some? ==> d.Launch? && e.marked.value == d.choice && e.server.None?)
  {
  }

  // A server exists, of the chosen type and image in the chosen location and
  // listed for this cluster, when a claim is returned, under an ID that parses
  // back; left behind by any other outcome, it is reported as an ordinary error.
  lemma ServerMeaning(d: Decision, claim: NodeClaim, spec: Spec, cluster: string, world: World)
    requires world.answer.Accepted? ==> IsInt64(world.answer.id)
    ensures var e := EffectOf(d, claim, spec, cluster, world);
      && (e.server.None? ==> !e.result.Created?)
      && (e.server.Some? ==>
            var s := e.server.value;
            && d.Launch? && s.serverType == Some(d.choice.itype.name)
            && s.location == Some(d.choice.offering.zone) && s.imageID == Some(d.imageID)
            && I.Selected(s, cluster)
            && if e.result.Created? then ParseProviderID(e.result.claim.providerID) == Some(s.id)
               else e.result == Failed(ServerError(I.Ordinary)))
  {
    if d.Launch? && world.userDataResolves && world.answer.Accepted? {
      var id, opts := world.answer.id, OptsFor(claim, spec, d.choice, d.imageID);
      RoundTrip(id);
      assert I.Selected(I.Recorded(id, opts, cluster), cluster);
    }
  }

  // Which outcome a call has: a claim exactly when something was chosen, userData
  // resolves, and hcloud accepts and its actions succeed; each error from its cause.
  lemma OutcomeMeaning(d: Decision, claim: NodeClaim, spec: Spec, cluster: string, world: World)
    ensures var e := EffectOf(d, claim, spec, cluster, world);
      && (e.result.Created? <==>
            d.Launch? && world.userDataResolves && world.answer.Accepted? && world.answer.actionsSucceed)
      && (forall why :: e.result == Failed(Refused(why)) <==> d == Refuse(why))
      && (e.result == Failed(UserDataUnresolved) <==> d.Launch? && !world.userDataResolves)
      && (forall error :: e.result == Failed(ServerError(error)) <==>
            && d.Launch? && world.userDataResolves
            && ((world.answer.Rejected? && I.MapCreateError(world.answer.error) == error)
                || (world.answer.Accepted? && !world.answer.actionsSucceed && error == I.Ordinary)))
      && (e.server.Some? <==> d.Launch? && world.userDataResolves && world.answer.Accepted?)
  {
  }

  // What the server left behind is: everything the claim and the node class ask for.
  lemma LaunchedServer(d: Decision, claim: NodeClaim, spec: Spec, cluster: string, world: World)
    requires EffectOf(d, claim, spec, cluster, world).server.Some?
    ensures var s := EffectOf(d, claim, spec, cluster, world).server.value;
      && s.id == world.answer.id
      && s.serverType == Some(d.choice.itype.name) && s.location == Some(d.choice.offering.zone)
      && s.imageID == Some(d.imageID)
      && s.networks == (if spec.networkID > 0 then [Some(spec.networkID)] else [])
      && |s.firewalls| == |spec.firewallIDs|
      && (forall i :: 0 <= i < |s.firewalls| ==> s.firewalls[i] == Some(spec.firewallIDs[i]))
      && s.labels[ManagedByKey] == "karpenter" && s.labels[ClusterKey] == cluster
      && (claim.name != "" ==> NodeClaimKey in s.labels && s.labels[NodeClaimKey] == claim.name)
      && (NodePoolKey in claim.labels && claim.labels[NodePoolKey] != "" ==>
            NodePoolKey in s.labels && s.labels[NodePoolKey] == claim.labels[NodePoolKey])
      && forall k :: k !in [ManagedByKey, ClusterKey, NodeClaimKey, NodePoolKey] ==> I.SameAt(s.labels, spec.labels, k)
  {
    var labels := I.ServerLabels(spec.labels, cluster, claim.name,
      if NodePoolKey in claim.labels then claim.labels[NodePoolKey] else "");
    forall k
      ensures k !in [ManagedByKey, ClusterKey, NodeClaimKey, NodePoolKey] ==> I.SameAt(labels, spec.labels, k)
    {
      I.ServerLabelsMeaning(spec.labels, cluster, claim.name,
        if NodePoolKey in claim.labels then claim.labels[NodePoolKey] else "", k);
    }
  }

  // What the returned claim says: the image hcloud named, in decimal, or else the one
  // it came with; every label it came with; and of the type's and the offering's
  // labels those it did not.
  lemma ReturnedClaim(d: Decision, claim: NodeClaim, spec: Spec, cluster: string, world: World, k: LabelKey)
    requires EffectOf(d, claim, spec, cluster, world).result.Created?
    ensures var r := EffectOf(d, claim, spec, cluster, world).result.claim;
      && r.name == claim.name
      && r.imageID == (if world.answer.namesImage then FormatInt(d.imageID) else claim.imageID)
      && (IsInt64(d.imageID) && world.answer.namesImage ==> ParseInt(r.imageID) == Some(d.imageID))
      && (IsInt64(world.answer.id) ==> ParseProviderID(r.providerID) == Some(world.answer.id))
      && if k in claim.labels then k in r.labels && r.labels[k] == claim.labels[k]
         else match k
           case ZoneKey => k in r.labels && r.labels[k] == d.choice.offering.zone
           case CapacityTypeKey => k in r.labels && r.labels[k] == "on-demand"
           case _ => I.SameAt(r.labels, d.choice.itype.requirements, k)
  {
    IntRoundTrip(d.imageID);
    RoundTrip(world.answer.id);
  }

  class CloudProvider {
    const types: T.Provider
    const instances: I.Provider

    constructor (types: T.Provider, instances: I.Provider)
      ensures this.types == types && this.instances == instances
    {
      this.types := types;
      this.instances := instances;
    }

    // The listing the node class is offered, shut-out architectures unavailable
    // but still listed. Of the objects that existed before, only the cache fields
    // and the clock change: no other caller's offering and nothing in the cache.
    method GetInstanceTypes(pool: NodePool, world: World)
      returns (r: T.ListResult, ghost listing: Option<seq<C.TypeV>>, ghost read: T.Readings)
      requires types.Valid()
      modifies types`cachedTypes, types`cachedAt, types`cacheExpiry, types.clock
      ensures types.Valid()
      ensures ReadsAs(r, GateOf(pool), listing)
      ensures r.Listed? ==> T.AllFresh(r.types)
      ensures Resolved(pool) ==>
        Answers(old(types.CacheView()), types.CacheView(), old(types.clock.now), types.clock.now,
          Locations(GateOf(pool)), types.unavailable.items, world, read, listing)
      ensures !Resolved(pool) ==>
        && r.ListFailed?
        && types.CacheView() == old(types.CacheView()) && types.clock.now == old(types.clock.now)
    {
      if pool == PoolOf(null) {
        return T.ListFailed, None, T.Readings(0, None, 0, 0, []);
      }
      var nc := GateOf(pool);
      r, listing, read := ListFor(nc, world);
      if r.Listed? && nc != null {
        ghost var its := r.types;
        label listed:
        MarkImagelessArchesUnavailable(r.types, nc);
        forall i, j | 0 <= i < |its| && 0 <= j < |its[i].offerings|
          ensures its[i].offerings[j] in T.OfferingsIn(its)
          ensures T.OfferingView(its[i].offerings[j]) == listing.value[i].offerings[j].(available :=
            listing.value[i].offerings[j].available
            && !ShutOut(its, CurrentImages(nc.generation, nc.StatusView()), its[i].offerings[j]))
        {
          assert its[i] in its && its[i].offerings[j] in its[i].offerings;
          assert listing.value[i].offerings[j] == old@listed(T.OfferingView(its[i].offerings[j]));
        }
        InPlaceIsGated(its, CurrentImages(nc.generation, nc.StatusView()), listing.value);
        assert types.cachedTypes.Some? ==>
          T.TypeViews(types.cachedTypes.value) == old@listed(T.TypeViews(types.cachedTypes.value));
      }
    }

    // The effect on hcloud and on the mark history: at most one server appears,
    // at most one mark is made, now.
    twostate predicate Happened(eff: Effect)
      reads types.unavailable, types.clock, instances.hcloud
    {
      && instances.hcloud.servers == (if eff.server.Some?
           then old(instances.hcloud.servers)[eff.server.value.id := eff.server.value]
           else old(instances.hcloud.servers))
      && types.unavailable.history == (if eff.marked.Some?
           then old(types.unavailable.history)
             + [Mark(eff.marked.value.itype.name, eff.marked.value.offering.zone, types.clock.now)]
           else old(types.unavailable.history))
    }

    // No server is new but the one the answer names.
    twostate predicate OnlyNew(answer: I.ApiAnswer)
      reads instances.hcloud
    {
      forall id :: id in instances.hcloud.servers && id !in old(instances.hcloud.servers) ==>
        answer.Accepted? && id == answer.id
    }

    // One claim: list, decide from the listing, launch, and feed a capacity error
    // back into the unavailable cache.
    method Create(claim: NodeClaim, nc: HCloudNodeClass?, reqs: Requirements, world: World)
      returns (r: CreateResult, ghost listing: Option<seq<C.TypeV>>, ghost read: T.Readings)
      requires types.Valid()
      requires world.answer.Accepted? ==> world.answer.id !in instances.hcloud.servers
      modifies types`cachedTypes, types`cachedAt, types`cacheExpiry, types.clock, types.unavailable, instances.hcloud
      ensures types.Valid() && OnlyNew(world.answer)
      ensures nc == null ==>
        && r == Failed(NodeClassUnresolved) && listing.None?
        && types.CacheView() == old(types.CacheView()) && types.clock.now == old(types.clock.now)
      ensures nc == null || r == Failed(ListFailed) ==>
        && types.unavailable.history == old(types.unavailable.history)
        && instances.hcloud.servers == old(instances.hcloud.servers)
      ensures nc != null ==>
        && Answers(old(types.CacheView()), types.CacheView(), old(types.clock.now), types.clock.now,
             nc.spec.locations, old(types.unavailable.items), world, read, listing)
        && (r == Failed(ListFailed) <==> listing.None?)
        && (listing.Some? ==>
              var eff := EffectOf(
                   Decide(listing.value, reqs, CurrentImages(nc.generation, nc.StatusView()), world.lookups),
                   claim, nc.spec, instances.clusterName, world);
              r == eff.result && Happened(eff))
    {
      listing, read := None, T.Readings(0, None, 0, 0, []);
      if nc == null {
        return Failed(NodeClassUnresolved), listing, read;
      }
      var listed;
      listed, listing, read := ListFor(nc, world);
      if listed.ListFailed? {
        return Failed(ListFailed), listing, read;
      }
      r := Launch(claim, nc, reqs, world, listed.types);
    }

    // The types of a node class's locations, before any gate.
    method ListFor(nc: HCloudNodeClass?, world: World)
      returns (r: T.ListResult, ghost listing: Option<seq<C.TypeV>>, ghost read: T.Readings)
      requires types.Valid()
      modifies types`cachedTypes, types`cachedAt, types`cacheExpiry, types.clock
      ensures types.Valid()
      ensures Answers(old(types.CacheView()), types.CacheView(), old(types.clock.now), types.clock.now,
        Locations(nc), types.unavailable.items, world, read, listing)
      ensures listing == if r.Listed? then Some(T.TypeViews(r.types)) else None
      ensures r.Listed? ==>
        T.AllFresh(r.types) && T.Unshared(r.types) && T.OfferingsIn(r.types) !! types.CachedOfferings()
    {
      r, read := types.List(if nc == null then [] else nc.spec.locations, world.meanwhile, world.fetch);
      listing := if r.Listed? then Some(T.TypeViews(r.types)) else None;
    }

    // Create from its selection loop to the resolved image.
    method Choose(nc: HCloudNodeClass, reqs: Requirements, lookups: Architecture -> Lookup, its: seq<T.InstanceType>)
      returns (selected: T.InstanceType?, offering: T.Offering?, imageID: int, why: Refusal)
      ensures var d := Decide(T.TypeViews(its), reqs, CurrentImages(nc.generation, nc.StatusView()), lookups);
        && (d.Refuse? ==> selected == null && why == d.why)
        && (d.Launch? ==> selected != null && offering != null && imageID == d.imageID)
        && (d.Launch? ==> d.choice == Choice(T.TypeView(selected), T.OfferingView(offering)))
    {
      imageID, why := 0, InsufficientCapacity;
      ghost var views := T.TypeViews(its);
      var current := nc.CurrentResolvedImages();
      var missing, capacityBlocked;
      selected, offering, missing, capacityBlocked := SelectOffering(its, current, reqs);
      assert T.TypeViews(its) == views;
      if selected == null {
        return null, null, 0, if missing != {} && !capacityBlocked then NodeClassNotReady else InsufficientCapacity;
      }
      var arch := C.HcloudArchFor(selected.requirements);
      ghost var choice := Choice(T.TypeView(selected), T.OfferingView(offering));
      var image := ResolveImage(current, arch, lookups(arch));
      assert T.TypeViews(its) == views && Choice(T.TypeView(selected), T.OfferingView(offering)) == choice;
      match image
      case NoImage => return null, null, 0, NodeClassNotReady;
      case LookupFailed => return null, null, 0, ImageLookupFailed;
      case Launchable(id) => imageID := id;
    }

    // Create from its selection loop on.
    method Launch(claim: NodeClaim, nc: HCloudNodeClass, reqs: Requirements, world: World, its: seq<T.InstanceType>)
      returns (r: CreateResult)
      requires types.Valid()
      requires world.answer.Accepted? ==> world.answer.id !in instances.hcloud.servers
      modifies types.clock, types.unavailable, instances.hcloud
      ensures types.Valid() && old(types.clock.now) <= types.clock.now && types.CacheView() == old(types.CacheView())
      ensures OnlyNew(world.answer)
      ensures var eff := EffectOf(
          Decide(old(T.TypeViews(its)), reqs, CurrentImages(nc.generation, nc.StatusView()), world.lookups),
          claim, nc.spec, instances.clusterName, world);
        r == eff.result && Happened(eff)
    {
      var selected, offering, imageID, why := Choose(nc, reqs, world.lookups, its);
      T.CacheUntouched(types);
      assert T.TypeViews(its) == old(T.TypeViews(its)) && nc.StatusView() == old(nc.StatusView());
      if selected == null {
        return Failed(Refused(why));
      }
      r := Send(claim, nc.spec, world, selected, offering, imageID);
    }

    // The launch itself, where the offering that was ranked is.
    method Send(
        claim: NodeClaim, spec: Spec, world: World, selected: T.InstanceType, offering: T.Offering, imageID: int)
      returns (r: CreateResult)
      requires types.Valid()
      requires world.answer.Accepted? ==> world.answer.id !in instances.hcloud.servers
      modifies types.clock, types.unavailable, instances.hcloud
      ensures types.Valid() && old(types.clock.now) <= types.clock.now && types.CacheView() == old(types.CacheView())
      ensures OnlyNew(world.answer)
      ensures var c := Choice(old(T.TypeView(selected)), old(T.OfferingView(offering)));
        var eff := EffectOf(Decision.Launch(c, imageID), claim, spec, instances.clusterName, world);
        r == eff.result && Happened(eff)
    {
      ghost var c := Choice(T.TypeView(selected), T.OfferingView(offering));
      var location := offering.zone;
      var nodePool := if NodePoolKey in claim.labels then claim.labels[NodePoolKey] else "";
      if !world.userDataResolves {
        return Failed(UserDataUnresolved);
      }
      var opts := I.CreateOpts(selected.name, location, imageID, spec.networkID, spec.firewallIDs,
        spec.labels, claim.name, nodePool);
      assert opts == OptsFor(claim, spec, c, imageID);
      var created := instances.Create(opts, world.answer);
      if created.CreateFailed? {
        if created.error == I.InsufficientCapacity {
          types.MarkUnavailable(selected.name, location);
        }
        T.CacheUntouched(types);
        return Failed(ServerError(created.error));
      }
      var hydrated := Hydrate(claim, selected, offering, created.server);
      T.CacheUntouched(types);
      return Created(hydrated);
    }
  }

  // The labels and status of the returned claim.
  method Hydrate(claim: NodeClaim, selected: T.InstanceType, offering: T.Offering, server: I.Server)
    returns (created: NodeClaim)
    ensures created == Hydrated(claim, Choice(T.TypeView(selected), T.OfferingView(offering)), server)
  {
    var labels := I.CopyInto(map[], selected.requirements);
    labels := I.CopyInto(labels, C.OfferingLabels(offering.zone));
    labels := I.CopyInto(labels, claim.labels);
    assert map[] + selected.requirements == selected.requirements;
    created := NodeClaim(claim.name, labels, FormatProviderID(server.id),
      if server.imageID.Some? then FormatInt(server.imageID.value) else claim.imageID);
  }
}
