// Any sequence of GetInstanceTypes and Create calls against one provider, as heap
// code: what stays true of the answers given out, of the cache and of the marks.
module Sessions {
  import opened Basics
  import opened Unavailable
  import opened CachePolicy
  import C = Catalogue
  import opened NodeClass
  import opened Selection
  import opened PossibleLaunches
  import opened Drift
  import I = Instance
  import T = InstanceTypeProvider
  import opened CloudProvider
  import opened ProviderID

  datatype Call =
    | Advertise(pool: NodePool, world: World)
    | Provision(claim: NodeClaim, nodeClass: HCloudNodeClass?, reqs: Requirements, world: World)

  datatype Outcome = Advertised(r: T.ListResult) | Provisioned(result: CreateResult)

  // What a provider holds between two calls.
  datatype Point = Point(cache: Option<Cached>, now: nat, marks: seq<Mark>)

  // What a call reads of its node class.
  datatype Seen = Seen(spec: Spec, current: seq<ResolvedImage>)

  // What one call met: the provider before and after it, its node class if it had
  // one, its listing, and its part in the capacity fallback.
  datatype Met = Met(
    from: Point, to: Point, seen: Option<Seen>, read: T.Readings, listing: Option<seq<C.TypeV>>,
    attempt: Option<Attempt>)

  const CAPACITY: CreateResult := Failed(ServerError(I.InsufficientCapacity))

  predicate Resolves(call: Call)
  {
    match call
    case Advertise(pool, _) => Resolved(pool)
    case Provision(_, nc, _, _) => nc != null
  }

  function ClassOf(call: Call): HCloudNodeClass?
  {
    match call
    case Advertise(pool, _) => GateOf(pool)
    case Provision(_, nc, _, _) => nc
  }

  ghost function SeenOf(nc: HCloudNodeClass?): Option<Seen>
    reads nc
  {
    if nc == null then None else Some(Seen(nc.spec, CurrentImages(nc.generation, nc.StatusView())))
  }

  // ----- What each call leaves -----

  // The listing and the cache left behind are those of the plain cache; a call
  // whose node class does not resolve leaves everything alone.
  ghost predicate ListedBy(call: Call, m: Met)
  {
    if Resolves(call) then
      Answers(m.from.cache, m.to.cache, m.from.now, m.to.now, if m.seen.None? then [] else m.seen.value.spec.locations,
        ItemsAfter(m.from.marks, UNAVAILABLE_TTL), call.world, m.read, m.listing)
    else m.from == m.to && m.listing.None?
  }

  // What Create returned is what Decide makes of its listing.
  ghost predicate ResultOf(result: CreateResult, m: Met, claim: NodeClaim, seen: Seen, reqs: Requirements, world: World,
      cluster: string)
  {
    match m.listing
    case None => m.attempt.None? && result == Failed(ListFailed)
    case Some(listing) =>
      && m.to.cache.Some?
      && result == EffectOf(Decide(listing, reqs, seen.current, world.lookups), claim, seen.spec, cluster, world).result
      && m.attempt == Some(AttemptOf(m.to, m.read, seen, reqs, world, result))
  }

  ghost predicate OutcomeOf(call: Call, o: Outcome, m: Met, cluster: string)
  {
    match call
    case Advertise(pool, _) => o.Advertised? && m.attempt.None? && (o.r.Listed? <==> m.listing.Some?)
    case Provision(claim, nc, reqs, world) =>
      && o.Provisioned?
      && match m.seen
         case None => m.listing.None? && m.attempt.None? && o.result == Failed(NodeClassUnresolved)
         case Some(seen) => ResultOf(o.result, m, claim, seen, reqs, world, cluster)
  }

  ghost function Given(o: Outcome): set<T.Offering>
  {
    if o.Advertised? && o.r.Listed? then T.OfferingsIn(o.r.types) else {}
  }

  // The listing gated by the node class, if there is one.
  ghost function Promised(m: Met): seq<C.TypeV>
    requires m.listing.Some?
  {
    if m.seen.None? then m.listing.value else Gated(m.listing.value, m.seen.value.current)
  }

  // The record of a call is true of the objects: its node class reads as it was
  // seen, and what GetInstanceTypes gave out reads as the gated listing.
  ghost predicate Holds(call: Call, o: Outcome, m: Met, cluster: string)
    reads ClassOf(call), Given(o)
  {
    && ListedBy(call, m) && OutcomeOf(call, o, m, cluster)
    && m.seen == SeenOf(ClassOf(call))
    && (o.Advertised? && o.r.Listed? ==> m.listing.Some? && T.TypeViews(o.r.types) == Promised(m))
  }

  ghost predicate Timed(m: Met)
  {
    && m.from.now <= m.to.now
    && (m.attempt.Some? ==>
          var a := m.attempt.value;
          WellShaped(a) && C.Within(a.at, m.from.now, m.to.now) && m.from.now <= a.markedAt)
  }

  // The marks grow as the attempt says, and by one exactly on a capacity error.
  ghost predicate MarkedBy(o: Outcome, m: Met)
  {
    && Timed(m)
    && m.to.marks ==
         (if m.attempt.Some? then MarksAfter(m.from.marks, m.attempt.value, UNAVAILABLE_TTL) else m.from.marks)
    && |m.to.marks| == |m.from.marks| + if o == Provisioned(CAPACITY) then 1 else 0
  }

  // The ID hcloud will give is not in use.
  predicate IdFree(call: Call, servers: map<int, I.Server>)
  {
    call.world.answer.Accepted? ==> call.world.answer.id !in servers
  }

  ghost function Here(cp: CloudProvider): Point
    reads cp.types, cp.types.CachedOfferings(), cp.types.clock, cp.types.unavailable
  {
    Point(cp.types.CacheView(), cp.types.clock.now, cp.types.unavailable.history)
  }

  // One call of either kind.
  method Take(cp: CloudProvider, call: Call) returns (o: Outcome, ghost m: Met)
    requires cp.types.Valid() && IdFree(call, cp.instances.hcloud.servers)
    modifies cp.types`cachedTypes, cp.types`cachedAt, cp.types`cacheExpiry, cp.types.clock, cp.types.unavailable
    modifies cp.instances.hcloud
    ensures cp.types.Valid()
    ensures m.from == old(Here(cp)) && m.to == Here(cp) && cp.OnlyNew(call.world.answer)
    ensures Holds(call, o, m, cp.instances.clusterName) && MarkedBy(o, m)
  {
    match call
    case Advertise(pool, world) =>
      var r;
      ghost var listing, read;
      r, listing, read := cp.GetInstanceTypes(pool, world);
      o := Advertised(r);
      m := Met(old(Here(cp)), Here(cp), SeenOf(GateOf(pool)), read, listing, None);
    case Provision(claim, nc, reqs, world) =>
      if nc == null {
        ghost var from := Here(cp);
        var result;
        ghost var listing, read;
        result, listing, read := cp.Create(claim, nc, reqs, world);
        o := Provisioned(result);
        m := Met(from, Here(cp), None, read, None, None);
      } else {
        o, m := TakeProvision(cp, call);
      }
  }

  // The listing of an answer is the catalogue left in the cache, filtered and
  // overlaid.
  lemma ListingCatalogue(
      before: Option<Cached>, after: Option<Cached>, start: nat, end: nat, locations: seq<string>,
      items: map<string, nat>, world: World, read: T.Readings, listing: seq<C.TypeV>)
    requires Answers(before, after, start, end, locations, items, world, read, Some(listing))
    ensures after.Some? && start <= end && C.Within(read.at, start, end)
    ensures var filtered := C.FilterByLocations(after.value.types, locations);
      C.ShapedLike(read.at, filtered) && listing == C.Overlay(filtered, items, read.at)
  {
    var served := Serve(before, read.entry, read.waited, read.recheck, world.fetch, read.store).0;
    assert served.Served? && after.Some? && served.types == after.value.types;
  }

  // The mark Create makes is the one its attempt stands for.
  lemma AttemptMarks(
      marks: seq<Mark>, a: Attempt, listing: seq<C.TypeV>, claim: NodeClaim, spec: Spec, cluster: string, world: World)
    requires WellShaped(a) && a.lookups == world.lookups
    requires listing ==
      C.Overlay(C.FilterByLocations(a.catalogue, a.locations), ItemsAfter(marks, UNAVAILABLE_TTL), a.at)
    requires a.capacityError <==>
      EffectOf(Decide(listing, a.reqs, a.current, a.lookups), claim, spec, cluster, world).result == CAPACITY
    ensures var eff := EffectOf(Decide(listing, a.reqs, a.current, a.lookups), claim, spec, cluster, world);
      && (eff.marked.Some? <==> a.capacityError)
      && MarksAfter(marks, a, UNAVAILABLE_TTL) ==
           if eff.marked.Some?
           then marks + [Mark(eff.marked.value.itype.name, eff.marked.value.offering.zone, a.markedAt)]
           else marks
  {
    MarkMeaning(Decide(listing, a.reqs, a.current, a.lookups), claim, spec, cluster, world);
  }

  // The part a Create that had a listing plays in the capacity fallback.
  ghost function AttemptOf(
      to: Point, read: T.Readings, seen: Seen, reqs: Requirements, world: World, result: CreateResult): Attempt
    requires to.cache.Some?
  {
    Attempt(to.cache.value.types, seen.spec.locations, read.at, reqs, seen.current, world.lookups,
      result == CAPACITY, to.now)
  }

  // What a Create that saw a node class met.
  ghost function ProvisionMet(
      from: Point, to: Point, seen: Seen, read: T.Readings, listing: Option<seq<C.TypeV>>, reqs: Requirements,
      world: World, result: CreateResult): Met
    requires listing.Some? ==> to.cache.Some?
  {
    Met(from, to, Some(seen), read, listing,
      if listing.None? then None else Some(AttemptOf(to, read, seen, reqs, world, result)))
  }

  // It leaves the marks its attempt stands for.
  lemma ProvisionMarks(
      from: Point, to: Point, seen: Seen, read: T.Readings, listing: Option<seq<C.TypeV>>, result: CreateResult,
      claim: NodeClaim, reqs: Requirements, world: World, cluster: string)
    requires Answers(from.cache, to.cache, from.now, to.now, seen.spec.locations,
      ItemsAfter(from.marks, UNAVAILABLE_TTL), world, read, listing)
    requires listing.None? ==> result == Failed(ListFailed) && to.marks == from.marks
    requires listing.Some? ==>
      var eff := EffectOf(Decide(listing.value, reqs, seen.current, world.lookups), claim, seen.spec, cluster, world);
      && result == eff.result
      && to.marks == if eff.marked.Some?
                     then from.marks + [Mark(eff.marked.value.itype.name, eff.marked.value.offering.zone, to.now)]
                     else from.marks
    ensures listing.Some? ==> to.cache.Some?
    ensures var m := ProvisionMet(from, to, seen, read, listing, reqs, world, result);
      MarkedBy(Provisioned(result), m) && ResultOf(result, m, claim, seen, reqs, world, cluster)
  {
    if listing.Some? {
      ListingCatalogue(from.cache, to.cache, from.now, to.now, seen.spec.locations,
        ItemsAfter(from.marks, UNAVAILABLE_TTL), world, read, listing.value);
      var a := AttemptOf(to, read, seen, reqs, world, result);
      AttemptMarks(from.marks, a, listing.value, claim, seen.spec, cluster, world);
    }
  }

  method TakeProvision(cp: CloudProvider, call: Call) returns (o: Outcome, ghost m: Met)
    requires call.Provision? && call.nodeClass != null
    requires cp.types.Valid() && IdFree(call, cp.instances.hcloud.servers)
    modifies cp.types`cachedTypes, cp.types`cachedAt, cp.types`cacheExpiry, cp.types.clock, cp.types.unavailable
    modifies cp.instances.hcloud
    ensures cp.types.Valid()
    ensures m.from == old(Here(cp)) && m.to == Here(cp) && cp.OnlyNew(call.world.answer)
    ensures Holds(call, o, m, cp.instances.clusterName) && MarkedBy(o, m)
  {
    ghost var from := Here(cp);
    assert cp.types.unavailable.items == ItemsAfter(from.marks, UNAVAILABLE_TTL);
    var result;
    ghost var listing, read;
    result, listing, read := cp.Create(call.claim, call.nodeClass, call.reqs, call.world);
    o := Provisioned(result);
    ghost var to := Here(cp);
    ghost var seen := SeenOf(call.nodeClass).value;
    assert Answers(from.cache, to.cache, from.now, to.now, seen.spec.locations,
      ItemsAfter(from.marks, UNAVAILABLE_TTL), call.world, read, listing);
    ProvisionMarks(from, to, seen, read, listing, result, call.claim, call.reqs, call.world, cp.instances.clusterName);
    m := ProvisionMet(from, to, seen, read, listing, call.reqs, call.world, result);
  }

  // ----- Where the cached catalogue comes from -----

  // The catalogue is one an hcloud answer was turned into.
  ghost predicate FromApi(cache: Option<Cached>)
  {
    cache.Some? ==> exists sts :: cache.value.types == C.ToTypesV(sts)
  }

  // Every answer's catalogue is such a one if the cache's was.
  lemma AnswersFromApi(
      before: Option<Cached>, after: Option<Cached>, start: nat, end: nat, locations: seq<string>,
      items: map<string, nat>, world: World, read: T.Readings, listing: Option<seq<C.TypeV>>)
    requires Answers(before, after, start, end, locations, items, world, read, listing) && FromApi(before)
    ensures FromApi(after)
  {
    var t :| read.entry <= t <= read.recheck && read.waited == T.WaitedCache(before, world.meanwhile, t);
    assert FromApi(read.waited);
  }

  lemma CallFromApi(call: Call, m: Met)
    requires ListedBy(call, m) && FromApi(m.from.cache)
    ensures FromApi(m.to.cache)
  {
    if Resolves(call) {
      AnswersFromApi(m.from.cache, m.to.cache, m.from.now, m.to.now,
        if m.seen.None? then [] else m.seen.value.spec.locations, ItemsAfter(m.from.marks, UNAVAILABLE_TTL),
        call.world, m.read, m.listing);
    }
  }

  // ----- Whole sessions -----

  // What callers hold after a session still is what each call gave them.
  ghost predicate Stands(calls: seq<Call>, outcomes: seq<Outcome>, run: seq<Met>, cluster: string)
    requires |outcomes| == |run| <= |calls|
    reads set k | 0 <= k < |calls| :: ClassOf(calls[k])
    reads set k, o | 0 <= k < |outcomes| && o in Given(outcomes[k]) :: o
  {
    forall k :: 0 <= k < |run| ==> Holds(calls[k], outcomes[k], run[k], cluster)
  }

  // Each call finds the provider as the one before it left it.
  ghost predicate Chained(start: Point, run: seq<Met>, end: Point)
  {
    if run == [] then start == end
    else
      && run[0].from == start && run[|run| - 1].to == end
      && forall k :: 0 < k < |run| ==> run[k].from == run[k - 1].to
  }

  ghost predicate Marked(outcomes: seq<Outcome>, run: seq<Met>)
    requires |outcomes| == |run|
  {
    forall k :: 0 <= k < |run| ==> MarkedBy(outcomes[k], run[k])
  }

  predicate IdsFree(calls: seq<Call>, from: nat, servers: map<int, I.Server>)
  {
    && (forall k :: from <= k < |calls| ==> IdFree(calls[k], servers))
    && forall k, l :: 0 <= k < l < |calls| && calls[k].world.answer.Accepted? && calls[l].world.answer.Accepted? ==>
         calls[k].world.answer.id != calls[l].world.answer.id
  }

  lemma StandsLonger(calls: seq<Call>, outcomes: seq<Outcome>, run: seq<Met>, cluster: string, o: Outcome, m: Met)
    requires |outcomes| == |run| < |calls|
    requires Stands(calls, outcomes, run, cluster) && Marked(outcomes, run)
    requires Holds(calls[|run|], o, m, cluster) && MarkedBy(o, m)
    ensures Stands(calls, outcomes + [o], run + [m], cluster) && Marked(outcomes + [o], run + [m])
  {
    forall k | 0 <= k <= |run|
      ensures Holds(calls[k], (outcomes + [o])[k], (run + [m])[k], cluster)
      ensures MarkedBy((outcomes + [o])[k], (run + [m])[k])
    {
      if k < |run| {
        assert (outcomes + [o])[k] == outcomes[k] && (run + [m])[k] == run[k];
      }
    }
  }

  // One more call leaves what the earlier ones gave out as it was.
  method TakeBeside(cp: CloudProvider, calls: seq<Call>, outcomes: seq<Outcome>, ghost run: seq<Met>)
    returns (o: Outcome, ghost m: Met)
    requires cp.types.Valid() && |outcomes| == |run| < |calls|
    requires IdFree(calls[|run|], cp.instances.hcloud.servers)
    requires Stands(calls, outcomes, run, cp.instances.clusterName)
    modifies cp.types`cachedTypes, cp.types`cachedAt, cp.types`cacheExpiry, cp.types.clock, cp.types.unavailable
    modifies cp.instances.hcloud
    ensures cp.types.Valid()
    ensures m.from == old(Here(cp)) && m.to == Here(cp) && cp.OnlyNew(calls[|run|].world.answer) && MarkedBy(o, m)
    ensures Holds(calls[|run|], o, m, cp.instances.clusterName)
    ensures Stands(calls, outcomes, run, cp.instances.clusterName)
  {
    o, m := Take(cp, calls[|outcomes|]);
    forall k | 0 <= k < |run|
      ensures Holds(calls[k], outcomes[k], run[k], cp.instances.clusterName)
    {
      assert old(Holds(calls[k], outcomes[k], run[k], cp.instances.clusterName));
    }
  }

  method OneMore(cp: CloudProvider, calls: seq<Call>, outcomes: seq<Outcome>, ghost run: seq<Met>)
    returns (longer: seq<Outcome>, ghost m: Met)
    requires cp.types.Valid() && |outcomes| == |run| < |calls|
    requires IdsFree(calls, |run|, cp.instances.hcloud.servers)
    requires Stands(calls, outcomes, run, cp.instances.clusterName) && Marked(outcomes, run)
    modifies cp.types`cachedTypes, cp.types`cachedAt, cp.types`cacheExpiry, cp.types.clock, cp.types.unavailable
    modifies cp.instances.hcloud
    ensures cp.types.Valid()
    ensures |longer| == |run| + 1
    ensures IdsFree(calls, |run| + 1, cp.instances.hcloud.servers)
    ensures Stands(calls, longer, run + [m], cp.instances.clusterName) && Marked(longer, run + [m])
    ensures m.from == old(Here(cp)) && m.to == Here(cp)
  {
    var o;
    o, m := TakeBeside(cp, calls, outcomes, run);
    StandsLonger(calls, outcomes, run, cp.instances.clusterName, o, m);
    longer := outcomes + [o];
  }

  lemma {:induction false} SessionFromApi(calls: seq<Call>, start: Point, run: seq<Met>, end: Point)
    requires |run| <= |calls| && forall k :: 0 <= k < |run| ==> ListedBy(calls[k], run[k])
    requires Chained(start, run, end)
    ensures FromApi(start.cache) ==> FromApi(end.cache)
  {
    if run != [] && FromApi(start.cache) {
      var n := |run| - 1;
      SessionFromApi(calls, start, run[..n], run[n].from);
      CallFromApi(calls[n], run[n]);
    }
  }

  // Any sequence of calls of either kind, for any node classes: at the end every
  // answer given out still reads as its own listing gated by its own node class,
  // every listing is what the plain cache gives, the marks are those of the capacity
  // errors, in order, and the cached catalogue is still one hcloud answered with.
  method Session(cp: CloudProvider, calls: seq<Call>) returns (outcomes: seq<Outcome>, ghost run: seq<Met>)
    requires cp.types.Valid() && IdsFree(calls, 0, cp.instances.hcloud.servers)
    modifies cp.types`cachedTypes, cp.types`cachedAt, cp.types`cacheExpiry, cp.types.clock, cp.types.unavailable
    modifies cp.instances.hcloud
    ensures cp.types.Valid()
    ensures |outcomes| == |run| == |calls|
    ensures Stands(calls, outcomes, run, cp.instances.clusterName) && Marked(outcomes, run)
    ensures Chained(old(Here(cp)), run, Here(cp))
    ensures FromApi(old(Here(cp)).cache) ==> FromApi(Here(cp).cache)
  {
    outcomes, run := [], [];
    while |outcomes| < |calls|
      invariant cp.types.Valid()
      invariant |outcomes| == |run| <= |calls|
      invariant IdsFree(calls, |run|, cp.instances.hcloud.servers)
      invariant Stands(calls, outcomes, run, cp.instances.clusterName) && Marked(outcomes, run)
      invariant Chained(old(Here(cp)), run, Here(cp))
    {
      ghost var m;
      outcomes, m := OneMore(cp, calls, outcomes, run);
      run := run + [m];
    }
    SessionFromApi(calls, old(Here(cp)), run, Here(cp));
  }

  // ----- Capacity fallback over a session -----

  ghost function Attempts(run: seq<Met>): seq<Attempt>
  {
    if run == [] then []
    else
      var m := run[|run| - 1];
      Attempts(run[..|run| - 1]) + if m.attempt.Some? then [m.attempt.value] else []
  }

  function CapacityErrors(outcomes: seq<Outcome>): nat
  {
    if outcomes == [] then 0
    else
      CapacityErrors(outcomes[..|outcomes| - 1])
        + if outcomes[|outcomes| - 1] == Provisioned(CAPACITY) then 1 else 0
  }

  ghost predicate CataloguesIn(run: seq<Met>, pool: set<(string, string)>)
  {
    forall k :: 0 <= k < |run| && run[k].attempt.Some? ==> CatalogueIn(run[k].attempt.value.catalogue, pool)
  }

  lemma OneMoreAttempt(
      before: seq<Mark>, attempts: seq<Attempt>, m: Met, start: nat, ttl: nat, pool: set<(string, string)>)
    requires InWindow(attempts, start, ttl) && Pooled(attempts, pool)
    requires Timed(m) && m.attempt.Some? && start <= m.from.now && m.to.now < start + ttl
    requires CatalogueIn(m.attempt.value.catalogue, pool)
    ensures var longer, a := attempts + [m.attempt.value], m.attempt.value;
      && InWindow(longer, start, ttl) && Pooled(longer, pool)
      && MarksOf(before, longer, UNAVAILABLE_TTL) ==
           MarksAfter(MarksOf(before, attempts, UNAVAILABLE_TTL), a, UNAVAILABLE_TTL)
  {
    var longer := attempts + [m.attempt.value];
    assert longer[..|longer| - 1] == attempts;
    forall k | 0 <= k < |longer|
      ensures longer[k] == if k < |attempts| then attempts[k] else m.attempt.value
    {
    }
  }

  lemma ChainFront(outcomes: seq<Outcome>, start: Point, run: seq<Met>, end: Point)
    requires run != [] && |outcomes| == |run| && Marked(outcomes, run) && Chained(start, run, end)
    ensures var n := |run| - 1;
      Marked(outcomes[..n], run[..n]) && Chained(start, run[..n], run[n].from)
      && MarkedBy(outcomes[n], run[n]) && run[n].to == end
  {
  }

  lemma {:induction false} ClockAdvances(outcomes: seq<Outcome>, start: Point, run: seq<Met>, end: Point)
    requires |outcomes| == |run| && Marked(outcomes, run) && Chained(start, run, end)
    ensures start.now <= end.now
  {
    if run != [] {
      var n := |run| - 1;
      ChainFront(outcomes, start, run, end);
      ClockAdvances(outcomes[..n], start, run[..n], run[n].from);
    }
  }

  // The attempts of a stretch of a session are the calls Selection speaks of.
  lemma {:induction false} StretchIsAttempts(
      outcomes: seq<Outcome>, start: Point, run: seq<Met>, end: Point, ttl: nat, pool: set<(string, string)>)
    requires |outcomes| == |run| && Marked(outcomes, run) && Chained(start, run, end)
    requires end.now < start.now + ttl && CataloguesIn(run, pool)
    ensures InWindow(Attempts(run), start.now, ttl) && Pooled(Attempts(run), pool)
    ensures end.marks == MarksOf(start.marks, Attempts(run), UNAVAILABLE_TTL)
  {
    if run != [] {
      var n := |run| - 1;
      var init, m := run[..n], run[n];
      ChainFront(outcomes, start, run, end);
      ClockAdvances(outcomes[..n], start, init, m.from);
      StretchIsAttempts(outcomes[..n], start, init, m.from, ttl, pool);
      if m.attempt.Some? {
        OneMoreAttempt(start.marks, Attempts(init), m, start.now, ttl, pool);
      } else {
        assert Attempts(run) == Attempts(init);
      }
    }
  }

  // As many marks as capacity errors.
  lemma {:induction false} MarksAreErrors(outcomes: seq<Outcome>, start: Point, run: seq<Met>, end: Point)
    requires |outcomes| == |run| && Marked(outcomes, run) && Chained(start, run, end)
    ensures |end.marks| == |start.marks| + CapacityErrors(outcomes)
  {
    if run != [] {
      var n := |run| - 1;
      ChainFront(outcomes, start, run, end);
      MarksAreErrors(outcomes[..n], start, run[..n], run[n].from);
    }
  }

  // In any session, any stretch of calls that fits in one TTL sees at most as many
  // capacity errors as the catalogues have pairs, no pair failing twice.
  lemma SessionFallsBack(
      outcomes: seq<Outcome>, start: Point, run: seq<Met>, end: Point, lo: nat, hi: nat, pool: set<(string, string)>)
    requires |outcomes| == |run| && Marked(outcomes, run) && Chained(start, run, end)
    requires lo < hi <= |run| && run[hi - 1].to.now < run[lo].from.now + UNAVAILABLE_TTL
    requires CataloguesIn(run[lo..hi], pool)
    ensures var made := run[hi - 1].to.marks;
      && run[lo].from.marks <= made
      && DistinctPairs(made[|run[lo].from.marks|..], pool)
    ensures CapacityErrors(outcomes[lo..hi]) <= |pool|
  {
    var from, to, stretch := run[lo].from, run[hi - 1].to, run[lo..hi];
    StretchIsAttempts(outcomes[lo..hi], from, stretch, to, UNAVAILABLE_TTL, pool);
    MarksAreErrors(outcomes[lo..hi], from, stretch, to);
    FailuresHitNewPairs(from.marks, Attempts(stretch), from.now, UNAVAILABLE_TTL, pool);
    DistinctFew(to.marks[|from.marks|..], pool);
  }

  // ----- Create, then IsDrifted -----

  // What the check says of a created claim: the server behind it is there, and it
  // drifts as the conflicts say.
  ghost predicate CheckedAs(
      check: DriftCheck, servers: map<int, I.Server>, claim: NodeClaim, spec: Spec, cluster: string,
      answer: I.ApiAnswer)
  {
    && answer.Accepted? && answer.id in servers
    && var server := servers[answer.id];
       && server.serverType.Some? && server.imageID.Some? && check.Checked?
       && (check.reason == None <==>
             NoConflict(claim, spec, cluster, server.serverType.value, server.imageID.value, answer.namesImage))
  }

  lemma LaunchDrift(
      sts: seq<C.ServerType>, items: map<string, nat>, at: seq<seq<nat>>, reqs: Requirements,
      current: seq<ResolvedImage>, world: World, claim: NodeClaim, spec: Spec, cluster: string,
      servers: map<int, I.Server>)
    requires C.ShapedLike(at, C.FilterByLocations(C.ToTypesV(sts), spec.locations))
    requires world.answer.Accepted? ==> IsInt64(world.answer.id)
    requires var listing := C.Overlay(C.FilterByLocations(C.ToTypesV(sts), spec.locations), items, at);
      var eff := EffectOf(Decide(listing, reqs, current, world.lookups), claim, spec, cluster, world);
      eff.result.Created? && (eff.server.Some? ==>
        eff.server.value.id in servers && servers[eff.server.value.id] == eff.server.value)
    ensures var listing := C.Overlay(C.FilterByLocations(C.ToTypesV(sts), spec.locations), items, at);
      var created := EffectOf(Decide(listing, reqs, current, world.lookups), claim, spec, cluster, world).result.claim;
      var check := DriftCheckOf(created, spec, I.GetOf(servers, created.providerID, true));
      && CheckedAs(check, servers, claim, spec, cluster, world.answer)
      && (NothingCanConflict(claim, spec, cluster, reqs) ==> check == Checked(None))
  {
    var d := Decide(C.Overlay(C.FilterByLocations(C.ToTypesV(sts), spec.locations), items, at), reqs, current,
      world.lookups);
    LaunchedClaimNotDriftedIff(sts, items, at, reqs, current, world.lookups, claim, spec, cluster,
      world.answer.id, world.answer.namesImage);
    RoundTrip(world.answer.id);
    var eff := EffectOf(d, claim, spec, cluster, world);
    assert DriftOf(eff.result.claim, spec, eff.server) ==
      FirstDrift(claim, spec, cluster, d.choice, d.imageID, world.answer.id, world.answer.namesImage);
    assert Decides(spec, reqs, sts, items, at, current, world.lookups, d.choice, d.imageID);
    if NothingCanConflict(claim, spec, cluster, reqs) {
      UndriftedIfNothingCan(claim, spec, cluster, reqs, d.choice, d.imageID, world.answer.id,
        world.answer.namesImage);
    }
  }

  // The same for a listing that a call was answered with.
  lemma AnsweredLaunchDrift(
      from: Point, to: Point, items: map<string, nat>, read: T.Readings, listing: seq<C.TypeV>, reqs: Requirements,
      current: seq<ResolvedImage>, world: World, claim: NodeClaim, spec: Spec, cluster: string,
      servers: map<int, I.Server>)
    requires FromApi(from.cache)
    requires Answers(from.cache, to.cache, from.now, to.now, spec.locations, items, world, read, Some(listing))
    requires world.answer.Accepted? ==> IsInt64(world.answer.id)
    requires var eff := EffectOf(Decide(listing, reqs, current, world.lookups), claim, spec, cluster, world);
      eff.result.Created? && (eff.server.Some? ==>
        eff.server.value.id in servers && servers[eff.server.value.id] == eff.server.value)
    ensures
      var created := EffectOf(Decide(listing, reqs, current, world.lookups), claim, spec, cluster, world).result.claim;
      var check := DriftCheckOf(created, spec, I.GetOf(servers, created.providerID, true));
      && CheckedAs(check, servers, claim, spec, cluster, world.answer)
      && (NothingCanConflict(claim, spec, cluster, reqs) ==> check == Checked(None))
  {
    AnswersFromApi(from.cache, to.cache, from.now, to.now, spec.locations, items, world, read, Some(listing));
    ListingCatalogue(from.cache, to.cache, from.now, to.now, spec.locations, items, world, read, listing);
    var sts :| to.cache.value.types == C.ToTypesV(sts);
    LaunchDrift(sts, items, read.at, reqs, current, world, claim, spec, cluster, servers);
  }

  // A claim created and checked at once against the same node class: the check
  // finds the server by the ID on the claim, and reports drift exactly when
  // something on the claim or the node class conflicts.
  method CreateThenCheck(
      cp: CloudProvider, claim: NodeClaim, nc: HCloudNodeClass, reqs: Requirements, world: World)
    returns (result: CreateResult, check: DriftCheck)
    requires cp.types.Valid() && FromApi(cp.types.CacheView())
    requires world.answer.Accepted? ==>
      world.answer.id !in cp.instances.hcloud.servers && IsInt64(world.answer.id)
    modifies cp.types`cachedTypes, cp.types`cachedAt, cp.types`cacheExpiry, cp.types.clock, cp.types.unavailable
    modifies cp.instances.hcloud
    ensures cp.types.Valid() && FromApi(cp.types.CacheView())
    ensures result.Created? ==>
      CheckedAs(check, cp.instances.hcloud.servers, claim, nc.spec, cp.instances.clusterName, world.answer)
    ensures result.Created? && NothingCanConflict(claim, nc.spec, cp.instances.clusterName, reqs) ==>
      check == Checked(None)
  {
    check := CheckFailed;
    ghost var listing, read;
    ghost var from := Here(cp);
    result, listing, read := cp.Create(claim, nc, reqs, world);
    ghost var to := Here(cp);
    ghost var items := old(cp.types.unavailable.items);
    AnswersFromApi(from.cache, to.cache, from.now, to.now, nc.spec.locations, items, world, read, listing);
    if result.Created? {
      ghost var current := CurrentImages(nc.generation, nc.StatusView());
      AnsweredLaunchDrift(from, to, items, read, listing.value, reqs, current, world, claim, nc.spec,
        cp.instances.clusterName, cp.instances.hcloud.servers);
      check := IsDrifted(result.claim, nc, cp.instances, true);
    }
  }
}
