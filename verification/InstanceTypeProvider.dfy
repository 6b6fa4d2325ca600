// The instance type provider as heap code: instance types and offerings are
// objects, the cache holds references to them, and only applyAvailability copies.
module InstanceTypeProvider {
  import opened Basics
  import opened Unavailable
  import C = Catalogue
  import opened CachePolicy

  class Offering {
    const zone: string
    const price: real
    var available: bool

    constructor (zone: string, price: real, available: bool)
      ensures this.zone == zone && this.price == price && this.available == available
    {
      this.zone := zone;
      this.price := price;
      this.available := available;
    }
  }

  class InstanceType {
    const name: string
    const requirements: Labels
    const offerings: seq<Offering>

    constructor (name: string, requirements: Labels, offerings: seq<Offering>)
      ensures this.name == name && this.requirements == requirements && this.offerings == offerings
    {
      this.name := name;
      this.requirements := requirements;
      this.offerings := offerings;
    }
  }

  // ----- Abstract values -----

  ghost function OfferingView(o: Offering): C.OfferingV
    reads o
  {
    C.OfferingV(o.zone, o.price, o.available)
  }

  ghost function OfferingViews(os: seq<Offering>): seq<C.OfferingV>
    reads os
  {
    seq(|os|, i requires 0 <= i < |os| reads os => OfferingView(os[i]))
  }

  ghost function TypeView(it: InstanceType): C.TypeV
    reads it.offerings
  {
    C.TypeV(it.name, it.requirements, OfferingViews(it.offerings))
  }

  ghost function OfferingsIn(its: seq<InstanceType>): set<Offering>
  {
    set it, o | it in its && o in it.offerings :: o
  }

  ghost function TypeViews(its: seq<InstanceType>): seq<C.TypeV>
    reads OfferingsIn(its)
  {
    seq(|its|, i requires 0 <= i < |its| reads OfferingsIn(its) =>
      assert forall o :: o in its[i].offerings ==> o in OfferingsIn(its); TypeView(its[i]))
  }

  // No offering object occurs twice in the listing.
  ghost predicate Unshared(its: seq<InstanceType>)
  {
    && (forall i, j, k :: 0 <= i < |its| && 0 <= j < k < |its[i].offerings| ==>
          its[i].offerings[j] != its[i].offerings[k])
    && (forall i, i', j, j' :: 0 <= i < i' < |its| && 0 <= j < |its[i].offerings| && 0 <= j' < |its[i'].offerings| ==>
          its[i].offerings[j] != its[i'].offerings[j'])
  }

  lemma ViewsAppend(its: seq<InstanceType>, it: InstanceType)
    ensures TypeViews(its + [it]) == TypeViews(its) + [TypeView(it)]
  {
  }

  lemma UnsharedAppend(its: seq<InstanceType>, it: InstanceType)
    requires Unshared(its)
    requires forall j, k :: 0 <= j < k < |it.offerings| ==> it.offerings[j] != it.offerings[k]
    requires forall i, j :: 0 <= i < |its| && 0 <= j < |its[i].offerings| ==> its[i].offerings[j] !in it.offerings
    ensures Unshared(its + [it])
  {
  }

  twostate predicate AllFresh(new its: seq<InstanceType>)
  {
    && (forall it :: it in its ==> fresh(it))
    && (forall it, o :: it in its && o in it.offerings ==> fresh(o))
  }

  // ----- The catalogue pipeline -----

  method ToInstanceType(st: C.ServerType) returns (it: InstanceType)
    ensures fresh(it) && fresh(set o | o in it.offerings)
    ensures TypeView(it) == C.ToTypeV(st)
  {
    var offerings: seq<Offering> := [];
    for i := 0 to |st.pricings|
      invariant fresh(set o | o in offerings)
      invariant OfferingViews(offerings) == C.OfferingsOf(st.pricings[..i])
    {
      assert st.pricings[..i + 1][..i] == st.pricings[..i];
      var p := st.pricings[i];
      if p.location.Some? {
        var (price, priced) := C.HourlyNetPrice(p.hourly, p.monthly);
        var o := new Offering(p.location.value, price, priced);
        offerings := offerings + [o];
      }
    }
    assert st.pricings[..|st.pricings|] == st.pricings;
    it := new InstanceType(st.name, C.TypeLabels(st), offerings);
  }

  method ToInstanceTypes(sts: seq<C.ServerType>) returns (types: seq<InstanceType>)
    ensures AllFresh(types)
    ensures TypeViews(types) == C.ToTypesV(sts)
  {
    types := [];
    for i := 0 to |sts|
      invariant |types| == i && AllFresh(types)
      invariant forall k :: 0 <= k < i ==> TypeView(types[k]) == C.ToTypeV(sts[k])
    {
      label before:
      var it := ToInstanceType(sts[i]);
      assert forall k :: 0 <= k < i ==> TypeView(types[k]) == old@before(TypeView(types[k]));
      types := types + [it];
    }
  }

  // Offerings are shared with the input; with no locations, the types are too.
  method FilterByLocations(types: seq<InstanceType>, locations: seq<string>) returns (result: seq<InstanceType>)
    ensures TypeViews(result) == C.FilterByLocations(TypeViews(types), locations)
    ensures OfferingsIn(result) <= OfferingsIn(types)
    ensures locations == [] ==> result == types
  {
    if |locations| == 0 {
      return types;
    }
    result := [];
    ghost var views := TypeViews(types);
    ghost var out: seq<C.TypeV> := [];
    for i := 0 to |types|
      invariant TypeViews(types) == views
      invariant TypeViews(result) == out == C.KeepTypes(views[..i], locations)
      invariant OfferingsIn(result) <= OfferingsIn(types)
    {
      var it := types[i];
      assert views[..i + 1][..i] == views[..i] && views[i] == TypeView(it);
      var filtered := KeepZones(it.offerings, locations);
      if |filtered| > 0 {
        var kept := new InstanceType(it.name, it.requirements, filtered);
        ViewsAppend(result, kept);
        result, out := result + [kept], out + [TypeView(kept)];
      }
    }
    assert views[..|types|] == views;
  }

  // The inner loop of FilterByLocations.
  method KeepZones(os: seq<Offering>, locations: seq<string>) returns (kept: seq<Offering>)
    ensures OfferingViews(kept) == C.KeepZones(OfferingViews(os), locations)
    ensures forall o :: o in kept ==> o in os
  {
    var locSet := set l | l in locations;
    kept := [];
    for j := 0 to |os|
      invariant OfferingViews(kept) == C.KeepZones(OfferingViews(os)[..j], locations)
      invariant forall o :: o in kept ==> o in os
    {
      assert OfferingViews(os)[..j + 1][..j] == OfferingViews(os)[..j];
      if os[j].zone in locSet {
        kept := kept + [os[j]];
      }
    }
    assert OfferingViews(os)[..|os|] == OfferingViews(os);
  }

  // ----- The provider -----

  datatype ListResult = Listed(types: seq<InstanceType>) | ListFailed

  // The clock readings of one List call.
  datatype Readings = Readings(entry: nat, waited: Option<Cached>, recheck: nat, store: nat, at: seq<seq<nat>>)

  // What the cache reads once a waiter gets the refresh lock.
  function WaitedCache(cache: Option<Cached>, meanwhile: Option<seq<C.ServerType>>, t: nat): Option<Cached>
  {
    if meanwhile.Some? then Some(Stored(C.ToTypesV(meanwhile.value), t)) else cache
  }

  class Provider {
    const clock: Clock
    const unavailable: UnavailableCache
    var cachedTypes: Option<seq<InstanceType>>
    var cachedAt: nat
    var cacheExpiry: nat

    ghost predicate Valid()
      reads this, clock, unavailable
    {
      && unavailable.clock == clock && unavailable.ttl == UNAVAILABLE_TTL
      && unavailable.Valid()
      && (cachedTypes.Some? ==> cachedAt <= clock.now && cacheExpiry == cachedAt + CACHE_TTL)
    }

    ghost function CachedOfferings(): set<Offering>
      reads this
    {
      if cachedTypes.Some? then OfferingsIn(cachedTypes.value) else {}
    }

    ghost function CacheView(): Option<Cached>
      reads this, CachedOfferings()
    {
      if cachedTypes.Some? then Some(Cached(TypeViews(cachedTypes.value), cachedAt, cacheExpiry)) else None
    }

    constructor (clock: Clock)
      ensures Valid() && CacheView() == None && fresh(unavailable)
      ensures this.clock == clock && unavailable.ttl == 300_000_000_000 && unavailable.history == []
    {
      this.clock := clock;
      unavailable := new UnavailableCache(UNAVAILABLE_TTL, clock);
      cachedTypes, cachedAt, cacheExpiry := None, 0, 0;
    }

    method FreshCache() returns (types: Option<seq<InstanceType>>)
      requires Valid()
      modifies clock
      ensures Valid() && old(clock.now) <= clock.now
      ensures CacheView() == old(CacheView())
      ensures types == if Fresh(CacheView(), clock.now) then cachedTypes else None
    {
      if cachedTypes.Some? {
        var now := clock.Read();
        assert TypeViews(cachedTypes.value) == old(TypeViews(cachedTypes.value));
        if now < cacheExpiry {
          return cachedTypes;
        }
      }
      return None;
    }

    method StaleCache() returns (types: Option<seq<InstanceType>>, age: nat)
      requires Valid()
      modifies clock
      ensures Valid() && old(clock.now) <= clock.now
      ensures CacheView() == old(CacheView())
      ensures types == cachedTypes
      ensures types.Some? ==> age == clock.now - cachedAt
    {
      if cachedTypes.None? {
        return None, 0;
      }
      var now := clock.Read();
      assert TypeViews(cachedTypes.value) == old(TypeViews(cachedTypes.value));
      return cachedTypes, now - cachedAt;
    }

    method Store(types: seq<InstanceType>)
      requires Valid()
      modifies this`cachedTypes, this`cachedAt, this`cacheExpiry, clock
      ensures Valid() && old(clock.now) <= clock.now
      ensures cachedTypes == Some(types)
      ensures CacheView() == Some(Stored(old(TypeViews(types)), clock.now))
    {
      var now := clock.Read();
      cachedTypes := Some(types);
      cachedAt := now;
      cacheExpiry := now + CACHE_TTL;
      assert TypeViews(types) == old(TypeViews(types));
    }

    method MarkUnavailable(serverType: string, location: string)
      requires Valid()
      modifies unavailable, clock
      ensures Valid() && old(clock.now) <= clock.now
      ensures unavailable.history == old(unavailable.history) + [Mark(serverType, location, clock.now)]
      ensures unavailable.items ==
        old(unavailable.items)[UnavailKey(serverType, location) := clock.now + unavailable.ttl]
    {
      unavailable.MarkUnavailable(serverType, location);
    }

    // The inner loop of ApplyAvailability: copies of one type's offerings.
    method CopyOfferings(it: InstanceType) returns (offerings: seq<Offering>, ghost at: seq<nat>)
      requires Valid()
      modifies clock
      ensures Valid() && old(clock.now) <= clock.now
      ensures |at| == |it.offerings| && forall j :: 0 <= j < |at| ==> old(clock.now) <= at[j] <= clock.now
      ensures fresh(set o | o in offerings)
      ensures forall j, k :: 0 <= j < k < |offerings| ==> offerings[j] != offerings[k]
      ensures OfferingViews(offerings) == C.OverlayType(TypeView(it), unavailable.items, at).offerings
    {
      offerings, at := [], [];
      for j := 0 to |it.offerings|
        invariant Valid() && old(clock.now) <= clock.now
        invariant |at| == |offerings| == j
        invariant forall k :: 0 <= k < j ==> old(clock.now) <= at[k] <= clock.now
        invariant fresh(set o | o in offerings)
        invariant forall k, l :: 0 <= k < l < j ==> offerings[k] != offerings[l]
        invariant forall k :: 0 <= k < j ==>
          OfferingView(offerings[k]) ==
            C.OverlayOffering(it.name, OfferingView(it.offerings[k]), unavailable.items, at[k])
      {
        var o := it.offerings[j];
        var blocked := unavailable.IsUnavailable(it.name, o.zone);
        var cp := new Offering(o.zone, o.price, o.available && !blocked);
        offerings, at := offerings + [cp], at + [clock.now];
      }
    }

    // The body of the outer loop: a fresh type holding the copies.
    method CopyType(it: InstanceType) returns (cp: InstanceType, ghost at: seq<nat>)
      requires Valid()
      modifies clock
      ensures Valid() && old(clock.now) <= clock.now
      ensures |at| == |it.offerings| && forall j :: 0 <= j < |at| ==> old(clock.now) <= at[j] <= clock.now
      ensures fresh(cp) && fresh(set o | o in cp.offerings)
      ensures forall j, k :: 0 <= j < k < |cp.offerings| ==> cp.offerings[j] != cp.offerings[k]
      ensures TypeView(cp) == C.OverlayType(old(TypeView(it)), unavailable.items, at)
    {
      ghost var view := TypeView(it);
      var offerings;
      offerings, at := CopyOfferings(it);
      assert TypeView(it) == view;
      cp := new InstanceType(it.name, it.requirements, offerings);
    }

    // Fresh copies at the type and offering level, availability computed live.
    method ApplyAvailability(types: seq<InstanceType>) returns (out: seq<InstanceType>, ghost at: seq<seq<nat>>)
      requires Valid()
      modifies clock
      ensures Valid() && old(clock.now) <= clock.now
      ensures C.ShapedLike(at, TypeViews(types)) && C.Within(at, old(clock.now), clock.now)
      ensures TypeViews(out) == C.Overlay(TypeViews(types), unavailable.items, at)
      ensures AllFresh(out) && Unshared(out)
    {
      out, at := [], [];
      ghost var views := TypeViews(types);
      ghost var outViews: seq<C.TypeV> := [];
      for i := 0 to |types|
        invariant Valid() && old(clock.now) <= clock.now
        invariant |at| == |out| == |outViews| == i
        invariant forall k :: 0 <= k < i ==> |at[k]| == |views[k].offerings|
        invariant C.Within(at, old(clock.now), clock.now)
        invariant AllFresh(out) && Unshared(out)
        invariant forall k :: 0 <= k < i ==> outViews[k] == C.OverlayType(views[k], unavailable.items, at[k])
        invariant TypeViews(out) == outViews
      {
        label before:
        assert TypeView(types[i]) == views[i];
        var it, times := CopyType(types[i]);
        assert TypeViews(out) == old@before(TypeViews(out));
        UnsharedAppend(out, it);
        ViewsAppend(out, it);
        out, at, outViews := out + [it], at + [times], outViews + [TypeView(it)];
      }
      assert TypeViews(types) == views;
    }

    // refreshMu.Lock(): while this caller waits, another may refresh the cache.
    method LockRefresh(meanwhile: Option<seq<C.ServerType>>)
      requires Valid()
      modifies this`cachedTypes, this`cachedAt, this`cacheExpiry, clock
      ensures Valid() && old(clock.now) <= clock.now
      ensures CacheView() == WaitedCache(old(CacheView()), meanwhile, clock.now)
    {
      if meanwhile.Some? {
        var types := ToInstanceTypes(meanwhile.value);
        Store(types);
      }
    }

    // An unexpired catalogue is served as it is, found on entry or once the refresh
    // lock is held; otherwise a successful fetch replaces the catalogue for six hours
    // and is served, and a failed one leaves it, expired as it is. What is served is
    // what the cache is left holding, filtered and overlaid with live availability,
    // and it is an error only when that is nothing. Of the objects that existed before,
    // only the provider's cache fields and the clock change, and no offering of
    // the listing is reachable from the cache.
    method List(locations: seq<string>, meanwhile: Option<seq<C.ServerType>>, fetch: Fetch)
      returns (r: ListResult, ghost read: Readings)
      requires Valid()
      modifies this`cachedTypes, this`cachedAt, this`cacheExpiry, clock
      ensures Valid()
      ensures old(clock.now) <= read.entry <= read.recheck <= read.store <= clock.now
      ensures exists t :: read.entry <= t <= read.recheck && read.waited == WaitedCache(old(CacheView()), meanwhile, t)
      ensures var (served, after) := Serve(old(CacheView()), read.entry, read.waited, read.recheck, fetch, read.store);
        && CacheView() == after
        && (r.ListFailed? <==> served.NothingServed?)
        && (r.Listed? ==>
              var filtered := C.FilterByLocations(served.types, locations);
              && C.ShapedLike(read.at, filtered) && C.Within(read.at, read.entry, clock.now)
              && TypeViews(r.types) == C.Overlay(filtered, unavailable.items, read.at))
      ensures var before := old(CacheView());
        var onEntry := before.Some? && read.entry < before.value.expiry;
        var underLock := !onEntry && read.waited.Some? && read.recheck < read.waited.value.expiry;
        && (onEntry ==> CacheView() == before)
        && (underLock ==> CacheView() == read.waited)
        && (!onEntry && !underLock && fetch.Fetched? ==>
              CacheView() == Some(Cached(C.ToTypesV(fetch.serverTypes), read.store, read.store + 21_600_000_000_000)))
        && (!onEntry && !underLock && fetch.FetchFailed? ==> CacheView() == read.waited)
        && (r.ListFailed? <==> CacheView().None?)
        && (r.Listed? ==>
              var filtered := C.FilterByLocations(CacheView().value.types, locations);
              C.ShapedLike(read.at, filtered)
              && TypeViews(r.types) == C.Overlay(filtered, unavailable.items, read.at))
      ensures r.Listed? ==> AllFresh(r.types) && Unshared(r.types)
      ensures r.Listed? ==> OfferingsIn(r.types) !! CachedOfferings()
    {
      r, read := CheckedTwice(locations, meanwhile, fetch);
      ServeCases(old(CacheView()), read.entry, read.waited, read.recheck, fetch, read.store);
    }

    // The body of List: look, take the refresh lock, look again, and only then fetch.
    method CheckedTwice(locations: seq<string>, meanwhile: Option<seq<C.ServerType>>, fetch: Fetch)
      returns (r: ListResult, ghost read: Readings)
      requires Valid()
      modifies this`cachedTypes, this`cachedAt, this`cacheExpiry, clock
      ensures Valid()
      ensures old(clock.now) <= read.entry <= read.recheck <= read.store <= clock.now
      ensures exists t :: read.entry <= t <= read.recheck && read.waited == WaitedCache(old(CacheView()), meanwhile, t)
      ensures var (served, after) := Serve(old(CacheView()), read.entry, read.waited, read.recheck, fetch, read.store);
        && CacheView() == after
        && (r.ListFailed? <==> served.NothingServed?)
        && (r.Listed? ==>
              var filtered := C.FilterByLocations(served.types, locations);
              && C.ShapedLike(read.at, filtered) && C.Within(read.at, read.entry, clock.now)
              && TypeViews(r.types) == C.Overlay(filtered, unavailable.items, read.at))
      ensures r.Listed? ==> AllFresh(r.types) && Unshared(r.types)
      ensures r.Listed? ==> OfferingsIn(r.types) !! CachedOfferings()
    {
      var hit := FreshCache();
      read := Readings(clock.now, WaitedCache(CacheView(), meanwhile, clock.now), clock.now, clock.now, []);
      if hit.Some? {
        var out, at := Filtered(hit.value, locations);
        return Listed(out), read.(at := at);
      }
      LockRefresh(meanwhile);
      read := read.(waited := CacheView());
      hit := FreshCache();
      read := read.(recheck := clock.now, store := clock.now);
      if hit.Some? {
        var out, at := Filtered(hit.value, locations);
        return Listed(out), read.(at := at);
      }
      ghost var storeAt, at;
      r, storeAt, at := Refresh(locations, fetch);
      read := read.(store := storeAt, at := at);
    }

    // List from the API call on, holding refreshMu.
    method Refresh(locations: seq<string>, fetch: Fetch)
      returns (r: ListResult, ghost storeAt: nat, ghost at: seq<seq<nat>>)
      requires Valid()
      modifies this`cachedTypes, this`cachedAt, this`cacheExpiry, clock
      ensures Valid() && old(clock.now) <= storeAt <= clock.now
      ensures fetch.Fetched? ==> CacheView() == Some(Stored(C.ToTypesV(fetch.serverTypes), storeAt))
      ensures fetch.FetchFailed? ==> CacheView() == old(CacheView())
      ensures r.ListFailed? <==> fetch.FetchFailed? && old(CacheView()).None?
      ensures r.Listed? ==>
        var filtered := C.FilterByLocations(CacheView().value.types, locations);
        && C.ShapedLike(at, filtered) && C.Within(at, old(clock.now), clock.now)
        && TypeViews(r.types) == C.Overlay(filtered, unavailable.items, at)
      ensures r.Listed? ==> AllFresh(r.types) && Unshared(r.types)
      ensures r.Listed? ==> OfferingsIn(r.types) !! CachedOfferings()
    {
      storeAt, at := clock.now, [];
      var out;
      if fetch.FetchFailed? {
        var stale, age := StaleCache();
        if stale.None? {
          return ListFailed, storeAt, at;
        }
        out, at := Filtered(stale.value, locations);
        return Listed(out), storeAt, at;
      }
      var types := ToInstanceTypes(fetch.serverTypes);
      Store(types);
      storeAt := clock.now;
      out, at := Filtered(types, locations);
      return Listed(out), storeAt, at;
    }

    // p.applyAvailability(filterByLocations(types, locations)), the return
    // expression shared by every successful path of List.
    method Filtered(types: seq<InstanceType>, locations: seq<string>)
      returns (out: seq<InstanceType>, ghost at: seq<seq<nat>>)
      requires Valid()
      modifies clock
      ensures Valid() && old(clock.now) <= clock.now
      ensures CacheView() == old(CacheView())
      ensures var filtered := C.FilterByLocations(TypeViews(types), locations);
        && C.ShapedLike(at, filtered) && C.Within(at, old(clock.now), clock.now)
        && TypeViews(out) == C.Overlay(filtered, unavailable.items, at)
      ensures AllFresh(out) && Unshared(out)
      ensures OfferingsIn(out) !! CachedOfferings()
    {
      var filtered := FilterByLocations(types, locations);
      out, at := ApplyAvailability(filtered);
      assert cachedTypes.Some? ==> TypeViews(cachedTypes.value) == old(TypeViews(cachedTypes.value));
    }
  }

  // What leaves the provider and its catalogue's offerings alone leaves the cache alone.
  twostate lemma CacheUntouched(p: Provider)
    requires unchanged(p) && forall o :: o in old(p.CachedOfferings()) ==> unchanged(o)
    ensures p.CacheView() == old(p.CacheView())
  {
    if p.cachedTypes.Some? {
      var its := p.cachedTypes.value;
      forall i | 0 <= i < |its|
        ensures TypeView(its[i]) == old(TypeView(its[i]))
      {
        forall j | 0 <= j < |its[i].offerings|
          ensures OfferingView(its[i].offerings[j]) == old(OfferingView(its[i].offerings[j]))
        {
          assert its[i] in its && its[i].offerings[j] in its[i].offerings;
          assert its[i].offerings[j] in old(p.CachedOfferings());
        }
      }
    }
  }
}
