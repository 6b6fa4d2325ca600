// What one catalogue request does to the cache and which catalogue it serves,
// on values. Both the heap code and the concurrent protocol are proved against it.
module CachePolicy {
  import opened Basics
  import opened Catalogue

  // Times are nanoseconds.
  const CACHE_TTL: nat := 21_600_000_000_000  // 6h
  const UNAVAILABLE_TTL: nat := 300_000_000_000  // 5m

  // A stored catalogue. An empty one is still a catalogue: only None means that
  // nothing was ever fetched.
  datatype Cached = Cached(types: seq<TypeV>, at: nat, expiry: nat)

  datatype Fetch = FetchFailed | Fetched(serverTypes: seq<ServerType>)

  datatype Source = Hit | Refreshed | Stale

  datatype Served = Served(types: seq<TypeV>, source: Source) | NothingServed

  predicate Fresh(cache: Option<Cached>, now: nat)
  {
    cache.Some? && now < cache.value.expiry
  }

  function Stored(types: seq<TypeV>, now: nat): Cached
  {
    Cached(types, now, now + CACHE_TTL)
  }

  // One request: look; wait for the refresh lock, by when the cache reads
  // waited; look again; fetch; then store, fall back to the expired copy, or fail.
  function Serve(
      cache: Option<Cached>, entryAt: nat, waited: Option<Cached>, recheckAt: nat, fetch: Fetch, storeAt: nat)
    : (Served, Option<Cached>)
  {
    if Fresh(cache, entryAt) then
      (Served(cache.value.types, Hit), cache)
    else if Fresh(waited, recheckAt) then
      (Served(waited.value.types, Hit), waited)
    else match fetch
      case Fetched(sts) =>
        var types := ToTypesV(sts);
        (Served(types, Refreshed), Some(Stored(types, storeAt)))
      case FetchFailed =>
        (if waited.Some? then Served(waited.value.types, Stale) else NothingServed, waited)
  }

  ghost predicate Sane(cache: Option<Cached>, now: nat)
  {
    cache.Some? ==> cache.value.expiry == cache.value.at + CACHE_TTL && cache.value.at <= now
  }

  // What is served is always the catalogue the cache is left holding; nothing is
  // served only when nothing was ever fetched and the fetch fails; a hit is
  // younger than the TTL; the cache changes only by a fetch that succeeded when
  // the catalogue had expired.
  lemma ServeMeaning(
      cache: Option<Cached>, entryAt: nat, waited: Option<Cached>, recheckAt: nat, fetch: Fetch, storeAt: nat)
    requires entryAt <= recheckAt <= storeAt
    requires Sane(cache, entryAt) && Sane(waited, recheckAt)
    requires cache.Some? ==> waited.Some?
    ensures var (served, after) := Serve(cache, entryAt, waited, recheckAt, fetch, storeAt);
      && (served.Served? ==> after.Some? && after.value.types == served.types)
      && (served.NothingServed? <==> cache.None? && waited.None? && fetch.FetchFailed?)
      && (served.Served? && served.source == Hit ==>
            after.value.at <= recheckAt && entryAt < after.value.at + CACHE_TTL)
      && (after != cache && after != waited ==>
            fetch.Fetched? && after.value.types == ToTypesV(fetch.serverTypes) && after.value.at == storeAt
            && (waited.Some? ==> waited.value.at + CACHE_TTL <= recheckAt))
  {
  }

  // What is served is always the catalogue the cache is left holding, and nothing
  // only when it is left empty. An unexpired catalogue is a hit, on entry or under the
  // lock; otherwise a successful fetch is what is stored and served, and a failed one
  // changes nothing.
  lemma ServeCases(
      cache: Option<Cached>, entryAt: nat, waited: Option<Cached>, recheckAt: nat, fetch: Fetch, storeAt: nat)
    requires cache.Some? ==> waited.Some?
    ensures var (served, after) := Serve(cache, entryAt, waited, recheckAt, fetch, storeAt);
      var onEntry := cache.Some? && entryAt < cache.value.expiry;
      var underLock := !onEntry && waited.Some? && recheckAt < waited.value.expiry;
      && (served.Served? <==> after.Some?)
      && (served.Served? ==> after.value.types == served.types)
      && (served.NothingServed? <==> cache.None? && waited.None? && fetch.FetchFailed?)
      && (served.Served? ==> (served.source == Hit <==> onEntry || underLock))
      && (served.Served? ==> (served.source == Refreshed <==> !onEntry && !underLock && fetch.Fetched?))
      && (onEntry ==> after == cache)
      && (underLock ==> after == waited)
      && (!onEntry && !underLock && fetch.Fetched? ==>
            after == Some(Cached(ToTypesV(fetch.serverTypes), storeAt, storeAt + 21_600_000_000_000)))
      && (!onEntry && !underLock && fetch.FetchFailed? ==> after == waited)
  {
  }
}
