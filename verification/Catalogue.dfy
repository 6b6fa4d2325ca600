// The catalogue pipeline on values: server types as hcloud reports them, the
// instance types built from them, the location filter and the availability
// overlay. The heap code in InstanceTypeProvider.dfy is proved against these.
module Catalogue {
  import opened Basics
  import opened Unavailable

  // ----- What hcloud reports -----

  // A price figure after strconv.ParseFloat: text that does not parse, the
  // non-finite values it also accepts, or a number.
  datatype Figure = Unparseable | NotANumber | Infinite | Finite(value: real)

  datatype Pricing = Pricing(location: Option<string>, hourly: Figure, monthly: Figure)

  datatype ServerType = ServerType(
    name: string, architecture: Architecture, cpuType: string, pricings: seq<Pricing>)

  predicate UsablePrice(f: Figure)
  {
    f.Finite? && f.value > 0.0
  }

  // The hourly figure if usable, else the monthly one over 730 hours, else none.
  function HourlyNetPrice(hourly: Figure, monthly: Figure): (r: (real, bool))
    ensures r.1 <==> r.0 > 0.0
    ensures r.1 <==> UsablePrice(hourly) || UsablePrice(monthly)
    ensures !r.1 ==> r.0 == 0.0
    ensures UsablePrice(hourly) ==> r.0 == hourly.value
    ensures !UsablePrice(hourly) && UsablePrice(monthly) ==> r.0 * 730.0 == monthly.value
  {
    if UsablePrice(hourly) then (hourly.value, true)
    else if UsablePrice(monthly) then (monthly.value / 730.0, true)
    else (0.0, false)
  }

  // ----- Instance types as values -----

  datatype OfferingV = OfferingV(zone: string, price: real, available: bool)

  datatype TypeV = TypeV(name: string, requirements: Labels, offerings: seq<OfferingV>)

  const ON_DEMAND: string := "on-demand"

  // The labels an offering requires: its capacity type and its zone.
  function OfferingLabels(zone: string): Labels
  {
    map[CapacityTypeKey := ON_DEMAND, ZoneKey := zone]
  }

  function ArchLabel(a: Architecture): string
  {
    if a == ARM then ARM64 else AMD64
  }

  // The architecture used for image lookups, read back from the arch label.
  function HcloudArchFor(requirements: Labels): Architecture
  {
    if ArchKey in requirements && requirements[ArchKey] == ARM64 then ARM else X86
  }

  function TypeLabels(st: ServerType): Labels
  {
    map[InstanceTypeKey := st.name, ArchKey := ArchLabel(st.architecture),
        CapacityTypeKey := ON_DEMAND, CPUTypeKey := st.cpuType]
  }

  // What an instance type says of its server type, key by key.
  lemma TypeLabelsMeaning(st: ServerType, k: LabelKey)
    ensures k in TypeLabels(st) <==> k in [InstanceTypeKey, ArchKey, CapacityTypeKey, CPUTypeKey]
    ensures k in TypeLabels(st) ==>
      match k
      case InstanceTypeKey => TypeLabels(st)[k] == st.name
      case ArchKey => TypeLabels(st)[k] == if st.architecture == ARM then "arm64" else "amd64"
      case CPUTypeKey => TypeLabels(st)[k] == st.cpuType
      case _ => TypeLabels(st)[k] == "on-demand"
  {
  }

  // What an offering says: where it is and that it is bought on demand.
  lemma OfferingLabelsMeaning(zone: string, k: LabelKey)
    ensures k in OfferingLabels(zone) <==> k == ZoneKey || k == CapacityTypeKey
    ensures OfferingLabels(zone)[ZoneKey] == zone && OfferingLabels(zone)[CapacityTypeKey] == "on-demand"
  {
  }

  // The price is the hourly figure when that is a positive number, else the monthly
  // one over 730 when that is, else zero and not usable.
  lemma PriceMeaning(hourly: Figure, monthly: Figure)
    ensures var (price, priced) := HourlyNetPrice(hourly, monthly);
      if hourly.Finite? && hourly.value > 0.0 then priced && price == hourly.value
      else if monthly.Finite? && monthly.value > 0.0 then priced && price * 730.0 == monthly.value
      else !priced && price == 0.0
  {
  }

  // The architecture an image is looked up for, from the label alone.
  lemma HcloudArchMeaning(requirements: Labels)
    ensures HcloudArchFor(requirements) == ARM <==> ArchKey in requirements && requirements[ArchKey] == "arm64"
    ensures HcloudArchFor(requirements) != ARM ==> HcloudArchFor(requirements) == X86
  {
  }

  // Through the Kubernetes label and back, the architecture survives exactly for
  // the two hcloud knows; any other is taken for x86.
  lemma ArchRoundTripIff(st: ServerType)
    ensures HcloudArchFor(TypeLabels(st)) == st.architecture
       <==> st.architecture == X86 || st.architecture == ARM
  {
    assert |AMD64| == 5 && |ARM64| == 5 && AMD64[1] == 'm' && ARM64[1] == 'r';
  }

  function PricedOffering(p: Pricing): OfferingV
    requires p.location.Some?
  {
    var (price, priced) := HourlyNetPrice(p.hourly, p.monthly);
    OfferingV(p.location.value, price, priced)
  }

  // One offering for each pricing entry that names a location.
  function OfferingsOf(ps: seq<Pricing>): seq<OfferingV>
  {
    if ps == [] then []
    else
      var last := ps[|ps| - 1];
      var init := OfferingsOf(ps[..|ps| - 1]);
      if last.location.None? then init else init + [PricedOffering(last)]
  }

  function ToTypeV(st: ServerType): TypeV
  {
    TypeV(st.name, TypeLabels(st), OfferingsOf(st.pricings))
  }

  function ToTypesV(sts: seq<ServerType>): seq<TypeV>
  {
    seq(|sts|, i requires 0 <= i < |sts| => ToTypeV(sts[i]))
  }

  // One instance type for each server type, in order.
  lemma ToTypesMeaning(sts: seq<ServerType>, i: nat)
    requires i < |sts|
    ensures |ToTypesV(sts)| == |sts|
    ensures ToTypesV(sts)[i] == TypeV(sts[i].name, TypeLabels(sts[i]), OfferingsOf(sts[i].pricings))
  {
  }

  // ----- filterByLocations -----

  function KeepZones(os: seq<OfferingV>, locations: seq<string>): seq<OfferingV>
  {
    if os == [] then []
    else
      var last := os[|os| - 1];
      var init := KeepZones(os[..|os| - 1], locations);
      if last.zone in locations then init + [last] else init
  }

  function KeepTypes(ts: seq<TypeV>, locations: seq<string>): seq<TypeV>
  {
    if ts == [] then []
    else
      var t := ts[|ts| - 1];
      var init := KeepTypes(ts[..|ts| - 1], locations);
      var kept := KeepZones(t.offerings, locations);
      if |kept| > 0 then init + [t.(offerings := kept)] else init
  }

  function FilterByLocations(ts: seq<TypeV>, locations: seq<string>): seq<TypeV>
  {
    if locations == [] then ts else KeepTypes(ts, locations)
  }

  // ----- applyAvailability -----

  // The instants at which a call read the clock, one for each offering.
  ghost predicate ShapedLike(at: seq<seq<nat>>, ts: seq<TypeV>)
  {
    |at| == |ts| && forall i :: 0 <= i < |ts| ==> |at[i]| == |ts[i].offerings|
  }

  ghost predicate Within(at: seq<seq<nat>>, lo: nat, hi: nat)
  {
    forall i, j :: 0 <= i < |at| && 0 <= j < |at[i]| ==> lo <= at[i][j] <= hi
  }

  // Available only if the catalogue says so and the pair is not marked.
  function OverlayOffering(name: string, o: OfferingV, items: map<string, nat>, now: nat): OfferingV
  {
    o.(available := o.available && !ReadsUnavailable(items, name, o.zone, now))
  }

  ghost function OverlayType(t: TypeV, items: map<string, nat>, at: seq<nat>): TypeV
    requires |at| == |t.offerings|
  {
    t.(offerings := seq(|at|, j requires 0 <= j < |at| => OverlayOffering(t.name, t.offerings[j], items, at[j])))
  }

  ghost function Overlay(ts: seq<TypeV>, items: map<string, nat>, at: seq<seq<nat>>): seq<TypeV>
    requires ShapedLike(at, ts)
  {
    seq(|ts|, i requires 0 <= i < |ts| => OverlayType(ts[i], items, at[i]))
  }

  // ----- Order is kept -----

  // Offerings come in the order of their pricing entries, one from each that names a
  // location.
  lemma {:induction false} OfferingsInOrder(ps: seq<Pricing>, qs: seq<Pricing>)
    ensures OfferingsOf(ps + qs) == OfferingsOf(ps) + OfferingsOf(qs)
  {
    if qs == [] {
      assert ps + qs == ps;
    } else {
      OfferingsInOrder(ps, qs[..|qs| - 1]);
      assert (ps + qs)[..|ps + qs| - 1] == ps + qs[..|qs| - 1];
    }
  }

  lemma OfferingOfOne(p: Pricing)
    ensures OfferingsOf([p]) == match p.location
      case None => []
      case Some(zone) =>
        var (price, priced) := HourlyNetPrice(p.hourly, p.monthly);
        [OfferingV(zone, price, priced)]
  {
    assert [p][..0] == [];
  }

  lemma {:induction false} ZonesInOrder(os: seq<OfferingV>, rest: seq<OfferingV>, locations: seq<string>)
    ensures KeepZones(os + rest, locations) == KeepZones(os, locations) + KeepZones(rest, locations)
  {
    if rest == [] {
      assert os + rest == os;
    } else {
      ZonesInOrder(os, rest[..|rest| - 1], locations);
      assert (os + rest)[..|os + rest| - 1] == os + rest[..|rest| - 1];
    }
  }

  lemma ZoneOfOne(o: OfferingV, locations: seq<string>)
    ensures KeepZones([o], locations) == if o.zone in locations then [o] else []
  {
    assert [o][..0] == [];
  }

  lemma {:induction false} KeptInOrder(ts: seq<TypeV>, us: seq<TypeV>, locations: seq<string>)
    ensures KeepTypes(ts + us, locations) == KeepTypes(ts, locations) + KeepTypes(us, locations)
  {
    if us == [] {
      assert ts + us == ts;
    } else {
      KeptInOrder(ts, us[..|us| - 1], locations);
      assert (ts + us)[..|ts + us| - 1] == ts + us[..|us| - 1];
    }
  }

  lemma TypesInOrder(ts: seq<TypeV>, us: seq<TypeV>, locations: seq<string>)
    ensures FilterByLocations(ts + us, locations) == FilterByLocations(ts, locations) + FilterByLocations(us, locations)
  {
    KeptInOrder(ts, us, locations);
  }

  lemma TypeOfOne(t: TypeV, locations: seq<string>)
    requires locations != []
    ensures FilterByLocations([t], locations) ==
      if exists o :: o in t.offerings && o.zone in locations
      then [TypeV(t.name, t.requirements, KeepZones(t.offerings, locations))] else []
  {
    var kept := KeepZones(t.offerings, locations);
    var stripped := TypeV(t.name, t.requirements, kept);
    assert [t][..0] == [] && t.(offerings := kept) == stripped;
    assert KeepTypes([t], locations) == if |kept| > 0 then [stripped] else [];
    if o :| o in t.offerings && o.zone in locations {
      KeepZonesMembers(t.offerings, locations, o);
    } else if kept != [] {
      KeepZonesMembers(t.offerings, locations, kept[0]);
    }
  }

  lemma NoLocationsKeepAll(ts: seq<TypeV>)
    ensures FilterByLocations(ts, []) == ts
  {
  }

  // The listing overlaid under a history of marks: nothing but availability differs,
  // and an offering is available exactly when the catalogue has it so and no mark of
  // exactly its pair was less than a TTL old at its reading.
  lemma OverlayMeaning(ts: seq<TypeV>, history: seq<Mark>, ttl: nat, at: seq<seq<nat>>, i: nat, j: nat)
    requires ShapedLike(at, ts) && i < |ts| && j < |ts[i].offerings|
    requires Chronological(history) && NulFreeTypes(history) && NUL !in ts[i].name
    ensures var l := Overlay(ts, ItemsAfter(history, ttl), at);
      && |l| == |ts| && l[i].name == ts[i].name && l[i].requirements == ts[i].requirements
      && |l[i].offerings| == |ts[i].offerings|
      && var o, p := l[i].offerings[j], ts[i].offerings[j];
         && o.zone == p.zone && o.price == p.price
         && (o.available <==>
               && p.available
               && !exists m ::
                    m in history && m.serverType == ts[i].name && m.location == p.zone && at[i][j] < m.at + ttl)
  {
    MapRefinesHistory(history, ttl, ts[i].name, ts[i].offerings[j].zone, at[i][j]);
  }

  // ----- What the pipeline keeps -----

  lemma {:induction false} OfferingsOfMembers(ps: seq<Pricing>, o: OfferingV)
    ensures o in OfferingsOf(ps) <==> exists p :: p in ps && p.location.Some? && o == PricedOffering(p)
  {
    if ps != [] {
      OfferingsOfMembers(ps[..|ps| - 1], o);
      assert ps == ps[..|ps| - 1] + [ps[|ps| - 1]];
    }
  }

  lemma {:induction false} KeepZonesMembers(os: seq<OfferingV>, locations: seq<string>, o: OfferingV)
    ensures o in KeepZones(os, locations) <==> o in os && o.zone in locations
  {
    if os != [] {
      KeepZonesMembers(os[..|os| - 1], locations, o);
      assert os == os[..|os| - 1] + [os[|os| - 1]];
    }
  }

  // A type is listed exactly when some type of the catalogue, stripped of the
  // offerings elsewhere, still has one.
  lemma {:induction false} KeepTypesMembers(ts: seq<TypeV>, locations: seq<string>, t: TypeV)
    ensures t in KeepTypes(ts, locations)
       <==> t.offerings != [] && exists u :: u in ts && t == u.(offerings := KeepZones(u.offerings, locations))
  {
    if ts != [] {
      KeepTypesMembers(ts[..|ts| - 1], locations, t);
      assert ts == ts[..|ts| - 1] + [ts[|ts| - 1]];
    }
  }

  // o of the listed type t is p of the catalogue type u: price untouched,
  // available only if the catalogue has it so.
  ghost predicate Origin(u: TypeV, p: OfferingV, t: TypeV, o: OfferingV)
  {
    && u.name == t.name && u.requirements == t.requirements
    && p in u.offerings && p.zone == o.zone && p.price == o.price
    && (o.available ==> p.available)
  }

  // Where a listed offering comes from.
  lemma ListedOfferingOrigin(
      ts: seq<TypeV>, locations: seq<string>, items: map<string, nat>, at: seq<seq<nat>>, t: TypeV, o: OfferingV)
    requires ShapedLike(at, FilterByLocations(ts, locations))
    requires t in Overlay(FilterByLocations(ts, locations), items, at) && o in t.offerings
    ensures locations != [] ==> o.zone in locations
    ensures exists u, p :: u in ts && Origin(u, p, t, o)
  {
    var fs := FilterByLocations(ts, locations);
    var i :| 0 <= i < |fs| && t == OverlayType(fs[i], items, at[i]);
    var j :| 0 <= j < |t.offerings| && t.offerings[j] == o;
    var f, p := fs[i], fs[i].offerings[j];
    if locations == [] {
      assert f in ts && Origin(f, p, t, o);
    } else {
      KeepTypesMembers(ts, locations, f);
      var u :| u in ts && f == u.(offerings := KeepZones(u.offerings, locations));
      KeepZonesMembers(u.offerings, locations, p);
      assert Origin(u, p, t, o);
    }
  }

  // t is the instance type of st, and o the offering of its pricing entry p.
  ghost predicate PricedBy(st: ServerType, p: Pricing, t: TypeV, o: OfferingV)
  {
    && st.name == t.name && t.requirements == TypeLabels(st)
    && p in st.pricings && p.location == Some(o.zone)
    && o.price == HourlyNetPrice(p.hourly, p.monthly).0
  }

  // End to end: an available listed offering is a priced pricing entry of an
  // hcloud server type, has a positive price and lies in the requested locations.
  lemma AvailableIsPricedAndLocal(
      sts: seq<ServerType>, locations: seq<string>, items: map<string, nat>, at: seq<seq<nat>>, t: TypeV, o: OfferingV)
    requires ShapedLike(at, FilterByLocations(ToTypesV(sts), locations))
    requires t in Overlay(FilterByLocations(ToTypesV(sts), locations), items, at)
    requires o in t.offerings && o.available
    ensures o.price > 0.0
    ensures locations != [] ==> o.zone in locations
    ensures exists st, p :: st in sts && PricedBy(st, p, t, o)
  {
    ListedOfferingOrigin(ToTypesV(sts), locations, items, at, t, o);
    var u, q :| u in ToTypesV(sts) && Origin(u, q, t, o);
    var k :| 0 <= k < |sts| && u == ToTypeV(sts[k]);
    OfferingsOfMembers(sts[k].pricings, q);
    var p :| p in sts[k].pricings && p.location.Some? && q == PricedOffering(p);
    assert sts[k] in sts && PricedBy(sts[k], p, t, o);
  }
}
