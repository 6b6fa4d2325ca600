// Which launches Create can decide on at all, in terms of what is known before the
// call: the node class and the claim's requirements.
module PossibleLaunches {
  import opened Basics
  import opened Catalogue
  import opened NodeClass
  import opened ImageFamily
  import opened Selection

  // The node class allows the zone, and the requirements admit the type and the
  // zone.
  predicate CanLaunch(spec: Spec, reqs: Requirements, st: ServerType, zone: string)
  {
    && (spec.locations == [] || zone in spec.locations)
    && reqs.admitsType(TypeLabels(st))
    && reqs.admitsOffering(OfferingLabels(zone))
  }

  // Create decides so from this catalogue, under these marks, images and lookups.
  ghost predicate Decides(
      spec: Spec, reqs: Requirements, sts: seq<ServerType>, items: map<string, nat>, at: seq<seq<nat>>,
      current: seq<ResolvedImage>, lookups: Architecture -> Lookup, c: Choice, imageID: int)
  {
    && ShapedLike(at, FilterByLocations(ToTypesV(sts), spec.locations))
    && Decide(Overlay(FilterByLocations(ToTypesV(sts), spec.locations), items, at), reqs, current, lookups)
         == Decision.Launch(c, imageID)
  }

  ghost predicate CanDecide(spec: Spec, reqs: Requirements, c: Choice, imageID: int)
  {
    exists sts, items, at, current, lookups :: Decides(spec, reqs, sts, items, at, current, lookups, c, imageID)
  }

  // c is the instance type of st, in a zone where st can be launched.
  ghost predicate LaunchOf(spec: Spec, reqs: Requirements, st: ServerType, c: Choice)
  {
    && CanLaunch(spec, reqs, st, c.offering.zone)
    && c.itype.name == st.name && c.itype.requirements == TypeLabels(st)
  }

  // Whatever Create decides to launch can be launched.
  lemma DecidedCanLaunch(spec: Spec, reqs: Requirements, c: Choice, imageID: int)
    requires CanDecide(spec, reqs, c, imageID)
    ensures exists st :: LaunchOf(spec, reqs, st, c)
  {
    var sts, items, at, current, lookups :| Decides(spec, reqs, sts, items, at, current, lookups, c, imageID);
    var listing := Overlay(FilterByLocations(ToTypesV(sts), spec.locations), items, at);
    LaunchedOfferingIsReal(sts, spec.locations, items, at, reqs, current);
    ScanFindsLeast(listing, reqs, current);
    CheapestMeaning(c.itype.offerings, reqs);
    var st, p :| st in sts && PricedBy(st, p, c.itype, c.offering);
    assert LaunchOf(spec, reqs, st, c);
  }

  // And what can be launched, Create decides to launch, with any image: from the
  // catalogue that has only it, with the image for its architecture in hcloud.
  lemma CanLaunchDecided(spec: Spec, reqs: Requirements, st: ServerType, zone: string, imageID: int)
    returns (c: Choice)
    requires CanLaunch(spec, reqs, st, zone)
    ensures CanDecide(spec, reqs, c, imageID) && c.itype.name == st.name && c.offering.zone == zone
  {
    var only := st.(pricings := [Pricing(Some(zone), Finite(1.0), Finite(1.0))]);
    var o := OfferingV(zone, 1.0, true);
    var t := TypeV(st.name, TypeLabels(st), [o]);
    c := Choice(t, o);
    ListedAlone(spec, only, t, o);
    ScannedAlone(reqs, t, o);
    var lookups: Architecture -> Lookup := a => Found(Image(imageID, a, "", 0));
    assert Decides(spec, reqs, [only], map[], [[0]], [], lookups, c, imageID);
  }

  lemma ListedAlone(spec: Spec, st: ServerType, t: TypeV, o: OfferingV)
    requires |st.pricings| == 1 && st.pricings[0].location == Some(o.zone) && o == PricedOffering(st.pricings[0])
    requires t == TypeV(st.name, TypeLabels(st), [o])
    requires spec.locations == [] || o.zone in spec.locations
    ensures ShapedLike([[0]], FilterByLocations(ToTypesV([st]), spec.locations))
    ensures Overlay(FilterByLocations(ToTypesV([st]), spec.locations), map[], [[0]]) == [t]
  {
    TypedAlone(st, t, o);
    FilteredAlone(spec.locations, t, o);
    OverlaidAlone(t, o);
  }

  lemma TypedAlone(st: ServerType, t: TypeV, o: OfferingV)
    requires |st.pricings| == 1 && st.pricings[0].location == Some(o.zone) && o == PricedOffering(st.pricings[0])
    requires t == TypeV(st.name, TypeLabels(st), [o])
    ensures ToTypesV([st]) == [t]
  {
    var ps := st.pricings;
    assert ps[..0] == [] && OfferingsOf(ps) == OfferingsOf(ps[..0]) + [o] == [o];
    assert ToTypeV(st) == t;
  }

  lemma FilteredAlone(locations: seq<string>, t: TypeV, o: OfferingV)
    requires t.offerings == [o] && (locations == [] || o.zone in locations)
    ensures FilterByLocations([t], locations) == [t]
  {
    assert [o][..0] == [] && [t][..0] == [];
    if locations != [] {
      assert KeepZones([o], locations) == KeepZones([o][..0], locations) + [o] == [o];
      assert t.(offerings := [o]) == t;
      assert KeepTypes([t], locations) == KeepTypes([t][..0], locations) + [t];
    }
  }

  lemma OverlaidAlone(t: TypeV, o: OfferingV)
    requires t.offerings == [o]
    ensures ShapedLike([[0]], [t]) && Overlay([t], map[], [[0]]) == [t]
  {
    assert OverlayOffering(t.name, o, map[], 0) == o;
    assert OverlayType(t, map[], [0]).offerings == [o];
  }

  lemma ScannedAlone(reqs: Requirements, t: TypeV, o: OfferingV)
    requires t.offerings == [o] && Usable(o, reqs) && reqs.admitsType(t.requirements)
    ensures Scan([t], reqs, []).selected == Some(Choice(t, o))
  {
    assert [o][..0] == [] && [t][..0] == [];
    assert Cheapest([o], reqs) == Some(o);
    assert Scan([t], reqs, []) == ScanStep(Scan([t][..0], reqs, []), t, reqs, []);
  }
}
