// What Create decides from one listing, on values: the scan for the cheapest
// type, the image gate, the split of an empty selection into its two causes, and
// image resolution. CloudProvider.dfy proves the heap code against this.
module Selection {
  import opened Basics
  import opened Text
  import opened Unavailable
  import opened Catalogue
  import opened NodeClass
  import opened ImageFamily

  // Karpenter's requirement algebra, abstract: which types and which offerings
  // the claim's requirements admit, by their labels.
  datatype Requirements = Requirements(admitsType: Labels -> bool, admitsOffering: Labels -> bool)

  // ----- The image gate -----

  predicate HasResolvedImage(current: seq<ResolvedImage>, arch: Architecture)
  {
    current == [] || exists i :: 0 <= i < |current| && current[i].architecture == arch
  }

  datatype ImageResult = Launchable(imageID: int) | NoImage | LookupFailed

  // The status entry if there is one, else the live catalogue's answer, refused
  // if its architecture is another.
  function ResolvedImageFor(current: seq<ResolvedImage>, arch: Architecture, live: Lookup): ImageResult
  {
    match EntryFor(current, arch)
    case Some(id) => Launchable(id)
    case None =>
      match live
      case PermanentError => NoImage
      case TransientError => LookupFailed
      case Found(img) => if img.architecture != arch then NoImage else Launchable(img.id)
  }

  // With no status entry for the architecture the live catalogue decides: its image
  // if that is of the architecture; a definitive miss or a wrong architecture is no
  // image; and a catalogue that could not be read is neither.
  lemma ResolvedImageMeaning(current: seq<ResolvedImage>, arch: Architecture, live: Lookup)
    requires forall i :: 0 <= i < |current| ==> current[i].architecture != arch
    ensures var r := ResolvedImageFor(current, arch, live);
      && (r == LookupFailed <==> live == TransientError)
      && (r == NoImage <==> live == PermanentError || (live.Found? && live.image.architecture != arch))
      && (forall id :: r == Launchable(id) <==> live.Found? && live.image.architecture == arch && live.image.id == id)
  {
    EntryForMeaning(current, arch);
  }

  // With one, the first decides, whatever the live catalogue.
  lemma EntryDecides(current: seq<ResolvedImage>, arch: Architecture, i: nat, live: Lookup)
    requires i < |current| && current[i].architecture == arch
    requires forall k :: 0 <= k < i ==> current[k].architecture != arch
    ensures ResolvedImageFor(current, arch, live) == Launchable(current[i].imageID)
  {
    EntryAt(current, arch, i);
  }

  lemma EntryAt(current: seq<ResolvedImage>, arch: Architecture, i: nat)
    requires i < |current| && current[i].architecture == arch
    requires forall k :: 0 <= k < i ==> current[k].architecture != arch
    ensures EntryFor(current, arch) == Some(current[i].imageID)
  {
    EntryForMeaning(current, arch);
    var j :| 0 <= j < |current| && current[j] == ResolvedImage(arch, EntryFor(current, arch).value)
      && forall k :: 0 <= k < j ==> current[k].architecture != arch;
    assert i == j;
  }

  // ----- Ranking offerings -----

  predicate Usable(o: OfferingV, reqs: Requirements)
  {
    o.available && reqs.admitsOffering(OfferingLabels(o.zone))
  }

  // Offerings.Available().Compatible(reqs).Cheapest(): the first of least price.
  function Cheapest(os: seq<OfferingV>, reqs: Requirements): Option<OfferingV>
  {
    if os == [] then None
    else
      var init := Cheapest(os[..|os| - 1], reqs);
      var o := os[|os| - 1];
      if Usable(o, reqs) && (init.None? || o.price < init.value.price) then Some(o) else init
  }

  lemma {:induction false} CheapestMeaning(os: seq<OfferingV>, reqs: Requirements)
    ensures Cheapest(os, reqs).None? <==> forall o :: o in os ==> !Usable(o, reqs)
    ensures Cheapest(os, reqs).Some? ==>
      var c := Cheapest(os, reqs).value;
      && c in os && Usable(c, reqs)
      && (forall o :: o in os && Usable(o, reqs) ==> c.price <= o.price)
      && exists i :: IsFirstCheapest(os, reqs, i) && os[i] == c
  {
    if os != [] {
      CheapestMeaning(os[..|os| - 1], reqs);
      assert os == os[..|os| - 1] + [os[|os| - 1]];
      if Cheapest(os, reqs).Some? {
        CheapestIsFirst(os, reqs);
      }
    }
  }

  lemma {:induction false} CheapestIsFirst(os: seq<OfferingV>, reqs: Requirements)
    requires Cheapest(os, reqs).Some?
    ensures exists i :: IsFirstCheapest(os, reqs, i) && os[i] == Cheapest(os, reqs).value
  {
    var n := |os| - 1;
    var init, c := os[..n], Cheapest(os, reqs).value;
    if Cheapest(init, reqs) == Some(c) {
      CheapestIsFirst(init, reqs);
      var i :| IsFirstCheapest(init, reqs, i) && init[i] == c;
      assert IsFirstCheapest(os, reqs, i);
    } else {
      LastIsCheaper(os, reqs);
      assert IsFirstCheapest(os, reqs, n);
    }
  }

  lemma LastIsCheaper(os: seq<OfferingV>, reqs: Requirements)
    requires os != [] && Cheapest(os, reqs) == Some(os[|os| - 1])
    requires Cheapest(os[..|os| - 1], reqs) != Cheapest(os, reqs)
    ensures Usable(os[|os| - 1], reqs)
    ensures forall k :: 0 <= k < |os| - 1 && Usable(os[k], reqs) ==> os[|os| - 1].price < os[k].price
  {
    var init := os[..|os| - 1];
    CheapestLeast(init, reqs);
    assert forall k :: 0 <= k < |os| - 1 ==> os[k] in init;
  }

  lemma {:induction false} CheapestLeast(os: seq<OfferingV>, reqs: Requirements)
    ensures Cheapest(os, reqs).None? ==> forall o :: o in os ==> !Usable(o, reqs)
    ensures Cheapest(os, reqs).Some? ==>
      forall o :: o in os && Usable(o, reqs) ==> Cheapest(os, reqs).value.price <= o.price
  {
    if os != [] {
      CheapestLeast(os[..|os| - 1], reqs);
      assert os == os[..|os| - 1] + [os[|os| - 1]];
    }
  }

  // No earlier usable offering is as cheap: on a tie the first listed decides where
  // the server is launched.
  ghost predicate IsFirstCheapest(os: seq<OfferingV>, reqs: Requirements, i: int)
  {
    && 0 <= i < |os| && Usable(os[i], reqs)
    && forall k :: 0 <= k < i && Usable(os[k], reqs) ==> os[i].price < os[k].price
  }

  // ----- The scan -----

  datatype Choice = Choice(itype: TypeV, offering: OfferingV)

  datatype Scanned = Scanned(selected: Option<Choice>, missing: set<Architecture>, capacityBlocked: bool)

  predicate Beats(c: Choice, best: Option<Choice>)
  {
    best.None? || c.offering.price < best.value.offering.price
    || (c.offering.price == best.value.offering.price && LexLess(c.itype.name, best.value.itype.name))
  }

  function ScanStep(s: Scanned, t: TypeV, reqs: Requirements, current: seq<ResolvedImage>): Scanned
  {
    if !reqs.admitsType(t.requirements) then s
    else
      var arch := HcloudArchFor(t.requirements);
      if !HasResolvedImage(current, arch) then s.(missing := s.missing + {arch})
      else match Cheapest(t.offerings, reqs)
        case None => s.(capacityBlocked := true)
        case Some(o) => if Beats(Choice(t, o), s.selected) then s.(selected := Some(Choice(t, o))) else s
  }

  function Scan(ts: seq<TypeV>, reqs: Requirements, current: seq<ResolvedImage>): Scanned
  {
    if ts == [] then Scanned(None, {}, false)
    else ScanStep(Scan(ts[..|ts| - 1], reqs, current), ts[|ts| - 1], reqs, current)
  }

  // A type the claim admits and the gate lets through.
  predicate Cleared(t: TypeV, reqs: Requirements, current: seq<ResolvedImage>)
  {
    reqs.admitsType(t.requirements) && HasResolvedImage(current, HcloudArchFor(t.requirements))
  }

  predicate Candidate(t: TypeV, reqs: Requirements, current: seq<ResolvedImage>)
  {
    Cleared(t, reqs, current) && Cheapest(t.offerings, reqs).Some?
  }

  // At most as dear, and by name on a tie.
  predicate AtMost(c: Choice, d: Choice)
  {
    c.offering.price < d.offering.price
    || (c.offering.price == d.offering.price && !LexLess(d.itype.name, c.itype.name))
  }

  ghost predicate IsLeast(c: Choice, ts: seq<TypeV>, reqs: Requirements, current: seq<ResolvedImage>)
  {
    && c.itype in ts && Candidate(c.itype, reqs, current)
    && c.offering == Cheapest(c.itype.offerings, reqs).value
    && forall t :: t in ts && Candidate(t, reqs, current) ==> AtMost(c, Choice(t, Cheapest(t.offerings, reqs).value))
  }

  lemma AtMostTransitive(a: Choice, b: Choice, c: Choice)
    requires AtMost(a, b) && AtMost(b, c)
    ensures AtMost(a, c)
  {
    var x, y, z := a.itype.name, b.itype.name, c.itype.name;
    LexTrichotomy(x, y);
    LexTrichotomy(y, z);
    LexTrichotomy(x, z);
    if LexLess(z, x) && LexLess(x, y) { LexTransitive(z, x, y); }
    if LexLess(z, x) && LexLess(y, z) { LexTransitive(y, z, x); }
  }

  // The scan finds the least candidate by (price, name), and none only when there
  // is none.
  lemma {:induction false} ScanFindsLeast(ts: seq<TypeV>, reqs: Requirements, current: seq<ResolvedImage>)
    ensures var s := Scan(ts, reqs, current);
      && (s.selected.None? <==> forall t :: t in ts ==> !Candidate(t, reqs, current))
      && (s.selected.Some? ==> IsLeast(s.selected.value, ts, reqs, current))
  {
    if ts != [] {
      var init, t := ts[..|ts| - 1], ts[|ts| - 1];
      ScanFindsLeast(init, reqs, current);
      assert ts == init + [t];
      LeastStep(init, t, reqs, current);
    }
  }

  ghost predicate Records(s: Scanned, ts: seq<TypeV>, reqs: Requirements, current: seq<ResolvedImage>)
  {
    && (s.capacityBlocked <==> exists t :: t in ts && Cleared(t, reqs, current) && !Candidate(t, reqs, current))
    && (s.missing != {} <==> exists t :: t in ts && reqs.admitsType(t.requirements) && !Cleared(t, reqs, current))
  }

  // The claim admits the type, its architecture has an image or no image is
  // current, and the offering is available and admitted.
  ghost predicate CanBeSelected(t: TypeV, o: OfferingV, reqs: Requirements, current: seq<ResolvedImage>)
  {
    && reqs.admitsType(t.requirements)
    && (current == []
        || exists e :: e in current
             && e.architecture == if ArchKey in t.requirements && t.requirements[ArchKey] == "arm64" then ARM else X86)
    && o in t.offerings && o.available && reqs.admitsOffering(OfferingLabels(o.zone))
  }

  // What is selected can be, no other costs less, and of those that cost as much none
  // of another type is named before it. Nothing is selected only when nothing can be.
  lemma SelectedIsLeast(
      ts: seq<TypeV>, reqs: Requirements, current: seq<ResolvedImage>, t: TypeV, o: OfferingV)
    requires t in ts && CanBeSelected(t, o, reqs, current)
    ensures var s := Scan(ts, reqs, current).selected;
      && s.Some?
      && s.value.itype in ts && CanBeSelected(s.value.itype, s.value.offering, reqs, current)
      && (|| s.value.offering.price < o.price
          || (s.value.offering.price == o.price
              && (s.value.itype.name == t.name || LexLess(s.value.itype.name, t.name))))
  {
    ScanFindsLeast(ts, reqs, current);
    CheapestMeaning(t.offerings, reqs);
    GateMeaning(current, t.requirements);
    var c := Scan(ts, reqs, current).selected.value;
    CheapestMeaning(c.itype.offerings, reqs);
    GateMeaning(current, c.itype.requirements);
    LexTrichotomy(c.itype.name, t.name);
    assert AtMost(c, Choice(t, Cheapest(t.offerings, reqs).value));
  }

  lemma NothingCanBeSelected(ts: seq<TypeV>, reqs: Requirements, current: seq<ResolvedImage>)
    requires Scan(ts, reqs, current).selected.None?
    ensures forall t, o :: t in ts ==> !CanBeSelected(t, o, reqs, current)
  {
    forall t, o | t in ts && CanBeSelected(t, o, reqs, current)
      ensures false
    {
      SelectedIsLeast(ts, reqs, current, t, o);
    }
  }

  // The gate lets a type through when no image is current or one is of its
  // architecture.
  lemma GateMeaning(current: seq<ResolvedImage>, requirements: Labels)
    ensures HasResolvedImage(current, HcloudArchFor(requirements)) <==>
      || current == []
      || exists e :: e in current
           && e.architecture == if ArchKey in requirements && requirements[ArchKey] == "arm64" then ARM else X86
  {
    HcloudArchMeaning(requirements);
    var arch := HcloudArchFor(requirements);
    if e :| e in current && e.architecture == arch {
      var i :| 0 <= i < |current| && current[i] == e;
    }
  }

  // What the scan records about the types it passed over.
  lemma {:induction false} ScanCauses(ts: seq<TypeV>, reqs: Requirements, current: seq<ResolvedImage>)
    ensures Records(Scan(ts, reqs, current), ts, reqs, current)
  {
    if ts != [] {
      var init, t := ts[..|ts| - 1], ts[|ts| - 1];
      ScanCauses(init, reqs, current);
      assert ts == init + [t];
      CausesStep(Scan(init, reqs, current), init, t, reqs, current);
    }
  }

  lemma CausesStep(s: Scanned, init: seq<TypeV>, t: TypeV, reqs: Requirements, current: seq<ResolvedImage>)
    requires Records(s, init, reqs, current)
    ensures Records(ScanStep(s, t, reqs, current), init + [t], reqs, current)
  {
    var ts, s' := init + [t], ScanStep(s, t, reqs, current);
    assert t in ts && forall u :: u in ts <==> u in init || u == t;
    if reqs.admitsType(t.requirements) && !Cleared(t, reqs, current) {
      assert HcloudArchFor(t.requirements) in s'.missing;
    }
  }

  lemma LeastStep(init: seq<TypeV>, t: TypeV, reqs: Requirements, current: seq<ResolvedImage>)
    requires var s := Scan(init, reqs, current);
      && (s.selected.None? <==> forall u :: u in init ==> !Candidate(u, reqs, current))
      && (s.selected.Some? ==> IsLeast(s.selected.value, init, reqs, current))
    ensures var s := ScanStep(Scan(init, reqs, current), t, reqs, current);
      s.selected.Some? ==> IsLeast(s.selected.value, init + [t], reqs, current)
  {
    var s := Scan(init, reqs, current);
    if Candidate(t, reqs, current) {
      var c := Choice(t, Cheapest(t.offerings, reqs).value);
      LexTrichotomy(t.name, t.name);
      if s.selected.Some? {
        var b := s.selected.value;
        LexTrichotomy(c.itype.name, b.itype.name);
        if Beats(c, s.selected) {
          forall u | u in init && Candidate(u, reqs, current)
            ensures AtMost(c, Choice(u, Cheapest(u.offerings, reqs).value))
          {
            AtMostTransitive(c, b, Choice(u, Cheapest(u.offerings, reqs).value));
          }
        } else {
          assert AtMost(b, c);
        }
      }
    }
  }

  // Reordering types with distinct names does not change the selection.
  lemma SelectionOrderIndependent(ts: seq<TypeV>, us: seq<TypeV>, reqs: Requirements, current: seq<ResolvedImage>)
    requires multiset(ts) == multiset(us)
    requires forall i, j :: 0 <= i < j < |ts| ==> ts[i].name != ts[j].name
    ensures Scan(ts, reqs, current).selected == Scan(us, reqs, current).selected
  {
    ScanFindsLeast(ts, reqs, current);
    ScanFindsLeast(us, reqs, current);
    assert forall t :: t in ts <==> t in multiset(ts);
    assert forall t :: t in us <==> t in multiset(us);
    assert forall t :: t in ts <==> t in us;
    var a, b := Scan(ts, reqs, current).selected, Scan(us, reqs, current).selected;
    if a.Some? && b.Some? {
      assert AtMost(a.value, b.value) && AtMost(b.value, a.value);
      LexTrichotomy(a.value.itype.name, b.value.itype.name);
    }
  }

  // ----- The decision -----

  datatype Refusal = NodeClassNotReady | InsufficientCapacity | ImageLookupFailed

  datatype Decision = Launch(choice: Choice, imageID: int) | Refuse(why: Refusal)

  function Decide(
      listing: seq<TypeV>, reqs: Requirements, current: seq<ResolvedImage>, lookups: Architecture -> Lookup): Decision
  {
    var s := Scan(listing, reqs, current);
    match s.selected
    case None =>
      Refuse(if s.missing != {} && !s.capacityBlocked then NodeClassNotReady else InsufficientCapacity)
    case Some(c) =>
      var arch := HcloudArchFor(c.itype.requirements);
      match ResolvedImageFor(current, arch, lookups(arch))
      case Launchable(id) => Launch(c, id)
      case NoImage => Refuse(NodeClassNotReady)
      case LookupFailed => Refuse(ImageLookupFailed)
  }

  // A refusal with something selected is the image's: the live catalogue has none for
  // the architecture, or could not be read.
  lemma RefusedForImage(
      listing: seq<TypeV>, reqs: Requirements, current: seq<ResolvedImage>, lookups: Architecture -> Lookup)
    requires Scan(listing, reqs, current).selected.Some?
    ensures var c := Scan(listing, reqs, current).selected.value;
      var arch := HcloudArchFor(c.itype.requirements);
      var noEntry := forall e :: e in current ==> e.architecture != arch;
      var d := Decide(listing, reqs, current, lookups);
      && (d == Refuse(ImageLookupFailed) <==> noEntry && lookups(arch) == TransientError)
      && (d == Refuse(NodeClassNotReady) <==>
            noEntry && (lookups(arch) == PermanentError
                        || (lookups(arch).Found? && lookups(arch).image.architecture != arch)))
      && d != Refuse(InsufficientCapacity)
      && (d.Launch? ==> d.choice == c && ResolvedImageFor(current, arch, lookups(arch)) == Launchable(d.imageID))
  {
    var arch := HcloudArchFor(Scan(listing, reqs, current).selected.value.itype.requirements);
    EntryForMeaning(current, arch);
    if EntryFor(current, arch).None? {
      ResolvedImageMeaning(current, arch, lookups(arch));
    }
  }

  // An empty selection blames the node class exactly when the claim admits some
  // type, and every admitted type lacks an image; otherwise it blames capacity.
  lemma EmptySelectionBlame(
      listing: seq<TypeV>, reqs: Requirements, current: seq<ResolvedImage>, lookups: Architecture -> Lookup)
    requires forall t :: t in listing ==> !Candidate(t, reqs, current)
    ensures Decide(listing, reqs, current, lookups) == Refuse(NodeClassNotReady) <==>
      && (exists t :: t in listing && reqs.admitsType(t.requirements))
      && (forall t :: t in listing && reqs.admitsType(t.requirements) ==> !Cleared(t, reqs, current))
    ensures Decide(listing, reqs, current, lookups) != Refuse(NodeClassNotReady) ==>
      Decide(listing, reqs, current, lookups) == Refuse(InsufficientCapacity)
  {
    ScanFindsLeast(listing, reqs, current);
    ScanCauses(listing, reqs, current);
  }

  // The same said of the types themselves: with nothing to select, the node class is
  // to blame exactly when the claim admits some type, images are current, and none of
  // them is of an admitted type's architecture.
  lemma BlameMeaning(
      listing: seq<TypeV>, reqs: Requirements, current: seq<ResolvedImage>, lookups: Architecture -> Lookup)
    requires forall t, o :: t in listing ==> !CanBeSelected(t, o, reqs, current)
    ensures Decide(listing, reqs, current, lookups) == Refuse(NodeClassNotReady) <==>
      && current != []
      && (exists t :: t in listing && reqs.admitsType(t.requirements))
      && forall t, e :: t in listing && reqs.admitsType(t.requirements) && e in current ==>
           e.architecture != if ArchKey in t.requirements && t.requirements[ArchKey] == "arm64" then ARM else X86
    ensures Decide(listing, reqs, current, lookups) != Refuse(NodeClassNotReady) ==>
      Decide(listing, reqs, current, lookups) == Refuse(InsufficientCapacity)
  {
    forall t | t in listing
      ensures !Candidate(t, reqs, current)
      ensures Cleared(t, reqs, current) <==>
        && reqs.admitsType(t.requirements)
        && (current == []
            || exists e :: e in current
                 && e.architecture ==
                      if ArchKey in t.requirements && t.requirements[ArchKey] == "arm64" then ARM else X86)
    {
      GateMeaning(current, t.requirements);
      CheapestMeaning(t.offerings, reqs);
      if Candidate(t, reqs, current) {
        assert CanBeSelected(t, Cheapest(t.offerings, reqs).value, reqs, current);
      }
    }
    EmptySelectionBlame(listing, reqs, current, lookups);
  }

  // With current resolved images, a selected type launches its own status entry:
  // the live catalogue is not consulted and image resolution cannot fail.
  lemma GateGuaranteesImage(
      listing: seq<TypeV>, reqs: Requirements, current: seq<ResolvedImage>,
      lookups: Architecture -> Lookup, lookups': Architecture -> Lookup)
    requires current != [] && exists t :: t in listing && Candidate(t, reqs, current)
    ensures var d := Decide(listing, reqs, current, lookups);
      && d.Launch?
      && ResolvedImage(HcloudArchFor(d.choice.itype.requirements), d.imageID) in current
      && d == Decide(listing, reqs, current, lookups')
  {
    ScanFindsLeast(listing, reqs, current);
    var c := Scan(listing, reqs, current).selected.value;
    EntryForMeaning(current, HcloudArchFor(c.itype.requirements));
  }

  // ----- Advertising -----

  function GatedType(t: TypeV, current: seq<ResolvedImage>): TypeV
  {
    if HasResolvedImage(current, HcloudArchFor(t.requirements)) then t
    else t.(offerings := seq(|t.offerings|, j requires 0 <= j < |t.offerings| => t.offerings[j].(available := false)))
  }

  // markImagelessArchesUnavailable.
  function Gated(ts: seq<TypeV>, current: seq<ResolvedImage>): seq<TypeV>
  {
    seq(|ts|, i requires 0 <= i < |ts| => GatedType(ts[i], current))
  }

  // The listing offers o on type t to a claim with these requirements.
  ghost predicate Advertises(ts: seq<TypeV>, reqs: Requirements, t: TypeV, o: OfferingV)
  {
    t in ts && reqs.admitsType(t.requirements) && o in t.offerings && Usable(o, reqs)
  }

  // From one listing, Create selects a type exactly when GetInstanceTypes
  // advertises a usable offering, at no more than any advertised price.
  lemma AdvertiseLaunchAgree(ts: seq<TypeV>, reqs: Requirements, current: seq<ResolvedImage>)
    ensures var s := Scan(ts, reqs, current).selected;
      && (s.Some? <==> exists t, o :: Advertises(Gated(ts, current), reqs, t, o))
      && (s.Some? ==>
            && Advertises(Gated(ts, current), reqs, s.value.itype, s.value.offering)
            && forall t, o :: Advertises(Gated(ts, current), reqs, t, o) ==> s.value.offering.price <= o.price)
  {
    ScanFindsLeast(ts, reqs, current);
    var gated, s := Gated(ts, current), Scan(ts, reqs, current).selected;
    forall t, o | Advertises(gated, reqs, t, o)
      ensures s.Some? && s.value.offering.price <= o.price
    {
      var i :| 0 <= i < |gated| && gated[i] == t;
      assert ts[i] in ts && t == GatedType(ts[i], current);
      assert !HasResolvedImage(current, HcloudArchFor(ts[i].requirements)) ==>
        forall p :: p in t.offerings ==> !p.available;
      CheapestMeaning(t.offerings, reqs);
      assert Candidate(ts[i], reqs, current);
    }
    if s.Some? {
      var t := s.value.itype;
      CheapestMeaning(t.offerings, reqs);
      var i :| 0 <= i < |ts| && ts[i] == t;
      assert gated[i] == t;
      assert Advertises(gated, reqs, t, s.value.offering);
    }
  }

  // The gate clears availability and removes nothing.
  lemma GateKeepsMembership(ts: seq<TypeV>, current: seq<ResolvedImage>, i: nat, j: nat)
    requires i < |ts| && j < |ts[i].offerings|
    ensures var g := Gated(ts, current);
      && |g| == |ts| && g[i].name == ts[i].name && g[i].requirements == ts[i].requirements
      && |g[i].offerings| == |ts[i].offerings|
      && g[i].offerings[j].zone == ts[i].offerings[j].zone && g[i].offerings[j].price == ts[i].offerings[j].price
      && (g[i].offerings[j].available <==>
            && ts[i].offerings[j].available
            && (current == []
                || exists e :: e in current && e.architecture ==
                     if ArchKey in ts[i].requirements && ts[i].requirements[ArchKey] == "arm64" then ARM else X86))
  {
    GateMeaning(current, ts[i].requirements);
  }

  // Through the whole pipeline: what is launched is a priced pricing entry of an
  // hcloud server type, at a positive price, in one of the requested locations.
  lemma LaunchedOfferingIsReal(
      sts: seq<ServerType>, locations: seq<string>, items: map<string, nat>, at: seq<seq<nat>>,
      reqs: Requirements, current: seq<ResolvedImage>)
    requires ShapedLike(at, FilterByLocations(ToTypesV(sts), locations))
    requires Scan(Overlay(FilterByLocations(ToTypesV(sts), locations), items, at), reqs, current).selected.Some?
    ensures
      var c := Scan(Overlay(FilterByLocations(ToTypesV(sts), locations), items, at), reqs, current).selected.value;
      && c.offering.price > 0.0
      && (locations != [] ==> c.offering.zone in locations)
      && exists st, p :: st in sts && PricedBy(st, p, c.itype, c.offering)
  {
    var listing := Overlay(FilterByLocations(ToTypesV(sts), locations), items, at);
    ScanFindsLeast(listing, reqs, current);
    var c := Scan(listing, reqs, current).selected.value;
    CheapestMeaning(c.itype.offerings, reqs);
    AvailableIsPricedAndLocal(sts, locations, items, at, c.itype, c.offering);
  }

  // ----- Capacity fallback -----

  // One Create call in a sequence: the catalogue it was served, when it read the
  // clock for each offering, what it was given, and when it marked the pair if
  // hcloud answered with a capacity error.
  datatype Attempt = Attempt(
    catalogue: seq<TypeV>, locations: seq<string>, at: seq<seq<nat>>, reqs: Requirements,
    current: seq<ResolvedImage>, lookups: Architecture -> Lookup, capacityError: bool, markedAt: nat)

  ghost predicate WellShaped(a: Attempt)
  {
    ShapedLike(a.at, FilterByLocations(a.catalogue, a.locations))
  }

  ghost function Decided(a: Attempt, items: map<string, nat>): Decision
    requires WellShaped(a)
  {
    Decide(Overlay(FilterByLocations(a.catalogue, a.locations), items, a.at), a.reqs, a.current, a.lookups)
  }

  // The history of marks after one call: the pair it chose is marked when hcloud
  // refused it for capacity.
  ghost function MarksAfter(marks: seq<Mark>, a: Attempt, ttl: nat): seq<Mark>
  {
    if WellShaped(a) && a.capacityError && Decided(a, ItemsAfter(marks, ttl)).Launch? then
      var c := Decided(a, ItemsAfter(marks, ttl)).choice;
      marks + [Mark(c.itype.name, c.offering.zone, a.markedAt)]
    else marks
  }

  ghost function Marking(ttl: nat): (seq<Mark>, Attempt) -> seq<Mark>
  {
    (marks, a) => MarksAfter(marks, a, ttl)
  }

  // The history of marks after the calls, each feeding the listings of the later
  // ones, when it stood at before.
  ghost function MarksOf(before: seq<Mark>, attempts: seq<Attempt>, ttl: nat): seq<Mark>
  {
    Fold(Marking(ttl), before, attempts)
  }

  // All within one TTL of start.
  ghost predicate InWindow(attempts: seq<Attempt>, start: nat, ttl: nat)
  {
    && (forall k :: 0 <= k < |attempts| ==> WellShaped(attempts[k]) && start <= attempts[k].markedAt)
    && forall k, i, j :: 0 <= k < |attempts| && 0 <= i < |attempts[k].at| && 0 <= j < |attempts[k].at[i]| ==>
         attempts[k].at[i][j] < start + ttl
  }

  // A mark made in the window hides its pair until the window ends, whatever the
  // map held before.
  lemma {:induction false} MarkedReadsUnavailable(
      before: seq<Mark>, made: seq<Mark>, ttl: nat, start: nat, now: nat, m: Mark)
    requires m in made && now < start + ttl
    requires forall o :: o in made ==> start <= o.at
    ensures ReadsUnavailable(ItemsAfter(before + made, ttl), m.serverType, m.location, now)
  {
    var last, init := made[|made| - 1], made[..|made| - 1];
    assert made == init + [last];
    assert (before + made)[..|before + made| - 1] == before + init;
    if UnavailKey(last.serverType, last.location) != UnavailKey(m.serverType, m.location) {
      MarkedReadsUnavailable(before, init, ttl, start, now, m);
    }
  }

  ghost predicate Pooled(attempts: seq<Attempt>, pool: set<(string, string)>)
  {
    forall k :: 0 <= k < |attempts| ==> CatalogueIn(attempts[k].catalogue, pool)
  }

  ghost predicate CatalogueIn(ts: seq<TypeV>, pool: set<(string, string)>)
  {
    forall t, o :: t in ts && o in t.offerings ==> (t.name, o.zone) in pool
  }

  ghost predicate DistinctPairs(marks: seq<Mark>, pool: set<(string, string)>)
  {
    && (forall i :: 0 <= i < |marks| ==> (marks[i].serverType, marks[i].location) in pool)
    && forall i, j :: 0 <= i < j < |marks| ==>
         (marks[i].serverType, marks[i].location) != (marks[j].serverType, marks[j].location)
  }

  // What was marked since before is of pairs of the pool, no two alike, all after
  // start.
  ghost predicate MarkedSince(before: seq<Mark>, marks: seq<Mark>, start: nat, pool: set<(string, string)>)
  {
    && before <= marks
    && DistinctPairs(marks[|before|..], pool)
    && forall m :: m in marks[|before|..] ==> start <= m.at
  }

  // Each capacity failure of calls inside one window hits a pair of the catalogue
  // that no earlier one hit, whatever the node classes, requirements and images,
  // and whatever was marked before, expired or live.
  lemma {:induction false} FailuresHitNewPairs(
      before: seq<Mark>, attempts: seq<Attempt>, start: nat, ttl: nat, pool: set<(string, string)>)
    requires InWindow(attempts, start, ttl) && Pooled(attempts, pool)
    ensures MarkedSince(before, MarksOf(before, attempts, ttl), start, pool)
  {
    if attempts != [] {
      var init, a := attempts[..|attempts| - 1], attempts[|attempts| - 1];
      WindowFront(attempts, start, ttl, pool);
      FailuresHitNewPairs(before, init, start, ttl, pool);
      FailureHitsNewPair(a, before, MarksOf(before, init, ttl), start, ttl, pool);
    }
  }

  lemma WindowFront(attempts: seq<Attempt>, start: nat, ttl: nat, pool: set<(string, string)>)
    requires attempts != [] && InWindow(attempts, start, ttl) && Pooled(attempts, pool)
    ensures InWindow(attempts[..|attempts| - 1], start, ttl) && Pooled(attempts[..|attempts| - 1], pool)
    ensures var a := attempts[|attempts| - 1];
      && WellShaped(a) && CatalogueIn(a.catalogue, pool) && start <= a.markedAt
      && forall i, j :: 0 <= i < |a.at| && 0 <= j < |a.at[i]| ==> a.at[i][j] < start + ttl
  {
  }

  lemma FailureHitsNewPair(
      a: Attempt, before: seq<Mark>, marks: seq<Mark>, start: nat, ttl: nat, pool: set<(string, string)>)
    requires WellShaped(a) && CatalogueIn(a.catalogue, pool) && start <= a.markedAt
    requires MarkedSince(before, marks, start, pool)
    requires forall i, j :: 0 <= i < |a.at| && 0 <= j < |a.at[i]| ==> a.at[i][j] < start + ttl
    ensures MarkedSince(before, MarksAfter(marks, a, ttl), start, pool)
  {
    var made := marks[|before|..];
    assert marks == before + made;
    var d := Decided(a, ItemsAfter(marks, ttl));
    if d.Launch? && a.capacityError {
      var m := Mark(d.choice.itype.name, d.choice.offering.zone, a.markedAt);
      NewPair(a, before, made, start, ttl, pool);
      DistinctExtends(made, m, pool);
      assert (marks + [m])[|before|..] == made + [m];
    }
  }

  lemma DistinctExtends(marks: seq<Mark>, m: Mark, pool: set<(string, string)>)
    requires DistinctPairs(marks, pool) && (m.serverType, m.location) in pool
    requires forall o :: o in marks ==> (o.serverType, o.location) != (m.serverType, m.location)
    ensures DistinctPairs(marks + [m], pool)
  {
  }

  // What one call selects is in the catalogue and not among the marks made in the
  // window.
  lemma NewPair(a: Attempt, before: seq<Mark>, made: seq<Mark>, start: nat, ttl: nat, pool: set<(string, string)>)
    requires WellShaped(a) && CatalogueIn(a.catalogue, pool)
    requires forall m :: m in made ==> start <= m.at
    requires forall i, j :: 0 <= i < |a.at| && 0 <= j < |a.at[i]| ==> a.at[i][j] < start + ttl
    requires Decided(a, ItemsAfter(before + made, ttl)).Launch?
    ensures var c := Decided(a, ItemsAfter(before + made, ttl)).choice;
      && (c.itype.name, c.offering.zone) in pool
      && forall m :: m in made ==> (m.serverType, m.location) != (c.itype.name, c.offering.zone)
  {
    var items := ItemsAfter(before + made, ttl);
    var filtered := FilterByLocations(a.catalogue, a.locations);
    var listing := Overlay(filtered, items, a.at);
    ScanFindsLeast(listing, a.reqs, a.current);
    var c := Decided(a, items).choice;
    CheapestMeaning(c.itype.offerings, a.reqs);
    ListedOfferingOrigin(a.catalogue, a.locations, items, a.at, c.itype, c.offering);
    var u, p :| u in a.catalogue && Origin(u, p, c.itype, c.offering);
    var i :| 0 <= i < |listing| && listing[i] == c.itype;
    var j :| 0 <= j < |c.itype.offerings| && c.itype.offerings[j] == c.offering;
    assert listing[i] == OverlayType(filtered[i], items, a.at[i]);
    assert !ReadsUnavailable(items, c.itype.name, c.offering.zone, a.at[i][j]);
    forall m | m in made
      ensures (m.serverType, m.location) != (c.itype.name, c.offering.zone)
    {
      MarkedReadsUnavailable(before, made, ttl, start, a.at[i][j], m);
    }
  }

  // So in any run of calls, any stretch of it that fits in one TTL sees at most as
  // many capacity failures as there are pairs, no pair failing twice.
  lemma CapacityFailuresBounded(
      before: seq<Mark>, attempts: seq<Attempt>, lo: nat, hi: nat, start: nat, ttl: nat, pool: set<(string, string)>)
    requires lo <= hi <= |attempts|
    requires InWindow(attempts[lo..hi], start, ttl) && Pooled(attempts[lo..hi], pool)
    ensures var earlier, later := MarksOf(before, attempts[..lo], ttl), MarksOf(before, attempts[..hi], ttl);
      && earlier <= later
      && DistinctPairs(later[|earlier|..], pool)
      && |later| - |earlier| <= |pool|
  {
    var earlier := MarksOf(before, attempts[..lo], ttl);
    assert attempts[..hi] == attempts[..lo] + attempts[lo..hi];
    FoldSplit(Marking(ttl), before, attempts[..lo], attempts[lo..hi]);
    FailuresHitNewPairs(earlier, attempts[lo..hi], start, ttl, pool);
    DistinctFew(MarksOf(before, attempts[..hi], ttl)[|earlier|..], pool);
  }

  lemma DistinctFew(marks: seq<Mark>, pool: set<(string, string)>)
    requires DistinctPairs(marks, pool)
    ensures |marks| <= |pool|
  {
    DistinctBounded(seq(|marks|, i requires 0 <= i < |marks| => (marks[i].serverType, marks[i].location)), pool);
  }
}
