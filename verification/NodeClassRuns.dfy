// A node class over whole runs: spec edits, reconciles that may read any past
// version and whose status may be written late, repeatedly or never, and
// launches that may read any past version.
module NodeClassRuns {
  import opened Basics
  import opened NodeClass
  import opened ImageFamily
  import opened NodeClassController
  import opened Selection
  import C = Catalogue

  // One stored version of the object.
  datatype Version = Version(generation: nat, selector: ImageSelector, status: Status)

  // An image some lookup returned, and what the lookup asked for.
  datatype Found = Found(selector: ImageSelector, arch: Architecture, imageID: int)

  // A launch: the generation Create read, the type's architecture, the image.
  datatype Launched = Launched(generation: nat, serverArch: Architecture, imageID: int)

  datatype World = World(
    selectors: seq<ImageSelector>,   // the selector of generation g is selectors[g - 1]
    versions: seq<Version>,          // every version ever stored, the current one last
    computed: seq<Status>,           // every status a reconcile has computed
    lookups: seq<Found>,
    launches: seq<Launched>)

  datatype Event =
    | EditSpec(selector: ImageSelector)
    | Reconcile(v: nat, checks: Checks, answers: Architecture -> Lookup)
    | WriteStatus(k: nat)
    | LaunchFrom(v: nat, st: C.ServerType, live: Lookup)

  // Each image ID has one architecture.
  ghost predicate Truthful(archOf: int -> Architecture, r: Lookup)
  {
    r.Found? ==> r.image.architecture == archOf(r.image.id)
  }

  ghost predicate Initial(w: World)
  {
    && |w.selectors| == 1 && w.versions == [Version(1, w.selectors[0], EMPTY_STATUS)]
    && w.computed == [] && w.lookups == [] && w.launches == []
  }

  ghost predicate Enabled(archOf: int -> Architecture, w: World, e: Event)
  {
    match e
    case EditSpec(_) => w.versions != []
    case Reconcile(v, _, answers) => v < |w.versions| && forall a :: Truthful(archOf, answers(a))
    case WriteStatus(k) => k < |w.computed| && w.versions != []
    case LaunchFrom(v, _, live) => v < |w.versions| && Truthful(archOf, live)
  }

  function Logged(selector: ImageSelector, a: Architecture, r: Lookup): seq<Found>
  {
    if r.Found? then [Found.Found(selector, a, r.image.id)] else []
  }

  function LaunchArch(st: C.ServerType): Architecture
  {
    C.HcloudArchFor(C.TypeLabels(st))
  }

  // What Create resolves for this version and server type.
  function LaunchImage(v: Version, st: C.ServerType, live: Lookup): ImageResult
  {
    ResolvedImageFor(CurrentImages(v.generation, v.status), LaunchArch(st), live)
  }

  ghost function After(archOf: int -> Architecture, w: World, e: Event): World
    requires Enabled(archOf, w, e)
  {
    match e
    case EditSpec(selector) =>
      var last := w.versions[|w.versions| - 1];
      w.(selectors := w.selectors + [selector],
         versions := w.versions + [Version(last.generation + 1, selector, last.status)])
    case Reconcile(v, checks, answers) =>
      var version := w.versions[v];
      w.(computed := w.computed + [Reconciled(version.status, version.generation, checks, answers)],
         lookups := w.lookups
           + Logged(version.selector, X86, answers(X86)) + Logged(version.selector, ARM, answers(ARM)))
    case WriteStatus(k) =>
      var last := w.versions[|w.versions| - 1];
      w.(versions := w.versions + [last.(status := w.computed[k])])
    case LaunchFrom(v, st, live) =>
      var version := w.versions[v];
      var consulted := EntryFor(CurrentImages(version.generation, version.status), LaunchArch(st)).None?;
      var w' := if consulted then w.(lookups := w.lookups + Logged(version.selector, LaunchArch(st), live)) else w;
      var image := LaunchImage(version, st, live);
      if image.Launchable? then
        w'.(launches := w.launches + [Launched(version.generation, st.architecture, image.imageID)])
      else w'
  }

  ghost predicate ValidRun(archOf: int -> Architecture, w: World, es: seq<Event>)
    decreases |es|
  {
    es == [] || (Enabled(archOf, w, es[0]) && ValidRun(archOf, After(archOf, w, es[0]), es[1..]))
  }

  ghost function Run(archOf: int -> Architecture, w: World, es: seq<Event>): World
    requires ValidRun(archOf, w, es)
    decreases |es|
  {
    if es == [] then w else Run(archOf, After(archOf, w, es[0]), es[1..])
  }

  // ----- The invariant -----

  // The image was returned by a lookup for this architecture with the selector of
  // this generation, and is of this architecture.
  ghost predicate Sourced(archOf: int -> Architecture, w: World, generation: nat, a: Architecture, id: int)
  {
    && 1 <= generation <= |w.selectors|
    && Found.Found(w.selectors[generation - 1], a, id) in w.lookups
    && archOf(id) == a
  }

  // A status whose entries are sourced under the generation its condition
  // records. Entries without a condition would have none to be sourced under.
  ghost predicate GoodStatus(archOf: int -> Architecture, w: World, st: Status)
  {
    && WellListed(st.resolvedImages)
    && (st.resolvedImages != [] ==> Present(st.conditions, ImagesReady))
    && forall e :: e in st.resolvedImages ==>
         Sourced(archOf, w, ObservedGeneration(st.conditions), e.architecture, e.imageID)
  }

  ghost predicate GoodVersion(archOf: int -> Architecture, w: World, v: Version)
  {
    && 1 <= v.generation <= |w.selectors| && v.selector == w.selectors[v.generation - 1]
    && GoodStatus(archOf, w, v.status)
  }

  ghost predicate GoodLaunch(archOf: int -> Architecture, w: World, l: Launched)
  {
    Sourced(archOf, w, l.generation, if l.serverArch == ARM then ARM else X86, l.imageID)
  }

  ghost predicate Inv(archOf: int -> Architecture, w: World)
  {
    && w.versions != [] && w.versions[|w.versions| - 1].generation == |w.selectors|
    && (forall v :: v in w.versions ==> GoodVersion(archOf, w, v))
    && (forall st :: st in w.computed ==> GoodStatus(archOf, w, st))
    && (forall l :: l in w.launches ==> GoodLaunch(archOf, w, l))
  }

  // What was sourced stays sourced as the history grows.
  ghost predicate Grows(w: World, w': World)
  {
    w.selectors <= w'.selectors && forall f :: f in w.lookups ==> f in w'.lookups
  }

  lemma GoodStays(archOf: int -> Architecture, w: World, w': World)
    requires Grows(w, w')
    ensures forall st :: GoodStatus(archOf, w, st) ==> GoodStatus(archOf, w', st)
    ensures forall v :: GoodVersion(archOf, w, v) ==> GoodVersion(archOf, w', v)
    ensures forall l :: GoodLaunch(archOf, w, l) ==> GoodLaunch(archOf, w', l)
  {
  }

  lemma EntriesOfWellListed(es: seq<ResolvedImage>, e: ResolvedImage)
    requires WellListed(es)
    ensures e in es <==>
      || (e.architecture == X86 && EntryFor(es, X86) == Some(e.imageID))
      || (e.architecture == ARM && EntryFor(es, ARM) == Some(e.imageID))
  {
    var x, y := EntryFor(es, X86), EntryFor(es, ARM);
    assert es == Listed(X86, x) + Listed(ARM, y);
    assert e in es <==> e in Listed(X86, x) || e in Listed(ARM, y);
  }

  // A reconcile of any stored version computes a good status. The entries it
  // carries are sourced under the generation it stamps: either the condition says
  // so, or there is no condition and so, in every reachable version, no entry.
  lemma ReconcileComputesGood(archOf: int -> Architecture, w: World, v: Version, p: Pass, w': World)
    requires GoodVersion(archOf, w, v) && p.generation == v.generation && Grows(w, w')
    requires forall a :: Truthful(archOf, p.lookups(a))
    requires forall a, f :: (a == X86 || a == ARM) && f in Logged(v.selector, a, p.lookups(a)) ==> f in w'.lookups
    ensures GoodStatus(archOf, w', Reconciled(v.status, p.generation, p.checks, p.lookups))
  {
    var st' := Reconciled(v.status, p.generation, p.checks, p.lookups);
    PassStampsGeneration(v.status, p.generation, p.checks, p.lookups);
    PassPerArch(v.status, p);
    forall e | e in st'.resolvedImages
      ensures Sourced(archOf, w', p.generation, e.architecture, e.imageID)
    {
      EntriesOfWellListed(st'.resolvedImages, e);
      var a := e.architecture;
      assert Truthful(archOf, p.lookups(a));
      match p.lookups(a)
      case Found(img) =>
        assert Found.Found(v.selector, a, img.id) in Logged(v.selector, a, p.lookups(a));
      case TransientError =>
        EntriesOfWellListed(v.status.resolvedImages, e);
        assert e in v.status.resolvedImages;
      case PermanentError =>
    }
  }

  // The architecture images are looked up under.
  lemma LaunchArchIs(st: C.ServerType)
    ensures LaunchArch(st) == if st.architecture == ARM then ARM else X86
  {
    assert |AMD64| == 5 && |ARM64| == 5 && AMD64[1] == 'm' && ARM64[1] == 'r';
  }

  lemma LaunchIsGood(archOf: int -> Architecture, w: World, v: Version, st: C.ServerType, live: Lookup, w': World)
    requires GoodVersion(archOf, w, v) && Truthful(archOf, live) && Grows(w, w')
    requires EntryFor(CurrentImages(v.generation, v.status), LaunchArch(st)).None? ==>
      forall f :: f in Logged(v.selector, LaunchArch(st), live) ==> f in w'.lookups
    requires LaunchImage(v, st, live).Launchable?
    ensures GoodLaunch(archOf, w', Launched(v.generation, st.architecture, LaunchImage(v, st, live).imageID))
  {
    var a := LaunchArch(st);
    LaunchArchIs(st);
    var current := CurrentImages(v.generation, v.status);
    match EntryFor(current, a)
    case Some(id) =>
      EntryIsListed(current, a);
      assert ResolvedImage(a, id) in v.status.resolvedImages;
    case None =>
      assert live.Found?;
      assert Found.Found(v.selector, a, live.image.id) in Logged(v.selector, a, live);
  }

  lemma EditKeepsInv(archOf: int -> Architecture, w: World, selector: ImageSelector)
    requires Inv(archOf, w)
    ensures Inv(archOf, After(archOf, w, EditSpec(selector)))
  {
    var w' := After(archOf, w, EditSpec(selector));
    GoodStays(archOf, w, w');
    assert w.versions[|w.versions| - 1] in w.versions;
    assert GoodVersion(archOf, w', w'.versions[|w'.versions| - 1]);
    assert forall v :: v in w'.versions ==> v in w.versions || v == w'.versions[|w'.versions| - 1];
  }

  lemma WriteKeepsInv(archOf: int -> Architecture, w: World, k: nat)
    requires Inv(archOf, w) && Enabled(archOf, w, WriteStatus(k))
    ensures Inv(archOf, After(archOf, w, WriteStatus(k)))
  {
    var w' := After(archOf, w, WriteStatus(k));
    GoodStays(archOf, w, w');
    assert w.versions[|w.versions| - 1] in w.versions && w.computed[k] in w.computed;
    assert GoodVersion(archOf, w', w'.versions[|w'.versions| - 1]);
    assert forall v :: v in w'.versions ==> v in w.versions || v == w'.versions[|w'.versions| - 1];
  }

  lemma ReconcileKeepsInv(
      archOf: int -> Architecture, w: World, v: nat, checks: Checks, answers: Architecture -> Lookup)
    requires Inv(archOf, w) && Enabled(archOf, w, Reconcile(v, checks, answers))
    ensures Inv(archOf, After(archOf, w, Reconcile(v, checks, answers)))
  {
    var w' := After(archOf, w, Reconcile(v, checks, answers));
    var version := w.versions[v];
    assert version in w.versions;
    ReconcileComputesGood(archOf, w, version, Pass(version.generation, checks, answers), w');
    HistoryKeepsInv(archOf, w, w');
  }

  // Computing a good status or making a good launch, versions untouched.
  lemma HistoryKeepsInv(archOf: int -> Architecture, w: World, w': World)
    requires Inv(archOf, w) && Grows(w, w')
    requires w'.versions == w.versions && w'.selectors == w.selectors
    requires forall st :: st in w'.computed ==> st in w.computed || GoodStatus(archOf, w', st)
    requires forall l :: l in w'.launches ==> l in w.launches || GoodLaunch(archOf, w', l)
    ensures Inv(archOf, w')
  {
    GoodStays(archOf, w, w');
  }

  lemma LaunchKeepsInv(archOf: int -> Architecture, w: World, v: nat, st: C.ServerType, live: Lookup)
    requires Inv(archOf, w) && Enabled(archOf, w, LaunchFrom(v, st, live))
    ensures Inv(archOf, After(archOf, w, LaunchFrom(v, st, live)))
  {
    var w' := After(archOf, w, LaunchFrom(v, st, live));
    assert w.versions[v] in w.versions;
    if LaunchImage(w.versions[v], st, live).Launchable? {
      LaunchIsGood(archOf, w, w.versions[v], st, live, w');
    }
    HistoryKeepsInv(archOf, w, w');
  }

  lemma StepKeepsInv(archOf: int -> Architecture, w: World, e: Event)
    requires Inv(archOf, w) && Enabled(archOf, w, e)
    ensures Inv(archOf, After(archOf, w, e))
  {
    match e
    case EditSpec(selector) => EditKeepsInv(archOf, w, selector);
    case Reconcile(v, checks, answers) => ReconcileKeepsInv(archOf, w, v, checks, answers);
    case WriteStatus(k) => WriteKeepsInv(archOf, w, k);
    case LaunchFrom(v, st, live) => LaunchKeepsInv(archOf, w, v, st, live);
  }

  lemma {:induction false} RunKeepsInv(archOf: int -> Architecture, w: World, es: seq<Event>)
    requires Inv(archOf, w) && ValidRun(archOf, w, es)
    ensures Inv(archOf, Run(archOf, w, es))
    decreases |es|
  {
    if es != [] {
      StepKeepsInv(archOf, w, es[0]);
      RunKeepsInv(archOf, After(archOf, w, es[0]), es[1..]);
    }
  }

  lemma InitialInv(archOf: int -> Architecture, w: World)
    requires Initial(w)
    ensures Inv(archOf, w)
  {
  }

  // ----- Safety over whole runs -----

  lemma LaunchesAreGood(archOf: int -> Architecture, w0: World, es: seq<Event>, l: Launched)
    requires Initial(w0) && ValidRun(archOf, w0, es)
    requires l in Run(archOf, w0, es).launches
    ensures GoodLaunch(archOf, Run(archOf, w0, es), l)
  {
    InitialInv(archOf, w0);
    RunKeepsInv(archOf, w0, es);
  }

  lemma SourcedLaunch(archOf: int -> Architecture, w: World, l: Launched)
    requires GoodLaunch(archOf, w, l)
    ensures 1 <= l.generation <= |w.selectors|
    ensures exists f :: f in w.lookups && f.selector == w.selectors[l.generation - 1] && f.imageID == l.imageID
  {
    var a := if l.serverArch == ARM then ARM else X86;
    var f := Found.Found(w.selectors[l.generation - 1], a, l.imageID);
    assert f in w.lookups && f.selector == w.selectors[l.generation - 1] && f.imageID == l.imageID;
  }

  // Every image launched was returned by a lookup made with the image selector of
  // the very generation Create read, however often it was carried forward.
  lemma GenerationSafety(archOf: int -> Architecture, w0: World, es: seq<Event>, l: Launched)
    requires Initial(w0) && ValidRun(archOf, w0, es)
    requires l in Run(archOf, w0, es).launches
    ensures var w := Run(archOf, w0, es);
      && 1 <= l.generation <= |w.selectors|
      && exists f :: f in w.lookups && f.selector == w.selectors[l.generation - 1] && f.imageID == l.imageID
  {
    LaunchesAreGood(archOf, w0, es, l);
    SourcedLaunch(archOf, Run(archOf, w0, es), l);
  }

  // Every server launched has an image of its own architecture, for the two
  // architectures hcloud has; a server type of any other would get an x86 image.
  lemma ArchitectureSafety(archOf: int -> Architecture, w0: World, es: seq<Event>, l: Launched)
    requires Initial(w0) && ValidRun(archOf, w0, es)
    requires l in Run(archOf, w0, es).launches
    ensures archOf(l.imageID) == l.serverArch <==> l.serverArch == X86 || l.serverArch == ARM
    ensures l.serverArch.OtherArch? ==> archOf(l.imageID) == X86
  {
    LaunchesAreGood(archOf, w0, es, l);
  }

  // Every entry of every stored status is filed under its image's architecture.
  lemma StatusArchitectures(archOf: int -> Architecture, w0: World, es: seq<Event>, v: nat, e: ResolvedImage)
    requires Initial(w0) && ValidRun(archOf, w0, es)
    requires v < |Run(archOf, w0, es).versions| && e in Run(archOf, w0, es).versions[v].status.resolvedImages
    ensures archOf(e.imageID) == e.architecture
    ensures OnePerArch(Run(archOf, w0, es).versions[v].status.resolvedImages)
  {
    InitialInv(archOf, w0);
    RunKeepsInv(archOf, w0, es);
    var version := Run(archOf, w0, es).versions[v];
    assert GoodVersion(archOf, Run(archOf, w0, es), version);
    var entries := version.status.resolvedImages;
    ListedEntries(EntryFor(entries, X86), EntryFor(entries, ARM));
  }

  // Why the safety needs the reachable fact that entries come with a condition:
  // from a status with entries and no ImagesReady condition, a pass in which the
  // catalogue is unreadable keeps the entry and stamps it current, whatever
  // selector it was resolved under.
  lemma UnconditionedEntriesWouldBeTrusted(id: int, generation: nat, checks: Checks)
    ensures var st := Status([], [ResolvedImage(X86, id)]);
      var st' := Reconciled(st, generation, checks, _ => TransientError);
      CurrentImages(generation, st') == [ResolvedImage(X86, id)]
  {
    var st := Status([], [ResolvedImage(X86, id)]);
    var lookups: Architecture -> Lookup := _ => TransientError;
    PassStampsGeneration(st, generation, checks, lookups);
    PassMeaning(st, generation, checks, lookups);
    SingleEntry(ResolvedImage(X86, id));
    assert !Present(st.conditions, ImagesReady);
    assert Kept(X86, st, generation, TransientError) == Some(id);
    assert Kept(ARM, st, generation, TransientError) == None;
    assert Listed(X86, Some(id)) + Listed(ARM, None) == [ResolvedImage(X86, id)];
  }

  // The launches of a run cover Create: whatever it decides to launch from a real
  // listing, reading this version, is the launch of a server type of that listing.
  lemma CreateIsALaunch(
      v: Version, sts: seq<C.ServerType>, locations: seq<string>, items: map<string, nat>, at: seq<seq<nat>>,
      reqs: Requirements, lookups: Architecture -> Lookup)
    requires C.ShapedLike(at, C.FilterByLocations(C.ToTypesV(sts), locations))
    requires Decide(C.Overlay(C.FilterByLocations(C.ToTypesV(sts), locations), items, at), reqs,
      CurrentImages(v.generation, v.status), lookups).Launch?
    ensures
      var d := Decide(C.Overlay(C.FilterByLocations(C.ToTypesV(sts), locations), items, at), reqs,
        CurrentImages(v.generation, v.status), lookups);
      exists st :: st in sts && st.name == d.choice.itype.name
        && LaunchImage(v, st, lookups(LaunchArch(st))) == Launchable(d.imageID)
  {
    var current := CurrentImages(v.generation, v.status);
    LaunchedOfferingIsReal(sts, locations, items, at, reqs, current);
    var c := Scan(C.Overlay(C.FilterByLocations(C.ToTypesV(sts), locations), items, at), reqs, current).selected.value;
    var st, p :| st in sts && C.PricedBy(st, p, c.itype, c.offering);
    assert LaunchArch(st) == C.HcloudArchFor(c.itype.requirements);
  }
}
