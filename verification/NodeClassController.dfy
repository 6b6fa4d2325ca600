// The nodeclass status controller: one reconcile pass, as heap code over the
// object and as a function on its status.
module NodeClassController {
  import opened Basics
  import opened NodeClass
  import opened ImageFamily

  // Outcome of validating the network, the firewalls and SSH keys, or the
  // userData Secret.
  datatype Check = Passed | Missing(reason: string) | Unknown(reason: string)

  datatype Checks = Checks(network: Check, resources: Check, userData: Check)

  datatype ImageResolution =
    | ResolvedTo(arch: Architecture, imageID: int)
    | Transient(arch: Architecture)
    | Definitive(arch: Architecture)

  // Why a condition has its status; the error text is not kept.
  const NO_REASON: string := ""
  const ERRORED: string := "ImageResolutionErrored"
  const FAILED: string := "ImageResolutionFailed"

  const ARCHS: seq<Architecture> := [X86, ARM]

  // ----- One pass on values -----

  // An image counts only under the architecture that was asked for.
  function Classify(arch: Architecture, r: Lookup): ImageResolution
  {
    match r
    case TransientError => Transient(arch)
    case PermanentError => Definitive(arch)
    case Found(img) => if img.architecture != arch then Definitive(arch) else ResolvedTo(arch, img.id)
  }

  function Resolutions(archs: seq<Architecture>, lookups: Architecture -> Lookup): seq<ImageResolution>
  {
    seq(|archs|, i requires 0 <= i < |archs| => Classify(archs[i], lookups(archs[i])))
  }

  function PrevMap(entries: seq<ResolvedImage>): map<Architecture, int>
  {
    if entries == [] then map[]
    else
      var e := entries[|entries| - 1];
      PrevMap(entries[..|entries| - 1])[e.architecture := e.imageID]
  }

  // The entry one resolution contributes, if any.
  function Contribution(prev: map<Architecture, int>, r: ImageResolution): seq<ResolvedImage>
  {
    match r
    case ResolvedTo(a, id) => [ResolvedImage(a, id)]
    case Transient(a) => if a in prev then [ResolvedImage(a, prev[a])] else []
    case Definitive(_) => []
  }

  function Merge(prev: map<Architecture, int>, rs: seq<ImageResolution>): seq<ResolvedImage>
  {
    if rs == [] then [] else Merge(prev, rs[..|rs| - 1]) + Contribution(prev, rs[|rs| - 1])
  }

  function Checked(cs: seq<Condition>, generation: nat, t: ConditionType, c: Check): seq<Condition>
  {
    match c
    case Passed => Written(cs, generation, t, CondTrue, NO_REASON)
    case Missing(reason) => Written(cs, generation, t, CondFalse, reason)
    case Unknown(reason) => Written(cs, generation, t, CondUnknown, reason)
  }

  // The conditions as they stand when the images are looked up.
  function ChecksWritten(cs: seq<Condition>, generation: nat, checks: Checks): seq<Condition>
  {
    Checked(Checked(Checked(cs, generation, NetworkReady, checks.network),
      generation, ResourcesReady, checks.resources), generation, UserDataReady, checks.userData)
  }

  // Entries of another generation answer a question no longer asked.
  function CarriedForward(cs: seq<Condition>, generation: nat, entries: seq<ResolvedImage>): seq<ResolvedImage>
  {
    if ObservedGeneration(cs) != generation then [] else entries
  }

  function Concluded(cs: seq<Condition>, generation: nat, resolved: seq<ResolvedImage>, transient: bool): Status
  {
    if |resolved| > 0 then Status(Written(cs, generation, ImagesReady, CondTrue, NO_REASON), resolved)
    else if transient then Status(Written(cs, generation, ImagesReady, CondUnknown, ERRORED), [])
    else Status(Written(cs, generation, ImagesReady, CondFalse, FAILED), [])
  }

  predicate AnyTransient(rs: seq<ImageResolution>)
  {
    exists r :: r in rs && r.Transient?
  }

  function Reconciled(st: Status, generation: nat, checks: Checks, lookups: Architecture -> Lookup): Status
  {
    var cs := ChecksWritten(st.conditions, generation, checks);
    var prev := PrevMap(CarriedForward(cs, generation, st.resolvedImages));
    var rs := Resolutions(ARCHS, lookups);
    Concluded(cs, generation, Merge(prev, rs), AnyTransient(rs))
  }

  // ----- One pass on the heap -----

  method SetChecked(nc: HCloudNodeClass, t: ConditionType, c: Check)
    modifies nc`conditions
    ensures nc.conditions == Checked(old(nc.conditions), nc.generation, t, c)
  {
    match c
    case Unknown(reason) => nc.Set(t, CondUnknown, reason);
    case Missing(reason) => nc.Set(t, CondFalse, reason);
    case Passed => nc.Set(t, CondTrue, NO_REASON);
  }

  method ResolveImages(lookups: Architecture -> Lookup) returns (out: seq<ImageResolution>)
    ensures out == Resolutions(ARCHS, lookups)
  {
    out := [];
    for i := 0 to |ARCHS|
      invariant |out| == i && forall k :: 0 <= k < i ==> out[k] == Classify(ARCHS[k], lookups(ARCHS[k]))
    {
      var arch := ARCHS[i];
      match lookups(arch)
      case TransientError => out := out + [Transient(arch)];
      case PermanentError => out := out + [Definitive(arch)];
      case Found(img) =>
        out := out + [if img.architecture != arch then Definitive(arch) else ResolvedTo(arch, img.id)];
    }
  }

  method IndexByArchitecture(entries: seq<ResolvedImage>) returns (prev: map<Architecture, int>)
    ensures prev == PrevMap(entries)
  {
    prev := map[];
    for i := 0 to |entries|
      invariant prev == PrevMap(entries[..i])
    {
      assert entries[..i + 1][..i] == entries[..i];
      prev := prev[entries[i].architecture := entries[i].imageID];
    }
    assert entries[..|entries|] == entries;
  }

  lemma TransientStep(rs: seq<ImageResolution>, r: ImageResolution)
    ensures AnyTransient(rs + [r]) <==> AnyTransient(rs) || r.Transient?
  {
    assert (rs + [r])[|rs|] == r && forall k :: 0 <= k < |rs| ==> (rs + [r])[k] == rs[k];
  }

  // The loop that merges this pass with what status already holds.
  method MergeResolutions(prev: map<Architecture, int>, rs: seq<ImageResolution>)
    returns (resolved: seq<ResolvedImage>, transientErrs: nat, definitiveErrs: nat)
    ensures resolved == Merge(prev, rs)
    ensures transientErrs > 0 <==> AnyTransient(rs)
  {
    resolved, transientErrs, definitiveErrs := [], 0, 0;
    for i := 0 to |rs|
      invariant resolved == Merge(prev, rs[..i])
      invariant transientErrs > 0 <==> AnyTransient(rs[..i])
    {
      assert rs[..i + 1][..i] == rs[..i] && rs[..i + 1] == rs[..i] + [rs[i]];
      TransientStep(rs[..i], rs[i]);
      match rs[i]
      case ResolvedTo(a, id) => resolved := resolved + [ResolvedImage(a, id)];
      case Transient(a) =>
        transientErrs := transientErrs + 1;
        if a in prev {
          resolved := resolved + [ResolvedImage(a, prev[a])];
        }
      case Definitive(_) => definitiveErrs := definitiveErrs + 1;
    }
    assert rs[..|rs|] == rs;
  }

  // Returns whether the status changed and so is written back.
  method Reconcile(nc: HCloudNodeClass, checks: Checks, lookups: Architecture -> Lookup) returns (write: bool)
    modifies nc`conditions, nc`resolvedImages
    ensures nc.StatusView() == Reconciled(old(nc.StatusView()), nc.generation, checks, lookups)
    ensures write <==> nc.StatusView() != old(nc.StatusView())
  {
    var stored := Status(nc.conditions, nc.resolvedImages);
    SetChecked(nc, NetworkReady, checks.network);
    SetChecked(nc, ResourcesReady, checks.resources);
    SetChecked(nc, UserDataReady, checks.userData);

    var g := nc.ResolvedImagesGeneration();
    if g != nc.generation {
      nc.resolvedImages := [];
    }
    var prev := IndexByArchitecture(nc.resolvedImages);
    var rs := ResolveImages(lookups);
    var resolved, transientErrs, definitiveErrs := MergeResolutions(prev, rs);
    if |resolved| > 0 {
      nc.resolvedImages := resolved;
      nc.Set(ImagesReady, CondTrue, NO_REASON);
    } else if transientErrs > 0 {
      nc.resolvedImages := [];
      nc.Set(ImagesReady, CondUnknown, ERRORED);
    } else {
      nc.resolvedImages := [];
      nc.Set(ImagesReady, CondFalse, FAILED);
    }
    write := Status(nc.conditions, nc.resolvedImages) != stored;
  }

  // ----- What a pass means -----

  ghost predicate OnePerArch(entries: seq<ResolvedImage>)
  {
    forall i, j :: 0 <= i < j < |entries| ==> entries[i].architecture != entries[j].architecture
  }

  // The entries the pass may carry forward: those of a status whose ImagesReady
  // condition is of this generation, or that has none at all.
  predicate Carries(st: Status, generation: nat)
  {
    !Present(st.conditions, ImagesReady) || ObservedGeneration(st.conditions) == generation
  }

  // What one architecture is left with.
  function Kept(a: Architecture, st: Status, generation: nat, r: Lookup): Option<int>
  {
    match Classify(a, r)
    case ResolvedTo(_, id) => Some(id)
    case Definitive(_) => None
    case Transient(_) =>
      if Carries(st, generation) && a in PrevMap(st.resolvedImages) then Some(PrevMap(st.resolvedImages)[a]) else None
  }

  lemma ChecksKeepGeneration(cs: seq<Condition>, generation: nat, checks: Checks)
    ensures ObservedGeneration(ChecksWritten(cs, generation, checks)) ==
      if Present(cs, ImagesReady) then ObservedGeneration(cs) else generation
  {
    CheckKeepsGeneration(cs, generation, NetworkReady, checks.network);
    var c1 := Checked(cs, generation, NetworkReady, checks.network);
    CheckKeepsGeneration(c1, generation, ResourcesReady, checks.resources);
    var c2 := Checked(c1, generation, ResourcesReady, checks.resources);
    CheckKeepsGeneration(c2, generation, UserDataReady, checks.userData);
  }

  lemma CheckKeepsGeneration(cs: seq<Condition>, generation: nat, t: ConditionType, c: Check)
    requires t != ImagesReady
    ensures var cs' := Checked(cs, generation, t, c);
      Present(cs', ImagesReady)
      && ObservedGeneration(cs') == if Present(cs, ImagesReady) then ObservedGeneration(cs) else generation
  {
    match c
    case Passed => WrittenGeneration(cs, generation, t, CondTrue, NO_REASON);
    case Missing(reason) => WrittenGeneration(cs, generation, t, CondFalse, reason);
    case Unknown(reason) => WrittenGeneration(cs, generation, t, CondUnknown, reason);
  }

  function Listed(a: Architecture, id: Option<int>): seq<ResolvedImage>
  {
    if id.Some? then [ResolvedImage(a, id.value)] else []
  }

  lemma ConcludedMeaning(cs: seq<Condition>, generation: nat, resolved: seq<ResolvedImage>, transient: bool)
    ensures var st := Concluded(cs, generation, resolved, transient);
      && st.resolvedImages == resolved
      && Present(st.conditions, ImagesReady) && ObservedGeneration(st.conditions) == generation
  {
    WrittenGeneration(cs, generation, ImagesReady, CondTrue, NO_REASON);
    WrittenGeneration(cs, generation, ImagesReady, CondUnknown, ERRORED);
    WrittenGeneration(cs, generation, ImagesReady, CondFalse, FAILED);
  }

  // Every pass stamps its status with the generation it ran under.
  lemma PassStampsGeneration(st: Status, generation: nat, checks: Checks, lookups: Architecture -> Lookup)
    ensures var st' := Reconciled(st, generation, checks, lookups);
      Present(st'.conditions, ImagesReady) && ObservedGeneration(st'.conditions) == generation
  {
    var cs := ChecksWritten(st.conditions, generation, checks);
    var rs := Resolutions(ARCHS, lookups);
    var prev := PrevMap(CarriedForward(cs, generation, st.resolvedImages));
    ConcludedMeaning(cs, generation, Merge(prev, rs), AnyTransient(rs));
  }

  // A pass leaves exactly what each architecture keeps, x86 first. In particular
  // entries whose condition is of another generation are never carried, and those
  // without any condition are.
  lemma PassMeaning(st: Status, generation: nat, checks: Checks, lookups: Architecture -> Lookup)
    ensures Reconciled(st, generation, checks, lookups).resolvedImages ==
      Listed(X86, Kept(X86, st, generation, lookups(X86))) + Listed(ARM, Kept(ARM, st, generation, lookups(ARM)))
  {
    ChecksKeepGeneration(st.conditions, generation, checks);
    var cs := ChecksWritten(st.conditions, generation, checks);
    var rs := Resolutions(ARCHS, lookups);
    var carried := CarriedForward(cs, generation, st.resolvedImages);
    assert carried == if Carries(st, generation) then st.resolvedImages else [];
    MergeTwo(PrevMap(carried), rs);
    ConcludedMeaning(cs, generation, Merge(PrevMap(carried), rs), AnyTransient(rs));
    assert rs[0] == Classify(X86, lookups(X86)) && rs[1] == Classify(ARM, lookups(ARM));
    assert Contribution(PrevMap(carried), rs[0]) == Listed(X86, Kept(X86, st, generation, lookups(X86)));
    assert Contribution(PrevMap(carried), rs[1]) == Listed(ARM, Kept(ARM, st, generation, lookups(ARM)));
  }

  lemma MergeTwo(prev: map<Architecture, int>, rs: seq<ImageResolution>)
    requires |rs| == 2
    ensures Merge(prev, rs) == Contribution(prev, rs[0]) + Contribution(prev, rs[1])
  {
    assert rs[..1][..0] == [] && rs[..1][0] == rs[0];
    assert Merge(prev, rs[..1]) == Merge(prev, []) + Contribution(prev, rs[0]);
  }

  // What the entries say about each architecture, read either way.
  ghost predicate Reads(es: seq<ResolvedImage>, x: Option<int>, y: Option<int>)
  {
    && OnePerArch(es)
    && EntryFor(es, X86) == x && EntryFor(es, ARM) == y
    && PrevReads(PrevMap(es), X86, x) && PrevReads(PrevMap(es), ARM, y)
  }

  predicate PrevReads(prev: map<Architecture, int>, a: Architecture, x: Option<int>)
  {
    match x
    case None => a !in prev
    case Some(id) => a in prev && prev[a] == id
  }

  lemma ListedEntries(x: Option<int>, y: Option<int>)
    ensures Reads(Listed(X86, x) + Listed(ARM, y), x, y)
  {
    match (x, y)
    case (None, None) => NoEntry();
    case (Some(i), None) => OneEntry(X86, i);
    case (None, Some(j)) => OneEntry(ARM, j);
    case (Some(i), Some(j)) => TwoEntries(i, j);
  }

  lemma NoEntry()
    ensures Reads(Listed(X86, None) + Listed(ARM, None), None, None)
  {
    assert Listed(X86, None) + Listed(ARM, None) == [];
  }

  lemma OneEntry(a: Architecture, id: int)
    requires a == X86 || a == ARM
    ensures a == X86 ==> Reads(Listed(X86, Some(id)) + Listed(ARM, None), Some(id), None)
    ensures a == ARM ==> Reads(Listed(X86, None) + Listed(ARM, Some(id)), None, Some(id))
  {
    var e := ResolvedImage(a, id);
    SingleEntry(e);
    assert a == X86 ==> Listed(X86, Some(id)) + Listed(ARM, None) == [e];
    assert a == ARM ==> Listed(X86, None) + Listed(ARM, Some(id)) == [e];
  }

  lemma SingleEntry(e: ResolvedImage)
    ensures PrevMap([e]) == map[e.architecture := e.imageID]
    ensures forall a :: EntryFor([e], a) == if e.architecture == a then Some(e.imageID) else None
  {
    assert [e][..0] == [] && [e][1..] == [];
  }

  lemma TwoEntries(i: int, j: int)
    ensures Reads(Listed(X86, Some(i)) + Listed(ARM, Some(j)), Some(i), Some(j))
  {
    var e, f := ResolvedImage(X86, i), ResolvedImage(ARM, j);
    SingleEntry(e);
    SingleEntry(f);
    assert [e, f][..1] == [e] && [e, f][1..] == [f];
    assert PrevMap([e, f]) == PrevMap([e])[ARM := j];
    assert EntryFor([e, f], ARM) == EntryFor([f], ARM);
    assert Listed(X86, Some(i)) + Listed(ARM, Some(j)) == [e, f];
  }

  // ----- Per-architecture registers over a run -----

  datatype Pass = Pass(generation: nat, checks: Checks, lookups: Architecture -> Lookup)

  function StatusAfter(passes: seq<Pass>): Status
  {
    if passes == [] then EMPTY_STATUS
    else
      var p := passes[|passes| - 1];
      Reconciled(StatusAfter(passes[..|passes| - 1]), p.generation, p.checks, p.lookups)
  }

  // One architecture on its own: a register that an image found sets, a definitive
  // answer clears, and an unreadable catalogue leaves alone within a generation.
  datatype Register = Register(generation: nat, id: Option<int>)

  function NextId(a: Architecture, previous: Option<int>, carries: bool, r: Lookup): Option<int>
  {
    match Classify(a, r)
    case ResolvedTo(_, id) => Some(id)
    case Definitive(_) => None
    case Transient(_) => if carries then previous else None
  }

  function RegisterAfter(a: Architecture, passes: seq<Pass>): Register
  {
    if passes == [] then Register(0, None)
    else
      var r := RegisterAfter(a, passes[..|passes| - 1]);
      var p := passes[|passes| - 1];
      Register(p.generation, NextId(a, r.id, r.generation == p.generation, p.lookups(a)))
  }

  // The list holds at most one entry for x86 and one for ARM, in that order, and
  // no other.
  ghost predicate WellListed(es: seq<ResolvedImage>)
  {
    es == Listed(X86, EntryFor(es, X86)) + Listed(ARM, EntryFor(es, ARM))
  }

  lemma PassPerArch(st: Status, p: Pass)
    requires WellListed(st.resolvedImages)
    ensures var es := Reconciled(st, p.generation, p.checks, p.lookups).resolvedImages;
      && WellListed(es) && OnePerArch(es)
      && EntryFor(es, X86) == NextId(X86, EntryFor(st.resolvedImages, X86), Carries(st, p.generation), p.lookups(X86))
      && EntryFor(es, ARM) == NextId(ARM, EntryFor(st.resolvedImages, ARM), Carries(st, p.generation), p.lookups(ARM))
  {
    PassMeaning(st, p.generation, p.checks, p.lookups);
    ListedEntries(EntryFor(st.resolvedImages, X86), EntryFor(st.resolvedImages, ARM));
    KeptIsNext(X86, st, p.generation, p.lookups(X86));
    KeptIsNext(ARM, st, p.generation, p.lookups(ARM));
    var x, y := Kept(X86, st, p.generation, p.lookups(X86)), Kept(ARM, st, p.generation, p.lookups(ARM));
    ListedEntries(x, y);
    ReadsWellListed(Listed(X86, x) + Listed(ARM, y), x, y);
  }

  lemma KeptIsNext(a: Architecture, st: Status, g: nat, r: Lookup)
    requires PrevReads(PrevMap(st.resolvedImages), a, EntryFor(st.resolvedImages, a))
    ensures Kept(a, st, g, r) == NextId(a, EntryFor(st.resolvedImages, a), Carries(st, g), r)
  {
  }

  lemma ReadsWellListed(es: seq<ResolvedImage>, x: Option<int>, y: Option<int>)
    requires es == Listed(X86, x) + Listed(ARM, y) && Reads(es, x, y)
    ensures WellListed(es) && OnePerArch(es) && EntryFor(es, X86) == x && EntryFor(es, ARM) == y
  {
  }

  // Over any run of passes, under any sequence of generations, the merged list is
  // the two registers side by side.
  lemma {:induction false} MergeIsTwoRegisters(passes: seq<Pass>)
    ensures var st := StatusAfter(passes);
      && WellListed(st.resolvedImages) && OnePerArch(st.resolvedImages)
      && EntryFor(st.resolvedImages, X86) == RegisterAfter(X86, passes).id
      && EntryFor(st.resolvedImages, ARM) == RegisterAfter(ARM, passes).id
      && (passes == [] || Present(st.conditions, ImagesReady))
      && ObservedGeneration(st.conditions) == RegisterAfter(X86, passes).generation
  {
    if passes != [] {
      var p, init := passes[|passes| - 1], passes[..|passes| - 1];
      MergeIsTwoRegisters(init);
      PassPerArch(StatusAfter(init), p);
      PassStampsGeneration(StatusAfter(init), p.generation, p.checks, p.lookups);
      assert init == [] ==> StatusAfter(init) == EMPTY_STATUS;
      SameGenerations(init);
    }
  }

  lemma SameGenerations(passes: seq<Pass>)
    ensures RegisterAfter(X86, passes).generation == RegisterAfter(ARM, passes).generation
  {
  }

  // The last word on an architecture: an image found at pass k, under the right
  // architecture, that every later pass of the same generation could only not
  // confirm because the catalogue was unreadable.
  ghost predicate LastWord(passes: seq<Pass>, a: Architecture, id: int, k: nat)
  {
    && k < |passes|
    && Classify(a, passes[k].lookups(a)) == ResolvedTo(a, id)
    && forall l :: k < l < |passes| ==>
         passes[l].generation == passes[k].generation && passes[l].lookups(a).TransientError?
  }

  lemma LastWordExtends(passes: seq<Pass>, p: Pass, a: Architecture, id: int, k: nat)
    requires k < |passes|
    ensures LastWord(passes + [p], a, id, k) <==>
      LastWord(passes, a, id, k) && p.lookups(a).TransientError? && passes[|passes| - 1].generation == p.generation
  {
    var all, n := passes + [p], |passes|;
    assert all[n] == p && forall l :: 0 <= l < n ==> all[l] == passes[l];
    assert LastWord(all, a, id, k) ==> all[n - 1].generation == all[k].generation == all[n].generation;
    assert LastWord(passes, a, id, k) ==> passes[n - 1].generation == passes[k].generation;
  }

  lemma {:induction false} RegisterGeneration(a: Architecture, passes: seq<Pass>)
    ensures RegisterAfter(a, passes).generation == if passes == [] then 0 else passes[|passes| - 1].generation
  {
  }

  // What a register holds, without running it.
  lemma {:induction false} RegisterIsLastWord(a: Architecture, passes: seq<Pass>, id: int)
    ensures RegisterAfter(a, passes).id == Some(id) <==> exists k: nat :: LastWord(passes, a, id, k)
  {
    if passes != [] {
      var p, init := passes[|passes| - 1], passes[..|passes| - 1];
      RegisterIsLastWord(a, init, id);
      RegisterLastWordStep(a, init, p, id);
      assert passes == init + [p];
    }
  }

  lemma RegisterLastWordStep(a: Architecture, passes: seq<Pass>, p: Pass, id: int)
    requires RegisterAfter(a, passes).id == Some(id) <==> exists k: nat :: LastWord(passes, a, id, k)
    ensures RegisterAfter(a, passes + [p]).id == Some(id) <==> exists k: nat :: LastWord(passes + [p], a, id, k)
  {
    RegisterGeneration(a, passes);
    LastWordStep(passes, p, a, id);
    RegisterStep(a, passes, p);
  }

  lemma RegisterStep(a: Architecture, passes: seq<Pass>, p: Pass)
    ensures var r := RegisterAfter(a, passes);
      RegisterAfter(a, passes + [p]) ==
        Register(p.generation, NextId(a, r.id, r.generation == p.generation, p.lookups(a)))
  {
    assert (passes + [p])[..|passes + [p]| - 1] == passes;
  }

  lemma LastWordStep(passes: seq<Pass>, p: Pass, a: Architecture, id: int)
    ensures (exists k: nat :: LastWord(passes + [p], a, id, k)) <==>
      || Classify(a, p.lookups(a)) == ResolvedTo(a, id)
      || (p.lookups(a).TransientError? && passes != [] && passes[|passes| - 1].generation == p.generation
          && exists k: nat :: LastWord(passes, a, id, k))
  {
    var n := |passes|;
    if k: nat :| LastWord(passes + [p], a, id, k) {
      if k < n { LastWordExtends(passes, p, a, id, k); }
    }
    if k: nat :| LastWord(passes, a, id, k) {
      LastWordExtends(passes, p, a, id, k);
    }
    assert Classify(a, p.lookups(a)) == ResolvedTo(a, id) <==> LastWord(passes + [p], a, id, n);
  }

  // ----- Repeating a pass -----

  // Every condition of c's type is c, and there is one.
  ghost predicate Holds(cs: seq<Condition>, c: Condition)
  {
    Present(cs, c.ctype) && forall i :: 0 <= i < |cs| && cs[i].ctype == c.ctype ==> cs[i] == c
  }

  ghost predicate Complete(cs: seq<Condition>)
  {
    forall u :: Present(cs, u)
  }

  lemma WrittenHolds(cs: seq<Condition>, g: nat, c: Condition)
    requires c.observedGeneration == g
    ensures var cs' := Written(cs, g, c.ctype, c.status, c.reason);
      Holds(cs', c) && Complete(cs')
  {
    var init := Initialised(cs, g);
    InitialisedGeneration(cs, g, DEPENDENTS);
    SetConditionGeneration(init, c);
    forall u
      ensures Present(SetCondition(init, c), u)
    {
      FourDependents(u);
    }
  }

  lemma WrittenKeeps(cs: seq<Condition>, g: nat, c: Condition, d: Condition)
    requires c.observedGeneration == g && c.ctype != d.ctype && Complete(cs) && Holds(cs, d)
    ensures Holds(Written(cs, g, c.ctype, c.status, c.reason), d)
  {
    InitialisedKeeps(cs, g, DEPENDENTS);
    SetConditionGeneration(cs, c);
  }

  lemma WrittenAgain(cs: seq<Condition>, g: nat, c: Condition)
    requires c.observedGeneration == g && Complete(cs) && Holds(cs, c)
    ensures Written(cs, g, c.ctype, c.status, c.reason) == cs
  {
    InitialisedKeeps(cs, g, DEPENDENTS);
  }

  lemma {:induction false} InitialisedKeeps(cs: seq<Condition>, g: nat, types: seq<ConditionType>)
    requires Complete(cs)
    ensures InitialisedFrom(cs, g, types) == cs
  {
    if types != [] {
      InitialisedKeeps(cs, g, types[..|types| - 1]);
    }
  }

  function CheckCondition(g: nat, t: ConditionType, c: Check): Condition
  {
    match c
    case Passed => Condition(t, CondTrue, NO_REASON, g)
    case Missing(reason) => Condition(t, CondFalse, reason, g)
    case Unknown(reason) => Condition(t, CondUnknown, reason, g)
  }

  function Conclusion(g: nat, resolved: seq<ResolvedImage>, transient: bool): Condition
  {
    if |resolved| > 0 then Condition(ImagesReady, CondTrue, NO_REASON, g)
    else if transient then Condition(ImagesReady, CondUnknown, ERRORED, g)
    else Condition(ImagesReady, CondFalse, FAILED, g)
  }

  ghost predicate HoldsChecks(cs: seq<Condition>, g: nat, checks: Checks)
  {
    && Complete(cs)
    && Holds(cs, CheckCondition(g, NetworkReady, checks.network))
    && Holds(cs, CheckCondition(g, ResourcesReady, checks.resources))
    && Holds(cs, CheckCondition(g, UserDataReady, checks.userData))
  }

  lemma ChecksHold(cs: seq<Condition>, g: nat, checks: Checks)
    ensures HoldsChecks(ChecksWritten(cs, g, checks), g, checks)
  {
    var d1 := CheckCondition(g, NetworkReady, checks.network);
    var d2 := CheckCondition(g, ResourcesReady, checks.resources);
    var d3 := CheckCondition(g, UserDataReady, checks.userData);
    var c1 := Checked(cs, g, NetworkReady, checks.network);
    var c2 := Checked(c1, g, ResourcesReady, checks.resources);
    WrittenHolds(cs, g, d1);
    WrittenHolds(c1, g, d2);
    WrittenKeeps(c1, g, d2, d1);
    WrittenHolds(c2, g, d3);
    WrittenKeeps(c2, g, d3, d1);
    WrittenKeeps(c2, g, d3, d2);
  }

  lemma ChecksAgain(cs: seq<Condition>, g: nat, checks: Checks)
    requires HoldsChecks(cs, g, checks)
    ensures ChecksWritten(cs, g, checks) == cs
  {
    WrittenAgain(cs, g, CheckCondition(g, NetworkReady, checks.network));
    WrittenAgain(cs, g, CheckCondition(g, ResourcesReady, checks.resources));
    WrittenAgain(cs, g, CheckCondition(g, UserDataReady, checks.userData));
  }

  // The conditions a pass leaves are ones a second pass finds nothing to change in.
  lemma ConditionsSettle(cs: seq<Condition>, g: nat, checks: Checks, resolved: seq<ResolvedImage>, transient: bool)
    requires HoldsChecks(cs, g, checks)
    ensures var st := Concluded(cs, g, resolved, transient);
      && ChecksWritten(st.conditions, g, checks) == st.conditions
      && Concluded(st.conditions, g, resolved, transient) == st
  {
    var last := Conclusion(g, resolved, transient);
    var c4 := Concluded(cs, g, resolved, transient).conditions;
    assert c4 == Written(cs, g, last.ctype, last.status, last.reason);
    WrittenHolds(cs, g, last);
    WrittenKeeps(cs, g, last, CheckCondition(g, NetworkReady, checks.network));
    WrittenKeeps(cs, g, last, CheckCondition(g, ResourcesReady, checks.resources));
    WrittenKeeps(cs, g, last, CheckCondition(g, UserDataReady, checks.userData));
    ChecksAgain(c4, g, checks);
    WrittenAgain(c4, g, last);
  }

  // What a pass reports. Images are ready exactly when some architecture is left with
  // one; with none, an unreadable catalogue leaves it unknown and a readable one
  // false. Each check's condition says what its check found.
  lemma PassReports(st: Status, g: nat, checks: Checks, lookups: Architecture -> Lookup)
    ensures var st' := Reconciled(st, g, checks, lookups);
      && (st'.resolvedImages != [] ==> Holds(st'.conditions, Condition(ImagesReady, CondTrue, "", g)))
      && (st'.resolvedImages == [] && (lookups(X86).TransientError? || lookups(ARM).TransientError?) ==>
            Holds(st'.conditions, Condition(ImagesReady, CondUnknown, "ImageResolutionErrored", g)))
      && (st'.resolvedImages == [] && !lookups(X86).TransientError? && !lookups(ARM).TransientError? ==>
            Holds(st'.conditions, Condition(ImagesReady, CondFalse, "ImageResolutionFailed", g)))
      && ReportsCheck(st'.conditions, NetworkReady, checks.network, g)
      && ReportsCheck(st'.conditions, ResourcesReady, checks.resources, g)
      && ReportsCheck(st'.conditions, UserDataReady, checks.userData, g)
  {
    var cs := ChecksWritten(st.conditions, g, checks);
    var rs := Resolutions(ARCHS, lookups);
    var resolved := Merge(PrevMap(CarriedForward(cs, g, st.resolvedImages)), rs);
    TransientIff(lookups);
    WrittenHolds(cs, g, Conclusion(g, resolved, AnyTransient(rs)));
    ChecksReported(st.conditions, g, checks, resolved, AnyTransient(rs));
  }

  lemma TransientIff(lookups: Architecture -> Lookup)
    ensures AnyTransient(Resolutions(ARCHS, lookups)) <==>
      lookups(X86).TransientError? || lookups(ARM).TransientError?
  {
    var rs := Resolutions(ARCHS, lookups);
    assert rs[0] == Classify(X86, lookups(X86)) && rs[1] == Classify(ARM, lookups(ARM));
  }

  lemma ChecksReported(cs: seq<Condition>, g: nat, checks: Checks, resolved: seq<ResolvedImage>, transient: bool)
    ensures var cs' := Concluded(ChecksWritten(cs, g, checks), g, resolved, transient).conditions;
      && ReportsCheck(cs', NetworkReady, checks.network, g)
      && ReportsCheck(cs', ResourcesReady, checks.resources, g)
      && ReportsCheck(cs', UserDataReady, checks.userData, g)
  {
    var checked, last := ChecksWritten(cs, g, checks), Conclusion(g, resolved, transient);
    ChecksHold(cs, g, checks);
    WrittenKeeps(checked, g, last, CheckCondition(g, NetworkReady, checks.network));
    WrittenKeeps(checked, g, last, CheckCondition(g, ResourcesReady, checks.resources));
    WrittenKeeps(checked, g, last, CheckCondition(g, UserDataReady, checks.userData));
  }

  ghost predicate ReportsCheck(cs: seq<Condition>, t: ConditionType, c: Check, g: nat)
  {
    match c
    case Passed => Holds(cs, Condition(t, CondTrue, "", g))
    case Missing(reason) => Holds(cs, Condition(t, CondFalse, reason, g))
    case Unknown(reason) => Holds(cs, Condition(t, CondUnknown, reason, g))
  }

  // What a pass leaves of one architecture: an image found for it; nothing when the
  // catalogue has none or has one of another architecture; and when it could not be
  // read the last entry status had, if that was resolved under this generation or
  // under no condition at all.
  lemma PassLeaves(st: Status, g: nat, checks: Checks, lookups: Architecture -> Lookup, a: Architecture)
    requires a == X86 || a == ARM
    ensures var left := EntryFor(Reconciled(st, g, checks, lookups).resolvedImages, a);
      match lookups(a)
      case Found(img) => left == if img.architecture == a then Some(img.id) else None
      case PermanentError => left == None
      case TransientError => forall id :: left == Some(id) <==>
        && ((forall i :: 0 <= i < |st.conditions| ==> st.conditions[i].ctype != ImagesReady)
            || ObservedGeneration(st.conditions) == g)
        && IsLastEntry(st.resolvedImages, a, id)
  {
    PassMeaning(st, g, checks, lookups);
    ListedEntries(Kept(X86, st, g, lookups(X86)), Kept(ARM, st, g, lookups(ARM)));
    forall id
      ensures lookups(a).TransientError? ==>
        (Kept(a, st, g, lookups(a)) == Some(id) <==> Carries(st, g) && IsLastEntry(st.resolvedImages, a, id))
    {
      PrevMapIsLast(st.resolvedImages, a, id);
    }
  }

  // The entries are one for x86 and one for ARM, in this order, and no other.
  lemma PassShape(st: Status, g: nat, checks: Checks, lookups: Architecture -> Lookup)
    ensures var es := Reconciled(st, g, checks, lookups).resolvedImages;
      && |es| <= 2
      && (|es| == 1 ==> es[0].architecture == X86 || es[0].architecture == ARM)
      && (|es| == 2 ==> es[0].architecture == X86 && es[1].architecture == ARM)
  {
    PassMeaning(st, g, checks, lookups);
  }

  ghost predicate IsLastAt(entries: seq<ResolvedImage>, a: Architecture, id: int, i: nat)
  {
    && i < |entries| && entries[i] == ResolvedImage(a, id)
    && forall k :: i < k < |entries| ==> entries[k].architecture != a
  }

  ghost predicate IsLastEntry(entries: seq<ResolvedImage>, a: Architecture, id: int)
  {
    exists i: nat :: IsLastAt(entries, a, id, i)
  }

  lemma {:induction false} PrevMapIsLast(entries: seq<ResolvedImage>, a: Architecture, id: int)
    ensures a in PrevMap(entries) && PrevMap(entries)[a] == id <==> IsLastEntry(entries, a, id)
  {
    if entries != [] {
      var n: nat := |entries| - 1;
      var init, e := entries[..n], entries[n];
      PrevMapIsLast(init, a, id);
      if e == ResolvedImage(a, id) { assert IsLastAt(entries, a, id, n); }
      if e.architecture != a {
        if i: nat :| IsLastAt(init, a, id, i) { assert IsLastAt(entries, a, id, i); }
        if i: nat :| IsLastAt(entries, a, id, i) { assert IsLastAt(init, a, id, i); }
      }
    }
  }

  // Repeating a pass with the same answers changes nothing, so writes nothing,
  // whatever the status was before.
  lemma PassIsFixpoint(st: Status, p: Pass)
    ensures var st' := Reconciled(st, p.generation, p.checks, p.lookups);
      Reconciled(st', p.generation, p.checks, p.lookups) == st'
  {
    SamePassSameEntries(st, p);
    SamePassSameConditions(st, p);
  }

  lemma SamePassSameEntries(st: Status, p: Pass)
    ensures var st' := Reconciled(st, p.generation, p.checks, p.lookups);
      Reconciled(st', p.generation, p.checks, p.lookups).resolvedImages == st'.resolvedImages
  {
    var g := p.generation;
    var st' := Reconciled(st, g, p.checks, p.lookups);
    PassStampsGeneration(st, g, p.checks, p.lookups);
    PassMeaning(st, g, p.checks, p.lookups);
    PassMeaning(st', g, p.checks, p.lookups);
    var x, y := Kept(X86, st, g, p.lookups(X86)), Kept(ARM, st, g, p.lookups(ARM));
    ListedEntries(x, y);
    KeptAgain(X86, st, st', g, p.lookups(X86));
    KeptAgain(ARM, st, st', g, p.lookups(ARM));
  }

  // What an architecture kept it keeps, given the same answer.
  lemma KeptAgain(a: Architecture, st: Status, st': Status, g: nat, r: Lookup)
    requires Carries(st', g) && PrevReads(PrevMap(st'.resolvedImages), a, Kept(a, st, g, r))
    ensures Kept(a, st', g, r) == Kept(a, st, g, r)
  {
  }

  lemma SamePassSameConditions(st: Status, p: Pass)
    requires var st' := Reconciled(st, p.generation, p.checks, p.lookups);
      Reconciled(st', p.generation, p.checks, p.lookups).resolvedImages == st'.resolvedImages
    ensures var st' := Reconciled(st, p.generation, p.checks, p.lookups);
      Reconciled(st', p.generation, p.checks, p.lookups) == st'
  {
    var g, rs := p.generation, Resolutions(ARCHS, p.lookups);
    var st' := Reconciled(st, g, p.checks, p.lookups);
    var cs := ChecksWritten(st.conditions, g, p.checks);
    var resolved := Merge(PrevMap(CarriedForward(cs, g, st.resolvedImages)), rs);
    ConcludedMeaning(cs, g, resolved, AnyTransient(rs));
    ChecksHold(st.conditions, g, p.checks);
    ConditionsSettle(cs, g, p.checks, resolved, AnyTransient(rs));
    var cs' := ChecksWritten(st'.conditions, g, p.checks);
    var resolved' := Merge(PrevMap(CarriedForward(cs', g, st'.resolvedImages)), rs);
    ConcludedMeaning(cs', g, resolved', AnyTransient(rs));
    assert resolved' == resolved;
  }
}
