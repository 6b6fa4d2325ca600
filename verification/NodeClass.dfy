// HCloudNodeClass: its status conditions and resolved images, and the read side
// of the generation protocol.
module NodeClass {
  import opened Basics

  datatype ConditionType = ImagesReady | NetworkReady | ResourcesReady | UserDataReady

  datatype ConditionStatus = CondTrue | CondFalse | CondUnknown

  datatype Condition = Condition(
    ctype: ConditionType, status: ConditionStatus, reason: string, observedGeneration: nat)

  datatype ResolvedImage = ResolvedImage(architecture: Architecture, imageID: int)

  datatype ImageSelector = ImageSelector(family: string, version: string, selector: map<string, string>)

  datatype Spec = Spec(
    locations: seq<string>,
    imageSelector: ImageSelector,
    networkID: int,
    firewallIDs: seq<int>,
    labels: Labels)

  datatype Status = Status(conditions: seq<Condition>, resolvedImages: seq<ResolvedImage>)

  const EMPTY_STATUS := Status([], [])

  const DEPENDENTS: seq<ConditionType> := [ImagesReady, NetworkReady, ResourcesReady, UserDataReady]

  // ----- Entries -----

  // The first status entry of the architecture.
  function EntryFor(entries: seq<ResolvedImage>, arch: Architecture): Option<int>
  {
    if entries == [] then None
    else if entries[0].architecture == arch then Some(entries[0].imageID)
    else EntryFor(entries[1..], arch)
  }

  lemma {:induction false} EntryForMeaning(entries: seq<ResolvedImage>, arch: Architecture)
    ensures EntryFor(entries, arch).Some? <==>
      exists i :: 0 <= i < |entries| && entries[i].architecture == arch
    ensures EntryFor(entries, arch).Some? ==>
      exists i :: 0 <= i < |entries| && entries[i] == ResolvedImage(arch, EntryFor(entries, arch).value)
        && forall k :: 0 <= k < i ==> entries[k].architecture != arch
  {
    if entries != [] && entries[0].architecture != arch {
      var rest := entries[1..];
      EntryForMeaning(rest, arch);
      if i :| 0 <= i < |entries| && entries[i].architecture == arch {
        assert rest[i - 1].architecture == arch;
        var j :| 0 <= j < |rest| && rest[j] == ResolvedImage(arch, EntryFor(rest, arch).value)
          && forall k :: 0 <= k < j ==> rest[k].architecture != arch;
        assert entries[j + 1] == rest[j];
        assert forall k :: 0 < k < j + 1 ==> entries[k] == rest[k - 1];
      }
    }
  }

  lemma EntryIsListed(entries: seq<ResolvedImage>, arch: Architecture)
    requires EntryFor(entries, arch).Some?
    ensures ResolvedImage(arch, EntryFor(entries, arch).value) in entries
  {
    EntryForMeaning(entries, arch);
  }

  // ----- Conditions as values -----

  predicate Present(cs: seq<Condition>, t: ConditionType)
  {
    exists i :: 0 <= i < |cs| && cs[i].ctype == t
  }

  // The observed generation of the first condition of type ImagesReady, zero if
  // there is none.
  function ObservedGeneration(cs: seq<Condition>): nat
  {
    if cs == [] then 0
    else if cs[0].ctype == ImagesReady then cs[0].observedGeneration
    else ObservedGeneration(cs[1..])
  }

  // Writing a condition replaces those of its type, or appends it.
  function SetCondition(cs: seq<Condition>, c: Condition): seq<Condition>
  {
    if Present(cs, c.ctype) then
      seq(|cs|, i requires 0 <= i < |cs| => if cs[i].ctype == c.ctype then c else cs[i])
    else cs + [c]
  }

  // Constructing the condition set adds every absent dependent condition as
  // Unknown at the current generation.
  function InitialisedFrom(cs: seq<Condition>, generation: nat, types: seq<ConditionType>): seq<Condition>
  {
    if types == [] then cs
    else
      var init := InitialisedFrom(cs, generation, types[..|types| - 1]);
      var t := types[|types| - 1];
      if Present(init, t) then init else init + [Condition(t, CondUnknown, "AwaitingReconciliation", generation)]
  }

  function Initialised(cs: seq<Condition>, generation: nat): seq<Condition>
  {
    InitialisedFrom(cs, generation, DEPENDENTS)
  }

  // A write through StatusConditions().
  function Written(cs: seq<Condition>, generation: nat, t: ConditionType, status: ConditionStatus, reason: string)
    : seq<Condition>
  {
    SetCondition(Initialised(cs, generation), Condition(t, status, reason, generation))
  }

  // The first ImagesReady condition is the i-th.
  ghost predicate IsFirst(cs: seq<Condition>, i: nat)
  {
    i < |cs| && cs[i].ctype == ImagesReady && forall k :: 0 <= k < i ==> cs[k].ctype != ImagesReady
  }

  lemma {:induction false} ObservedAt(cs: seq<Condition>, i: nat)
    requires IsFirst(cs, i)
    ensures ObservedGeneration(cs) == cs[i].observedGeneration
  {
    if i > 0 {
      ObservedAt(cs[1..], i - 1);
    }
  }

  lemma {:induction false} ObservedGenerationMeaning(cs: seq<Condition>)
    ensures !Present(cs, ImagesReady) ==> ObservedGeneration(cs) == 0
    ensures Present(cs, ImagesReady) ==>
      exists i: nat :: IsFirst(cs, i) && ObservedGeneration(cs) == cs[i].observedGeneration
  {
    if cs != [] {
      if cs[0].ctype == ImagesReady {
        assert IsFirst(cs, 0);
      } else {
        var rest := cs[1..];
        ObservedGenerationMeaning(rest);
        if Present(cs, ImagesReady) {
          var i :| 0 <= i < |cs| && cs[i].ctype == ImagesReady;
          assert rest[i - 1].ctype == ImagesReady;
          var j: nat :| IsFirst(rest, j) && ObservedGeneration(rest) == rest[j].observedGeneration;
          assert cs[j + 1] == rest[j] && forall k :: 0 < k < j + 1 ==> cs[k] == rest[k - 1];
          assert IsFirst(cs, j + 1);
        }
      }
    }
  }

  // The two facts the generation protocol rests on, for one condition write: a
  // write of ImagesReady stamps the current generation; any other write stamps it
  // only where ImagesReady was absent.
  lemma WrittenGeneration(
      cs: seq<Condition>, generation: nat, t: ConditionType, status: ConditionStatus, reason: string)
    ensures var cs' := Written(cs, generation, t, status, reason);
      && Present(cs', ImagesReady)
      && ObservedGeneration(cs') ==
           if t == ImagesReady || !Present(cs, ImagesReady) then generation else ObservedGeneration(cs)
  {
    var init := Initialised(cs, generation);
    InitialisedGeneration(cs, generation, DEPENDENTS);
    SetConditionGeneration(init, Condition(t, status, reason, generation));
  }

  lemma {:induction false} InitialisedGeneration(cs: seq<Condition>, generation: nat, types: seq<ConditionType>)
    ensures var init := InitialisedFrom(cs, generation, types);
      && (forall t :: t in types ==> Present(init, t))
      && (forall t :: Present(cs, t) ==> Present(init, t))
      && (Present(cs, ImagesReady) ==> ObservedGeneration(init) == ObservedGeneration(cs))
      && (!Present(cs, ImagesReady) && Present(init, ImagesReady) ==> ObservedGeneration(init) == generation)
  {
    if types != [] {
      var front, t := types[..|types| - 1], types[|types| - 1];
      InitialisedGeneration(cs, generation, front);
      var init := InitialisedFrom(cs, generation, front);
      assert types == front + [t];
      if !Present(init, t) {
        AppendGeneration(init, Condition(t, CondUnknown, "AwaitingReconciliation", generation));
      }
    }
  }

  lemma {:induction false} AppendGeneration(cs: seq<Condition>, c: Condition)
    ensures forall t :: Present(cs + [c], t) <==> Present(cs, t) || t == c.ctype
    ensures ObservedGeneration(cs + [c]) ==
      if Present(cs, ImagesReady) then ObservedGeneration(cs)
      else if c.ctype == ImagesReady then c.observedGeneration else 0
  {
    assert (cs + [c])[|cs|] == c;
    forall t | Present(cs, t)
      ensures Present(cs + [c], t)
    {
      var i :| 0 <= i < |cs| && cs[i].ctype == t;
      assert (cs + [c])[i].ctype == t;
    }
    if cs != [] {
      assert (cs + [c])[1..] == cs[1..] + [c];
      AppendGeneration(cs[1..], c);
      assert Present(cs, ImagesReady) <==> cs[0].ctype == ImagesReady || Present(cs[1..], ImagesReady) by {
        if i :| 0 < i < |cs| && cs[i].ctype == ImagesReady { assert cs[1..][i - 1].ctype == ImagesReady; }
      }
    }
  }

  lemma {:induction false} SetConditionGeneration(cs: seq<Condition>, c: Condition)
    requires Present(cs, c.ctype)
    ensures forall t :: Present(SetCondition(cs, c), t) <==> Present(cs, t)
    ensures ObservedGeneration(SetCondition(cs, c)) ==
      if c.ctype == ImagesReady then c.observedGeneration else ObservedGeneration(cs)
  {
    var cs' := SetCondition(cs, c);
    forall t
      ensures Present(cs', t) <==> Present(cs, t)
    {
      if i :| 0 <= i < |cs| && cs[i].ctype == t { assert cs'[i].ctype == t; }
    }
    if Present(cs, ImagesReady) {
      ObservedGenerationMeaning(cs);
      var i: nat :| IsFirst(cs, i);
      assert IsFirst(cs', i);
      ObservedAt(cs, i);
      ObservedAt(cs', i);
    } else {
      ObservedGenerationMeaning(cs);
      ObservedGenerationMeaning(cs');
    }
  }

  // ----- What a write leaves -----

  // Initialising keeps every condition where it is and appends, for each absent type,
  // one Unknown at the current generation.
  lemma {:induction false} InitialisedMeaning(cs: seq<Condition>, g: nat, types: seq<ConditionType>)
    ensures var init := InitialisedFrom(cs, g, types);
      && cs <= init
      && (forall t :: t in types ==> Present(init, t))
      && (forall i :: |cs| <= i < |init| ==>
            init[i] == Condition(init[i].ctype, CondUnknown, "AwaitingReconciliation", g) && init[i].ctype in types)
      && (forall i, j :: 0 <= i < j < |init| && |cs| <= j ==> init[i].ctype != init[j].ctype)
  {
    if types != [] {
      var front, t := types[..|types| - 1], types[|types| - 1];
      InitialisedMeaning(cs, g, front);
      assert types == front + [t];
      var before, init := InitialisedFrom(cs, g, front), InitialisedFrom(cs, g, types);
      if !Present(before, t) {
        assert init == before + [Condition(t, CondUnknown, "AwaitingReconciliation", g)];
        assert init[|before|].ctype == t;
      }
      forall u | u in types
        ensures Present(init, u)
      {
        if u != t {
          var i :| 0 <= i < |before| && before[i].ctype == u;
          assert init[i].ctype == u;
        }
      }
    }
  }

  // Writing through the set: every condition stays where it is, those of the type
  // written become what is written, and each type that was absent is appended once,
  // Unknown unless it is the one written, all at the current generation.
  lemma WrittenMeaning(
      cs: seq<Condition>, g: nat, t: ConditionType, status: ConditionStatus, reason: string, u: ConditionType)
    ensures var cs', c := Written(cs, g, t, status, reason), Condition(t, status, reason, g);
      && |cs| <= |cs'|
      && (forall i :: 0 <= i < |cs| ==> cs'[i] == if cs[i].ctype == t then c else cs[i])
      && (forall i :: |cs| <= i < |cs'| ==>
            cs'[i] == if cs'[i].ctype == t then c
                      else Condition(cs'[i].ctype, CondUnknown, "AwaitingReconciliation", g))
      && (forall i, j :: 0 <= i < j < |cs'| && |cs| <= j ==> cs'[i].ctype != cs'[j].ctype)
      && exists i :: 0 <= i < |cs'| && cs'[i].ctype == u
  {
    var init, c := Initialised(cs, g), Condition(t, status, reason, g);
    var cs' := SetCondition(init, c);
    InitialisedMeaning(cs, g, DEPENDENTS);
    FourDependents(t);
    assert |cs'| == |init| && forall i :: 0 <= i < |init| ==> cs'[i].ctype == init[i].ctype;
    FourDependents(u);
    var i :| 0 <= i < |init| && init[i].ctype == u;
    assert cs'[i].ctype == u;
  }

  lemma FourDependents(u: ConditionType)
    ensures u in DEPENDENTS
  {
    assert DEPENDENTS[0] == ImagesReady && DEPENDENTS[1] == NetworkReady
      && DEPENDENTS[2] == ResourcesReady && DEPENDENTS[3] == UserDataReady;
  }

  // ----- Reading the resolved images -----

  // Entries count only under the generation they were resolved for.
  function CurrentImages(generation: nat, st: Status): seq<ResolvedImage>
  {
    if ObservedGeneration(st.conditions) != generation then [] else st.resolvedImages
  }

  // At generation zero absent reads as current; from generation one on, entries
  // without an ImagesReady condition are never trusted.
  // With the condition, the entries are current exactly when the first one there is
  // was observed at this generation.
  lemma CurrentIff(generation: nat, st: Status, i: nat)
    requires i < |st.conditions| && st.conditions[i].ctype == ImagesReady
    requires forall k :: 0 <= k < i ==> st.conditions[k].ctype != ImagesReady
    ensures CurrentImages(generation, st) ==
      if st.conditions[i].observedGeneration == generation then st.resolvedImages else []
  {
    ObservedAt(st.conditions, i);
  }

  lemma AbsentFailsSafe(generation: nat, st: Status)
    requires !Present(st.conditions, ImagesReady)
    ensures generation >= 1 ==> CurrentImages(generation, st) == []
    ensures generation == 0 ==> CurrentImages(generation, st) == st.resolvedImages
  {
    ObservedGenerationMeaning(st.conditions);
  }

  // ----- The object -----

  class HCloudNodeClass {
    const name: string
    var generation: nat
    var spec: Spec
    var conditions: seq<Condition>
    var resolvedImages: seq<ResolvedImage>

    constructor (name: string, generation: nat, spec: Spec, status: Status)
      ensures this.name == name && this.generation == generation && this.spec == spec && StatusView() == status
    {
      this.name := name;
      this.generation := generation;
      this.spec := spec;
      this.conditions := status.conditions;
      this.resolvedImages := status.resolvedImages;
    }

    ghost function StatusView(): Status
      reads this
    {
      Status(conditions, resolvedImages)
    }

    // StatusConditions(): mutates the object it reads.
    method StatusConditions()
      modifies this`conditions
      ensures conditions == Initialised(old(conditions), generation)
    {
      for i := 0 to |DEPENDENTS|
        invariant conditions == InitialisedFrom(old(conditions), generation, DEPENDENTS[..i])
      {
        assert DEPENDENTS[..i + 1][..i] == DEPENDENTS[..i];
        var t := DEPENDENTS[i];
        if !HasCondition(t) {
          conditions := conditions + [Condition(t, CondUnknown, "AwaitingReconciliation", generation)];
        }
      }
      assert DEPENDENTS[..|DEPENDENTS|] == DEPENDENTS;
    }

    predicate HasCondition(t: ConditionType)
      reads this`conditions
    {
      Present(conditions, t)
    }

    // StatusConditions().SetTrue / SetFalse / SetUnknownWithReason.
    method Set(t: ConditionType, status: ConditionStatus, reason: string)
      modifies this`conditions
      ensures conditions == Written(old(conditions), generation, t, status, reason)
    {
      StatusConditions();
      conditions := SetCondition(conditions, Condition(t, status, reason, generation));
    }

    // Reads the raw conditions, not the condition set, so it changes nothing.
    method ResolvedImagesGeneration() returns (g: nat)
      ensures g == ObservedGeneration(conditions)
    {
      for i := 0 to |conditions|
        invariant ObservedGeneration(conditions) == ObservedGeneration(conditions[i..])
      {
        if conditions[i].ctype == ImagesReady {
          return conditions[i].observedGeneration;
        }
      }
      return 0;
    }

    method CurrentResolvedImages() returns (images: seq<ResolvedImage>)
      ensures images == CurrentImages(generation, StatusView())
    {
      var g := ResolvedImagesGeneration();
      if g != generation {
        return [];
      }
      return resolvedImages;
    }
  }
}
