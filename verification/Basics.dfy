// Vocabulary shared by every module: optional values, hcloud architectures,
// label keys, and the clock behind nowFn.
module Basics {

  datatype Option<+T> = None | Some(value: T)

  // hcloud's Architecture is a string with two known spellings; every other
  // spelling is kept apart by its name.
  datatype Architecture = X86 | ARM | OtherArch(name: UnknownArch)

  const KNOWN_ARCHS: seq<string> := ["x86", "arm"]

  type UnknownArch = s: string | s !in KNOWN_ARCHS

  // Label keys. The well-known ones are constructors, every other key carries
  // its spelling. The key of the node pool on a claim and on a server is one.
  datatype LabelKey =
    | InstanceTypeKey | ArchKey | CapacityTypeKey | ZoneKey | CPUTypeKey
    | ManagedByKey | ClusterKey | NodeClaimKey | NodePoolKey
    | OtherKey(name: UnknownKey)

  const KNOWN_KEYS: seq<string> := [
    "node.kubernetes.io/instance-type",
    "kubernetes.io/arch",
    "karpenter.sh/capacity-type",
    "topology.kubernetes.io/zone",
    "karpenter.hetzner.cloud/cpu-type",
    "karpenter.sh/managed-by",
    "karpenter.sh/cluster",
    "karpenter.sh/nodeclaim",
    "karpenter.sh/nodepool"]

  type UnknownKey = s: string | s !in KNOWN_KEYS

  const KNOWN: seq<LabelKey> := [
    InstanceTypeKey, ArchKey, CapacityTypeKey, ZoneKey, CPUTypeKey, ManagedByKey, ClusterKey, NodeClaimKey, NodePoolKey]

  // Where the spelling of a well-known key stands.
  function KnownAt(k: LabelKey): (i: nat)
    requires !k.OtherKey?
    ensures i < |KNOWN| == |KNOWN_KEYS| && KNOWN[i] == k
  {
    match k
    case InstanceTypeKey => 0
    case ArchKey => 1
    case CapacityTypeKey => 2
    case ZoneKey => 3
    case CPUTypeKey => 4
    case ManagedByKey => 5
    case ClusterKey => 6
    case NodeClaimKey => 7
    case NodePoolKey => 8
  }

  function Spelling(k: LabelKey): string
  {
    if k.OtherKey? then k.name else KNOWN_KEYS[KnownAt(k)]
  }

  function ArchSpelling(a: Architecture): string
  {
    match a
    case X86 => KNOWN_ARCHS[0]
    case ARM => KNOWN_ARCHS[1]
    case OtherArch(name) => name
  }

  type Labels = map<LabelKey, string>

  const AMD64: string := "amd64"
  const ARM64: string := "arm64"

  // A number that tells the known spellings apart: the length, but for two of one
  // length.
  function Tag(s: string): nat
  {
    if |s| == 32 && s[0] == 'k' then 33 else |s|
  }

  const TAGS: seq<nat> := [32, 18, 26, 27, 33, 23, 20, 22, 21]

  lemma KnownTag(i: nat)
    requires i < |KNOWN_KEYS|
    ensures |KNOWN_KEYS| == |TAGS| && Tag(KNOWN_KEYS[i]) == TAGS[i]
  {
  }

  lemma KnownKeysDistinct(i: nat, j: nat)
    requires i < j < |KNOWN_KEYS|
    ensures KNOWN_KEYS[i] != KNOWN_KEYS[j]
  {
    KnownTag(i);
    KnownTag(j);
    assert TAGS[i] != TAGS[j];
  }

  // Keys are exactly the strings: no two keys have one spelling, and every string
  // is spelled by a key.
  lemma SpellingInjective(k: LabelKey, l: LabelKey)
    requires Spelling(k) == Spelling(l)
    ensures k == l
  {
    assert !k.OtherKey? ==> Spelling(k) in KNOWN_KEYS;
    assert !l.OtherKey? ==> Spelling(l) in KNOWN_KEYS;
    if !k.OtherKey? && !l.OtherKey? {
      var i, j := KnownAt(k), KnownAt(l);
      if i < j { KnownKeysDistinct(i, j); }
      if j < i { KnownKeysDistinct(j, i); }
    }
  }

  lemma EveryStringIsAKey(s: string)
    ensures exists k :: Spelling(k) == s
  {
    if s in KNOWN_KEYS {
      var i :| 0 <= i < |KNOWN_KEYS| && KNOWN_KEYS[i] == s;
      KnownOnce(i);
      assert Spelling(KNOWN[i]) == s;
    } else {
      assert Spelling(OtherKey(s)) == s;
    }
  }

  lemma KnownOnce(i: nat)
    requires i < |KNOWN|
    ensures !KNOWN[i].OtherKey? && KnownAt(KNOWN[i]) == i
  {
  }

  lemma ArchsAreStrings(a: Architecture, b: Architecture, s: string)
    ensures ArchSpelling(a) == ArchSpelling(b) <==> a == b
    ensures exists c :: ArchSpelling(c) == s
  {
    assert |KNOWN_ARCHS[0]| == 3 && |KNOWN_ARCHS[1]| == 3 && KNOWN_ARCHS[0][0] != KNOWN_ARCHS[1][0];
    assert KNOWN_ARCHS[0] in KNOWN_ARCHS && KNOWN_ARCHS[1] in KNOWN_ARCHS;
    if s == KNOWN_ARCHS[0] {
      assert ArchSpelling(X86) == s;
    } else if s == KNOWN_ARCHS[1] {
      assert ArchSpelling(ARM) == s;
    } else {
      assert ArchSpelling(OtherArch(s)) == s;
    }
  }

  // Values drawn without repetition from a finite set are no more than the set.
  lemma {:induction false} DistinctBounded<T>(xs: seq<T>, pool: set<T>)
    requires forall i :: 0 <= i < |xs| ==> xs[i] in pool
    requires forall i, j :: 0 <= i < j < |xs| ==> xs[i] != xs[j]
    ensures |xs| <= |pool|
  {
    if xs != [] {
      var last := xs[|xs| - 1];
      var rest := xs[..|xs| - 1];
      DistinctBounded(rest, pool - {last});
    }
  }

  function Fold<S, A>(step: (S, A) -> S, s: S, xs: seq<A>): S
  {
    if xs == [] then s else step(Fold(step, s, xs[..|xs| - 1]), xs[|xs| - 1])
  }

  lemma FoldAppend<S, A>(step: (S, A) -> S, s: S, xs: seq<A>, x: A)
    ensures Fold(step, s, xs + [x]) == step(Fold(step, s, xs), x)
  {
    assert (xs + [x])[..|xs + [x]| - 1] == xs;
  }

  lemma {:induction false} FoldSplit<S, A>(step: (S, A) -> S, s: S, xs: seq<A>, ys: seq<A>)
    ensures Fold(step, s, xs + ys) == Fold(step, Fold(step, s, xs), ys)
  {
    if ys == [] {
      assert xs + ys == xs;
    } else {
      var init, y := ys[..|ys| - 1], ys[|ys| - 1];
      FoldSplit(step, s, xs, init);
      FoldAppend(step, s, xs + init, y);
      assert xs + ys == (xs + init) + [y];
    }
  }

  // The wall clock. Every reading may be later than the one before, never earlier.
  class Clock {
    var now: nat

    constructor ()
      ensures now == 0
    {
      now := 0;
    }

    method Read() returns (t: nat)
      modifies this
      ensures old(now) <= now == t
    {
      var elapsed: nat :| 0 <= elapsed;
      now := now + elapsed;
      t := now;
    }
  }
}
