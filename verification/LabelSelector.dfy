// Rendering an hcloud label selector from a map, and reading it back.
module LabelSelector {
  import opened Text

  ghost predicate StrictlySorted(ks: seq<string>)
  {
    forall i, j :: 0 <= i < j < |ks| ==> LexLess(ks[i], ks[j])
  }

  ghost predicate SortedKeysOf(ks: seq<string>, keys: set<string>)
  {
    StrictlySorted(ks) && forall k :: k in ks <==> k in keys
  }

  function Pair(k: string, v: string): string
  {
    k + "=" + v
  }

  // strings.Join(parts, ",").
  function JoinParts(parts: seq<string>): string
  {
    if parts == [] then ""
    else if |parts| == 1 then parts[0]
    else parts[0] + "," + JoinParts(parts[1..])
  }

  // The pairs joined in the order of the keys.
  function Join(ks: seq<string>, m: map<string, string>): string
    requires forall k :: k in ks ==> k in m
  {
    JoinParts(seq(|ks|, i requires 0 <= i < |ks| => Pair(ks[i], m[ks[i]])))
  }

  lemma JoinStep(ks: seq<string>, m: map<string, string>)
    requires ks != [] && forall k :: k in ks ==> k in m
    ensures Join(ks, m) == if |ks| == 1 then Pair(ks[0], m[ks[0]]) else Pair(ks[0], m[ks[0]]) + "," + Join(ks[1..], m)
  {
    var parts := seq(|ks|, i requires 0 <= i < |ks| => Pair(ks[i], m[ks[i]]));
    var tail := ks[1..];
    assert parts[1..] == seq(|tail|, i requires 0 <= i < |tail| => Pair(tail[i], m[tail[i]]));
  }

  // s is what m renders to.
  ghost predicate Renders(s: string, m: map<string, string>)
  {
    exists ks :: SortedKeysOf(ks, m.Keys) && s == Join(ks, m)
  }

  // ----- Sorting the keys -----

  method InsertSorted(sorted: seq<string>, k: string) returns (r: seq<string>)
    requires StrictlySorted(sorted) && k !in sorted
    ensures StrictlySorted(r)
    ensures forall x :: x in r <==> x in sorted || x == k
  {
    var i := 0;
    while i < |sorted| && LexLess(sorted[i], k)
      invariant 0 <= i <= |sorted|
      invariant forall j :: 0 <= j < i ==> LexLess(sorted[j], k)
    {
      i := i + 1;
    }
    r := sorted[..i] + [k] + sorted[i..];
    if i < |sorted| {
      LexTrichotomy(sorted[i], k);
      forall j | i < j < |sorted|
        ensures LexLess(k, sorted[j])
      {
        LexTransitive(k, sorted[i], sorted[j]);
      }
    }
    assert forall x :: x in r <==> x in sorted || x == k by {
      assert sorted == sorted[..i] + sorted[i..];
    }
  }

  lemma {:induction false} SortedIsUnique(a: seq<string>, b: seq<string>, keys: set<string>)
    requires SortedKeysOf(a, keys) && SortedKeysOf(b, keys)
    ensures a == b
  {
    assert (a == [] <==> keys == {}) && (b == [] <==> keys == {}) by {
      assert (a != [] ==> a[0] in keys) && (b != [] ==> b[0] in keys);
    }
    if a != [] && b != [] {
      assert a[0] in keys && b[0] in keys;
      var i :| 0 <= i < |a| && a[i] == b[0];
      var j :| 0 <= j < |b| && b[j] == a[0];
      LexTrichotomy(a[0], b[0]);
      assert a[0] == b[0];
      forall k
        ensures k in a[1..] <==> k in keys - {a[0]}
        ensures k in b[1..] <==> k in keys - {a[0]}
      {
        if k in a[1..] { var x :| 0 <= x < |a[1..]| && a[1..][x] == k; LexTrichotomy(a[0], a[x + 1]); }
        if k in b[1..] { var x :| 0 <= x < |b[1..]| && b[1..][x] == k; LexTrichotomy(b[0], b[x + 1]); }
      }
      SortedIsUnique(a[1..], b[1..], keys - {a[0]});
      assert a == [a[0]] + a[1..] && b == [b[0]] + b[1..];
    }
  }

  // sort.Strings, on keys drawn without repetition.
  method SortStrings(keys: seq<string>) returns (sorted: seq<string>)
    requires forall i, j :: 0 <= i < j < |keys| ==> keys[i] != keys[j]
    ensures StrictlySorted(sorted)
    ensures forall x :: x in sorted <==> x in keys
  {
    sorted := [];
    for i := 0 to |keys|
      invariant StrictlySorted(sorted)
      invariant forall x :: x in sorted <==> x in keys[..i]
    {
      sorted := InsertSorted(sorted, keys[i]);
      assert keys[..i + 1] == keys[..i] + [keys[i]];
    }
    assert keys[..|keys|] == keys;
  }

  // Whatever order the map is iterated in, the string is the join over the one
  // sorted sequence of its keys.
  method LabelSelectorString(m: map<string, string>) returns (s: string)
    ensures Renders(s, m)
    ensures forall s' :: Renders(s', m) ==> s' == s
  {
    var keys: seq<string> := [];
    var rest := m.Keys;
    while rest != {}
      invariant rest <= m.Keys
      invariant forall k :: k in keys <==> k in m.Keys - rest
      invariant forall i, j :: 0 <= i < j < |keys| ==> keys[i] != keys[j]
      decreases rest
    {
      var k :| k in rest;
      assert m.Keys - (rest - {k}) == (m.Keys - rest) + {k};
      assert forall x :: x in keys + [k] <==> x in keys || x == k;
      keys := keys + [k];
      rest := rest - {k};
    }
    assert m.Keys - {} == m.Keys;
    var sorted := SortStrings(keys);
    assert forall j :: 0 <= j < |sorted| ==> sorted[j] in sorted && sorted[j] in m.Keys;
    var parts: seq<string> := [];
    for i := 0 to |sorted|
      invariant |parts| == i && forall j :: 0 <= j < i ==> parts[j] == Pair(sorted[j], m[sorted[j]])
    {
      parts := parts + [Pair(sorted[i], m[sorted[i]])];
    }
    s := JoinParts(parts);
    assert parts == seq(|sorted|, i requires 0 <= i < |sorted| => Pair(sorted[i], m[sorted[i]]));
    assert SortedKeysOf(sorted, m.Keys) && s == Join(sorted, m);
    forall s' | Renders(s', m)
      ensures s' == s
    {
      var ks :| SortedKeysOf(ks, m.Keys) && s' == Join(ks, m);
      SortedIsUnique(ks, sorted, m.Keys);
    }
  }

  // ----- Reading a selector back -----

  // Text before and after the first occurrence of c.
  function Cut(s: string, c: char): (string, string)
  {
    if s == "" then ("", "")
    else if s[0] == c then ("", s[1..])
    else var (before, after) := Cut(s[1..], c); ([s[0]] + before, after)
  }

  lemma {:induction false} CutAtFirst(a: string, c: char, b: string)
    requires c !in a
    ensures Cut(a + [c] + b, c) == (a, b)
    ensures Cut(a, c) == (a, "")
  {
    if a != "" {
      CutAtFirst(a[1..], c, b);
      assert (a + [c] + b)[1..] == a[1..] + [c] + b;
      assert a == [a[0]] + a[1..] && (a + [c] + b)[0] == a[0];
    } else {
      assert (a + [c] + b)[1..] == b;
    }
  }

  lemma {:induction false} CutShortens(s: string, c: char)
    ensures s != "" ==> |Cut(s, c).1| < |s|
  {
    if s != "" { CutShortens(s[1..], c); }
  }

  function Parse(s: string): map<string, string>
    decreases |s|
  {
    if s == "" then map[]
    else
      CutShortens(s, ',');
      var (pair, rest) := Cut(s, ',');
      var (k, v) := Cut(pair, '=');
      Parse(rest)[k := v]
  }

  // Keys without ',' or '=', values without ','.
  ghost predicate Clean(m: map<string, string>)
  {
    forall k :: k in m ==> ',' !in k && '=' !in k && ',' !in m[k]
  }

  lemma {:induction false} ParseJoin(ks: seq<string>, m: map<string, string>)
    requires Clean(m) && StrictlySorted(ks) && forall k :: k in ks ==> k in m
    ensures Parse(Join(ks, m)) == map k | k in ks :: m[k]
  {
    if ks != [] {
      var k, rest := ks[0], ks[1..];
      var pair := Pair(k, m[k]);
      assert pair == k + ['='] + m[k];
      CutAtFirst(k, '=', m[k]);
      CutAtFirst(pair, ',', Join(rest, m));
      ParseJoin(rest, m);
      JoinStep(ks, m);
      assert forall x :: x in ks <==> x == k || x in rest;
      if |ks| > 1 {
        assert Join(ks, m) == pair + [','] + Join(rest, m);
      } else {
        assert rest == [] && Parse("") == map[];
      }
      assert Parse(Join(ks, m)) == Parse(Join(rest, m))[k := m[k]];
    }
  }

  // A rendered selector reads back as the map it was rendered from, so equal
  // strings come only from equal maps.
  lemma RenderInvertible(m: map<string, string>, n: map<string, string>, s: string)
    requires Renders(s, m) && Clean(m)
    ensures Parse(s) == m
    ensures Renders(s, n) && Clean(n) ==> m == n
  {
    var ks :| SortedKeysOf(ks, m.Keys) && s == Join(ks, m);
    ParseJoin(ks, m);
    if Renders(s, n) && Clean(n) {
      var ls :| SortedKeysOf(ls, n.Keys) && s == Join(ls, n);
      ParseJoin(ls, n);
    }
  }

  // ----- Which strings are ambiguous -----

  function Count(s: string): nat
  {
    if s == "" then 0 else Count(s[1..]) + if s[0] == '=' then 1 else 0
  }

  lemma {:induction false} CountJoins(a: string, b: string)
    ensures Count(a + b) == Count(a) + Count(b)
  {
    if a != "" {
      assert (a + b)[1..] == a[1..] + b && (a + b)[0] == a[0];
      CountJoins(a[1..], b);
    } else {
      assert a + b == b;
    }
  }

  // Where the first equals sign is.
  lemma {:induction false} FirstEquals(s: string) returns (i: nat)
    requires Count(s) >= 1
    ensures i < |s| && s[i] == '=' && '=' !in s[..i]
    ensures Count(s[i + 1..]) == Count(s) - 1
  {
    i := 0;
    if s[0] != '=' {
      var j := FirstEquals(s[1..]);
      i := j + 1;
      assert s[..i] == [s[0]] + s[1..][..j] && s[i + 1..] == s[1..][j + 1..];
    }
  }

  lemma CountAppend(a: string, b: string)
    ensures Count(a + "," + b) == Count(a) + Count(b)
  {
    CountJoins(a + ",", b);
    CountJoins(a, ",");
  }

  // Each entry of the map brings an equals sign.
  lemma {:induction false} CountEntries(ks: seq<string>, m: map<string, string>)
    requires forall k :: k in ks ==> k in m
    ensures |ks| <= Count(Join(ks, m))
  {
    if ks != [] {
      var k, rest := ks[0], ks[1..];
      JoinStep(ks, m);
      CountPair(k, m[k]);
      if |ks| > 1 {
        CountEntries(rest, m);
        CountAppend(Pair(k, m[k]), Join(rest, m));
      }
    }
  }

  lemma CountPair(k: string, v: string)
    ensures Count(Pair(k, v)) == Count(k) + 1 + Count(v)
  {
    assert Pair(k, v) == k + ("=" + v);
    CountJoins(k, "=" + v);
    CountJoins("=", v);
  }

  lemma RendersOne(k: string, v: string)
    ensures Renders(Pair(k, v), map[k := v])
  {
    var m := map[k := v];
    assert SortedKeysOf([k], m.Keys);
    JoinStep([k], m);
  }

  // What a string with at most one equals sign was rendered from.
  lemma RenderedFrom(s: string, m: map<string, string>)
    requires Renders(s, m) && Count(s) <= 1
    ensures s == "" ==> m == map[]
    ensures s != "" ==> exists k, v :: s == Pair(k, v) && m == map[k := v] && Count(k) == 0 && Count(v) == 0
  {
    var ks :| SortedKeysOf(ks, m.Keys) && s == Join(ks, m);
    CountEntries(ks, m);
    if ks == [] {
      assert m.Keys == {};
    } else {
      var k := ks[0];
      JoinStep(ks, m);
      CountPair(k, m[k]);
      assert ks == [k];
      assert m.Keys == {k};
      assert s == Pair(k, m[k]) && m == map[k := m[k]];
    }
  }

  // A rendered string comes from one map only exactly when the map has at most
  // one entry and no equals sign inside it, so that the string has at most one.
  // With two, it can also be read as a single entry split at either.
  lemma UnambiguousIff(s: string, m: map<string, string>)
    requires Renders(s, m)
    ensures (forall n :: Renders(s, n) ==> n == m) <==> |m| <= 1 && forall k :: k in m ==> '=' !in k && '=' !in m[k]
  {
    OneEqualsIff(s, m);
    if Count(s) <= 1 {
      forall n | Renders(s, n)
        ensures n == m
      {
        OneReading(s, m, n);
      }
    } else {
      var a, b := TwoReadings(s);
    }
  }

  lemma OneEqualsIff(s: string, m: map<string, string>)
    requires Renders(s, m)
    ensures Count(s) <= 1 <==> |m| <= 1 && forall k :: k in m ==> '=' !in k && '=' !in m[k]
  {
    if Count(s) <= 1 {
      RenderedFrom(s, m);
      if s != "" {
        var k, v :| s == Pair(k, v) && m == map[k := v] && Count(k) == 0 && Count(v) == 0;
        NoEquals(k);
        NoEquals(v);
      }
    } else if |m| <= 1 {
      var ks :| SortedKeysOf(ks, m.Keys) && s == Join(ks, m);
      assert ks != [];
      var k := ks[0];
      assert k in m.Keys;
      assert m.Keys == {k} by { OnlyKey(m.Keys, k); }
      SortedIsUnique(ks, [k], m.Keys);
      JoinStep(ks, m);
      CountPair(k, m[k]);
      NoEquals(k);
      NoEquals(m[k]);
    }
  }

  lemma OnlyKey(keys: set<string>, k: string)
    requires k in keys && |keys| <= 1
    ensures keys == {k}
  {
    assert |keys - {k}| == 0;
  }

  lemma OneReading(s: string, m: map<string, string>, n: map<string, string>)
    requires Renders(s, m) && Renders(s, n) && Count(s) <= 1
    ensures n == m
  {
    RenderedFrom(s, m);
    RenderedFrom(s, n);
    if s != "" {
      var k, v :| s == Pair(k, v) && m == map[k := v] && Count(k) == 0 && Count(v) == 0;
      var l, w :| s == Pair(l, w) && n == map[l := w] && Count(l) == 0 && Count(w) == 0;
      SplitsOnce(k, v, l, w);
    }
  }

  lemma TwoReadings(s: string) returns (a: map<string, string>, b: map<string, string>)
    requires Count(s) >= 2
    ensures Renders(s, a) && Renders(s, b) && a != b
  {
    var i := FirstEquals(s);
    var j := FirstEquals(s[i + 1..]);
    var k, v, l, w := s[..i], s[i + 1..], s[..i + 1 + j], s[i + j + 2..];
    assert s == Pair(k, v) && s == Pair(l, w);
    RendersOne(k, v);
    RendersOne(l, w);
    a, b := map[k := v], map[l := w];
    assert k in a && |k| != |l|;
  }

  lemma SplitsOnce(k: string, v: string, l: string, w: string)
    requires Pair(k, v) == Pair(l, w) && Count(k) == 0 && Count(l) == 0
    ensures k == l && v == w
  {
    NoEquals(k);
    NoEquals(l);
    CutAtFirst(k, '=', v);
    CutAtFirst(l, '=', w);
  }

  lemma {:induction false} NoEquals(s: string)
    ensures Count(s) == 0 <==> '=' !in s
  {
    if s != "" { NoEquals(s[1..]); }
  }

  // A comma inside a value makes a map render like another with clean entries.
  lemma CommaCollides()
    ensures var m, n := map["a" := "b,c=d"], map["a" := "b", "c" := "d"];
      m != n && exists s :: Renders(s, m) && Renders(s, n)
  {
    var m, n := map["a" := "b,c=d"], map["a" := "b", "c" := "d"];
    assert "c" in n && "c" !in m;
    assert SortedKeysOf(["a"], m.Keys);
    assert SortedKeysOf(["a", "c"], n.Keys);
    JoinStep(["a"], m);
    JoinStep(["a", "c"], n);
    JoinStep(["c"], n);
    assert ["a", "c"][1..] == ["c"];
    assert Join(["a"], m) == "a=b,c=d";
    assert Join(["a", "c"], n) == "a=b,c=d";
    assert Renders("a=b,c=d", m) && Renders("a=b,c=d", n);
  }
}
