// The string operations the provider uses.
module Text {
  // Go's < on strings: byte-wise lexicographic.
  predicate LexLess(a: string, b: string)
  {
    if b == "" then false
    else if a == "" then true
    else a[0] < b[0] || (a[0] == b[0] && LexLess(a[1..], b[1..]))
  }

  lemma {:induction false} LexTrichotomy(a: string, b: string)
    ensures LexLess(a, b) || LexLess(b, a) || a == b
    ensures !(LexLess(a, b) && LexLess(b, a))
    ensures LexLess(a, b) ==> a != b
  {
    if a != "" && b != "" {
      LexTrichotomy(a[1..], b[1..]);
      assert a == [a[0]] + a[1..] && b == [b[0]] + b[1..];
    }
  }

  lemma {:induction false} LexTransitive(a: string, b: string, c: string)
    requires LexLess(a, b) && LexLess(b, c)
    ensures LexLess(a, c)
  {
    if a != "" && a[0] == b[0] == c[0] {
      LexTransitive(a[1..], b[1..], c[1..]);
    }
  }

  // a comes before b exactly when it is a proper prefix of it, or has the smaller
  // character where they first differ.
  lemma {:induction false} LexLessIff(a: string, b: string)
    ensures LexLess(a, b) <==>
      || (a <= b && |a| < |b|)
      || exists i :: 0 <= i < |a| && i < |b| && a[..i] == b[..i] && a[i] < b[i]
  {
    if a != "" && b != "" {
      var s, t := a[1..], b[1..];
      LexLessIff(s, t);
      forall i | 0 < i <= |a| && i <= |b| && a[..i] == b[..i]
        ensures a[0] == b[0]
      {
        assert a[..i][0] == b[..i][0];
      }
      if a[0] == b[0] {
        PrefixShifts(a, b);
        if i :| 0 <= i < |s| && i < |t| && s[..i] == t[..i] && s[i] < t[i] {
          SlicesShift(a, b, i);
          assert a[..i + 1] == b[..i + 1] && a[i + 1] < b[i + 1];
        }
        if i :| 0 <= i < |a| && i < |b| && a[..i] == b[..i] && a[i] < b[i] {
          assert i > 0;
          SlicesShift(a, b, i - 1);
          assert s[..i - 1] == t[..i - 1] && s[i - 1] < t[i - 1];
        }
      } else if a[0] < b[0] {
        assert a[..0] == b[..0];
      }
    }
  }

  lemma PrefixShifts(a: string, b: string)
    requires a != "" && b != "" && a[0] == b[0]
    ensures a <= b <==> a[1..] <= b[1..]
  {
    assert a == [a[0]] + a[1..] && b == [b[0]] + b[1..];
    if a[1..] <= b[1..] {
      assert forall i :: 0 <= i < |a| ==> a[i] == b[i] by {
        forall i | 0 <= i < |a|
          ensures a[i] == b[i]
        {
          assert i > 0 ==> a[1..][i - 1] == b[1..][i - 1];
        }
      }
    }
  }

  lemma SlicesShift(a: string, b: string, i: nat)
    requires a != "" && b != "" && a[0] == b[0] && i < |a| && i < |b|
    ensures a[..i + 1] == b[..i + 1] <==> a[1..][..i] == b[1..][..i]
  {
    assert a[..i + 1] == [a[0]] + a[1..][..i] && b[..i + 1] == [b[0]] + b[1..][..i];
    assert a[..i + 1][1..] == a[1..][..i] && b[..i + 1][1..] == b[1..][..i];
  }

  // strings.ToLower on ASCII.
  function ToLower(s: string): string
  {
    seq(|s|, i requires 0 <= i < |s| =>
      if 'A' <= s[i] <= 'Z' then ((s[i] as int) - ('A' as int) + ('a' as int)) as char else s[i])
  }

  predicate Contains(s: string, part: string)
  {
    part <= s || (s != "" && Contains(s[1..], part))
  }

  // Each upper-case ASCII letter becomes the lower-case one, every other character
  // stays.
  lemma ToLowerMeaning(s: string, i: nat)
    requires i < |s|
    ensures |ToLower(s)| == |s|
    ensures ToLower(s)[i] ==
      if s[i] in "ABCDEFGHIJKLMNOPQRSTUVWXYZ" then (s[i] as int + 32) as char else s[i]
  {
    var capitals := "ABCDEFGHIJKLMNOPQRSTUVWXYZ";
    assert forall k :: 0 <= k < 26 ==> capitals[k] == (65 + k) as char;
    if 'A' <= s[i] <= 'Z' {
      assert capitals[s[i] as int - 65] == s[i];
    }
  }

  // Containing a part is having it as a slice.
  lemma ContainsIff(s: string, part: string)
    ensures Contains(s, part) <==> exists i, j :: 0 <= i <= j <= |s| && s[i..j] == part
  {
    if Contains(s, part) {
      var i := WhereContained(s, part);
      assert s[i..i + |part|] == part;
    }
    if i, j :| 0 <= i <= j <= |s| && s[i..j] == part {
      StandsContained(s, i, j);
    }
  }

  // Where a contained part stands.
  lemma {:induction false} WhereContained(s: string, part: string) returns (i: nat)
    requires Contains(s, part)
    ensures i + |part| <= |s| && s[i..i + |part|] == part
  {
    i := 0;
    if !(part <= s) {
      var k := WhereContained(s[1..], part);
      i := k + 1;
    }
  }

  lemma {:induction false} StandsContained(s: string, i: nat, j: nat)
    requires i <= j <= |s|
    ensures Contains(s, s[i..j])
  {
    if i > 0 {
      StandsContained(s[1..], i - 1, j - 1);
      assert s[1..][i - 1..j - 1] == s[i..j];
    }
  }

  // A lower-case search finds the part in whatever case it was written.
  lemma ContainsAnyCase(s: string, part: string)
    ensures Contains(ToLower(s), part) <==> exists i, j :: 0 <= i <= j <= |s| && ToLower(s[i..j]) == part
  {
    var m := ToLower(s);
    if Contains(m, part) {
      var i := WhereContained(m, part);
      ToLowerSlice(s, i, i + |part|);
      assert ToLower(s[i..i + |part|]) == part;
    }
    if i, j :| 0 <= i <= j <= |s| && ToLower(s[i..j]) == part {
      ToLowerSlice(s, i, j);
      StandsContained(m, i, j);
    }
  }

  lemma ToLowerSlice(s: string, i: nat, j: nat)
    requires i <= j <= |s|
    ensures ToLower(s)[i..j] == ToLower(s[i..j])
  {
  }
}
