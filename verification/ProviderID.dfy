// Provider IDs: "hcloud://" followed by a decimal int64.
module ProviderID {
  import opened Basics

  const PREFIX: string := "hcloud://"
  const MIN_INT64: int := -0x8000_0000_0000_0000
  const MAX_INT64: int := 0x7fff_ffff_ffff_ffff

  predicate IsInt64(n: int)
  {
    MIN_INT64 <= n <= MAX_INT64
  }

  function Digit(d: nat): char
    requires d < 10
  {
    ('0' as int + d) as char
  }

  function FormatNat(n: nat): string
  {
    if n < 10 then [Digit(n)] else FormatNat(n / 10) + [Digit(n % 10)]
  }

  // strconv.FormatInt(n, 10).
  function FormatInt(n: int): string
  {
    if n < 0 then "-" + FormatNat(-n) else FormatNat(n)
  }

  function ParseNat(s: string): Option<nat>
  {
    if s == "" then None
    else
      var c := s[|s| - 1];
      if !('0' <= c <= '9') then None
      else
        var d := c as int - '0' as int;
        if |s| == 1 then Some(d)
        else
          var init := ParseNat(s[..|s| - 1]);
          if init.None? then None else Some(init.value * 10 + d)
  }

  // Decimal notation: each digit stands for itself, and what precedes a text of n
  // digits counts ten to the n times.
  lemma DigitsMeanThemselves(c: char)
    ensures ParseNat([c]) == match c
      case '0' => Some(0) case '1' => Some(1) case '2' => Some(2) case '3' => Some(3) case '4' => Some(4)
      case '5' => Some(5) case '6' => Some(6) case '7' => Some(7) case '8' => Some(8) case '9' => Some(9)
      case _ => None
  {
  }

  lemma NothingIsNoNumber()
    ensures ParseNat("") == None
  {
  }

  function TenTo(n: nat): nat
  {
    if n == 0 then 1 else 10 * TenTo(n - 1)
  }

  lemma {:induction false} ParseNatPositional(a: string, b: string)
    requires a != "" && b != ""
    ensures ParseNat(a + b).Some? <==> ParseNat(a).Some? && ParseNat(b).Some?
    ensures ParseNat(a + b).Some? ==>
      ParseNat(a + b).value == ParseNat(a).value * TenTo(|b|) + ParseNat(b).value
  {
    var init, c := b[..|b| - 1], b[|b| - 1];
    assert (a + b)[..|a + b| - 1] == a + init && (a + b)[|a + b| - 1] == c;
    if init == "" {
      assert a + init == a && TenTo(1) == 10;
    } else {
      ParseNatPositional(a, init);
      if ParseNat(a + b).Some? {
        Shift(ParseNat(a).value, TenTo(|init|), ParseNat(init).value, c as int - '0' as int);
      }
    }
  }

  lemma Shift(m: nat, t: nat, n: nat, d: nat)
    ensures (m * t + n) * 10 + d == m * (10 * t) + (n * 10 + d)
  {
  }

  // strconv.ParseInt(s, 10, 64): an optional sign, one or more digits, in range.
  function ParseInt(s: string): (r: Option<int>)
    ensures r.Some? ==> IsInt64(r.value)
  {
    var negative := s != "" && s[0] == '-';
    var magnitude := ParseNat(if s != "" && (s[0] == '-' || s[0] == '+') then s[1..] else s);
    if magnitude.None? then None
    else
      var m: int := magnitude.value;
      var n := if negative then -m else m;
      if IsInt64(n) then Some(n) else None
  }

  // A sign is read as one, before digits only, and the number must fit 64 bits.
  lemma ParseIntMeaning(digits: string)
    requires ParseNat(digits).Some?
    ensures var n: int := ParseNat(digits).value;
      && ParseInt(digits) == (if n <= 0x7fff_ffff_ffff_ffff then Some(n) else None)
      && ParseInt("+" + digits) == ParseInt(digits)
      && ParseInt("-" + digits) == if n <= 0x8000_0000_0000_0000 then Some(-n) else None
  {
    FirstIsDigit(digits);
    assert ("+" + digits)[1..] == digits && ("-" + digits)[1..] == digits;
  }

  lemma OnlySignedDigitsParse(s: string)
    requires ParseInt(s).Some?
    ensures ParseNat(s).Some? || (s != "" && s[0] in "+-" && ParseNat(s[1..]).Some?)
  {
    assert "+-"[0] == '+' && "+-"[1] == '-';
  }

  lemma {:induction false} FirstIsDigit(s: string)
    requires ParseNat(s).Some?
    ensures '0' <= s[0] <= '9'
  {
    if |s| > 1 {
      FirstIsDigit(s[..|s| - 1]);
    }
  }

  // Only texts that begin with "hcloud://" can parse, and what follows is the number.
  lemma ParseProviderIDMeaning(s: string)
    ensures ParseProviderID("hcloud://" + s) == ParseInt(s)
    ensures ParseProviderID(s).Some? ==> exists t :: s == "hcloud://" + t && ParseInt(t) == ParseProviderID(s)
  {
    assert PREFIX <= PREFIX + s && (PREFIX + s)[|PREFIX|..] == s;
    if ParseProviderID(s).Some? {
      assert s == PREFIX + s[|PREFIX|..];
    }
  }

  function FormatProviderID(id: int): string
  {
    PREFIX + FormatInt(id)
  }

  function ParseProviderID(s: string): Option<int>
  {
    if PREFIX <= s then ParseInt(s[|PREFIX|..]) else None
  }

  lemma {:induction false} NatRoundTrip(n: nat)
    ensures ParseNat(FormatNat(n)) == Some(n)
    ensures '0' <= FormatNat(n)[0] <= '9'
  {
    var s := FormatNat(n);
    if n >= 10 {
      NatRoundTrip(n / 10);
      assert s[..|s| - 1] == FormatNat(n / 10) && s[|s| - 1] == Digit(n % 10);
      assert s[0] == FormatNat(n / 10)[0];
    }
  }

  lemma IntRoundTrip(n: int)
    ensures ParseInt(FormatInt(n)) == if IsInt64(n) then Some(n) else None
  {
    NatRoundTrip(if n < 0 then -n else n);
    if n < 0 {
      assert FormatInt(n)[1..] == FormatNat(-n);
    }
  }

  // Formatting and parsing back is the identity on every int64, the minimum
  // included; beyond int64 it is an error.
  lemma RoundTrip(id: int)
    ensures ParseProviderID(FormatProviderID(id)) == if IsInt64(id) then Some(id) else None
  {
    var s := FormatProviderID(id);
    assert PREFIX <= s && s[|PREFIX|..] == FormatInt(id);
    IntRoundTrip(id);
  }

  // Distinct numbers have distinct texts.
  lemma FormatInjective(m: int, n: int)
    requires FormatInt(m) == FormatInt(n)
    ensures m == n
  {
    NatRoundTrip(if m < 0 then -m else m);
    NatRoundTrip(if n < 0 then -n else n);
    if m < 0 { assert FormatInt(m)[1..] == FormatNat(-m); }
    if n < 0 { assert FormatInt(n)[1..] == FormatNat(-n); }
  }

  // What parses, formatted again, parses to the same number.
  lemma Reparse(s: string)
    requires ParseProviderID(s).Some?
    ensures ParseProviderID(FormatProviderID(ParseProviderID(s).value)) == ParseProviderID(s)
  {
    RoundTrip(ParseProviderID(s).value);
  }

  // The decimal texts Format writes: no plus sign, no "-0", and no leading zero.
  predicate Canonical(s: string)
  {
    var digits := if s != "" && s[0] == '-' then s[1..] else s;
    && digits != "" && digits[0] != '+'
    && (digits[0] == '0' ==> s == "0")
  }

  lemma {:induction false} FormatLeads(n: nat)
    ensures '0' <= FormatNat(n)[0] <= '9'
    ensures FormatNat(n)[0] == '0' ==> n == 0
  {
    if n >= 10 {
      FormatLeads(n / 10);
    }
  }

  lemma FormatShifts(n: nat, d: nat)
    requires n > 0 && d < 10
    ensures FormatNat(n * 10 + d) == FormatNat(n) + [Digit(d)]
  {
    assert (n * 10 + d) / 10 == n && (n * 10 + d) % 10 == d;
  }

  // Digits without a leading zero are what their number formats to.
  lemma {:induction false} NatReformat(s: string)
    requires ParseNat(s).Some? && (s[0] == '0' ==> s == "0")
    ensures FormatNat(ParseNat(s).value) == s
    ensures ParseNat(s).value == 0 ==> s == "0"
  {
    var c := s[|s| - 1];
    if |s| == 1 {
      assert s == [c];
    } else {
      var init := s[..|s| - 1];
      assert init[0] == s[0];
      NatReformat(init);
      FormatShifts(ParseNat(init).value, c as int - '0' as int);
      assert s == init + [c];
    }
  }

  lemma IntReformat(s: string)
    requires ParseInt(s).Some?
    ensures FormatInt(ParseInt(s).value) == s <==> Canonical(s)
  {
    var n := ParseInt(s).value;
    FormatLeads(if n < 0 then -n else n);
    var signed := s[0] == '-' || s[0] == '+';
    var digits := if signed then s[1..] else s;
    assert ParseNat(digits).Some?;
    if Canonical(s) {
      NatReformat(digits);
      assert s[0] == '-' ==> s == "-" + digits;
    } else if n < 0 {
      assert FormatInt(n)[0] == '-' && FormatInt(n)[1] == FormatNat(-n)[0];
    }
  }

  // What parses, formatted again, is the same text exactly when it was written as
  // Format writes it.
  lemma FormatAfterParseIff(s: string)
    requires ParseProviderID(s).Some?
    ensures FormatProviderID(ParseProviderID(s).value) == s <==> Canonical(s[|PREFIX|..])
  {
    var text := s[|PREFIX|..];
    assert s == PREFIX + text;
    IntReformat(text);
    var t := FormatInt(ParseInt(text).value);
    assert (PREFIX + t)[|PREFIX|..] == t;
  }

  // A leading zero is lost.
  lemma FormatAfterParseNotIdentity()
    ensures ParseProviderID("hcloud://007") == Some(7)
    ensures FormatProviderID(7) == "hcloud://7" != "hcloud://007"
  {
    var s := "hcloud://007";
    assert s[|PREFIX|..] == "007";
    assert "007"[..2] == "00" && "00"[..1] == "0";
    assert ParseNat("0") == Some(0) && ParseNat("00") == Some(0) && ParseNat("007") == Some(7);
  }
}
