// The TTL map of (server type, location) pairs that recently failed for capacity.
module Unavailable {
  import opened Basics

  const NUL: char := 0 as char

  function UnavailKey(serverType: string, location: string): string
  {
    serverType + [NUL] + location
  }

  datatype Mark = Mark(serverType: string, location: string, at: nat)

  // What the map holds after a history of marks.
  function ItemsAfter(history: seq<Mark>, ttl: nat): map<string, nat>
  {
    if history == [] then map[]
    else
      var m := history[|history| - 1];
      ItemsAfter(history[..|history| - 1], ttl)[UnavailKey(m.serverType, m.location) := m.at + ttl]
  }

  predicate ReadsUnavailable(items: map<string, nat>, serverType: string, location: string, now: nat)
  {
    var key := UnavailKey(serverType, location);
    key in items && now < items[key]
  }

  // The reading the cache is meant to give: some mark of exactly this pair is
  // less than a TTL old.
  ghost predicate RecentlyMarked(history: seq<Mark>, ttl: nat, serverType: string, location: string, now: nat)
  {
    exists m :: m in history && m.serverType == serverType && m.location == location && now < m.at + ttl
  }

  ghost predicate Chronological(history: seq<Mark>)
  {
    forall i, j :: 0 <= i <= j < |history| ==> history[i].at <= history[j].at
  }

  ghost predicate NulFreeTypes(history: seq<Mark>)
  {
    forall m :: m in history ==> NUL !in m.serverType
  }

  // Two keys with NUL-free server types are equal only for equal pairs: the
  // first NUL ends the server type.
  lemma {:induction false} KeyInjective(t1: string, l1: string, t2: string, l2: string)
    requires NUL !in t1 && NUL !in t2
    requires UnavailKey(t1, l1) == UnavailKey(t2, l2)
    ensures t1 == t2 && l1 == l2
  {
    var k := UnavailKey(t1, l1);
    assert k[|t1|] == NUL && k[|t2|] == NUL by {
      assert UnavailKey(t2, l2)[|t2|] == NUL;
    }
    assert |t1| == |t2|;
    assert k[..|t1|] == t1 && UnavailKey(t2, l2)[..|t2|] == t2;
    assert k[|t1| + 1..] == l1 && UnavailKey(t2, l2)[|t2| + 1..] == l2;
  }

  // A pair can be confused with no other pair exactly when neither name holds NUL.
  lemma KeyUnambiguousIff(t: string, l: string)
    ensures (forall t2, l2 :: UnavailKey(t2, l2) == UnavailKey(t, l) ==> t2 == t && l2 == l)
       <==> NUL !in t && NUL !in l
  {
    if NUL in t {
      var i :| 0 <= i < |t| && t[i] == NUL;
      var t2, l2 := t[..i], t[i + 1..] + [NUL] + l;
      assert UnavailKey(t2, l2) == UnavailKey(t, l);
      assert t2 != t;
    } else if NUL in l {
      var i :| 0 <= i < |l| && l[i] == NUL;
      var t2, l2 := t + [NUL] + l[..i], l[i + 1..];
      assert UnavailKey(t2, l2) == UnavailKey(t, l);
      assert t2 != t;
    } else {
      forall t2, l2 | UnavailKey(t2, l2) == UnavailKey(t, l)
        ensures t2 == t && l2 == l
      {
        var k := UnavailKey(t2, l2);
        assert k[|t2|] == NUL;
        assert forall i :: 0 <= i < |t| ==> UnavailKey(t, l)[i] == t[i];
        assert forall i :: 0 <= i < |l| ==> UnavailKey(t, l)[|t| + 1 + i] == l[i];
        assert |t2| == |t|;
        assert k[..|t2|] == t2 && UnavailKey(t, l)[..|t|] == t;
        assert k[|t2| + 1..] == l2 && UnavailKey(t, l)[|t| + 1..] == l;
      }
    }
  }

  lemma {:induction false} MapReadsRecent(
      history: seq<Mark>, ttl: nat, serverType: string, location: string, now: nat)
    requires Chronological(history) && NulFreeTypes(history) && NUL !in serverType
    ensures ReadsUnavailable(ItemsAfter(history, ttl), serverType, location, now)
       <==> RecentlyMarked(history, ttl, serverType, location, now)
  {
    if history == [] {
    } else {
      var n := |history| - 1;
      var m, rest := history[n], history[..n];
      MapReadsRecent(rest, ttl, serverType, location, now);
      assert history == rest + [m];
      if m.serverType == serverType && m.location == location {
        forall o | o in history
          ensures o.at <= m.at
        {
          var i :| 0 <= i < |history| && history[i] == o;
        }
      } else if UnavailKey(m.serverType, m.location) == UnavailKey(serverType, location) {
        KeyInjective(m.serverType, m.location, serverType, location);
      }
    }
  }

  // The map refines the mark history: it forgets everything but the last mark of
  // each key, and under a monotone clock that loses nothing.
  lemma MapRefinesHistory(history: seq<Mark>, ttl: nat, serverType: string, location: string, now: nat)
    requires Chronological(history) && NulFreeTypes(history) && NUL !in serverType
    ensures ReadsUnavailable(ItemsAfter(history, ttl), serverType, location, now)
       <==> exists m :: m in history && m.serverType == serverType && m.location == location && now < m.at + ttl
  {
    MapReadsRecent(history, ttl, serverType, location, now);
  }

  class UnavailableCache {
    const ttl: nat
    const clock: Clock
    var items: map<string, nat>
    ghost var history: seq<Mark>

    // The map is the image of a history the clock has passed.
    ghost predicate Valid()
      reads this, clock
    {
      && items == ItemsAfter(history, ttl)
      && Chronological(history)
      && forall m :: m in history ==> m.at <= clock.now
    }

    constructor (ttl: nat, clock: Clock)
      ensures Valid() && history == [] && this.ttl == ttl && this.clock == clock
    {
      this.ttl := ttl;
      this.clock := clock;
      items := map[];
      history := [];
    }

    method MarkUnavailable(serverType: string, location: string)
      requires Valid()
      modifies this, clock
      ensures Valid()
      ensures old(clock.now) <= clock.now
      ensures history == old(history) + [Mark(serverType, location, clock.now)]
      ensures items == old(items)[UnavailKey(serverType, location) := clock.now + ttl]
    {
      var now := clock.Read();
      items := items[UnavailKey(serverType, location) := now + ttl];
      history := history + [Mark(serverType, location, now)];
      assert history[..|history| - 1] == old(history);
    }

    // The reading taken at the clock's new value; it says what the history says
    // whenever no server type holds NUL.
    method IsUnavailable(serverType: string, location: string) returns (blocked: bool)
      requires Valid()
      modifies clock
      ensures Valid()
      ensures old(clock.now) <= clock.now
      ensures blocked == ReadsUnavailable(items, serverType, location, clock.now)
      ensures NulFreeTypes(history) && NUL !in serverType ==>
                (blocked <==> RecentlyMarked(history, ttl, serverType, location, clock.now))
    {
      var key := UnavailKey(serverType, location);
      if key in items {
        var now := clock.Read();
        blocked := now < items[key];
      } else {
        blocked := false;
      }
      if NulFreeTypes(history) && NUL !in serverType {
        MapRefinesHistory(history, ttl, serverType, location, clock.now);
      }
    }
  }
}
