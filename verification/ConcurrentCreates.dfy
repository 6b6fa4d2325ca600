// Capacity fallback with several Creates in flight: each looks at the marks and
// chooses while others mark, so one pair can fail more than once, but no more often
// than there are calls in flight at a time.
module ConcurrentCreates {
  import opened Basics
  import opened Unavailable
  import opened Catalogue
  import opened CachePolicy
  import opened NodeClass
  import opened ImageFamily
  import opened Selection
  import R = RefreshProtocol

  // ----- Steps -----

  // A Create in flight: how many marks there were when it began, and the pair it
  // has chosen, once it has.
  datatype Flight = Flight(since: nat, chosen: Option<(string, string)>)

  datatype State = State(marks: seq<Mark>, flying: map<nat, Flight>)

  // What a Create chooses from: the catalogue it was served and, for each offering
  // left by the filter, its own look at the unavailable map.
  datatype Basis = Basis(
    catalogue: seq<TypeV>, locations: seq<string>, glances: seq<seq<R.Glance>>, reqs: Requirements,
    current: seq<ResolvedImage>, lookups: Architecture -> Lookup)

  datatype Event =
    | Begin(id: nat)
    | Choose(id: nat, basis: Basis)
    | Answered(id: nat, noCapacity: bool, at: nat)

  // Every glance falls between the beginning of the call and now.
  ghost predicate Glanced(s: State, since: nat, b: Basis)
  {
    var ts := FilterByLocations(b.catalogue, b.locations);
    && |b.glances| == |ts|
    && (forall x :: 0 <= x < |ts| ==> |b.glances[x]| == |ts[x].offerings|)
    && forall x, y :: 0 <= x < |ts| && 0 <= y < |b.glances[x]| ==> since <= b.glances[x][y].marksSeen <= |s.marks|
  }

  ghost function ListingOf(s: State, since: nat, b: Basis): seq<TypeV>
    requires Glanced(s, since, b)
  {
    var ts := FilterByLocations(b.catalogue, b.locations);
    seq(|ts|, x requires 0 <= x < |ts| => R.OverlaidType(ts[x], s.marks, b.glances[x]))
  }

  ghost predicate Enabled(s: State, e: Event)
  {
    match e
    case Begin(id) => id !in s.flying
    case Choose(id, b) => id in s.flying && s.flying[id].chosen.None? && Glanced(s, s.flying[id].since, b)
    case Answered(id, _, _) => id in s.flying && s.flying[id].chosen.Some?
  }

  ghost function Decided(s: State, id: nat, b: Basis): Decision
    requires Enabled(s, Choose(id, b))
  {
    Decide(ListingOf(s, s.flying[id].since, b), b.reqs, b.current, b.lookups)
  }

  function PairOf(c: Choice): (string, string)
  {
    (c.itype.name, c.offering.zone)
  }

  ghost function Apply(s: State, e: Event): State
    requires Enabled(s, e)
  {
    match e
    case Begin(id) => s.(flying := s.flying[id := Flight(|s.marks|, None)])
    case Choose(id, b) =>
      var d := Decided(s, id, b);
      if d.Launch? then s.(flying := s.flying[id := s.flying[id].(chosen := Some(PairOf(d.choice)))])
      else s.(flying := s.flying - {id})
    case Answered(id, noCapacity, at) =>
      var (serverType, location) := s.flying[id].chosen.value;
      State(if noCapacity then s.marks + [Mark(serverType, location, at)] else s.marks, s.flying - {id})
  }

  // At most most calls in flight, and all of it within one TTL of start, over
  // catalogues with these pairs.
  ghost predicate Bounded(s: State, e: Event, most: nat, start: nat, pool: set<(string, string)>)
  {
    match e
    case Begin(_) => |s.flying| < most
    case Choose(_, b) =>
      && CatalogueIn(b.catalogue, pool)
      && forall x, y :: 0 <= x < |b.glances| && 0 <= y < |b.glances[x]| ==>
           b.glances[x][y].at < start + UNAVAILABLE_TTL
    case Answered(_, _, at) => start <= at
  }

  ghost predicate ValidRun(s: State, es: seq<Event>, most: nat, start: nat, pool: set<(string, string)>)
    decreases |es|
  {
    es == [] || (Enabled(s, es[0]) && Bounded(s, es[0], most, start, pool)
                 && ValidRun(Apply(s, es[0]), es[1..], most, start, pool))
  }

  ghost function Run(s: State, es: seq<Event>, most: nat, start: nat, pool: set<(string, string)>): State
    requires ValidRun(s, es, most, start, pool)
    decreases |es|
  {
    if es == [] then s else Run(Apply(s, es[0]), es[1..], most, start, pool)
  }

  // ----- How often one pair was marked -----

  function Hits(marks: seq<Mark>, p: (string, string)): nat
  {
    if marks == [] then 0
    else
      var m := marks[|marks| - 1];
      Hits(marks[..|marks| - 1], p) + if (m.serverType, m.location) == p then 1 else 0
  }

  lemma HitsAppend(marks: seq<Mark>, m: Mark, p: (string, string))
    ensures Hits(marks + [m], p) == Hits(marks, p) + if (m.serverType, m.location) == p then 1 else 0
  {
    assert (marks + [m])[..|marks + [m]| - 1] == marks;
  }

  ghost predicate Marked(marks: seq<Mark>, p: (string, string))
  {
    exists m :: m in marks && (m.serverType, m.location) == p
  }

  lemma {:induction false} HitsMarked(marks: seq<Mark>, p: (string, string))
    ensures Hits(marks, p) > 0 <==> Marked(marks, p)
  {
    if marks != [] {
      HitsMarked(marks[..|marks| - 1], p);
      assert marks == marks[..|marks| - 1] + [marks[|marks| - 1]];
    }
  }

  // ----- The invariant -----

  // A call that can still mark p, as far as is known: it chose p, or it has not
  // chosen and began before the first mark of p since base.
  ghost predicate Threatens(s: State, base: nat, f: Flight, p: (string, string))
    requires base <= |s.marks| && f.since <= |s.marks|
  {
    match f.chosen
    case Some(q) => q == p
    case None => f.since <= base || !Marked(s.marks[base..f.since], p)
  }

  ghost predicate Placed(s: State, base: nat, start: nat, pool: set<(string, string)>)
  {
    && base <= |s.marks|
    && (forall id :: id in s.flying ==> s.flying[id].since <= |s.marks|)
    && (forall id :: id in s.flying && s.flying[id].chosen.Some? ==> s.flying[id].chosen.value in pool)
    && (forall m :: m in s.marks[base..] ==> start <= m.at && (m.serverType, m.location) in pool)
  }

  ghost function Threats(s: State, base: nat, p: (string, string)): set<nat>
    requires base <= |s.marks| && forall id :: id in s.flying ==> s.flying[id].since <= |s.marks|
  {
    set id | id in s.flying && Threatens(s, base, s.flying[id], p)
  }

  // Once p was marked, its marks and the calls that can still mark it are together
  // no more than the calls that can be in flight.
  ghost predicate Inv(s: State, base: nat, most: nat, start: nat, pool: set<(string, string)>)
  {
    && Placed(s, base, start, pool)
    && |s.flying| <= most
    && forall p :: Marked(s.marks[base..], p) ==> Hits(s.marks[base..], p) + |Threats(s, base, p)| <= most
  }

  // What was chosen is of the catalogue, and was not marked when it was looked at.
  lemma ChosenWasFree(s: State, id: nat, b: Basis) returns (t: TypeV, o: OfferingV, g: R.Glance)
    requires Enabled(s, Choose(id, b)) && Decided(s, id, b).Launch?
    ensures t in FilterByLocations(b.catalogue, b.locations) && o in t.offerings
    ensures PairOf(Decided(s, id, b).choice) == (t.name, o.zone)
    ensures exists x, y :: 0 <= x < |b.glances| && 0 <= y < |b.glances[x]| && b.glances[x][y] == g
    ensures g.marksSeen <= |s.marks|
    ensures !ReadsUnavailable(ItemsAfter(s.marks[..g.marksSeen], UNAVAILABLE_TTL), t.name, o.zone, g.at)
  {
    var ts, listing := FilterByLocations(b.catalogue, b.locations), ListingOf(s, s.flying[id].since, b);
    ScanFindsLeast(listing, b.reqs, b.current);
    var c := Decided(s, id, b).choice;
    CheapestMeaning(c.itype.offerings, b.reqs);
    var x :| 0 <= x < |listing| && listing[x] == c.itype;
    var y :| 0 <= y < |c.itype.offerings| && c.itype.offerings[y] == c.offering;
    t, o, g := ts[x], ts[x].offerings[y], b.glances[x][y];
    assert c.itype == R.OverlaidType(t, s.marks, b.glances[x]);
    assert c.offering == R.OverlayAt(o, t.name, s.marks, g);
  }

  // A mark made in the window is seen by every later glance in it.
  lemma MarkHides(s: State, base: nat, start: nat, m: Mark, g: R.Glance)
    requires base <= g.marksSeen <= |s.marks| && g.at < start + UNAVAILABLE_TTL
    requires m in s.marks[base..g.marksSeen] && forall o :: o in s.marks[base..] ==> start <= o.at
    ensures ReadsUnavailable(ItemsAfter(s.marks[..g.marksSeen], UNAVAILABLE_TTL), m.serverType, m.location, g.at)
  {
    var made := s.marks[base..g.marksSeen];
    assert s.marks[..g.marksSeen] == s.marks[..base] + made;
    assert made <= s.marks[base..];
    MarkedReadsUnavailable(s.marks[..base], made, UNAVAILABLE_TTL, start, g.at, m);
  }

  // A call that began after a mark of p in the window does not choose p.
  lemma ChoosesAnother(s: State, base: nat, start: nat, pool: set<(string, string)>, id: nat, b: Basis)
    requires Enabled(s, Choose(id, b)) && Bounded(s, Choose(id, b), 0, start, pool) && Placed(s, base, start, pool)
    requires Decided(s, id, b).Launch?
    ensures PairOf(Decided(s, id, b).choice) in pool
    ensures Threatens(s, base, s.flying[id], PairOf(Decided(s, id, b).choice))
  {
    var since := s.flying[id].since;
    var t, o, g := ChosenWasFree(s, id, b);
    FilteredIn(b.catalogue, b.locations, pool, t, o);
    var x, y :| 0 <= x < |b.glances| && 0 <= y < |b.glances[x]| && b.glances[x][y] == g;
    assert since <= g.marksSeen && g.at < start + UNAVAILABLE_TTL;
    if since > base && Marked(s.marks[base..since], (t.name, o.zone)) {
      MarkedHides(s, base, start, since, (t.name, o.zone), g);
    }
  }

  lemma MarkedHides(s: State, base: nat, start: nat, since: nat, p: (string, string), g: R.Glance)
    requires base <= since <= g.marksSeen <= |s.marks| && g.at < start + UNAVAILABLE_TTL
    requires Marked(s.marks[base..since], p) && forall o :: o in s.marks[base..] ==> start <= o.at
    ensures ReadsUnavailable(ItemsAfter(s.marks[..g.marksSeen], UNAVAILABLE_TTL), p.0, p.1, g.at)
  {
    var m :| m in s.marks[base..since] && (m.serverType, m.location) == p;
    assert s.marks[base..since] <= s.marks[base..g.marksSeen];
    MarkHides(s, base, start, m, g);
  }

  // The filter only removes.
  lemma FilteredIn(ts: seq<TypeV>, locations: seq<string>, pool: set<(string, string)>, t: TypeV, o: OfferingV)
    requires CatalogueIn(ts, pool) && t in FilterByLocations(ts, locations) && o in t.offerings
    ensures (t.name, o.zone) in pool
  {
    if locations != [] {
      KeepTypesMembers(ts, locations, t);
      var u :| u in ts && t == u.(offerings := KeepZones(u.offerings, locations));
      KeepZonesMembers(u.offerings, locations, o);
    }
  }

  // ----- What each step keeps -----

  // A call that begins threatens no pair already marked.
  lemma BeginKeepsInv(s: State, id: nat, base: nat, most: nat, start: nat, pool: set<(string, string)>)
    requires Inv(s, base, most, start, pool) && Enabled(s, Begin(id)) && |s.flying| < most
    ensures Inv(Apply(s, Begin(id)), base, most, start, pool)
  {
    var s' := Apply(s, Begin(id));
    assert s'.flying.Keys == s.flying.Keys + {id};
    forall p | Marked(s.marks[base..], p)
      ensures Threats(s', base, p) == Threats(s, base, p)
    {
      assert s.marks[base..|s.marks|] == s.marks[base..];
      assert !Threatens(s', base, s'.flying[id], p);
    }
  }

  lemma ChooseKeepsInv(
      s: State, id: nat, b: Basis, base: nat, most: nat, start: nat, pool: set<(string, string)>)
    requires Inv(s, base, most, start, pool) && Enabled(s, Choose(id, b))
    requires Bounded(s, Choose(id, b), most, start, pool)
    ensures Inv(Apply(s, Choose(id, b)), base, most, start, pool)
  {
    var s', d := Apply(s, Choose(id, b)), Decided(s, id, b);
    if d.Launch? {
      ChoosesAnother(s, base, start, pool, id, b);
      assert s'.flying.Keys == s.flying.Keys;
    } else {
      assert s'.flying.Keys == s.flying.Keys - {id};
    }
    forall p | Marked(s.marks[base..], p)
      ensures |Threats(s', base, p)| <= |Threats(s, base, p)|
    {
      assert Threats(s', base, p) <= Threats(s, base, p);
      SubsetSmaller(Threats(s', base, p), Threats(s, base, p));
    }
  }

  lemma SubsetSmaller<T>(a: set<T>, b: set<T>)
    requires a <= b
    ensures |a| <= |b|
  {
    assert |b - a| == |b| - |a|;
  }

  lemma AnsweredKeepsInv(
      s: State, id: nat, noCapacity: bool, at: nat, base: nat, most: nat, start: nat, pool: set<(string, string)>)
    requires Inv(s, base, most, start, pool) && Enabled(s, Answered(id, noCapacity, at)) && start <= at
    ensures Inv(Apply(s, Answered(id, noCapacity, at)), base, most, start, pool)
  {
    var s', q := Apply(s, Answered(id, noCapacity, at)), s.flying[id].chosen.value;
    assert s'.flying.Keys == s.flying.Keys - {id};
    if noCapacity {
      assert s'.marks[base..] == s.marks[base..] + [Mark(q.0, q.1, at)];
    }
    forall p | Marked(s'.marks[base..], p)
      ensures Hits(s'.marks[base..], p) + |Threats(s', base, p)| <= most
    {
      AnsweredKeepsBound(s, id, noCapacity, at, base, most, start, pool, p);
    }
  }

  lemma AnsweredKeepsBound(
      s: State, id: nat, noCapacity: bool, at: nat, base: nat, most: nat, start: nat, pool: set<(string, string)>,
      p: (string, string))
    requires Inv(s, base, most, start, pool) && Enabled(s, Answered(id, noCapacity, at)) && start <= at
    requires Marked(Apply(s, Answered(id, noCapacity, at)).marks[base..], p)
    ensures var s' := Apply(s, Answered(id, noCapacity, at));
      Hits(s'.marks[base..], p) + |Threats(s', base, p)| <= most
  {
    var s', q := Apply(s, Answered(id, noCapacity, at)), s.flying[id].chosen.value;
    var made, threats := s.marks[base..], Threats(s, base, p);
    HitsMarked(made, p);
    HitsAfter(s, id, noCapacity, at, base, p);
    ThreatsWithout(s, id, noCapacity, at, base, p);
    if Hits(made, p) == 0 {
      SubsetSmaller(threats - {id}, s.flying.Keys - {id});
    } else if q == p {
      assert id in threats;
    } else {
      SubsetSmaller(threats - {id}, threats);
    }
  }

  lemma HitsAfter(s: State, id: nat, noCapacity: bool, at: nat, base: nat, p: (string, string))
    requires Enabled(s, Answered(id, noCapacity, at)) && base <= |s.marks|
    ensures var s' := Apply(s, Answered(id, noCapacity, at));
      && base <= |s'.marks|
      && Hits(s'.marks[base..], p) ==
           Hits(s.marks[base..], p) + if noCapacity && s.flying[id].chosen == Some(p) then 1 else 0
  {
    var s', q := Apply(s, Answered(id, noCapacity, at)), s.flying[id].chosen.value;
    if noCapacity {
      HitsAppend(s.marks[base..], Mark(q.0, q.1, at), p);
      assert s'.marks[base..] == s.marks[base..] + [Mark(q.0, q.1, at)];
    }
  }

  // A call that is answered threatens no more, and the others threaten as before.
  lemma ThreatsWithout(s: State, id: nat, noCapacity: bool, at: nat, base: nat, p: (string, string))
    requires Enabled(s, Answered(id, noCapacity, at)) && base <= |s.marks|
    requires forall i :: i in s.flying ==> s.flying[i].since <= |s.marks|
    ensures var s' := Apply(s, Answered(id, noCapacity, at));
      base <= |s'.marks| && (forall i :: i in s'.flying ==> s'.flying[i].since <= |s'.marks|)
      && Threats(s', base, p) == Threats(s, base, p) - {id}
  {
    var s' := Apply(s, Answered(id, noCapacity, at));
    forall i | i in s'.flying
      ensures Threatens(s', base, s'.flying[i], p) <==> Threatens(s, base, s.flying[i], p)
    {
      var since := s.flying[i].since;
      if since > base { assert s'.marks[base..since] == s.marks[base..since]; }
    }
  }

  lemma StepKeepsInv(s: State, e: Event, base: nat, most: nat, start: nat, pool: set<(string, string)>)
    requires Inv(s, base, most, start, pool) && Enabled(s, e) && Bounded(s, e, most, start, pool)
    ensures Inv(Apply(s, e), base, most, start, pool) && s.marks <= Apply(s, e).marks
  {
    match e
    case Begin(id) => BeginKeepsInv(s, id, base, most, start, pool);
    case Choose(id, b) => ChooseKeepsInv(s, id, b, base, most, start, pool);
    case Answered(id, noCapacity, at) => AnsweredKeepsInv(s, id, noCapacity, at, base, most, start, pool);
  }

  lemma {:induction false} RunKeepsInv(
      s: State, es: seq<Event>, base: nat, most: nat, start: nat, pool: set<(string, string)>)
    requires Inv(s, base, most, start, pool) && ValidRun(s, es, most, start, pool)
    ensures Inv(Run(s, es, most, start, pool), base, most, start, pool)
    ensures s.marks <= Run(s, es, most, start, pool).marks
    decreases |es|
  {
    if es != [] {
      StepKeepsInv(s, es[0], base, most, start, pool);
      RunKeepsInv(Apply(s, es[0]), es[1..], base, most, start, pool);
    }
  }

  // ----- The bound -----

  function Without(marks: seq<Mark>, p: (string, string)): seq<Mark>
  {
    if marks == [] then []
    else
      var init, m := Without(marks[..|marks| - 1], p), marks[|marks| - 1];
      if (m.serverType, m.location) == p then init else init + [m]
  }

  lemma {:induction false} WithoutMeaning(marks: seq<Mark>, p: (string, string), q: (string, string))
    ensures |marks| == Hits(marks, p) + |Without(marks, p)|
    ensures Hits(Without(marks, p), q) == if q == p then 0 else Hits(marks, q)
    ensures forall m :: m in Without(marks, p) ==> m in marks && (m.serverType, m.location) != p
  {
    if marks != [] {
      var init, m := marks[..|marks| - 1], marks[|marks| - 1];
      WithoutMeaning(init, p, q);
      HitsAppend(Without(init, p), m, q);
      assert marks == init + [m];
    }
  }

  // Marks of pairs of the pool, none hit more than most times.
  lemma {:induction false} FewHitsEach(marks: seq<Mark>, pool: set<(string, string)>, most: nat)
    requires forall m :: m in marks ==> (m.serverType, m.location) in pool
    requires forall p :: Hits(marks, p) <= most
    ensures |marks| <= most * |pool|
    decreases |pool|
  {
    if marks != [] {
      assert marks[0] in marks;
      var p := (marks[0].serverType, marks[0].location);
      var rest := Without(marks, p);
      WithoutMeaning(marks, p, p);
      WithoutFew(marks, p, most);
      FewHitsEach(rest, pool - {p}, most);
      OneLess(|marks|, |rest|, most, |pool - {p}|);
    }
  }

  lemma WithoutFew(marks: seq<Mark>, p: (string, string), most: nat)
    requires forall q :: Hits(marks, q) <= most
    ensures forall q :: Hits(Without(marks, p), q) <= most
  {
    forall q
      ensures Hits(Without(marks, p), q) <= most
    {
      WithoutMeaning(marks, p, q);
    }
  }

  lemma OneLess(n: nat, rest: nat, most: nat, pairs: nat)
    requires n <= most + rest && rest <= most * pairs
    ensures n <= most * (pairs + 1)
  {
  }

  // From any state of the provider, with calls in flight that chose as they would:
  // while at most most are in flight at a time and all falls within one TTL, no pair
  // fails more than most times, and the failures are no more than most times the
  // pairs.
  lemma ConcurrentFailuresBounded(
      s: State, es: seq<Event>, most: nat, start: nat, pool: set<(string, string)>)
    requires ValidRun(s, es, most, start, pool) && |s.flying| <= most
    requires Placed(s, |s.marks|, start, pool)
    ensures var marks := Run(s, es, most, start, pool).marks;
      && s.marks <= marks
      && (forall p :: Hits(marks[|s.marks|..], p) <= most)
      && |marks| - |s.marks| <= most * |pool|
  {
    var base := |s.marks|;
    assert s.marks[base..] == [];
    RunKeepsInv(s, es, base, most, start, pool);
    var made := Run(s, es, most, start, pool).marks[base..];
    forall p
      ensures Hits(made, p) <= most
    {
      HitsMarked(made, p);
    }
    FewHitsEach(made, pool, most);
  }
}
