// The concurrent refresh protocol of List as a step system: any number of
// callers, each with a program counter, interleaved at every lock, cache read,
// API call and store, under a clock that never goes back.
module RefreshProtocol {
  import opened Basics
  import opened Unavailable
  import opened Catalogue
  import opened CachePolicy

  // ----- States -----

  // What one caller has seen so far.
  datatype Trace = Trace(
    entryCache: Option<Cached>, entryAt: nat, waited: Option<Cached>, recheckAt: nat, fetch: Fetch, settledAt: nat)

  // The catalogue a caller is about to filter and overlay: where it came from,
  // when the cache was read or written, and how many stores had happened by then.
  datatype Reply = Reply(types: seq<TypeV>, source: Source, readAt: nat, storesSeen: nat)

  // One look at the unavailable map, which is locked once per offering: when, and
  // how many marks had been made.
  datatype Glance = Glance(at: nat, marksSeen: nat)

  datatype Answer =
    | Listing(reply: Reply, listing: seq<TypeV>, glances: seq<seq<Glance>>)
    | Failure(failedAt: nat)

  datatype Pc =
    | Idle
    | Entering                                      // about to read the cache
    | Waiting(tr: Trace)                            // missed; wants refreshMu
    | Rechecking(tr: Trace)                         // holds refreshMu
    | Missed(tr: Trace)                             // missed again
    | Calling(tr: Trace, startedAt: nat)            // inside client.All
    | Returned(tr: Trace)                           // client.All came back
    | Serving(tr: Trace, reply: Reply, locked: bool)
    | Unlocking(tr: Trace, answer: Answer)
    | Done(tr: Trace, answer: Answer)

  datatype ApiCall = ApiCall(caller: nat, startedAt: nat, storesBefore: nat)

  datatype State = State(
    now: nat,
    cache: Option<Cached>,
    marks: seq<Mark>,
    holder: Option<nat>,         // who holds refreshMu
    wants: seq<seq<string>>,     // each caller's locations
    pcs: seq<Pc>,
    calls: seq<ApiCall>,         // history of API calls
    stores: seq<Cached>)         // history of stores

  datatype Event =
    | Tick(elapsed: nat)
    | MarkPair(serverType: string, location: string)
    | Arrive(i: nat)
    | Look(i: nat)
    | Acquire(i: nat)
    | Recheck(i: nat)
    | Call(i: nat)
    | Return(i: nat, fetch: Fetch)
    | Settle(i: nat)
    | Finish(i: nat, glances: seq<seq<Glance>>)
    | Unlock(i: nat)

  ghost predicate Initial(s: State)
  {
    && s.cache == None && s.holder == None && s.calls == [] && s.stores == [] && s.marks == []
    && |s.wants| == |s.pcs|
    && forall i :: 0 <= i < |s.pcs| ==> s.pcs[i] == Idle
  }

  // ----- Steps -----

  ghost predicate Enabled(s: State, e: Event)
  {
    match e
    case Tick(_) => true
    case MarkPair(_, _) => true
    case Arrive(i) => i < |s.pcs| && s.pcs[i].Idle?
    case Look(i) => i < |s.pcs| && s.pcs[i].Entering?
    case Acquire(i) => i < |s.pcs| && s.pcs[i].Waiting? && s.holder.None?
    case Recheck(i) => i < |s.pcs| && s.pcs[i].Rechecking?
    case Call(i) => i < |s.pcs| && s.pcs[i].Missed?
    case Return(i, _) => i < |s.pcs| && s.pcs[i].Calling?
    case Settle(i) => i < |s.pcs| && s.pcs[i].Returned?
    case Finish(i, glances) =>
      && i < |s.pcs| && s.pcs[i].Serving? && i < |s.wants|
      && Glanced(s, i, s.pcs[i].reply, glances)
    case Unlock(i) => i < |s.pcs| && s.pcs[i].Unlocking?
  }

  ghost function Goto(s: State, i: nat, pc: Pc): State
    requires i < |s.pcs|
  {
    s.(pcs := s.pcs[i := pc])
  }

  ghost function Apply(s: State, e: Event): State
    requires Enabled(s, e)
  {
    match e
    case Tick(elapsed) => s.(now := s.now + elapsed)
    case MarkPair(t, l) => s.(marks := s.marks + [Mark(t, l, s.now)])
    case Arrive(i) => Goto(s, i, Entering)
    case Look(i) =>
      var tr := Trace(s.cache, s.now, s.cache, s.now, FetchFailed, s.now);
      if Fresh(s.cache, s.now) then Goto(s, i, Serving(tr, FromCache(s, Hit), false)) else Goto(s, i, Waiting(tr))
    case Acquire(i) => Goto(s, i, Rechecking(s.pcs[i].tr)).(holder := Some(i))
    case Recheck(i) =>
      var tr := s.pcs[i].tr.(waited := s.cache, recheckAt := s.now);
      if Fresh(s.cache, s.now) then Goto(s, i, Serving(tr, FromCache(s, Hit), true)) else Goto(s, i, Missed(tr))
    case Call(i) =>
      Goto(s, i, Calling(s.pcs[i].tr, s.now)).(calls := s.calls + [ApiCall(i, s.now, |s.stores|)])
    case Return(i, fetch) => Goto(s, i, Returned(s.pcs[i].tr.(fetch := fetch)))
    case Settle(i) => Settled(s, i)
    case Finish(i, glances) =>
      var pc := s.pcs[i];
      var answer := Evaluate(s, i, pc.reply, glances);
      Goto(s, i, if pc.locked then Unlocking(pc.tr, answer) else Done(pc.tr, answer))
    case Unlock(i) => Goto(s, i, Done(s.pcs[i].tr, s.pcs[i].answer)).(holder := None)
  }

  // The cached catalogue, read now.
  ghost function FromCache(s: State, source: Source): Reply
    requires s.cache.Some?
  {
    Reply(s.cache.value.types, source, s.now, |s.stores|)
  }

  // Store the fetched catalogue, or fall back to the cached one, or fail.
  ghost function Settled(s: State, i: nat): State
    requires i < |s.pcs| && s.pcs[i].Returned?
  {
    var tr := s.pcs[i].tr.(settledAt := s.now);
    match tr.fetch
    case Fetched(sts) =>
      var types := ToTypesV(sts);
      var stored := Stored(types, s.now);
      Goto(s, i, Serving(tr, Reply(types, Refreshed, s.now, |s.stores| + 1), true))
        .(cache := Some(stored), stores := s.stores + [stored])
    case FetchFailed =>
      if s.cache.Some? then Goto(s, i, Serving(tr, FromCache(s, Stale), true))
      else Goto(s, i, Unlocking(tr, Failure(s.now)))
  }

  // The glances of an overlay, one per offering, any marks landing between them:
  // each after the catalogue was read, each seeing the marks made by then.
  ghost predicate Glanced(s: State, i: nat, reply: Reply, glances: seq<seq<Glance>>)
    requires i < |s.wants|
  {
    var ts := FilterByLocations(reply.types, s.wants[i]);
    && |glances| == |ts|
    && (forall x :: 0 <= x < |ts| ==> |glances[x]| == |ts[x].offerings|)
    && forall x, y :: 0 <= x < |ts| && 0 <= y < |glances[x]| ==>
         GoodGlance(s, glances[x][y]) && reply.readAt <= glances[x][y].at
  }

  ghost predicate GoodGlance(s: State, g: Glance)
  {
    && g.at <= s.now && g.marksSeen <= |s.marks|
    && (forall k :: 0 <= k < g.marksSeen ==> s.marks[k].at <= g.at)
    && (forall k :: g.marksSeen <= k < |s.marks| ==> g.at <= s.marks[k].at)
  }

  ghost function OverlayAt(o: OfferingV, name: string, marks: seq<Mark>, g: Glance): OfferingV
    requires g.marksSeen <= |marks|
  {
    OverlayOffering(name, o, ItemsAfter(marks[..g.marksSeen], UNAVAILABLE_TTL), g.at)
  }

  ghost function OverlaidType(t: TypeV, marks: seq<Mark>, gs: seq<Glance>): TypeV
    requires |gs| == |t.offerings| && forall y :: 0 <= y < |gs| ==> gs[y].marksSeen <= |marks|
  {
    t.(offerings := seq(|gs|, y requires 0 <= y < |gs| => OverlayAt(t.offerings[y], t.name, marks, gs[y])))
  }

  // Filter by the caller's locations and overlay the marks, offering by offering.
  ghost function Evaluate(s: State, i: nat, reply: Reply, glances: seq<seq<Glance>>): Answer
    requires i < |s.wants| && Glanced(s, i, reply, glances)
  {
    var ts := FilterByLocations(reply.types, s.wants[i]);
    Listing(reply, seq(|ts|, x requires 0 <= x < |ts| => OverlaidType(ts[x], s.marks, glances[x])), glances)
  }

  ghost predicate ValidRun(s: State, es: seq<Event>)
    decreases |es|
  {
    es == [] || (Enabled(s, es[0]) && ValidRun(Apply(s, es[0]), es[1..]))
  }

  ghost function Run(s: State, es: seq<Event>): State
    requires ValidRun(s, es)
    decreases |es|
  {
    if es == [] then s else Run(Apply(s, es[0]), es[1..])
  }

  // ----- The invariant -----

  predicate Critical(pc: Pc)
  {
    pc.Rechecking? || pc.Missed? || pc.Calling? || pc.Returned? || pc.Unlocking? || (pc.Serving? && pc.locked)
  }

  ghost predicate LockInv(s: State)
  {
    && |s.wants| == |s.pcs|
    && (s.holder.Some? ==> s.holder.value < |s.pcs|)
    && forall i :: 0 <= i < |s.pcs| ==> (Critical(s.pcs[i]) <==> s.holder == Some(i))
  }

  ghost predicate StoresInv(s: State)
  {
    && s.cache == (if s.stores == [] then None else Some(s.stores[|s.stores| - 1]))
    && (forall k :: 0 <= k < |s.stores| ==> s.stores[k].expiry == s.stores[k].at + CACHE_TTL && s.stores[k].at <= s.now)
    && (forall k, l :: 0 <= k < l < |s.stores| ==> s.stores[k].expiry <= s.stores[l].at)
  }

  ghost predicate ExpiredBy(s: State, t: nat)
  {
    s.stores == [] || s.stores[|s.stores| - 1].expiry <= t
  }

  // A reply is the catalogue of the last store at the moment it was read.
  ghost predicate GoodReply(s: State, r: Reply)
  {
    && r.readAt <= s.now
    && 0 < r.storesSeen <= |s.stores|
    && (r.storesSeen < |s.stores| ==> r.readAt <= s.stores[r.storesSeen].at)
    && var last := s.stores[r.storesSeen - 1];
       && r.types == last.types && last.at <= r.readAt
       && (r.source == Hit ==> r.readAt < last.expiry)
       && (r.source == Refreshed ==> r.readAt == last.at)
       && (r.source == Stale ==> last.expiry <= r.readAt)
  }

  // An answer is its reply filtered by the caller's locations, each offering
  // available only if no mark made so far is live.
  ghost predicate GoodAnswer(s: State, i: nat, a: Answer)
    requires i < |s.wants|
  {
    match a
    case Failure(t) => t <= s.now && (s.stores != [] ==> t <= s.stores[0].at)
    case Listing(reply, listing, glances) =>
      GoodReply(s, reply) && Glanced(s, i, reply, glances) && a == Evaluate(s, i, reply, glances)
  }

  ghost function ServedBy(tr: Trace): Served
  {
    Serve(tr.entryCache, tr.entryAt, tr.waited, tr.recheckAt, tr.fetch, tr.settledAt).0
  }

  ghost predicate PcInv(s: State, i: nat)
    requires i < |s.pcs| && i < |s.wants|
  {
    match s.pcs[i]
    case Waiting(tr) => !Fresh(tr.entryCache, tr.entryAt)
    case Rechecking(tr) => !Fresh(tr.entryCache, tr.entryAt)
    case Missed(tr) =>
      !Fresh(tr.entryCache, tr.entryAt) && !Fresh(tr.waited, tr.recheckAt) && tr.waited == s.cache
      && ExpiredBy(s, s.now)
    case Calling(tr, t) =>
      !Fresh(tr.entryCache, tr.entryAt) && !Fresh(tr.waited, tr.recheckAt) && tr.waited == s.cache
      && t <= s.now && ExpiredBy(s, t)
    case Returned(tr) =>
      !Fresh(tr.entryCache, tr.entryAt) && !Fresh(tr.waited, tr.recheckAt) && tr.waited == s.cache
      && ExpiredBy(s, s.now)
    case Serving(tr, r, _) => GoodReply(s, r) && ServedBy(tr) == Served(r.types, r.source)
    case Unlocking(tr, a) => GoodAnswer(s, i, a) && AnsweredBy(tr, a)
    case Done(tr, a) => GoodAnswer(s, i, a) && AnsweredBy(tr, a)
    case _ => true
  }

  // The answer is the one the sequential request computes from what was seen.
  ghost predicate AnsweredBy(tr: Trace, a: Answer)
  {
    ServedBy(tr) == match a case Listing(r, _, _) => Served(r.types, r.source) case Failure(_) => NothingServed
  }

  ghost predicate CallsInv(s: State)
  {
    && (forall c :: 0 <= c < |s.calls| ==>
          && s.calls[c].startedAt <= s.now
          && s.calls[c].storesBefore <= |s.stores|
          && (s.calls[c].storesBefore > 0 ==> s.stores[s.calls[c].storesBefore - 1].expiry <= s.calls[c].startedAt)
          && (s.calls[c].storesBefore < |s.stores| ==> s.calls[c].startedAt <= s.stores[s.calls[c].storesBefore].at))
  }

  ghost predicate MarksInv(s: State)
  {
    Chronological(s.marks) && forall m :: m in s.marks ==> m.at <= s.now
  }

  ghost predicate SharedInv(s: State)
  {
    LockInv(s) && StoresInv(s) && CallsInv(s) && MarksInv(s)
  }

  ghost predicate Inv(s: State)
  {
    && SharedInv(s)
    && forall i :: 0 <= i < |s.pcs| ==> PcInv(s, i)
  }

  // Time, stores and marks only grow, and a new store is not in the past.
  ghost predicate Grows(s: State, s': State)
  {
    && s.now <= s'.now && s.wants == s'.wants && |s.pcs| == |s'.pcs|
    && s.marks <= s'.marks
    && s.stores <= s'.stores
    && (forall k :: |s.stores| <= k < |s'.stores| ==> s.now <= s'.stores[k].at)
    && (forall k :: |s.marks| <= k < |s'.marks| ==> s.now <= s'.marks[k].at)
  }

  lemma StepGrows(s: State, e: Event)
    requires Enabled(s, e)
    ensures Grows(s, Apply(s, e))
  {
  }

  lemma GlancesStable(s: State, s': State, i: nat, reply: Reply, glances: seq<seq<Glance>>)
    requires i < |s.wants| && Grows(s, s') && Glanced(s, i, reply, glances)
    ensures Glanced(s', i, reply, glances)
  {
    var ts := FilterByLocations(reply.types, s.wants[i]);
    forall x, y | 0 <= x < |ts| && 0 <= y < |glances[x]|
      ensures GoodGlance(s', glances[x][y])
    {
      assert GoodGlance(s, glances[x][y]);
    }
  }

  lemma AnswerStable(s: State, s': State, i: nat, a: Answer)
    requires i < |s.wants| && Grows(s, s') && GoodAnswer(s, i, a)
    ensures GoodAnswer(s', i, a)
  {
    if a.Listing? {
      GlancesStable(s, s', i, a.reply, a.glances);
      var ts := FilterByLocations(a.reply.types, s.wants[i]);
      forall x | 0 <= x < |ts|
        ensures OverlaidType(ts[x], s'.marks, a.glances[x]) == OverlaidType(ts[x], s.marks, a.glances[x])
      {
        forall y | 0 <= y < |a.glances[x]|
          ensures s'.marks[..a.glances[x][y].marksSeen] == s.marks[..a.glances[x][y].marksSeen]
        {
        }
      }
    }
  }

  // While a caller holds the refresh lock, nobody else changes the cache.
  lemma HeldCacheFrozen(s: State, e: Event, i: nat)
    requires LockInv(s) && Enabled(s, e)
    requires i < |s.pcs| && Critical(s.pcs[i]) && Apply(s, e).pcs[i] == s.pcs[i]
    ensures Apply(s, e).cache == s.cache && Apply(s, e).stores == s.stores
  {
  }

  // Another caller's step leaves what is known at caller i alone.
  lemma OthersKeepPc(s: State, e: Event, i: nat)
    requires LockInv(s) && Enabled(s, e)
    requires i < |s.pcs| && PcInv(s, i) && Apply(s, e).pcs[i] == s.pcs[i]
    ensures PcInv(Apply(s, e), i)
  {
    StepGrows(s, e);
    if Critical(s.pcs[i]) {
      HeldCacheFrozen(s, e, i);
    }
    KnownStaysTrue(s, Apply(s, e), i);
  }

  lemma KnownStaysTrue(s: State, s': State, i: nat)
    requires Grows(s, s') && |s.wants| == |s.pcs|
    requires i < |s.pcs| && PcInv(s, i) && s'.pcs[i] == s.pcs[i]
    requires Critical(s.pcs[i]) ==> s'.cache == s.cache && s'.stores == s.stores
    ensures PcInv(s', i)
  {
    match s.pcs[i]
    case Unlocking(_, a) => AnswerStable(s, s', i, a);
    case Done(_, a) => AnswerStable(s, s', i, a);
    case _ =>
  }

  lemma SettleKeepsPc(s: State, i: nat)
    requires SharedInv(s) && i < |s.pcs| && PcInv(s, i) && s.pcs[i].Returned?
    ensures PcInv(Settled(s, i), i)
  {
  }

  lemma FinishKeepsPc(s: State, i: nat, glances: seq<seq<Glance>>)
    requires SharedInv(s) && i < |s.pcs| && PcInv(s, i) && Enabled(s, Finish(i, glances))
    ensures PcInv(Apply(s, Finish(i, glances)), i)
  {
    AnswerStable(s, Apply(s, Finish(i, glances)), i, Evaluate(s, i, s.pcs[i].reply, glances));
  }

  lemma UnlockKeepsPc(s: State, i: nat)
    requires SharedInv(s) && i < |s.pcs| && PcInv(s, i) && s.pcs[i].Unlocking?
    ensures PcInv(Apply(s, Unlock(i)), i)
  {
    AnswerStable(s, Apply(s, Unlock(i)), i, s.pcs[i].answer);
  }

  lemma LooksKeepPc(s: State, e: Event, i: nat)
    requires SharedInv(s) && i < |s.pcs| && PcInv(s, i)
    requires (e == Look(i) || e == Recheck(i)) && Enabled(s, e)
    ensures PcInv(Apply(s, e), i)
  {
  }

  lemma OwnStepKeepsPc(s: State, e: Event, i: nat)
    requires SharedInv(s) && i < |s.pcs| && PcInv(s, i) && Enabled(s, e)
    requires Apply(s, e).pcs[i] != s.pcs[i]
    ensures PcInv(Apply(s, e), i)
  {
    match e
    case Look(_) => LooksKeepPc(s, e, i);
    case Recheck(_) => LooksKeepPc(s, e, i);
    case Settle(_) => SettleKeepsPc(s, i);
    case Finish(_, glances) => FinishKeepsPc(s, i, glances);
    case Unlock(_) => UnlockKeepsPc(s, i);
    case _ =>
  }

  lemma StepKeepsLock(s: State, e: Event)
    requires LockInv(s) && Enabled(s, e)
    ensures LockInv(Apply(s, e))
  {
  }

  // Needs the holder's knowledge that the catalogue had expired.
  lemma StepKeepsStores(s: State, e: Event)
    requires StoresInv(s) && Enabled(s, e)
    requires e.Settle? ==> ExpiredBy(s, s.now)
    ensures StoresInv(Apply(s, e))
  {
  }

  // What each kind of step leaves alone.
  lemma StepFrame(s: State, e: Event)
    requires Enabled(s, e)
    ensures !e.Settle? ==> Apply(s, e).cache == s.cache && Apply(s, e).stores == s.stores
    ensures !e.Call? ==> Apply(s, e).calls == s.calls
    ensures !e.MarkPair? ==> Apply(s, e).marks == s.marks
  {
  }

  lemma GrowthKeepsCalls(s: State, s': State)
    requires CallsInv(s) && Grows(s, s') && s'.calls == s.calls
    ensures CallsInv(s')
  {
  }

  lemma NewCallKeepsCalls(s: State, s': State, i: nat)
    requires StoresInv(s) && CallsInv(s) && ExpiredBy(s, s.now)
    requires s'.now == s.now && s'.stores == s.stores && s'.calls == s.calls + [ApiCall(i, s.now, |s.stores|)]
    ensures CallsInv(s')
  {
  }

  lemma StepKeepsCalls(s: State, e: Event)
    requires StoresInv(s) && CallsInv(s) && MarksInv(s) && Enabled(s, e)
    requires e.Call? ==> ExpiredBy(s, s.now)
    ensures CallsInv(Apply(s, e)) && MarksInv(Apply(s, e))
  {
    StepFrame(s, e);
    StepGrows(s, e);
    if e.Call? {
      NewCallKeepsCalls(s, Apply(s, e), e.i);
    } else {
      GrowthKeepsCalls(s, Apply(s, e));
    }
  }

  lemma StepKeepsShared(s: State, e: Event)
    requires SharedInv(s) && Enabled(s, e)
    requires e.Call? || e.Settle? ==> ExpiredBy(s, s.now)
    ensures SharedInv(Apply(s, e))
  {
    StepKeepsLock(s, e);
    StepKeepsStores(s, e);
    StepKeepsCalls(s, e);
  }

  lemma StepKeepsInv(s: State, e: Event)
    requires Inv(s) && Enabled(s, e)
    ensures Inv(Apply(s, e))
  {
    assert e.Call? || e.Settle? ==> PcInv(s, e.i);
    StepKeepsShared(s, e);
    StepKeepsPcs(s, e);
  }

  lemma StepKeepsPcs(s: State, e: Event)
    requires Inv(s) && Enabled(s, e)
    ensures forall i :: 0 <= i < |s.pcs| ==> PcInv(Apply(s, e), i)
  {
    var s' := Apply(s, e);
    forall i | 0 <= i < |s.pcs|
      ensures PcInv(s', i)
    {
      if s'.pcs[i] == s.pcs[i] { OthersKeepPc(s, e, i); } else { OwnStepKeepsPc(s, e, i); }
    }
  }

  // ----- What callers saw -----

  function CacheAfter(stores: seq<Cached>, m: nat): Option<Cached>
    requires m <= |stores|
  {
    if m == 0 then None else Some(stores[m - 1])
  }

  // The cache did read so at t: it is the m-th store, and t lies between that
  // store and the next.
  ghost predicate ReadAt(s: State, cache: Option<Cached>, t: nat, m: nat)
  {
    && m <= |s.stores| && cache == CacheAfter(s.stores, m) && t <= s.now
    && (m > 0 ==> s.stores[m - 1].at <= t)
    && (m < |s.stores| ==> t <= s.stores[m].at)
  }

  ghost predicate RealTrace(s: State, tr: Trace)
  {
    && tr.entryAt <= tr.recheckAt
    && (exists m: nat :: ReadAt(s, tr.entryCache, tr.entryAt, m))
    && (exists m: nat :: ReadAt(s, tr.waited, tr.recheckAt, m))
  }

  ghost predicate TracesInv(s: State)
  {
    forall i :: 0 <= i < |s.pcs| && !s.pcs[i].Idle? && !s.pcs[i].Entering? ==> RealTrace(s, s.pcs[i].tr)
  }

  lemma RealTraceStays(s: State, s': State, tr: Trace)
    requires Grows(s, s') && RealTrace(s, tr)
    ensures RealTrace(s', tr)
  {
    var m: nat :| ReadAt(s, tr.entryCache, tr.entryAt, m);
    var n: nat :| ReadAt(s, tr.waited, tr.recheckAt, n);
    assert ReadAt(s', tr.entryCache, tr.entryAt, m) && ReadAt(s', tr.waited, tr.recheckAt, n);
  }

  // What one step can do to what a caller has seen.
  lemma StepTraces(s: State, e: Event, i: nat)
    requires Enabled(s, e) && i < |s.pcs|
    requires !Apply(s, e).pcs[i].Idle? && !Apply(s, e).pcs[i].Entering?
    ensures var tr' := Apply(s, e).pcs[i].tr;
      if s.pcs[i].Entering? then
        tr'.entryCache == tr'.waited == s.cache && tr'.entryAt == tr'.recheckAt == s.now
      else
        && !s.pcs[i].Idle?
        && tr'.entryCache == s.pcs[i].tr.entryCache && tr'.entryAt == s.pcs[i].tr.entryAt
        && (|| (tr'.waited == s.pcs[i].tr.waited && tr'.recheckAt == s.pcs[i].tr.recheckAt)
            || (tr'.waited == s.cache && tr'.recheckAt == s.now))
  {
  }

  lemma StepKeepsTraces(s: State, e: Event)
    requires StoresInv(s) && TracesInv(s) && Enabled(s, e)
    ensures TracesInv(Apply(s, e))
  {
    var s' := Apply(s, e);
    StepGrows(s, e);
    assert ReadAt(s, s.cache, s.now, |s.stores|);
    forall i | 0 <= i < |s'.pcs| && !s'.pcs[i].Idle? && !s'.pcs[i].Entering?
      ensures RealTrace(s', s'.pcs[i].tr)
    {
      StepTraces(s, e, i);
      TraceStep(s, s.pcs[i], s'.pcs[i].tr);
      RealTraceStays(s, s', s'.pcs[i].tr);
    }
  }

  lemma TraceStep(s: State, pc: Pc, tr': Trace)
    requires ReadAt(s, s.cache, s.now, |s.stores|)
    requires !pc.Idle? && !pc.Entering? ==> RealTrace(s, pc.tr)
    requires if pc.Entering? then
        tr'.entryCache == tr'.waited == s.cache && tr'.entryAt == tr'.recheckAt == s.now
      else
        && !pc.Idle?
        && tr'.entryCache == pc.tr.entryCache && tr'.entryAt == pc.tr.entryAt
        && (|| (tr'.waited == pc.tr.waited && tr'.recheckAt == pc.tr.recheckAt)
            || (tr'.waited == s.cache && tr'.recheckAt == s.now))
    ensures RealTrace(s, tr')
  {
  }

  lemma InitialInv(s: State)
    requires Initial(s)
    ensures Inv(s) && TracesInv(s)
  {
  }

  lemma {:induction false} RunKeepsInv(s: State, es: seq<Event>)
    requires Inv(s) && TracesInv(s) && ValidRun(s, es)
    ensures Inv(Run(s, es)) && TracesInv(Run(s, es)) && Grows(s, Run(s, es))
    decreases |es|
  {
    if es != [] {
      StepKeepsInv(s, es[0]);
      StepKeepsTraces(s, es[0]);
      StepGrows(s, es[0]);
      RunKeepsInv(Apply(s, es[0]), es[1..]);
    }
  }

  // ----- Safety over whole runs -----

  ghost predicate Reached(s0: State, es: seq<Event>, s: State)
  {
    Initial(s0) && ValidRun(s0, es) && s == Run(s0, es)
  }

  lemma ReachedInv(s0: State, es: seq<Event>, s: State)
    requires Reached(s0, es, s)
    ensures Inv(s) && TracesInv(s) && Grows(s0, s)
  {
    InitialInv(s0);
    RunKeepsInv(s0, es);
  }

  // At most one caller is inside client.All.
  lemma OneCallInFlight(s0: State, es: seq<Event>, s: State, i: nat, j: nat)
    requires Reached(s0, es, s)
    requires i < |s.pcs| && j < |s.pcs| && s.pcs[i].Calling? && s.pcs[j].Calling?
    ensures i == j
  {
    ReachedInv(s0, es, s);
  }

  // Every API call starts no earlier than the expiry of each store made before
  // it, and no later than each store made after it.
  lemma CallsStartExpired(s0: State, es: seq<Event>, s: State, c: nat, k: nat)
    requires Reached(s0, es, s)
    requires c < |s.calls| && k < |s.stores|
    ensures k < s.calls[c].storesBefore ==> s.stores[k].at + CACHE_TTL <= s.calls[c].startedAt
    ensures s.calls[c].storesBefore <= k ==> s.calls[c].startedAt <= s.stores[k].at
  {
    ReachedInv(s0, es, s);
    var call := s.calls[c];
    if k < call.storesBefore - 1 {
      assert s.stores[k].expiry <= s.stores[call.storesBefore - 1].at;
    }
    if call.storesBefore < k {
      assert s.stores[call.storesBefore].expiry <= s.stores[k].at;
    }
  }

  lemma {:induction false} StoresSpaced(s: State, k: nat)
    requires StoresInv(s) && k < |s.stores|
    ensures s.stores[0].at + k * CACHE_TTL <= s.stores[k].at
  {
    if k > 0 {
      StoresSpaced(s, k - 1);
      assert s.stores[k - 1].expiry <= s.stores[k].at;
    }
  }

  // A run of duration D refreshes at most 1 + D / TTL times, whatever the number
  // of callers.
  lemma RefreshRate(s0: State, es: seq<Event>, s: State)
    requires Reached(s0, es, s)
    ensures |s.stores| <= 1 + (s.now - s0.now) / CACHE_TTL
  {
    ReachedInv(s0, es, s);
    if |s.stores| > 0 {
      StoresSpaced(s, |s.stores| - 1);
      assert (|s.stores| - 1) * CACHE_TTL <= s.now - s0.now;
    }
  }

  // Every completed call got what the sequential request computes from what the
  // cache really held on entry and, later, under the refresh lock, and from its
  // own fetch.
  lemma AnswersRefineServe(s0: State, es: seq<Event>, s: State, i: nat)
    requires Reached(s0, es, s)
    requires i < |s.pcs| && s.pcs[i].Done?
    ensures AnsweredBy(s.pcs[i].tr, s.pcs[i].answer) && RealTrace(s, s.pcs[i].tr)
  {
    ReachedInv(s0, es, s);
    assert PcInv(s, i);
  }

  // The same said of the answer itself: an unexpired catalogue, found on entry or
  // under the lock, is what is served; otherwise what the fetch brought, or when it
  // failed the expired catalogue, or nothing when there was none.
  lemma AnswerCases(s0: State, es: seq<Event>, s: State, i: nat)
    requires Reached(s0, es, s)
    requires i < |s.pcs| && s.pcs[i].Done?
    ensures var tr, a := s.pcs[i].tr, s.pcs[i].answer;
      var onEntry := tr.entryCache.Some? && tr.entryAt < tr.entryCache.value.expiry;
      var underLock := !onEntry && tr.waited.Some? && tr.recheckAt < tr.waited.value.expiry;
      && (onEntry ==> a.Listing? && a.reply.types == tr.entryCache.value.types)
      && (underLock ==> a.Listing? && a.reply.types == tr.waited.value.types)
      && (!onEntry && !underLock && tr.fetch.Fetched? ==>
            a.Listing? && a.reply.types == ToTypesV(tr.fetch.serverTypes))
      && (!onEntry && !underLock && tr.fetch.FetchFailed? && tr.waited.Some? ==>
            a.Listing? && a.reply.types == tr.waited.value.types)
      && (!onEntry && !underLock && tr.fetch.FetchFailed? && tr.waited.None? ==> a.Failure?)
  {
    AnswersRefineServe(s0, es, s, i);
  }

  // ----- What becomes of the API's answers -----

  // Only a caller that found the cache expired twice has a fetched catalogue.
  ghost predicate Fetcher(pc: Pc)
  {
    match pc
    case Idle => true
    case Entering => true
    case Waiting(tr) => tr.fetch.FetchFailed?
    case Rechecking(tr) => tr.fetch.FetchFailed?
    case Missed(tr) => tr.fetch.FetchFailed?
    case Calling(tr, _) => tr.fetch.FetchFailed?
    case Returned(tr) => FetchedLate(tr)
    case Serving(tr, _, _) => FetchedLate(tr)
    case Unlocking(tr, _) => FetchedLate(tr)
    case Done(tr, _) => FetchedLate(tr)
  }

  ghost predicate FetchedLate(tr: Trace)
  {
    tr.fetch.Fetched? ==> !Fresh(tr.entryCache, tr.entryAt) && !Fresh(tr.waited, tr.recheckAt)
  }

  lemma StepKeepsFetcher(s: State, e: Event, i: nat)
    requires Inv(s) && Enabled(s, e) && i < |s.pcs| && Fetcher(s.pcs[i])
    ensures Fetcher(Apply(s, e).pcs[i])
  {
    assert PcInv(s, i);
  }

  lemma {:induction false} RunKeepsFetcher(s: State, es: seq<Event>, i: nat)
    requires Inv(s) && ValidRun(s, es) && i < |s.pcs| && Fetcher(s.pcs[i])
    ensures i < |Run(s, es).pcs| && Fetcher(Run(s, es).pcs[i])
    decreases |es|
  {
    if es != [] {
      StepKeepsFetcher(s, es[0], i);
      StepKeepsInv(s, es[0]);
      StepGrows(s, es[0]);
      RunKeepsFetcher(Apply(s, es[0]), es[1..], i);
    }
  }

  // Who is answered by the API lists what the API answered, as it was stored.
  lemma FetcherGetsItsFetch(s0: State, es: seq<Event>, s: State, i: nat)
    requires Reached(s0, es, s)
    requires i < |s.pcs| && s.pcs[i].Done? && s.pcs[i].tr.fetch.Fetched?
    ensures s.pcs[i].answer.Listing?
    ensures var types, r := ToTypesV(s.pcs[i].tr.fetch.serverTypes), s.pcs[i].answer.reply;
      && r.types == types && 0 < r.storesSeen <= |s.stores| && s.stores[r.storesSeen - 1].types == types
      && s.stores[r.storesSeen - 1].at == r.readAt
  {
    InitialInv(s0);
    ReachedInv(s0, es, s);
    RunKeepsFetcher(s0, es, i);
    AnswerCases(s0, es, s, i);
    assert PcInv(s, i);
  }

  // The catalogues the API answered with, and the callers that asked, in order.
  function Fetches(es: seq<Event>): seq<seq<TypeV>>
  {
    if es == [] then [] else FetchOf(es[0]) + Fetches(es[1..])
  }

  function FetchOf(e: Event): seq<seq<TypeV>>
  {
    if e.Return? && e.fetch.Fetched? then [ToTypesV(e.fetch.serverTypes)] else []
  }

  function Askers(es: seq<Event>): seq<nat>
  {
    if es == [] then [] else (if es[0].Call? then [es[0].i] else []) + Askers(es[1..])
  }

  // What the holder of the refresh lock has been answered and not yet stored.
  ghost function Unstored(s: State): seq<seq<TypeV>>
  {
    if s.holder.Some? && s.holder.value < |s.pcs| && s.pcs[s.holder.value].Returned?
       && s.pcs[s.holder.value].tr.fetch.Fetched?
    then [ToTypesV(s.pcs[s.holder.value].tr.fetch.serverTypes)]
    else []
  }

  ghost function Catalogues(stores: seq<Cached>): seq<seq<TypeV>>
  {
    seq(|stores|, k requires 0 <= k < |stores| => stores[k].types)
  }

  // What the API has brought so far.
  ghost function Brought(s: State): seq<seq<TypeV>>
  {
    Catalogues(s.stores) + Unstored(s)
  }

  lemma StepStoresFetch(s: State, e: Event)
    requires LockInv(s) && Enabled(s, e)
    ensures Brought(Apply(s, e)) == Brought(s) + FetchOf(e)
  {
    var s' := Apply(s, e);
    StepFrame(s, e);
    if e.Settle? {
      assert s.holder == Some(e.i);
      if s.pcs[e.i].tr.fetch.Fetched? {
        assert Catalogues(s'.stores) == Catalogues(s.stores) + Unstored(s);
      }
    } else if e.Return? {
      assert s.holder == Some(e.i);
    } else {
      UnstoredStays(s, e);
    }
  }

  lemma UnstoredStays(s: State, e: Event)
    requires LockInv(s) && Enabled(s, e) && !e.Settle? && !e.Return?
    ensures Unstored(Apply(s, e)) == Unstored(s)
  {
  }

  // Every successful answer of the API is stored, once, in the order they came, but
  // for one still in the hands of the lock's holder.
  lemma {:induction false} RunStoresFetches(s: State, es: seq<Event>)
    requires LockInv(s) && ValidRun(s, es)
    ensures LockInv(Run(s, es))
    ensures Brought(Run(s, es)) == Brought(s) + Fetches(es)
    decreases |es|
  {
    if es != [] {
      var s', rest := Apply(s, es[0]), es[1..];
      StepStoresFetch(s, es[0]);
      StepKeepsLock(s, es[0]);
      RunStoresFetches(s', rest);
      JoinedEitherWay(Brought(s), FetchOf(es[0]), Fetches(rest));
    } else {
      assert Brought(s) + [] == Brought(s);
    }
  }

  lemma JoinedEitherWay<T>(a: seq<T>, b: seq<T>, c: seq<T>)
    ensures (a + b) + c == a + (b + c)
  {
  }

  lemma FetchesAreStored(s0: State, es: seq<Event>, s: State)
    requires Reached(s0, es, s)
    ensures |s.stores| <= |Fetches(es)| <= |s.stores| + 1
    ensures forall k :: 0 <= k < |s.stores| ==> s.stores[k].types == Fetches(es)[k]
    ensures |Fetches(es)| == |s.stores| + 1 ==> exists i :: 0 <= i < |s.pcs| && s.pcs[i].Returned?
  {
    InitialInv(s0);
    RunStoresFetches(s0, es);
    assert Brought(s0) == [] && Brought(s) == Fetches(es);
    forall k | 0 <= k < |s.stores|
      ensures s.stores[k].types == Fetches(es)[k]
    {
      assert Catalogues(s.stores)[k] == s.stores[k].types;
    }
  }

  // The history of API calls is that of the callers that made one.
  lemma {:induction false} CallsAreLogged(s: State, es: seq<Event>)
    requires ValidRun(s, es)
    ensures var calls := Run(s, es).calls;
      && |calls| == |s.calls| + |Askers(es)|
      && (forall c :: 0 <= c < |s.calls| ==> calls[c] == s.calls[c])
      && forall c :: |s.calls| <= c < |calls| ==> calls[c].caller == Askers(es)[c - |s.calls|]
    decreases |es|
  {
    if es != [] {
      StepFrame(s, es[0]);
      CallsAreLogged(Apply(s, es[0]), es[1..]);
    }
  }

  // A listing comes from the last catalogue stored when it was read; a hit from
  // one younger than the TTL.
  lemma ListingsFromLastFetch(s0: State, es: seq<Event>, s: State, i: nat)
    requires Reached(s0, es, s)
    requires i < |s.pcs| && s.pcs[i].Done? && s.pcs[i].answer.Listing?
    ensures var r := s.pcs[i].answer.reply;
      && 0 < r.storesSeen <= |s.stores|
      && r.types == s.stores[r.storesSeen - 1].types
      && (forall k :: 0 <= k < r.storesSeen ==> s.stores[k].at <= r.readAt)
      && (forall k :: r.storesSeen <= k < |s.stores| ==> r.readAt <= s.stores[k].at)
      && (r.source == Hit ==> r.readAt < s.stores[r.storesSeen - 1].at + CACHE_TTL)
      && (r.source == Stale ==> s.stores[r.storesSeen - 1].at + CACHE_TTL <= r.readAt)
  {
    ReachedInv(s0, es, s);
    assert PcInv(s, i);
    ReplyAmongStores(s, s.pcs[i].answer.reply);
  }

  // A good reply was read after the stores it saw and before the others.
  lemma ReplyAmongStores(s: State, r: Reply)
    requires StoresInv(s) && GoodReply(s, r)
    ensures forall k :: 0 <= k < r.storesSeen ==> s.stores[k].at <= r.readAt
    ensures forall k :: r.storesSeen <= k < |s.stores| ==> r.readAt <= s.stores[k].at
  {
    forall k | 0 <= k < r.storesSeen
      ensures s.stores[k].at <= r.readAt
    {
      assert k < r.storesSeen - 1 ==> s.stores[k].expiry <= s.stores[r.storesSeen - 1].at;
    }
    forall k | r.storesSeen <= k < |s.stores|
      ensures r.readAt <= s.stores[k].at
    {
      assert r.storesSeen < k ==> s.stores[r.storesSeen].expiry <= s.stores[k].at;
    }
  }

  // Availability is live: an offering of a listing is available exactly when the
  // catalogue has it available and no mark of its own pair was a TTL young when
  // that offering was looked at, marks landing between two offerings included.
  lemma ListingsReflectMarks(s0: State, es: seq<Event>, s: State, i: nat, x: nat, y: nat)
    requires Reached(s0, es, s)
    requires i < |s.pcs| && i < |s.wants| && s.pcs[i].Done? && s.pcs[i].answer.Listing?
    requires x < |FilterByLocations(s.pcs[i].answer.reply.types, s.wants[i])|
    requires y < |FilterByLocations(s.pcs[i].answer.reply.types, s.wants[i])[x].offerings|
    requires NulFreeTypes(s.marks) && NUL !in FilterByLocations(s.pcs[i].answer.reply.types, s.wants[i])[x].name
    ensures var a := s.pcs[i].answer;
      var t := FilterByLocations(a.reply.types, s.wants[i])[x];
      && x < |a.listing| && |a.listing[x].offerings| == |t.offerings|
      && x < |a.glances| && y < |a.glances[x]|
      && a.listing[x].offerings[y].zone == t.offerings[y].zone
      && a.listing[x].offerings[y].price == t.offerings[y].price
      && var g := a.glances[x][y];
         && GoodGlance(s, g) && a.reply.readAt <= g.at
         && (a.listing[x].offerings[y].available <==>
               t.offerings[y].available
               && !RecentlyMarked(s.marks[..g.marksSeen], UNAVAILABLE_TTL, t.name, t.offerings[y].zone, g.at))
  {
    ReachedInv(s0, es, s);
    assert PcInv(s, i);
    var a := s.pcs[i].answer;
    var t := FilterByLocations(a.reply.types, s.wants[i])[x];
    var g := a.glances[x][y];
    assert GoodGlance(s, g);
    MapRefinesHistory(s.marks[..g.marksSeen], UNAVAILABLE_TTL, t.name, t.offerings[y].zone, g.at);
  }

  predicate Failing(pc: Pc)
  {
    (pc.Unlocking? || pc.Done?) && pc.answer.Failure?
  }

  // Once any fetch has succeeded no caller starts to fail.
  lemma {:induction false} NoErrorAfterSuccess(s: State, es: seq<Event>, i: nat)
    requires Inv(s) && s.stores != [] && ValidRun(s, es)
    requires i < |s.pcs| && !Failing(s.pcs[i])
    ensures i < |Run(s, es).pcs| && !Failing(Run(s, es).pcs[i])
    decreases |es|
  {
    if es != [] {
      StepKeepsInv(s, es[0]);
      StepGrows(s, es[0]);
      NoErrorAfterSuccess(Apply(s, es[0]), es[1..], i);
    }
  }

  // ----- Progress -----

  function Rank(pc: Pc): nat
  {
    match pc
    case Idle => 9
    case Entering => 8
    case Waiting(_) => 7
    case Rechecking(_) => 6
    case Missed(_) => 5
    case Calling(_, _) => 4
    case Returned(_) => 3
    case Serving(_, _, _) => 2
    case Unlocking(_, _) => 1
    case Done(_, _) => 0
  }

  function TotalRank(pcs: seq<Pc>): nat
  {
    if pcs == [] then 0 else Rank(pcs[0]) + TotalRank(pcs[1..])
  }

  lemma {:induction false} TotalRankUpdate(pcs: seq<Pc>, i: nat, pc: Pc)
    requires i < |pcs|
    ensures TotalRank(pcs[i := pc]) == TotalRank(pcs) - Rank(pcs[i]) + Rank(pc)
    ensures TotalRank(pcs) >= Rank(pcs[i])
  {
    if i == 0 {
      assert pcs[0 := pc][1..] == pcs[1..];
    } else {
      TotalRankUpdate(pcs[1..], i - 1, pc);
      assert pcs[i := pc][1..] == pcs[1..][i - 1 := pc];
    }
  }

  lemma {:induction false} TotalRankBound(pcs: seq<Pc>)
    ensures TotalRank(pcs) <= 9 * |pcs|
    ensures TotalRank(pcs) == 0 <==> forall i :: 0 <= i < |pcs| ==> pcs[i].Done?
  {
    if pcs != [] {
      TotalRankBound(pcs[1..]);
      assert (forall i :: 0 <= i < |pcs| ==> pcs[i].Done?) ==> forall i :: 0 <= i < |pcs[1..]| ==> pcs[1..][i].Done?;
      assert forall i :: 0 < i < |pcs| ==> pcs[i] == pcs[1..][i - 1];
    }
  }

  predicate ByCaller(e: Event)
  {
    !e.Tick? && !e.MarkPair?
  }

  function CallerSteps(es: seq<Event>): nat
  {
    if es == [] then 0 else (if ByCaller(es[0]) then 1 else 0) + CallerSteps(es[1..])
  }

  // A caller's step moves that caller's counter down and no other.
  lemma StepMoves(s: State, e: Event)
    requires Enabled(s, e)
    ensures !ByCaller(e) ==> Apply(s, e).pcs == s.pcs
    ensures ByCaller(e) ==>
      && e.i < |s.pcs|
      && exists pc :: Rank(pc) < Rank(s.pcs[e.i]) && Apply(s, e).pcs == s.pcs[e.i := pc]
  {
    if ByCaller(e) {
      var pc := Apply(s, e).pcs[e.i];
      assert Rank(pc) < Rank(s.pcs[e.i]) && Apply(s, e).pcs == s.pcs[e.i := pc];
    }
  }

  lemma StepLowersRank(s: State, e: Event)
    requires Enabled(s, e)
    ensures ByCaller(e) ==> TotalRank(Apply(s, e).pcs) < TotalRank(s.pcs)
    ensures !ByCaller(e) ==> Apply(s, e).pcs == s.pcs
  {
    StepMoves(s, e);
    if ByCaller(e) {
      var pc :| Rank(pc) < Rank(s.pcs[e.i]) && Apply(s, e).pcs == s.pcs[e.i := pc];
      TotalRankUpdate(s.pcs, e.i, pc);
    }
  }

  // N callers take at most 9 N steps between them, in every run.
  lemma {:induction false} StepsBounded(s: State, es: seq<Event>)
    requires ValidRun(s, es)
    ensures CallerSteps(es) <= TotalRank(s.pcs) - TotalRank(Run(s, es).pcs)
    ensures CallerSteps(es) <= 9 * |s.pcs|
    decreases |es|
  {
    TotalRankBound(s.pcs);
    if es != [] {
      StepLowersRank(s, es[0]);
      StepsBounded(Apply(s, es[0]), es[1..]);
    }
  }

  // Every offering looked at now.
  ghost function AllNow(s: State, i: nat, reply: Reply): seq<seq<Glance>>
    requires i < |s.wants|
  {
    var ts := FilterByLocations(reply.types, s.wants[i]);
    seq(|ts|, x requires 0 <= x < |ts| => seq(|ts[x].offerings|, _ => Glance(s.now, |s.marks|)))
  }

  // The step an unfinished caller can take next, API calls returning.
  ghost function NextEvent(s: State, i: nat): Event
    requires i < |s.pcs| == |s.wants| && !s.pcs[i].Done?
  {
    match s.pcs[i]
    case Idle => Arrive(i)
    case Entering => Look(i)
    case Waiting(_) => Acquire(i)
    case Rechecking(_) => Recheck(i)
    case Missed(_) => Call(i)
    case Calling(_, _) => Return(i, FetchFailed)
    case Returned(_) => Settle(i)
    case Serving(_, reply, _) => Finish(i, AllNow(s, i, reply))
    case Unlocking(_, _) => Unlock(i)
  }

  // No reachable state with an unfinished caller is stuck: that caller can move,
  // or the holder it waits for can.
  lemma NeverStuck(s: State, i: nat) returns (e: Event)
    requires Inv(s) && i < |s.pcs| && !s.pcs[i].Done?
    ensures ByCaller(e) && Enabled(s, e)
  {
    var mover := if s.pcs[i].Waiting? && s.holder.Some? then s.holder.value else i;
    assert PcInv(s, mover);
    if s.pcs[mover].Serving? {
      AllNowGlanced(s, mover, s.pcs[mover].reply);
    }
    e := NextEvent(s, mover);
  }

  lemma AllNowGlanced(s: State, i: nat, reply: Reply)
    requires MarksInv(s) && i < |s.wants| && reply.readAt <= s.now
    ensures Glanced(s, i, reply, AllNow(s, i, reply))
  {
    assert forall k :: 0 <= k < |s.marks| ==> s.marks[k] in s.marks;
  }

  ghost predicate AllDone(s: State)
  {
    forall i :: 0 <= i < |s.pcs| ==> s.pcs[i].Done?
  }

  // From every reachable state all callers can finish without any time passing.
  lemma {:induction false} AllCanFinish(s: State) returns (es: seq<Event>)
    requires Inv(s)
    ensures ValidRun(s, es) && AllDone(Run(s, es))
    ensures |Run(s, es).pcs| == |s.pcs| && Run(s, es).now == s.now
    decreases TotalRank(s.pcs)
  {
    if i :| 0 <= i < |s.pcs| && !s.pcs[i].Done? {
      var e := NeverStuck(s, i);
      StepKeepsInv(s, e);
      StepLowersRank(s, e);
      var rest := AllCanFinish(Apply(s, e));
      es := [e] + rest;
      assert es[1..] == rest;
    } else {
      es := [];
    }
  }

  lemma RunOfThree(s: State, e1: Event, e2: Event, e3: Event)
    requires Enabled(s, e1) && Enabled(Apply(s, e1), e2) && Enabled(Apply(Apply(s, e1), e2), e3)
    ensures ValidRun(s, [e1, e2, e3])
    ensures Run(s, [e1, e2, e3]) == Apply(Apply(Apply(s, e1), e2), e3)
  {
    var s1 := Apply(s, e1);
    var s2 := Apply(s1, e2);
    assert [e1, e2, e3][1..] == [e2, e3] && [e2, e3][1..] == [e3] && [e3][1..] == [];
    var s3 := Apply(s2, e3);
    assert ValidRun(s3, []) && Run(s3, []) == s3;
    assert ValidRun(s2, [e3]) && Run(s2, [e3]) == s3;
    assert ValidRun(s1, [e2, e3]) && Run(s1, [e2, e3]) == Apply(s2, e3);
  }

  // A caller that arrives while the catalogue is fresh finishes by its own three
  // steps, whoever holds the refresh lock and however long the API takes; nothing
  // else in the state changes.
  lemma WarmReaderNeverWaits(s: State, i: nat)
    requires Inv(s) && i < |s.pcs| && s.pcs[i].Idle? && Fresh(s.cache, s.now)
    ensures var es := [Arrive(i), Look(i), Finish(i, AllNow(s, i, FromCache(s, Hit)))];
      && ValidRun(s, es)
      && var s' := Run(s, es);
         && |s'.pcs| == |s.pcs|
         && s'.pcs[i].Done? && s'.pcs[i].answer.Listing?
         && s'.pcs[i].answer.reply.types == s.cache.value.types
         && s' == s.(pcs := s.pcs[i := s'.pcs[i]])
  {
    var s1 := Goto(s, i, Entering);
    assert s1 == Apply(s, Arrive(i)) && Fresh(s1.cache, s1.now);
    var tr := Trace(s.cache, s.now, s.cache, s.now, FetchFailed, s.now);
    var s2 := Goto(s1, i, Serving(tr, FromCache(s1, Hit), false));
    assert s2 == Apply(s1, Look(i));
    AllNowGlanced(s, i, FromCache(s, Hit));
    var finish := Finish(i, AllNow(s, i, FromCache(s, Hit)));
    assert Enabled(s2, finish);
    RunOfThree(s, Arrive(i), Look(i), finish);
  }
}
