/** The Category-family tiles: a stale-while-revalidate cache with a generation counter and
    one background flight. Every step below is one section under the families mutex.

    `tick` numbers the marks (refreshes and invalidations) and the build starts in the order
    they happen. It is history that the code does not keep: the code only has `gen`. */
module Families {
  import opened Wrappers

  type Time = int
  type FlightId = nat
  type CallerId = nat

  /** Ten minutes, in seconds. The zero time is 0 and the clock is past the zero time by
      more than the cache's lifetime. */
  const TTL: Time := 600

  /** Tiles are known by the moment their build began. */
  datatype Tiles = Tiles(begun: nat)

  datatype Cache = Cache(at: Time, quarter: int, items: Option<Tiles>)

  const EMPTY_CACHE := Cache(0, 0, None)

  datatype Work = Idle | Building(gen: nat, now: Time, quarter: int, begun: nat)

  datatype Flight = Flight(id: FlightId, work: Work)

  datatype Result = Built(tiles: Tiles) | BuildFailed

  datatype Reply = Served(tiles: Tiles) | Wait(flight: FlightId) | Stopping

  /** `marked` is the tick of the latest mark; `done` holds the results of finished flights;
      `waiting` maps a waiting caller to its flight and to the latest mark before its call. */
  datatype State = State(
    cache: Cache,
    gen: nat,
    flight: Option<Flight>,
    stopping: bool,
    nextFlight: FlightId,
    done: map<FlightId, Result>,
    waiting: map<CallerId, (FlightId, nat)>,
    tick: nat,
    marked: nat)

  const INITIAL := State(EMPTY_CACHE, 0, None, false, 0, map[], map[], 0, 0)

  // ----- the sections of the code -----

  predicate Fresh(cache: Cache, now: Time, quarter: int) {
    cache.items.Some? && cache.quarter == quarter && now - cache.at < TTL && now >= cache.at
  }

  /** startFamilyFlightLocked: the registered flight, a new one, or none while stopping. */
  function StartFlight(s: State): State {
    if s.flight.Some? || s.stopping then s
    else s.(flight := Some(Flight(s.nextFlight, Idle)), nextFlight := s.nextFlight + 1)
  }

  function Mark(s: State, cache: Cache): State {
    s.(cache := cache, gen := s.gen + 1, tick := s.tick + 1, marked := s.tick + 1)
  }

  function Invalidate(s: State): State {
    Mark(s, EMPTY_CACHE)
  }

  function Refresh(s: State): State {
    StartFlight(Mark(s, s.cache.(at := 0)))
  }

  function Warm(s: State, now: Time, quarter: int): State {
    if Fresh(s.cache, now, quarter) then s else StartFlight(s)
  }

  /** CatalogFamilies up to the point where it returns or starts to wait. */
  function Ask(s: State, now: Time, quarter: int): (State, Reply) {
    if Fresh(s.cache, now, quarter) then (s, Served(s.cache.items.value))
    else
      var s1 := StartFlight(s);
      if s1.cache.items.Some? then (s1, Served(s1.cache.items.value))
      else if s1.flight.None? then (s1, Stopping)
      else (s1, Wait(s1.flight.value.id))
  }

  function Enqueue(s: State, caller: CallerId, reply: Reply): State {
    if reply.Wait? then s.(waiting := s.waiting[caller := (reply.flight, s.marked)]) else s
  }

  /** The flight samples the generation and starts a build. */
  function BuildBegins(s: State, now: Time, quarter: int): State
    requires s.flight.Some?
  {
    s.(tick := s.tick + 1,
       flight := Some(s.flight.value.(work := Building(s.gen, now, quarter, s.tick + 1))))
  }

  /** The build returns: stored as stale and rerun, stored as current, or failed. */
  function BuildEnds(s: State, ok: bool): State
    requires s.flight.Some? && s.flight.value.work.Building?
  {
    var flight := s.flight.value;
    var w := flight.work;
    var tiles := Tiles(w.begun);
    var changed := s.gen != w.gen;
    if ok && changed then
      s.(cache := Cache(0, w.quarter, Some(tiles)), flight := Some(flight.(work := Idle)))
    else
      s.(cache := if ok then Cache(w.now, w.quarter, Some(tiles)) else s.cache,
         flight := None,
         done := s.done[flight.id := if ok then Built(tiles) else BuildFailed])
  }

  // ----- steps and runs -----

  datatype Action =
    | DoInvalidate
    | DoRefresh
    | DoWarm(now: Time, quarter: int)
    | DoAsk(caller: CallerId, now: Time, quarter: int)
    | DoBegin(now: Time, quarter: int)
    | DoEnd(ok: bool)
    | DoStop

  predicate Enabled(s: State, a: Action) {
    match a
    case DoWarm(now, _) => now >= TTL
    case DoAsk(caller, now, _) => now >= TTL && caller !in s.waiting
    case DoBegin(now, _) => now >= TTL && s.flight.Some? && s.flight.value.work.Idle?
    case DoEnd(_) => s.flight.Some? && s.flight.value.work.Building?
    case _ => true
  }

  function Apply(s: State, a: Action): State
    requires Enabled(s, a)
  {
    match a
    case DoInvalidate => Invalidate(s)
    case DoRefresh => Refresh(s)
    case DoWarm(now, quarter) => Warm(s, now, quarter)
    case DoAsk(caller, now, quarter) =>
      var (s1, reply) := Ask(s, now, quarter);
      Enqueue(s1, caller, reply)
    case DoBegin(now, quarter) => BuildBegins(s, now, quarter)
    case DoEnd(ok) => BuildEnds(s, ok)
    case DoStop => s.(stopping := true)
  }

  ghost predicate Legal(s: State, actions: seq<Action>)
    decreases |actions|
  {
    actions == [] || (Enabled(s, actions[0]) && Legal(Apply(s, actions[0]), actions[1..]))
  }

  ghost function Run(s: State, actions: seq<Action>): State
    requires Legal(s, actions)
    decreases |actions|
  {
    if actions == [] then s else Run(Apply(s, actions[0]), actions[1..])
  }

  // ----- the invariant -----

  /** The generation counter tells exactly whether a mark came after the build began. */
  ghost predicate GenerationIsHonest(s: State) {
    && s.marked <= s.tick
    && (s.flight.Some? && s.flight.value.work.Building? ==>
      var w := s.flight.value.work;
      && w.now >= TTL
      && w.gen <= s.gen
      && w.begun <= s.tick
      && (w.gen == s.gen <==> w.begun > s.marked))
  }

  /** The cache is marked stale exactly when its build began before the latest mark. */
  ghost predicate CacheIsHonest(s: State) {
    s.cache.items.Some? ==>
      && s.cache.items.value.begun <= s.tick
      && (s.cache.at != 0 <==> s.cache.items.value.begun > s.marked)
  }

  ghost predicate FlightsAreNumbered(s: State) {
    && (s.flight.Some? ==> s.flight.value.id < s.nextFlight && s.flight.value.id !in s.done)
    && (forall f :: f in s.done ==> f < s.nextFlight)
  }

  ghost predicate WaitersAreHonest(s: State) {
    forall c :: c in s.waiting ==>
      && s.waiting[c].1 <= s.marked
      && (s.waiting[c].0 in s.done || (s.flight.Some? && s.flight.value.id == s.waiting[c].0))
      && (s.waiting[c].0 in s.done && s.done[s.waiting[c].0].Built? ==>
        s.done[s.waiting[c].0].tiles.begun > s.waiting[c].1)
  }

  ghost predicate Inv(s: State) {
    GenerationIsHonest(s) && CacheIsHonest(s) && FlightsAreNumbered(s) && WaitersAreHonest(s)
  }

  lemma GenerationStep(s: State, a: Action)
    requires Inv(s) && Enabled(s, a)
    ensures GenerationIsHonest(Apply(s, a))
  {
  }

  lemma CacheStep(s: State, a: Action)
    requires Inv(s) && Enabled(s, a)
    ensures CacheIsHonest(Apply(s, a))
  {
  }

  lemma FlightStep(s: State, a: Action)
    requires Inv(s) && Enabled(s, a)
    ensures FlightsAreNumbered(Apply(s, a))
  {
  }

  lemma WaitersStep(s: State, a: Action)
    requires Inv(s) && Enabled(s, a)
    ensures WaitersAreHonest(Apply(s, a))
  {
  }

  lemma StepKeepsInv(s: State, a: Action)
    requires Inv(s) && Enabled(s, a)
    ensures Inv(Apply(s, a))
  {
    GenerationStep(s, a);
    CacheStep(s, a);
    FlightStep(s, a);
    WaitersStep(s, a);
  }

  lemma {:induction false} RunKeepsInv(s: State, actions: seq<Action>)
    requires Inv(s) && Legal(s, actions)
    ensures Inv(Run(s, actions))
    decreases |actions|
  {
    if actions != [] {
      StepKeepsInv(s, actions[0]);
      RunKeepsInv(Apply(s, actions[0]), actions[1..]);
    }
  }

  // ----- freshness -----

  /** Tiles judged fresh come from a build that began after every refresh and invalidation. */
  lemma FreshTilesAreCurrent(actions: seq<Action>, now: Time, quarter: int)
    requires Legal(INITIAL, actions) && now >= TTL
    requires Fresh(Run(INITIAL, actions).cache, now, quarter)
    ensures Run(INITIAL, actions).cache.items.value.begun > Run(INITIAL, actions).marked
  {
    RunKeepsInv(INITIAL, actions);
  }

  /** A caller that waited and got tiles got a build begun after every mark before its call. */
  lemma WaiterGetsCurrentTiles(actions: seq<Action>, c: CallerId)
    requires Legal(INITIAL, actions) && c in Run(INITIAL, actions).waiting
    requires var s := Run(INITIAL, actions); s.waiting[c].0 in s.done && s.done[s.waiting[c].0].Built?
    ensures var s := Run(INITIAL, actions); s.done[s.waiting[c].0].tiles.begun > s.waiting[c].1
  {
    RunKeepsInv(INITIAL, actions);
  }

  // ----- no refresh is lost -----

  /** One build end that answers a mark made at tick `m`: a current build, or a failure. */
  ghost predicate Answers(s: State, a: Action, m: nat)
    requires Enabled(s, a)
  {
    a.DoEnd? && (!a.ok || s.flight.value.work.begun > m)
  }

  ghost predicate Answered(s: State, actions: seq<Action>, m: nat)
    requires Legal(s, actions)
    decreases |actions|
  {
    actions != [] && (Answers(s, actions[0], m) || Answered(Apply(s, actions[0]), actions[1..], m))
  }

  /** A registered flight survives any run that does not answer the mark. */
  lemma {:induction false} FlightStaysRegistered(s: State, actions: seq<Action>, m: nat)
    requires Inv(s) && Legal(s, actions) && s.flight.Some? && m <= s.marked
    ensures Answered(s, actions, m) || Run(s, actions).flight.Some?
    decreases |actions|
  {
    if actions != [] && !Answers(s, actions[0], m) {
      StepKeepsInv(s, actions[0]);
      assert Apply(s, actions[0]).flight.Some?;
      FlightStaysRegistered(Apply(s, actions[0]), actions[1..], m);
    }
  }

  /** After a refresh a flight is registered, and stays registered until a build begun after
      the refresh is stored or a build fails; only a stopping service without a flight
      declines to start one. */
  lemma RefreshIsNotLost(before: seq<Action>, after: seq<Action>)
    requires Legal(INITIAL, before)
    requires Legal(Refresh(Run(INITIAL, before)), after)
    ensures var s := Run(INITIAL, before);
      var r := Refresh(s);
      s.flight.Some? || !s.stopping ==> Answered(r, after, r.marked) || Run(r, after).flight.Some?
    ensures var s := Run(INITIAL, before);
      s.flight.None? && s.stopping ==> Refresh(s).flight.None?
  {
    var s := Run(INITIAL, before);
    RunKeepsInv(INITIAL, before);
    StepKeepsInv(s, DoRefresh);
    if s.flight.Some? || !s.stopping {
      FlightStaysRegistered(Refresh(s), after, Refresh(s).marked);
    }
  }

  /** No stale tile stays for good: a caller that found no tiles, or tiles of another quarter,
      from the future, ten minutes old or older than the latest mark leaves a flight registered,
      and it stays registered until a build begun after that mark is stored or a build fails. */
  lemma StaleReplyIsRevalidated(before: seq<Action>, c: CallerId, now: Time, quarter: int, after: seq<Action>)
    requires Legal(INITIAL, before) && now >= 600
    requires var s := Run(INITIAL, before); !s.stopping && c !in s.waiting
    requires var s := Run(INITIAL, before);
      || s.cache.items.None? || s.cache.quarter != quarter
      || now - s.cache.at < 0 || now - s.cache.at >= 600
      || s.cache.items.value.begun <= s.marked
    requires Legal(Apply(Run(INITIAL, before), DoAsk(c, now, quarter)), after)
    ensures var asked := Apply(Run(INITIAL, before), DoAsk(c, now, quarter));
      asked.flight.Some? && (Answered(asked, after, asked.marked) || Run(asked, after).flight.Some?)
  {
    var s := Run(INITIAL, before);
    RunKeepsInv(INITIAL, before);
    StepKeepsInv(s, DoAsk(c, now, quarter));
    FlightStaysRegistered(Apply(s, DoAsk(c, now, quarter)), after, s.marked);
  }

  /** The only way a flight leaves the register answers the latest mark. */
  lemma DeregisteringAnswers(s: State, a: Action)
    requires Inv(s) && Enabled(s, a) && s.flight.Some?
    ensures Apply(s, a).flight.None? <==> a.DoEnd? && (!a.ok || s.flight.value.work.begun > s.marked)
    ensures Apply(s, a).flight.Some? ==> Apply(s, a).flight.value.id == s.flight.value.id
  {
  }

  // ----- what an invalidation does not promise -----

  predicate IsMark(a: Action) {
    a.DoInvalidate? || a.DoRefresh?
  }

  /** Tiles older than the latest mark are the ones the cache can hand out. */
  predicate ServesOld(s: State, now: Time, quarter: int) {
    var reply := Ask(s, now, quarter).1;
    reply.Served? && reply.tiles.begun <= s.marked
  }

  ghost predicate NoOldWork(s: State) {
    && (s.cache.items.Some? ==> s.cache.items.value.begun > s.marked)
    && (s.flight.Some? && s.flight.value.work.Building? ==> s.flight.value.work.begun > s.marked)
  }

  lemma {:induction false} NoOldWorkStays(s: State, actions: seq<Action>)
    requires Inv(s) && NoOldWork(s) && Legal(s, actions)
    requires forall a :: a in actions ==> !IsMark(a)
    ensures NoOldWork(Run(s, actions))
    decreases |actions|
  {
    if actions != [] {
      assert actions[0] in actions;
      StepKeepsInv(s, actions[0]);
      NoOldWorkStays(Apply(s, actions[0]), actions[1..]);
    }
  }

  /** If no build is running when the cache is invalidated, then until the next mark every
      caller either waits or is handed tiles built after the invalidation. */
  lemma InvalidateHidesOldTiles(s: State, actions: seq<Action>, now: Time, quarter: int)
    requires Inv(s) && Legal(Invalidate(s), actions)
    requires forall a :: a in actions ==> !IsMark(a)
    requires !(s.flight.Some? && s.flight.value.work.Building?)
    ensures !ServesOld(Run(Invalidate(s), actions), now, quarter)
  {
    StepKeepsInv(s, DoInvalidate);
    NoOldWorkStays(Invalidate(s), actions);
  }

  /** If a build is running, its end alone makes the next caller receive tiles from before the
      invalidation: "the next caller waits" holds exactly when no build is running. */
  lemma InvalidateDuringBuildServesOld(s: State, now: Time, quarter: int)
    requires Inv(s) && s.flight.Some? && s.flight.value.work.Building?
    ensures Enabled(Invalidate(s), DoEnd(true))
    ensures ServesOld(BuildEnds(Invalidate(s), true), now, quarter)
  {
  }

  /** Some run without a further mark hands out tiles from before the invalidation. */
  ghost predicate CanLeak(s: State) {
    exists actions, now, quarter ::
      && Legal(Invalidate(s), actions)
      && (forall a :: a in actions ==> !IsMark(a))
      && ServesOld(Run(Invalidate(s), actions), now, quarter)
  }

  /** The exact condition, which a caller could read off the flight before invalidating. */
  lemma InvalidateLeaksIff(s: State)
    requires Inv(s)
    ensures CanLeak(s) <==> s.flight.Some? && s.flight.value.work.Building?
  {
    if s.flight.Some? && s.flight.value.work.Building? {
      InvalidateDuringBuildServesOld(s, TTL, 0);
      var actions := [DoEnd(true)];
      assert actions[1..] == [];
      assert Legal(Invalidate(s), actions);
      assert Run(Invalidate(s), actions) == BuildEnds(Invalidate(s), true);
    } else {
      forall actions, now, quarter | Legal(Invalidate(s), actions) && (forall a :: a in actions ==> !IsMark(a))
        ensures !ServesOld(Run(Invalidate(s), actions), now, quarter)
      {
        InvalidateHidesOldTiles(s, actions, now, quarter);
      }
    }
  }

  // ----- the service object -----

  class FamilyService {
    var families: Cache
    var familyGen: nat
    var familyFlight: Option<Flight>
    var stopping: bool
    var nextFlight: FlightId
    var done: map<FlightId, Result>
    var waiting: map<CallerId, (FlightId, nat)>
    var tick: nat // history, as in State
    var marked: nat // history, as in State

    ghost function View(): State
      reads this
    {
      State(families, familyGen, familyFlight, stopping, nextFlight, done, waiting, tick, marked)
    }

    constructor ()
      ensures View() == INITIAL && Inv(View())
    {
      families, familyGen, familyFlight, stopping, nextFlight := EMPTY_CACHE, 0, None, false, 0;
      done, waiting, tick, marked := map[], map[], 0, 0;
    }

    method StartFamilyFlightLocked() returns (flight: Option<Flight>)
      requires Inv(View())
      modifies this
      ensures Inv(View()) && View() == StartFlight(old(View())) && flight == familyFlight
    {
      if familyFlight.None? && !stopping {
        familyFlight := Some(Flight(nextFlight, Idle));
        nextFlight := nextFlight + 1;
      }
      flight := familyFlight;
    }

    method InvalidateFamilies()
      requires Inv(View())
      modifies this
      ensures Inv(View()) && View() == Invalidate(old(View()))
      ensures families.items.None? && familyFlight == old(familyFlight) && marked > old(tick)
    {
      StepKeepsInv(View(), DoInvalidate);
      families := EMPTY_CACHE;
      familyGen := familyGen + 1;
      tick, marked := tick + 1, tick + 1;
    }

    method RefreshFamilies()
      requires Inv(View())
      modifies this
      ensures Inv(View()) && View() == Refresh(old(View()))
      ensures familyFlight.Some? || stopping
      ensures families.items == old(families).items && families.at == 0 && marked > old(tick)
    {
      families := families.(at := 0);
      familyGen := familyGen + 1;
      tick, marked := tick + 1, tick + 1;
      var _ := StartFamilyFlightLocked();
    }

    method WarmFamilies(now: Time, quarter: int)
      requires Inv(View())
      modifies this
      ensures Inv(View()) && View() == Warm(old(View()), now, quarter)
      ensures families == old(families) && (old(familyFlight).Some? ==> familyFlight == old(familyFlight))
      ensures families.items.None? || families.quarter != quarter
        || now - families.at < 0 || now - families.at >= 600
        ==> familyFlight.Some? || stopping
      ensures families.items.Some? && families.quarter == quarter && 0 <= now - families.at < 600
        ==> familyFlight == old(familyFlight)
    {
      if !Fresh(families, now, quarter) {
        var _ := StartFamilyFlightLocked();
      }
    }

    /** Up to the point where the call returns or waits on the flight. */
    method CatalogFamilies(now: Time, quarter: int) returns (reply: Reply)
      requires Inv(View()) && now >= TTL
      modifies this
      ensures Inv(View()) && (View(), reply) == Ask(old(View()), now, quarter)
      ensures reply.Served? && Fresh(old(families), now, quarter) ==> reply.tiles.begun > marked
      ensures reply == match old(families).items
                       case Some(tiles) => Served(tiles)
                       case None => if familyFlight.Some? then Wait(familyFlight.value.id) else Stopping
      ensures families == old(families) && marked == old(marked)
      ensures old(familyFlight).Some? ==> familyFlight == old(familyFlight)
      ensures old(families).items.None?
        || old(families).quarter != quarter
        || now - old(families).at < 0 || now - old(families).at >= 600
        || old(families).items.value.begun <= marked
        ==> familyFlight.Some? || stopping
      ensures old(families).items.Some? && old(families).quarter == quarter
        && 0 <= now - old(families).at < 600
        ==> familyFlight == old(familyFlight)
    {
      if Fresh(families, now, quarter) {
        return Served(families.items.value);
      }
      var flight := StartFamilyFlightLocked();
      if families.items.Some? {
        return Served(families.items.value);
      }
      reply := if flight.None? then Stopping else Wait(flight.value.id);
    }

    /** The first section of the flight's loop. */
    method BeginBuild(now: Time, quarter: int)
      requires Inv(View()) && Enabled(View(), DoBegin(now, quarter))
      modifies this
      ensures Inv(View()) && View() == BuildBegins(old(View()), now, quarter)
    {
      tick := tick + 1;
      familyFlight := Some(familyFlight.value.(work := Building(familyGen, now, quarter, tick)));
    }

    /** The second section; true when the flight goes round again. */
    method EndBuild(ok: bool) returns (rerun: bool)
      requires Inv(View()) && Enabled(View(), DoEnd(ok))
      modifies this
      ensures Inv(View()) && View() == BuildEnds(old(View()), ok)
      ensures rerun <==> familyFlight.Some?
      ensures ok && !rerun ==> families.items.Some? && families.items.value.begun > marked
      ensures ok ==> families.items == Some(Tiles(old(familyFlight).value.work.begun))
      ensures ok ==> families.quarter == old(familyFlight).value.work.quarter
      ensures ok && !rerun ==> families.at == old(familyFlight).value.work.now
      ensures !ok ==> families == old(families) && !rerun
      ensures !rerun ==> done == old(done)[old(familyFlight).value.id :=
                           if ok then Built(families.items.value) else BuildFailed]
      ensures rerun ==> done == old(done) && familyFlight.value.id == old(familyFlight).value.id
    {
      var flight := familyFlight.value;
      var w := flight.work;
      var changed := familyGen != w.gen;
      if ok {
        families := Cache(if changed then 0 else w.now, w.quarter, Some(Tiles(w.begun)));
        if changed {
          familyFlight := Some(flight.(work := Idle));
          return true;
        }
      }
      familyFlight := None;
      done := done[flight.id := if ok then Built(Tiles(w.begun)) else BuildFailed];
      return false;
    }
  }
}
