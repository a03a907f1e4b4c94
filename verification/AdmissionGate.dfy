/** ensureAllocationRoom itself: one admission under the mutex, run against the surveys that
    other activity lets it see. */
module AdmissionGate {
  import opened Wrappers
  import opened Routes
  import opened Retention

  datatype Outcome = Admitted | RefusedByCap | RefusedUncertain | SurveyOrRemovalFailed

  /** The in-memory claim of one request. */
  class Reservation {
    var bytes: nat

    constructor ()
      ensures bytes == 0
    {
      bytes := 0;
    }
  }

  /** The survey's plan as the gate reads it: the incoming torrent and every reservation count
      as stored. */
  function GatePlan(rows: seq<Row>, w: World, claimed: int): Plan {
    var plan := Survey(rows, w);
    plan.(storedBytes := plan.storedBytes + claimed)
  }

  /** What the gate's plan says, in terms of rows and telemetry alone. */
  lemma GatePlanMeans(rows: seq<Row>, w: World, settings: Settings, claimed: int)
    ensures var plan := GatePlan(rows, w, claimed);
      && plan.storedBytes == StoredBytes(SizesOf(w), rows) + claimed
      && (plan.uncertain <==> exists i :: 0 <= i < |rows| && rows[i].engineId !in w.status)
      && (DeficitOf(plan, settings) == OverCap <==>
            settings.allocation.Some? && StoredBytes(SizesOf(w), rows) + claimed > settings.allocation.value)
      && (DeficitOf(plan, settings) != Fits <==> OverLimits(rows, w, settings, claimed))
      && (DeficitOf(plan, settings) == Fits && settings.reserve.Some? && w.freeBytes.Some? ==>
            settings.reserve.value <= w.freeBytes.value)
  {
    hide StoredBytes, SurveyRoutes;
  }

  /** What the evictions of a gate run found, in terms of rows and telemetry alone. */
  lemma TraceLimits(trace: seq<Eviction>, worlds: nat -> World, settings: Settings, claimed: int)
    requires forall i :: 0 <= i < |trace| ==> OverLimits(trace[i].before, worlds(i), settings, claimed)
    ensures forall i :: 0 <= i < |trace| ==>
      var e, w := trace[i], worlds(i);
      || (settings.allocation.Some? && StoredBytes(SizesOf(w), e.before) + claimed > settings.allocation.value)
      || (settings.reserve.Some? && w.freeBytes.Some? && settings.reserve.value > w.freeBytes.value)
  {
  }

  lemma TraceTakes(trace: seq<Eviction>, worlds: nat -> World, settings: Settings)
    requires forall i :: 0 <= i < |trace| ==> Takes(trace[i], worlds(i), settings)
    ensures forall i :: 0 <= i < |trace| ==>
      var e, w, id := trace[i], worlds(i), trace[i].victim.engineId;
      && id in w.status && e.victim == RouteFor(e.before, w, id)
      && (settings.protectIncomplete ==>
            && w.status[id].progress >= 1.0
            && forall k :: 0 <= k < |e.before| && e.before[k].engineId == id ==> e.before[k].progress >= 1.0)
      && (settings.protectLeased ==>
            forall k :: 0 <= k < |e.before| && e.before[k].engineId == id ==>
              e.before[k].id !in w.leases && !e.before[k].leased)
      && (settings.protectFavorites ==> !e.victim.favorite)
      && (settings.protectNeverWatched ==> e.victim.watched)
  {
    hide RouteFor;
  }

  /** One eviction of the gate: the survey was certain and this torrent did not fit. */
  ghost predicate GateEvicts(e: Eviction, w: World, settings: Settings, claimed: int) {
    && !w.surveyFails
    && !GatePlan(e.before, w, claimed).uncertain
    && DeficitOf(GatePlan(e.before, w, claimed), settings) != Fits
    && EvictsHead(e, w, settings)
  }

  ghost predicate IsGateRun(
      start: seq<Row>, trace: seq<Eviction>, worlds: nat -> World, settings: Settings, claimed: int)
  {
    && Chained(start, trace, Reached(start, trace))
    && forall i :: 0 <= i < |trace| ==> GateEvicts(trace[i], worlds(i), settings, claimed)
  }

  ghost predicate NothingEvictable(rows: seq<Row>, w: World, settings: Settings) {
    forall r :: r in Survey(rows, w).routes ==> Protected(r, w, settings)
  }

  ghost predicate GateFailsWith(reached: seq<Row>, rows: seq<Row>, w: World, settings: Settings, claimed: int) {
    if w.surveyFails then rows == reached
    else
      && !GatePlan(reached, w, claimed).uncertain
      && DeficitOf(GatePlan(reached, w, claimed), settings) != Fits
      && Tears(reached, rows, w, settings)
  }

  class Gate {
    var reservedBytes: int

    constructor ()
      ensures reservedBytes == 0
    {
      reservedBytes := 0;
    }

    /** Idempotent: a second release changes nothing. */
    method Release(r: Reservation)
      modifies this, r
      ensures r.bytes == 0 && reservedBytes == old(reservedBytes) - old(r.bytes)
    {
      if r.bytes != 0 {
        reservedBytes := reservedBytes - r.bytes;
      }
      r.bytes := 0;
    }

    method Reserve(r: Reservation, bytes: nat)
      modifies this, r
      ensures r.bytes == bytes && reservedBytes == old(reservedBytes) + bytes
    {
      r.bytes := bytes;
      reservedBytes := reservedBytes + bytes;
    }

    /** Survey `k` meets `worlds(k)`; survey `|trace|` decided. However the call ends, each of
        its evictions was of the head of a certain survey's queue while the torrent did not
        fit. Admission means the deciding survey was certain and left room for this torrent
        beside all others; refusal leaves the request without a claim. */
    method EnsureAllocationRoom(
        held: Reservation, start: seq<Row>, worlds: nat -> World, settings: Settings, incoming: nat)
      returns (outcome: Outcome, rows: seq<Row>, trace: seq<Eviction>)
      modifies this, held
      ensures var others := old(reservedBytes) - old(held.bytes);
        var w := worlds(|trace|);
        var plan := GatePlan(Reached(start, trace), w, incoming + others);
        && IsGateRun(start, trace, worlds, settings, incoming + others)
        && (!outcome.SurveyOrRemovalFailed? ==> rows == Reached(start, trace))
        && (settings.allocation.None? ==>
              outcome.Admitted? && held.bytes == 0 && reservedBytes == others && trace == [])
        && (outcome.Admitted? && settings.allocation.Some? ==>
              && held.bytes == incoming && reservedBytes == others + incoming
              && !plan.uncertain && plan.storedBytes <= settings.allocation.value
              && (DeficitOf(plan, settings) != Fits ==> NothingEvictable(rows, w, settings)))
        && (settings.allocation.Some? && !outcome.SurveyOrRemovalFailed? ==> !w.surveyFails)
        && (!outcome.Admitted? ==> held.bytes == 0 && reservedBytes == others)
        && (outcome.RefusedByCap? ==>
              !plan.uncertain && DeficitOf(plan, settings) == OverCap && NothingEvictable(rows, w, settings))
        && (outcome.RefusedUncertain? ==> plan.uncertain)
        && (outcome.SurveyOrRemovalFailed? ==>
              GateFailsWith(Reached(start, trace), rows, w, settings, incoming + others))
      ensures outcome.Admitted? && settings.allocation.Some? ==>
        var w := worlds(|trace|);
        && StoredBytes(SizesOf(w), rows) + incoming + (old(reservedBytes) - old(held.bytes))
             <= settings.allocation.value
        && (forall i :: 0 <= i < |rows| ==> rows[i].engineId in w.status)
        && (settings.reserve.Some? && w.freeBytes.Some? && settings.reserve.value > w.freeBytes.value ==>
              EverythingSpared(rows, w, settings))
      ensures outcome.RefusedByCap? ==>
        var w := worlds(|trace|);
        && settings.allocation.Some?
        && StoredBytes(SizesOf(w), rows) + incoming + (old(reservedBytes) - old(held.bytes))
             > settings.allocation.value
        && EverythingSpared(rows, w, settings)
      ensures outcome.RefusedUncertain? ==>
        exists i :: 0 <= i < |rows| && rows[i].engineId !in worlds(|trace|).status
      ensures forall i, k :: 0 <= i < |trace| && 0 <= k < |trace[i].before| ==>
        trace[i].before[k].engineId in worlds(i).status
      ensures forall i :: 0 <= i < |trace| ==>
        var e, w := trace[i], worlds(i);
        || (settings.allocation.Some? && StoredBytes(SizesOf(w), e.before) + incoming
              + (old(reservedBytes) - old(held.bytes)) > settings.allocation.value)
        || (settings.reserve.Some? && w.freeBytes.Some? && settings.reserve.value > w.freeBytes.value)
      ensures forall i :: 0 <= i < |trace| ==>
        var e, w, id := trace[i], worlds(i), trace[i].victim.engineId;
        && id in w.status && e.victim == RouteFor(e.before, w, id)
        && (settings.protectIncomplete ==>
              && w.status[id].progress >= 1.0
              && forall k :: 0 <= k < |e.before| && e.before[k].engineId == id ==> e.before[k].progress >= 1.0)
        && (settings.protectLeased ==>
              forall k :: 0 <= k < |e.before| && e.before[k].engineId == id ==>
                e.before[k].id !in w.leases && !e.before[k].leased)
        && (settings.protectFavorites ==> !e.victim.favorite)
        && (settings.protectNeverWatched ==> e.victim.watched)
    {
      hide StoredBytes, SizesOf, Protected, Tears, RowsOf, Survey, IsGateRun, NothingEvictable;
      hide GatePlan, DeficitOf, Queue, EvictsHead, EverythingSpared, RouteFor, Takes, OverLimits;
      rows, trace := start, [];
      Release(held);
      EmptyGateRun(start, worlds, settings, incoming + reservedBytes);
      if settings.allocation.None? {
        return Admitted, rows, trace;
      }
      var claimed := incoming + reservedBytes;
      while true
        invariant held.bytes == 0 && reservedBytes == old(reservedBytes) - old(held.bytes)
        invariant claimed == incoming + reservedBytes
        invariant IsGateRun(start, trace, worlds, settings, claimed) && rows == Reached(start, trace)
        invariant forall i :: 0 <= i < |trace| ==>
          && OverLimits(trace[i].before, worlds(i), settings, claimed) && Takes(trace[i], worlds(i), settings)
        invariant forall i, k :: 0 <= i < |trace| && 0 <= k < |trace[i].before| ==>
          trace[i].before[k].engineId in worlds(i).status
        decreases |rows|
      {
        TraceLimits(trace, worlds, settings, claimed);
        TraceTakes(trace, worlds, settings);
        var w := worlds(|trace|);
        if w.surveyFails {
          return SurveyOrRemovalFailed, rows, trace;
        }
        GatePlanMeans(rows, w, settings, claimed);
        var plan := GatePlan(rows, w, claimed);
        if plan.uncertain {
          return RefusedUncertain, rows, trace;
        }
        var reason := DeficitOf(plan, settings);
        if reason == Fits {
          break;
        }
        var left, victim, ok := EvictNext(rows, w, settings);
        if !ok {
          return SurveyOrRemovalFailed, left, trace;
        }
        if victim.None? {
          NothingToEvict(rows, w, settings);
          NothingToTake(rows, w, settings);
          if reason == OverCap {
            return RefusedByCap, rows, trace;
          }
          break;
        }
        var e := Eviction(rows, victim.value, left);
        HeadTakes(e, w, settings);
        ExtendGateRun(start, trace, worlds, settings, claimed, e);
        rows, trace := left, trace + [e];
      }
      Reserve(held, incoming);
      return Admitted, rows, trace;
    }
  }

  lemma EmptyGateRun(start: seq<Row>, worlds: nat -> World, settings: Settings, claimed: int)
    ensures IsGateRun(start, [], worlds, settings, claimed)
  {
  }

  lemma ExtendGateRun(
      start: seq<Row>, trace: seq<Eviction>, worlds: nat -> World, settings: Settings, claimed: int, e: Eviction)
    requires IsGateRun(start, trace, worlds, settings, claimed)
    requires e.before == Reached(start, trace) && GateEvicts(e, worlds(|trace|), settings, claimed)
    ensures IsGateRun(start, trace + [e], worlds, settings, claimed) && Reached(start, trace + [e]) == e.after
  {
    hide GateEvicts;
    var more := trace + [e];
    forall i | 0 <= i < |more| ensures GateEvicts(more[i], worlds(i), settings, claimed) {
      assert i < |trace| ==> more[i] == trace[i];
    }
  }

  lemma NothingToEvict(rows: seq<Row>, w: World, settings: Settings)
    requires forall r :: r in Survey(rows, w).routes ==> Protected(r, w, settings)
    ensures NothingEvictable(rows, w, settings)
  {
  }

  /** What the gate may do to the managed rows: every route it evicts was described and
      unprotected when it was surveyed, and every route that keeps a row keeps all of them. */
  lemma {:induction false} GateTakesOnlyUnprotected(
      start: seq<Row>, trace: seq<Eviction>, worlds: nat -> World, settings: Settings, claimed: int, id: string)
    requires IsGateRun(start, trace, worlds, settings, claimed)
    ensures RowsOf(Reached(start, trace), id) == RowsOf(start, id)
      || exists i :: 0 <= i < |trace| && trace[i].victim.engineId == id && id in worlds(i).status
           && !Protected(trace[i].victim, worlds(i), settings) && RowsOf(Reached(start, trace), id) == []
    decreases |trace|
  {
    if trace != [] {
      hide GatePlan, DeficitOf, Queue, Survey, Protected, RouteFor, RowsOf;
      var n := |trace| - 1;
      GateRunPrefix(start, trace, worlds, settings, claimed);
      GateTakesOnlyUnprotected(start, trace[..n], worlds, settings, claimed, id);
      EvictionFacts(trace[n], worlds(n), settings);
      if RowsOf(Reached(start, trace), id) != RowsOf(start, id) {
        if trace[n].victim.engineId != id {
          var i :| 0 <= i < n && trace[..n][i].victim.engineId == id && id in worlds(i).status
            && !Protected(trace[..n][i].victim, worlds(i), settings);
          assert trace[i].victim.engineId == id;
        }
      }
    }
  }

  lemma GateRunPrefix(start: seq<Row>, trace: seq<Eviction>, worlds: nat -> World, settings: Settings, claimed: int)
    requires IsGateRun(start, trace, worlds, settings, claimed) && trace != []
    ensures var n := |trace| - 1;
      && IsGateRun(start, trace[..n], worlds, settings, claimed)
      && trace[n].before == Reached(start, trace[..n]) && EvictsHead(trace[n], worlds(n), settings)
  {
    hide EvictsHead;
    var n := |trace| - 1;
    assert GateEvicts(trace[n], worlds(n), settings, claimed);
    forall i | 0 <= i < n ensures GateEvicts(trace[..n][i], worlds(i), settings, claimed) {
      assert GateEvicts(trace[i], worlds(i), settings, claimed);
    }
    if n > 0 {
      assert trace[n - 1].after == trace[n - 1 + 1].before;
    }
  }
}
