/** With telemetry that stands still, distinct titles and only the Allocation to keep, the
    survey-evict-survey loop is one cut of one sorted list. */
module RetentionLaws {
  import opened Wrappers
  import opened Sorting
  import opened Routes
  import opened Retention

  /** No title is managed through two routes. */
  ghost predicate DistinctTitles(rows: seq<Row>, h: Household) {
    forall a, b :: a in rows && b in rows && a.engineId != b.engineId ==>
      RawTitle(h, a.releaseId) == "" || RawTitle(h, a.releaseId) != RawTitle(h, b.releaseId)
  }

  function RawTitle(h: Household, releaseId: string): string {
    if releaseId != "" && releaseId in h.titleOf then h.titleOf[releaseId] else ""
  }

  // ----- evicting one route leaves the facts of the others alone -----

  lemma TitleIsRaw(rows: seq<Row>, h: Household, releaseId: string)
    ensures TitleFor(h, Managed(rows), releaseId) == if releaseId in Managed(rows) then RawTitle(h, releaseId) else ""
  {
  }

  lemma PlaybackStillCounts(rows: seq<Row>, h: Household, gone: string, row: Row, releaseId: string)
    requires DistinctTitles(rows, h) && row in rows && row.engineId != gone
    requires var title := TitleFor(h, Managed(rows), row.releaseId); title != ""
    ensures var title := TitleFor(h, Managed(rows), row.releaseId);
      TitleFor(h, Managed(Without(rows, gone)), releaseId) == title <==> TitleFor(h, Managed(rows), releaseId) == title
  {
    var title := TitleFor(h, Managed(rows), row.releaseId);
    var left := Without(rows, gone);
    WithoutFacts(rows, gone);
    TitleIsRaw(rows, h, releaseId);
    TitleIsRaw(rows, h, row.releaseId);
    TitleIsRaw(left, h, releaseId);
    if releaseId in Managed(rows) && RawTitle(h, releaseId) == title {
      var other :| other in rows && other.releaseId == releaseId;
      assert other.engineId == row.engineId;
      assert other in left;
    }
  }

  lemma {:induction false} LatestIsStable(rows: seq<Row>, h: Household, gone: string, row: Row, playback: seq<Playback>)
    requires DistinctTitles(rows, h) && row in rows && row.engineId != gone
    requires TitleFor(h, Managed(rows), row.releaseId) != ""
    ensures var title := TitleFor(h, Managed(rows), row.releaseId);
      Latest(h, Managed(Without(rows, gone)), title, playback) == Latest(h, Managed(rows), title, playback)
  {
    if playback != [] {
      LatestIsStable(rows, h, gone, row, playback[..|playback| - 1]);
      PlaybackStillCounts(rows, h, gone, row, playback[|playback| - 1].releaseId);
    }
  }

  lemma RowFactsAreStable(rows: seq<Row>, h: Household, gone: string, row: Row, f: Facts)
    requires DistinctTitles(rows, h) && row in rows && row.engineId != gone
    ensures AddFacts(h, Managed(Without(rows, gone)), f, row) == AddFacts(h, Managed(rows), f, row)
  {
    var left := Without(rows, gone);
    WithoutFacts(rows, gone);
    assert row in left;
    TitleIsRaw(rows, h, row.releaseId);
    TitleIsRaw(left, h, row.releaseId);
    assert row.releaseId in Managed(rows) <==> row.releaseId in Managed(left);
    if TitleFor(h, Managed(rows), row.releaseId) != "" {
      LatestIsStable(rows, h, gone, row, h.playback);
    }
  }

  lemma {:induction false} FactsAreStable(rows: seq<Row>, h: Household, gone: string, own: seq<Row>)
    requires DistinctTitles(rows, h)
    requires forall row :: row in own ==> row in rows && row.engineId != gone
    ensures RouteFacts(h, Managed(Without(rows, gone)), own) == RouteFacts(h, Managed(rows), own)
  {
    if own != [] {
      var init, last := own[..|own| - 1], own[|own| - 1];
      assert own == init + [last];
      FactsAreStable(rows, h, gone, init);
      RowFactsAreStable(rows, h, gone, last, RouteFacts(h, Managed(rows), init));
    }
  }

  lemma RouteIsStable(rows: seq<Row>, w: World, gone: string, id: string)
    requires DistinctTitles(rows, w.household) && id != gone && id in w.status
    ensures RouteFor(Without(rows, gone), w, id) == RouteFor(rows, w, id)
  {
    WithoutFacts(rows, gone);
    RowsOfFacts(rows, id);
    FactsAreStable(rows, w.household, gone, RowsOf(rows, id));
  }

  lemma DistinctTitlesStay(rows: seq<Row>, h: Household, gone: string)
    requires DistinctTitles(rows, h)
    ensures DistinctTitles(Without(rows, gone), h)
  {
    WithoutFacts(rows, gone);
  }

  /** Distinct titles are needed: with two routes of one title, watched through the first only,
      evicting the first turns the second from watched into never watched. */
  lemma SharedTitleLosesFacts(w: World)
    requires w.household == Household(map["x" := "t", "y" := "t"], {}, [Playback("x", 5, true)]) && "b" in w.status
    ensures var rows := [Row("1", "a", "x", 0, 1.0, false), Row("2", "b", "y", 0, 1.0, false)];
      RouteFor(rows, w, "b").watched && !RouteFor(Without(rows, "a"), w, "b").watched
  {
    var one, two := Row("1", "a", "x", 0, 1.0, false), Row("2", "b", "y", 0, 1.0, false);
    var h := w.household;
    assert [one, two][..1] == [one] && RowsOf([one], "b") == [] && Without([one], "a") == [];
    assert RowsOf([one, two], "b") == [two] == RowsOf([two], "b") && Without([one, two], "a") == [two];
    assert one in [one, two] && "x" in Managed([one, two]) && two in [one, two] && "y" in Managed([one, two]);
    assert "x" !in Managed([two]);
    assert h.playback[..0] == [];
    assert Latest(h, Managed([one, two]), "t", h.playback).Some?;
    assert Latest(h, Managed([two]), "t", h.playback).None?;
    assert RouteFacts(h, Managed([one, two]), [two]).watched;
    assert !RouteFacts(h, Managed([two]), [two]).watched;
  }

  /** The next survey is this one without the evicted route. */
  lemma SurveyAfterEviction(rows: seq<Row>, w: World, gone: string)
    requires DistinctTitles(rows, w.household)
    ensures forall r :: r in Survey(Without(rows, gone), w).routes
                   <==> r in Survey(rows, w).routes && r.engineId != gone
  {
    var left := Without(rows, gone);
    RouteIdsFacts(rows);
    RouteIdsFacts(left);
    RouteIdsWithout(rows, gone);
    DropMembers(RouteIds(rows), gone);
    SurveyFacts(rows, w, RouteIds(rows));
    SurveyFacts(left, w, RouteIds(left));
    forall id | id in w.status && id != gone ensures RouteFor(left, w, id) == RouteFor(rows, w, id) {
      RouteIsStable(rows, w, gone, id);
    }
  }

  /** The next queue lists this one's routes except its head. */
  lemma QueueMembers(rows: seq<Row>, w: World, settings: Settings)
    requires DistinctTitles(rows, w.household) && Queue(rows, w, settings) != []
    ensures var queue := Queue(rows, w, settings);
      forall r :: r in Queue(Without(rows, queue[0].engineId), w, settings) <==> r in queue && r != queue[0]
  {
    var queue := Queue(rows, w, settings);
    var left := Without(rows, queue[0].engineId);
    QueueFacts(rows, w, settings);
    QueueFacts(left, w, settings);
    SurveyAfterEviction(rows, w, queue[0].engineId);
    HeadIsItsEngine(rows, w, settings);
    hide Queue, Survey, Without, Protected, RouteFor;
    forall r ensures r in Queue(left, w, settings) <==> r in queue && r != queue[0] {
      if r in queue {
        assert r.engineId == queue[0].engineId <==> r == queue[0];
      }
    }
  }

  /** The next queue is this one without its head: re-sorting changes nothing. */
  lemma QueueAfterEviction(rows: seq<Row>, w: World, settings: Settings)
    requires DistinctTitles(rows, w.household) && Queue(rows, w, settings) != []
    ensures var queue := Queue(rows, w, settings);
      Queue(Without(rows, queue[0].engineId), w, settings) == queue[1..]
  {
    var queue := Queue(rows, w, settings);
    var rest := Queue(Without(rows, queue[0].engineId), w, settings);
    QueueFacts(rows, w, settings);
    QueueFacts(Without(rows, queue[0].engineId), w, settings);
    QueueMembers(rows, w, settings);
    hide Queue, Survey, Without, Protected, RouteFor, Ascending, StrictTotalOn;
    TailIsUnique(EvictionOrder(settings.rules), queue, rest);
  }

  /** One route per engine id in a survey. */
  lemma HeadIsItsEngine(rows: seq<Row>, w: World, settings: Settings)
    requires Queue(rows, w, settings) != []
    ensures var queue := Queue(rows, w, settings);
      forall r :: r in queue ==> (r.engineId == queue[0].engineId <==> r == queue[0])
  {
    var queue := Queue(rows, w, settings);
    QueueFacts(rows, w, settings);
    RouteIdsFacts(rows);
    SurveyFacts(rows, w, RouteIds(rows));
    assert queue[0] in queue;
  }

  // ----- the whole run -----

  /** What the loop removes while the world stands still. */
  function Victims(rows: seq<Row>, w: World, settings: Settings): seq<Route>
    decreases |rows|
  {
    var queue := Queue(rows, w, settings);
    if DeficitOf(Survey(rows, w), settings) == Fits || queue == [] then []
    else
      VictimIsManaged(rows, w, settings);
      [queue[0]] + Victims(Without(rows, queue[0].engineId), w, settings)
  }

  ghost function VictimsOf(trace: seq<Eviction>): (routes: seq<Route>)
    ensures |routes| == |trace|
    ensures forall i :: 0 <= i < |trace| ==> routes[i] == trace[i].victim
  {
    seq(|trace|, i requires 0 <= i < |trace| => trace[i].victim)
  }

  /** A run in a world that stands still. */
  ghost predicate IsStillRun(rows: seq<Row>, trace: seq<Eviction>, final: seq<Row>, w: World, settings: Settings) {
    Chained(rows, trace, final) && forall i :: 0 <= i < |trace| ==> Evicts(trace[i], w, settings)
  }

  lemma StillRunTail(rows: seq<Row>, trace: seq<Eviction>, final: seq<Row>, w: World, settings: Settings)
    requires IsStillRun(rows, trace, final, w, settings) && trace != []
    ensures IsStillRun(trace[0].after, trace[1..], final, w, settings)
    ensures trace[0].before == rows && Evicts(trace[0], w, settings)
    ensures VictimsOf(trace) == [trace[0].victim] + VictimsOf(trace[1..])
  {
    hide Evicts;
    ShiftChain(rows, trace, final);
  }

  lemma {:induction false} StillRunRemovesVictims(
      rows: seq<Row>, trace: seq<Eviction>, final: seq<Row>, w: World, settings: Settings)
    requires IsStillRun(rows, trace, final, w, settings)
    requires DeficitOf(Survey(final, w), settings) == Fits || Queue(final, w, settings) == []
    ensures VictimsOf(trace) == Victims(rows, w, settings)
    decreases |trace|
  {
    hide Queue, Survey, DeficitOf, Without, Victims;
    if trace == [] {
      VictimsEnd(rows, w, settings);
      assert VictimsOf(trace) == [];
    } else {
      hide VictimsOf, IsStillRun;
      StillRunTail(rows, trace, final, w, settings);
      VictimsTurn(rows, w, settings);
      StillRunRemovesVictims(trace[0].after, trace[1..], final, w, settings);
    }
  }

  lemma NonEmptyHasMember<T>(s: seq<T>)
    ensures s != [] ==> exists x :: x in s
  {
    if s != [] {
      assert s[0] in s;
    }
  }

  lemma AllProtectedIsEmpty(rows: seq<Row>, w: World, settings: Settings)
    requires forall r :: r in Survey(rows, w).routes ==> Protected(r, w, settings)
    ensures Queue(rows, w, settings) == []
  {
    QueueFacts(rows, w, settings);
    hide Queue, Survey, Protected;
    NonEmptyHasMember(Queue(rows, w, settings));
  }

  /** The run of `RunRetention` in a world that stands still removes `Victims`, in order. */
  lemma RunRemovesVictims(
      rows: seq<Row>, trace: seq<Eviction>, final: seq<Row>, worlds: nat -> World, settings: Settings, w: World)
    requires IsRun(rows, trace, final, worlds, settings)
    requires forall i :: 0 <= i <= |trace| ==> worlds(i) == w
    requires DeficitOf(Survey(final, w), settings) != Fits ==>
      forall r :: r in Survey(final, w).routes ==> Protected(r, w, settings)
    ensures VictimsOf(trace) == Victims(rows, w, settings)
  {
    hide Queue, Survey, DeficitOf, Evicts, Chained, Protected;
    if DeficitOf(Survey(final, w), settings) != Fits {
      AllProtectedIsEmpty(final, w, settings);
    }
    forall i | 0 <= i < |trace| ensures Evicts(trace[i], w, settings) {
      assert Evicts(trace[i], worlds(i), settings);
    }
    StillRunRemovesVictims(rows, trace, final, w, settings);
  }

  lemma VictimsEnd(rows: seq<Row>, w: World, settings: Settings)
    requires DeficitOf(Survey(rows, w), settings) == Fits || Queue(rows, w, settings) == []
    ensures Victims(rows, w, settings) == []
  {
  }

  lemma VictimsTurn(rows: seq<Row>, w: World, settings: Settings)
    requires DeficitOf(Survey(rows, w), settings) != Fits && Queue(rows, w, settings) != []
    ensures var v := Queue(rows, w, settings)[0];
      Victims(rows, w, settings) == [v] + Victims(Without(rows, v.engineId), w, settings)
  {
  }

  lemma ShiftChain(rows: seq<Row>, trace: seq<Eviction>, final: seq<Row>)
    requires Chained(rows, trace, final) && trace != []
    ensures Chained(trace[0].after, trace[1..], final)
  {
    var rest := trace[1..];
    forall i | 0 <= i < |rest| - 1 ensures rest[i].after == rest[i + 1].before {
      assert trace[i + 1].after == trace[i + 2].before;
    }
  }

  function Freed(routes: seq<Route>): int {
    if routes == [] then 0 else routes[0].status.totalBytes + Freed(routes[1..])
  }

  /** Taking the first `m` of the queue gets storage under the cap. */
  predicate Enough(rows: seq<Row>, w: World, cap: int, queue: seq<Route>, m: nat)
    requires m <= |queue|
  {
    StoredBytes(SizesOf(w), rows) - Freed(queue[..m]) <= cap
  }

  ghost predicate OnlyAllocation(settings: Settings, cap: int) {
    settings.allocation == Some(cap) && settings.reserve.None?
  }

  /** `victims` is the shortest prefix of the queue that is enough, or all of it. */
  predicate ShortestCut(rows: seq<Row>, w: World, cap: int, queue: seq<Route>, victims: seq<Route>) {
    var n := |victims|;
    && n <= |queue| && victims == queue[..n]
    && (forall m :: 0 <= m < n ==> !Enough(rows, w, cap, queue, m))
    && (n == |queue| || Enough(rows, w, cap, queue, n))
  }

  /** The loop removes exactly the shortest prefix of the once-sorted unprotected routes that
      gets under the cap, or all of them when no prefix does. */
  lemma {:induction false} ShortestPrefix(rows: seq<Row>, w: World, settings: Settings, cap: int)
    requires DistinctTitles(rows, w.household) && OnlyAllocation(settings, cap)
    ensures ShortestCut(rows, w, cap, Queue(rows, w, settings), Victims(rows, w, settings))
    decreases |rows|
  {
    var queue := Queue(rows, w, settings);
    if DeficitOf(Survey(rows, w), settings) == Fits || queue == [] {
      assert queue[..0] == [];
    } else {
      var left := Without(rows, queue[0].engineId);
      VictimIsManaged(rows, w, settings);
      DistinctTitlesStay(rows, w.household, queue[0].engineId);
      QueueAfterEviction(rows, w, settings);
      StoredWithout(SizesOf(w), rows, queue[0].engineId);
      VictimsTurn(rows, w, settings);
      ShortestPrefix(left, w, settings, cap);
      OverCapIsNotEnough(rows, w, settings, cap);
      CutShift(rows, left, w, cap, queue, Victims(left, w, settings));
    }
  }

  lemma OverCapIsNotEnough(rows: seq<Row>, w: World, settings: Settings, cap: int)
    requires OnlyAllocation(settings, cap) && DeficitOf(Survey(rows, w), settings) != Fits
    ensures StoredBytes(SizesOf(w), rows) > cap
  {
  }

  /** From the next survey's cut to this one's. */
  lemma CutShift(rows: seq<Row>, left: seq<Row>, w: World, cap: int, queue: seq<Route>, victims: seq<Route>)
    requires queue != [] && StoredBytes(SizesOf(w), left) == StoredBytes(SizesOf(w), rows) - queue[0].status.totalBytes
    requires StoredBytes(SizesOf(w), rows) > cap && ShortestCut(left, w, cap, queue[1..], victims)
    ensures ShortestCut(rows, w, cap, queue, [queue[0]] + victims)
  {
    hide StoredBytes, SizesOf;
    var n := |victims| + 1;
    forall m | 0 < m <= |queue| ensures Enough(rows, w, cap, queue, m) <==> Enough(left, w, cap, queue[1..], m - 1) {
      assert queue[..m][1..] == queue[1..][..m - 1];
    }
    forall m | 0 <= m < n ensures !Enough(rows, w, cap, queue, m) {
      if m > 0 {
        assert !Enough(left, w, cap, queue[1..], m - 1);
      } else {
        assert queue[..0] == [];
      }
    }
    assert queue[..n] == [queue[0]] + queue[1..][..n - 1];
  }
}
