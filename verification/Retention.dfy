/** One retention run: survey, check the limits, evict the first unprotected route, survey
    again, until storage fits or only protected routes remain. */
module Retention {
  import opened Wrappers
  import opened Sorting
  import opened Routes

  datatype Playback = Playback(releaseId: string, updatedAt: Time, watched: bool)

  /** What the repository knows about the household: titles by release, favourite titles and
      the playback list. */
  datatype Household = Household(titleOf: map<string, string>, favorites: set<string>, playback: seq<Playback>)

  /** What a survey meets: engine answers (a route the engine cannot describe is missing),
      the in-memory leases, the free bytes and the household. */
  datatype World = World(
    status: map<string, Status>,
    leases: set<string>,
    freeBytes: Option<int>,
    household: Household,
    surveyFails: bool,
    removal: Removal)

  /** A removal succeeds, or fails after having deleted some of the route's rows. */
  datatype Removal = Removed | RemovalFails(deleted: nat)

  datatype Settings = Settings(
    allocation: Option<int>,
    reserve: Option<int>,
    protectIncomplete: bool,
    protectLeased: bool,
    protectFavorites: bool,
    protectNeverWatched: bool,
    rules: seq<Rule>)

  // ----- household facts -----

  function Managed(rows: seq<Row>): set<string> {
    set row | row in rows && row.releaseId != "" :: row.releaseId
  }

  /** Only releases that are still managed have a title. */
  function TitleFor(h: Household, managed: set<string>, releaseId: string): string {
    if releaseId in managed && releaseId in h.titleOf then h.titleOf[releaseId] else ""
  }

  /** The latest playback of a title; the earlier entry wins a tie. */
  function Latest(h: Household, managed: set<string>, title: string, playback: seq<Playback>): Option<Playback> {
    if playback == [] then None
    else
      var before, p := Latest(h, managed, title, playback[..|playback| - 1]), playback[|playback| - 1];
      var later := before.None? || p.updatedAt > before.value.updatedAt;
      if TitleFor(h, managed, p.releaseId) == title && later then Some(p) else before
  }

  datatype Facts = Facts(favorite: bool, watched: bool, lastPlayed: Time)

  /** One row's contribution to the facts of its route. */
  function AddFacts(h: Household, managed: set<string>, f: Facts, row: Row): Facts {
    var title := TitleFor(h, managed, row.releaseId);
    if title == "" then f
    else
      var favorite := f.favorite || title in h.favorites;
      match Latest(h, managed, title, h.playback)
      case None => f.(favorite := favorite)
      case Some(p) =>
        var later := f.lastPlayed == 0 || p.updatedAt > f.lastPlayed;
        Facts(favorite, f.watched || p.watched, if later then p.updatedAt else f.lastPlayed)
  }

  function RouteFacts(h: Household, managed: set<string>, rows: seq<Row>): Facts {
    if rows == [] then Facts(false, false, 0)
    else AddFacts(h, managed, RouteFacts(h, managed, rows[..|rows| - 1]), rows[|rows| - 1])
  }

  // ----- the survey -----

  datatype Plan = Plan(routes: seq<Route>, storedBytes: int, freeBytes: Option<int>, uncertain: bool)

  function RouteFor(rows: seq<Row>, w: World, id: string): Route
    requires id in w.status
  {
    var own := RowsOf(rows, id);
    var f := RouteFacts(w.household, Managed(rows), own);
    Route(id, own, w.status[id], f.favorite, f.watched, f.lastPlayed)
  }

  function SurveyRoutes(rows: seq<Row>, w: World, ids: seq<string>): seq<Route> {
    if ids == [] then []
    else
      var init, last := SurveyRoutes(rows, w, ids[..|ids| - 1]), ids[|ids| - 1];
      if last in w.status then init + [RouteFor(rows, w, last)] else init
  }

  function SizesOf(w: World): Sizes {
    map id | id in w.status :: w.status[id].totalBytes
  }

  /** retentionSurvey: a route without a status is neither counted nor listed. */
  function Survey(rows: seq<Row>, w: World): Plan {
    Plan(
      SurveyRoutes(rows, w, RouteIds(rows)), StoredBytes(SizesOf(w), rows), w.freeBytes,
      exists i :: 0 <= i < |rows| && rows[i].engineId !in w.status)
  }

  lemma {:induction false} SurveyFacts(rows: seq<Row>, w: World, ids: seq<string>)
    requires Distinct(ids)
    ensures forall r :: r in SurveyRoutes(rows, w, ids) <==>
      r.engineId in ids && r.engineId in w.status && r == RouteFor(rows, w, r.engineId)
    ensures Distinct(SurveyRoutes(rows, w, ids))
  {
    if ids != [] {
      var init, last := ids[..|ids| - 1], ids[|ids| - 1];
      SurveyFacts(rows, w, init);
      assert ids == init + [last] && last !in init;
    }
  }

  // ----- protection and limits -----

  predicate Incomplete(r: Route) {
    r.status.progress < 1.0 || exists i :: 0 <= i < |r.rows| && r.rows[i].progress < 1.0
  }

  /** The in-memory table first, the row's flag second. */
  predicate Leased(r: Route, leases: set<string>) {
    exists i :: 0 <= i < |r.rows| && (r.rows[i].id in leases || r.rows[i].leased)
  }

  predicate Protected(r: Route, w: World, settings: Settings) {
    || (settings.protectIncomplete && Incomplete(r))
    || (settings.protectLeased && Leased(r, w.leases))
    || (settings.protectFavorites && r.favorite)
    || (settings.protectNeverWatched && !r.watched)
  }

  datatype Deficit = Fits | OverCap | BelowReserve

  /** The Allocation first; the Reserve only while the Allocation holds. */
  function DeficitOf(plan: Plan, settings: Settings): Deficit {
    if settings.allocation.Some? && plan.storedBytes > settings.allocation.value then OverCap
    else if settings.reserve.Some? && plan.freeBytes.Some? && settings.reserve.value > plan.freeBytes.value then
      BelowReserve
    else Fits
  }

  // ----- choosing a victim -----

  function Candidates(routes: seq<Route>, w: World, settings: Settings): seq<Route> {
    if routes == [] then []
    else
      var init, last := Candidates(routes[..|routes| - 1], w, settings), routes[|routes| - 1];
      if Protected(last, w, settings) then init else init + [last]
  }

  lemma {:induction false} CandidatesFacts(routes: seq<Route>, w: World, settings: Settings)
    ensures forall r :: r in Candidates(routes, w, settings) <==> r in routes && !Protected(r, w, settings)
    ensures Distinct(routes) ==> Distinct(Candidates(routes, w, settings))
  {
    if routes != [] {
      var init, last := routes[..|routes| - 1], routes[|routes| - 1];
      CandidatesFacts(init, w, settings);
      assert routes == init + [last];
      assert Distinct(routes) ==> last !in init;
    }
  }

  /** The unprotected routes of a survey in eviction order. */
  function Queue(rows: seq<Row>, w: World, settings: Settings): seq<Route> {
    Sort(EvictionOrder(settings.rules), Candidates(Survey(rows, w).routes, w, settings))
  }

  /** The queue lists exactly the surveyed unprotected routes, strictly in eviction order; so
      any sorting algorithm would have produced it. */
  lemma QueueFacts(rows: seq<Row>, w: World, settings: Settings)
    ensures var queue := Queue(rows, w, settings);
      && (forall r :: r in queue <==> r in Survey(rows, w).routes && !Protected(r, w, settings))
      && StrictTotalOn(EvictionOrder(settings.rules), Elements(queue))
      && Ascending(EvictionOrder(settings.rules), queue)
  {
    var routes := Survey(rows, w).routes;
    var candidates := Candidates(routes, w, settings);
    RouteIdsFacts(rows);
    SurveyFacts(rows, w, RouteIds(rows));
    CandidatesFacts(routes, w, settings);
    assert forall r :: r in candidates ==> r == RouteFor(rows, w, r.engineId);
    EveryRuleListIsAnOrder(settings.rules, Elements(candidates));
    SortAscends(EvictionOrder(settings.rules), candidates);
    assert forall r :: r in Queue(rows, w, settings) <==> r in Elements(candidates);
  }

  // ----- removing a route -----

  lemma {:induction false} RowsOfAppend(a: seq<Row>, b: seq<Row>, id: string)
    ensures RowsOf(a + b, id) == RowsOf(a, id) + RowsOf(b, id)
  {
    if b == [] {
      assert a + b == a;
    } else {
      RowsOfAppend(a, b[..|b| - 1], id);
      assert (a + b)[..|a + b| - 1] == a + b[..|b| - 1];
    }
  }

  /** What is left when the deletion of row `i` fails. */
  lemma FailedHalfWay(rows: seq<Row>, id: string, i: nat)
    requires i < |rows| && rows[i].engineId == id
    ensures var left := Without(rows[..i], id) + rows[i..];
      && |RowsOf(rows[..i], id)| < |RowsOf(rows, id)|
      && RowsOf(left, id) == RowsOf(rows, id)[|RowsOf(rows[..i], id)|..]
      && forall other :: other != id ==> RowsOf(left, other) == RowsOf(rows, other)
  {
    WithoutFacts(rows[..i], id);
    assert rows[..i] + rows[i..] == rows;
    RowsOfAppend(rows[..i], rows[i..], id);
    RowsOfAppend(Without(rows[..i], id), rows[i..], id);
    RowsOfFacts(rows[i..], id);
    assert rows[i..][0] in RowsOf(rows[i..], id);
    forall other | other != id ensures RowsOf(Without(rows[..i], id) + rows[i..], other) == RowsOf(rows, other) {
      RowsOfAppend(Without(rows[..i], id), rows[i..], other);
      RowsOfAppend(rows[..i], rows[i..], other);
    }
  }

  /** forgetEngineRows: deletes the route's rows one at a time. Even a run that fails half way
      touches no other route. */
  method ForgetEngineRows(rows: seq<Row>, id: string, removal: Removal) returns (left: seq<Row>, ok: bool)
    ensures ok <==> removal.Removed? || removal.deleted >= |RowsOf(rows, id)|
    ensures ok ==> left == Without(rows, id)
    ensures !ok ==> RowsOf(left, id) == RowsOf(rows, id)[removal.deleted..]
    ensures forall other :: other != id ==> RowsOf(left, other) == RowsOf(rows, other)
    ensures |left| <= |rows|
  {
    left := [];
    var deleted := 0;
    for i := 0 to |rows|
      invariant left == Without(rows[..i], id) && |left| <= i
      invariant deleted == |RowsOf(rows[..i], id)| && (removal.RemovalFails? ==> deleted <= removal.deleted)
    {
      assert rows[..i + 1][..i] == rows[..i];
      if rows[i].engineId == id {
        if removal.RemovalFails? && deleted >= removal.deleted {
          FailedHalfWay(rows, id, i);
          return left + rows[i..], false;
        }
        deleted := deleted + 1;
      } else {
        left := left + [rows[i]];
      }
    }
    assert rows[..|rows|] == rows;
    WithoutFacts(rows, id);
    ok := true;
  }

  // ----- the run -----

  datatype Ending = WithinLimits | AllProtected | Failed

  datatype Eviction = Eviction(before: seq<Row>, victim: Route, after: seq<Row>)

  /** The victim headed the queue of the survey made just before, and its rows are gone. */
  ghost predicate EvictsHead(e: Eviction, w: World, settings: Settings) {
    && Queue(e.before, w, settings) != []
    && e.victim == Queue(e.before, w, settings)[0]
    && e.after == Without(e.before, e.victim.engineId)
  }

  /** One eviction of a retention run: storage was over a limit. */
  ghost predicate Evicts(e: Eviction, w: World, settings: Settings) {
    !w.surveyFails && DeficitOf(Survey(e.before, w), settings) != Fits && EvictsHead(e, w, settings)
  }

  ghost predicate Chained(rows: seq<Row>, trace: seq<Eviction>, final: seq<Row>) {
    && (if trace == [] then final == rows else trace[0].before == rows && trace[|trace| - 1].after == final)
    && forall i :: 0 <= i < |trace| - 1 ==> trace[i].after == trace[i + 1].before
  }

  ghost predicate IsRun(
      rows: seq<Row>, trace: seq<Eviction>, final: seq<Row>, worlds: nat -> World, settings: Settings)
  {
    && Chained(rows, trace, final)
    && forall i :: 0 <= i < |trace| ==> Evicts(trace[i], worlds(i), settings)
  }

  /** A removal that fails half way: the head of the queue has lost its first rows, and every
      other route has all of its own. */
  ghost predicate Tears(before: seq<Row>, after: seq<Row>, w: World, settings: Settings) {
    && Queue(before, w, settings) != []
    && var id := Queue(before, w, settings)[0].engineId;
    && w.removal.RemovalFails?
    && w.removal.deleted < |RowsOf(before, id)|
    && RowsOf(after, id) == RowsOf(before, id)[w.removal.deleted..]
    && forall other :: other != id ==> RowsOf(after, other) == RowsOf(before, other)
  }

  /** The rows after the evictions of a run. */
  function Reached(start: seq<Row>, trace: seq<Eviction>): seq<Row> {
    if trace == [] then start else trace[|trace| - 1].after
  }

  /** Even a failing removal only ever touches a described, unprotected route. */
  lemma TearFacts(before: seq<Row>, after: seq<Row>, w: World, settings: Settings)
    requires Tears(before, after, w, settings)
    ensures exists v :: v in Survey(before, w).routes && !Protected(v, w, settings) && v.engineId in w.status
                        && (forall other :: other != v.engineId ==> RowsOf(after, other) == RowsOf(before, other))
  {
    VictimIsManaged(before, w, settings);
    assert Queue(before, w, settings)[0] in Survey(before, w).routes;
  }

  /** What one eviction does and does not do. */
  lemma EvictionFacts(e: Eviction, w: World, settings: Settings)
    requires EvictsHead(e, w, settings)
    ensures e.victim.engineId in w.status && !Protected(e.victim, w, settings)
    ensures e.victim.rows == RowsOf(e.before, e.victim.engineId) != []
    ensures RowsOf(e.after, e.victim.engineId) == []
    ensures forall other :: other != e.victim.engineId ==> RowsOf(e.after, other) == RowsOf(e.before, other)
    ensures |e.after| == |e.before| - |e.victim.rows| < |e.before|
    ensures forall r :: r in Survey(e.before, w).routes && !Protected(r, w, settings) && r != e.victim ==>
      Precedes(settings.rules, e.victim, r)
  {
    QueueFacts(e.before, w, settings);
    var queue := Queue(e.before, w, settings);
    VictimIsManaged(e.before, w, settings);
    WithoutFacts(e.before, e.victim.engineId);
    forall r | r in Survey(e.before, w).routes && !Protected(r, w, settings) && r != e.victim
      ensures Precedes(settings.rules, e.victim, r)
    {
      var i :| 0 <= i < |queue| && queue[i] == r;
      assert EvictionOrder(settings.rules)(queue[0], queue[i]);
    }
  }

  lemma VictimIsManaged(rows: seq<Row>, w: World, settings: Settings)
    requires Queue(rows, w, settings) != []
    ensures var v := Queue(rows, w, settings)[0];
      && v in Survey(rows, w).routes && v.engineId in RouteIds(rows)
      && v.engineId in w.status && !Protected(v, w, settings)
      && v == RouteFor(rows, w, v.engineId) && v.rows == RowsOf(rows, v.engineId) != []
    ensures |Without(rows, Queue(rows, w, settings)[0].engineId)| < |rows|
  {
    var v := Queue(rows, w, settings)[0];
    QueueFacts(rows, w, settings);
    assert v in Queue(rows, w, settings);
    RouteIdsFacts(rows);
    SurveyFacts(rows, w, RouteIds(rows));
    RowsOfFacts(rows, v.engineId);
    WithoutFacts(rows, v.engineId);
    var i :| 0 <= i < |rows| && rows[i].engineId == v.engineId;
    assert rows[i] in RowsOf(rows, v.engineId);
  }

  // ----- the limits, in terms of rows and telemetry alone -----

  /** The sizes are the totals the engines report, and nothing for a route they cannot describe. */
  lemma SizesMean(w: World, id: string)
    ensures SizeOf(SizesOf(w), id) == if id in w.status then w.status[id].totalBytes else 0
  {
  }

  /** Storage with `claimed` more bytes is over the Allocation, or the Reserve is breached. */
  ghost predicate OverLimits(rows: seq<Row>, w: World, settings: Settings, claimed: int) {
    || (settings.allocation.Some? && StoredBytes(SizesOf(w), rows) + claimed > settings.allocation.value)
    || (settings.reserve.Some? && w.freeBytes.Some? && settings.reserve.value > w.freeBytes.value)
  }

  lemma DeficitMeans(rows: seq<Row>, w: World, settings: Settings)
    ensures DeficitOf(Survey(rows, w), settings) != Fits <==> OverLimits(rows, w, settings, 0)
  {
    hide StoredBytes;
  }

  // ----- who may be taken, in terms of rows, telemetry and household alone -----

  predicate HasUnfinishedRow(rows: seq<Row>, id: string) {
    exists i :: 0 <= i < |rows| && rows[i].engineId == id && rows[i].progress < 1.0
  }

  predicate HasStreamingRow(rows: seq<Row>, id: string, leases: set<string>) {
    exists i :: 0 <= i < |rows| && rows[i].engineId == id && (rows[i].id in leases || rows[i].leased)
  }

  lemma RowsAtIndex(rows: seq<Row>, id: string, row: Row)
    ensures row in RowsOf(rows, id) <==> exists i :: 0 <= i < |rows| && rows[i].engineId == id && rows[i] == row
  {
    RowsOfFacts(rows, id);
  }

  /** A route is spared for one of four reasons, each with its own toggle. */
  lemma ProtectedMeans(rows: seq<Row>, w: World, settings: Settings, id: string)
    requires id in w.status
    ensures var r := RouteFor(rows, w, id);
      Protected(r, w, settings) <==>
        || (settings.protectIncomplete && (w.status[id].progress < 1.0 || HasUnfinishedRow(rows, id)))
        || (settings.protectLeased && HasStreamingRow(rows, id, w.leases))
        || (settings.protectFavorites && r.favorite)
        || (settings.protectNeverWatched && !r.watched)
  {
    UnfinishedMeans(rows, w, id);
    StreamingMeans(rows, w, id);
    hide Incomplete, Leased, RouteFacts, HasUnfinishedRow, HasStreamingRow;
  }

  lemma UnfinishedMeans(rows: seq<Row>, w: World, id: string)
    requires id in w.status
    ensures Incomplete(RouteFor(rows, w, id)) <==> w.status[id].progress < 1.0 || HasUnfinishedRow(rows, id)
  {
    hide RouteFacts;
    var own := RowsOf(rows, id);
    forall row ensures row in own <==> exists i :: 0 <= i < |rows| && rows[i].engineId == id && rows[i] == row {
      RowsAtIndex(rows, id, row);
    }
    if HasUnfinishedRow(rows, id) {
      var i :| 0 <= i < |rows| && rows[i].engineId == id && rows[i].progress < 1.0;
      assert rows[i] in own;
    }
    if i :| 0 <= i < |own| && own[i].progress < 1.0 {
      assert own[i] in own;
    }
  }

  lemma StreamingMeans(rows: seq<Row>, w: World, id: string)
    requires id in w.status
    ensures Leased(RouteFor(rows, w, id), w.leases) <==> HasStreamingRow(rows, id, w.leases)
  {
    hide RouteFacts;
    var own := RowsOf(rows, id);
    forall row ensures row in own <==> exists i :: 0 <= i < |rows| && rows[i].engineId == id && rows[i] == row {
      RowsAtIndex(rows, id, row);
    }
    if HasStreamingRow(rows, id, w.leases) {
      var i :| 0 <= i < |rows| && rows[i].engineId == id && (rows[i].id in w.leases || rows[i].leased);
      assert rows[i] in own;
    }
    if i :| 0 <= i < |own| && (own[i].id in w.leases || own[i].leased) {
      assert own[i] in own;
    }
  }

  // ----- what the household facts say -----

  /** A managed release with this title. */
  ghost predicate Titled(rows: seq<Row>, h: Household, releaseId: string, title: string) {
    && releaseId != "" && title != "" && releaseId in h.titleOf && h.titleOf[releaseId] == title
    && exists i :: 0 <= i < |rows| && rows[i].releaseId == releaseId
  }

  lemma TitledMeans(rows: seq<Row>, h: Household, releaseId: string, title: string)
    ensures title != "" ==> (TitleFor(h, Managed(rows), releaseId) == title <==> Titled(rows, h, releaseId, title))
  {
    if releaseId in Managed(rows) {
      var row :| row in rows && row.releaseId != "" && row.releaseId == releaseId;
      var i :| 0 <= i < |rows| && rows[i] == row;
      assert rows[i].releaseId == releaseId;
    }
    if i :| 0 <= i < |rows| && rows[i].releaseId == releaseId && releaseId != "" {
      assert rows[i] in rows;
    }
  }

  /** The playback that speaks for a title: of a managed release with the title, none later. */
  ghost predicate SpeaksFor(rows: seq<Row>, h: Household, title: string, playback: seq<Playback>, p: Playback) {
    && p in playback && Titled(rows, h, p.releaseId, title)
    && forall i :: 0 <= i < |playback| && Titled(rows, h, playback[i].releaseId, title) ==>
         playback[i].updatedAt <= p.updatedAt
  }

  lemma SpeaksStill(rows: seq<Row>, h: Household, title: string, before: seq<Playback>, last: Playback, p: Playback)
    requires SpeaksFor(rows, h, title, before, p)
    requires Titled(rows, h, last.releaseId, title) ==> last.updatedAt <= p.updatedAt
    ensures SpeaksFor(rows, h, title, before + [last], p)
  {
    hide Titled;
  }

  lemma SpeaksNow(rows: seq<Row>, h: Household, title: string, before: seq<Playback>, last: Playback)
    requires Titled(rows, h, last.releaseId, title)
    requires forall i :: 0 <= i < |before| && Titled(rows, h, before[i].releaseId, title) ==>
      before[i].updatedAt <= last.updatedAt
    ensures SpeaksFor(rows, h, title, before + [last], last)
  {
    hide Titled;
  }

  lemma {:induction false} LatestSpeaks(rows: seq<Row>, h: Household, title: string, playback: seq<Playback>)
    requires title != ""
    ensures var latest := Latest(h, Managed(rows), title, playback);
      && (latest.None? <==> forall i :: 0 <= i < |playback| ==> !Titled(rows, h, playback[i].releaseId, title))
      && (latest.Some? ==> SpeaksFor(rows, h, title, playback, latest.value))
  {
    if playback != [] {
      hide Titled, TitleFor, Managed;
      var init, last := playback[..|playback| - 1], playback[|playback| - 1];
      LatestSpeaks(rows, h, title, init);
      TitledMeans(rows, h, last.releaseId, title);
      assert playback == init + [last];
      var before, latest := Latest(h, Managed(rows), title, init), Latest(h, Managed(rows), title, playback);
      if latest == before {
        if before.Some? {
          SpeaksStill(rows, h, title, init, last, before.value);
        }
      } else {
        SpeaksNow(rows, h, title, init, last);
      }
    }
  }

  /** The row has a title, and this is what is known of it. */
  ghost predicate FavoriteRow(rows: seq<Row>, h: Household, row: Row) {
    exists title :: Titled(rows, h, row.releaseId, title) && title in h.favorites
  }

  ghost predicate WatchedRow(rows: seq<Row>, h: Household, row: Row) {
    exists title :: Titled(rows, h, row.releaseId, title)
      && Latest(h, Managed(rows), title, h.playback).Some?
      && Latest(h, Managed(rows), title, h.playback).value.watched
  }

  lemma AddFactsMeans(rows: seq<Row>, h: Household, f: Facts, row: Row)
    ensures var g := AddFacts(h, Managed(rows), f, row);
      && (g.favorite <==> f.favorite || FavoriteRow(rows, h, row))
      && (g.watched <==> f.watched || WatchedRow(rows, h, row))
  {
    var title := TitleFor(h, Managed(rows), row.releaseId);
    if title != "" {
      TitledMeans(rows, h, row.releaseId, title);
    }
    forall t | Titled(rows, h, row.releaseId, t) ensures t == title {
      TitledMeans(rows, h, row.releaseId, t);
    }
    hide Titled, TitleFor, Managed, Latest;
  }

  lemma {:induction false} RouteFactsMean(rows: seq<Row>, h: Household, own: seq<Row>)
    ensures var f := RouteFacts(h, Managed(rows), own);
      && (f.favorite <==> exists i :: 0 <= i < |own| && FavoriteRow(rows, h, own[i]))
      && (f.watched <==> exists i :: 0 <= i < |own| && WatchedRow(rows, h, own[i]))
  {
    hide FavoriteRow, WatchedRow, AddFacts, Managed;
    if own != [] {
      var init, last := own[..|own| - 1], own[|own| - 1];
      RouteFactsMean(rows, h, init);
      AddFactsMeans(rows, h, RouteFacts(h, Managed(rows), init), last);
      assert forall i :: 0 <= i < |init| ==> init[i] == own[i];
      if i :| 0 <= i < |own| && FavoriteRow(rows, h, own[i]) {
        assert i < |init| ==> FavoriteRow(rows, h, init[i]);
      }
      if i :| 0 <= i < |own| && WatchedRow(rows, h, own[i]) {
        assert i < |init| ==> WatchedRow(rows, h, init[i]);
      }
    }
  }

  /** The playback time that speaks for the row's title. */
  ghost predicate PlayedAt(rows: seq<Row>, h: Household, row: Row, t: Time) {
    exists title :: Titled(rows, h, row.releaseId, title)
      && Latest(h, Managed(rows), title, h.playback).Some?
      && Latest(h, Managed(rows), title, h.playback).value.updatedAt == t
  }

  lemma AddPlayedMeans(rows: seq<Row>, h: Household, f: Facts, row: Row)
    ensures var g := AddFacts(h, Managed(rows), f, row);
      && (forall t :: PlayedAt(rows, h, row, t) ==>
            g.lastPlayed == if f.lastPlayed == 0 || t > f.lastPlayed then t else f.lastPlayed)
      && ((forall t :: !PlayedAt(rows, h, row, t)) ==> g.lastPlayed == f.lastPlayed)
  {
    var title := TitleFor(h, Managed(rows), row.releaseId);
    if title != "" {
      TitledMeans(rows, h, row.releaseId, title);
      if Latest(h, Managed(rows), title, h.playback).Some? {
        assert PlayedAt(rows, h, row, Latest(h, Managed(rows), title, h.playback).value.updatedAt);
      }
    }
    forall t | Titled(rows, h, row.releaseId, t) ensures t == title {
      TitledMeans(rows, h, row.releaseId, t);
    }
    hide Titled, TitleFor, Managed, Latest;
  }

  /** The last playback of a route is the latest one of its rows' titles, or never. Playback
      times are past the zero time. */
  lemma {:induction false} LastPlayedMeans(rows: seq<Row>, h: Household, own: seq<Row>)
    requires forall i, t :: 0 <= i < |own| && PlayedAt(rows, h, own[i], t) ==> t > 0
    ensures var last := RouteFacts(h, Managed(rows), own).lastPlayed;
      && last >= 0 && (forall i, t :: 0 <= i < |own| && PlayedAt(rows, h, own[i], t) ==> t <= last)
      && (last != 0 ==> exists i :: 0 <= i < |own| && PlayedAt(rows, h, own[i], last))
  {
    hide PlayedAt, AddFacts, Managed;
    if own != [] {
      var init, row := own[..|own| - 1], own[|own| - 1];
      assert forall i :: 0 <= i < |init| ==> init[i] == own[i];
      LastPlayedMeans(rows, h, init);
      AddPlayedMeans(rows, h, RouteFacts(h, Managed(rows), init), row);
      var before, last := RouteFacts(h, Managed(rows), init).lastPlayed, RouteFacts(h, Managed(rows), own).lastPlayed;
      if last != 0 && last == before {
        var i :| 0 <= i < |init| && PlayedAt(rows, h, init[i], before);
        assert PlayedAt(rows, h, own[i], last);
      } else if last != 0 {
        assert PlayedAt(rows, h, own[|own| - 1], last);
      }
    }
  }

  /** A route is a favourite, or watched, through a row of its own: a row whose title is a
      favourite, or whose title's latest playback was watched to the end. */
  lemma RouteIsWhatItsTitlesAre(rows: seq<Row>, w: World, id: string)
    requires id in w.status
    ensures RouteFor(rows, w, id).favorite <==>
      exists i :: 0 <= i < |rows| && rows[i].engineId == id && FavoriteRow(rows, w.household, rows[i])
    ensures RouteFor(rows, w, id).watched <==>
      exists i :: 0 <= i < |rows| && rows[i].engineId == id && WatchedRow(rows, w.household, rows[i])
  {
    var h, own := w.household, RowsOf(rows, id);
    RouteFactsMean(rows, h, own);
    forall row ensures row in own <==> exists i :: 0 <= i < |rows| && rows[i].engineId == id && rows[i] == row {
      RowsAtIndex(rows, id, row);
    }
    hide FavoriteRow, WatchedRow, RouteFacts, RowsOf;
    assert forall k :: 0 <= k < |own| ==> own[k] in own;
    forall i | 0 <= i < |rows| && rows[i].engineId == id ensures exists k :: 0 <= k < |own| && own[k] == rows[i] {
      assert rows[i] in own;
    }
  }

  /** What the head of a queue must not be. */
  lemma HeadIsTakeable(rows: seq<Row>, w: World, settings: Settings)
    requires Queue(rows, w, settings) != []
    ensures var v := Queue(rows, w, settings)[0];
      && v.engineId in w.status && v == RouteFor(rows, w, v.engineId)
      && (settings.protectIncomplete ==>
            w.status[v.engineId].progress >= 1.0 && !HasUnfinishedRow(rows, v.engineId))
      && (settings.protectLeased ==> !HasStreamingRow(rows, v.engineId, w.leases))
      && (settings.protectFavorites ==> !v.favorite)
      && (settings.protectNeverWatched ==> v.watched)
  {
    VictimIsManaged(rows, w, settings);
    ProtectedMeans(rows, w, settings, Queue(rows, w, settings)[0].engineId);
  }

  /** The victim is a described route that none of the four reasons spares. */
  ghost predicate Takes(e: Eviction, w: World, settings: Settings) {
    var id := e.victim.engineId;
    && id in w.status && e.victim == RouteFor(e.before, w, id)
    && (settings.protectIncomplete ==>
          && w.status[id].progress >= 1.0
          && forall k :: 0 <= k < |e.before| && e.before[k].engineId == id ==> e.before[k].progress >= 1.0)
    && (settings.protectLeased ==>
          forall k :: 0 <= k < |e.before| && e.before[k].engineId == id ==>
            e.before[k].id !in w.leases && !e.before[k].leased)
    && (settings.protectFavorites ==> !e.victim.favorite)
    && (settings.protectNeverWatched ==> e.victim.watched)
  }

  lemma HeadTakes(e: Eviction, w: World, settings: Settings)
    requires EvictsHead(e, w, settings)
    ensures Takes(e, w, settings)
  {
    HeadIsTakeable(e.before, w, settings);
    hide Queue, RouteFor;
  }

  /** A managed, described route that may not be taken, for one of the four reasons. */
  ghost predicate Spared(rows: seq<Row>, w: World, settings: Settings, id: string)
    requires id in w.status
  {
    || (settings.protectIncomplete && (w.status[id].progress < 1.0 || HasUnfinishedRow(rows, id)))
    || (settings.protectLeased && HasStreamingRow(rows, id, w.leases))
    || (settings.protectFavorites && RouteFor(rows, w, id).favorite)
    || (settings.protectNeverWatched && !RouteFor(rows, w, id).watched)
  }

  ghost predicate EverythingSpared(rows: seq<Row>, w: World, settings: Settings) {
    forall i :: 0 <= i < |rows| && rows[i].engineId in w.status ==> Spared(rows, w, settings, rows[i].engineId)
  }

  /** When every surveyed route is protected, every described row belongs to a spared route. */
  lemma NothingToTake(rows: seq<Row>, w: World, settings: Settings)
    requires forall r :: r in Survey(rows, w).routes ==> Protected(r, w, settings)
    ensures EverythingSpared(rows, w, settings)
  {
    RouteIdsFacts(rows);
    SurveyFacts(rows, w, RouteIds(rows));
    hide Protected;
    forall i | 0 <= i < |rows| && rows[i].engineId in w.status ensures Spared(rows, w, settings, rows[i].engineId) {
      var id := rows[i].engineId;
      assert RouteFor(rows, w, id) in Survey(rows, w).routes;
      ProtectedMeans(rows, w, settings, id);
    }
  }

  /** evictNext: removes the first unprotected route of the surveyed rows. */
  method EvictNext(rows: seq<Row>, w: World, settings: Settings)
    returns (left: seq<Row>, victim: Option<Route>, ok: bool)
    ensures victim.None? ==> ok && left == rows && forall r :: r in Survey(rows, w).routes ==> Protected(r, w, settings)
    ensures victim.Some? && ok ==> EvictsHead(Eviction(rows, victim.value, left), w, settings) && |left| < |rows|
    ensures !ok ==> victim.Some? && Tears(rows, left, w, settings)
    ensures victim.Some? ==> victim.value.engineId in w.status && !Protected(victim.value, w, settings)
    ensures victim.Some? ==>
      forall other :: other != victim.value.engineId ==> RowsOf(left, other) == RowsOf(rows, other)
    ensures |left| <= |rows|
    ensures victim.Some? && settings.protectIncomplete ==>
      && w.status[victim.value.engineId].progress >= 1.0
      && forall i :: 0 <= i < |rows| && rows[i].engineId == victim.value.engineId ==> rows[i].progress >= 1.0
    ensures victim.Some? && settings.protectLeased ==>
      forall i :: 0 <= i < |rows| && rows[i].engineId == victim.value.engineId ==>
        rows[i].id !in w.leases && !rows[i].leased
    ensures victim.Some? && settings.protectFavorites ==> !victim.value.favorite
    ensures victim.Some? && settings.protectNeverWatched ==> victim.value.watched
    ensures victim.None? ==> forall i :: 0 <= i < |rows| && rows[i].engineId in w.status ==>
      var id := rows[i].engineId;
      || (settings.protectIncomplete && (w.status[id].progress < 1.0
           || exists j :: 0 <= j < |rows| && rows[j].engineId == id && rows[j].progress < 1.0))
      || (settings.protectLeased &&
           exists j :: 0 <= j < |rows| && rows[j].engineId == id && (rows[j].id in w.leases || rows[j].leased))
      || (settings.protectFavorites && RouteFor(rows, w, id).favorite)
      || (settings.protectNeverWatched && !RouteFor(rows, w, id).watched)
  {
    QueueFacts(rows, w, settings);
    var queue := Queue(rows, w, settings);
    if |queue| == 0 {
      assert forall r :: r in queue <==> r in Survey(rows, w).routes && !Protected(r, w, settings);
      NothingToTake(rows, w, settings);
      return rows, None, true;
    }
    HeadIsTakeable(rows, w, settings);
    VictimIsManaged(rows, w, settings);
    var v := queue[0];
    left, ok := ForgetEngineRows(rows, v.engineId, w.removal);
    victim := Some(v);
  }

  /** How a run that failed ended: the survey gave no answer, or a removal stopped half way. */
  ghost predicate FailsWith(reached: seq<Row>, rows: seq<Row>, w: World, settings: Settings) {
    if w.surveyFails then rows == reached
    else DeficitOf(Survey(reached, w), settings) != Fits && Tears(reached, rows, w, settings)
  }

  /** runRetention: `worlds(k)` is what the k-th survey and eviction meet. However the run ends,
      its evictions were lawful; a failing run adds nothing but one torn removal. */
  method RunRetention(start: seq<Row>, worlds: nat -> World, settings: Settings)
    returns (rows: seq<Row>, trace: seq<Eviction>, ending: Ending)
    ensures IsRun(start, trace, Reached(start, trace), worlds, settings)
    ensures !ending.Failed? ==> rows == Reached(start, trace) && !worlds(|trace|).surveyFails
    ensures ending.WithinLimits? ==> DeficitOf(Survey(rows, worlds(|trace|)), settings) == Fits
    ensures ending.AllProtected? ==>
      && DeficitOf(Survey(rows, worlds(|trace|)), settings) != Fits
      && forall r :: r in Survey(rows, worlds(|trace|)).routes ==> Protected(r, worlds(|trace|), settings)
    ensures ending.Failed? ==> FailsWith(Reached(start, trace), rows, worlds(|trace|), settings)
    ensures |rows| + |trace| <= |start|
    ensures ending.WithinLimits? ==>
      var w := worlds(|trace|);
      && (settings.allocation.Some? ==> StoredBytes(SizesOf(w), rows) <= settings.allocation.value)
      && (settings.reserve.Some? && w.freeBytes.Some? ==> settings.reserve.value <= w.freeBytes.value)
    ensures ending.AllProtected? ==> OverLimits(rows, worlds(|trace|), settings, 0)
    ensures ending.AllProtected? ==> EverythingSpared(rows, worlds(|trace|), settings)
    ensures forall i :: 0 <= i < |trace| ==>
      var e, w := trace[i], worlds(i);
      || (settings.allocation.Some? && StoredBytes(SizesOf(w), e.before) > settings.allocation.value)
      || (settings.reserve.Some? && w.freeBytes.Some? && settings.reserve.value > w.freeBytes.value)
    ensures forall i :: 0 <= i < |trace| ==>
      var e, w, id := trace[i], worlds(i), trace[i].victim.engineId;
      && id in w.status && e.victim == RouteFor(e.before, w, id)
      && (settings.protectIncomplete ==>
            && w.status[id].progress >= 1.0
            && forall k :: 0 <= k < |e.before| && e.before[k].engineId == id ==> e.before[k].progress >= 1.0)
      && (settings.protectLeased ==>
            forall k :: 0 <= k < |e.before| && e.before[k].engineId == id ==>
              e.before[k].id !in w.leases && !e.before[k].leased)
      && (settings.protectFavorites ==> !e.victim.favorite)
      && (settings.protectNeverWatched ==> e.victim.watched)
  {
    rows, trace := start, [];
    EmptyRun(start, worlds, settings);
    hide Survey, DeficitOf, Queue, Evicts, EvictsHead, Protected, IsRun, RowsOf, Tears;
    hide EverythingSpared, StoredBytes, RouteFor;
    while true
      invariant forall i :: 0 <= i < |trace| ==>
        OverLimits(trace[i].before, worlds(i), settings, 0) && Takes(trace[i], worlds(i), settings)
      invariant IsRun(start, trace, rows, worlds, settings) && rows == Reached(start, trace)
      invariant |rows| + |trace| <= |start|
      decreases |rows|
    {
      var w := worlds(|trace|);
      if w.surveyFails {
        return rows, trace, Failed;
      }
      DeficitMeans(rows, w, settings);
      if DeficitOf(Survey(rows, w), settings) == Fits {
        return rows, trace, WithinLimits;
      }
      var left, victim, ok := EvictNext(rows, w, settings);
      if !ok {
        return left, trace, Failed;
      }
      if victim.None? {
        NothingToTake(rows, w, settings);
        return rows, trace, AllProtected;
      }
      var e := Eviction(rows, victim.value, left);
      HeadTakes(e, w, settings);
      EvictsFrom(e, w, settings);
      ExtendRun(start, trace, rows, worlds, settings, e);
      trace := trace + [e];
      rows := left;
    }
  }

  lemma EvictsFrom(e: Eviction, w: World, settings: Settings)
    requires !w.surveyFails && EvictsHead(e, w, settings) && DeficitOf(Survey(e.before, w), settings) != Fits
    ensures Evicts(e, w, settings)
  {
  }

  lemma EmptyRun(start: seq<Row>, worlds: nat -> World, settings: Settings)
    ensures IsRun(start, [], start, worlds, settings)
  {
  }

  lemma ExtendRun(
      start: seq<Row>, trace: seq<Eviction>, rows: seq<Row>, worlds: nat -> World, settings: Settings, e: Eviction)
    requires IsRun(start, trace, rows, worlds, settings) && e.before == rows && Evicts(e, worlds(|trace|), settings)
    ensures IsRun(start, trace + [e], e.after, worlds, settings)
  {
    hide Evicts;
    var more := trace + [e];
    forall i | 0 <= i < |more| ensures Evicts(more[i], worlds(i), settings) {
      assert i < |trace| ==> more[i] == trace[i];
    }
  }
}
