/** Managed rows grouped into Engine routes, and the order in which routes are evicted. */
module Routes {
  import opened Sorting

  /** Times are instants since the zero time; 0 is "never". */
  type Time = int

  datatype Row = Row(id: string, engineId: string, releaseId: string, updatedAt: Time, progress: real, leased: bool)

  datatype Status = Status(totalBytes: int, progress: real)

  datatype Route = Route(
    engineId: string,
    rows: seq<Row>,
    status: Status,
    favorite: bool,
    watched: bool,
    lastPlayed: Time)

  datatype Rule =
    | OldestCompleted
    | NewestCompleted
    | LeastRecentlyPlayed
    | MostRecentlyPlayed
    | WatchedFirst
    | NeverWatchedFirst
    | Largest
    | Smallest
    | Unrecognised(atom: string)

  // ----- timestamps -----

  /** The oldest row timestamp stands in for a completion time. */
  function OldestRow(rows: seq<Row>): (t: Time)
    requires rows != []
    ensures forall i :: 0 <= i < |rows| ==> t <= rows[i].updatedAt
    ensures exists i :: 0 <= i < |rows| && t == rows[i].updatedAt
  {
    var last := rows[|rows| - 1].updatedAt;
    if |rows| == 1 then last
    else
      var init := rows[..|rows| - 1];
      var oldest := OldestRow(init);
      assert forall i :: 0 <= i < |init| ==> init[i] == rows[i];
      if last < oldest then last else oldest
  }

  function CompletedAt(r: Route): Time {
    if r.rows == [] then 0 else OldestRow(r.rows)
  }

  lemma OldestOfMore(rows: seq<Row>, i: nat)
    requires 0 < i < |rows|
    ensures OldestRow(rows[..i + 1])
      == if rows[i].updatedAt < OldestRow(rows[..i]) then rows[i].updatedAt else OldestRow(rows[..i])
  {
    assert rows[..i + 1][..i] == rows[..i];
  }

  method ComputeCompletedAt(r: Route) returns (oldest: Time)
    requires r.rows != []
    ensures oldest == CompletedAt(r)
  {
    oldest := r.rows[0].updatedAt;
    for i := 1 to |r.rows|
      invariant oldest == OldestRow(r.rows[..i])
    {
      OldestOfMore(r.rows, i);
      if r.rows[i].updatedAt < oldest {
        oldest := r.rows[i].updatedAt;
      }
    }
    assert r.rows[..|r.rows|] == r.rows;
  }

  function LastActivity(r: Route): Time {
    if r.lastPlayed != 0 then r.lastPlayed else CompletedAt(r)
  }

  // ----- the rules -----

  function Compare(x: int, y: int): int {
    if x < y then -1 else if x > y then 1 else 0
  }

  function BoolFirst(a: bool, b: bool): int {
    if a == b then 0 else if a then -1 else 1
  }

  /** Negative means `a` is evicted first. Anything unrecognised ranks by age. */
  function CompareRule(rule: Rule, a: Route, b: Route): int {
    match rule
    case NewestCompleted => Compare(CompletedAt(b), CompletedAt(a))
    case LeastRecentlyPlayed => Compare(LastActivity(a), LastActivity(b))
    case MostRecentlyPlayed => Compare(LastActivity(b), LastActivity(a))
    case WatchedFirst => BoolFirst(a.watched, b.watched)
    case NeverWatchedFirst => BoolFirst(!a.watched, !b.watched)
    case Largest => Compare(b.status.totalBytes, a.status.totalBytes)
    case Smallest => Compare(a.status.totalBytes, b.status.totalBytes)
    case _ => Compare(CompletedAt(a), CompletedAt(b))
  }

  /** The first distinguishing rule decides; then age; then the engine id. */
  predicate Precedes(rules: seq<Rule>, a: Route, b: Route) {
    if rules == [] then
      var c := Compare(CompletedAt(a), CompletedAt(b));
      if c != 0 then c < 0 else StringBefore(a.engineId, b.engineId)
    else
      var c := CompareRule(rules[0], a, b);
      if c != 0 then c < 0 else Precedes(rules[1..], a, b)
  }

  function EvictionOrder(rules: seq<Rule>): (Route, Route) -> bool {
    (a, b) => Precedes(rules, a, b)
  }

  /** The comparator as the code runs it: a loop over the rules, then the two tie-breakers. */
  method ComparePair(rules: seq<Rule>, a: Route, b: Route) returns (before: bool)
    ensures before == Precedes(rules, a, b)
  {
    for i := 0 to |rules|
      invariant Precedes(rules, a, b) == Precedes(rules[i..], a, b)
    {
      var c := CompareRule(rules[i], a, b);
      if c != 0 {
        return c < 0;
      }
      assert rules[i..][1..] == rules[i + 1..];
    }
    var c := Compare(CompletedAt(a), CompletedAt(b));
    if c != 0 {
      return c < 0;
    }
    return StringBefore(a.engineId, b.engineId);
  }

  /** Each rule compares one number per route. */
  function RankOf(rule: Rule, r: Route): int {
    match rule
    case NewestCompleted => -CompletedAt(r)
    case LeastRecentlyPlayed => LastActivity(r)
    case MostRecentlyPlayed => -LastActivity(r)
    case WatchedFirst => if r.watched then 0 else 1
    case NeverWatchedFirst => if r.watched then 1 else 0
    case Largest => -r.status.totalBytes
    case Smallest => r.status.totalBytes
    case _ => CompletedAt(r)
  }

  lemma RuleComparesRanks(rule: Rule, a: Route, b: Route)
    ensures CompareRule(rule, a, b) == Compare(RankOf(rule, a), RankOf(rule, b))
  {
  }

  lemma {:induction false} PrecedesIrreflexive(rules: seq<Rule>, a: Route)
    ensures !Precedes(rules, a, a)
  {
    if rules == [] {
      StringIrreflexive(a.engineId);
    } else {
      RuleComparesRanks(rules[0], a, a);
      PrecedesIrreflexive(rules[1..], a);
    }
  }

  lemma {:induction false} PrecedesTotal(rules: seq<Rule>, a: Route, b: Route)
    requires a.engineId != b.engineId
    ensures Precedes(rules, a, b) || Precedes(rules, b, a)
  {
    if rules == [] {
      StringTotal(a.engineId, b.engineId);
    } else {
      RuleComparesRanks(rules[0], a, b);
      RuleComparesRanks(rules[0], b, a);
      PrecedesTotal(rules[1..], a, b);
    }
  }

  lemma {:induction false} PrecedesTransitive(rules: seq<Rule>, a: Route, b: Route, c: Route)
    requires Precedes(rules, a, b) && Precedes(rules, b, c)
    ensures Precedes(rules, a, c)
  {
    if rules == [] {
      if CompletedAt(a) == CompletedAt(b) == CompletedAt(c) {
        StringTransitive(a.engineId, b.engineId, c.engineId);
      }
    } else {
      RuleComparesRanks(rules[0], a, b);
      RuleComparesRanks(rules[0], b, c);
      RuleComparesRanks(rules[0], a, c);
      if RankOf(rules[0], a) == RankOf(rules[0], b) == RankOf(rules[0], c) {
        PrecedesTransitive(rules[1..], a, b, c);
      }
    }
  }

  ghost predicate OnePerEngine(routes: set<Route>) {
    forall a, b :: a in routes && b in routes && a.engineId == b.engineId ==> a == b
  }

  /** When a route was last used: the playback time, or without one its oldest row. */
  ghost predicate UsedAt(r: Route, t: Time) {
    if r.lastPlayed != 0 then t == r.lastPlayed else AgedAt(r, t)
  }

  ghost predicate AgedAt(r: Route, t: Time) {
    && (forall i :: 0 <= i < |r.rows| ==> t <= r.rows[i].updatedAt)
    && (exists i :: 0 <= i < |r.rows| && t == r.rows[i].updatedAt)
  }

  lemma AgedMeans(r: Route, t: Time)
    requires AgedAt(r, t)
    ensures CompletedAt(r) == t
  {
  }

  lemma UsedMeans(r: Route, t: Time)
    requires UsedAt(r, t)
    ensures LastActivity(r) == t
  {
    if r.lastPlayed == 0 {
      AgedMeans(r, t);
    }
  }

  /** What each rule puts first, in terms of the routes' own data; a tie is left to the rest. */
  lemma SizeAndWatchedRules(rest: seq<Rule>, a: Route, b: Route)
    ensures a.status.totalBytes > b.status.totalBytes ==> Precedes([Largest] + rest, a, b)
    ensures a.status.totalBytes < b.status.totalBytes ==> Precedes([Smallest] + rest, a, b)
    ensures a.status.totalBytes == b.status.totalBytes ==>
      && Precedes([Largest] + rest, a, b) == Precedes(rest, a, b)
      && Precedes([Smallest] + rest, a, b) == Precedes(rest, a, b)
    ensures a.watched && !b.watched ==> Precedes([WatchedFirst] + rest, a, b)
    ensures !a.watched && b.watched ==> Precedes([NeverWatchedFirst] + rest, a, b)
    ensures a.watched == b.watched ==>
      && Precedes([WatchedFirst] + rest, a, b) == Precedes(rest, a, b)
      && Precedes([NeverWatchedFirst] + rest, a, b) == Precedes(rest, a, b)
  {
    forall rule: Rule ensures ([rule] + rest)[0] == rule && ([rule] + rest)[1..] == rest {
    }
  }

  lemma AgeRules(rest: seq<Rule>, atom: string, a: Route, b: Route, s: Time, t: Time)
    requires AgedAt(a, s) && AgedAt(b, t)
    ensures s < t ==> Precedes([OldestCompleted] + rest, a, b) && Precedes([Unrecognised(atom)] + rest, a, b)
    ensures s > t ==> Precedes([NewestCompleted] + rest, a, b)
    ensures s == t ==>
      && Precedes([OldestCompleted] + rest, a, b) == Precedes(rest, a, b)
      && Precedes([NewestCompleted] + rest, a, b) == Precedes(rest, a, b)
      && Precedes([Unrecognised(atom)] + rest, a, b) == Precedes(rest, a, b)
    ensures s < t ==> Precedes([], a, b)
    ensures s == t ==> Precedes([], a, b) == StringBefore(a.engineId, b.engineId)
  {
    AgedMeans(a, s);
    AgedMeans(b, t);
    forall rule: Rule ensures ([rule] + rest)[0] == rule && ([rule] + rest)[1..] == rest {
    }
  }

  lemma RecencyRules(rest: seq<Rule>, a: Route, b: Route, s: Time, t: Time)
    requires UsedAt(a, s) && UsedAt(b, t)
    ensures s < t ==> Precedes([LeastRecentlyPlayed] + rest, a, b)
    ensures s > t ==> Precedes([MostRecentlyPlayed] + rest, a, b)
    ensures s == t ==>
      && Precedes([LeastRecentlyPlayed] + rest, a, b) == Precedes(rest, a, b)
      && Precedes([MostRecentlyPlayed] + rest, a, b) == Precedes(rest, a, b)
  {
    UsedMeans(a, s);
    UsedMeans(b, t);
    forall rule: Rule ensures ([rule] + rest)[0] == rule && ([rule] + rest)[1..] == rest {
    }
  }

  /** Every rule list, with unknown and repeated rules, is a strict total order on routes. */
  lemma EveryRuleListIsAnOrder(rules: seq<Rule>, routes: set<Route>)
    requires OnePerEngine(routes)
    ensures StrictTotalOn(EvictionOrder(rules), routes)
  {
    var before := EvictionOrder(rules);
    forall a | a in routes ensures !before(a, a) {
      PrecedesIrreflexive(rules, a);
    }
    forall a, b | a in routes && b in routes && a != b ensures before(a, b) || before(b, a) {
      PrecedesTotal(rules, a, b);
    }
    forall a, b, c | a in routes && b in routes && c in routes && before(a, b) && before(b, c) ensures before(a, c) {
      PrecedesTransitive(rules, a, b, c);
    }
  }

  // ----- grouping rows into routes -----

  /** The routes in the order the row list first mentions them. */
  function RouteIds(rows: seq<Row>): seq<string> {
    if rows == [] then []
    else
      var init, last := RouteIds(rows[..|rows| - 1]), rows[|rows| - 1].engineId;
      if last in init then init else init + [last]
  }

  function RowsOf(rows: seq<Row>, engineId: string): seq<Row> {
    if rows == [] then []
    else
      var init, last := RowsOf(rows[..|rows| - 1], engineId), rows[|rows| - 1];
      if last.engineId == engineId then init + [last] else init
  }

  /** The rows left when a route is forgotten. */
  function Without(rows: seq<Row>, engineId: string): seq<Row> {
    if rows == [] then []
    else
      var init, last := Without(rows[..|rows| - 1], engineId), rows[|rows| - 1];
      if last.engineId == engineId then init else init + [last]
  }

  function Drop(ids: seq<string>, id: string): seq<string> {
    if ids == [] then []
    else if ids[|ids| - 1] == id then Drop(ids[..|ids| - 1], id)
    else Drop(ids[..|ids| - 1], id) + [ids[|ids| - 1]]
  }

  lemma {:induction false} RouteIdsFacts(rows: seq<Row>)
    ensures Distinct(RouteIds(rows))
    ensures forall id :: id in RouteIds(rows) <==> exists i :: 0 <= i < |rows| && rows[i].engineId == id
  {
    if rows != [] {
      var init := rows[..|rows| - 1];
      RouteIdsFacts(init);
      assert forall i :: 0 <= i < |init| ==> init[i] == rows[i];
      forall id | id in RouteIds(rows) ensures exists i :: 0 <= i < |rows| && rows[i].engineId == id {
        if id in RouteIds(init) {
          var i :| 0 <= i < |init| && init[i].engineId == id;
          assert rows[i].engineId == id;
        } else {
          assert rows[|rows| - 1].engineId == id;
        }
      }
    }
  }

  lemma {:induction false} RowsOfFacts(rows: seq<Row>, engineId: string)
    ensures forall row :: row in RowsOf(rows, engineId) <==> row in rows && row.engineId == engineId
  {
    if rows != [] {
      RowsOfFacts(rows[..|rows| - 1], engineId);
      assert rows == rows[..|rows| - 1] + [rows[|rows| - 1]];
    }
  }

  lemma {:induction false} WithoutMembers(rows: seq<Row>, engineId: string)
    ensures forall row :: row in Without(rows, engineId) <==> row in rows && row.engineId != engineId
    ensures |Without(rows, engineId)| + |RowsOf(rows, engineId)| == |rows|
  {
    if rows != [] {
      WithoutMembers(rows[..|rows| - 1], engineId);
      assert rows == rows[..|rows| - 1] + [rows[|rows| - 1]];
    }
  }

  lemma {:induction false} WithoutKeeps(rows: seq<Row>, engineId: string, other: string)
    ensures RowsOf(Without(rows, engineId), other) == if other == engineId then [] else RowsOf(rows, other)
  {
    if rows != [] {
      var init, last := rows[..|rows| - 1], rows[|rows| - 1];
      WithoutKeeps(init, engineId, other);
      RowsOfMore(Without(init, engineId), last, other);
    }
  }

  /** Forgetting a route deletes all of its rows and no others, in place. */
  lemma WithoutFacts(rows: seq<Row>, engineId: string)
    ensures forall row :: row in Without(rows, engineId) <==> row in rows && row.engineId != engineId
    ensures |Without(rows, engineId)| + |RowsOf(rows, engineId)| == |rows|
    ensures forall other :: other != engineId ==> RowsOf(Without(rows, engineId), other) == RowsOf(rows, other)
    ensures RowsOf(Without(rows, engineId), engineId) == []
  {
    WithoutMembers(rows, engineId);
    hide Without, RowsOf;
    forall other
      ensures RowsOf(Without(rows, engineId), other) == if other == engineId then [] else RowsOf(rows, other)
    {
      WithoutKeeps(rows, engineId, other);
    }
  }

  lemma RowsOfMore(rows: seq<Row>, last: Row, engineId: string)
    ensures RowsOf(rows + [last], engineId) == RowsOf(rows, engineId) + if last.engineId == engineId then [last] else []
  {
    assert (rows + [last])[..|rows|] == rows;
  }

  lemma DropAppend(ids: seq<string>, last: string, id: string)
    ensures Drop(ids + [last], id) == if last == id then Drop(ids, id) else Drop(ids, id) + [last]
  {
    assert (ids + [last])[..|ids|] == ids;
  }

  lemma {:induction false} DropMembers(ids: seq<string>, id: string)
    ensures forall x :: x in Drop(ids, id) <==> x in ids && x != id
  {
    if ids != [] {
      DropMembers(ids[..|ids| - 1], id);
      assert ids == ids[..|ids| - 1] + [ids[|ids| - 1]];
    }
  }

  lemma {:induction false} RouteIdsWithout(rows: seq<Row>, engineId: string)
    ensures RouteIds(Without(rows, engineId)) == Drop(RouteIds(rows), engineId)
  {
    if rows != [] {
      var init, last := rows[..|rows| - 1], rows[|rows| - 1];
      RouteIdsWithout(init, engineId);
      DropMembers(RouteIds(init), engineId);
      DropAppend(RouteIds(init), last.engineId, engineId);
      var left := Without(init, engineId);
      assert (left + [last])[..|left|] == left;
    }
  }

  // ----- stored bytes -----

  /** The sizes the engines report; a route they cannot describe has none. */
  type Sizes = map<string, int>

  function SizeOf(sizes: Sizes, id: string): int {
    if id in sizes then sizes[id] else 0
  }

  function SumSizes(sizes: Sizes, ids: seq<string>): int {
    if ids == [] then 0 else SumSizes(sizes, ids[..|ids| - 1]) + SizeOf(sizes, ids[|ids| - 1])
  }

  /** What the managed torrents take up: each route once, however many rows it has. */
  function StoredBytes(sizes: Sizes, rows: seq<Row>): int {
    SumSizes(sizes, RouteIds(rows))
  }

  lemma SumMore(sizes: Sizes, ids: seq<string>, last: string)
    ensures SumSizes(sizes, ids + [last]) == SumSizes(sizes, ids) + SizeOf(sizes, last)
  {
    assert (ids + [last])[..|ids|] == ids;
  }

  lemma {:induction false} SumWithout(sizes: Sizes, ids: seq<string>, id: string)
    requires Distinct(ids)
    ensures SumSizes(sizes, Drop(ids, id)) == SumSizes(sizes, ids) - if id in ids then SizeOf(sizes, id) else 0
  {
    if ids != [] {
      var init, last := ids[..|ids| - 1], ids[|ids| - 1];
      SumWithout(sizes, init, id);
      assert ids == init + [last] && last !in init;
      SumMore(sizes, init, last);
      SumMore(sizes, Drop(init, id), last);
      DropAppend(init, last, id);
      hide SumSizes, Drop, SizeOf;
    }
  }

  /** Forgetting a route frees exactly its size. */
  lemma StoredWithout(sizes: Sizes, rows: seq<Row>, id: string)
    ensures StoredBytes(sizes, Without(rows, id))
      == StoredBytes(sizes, rows) - if id in RouteIds(rows) then SizeOf(sizes, id) else 0
  {
    RouteIdsFacts(rows);
    RouteIdsWithout(rows, id);
    SumWithout(sizes, RouteIds(rows), id);
  }

  /** Saving a row adds its route's size once. */
  lemma StoredWithRow(sizes: Sizes, rows: seq<Row>, row: Row)
    ensures StoredBytes(sizes, rows + [row])
      == StoredBytes(sizes, rows) + if row.engineId in RouteIds(rows) then 0 else SizeOf(sizes, row.engineId)
  {
    assert (rows + [row])[..|rows|] == rows;
    var ids := RouteIds(rows);
    assert (ids + [row.engineId])[..|ids|] == ids;
  }
}
