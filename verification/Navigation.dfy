/** Next and previous episode over a title's built seasons. */
module Navigation {
  import opened Sorting
  import opened Alignment
  import opened Seasons
  import opened SeasonLaws
  import opened SeasonBuilder

  /** Episode 0 stands for "none yet" in the selection loop. */
  const NONE_YET := Key(0, 0)

  // ----- the episodes in the order the loops visit them -----

  function SeasonKeys(s: Season): (keys: seq<Key>)
    ensures |keys| == |s.episodes|
    ensures forall i :: 0 <= i < |keys| ==> keys[i] == Key(s.number, s.episodes[i].number)
  {
    seq(|s.episodes|, i requires 0 <= i < |s.episodes| => Key(s.number, s.episodes[i].number))
  }

  function AllKeys(seasons: seq<Season>): seq<Key> {
    if seasons == [] then [] else AllKeys(seasons[..|seasons| - 1]) + SeasonKeys(seasons[|seasons| - 1])
  }

  predicate AllNumbered(keys: seq<Key>) {
    forall i :: 0 <= i < |keys| ==> keys[i].episode >= 1
  }

  // ----- the selection -----

  /** On the asked side of the current episode. */
  predicate Beyond(k: Key, current: Key, forward: bool) {
    if forward then KeyBefore(current, k) else KeyBefore(k, current)
  }

  function Step(best: Key, k: Key, current: Key, forward: bool): Key {
    if !Beyond(k, current, forward) then best
    else if best.episode == 0 || Beyond(best, k, forward) then k
    else best
  }

  function Scan(keys: seq<Key>, current: Key, forward: bool): Key {
    if keys == [] then NONE_YET
    else Step(Scan(keys[..|keys| - 1], current, forward), keys[|keys| - 1], current, forward)
  }

  /** `k` is shown by `seasons` with exactly these sources. */
  ghost predicate Shows(seasons: seq<Season>, k: Key, sources: seq<Source>) {
    exists i, j :: 0 <= i < |seasons| && 0 <= j < |seasons[i].episodes|
      && k == Key(seasons[i].number, seasons[i].episodes[j].number) && sources == seasons[i].episodes[j].sources
  }

  lemma ScanAppend(keys: seq<Key>, k: Key, current: Key, forward: bool)
    ensures Scan(keys + [k], current, forward) == Step(Scan(keys, current, forward), k, current, forward)
  {
    assert (keys + [k])[..|keys|] == keys;
  }

  lemma ScanMore(before: seq<Key>, keys: seq<Key>, j: nat, current: Key, forward: bool)
    requires j < |keys|
    ensures Scan(before + keys[..j + 1], current, forward)
      == Step(Scan(before + keys[..j], current, forward), keys[j], current, forward)
  {
    ScanAppend(before + keys[..j], keys[j], current, forward);
    assert before + keys[..j] + [keys[j]] == before + keys[..j + 1];
  }

  /** The inner loop, over one season, continuing the scan of the keys before it. */
  method SelectInSeason(s: Season, ghost before: seq<Key>, current: Key, forward: bool, best: Key, sources: seq<Source>)
    returns (nextKey: Key, candidates: seq<Source>)
    requires best == Scan(before, current, forward)
    ensures nextKey == Scan(before + SeasonKeys(s), current, forward)
    ensures (nextKey == best && candidates == sources) || Shows([s], nextKey, candidates)
  {
    hide Scan;
    nextKey, candidates := best, sources;
    var keys := SeasonKeys(s);
    assert before + keys[..0] == before;
    for j := 0 to |keys|
      invariant nextKey == Scan(before + keys[..j], current, forward)
      invariant (nextKey == best && candidates == sources) || Shows([s], nextKey, candidates)
    {
      ScanMore(before, keys, j, current, forward);
      if Beyond(keys[j], current, forward) && (nextKey.episode == 0 || Beyond(nextKey, keys[j], forward)) {
        nextKey, candidates := keys[j], s.episodes[j].sources;
        assert [s][0].episodes[j].sources == candidates;
      }
    }
    assert before + keys[..|keys|] == before + keys;
  }

  /** siblingEpisode's selection: nested loops over seasons and episodes. */
  method SelectSibling(seasons: seq<Season>, current: Key, forward: bool)
    returns (nextKey: Key, candidates: seq<Source>)
    ensures current.episode == 0 ==> nextKey == NONE_YET && candidates == []
    ensures current.episode != 0 ==> nextKey == Scan(AllKeys(seasons), current, forward)
    ensures (nextKey == NONE_YET && candidates == []) || Shows(seasons, nextKey, candidates)
  {
    nextKey, candidates := NONE_YET, [];
    if current.episode == 0 {
      return;
    }
    for i := 0 to |seasons|
      invariant nextKey == Scan(AllKeys(seasons[..i]), current, forward)
      invariant (nextKey == NONE_YET && candidates == []) || Shows(seasons, nextKey, candidates)
    {
      assert seasons[..i + 1][..i] == seasons[..i];
      var k, c := SelectInSeason(seasons[i], AllKeys(seasons[..i]), current, forward, nextKey, candidates);
      ShowsLifts(seasons, i, k, c);
      nextKey, candidates := k, c;
    }
    assert seasons[..|seasons|] == seasons;
  }

  lemma ShowsLifts(seasons: seq<Season>, i: nat, k: Key, sources: seq<Source>)
    requires i < |seasons|
    ensures Shows([seasons[i]], k, sources) ==> Shows(seasons, k, sources)
  {
  }

  lemma {:induction false} ShownIsKey(seasons: seq<Season>, k: Key, sources: seq<Source>)
    requires Shows(seasons, k, sources)
    ensures k in AllKeys(seasons)
  {
    var init, last := seasons[..|seasons| - 1], seasons[|seasons| - 1];
    var i, j :| 0 <= i < |seasons| && 0 <= j < |seasons[i].episodes|
      && k == Key(seasons[i].number, seasons[i].episodes[j].number) && sources == seasons[i].episodes[j].sources;
    if i < |init| {
      assert init[i] == seasons[i];
      ShownIsKey(init, k, sources);
    } else {
      assert SeasonKeys(last)[j] == k;
    }
  }

  // ----- what the selection finds -----

  /** `k` is the nearest of the keys beyond `current`. */
  ghost predicate Nearest(keys: seq<Key>, k: Key, current: Key, forward: bool) {
    && k in keys && Beyond(k, current, forward)
    && forall i :: 0 <= i < |keys| && Beyond(keys[i], current, forward) ==> keys[i] == k || Beyond(keys[i], k, forward)
  }

  /** With every episode numbered from 1 the sentinel never collides: the scan finds the
      nearest episode on the asked side, or none exactly when there is none. */
  lemma {:induction false} ScanFindsNearest(keys: seq<Key>, current: Key, forward: bool)
    requires AllNumbered(keys)
    ensures Scan(keys, current, forward).episode == 0
      <==> forall i :: 0 <= i < |keys| ==> !Beyond(keys[i], current, forward)
    ensures Scan(keys, current, forward).episode == 0 ==> Scan(keys, current, forward) == NONE_YET
    ensures Scan(keys, current, forward).episode != 0 ==> Nearest(keys, Scan(keys, current, forward), current, forward)
  {
    if keys != [] {
      var init, last := keys[..|keys| - 1], keys[|keys| - 1];
      ScanFindsNearest(init, current, forward);
      var best := Scan(init, current, forward);
      if best.episode != 0 {
        assert best in init;
        var i :| 0 <= i < |init| && init[i] == best;
        assert keys[i] == best;
      }
    }
  }

  /** After the first `n` keys a forward scan has nothing, then the successor, and then keeps
      the successor unless that is numbered 0. */
  lemma {:induction false} ForwardScan(keys: seq<Key>, i: nat, n: nat)
    requires Ascending(KeyBefore, keys) && i < |keys| && n <= |keys|
    ensures n <= i + 1 ==> Scan(keys[..n], keys[i], true) == NONE_YET
    ensures n == i + 2 ==> Scan(keys[..n], keys[i], true) == keys[i + 1]
    ensures n > i + 2 && keys[i + 1].episode != 0 ==> Scan(keys[..n], keys[i], true) == keys[i + 1]
    ensures n > i + 2 && keys[i + 1].episode == 0 ==> KeyBefore(keys[i + 1], Scan(keys[..n], keys[i], true))
  {
    if n > 0 {
      ForwardScan(keys, i, n - 1);
      assert keys[..n][..n - 1] == keys[..n - 1];
      assert n - 1 < i ==> KeyBefore(keys[n - 1], keys[i]);
      assert n - 1 > i ==> KeyBefore(keys[i], keys[n - 1]);
      assert n - 1 > i + 1 ==> KeyBefore(keys[i + 1], keys[n - 1]);
    }
  }

  /** Exactly when the loop taken alone walks an ascending list right: the successor is found
      unless it is numbered 0 and something follows it. */
  lemma NextIsSuccessorIff(keys: seq<Key>, i: nat)
    requires Ascending(KeyBefore, keys) && i + 1 < |keys|
    ensures Scan(keys, keys[i], true) == keys[i + 1] <==> keys[i + 1].episode != 0 || i + 2 == |keys|
  {
    ForwardScan(keys, i, |keys|);
    assert keys[..|keys|] == keys;
  }

  /** What the built seasons are: strictly ascending and numbered from 1. */
  ghost predicate Navigable(keys: seq<Key>) {
    Ascending(KeyBefore, keys) && AllNumbered(keys)
  }

  /** Next and Previous are the neighbours in the list. */
  lemma NeighboursAreFound(keys: seq<Key>, i: nat)
    requires Navigable(keys) && i < |keys|
    ensures Scan(keys, keys[i], true) == if i + 1 < |keys| then keys[i + 1] else NONE_YET
    ensures Scan(keys, keys[i], false) == if i > 0 then keys[i - 1] else NONE_YET
  {
    NeighbourAhead(keys, i);
    NeighbourBehind(keys, i);
  }

  lemma NeighbourAhead(keys: seq<Key>, i: nat)
    requires Navigable(keys) && i < |keys|
    ensures Scan(keys, keys[i], true) == if i + 1 < |keys| then keys[i + 1] else NONE_YET
  {
    ScanFindsNearest(keys, keys[i], true);
    var found := Scan(keys, keys[i], true);
    assert forall j :: 0 <= j < i ==> KeyBefore(keys[j], keys[i]);
    assert forall j :: i < j < |keys| ==> KeyBefore(keys[i], keys[j]);
    if i + 1 < |keys| {
      assert Beyond(keys[i + 1], keys[i], true);
      assert forall j :: i + 1 < j < |keys| ==> KeyBefore(keys[i + 1], keys[j]);
    }
  }

  lemma NeighbourBehind(keys: seq<Key>, i: nat)
    requires Navigable(keys) && i < |keys|
    ensures Scan(keys, keys[i], false) == if i > 0 then keys[i - 1] else NONE_YET
  {
    ScanFindsNearest(keys, keys[i], false);
    var found := Scan(keys, keys[i], false);
    assert forall j :: 0 <= j < i ==> KeyBefore(keys[j], keys[i]);
    assert forall j :: i < j < |keys| ==> KeyBefore(keys[i], keys[j]);
    if i > 0 {
      assert Beyond(keys[i - 1], keys[i], false);
      assert forall j :: 0 <= j < i - 1 ==> KeyBefore(keys[j], keys[i - 1]);
    }
  }

  /** Going on and coming back ends where it began, in both directions. */
  lemma NextAndPreviousAreInverse(keys: seq<Key>, k: Key)
    requires Navigable(keys) && k in keys
    ensures Scan(keys, k, true) != NONE_YET ==> Scan(keys, Scan(keys, k, true), false) == k
    ensures Scan(keys, k, false) != NONE_YET ==> Scan(keys, Scan(keys, k, false), true) == k
  {
    var i :| 0 <= i < |keys| && keys[i] == k;
    NeighboursAreFound(keys, i);
    if i + 1 < |keys| {
      NeighboursAreFound(keys, i + 1);
    }
    if i > 0 {
      NeighboursAreFound(keys, i - 1);
    }
  }

  /** Next pressed `n` times; "none" stays "none". */
  function NextTimes(keys: seq<Key>, k: Key, n: nat): Key {
    if n == 0 then k
    else
      var before := NextTimes(keys, k, n - 1);
      if before.episode == 0 then NONE_YET else Scan(keys, before, true)
  }

  /** Repeated Next visits each later episode once, in order, and then stops. */
  lemma {:induction false} NextVisitsEachOnce(keys: seq<Key>, i: nat, n: nat)
    requires Navigable(keys) && i < |keys|
    ensures NextTimes(keys, keys[i], n) == if i + n < |keys| then keys[i + n] else NONE_YET
  {
    if n > 0 {
      NextVisitsEachOnce(keys, i, n - 1);
      if i + n - 1 < |keys| {
        NeighboursAreFound(keys, i + n - 1);
      }
    }
  }

  // ----- the builders return navigable lists -----

  ghost predicate SeasonsInOrder(seasons: seq<Season>) {
    && (forall i, j :: 0 <= i < j < |seasons| ==> seasons[i].number < seasons[j].number)
    && (forall i :: 0 <= i < |seasons| ==> EpisodesInOrder(seasons[i]))
  }

  ghost predicate EpisodesInOrder(s: Season) {
    && (forall a, b :: 0 <= a < b < |s.episodes| ==> s.episodes[a].number < s.episodes[b].number)
    && (forall a :: 0 <= a < |s.episodes| ==> s.episodes[a].number >= 1)
  }

  lemma {:induction false} InOrderIsNavigable(seasons: seq<Season>)
    requires SeasonsInOrder(seasons)
    ensures Navigable(AllKeys(seasons))
    ensures forall k :: k in AllKeys(seasons) ==> exists i :: 0 <= i < |seasons| && seasons[i].number == k.season
  {
    if seasons != [] {
      var init, last := seasons[..|seasons| - 1], seasons[|seasons| - 1];
      assert forall i :: 0 <= i < |init| ==> init[i] == seasons[i];
      InOrderIsNavigable(init);
      assert EpisodesInOrder(last);
      forall k | k in AllKeys(init) ensures k.season < last.number {
        var i :| 0 <= i < |init| && init[i].number == k.season;
        assert seasons[i].number < last.number;
      }
      AppendNavigable(AllKeys(init), SeasonKeys(last));
      forall k | k in AllKeys(seasons) ensures exists i :: 0 <= i < |seasons| && seasons[i].number == k.season {
        if k in AllKeys(init) {
          var i :| 0 <= i < |init| && init[i].number == k.season;
          assert seasons[i].number == k.season;
        } else {
          assert seasons[|seasons| - 1].number == k.season;
        }
      }
    }
  }

  lemma AppendNavigable(a: seq<Key>, b: seq<Key>)
    requires Navigable(a) && Navigable(b)
    requires forall x, y :: x in a && y in b ==> KeyBefore(x, y)
    ensures Navigable(a + b)
  {
    forall i, j | 0 <= i < j < |a + b| ensures KeyBefore((a + b)[i], (a + b)[j]) {
      if i < |a| && j >= |a| {
        assert (a + b)[i] in a && (a + b)[j] in b;
      }
    }
  }

  /** The provider-aligned seasons are navigable, whatever the files were numbered. */
  lemma BuildIsNavigable(p: Provider, episodes: Episodes, packs: Packs)
    ensures Navigable(AllKeys(Build(p, episodes, packs)))
  {
    var seasons := Build(p, episodes, packs);
    SeasonsAscend(p, episodes, packs);
    forall i | 0 <= i < |seasons| ensures EpisodesInOrder(seasons[i]) {
      SeasonContents(p, episodes, packs, i);
    }
    InOrderIsNavigable(seasons);
  }

  /** The torrent-only seasons are navigable when every parsed episode is numbered from 1, and
      show every key of the map with its sources. */
  lemma TorrentOnlyIsNavigable(seasons: seq<Season>, episodes: Episodes, packs: Packs)
    requires Filled(episodes) && TorrentSeasonsAre(seasons, episodes, packs)
    requires forall k :: k in episodes ==> k.episode >= 1
    ensures Navigable(AllKeys(seasons))
    ensures forall k :: k in episodes ==> Shows(seasons, k, Sort(SourceBefore, episodes[k]))
  {
    IntsAreOrdered(TorrentNumbers(episodes, packs));
    var numbers := Ascend(IntBefore, TorrentNumbers(episodes, packs));
    forall i | 0 <= i < |seasons| ensures EpisodesInOrder(seasons[i]) {
      TorrentSeasonInOrder(seasons[i], episodes, packs, numbers[i]);
    }
    forall i, j | 0 <= i < j < |seasons| ensures seasons[i].number < seasons[j].number {
      assert TorrentSeasonIs(seasons[i], episodes, packs, numbers[i]);
      assert TorrentSeasonIs(seasons[j], episodes, packs, numbers[j]);
      assert IntBefore(numbers[i], numbers[j]);
    }
    InOrderIsNavigable(seasons);
    forall k | k in episodes ensures Shows(seasons, k, Sort(SourceBefore, episodes[k])) {
      TorrentShows(seasons, episodes, packs, k);
    }
  }

  lemma TorrentSeasonInOrder(s: Season, episodes: Episodes, packs: Packs, number: int)
    requires Filled(episodes) && TorrentSeasonIs(s, episodes, packs, number)
    requires forall k :: k in episodes ==> k.episode >= 1
    ensures EpisodesInOrder(s)
  {
    KeysAreOrdered(KeysIn(episodes, number));
    var keys := Ascend(KeyBefore, KeysIn(episodes, number));
    forall a | 0 <= a < |keys| ensures keys[a].season == number && s.episodes[a].number == keys[a].episode {
      assert keys[a] in Elements(keys);
    }
    assert forall a, b :: 0 <= a < b < |keys| ==> KeyBefore(keys[a], keys[b]);
  }

  lemma TorrentShows(seasons: seq<Season>, episodes: Episodes, packs: Packs, k: Key)
    requires Filled(episodes) && TorrentSeasonsAre(seasons, episodes, packs) && k in episodes
    ensures Shows(seasons, k, Sort(SourceBefore, episodes[k]))
  {
    IntsAreOrdered(TorrentNumbers(episodes, packs));
    var numbers := Ascend(IntBefore, TorrentNumbers(episodes, packs));
    assert k.season in Elements(numbers);
    var i :| 0 <= i < |numbers| && numbers[i] == k.season;
    assert TorrentSeasonIs(seasons[i], episodes, packs, numbers[i]);
    KeysAreOrdered(KeysIn(episodes, k.season));
    var keys := Ascend(KeyBefore, KeysIn(episodes, k.season));
    assert k in Elements(keys);
    var j :| 0 <= j < |keys| && keys[j] == k;
    assert seasons[i].episodes[j] == TorrentEpisode(k, episodes[k]);
  }
}
