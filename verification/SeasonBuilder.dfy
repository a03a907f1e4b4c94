/** The builder as the code runs it: loops over maps and sorted key lists, in-place tables. */
module SeasonBuilder {
  import opened Wrappers
  import opened Sorting
  import opened Alignment
  import opened Seasons

  lemma FillAppend(p: Provider, items: seq<Item>, item: Item)
    ensures Fill(p, items + [item]) == Add(p, Fill(p, items), item)
  {
    assert (items + [item])[..|items|] == items;
  }

  /** The two groups of one key, in their given order. */
  method SplitGroups(key: Key, sources: seq<Source>) returns (rest: seq<Source>, specials: seq<Source>)
    ensures rest == Group(key, sources, false) && specials == Group(key, sources, true)
  {
    rest, specials := [], [];
    for i := 0 to |sources|
      invariant rest == Group(key, sources[..i], false) && specials == Group(key, sources[..i], true)
    {
      assert sources[..i + 1][..i] == sources[..i];
      if key.season == 0 && sources[i].seasonExplicit {
        specials := specials + [sources[i]];
      } else {
        rest := rest + [sources[i]];
      }
    }
    assert sources[..|sources|] == sources;
  }

  /** One group is aligned or filed as unknown. */
  method PlaceGroup(
      p: Provider, seasonByNumber: map<int, ProviderSeason>, offsets: map<int, int>, t: Tables, item: Item)
    returns (t': Tables)
    requires seasonByNumber == ByNumber(p) && offsets == Offsets(p) && item.sources != []
    ensures t' == Add(p, t, item)
  {
    var claimed := item.key.season;
    var target := AlignLoop(p, seasonByNumber, offsets, claimed, item.key.episode, item.explicit);
    var numbers := t.numbers + {claimed};
    if target.Some? {
      var key := target.value;
      return Tables(t.aligned[key := Sources(t.aligned, key) + item.sources], t.unknown, numbers + {key.season});
    }
    var name := item.sources[0].episodeTitle;
    var title := if name == "" then EpisodeN(item.key.episode) else Named(name);
    var e := Episode(item.key.episode, claimed, title, "", item.sources);
    return Tables(t.aligned, t.unknown[claimed := UnknownOf(t.unknown, claimed) + [e]], numbers);
  }

  /** Both groups of one key, the ordinary files first. */
  method PlaceKey(p: Provider, seasonByNumber: map<int, ProviderSeason>, offsets: map<int, int>,
      t: Tables, key: Key, sources: seq<Source>, ghost before: seq<Item>)
    returns (t': Tables)
    requires seasonByNumber == ByNumber(p) && offsets == Offsets(p) && t == Fill(p, before)
    ensures t' == Fill(p, before + ItemsOf(key, sources))
  {
    hide Fill, Add;
    var rest, specials := SplitGroups(key, sources);
    t' := t;
    ghost var middle := before + ItemOf(key, sources, false);
    if rest != [] {
      t' := PlaceGroup(p, seasonByNumber, offsets, t', Item(key, false, rest));
      FillAppend(p, before, Item(key, false, rest));
    } else {
      assert middle == before;
    }
    if specials != [] {
      t' := PlaceGroup(p, seasonByNumber, offsets, t', Item(key, true, specials));
      FillAppend(p, middle, Item(key, true, specials));
    } else {
      assert middle + ItemOf(key, sources, true) == middle;
    }
    assert before + ItemsOf(key, sources) == middle + ItemOf(key, sources, true);
  }

  method PlaceAll(p: Provider, keys: seq<Key>, episodes: Episodes) returns (t: Tables)
    requires forall k :: k in keys ==> k in episodes
    ensures t == Fill(p, Items(keys, episodes))
  {
    var seasonByNumber, offsets, _ := BuildTables(p);
    t := NO_TABLES;
    for i := 0 to |keys|
      invariant t == Fill(p, Items(keys[..i], episodes))
    {
      assert keys[..i + 1][..i] == keys[..i];
      t := PlaceKey(p, seasonByNumber, offsets, t, keys[i], episodes[keys[i]], Items(keys[..i], episodes));
    }
    assert keys[..|keys|] == keys;
  }

  method BuildSeason(p: Provider, t: Tables, packs: Packs, number: int) returns (season: Season)
    ensures season == RenderSeason(p, t, packs, number)
  {
    var numbers := set k | k in t.aligned && k.season == number :: k.episode;
    IntsAreOrdered(numbers);
    var relative := SortedKeys(IntBefore, numbers);
    var shown: seq<Episode> := [];
    for i := 0 to |relative|
      invariant shown == RenderEpisodes(p, t.aligned, number, relative[..i])
    {
      assert relative[..i + 1][..i] == relative[..i];
      var key := Key(number, relative[i]);
      shown := shown + [AlignedEpisode(p, key, Sources(t.aligned, key))];
    }
    assert relative[..|relative|] == relative;
    season := Season(
      number, SeasonTitle(p, number), shown, Sort(UnknownBefore, UnknownOf(t.unknown, number)),
      if number in packs then packs[number] else []);
  }

  method BuildNumbered(p: Provider, t: Tables, packs: Packs, numbers: seq<int>) returns (seasons: seq<Season>)
    ensures seasons == RenderSeasons(p, t, packs, numbers)
  {
    seasons := [];
    for i := 0 to |numbers|
      invariant seasons == RenderSeasons(p, t, packs, numbers[..i])
    {
      assert numbers[..i + 1][..i] == numbers[..i];
      var season := BuildSeason(p, t, packs, numbers[i]);
      seasons := seasons + [season];
    }
    assert numbers[..|numbers|] == numbers;
  }

  /** buildSeasons with a provider structure: whatever order Go ranges over its maps in, the
      result is the one `Build` names. */
  method BuildSeasons(p: Provider, episodes: Episodes, packs: Packs) returns (seasons: seq<Season>)
    ensures seasons == Build(p, episodes, packs)
  {
    KeysAreOrdered(episodes.Keys);
    var keys := SortedKeys(KeyBefore, episodes.Keys);
    assert forall k :: k in keys ==> k in Elements(keys);
    var t := PlaceAll(p, keys, episodes);
    IntsAreOrdered(t.numbers + packs.Keys);
    var numbers := SortedKeys(IntBefore, t.numbers + packs.Keys);
    seasons := BuildNumbered(p, t, packs, numbers);
  }

  // ----- without a provider structure -----

  ghost function KeysIn(episodes: Episodes, season: int): set<Key> {
    set k | k in episodes && k.season == season
  }

  function TorrentEpisode(key: Key, sources: seq<Source>): Episode
    requires sources != []
  {
    var sorted := Sort(SourceBefore, sources);
    var name := sorted[0].episodeTitle;
    Episode(key.episode, key.season, if name == "" then EpisodeN(key.episode) else Named(name), "", sorted)
  }

  /** The map the catalog hands over has no empty entries. */
  predicate Filled(episodes: Episodes) {
    forall k :: k in episodes ==> episodes[k] != []
  }

  ghost predicate TorrentSeasonIs(s: Season, episodes: Episodes, packs: Packs, number: int)
    requires Filled(episodes)
  {
    KeysAreOrdered(KeysIn(episodes, number));
    var keys := Ascend(KeyBefore, KeysIn(episodes, number));
    && s.number == number && s.title == SeasonN(number) && s.unknown == []
    && s.packs == (if number in packs then packs[number] else [])
    && |s.episodes| == |keys|
    && forall i :: 0 <= i < |keys| ==>
         keys[i] in episodes && s.episodes[i] == TorrentEpisode(keys[i], episodes[keys[i]])
  }

  method BuildTorrentSeason(episodes: Episodes, packs: Packs, number: int) returns (s: Season)
    requires Filled(episodes)
    ensures TorrentSeasonIs(s, episodes, packs, number)
  {
    var own := set k | k in episodes && k.season == number;
    KeysAreOrdered(own);
    var keys := SortedKeys(KeyBefore, own);
    var shown: seq<Episode> := [];
    for i := 0 to |keys|
      invariant |shown| == i
      invariant forall j :: 0 <= j < i ==> keys[j] in episodes && shown[j] == TorrentEpisode(keys[j], episodes[keys[j]])
    {
      assert keys[i] in Elements(keys);
      shown := shown + [TorrentEpisode(keys[i], episodes[keys[i]])];
    }
    s := Season(number, SeasonN(number), shown, [], if number in packs then packs[number] else []);
  }

  ghost function TorrentNumbers(episodes: Episodes, packs: Packs): set<int> {
    (set k | k in episodes :: k.season) + packs.Keys
  }

  /** The list buildTorrentOnlySeasons returns: one season per number, in ascending order. */
  ghost predicate TorrentSeasonsAre(seasons: seq<Season>, episodes: Episodes, packs: Packs)
    requires Filled(episodes)
  {
    IntsAreOrdered(TorrentNumbers(episodes, packs));
    var numbers := Ascend(IntBefore, TorrentNumbers(episodes, packs));
    && |seasons| == |numbers|
    && forall i :: 0 <= i < |numbers| ==> TorrentSeasonIs(seasons[i], episodes, packs, numbers[i])
  }

  method BuildTorrentOnlySeasons(episodes: Episodes, packs: Packs) returns (seasons: seq<Season>)
    requires Filled(episodes)
    ensures TorrentSeasonsAre(seasons, episodes, packs)
  {
    var all := (set k | k in episodes :: k.season) + packs.Keys;
    IntsAreOrdered(all);
    var numbers := SortedKeys(IntBefore, all);
    seasons := [];
    for i := 0 to |numbers|
      invariant |seasons| == i
      invariant forall j :: 0 <= j < i ==> TorrentSeasonIs(seasons[j], episodes, packs, numbers[j])
    {
      var s := BuildTorrentSeason(episodes, packs, numbers[i]);
      seasons := seasons + [s];
    }
  }
}
