/** Building a title's seasons from parsed sources: with a provider structure every file is
    aligned or kept as unknown, without one the torrent structure is rendered as it is. */
module Seasons {
  import opened Wrappers
  import opened Sorting
  import opened Alignment

  datatype Source = Source(
    releaseId: string,
    uploadedAt: Option<int>,
    fileIndex: Option<int>,
    filePath: string,
    seasonExplicit: bool,
    episodeTitle: string)

  datatype Label = Named(name: string) | EpisodeN(n: int) | Specials | SeasonN(n: int)

  datatype Episode = Episode(number: int, season: int, title: Label, airDate: string, sources: seq<Source>)

  datatype Season = Season(number: int, title: Label, episodes: seq<Episode>, unknown: seq<Episode>, packs: seq<Source>)

  type Episodes = map<Key, seq<Source>>
  type Packs = map<int, seq<Source>>

  // ----- orders -----

  predicate KeyBefore(a: Key, b: Key) {
    a.season < b.season || (a.season == b.season && a.episode < b.episode)
  }

  lemma KeysAreOrdered(s: set<Key>)
    ensures StrictTotalOn(KeyBefore, s)
  {
  }

  function OrZero(n: Option<int>): int {
    if n.Some? then n.value else 0
  }

  /** sortSources: newest upload first, then release id downwards, then file index. */
  predicate SourceBefore(a: Source, b: Source) {
    if OrZero(a.uploadedAt) != OrZero(b.uploadedAt) then OrZero(a.uploadedAt) > OrZero(b.uploadedAt)
    else if a.releaseId != b.releaseId then StringBefore(b.releaseId, a.releaseId)
    else OrZero(a.fileIndex) < OrZero(b.fileIndex)
  }

  function FirstSourcePath(e: Episode): string {
    if |e.sources| == 0 then "" else e.sources[0].filePath
  }

  predicate UnknownBefore(a: Episode, b: Episode) {
    if a.number != b.number then a.number < b.number else StringBefore(FirstSourcePath(a), FirstSourcePath(b))
  }

  // ----- work items: the groups of sources that are placed together -----

  datatype Item = Item(key: Key, explicit: bool, sources: seq<Source>)

  /** Where a group goes: a provider episode, or the unknown files of the claimed season. */
  datatype Place = At(key: Key) | Unknown(season: int)

  predicate IsSpecial(key: Key, s: Source) {
    key.season == 0 && s.seasonExplicit
  }

  /** The explicit specials of a key, or all the rest. */
  function Group(key: Key, sources: seq<Source>, explicit: bool): seq<Source> {
    if sources == [] then []
    else
      var init, last := Group(key, sources[..|sources| - 1], explicit), sources[|sources| - 1];
      if IsSpecial(key, last) == explicit then init + [last] else init
  }

  function ItemOf(key: Key, sources: seq<Source>, explicit: bool): seq<Item> {
    var group := Group(key, sources, explicit);
    if group == [] then [] else [Item(key, explicit, group)]
  }

  function ItemsOf(key: Key, sources: seq<Source>): seq<Item> {
    ItemOf(key, sources, false) + ItemOf(key, sources, true)
  }

  function Items(keys: seq<Key>, episodes: Episodes): seq<Item>
    requires forall k :: k in keys ==> k in episodes
  {
    if keys == [] then []
    else Items(keys[..|keys| - 1], episodes) + ItemsOf(keys[|keys| - 1], episodes[keys[|keys| - 1]])
  }

  function PlaceOf(p: Provider, item: Item): Place {
    var aligned := Align(p, item.key.season, item.key.episode, item.explicit);
    if aligned.Some? then At(aligned.value) else Unknown(item.key.season)
  }

  function UnknownEpisode(item: Item): Episode {
    var name := if item.sources == [] then "" else item.sources[0].episodeTitle;
    var title := if name == "" then EpisodeN(item.key.episode) else Named(name);
    Episode(item.key.episode, item.key.season, title, "", item.sources)
  }

  // ----- the tables the loop over the keys fills -----

  datatype Tables = Tables(aligned: map<Key, seq<Source>>, unknown: map<int, seq<Episode>>, numbers: set<int>)

  const NO_TABLES := Tables(map[], map[], {})

  function Sources(aligned: map<Key, seq<Source>>, key: Key): seq<Source> {
    if key in aligned then aligned[key] else []
  }

  function UnknownOf(unknown: map<int, seq<Episode>>, season: int): seq<Episode> {
    if season in unknown then unknown[season] else []
  }

  function Add(p: Provider, t: Tables, item: Item): Tables {
    match PlaceOf(p, item)
    case At(key) =>
      var aligned := t.aligned[key := Sources(t.aligned, key) + item.sources];
      Tables(aligned, t.unknown, t.numbers + {item.key.season, key.season})
    case Unknown(season) =>
      var unknown := t.unknown[season := UnknownOf(t.unknown, season) + [UnknownEpisode(item)]];
      Tables(t.aligned, unknown, t.numbers + {season})
  }

  function Fill(p: Provider, items: seq<Item>): Tables {
    if items == [] then NO_TABLES else Add(p, Fill(p, items[..|items| - 1]), items[|items| - 1])
  }

  // ----- rendering -----

  /** The last non-empty entry wins, as in the name and air-date maps. */
  function LastName(episodes: seq<ProviderEpisode>, n: int): string {
    if episodes == [] then ""
    else
      var last := episodes[|episodes| - 1];
      if last.number == n && last.name != "" then last.name else LastName(episodes[..|episodes| - 1], n)
  }

  function LastAirDate(episodes: seq<ProviderEpisode>, n: int): string {
    if episodes == [] then ""
    else
      var last := episodes[|episodes| - 1];
      if last.number == n && last.airDate != "" then last.airDate else LastAirDate(episodes[..|episodes| - 1], n)
  }

  function ProviderEpisodes(p: Provider, season: int): seq<ProviderEpisode> {
    if season in ByNumber(p) then ByNumber(p)[season].episodes else []
  }

  function SeasonTitle(p: Provider, number: int): Label {
    if number in ByNumber(p) && ByNumber(p)[number].name != "" then Named(ByNumber(p)[number].name)
    else if number == 0 then Specials
    else SeasonN(number)
  }

  function AlignedEpisode(p: Provider, key: Key, sources: seq<Source>): Episode {
    var name := LastName(ProviderEpisodes(p, key.season), key.episode);
    Episode(
      key.episode, key.season, if name == "" then EpisodeN(key.episode) else Named(name),
      LastAirDate(ProviderEpisodes(p, key.season), key.episode), Sort(SourceBefore, sources))
  }

  /** The provider-relative numbers that received sources in one season. */
  ghost function Relative(aligned: map<Key, seq<Source>>, season: int): set<int> {
    set k | k in aligned && k.season == season :: k.episode
  }

  ghost function RenderEpisodes(
      p: Provider, aligned: map<Key, seq<Source>>, season: int, numbers: seq<int>): seq<Episode>
  {
    if numbers == [] then []
    else
      var key := Key(season, numbers[|numbers| - 1]);
      RenderEpisodes(p, aligned, season, numbers[..|numbers| - 1]) + [AlignedEpisode(p, key, Sources(aligned, key))]
  }

  ghost function RenderSeason(p: Provider, t: Tables, packs: Packs, number: int): Season {
    IntsAreOrdered(Relative(t.aligned, number));
    Season(
      number, SeasonTitle(p, number),
      RenderEpisodes(p, t.aligned, number, Ascend(IntBefore, Relative(t.aligned, number))),
      Sort(UnknownBefore, UnknownOf(t.unknown, number)),
      if number in packs then packs[number] else [])
  }

  ghost function RenderSeasons(p: Provider, t: Tables, packs: Packs, numbers: seq<int>): seq<Season> {
    if numbers == [] then []
    else RenderSeasons(p, t, packs, numbers[..|numbers| - 1]) + [RenderSeason(p, t, packs, numbers[|numbers| - 1])]
  }

  /** All the work items of a title, in key order. */
  ghost function AllItems(episodes: Episodes): seq<Item> {
    KeysAreOrdered(episodes.Keys);
    var keys := Ascend(KeyBefore, episodes.Keys);
    assert forall k :: k in keys ==> k in Elements(keys);
    Items(keys, episodes)
  }

  ghost function SeasonNumbers(p: Provider, episodes: Episodes, packs: Packs): seq<int> {
    var numbers := Fill(p, AllItems(episodes)).numbers + packs.Keys;
    IntsAreOrdered(numbers);
    Ascend(IntBefore, numbers)
  }

  /** The seasons of a title: a function of the maps' contents, so of no iteration order. */
  ghost function Build(p: Provider, episodes: Episodes, packs: Packs): seq<Season> {
    RenderSeasons(p, Fill(p, AllItems(episodes)), packs, SeasonNumbers(p, episodes, packs))
  }
}
