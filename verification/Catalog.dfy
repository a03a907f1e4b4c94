/** From a title's sources to its seasons: every release is filed under its own episode, under
    the episodes of its files, or as a pack, and the seasons are built from what was filed. */
module Catalog {
  import opened Wrappers
  import opened Sorting
  import opened Alignment
  import opened Seasons
  import opened SeasonLaws
  import opened SeasonBuilder
  import opened Navigation

  /** What the release-name parser makes of a name; zero stands for "not in the name". */
  datatype Parsed = Parsed(
    seasonStart: int,
    seasonEnd: int,
    seasonExplicit: bool,
    episodeStart: int,
    episodeTitle: string)

  /** A file of a pack; `absolute` is the number that the pattern for files in packs finds in its name. */
  datatype PackFile = PackFile(index: int, path: string, playable: bool, parsed: Parsed, absolute: int)

  datatype Release = Release(
    id: string,
    uploadedAt: Option<int>,
    parsed: Parsed,
    fileCount: int,
    manifest: Option<seq<PackFile>>)

  type Filings<K> = seq<(K, Source)>

  // ----- filing sources under keys -----

  /** The sources filed under `key`, in the order they were filed. */
  function Under<K(==)>(filings: Filings<K>, key: K): seq<Source> {
    if filings == [] then []
    else
      var init, last := Under(filings[..|filings| - 1], key), filings[|filings| - 1];
      if last.0 == key then init + [last.1] else init
  }

  function KeysOf<K>(filings: Filings<K>): set<K> {
    set i | 0 <= i < |filings| :: filings[i].0
  }

  /** The map that filing everything in order yields. */
  function Grouped<K>(filings: Filings<K>): map<K, seq<Source>> {
    map k | k in KeysOf(filings) :: Under(filings, k)
  }

  /** Go's `m[key] = append(m[key], source)`. */
  function Append<K>(m: map<K, seq<Source>>, key: K, source: Source): map<K, seq<Source>> {
    m[key := (if key in m then m[key] else []) + [source]]
  }

  lemma {:induction false} UnderIsFilled<K>(filings: Filings<K>, key: K)
    ensures Under(filings, key) != [] <==> key in KeysOf(filings)
  {
    if filings != [] {
      var init, last := filings[..|filings| - 1], filings[|filings| - 1];
      UnderIsFilled(init, key);
      KeysStep(init, last);
      assert filings == init + [last];
    }
  }

  lemma KeysStep<K>(filings: Filings<K>, last: (K, Source))
    ensures KeysOf(filings + [last]) == KeysOf(filings) + {last.0}
  {
    var more := filings + [last];
    assert forall i :: 0 <= i < |filings| ==> more[i] == filings[i];
    assert more[|filings|] == last;
    forall k | k in KeysOf(filings) + {last.0} ensures k in KeysOf(more) {
      if k in KeysOf(filings) {
        var i :| 0 <= i < |filings| && filings[i].0 == k;
        assert more[i].0 == k;
      }
    }
  }

  lemma GroupedAppend<K>(filings: Filings<K>, key: K, source: Source)
    ensures Grouped(filings + [(key, source)]) == Append(Grouped(filings), key, source)
  {
    var last := (key, source);
    KeysStep(filings, last);
    UnderIsFilled(filings, key);
    assert (filings + [last])[..|filings|] == filings;
  }

  // ----- what a release is filed under -----

  /** A release with an episode number is a source of its own. */
  function WholeSource(r: Release): Source {
    Source(r.id, r.uploadedAt, None, "", r.parsed.seasonExplicit, r.parsed.episodeTitle)
  }

  /** episodeSource: the key and source of one file of a pack, if it is numbered at all. */
  function EpisodeSource(r: Release, file: PackFile): Option<(Key, Source)> {
    var p := file.parsed;
    var named := p.episodeStart > 0;
    var episode := if named then p.episodeStart else file.absolute;
    var season := if !named && p.seasonStart == 0 then r.parsed.seasonStart else p.seasonStart;
    if episode <= 0 then None
    else
      var source := Source(r.id, r.uploadedAt, Some(file.index), file.path, p.seasonExplicit, p.episodeTitle);
      Some((Key(season, episode), source))
  }

  function FiledFiles(r: Release, files: seq<PackFile>): Filings<Key> {
    if files == [] then []
    else
      var init, last := FiledFiles(r, files[..|files| - 1]), files[|files| - 1];
      if last.playable && EpisodeSource(r, last).Some? then init + [EpisodeSource(r, last).value] else init
  }

  function FiledEpisodes(r: Release): Filings<Key> {
    if r.parsed.episodeStart > 0 then [(Key(r.parsed.seasonStart, r.parsed.episodeStart), WholeSource(r))]
    else if r.fileCount > 1 && r.manifest.Some? then FiledFiles(r, r.manifest.value)
    else []
  }

  /** The seasons a release without an episode number is a pack of; without a season, season 1. */
  function FirstSeason(r: Release): int {
    if r.parsed.seasonStart == 0 then 1 else r.parsed.seasonStart
  }

  function LastSeason(r: Release): int {
    var end := if r.parsed.seasonStart == 0 then 1 else r.parsed.seasonEnd;
    if end < FirstSeason(r) then FirstSeason(r) else end
  }

  /** A pack filed under the seasons `from` up to but excluding `to`. */
  function FiledRange(r: Release, from: int, to: int): Filings<int>
    decreases to - from
  {
    if to <= from then [] else FiledRange(r, from, to - 1) + [(to - 1, WholeSource(r))]
  }

  function FiledPacks(r: Release): Filings<int> {
    if r.parsed.episodeStart > 0 then [] else FiledRange(r, FirstSeason(r), LastSeason(r) + 1)
  }

  function AllEpisodes(releases: seq<Release>): Filings<Key> {
    if releases == [] then [] else AllEpisodes(releases[..|releases| - 1]) + FiledEpisodes(releases[|releases| - 1])
  }

  function AllPacks(releases: seq<Release>): Filings<int> {
    if releases == [] then [] else AllPacks(releases[..|releases| - 1]) + FiledPacks(releases[|releases| - 1])
  }

  // ----- the grouping loops -----

  /** The playable, numbered files of one pack. */
  method FilePackFiles(r: Release, files: seq<PackFile>, episodes: Episodes, ghost before: Filings<Key>)
    returns (episodes': Episodes)
    requires episodes == Grouped(before)
    ensures episodes' == Grouped(before + FiledFiles(r, files))
  {
    episodes' := episodes;
    assert before + FiledFiles(r, files[..0]) == before;
    for i := 0 to |files|
      invariant episodes' == Grouped(before + FiledFiles(r, files[..i]))
    {
      assert files[..i + 1][..i] == files[..i];
      ghost var filed := before + FiledFiles(r, files[..i]);
      if !files[i].playable {
        continue;
      }
      var virtual := EpisodeSource(r, files[i]);
      if virtual.Some? {
        GroupedAppend(filed, virtual.value.0, virtual.value.1);
        assert before + FiledFiles(r, files[..i + 1]) == filed + [virtual.value];
        episodes' := Append(episodes', virtual.value.0, virtual.value.1);
      }
    }
    assert files[..|files|] == files;
  }

  lemma FiledOneMore(r: Release, before: Filings<int>, start: int, season: int)
    requires start <= season
    ensures Grouped(before + FiledRange(r, start, season + 1))
      == Append(Grouped(before + FiledRange(r, start, season)), season, WholeSource(r))
  {
    var filed := before + FiledRange(r, start, season);
    assert before + FiledRange(r, start, season + 1) == filed + [(season, WholeSource(r))];
    GroupedAppend(filed, season, WholeSource(r));
  }

  /** The seasons a pack covers. */
  method FilePack(r: Release, packs: Packs, ghost before: Filings<int>) returns (packs': Packs)
    requires packs == Grouped(before)
    ensures packs' == Grouped(before + FiledRange(r, FirstSeason(r), LastSeason(r) + 1))
  {
    hide Grouped, Append;
    var start, end := r.parsed.seasonStart, r.parsed.seasonEnd;
    if start == 0 {
      start, end := 1, 1;
    }
    packs' := packs;
    var season := start;
    assert before + FiledRange(r, start, start) == before;
    while season <= if end < start then start else end
      invariant start <= season <= LastSeason(r) + 1
      invariant packs' == Grouped(before + FiledRange(r, start, season))
    {
      FiledOneMore(r, before, start, season);
      packs' := Append(packs', season, WholeSource(r));
      season := season + 1;
    }
  }

  /** The loop over a title's releases: the map of episodes and the map of packs. */
  method GroupSources(releases: seq<Release>) returns (episodes: Episodes, packs: Packs)
    ensures episodes == Grouped(AllEpisodes(releases)) && packs == Grouped(AllPacks(releases))
  {
    episodes, packs := map[], map[];
    for i := 0 to |releases|
      invariant episodes == Grouped(AllEpisodes(releases[..i])) && packs == Grouped(AllPacks(releases[..i]))
    {
      var r := releases[i];
      ghost var filed, packed := AllEpisodes(releases[..i]), AllPacks(releases[..i]);
      assert releases[..i + 1][..i] == releases[..i];
      if r.parsed.episodeStart > 0 {
        GroupedAppend(filed, Key(r.parsed.seasonStart, r.parsed.episodeStart), WholeSource(r));
        assert packed + [] == packed;
        episodes := Append(episodes, Key(r.parsed.seasonStart, r.parsed.episodeStart), WholeSource(r));
        continue;
      }
      if r.fileCount > 1 && r.manifest.Some? {
        episodes := FilePackFiles(r, r.manifest.value, episodes, filed);
      } else {
        assert filed + [] == filed;
      }
      packs := FilePack(r, packs, packed);
    }
    assert releases[..|releases|] == releases;
  }

  // ----- what is filed, in terms of the releases alone -----

  /** The release, or a file of it, is a source of this key. */
  ghost predicate IsFiled(r: Release, k: Key, s: Source) {
    if r.parsed.episodeStart >= 1 then
      && k == Key(r.parsed.seasonStart, r.parsed.episodeStart)
      && s == Source(r.id, r.uploadedAt, None, "", r.parsed.seasonExplicit, r.parsed.episodeTitle)
    else
      && r.fileCount >= 2 && r.manifest.Some?
      && exists i :: 0 <= i < |r.manifest.value| && IsFiledFile(r, r.manifest.value[i], k, s)
  }

  /** A playable file whose name holds an episode, or else an absolute number; without a season
      of its own an absolutely numbered file takes that of the release. */
  ghost predicate IsFiledFile(r: Release, f: PackFile, k: Key, s: Source) {
    && f.playable
    && s == Source(r.id, r.uploadedAt, Some(f.index), f.path, f.parsed.seasonExplicit, f.parsed.episodeTitle)
    && (f.parsed.episodeStart >= 1 ==> k == Key(f.parsed.seasonStart, f.parsed.episodeStart))
    && (f.parsed.episodeStart < 1 ==>
          && f.absolute >= 1
          && k == Key(if f.parsed.seasonStart != 0 then f.parsed.seasonStart else r.parsed.seasonStart, f.absolute))
  }

  /** The release is a pack of season `n`. */
  ghost predicate IsPackOf(r: Release, n: int, s: Source) {
    && r.parsed.episodeStart < 1
    && s == Source(r.id, r.uploadedAt, None, "", r.parsed.seasonExplicit, r.parsed.episodeTitle)
    && (r.parsed.seasonStart == 0 ==> n == 1)
    && (r.parsed.seasonStart != 0 ==>
          r.parsed.seasonStart <= n && (n == r.parsed.seasonStart || n <= r.parsed.seasonEnd))
  }

  ghost predicate Files<K>(filings: Filings<K>, key: K, source: Source) {
    exists i :: 0 <= i < |filings| && filings[i] == (key, source)
  }

  lemma FilesOne<K>(last: (K, Source), key: K, source: Source)
    ensures Files([last], key, source) <==> last == (key, source)
  {
    assert [last][0] == last;
  }

  lemma FilesBoth<K>(a: Filings<K>, b: Filings<K>, key: K, source: Source)
    ensures Files(a + b, key, source) <==> Files(a, key, source) || Files(b, key, source)
  {
    if i :| 0 <= i < |a| && a[i] == (key, source) {
      assert (a + b)[i] == (key, source);
    }
    if i :| 0 <= i < |b| && b[i] == (key, source) {
      assert (a + b)[|a| + i] == (key, source);
    }
    if i :| 0 <= i < |a + b| && (a + b)[i] == (key, source) {
      assert if i < |a| then a[i] == (key, source) else b[i - |a|] == (key, source);
    }
  }

  lemma {:induction false} UnderHolds<K>(filings: Filings<K>, key: K, source: Source)
    ensures source in Under(filings, key) <==> Files(filings, key, source)
    decreases |filings|
  {
    if filings != [] {
      var init, last := filings[..|filings| - 1], filings[|filings| - 1];
      UnderHolds(init, key, source);
      assert filings == init + [last];
      FilesBoth(init, [last], key, source);
      FilesOne(last, key, source);
      hide Files;
    }
  }

  lemma GroupedHolds<K>(filings: Filings<K>, key: K, source: Source)
    ensures (key in Grouped(filings) && source in Grouped(filings)[key]) <==> Files(filings, key, source)
  {
    UnderHolds(filings, key, source);
    UnderIsFilled(filings, key);
  }

  lemma OneFile(r: Release, f: PackFile, k: Key, s: Source)
    ensures IsFiledFile(r, f, k, s) <==>
      f.playable && EpisodeSource(r, f).Some? && EpisodeSource(r, f).value == (k, s)
  {
  }

  lemma {:induction false} FiledFilesMean(r: Release, files: seq<PackFile>, k: Key, s: Source)
    ensures Files(FiledFiles(r, files), k, s) <==> exists i :: 0 <= i < |files| && IsFiledFile(r, files[i], k, s)
    decreases |files|
  {
    if files != [] {
      var init, last := files[..|files| - 1], files[|files| - 1];
      FiledFilesMean(r, init, k, s);
      OneFile(r, last, k, s);
      if last.playable && EpisodeSource(r, last).Some? {
        FilesBoth(FiledFiles(r, init), [EpisodeSource(r, last).value], k, s);
        assert [EpisodeSource(r, last).value][0] == EpisodeSource(r, last).value;
      }
      hide IsFiledFile, EpisodeSource;
      if i :| 0 <= i < |files| && IsFiledFile(r, files[i], k, s) {
        assert i < |init| ==> IsFiledFile(r, init[i], k, s);
      }
      if i :| 0 <= i < |init| && IsFiledFile(r, init[i], k, s) {
        assert IsFiledFile(r, files[i], k, s);
      }
    }
  }

  lemma FiledEpisodesMean(r: Release, k: Key, s: Source)
    ensures Files(FiledEpisodes(r), k, s) <==> IsFiled(r, k, s)
  {
    if r.manifest.Some? {
      FiledFilesMean(r, r.manifest.value, k, s);
    }
    var own := (Key(r.parsed.seasonStart, r.parsed.episodeStart), WholeSource(r));
    assert [own][0] == own;
    hide IsFiledFile, FiledFiles;
  }

  lemma {:induction false} FiledRangeMeans(r: Release, from: int, count: nat, n: int, s: Source)
    ensures Files(FiledRange(r, from, from + count), n, s) <==> (from <= n < from + count && s == WholeSource(r))
    decreases count
  {
    if count > 0 {
      var last := (from + count - 1, WholeSource(r));
      FiledRangeMeans(r, from, count - 1, n, s);
      FilesBoth(FiledRange(r, from, from + count - 1), [last], n, s);
      FilesOne(last, n, s);
      hide Files;
    } else {
      NothingFiles(n, s);
    }
  }

  lemma {:induction false} AllEpisodesMean(releases: seq<Release>, k: Key, s: Source)
    ensures Files(AllEpisodes(releases), k, s) <==> exists i :: 0 <= i < |releases| && IsFiled(releases[i], k, s)
    decreases |releases|
  {
    hide IsFiled, Files, FiledEpisodes;
    if releases != [] {
      var init, last := releases[..|releases| - 1], releases[|releases| - 1];
      AllEpisodesMean(init, k, s);
      FiledEpisodesMean(last, k, s);
      FilesBoth(AllEpisodes(init), FiledEpisodes(last), k, s);
      if i :| 0 <= i < |init| && IsFiled(init[i], k, s) {
        assert IsFiled(releases[i], k, s);
      }
      if i :| 0 <= i < |releases| && IsFiled(releases[i], k, s) {
        assert i < |init| ==> IsFiled(init[i], k, s);
      }
    } else {
      NothingFiles(k, s);
    }
  }

  lemma NothingFiles<K>(key: K, source: Source)
    ensures !Files([], key, source)
  {
  }

  lemma {:induction false} AllPacksMean(releases: seq<Release>, n: int, s: Source)
    ensures Files(AllPacks(releases), n, s) <==> exists i :: 0 <= i < |releases| && IsPackOf(releases[i], n, s)
    decreases |releases|
  {
    if releases != [] {
      var init, last := releases[..|releases| - 1], releases[|releases| - 1];
      AllPacksMean(init, n, s);
      FiledRangeMeans(last, FirstSeason(last), LastSeason(last) + 1 - FirstSeason(last), n, s);
      FilesBoth(AllPacks(init), FiledPacks(last), n, s);
      assert Files(FiledPacks(last), n, s) <==> IsPackOf(last, n, s);
      hide IsPackOf, Files, FiledPacks;
      if i :| 0 <= i < |init| && IsPackOf(init[i], n, s) {
        assert IsPackOf(releases[i], n, s);
      }
      if i :| 0 <= i < |releases| && IsPackOf(releases[i], n, s) {
        assert i < |init| ==> IsPackOf(init[i], n, s);
      }
    }
  }

  /** The two maps hold a source under a key, or under a season, exactly when some release or
      file says so. */
  lemma MapsMean(releases: seq<Release>, k: Key, n: int, s: Source)
    ensures var episodes := Grouped(AllEpisodes(releases));
      (k in episodes && s in episodes[k]) <==> exists i :: 0 <= i < |releases| && IsFiled(releases[i], k, s)
    ensures var packs := Grouped(AllPacks(releases));
      (n in packs && s in packs[n]) <==> exists i :: 0 <= i < |releases| && IsPackOf(releases[i], n, s)
  {
    AllEpisodesMean(releases, k, s);
    AllPacksMean(releases, n, s);
    GroupedHolds(AllEpisodes(releases), k, s);
    GroupedHolds(AllPacks(releases), n, s);
    hide IsFiled, IsPackOf, Files, Grouped;
  }

  // ----- what the maps are like -----

  /** Every filing is numbered from 1: both guards refuse anything else. */
  lemma {:induction false} FiledFilesAreNumbered(r: Release, files: seq<PackFile>)
    ensures forall i :: 0 <= i < |FiledFiles(r, files)| ==> FiledFiles(r, files)[i].0.episode >= 1
  {
    if files != [] {
      FiledFilesAreNumbered(r, files[..|files| - 1]);
    }
  }

  lemma {:induction false} FilingsAreNumbered(releases: seq<Release>)
    ensures forall i :: 0 <= i < |AllEpisodes(releases)| ==> AllEpisodes(releases)[i].0.episode >= 1
  {
    if releases != [] {
      var r := releases[|releases| - 1];
      FilingsAreNumbered(releases[..|releases| - 1]);
      if r.manifest.Some? {
        FiledFilesAreNumbered(r, r.manifest.value);
      }
    }
  }

  /** What the season builders are handed: no empty entry, and every key numbered from 1. */
  lemma EpisodeMapIsSound(releases: seq<Release>)
    ensures var episodes := Grouped(AllEpisodes(releases));
      Filled(episodes) && forall k :: k in episodes ==> k.episode >= 1
  {
    var filings := AllEpisodes(releases);
    FilingsAreNumbered(releases);
    forall k | k in Grouped(filings) ensures Under(filings, k) != [] && k.episode >= 1 {
      UnderIsFilled(filings, k);
      var i :| 0 <= i < |filings| && filings[i].0 == k;
    }
  }

  // ----- the seasons of a title -----

  /** The seasons CatalogDetail shows: aligned to the provider's structure if there is one. */
  ghost predicate SeasonsAre(seasons: seq<Season>, releases: seq<Release>, provider: Option<Provider>) {
    var episodes, packs := Grouped(AllEpisodes(releases)), Grouped(AllPacks(releases));
    && Filled(episodes)
    && match provider
       case None => TorrentSeasonsAre(seasons, episodes, packs)
       case Some(p) => seasons == Build(p, episodes, packs)
  }

  method CatalogSeasons(releases: seq<Release>, provider: Option<Provider>) returns (seasons: seq<Season>)
    ensures SeasonsAre(seasons, releases, provider)
  {
    EpisodeMapIsSound(releases);
    var episodes, packs := GroupSources(releases);
    match provider
    case None => seasons := BuildTorrentOnlySeasons(episodes, packs);
    case Some(p) => seasons := BuildSeasons(p, episodes, packs);
  }

  /** Whatever the releases and the provider say, a title's seasons are navigable. */
  lemma CatalogIsNavigable(seasons: seq<Season>, releases: seq<Release>, provider: Option<Provider>)
    requires SeasonsAre(seasons, releases, provider)
    ensures Navigable(AllKeys(seasons))
  {
    var episodes, packs := Grouped(AllEpisodes(releases)), Grouped(AllPacks(releases));
    EpisodeMapIsSound(releases);
    match provider
    case None => TorrentOnlyIsNavigable(seasons, episodes, packs);
    case Some(p) => BuildIsNavigable(p, episodes, packs);
  }

  /** Over any title's seasons Next and Previous of an entry are its neighbours, and going on
      and coming back ends where it began. */
  lemma CatalogNeighbours(seasons: seq<Season>, releases: seq<Release>, provider: Option<Provider>, i: nat)
    requires SeasonsAre(seasons, releases, provider) && i < |AllKeys(seasons)|
    ensures var keys := AllKeys(seasons);
      && Scan(keys, keys[i], true) == (if i + 1 < |keys| then keys[i + 1] else NONE_YET)
      && Scan(keys, keys[i], false) == (if i > 0 then keys[i - 1] else NONE_YET)
      && (i + 1 < |keys| ==> Scan(keys, Scan(keys, keys[i], true), false) == keys[i])
      && (i > 0 ==> Scan(keys, Scan(keys, keys[i], false), true) == keys[i])
      && keys[i].episode >= 1
  {
    var keys := AllKeys(seasons);
    CatalogIsNavigable(seasons, releases, provider);
    NeighboursAreFound(keys, i);
    NextAndPreviousAreInverse(keys, keys[i]);
  }

  /** Every entry a title shows has a source. */
  lemma EntriesAreFilled(
      seasons: seq<Season>, releases: seq<Release>, provider: Option<Provider>, k: Key, sources: seq<Source>)
    requires SeasonsAre(seasons, releases, provider) && Shows(seasons, k, sources)
    ensures sources != []
  {
    var episodes, packs := Grouped(AllEpisodes(releases)), Grouped(AllPacks(releases));
    var i, j :| 0 <= i < |seasons| && 0 <= j < |seasons[i].episodes|
      && k == Key(seasons[i].number, seasons[i].episodes[j].number) && sources == seasons[i].episodes[j].sources;
    match provider
    case None =>
      IntsAreOrdered(TorrentNumbers(episodes, packs));
      var numbers := Ascend(IntBefore, TorrentNumbers(episodes, packs));
      assert TorrentSeasonIs(seasons[i], episodes, packs, numbers[i]);
    case Some(p) => BuiltEntriesAreFilled(p, episodes, packs, i, j);
  }

  // ----- nothing a title has is lost -----

  /** Every filed source, as often as it was filed. */
  function FiledBag<K>(filings: Filings<K>): Bag {
    if filings == [] then multiset{} else FiledBag(filings[..|filings| - 1]) + multiset{filings[|filings| - 1].1}
  }

  /** What is filed under the keys of a list. */
  function UnderBag(keys: seq<Key>, filings: Filings<Key>): Bag {
    if keys == [] then multiset{}
    else UnderBag(keys[..|keys| - 1], filings) + multiset(Under(filings, keys[|keys| - 1]))
  }

  lemma UnderBagMore(keys: seq<Key>, last: Key, filings: Filings<Key>)
    ensures UnderBag(keys + [last], filings) == UnderBag(keys, filings) + multiset(Under(filings, last))
  {
    assert (keys + [last])[..|keys|] == keys;
  }

  lemma {:induction false} UnderBagAppend(a: seq<Key>, b: seq<Key>, filings: Filings<Key>)
    ensures UnderBag(a + b, filings) == UnderBag(a, filings) + UnderBag(b, filings)
    decreases |b|
  {
    if b == [] {
      assert a + b == a;
    } else {
      hide UnderBag, Under;
      var init, last := b[..|b| - 1], b[|b| - 1];
      assert b == init + [last] && a + b == a + init + [last];
      UnderBagAppend(a, init, filings);
      UnderBagMore(a + init, last, filings);
      UnderBagMore(init, last, filings);
    }
  }

  lemma {:induction false} NoFilingsNoBag(keys: seq<Key>)
    ensures UnderBag(keys, []) == multiset{}
  {
    if keys != [] {
      NoFilingsNoBag(keys[..|keys| - 1]);
    }
  }

  /** With distinct keys one more filing counts once, under its own key. */
  lemma {:induction false} OneMoreFiling(keys: seq<Key>, filings: Filings<Key>, last: (Key, Source))
    requires Distinct(keys)
    ensures UnderBag(keys, filings + [last])
      == UnderBag(keys, filings) + if last.0 in keys then multiset{last.1} else multiset{}
    decreases |keys|
  {
    assert (filings + [last])[..|filings|] == filings;
    if keys != [] {
      OneMoreFiling(keys[..|keys| - 1], filings, last);
      assert keys == keys[..|keys| - 1] + [keys[|keys| - 1]];
    }
  }

  lemma {:induction false} KeysHoldEverything(keys: seq<Key>, filings: Filings<Key>)
    requires Distinct(keys) && forall k :: k in KeysOf(filings) ==> k in keys
    ensures UnderBag(keys, filings) == FiledBag(filings)
    decreases |filings|
  {
    if filings == [] {
      NoFilingsNoBag(keys);
    } else {
      var init, last := filings[..|filings| - 1], filings[|filings| - 1];
      assert filings == init + [last];
      KeysStep(init, last);
      KeysHoldEverything(keys, init);
      OneMoreFiling(keys, init, last);
      assert last.0 in KeysOf(filings);
    }
  }

  lemma {:induction false} GivenIsUnder(keys: seq<Key>, filings: Filings<Key>)
    requires forall k :: k in keys ==> k in Grouped(filings)
    ensures GivenBag(keys, Grouped(filings)) == UnderBag(keys, filings)
    decreases |keys|
  {
    if keys != [] {
      assert keys[|keys| - 1] in keys;
      GivenIsUnder(keys[..|keys| - 1], filings);
    }
  }

  /** Each entry shows exactly what is filed under its key, and there are no unknown files. */
  ghost predicate EntriesHold(s: Season, filings: Filings<Key>) {
    && s.unknown == []
    && forall j :: 0 <= j < |s.episodes| ==>
         multiset(s.episodes[j].sources) == multiset(Under(filings, Key(s.number, s.episodes[j].number)))
  }

  lemma {:induction false} BagsAreUnder(number: int, episodes: seq<Episode>, keys: seq<Key>, filings: Filings<Key>)
    requires |keys| == |episodes| && forall j :: 0 <= j < |keys| ==> keys[j] == Key(number, episodes[j].number)
    requires forall j :: 0 <= j < |episodes| ==>
      multiset(episodes[j].sources) == multiset(Under(filings, Key(number, episodes[j].number)))
    ensures Bags(episodes) == UnderBag(keys, filings)
    decreases |episodes|
  {
    if episodes != [] {
      BagsAreUnder(number, episodes[..|episodes| - 1], keys[..|keys| - 1], filings);
    }
  }

  lemma {:induction false} ShownIsUnder(seasons: seq<Season>, filings: Filings<Key>)
    requires forall i :: 0 <= i < |seasons| ==> EntriesHold(seasons[i], filings)
    ensures ShownBag(seasons) == UnderBag(AllKeys(seasons), filings)
    decreases |seasons|
  {
    if seasons != [] {
      var init, last := seasons[..|seasons| - 1], seasons[|seasons| - 1];
      ShownIsUnder(init, filings);
      BagsAreUnder(last.number, last.episodes, SeasonKeys(last), filings);
      UnderBagAppend(AllKeys(init), SeasonKeys(last), filings);
    }
  }

  lemma TorrentEntriesHold(s: Season, filings: Filings<Key>, packs: Packs, number: int)
    requires Filled(Grouped(filings)) && TorrentSeasonIs(s, Grouped(filings), packs, number)
    ensures EntriesHold(s, filings)
  {
    KeysAreOrdered(KeysIn(Grouped(filings), number));
    var keys := Ascend(KeyBefore, KeysIn(Grouped(filings), number));
    forall j | 0 <= j < |keys| ensures keys[j].season == number {
      assert keys[j] in Elements(keys);
    }
  }

  lemma TorrentShowsEverything(seasons: seq<Season>, filings: Filings<Key>, packs: Packs)
    requires Filled(Grouped(filings)) && TorrentSeasonsAre(seasons, Grouped(filings), packs)
    requires forall k :: k in Grouped(filings) ==> k.episode >= 1
    ensures ShownBag(seasons) == FiledBag(filings)
  {
    var episodes := Grouped(filings);
    IntsAreOrdered(TorrentNumbers(episodes, packs));
    var numbers := Ascend(IntBefore, TorrentNumbers(episodes, packs));
    forall i | 0 <= i < |seasons| ensures EntriesHold(seasons[i], filings) {
      TorrentEntriesHold(seasons[i], filings, packs, numbers[i]);
    }
    ShownIsUnder(seasons, filings);
    TorrentOnlyIsNavigable(seasons, episodes, packs);
    KeysAreOrdered(Elements(AllKeys(seasons)));
    AscendingIsDistinct(KeyBefore, AllKeys(seasons));
    forall k | k in KeysOf(filings) ensures k in AllKeys(seasons) {
      assert k in episodes;
      ShownIsKey(seasons, k, Sort(SourceBefore, episodes[k]));
    }
    KeysHoldEverything(AllKeys(seasons), filings);
  }

  /** Conservation over the whole way from releases to seasons: every release with a number and
      every playable, numbered file of a pack is shown exactly once, with or without a provider. */
  lemma CatalogLosesNothing(seasons: seq<Season>, releases: seq<Release>, provider: Option<Provider>)
    requires SeasonsAre(seasons, releases, provider)
    ensures ShownBag(seasons) == FiledBag(AllEpisodes(releases))
  {
    var filings, packs := AllEpisodes(releases), Grouped(AllPacks(releases));
    EpisodeMapIsSound(releases);
    match provider
    case None => TorrentShowsEverything(seasons, filings, packs);
    case Some(p) => BuildShowsEverything(p, filings, packs);
  }

  lemma BuildShowsEverything(p: Provider, filings: Filings<Key>, packs: Packs)
    ensures ShownBag(Build(p, Grouped(filings), packs)) == FiledBag(filings)
  {
    hide Build;
    var episodes := Grouped(filings);
    KeysAreOrdered(episodes.Keys);
    var keys := Ascend(KeyBefore, episodes.Keys);
    NothingLostOrDoubled(p, episodes, packs);
    AscendingIsDistinct(KeyBefore, keys);
    GivenIsUnder(keys, filings);
    KeysHoldEverything(keys, filings);
  }

  /** Each season carries exactly the packs that cover it, and every season a pack covers is shown. */
  lemma CatalogShowsPacks(seasons: seq<Season>, releases: seq<Release>, provider: Option<Provider>)
    requires SeasonsAre(seasons, releases, provider)
    ensures forall i :: 0 <= i < |seasons| ==> seasons[i].packs == Under(AllPacks(releases), seasons[i].number)
    ensures forall n :: n in KeysOf(AllPacks(releases)) ==> HasSeason(seasons, n)
  {
    var episodes, packs := Grouped(AllEpisodes(releases)), Grouped(AllPacks(releases));
    forall n ensures (if n in packs then packs[n] else []) == Under(AllPacks(releases), n) {
      UnderIsFilled(AllPacks(releases), n);
    }
    match provider
    case None =>
      IntsAreOrdered(TorrentNumbers(episodes, packs));
      var numbers := Ascend(IntBefore, TorrentNumbers(episodes, packs));
      forall i | 0 <= i < |seasons|
        ensures seasons[i].number == numbers[i] && seasons[i].packs == Under(AllPacks(releases), numbers[i])
      {
        assert TorrentSeasonIs(seasons[i], episodes, packs, numbers[i]);
      }
      forall n | n in packs ensures HasSeason(seasons, n) {
        assert n in Elements(numbers);
        var i :| 0 <= i < |numbers| && numbers[i] == n;
        assert seasons[i].number == n;
      }
    case Some(p) => SeasonsAscend(p, episodes, packs);
  }

  /** siblingEpisode from the sources to the selection: the nearest entry on the asked side with
      its sources, which are never empty, or nothing exactly when there is none. */
  method SelectInCatalog(releases: seq<Release>, provider: Option<Provider>, current: Key, forward: bool)
    returns (nextKey: Key, candidates: seq<Source>, seasons: seq<Season>)
    ensures SeasonsAre(seasons, releases, provider)
    ensures current.episode == 0 ==> candidates == []
    ensures current.episode != 0 && candidates == [] ==>
      forall i :: 0 <= i < |AllKeys(seasons)| ==> !Beyond(AllKeys(seasons)[i], current, forward)
    ensures candidates != [] ==>
      Nearest(AllKeys(seasons), nextKey, current, forward) && Shows(seasons, nextKey, candidates)
  {
    seasons := CatalogSeasons(releases, provider);
    nextKey, candidates := SelectSibling(seasons, current, forward);
    CatalogIsNavigable(seasons, releases, provider);
    ScanFindsNearest(AllKeys(seasons), current, forward);
    if Shows(seasons, nextKey, candidates) {
      ShownIsKey(seasons, nextKey, candidates);
      EntriesAreFilled(seasons, releases, provider, nextKey, candidates);
    }
  }
}
