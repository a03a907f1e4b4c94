/** Where a given file is shown, in which order, and under which titles. */
module SeasonPlacement {
  import opened Wrappers
  import opened Sorting
  import opened Alignment
  import opened Seasons
  import opened SeasonLaws
  import opened SeasonBuilder

  // ----- where -----

  /** Some entry `episode` of season `season` shows the source. */
  ghost predicate ShownAt(seasons: seq<Season>, season: int, episode: int, source: Source) {
    exists i, j :: 0 <= i < |seasons| && 0 <= j < |seasons[i].episodes|
      && seasons[i].number == season && seasons[i].episodes[j].number == episode
      && source in seasons[i].episodes[j].sources
  }

  ghost predicate ShownAsUnknown(seasons: seq<Season>, season: int, source: Source) {
    exists i :: 0 <= i < |seasons| && seasons[i].number == season && source in Bags(seasons[i].unknown)
  }

  lemma EntryShows(p: Provider, items: seq<Item>, packs: Packs, target: Key, source: Source)
    requires target in Fill(p, items).aligned && source in SumAt(p, items, At(target))
    ensures var shown := RenderSeason(p, Fill(p, items), packs, target.season).episodes;
      exists j :: 0 <= j < |shown| && shown[j].number == target.episode && source in shown[j].sources
  {
    var aligned := Fill(p, items).aligned;
    IntsAreOrdered(Relative(aligned, target.season));
    var relative := Ascend(IntBefore, Relative(aligned, target.season));
    assert target.episode in Elements(relative);
    var j :| 0 <= j < |relative| && relative[j] == target.episode;
    RenderEpisodesLength(p, aligned, target.season, relative);
    RenderEpisodesAt(p, aligned, target.season, relative, j);
    AlignedHolds(p, items, target);
    hide Fill, SumAt, RenderEpisodes;
    var sorted := Sort(SourceBefore, Sources(aligned, target));
    assert source in multiset(sorted);
    var shown := RenderSeason(p, Fill(p, items), packs, target.season).episodes;
    assert shown[j].number == target.episode && shown[j].sources == sorted;
  }

  /** Season `n` of the build is rendered when something claims or reaches it. */
  lemma BuildHas(p: Provider, episodes: Episodes, packs: Packs, n: int) returns (i: nat)
    requires n in Fill(p, AllItems(episodes)).numbers
    ensures i < |Build(p, episodes, packs)| && Build(p, episodes, packs)[i].number == n
    ensures Build(p, episodes, packs)[i] == RenderSeason(p, Fill(p, AllItems(episodes)), packs, n)
  {
    NumbersFacts(p, episodes, packs);
    var numbers := SeasonNumbers(p, episodes, packs);
    i :| 0 <= i < |numbers| && numbers[i] == n;
    BuildAt(p, episodes, packs, i);
  }

  lemma ItemIsShown(p: Provider, episodes: Episodes, packs: Packs, k: nat, source: Source)
    requires k < |AllItems(episodes)| && source in AllItems(episodes)[k].sources
    ensures match PlaceOf(p, AllItems(episodes)[k])
      case At(target) => ShownAt(Build(p, episodes, packs), target.season, target.episode, source)
      case Unknown(season) => ShownAsUnknown(Build(p, episodes, packs), season, source)
  {
    var items := AllItems(episodes);
    var place := PlaceOf(p, items[k]);
    ItemIsListed(p, items, k);
    SumAtMembers(p, items, place, source);
    var i := BuildHas(p, episodes, packs, PlaceSeason(place));
    hide AllItems, Fill, Build, PlaceOf, SumAt;
    match place
    case At(target) =>
      EntryShows(p, items, packs, target, source);
    case Unknown(season) =>
      UnknownHolds(p, items, season);
      BagsSort(UnknownBefore, UnknownOf(Fill(p, items).unknown, season));
  }

  /** Every file is shown where its claim aligns: at that entry, or as unknown in the season it
      claims. Only a file filed under season 0 that says so itself counts as an explicit special. */
  lemma FileIsShownWhereItAligns(p: Provider, episodes: Episodes, packs: Packs, key: Key, source: Source)
    requires key in episodes && source in episodes[key]
    ensures match Align(p, key.season, key.episode, key.season == 0 && source.seasonExplicit)
      case Some(target) => ShownAt(Build(p, episodes, packs), target.season, target.episode, source)
      case None => ShownAsUnknown(Build(p, episodes, packs), key.season, source)
  {
    var keys, items := Ascend(KeyBefore, episodes.Keys), AllItems(episodes);
    AllItemsFacts(episodes);
    assert key in Elements(keys);
    hide AllItems, Items, Build, Align, Group;
    var item := SourceHasItem(keys, episodes, key, source);
    var k :| 0 <= k < |items| && items[k] == item;
    ItemIsShown(p, episodes, packs, k, source);
  }

  /** A file that says S00Exx is entry xx of the provider's season 0, or unknown there. */
  lemma SpecialsStaySpecial(p: Provider, i: nat, episodes: Episodes, packs: Packs, n: int, source: Source)
    requires WellNumbered(p) && i < |p| && p[i].number == 0
    requires Key(0, n) in episodes && source in episodes[Key(0, n)] && source.seasonExplicit
    ensures 1 <= n <= p[i].episodeCount ==> ShownAt(Build(p, episodes, packs), 0, n, source)
    ensures !(1 <= n <= p[i].episodeCount) ==> ShownAsUnknown(Build(p, episodes, packs), 0, source)
  {
    hide Build, Align, WellNumbered, ShownAt, ShownAsUnknown;
    SpecialIsExact(p, i, n, true);
    FileIsShownWhereItAligns(p, episodes, packs, Key(0, n), source);
  }

  /** A file without a season is shown in the season that owns its absolute number. */
  lemma SeasonlessFollowTheNumber(
      p: Provider, i: nat, episodes: Episodes, packs: Packs, relative: int, n: int, source: Source)
    requires WellNumbered(p) && i < |p| && p[i].number >= 1 && 1 <= relative <= p[i].episodeCount
    requires n == Total(p[..i]) + relative && !InOwnWindow(p, 0, n)
    requires Key(0, n) in episodes && source in episodes[Key(0, n)] && !source.seasonExplicit
    ensures ShownAt(Build(p, episodes, packs), p[i].number, relative, source)
  {
    hide Build, Align, Total, InOwnWindow, WellNumbered, ShownAt, ShownAsUnknown;
    AbsoluteIsOnto(p, i, relative);
    FileIsShownWhereItAligns(p, episodes, packs, Key(0, n), source);
  }

  // ----- in which order -----

  function TimeOf(s: Source): int {
    if s.uploadedAt.Some? then s.uploadedAt.value else 0
  }

  function IndexOf(s: Source): int {
    if s.fileIndex.Some? then s.fileIndex.value else 0
  }

  /** `a` may stand in front of `b`: not older, then not of a smaller release id, then not of a
      larger file index. */
  ghost predicate MayPrecede(a: Source, b: Source) {
    && TimeOf(a) >= TimeOf(b)
    && (TimeOf(a) == TimeOf(b) ==> a.releaseId == b.releaseId || StringBefore(b.releaseId, a.releaseId))
    && (TimeOf(a) == TimeOf(b) && a.releaseId == b.releaseId ==> IndexOf(a) <= IndexOf(b))
  }

  lemma PrecedeMeans(a: Source, b: Source)
    ensures !SourceBefore(b, a) <==> MayPrecede(a, b)
  {
    StringTotal(a.releaseId, b.releaseId);
    StringIsAsymmetric(a.releaseId, b.releaseId);
  }

  lemma StringIsAsymmetric(a: string, b: string)
    ensures !(StringBefore(a, b) && StringBefore(b, a))
  {
    if StringBefore(a, b) && StringBefore(b, a) {
      StringTransitive(a, b, a);
      StringIrreflexive(a);
    }
  }

  lemma SourceOrderIsWeak()
    ensures WeakOrder(SourceBefore)
  {
    forall a: Source, b: Source | SourceBefore(a, b) ensures !SourceBefore(b, a) {
      StringIsAsymmetric(a.releaseId, b.releaseId);
    }
    forall a: Source, b: Source, c: Source | !SourceBefore(b, a) && !SourceBefore(c, b) ensures !SourceBefore(c, a) {
      PrecedeMeans(a, b);
      PrecedeMeans(b, c);
      PrecedeMeans(a, c);
      hide SourceBefore;
      if StringBefore(b.releaseId, a.releaseId) && StringBefore(c.releaseId, b.releaseId) {
        StringTransitive(c.releaseId, b.releaseId, a.releaseId);
      }
    }
  }

  ghost predicate NewestFirst(sources: seq<Source>) {
    forall i, j :: 0 <= i < j < |sources| ==> MayPrecede(sources[i], sources[j])
  }

  /** Sorted sources: newest upload first, then release id downwards, then file index. */
  lemma SourcesAreSorted(sources: seq<Source>)
    ensures NewestFirst(Sort(SourceBefore, sources))
  {
    SourceOrderIsWeak();
    SortOrders(SourceBefore, sources);
    var sorted := Sort(SourceBefore, sources);
    forall i, j | 0 <= i < j < |sorted| ensures MayPrecede(sorted[i], sorted[j]) {
      PrecedeMeans(sorted[i], sorted[j]);
    }
  }

  lemma UnknownOrderIsWeak()
    ensures WeakOrder(UnknownBefore)
  {
    forall a: Episode, b: Episode | UnknownBefore(a, b) ensures !UnknownBefore(b, a) {
      StringIsAsymmetric(FirstSourcePath(a), FirstSourcePath(b));
    }
    forall a: Episode, b: Episode, c: Episode | !UnknownBefore(b, a) && !UnknownBefore(c, b)
      ensures !UnknownBefore(c, a)
    {
      var x, y, z := FirstSourcePath(a), FirstSourcePath(b), FirstSourcePath(c);
      StringTotal(x, y);
      StringTotal(y, z);
      if StringBefore(x, y) && StringBefore(y, z) {
        StringTransitive(x, y, z);
      }
      StringIsAsymmetric(x, z);
      StringIrreflexive(x);
    }
  }

  /** The unknown files ascend by number, and those of one number by path. */
  lemma UnknownAreSorted(p: Provider, episodes: Episodes, packs: Packs, i: nat)
    requires i < |Build(p, episodes, packs)|
    ensures var unknown := Build(p, episodes, packs)[i].unknown;
      forall a, b :: 0 <= a < b < |unknown| ==>
        && unknown[a].number <= unknown[b].number
        && (unknown[a].number == unknown[b].number ==>
              !StringBefore(FirstSourcePath(unknown[b]), FirstSourcePath(unknown[a])))
  {
    BuildLength(p, episodes, packs);
    BuildAt(p, episodes, packs, i);
    UnknownOrderIsWeak();
    var number := SeasonNumbers(p, episodes, packs)[i];
    SortOrders(UnknownBefore, UnknownOf(Fill(p, AllItems(episodes)).unknown, number));
  }

  /** The sources of every entry are sorted. */
  lemma EntriesAreSorted(p: Provider, episodes: Episodes, packs: Packs, i: nat, j: nat)
    requires i < |Build(p, episodes, packs)| && j < |Build(p, episodes, packs)[i].episodes|
    ensures NewestFirst(Build(p, episodes, packs)[i].episodes[j].sources)
  {
    BuildLength(p, episodes, packs);
    BuildAt(p, episodes, packs, i);
    hide Build, Fill, AllItems, SeasonNumbers, RenderSeason, NewestFirst;
    RenderedIsSorted(p, Fill(p, AllItems(episodes)), packs, SeasonNumbers(p, episodes, packs)[i], j);
  }

  lemma RenderedIsSorted(p: Provider, t: Tables, packs: Packs, number: int, j: nat)
    requires j < |RenderSeason(p, t, packs, number).episodes|
    ensures NewestFirst(RenderSeason(p, t, packs, number).episodes[j].sources)
  {
    IntsAreOrdered(Relative(t.aligned, number));
    var relative := Ascend(IntBefore, Relative(t.aligned, number));
    RenderEpisodesLength(p, t.aligned, number, relative);
    RenderEpisodesAt(p, t.aligned, number, relative, j);
    hide RenderEpisodes, NewestFirst;
    var given := Sources(t.aligned, Key(number, relative[j]));
    assert RenderSeason(p, t, packs, number).episodes[j].sources == Sort(SourceBefore, given);
    hide RenderSeason;
    SourcesAreSorted(given);
  }

  // ----- under which titles -----

  /** A season is called what the provider calls it, else "Specials" or by its number. */
  lemma SeasonsAreTitled(p: Provider, episodes: Episodes, packs: Packs, i: nat)
    requires WellNumbered(p) && i < |Build(p, episodes, packs)|
    ensures var s := Build(p, episodes, packs)[i];
      && (forall k :: 0 <= k < |p| && p[k].number == s.number && p[k].name != "" ==> s.title == Label.Named(p[k].name))
      && ((forall k :: 0 <= k < |p| && p[k].number == s.number ==> p[k].name == "") ==>
            s.title == if s.number == 0 then Specials else SeasonN(s.number))
  {
    BuildLength(p, episodes, packs);
    BuildAt(p, episodes, packs, i);
    var number := SeasonNumbers(p, episodes, packs)[i];
    hide Build, SeasonNumbers;
    forall k | 0 <= k < |p| && p[k].number == number ensures number in ByNumber(p) && ByNumber(p)[number] == p[k] {
      ByNumberFinds(p, k);
    }
    if forall k :: 0 <= k < |p| ==> p[k].number != number {
      ByNumberHas(p, number);
    }
  }

  lemma {:induction false} LastNameIs(episodes: seq<ProviderEpisode>, n: int)
    ensures LastName(episodes, n) == "" <==>
      forall e :: 0 <= e < |episodes| && episodes[e].number == n ==> episodes[e].name == ""
    ensures LastName(episodes, n) != "" ==>
      exists e :: 0 <= e < |episodes| && episodes[e].number == n && episodes[e].name == LastName(episodes, n)
                  && (forall f :: e < f < |episodes| && episodes[f].number == n ==> episodes[f].name == "")
    decreases |episodes|
  {
    if episodes != [] {
      var init, last := episodes[..|episodes| - 1], episodes[|episodes| - 1];
      LastNameIs(init, n);
      assert LastName(episodes, n) == if last.number == n && last.name != "" then last.name else LastName(init, n);
      hide LastName;
      assert forall e :: 0 <= e < |init| ==> init[e] == episodes[e];
      if last.number == n && last.name != "" {
        assert episodes[|episodes| - 1].name == LastName(episodes, n);
      } else if LastName(init, n) != "" {
        var e :| 0 <= e < |init| && init[e].number == n && init[e].name == LastName(init, n)
          && (forall f :: e < f < |init| && init[f].number == n ==> init[f].name == "");
        assert episodes[e].name == LastName(episodes, n);
      }
    }
  }

  lemma {:induction false} LastAirDateIs(episodes: seq<ProviderEpisode>, n: int)
    ensures LastAirDate(episodes, n) == "" <==>
      forall e :: 0 <= e < |episodes| && episodes[e].number == n ==> episodes[e].airDate == ""
    ensures LastAirDate(episodes, n) != "" ==>
      exists e :: 0 <= e < |episodes| && episodes[e].number == n && episodes[e].airDate == LastAirDate(episodes, n)
                  && (forall f :: e < f < |episodes| && episodes[f].number == n ==> episodes[f].airDate == "")
    decreases |episodes|
  {
    if episodes != [] {
      var init, last := episodes[..|episodes| - 1], episodes[|episodes| - 1];
      LastAirDateIs(init, n);
      assert LastAirDate(episodes, n)
        == if last.number == n && last.airDate != "" then last.airDate else LastAirDate(init, n);
      hide LastAirDate;
      assert forall e :: 0 <= e < |init| ==> init[e] == episodes[e];
      if last.number == n && last.airDate != "" {
        assert episodes[|episodes| - 1].airDate == LastAirDate(episodes, n);
      } else if LastAirDate(init, n) != "" {
        var e :| 0 <= e < |init| && init[e].number == n && init[e].airDate == LastAirDate(init, n)
          && (forall f :: e < f < |init| && init[f].number == n ==> init[f].airDate == "");
        assert episodes[e].airDate == LastAirDate(episodes, n);
      }
    }
  }

  /** Without a provider an entry is called by its newest source's title, else by its number. */
  lemma TorrentEntriesAreTitled(key: Key, sources: seq<Source>)
    requires sources != []
    ensures var e := TorrentEpisode(key, sources);
      && e.number == key.episode && e.season == key.season && e.airDate == ""
      && multiset(e.sources) == multiset(sources)
      && NewestFirst(e.sources)
      && e.title == if e.sources[0].episodeTitle == "" then EpisodeN(key.episode)
                    else Label.Named(e.sources[0].episodeTitle)
  {
    hide NewestFirst;
    SourcesAreSorted(sources);
  }

  /** A group that aligns nowhere is kept under the number and season it claims, with its
      sources, called by its first source's title or else by its number. */
  lemma {:induction false} UnknownEntriesAreGroups(p: Provider, items: seq<Item>, season: int, e: Episode)
    requires e in UnknownOf(Fill(p, items).unknown, season)
    ensures exists k :: 0 <= k < |items|
                        && PlaceOf(p, items[k]) == Unknown(season) && e.number == items[k].key.episode
                        && e.season == items[k].key.season == season && e.sources == items[k].sources
                        && e.airDate == "" && IsCalled(e)
    decreases |items|
  {
    var init, last := items[..|items| - 1], items[|items| - 1];
    if e in UnknownOf(Fill(p, init).unknown, season) {
      UnknownEntriesAreGroups(p, init, season, e);
      hide PlaceOf, IsCalled, Fill;
      var k :| 0 <= k < |init|
        && PlaceOf(p, init[k]) == Unknown(season) && e.number == init[k].key.episode
        && e.season == init[k].key.season == season && e.sources == init[k].sources
        && e.airDate == "" && IsCalled(e);
      assert items[k] == init[k];
    } else {
      assert e == UnknownEpisode(last);
      assert items[|items| - 1] == last;
    }
  }

  predicate IsCalled(e: Episode) {
    if e.sources == [] || e.sources[0].episodeTitle == "" then e.title == EpisodeN(e.number)
    else e.title == Label.Named(e.sources[0].episodeTitle)
  }

  /** An entry is called by the provider's last name for its number, else by its number. */
  lemma EntriesAreTitled(p: Provider, episodes: Episodes, packs: Packs, i: nat, j: nat)
    requires i < |Build(p, episodes, packs)| && j < |Build(p, episodes, packs)[i].episodes|
    ensures var s := Build(p, episodes, packs)[i];
      var e := s.episodes[j];
      var name := LastName(ProviderEpisodes(p, s.number), e.number);
      && e.season == s.number && e.title == (if name == "" then EpisodeN(e.number) else Label.Named(name))
      && e.airDate == LastAirDate(ProviderEpisodes(p, s.number), e.number)
  {
    BuildLength(p, episodes, packs);
    BuildAt(p, episodes, packs, i);
    var aligned, number := Fill(p, AllItems(episodes)).aligned, SeasonNumbers(p, episodes, packs)[i];
    hide Build, Fill, AllItems, SeasonNumbers, LastName, LastAirDate;
    IntsAreOrdered(Relative(aligned, number));
    var relative := Ascend(IntBefore, Relative(aligned, number));
    RenderEpisodesLength(p, aligned, number, relative);
    RenderEpisodesAt(p, aligned, number, relative, j);
  }
}
