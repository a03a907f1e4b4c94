/** What the season builder promises: nothing is lost or doubled, and everything is in order. */
module SeasonLaws {
  import opened Sorting
  import opened Alignment
  import opened Seasons

  type Bag = multiset<Source>

  // ----- bags of sources -----

  /** The sources of the items that go to one place. */
  function SumAt(p: Provider, items: seq<Item>, place: Place): Bag {
    if items == [] then multiset{}
    else
      var last := items[|items| - 1];
      SumAt(p, items[..|items| - 1], place) + if PlaceOf(p, last) == place then multiset(last.sources) else multiset{}
  }

  function SumAll(items: seq<Item>): Bag {
    if items == [] then multiset{} else SumAll(items[..|items| - 1]) + multiset(items[|items| - 1].sources)
  }

  function SumPlaces(p: Provider, items: seq<Item>, places: seq<Place>): Bag {
    if places == [] then multiset{}
    else SumPlaces(p, items, places[..|places| - 1]) + SumAt(p, items, places[|places| - 1])
  }

  function Bags(episodes: seq<Episode>): Bag {
    if episodes == [] then multiset{}
    else Bags(episodes[..|episodes| - 1]) + multiset(episodes[|episodes| - 1].sources)
  }

  /** Every source a list of seasons shows, packs aside. */
  function ShownBag(seasons: seq<Season>): Bag {
    if seasons == [] then multiset{}
    else
      var last := seasons[|seasons| - 1];
      ShownBag(seasons[..|seasons| - 1]) + Bags(last.episodes) + Bags(last.unknown)
  }

  /** Every source the builder was given, packs aside. */
  function GivenBag(keys: seq<Key>, episodes: Episodes): Bag
    requires forall k :: k in keys ==> k in episodes
  {
    if keys == [] then multiset{}
    else GivenBag(keys[..|keys| - 1], episodes) + multiset(episodes[keys[|keys| - 1]])
  }

  // ----- groups split a key's sources -----

  lemma {:induction false} GroupsSplit(key: Key, sources: seq<Source>)
    ensures multiset(Group(key, sources, false)) + multiset(Group(key, sources, true)) == multiset(sources)
    ensures forall s, explicit :: s in Group(key, sources, explicit) ==> IsSpecial(key, s) == explicit
  {
    hide IsSpecial;
    if sources != [] {
      GroupsSplit(key, sources[..|sources| - 1]);
      assert sources == sources[..|sources| - 1] + [sources[|sources| - 1]];
    }
    forall s, explicit | s in Group(key, sources, explicit) ensures IsSpecial(key, s) == explicit {
      GroupMembers(key, sources, explicit, s);
    }
  }

  lemma SumAllMore(items: seq<Item>, last: Item)
    ensures SumAll(items + [last]) == SumAll(items) + multiset(last.sources)
  {
    assert (items + [last])[..|items|] == items;
  }

  lemma {:induction false} SumAllAppend(a: seq<Item>, b: seq<Item>)
    ensures SumAll(a + b) == SumAll(a) + SumAll(b)
  {
    if b == [] {
      assert a + b == a;
    } else {
      hide SumAll;
      var init, last := b[..|b| - 1], b[|b| - 1];
      assert b == init + [last] && a + b == a + init + [last];
      SumAllAppend(a, init);
      SumAllMore(a + init, last);
      SumAllMore(init, last);
    }
  }

  lemma SumAllOne(item: Item)
    ensures SumAll([item]) == multiset(item.sources)
  {
    assert [item][..0] == [];
  }

  lemma SumOfKey(key: Key, sources: seq<Source>)
    ensures SumAll(ItemsOf(key, sources)) == multiset(sources)
  {
    GroupsSplit(key, sources);
    SumAllAppend(ItemOf(key, sources, false), ItemOf(key, sources, true));
    SumAllOne(Item(key, false, Group(key, sources, false)));
    SumAllOne(Item(key, true, Group(key, sources, true)));
  }

  lemma {:induction false} ItemsHoldEverything(keys: seq<Key>, episodes: Episodes)
    requires forall k :: k in keys ==> k in episodes
    ensures SumAll(Items(keys, episodes)) == GivenBag(keys, episodes)
  {
    if keys != [] {
      var last := keys[|keys| - 1];
      ItemsHoldEverything(keys[..|keys| - 1], episodes);
      SumOfKey(last, episodes[last]);
      SumAllAppend(Items(keys[..|keys| - 1], episodes), ItemsOf(last, episodes[last]));
    }
  }

  // ----- distinct places partition the items -----

  lemma SumAtStep(p: Provider, items: seq<Item>, place: Place)
    requires items != []
    ensures var init, last := items[..|items| - 1], items[|items| - 1];
      SumAt(p, items, place) == SumAt(p, init, place)
        + if PlaceOf(p, last) == place then multiset(last.sources) else multiset{}
  {
  }

  lemma {:induction false} NewItemCountsOnce(p: Provider, items: seq<Item>, places: seq<Place>)
    requires items != [] && Distinct(places)
    ensures var init, last := items[..|items| - 1], items[|items| - 1];
      SumPlaces(p, items, places) == SumPlaces(p, init, places)
        + if PlaceOf(p, last) in places then multiset(last.sources) else multiset{}
    decreases |places|
  {
    hide PlaceOf, SumAt;
    if places != [] {
      NewItemCountsOnce(p, items, places[..|places| - 1]);
      SumAtStep(p, items, places[|places| - 1]);
      assert places == places[..|places| - 1] + [places[|places| - 1]];
    }
  }

  lemma {:induction false} NoItemsNoBag(p: Provider, places: seq<Place>)
    ensures SumPlaces(p, [], places) == multiset{}
  {
    if places != [] {
      NoItemsNoBag(p, places[..|places| - 1]);
    }
  }

  lemma {:induction false} PlacesPartition(p: Provider, items: seq<Item>, places: seq<Place>)
    requires Distinct(places)
    requires forall item :: item in items ==> PlaceOf(p, item) in places
    ensures SumPlaces(p, items, places) == SumAll(items)
    decreases |items|
  {
    if items == [] {
      NoItemsNoBag(p, places);
    } else {
      PlacesPartition(p, items[..|items| - 1], places);
      NewItemCountsOnce(p, items, places);
    }
  }

  lemma {:induction false} SumPlacesAppend(p: Provider, items: seq<Item>, a: seq<Place>, b: seq<Place>)
    ensures SumPlaces(p, items, a + b) == SumPlaces(p, items, a) + SumPlaces(p, items, b)
    decreases |b|
  {
    if b == [] {
      assert a + b == a;
    } else {
      SumPlacesAppend(p, items, a, b[..|b| - 1]);
      assert (a + b)[..|a + b| - 1] == a + b[..|b| - 1];
    }
  }

  // ----- the tables hold what was placed -----

  lemma {:induction false} AlignedHolds(p: Provider, items: seq<Item>, key: Key)
    ensures multiset(Sources(Fill(p, items).aligned, key)) == SumAt(p, items, At(key))
    decreases |items|
  {
    if items != [] {
      AlignedHolds(p, items[..|items| - 1], key);
    }
  }

  lemma {:induction false} UnknownHolds(p: Provider, items: seq<Item>, season: int)
    ensures Bags(UnknownOf(Fill(p, items).unknown, season)) == SumAt(p, items, Unknown(season))
    decreases |items|
  {
    if items != [] {
      var init, last := items[..|items| - 1], items[|items| - 1];
      UnknownHolds(p, init, season);
      var before := UnknownOf(Fill(p, init).unknown, season);
      assert (before + [UnknownEpisode(last)])[..|before|] == before;
    }
  }

  function PlaceSeason(place: Place): int {
    match place
    case At(key) => key.season
    case Unknown(season) => season
  }

  /** Every placed item is listed: its season is numbered, its episode has an entry. */
  lemma {:induction false} ItemIsListed(p: Provider, items: seq<Item>, i: nat)
    requires i < |items|
    ensures PlaceSeason(PlaceOf(p, items[i])) in Fill(p, items).numbers
    ensures PlaceOf(p, items[i]).At? ==> PlaceOf(p, items[i]).key in Fill(p, items).aligned
    decreases |items|
  {
    if i < |items| - 1 {
      ItemIsListed(p, items[..|items| - 1], i);
    }
  }

  /** Some item claims season `n` or is placed in it. */
  ghost predicate IsReached(p: Provider, items: seq<Item>, n: int) {
    exists i :: 0 <= i < |items| && (items[i].key.season == n || PlaceSeason(PlaceOf(p, items[i])) == n)
  }

  lemma {:induction false} NumbersAreReached(p: Provider, items: seq<Item>, n: int)
    ensures n in Fill(p, items).numbers <==> IsReached(p, items, n)
    decreases |items|
  {
    if items != [] {
      var init, last := items[..|items| - 1], items[|items| - 1];
      NumbersAreReached(p, init, n);
      assert Fill(p, items).numbers == Fill(p, init).numbers + {last.key.season, PlaceSeason(PlaceOf(p, last))};
      hide PlaceOf, Fill;
      if IsReached(p, init, n) {
        var i :| 0 <= i < |init| && (init[i].key.season == n || PlaceSeason(PlaceOf(p, init[i])) == n);
        assert items[i] == init[i];
      }
      if IsReached(p, items, n) {
        var i :| 0 <= i < |items| && (items[i].key.season == n || PlaceSeason(PlaceOf(p, items[i])) == n);
        assert i < |init| ==> init[i] == items[i];
      }
    }
  }

  /** Conversely every entry got an item, so it has a number of at least 1. */
  lemma {:induction false} EntryHasItem(p: Provider, items: seq<Item>, key: Key)
    requires key in Fill(p, items).aligned
    ensures key.season in Fill(p, items).numbers && key.episode >= 1
    ensures exists i :: 0 <= i < |items| && PlaceOf(p, items[i]) == At(key)
    decreases |items|
  {
    var init, last := items[..|items| - 1], items[|items| - 1];
    if PlaceOf(p, last) == At(key) {
      NeverMovedToAnotherSeason(p, last.key.season, last.key.episode, last.explicit);
    } else {
      EntryHasItem(p, init, key);
      var i :| 0 <= i < |init| && PlaceOf(p, init[i]) == At(key);
      assert PlaceOf(p, items[i]) == At(key);
    }
  }

  // ----- what is rendered is what was placed -----

  lemma {:induction false} BagsInsert(before: (Episode, Episode) -> bool, episodes: seq<Episode>, e: Episode)
    ensures Bags(Insert(before, episodes, e)) == Bags(episodes) + multiset(e.sources)
    decreases |episodes|
  {
    if episodes == [] || !before(e, episodes[|episodes| - 1]) {
      assert (episodes + [e])[..|episodes|] == episodes;
    } else {
      var init := Insert(before, episodes[..|episodes| - 1], e);
      BagsInsert(before, episodes[..|episodes| - 1], e);
      assert (init + [episodes[|episodes| - 1]])[..|init|] == init;
    }
  }

  lemma {:induction false} BagsSort(before: (Episode, Episode) -> bool, episodes: seq<Episode>)
    ensures Bags(Sort(before, episodes)) == Bags(episodes)
    decreases |episodes|
  {
    if episodes != [] {
      BagsSort(before, episodes[..|episodes| - 1]);
      BagsInsert(before, Sort(before, episodes[..|episodes| - 1]), episodes[|episodes| - 1]);
    }
  }

  ghost function AtAll(season: int, numbers: seq<int>): (places: seq<Place>)
    ensures |places| == |numbers|
    ensures forall i :: 0 <= i < |numbers| ==> places[i] == At(Key(season, numbers[i]))
  {
    seq(|numbers|, i requires 0 <= i < |numbers| => At(Key(season, numbers[i])))
  }

  lemma {:induction false} RenderedEpisodes(p: Provider, items: seq<Item>, season: int, numbers: seq<int>)
    ensures Bags(RenderEpisodes(p, Fill(p, items).aligned, season, numbers))
      == SumPlaces(p, items, AtAll(season, numbers))
    decreases |numbers|
  {
    if numbers != [] {
      var init, key := numbers[..|numbers| - 1], Key(season, numbers[|numbers| - 1]);
      var aligned := Fill(p, items).aligned;
      RenderedEpisodes(p, items, season, init);
      AlignedHolds(p, items, key);
      assert AtAll(season, numbers)[..|numbers| - 1] == AtAll(season, init);
      var shown := RenderEpisodes(p, aligned, season, init);
      var e := AlignedEpisode(p, key, Sources(aligned, key));
      assert (shown + [e])[..|shown|] == shown;
    }
  }

  ghost function SeasonPlaces(t: Tables, season: int): seq<Place> {
    IntsAreOrdered(Relative(t.aligned, season));
    AtAll(season, Ascend(IntBefore, Relative(t.aligned, season))) + [Unknown(season)]
  }

  ghost function AllPlaces(t: Tables, numbers: seq<int>): seq<Place> {
    if numbers == [] then [] else AllPlaces(t, numbers[..|numbers| - 1]) + SeasonPlaces(t, numbers[|numbers| - 1])
  }

  lemma RenderedSeason(p: Provider, items: seq<Item>, packs: Packs, number: int)
    ensures var s := RenderSeason(p, Fill(p, items), packs, number);
      Bags(s.episodes) + Bags(s.unknown) == SumPlaces(p, items, SeasonPlaces(Fill(p, items), number))
  {
    var t := Fill(p, items);
    IntsAreOrdered(Relative(t.aligned, number));
    var numbers := Ascend(IntBefore, Relative(t.aligned, number));
    RenderedEpisodes(p, items, number, numbers);
    BagsSort(UnknownBefore, UnknownOf(t.unknown, number));
    UnknownHolds(p, items, number);
    SumPlacesAppend(p, items, AtAll(number, numbers), [Unknown(number)]);
    assert [Unknown(number)][..0] == [];
  }

  lemma ShownBagMore(shown: seq<Season>, last: Season)
    ensures ShownBag(shown + [last]) == ShownBag(shown) + Bags(last.episodes) + Bags(last.unknown)
  {
    assert (shown + [last])[..|shown|] == shown;
  }

  lemma {:induction false} RenderedSeasons(p: Provider, items: seq<Item>, packs: Packs, numbers: seq<int>)
    ensures ShownBag(RenderSeasons(p, Fill(p, items), packs, numbers))
      == SumPlaces(p, items, AllPlaces(Fill(p, items), numbers))
    decreases |numbers|
  {
    if numbers != [] {
      hide RenderSeason, SeasonPlaces, SumPlaces, Fill, Bags, ShownBag;
      var t, init, last := Fill(p, items), numbers[..|numbers| - 1], numbers[|numbers| - 1];
      RenderedSeasons(p, items, packs, init);
      RenderedSeason(p, items, packs, last);
      SumPlacesAppend(p, items, AllPlaces(t, init), SeasonPlaces(t, last));
      ShownBagMore(RenderSeasons(p, t, packs, init), RenderSeason(p, t, packs, last));
    }
  }

  // ----- the rendered places are distinct and cover everything -----

  lemma SeasonPlacesAreDistinct(t: Tables, season: int)
    ensures Distinct(SeasonPlaces(t, season))
    ensures forall place :: place in SeasonPlaces(t, season) ==> PlaceSeason(place) == season
  {
    IntsAreOrdered(Relative(t.aligned, season));
    var numbers := Ascend(IntBefore, Relative(t.aligned, season));
    AscendingIsDistinct(IntBefore, numbers);
    assert forall i, j :: 0 <= i < j < |numbers| ==> AtAll(season, numbers)[i] != AtAll(season, numbers)[j];
  }

  lemma {:induction false} AllPlacesAreDistinct(t: Tables, numbers: seq<int>)
    requires Distinct(numbers)
    ensures Distinct(AllPlaces(t, numbers))
    ensures forall place :: place in AllPlaces(t, numbers) ==> PlaceSeason(place) in numbers
    decreases |numbers|
  {
    if numbers != [] {
      var init, last := numbers[..|numbers| - 1], numbers[|numbers| - 1];
      AllPlacesAreDistinct(t, init);
      SeasonPlacesAreDistinct(t, last);
      assert last !in init;
      DistinctAppend(AllPlaces(t, init), SeasonPlaces(t, last));
      assert forall n :: n in init ==> n in numbers;
    }
  }

  lemma DistinctAppend(a: seq<Place>, b: seq<Place>)
    requires Distinct(a) && Distinct(b) && forall x :: x in a ==> x !in b
    ensures Distinct(a + b)
  {
    forall i, j | 0 <= i < j < |a + b| ensures (a + b)[i] != (a + b)[j] {
      if i < |a| && j >= |a| {
        assert (a + b)[i] in a && (a + b)[j] in b;
      }
    }
  }

  lemma {:induction false} AllPlacesCover(t: Tables, numbers: seq<int>, place: Place)
    requires PlaceSeason(place) in numbers && (place.At? ==> place.key in t.aligned)
    ensures place in AllPlaces(t, numbers)
    decreases |numbers|
  {
    var init, last := numbers[..|numbers| - 1], numbers[|numbers| - 1];
    if PlaceSeason(place) == last {
      SeasonPlacesCover(t, last, place);
    } else {
      AllPlacesCover(t, init, place);
    }
  }

  lemma SeasonPlacesCover(t: Tables, season: int, place: Place)
    requires PlaceSeason(place) == season && (place.At? ==> place.key in t.aligned)
    ensures place in SeasonPlaces(t, season)
  {
    IntsAreOrdered(Relative(t.aligned, season));
    var numbers := Ascend(IntBefore, Relative(t.aligned, season));
    if place.At? {
      assert place.key.episode in Elements(numbers);
      var i :| 0 <= i < |numbers| && numbers[i] == place.key.episode;
      assert AtAll(season, numbers)[i] == place;
    } else {
      assert SeasonPlaces(t, season)[|numbers|] == place;
    }
  }

  // ----- the promises -----

  lemma AllItemsFacts(episodes: Episodes)
    ensures var keys := Ascend(KeyBefore, episodes.Keys);
      && Elements(keys) == episodes.Keys
      && (forall k :: k in keys ==> k in episodes)
      && AllItems(episodes) == Items(keys, episodes)
  {
    KeysAreOrdered(episodes.Keys);
    var keys := Ascend(KeyBefore, episodes.Keys);
    assert forall k :: k in keys ==> k in Elements(keys);
  }

  lemma NumbersFacts(p: Provider, episodes: Episodes, packs: Packs)
    ensures var numbers := SeasonNumbers(p, episodes, packs);
      && Distinct(numbers) && Ascending(IntBefore, numbers)
      && (forall n :: n in numbers <==> n in Fill(p, AllItems(episodes)).numbers || n in packs)
  {
    var all := Fill(p, AllItems(episodes)).numbers + packs.Keys;
    IntsAreOrdered(all);
    var numbers := SeasonNumbers(p, episodes, packs);
    AscendingIsDistinct(IntBefore, numbers);
    assert forall n :: n in numbers <==> n in Elements(numbers);
  }

  /** The places of all items are places of the rendered seasons. */
  lemma EveryItemIsRendered(p: Provider, episodes: Episodes, packs: Packs, item: Item)
    requires item in AllItems(episodes)
    ensures PlaceOf(p, item) in AllPlaces(Fill(p, AllItems(episodes)), SeasonNumbers(p, episodes, packs))
  {
    var items := AllItems(episodes);
    NumbersFacts(p, episodes, packs);
    var i :| 0 <= i < |items| && items[i] == item;
    ItemIsListed(p, items, i);
    AllPlacesCover(Fill(p, items), SeasonNumbers(p, episodes, packs), PlaceOf(p, item));
  }

  lemma ShownIsPlaced(p: Provider, episodes: Episodes, packs: Packs)
    ensures ShownBag(Build(p, episodes, packs)) == SumAll(AllItems(episodes))
  {
    hide PlaceOf, ShownBag, SumAll, SumPlaces;
    var items, numbers := AllItems(episodes), SeasonNumbers(p, episodes, packs);
    NumbersFacts(p, episodes, packs);
    AllPlacesAreDistinct(Fill(p, items), numbers);
    forall item | item in items ensures PlaceOf(p, item) in AllPlaces(Fill(p, items), numbers) {
      EveryItemIsRendered(p, episodes, packs, item);
    }
    RenderedSeasons(p, items, packs, numbers);
    PlacesPartition(p, items, AllPlaces(Fill(p, items), numbers));
  }

  /** Conservation: the built seasons show exactly the given sources, each as often as given. */
  lemma NothingLostOrDoubled(p: Provider, episodes: Episodes, packs: Packs)
    ensures var keys := Ascend(KeyBefore, episodes.Keys);
      && (forall k :: k in keys <==> k in episodes)
      && ShownBag(Build(p, episodes, packs)) == GivenBag(keys, episodes)
  {
    hide Build, Items, SumAll, ShownBag;
    var keys := Ascend(KeyBefore, episodes.Keys);
    AllItemsFacts(episodes);
    assert forall k :: k in keys <==> k in Elements(keys);
    ShownIsPlaced(p, episodes, packs);
    ItemsHoldEverything(keys, episodes);
  }

  lemma {:induction false} RenderSeasonsAt(p: Provider, t: Tables, packs: Packs, numbers: seq<int>, i: nat)
    requires i < |numbers|
    ensures |RenderSeasons(p, t, packs, numbers)| == |numbers|
    ensures RenderSeasons(p, t, packs, numbers)[i] == RenderSeason(p, t, packs, numbers[i])
    decreases |numbers|
  {
    hide RenderSeason;
    var init := numbers[..|numbers| - 1];
    if i < |init| {
      RenderSeasonsAt(p, t, packs, init, i);
    } else {
      RenderSeasonsLength(p, t, packs, init);
    }
  }

  lemma {:induction false} RenderSeasonsLength(p: Provider, t: Tables, packs: Packs, numbers: seq<int>)
    ensures |RenderSeasons(p, t, packs, numbers)| == |numbers|
    decreases |numbers|
  {
    if numbers != [] {
      RenderSeasonsLength(p, t, packs, numbers[..|numbers| - 1]);
    }
  }

  lemma {:induction false} RenderEpisodesAt(
      p: Provider, aligned: map<Key, seq<Source>>, season: int, numbers: seq<int>, i: nat)
    requires i < |numbers|
    ensures |RenderEpisodes(p, aligned, season, numbers)| == |numbers|
    ensures var key := Key(season, numbers[i]);
      RenderEpisodes(p, aligned, season, numbers)[i] == AlignedEpisode(p, key, Sources(aligned, key))
    decreases |numbers|
  {
    hide AlignedEpisode;
    var init := numbers[..|numbers| - 1];
    if i < |init| {
      RenderEpisodesAt(p, aligned, season, init, i);
    } else {
      RenderEpisodesLength(p, aligned, season, init);
    }
  }

  lemma {:induction false} RenderEpisodesLength(
      p: Provider, aligned: map<Key, seq<Source>>, season: int, numbers: seq<int>)
    ensures |RenderEpisodes(p, aligned, season, numbers)| == |numbers|
    decreases |numbers|
  {
    if numbers != [] {
      RenderEpisodesLength(p, aligned, season, numbers[..|numbers| - 1]);
    }
  }

  /** Season `i` of the build is the rendering of the `i`th season number. */
  lemma BuildAt(p: Provider, episodes: Episodes, packs: Packs, i: nat)
    requires i < |SeasonNumbers(p, episodes, packs)|
    ensures |Build(p, episodes, packs)| == |SeasonNumbers(p, episodes, packs)|
    ensures Build(p, episodes, packs)[i]
      == RenderSeason(p, Fill(p, AllItems(episodes)), packs, SeasonNumbers(p, episodes, packs)[i])
  {
    RenderSeasonsAt(p, Fill(p, AllItems(episodes)), packs, SeasonNumbers(p, episodes, packs), i);
  }

  lemma BuildLength(p: Provider, episodes: Episodes, packs: Packs)
    ensures |Build(p, episodes, packs)| == |SeasonNumbers(p, episodes, packs)|
  {
    RenderSeasonsLength(p, Fill(p, AllItems(episodes)), packs, SeasonNumbers(p, episodes, packs));
  }

  ghost predicate HasSeason(seasons: seq<Season>, n: int) {
    exists i :: 0 <= i < |seasons| && seasons[i].number == n
  }

  /** Seasons are strictly ascending, exactly those that were claimed, reached or packed, and
      each carries the packs filed under its number. */
  lemma SeasonsAscend(p: Provider, episodes: Episodes, packs: Packs)
    ensures var seasons := Build(p, episodes, packs);
      && (forall i, j :: 0 <= i < j < |seasons| ==> seasons[i].number < seasons[j].number)
      && (forall i :: 0 <= i < |seasons| ==>
            seasons[i].packs == if seasons[i].number in packs then packs[seasons[i].number] else [])
      && (forall n :: HasSeason(seasons, n) <==> n in packs || IsReached(p, AllItems(episodes), n))
  {
    var seasons, numbers := Build(p, episodes, packs), SeasonNumbers(p, episodes, packs);
    NumbersFacts(p, episodes, packs);
    BuildLength(p, episodes, packs);
    hide Build, SeasonNumbers, AllItems, Fill;
    forall i | 0 <= i < |numbers|
      ensures seasons[i].number == numbers[i]
      ensures seasons[i].packs == if numbers[i] in packs then packs[numbers[i]] else []
    {
      BuildAt(p, episodes, packs, i);
    }
    forall n ensures HasSeason(seasons, n) <==> n in packs || IsReached(p, AllItems(episodes), n) {
      NumbersAreReached(p, AllItems(episodes), n);
      if n in numbers {
        var i :| 0 <= i < |numbers| && numbers[i] == n;
        assert seasons[i].number == n;
      }
    }
    assert forall i, j :: 0 <= i < j < |numbers| ==> IntBefore(numbers[i], numbers[j]);
  }

  /** The episodes are strictly ascending, numbered from 1, and each holds exactly the sources
      of the items that align to it. */
  ghost predicate EpisodesAreExact(p: Provider, items: seq<Item>, season: int, shown: seq<Episode>) {
    && (forall a, b :: 0 <= a < b < |shown| ==> shown[a].number < shown[b].number)
    && (forall a :: 0 <= a < |shown| ==>
          && shown[a].season == season && shown[a].number >= 1
          && multiset(shown[a].sources) == SumAt(p, items, At(Key(season, shown[a].number))))
  }

  /** Each built season is exact; its unknown files are exactly those of the items that claim
      it and align nowhere. */
  lemma SeasonContents(p: Provider, episodes: Episodes, packs: Packs, i: nat)
    requires i < |Build(p, episodes, packs)|
    ensures var s := Build(p, episodes, packs)[i];
      && EpisodesAreExact(p, AllItems(episodes), s.number, s.episodes)
      && Bags(s.unknown) == SumAt(p, AllItems(episodes), Unknown(s.number))
  {
    var items, numbers := AllItems(episodes), SeasonNumbers(p, episodes, packs);
    var t := Fill(p, items);
    BuildLength(p, episodes, packs);
    BuildAt(p, episodes, packs, i);
    RenderedContents(p, items, numbers[i]);
    BagsSort(UnknownBefore, UnknownOf(t.unknown, numbers[i]));
    UnknownHolds(p, items, numbers[i]);
  }

  /** Entry `a` of a rendered season. */
  lemma RenderedEntry(p: Provider, items: seq<Item>, number: int, relative: seq<int>, a: nat)
    requires a < |relative| && Key(number, relative[a]) in Fill(p, items).aligned
    ensures var shown := RenderEpisodes(p, Fill(p, items).aligned, number, relative);
      && |shown| == |relative|
      && shown[a].season == number && shown[a].number == relative[a] >= 1
      && multiset(shown[a].sources) == SumAt(p, items, At(Key(number, relative[a])))
  {
    hide Fill, RenderEpisodes;
    RenderEpisodesLength(p, Fill(p, items).aligned, number, relative);
    RenderEpisodesAt(p, Fill(p, items).aligned, number, relative, a);
    AlignedHolds(p, items, Key(number, relative[a]));
    EntryHasItem(p, items, Key(number, relative[a]));
  }

  lemma RelativeIsAligned(p: Provider, items: seq<Item>, number: int, relative: seq<int>, a: nat)
    requires Elements(relative) == Relative(Fill(p, items).aligned, number) && a < |relative|
    ensures Key(number, relative[a]) in Fill(p, items).aligned
  {
    hide Fill;
    assert relative[a] in Elements(relative);
  }

  lemma RenderedContents(p: Provider, items: seq<Item>, number: int)
    ensures StrictTotalOn(IntBefore, Relative(Fill(p, items).aligned, number))
    ensures var relative := Ascend(IntBefore, Relative(Fill(p, items).aligned, number));
      EpisodesAreExact(p, items, number, RenderEpisodes(p, Fill(p, items).aligned, number, relative))
  {
    hide Fill, RenderEpisodes, SumAt, Relative, Elements;
    var aligned := Fill(p, items).aligned;
    IntsAreOrdered(Relative(aligned, number));
    var relative := Ascend(IntBefore, Relative(aligned, number));
    var shown := RenderEpisodes(p, aligned, number, relative);
    RenderEpisodesLength(p, aligned, number, relative);
    forall a | 0 <= a < |shown|
      ensures shown[a].season == number && shown[a].number == relative[a] >= 1
      ensures multiset(shown[a].sources) == SumAt(p, items, At(Key(number, shown[a].number)))
    {
      RelativeIsAligned(p, items, number, relative, a);
      RenderedEntry(p, items, number, relative, a);
    }
    assert forall a, b :: 0 <= a < b < |relative| ==> IntBefore(relative[a], relative[b]);
  }

  // ----- which files a season shows -----

  lemma {:induction false} SumAtMembers(p: Provider, items: seq<Item>, place: Place, source: Source)
    ensures source in SumAt(p, items, place)
      <==> exists i :: 0 <= i < |items| && PlaceOf(p, items[i]) == place && source in items[i].sources
    decreases |items|
  {
    hide PlaceOf;
    if items != [] {
      var init, last := items[..|items| - 1], items[|items| - 1];
      SumAtMembers(p, init, place, source);
      assert source in multiset(last.sources) <==> source in last.sources;
      assert forall i :: 0 <= i < |init| ==> init[i] == items[i];
      if source in SumAt(p, items, place) && source in SumAt(p, init, place) {
        var i :| 0 <= i < |init| && PlaceOf(p, init[i]) == place && source in init[i].sources;
        assert items[i] == init[i];
      }
    }
  }

  lemma {:induction false} SumPlacesMembers(p: Provider, items: seq<Item>, places: seq<Place>, source: Source)
    ensures source in SumPlaces(p, items, places)
      <==> exists place :: place in places && source in SumAt(p, items, place)
    decreases |places|
  {
    hide SumAt;
    if places != [] {
      var init, last := places[..|places| - 1], places[|places| - 1];
      SumPlacesMembers(p, items, init, source);
      assert places == init + [last];
      if source in SumAt(p, items, last) {
        assert last in places;
      } else if place :| place in init && source in SumAt(p, items, place) {
        assert place in places;
      }
    }
  }

  /** Every source a season shows, packs aside. */
  function SeasonBag(s: Season): Bag {
    Bags(s.episodes) + Bags(s.unknown)
  }

  /** An item of the source that is placed in the season. */
  ghost predicate PlacedIn(p: Provider, items: seq<Item>, season: int, source: Source) {
    exists i :: 0 <= i < |items| && PlaceSeason(PlaceOf(p, items[i])) == season && source in items[i].sources
  }

  /** A season shows exactly the sources of the items placed in it. */
  lemma SeasonShows(p: Provider, items: seq<Item>, packs: Packs, number: int, source: Source)
    ensures source in SeasonBag(RenderSeason(p, Fill(p, items), packs, number)) <==> PlacedIn(p, items, number, source)
  {
    var places := SeasonPlaces(Fill(p, items), number);
    RenderedSeason(p, items, packs, number);
    SumPlacesMembers(p, items, places, source);
    SeasonPlacesAreDistinct(Fill(p, items), number);
    hide PlaceOf, SumAt, SumPlaces, Fill, SeasonPlaces, RenderSeason;
    if place :| place in places && source in SumAt(p, items, place) {
      SumAtMembers(p, items, place, source);
      var i :| 0 <= i < |items| && PlaceOf(p, items[i]) == place && source in items[i].sources;
      assert PlaceSeason(PlaceOf(p, items[i])) == number;
    }
    if PlacedIn(p, items, number, source) {
      var i :| 0 <= i < |items| && PlaceSeason(PlaceOf(p, items[i])) == number && source in items[i].sources;
      SumAtMembers(p, items, PlaceOf(p, items[i]), source);
      ItemIsListed(p, items, i);
      SeasonPlacesCover(Fill(p, items), number, PlaceOf(p, items[i]));
    }
  }

  // ----- which files the items hold -----

  /** The item of a key's files on one side. */
  ghost predicate IsItemOf(item: Item, key: Key, sources: seq<Source>) {
    item.key == key && item.sources == Group(key, sources, item.explicit)
  }

  lemma {:induction false} ItemsAreGroups(keys: seq<Key>, episodes: Episodes, i: nat)
    requires forall k :: k in keys ==> k in episodes
    requires i < |Items(keys, episodes)|
    ensures var item := Items(keys, episodes)[i];
      item.key in keys && IsItemOf(item, item.key, episodes[item.key]) && item.sources != []
    decreases |keys|
  {
    var init := keys[..|keys| - 1];
    if i < |Items(init, episodes)| {
      ItemsAreGroups(init, episodes, i);
    }
  }

  lemma {:induction false} GroupMembers(key: Key, sources: seq<Source>, explicit: bool, source: Source)
    ensures source in Group(key, sources, explicit) <==> source in sources && IsSpecial(key, source) == explicit
    decreases |sources|
  {
    if sources != [] {
      GroupMembers(key, sources[..|sources| - 1], explicit, source);
      assert sources == sources[..|sources| - 1] + [sources[|sources| - 1]];
    }
  }

  lemma {:induction false} SourceHasItem(keys: seq<Key>, episodes: Episodes, key: Key, source: Source)
    returns (item: Item)
    requires forall k :: k in keys ==> k in episodes
    requires key in keys && source in episodes[key]
    ensures item in Items(keys, episodes) && item.key == key
    ensures item.explicit == IsSpecial(key, source) && source in item.sources
    decreases |keys|
  {
    var init, last := keys[..|keys| - 1], keys[|keys| - 1];
    if key == last {
      var explicit := IsSpecial(key, source);
      GroupMembers(key, episodes[key], explicit, source);
      item := Item(key, explicit, Group(key, episodes[key], explicit));
      assert item in ItemOf(key, episodes[key], explicit);
    } else {
      item := SourceHasItem(init, episodes, key, source);
    }
  }

  lemma ItemsAreFilled(episodes: Episodes)
    ensures forall j :: 0 <= j < |AllItems(episodes)| ==> AllItems(episodes)[j].sources != []
  {
    AllItemsFacts(episodes);
    hide AllItems;
    forall j | 0 <= j < |AllItems(episodes)| ensures AllItems(episodes)[j].sources != [] {
      ItemsAreGroups(Ascend(KeyBefore, episodes.Keys), episodes, j);
    }
  }

  /** Every entry of a built season has a source. */
  lemma BuiltEntriesAreFilled(p: Provider, episodes: Episodes, packs: Packs, i: nat, a: nat)
    requires i < |Build(p, episodes, packs)| && a < |Build(p, episodes, packs)[i].episodes|
    ensures Build(p, episodes, packs)[i].episodes[a].sources != []
  {
    BuildLength(p, episodes, packs);
    BuildAt(p, episodes, packs, i);
    ItemsAreFilled(episodes);
    hide Build, AllItems, SeasonNumbers, RenderSeason, Fill;
    RenderedEntriesAreFilled(p, AllItems(episodes), packs, SeasonNumbers(p, episodes, packs)[i], a);
  }

  lemma RenderedEntriesAreFilled(p: Provider, items: seq<Item>, packs: Packs, number: int, a: nat)
    requires forall j :: 0 <= j < |items| ==> items[j].sources != []
    requires a < |RenderSeason(p, Fill(p, items), packs, number).episodes|
    ensures RenderSeason(p, Fill(p, items), packs, number).episodes[a].sources != []
  {
    var aligned := Fill(p, items).aligned;
    IntsAreOrdered(Relative(aligned, number));
    var relative := Ascend(IntBefore, Relative(aligned, number));
    RenderEpisodesLength(p, aligned, number, relative);
    RenderEpisodesAt(p, aligned, number, relative, a);
    var key := Key(number, relative[a]);
    assert relative[a] in Elements(relative);
    EntryHasItem(p, items, key);
    AlignedHolds(p, items, key);
    hide PlaceOf, Fill, SumAt;
    var j :| 0 <= j < |items| && PlaceOf(p, items[j]) == At(key);
    SumAtMembers(p, items, At(key), items[j].sources[0]);
  }

  /** A file is placed in the season it claims, if that is 1 or more or the file says so itself. */
  lemma PlacedWhereClaimed(p: Provider, item: Item)
    requires item.key.season >= 1 || item.explicit
    ensures PlaceSeason(PlaceOf(p, item)) == item.key.season
  {
    if PlaceOf(p, item).At? {
      NeverMovedToAnotherSeason(p, item.key.season, item.key.episode, item.explicit);
    }
  }

  /** The file's key names its season for good: season 1 or more, or an explicit special. */
  predicate KeepsSeason(key: Key, source: Source) {
    key.season >= 1 || IsSpecial(key, source)
  }

  /** The source was filed under a key that keeps this season or keeps none. */
  ghost predicate FiledFor(episodes: Episodes, season: int, source: Source) {
    exists k :: k in episodes && source in episodes[k] && (KeepsSeason(k, source) ==> k.season == season)
  }

  lemma BuiltSeasonShows(p: Provider, episodes: Episodes, packs: Packs, i: nat, source: Source)
    requires i < |Build(p, episodes, packs)|
    ensures source in SeasonBag(Build(p, episodes, packs)[i])
      <==> PlacedIn(p, AllItems(episodes), Build(p, episodes, packs)[i].number, source)
  {
    BuildLength(p, episodes, packs);
    BuildAt(p, episodes, packs, i);
    hide Build, SeasonBag, PlacedIn, AllItems, Fill, SeasonNumbers;
    SeasonShows(p, AllItems(episodes), packs, SeasonNumbers(p, episodes, packs)[i], source);
  }

  lemma ItemIsFiled(p: Provider, episodes: Episodes, item: Item, source: Source)
    requires item.key in episodes && IsItemOf(item, item.key, episodes[item.key]) && source in item.sources
    ensures FiledFor(episodes, PlaceSeason(PlaceOf(p, item)), source)
  {
    hide PlaceOf, Group;
    GroupMembers(item.key, episodes[item.key], item.explicit, source);
    if KeepsSeason(item.key, source) {
      PlacedWhereClaimed(p, item);
    }
  }

  lemma AllItemsAreGroups(episodes: Episodes, j: nat)
    requires j < |AllItems(episodes)|
    ensures var item := AllItems(episodes)[j];
      item.key in episodes && IsItemOf(item, item.key, episodes[item.key])
  {
    AllItemsFacts(episodes);
    hide AllItems;
    ItemsAreGroups(Ascend(KeyBefore, episodes.Keys), episodes, j);
  }

  lemma PlacedIsFiled(p: Provider, episodes: Episodes, season: int, source: Source)
    requires PlacedIn(p, AllItems(episodes), season, source)
    ensures FiledFor(episodes, season, source)
  {
    hide AllItems, FiledFor, PlaceOf, PlaceSeason, IsItemOf;
    var items := AllItems(episodes);
    var j :| 0 <= j < |items| && PlaceSeason(PlaceOf(p, items[j])) == season && source in items[j].sources;
    AllItemsAreGroups(episodes, j);
    ItemIsFiled(p, episodes, items[j], source);
  }

  /** No season shows a file that keeps another season: whatever a built season shows, as an
      episode or as unknown, was filed under a key that keeps that season or keeps none. */
  lemma FilesKeepTheirSeason(p: Provider, episodes: Episodes, packs: Packs, i: nat, source: Source)
    requires i < |Build(p, episodes, packs)| && source in SeasonBag(Build(p, episodes, packs)[i])
    ensures FiledFor(episodes, Build(p, episodes, packs)[i].number, source)
  {
    hide FiledFor, PlacedIn, Build;
    BuiltSeasonShows(p, episodes, packs, i, source);
    PlacedIsFiled(p, episodes, Build(p, episodes, packs)[i].number, source);
  }

  /** The season of a file's key is among the built ones when the file keeps it. */
  lemma FiledIsPlaced(p: Provider, episodes: Episodes, packs: Packs, key: Key, source: Source)
    requires key in episodes && source in episodes[key] && KeepsSeason(key, source)
    ensures PlacedIn(p, AllItems(episodes), key.season, source) && IsReached(p, AllItems(episodes), key.season)
  {
    var keys, items := Ascend(KeyBefore, episodes.Keys), AllItems(episodes);
    AllItemsFacts(episodes);
    assert key in Elements(keys);
    hide PlaceOf, AllItems, Items, Group;
    var item := SourceHasItem(keys, episodes, key, source);
    var j :| 0 <= j < |items| && items[j] == item;
    PlacedWhereClaimed(p, item);
    assert PlaceSeason(PlaceOf(p, items[j])) == key.season && source in items[j].sources;
  }

  /** And its own season does show it. */
  lemma FilesAreShownInTheirSeason(p: Provider, episodes: Episodes, packs: Packs, key: Key, source: Source)
    requires key in episodes && source in episodes[key] && KeepsSeason(key, source)
    ensures exists i :: 0 <= i < |Build(p, episodes, packs)|
                        && Build(p, episodes, packs)[i].number == key.season
                        && source in SeasonBag(Build(p, episodes, packs)[i])
  {
    hide Build, SeasonBag, PlacedIn, IsReached, AllItems;
    var seasons := Build(p, episodes, packs);
    FiledIsPlaced(p, episodes, packs, key, source);
    SeasonsAscend(p, episodes, packs);
    assert HasSeason(seasons, key.season);
    var i :| 0 <= i < |seasons| && seasons[i].number == key.season;
    BuiltSeasonShows(p, episodes, packs, i, source);
  }
}
