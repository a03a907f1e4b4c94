/** Projecting a file's (season, number) claim onto a provider's season structure: the claimed
    season's own window first, then the absolute numbering across the numbered seasons. */
module Alignment {
  import opened Wrappers

  datatype ProviderEpisode = ProviderEpisode(number: int, name: string, airDate: string)

  datatype ProviderSeason = ProviderSeason(number: int, name: string, episodeCount: int, episodes: seq<ProviderEpisode>)

  datatype Key = Key(season: int, episode: int)

  type Provider = seq<ProviderSeason>

  // ----- the tables -----

  /** The last season with a number wins, as in a Go map. */
  function ByNumber(p: Provider): map<int, ProviderSeason> {
    if p == [] then map[] else ByNumber(p[..|p| - 1])[p[|p| - 1].number := p[|p| - 1]]
  }

  /** Episodes of the numbered seasons; specials do not count. */
  function Total(p: Provider): int {
    if p == [] then 0
    else Total(p[..|p| - 1]) + if p[|p| - 1].number >= 1 then p[|p| - 1].episodeCount else 0
  }

  function Offsets(p: Provider): map<int, int> {
    if p == [] then map[]
    else if p[|p| - 1].number >= 1 then Offsets(p[..|p| - 1])[p[|p| - 1].number := Total(p[..|p| - 1])]
    else Offsets(p[..|p| - 1])
  }

  method BuildTables(p: Provider) returns (seasonByNumber: map<int, ProviderSeason>, offsets: map<int, int>, total: int)
    ensures seasonByNumber == ByNumber(p) && offsets == Offsets(p) && total == Total(p)
  {
    seasonByNumber, offsets, total := map[], map[], 0;
    for i := 0 to |p|
      invariant seasonByNumber == ByNumber(p[..i]) && offsets == Offsets(p[..i]) && total == Total(p[..i])
    {
      assert p[..i + 1][..i] == p[..i];
      if p[i].number >= 1 {
        offsets := offsets[p[i].number := total];
        total := total + p[i].episodeCount;
      }
      seasonByNumber := seasonByNumber[p[i].number := p[i]];
    }
    assert p[..|p|] == p;
  }

  function OffsetOf(offsets: map<int, int>, number: int): int {
    if number in offsets then offsets[number] else 0
  }

  // ----- align -----

  /** `n` may fall into this season by absolute number: seasonless claims anywhere, a claim of
      a season only in that season. */
  predicate Absorbs(offsets: map<int, int>, season: ProviderSeason, claimed: int, n: int) {
    && season.number >= 1
    && (claimed < 1 || season.number == claimed)
    && OffsetOf(offsets, season.number) < n <= OffsetOf(offsets, season.number) + season.episodeCount
  }

  function Search(p: Provider, offsets: map<int, int>, claimed: int, n: int, i: nat): Option<Key>
    requires i <= |p|
    decreases |p| - i
  {
    if i == |p| then None
    else if Absorbs(offsets, p[i], claimed, n) then Some(Key(p[i].number, n - OffsetOf(offsets, p[i].number)))
    else Search(p, offsets, claimed, n, i + 1)
  }

  predicate InOwnWindow(p: Provider, claimed: int, n: int) {
    claimed in ByNumber(p) && 1 <= n <= ByNumber(p)[claimed].episodeCount
  }

  function Align(p: Provider, claimed: int, n: int, explicit: bool): Option<Key> {
    if InOwnWindow(p, claimed, n) then Some(Key(claimed, n))
    else if explicit then None
    else Search(p, Offsets(p), claimed, n, 0)
  }

  method AlignLoop(
      p: Provider, seasonByNumber: map<int, ProviderSeason>, offsets: map<int, int>, claimed: int, n: int,
      explicit: bool)
    returns (r: Option<Key>)
    requires seasonByNumber == ByNumber(p) && offsets == Offsets(p)
    ensures r == Align(p, claimed, n, explicit)
  {
    if claimed in seasonByNumber && n >= 1 && n <= seasonByNumber[claimed].episodeCount {
      return Some(Key(claimed, n));
    }
    if explicit {
      return None;
    }
    for i := 0 to |p|
      invariant Search(p, offsets, claimed, n, 0) == Search(p, offsets, claimed, n, i)
    {
      if Absorbs(offsets, p[i], claimed, n) {
        return Some(Key(p[i].number, n - OffsetOf(offsets, p[i].number)));
      }
    }
    return None;
  }

  lemma {:induction false} SearchFinds(p: Provider, offsets: map<int, int>, claimed: int, n: int, i: nat)
    requires i <= |p|
    ensures Search(p, offsets, claimed, n, i).None?
      <==> forall j :: i <= j < |p| ==> !Absorbs(offsets, p[j], claimed, n)
    ensures Search(p, offsets, claimed, n, i).Some? ==>
      exists j :: i <= j < |p| && Absorbs(offsets, p[j], claimed, n)
        && Search(p, offsets, claimed, n, i).value == Key(p[j].number, n - OffsetOf(offsets, p[j].number))
    decreases |p| - i
  {
    if i < |p| && !Absorbs(offsets, p[i], claimed, n) {
      SearchFinds(p, offsets, claimed, n, i + 1);
    }
  }

  // ----- where a file may land -----

  /** A file never leaves the season it claims: one that claims season s >= 1 lands in s, an
      explicit one lands in the season it names, and every placed number is at least 1. */
  lemma NeverMovedToAnotherSeason(p: Provider, claimed: int, n: int, explicit: bool)
    requires Align(p, claimed, n, explicit).Some?
    ensures var k := Align(p, claimed, n, explicit).value;
      && k.episode >= 1
      && (claimed >= 1 || explicit ==> k.season == claimed)
      && (claimed < 1 && !InOwnWindow(p, claimed, n) ==> k.season >= 1)
  {
    SearchFinds(p, Offsets(p), claimed, n, 0);
  }

  // ----- absolute numbering is exact -----

  predicate WellNumbered(p: Provider) {
    && (forall i, j :: 0 <= i < j < |p| ==> p[i].number != p[j].number)
    && (forall i :: 0 <= i < |p| ==> p[i].episodeCount >= 0)
  }

  lemma WellNumberedPrefix(p: Provider, n: nat)
    requires WellNumbered(p) && n <= |p|
    ensures WellNumbered(p[..n])
  {
  }

  /** With distinct numbers each numbered season starts where the earlier ones end. */
  lemma {:induction false} OffsetIsPrefixTotal(p: Provider, i: nat)
    requires WellNumbered(p) && i < |p| && p[i].number >= 1
    ensures p[i].number in Offsets(p) && Offsets(p)[p[i].number] == Total(p[..i])
    decreases |p|
  {
    var init := p[..|p| - 1];
    if i < |p| - 1 {
      WellNumberedPrefix(p, |p| - 1);
      OffsetIsPrefixTotal(init, i);
      assert init[..i] == p[..i];
    }
  }

  lemma {:induction false} ByNumberFinds(p: Provider, i: nat)
    requires WellNumbered(p) && i < |p|
    ensures p[i].number in ByNumber(p) && ByNumber(p)[p[i].number] == p[i]
    decreases |p|
  {
    if i < |p| - 1 {
      WellNumberedPrefix(p, |p| - 1);
      ByNumberFinds(p[..|p| - 1], i);
    }
  }

  lemma {:induction false} TotalIsMonotone(p: Provider, i: nat, j: nat)
    requires WellNumbered(p) && i <= j <= |p|
    ensures 0 <= Total(p[..i]) <= Total(p[..j])
    decreases j
  {
    if i < j {
      assert p[..j][..j - 1] == p[..j - 1];
      TotalIsMonotone(p, i, j - 1);
    } else if i > 0 {
      assert p[..i][..i - 1] == p[..i - 1];
      TotalIsMonotone(p, i - 1, i - 1);
    }
  }

  /** Season `i` owns the absolute number `n`. */
  predicate Owns(p: Provider, i: nat, n: int)
    requires i < |p|
  {
    p[i].number >= 1 && Total(p[..i]) < n <= Total(p[..i]) + p[i].episodeCount
  }

  /** The windows of the numbered seasons partition 1..total. */
  lemma WindowsPartition(p: Provider, n: int)
    requires WellNumbered(p)
    ensures 1 <= n <= Total(p) <==> exists i :: 0 <= i < |p| && Owns(p, i, n)
    ensures forall i, j :: 0 <= i < j < |p| ==> !(Owns(p, i, n) && Owns(p, j, n))
  {
    assert p[..|p|] == p;
    forall i | 0 <= i < |p| && Owns(p, i, n) ensures 1 <= n <= Total(p[..i + 1]) <= Total(p) {
      assert p[..i + 1][..i] == p[..i];
      TotalIsMonotone(p, 0, i);
      TotalIsMonotone(p, i + 1, |p|);
    }
    forall i, j | 0 <= i < j < |p| ensures !(Owns(p, i, n) && Owns(p, j, n)) {
      assert p[..i + 1][..i] == p[..i];
      TotalIsMonotone(p, i + 1, j);
    }
    if 1 <= n <= Total(p) {
      var _ := FindOwner(p, n, |p|);
    }
  }

  lemma {:induction false} FindOwner(p: Provider, n: int, m: nat) returns (i: nat)
    requires WellNumbered(p) && m <= |p| && 1 <= n <= Total(p[..m])
    ensures i < m && Owns(p, i, n)
    decreases m
  {
    assert p[..m][..m - 1] == p[..m - 1];
    if n <= Total(p[..m - 1]) {
      i := FindOwner(p, n, m - 1);
    } else {
      i := m - 1;
    }
  }

  lemma AbsorbsIsOwns(p: Provider, claimed: int, n: int, i: nat)
    requires WellNumbered(p) && i < |p|
    ensures Absorbs(Offsets(p), p[i], claimed, n) <==> Owns(p, i, n) && (claimed < 1 || p[i].number == claimed)
  {
    if p[i].number >= 1 {
      OffsetIsPrefixTotal(p, i);
    }
  }

  /** A season-less number that season 0 does not claim is placed exactly when it lies in
      1..total, in the season that owns it, with offset + relative number == n. */
  lemma AbsoluteIsExact(p: Provider, n: int)
    requires WellNumbered(p) && !InOwnWindow(p, 0, n)
    ensures Align(p, 0, n, false).Some? <==> 1 <= n <= Total(p)
    ensures Align(p, 0, n, false).Some? ==>
      exists i :: 0 <= i < |p| && Owns(p, i, n) && Align(p, 0, n, false).value == Key(p[i].number, n - Total(p[..i]))
  {
    SearchFinds(p, Offsets(p), 0, n, 0);
    WindowsPartition(p, n);
    forall i | 0 <= i < |p| ensures Absorbs(Offsets(p), p[i], 0, n) <==> Owns(p, i, n) {
      AbsorbsIsOwns(p, 0, n, i);
    }
    if Align(p, 0, n, false).Some? {
      var j :| 0 <= j < |p| && Absorbs(Offsets(p), p[j], 0, n)
        && Search(p, Offsets(p), 0, n, 0).value == Key(p[j].number, n - OffsetOf(Offsets(p), p[j].number));
      OffsetIsPrefixTotal(p, j);
      assert Owns(p, j, n);
    }
  }

  /** One to one: two numbers never share a provider episode. */
  lemma AbsoluteIsInjective(p: Provider, n: int, m: int)
    requires WellNumbered(p) && !InOwnWindow(p, 0, n) && !InOwnWindow(p, 0, m)
    requires Align(p, 0, n, false).Some? && Align(p, 0, n, false) == Align(p, 0, m, false)
    ensures n == m
  {
    AbsoluteIsExact(p, n);
    AbsoluteIsExact(p, m);
    var i :| 0 <= i < |p| && Owns(p, i, n) && Align(p, 0, n, false).value == Key(p[i].number, n - Total(p[..i]));
    var j :| 0 <= j < |p| && Owns(p, j, m) && Align(p, 0, m, false).value == Key(p[j].number, m - Total(p[..j]));
    assert i == j;
  }

  /** Onto: every provider episode of a numbered season has its absolute number. */
  lemma AbsoluteIsOnto(p: Provider, i: nat, relative: int)
    requires WellNumbered(p) && i < |p| && p[i].number >= 1 && 1 <= relative <= p[i].episodeCount
    requires !InOwnWindow(p, 0, Total(p[..i]) + relative)
    ensures Align(p, 0, Total(p[..i]) + relative, false) == Some(Key(p[i].number, relative))
  {
    var n := Total(p[..i]) + relative;
    assert Owns(p, i, n);
    AbsoluteIsExact(p, n);
    WindowsPartition(p, n);
    var j :| 0 <= j < |p| && Owns(p, j, n) && Align(p, 0, n, false).value == Key(p[j].number, n - Total(p[..j]));
    assert j == i;
  }

  /** A claim of season s >= 1 is placed exactly when its number is relative to s or is an
      absolute number that s owns. */
  lemma ClaimIsExact(p: Provider, i: nat, n: int)
    requires WellNumbered(p) && i < |p| && p[i].number >= 1
    ensures Align(p, p[i].number, n, false) ==
      if 1 <= n <= p[i].episodeCount then Some(Key(p[i].number, n))
      else if Owns(p, i, n) then Some(Key(p[i].number, n - Total(p[..i])))
      else None
  {
    ByNumberFinds(p, i);
    OffsetIsPrefixTotal(p, i);
    SearchFinds(p, Offsets(p), p[i].number, n, 0);
    forall j | 0 <= j < |p| ensures Absorbs(Offsets(p), p[j], p[i].number, n) <==> (j == i && Owns(p, i, n)) {
      AbsorbsIsOwns(p, p[i].number, n, j);
    }
  }

  /** A number filed under season 0 lands in the provider's season 0 when it fits there; a file
      that says so itself lands nowhere else. */
  lemma SpecialIsExact(p: Provider, i: nat, n: int, explicit: bool)
    requires WellNumbered(p) && i < |p| && p[i].number == 0
    ensures 1 <= n <= p[i].episodeCount ==> Align(p, 0, n, explicit) == Some(Key(0, n))
    ensures explicit && !(1 <= n <= p[i].episodeCount) ==> Align(p, 0, n, explicit) == None
  {
    ByNumberFinds(p, i);
  }

  lemma {:induction false} ByNumberHas(p: Provider, number: int)
    requires forall i :: 0 <= i < |p| ==> p[i].number != number
    ensures number !in ByNumber(p)
  {
    if p != [] {
      assert forall i :: 0 <= i < |p| - 1 ==> p[..|p| - 1][i] == p[i];
      ByNumberHas(p[..|p| - 1], number);
    }
  }

  /** A season the provider does not have takes no file of its own; specials and claims of a
      season go nowhere else. */
  lemma MissingSeasonIsExact(p: Provider, claimed: int, n: int, explicit: bool)
    requires forall i :: 0 <= i < |p| ==> p[i].number != claimed
    requires claimed >= 1 || explicit
    ensures Align(p, claimed, n, explicit) == None
  {
    ByNumberHas(p, claimed);
    SearchFinds(p, Offsets(p), claimed, n, 0);
  }
}
