/** Canonical title identity: a two-pass resolver over the releases of one family, and the
    order-free definition it implements. */
module TitleIdentity {

  datatype MediaKind = Movie | Series | Other(name: string)

  datatype Evidence = Evidence(releaseId: string, imdbId: string, year: int)

  /** CatalogTitleID hashes one of two keys; the hash is taken as injective on its key. */
  datatype TitleId = ByImdb(kind: MediaKind, imdbId: string) | ByTitle(kind: MediaKind, sortTitle: string, year: int)

  // ----- normalising an IMDb id -----

  predicate IsSpace(c: char) {
    c == ' ' || 9 <= c as int <= 13
  }

  function TrimLeft(s: string): string {
    if s != "" && IsSpace(s[0]) then TrimLeft(s[1..]) else s
  }

  function TrimRight(s: string): string {
    if s != "" && IsSpace(s[|s| - 1]) then TrimRight(s[..|s| - 1]) else s
  }

  function Lower(c: char): char {
    if 'A' <= c <= 'Z' then c - 'A' + 'a' else c
  }

  function ToLower(s: string): (t: string)
    ensures |t| == |s|
  {
    if s == "" then "" else [Lower(s[0])] + ToLower(s[1..])
  }

  /** Trimmed and lowered; empty when the release carries no id. */
  function NormalId(ev: Evidence): string {
    ToLower(TrimRight(TrimLeft(ev.imdbId)))
  }

  lemma {:induction false} TrimLeftSpaces(spaces: string, rest: string)
    requires forall i :: 0 <= i < |spaces| ==> spaces[i] == ' ' || 9 <= spaces[i] as int <= 13
    ensures TrimLeft(spaces + rest) == TrimLeft(rest)
    decreases |spaces|
  {
    if spaces == "" {
      assert spaces + rest == rest;
    } else {
      assert (spaces + rest)[1..] == spaces[1..] + rest;
      TrimLeftSpaces(spaces[1..], rest);
    }
  }

  lemma {:induction false} TrimRightSpaces(rest: string, spaces: string)
    requires forall i :: 0 <= i < |spaces| ==> spaces[i] == ' ' || 9 <= spaces[i] as int <= 13
    ensures TrimRight(rest + spaces) == TrimRight(rest)
    decreases |spaces|
  {
    if spaces == "" {
      assert rest + spaces == rest;
    } else {
      var init := spaces[..|spaces| - 1];
      assert (rest + spaces)[..|rest + spaces| - 1] == rest + init;
      TrimRightSpaces(rest, init);
    }
  }

  lemma {:induction false} ToLowerAt(s: string, i: nat)
    requires i < |s|
    ensures ToLower(s)[i] == if 65 <= s[i] as int <= 90 then (s[i] as int + 32) as char else s[i]
    decreases |s|
  {
    if i > 0 {
      ToLowerAt(s[1..], i - 1);
    }
  }

  /** Surrounding white space and letter case do not matter, and nothing else is changed. */
  lemma NormalIdMeans(ev: Evidence, before: string, core: string, after: string)
    requires ev.imdbId == before + core + after
    requires forall i :: 0 <= i < |before| ==> before[i] == ' ' || 9 <= before[i] as int <= 13
    requires forall i :: 0 <= i < |after| ==> after[i] == ' ' || 9 <= after[i] as int <= 13
    requires core != "" ==> core[0] != ' ' && !(9 <= core[0] as int <= 13)
    requires core != "" ==> core[|core| - 1] != ' ' && !(9 <= core[|core| - 1] as int <= 13)
    ensures |NormalId(ev)| == |core|
    ensures forall i :: 0 <= i < |core| ==>
      NormalId(ev)[i] == if 65 <= core[i] as int <= 90 then (core[i] as int + 32) as char else core[i]
  {
    assert before + core + after == before + (core + after);
    TrimLeftSpaces(before, core + after);
    if core == "" {
      assert core + after == after + "";
      TrimLeftSpaces(after, "");
    } else {
      assert (core + after)[0] == core[0];
      TrimRightSpaces(core, after);
    }
    forall i | 0 <= i < |core|
      ensures ToLower(core)[i] == if 65 <= core[i] as int <= 90 then (core[i] as int + 32) as char else core[i]
    {
      ToLowerAt(core, i);
    }
  }

  // ----- the order-free definition -----

  function Ids(evidence: set<Evidence>): set<string> {
    set ev | ev in evidence && NormalId(ev) != "" :: NormalId(ev)
  }

  function KnownYears(evidence: set<Evidence>, id: string): set<int> {
    set ev | ev in evidence && NormalId(ev) == id && ev.year > 0 :: ev.year
  }

  /** The ids whose releases do not contradict the year. */
  function Candidates(evidence: set<Evidence>, year: int): set<string> {
    set id | id in Ids(evidence) && (KnownYears(evidence, id) == {} || year in KnownYears(evidence, id))
  }

  predicate ByYear(kind: MediaKind, year: int) {
    kind != Series && year > 0
  }

  /** Whom an id-less release may join: every known id, or those that fit its year. */
  function Joinable(kind: MediaKind, evidence: set<Evidence>, year: int): set<string> {
    if ByYear(kind, year) then Candidates(evidence, year) else Ids(evidence)
  }

  /** The title of one release, from the set of all the evidence. */
  ghost predicate IsTitleOf(kind: MediaKind, sortTitle: string, evidence: set<Evidence>, ev: Evidence, title: TitleId) {
    if NormalId(ev) != "" then title == ByImdb(kind, NormalId(ev))
    else
      var joinable := Joinable(kind, evidence, ev.year);
      && (forall id :: joinable == {id} ==> title == ByImdb(kind, id))
      && ((forall id :: joinable != {id}) ==> title == ByTitle(kind, sortTitle, ev.year))
  }

  /** At most one title satisfies the definition. */
  lemma TitleIsUnique(kind: MediaKind, sortTitle: string, evidence: set<Evidence>, ev: Evidence, a: TitleId, b: TitleId)
    requires IsTitleOf(kind, sortTitle, evidence, ev, a) && IsTitleOf(kind, sortTitle, evidence, ev, b)
    ensures a == b
  {
    if NormalId(ev) == "" {
      var joinable := Joinable(kind, evidence, ev.year);
      if id :| joinable == {id} {
        assert a == ByImdb(kind, id);
      }
    }
  }

  // ----- the resolver -----

  datatype Anchor = Anchor(imdbId: string, canonicalId: TitleId, knownYears: set<int>)

  function SetOf(evidence: seq<Evidence>): set<Evidence> {
    set ev | ev in evidence
  }

  predicate DistinctReleases(evidence: seq<Evidence>) {
    forall i, j :: 0 <= i < j < |evidence| ==> evidence[i].releaseId != evidence[j].releaseId
  }

  ghost predicate AnchorIsSound(kind: MediaKind, a: Anchor, evidence: set<Evidence>) {
    && a.imdbId in Ids(evidence)
    && a.canonicalId == ByImdb(kind, a.imdbId)
    && a.knownYears == KnownYears(evidence, a.imdbId)
  }

  predicate AnchorsAreDistinct(anchors: seq<Anchor>) {
    forall i, j :: 0 <= i < j < |anchors| ==> anchors[i].imdbId != anchors[j].imdbId
  }

  predicate HasAnchor(anchors: seq<Anchor>, id: string) {
    exists i :: 0 <= i < |anchors| && anchors[i].imdbId == id
  }

  /** The anchors list the ids of the evidence seen so far, each once, with its years. */
  ghost predicate AnchorsOf(kind: MediaKind, anchors: seq<Anchor>, evidence: set<Evidence>) {
    && (forall i :: 0 <= i < |anchors| ==> AnchorIsSound(kind, anchors[i], evidence))
    && AnchorsAreDistinct(anchors)
    && (forall id :: id in Ids(evidence) ==> HasAnchor(anchors, id))
  }

  /** The anchor index of pass 1. */
  predicate Indexed(anchors: seq<Anchor>, index: map<string, nat>) {
    && (forall id :: id in index ==> index[id] < |anchors| && anchors[index[id]].imdbId == id)
    && (forall i :: 0 <= i < |anchors| ==> anchors[i].imdbId in index)
  }

  function YearsOf(ev: Evidence): set<int> {
    if ev.year > 0 then {ev.year} else {}
  }

  function AddYear(a: Anchor, ev: Evidence): Anchor {
    a.(knownYears := a.knownYears + YearsOf(ev))
  }

  /** The anchors after one release with an id. */
  predicate Records(kind: MediaKind, anchors: seq<Anchor>, ev: Evidence, after: seq<Anchor>) {
    var id := NormalId(ev);
    if HasAnchor(anchors, id) then
      && |after| == |anchors|
      && forall i :: 0 <= i < |anchors| ==>
           after[i] == if anchors[i].imdbId == id then AddYear(anchors[i], ev) else anchors[i]
    else after == anchors + [Anchor(id, ByImdb(kind, id), YearsOf(ev))]
  }

  method RecordAnchor(kind: MediaKind, anchors: seq<Anchor>, index: map<string, nat>, ev: Evidence)
    returns (anchors': seq<Anchor>, index': map<string, nat>)
    requires Indexed(anchors, index) && AnchorsAreDistinct(anchors)
    ensures Indexed(anchors', index') && Records(kind, anchors, ev, anchors')
  {
    var id := NormalId(ev);
    anchors', index' := anchors, index;
    assert HasAnchor(anchors, id) <==> id in index;
    assert {} + {ev.year} == {ev.year};
    if id !in index {
      index' := index[id := |anchors|];
      anchors' := anchors + [Anchor(id, ByImdb(kind, id), {})];
    }
    var idx := index'[id];
    if ev.year > 0 {
      anchors' := anchors'[idx := anchors'[idx].(knownYears := anchors'[idx].knownYears + {ev.year})];
    }
    assert id !in index ==> anchors' == anchors + [anchors'[|anchors|]];
  }

  lemma IdsAfter(evidence: set<Evidence>, ev: Evidence)
    ensures Ids(evidence + {ev}) == Ids(evidence) + (if NormalId(ev) == "" then {} else {NormalId(ev)})
    ensures NormalId(ev) != "" && NormalId(ev) !in Ids(evidence) ==> KnownYears(evidence, NormalId(ev)) == {}
  {
    var after := evidence + {ev};
    forall id | id in Ids(evidence) ensures id in Ids(after) {
      var e :| e in evidence && NormalId(e) != "" && NormalId(e) == id;
      assert e in after;
    }
    assert ev in after;
  }

  lemma YearsAfter(evidence: set<Evidence>, ev: Evidence, id: string)
    ensures KnownYears(evidence + {ev}, id)
      == KnownYears(evidence, id) + (if NormalId(ev) == id then YearsOf(ev) else {})
  {
    var after := evidence + {ev};
    forall y | y in KnownYears(evidence, id) ensures y in KnownYears(after, id) {
      var e :| e in evidence && NormalId(e) == id && e.year > 0 && e.year == y;
      assert e in after;
    }
    assert ev in after;
  }

  lemma SoundStep(
      kind: MediaKind, anchors: seq<Anchor>, evidence: set<Evidence>, ev: Evidence, after: seq<Anchor>, i: nat)
    requires AnchorsOf(kind, anchors, evidence) && NormalId(ev) != "" && Records(kind, anchors, ev, after)
    requires i < |after|
    ensures AnchorIsSound(kind, after[i], evidence + {ev})
  {
    IdsAfter(evidence, ev);
    YearsAfter(evidence, ev, after[i].imdbId);
    assert NormalId(ev) in Ids(evidence) ==> HasAnchor(anchors, NormalId(ev));
    if i < |anchors| {
      assert AnchorIsSound(kind, anchors[i], evidence);
    }
  }

  lemma CompleteStep(
      kind: MediaKind, anchors: seq<Anchor>, evidence: set<Evidence>, ev: Evidence, after: seq<Anchor>, id: string)
    requires AnchorsOf(kind, anchors, evidence) && NormalId(ev) != "" && Records(kind, anchors, ev, after)
    requires id in Ids(evidence + {ev})
    ensures HasAnchor(after, id)
  {
    IdsAfter(evidence, ev);
    if HasAnchor(anchors, id) {
      var i :| 0 <= i < |anchors| && anchors[i].imdbId == id;
      assert after[i].imdbId == id;
    } else {
      assert after[|anchors|].imdbId == id;
    }
  }

  /** One release with an id keeps the anchors in step with the evidence. */
  lemma AnchorStep(kind: MediaKind, anchors: seq<Anchor>, evidence: set<Evidence>, ev: Evidence, after: seq<Anchor>)
    requires AnchorsOf(kind, anchors, evidence) && NormalId(ev) != "" && Records(kind, anchors, ev, after)
    ensures AnchorsOf(kind, after, evidence + {ev})
  {
    forall i | 0 <= i < |after| ensures AnchorIsSound(kind, after[i], evidence + {ev}) {
      SoundStep(kind, anchors, evidence, ev, after, i);
    }
    forall id | id in Ids(evidence + {ev}) ensures HasAnchor(after, id) {
      CompleteStep(kind, anchors, evidence, ev, after, id);
    }
  }

  lemma SkipIdless(kind: MediaKind, anchors: seq<Anchor>, evidence: set<Evidence>, ev: Evidence)
    requires AnchorsOf(kind, anchors, evidence) && NormalId(ev) == ""
    ensures AnchorsOf(kind, anchors, evidence + {ev})
  {
    IdsAfter(evidence, ev);
    forall i | 0 <= i < |anchors| ensures AnchorIsSound(kind, anchors[i], evidence + {ev}) {
      YearsAfter(evidence, ev, anchors[i].imdbId);
    }
  }

  /** Pass 1: explicit ids open anchors and collect their years. */
  method CollectAnchors(kind: MediaKind, evidence: seq<Evidence>) returns (anchors: seq<Anchor>)
    ensures AnchorsOf(kind, anchors, SetOf(evidence))
  {
    anchors := [];
    var anchorIndex: map<string, nat> := map[];
    for n := 0 to |evidence|
      invariant AnchorsOf(kind, anchors, SetOf(evidence[..n]))
      invariant Indexed(anchors, anchorIndex)
    {
      var ev := evidence[n];
      assert SetOf(evidence[..n + 1]) == SetOf(evidence[..n]) + {ev};
      if NormalId(ev) == "" {
        SkipIdless(kind, anchors, SetOf(evidence[..n]), ev);
      } else {
        var after, index := RecordAnchor(kind, anchors, anchorIndex, ev);
        AnchorStep(kind, anchors, SetOf(evidence[..n]), ev, after);
        anchors, anchorIndex := after, index;
      }
    }
    assert evidence[..|evidence|] == evidence;
  }

  // ----- pass 2 -----

  predicate Fits(a: Anchor, year: int) {
    a.knownYears == {} || year in a.knownYears
  }

  datatype Match = NoMatch | One(anchor: nat)

  /** What the scan found out about the anchors that fit a year. */
  predicate Scanned(anchors: seq<Anchor>, year: int, m: Match) {
    if m.One? then
      && m.anchor < |anchors| && Fits(anchors[m.anchor], year)
      && forall i :: 0 <= i < |anchors| && Fits(anchors[i], year) ==> i == m.anchor
    else
      || (forall i :: 0 <= i < |anchors| ==> !Fits(anchors[i], year))
      || (exists i, j :: 0 <= i < j < |anchors| && Fits(anchors[i], year) && Fits(anchors[j], year))
  }

  /** The scan over the anchors, abandoned at the second fitting one. */
  method MatchYear(anchors: seq<Anchor>, year: int) returns (m: Match)
    ensures Scanned(anchors, year, m)
  {
    m := NoMatch;
    for i := 0 to |anchors|
      invariant m.NoMatch? ==> forall k :: 0 <= k < i ==> !Fits(anchors[k], year)
      invariant m.One? ==>
        && m.anchor < i && Fits(anchors[m.anchor], year)
        && forall k :: 0 <= k < i && Fits(anchors[k], year) ==> k == m.anchor
    {
      if Fits(anchors[i], year) {
        if m.One? {
          m := NoMatch;
          return;
        }
        m := One(i);
      }
    }
  }

  /** The single-anchor test of pass 2 picks the same id as the definition. */
  lemma AllIdsCase(kind: MediaKind, anchors: seq<Anchor>, evidence: set<Evidence>)
    requires AnchorsOf(kind, anchors, evidence)
    ensures |anchors| == 1 ==> Ids(evidence) == {anchors[0].imdbId}
    ensures |anchors| != 1 ==> forall id :: Ids(evidence) != {id}
  {
    if |anchors| == 1 {
      assert forall id :: id in Ids(evidence) ==> HasAnchor(anchors, id);
      assert AnchorIsSound(kind, anchors[0], evidence);
    } else if |anchors| > 1 {
      assert AnchorIsSound(kind, anchors[0], evidence) && AnchorIsSound(kind, anchors[1], evidence);
      assert anchors[0].imdbId != anchors[1].imdbId;
    }
  }

  lemma FitsIsCandidate(kind: MediaKind, anchors: seq<Anchor>, evidence: set<Evidence>, year: int, i: nat)
    requires AnchorsOf(kind, anchors, evidence) && i < |anchors|
    ensures Fits(anchors[i], year) <==> anchors[i].imdbId in Candidates(evidence, year)
  {
    assert AnchorIsSound(kind, anchors[i], evidence);
  }

  /** The scan's verdict is the definition's. */
  lemma YearCase(kind: MediaKind, anchors: seq<Anchor>, evidence: set<Evidence>, year: int, m: Match)
    requires AnchorsOf(kind, anchors, evidence)
    requires Scanned(anchors, year, m)
    ensures m.One? ==> Candidates(evidence, year) == {anchors[m.anchor].imdbId}
    ensures m.NoMatch? ==> forall id :: Candidates(evidence, year) != {id}
  {
    forall i | 0 <= i < |anchors|
      ensures Fits(anchors[i], year) <==> anchors[i].imdbId in Candidates(evidence, year)
    {
      FitsIsCandidate(kind, anchors, evidence, year, i);
    }
    forall id | id in Candidates(evidence, year)
      ensures exists i :: 0 <= i < |anchors| && anchors[i].imdbId == id && Fits(anchors[i], year)
    {
      assert HasAnchor(anchors, id);
      var i :| 0 <= i < |anchors| && anchors[i].imdbId == id;
    }
  }

  /** The title of an id-less release. */
  method ResolveIdless(
      kind: MediaKind, sortTitle: string, anchors: seq<Anchor>, ghost evidence: set<Evidence>, ev: Evidence)
    returns (title: TitleId)
    requires AnchorsOf(kind, anchors, evidence) && NormalId(ev) == ""
    ensures IsTitleOf(kind, sortTitle, evidence, ev, title)
  {
    AllIdsCase(kind, anchors, evidence);
    title := ByTitle(kind, sortTitle, ev.year);
    if kind == Series {
      if |anchors| == 1 {
        title := anchors[0].canonicalId;
      }
    } else if ev.year > 0 {
      var m := MatchYear(anchors, ev.year);
      YearCase(kind, anchors, evidence, ev.year, m);
      if m.One? {
        title := anchors[m.anchor].canonicalId;
      }
    } else if |anchors| == 1 {
      title := anchors[0].canonicalId;
    }
  }

  ghost predicate Resolved(
      kind: MediaKind, sortTitle: string, evidence: set<Evidence>, ev: Evidence, results: map<string, TitleId>)
  {
    ev.releaseId in results && IsTitleOf(kind, sortTitle, evidence, ev, results[ev.releaseId])
  }

  ghost predicate ResolvesAll(
      kind: MediaKind, sortTitle: string, evidence: seq<Evidence>, results: map<string, TitleId>)
  {
    && (forall i :: 0 <= i < |evidence| ==> Resolved(kind, sortTitle, SetOf(evidence), evidence[i], results))
    && (forall id :: id in results ==> exists i :: 0 <= i < |evidence| && evidence[i].releaseId == id)
  }

  method ResolveOne(
      kind: MediaKind, sortTitle: string, anchors: seq<Anchor>, ghost evidence: set<Evidence>, ev: Evidence)
    returns (title: TitleId)
    requires AnchorsOf(kind, anchors, evidence)
    ensures IsTitleOf(kind, sortTitle, evidence, ev, title)
  {
    if NormalId(ev) == "" {
      title := ResolveIdless(kind, sortTitle, anchors, evidence, ev);
    } else {
      title := ByImdb(kind, NormalId(ev));
    }
  }

  /** ResolveFamilyTitleIDs: every release of the family gets its title, and no other does. */
  method ResolveFamilyTitleIDs(kind: MediaKind, sortTitle: string, evidence: seq<Evidence>)
    returns (results: map<string, TitleId>)
    requires DistinctReleases(evidence)
    ensures ResolvesAll(kind, sortTitle, evidence, results)
  {
    hide IsTitleOf, AnchorsOf, Resolved;
    var anchors := CollectAnchors(kind, evidence);
    ghost var all := SetOf(evidence);
    results := map[];
    for n := 0 to |evidence|
      invariant forall i :: 0 <= i < n ==> Resolved(kind, sortTitle, all, evidence[i], results)
      invariant forall id :: id in results ==> exists i :: 0 <= i < n && evidence[i].releaseId == id
    {
      var title := ResolveOne(kind, sortTitle, anchors, all, evidence[n]);
      OneMoreResult(kind, sortTitle, all, evidence, n, results, title);
      results := results[evidence[n].releaseId := title];
    }
  }

  lemma OneMoreResult(
      kind: MediaKind, sortTitle: string, all: set<Evidence>, evidence: seq<Evidence>, n: nat,
      before: map<string, TitleId>, title: TitleId)
    requires DistinctReleases(evidence) && n < |evidence| && IsTitleOf(kind, sortTitle, all, evidence[n], title)
    requires forall i :: 0 <= i < n ==> Resolved(kind, sortTitle, all, evidence[i], before)
    ensures forall i :: 0 <= i <= n ==>
      Resolved(kind, sortTitle, all, evidence[i], before[evidence[n].releaseId := title])
  {
    hide IsTitleOf;
    forall i | 0 <= i < n ensures Resolved(kind, sortTitle, all, evidence[i], before[evidence[n].releaseId := title]) {
      assert Resolved(kind, sortTitle, all, evidence[i], before);
    }
  }

  // ----- what the definition promises -----

  lemma PermutationHasSameSet(a: seq<Evidence>, b: seq<Evidence>)
    requires multiset(a) == multiset(b)
    ensures SetOf(a) == SetOf(b)
  {
    assert forall ev :: ev in a <==> ev in multiset(a);
    assert forall ev :: ev in b <==> ev in multiset(b);
  }

  /** Order independence: the resolver's results for two orders of the same evidence are equal. */
  lemma OrderDoesNotMatter(kind: MediaKind, sortTitle: string, a: seq<Evidence>, b: seq<Evidence>,
      resultsA: map<string, TitleId>, resultsB: map<string, TitleId>)
    requires multiset(a) == multiset(b)
    requires ResolvesAll(kind, sortTitle, a, resultsA) && ResolvesAll(kind, sortTitle, b, resultsB)
    ensures resultsA == resultsB
  {
    PermutationHasSameSet(a, b);
    SameTitles(kind, sortTitle, a, b, resultsA, resultsB);
    SameTitles(kind, sortTitle, b, a, resultsB, resultsA);
  }

  lemma SameTitles(kind: MediaKind, sortTitle: string, a: seq<Evidence>, b: seq<Evidence>,
      resultsA: map<string, TitleId>, resultsB: map<string, TitleId>)
    requires SetOf(a) == SetOf(b)
    requires ResolvesAll(kind, sortTitle, a, resultsA) && ResolvesAll(kind, sortTitle, b, resultsB)
    ensures forall id :: id in resultsA ==> id in resultsB && resultsA[id] == resultsB[id]
  {
    forall id | id in resultsA ensures id in resultsB && resultsA[id] == resultsB[id] {
      var i :| 0 <= i < |a| && a[i].releaseId == id;
      assert a[i] in SetOf(a);
      var j :| 0 <= j < |b| && b[j] == a[i];
      assert Resolved(kind, sortTitle, SetOf(a), a[i], resultsA) && Resolved(kind, sortTitle, SetOf(b), b[j], resultsB);
      TitleIsUnique(kind, sortTitle, SetOf(a), a[i], resultsA[id], resultsB[id]);
    }
  }

  /** What the resolver's results say of one release of the family. */
  lemma ResultIsTitle(
      kind: MediaKind, sortTitle: string, evidence: seq<Evidence>, results: map<string, TitleId>, ev: Evidence)
    requires ResolvesAll(kind, sortTitle, evidence, results) && ev in evidence
    ensures ev.releaseId in results && IsTitleOf(kind, sortTitle, SetOf(evidence), ev, results[ev.releaseId])
  {
    var i :| 0 <= i < |evidence| && evidence[i] == ev;
    assert Resolved(kind, sortTitle, SetOf(evidence), evidence[i], results);
  }

  /** Releases with ids share a title in the results exactly when their normalised ids are equal. */
  lemma SameIdSameTitle(
      kind: MediaKind, sortTitle: string, evidence: seq<Evidence>,
      results: map<string, TitleId>, a: Evidence, b: Evidence)
    requires ResolvesAll(kind, sortTitle, evidence, results) && a in evidence && b in evidence
    requires NormalId(a) != "" && NormalId(b) != ""
    ensures a.releaseId in results && b.releaseId in results
    ensures results[a.releaseId] == results[b.releaseId] <==> NormalId(a) == NormalId(b)
  {
    ResultIsTitle(kind, sortTitle, evidence, results, a);
    ResultIsTitle(kind, sortTitle, evidence, results, b);
  }

  lemma IdlessAddNothing(evidence: set<Evidence>, extra: set<Evidence>)
    requires forall ev :: ev in extra ==> NormalId(ev) == ""
    ensures Ids(evidence + extra) == Ids(evidence)
    ensures forall id :: id != "" ==> KnownYears(evidence + extra, id) == KnownYears(evidence, id)
  {
    forall id | id in Ids(evidence) ensures id in Ids(evidence + extra) {
      var e :| e in evidence && NormalId(e) != "" && NormalId(e) == id;
      assert e in evidence + extra;
    }
    forall id: string, y | id != "" && y in KnownYears(evidence, id) ensures y in KnownYears(evidence + extra, id) {
      var e :| e in evidence && NormalId(e) == id && e.year > 0 && e.year == y;
      assert e in evidence + extra;
    }
  }

  lemma SameTitleWithout(
      kind: MediaKind, sortTitle: string, evidence: set<Evidence>,
      extra: set<Evidence>, ev: Evidence, x: TitleId, y: TitleId)
    requires forall e :: e in extra ==> NormalId(e) == ""
    requires IsTitleOf(kind, sortTitle, evidence, ev, x) && IsTitleOf(kind, sortTitle, evidence + extra, ev, y)
    ensures x == y
  {
    IdlessAddNothing(evidence, extra);
    assert Joinable(kind, evidence + extra, ev.year) == Joinable(kind, evidence, ev.year) by {
      forall id | id in Ids(evidence) ensures id != "" {
      }
    }
    TitleIsUnique(kind, sortTitle, evidence, ev, x, y);
  }

  /** Adding or removing id-less releases, in any order and place, never changes the result for
      any release that stays. */
  lemma IdlessNeverMatter(
      kind: MediaKind, sortTitle: string, less: seq<Evidence>, more: seq<Evidence>,
      resultsLess: map<string, TitleId>, resultsMore: map<string, TitleId>)
    requires ResolvesAll(kind, sortTitle, less, resultsLess) && ResolvesAll(kind, sortTitle, more, resultsMore)
    requires forall ev :: ev in less ==> ev in more
    requires forall ev :: ev in more && ev !in less ==> NormalId(ev) == ""
    ensures forall id :: id in resultsLess ==> id in resultsMore && resultsMore[id] == resultsLess[id]
  {
    var extra := SetOf(more) - SetOf(less);
    assert SetOf(less) + extra == SetOf(more);
    forall id | id in resultsLess ensures id in resultsMore && resultsMore[id] == resultsLess[id] {
      var i :| 0 <= i < |less| && less[i].releaseId == id;
      ResultIsTitle(kind, sortTitle, less, resultsLess, less[i]);
      ResultIsTitle(kind, sortTitle, more, resultsMore, less[i]);
      SameTitleWithout(kind, sortTitle, SetOf(less), extra, less[i], resultsLess[id], resultsMore[id]);
    }
  }

  /** Whom an id-less release may join: an id of the family; for a release with a year, outside
      series, only one that is seen without a year or with the same one. */
  ghost predicate MayJoin(kind: MediaKind, evidence: seq<Evidence>, ev: Evidence, id: string) {
    && id != "" && (exists i :: 0 <= i < |evidence| && NormalId(evidence[i]) == id)
    && (|| kind == Series || ev.year <= 0
        || (forall i :: 0 <= i < |evidence| && NormalId(evidence[i]) == id ==> evidence[i].year <= 0)
        || (exists i :: 0 <= i < |evidence| && NormalId(evidence[i]) == id && evidence[i].year == ev.year))
  }

  lemma KnownYearsMean(evidence: seq<Evidence>, id: string, year: int)
    ensures year in KnownYears(SetOf(evidence), id)
      <==> year > 0 && exists i :: 0 <= i < |evidence| && NormalId(evidence[i]) == id && evidence[i].year == year
  {
    hide NormalId;
    if i :| 0 <= i < |evidence| && NormalId(evidence[i]) == id && evidence[i].year == year && year > 0 {
      assert evidence[i] in SetOf(evidence);
    }
  }

  lemma IdsMean(evidence: seq<Evidence>, id: string)
    ensures id in Ids(SetOf(evidence)) <==> id != "" && exists i :: 0 <= i < |evidence| && NormalId(evidence[i]) == id
  {
    hide NormalId;
    if i :| 0 <= i < |evidence| && NormalId(evidence[i]) == id && id != "" {
      assert evidence[i] in SetOf(evidence);
    }
  }

  lemma JoinableMeans(kind: MediaKind, evidence: seq<Evidence>, ev: Evidence, id: string)
    ensures id in Joinable(kind, SetOf(evidence), ev.year) <==> MayJoin(kind, evidence, ev, id)
  {
    IdsMean(evidence, id);
    KnownYearsMean(evidence, id, ev.year);
    var years := KnownYears(SetOf(evidence), id);
    forall y ensures y in years
      <==> y > 0 && exists i :: 0 <= i < |evidence| && NormalId(evidence[i]) == id && evidence[i].year == y
    {
      KnownYearsMean(evidence, id, y);
    }
    hide NormalId, KnownYears, Ids, SetOf;
    if years == {} {
      forall i | 0 <= i < |evidence| && NormalId(evidence[i]) == id ensures evidence[i].year <= 0 {
        assert evidence[i].year !in years;
      }
    }
    if forall i :: 0 <= i < |evidence| && NormalId(evidence[i]) == id ==> evidence[i].year <= 0 {
      assert forall y :: y !in years;
    }
  }

  /** What every result is: an own id, the sole id the release may join, or its own title. */
  lemma ResultsMean(
      kind: MediaKind, sortTitle: string, evidence: seq<Evidence>, results: map<string, TitleId>, ev: Evidence)
    requires ResolvesAll(kind, sortTitle, evidence, results) && ev in evidence
    ensures ev.releaseId in results
    ensures NormalId(ev) != "" ==> results[ev.releaseId] == ByImdb(kind, NormalId(ev))
    ensures NormalId(ev) == "" ==>
      forall id :: MayJoin(kind, evidence, ev, id)
        && (forall other :: MayJoin(kind, evidence, ev, other) ==> other == id)
        ==> results[ev.releaseId] == ByImdb(kind, id)
    ensures NormalId(ev) == "" ==>
      (forall id :: MayJoin(kind, evidence, ev, id) ==>
         exists other :: MayJoin(kind, evidence, ev, other) && other != id)
        ==> results[ev.releaseId] == ByTitle(kind, sortTitle, ev.year)
  {
    hide Joinable, MayJoin, NormalId, ResolvesAll;
    ResultIsTitle(kind, sortTitle, evidence, results, ev);
    forall id | MayJoin(kind, evidence, ev, id) && (forall other :: MayJoin(kind, evidence, ev, other) ==> other == id)
      ensures Joinable(kind, SetOf(evidence), ev.year) == {id}
    {
      SoleMayJoin(kind, evidence, ev, id);
    }
    forall id | Joinable(kind, SetOf(evidence), ev.year) == {id}
      ensures MayJoin(kind, evidence, ev, id) && forall other :: MayJoin(kind, evidence, ev, other) ==> other == id
    {
      SoleMayJoin(kind, evidence, ev, id);
    }
  }

  lemma SoleMayJoin(kind: MediaKind, evidence: seq<Evidence>, ev: Evidence, id: string)
    ensures Joinable(kind, SetOf(evidence), ev.year) == {id}
      <==> MayJoin(kind, evidence, ev, id) && forall other :: MayJoin(kind, evidence, ev, other) ==> other == id
  {
    var joinable := Joinable(kind, SetOf(evidence), ev.year);
    forall other ensures other in joinable <==> MayJoin(kind, evidence, ev, other) {
      JoinableMeans(kind, evidence, ev, other);
    }
    hide Joinable, MayJoin;
    if MayJoin(kind, evidence, ev, id) && forall other :: MayJoin(kind, evidence, ev, other) ==> other == id {
      assert joinable == {id};
    }
  }

  /** An id-less release shares the result of a release with an id exactly when that id is the
      sole one it may join: two distinct ids that both fit keep it apart from every other title. */
  lemma IdlessJoinsSoleIdIff(
      kind: MediaKind, sortTitle: string, evidence: seq<Evidence>,
      results: map<string, TitleId>, ev: Evidence, other: Evidence)
    requires ResolvesAll(kind, sortTitle, evidence, results) && ev in evidence && other in evidence
    requires NormalId(ev) == "" && NormalId(other) != ""
    ensures ev.releaseId in results && other.releaseId in results
    ensures results[ev.releaseId] == results[other.releaseId]
      <==> forall id :: MayJoin(kind, evidence, ev, id) <==> id == NormalId(other)
  {
    ResultIsTitle(kind, sortTitle, evidence, results, ev);
    ResultIsTitle(kind, sortTitle, evidence, results, other);
    var joinable := Joinable(kind, SetOf(evidence), ev.year);
    forall id ensures id in joinable <==> MayJoin(kind, evidence, ev, id) {
      JoinableMeans(kind, evidence, ev, id);
    }
    hide Joinable, MayJoin, NormalId;
    if forall id :: MayJoin(kind, evidence, ev, id) <==> id == NormalId(other) {
      assert joinable == {NormalId(other)};
    }
  }
}
