/** Rolling media states up: sources into an episode, episodes into a season, seasons into
    the title, and when the two-level roll-up equals the flat one. */
module RollUp {

  /** The labels sourceState and the aggregators hand out. */
  datatype DownloadState = NotManaged | Queued | Downloading | Partial | Failed | Downloaded
  datatype TransferState = Idle | Complete | Paused | Waiting | Active | Broken
  datatype WatchState = Unwatched | InProgress | PartlyWatched | Watched

  datatype MediaState = MediaState(
    download: DownloadState,
    transfer: TransferState,
    watch: WatchState,
    downloadId: string,
    progress: real,
    positionMs: int,
    durationMs: int)

  const EMPTY := MediaState(NotManaged, Idle, Unwatched, "", 0.0, 0, 0)

  function Priority(t: TransferState): nat {
    match t
    case Idle => 0
    case Complete => 1
    case Paused => 2
    case Waiting => 3
    case Active => 4
    case Broken => 5
  }

  function MergeTransfer(current: TransferState, next: TransferState): TransferState {
    if Priority(next) > Priority(current) then next else current
  }

  // ----- what an aggregate says -----

  /** The furthest progress and whose it is. */
  datatype Lead = Lead(progress: real, id: string)

  const NO_LEAD := Lead(0.0, "")

  function Better(x: Lead, y: Lead): Lead {
    if y.progress > x.progress then y else x
  }

  /** The first of the states with the greatest positive progress. */
  function Leader(states: seq<MediaState>): Lead {
    if states == [] then NO_LEAD
    else
      var last := states[|states| - 1];
      Better(Leader(states[..|states| - 1]), Lead(last.progress, last.downloadId))
  }

  function Loudest(states: seq<MediaState>): TransferState {
    if states == [] then Idle
    else MergeTransfer(Loudest(states[..|states| - 1]), states[|states| - 1].transfer)
  }

  predicate AllDownloaded(states: seq<MediaState>) {
    forall i :: 0 <= i < |states| ==> states[i].download == Downloaded
  }

  predicate AnyDownloaded(states: seq<MediaState>) {
    exists i :: 0 <= i < |states| && states[i].download == Downloaded
  }

  predicate AnyManaged(states: seq<MediaState>) {
    exists i :: 0 <= i < |states| && states[i].download != NotManaged
  }

  predicate AllWatched(states: seq<MediaState>) {
    forall i :: 0 <= i < |states| ==> states[i].watch == Watched
  }

  predicate AnyWatched(states: seq<MediaState>) {
    exists i :: 0 <= i < |states| && states[i].watch == Watched
  }

  predicate AnyStarted(states: seq<MediaState>) {
    exists i :: 0 <= i < |states| && states[i].watch != Unwatched
  }

  function DownloadOf(states: seq<MediaState>, requireAll: bool): DownloadState {
    if requireAll then
      if states != [] && AllDownloaded(states) then Downloaded else if AnyManaged(states) then Partial else NotManaged
    else
      if AnyDownloaded(states) then Downloaded else if AnyManaged(states) then Downloading else NotManaged
  }

  function WatchOf(states: seq<MediaState>, requireAll: bool): WatchState {
    if requireAll then
      if states != [] && AllWatched(states) then Watched else if AnyStarted(states) then PartlyWatched else Unwatched
    else
      if AnyWatched(states) then Watched else if AnyStarted(states) then InProgress else Unwatched
  }

  /** The aggregate, stated without counters and without an order of visits. */
  function Aggregate(states: seq<MediaState>, requireAll: bool): MediaState {
    MediaState(
      DownloadOf(states, requireAll), Loudest(states), WatchOf(states, requireAll),
      Leader(states).id, Leader(states).progress, 0, 0)
  }

  // ----- the counting loop -----

  /** The variables of the loop after it has seen `states`. */
  datatype Pass = Pass(downloaded: nat, managed: nat, watched: nat, started: nat, transfer: TransferState, lead: Lead)

  function Bump(n: nat, condition: bool): nat {
    if condition then n + 1 else n
  }

  function See(p: Pass, state: MediaState): Pass {
    Pass(
      Bump(p.downloaded, state.download == Downloaded), Bump(p.managed, state.download != NotManaged),
      Bump(p.watched, state.watch == Watched), Bump(p.started, state.watch != Unwatched),
      MergeTransfer(p.transfer, state.transfer), Better(p.lead, Lead(state.progress, state.downloadId)))
  }

  function PassOver(states: seq<MediaState>): Pass {
    if states == [] then Pass(0, 0, 0, 0, Idle, NO_LEAD)
    else See(PassOver(states[..|states| - 1]), states[|states| - 1])
  }

  lemma {:induction false} CountersMeanDownload(states: seq<MediaState>)
    ensures var p := PassOver(states);
      && p.downloaded <= |states|
      && (p.downloaded == |states| <==> AllDownloaded(states))
      && (p.downloaded > 0 <==> AnyDownloaded(states))
      && (p.managed > 0 <==> AnyManaged(states))
  {
    if states != [] {
      var init, last := states[..|states| - 1], states[|states| - 1];
      CountersMeanDownload(init);
      AppendDownload(init, [last]);
      assert init + [last] == states;
    }
  }

  lemma {:induction false} CountersMeanWatch(states: seq<MediaState>)
    ensures var p := PassOver(states);
      && p.watched <= |states|
      && (p.watched == |states| <==> AllWatched(states))
      && (p.watched > 0 <==> AnyWatched(states))
      && (p.started > 0 <==> AnyStarted(states))
  {
    if states != [] {
      var init, last := states[..|states| - 1], states[|states| - 1];
      CountersMeanWatch(init);
      AppendWatch(init, [last]);
      assert init + [last] == states;
    }
  }

  lemma {:induction false} PassFolds(states: seq<MediaState>)
    ensures PassOver(states).transfer == Loudest(states) && PassOver(states).lead == Leader(states)
  {
    if states != [] {
      PassFolds(states[..|states| - 1]);
    }
  }

  lemma AppendDownload(a: seq<MediaState>, b: seq<MediaState>)
    ensures AllDownloaded(a + b) <==> AllDownloaded(a) && AllDownloaded(b)
    ensures AnyDownloaded(a + b) <==> AnyDownloaded(a) || AnyDownloaded(b)
    ensures AnyManaged(a + b) <==> AnyManaged(a) || AnyManaged(b)
  {
    assert forall i :: 0 <= i < |a| ==> (a + b)[i] == a[i];
    assert forall i :: 0 <= i < |b| ==> (a + b)[|a| + i] == b[i];
  }

  lemma AppendWatch(a: seq<MediaState>, b: seq<MediaState>)
    ensures AllWatched(a + b) <==> AllWatched(a) && AllWatched(b)
    ensures AnyWatched(a + b) <==> AnyWatched(a) || AnyWatched(b)
    ensures AnyStarted(a + b) <==> AnyStarted(a) || AnyStarted(b)
  {
    assert forall i :: 0 <= i < |a| ==> (a + b)[i] == a[i];
    assert forall i :: 0 <= i < |b| ==> (a + b)[|a| + i] == b[i];
  }

  /** The transfer state that is shown: the first of error, active, queued, paused and complete
      that any of the states has, else idle. */
  ghost predicate SpeaksLoudest(states: seq<MediaState>, t: TransferState) {
    if exists i :: 0 <= i < |states| && states[i].transfer == Broken then t == Broken
    else if exists i :: 0 <= i < |states| && states[i].transfer == Active then t == Active
    else if exists i :: 0 <= i < |states| && states[i].transfer == Waiting then t == Waiting
    else if exists i :: 0 <= i < |states| && states[i].transfer == Paused then t == Paused
    else if exists i :: 0 <= i < |states| && states[i].transfer == Complete then t == Complete
    else t == Idle
  }

  /** The loudest state is idle or one of the states, and none is louder. */
  lemma {:induction false} LoudestIsOne(states: seq<MediaState>)
    ensures Loudest(states) == Idle || exists i :: 0 <= i < |states| && states[i].transfer == Loudest(states)
    ensures forall i :: 0 <= i < |states| ==> Priority(states[i].transfer) <= Priority(Loudest(states))
  {
    if states != [] {
      var init := states[..|states| - 1];
      LoudestIsOne(init);
      hide Priority;
      if Loudest(states) == Loudest(init) && Loudest(init) != Idle {
        var i :| 0 <= i < |init| && init[i].transfer == Loudest(init);
        assert states[i].transfer == Loudest(states);
      } else {
        assert Loudest(states) == Idle || states[|states| - 1].transfer == Loudest(states);
      }
      forall i | 0 <= i < |states| ensures Priority(states[i].transfer) <= Priority(Loudest(states)) {
        assert i < |init| ==> init[i] == states[i];
      }
    }
  }

  lemma LoudestSpeaks(states: seq<MediaState>)
    ensures SpeaksLoudest(states, Loudest(states))
  {
    LoudestIsOne(states);
    hide Loudest;
  }

  /** The leader's progress is the greatest positive one, and its id that of its first owner. */
  lemma {:induction false} LeaderLeads(states: seq<MediaState>)
    ensures var lead := Leader(states);
      && lead.progress >= 0.0 && (forall i :: 0 <= i < |states| ==> states[i].progress <= lead.progress)
      && (lead == Lead(0.0, "")
          || exists i :: 0 <= i < |states| && states[i].progress == lead.progress && states[i].downloadId == lead.id
                         && (forall j :: 0 <= j < i ==> states[j].progress < lead.progress))
  {
    if states != [] {
      var init, n := states[..|states| - 1], |states| - 1;
      LeaderLeads(init);
      assert forall i :: 0 <= i < n ==> init[i] == states[i];
      var before, lead := Leader(init), Leader(states);
      if states[n].progress > before.progress {
        assert states[n].progress == lead.progress && states[n].downloadId == lead.id;
      } else if before != Lead(0.0, "") {
        var i :| 0 <= i < n && init[i].progress == before.progress && init[i].downloadId == before.id
          && (forall j :: 0 <= j < i ==> init[j].progress < before.progress);
        assert states[i].progress == lead.progress && states[i].downloadId == lead.id;
      }
    }
  }

  /** What an aggregate is, entry by entry. */
  ghost predicate IsAggregate(states: seq<MediaState>, requireAll: bool, result: MediaState) {
    && (requireAll ==>
          && (result.download == Downloaded <==>
                states != [] && forall i :: 0 <= i < |states| ==> states[i].download == Downloaded)
          && (result.download == NotManaged <==> forall i :: 0 <= i < |states| ==> states[i].download == NotManaged)
          && (result.download in {Downloaded, Partial, NotManaged})
          && (result.watch == Watched <==> states != [] && forall i :: 0 <= i < |states| ==> states[i].watch == Watched)
          && (result.watch == Unwatched <==> forall i :: 0 <= i < |states| ==> states[i].watch == Unwatched)
          && (result.watch in {Watched, PartlyWatched, Unwatched}))
    && (!requireAll ==>
          && (result.download == Downloaded <==> exists i :: 0 <= i < |states| && states[i].download == Downloaded)
          && (result.download == NotManaged <==> forall i :: 0 <= i < |states| ==> states[i].download == NotManaged)
          && (result.download in {Downloaded, Downloading, NotManaged})
          && (result.watch == Watched <==> exists i :: 0 <= i < |states| && states[i].watch == Watched)
          && (result.watch == Unwatched <==> forall i :: 0 <= i < |states| ==> states[i].watch == Unwatched)
          && (result.watch in {Watched, InProgress, Unwatched}))
    && SpeaksLoudest(states, result.transfer)
    && (forall i :: 0 <= i < |states| ==> states[i].progress <= result.progress) && result.progress >= 0.0
    && ((result.progress == 0.0 && result.downloadId == "")
      || exists i :: 0 <= i < |states|
                         && states[i].progress == result.progress && states[i].downloadId == result.downloadId
                         && (forall j :: 0 <= j < i ==> states[j].progress < result.progress))
  }

  lemma AggregateMeans(states: seq<MediaState>, requireAll: bool)
    ensures IsAggregate(states, requireAll, Aggregate(states, requireAll))
  {
    LoudestSpeaks(states);
    LeaderLeads(states);
  }

  lemma NoPass(states: seq<MediaState>)
    ensures PassOver(states[..0]) == Pass(0, 0, 0, 0, Idle, NO_LEAD)
  {
  }

  lemma PassStep(states: seq<MediaState>, i: nat)
    requires i < |states|
    ensures PassOver(states[..i + 1]) == See(PassOver(states[..i]), states[i])
  {
    assert states[..i + 1][..i] == states[..i];
  }

  /** The aggregate, read off the counters of the whole pass. */
  lemma PassMeans(states: seq<MediaState>, requireAll: bool)
    requires states != []
    ensures var p := PassOver(states);
      Aggregate(states, requireAll) == EMPTY.(
        transfer := p.transfer, progress := p.lead.progress, downloadId := p.lead.id,
        download := if requireAll then
                      if p.downloaded == |states| then Downloaded else if p.managed > 0 then Partial else NotManaged
                    else
                      if p.downloaded > 0 then Downloaded else if p.managed > 0 then Downloading else NotManaged,
        watch := if requireAll then
                   if p.watched == |states| then Watched else if p.started > 0 then PartlyWatched else Unwatched
                 else
                   if p.watched > 0 then Watched else if p.started > 0 then InProgress else Unwatched)
  {
    CountersMeanDownload(states);
    CountersMeanWatch(states);
    PassFolds(states);
    hide PassOver, Loudest, Leader, AllDownloaded, AnyDownloaded, AnyManaged, AllWatched, AnyWatched, AnyStarted;
  }

  /** The loop: one pass with four counters. */
  method CountStates(states: seq<MediaState>) returns (p: Pass)
    ensures p == PassOver(states)
  {
    var downloaded, managed, watched, started := 0, 0, 0, 0;
    var transfer, lead := Idle, NO_LEAD;
    NoPass(states);
    hide PassOver, Priority;
    for i := 0 to |states|
      invariant PassOver(states[..i]) == Pass(downloaded, managed, watched, started, transfer, lead)
    {
      var state := states[i];
      PassStep(states, i);
      transfer := MergeTransfer(transfer, state.transfer);
      if state.download == Downloaded {
        downloaded := downloaded + 1;
      }
      if state.download != NotManaged {
        managed := managed + 1;
      }
      if state.watch == Watched {
        watched := watched + 1;
      }
      if state.watch != Unwatched {
        started := started + 1;
      }
      if state.progress > lead.progress {
        lead := Lead(state.progress, state.downloadId);
      }
    }
    assert states[..|states|] == states;
    p := Pass(downloaded, managed, watched, started, transfer, lead);
  }

  /** aggregateMediaStates: the counters of one pass decide. */
  method AggregateMediaStates(states: seq<MediaState>, requireAll: bool) returns (result: MediaState)
    ensures result == Aggregate(states, requireAll)
    ensures IsAggregate(states, requireAll, result)
  {
    AggregateMeans(states, requireAll);
    result := EMPTY;
    if |states| == 0 {
      return;
    }
    PassMeans(states, requireAll);
    hide IsAggregate, Aggregate, PassOver;
    var p := CountStates(states);
    result := result.(transfer := p.transfer, progress := p.lead.progress, downloadId := p.lead.id);
    if requireAll {
      result := result.(
        download := if p.downloaded == |states| then Downloaded else if p.managed > 0 then Partial else NotManaged,
        watch := if p.watched == |states| then Watched else if p.started > 0 then PartlyWatched else Unwatched);
    } else {
      result := result.(
        download := if p.downloaded > 0 then Downloaded else if p.managed > 0 then Downloading else NotManaged,
        watch := if p.watched > 0 then Watched else if p.started > 0 then InProgress else Unwatched);
    }
  }

  // ----- the folds distribute over concatenation -----

  lemma {:induction false} LeaderAppend(a: seq<MediaState>, b: seq<MediaState>)
    ensures Leader(a + b) == Better(Leader(a), Leader(b))
    ensures Leader(a).progress >= 0.0
  {
    if b != [] {
      LeaderAppend(a, b[..|b| - 1]);
      assert (a + b)[..|a + b| - 1] == a + b[..|b| - 1];
    } else {
      assert a + b == a;
      if a != [] {
        LeaderAppend(a[..|a| - 1], []);
      }
    }
  }

  lemma {:induction false} LoudestAppend(a: seq<MediaState>, b: seq<MediaState>)
    ensures Loudest(a + b) == MergeTransfer(Loudest(a), Loudest(b))
  {
    if b == [] {
      assert a + b == a;
    } else {
      LoudestAppend(a, b[..|b| - 1]);
      assert (a + b)[..|a + b| - 1] == a + b[..|b| - 1];
    }
  }

  // ----- two levels -----

  function Flatten(seasons: seq<seq<MediaState>>): seq<MediaState> {
    if seasons == [] then [] else Flatten(seasons[..|seasons| - 1]) + seasons[|seasons| - 1]
  }

  /** aggregateEpisodeState of every season. */
  function SeasonStates(seasons: seq<seq<MediaState>>): (states: seq<MediaState>)
    ensures |states| == |seasons|
    ensures forall i :: 0 <= i < |seasons| ==> states[i] == Aggregate(seasons[i], true)
  {
    if seasons == [] then []
    else SeasonStates(seasons[..|seasons| - 1]) + [Aggregate(seasons[|seasons| - 1], true)]
  }

  /** aggregateSeasonState over aggregateEpisodeState. */
  function TwoLevel(seasons: seq<seq<MediaState>>): MediaState {
    Aggregate(SeasonStates(seasons), true)
  }

  function Flat(seasons: seq<seq<MediaState>>): MediaState {
    Aggregate(Flatten(seasons), true)
  }

  /** Progress, its owner and the transfer state never depend on the levels. */
  lemma {:induction false} FoldsAgree(seasons: seq<seq<MediaState>>)
    ensures Leader(SeasonStates(seasons)) == Leader(Flatten(seasons))
    ensures Loudest(SeasonStates(seasons)) == Loudest(Flatten(seasons))
  {
    if seasons != [] {
      var init, last := seasons[..|seasons| - 1], seasons[|seasons| - 1];
      FoldsAgree(init);
      LeaderAppend(Flatten(init), last);
      LoudestAppend(Flatten(init), last);
      assert SeasonStates(seasons)[..|seasons| - 1] == SeasonStates(init);
    }
  }

  predicate NoEmptySeason(seasons: seq<seq<MediaState>>) {
    forall i :: 0 <= i < |seasons| ==> seasons[i] != []
  }

  lemma NoEmptyStep(seasons: seq<seq<MediaState>>)
    requires seasons != []
    ensures var init, last := seasons[..|seasons| - 1], seasons[|seasons| - 1];
      NoEmptySeason(seasons) <==> NoEmptySeason(init) && last != []
  {
    assert forall i :: 0 <= i < |seasons| - 1 ==> seasons[..|seasons| - 1][i] == seasons[i];
  }

  lemma {:induction false} FlattenEmpty(seasons: seq<seq<MediaState>>)
    ensures NoEmptySeason(seasons) && seasons != [] ==> Flatten(seasons) != []
  {
    if seasons != [] {
      NoEmptyStep(seasons);
    }
  }

  lemma {:induction false} DownloadLevels(seasons: seq<seq<MediaState>>)
    ensures AllDownloaded(SeasonStates(seasons)) <==> NoEmptySeason(seasons) && AllDownloaded(Flatten(seasons))
    ensures AnyManaged(SeasonStates(seasons)) <==> AnyManaged(Flatten(seasons))
  {
    if seasons != [] {
      var init, last := seasons[..|seasons| - 1], seasons[|seasons| - 1];
      DownloadLevels(init);
      NoEmptyStep(seasons);
      AppendDownload(SeasonStates(init), [Aggregate(last, true)]);
      AppendDownload(Flatten(init), last);
    }
  }

  lemma {:induction false} WatchLevels(seasons: seq<seq<MediaState>>)
    ensures AllWatched(SeasonStates(seasons)) <==> NoEmptySeason(seasons) && AllWatched(Flatten(seasons))
    ensures AnyStarted(SeasonStates(seasons)) <==> AnyStarted(Flatten(seasons))
  {
    if seasons != [] {
      var init, last := seasons[..|seasons| - 1], seasons[|seasons| - 1];
      WatchLevels(init);
      NoEmptyStep(seasons);
      AppendWatch(SeasonStates(init), [Aggregate(last, true)]);
      AppendWatch(Flatten(init), last);
    }
  }

  /** The two-level roll-up is the flat one exactly when no season is without entries, or there
      are no entries at all, or neither all of them are downloaded nor all of them watched. */
  lemma TwoLevelIsFlatIff(seasons: seq<seq<MediaState>>)
    ensures TwoLevel(seasons) == Flat(seasons) <==>
      NoEmptySeason(seasons)
      || Flatten(seasons) == []
      || (!AllDownloaded(Flatten(seasons)) && !AllWatched(Flatten(seasons)))
  {
    FoldsAgree(seasons);
    FlattenEmpty(seasons);
    DownloadLevels(seasons);
    WatchLevels(seasons);
  }

  /** It does differ: a season that holds only packs next to a finished one. */
  lemma PackOnlySeasonHidesCompletion()
    ensures var done := EMPTY.(download := Downloaded, watch := Watched);
      && Flat([[done], []]).download == Downloaded
      && TwoLevel([[done], []]).download == Partial
  {
    var done := EMPTY.(download := Downloaded, watch := Watched);
    var seasons := [[done], []];
    assert seasons[..1] == [[done]] && [[done]][..0] == [];
    assert Flatten([[done]]) == [done];
    assert Flatten(seasons) == [done];
    DownloadLevels(seasons);
    hide Flatten, SeasonStates, Leader, Loudest, WatchOf;
    assert AnyManaged([done]) by {
      assert [done][0].download != NotManaged;
    }
    assert seasons[1] == [];
  }
}
