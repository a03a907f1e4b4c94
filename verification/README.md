# Verification of the media server's core protocols

A Dafny model of the parts of the server whose correctness spans several functions, threads or
runs, with the properties the server relies on. Each module follows one component.

| module | what it models |
|---|---|
| `Admission`, `AdmissionGate` | admitting downloads against the Allocation, as interleaved atomic steps and as the gate's own loop |
| `Routes`, `Retention`, `RetentionLaws` | grouping rows into routes, the eviction order, the survey-evict-survey loop, and what that loop removes |
| `Leases` | stream leases: the counted table, the persisted flag, failing writes |
| `Families` | the stale-while-revalidate cache of Category-family tiles and its background flight |
| `Events` | the event fan-out with bounded subscriber channels and shutdown |
| `Wrappers` | values that may be missing |
| `Bytes`, `Bencode`, `BencodeRoundTrip`, `BencodeOverflow`, `Manifest`, `ManifestRoundTrip`, `Pieces` | the bencode reader (BEP 3, section "bencoding"), its round trip, when it panics, the torrent manifest and the wait for pieces |
| `Alignment`, `Seasons`, `SeasonLaws`, `SeasonPlacement`, `SeasonBuilder`, `Sorting` | projecting files onto a provider's seasons |
| `Catalog` | filing a title's releases under episodes and packs, and the way from there to seasons and selection |
| `Navigation` | next and previous episode |
| `RollUp` | library state of sources, episodes, seasons and titles |
| `TitleIdentity` | canonical title ids of a family of releases |
| `LogTail` | the log viewer's polling protocol |

Concurrent components are state machines: a `State`, the `Action`s that the mutexes make
atomic, `Enabled`/`Apply`, an invariant, and theorems over every legal run. Beside them stand the
classes whose methods update the source's own fields; each method's contract ties its new state
to the step function or states it outright. Loop algorithms are methods proved against
specification functions or order-free definitions.

## Where the code and its promises part

Four promises are false as stated; each has a counterexample or a witness run, and the exact
extent or condition under which it fails.

- Allocation (`internal/application/service.go:1574-1580`). The survey of the rows and the read of
  the reserved bytes are two steps, and a release takes no lock. If another request saves a row of
  a route the survey missed and releases before the read, its bytes are counted nowhere. Along
  every run the Allocation is exceeded by at most the bytes that slip through like this plus the
  bytes stored without a reservation (`OverCommitIsBounded`), both kinds do reach that bound
  (`SlipReachesTheBound`, `OverdraftReachesTheBound`), and `SlipLeaksIff` says when a release is
  about to let an admission through wrongly.
- `invalidateFamilies` (`internal/application/families.go:44-45`) says the next caller waits for a
  fresh computation. A build running at that moment still stores its result, which is then
  served: the comment holds if and only if no build is running (`InvalidateLeaksIff`).
- Log offsets are line boundaries unless one line is at least as long as the whole window
  (`NextOffsetIsBoundaryIff`, `LongLineBreaksBoundary`).
- The bencode reader (`internal/application/torrentmeta.go:223-227`) checks a string's end against
  the data, but the sum `colon + 1 + length` wraps around: a length near 2^63 passes the check and
  the slice panics. This happens if and only if the reader comes to a string whose end reaches
  2^63 (`BencodeOverflow.PanicsIff`); `9223372036854775807:` is such an input (`HugeLengthPanics`).

Three notes.

- The two-level roll-up differs from the flat one exactly for a completely downloaded or
  completely watched title with an empty season (`TwoLevelIsFlatIff`,
  `PackOnlySeasonHidesCompletion`).
- A request reserves too little exactly when a cached file list has a smaller total than the
  metainfo and that total is within the tracker's size (`ReservationCoversTorrentIff`,
  `StaleCacheOverCommits`). A list recorded from an engine carries no metainfo
  (`internal/application/catalog.go:806-807`), so the metainfo is fetched anew and may have
  changed at the tracker.
- Sibling selection uses episode 0 as "none yet"; the loop taken alone would stumble over an
  episode 0 (`NextIsSuccessorIff`), but the guards at `internal/application/catalog.go:122` and
  `internal/application/torrentmeta.go:276` keep that number out of every title's seasons, so
  over what it is given the selection is exact (`CatalogNeighbours`, `SelectInCatalog`).

## Model

| member | source | states |
|---|---|---|
| Admission.StepKeepsSafe | internal/application/service.go:1533-1607 | Every step keeps an admission under way safe, up to the bytes that very step loses sight of (a slipping release, or bytes stored without a reservation): the reserved counter is the sum of the live reservations, at most one request holds the gate, the survey in progress plus what will be read covers everything committed, and a cleared request still fits |
| Admission.OverCommitIsBounded | internal/application/service.go:1533-1607 | For every run from a safe state: the Allocation is exceeded by no more than the bytes that slipped through plus the bytes stored without a reservation |
| Admission.NeverOverCommitted | internal/application/service.go:1533-1607 | In particular, once stored bytes plus reservations not yet backed by a row fit under the Allocation, they keep fitting along every interleaving of admissions, re-admissions with another size, saved rows, releases and evictions that loses sight of nothing |
| Admission.EveryReachableStateIsBounded | internal/application/service.go:1533-1607 | The bound from a server start: no reachable state, of any run, exceeds the Allocation by more than the run lost sight of |
| Admission.CommittedStep | internal/application/service.go:1533-1607 | The committed bytes rise only by a reservation, by no more than what was cleared for it, or by bytes stored without one |
| Admission.UncountedStep | internal/application/service.go:1574-1607 | While an admission has yet to read, no step loses sight of more than its own slip and overdraft; rows of routes the survey counted never slip |
| Admission.SurveyCovers | internal/application/retention.go:176-217 | What a survey counted and the routes it missed cover everything stored, whatever was evicted or saved since |
| Admission.SlipReachesTheBound | internal/application/service.go:1574-1580 | Every slip of positive size over-commits somewhere: from any start, for any new route and any other torrent that fit beside the start one at a time, some run slips exactly the route's size and ends with both committed, so the bound is reached |
| Admission.SlipLeaksIff | internal/application/service.go:1574-1593 | For any state with an admission between survey and read and any saved request about to release: some size of the admission would be let through wrongly if and only if more is committed than the admission will read |
| Admission.OnlyLateReleasesLeak | internal/application/service.go:1574-1607 | While nothing has been lost sight of, only a request that saved a row of a route the survey missed can do that: any other release lets no admission of any size through wrongly |
| Admission.AtomicReadsKeepTheAllocation | internal/application/service.go:1574-1580 | Were each survey followed at once by its read, the Allocation would hold along every run that stores nothing unreserved; runs in which surveys refuse, admit outright or are repeated for the Reserve are included |
| Admission.AtomicReadsNeverSlip | internal/application/service.go:1574-1580 | In such runs nothing slips through |
| Admission.ReservationsAreExact | internal/application/service.go:1591-1607 | In every reachable state of every run the reserved counter equals the sum of the live reservations, and refused and finished requests hold nothing |
| Admission.SurveyOutcomes | internal/application/service.go:1570-1580 | A survey refuses exactly when some managed route is not described, is skipped with no Allocation, and otherwise goes on to its read with what is stored |
| Admission.ReservationCoversTorrentIff | internal/application/service.go:1624-1635 | The size finally reserved covers the torrent's files, except exactly when a cached manifest has a positive smaller total and the torrent's total is within the tracker's size |
| Admission.StaleCacheOverCommits | internal/application/service.go:1695-1699 | In that case the Allocation is exceeded by exactly what the cache was short of |
| Admission.OverdraftReachesTheBound | internal/application/service.go:1591-1607 | Whenever a torrent takes up more than was reserved for it, some run exceeds the Allocation by exactly the difference |
| AdmissionGate.Gate.EnsureAllocationRoom | internal/application/service.go:1533-1589 | Admitted under an Allocation: every managed row's engine answered, and stored bytes, this torrent and all other reservations fit together. Refused by the cap: they do not, and every described route is spared. Refused as uncertain: some row's engine did not answer. However the call ends, its evictions form a chain from the start rows, each found over the Allocation or under the Reserve with every engine answering, and of a route that no enabled protection spares (unfinished, streamed, favourite, never watched); a failing removal tears one such route and touches no other |
| AdmissionGate.GatePlanMeans | internal/application/service.go:1574-1581 | The plan the gate decides on counts stored bytes, the incoming torrent and every reservation, and is uncertain exactly when some row's engine did not answer |
| AdmissionGate.GateTakesOnlyUnprotected | internal/application/service.go:1583-1587 | Along the gate's evictions each route keeps all of its rows, or loses all of them as the victim of an eviction that found it described and unprotected |
| AdmissionGate.Gate.Release | internal/application/service.go:1602-1607 | Releasing twice changes nothing the second time |
| AdmissionGate.Gate.Reserve | internal/application/service.go:1596-1599 | The claim and the shared counter rise together |
| Leases.StepKeepsInv | internal/application/service.go:2893-2967 | Every atomic section of every Acquire and Release keeps: the count of an id is the number of calls that hold a unit, one writer at a time, held leases persisted, no false write pending while a lease is held, and the row agreeing with the table when nobody will read again |
| Leases.HeldLeaseStaysPersisted | internal/application/service.go:2893-2967 | A lease that Acquire returned stays persisted until its own Release, for every interleaving of any number of calls and every pattern of failing or unconfirmed writes |
| Leases.QuietAgreement | internal/application/service.go:2893-2967 | When no call is in flight for an id the count is the number of unreleased leases, and the flag is exactly "count > 0" unless the last write attempt for the id failed for good |
| Leases.ReliableAgreement | internal/application/service.go:2902-2961 | With no failing write the flag of an id at rest is set if and only if some lease on it is unreleased, although only first and last users write it |
| Leases.ReliableWritesSettle | internal/application/service.go:2950-2967 | With no failing write no id is ever left unsettled |
| Leases.AcquireEndsHeld | internal/application/service.go:2902-2913 | With the write mutex free and a stored write Acquire ends with a lease that is counted and persisted |
| Leases.LastReleaseClears | internal/application/service.go:2950-2960 | Releasing the last unit ends with the count and the flag gone |
| Leases.EarlierReleaseWritesNothing | internal/application/service.go:2950-2953 | Releasing another unit lowers the count and leaves the flag alone |
| Leases.FailedWrites | internal/application/service.go:2905-2966 | A failed write may have landed or not; Acquire then drops its unit, Release tries once more, and last attempts give up |
| Leases.DropUndoesCount | internal/application/service.go:2902-2936 | Taking a unit and dropping it restores the table exactly, missing entries included |
| Leases.LeaseService.Acquire | internal/application/service.go:2893-2913 | Run alone: success counts one unit and persists the flag, failure restores the table, and no other id is touched |
| Leases.LeaseService.Release | internal/application/service.go:2950-2967 | Run alone: one unit is dropped; the flag is left alone unless it was the last one and is cleared if either attempt succeeds |
| Leases.LeaseService.DropLease | internal/application/service.go:2926-2935 | Reports the last unit exactly when the count has become zero |
| Leases.LeaseService.PersistLease | internal/application/service.go:2918-2922 | Writes the flag of the count at the moment of the write; an unconfirmed write may have landed |
| Leases.LeaseService.RowLeased | internal/application/service.go:2946-2948 | A row is leased if the table or the row says so |
| Families.StepKeepsInv | internal/application/families.go:46-166 | Every section under the families mutex keeps the generation counter and the staleness mark honest about whether a refresh or invalidation came after the build began, and every waiter attached to a flight that will answer it |
| Families.FreshTilesAreCurrent | internal/application/families.go:46-107 | Tiles judged fresh come from a build that began after every refresh and invalidation so far, in every interleaving |
| Families.WaiterGetsCurrentTiles | internal/application/families.go:84-107 | A caller that waited on a flight and got tiles got a build that began after every refresh and invalidation before its call |
| Families.RefreshIsNotLost | internal/application/families.go:56-62 | After a refresh a flight stays registered until a build begun after that refresh is stored or a build fails; only a stopping service without a flight declines |
| Families.StaleReplyIsRevalidated | internal/application/families.go:74-107 | After a stale reply a flight stays registered until a build begun after the latest mark is stored or a build fails |
| Families.FlightStaysRegistered | internal/application/families.go:132-166 | A registered flight survives any run in which the mark is not answered |
| Families.DeregisteringAnswers | internal/application/families.go:145-166 | A flight is deregistered exactly by a failing build or by one that began after the latest mark, and a rerun keeps its identity |
| Families.InvalidateLeaksIff | internal/application/families.go:44-51 | After an invalidation some continuation can serve tiles from before it if and only if a build is running: the exact condition under which the documented "the next caller waits" fails |
| Families.InvalidateHidesOldTiles | internal/application/families.go:46-51 | With no build running, until the next mark every caller waits or gets tiles built after the invalidation |
| Families.InvalidateDuringBuildServesOld | internal/application/families.go:147-151 | With a build running its mere end makes the next caller receive tiles from before the invalidation |
| Families.NoOldWorkStays | internal/application/families.go:132-166 | Once no tiles and no build predate the latest mark, none ever do until the next mark |
| Families.FamilyService.CatalogFamilies | internal/application/families.go:84-107 | The cached tiles if there are any, else a wait for the flight, else "stopping". If there were no tiles, or tiles of another quarter, from the future, ten minutes old or older than the latest mark, a flight is registered afterwards unless the service is stopping; if they were fresh, none is started |
| Families.FamilyService.RefreshFamilies | internal/application/families.go:56-62 | Marks the tiles stale and leaves a flight registered unless stopping |
| Families.FamilyService.InvalidateFamilies | internal/application/families.go:46-51 | Drops the cache and advances the generation, leaving a running flight alone |
| Families.FamilyService.WarmFamilies | internal/application/families.go:66-82 | With tiles missing, of another quarter, from the future or ten minutes old a flight is registered unless stopping; with fresh tiles none is started |
| Families.FamilyService.StartFamilyFlightLocked | internal/application/families.go:112-126 | At most one flight: the registered one is returned, a new one is never added beside it |
| Families.FamilyService.BeginBuild | internal/application/families.go:134-142 | The flight samples the generation before it reads the catalog |
| Families.FamilyService.EndBuild | internal/application/families.go:144-166 | The flight goes round again exactly when a mark came during its build; when it does not, the stored tiles postdate the latest mark |
| Events.SubscribersGetTheirSlice | internal/application/service.go:289-343 | In every run of publish, subscribe, cancel, overflow, receive and shutdown each channel carries exactly the fanned-out events between its subscription and its removal, in strictly increasing id order |
| Events.SubscriptionCollects | internal/application/service.go:297-331 | From a subscription to an open hub, through any run with up to 32 publishes that neither cancels nor drains the channel, it stays open and holds every event published since, in order |
| Events.SubscriberGetsTheNextEvents | internal/application/service.go:297-331 | Subscribing and then publishing up to 32 events leaves exactly these, with consecutive ids, in the channel |
| Events.JournalRowsAreSilent | internal/application/service.go:3239 | A journal row without fan-out takes an id and reaches no channel |
| Events.NeverPanics | internal/application/service.go:289-354 | No run sends on a closed channel or closes one twice |
| Events.ClosedStaysClosed | internal/application/service.go:304-343 | A removed subscriber stays removed, and its slice of the log is final |
| Events.ShutdownIsFinal | internal/application/service.go:346-354 | After shutdown no channel is open, including those subscribed later |
| Events.DeliveredStep | internal/application/service.go:297-310 | Each step keeps received plus buffered events equal to the channel's slice of the log |
| Events.StepKeepsInv | internal/application/service.go:289-354 | Every section under the event mutex keeps: registered exactly when open, slices delivered, ids ascending |
| Events.EventHub.FanOut | internal/application/service.go:304-310 | Whatever order the subscriber map is ranged in, each subscriber gets the event or is closed and removed exactly when its channel is full |
| Events.EventHub.SendOrClose | internal/application/service.go:305-309 | One arm of the select: the event is buffered, or the full channel is closed and removed |
| Events.EventHub.PublishEvent | internal/application/service.go:289-311 | Nothing happens while stopping or when the journal refuses; otherwise one event with the next id is buffered for every subscriber with fewer than 32 waiting events, and every other subscriber is closed and removed |
| Events.EventHub.SubscribeEvents | internal/application/service.go:324-334 | On an open hub the new channel is open, empty and registered; after shutdown it is closed and not registered; no other channel changes |
| Events.EventHub.CancelSubscription | internal/application/service.go:335-342 | Cancelling twice, or after an overflow, does nothing the second time |
| Events.EventHub.CloseEventStreams | internal/application/service.go:346-354 | Closes every registered channel once and refuses new ones |
| Bencode.ReadBNode | internal/application/torrentmeta.go:169-228 | The recursive reader with its position loops does what the reference reader `Read` does on every input, 64-bit wrap-around of a string's end included, and terminates on every input |
| Bencode.Read | internal/application/torrentmeta.go:169-228 | Success strictly advances the position and never passes the end; a start outside the data fails |
| BencodeOverflow.PanicsIff | internal/application/torrentmeta.go:169-228 | The reader panics if and only if it comes to a string whose length is a 64-bit number but whose end is not |
| BencodeOverflow.StringPanicsIff | internal/application/torrentmeta.go:217-227 | For one string: the slice is out of bounds exactly when colon + 1 + length reaches 2^63 |
| BencodeOverflow.HugeLengthPanics | internal/application/torrentmeta.go:223-227 | The input: `9223372036854775807:`, whatever follows it |
| Bencode.ReadBList | internal/application/torrentmeta.go:181-195 | The element loop reads the items up to the closing mark |
| Bencode.ReadBDict | internal/application/torrentmeta.go:196-215 | The pair loop reads key and value alternately; a later entry with the same key wins |
| Bencode.ReadIsLocal | internal/application/torrentmeta.go:169-228 | What the reader accepts depends on the consumed bytes alone: the same bytes anywhere in any data give the same tree and the shifted end |
| Bencode.ItemsAreLocal | internal/application/torrentmeta.go:181-195 | The same for the items of a list |
| Bencode.EntriesAreLocal | internal/application/torrentmeta.go:196-215 | The same for the pairs of a dictionary |
| Bencode.StringIsLocal | internal/application/torrentmeta.go:217-227 | The same for a length-prefixed string |
| BencodeRoundTrip.ReadEncoded | internal/application/torrentmeta.go:169-228 | Round trip: an encoded value, placed anywhere and followed by anything, is read back as its tree, and the reader stops exactly behind it |
| BencodeRoundTrip.ReadEncodedPairs | internal/application/torrentmeta.go:196-215 | The pairs of an encoded dictionary are read back into the map they denote |
| BencodeRoundTrip.DictIsExact | internal/application/torrentmeta.go:196-215 | With distinct keys the dictionary read back has exactly the encoded keys, each with its encoded value |
| BencodeRoundTrip.AtoiDecimal | internal/application/torrentmeta.go:223-236 | Reading the decimal rendering of any 64-bit number gives the number |
| BencodeRoundTrip.AtoiAcceptsPlus | internal/application/torrentmeta.go:223-236 | A leading plus is accepted |
| BencodeRoundTrip.AtoiRefusesText | internal/application/torrentmeta.go:223-236 | Anything but digits behind an optional sign is refused |
| BencodeRoundTrip.PrefixFree | internal/application/torrentmeta.go:169-228 | No encoding is a proper prefix of another, and equal encodings denote equal trees: the reader can never stop early or late |
| Manifest.ParseTorrentManifest | internal/application/torrentmeta.go:98-145 | Each refusal happens exactly for its reason (size, unreadable data, no info dictionary, a bad length or path), a panic exactly when the reader panics, and an accepted manifest lists the metainfo's files in order, tiling the torrent |
| Manifest.ParseFiles | internal/application/torrentmeta.go:110-128 | An accepted list has one file per row with the row's length and cleaned path, each starting where the earlier ones end; a refusal is that of the first row that does not fit, its length looked at before its path |
| Manifest.ParseInfo | internal/application/torrentmeta.go:108-144 | Accepted exactly when every row, or the single file, has a usable length and path |
| ManifestRoundTrip.ParseEncoded | internal/application/torrentmeta.go:98-128 | From the encoder: a metainfo with a files list, whatever else it holds, is accepted exactly when no length is negative and every path is safe, and is then parsed into exactly its files, with their sizes, cleaned paths and the sums of the earlier lengths as offsets; otherwise the first misfit gives the error |
| ManifestRoundTrip.ParseEncodedSingle | internal/application/torrentmeta.go:129-144 | The same for a single file, called "content" when it has no name |
| ManifestRoundTrip.LengthOfDecimal | internal/application/torrentmeta.go:230-236 | Every natural number is a length, zero included, and no negative one is |
| Manifest.FilesPartition | internal/application/torrentmeta.go:110-128 | Every byte of the torrent lies in exactly one file, and no file reaches past the end |
| Manifest.FindFile | internal/application/torrentmeta.go:110-128 | Every byte before the end of the first n files lies in one of them |
| Pieces.PiecesCoverRange | internal/application/service.go:2998-3012 | The piece arithmetic is exact: the pieces from first to last are complete if and only if the piece of every requested byte is |
| Pieces.CheckPieces | internal/application/service.go:2994-3012 | One poll is ready exactly when the piece of every requested byte is in state 2, by the engine's piece size or else the row's |
| Pieces.WaitRange | internal/application/service.go:2982-3023 | The wait succeeds only at a poll where every requested byte is complete, never skips such a poll, and ends at the first deciding poll |
| Pieces.WaitReadable | internal/application/streaming.go:59-80 | Success means every requested byte belongs to that very file of the manifest and is complete; out-of-range requests, and only those, are refused; any other outcome means no poll up to it had them all |
| Pieces.OpenReadable | internal/application/streaming.go:81-107 | The path handed out is the first one, or the last one the engine answered before the first attempt that can read the last byte; giving up means no attempt could |
| Pieces.WaitReadablePath | internal/application/streaming.go:59-108 | Range guard, wait and opening together: a path is handed out only when every requested byte of that file is complete and the last one was read at that path |
| LogTail.ReadLogTail | internal/gui/bindings.go:663-712 | One poll resumes at the offset, or at zero when that lies outside the file; with up to 256 KiB unread it returns every complete line from there on, with more only those behind the first newline of the last 256 KiB; a missing file is an empty tail |
| LogTail.ReadWindow | internal/gui/bindings.go:673-700 | The window starts at the offset, restarts outside the file, is capped and skips a cut line |
| LogTail.LinesRoundTrip | internal/gui/bindings.go:701-709 | The returned lines joined with newlines are the bytes of the block, and none contains a newline |
| LogTail.NextOffsetIsBoundaryIff | internal/gui/bindings.go:686-711 | The returned offset is a line boundary if and only if the window was not capped or holds a newline |
| LogTail.LongLineBreaksBoundary | internal/gui/bindings.go:693-696 | The promise does fail: one unbroken line past the cap makes the offset point into it |
| LogTail.PollOnShortLines | internal/gui/bindings.go:663-712 | With lines shorter than the cap a capped poll skips one contiguous run of whole lines and nothing else, and holds back only the unfinished line |
| LogTail.OffsetsStayBoundaries | internal/gui/bindings.go:663-712 | Along an append-only log of short lines every offset is a line boundary of the file it is used on, and no poll restarts |
| LogTail.BlocksAscend | internal/gui/bindings.go:663-712 | The blocks of successive polls come in file order and never overlap, so no line is shown twice |
| LogTail.RunShowsAllButTheGaps | internal/gui/bindings.go:663-712 | Over any run of polls, capped or not, the lines shown are the complete lines of the last snapshot in order and once each, except for one contiguous run of whole lines per capped poll |
| LogTail.UncappedRunLosesNothing | internal/gui/bindings.go:663-712 | While no poll is capped the lines shown are exactly all complete lines of the log, in order, once each |
| Alignment.AlignLoop | internal/application/catalog.go:225-242 | The two-step search returns what the reference `Align` names |
| Alignment.BuildTables | internal/application/catalog.go:212-221 | The offsets and the total are those of the seasons before each numbered season |
| Alignment.WindowsPartition | internal/application/catalog.go:212-221 | With distinct season numbers and non-negative counts the windows of the numbered seasons partition 1..total |
| Alignment.AbsoluteIsExact | internal/application/catalog.go:225-242 | A season-less number that season 0 does not claim is placed exactly when it lies in 1..total, in the season that owns it, with offset + relative equal to it |
| Alignment.AbsoluteIsInjective | internal/application/catalog.go:232-239 | Two season-less numbers never land on one provider episode |
| Alignment.AbsoluteIsOnto | internal/application/catalog.go:232-239 | Every provider episode of a numbered season is reached by its absolute number |
| Alignment.ClaimIsExact | internal/application/catalog.go:225-242 | A claim of season s >= 1 is placed exactly when its number is relative to s or an absolute number that s owns |
| Alignment.SpecialIsExact | internal/application/catalog.go:225-242 | A number under season 0 lands in the provider's season 0 when it fits there, and an explicit special lands nowhere else |
| Alignment.MissingSeasonIsExact | internal/application/catalog.go:225-242 | A claim of a season the provider lacks, and an explicit special without a season 0, are placed nowhere |
| Alignment.NeverMovedToAnotherSeason | internal/application/catalog.go:225-242 | For any provider data: a claimed season s >= 1, or an explicit special, is never placed in another season, and every placed number is at least 1 |
| Alignment.OffsetIsPrefixTotal | internal/application/catalog.go:212-221 | Each numbered season starts where the earlier ones end |
| SeasonBuilder.BuildSeasons | internal/application/catalog.go:208-353 | The loops over maps, key lists and tables yield the one result `Build` names, in whatever order the maps are ranged |
| SeasonBuilder.BuildTorrentOnlySeasons | internal/application/catalog.go:397-433 | Every numbered season of the torrent structure, ascending, with exactly its own keys, in order, each with its sources sorted |
| SeasonBuilder.PlaceKey | internal/application/catalog.go:259-294 | One key's ordinary files and explicit specials are placed as two groups |
| SeasonBuilder.SplitGroups | internal/application/catalog.go:262-269 | Files split into explicit specials of season 0 and the rest, in their given order |
| SeasonLaws.NothingLostOrDoubled | internal/application/catalog.go:208-353 | Conservation: the built seasons show exactly the given sources, each as often as it was given |
| SeasonLaws.SeasonsAscend | internal/application/catalog.go:295-353 | Seasons are strictly ascending, exactly those that were claimed, reached or packed, and each carries exactly the packs filed under its number |
| SeasonLaws.SeasonContents | internal/application/catalog.go:301-353 | A season's entries are strictly ascending, each holds exactly the sources aligned to it, and its unknown files are exactly those that claim it and align nowhere |
| SeasonLaws.FilesKeepTheirSeason | internal/application/catalog.go:208-353 | Whatever a built season shows, as an episode or as unknown, was filed under a key that keeps that season (season 1 or more, or an explicit special) or keeps none |
| SeasonLaws.FilesAreShownInTheirSeason | internal/application/catalog.go:208-353 | And a file whose key keeps its season is shown in that season |
| SeasonLaws.BuiltEntriesAreFilled | internal/application/catalog.go:276-332 | No entry of a built season is without sources |
| SeasonPlacement.FileIsShownWhereItAligns | internal/application/catalog.go:259-349 | Every file is shown at the entry its claim aligns to, or as unknown in the season it claims; exactly files under season 0 that say so themselves count as explicit specials |
| SeasonPlacement.SpecialsStaySpecial | internal/application/catalog.go:259-349 | A file that says S00Exx is entry xx of the provider's season 0, or unknown there |
| SeasonPlacement.SeasonlessFollowTheNumber | internal/application/catalog.go:259-349 | A file without a season is shown in the season that owns its absolute number, under its relative number |
| SeasonPlacement.EntriesAreSorted | internal/application/catalog.go:331-336 | The sources of an entry come newest upload first, then by release id downwards, then by file index |
| SeasonPlacement.SourcesAreSorted | internal/application/catalog.go:358-382 | What `sortSources` puts in front of what |
| SeasonPlacement.UnknownAreSorted | internal/application/catalog.go:341-349 | Unknown files ascend by number, and those of one number by path |
| SeasonPlacement.SeasonsAreTitled | internal/application/catalog.go:307-313 | A season is called what the provider calls it, else "Specials" for season 0 or by its number |
| SeasonPlacement.EntriesAreTitled | internal/application/catalog.go:314-336 | An entry has the provider's last name and air date for its number, else its number as its name |
| SeasonPlacement.UnknownEntriesAreGroups | internal/application/catalog.go:288-293 | A group that aligns nowhere is kept under the number and season it claims, called by its first source's title or its number |
| SeasonPlacement.TorrentEntriesAreTitled | internal/application/catalog.go:420-428 | Without a provider an entry is called by its newest source's title, else by its number |
| SeasonLaws.PlacesPartition | internal/application/catalog.go:259-294 | Summed over the distinct places of a build, the placed sources are all the sources |
| SeasonLaws.ItemIsListed | internal/application/catalog.go:276-287 | The season and entry a group is placed in are rendered |
| SeasonLaws.EntryHasItem | internal/application/catalog.go:276-287 | Every entry got a group, so it is numbered from 1 |
| SeasonLaws.GroupsSplit | internal/application/catalog.go:262-269 | The two groups of a key hold its files, each once, on the right side |
| Sorting.SortedKeys | internal/application/catalog.go:247-258 | Collecting a map's keys in any order and sorting gives one result |
| Sorting.AscendingIsUnique | internal/application/catalog.go:247-258 | An ascending list under a strict total order is determined by its elements, so any correct sort gives it |
| Sorting.SortAscends | internal/application/catalog.go:358-382 | Sorting distinct elements under a strict total order lists them strictly ascending |
| Sorting.SortOrders | internal/application/catalog.go:338-382 | With ties the sort still puts nothing behind what it precedes |
| Sorting.FirstDifferenceDecides | internal/application/catalog.go:358-395 | String order: the first difference decides, and a prefix comes first |
| Navigation.SelectSibling | internal/application/service.go:1891-1921 | The nested scan returns the key the flat scan names together with that entry's sources; with no current episode it returns nothing |
| Navigation.ScanFindsNearest | internal/application/service.go:1896-1917 | With every episode numbered from 1 the scan finds the nearest episode on the asked side, or none exactly when there is none |
| Navigation.NextIsSuccessorIff | internal/application/service.go:1896-1917 | On the loop taken alone: in an ascending list the scan finds the successor if and only if that is not numbered 0 or nothing follows it |
| Navigation.NextAndPreviousAreInverse | internal/application/service.go:1858-1927 | Going on and coming back ends where it began, in both directions |
| Navigation.NeighboursAreFound | internal/application/service.go:1896-1917 | Next and Previous are the neighbours in the list of entries |
| Navigation.NextVisitsEachOnce | internal/application/service.go:1858-1927 | Repeated Next visits each later entry once, in order, and then stops |
| Navigation.BuildIsNavigable | internal/application/catalog.go:208-353 | Whatever the files were numbered, the provider-aligned seasons meet the conditions the navigation laws need |
| Catalog.GroupSources | internal/application/catalog.go:118-141 | The loop over a title's releases files each one under its own episode, under the episodes of its playable numbered files, or as a pack of the seasons it covers, in order |
| Catalog.FilePackFiles | internal/application/catalog.go:127-137 | Files that are not playable or not numbered are skipped, all others appended under their keys |
| Catalog.FilePack | internal/application/catalog.go:138-146 | A pack is filed under each season from its first to its last, and under season 1 if it names none |
| Catalog.EpisodeMapIsSound | internal/application/catalog.go:118-137 | Whatever the names say, every key handed to the season builders is numbered from 1 and has a source |
| Catalog.MapsMean | internal/application/catalog.go:118-146 | A source is in the episode map under a key exactly when a release with that episode, or a playable file of a pack with that episode or absolute number, says so; it is a pack of a season exactly when a release without an episode covers it |
| Catalog.CatalogIsNavigable | internal/application/catalog.go:118-155 | Every title's seasons, with or without a provider, are ascending and numbered from 1, with no assumption on the releases |
| Catalog.CatalogNeighbours | internal/application/service.go:1858-1927 | Over any title's seasons Next and Previous of an entry are its neighbours and undo each other |
| Catalog.SelectInCatalog | internal/application/service.go:1870-1921 | From releases to selection: the nearest entry on the asked side with its sources, which are never empty, or nothing exactly when there is none |
| Catalog.CatalogLosesNothing | internal/application/catalog.go:118-155 | Conservation from releases to seasons: every numbered release and every playable numbered file of a pack is shown exactly once, with or without a provider |
| Catalog.CatalogShowsPacks | internal/application/catalog.go:138-146 | Each season carries exactly the packs that cover it, and every season a pack covers is shown |
| Catalog.EntriesAreFilled | internal/application/catalog.go:118-155 | No entry a title shows is without sources |
| RollUp.AggregateMediaStates | internal/application/catalog.go:715-773 | Entry by entry: when all are required the title is downloaded or watched only if all are and partial if some are managed or started, otherwise one is enough; the transfer state is the first of error, active, queued, paused and complete that occurs; the progress is the greatest, with its first owner |
| RollUp.CountersMeanDownload | internal/application/catalog.go:720-738 | The counters are full or non-zero exactly when all or some states qualify |
| RollUp.TwoLevelIsFlatIff | internal/application/catalog.go:525-535 | Rolling episodes into seasons into the title equals rolling all episodes up at once if and only if no season is without entries, or there are no entries at all, or neither all of them are downloaded nor all of them watched |
| RollUp.PackOnlySeasonHidesCompletion | internal/application/catalog.go:525-535 | It does differ: a season holding only packs next to a finished one makes a finished title "partial" |
| RollUp.FoldsAgree | internal/application/catalog.go:699-765 | Progress, its owner and the transfer state never depend on the levels |
| RollUp.DownloadLevels | internal/application/catalog.go:699-751 | The title is complete by seasons exactly when it is complete by episodes and no season is empty |
| RollUp.WatchLevels | internal/application/catalog.go:699-756 | The same for the watch state |
| RollUp.LeaderAppend | internal/application/catalog.go:737-739 | The progress leader of two lists is the better of their leaders |
| RollUp.LoudestAppend | internal/application/catalog.go:767-773 | Transfer states merge associatively across lists |
| TitleIdentity.ResolveFamilyTitleIDs | internal/domain/catalog.go:535-598 | Every release of the family, and nothing else, gets the title that the order-free definition gives it |
| TitleIdentity.CollectAnchors | internal/domain/catalog.go:540-561 | The anchors are exactly the normalised ids of the evidence, each once, with exactly its known years |
| TitleIdentity.MatchYear | internal/domain/catalog.go:575-584 | The abandoned scan tells none, exactly one and several fitting anchors apart |
| TitleIdentity.ResolveIdless | internal/domain/catalog.go:566-595 | An id-less release joins the sole title it may join and otherwise keeps its own |
| TitleIdentity.ResultsMean | internal/domain/catalog.go:535-598 | Every result is the release's own id, else the sole id it may join, else its own title and year; outside series a release with a year may join only ids seen without a year or with the same one |
| TitleIdentity.NormalIdMeans | internal/domain/catalog.go:542-565 | Surrounding white space and letter case do not matter, and nothing else is changed |
| TitleIdentity.OrderDoesNotMatter | internal/domain/catalog.go:535-598 | Any two orders of the same evidence give the same result |
| TitleIdentity.TitleIsUnique | internal/domain/catalog.go:535-598 | The definition fixes one title per release |
| TitleIdentity.SameIdSameTitle | internal/domain/catalog.go:535-598 | In the resolver's results two releases with ids share a title exactly when their normalised ids are equal |
| TitleIdentity.IdlessNeverMatter | internal/domain/catalog.go:535-598 | Adding or removing id-less releases, anywhere in the evidence, never changes the result for any release that stays |
| TitleIdentity.IdlessJoinsSoleIdIff | internal/domain/catalog.go:535-598 | In the results an id-less release shares the title of a release with an id if and only if that id is the sole one it may join; two ids that both fit keep it apart |
| Routes.ComparePair | internal/application/retention.go:101-114 | The comparator loop decides by the first distinguishing rule, then age, then engine id |
| Routes.EveryRuleListIsAnOrder | internal/application/retention.go:101-159 | Every rule list, with unknown and repeated rules, is a strict total order on routes with distinct engine ids |
| Routes.PrecedesTransitive | internal/application/retention.go:101-159 | No rule list can make the comparator cycle |
| Routes.SizeAndWatchedRules | internal/application/retention.go:118-149 | What the size and watched rules put first; a tie is left to the rest of the list |
| Routes.AgeRules | internal/application/retention.go:101-137 | What the completion rules and anything unrecognised put first, and the two final tie-breakers |
| Routes.RecencyRules | internal/application/retention.go:122-159 | What the recency rules put first, a route never played counting by its oldest row |
| Routes.ComputeCompletedAt | internal/application/retention.go:43-51 | The stand-in completion time is the oldest row timestamp of the route |
| Routes.WithoutFacts | internal/application/service.go:2505-2519 | Forgetting a route removes all of its rows and leaves every other route's rows as they were |
| Routes.StoredWithout | internal/application/retention.go:176-217 | Forgetting a route lowers the stored bytes by exactly its size, once, however many rows it had |
| Routes.StoredWithRow | internal/application/retention.go:176-217 | A saved row counts its torrent once |
| Retention.QueueFacts | internal/application/retention.go:319-329 | The candidate queue is exactly the surveyed unprotected routes in strict eviction order, so any sorting algorithm gives it |
| Retention.ForgetEngineRows | internal/application/service.go:2494-2519 | Success leaves exactly the rows of other routes; a removal that fails half way has taken the first rows of that route and touches no other |
| Retention.EvictNext | internal/application/retention.go:319-336 | The victim heads the eviction order, its engine answered, and no enabled protection spares it: nothing of it is unfinished, nothing is streamed, it is no favourite, it was watched. It declines exactly when every described route is spared for one of these reasons |
| Retention.EvictionFacts | internal/application/retention.go:319-336 | The victim was unprotected and described, precedes every other unprotected route, and all and only its rows are gone |
| Retention.ProtectedMeans | internal/application/retention.go:57-95 | A route is protected exactly for one of four reasons, each with its own toggle: unfinished, streamed by table or flag, favourite, never watched |
| Retention.RouteIsWhatItsTitlesAre | internal/application/retention.go:229-293 | A route is a favourite, or watched, exactly through a row whose title is a favourite, or whose title's latest playback was watched |
| Retention.LatestSpeaks | internal/application/retention.go:257-266 | The playback that speaks for a title is of a managed release with that title, and none such is later |
| Retention.LastPlayedMeans | internal/application/retention.go:273-293 | A route's last playback is the latest of its rows' titles, or never |
| Retention.SizesMean | internal/application/retention.go:212-214 | A route counts with the total its engine reports, and not at all without an answer |
| Retention.RunRetention | internal/application/retention.go:365-413 | Every run ends: with storage within the Allocation and the Reserve, or over them with every described route spared, or by a failure. However it ends, its evictions form a chain from the start rows, each found over a limit and of a route that no enabled protection spares, and a failing run adds at most one torn removal |
| Retention.TearFacts | internal/application/service.go:2494-2519 | Even a torn removal only touches a described, unprotected route |
| RetentionLaws.FactsAreStable | internal/application/retention.go:229-293 | With distinct titles evicting a route leaves the favourite, watched and last-played facts of the others unchanged |
| RetentionLaws.SharedTitleLosesFacts | internal/application/retention.go:229-293 | Without distinct titles it does not: evicting one route turns the other route of a watched title into never watched |
| RetentionLaws.SurveyAfterEviction | internal/application/retention.go:176-217 | The next survey is this one without the evicted route |
| RetentionLaws.QueueAfterEviction | internal/application/retention.go:387-411 | Re-surveying and re-sorting yields the old queue without its head |
| RetentionLaws.RunRemovesVictims | internal/application/retention.go:387-411 | A run in a world that stands still removes exactly the routes `Victims` lists, in order |
| RetentionLaws.ShortestPrefix | internal/application/retention.go:387-411 | With only the Allocation active the loop removes exactly the shortest prefix of the once-sorted unprotected routes that gets under the cap, or all of them |

## Left out

Not modelled:

- Network, engines, trackers, SQL and file system calls: the properties hold for any answers, which are parameters (`World`, `Poll`, `Attempt`, `Outcome`, `Removal`, `LogFile`) or enabled steps.
- Clocks, time-outs and context cancellation: a wait sees a finite list of polls, and any interleaving of steps is allowed.
- Job rows, log messages, eviction events and `routePrefix`: they report on the retention loop and do not steer it; owners that cannot be surveyed are one flag, not a list of prefixes.
- `gigabytesToBytes`: floating point; limits are integers, and no property depends on how a setting became one.
- `safeTorrentPath` and `isPlayable`: text rules; tiling and grouping hold for any such check, so the path check and the playable mark are parameters.
- Release-name parsing and the pattern for numbered files of packs: regular expressions; what they find in a name is a parameter, and the season properties hold for whatever they find.
- Provider season fetching and caching: the season properties hold for any provider structure.
- `sourceState`, `packSourceState`: the roll-up properties hold for any states of the sources.
- Family art and tile contents: freshness depends only on when a build began, so tiles are that moment.
- Finding the playing episode's key from its source, and choosing the release among the candidates of the selected episode (same release first, then seeders): selection and order of episodes do not depend on them.
- The parts of `Acquire` before the count rises (loading the row and preparing the download), and the reset of all flags at start: no lease is held yet.
- `Prepare` between admission and the saved row: it appears as the steps Enter, SaveRow and Release.
- The completed-file strategy of `internal/application/streaming.go:42-57`: it waits for nothing.
- Charset detection, subtitles, HTTP, proxies, user interfaces, self-update and data relocation: they share no state with the components above.

Assumptions, and what contracts do not say:

- Admission.OverCommitIsBounded: a torrent's size and the Allocation do not change during a run.
- AdmissionGate.Gate.EnsureAllocationRoom: one admission while the other requests stand still; interleavings are the subject of `Admission`.
- Retention.RunRetention: nobody else saves or deletes rows during the run; engine answers, leases, free space and household facts may change at every survey.
- RetentionLaws.ShortestPrefix: telemetry and household stand still and no title is managed through two routes (`SharedTitleLosesFacts` shows why).
- Leases.HeldLeaseStaysPersisted: one Release per successful Acquire, and no other code writes the flag.
- Families.FreshTilesAreCurrent: the clock is past the zero time by more than the cache's lifetime.
- Events.EventHub.PublishEvent: the check for a stopping service is an input, since it is read before the event mutex is taken; a channel is a bounded buffer with its history.
- Events.SubscribersGetTheirSlice: journal rows appended without fan-out (`internal/application/service.go:3239`) only advance the id.
- Bencode.Read: the stack depth of the recursion.
- Bencode.ReadIsLocal: the data the bytes are moved to is shorter than 2^63 bytes, as every Go slice is.
- BencodeRoundTrip.ReadEncoded: data shorter than 2^63 bytes, so that every string length is a 64-bit number.
- Manifest.ParseTorrentManifest: offsets are mathematical integers; a sum of file sizes past 2^63 does not wrap.
- Pieces.WaitRange: the number of polls before the deadline is the length of the list.
- TitleIdentity.ResolveFamilyTitleIDs: release ids are distinct, `CatalogTitleID` is taken as injective on its key (a truncated SHA-256), and trimming and lower-casing are the ASCII ones.
- SeasonBuilder.BuildTorrentOnlySeasons: no key has an empty source list, on which the code would index out of range; `Catalog.EpisodeMapIsSound` shows that the catalog never hands one over.
- SeasonBuilder.BuildSeasons: library sorts are stable insertion sorts; Go leaves the order of two unknown files with the same number and path open.
- Alignment.AbsoluteIsExact: season numbers are distinct and episode counts are not negative.
- RollUp.TwoLevelIsFlatIff: progress is a real number and labels are the enumerated ones; positions and durations are not rolled up by the code either.
- LogTail.ReadLogTail: the file does not shrink between its size being taken and its bytes being read.
