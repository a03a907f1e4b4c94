/** Stream leases: a counted in-memory table mirrored to a persisted flag by serialised
    writes that may fail. Any number of Acquire and Release calls interleave; the steps
    below are the sections the two mutexes make atomic. */
module Leases {

  type DownloadId = string
  type CallId = nat
  type Table = map<DownloadId, nat>

  // ----- the in-memory table -----

  /** A missing entry reads as zero, as in a Go map. */
  function LeaseCount(leases: Table, id: DownloadId): nat {
    if id in leases then leases[id] else 0
  }

  function Counted(leases: Table, id: DownloadId): Table {
    leases[id := LeaseCount(leases, id) + 1]
  }

  function Dropped(leases: Table, id: DownloadId): Table {
    if LeaseCount(leases, id) > 1 then leases[id := leases[id] - 1] else leases - {id}
  }

  // ----- calls in flight -----

  /** Which of the four persistLease calls a thread is in: Acquire's own write, Acquire's
      reconciling write after a failure, Release's write and Release's one retry. */
  datatype Stage = First | Reconcile | Clear | Retry

  datatype Phase =
    | Starting
    | Waiting(stage: Stage)
    | Locked(stage: Stage)
    | Writing(stage: Stage, value: bool)
    | Held
    | Dropping
    | Finished

  datatype Call = Call(id: DownloadId, phase: Phase)

  /** A flag write that reports an error may or may not have reached the row. */
  datatype Outcome = Stored | Rejected | Unconfirmed

  datatype Writer = Free | By(call: CallId)

  /** `unsettled` is history: the ids whose latest write attempt was a last attempt that failed. */
  datatype State = State(
    leases: Table,
    persisted: set<DownloadId>,
    writer: Writer,
    calls: map<CallId, Call>,
    unsettled: set<DownloadId>)

  datatype Action =
    | Begin(call: CallId, id: DownloadId)
    | Count(call: CallId)
    | Lock(call: CallId)
    | Read(call: CallId)
    | Store(call: CallId, outcome: Outcome)
    | Drop(call: CallId)
    | Release(call: CallId)

  predicate Enabled(s: State, a: Action) {
    match a
    case Begin(t, _) => t !in s.calls
    case Count(t) => t in s.calls && s.calls[t].phase.Starting?
    case Lock(t) => t in s.calls && s.calls[t].phase.Waiting? && s.writer == Free
    case Read(t) => t in s.calls && s.calls[t].phase.Locked?
    case Store(t, _) => t in s.calls && s.calls[t].phase.Writing?
    case Drop(t) => t in s.calls && s.calls[t].phase.Dropping?
    case Release(t) => t in s.calls && s.calls[t].phase.Held?
  }

  function SetFlag(persisted: set<DownloadId>, id: DownloadId, value: bool): set<DownloadId> {
    if value then persisted + {id} else persisted - {id}
  }

  /** Where a call goes after its write returned. */
  function AfterStore(stage: Stage, outcome: Outcome): Phase {
    match stage
    case First => if outcome.Stored? then Held else Dropping
    case Reconcile => Finished
    case Clear => if outcome.Stored? then Finished else Waiting(Retry)
    case Retry => Finished
  }

  function Move(s: State, t: CallId, phase: Phase): State
    requires t in s.calls
  {
    s.(calls := s.calls[t := Call(s.calls[t].id, phase)])
  }

  function Apply(s: State, a: Action): State
    requires Enabled(s, a)
  {
    match a
    case Begin(t, id) => s.(calls := s.calls[t := Call(id, Starting)])
    case Count(t) => Move(s, t, Waiting(First)).(leases := Counted(s.leases, s.calls[t].id))
    case Lock(t) => Move(s, t, Locked(s.calls[t].phase.stage)).(writer := By(t))
    case Read(t) => Move(s, t, Writing(s.calls[t].phase.stage, LeaseCount(s.leases, s.calls[t].id) > 0))
    case Store(t, outcome) => Settle(s, t, s.calls[t].id, s.calls[t].phase, outcome)
    case Drop(t) => Move(s, t, Waiting(Reconcile)).(leases := Dropped(s.leases, s.calls[t].id))
    case Release(t) =>
      var id := s.calls[t].id;
      Move(s, t, if LeaseCount(s.leases, id) > 1 then Finished else Waiting(Clear)).(leases := Dropped(s.leases, id))
  }

  /** The write returns and the write mutex is released. */
  function Settle(s: State, t: CallId, id: DownloadId, phase: Phase, outcome: Outcome): State
    requires t in s.calls && phase.Writing?
  {
    Move(s, t, AfterStore(phase.stage, outcome)).(
      writer := Free,
      persisted := if outcome.Rejected? then s.persisted else SetFlag(s.persisted, id, phase.value),
      unsettled := if outcome.Stored? then s.unsettled - {id}
                   else if phase.stage.Reconcile? || phase.stage.Retry? then s.unsettled + {id}
                   else s.unsettled)
  }

  // ----- the invariant -----

  /** Phases in which a call has one unit in the table. */
  predicate Counts(phase: Phase) {
    phase.Held? || phase.Dropping? || ((phase.Waiting? || phase.Locked? || phase.Writing?) && phase.stage.First?)
  }

  /** Phases from which a call will still read the count before it is done. */
  predicate WillRead(phase: Phase) {
    phase.Waiting? || phase.Locked? || phase.Dropping?
  }

  ghost function Holders(calls: map<CallId, Call>, id: DownloadId): set<CallId> {
    set t | t in calls && calls[t].id == id && Counts(calls[t].phase)
  }

  ghost predicate TableCounts(s: State) {
    && (forall id :: LeaseCount(s.leases, id) == |Holders(s.calls, id)|)
    && (forall id :: id in s.leases ==> s.leases[id] > 0)
  }

  /** At most one call is between taking the write mutex and its store. */
  ghost predicate OneWriter(s: State) {
    && (s.writer.By? ==> s.writer.call in s.calls)
    && (forall t :: t in s.calls ==> ((s.calls[t].phase.Locked? || s.calls[t].phase.Writing?) <==> s.writer == By(t)))
  }

  ghost predicate HeldIsPersisted(s: State) {
    forall t :: t in s.calls && s.calls[t].phase.Held? ==> s.calls[t].id in s.persisted
  }

  ghost predicate NoFalseWrite(s: State) {
    forall t :: t in s.calls && s.calls[t].phase.Writing? && !s.calls[t].phase.value ==>
      && !s.calls[t].phase.stage.First?
      && (forall u :: u in s.calls && s.calls[u].id == s.calls[t].id ==> !s.calls[u].phase.Held?)
  }

  ghost predicate NoReader(s: State, id: DownloadId) {
    forall t :: t in s.calls && s.calls[t].id == id ==> !WillRead(s.calls[t].phase)
  }

  /** Once nobody will read the count again, the value on its way to the row is the current one. */
  ghost predicate PendingAgrees(s: State) {
    forall t :: t in s.calls && s.calls[t].phase.Writing? && NoReader(s, s.calls[t].id) ==>
      s.calls[t].phase.value == (LeaseCount(s.leases, s.calls[t].id) > 0)
  }

  ghost predicate NoWriting(s: State, id: DownloadId) {
    forall t :: t in s.calls && s.calls[t].id == id ==> !s.calls[t].phase.Writing?
  }

  ghost predicate RowAgrees(s: State) {
    forall id :: NoReader(s, id) && NoWriting(s, id) && id !in s.unsettled ==>
      (id in s.persisted <==> LeaseCount(s.leases, id) > 0)
  }

  ghost predicate Inv(s: State) {
    TableCounts(s) && OneWriter(s) && HeldIsPersisted(s) && NoFalseWrite(s) && PendingAgrees(s) && RowAgrees(s)
  }

  /** A fresh process: leases never survive a restart, so every flag starts clear. */
  const INITIAL := State(map[], {}, Free, map[], {})

  lemma InitialInv()
    ensures Inv(INITIAL)
  {
    forall id ensures Holders(INITIAL.calls, id) == {} {
    }
  }

  // ----- preservation, one conjunct at a time -----

  predicate WasCounted(calls: map<CallId, Call>, t: CallId) {
    t in calls && Counts(calls[t].phase)
  }

  lemma WithoutOne(calls: set<CallId>, t: CallId)
    ensures |calls - {t}| == |calls| - (if t in calls then 1 else 0)
  {
    assert t !in calls ==> calls - {t} == calls;
  }

  lemma HoldersBeside(calls: map<CallId, Call>, t: CallId, c: Call, id: DownloadId)
    requires t in calls ==> calls[t].id == c.id
    ensures Holders(calls[t := c], id) - {t} == Holders(calls, id) - {t}
    ensures t in Holders(calls, id) <==> id == c.id && WasCounted(calls, t)
    ensures t in Holders(calls[t := c], id) <==> id == c.id && Counts(c.phase)
  {
    hide Counts;
  }

  /** Moving one call changes the holders of its own id by at most that call. */
  lemma HoldersAfter(calls: map<CallId, Call>, t: CallId, c: Call, id: DownloadId)
    requires t in calls ==> calls[t].id == c.id
    ensures |Holders(calls[t := c], id)| == |Holders(calls, id)|
      + (if id == c.id && Counts(c.phase) then 1 else 0) - (if id == c.id && WasCounted(calls, t) then 1 else 0)
  {
    hide Counts;
    hide Holders;
    var before, after := Holders(calls, id), Holders(calls[t := c], id);
    HoldersBeside(calls, t, c, id);
    WithoutOne(before, t);
    WithoutOne(after, t);
  }

  lemma TableCountsStep(s: State, a: Action)
    requires Inv(s) && Enabled(s, a)
    ensures TableCounts(Apply(s, a))
  {
    var s' := Apply(s, a);
    forall id ensures LeaseCount(s'.leases, id) == |Holders(s'.calls, id)| {
      CountStep(s, a, id);
    }
    assert forall id :: id in s.leases ==> s.leases[id] > 0;
  }

  lemma CountStep(s: State, a: Action, id: DownloadId)
    requires Enabled(s, a)
    requires LeaseCount(s.leases, id) == |Holders(s.calls, id)|
    ensures LeaseCount(Apply(s, a).leases, id) == |Holders(Apply(s, a).calls, id)|
  {
    var c := Apply(s, a).calls[a.call];
    HoldersAfter(s.calls, a.call, c, id);
    PhaseStep(s, a);
    if id == c.id && WasCounted(s.calls, a.call) {
      assert a.call in Holders(s.calls, id);
    }
  }

  /** The table and the phase of the moving call change together. */
  lemma PhaseStep(s: State, a: Action)
    requires Enabled(s, a)
    ensures var c := Apply(s, a).calls[a.call];
      && Apply(s, a).calls == s.calls[a.call := c]
      && (a.call in s.calls ==> c.id == s.calls[a.call].id)
      && (a.Count? ==> Counts(c.phase) && !WasCounted(s.calls, a.call))
      && (a.Drop? || a.Release? ==> !Counts(c.phase) && WasCounted(s.calls, a.call))
      && (!(a.Count? || a.Drop? || a.Release?) ==> Counts(c.phase) == WasCounted(s.calls, a.call))
  {
  }

  lemma OneWriterStep(s: State, a: Action)
    requires Inv(s) && Enabled(s, a)
    ensures OneWriter(Apply(s, a))
  {
    hide LeaseCount, Counted, Dropped, SetFlag, TableCounts, NoFalseWrite, PendingAgrees, RowAgrees;
  }

  /** A call that counts is one of the holders, so the table is positive at its id. */
  lemma HolderIsPositive(s: State, t: CallId)
    requires TableCounts(s) && t in s.calls && Counts(s.calls[t].phase)
    ensures LeaseCount(s.leases, s.calls[t].id) > 0
  {
    assert t in Holders(s.calls, s.calls[t].id);
  }

  lemma HeldStep(s: State, a: Action)
    requires Inv(s) && Enabled(s, a)
    ensures HeldIsPersisted(Apply(s, a))
  {
    hide LeaseCount, Counted, Dropped, TableCounts, PendingAgrees, RowAgrees;
  }

  lemma NoWriterAfterStore(s: State, a: Action)
    requires OneWriter(s) && Enabled(s, a) && a.Store?
    ensures forall t :: t in Apply(s, a).calls ==> !Apply(s, a).calls[t].phase.Writing?
  {
  }

  lemma NoFalseWriteElse(s: State, a: Action)
    requires OneWriter(s) && NoFalseWrite(s) && Enabled(s, a) && !a.Read? && !a.Store?
    ensures NoFalseWrite(Apply(s, a))
  {
    hide LeaseCount, Counted, Dropped;
  }

  lemma NoFalseWriteStep(s: State, a: Action)
    requires Inv(s) && Enabled(s, a)
    ensures NoFalseWrite(Apply(s, a))
  {
    if a.Read? {
      hide LeaseCount;
      forall u | u in s.calls && Counts(s.calls[u].phase) ensures LeaseCount(s.leases, s.calls[u].id) > 0 {
        HolderIsPositive(s, u);
      }
    } else if a.Store? {
      NoWriterAfterStore(s, a);
    } else if a.Drop? || a.Count? || a.Release? || a.Begin? || a.Lock? {
      NoFalseWriteElse(s, a);
    }
  }

  lemma PendingStep(s: State, a: Action)
    requires Inv(s) && Enabled(s, a)
    ensures PendingAgrees(Apply(s, a))
  {
    var s' := Apply(s, a);
    forall t | t in s'.calls && s'.calls[t].phase.Writing? && NoReader(s', s'.calls[t].id)
      ensures s'.calls[t].phase.value == (LeaseCount(s'.leases, s'.calls[t].id) > 0)
    {
      if t != a.call {
        NoReaderBefore(s, a, s'.calls[t].id);
      }
    }
  }

  /** An id nobody will read after a step had no reader before it, unless the step was that
      reader reading; then the step did not move the count across zero. */
  lemma NoReaderBefore(s: State, a: Action, id: DownloadId)
    requires Inv(s) && Enabled(s, a)
    requires NoReader(Apply(s, a), id)
    requires !(a.Read? && s.calls[a.call].id == id)
    ensures NoReader(s, id)
    ensures (LeaseCount(Apply(s, a).leases, id) > 0) == (LeaseCount(s.leases, id) > 0)
  {
    var s' := Apply(s, a);
    assert s'.calls[a.call].id == id ==> !WillRead(s'.calls[a.call].phase);
    forall t | t in s.calls && s.calls[t].id == id ensures !WillRead(s.calls[t].phase) {
      assert t in s'.calls && s'.calls[t].id == id;
    }
  }

  lemma RowStep(s: State, a: Action)
    requires Inv(s) && Enabled(s, a)
    ensures RowAgrees(Apply(s, a))
  {
    hide TableCounts, HeldIsPersisted, NoFalseWrite, Counted, Dropped;
    var s' := Apply(s, a);
    forall id | NoReader(s', id) && NoWriting(s', id) && id !in s'.unsettled
      ensures id in s'.persisted <==> LeaseCount(s'.leases, id) > 0
    {
      var t := a.call;
      assert s'.calls[t].id == id ==> !s'.calls[t].phase.Writing?;
      NoReaderBefore(s, a, id);
      if !(a.Store? && s.calls[t].id == id) {
        forall u | u in s.calls && s.calls[u].id == id ensures !s.calls[u].phase.Writing? {
          assert u in s'.calls;
        }
      }
    }
  }

  lemma StepKeepsInv(s: State, a: Action)
    requires Inv(s) && Enabled(s, a)
    ensures Inv(Apply(s, a))
  {
    TableCountsStep(s, a);
    OneWriterStep(s, a);
    HeldStep(s, a);
    NoFalseWriteStep(s, a);
    PendingStep(s, a);
    RowStep(s, a);
  }

  // ----- whole runs -----

  ghost predicate Legal(s: State, actions: seq<Action>)
    decreases |actions|
  {
    actions == [] || (Enabled(s, actions[0]) && Legal(Apply(s, actions[0]), actions[1..]))
  }

  ghost function Run(s: State, actions: seq<Action>): State
    requires Legal(s, actions)
    decreases |actions|
  {
    if actions == [] then s else Run(Apply(s, actions[0]), actions[1..])
  }

  lemma {:induction false} RunKeepsInv(s: State, actions: seq<Action>)
    requires Inv(s) && Legal(s, actions)
    ensures Inv(Run(s, actions))
    decreases |actions|
  {
    if actions != [] {
      StepKeepsInv(s, actions[0]);
      RunKeepsInv(Apply(s, actions[0]), actions[1..]);
    }
  }

  /** A lease that Acquire returned stays persisted until its own Release starts, whatever
      else interleaves and whichever flag writes fail. */
  lemma HeldLeaseStaysPersisted(actions: seq<Action>, t: CallId)
    requires Legal(INITIAL, actions)
    requires var s := Run(INITIAL, actions); t in s.calls && s.calls[t].phase.Held?
    ensures var s := Run(INITIAL, actions); s.calls[t].id in s.persisted && LeaseCount(s.leases, s.calls[t].id) > 0
  {
    InitialInv();
    RunKeepsInv(INITIAL, actions);
    HolderIsPositive(Run(INITIAL, actions), t);
  }

  /** No Acquire or Release is in flight for `id`. */
  ghost predicate Quiet(s: State, id: DownloadId) {
    forall t :: t in s.calls && s.calls[t].id == id ==>
      s.calls[t].phase.Starting? || s.calls[t].phase.Held? || s.calls[t].phase.Finished?
  }

  ghost function Unreleased(s: State, id: DownloadId): set<CallId> {
    set t | t in s.calls && s.calls[t].id == id && s.calls[t].phase.Held?
  }

  /** At rest the count is the number of unreleased leases, and the flag is exactly
      "count > 0" unless the latest write attempt for the id was a failed last attempt. */
  lemma QuietAgreement(actions: seq<Action>, id: DownloadId)
    requires Legal(INITIAL, actions) && Quiet(Run(INITIAL, actions), id)
    ensures var s := Run(INITIAL, actions);
      && LeaseCount(s.leases, id) == |Unreleased(s, id)|
      && (id !in s.unsettled ==> (id in s.persisted <==> LeaseCount(s.leases, id) > 0))
  {
    InitialInv();
    RunKeepsInv(INITIAL, actions);
    var s := Run(INITIAL, actions);
    assert Unreleased(s, id) == Holders(s.calls, id);
    assert NoReader(s, id) && NoWriting(s, id);
  }

  /** The steps of one persistLease call by `t`. */
  function Write(t: CallId): seq<Action> {
    [Lock(t), Read(t), Store(t, Stored)]
  }

  lemma WriteRuns(s: State, t: CallId, stage: Stage)
    requires t in s.calls && s.calls[t].phase == Waiting(stage) && s.writer == Free
    ensures Legal(s, Write(t))
    ensures var id := s.calls[t].id;
      var after := Run(s, Write(t));
      && after.writer == Free && after.leases == s.leases
      && after.persisted == (if LeaseCount(s.leases, id) > 0 then s.persisted + {id} else s.persisted - {id})
      && after.calls == s.calls[t := Call(id, if stage.First? then Held else Finished)]
  {
    var a, b, c := Lock(t), Read(t), Store(t, Stored);
    var s1 := Apply(s, a);
    var s2 := Apply(s1, b);
    var s3 := Apply(s2, c);
    assert [c][1..] == [] && [b, c][1..] == [c] && Write(t)[1..] == [b, c];
    assert Legal(s3, []) && Run(s3, []) == s3;
    assert Legal(s2, [c]) && Run(s2, [c]) == s3;
    assert Legal(s1, [b, c]) && Run(s1, [b, c]) == s3;
  }

  /** Acquire does succeed: with the write mutex free and a write that is stored it ends with a
      lease that is counted and persisted. */
  lemma AcquireEndsHeld(s: State, t: CallId, id: DownloadId)
    requires s.writer == Free && t !in s.calls
    ensures Legal(s, [Begin(t, id), Count(t)] + Write(t))
    ensures var after := Run(s, [Begin(t, id), Count(t)] + Write(t));
      && after.calls == s.calls[t := Call(id, Held)] && after.writer == Free
      && after.persisted == s.persisted + {id}
      && after.leases == s.leases[id := (if id in s.leases then s.leases[id] else 0) + 1]
  {
    var s1 := Apply(s, Begin(t, id));
    var s2 := Apply(s1, Count(t));
    var actions := [Begin(t, id), Count(t)] + Write(t);
    WriteRuns(s2, t, First);
    assert actions[1..] == [Count(t)] + Write(t) && actions[1..][1..] == Write(t);
    assert Legal(s1, actions[1..]) && Run(s1, actions[1..]) == Run(s2, Write(t));
    assert s1.calls[t := Call(id, Held)] == s.calls[t := Call(id, Held)];
  }

  /** A write that reports an error may have landed or not; Acquire then drops its unit, Release
      tries once more, and the two last attempts give up. */
  lemma FailedWrites(s: State, t: CallId, landed: bool)
    requires t in s.calls && s.calls[t].phase.Writing?
    ensures var w := s.calls[t].phase;
      var id := s.calls[t].id;
      var after := Apply(s, Store(t, if landed then Unconfirmed else Rejected));
      && after.leases == s.leases && after.writer == Free
      && after.persisted == (if !landed then s.persisted
                             else if w.value then s.persisted + {id} else s.persisted - {id})
      && after.calls == s.calls[t := Call(id, match w.stage
                                              case First => Dropping
                                              case Clear => Waiting(Retry)
                                              case _ => Finished)]
  {
  }

  /** Releasing the last unit clears the flag, with a write that is stored. */
  lemma LastReleaseClears(s: State, t: CallId)
    requires s.writer == Free && t in s.calls && s.calls[t].phase == Held
    requires LeaseCount(s.leases, s.calls[t].id) <= 1
    ensures Legal(s, [Release(t)] + Write(t))
    ensures var after := Run(s, [Release(t)] + Write(t));
      && after.calls == s.calls[t := Call(s.calls[t].id, Finished)]
      && after.persisted == s.persisted - {s.calls[t].id} && after.leases == s.leases - {s.calls[t].id}
  {
    var s1 := Apply(s, Release(t));
    var actions := [Release(t)] + Write(t);
    WriteRuns(s1, t, Clear);
    assert actions[1..] == Write(t);
  }

  /** Releasing another unit leaves the flag alone. */
  lemma EarlierReleaseWritesNothing(s: State, t: CallId)
    requires t in s.calls && s.calls[t].phase == Held && LeaseCount(s.leases, s.calls[t].id) > 1
    ensures var id := s.calls[t].id;
      var after := Apply(s, Release(t));
      && after.calls == s.calls[t := Call(id, Finished)] && after.persisted == s.persisted
      && after.leases == s.leases[id := s.leases[id] - 1]
  {
  }

  /** With no failing last attempt nothing is ever unsettled. */
  lemma {:induction false} ReliableWritesSettle(s: State, actions: seq<Action>)
    requires Legal(s, actions) && s.unsettled == {}
    requires forall a :: a in actions && a.Store? ==> a.outcome.Stored?
    ensures Run(s, actions).unsettled == {}
    decreases |actions|
  {
    if actions != [] {
      assert actions[0] in actions;
      assert Apply(s, actions[0]).unsettled == {};
      ReliableWritesSettle(Apply(s, actions[0]), actions[1..]);
    }
  }

  /** With no failing write the flag mirrors the table whenever the id is at rest. */
  lemma ReliableAgreement(actions: seq<Action>, id: DownloadId)
    requires Legal(INITIAL, actions) && Quiet(Run(INITIAL, actions), id)
    requires forall a :: a in actions && a.Store? ==> a.outcome.Stored?
    ensures var s := Run(INITIAL, actions);
      (id in s.persisted <==> Unreleased(s, id) != {}) && LeaseCount(s.leases, id) == |Unreleased(s, id)|
  {
    QuietAgreement(actions, id);
    ReliableWritesSettle(INITIAL, actions);
  }

  // ----- the calls themselves, run without interference -----

  /** A fresh unit taken and dropped leaves the table as it was. */
  lemma DropUndoesCount(leases: Table, id: DownloadId)
    requires id in leases ==> leases[id] > 0
    ensures Dropped(Counted(leases, id), id) == leases
  {
  }

  class LeaseService {
    var leases: Table
    var persisted: set<DownloadId>

    ghost predicate Valid()
      reads this
    {
      forall id :: id in leases ==> leases[id] > 0
    }

    constructor ()
      ensures Valid() && leases == INITIAL.leases && persisted == INITIAL.persisted
    {
      leases, persisted := map[], {};
    }

    method LeaseHeld(id: DownloadId) returns (held: bool)
      ensures held <==> LeaseCount(leases, id) > 0
    {
      held := id in leases && leases[id] > 0;
    }

    /** The in-memory table first, the row's own flag second. */
    method RowLeased(id: DownloadId, rowFlag: bool) returns (leased: bool)
      ensures leased <==> (LeaseCount(leases, id) > 0 || rowFlag)
    {
      leased := LeaseHeld(id);
      leased := leased || rowFlag;
    }

    method DropLease(id: DownloadId) returns (last: bool)
      requires Valid()
      modifies this`leases
      ensures Valid() && leases == Dropped(old(leases), id)
      ensures last <==> LeaseCount(leases, id) == 0
    {
      if id in leases && leases[id] > 1 {
        leases := leases[id := leases[id] - 1];
        return false;
      }
      leases := leases - {id};
      return true;
    }

    method PersistLease(id: DownloadId, outcome: Outcome) returns (ok: bool)
      modifies this`persisted
      ensures ok <==> outcome.Stored?
      ensures persisted == if outcome.Rejected? then old(persisted)
                           else SetFlag(old(persisted), id, LeaseCount(leases, id) > 0)
    {
      var held := LeaseHeld(id);
      if !outcome.Rejected? {
        persisted := if held then persisted + {id} else persisted - {id};
      }
      ok := outcome.Stored?;
    }

    method Acquire(id: DownloadId, first: Outcome, reconcile: Outcome) returns (ok: bool)
      requires Valid()
      modifies this
      ensures Valid() && (ok <==> first.Stored?)
      ensures ok ==> leases == Counted(old(leases), id) && persisted == old(persisted) + {id}
      ensures !ok ==> leases == old(leases)
      ensures !ok && reconcile.Stored? ==> persisted == SetFlag(old(persisted), id, LeaseCount(old(leases), id) > 0)
      ensures persisted - {id} == old(persisted) - {id}
    {
      leases := leases[id := (if id in leases then leases[id] else 0) + 1];
      ok := PersistLease(id, first);
      if !ok {
        DropUndoesCount(old(leases), id);
        var _ := DropLease(id);
        var _ := PersistLease(id, reconcile);
      }
    }

    method Release(id: DownloadId, first: Outcome, retry: Outcome)
      requires Valid()
      modifies this
      ensures Valid() && leases == Dropped(old(leases), id)
      ensures LeaseCount(old(leases), id) > 1 ==> persisted == old(persisted)
      ensures LeaseCount(old(leases), id) <= 1 && (first.Stored? || retry.Stored?) ==>
        persisted == old(persisted) - {id}
      ensures persisted - {id} == old(persisted) - {id}
    {
      var last := DropLease(id);
      if !last {
        return;
      }
      var ok := PersistLease(id, first);
      if !ok {
        ok := PersistLease(id, retry);
      }
    }
  }
}
