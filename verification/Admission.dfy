/** Admitting downloads under the Allocation: requests interleave with saving rows, releasing
    reservations and evicting routes.

    Each step below is one atomic section. An admission surveys the rows first and reads the
    reserved bytes later, and a release takes no lock, so other steps may fall in between.
    Nothing is assumed about how large a torrent is next to its reservation. */
module Admission {
  import opened Sorting
  import opened Routes

  type RequestId = nat

  /** Where a request stands. `Entered` holds the admission mutex with its old reservation,
      `Surveying` has dropped it, `Counted` has surveyed `stored` bytes and has yet to read the
      reserved bytes, `Cleared` passed the check and has yet to reserve. */
  datatype Phase =
    | Idle
    | Entered(incoming: nat)
    | Surveying(incoming: nat)
    | Counted(incoming: nat, stored: int)
    | Cleared(incoming: nat)
    | Admitted
    | Saved
    | Refused
    | Finished

  /** `held` is the reservation object's byte count. */
  datatype Request = Request(phase: Phase, held: nat)

  datatype Gate = Open | HeldBy(request: RequestId)

  /** `surveyed` and `late` are history: the routes the latest survey counted, and the requests
      that have since saved a row of a route it did not count. */
  datatype State = State(
    rows: seq<Row>,
    requests: seq<Request>,
    reservedBytes: int,
    gate: Gate,
    surveyed: seq<string>,
    late: set<RequestId>)

  /** Sizes never change while a torrent is managed; a zero Allocation switches the check off. */
  datatype Limits = Limits(sizes: Sizes, allocation: nat)

  datatype Action =
    | Arrive
    | Enter(q: RequestId, incoming: nat)
    | DropOld(q: RequestId)
    | Count(q: RequestId, unreachable: set<string>)
    | Check(q: RequestId)
    | Again(q: RequestId)
    | Refuse(q: RequestId)
    | Reserve(q: RequestId)
    | SaveRow(q: RequestId, row: Row)
    | SaveOther(row: Row)
    | Release(q: RequestId)
    | Evict(engineId: string)

  predicate InGate(phase: Phase) {
    phase.Entered? || phase.Surveying? || phase.Counted? || phase.Cleared?
  }

  // ----- sums over the requests -----

  function SumHeld(requests: seq<Request>): nat {
    if requests == [] then 0 else SumHeld(requests[..|requests| - 1]) + requests[|requests| - 1].held
  }

  /** A reservation stands for bytes no row shows yet. */
  function Unbacked(r: Request): nat {
    if r.phase.Saved? then 0 else r.held
  }

  function SumUnbacked(requests: seq<Request>): nat {
    if requests == [] then 0 else SumUnbacked(requests[..|requests| - 1]) + Unbacked(requests[|requests| - 1])
  }

  /** Stored bytes plus the reservations not yet backed by a row. */
  function Committed(s: State, l: Limits): int {
    StoredBytes(l.sizes, s.rows) + SumUnbacked(s.requests)
  }

  /** The bytes held by request `q` if the latest survey may have missed its torrent. */
  function Unseen(r: Request, q: RequestId, late: set<RequestId>): nat {
    if r.phase.Saved? && q !in late then 0 else r.held
  }

  function SumUnseen(requests: seq<Request>, late: set<RequestId>): nat {
    if requests == [] then 0
    else SumUnseen(requests[..|requests| - 1], late) + Unseen(requests[|requests| - 1], |requests| - 1, late)
  }

  // ----- steps -----

  predicate MayRelease(phase: Phase) {
    phase.Admitted? || phase.Saved? || phase.Refused?
  }

  predicate Enabled(s: State, a: Action, l: Limits) {
    match a
    case Arrive => true
    case Enter(q, _) =>
      q < |s.requests| && (s.requests[q].phase.Idle? || s.requests[q].phase.Admitted?) && s.gate == Open
    case DropOld(q) => q < |s.requests| && s.requests[q].phase.Entered?
    case Count(q, _) => q < |s.requests| && s.requests[q].phase.Surveying?
    case Check(q) => q < |s.requests| && s.requests[q].phase.Counted?
    case Again(q) => q < |s.requests| && s.requests[q].phase.Counted?
    case Refuse(q) => q < |s.requests| && s.requests[q].phase.Surveying?
    case Reserve(q) => q < |s.requests| && s.requests[q].phase.Cleared?
    case SaveRow(q, _) => q < |s.requests| && s.requests[q].phase.Admitted?
    case SaveOther(_) => true
    case Release(q) => q < |s.requests| && MayRelease(s.requests[q].phase)
    case Evict(_) => true
  }

  function Set(s: State, q: RequestId, r: Request): State
    requires q < |s.requests|
  {
    s.(requests := s.requests[q := r])
  }

  /** The survey: refused while any managed route cannot be described. */
  function AfterCount(s: State, l: Limits, incoming: nat, unreachable: set<string>): Phase {
    if l.allocation == 0 then Admitted
    else if exists i :: 0 <= i < |s.rows| && s.rows[i].engineId in unreachable then Refused
    else Counted(incoming, StoredBytes(l.sizes, s.rows))
  }

  /** The read and the fit check: cleared when surveyed, incoming and reserved bytes fit together; otherwise
      the loop evicts and surveys again. A torrent that fits while the Reserve is breached may
      also be sent round again, which is the step `Again`. */
  function AfterCheck(s: State, l: Limits, incoming: nat, stored: int): Phase {
    if stored + incoming + s.reservedBytes <= l.allocation then Cleared(incoming) else Surveying(incoming)
  }

  function Apply(s: State, a: Action, l: Limits): State
    requires Enabled(s, a, l)
  {
    match a
    case Arrive => s.(requests := s.requests + [Request(Idle, 0)])
    case Enter(q, incoming) => Set(s, q, s.requests[q].(phase := Entered(incoming))).(gate := HeldBy(q))
    case DropOld(q) =>
      Set(s, q, Request(Surveying(s.requests[q].phase.incoming), 0)).(
        reservedBytes := s.reservedBytes - s.requests[q].held)
    case Count(q, unreachable) =>
      var phase := AfterCount(s, l, s.requests[q].phase.incoming, unreachable);
      Set(s, q, s.requests[q].(phase := phase)).(
        gate := if InGate(phase) then s.gate else Open, surveyed := RouteIds(s.rows), late := {})
    case Check(q) =>
      var phase := AfterCheck(s, l, s.requests[q].phase.incoming, s.requests[q].phase.stored);
      Set(s, q, s.requests[q].(phase := phase))
    case Again(q) => Set(s, q, s.requests[q].(phase := Surveying(s.requests[q].phase.incoming)))
    case Refuse(q) => Set(s, q, s.requests[q].(phase := Refused)).(gate := Open)
    case Reserve(q) =>
      var incoming := s.requests[q].phase.incoming;
      Set(s, q, Request(Admitted, incoming)).(reservedBytes := s.reservedBytes + incoming, gate := Open)
    case SaveRow(q, row) =>
      Set(s, q, s.requests[q].(phase := Saved)).(
        rows := s.rows + [row], late := if row.engineId in s.surveyed then s.late else s.late + {q})
    case SaveOther(row) => s.(rows := s.rows + [row])
    case Release(q) =>
      Set(s, q, Request(Finished, 0)).(reservedBytes := s.reservedBytes - s.requests[q].held)
    case Evict(engineId) => s.(rows := Without(s.rows, engineId))
  }

  // ----- the invariant -----

  ghost predicate Sized(l: Limits) {
    forall id :: SizeOf(l.sizes, id) >= 0
  }

  /** Only admitted and saved requests, and one re-entering the gate, hold a reservation. */
  predicate MayHold(phase: Phase) {
    phase.Admitted? || phase.Saved? || phase.Entered?
  }

  /** What holds in every interleaving. */
  ghost predicate Inv(s: State) {
    && s.reservedBytes == SumHeld(s.requests)
    && (forall q :: 0 <= q < |s.requests| ==> (s.requests[q].held > 0 ==> MayHold(s.requests[q].phase)))
    && (forall q :: 0 <= q < |s.requests| ==> (InGate(s.requests[q].phase) <==> s.gate == HeldBy(q)))
    && (s.gate.HeldBy? ==> s.gate.request < |s.requests|)
    && Distinct(s.surveyed)
  }

  /** The sizes of the routes a survey did not count. */
  function Missed(sizes: Sizes, surveyed: seq<string>): Sizes {
    map id | id in sizes && id !in surveyed :: sizes[id]
  }

  /** What is committed although the latest survey did not count it, beyond what the admission
      will still read as reserved. */
  function Uncounted(s: State, l: Limits): int {
    StoredBytes(Missed(l.sizes, s.surveyed), s.rows) + SumUnbacked(s.requests) - SumUnseen(s.requests, s.late)
  }

  /** A survey in progress stored what it counted, and has lost sight of at most `loss` bytes. */
  ghost predicate CountedCovers(s: State, l: Limits, loss: nat) {
    forall q :: 0 <= q < |s.requests| && s.requests[q].phase.Counted? ==>
      l.allocation > 0 && s.requests[q].phase.stored == SumSizes(l.sizes, s.surveyed) && Uncounted(s, l) <= loss
  }

  /** What was cleared still fits, `loss` bytes aside. */
  ghost predicate ClearedFits(s: State, l: Limits, loss: nat) {
    forall q :: 0 <= q < |s.requests| && s.requests[q].phase.Cleared? ==>
      l.allocation > 0 && Committed(s, l) + s.requests[q].phase.incoming <= l.allocation + loss
  }

  ghost predicate Safe(s: State, l: Limits, loss: nat) {
    Inv(s) && CountedCovers(s, l, loss) && ClearedFits(s, l, loss)
  }

  // ----- the bytes a step loses sight of -----

  /** An admission has surveyed and has yet to read the reserved bytes. */
  predicate WindowOpen(s: State) {
    s.gate.HeldBy? && s.gate.request < |s.requests| && s.requests[s.gate.request].phase.Counted?
  }

  /** A request whose route the survey in progress has missed gives its reservation back before
      the admission reads it: its bytes are counted nowhere. */
  predicate SlipsThrough(s: State, a: Action) {
    a.Release? && WindowOpen(s) && a.q < |s.requests| && s.requests[a.q].phase.Saved? && a.q in s.late
  }

  function Slip(s: State, a: Action): nat {
    if SlipsThrough(s, a) then s.requests[a.q].held else 0
  }

  function AtLeastZero(n: int): nat {
    if n < 0 then 0 else n
  }

  /** Bytes stored without a reservation: a new route larger than what its request holds, or a
      row another call writes for a route that has none. */
  function Overdraft(s: State, a: Action, l: Limits): nat {
    match a
    case SaveRow(q, row) =>
      if row.engineId in RouteIds(s.rows) || q >= |s.requests| then 0
      else AtLeastZero(SizeOf(l.sizes, row.engineId) - s.requests[q].held)
    case SaveOther(row) =>
      if row.engineId in RouteIds(s.rows) then 0 else AtLeastZero(SizeOf(l.sizes, row.engineId))
    case _ => 0
  }

  // ----- steps keep the invariants -----

  lemma {:induction false} SumHeldUpdate(requests: seq<Request>, q: nat, r: Request)
    requires q < |requests|
    ensures SumHeld(requests[q := r]) == SumHeld(requests) - requests[q].held + r.held
    ensures SumUnbacked(requests[q := r]) == SumUnbacked(requests) - Unbacked(requests[q]) + Unbacked(r)
    decreases |requests|
  {
    var n := |requests| - 1;
    if q < n {
      SumHeldUpdate(requests[..n], q, r);
      assert requests[q := r][..n] == requests[..n][q := r];
    } else {
      assert requests[q := r][..n] == requests[..n];
    }
  }

  lemma {:induction false} SumUnseenUpdate(requests: seq<Request>, q: nat, r: Request, late: set<RequestId>)
    requires q < |requests|
    ensures SumUnseen(requests[q := r], late)
      == SumUnseen(requests, late) - Unseen(requests[q], q, late) + Unseen(r, q, late)
    decreases |requests|
  {
    var n := |requests| - 1;
    if q < n {
      SumUnseenUpdate(requests[..n], q, r, late);
      assert requests[q := r][..n] == requests[..n][q := r];
    } else {
      assert requests[q := r][..n] == requests[..n];
    }
  }

  lemma {:induction false} SumUnseenLate(requests: seq<Request>, late: set<RequestId>, q: RequestId)
    requires q < |requests| ==> !requests[q].phase.Saved?
    ensures SumUnseen(requests, late + {q}) == SumUnseen(requests, late)
    decreases |requests|
  {
    if requests != [] {
      SumUnseenLate(requests[..|requests| - 1], late, q);
    }
  }

  lemma SumHeldArrive(requests: seq<Request>, late: set<RequestId>)
    ensures SumHeld(requests + [Request(Idle, 0)]) == SumHeld(requests)
    ensures SumUnbacked(requests + [Request(Idle, 0)]) == SumUnbacked(requests)
    ensures SumUnseen(requests + [Request(Idle, 0)], late) == SumUnseen(requests, late)
  {
    assert (requests + [Request(Idle, 0)])[..|requests|] == requests;
  }

  lemma {:induction false} UnseenIsHeld(requests: seq<Request>, late: set<RequestId>)
    ensures SumUnbacked(requests) <= SumUnseen(requests, late) <= SumHeld(requests)
  {
    if requests != [] {
      UnseenIsHeld(requests[..|requests| - 1], late);
    }
  }

  /** A step adds to what is committed only by reserving what was cleared for it, or by an
      overdraft. */
  lemma CommittedStep(s: State, a: Action, l: Limits)
    requires Sized(l) && Inv(s) && Enabled(s, a, l)
    ensures Committed(Apply(s, a, l), l)
      <= Committed(s, l) + Overdraft(s, a, l) + if a.Reserve? then s.requests[a.q].phase.incoming else 0
  {
    match a
    case Arrive => SumHeldArrive(s.requests, s.late);
    case SaveOther(row) => StoredWithRow(l.sizes, s.rows, row);
    case Evict(id) =>
      StoredWithout(l.sizes, s.rows, id);
      assert SizeOf(l.sizes, id) >= 0;
    case _ => RequestStep(s, a, l);
  }

  lemma SavedCommits(s: State, q: RequestId, row: Row, l: Limits)
    requires Enabled(s, SaveRow(q, row), l)
    ensures Committed(Apply(s, SaveRow(q, row), l), l) <= Committed(s, l) + Overdraft(s, SaveRow(q, row), l)
  {
    StoredWithRow(l.sizes, s.rows, row);
    SumHeldUpdate(s.requests, q, s.requests[q].(phase := Saved));
  }

  lemma RequestStep(s: State, a: Action, l: Limits)
    requires Inv(s) && Enabled(s, a, l)
    requires !a.Arrive? && !a.SaveOther? && !a.Evict?
    ensures Committed(Apply(s, a, l), l)
      <= Committed(s, l) + Overdraft(s, a, l) + if a.Reserve? then s.requests[a.q].phase.incoming else 0
  {
    if a.SaveRow? {
      hide Apply, Committed, Overdraft, Enabled;
      SavedCommits(s, a.q, a.row, l);
    } else {
      hide StoredBytes, Overdraft, RouteIds;
      SumHeldUpdate(s.requests, a.q, Apply(s, a, l).requests[a.q]);
    }
  }

  // ----- what a survey counted -----

  lemma {:induction false} SumSame(a: Sizes, b: Sizes, ids: seq<string>)
    requires forall id :: id in ids ==> SizeOf(a, id) == SizeOf(b, id)
    ensures SumSizes(a, ids) == SumSizes(b, ids)
  {
    if ids != [] {
      assert ids[|ids| - 1] in ids;
      SumSame(a, b, ids[..|ids| - 1]);
    }
  }

  lemma {:induction false} NothingMissed(sizes: Sizes, ids: seq<string>, surveyed: seq<string>)
    requires forall id :: id in ids ==> id in surveyed
    ensures SumSizes(Missed(sizes, surveyed), ids) == 0
  {
    if ids != [] {
      assert ids[|ids| - 1] in ids;
      NothingMissed(sizes, ids[..|ids| - 1], surveyed);
    }
  }

  lemma {:induction false} SumIsNatural(sizes: Sizes, ids: seq<string>)
    requires forall id :: SizeOf(sizes, id) >= 0
    ensures SumSizes(sizes, ids) >= 0
  {
    if ids != [] {
      SumIsNatural(sizes, ids[..|ids| - 1]);
    }
  }

  /** What the survey counted and what it missed cover everything that is stored. */
  lemma {:induction false} SurveyCovers(sizes: Sizes, ids: seq<string>, surveyed: seq<string>)
    requires Distinct(ids) && Distinct(surveyed) && forall id :: SizeOf(sizes, id) >= 0
    ensures SumSizes(sizes, ids) <= SumSizes(sizes, surveyed) + SumSizes(Missed(sizes, surveyed), ids)
    decreases |ids|
  {
    if ids == [] {
      SumIsNatural(sizes, surveyed);
    } else {
      var init, last := ids[..|ids| - 1], ids[|ids| - 1];
      if last in surveyed {
        var others := Drop(surveyed, last);
        DropDistinct(surveyed, last);
        DropMembers(surveyed, last);
        SumWithout(sizes, surveyed, last);
        SurveyCovers(sizes, init, others);
        assert last !in init;
        SumSame(Missed(sizes, others), Missed(sizes, surveyed), init);
      } else {
        SurveyCovers(sizes, init, surveyed);
      }
    }
  }

  lemma {:induction false} DropDistinct(ids: seq<string>, id: string)
    requires Distinct(ids)
    ensures Distinct(Drop(ids, id))
  {
    if ids != [] {
      var init, last := ids[..|ids| - 1], ids[|ids| - 1];
      assert last !in init;
      DropDistinct(init, id);
      DropMembers(init, id);
    }
  }

  // ----- what a survey in progress has lost sight of -----

  /** While an admission has yet to read, a step loses sight of its slip and its overdraft and
      of nothing else. */
  lemma UncountedStep(s: State, a: Action, l: Limits)
    requires Sized(l) && Inv(s) && Enabled(s, a, l) && WindowOpen(s) && !a.Count?
    ensures Uncounted(Apply(s, a, l), l) <= Uncounted(s, l) + Slip(s, a) + Overdraft(s, a, l)
  {
    var missed := Missed(l.sizes, s.surveyed);
    forall id ensures 0 <= SizeOf(missed, id) <= SizeOf(l.sizes, id) {
      assert SizeOf(l.sizes, id) >= 0;
    }
    match a
    case Arrive => SumHeldArrive(s.requests, s.late);
    case SaveOther(row) => StoredWithRow(missed, s.rows, row);
    case Evict(id) => StoredWithout(missed, s.rows, id);
    case SaveRow(q, row) => SaveStep(s, q, row, l);
    case Release(q) => ReleaseStep(s, q, l);
    case _ => UnseenStep(s, a, l);
  }

  lemma SaveStep(s: State, q: RequestId, row: Row, l: Limits)
    requires Sized(l) && Inv(s) && Enabled(s, SaveRow(q, row), l)
    ensures Uncounted(Apply(s, SaveRow(q, row), l), l) <= Uncounted(s, l) + Overdraft(s, SaveRow(q, row), l)
  {
    var s' := Apply(s, SaveRow(q, row), l);
    StoredWithRow(Missed(l.sizes, s.surveyed), s.rows, row);
    SumHeldUpdate(s.requests, q, s'.requests[q]);
    SumUnseenUpdate(s.requests, q, s'.requests[q], s'.late);
    SumUnseenLate(s.requests, s.late, q);
  }

  /** A release takes the same from what is committed and from what will be read, unless it
      slips through. */
  lemma ReleaseStep(s: State, q: RequestId, l: Limits)
    requires Inv(s) && Enabled(s, Release(q), l) && WindowOpen(s)
    ensures Uncounted(Apply(s, Release(q), l), l) == Uncounted(s, l) + Slip(s, Release(q))
  {
    SumHeldUpdate(s.requests, q, Request(Finished, 0));
    SumUnseenUpdate(s.requests, q, Request(Finished, 0), s.late);
  }

  lemma UnseenStep(s: State, a: Action, l: Limits)
    requires Inv(s) && Enabled(s, a, l)
    requires a.Enter? || a.DropOld? || a.Check? || a.Again? || a.Refuse? || a.Reserve?
    ensures Uncounted(Apply(s, a, l), l) == Uncounted(s, l)
  {
    SumHeldUpdate(s.requests, a.q, Apply(s, a, l).requests[a.q]);
    SumUnseenUpdate(s.requests, a.q, Apply(s, a, l).requests[a.q], s.late);
  }

  lemma ReservedStep(s: State, a: Action, l: Limits)
    requires Inv(s) && Enabled(s, a, l)
    ensures Apply(s, a, l).reservedBytes == SumHeld(Apply(s, a, l).requests)
  {
    SumHeldArrive(s.requests, s.late);
    if !a.Arrive? && !a.SaveOther? && !a.Evict? {
      SumHeldUpdate(s.requests, a.q, Apply(s, a, l).requests[a.q]);
    }
  }

  lemma StepKeepsInv(s: State, a: Action, l: Limits)
    requires Inv(s) && Enabled(s, a, l)
    ensures Inv(Apply(s, a, l))
  {
    hide SumHeld, StoredBytes, RouteIds, Without;
    RouteIdsFacts(s.rows);
    ReservedStep(s, a, l);
  }

  /** An admission whose survey some other step finds in progress was there before, with the
      same survey. */
  lemma CountedBefore(s: State, a: Action, l: Limits, q: RequestId)
    requires Inv(s) && Enabled(s, a, l) && !a.Count?
    requires q < |Apply(s, a, l).requests| && Apply(s, a, l).requests[q].phase.Counted?
    ensures q < |s.requests| && s.requests[q] == Apply(s, a, l).requests[q] && s.gate == HeldBy(q)
    ensures Apply(s, a, l).surveyed == s.surveyed
  {
    hide SumHeld, StoredBytes, RouteIds, Without;
  }

  lemma CountedAt(s: State, a: Action, l: Limits, loss: nat, q: RequestId)
    requires Sized(l) && Safe(s, l, loss) && Enabled(s, a, l)
    requires q < |Apply(s, a, l).requests| && Apply(s, a, l).requests[q].phase.Counted?
    ensures var s' := Apply(s, a, l);
      && l.allocation > 0 && s'.requests[q].phase.stored == SumSizes(l.sizes, s'.surveyed)
      && Uncounted(s', l) <= loss + Slip(s, a) + Overdraft(s, a, l)
  {
    if a.Count? {
      CountingIsOwn(s, a, l, q);
      hide Uncounted, Sized, Overdraft, Slip;
      FreshCount(s, a, l);
    } else {
      CountedBefore(s, a, l, q);
      hide Apply, Enabled, Sized, Uncounted, Overdraft, Slip;
      UncountedStep(s, a, l);
    }
  }

  /** Right after a survey the only one in progress is that survey. */
  lemma CountingIsOwn(s: State, a: Action, l: Limits, q: RequestId)
    requires Inv(s) && Enabled(s, a, l) && a.Count?
    requires q < |Apply(s, a, l).requests| && Apply(s, a, l).requests[q].phase.Counted?
    ensures q == a.q
  {
    hide SumHeld, StoredBytes, RouteIds;
  }

  lemma CountedStep(s: State, a: Action, l: Limits, loss: nat)
    requires Sized(l) && Safe(s, l, loss) && Enabled(s, a, l)
    ensures CountedCovers(Apply(s, a, l), l, loss + Slip(s, a) + Overdraft(s, a, l))
  {
    hide Apply, Sized, Safe, Enabled, Slip, Overdraft, Uncounted, StoredBytes, SumSizes, RouteIds, Without;
    var s' := Apply(s, a, l);
    forall q | 0 <= q < |s'.requests| && s'.requests[q].phase.Counted?
      ensures l.allocation > 0 && s'.requests[q].phase.stored == SumSizes(l.sizes, s'.surveyed)
      ensures Uncounted(s', l) <= loss + Slip(s, a) + Overdraft(s, a, l)
    {
      CountedAt(s, a, l, loss, q);
    }
  }

  /** Right after a survey nothing has been lost sight of. */
  lemma FreshCount(s: State, a: Action, l: Limits)
    requires Inv(s) && Enabled(s, a, l) && a.Count?
    requires Apply(s, a, l).requests[a.q].phase.Counted?
    ensures var s' := Apply(s, a, l);
      l.allocation > 0 && s'.requests[a.q].phase.stored == SumSizes(l.sizes, s'.surveyed) && Uncounted(s', l) <= 0
  {
    var s' := Apply(s, a, l);
    NothingMissed(l.sizes, RouteIds(s.rows), RouteIds(s.rows));
    UnseenIsHeld(s'.requests, {});
  }

  /** What an admission reads covers what is committed, up to what was lost sight of. */
  lemma ReadCovers(s: State, q: RequestId, l: Limits, loss: nat)
    requires Sized(l) && Safe(s, l, loss) && q < |s.requests| && s.requests[q].phase.Counted?
    ensures Committed(s, l) <= s.requests[q].phase.stored + s.reservedBytes + loss
  {
    RouteIdsFacts(s.rows);
    SurveyCovers(l.sizes, RouteIds(s.rows), s.surveyed);
    UnseenIsHeld(s.requests, s.late);
  }

  lemma ClearedStep(s: State, a: Action, l: Limits, loss: nat)
    requires Sized(l) && Safe(s, l, loss) && Enabled(s, a, l)
    ensures ClearedFits(Apply(s, a, l), l, loss + Slip(s, a) + Overdraft(s, a, l))
  {
    var s' := Apply(s, a, l);
    StepKeepsInv(s, a, l);
    CommittedStep(s, a, l);
    hide Committed, StoredBytes, SumSizes, RouteIds, Without;
    forall q | 0 <= q < |s'.requests| && s'.requests[q].phase.Cleared?
      ensures l.allocation > 0
      ensures Committed(s', l) + s'.requests[q].phase.incoming <= l.allocation + loss + Slip(s, a) + Overdraft(s, a, l)
    {
      assert s'.gate == HeldBy(q);
      if a.Check? && a.q == q {
        ReadCovers(s, q, l, loss);
      } else {
        assert s.requests[q] == s'.requests[q] && s.gate == HeldBy(q);
        assert !a.Reserve?;
      }
    }
  }

  /** Every step keeps an admission under way safe, up to what the step loses sight of. */
  lemma StepKeepsSafe(s: State, a: Action, l: Limits, loss: nat)
    requires Sized(l) && Safe(s, l, loss) && Enabled(s, a, l)
    ensures Safe(Apply(s, a, l), l, loss + Slip(s, a) + Overdraft(s, a, l))
  {
    StepKeepsInv(s, a, l);
    CountedStep(s, a, l, loss);
    ClearedStep(s, a, l, loss);
  }

  lemma StepKeepsFit(s: State, a: Action, l: Limits, loss: nat)
    requires Sized(l) && l.allocation > 0 && Safe(s, l, loss) && Enabled(s, a, l)
    requires Committed(s, l) <= l.allocation + loss
    ensures Committed(Apply(s, a, l), l) <= l.allocation + loss + Slip(s, a) + Overdraft(s, a, l)
  {
    CommittedStep(s, a, l);
  }

  // ----- whole runs -----

  ghost predicate Legal(s: State, actions: seq<Action>, l: Limits)
    decreases |actions|
  {
    actions == [] || (Enabled(s, actions[0], l) && Legal(Apply(s, actions[0], l), actions[1..], l))
  }

  ghost function Run(s: State, actions: seq<Action>, l: Limits): State
    requires Legal(s, actions, l)
    decreases |actions|
  {
    if actions == [] then s else Run(Apply(s, actions[0], l), actions[1..], l)
  }

  /** The bytes given back by releases of the run that slip through. */
  ghost function Slipped(s: State, actions: seq<Action>, l: Limits): nat
    requires Legal(s, actions, l)
    decreases |actions|
  {
    if actions == [] then 0 else Slip(s, actions[0]) + Slipped(Apply(s, actions[0], l), actions[1..], l)
  }

  /** The bytes stored along the run without a reservation. */
  ghost function Overdrawn(s: State, actions: seq<Action>, l: Limits): nat
    requires Legal(s, actions, l)
    decreases |actions|
  {
    if actions == [] then 0 else Overdraft(s, actions[0], l) + Overdrawn(Apply(s, actions[0], l), actions[1..], l)
  }

  function Started(rows: seq<Row>): State {
    State(rows, [], 0, Open, [], {})
  }

  lemma {:induction false} RunKeepsInv(s: State, actions: seq<Action>, l: Limits)
    requires Inv(s) && Legal(s, actions, l)
    ensures Inv(Run(s, actions, l))
    decreases |actions|
  {
    if actions != [] {
      StepKeepsInv(s, actions[0], l);
      RunKeepsInv(Apply(s, actions[0], l), actions[1..], l);
    }
  }

  /** Along every run the Allocation is exceeded by no more than the bytes that slipped through
      and the bytes stored without a reservation. */
  lemma {:induction false} OverCommitIsBounded(s: State, actions: seq<Action>, l: Limits, loss: nat)
    requires Sized(l) && l.allocation > 0 && Safe(s, l, loss) && Legal(s, actions, l)
    requires Committed(s, l) <= l.allocation + loss
    ensures Committed(Run(s, actions, l), l)
      <= l.allocation + loss + Slipped(s, actions, l) + Overdrawn(s, actions, l)
    decreases |actions|
  {
    if actions != [] {
      var a := actions[0];
      StepKeepsSafe(s, a, l, loss);
      StepKeepsFit(s, a, l, loss);
      OverCommitIsBounded(Apply(s, a, l), actions[1..], l, loss + Slip(s, a) + Overdraft(s, a, l));
    }
  }

  lemma StoredIsCommitted(s: State, l: Limits)
    ensures StoredBytes(l.sizes, s.rows) <= Committed(s, l)
  {
  }

  /** No over-commit: once what is committed fits under the Allocation it keeps fitting, along
      every interleaving of admissions, re-admissions, saved rows, releases and evictions that
      loses sight of nothing. */
  lemma NeverOverCommitted(s: State, actions: seq<Action>, l: Limits)
    requires Sized(l) && l.allocation > 0 && Safe(s, l, 0) && Legal(s, actions, l)
    requires Slipped(s, actions, l) == 0 && Overdrawn(s, actions, l) == 0
    requires Committed(s, l) <= l.allocation
    ensures Committed(Run(s, actions, l), l) <= l.allocation
    ensures StoredBytes(l.sizes, Run(s, actions, l).rows) <= l.allocation
  {
    OverCommitIsBounded(s, actions, l, 0);
    StoredIsCommitted(Run(s, actions, l), l);
  }

  lemma StartFits(rows: seq<Row>, l: Limits)
    ensures Safe(Started(rows), l, 0) && Committed(Started(rows), l) == StoredBytes(l.sizes, rows)
  {
  }

  /** From a start whose stored bytes fit, no reachable state exceeds the Allocation by more
      than the run lost sight of. */
  lemma EveryReachableStateIsBounded(rows: seq<Row>, actions: seq<Action>, l: Limits)
    requires Sized(l) && l.allocation > 0 && Legal(Started(rows), actions, l)
    requires StoredBytes(l.sizes, rows) <= l.allocation
    ensures Committed(Run(Started(rows), actions, l), l)
      <= l.allocation + Slipped(Started(rows), actions, l) + Overdrawn(Started(rows), actions, l)
  {
    hide Committed, Safe, Legal, Run, Slipped, Overdrawn;
    StartFits(rows, l);
    OverCommitIsBounded(Started(rows), actions, l, 0);
  }

  /** In every reachable state the reserved counter is the sum of the live reservations, and no
      refused or finished request holds one. */
  lemma ReservationsAreExact(rows: seq<Row>, actions: seq<Action>, l: Limits)
    requires Legal(Started(rows), actions, l)
    ensures var s := Run(Started(rows), actions, l);
      && s.reservedBytes == SumHeld(s.requests)
      && forall q :: 0 <= q < |s.requests| ==>
           s.requests[q].phase.Refused? || s.requests[q].phase.Finished? ==> s.requests[q].held == 0
  {
    hide Legal, Run;
    RunKeepsInv(Started(rows), actions, l);
  }

  /** A survey that cannot account for some managed route refuses, and opens the gate; with no
      Allocation there is nothing to survey; otherwise the survey goes on to its read. */
  lemma SurveyOutcomes(s: State, q: RequestId, unreachable: set<string>, l: Limits)
    requires Inv(s) && Enabled(s, Count(q, unreachable), l)
    ensures var s' := Apply(s, Count(q, unreachable), l);
      && (l.allocation == 0 ==> s'.requests[q] == Request(Admitted, 0) && s'.gate == Open)
      && (l.allocation > 0 && (exists i :: 0 <= i < |s.rows| && s.rows[i].engineId in unreachable) ==>
            s'.requests[q] == Request(Refused, 0) && s'.gate == Open)
      && (l.allocation > 0 && (forall i :: 0 <= i < |s.rows| ==> s.rows[i].engineId !in unreachable) ==>
            && s'.requests[q].phase.Counted? && s'.requests[q].phase.stored == StoredBytes(l.sizes, s.rows)
            && s'.requests[q].phase.incoming == s.requests[q].phase.incoming && s'.gate == s.gate)
  {
    hide StoredBytes;
  }

  // ----- an atomic survey and read -----

  /** Whenever an admission has surveyed, the next step of the run is its read. */
  ghost predicate ReadsAtOnce(s: State, actions: seq<Action>, l: Limits)
    requires Legal(s, actions, l)
    decreases |actions|
  {
    actions != [] ==>
      && (WindowOpen(s) ==> actions[0].Check? || actions[0].Again?)
      && ReadsAtOnce(Apply(s, actions[0], l), actions[1..], l)
  }

  /** Were the survey and the read one atomic step, nothing would ever slip through. */
  lemma {:induction false} AtomicReadsNeverSlip(s: State, actions: seq<Action>, l: Limits)
    requires Legal(s, actions, l) && ReadsAtOnce(s, actions, l)
    ensures Slipped(s, actions, l) == 0
    decreases |actions|
  {
    if actions != [] {
      AtomicReadsNeverSlip(Apply(s, actions[0], l), actions[1..], l);
    }
  }

  /** Hence the Allocation then holds along every run that stores nothing unreserved. */
  lemma AtomicReadsKeepTheAllocation(s: State, actions: seq<Action>, l: Limits)
    requires Sized(l) && l.allocation > 0 && Safe(s, l, 0) && Committed(s, l) <= l.allocation
    requires Legal(s, actions, l) && ReadsAtOnce(s, actions, l) && Overdrawn(s, actions, l) == 0
    ensures Committed(Run(s, actions, l), l) <= l.allocation
  {
    AtomicReadsNeverSlip(s, actions, l);
    NeverOverCommitted(s, actions, l);
  }

  // ----- runs written out state by state -----

  predicate Goes(s: State, a: Action, after: State, l: Limits) {
    Enabled(s, a, l) && Apply(s, a, l) == after
  }

  ghost predicate Path(states: seq<State>, actions: seq<Action>, l: Limits) {
    && |states| == |actions| + 1
    && forall i :: 0 <= i < |actions| ==> Goes(states[i], actions[i], states[i + 1], l)
  }

  lemma {:induction false} PathRuns(states: seq<State>, actions: seq<Action>, l: Limits)
    requires Path(states, actions, l)
    ensures Legal(states[0], actions, l) && Run(states[0], actions, l) == states[|actions|]
    decreases |actions|
  {
    if actions != [] {
      assert Goes(states[0], actions[0], states[1], l);
      forall i | 0 <= i < |actions[1..]| ensures Goes(states[1..][i], actions[1..][i], states[1..][i + 1], l) {
        assert Goes(states[i + 1], actions[i + 1], states[i + 2], l);
      }
      PathRuns(states[1..], actions[1..], l);
    }
  }

  /** What a run loses sight of adds up over its parts. */
  lemma {:induction false} RunsJoin(s: State, a: seq<Action>, b: seq<Action>, l: Limits)
    requires Legal(s, a, l) && Legal(Run(s, a, l), b, l)
    ensures Legal(s, a + b, l) && Run(s, a + b, l) == Run(Run(s, a, l), b, l)
    ensures Slipped(s, a + b, l) == Slipped(s, a, l) + Slipped(Run(s, a, l), b, l)
    ensures Overdrawn(s, a + b, l) == Overdrawn(s, a, l) + Overdrawn(Run(s, a, l), b, l)
    decreases |a|
  {
    if a == [] {
      assert a + b == b;
    } else {
      assert (a + b)[1..] == a[1..] + b;
      RunsJoin(Apply(s, a[0], l), a[1..], b, l);
    }
  }

  predicate IsSave(a: Action) {
    a.SaveRow? || a.SaveOther?
  }

  lemma {:induction false} QuietRun(s: State, actions: seq<Action>, l: Limits)
    requires Legal(s, actions, l)
    requires forall a :: a in actions ==> !a.Release? && !IsSave(a)
    ensures Slipped(s, actions, l) == 0 && Overdrawn(s, actions, l) == 0
    decreases |actions|
  {
    if actions != [] {
      assert actions[0] in actions;
      assert forall a :: a in actions[1..] ==> a in actions;
      QuietRun(Apply(s, actions[0], l), actions[1..], l);
    }
  }

  lemma OneStep(s: State, a: Action, l: Limits)
    requires Enabled(s, a, l)
    ensures Legal(s, [a], l) && Run(s, [a], l) == Apply(s, a, l)
    ensures Slipped(s, [a], l) == Slip(s, a) && Overdrawn(s, [a], l) == Overdraft(s, a, l)
  {
    assert [a][1..] == [];
  }

  // ----- what is lost sight of does over-commit -----

  function AfterFirst(rows: seq<Row>, held: nat): State {
    State(rows, [Request(Admitted, held)], held, Open, RouteIds(rows), {})
  }

  function FirstSurveying(rows: seq<Row>, held: nat): State {
    State(rows, [Request(Surveying(held), 0)], 0, HeldBy(0), [], {})
  }

  lemma FirstEnters(rows: seq<Row>, held: nat, l: Limits) returns (actions: seq<Action>)
    ensures Legal(Started(rows), actions, l) && Run(Started(rows), actions, l) == FirstSurveying(rows, held)
    ensures Slipped(Started(rows), actions, l) == 0 && Overdrawn(Started(rows), actions, l) == 0
  {
    hide StoredBytes, Legal, Run;
    actions := [Arrive, Enter(0, held), DropOld(0)];
    var states := [
      Started(rows),
      State(rows, [Request(Idle, 0)], 0, Open, [], {}),
      State(rows, [Request(Entered(held), 0)], 0, HeldBy(0), [], {}),
      FirstSurveying(rows, held)];
    PathRuns(states, actions, l);
    QuietRun(states[0], actions, l);
  }

  lemma FirstReserves(rows: seq<Row>, held: nat, l: Limits) returns (actions: seq<Action>)
    requires l.allocation > 0 && StoredBytes(l.sizes, rows) + held <= l.allocation
    ensures Legal(FirstSurveying(rows, held), actions, l)
    ensures Run(FirstSurveying(rows, held), actions, l) == AfterFirst(rows, held)
    ensures Slipped(FirstSurveying(rows, held), actions, l) == 0
    ensures Overdrawn(FirstSurveying(rows, held), actions, l) == 0
  {
    hide StoredBytes, Legal, Run;
    var ids, base := RouteIds(rows), StoredBytes(l.sizes, rows);
    actions := [Count(0, {}), Check(0), Reserve(0)];
    var states := [
      FirstSurveying(rows, held),
      State(rows, [Request(Counted(held, base), 0)], 0, HeldBy(0), ids, {}),
      State(rows, [Request(Cleared(held), 0)], 0, HeldBy(0), ids, {}),
      AfterFirst(rows, held)];
    PathRuns(states, actions, l);
    QuietRun(states[0], actions, l);
  }

  /** One request is admitted with an estimate that fits. */
  lemma FirstIsAdmitted(rows: seq<Row>, held: nat, l: Limits) returns (actions: seq<Action>)
    requires l.allocation > 0 && StoredBytes(l.sizes, rows) + held <= l.allocation
    ensures Legal(Started(rows), actions, l) && Run(Started(rows), actions, l) == AfterFirst(rows, held)
    ensures Slipped(Started(rows), actions, l) == 0 && Overdrawn(Started(rows), actions, l) == 0
  {
    hide StoredBytes, Legal, Run, Slipped, Overdrawn;
    var a := FirstEnters(rows, held, l);
    var b := FirstReserves(rows, held, l);
    RunsJoin(Started(rows), a, b, l);
    actions := a + b;
  }

  function BothInside(rows: seq<Row>, held: nat, incoming: nat, l: Limits): State {
    State(
      rows, [Request(Admitted, held), Request(Counted(incoming, StoredBytes(l.sizes, rows)), 0)],
      held, HeldBy(1), RouteIds(rows), {})
  }

  /** A second request surveys, and does not see the first one's route. */
  lemma SecondSurveys(rows: seq<Row>, held: nat, incoming: nat, l: Limits) returns (actions: seq<Action>)
    requires l.allocation > 0
    ensures Legal(AfterFirst(rows, held), actions, l)
    ensures Run(AfterFirst(rows, held), actions, l) == BothInside(rows, held, incoming, l)
    ensures Slipped(AfterFirst(rows, held), actions, l) == 0 && Overdrawn(AfterFirst(rows, held), actions, l) == 0
  {
    hide StoredBytes, Legal, Run;
    var first, ids := Request(Admitted, held), RouteIds(rows);
    actions := [Arrive, Enter(1, incoming), DropOld(1), Count(1, {})];
    var states := [
      AfterFirst(rows, held),
      State(rows, [first, Request(Idle, 0)], held, Open, ids, {}),
      State(rows, [first, Request(Entered(incoming), 0)], held, HeldBy(1), ids, {}),
      State(rows, [first, Request(Surveying(incoming), 0)], held, HeldBy(1), ids, {}),
      BothInside(rows, held, incoming, l)];
    PathRuns(states, actions, l);
    QuietRun(states[0], actions, l);
  }

  function FirstGone(rows: seq<Row>, row: Row, incoming: nat, l: Limits): State {
    State(
      rows + [row], [Request(Finished, 0), Request(Counted(incoming, StoredBytes(l.sizes, rows)), 0)],
      0, HeldBy(1), RouteIds(rows), {0})
  }

  /** The first one's row is saved and its reservation given back, unseen. */
  lemma FirstSlipsOut(rows: seq<Row>, row: Row, held: nat, incoming: nat, l: Limits) returns (actions: seq<Action>)
    requires row.engineId !in RouteIds(rows) && SizeOf(l.sizes, row.engineId) == held
    ensures Legal(BothInside(rows, held, incoming, l), actions, l)
    ensures Run(BothInside(rows, held, incoming, l), actions, l) == FirstGone(rows, row, incoming, l)
    ensures Slipped(BothInside(rows, held, incoming, l), actions, l) == held
    ensures Overdrawn(BothInside(rows, held, incoming, l), actions, l) == 0
  {
    hide StoredBytes;
    var second := Request(Counted(incoming, StoredBytes(l.sizes, rows)), 0);
    var inside := BothInside(rows, held, incoming, l);
    var saved := State(rows + [row], [Request(Saved, held), second], held, HeldBy(1), RouteIds(rows), {0});
    OneStep(inside, SaveRow(0, row), l);
    OneStep(saved, Release(0), l);
    RunsJoin(inside, [SaveRow(0, row)], [Release(0)], l);
    actions := [SaveRow(0, row)] + [Release(0)];
  }

  function SecondAdmitted(rows: seq<Row>, row: Row, incoming: nat): State {
    State(rows + [row], [Request(Finished, 0), Request(Admitted, incoming)], incoming, Open, RouteIds(rows), {0})
  }

  /** The second one reads a reserved counter of zero. */
  lemma SecondIsAdmitted(rows: seq<Row>, row: Row, incoming: nat, l: Limits) returns (actions: seq<Action>)
    requires StoredBytes(l.sizes, rows) + incoming <= l.allocation
    ensures Legal(FirstGone(rows, row, incoming, l), actions, l)
    ensures Run(FirstGone(rows, row, incoming, l), actions, l) == SecondAdmitted(rows, row, incoming)
    ensures Slipped(FirstGone(rows, row, incoming, l), actions, l) == 0
    ensures Overdrawn(FirstGone(rows, row, incoming, l), actions, l) == 0
  {
    hide StoredBytes;
    actions := [Check(1), Reserve(1)];
    var states := [
      FirstGone(rows, row, incoming, l),
      State(rows + [row], [Request(Finished, 0), Request(Cleared(incoming), 0)], 0, HeldBy(1), RouteIds(rows), {0}),
      SecondAdmitted(rows, row, incoming)];
    PathRuns(states, actions, l);
    QuietRun(states[0], actions, l);
  }

  lemma BothCommitted(rows: seq<Row>, row: Row, incoming: nat, l: Limits)
    requires row.engineId !in RouteIds(rows)
    ensures Committed(SecondAdmitted(rows, row, incoming), l)
      == StoredBytes(l.sizes, rows) + SizeOf(l.sizes, row.engineId) + incoming
  {
    StoredWithRow(l.sizes, rows, row);
    var gone, admitted := Request(Finished, 0), Request(Admitted, incoming);
    assert SumUnbacked([gone]) == 0;
    assert [gone, admitted][..1] == [gone];
  }

  /** Every slip of positive size over-commits somewhere: from any start, for any route the
      start does not manage and any other torrent that fits beside the start as it does, some
      run slips exactly the route's size and ends with both committed. With an Allocation just
      large enough for the larger of the two the bound is reached. */
  lemma SlipReachesTheBound(rows: seq<Row>, row: Row, incoming: nat, l: Limits) returns (actions: seq<Action>)
    requires Sized(l) && l.allocation > 0 && row.engineId !in RouteIds(rows)
    requires StoredBytes(l.sizes, rows) + SizeOf(l.sizes, row.engineId) <= l.allocation
    requires StoredBytes(l.sizes, rows) + incoming <= l.allocation
    ensures Legal(Started(rows), actions, l)
    ensures Slipped(Started(rows), actions, l) == SizeOf(l.sizes, row.engineId)
    ensures Overdrawn(Started(rows), actions, l) == 0
    ensures Committed(Run(Started(rows), actions, l), l)
      == StoredBytes(l.sizes, rows) + incoming + Slipped(Started(rows), actions, l)
  {
    hide StoredBytes, Committed, Legal, Run, Slipped, Overdrawn;
    var held: nat := SizeOf(l.sizes, row.engineId);
    var a := FirstIsAdmitted(rows, held, l);
    var b := SecondSurveys(rows, held, incoming, l);
    var c := FirstSlipsOut(rows, row, held, incoming, l);
    var d := SecondIsAdmitted(rows, row, incoming, l);
    RunsJoin(Started(rows), a, b, l);
    RunsJoin(Started(rows), a + b, c, l);
    RunsJoin(Started(rows), a + b + c, d, l);
    actions := a + b + c + d;
    BothCommitted(rows, row, incoming, l);
  }

  /** So does every overdraft: a request admitted with less than its torrent takes up. */
  lemma OverdraftReachesTheBound(rows: seq<Row>, row: Row, held: nat, l: Limits) returns (actions: seq<Action>)
    requires Sized(l) && l.allocation > 0 && row.engineId !in RouteIds(rows)
    requires StoredBytes(l.sizes, rows) + held == l.allocation && held <= SizeOf(l.sizes, row.engineId)
    ensures Legal(Started(rows), actions, l)
    ensures Slipped(Started(rows), actions, l) == 0
    ensures Overdrawn(Started(rows), actions, l) == SizeOf(l.sizes, row.engineId) - held
    ensures Committed(Run(Started(rows), actions, l), l) == l.allocation + Overdrawn(Started(rows), actions, l)
  {
    hide StoredBytes, Legal, Run, Slipped, Overdrawn;
    var a := FirstIsAdmitted(rows, held, l);
    OneStep(AfterFirst(rows, held), SaveRow(0, row), l);
    RunsJoin(Started(rows), a, [SaveRow(0, row)], l);
    actions := a + [SaveRow(0, row)];
    StoredWithRow(l.sizes, rows, row);
    assert Apply(AfterFirst(rows, held), SaveRow(0, row), l)
      == State(rows + [row], [Request(Saved, held)], held, Open, RouteIds(rows), {0});
    assert SumUnbacked([Request(Saved, held)]) == 0;
  }

  // ----- which admissions a slip can let through -----

  /** The admission in progress asks for `incoming` bytes instead. */
  function Asking(s: State, incoming: nat): State
    requires WindowOpen(s)
  {
    var g := s.gate.request;
    Set(s, g, s.requests[g].(phase := Counted(incoming, s.requests[g].phase.stored)))
  }

  /** Request `q` gives its reservation back, then the admission reads, passes and reserves. */
  predicate LetsThrough(s: State, q: RequestId, l: Limits)
    requires WindowOpen(s) && q != s.gate.request && Enabled(s, Release(q), l)
  {
    var g := s.gate.request;
    var read := Apply(Apply(s, Release(q), l), Check(g), l);
    read.requests[g].phase.Cleared? && Committed(Apply(read, Reserve(g), l), l) > l.allocation
  }

  lemma GoneMeans(s: State, q: RequestId, l: Limits)
    requires Inv(s) && WindowOpen(s) && q != s.gate.request && Enabled(s, Release(q), l) && s.requests[q].phase.Saved?
    ensures var gone := Apply(s, Release(q), l);
      && Inv(gone) && WindowOpen(gone) && gone.gate == s.gate
      && gone.requests[s.gate.request] == s.requests[s.gate.request]
      && gone.reservedBytes == s.reservedBytes - s.requests[q].held
      && Committed(gone, l) == Committed(s, l)
  {
    StepKeepsInv(s, Release(q), l);
    SumHeldUpdate(s.requests, q, Request(Finished, 0));
  }

  lemma PassingMeans(s: State, l: Limits)
    requires Inv(s) && WindowOpen(s)
    ensures var g := s.gate.request;
      var p := s.requests[g].phase;
      var read := Apply(s, Check(g), l);
      && (read.requests[g].phase.Cleared? <==> p.stored + p.incoming + s.reservedBytes <= l.allocation)
      && (read.requests[g].phase.Cleared? ==>
            Committed(Apply(read, Reserve(g), l), l) == Committed(s, l) + p.incoming)
  {
    var g := s.gate.request;
    var read := Apply(s, Check(g), l);
    SumHeldUpdate(s.requests, g, read.requests[g]);
    SumHeldUpdate(read.requests, g, Request(Admitted, s.requests[g].phase.incoming));
  }

  lemma LetsThroughMeans(s: State, q: RequestId, l: Limits)
    requires Inv(s) && WindowOpen(s) && q != s.gate.request && Enabled(s, Release(q), l) && s.requests[q].phase.Saved?
    ensures var p := s.requests[s.gate.request].phase;
      LetsThrough(s, q, l) <==>
        p.stored + p.incoming + s.reservedBytes - s.requests[q].held <= l.allocation < Committed(s, l) + p.incoming
  {
    hide Apply, Inv, Committed;
    GoneMeans(s, q, l);
    PassingMeans(Apply(s, Release(q), l), l);
  }

  /** A release that is about to happen can let some admission through wrongly exactly when
      more is committed than the admission will read. */
  lemma SlipLeaksIff(s: State, q: RequestId, l: Limits)
    requires Inv(s) && WindowOpen(s) && Committed(s, l) <= l.allocation
    requires Enabled(s, Release(q), l) && s.requests[q].phase.Saved? && q != s.gate.request
    ensures (exists incoming: nat :: LetsThrough(Asking(s, incoming), q, l))
      <==> Committed(s, l) > s.requests[s.gate.request].phase.stored + s.reservedBytes - s.requests[q].held
  {
    var willRead := s.requests[s.gate.request].phase.stored + s.reservedBytes - s.requests[q].held;
    forall incoming: nat
      ensures LetsThrough(Asking(s, incoming), q, l)
        <==> willRead + incoming <= l.allocation < Committed(s, l) + incoming
    {
      AskingChangesNothing(s, incoming, l);
      LetsThroughMeans(Asking(s, incoming), q, l);
    }
    if Committed(s, l) > willRead {
      assert LetsThrough(Asking(s, l.allocation - willRead), q, l);
    }
  }

  /** Only a late request can leak: while nothing has been lost sight of, the release of a row
      the survey has counted lets no admission through wrongly, whatever its size. */
  lemma OnlyLateReleasesLeak(s: State, q: RequestId, incoming: nat, l: Limits)
    requires Sized(l) && Safe(s, l, 0) && WindowOpen(s) && Committed(s, l) <= l.allocation
    requires Enabled(s, Release(q), l) && s.requests[q].phase.Saved? && q != s.gate.request
    requires q !in s.late
    ensures !LetsThrough(Asking(s, incoming), q, l)
  {
    var s' := Apply(s, Release(q), l);
    StepKeepsSafe(s, Release(q), l, 0);
    ReadCovers(s', s.gate.request, l, 0);
    SumHeldUpdate(s.requests, q, Request(Finished, 0));
    hide LetsThrough, Safe, Committed;
    SlipLeaksIff(s, q, l);
  }

  lemma AskingChangesNothing(s: State, incoming: nat, l: Limits)
    requires Inv(s) && WindowOpen(s)
    ensures Inv(Asking(s, incoming)) && WindowOpen(Asking(s, incoming))
    ensures Committed(Asking(s, incoming), l) == Committed(s, l)
  {
    var g := s.gate.request;
    SumHeldUpdate(s.requests, g, Asking(s, incoming).requests[g]);
  }

  // ----- how much a request reserves -----

  /** incomingTorrentBytes: the cached manifest's total, or the tracker's size. */
  function FirstEstimate(cachedTotal: nat, releaseSize: nat): nat {
    if cachedTotal > 0 then cachedTotal else releaseSize
  }

  /** What Prepare holds when it adds the torrent: it re-admits only for a total beyond the
      tracker's size. */
  function HeldAtAdd(cachedTotal: nat, releaseSize: nat, total: nat): nat {
    var incoming := if total > 0 then total else releaseSize;
    if incoming > releaseSize then incoming else FirstEstimate(cachedTotal, releaseSize)
  }

  /** The reservation covers the torrent's files unless a cached manifest knew a smaller total
      and the tracker's size hides that from the second admission. */
  lemma ReservationCoversTorrentIff(cachedTotal: nat, releaseSize: nat, total: nat)
    ensures HeldAtAdd(cachedTotal, releaseSize, total) >= total <==> !(0 < cachedTotal < total <= releaseSize)
  {
  }

  /** With such a cache the Allocation is exceeded by what the cache was short of. */
  lemma StaleCacheOverCommits(rows: seq<Row>, row: Row, cachedTotal: nat, releaseSize: nat, l: Limits)
      returns (actions: seq<Action>)
    requires Sized(l) && l.allocation > 0 && row.engineId !in RouteIds(rows)
    requires 0 < cachedTotal < SizeOf(l.sizes, row.engineId) <= releaseSize
    requires StoredBytes(l.sizes, rows) + cachedTotal == l.allocation
    ensures Legal(Started(rows), actions, l)
    ensures HeldAtAdd(cachedTotal, releaseSize, SizeOf(l.sizes, row.engineId)) == cachedTotal
    ensures Committed(Run(Started(rows), actions, l), l)
      == l.allocation + SizeOf(l.sizes, row.engineId) - cachedTotal
  {
    actions := OverdraftReachesTheBound(rows, row, cachedTotal, l);
  }
}
