/** Event fan-out: one journal append and one non-blocking send per subscriber under one
    mutex; a subscriber whose channel is full is closed and removed; shutdown closes all. */
module Events {

  type ChannelId = nat

  const CHANNEL_CAPACITY: nat := 32

  datatype Event = Event(id: nat, kind: string, payload: string)

  /** A Go channel as its consumer and producers see it. `received`, `from` and `upto` are
      history: what was taken out, and how long the fan-out log was when the channel was
      registered and when it was removed. */
  datatype Channel = Channel(buffer: seq<Event>, open: bool, received: seq<Event>, from: nat, upto: nat)

  /** `log` is history: the events fanned out so far. `panicked` records a send on, or a
      close of, a closed channel, which aborts a Go program. */
  datatype State = State(
    subscribers: set<ChannelId>,
    channels: map<ChannelId, Channel>,
    closed: bool,
    lastId: nat,
    log: seq<Event>,
    panicked: bool)

  const INITIAL := State({}, map[], false, 0, [], false)

  // ----- the sections of the code -----

  function Close(ch: Channel, at: nat): Channel {
    ch.(open := false, upto := at)
  }

  /** One arm of publish's select: send if there is room, otherwise close. */
  function Deliver(ch: Channel, e: Event, at: nat): Channel {
    if |ch.buffer| < CHANNEL_CAPACITY then ch.(buffer := ch.buffer + [e]) else Close(ch, at)
  }

  predicate Dangling(s: State) {
    exists c :: c in s.subscribers && (c !in s.channels || !s.channels[c].open)
  }

  function Publish(s: State, kind: string, payload: string): State {
    var e := Event(s.lastId + 1, kind, payload);
    State(
      set c | c in s.subscribers && c in s.channels && |s.channels[c].buffer| < CHANNEL_CAPACITY,
      map c | c in s.channels :: if c in s.subscribers then Deliver(s.channels[c], e, |s.log|) else s.channels[c],
      s.closed,
      s.lastId + 1,
      s.log + [e],
      s.panicked || Dangling(s))
  }

  /** The journal row that bypasses the fan-out. */
  function JournalOnly(s: State): State {
    s.(lastId := s.lastId + 1)
  }

  function Subscribe(s: State, c: ChannelId): State {
    var ch := Channel([], !s.closed, [], |s.log|, |s.log|);
    s.(channels := s.channels[c := ch], subscribers := if s.closed then s.subscribers else s.subscribers + {c})
  }

  /** The function SubscribeEvents hands back. */
  function Cancel(s: State, c: ChannelId): State {
    if c in s.subscribers && c in s.channels then
      s.(subscribers := s.subscribers - {c},
         channels := s.channels[c := Close(s.channels[c], |s.log|)],
         panicked := s.panicked || !s.channels[c].open)
    else s
  }

  function CloseStreams(s: State): State {
    s.(closed := true,
       subscribers := {},
       channels :=
         map c | c in s.channels :: if c in s.subscribers then Close(s.channels[c], |s.log|) else s.channels[c],
       panicked := s.panicked || Dangling(s))
  }

  /** The consumer takes the oldest buffered event; a closed channel still drains. */
  function Receive(s: State, c: ChannelId): State
    requires c in s.channels && s.channels[c].buffer != []
  {
    var ch := s.channels[c];
    s.(channels := s.channels[c := ch.(buffer := ch.buffer[1..], received := ch.received + [ch.buffer[0]])])
  }

  // ----- steps and runs -----

  datatype Action =
    | DoPublish(kind: string, payload: string)
    | DoJournalOnly
    | DoSubscribe(c: ChannelId)
    | DoCancel(c: ChannelId)
    | DoCloseStreams
    | DoReceive(c: ChannelId)

  predicate Enabled(s: State, a: Action) {
    match a
    case DoSubscribe(c) => c !in s.channels
    case DoReceive(c) => c in s.channels && s.channels[c].buffer != []
    case _ => true
  }

  function Apply(s: State, a: Action): State
    requires Enabled(s, a)
  {
    match a
    case DoPublish(kind, payload) => Publish(s, kind, payload)
    case DoJournalOnly => JournalOnly(s)
    case DoSubscribe(c) => Subscribe(s, c)
    case DoCancel(c) => Cancel(s, c)
    case DoCloseStreams => CloseStreams(s)
    case DoReceive(c) => Receive(s, c)
  }

  ghost predicate Legal(s: State, actions: seq<Action>)
    decreases |actions|
  {
    actions == [] || (Enabled(s, actions[0]) && Legal(Apply(s, actions[0]), actions[1..]))
  }

  ghost function Run(s: State, actions: seq<Action>): State
    requires Legal(s, actions)
    decreases |actions|
  {
    if actions == [] then s else Run(Apply(s, actions[0]), actions[1..])
  }

  // ----- the invariant -----

  /** Up to where the log belongs to channel `c`: all of it while registered. */
  function End(s: State, c: ChannelId): nat
    requires c in s.channels
  {
    if c in s.subscribers then |s.log| else s.channels[c].upto
  }

  ghost predicate RegisteredIffOpen(s: State) {
    && s.subscribers <= s.channels.Keys
    && (forall c :: c in s.channels ==> (s.channels[c].open <==> c in s.subscribers))
    && (s.closed ==> s.subscribers == {})
    && !s.panicked
  }

  ghost predicate DeliveredSlice(s: State, c: ChannelId)
    requires c in s.channels
  {
    var ch := s.channels[c];
    && ch.from <= End(s, c) <= |s.log|
    && ch.received + ch.buffer == s.log[ch.from..End(s, c)]
  }

  ghost predicate AllDelivered(s: State) {
    forall c :: c in s.channels ==> DeliveredSlice(s, c)
  }

  ghost predicate IdsAscend(s: State) {
    && (forall i, j :: 0 <= i < j < |s.log| ==> s.log[i].id < s.log[j].id)
    && (forall i :: 0 <= i < |s.log| ==> s.log[i].id <= s.lastId)
  }

  ghost predicate Inv(s: State) {
    RegisteredIffOpen(s) && AllDelivered(s) && IdsAscend(s)
  }

  lemma RegisteredStep(s: State, a: Action)
    requires Inv(s) && Enabled(s, a)
    ensures RegisteredIffOpen(Apply(s, a))
  {
  }

  lemma IdsStep(s: State, a: Action)
    requires Inv(s) && Enabled(s, a)
    ensures IdsAscend(Apply(s, a))
  {
  }

  lemma SliceOfAppend(log: seq<Event>, e: Event, from: nat, to: nat)
    requires from <= to <= |log|
    ensures (log + [e])[from..to] == log[from..to]
    ensures to == |log| ==> (log + [e])[from..to + 1] == log[from..to] + [e]
  {
  }

  lemma DeliveredStep(s: State, a: Action, c: ChannelId)
    requires Inv(s) && Enabled(s, a) && c in Apply(s, a).channels
    ensures DeliveredSlice(Apply(s, a), c)
  {
    if c in s.channels {
      match a
      case DoPublish(kind, payload) => DeliveredPublish(s, kind, payload, c);
      case DoReceive(d) => DeliveredReceive(s, d, c);
      case _ => assert DeliveredSlice(s, c);
    }
  }

  lemma DeliveredPublish(s: State, kind: string, payload: string, c: ChannelId)
    requires RegisteredIffOpen(s) && c in s.channels && DeliveredSlice(s, c)
    ensures DeliveredSlice(Publish(s, kind, payload), c)
  {
    var ch, e := s.channels[c], Event(s.lastId + 1, kind, payload);
    SliceOfAppend(s.log, e, ch.from, End(s, c));
    assert ch.received + (ch.buffer + [e]) == (ch.received + ch.buffer) + [e];
  }

  lemma DeliveredReceive(s: State, d: ChannelId, c: ChannelId)
    requires c in s.channels && DeliveredSlice(s, c)
    requires d in s.channels && s.channels[d].buffer != []
    ensures DeliveredSlice(Receive(s, d), c)
  {
    var ch := s.channels[c];
    assert ch.buffer != [] ==> ch.received + ch.buffer == ch.received + [ch.buffer[0]] + ch.buffer[1..];
  }

  lemma StepKeepsInv(s: State, a: Action)
    requires Inv(s) && Enabled(s, a)
    ensures Inv(Apply(s, a))
  {
    RegisteredStep(s, a);
    IdsStep(s, a);
    forall c | c in Apply(s, a).channels ensures DeliveredSlice(Apply(s, a), c) {
      DeliveredStep(s, a, c);
    }
  }

  lemma {:induction false} RunKeepsInv(s: State, actions: seq<Action>)
    requires Inv(s) && Legal(s, actions)
    ensures Inv(Run(s, actions))
    decreases |actions|
  {
    if actions != [] {
      StepKeepsInv(s, actions[0]);
      RunKeepsInv(Apply(s, actions[0]), actions[1..]);
    }
  }

  // ----- what subscribers get -----

  /** In every run each channel has carried exactly the events fanned out between its
      subscription and its removal, in strictly increasing id order. */
  lemma SubscribersGetTheirSlice(actions: seq<Action>, c: ChannelId)
    requires Legal(INITIAL, actions) && c in Run(INITIAL, actions).channels
    ensures var s := Run(INITIAL, actions);
      var got := s.channels[c].received + s.channels[c].buffer;
      && s.channels[c].from <= End(s, c) <= |s.log|
      && got == s.log[s.channels[c].from..End(s, c)]
      && forall i, j :: 0 <= i < j < |got| ==> got[i].id < got[j].id
  {
    RunKeepsInv(INITIAL, actions);
    assert DeliveredSlice(Run(INITIAL, actions), c);
  }

  /** No run sends on, or closes, a closed channel: each channel is closed at most once. */
  lemma NeverPanics(actions: seq<Action>)
    requires Legal(INITIAL, actions)
    ensures !Run(INITIAL, actions).panicked
  {
    RunKeepsInv(INITIAL, actions);
  }

  lemma ClosedStep(s: State, a: Action, c: ChannelId)
    requires RegisteredIffOpen(s) && Enabled(s, a) && c in s.channels && !s.channels[c].open
    ensures var s' := Apply(s, a);
      && c in s'.channels && !s'.channels[c].open
      && End(s', c) == End(s, c) && s'.channels[c].from == s.channels[c].from
  {
  }

  /** Removal is final: a closed channel stays closed and its slice stays what it was. */
  lemma {:induction false} ClosedStaysClosed(s: State, actions: seq<Action>, c: ChannelId)
    requires Inv(s) && Legal(s, actions) && c in s.channels && !s.channels[c].open
    ensures c in Run(s, actions).channels && !Run(s, actions).channels[c].open
    ensures End(Run(s, actions), c) == End(s, c) && Run(s, actions).channels[c].from == s.channels[c].from
    decreases |actions|
  {
    if actions != [] {
      StepKeepsInv(s, actions[0]);
      ClosedStep(s, actions[0], c);
      hide Inv, Apply, Enabled;
      ClosedStaysClosed(Apply(s, actions[0]), actions[1..], c);
    }
  }

  /** After shutdown no channel is open, including the ones subscribed later. */
  lemma {:induction false} ShutdownIsFinal(s: State, actions: seq<Action>)
    requires Inv(s) && s.closed && Legal(s, actions)
    ensures Run(s, actions).closed && Run(s, actions).subscribers == {}
    ensures forall c :: c in Run(s, actions).channels ==> !Run(s, actions).channels[c].open
    decreases |actions|
  {
    if actions != [] {
      StepKeepsInv(s, actions[0]);
      ShutdownIsFinal(Apply(s, actions[0]), actions[1..]);
    }
  }

  // ----- a subscription is worth something -----

  /** Nothing that ends or drains channel `c`. */
  predicate LeavesAlone(a: Action, c: ChannelId) {
    !a.DoCloseStreams? && a != DoCancel(c) && a != DoReceive(c)
  }

  function Publishes(actions: seq<Action>): nat {
    if actions == [] then 0 else (if actions[0].DoPublish? then 1 else 0) + Publishes(actions[1..])
  }

  lemma SubscribedStep(s: State, a: Action, c: ChannelId)
    requires Inv(s) && Enabled(s, a) && LeavesAlone(a, c)
    requires c in s.channels && s.channels[c].open && s.channels[c].received == [] && !s.closed
    requires |s.channels[c].buffer| + (if a.DoPublish? then 1 else 0) <= 32
    ensures var s' := Apply(s, a);
      && c in s'.channels && s'.channels[c].open && s'.channels[c].received == [] && !s'.closed
      && s'.channels[c].from == s.channels[c].from
      && |s'.channels[c].buffer| == |s.channels[c].buffer| + (if a.DoPublish? then 1 else 0)
  {
  }

  lemma {:induction false} SubscribedRun(s: State, actions: seq<Action>, c: ChannelId)
    requires Inv(s) && Legal(s, actions) && forall a :: a in actions ==> LeavesAlone(a, c)
    requires c in s.channels && s.channels[c].open && s.channels[c].received == [] && !s.closed
    requires |s.channels[c].buffer| + Publishes(actions) <= 32
    ensures var t := Run(s, actions);
      && Inv(t) && c in t.channels && t.channels[c].open && t.channels[c].received == []
      && t.channels[c].from == s.channels[c].from
    decreases |actions|
  {
    if actions != [] {
      assert actions[0] in actions;
      StepKeepsInv(s, actions[0]);
      SubscribedStep(s, actions[0], c);
      hide Inv, Apply, Enabled;
      SubscribedRun(Apply(s, actions[0]), actions[1..], c);
    }
  }

  /** A subscription to an open hub: through any run with up to 32 publishes, and whatever other
      subscribers do, the channel stays open and holds every event published since, in order. */
  lemma SubscriptionCollects(s: State, c: ChannelId, actions: seq<Action>)
    requires Inv(s) && !s.closed && c !in s.channels
    requires Legal(Subscribe(s, c), actions) && Publishes(actions) <= 32
    requires forall a :: a in actions ==> LeavesAlone(a, c)
    ensures var t := Run(Subscribe(s, c), actions);
      && c in t.subscribers && c in t.channels && t.channels[c].open
      && |s.log| <= |t.log| && t.channels[c].buffer == t.log[|s.log|..]
  {
    StepKeepsInv(s, DoSubscribe(c));
    SubscribedRun(Subscribe(s, c), actions, c);
    var t := Run(Subscribe(s, c), actions);
    assert DeliveredSlice(t, c);
    assert [] + t.channels[c].buffer == t.channels[c].buffer;
  }

  function PublishAll(events: seq<(string, string)>): seq<Action> {
    seq(|events|, i requires 0 <= i < |events| => DoPublish(events[i].0, events[i].1))
  }

  /** What a run of publishes puts into the log: each event once, with the next ids. */
  lemma {:induction false} PublishesAreLogged(s: State, events: seq<(string, string)>)
    ensures Legal(s, PublishAll(events))
    ensures Publishes(PublishAll(events)) == |events|
    ensures var t := Run(s, PublishAll(events));
      && |t.log| == |s.log| + |events| && t.log[..|s.log|] == s.log
      && forall i :: 0 <= i < |events| ==>
           t.log[|s.log| + i] == Event(s.lastId + 1 + i, events[i].0, events[i].1)
    decreases |events|
  {
    if events != [] {
      var a := DoPublish(events[0].0, events[0].1);
      assert PublishAll(events)[0] == a && PublishAll(events)[1..] == PublishAll(events[1..]);
      PublishesAreLogged(Apply(s, a), events[1..]);
      var t := Run(s, PublishAll(events));
      assert t.log[..|s.log| + 1] == s.log + [Event(s.lastId + 1, events[0].0, events[0].1)];
      assert t.log[..|s.log|] == t.log[..|s.log| + 1][..|s.log|];
      forall i | 0 <= i < |events| ensures t.log[|s.log| + i] == Event(s.lastId + 1 + i, events[i].0, events[i].1) {
        if i == 0 {
          assert t.log[..|s.log| + 1][|s.log|] == t.log[|s.log|];
        } else {
          assert events[1..][i - 1] == events[i];
        }
      }
    }
  }

  /** A journal row without fan-out takes an id and reaches no channel. */
  lemma JournalRowsAreSilent(s: State, kind: string, payload: string)
    ensures JournalOnly(s).channels == s.channels && JournalOnly(s).subscribers == s.subscribers
    ensures JournalOnly(s).log == s.log
    ensures Publish(JournalOnly(s), kind, payload).log == s.log + [Event(s.lastId + 2, kind, payload)]
  {
  }

  /** Subscribing and then publishing up to 32 events leaves exactly these in the channel. */
  lemma SubscriberGetsTheNextEvents(s: State, c: ChannelId, events: seq<(string, string)>)
    requires Inv(s) && !s.closed && c !in s.channels && |events| <= 32
    ensures Legal(Subscribe(s, c), PublishAll(events))
    ensures var t := Run(Subscribe(s, c), PublishAll(events));
      && c in t.subscribers && c in t.channels && t.channels[c].open && |t.channels[c].buffer| == |events|
      && forall i :: 0 <= i < |events| ==>
           t.channels[c].buffer[i] == Event(s.lastId + 1 + i, events[i].0, events[i].1)
  {
    PublishesAreLogged(Subscribe(s, c), events);
    SubscriptionCollects(s, c, PublishAll(events));
  }

  // ----- a fan-out under way -----

  /** The fan-out of `e` has reached every subscriber but those in `rest`. */
  ghost predicate FannedOut(
      before: map<ChannelId, Channel>, subscribers: set<ChannelId>, rest: set<ChannelId>,
      now: map<ChannelId, Channel>, registered: set<ChannelId>, e: Event, at: nat)
  {
    && rest <= registered <= subscribers <= before.Keys && now.Keys == before.Keys
    && (forall c :: c in subscribers ==> before[c].open)
    && (forall c :: c in before && (c in rest || c !in subscribers) ==> now[c] == before[c])
    && (forall c :: c in subscribers && c !in rest ==> now[c] == Deliver(before[c], e, at))
    && (forall c :: c in subscribers && c !in rest ==> (c in registered <==> |before[c].buffer| < CHANNEL_CAPACITY))
  }

  lemma FanOutStarts(s: State, e: Event)
    requires RegisteredIffOpen(s)
    ensures FannedOut(s.channels, s.subscribers, s.subscribers, s.channels, s.subscribers, e, |s.log|) && !s.panicked
  {
  }

  lemma FanOutStep(
      before: map<ChannelId, Channel>, subscribers: set<ChannelId>, rest: set<ChannelId>,
      now: map<ChannelId, Channel>, registered: set<ChannelId>, e: Event, at: nat, c: ChannelId)
    requires FannedOut(before, subscribers, rest, now, registered, e, at) && c in rest
    ensures c in now && now[c].open
    ensures FannedOut(
      before, subscribers, rest - {c}, now[c := Deliver(now[c], e, at)],
      registered - (if |now[c].buffer| < CHANNEL_CAPACITY then {} else {c}), e, at)
  {
    hide Deliver;
  }

  lemma FanOutEnds(
      before: map<ChannelId, Channel>, subscribers: set<ChannelId>,
      now: map<ChannelId, Channel>, registered: set<ChannelId>, e: Event, at: nat)
    requires FannedOut(before, subscribers, {}, now, registered, e, at)
    ensures now.Keys == before.Keys && registered <= subscribers <= before.Keys
    ensures forall c :: c in now ==> now[c] == if c in subscribers then Deliver(before[c], e, at) else before[c]
    ensures forall c :: c in registered <==> c in subscribers && |before[c].buffer| < CHANNEL_CAPACITY
  {
  }

  // ----- the hub object -----

  class EventHub {
    var eventSubscribers: set<ChannelId>
    var channels: map<ChannelId, Channel>
    var eventsClosed: bool
    var lastId: nat
    var log: seq<Event> // history, as in State
    var panicked: bool

    ghost function View(): State
      reads this
    {
      State(eventSubscribers, channels, eventsClosed, lastId, log, panicked)
    }

    constructor ()
      ensures View() == INITIAL && Inv(View())
    {
      eventSubscribers, channels, eventsClosed, lastId, log, panicked := {}, map[], false, 0, [], false;
    }

    /** The select: a full channel is closed and removed. */
    method SendOrClose(c: ChannelId, e: Event)
      requires c in channels
      modifies this`eventSubscribers, this`channels, this`panicked
      ensures channels == old(channels)[c := Deliver(old(channels)[c], e, |log|)]
      ensures eventSubscribers == old(eventSubscribers)
        - (if |old(channels)[c].buffer| < CHANNEL_CAPACITY then {} else {c})
      ensures panicked == (old(panicked) || !old(channels)[c].open)
    {
      panicked := panicked || !channels[c].open;
      if |channels[c].buffer| < CHANNEL_CAPACITY {
        channels := channels[c := channels[c].(buffer := channels[c].buffer + [e])];
      } else {
        channels := channels[c := Close(channels[c], |log|)];
        eventSubscribers := eventSubscribers - {c};
      }
    }

    /** Go's range over the subscriber map: any order, each subscriber once. */
    method FanOut(e: Event)
      requires RegisteredIffOpen(View())
      modifies this`eventSubscribers, this`channels, this`panicked
      ensures channels.Keys == old(channels.Keys) && !panicked
      ensures forall c :: c in channels ==>
        channels[c] == if c in old(eventSubscribers) then Deliver(old(channels)[c], e, |log|) else old(channels)[c]
      ensures forall c :: c in eventSubscribers <==>
        c in old(eventSubscribers) && |old(channels)[c].buffer| < CHANNEL_CAPACITY
    {
      var subscribers, before := eventSubscribers, channels;
      var rest := eventSubscribers;
      hide FannedOut, Deliver, RegisteredIffOpen;
      FanOutStarts(View(), e);
      while rest != {}
        invariant FannedOut(before, subscribers, rest, channels, eventSubscribers, e, |log|) && !panicked
        decreases |rest|
      {
        var c :| c in rest;
        FanOutStep(before, subscribers, rest, channels, eventSubscribers, e, |log|, c);
        rest := rest - {c};
        SendOrClose(c, e);
      }
      FanOutEnds(before, subscribers, channels, eventSubscribers, e, |log|);
    }

    /** The section under the event mutex. */
    method AppendAndFanOut(kind: string, payload: string)
      requires RegisteredIffOpen(View())
      modifies this
      ensures View() == Publish(old(View()), kind, payload)
    {
      ghost var after := Publish(View(), kind, payload);
      lastId := lastId + 1;
      var e := Event(lastId, kind, payload);
      FanOut(e);
      log := log + [e];
      assert eventSubscribers == after.subscribers;
      assert channels == after.channels;
    }

    method PublishEvent(stopping: bool, journalOk: bool, kind: string, payload: string)
      requires Inv(View())
      modifies this
      ensures Inv(View())
      ensures View() == if stopping || !journalOk then old(View()) else Publish(old(View()), kind, payload)
      ensures !stopping && journalOk ==>
        && lastId == old(lastId) + 1 && log == old(log) + [Event(old(lastId) + 1, kind, payload)]
        && eventsClosed == old(eventsClosed)
        && (forall c :: c in old(eventSubscribers) ==>
              var before := old(channels)[c];
              && c in channels && channels[c].received == before.received
              && (if |before.buffer| < 32 then
                    && c in eventSubscribers && channels[c].open
                    && channels[c].buffer == before.buffer + [Event(old(lastId) + 1, kind, payload)]
                  else c !in eventSubscribers && !channels[c].open && channels[c].buffer == before.buffer))
        && (forall c :: c in old(channels) && c !in old(eventSubscribers) ==>
              c in channels && channels[c] == old(channels)[c] && c !in eventSubscribers)
    {
      if stopping || !journalOk {
        return;
      }
      StepKeepsInv(View(), DoPublish(kind, payload));
      AppendAndFanOut(kind, payload);
    }

    method SubscribeEvents(c: ChannelId)
      requires Inv(View()) && c !in channels
      modifies this
      ensures Inv(View()) && View() == Subscribe(old(View()), c)
      ensures c in channels && channels[c].buffer == [] && channels[c].received == []
      ensures !old(eventsClosed) ==>
        channels[c].open && channels[c].from == |log| && eventSubscribers == old(eventSubscribers) + {c}
      ensures old(eventsClosed) ==> !channels[c].open && eventSubscribers == old(eventSubscribers)
      ensures forall d :: d in old(channels) ==> d in channels && channels[d] == old(channels)[d]
      ensures log == old(log) && lastId == old(lastId) && eventsClosed == old(eventsClosed)
    {
      StepKeepsInv(View(), DoSubscribe(c));
      channels := channels[c := Channel([], !eventsClosed, [], |log|, |log|)];
      if !eventsClosed {
        eventSubscribers := eventSubscribers + {c};
      }
    }

    method CancelSubscription(c: ChannelId)
      requires Inv(View())
      modifies this
      ensures Inv(View()) && View() == Cancel(old(View()), c)
      ensures c in old(eventSubscribers) ==>
        && eventSubscribers == old(eventSubscribers) - {c}
        && c in channels && !channels[c].open && channels[c].buffer == old(channels)[c].buffer
      ensures c !in old(eventSubscribers) ==> channels == old(channels) && eventSubscribers == old(eventSubscribers)
      ensures forall d :: d in old(channels) && d != c ==> d in channels && channels[d] == old(channels)[d]
      ensures log == old(log) && lastId == old(lastId) && eventsClosed == old(eventsClosed)
    {
      StepKeepsInv(View(), DoCancel(c));
      if c in eventSubscribers {
        eventSubscribers := eventSubscribers - {c};
        panicked := panicked || !channels[c].open;
        channels := channels[c := Close(channels[c], |log|)];
      }
    }

    method CloseAll()
      requires RegisteredIffOpen(View())
      modifies this`eventSubscribers, this`channels, this`panicked
      ensures channels.Keys == old(channels.Keys) && !panicked && eventSubscribers == {}
      ensures forall c :: c in channels ==>
        channels[c] == if c in old(eventSubscribers) then Close(old(channels)[c], |log|) else old(channels)[c]
    {
      var subscribers, before := eventSubscribers, channels;
      while eventSubscribers != {}
        invariant eventSubscribers <= subscribers
        invariant channels.Keys == before.Keys && !panicked
        invariant forall c :: c in before && (c in eventSubscribers || c !in subscribers) ==> channels[c] == before[c]
        invariant forall c :: c in subscribers && c !in eventSubscribers ==> channels[c] == Close(before[c], |log|)
        decreases |eventSubscribers|
      {
        var c :| c in eventSubscribers;
        panicked := panicked || !channels[c].open;
        channels := channels[c := Close(channels[c], |log|)];
        eventSubscribers := eventSubscribers - {c};
      }
    }

    method CloseEventStreams()
      requires Inv(View())
      modifies this
      ensures Inv(View()) && View() == CloseStreams(old(View()))
      ensures eventsClosed && eventSubscribers == {} && channels.Keys == old(channels.Keys)
      ensures forall c :: c in channels ==>
        !channels[c].open && channels[c].buffer == old(channels)[c].buffer
      ensures log == old(log) && lastId == old(lastId)
    {
      StepKeepsInv(View(), DoCloseStreams);
      ghost var after := CloseStreams(View());
      CloseAll();
      eventsClosed := true;
      assert channels == after.channels;
    }
  }
}
