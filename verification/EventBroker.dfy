/** The event broker of internal/events/service.go: subscriptions, publishing and streams. */
module EventBroker {
  import opened Basics

  const BUFFER := 16

  datatype Event = Event(name: string, deviceId: string, productId: string, data: string)

  /** An empty field of a filter matches everything. */
  datatype Filter = Filter(prefix: string, deviceId: string, productId: string)

  predicate Matches(filter: Filter, event: Event) {
    && (filter.prefix != "" ==> filter.prefix <= event.name)
    && (filter.deviceId != "" ==> event.deviceId == filter.deviceId)
    && (filter.productId != "" ==> event.productId == filter.productId)
  }

  datatype Channel = Channel(buffer: seq<Event>, closed: bool)

  /**
   * What became of one matching event: the publish it came from, whether the channel
   * had room for it, and how many events the subscriber had taken by then.
   */
  datatype Offer = Offer(publish: nat, event: Event, kept: bool, taken: nat)

  /**
   * The history of a subscription: its filter, the number of publishes started before
   * it was made and before it was cancelled, its offers, and what was received.
   */
  datatype Log = Log(filter: Filter, since: nat, until: Option<nat>, offers: seq<Offer>, received: seq<Event>)

  /** A publish holding the read lock, with the subscribers it has yet to visit. */
  datatype Publisher = Publisher(event: Event, remaining: set<nat>)

  /**
   * The subscriber map and the channels, both keyed by subscription; the publishes
   * holding the read lock; the cancellation holding the write lock between its delete
   * and its close; the clean-up goroutines yet to run; and the history.
   */
  datatype Broker = Broker(
    nextId: nat,
    subscribers: map<nat, Filter>,
    channels: map<nat, Channel>,
    active: map<nat, Publisher>,
    closing: Option<nat>,
    cleanups: set<nat>,
    panicked: bool,
    published: seq<Event>,
    logs: map<nat, Log>)

  const EMPTY := Broker(0, map[], map[], map[], None, {}, false, [], map[])

  datatype Step =
    | Subscribed(filter: Filter)
    | CancelStarted(id: nat)
    | CancelEnded
    | PublishStarted(event: Event)
    | Visited(publish: nat, id: nat)
    | PublishEnded(publish: nat)
    | Received(id: nat)

  // ---------------------------------------------------------------- steps

  predicate Unlocked(b: Broker) {
    b.active == map[] && b.closing.None?
  }

  function Subscribe(b: Broker, filter: Filter): Broker {
    b.(nextId := b.nextId + 1,
       subscribers := b.subscribers[b.nextId := filter],
       channels := b.channels[b.nextId := Channel([], false)],
       cleanups := b.cleanups + {b.nextId},
       logs := b.logs[b.nextId := Log(filter, |b.published|, None, [], [])])
  }

  /** The clean-up goroutine takes the write lock and deletes its subscription. */
  function StartCancel(b: Broker, id: nat): Broker
    requires id in b.logs
  {
    b.(subscribers := b.subscribers - {id},
       closing := Some(id),
       cleanups := b.cleanups - {id},
       logs := b.logs[id := b.logs[id].(until := Some(|b.published|))])
  }

  /** It closes the channel, which panics when the channel is closed already, and unlocks. */
  function EndCancel(b: Broker): Broker
    requires b.closing.Some? && b.closing.value in b.channels
  {
    var id := b.closing.value;
    b.(closing := None,
       panicked := b.panicked || b.channels[id].closed,
       channels := b.channels[id := b.channels[id].(closed := true)])
  }

  function StartPublish(b: Broker, event: Event): Broker {
    b.(published := b.published + [event], active := b.active[|b.published| := Publisher(event, b.subscribers.Keys)])
  }

  /** A send that does not block: the event is dropped when the buffer is full. */
  function Sent(channel: Channel, event: Event): Channel {
    if !channel.closed && |channel.buffer| < BUFFER then channel.(buffer := channel.buffer + [event]) else channel
  }

  function Noted(log: Log, channel: Channel, publish: nat, event: Event): Log {
    log.(offers := log.offers + [Offer(publish, event, |channel.buffer| < BUFFER, |log.received|)])
  }

  /** One turn of the loop in publishToSubscribers. */
  function Visit(b: Broker, publish: nat, id: nat): Broker
    requires publish in b.active && id in b.subscribers && id in b.channels && id in b.logs
  {
    var event := b.active[publish].event;
    var visited := b.(active := b.active[publish := Publisher(event, b.active[publish].remaining - {id})]);
    if !Matches(b.subscribers[id], event) then visited
    else visited.(
        panicked := b.panicked || b.channels[id].closed,
        channels := b.channels[id := Sent(b.channels[id], event)],
        logs := b.logs[id := Noted(b.logs[id], b.channels[id], publish, event)])
  }

  function EndPublish(b: Broker, publish: nat): Broker {
    b.(active := b.active - {publish})
  }

  function Receive(b: Broker, id: nat): Broker
    requires id in b.channels && b.channels[id].buffer != [] && id in b.logs
  {
    var buffer := b.channels[id].buffer;
    b.(channels := b.channels[id := b.channels[id].(buffer := buffer[1..])],
       logs := b.logs[id := b.logs[id].(received := b.logs[id].received + [buffer[0]])])
  }

  /** A step changes nothing when the lock, or the state of the goroutine, does not allow it. */
  predicate Enabled(b: Broker, step: Step) {
    match step
    case Subscribed(_) => Unlocked(b)
    case CancelStarted(id) => Unlocked(b) && id in b.cleanups && id in b.logs
    case CancelEnded => b.closing.Some? && b.closing.value in b.channels
    case PublishStarted(_) => b.closing.None?
    case Visited(publish, id) =>
      && publish in b.active && id in b.active[publish].remaining
      && id in b.subscribers && id in b.channels && id in b.logs
    case PublishEnded(publish) => publish in b.active && b.active[publish].remaining == {}
    case Received(id) => id in b.channels && b.channels[id].buffer != [] && id in b.logs
  }

  function Apply(b: Broker, step: Step): Broker {
    if !Enabled(b, step) then b
    else
      match step
      case Subscribed(filter) => Subscribe(b, filter)
      case CancelStarted(id) => StartCancel(b, id)
      case CancelEnded => EndCancel(b)
      case PublishStarted(event) => StartPublish(b, event)
      case Visited(publish, id) => Visit(b, publish, id)
      case PublishEnded(publish) => EndPublish(b, publish)
      case Received(id) => Receive(b, id)
  }

  function Execute(steps: seq<Step>): Broker {
    if steps == [] then EMPTY else Apply(Execute(steps[..|steps| - 1]), steps[|steps| - 1])
  }

  // ---------------------------------------------------------------- open channels

  /** A subscriber is in the map exactly while its channel is open and not being closed. */
  ghost predicate OpenWhileSubscribed(b: Broker) {
    && (forall id: nat :: id in b.channels <==> id < b.nextId)
    && b.logs.Keys == b.channels.Keys
    && b.cleanups == b.subscribers.Keys
    && (forall id :: id in b.subscribers ==> id in b.channels)
    && (forall id :: id in b.channels ==> (!b.channels[id].closed <==> id in b.subscribers || b.closing == Some(id)))
    && (b.closing.Some? ==> b.active == map[] && b.closing.value in b.channels && b.closing.value !in b.subscribers)
    && (forall n :: n in b.active ==> b.active[n].remaining <= b.subscribers.Keys)
    && !b.panicked
  }

  /**
   * Under every interleaving the lock allows, no event is sent on a closed channel, no
   * channel is closed twice, and subscribers are exactly the open channels whenever the
   * write lock is free.
   */
  lemma {:induction false} EveryRunIsOpenWhileSubscribed(steps: seq<Step>)
    ensures OpenWhileSubscribed(Execute(steps))
  {
    hide Apply, OpenWhileSubscribed;
    if steps == [] {
      EmptyIsTracked();
    } else {
      EveryRunIsOpenWhileSubscribed(steps[..|steps| - 1]);
      StaysOpenWhileSubscribed(Execute(steps[..|steps| - 1]), steps[|steps| - 1]);
    }
  }

  lemma StaysOpenWhileSubscribed(b: Broker, step: Step)
    requires OpenWhileSubscribed(b)
    ensures OpenWhileSubscribed(Apply(b, step))
  {
    hide Matches, Noted;
  }

  lemma EmptyIsTracked()
    ensures OpenWhileSubscribed(EMPTY) && Tracked(EMPTY) && InOrder(EMPTY)
  {
  }

  // ---------------------------------------------------------------- streams

  function Kept(offers: seq<Offer>): seq<Event> {
    if offers == [] then []
    else
      var last := offers[|offers| - 1];
      Kept(offers[..|offers| - 1]) + (if last.kept then [last.event] else [])
  }

  function Until(b: Broker, log: Log): nat {
    if log.until.Some? then log.until.value else |b.published|
  }

  predicate WasOffered(log: Log, publish: nat) {
    exists i :: 0 <= i < |log.offers| && log.offers[i].publish == publish
  }

  predicate StillToVisit(b: Broker, publish: nat, id: nat) {
    publish in b.active && id in b.active[publish].remaining
  }

  /** The offers of a subscription are matching publishes made while it was subscribed, each once. */
  ghost predicate OffersMatch(b: Broker, log: Log) {
    && log.since <= Until(b, log) <= |b.published|
    && (forall i :: 0 <= i < |log.offers| ==> OfferMatches(b, log, log.offers[i]))
    && (forall i, j :: 0 <= i < j < |log.offers| ==> log.offers[i].publish != log.offers[j].publish)
  }

  ghost predicate OfferMatches(b: Broker, log: Log, offer: Offer) {
    && log.since <= offer.publish < Until(b, log) && offer.publish < |b.published|
    && offer.event == b.published[offer.publish] && Matches(log.filter, offer.event)
  }

  /** A matching publish made while it was subscribed was offered, or is still to reach it. */
  ghost predicate NoneSkipped(b: Broker, id: nat, log: Log) {
    forall n: nat :: log.since <= n < Until(b, log) && n < |b.published| && Matches(log.filter, b.published[n]) ==>
      WasOffered(log, n) || StillToVisit(b, n, id)
  }

  ghost predicate NotYetVisited(b: Broker, id: nat, log: Log) {
    forall n :: StillToVisit(b, n, id) ==> log.since <= n && !WasOffered(log, n) && log.until.None?
  }

  /** What was received, then what is buffered, is what was kept, in order; and an event was lost exactly when 16 were buffered. */
  ghost predicate StreamIsKept(log: Log, channel: Channel) {
    && log.received + channel.buffer == Kept(log.offers)
    && |channel.buffer| <= BUFFER
    && (forall i :: 0 <= i < |log.offers| ==>
          (log.offers[i].kept <==> |Kept(log.offers[..i])| < log.offers[i].taken + BUFFER))
  }

  ghost predicate LogTracked(b: Broker, id: nat)
    requires id in b.logs
  {
    var log := b.logs[id];
    && (id in b.subscribers <==> log.until.None?)
    && (id in b.subscribers ==> b.subscribers[id] == log.filter)
    && OffersMatch(b, log) && NoneSkipped(b, id, log) && NotYetVisited(b, id, log)
    && id in b.channels && StreamIsKept(log, b.channels[id])
  }

  ghost predicate Tracked(b: Broker) {
    && (forall n :: n in b.active ==> n < |b.published| && b.active[n].event == b.published[n])
    && (forall id :: id in b.logs ==> LogTracked(b, id))
  }

  /** Under every interleaving, each stream is made of the matching publishes of its time, each at most once. */
  lemma {:induction false} EveryRunIsTracked(steps: seq<Step>)
    ensures Tracked(Execute(steps))
  {
    hide Apply, OpenWhileSubscribed, Tracked, InOrder;
    if steps == [] {
      EmptyIsTracked();
    } else {
      EveryRunIsTracked(steps[..|steps| - 1]);
      EveryRunIsOpenWhileSubscribed(steps[..|steps| - 1]);
      StaysTracked(Execute(steps[..|steps| - 1]), steps[|steps| - 1]);
    }
  }

  lemma StaysTracked(b: Broker, step: Step)
    requires OpenWhileSubscribed(b) && Tracked(b)
    ensures Tracked(Apply(b, step))
  {
    hide LogTracked, Matches, Noted, Sent;
    var after := Apply(b, step);
    forall id | id in after.logs ensures LogTracked(after, id) {
      LogStaysTracked(b, step, id);
    }
  }

  lemma LogStaysTracked(b: Broker, step: Step, id: nat)
    requires OpenWhileSubscribed(b) && Tracked(b) && id in Apply(b, step).logs
    ensures LogTracked(Apply(b, step), id)
  {
    hide LogTracked, Subscribe, StartCancel, EndCancel, StartPublish, Visit, EndPublish, Receive;
    if Enabled(b, step) {
      if !step.Subscribed? {
        EarlierLog(b, step, id);
      }
      match step
      case Subscribed(filter) => TrackedAfterSubscribe(b, filter, id);
      case CancelStarted(other) => TrackedAfterStartCancel(b, other, id);
      case CancelEnded => TrackedAfterEndCancel(b, id);
      case PublishStarted(event) => TrackedAfterStartPublish(b, event, id);
      case Visited(publish, other) => TrackedAfterVisit(b, publish, other, id);
      case PublishEnded(publish) => TrackedAfterEndPublish(b, publish, id);
      case Received(other) => TrackedAfterReceive(b, other, id);
    }
  }

  lemma EarlierLog(b: Broker, step: Step, id: nat)
    requires id in Apply(b, step).logs && !(step.Subscribed? && Enabled(b, step))
    ensures id in b.logs
  {
    hide Matches, Noted, Sent, Unlocked;
  }

  /** A step that leaves a subscription alone leaves what is known of it. */
  lemma TrackedAside(b: Broker, after: Broker, id: nat)
    requires id in b.logs && LogTracked(b, id)
    requires id in after.logs && after.logs[id] == b.logs[id]
    requires id in after.channels && b.channels[id].buffer == after.channels[id].buffer
    requires b.published == after.published
    requires id in b.subscribers <==> id in after.subscribers
    requires id in b.subscribers ==> b.subscribers[id] == after.subscribers[id]
    requires forall n :: StillToVisit(b, n, id) <==> StillToVisit(after, n, id)
    ensures LogTracked(after, id)
  {
    hide StillToVisit, Matches, WasOffered, Kept;
    var log := b.logs[id];
    assert forall i :: 0 <= i < |log.offers| && OfferMatches(b, log, log.offers[i]) ==> OfferMatches(after, log, log.offers[i]);
  }

  lemma TrackedAfterSubscribe(b: Broker, filter: Filter, id: nat)
    requires OpenWhileSubscribed(b) && Tracked(b) && Unlocked(b) && id in Subscribe(b, filter).logs
    ensures LogTracked(Subscribe(b, filter), id)
  {
    hide LogTracked;
    if id == b.nextId {
      TrackedWhenNew(b, filter);
    } else {
      TrackedAside(b, Subscribe(b, filter), id);
    }
  }

  lemma TrackedWhenNew(b: Broker, filter: Filter)
    requires b.active == map[]
    ensures LogTracked(Subscribe(b, filter), b.nextId)
  {
    hide Matches;
    assert Subscribe(b, filter).logs[b.nextId] == Log(filter, |b.published|, None, [], []);
  }

  lemma TrackedAfterStartCancel(b: Broker, other: nat, id: nat)
    requires OpenWhileSubscribed(b) && Tracked(b) && Enabled(b, CancelStarted(other)) && id in b.logs
    ensures LogTracked(StartCancel(b, other), id)
  {
    hide LogTracked;
    if id == other {
      TrackedWhenCancelled(b, id);
    } else {
      TrackedAside(b, StartCancel(b, other), id);
    }
  }

  lemma TrackedWhenCancelled(b: Broker, id: nat)
    requires OpenWhileSubscribed(b) && Tracked(b) && Enabled(b, CancelStarted(id))
    ensures LogTracked(StartCancel(b, id), id)
  {
    hide Matches, Kept, WasOffered;
    var after, log, log' := StartCancel(b, id), b.logs[id], StartCancel(b, id).logs[id];
    assert LogTracked(b, id);
    assert forall i :: 0 <= i < |log.offers| && OfferMatches(b, log, log.offers[i]) ==> OfferMatches(after, log', log.offers[i]);
    SameOffers(log, log');
  }

  lemma SameOffers(log: Log, log': Log)
    requires log.offers == log'.offers
    ensures forall n :: WasOffered(log, n) <==> WasOffered(log', n)
  {
  }

  lemma TrackedAfterEndCancel(b: Broker, id: nat)
    requires OpenWhileSubscribed(b) && Tracked(b) && Enabled(b, CancelEnded) && id in b.logs
    ensures LogTracked(EndCancel(b), id)
  {
    hide LogTracked;
    TrackedAside(b, EndCancel(b), id);
  }

  lemma TrackedAfterEndPublish(b: Broker, publish: nat, id: nat)
    requires OpenWhileSubscribed(b) && Tracked(b) && Enabled(b, PublishEnded(publish)) && id in b.logs
    ensures LogTracked(EndPublish(b, publish), id)
  {
    hide LogTracked;
    TrackedAside(b, EndPublish(b, publish), id);
  }

  lemma TrackedAfterStartPublish(b: Broker, event: Event, id: nat)
    requires OpenWhileSubscribed(b) && Tracked(b) && b.closing.None? && id in b.logs
    ensures LogTracked(StartPublish(b, event), id)
  {
    hide Matches, Kept, WasOffered, OfferMatches, StreamIsKept;
    var after, log := StartPublish(b, event), b.logs[id];
    assert LogTracked(b, id);
    forall i | 0 <= i < |log.offers| ensures OfferMatches(after, log, log.offers[i]) {
      OfferStillMatches(b, after, log, log.offers[i]);
    }
    NotOfferedYet(b, log);
    assert forall n :: StillToVisit(after, n, id) <==>
                       StillToVisit(b, n, id) || (n == |b.published| && id in b.subscribers);
    hide StillToVisit;
    assert OffersMatch(after, log);
    assert NotYetVisited(after, id, log);
    assert NoneSkipped(after, id, log);
  }

  lemma OfferStillMatches(b: Broker, after: Broker, log: Log, offer: Offer)
    requires OfferMatches(b, log, offer) && b.published <= after.published && Until(b, log) <= Until(after, log)
    ensures OfferMatches(after, log, offer)
  {
  }

  lemma NotOfferedYet(b: Broker, log: Log)
    requires OffersMatch(b, log)
    ensures !WasOffered(log, |b.published|)
  {
    assert forall i :: 0 <= i < |log.offers| ==> OfferMatches(b, log, log.offers[i]);
  }

  lemma TrackedAfterReceive(b: Broker, other: nat, id: nat)
    requires OpenWhileSubscribed(b) && Tracked(b) && Enabled(b, Received(other)) && id in b.logs
    ensures LogTracked(Receive(b, other), id)
  {
    hide LogTracked, OpenWhileSubscribed;
    if id == other {
      ReceiveIsTracked(b, id);
    } else {
      assert id in b.channels by {
        assert LogTracked(b, id) ==> id in b.channels by { KnownChannel(b, id); }
      }
      TrackedAside(b, Receive(b, other), id);
    }
  }

  lemma KnownChannel(b: Broker, id: nat)
    requires id in b.logs
    ensures LogTracked(b, id) ==> id in b.channels
  {
  }

  lemma ReceiveIsTracked(b: Broker, id: nat)
    requires id in b.logs && LogTracked(b, id) && Enabled(b, Received(id))
    ensures LogTracked(Receive(b, id), id)
  {
    hide Matches, Kept, WasOffered, StreamIsKept;
    var after, log, log' := Receive(b, id), b.logs[id], Receive(b, id).logs[id];
    assert forall i :: 0 <= i < |log.offers| && OfferMatches(b, log, log.offers[i]) ==> OfferMatches(after, log', log.offers[i]);
    SameOffers(log, log');
    StreamReceived(log, b.channels[id]);
    assert StreamIsKept(log', after.channels[id]);
    assert OffersMatch(after, log');
    assert forall n :: StillToVisit(b, n, id) <==> StillToVisit(after, n, id);
    hide StillToVisit;
    assert NoneSkipped(after, id, log') && NotYetVisited(after, id, log');
  }

  lemma StreamReceived(log: Log, channel: Channel)
    requires StreamIsKept(log, channel) && channel.buffer != []
    ensures StreamIsKept(log.(received := log.received + [channel.buffer[0]]), channel.(buffer := channel.buffer[1..]))
  {
    hide Kept;
    assert log.received + [channel.buffer[0]] + channel.buffer[1..] == log.received + channel.buffer;
  }

  lemma TrackedAfterVisit(b: Broker, publish: nat, other: nat, id: nat)
    requires OpenWhileSubscribed(b) && Tracked(b) && Enabled(b, Visited(publish, other)) && id in b.logs
    ensures LogTracked(Visit(b, publish, other), id)
  {
    hide Matches, Kept, Noted, Sent, LogTracked;
    var after := Visit(b, publish, other);
    if id != other {
      TrackedAside(b, after, id);
    } else if Matches(b.subscribers[id], b.active[publish].event) {
      OfferIsTracked(b, publish, id);
    } else {
      PassedOver(b, publish, id);
    }
  }

  lemma PassedOver(b: Broker, publish: nat, id: nat)
    requires OpenWhileSubscribed(b) && Tracked(b) && Enabled(b, Visited(publish, id))
    requires !Matches(b.subscribers[id], b.active[publish].event)
    ensures LogTracked(Visit(b, publish, id), id)
  {
    hide Matches, Kept, WasOffered;
    var after, log := Visit(b, publish, id), b.logs[id];
    assert LogTracked(b, id);
    assert forall i :: 0 <= i < |log.offers| && OfferMatches(b, log, log.offers[i]) ==> OfferMatches(after, log, log.offers[i]);
    assert OffersMatch(after, log);
    assert forall n :: StillToVisit(b, n, id) <==> n == publish || StillToVisit(after, n, id);
    hide StillToVisit;
    assert NoneSkipped(after, id, log) && NotYetVisited(after, id, log);
  }

  lemma OfferIsTracked(b: Broker, publish: nat, id: nat)
    requires OpenWhileSubscribed(b) && Tracked(b) && Enabled(b, Visited(publish, id))
    requires Matches(b.subscribers[id], b.active[publish].event)
    ensures LogTracked(Visit(b, publish, id), id)
  {
    hide Matches, Kept, WasOffered, Noted, Sent, OffersMatch, StreamIsKept;
    assert LogTracked(b, id) && StillToVisit(b, publish, id);
    var after, log, log' := Visit(b, publish, id), b.logs[id], Visit(b, publish, id).logs[id];
    StreamOffered(log, b.channels[id], publish, b.active[publish].event);
    OffersExtended(b, log, b.channels[id], publish);
    assert OffersMatch(after, log') by {
      SamePublished(b, after, log');
    }
    assert forall n :: StillToVisit(b, n, id) <==> n == publish || StillToVisit(after, n, id);
    assert !StillToVisit(after, publish, id);
    hide StillToVisit;
    assert NoneSkipped(after, id, log') && NotYetVisited(after, id, log');
  }

  lemma NoneOffered(log: Log, publish: nat)
    requires !WasOffered(log, publish)
    ensures forall i :: 0 <= i < |log.offers| ==> log.offers[i].publish != publish
  {
  }

  lemma SamePublished(b: Broker, after: Broker, log: Log)
    requires OffersMatch(b, log) && after.published == b.published
    ensures OffersMatch(after, log)
  {
    hide Matches;
    assert forall i :: 0 <= i < |log.offers| && OfferMatches(b, log, log.offers[i]) ==> OfferMatches(after, log, log.offers[i]);
  }

  /** A first offer of a matching publish leaves the offers the matching publishes, each once. */
  lemma OffersExtended(b: Broker, log: Log, channel: Channel, publish: nat)
    requires OffersMatch(b, log) && log.since <= publish < Until(b, log) && !WasOffered(log, publish)
    requires Matches(log.filter, b.published[publish])
    ensures var log' := Noted(log, channel, publish, b.published[publish]);
            && OffersMatch(b, log')
            && log' == log.(offers := log'.offers)
            && forall n :: WasOffered(log', n) <==> WasOffered(log, n) || n == publish
  {
    hide Matches;
    var log' := Noted(log, channel, publish, b.published[publish]);
    NoneOffered(log, publish);
    assert forall i :: 0 <= i < |log.offers| && OfferMatches(b, log, log.offers[i]) ==> OfferMatches(b, log', log'.offers[i]);
    assert OfferMatches(b, log', log'.offers[|log.offers|]);
    assert WasOffered(log', publish) by {
      assert log'.offers[|log.offers|].publish == publish;
    }
    forall n | WasOffered(log, n) ensures WasOffered(log', n) {
      var i :| 0 <= i < |log.offers| && log.offers[i].publish == n;
      assert log'.offers[i].publish == n;
    }
  }

  /** Offering one more event keeps the stream the received and buffered part of what was kept. */
  lemma StreamOffered(log: Log, channel: Channel, publish: nat, event: Event)
    requires StreamIsKept(log, channel) && !channel.closed
    ensures StreamIsKept(Noted(log, channel, publish, event), Sent(channel, event))
  {
    var log' := Noted(log, channel, publish, event);
    assert log'.offers[..|log.offers|] == log.offers;
    assert forall i :: 0 <= i < |log.offers| ==> log'.offers[i] == log.offers[i] && log'.offers[..i] == log.offers[..i];
  }

  // ---------------------------------------------------------------- one publish at a time

  ghost predicate OneAtATime(steps: seq<Step>) {
    forall k :: 0 <= k < |steps| && steps[k].PublishStarted? ==> Execute(steps[..k]).active == map[]
  }

  ghost predicate InOrder(b: Broker) {
    && (forall n :: n in b.active ==> n == |b.published| - 1)
    && (forall id :: id in b.logs ==> Increasing(b.logs[id].offers))
  }

  ghost predicate Increasing(offers: seq<Offer>) {
    forall i, j :: 0 <= i < j < |offers| ==> offers[i].publish < offers[j].publish
  }

  lemma {:induction false} EveryRunIsInOrder(steps: seq<Step>)
    requires OneAtATime(steps)
    ensures InOrder(Execute(steps))
  {
    hide Apply, OpenWhileSubscribed, Tracked, InOrder;
    if steps == [] {
      EmptyIsTracked();
    } else {
      var before := steps[..|steps| - 1];
      assert forall k :: 0 <= k <= |before| ==> before[..k] == steps[..k];
      EveryRunIsInOrder(before);
      EveryRunIsTracked(before);
      StaysInOrder(Execute(before), steps[|steps| - 1]);
    }
  }

  lemma StaysInOrder(b: Broker, step: Step)
    requires Tracked(b) && InOrder(b) && (step.PublishStarted? ==> b.active == map[])
    ensures InOrder(Apply(b, step))
  {
    hide Matches, Sent, LogTracked;
    if step.Visited? && Enabled(b, step) {
      OffersPrecede(b, step.publish, step.id);
    }
  }

  lemma OffersPrecede(b: Broker, publish: nat, id: nat)
    requires Tracked(b) && id in b.logs && StillToVisit(b, publish, id) && publish == |b.published| - 1
    ensures forall i :: 0 <= i < |b.logs[id].offers| ==> b.logs[id].offers[i].publish < publish
  {
    hide Matches, Kept;
    assert LogTracked(b, id);
    NoneOffered(b.logs[id], publish);
    assert forall i :: 0 <= i < |b.logs[id].offers| ==> OfferMatches(b, b.logs[id], b.logs[id].offers[i]);
  }

  /** The matching publishes from `from` to `to`, in order. */
  function MatchingPublishes(filter: Filter, published: seq<Event>, from: nat, to: nat): seq<nat>
    requires from <= to <= |published|
  {
    if from == to then []
    else MatchingPublishes(filter, published, from, to - 1) + (if Matches(filter, published[to - 1]) then [to - 1] else [])
  }

  function Publishes(offers: seq<Offer>): seq<nat> {
    seq(|offers|, i requires 0 <= i < |offers| => offers[i].publish)
  }

  /**
   * With publishes taken one at a time and none in progress, every subscription was
   * offered exactly the matching events published while it was subscribed, in the order
   * of publishing. Its stream is the part of them that was kept, and an event was lost
   * exactly when 16 kept events were waiting to be received.
   */
  lemma StreamsFollowPublishes(steps: seq<Step>, id: nat)
    requires OneAtATime(steps) && Execute(steps).active == map[] && id in Execute(steps).logs
    ensures var b := Execute(steps);
            var log := b.logs[id];
            && OffersMatch(b, log)
            && Publishes(log.offers) == MatchingPublishes(log.filter, b.published, log.since, Until(b, log))
            && id in b.channels && StreamIsKept(log, b.channels[id])
  {
    EveryRunIsTracked(steps);
    EveryRunIsInOrder(steps);
    hide Execute, LogTracked, MatchingPublishes;
    OffersAreOrdered(Execute(steps), id);
  }

  lemma OffersAreOrdered(b: Broker, id: nat)
    requires Tracked(b) && InOrder(b) && b.active == map[] && id in b.logs
    ensures var log := b.logs[id];
            && OffersMatch(b, log)
            && Publishes(log.offers) == MatchingPublishes(log.filter, b.published, log.since, Until(b, log))
            && id in b.channels && StreamIsKept(log, b.channels[id])
  {
    hide Matches, Kept, MatchingPublishes, WasOffered, StreamIsKept;
    assert LogTracked(b, id);
    var log := b.logs[id];
    assert forall i :: 0 <= i < |log.offers| ==> OfferMatches(b, log, log.offers[i]);
    forall n: nat | log.since <= n < Until(b, log) && Matches(log.filter, b.published[n]) ensures n in Publishes(log.offers) {
      assert !StillToVisit(b, n, id);
      OfferedAmong(log, n);
    }
    Enumerates(Publishes(log.offers), log.filter, b.published, log.since, Until(b, log));
  }

  lemma OfferedAmong(log: Log, publish: nat)
    requires WasOffered(log, publish)
    ensures publish in Publishes(log.offers)
  {
    var i :| 0 <= i < |log.offers| && log.offers[i].publish == publish;
    assert Publishes(log.offers)[i] == publish;
  }

  /** An increasing list of exactly the matching publishes. */
  ghost predicate IsEnumeration(s: seq<nat>, filter: Filter, published: seq<Event>, from: nat, to: nat)
    requires from <= to <= |published|
  {
    && (forall i, j :: 0 <= i < j < |s| ==> s[i] < s[j])
    && (forall i :: 0 <= i < |s| ==> from <= s[i] < to && Matches(filter, published[s[i]]))
    && (forall n: nat :: from <= n < to && Matches(filter, published[n]) ==> n in s)
  }

  /** There is only one such list: all the matching publishes in order. */
  lemma {:induction false} Enumerates(s: seq<nat>, filter: Filter, published: seq<Event>, from: nat, to: nat)
    requires from <= to <= |published| && IsEnumeration(s, filter, published, from, to)
    ensures s == MatchingPublishes(filter, published, from, to)
  {
    hide Matches, MatchingPublishes, IsEnumeration;
    if from == to {
      NonEmptyWithin(s, filter, published, from, to);
      NoPublishes(filter, published, from);
    } else {
      OneMorePublish(filter, published, from, to);
      if Matches(filter, published[to - 1]) {
        WithoutLast(s, filter, published, from, to);
        Enumerates(s[..|s| - 1], filter, published, from, to - 1);
      } else {
        ButLast(s, filter, published, from, to);
        Enumerates(s, filter, published, from, to - 1);
      }
    }
  }

  lemma WithoutLast(s: seq<nat>, filter: Filter, published: seq<Event>, from: nat, to: nat)
    requires from < to <= |published| && IsEnumeration(s, filter, published, from, to) && Matches(filter, published[to - 1])
    ensures s != [] && s == s[..|s| - 1] + [to - 1]
    ensures IsEnumeration(s[..|s| - 1], filter, published, from, to - 1)
  {
    hide Matches;
    LargestIsLast(s, to - 1);
    forall i | 0 <= i < |s| - 1 ensures s[i] < to - 1 {
      assert s[i] < s[|s| - 1];
    }
  }

  lemma ButLast(s: seq<nat>, filter: Filter, published: seq<Event>, from: nat, to: nat)
    requires from < to <= |published| && IsEnumeration(s, filter, published, from, to) && !Matches(filter, published[to - 1])
    ensures IsEnumeration(s, filter, published, from, to - 1)
  {
    hide Matches;
  }

  lemma NoPublishes(filter: Filter, published: seq<Event>, from: nat)
    requires from <= |published|
    ensures MatchingPublishes(filter, published, from, from) == []
  {
  }

  lemma OneMorePublish(filter: Filter, published: seq<Event>, from: nat, to: nat)
    requires from < to <= |published|
    ensures MatchingPublishes(filter, published, from, to) ==
            MatchingPublishes(filter, published, from, to - 1) + (if Matches(filter, published[to - 1]) then [to - 1] else [])
  {
  }

  lemma NonEmptyWithin(s: seq<nat>, filter: Filter, published: seq<Event>, from: nat, to: nat)
    requires from <= to <= |published| && IsEnumeration(s, filter, published, from, to)
    ensures |s| > 0 ==> from < to
  {
    if |s| > 0 {
      assert from <= s[0] < to;
    }
  }

  lemma LargestIsLast(s: seq<nat>, largest: nat)
    requires forall i, j :: 0 <= i < j < |s| ==> s[i] < s[j]
    requires forall i :: 0 <= i < |s| ==> s[i] <= largest
    requires largest in s
    ensures s[|s| - 1] == largest
    ensures forall n :: n in s && n != largest ==> n in s[..|s| - 1]
  {
    var k :| 0 <= k < |s| && s[k] == largest;
    assert s[k] <= s[|s| - 1];
    assert s == s[..|s| - 1] + [largest];
  }

  // ---------------------------------------------------------------- publishes that overlap

  /** Publish `a` had released its lock when publish `b` began, in step `k`. */
  ghost predicate EndedBefore(steps: seq<Step>, k: nat, a: nat, b: nat) {
    && k < |steps| && steps[k].PublishStarted?
    && var then_ := Execute(steps[..k]);
       then_.closing.None? && |then_.published| == b && a < b && a !in then_.active
  }

  function OffersTo(b: Broker, id: nat): seq<Offer> {
    if id in b.logs then b.logs[id].offers else []
  }

  /**
   * Under every interleaving, a publish that ended before another began precedes it
   * in every stream.
   */
  lemma EndedPublishesPrecede(steps: seq<Step>, k: nat, a: nat, b: nat, id: nat, i: nat, j: nat)
    requires EndedBefore(steps, k, a, b)
    requires var offers := OffersTo(Execute(steps), id);
             i < |offers| && j < |offers| && offers[i].publish == a && offers[j].publish == b
    ensures i < j
  {
    hide Execute, LogTracked, OpenWhileSubscribed;
    EveryRunIsTracked(steps[..k]);
    LaterOffers(steps, k, a, id);
    var earlier := OffersTo(Execute(steps[..k]), id);
    OffersKnown(Execute(steps[..k]), id);
    assert forall m :: 0 <= m < |earlier| ==> OffersTo(Execute(steps), id)[m] == earlier[m];
  }

  lemma OffersKnown(b: Broker, id: nat)
    requires Tracked(b)
    ensures forall i :: 0 <= i < |OffersTo(b, id)| ==> OffersTo(b, id)[i].publish < |b.published|
  {
    hide Kept, Matches;
    if id in b.logs {
      assert LogTracked(b, id);
      assert forall i :: 0 <= i < |b.logs[id].offers| ==> OfferMatches(b, b.logs[id], b.logs[id].offers[i]);
    }
  }

  /** After a publish has ended, only other publishes are offered. */
  lemma {:induction false} LaterOffers(steps: seq<Step>, k: nat, a: nat, id: nat)
    requires k <= |steps| && a < |Execute(steps[..k]).published| && a !in Execute(steps[..k]).active
    ensures a < |Execute(steps).published| && a !in Execute(steps).active
    ensures var earlier, offers := OffersTo(Execute(steps[..k]), id), OffersTo(Execute(steps), id);
            earlier <= offers && forall i :: |earlier| <= i < |offers| ==> offers[i].publish != a
    decreases |steps|
  {
    hide Apply, OpenWhileSubscribed;
    if k == |steps| {
      assert steps[..k] == steps;
    } else {
      var before := steps[..|steps| - 1];
      assert before[..k] == steps[..k];
      LaterOffers(before, k, a, id);
      EveryRunIsOpenWhileSubscribed(before);
      OneMoreOffer(Execute(before), steps[|steps| - 1], a, id);
    }
  }

  lemma OneMoreOffer(b: Broker, step: Step, a: nat, id: nat)
    requires OpenWhileSubscribed(b) && a < |b.published| && a !in b.active
    ensures a < |Apply(b, step).published| && a !in Apply(b, step).active
    ensures var earlier, offers := OffersTo(b, id), OffersTo(Apply(b, step), id);
            offers == earlier || (|offers| == |earlier| + 1 && earlier <= offers && offers[|earlier|].publish != a)
  {
    hide Matches, Sent;
  }

  /** Publishes that overlap may reach a subscriber out of order. */
  lemma OverlappingPublishesReorder(filter: Filter, first: Event, second: Event)
    requires Matches(filter, first) && Matches(filter, second)
    ensures var b := Execute([Subscribed(filter), PublishStarted(first), PublishStarted(second), Visited(1, 0), Visited(0, 0)]);
            && b.published == [first, second]
            && 0 in b.channels && b.channels[0].buffer == [second, first]
  {
    hide Matches, Execute, Apply;
    var steps := [Subscribed(filter), PublishStarted(first), PublishStarted(second)];
    ExecuteThree(steps[0], steps[1], steps[2]);
    assert steps + [Visited(1, 0)] + [Visited(0, 0)] == [steps[0], steps[1], steps[2], Visited(1, 0), Visited(0, 0)];
    ExecuteMore(steps, Visited(1, 0));
    ExecuteMore(steps + [Visited(1, 0)], Visited(0, 0));
    TwoStarted(filter, first, second);
    BothVisited(Execute(steps), filter, first, second);
  }

  lemma ExecuteMore(steps: seq<Step>, step: Step)
    ensures Execute(steps + [step]) == Apply(Execute(steps), step)
  {
    assert (steps + [step])[..|steps|] == steps;
  }

  lemma ExecuteThree(a: Step, b: Step, c: Step)
    ensures Execute([a, b, c]) == Apply(Apply(Apply(EMPTY, a), b), c)
  {
    hide Apply;
    ExecuteMore([], a);
    ExecuteMore([a], b);
    ExecuteMore([a, b], c);
    assert [] + [a] == [a] && [a] + [b] == [a, b] && [a, b] + [c] == [a, b, c];
  }

  ghost predicate BothStarted(b: Broker, filter: Filter, first: Event, second: Event) {
    && b.published == [first, second] && b.active == map[0 := Publisher(first, {0}), 1 := Publisher(second, {0})]
    && b.subscribers == map[0 := filter] && b.channels == map[0 := Channel([], false)] && 0 in b.logs
  }

  lemma TwoStarted(filter: Filter, first: Event, second: Event)
    ensures BothStarted(Apply(Apply(Apply(EMPTY, Subscribed(filter)), PublishStarted(first)), PublishStarted(second)), filter, first, second)
  {
    var one := Apply(EMPTY, Subscribed(filter));
    assert one.subscribers == map[0 := filter] && one.subscribers.Keys == {0};
    var two := Apply(one, PublishStarted(first));
    assert two.published == [first];
  }

  lemma BothVisited(b: Broker, filter: Filter, first: Event, second: Event)
    requires BothStarted(b, filter, first, second) && Matches(filter, first) && Matches(filter, second)
    ensures var after := Apply(Apply(b, Visited(1, 0)), Visited(0, 0));
            after.published == [first, second] && 0 in after.channels && after.channels[0].buffer == [second, first]
  {
    hide Matches;
    var one := Apply(b, Visited(1, 0));
    assert one.channels[0].buffer == [second];
  }

  // ---------------------------------------------------------------- the code

  /** The state in the middle of publish `n`, when it has visited `done`. */
  function Midway(b: Broker, event: Event, done: set<nat>): Broker
    requires b.subscribers.Keys <= b.channels.Keys && b.logs.Keys == b.channels.Keys
  {
    b.(published := b.published + [event],
       active := b.active[|b.published| := Publisher(event, b.subscribers.Keys - done)],
       channels := map id | id in b.channels ::
         if id in done && id in b.subscribers && Matches(b.subscribers[id], event)
         then Sent(b.channels[id], event) else b.channels[id],
       logs := map id | id in b.logs ::
         if id in done && id in b.subscribers && Matches(b.subscribers[id], event)
         then Noted(b.logs[id], b.channels[id], |b.published|, event) else b.logs[id])
  }

  /** A whole publish: every matching subscriber with room has the event added, whatever the order of visits. */
  function PublishToAll(b: Broker, event: Event): Broker
    requires b.subscribers.Keys <= b.channels.Keys && b.logs.Keys == b.channels.Keys
  {
    Midway(b, event, b.subscribers.Keys).(active := b.active)
  }

  lemma MidwayStarts(b: Broker, event: Event)
    requires b.subscribers.Keys <= b.channels.Keys && b.logs.Keys == b.channels.Keys && Unlocked(b)
    ensures Midway(b, event, {}) == Apply(b, PublishStarted(event))
  {
    assert Midway(b, event, {}).channels == b.channels && Midway(b, event, {}).logs == b.logs;
    assert b.subscribers.Keys - {} == b.subscribers.Keys;
  }

  lemma MidwayVisits(b: Broker, event: Event, done: set<nat>, id: nat)
    requires b.subscribers.Keys <= b.channels.Keys && b.logs.Keys == b.channels.Keys && Unlocked(b)
    requires id in b.subscribers && id !in done && !b.channels[id].closed
    ensures Midway(b, event, done + {id}) == Apply(Midway(b, event, done), Visited(|b.published|, id))
  {
    hide Matches, Sent, Noted;
    var now, next := Midway(b, event, done), Midway(b, event, done + {id});
    assert now.channels[id] == b.channels[id] && now.logs[id] == b.logs[id];
    assert b.subscribers.Keys - (done + {id}) == b.subscribers.Keys - done - {id};
    var after := Apply(now, Visited(|b.published|, id));
    assert next.channels == after.channels;
    assert next.logs == after.logs;
    assert next.active == after.active;
  }

  lemma MidwayEnds(b: Broker, event: Event)
    requires b.subscribers.Keys <= b.channels.Keys && b.logs.Keys == b.channels.Keys && Unlocked(b)
    ensures PublishToAll(b, event) == Apply(Midway(b, event, b.subscribers.Keys), PublishEnded(|b.published|))
  {
    assert b.subscribers.Keys - b.subscribers.Keys == {};
  }

  ghost predicate Sound(b: Broker) {
    OpenWhileSubscribed(b) && Tracked(b) && InOrder(b)
  }

  lemma StaysSound(b: Broker, step: Step)
    requires Sound(b) && (step.PublishStarted? ==> b.active == map[])
    ensures Sound(Apply(b, step))
  {
    hide Apply, OpenWhileSubscribed, Tracked, InOrder;
    StaysOpenWhileSubscribed(b, step);
    StaysTracked(b, step);
    StaysInOrder(b, step);
  }

  lemma WellFormed(b: Broker)
    requires Sound(b)
    ensures !b.panicked && b.nextId !in b.channels && b.logs.Keys == b.channels.Keys && b.cleanups == b.subscribers.Keys
    ensures forall id :: id in b.subscribers ==> id in b.channels && !b.channels[id].closed
  {
    hide Tracked, InOrder;
  }

  /** The subscribers visited one after another, in the given order. */
  function VisitAll(b: Broker, publish: nat, order: seq<nat>): Broker {
    if order == [] then b
    else Apply(VisitAll(b, publish, order[..|order| - 1]), Visited(publish, order[|order| - 1]))
  }

  function Elements(order: seq<nat>): set<nat> {
    set id | id in order
  }

  /** A publish comes out the same whatever the order in which it visits the subscribers. */
  lemma AnyVisitOrder(b: Broker, event: Event, order: seq<nat>)
    requires OpenWhileSubscribed(b) && Unlocked(b)
    requires forall i, j :: 0 <= i < j < |order| ==> order[i] != order[j]
    requires Elements(order) == b.subscribers.Keys
    ensures b.subscribers.Keys <= b.channels.Keys && b.logs.Keys == b.channels.Keys
    ensures Apply(VisitAll(Apply(b, PublishStarted(event)), |b.published|, order), PublishEnded(|b.published|))
         == PublishToAll(b, event)
  {
    SubscribersAreOpen(b);
    hide Midway, Apply, VisitAll, OpenWhileSubscribed, Elements;
    VisitedSoFar(b, event, order);
    MidwayEnds(b, event);
  }

  lemma SubscribersAreOpen(b: Broker)
    requires OpenWhileSubscribed(b) && Unlocked(b)
    ensures b.subscribers.Keys <= b.channels.Keys && b.logs.Keys == b.channels.Keys
    ensures forall id :: id in b.subscribers ==> !b.channels[id].closed
  {
  }

  lemma {:induction false} VisitedSoFar(b: Broker, event: Event, order: seq<nat>)
    requires b.subscribers.Keys <= b.channels.Keys && b.logs.Keys == b.channels.Keys && Unlocked(b)
    requires forall id :: id in b.subscribers ==> !b.channels[id].closed
    requires forall i, j :: 0 <= i < j < |order| ==> order[i] != order[j]
    requires Elements(order) <= b.subscribers.Keys
    ensures VisitAll(Apply(b, PublishStarted(event)), |b.published|, order) == Midway(b, event, Elements(order))
    decreases |order|
  {
    hide Midway, Apply;
    if order == [] {
      assert Elements(order) == {};
      MidwayStarts(b, event);
    } else {
      var earlier, id := order[..|order| - 1], order[|order| - 1];
      OneMoreElement(order);
      VisitedSoFar(b, event, earlier);
      MidwayVisits(b, event, Elements(earlier), id);
    }
  }

  lemma OneMoreElement(order: seq<nat>)
    requires order != [] && forall i, j :: 0 <= i < j < |order| ==> order[i] != order[j]
    ensures var earlier, id := order[..|order| - 1], order[|order| - 1];
            Elements(order) == Elements(earlier) + {id} && id !in Elements(earlier) && id in Elements(order)
  {
    assert order == order[..|order| - 1] + [order[|order| - 1]];
  }

  class Service {
    var nextId: nat
    var subscribers: map<nat, Filter>
    var channels: map<nat, Channel>
    var panicked: bool
    ghost var cleanups: set<nat>
    ghost var published: seq<Event>
    ghost var logs: map<nat, Log>

    /** The state while the publishes in `active` hold the read lock. */
    ghost function ViewDuring(active: map<nat, Publisher>): Broker
      reads this
    {
      Broker(nextId, subscribers, channels, active, None, cleanups, panicked, published, logs)
    }

    ghost function View(): Broker
      reads this
    {
      ViewDuring(map[])
    }

    constructor ()
      ensures Sound(View()) && View() == EMPTY
    {
      nextId, subscribers, channels, panicked := 0, map[], map[], false;
      cleanups, published, logs := {}, [], map[];
      new;
      EmptyIsTracked();
    }

    method Subscribe(filter: Filter) returns (id: nat)
      requires Sound(View())
      modifies this
      ensures Sound(View()) && View() == Apply(old(View()), Subscribed(filter))
      ensures id !in old(channels) && id in subscribers && subscribers[id] == filter
      ensures id in channels && channels[id] == Channel([], false)
    {
      hide Sound;
      StaysSound(View(), Subscribed(filter));
      WellFormed(View());
      id := nextId;
      nextId := nextId + 1;
      channels := channels[id := Channel([], false)];
      subscribers := subscribers[id := filter];
      cleanups := cleanups + {id};
      logs := logs[id := Log(filter, |published|, None, [], [])];
    }

    /** The clean-up goroutine of a subscription, which runs once, when its context ends. */
    method Cancel(id: nat)
      requires Sound(View()) && id in cleanups
      modifies this
      ensures Sound(View()) && View() == Apply(Apply(old(View()), CancelStarted(id)), CancelEnded)
      ensures id !in subscribers && id in channels && channels[id].closed && !panicked
    {
      hide Sound;
      WellFormed(View());
      StaysSound(View(), CancelStarted(id));
      StaysSound(Apply(View(), CancelStarted(id)), CancelEnded);
      cleanups := cleanups - {id};
      logs := logs[id := logs[id].(until := Some(|published|))];
      subscribers := subscribers - {id};
      panicked := panicked || channels[id].closed;
      channels := channels[id := channels[id].(closed := true)];
    }

    method PublishToSubscribers(event: Event)
      requires Sound(View())
      modifies this
      ensures Sound(View()) && View() == PublishToAll(old(View()), event) && !panicked
    {
      hide Sound, OpenWhileSubscribed, Matches, Midway, Noted, Visit;
      ghost var before, n, all := View(), |published|, subscribers.Keys;
      WellFormed(before);
      MidwayStarts(before, event);
      StaysSound(before, PublishStarted(event));
      MidwayEnds(before, event);
      assert before.active[n := Publisher(event, all)] == map[n := Publisher(event, all)];
      assert all - all == {};
      published := published + [event];
      var left := subscribers.Keys;
      while left != {}
        invariant left <= all == subscribers.Keys
        invariant ViewDuring(map[n := Publisher(event, left)]) == Midway(before, event, all - left)
        invariant Sound(ViewDuring(map[n := Publisher(event, left)]))
        decreases left
      {
        var id :| id in left;
        WellFormed(ViewDuring(map[n := Publisher(event, left)]));
        MidwayVisits(before, event, all - left, id);
        StaysSound(ViewDuring(map[n := Publisher(event, left)]), Visited(n, id));
        assert all - (left - {id}) == all - left + {id};
        Offer(event, id, n, left);
        left := left - {id};
      }
      assert all - left == all;
      assert map[n := Publisher(event, {})] - {n} == map[];
      StaysSound(ViewDuring(map[n := Publisher(event, {})]), PublishEnded(n));
      WellFormed(View());
    }

    /** One turn of the loop of a publish, which has `left` still to visit. */
    method Offer(event: Event, id: nat, ghost n: nat, ghost left: set<nat>)
      requires id in left && id in subscribers && id in channels && id in logs
      modifies this`channels, this`panicked, this`logs
      ensures ViewDuring(map[n := Publisher(event, left - {id})]) ==
              Visit(old(ViewDuring(map[n := Publisher(event, left)])), n, id)
    {
      if Matches(subscribers[id], event) {
        panicked := panicked || channels[id].closed;
        logs := logs[id := Noted(logs[id], channels[id], n, event)];
        if !channels[id].closed && |channels[id].buffer| < BUFFER {
          channels := channels[id := channels[id].(buffer := channels[id].buffer + [event])];
        }
      }
      assert map[n := Publisher(event, left)][n := Publisher(event, left - {id})] == map[n := Publisher(event, left - {id})];
    }

    /** A receive by the subscriber; on an empty channel it would wait, or report the close. */
    method Next(id: nat) returns (event: Option<Event>)
      requires Sound(View()) && id in channels
      modifies this`channels, this`logs
      ensures Sound(View()) && View() == Apply(old(View()), Received(id))
      ensures event == if old(channels)[id].buffer == [] then None else Some(old(channels)[id].buffer[0])
    {
      hide Sound;
      StaysSound(View(), Received(id));
      WellFormed(View());
      if channels[id].buffer == [] {
        return None;
      }
      event := Some(channels[id].buffer[0]);
      logs := logs[id := logs[id].(received := logs[id].received + [channels[id].buffer[0]])];
      channels := channels[id := channels[id].(buffer := channels[id].buffer[1..])];
    }
  }
}
